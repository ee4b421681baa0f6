/**
 * The editor store, reduced to the writes the modelled handlers make: the
 * current document, the selected block, the main tab and the screen size.
 * `SetDocument` merges a patch key by key and `ResetDocument` replaces the
 * whole document, the only way a key can disappear.
 */
module Store {
  import opened Wrappers
  import opened Blocks

  datatype MainTab = Editor | Preview | Html | Json
  datatype ScreenSize = Desktop | Mobile

  class EditorStore {
    var document: Doc
    var selectedBlockId: Option<Id>
    var selectedMainTab: MainTab
    var selectedScreenSize: ScreenSize

    ghost predicate Valid()
      reads this
    {
      document.WellFormed()
    }

    constructor (doc: Doc)
      requires doc.WellFormed()
      ensures Valid()
      ensures document == doc && selectedBlockId == None
      ensures selectedMainTab == Editor && selectedScreenSize == Desktop
    {
      document := doc;
      selectedBlockId := None;
      selectedMainTab := Editor;
      selectedScreenSize := Desktop;
    }

    /** `setDocument(patch)`: the patch's keys overwrite or extend the document. */
    method SetDocument(patch: Doc)
      requires Valid() && patch.WellFormed()
      modifies this
      ensures Valid()
      ensures document == Merge(old(document), patch)
      ensures selectedBlockId == old(selectedBlockId)
      ensures selectedMainTab == old(selectedMainTab) && selectedScreenSize == old(selectedScreenSize)
    {
      document := Merge(document, patch);
    }

    /** `resetDocument(doc)`: the document is replaced wholesale. */
    method ResetDocument(doc: Doc)
      requires Valid() && doc.WellFormed()
      modifies this
      ensures Valid()
      ensures document == doc
      ensures selectedBlockId == old(selectedBlockId)
      ensures selectedMainTab == old(selectedMainTab) && selectedScreenSize == old(selectedScreenSize)
    {
      document := doc;
    }

    method SetSelectedBlockId(id: Option<Id>)
      requires Valid()
      modifies this
      ensures Valid()
      ensures selectedBlockId == id
      ensures document == old(document)
      ensures selectedMainTab == old(selectedMainTab) && selectedScreenSize == old(selectedScreenSize)
    {
      selectedBlockId := id;
    }

    method SetSelectedMainTab(tab: MainTab)
      requires Valid()
      modifies this
      ensures Valid()
      ensures selectedMainTab == tab
      ensures document == old(document) && selectedBlockId == old(selectedBlockId)
      ensures selectedScreenSize == old(selectedScreenSize)
    {
      selectedMainTab := tab;
    }

    method SetSelectedScreenSize(size: ScreenSize)
      requires Valid()
      modifies this
      ensures Valid()
      ensures selectedScreenSize == size
      ensures document == old(document) && selectedBlockId == old(selectedBlockId)
      ensures selectedMainTab == old(selectedMainTab)
    {
      selectedScreenSize := size;
    }
  }
}
