/**
 * The Container block's editor: when one of its children lists changes, the
 * handler patches the container's entry (its `props` replaced by the new
 * `{ childrenIds }`), adds the new child or the remapped component, and selects
 * the new child.
 */
module ContainerEditor {
  import opened Wrappers
  import opened Blocks
  import opened Store
  import opened ChildrenIds
  import opened TuneMenu

  /** The list the editor shows: `props?.childrenIds ?? []`. */
  function ContainerChildren(current: Block): (r: seq<Id>)
    ensures current.data.props.None? || PropsChildren(current).None? ==> r == []
    ensures PropsChildren(current).Some? ==> r == PropsChildren(current).value
    ensures forall c :: c in r <==> c in OrEmpty(PropsChildren(current))
  {
    OrEmpty(PropsChildren(current))
  }

  /**
   * `{ type: "Container", data: { ...current.data, props: { childrenIds } } }`:
   * every other data field is kept, `props` is replaced wholesale and the
   * entry carries no `_allBlocks`.
   */
  function ContainerEntry(current: Block, childrenIds: seq<Id>): (r: Block)
    ensures r.kind == ContainerKind && r.allBlocks.None?
    ensures r.data.style == current.data.style && r.data.childrenIds == current.data.childrenIds
    ensures r.data.rest == current.data.rest
    ensures ColumnsOf(r) == [] && PropsChildren(r) == Some(childrenIds)
    ensures r.data.props == Some(Props(Some(childrenIds), None, None, map[]))
    ensures Children(r) == OrEmpty(current.data.childrenIds) + childrenIds
  {
    Block(ContainerKind, current.data.(props := Some(Props(Some(childrenIds), None, None, map[]))), None)
  }

  /** The handler's `setDocument` argument. */
  function ContainerPatch(doc: Doc, cur: Id, ch: Change): (r: Doc)
    requires cur in doc.blocks
    requires ch.allBlocks.Some? ==> ch.allBlocks.value.WellFormed()
    ensures r.WellFormed()
    ensures cur in r.blocks && r.blocks[cur] == ContainerEntry(doc.blocks[cur], ch.childrenIds)
    ensures ch.allBlocks.None? ==> r.blocks.Keys == {ch.blockId, cur}
    ensures ch.allBlocks.Some? ==> r.blocks.Keys == ch.allBlocks.value.blocks.Keys + {cur}
  {
    ChangePatch(ch, cur, ContainerEntry(doc.blocks[cur], ch.childrenIds))
  }

  /** The `onChange` handler: merge the patch, then select the new child. */
  method OnChange(store: EditorStore, cur: Id, ch: Change)
    requires store.Valid() && cur in store.document.blocks
    requires ch.allBlocks.Some? ==> ch.allBlocks.value.WellFormed()
    modifies store
    ensures store.Valid()
    ensures store.document == Merge(old(store.document), ContainerPatch(old(store.document), cur, ch))
    ensures store.selectedBlockId == Some(ch.blockId)
    ensures store.selectedMainTab == old(store.selectedMainTab)
    ensures store.selectedScreenSize == old(store.selectedScreenSize)
  {
    var patch := ContainerPatch(store.document, cur, ch);
    store.SetDocument(patch);
    store.SetSelectedBlockId(Some(ch.blockId));
  }

  /**
   * An appended child is wired in: after the merge the container lists it
   * after its old children, the child is in the document, and copying the
   * container with its descendants reaches it.
   */
  lemma AppendedChildReached(doc: Doc, cur: Id, ch: Change)
    requires doc.WellFormed() && cur in doc.blocks && cur != ""
    requires ch.allBlocks.Some? ==> ch.allBlocks.value.WellFormed() && ch.blockId in ch.allBlocks.value.blocks
    requires ch.childrenIds == ContainerChildren(doc.blocks[cur]) + [ch.blockId]
    ensures var d := Merge(doc, ContainerPatch(doc, cur, ch));
      && PropsChildren(d.blocks[cur]) == Some(ContainerChildren(doc.blocks[cur]) + [ch.blockId])
      && ch.blockId in d.blocks
      && Reaches(d, cur, ch.blockId)
  {
    var entry := ContainerEntry(doc.blocks[cur], ch.childrenIds);
    PatchApplied(doc, ch, cur, entry);
    var d := Merge(doc, ContainerPatch(doc, cur, ch));
    assert d.blocks[cur] == entry;
    assert ch.blockId in Children(entry);
    ChildReached(d, cur, ch.blockId);
  }
}
