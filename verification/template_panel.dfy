/**
 * The template panel's decisions: which block the document is shown from,
 * the screen-size switch, what the main area shows, and the guards and branch
 * choice of saving and duplicating a template. Requests to the server are
 * represented by the request the handler dispatches.
 */
module TemplatePanel {
  import opened Wrappers
  import opened Blocks
  import opened Store
  import opened Strings
  import FinalHtml

  /** The fallback root id. */
  const DefaultRoot: Id := "root"

  /**
   * `(document && keys.find(k => document[k]?.type === "EmailLayout")) || "root"`:
   * a missing document, no layout block, or a layout key that is the empty
   * string all give "root".
   */
  function RootBlockId(document: Option<Doc>): (r: Id)
    ensures r != ""
    ensures r == DefaultRoot || (document.Some? && FirstLayoutKey(document.value) == Some(r))
    ensures document.None? ==> r == DefaultRoot
  {
    if document.Some? && FirstLayoutKey(document.value).Some? && FirstLayoutKey(document.value).value != "" then
      FirstLayoutKey(document.value).value
    else DefaultRoot
  }

  /** The root found is the first layout key of the document. */
  lemma RootIsFirstLayout(document: Doc)
    requires RootBlockId(Some(document)) != DefaultRoot
    ensures var i := FindLayout(document.order, document.blocks).value;
      && RootBlockId(Some(document)) == document.order[i]
      && IsLayoutAt(document.blocks, document.order[i])
      && forall j :: 0 <= j < i ==> !IsLayoutAt(document.blocks, document.order[j])
  {
  }

  /**
   * The panel and the saved HTML (rendered from "root") start from the same
   * block exactly when the document's first layout key is "root", empty, or
   * absent.
   */
  lemma RootsAgree(document: Doc)
    ensures RootBlockId(Some(document)) == FinalHtml.RenderRoot <==>
      FirstLayoutKey(document) in {None, Some(""), Some(DefaultRoot)}
  {
  }

  /** The value each screen size reports. */
  function ScreenSizeName(s: ScreenSize): string {
    match s
    case Mobile => "mobile"
    case Desktop => "desktop"
  }

  /** `handleScreenSizeChange`'s switch: "mobile" and "desktop" map to themselves, anything else to desktop. */
  function NormaliseScreenSize(v: string): (r: ScreenSize)
    ensures r == Mobile <==> v == "mobile"
  {
    if v == "mobile" then Mobile else Desktop
  }

  /** A size's own name is stored unchanged. */
  lemma ScreenSizeRoundTrip(s: ScreenSize)
    ensures NormaliseScreenSize(ScreenSizeName(s)) == s
  {
  }

  /** `handleScreenSizeChange(_, v)`: one store write. */
  method HandleScreenSizeChange(store: EditorStore, v: string)
    requires store.Valid()
    modifies store
    ensures store.Valid()
    ensures store.selectedScreenSize == NormaliseScreenSize(v)
    ensures store.document == old(store.document) && store.selectedBlockId == old(store.selectedBlockId)
    ensures store.selectedMainTab == old(store.selectedMainTab)
  {
    store.SetSelectedScreenSize(NormaliseScreenSize(v));
  }

  /** What the main area shows. */
  datatype Panel = ReaderAt(root: Id) | EditorAt(root: Id) | HtmlPanel | JsonPanel

  /** `renderMainPanel`: preview mode shows the read-only reader whatever tab is selected. */
  function MainPanel(isPreviewMode: bool, tab: MainTab, root: Id): (r: Panel)
    ensures isPreviewMode ==> r == ReaderAt(root)
    ensures r.ReaderAt? <==> isPreviewMode || tab == Preview
    ensures r.HtmlPanel? <==> !isPreviewMode && tab == Html
    ensures r.JsonPanel? <==> !isPreviewMode && tab == Json
    ensures (r.ReaderAt? || r.EditorAt?) ==> r.root == root
  {
    if isPreviewMode then ReaderAt(root)
    else match tab
      case Editor => EditorAt(root)
      case Preview => ReaderAt(root)
      case Html => HtmlPanel
      case Json => JsonPanel
  }

  /** Only the editor tab outside preview mode lets the document be edited. */
  lemma EditableOnlyInEditor(isPreviewMode: bool, tab: MainTab, root: Id)
    ensures MainPanel(isPreviewMode, tab, root).EditorAt? <==> !isPreviewMode && tab == Editor
  {
  }

  /** The template record sent to the server. */
  datatype TemplateData = TemplateData(
    name: string, subject: string, fromEmailUsername: string, htmlBody: string, editorJson: Doc)

  /** What `handleSaveTemplate` does: a toast, an update of the current template, or a new template. */
  datatype SaveOutcome = Rejected(message: string) | Update(id: string, data: TemplateData) | Create(data: TemplateData)

  const NameRequired: string := "Template name is required"
  const SubjectRequired: string := "Email subject is required"

  /** The flags and ids `handleSaveTemplate` reads. */
  datatype SaveContext = SaveContext(isEditMode: bool, currentTemplateId: Option<string>, isDuplicateMode: bool)

  /** A template id that is present and not the empty string. */
  predicate HasId(id: Option<string>) {
    id.Some? && id.value != ""
  }

  /** `isEditMode && currentTemplateId && !isDuplicateMode`. */
  predicate UpdatesInPlace(ctx: SaveContext) {
    ctx.isEditMode && HasId(ctx.currentTemplateId) && !ctx.isDuplicateMode
  }

  /**
   * `handleSaveTemplate`: a blank name is refused first, then a blank subject;
   * otherwise the final HTML is built and the template is updated in place or
   * created.
   */
  function HandleSaveTemplate(ctx: SaveContext, name: string, subject: string, fromEmailUsername: string,
                              document: Doc, render: (Doc, Id) -> string): (r: SaveOutcome)
    ensures Trim(name) == [] ==> r == Rejected(NameRequired)
    ensures Trim(name) != [] && Trim(subject) == [] ==> r == Rejected(SubjectRequired)
    ensures Trim(name) != [] && Trim(subject) != [] ==> !r.Rejected?
    ensures r.Update? <==> Trim(name) != [] && Trim(subject) != [] && UpdatesInPlace(ctx)
    ensures r.Update? ==> r.id == ctx.currentTemplateId.value
    ensures !r.Rejected? ==>
      var data := r.data;
      && data.name == name && data.subject == subject && data.fromEmailUsername == fromEmailUsername
      && data.editorJson == document
      && data.htmlBody == FinalHtml.GetFinalHtml(document, render)
      && Includes(data.htmlBody, FinalHtml.Marker)
  {
    if Trim(name) == [] then Rejected(NameRequired)
    else if Trim(subject) == [] then Rejected(SubjectRequired)
    else
      var data := TemplateData(name, subject, fromEmailUsername, FinalHtml.GetFinalHtml(document, render), document);
      if UpdatesInPlace(ctx) then Update(ctx.currentTemplateId.value, data) else Create(data)
  }

  /** Duplicate mode always saves a new template, never overwrites the current one. */
  lemma DuplicateCreates(ctx: SaveContext, name: string, subject: string, fromEmailUsername: string,
                         document: Doc, render: (Doc, Id) -> string)
    requires ctx.isDuplicateMode
    ensures !HandleSaveTemplate(ctx, name, subject, fromEmailUsername, document, render).Update?
    ensures Trim(name) != [] && Trim(subject) != [] ==>
      HandleSaveTemplate(ctx, name, subject, fromEmailUsername, document, render).Create?
  {
  }

  /** The panel's own dialog flags. */
  datatype PanelState = PanelState(saveOpen: bool, isDuplicateMode: bool)

  const LoadFirst: string := "Please load a template first"

  /** `handleDuplicateClick`: only a template loaded in preview mode can be duplicated. */
  function HandleDuplicateClick(s: PanelState, isPreviewMode: bool, hasCurrentTemplate: bool): (r: (PanelState, Option<string>))
    ensures !isPreviewMode || !hasCurrentTemplate ==> r == (s, Some(LoadFirst))
    ensures r.0.isDuplicateMode != s.isDuplicateMode ==> isPreviewMode && hasCurrentTemplate
    ensures isPreviewMode && hasCurrentTemplate ==> r.0 == PanelState(true, true) && r.1.None?
  {
    if !isPreviewMode || !hasCurrentTemplate then (s, Some(LoadFirst))
    else (PanelState(true, true), None)
  }
}
