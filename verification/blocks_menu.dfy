/**
 * The add-block menu: picking a block hands it to `onSelect` and closes the
 * menu; picking a reusable component bundles its root block with the whole
 * component in `_allBlocks`. The menu's anchor and the component dialog's
 * open flag are the state the handlers change.
 */
module BlocksMenu {
  import opened Wrappers
  import opened Blocks
  import opened ChildrenIds

  /** `anchorEl !== null` and `componentDialogOpen`. */
  datatype MenuState = MenuState(anchored: bool, dialogOpen: bool)

  /** A handler's outcome: the new state and the block passed to `onSelect`, if any. */
  datatype Step = Step(state: MenuState, selected: Option<Block>)

  /** A component record as the dialog passes it on; only `editorJson` is read. */
  datatype ComponentData = ComponentData(editorJson: Option<Doc>)

  /** The menu renders nothing when it has no anchor and the dialog is closed. */
  predicate Visible(s: MenuState) {
    s.anchored || s.dialogOpen
  }

  /** `onClose`: the anchor is cleared only while the component dialog is closed. */
  function OnClose(s: MenuState): (r: MenuState)
    ensures r.dialogOpen == s.dialogOpen
    ensures r.anchored == (s.anchored && s.dialogOpen)
  {
    if !s.dialogOpen then s.(anchored := false) else s
  }

  /** `onClick(block)`: the block goes to `onSelect` and the anchor is cleared. */
  function OnClick(s: MenuState, block: Block): (r: Step)
    ensures r.selected == Some(block)
    ensures !r.state.anchored && r.state.dialogOpen == s.dialogOpen
  {
    Step(s.(anchored := false), Some(block))
  }

  /** The "Reusable Component" button: the dialog opens and the menu's anchor is cleared. */
  function OpenComponents(s: MenuState): (r: MenuState)
    ensures r.dialogOpen && !r.anchored && Visible(r)
  {
    MenuState(false, true)
  }

  /** The dialog's `onClose`: both the dialog and the menu close, so nothing is rendered. */
  function CloseComponents(s: MenuState): (r: MenuState)
    ensures !r.dialogOpen && !r.anchored && !Visible(r)
  {
    MenuState(false, false)
  }

  /** The root id `handleSelectComponent` picks; a falsy (empty) id counts as none. */
  function ComponentRoot(json: Doc): (r: Option<Id>)
    requires json.WellFormed()
    ensures r.Some? ==> r.value != "" && r.value in json.blocks
    ensures r.Some? ==> r.value == json.order[0] || IsLayoutAt(json.blocks, r.value)
    ensures r.None? <==> (|json.order| == 0 || RootOrFirst(json).value == "")
    ensures FirstLayoutKey(json).Some? && FirstLayoutKey(json).value != "" ==> r == FirstLayoutKey(json)
    ensures |json.order| > 0 && json.order[0] != "" &&
            !(FirstLayoutKey(json).Some? && FirstLayoutKey(json).value != "") ==>
              r == Some(json.order[0])
  {
    var root := RootOrFirst(json);
    if root.Some? && root.value != "" then root else None
  }

  /**
   * `handleSelectComponent`: a component with a usable root is passed on as
   * the root block's fields plus `_allBlocks` = the whole component; the
   * dialog is closed whatever happens.
   */
  function HandleSelectComponent(s: MenuState, data: ComponentData): (r: Step)
    requires data.editorJson.Some? ==> data.editorJson.value.WellFormed()
    ensures !r.state.dialogOpen
    ensures r.selected.Some? <==> data.editorJson.Some? && ComponentRoot(data.editorJson.value).Some?
    ensures r.selected.Some? ==>
      var json := data.editorJson.value;
      var root := json.blocks[ComponentRoot(json).value];
      && r.selected.value.kind == root.kind
      && r.selected.value.data == root.data
      && r.selected.value.allBlocks == Some(json)
    ensures r.selected.Some? ==> !r.state.anchored
    ensures r.selected.None? ==> r.state.anchored == s.anchored
  {
    var s1 := if data.editorJson.Some? && ComponentRoot(data.editorJson.value).Some? then
        var json := data.editorJson.value;
        OnClick(s, json.blocks[ComponentRoot(json).value].(allBlocks := Some(json)))
      else Step(s, None);
    s1.(state := s1.state.(dialogOpen := false))
  }

  /**
   * What the menu passes on can be inserted: a plain block needs nothing, and a
   * bundled component is a well-formed document with a key to take the root from.
   */
  lemma SelectedInsertable(s: MenuState, data: ComponentData)
    requires data.editorJson.Some? ==> data.editorJson.value.WellFormed()
    ensures HandleSelectComponent(s, data).selected.Some? ==>
      Insertable(HandleSelectComponent(s, data).selected.value)
  {
  }

  /**
   * Insertion later picks the same root: `RootOrFirst` on the bundled
   * `_allBlocks` names the very block whose fields were passed on.
   */
  lemma SelectedRootAgrees(s: MenuState, data: ComponentData)
    requires data.editorJson.Some? ==> data.editorJson.value.WellFormed()
    ensures var r := HandleSelectComponent(s, data);
      r.selected.Some? ==>
        var all := r.selected.value.allBlocks.value;
        && RootOrFirst(all).Some?
        && all.blocks[RootOrFirst(all).value].data == r.selected.value.data
  {
  }
}
