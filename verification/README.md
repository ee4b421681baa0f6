# Draftly email editor: block-tree editing, verified in Dafny

Draftly is an email-template editor built on a block document. This project
models that document and the editor operations that rewrite it, and proves
what those operations promise.

A document is a flat map from string ids to blocks. Three kinds of block own
lists of child ids:

- "EmailLayout" owns `data.childrenIds`.
- "Container" owns `data.props.childrenIds`.
- "ColumnsContainer" owns `data.props.columns[i].childrenIds`, one list per
  column.

Every other kind is a leaf. The model keeps the map together with the key order
that `Object.keys` reports (`Blocks.Doc`). That makes "the first key whose block
is an EmailLayout" well defined. A null or undefined field is `None`. Fields no
operation looks at are carried along unread.

Operations modelled:

- **Delete** (`TuneMenu.HandleDeleteClick`) strips the block from every
  children list and then removes its key. Descendants of the deleted block are
  not removed.
- **Move** (`TuneMenu.HandleMoveClick`) swaps the block with its neighbour in
  every list that holds it, then selects it.
- In both delete and move, a ColumnsContainer is rebuilt from its style and
  props alone. Each of its columns becomes `{ childrenIds }` only.
- **Extract** (`TuneMenu.GetBlockAndChildren`) is the breadth-first walk that
  copies a block and everything reachable from it, so the block can be saved
  as a reusable component. It uses a queue and a visited set. The proof shows
  it copies exactly the present blocks reachable from the start. The walk ends
  even on cyclic references.
- **Insertion** (`ChildrenIds`) appends or splices a fresh id into a children
  list. A reusable component is grafted whole: every one of its blocks gets a
  fresh id, and every reference inside it is rewritten through the id map. The
  columns step of that rewrite spreads the block's *original* props. A block
  holding both `props.childrenIds` and `props.columns` therefore keeps its
  `props.childrenIds` unrewritten. The model reproduces this, and no block kind
  of the editor holds both.
- **Container patches** (`ContainerEditor`, `ColumnsEditor`) turn a
  child-change event into a patch for the editor store, then select the new
  child.
- **The add-block menu and the component dialog** (`BlocksMenu`,
  `ComponentsDialog`) cover the root choice, the `_allBlocks` bundle, the
  component filter, pagination and the selection guard.
- **Final HTML** (`FinalHtml`) adds the open-tracking pixel once to the
  rendered email.
- **Template panel and main tabs** (`TemplatePanel`, `MainTabs`) cover root
  resolution, screen-size and tab normalisation, what the main area shows, and
  the save and duplicate guards.

The editor store is not part of this model. `Store.EditorStore` stands for it
with four fields:

- `setDocument` merges a patch key by key (`{...document, ...patch}`).
- `resetDocument` replaces the document.
- The selection, tab and screen-size setters write one field each.

Rendering HTML belongs to an outside library. It appears as a parameter
`render(document, rootId)`. Fresh block ids come from `generateId`, which reads
the clock and a random source. They appear as parameters: `freshId`, and the
sequence `newIds`, which must be distinct.

The panel shows the document from its first EmailLayout key, or from "root"
when there is none. The saved HTML is always rendered from "root".
`TemplatePanel.RootsAgree` states exactly when the two roots coincide: when the
first layout key is "root" or empty, or when there is no layout block.

## Model

| member | source | states |
|---|---|---|
| Blocks.Doc.Put | src/documents/blocks/Container/ContainerEditor.tsx:40-49 | Writing a key updates the map there; an existing key keeps its place in the key order and a new key goes last |
| Blocks.Doc.Remove | src/documents/blocks/helpers/block-wrappers/TuneMenu.tsx:106 | `delete` drops the key from the map and from the key order, other keys keeping their order |
| Blocks.FindLayout | src/App/TemplatePanel/index.tsx:80-82 | The index found names an EmailLayout block and no earlier key does; none found means no key names one |
| Blocks.RootOrFirst | src/documents/blocks/helpers/EditorChildrenIds/index.tsx:98-101 | A root exists exactly when the document has a key. It is the first EmailLayout key when that key is non-empty, and the first key otherwise |
| Blocks.FirstLayoutKey | src/documents/blocks/helpers/EditorChildrenIds/index.tsx:99-101 | The key found is an EmailLayout block with no EmailLayout key before it; none exactly when no key names one |
| Blocks.ColumnIds | src/documents/blocks/helpers/block-wrappers/TuneMenu.tsx:220-224 | An id is listed exactly when some column's `childrenIds` holds it |
| Blocks.Children | src/documents/blocks/helpers/block-wrappers/TuneMenu.tsx:213-225 | An id is a child exactly when `data.childrenIds`, `props.childrenIds` or some column lists it |
| Blocks.Merge | src/documents/blocks/Container/ContainerEditor.tsx:28-49 | The merged blocks are the old ones overridden by the patch, and the old keys keep their order at the front |
| Seqs.Without | src/documents/blocks/helpers/block-wrappers/TuneMenu.tsx:54-59 | Every kept id comes from the list and differs from the removed one; every other id of the list is kept |
| Seqs.WithoutConcat | src/documents/blocks/helpers/block-wrappers/TuneMenu.tsx:58 | Filtering distributes over concatenation, so the kept ids keep their relative order |
| Seqs.WithoutMultiset | src/documents/blocks/helpers/block-wrappers/TuneMenu.tsx:58 | Every copy of the removed id goes; every other id keeps its multiplicity |
| Seqs.WithoutAbsent | src/documents/blocks/helpers/block-wrappers/TuneMenu.tsx:58 | A list without the id is left as it is |
| Seqs.WithoutDistinct | src/documents/blocks/helpers/block-wrappers/TuneMenu.tsx:106 | Filtering keeps a duplicate-free key order duplicate-free |
| Seqs.ClampIndex | src/documents/blocks/helpers/EditorChildrenIds/index.tsx:157-159 | A `splice` or `slice` position lands in the list: a negative one counts back from the end, one past the end stops at the end |
| Seqs.IndexOf | src/documents/blocks/helpers/block-wrappers/TuneMenu.tsx:115-118 | `indexOf`: the position holds the id and no earlier position does; none means the id is absent |
| Store.EditorStore.SetDocument | src/documents/blocks/Container/ContainerEditor.tsx:28-37 | The document becomes the key-wise merge of the patch; nothing else changes |
| Store.EditorStore.ResetDocument | src/documents/blocks/helpers/block-wrappers/TuneMenu.tsx:107 | The document is replaced wholesale; nothing else changes |
| Store.EditorStore.SetSelectedBlockId | src/documents/blocks/Container/ContainerEditor.tsx:38 | Only the selection changes |
| Store.EditorStore.SetSelectedMainTab | src/App/TemplatePanel/MainTabsGroup.tsx:25-31 | Only the main tab changes |
| Store.EditorStore.SetSelectedScreenSize | src/App/TemplatePanel/index.tsx:108-115 | Only the screen size changes |
| TuneMenu.FilterChildrenIds | src/documents/blocks/helpers/block-wrappers/TuneMenu.tsx:54-59 | A missing list stays missing; a present one loses every copy of the id and keeps every other id with its multiplicity |
| TuneMenu.SwapNext | src/documents/blocks/helpers/block-wrappers/TuneMenu.tsx:121-129 | The two neighbours are exchanged, every other cell is kept, and the list is a permutation of the old one |
| TuneMenu.MoveIds | src/documents/blocks/helpers/block-wrappers/TuneMenu.tsx:115-131 | Moving keeps the length and is a permutation of the list |
| TuneMenu.MoveList | src/documents/blocks/helpers/block-wrappers/TuneMenu.tsx:111-114 | A missing list stays missing and a present one stays present |
| TuneMenu.SwapCells | src/documents/blocks/helpers/block-wrappers/TuneMenu.tsx:121-128 | The destructuring swap exchanges the two cells of the array and touches no other |
| TuneMenu.SwapInCopy | src/documents/blocks/helpers/block-wrappers/TuneMenu.tsx:119-131 | The copied array, after the guarded swap, is the list with the id exchanged with its neighbour, or the list itself at a boundary |
| TuneMenu.MoveChildrenIds | src/documents/blocks/helpers/block-wrappers/TuneMenu.tsx:111-132 | The array-based method returns exactly the list function's result, including the early returns for a missing list or id |
| TuneMenu.MoveIdsAt | src/documents/blocks/helpers/block-wrappers/TuneMenu.tsx:115-131 | "Up" at i>0 swaps positions i-1 and i, "down" at i<len-1 swaps i and i+1, and at a boundary the list is unchanged |
| TuneMenu.MoveIdsAbsent | src/documents/blocks/helpers/block-wrappers/TuneMenu.tsx:115-118 | A list that does not hold the id is unchanged |
| TuneMenu.Rebuild | src/documents/blocks/helpers/block-wrappers/TuneMenu.tsx:66-104 | Kind and style are kept, a leaf is unchanged, and a layout's or container's own list is the edited list |
| TuneMenu.RebuildShape | src/documents/blocks/helpers/block-wrappers/TuneMenu.tsx:66-104 | The per-kind rewrite applies the edit to each owned list. A layout keeps its props; a container keeps `data.childrenIds` and its props' columns, fixed widths and other fields; a columns block keeps its props' `childrenIds`, fixed widths and other fields but loses its other data fields, `_allBlocks` and column fields |
| TuneMenu.Rebuilt | src/documents/blocks/helpers/block-wrappers/TuneMenu.tsx:60-105 | Rewriting every block but one keeps the document well formed with the same keys in the same order |
| TuneMenu.RebuildEach | src/documents/blocks/helpers/block-wrappers/TuneMenu.tsx:61-105 | The loop over the copied document yields every block but the skipped one rewritten |
| TuneMenu.Deleted | src/documents/blocks/helpers/block-wrappers/TuneMenu.tsx:60-106 | After delete the keys are the old keys minus the id, in the old order |
| TuneMenu.DeleteBlock | src/documents/blocks/helpers/block-wrappers/TuneMenu.tsx:60-106 | The loop followed by `delete` yields the deleted document |
| TuneMenu.DeleteStripsReferences | src/documents/blocks/helpers/block-wrappers/TuneMenu.tsx:66-101 | After delete every owned list of every block is the old list filtered, and none mentions the id |
| TuneMenu.DeleteKeepsOthers | src/documents/blocks/helpers/block-wrappers/TuneMenu.tsx:61-107 | The id is gone and every other key stays, including the deleted block's children (no cascade); leaf blocks are unchanged |
| TuneMenu.HandleDeleteClick | src/documents/blocks/helpers/block-wrappers/TuneMenu.tsx:53-108 | The store's document becomes the deleted document; the selection, main tab and screen size are untouched |
| TuneMenu.Moved | src/documents/blocks/helpers/block-wrappers/TuneMenu.tsx:133-179 | Move keeps the document well formed with the same keys in the same order |
| TuneMenu.MoveBlock | src/documents/blocks/helpers/block-wrappers/TuneMenu.tsx:133-179 | The loop over the copied document yields the moved document |
| TuneMenu.MovedListsPermuted | src/documents/blocks/helpers/block-wrappers/TuneMenu.tsx:119-131 | Each owned list of a moved block is a permutation of the old list, and a missing list stays missing |
| TuneMenu.MovePermutesLists | src/documents/blocks/helpers/block-wrappers/TuneMenu.tsx:135-179 | Every block's owned lists after move are permutations of its old lists |
| TuneMenu.MoveKeepsOthers | src/documents/blocks/helpers/block-wrappers/TuneMenu.tsx:137-177 | The moved block's own entry and every leaf block are unchanged |
| TuneMenu.HandleMoveClick | src/documents/blocks/helpers/block-wrappers/TuneMenu.tsx:110-183 | The store's document becomes the moved document and the moved block is selected; main tab and screen size are untouched |
| TuneMenu.ChildReached | src/documents/blocks/helpers/block-wrappers/TuneMenu.tsx:213-226 | A present block's listed children are reached from it |
| TuneMenu.GetBlockAndChildren | src/documents/blocks/helpers/block-wrappers/TuneMenu.tsx:198-230 | The result is a sub-document of unchanged blocks. It holds exactly the present non-empty ids reachable from the start, and the start comes first when present. The walk ends even on cycles |
| TuneMenu.ExtractSelfContained | src/documents/blocks/helpers/block-wrappers/TuneMenu.tsx:213-226 | Every present child listed by a copied block is copied too |
| TuneMenu.ReinsertionRoot | src/documents/blocks/helpers/block-wrappers/TuneMenu.tsx:198-232 | A saved component is re-inserted from the saved block exactly when that block is a layout or no copied block is one |
| TuneMenu.HandleSaveComponentSubmit | src/documents/blocks/helpers/block-wrappers/TuneMenu.tsx:185-241 | A blank name is refused. Otherwise the request carries the name, an empty subject, the rendered html, a null `fromEmailUsername`, `isComponent` and exactly the reachable blocks |
| ChildrenIds.Lookup | src/documents/blocks/helpers/EditorChildrenIds/index.tsx:44 | A mapped, non-empty id replaces the old one; an unmapped id stays; a non-empty id never becomes "" |
| ChildrenIds.RemapIds | src/documents/blocks/helpers/EditorChildrenIds/index.tsx:43-45 | Same length; each id is replaced by its mapped id, or kept when unmapped or mapped to "" |
| ChildrenIds.RemapColumns | src/documents/blocks/helpers/EditorChildrenIds/index.tsx:68-73 | Same number of columns; each column's list is rewritten and its other fields kept |
| ChildrenIds.RemapColumnIds | src/documents/blocks/helpers/EditorChildrenIds/index.tsx:68-73 | The ids of the rewritten columns are the rewritten ids of the columns |
| ChildrenIds.RemapBlock | src/documents/blocks/helpers/EditorChildrenIds/index.tsx:37-78 | Kind, style, other data fields and `_allBlocks` are kept, and each of `data.childrenIds` and `props` is present exactly when it was |
| ChildrenIds.RemapBlockShape | src/documents/blocks/helpers/EditorChildrenIds/index.tsx:37-76 | Rewriting changes only the three lists. The props list is kept unrewritten when columns are present too |
| ChildrenIds.RemapChildren | src/documents/blocks/helpers/EditorChildrenIds/index.tsx:40-76 | For every editor block kind, the children of the rewritten block are the rewritten children |
| ChildrenIds.IdMap | src/documents/blocks/helpers/EditorChildrenIds/index.tsx:27-30 | The id map's keys are exactly the component's keys |
| ChildrenIds.IdMapAt | src/documents/blocks/helpers/EditorChildrenIds/index.tsx:27-30 | With distinct keys, the i-th key maps to the i-th fresh id |
| ChildrenIds.Rekeyed | src/documents/blocks/helpers/EditorChildrenIds/index.tsx:33-79 | The stored entries are keyed by exactly the fresh ids used |
| ChildrenIds.RekeyedAt | src/documents/blocks/helpers/EditorChildrenIds/index.tsx:78 | With distinct fresh ids, the i-th fresh id holds the i-th key's block |
| ChildrenIds.Remapped | src/documents/blocks/helpers/EditorChildrenIds/index.tsx:19-83 | The grafted component is well formed and has one entry per source key, keyed by the fresh ids in order |
| ChildrenIds.RemappedAt | src/documents/blocks/helpers/EditorChildrenIds/index.tsx:33-78 | The block under the i-th fresh id is the i-th source block rewritten |
| ChildrenIds.BuildIdMap | src/documents/blocks/helpers/EditorChildrenIds/index.tsx:27-30 | The first loop builds exactly the id map |
| ChildrenIds.StoreRemapped | src/documents/blocks/helpers/EditorChildrenIds/index.tsx:33-79 | The second loop stores each rewritten block under its key's fresh id |
| ChildrenIds.RemapComponentIds | src/documents/blocks/helpers/EditorChildrenIds/index.tsx:19-83 | The result is the grafted component, and the new root is the old root's fresh id, present in it |
| ChildrenIds.RemappedSelfContained | src/documents/blocks/helpers/EditorChildrenIds/index.tsx:40-76 | A rewritten block's children are its rewritten old children. A reference to a component key now names that key's copy, and an outside reference is unchanged |
| ChildrenIds.Inserted | src/documents/blocks/helpers/EditorChildrenIds/index.tsx:157-159 | The list grows by one and gains exactly the new id |
| ChildrenIds.InsertedAt | src/documents/blocks/helpers/EditorChildrenIds/index.tsx:157-164 | The new id sits at the clamped position, with the old ids before and after it in order |
| ChildrenIds.NewChild | src/documents/blocks/helpers/EditorChildrenIds/index.tsx:95-124 | A plain block keeps its value under the fresh id. A component is grafted, and its root without `_allBlocks` joins under the root's fresh id |
| ChildrenIds.AppendBlock | src/documents/blocks/helpers/EditorChildrenIds/index.tsx:93-126 | The emitted list is the old list (or []) plus the new id; plain and component cases as above |
| ChildrenIds.InsertBlock | src/documents/blocks/helpers/EditorChildrenIds/index.tsx:128-165 | The emitted list is the old list with the new id spliced in; plain and component cases as above |
| ChildrenIds.ChangePatch | src/documents/blocks/Container/ContainerEditor.tsx:26-49 | A plain change patches exactly the child and the container. A component patches its keys plus the container, whose entry wins a clash |
| ChildrenIds.PatchApplied | src/documents/blocks/Container/ContainerEditor.tsx:26-49 | After the merge the container holds its entry and the child is present. Old keys stay, and keys outside the patch are untouched |
| ContainerEditor.ContainerChildren | src/documents/blocks/Container/ContainerEditor.tsx:16 | The list shown is the props list itself, order and repeats included, or empty when props or the list is missing |
| ContainerEditor.ContainerEntry | src/documents/blocks/Container/ContainerEditor.tsx:30-36 | The entry is a Container keeping the old data fields, with props replaced by `{ childrenIds }` alone (columns, fixed widths and other props fields dropped) and no `_allBlocks` |
| ContainerEditor.ContainerPatch | src/documents/blocks/Container/ContainerEditor.tsx:25-52 | The patch holds the container entry and exactly the child's key or the component's keys |
| ContainerEditor.OnChange | src/documents/blocks/Container/ContainerEditor.tsx:25-52 | The store's document is merged with the patch and the new child is selected |
| ContainerEditor.AppendedChildReached | src/documents/blocks/Container/ContainerEditor.tsx:25-52 | After an append the container lists the child after its old children. The child is present and reachable from the container |
| ColumnsEditor.ColumnsValue | src/documents/blocks/ColumnsContainer/ColumnsContainerEditor.tsx:15-28 | Missing columns default to three empty columns; present columns are used as they are |
| ColumnsEditor.NormalisedWidths | src/documents/blocks/ColumnsContainer/ColumnsContainerEditor.tsx:38-47 | Present widths become three entries, the first three or undefined past the end; missing widths stay missing |
| ColumnsEditor.NormalisedWidthsIdempotent | src/documents/blocks/ColumnsContainer/ColumnsContainerEditor.tsx:38-47 | Normalising twice is normalising once |
| ColumnsEditor.ReplaceColumn | src/documents/blocks/ColumnsContainer/ColumnsContainerEditor.tsx:34-35 | Only the chosen column is replaced, by `{ childrenIds }`; the others are copied |
| ColumnsEditor.ColumnsEntry | src/documents/blocks/ColumnsContainer/ColumnsContainerEditor.tsx:53-61 | The entry is a ColumnsContainer with the style passed through, the other props kept, normalised widths and the new columns |
| ColumnsEditor.UpdateColumn | src/documents/blocks/ColumnsContainer/ColumnsContainerEditor.tsx:30-80 | The store's document is merged with the patch built from the replaced column, and the new child is selected |
| ColumnsEditor.ColumnIdsReplaced | src/documents/blocks/ColumnsContainer/ColumnsContainerEditor.tsx:34-35 | The column ids after the replacement are those before the column, the new list, then those after |
| ColumnsEditor.AppendedChildReached | src/documents/blocks/ColumnsContainer/ColumnsContainerEditor.tsx:30-80 | After an append to a column, the child is present and reachable from the columns block |
| BlocksMenu.OnClose | src/documents/blocks/helpers/EditorChildrenIds/AddBlockMenu/BlocksMenu.tsx:24-28 | The anchor is cleared only while the component dialog is closed |
| BlocksMenu.OnClick | src/documents/blocks/helpers/EditorChildrenIds/AddBlockMenu/BlocksMenu.tsx:30-33 | The block is passed on and the anchor cleared |
| BlocksMenu.OpenComponents | src/documents/blocks/helpers/EditorChildrenIds/AddBlockMenu/BlocksMenu.tsx:87-90 | The dialog opens, the anchor is cleared, and the menu stays rendered |
| BlocksMenu.CloseComponents | src/documents/blocks/helpers/EditorChildrenIds/AddBlockMenu/BlocksMenu.tsx:97-100 | Dialog and anchor are both cleared, so nothing is rendered |
| BlocksMenu.ComponentRoot | src/documents/blocks/helpers/EditorChildrenIds/AddBlockMenu/BlocksMenu.tsx:38-44 | The root is the first non-empty EmailLayout key, else the first key when it is non-empty; none exactly when there are no keys or the chosen key is "" |
| BlocksMenu.HandleSelectComponent | src/documents/blocks/helpers/EditorChildrenIds/AddBlockMenu/BlocksMenu.tsx:35-54 | A block is passed on exactly when `editorJson` has a usable root. It is the root's fields plus `_allBlocks` = the whole component, and the dialog always closes |
| BlocksMenu.SelectedInsertable | src/documents/blocks/helpers/EditorChildrenIds/AddBlockMenu/BlocksMenu.tsx:44-50 | What the menu passes on meets what insertion needs |
| BlocksMenu.SelectedRootAgrees | src/documents/blocks/helpers/EditorChildrenIds/AddBlockMenu/BlocksMenu.tsx:38-49 | Insertion later picks a root in the bundle whose data is the data passed on |
| ComponentsDialog.Components | src/documents/blocks/helpers/EditorChildrenIds/AddBlockMenu/ReusableComponentsDialog.tsx:45 | The list holds exactly the items that are components |
| ComponentsDialog.ComponentsConcat | src/documents/blocks/helpers/EditorChildrenIds/AddBlockMenu/ReusableComponentsDialog.tsx:45 | The filter distributes over concatenation, so components keep their order |
| ComponentsDialog.TotalPages | src/documents/blocks/helpers/EditorChildrenIds/AddBlockMenu/ReusableComponentsDialog.tsx:48 | `ceil(n / 5)`: the pages hold n, and one page fewer would not |
| ComponentsDialog.JsSlice | src/documents/blocks/helpers/EditorChildrenIds/AddBlockMenu/ReusableComponentsDialog.tsx:50-53 | `slice` has the length between the clamped bounds, or none when they cross, and its j-th element is the element at the clamped start plus j |
| ComponentsDialog.PageOf | src/documents/blocks/helpers/EditorChildrenIds/AddBlockMenu/ReusableComponentsDialog.tsx:49-53 | A page holds at most five components, those starting at `(page-1)*5` |
| ComponentsDialog.PageInRange | src/documents/blocks/helpers/EditorChildrenIds/AddBlockMenu/ReusableComponentsDialog.tsx:49-53 | A page in range is the non-empty run from `(page-1)*5` to `min(n, page*5)` |
| ComponentsDialog.PagesUpToPrefix | src/documents/blocks/helpers/EditorChildrenIds/AddBlockMenu/ReusableComponentsDialog.tsx:49-53 | The first k pages together are the first 5k components |
| ComponentsDialog.PagesCover | src/documents/blocks/helpers/EditorChildrenIds/AddBlockMenu/ReusableComponentsDialog.tsx:48-53 | Pages 1 to totalPages, concatenated, are exactly the component list |
| ComponentsDialog.Prev | src/documents/blocks/helpers/EditorChildrenIds/AddBlockMenu/ReusableComponentsDialog.tsx:174 | The page never drops below 1 and otherwise goes back one |
| ComponentsDialog.Next | src/documents/blocks/helpers/EditorChildrenIds/AddBlockMenu/ReusableComponentsDialog.tsx:186 | The page never passes totalPages and otherwise goes forward one |
| ComponentsDialog.PagingStaysInRange | src/documents/blocks/helpers/EditorChildrenIds/AddBlockMenu/ReusableComponentsDialog.tsx:174-186 | Paging from a page in range stays in range |
| ComponentsDialog.SetQuery | src/documents/blocks/helpers/EditorChildrenIds/AddBlockMenu/ReusableComponentsDialog.tsx:101-104 | Typing sets the query and restarts at page 1 |
| ComponentsDialog.HandleClose | src/documents/blocks/helpers/EditorChildrenIds/AddBlockMenu/ReusableComponentsDialog.tsx:83-88 | Closing clears the selection and the query and returns to page 1 |
| ComponentsDialog.HandleSelect | src/documents/blocks/helpers/EditorChildrenIds/AddBlockMenu/ReusableComponentsDialog.tsx:68-81 | No selection, or one without `editorJson`, raises the matching toast and keeps the state. Otherwise the component is passed on and the dialog closes |
| ComponentsDialog.PreviewRoot | src/documents/blocks/helpers/EditorChildrenIds/AddBlockMenu/ReusableComponentsDialog.tsx:217-221 | The preview has a root exactly when the component has a key: the first non-empty EmailLayout key, else the first key |
| ComponentsDialog.PreviewMatchesInsertion | src/documents/blocks/helpers/EditorChildrenIds/AddBlockMenu/ReusableComponentsDialog.tsx:217-221 | Whenever the menu inserts a component, the preview shows it from the same root |
| ComponentsDialog.PassedHasJson | src/documents/blocks/helpers/EditorChildrenIds/AddBlockMenu/ReusableComponentsDialog.tsx:74-79 | A passed component always carries `editorJson` to the menu |
| Strings.TrimStart | src/utils/getFinalHtml.ts:37 | A suffix of the text, starting at a non-space, with only white space cut |
| Strings.TrimEnd | src/utils/getFinalHtml.ts:37 | A prefix of the text, ending at a non-space, with only white space cut |
| Strings.Trim | src/utils/getFinalHtml.ts:37 | The trimmed text is empty exactly when the text is all white space, and otherwise starts and ends with a non-space |
| Strings.TrimSlice | src/utils/getFinalHtml.ts:37 | The trimmed text is the text's middle, element by element, with only white space before and after it |
| Strings.TrimKeeps | src/utils/getFinalHtml.ts:37 | Text that starts and ends with a non-space is unchanged by trimming |
| Strings.TrimPadded | src/utils/getFinalHtml.ts:29-37 | One white-space character at each end is all that trimming removes from such text |
| Strings.Find | src/utils/getFinalHtml.ts:19-25 | The position found is an occurrence and no earlier one is; none means no occurrence |
| Strings.OccursIncludes | src/utils/getFinalHtml.ts:19 | Any occurrence makes `includes` true |
| Strings.IncludesConcat | src/utils/getFinalHtml.ts:19 | An occurrence in a part is one in the whole |
| Strings.ReplaceFirst | src/utils/getFinalHtml.ts:25 | With no occurrence the text is unchanged; otherwise the text before the earliest occurrence is kept, the replacement follows, then the text after the pattern |
| FinalHtml.GetFinalHtml | src/utils/getFinalHtml.ts:13-38 | The html is rendered from "root". The result always carries the tracker's marker, and an already tracked render is returned unchanged |
| FinalHtml.TrackerHasMarker | src/utils/getFinalHtml.ts:3-11 | The pixel's own text carries "/track/open/" |
| FinalHtml.ShellTrimmed | src/utils/getFinalHtml.ts:29-37 | Trimming the shell drops only its outer newlines, whatever the rendered html |
| FinalHtml.PostProcess | src/utils/getFinalHtml.ts:18-37 | Tracked html is returned unchanged; with a `</body>` the result is longer by exactly the pixel |
| FinalHtml.PostProcessCases | src/utils/getFinalHtml.ts:18-37 | Tracked html is kept. Otherwise the pixel goes before the first `</body>`, or the html is wrapped in the shell |
| FinalHtml.MarkerAlwaysPresent | src/utils/getFinalHtml.ts:18-37 | Every outcome carries the marker |
| FinalHtml.PostProcessIdempotent | src/utils/getFinalHtml.ts:19-21 | Post-processing twice is post-processing once |
| MainTabs.NormaliseMainTab | src/App/TemplatePanel/MainTabsGroup.tsx:21-32 | The four names map to their tab and anything else to the editor |
| MainTabs.NameRoundTrip | src/App/TemplatePanel/MainTabsGroup.tsx:22-28 | A tab's own name is stored unchanged |
| MainTabs.NormaliseIdempotent | src/App/TemplatePanel/MainTabsGroup.tsx:21-32 | Feeding a stored tab back in leaves it unchanged |
| MainTabs.HandleChange | src/App/TemplatePanel/MainTabsGroup.tsx:21-32 | The store holds the normalised tab and nothing else changes |
| TemplatePanel.RootBlockId | src/App/TemplatePanel/index.tsx:78-83 | The root is non-empty and is "root" or the document's first layout key; no document gives "root" |
| TemplatePanel.RootIsFirstLayout | src/App/TemplatePanel/index.tsx:78-83 | A root other than "root" is a layout key with no layout key before it |
| TemplatePanel.RootsAgree | src/App/TemplatePanel/index.tsx:78-83 | The panel's root is the saved html's root exactly when the first layout key is absent, empty or "root" |
| TemplatePanel.NormaliseScreenSize | src/App/TemplatePanel/index.tsx:107-116 | The size is mobile exactly for "mobile"; anything else gives desktop |
| TemplatePanel.ScreenSizeRoundTrip | src/App/TemplatePanel/index.tsx:108-111 | A size's own name is stored unchanged |
| TemplatePanel.HandleScreenSizeChange | src/App/TemplatePanel/index.tsx:107-116 | The store holds the normalised size and nothing else changes |
| TemplatePanel.MainPanel | src/App/TemplatePanel/index.tsx:118-151 | Preview mode, or the preview tab, shows the reader. Html and json show only outside preview mode, and the reader and editor use the root |
| TemplatePanel.EditableOnlyInEditor | src/App/TemplatePanel/index.tsx:118-151 | The editor shows exactly on the editor tab outside preview mode |
| TemplatePanel.HandleSaveTemplate | src/App/TemplatePanel/index.tsx:153-238 | A blank name is refused first, then a blank subject. Update runs exactly in edit mode with a current id and not duplicating. Non-blank name and subject are never refused. The data carries the form fields, the document, and `getFinalHtml(document)` as `htmlBody` |
| TemplatePanel.DuplicateCreates | src/App/TemplatePanel/index.tsx:174-204 | Duplicate mode never overwrites the current template, and with a non-blank name and subject it creates a new one |
| TemplatePanel.HandleDuplicateClick | src/App/TemplatePanel/index.tsx:240-247 | Duplicate mode and the save dialog open only in preview mode with a loaded template; otherwise a toast |

## Left out

- Rendering (`renderToStaticMarkup`, `Reader`, `EditorBlock`) belongs to an outside library. It is a parameter `render(document, rootId)`. Styling, React state plumbing and re-rendering are not modelled.
- The editor store (`EditorContext`) is not part of this model. Its writes are assumed to be a key-wise merge (`setDocument`) and a replacement (`resetDocument`).
- `generateId` reads the clock and a random source. Fresh ids are parameters that callers must supply distinct. That the fresh ids do not clash with the document's existing keys is not modelled.
- The network requests, their promises, and the success and error toasts are left out. This covers saving a template or component, loading the duplicate afterwards, and the dialog's fetch on open and on query change. Each handler ends with the request it would dispatch.
- `ColumnsContainerPropsSchema.parse` is treated as the identity on the data it is given.
- `Object.keys` lists integer-like keys first, in numeric order. The model keeps plain insertion order.
- Inherited prototype keys and non-object JSON values are not modelled.
- `String.prototype.replace` gives `$` patterns a meaning in the replacement. The tracker text has none, so the model copies the replacement literally.
- Handler arguments typed `unknown` (tab and screen size) are modelled as strings.
- `FinalHtml.GetFinalHtml`: the rendered string is left uninterpreted, so nothing is proved about the html's own structure.
- `ColumnsEditor.UpdateColumn`: requires the chosen column to exist. In the source the index is typed `0 | 1 | 2`. Assigning past the end of a shorter columns array would leave holes, and the model does not represent holes.
- `ChildrenIds.AppendBlock`: requires a component's `_allBlocks` to be well formed and non-empty. In the source an empty object is truthy, so it would reach the component branch with an undefined root. The add-block menu never passes such a block (`BlocksMenu.SelectedInsertable`).
- `ChildrenIds.InsertBlock`: the same requirement on `_allBlocks` as `ChildrenIds.AppendBlock`.
- `ChildrenIds.RemappedSelfContained`: stated for blocks that do not hold both `props.childrenIds` and `props.columns`. For such a block the props list stays unrewritten (`ChildrenIds.RemapBlockShape`).
