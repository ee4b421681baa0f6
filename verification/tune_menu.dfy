/**
 * The block tune menu: delete a block, move it among its siblings, and collect
 * the part of the document reachable from it when it is saved as a component.
 */
module TuneMenu {
  import opened Wrappers
  import opened Seqs
  import opened Blocks
  import opened Store
  import opened Reach
  import opened Strings

  datatype Direction = Up | Down

  /** The rewrite that delete or move applies to every children list of the document. */
  datatype ListEdit = Strip(target: Id) | Shift(target: Id, dir: Direction)

  // ---------------------------------------------------------------- lists

  /** `filterChildrenIds`: a missing list stays missing; otherwise every copy of `blockId` is dropped. */
  function FilterChildrenIds(ids: Option<seq<Id>>, blockId: Id): (r: Option<seq<Id>>)
    ensures r.None? <==> ids.None?
    ensures r.Some? ==> blockId !in r.value
    ensures r.Some? ==> multiset(r.value) == multiset(ids.value)[blockId := 0]
  {
    match ids
    case None => None
    case Some(s) => WithoutMultiset(s, blockId); Some(Without(s, blockId))
  }

  /** `s` with the neighbours at `i` and `i + 1` exchanged. */
  function SwapNext(s: seq<Id>, i: nat): (r: seq<Id>)
    requires i + 1 < |s|
    ensures |r| == |s| && multiset(r) == multiset(s)
    ensures r[i] == s[i + 1] && r[i + 1] == s[i]
    ensures forall k :: 0 <= k < |s| && k != i && k != i + 1 ==> r[k] == s[k]
  {
    assert s == s[..i] + [s[i], s[i + 1]] + s[i + 2..];
    s[..i] + [s[i + 1], s[i]] + s[i + 2..]
  }

  /** `moveChildrenIds` on a present list: swap `blockId` with its neighbour in the given direction. */
  function MoveIds(s: seq<Id>, blockId: Id, dir: Direction): (r: seq<Id>)
    ensures |r| == |s| && multiset(r) == multiset(s)
  {
    match IndexOf(s, blockId)
    case None => s
    case Some(i) =>
      if dir == Up && i > 0 then SwapNext(s, i - 1)
      else if dir == Down && i < |s| - 1 then SwapNext(s, i)
      else s
  }

  /** `moveChildrenIds`: a missing list stays missing. */
  function MoveList(ids: Option<seq<Id>>, blockId: Id, dir: Direction): (r: Option<seq<Id>>)
    ensures r.None? <==> ids.None?
  {
    match ids
    case None => None
    case Some(s) => Some(MoveIds(s, blockId, dir))
  }

  /** Exchanges two cells of an array and touches nothing else. */
  method SwapCells(a: array<Id>, i: nat, j: nat)
    requires i < a.Length && j < a.Length
    modifies a
    ensures a[i] == old(a[j]) && a[j] == old(a[i])
    ensures forall k :: 0 <= k < a.Length && k != i && k != j ==> a[k] == old(a[k])
  {
    a[i], a[j] := a[j], a[i];
  }

  /** The array part of `moveChildrenIds`: copy the list and swap the cell at `index` with its neighbour. */
  method SwapInCopy(ids: seq<Id>, index: nat, dir: Direction) returns (r: seq<Id>)
    requires index < |ids|
    ensures r == if dir == Up && index > 0 then SwapNext(ids, index - 1)
                 else if dir == Down && index < |ids| - 1 then SwapNext(ids, index)
                 else ids
  {
    var childrenIds := new Id[|ids|](k requires 0 <= k < |ids| => ids[k]);
    if dir == Up && index > 0 {
      SwapCells(childrenIds, index, index - 1);
      ghost var swapped := SwapNext(ids, index - 1);
      assert forall k :: 0 <= k < |ids| ==> childrenIds[k] == swapped[k];
    } else if dir == Down && index < childrenIds.Length - 1 {
      SwapCells(childrenIds, index, index + 1);
      ghost var swapped := SwapNext(ids, index);
      assert forall k :: 0 <= k < |ids| ==> childrenIds[k] == swapped[k];
    }
    r := childrenIds[..];
  }

  /** `moveChildrenIds` as written: a missing list or a missing id returns the input itself. */
  method MoveChildrenIds(ids: Option<seq<Id>>, blockId: Id, dir: Direction) returns (r: Option<seq<Id>>)
    ensures r == MoveList(ids, blockId, dir)
  {
    if ids.None? {
      return ids;
    }
    var index := IndexOf(ids.value, blockId);
    if index.None? {
      return ids;
    }
    var childrenIds := SwapInCopy(ids.value, index.value, dir);
    r := Some(childrenIds);
  }

  /** Up swaps with the previous id, down with the next; at a boundary nothing moves. */
  lemma MoveIdsAt(s: seq<Id>, blockId: Id, dir: Direction, i: nat)
    requires IndexOf(s, blockId) == Some(i)
    ensures dir == Up && i > 0 ==> MoveIds(s, blockId, dir) == s[i - 1 := blockId][i := s[i - 1]]
    ensures dir == Down && i < |s| - 1 ==> MoveIds(s, blockId, dir) == s[i + 1 := blockId][i := s[i + 1]]
    ensures dir == Up && i == 0 ==> MoveIds(s, blockId, dir) == s
    ensures dir == Down && i == |s| - 1 ==> MoveIds(s, blockId, dir) == s
  {
    var r := MoveIds(s, blockId, dir);
    if dir == Up && i > 0 {
      assert r == s[i - 1 := blockId][i := s[i - 1]];
    } else if dir == Down && i < |s| - 1 {
      assert r == s[i + 1 := blockId][i := s[i + 1]];
    }
  }

  /** A list that does not hold `blockId` is left as it is. */
  lemma MoveIdsAbsent(s: seq<Id>, blockId: Id, dir: Direction)
    requires blockId !in s
    ensures MoveIds(s, blockId, dir) == s
  {
  }

  // ---------------------------------------------------------------- blocks

  function ApplyEdit(e: ListEdit, ids: Option<seq<Id>>): Option<seq<Id>> {
    match e
    case Strip(x) => FilterChildrenIds(ids, x)
    case Shift(x, d) => MoveList(ids, x, d)
  }

  /** `columns?.map(c => ({ childrenIds: edit(c.childrenIds) }))`: every other column field is dropped. */
  function EditColumns(e: ListEdit, cols: Option<seq<Column>>): Option<seq<Column>> {
    match cols
    case None => None
    case Some(cs) => Some(seq(|cs|, i requires 0 <= i < |cs| => Column(ApplyEdit(e, cs[i].childrenIds), map[])))
  }

  /** The `switch (block.type)` that delete and move share. */
  function Rebuild(b: Block, e: ListEdit): (r: Block)
    ensures r.kind == b.kind && r.data.style == b.data.style
    ensures !IsParentKind(b.kind) ==> r == b
    ensures b.kind == LayoutKind ==> r.data.childrenIds == ApplyEdit(e, b.data.childrenIds)
    ensures b.kind == ContainerKind ==> PropsChildren(r) == ApplyEdit(e, PropsChildren(b))
  {
    if b.kind == LayoutKind then
      b.(data := b.data.(childrenIds := ApplyEdit(e, b.data.childrenIds)))
    else if b.kind == ContainerKind then
      var p := b.data.props.GetOr(EmptyProps);
      b.(data := b.data.(props := Some(p.(childrenIds := ApplyEdit(e, p.childrenIds)))))
    else if b.kind == ColumnsKind then
      var p := b.data.props.GetOr(EmptyProps);
      Block(ColumnsKind, BlockData(b.data.style, None, Some(p.(columns := EditColumns(e, p.columns))), map[]), None)
    else
      b
  }

  /** The children lists a block owns by its kind (leaves own none). */
  function OwnLists(b: Block): seq<Option<seq<Id>>> {
    if b.kind == LayoutKind then [b.data.childrenIds]
    else if b.kind == ContainerKind then [PropsChildren(b)]
    else if b.kind == ColumnsKind && b.data.props.Some? && b.data.props.value.columns.Some? then
      var cs := b.data.props.value.columns.value;
      seq(|cs|, i requires 0 <= i < |cs| => cs[i].childrenIds)
    else []
  }

  ghost predicate IsParentKind(kind: string) {
    kind == LayoutKind || kind == ContainerKind || kind == ColumnsKind
  }

  /**
   * The rewrite keeps the kind and the style, applies the edit to each owned list
   * and to nothing else, and leaves leaves alone. The spreads keep every other
   * field of a layout and a container; a missing container props becomes props
   * holding only the edited (missing) list. A columns container is rebuilt from
   * its style and props only: its props keep their own fields, but its other data
   * fields, its `_allBlocks` and every column field besides `childrenIds` are dropped.
   */
  lemma RebuildShape(b: Block, e: ListEdit)
    ensures Rebuild(b, e).kind == b.kind && Rebuild(b, e).data.style == b.data.style
    ensures |OwnLists(Rebuild(b, e))| == |OwnLists(b)|
    ensures forall i :: 0 <= i < |OwnLists(b)| ==> OwnLists(Rebuild(b, e))[i] == ApplyEdit(e, OwnLists(b)[i])
    ensures !IsParentKind(b.kind) ==> Rebuild(b, e) == b
    ensures b.kind == LayoutKind || b.kind == ContainerKind ==>
      Rebuild(b, e).allBlocks == b.allBlocks && Rebuild(b, e).data.rest == b.data.rest
    ensures b.kind == LayoutKind ==> Rebuild(b, e).data.props == b.data.props
    ensures b.kind == ContainerKind ==>
      var p := b.data.props.GetOr(EmptyProps);
      && Rebuild(b, e).data.childrenIds == b.data.childrenIds
      && Rebuild(b, e).data.props.Some?
      && Rebuild(b, e).data.props.value.columns == p.columns
      && Rebuild(b, e).data.props.value.fixedWidths == p.fixedWidths
      && Rebuild(b, e).data.props.value.rest == p.rest
    ensures b.kind == ColumnsKind ==>
      var p := b.data.props.GetOr(EmptyProps);
      && Rebuild(b, e).data.props.Some?
      && Rebuild(b, e).data.props.value.childrenIds == p.childrenIds
      && Rebuild(b, e).data.props.value.fixedWidths == p.fixedWidths
      && Rebuild(b, e).data.props.value.rest == p.rest
    ensures b.kind == ColumnsKind ==>
      && Rebuild(b, e).allBlocks == None
      && Rebuild(b, e).data.rest == map[]
      && Rebuild(b, e).data.childrenIds == None
      && forall c :: c in ColumnsOf(Rebuild(b, e)) ==> c.rest == map[]
  {
  }

  // ---------------------------------------------------------------- delete and move

  /** Every block but `skip` rebuilt by `edit`; the keys and their order are unchanged. */
  function Rebuilt(doc: Doc, skip: Id, edit: ListEdit): (r: Doc)
    requires doc.WellFormed()
    ensures r.WellFormed()
    ensures r.order == doc.order && r.blocks.Keys == doc.blocks.Keys
  {
    Doc(doc.order, map k | k in doc.blocks :: if k == skip then doc.blocks[k] else Rebuild(doc.blocks[k], edit))
  }

  /**
   * The loop both handlers run over a copy of the document: for every key but
   * `skip`, `nDocument[id]` is replaced by the block with its lists rebuilt.
   */
  method RebuildEach(document: Doc, skip: Id, edit: ListEdit) returns (r: Doc)
    requires document.WellFormed()
    ensures r == Rebuilt(document, skip, edit)
  {
    ghost var target := Rebuilt(document, skip, edit).blocks;
    ghost var done: set<Id> := {};
    var blocks := document.blocks;
    var i := 0;
    while i < |document.order|
      invariant 0 <= i <= |document.order|
      invariant forall j :: 0 <= j < i ==> document.order[j] in done
      invariant blocks.Keys == document.blocks.Keys
      invariant forall k :: k in blocks ==> blocks[k] == if k in done then target[k] else document.blocks[k]
    {
      var id := document.order[i];
      if id != skip {
        blocks := blocks[id := Rebuild(document.blocks[id], edit)];
      }
      done := done + {id};
      assert forall j :: 0 <= j < i + 1 ==> document.order[j] in done by {
        forall j | 0 <= j < i + 1 ensures document.order[j] in done {
          if j == i { assert document.order[j] == id; }
        }
      }
      i := i + 1;
    }
    assert blocks == target;
    r := Doc(document.order, blocks);
  }

  /** The document `handleDeleteClick` installs: every other block stripped of `blockId`, then `blockId` removed. */
  function Deleted(doc: Doc, blockId: Id): (r: Doc)
    requires doc.WellFormed()
    ensures r.WellFormed()
    ensures r.order == Without(doc.order, blockId)
    ensures r.blocks.Keys == doc.blocks.Keys - {blockId}
  {
    Rebuilt(doc, blockId, Strip(blockId)).Remove(blockId)
  }

  /** `handleDeleteClick`'s loop, then `delete nDocument[blockId]`. */
  method DeleteBlock(document: Doc, blockId: Id) returns (r: Doc)
    requires document.WellFormed()
    ensures r == Deleted(document, blockId)
  {
    var nDocument := RebuildEach(document, blockId, Strip(blockId));
    r := nDocument.Remove(blockId);
  }

  /** After delete no layout, container or column list mentions `blockId`, and each is the old list filtered. */
  lemma DeleteStripsReferences(doc: Doc, blockId: Id)
    requires doc.WellFormed()
    ensures forall k :: k in Deleted(doc, blockId).blocks ==>
      var lists, old_lists := OwnLists(Deleted(doc, blockId).blocks[k]), OwnLists(doc.blocks[k]);
      && |lists| == |old_lists|
      && forall i :: 0 <= i < |lists| ==>
           && lists[i] == FilterChildrenIds(old_lists[i], blockId)
           && (lists[i].Some? ==> blockId !in lists[i].value)
  {
    forall k | k in Deleted(doc, blockId).blocks {
      RebuildShape(doc.blocks[k], Strip(blockId));
    }
  }

  /**
   * Delete does not cascade: every other key stays, including the deleted block's
   * own children, and leaf blocks are carried over unchanged.
   */
  lemma DeleteKeepsOthers(doc: Doc, blockId: Id)
    requires doc.WellFormed()
    ensures blockId !in Deleted(doc, blockId).blocks
    ensures forall k :: k in doc.blocks && k != blockId ==> k in Deleted(doc, blockId).blocks
    ensures blockId in doc.blocks ==>
      forall c :: c in Children(doc.blocks[blockId]) && c in doc.blocks && c != blockId ==>
        c in Deleted(doc, blockId).blocks
    ensures forall k :: k in doc.blocks && k != blockId && !IsParentKind(doc.blocks[k].kind) ==>
      Deleted(doc, blockId).blocks[k] == doc.blocks[k]
  {
  }

  /** `handleDeleteClick`: the rewritten document replaces the store's document. */
  method HandleDeleteClick(store: EditorStore, blockId: Id)
    requires store.Valid()
    modifies store
    ensures store.Valid()
    ensures store.document == Deleted(old(store.document), blockId)
    ensures store.selectedBlockId == old(store.selectedBlockId)
    ensures store.selectedMainTab == old(store.selectedMainTab)
    ensures store.selectedScreenSize == old(store.selectedScreenSize)
  {
    var nDocument := DeleteBlock(store.document, blockId);
    store.ResetDocument(nDocument);
  }

  // ---------------------------------------------------------------- move

  /** The document `handleMoveClick` installs; the moved block's own entry is skipped. */
  function Moved(doc: Doc, blockId: Id, dir: Direction): (r: Doc)
    requires doc.WellFormed()
    ensures r.WellFormed()
    ensures r.order == doc.order && r.blocks.Keys == doc.blocks.Keys
  {
    Rebuilt(doc, blockId, Shift(blockId, dir))
  }

  /** `handleMoveClick`'s loop over a copy of the document. */
  method MoveBlock(document: Doc, blockId: Id, dir: Direction) returns (r: Doc)
    requires document.WellFormed()
    ensures r == Moved(document, blockId, dir)
  {
    r := RebuildEach(document, blockId, Shift(blockId, dir));
  }

  /** Each owned list of `after` is a permutation of the same list of `before`, and a missing list stays missing. */
  ghost predicate ListsPermuted(after: Block, before: Block) {
    var lists, old_lists := OwnLists(after), OwnLists(before);
    && |lists| == |old_lists|
    && forall i :: 0 <= i < |lists| ==>
         && (lists[i].Some? <==> old_lists[i].Some?)
         && (lists[i].Some? ==> multiset(lists[i].value) == multiset(old_lists[i].value))
  }

  /** One block under move: its lists are permuted. */
  lemma MovedListsPermuted(b: Block, blockId: Id, dir: Direction)
    ensures ListsPermuted(Rebuild(b, Shift(blockId, dir)), b)
  {
    RebuildShape(b, Shift(blockId, dir));
  }

  /** Move turns every owned children list into a permutation of itself. */
  lemma MovePermutesLists(doc: Doc, blockId: Id, dir: Direction)
    requires doc.WellFormed()
    ensures forall k :: k in doc.blocks ==> ListsPermuted(Moved(doc, blockId, dir).blocks[k], doc.blocks[k])
  {
    forall k | k in doc.blocks
      ensures ListsPermuted(Moved(doc, blockId, dir).blocks[k], doc.blocks[k])
    {
      if k != blockId {
        MovedListsPermuted(doc.blocks[k], blockId, dir);
      }
    }
  }

  /** Move leaves the moved block's own entry and every leaf block as they were. */
  lemma MoveKeepsOthers(doc: Doc, blockId: Id, dir: Direction)
    requires doc.WellFormed()
    ensures blockId in doc.blocks ==> Moved(doc, blockId, dir).blocks[blockId] == doc.blocks[blockId]
    ensures forall k :: k in doc.blocks && !IsParentKind(doc.blocks[k].kind) ==>
      Moved(doc, blockId, dir).blocks[k] == doc.blocks[k]
  {
  }

  /** `handleMoveClick`: the rewritten document replaces the store's, and the moved block stays selected. */
  method HandleMoveClick(store: EditorStore, blockId: Id, dir: Direction)
    requires store.Valid()
    modifies store
    ensures store.Valid()
    ensures store.document == Moved(old(store.document), blockId, dir)
    ensures store.selectedBlockId == Some(blockId)
    ensures store.selectedMainTab == old(store.selectedMainTab)
    ensures store.selectedScreenSize == old(store.selectedScreenSize)
  {
    var nDocument := MoveBlock(store.document, blockId, dir);
    store.ResetDocument(nDocument);
    store.SetSelectedBlockId(Some(blockId));
  }

  // ---------------------------------------------------------------- extract

  /** The reference graph the walk follows: each present, non-empty key to all the ids its block lists. */
  ghost function Graph(doc: Doc): map<Id, seq<Id>> {
    map k | k in doc.blocks && k != "" :: Children(doc.blocks[k])
  }

  /** `to` can be reached from `from` by following the children lists of present blocks. */
  ghost predicate Reaches(doc: Doc, from: Id, to: Id) {
    Reachable(Graph(doc), from, to)
  }

  /** A block's own children are reached from it. */
  lemma ChildReached(d: Doc, k: Id, c: Id)
    requires k in d.blocks && k != "" && c in Children(d.blocks[k])
    ensures Reaches(d, k, c)
  {
    var g := Graph(d);
    assert IsPath(g, [k]);
    ReachableStep(g, k, k, c);
  }

  /**
   * `getBlockAndChildren`: a breadth-first walk from `id` with a queue and a visited
   * set. Each id is entered at most once, an empty id or an id with no block is
   * skipped, and the blocks are copied in visiting order. The result holds exactly
   * the present blocks reachable from `id`, unchanged, with `id` first.
   */
  method GetBlockAndChildren(document: Doc, id: Id) returns (result: Doc)
    requires document.WellFormed()
    ensures result.WellFormed()
    ensures forall k :: k in result.blocks ==> k in document.blocks && result.blocks[k] == document.blocks[k]
    ensures id in document.blocks && id != "" ==> |result.order| > 0 && result.order[0] == id
    ensures forall k :: k in document.blocks && k != "" ==> (k in result.blocks <==> Reaches(document, id, k))
    ensures "" !in result.blocks
  {
    ghost var g := Graph(document);
    var order: seq<Id> := [];
    var blocks: map<Id, Block> := map[];
    var queue := [id];
    var visited: set<Id> := {};
    WalkStart(document.blocks, g, id);
    while |queue| > 0
      // Stated as one boolean fact: the step lemmas of module Reach establish it whole.
      invariant WalkInv(document.blocks, g, id, order, blocks, queue, visited) == true
      decreases |document.blocks.Keys - blocks.Keys|, |queue|
    {
      var currentId := queue[0];
      if currentId == "" || currentId in visited {
        WalkSkip(document.blocks, g, id, order, blocks, queue, visited);
        queue := queue[1..];
      } else if currentId !in document.blocks {
        WalkMissing(document.blocks, g, id, order, blocks, queue, visited);
        queue := queue[1..];
        visited := visited + {currentId};
      } else {
        var block := document.blocks[currentId];
        WalkVisit(document.blocks, g, id, order, blocks, queue, visited);
        Shrinks(document.blocks.Keys, blocks.Keys, currentId);
        var childrenIds := Children(block);
        assert childrenIds == g[currentId];
        queue := queue[1..] + childrenIds;
        visited := visited + {currentId};
        order := order + [currentId];
        blocks := blocks[currentId := block];
      }
    }
    WalkDone(document.blocks, g, id, order, blocks, visited);
    result := Doc(order, blocks);
  }

  /**
   * The extracted component is self-contained: every child a copied block names
   * and the document holds is copied too.
   */
  lemma ExtractSelfContained(document: Doc, id: Id, result: Doc)
    requires forall k :: k in result.blocks ==> k in document.blocks && result.blocks[k] == document.blocks[k]
    requires forall k :: k in document.blocks && k != "" ==> (k in result.blocks <==> Reaches(document, id, k))
    requires "" !in result.blocks
    ensures forall k, c :: k in result.blocks && c in Children(result.blocks[k]) && c in document.blocks && c != "" ==>
      c in result.blocks
  {
    forall k, c | k in result.blocks && c in Children(result.blocks[k]) && c in document.blocks && c != ""
      ensures c in result.blocks
    {
      ReachableStep(Graph(document), id, k, c);
    }
  }

  /**
   * The saved component's root when it is inserted again: its first layout
   * block, else its first key. The walk copies `id` first, so the root is `id`
   * exactly when `id` is a layout block itself or no copied block is one.
   */
  lemma ReinsertionRoot(result: Doc, id: Id)
    requires result.WellFormed() && "" !in result.blocks
    requires |result.order| > 0 && result.order[0] == id
    ensures RootOrFirst(result) == Some(id) <==>
      IsLayoutAt(result.blocks, id) || forall k :: k in result.blocks ==> !IsLayoutAt(result.blocks, k)
  {
    match FindLayout(result.order, result.blocks)
    case None =>
      forall k | k in result.blocks ensures !IsLayoutAt(result.blocks, k) {
        var j :| 0 <= j < |result.order| && result.order[j] == k;
      }
    case Some(i) =>
      assert result.order[i] in result.blocks;
      if i > 0 {
        assert result.order[i] != result.order[0];
      }
  }

  /** What `handleSaveComponentSubmit` does: refuse a blank name, or post the component. */
  datatype ComponentSave =
    | NameMissing
    | CreateComponent(name: string, subject: string, htmlBody: string, editorJson: Doc,
                      fromEmailUsername: Option<string>, isComponent: bool)

  /**
   * `handleSaveComponentSubmit`: a blank name is refused; otherwise the block is
   * rendered from `blockId` and posted as a component together with the blocks
   * reachable from it. The renderer is a parameter.
   */
  method HandleSaveComponentSubmit(document: Doc, blockId: Id, componentName: string,
                                   render: (Doc, Id) -> string) returns (r: ComponentSave)
    requires document.WellFormed()
    ensures r.NameMissing? <==> Trim(componentName) == []
    ensures r.CreateComponent? ==>
      && r.name == componentName && r.subject == "" && r.isComponent && r.fromEmailUsername.None?
      && r.htmlBody == render(document, blockId)
      && r.editorJson.WellFormed()
      && (forall k :: k in r.editorJson.blocks ==> k in document.blocks && r.editorJson.blocks[k] == document.blocks[k])
      && (forall k :: k in document.blocks && k != "" ==> (k in r.editorJson.blocks <==> Reaches(document, blockId, k)))
      && (blockId in document.blocks && blockId != "" ==> |r.editorJson.order| > 0 && r.editorJson.order[0] == blockId)
  {
    if Trim(componentName) == [] {
      return NameMissing;
    }
    var htmlBody := render(document, blockId);
    var componentEditorJson := GetBlockAndChildren(document, blockId);
    r := CreateComponent(componentName, "", htmlBody, componentEditorJson, None, true);
  }
}
