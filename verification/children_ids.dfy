/**
 * Adding a block to a children list (`EditorChildrenIds`). A plain block gets a
 * fresh id and is appended or spliced into the list. A reusable component
 * carries its whole sub-document in `_allBlocks`: every one of its blocks gets a
 * fresh id, every children list inside it is rewritten through the id map, and
 * the component's root (its first "EmailLayout" block, or else its first key)
 * is the block that joins the list.
 *
 * `generateId` reads the clock and a random source, so the fresh ids are
 * parameters: `freshId` for a plain block, `newIds[i]` for the i-th key of a
 * component.
 */
module ChildrenIds {
  import opened Wrappers
  import opened Seqs
  import opened Blocks

  /** What `onChange` receives. `allBlocks` is present only for a component. */
  datatype Change = Change(blockId: Id, block: Block, childrenIds: seq<Id>, allBlocks: Option<Doc>)

  /** `idMap.get(id) || id`: an unmapped id, or one mapped to the empty string, stays as it is. */
  function Lookup(m: map<Id, Id>, id: Id): (r: Id)
    ensures id in m && m[id] != "" ==> r == m[id]
    ensures id !in m ==> r == id
    ensures id != "" ==> r != ""
  {
    if id in m && m[id] != "" then m[id] else id
  }

  /** `ids.map(id => idMap.get(id) || id)`. */
  function RemapIds(ids: seq<Id>, m: map<Id, Id>): (r: seq<Id>)
    ensures |r| == |ids|
    ensures forall i :: 0 <= i < |ids| ==> r[i] == Lookup(m, ids[i])
  {
    if ids == [] then [] else [Lookup(m, ids[0])] + RemapIds(ids[1..], m)
  }

  lemma RemapIdsConcat(a: seq<Id>, b: seq<Id>, m: map<Id, Id>)
    ensures RemapIds(a + b, m) == RemapIds(a, m) + RemapIds(b, m)
  {
  }

  /** `ids?.map(...)`: a missing list stays missing. */
  function RemapList(ids: Option<seq<Id>>, m: map<Id, Id>): Option<seq<Id>> {
    match ids
    case None => None
    case Some(s) => Some(RemapIds(s, m))
  }

  /** `columns.map(col => ({...col, childrenIds: col.childrenIds?.map(...)}))`. */
  function RemapColumns(cols: seq<Column>, m: map<Id, Id>): (r: seq<Column>)
    ensures |r| == |cols|
    ensures forall i :: 0 <= i < |cols| ==> r[i] == Column(RemapList(cols[i].childrenIds, m), cols[i].rest)
  {
    if cols == [] then [] else [Column(RemapList(cols[0].childrenIds, m), cols[0].rest)] + RemapColumns(cols[1..], m)
  }

  /** The ids of the rewritten columns are the rewritten ids of the columns. */
  lemma {:induction false} RemapColumnIds(cols: seq<Column>, m: map<Id, Id>)
    ensures ColumnIds(RemapColumns(cols, m)) == RemapIds(ColumnIds(cols), m)
    decreases |cols|
  {
    if cols != [] {
      var r := RemapColumns(cols, m);
      assert r[1..] == RemapColumns(cols[1..], m);
      RemapColumnIds(cols[1..], m);
      RemapIdsConcat(OrEmpty(cols[0].childrenIds), ColumnIds(cols[1..]), m);
    }
  }

  /**
   * One block of a component with its references rewritten. Each of the three
   * lists is rewritten when present. The columns step spreads the block's
   * ORIGINAL props, so a block holding both `props.childrenIds` and
   * `props.columns` keeps its `props.childrenIds` unrewritten.
   */
  function RemapBlock(b: Block, m: map<Id, Id>): (r: Block)
    ensures r.kind == b.kind && r.allBlocks == b.allBlocks
    ensures r.data.style == b.data.style && r.data.rest == b.data.rest
    ensures r.data.childrenIds.Some? <==> b.data.childrenIds.Some?
    ensures r.data.props.Some? <==> b.data.props.Some?
  {
    var d := b.data;
    var d1 := if d.childrenIds.Some? then d.(childrenIds := RemapList(d.childrenIds, m)) else d;
    var d2 :=
      if d.props.Some? && d.props.value.childrenIds.Some?
      then d1.(props := Some(d.props.value.(childrenIds := RemapList(d.props.value.childrenIds, m))))
      else d1;
    var d3 :=
      if d.props.Some? && d.props.value.columns.Some?
      then d2.(props := Some(d.props.value.(columns := Some(RemapColumns(d.props.value.columns.value, m)))))
      else d2;
    b.(data := d3)
  }

  /** A block holding both a props children list and columns: no block kind does. */
  ghost predicate HasBothPropsLists(b: Block) {
    b.data.props.Some? && b.data.props.value.childrenIds.Some? && b.data.props.value.columns.Some?
  }

  /**
   * What rewriting changes: the three lists, each id through the map. Everything
   * else (kind, style, other fields, `_allBlocks`, column fields, fixed widths)
   * is kept; with both props lists present, the props children list is kept.
   */
  lemma RemapBlockShape(b: Block, m: map<Id, Id>)
    ensures RemapBlock(b, m).kind == b.kind && RemapBlock(b, m).allBlocks == b.allBlocks
    ensures RemapBlock(b, m).data.style == b.data.style && RemapBlock(b, m).data.rest == b.data.rest
    ensures RemapBlock(b, m).data.childrenIds == RemapList(b.data.childrenIds, m)
    ensures RemapBlock(b, m).data.props.None? <==> b.data.props.None?
    ensures b.data.props.Some? ==>
      var p, q := b.data.props.value, RemapBlock(b, m).data.props.value;
      && q.rest == p.rest && q.fixedWidths == p.fixedWidths
      && q.columns == (if p.columns.Some? then Some(RemapColumns(p.columns.value, m)) else None)
      && q.childrenIds == (if p.columns.Some? then p.childrenIds else RemapList(p.childrenIds, m))
  {
  }

  /** For every block kind the editor has, the children of a rewritten block are the rewritten children. */
  lemma RemapChildren(b: Block, m: map<Id, Id>)
    requires !HasBothPropsLists(b)
    ensures Children(RemapBlock(b, m)) == RemapIds(Children(b), m)
  {
    var r := RemapBlock(b, m);
    assert OrEmpty(r.data.childrenIds) == RemapIds(OrEmpty(b.data.childrenIds), m);
    assert OrEmpty(PropsChildren(r)) == RemapIds(OrEmpty(PropsChildren(b)), m);
    RemapColumnIds(ColumnsOf(b), m);
    assert ColumnsOf(r) == RemapColumns(ColumnsOf(b), m);
    RemapIdsConcat(OrEmpty(b.data.childrenIds), OrEmpty(PropsChildren(b)), m);
    RemapIdsConcat(OrEmpty(b.data.childrenIds) + OrEmpty(PropsChildren(b)), ColumnIds(ColumnsOf(b)), m);
  }

  /** `idMap` after `idMap.set(keys[i], newIds[i])` for every key in order. */
  function IdMap(keys: seq<Id>, newIds: seq<Id>): (m: map<Id, Id>)
    requires |keys| <= |newIds|
    ensures m.Keys == set k | k in keys
    decreases |keys|
  {
    if keys == [] then map[]
    else
      var n := |keys| - 1;
      var m := IdMap(keys[..n], newIds)[keys[n] := newIds[n]];
      assert forall k :: k in keys <==> k in keys[..n] || k == keys[n];
      m
  }

  /** With distinct keys, the i-th key maps to the i-th fresh id. */
  lemma {:induction false} IdMapAt(keys: seq<Id>, newIds: seq<Id>, i: nat)
    requires |keys| <= |newIds| && Distinct(keys) && i < |keys|
    ensures IdMap(keys, newIds)[keys[i]] == newIds[i]
    decreases |keys|
  {
    var n := |keys| - 1;
    if i < n {
      IdMapAt(keys[..n], newIds, i);
    }
  }

  /** Each of the first `|keys|` keys' values, stored under the fresh id at the same position, in key order. */
  function Rekeyed<V>(keys: seq<Id>, newIds: seq<Id>, vals: map<Id, V>): (r: map<Id, V>)
    requires |keys| <= |newIds| && forall j :: 0 <= j < |keys| ==> keys[j] in vals
    ensures forall k :: k in r <==> k in newIds[..|keys|]
    decreases |keys|
  {
    if keys == [] then map[]
    else
      var n := |keys| - 1;
      var r := Rekeyed(keys[..n], newIds, vals)[newIds[n] := vals[keys[n]]];
      assert newIds[..n + 1] == newIds[..n] + [newIds[n]];
      r
  }

  /** With distinct fresh ids, the i-th fresh id holds the i-th key's value. */
  lemma {:induction false} RekeyedAt<V>(keys: seq<Id>, newIds: seq<Id>, vals: map<Id, V>, i: nat)
    requires |keys| <= |newIds| && forall j :: 0 <= j < |keys| ==> keys[j] in vals
    requires Distinct(newIds) && i < |keys|
    ensures Rekeyed(keys, newIds, vals)[newIds[i]] == vals[keys[i]]
    decreases |keys|
  {
    var n := |keys| - 1;
    if i < n {
      assert newIds[i] != newIds[n];
      RekeyedAt(keys[..n], newIds, vals, i);
    }
  }

  /** Every block of a component, rewritten through `m`, under its old key. */
  function RemapAll(blocks: map<Id, Block>, m: map<Id, Id>): (r: map<Id, Block>)
    ensures r.Keys == blocks.Keys
    ensures forall k :: k in r ==> r[k] == RemapBlock(blocks[k], m)
  {
    map k | k in blocks :: RemapBlock(blocks[k], m)
  }

  /** The component after `remapComponentIds`, its keys in the order of the original keys. */
  function Remapped(all: Doc, newIds: seq<Id>): (r: Doc)
    requires all.WellFormed() && |newIds| == |all.order| && Distinct(newIds)
    ensures r.WellFormed() && r.order == newIds
  {
    assert newIds[..|all.order|] == newIds;
    Doc(newIds, Rekeyed(all.order, newIds, RemapAll(all.blocks, IdMap(all.order, newIds))))
  }

  lemma RemappedAt(all: Doc, newIds: seq<Id>, i: nat)
    requires all.WellFormed() && |newIds| == |all.order| && Distinct(newIds) && i < |newIds|
    ensures Remapped(all, newIds).blocks[newIds[i]] == RemapBlock(all.blocks[all.order[i]], IdMap(all.order, newIds))
  {
    RekeyedAt(all.order, newIds, RemapAll(all.blocks, IdMap(all.order, newIds)), i);
  }

  /** The first pass of `remapComponentIds`: `idMap.set(key, newIds[i])` for every key. */
  method BuildIdMap(keys: seq<Id>, newIds: seq<Id>) returns (idMap: map<Id, Id>)
    requires |keys| <= |newIds|
    ensures idMap == IdMap(keys, newIds)
  {
    idMap := map[];
    var i := 0;
    while i < |keys|
      invariant 0 <= i <= |keys|
      invariant idMap == IdMap(keys[..i], newIds)
    {
      assert keys[..i + 1][..i] == keys[..i];
      idMap := idMap[keys[i] := newIds[i]];
      i := i + 1;
    }
    assert keys[..i] == keys;
  }

  /** The second pass: each block, rewritten through `idMap`, goes under the new id of its key. */
  method StoreRemapped(keys: seq<Id>, newIds: seq<Id>, all: map<Id, Block>, idMap: map<Id, Id>) returns (blocks: map<Id, Block>)
    requires |keys| <= |newIds| && forall k :: k in keys ==> k in all
    requires forall i :: 0 <= i < |keys| ==> keys[i] in idMap && idMap[keys[i]] == newIds[i]
    ensures blocks == Rekeyed(keys, newIds, RemapAll(all, idMap))
  {
    blocks := map[];
    var i := 0;
    while i < |keys|
      invariant 0 <= i <= |keys|
      invariant blocks == Rekeyed(keys[..i], newIds, RemapAll(all, idMap))
    {
      assert keys[..i + 1][..i] == keys[..i];
      var oldId := keys[i];
      var newId := idMap[oldId];
      blocks := blocks[newId := RemapBlock(all[oldId], idMap)];
      i := i + 1;
    }
    assert keys[..i] == keys;
  }

  /**
   * `remapComponentIds`: one pass gives every key its fresh id, a second pass
   * stores each block, rewritten, under its new id. The root's new id is looked
   * up in the map.
   */
  method RemapComponentIds(all: Doc, oldRootId: Id, newIds: seq<Id>) returns (remappedBlocks: Doc, newRootId: Id)
    requires all.WellFormed() && oldRootId in all.blocks
    requires |newIds| == |all.order| && Distinct(newIds)
    ensures remappedBlocks == Remapped(all, newIds)
    ensures newRootId == IdMap(all.order, newIds)[oldRootId]
    ensures newRootId in remappedBlocks.blocks
  {
    var idMap := BuildIdMap(all.order, newIds);
    forall i | 0 <= i < |all.order| ensures all.order[i] in idMap && idMap[all.order[i]] == newIds[i] {
      IdMapAt(all.order, newIds, i);
    }
    var blocks := StoreRemapped(all.order, newIds, all.blocks, idMap);
    remappedBlocks := Doc(newIds, blocks);
    ghost var r := IndexOf(all.order, oldRootId).value;
    IdMapAt(all.order, newIds, r);
    newRootId := idMap[oldRootId];
  }

  /**
   * Rewriting keeps a component self-contained: the block under the i-th fresh id
   * lists the rewritten children of the i-th original block, an id that was a key
   * of the component now names the block copied from it, and an id from outside
   * the component is left unchanged.
   */
  lemma {:induction false} RemappedSelfContained(all: Doc, newIds: seq<Id>, i: nat)
    requires all.WellFormed() && |newIds| == |all.order| && Distinct(newIds) && i < |newIds|
    requires forall j :: 0 <= j < |newIds| ==> newIds[j] != ""
    requires !HasBothPropsLists(all.blocks[all.order[i]])
    ensures Children(Remapped(all, newIds).blocks[newIds[i]]) == RemapIds(Children(all.blocks[all.order[i]]), IdMap(all.order, newIds))
    ensures forall c :: c in Children(all.blocks[all.order[i]]) && c in all.blocks ==>
      exists j :: 0 <= j < |newIds| && all.order[j] == c && Lookup(IdMap(all.order, newIds), c) == newIds[j]
    ensures forall c :: c in Children(all.blocks[all.order[i]]) && c !in all.blocks ==>
      Lookup(IdMap(all.order, newIds), c) == c
  {
    var m := IdMap(all.order, newIds);
    RemappedAt(all, newIds, i);
    RemapChildren(all.blocks[all.order[i]], m);
    forall c | c in Children(all.blocks[all.order[i]]) && c in all.blocks
      ensures exists j :: 0 <= j < |newIds| && all.order[j] == c && Lookup(m, c) == newIds[j]
    {
      var j :| 0 <= j < |all.order| && all.order[j] == c;
      IdMapAt(all.order, newIds, j);
    }
  }

  /** `[...(childrenIds || [])].splice(index, 0, x)`, at the position `splice` clamps `index` to. */
  function Inserted(ids: Option<seq<Id>>, index: int, x: Id): (r: seq<Id>)
    ensures |r| == |OrEmpty(ids)| + 1
    ensures multiset(r) == multiset(OrEmpty(ids)) + multiset{x}
  {
    var s := OrEmpty(ids);
    var k := ClampIndex(|s|, index);
    assert s == s[..k] + s[k..];
    s[..k] + [x] + s[k..]
  }

  /** Inserting keeps the neighbours' order: the list is the old one with `x` at the clamped position. */
  lemma InsertedAt(ids: Option<seq<Id>>, index: int, x: Id)
    ensures var s, k := OrEmpty(ids), ClampIndex(|OrEmpty(ids)|, index);
      && Inserted(ids, index, x)[k] == x
      && Inserted(ids, index, x)[..k] == s[..k]
      && Inserted(ids, index, x)[k + 1..] == s[k..]
  {
  }

  /** The fresh ids a component needs: one per key, distinct. */
  ghost predicate IdsFor(block: Block, newIds: seq<Id>) {
    block.allBlocks.Some? ==> |newIds| == |block.allBlocks.value.order| && Distinct(newIds)
  }

  /** A component's `_allBlocks`: a well-formed document with at least one key to take the root from. */
  ghost predicate Insertable(block: Block) {
    block.allBlocks.Some? ==> block.allBlocks.value.WellFormed() && |block.allBlocks.value.order| > 0
  }

  /**
   * Shared by append and insert: a plain block keeps its value under `freshId`;
   * a component is remapped and its root, without `_allBlocks`, becomes the block.
   */
  method NewChild(block: Block, freshId: Id, newIds: seq<Id>) returns (blockId: Id, newBlock: Block, allBlocks: Option<Doc>)
    requires Insertable(block) && IdsFor(block, newIds)
    ensures block.allBlocks.None? ==> blockId == freshId && newBlock == block && allBlocks == None
    ensures block.allBlocks.Some? ==>
      var all := block.allBlocks.value;
      && allBlocks == Some(Remapped(all, newIds))
      && blockId == IdMap(all.order, newIds)[RootOrFirst(all).value]
      && blockId in allBlocks.value.blocks
      && newBlock == allBlocks.value.blocks[blockId].(allBlocks := None)
  {
    if block.allBlocks.None? {
      return freshId, block, None;
    }
    var all := block.allBlocks.value;
    var oldRootBlockId := RootOrFirst(all).value;
    var remappedBlocks, newRootId := RemapComponentIds(all, oldRootBlockId, newIds);
    var rootBlock := remappedBlocks.blocks[newRootId].(allBlocks := None);
    return newRootId, rootBlock, Some(remappedBlocks);
  }

  /** `appendBlock`: the new id goes after the existing children. */
  method AppendBlock(childrenIds: Option<seq<Id>>, block: Block, freshId: Id, newIds: seq<Id>) returns (ch: Change)
    requires Insertable(block) && IdsFor(block, newIds)
    ensures ch.childrenIds == OrEmpty(childrenIds) + [ch.blockId]
    ensures block.allBlocks.None? ==> ch == Change(freshId, block, OrEmpty(childrenIds) + [freshId], None)
    ensures block.allBlocks.Some? ==>
      var all := block.allBlocks.value;
      && ch.allBlocks == Some(Remapped(all, newIds))
      && ch.blockId == IdMap(all.order, newIds)[RootOrFirst(all).value]
      && ch.blockId in ch.allBlocks.value.blocks
      && ch.block == ch.allBlocks.value.blocks[ch.blockId].(allBlocks := None)
  {
    var blockId, newBlock, allBlocks := NewChild(block, freshId, newIds);
    ch := Change(blockId, newBlock, OrEmpty(childrenIds) + [blockId], allBlocks);
  }

  /** `insertBlock`: the new id is spliced in at `index`. */
  method InsertBlock(childrenIds: Option<seq<Id>>, block: Block, index: int, freshId: Id, newIds: seq<Id>) returns (ch: Change)
    requires Insertable(block) && IdsFor(block, newIds)
    ensures ch.childrenIds == Inserted(childrenIds, index, ch.blockId)
    ensures block.allBlocks.None? ==> ch == Change(freshId, block, Inserted(childrenIds, index, freshId), None)
    ensures block.allBlocks.Some? ==>
      var all := block.allBlocks.value;
      && ch.allBlocks == Some(Remapped(all, newIds))
      && ch.blockId == IdMap(all.order, newIds)[RootOrFirst(all).value]
      && ch.blockId in ch.allBlocks.value.blocks
      && ch.block == ch.allBlocks.value.blocks[ch.blockId].(allBlocks := None)
  {
    var blockId, newBlock, allBlocks := NewChild(block, freshId, newIds);
    var newChildrenIds := OrEmpty(childrenIds);
    var k := ClampIndex(|newChildrenIds|, index);
    newChildrenIds := newChildrenIds[..k] + [blockId] + newChildrenIds[k..];
    ch := Change(blockId, newBlock, newChildrenIds, allBlocks);
  }

  /**
   * The patch a container editor hands to `setDocument` for a change:
   * `{ ..._allBlocks, [cur]: entry }` for a component, `{ [blockId]: block, [cur]: entry }`
   * otherwise. The container's own entry is written last and wins on a clash.
   */
  function ChangePatch(ch: Change, cur: Id, entry: Block): (r: Doc)
    requires ch.allBlocks.Some? ==> ch.allBlocks.value.WellFormed()
    ensures r.WellFormed()
    ensures cur in r.blocks && r.blocks[cur] == entry
    ensures ch.allBlocks.None? ==> r.blocks.Keys == {ch.blockId, cur}
    ensures ch.allBlocks.None? && ch.blockId != cur ==> r.blocks[ch.blockId] == ch.block
    ensures ch.allBlocks.Some? ==> r.blocks.Keys == ch.allBlocks.value.blocks.Keys + {cur}
    ensures ch.allBlocks.Some? ==>
      forall k :: k in r.blocks && k != cur ==> r.blocks[k] == ch.allBlocks.value.blocks[k]
  {
    match ch.allBlocks
    case Some(all) => all.Put(cur, entry)
    case None => EmptyDoc.Put(ch.blockId, ch.block).Put(cur, entry)
  }

  /**
   * Merging a change's patch: the container holds its new entry, the new child
   * is in the document, and every key the patch does not name is untouched.
   */
  lemma PatchApplied(doc: Doc, ch: Change, cur: Id, entry: Block)
    requires doc.WellFormed()
    requires ch.allBlocks.Some? ==> ch.allBlocks.value.WellFormed() && ch.blockId in ch.allBlocks.value.blocks
    ensures var d := Merge(doc, ChangePatch(ch, cur, entry));
      && d.blocks[cur] == entry
      && ch.blockId in d.blocks
      && (ch.allBlocks.None? && ch.blockId != cur ==> d.blocks[ch.blockId] == ch.block)
      && doc.blocks.Keys <= d.blocks.Keys
      && forall k :: k in doc.blocks && k !in ChangePatch(ch, cur, entry).blocks ==> d.blocks[k] == doc.blocks[k]
  {
  }
}
