/**
 * The block tree: a flat map from block id to block, with the key order that
 * `Object.keys` reports. Three block kinds own children lists:
 *  - "EmailLayout" in `data.childrenIds`,
 *  - "Container" in `data.props.childrenIds`,
 *  - "ColumnsContainer" in `data.props.columns[i].childrenIds`.
 * Every other kind is a leaf. A JSON field that is null or undefined is `None`;
 * the fields no operation here looks at are kept opaquely in `rest`.
 */
module Blocks {
  import opened Wrappers
  import opened Seqs

  type Id = string

  /** Any JSON fields that the editor copies without looking inside. */
  type Fields = map<string, string>

  const LayoutKind: string := "EmailLayout"
  const ContainerKind: string := "Container"
  const ColumnsKind: string := "ColumnsContainer"

  datatype Column = Column(childrenIds: Option<seq<Id>>, rest: Fields)

  datatype Props = Props(
    childrenIds: Option<seq<Id>>,
    columns: Option<seq<Column>>,
    fixedWidths: Option<seq<Option<int>>>,
    rest: Fields)

  datatype BlockData = BlockData(
    style: Option<Fields>,
    childrenIds: Option<seq<Id>>,
    props: Option<Props>,
    rest: Fields)

  /** A block; `allBlocks` is the `_allBlocks` field a reusable component carries while it is being inserted. */
  datatype Block = Block(kind: string, data: BlockData, allBlocks: Option<Doc>)

  /** A document: its keys in `Object.keys` order and the blocks they name. */
  datatype Doc = Doc(order: seq<Id>, blocks: map<Id, Block>) {

    ghost predicate WellFormed() {
      Distinct(order) && forall k :: k in order <==> k in blocks
    }

    /** `d[k] = b`: an existing key keeps its place, a new key goes last. */
    function Put(k: Id, b: Block): (d: Doc)
      ensures d.blocks == blocks[k := b]
      ensures WellFormed() ==> d.WellFormed()
      ensures WellFormed() ==> d.order == if k in blocks then order else order + [k]
    {
      if k in blocks then Doc(order, blocks[k := b]) else Doc(order + [k], blocks[k := b])
    }

    /** `delete d[k]`. */
    function Remove(k: Id): (d: Doc)
      ensures d.blocks == blocks - {k}
      ensures d.order == Without(order, k)
      ensures WellFormed() ==> d.WellFormed()
    {
      var d := Doc(Without(order, k), blocks - {k});
      assert WellFormed() ==> d.WellFormed() by {
        if WellFormed() { WithoutDistinct(order, k); }
      }
      d
    }
  }

  const EmptyDoc: Doc := Doc([], map[])
  const EmptyProps: Props := Props(None, None, None, map[])

  /** `ids || []` / `ids ?? []`. */
  function OrEmpty(ids: Option<seq<Id>>): seq<Id> {
    ids.GetOr([])
  }

  /** The ids of every column's `childrenIds`, column after column (a missing list adds nothing). */
  function ColumnIds(cols: seq<Column>): (r: seq<Id>)
    ensures forall c :: c in r <==> exists j :: 0 <= j < |cols| && c in OrEmpty(cols[j].childrenIds)
  {
    if cols == [] then []
    else
      var rest := ColumnIds(cols[1..]);
      assert forall j :: 0 < j < |cols| ==> cols[j] == cols[1..][j - 1];
      OrEmpty(cols[0].childrenIds) + rest
  }

  /** `data.props.columns`, or no columns. */
  function ColumnsOf(b: Block): seq<Column> {
    if b.data.props.Some? then b.data.props.value.columns.GetOr([]) else []
  }

  /** `data.props.childrenIds`. */
  function PropsChildren(b: Block): Option<seq<Id>> {
    if b.data.props.Some? then b.data.props.value.childrenIds else None
  }

  /**
   * Every id a block refers to through any of the three places, whatever its kind:
   * `data.childrenIds`, then `data.props.childrenIds`, then each column's list.
   */
  function Children(b: Block): (r: seq<Id>)
    ensures forall c :: c in r <==>
      || c in OrEmpty(b.data.childrenIds)
      || c in OrEmpty(PropsChildren(b))
      || exists j :: 0 <= j < |ColumnsOf(b)| && c in OrEmpty(ColumnsOf(b)[j].childrenIds)
  {
    OrEmpty(b.data.childrenIds) + OrEmpty(PropsChildren(b)) + ColumnIds(ColumnsOf(b))
  }

  ghost predicate IsLayoutAt(blocks: map<Id, Block>, k: Id) {
    k in blocks && blocks[k].kind == LayoutKind
  }

  /** `keys.findIndex(k => blocks[k]?.type === "EmailLayout")`, as an index. */
  function FindLayout(keys: seq<Id>, blocks: map<Id, Block>): (r: Option<nat>)
    ensures r.Some? ==> r.value < |keys| && IsLayoutAt(blocks, keys[r.value])
    ensures r.Some? ==> forall j :: 0 <= j < r.value ==> !IsLayoutAt(blocks, keys[j])
    ensures r.None? ==> forall j :: 0 <= j < |keys| ==> !IsLayoutAt(blocks, keys[j])
  {
    if keys == [] then None
    else if keys[0] in blocks && blocks[keys[0]].kind == LayoutKind then Some(0)
    else match FindLayout(keys[1..], blocks)
      case None => None
      case Some(i) => Some(i + 1)
  }

  /** `Object.keys(d).find(k => d[k]?.type === "EmailLayout")`. */
  function FirstLayoutKey(d: Doc): (r: Option<Id>)
    ensures r.Some? ==> IsLayoutAt(d.blocks, r.value)
    ensures r.Some? ==> exists i :: 0 <= i < |d.order| && d.order[i] == r.value &&
                                    forall j :: 0 <= j < i ==> !IsLayoutAt(d.blocks, d.order[j])
    ensures r.None? <==> forall j :: 0 <= j < |d.order| ==> !IsLayoutAt(d.blocks, d.order[j])
  {
    match FindLayout(d.order, d.blocks)
    case None => None
    case Some(i) => Some(d.order[i])
  }

  /**
   * `Object.keys(d).find(k => d[k]?.type === "EmailLayout") || Object.keys(d)[0]`:
   * a found key that is the empty string is falsy and falls through to the first key.
   */
  function RootOrFirst(d: Doc): (r: Option<Id>)
    requires d.WellFormed()
    ensures r.Some? <==> |d.order| > 0
    ensures r.Some? ==> r.value in d.blocks
    ensures r.Some? && r.value != d.order[0] ==> IsLayoutAt(d.blocks, r.value)
    ensures FirstLayoutKey(d).Some? && FirstLayoutKey(d).value != "" ==> r == FirstLayoutKey(d)
    ensures |d.order| > 0 && !(FirstLayoutKey(d).Some? && FirstLayoutKey(d).value != "") ==>
      r == Some(d.order[0])
  {
    var f := FirstLayoutKey(d);
    if f.Some? && f.value != "" then f
    else if |d.order| > 0 then Some(d.order[0])
    else None
  }

  /** Puts `keys` of `m` into `d` one after the other, as `{...d, ...m}` does. */
  function PutAll(d: Doc, keys: seq<Id>, m: map<Id, Block>): (r: Doc)
    requires forall k :: k in keys ==> k in m
    requires d.WellFormed()
    ensures r.WellFormed()
    ensures r.blocks.Keys == d.blocks.Keys + (set k | k in keys)
    ensures forall k :: k in r.blocks ==> r.blocks[k] == if k in keys then m[k] else d.blocks[k]
    ensures d.order <= r.order
    decreases |keys|
  {
    if keys == [] then d
    else
      var d' := d.Put(keys[0], m[keys[0]]);
      var r := PutAll(d', keys[1..], m);
      assert forall k :: k in keys <==> k == keys[0] || k in keys[1..];
      r
  }

  /** `{...d, ...patch}`: every key of the patch overwrites or is added; every other key is untouched. */
  function Merge(d: Doc, patch: Doc): (r: Doc)
    requires d.WellFormed() && patch.WellFormed()
    ensures r.WellFormed()
    ensures r.blocks == d.blocks + patch.blocks
    ensures d.order <= r.order
  {
    var r := PutAll(d, patch.order, patch.blocks);
    var u := d.blocks + patch.blocks;
    assert (set k | k in patch.order) == patch.blocks.Keys;
    assert r.blocks.Keys == u.Keys;
    assert forall k :: k in r.blocks ==> r.blocks[k] == u[k];
    r
  }
}
