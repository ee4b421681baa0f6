/**
 * The ColumnsContainer block's editor: a change in column `columnIndex`
 * replaces that column by `{ childrenIds }`, rebuilds the block's data from
 * `style` and the props without `columns` (with `fixedWidths` cut to three
 * entries), adds the new child or the remapped component, and selects the new
 * child.
 */
module ColumnsEditor {
  import opened Wrappers
  import opened Blocks
  import opened Store
  import opened ChildrenIds
  import opened TuneMenu

  const ColumnCount: nat := 3

  /** `EMPTY_COLUMNS`: three columns with empty lists. */
  const EmptyColumns: seq<Column> := [Column(Some([]), map[]), Column(Some([]), map[]), Column(Some([]), map[])]

  /** `columns ?? EMPTY_COLUMNS`, where `props ?? {}` has no columns either. */
  function ColumnsValue(props: Option<Props>): (r: seq<Column>)
    ensures props.None? || props.value.columns.None? ==>
      |r| == ColumnCount && forall j :: 0 <= j < |r| ==> r[j].childrenIds == Some([])
    ensures props.Some? && props.value.columns.Some? ==> r == props.value.columns.value
  {
    if props.Some? && props.value.columns.Some? then props.value.columns.value else EmptyColumns
  }

  /** `fixedWidths[i]`, undefined past the end. */
  function WidthAt(fw: seq<Option<int>>, i: nat): Option<int> {
    if i < |fw| then fw[i] else None
  }

  /** `fixedWidths ? [fw[0], fw[1], fw[2]] : undefined`: any array, even an empty one, becomes three entries. */
  function NormalisedWidths(fw: Option<seq<Option<int>>>): (r: Option<seq<Option<int>>>)
    ensures fw.None? <==> r.None?
    ensures r.Some? ==> |r.value| == ColumnCount
    ensures r.Some? ==> forall j :: 0 <= j < ColumnCount && j < |fw.value| ==> r.value[j] == fw.value[j]
    ensures r.Some? ==> forall j :: |fw.value| <= j < ColumnCount ==> r.value[j].None?
  {
    match fw
    case None => None
    case Some(w) => Some([WidthAt(w, 0), WidthAt(w, 1), WidthAt(w, 2)])
  }

  /** Normalising twice changes nothing more. */
  lemma NormalisedWidthsIdempotent(fw: Option<seq<Option<int>>>)
    ensures NormalisedWidths(NormalisedWidths(fw)) == NormalisedWidths(fw)
  {
    if fw.Some? {
      var w := NormalisedWidths(fw).value;
      assert w == [WidthAt(w, 0), WidthAt(w, 1), WidthAt(w, 2)];
    }
  }

  /** `nColumns = [...columnsValue]; nColumns[columnIndex] = { childrenIds }`, on a copied array. */
  method ReplaceColumn(cols: seq<Column>, columnIndex: nat, childrenIds: seq<Id>) returns (nColumns: seq<Column>)
    requires columnIndex < |cols|
    ensures |nColumns| == |cols|
    ensures nColumns[columnIndex] == Column(Some(childrenIds), map[])
    ensures forall j :: 0 <= j < |cols| && j != columnIndex ==> nColumns[j] == cols[j]
  {
    var a := new Column[|cols|](j requires 0 <= j < |cols| => cols[j]);
    a[columnIndex] := Column(Some(childrenIds), map[]);
    nColumns := a[..];
  }

  /**
   * `{ type: "ColumnsContainer", data: { style, props: { ...restProps, fixedWidths, columns } } }`:
   * the data is rebuilt from `style` and the props alone, so any other data
   * field of the block is not carried over.
   */
  function ColumnsEntry(data: BlockData, nColumns: seq<Column>): (r: Block)
    ensures r.kind == ColumnsKind && r.allBlocks.None?
    ensures r.data.style == data.style && r.data.childrenIds.None? && r.data.rest == map[]
    ensures r.data.props.Some? && r.data.props.value.columns == Some(nColumns)
    ensures r.data.props.value.fixedWidths == NormalisedWidths(if data.props.Some? then data.props.value.fixedWidths else None)
    ensures data.props.Some? ==> r.data.props.value.rest == data.props.value.rest
    ensures Children(r) == OrEmpty(PropsChildren(Block(ColumnsKind, data, None))) + ColumnIds(nColumns)
  {
    var restProps := if data.props.Some? then data.props.value else EmptyProps;
    var props := restProps.(fixedWidths := NormalisedWidths(restProps.fixedWidths), columns := Some(nColumns));
    Block(ColumnsKind, BlockData(data.style, None, Some(props), map[]), None)
  }

  /**
   * `updateColumn(columnIndex, change)` for the block `cur` rendered with
   * `data`: merge the patch, then select the new child. The column must exist.
   */
  method UpdateColumn(store: EditorStore, cur: Id, data: BlockData, columnIndex: nat, ch: Change)
    requires store.Valid()
    requires columnIndex < ColumnCount && columnIndex < |ColumnsValue(data.props)|
    requires ch.allBlocks.Some? ==> ch.allBlocks.value.WellFormed()
    modifies store
    ensures store.Valid()
    ensures var cols := ColumnsValue(data.props);
      store.document == Merge(old(store.document),
        ChangePatch(ch, cur, ColumnsEntry(data, cols[columnIndex := Column(Some(ch.childrenIds), map[])])))
    ensures store.selectedBlockId == Some(ch.blockId)
    ensures store.selectedMainTab == old(store.selectedMainTab)
    ensures store.selectedScreenSize == old(store.selectedScreenSize)
  {
    var cols := ColumnsValue(data.props);
    var nColumns := ReplaceColumn(cols, columnIndex, ch.childrenIds);
    assert nColumns == cols[columnIndex := Column(Some(ch.childrenIds), map[])];
    var patch := ChangePatch(ch, cur, ColumnsEntry(data, nColumns));
    store.SetDocument(patch);
    store.SetSelectedBlockId(Some(ch.blockId));
  }

  /** The ids of `cols` with column `i` replaced by `ids`: the columns before, `ids`, the columns after. */
  lemma {:induction false} ColumnIdsReplaced(cols: seq<Column>, i: nat, ids: seq<Id>)
    requires i < |cols|
    ensures ColumnIds(cols[i := Column(Some(ids), map[])]) == ColumnIds(cols[..i]) + ids + ColumnIds(cols[i + 1..])
  {
    if i == 0 {
      assert cols[i := Column(Some(ids), map[])][1..] == cols[1..];
      ColumnIdsSplit(cols, 0);
    } else {
      ColumnIdsReplaced(cols[1..], i - 1, ids);
      assert cols[i := Column(Some(ids), map[])][1..] == cols[1..][i - 1 := Column(Some(ids), map[])];
      assert cols[..i] == [cols[0]] + cols[1..][..i - 1];
      assert cols[1..][i..] == cols[i + 1..];
    }
  }

  /** `ColumnIds` of a head column and the rest. */
  lemma ColumnIdsSplit(cols: seq<Column>, i: nat)
    requires i < |cols|
    ensures ColumnIds(cols) == ColumnIds(cols[..i]) + OrEmpty(cols[i].childrenIds) + ColumnIds(cols[i + 1..])
    decreases i
  {
    if i > 0 {
      ColumnIdsSplit(cols[1..], i - 1);
      assert cols[..i] == [cols[0]] + cols[1..][..i - 1];
      assert cols[1..][i..] == cols[i + 1..];
    } else {
      assert cols[..0] == [];
    }
  }

  /**
   * An appended child is wired in: after the merge the block's column lists
   * it after the column's old children, the child is in the document, and
   * copying the block with its descendants reaches it.
   */
  lemma AppendedChildReached(doc: Doc, cur: Id, data: BlockData, columnIndex: nat, ch: Change)
    requires doc.WellFormed() && cur != ""
    requires columnIndex < |ColumnsValue(data.props)|
    requires ch.allBlocks.Some? ==> ch.allBlocks.value.WellFormed() && ch.blockId in ch.allBlocks.value.blocks
    requires ch.childrenIds == OrEmpty(ColumnsValue(data.props)[columnIndex].childrenIds) + [ch.blockId]
    ensures var cols := ColumnsValue(data.props);
      var d := Merge(doc, ChangePatch(ch, cur, ColumnsEntry(data, cols[columnIndex := Column(Some(ch.childrenIds), map[])])));
      && ch.blockId in d.blocks
      && Reaches(d, cur, ch.blockId)
  {
    var cols := ColumnsValue(data.props);
    var nColumns := cols[columnIndex := Column(Some(ch.childrenIds), map[])];
    var entry := ColumnsEntry(data, nColumns);
    PatchApplied(doc, ch, cur, entry);
    var d := Merge(doc, ChangePatch(ch, cur, entry));
    ColumnIdsReplaced(cols, columnIndex, ch.childrenIds);
    assert ch.blockId in ColumnIds(nColumns);
    assert ch.blockId in Children(entry);
    ChildReached(d, cur, ch.blockId);
  }
}
