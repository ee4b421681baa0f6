/**
 * The reusable-components dialog: the fetched templates are filtered down to
 * components, shown five to a page, and the selected one is handed on only
 * when it carries its `editorJson`.
 */
module ComponentsDialog {
  import opened Wrappers
  import opened Seqs
  import opened Blocks
  import BlocksMenu

  /** `COMPONENT_LIMIT`. */
  const PageSize: nat := 5

  /** A fetched template; the fields the dialog reads. */
  datatype Template = Template(id: string, name: string, isComponent: bool, editorJson: Option<Doc>)

  /** The dialog's own state: `page`, `query` and `selectedComponent`. */
  datatype DialogState = DialogState(page: int, query: string, selected: Option<Template>)

  /** What `handleSelectComponent` does: hand a component on, or raise a toast. */
  datatype Selection = Passed(t: Template) | Toast(message: string)

  const NothingSelected: string := "Please select a component"
  const Incomplete: string := "Component data is incomplete"

  /** `items.filter(tpl => tpl.isComponent)`. */
  function Components(items: seq<Template>): (r: seq<Template>)
    ensures |r| <= |items|
    ensures forall t :: t in r <==> t in items && t.isComponent
  {
    if items == [] then []
    else (if items[0].isComponent then [items[0]] else []) + Components(items[1..])
  }

  /** The filter keeps the components in their order: filtering a concatenation filters each part. */
  lemma {:induction false} ComponentsConcat(a: seq<Template>, b: seq<Template>)
    ensures Components(a + b) == Components(a) + Components(b)
  {
    if a == [] {
      assert a + b == b;
    } else {
      assert (a + b)[1..] == a[1..] + b;
      ComponentsConcat(a[1..], b);
    }
  }

  /** `Math.ceil(n / COMPONENT_LIMIT)`. */
  function TotalPages(n: nat): (r: nat)
    ensures r * PageSize >= n
    ensures r > 0 ==> (r - 1) * PageSize < n
  {
    (n + PageSize - 1) / PageSize
  }

  /** `s.slice(start, end)`: negative bounds count from the end, and both are clamped to the length. */
  function JsSlice<T>(s: seq<T>, start: int, end: int): (r: seq<T>)
    ensures var b := ClampIndex(|s|, start); var e := ClampIndex(|s|, end);
      && |r| == (if b < e then e - b else 0)
      && forall j :: 0 <= j < |r| ==> r[j] == s[b + j]
  {
    var b := ClampIndex(|s|, start);
    var e := ClampIndex(|s|, end);
    if b < e then s[b..e] else []
  }

  /** `components.slice((page - 1) * 5, (page - 1) * 5 + 5)`. */
  function PageOf(components: seq<Template>, page: int): (r: seq<Template>)
    ensures |r| <= PageSize
    ensures 1 <= page && |r| > 0 ==> (page - 1) * PageSize + |r| <= |components|
    ensures 1 <= page ==> forall j :: 0 <= j < |r| ==> r[j] == components[(page - 1) * PageSize + j]
  {
    var start := (page - 1) * PageSize;
    JsSlice(components, start, start + PageSize)
  }

  /** A page in range shows the five entries starting at `(page - 1) * 5`, fewer on the last page. */
  lemma PageInRange(components: seq<Template>, page: int)
    requires 1 <= page <= TotalPages(|components|)
    ensures var start := (page - 1) * PageSize;
      var end := if page * PageSize < |components| then page * PageSize else |components|;
      start < end && PageOf(components, page) == components[start..end]
  {
  }

  /** Pages `1..k`, one after the other. */
  function PagesUpTo(components: seq<Template>, k: nat): seq<Template> {
    if k == 0 then [] else PagesUpTo(components, k - 1) + PageOf(components, k)
  }

  /** The first `k` pages are the first `5k` components. */
  lemma {:induction false} PagesUpToPrefix(components: seq<Template>, k: nat)
    ensures PagesUpTo(components, k) ==
      components[..if k * PageSize < |components| then k * PageSize else |components|]
  {
    if k > 0 {
      PagesUpToPrefix(components, k - 1);
      var n := |components|;
      var a := if (k - 1) * PageSize < n then (k - 1) * PageSize else n;
      var b := if k * PageSize < n then k * PageSize else n;
      assert components[..b] == components[..a] + components[a..b];
    }
  }

  /** The pages split the component list: pages `1..totalPages`, concatenated, are exactly the list. */
  lemma PagesCover(components: seq<Template>)
    ensures PagesUpTo(components, TotalPages(|components|)) == components
  {
    PagesUpToPrefix(components, TotalPages(|components|));
  }

  /** "Previous page": `Math.max(1, page - 1)`. */
  function Prev(s: DialogState): (r: DialogState)
    ensures r.page >= 1
    ensures s.page > 1 ==> r.page == s.page - 1
    ensures r.query == s.query && r.selected == s.selected
  {
    s.(page := if s.page - 1 < 1 then 1 else s.page - 1)
  }

  /** "Next page": `Math.min(totalPages, page + 1)`. */
  function Next(s: DialogState, totalPages: nat): (r: DialogState)
    ensures r.page <= totalPages
    ensures s.page < totalPages ==> r.page == s.page + 1
    ensures r.query == s.query && r.selected == s.selected
  {
    s.(page := if totalPages < s.page + 1 then totalPages else s.page + 1)
  }

  /** Paging from a page in range stays in range. */
  lemma PagingStaysInRange(s: DialogState, totalPages: nat)
    requires 1 <= s.page <= totalPages
    ensures 1 <= Prev(s).page <= totalPages
    ensures 1 <= Next(s, totalPages).page <= totalPages
  {
  }

  /** Typing a query: the query changes and paging restarts at page 1. */
  function SetQuery(s: DialogState, q: string): (r: DialogState)
    ensures r.query == q && r.page == 1 && r.selected == s.selected
  {
    s.(query := q, page := 1)
  }

  /** `handleClose`: selection, query and page are reset (and the dialog's `onClose` runs). */
  function HandleClose(s: DialogState): (r: DialogState)
    ensures r.selected.None? && r.query == "" && r.page == 1
  {
    DialogState(1, "", None)
  }

  /**
   * `handleSelectComponent`: without a selection, or with one lacking
   * `editorJson`, only a toast is raised and the state is kept; otherwise the
   * component is passed on and the dialog closes.
   */
  function HandleSelect(s: DialogState): (r: (DialogState, Selection))
    ensures s.selected.None? ==> r == (s, Toast(NothingSelected))
    ensures s.selected.Some? && s.selected.value.editorJson.None? ==> r == (s, Toast(Incomplete))
    ensures r.1.Passed? <==> s.selected.Some? && s.selected.value.editorJson.Some?
    ensures r.1.Passed? ==> r.1.t == s.selected.value && r.0 == HandleClose(s)
  {
    match s.selected
    case None => (s, Toast(NothingSelected))
    case Some(t) =>
      if t.editorJson.None? then (s, Toast(Incomplete))
      else (HandleClose(s), Passed(t))
  }

  /** The preview's root id: the first EmailLayout key, else the first key. */
  function PreviewRoot(json: Doc): (r: Option<Id>)
    requires json.WellFormed()
    ensures r.Some? <==> |json.order| > 0
    ensures r.Some? ==> r.value in json.blocks
    ensures FirstLayoutKey(json).Some? && FirstLayoutKey(json).value != "" ==> r == FirstLayoutKey(json)
    ensures |json.order| > 0 && !(FirstLayoutKey(json).Some? && FirstLayoutKey(json).value != "") ==>
      r == Some(json.order[0])
  {
    RootOrFirst(json)
  }

  /** The preview renders from the very root the menu will insert, whenever the menu inserts one. */
  lemma PreviewMatchesInsertion(json: Doc)
    requires json.WellFormed()
    ensures BlocksMenu.ComponentRoot(json).Some? ==> PreviewRoot(json) == BlocksMenu.ComponentRoot(json)
  {
  }

  /** A passed component always reaches the menu with its `editorJson`, so the menu does not drop it for that. */
  lemma PassedHasJson(s: DialogState)
    ensures HandleSelect(s).1.Passed? ==>
      BlocksMenu.ComponentData(HandleSelect(s).1.t.editorJson).editorJson.Some?
  {
  }
}
