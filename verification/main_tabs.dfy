/**
 * The main tab switcher: whatever value the tab control reports, the store
 * ends up holding one of the four tabs, "editor" for anything unknown.
 */
module MainTabs {
  import opened Store

  /** The value each tab reports. */
  function TabName(t: MainTab): string {
    match t
    case Editor => "editor"
    case Preview => "preview"
    case Html => "html"
    case Json => "json"
  }

  /** `handleChange`'s switch: the four names map to their tab, any other value to the editor. */
  function NormaliseMainTab(v: string): (r: MainTab)
    ensures v == "json" ==> r == Json
    ensures v == "preview" ==> r == Preview
    ensures v == "html" ==> r == Html
    ensures v !in {"json", "preview", "html"} ==> r == Editor
  {
    if v == "json" then Json
    else if v == "preview" then Preview
    else if v == "html" then Html
    else Editor
  }

  /** A tab's own name is stored unchanged. */
  lemma NameRoundTrip(t: MainTab)
    ensures NormaliseMainTab(TabName(t)) == t
  {
  }

  /** Feeding a stored tab back in leaves it unchanged. */
  lemma NormaliseIdempotent(v: string)
    ensures NormaliseMainTab(TabName(NormaliseMainTab(v))) == NormaliseMainTab(v)
  {
    NameRoundTrip(NormaliseMainTab(v));
  }

  /** `handleChange(_, v)`: one store write, nothing else changes. */
  method HandleChange(store: EditorStore, v: string)
    requires store.Valid()
    modifies store
    ensures store.Valid()
    ensures store.selectedMainTab == NormaliseMainTab(v)
    ensures store.document == old(store.document) && store.selectedBlockId == old(store.selectedBlockId)
    ensures store.selectedScreenSize == old(store.selectedScreenSize)
  {
    store.SetSelectedMainTab(NormaliseMainTab(v));
  }
}
