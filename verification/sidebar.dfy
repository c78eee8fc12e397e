/** The sidebar: its fixed menu and the veto a parent may put on a section change. */
module Sidebar {
  import opened Wrappers
  import opened Model
  import opened Actions
  import AppSlice

  /** The menu entries, top to bottom. */
  const MenuItems: seq<Content> := [ProjectTab, StopsTab, RoutesTab, CalendarTab, TripsTab]

  /** Every section appears in the menu exactly once. */
  lemma MenuListsEverySectionOnce(c: Content)
    ensures c in MenuItems
    ensures forall i, j :: 0 <= i < j < |MenuItems| ==> MenuItems[i] != MenuItems[j]
  {
  }

  /** `handleChange(c)`. `verdict` is what the parent's `onChange(c)` returns, None when the
      parent gives no `onChange`. Only an explicit refusal stops the change. */
  function HandleChange(c: Content, verdict: Option<bool>): (actions: seq<Action>)
    ensures verdict == Some(false) ==> actions == []
    ensures verdict != Some(false) ==> actions == [SetContent(c)]
  {
    if verdict.Some? && !verdict.value then [] else [SetContent(c)]
  }

  /** The application state after the dispatched actions reach the store. */
  function Reduce(s: AppSlice.AppState, actions: seq<Action>): (r: AppSlice.AppState)
    ensures (forall i :: 0 <= i < |actions| ==> !actions[i].SetContent?) ==> r == s
    ensures |actions| > 0 && actions[|actions| - 1].SetContent? ==> r.content == actions[|actions| - 1].content
    decreases |actions|
  {
    if |actions| == 0 then s
    else
      var before := Reduce(s, actions[..|actions| - 1]);
      var last := actions[|actions| - 1];
      if last.SetContent? then AppSlice.SetContent(before, last.content) else before
  }

  /** A section change reaches the shown content unless the parent refuses it. */
  lemma ChangeShowsSection(s: AppSlice.AppState, c: Content, verdict: Option<bool>)
    ensures Reduce(s, HandleChange(c, verdict)).content == if verdict == Some(false) then s.content else c
  {
    var actions := HandleChange(c, verdict);
    if verdict != Some(false) {
      assert actions[..0] == [];
    }
  }
}
