/** The calendar list: its New, Edit and Delete buttons and the action each dispatches. */
module CalendarContent {
  import opened Wrappers
  import opened Model
  import opened Actions
  import opened Selection

  /** The actions an outcome dispatches: an `openCalcendarDetail` when a detail is opened. */
  function Dispatched(o: Outcome<Calendar>): (actions: seq<Action>)
    ensures o.panel.None? <==> actions == []
    ensures o.panel.Some? ==> actions == [OpenCalendarDetail(o.panel.value)]
  {
    if o.panel.Some? then [OpenCalendarDetail(o.panel.value)] else []
  }

  /** Editing calendar `i` opens the edit panel on that calendar and its position. */
  lemma EditOpensSelected(calendars: seq<Calendar>, i: nat)
    requires i < |calendars|
    ensures Dispatched(Edit(calendars, Some(i))) == [OpenCalendarDetail(DetailPayload(EditPanel, Some(calendars[i]), Some(i)))]
  {
  }

  /** Deleting dispatches nothing, confirmed or not: the calendar collection stays as it is. */
  lemma DeleteDispatchesNothing(selected: Option<nat>, confirmed: bool)
    ensures Dispatched(Delete<Calendar>(selected, confirmed)) == []
  {
  }
}
