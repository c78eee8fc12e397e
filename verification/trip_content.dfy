/** The trip list: its New, Edit and Delete buttons and the action each dispatches. */
module TripContent {
  import opened Wrappers
  import opened Model
  import opened Actions
  import opened Selection

  /** The actions an outcome dispatches: an `openTripDetail` when a detail is opened. */
  function Dispatched(o: Outcome<Trip>): (actions: seq<Action>)
    ensures o.panel.None? <==> actions == []
    ensures o.panel.Some? ==> actions == [OpenTripDetail(o.panel.value)]
  {
    if o.panel.Some? then [OpenTripDetail(o.panel.value)] else []
  }

  /** Editing trip `i` opens the edit panel on that trip and its position. */
  lemma EditOpensSelected(trips: seq<Trip>, i: nat)
    requires i < |trips|
    ensures Dispatched(Edit(trips, Some(i))) == [OpenTripDetail(DetailPayload(EditPanel, Some(trips[i]), Some(i)))]
  {
  }

  /** Deleting dispatches nothing, confirmed or not: the trip collection stays as it is. */
  lemma DeleteDispatchesNothing(selected: Option<nat>, confirmed: bool)
    ensures Dispatched(Delete<Trip>(selected, confirmed)) == []
  {
  }
}
