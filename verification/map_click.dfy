/** The map click handler: which clicks place the stop being created. */
module MapClick {
  import opened Model
  import opened Actions

  /** What the cursor was over: the bare map canvas, or anything else (a marker, a control). */
  datatype ClickTarget = Canvas | NotCanvas

  /** The handler's effects: store actions dispatched, and markers drawn on the map widget. */
  datatype ClickEffects = ClickEffects(actions: seq<Action>, markers: seq<Point>)

  /** `mapDisplayMapClick`: a click off the canvas does nothing; a canvas click in `mark`
      mode dispatches the clicked coordinates and, when the map widget is mounted, draws a
      marker there; a canvas click in any other mode does nothing. */
  function HandleMapClick(mode: Mode, target: ClickTarget, at: Point, widgetMounted: bool): (e: ClickEffects)
    ensures target == NotCanvas || mode != Mark ==> e == ClickEffects([], [])
    ensures target == Canvas && mode == Mark ==> e.actions == [UpdateStopCoordinates(at.lat, at.lng)]
    ensures target == Canvas && mode == Mark ==> (e.markers == [at] <==> widgetMounted)
    ensures target == Canvas && mode == Mark && !widgetMounted ==> e.markers == []
  {
    if target != Canvas then ClickEffects([], [])
    else if mode == Mark then
      ClickEffects([UpdateStopCoordinates(at.lat, at.lng)], if widgetMounted then [at] else [])
    else ClickEffects([], [])
  }

  /** The click handler never adds, removes or rewrites a stop of the collection. */
  lemma ClickNeverTouchesStops(mode: Mode, target: ClickTarget, at: Point, widgetMounted: bool)
    ensures forall a :: a in HandleMapClick(mode, target, at, widgetMounted).actions ==>
      a.UpdateStopCoordinates? && a.lat == at.lat && a.lng == at.lng
  {
  }
}
