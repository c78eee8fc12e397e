/** The store actions the handlers dispatch, as values. Several of them (stop update,
    removal of the last stop, coordinate update, removal of a stop from a route, panel
    open/close) have reducers that are not part of this model; only their emission is. */
module Actions {
  import opened Wrappers
  import opened Model

  /** The payload of an `open…Detail` action: the panel mode, the spread record of the
      selected item (None when nothing was spread), and its list position. */
  datatype DetailPayload<T> = DetailPayload(mode: PanelMode, item: Option<T>, index: Option<nat>)

  datatype Action =
    | UpdateStopCoordinates(lat: real, lng: real)
    | UpdateStop(index: nat, stop: Stop)
    | RemoveLastStop
    | CloseStopDetail
    | CloseCalendarDetail
    | RemoveStopFromRoute(stopIndex: nat)
    | OpenCalendarDetail(calendarPayload: DetailPayload<Calendar>)
    | OpenTripDetail(tripPayload: DetailPayload<Trip>)
    | SetContent(content: Content)
}
