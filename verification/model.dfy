/** The entities of the transit editor: stops, routes, calendars, trips, and the
    interaction mode and sidebar content selectors. */
module Model {
  import opened Wrappers

  /** A form value with its validation flag (`error?: boolean`); None is an absent flag. */
  datatype Field<T> = Field(value: T, error: Option<bool>)

  /** A map position in degrees. Coordinates are only copied or swapped, never computed. */
  datatype Point = Point(lat: real, lng: real)

  /** A GeoJSON position `[lng, lat]`. Altitude is not part of this model. */
  type LngLat = c: seq<real> | |c| == 2 witness [0.0, 0.0]

  /** True when an optional text field is present and non-empty, i.e. `f?.value` is truthy. */
  predicate Filled(f: Option<Field<string>>) {
    f.Some? && f.value.value != ""
  }

  /** An optional text kept as an attribute only when it is non-empty, as the spread
      `...(t && { key: { value: t } })` does; the validation flag is left absent. */
  function TextAttribute(t: Option<string>): (f: Option<Field<string>>)
    ensures f.Some? <==> t.Some? && t.value != ""
    ensures f.Some? ==> f.value == Field(t.value, None)
  {
    if t.Some? && t.value != "" then Some(Field(t.value, None)) else None
  }

  /** A stop: identifier, name, position, and the optional GTFS attributes. */
  datatype Stop = Stop(
    id: Field<string>,
    name: Field<string>,
    lat: real,
    lng: real,
    code: Option<Field<string>>,
    description: Option<Field<string>>,
    ttsName: Option<Field<string>>,
    zoneId: Option<Field<string>>,
    url: Option<Field<string>>,
    locationType: Option<Field<string>>,
    parentStation: Option<Field<string>>,
    timezone: Option<Field<string>>,
    wheelchairBoarding: Option<Field<string>>,
    levelId: Option<Field<string>>,
    platformCode: Option<Field<string>>,
    access: Option<Field<string>>)

  /** A stop carrying only identifier, name and position; every optional attribute absent. */
  function BareStop(id: Field<string>, name: Field<string>, lat: real, lng: real): (s: Stop)
    ensures s.id == id && s.name == name && s.lat == lat && s.lng == lng
    ensures s.code.None? && s.description.None? && s.zoneId.None? && s.url.None?
    ensures s.ttsName.None? && s.locationType.None? && s.parentStation.None? && s.timezone.None?
    ensures s.wheelchairBoarding.None? && s.levelId.None? && s.platformCode.None? && s.access.None?
  {
    Stop(id, name, lat, lng, None, None, None, None, None, None, None, None, None, None, None, None)
  }

  /** A route: its stops by position in the stop collection (duplicates allowed), the
      synthesized polyline, and the transient `edit` / `isNew` flags. */
  datatype Route = Route(
    id: Field<string>,
    name: Field<string>,
    routeType: Option<int>,
    color: string,
    stopIndexes: seq<nat>,
    path: seq<Point>,
    edit: bool,
    isNew: Option<bool>)

  /** A dated exception of a service calendar. */
  datatype ExceptionDate = ExceptionDate(id: Field<string>, date: Field<string>, kind: Field<string>)

  /** A service calendar; `days` is ordered [sun, mon, tue, wed, thu, fri, sat]. */
  datatype Calendar = Calendar(
    id: Field<string>,
    startDate: Field<string>,
    endDate: Field<string>,
    days: seq<bool>,
    exception: nat,
    exceptions: seq<ExceptionDate>)

  /** A trip record. Its field set is not part of this model, so it is kept as named text values. */
  datatype Trip = Trip(fields: map<string, string>)

  /** The sidebar sections (`sidebarContent`). */
  datatype Content = StopsTab | RoutesTab | CalendarTab | TripsTab | ProjectTab

  /** The global interaction modes (`modes`). */
  datatype Mode = View | Mark | Draw | Drag | NewMode

  /** Whether a detail panel was opened for a new entity or an existing one. */
  datatype PanelMode = NewPanel | EditPanel
}
