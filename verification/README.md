# gtfs-tool front end, modelled in Dafny

gtfs-tool is a browser editor for GTFS transit feeds: stops placed on a map, routes
built from stop sequences and road paths, service calendars and trips. This project
models the logic in the editor's front end:

- **Redux slices.** The stop, route, calendar, trip, map and app reducers, each a pure
  function on an immutable state record.
- **Factory.** Field, stop and route construction, and the stop → GeoJSON export.
- **Payload mappers.** The mappers that turn a stop or a route form into the backend's
  create/update body. A body is a map from property name to JSON value, so "the property
  is sent exactly when …" can be stated.
- **Loaders.** The per-record conversions of the three loaders (GeoJSON stops, backend
  routes, and backend calendars with their calendar dates). This includes the loop that
  groups calendar dates by service id.
- **Directions.** The `direction` call that turns waypoints into a road path. The
  directions service's reply is an input.
- **Event handlers.** The handlers of the map, the stop detail panel, the stop-time row,
  the date picker, the calendar detail panel, the calendar and trip lists, the trip
  detail's lookup maps, the sidebar, the select input, and the route's stop list.
  - Each handler is a function from its inputs to the store actions it dispatches, plus
    the component state it leaves.
  - The outcome of a backend call, `window.confirm`, an `onChange` callback, the clock
    and the random suffix are all parameters.

JavaScript `String(n)`, `padStart` and `parseInt` (no radix) are modelled in `Numerals`.
`parseInt` follows ECMAScript: leading white space, an optional sign, a `0x` prefix, and
the longest run of digits; `NaN` is `None`.

Behaviours one might expect that the code does not have:

- Nothing keeps a single route under edit. The route reducers act on the first route
  whose `edit` flag is set.
- Removing a stop does not repair the stop positions that routes hold.
- Nothing orders concurrent directions replies, so a stale reply is not dropped.
- Loading routes does not map stop identifiers to positions (`stopIndexes` is empty).
- The calendar and trip lists never select an item: their selection state is only ever
  set to `null` (src/components/templates/CalendarContent.tsx:16,37 and
  src/components/templates/TripContent.tsx:17,36). So Edit and Delete always return at
  their guard and their buttons stay disabled. `Selection.NothingIsEverSelected` proves
  this for any sequence of presses. The edit-mode behaviour that `Selection.Edit`
  states is modelled for a selection given as input, but the lists as written never
  reach it.

## Model

| member | source | states |
|---|---|---|
| Numerals.NatToStringValue | src/components/molecules/StopTimeItem.tsx:57 | reading back the decimal digits of `n` gives `n` |
| Numerals.ParseIntOfIntToString | src/services/useLoadCalendars.ts:77 | `parseInt` of an integer's decimal text is that integer |
| Numerals.IntToStringInjective | src/components/atoms/SelectInput.tsx:17 | different integers never render to the same text |
| Numerals.ParseIntSkipsWhiteSpace | src/services/stopMapper.ts:29 | leading white space does not change what `parseInt` reads |
| Numerals.PadStart | src/components/molecules/StopTimeItem.tsx:57 | the result is at least `width` long, ends with the input, and is filled on the left with the fill character |
| Numerals.TrimStart | src/services/stopMapper.ts:29 | the skipped prefix is all white space, what remains is a suffix of the input, and it does not start with white space |
| Numerals.DigitPrefixLength | src/services/stopMapper.ts:38 | the prefix is all digits of the radix and the next character is not one |
| Seqs.RemoveAt | src/store/slices/routeSlice.ts:25-27 | `filter((_, i) => i !== p)`: an in-range position is dropped and the rest keep their order; an out-of-range one changes nothing |
| Seqs.FindFirst | src/components/organisms/StopContentDetail.tsx:107 | `findIndex`: the first position satisfying the predicate, or None exactly when no position does |
| AppSlice.Initial | src/store/slices/appSlice.ts:6-8 | the stops section is shown first |
| AppSlice.SetContentLastWins | src/store/slices/appSlice.ts:14-16 | of two `setContent` calls only the last one matters |
| AppSlice.SetContentIdempotent | src/store/slices/appSlice.ts:14-16 | repeating `setContent` changes nothing more |
| StopSlice.Initial | src/store/slices/stopSlice.ts:6-8 | no stop is loaded at start |
| StopSlice.AddStop | src/store/slices/stopSlice.ts:17-19 | the stop is appended; every earlier stop keeps its position |
| StopSlice.AddStopKeepsReferences | src/store/slices/stopSlice.ts:17-19 | stop positions that routes hold resolve to the same stops after an `addStop` |
| StopSlice.SetStops | src/store/slices/stopSlice.ts:14-16 | the payload replaces the whole collection |
| StopSlice.SetStopsForgetsPrevious | src/store/slices/stopSlice.ts:14-16 | `setStops` does not depend on what was loaded before |
| RouteSlice.Initial | src/store/slices/routeSlice.ts:6-8 | no route at start |
| RouteSlice.SetRoutes | src/store/slices/routeSlice.ts:17-19 | the payload replaces the whole collection |
| RouteSlice.EditedRoute | src/store/slices/routeSlice.ts:21 | `find(r => r.edit)`: the first route under edit, or None exactly when no route is under edit |
| RouteSlice.AddRoute | src/store/slices/routeSlice.ts:14-16 | the route is appended and the earlier routes keep their positions |
| RouteSlice.RemoveAfterAdd | src/store/slices/routeSlice.ts:14-27 | removing the route just added restores the collection |
| RouteSlice.AddStopToRoute | src/store/slices/routeSlice.ts:20-24 | the stop position is appended to the first route under edit only; with no such route nothing changes |
| RouteSlice.AddStopKeepsEditedRoute | src/store/slices/routeSlice.ts:20-24 | adding a stop leaves the same route under edit, so repeated clicks extend one route |
| RouteSlice.EditFlagsDecideEditedRoute | src/store/slices/routeSlice.ts:21 | the route under edit depends only on the edit flags |
| RouteSlice.AddStopTwiceKeepsDuplicate | src/store/slices/routeSlice.ts:20-24 | the same stop added twice is recorded twice |
| RouteSlice.RemoveRoute | src/store/slices/routeSlice.ts:25-27 | position `p` is dropped and the rest keep their order; out of range keeps all |
| RouteSlice.SetPath | src/store/slices/routeSlice.ts:28-32 | only the path of the first route under edit is replaced; with no such route nothing changes |
| RouteSlice.SetPathOverrides | src/store/slices/routeSlice.ts:28-32 | a later `setPath` replaces an earlier one entirely |
| RouteSlice.SetRouteColor | src/store/slices/routeSlice.ts:33-39 | only the colour of the indexed route changes; an out-of-range index changes nothing |
| CalendarSlice.Initial | src/store/slices/calendarSlice.ts:6-8 | no calendar at start |
| CalendarSlice.AddCalendar | src/store/slices/calendarSlice.ts:13-15 | the calendar is appended and earlier ones keep their positions |
| CalendarSlice.RemoveCalendar | src/store/slices/calendarSlice.ts:16-18 | position `p` is dropped and the rest keep their order; out of range keeps all |
| CalendarSlice.SetCalendar | src/store/slices/calendarSlice.ts:19-21 | the payload replaces the whole collection |
| CalendarSlice.RemoveAfterAdd | src/store/slices/calendarSlice.ts:13-18 | removing the calendar just added restores the collection |
| TripSlice.Initial | src/store/slices/tripSlice.ts:6-8 | no trip at start |
| TripSlice.AddTrip | src/store/slices/tripSlice.ts:13-15 | the trip is appended and earlier ones keep their positions |
| TripSlice.RemoveTrip | src/store/slices/tripSlice.ts:16-18 | position `p` is dropped and the rest keep their order; out of range keeps all |
| TripSlice.SetTrips | src/store/slices/tripSlice.ts:19-21 | the payload replaces the whole collection |
| TripSlice.RemoveAfterAdd | src/store/slices/tripSlice.ts:13-18 | removing the trip just added restores the collection |
| MapSlice.Initial | src/store/slices/mapSlice.ts:6-14 | the default style and camera; the token comes from the environment, or is empty |
| MapSlice.SetLocation | src/store/slices/mapSlice.ts:20-26 | the position is taken from the payload, and the zoom too when one is given; otherwise the zoom is kept; token and style do not change |
| MapSlice.ZeroZoomIsKept | src/store/slices/mapSlice.ts:24 | a zoom of 0 is applied, not replaced by the previous zoom |
| MapSlice.SetLocationComposes | src/store/slices/mapSlice.ts:20-26 | a move without a zoom keeps the zoom of the move before it |
| MapSlice.SetMapStyle | src/store/slices/mapSlice.ts:27-29 | only the style changes |
| Factory.CreateField | src/factory/index.ts:3-5 | the value is stored and the error flag is set unless the field is declared optional |
| Factory.CreateFieldOptionality | src/factory/index.ts:3-5 | only an explicit `true` clears the error flag; undefined and `false` set it |
| Factory.CreateStop | src/factory/index.ts:7-13 | the stop sits at the point, with identifier `stop-<time>-<suffix>` and name `Stop <time>` from two separate clock readings, and no optional attributes |
| Factory.StopToGeoJSON | src/factory/index.ts:15-27 | a point feature at `[lng, lat]` carrying the stop's identifier and name |
| Factory.StopsToGeoJSONCollection | src/factory/index.ts:29-34 | one feature per stop, in order |
| Factory.CreateRoute | src/factory/index.ts:36-45 | a blank route with no stops or path, not under edit, of the given colour |
| RouteSlice.AddCreatedRouteKeepsEditedRoute | src/factory/index.ts:36-45 | appending a route made by `createRoute` does not change which route is under edit |
| Model.TextAttribute | src/services/useLoadStops.ts:44-49 | an optional text becomes an attribute exactly when it is non-empty |
| LoadStops.StopFromFeature | src/services/useLoadStops.ts:39-50 | position swapped back from `[lng, lat]`; code and description kept only when non-empty |
| LoadStops.LoadStops | src/services/useLoadStops.ts:39-50 | one stop per feature, in order |
| LoadStops.FeatureRoundTrip | src/services/useLoadStops.ts:39-50 | loading the feature exported for a stop gives back its identifier, name and position |
| LoadStops.CollectionRoundTrip | src/services/useLoadStops.ts:39-50 | loading an exported collection gives back every stop's identifier, name and position, position by position |
| LoadRoutes.NormalizeColor | src/services/useLoadRoutes.ts:39-44 | the shown colour always starts with `#`; a missing or empty colour gives the default blue |
| LoadRoutes.NormalizeColorIdempotent | src/services/useLoadRoutes.ts:39-44 | normalising an already normalised colour changes nothing |
| LoadRoutes.RouteFromBackend | src/services/useLoadRoutes.ts:46-55 | identifier, short name, type and path are carried over; the route has no stops, is not under edit and is not new |
| LoadRoutes.LoadRoutes | src/services/useLoadRoutes.ts:37-56 | one route per record, in order |
| LoadRoutes.LoadedRoutesNotEdited | src/services/useLoadRoutes.ts:51-53 | right after a load no route is under edit and none has stops |
| LoadCalendars.FormatDateForInput | src/services/useLoadCalendars.ts:29-32 | eight characters become `YYYY-MM-DD`; any other length gives the empty string |
| LoadCalendars.DateRoundTrip | src/services/useLoadCalendars.ts:29-32 | removing the dashes gives the stored date back |
| LoadCalendars.WithService | src/services/useLoadCalendars.ts:73 | exactly the calendar dates of one service |
| LoadCalendars.GroupStep | src/services/useLoadCalendars.ts:53-57 | one iteration of the grouping loop keeps every group exact |
| LoadCalendars.WithServiceStep | src/services/useLoadCalendars.ts:53-57 | one more date extends only its own service's group |
| LoadCalendars.GroupByServiceId | src/services/useLoadCalendars.ts:52-57 | each occurring service id maps to all of its calendar dates, in backend order, and no other key exists |
| LoadCalendars.ExceptionFromDate | src/services/useLoadCalendars.ts:74-78 | the id is `<service>-<date>-<position>`, the date is reformatted, the type is `exception_type.toString()` and parses back to it, and no validation flag is set |
| LoadCalendars.CalendarFromBackend | src/services/useLoadCalendars.ts:60-88 | weekday flags from Sunday, each set exactly when the field is 1; dates reformatted; one exception per date; the count matches |
| LoadCalendars.LoadCalendars | src/services/useLoadCalendars.ts:52-88 | each calendar receives exactly the calendar dates with its service id |
| Json.TextValue | src/services/stopMapper.ts:16-21 | an optional text property is sent exactly when present and non-empty |
| StopMapper.ParsedNumber | src/services/stopMapper.ts:28-30 | the value sent is `parseInt` of the text, or `NaN` when nothing parses |
| StopMapper.ParsedValue | src/services/stopMapper.ts:37-39 | a numeric property is sent exactly when its text is present and non-empty |
| StopMapper.StopToCreatePayload | src/services/stopMapper.ts:7-48 | identifier, name and position are always sent; each optional attribute exactly when present and non-empty, the two numeric ones parsed |
| StopMapper.StopToUpdatePayload | src/services/stopMapper.ts:53-56 | the update body equals the create body |
| StopMapper.UnmappedFieldsIgnored | src/services/stopMapper.ts:7-48 | the text-to-speech name and access flag never affect the body |
| StopMapper.CreatedStopSendsOnlyRequired | src/services/stopMapper.ts:7-48 | a stop just made by `createStop` is sent with exactly its identifier, name and position |
| RouteMapper.RouteToCreatePayload | src/services/routeMapper.ts:4-24 | identifier, short name and type are always sent; text properties exactly when non-empty; sort order whenever defined; path only when non-empty |
| RouteMapper.RouteToUpdatePayload | src/services/routeMapper.ts:26-28 | the update body equals the create body |
| RouteMapper.ZeroSortOrderIsSent | src/services/routeMapper.ts:16 | a sort order of 0 is sent |
| RouteMapper.EmptyPathIsNoPath | src/services/routeMapper.ts:21 | an empty path gives the same body as no path |
| Directions.ToLngLat | src/services/useMapInteractions.ts:16-18 | a waypoint is sent as `[lng, lat]` |
| Directions.FromLngLat | src/services/useMapInteractions.ts:37-40 | a returned position `[lng, lat]` becomes a point |
| Directions.SwapRoundTrip | src/services/useMapInteractions.ts:16-40 | sending a point and reading it back gives the point |
| Directions.RequestFor | src/services/useMapInteractions.ts:14-20 | a driving request with GeoJSON geometry and the waypoints in order |
| Directions.FirstRouteCoordinates | src/services/useMapInteractions.ts:24-35 | the first route's coordinates, or none when there is no route or no coordinate |
| Directions.Direction | src/services/useMapInteractions.ts:7-49 | fewer than two waypoints send no request and give `[]`; otherwise one request, and the first route's path or `[]` |
| Directions.EchoedWaypointsGiveBackPoints | src/services/useMapInteractions.ts:7-49 | a reply routed exactly through the waypoints gives the waypoints back |
| Directions.FailureLooksLikeNoRoute | src/services/useMapInteractions.ts:24-27 | a failure and a reply with no route both give `[]` |
| MapClick.HandleMapClick | src/components/Map.tsx:17-51 | only a canvas click in mark mode dispatches the coordinates, and it draws a marker exactly when the widget is mounted; the mode is an input |
| MapClick.ClickNeverTouchesStops | src/components/Map.tsx:32-44 | a click only ever updates the pending coordinates; it never adds or removes a stop |
| StopDetail.DefaultForm | src/components/organisms/StopContentDetail.tsx:39-46 | the form starts empty at position 0, 0 |
| StopDetail.ResetForm | src/components/organisms/StopContentDetail.tsx:50-82 | a new stop clears the form and keeps numeric coordinates; an existing stop fills the form from the stop; no selection leaves the form alone |
| StopDetail.SavedStop | src/components/organisms/StopContentDetail.tsx:93-100 | the stored stop holds the form's identifier, name and position, and code and description only when non-empty; every other optional attribute is absent |
| StopDetail.StopWithId | src/components/organisms/StopContentDetail.tsx:107 | the first stop with the identifier, or None exactly when none has it |
| StopDetail.Submit | src/components/organisms/StopContentDetail.tsx:84-124 | a new stop is posted and overwrites the last stop; an edit is put and overwrites the first match; success closes the panel; an error dispatches nothing |
| StopDetail.Cancel | src/components/organisms/StopContentDetail.tsx:126-132 | cancelling a new stop removes the placeholder before closing |
| StopDetail.EditRoundTrip | src/components/organisms/StopContentDetail.tsx:53-61 | saving an untouched edit form writes back the stop's identifier, name, position and non-empty code and description |
| StopDetail.SaveKeepsStopCount | src/components/organisms/StopContentDetail.tsx:84-124 | a save never removes a stop and only overwrites existing positions |
| StopTimeItem.OrEmpty | src/components/molecules/StopTimeItem.tsx:36 | an absent optional text shows as empty |
| StopTimeItem.InitialState | src/components/molecules/StopTimeItem.tsx:26-40 | the item starts from the given times and each optional attribute given or else empty, or from empty values when no stop time is given |
| StopTimeItem.ArrivalChanged | src/components/molecules/StopTimeItem.tsx:42-45 | the new arrival is stored and reported together with the current departure |
| StopTimeItem.DepartureChanged | src/components/molecules/StopTimeItem.tsx:47-50 | the new departure is stored and reported together with the current arrival |
| StopTimeItem.BothChangesReported | src/components/molecules/StopTimeItem.tsx:42-50 | after both edits, in either order, the report carries both new values |
| StopTimeItem.OptionIndex | src/components/molecules/StopTimeItem.tsx:55-57 | the option for an hour and a half-hour sits at `2 * hour + minute / 30` |
| StopTimeItem.GenerateTimeOptions | src/components/molecules/StopTimeItem.tsx:53-62 | 48 options, option `k` being half-hour `k` of the day |
| StopTimeItem.TwoDigitsOf | src/components/molecules/StopTimeItem.tsx:57 | numbers below 100 pad to exactly two digits |
| StopTimeItem.TimeOptionMinute | src/components/molecules/StopTimeItem.tsx:53-62 | option `k` reads back as minute `30 * k` of the day |
| StopTimeItem.TimeOptionsOrdered | src/components/molecules/StopTimeItem.tsx:53-62 | different positions hold different times, each at its own half-hour |
| StopTimeItem.TimeOptionShape | src/components/molecules/StopTimeItem.tsx:55-58 | every option is `HH:MM:00`, with `HH` two digits of an hour below 24 and `MM` either `00` or `30` |
| StopTimeItem.TimeOptionEnds | src/components/molecules/StopTimeItem.tsx:53-62 | the first option is `00:00:00` and the last `23:30:00` |
| SelectDate.MonthName | src/components/atoms/SelectDate.tsx:12-15 | the name of a month in range; `undefined` outside |
| SelectDate.InitialState | src/components/atoms/SelectDate.tsx:22-33 | closed, showing the value's month or else today's |
| SelectDate.SyncToValue | src/components/atoms/SelectDate.tsx:28-33 | a value moves the picker to its month; no value leaves it |
| SelectDate.SelectDay | src/components/atoms/SelectDate.tsx:52-59 | the day is reported in the shown month and year, and the picker closes |
| SelectDate.Clear | src/components/atoms/SelectDate.tsx:61-64 | null is reported and the picker closes |
| SelectDate.SelectedDayKeepsMonth | src/components/atoms/SelectDate.tsx:28-59 | feeding a selected day back does not move the picker |
| SelectDate.PreviousMonth | src/components/atoms/SelectDate.tsx:66-73 | one month back, wrapping to December of the year before |
| SelectDate.NextMonth | src/components/atoms/SelectDate.tsx:75-82 | one month on, wrapping to January of the next year |
| SelectDate.MonthCountInjective | src/components/atoms/SelectDate.tsx:66-82 | the month count identifies a month and year |
| SelectDate.NavigationInverse | src/components/atoms/SelectDate.tsx:66-82 | the previous and next buttons undo each other |
| SelectDate.MonthLength | src/components/atoms/SelectDate.tsx:17-19 | a month has 28 to 31 days, and February has 29 exactly in leap years |
| SelectDate.DateConstructorYear | src/components/atoms/SelectDate.tsx:18 | the `Date` constructor reads years 0 to 99 as 1900 to 1999 |
| SelectDate.DaysInMonthAsWritten | src/components/atoms/SelectDate.tsx:17-19 | the day count as the code computes it, correct outside years 0 to 99 |
| SelectDate.DaysInMonthYearZero | src/components/atoms/SelectDate.tsx:17-19 | February of year 0 gets 28 days though the year is a leap year |
| SelectDate.DaysInMonth | src/components/atoms/SelectDate.tsx:17-19 | the day count of the month, taken in the proleptic Gregorian calendar |
| SelectDate.DaysInMonthAgrees | src/components/atoms/SelectDate.tsx:17-19 | whenever the year argument is outside 0 to 99 the corrected count agrees with the code, even when the month carries into a year in 0 to 99: the year mapping is the only disagreement |
| SelectDate.YearLength | src/components/atoms/SelectDate.tsx:17-19 | the twelve month lengths add up to 365, or 366 in a leap year |
| SelectDate.FormatDate | src/components/atoms/SelectDate.tsx:84-87 | no date shows as empty text, and a date never does |
| SelectDate.DisplayRoundTrip | src/components/atoms/SelectDate.tsx:84-87 | the displayed text determines the date: it reads back to the same day, month and year |
| CalendarDetail.InitialForm | src/components/organisms/CalendarContentDetail.tsx:18-30 | no day is operated, and there is no exception, service id or date |
| CalendarDetail.ToggleDay | src/components/organisms/CalendarContentDetail.tsx:36-41 | the toggled day flips and every other day is unchanged |
| CalendarDetail.FlagsDetermineDays | src/components/organisms/CalendarContentDetail.tsx:19-27 | the seven flags determine the operating days |
| CalendarDetail.ToggleTwice | src/components/organisms/CalendarContentDetail.tsx:36-41 | toggling a day twice restores the days |
| CalendarDetail.AddException | src/components/organisms/CalendarContentDetail.tsx:43-49 | an empty exception with the given id is appended |
| CalendarDetail.RemoveException | src/components/organisms/CalendarContentDetail.tsx:51-53 | exactly the exceptions with other ids remain |
| CalendarDetail.RemoveOverConcat | src/components/organisms/CalendarContentDetail.tsx:51-53 | removal works on each part of a list independently |
| CalendarDetail.RemoveAbsent | src/components/organisms/CalendarContentDetail.tsx:51-53 | removing an id that no exception has changes nothing |
| CalendarDetail.RemoveAfterAdd | src/components/organisms/CalendarContentDetail.tsx:43-53 | removing a freshly added exception with a new id restores the list |
| CalendarDetail.ChangeException | src/components/organisms/CalendarContentDetail.tsx:55-65 | only the named field of the matching exceptions changes; order and ids are kept |
| CalendarDetail.ChangeThenRemove | src/components/organisms/CalendarContentDetail.tsx:51-65 | editing and removing exceptions commute |
| CalendarDetail.Close | src/components/organisms/CalendarContentDetail.tsx:72-74 | cancel only closes the panel |
| Selection.New | src/components/templates/CalendarContent.tsx:15-18 | the selection is cleared and an empty new-mode panel opens |
| Selection.Edit | src/components/templates/CalendarContent.tsx:20-28 | with nothing selected nothing opens; otherwise the selected item opens in edit mode with its position |
| Selection.Delete | src/components/templates/CalendarContent.tsx:30-39 | the user is asked only when something is selected; a confirmation clears the selection; nothing is removed from the store |
| Selection.ConfirmedDeleteDisablesButtons | src/components/templates/TripContent.tsx:31-38 | after a confirmed delete, edit and delete do nothing until something is selected again |
| Selection.NothingIsEverSelected | src/components/templates/CalendarContent.tsx:13-55 | starting with no selection, no sequence of New, Edit and Delete presses ever selects anything, asks for a confirmation, or opens anything but an empty new-mode panel |
| CalendarContent.Dispatched | src/components/templates/CalendarContent.tsx:15-28 | a panel opens exactly when `openCalendarDetail` is dispatched |
| CalendarContent.EditOpensSelected | src/components/templates/CalendarContent.tsx:20-28 | editing the selected calendar opens it in edit mode with its position |
| CalendarContent.DeleteDispatchesNothing | src/components/templates/CalendarContent.tsx:30-39 | a delete never dispatches, confirmed or not |
| TripContent.Dispatched | src/components/templates/TripContent.tsx:16-29 | a panel opens exactly when `openTripDetail` is dispatched |
| TripContent.EditOpensSelected | src/components/templates/TripContent.tsx:21-29 | editing the selected trip opens it in edit mode with its position |
| TripContent.DeleteDispatchesNothing | src/components/templates/TripContent.tsx:31-38 | a delete never dispatches, confirmed or not |
| TripDetail.Shown | src/components/organisms/TripContentDetail.tsx:12-13 | a non-empty id is shown as is; an empty one as `<no id>` |
| TripDetail.ShownIsFaithfulExceptPlaceholder | src/components/organisms/TripContentDetail.tsx:12-13 | two ids look alike only when they are equal, or when one is empty and the other is literally `<no id>` |
| TripDetail.PositionMap | src/components/organisms/TripContentDetail.tsx:12-13 | the route and calendar tables: each list position maps to its item's shown id, and no other key exists |
| Sidebar.MenuListsEverySectionOnce | src/components/organisms/Sidebar.tsx:21-27 | the menu lists every section exactly once |
| Sidebar.HandleChange | src/components/organisms/Sidebar.tsx:16-19 | a veto from the callback dispatches nothing; otherwise the section is set |
| Sidebar.Reduce | src/store/slices/appSlice.ts:14-16 | the last `setContent` dispatched decides the section |
| Sidebar.ChangeShowsSection | src/components/organisms/Sidebar.tsx:16-19 | after a change the chosen section is shown unless the callback vetoed it |
| SelectInput.StringOf | src/components/atoms/SelectInput.tsx:17 | `String(value)`, with `undefined` for no value |
| SelectInput.Selected | src/components/atoms/SelectInput.tsx:17 | the first option whose value has the same string form, or None exactly when none has it |
| SelectInput.DisplayText | src/components/atoms/SelectInput.tsx:18 | the selected option's label, else the placeholder |
| SelectInput.NoOptionsShowPlaceholder | src/components/atoms/SelectInput.tsx:12-18 | with no options the placeholder is shown |
| SelectInput.LooseComparison | src/components/atoms/SelectInput.tsx:17 | a number selects the option holding its text, and no value selects an option valued `undefined` |
| SelectInput.HandleSelect | src/components/atoms/SelectInput.tsx:34-38 | the clicked value is reported when a callback is given, and the list closes |
| SelectInput.ClickThenDisplay | src/components/atoms/SelectInput.tsx:17-38 | when values are distinct, feeding back a clicked value shows that option's label |
| RouteStops.FirstIndex | src/components/molecules/RouteStopsSection.tsx:13 | the position of the first occurrence |
| RouteStops.UniqueStops | src/components/molecules/RouteStopsSection.tsx:13 | each stop position once, exactly those of the route, in order of first appearance |
| RouteStops.DistinctCount | src/components/molecules/RouteStopsSection.tsx:22 | a list without duplicates has as many distinct elements as entries |
| RouteStops.StopCount | src/components/molecules/RouteStopsSection.tsx:22 | the heading counts the distinct stop positions |
| RouteStops.RowFor | src/components/molecules/RouteStopsSection.tsx:28-39 | a row shows the stop's id and name, or the position and `Stop <position>` when missing or empty; its button removes that position |
| RouteStops.RowsAreNeverBlank | src/components/molecules/RouteStopsSection.tsx:31-36 | no row shows an empty id or name |

## Left out

- Network and storage: the `api.ts` calls, the directions SDK and the loaders' hooks
  are not modelled as I/O. Their outcomes are parameters, and only the per-record
  conversions are modelled.
- Asynchrony and re-entrancy: the model has no effect ordering, no `useEffect`
  scheduling, no load-once guards and no stale directions replies.
- Reducers that the store uses but whose source is not part of this model:
  `updateStop`, `removeLastStop`, `updateStopCoordinates`, `removeStopFromRoute`, and
  the open/close detail actions. They appear only as dispatched action values.
- Map widget rendering is left out: MapDisplay, PathDisplay, markers, the camera and
  `console.log`.
- Floating point is left out. Coordinates and zoom are reals. `parseInt` does not model
  double-precision rounding of very long numerals. SelectInput numbers are integers.
- `Date.now()` and `Math.random()` are parameters (the creation time, the random
  suffix and the new exception id). SelectDate's "today" is a parameter too.
- SelectDate's grid layout (the weekday offset from `getDay`, the highlighting) is left
  out.
- The form library (`react-hook-form`) is reduced to the values the stop form sends:
  identifier, name, position, code and description.
- Altitude in GeoJSON positions is left out; positions are `[lng, lat]`.
- A trip's fields are a map of text fields, because the trip record's shape is not part
  of this model.
- CalendarContentDetail's `handleSave` only writes to the console, so nothing is
  modelled for it.
- The interaction `mode` that the map click handler reads from the app state
  (src/components/Map.tsx:13) is not a field of the app state in
  src/store/states/index.ts:3-7 or src/store/slices/appSlice.ts:6-8, so where it is
  set is not part of this model. `MapClick.HandleMapClick` takes it as an input.
- StopTimeItem's copy and paste callbacks are left out: they pass straight through to
  the parent.
- CalendarDetail.ToggleDay: toggles of different days are not proved to commute.
- LoadCalendars.FormatDateForInput: a Dafny `char` is a whole code point, while a
  JavaScript string length counts UTF-16 code units. A date text with a character
  outside the Basic Multilingual Plane has a different length here: for example, `202401`
  followed by one such character has length 8 in JavaScript and gives `2024-01-` plus
  that character, but length 7 here and gives the empty string.
- SelectDate.DaysInMonthAsWritten: the `Date` constructor gives an invalid date, whose
  `getDate()` is `NaN`, outside the ECMAScript time range of about 275,760 years on
  either side of 1970. The model returns 28 to 31 for every integer year.

## Findings

| source | as written | input that shows it | evidently intended | confidence | as-written member | corrected member |
|---|---|---|---|---|---|---|
| src/components/atoms/SelectDate.tsx:17-19 | `new Date(year, month + 1, 0).getDate()` reads years 0 to 99 as 1900 to 1999 | February (month 1) of year 0, a leap year: 28 days | 29 days, the length of the month in the year shown | low, not executed | SelectDate.DaysInMonthAsWritten, SelectDate.DaysInMonthYearZero | SelectDate.DaysInMonth |
