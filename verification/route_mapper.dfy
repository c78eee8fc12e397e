/** Route form → backend create/update payload. */
module RouteMapper {
  import opened Wrappers
  import opened Model
  import opened Json

  /** The route form's values. */
  datatype RouteFormData = RouteFormData(
    id: Field<string>,
    routeName: Field<string>,
    routeType: int,
    routeLongName: Option<Field<string>>,
    routeDesc: Option<Field<string>>,
    routeUrl: Option<Field<string>>,
    routeColor: Option<Field<string>>,
    routeTextColor: Option<Field<string>>,
    routeSortOrder: Option<int>,
    continuousPickup: Option<Field<string>>,
    continuousDropOff: Option<Field<string>>,
    networkId: Option<Field<string>>,
    cemvSupport: Option<Field<string>>)

  /** The property names of a route payload, as the backend spells them. */
  datatype RouteKey =
    | route_id | route_short_name | route_type | route_long_name | route_desc | route_url
    | route_color | route_text_color | route_sort_order | continuous_pickup
    | continuous_drop_off | network_id | cemv_support | route_path

  type RoutePayload = map<RouteKey, Json>

  const AllRouteKeys: set<RouteKey> := {
    route_id, route_short_name, route_type, route_long_name, route_desc, route_url,
    route_color, route_text_color, route_sort_order, continuous_pickup,
    continuous_drop_off, network_id, cemv_support, route_path}

  /** The value each property receives, or None when it is left out: `route_sort_order`
      whenever defined (0 included), `route_path` only for a given non-empty path. */
  function ValueFor(route: RouteFormData, path: Option<seq<Point>>, key: RouteKey): Option<Json> {
    match key
    case route_id => Some(JString(route.id.value))
    case route_short_name => Some(JString(route.routeName.value))
    case route_type => Some(JInt(route.routeType))
    case route_long_name => TextValue(route.routeLongName)
    case route_desc => TextValue(route.routeDesc)
    case route_url => TextValue(route.routeUrl)
    case route_color => TextValue(route.routeColor)
    case route_text_color => TextValue(route.routeTextColor)
    case route_sort_order => if route.routeSortOrder.Some? then Some(JInt(route.routeSortOrder.value)) else None
    case continuous_pickup => TextValue(route.continuousPickup)
    case continuous_drop_off => TextValue(route.continuousDropOff)
    case network_id => TextValue(route.networkId)
    case cemv_support => TextValue(route.cemvSupport)
    case route_path => if path.Some? && |path.value| > 0 then Some(JPoints(path.value)) else None
  }

  /** The object holding each property that receives a value. */
  function Entries(route: RouteFormData, path: Option<seq<Point>>): RoutePayload {
    map k | k in AllRouteKeys && ValueFor(route, path, k).Some? :: ValueFor(route, path, k).value
  }

  lemma EntriesRequired(route: RouteFormData, path: Option<seq<Point>>)
    ensures var r := Entries(route, path);
      && route_id in r && r[route_id] == JString(route.id.value)
      && route_short_name in r && r[route_short_name] == JString(route.routeName.value)
      && route_type in r && r[route_type] == JInt(route.routeType)
  {
  }

  lemma EntriesDescriptive(route: RouteFormData, path: Option<seq<Point>>)
    ensures var r := Entries(route, path);
      && TextKey(r, route_long_name, route.routeLongName)
      && TextKey(r, route_desc, route.routeDesc)
      && TextKey(r, route_url, route.routeUrl)
      && TextKey(r, route_color, route.routeColor)
      && TextKey(r, route_text_color, route.routeTextColor)
  {
  }

  lemma EntriesService(route: RouteFormData, path: Option<seq<Point>>)
    ensures var r := Entries(route, path);
      && (route_sort_order in r <==> route.routeSortOrder.Some?)
      && (route_sort_order in r ==> r[route_sort_order] == JInt(route.routeSortOrder.value))
      && TextKey(r, continuous_pickup, route.continuousPickup)
      && TextKey(r, continuous_drop_off, route.continuousDropOff)
      && TextKey(r, network_id, route.networkId)
      && TextKey(r, cemv_support, route.cemvSupport)
      && (route_path in r <==> path.Some? && |path.value| > 0)
      && (route_path in r ==> r[route_path] == JPoints(path.value))
  {
  }

  /** `routeToCreatePayload(route, path)`. */
  function RouteToCreatePayload(route: RouteFormData, path: Option<seq<Point>>): (r: RoutePayload)
    ensures route_id in r && r[route_id] == JString(route.id.value)
    ensures route_short_name in r && r[route_short_name] == JString(route.routeName.value)
    ensures route_type in r && r[route_type] == JInt(route.routeType)
    ensures TextKey(r, route_long_name, route.routeLongName)
    ensures TextKey(r, route_desc, route.routeDesc)
    ensures TextKey(r, route_url, route.routeUrl)
    ensures TextKey(r, route_color, route.routeColor)
    ensures TextKey(r, route_text_color, route.routeTextColor)
    ensures route_sort_order in r <==> route.routeSortOrder.Some?
    ensures route_sort_order in r ==> r[route_sort_order] == JInt(route.routeSortOrder.value)
    ensures TextKey(r, continuous_pickup, route.continuousPickup)
    ensures TextKey(r, continuous_drop_off, route.continuousDropOff)
    ensures TextKey(r, network_id, route.networkId)
    ensures TextKey(r, cemv_support, route.cemvSupport)
    ensures route_path in r <==> path.Some? && |path.value| > 0
    ensures route_path in r ==> r[route_path] == JPoints(path.value)
  {
    EntriesRequired(route, path);
    EntriesDescriptive(route, path);
    EntriesService(route, path);
    Entries(route, path)
  }

  /** `routeToUpdatePayload`: the same body as for creation. */
  function RouteToUpdatePayload(route: RouteFormData, path: Option<seq<Point>>): (r: RoutePayload)
    ensures r == RouteToCreatePayload(route, path)
  {
    RouteToCreatePayload(route, path)
  }

  /** A sort order of 0 is sent: only a missing one is left out. */
  lemma ZeroSortOrderIsSent(route: RouteFormData, path: Option<seq<Point>>)
    requires route.routeSortOrder == Some(0)
    ensures RouteToCreatePayload(route, path)[route_sort_order] == JInt(0)
  {
  }

  /** An empty path is the same as no path. */
  lemma EmptyPathIsNoPath(route: RouteFormData)
    ensures RouteToCreatePayload(route, Some([])) == RouteToCreatePayload(route, None)
  {
    assert forall k :: ValueFor(route, Some([]), k) == ValueFor(route, None, k);
    assert Entries(route, Some([])) == Entries(route, None);
  }
}
