/** The per-record conversion of the route loader: backend route → Route. */
module LoadRoutes {
  import opened Wrappers
  import opened Model

  datatype BackendRoute = BackendRoute(
    route_id: string,
    route_short_name: string,
    route_type: int,
    route_long_name: Option<string>,
    route_desc: Option<string>,
    route_url: Option<string>,
    route_color: Option<string>,
    route_text_color: Option<string>,
    route_sort_order: Option<int>,
    continuous_pickup: Option<string>,
    continuous_drop_off: Option<string>,
    network_id: Option<string>,
    cemv_support: Option<string>,
    route_path: Option<seq<Point>>)

  const DefaultColor: string := "#3b82f6"

  /** The colour shown for a stored `route_color`: the default blue when it is missing or
      empty, the value itself when it already starts with `#`, otherwise `#` + value. */
  function NormalizeColor(c: Option<string>): (r: string)
    ensures |r| >= 1 && r[0] == '#'
    ensures (c.None? || c.value == "") ==> r == DefaultColor
    ensures c.Some? && c.value != "" && c.value[0] == '#' ==> r == c.value
    ensures c.Some? && c.value != "" && c.value[0] != '#' ==> r == "#" + c.value
  {
    if c.None? || c.value == "" then DefaultColor
    else if c.value[0] == '#' then c.value
    else "#" + c.value
  }

  /** A normalised colour is a fixed point of normalisation. */
  lemma NormalizeColorIdempotent(c: Option<string>)
    ensures NormalizeColor(Some(NormalizeColor(c))) == NormalizeColor(c)
  {
  }

  /** One backend record as a route: identifier, short name and type carried over, the
      colour normalised, the stored path or none, no stops, not under edit, not new. */
  function RouteFromBackend(b: BackendRoute): (r: Route)
    ensures r.id == Field(b.route_id, Some(false)) && r.name == Field(b.route_short_name, Some(false))
    ensures r.routeType == Some(b.route_type)
    ensures r.color == NormalizeColor(b.route_color) && r.color[0] == '#'
    ensures r.stopIndexes == [] && !r.edit && r.isNew == Some(false)
    ensures b.route_path.Some? ==> r.path == b.route_path.value
    ensures b.route_path.None? ==> r.path == []
  {
    Route(Field(b.route_id, Some(false)), Field(b.route_short_name, Some(false)),
          Some(b.route_type), NormalizeColor(b.route_color), [],
          b.route_path.GetOr([]), false, Some(false))
  }

  /** The loaded collection: one route per record, in order. */
  function LoadRoutes(bs: seq<BackendRoute>): (rs: seq<Route>)
    ensures |rs| == |bs|
    ensures forall i :: 0 <= i < |bs| ==> rs[i] == RouteFromBackend(bs[i])
  {
    seq(|bs|, i requires 0 <= i < |bs| => RouteFromBackend(bs[i]))
  }

  /** No loaded route is under edit, so route-under-edit reducers do nothing right after a load. */
  lemma LoadedRoutesNotEdited(bs: seq<BackendRoute>)
    ensures forall i :: 0 <= i < |bs| ==> !LoadRoutes(bs)[i].edit && LoadRoutes(bs)[i].stopIndexes == []
  {
  }
}
