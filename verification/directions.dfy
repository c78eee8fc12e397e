/** Route path synthesis through the directions service. The service is an input: the
    reply it would give to the request, or a failure. */
module Directions {
  import opened Wrappers
  import opened Model

  datatype DirectionsRequest = DirectionsRequest(profile: string, waypoints: seq<LngLat>, geometries: string)

  datatype Geometry = Geometry(coordinates: Option<seq<LngLat>>)
  datatype DirectionsRoute = DirectionsRoute(geometry: Option<Geometry>)

  /** What the service does with a request: a body whose `routes` may be missing, or any
      failure (network, rejected promise, malformed body). */
  datatype DirectionsReply = Replied(routes: Option<seq<DirectionsRoute>>) | Failed

  /** The outcome of one `direction` call: the request issued, if any, and the path returned. */
  datatype DirectionCall = DirectionCall(request: Option<DirectionsRequest>, path: seq<Point>)

  /** A waypoint as a GeoJSON position `[lng, lat]`. */
  function ToLngLat(p: Point): (c: LngLat)
    ensures c[0] == p.lng && c[1] == p.lat
  {
    [p.lng, p.lat]
  }

  /** A returned position `[lng, lat]` as a point. */
  function FromLngLat(c: LngLat): (p: Point)
    ensures p.lng == c[0] && p.lat == c[1]
  {
    Point(c[1], c[0])
  }

  /** The request for a list of waypoints: driving profile, GeoJSON geometries, the
      waypoints in order. */
  function RequestFor(points: seq<Point>): (q: DirectionsRequest)
    ensures q.profile == "driving" && q.geometries == "geojson"
    ensures |q.waypoints| == |points|
    ensures forall i :: 0 <= i < |points| ==> q.waypoints[i] == ToLngLat(points[i])
  {
    DirectionsRequest("driving", seq(|points|, i requires 0 <= i < |points| => ToLngLat(points[i])), "geojson")
  }

  /** The reply has a first route whose geometry carries a coordinate list. */
  predicate HasCoordinates(routes: Option<seq<DirectionsRoute>>) {
    && routes.Some? && |routes.value| > 0
    && routes.value[0].geometry.Some? && routes.value[0].geometry.value.coordinates.Some?
  }

  /** The coordinates of the first route's geometry, when it has any. */
  function FirstRouteCoordinates(routes: Option<seq<DirectionsRoute>>): (c: seq<LngLat>)
    ensures HasCoordinates(routes) ==> c == routes.value[0].geometry.value.coordinates.value
    ensures !HasCoordinates(routes) ==> c == []
  {
    if routes.None? || |routes.value| == 0 then []
    else match routes.value[0].geometry
      case None => []
      case Some(g) => g.coordinates.GetOr([])
  }

  /** `direction(points)`: fewer than two waypoints give `[]` with no request; otherwise
      one request, and the first route's coordinates converted to points, or `[]` when
      there is no route, no coordinate, or the service failed. */
  function Direction(points: seq<Point>, reply: DirectionsReply): (c: DirectionCall)
    ensures |points| < 2 ==> c.request.None? && c.path == []
    ensures |points| >= 2 ==> c.request == Some(RequestFor(points))
    ensures reply.Failed? ==> c.path == []
    ensures |points| >= 2 && reply.Replied? ==>
      var coords := FirstRouteCoordinates(reply.routes);
      && |c.path| == |coords|
      && forall i :: 0 <= i < |coords| ==> c.path[i] == FromLngLat(coords[i])
  {
    if |points| < 2 then DirectionCall(None, [])
    else
      var request := RequestFor(points);
      match reply
      case Failed => DirectionCall(Some(request), [])
      case Replied(routes) =>
        var coords := FirstRouteCoordinates(routes);
        DirectionCall(Some(request), seq(|coords|, i requires 0 <= i < |coords| => FromLngLat(coords[i])))
  }

  /** Swapping a point to `[lng, lat]` and back is the identity. */
  lemma SwapRoundTrip(p: Point)
    ensures FromLngLat(ToLngLat(p)) == p
  {
  }

  /** A service that routes exactly through the requested waypoints yields the waypoints
      themselves as the path. */
  lemma EchoedWaypointsGiveBackPoints(points: seq<Point>)
    requires |points| >= 2
    ensures var request := RequestFor(points);
      Direction(points, Replied(Some([DirectionsRoute(Some(Geometry(Some(request.waypoints))))]))).path == points
  {
    var c := Direction(points, Replied(Some([DirectionsRoute(Some(Geometry(Some(RequestFor(points).waypoints))))])));
    assert |c.path| == |points|;
    forall i | 0 <= i < |points|
      ensures c.path[i] == points[i]
    {
      SwapRoundTrip(points[i]);
    }
  }

  /** A failure is indistinguishable from a reply with no route: both give `[]`. */
  lemma FailureLooksLikeNoRoute(points: seq<Point>)
    ensures Direction(points, Failed).path == Direction(points, Replied(None)).path == []
    ensures Direction(points, Failed).path == Direction(points, Replied(Some([]))).path
  {
  }
}
