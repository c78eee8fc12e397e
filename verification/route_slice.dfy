/** The route collection reducers. Routes that target "the route under edit" act on the
    first route whose `edit` flag is set; nothing keeps that route unique. */
module RouteSlice {
  import opened Wrappers
  import opened Model
  import Seqs
  import Factory

  datatype RouteState = RouteState(data: seq<Route>)

  function Initial(): (s: RouteState)
    ensures |s.data| == 0
  {
    RouteState([])
  }

  /** Position of the first route with `edit = true` (`data.find(r => r.edit)`). */
  function EditedRoute(routes: seq<Route>): (r: Option<nat>)
    ensures r.None? <==> forall i :: 0 <= i < |routes| ==> !routes[i].edit
    ensures r.Some? ==> r.value < |routes| && routes[r.value].edit
    ensures r.Some? ==> forall i :: 0 <= i < r.value ==> !routes[i].edit
  {
    Seqs.FindFirst(routes, (x: Route) => x.edit)
  }

  /** `addRoute`: the payload goes at the end. */
  function AddRoute(s: RouteState, route: Route): (r: RouteState)
    ensures |r.data| == |s.data| + 1
    ensures forall i :: 0 <= i < |s.data| ==> r.data[i] == s.data[i]
    ensures r.data[|s.data|] == route
  {
    RouteState(s.data + [route])
  }

  /** `setRoutes`: the payload becomes the collection. */
  function SetRoutes(s: RouteState, routes: seq<Route>): (r: RouteState)
    ensures r.data == routes
  {
    RouteState(routes)
  }

  /** `addStopToRoute`: the stop position is appended to the `stopIndexes` of the first
      route under edit; without such a route nothing changes. Duplicates are kept. */
  function AddStopToRoute(s: RouteState, stop: nat): (r: RouteState)
    ensures |r.data| == |s.data|
    ensures EditedRoute(s.data).None? ==> r == s
    ensures EditedRoute(s.data).Some? ==>
      var k := EditedRoute(s.data).value;
      && r.data[k].stopIndexes == s.data[k].stopIndexes + [stop]
      && r.data[k].(stopIndexes := s.data[k].stopIndexes) == s.data[k]
      && forall i :: 0 <= i < |s.data| && i != k ==> r.data[i] == s.data[i]
  {
    match EditedRoute(s.data)
    case None => s
    case Some(k) =>
      var route := s.data[k];
      RouteState(s.data[k := route.(stopIndexes := route.stopIndexes + [stop])])
  }

  /** `removeRoute`: drops position `p` and keeps the rest in order; an out-of-range `p`
      keeps everything. */
  function RemoveRoute(s: RouteState, p: int): (r: RouteState)
    ensures 0 <= p < |s.data| ==> |r.data| == |s.data| - 1
    ensures 0 <= p < |s.data| ==> forall j :: 0 <= j < |r.data| ==>
      r.data[j] == if j < p then s.data[j] else s.data[j + 1]
    ensures !(0 <= p < |s.data|) ==> r == s
  {
    RouteState(Seqs.RemoveAt(s.data, p))
  }

  /** `setPath`: the path of the first route under edit is replaced in full; without such a
      route nothing changes. */
  function SetPath(s: RouteState, path: seq<Point>): (r: RouteState)
    ensures |r.data| == |s.data|
    ensures EditedRoute(s.data).None? ==> r == s
    ensures EditedRoute(s.data).Some? ==>
      var k := EditedRoute(s.data).value;
      && r.data[k].path == path
      && r.data[k].(path := s.data[k].path) == s.data[k]
      && forall i :: 0 <= i < |s.data| && i != k ==> r.data[i] == s.data[i]
  {
    match EditedRoute(s.data)
    case None => s
    case Some(k) => RouteState(s.data[k := s.data[k].(path := path)])
  }

  /** `setRouteColor`: only the colour of the route at `index` changes; an out-of-range
      index changes nothing. */
  function SetRouteColor(s: RouteState, index: int, color: string): (r: RouteState)
    ensures |r.data| == |s.data|
    ensures forall i :: 0 <= i < |s.data| && i != index ==> r.data[i] == s.data[i]
    ensures 0 <= index < |s.data| ==>
      r.data[index].color == color && r.data[index].(color := s.data[index].color) == s.data[index]
    ensures !(0 <= index < |s.data|) ==> r == s
  {
    RouteState(seq(|s.data|, i requires 0 <= i < |s.data| =>
      if i == index then s.data[i].(color := color) else s.data[i]))
  }

  /** The edit flags are untouched by `addStopToRoute`, so repeated clicks keep extending
      the same route. */
  lemma AddStopKeepsEditedRoute(s: RouteState, stop: nat)
    ensures EditedRoute(AddStopToRoute(s, stop).data) == EditedRoute(s.data)
  {
    var r := AddStopToRoute(s, stop);
    assert forall i :: 0 <= i < |s.data| ==> r.data[i].edit == s.data[i].edit;
    EditFlagsDecideEditedRoute(s.data, r.data);
  }

  /** Two route lists with the same edit flags have the same route under edit. */
  lemma EditFlagsDecideEditedRoute(a: seq<Route>, b: seq<Route>)
    requires |a| == |b|
    requires forall i :: 0 <= i < |a| ==> a[i].edit == b[i].edit
    ensures EditedRoute(a) == EditedRoute(b)
  {
    var ea := EditedRoute(a);
    var eb := EditedRoute(b);
    if ea.Some? && eb.Some? {
      assert !(ea.value < eb.value) && !(eb.value < ea.value);
    }
  }

  /** Adding the same stop twice records it twice: the sequence, not the set, is kept. */
  lemma AddStopTwiceKeepsDuplicate(s: RouteState, stop: nat)
    requires EditedRoute(s.data).Some?
    ensures var k := EditedRoute(s.data).value;
      AddStopToRoute(AddStopToRoute(s, stop), stop).data[k].stopIndexes
        == s.data[k].stopIndexes + [stop, stop]
  {
    AddStopKeepsEditedRoute(s, stop);
  }

  /** A later `setPath` fully overrides an earlier one: paths are replaced, never merged. */
  lemma SetPathOverrides(s: RouteState, first: seq<Point>, second: seq<Point>)
    ensures SetPath(SetPath(s, first), second) == SetPath(s, second)
  {
    var r := SetPath(s, first);
    assert forall i :: 0 <= i < |s.data| ==> r.data[i].edit == s.data[i].edit;
    EditFlagsDecideEditedRoute(s.data, r.data);
  }

  /** Removing the route just added restores the collection. */
  lemma RemoveAfterAdd(s: RouteState, route: Route)
    ensures RemoveRoute(AddRoute(s, route), |s.data|) == s
  {
    assert AddRoute(s, route).data[..|s.data|] == s.data;
  }

  /** Adding a route made by `createRoute` leaves the same route under edit, since a new
      route is never under edit. */
  lemma AddCreatedRouteKeepsEditedRoute(s: RouteState, color: string)
    ensures EditedRoute(AddRoute(s, Factory.CreateRoute(color)).data) == EditedRoute(s.data)
  {
    var t := AddRoute(s, Factory.CreateRoute(color)).data;
    assert !t[|s.data|].edit;
    var before, after := EditedRoute(s.data), EditedRoute(t);
    if after.Some? && after.value < |s.data| {
      assert s.data[after.value].edit;
    }
  }
}
