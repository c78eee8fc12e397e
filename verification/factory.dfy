/** Entity constructors and the stop → GeoJSON conversion. */
module Factory {
  import opened Wrappers
  import opened Model
  import opened GeoJson
  import Numerals

  /** `createField(value, optional)`: the error flag is `!optional`, so it is set unless
      `optional` is exactly true. */
  function CreateField<T>(value: T, optional: Option<bool>): (f: Field<T>)
    ensures f.value == value
    ensures f.error == Some(optional != Some(true))
  {
    Field(value, Some(!(optional == Some(true))))
  }

  /** `createStop(point)`. The two clock readings and the random suffix are inputs: the
      identifier is `stop-<idTime>-<suffix>` and the name `Stop <nameTime>`. `Date.now()`
      is read once for each, so the two times may differ. */
  function CreateStop(point: Point, idTime: nat, nameTime: nat, suffix: string): (s: Stop)
    ensures s.lat == point.lat && s.lng == point.lng
    ensures s.id.value == "stop-" + Numerals.NatToString(idTime) + "-" + suffix
    ensures s.name.value == "Stop " + Numerals.NatToString(nameTime)
    ensures s.id.error == Some(true) && s.name.error == Some(true)
    ensures s.code.None? && s.description.None?
  {
    BareStop(CreateField("stop-" + Numerals.NatToString(idTime) + "-" + suffix, None),
             CreateField("Stop " + Numerals.NatToString(nameTime), None),
             point.lat, point.lng)
  }

  /** `stopToGeoJSON`: a point feature at `[lng, lat]` carrying the identifier and name. */
  function StopToGeoJSON(stop: Stop): (f: Feature)
    ensures f.kind == "Feature" && f.geometry.kind == "Point"
    ensures f.geometry.coordinates[0] == stop.lng && f.geometry.coordinates[1] == stop.lat
    ensures f.properties.id == stop.id.value && f.properties.name == stop.name.value
    ensures f.properties.code.None? && f.properties.description.None?
  {
    Feature("Feature", PointGeometry("Point", [stop.lng, stop.lat]),
      FeatureProperties(stop.id.value, stop.name.value, None, None))
  }

  /** `stopsToGeoJSONCollection`: one feature per stop, in order. */
  function StopsToGeoJSONCollection(stops: seq<Stop>): (c: FeatureCollection)
    ensures c.kind == "FeatureCollection"
    ensures |c.features| == |stops|
    ensures forall i :: 0 <= i < |stops| ==> c.features[i] == StopToGeoJSON(stops[i])
  {
    FeatureCollection("FeatureCollection", seq(|stops|, i requires 0 <= i < |stops| => StopToGeoJSON(stops[i])))
  }

  /** `createRoute(color)`: a blank, unedited route of the given colour. */
  function CreateRoute(color: string): (r: Route)
    ensures r.id.value == "" && r.name.value == ""
    ensures r.path == [] && r.stopIndexes == []
    ensures r.color == color && !r.edit
    ensures r.routeType.None? && r.isNew.None?
  {
    Route(CreateField("", None), CreateField("", None), None, color, [], [], false, None)
  }

  /** Only an explicit `true` makes a field optional (error flag cleared). */
  lemma CreateFieldOptionality<T>(v: T)
    ensures CreateField(v, None).error == Some(true)
    ensures CreateField(v, Some(false)).error == Some(true)
    ensures CreateField(v, Some(true)).error == Some(false)
  {
  }
}
