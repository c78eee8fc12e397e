/** The per-feature conversion of the stop loader: GeoJSON point feature → Stop. */
module LoadStops {
  import opened Wrappers
  import opened Model
  import opened GeoJson
  import Factory

  /** A feature becomes a stop: `lat` from `coordinates[1]`, `lng` from `coordinates[0]`,
      `code` and `description` only when non-empty, every other attribute absent. */
  function StopFromFeature(f: Feature): (s: Stop)
    ensures s.id == Field(f.properties.id, None) && s.name == Field(f.properties.name, None)
    ensures s.lat == f.geometry.coordinates[1] && s.lng == f.geometry.coordinates[0]
    ensures s.code.Some? <==> f.properties.code.Some? && f.properties.code.value != ""
    ensures s.description.Some? <==> f.properties.description.Some? && f.properties.description.value != ""
    ensures s.code.Some? ==> s.code.value.value == f.properties.code.value
    ensures s.description.Some? ==> s.description.value.value == f.properties.description.value
  {
    BareStop(Field(f.properties.id, None), Field(f.properties.name, None),
             f.geometry.coordinates[1], f.geometry.coordinates[0])
      .(code := TextAttribute(f.properties.code), description := TextAttribute(f.properties.description))
  }

  /** The loaded collection: one stop per feature, in order. */
  function LoadStops(c: FeatureCollection): (stops: seq<Stop>)
    ensures |stops| == |c.features|
    ensures forall i :: 0 <= i < |stops| ==> stops[i] == StopFromFeature(c.features[i])
  {
    seq(|c.features|, i requires 0 <= i < |c.features| => StopFromFeature(c.features[i]))
  }

  /** Loading the feature written for a stop gives back its identifier, name and position. */
  lemma FeatureRoundTrip(s: Stop)
    ensures var t := StopFromFeature(Factory.StopToGeoJSON(s));
      t.id.value == s.id.value && t.name.value == s.name.value && t.lat == s.lat && t.lng == s.lng
  {
  }

  /** Loading a whole exported collection gives back, position by position, the same
      identifiers, names and coordinates. */
  lemma CollectionRoundTrip(stops: seq<Stop>)
    ensures var loaded := LoadStops(Factory.StopsToGeoJSONCollection(stops));
      && |loaded| == |stops|
      && forall i :: 0 <= i < |stops| ==>
        && loaded[i].id.value == stops[i].id.value && loaded[i].name.value == stops[i].name.value
        && loaded[i].lat == stops[i].lat && loaded[i].lng == stops[i].lng
  {
    var c := Factory.StopsToGeoJSONCollection(stops);
    forall i | 0 <= i < |stops| {
      FeatureRoundTrip(stops[i]);
    }
  }
}
