/** Stop → backend create/update payload. */
module StopMapper {
  import opened Wrappers
  import opened Model
  import opened Json
  import Numerals
  import Factory

  /** `parseInt(text)` as a payload value; an unparsable text gives `NaN`. */
  function ParsedNumber(text: string): (v: Json)
    ensures v.JInt? || v.JNaN?
    ensures v.JInt? ==> Numerals.ParseInt(text) == Some(v.i)
    ensures v.JNaN? ==> Numerals.ParseInt(text).None?
  {
    match Numerals.ParseInt(text)
    case Some(n) => JInt(n)
    case None => JNaN
  }

  /** The property names of a stop payload, as the backend spells them. */
  datatype StopKey =
    | stop_id | stop_name | stop_lat | stop_lon | stop_code | stop_desc | zone_id | stop_url
    | location_type | parent_station | stop_timezone | wheelchair_boarding | level_id | platform_code

  type StopPayload = map<StopKey, Json>

  /** The key holds `parseInt` of `f` exactly when `f` is present and non-empty. */
  ghost predicate ParsedKey(p: StopPayload, key: StopKey, f: Option<Field<string>>) {
    && (key in p <==> Filled(f))
    && (Filled(f) ==> p[key] == ParsedNumber(f.value.value))
  }

  /** An optional numeric property: `parseInt` of its text when present and non-empty. */
  function ParsedValue(f: Option<Field<string>>): (v: Option<Json>)
    ensures v.Some? <==> Filled(f)
    ensures v.Some? ==> v.value == ParsedNumber(f.value.value)
  {
    if Filled(f) then Some(ParsedNumber(f.value.value)) else None
  }

  const AllStopKeys: set<StopKey> := {
    stop_id, stop_name, stop_lat, stop_lon, stop_code, stop_desc, zone_id, stop_url,
    location_type, parent_station, stop_timezone, wheelchair_boarding, level_id, platform_code}

  /** The value each property receives from the stop, or None when it is left out. Every
      property is decided independently of the others, as by the mapper's sequence of `if`s. */
  function ValueFor(stop: Stop, key: StopKey): Option<Json> {
    match key
    case stop_id => Some(JString(stop.id.value))
    case stop_name => Some(JString(stop.name.value))
    case stop_lat => Some(JNumber(stop.lat))
    case stop_lon => Some(JNumber(stop.lng))
    case stop_code => TextValue(stop.code)
    case stop_desc => TextValue(stop.description)
    case zone_id => TextValue(stop.zoneId)
    case stop_url => TextValue(stop.url)
    case location_type => ParsedValue(stop.locationType)
    case parent_station => TextValue(stop.parentStation)
    case stop_timezone => TextValue(stop.timezone)
    case wheelchair_boarding => ParsedValue(stop.wheelchairBoarding)
    case level_id => TextValue(stop.levelId)
    case platform_code => TextValue(stop.platformCode)
  }

  /** The object holding each property that receives a value. */
  function Entries(stop: Stop): StopPayload {
    map k | k in AllStopKeys && ValueFor(stop, k).Some? :: ValueFor(stop, k).value
  }

  lemma EntriesRequired(stop: Stop)
    ensures var r := Entries(stop);
      && stop_id in r && r[stop_id] == JString(stop.id.value)
      && stop_name in r && r[stop_name] == JString(stop.name.value)
      && stop_lat in r && r[stop_lat] == JNumber(stop.lat)
      && stop_lon in r && r[stop_lon] == JNumber(stop.lng)
  {
  }

  lemma EntriesDescriptive(stop: Stop)
    ensures var r := Entries(stop);
      && TextKey(r, stop_code, stop.code)
      && TextKey(r, stop_desc, stop.description)
      && TextKey(r, zone_id, stop.zoneId)
      && TextKey(r, stop_url, stop.url)
  {
  }

  lemma EntriesStructural(stop: Stop)
    ensures var r := Entries(stop);
      && ParsedKey(r, location_type, stop.locationType)
      && TextKey(r, parent_station, stop.parentStation)
      && TextKey(r, stop_timezone, stop.timezone)
      && ParsedKey(r, wheelchair_boarding, stop.wheelchairBoarding)
      && TextKey(r, level_id, stop.levelId)
      && TextKey(r, platform_code, stop.platformCode)
  {
  }

  /** `stopToCreatePayload`: identifier, name and position always; each optional attribute
      only when present and non-empty, the two numeric ones through `parseInt`. Text-to-speech
      name and access are never sent. */
  function StopToCreatePayload(stop: Stop): (r: StopPayload)
    ensures stop_id in r && r[stop_id] == JString(stop.id.value)
    ensures stop_name in r && r[stop_name] == JString(stop.name.value)
    ensures stop_lat in r && r[stop_lat] == JNumber(stop.lat)
    ensures stop_lon in r && r[stop_lon] == JNumber(stop.lng)
    ensures TextKey(r, stop_code, stop.code)
    ensures TextKey(r, stop_desc, stop.description)
    ensures TextKey(r, zone_id, stop.zoneId)
    ensures TextKey(r, stop_url, stop.url)
    ensures ParsedKey(r, location_type, stop.locationType)
    ensures TextKey(r, parent_station, stop.parentStation)
    ensures TextKey(r, stop_timezone, stop.timezone)
    ensures ParsedKey(r, wheelchair_boarding, stop.wheelchairBoarding)
    ensures TextKey(r, level_id, stop.levelId)
    ensures TextKey(r, platform_code, stop.platformCode)
  {
    EntriesRequired(stop);
    EntriesDescriptive(stop);
    EntriesStructural(stop);
    Entries(stop)
  }

  /** `stopToUpdatePayload`: the same body as for creation. */
  function StopToUpdatePayload(stop: Stop): (r: StopPayload)
    ensures r == StopToCreatePayload(stop)
  {
    StopToCreatePayload(stop)
  }

  /** The text-to-speech name and the access flag never reach the payload. */
  lemma UnmappedFieldsIgnored(stop: Stop, tts: Option<Field<string>>, access: Option<Field<string>>)
    ensures StopToCreatePayload(stop.(ttsName := tts, access := access)) == StopToCreatePayload(stop)
  {
    var other := stop.(ttsName := tts, access := access);
    assert forall k :: ValueFor(other, k) == ValueFor(stop, k);
    assert Entries(other) == Entries(stop);
  }

  /** A stop just placed on the map is sent with its identifier, name and position only. */
  lemma CreatedStopSendsOnlyRequired(point: Point, idTime: nat, nameTime: nat, suffix: string)
    ensures var r := StopToCreatePayload(Factory.CreateStop(point, idTime, nameTime, suffix));
      && r.Keys == {stop_id, stop_name, stop_lat, stop_lon}
      && r[stop_id] == JString("stop-" + Numerals.NatToString(idTime) + "-" + suffix)
      && r[stop_name] == JString("Stop " + Numerals.NatToString(nameTime))
      && r[stop_lat] == JNumber(point.lat) && r[stop_lon] == JNumber(point.lng)
  {
    var stop := Factory.CreateStop(point, idTime, nameTime, suffix);
    var r := StopToCreatePayload(stop);
    assert forall k :: k in r ==> k in {stop_id, stop_name, stop_lat, stop_lon};
  }
}
