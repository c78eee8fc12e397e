/** Request bodies as JavaScript objects: a map from key to value, the keys being an
    enumeration of the body's property names. A key that is absent from the map is a
    property the object does not have. */
module Json {
  import opened Wrappers
  import opened Model

  datatype Json =
    | JString(s: string)
    | JNumber(r: real)
    | JInt(i: int)
    | JNaN
    | JPoints(points: seq<Point>)

  /** The key holds the text of `f` exactly when `f` is present and non-empty. */
  ghost predicate TextKey<K>(p: map<K, Json>, key: K, f: Option<Field<string>>) {
    && (key in p <==> Filled(f))
    && (Filled(f) ==> p[key] == JString(f.value.value))
  }

  /** The value an optional text property takes: its text when present and non-empty
      (`if (f?.value)`), otherwise the property is left out. */
  function TextValue(f: Option<Field<string>>): (v: Option<Json>)
    ensures v.Some? <==> Filled(f)
    ensures v.Some? ==> v.value == JString(f.value.value)
  {
    if Filled(f) then Some(JString(f.value.value)) else None
  }
}
