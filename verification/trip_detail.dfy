/** The trip detail panel's lookup tables: list position to route id and list position to
    calendar id, with a placeholder for an empty id. */
module TripDetail {
  import opened Model

  const NoId: string := "<no id>"

  /** The text shown for an id: the id, or the placeholder when it is empty (`id || "<no id>"`). */
  function Shown(id: string): (t: string)
    ensures t != ""
    ensures id != "" ==> t == id
    ensures id == "" ==> t == NoId
  {
    if id == "" then NoId else id
  }

  /** `new Map(xs.map((x, index) => [index, x.id.value || "<no id>"]))`: the route and the
      calendar tables, keyed by list position, with `idOf` reading an item's identifier. */
  method PositionMap<T>(items: seq<T>, idOf: T -> string) returns (m: map<int, string>)
    ensures forall k :: k in m <==> 0 <= k < |items|
    ensures forall i :: 0 <= i < |items| ==> m[i] == Shown(idOf(items[i]))
  {
    m := map[];
    var i := 0;
    while i < |items|
      invariant 0 <= i <= |items|
      invariant forall k :: k in m <==> 0 <= k < i
      invariant forall k :: 0 <= k < i ==> m[k] == Shown(idOf(items[k]))
    {
      m := m[i := Shown(idOf(items[i]))];
      i := i + 1;
    }
  }

  /** The placeholder hides the difference between an empty id and an id that is the
      placeholder text itself; every other id is shown as it is. */
  lemma ShownIsFaithfulExceptPlaceholder(a: string, b: string)
    ensures Shown(a) == Shown(b) <==> a == b || ({a, b} == {"", NoId})
  {
    if Shown(a) == Shown(b) && a != b {
      assert a == "" || b == "";
    }
  }
}
