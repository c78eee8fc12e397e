/** The stop list of a route's detail panel: the distinct stop positions in order of first
    appearance, the text of each row, and the remove button. */
module RouteStops {
  import opened Wrappers
  import opened Model
  import opened Actions
  import opened Numerals
  import Seqs

  /** Position of the first occurrence of `x` in `s`. */
  function FirstIndex(s: seq<nat>, x: nat): (k: nat)
    requires x in s
    ensures k < |s| && s[k] == x && x !in s[..k]
  {
    var r := Seqs.FindFirst(s, (y: nat) => y == x);
    assert r.Some?;
    r.value
  }

  /** An element first occurring at `i` has first index `i`. */
  lemma FirstIndexAt(s: seq<nat>, i: nat)
    requires i < |s| && s[i] !in s[..i]
    ensures FirstIndex(s, s[i]) == i
  {
    var k := FirstIndex(s, s[i]);
    assert forall j :: 0 <= j < i ==> s[..i][j] == s[j];
    assert forall j :: 0 <= j < k ==> s[..k][j] == s[j];
  }

  /** The distinct elements of `r` are in order of first occurrence in `s`. */
  ghost predicate InFirstOccurrenceOrder(s: seq<nat>, r: seq<nat>)
    requires forall x :: x in r ==> x in s
  {
    forall a, b :: 0 <= a < b < |r| ==> FirstIndex(s, r[a]) < FirstIndex(s, r[b])
  }

  /** `Array.from(new Set(stopIndexes))`: each index once, in order of first appearance.
      The stored `stopIndexes` is an input and is not changed. */
  method UniqueStops(stopIndexes: seq<nat>) returns (r: seq<nat>)
    ensures Seqs.NoDuplicates(r)
    ensures forall x :: x in r <==> x in stopIndexes
    ensures InFirstOccurrenceOrder(stopIndexes, r)
    ensures |r| <= |stopIndexes|
  {
    r := [];
    var seen: set<nat> := {};
    var i := 0;
    while i < |stopIndexes|
      invariant 0 <= i <= |stopIndexes| && |r| <= i
      invariant forall x :: x in seen <==> x in r
      invariant forall x :: x in r <==> x in stopIndexes[..i]
      invariant forall x :: x in r ==> x in stopIndexes
      invariant Seqs.NoDuplicates(r)
      invariant forall a :: 0 <= a < |r| ==> FirstIndex(stopIndexes, r[a]) < i
      invariant InFirstOccurrenceOrder(stopIndexes, r)
    {
      var x := stopIndexes[i];
      assert stopIndexes[..i + 1] == stopIndexes[..i] + [x];
      if x !in seen {
        FirstIndexAt(stopIndexes, i);
        r := r + [x];
        seen := seen + {x};
      }
      i := i + 1;
    }
    assert stopIndexes[..i] == stopIndexes;
  }

  /** The distinct elements of `r`. */
  ghost function Elements(r: seq<nat>): set<nat> {
    set x | x in r
  }

  /** The elements of a non-empty sequence: its head and the elements of its tail. */
  lemma ElementsOfCons(r: seq<nat>)
    requires |r| > 0
    ensures Elements(r) == Elements(r[1..]) + {r[0]}
  {
    assert r == [r[0]] + r[1..];
  }

  /** The tail of a sequence without duplicates has none, and does not hold the head. */
  lemma NoDuplicatesTail(r: seq<nat>)
    requires |r| > 0 && Seqs.NoDuplicates(r)
    ensures Seqs.NoDuplicates(r[1..]) && r[0] !in r[1..]
  {
    var rest := r[1..];
    assert forall i :: 0 <= i < |rest| ==> rest[i] == r[i + 1];
  }

  /** A sequence without duplicates has as many distinct elements as entries. */
  lemma {:induction false} DistinctCount(r: seq<nat>)
    requires Seqs.NoDuplicates(r)
    ensures |Elements(r)| == |r|
    decreases |r|
  {
    if |r| == 0 {
      assert Elements(r) == {};
    } else {
      NoDuplicatesTail(r);
      DistinctCount(r[1..]);
      ElementsOfCons(r);
      assert r[0] !in Elements(r[1..]);
    }
  }

  /** The count shown in the heading is the number of distinct stop positions. */
  method StopCount(stopIndexes: seq<nat>) returns (n: nat)
    ensures n == |Elements(stopIndexes)|
    ensures n <= |stopIndexes|
  {
    var unique := UniqueStops(stopIndexes);
    DistinctCount(unique);
    assert Elements(unique) == Elements(stopIndexes);
    n := |unique|;
  }

  /** One row of the list: the identifier text and the name text. */
  datatype Row = Row(idText: string, nameText: string, onRemove: Action)

  /** The row for stop position `idx`: the stop's id and name when the position holds a
      stop and they are non-empty, otherwise the position and `Stop <position>`; its remove
      button dispatches `removeStopFromRoute(idx)`. */
  function RowFor(stops: seq<Stop>, idx: nat): (row: Row)
    ensures idx >= |stops| ==> row.idText == NatToString(idx) && row.nameText == "Stop " + NatToString(idx)
    ensures idx < |stops| && stops[idx].id.value != "" ==> row.idText == stops[idx].id.value
    ensures idx < |stops| && stops[idx].id.value == "" ==> row.idText == NatToString(idx)
    ensures idx < |stops| && stops[idx].name.value != "" ==> row.nameText == stops[idx].name.value
    ensures idx < |stops| && stops[idx].name.value == "" ==> row.nameText == "Stop " + NatToString(idx)
    ensures row.onRemove == RemoveStopFromRoute(idx)
  {
    var stop := Seqs.ItemAt(stops, idx);
    var id := if stop.Some? && stop.value.id.value != "" then stop.value.id.value else NatToString(idx);
    var name := if stop.Some? && stop.value.name.value != "" then stop.value.name.value else "Stop " + NatToString(idx);
    Row(id, name, RemoveStopFromRoute(idx))
  }

  /** Rows never show an empty identifier or name. */
  lemma RowsAreNeverBlank(stops: seq<Stop>, idx: nat)
    ensures RowFor(stops, idx).idText != "" && RowFor(stops, idx).nameText != ""
  {
  }
}
