/** Positional sequence operations shared by the store reducers and the list handlers. */
module Seqs {
  import opened Wrappers

  /** Keeps every element except the one at position `p`, in order: the
      `filter((_, i) => i !== p)` idiom. A `p` outside the index range keeps everything. */
  function RemoveAt<T>(s: seq<T>, p: int): (r: seq<T>)
    ensures 0 <= p < |s| ==> r == s[..p] + s[p + 1..]
    ensures !(0 <= p < |s|) ==> r == s
    decreases |s|
  {
    if |s| == 0 then []
    else (if p == 0 then [] else [s[0]]) + RemoveAt(s[1..], p - 1)
  }

  /** The element at position `i`, or None when `i` is out of range (JavaScript's
      `xs[i]` yielding `undefined`). */
  function ItemAt<T>(s: seq<T>, i: int): (r: Option<T>)
    ensures r.Some? <==> 0 <= i < |s|
    ensures r.Some? ==> r.value == s[i]
  {
    if 0 <= i < |s| then Some(s[i]) else None
  }

  /** Position of the first element satisfying `p`, or None (`findIndex` returning -1). */
  function FindFirst<T>(s: seq<T>, p: T -> bool): (r: Option<nat>)
    ensures r.None? <==> forall i :: 0 <= i < |s| ==> !p(s[i])
    ensures r.Some? ==> r.value < |s| && p(s[r.value])
    ensures r.Some? ==> forall i :: 0 <= i < r.value ==> !p(s[i])
    decreases |s|
  {
    if |s| == 0 then None
    else if p(s[0]) then Some(0)
    else
      match FindFirst(s[1..], p)
      case None => None
      case Some(k) => Some(k + 1)
  }

  /** Every element of `s` occurs at most once. */
  ghost predicate NoDuplicates<T>(s: seq<T>) {
    forall i, j :: 0 <= i < j < |s| ==> s[i] != s[j]
  }
}
