/** The stop collection reducers. */
module StopSlice {
  import opened Model

  datatype StopState = StopState(data: seq<Stop>)

  function Initial(): (s: StopState)
    ensures |s.data| == 0
  {
    StopState([])
  }

  /** `setStops`: the payload becomes the collection. */
  function SetStops(s: StopState, stops: seq<Stop>): (r: StopState)
    ensures r.data == stops
  {
    StopState(stops)
  }

  /** `addStop`: the payload goes at the end; every existing stop keeps its position. */
  function AddStop(s: StopState, stop: Stop): (r: StopState)
    ensures |r.data| == |s.data| + 1
    ensures forall i :: 0 <= i < |s.data| ==> r.data[i] == s.data[i]
    ensures r.data[|s.data|] == stop
  {
    StopState(s.data + [stop])
  }

  /** A route's positional references that resolved before `addStop` still resolve, to the
      same stops, afterwards. */
  lemma AddStopKeepsReferences(s: StopState, stop: Stop, stopIndexes: seq<nat>)
    requires forall j :: 0 <= j < |stopIndexes| ==> stopIndexes[j] < |s.data|
    ensures var r := AddStop(s, stop);
      forall j :: 0 <= j < |stopIndexes| ==>
        stopIndexes[j] < |r.data| && r.data[stopIndexes[j]] == s.data[stopIndexes[j]]
  {
  }

  /** `setStops` discards whatever was loaded before. */
  lemma SetStopsForgetsPrevious(a: StopState, b: StopState, stops: seq<Stop>)
    ensures SetStops(a, stops) == SetStops(b, stops)
  {
  }
}
