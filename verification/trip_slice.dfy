/** The trip collection reducers. */
module TripSlice {
  import opened Model
  import Seqs

  datatype TripState = TripState(data: seq<Trip>)

  function Initial(): (s: TripState)
    ensures |s.data| == 0
  {
    TripState([])
  }

  /** `addTrip`: the payload goes at the end. */
  function AddTrip(s: TripState, t: Trip): (r: TripState)
    ensures |r.data| == |s.data| + 1
    ensures forall i :: 0 <= i < |s.data| ==> r.data[i] == s.data[i]
    ensures r.data[|s.data|] == t
  {
    TripState(s.data + [t])
  }

  /** `removeTrip`: drops position `p`, keeping the rest in order; out of range keeps all. */
  function RemoveTrip(s: TripState, p: int): (r: TripState)
    ensures 0 <= p < |s.data| ==> |r.data| == |s.data| - 1
    ensures 0 <= p < |s.data| ==> forall j :: 0 <= j < |r.data| ==>
      r.data[j] == if j < p then s.data[j] else s.data[j + 1]
    ensures !(0 <= p < |s.data|) ==> r == s
  {
    TripState(Seqs.RemoveAt(s.data, p))
  }

  /** `setTrips`: the payload becomes the collection. */
  function SetTrips(s: TripState, ts: seq<Trip>): (r: TripState)
    ensures r.data == ts
  {
    TripState(ts)
  }

  /** Removing the trip just added restores the collection. */
  lemma RemoveAfterAdd(s: TripState, t: Trip)
    ensures RemoveTrip(AddTrip(s, t), |s.data|) == s
  {
    assert AddTrip(s, t).data[..|s.data|] == s.data;
  }
}
