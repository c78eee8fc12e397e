/** The service calendar collection reducers. */
module CalendarSlice {
  import opened Model
  import Seqs

  datatype CalendarState = CalendarState(data: seq<Calendar>)

  function Initial(): (s: CalendarState)
    ensures |s.data| == 0
  {
    CalendarState([])
  }

  /** `addCalendar`: the payload goes at the end. */
  function AddCalendar(s: CalendarState, c: Calendar): (r: CalendarState)
    ensures |r.data| == |s.data| + 1
    ensures forall i :: 0 <= i < |s.data| ==> r.data[i] == s.data[i]
    ensures r.data[|s.data|] == c
  {
    CalendarState(s.data + [c])
  }

  /** `removeCalendar`: drops position `p`, keeping the rest in order; out of range keeps all. */
  function RemoveCalendar(s: CalendarState, p: int): (r: CalendarState)
    ensures 0 <= p < |s.data| ==> |r.data| == |s.data| - 1
    ensures 0 <= p < |s.data| ==> forall j :: 0 <= j < |r.data| ==>
      r.data[j] == if j < p then s.data[j] else s.data[j + 1]
    ensures !(0 <= p < |s.data|) ==> r == s
  {
    CalendarState(Seqs.RemoveAt(s.data, p))
  }

  /** `setCalendar`: the payload becomes the collection. */
  function SetCalendar(s: CalendarState, cs: seq<Calendar>): (r: CalendarState)
    ensures r.data == cs
  {
    CalendarState(cs)
  }

  /** Removing the calendar just added restores the collection. */
  lemma RemoveAfterAdd(s: CalendarState, c: Calendar)
    ensures RemoveCalendar(AddCalendar(s, c), |s.data|) == s
  {
    assert AddCalendar(s, c).data[..|s.data|] == s.data;
  }
}
