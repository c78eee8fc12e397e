/** The calendar detail panel's local form: the seven operating-day flags and the list of
    exception dates, with the handlers that edit them. */
module CalendarDetail {
  import opened Actions

  datatype Day = Sun | Mon | Tues | Wed | Thurs | Fri | Sat

  /** The operating-day flags, one per day. */
  datatype OperatingDays = OperatingDays(sun: bool, mon: bool, tues: bool, wed: bool, thurs: bool, fri: bool, sat: bool)

  /** One exception row; `kind` is the selected exception type text. */
  datatype Exception = Exception(id: string, date: string, kind: string)

  datatype CalendarForm = CalendarForm(
    serviceId: string, days: OperatingDays, startDate: string, endDate: string,
    exceptions: seq<Exception>)

  /** The flag of `d`. */
  function Flag(o: OperatingDays, d: Day): bool {
    match d
    case Sun => o.sun
    case Mon => o.mon
    case Tues => o.tues
    case Wed => o.wed
    case Thurs => o.thurs
    case Fri => o.fri
    case Sat => o.sat
  }

  /** The panel's starting form: no service id, no day selected, no dates, no exceptions. */
  function InitialForm(): (f: CalendarForm)
    ensures forall d: Day :: !Flag(f.days, d)
    ensures f.exceptions == [] && f.serviceId == "" && f.startDate == "" && f.endDate == ""
  {
    CalendarForm("", OperatingDays(false, false, false, false, false, false, false), "", "", [])
  }

  /** `handleDayToggle`. */
  function ToggleDay(o: OperatingDays, d: Day): (r: OperatingDays)
    ensures Flag(r, d) == !Flag(o, d)
    ensures forall e: Day :: e != d ==> Flag(r, e) == Flag(o, e)
  {
    match d
    case Sun => o.(sun := !o.sun)
    case Mon => o.(mon := !o.mon)
    case Tues => o.(tues := !o.tues)
    case Wed => o.(wed := !o.wed)
    case Thurs => o.(thurs := !o.thurs)
    case Fri => o.(fri := !o.fri)
    case Sat => o.(sat := !o.sat)
  }

  /** The flags determine the record. */
  lemma FlagsDetermineDays(a: OperatingDays, b: OperatingDays)
    requires forall d: Day :: Flag(a, d) == Flag(b, d)
    ensures a == b
  {
    assert Flag(a, Sun) == Flag(b, Sun) && Flag(a, Mon) == Flag(b, Mon) && Flag(a, Tues) == Flag(b, Tues);
    assert Flag(a, Wed) == Flag(b, Wed) && Flag(a, Thurs) == Flag(b, Thurs);
    assert Flag(a, Fri) == Flag(b, Fri) && Flag(a, Sat) == Flag(b, Sat);
  }

  /** Toggling a day twice restores the flags. */
  lemma ToggleTwice(o: OperatingDays, d: Day)
    ensures ToggleDay(ToggleDay(o, d), d) == o
  {
    var r := ToggleDay(ToggleDay(o, d), d);
    forall e: Day
      ensures Flag(r, e) == Flag(o, e)
    {
    }
    FlagsDetermineDays(r, o);
  }

  /** `handleAddException`, with the clock reading `Date.now().toString()` given as `id`. */
  function AddException(exs: seq<Exception>, id: string): (r: seq<Exception>)
    ensures |r| == |exs| + 1 && r[..|exs|] == exs
    ensures r[|exs|].id == id && r[|exs|].date == "" && r[|exs|].kind == ""
  {
    exs + [Exception(id, "", "")]
  }

  /** `handleRemoveException`: drops every row whose id is `id`, keeping the rest in order.
      The contract states membership; `RemoveOverConcat` states that the order is kept. */
  function RemoveException(exs: seq<Exception>, id: string): (r: seq<Exception>)
    ensures |r| <= |exs|
    ensures forall e :: e in r <==> e in exs && e.id != id
    decreases |exs|
  {
    if |exs| == 0 then []
    else (if exs[0].id == id then [] else [exs[0]]) + RemoveException(exs[1..], id)
  }

  /** Removal works row by row over a concatenation. */
  lemma {:induction false} RemoveOverConcat(a: seq<Exception>, b: seq<Exception>, id: string)
    ensures RemoveException(a + b, id) == RemoveException(a, id) + RemoveException(b, id)
    decreases |a|
  {
    if |a| == 0 {
      assert a + b == b;
    } else {
      assert (a + b)[1..] == a[1..] + b;
      RemoveOverConcat(a[1..], b, id);
    }
  }

  /** Removing an id no row has changes nothing. */
  lemma {:induction false} RemoveAbsent(exs: seq<Exception>, id: string)
    requires forall i :: 0 <= i < |exs| ==> exs[i].id != id
    ensures RemoveException(exs, id) == exs
    decreases |exs|
  {
    if |exs| > 0 {
      RemoveAbsent(exs[1..], id);
    }
  }

  /** Adding a row with a fresh id and removing it again gives back the original list. */
  lemma RemoveAfterAdd(exs: seq<Exception>, id: string)
    requires forall i :: 0 <= i < |exs| ==> exs[i].id != id
    ensures RemoveException(AddException(exs, id), id) == exs
  {
    RemoveOverConcat(exs, [Exception(id, "", "")], id);
    RemoveAbsent(exs, id);
    assert RemoveException([Exception(id, "", "")], id) == [];
  }

  /** The field an exception edit sets. */
  datatype ExceptionField = DateField | TypeField

  /** One row with `field` set to `value`. */
  function Patch(e: Exception, field: ExceptionField, value: string): Exception {
    match field
    case DateField => e.(date := value)
    case TypeField => e.(kind := value)
  }

  /** `handleExceptionDateChange` and `handleExceptionTypeChange`: every row whose id is
      `id` gets the new value in that field; every other row, and every other field, is
      unchanged. */
  function ChangeException(exs: seq<Exception>, id: string, field: ExceptionField, value: string): (r: seq<Exception>)
    ensures |r| == |exs|
    ensures forall i :: 0 <= i < |exs| ==> r[i].id == exs[i].id
    ensures forall i :: 0 <= i < |exs| && exs[i].id != id ==> r[i] == exs[i]
    ensures forall i :: 0 <= i < |exs| && exs[i].id == id && field == DateField ==> r[i].date == value && r[i].kind == exs[i].kind
    ensures forall i :: 0 <= i < |exs| && exs[i].id == id && field == TypeField ==> r[i].kind == value && r[i].date == exs[i].date
    decreases |exs|
  {
    if |exs| == 0 then []
    else [if exs[0].id == id then Patch(exs[0], field, value) else exs[0]] + ChangeException(exs[1..], id, field, value)
  }

  /** Editing rows never changes which rows a removal drops: edits and removal commute. */
  lemma {:induction false} ChangeThenRemove(exs: seq<Exception>, id: string, field: ExceptionField, value: string, other: string)
    ensures RemoveException(ChangeException(exs, id, field, value), other)
         == ChangeException(RemoveException(exs, other), id, field, value)
    decreases |exs|
  {
    if |exs| > 0 {
      ChangeThenRemove(exs[1..], id, field, value, other);
      var c := ChangeException(exs, id, field, value);
      assert c[1..] == ChangeException(exs[1..], id, field, value);
      var r := RemoveException(exs, other);
      if exs[0].id != other {
        assert r[1..] == RemoveException(exs[1..], other);
      }
    }
  }

  /** `handleClose` and `handleCancel` only close the panel; the form is not saved. */
  function Close(): (actions: seq<Action>)
    ensures actions == [CloseCalendarDetail]
  {
    [CloseCalendarDetail]
  }
}
