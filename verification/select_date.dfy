/** The date picker: month navigation, the number of days shown for a month, the text
    a chosen date is displayed as, and what choosing or clearing reports. */
module SelectDate {
  import opened Wrappers
  import opened Numerals
  import Seqs

  /** A calendar date with a zero-based month, as the picker reports it. */
  datatype ADate = ADate(date: int, month: int, year: int)

  /** The month shown and whether the drop-down is open. */
  datatype PickerState = PickerState(isOpen: bool, month: int, year: int)

  /** What a choice does: the value passed to `onChange` (None for `null`) and the new state. */
  datatype Choice = Choice(reported: Option<ADate>, state: PickerState)

  const Months: seq<string> := [
    "January", "February", "March", "April", "May", "June",
    "July", "August", "September", "October", "November", "December"]

  /** `months[m]`, which is `undefined` (rendered as that word) outside 0..11. */
  function MonthName(m: int): (name: string)
    ensures 0 <= m < 12 ==> name == Months[m]
    ensures !(0 <= m < 12) ==> name == "undefined"
  {
    if 0 <= m < 12 then Months[m] else "undefined"
  }

  /** The picker's first state: closed, on the month of `today` (a clock reading), or of
      `value` once one is given. */
  function InitialState(todayMonth: int, todayYear: int, value: Option<ADate>): (st: PickerState)
    ensures !st.isOpen
    ensures value.None? ==> st.month == todayMonth && st.year == todayYear
    ensures value.Some? ==> st.month == value.value.month && st.year == value.value.year
  {
    SyncToValue(PickerState(false, todayMonth, todayYear), value)
  }

  /** The effect run whenever `value` changes: a present value moves the picker to its month. */
  function SyncToValue(st: PickerState, value: Option<ADate>): (r: PickerState)
    ensures r.isOpen == st.isOpen
    ensures value.None? ==> r == st
    ensures value.Some? ==> r.month == value.value.month && r.year == value.value.year
  {
    if value.Some? then st.(month := value.value.month, year := value.value.year) else st
  }

  /** `handleDateSelect`: the day in the month shown is reported and the drop-down closes. */
  function SelectDay(st: PickerState, day: int): (c: Choice)
    ensures c.reported == Some(ADate(day, st.month, st.year))
    ensures c.state == st.(isOpen := false)
  {
    Choice(Some(ADate(day, st.month, st.year)), st.(isOpen := false))
  }

  /** `handleClear`: `null` is reported and the drop-down closes. */
  function Clear(st: PickerState): (c: Choice)
    ensures c.reported.None? && c.state == st.(isOpen := false)
  {
    Choice(None, st.(isOpen := false))
  }

  /** After a day is chosen and the parent feeds the value back, the picker stays on the
      month it was showing. */
  lemma SelectedDayKeepsMonth(st: PickerState, day: int)
    ensures var c := SelectDay(st, day); SyncToValue(c.state, c.reported) == c.state
  {
  }

  /** Months counted from year 0, the reference for navigation. */
  function MonthCount(month: int, year: int): int {
    year * 12 + month
  }

  /** `goToPreviousMonth`. */
  function PreviousMonth(st: PickerState): (r: PickerState)
    ensures r.isOpen == st.isOpen
    ensures 0 <= st.month < 12 ==> 0 <= r.month < 12
    ensures 0 <= st.month < 12 ==> MonthCount(r.month, r.year) == MonthCount(st.month, st.year) - 1
  {
    if st.month == 0 then st.(month := 11, year := st.year - 1) else st.(month := st.month - 1)
  }

  /** `goToNextMonth`. */
  function NextMonth(st: PickerState): (r: PickerState)
    ensures r.isOpen == st.isOpen
    ensures 0 <= st.month < 12 ==> 0 <= r.month < 12
    ensures 0 <= st.month < 12 ==> MonthCount(r.month, r.year) == MonthCount(st.month, st.year) + 1
  {
    if st.month == 11 then st.(month := 0, year := st.year + 1) else st.(month := st.month + 1)
  }

  /** The month count determines month and year while the month is in range. */
  lemma MonthCountInjective(m1: int, y1: int, m2: int, y2: int)
    requires 0 <= m1 < 12 && 0 <= m2 < 12
    requires MonthCount(m1, y1) == MonthCount(m2, y2)
    ensures m1 == m2 && y1 == y2
  {
  }

  /** The two navigation buttons undo each other. */
  lemma NavigationInverse(st: PickerState)
    requires 0 <= st.month < 12
    ensures NextMonth(PreviousMonth(st)) == st
    ensures PreviousMonth(NextMonth(st)) == st
  {
    var p, n := PreviousMonth(st), NextMonth(st);
    MonthCountInjective(NextMonth(p).month, NextMonth(p).year, st.month, st.year);
    MonthCountInjective(PreviousMonth(n).month, PreviousMonth(n).year, st.month, st.year);
  }

  /** Leap years of the proleptic Gregorian calendar. */
  predicate IsLeapYear(y: int) {
    (y % 4 == 0 && y % 100 != 0) || y % 400 == 0
  }

  /** Days of a month in range, Gregorian rules. */
  function MonthLength(month: int, year: int): (d: int)
    requires 0 <= month < 12
    ensures 28 <= d <= 31
    ensures month == 1 ==> (d == 29 <==> IsLeapYear(year))
  {
    if month == 1 then (if IsLeapYear(year) then 29 else 28)
    else if month == 3 || month == 5 || month == 8 || month == 10 then 30
    else 31
  }

  /** The year a `Date` is built in from a year argument: 0 to 99 mean 1900 to 1999. */
  function DateConstructorYear(year: int): (y: int)
    ensures 0 <= year <= 99 ==> y == 1900 + year
    ensures !(0 <= year <= 99) ==> y == year
  {
    if 0 <= year <= 99 then 1900 + year else year
  }

  /** `daysInMonth` as written, `new Date(year, month + 1, 0).getDate()`: day 0 of the next
      month is the last day of `month`, a month outside 0..11 carries into the year, and the
      year argument goes through the two-digit-year mapping first. */
  function DaysInMonthAsWritten(month: int, year: int): (d: int)
    ensures 28 <= d <= 31
    ensures !(0 <= year <= 99) && 0 <= month < 12 ==> d == MonthLength(month, year)
  {
    MonthLength(month % 12, DateConstructorYear(year) + month / 12)
  }

  /** In year 0 the picker shows February with 28 days although year 0 is a leap year:
      the constructor reads it as 1900, which is not. */
  lemma DaysInMonthYearZero()
    ensures DaysInMonthAsWritten(1, 0) == 28
    ensures IsLeapYear(0) && MonthLength(1, 0) == 29
  {
  }

  /** The number of day buttons the picker shows for `month` of `year`: the length of that
      month with no two-digit-year mapping, the month carried into the year as the
      constructor does. */
  function DaysInMonth(month: int, year: int): (d: int)
    ensures 28 <= d <= 31
    ensures 0 <= month < 12 ==> d == MonthLength(month, year)
    ensures month % 12 == 1 ==> (d == 29 <==> IsLeapYear(year + month / 12))
  {
    MonthLength(month % 12, year + month / 12)
  }

  /** Whenever the year argument is outside 0 to 99, the corrected count agrees with the
      code as written, whatever year the month carries into: the two-digit mapping of the
      year argument is the only disagreement. */
  lemma DaysInMonthAgrees(month: int, year: int)
    requires !(0 <= year <= 99)
    ensures DaysInMonth(month, year) == DaysInMonthAsWritten(month, year)
  {
  }

  /** Days in the first `n` months of `year`. */
  function DaysBefore(n: int, year: int): int
    requires 0 <= n <= 12
  {
    if n == 0 then 0 else DaysBefore(n - 1, year) + DaysInMonth(n - 1, year)
  }

  /** The twelve months shown for a year add up to the length of that year. */
  lemma YearLength(year: int)
    ensures DaysBefore(12, year) == if IsLeapYear(year) then 366 else 365
  {
    var feb := DaysInMonth(1, year);
    assert DaysBefore(1, year) == 31;
    assert DaysBefore(2, year) == 31 + feb;
    assert DaysBefore(3, year) == 31 + feb + 31;
    assert DaysBefore(4, year) == 31 + feb + 31 + 30;
    assert DaysBefore(5, year) == 31 + feb + 31 + 30 + 31;
    assert DaysBefore(6, year) == 31 + feb + 31 + 30 + 31 + 30;
    assert DaysBefore(7, year) == 31 + feb + 31 + 30 + 31 + 30 + 31;
    assert DaysBefore(8, year) == 31 + feb + 31 + 30 + 31 + 30 + 31 + 31;
    assert DaysBefore(9, year) == 31 + feb + 31 + 30 + 31 + 30 + 31 + 31 + 30;
    assert DaysBefore(10, year) == 31 + feb + 31 + 30 + 31 + 30 + 31 + 31 + 30 + 31;
    assert DaysBefore(11, year) == 31 + feb + 31 + 30 + 31 + 30 + 31 + 31 + 30 + 31 + 30;
    assert DaysBefore(12, year) == 31 + feb + 31 + 30 + 31 + 30 + 31 + 31 + 30 + 31 + 30 + 31;
  }

  /** `formatDate`: `Month D, YYYY`, the empty string for no date. */
  function FormatDate(date: Option<ADate>): (s: string)
    ensures date.None? <==> s == ""
  {
    match date
    case None => ""
    case Some(d) => MonthName(d.month) + " " + IntToString(d.date) + ", " + IntToString(d.year)
  }

  /** Position of the first `c` in `s`. */
  function IndexOf(s: string, c: char): (k: Option<nat>)
    ensures k.Some? ==> k.value < |s| && s[k.value] == c && c !in s[..k.value]
    ensures k.None? ==> c !in s
  {
    Seqs.FindFirst(s, (x: char) => x == c)
  }

  /** Cutting `a + [c] + b` at its first `c` gives back `a` and `b`, when `a` holds no `c`. */
  lemma IndexOfAfter(a: string, c: char, b: string)
    requires c !in a
    ensures var s := a + [c] + b;
      IndexOf(s, c) == Some(|a|) && s[..|a|] == a && s[|a| + 1..] == b
  {
    var s := a + [c] + b;
    assert s[|a|] == c;
    assert forall i :: 0 <= i < |a| ==> s[i] == a[i];
    assert s[..|a|] == a;
    assert s[|a| + 1..] == b;
  }

  /** The month whose name is `name`. */
  function MonthOf(name: string): (m: Option<nat>)
    ensures m.Some? ==> m.value < 12 && Months[m.value] == name
  {
    Seqs.FindFirst(Months, (n: string) => n == name)
  }

  /** Reads a displayed date back: the month name up to the first space, the day up to the
      comma, the year after it. */
  function ParseDisplayed(s: string): Option<ADate> {
    match IndexOf(s, ' ')
    case None => None
    case Some(i) =>
      var rest := s[i + 1..];
      match IndexOf(rest, ',')
      case None => None
      case Some(j) =>
        Assemble(MonthOf(s[..i]), ParseInt(rest[..j]), ParseInt(rest[j + 1..]))
  }

  /** A date from its three read parts, when all three were read. */
  function Assemble(month: Option<nat>, day: Option<int>, year: Option<int>): (r: Option<ADate>)
    ensures r.Some? <==> month.Some? && day.Some? && year.Some?
    ensures r.Some? ==> r.value == ADate(day.value, month.value, year.value)
  {
    if month.Some? && day.Some? && year.Some? then Some(ADate(day.value, month.value, year.value)) else None
  }

  /** How a text of the displayed shape is cut into its three parts. */
  lemma ParseDisplayedParts(name: string, day: string, yearText: string)
    requires ' ' !in name && ',' !in day
    ensures ParseDisplayed(name + " " + day + ", " + yearText)
         == Assemble(MonthOf(name), ParseInt(day), ParseInt(" " + yearText))
  {
    var tail := " " + yearText;
    var rest := day + [','] + tail;
    assert name + " " + day + ", " + yearText == name + [' '] + rest;
    IndexOfAfter(name, ' ', rest);
    IndexOfAfter(day, ',', tail);
  }

  /** The twelve month names are different words. */
  lemma MonthNamesDistinct()
    ensures Seqs.NoDuplicates(Months)
  {
  }

  lemma MonthNamesHaveNoSpace()
    ensures forall m :: 0 <= m < 12 ==> ' ' !in Months[m]
  {
  }

  lemma MonthNamesPlain(m: nat)
    requires m < 12
    ensures MonthOf(Months[m]) == Some(m)
  {
    MonthNamesDistinct();
    var k := MonthOf(Months[m]);
    assert k.Some?;
    assert Months[k.value] == Months[m];
  }

  lemma NoSeparatorInNumber(i: int)
    ensures ' ' !in IntToString(i) && ',' !in IntToString(i)
  {
    var s := IntToString(i);
    assert forall k :: 0 <= k < |s| ==> s[k] == '-' || IsDigit(s[k]);
  }

  /** A displayed date with its month in range reads back as the same date, so two
      different dates are never displayed alike. */
  lemma DisplayRoundTrip(d: ADate)
    requires 0 <= d.month < 12
    ensures ParseDisplayed(FormatDate(Some(d))) == Some(d)
  {
    var name, day, year := Months[d.month], IntToString(d.date), IntToString(d.year);
    MonthNamesPlain(d.month);
    MonthNamesHaveNoSpace();
    NoSeparatorInNumber(d.date);
    ParseDisplayedParts(name, day, year);
    ParseIntOfIntToString(d.date);
    ParseIntOfIntToString(d.year);
    assert " " + year == [' '] + year;
    ParseIntSkipsWhiteSpace(' ', year);
  }
}
