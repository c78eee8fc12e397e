/** One stop of a trip's stop sequence: the arrival and departure pickers, their choices
    every thirty minutes of the day, and what a change reports to the parent. */
module StopTimeItem {
  import opened Wrappers
  import opened Numerals

  /** The stop time the item is given; absent optional attributes are None. */
  datatype StopTimeData = StopTimeData(
    arrivalTime: string, departureTime: string,
    stopHeadsign: Option<string>, pickupType: Option<string>, dropOffType: Option<string>,
    shapeDistTraveled: Option<string>, timepoint: Option<string>)

  /** The item's local state for the two times and the optional attributes. */
  datatype TimeState = TimeState(
    arrivalTime: string, departureTime: string,
    stopHeadsign: string, pickupType: string, dropOffType: string,
    shapeDistTraveled: string, timepoint: string)

  /** `onTimeChange(arrival, departure)`. */
  datatype TimeChange = TimeChange(arrival: string, departure: string)

  /** The result of a change: the new state and the report, None when no callback is given. */
  datatype ChangeEffects = ChangeEffects(state: TimeState, report: Option<TimeChange>)

  /** `s || ''` on an optional string: absent and empty both give the empty string. */
  function OrEmpty(s: Option<string>): (r: string)
    ensures s.Some? ==> r == s.value
    ensures s.None? ==> r == ""
  {
    s.GetOr("")
  }

  /** The state the item starts from; without a stop time both times are empty. */
  function InitialState(stopTime: Option<StopTimeData>): (st: TimeState)
    ensures stopTime.None? ==> st.arrivalTime == "" && st.departureTime == ""
    ensures stopTime.Some? ==> st.arrivalTime == stopTime.value.arrivalTime && st.departureTime == stopTime.value.departureTime
    ensures stopTime.Some? ==> st.stopHeadsign == OrEmpty(stopTime.value.stopHeadsign) && st.timepoint == OrEmpty(stopTime.value.timepoint)
    ensures stopTime.Some? ==> st.pickupType == OrEmpty(stopTime.value.pickupType) && st.dropOffType == OrEmpty(stopTime.value.dropOffType)
    ensures stopTime.Some? ==> st.shapeDistTraveled == OrEmpty(stopTime.value.shapeDistTraveled)
    ensures stopTime.None? ==> st.stopHeadsign == "" && st.pickupType == "" && st.dropOffType == "" && st.shapeDistTraveled == "" && st.timepoint == ""
  {
    var t := stopTime.GetOr(StopTimeData("", "", None, None, None, None, None));
    TimeState(t.arrivalTime, t.departureTime, OrEmpty(t.stopHeadsign), OrEmpty(t.pickupType),
      OrEmpty(t.dropOffType), OrEmpty(t.shapeDistTraveled), OrEmpty(t.timepoint))
  }

  /** `handleArrivalTimeChange`: the arrival becomes `value` and the report pairs it with
      the current departure. */
  function ArrivalChanged(st: TimeState, value: string, hasCallback: bool): (e: ChangeEffects)
    ensures e.state == st.(arrivalTime := value)
    ensures e.report.Some? <==> hasCallback
    ensures hasCallback ==> e.report.value == TimeChange(e.state.arrivalTime, e.state.departureTime)
  {
    ChangeEffects(st.(arrivalTime := value), if hasCallback then Some(TimeChange(value, st.departureTime)) else None)
  }

  /** `handleDepartureTimeChange`: the departure becomes `value` and the report pairs it with
      the current arrival. */
  function DepartureChanged(st: TimeState, value: string, hasCallback: bool): (e: ChangeEffects)
    ensures e.state == st.(departureTime := value)
    ensures e.report.Some? <==> hasCallback
    ensures hasCallback ==> e.report.value == TimeChange(e.state.arrivalTime, e.state.departureTime)
  {
    ChangeEffects(st.(departureTime := value), if hasCallback then Some(TimeChange(st.arrivalTime, value)) else None)
  }

  /** Whatever the order of the edits, the report after an arrival and a departure change
      carries both new values. */
  lemma BothChangesReported(st: TimeState, a: string, d: string)
    ensures DepartureChanged(ArrivalChanged(st, a, true).state, d, true).report == Some(TimeChange(a, d))
    ensures ArrivalChanged(DepartureChanged(st, d, true).state, a, true).report == Some(TimeChange(a, d))
  {
  }

  /** `String(n).padStart(2, '0')`. */
  function TwoDigits(n: nat): string {
    PadStart(NatToString(n), 2, '0')
  }

  /** The option text for `hour` and `minute`: `HH:MM:00`. */
  function Clock(hour: nat, minute: nat): string {
    TwoDigits(hour) + ":" + TwoDigits(minute) + ":00"
  }

  /** The `k`-th option of the pickers: half-hour `k` of the day. */
  function TimeOption(k: nat): string {
    Clock(k / 2, (k % 2) * 30)
  }

  /** The option for `hour` and `minute` sits at position `2 * hour + minute / 30`. */
  lemma OptionIndex(hour: nat, minute: nat)
    requires minute == 0 || minute == 30
    ensures TimeOption(2 * hour + minute / 30) == Clock(hour, minute)
  {
    var k := 2 * hour + minute / 30;
    if minute == 0 {
      assert k == 2 * hour;
      assert k / 2 == hour && k % 2 == 0;
    } else {
      assert k == 2 * hour + 1;
      assert k / 2 == hour && k % 2 == 1;
    }
    assert k / 2 == hour && (k % 2) * 30 == minute;
  }

  /** `times` holds the first `|times|` values of `f`, in order. */
  ghost predicate Lists(times: seq<string>, f: nat -> string) {
    forall k :: 0 <= k < |times| ==> times[k] == f(k)
  }

  lemma ListsStep(times: seq<string>, t: string, f: nat -> string)
    requires Lists(times, f) && t == f(|times|)
    ensures Lists(times + [t], f)
  {
    var next := times + [t];
    forall k | 0 <= k < |next|
      ensures next[k] == f(k)
    {
      if k < |times| {
        assert next[k] == times[k];
      }
    }
  }

  /** One iteration of the option loop appends the option for the next half-hour. */
  lemma OptionStep(times: seq<string>, hour: nat, minute: nat)
    requires minute == 0 || minute == 30
    requires |times| == 2 * hour + minute / 30 && Lists(times, TimeOption)
    ensures Lists(times + [Clock(hour, minute)], TimeOption)
  {
    OptionIndex(hour, minute);
    ListsStep(times, Clock(hour, minute), TimeOption);
  }

  /** `generateTimeOptions`: hours 0 to 23, minutes 0 and 30, in that order. */
  method GenerateTimeOptions() returns (times: seq<string>)
    ensures |times| == 48
    ensures forall k :: 0 <= k < |times| ==> times[k] == TimeOption(k)
  {
    times := [];
    var hour := 0;
    while hour < 24
      invariant 0 <= hour <= 24
      invariant |times| == 2 * hour
      invariant Lists(times, TimeOption)
    {
      var minute := 0;
      while minute < 60
        invariant minute == 0 || minute == 30 || minute == 60
        invariant |times| == 2 * hour + minute / 30
        invariant Lists(times, TimeOption)
      {
        var timeStr := Clock(hour, minute);
        OptionStep(times, hour, minute);
        times := times + [timeStr];
        minute := minute + 30;
      }
      hour := hour + 1;
    }
  }

  /** Value of two decimal digit characters. */
  function PairValue(a: char, b: char): int {
    (a as int - '0' as int) * 10 + (b as int - '0' as int)
  }

  /** The minute of the day a `HH:MM:00` text names; None for any other text. */
  function MinuteOfDay(t: string): (m: Option<int>)
    ensures m.Some? ==> |t| == 8 && t[2] == ':' && t[5] == ':'
  {
    if |t| == 8 && IsDigit(t[0]) && IsDigit(t[1]) && t[2] == ':' && IsDigit(t[3]) && IsDigit(t[4])
       && t[5..] == ":00"
    then Some(PairValue(t[0], t[1]) * 60 + PairValue(t[3], t[4]))
    else None
  }

  /** A `HH:MM:00` text names minute `HH * 60 + MM`. */
  lemma MinuteOfDayOf(t: string, minutes: int)
    requires |t| == 8 && t[2] == ':' && t[5..] == ":00"
    requires IsDigit(t[0]) && IsDigit(t[1]) && IsDigit(t[3]) && IsDigit(t[4])
    requires PairValue(t[0], t[1]) * 60 + PairValue(t[3], t[4]) == minutes
    ensures MinuteOfDay(t) == Some(minutes)
  {
  }

  /** Reading back the two digits of a number below one hundred. */
  lemma PairValueOf(n: nat)
    requires n < 100
    ensures PairValue(DigitChar(n / 10), DigitChar(n % 10)) == n
  {
  }

  /** Two-digit rendering of a number below one hundred. */
  lemma TwoDigitsOf(n: nat)
    requires n < 100
    ensures TwoDigits(n) == [DigitChar(n / 10), DigitChar(n % 10)]
  {
    if n < 10 {
      assert NatToString(n) == [DigitChar(n)];
      assert PadStart([DigitChar(n)], 2, '0') == PadStart(['0', DigitChar(n)], 2, '0');
      assert DigitChar(0) == '0';
    } else {
      assert NatToString(n / 10) == [DigitChar(n / 10)];
      assert NatToString(n) == [DigitChar(n / 10), DigitChar(n % 10)];
    }
  }

  /** Where the parts of `HH:MM:00` sit in the text. */
  lemma TimeTextChars(a: string, b: string)
    requires |a| == 2 && |b| == 2
    ensures var t := a + ":" + b + ":00";
      && |t| == 8 && t[0] == a[0] && t[1] == a[1] && t[2] == ':'
      && t[3] == b[0] && t[4] == b[1] && t[5..] == ":00"
      && t[5] == ':' && t[6] == '0' && t[7] == '0'
  {
  }

  /** The characters of the option text for an hour and a minute below one hundred. */
  lemma ClockChars(hour: nat, minute: nat)
    requires hour < 100 && minute < 100
    ensures var t := Clock(hour, minute);
      && |t| == 8 && t[2] == ':' && t[5..] == ":00"
      && t[0] == DigitChar(hour / 10) && t[1] == DigitChar(hour % 10)
      && t[3] == DigitChar(minute / 10) && t[4] == DigitChar(minute % 10)
      && t[5] == ':' && t[6] == '0' && t[7] == '0'
  {
    var a, b := TwoDigits(hour), TwoDigits(minute);
    TwoDigitsOf(hour);
    TwoDigitsOf(minute);
    TimeTextChars(a, b);
  }

  /** Option `k` names minute `30 * k` of the day. */
  lemma TimeOptionMinute(k: nat)
    requires k < 48
    ensures MinuteOfDay(TimeOption(k)) == Some(30 * k)
  {
    var h, m := k / 2, (k % 2) * 30;
    ClockChars(h, m);
    PairValueOf(h);
    PairValueOf(m);
    var t := TimeOption(k);
    assert IsDigit(t[0]) && IsDigit(t[1]) && IsDigit(t[3]) && IsDigit(t[4]);
    assert PairValue(t[0], t[1]) == h;
    assert PairValue(t[3], t[4]) == m;
    assert k == 2 * h + k % 2;
    assert h * 60 + m == 30 * k;
    MinuteOfDayOf(t, 30 * k);
  }

  /** Option `k` is `HH:MM:00` with `HH` two digits reading hour `k / 2`, below 24, and
      `MM` either `00` or `30`. */
  lemma TimeOptionShape(k: nat)
    requires k < 48
    ensures var t := TimeOption(k);
      && |t| == 8 && t[2] == ':' && t[5..] == ":00"
      && IsDigit(t[0]) && IsDigit(t[1]) && PairValue(t[0], t[1]) == k / 2 < 24
      && (t[3..5] == "00" || t[3..5] == "30")
  {
    var h := k / 2;
    var m := if k % 2 == 0 then 0 else 30;
    assert (k % 2) * 30 == m;
    var t := TimeOption(k);
    assert t == Clock(h, m);
    ClockChars(h, m);
    PairValueOf(h);
    MinutePart(t, m);
  }

  /** The minute digits of an option text for minute 0 or 30. */
  lemma MinutePart(t: string, m: nat)
    requires m == 0 || m == 30
    requires |t| == 8 && t[3] == DigitChar(m / 10) && t[4] == DigitChar(m % 10)
    ensures t[3..5] == "00" || t[3..5] == "30"
  {
    assert t[3..5] == [t[3], t[4]];
    assert DigitChar(0) == '0' && DigitChar(3) == '3';
  }

  /** Two eight-character strings that agree at each position are equal. */
  lemma SameEight(t: string, e: string)
    requires |t| == 8 && |e| == 8
    requires t[0] == e[0] && t[1] == e[1] && t[2] == e[2] && t[3] == e[3]
    requires t[4] == e[4] && t[5] == e[5] && t[6] == e[6] && t[7] == e[7]
    ensures t == e
  {
    forall i | 0 <= i < 8
      ensures t[i] == e[i]
    {
      if i < 4 {
        assert i == 0 || i == 1 || i == 2 || i == 3;
      } else {
        assert i == 4 || i == 5 || i == 6 || i == 7;
      }
    }
  }

  /** The option text for an hour and a minute below one hundred, character by character. */
  lemma ClockText(hour: nat, minute: nat, e: string)
    requires hour < 100 && minute < 100 && |e| == 8
    requires e[0] == DigitChar(hour / 10) && e[1] == DigitChar(hour % 10) && e[2] == ':'
    requires e[3] == DigitChar(minute / 10) && e[4] == DigitChar(minute % 10)
    requires e[5] == ':' && e[6] == '0' && e[7] == '0'
    ensures Clock(hour, minute) == e
  {
    ClockChars(hour, minute);
    SameEight(Clock(hour, minute), e);
  }

  /** The first option is midnight. */
  lemma FirstOption()
    ensures TimeOption(0) == "00:00:00"
  {
    assert DigitChar(0) == '0';
    ClockText(0, 0, "00:00:00");
  }

  /** The last option is half past eleven in the evening. */
  lemma LastOption()
    ensures TimeOption(47) == "23:30:00"
  {
    assert DigitChar(0) == '0' && DigitChar(2) == '2' && DigitChar(3) == '3';
    ClockText(23, 30, "23:30:00");
  }

  /** The options start at midnight and end at half past eleven in the evening. */
  lemma TimeOptionEnds()
    ensures TimeOption(0) == "00:00:00" && TimeOption(47) == "23:30:00"
  {
    FirstOption();
    LastOption();
  }

  /** The options run through the day in order, thirty minutes apart, so no two are equal
      (each is used as its entry's key). */
  lemma TimeOptionsOrdered(j: nat, k: nat)
    requires j < k < 48
    ensures MinuteOfDay(TimeOption(j)) == Some(30 * j) && MinuteOfDay(TimeOption(k)) == Some(30 * k)
    ensures TimeOption(j) != TimeOption(k)
  {
    TimeOptionMinute(j);
    TimeOptionMinute(k);
  }
}
