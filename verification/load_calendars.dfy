/** The per-record conversions of the calendar loader: backend calendar plus its
    calendar-date exceptions → Calendar. */
module LoadCalendars {
  import opened Wrappers
  import opened Model
  import Numerals

  datatype BackendCalendar = BackendCalendar(
    service_id: string,
    monday: int, tuesday: int, wednesday: int, thursday: int, friday: int, saturday: int, sunday: int,
    start_date: string,
    end_date: string)

  datatype BackendCalendarDate = BackendCalendarDate(service_id: string, date: string, exception_type: int)

  /** `formatDateForInput`: `YYYYMMDD` → `YYYY-MM-DD`; anything not exactly eight
      characters long becomes the empty string. */
  function FormatDateForInput(s: string): (r: string)
    ensures |s| != 8 <==> r == ""
    ensures |s| == 8 ==> |r| == 10 && r[4] == '-' && r[7] == '-'
    ensures |s| == 8 ==> r[..4] + r[5..7] + r[8..] == s
  {
    if |s| != 8 then ""
    else
      var r := s[..4] + "-" + s[4..6] + "-" + s[6..8];
      assert r[..4] == s[..4] && r[5..7] == s[4..6] && r[8..] == s[6..8];
      assert s[..4] + s[4..6] + s[6..8] == s;
      r
  }

  /** The calendar dates of service `sid`, in backend order. The contract states membership;
      the order and multiplicity are those `WithServiceStep` extends one date at a time. */
  function WithService(ds: seq<BackendCalendarDate>, sid: string): (r: seq<BackendCalendarDate>)
    ensures |r| <= |ds|
    ensures forall j :: 0 <= j < |r| ==> r[j].service_id == sid && r[j] in ds
    ensures forall i :: 0 <= i < |ds| && ds[i].service_id == sid ==> ds[i] in r
    decreases |ds|
  {
    if |ds| == 0 then []
    else
      var last := ds[|ds| - 1];
      assert forall i :: 0 <= i < |ds| - 1 ==> ds[..|ds| - 1][i] == ds[i];
      WithService(ds[..|ds| - 1], sid) + (if last.service_id == sid then [last] else [])
  }

  /** `m` groups the first `k` calendar dates by service id. */
  ghost predicate Grouped(ds: seq<BackendCalendarDate>, k: nat, m: map<string, seq<BackendCalendarDate>>)
    requires k <= |ds|
  {
    && m.Keys == ServiceIds(ds, k)
    && (forall sid :: sid in m ==> m[sid] == WithService(ds[..k], sid))
    && (forall sid :: sid !in m ==> WithService(ds[..k], sid) == [])
  }

  /** The loop body: `existing.push(cd)` then `calendarDatesMap.set(cd.service_id, existing)`. */
  function AddToGroup(m: map<string, seq<BackendCalendarDate>>, d: BackendCalendarDate): map<string, seq<BackendCalendarDate>> {
    var existing := if d.service_id in m then m[d.service_id] else [];
    m[d.service_id := existing + [d]]
  }

  /** The service ids among the first `k` calendar dates. */
  ghost function ServiceIds(ds: seq<BackendCalendarDate>, k: nat): set<string>
    requires k <= |ds|
  {
    set i | 0 <= i < k :: ds[i].service_id
  }

  /** One more date adds its service id. */
  lemma ServiceIdsStep(ds: seq<BackendCalendarDate>, k: nat)
    requires k < |ds|
    ensures ServiceIds(ds, k + 1) == ServiceIds(ds, k) + {ds[k].service_id}
  {
    assert ds[k].service_id in ServiceIds(ds, k + 1);
  }

  /** One loop iteration keeps the grouping exact. */
  lemma GroupStep(ds: seq<BackendCalendarDate>, k: nat, m: map<string, seq<BackendCalendarDate>>)
    requires k < |ds|
    requires Grouped(ds, k, m)
    ensures Grouped(ds, k + 1, AddToGroup(m, ds[k]))
  {
    var d := ds[k];
    var m' := AddToGroup(m, d);
    WithServiceStep(ds, k);
    ServiceIdsStep(ds, k);
    assert m'.Keys == m.Keys + {d.service_id};
    forall sid | sid in m'
      ensures m'[sid] == WithService(ds[..k + 1], sid)
    {
      if sid != d.service_id {
        assert sid in m;
      }
    }
  }

  /** The grouping loop: a map from each service id that occurs to its calendar dates,
      in backend order. */
  method GroupByServiceId(ds: seq<BackendCalendarDate>) returns (m: map<string, seq<BackendCalendarDate>>)
    ensures m.Keys == ServiceIds(ds, |ds|)
    ensures forall sid :: sid in m ==> m[sid] == WithService(ds, sid)
    ensures forall sid :: sid !in m ==> WithService(ds, sid) == []
  {
    m := map[];
    var k := 0;
    while k < |ds|
      invariant 0 <= k <= |ds|
      invariant Grouped(ds, k, m)
    {
      GroupStep(ds, k, m);
      m := AddToGroup(m, ds[k]);
      k := k + 1;
    }
    GroupedAll(ds, m);
  }

  /** A grouping of the whole scanned input is the grouping of the input. */
  lemma GroupedAll(ds: seq<BackendCalendarDate>, m: map<string, seq<BackendCalendarDate>>)
    requires Grouped(ds, |ds|, m)
    ensures m.Keys == ServiceIds(ds, |ds|)
    ensures forall sid :: sid in m ==> m[sid] == WithService(ds, sid)
    ensures forall sid :: sid !in m ==> WithService(ds, sid) == []
  {
    assert ds[..|ds|] == ds;
  }

  /** Extending the scanned prefix by one date extends only that date's group. */
  lemma WithServiceStep(ds: seq<BackendCalendarDate>, k: nat)
    requires k < |ds|
    ensures forall sid ::
      WithService(ds[..k + 1], sid) == WithService(ds[..k], sid) + (if ds[k].service_id == sid then [ds[k]] else [])
  {
    assert ds[..k + 1][..k] == ds[..k];
  }

  /** `calendarDatesMap.get(sid) || []`. */
  function Lookup(m: map<string, seq<BackendCalendarDate>>, sid: string): seq<BackendCalendarDate> {
    if sid in m then m[sid] else []
  }

  /** One exception entry: id `<service>-<date>-<position>`, date reformatted, and the
      exception type as decimal text. */
  function ExceptionFromDate(sid: string, ex: BackendCalendarDate, idx: nat): (e: ExceptionDate)
    ensures e.id.value == sid + "-" + ex.date + "-" + Numerals.NatToString(idx)
    ensures e.date.value == FormatDateForInput(ex.date)
    ensures e.kind.value == Numerals.IntToString(ex.exception_type)
    ensures Numerals.ParseInt(e.kind.value) == Some(ex.exception_type)
    ensures e.id.error.None? && e.date.error.None? && e.kind.error.None?
  {
    Numerals.ParseIntOfIntToString(ex.exception_type);
    ExceptionDate(Field(sid + "-" + ex.date + "-" + Numerals.NatToString(idx), None),
                  Field(FormatDateForInput(ex.date), None),
                  Field(Numerals.IntToString(ex.exception_type), None))
  }

  /** One calendar: weekday flags ordered from Sunday, each set exactly when the backend
      field is 1; dates reformatted; one exception per calendar date given, in order. */
  function CalendarFromBackend(b: BackendCalendar, exs: seq<BackendCalendarDate>): (c: Calendar)
    ensures c.id.value == b.service_id
    ensures |c.days| == 7
    ensures (c.days[0] <==> b.sunday == 1) && (c.days[1] <==> b.monday == 1)
    ensures (c.days[2] <==> b.tuesday == 1) && (c.days[3] <==> b.wednesday == 1)
    ensures (c.days[4] <==> b.thursday == 1) && (c.days[5] <==> b.friday == 1)
    ensures (c.days[6] <==> b.saturday == 1)
    ensures c.startDate.value == FormatDateForInput(b.start_date)
    ensures c.endDate.value == FormatDateForInput(b.end_date)
    ensures c.exception == |c.exceptions| == |exs|
    ensures forall i :: 0 <= i < |exs| ==> c.exceptions[i] == ExceptionFromDate(b.service_id, exs[i], i)
  {
    var days := [b.sunday == 1, b.monday == 1, b.tuesday == 1, b.wednesday == 1,
                 b.thursday == 1, b.friday == 1, b.saturday == 1];
    var exceptions := seq(|exs|, i requires 0 <= i < |exs| => ExceptionFromDate(b.service_id, exs[i], i));
    Calendar(Field(b.service_id, None),
             Field(FormatDateForInput(b.start_date), None),
             Field(FormatDateForInput(b.end_date), None),
             days, |exceptions|, exceptions)
  }

  /** The loader's conversion: each calendar receives exactly the calendar dates with its
      service id, in backend order. */
  method LoadCalendars(bcs: seq<BackendCalendar>, dates: seq<BackendCalendarDate>) returns (cs: seq<Calendar>)
    ensures |cs| == |bcs|
    ensures forall i :: 0 <= i < |bcs| ==>
      cs[i] == CalendarFromBackend(bcs[i], WithService(dates, bcs[i].service_id))
  {
    var groups := GroupByServiceId(dates);
    cs := seq(|bcs|, i requires 0 <= i < |bcs| => CalendarFromBackend(bcs[i], Lookup(groups, bcs[i].service_id)));
  }

  /** Stripping the dashes from a reformatted date gives the stored `YYYYMMDD` back. */
  lemma DateRoundTrip(s: string)
    requires |s| == 8
    ensures var r := FormatDateForInput(s); r[..4] + r[5..7] + r[8..] == s
  {
  }
}
