/** Mentions per source and hour of a window of whole hours: `hourlyCountsPerSource` in
  `internal/stats/baseline.go`.

  A query is modelled by what Postgres may return for it: one row per non-empty group, in any
  order. `zone` is the database session's offset from UTC in seconds, which `date_trunc` goes
  by. */
module HourlyCounts {
  import opened Outcomes
  import opened Models
  import opened Ordering
  import opened Lists

  const HOUR := 3600

  /** What one query asks about. */
  datatype Window = Window(brand: string, start: int, end: int)

  function Truncated(t: int): (hour: int)
    ensures hour <= t < hour + HOUR && hour % HOUR == 0
  {
    t / HOUR * HOUR
  }

  /** `days` days up to the start of the current hour. */
  function WindowFor(brand: string, days: int, now: int): (w: Window)
    ensures w.end <= now && w.end - w.start == HoursIn(days) * HOUR
    ensures w.start % HOUR == 0 && w.end % HOUR == 0
  {
    var end := Truncated(now);
    assert (end - HoursIn(days) * HOUR) % HOUR == 0;
    Window(brand, end - HoursIn(days) * HOUR, end)
  }

  function HoursIn(days: int): int { days * 24 }

  predicate Counts(w: Window, m: Mention) { m.brand == w.brand && w.start <= m.postedAt < w.end }

  // ---------------------------------------------------------------- mentions per hour

  function HourAt(t: int, zone: int): int { (t + zone) / HOUR }

  function InHour(w: Window, source: string, zone: int, h: int): Mention -> bool {
    (m: Mention) => Counts(w, m) && m.source == source && HourAt(m.postedAt, zone) == h
  }

  function InWindow(w: Window, source: string): Mention -> bool {
    (m: Mention) => Counts(w, m) && m.source == source
  }

  function CountInHour(table: seq<Mention>, w: Window, source: string, zone: int, h: int): nat {
    CountIf(InHour(w, source, zone, h), table)
  }

  /** A row of the hourly count: `GROUP BY source, date_trunc('hour', posted_at)`. The query
      does not select the hour. */
  datatype HourCount = HourCount(source: string, hour: int, count: nat)

  ghost predicate IsHourlyCount(groups: seq<HourCount>, table: seq<Mention>, w: Window, zone: int) {
    && (forall i, j :: 0 <= i < j < |groups| ==> groups[i].source != groups[j].source || groups[i].hour != groups[j].hour)
    && (forall i :: 0 <= i < |groups| ==> groups[i].count == CountInHour(table, w, groups[i].source, zone, groups[i].hour) > 0)
    && (forall source, h :: CountInHour(table, w, source, zone, h) > 0 ==> Grouped(groups, source, h))
  }

  ghost predicate Grouped(groups: seq<HourCount>, source: string, h: int) {
    exists i :: 0 <= i < |groups| && groups[i].source == source && groups[i].hour == h
  }

  function HoursOf(groups: seq<HourCount>, source: string): seq<int> {
    if |groups| == 0 then [] else
      var last := groups[|groups| - 1];
      HoursOf(groups[..|groups| - 1], source) + (if last.source == source then [last.hour] else [])
  }

  function CountsOf(groups: seq<HourCount>, source: string): (counts: seq<real>)
    ensures |counts| == |HoursOf(groups, source)|
  {
    if |groups| == 0 then [] else
      var last := groups[|groups| - 1];
      CountsOf(groups[..|groups| - 1], source) + (if last.source == source then [last.count as real] else [])
  }

  /** The scan loop of `hourlyCountsPerSource`. */
  method HourlyCountsPerSource(groups: seq<HourCount>) returns (counts: map<string, seq<real>>)
    ensures forall s :: (if s in counts then counts[s] else []) == CountsOf(groups, s)
    ensures forall s :: s in counts ==> |counts[s]| > 0
  {
    counts := map[];
    for k := 0 to |groups|
      invariant forall s :: (if s in counts then counts[s] else []) == CountsOf(groups[..k], s)
      invariant forall s :: s in counts ==> |counts[s]| > 0
    {
      assert groups[..k + 1][..k] == groups[..k];
      var source := groups[k].source;
      var sofar := if source in counts then counts[source] else [];
      counts := counts[source := sofar + [groups[k].count as real]];
    }
    assert groups[..|groups|] == groups;
  }

  lemma {:induction false} HoursOfElements(groups: seq<HourCount>, source: string, h: int)
    ensures h in HoursOf(groups, source) <==> Grouped(groups, source, h)
  {
    if |groups| > 0 {
      var rest := groups[..|groups| - 1];
      HoursOfElements(rest, source, h);
      if Grouped(rest, source, h) {
        var i :| 0 <= i < |rest| && rest[i].source == source && rest[i].hour == h;
        assert groups[i] == rest[i];
      }
    }
  }

  lemma {:induction false} HoursOfDistinct(groups: seq<HourCount>, source: string)
    requires forall i, j :: 0 <= i < j < |groups| ==> groups[i].source != groups[j].source || groups[i].hour != groups[j].hour
    ensures Distinct(HoursOf(groups, source))
  {
    if |groups| > 0 {
      var rest, last := groups[..|groups| - 1], groups[|groups| - 1];
      HoursOfDistinct(rest, source);
      HoursOfElements(rest, source, last.hour);
    }
  }

  function CountAtHour(table: seq<Mention>, w: Window, source: string, zone: int): int -> real {
    h => CountInHour(table, w, source, zone, h) as real
  }

  lemma {:induction false} CountsAreOfHours(groups: seq<HourCount>, table: seq<Mention>, w: Window, zone: int, source: string)
    requires forall i :: 0 <= i < |groups| ==> groups[i].count == CountInHour(table, w, groups[i].source, zone, groups[i].hour)
    ensures CountsOf(groups, source) == Map(CountAtHour(table, w, source, zone), HoursOf(groups, source))
  {
    if |groups| > 0 {
      CountsAreOfHours(groups[..|groups| - 1], table, w, zone, source);
    }
  }

  // ---------------------------------------------------------------- busy hours fit the window

  ghost predicate Busy(table: seq<Mention>, w: Window, source: string, zone: int, h: int) {
    CountInHour(table, w, source, zone, h) > 0
  }

  lemma BusyHourIsInWindow(table: seq<Mention>, w: Window, source: string, zone: int, h: int)
    requires Busy(table, w, source, zone, h)
    ensures HourAt(w.start, zone) <= h <= HourAt(w.end - 1, zone)
  {
    CountIfPositive(InHour(w, source, zone, h), table);
    var k :| 0 <= k < |table| && InHour(w, source, zone, h)(table[k]);
    var t := table[k].postedAt;
    assert w.start <= t <= w.end - 1 && HourAt(t, zone) == h;
  }

  /** The hours that a window of whole hours touches. */
  function HoursTouched(hours: nat, zone: int): nat {
    if zone % HOUR == 0 || hours == 0 then hours else hours + 1
  }

  lemma WindowTouches(w: Window, hours: nat, zone: int)
    requires w.start % HOUR == 0 && w.end - w.start == hours * HOUR && hours > 0
    ensures HourAt(w.end - 1, zone) - HourAt(w.start, zone) + 1 == HoursTouched(hours, zone)
  {
    var q, o := zone / HOUR, zone % HOUR;
    assert zone == q * HOUR + o && 0 <= o < HOUR;
    var s := w.start / HOUR;
    assert w.start == s * HOUR;
    HourOfSum(s + q, o);
    assert HourAt(w.start, zone) == s + q;
    if o == 0 {
      HourOfSum(s + q + hours - 1, HOUR - 1);
    } else {
      HourOfSum(s + q + hours, o - 1);
    }
  }

  lemma HourOfSum(h: int, rest: int)
    requires 0 <= rest < HOUR
    ensures (h * HOUR + rest) / HOUR == h
  {
  }

  /** The busy hours and the quiet ones make up the hours of the window. */
  lemma BusyAndQuiet(groups: seq<HourCount>, table: seq<Mention>, w: Window, zone: int, source: string, hours: nat)
    returns (quiet: seq<int>)
    requires IsHourlyCount(groups, table, w, zone)
    requires w.start % HOUR == 0 && w.end - w.start == hours * HOUR && hours > 0
    ensures multiset(HoursOf(groups, source) + quiet) == multiset(Range(HourAt(w.start, zone), HoursTouched(hours, zone)))
    ensures forall k :: 0 <= k < |quiet| ==> CountInHour(table, w, source, zone, quiet[k]) == 0
  {
    var all := Range(HourAt(w.start, zone), HoursTouched(hours, zone));
    var isQuiet := (h: int) => CountInHour(table, w, source, zone, h) == 0;
    quiet := Filter(isQuiet, all);
    var busy := HoursOf(groups, source);
    HoursOfDistinct(groups, source);
    FilterDistinct(isQuiet, all);
    WindowTouches(w, hours, zone);
    forall h ensures h in busy <==> Busy(table, w, source, zone, h) { BusyWhenGrouped(groups, table, w, zone, source, h); }
    forall h ensures h in quiet <==> h in all && !Busy(table, w, source, zone, h) { FilterElements(isQuiet, all, h); }
    forall h | h in busy ensures h in all { BusyHourIsInWindow(table, w, source, zone, h); }
    JoinedDistinct(busy, quiet);
    DistinctElements(busy + quiet, all);
    forall k | 0 <= k < |quiet| ensures CountInHour(table, w, source, zone, quiet[k]) == 0 {
      var h := quiet[k];
      assert h in quiet;
    }
  }

  lemma BusyWhenGrouped(groups: seq<HourCount>, table: seq<Mention>, w: Window, zone: int, source: string, h: int)
    requires IsHourlyCount(groups, table, w, zone)
    ensures h in HoursOf(groups, source) <==> Busy(table, w, source, zone, h)
  {
    HoursOfElements(groups, source, h);
  }

  /** A mention of one source at one time. */
  function At(brand: string, source: string, t: int): Mention {
    Mention("", brand, source, "", t, 0, 0, None, "")
  }

  /** One mention at the start of the window and one at the start of each later session hour. */
  function OnEveryHour(w: Window, source: string, zone: int, hours: nat): (table: seq<Mention>)
    ensures |table| == hours + 1
  {
    [At(w.brand, source, w.start)] +
    seq(hours, k requires 0 <= k < hours => At(w.brand, source, w.start + HOUR - zone % HOUR + k * HOUR))
  }

  lemma OnEveryHourIsBusy(w: Window, source: string, zone: int, hours: nat, k: nat)
    requires w.start % HOUR == 0 && w.end - w.start == hours * HOUR && zone % HOUR != 0 && k <= hours && hours > 0
    ensures Busy(OnEveryHour(w, source, zone, hours), w, source, zone, HourAt(w.start, zone) + k)
  {
    var table := OnEveryHour(w, source, zone, hours);
    var q, o, s := zone / HOUR, zone % HOUR, w.start / HOUR;
    assert zone == q * HOUR + o && w.start == s * HOUR && 0 < o < HOUR;
    HourOfSum(s + q, o);
    HourOfSum(s + q + k, 0);
    var m := table[k];
    if k > 0 {
      assert m.postedAt == w.start + HOUR - o + (k - 1) * HOUR;
      assert m.postedAt + zone == (s + q + k) * HOUR;
    }
    assert InHour(w, source, zone, HourAt(w.start, zone) + k)(table[k]);
    CountIfPositive(InHour(w, source, zone, HourAt(w.start, zone) + k), table);
  }

  // ---------------------------------------------------------------- when they fit

  function BusyHours(table: seq<Mention>, w: Window, source: string, zone: int): set<int> {
    set m | m in table && InWindow(w, source)(m) :: HourAt(m.postedAt, zone)
  }

  lemma BusyHoursAreBusy(table: seq<Mention>, w: Window, source: string, zone: int, h: int)
    ensures h in BusyHours(table, w, source, zone) <==> Busy(table, w, source, zone, h)
  {
    CountIfPositive(InHour(w, source, zone, h), table);
    if k :| 0 <= k < |table| && InHour(w, source, zone, h)(table[k]) {
      var m := table[k];
      assert m in table && InWindow(w, source)(m);
    }
    if h in BusyHours(table, w, source, zone) {
      var m :| m in table && InWindow(w, source)(m) && HourAt(m.postedAt, zone) == h;
      var k :| 0 <= k < |table| && table[k] == m;
      assert InHour(w, source, zone, h)(table[k]);
    }
  }

  /** The query returns as many rows for a source as it has busy hours. */
  lemma OneRowPerBusyHour(groups: seq<HourCount>, table: seq<Mention>, w: Window, zone: int, source: string)
    requires IsHourlyCount(groups, table, w, zone)
    ensures |CountsOf(groups, source)| == |BusyHours(table, w, source, zone)|
  {
    HoursOfDistinct(groups, source);
    DistinctSize(HoursOf(groups, source));
    forall h ensures h in ElementSet(HoursOf(groups, source)) <==> h in BusyHours(table, w, source, zone) {
      BusyWhenGrouped(groups, table, w, zone, source, h);
      BusyHoursAreBusy(table, w, source, zone, h);
    }
    assert ElementSet(HoursOf(groups, source)) == BusyHours(table, w, source, zone);
  }

  /** No table has a source busy in more hours than the window holds, exactly when the
      database session keeps time at whole hours from UTC. In a session at a half hour from
      UTC, as India's clock is, a window of n hours can hold n + 1 busy ones. */
  lemma BusyHoursFitExactlyWhen(w: Window, source: string, zone: int, hours: nat)
    requires w.start % HOUR == 0 && w.end - w.start == hours * HOUR && hours > 0
    ensures (forall table: seq<Mention> :: |BusyHours(table, w, source, zone)| <= hours) <==> zone % HOUR == 0
  {
    var all := Range(HourAt(w.start, zone), HoursTouched(hours, zone));
    DistinctSize(all);
    WindowTouches(w, hours, zone);
    forall table: seq<Mention> ensures |BusyHours(table, w, source, zone)| <= HoursTouched(hours, zone) {
      forall h | h in BusyHours(table, w, source, zone) ensures h in ElementSet(all) {
        BusyHoursAreBusy(table, w, source, zone, h);
        BusyHourIsInWindow(table, w, source, zone, h);
      }
      SubsetSize(BusyHours(table, w, source, zone), ElementSet(all));
    }
    if zone % HOUR != 0 {
      var table := OnEveryHour(w, source, zone, hours);
      forall h | h in ElementSet(all) ensures h in BusyHours(table, w, source, zone) {
        OnEveryHourIsBusy(w, source, zone, hours, h - HourAt(w.start, zone));
        BusyHoursAreBusy(table, w, source, zone, h);
      }
      SubsetSize(ElementSet(all), BusyHours(table, w, source, zone));
    }
  }
}
