/** Which database sessions the padded baseline is right for: `Compute` of
  `internal/stats/baseline.go` groups by `date_trunc`, which goes by the session's clock. */
module SessionClock {
  import opened Outcomes
  import opened Models
  import opened Ordering
  import opened Lists
  import opened Stats
  import opened HourlyCounts
  import opened Baseline

  /** `b` is what the code makes of what Postgres may answer in a session at this offset. */
  ghost predicate Computes(b: BaselineStats, groups: seq<HourCount>, rows: seq<HourShare>, table: seq<Mention>, labels: Labels,
                           brand: string, days: int, now: int, zone: int) {
    var w := WindowFor(brand, days, now);
    && IsHourlyCount(groups, table, w, zone) && IsShareQuery(rows, table, w, labels, zone) && IsMeanRating(b.meanRating, table, w)
    && Summarises(b, groups, rows, b.meanRating, days)
  }

  // ---------------------------------------------------------------- a window with one hour too many

  const SOURCE := "reddit"

  lemma {:induction false} CountsOnce<T>(p: T -> bool, s: seq<T>, k: nat)
    requires k < |s| && forall j :: 0 <= j < |s| ==> (p(s[j]) <==> j == k)
    ensures CountIf(p, s) == 1
  {
    var rest := s[..|s| - 1];
    if k == |s| - 1 {
      CountIfPositive(p, rest);
    } else {
      CountsOnce(p, rest, k);
    }
  }

  lemma NeverCounts<T>(p: T -> bool, s: seq<T>)
    requires forall j :: 0 <= j < |s| ==> !p(s[j])
    ensures CountIf(p, s) == 0
  {
    CountIfPositive(p, s);
  }

  /** Mention `k` of `OnEveryHour` is in session hour `k` of the window. */
  lemma OneInEveryHour(w: Window, zone: int, hours: nat, k: nat)
    requires w.start % HOUR == 0 && w.end - w.start == hours * HOUR && zone % HOUR != 0 && k <= hours && hours > 0
    ensures var m := OnEveryHour(w, SOURCE, zone, hours)[k];
      Counts(w, m) && m.source == SOURCE && m.rating.None? && HourAt(m.postedAt, zone) == HourAt(w.start, zone) + k
  {
    var q, o, s := zone / HOUR, zone % HOUR, w.start / HOUR;
    assert zone == q * HOUR + o && w.start == s * HOUR && 0 < o < HOUR;
    HourOfSum(s + q, o);
    HourOfSum(s + q + k, 0);
    var m := OnEveryHour(w, SOURCE, zone, hours)[k];
    if k > 0 {
      assert m.postedAt == w.start + HOUR - o + (k - 1) * HOUR;
      assert m.postedAt + zone == (s + q + k) * HOUR;
    }
  }

  /** The rows of the hourly count: one mention in each of `n` hours from `h` on. */
  function OneEach(h: int, n: nat): (groups: seq<HourCount>)
    ensures |groups| == n && forall k :: 0 <= k < n ==> groups[k] == HourCount(SOURCE, h + k, 1)
  {
    seq(n, k requires 0 <= k < n => HourCount(SOURCE, h + k, 1))
  }

  lemma OneEachIsHourlyCount(w: Window, zone: int, hours: nat)
    requires w.start % HOUR == 0 && w.end - w.start == hours * HOUR && zone % HOUR != 0 && hours > 0
    ensures IsHourlyCount(OneEach(HourAt(w.start, zone), hours + 1), OnEveryHour(w, SOURCE, zone, hours), w, zone)
  {
    var h0, table := HourAt(w.start, zone), OnEveryHour(w, SOURCE, zone, hours);
    var groups := OneEach(h0, hours + 1);
    forall k: nat | k <= hours
      ensures Counts(w, table[k]) && table[k].source == SOURCE && HourAt(table[k].postedAt, zone) == h0 + k
    {
      OneInEveryHour(w, zone, hours, k);
    }
    forall k | 0 <= k < |groups| ensures groups[k].count == CountInHour(table, w, groups[k].source, zone, groups[k].hour) > 0 {
      CountsOnce(InHour(w, SOURCE, zone, h0 + k), table, k);
    }
    forall source, h | CountInHour(table, w, source, zone, h) > 0 ensures Grouped(groups, source, h) {
      CountIfPositive(InHour(w, source, zone, h), table);
      var k :| 0 <= k < |table| && InHour(w, source, zone, h)(table[k]);
      assert groups[k].source == source && groups[k].hour == h;
    }
  }

  function Ones(n: nat): (ones: seq<real>)
    ensures |ones| == n && forall k :: 0 <= k < n ==> ones[k] == 1.0
  {
    seq(n, k => 1.0)
  }

  lemma OneMoreOne(n: nat)
    requires n > 0
    ensures Ones(n) == Ones(n - 1) + [1.0] && Ones(n)[..n - 1] == Ones(n - 1)
  {
  }

  lemma {:induction false} CountsOfOneEach(h: int, n: nat, source: string)
    ensures CountsOf(OneEach(h, n), source) == if source == SOURCE then Ones(n) else []
  {
    if n > 0 {
      CountsOfOneEach(h, n - 1, source);
      assert OneEach(h, n)[..n - 1] == OneEach(h, n - 1);
      OneMoreOne(n);
    }
  }

  lemma {:induction false} SumOfOnes(n: nat)
    ensures SumOf(Itself, Ones(n)) == n as real
  {
    if n > 0 {
      SumOfOnes(n - 1);
      OneMoreOne(n);
    }
  }

  lemma OnesAreFlat(n: nat)
    requires n > 0
    ensures IsMeanAndStd(Ones(n), 1.0, 0.0)
  {
    SumOfOnes(n);
    NoSquaredError(Ones(n), 1.0);
  }

  /** What the code computes from these rows. */
  function Flat(days: int): BaselineStats {
    BaselineStats(map[SOURCE := 1.0], map[SOURCE := 0.0], 0.0, 0.0, None, days)
  }

  lemma OnesSummarise(b: BaselineStats, groups: seq<HourCount>, ones: seq<real>, days: int)
    requires days > 0 && b == Flat(days) && |ones| == HoursIn(days) + 1 && IsMeanAndStd(ones, 1.0, 0.0)
    requires forall source :: CountsOf(groups, source) == if source == SOURCE then ones else []
    ensures Summarises(b, groups, [], None, days)
  {
    assert Padded(ones, HoursIn(days)) == ones;
    assert SharesOf([]) == [];
  }

  lemma FlatSummarises(h: int, days: int)
    requires days > 0
    ensures Summarises(Flat(days), OneEach(h, HoursIn(days) + 1), [], None, days)
  {
    FlatOver(h, days, HoursIn(days) + 1, OneEach(h, HoursIn(days) + 1), Ones(HoursIn(days) + 1));
  }

  lemma FlatOver(h: int, days: int, n: nat, groups: seq<HourCount>, ones: seq<real>)
    requires days > 0 && n == HoursIn(days) + 1 && groups == OneEach(h, n) && ones == Ones(n)
    ensures Summarises(Flat(days), groups, [], None, days)
  {
    forall source ensures CountsOf(groups, source) == if source == SOURCE then ones else [] {
      CountsOfOneEach(h, n, source);
    }
    OnesAreFlat(n);
    OnesSummarise(Flat(days), groups, ones, days);
  }

  lemma FlatIsNoBaseline(brand: string, days: int, now: int, table: seq<Mention>, labels: Labels)
    requires days > 0 && CountIf(InWindow(WindowFor(brand, days, now), SOURCE), table) == HoursIn(days) + 1
    ensures !IsBaseline(Flat(days), table, labels, brand, days, now)
  {
    var w, hours := WindowFor(brand, days, now), HoursIn(days);
    if IsPerSource(Flat(days), table, w, hours) {
      assert SOURCE in Flat(days).mean;
      MeanIsCountPerHour(table, w, SOURCE, hours, 1.0, 0.0);
      assert false;
    }
  }

  /** Nothing is labelled and nothing is rated. */
  lemma NothingElse(w: Window, zone: int, hours: nat)
    requires w.start % HOUR == 0 && w.end - w.start == hours * HOUR && zone % HOUR != 0 && hours > 0
    ensures IsShareQuery([], OnEveryHour(w, SOURCE, zone, hours), w, map[], zone)
    ensures IsMeanRating(None, OnEveryHour(w, SOURCE, zone, hours), w)
  {
    var table := OnEveryHour(w, SOURCE, zone, hours);
    forall k: nat | k <= hours ensures table[k].rating.None? {
      OneInEveryHour(w, zone, hours, k);
    }
    NeverCounts(Rated(w), table);
    forall h ensures !Measured(table, w, map[], zone)(h) {
      NeverCounts(Enriched(w, map[], zone, h), table);
    }
  }

  lemma AllInWindow(w: Window, zone: int, hours: nat)
    requires w.start % HOUR == 0 && w.end - w.start == hours * HOUR && zone % HOUR != 0 && hours > 0
    ensures CountIf(InWindow(w, SOURCE), OnEveryHour(w, SOURCE, zone, hours)) == hours + 1
  {
    var table := OnEveryHour(w, SOURCE, zone, hours);
    forall k: nat | k <= hours ensures InWindow(w, SOURCE)(table[k]) {
      OneInEveryHour(w, zone, hours, k);
    }
    CountIfAll(InWindow(w, SOURCE), table);
  }

  lemma TooBusy(w: Window, zone: int, days: int, hours: nat) returns (groups: seq<HourCount>, table: seq<Mention>)
    requires w.start % HOUR == 0 && w.end - w.start == hours * HOUR && zone % HOUR != 0 && hours == HoursIn(days) > 0
    ensures IsHourlyCount(groups, table, w, zone) && Summarises(Flat(days), groups, [], None, days)
    ensures IsShareQuery([], table, w, map[], zone) && IsMeanRating(None, table, w)
    ensures CountIf(InWindow(w, SOURCE), table) == hours + 1
  {
    var h := HourAt(w.start, zone);
    table, groups := OnEveryHour(w, SOURCE, zone, hours), OneEach(h, hours + 1);
    OneEachIsHourlyCount(w, zone, hours);
    NothingElse(w, zone, hours);
    AllInWindow(w, zone, hours);
    FlatSummarises(h, days);
  }

  /** A window of n hours with n + 1 busy session hours of one mention each: the code finds a
      mean of 1, where there are n + 1 mentions in n hours. */
  lemma OneHourTooMany(brand: string, days: int, now: int, zone: int) returns (groups: seq<HourCount>, table: seq<Mention>)
    requires days > 0 && zone % HOUR != 0
    ensures Computes(Flat(days), groups, [], table, map[], brand, days, now, zone)
    ensures !IsBaseline(Flat(days), table, map[], brand, days, now)
  {
    groups, table := TooBusy(WindowFor(brand, days, now), zone, days, HoursIn(days));
    FlatIsNoBaseline(brand, days, now, table, map[]);
  }

  /** Exactly when the padded computation gives the baseline over all the hours of its window,
      for every table, every labelling and every order in which Postgres may answer: when the
      session keeps time at whole hours from UTC. */
  lemma ComputesBaselineExactlyWhen(brand: string, days: int, now: int, zone: int)
    requires days > 0
    ensures (forall b, groups, rows, table, labels :: Computes(b, groups, rows, table, labels, brand, days, now, zone) ==>
              IsBaseline(b, table, labels, brand, days, now)) <==>
            zone % HOUR == 0
  {
    if zone % HOUR == 0 {
      forall b, groups, rows, table, labels | Computes(b, groups, rows, table, labels, brand, days, now, zone)
        ensures IsBaseline(b, table, labels, brand, days, now)
      {
        SummaryIsBaseline(b, groups, rows, b.meanRating, table, labels, brand, days, now, zone);
      }
    } else {
      var groups, table := OneHourTooMany(brand, days, now, zone);
    }
  }
}
