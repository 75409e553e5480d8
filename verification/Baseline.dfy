/** The history that the detector compares the current hour with: `ComputeBaseline` and
  `padWithQuietHours` in `internal/stats/baseline.go`.

  `BaselineStats` is specified over the mention table itself, with one value for every UTC
  hour of the window; the code works on busy hours only, as the database returns them. */
module Baseline {
  import opened Outcomes
  import opened Models
  import opened Ordering
  import opened Roots
  import opened Stats
  import opened Lists
  import opened HourlyCounts

  datatype BaselineStats = BaselineStats(
    mean: map<string, real>, std: map<string, real>, negativeMean: real, negativeStd: real,
    meanRating: Option<real>, days: int)

  function NoBaseline(days: int): BaselineStats { BaselineStats(map[], map[], 0.0, 0.0, None, days) }

  /** The label each enriched mention got, by mention id. */
  type Labels = map<string, Sentiment>

  // ---------------------------------------------------------------- what it should be

  /** One count per UTC hour of the window, quiet hours included. */
  function PerHour(table: seq<Mention>, w: Window, source: string, hours: nat): seq<real> {
    Map(CountAtHour(table, w, source, 0), Range(HourAt(w.start, 0), hours))
  }

  function Enriched(w: Window, labels: Labels, zone: int, h: int): Mention -> bool {
    (m: Mention) => Counts(w, m) && HourAt(m.postedAt, zone) == h && m.id in labels
  }

  function Negative(w: Window, labels: Labels, zone: int, h: int): Mention -> bool {
    (m: Mention) => Counts(w, m) && HourAt(m.postedAt, zone) == h && m.id in labels && labels[m.id] == Sentiment.Negative
  }

  /** The negative part of an hour's enriched mentions. */
  function ShareAt(table: seq<Mention>, w: Window, labels: Labels, zone: int): int -> real {
    h =>
      var total := CountIf(Enriched(w, labels, zone, h), table);
      if total == 0 then 0.0 else Per(CountIf(Negative(w, labels, zone, h), table) as real, total)
  }

  function Measured(table: seq<Mention>, w: Window, labels: Labels, zone: int): int -> bool {
    h => CountIf(Enriched(w, labels, zone, h), table) > 0
  }

  /** One share per UTC hour that has an enriched mention. */
  function HourlyShares(table: seq<Mention>, w: Window, labels: Labels, hours: nat): seq<real> {
    Map(ShareAt(table, w, labels, 0), Filter(Measured(table, w, labels, 0), Range(HourAt(w.start, 0), hours)))
  }

  function Rated(w: Window): Mention -> bool { (m: Mention) => Counts(w, m) && m.rating.Some? }

  function RatingIn(w: Window): Mention -> real {
    (m: Mention) => if Counts(w, m) && m.rating.Some? then m.rating.value else 0.0
  }

  ghost predicate IsAverage(value: real, n: nat, total: real) { value * n as real == total }

  lemma AverageIsDetermined(a: real, b: real, n: nat, total: real)
    requires n > 0 && IsAverage(a, n, total) && IsAverage(b, n, total)
    ensures a == b
  {
    ProductsDetermine(a, b, n as real);
  }

  /** The average of the ratings in the window; none when nothing is rated. */
  ghost predicate IsMeanRating(rating: Option<real>, table: seq<Mention>, w: Window) {
    && (rating.Some? <==> CountIf(Rated(w), table) > 0)
    && (rating.Some? ==> IsAverage(rating.value, CountIf(Rated(w), table), SumOf(RatingIn(w), table)))
  }

  ghost predicate IsBaseline(b: BaselineStats, table: seq<Mention>, labels: Labels, brand: string, days: int, now: int) {
    if days <= 0 then b == NoBaseline(days)
    else
      var w, hours := WindowFor(brand, days, now), HoursIn(days);
      && b.days == days && IsMeanRating(b.meanRating, table, w)
      && IsMeanAndStd(HourlyShares(table, w, labels, hours), b.negativeMean, b.negativeStd)
      && IsPerSource(b, table, w, hours)
  }

  ghost predicate IsPerSource(b: BaselineStats, table: seq<Mention>, w: Window, hours: nat) {
    && b.mean.Keys == b.std.Keys
    && (forall s :: s in b.mean <==> CountIf(InWindow(w, s), table) > 0)
    && forall s :: s in b.mean ==> IsMeanAndStd(PerHour(table, w, s, hours), b.mean[s], b.std[s])
  }

  // ---------------------------------------------------------------- what the code does

  function Padded(busy: seq<real>, hours: int): (padded: seq<real>)
    ensures |padded| >= hours && busy <= padded
  {
    if |busy| >= hours then busy else busy + seq(hours - |busy|, _ => 0.0)
  }

  /** A row of the hourly share query. */
  datatype HourShare = HourShare(hour: int, share: real)

  function ShareHours(rows: seq<HourShare>): seq<int> { Map((r: HourShare) => r.hour, rows) }

  function SharesOf(rows: seq<HourShare>): seq<real> { Map((r: HourShare) => r.share, rows) }

  ghost predicate IsShareQuery(rows: seq<HourShare>, table: seq<Mention>, w: Window, labels: Labels, zone: int) {
    && Distinct(ShareHours(rows))
    && (forall k :: 0 <= k < |rows| ==> rows[k].share == ShareAt(table, w, labels, zone)(rows[k].hour))
    && (forall h :: h in ShareHours(rows) <==> Measured(table, w, labels, zone)(h))
  }

  /** What the query results say, with the padding the code does. */
  ghost predicate Summarises(b: BaselineStats, groups: seq<HourCount>, rows: seq<HourShare>, rating: Option<real>, days: int) {
    && b.days == days && b.meanRating == rating
    && IsMeanAndStd(SharesOf(rows), b.negativeMean, b.negativeStd)
    && b.mean.Keys == b.std.Keys
    && (forall s :: s in b.mean <==> |CountsOf(groups, s)| > 0)
    && forall s :: s in b.mean ==> IsMeanAndStd(Padded(CountsOf(groups, s), HoursIn(days)), b.mean[s], b.std[s])
  }

  method ComputeBaseline(groups: seq<HourCount>, rows: seq<HourShare>, rating: Option<real>, days: int, sqrt: real -> real)
    returns (b: BaselineStats)
    requires IsSqrt(sqrt)
    ensures days <= 0 ==> b.mean.Keys == b.std.Keys == {} && b.negativeMean == b.negativeStd == 0.0 && b.meanRating.None? && b.days == days
    ensures days > 0 ==> Summarises(b, groups, rows, rating, days)
  {
    if days <= 0 {
      return NoBaseline(days);
    }
    var counts := HourlyCountsPerSource(groups);
    var means, stds: map<string, real> := map[], map[];
    var todo := counts.Keys;
    while todo != {}
      invariant todo <= counts.Keys
      invariant means.Keys == stds.Keys == counts.Keys - todo
      invariant forall s :: s in means ==> IsMeanAndStd(Padded(counts[s], HoursIn(days)), means[s], stds[s])
      decreases todo
    {
      var source :| source in todo;
      var mean, std := MeanAndStd(Padded(counts[source], HoursIn(days)), sqrt);
      means, stds := means[source := mean], stds[source := std];
      todo := todo - {source};
    }
    var negativeMean, negativeStd := MeanAndStd(SharesOf(rows), sqrt);
    b := BaselineStats(means, stds, negativeMean, negativeStd, rating, days);
  }

  // ---------------------------------------------------------------- the code meets the specification

  lemma AlignedHour(t: int, zone: int)
    requires zone % HOUR == 0
    ensures HourAt(t, zone) == HourAt(t, 0) + zone / HOUR
  {
    HourOfSum(t / HOUR + zone / HOUR, t % HOUR);
    assert t + zone == (t / HOUR + zone / HOUR) * HOUR + t % HOUR;
  }

  /** A session at whole hours from UTC counts UTC hours, under other numbers. */
  lemma AlignedCount(table: seq<Mention>, w: Window, source: string, zone: int, h: int)
    requires zone % HOUR == 0
    ensures CountInHour(table, w, source, zone, h + zone / HOUR) == CountInHour(table, w, source, 0, h)
  {
    forall k | 0 <= k < |table|
      ensures InHour(w, source, zone, h + zone / HOUR)(table[k]) == InHour(w, source, 0, h)(table[k])
    {
      AlignedHour(table[k].postedAt, zone);
    }
    CountIfSame(InHour(w, source, zone, h + zone / HOUR), InHour(w, source, 0, h), table);
  }

  lemma PerHourInSession(table: seq<Mention>, w: Window, source: string, zone: int, hours: nat)
    requires zone % HOUR == 0
    ensures Map(CountAtHour(table, w, source, zone), Range(HourAt(w.start, zone), hours)) == PerHour(table, w, source, hours)
  {
    AlignedHour(w.start, zone);
    var inSession, inUtc := Range(HourAt(w.start, zone), hours), Range(HourAt(w.start, 0), hours);
    forall i | 0 <= i < hours
      ensures CountAtHour(table, w, source, zone)(inSession[i]) == CountAtHour(table, w, source, 0)(inUtc[i])
    {
      AlignedCount(table, w, source, zone, HourAt(w.start, 0) + i);
    }
  }

  lemma QuietHoursAreZero(table: seq<Mention>, w: Window, source: string, zone: int, quiet: seq<int>)
    requires forall k :: 0 <= k < |quiet| ==> CountInHour(table, w, source, zone, quiet[k]) == 0
    ensures Map(CountAtHour(table, w, source, zone), quiet) == seq(|quiet|, _ => 0.0)
  {
  }

  lemma MapConcat<T, U>(f: T -> U, a: seq<T>, b: seq<T>)
    ensures Map(f, a + b) == Map(f, a) + Map(f, b)
  {
  }

  /** The padded list has exactly the values of the hours of the window, in another order. */
  lemma PaddedIsPerHour(groups: seq<HourCount>, table: seq<Mention>, w: Window, zone: int, source: string, hours: nat)
    requires IsHourlyCount(groups, table, w, zone) && zone % HOUR == 0
    requires w.start % HOUR == 0 && w.end - w.start == hours * HOUR && hours > 0
    ensures multiset(Padded(CountsOf(groups, source), hours)) == multiset(PerHour(table, w, source, hours))
  {
    var f := CountAtHour(table, w, source, zone);
    var busy, all := HoursOf(groups, source), Range(HourAt(w.start, zone), hours);
    var quiet := BusyAndQuiet(groups, table, w, zone, source, hours);
    SameElements(busy + quiet, all);
    MapPermutation(f, busy + quiet, all);
    MapConcat(f, busy, quiet);
    CountsAreOfHours(groups, table, w, zone, source);
    QuietHoursAreZero(table, w, source, zone, quiet);
    PerHourInSession(table, w, source, zone, hours);
    assert Padded(CountsOf(groups, source), hours) == CountsOf(groups, source) + seq(|quiet|, _ => 0.0);
  }

  lemma {:induction false} CountOverHours(table: seq<Mention>, w: Window, source: string, h: int, n: nat)
    ensures SumOf(Itself, Map(CountAtHour(table, w, source, 0), Range(h, n))) == CountIf(InHours(w, source, h, n), table) as real
  {
    var f := CountAtHour(table, w, source, 0);
    if n == 0 {
      CountIfPositive(InHours(w, source, h, 0), table);
    } else {
      CountOverHours(table, w, source, h, n - 1);
      assert Map(f, Range(h, n))[..n - 1] == Map(f, Range(h, n - 1));
      CountIfSplits(InHours(w, source, h, n - 1), InHour(w, source, 0, h + n - 1), InHours(w, source, h, n), table);
    }
  }

  function InHours(w: Window, source: string, h: int, n: nat): Mention -> bool {
    (m: Mention) => Counts(w, m) && m.source == source && h <= HourAt(m.postedAt, 0) < h + n
  }

  lemma HoursCoverWindow(table: seq<Mention>, w: Window, source: string, hours: nat)
    requires w.start % HOUR == 0 && w.end - w.start == hours * HOUR && hours > 0
    ensures CountIf(InHours(w, source, HourAt(w.start, 0), hours), table) == CountIf(InWindow(w, source), table)
  {
    CountIfSame(InHours(w, source, HourAt(w.start, 0), hours), InWindow(w, source), table);
  }

  /** The mean is the number of mentions over the number of hours, busy or not. */
  lemma MeanIsCountPerHour(table: seq<Mention>, w: Window, source: string, hours: nat, mean: real, std: real)
    requires w.start % HOUR == 0 && w.end - w.start == hours * HOUR && hours > 0
    requires IsMeanAndStd(PerHour(table, w, source, hours), mean, std)
    ensures mean * hours as real == CountIf(InWindow(w, source), table) as real
  {
    HoursCoverWindow(table, w, source, hours);
    CountOverHours(table, w, source, HourAt(w.start, 0), hours);
    MeanTimesLength(PerHour(table, w, source, hours), mean, std, hours);
  }

  lemma MeanTimesLength(values: seq<real>, mean: real, std: real, n: nat)
    requires IsMeanAndStd(values, mean, std) && |values| == n > 0
    ensures mean * n as real == SumOf(Itself, values)
  {
  }

  lemma AlignedEnriched(table: seq<Mention>, w: Window, labels: Labels, zone: int, h: int)
    requires zone % HOUR == 0
    ensures CountIf(Enriched(w, labels, zone, h + zone / HOUR), table) == CountIf(Enriched(w, labels, 0, h), table)
    ensures CountIf(Negative(w, labels, zone, h + zone / HOUR), table) == CountIf(Negative(w, labels, 0, h), table)
  {
    forall k | 0 <= k < |table| ensures HourAt(table[k].postedAt, zone) == HourAt(table[k].postedAt, 0) + zone / HOUR {
      AlignedHour(table[k].postedAt, zone);
    }
    CountIfSame(Enriched(w, labels, zone, h + zone / HOUR), Enriched(w, labels, 0, h), table);
    CountIfSame(Negative(w, labels, zone, h + zone / HOUR), Negative(w, labels, 0, h), table);
  }

  function OneKept<U>(f: int -> U, p: int -> bool, x: int): seq<U> { if p(x) then [f(x)] else [] }

  lemma RangeMapFilterLast<U>(f: int -> U, p: int -> bool, h: int, n: nat)
    requires n > 0
    ensures Map(f, Filter(p, Range(h, n))) == Map(f, Filter(p, Range(h, n - 1))) + OneKept(f, p, h + n - 1)
  {
    assert Range(h, n)[..n - 1] == Range(h, n - 1);
  }

  lemma ShareInSession(table: seq<Mention>, w: Window, labels: Labels, zone: int, h: int)
    requires zone % HOUR == 0
    ensures ShareAt(table, w, labels, zone)(h + zone / HOUR) == ShareAt(table, w, labels, 0)(h)
    ensures Measured(table, w, labels, zone)(h + zone / HOUR) == Measured(table, w, labels, 0)(h)
  {
    AlignedEnriched(table, w, labels, zone, h);
  }

  ghost predicate Shifted<U(!new)>(f: int -> U, g: int -> U, shift: int) {
    forall x :: f(x + shift) == g(x)
  }

  lemma ShiftedAt<U(!new)>(f: int -> U, g: int -> U, shift: int, x: int, y: int)
    requires Shifted(f, g, shift) && y == x + shift
    ensures f(y) == g(x)
  {
    assert f(x + shift) == g(x);
  }

  ghost predicate Steps<U(!new)>(a: nat -> seq<U>, one: nat -> seq<U>) {
    a(0) == [] && forall k: nat :: a(k + 1) == a(k) + one(k)
  }

  lemma OneStep<U(!new)>(a: nat -> seq<U>, one: nat -> seq<U>, k: nat, n: nat)
    requires Steps(a, one) && n == k + 1
    ensures a(n) == a(k) + one(k)
  {
    assert a(k + 1) == a(k) + one(k);
  }

  lemma {:induction false} SameSteps<U(!new)>(a: nat -> seq<U>, b: nat -> seq<U>, one: nat -> seq<U>, n: nat)
    requires Steps(a, one) && Steps(b, one)
    ensures a(n) == b(n)
  {
    if n > 0 {
      SameSteps(a, b, one, n - 1);
      OneStep(a, one, n - 1, n);
      OneStep(b, one, n - 1, n);
    }
  }

  function KeptOf<U>(f: int -> U, p: int -> bool, h: int): nat -> seq<U> { (k: nat) => Map(f, Filter(p, Range(h, k))) }

  function EachKept<U>(f: int -> U, p: int -> bool, h: int): nat -> seq<U> { (k: nat) => OneKept(f, p, h + k) }

  /** Kept one after another, whatever the steps are called. */
  lemma KeptSteps<U(!new)>(f: int -> U, p: int -> bool, h: int, one: nat -> seq<U>)
    requires forall k: nat :: one(k) == OneKept(f, p, h + k)
    ensures Steps(KeptOf(f, p, h), one)
  {
    var a := KeptOf(f, p, h);
    forall k: nat ensures a(k + 1) == a(k) + one(k) {
      RangeMapFilterLast(f, p, h, k + 1);
    }
  }

  lemma ShiftedKept<U(!new)>(f: int -> U, p: int -> bool, g: int -> U, q: int -> bool, shift: int, x: int, y: int)
    requires Shifted(f, g, shift) && Shifted(p, q, shift) && y == x + shift
    ensures OneKept(f, p, y) == OneKept(g, q, x)
  {
    ShiftedAt(f, g, shift, x, y);
    ShiftedAt(p, q, shift, x, y);
  }

  lemma ShiftedEach<U(!new)>(f: int -> U, p: int -> bool, g: int -> U, q: int -> bool, shift: int, h: int, later: int, one: nat -> seq<U>)
    requires Shifted(f, g, shift) && Shifted(p, q, shift) && later == h + shift && one == EachKept(g, q, h)
    ensures forall k: nat :: one(k) == OneKept(f, p, later + k)
  {
    forall k: nat ensures one(k) == OneKept(f, p, later + k) {
      ShiftedKept(f, p, g, q, shift, h + k, later + k);
    }
  }

  lemma ShiftedMapFilter<U(!new)>(f: int -> U, p: int -> bool, g: int -> U, q: int -> bool, shift: int, h: int, n: nat)
    requires Shifted(f, g, shift) && Shifted(p, q, shift)
    ensures Map(f, Filter(p, Range(h + shift, n))) == Map(g, Filter(q, Range(h, n)))
  {
    var one := EachKept(g, q, h);
    ShiftedEach(f, p, g, q, shift, h, h + shift, one);
    KeptSteps(f, p, h + shift, one);
    KeptSteps(g, q, h, one);
    SameSteps(KeptOf(f, p, h + shift), KeptOf(g, q, h), one, n);
  }

  lemma SharesInSession(table: seq<Mention>, w: Window, labels: Labels, zone: int, h: int, n: nat)
    requires zone % HOUR == 0
    ensures Map(ShareAt(table, w, labels, zone), Filter(Measured(table, w, labels, zone), Range(h + zone / HOUR, n))) ==
            Map(ShareAt(table, w, labels, 0), Filter(Measured(table, w, labels, 0), Range(h, n)))
  {
    var f, p, g, q := ShareAt(table, w, labels, zone), Measured(table, w, labels, zone), ShareAt(table, w, labels, 0), Measured(table, w, labels, 0);
    forall x ensures f(x + zone / HOUR) == g(x) && p(x + zone / HOUR) == q(x) {
      ShareInSession(table, w, labels, zone, x);
    }
    ShiftedMapFilter(f, p, g, q, zone / HOUR, h, n);
  }

  lemma MeasuredHourIsInWindow(table: seq<Mention>, w: Window, labels: Labels, zone: int, h: int)
    requires Measured(table, w, labels, zone)(h)
    ensures HourAt(w.start, zone) <= h <= HourAt(w.end - 1, zone)
  {
    CountIfPositive(Enriched(w, labels, zone, h), table);
    var k :| 0 <= k < |table| && Enriched(w, labels, zone, h)(table[k]);
    var t := table[k].postedAt;
    assert w.start <= t <= w.end - 1 && HourAt(t, zone) == h;
  }

  /** The shares the query returns are those of the UTC hours, in another order. */
  lemma SharesArePerHour(rows: seq<HourShare>, table: seq<Mention>, w: Window, labels: Labels, zone: int, hours: nat)
    requires IsShareQuery(rows, table, w, labels, zone) && zone % HOUR == 0
    requires w.start % HOUR == 0 && w.end - w.start == hours * HOUR && hours > 0
    ensures multiset(SharesOf(rows)) == multiset(HourlyShares(table, w, labels, hours))
  {
    var f, measured := ShareAt(table, w, labels, zone), Measured(table, w, labels, zone);
    var all := Range(HourAt(w.start, zone), hours);
    FilterDistinct(measured, all);
    WindowTouches(w, hours, zone);
    forall h ensures h in ShareHours(rows) <==> h in Filter(measured, all) {
      FilterElements(measured, all, h);
      if measured(h) {
        MeasuredHourIsInWindow(table, w, labels, zone, h);
      }
    }
    DistinctElements(ShareHours(rows), Filter(measured, all));
    MapPermutation(f, ShareHours(rows), Filter(measured, all));
    assert Map(f, ShareHours(rows)) == SharesOf(rows);
    AlignedHour(w.start, zone);
    SharesInSession(table, w, labels, zone, HourAt(w.start, 0), hours);
  }

  lemma SourceIsCountedWhen(groups: seq<HourCount>, table: seq<Mention>, w: Window, zone: int, source: string)
    requires IsHourlyCount(groups, table, w, zone)
    ensures |CountsOf(groups, source)| > 0 <==> CountIf(InWindow(w, source), table) > 0
  {
    CountIfPositive(InWindow(w, source), table);
    if k :| 0 <= k < |table| && InWindow(w, source)(table[k]) {
      var h := HourAt(table[k].postedAt, zone);
      assert InHour(w, source, zone, h)(table[k]);
      CountIfPositive(InHour(w, source, zone, h), table);
      BusyWhenGrouped(groups, table, w, zone, source, h);
    }
    if |CountsOf(groups, source)| > 0 {
      var h := HoursOf(groups, source)[0];
      assert h in HoursOf(groups, source);
      BusyWhenGrouped(groups, table, w, zone, source, h);
      CountIfPositive(InHour(w, source, zone, h), table);
      var k :| 0 <= k < |table| && InHour(w, source, zone, h)(table[k]);
      assert InWindow(w, source)(table[k]);
    }
  }

  /** Whatever order the database answers in, the padded computation gives the baseline over
      all the hours of the window, when the session is at whole hours from UTC. */
  lemma SummaryIsBaseline(b: BaselineStats, groups: seq<HourCount>, rows: seq<HourShare>, rating: Option<real>,
                          table: seq<Mention>, labels: Labels, brand: string, days: int, now: int, zone: int)
    requires days > 0 && zone % HOUR == 0 && Summarises(b, groups, rows, rating, days)
    requires IsHourlyCount(groups, table, WindowFor(brand, days, now), zone)
    requires IsShareQuery(rows, table, WindowFor(brand, days, now), labels, zone)
    requires IsMeanRating(rating, table, WindowFor(brand, days, now))
    ensures IsBaseline(b, table, labels, brand, days, now)
  {
    var w, hours := WindowFor(brand, days, now), HoursIn(days);
    SharesArePerHour(rows, table, w, labels, zone, hours);
    MeanAndStdForgetOrder(SharesOf(rows), HourlyShares(table, w, labels, hours), b.negativeMean, b.negativeStd);
    forall s ensures s in b.mean <==> CountIf(InWindow(w, s), table) > 0 {
      SourceIsCountedWhen(groups, table, w, zone, s);
    }
    forall s | s in b.mean ensures IsMeanAndStd(PerHour(table, w, s, hours), b.mean[s], b.std[s]) {
      PaddedIsPerHour(groups, table, w, zone, s, hours);
      MeanAndStdForgetOrder(Padded(CountsOf(groups, s), hours), PerHour(table, w, s, hours), b.mean[s], b.std[s]);
    }
  }

  // ---------------------------------------------------------------- it looks at the window only

  lemma MeanRatingIsDetermined(a: Option<real>, b: Option<real>, table: seq<Mention>, w: Window)
    requires IsMeanRating(a, table, w) && IsMeanRating(b, table, w)
    ensures a == b
  {
    if a.Some? {
      AverageIsDetermined(a.value, b.value, CountIf(Rated(w), table), SumOf(RatingIn(w), table));
    }
  }

  lemma PerSourceIsDetermined(b1: BaselineStats, b2: BaselineStats, table: seq<Mention>, w: Window, hours: nat)
    requires IsPerSource(b1, table, w, hours) && IsPerSource(b2, table, w, hours)
    ensures b1.mean == b2.mean && b1.std == b2.std
  {
    assert b1.mean.Keys == b2.mean.Keys;
    forall s | s in b1.mean ensures b1.mean[s] == b2.mean[s] && b1.std[s] == b2.std[s] {
      assert s in b2.mean.Keys;
      MeanAndStdAreDetermined(PerHour(table, w, s, hours), b1.mean[s], b1.std[s], b2.mean[s], b2.std[s]);
    }
  }

  lemma BaselineIsDetermined(b1: BaselineStats, b2: BaselineStats, table: seq<Mention>, labels: Labels, brand: string, days: int, now: int)
    requires IsBaseline(b1, table, labels, brand, days, now) && IsBaseline(b2, table, labels, brand, days, now)
    ensures b1 == b2
  {
    if days > 0 {
      var w, hours := WindowFor(brand, days, now), HoursIn(days);
      MeanAndStdAreDetermined(HourlyShares(table, w, labels, hours), b1.negativeMean, b1.negativeStd, b2.negativeMean, b2.negativeStd);
      MeanRatingIsDetermined(b1.meanRating, b2.meanRating, table, w);
      PerSourceIsDetermined(b1, b2, table, w, hours);
    }
  }

  function LabelOf(labels: Labels, m: Mention): Option<Sentiment> {
    if m.id in labels then Some(labels[m.id]) else None
  }

  function InWindowOf(w: Window): Mention -> bool { (m: Mention) => Counts(w, m) }

  /** The same rows in the window, labelled alike. */
  ghost predicate SameHistory(t1: seq<Mention>, l1: Labels, t2: seq<Mention>, l2: Labels, w: Window) {
    && Filter(InWindowOf(w), t1) == Filter(InWindowOf(w), t2)
    && forall m :: m in t1 && Counts(w, m) ==> LabelOf(l1, m) == LabelOf(l2, m)
  }

  lemma SameCounts(t1: seq<Mention>, l1: Labels, t2: seq<Mention>, l2: Labels, w: Window, p: Mention -> bool, q: Mention -> bool)
    requires SameHistory(t1, l1, t2, l2, w)
    requires forall m :: p(m) ==> Counts(w, m)
    requires forall m :: q(m) ==> Counts(w, m)
    requires forall m :: m in t1 && Counts(w, m) ==> p(m) == q(m)
    ensures CountIf(p, t1) == CountIf(q, t2)
  {
    var kept := Filter(InWindowOf(w), t1);
    CountAfterFilter(p, InWindowOf(w), t1);
    CountAfterFilter(q, InWindowOf(w), t2);
    forall k | 0 <= k < |kept| ensures p(kept[k]) == q(kept[k]) {
      var m := kept[k];
      assert m in kept;
      FilterElements(InWindowOf(w), t1, m);
    }
    CountIfSame(p, q, kept);
  }

  lemma SamePerHour(t1: seq<Mention>, l1: Labels, t2: seq<Mention>, l2: Labels, w: Window, source: string, hours: nat)
    requires SameHistory(t1, l1, t2, l2, w)
    ensures PerHour(t1, w, source, hours) == PerHour(t2, w, source, hours)
  {
    var hs := Range(HourAt(w.start, 0), hours);
    forall k | 0 <= k < hours ensures CountAtHour(t1, w, source, 0)(hs[k]) == CountAtHour(t2, w, source, 0)(hs[k]) {
      SameCounts(t1, l1, t2, l2, w, InHour(w, source, 0, hs[k]), InHour(w, source, 0, hs[k]));
    }
  }

  lemma SameShareAt(t1: seq<Mention>, l1: Labels, t2: seq<Mention>, l2: Labels, w: Window, h: int)
    requires SameHistory(t1, l1, t2, l2, w)
    ensures ShareAt(t1, w, l1, 0)(h) == ShareAt(t2, w, l2, 0)(h)
    ensures Measured(t1, w, l1, 0)(h) == Measured(t2, w, l2, 0)(h)
  {
    forall m | m in t1 && Counts(w, m)
      ensures Enriched(w, l1, 0, h)(m) == Enriched(w, l2, 0, h)(m) && Negative(w, l1, 0, h)(m) == Negative(w, l2, 0, h)(m)
    {
      assert LabelOf(l1, m) == LabelOf(l2, m);
    }
    SameCounts(t1, l1, t2, l2, w, Enriched(w, l1, 0, h), Enriched(w, l2, 0, h));
    SameCounts(t1, l1, t2, l2, w, Negative(w, l1, 0, h), Negative(w, l2, 0, h));
  }

  lemma {:induction false} MapFilterSame<T, U>(f: T -> U, g: T -> U, p: T -> bool, q: T -> bool, s: seq<T>)
    requires forall k :: 0 <= k < |s| ==> f(s[k]) == g(s[k]) && p(s[k]) == q(s[k])
    ensures Map(f, Filter(p, s)) == Map(g, Filter(q, s))
  {
    if |s| > 0 {
      MapFilterSame(f, g, p, q, s[..|s| - 1]);
    }
  }

  lemma SameShares(t1: seq<Mention>, l1: Labels, t2: seq<Mention>, l2: Labels, w: Window, hours: nat)
    requires SameHistory(t1, l1, t2, l2, w)
    ensures HourlyShares(t1, w, l1, hours) == HourlyShares(t2, w, l2, hours)
  {
    var hs := Range(HourAt(w.start, 0), hours);
    var f1, f2, p1, p2 := ShareAt(t1, w, l1, 0), ShareAt(t2, w, l2, 0), Measured(t1, w, l1, 0), Measured(t2, w, l2, 0);
    forall k | 0 <= k < hours ensures f1(hs[k]) == f2(hs[k]) && p1(hs[k]) == p2(hs[k]) {
      SameShareAt(t1, l1, t2, l2, w, hs[k]);
    }
    MapFilterSame(f1, f2, p1, p2, hs);
  }

  lemma {:induction false} RatingsAfterFilter(w: Window, table: seq<Mention>)
    ensures SumOf(RatingIn(w), Filter(InWindowOf(w), table)) == SumOf(RatingIn(w), table)
  {
    if |table| > 0 {
      var rest, last := table[..|table| - 1], table[|table| - 1];
      RatingsAfterFilter(w, rest);
      var kept := Filter(InWindowOf(w), table);
      if Counts(w, last) {
        assert kept == Filter(InWindowOf(w), rest) + [last];
        assert kept[..|kept| - 1] == Filter(InWindowOf(w), rest);
      } else {
        assert kept == Filter(InWindowOf(w), rest);
      }
    }
  }

  lemma SameRatings(t1: seq<Mention>, l1: Labels, t2: seq<Mention>, l2: Labels, w: Window, rating: Option<real>)
    requires SameHistory(t1, l1, t2, l2, w) && IsMeanRating(rating, t1, w)
    ensures IsMeanRating(rating, t2, w)
  {
    SameCounts(t1, l1, t2, l2, w, Rated(w), Rated(w));
    RatingsAfterFilter(w, t1);
    RatingsAfterFilter(w, t2);
  }

  lemma SamePerSource(b: BaselineStats, t1: seq<Mention>, l1: Labels, t2: seq<Mention>, l2: Labels, w: Window, hours: nat)
    requires SameHistory(t1, l1, t2, l2, w) && IsPerSource(b, t1, w, hours)
    ensures IsPerSource(b, t2, w, hours)
  {
    forall s ensures PerHour(t1, w, s, hours) == PerHour(t2, w, s, hours) {
      SamePerHour(t1, l1, t2, l2, w, s, hours);
    }
    forall s ensures CountIf(InWindow(w, s), t1) == CountIf(InWindow(w, s), t2) {
      SameCounts(t1, l1, t2, l2, w, InWindow(w, s), InWindow(w, s));
    }
  }

  /** The baseline is a function of the rows in the window alone. */
  lemma SameHistorySameBaseline(b1: BaselineStats, t1: seq<Mention>, l1: Labels, b2: BaselineStats, t2: seq<Mention>, l2: Labels,
                                brand: string, days: int, now: int)
    requires SameHistory(t1, l1, t2, l2, WindowFor(brand, days, now))
    requires IsBaseline(b1, t1, l1, brand, days, now) && IsBaseline(b2, t2, l2, brand, days, now)
    ensures b1 == b2
  {
    if days > 0 {
      var w, hours := WindowFor(brand, days, now), HoursIn(days);
      SameShares(t1, l1, t2, l2, w, hours);
      SameRatings(t1, l1, t2, l2, w, b1.meanRating);
      SamePerSource(b1, t1, l1, t2, l2, w, hours);
      BaselineIsDetermined(b1, b2, t2, l2, brand, days, now);
    }
  }

  /** None of these mentions is one of the brand's from before this time. */
  ghost predicate NoneBefore(ms: seq<Mention>, brand: string, time: int) {
    forall k :: 0 <= k < |ms| && ms[k].brand == brand ==> ms[k].postedAt >= time
  }

  lemma LateRowsAreOutside(table: seq<Mention>, late: seq<Mention>, labels: Labels, more: Labels, w: Window)
    requires NoneBefore(late, w.brand, w.end)
    requires forall m :: m in table && Counts(w, m) ==> LabelOf(labels, m) == LabelOf(more, m)
    ensures SameHistory(table, labels, table + late, more, w)
  {
    FilterAppend(InWindowOf(w), table, late);
    FilterNone(InWindowOf(w), late);
    assert Filter(InWindowOf(w), table) + [] == Filter(InWindowOf(w), table);
  }

  /** No mention of the current hour, or later, changes the baseline it is measured against,
      whatever label it gets and however late in that hour the baseline is computed again. */
  lemma CurrentHourIsExcluded(b1: BaselineStats, b2: BaselineStats, table: seq<Mention>, labels: Labels, late: seq<Mention>, more: Labels,
                              brand: string, days: int, now: int, later: int)
    requires Truncated(later) == Truncated(now)
    requires NoneBefore(late, brand, Truncated(now))
    requires forall m :: m in table && m.brand == brand && m.postedAt < Truncated(now) ==> LabelOf(more, m) == LabelOf(labels, m)
    requires IsBaseline(b1, table, labels, brand, days, now) && IsBaseline(b2, table + late, more, brand, days, later)
    ensures b1 == b2
  {
    LateRowsAreOutside(table, late, labels, more, WindowFor(brand, days, now));
    SameHistorySameBaseline(b1, table, labels, b2, table + late, more, brand, days, now);
  }

  /** The means and deviations per source look at no label at all. */
  lemma VolumesIgnoreLabels(b1: BaselineStats, b2: BaselineStats, table: seq<Mention>, labels: Labels, late: seq<Mention>, more: Labels,
                            brand: string, days: int, now: int, later: int)
    requires Truncated(later) == Truncated(now)
    requires NoneBefore(late, brand, Truncated(now))
    requires IsBaseline(b1, table, labels, brand, days, now) && IsBaseline(b2, table + late, more, brand, days, later)
    ensures b1.mean == b2.mean && b1.std == b2.std
  {
    if days > 0 {
      var w, hours := WindowFor(brand, days, now), HoursIn(days);
      LateRowsAreOutside(table, late, labels, labels, w);
      PerSourceIgnoresLabels(b1, b2, table, labels, table + late, w, hours);
    }
  }

  lemma PerSourceIgnoresLabels(b1: BaselineStats, b2: BaselineStats, t1: seq<Mention>, labels: Labels, t2: seq<Mention>, w: Window, hours: nat)
    requires SameHistory(t1, labels, t2, labels, w) && IsPerSource(b1, t1, w, hours) && IsPerSource(b2, t2, w, hours)
    ensures b1.mean == b2.mean && b1.std == b2.std
  {
    SamePerSource(b1, t1, labels, t2, labels, w, hours);
    PerSourceIsDetermined(b1, b2, t2, w, hours);
  }
}
