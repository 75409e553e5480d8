/** The baseline over the mention table itself: what the numbers of `internal/stats/baseline.go`
  are, hour by hour, in terms of brands, sources, times and labels. */
module MeasuredHours {
  import opened Outcomes
  import opened Models
  import opened Ordering
  import opened Lists
  import opened Positions
  import opened Stats
  import opened HourlyCounts
  import opened Baseline

  // ---------------------------------------------------------------- mentions of a stretch of time

  /** The rows of this brand and source posted from `from` to before `to`. */
  ghost function Seen(table: seq<Mention>, brand: string, source: string, from: int, to: int): set<nat> {
    set k: nat | k < |table| && table[k].brand == brand && table[k].source == source && from <= table[k].postedAt < to
  }

  /** The enriched rows of the brand, of whatever source, and the negative ones. */
  ghost function SeenEnriched(table: seq<Mention>, labels: Labels, brand: string, from: int, to: int): set<nat> {
    set k: nat | k < |table| && table[k].brand == brand && from <= table[k].postedAt < to && table[k].id in labels
  }

  ghost function SeenNegative(table: seq<Mention>, labels: Labels, brand: string, from: int, to: int): set<nat> {
    set k: nat | k in SeenEnriched(table, labels, brand, from, to) && k < |table| && labels[table[k].id] == Sentiment.Negative
  }

  ghost function SeenRated(table: seq<Mention>, brand: string, from: int, to: int): set<nat> {
    set k: nat | k < |table| && table[k].brand == brand && from <= table[k].postedAt < to && table[k].rating.Some?
  }

  ghost function StarsSeen(table: seq<Mention>, brand: string, from: int, to: int, n: nat): real
    requires n <= |table|
  {
    if n == 0 then 0.0
    else if n - 1 in SeenRated(table, brand, from, to) then StarsSeen(table, brand, from, to, n - 1) + table[n - 1].rating.value
    else StarsSeen(table, brand, from, to, n - 1)
  }

  /** The squared distances from `mean` of the first `n` hourly counts, added up. */
  ghost function CountGaps(table: seq<Mention>, brand: string, source: string, start: int, mean: real, n: nat): real {
    if n == 0 then 0.0
    else
      var gap := |Seen(table, brand, source, start + 3600 * (n - 1), start + 3600 * n)| as real - mean;
      CountGaps(table, brand, source, start, mean, n - 1) + gap * gap
  }

  lemma {:induction false} CountIsSize<T>(p: T -> bool, s: seq<T>)
    ensures CountIf(p, s) == |Filter(p, s)|
  {
    if |s| > 0 {
      CountIsSize(p, s[..|s| - 1]);
    }
  }

  /** A count is the number of positions that pass. */
  lemma CountBySet<T>(p: T -> bool, s: seq<T>, among: set<nat>)
    requires forall k: nat :: k < |s| ==> (k in among <==> p(s[k]))
    requires forall k: nat :: k in among ==> k < |s|
    ensures CountIf(p, s) == |among|
  {
    CountIsSize(p, s);
    FilterSize(p, s);
    assert Passing(p, s) == among;
  }

  lemma HourAfter(start: int, h: nat, time: int)
    requires start % 3600 == 0
    ensures HourAt(time, 0) == HourAt(start, 0) + h <==> start + 3600 * h <= time < start + 3600 * (h + 1)
  {
  }

  /** The window is the `days` days before `end`. */
  ghost predicate WindowEnds(w: Window, brand: string, days: int, end: int) {
    days > 0 && end % 3600 == 0 && w == Window(brand, end - 86400 * days, end)
  }

  lemma WindowOf(brand: string, days: int, now: int, end: int)
    requires days > 0 && end % 3600 == 0 && end <= now < end + 3600
    ensures WindowEnds(WindowFor(brand, days, now), brand, days, end)
  {
  }

  lemma HourInWindow(w: Window, brand: string, days: int, end: int, h: nat, time: int)
    requires WindowEnds(w, brand, days, end) && h < 24 * days && w.start + 3600 * h <= time < w.start + 3600 * (h + 1)
    ensures w.start <= time < w.end
  {
  }

  lemma HourlyCount(table: seq<Mention>, w: Window, brand: string, days: int, end: int, source: string, h: nat, from: int, to: int)
    requires WindowEnds(w, brand, days, end) && h < 24 * days && from == w.start + 3600 * h && to == w.start + 3600 * (h + 1)
    ensures CountAtHour(table, w, source, 0)(HourAt(w.start, 0) + h) == |Seen(table, brand, source, from, to)| as real
  {
    var p, among := InHour(w, source, 0, HourAt(w.start, 0) + h), Seen(table, brand, source, from, to);
    forall k: nat | k < |table| ensures k in among <==> p(table[k]) {
      HourAfter(w.start, h, table[k].postedAt);
      if k in among {
        HourInWindow(w, brand, days, end, h, table[k].postedAt);
      }
    }
    CountBySet(p, table, among);
  }

  lemma SumOfMapped(f: real -> real, g: int -> real, h: int, n: nat, last: int)
    requires n > 0 && last == h + n - 1
    ensures SumOf(f, Map(g, Range(h, n))) == SumOf(f, Map(g, Range(h, n - 1))) + f(g(last))
  {
    assert Map(g, Range(h, n))[..n - 1] == Map(g, Range(h, n - 1));
  }

  lemma OneMoreGap(table: seq<Mention>, brand: string, source: string, start: int, mean: real, n: nat, count: real)
    requires n > 0 && count == |Seen(table, brand, source, start + 3600 * (n - 1), start + 3600 * n)| as real
    ensures CountGaps(table, brand, source, start, mean, n) == CountGaps(table, brand, source, start, mean, n - 1) + SquaredGap(mean)(count)
  {
    GapIsSquared(mean, count);
  }

  lemma GapIsSquared(mean: real, x: real)
    ensures SquaredGap(mean)(x) == (x - mean) * (x - mean)
  {
    var gap := x - mean;
    assert SquaredGap(mean)(x) == Square(gap) == gap * gap;
  }

  lemma {:induction false} GapsOfCounts(table: seq<Mention>, w: Window, brand: string, days: int, end: int, source: string, mean: real, n: nat)
    requires WindowEnds(w, brand, days, end) && n <= 24 * days
    ensures SumOf(SquaredGap(mean), PerHour(table, w, source, n)) == CountGaps(table, brand, source, w.start, mean, n)
  {
    if n > 0 {
      var last := HourAt(w.start, 0) + n - 1;
      GapsOfCounts(table, w, brand, days, end, source, mean, n - 1);
      SumOfMapped(SquaredGap(mean), CountAtHour(table, w, source, 0), HourAt(w.start, 0), n, last);
      HourlyCount(table, w, brand, days, end, source, n - 1, w.start + 3600 * (n - 1), w.start + 3600 * n);
      OneMoreGap(table, brand, source, w.start, mean, n, CountAtHour(table, w, source, 0)(last));
    }
  }

  lemma SourceOfBaseline(b: BaselineStats, table: seq<Mention>, labels: Labels, brand: string, days: int, now: int, source: string)
    returns (w: Window)
    requires IsBaseline(b, table, labels, brand, days, now) && days > 0
    ensures w == WindowFor(brand, days, now) && (source in b.mean <==> source in b.std)
    ensures source in b.mean <==> CountIf(InWindow(w, source), table) > 0
    ensures source in b.mean ==> IsMeanAndStd(PerHour(table, w, source, HoursIn(days)), b.mean[source], b.std[source])
  {
    w := WindowFor(brand, days, now);
    assert IsPerSource(b, table, w, HoursIn(days));
    assert source in b.mean.Keys <==> source in b.std.Keys;
  }

  lemma SquaresOfHours(table: seq<Mention>, w: Window, source: string, hours: nat, mean: real, std: real)
    requires hours > 0 && IsMeanAndStd(PerHour(table, w, source, hours), mean, std)
    ensures std >= 0.0 && SumOf(SquaredGap(mean), PerHour(table, w, source, hours)) == std * std * hours as real
  {
  }

  lemma SeenInWindow(table: seq<Mention>, w: Window, source: string)
    ensures CountIf(InWindow(w, source), table) == |Seen(table, w.brand, source, w.start, w.end)|
  {
    CountBySet(InWindow(w, source), table, Seen(table, w.brand, source, w.start, w.end));
  }

  /** `mean` and `std` are those of the hourly counts of the `hours` hours from `start`. */
  ghost predicate OfHourlyCounts(table: seq<Mention>, brand: string, source: string, start: int, hours: nat, mean: real, std: real) {
    && mean * hours as real == |Seen(table, brand, source, start, start + 3600 * hours)| as real
    && std >= 0.0 && CountGaps(table, brand, source, start, mean, hours) == std * std * hours as real
  }

  lemma OfWindow(table: seq<Mention>, w: Window, brand: string, days: int, end: int, hours: nat, source: string, mean: real, std: real)
    requires WindowEnds(w, brand, days, end) && hours == 24 * days && IsMeanAndStd(PerHour(table, w, source, hours), mean, std)
    ensures OfHourlyCounts(table, brand, source, w.start, hours, mean, std)
  {
    MeanIsCountPerHour(table, w, source, hours, mean, std);
    SeenInWindow(table, w, source);
    SquaresOfHours(table, w, source, hours, mean, std);
    GapsOfCounts(table, w, brand, days, end, source, mean, hours);
  }

  /** A source has a mean exactly when the days before the current hour hold a mention of it, and
      then mean and deviation are those of its counts in all their hours. */
  lemma VolumesInPlainTerms(b: BaselineStats, table: seq<Mention>, labels: Labels, brand: string, days: int, now: int, end: int,
                            source: string, start: int)
    requires IsBaseline(b, table, labels, brand, days, now) && days > 0
    requires end % 3600 == 0 && end <= now < end + 3600 && start == end - 86400 * days
    ensures source in b.mean <==> |Seen(table, brand, source, start, end)| > 0
    ensures source in b.mean <==> source in b.std
    ensures source in b.mean ==> OfHourlyCounts(table, brand, source, start, 24 * days, b.mean[source], b.std[source])
  {
    var w := SourceOfBaseline(b, table, labels, brand, days, now, source);
    WindowOf(brand, days, now, end);
    if source in b.mean {
      OneSource(table, w, brand, days, end, start, source, b.mean[source], b.std[source]);
    }
    SourceSeen(table, w, brand, days, end, start, source);
  }

  lemma SourceSeen(table: seq<Mention>, w: Window, brand: string, days: int, end: int, start: int, source: string)
    requires WindowEnds(w, brand, days, end) && start == end - 86400 * days
    ensures CountIf(InWindow(w, source), table) == |Seen(table, brand, source, start, end)|
  {
    SeenInWindow(table, w, source);
  }

  lemma OneSource(table: seq<Mention>, w: Window, brand: string, days: int, end: int, start: int, source: string, mean: real, std: real)
    requires WindowEnds(w, brand, days, end) && start == end - 86400 * days
    requires IsMeanAndStd(PerHour(table, w, source, HoursIn(days)), mean, std)
    ensures OfHourlyCounts(table, brand, source, start, 24 * days, mean, std)
  {
    OfWindow(table, w, brand, days, end, 24 * days, source, mean, std);
  }

  // ---------------------------------------------------------------- ratings and shares

  lemma {:induction false} StarsAreSummed(table: seq<Mention>, w: Window, n: nat)
    requires n <= |table|
    ensures SumOf(RatingIn(w), table[..n]) == StarsSeen(table, w.brand, w.start, w.end, n)
  {
    if n > 0 {
      StarsAreSummed(table, w, n - 1);
      assert table[..n][..n - 1] == table[..n - 1];
      assert n - 1 in SeenRated(table, w.brand, w.start, w.end) <==> Rated(w)(table[n - 1]);
    }
  }

  /** The mean rating is that of the rated mentions of those days, and none when there are none. */
  lemma RatingInPlainTerms(b: BaselineStats, table: seq<Mention>, labels: Labels, brand: string, days: int, now: int, end: int, start: int)
    requires IsBaseline(b, table, labels, brand, days, now) && days > 0
    requires end % 3600 == 0 && end <= now < end + 3600 && start == end - 86400 * days
    ensures b.days == days && (b.meanRating.Some? <==> |SeenRated(table, brand, start, end)| > 0)
    ensures b.meanRating.Some? ==>
      b.meanRating.value * |SeenRated(table, brand, start, end)| as real == StarsSeen(table, brand, start, end, |table|)
  {
    var w := WindowFor(brand, days, now);
    WindowOf(brand, days, now, end);
    CountBySet(Rated(w), table, SeenRated(table, brand, start, end));
    StarsAreSummed(table, w, |table|);
    assert table[..|table|] == table;
  }

  /** The hours among the first `n` that have an enriched mention. */
  ghost function HoursMeasured(table: seq<Mention>, labels: Labels, brand: string, start: int, n: nat): nat {
    if n == 0 then 0
    else HoursMeasured(table, labels, brand, start, n - 1) +
         (if |SeenEnriched(table, labels, brand, start + 3600 * (n - 1), start + 3600 * n)| > 0 then 1 else 0)
  }

  /** The negative shares of those hours, added up after `f`. */
  ghost function SharesAdded(f: real -> real, table: seq<Mention>, labels: Labels, brand: string, start: int, n: nat): real {
    if n == 0 then 0.0
    else
      var enriched := |SeenEnriched(table, labels, brand, start + 3600 * (n - 1), start + 3600 * n)|;
      var negative := |SeenNegative(table, labels, brand, start + 3600 * (n - 1), start + 3600 * n)|;
      SharesAdded(f, table, labels, brand, start, n - 1) + (if enriched > 0 then f(negative as real / enriched as real) else 0.0)
  }

  lemma HourlyShare(table: seq<Mention>, labels: Labels, w: Window, brand: string, days: int, end: int, h: nat, from: int, to: int)
    requires WindowEnds(w, brand, days, end) && h < 24 * days && from == w.start + 3600 * h && to == w.start + 3600 * (h + 1)
    ensures CountIf(Enriched(w, labels, 0, HourAt(w.start, 0) + h), table) == |SeenEnriched(table, labels, brand, from, to)|
    ensures CountIf(Baseline.Negative(w, labels, 0, HourAt(w.start, 0) + h), table) == |SeenNegative(table, labels, brand, from, to)|
  {
    var p, q := Enriched(w, labels, 0, HourAt(w.start, 0) + h), Baseline.Negative(w, labels, 0, HourAt(w.start, 0) + h);
    forall k: nat | k < |table|
      ensures k in SeenEnriched(table, labels, brand, from, to) <==> p(table[k])
      ensures k in SeenNegative(table, labels, brand, from, to) <==> q(table[k])
    {
      HourAfter(w.start, h, table[k].postedAt);
      if from <= table[k].postedAt < to {
        HourInWindow(w, brand, days, end, h, table[k].postedAt);
      }
    }
    CountBySet(p, table, SeenEnriched(table, labels, brand, from, to));
    CountBySet(q, table, SeenNegative(table, labels, brand, from, to));
  }

  lemma OneMoreShare(table: seq<Mention>, w: Window, labels: Labels, n: nat, last: int)
    requires n > 0 && last == HourAt(w.start, 0) + n - 1
    ensures HourlyShares(table, w, labels, n) == HourlyShares(table, w, labels, n - 1) +
      (if Measured(table, w, labels, 0)(last) then [ShareAt(table, w, labels, 0)(last)] else [])
  {
    RangeMapFilterLast(ShareAt(table, w, labels, 0), Measured(table, w, labels, 0), HourAt(w.start, 0), n);
  }

  /** The share of hour `n - 1` is `negative` of `enriched`. */
  lemma LastShare(table: seq<Mention>, labels: Labels, w: Window, brand: string, days: int, end: int, n: nat, last: int, enriched: nat, negative: nat)
    requires WindowEnds(w, brand, days, end) && 0 < n <= 24 * days && last == HourAt(w.start, 0) + n - 1
    requires enriched == |SeenEnriched(table, labels, brand, w.start + 3600 * (n - 1), w.start + 3600 * n)|
    requires negative == |SeenNegative(table, labels, brand, w.start + 3600 * (n - 1), w.start + 3600 * n)|
    ensures Measured(table, w, labels, 0)(last) <==> enriched > 0
    ensures enriched > 0 ==> ShareAt(table, w, labels, 0)(last) == negative as real / enriched as real
  {
    HourlyShare(table, labels, w, brand, days, end, n - 1, w.start + 3600 * (n - 1), w.start + 3600 * n);
  }

  /** The list grows by one share in a measured hour; so do its length and its sum. */
  ghost predicate GrowsByShare(f: real -> real, before: seq<real>, after: seq<real>, hours: nat, more: nat, sum: real, total: real) {
    exists measured: bool, share: real :: GrowsBy(f, before, after, hours, more, sum, total, measured, share)
  }

  ghost predicate GrowsBy(f: real -> real, before: seq<real>, after: seq<real>, hours: nat, more: nat, sum: real, total: real,
                          measured: bool, share: real) {
    && after == before + (if measured then [share] else [])
    && more == hours + (if measured then 1 else 0) && total == sum + (if measured then f(share) else 0.0)
  }

  lemma SharesGrow(f: real -> real, before: seq<real>, after: seq<real>, hours: nat, more: nat, sum: real, total: real)
    requires GrowsByShare(f, before, after, hours, more, sum, total) && |before| == hours && SumOf(f, before) == sum
    ensures |after| == more && SumOf(f, after) == total
  {
    var measured, share :| GrowsBy(f, before, after, hours, more, sum, total, measured, share);
    AddedShare(f, before, share, measured);
  }

  lemma SharesNext(f: real -> real, table: seq<Mention>, labels: Labels, w: Window, brand: string, days: int, end: int, n: nat)
    requires WindowEnds(w, brand, days, end) && 0 < n <= 24 * days
    ensures GrowsByShare(f, HourlyShares(table, w, labels, n - 1), HourlyShares(table, w, labels, n),
                         HoursMeasured(table, labels, brand, w.start, n - 1), HoursMeasured(table, labels, brand, w.start, n),
                         SharesAdded(f, table, labels, brand, w.start, n - 1), SharesAdded(f, table, labels, brand, w.start, n))
  {
    var last := HourAt(w.start, 0) + n - 1;
    var enriched := |SeenEnriched(table, labels, brand, w.start + 3600 * (n - 1), w.start + 3600 * n)|;
    var negative := |SeenNegative(table, labels, brand, w.start + 3600 * (n - 1), w.start + 3600 * n)|;
    LastShare(table, labels, w, brand, days, end, n, last, enriched, negative);
    OneMoreShare(table, w, labels, n, last);
    MoreShares(f, table, labels, brand, w.start, n, enriched, negative);
    assert GrowsBy(f, HourlyShares(table, w, labels, n - 1), HourlyShares(table, w, labels, n),
                   HoursMeasured(table, labels, brand, w.start, n - 1), HoursMeasured(table, labels, brand, w.start, n),
                   SharesAdded(f, table, labels, brand, w.start, n - 1), SharesAdded(f, table, labels, brand, w.start, n),
                   enriched > 0, ShareAt(table, w, labels, 0)(last));
  }

  lemma {:induction false} SharesOfHours(f: real -> real, table: seq<Mention>, labels: Labels, w: Window, brand: string, days: int, end: int, n: nat)
    requires WindowEnds(w, brand, days, end) && n <= 24 * days
    ensures |HourlyShares(table, w, labels, n)| == HoursMeasured(table, labels, brand, w.start, n)
    ensures SumOf(f, HourlyShares(table, w, labels, n)) == SharesAdded(f, table, labels, brand, w.start, n)
  {
    if n > 0 {
      SharesOfHours(f, table, labels, w, brand, days, end, n - 1);
      SharesNext(f, table, labels, w, brand, days, end, n);
      SharesGrow(f, HourlyShares(table, w, labels, n - 1), HourlyShares(table, w, labels, n),
                 HoursMeasured(table, labels, brand, w.start, n - 1), HoursMeasured(table, labels, brand, w.start, n),
                 SharesAdded(f, table, labels, brand, w.start, n - 1), SharesAdded(f, table, labels, brand, w.start, n));
    }
  }

  lemma MoreShares(f: real -> real, table: seq<Mention>, labels: Labels, brand: string, start: int, n: nat, enriched: nat, negative: nat)
    requires n > 0 && enriched == |SeenEnriched(table, labels, brand, start + 3600 * (n - 1), start + 3600 * n)|
    requires negative == |SeenNegative(table, labels, brand, start + 3600 * (n - 1), start + 3600 * n)|
    ensures HoursMeasured(table, labels, brand, start, n) == HoursMeasured(table, labels, brand, start, n - 1) + (if enriched > 0 then 1 else 0)
    ensures SharesAdded(f, table, labels, brand, start, n) ==
      SharesAdded(f, table, labels, brand, start, n - 1) + (if enriched > 0 then f(negative as real / enriched as real) else 0.0)
  {
  }

  lemma AddedShare(f: real -> real, shares: seq<real>, share: real, measured: bool)
    ensures SumOf(f, shares + (if measured then [share] else [])) == SumOf(f, shares) + (if measured then f(share) else 0.0)
  {
    if measured {
      assert (shares + [share])[..|shares|] == shares;
    } else {
      assert shares + [] == shares;
    }
  }

  function AsItIs(x: real): real { x }

  function GapFrom(mean: real): real -> real { (x: real) => (x - mean) * (x - mean) }

  /** The mean and the deviation of so many values with this sum and these squared gaps. */
  ghost predicate OfSums(n: nat, sum: real, gaps: real, mean: real, std: real) {
    if n == 0 then mean == 0.0 && std == 0.0
    else mean * n as real == sum && std >= 0.0 && gaps == std * std * n as real
  }

  /** `mean` and `std` are those of the negative shares, over the hours that have an enriched
      mention, of the `n` hours from `start`; both are 0 when there is none. */
  ghost predicate OfHourlyShares(table: seq<Mention>, labels: Labels, brand: string, start: int, n: nat, mean: real, std: real) {
    OfSums(HoursMeasured(table, labels, brand, start, n), SharesAdded(AsItIs, table, labels, brand, start, n),
           SharesAdded(GapFrom(mean), table, labels, brand, start, n), mean, std)
  }

  lemma SumsOfShares(shares: seq<real>, mean: real, std: real)
    requires IsMeanAndStd(shares, mean, std)
    ensures OfSums(|shares|, SumOf(AsItIs, shares), SumOf(GapFrom(mean), shares), mean, std)
  {
    SameSums(AsItIs, Itself, shares);
    forall x ensures GapFrom(mean)(x) == SquaredGap(mean)(x) {
      GapIsSquared(mean, x);
    }
    SameSums(GapFrom(mean), SquaredGap(mean), shares);
  }

  lemma OfWindowShares(table: seq<Mention>, labels: Labels, w: Window, brand: string, days: int, end: int, n: nat, mean: real, std: real)
    requires WindowEnds(w, brand, days, end) && n <= 24 * days && IsMeanAndStd(HourlyShares(table, w, labels, n), mean, std)
    ensures OfHourlyShares(table, labels, brand, w.start, n, mean, std)
  {
    SharesOfHours(AsItIs, table, labels, w, brand, days, end, n);
    SharesOfHours(GapFrom(mean), table, labels, w, brand, days, end, n);
    SumsOfShares(HourlyShares(table, w, labels, n), mean, std);
  }

  /** The negative mean and deviation are those of the hourly negative shares of those days. */
  lemma SharesInPlainTerms(b: BaselineStats, table: seq<Mention>, labels: Labels, brand: string, days: int, now: int, end: int, start: int)
    requires IsBaseline(b, table, labels, brand, days, now) && days > 0
    requires end % 3600 == 0 && end <= now < end + 3600 && start == end - 86400 * days
    ensures OfHourlyShares(table, labels, brand, start, 24 * days, b.negativeMean, b.negativeStd)
  {
    WindowOf(brand, days, now, end);
    OfWindowShares(table, labels, WindowFor(brand, days, now), brand, days, end, 24 * days, b.negativeMean, b.negativeStd);
  }

  lemma {:induction false} SameSums(f: real -> real, g: real -> real, s: seq<real>)
    requires forall x :: f(x) == g(x)
    ensures SumOf(f, s) == SumOf(g, s)
  {
    if |s| > 0 {
      SameSums(f, g, s[..|s| - 1]);
    }
  }
}
