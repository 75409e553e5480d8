/** Hours that are measured against a history which holds them: the pipeline runs the rules
  over every hour of its window (`agents/bp-orchestrator/pipeline.go`), while the baseline of
  `internal/stats/baseline.go` leaves out the current hour only. */
module OwnHistory {
  import opened Models
  import opened Ordering
  import opened Lists
  import opened Roots
  import opened Stats
  import opened HourlyCounts
  import opened Baseline
  import opened Grouping
  import opened Detector

  // ---------------------------------------------------------------- adding one value to a sample

  lemma GapDifference(x: real, a: real, m: real)
    ensures Square(x - a) == Square(x - m) + (m - a) * (2.0 * x - m - a)
  {
  }

  lemma Spread(f: real, x: real, rest: real, n: real, c: real)
    ensures f * (2.0 * rest - (n - 1.0) * c) + f * (2.0 * x - c) == f * (2.0 * (rest + x) - n * c)
  {
    assert 2.0 * rest - (n - 1.0) * c + (2.0 * x - c) == 2.0 * (rest + x) - n * c;
  }

  /** The squared gaps around `a`, from those around `m`. */
  lemma {:induction false} ShiftedSquares(xs: seq<real>, a: real, m: real)
    ensures SumOf(SquaredGap(a), xs) ==
      SumOf(SquaredGap(m), xs) + (m - a) * (2.0 * SumOf(Itself, xs) - |xs| as real * (m + a))
  {
    if |xs| > 0 {
      var rest, x := xs[..|xs| - 1], xs[|xs| - 1];
      ShiftedSquares(rest, a, m);
      GapDifference(x, a, m);
      Spread(m - a, x, SumOf(Itself, rest), |xs| as real, m + a);
      assert SquaredGap(a)(x) == Square(x - a) && SquaredGap(m)(x) == Square(x - m) && Itself(x) == x;
    }
  }

  /** Around any point, a sample of mean `m` and deviation `s` has its own spread and its
      distance from the point. */
  lemma SquaresAround(xs: seq<real>, m: real, s: real, a: real)
    requires |xs| > 0 && IsMeanAndStd(xs, m, s)
    ensures SumOf(SquaredGap(a), xs) == |xs| as real * Square(s) + |xs| as real * Square(m - a)
  {
    ShiftedSquares(xs, a, m);
    var n := |xs| as real;
    assert 2.0 * (m * n) - n * (m + a) == n * (m - a);
    assert (m - a) * (n * (m - a)) == n * Square(m - a);
  }

  /** The others of a sample, without value `k`. */
  function Others(values: seq<real>, k: nat): seq<real>
    requires k < |values|
  {
    values[..k] + values[k + 1..]
  }

  /** The mean and the squared deviation of a sample, from those of the others. */
  ghost predicate WithOne(n: real, mean: real, std: real, m: real, s: real, c: real) {
    && n * mean == (n - 1.0) * m + c
    && n * Square(std) == (n - 1.0) * Square(s) + (n - 1.0) * Square(m - mean) + Square(c - mean)
  }

  /** The sums that a mean and a deviation stand for. */
  lemma SumsOfSample(values: seq<real>, mean: real, std: real) returns (sum: real, gaps: real)
    requires |values| > 0 && IsMeanAndStd(values, mean, std)
    ensures sum == SumOf(Itself, values) && gaps == SumOf(SquaredGap(mean), values)
    ensures mean * |values| as real == sum && Square(std) * |values| as real == gaps
  {
    sum, gaps := SumOf(Itself, values), SumOf(SquaredGap(mean), values);
  }

  lemma SumOfOthers(f: real -> real, values: seq<real>, k: nat, x: real)
    requires k < |values| && x == f(values[k])
    ensures SumOf(f, values) == SumOf(f, Others(values, k)) + x
  {
    SumOfSplit(f, values, k);
  }

  /** The same two sums of the others, over `n` values in all. */
  lemma OthersSums(others: seq<real>, n: real, mean: real, m: real, s: real)
    requires |others| > 0 && n == |others| as real + 1.0 && IsMeanAndStd(others, m, s)
    ensures m * (n - 1.0) == SumOf(Itself, others)
    ensures SumOf(SquaredGap(mean), others) == (n - 1.0) * Square(s) + (n - 1.0) * Square(m - mean)
  {
    SquaresAround(others, m, s, mean);
  }

  lemma SumsOfOthers(values: seq<real>, k: nat, n: real, mean: real, m: real, s: real, c: real) returns (sum: real, gaps: real)
    requires k < |values| && |values| > 1 && n == |values| as real && c == values[k] && IsMeanAndStd(Others(values, k), m, s)
    ensures SumOf(Itself, values) == sum + c && m * (n - 1.0) == sum
    ensures SumOf(SquaredGap(mean), values) == gaps + Square(c - mean)
    ensures gaps == (n - 1.0) * Square(s) + (n - 1.0) * Square(m - mean)
  {
    OthersSums(Others(values, k), n, mean, m, s);
    sum, gaps := SumOf(Itself, Others(values, k)), SumOf(SquaredGap(mean), Others(values, k));
    SumOfOthers(Itself, values, k, c);
    SumOfOthers(SquaredGap(mean), values, k, Square(c - mean));
  }

  ghost predicate SumsAre(n: real, mean: real, std: real, m: real, s: real, c: real, sum: real, gaps: real) {
    && mean * n == sum + c && m * (n - 1.0) == sum
    && Square(std) * n == gaps + Square(c - mean) && gaps == (n - 1.0) * Square(s) + (n - 1.0) * Square(m - mean)
  }

  lemma BothSums(values: seq<real>, k: nat, mean: real, std: real, m: real, s: real) returns (sum: real, gaps: real)
    requires k < |values| && |values| > 1
    requires IsMeanAndStd(values, mean, std) && IsMeanAndStd(Others(values, k), m, s)
    ensures SumsAre(|values| as real, mean, std, m, s, values[k], sum, gaps)
  {
    var all, allGaps := SumsOfSample(values, mean, std);
    sum, gaps := SumsOfOthers(values, k, |values| as real, mean, m, s, values[k]);
  }

  lemma SumsWithOne(n: real, mean: real, std: real, m: real, s: real, c: real, sum: real, gaps: real)
    requires SumsAre(n, mean, std, m, s, c, sum, gaps)
    ensures WithOne(n, mean, std, m, s, c)
  {
  }

  lemma SampleWithOne(values: seq<real>, k: nat, mean: real, std: real, m: real, s: real)
    requires k < |values| && |values| > 1
    requires IsMeanAndStd(values, mean, std) && IsMeanAndStd(Others(values, k), m, s)
    ensures WithOne(|values| as real, mean, std, m, s, values[k])
  {
    var sum, gaps := BothSums(values, k, mean, std, m, s);
    SumsWithOne(|values| as real, mean, std, m, s, values[k], sum, gaps);
  }

  // ---------------------------------------------------------------- the arithmetic of a spike

  lemma MeanMoves(n: real, mean: real, std: real, m: real, s: real, c: real, v: real)
    requires n > 1.0 && WithOne(n, mean, std, m, s, c)
    ensures n * (m - mean) == -(c - m) && n * (c - mean) == (n - 1.0) * (c - m)
    ensures n * (v - mean) == n * (v - m) - (c - m)
  {
  }

  lemma SquareOfProduct(n: real, x: real, y: real)
    requires n * x == y
    ensures n * n * Square(x) == Square(y)
  {
    assert n * n * (x * x) == (n * x) * (n * x);
  }

  lemma Cancel(n: real, x: real, y: real)
    requires n > 0.0 && n * x == n * y
    ensures x == y
  {
    assert n * (x - y) == 0.0;
    ZeroProduct(n, x - y);
  }

  lemma Collected(n: real, spread: real, own: real, gap: real, far: real, d: real)
    requires n * spread == (n - 1.0) * own + (n - 1.0) * gap + far
    requires n * n * gap == d && n * n * far == (n - 1.0) * (n - 1.0) * d
    ensures n * (n * n * spread) == n * ((n - 1.0) * (n * own + d))
  {
    assert n * (n * n * spread) == n * n * (n * spread);
    assert n * n * ((n - 1.0) * own + (n - 1.0) * gap + far) ==
           (n - 1.0) * (n * n * own) + (n - 1.0) * (n * n * gap) + n * n * far;
    assert (n - 1.0) * (n * n * own) + (n - 1.0) * d + (n - 1.0) * (n - 1.0) * d == n * ((n - 1.0) * (n * own + d));
  }

  lemma SpreadMoves(n: real, spread: real, own: real, gap: real, far: real, d: real)
    requires n > 1.0 && n * spread == (n - 1.0) * own + (n - 1.0) * gap + far
    requires n * n * gap == d && n * n * far == (n - 1.0) * (n - 1.0) * d
    ensures n * n * spread == (n - 1.0) * (n * own + d)
  {
    Collected(n, spread, own, gap, far, d);
    Cancel(n, n * n * spread, (n - 1.0) * (n * own + d));
  }

  /** Both gaps are the hour's distance `d`, scaled. */
  lemma ScaledGaps(n: real, gap: real, far: real, d: real)
    requires n * gap == -d && n * far == (n - 1.0) * d
    ensures n * n * Square(gap) == Square(d) && n * n * Square(far) == (n - 1.0) * (n - 1.0) * Square(d)
  {
    SquareOfProduct(n, gap, -d);
    SquareOfProduct(n, far, (n - 1.0) * d);
    SquareOfProduct(n - 1.0, d, (n - 1.0) * d);
  }

  lemma DeviationMoves(n: real, mean: real, std: real, m: real, s: real, c: real)
    requires n > 1.0 && WithOne(n, mean, std, m, s, c)
    ensures n * n * Square(std) == (n - 1.0) * (n * Square(s) + Square(c - m))
  {
    MeanMoves(n, mean, std, m, s, c, c);
    DeviationFrom(n, std, s, m - mean, c - mean, c - m);
  }

  lemma DeviationFrom(n: real, std: real, s: real, gap: real, far: real, d: real)
    requires n > 1.0 && n * Square(std) == (n - 1.0) * Square(s) + (n - 1.0) * Square(gap) + Square(far)
    requires n * gap == -d && n * far == (n - 1.0) * d
    ensures n * n * Square(std) == (n - 1.0) * (n * Square(s) + Square(d))
  {
    ScaledGaps(n, gap, far, d);
    SpreadMoves(n, Square(std), Square(s), Square(gap), Square(far), Square(d));
  }

  lemma PositiveProduct(a: real, b: real)
    requires a > 0.0 && b > 0.0
    ensures a * b > 0.0
  {
  }

  lemma SmallerSquare(x: real, z: real)
    requires 0.0 <= x < z
    ensures Square(x) < Square(z)
  {
    var a, b := z - x, z + x;
    PositiveProduct(a, b);
    assert a * b == z * z - x * x;
  }

  lemma OrderOfSquares(x: real, z: real)
    requires z >= 0.0
    ensures x >= z <==> x >= 0.0 && Square(x) >= Square(z)
  {
    if x > z {
      SmallerSquare(z, x);
    } else if 0.0 <= x < z {
      SmallerSquare(x, z);
    }
  }

  /** A volume `v` spikes over a history of `n` hours of which one has `c` mentions and the
      others have mean `m` and deviation `s`. */
  ghost predicate SpikesOver(n: real, m: real, s: real, c: real, v: real) {
    && (s != 0.0 || c != m) && n * (v - m) >= c - m
    && Square(n * (v - m) - (c - m)) >= 9.0 * ((n - 1.0) * (n * Square(s) + Square(c - m)))
  }

  lemma SpreadIsPositive(n: real, s: real, d: real)
    requires n > 1.0
    ensures (n - 1.0) * (n * Square(s) + Square(d)) > 0.0 <==> s != 0.0 || d != 0.0
  {
    ZeroProduct(s, s);
    ZeroProduct(d, d);
    var both := n * Square(s) + Square(d);
    ZeroProduct(n, Square(s));
    assert n * Square(s) >= 0.0 && both >= 0.0;
    ZeroProduct(n - 1.0, both);
    assert (n - 1.0) * both >= 0.0;
  }

  lemma ScaledOrder(n: real, gap: real, std: real)
    requires n > 0.0
    ensures gap >= 3.0 * std <==> n * gap >= 3.0 * (n * std)
  {
    assert n * gap - 3.0 * (n * std) == (gap - 3.0 * std) * n;
    SignOfProduct(gap - 3.0 * std, n);
  }

  lemma PositiveScaled(n: real, std: real)
    requires n > 0.0 && std >= 0.0
    ensures std > 0.0 <==> n * n * Square(std) > 0.0
  {
    ZeroProduct(n, std);
    assert n * n * Square(std) == Square(n * std);
    ZeroProduct(n * std, n * std);
  }

  /** Three deviations above the mean, said of the other hours. */
  lemma SpikeAgainstOthers(n: real, mean: real, std: real, m: real, s: real, c: real, v: real)
    requires n > 1.0 && std >= 0.0 && WithOne(n, mean, std, m, s, c)
    ensures std > 0.0 && v >= mean + 3.0 * std <==> SpikesOver(n, m, s, c, v)
  {
    MeanMoves(n, mean, std, m, s, c, v);
    DeviationMoves(n, mean, std, m, s, c);
    SpreadIsPositive(n, s, c - m);
    var x, spread := n * (v - m) - (c - m), (n - 1.0) * (n * Square(s) + Square(c - m));
    ThreeDeviations(n, std, v - mean, x, spread);
    AboveByThree(v, mean, std);
    OverMeans(n, m, s, c, v, x, spread);
  }

  lemma OverMeans(n: real, m: real, s: real, c: real, v: real, x: real, spread: real)
    requires x == n * (v - m) - (c - m) && spread == (n - 1.0) * (n * Square(s) + Square(c - m))
    requires spread > 0.0 <==> s != 0.0 || c - m != 0.0
    ensures SpikesOver(n, m, s, c, v) <==> spread > 0.0 && x >= 0.0 && Square(x) >= 9.0 * spread
  {
  }

  lemma AboveByThree(v: real, mean: real, std: real)
    ensures v >= mean + 3.0 * std <==> v - mean >= 3.0 * std
  {
  }

  lemma ThreeDeviations(n: real, std: real, gap: real, x: real, spread: real)
    requires n > 1.0 && std >= 0.0 && x == n * gap && spread == n * n * Square(std)
    ensures std > 0.0 && gap >= 3.0 * std <==> spread > 0.0 && x >= 0.0 && Square(x) >= 9.0 * spread
  {
    PositiveScaled(n, std);
    ScaledOrder(n, gap, std);
    var z := 3.0 * (n * std);
    assert Square(z) == 9.0 * (n * n * Square(std));
    OrderOfSquares(x, z);
  }

  /** When all of the hour's mentions are there to be counted, only its distance from the mean of
      the others matters: by n / (n - 10), it has to be further off than a spike over them. */
  lemma SpikesOverWhenComplete(n: real, m: real, s: real, c: real)
    requires n > 1.0
    ensures SpikesOver(n, m, s, c, c) <==> c > m && (n - 10.0) * Square(c - m) >= 9.0 * n * Square(s)
  {
    var d := c - m;
    ZeroProduct(s, s);
    CompleteSpikes(n, Square(s), d, Square(d), n * d - d, (n - 10.0) * Square(d) - 9.0 * n * Square(s));
  }

  lemma CompleteSpikes(n: real, own: real, d: real, dd: real, x: real, room: real)
    requires n > 1.0 && own >= 0.0 && dd == Square(d) && x == n * d - d && room == (n - 10.0) * dd - 9.0 * n * own
    ensures (own > 0.0 || d != 0.0) && x >= 0.0 && Square(x) >= 9.0 * ((n - 1.0) * (n * own + dd)) <==> d > 0.0 && room >= 0.0
  {
    var others := n - 1.0;
    RoomIsWhatIsLeft(n, own, d, dd, x, others, room);
    SignOfProduct(room, others);
    assert x == d * others;
    SignOfProduct(d, others);
    NoDistanceNoSpike(n, own, d, dd);
  }

  lemma RoomIsWhatIsLeft(n: real, own: real, d: real, dd: real, x: real, others: real, room: real)
    requires x == n * d - d && dd == Square(d) && others == n - 1.0 && room == (n - 10.0) * dd - 9.0 * n * own
    ensures Square(x) - 9.0 * ((n - 1.0) * (n * own + dd)) == room * others
  {
    SquareOfProduct(n - 1.0, d, x);
    PullOut(n, own, dd);
  }

  lemma PullOut(n: real, own: real, d: real)
    ensures (n - 1.0) * (n - 1.0) * d - 9.0 * ((n - 1.0) * (n * own + d)) == ((n - 10.0) * d - 9.0 * n * own) * (n - 1.0)
  {
  }

  lemma NoDistanceNoSpike(n: real, own: real, d: real, dd: real)
    requires n > 1.0 && dd == Square(d) && own >= 0.0
    ensures d == 0.0 && own > 0.0 ==> (n - 10.0) * dd - 9.0 * n * own < 0.0
  {
    if d == 0.0 && own > 0.0 {
      PositiveProduct(n, own);
      assert dd == 0.0;
    }
  }

  // ---------------------------------------------------------------- the hours of the pipeline's window

  /** The hourly counts of a source that the baseline was computed from. */
  function History(table: seq<Mention>, brand: string, days: int, now: int, source: string): seq<real>
    requires days > 0
  {
    PerHour(table, WindowFor(brand, days, now), source, HoursIn(days))
  }

  /** `m` and `s` are the mean and the deviation of the other hours of the history. */
  ghost predicate OthersAre(history: seq<real>, k: nat, m: real, s: real) {
    k < |history| && IsMeanAndStd(Others(history, k), m, s)
  }

  lemma HistoryHour(table: seq<Mention>, brand: string, days: int, now: int, source: string, k: nat)
    requires days > 0 && k < HoursIn(days)
    ensures |History(table, brand, days, now, source)| == HoursIn(days) > 1
    ensures History(table, brand, days, now, source)[k] ==
      CountInHour(table, WindowFor(brand, days, now), source, 0, HourAt(WindowFor(brand, days, now).start, 0) + k) as real
  {
  }

  /** Hour `k` of the history is this hour, in which the history counts `c` mentions, and the
      other hours have mean `m` and deviation `s`. */
  ghost predicate HourOfHistory(input: DetectInput, table: seq<Mention>, days: int, source: string, k: nat, hour: int,
                                n: real, c: real, m: real, s: real) {
    && days > 0 && n == HoursIn(days) as real
    && hour == HourAt(WindowFor(input.brand, days, input.now).start, 0) + k
    && OthersAre(History(table, input.brand, days, input.now, source), k, m, s)
    && c == History(table, input.brand, days, input.now, source)[k]
  }

  lemma SpikesOverHistory(input: DetectInput, table: seq<Mention>, labels: Labels, days: int, source: string, k: nat, hour: int,
                          n: real, c: real, m: real, s: real, volume: nat)
    requires IsBaseline(input.baseline, table, labels, input.brand, days, input.now) && source in input.baseline.mean
    requires HourOfHistory(input, table, days, source, k, hour, n, c, m, s)
    ensures Spikes(input.baseline, source, volume) <==> SpikesOver(n, m, s, c, volume as real)
  {
    var history := History(table, input.brand, days, input.now, source);
    var mean, std := input.baseline.mean[source], input.baseline.std[source];
    HistoryHour(table, input.brand, days, input.now, source, k);
    SampleWithOne(history, k, mean, std, m, s);
    SpikeAgainstOthers(n, mean, std, m, s, c, volume as real);
  }

  lemma AlertWhenSpikes(input: DetectInput, table: seq<Mention>, labels: Labels, days: int, bucket: int -> string, source: string, hour: int)
    requires IsBucketing(bucket) && IsBaseline(input.baseline, table, labels, input.brand, days, input.now)
    ensures HasAlert(Evaluated(input, bucket).alerts, DedupeKey(Spike, source, bucket(hour))) <==>
      input.brand != "" && Volume(input, source, hour) > 0 && Spikes(input.baseline, source, Volume(input, source, hour))
  {
    ComputedSpreadsAreValid(input.baseline, table, labels, input.brand, days, input.now);
    RaisedExactlyWhen(Spike, input, bucket, source, hour);
    SpikeRaisedExactlyWhen(input, bucket, source, hour);
  }

  /** Exactly when an hour of the baseline's history, of which the run has `Volume` mentions and
      the table `c`, still raises a spike against the history that holds it. */
  lemma OwnHourSpikesExactlyWhen(input: DetectInput, table: seq<Mention>, labels: Labels, days: int, bucket: int -> string,
                                 source: string, k: nat, hour: int, n: real, c: real, m: real, s: real)
    requires IsBucketing(bucket)
    requires IsBaseline(input.baseline, table, labels, input.brand, days, input.now) && source in input.baseline.mean
    requires HourOfHistory(input, table, days, source, k, hour, n, c, m, s)
    ensures HasAlert(Evaluated(input, bucket).alerts, DedupeKey(Spike, source, bucket(hour))) <==>
      input.brand != "" && Volume(input, source, hour) > 0 && SpikesOver(n, m, s, c, Volume(input, source, hour) as real)
  {
    AlertWhenSpikes(input, table, labels, days, bucket, source, hour);
    SpikesOverHistory(input, table, labels, days, source, k, hour, n, c, m, s, Volume(input, source, hour));
  }

  /** When every mention of the hour is in the run's window and classified: an hour `d` above the
      mean of the other n - 1 hours still spikes exactly if (n - 10) d^2 is at least 9 n s^2.
      Without its own count in the history, d^2 of 9 s^2 would do. */
  lemma CompleteHourSpikesExactlyWhen(input: DetectInput, table: seq<Mention>, labels: Labels, days: int, bucket: int -> string,
                                      source: string, k: nat, hour: int, n: real, c: real, m: real, s: real)
    requires IsBucketing(bucket) && input.brand != ""
    requires IsBaseline(input.baseline, table, labels, input.brand, days, input.now) && source in input.baseline.mean
    requires HourOfHistory(input, table, days, source, k, hour, n, c, m, s) && Volume(input, source, hour) as real == c > 0.0
    ensures HasAlert(Evaluated(input, bucket).alerts, DedupeKey(Spike, source, bucket(hour))) <==>
      c > m && (n - 10.0) * Square(c - m) >= 9.0 * n * Square(s)
  {
    OwnHourSpikesExactlyWhen(input, table, labels, days, bucket, source, k, hour, n, c, m, s);
    SpikesOverWhenComplete(n, m, s, c);
  }

  /** An hour this far above the mean of the others would spike if its own count were not in
      the history. */
  ghost predicate SpikesOverOthers(m: real, s: real, c: real) { s > 0.0 && c >= m + 3.0 * s }

  lemma BandBelowThreshold(n: real, s: real, d: real)
    requires n > 10.0 && s > 0.0
    ensures (n - 10.0) * Square(d) < 9.0 * n * Square(s) <==> Square(d) < 9.0 * Square(s) * (n / (n - 10.0))
  {
    var x, y := (n - 10.0) * Square(d), 9.0 * n * Square(s);
    var bound := 9.0 * Square(s) * (n / (n - 10.0));
    assert n / (n - 10.0) * (n - 10.0) == n;
    assert bound * (n - 10.0) == y;
    assert (Square(d) - bound) * (n - 10.0) == x - y;
    SignOfProduct(Square(d) - bound, n - 10.0);
  }

  /** Close to the others, and short of their spike, nothing spikes with its own count either. */
  lemma ShortOfTheOthers(n: real, s: real, d: real)
    requires n > 10.0 && s > 0.0 && 0.0 < d < 3.0 * s
    ensures (n - 10.0) * Square(d) < 9.0 * n * Square(s)
  {
    SmallerSquare(d, 3.0 * s);
    assert Square(3.0 * s) == 9.0 * Square(s);
    var own, dd := Square(s), Square(d);
    PositiveProduct(n - 10.0, 9.0 * own - dd);
    PositiveProduct(s, s);
    assert (n - 10.0) * (9.0 * own - dd) == 9.0 * n * own - 90.0 * own - (n - 10.0) * dd;
  }

  lemma WithOwnCount(n: real, m: real, s: real, c: real, spikes: bool)
    requires n > 10.0 && s >= 0.0 && (spikes <==> c > m && (n - 10.0) * Square(c - m) >= 9.0 * n * Square(s))
    ensures SpikesOverOthers(m, s, c) && !spikes <==> SpikesOverOthers(m, s, c) && Square(c - m) < 9.0 * Square(s) * (n / (n - 10.0))
    ensures !SpikesOverOthers(m, s, c) && spikes <==> s == 0.0 && c > m
  {
    var d := c - m;
    if s > 0.0 {
      BandBelowThreshold(n, s, d);
      if 0.0 < d < 3.0 * s {
        ShortOfTheOthers(n, s, d);
      }
    } else if d > 0.0 {
      PositiveProduct(d, d);
      PositiveProduct(n - 10.0, Square(d));
    }
  }

  /** So an hour that stands out over the others, but by less than this band, suppresses itself,
      and if the others are all alike, any hour above them makes its own spike. */
  lemma SuppressesItselfExactlyWhen(input: DetectInput, table: seq<Mention>, labels: Labels, days: int, bucket: int -> string,
                                    source: string, k: nat, hour: int, n: real, c: real, m: real, s: real)
    requires IsBucketing(bucket) && input.brand != ""
    requires IsBaseline(input.baseline, table, labels, input.brand, days, input.now) && source in input.baseline.mean
    requires HourOfHistory(input, table, days, source, k, hour, n, c, m, s) && Volume(input, source, hour) as real == c > 0.0
    ensures var raised := HasAlert(Evaluated(input, bucket).alerts, DedupeKey(Spike, source, bucket(hour)));
      && (SpikesOverOthers(m, s, c) && !raised <==>
          SpikesOverOthers(m, s, c) && Square(c - m) < 9.0 * Square(s) * (n / (n - 10.0)))
      && (!SpikesOverOthers(m, s, c) && raised <==> s == 0.0 && c > m)
  {
    CompleteHourSpikesExactlyWhen(input, table, labels, days, bucket, source, k, hour, n, c, m, s);
    HistoryHour(table, input.brand, days, input.now, source, k);
    WithOwnCount(n, m, s, c, HasAlert(Evaluated(input, bucket).alerts, DedupeKey(Spike, source, bucket(hour))));
  }
}
