/** The arithmetic behind alerting: `internal/stats/stats.go`. */
module Stats {
  import opened Ordering
  import opened Roots

  // ---------------------------------------------------------------- sums

  function SumOf<T>(f: T -> real, s: seq<T>): real {
    if |s| == 0 then 0.0 else SumOf(f, s[..|s| - 1]) + f(s[|s| - 1])
  }

  lemma {:induction false} SumOfConcat<T>(f: T -> real, a: seq<T>, b: seq<T>)
    ensures SumOf(f, a + b) == SumOf(f, a) + SumOf(f, b)
  {
    if |b| == 0 {
      assert a + b == a;
    } else {
      SumOfConcat(f, a, b[..|b| - 1]);
      assert (a + b)[..|a + b| - 1] == a + b[..|b| - 1];
    }
  }

  lemma SumOfMore<T>(f: T -> real, s: seq<T>, x: T)
    ensures SumOf(f, s + [x]) == SumOf(f, s) + f(x)
  {
    assert (s + [x])[..|s|] == s;
  }

  lemma SumOfNext<T>(f: T -> real, s: seq<T>, k: nat)
    requires k < |s|
    ensures SumOf(f, s[..k + 1]) == SumOf(f, s[..k]) + f(s[k])
  {
    assert s[..k + 1] == s[..k] + [s[k]];
    SumOfMore(f, s[..k], s[k]);
  }

  lemma SumOfThree<T>(f: T -> real, s: seq<T>, a: seq<T>, x: T, b: seq<T>)
    requires s == a + [x] + b
    ensures SumOf(f, s) == SumOf(f, a + b) + f(x)
  {
    SumOfConcat(f, a, b);
    SumOfConcat(f, a + [x], b);
    SumOfMore(f, a, x);
  }

  lemma SumOfSplit<T>(f: T -> real, s: seq<T>, k: nat)
    requires k < |s|
    ensures SumOf(f, s) == SumOf(f, s[..k] + s[k + 1..]) + f(s[k])
  {
    Rejoined(s, k);
    SumOfThree(f, s, s[..k], s[k], s[k + 1..]);
  }

  /** A sum depends on what is added, not on the order. */
  lemma {:induction false} SumForgetsOrder<T>(f: T -> real, a: seq<T>, b: seq<T>)
    requires multiset(a) == multiset(b)
    ensures SumOf(f, a) == SumOf(f, b)
    decreases |a|
  {
    SameElements(a, b);
    if |a| > 0 {
      var k := Partner(a, b);
      SumForgetsOrder(f, a[..|a| - 1], b[..k] + b[k + 1..]);
      SumOfSplit(f, b, k);
    }
  }

  // ---------------------------------------------------------------- mean and standard deviation

  function Itself(x: real): real { x }

  function Square(x: real): (r: real)
    ensures r >= 0.0
    ensures r == 0.0 <==> x == 0.0
  {
    ZeroProduct(x, x);
    x * x
  }

  function SquaredGap(mean: real): real -> real { (x: real) => Square(x - mean) }

  /** The population mean and standard deviation, both 0 for no values. */
  ghost predicate IsMeanAndStd(values: seq<real>, mean: real, std: real) {
    if |values| == 0 then mean == 0.0 && std == 0.0
    else
      && mean * |values| as real == SumOf(Itself, values)
      && std >= 0.0 && Square(std) * |values| as real == SumOf(SquaredGap(mean), values)
  }

  lemma {:induction false} SquaresAreNonNegative(values: seq<real>, mean: real)
    ensures SumOf(SquaredGap(mean), values) >= 0.0
  {
    if |values| > 0 {
      SquaresAreNonNegative(values[..|values| - 1], mean);
      assert SquaredGap(mean)(values[|values| - 1]) == Square(values[|values| - 1] - mean);
    }
  }

  function Per(total: real, n: nat): (r: real)
    requires n > 0
    ensures r * n as real == total
    ensures total >= 0.0 ==> r >= 0.0
  {
    total / n as real
  }

  method Total(values: seq<real>) returns (total: real)
    ensures total == SumOf(Itself, values)
  {
    total := 0.0;
    for k := 0 to |values|
      invariant total == SumOf(Itself, values[..k])
    {
      SumOfNext(Itself, values, k);
      total := total + values[k];
    }
    assert values[..|values|] == values;
  }

  method SquaredError(values: seq<real>, mean: real) returns (squaredError: real)
    ensures squaredError == SumOf(SquaredGap(mean), values)
  {
    squaredError := 0.0;
    ghost var gap := SquaredGap(mean);
    for k := 0 to |values|
      invariant squaredError == SumOf(gap, values[..k])
    {
      SumOfNext(gap, values, k);
      squaredError := squaredError + Square(values[k] - mean);
    }
    assert values[..|values|] == values;
  }

  lemma RootOfMean(values: seq<real>, mean: real, meanSquare: real, std: real)
    requires |values| > 0 && mean * |values| as real == SumOf(Itself, values)
    requires meanSquare * |values| as real == SumOf(SquaredGap(mean), values) && std >= 0.0 && std * std == meanSquare
    ensures IsMeanAndStd(values, mean, std)
  {
  }

  method MeanAndStd(values: seq<real>, sqrt: real -> real) returns (mean: real, std: real)
    requires IsSqrt(sqrt)
    ensures IsMeanAndStd(values, mean, std)
  {
    if |values| == 0 {
      return 0.0, 0.0;
    }
    var total := Total(values);
    mean := Per(total, |values|);
    var squaredError := SquaredError(values, mean);
    SquaresAreNonNegative(values, mean);
    var meanSquare := Per(squaredError, |values|);
    std := sqrt(meanSquare);
    RootOfMean(values, mean, meanSquare, std);
  }

  lemma ProductsDetermine(a: real, b: real, n: real)
    requires n != 0.0 && a * n == b * n
    ensures a == b
  {
    assert (a - b) * n == 0.0;
    ZeroProduct(a - b, n);
  }

  lemma MeanAndStdAreDetermined(values: seq<real>, m1: real, s1: real, m2: real, s2: real)
    requires IsMeanAndStd(values, m1, s1) && IsMeanAndStd(values, m2, s2)
    ensures m1 == m2 && s1 == s2
  {
    if |values| > 0 {
      ProductsDetermine(m1, m2, |values| as real);
      ProductsDetermine(Square(s1), Square(s2), |values| as real);
      RootsAreUnique(s1, s2);
    }
  }

  /** "A mean and a population std do not care about order." */
  lemma MeanAndStdForgetOrder(a: seq<real>, b: seq<real>, mean: real, std: real)
    requires multiset(a) == multiset(b) && IsMeanAndStd(a, mean, std)
    ensures IsMeanAndStd(b, mean, std)
  {
    SameElements(a, b);
    SumForgetsOrder(Itself, a, b);
    SumForgetsOrder(SquaredGap(mean), a, b);
  }

  lemma {:induction false} NoSquaredError(values: seq<real>, mean: real)
    ensures SumOf(SquaredGap(mean), values) == 0.0 <==> forall k :: 0 <= k < |values| ==> values[k] == mean
  {
    if |values| > 0 {
      var rest, last := values[..|values| - 1], values[|values| - 1];
      NoSquaredError(rest, mean);
      SquaresAreNonNegative(rest, mean);
      assert SquaredGap(mean)(last) == Square(last - mean);
      assert values == rest + [last];
    }
  }

  /** The spread is 0 exactly when every value is the mean. */
  lemma NoSpreadWhenAllEqual(values: seq<real>, mean: real, std: real)
    requires IsMeanAndStd(values, mean, std)
    ensures std == 0.0 <==> forall k :: 0 <= k < |values| ==> values[k] == mean
  {
    NoSquaredError(values, mean);
    if |values| > 0 {
      ZeroProduct(Square(std), |values| as real);
    }
  }

  // ---------------------------------------------------------------- z-scores

  function ZScore(value: real, mean: real, std: real): (z: real)
    ensures z * std == if std == 0.0 then 0.0 else value - mean
    ensures std == 0.0 ==> z == 0.0
  {
    if std == 0.0 then 0.0 else (value - mean) / std
  }

  /** With a positive spread, a z-score of at least `t` says the value is `t` spreads above
      the mean; without one nothing reaches a positive threshold. */
  lemma ZScoreReaches(value: real, mean: real, std: real, t: real)
    requires std >= 0.0 && t > 0.0
    ensures ZScore(value, mean, std) >= t <==> std > 0.0 && value >= mean + t * std
  {
    var z := ZScore(value, mean, std);
    if std > 0.0 {
      assert (z - t) * std == value - mean - t * std;
      assert z >= t <==> (z - t) * std >= 0.0;
    }
  }
}
