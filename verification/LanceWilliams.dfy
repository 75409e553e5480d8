/** The Lance-Williams update is exact for average linkage, and what follows from it:
  merge heights never decrease, distances stay in the range of the initial ones, and a
  row at distance 1 from everything is never merged below cutoff 1. */
module LanceWilliams {
  import opened Ordering
  import opened Linkage

  /** The size-weighted average of two distances. */
  function Update(sizeI: nat, sizeJ: nat, x: real, y: real): real
    requires sizeI > 0 && sizeJ > 0
  {
    (sizeI as real * x + sizeJ as real * y) / (sizeI as real + sizeJ as real)
  }

  lemma WeightedMean(x: real, y: real, a: real, b: real, c: real)
    requires a > 0.0 && b > 0.0 && c > 0.0
    ensures a + b > 0.0 && a * c > 0.0 && b * c > 0.0 && (a + b) * c > 0.0
    ensures (a * (x / (a * c)) + b * (y / (b * c))) / (a + b) == (x + y) / ((a + b) * c)
  {
    assert a * c > 0.0 && b * c > 0.0 && (a + b) * c > 0.0;
    CancelLeft(a, x, c);
    CancelLeft(b, y, c);
    assert (x / c + y / c) == (x + y) / c;
    DivideTwice(x + y, c, a + b);
  }

  lemma CancelLeft(a: real, x: real, c: real)
    requires a > 0.0 && c > 0.0 && a * c > 0.0
    ensures a * (x / (a * c)) == x / c
  {
    var q := x / (a * c);
    assert q * (a * c) == x;
    assert (a * q) * c == x;
  }

  lemma DivideTwice(x: real, c: real, s: real)
    requires c > 0.0 && s > 0.0 && s * c > 0.0
    ensures (x / c) / s == x / (s * c)
  {
    var q := x / (s * c);
    assert q * (s * c) == x;
    assert (q * s) * c == x;
    assert q * s == x / c;
  }

  lemma MergedQuotient(x: real, y: real, a: nat, b: nat, c: nat)
    requires a > 0 && b > 0 && c > 0
    ensures PerPair(x + y, a + b, c) == Update(a, b, PerPair(x, a, c), PerPair(y, b, c))
  {
    WeightedMean(x, y, a as real, b as real, c as real);
    assert (a + b) as real == a as real + b as real;
  }

  /** The mean from a merged cluster is the weighted average of the means from its parts. */
  lemma MeanFromMerged(base: seq<seq<real>>, a: seq<int>, b: seq<int>, c: seq<int>)
    requires Square(base, |base|) && InRange(a, |base|) && InRange(b, |base|) && InRange(c, |base|)
    requires |a| > 0 && |b| > 0 && |c| > 0
    ensures InRange(Merged(a, b), |base|) && |Merged(a, b)| == |a| + |b|
    ensures Mean(base, Merged(a, b), c) == Update(|a|, |b|, Mean(base, a, c), Mean(base, b, c))
  {
    SortElements(IntLess, a + b);
    SameElements(a + b, Merged(a, b));
    PairSumMergedLeft(base, a, b, c);
    MergedQuotient(PairSum(base, a, c), PairSum(base, b, c), |a|, |b|, |c|);
  }

  // ---------------------------------------------------------------- symmetry

  ghost predicate Symmetric(base: seq<seq<real>>)
    requires Square(base, |base|)
  {
    forall x, y :: 0 <= x < |base| && 0 <= y < |base| ==> base[x][y] == base[y][x]
  }

  lemma {:induction false} ColumnSum(base: seq<seq<real>>, x: int, b: seq<int>)
    requires Square(base, |base|) && Symmetric(base) && InRange(b, |base|) && 0 <= x < |base|
    ensures PairSum(base, b, [x]) == RowSum(base[x], b)
  {
    if |b| > 0 {
      ColumnSum(base, x, b[1..]);
      assert RowSum(base[b[0]], [x]) == base[b[0]][x] + RowSum(base[b[0]], [x][1..]);
    }
  }

  lemma {:induction false} PairSumAppendRight(base: seq<seq<real>>, c: seq<int>, a: seq<int>, b: seq<int>)
    requires Square(base, |base|) && InRange(a, |base|) && InRange(b, |base|) && InRange(c, |base|)
    ensures PairSum(base, c, a + b) == PairSum(base, c, a) + PairSum(base, c, b)
  {
    if |c| > 0 {
      PairSumAppendRight(base, c[1..], a, b);
      RowSumAppend(base[c[0]], a, b);
    }
  }

  lemma {:induction false} PairSumEmptyRight(base: seq<seq<real>>, a: seq<int>)
    requires Square(base, |base|) && InRange(a, |base|)
    ensures PairSum(base, a, []) == 0.0
  {
    if |a| > 0 {
      PairSumEmptyRight(base, a[1..]);
    }
  }

  lemma {:induction false} PairSumSymmetric(base: seq<seq<real>>, a: seq<int>, b: seq<int>)
    requires Square(base, |base|) && Symmetric(base) && InRange(a, |base|) && InRange(b, |base|)
    ensures PairSum(base, a, b) == PairSum(base, b, a)
  {
    if |a| == 0 {
      PairSumEmptyRight(base, b);
      assert a == [];
    } else {
      PairSumSymmetric(base, a[1..], b);
      ColumnSum(base, a[0], b);
      PairSumAppendRight(base, b, [a[0]], a[1..]);
      assert a == [a[0]] + a[1..];
    }
  }

  lemma MeanDistanceSymmetric(base: seq<seq<real>>, p: Partition, i: nat, j: nat)
    requires Square(base, |base|) && Symmetric(base) && WellFormed(p, |base|) && i < |base| && j < |base|
    ensures MeanDistance(base, p, i, j) == MeanDistance(base, p, j, i)
  {
    PairSumSymmetric(base, p.members[i], p.members[j]);
    if |p.members[i]| > 0 && |p.members[j]| > 0 {
      PerPairSymmetric(PairSum(base, p.members[i], p.members[j]), |p.members[i]|, |p.members[j]|);
    }
  }

  lemma PerPairSymmetric(sum: real, m: nat, n: nat)
    requires m > 0 && n > 0
    ensures PerPair(sum, m, n) == PerPair(sum, n, m)
  {
    assert m as real * n as real == n as real * m as real;
  }

  // ---------------------------------------------------------------- exactness

  /** The matrix is symmetric on active slots and holds the mean distance of each pair. */
  ghost predicate Exact(base: seq<seq<real>>, d: seq<seq<real>>, p: Partition)
    requires Square(base, |base|) && WellFormed(p, |base|)
  {
    && Square(d, |base|)
    && forall i, j :: 0 <= i < |base| && 0 <= j < |base| && i != j && p.active[i] && p.active[j] ==>
         d[i][j] == d[j][i] == MeanDistance(base, p, i, j)
  }

  /** What folding slot `j` into slot `i` writes into the matrix. */
  ghost predicate Folded(d: seq<seq<real>>, e: seq<seq<real>>, p: Partition, i: int, j: int)
    requires |p.members| == |p.active| && ActivePair(p.active, i, j)
    requires |p.members[i]| > 0 && |p.members[j]| > 0
    requires Square(d, |p.active|) && Square(e, |p.active|)
  {
    var n, sizeI, sizeJ := |p.active|, |p.members[i]|, |p.members[j]|;
    && (forall k :: 0 <= k < n && k != i && k != j && p.active[k] ==>
          e[i][k] == e[k][i] == Update(sizeI, sizeJ, d[i][k], d[j][k]))
    && (forall k, l :: 0 <= k < n && 0 <= l < n && !Rewritten(p.active, i, j, k, l) ==> e[k][l] == d[k][l])
  }

  /** The entries that folding `j` into `i` writes: row and column `i` at the other active slots. */
  predicate Rewritten(active: seq<bool>, i: int, j: int, k: int, l: int)
    requires 0 <= k < |active| && 0 <= l < |active|
  {
    (k == i && l != i && l != j && active[l]) || (l == i && k != i && k != j && active[k])
  }

  lemma UpdatedEntry(base: seq<seq<real>>, d: seq<seq<real>>, e: seq<seq<real>>, p: Partition, i: int, j: int, k: int, l: int)
    requires Square(base, |base|) && Symmetric(base) && WellFormed(p, |base|) && ActivePair(p.active, i, j)
    requires Exact(base, d, p) && Square(e, |base|) && Folded(d, e, p, i, j) && WellFormed(MergeSlots(p, i, j), |base|)
    requires 0 <= k < |base| && 0 <= l < |base| && k != l && MergeSlots(p, i, j).active[k] && MergeSlots(p, i, j).active[l]
    ensures e[k][l] == e[l][k] == MeanDistance(base, MergeSlots(p, i, j), k, l)
  {
    if k == i {
      MeanFromMerged(base, p.members[i], p.members[j], p.members[l]);
    } else if l == i {
      MeanFromMerged(base, p.members[i], p.members[j], p.members[k]);
      MeanDistanceSymmetric(base, MergeSlots(p, i, j), i, k);
    }
  }

  /** The update rule keeps the matrix exact, without summing any member pair again. */
  lemma UpdateIsExact(base: seq<seq<real>>, d: seq<seq<real>>, e: seq<seq<real>>, p: Partition, i: int, j: int)
    requires Square(base, |base|) && Symmetric(base) && WellFormed(p, |base|) && ActivePair(p.active, i, j)
    requires Exact(base, d, p) && Square(e, |base|) && Folded(d, e, p, i, j)
    ensures WellFormed(MergeSlots(p, i, j), |base|) && Exact(base, e, MergeSlots(p, i, j))
  {
    MergeKeepsWellFormed(p, |base|, i, j);
    var q := MergeSlots(p, i, j);
    forall k, l | 0 <= k < |base| && 0 <= l < |base| && k != l && q.active[k] && q.active[l]
      ensures e[k][l] == e[l][k] == MeanDistance(base, q, k, l)
    {
      UpdatedEntry(base, d, e, p, i, j, k, l);
    }
  }

  /** On an exact matrix the code's closest pair is the reference's. */
  lemma ExactClosest(base: seq<seq<real>>, d: seq<seq<real>>, p: Partition, i: int, j: int)
    requires Square(base, |base|) && WellFormed(p, |base|) && Exact(base, d, p)
    ensures Closest(d, p.active, i, j) <==> Closest(MeanDistances(base, p), p.active, i, j)
  {
    var m := MeanDistances(base, p);
    forall a, b | ActivePair(p.active, a, b) ensures d[a][b] == m[a][b] {
    }
  }

  // ---------------------------------------------------------------- merge heights

  /** The distances at which the reference merges, in order. */
  ghost function Heights(base: seq<seq<real>>, p: Partition, cutoff: real): seq<real>
    requires Square(base, |base|) && WellFormed(p, |base|)
    decreases ActiveCount(p.active)
  {
    if exists i, j :: Mergeable(base, p, cutoff, i, j) then
      var i, j :| Mergeable(base, p, cutoff, i, j);
      MergeKeepsWellFormed(p, |base|, i, j);
      DeactivationCounts(p.active, j);
      [MeanDistance(base, p, i, j)] + Heights(base, MergeSlots(p, i, j), cutoff)
    else []
  }

  lemma HeightsStep(base: seq<seq<real>>, p: Partition, cutoff: real, i: int, j: int)
    requires Square(base, |base|) && WellFormed(p, |base|) && Mergeable(base, p, cutoff, i, j)
    ensures WellFormed(MergeSlots(p, i, j), |base|)
    ensures Heights(base, p, cutoff) ==
      [MeanDistance(base, p, i, j)] + Heights(base, MergeSlots(p, i, j), cutoff)
  {
    MergeKeepsWellFormed(p, |base|, i, j);
    forall a, b | Mergeable(base, p, cutoff, a, b) ensures a == i && b == j {
      ClosestUnique(MeanDistances(base, p), p.active, i, j, a, b);
    }
  }

  ghost predicate AllAtLeast(base: seq<seq<real>>, p: Partition, low: real)
    requires Square(base, |base|) && WellFormed(p, |base|)
  {
    forall a, b :: ActivePair(p.active, a, b) ==> MeanDistance(base, p, a, b) >= low
  }

  lemma AverageAtLeast(a: nat, b: nat, x: real, y: real, low: real)
    requires a > 0 && b > 0 && x >= low && y >= low
    ensures Update(a, b, x, y) >= low
  {
    var s, t := a as real, b as real;
    assert s * (x - low) >= 0.0 && t * (y - low) >= 0.0;
    assert s * x + t * y >= low * (s + t);
    QuotientAtLeast(s * x + t * y, s + t, low);
  }

  lemma FactorOrder(x: real, y: real, d: real)
    requires d > 0.0 && x * d <= y * d
    ensures x <= y
  {
  }

  lemma QuotientAtLeast(x: real, d: real, low: real)
    requires d > 0.0 && x >= low * d
    ensures x / d >= low
  {
    assert (x / d) * d == x;
    FactorOrder(low, x / d, d);
  }

  /** Merging the closest pair brings no two clusters closer than that pair was. */
  lemma MergeLowersNothing(base: seq<seq<real>>, p: Partition, cutoff: real, i: int, j: int)
    requires Square(base, |base|) && Symmetric(base) && WellFormed(p, |base|) && Mergeable(base, p, cutoff, i, j)
    ensures WellFormed(MergeSlots(p, i, j), |base|)
    ensures AllAtLeast(base, MergeSlots(p, i, j), MeanDistance(base, p, i, j))
  {
    MergeKeepsWellFormed(p, |base|, i, j);
    var q, low := MergeSlots(p, i, j), MeanDistance(base, p, i, j);
    forall a, b | ActivePair(q.active, a, b) ensures MeanDistance(base, q, a, b) >= low {
      if a == i || b == i {
        var k := if a == i then b else a;
        AtLeastClosest(base, p, i, j, k);
        MeanFromMerged(base, p.members[i], p.members[j], p.members[k]);
        AverageAtLeast(|p.members[i]|, |p.members[j]|,
          MeanDistance(base, p, i, k), MeanDistance(base, p, j, k), low);
        MeanDistanceSymmetric(base, q, i, k);
      } else {
        assert Better(MeanDistances(base, p), i, j, a, b);
      }
    }
  }

  lemma AtLeastClosest(base: seq<seq<real>>, p: Partition, i: int, j: int, k: int)
    requires Square(base, |base|) && Symmetric(base) && WellFormed(p, |base|)
    requires Closest(MeanDistances(base, p), p.active, i, j)
    requires 0 <= k < |base| && p.active[k] && k != i && k != j
    ensures MeanDistance(base, p, i, k) >= MeanDistance(base, p, i, j)
    ensures MeanDistance(base, p, j, k) >= MeanDistance(base, p, i, j)
  {
    var d := MeanDistances(base, p);
    MeanDistanceSymmetric(base, p, i, k);
    MeanDistanceSymmetric(base, p, j, k);
    assert if i < k then Better(d, i, j, i, k) else Better(d, i, j, k, i);
    assert if j < k then Better(d, i, j, j, k) else Better(d, i, j, k, j);
  }

  ghost predicate AscendWithin(h: seq<real>, low: real, high: real) {
    && (forall k :: 0 <= k < |h| ==> low <= h[k] <= high)
    && forall k, l :: 0 <= k < l < |h| ==> h[k] <= h[l]
  }

  lemma LowestFirst(first: real, rest: seq<real>, low: real, high: real)
    requires AscendWithin(rest, first, high) && low <= first <= high
    ensures AscendWithin([first] + rest, low, high)
  {
  }

  /** Merge heights never decrease over a run. */
  lemma {:induction false} HeightsNeverDecrease(base: seq<seq<real>>, p: Partition, cutoff: real, low: real) returns (h: seq<real>)
    requires Square(base, |base|) && Symmetric(base) && WellFormed(p, |base|) && AllAtLeast(base, p, low)
    ensures h == Heights(base, p, cutoff) && AscendWithin(h, low, cutoff)
    decreases ActiveCount(p.active)
  {
    if i, j :| Mergeable(base, p, cutoff, i, j) {
      HeightsStep(base, p, cutoff, i, j);
      MergeLowersNothing(base, p, cutoff, i, j);
      DeactivationCounts(p.active, j);
      var rest := HeightsNeverDecrease(base, MergeSlots(p, i, j), cutoff, MeanDistance(base, p, i, j));
      LowestFirst(MeanDistance(base, p, i, j), rest, low, cutoff);
      h := [MeanDistance(base, p, i, j)] + rest;
    } else {
      h := [];
    }
  }

  lemma HeightsAscend(base: seq<seq<real>>, p: Partition, cutoff: real) returns (h: seq<real>)
    requires Square(base, |base|) && Symmetric(base) && WellFormed(p, |base|)
    ensures h == Heights(base, p, cutoff)
    ensures forall k, l :: 0 <= k < l < |h| ==> h[k] <= h[l]
  {
    if i, j :| Mergeable(base, p, cutoff, i, j) {
      HeightsStep(base, p, cutoff, i, j);
      MergeLowersNothing(base, p, cutoff, i, j);
      var low := MeanDistance(base, p, i, j);
      var rest := HeightsNeverDecrease(base, MergeSlots(p, i, j), cutoff, low);
      LowestFirst(low, rest, low, cutoff);
      h := [low] + rest;
    } else {
      h := [];
    }
  }

  // ---------------------------------------------------------------- ranges

  ghost predicate Within(base: seq<seq<real>>, low: real, high: real)
    requires Square(base, |base|)
  {
    forall x, y :: 0 <= x < |base| && 0 <= y < |base| ==> low <= base[x][y] <= high
  }

  lemma {:induction false} RowSumWithin(row: seq<real>, b: seq<int>, low: real, high: real)
    requires InRange(b, |row|) && forall k :: 0 <= k < |b| ==> low <= row[b[k]] <= high
    ensures low * |b| as real <= RowSum(row, b) <= high * |b| as real
  {
    if |b| > 0 {
      RowSumWithin(row, b[1..], low, high);
      assert low * |b| as real == low + low * |b[1..]| as real;
      assert high * |b| as real == high + high * |b[1..]| as real;
    }
  }

  lemma {:induction false} RowSumsWithin(base: seq<seq<real>>, a: seq<int>, b: seq<int>, low: real, high: real)
    requires Square(base, |base|) && InRange(a, |base|) && InRange(b, |base|)
    requires forall k :: 0 <= k < |a| ==> low <= RowSum(base[a[k]], b) <= high
    ensures low * |a| as real <= PairSum(base, a, b) <= high * |a| as real
  {
    if |a| > 0 {
      RowSumsWithin(base, a[1..], b, low, high);
      OneMore(low, |a|);
      OneMore(high, |a|);
    }
  }

  lemma PairRowWithin(base: seq<seq<real>>, a: seq<int>, b: seq<int>, low: real, high: real, k: nat)
    requires Square(base, |base|) && InRange(a, |base|) && InRange(b, |base|) && k < |a|
    requires forall x, y :: x in a && y in b ==> low <= base[x][y] <= high
    ensures low * |b| as real <= RowSum(base[a[k]], b) <= high * |b| as real
  {
    var x := a[k];
    forall l | 0 <= l < |b| ensures low <= base[x][b[l]] <= high {
      assert x in a && b[l] in b;
    }
    RowSumWithin(base[x], b, low, high);
  }

  lemma PairSumWithin(base: seq<seq<real>>, a: seq<int>, b: seq<int>, low: real, high: real, rowLow: real, rowHigh: real)
    requires Square(base, |base|) && InRange(a, |base|) && InRange(b, |base|)
    requires forall x, y :: x in a && y in b ==> low <= base[x][y] <= high
    requires rowLow == low * |b| as real && rowHigh == high * |b| as real
    ensures rowLow * |a| as real <= PairSum(base, a, b) <= rowHigh * |a| as real
  {
    forall k | 0 <= k < |a| ensures rowLow <= RowSum(base[a[k]], b) <= rowHigh {
      PairRowWithin(base, a, b, low, high, k);
    }
    RowSumsWithin(base, a, b, rowLow, rowHigh);
  }

  lemma OneMore(x: real, n: nat)
    requires n > 0
    ensures x * n as real == x + x * (n - 1) as real
  {
  }

  /** A mean lies between the bounds of what it averages. */
  lemma MeanWithin(base: seq<seq<real>>, a: seq<int>, b: seq<int>, low: real, high: real)
    requires Square(base, |base|) && InRange(a, |base|) && InRange(b, |base|) && |a| > 0 && |b| > 0
    requires forall x, y :: x in a && y in b ==> low <= base[x][y] <= high
    ensures low <= Mean(base, a, b) <= high
  {
    PairSumWithin(base, a, b, low, high, low * |b| as real, high * |b| as real);
    var m := |a| as real * |b| as real;
    assert m > 0.0;
    assert low * |b| as real * |a| as real == low * m && high * |b| as real * |a| as real == high * m;
    QuotientAtLeast(PairSum(base, a, b), m, low);
    QuotientAtMost(PairSum(base, a, b), m, high);
  }

  lemma QuotientAtMost(x: real, d: real, high: real)
    requires d > 0.0 && x <= high * d
    ensures x / d <= high
  {
    assert (x / d) * d == x;
    FactorOrder(x / d, high, d);
  }

  /** A row at distance 1 from every row stays alone at every cutoff below 1. */
  lemma {:induction false} DistantRowStaysAlone(base: seq<seq<real>>, p: Partition, cutoff: real, r: nat)
    requires Square(base, |base|) && WellFormed(p, |base|) && cutoff < 1.0 && r < |base|
    requires forall x :: 0 <= x < |base| ==> base[r][x] == base[x][r] == 1.0
    requires p.active[r] && p.members[r] == [r]
    ensures var q := AverageLinkage(base, p, cutoff); q.active[r] && q.members[r] == [r]
    decreases ActiveCount(p.active)
  {
    if i, j :| Mergeable(base, p, cutoff, i, j) {
      if i == r || j == r {
        MeanWithin(base, p.members[i], p.members[j], 1.0, 1.0);
      }
      AverageLinkageStep(base, p, cutoff, i, j);
      DeactivationCounts(p.active, j);
      DistantRowStaysAlone(base, MergeSlots(p, i, j), cutoff, r);
    } else {
      AverageLinkageStops(base, p, cutoff);
    }
  }
}
