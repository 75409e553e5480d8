/** What the returned clusters are, for every matrix, cutoff and minimum size. */
module Clusters {
  import opened Roots
  import opened Vectors
  import opened Ordering
  import opened Linkage
  import opened LanceWilliams
  import opened Agglomerative
  import T = Tfidf

  // ---------------------------------------------------------------- membership and order

  ghost predicate Surviving(p: Partition, minSize: int, n: nat, cluster: seq<int>)
    requires |p.members| == |p.active| && n <= |p.members|
  {
    exists i :: 0 <= i < n && p.active[i] && p.members[i] == cluster && |cluster| >= minSize
  }

  ghost predicate FirstsAscend(s: seq<seq<int>>, n: nat) {
    && (forall k :: 0 <= k < |s| ==> |s[k]| > 0 && s[k][0] < n)
    && (forall k, l :: 0 <= k < l < |s| ==> s[k][0] < s[l][0])
  }

  lemma FirstsDistinct(s: seq<seq<int>>, n: nat)
    requires FirstsAscend(s, n)
    ensures Distinct(s)
  {
    forall k, l | 0 <= k < l < |s| ensures s[k] != s[l] {
      assert s[k][0] < s[l][0];
    }
  }

  /** The survivors are the active clusters of sufficient size, listed by first member. */
  lemma {:induction false} SurvivorsListed(p: Partition, minSize: int, size: nat, n: nat)
    requires WellFormed(p, size) && n <= size
    ensures forall c :: c in Survivors(p, minSize, n) <==> Surviving(p, minSize, n, c)
    ensures FirstsAscend(Survivors(p, minSize, n), n)
  {
    if n > 0 {
      SurvivorsListed(p, minSize, size, n - 1);
      var s, t := Survivors(p, minSize, n - 1), Survivors(p, minSize, n);
      forall c ensures c in t <==> Surviving(p, minSize, n, c) {
        if Surviving(p, minSize, n - 1, c) {
          assert c in s;
        }
        if p.active[n - 1] && p.members[n - 1] == c && |c| >= minSize {
          assert t[|s|] == c;
        }
        if c in t && c !in s {
          assert c == p.members[n - 1];
        }
      }
    }
  }

  lemma ClusterOrder()
    ensures StrictWeak(ClusterBefore)
  {
  }

  /** The result holds exactly the final clusters of at least `minSize` members, strictly
      ordered by size descending and then by first member. */
  lemma CollectedClusters(p: Partition, n: nat, minSize: int)
    requires WellFormed(p, n)
    ensures var out := Collected(p, minSize);
      && (forall c :: c in out <==> Surviving(p, minSize, n, c))
      && (forall k, l :: 0 <= k < l < |out| ==> ClusterBefore(out[k], out[l]))
      && (forall k, l :: 0 <= k < l < |out| && |out[k]| > 0 && |out[l]| > 0 ==>
            |out[k]| > |out[l]| || (|out[k]| == |out[l]| && out[k][0] < out[l][0]))
  {
    var s, out := Survivors(p, minSize, n), Collected(p, minSize);
    SurvivorsListed(p, minSize, n, n);
    ClusterOrder();
    SortElements(ClusterBefore, s);
    SortSorted(ClusterBefore, s);
    SameElements(s, out);
    FirstsDistinct(s, n);
    PermutationDistinct(s, out);
    forall k, l | 0 <= k < l < |out| ensures ClusterBefore(out[k], out[l]) {
      assert out[k] in out && out[l] in out;
      if !ClusterBefore(out[k], out[l]) {
        TiesAreEqual(p, n, minSize, out[k], out[l]);
      }
    }
  }

  lemma TiesAreEqual(p: Partition, n: nat, minSize: int, a: seq<int>, b: seq<int>)
    requires WellFormed(p, n) && Surviving(p, minSize, n, a) && Surviving(p, minSize, n, b)
    requires !ClusterBefore(a, b) && !ClusterBefore(b, a)
    ensures a == b
  {
    var i :| 0 <= i < n && p.active[i] && p.members[i] == a;
    var j :| 0 <= j < n && p.active[j] && p.members[j] == b;
    assert i == a[0] == b[0] == j;
  }

  /** That order is the only one: any listing of the same clusters in it is the result. */
  lemma OrderIsUnique(p: Partition, n: nat, minSize: int, other: seq<seq<int>>)
    requires WellFormed(p, n) && multiset(other) == multiset(Collected(p, minSize))
    requires Sorted(ClusterBefore, other)
    ensures other == Collected(p, minSize)
  {
    var out := Collected(p, minSize);
    CollectedClusters(p, n, minSize);
    forall x, y | x in out && y in out && !ClusterBefore(x, y) && !ClusterBefore(y, x) ensures x == y {
      TiesAreEqual(p, n, minSize, x, y);
    }
    SortedUnique(ClusterBefore, out, other);
  }

  /** Each cluster lists rows once and in ascending order, and no row is in two of them. */
  lemma CollectedDisjoint(p: Partition, n: nat, minSize: int)
    requires WellFormed(p, n)
    ensures var out := Collected(p, minSize);
      && (forall c :: c in out ==> Ascending(c) && InRange(c, n) && |c| > 0 && |c| >= minSize)
      && (forall k, l, x :: 0 <= k < |out| && 0 <= l < |out| && k != l && x in out[k] ==> x !in out[l])
  {
    var out := Collected(p, minSize);
    CollectedClusters(p, n, minSize);
    forall c | c in out ensures Ascending(c) && InRange(c, n) && |c| > 0 && |c| >= minSize {
      var i :| 0 <= i < n && p.active[i] && p.members[i] == c && |c| >= minSize;
    }
    forall k, l, x | 0 <= k < |out| && 0 <= l < |out| && k != l && x in out[k] ensures x !in out[l] {
      assert out[k] in out && out[l] in out;
      var i :| 0 <= i < n && p.active[i] && p.members[i] == out[k];
      var j :| 0 <= j < n && p.active[j] && p.members[j] == out[l];
      assert i != j by {
        if k < l {
          assert ClusterBefore(out[k], out[l]);
        } else {
          assert ClusterBefore(out[l], out[k]);
        }
      }
    }
  }

  // ---------------------------------------------------------------- for rows of a matrix

  /** At the end the clusters partition the rows, and any two of them are further apart, by
      the true mean over their member pairs, than the cutoff. */
  lemma FinalClustersAreApart(rows: seq<seq<real>>, cutoff: real)
    requires Rectangular(rows)
    ensures WellFormed(FinalPartition(rows, cutoff), |rows|)
    ensures Apart(RowDistances(rows), FinalPartition(rows, cutoff), cutoff)
  {
    SingletonsWellFormed(|rows|);
    SurvivorsAreApart(RowDistances(rows), Singletons(|rows|), cutoff);
  }

  lemma LargerCutoffsNest(rows: seq<seq<real>>, c1: real, c2: real)
    requires Rectangular(rows) && c1 <= c2
    ensures Nested(FinalPartition(rows, c1), FinalPartition(rows, c2))
  {
    SingletonsWellFormed(|rows|);
    CutoffsNest(RowDistances(rows), Singletons(|rows|), c1, c2);
  }

  lemma MergeHeightsAscend(rows: seq<seq<real>>, cutoff: real)
    requires Rectangular(rows)
    ensures WellFormed(Singletons(|rows|), |rows|)
    ensures var h := Heights(RowDistances(rows), Singletons(|rows|), cutoff);
      forall k, l :: 0 <= k < l < |h| ==> h[k] <= h[l]
  {
    SingletonsWellFormed(|rows|);
    RowDistancesSymmetric(rows);
    var h := HeightsAscend(RowDistances(rows), Singletons(|rows|), cutoff);
  }

  /** For normalised rows every distance that is ever in the matrix, between rows or between
      clusters of any partition, lies in [0, 2]. */
  lemma DistancesInRange(rows: seq<seq<real>>, p: Partition)
    requires Rectangular(rows) && forall i :: 0 <= i < |rows| ==> Normalised(rows[i])
    requires WellFormed(p, |rows|)
    ensures Within(RowDistances(rows), 0.0, 2.0)
    ensures forall i, j :: 0 <= i < |rows| && 0 <= j < |rows| ==>
      0.0 <= MeanDistance(RowDistances(rows), p, i, j) <= 2.0
  {
    var base := RowDistances(rows);
    forall i, j | 0 <= i < |rows| && 0 <= j < |rows| ensures 0.0 <= base[i][j] <= 2.0 {
      DistanceRange(rows[i], rows[j]);
    }
    forall i, j | 0 <= i < |rows| && 0 <= j < |rows| ensures 0.0 <= MeanDistance(base, p, i, j) <= 2.0 {
      if |p.members[i]| > 0 && |p.members[j]| > 0 {
        MeanWithin(base, p.members[i], p.members[j], 0.0, 2.0);
      }
    }
  }

  /** A document with no direction never joins a cluster at a cutoff below 1. */
  lemma ZeroRowStaysAlone(rows: seq<seq<real>>, cutoff: real, r: nat)
    requires Rectangular(rows) && r < |rows| && ZeroVector(rows[r]) && cutoff < 1.0
    ensures var p := FinalPartition(rows, cutoff); p.active[r] && p.members[r] == [r]
  {
    SingletonsWellFormed(|rows|);
    forall x | 0 <= x < |rows|
      ensures RowDistances(rows)[r][x] == RowDistances(rows)[x][r] == 1.0
    {
      DotOfZero(rows[r], rows[x]);
    }
    DistantRowStaysAlone(RowDistances(rows), Singletons(|rows|), cutoff, r);
  }

  // ---------------------------------------------------------------- for rows of a TF-IDF matrix

  /** All distances of one TF-IDF matrix, between rows or between clusters of any partition,
      lie in [0, 1], so no cutoff from 1 on keeps any two clusters apart. */
  lemma TfidfDistancesInRange(m: T.Matrix, docs: seq<seq<string>>, log: real -> real, sqrt: real -> real, p: Partition)
    requires IsSqrt(sqrt) && T.IsTfidf(m, docs, log, sqrt) && WellFormed(p, |m.rows|)
    ensures Rectangular(m.rows) && Within(RowDistances(m.rows), 0.0, 1.0)
    ensures forall i, j :: 0 <= i < |m.rows| && 0 <= j < |m.rows| && p.active[i] && p.active[j] ==>
      0.0 <= MeanDistance(RowDistances(m.rows), p, i, j) <= 1.0
  {
    T.RowsAreNormalised(m, docs, log, sqrt);
    var base := RowDistances(m.rows);
    forall i, j | 0 <= i < |m.rows| && 0 <= j < |m.rows| ensures 0.0 <= base[i][j] <= 1.0 {
      DistanceRange(m.rows[i], m.rows[j]);
      T.RowsPointTogether(m, docs, log, sqrt, i, j);
    }
    forall i, j | 0 <= i < |m.rows| && 0 <= j < |m.rows| && p.active[i] && p.active[j]
      ensures 0.0 <= MeanDistance(base, p, i, j) <= 1.0
    {
      MeanWithin(base, p.members[i], p.members[j], 0.0, 1.0);
    }
  }

  /** A document whose every term has weight 0 is maximally distant from everything: it is at
      distance 1 from every row, and no two rows of the matrix are further apart. */
  lemma ZeroRowIsFarthest(m: T.Matrix, docs: seq<seq<string>>, log: real -> real, sqrt: real -> real, r: nat)
    requires IsSqrt(sqrt) && T.IsTfidf(m, docs, log, sqrt) && r < |docs|
    requires forall t :: t in docs[r] ==> T.Idf(docs, t, log) == 0.0
    ensures Rectangular(m.rows) && ZeroVector(m.rows[r])
    ensures forall x, i, j :: 0 <= x < |m.rows| && 0 <= i < |m.rows| && 0 <= j < |m.rows| ==>
      RowDistances(m.rows)[i][j] <= RowDistances(m.rows)[r][x] == 1.0
  {
    T.RowsAreNormalised(m, docs, log, sqrt);
    forall x, i, j | 0 <= x < |m.rows| && 0 <= i < |m.rows| && 0 <= j < |m.rows|
      ensures RowDistances(m.rows)[i][j] <= RowDistances(m.rows)[r][x] == 1.0
    {
      DistanceRange(m.rows[r], m.rows[x]);
      T.RowsPointTogether(m, docs, log, sqrt, i, j);
    }
  }

  /** At a cutoff of 1 or more the whole matrix ends in one cluster. */
  lemma EverythingMergesAtOne(m: T.Matrix, docs: seq<seq<string>>, log: real -> real, sqrt: real -> real, cutoff: real, i: int, j: int)
    requires IsSqrt(sqrt) && T.IsTfidf(m, docs, log, sqrt) && Rectangular(m.rows) && cutoff >= 1.0
    requires 0 <= i < j < |m.rows|
    ensures var p := FinalPartition(m.rows, cutoff); |p.active| == |m.rows| && !(p.active[i] && p.active[j])
  {
    var p := FinalPartition(m.rows, cutoff);
    FinalClustersAreApart(m.rows, cutoff);
    TfidfDistancesInRange(m, docs, log, sqrt, p);
    ApartAtOne(RowDistances(m.rows), p, cutoff, i, j);
  }

  lemma ApartAtOne(base: seq<seq<real>>, p: Partition, cutoff: real, i: int, j: int)
    requires Square(base, |base|) && WellFormed(p, |base|) && Apart(base, p, cutoff) && cutoff >= 1.0
    requires 0 <= i < j < |base| && (p.active[i] && p.active[j] ==> MeanDistance(base, p, i, j) <= 1.0)
    ensures !(p.active[i] && p.active[j])
  {
    if p.active[i] && p.active[j] {
      assert ActivePair(p.active, i, j);
      assert false;
    }
  }
}
