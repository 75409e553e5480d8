/** Average linkage, as its definition says it.

  `AverageLinkage` recomputes the mean distance over all member pairs before every
  merge. It is the reference that the in-place algorithm of `internal/cluster` is
  proved to compute, and the theorems about the clusters are about it. */
module Linkage {
  import opened Ordering

  // ---------------------------------------------------------------- sums over member pairs

  ghost predicate Square(base: seq<seq<real>>, n: nat) {
    |base| == n && forall i :: 0 <= i < n ==> |base[i]| == n
  }

  predicate InRange(members: seq<int>, n: nat) {
    forall k :: 0 <= k < |members| ==> 0 <= members[k] < n
  }

  function RowSum(row: seq<real>, b: seq<int>): real
    requires InRange(b, |row|)
  {
    if |b| == 0 then 0.0 else row[b[0]] + RowSum(row, b[1..])
  }

  /** The sum of `base` over all pairs in `a x b`. */
  function PairSum(base: seq<seq<real>>, a: seq<int>, b: seq<int>): real
    requires Square(base, |base|) && InRange(a, |base|) && InRange(b, |base|)
  {
    if |a| == 0 then 0.0 else RowSum(base[a[0]], b) + PairSum(base, a[1..], b)
  }

  function Mean(base: seq<seq<real>>, a: seq<int>, b: seq<int>): real
    requires Square(base, |base|) && InRange(a, |base|) && InRange(b, |base|) && |a| > 0 && |b| > 0
  {
    PerPair(PairSum(base, a, b), |a|, |b|)
  }

  /** A sum over `m x n` pairs divided by their number. */
  function PerPair(sum: real, m: nat, n: nat): real
    requires m > 0 && n > 0
  {
    sum / (m as real * n as real)
  }

  lemma {:induction false} RowSumAppend(row: seq<real>, a: seq<int>, b: seq<int>)
    requires InRange(a, |row|) && InRange(b, |row|)
    ensures RowSum(row, a + b) == RowSum(row, a) + RowSum(row, b)
  {
    if |a| == 0 {
      assert a + b == b;
    } else {
      RowSumAppend(row, a[1..], b);
      assert (a + b)[1..] == a[1..] + b;
    }
  }

  lemma {:induction false} RowSumInsert(row: seq<real>, x: int, b: seq<int>)
    requires InRange(b, |row|) && 0 <= x < |row|
    ensures InRange(Insert(IntLess, x, b), |row|)
    ensures RowSum(row, Insert(IntLess, x, b)) == row[x] + RowSum(row, b)
  {
    if |b| == 0 || !IntLess(b[0], x) {
      assert ([x] + b)[1..] == b;
    } else {
      RowSumInsert(row, x, b[1..]);
      assert ([b[0]] + Insert(IntLess, x, b[1..]))[1..] == Insert(IntLess, x, b[1..]);
    }
  }

  lemma {:induction false} RowSumSort(row: seq<real>, b: seq<int>)
    requires InRange(b, |row|)
    ensures InRange(Sort(IntLess, b), |row|)
    ensures RowSum(row, Sort(IntLess, b)) == RowSum(row, b)
  {
    if |b| > 0 {
      RowSumSort(row, b[1..]);
      RowSumInsert(row, b[0], Sort(IntLess, b[1..]));
    }
  }

  lemma {:induction false} PairSumAppend(base: seq<seq<real>>, a: seq<int>, b: seq<int>, c: seq<int>)
    requires Square(base, |base|) && InRange(a, |base|) && InRange(b, |base|) && InRange(c, |base|)
    ensures PairSum(base, a + b, c) == PairSum(base, a, c) + PairSum(base, b, c)
  {
    if |a| == 0 {
      assert a + b == b;
    } else {
      PairSumAppend(base, a[1..], b, c);
      assert (a + b)[1..] == a[1..] + b;
    }
  }

  lemma {:induction false} PairSumInsert(base: seq<seq<real>>, x: int, a: seq<int>, c: seq<int>)
    requires Square(base, |base|) && InRange(a, |base|) && InRange(c, |base|) && 0 <= x < |base|
    ensures InRange(Insert(IntLess, x, a), |base|)
    ensures PairSum(base, Insert(IntLess, x, a), c) == RowSum(base[x], c) + PairSum(base, a, c)
  {
    if |a| == 0 || !IntLess(a[0], x) {
      assert ([x] + a)[1..] == a;
    } else {
      PairSumInsert(base, x, a[1..], c);
      assert ([a[0]] + Insert(IntLess, x, a[1..]))[1..] == Insert(IntLess, x, a[1..]);
    }
  }

  lemma {:induction false} PairSumSort(base: seq<seq<real>>, a: seq<int>, c: seq<int>)
    requires Square(base, |base|) && InRange(a, |base|) && InRange(c, |base|)
    ensures InRange(Sort(IntLess, a), |base|)
    ensures PairSum(base, Sort(IntLess, a), c) == PairSum(base, a, c)
  {
    if |a| > 0 {
      PairSumSort(base, a[1..], c);
      PairSumInsert(base, a[0], Sort(IntLess, a[1..]), c);
    }
  }

  /** The member list of a merged cluster. */
  function Merged(a: seq<int>, b: seq<int>): seq<int> { Sort(IntLess, a + b) }

  lemma PairSumMergedLeft(base: seq<seq<real>>, a: seq<int>, b: seq<int>, c: seq<int>)
    requires Square(base, |base|) && InRange(a, |base|) && InRange(b, |base|) && InRange(c, |base|)
    ensures InRange(Merged(a, b), |base|)
    ensures PairSum(base, Merged(a, b), c) == PairSum(base, a, c) + PairSum(base, b, c)
  {
    PairSumAppend(base, a, b, c);
    PairSumSort(base, a + b, c);
  }

  lemma {:induction false} PairSumMergedRight(base: seq<seq<real>>, a: seq<int>, b: seq<int>, c: seq<int>)
    requires Square(base, |base|) && InRange(a, |base|) && InRange(b, |base|) && InRange(c, |base|)
    ensures InRange(Merged(a, b), |base|)
    ensures PairSum(base, c, Merged(a, b)) == PairSum(base, c, a) + PairSum(base, c, b)
  {
    if |c| == 0 {
      PairSumMergedLeft(base, a, b, c);
    } else {
      PairSumMergedRight(base, a, b, c[1..]);
      RowSumAppend(base[c[0]], a, b);
      RowSumSort(base[c[0]], a + b);
    }
  }

  // ---------------------------------------------------------------- clusters in slots

  /** Slot `i` holds the cluster that started as row `i`; merging empties the higher slot. */
  datatype Partition = Partition(members: seq<seq<int>>, active: seq<bool>)

  ghost predicate Ascending(s: seq<int>) {
    forall k, l :: 0 <= k < l < |s| ==> s[k] < s[l]
  }

  /** Every row is in exactly one active slot, whose members ascend from the slot's own index. */
  ghost predicate WellFormed(p: Partition, n: nat) {
    && |p.members| == |p.active| == n
    && (forall i :: 0 <= i < n && !p.active[i] ==> |p.members[i]| == 0)
    && (forall i :: 0 <= i < n && p.active[i] ==>
          |p.members[i]| > 0 && p.members[i][0] == i && Ascending(p.members[i]) && InRange(p.members[i], n))
    && (forall i, j, x :: 0 <= i < n && 0 <= j < n && i != j && x in p.members[i] ==> x !in p.members[j])
    && (forall x :: 0 <= x < n ==> Placed(p, x))
  }

  ghost predicate Placed(p: Partition, x: int) {
    exists i :: 0 <= i < |p.members| && x in p.members[i]
  }

  function Singletons(n: nat): Partition {
    Partition(seq(n, i => [i]), seq(n, i => true))
  }

  predicate ActivePair(active: seq<bool>, i: int, j: int) {
    0 <= i < j < |active| && active[i] && active[j]
  }

  function MergeSlots(p: Partition, i: int, j: int): Partition
    requires |p.members| == |p.active| && ActivePair(p.active, i, j)
  {
    Partition(p.members[i := Merged(p.members[i], p.members[j])][j := []], p.active[j := false])
  }

  lemma SingletonsWellFormed(n: nat)
    ensures WellFormed(Singletons(n), n)
  {
    var p := Singletons(n);
    forall x | 0 <= x < n ensures Placed(p, x) {
      assert x in p.members[x];
    }
  }

  lemma MergedMembers(a: seq<int>, b: seq<int>, n: nat)
    requires Ascending(a) && Ascending(b) && InRange(a, n) && InRange(b, n)
    requires forall x :: x in a ==> x !in b
    ensures Ascending(Merged(a, b)) && InRange(Merged(a, b), n)
    ensures |Merged(a, b)| == |a| + |b|
    ensures forall x :: x in Merged(a, b) <==> x in a || x in b
  {
    SortElements(IntLess, a + b);
    SortSorted(IntLess, a + b);
    SameElements(a + b, Merged(a, b));
    DisjointDistinct(a, b);
    PermutationDistinct(a + b, Merged(a, b));
    var m := Merged(a, b);
    forall k, l | 0 <= k < l < |m| ensures m[k] < m[l] {
      assert !IntLess(m[l], m[k]);
    }
    forall k | 0 <= k < |m| ensures 0 <= m[k] < n {
      assert m[k] in a + b;
    }
  }

  lemma DisjointDistinct(a: seq<int>, b: seq<int>)
    requires Ascending(a) && Ascending(b) && forall x :: x in a ==> x !in b
    ensures Distinct(a + b)
  {
    forall i, j | 0 <= i < j < |a + b| ensures (a + b)[i] != (a + b)[j] {
      if i < |a| <= j {
        assert a[i] in a && b[j - |a|] in b;
      }
    }
  }

  lemma MergeKeepsWellFormed(p: Partition, n: nat, i: int, j: int)
    requires WellFormed(p, n) && ActivePair(p.active, i, j)
    ensures WellFormed(MergeSlots(p, i, j), n)
    ensures |MergeSlots(p, i, j).members[i]| == |p.members[i]| + |p.members[j]|
  {
    var a, b := p.members[i], p.members[j];
    var q := MergeSlots(p, i, j);
    MergedMembers(a, b, n);
    FirstIsSmallest(Merged(a, b), a, b);
    forall x | 0 <= x < n ensures Placed(q, x) {
      assert Placed(p, x);
      var k :| 0 <= k < n && x in p.members[k];
      assert x in q.members[if k == j then i else k];
    }
  }

  lemma FirstIsSmallest(m: seq<int>, a: seq<int>, b: seq<int>)
    requires Ascending(a) && Ascending(b) && Ascending(m) && |a| > 0 && |b| > 0 && a[0] < b[0]
    requires forall x :: x in m <==> x in a || x in b
    ensures |m| > 0 && m[0] == a[0]
  {
    assert a[0] in m;
    assert m[0] in m;
  }

  ghost function ActiveCount(active: seq<bool>): nat {
    if |active| == 0 then 0 else (if active[0] then 1 else 0) + ActiveCount(active[1..])
  }

  lemma {:induction false} DeactivationCounts(active: seq<bool>, j: nat)
    requires j < |active| && active[j]
    ensures ActiveCount(active) == ActiveCount(active[j := false]) + 1
  {
    if j == 0 {
      assert active[0 := false][1..] == active[1..];
    } else {
      DeactivationCounts(active[1..], j - 1);
      assert active[j := false][1..] == active[1..][j - 1 := false];
    }
  }

  // ---------------------------------------------------------------- the closest pair

  /** Pair (a, b) wins against (c, e): it is closer, or as close and earlier. */
  predicate Better(d: seq<seq<real>>, a: int, b: int, c: int, e: int)
    requires 0 <= a < |d| && 0 <= b < |d[a]| && 0 <= c < |d| && 0 <= e < |d[c]|
  {
    d[a][b] < d[c][e] || (d[a][b] == d[c][e] && (a < c || (a == c && b < e)))
  }

  /** (i, j) is the closest pair of active clusters, the first one in index order of several. */
  ghost predicate Closest(d: seq<seq<real>>, active: seq<bool>, i: int, j: int)
    requires Square(d, |active|)
  {
    && ActivePair(active, i, j)
    && forall a, b :: ActivePair(active, a, b) && (a, b) != (i, j) ==> Better(d, i, j, a, b)
  }

  lemma ClosestUnique(d: seq<seq<real>>, active: seq<bool>, i: int, j: int, a: int, b: int)
    requires Square(d, |active|) && Closest(d, active, i, j) && Closest(d, active, a, b)
    ensures i == a && j == b
  {
  }

  lemma {:induction false} BestOf(d: seq<seq<real>>, n: nat, pairs: set<(int, int)>) returns (best: (int, int))
    requires Square(d, n) && pairs != {}
    requires forall q :: q in pairs ==> 0 <= q.0 < n && 0 <= q.1 < n
    ensures best in pairs
    ensures forall q :: q in pairs && q != best ==> Better(d, best.0, best.1, q.0, q.1)
    decreases pairs
  {
    best :| best in pairs;
    var rest := pairs - {best};
    if rest != {} {
      var other := BestOf(d, n, rest);
      if Better(d, other.0, other.1, best.0, best.1) {
        best := other;
      }
    }
  }

  /** Two active clusters are enough for a closest pair, at most as far apart as they are. */
  lemma ClosestExists(d: seq<seq<real>>, active: seq<bool>, a: int, b: int) returns (i: int, j: int)
    requires Square(d, |active|) && ActivePair(active, a, b)
    ensures Closest(d, active, i, j) && d[i][j] <= d[a][b]
  {
    var n := |active|;
    var pairs := set x, y | 0 <= x < n && 0 <= y < n && ActivePair(active, x, y) :: (x, y);
    assert (a, b) in pairs;
    var best := BestOf(d, n, pairs);
    i, j := best.0, best.1;
    forall x, y | ActivePair(active, x, y) && (x, y) != (i, j) ensures Better(d, i, j, x, y) {
      assert (x, y) in pairs;
    }
  }

  // ---------------------------------------------------------------- the reference algorithm

  /** The mean distance between two active slots. */
  function MeanDistance(base: seq<seq<real>>, p: Partition, i: nat, j: nat): real
    requires Square(base, |base|) && |p.members| == |p.active| == |base| && i < |base| && j < |base|
    requires forall k :: 0 <= k < |base| ==> InRange(p.members[k], |base|)
  {
    if |p.members[i]| > 0 && |p.members[j]| > 0 then Mean(base, p.members[i], p.members[j]) else 0.0
  }

  function MeanDistances(base: seq<seq<real>>, p: Partition): (d: seq<seq<real>>)
    requires Square(base, |base|) && |p.members| == |p.active| == |base|
    requires forall k :: 0 <= k < |base| ==> InRange(p.members[k], |base|)
    ensures Square(d, |base|)
    ensures forall i, j :: 0 <= i < |base| && 0 <= j < |base| ==> d[i][j] == MeanDistance(base, p, i, j)
  {
    seq(|base|, i requires 0 <= i < |base| =>
      seq(|base|, j requires 0 <= j < |base| => MeanDistance(base, p, i, j)))
  }

  ghost predicate Mergeable(base: seq<seq<real>>, p: Partition, cutoff: real, i: int, j: int)
    requires Square(base, |base|) && WellFormed(p, |base|)
  {
    Closest(MeanDistances(base, p), p.active, i, j) && MeanDistance(base, p, i, j) <= cutoff
  }

  /** Merge the closest pair, by the mean over all their member pairs, while it is within
      the cutoff. */
  ghost function AverageLinkage(base: seq<seq<real>>, p: Partition, cutoff: real): (q: Partition)
    requires Square(base, |base|) && WellFormed(p, |base|)
    ensures WellFormed(q, |base|)
    decreases ActiveCount(p.active)
  {
    if exists i, j :: Mergeable(base, p, cutoff, i, j) then
      var i, j :| Mergeable(base, p, cutoff, i, j);
      MergeKeepsWellFormed(p, |base|, i, j);
      DeactivationCounts(p.active, j);
      AverageLinkage(base, MergeSlots(p, i, j), cutoff)
    else p
  }

  lemma AverageLinkageStep(base: seq<seq<real>>, p: Partition, cutoff: real, i: int, j: int)
    requires Square(base, |base|) && WellFormed(p, |base|) && Mergeable(base, p, cutoff, i, j)
    ensures WellFormed(MergeSlots(p, i, j), |base|)
    ensures AverageLinkage(base, p, cutoff) == AverageLinkage(base, MergeSlots(p, i, j), cutoff)
  {
    MergeKeepsWellFormed(p, |base|, i, j);
    forall a, b | Mergeable(base, p, cutoff, a, b) ensures a == i && b == j {
      ClosestUnique(MeanDistances(base, p), p.active, i, j, a, b);
    }
  }

  /** The pair that is merged is within the cutoff and the closest of all active pairs, by the
      mean over their member pairs; among equally close ones it has the smaller first slot, and
      among those the smaller second. */
  lemma MergedExactlyWhen(base: seq<seq<real>>, p: Partition, cutoff: real, i: int, j: int)
    requires Square(base, |base|) && WellFormed(p, |base|)
    ensures Mergeable(base, p, cutoff, i, j) <==>
      && 0 <= i < j < |base| && p.active[i] && p.active[j] && Mean(base, p.members[i], p.members[j]) <= cutoff
      && forall a, b :: 0 <= a < b < |base| && p.active[a] && p.active[b] ==>
           || Mean(base, p.members[i], p.members[j]) < Mean(base, p.members[a], p.members[b])
           || (Mean(base, p.members[i], p.members[j]) == Mean(base, p.members[a], p.members[b]) && (i < a || (i == a && j <= b)))
  {
    var d := MeanDistances(base, p);
    if ActivePair(p.active, i, j) {
      forall a, b | 0 <= a < b < |base| && p.active[a] && p.active[b] && (a, b) != (i, j)
        ensures Better(d, i, j, a, b) <==> d[i][j] < d[a][b] || (d[i][j] == d[a][b] && (i < a || (i == a && j <= b)))
      {
      }
    }
  }

  lemma AverageLinkageStops(base: seq<seq<real>>, p: Partition, cutoff: real)
    requires Square(base, |base|) && WellFormed(p, |base|)
    requires forall i, j :: !Mergeable(base, p, cutoff, i, j)
    ensures AverageLinkage(base, p, cutoff) == p
  {
  }

  // ---------------------------------------------------------------- theorems about the clusters

  ghost predicate Apart(base: seq<seq<real>>, p: Partition, cutoff: real)
    requires Square(base, |base|) && WellFormed(p, |base|)
  {
    forall i, j :: ActivePair(p.active, i, j) ==> Mean(base, p.members[i], p.members[j]) > cutoff
  }

  /** What is left at the end: any two clusters are further apart than the cutoff. */
  lemma {:induction false} SurvivorsAreApart(base: seq<seq<real>>, p: Partition, cutoff: real)
    requires Square(base, |base|) && WellFormed(p, |base|)
    ensures Apart(base, AverageLinkage(base, p, cutoff), cutoff)
    decreases ActiveCount(p.active)
  {
    if i, j :| Mergeable(base, p, cutoff, i, j) {
      AverageLinkageStep(base, p, cutoff, i, j);
      DeactivationCounts(p.active, j);
      SurvivorsAreApart(base, MergeSlots(p, i, j), cutoff);
    } else {
      forall a, b | ActivePair(p.active, a, b) ensures Mean(base, p.members[a], p.members[b]) > cutoff {
        var i, j := ClosestExists(MeanDistances(base, p), p.active, a, b);
        assert !Mergeable(base, p, cutoff, i, j);
      }
    }
  }

  /** Every cluster of `p` lies inside one cluster of `q`. */
  ghost predicate Nested(p: Partition, q: Partition) {
    forall i :: 0 <= i < |p.members| ==> Inside(p.members[i], q)
  }

  ghost predicate Inside(cluster: seq<int>, q: Partition) {
    |cluster| > 0 ==> exists k :: 0 <= k < |q.members| && Subset(cluster, q.members[k])
  }

  ghost predicate Subset(a: seq<int>, b: seq<int>) {
    forall k :: 0 <= k < |a| ==> a[k] in b
  }

  lemma NestedTransitive(p: Partition, q: Partition, r: Partition)
    requires Nested(p, q) && Nested(q, r)
    ensures Nested(p, r)
  {
    forall i | 0 <= i < |p.members| ensures Inside(p.members[i], r) {
      if |p.members[i]| > 0 {
        assert Inside(p.members[i], q);
        var k :| 0 <= k < |q.members| && Subset(p.members[i], q.members[k]);
        assert p.members[i][0] in q.members[k];
        assert Inside(q.members[k], r);
        var l :| 0 <= l < |r.members| && Subset(q.members[k], r.members[l]);
        assert Subset(p.members[i], r.members[l]);
      }
    }
  }

  lemma MergeNests(p: Partition, n: nat, i: int, j: int)
    requires WellFormed(p, n) && ActivePair(p.active, i, j)
    ensures Nested(p, MergeSlots(p, i, j))
  {
    var q := MergeSlots(p, i, j);
    MergedMembers(p.members[i], p.members[j], n);
    forall k | 0 <= k < n ensures Inside(p.members[k], q) {
      var target := if k == j then i else k;
      assert Subset(p.members[k], q.members[target]);
    }
  }

  lemma {:induction false} LinkageCoarsens(base: seq<seq<real>>, p: Partition, cutoff: real)
    requires Square(base, |base|) && WellFormed(p, |base|)
    ensures Nested(p, AverageLinkage(base, p, cutoff))
    decreases ActiveCount(p.active)
  {
    if i, j :| Mergeable(base, p, cutoff, i, j) {
      AverageLinkageStep(base, p, cutoff, i, j);
      DeactivationCounts(p.active, j);
      MergeNests(p, |base|, i, j);
      LinkageCoarsens(base, MergeSlots(p, i, j), cutoff);
      NestedTransitive(p, MergeSlots(p, i, j), AverageLinkage(base, p, cutoff));
    } else {
      forall k | 0 <= k < |p.members| ensures Inside(p.members[k], p) {
        assert Subset(p.members[k], p.members[k]);
      }
    }
  }

  /** The run with the larger cutoff goes on where the run with the smaller one stopped. */
  lemma {:induction false} LargerCutoffContinues(base: seq<seq<real>>, p: Partition, c1: real, c2: real)
    requires Square(base, |base|) && WellFormed(p, |base|) && c1 <= c2
    ensures AverageLinkage(base, p, c2) == AverageLinkage(base, AverageLinkage(base, p, c1), c2)
    decreases ActiveCount(p.active)
  {
    if i, j :| Mergeable(base, p, c1, i, j) {
      assert Mergeable(base, p, c2, i, j);
      AverageLinkageStep(base, p, c1, i, j);
      AverageLinkageStep(base, p, c2, i, j);
      DeactivationCounts(p.active, j);
      LargerCutoffContinues(base, MergeSlots(p, i, j), c1, c2);
    } else {
      AverageLinkageStops(base, p, c1);
    }
  }

  /** Dendrogram nesting: for c1 <= c2 every cluster left by c1 lies inside one left by c2. */
  lemma CutoffsNest(base: seq<seq<real>>, p: Partition, c1: real, c2: real)
    requires Square(base, |base|) && WellFormed(p, |base|) && c1 <= c2
    ensures Nested(AverageLinkage(base, p, c1), AverageLinkage(base, p, c2))
  {
    LargerCutoffContinues(base, p, c1, c2);
    LinkageCoarsens(base, AverageLinkage(base, p, c1), c2);
  }
}
