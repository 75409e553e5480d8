/** The in-place clusterer: `internal/cluster/agglomerative.go`.

  `distance`, `members` and `active` are overwritten across the merge loop. The result
  is proved equal to the reference of module Linkage, started from the dense cosine
  distances of the rows. */
module Agglomerative {
  import opened Outcomes
  import opened Vectors
  import opened Ordering
  import opened Sparse
  import opened Linkage
  import opened LanceWilliams

  // ---------------------------------------------------------------- specification

  function RowDistances(rows: seq<seq<real>>): (base: seq<seq<real>>)
    requires Rectangular(rows)
    ensures Square(base, |rows|)
    ensures forall i, j :: 0 <= i < |rows| && 0 <= j < |rows| ==> base[i][j] == 1.0 - Dot(rows[i], rows[j])
  {
    seq(|rows|, i requires 0 <= i < |rows| =>
      seq(|rows|, j requires 0 <= j < |rows| => 1.0 - Dot(rows[i], rows[j])))
  }

  lemma RowDistancesSymmetric(rows: seq<seq<real>>)
    requires Rectangular(rows)
    ensures Symmetric(RowDistances(rows))
  {
    forall i, j | 0 <= i < |rows| && 0 <= j < |rows|
      ensures RowDistances(rows)[i][j] == RowDistances(rows)[j][i]
    {
      DotSymmetric(rows[i], rows[j], |rows[i]|);
    }
  }

  /** Larger clusters first, then the one with the smaller first member. */
  predicate ClusterBefore(a: seq<int>, b: seq<int>) {
    |a| > |b| || (|a| == |b| > 0 && a[0] < b[0])
  }

  /** The clusters of at least `minSize` members among the first `n` slots, in slot order. */
  function Survivors(p: Partition, minSize: int, n: nat): seq<seq<int>>
    requires |p.members| == |p.active| && n <= |p.members|
  {
    if n == 0 then [] else
      Survivors(p, minSize, n - 1) +
      (if p.active[n - 1] && |p.members[n - 1]| >= minSize then [p.members[n - 1]] else [])
  }

  function Collected(p: Partition, minSize: int): seq<seq<int>>
    requires |p.members| == |p.active|
  {
    Sort(ClusterBefore, Survivors(p, minSize, |p.members|))
  }

  ghost function FinalPartition(rows: seq<seq<real>>, cutoff: real): Partition
    requires Rectangular(rows)
  {
    SingletonsWellFormed(|rows|);
    AverageLinkage(RowDistances(rows), Singletons(|rows|), cutoff)
  }

  // ---------------------------------------------------------------- the matrix in memory

  ghost function Table(distance: array2<real>): (d: seq<seq<real>>)
    reads distance
    ensures |d| == distance.Length0
    ensures forall i :: 0 <= i < |d| ==> |d[i]| == distance.Length1
    ensures forall i, j :: 0 <= i < distance.Length0 && 0 <= j < distance.Length1 ==> d[i][j] == distance[i, j]
  {
    seq(distance.Length0, i requires 0 <= i < distance.Length0 reads distance =>
      seq(distance.Length1, j requires 0 <= j < distance.Length1 reads distance => distance[i, j]))
  }

  /** Pair (k, l) has been visited when the scan of the upper triangle stands at (i, j). */
  predicate Visited(k: int, l: int, i: int, j: int) {
    k != l && var a, b := if k < l then k else l, if k < l then l else k; a < i || (a == i && b < j)
  }

  /** The visited pairs hold their distance, mirrored; everything else is still zero. */
  ghost predicate FilledTo(base: seq<seq<real>>, d: seq<seq<real>>, i: int, j: int)
    requires Square(base, |base|) && Square(d, |base|)
  {
    forall k, l :: 0 <= k < |base| && 0 <= l < |base| ==>
      d[k][l] == if Visited(k, l, i, j) then base[k][l] else 0.0
  }

  ghost predicate Views(sparse: seq<SparseRow>, rows: seq<seq<real>>)
    reads set i | 0 <= i < |sparse| :: sparse[i].columns, set i | 0 <= i < |sparse| :: sparse[i].values
  {
    |sparse| == |rows| && forall i :: 0 <= i < |rows| ==> sparse[i].InBounds() && ViewOf(sparse[i], rows[i])
  }

  method SparseDistance(sparse: seq<SparseRow>, rows: seq<seq<real>>, i: nat, j: nat) returns (d: real)
    requires Views(sparse, rows) && Rectangular(rows) && i < |rows| && j < |rows|
    ensures d == RowDistances(rows)[i][j] == RowDistances(rows)[j][i]
  {
    var dot := SparseDot(sparse[i], sparse[j], rows[i], rows[j]);
    DotSymmetric(rows[i], rows[j], |rows[i]|);
    d := 1.0 - dot;
  }

  /** Two positions between which the scan visits no pair. */
  lemma RowTurns(base: seq<seq<real>>, d: seq<seq<real>>, i: nat, j: nat, i2: nat, j2: nat)
    requires Square(base, |base|) && Square(d, |base|) && FilledTo(base, d, i, j)
    requires (i2 == i && j <= j2 <= i + 1) || (i2 == i + 1 && j == |base| && j2 == 0)
    ensures FilledTo(base, d, i2, j2)
  {
    forall k, l | 0 <= k < |base| && 0 <= l < |base| ensures Visited(k, l, i, j) == Visited(k, l, i2, j2) {
    }
  }

  /** The entries of one pair, mirrored. */
  method SetBoth(distance: array2<real>, i: nat, j: nat, d: real, ghost base: seq<seq<real>>)
    requires distance.Length0 == distance.Length1 == |base| && Square(base, |base|) && i < j < |base|
    requires FilledTo(base, Table(distance), i, j) && d == base[i][j] == base[j][i]
    modifies distance
    ensures FilledTo(base, Table(distance), i, j + 1)
  {
    ghost var before := Table(distance);
    distance[i, j] := d;
    distance[j, i] := d;
    FillOne(base, before, Table(distance), i, j);
  }

  /** The initial pass: one sparse product per pair of rows, mirrored. The diagonal stays zero. */
  method FillDistances(rows: seq<seq<real>>, sparse: seq<SparseRow>, distance: array2<real>)
    requires Views(sparse, rows) && Rectangular(rows)
    requires distance.Length0 == distance.Length1 == |rows|
    requires forall k, l :: 0 <= k < |rows| && 0 <= l < |rows| ==> distance[k, l] == 0.0
    modifies distance
    ensures FilledTo(RowDistances(rows), Table(distance), |rows|, 0)
  {
    ghost var base := RowDistances(rows);
    for i := 0 to |rows|
      invariant FilledTo(base, Table(distance), i, 0)
    {
      RowTurns(base, Table(distance), i, 0, i, i + 1);
      for j := i + 1 to |rows|
        invariant FilledTo(base, Table(distance), i, j)
      {
        var d := SparseDistance(sparse, rows, i, j);
        SetBoth(distance, i, j, d, base);
      }
      RowTurns(base, Table(distance), i, |rows|, i + 1, 0);
    }
  }

  lemma FillOne(base: seq<seq<real>>, d: seq<seq<real>>, e: seq<seq<real>>, i: nat, j: nat)
    requires Square(base, |base|) && Square(d, |base|) && Square(e, |base|) && i < j < |base|
    requires FilledTo(base, d, i, j) && base[i][j] == base[j][i]
    requires forall k, l :: 0 <= k < |base| && 0 <= l < |base| ==>
      e[k][l] == if (k, l) == (i, j) || (k, l) == (j, i) then base[i][j] else d[k][l]
    ensures FilledTo(base, e, i, j + 1)
  {
  }

  method PairwiseDistances(rows: seq<seq<real>>) returns (r: Checked<array2<real>>)
    ensures r.Panic? <==> !Rectangular(rows)
    ensures r.Ok? ==> fresh(r.value) && r.value.Length0 == r.value.Length1 == |rows|
    ensures r.Ok? ==> FilledTo(RowDistances(rows), Table(r.value), |rows|, 0)
  {
    var sparse := Sparsify(rows);
    if sparse.Panic? {
      return Panic;
    }
    var distance := new real[|rows|, |rows|]((i, j) => 0.0);
    FillDistances(rows, sparse.value, distance);
    return Ok(distance);
  }

  /** The best pair so far beats every active pair scanned. */
  ghost predicate BestScanned(d: seq<seq<real>>, active: seq<bool>, i: int, j: int, upToI: int, upToJ: int)
    requires Square(d, |active|)
  {
    && (i >= 0 ==> ActivePair(active, i, j) && (i < upToI || (i == upToI && j < upToJ)))
    && forall a, b :: ActivePair(active, a, b) && (a < upToI || (a == upToI && b < upToJ)) ==>
         i >= 0 && ((a, b) == (i, j) || Better(d, i, j, a, b))
  }

  ghost predicate NoPair(active: seq<bool>) {
    forall a, b :: !ActivePair(active, a, b)
  }

  /** Scans the upper triangle in index order; the first pair at the minimum wins. */
  method ClosestPair(distance: array2<real>, active: array<bool>) returns (bestI: int, bestJ: int, best: real)
    requires distance.Length0 == distance.Length1 == active.Length
    ensures bestI < 0 ==> NoPair(active[..])
    ensures bestI >= 0 ==> Closest(Table(distance), active[..], bestI, bestJ)
    ensures bestI >= 0 ==> best == Table(distance)[bestI][bestJ]
    ensures bestI < 0 ==> forall a, b :: 0 <= a < b < active.Length ==> !(active[a] && active[b])
    ensures bestI >= 0 ==> bestI < bestJ < active.Length && active[bestI] && active[bestJ] && best == distance[bestI, bestJ]
    ensures bestI >= 0 ==> forall a, b :: 0 <= a < b < active.Length && active[a] && active[b] ==>
      best < distance[a, b] || (best == distance[a, b] && (bestI < a || (bestI == a && bestJ <= b)))
  {
    bestI, bestJ, best := -1, -1, 0.0;
    ghost var d, act := Table(distance), active[..];
    for i := 0 to active.Length
      invariant BestScanned(d, act, bestI, bestJ, i, 0)
      invariant bestI >= 0 ==> best == d[bestI][bestJ]
    {
      if !active[i] {
        continue;
      }
      for j := i + 1 to active.Length
        invariant BestScanned(d, act, bestI, bestJ, i, j)
        invariant bestI >= 0 ==> best == d[bestI][bestJ]
      {
        if !active[j] {
          continue;
        }
        assert ActivePair(act, i, j) && distance[i, j] == d[i][j];
        if bestI < 0 || distance[i, j] < best {
          bestI, bestJ, best := i, j, distance[i, j];
        }
      }
    }
    if bestI >= 0 {
      FirstOfClosest(distance, active, bestI, bestJ);
    }
    forall a, b | 0 <= a < b < active.Length && bestI < 0 ensures !(active[a] && active[b]) {
      assert !ActivePair(act, a, b);
    }
  }

  lemma FirstOfClosest(distance: array2<real>, active: array<bool>, i: int, j: int)
    requires distance.Length0 == distance.Length1 == active.Length && Closest(Table(distance), active[..], i, j)
    ensures 0 <= i < j < active.Length && active[i] && active[j]
    ensures forall a, b :: 0 <= a < b < active.Length && active[a] && active[b] ==>
      distance[i, j] < distance[a, b] || (distance[i, j] == distance[a, b] && (i < a || (i == a && j <= b)))
  {
    forall a, b | 0 <= a < b < active.Length && active[a] && active[b]
      ensures distance[i, j] < distance[a, b] || (distance[i, j] == distance[a, b] && (i < a || (i == a && j <= b)))
    {
      assert ActivePair(active[..], a, b);
      assert (a, b) != (i, j) ==> Better(Table(distance), i, j, a, b);
    }
  }

  ghost predicate FoldedTo(d: seq<seq<real>>, e: seq<seq<real>>, p: Partition, i: int, j: int, upTo: nat)
    requires |p.members| == |p.active| && ActivePair(p.active, i, j)
    requires |p.members[i]| > 0 && |p.members[j]| > 0
    requires Square(d, |p.active|) && Square(e, |p.active|)
  {
    var n, sizeI, sizeJ := |p.active|, |p.members[i]|, |p.members[j]|;
    && (forall k :: 0 <= k < n && k < upTo && k != i && k != j && p.active[k] ==>
          e[i][k] == e[k][i] == Update(sizeI, sizeJ, d[i][k], d[j][k]))
    && (forall k, l :: 0 <= k < n && 0 <= l < n && !(Rewritten(p.active, i, j, k, l) && (if k == i then l else k) < upTo)
          ==> e[k][l] == d[k][l])
  }

  /** Rewrites row and column `i` by the Lance-Williams rule. */
  method FoldDistances(i: nat, j: nat, distance: array2<real>, active: array<bool>, sizeI: nat, sizeJ: nat, ghost p: Partition)
    requires distance.Length0 == distance.Length1 == active.Length
    requires p.active == active[..] && |p.members| == |p.active| && ActivePair(active[..], i, j)
    requires sizeI == |p.members[i]| > 0 && sizeJ == |p.members[j]| > 0
    modifies distance
    ensures Folded(old(Table(distance)), Table(distance), p, i, j)
  {
    ghost var d := Table(distance);
    for other := 0 to active.Length
      invariant FoldedTo(d, Table(distance), p, i, j, other)
    {
      if !active[other] || other == i || other == j {
        continue;
      }
      ghost var e := Table(distance);
      assert distance[i, other] == e[i][other] == d[i][other] && distance[j, other] == e[j][other] == d[j][other];
      var merged := (sizeI as real * distance[i, other] + sizeJ as real * distance[j, other]) / (sizeI as real + sizeJ as real);
      distance[i, other] := merged;
      distance[other, i] := merged;
      FoldOne(d, e, Table(distance), p, i, j, other, merged);
    }
  }

  lemma FoldOne(d: seq<seq<real>>, e: seq<seq<real>>, f: seq<seq<real>>, p: Partition, i: int, j: int, other: nat, merged: real)
    requires |p.members| == |p.active| && ActivePair(p.active, i, j)
    requires |p.members[i]| > 0 && |p.members[j]| > 0
    requires Square(d, |p.active|) && Square(e, |p.active|) && Square(f, |p.active|)
    requires other < |p.active| && p.active[other] && other != i && other != j
    requires FoldedTo(d, e, p, i, j, other)
    requires merged == Update(|p.members[i]|, |p.members[j]|, d[i][other], d[j][other])
    requires forall k, l :: 0 <= k < |f| && 0 <= l < |f| ==>
      f[k][l] == if (k == i && l == other) || (k == other && l == i) then merged else e[k][l]
    ensures FoldedTo(d, f, p, i, j, other + 1)
  {
  }

  /** Folds cluster `j` into cluster `i`. */
  method MergeInto(i: nat, j: nat, members: array<seq<int>>, active: array<bool>, distance: array2<real>)
    requires distance.Length0 == distance.Length1 == active.Length == members.Length
    requires ActivePair(active[..], i, j) && |members[i]| > 0 && |members[j]| > 0
    modifies members, active, distance
    ensures Folded(old(Table(distance)), Table(distance), Partition(old(members[..]), old(active[..])), i, j)
    ensures Partition(members[..], active[..]) == MergeSlots(Partition(old(members[..]), old(active[..])), i, j)
  {
    FoldDistances(i, j, distance, active, |members[i]|, |members[j]|, Partition(members[..], active[..]));
    members[i] := Sort(IntLess, members[i] + members[j]);
    members[j] := [];
    active[j] := false;
  }

  method Collect(members: array<seq<int>>, active: array<bool>, minSize: int) returns (out: seq<seq<int>>)
    requires members.Length == active.Length
    ensures out == Collected(Partition(members[..], active[..]), minSize)
  {
    ghost var p := Partition(members[..], active[..]);
    out := [];
    for i := 0 to active.Length
      invariant out == Survivors(p, minSize, i)
    {
      if active[i] && |members[i]| >= minSize {
        out := out + [members[i]];
      }
    }
    out := Sort(ClusterBefore, out);
  }

  lemma SingletonsExact(base: seq<seq<real>>, d: seq<seq<real>>)
    requires Square(base, |base|) && Symmetric(base) && Square(d, |base|)
    requires forall i, j :: 0 <= i < |base| && 0 <= j < |base| && i != j ==> d[i][j] == base[i][j]
    ensures WellFormed(Singletons(|base|), |base|) && Exact(base, d, Singletons(|base|))
  {
    var p := Singletons(|base|);
    SingletonsWellFormed(|base|);
    forall i, j | 0 <= i < |base| && 0 <= j < |base| ensures MeanDistance(base, p, i, j) == base[i][j] {
      assert RowSum(base[i], [j]) == base[i][j] + RowSum(base[i], [j][1..]);
      assert PairSum(base, [i], [j]) == RowSum(base[i], [j]) + PairSum(base, [i][1..], [j]);
      assert PerPair(base[i][j], 1, 1) == base[i][j];
    }
  }

  /** One round of the loop keeps the matrix exact and the reference's answer unchanged. */
  lemma MergeKeepsAnswer(base: seq<seq<real>>, d: seq<seq<real>>, e: seq<seq<real>>, p: Partition, cutoff: real, i: int, j: int)
    requires Square(base, |base|) && Symmetric(base) && WellFormed(p, |base|) && Exact(base, d, p)
    requires Closest(d, p.active, i, j) && d[i][j] <= cutoff
    requires Square(e, |base|) && Folded(d, e, p, i, j)
    ensures WellFormed(MergeSlots(p, i, j), |base|) && Exact(base, e, MergeSlots(p, i, j))
    ensures AverageLinkage(base, MergeSlots(p, i, j), cutoff) == AverageLinkage(base, p, cutoff)
    ensures ActiveCount(MergeSlots(p, i, j).active) < ActiveCount(p.active)
  {
    ExactClosest(base, d, p, i, j);
    AverageLinkageStep(base, p, cutoff, i, j);
    UpdateIsExact(base, d, e, p, i, j);
    DeactivationCounts(p.active, j);
  }

  lemma NothingMergeable(base: seq<seq<real>>, d: seq<seq<real>>, p: Partition, cutoff: real, i: int, j: int)
    requires Square(base, |base|) && WellFormed(p, |base|) && Exact(base, d, p)
    requires i < 0 ==> NoPair(p.active)
    requires i >= 0 ==> Closest(d, p.active, i, j) && d[i][j] > cutoff
    ensures forall a, b :: !Mergeable(base, p, cutoff, a, b)
  {
    forall a, b ensures !Mergeable(base, p, cutoff, a, b) {
      if Mergeable(base, p, cutoff, a, b) {
        assert ActivePair(p.active, a, b);
        ExactClosest(base, d, p, a, b);
        ClosestUnique(d, p.active, i, j, a, b);
      }
    }
  }

  lemma LoopExitAnswer(base: seq<seq<real>>, d: seq<seq<real>>, p: Partition, cutoff: real, i: int, j: int)
    requires Square(base, |base|) && WellFormed(p, |base|) && Exact(base, d, p)
    requires i < 0 ==> NoPair(p.active)
    requires i >= 0 ==> Closest(d, p.active, i, j) && d[i][j] > cutoff
    ensures AverageLinkage(base, p, cutoff) == p
  {
    NothingMergeable(base, d, p, cutoff, i, j);
  }

  /** The pair that is merged lies at the reference's next height. */
  lemma MergeKeepsHeights(base: seq<seq<real>>, d: seq<seq<real>>, p: Partition, q: Partition, cutoff: real, i: int, j: int)
    returns (missing: seq<real>)
    requires Square(base, |base|) && WellFormed(p, |base|) && Exact(base, d, p)
    requires Closest(d, p.active, i, j) && d[i][j] <= cutoff && q == MergeSlots(p, i, j)
    ensures WellFormed(q, |base|) && missing == Heights(base, q, cutoff)
    ensures Heights(base, p, cutoff) == [d[i][j]] + missing
  {
    ExactClosest(base, d, p, i, j);
    HeightsStep(base, p, cutoff, i, j);
    missing := Heights(base, q, cutoff);
  }

  lemma LoopExitHeights(base: seq<seq<real>>, d: seq<seq<real>>, p: Partition, cutoff: real, i: int, j: int)
    requires Square(base, |base|) && WellFormed(p, |base|) && Exact(base, d, p)
    requires i < 0 ==> NoPair(p.active)
    requires i >= 0 ==> Closest(d, p.active, i, j) && d[i][j] > cutoff
    ensures Heights(base, p, cutoff) == []
  {
    NothingMergeable(base, d, p, cutoff, i, j);
  }

  /** The matrix is exact for the partition, from which the reference goes on to the same answer
      by the heights that are still missing. */
  ghost predicate Halfway(base: seq<seq<real>>, d: seq<seq<real>>, p: Partition, cutoff: real, answer: Partition,
                          all: seq<real>, heights: seq<real>) {
    && Square(base, |base|) && Symmetric(base) && WellFormed(p, |base|) && Exact(base, d, p)
    && AverageLinkage(base, p, cutoff) == answer && heights + Heights(base, p, cutoff) == all
  }

  lemma TakenOver(taken: seq<real>, x: real, missing: seq<real>)
    ensures taken + ([x] + missing) == taken + [x] + missing
  {
  }

  lemma HalfwayMore(base: seq<seq<real>>, d: seq<seq<real>>, e: seq<seq<real>>, p: Partition, q: Partition, cutoff: real,
                    answer: Partition, all: seq<real>, heights: seq<real>, i: int, j: int)
    requires Halfway(base, d, p, cutoff, answer, all, heights) && Closest(d, p.active, i, j) && d[i][j] <= cutoff
    requires Square(e, |base|) && Folded(d, e, p, i, j) && q == MergeSlots(p, i, j)
    ensures Halfway(base, e, q, cutoff, answer, all, heights + [d[i][j]]) && ActiveCount(q.active) < ActiveCount(p.active)
  {
    MergeKeepsAnswer(base, d, e, p, cutoff, i, j);
    var missing := MergeKeepsHeights(base, d, p, q, cutoff, i, j);
    TakenOver(heights, d[i][j], missing);
  }

  lemma HalfwayIsAll(base: seq<seq<real>>, d: seq<seq<real>>, p: Partition, cutoff: real, answer: Partition, all: seq<real>, heights: seq<real>,
                     i: int, j: int)
    requires Halfway(base, d, p, cutoff, answer, all, heights)
    requires i < 0 ==> NoPair(p.active)
    requires i >= 0 ==> Closest(d, p.active, i, j) && d[i][j] > cutoff
    ensures p == answer && heights == all
  {
    LoopExitAnswer(base, d, p, cutoff, i, j);
    LoopExitHeights(base, d, p, cutoff, i, j);
    assert heights + [] == heights;
  }

  /** Merges the closest pair until it lies beyond the cutoff or one cluster is left. At
      every iteration the matrix holds the exact mean distances. `heights` are the distances
      at which the loop merged. */
  method MergeAll(ghost base: seq<seq<real>>, cutoff: real, members: array<seq<int>>, active: array<bool>, distance: array2<real>)
    returns (ghost heights: seq<real>)
    requires Square(base, |base|) && Symmetric(base)
    requires |base| == distance.Length0 == distance.Length1 == active.Length == members.Length
    requires WellFormed(Partition(members[..], active[..]), |base|)
    requires Exact(base, Table(distance), Partition(members[..], active[..]))
    modifies members, active, distance
    ensures Partition(members[..], active[..]) ==
      AverageLinkage(base, Partition(old(members[..]), old(active[..])), cutoff)
    ensures Exact(base, Table(distance), Partition(members[..], active[..]))
    ensures heights == Heights(base, Partition(old(members[..]), old(active[..])), cutoff)
  {
    ghost var d, p := Table(distance), Partition(members[..], active[..]);
    ghost var answer, all := AverageLinkage(base, p, cutoff), Heights(base, p, cutoff);
    heights := [];
    while true
      invariant d == Table(distance) && p == Partition(members[..], active[..])
      invariant Halfway(base, d, p, cutoff, answer, all, heights)
      decreases ActiveCount(p.active)
    {
      var closestI, closestJ, closest := ClosestPair(distance, active);
      if closestI < 0 || closest > cutoff {
        HalfwayIsAll(base, d, p, cutoff, answer, all, heights, closestI, closestJ);
        break;
      }
      MergeInto(closestI, closestJ, members, active, distance);
      ghost var e, q := Table(distance), Partition(members[..], active[..]);
      HalfwayMore(base, d, e, p, q, cutoff, answer, all, heights, closestI, closestJ);
      heights, d, p := heights + [closest], e, q;
    }
  }

  /** Exactly the reference's clusters of at least `minSize` members, in the documented order. */
  method Agglomerate(rows: seq<seq<real>>, cutoff: real, minSize: int) returns (r: Checked<seq<seq<int>>>)
    ensures r.Panic? <==> !Rectangular(rows)
    ensures r.Ok? ==> r.value == Collected(FinalPartition(rows, cutoff), minSize)
  {
    if |rows| == 0 {
      return Ok([]);
    }
    var initial := PairwiseDistances(rows);
    if initial.Panic? {
      return Panic;
    }
    var distance := initial.value;
    var members := new seq<int>[|rows|](i => [i]);
    var active := new bool[|rows|](i => true);
    assert Partition(members[..], active[..]) == Singletons(|rows|);
    RowDistancesSymmetric(rows);
    SingletonsExact(RowDistances(rows), Table(distance));
    ghost var heights := MergeAll(RowDistances(rows), cutoff, members, active, distance);
    var out := Collect(members, active, minSize);
    return Ok(out);
  }
}
