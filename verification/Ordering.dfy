/** Sorting with a strict weak order, as the Go `sort` package does it.

  The repository sorts everything that leaves a map walk or a goroutine, and
  claims that the output is then reproducible. `SortOfPermutation` is that claim:
  when no two different elements tie, the sorted list depends on the elements
  only and not on the order in which they arrived. */
module Ordering {

  ghost predicate StrictWeak<T(!new)>(less: (T, T) -> bool) {
    && (forall x, y :: less(x, y) ==> !less(y, x))
    && (forall x, y, z :: less(x, y) ==> less(x, z) || less(z, y))
  }

  ghost predicate Sorted<T>(less: (T, T) -> bool, s: seq<T>) {
    forall i, j :: 0 <= i < j < |s| ==> !less(s[j], s[i])
  }

  /** No two different elements of `s` tie. */
  ghost predicate TieFree<T>(less: (T, T) -> bool, s: seq<T>) {
    forall x, y :: x in s && y in s && !less(x, y) && !less(y, x) ==> x == y
  }

  /** Puts `x` in front of the first element that is not strictly before it. */
  function Insert<T>(less: (T, T) -> bool, x: T, s: seq<T>): seq<T> {
    if |s| == 0 || !less(s[0], x) then [x] + s else [s[0]] + Insert(less, x, s[1..])
  }

  /** The stable sort of `s`. */
  function Sort<T>(less: (T, T) -> bool, s: seq<T>): seq<T> {
    if |s| == 0 then [] else Insert(less, s[0], Sort(less, s[1..]))
  }

  lemma {:induction false} InsertElements<T>(less: (T, T) -> bool, x: T, s: seq<T>)
    ensures multiset(Insert(less, x, s)) == multiset{x} + multiset(s)
  {
    if |s| == 0 || !less(s[0], x) {
    } else {
      InsertElements(less, x, s[1..]);
      assert s == [s[0]] + s[1..];
    }
  }

  lemma {:induction false} SortElements<T>(less: (T, T) -> bool, s: seq<T>)
    ensures multiset(Sort(less, s)) == multiset(s)
  {
    if |s| == 0 {
    } else {
      SortElements(less, s[1..]);
      InsertElements(less, s[0], Sort(less, s[1..]));
      assert s == [s[0]] + s[1..];
    }
  }

  lemma SameElements<T>(a: seq<T>, b: seq<T>)
    requires multiset(a) == multiset(b)
    ensures |a| == |b|
    ensures forall x :: x in a <==> x in b
  {
    assert |multiset(a)| == |a| && |multiset(b)| == |b|;
    forall x ensures x in a <==> x in b {
      assert x in a <==> x in multiset(a);
      assert x in b <==> x in multiset(b);
    }
  }

  lemma {:induction false} InsertSorted<T(!new)>(less: (T, T) -> bool, x: T, s: seq<T>)
    requires StrictWeak(less) && Sorted(less, s)
    ensures Sorted(less, Insert(less, x, s))
  {
    if |s| == 0 {
    } else if !less(s[0], x) {
      var r := [x] + s;
      forall i, j | 0 <= i < j < |r| ensures !less(r[j], r[i]) {
        if i == 0 && j > 1 {
          assert !less(s[j - 1], s[0]);
        }
      }
    } else {
      InsertSorted(less, x, s[1..]);
      InsertElements(less, x, s[1..]);
      var t := Insert(less, x, s[1..]);
      forall y | y in t ensures !less(y, s[0]) {
        assert y in multiset(t);
        assert y == x || y in s[1..];
      }
    }
  }

  lemma {:induction false} SortSorted<T(!new)>(less: (T, T) -> bool, s: seq<T>)
    requires StrictWeak(less)
    ensures Sorted(less, Sort(less, s))
  {
    if |s| == 0 {
    } else {
      SortSorted(less, s[1..]);
      InsertSorted(less, s[0], Sort(less, s[1..]));
    }
  }

  lemma HeadRemoved<T>(s: seq<T>)
    requires |s| > 0
    ensures multiset(s[1..]) == multiset(s) - multiset{s[0]}
  {
    assert s == [s[0]] + s[1..];
  }

  lemma Removed<T>(s: seq<T>, k: nat)
    requires k < |s|
    ensures multiset(s[..k] + s[k + 1..]) == multiset(s) - multiset{s[k]}
  {
    Rejoined(s, k);
  }

  lemma Rejoined<T>(s: seq<T>, k: nat)
    requires k < |s|
    ensures s == s[..k] + [s[k]] + s[k + 1..]
  {
  }

  lemma LastRemoved<T>(s: seq<T>)
    requires |s| > 0
    ensures multiset(s[..|s| - 1]) == multiset(s) - multiset{s[|s| - 1]}
  {
    assert s == s[..|s| - 1] + [s[|s| - 1]];
  }

  /** The last element of `a` stands in `b` too, and without it the rest of `a` is still in the
      rest of `b`. */
  lemma Partner<T>(a: seq<T>, b: seq<T>) returns (k: nat)
    requires |a| > 0 && multiset(a) <= multiset(b)
    ensures k < |b| && b[k] == a[|a| - 1]
    ensures multiset(a[..|a| - 1]) <= multiset(b[..k] + b[k + 1..])
    ensures multiset(a) == multiset(b) ==> multiset(a[..|a| - 1]) == multiset(b[..k] + b[k + 1..])
  {
    var x := a[|a| - 1];
    assert x in multiset(a) && x in multiset(b);
    assert x in b;
    k :| 0 <= k < |b| && b[k] == x;
    LastRemoved(a);
    Removed(b, k);
  }

  /** Two sorted lists with the same elements are the same list, when nothing ties. */
  lemma {:induction false} SortedUnique<T>(less: (T, T) -> bool, a: seq<T>, b: seq<T>)
    requires Sorted(less, a) && Sorted(less, b) && TieFree(less, a)
    requires multiset(a) == multiset(b)
    ensures a == b
  {
    SameElements(a, b);
    if |a| == 0 {
    } else {
      assert a[0] in b && b[0] in a;
      assert a[0] == b[0];
      HeadRemoved(a);
      HeadRemoved(b);
      assert a == [a[0]] + a[1..] && b == [b[0]] + b[1..];
      SortedUnique(less, a[1..], b[1..]);
    }
  }

  /** Sorting forgets the order of arrival. */
  lemma SortOfPermutation<T(!new)>(less: (T, T) -> bool, a: seq<T>, b: seq<T>)
    requires StrictWeak(less) && TieFree(less, a)
    requires multiset(a) == multiset(b)
    ensures Sort(less, a) == Sort(less, b)
  {
    SortElements(less, a);
    SortElements(less, b);
    SortSorted(less, a);
    SortSorted(less, b);
    SameElements(a, Sort(less, a));
    SortedUnique(less, Sort(less, a), Sort(less, b));
  }

  /** A list whose elements are already in order is its own sort. */
  lemma {:induction false} SortOfSorted<T(!new)>(less: (T, T) -> bool, s: seq<T>)
    requires StrictWeak(less) && Sorted(less, s)
    ensures Sort(less, s) == s
  {
    if |s| == 0 {
    } else {
      SortOfSorted(less, s[1..]);
      if |s| > 1 {
        assert !less(s[1], s[0]);
      }
    }
  }

  // ---------------------------------------------------------------- lists without repeats

  ghost predicate Distinct<T>(s: seq<T>) {
    forall i, j :: 0 <= i < j < |s| ==> s[i] != s[j]
  }

  lemma {:induction false} DistinctCounts<T>(s: seq<T>, x: T)
    requires Distinct(s)
    ensures multiset(s)[x] == if x in s then 1 else 0
  {
    if |s| > 0 {
      DistinctCounts(s[1..], x);
      assert s == [s[0]] + s[1..];
      assert s[0] !in s[1..];
    }
  }

  lemma DistinctElements<T>(a: seq<T>, b: seq<T>)
    requires Distinct(a) && Distinct(b) && forall x :: x in a <==> x in b
    ensures multiset(a) == multiset(b)
  {
    forall x ensures multiset(a)[x] == multiset(b)[x] {
      DistinctCounts(a, x);
      DistinctCounts(b, x);
    }
  }

  lemma DistinctAmong<T>(a: seq<T>, b: seq<T>)
    requires Distinct(a) && Distinct(b) && forall x :: x in a ==> x in b
    ensures multiset(a) <= multiset(b)
  {
    forall x ensures multiset(a)[x] <= multiset(b)[x] {
      DistinctCounts(a, x);
      DistinctCounts(b, x);
    }
  }

  lemma PermutationDistinct<T>(a: seq<T>, b: seq<T>)
    requires Distinct(a) && multiset(a) == multiset(b)
    ensures Distinct(b)
  {
    forall i, j | 0 <= i < j < |b| ensures b[i] != b[j] {
      if b[i] == b[j] {
        assert b == b[..i] + [b[i]] + b[i + 1..j] + [b[j]] + b[j + 1..];
        assert multiset(b)[b[i]] >= 2;
        DistinctCounts(a, b[i]);
      }
    }
  }

  // ---------------------------------------------------------------- the orders in use

  predicate IntLess(a: int, b: int) { a < b }

  /** Go's byte-wise string order. */
  predicate StringLess(a: string, b: string) {
    if |b| == 0 then false
    else if |a| == 0 then true
    else a[0] < b[0] || (a[0] == b[0] && StringLess(a[1..], b[1..]))
  }

  /** `a` comes before `b` where they first differ, or ends there. */
  ghost predicate DiffersAt(a: string, b: string, n: nat) {
    && n <= |a| && n < |b| && a[..n] == b[..n] && (n == |a| || a[n] < b[n])
  }

  lemma {:induction false} StringLessExactlyWhen(a: string, b: string)
    ensures StringLess(a, b) <==> exists n: nat :: DiffersAt(a, b, n)
  {
    if |a| > 0 && |b| > 0 {
      StringLessExactlyWhen(a[1..], b[1..]);
      if a[0] == b[0] {
        if n: nat :| DiffersAt(a[1..], b[1..], n) {
          DiffersLater(a, b, n);
        }
        if n: nat :| DiffersAt(a, b, n) {
          DiffersEarlier(a, b, n);
        }
      } else if a[0] < b[0] {
        assert DiffersAt(a, b, 0);
      } else if n: nat :| DiffersAt(a, b, n) {
        assert n > 0 ==> a[..n][0] == b[..n][0];
      }
    } else if |b| > 0 {
      assert DiffersAt(a, b, 0);
    }
  }

  lemma DiffersLater(a: string, b: string, n: nat)
    requires |a| > 0 && |b| > 0 && a[0] == b[0] && DiffersAt(a[1..], b[1..], n)
    ensures DiffersAt(a, b, n + 1)
  {
    assert a[..n + 1] == [a[0]] + a[1..][..n] && b[..n + 1] == [b[0]] + b[1..][..n];
  }

  lemma DiffersEarlier(a: string, b: string, n: nat)
    requires |a| > 0 && |b| > 0 && a[0] == b[0] && DiffersAt(a, b, n)
    ensures n > 0 && DiffersAt(a[1..], b[1..], n - 1)
  {
    assert a[1..][..n - 1] == a[..n][1..] && b[1..][..n - 1] == b[..n][1..];
  }

  lemma {:induction false} StringLessAsymmetric(a: string, b: string)
    requires StringLess(a, b)
    ensures !StringLess(b, a)
  {
    if |a| > 0 && a[0] == b[0] {
      StringLessAsymmetric(a[1..], b[1..]);
    }
  }

  lemma {:induction false} StringLessSplits(a: string, b: string, c: string)
    requires StringLess(a, b)
    ensures StringLess(a, c) || StringLess(c, b)
  {
    if |a| > 0 && |c| > 0 && a[0] == b[0] == c[0] {
      StringLessSplits(a[1..], b[1..], c[1..]);
    }
  }

  lemma {:induction false} StringLessTotal(a: string, b: string)
    requires !StringLess(a, b) && !StringLess(b, a)
    ensures a == b
  {
    if |a| > 0 && |b| > 0 {
      StringLessTotal(a[1..], b[1..]);
      assert a == [a[0]] + a[1..] && b == [b[0]] + b[1..];
    }
  }

  lemma StringOrder()
    ensures StrictWeak(StringLess)
    ensures forall a, b :: !StringLess(a, b) && !StringLess(b, a) ==> a == b
  {
    forall a, b | StringLess(a, b) ensures !StringLess(b, a) { StringLessAsymmetric(a, b); }
    forall a, b, c | StringLess(a, b) ensures StringLess(a, c) || StringLess(c, b) { StringLessSplits(a, b, c); }
    forall a, b | !StringLess(a, b) && !StringLess(b, a) ensures a == b { StringLessTotal(a, b); }
  }

  // ---------------------------------------------------------------- joined keys

  /** Two-part cache keys are `left + separator + right`. They collide for different
      parts exactly when one right part contains the separator at the place where the
      other key splits. */
  lemma JoinedKeysCollide(l1: string, r1: string, l2: string, r2: string, sep: char)
    ensures (l1 + [sep] + r1 == l2 + [sep] + r2 && (l1, r1) != (l2, r2)) <==>
            ((exists m: string :: l2 == l1 + [sep] + m && r1 == m + [sep] + r2) ||
             (exists m: string :: l1 == l2 + [sep] + m && r2 == m + [sep] + r1))
  {
    var k1, k2 := l1 + [sep] + r1, l2 + [sep] + r2;
    if k1 == k2 && (l1, r1) != (l2, r2) {
      if |l1| < |l2| {
        JoinedKeysOverlap(l1, r1, l2, r2, sep);
      } else if |l2| < |l1| {
        JoinedKeysOverlap(l2, r2, l1, r1, sep);
      } else {
        JoinedKeysSameSplit(l1, r1, l2, r2, sep);
      }
    }
    if m: string :| l2 == l1 + [sep] + m && r1 == m + [sep] + r2 {
      assert k1 == l1 + [sep] + m + [sep] + r2 == k2;
      assert |l1| < |l2|;
    }
    if m: string :| l1 == l2 + [sep] + m && r2 == m + [sep] + r1 {
      assert k2 == l2 + [sep] + m + [sep] + r1 == k1;
      assert |l2| < |l1|;
    }
  }

  lemma JoinedKeysSameSplit(l1: string, r1: string, l2: string, r2: string, sep: char)
    requires l1 + [sep] + r1 == l2 + [sep] + r2 && |l1| == |l2|
    ensures l1 == l2 && r1 == r2
  {
    var k := l1 + [sep] + r1;
    assert l1 == k[..|l1|] && r1 == k[|l1| + 1..];
    assert l2 == (l2 + [sep] + r2)[..|l2|] && r2 == (l2 + [sep] + r2)[|l2| + 1..];
  }

  lemma JoinedKeysOverlap(l1: string, r1: string, l2: string, r2: string, sep: char)
    requires l1 + [sep] + r1 == l2 + [sep] + r2 && |l1| < |l2|
    ensures exists m: string :: l2 == l1 + [sep] + m && r1 == m + [sep] + r2
  {
    var k := l1 + [sep] + r1;
    var m := l2[|l1| + 1..];
    assert l1 == k[..|l1|] == l2[..|l1|];
    assert l2[|l1|] == k[|l1|] == sep;
    assert l2 == l1 + [sep] + m;
    assert r1 == k[|l1| + 1..];
    assert l2 + [sep] + r2 == l1 + [sep] + (m + [sep] + r2);
    assert (l2 + [sep] + r2)[|l1| + 1..] == m + [sep] + r2;
  }

  /** With a separator-free right part the key determines both parts. */
  lemma JoinedKeysInjective(l1: string, r1: string, l2: string, r2: string, sep: char)
    requires sep !in r1 && sep !in r2
    requires l1 + [sep] + r1 == l2 + [sep] + r2
    ensures l1 == l2 && r1 == r2
  {
    JoinedKeysCollide(l1, r1, l2, r2, sep);
    forall m: string ensures sep in m + [sep] + r2 && sep in m + [sep] + r1 {
      assert (m + [sep] + r2)[|m|] == sep && (m + [sep] + r1)[|m|] == sep;
    }
  }

  /** So it does with separator-free left parts. */
  lemma LeftKeysInjective(l1: string, r1: string, l2: string, r2: string, sep: char)
    requires sep !in l1 && sep !in l2
    requires l1 + [sep] + r1 == l2 + [sep] + r2
    ensures l1 == l2 && r1 == r2
  {
    JoinedKeysCollide(l1, r1, l2, r2, sep);
    forall m: string ensures sep in l1 + [sep] + m && sep in l2 + [sep] + m {
      assert (l1 + [sep] + m)[|l1|] == sep && (l2 + [sep] + m)[|l2|] == sep;
    }
  }
}
