/** Counting, filtering and mapping over lists. */
module Lists {
  import opened Outcomes
  import opened Ordering

  function CountIf<T>(p: T -> bool, s: seq<T>): nat {
    if |s| == 0 then 0 else CountIf(p, s[..|s| - 1]) + (if p(s[|s| - 1]) then 1 else 0)
  }

  function Filter<T>(p: T -> bool, s: seq<T>): seq<T> {
    if |s| == 0 then [] else Filter(p, s[..|s| - 1]) + (if p(s[|s| - 1]) then [s[|s| - 1]] else [])
  }

  function Map<T, U>(f: T -> U, s: seq<T>): (r: seq<U>)
    ensures |r| == |s|
    ensures forall k :: 0 <= k < |s| ==> r[k] == f(s[k])
  {
    seq(|s|, k requires 0 <= k < |s| => f(s[k]))
  }

  /** What `f` makes of the elements, where it makes anything. */
  function FilterMap<T, U>(f: T -> Option<U>, s: seq<T>): seq<U> {
    if |s| == 0 then [] else
      var last := f(s[|s| - 1]);
      FilterMap(f, s[..|s| - 1]) + (if last.Some? then [last.value] else [])
  }

  lemma {:induction false} FilterMapElements<T, U>(f: T -> Option<U>, s: seq<T>, x: U)
    ensures x in FilterMap(f, s) <==> exists k :: 0 <= k < |s| && f(s[k]) == Some(x)
  {
    if |s| > 0 {
      var rest := s[..|s| - 1];
      FilterMapElements(f, rest, x);
      if k :| 0 <= k < |rest| && f(rest[k]) == Some(x) {
        assert s[k] == rest[k];
      }
      if k :| 0 <= k < |s| && f(s[k]) == Some(x) {
        assert k < |rest| ==> s[k] == rest[k];
      }
    }
  }

  /** The first `n` parts, joined. */
  function Concat<T>(part: nat -> seq<T>, n: nat): seq<T> {
    if n == 0 then [] else Concat(part, n - 1) + part(n - 1)
  }

  lemma {:induction false} ConcatElements<T>(part: nat -> seq<T>, n: nat, x: T)
    ensures x in Concat(part, n) <==> exists r: nat :: r < n && x in part(r)
  {
    if n > 0 {
      ConcatElements(part, n - 1, x);
    }
  }

  lemma {:induction false} CountIfPositive<T>(p: T -> bool, s: seq<T>)
    ensures CountIf(p, s) > 0 <==> exists k :: 0 <= k < |s| && p(s[k])
  {
    if |s| > 0 {
      CountIfPositive(p, s[..|s| - 1]);
    }
  }

  lemma {:induction false} CountIfAppend<T>(p: T -> bool, a: seq<T>, b: seq<T>)
    ensures CountIf(p, a + b) == CountIf(p, a) + CountIf(p, b)
  {
    if |b| == 0 {
      assert a + b == a;
    } else {
      CountIfAppend(p, a, b[..|b| - 1]);
      assert (a + b)[..|a + b| - 1] == a + b[..|b| - 1];
    }
  }

  lemma CountIfOfOne<T>(p: T -> bool, x: T)
    ensures CountIf(p, [x]) == if p(x) then 1 else 0
  {
  }

  /** Counting can be done after a filter that keeps everything counted. */
  lemma {:induction false} CountAfterFilter<T(!new)>(p: T -> bool, keep: T -> bool, s: seq<T>)
    requires forall x :: p(x) ==> keep(x)
    ensures CountIf(p, Filter(keep, s)) == CountIf(p, s)
  {
    if |s| > 0 {
      var rest, last := s[..|s| - 1], s[|s| - 1];
      CountAfterFilter(p, keep, rest);
      if keep(last) {
        CountIfAppend(p, Filter(keep, rest), [last]);
        CountIfOfOne(p, last);
      } else {
        assert !p(last);
        assert Filter(keep, s) == Filter(keep, rest);
      }
    }
  }

  lemma {:induction false} FilterElements<T>(p: T -> bool, s: seq<T>, x: T)
    ensures x in Filter(p, s) <==> x in s && p(x)
  {
    if |s| > 0 {
      FilterElements(p, s[..|s| - 1], x);
      assert s == s[..|s| - 1] + [s[|s| - 1]];
    }
  }

  lemma {:induction false} FilterDistinct<T>(p: T -> bool, s: seq<T>)
    requires Distinct(s)
    ensures Distinct(Filter(p, s))
  {
    if |s| > 0 {
      var rest, last := s[..|s| - 1], s[|s| - 1];
      FilterDistinct(p, rest);
      FilterElements(p, rest, last);
      assert last !in rest;
    }
  }

  lemma {:induction false} FilterAppend<T>(p: T -> bool, a: seq<T>, b: seq<T>)
    ensures Filter(p, a + b) == Filter(p, a) + Filter(p, b)
  {
    if |b| == 0 {
      assert a + b == a;
    } else {
      FilterAppend(p, a, b[..|b| - 1]);
      assert (a + b)[..|a + b| - 1] == a + b[..|b| - 1];
    }
  }

  lemma {:induction false} FilterSame<T>(p: T -> bool, q: T -> bool, s: seq<T>)
    requires forall k :: 0 <= k < |s| ==> p(s[k]) == q(s[k])
    ensures Filter(p, s) == Filter(q, s)
  {
    if |s| > 0 {
      FilterSame(p, q, s[..|s| - 1]);
    }
  }

  lemma {:induction false} FilterNone<T>(p: T -> bool, s: seq<T>)
    requires forall k :: 0 <= k < |s| ==> !p(s[k])
    ensures Filter(p, s) == []
  {
    if |s| > 0 {
      FilterNone(p, s[..|s| - 1]);
    }
  }

  lemma CountIfWithout<T>(p: T -> bool, s: seq<T>, k: nat)
    requires k < |s|
    ensures CountIf(p, s) == CountIf(p, s[..k] + s[k + 1..]) + (if p(s[k]) then 1 else 0)
  {
    Rejoined(s, k);
    CountIfAppend(p, s[..k] + [s[k]], s[k + 1..]);
    CountIfAppend(p, s[..k], [s[k]]);
    CountIfOfOne(p, s[k]);
    CountIfAppend(p, s[..k], s[k + 1..]);
  }

  /** What is among more is counted no more often. */
  lemma {:induction false} CountAmongMore<T>(p: T -> bool, a: seq<T>, b: seq<T>)
    requires multiset(a) <= multiset(b)
    ensures |a| <= |b| && CountIf(p, a) <= CountIf(p, b)
    decreases |a|
  {
    if |a| > 0 {
      var k := Partner(a, b);
      CountAmongMore(p, a[..|a| - 1], b[..k] + b[k + 1..]);
      CountIfWithout(p, b, k);
    }
  }

  lemma {:induction false} MapPermutation<T, U>(f: T -> U, a: seq<T>, b: seq<T>)
    requires multiset(a) == multiset(b)
    ensures multiset(Map(f, a)) == multiset(Map(f, b))
    decreases |a|
  {
    SameElements(a, b);
    if |a| > 0 {
      var k := Partner(a, b);
      var last := |a| - 1;
      MapPermutation(f, a[..last], b[..k] + b[k + 1..]);
      assert Map(f, a) == Map(f, a[..last]) + [f(a[last])];
      MapWithout(f, b, k);
    }
  }

  lemma MapWithout<T, U>(f: T -> U, s: seq<T>, k: nat)
    requires k < |s|
    ensures multiset(Map(f, s)) == multiset(Map(f, s[..k] + s[k + 1..])) + multiset{f(s[k])}
  {
    assert Map(f, s[..k] + s[k + 1..]) == Map(f, s[..k]) + Map(f, s[k + 1..]);
    assert Map(f, s) == Map(f, s[..k]) + [f(s[k])] + Map(f, s[k + 1..]);
  }

  lemma JoinedDistinct<T>(a: seq<T>, b: seq<T>)
    requires Distinct(a) && Distinct(b) && forall x :: x in a ==> x !in b
    ensures Distinct(a + b)
    ensures forall x :: x in a + b <==> x in a || x in b
  {
    forall i, j | 0 <= i < j < |a + b| ensures (a + b)[i] != (a + b)[j] {
      if i < |a| <= j {
        var x, y := a[i], b[j - |a|];
        assert x in a && y in b;
      }
    }
  }

  /** The numbers h to h + n - 1. */
  function Range(h: int, n: nat): (r: seq<int>)
    ensures |r| == n && Distinct(r)
    ensures forall i :: 0 <= i < n ==> r[i] == h + i
    ensures forall x :: x in r <==> h <= x < h + n
  {
    var r := seq(n, i requires 0 <= i < n => h + i);
    assert forall x :: x in r <==> h <= x < h + n by {
      forall x | h <= x < h + n ensures x in r {
        assert r[x - h] == x;
      }
    }
    r
  }

  lemma {:induction false} CountIfSame<T>(p: T -> bool, q: T -> bool, s: seq<T>)
    requires forall k :: 0 <= k < |s| ==> p(s[k]) == q(s[k])
    ensures CountIf(p, s) == CountIf(q, s)
  {
    if |s| > 0 {
      CountIfSame(p, q, s[..|s| - 1]);
    }
  }

  lemma {:induction false} CountIfSplits<T>(p: T -> bool, q: T -> bool, r: T -> bool, s: seq<T>)
    requires forall k :: 0 <= k < |s| ==> (r(s[k]) <==> p(s[k]) || q(s[k])) && !(p(s[k]) && q(s[k]))
    ensures CountIf(r, s) == CountIf(p, s) + CountIf(q, s)
  {
    if |s| > 0 {
      CountIfSplits(p, q, r, s[..|s| - 1]);
    }
  }

  function ElementSet<T>(s: seq<T>): set<T> { set x | x in s }

  lemma {:induction false} DistinctSize<T>(s: seq<T>)
    requires Distinct(s)
    ensures |ElementSet(s)| == |s|
  {
    if |s| > 0 {
      var rest, last := s[..|s| - 1], s[|s| - 1];
      DistinctSize(rest);
      assert s == rest + [last] && last !in rest;
      assert ElementSet(s) == ElementSet(rest) + {last};
    }
  }

  lemma SubsetSize<T>(a: set<T>, b: set<T>)
    requires a <= b
    ensures |a| <= |b|
  {
    assert b == a + (b - a);
  }

  lemma {:induction false} FilterAll<T>(p: T -> bool, no: T -> bool, s: seq<T>)
    requires forall k :: 0 <= k < |s| ==> p(s[k]) && !no(s[k])
    ensures Filter(p, s) == s && CountIf(no, s) == 0
  {
    if |s| > 0 {
      FilterAll(p, no, s[..|s| - 1]);
    }
  }

  lemma {:induction false} CountIfAll<T>(p: T -> bool, s: seq<T>)
    requires forall k :: 0 <= k < |s| ==> p(s[k])
    ensures CountIf(p, s) == |s|
  {
    if |s| > 0 {
      CountIfAll(p, s[..|s| - 1]);
    }
  }
}
