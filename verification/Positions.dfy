/** Filtering and sorting by position: what is kept of a list, and what comes first. */
module Positions {
  import opened Outcomes
  import opened Ordering
  import opened Lists

  /** The positions of `s` that pass, ascending. */
  ghost function Where<T>(p: T -> bool, s: seq<T>): seq<nat> {
    if |s| == 0 then [] else Where(p, s[..|s| - 1]) + (if p(s[|s| - 1]) then [|s| - 1] else [])
  }

  ghost predicate Ascending(ps: seq<nat>) { forall i, j :: 0 <= i < j < |ps| ==> ps[i] < ps[j] }

  ghost predicate Within(ps: seq<nat>, n: nat) { forall i :: 0 <= i < |ps| ==> ps[i] < n }

  ghost function ElementsAt<T>(s: seq<T>, ps: seq<nat>): (r: seq<T>)
    requires Within(ps, |s|)
    ensures |r| == |ps| && forall i :: 0 <= i < |ps| ==> r[i] == s[ps[i]]
  {
    seq(|ps|, i requires 0 <= i < |ps| => s[ps[i]])
  }

  lemma {:induction false} WhereElements<T>(p: T -> bool, s: seq<T>, k: nat)
    ensures k in Where(p, s) <==> k < |s| && p(s[k])
  {
    if |s| > 0 {
      var rest := s[..|s| - 1];
      WhereElements(p, rest, k);
      assert k < |rest| ==> rest[k] == s[k];
    }
  }

  lemma OneMorePosition(ps: seq<nat>, last: nat)
    requires Ascending(ps) && Within(ps, last)
    ensures Ascending(ps + [last]) && Within(ps + [last], last + 1) && Within(ps, last + 1)
  {
  }

  lemma {:induction false} WhereAscends<T>(p: T -> bool, s: seq<T>)
    ensures Within(Where(p, s), |s|) && Ascending(Where(p, s))
  {
    if |s| > 0 {
      var rest := s[..|s| - 1];
      WhereAscends(p, rest);
      OneMorePosition(Where(p, rest), |rest|);
      assert Where(p, rest) + [] == Where(p, rest);
    }
  }

  lemma ElementsOfPrefix<T>(s: seq<T>, rest: seq<T>, ps: seq<nat>)
    requires rest <= s && Within(ps, |rest|)
    ensures Within(ps, |s|) && ElementsAt(s, ps) == ElementsAt(rest, ps)
  {
  }

  lemma ElementsOfMore<T>(s: seq<T>, ps: seq<nat>, last: nat)
    requires Within(ps, |s|) && last < |s|
    ensures Within(ps + [last], |s|) && ElementsAt(s, ps + [last]) == ElementsAt(s, ps) + [s[last]]
  {
  }

  lemma {:induction false} WhereFilters<T>(p: T -> bool, s: seq<T>)
    ensures Within(Where(p, s), |s|) && ElementsAt(s, Where(p, s)) == Filter(p, s)
  {
    if |s| > 0 {
      var rest := s[..|s| - 1];
      var ps := Where(p, rest);
      WhereFilters(p, rest);
      ElementsOfPrefix(s, rest, ps);
      ElementsOfMore(s, ps, |rest|);
      assert ps + [] == ps && Filter(p, rest) + [] == Filter(p, rest);
    }
  }

  lemma WhereIsFilter<T>(p: T -> bool, s: seq<T>)
    ensures Within(Where(p, s), |s|) && Ascending(Where(p, s)) && ElementsAt(s, Where(p, s)) == Filter(p, s)
    ensures forall k: nat :: k in Where(p, s) <==> k < |s| && p(s[k])
  {
    WhereAscends(p, s);
    WhereFilters(p, s);
    forall k: nat ensures k in Where(p, s) <==> k < |s| && p(s[k]) {
      WhereElements(p, s, k);
    }
  }

  lemma {:induction false} AscendingSize(ps: seq<nat>)
    requires Ascending(ps)
    ensures |ElementSet(ps)| == |ps|
  {
    DistinctSize(ps);
  }

  ghost function Passing<T>(p: T -> bool, s: seq<T>): set<nat> { set k: nat | k < |s| && p(s[k]) }

  /** A filter keeps as many elements as there are positions that pass. */
  lemma FilterSize<T>(p: T -> bool, s: seq<T>)
    ensures |Filter(p, s)| == |Passing(p, s)|
  {
    WhereIsFilter(p, s);
    AscendingSize(Where(p, s));
    assert Passing(p, s) == ElementSet(Where(p, s));
  }

  function Both<T>(p: T -> bool, q: T -> bool): T -> bool { x => p(x) && q(x) }

  lemma {:induction false} CountAmongKept<T>(p: T -> bool, q: T -> bool, s: seq<T>)
    ensures CountIf(q, Filter(p, s)) == |Filter(Both(p, q), s)|
  {
    if |s| > 0 {
      var rest, last := s[..|s| - 1], s[|s| - 1];
      CountAmongKept(p, q, rest);
      if p(last) {
        CountIfAppend(q, Filter(p, rest), [last]);
        CountIfOfOne(q, last);
      } else {
        assert Filter(p, s) == Filter(p, rest);
      }
    }
  }

  /** Counting among what a filter keeps. */
  lemma CountSize<T>(p: T -> bool, q: T -> bool, s: seq<T>)
    ensures CountIf(q, Filter(p, s)) == |Passing(Both(p, q), s)|
  {
    CountAmongKept(p, q, s);
    FilterSize(Both(p, q), s);
  }

  lemma {:induction false} FilterOfFilter<T>(p: T -> bool, q: T -> bool, s: seq<T>)
    ensures Filter(q, Filter(p, s)) == Filter(Both(p, q), s)
  {
    if |s| > 0 {
      var rest, last := s[..|s| - 1], s[|s| - 1];
      FilterOfFilter(p, q, rest);
      if p(last) {
        FilterAppend(q, Filter(p, rest), [last]);
        FilterOfOne(q, last);
      } else {
        assert Filter(p, s) == Filter(p, rest);
      }
    }
  }

  lemma FilterOfOne<T>(p: T -> bool, x: T)
    ensures Filter(p, [x]) == if p(x) then [x] else []
  {
  }

  // ---------------------------------------------------------------- who comes first

  /** Position `a` comes before `b`: strictly smaller, or as good and earlier. */
  ghost predicate First<T>(less: (T, T) -> bool, s: seq<T>, a: nat, b: nat)
    requires a < |s| && b < |s|
  {
    less(s[a], s[b]) || (!less(s[b], s[a]) && a < b)
  }

  ghost predicate InTurn<T>(less: (T, T) -> bool, s: seq<T>, picks: seq<nat>) {
    Within(picks, |s|) && forall i, j :: 0 <= i < j < |picks| ==> First(less, s, picks[i], picks[j])
  }

  lemma FirstOfBetter<T(!new)>(less: (T, T) -> bool, s: seq<T>, a: nat, b: nat, c: nat)
    requires StrictWeak(less) && a < |s| && b < |s| && c < |s| && a < c && !less(s[b], s[a]) && First(less, s, b, c)
    ensures First(less, s, a, c)
  {
  }

  lemma AllAfter<T(!new)>(less: (T, T) -> bool, s: seq<T>, first: nat, rest: seq<nat>)
    requires first < |s| && InTurn(less, s, rest) && forall i :: 0 <= i < |rest| ==> First(less, s, first, rest[i])
    ensures InTurn(less, s, [first] + rest) && ElementsAt(s, [first] + rest) == [s[first]] + ElementsAt(s, rest)
  {
  }

  lemma PutInFront<T(!new)>(less: (T, T) -> bool, s: seq<T>, p: nat, picks: seq<nat>)
    requires StrictWeak(less) && p < |s| && InTurn(less, s, picks) && forall i :: 0 <= i < |picks| ==> p < picks[i]
    requires |picks| > 0 ==> !less(s[picks[0]], s[p])
    ensures InTurn(less, s, [p] + picks) && ElementsAt(s, [p] + picks) == [s[p]] + ElementsAt(s, picks)
  {
    forall i | 0 <= i < |picks| ensures First(less, s, p, picks[i]) {
      if i > 0 {
        FirstOfBetter(less, s, p, picks[0], picks[i]);
      }
    }
    AllAfter(less, s, p, picks);
  }

  lemma StaysInFront<T(!new)>(less: (T, T) -> bool, s: seq<T>, p: nat, first: nat, tail: seq<nat>, rest: seq<nat>)
    requires p < |s| && first < |s| && InTurn(less, s, [first] + tail) && less(s[first], s[p])
    requires multiset(rest) == multiset{p} + multiset(tail) && InTurn(less, s, rest)
    ensures InTurn(less, s, [first] + rest) && ElementsAt(s, [first] + rest) == [s[first]] + ElementsAt(s, rest)
  {
    var picks := [first] + tail;
    assert picks[0] == first;
    forall i | 0 <= i < |rest| ensures First(less, s, first, rest[i]) {
      assert rest[i] in multiset(rest);
      if rest[i] != p {
        var j :| 0 <= j < |tail| && tail[j] == rest[i];
        assert picks[j + 1] == rest[i];
      }
    }
    AllAfter(less, s, first, rest);
  }

  lemma {:induction false} InsertInTurn<T(!new)>(less: (T, T) -> bool, s: seq<T>, p: nat, picks: seq<nat>) returns (out: seq<nat>)
    requires StrictWeak(less) && p < |s| && InTurn(less, s, picks) && forall i :: 0 <= i < |picks| ==> p < picks[i]
    ensures multiset(out) == multiset{p} + multiset(picks) && InTurn(less, s, out)
    ensures Insert(less, s[p], ElementsAt(s, picks)) == ElementsAt(s, out)
  {
    if |picks| == 0 || !less(s[picks[0]], s[p]) {
      out := [p] + picks;
      PutInFront(less, s, p, picks);
    } else {
      var first, tail := picks[0], picks[1..];
      assert picks == [first] + tail;
      var rest := InsertInTurn(less, s, p, tail);
      out := [first] + rest;
      StaysInFront(less, s, p, first, tail, rest);
      assert ElementsAt(s, picks)[1..] == ElementsAt(s, tail);
    }
  }

  /** Sorting what stands at ascending positions puts the positions in turn. */
  lemma {:induction false} SortInTurn<T(!new)>(less: (T, T) -> bool, s: seq<T>, ps: seq<nat>) returns (picks: seq<nat>)
    requires StrictWeak(less) && Ascending(ps) && Within(ps, |s|)
    ensures multiset(picks) == multiset(ps) && InTurn(less, s, picks) && Sort(less, ElementsAt(s, ps)) == ElementsAt(s, picks)
  {
    if |ps| == 0 {
      picks := [];
    } else {
      var first, tail := ps[0], ps[1..];
      var rest := SortInTurn(less, s, tail);
      AllLater(ps, rest);
      picks := InsertInTurn(less, s, first, rest);
      assert ElementsAt(s, ps)[1..] == ElementsAt(s, tail) && ElementsAt(s, ps)[0] == s[first];
      assert ps == [first] + tail;
    }
  }

  lemma AllLater(ps: seq<nat>, rest: seq<nat>)
    requires |ps| > 0 && Ascending(ps) && multiset(rest) == multiset(ps[1..])
    ensures forall i :: 0 <= i < |rest| ==> ps[0] < rest[i]
  {
    forall i | 0 <= i < |rest| ensures ps[0] < rest[i] {
      assert rest[i] in multiset(rest);
      assert rest[i] in ps[1..];
    }
  }
}
