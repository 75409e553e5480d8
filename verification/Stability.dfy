/** Stability: what a sort does with elements that tie.

  A stable sort leaves every tie class in its order of arrival, and that together with the
  order is all there is to know of its result. */
module Stability {
  import opened Lists
  import opened Ordering

  /** The elements that tie with `t`. */
  function Ties<T>(less: (T, T) -> bool, t: T): T -> bool {
    x => !less(x, t) && !less(t, x)
  }

  /** What of `s` ties with `t`, in its order. */
  function Class<T>(less: (T, T) -> bool, t: T, s: seq<T>): seq<T> { Filter(Ties(less, t), s) }

  ghost predicate SameClasses<T(!new)>(less: (T, T) -> bool, a: seq<T>, b: seq<T>) {
    forall t :: Class(less, t, a) == Class(less, t, b)
  }

  lemma ClassOfOne<T>(less: (T, T) -> bool, t: T, x: T)
    ensures Class(less, t, [x]) == if Ties(less, t)(x) then [x] else []
  {
    assert [x][..0] == [];
    assert Filter(Ties(less, t), [x][..0]) == [];
  }

  lemma ClassOfMore<T>(less: (T, T) -> bool, t: T, x: T, s: seq<T>)
    ensures Class(less, t, [x] + s) == (if Ties(less, t)(x) then [x] else []) + Class(less, t, s)
  {
    FilterAppend(Ties(less, t), [x], s);
    ClassOfOne(less, t, x);
  }

  lemma {:induction false} InsertKeepsClass<T(!new)>(less: (T, T) -> bool, t: T, x: T, s: seq<T>)
    requires StrictWeak(less)
    ensures Class(less, t, Insert(less, x, s)) == Class(less, t, [x] + s)
  {
    if |s| > 0 && less(s[0], x) {
      var y, rest := s[0], s[1..];
      InsertKeepsClass(less, t, x, rest);
      assert s == [y] + rest;
      ClassOfMore(less, t, y, Insert(less, x, rest));
      ClassOfMore(less, t, x, rest);
      ClassOfMore(less, t, x, s);
      ClassOfMore(less, t, y, rest);
      assert !(Ties(less, t)(x) && Ties(less, t)(y));
    }
  }

  /** A sort is stable: every tie class keeps its order of arrival. */
  lemma {:induction false} SortIsStable<T(!new)>(less: (T, T) -> bool, s: seq<T>)
    requires StrictWeak(less)
    ensures SameClasses(less, Sort(less, s), s)
  {
    if |s| > 0 {
      SortIsStable(less, s[1..]);
      forall t ensures Class(less, t, Sort(less, s)) == Class(less, t, s) {
        InsertKeepsClass(less, t, s[0], Sort(less, s[1..]));
        ClassOfMore(less, t, s[0], Sort(less, s[1..]));
        ClassOfMore(less, t, s[0], s[1..]);
        assert s == [s[0]] + s[1..];
      }
    }
  }

  lemma StableSplit<T(!new)>(less: (T, T) -> bool, s: seq<T>, sorted: seq<T>, front: seq<T>, back: seq<T>)
    requires StrictWeak(less) && sorted == Sort(less, s) && |front| <= |sorted|
    requires front == sorted[..|front|] && back == sorted[|front|..]
    ensures SameClasses(less, front + back, s)
  {
    SortIsStable(less, s);
    assert front + back == sorted;
  }

  lemma FirstOfClass<T(!new)>(less: (T, T) -> bool, s: seq<T>)
    requires StrictWeak(less) && |s| > 0
    ensures |Class(less, s[0], s)| > 0 && Class(less, s[0], s)[0] == s[0]
  {
    ClassOfMore(less, s[0], s[0], s[1..]);
    assert s == [s[0]] + s[1..];
  }

  /** The head of a sorted list is before no head of another one with the same tie classes. */
  lemma HeadIsLeast<T(!new)>(less: (T, T) -> bool, a: seq<T>, b: seq<T>)
    requires StrictWeak(less) && Sorted(less, b) && SameClasses(less, a, b) && |a| > 0
    ensures |b| > 0 && !less(a[0], b[0])
  {
    FirstOfClass(less, a);
    assert Class(less, a[0], a) == Class(less, a[0], b);
    FilterElements(Ties(less, a[0]), b, a[0]);
    assert a[0] in Class(less, a[0], b);
  }

  lemma SameHead<T(!new)>(less: (T, T) -> bool, a: seq<T>, b: seq<T>)
    requires StrictWeak(less) && Sorted(less, a) && Sorted(less, b) && SameClasses(less, a, b) && |a| > 0
    ensures |b| > 0 && a[0] == b[0]
  {
    HeadIsLeast(less, a, b);
    HeadIsLeast(less, b, a);
    FirstOfClass(less, a);
    assert Class(less, a[0], a) == Class(less, a[0], b);
    ClassOfMore(less, a[0], b[0], b[1..]);
    assert b == [b[0]] + b[1..];
  }

  /** Two sorted lists with the same tie classes are one list. */
  lemma {:induction false} SortedListIsDetermined<T(!new)>(less: (T, T) -> bool, a: seq<T>, b: seq<T>)
    requires StrictWeak(less) && Sorted(less, a) && Sorted(less, b) && SameClasses(less, a, b)
    ensures a == b
  {
    if |a| > 0 {
      SameHead(less, a, b);
      assert a == [a[0]] + a[1..] && b == [b[0]] + b[1..];
      forall t ensures Class(less, t, a[1..]) == Class(less, t, b[1..]) {
        ClassOfMore(less, t, a[0], a[1..]);
        ClassOfMore(less, t, b[0], b[1..]);
        assert Class(less, t, a) == Class(less, t, b);
        SameTail(if Ties(less, t)(a[0]) then [a[0]] else [], Class(less, t, a[1..]), Class(less, t, b[1..]));
      }
      SortedListIsDetermined(less, a[1..], b[1..]);
    } else if |b| > 0 {
      HeadIsLeast(less, b, a);
    }
  }

  lemma SameTail<T>(head: seq<T>, a: seq<T>, b: seq<T>)
    requires head + a == head + b
    ensures a == b
  {
    assert a == (head + a)[|head|..] && b == (head + b)[|head|..];
  }

  /** Two orders of arrival come out of a stable sort as one list exactly when every tie class
      arrives in one order. */
  lemma SortForgetsArrivalExactlyWhen<T(!new)>(less: (T, T) -> bool, a: seq<T>, b: seq<T>)
    requires StrictWeak(less)
    ensures Sort(less, a) == Sort(less, b) <==> SameClasses(less, a, b)
  {
    SortIsStable(less, a);
    SortIsStable(less, b);
    SortSorted(less, a);
    SortSorted(less, b);
    if SameClasses(less, a, b) {
      forall t ensures Class(less, t, Sort(less, a)) == Class(less, t, Sort(less, b)) {
        assert Class(less, t, a) == Class(less, t, b);
        assert Class(less, t, Sort(less, a)) == Class(less, t, a);
        assert Class(less, t, Sort(less, b)) == Class(less, t, b);
      }
      SortedListIsDetermined(less, Sort(less, a), Sort(less, b));
    } else {
      var t :| Class(less, t, a) != Class(less, t, b);
      assert Class(less, t, Sort(less, a)) == Class(less, t, a);
      assert Class(less, t, Sort(less, b)) == Class(less, t, b);
    }
  }
}
