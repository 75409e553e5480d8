/** Adding up contributions in any order. */
module Sums {
  import opened Ordering

  /** The order in which two of these items are added does not matter. */
  ghost predicate Swaps<T(!new)>(plus: (T, T) -> T, items: seq<T>) {
    forall a, i, j :: 0 <= i < |items| && 0 <= j < |items| ==>
      plus(plus(a, items[i]), items[j]) == plus(plus(a, items[j]), items[i])
  }

  ghost predicate Indices(order: seq<nat>, n: nat) {
    forall i :: 0 <= i < |order| ==> order[i] < n
  }

  /** `items` at the indices of `order`, added in that order. */
  ghost function SumAlong<T>(plus: (T, T) -> T, zero: T, items: seq<T>, order: seq<nat>): T
    requires Indices(order, |items|)
  {
    if |order| == 0 then zero
    else plus(SumAlong(plus, zero, items, order[..|order| - 1]), items[order[|order| - 1]])
  }

  /** The first `n` items at the indices in `chosen`, added in index order. */
  ghost function SumIn<T>(plus: (T, T) -> T, zero: T, items: seq<T>, chosen: set<nat>, n: nat): T
    requires n <= |items|
  {
    if n == 0 then zero
    else if n - 1 in chosen then plus(SumIn(plus, zero, items, chosen, n - 1), items[n - 1])
    else SumIn(plus, zero, items, chosen, n - 1)
  }

  ghost function Elements(order: seq<nat>): set<nat> {
    set k | k in order
  }

  lemma {:induction false} OneMore<T(!new)>(plus: (T, T) -> T, zero: T, items: seq<T>, chosen: set<nat>, k: nat, n: nat)
    requires Swaps(plus, items) && n <= |items| && k < |items| && k !in chosen
    ensures SumIn(plus, zero, items, chosen + {k}, n) ==
      if k < n then plus(SumIn(plus, zero, items, chosen, n), items[k]) else SumIn(plus, zero, items, chosen, n)
  {
    if n > 0 {
      OneMore(plus, zero, items, chosen, k, n - 1);
    }
  }

  lemma {:induction false} NothingChosen<T>(plus: (T, T) -> T, zero: T, items: seq<T>, n: nat)
    requires n <= |items|
    ensures SumIn(plus, zero, items, Elements([]), n) == zero
  {
    if n > 0 {
      NothingChosen(plus, zero, items, n - 1);
    }
  }

  lemma LastElement(order: seq<nat>, rest: seq<nat>, last: nat)
    requires Distinct(order) && |order| > 0 && rest == order[..|order| - 1] && last == order[|order| - 1]
    ensures Elements(order) == Elements(rest) + {last} && last !in Elements(rest) && Distinct(rest)
  {
    assert order == rest + [last];
  }

  lemma {:induction false} SumAlongIsSumIn<T(!new)>(plus: (T, T) -> T, zero: T, items: seq<T>, order: seq<nat>)
    requires Swaps(plus, items) && Indices(order, |items|) && Distinct(order)
    ensures SumAlong(plus, zero, items, order) == SumIn(plus, zero, items, Elements(order), |items|)
  {
    if |order| == 0 {
      assert order == [];
      NothingChosen(plus, zero, items, |items|);
    } else {
      var last, rest := order[|order| - 1], order[..|order| - 1];
      LastElement(order, rest, last);
      SumAlongIsSumIn(plus, zero, items, rest);
      OneMore(plus, zero, items, Elements(rest), last, |items|);
    }
  }

  /** The same indices in any order give the same sum. */
  lemma SumForgetsOrder<T(!new)>(plus: (T, T) -> T, zero: T, items: seq<T>, a: seq<nat>, b: seq<nat>)
    requires Swaps(plus, items) && Indices(a, |items|) && Indices(b, |items|) && Distinct(a) && Distinct(b)
    requires Elements(a) == Elements(b)
    ensures SumAlong(plus, zero, items, a) == SumAlong(plus, zero, items, b)
  {
    SumAlongIsSumIn(plus, zero, items, a);
    SumAlongIsSumIn(plus, zero, items, b);
  }
}
