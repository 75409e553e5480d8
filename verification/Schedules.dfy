/** When the scheduler shows: for which batches two interleavings of `collect` return
  different results. */
module Schedules {
  import opened Collect
  import opened Models
  import opened Ordering
  import opened Sources
  import opened Stability
  import opened Sums

  /** The numbers from `a` up to `b`. */
  function Nats(a: nat, b: nat): (r: seq<nat>)
    requires a <= b
    ensures |r| == b - a && forall i :: 0 <= i < b - a ==> r[i] == a + i
  {
    seq(b - a, i requires 0 <= i < b - a => a + i)
  }

  lemma StepOn(sources: seq<string>, outcomes: seq<Outcome>, run: seq<State>, t: State)
    requires |sources| == |outcomes| && Behaviour(sources, outcomes, run) && Next(sources, outcomes, run[|run| - 1], t)
    ensures Behaviour(sources, outcomes, run + [t])
  {
    var more := run + [t];
    forall i | 0 <= i < |more| - 1 ensures Next(sources, outcomes, more[i], more[i + 1]) {
      if i < |run| - 1 {
        assert Next(sources, outcomes, run[i], run[i + 1]);
      }
    }
  }

  /** A run at whose end `launched` sources were started, those of `held` are still in flight,
      and the others finished in this order. */
  ghost predicate Stands(sources: seq<string>, outcomes: seq<Outcome>, run: seq<State>, launched: nat, held: set<nat>, finished: seq<nat>)
    requires |sources| == |outcomes|
  {
    && Behaviour(sources, outcomes, run)
    && run[|run| - 1].launched == launched && run[|run| - 1].inFlight == held && run[|run| - 1].finished == finished
  }

  lemma LaunchNext(sources: seq<string>, outcomes: seq<Outcome>, run: seq<State>, launched: nat, held: set<nat>, finished: seq<nat>)
    returns (more: seq<State>)
    requires |sources| == |outcomes| && Stands(sources, outcomes, run, launched, held, finished)
    requires launched < |sources| && |held| < FAN_OUT_CAP
    ensures Stands(sources, outcomes, more, launched + 1, held + {launched}, finished)
  {
    var s := run[|run| - 1];
    var t := s.(launched := s.launched + 1, inFlight := s.inFlight + {s.launched});
    assert Launch(|sources|, s, t);
    StepOn(sources, outcomes, run, t);
    more := run + [t];
  }

  lemma FinishOne(sources: seq<string>, outcomes: seq<Outcome>, run: seq<State>, launched: nat, held: set<nat>, finished: seq<nat>, k: nat)
    returns (more: seq<State>)
    requires |sources| == |outcomes| && Stands(sources, outcomes, run, launched, held, finished)
    requires k in held && k < |sources|
    ensures Stands(sources, outcomes, more, launched, held - {k}, finished + [k])
  {
    var s := run[|run| - 1];
    var t := s.(inFlight := s.inFlight - {k}, finished := s.finished + [k], acc := Absorb(s.acc, sources[k], outcomes[k]));
    assert Finish(sources, outcomes, k, s, t);
    StepOn(sources, outcomes, run, t);
    more := run + [t];
  }

  /** Launches and finishes one source after another, while at most one is held back. */
  lemma {:induction false} Serve(sources: seq<string>, outcomes: seq<Outcome>, run: seq<State>, launched: nat, held: set<nat>,
                                 finished: seq<nat>, to: nat) returns (more: seq<State>)
    requires |sources| == |outcomes| && Stands(sources, outcomes, run, launched, held, finished)
    requires launched <= to <= |sources| && |held| <= 1 && forall k :: k in held ==> k < launched
    ensures Stands(sources, outcomes, more, to, held, finished + Nats(launched, to))
    decreases |sources| - launched
  {
    if launched == to {
      assert finished + Nats(launched, to) == finished;
      more := run;
    } else {
      var started := LaunchNext(sources, outcomes, run, launched, held, finished);
      var served := FinishOne(sources, outcomes, started, launched + 1, held + {launched}, finished, launched);
      assert held + {launched} - {launched} == held;
      more := Serve(sources, outcomes, served, launched + 1, held, finished + [launched], to);
      assert finished + [launched] + Nats(launched + 1, to) == finished + Nats(launched, to);
    }
  }

  /** The order in which source `i` finishes only after those before `to`. */
  function Held(i: nat, to: nat, n: nat): seq<nat>
    requires i < to <= n
  {
    Nats(0, i) + Nats(i + 1, to) + [i] + Nats(to, n)
  }

  /** Such a run exists. */
  lemma HoldUntil(sources: seq<string>, outcomes: seq<Outcome>, i: nat, to: nat) returns (run: seq<State>)
    requires |sources| == |outcomes| && i < to <= |sources|
    ensures Stands(sources, outcomes, run, |sources|, {}, Held(i, to, |sources|))
  {
    run := [State(0, {}, [], EMPTY)];
    run := Serve(sources, outcomes, run, 0, {}, [], i);
    run := LaunchNext(sources, outcomes, run, i, {}, [] + Nats(0, i));
    run := Serve(sources, outcomes, run, i + 1, {} + {i}, [] + Nats(0, i), to);
    run := FinishOne(sources, outcomes, run, to, {} + {i}, [] + Nats(0, i) + Nats(i + 1, to), i);
    assert {} + {i} - {i} == {};
    run := Serve(sources, outcomes, run, to, {}, [] + Nats(0, i) + Nats(i + 1, to) + [i], |sources|);
    assert [] + Nats(0, i) == Nats(0, i);
  }

  /** What the batches of `order` bring, joined. */
  ghost function Joined(items: seq<seq<Mention>>, order: seq<nat>): seq<Mention>
    requires Indices(order, |items|)
  {
    SumAlong(Join, [], items, order)
  }

  lemma JoinedLast(items: seq<seq<Mention>>, order: seq<nat>, last: nat)
    requires Indices(order, |items|) && last < |items|
    ensures Indices(order + [last], |items|) && Joined(items, order + [last]) == Joined(items, order) + items[last]
  {
    assert (order + [last])[..|order|] == order;
  }

  lemma Associates<T>(a: seq<T>, b: seq<T>, c: seq<T>)
    ensures a + b + c == a + (b + c)
  {
  }

  lemma {:induction false} JoinedParts(items: seq<seq<Mention>>, a: seq<nat>, b: seq<nat>)
    requires Indices(a, |items|) && Indices(b, |items|)
    ensures Indices(a + b, |items|)
    ensures Joined(items, a + b) == Joined(items, a) + Joined(items, b)
  {
    if |b| == 0 {
      assert a + b == a;
      assert Joined(items, b) == [];
    } else {
      var rest, last := b[..|b| - 1], b[|b| - 1];
      assert b == rest + [last];
      JoinedParts(items, a, rest);
      JoinedLast(items, a + rest, last);
      JoinedLast(items, rest, last);
      Associates(a, rest, [last]);
      Associates(Joined(items, a), Joined(items, rest), items[last]);
    }
  }

  lemma JoinedOne(items: seq<seq<Mention>>, k: nat)
    requires k < |items|
    ensures Joined(items, [k]) == items[k]
  {
    assert [k] == [] + [k];
    JoinedLast(items, [], k);
    assert Joined(items, []) == [];
  }

  lemma JoinedPair(items: seq<seq<Mention>>, first: nat, second: nat)
    requires first < |items| && second < |items|
    ensures Joined(items, [first, second]) == items[first] + items[second]
  {
    JoinedOne(items, first);
    JoinedLast(items, [first], second);
    assert [first, second] == [first] + [second];
  }

  /** `order` is `head`, then these two, then `tail`. */
  ghost predicate SplitAs(order: seq<nat>, head: seq<nat>, first: nat, second: nat, tail: seq<nat>) {
    order == head + ([first, second] + tail)
  }

  lemma HeldOrder(i: nat, j: nat, n: nat)
    requires i < j < n
    ensures SplitAs(Held(i, j, n), Nats(0, i) + Nats(i + 1, j), i, j, Nats(j + 1, n))
    ensures SplitAs(Held(i, j + 1, n), Nats(0, i) + Nats(i + 1, j), j, i, Nats(j + 1, n))
  {
    assert Nats(i + 1, j) + [j] == Nats(i + 1, j + 1);
    assert [j] + Nats(j + 1, n) == Nats(j, n);
  }

  lemma JoinedSplit(items: seq<seq<Mention>>, order: seq<nat>, head: seq<nat>, first: nat, second: nat, tail: seq<nat>)
    requires SplitAs(order, head, first, second, tail) && Indices(order, |items|)
    requires Indices(head, |items|) && Indices(tail, |items|) && first < |items| && second < |items|
    ensures Joined(items, order) == Joined(items, head) + (items[first] + items[second] + Joined(items, tail))
  {
    JoinedPair(items, first, second);
    JoinedParts(items, [first, second], tail);
    JoinedParts(items, head, [first, second] + tail);
  }

  lemma SameMiddle<T>(head: seq<T>, a: seq<T>, b: seq<T>, tail: seq<T>)
    requires head + (a + tail) == head + (b + tail)
    ensures a == b
  {
    SameTail(head, a + tail, b + tail);
    assert |a| == |b|;
    assert a == (a + tail)[..|a|] && b == (b + tail)[..|b|];
  }

  /** If an order and the one with two neighbours swapped join up alike, the two commute. */
  lemma SwappedCommute(items: seq<seq<Mention>>, one: seq<nat>, two: seq<nat>, head: seq<nat>, i: nat, j: nat, tail: seq<nat>)
    requires SplitAs(one, head, i, j, tail) && SplitAs(two, head, j, i, tail)
    requires JoinAlike(items, one, two)
    requires Indices(head, |items|) && Indices(tail, |items|) && i < |items| && j < |items|
    ensures Commute(items[i], items[j])
  {
    JoinedSplit(items, one, head, i, j, tail);
    JoinedSplit(items, two, head, j, i, tail);
    SameMiddle(Joined(items, head), items[i] + items[j], items[j] + items[i], Joined(items, tail));
  }

  /** Every complete run returns what the sequential one does. */
  ghost predicate SchedulerIsInvisible(sources: seq<string>, outcomes: seq<Outcome>)
    requires |sources| == |outcomes|
  {
    forall run: seq<State> :: Behaviour(sources, outcomes, run) && Done(|sources|, run[|run| - 1]) ==>
      Result(run[|run| - 1].acc) == Result(Sequential(sources, outcomes))
  }

  /** The critical sections in this order make a list that sorts to `reference`. */
  ghost predicate SortsTo(sources: seq<string>, outcomes: seq<Outcome>, order: seq<nat>, reference: seq<Mention>)
    requires |sources| == |outcomes|
  {
    Indices(order, |sources|) && Sort(MentionBefore, Fold(sources, outcomes, order).mentions) == reference
  }

  /** Every complete run returns these mentions. */
  ghost predicate AlwaysReturns(sources: seq<string>, outcomes: seq<Outcome>, reference: seq<Mention>)
    requires |sources| == |outcomes|
  {
    forall run: seq<State> :: Behaviour(sources, outcomes, run) && Done(|sources|, run[|run| - 1]) ==>
      Sort(MentionBefore, run[|run| - 1].acc.mentions) == reference
  }

  /** Then the order `Held(i, to, n)` sorts to them as well. */
  lemma HeldSortsTo(sources: seq<string>, outcomes: seq<Outcome>, reference: seq<Mention>, i: nat, to: nat)
    requires |sources| == |outcomes| && AlwaysReturns(sources, outcomes, reference) && i < to <= |outcomes|
    ensures SortsTo(sources, outcomes, Held(i, to, |outcomes|), reference)
  {
    var run := HoldUntil(sources, outcomes, i, to);
    EveryStateIsSound(sources, outcomes, run, |run| - 1);
    assert Sort(MentionBefore, run[|run| - 1].acc.mentions) == reference;
  }

  ghost predicate JoinAlike(items: seq<seq<Mention>>, a: seq<nat>, b: seq<nat>) {
    Indices(a, |items|) && Indices(b, |items|) && Joined(items, a) == Joined(items, b)
  }

  lemma SortedAlikeTieAlike(sources: seq<string>, outcomes: seq<Outcome>, a: seq<nat>, b: seq<nat>, reference: seq<Mention>, t: Mention)
    requires |sources| == |outcomes| && SortsTo(sources, outcomes, a, reference) && SortsTo(sources, outcomes, b, reference)
    ensures JoinAlike(TiedInEach(outcomes, t), a, b)
  {
    ResultOrders();
    SortForgetsArrivalExactlyWhen(MentionBefore, Fold(sources, outcomes, a).mentions, Fold(sources, outcomes, b).mentions);
    TiedArrivals(sources, outcomes, a, t);
    TiedArrivals(sources, outcomes, b, t);
  }

  /** Of the orders with `i` held back, two differ only in the places of `i` and `j`. */
  lemma HeldPair(good: seq<nat> -> bool, i: nat, j: nat, n: nat) returns (one: seq<nat>, two: seq<nat>, head: seq<nat>, tail: seq<nat>)
    requires i < j < n && forall to: nat :: i < to <= n ==> good(Held(i, to, n))
    ensures good(one) && good(two) && Indices(head, n) && Indices(tail, n)
    ensures SplitAs(one, head, i, j, tail) && SplitAs(two, head, j, i, tail)
  {
    one, two, head, tail := Held(i, j, n), Held(i, j + 1, n), Nats(0, i) + Nats(i + 1, j), Nats(j + 1, n);
    HeldOrder(i, j, n);
  }

  lemma PairCommutes(sources: seq<string>, outcomes: seq<Outcome>, reference: seq<Mention>, t: Mention, i: nat, j: nat,
                     one: seq<nat>, two: seq<nat>, head: seq<nat>, tail: seq<nat>)
    requires |sources| == |outcomes| && SortsTo(sources, outcomes, one, reference) && SortsTo(sources, outcomes, two, reference)
    requires SplitAs(one, head, i, j, tail) && SplitAs(two, head, j, i, tail)
    requires i < |outcomes| && j < |outcomes| && Indices(head, |outcomes|) && Indices(tail, |outcomes|)
    ensures Commute(TiedIn(outcomes[i], t), TiedIn(outcomes[j], t))
  {
    SortedAlikeTieAlike(sources, outcomes, one, two, reference, t);
    SwappedCommute(TiedInEach(outcomes, t), one, two, head, i, j, tail);
  }

  lemma OneResultMeansCommuting(sources: seq<string>, outcomes: seq<Outcome>, reference: seq<Mention>, t: Mention, i: nat, j: nat)
    requires |sources| == |outcomes| && AlwaysReturns(sources, outcomes, reference) && i < j < |outcomes|
    ensures Commute(TiedIn(outcomes[i], t), TiedIn(outcomes[j], t))
  {
    var good := order => SortsTo(sources, outcomes, order, reference);
    forall to: nat | i < to <= |outcomes| ensures good(Held(i, to, |outcomes|)) {
      HeldSortsTo(sources, outcomes, reference, i, to);
    }
    var one, two, head, tail := HeldPair(good, i, j, |outcomes|);
    PairCommutes(sources, outcomes, reference, t, i, j, one, two, head, tail);
  }

  lemma OneResultMeansTiesCommute(sources: seq<string>, outcomes: seq<Outcome>, reference: seq<Mention>)
    requires |sources| == |outcomes| && AlwaysReturns(sources, outcomes, reference)
    ensures TiesCommute(outcomes)
  {
    forall t, i, j | 0 <= i < |outcomes| && 0 <= j < |outcomes|
      ensures Commute(TiedIn(outcomes[i], t), TiedIn(outcomes[j], t))
    {
      if i < j {
        OneResultMeansCommuting(sources, outcomes, reference, t, i, j);
      } else if j < i {
        OneResultMeansCommuting(sources, outcomes, reference, t, j, i);
      }
    }
  }

  lemma InvisibleReturnsOne(sources: seq<string>, outcomes: seq<Outcome>) returns (reference: seq<Mention>)
    requires |sources| == |outcomes| && SchedulerIsInvisible(sources, outcomes)
    ensures AlwaysReturns(sources, outcomes, reference)
  {
    reference := Result(Sequential(sources, outcomes)).mentions;
    forall run: seq<State> | Behaviour(sources, outcomes, run) && Done(|sources|, run[|run| - 1])
      ensures Sort(MentionBefore, run[|run| - 1].acc.mentions) == reference
    {
      assert Result(run[|run| - 1].acc) == Result(Sequential(sources, outcomes));
    }
  }

  /** Exactly when a run of the collection step does not depend on its scheduler: when for
      every posting time and id, what any two batches bring of it reads the same in either
      order. Two different mentions that share both, from two sources, are enough to break it. */
  lemma SchedulerIsInvisibleExactlyWhen(sources: seq<string>, outcomes: seq<Outcome>)
    requires |sources| == |outcomes| && Distinct(sources)
    ensures SchedulerIsInvisible(sources, outcomes) <==> TiesCommute(outcomes)
  {
    if TiesCommute(outcomes) {
      forall run: seq<State> | Behaviour(sources, outcomes, run) && Done(|sources|, run[|run| - 1])
        ensures Result(run[|run| - 1].acc) == Result(Sequential(sources, outcomes))
      {
        EveryRunIsSequential(sources, outcomes, run);
      }
    }
    if SchedulerIsInvisible(sources, outcomes) {
      var reference := InvisibleReturnsOne(sources, outcomes);
      OneResultMeansTiesCommute(sources, outcomes, reference);
    }
  }
}
