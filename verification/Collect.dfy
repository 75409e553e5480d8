/** The parallel collection step: `collect` of `agents/bp-orchestrator/pipeline.go`.

  Each goroutine is a launch, which waits for one of eight slots, and one critical section
  under the mutex. Any interleaving of those steps is a run. */
module Collect {
  import L = Lists
  import opened Models
  import opened Ordering
  import opened Sources
  import opened Stability
  import opened Sums

  /** What bp-collector's call came back with. */
  datatype Outcome =
    | TransportError(message: string)
    | Batch(mentions: seq<Mention>, credits: nat, errors: seq<string>, truncated: bool)

  datatype SourceRun = SourceRun(source: string, mentions: nat, credits: nat)

  /** The accumulators the goroutines share. */
  datatype Acc = Acc(mentions: seq<Mention>, perSource: seq<SourceRun>, failed: nat, credits: nat, errors: seq<string>)

  const EMPTY: Acc := Acc([], [], 0, 0, [])

  function Report(source: string, message: string): string {
    "bp-collector(" + source + "): " + message
  }

  function Reports(source: string, errors: seq<string>): (out: seq<string>)
    ensures |out| == |errors|
  {
    seq(|errors|, i requires 0 <= i < |errors| => Report(source, errors[i]))
  }

  /** A source is dead when its call failed, or reported errors and brought nothing. */
  predicate Dead(o: Outcome) {
    o.TransportError? || (|o.errors| > 0 && |o.mentions| == 0)
  }

  const CEILING_NOTE := "stopped at the credit ceiling"

  function Complaints(source: string, errors: seq<string>, truncated: bool): seq<string> {
    Reports(source, errors) + (if truncated then [Report(source, CEILING_NOTE)] else [])
  }

  /** The critical section of the goroutine for `source`. */
  function Absorb(acc: Acc, source: string, o: Outcome): Acc {
    match o
    case TransportError(message) =>
      acc.(failed := acc.failed + 1, errors := acc.errors + [Report(source, message)])
    case Batch(mentions, credits, errors, truncated) =>
      Acc(acc.mentions + mentions,
          acc.perSource + [SourceRun(source, |mentions|, credits)],
          acc.failed + (if Dead(o) then 1 else 0),
          acc.credits + credits,
          acc.errors + Complaints(source, errors, truncated))
  }

  // ---------------------------------------------------------------- the step system

  datatype State = State(launched: nat, inFlight: set<nat>, finished: seq<nat>, acc: Acc)

  ghost predicate Init(s: State) {
    s == State(0, {}, [], EMPTY)
  }

  /** The loop starts the next source's goroutine once a slot is free. */
  ghost predicate Launch(n: nat, s: State, t: State) {
    && s.launched < n && |s.inFlight| < FAN_OUT_CAP
    && t == s.(launched := s.launched + 1, inFlight := s.inFlight + {s.launched})
  }

  /** One goroutine's call has returned and it holds the mutex. */
  ghost predicate Finish(sources: seq<string>, outcomes: seq<Outcome>, k: nat, s: State, t: State)
    requires |sources| == |outcomes|
  {
    && k in s.inFlight && k < |sources|
    && t == s.(inFlight := s.inFlight - {k}, finished := s.finished + [k], acc := Absorb(s.acc, sources[k], outcomes[k]))
  }

  ghost predicate Next(sources: seq<string>, outcomes: seq<Outcome>, s: State, t: State)
    requires |sources| == |outcomes|
  {
    Launch(|sources|, s, t) || exists k: nat :: Finish(sources, outcomes, k, s, t)
  }

  ghost predicate Behaviour(sources: seq<string>, outcomes: seq<Outcome>, run: seq<State>)
    requires |sources| == |outcomes|
  {
    && |run| > 0 && Init(run[0])
    && forall i :: 0 <= i < |run| - 1 ==> Next(sources, outcomes, run[i], run[i + 1])
  }

  /** Wait has returned. */
  predicate Done(n: nat, s: State) {
    s.launched == n && s.inFlight == {}
  }

  /** The accumulators after the critical sections of `order`. */
  ghost function Fold(sources: seq<string>, outcomes: seq<Outcome>, order: seq<nat>): Acc
    requires |sources| == |outcomes| && Indices(order, |sources|)
  {
    if |order| == 0 then EMPTY
    else
      var last := order[|order| - 1];
      Absorb(Fold(sources, outcomes, order[..|order| - 1]), sources[last], outcomes[last])
  }

  ghost predicate Invariant(sources: seq<string>, outcomes: seq<Outcome>, s: State)
    requires |sources| == |outcomes|
  {
    && s.launched <= |sources|
    && |s.inFlight| <= FAN_OUT_CAP
    && Distinct(s.finished) && Indices(s.finished, |sources|)
    && (forall k: nat :: k in s.inFlight ==> k !in s.finished)
    && (forall k: nat :: k < s.launched <==> k in s.inFlight || k in s.finished)
    && s.acc == Fold(sources, outcomes, s.finished)
  }

  lemma StepKeepsInvariant(sources: seq<string>, outcomes: seq<Outcome>, s: State, t: State)
    requires |sources| == |outcomes| && Invariant(sources, outcomes, s) && Next(sources, outcomes, s, t)
    ensures Invariant(sources, outcomes, t)
  {
    if !Launch(|sources|, s, t) {
      var k: nat :| Finish(sources, outcomes, k, s, t);
      FinishKeepsInvariant(sources, outcomes, k, s, t);
    }
  }

  lemma FinishKeepsInvariant(sources: seq<string>, outcomes: seq<Outcome>, k: nat, s: State, t: State)
    requires |sources| == |outcomes| && Invariant(sources, outcomes, s) && Finish(sources, outcomes, k, s, t)
    ensures Invariant(sources, outcomes, t)
  {
    assert t.finished[..|s.finished|] == s.finished;
    assert |t.inFlight| == |s.inFlight| - 1;
    forall l: nat ensures l in t.finished <==> l in s.finished || l == k {
      assert t.finished[|s.finished|] == k;
    }
  }

  /** Every source is started once, never more than eight calls are open, and the shared
      accumulators are those of the finished goroutines in the order they finished. */
  lemma {:induction false} EveryStateIsSound(sources: seq<string>, outcomes: seq<Outcome>, run: seq<State>, i: nat)
    requires |sources| == |outcomes| && Behaviour(sources, outcomes, run) && i < |run|
    ensures Invariant(sources, outcomes, run[i])
  {
    if i > 0 {
      EveryStateIsSound(sources, outcomes, run, i - 1);
      StepKeepsInvariant(sources, outcomes, run[i - 1], run[i]);
    }
  }

  /** No run is stuck before every source has finished. */
  lemma NeverStuck(sources: seq<string>, outcomes: seq<Outcome>, s: State) returns (t: State)
    requires |sources| == |outcomes| && Invariant(sources, outcomes, s) && !Done(|sources|, s)
    ensures Next(sources, outcomes, s, t)
  {
    if s.inFlight != {} {
      var k: nat :| k in s.inFlight;
      t := s.(inFlight := s.inFlight - {k}, finished := s.finished + [k], acc := Absorb(s.acc, sources[k], outcomes[k]));
      assert Finish(sources, outcomes, k, s, t);
    } else {
      t := s.(launched := s.launched + 1, inFlight := s.inFlight + {s.launched});
    }
  }

  // ---------------------------------------------------------------- order does not matter

  /** What the accumulators hold, without the order in which it came. */
  datatype Totals = Totals(mentions: multiset<Mention>, perSource: multiset<SourceRun>, failed: nat, credits: nat, errors: multiset<string>)

  function TotalsOf(acc: Acc): Totals {
    Totals(multiset(acc.mentions), multiset(acc.perSource), acc.failed, acc.credits, multiset(acc.errors))
  }

  function Plus(a: Totals, b: Totals): Totals {
    Totals(a.mentions + b.mentions, a.perSource + b.perSource, a.failed + b.failed, a.credits + b.credits, a.errors + b.errors)
  }

  lemma PlusSwaps(items: seq<Totals>)
    ensures Swaps(Plus, items)
  {
    forall a: Totals, b: Totals, c: Totals ensures Plus(Plus(a, b), c) == Plus(Plus(a, c), b) {
      assert a.mentions + b.mentions + c.mentions == a.mentions + c.mentions + b.mentions;
      assert a.perSource + b.perSource + c.perSource == a.perSource + c.perSource + b.perSource;
      assert a.errors + b.errors + c.errors == a.errors + c.errors + b.errors;
    }
  }

  /** What one goroutine adds. */
  function Contribution(source: string, o: Outcome): Totals {
    match o
    case TransportError(message) => Totals(multiset{}, multiset{}, 1, 0, multiset{Report(source, message)})
    case Batch(mentions, credits, errors, truncated) =>
      Totals(multiset(mentions), multiset{SourceRun(source, |mentions|, credits)}, if Dead(o) then 1 else 0, credits,
             multiset(Complaints(source, errors, truncated)))
  }

  lemma AbsorbAdds(acc: Acc, source: string, o: Outcome)
    ensures TotalsOf(Absorb(acc, source, o)) == Plus(TotalsOf(acc), Contribution(source, o))
  {
    match o
    case TransportError(message) =>
      MultisetOfAppend(acc.errors, [Report(source, message)]);
      assert multiset(acc.mentions) + multiset{} == multiset(acc.mentions);
      assert multiset(acc.perSource) + multiset{} == multiset(acc.perSource);
    case Batch(mentions, credits, errors, truncated) =>
      AbsorbBatchAdds(acc, source, o);
  }

  lemma AbsorbBatchAdds(acc: Acc, source: string, o: Outcome)
    requires o.Batch?
    ensures TotalsOf(Absorb(acc, source, o)) == Plus(TotalsOf(acc), Contribution(source, o))
  {
    MultisetOfAppend(acc.mentions, o.mentions);
    MultisetOfAppend(acc.perSource, [SourceRun(source, |o.mentions|, o.credits)]);
    MultisetOfAppend(acc.errors, Complaints(source, o.errors, o.truncated));
  }

  lemma MultisetOfAppend<T>(a: seq<T>, b: seq<T>)
    ensures multiset(a + b) == multiset(a) + multiset(b)
  {
  }

  ghost function Contributions(sources: seq<string>, outcomes: seq<Outcome>): (items: seq<Totals>)
    requires |sources| == |outcomes|
    ensures |items| == |sources|
  {
    seq(|sources|, k requires 0 <= k < |sources| => Contribution(sources[k], outcomes[k]))
  }

  lemma {:induction false} FoldAddsUp(sources: seq<string>, outcomes: seq<Outcome>, order: seq<nat>)
    requires |sources| == |outcomes| && Indices(order, |sources|)
    ensures TotalsOf(Fold(sources, outcomes, order)) ==
      SumAlong(Plus, TotalsOf(EMPTY), Contributions(sources, outcomes), order)
  {
    if |order| > 0 {
      var last, rest := order[|order| - 1], order[..|order| - 1];
      FoldAddsUp(sources, outcomes, rest);
      AbsorbAdds(Fold(sources, outcomes, rest), sources[last], outcomes[last]);
    }
  }

  // ---------------------------------------------------------------- the result

  /** Posting time, then id. */
  predicate MentionBefore(a: Mention, b: Mention) {
    a.postedAt < b.postedAt || (a.postedAt == b.postedAt && StringLess(a.id, b.id))
  }

  predicate SourceBefore(a: SourceRun, b: SourceRun) { StringLess(a.source, b.source) }

  /** What `collect` returns and the run records, after its sorts. */
  function Result(acc: Acc): Acc {
    acc.(mentions := Sort(MentionBefore, acc.mentions),
         perSource := Sort(SourceBefore, acc.perSource),
         errors := Sort(StringLess, acc.errors))
  }

  lemma ResultOrders()
    ensures StrictWeak(MentionBefore) && StrictWeak(SourceBefore)
  {
    StringOrder();
  }

  function MentionsOf(o: Outcome): seq<Mention> {
    if o.Batch? then o.mentions else []
  }

  /** What of one batch shares time and id with `t`, in the batch's order. */
  function TiedIn(o: Outcome, t: Mention): seq<Mention> { Class(MentionBefore, t, MentionsOf(o)) }

  predicate Commute<T(==)>(x: seq<T>, y: seq<T>) { x + y == y + x }

  /** Of no time and id do two batches bring mentions whose order shows. */
  ghost predicate TiesCommute(outcomes: seq<Outcome>) {
    forall t, i, j :: 0 <= i < |outcomes| && 0 <= j < |outcomes| ==> Commute(TiedIn(outcomes[i], t), TiedIn(outcomes[j], t))
  }

  predicate SameSlot(a: Mention, b: Mention) { a.postedAt == b.postedAt && a.id == b.id }

  /** Different mentions of different batches never share both time and id. */
  ghost predicate UniqueMentions(outcomes: seq<Outcome>) {
    forall i, j :: 0 <= i < |outcomes| && 0 <= j < |outcomes| && i != j ==>
      forall a, b :: a in MentionsOf(outcomes[i]) && b in MentionsOf(outcomes[j]) && SameSlot(a, b) ==> a == b
  }

  lemma TiedShareSlot(a: Mention, b: Mention)
    requires Ties(MentionBefore, b)(a)
    ensures SameSlot(a, b)
  {
    assert !MentionBefore(a, b) && !MentionBefore(b, a);
    StringLessTotal(a.id, b.id);
  }

  lemma UniqueMentionsCommute(outcomes: seq<Outcome>)
    requires UniqueMentions(outcomes)
    ensures TiesCommute(outcomes)
  {
    forall t, i, j | 0 <= i < |outcomes| && 0 <= j < |outcomes|
      ensures Commute(TiedIn(outcomes[i], t), TiedIn(outcomes[j], t))
    {
      if i != j {
        var x, y := TiedIn(outcomes[i], t), TiedIn(outcomes[j], t);
        forall k, l | 0 <= k < |x| && 0 <= l < |y| ensures x[k] == y[l] {
          L.FilterElements(Ties(MentionBefore, t), MentionsOf(outcomes[i]), x[k]);
          L.FilterElements(Ties(MentionBefore, t), MentionsOf(outcomes[j]), y[l]);
          TiedShareSlot(x[k], t);
          TiedShareSlot(y[l], t);
        }
        OneElementCommutes(x, y);
      }
    }
  }

  lemma OneElementCommutes<T>(x: seq<T>, y: seq<T>)
    requires forall k, l :: 0 <= k < |x| && 0 <= l < |y| ==> x[k] == y[l]
    ensures Commute(x, y)
  {
    if |x| > 0 && |y| > 0 {
      assert forall k :: 0 <= k < |x| ==> x[k] == y[0];
      assert forall l :: 0 <= l < |y| ==> y[l] == x[0];
    } else {
      assert x + y == if |x| == 0 then y else x;
      assert y + x == if |x| == 0 then y else x;
    }
  }

  ghost predicate RunOf(sources: seq<string>, outcomes: seq<Outcome>, k: nat, r: SourceRun)
    requires |sources| == |outcomes|
  {
    k < |sources| && outcomes[k].Batch? && r == SourceRun(sources[k], |outcomes[k].mentions|, outcomes[k].credits)
  }

  lemma {:induction false} RunsComeFromSources(sources: seq<string>, outcomes: seq<Outcome>, order: seq<nat>, r: SourceRun) returns (k: nat)
    requires |sources| == |outcomes| && Indices(order, |sources|) && r in Fold(sources, outcomes, order).perSource
    ensures RunOf(sources, outcomes, k, r)
  {
    var last, rest := order[|order| - 1], order[..|order| - 1];
    if r in Fold(sources, outcomes, rest).perSource {
      k := RunsComeFromSources(sources, outcomes, rest, r);
    } else {
      k := last;
    }
  }

  lemma SourcesDoNotTie(sources: seq<string>, outcomes: seq<Outcome>, order: seq<nat>)
    requires |sources| == |outcomes| && Distinct(sources) && Indices(order, |sources|)
    ensures TieFree(SourceBefore, Fold(sources, outcomes, order).perSource)
  {
    StringOrder();
    var acc := Fold(sources, outcomes, order);
    forall a, b | a in acc.perSource && b in acc.perSource && !SourceBefore(a, b) && !SourceBefore(b, a) ensures a == b {
      var i := RunsComeFromSources(sources, outcomes, order, a);
      var j := RunsComeFromSources(sources, outcomes, order, b);
      assert sources[i] == sources[j];
    }
  }

  // ---------------------------------------------------------------- the order within a tie

  function Join(a: seq<Mention>, b: seq<Mention>): seq<Mention> { a + b }

  function TiedInEach(outcomes: seq<Outcome>, t: Mention): (items: seq<seq<Mention>>)
    ensures |items| == |outcomes|
  {
    seq(|outcomes|, k requires 0 <= k < |outcomes| => TiedIn(outcomes[k], t))
  }

  /** What ties with `t` arrives batch by batch in the order of the critical sections. */
  lemma {:induction false} TiedArrivals(sources: seq<string>, outcomes: seq<Outcome>, order: seq<nat>, t: Mention)
    requires |sources| == |outcomes| && Indices(order, |sources|)
    ensures Class(MentionBefore, t, Fold(sources, outcomes, order).mentions) == SumAlong(Join, [], TiedInEach(outcomes, t), order)
  {
    if |order| > 0 {
      var last, rest := order[|order| - 1], order[..|order| - 1];
      TiedArrivals(sources, outcomes, rest, t);
      var before := Fold(sources, outcomes, rest).mentions;
      assert before + [] == before;
      assert Fold(sources, outcomes, order).mentions == before + MentionsOf(outcomes[last]);
      L.FilterAppend(Ties(MentionBefore, t), before, MentionsOf(outcomes[last]));
    }
  }

  lemma JoinSwaps(a: seq<Mention>, x: seq<Mention>, y: seq<Mention>)
    requires Commute(x, y)
    ensures Join(Join(a, x), y) == Join(Join(a, y), x)
  {
    assert a + x + y == a + (x + y);
    assert a + y + x == a + (y + x);
  }

  lemma TiedSwaps(outcomes: seq<Outcome>, t: Mention)
    requires TiesCommute(outcomes)
    ensures Swaps(Join, TiedInEach(outcomes, t))
  {
    var items := TiedInEach(outcomes, t);
    forall a, i, j | 0 <= i < |items| && 0 <= j < |items| ensures Join(Join(a, items[i]), items[j]) == Join(Join(a, items[j]), items[i]) {
      assert Commute(TiedIn(outcomes[i], t), TiedIn(outcomes[j], t));
      JoinSwaps(a, items[i], items[j]);
    }
  }

  lemma TiesArriveAlike(sources: seq<string>, outcomes: seq<Outcome>, a: seq<nat>, b: seq<nat>)
    requires |sources| == |outcomes| && TiesCommute(outcomes)
    requires Indices(a, |sources|) && Indices(b, |sources|) && Distinct(a) && Distinct(b) && Elements(a) == Elements(b)
    ensures SameClasses(MentionBefore, Fold(sources, outcomes, a).mentions, Fold(sources, outcomes, b).mentions)
  {
    forall t ensures Class(MentionBefore, t, Fold(sources, outcomes, a).mentions) == Class(MentionBefore, t, Fold(sources, outcomes, b).mentions) {
      TiedArrivals(sources, outcomes, a, t);
      TiedArrivals(sources, outcomes, b, t);
      TiedSwaps(outcomes, t);
      SumForgetsOrder(Join, [], TiedInEach(outcomes, t), a, b);
    }
  }

  function InOrder(n: nat): (order: seq<nat>)
    ensures Indices(order, n)
  {
    seq(n, i => i)
  }

  /** The same calls made one after another, in the order of the sources. */
  ghost function Sequential(sources: seq<string>, outcomes: seq<Outcome>): Acc
    requires |sources| == |outcomes|
  {
    Fold(sources, outcomes, InOrder(|sources|))
  }

  lemma FinishedAll(sources: seq<string>, outcomes: seq<Outcome>, s: State)
    requires |sources| == |outcomes| && Invariant(sources, outcomes, s) && Done(|sources|, s)
    ensures Elements(s.finished) == Elements(InOrder(|sources|))
    ensures forall k: nat :: k < |sources| ==> k in s.finished
  {
    forall k: nat ensures k in Elements(s.finished) <==> k in Elements(InOrder(|sources|)) {
      assert k < s.launched <==> k in s.finished;
      if k < |sources| {
        assert InOrder(|sources|)[k] == k;
      }
    }
  }

  lemma SequentialTotals(sources: seq<string>, outcomes: seq<Outcome>, s: State)
    requires |sources| == |outcomes| && Invariant(sources, outcomes, s) && Done(|sources|, s)
    ensures TotalsOf(s.acc) == TotalsOf(Sequential(sources, outcomes))
  {
    FinishedAll(sources, outcomes, s);
    PlusSwaps(Contributions(sources, outcomes));
    FoldAddsUp(sources, outcomes, s.finished);
    FoldAddsUp(sources, outcomes, InOrder(|sources|));
    SumForgetsOrder(Plus, TotalsOf(EMPTY), Contributions(sources, outcomes), s.finished, InOrder(|sources|));
  }

  /** Every complete run returns what the sequential one returns: the same sorted mentions,
      per-source list, failure count, credits and sorted errors, whatever the order in which
      the goroutines finished. Mentions of one batch may tie as they like. */
  lemma EveryRunIsSequential(sources: seq<string>, outcomes: seq<Outcome>, run: seq<State>)
    requires |sources| == |outcomes| && Distinct(sources) && TiesCommute(outcomes)
    requires Behaviour(sources, outcomes, run) && Done(|sources|, run[|run| - 1])
    ensures Result(run[|run| - 1].acc) == Result(Sequential(sources, outcomes))
  {
    EveryStateIsSound(sources, outcomes, run, |run| - 1);
    var acc, reference := run[|run| - 1].acc, Sequential(sources, outcomes);
    SequentialTotals(sources, outcomes, run[|run| - 1]);
    SourcesDoNotTie(sources, outcomes, run[|run| - 1].finished);
    FinishedAll(sources, outcomes, run[|run| - 1]);
    TiesArriveAlike(sources, outcomes, run[|run| - 1].finished, InOrder(|sources|));
    ResultOrders();
    StringOrder();
    SortForgetsArrivalExactlyWhen(MentionBefore, acc.mentions, reference.mentions);
    SortOfPermutation(SourceBefore, acc.perSource, reference.perSource);
    SortOfPermutation(StringLess, acc.errors, reference.errors);
  }

  /** Without that premise the order shows: two different mentions with one time and one id
      come out in the order in which their goroutines finished. */
  lemma TiesFollowTheScheduler(s: string, t: string, a: Mention, b: Mention) returns (first: seq<State>, second: seq<State>)
    requires a != b && a.postedAt == b.postedAt && a.id == b.id
    ensures var sources, outcomes := [s, t], [Single(a), Single(b)];
      && Behaviour(sources, outcomes, first) && Done(2, first[|first| - 1])
      && Behaviour(sources, outcomes, second) && Done(2, second[|second| - 1])
      && Result(first[|first| - 1].acc).mentions == [a, b] && Result(second[|second| - 1].acc).mentions == [b, a]
  {
    first := TwoSources([s, t], [Single(a), Single(b)], 0, a, b);
    second := TwoSources([s, t], [Single(a), Single(b)], 1, b, a);
    TiedPairStays(a, b);
    TiedPairStays(b, a);
  }

  function Single(m: Mention): Outcome { Batch([m], 0, [], false) }

  /** Both sources in flight, and source `k` the first to finish. */
  lemma TwoLaunches(s0: State, s1: State, s2: State)
    requires s0 == State(0, {}, [], EMPTY) && s1 == State(1, {0}, [], EMPTY) && s2 == State(2, {0, 1}, [], EMPTY)
    ensures Launch(2, s0, s1) && Launch(2, s1, s2)
  {
  }

  lemma TwoFinishes(sources: seq<string>, outcomes: seq<Outcome>, k: nat, x: Mention, y: Mention, s2: State) returns (s3: State, s4: State)
    requires |sources| == 2 && |outcomes| == 2 && k < 2 && outcomes[k] == Single(x) && outcomes[1 - k] == Single(y)
    requires s2 == State(2, {0, 1}, [], EMPTY)
    ensures Finish(sources, outcomes, k, s2, s3) && Finish(sources, outcomes, 1 - k, s3, s4)
    ensures Done(2, s4) && s4.acc.mentions == [x, y]
  {
    s3 := s2.(inFlight := s2.inFlight - {k}, finished := [k], acc := Absorb(EMPTY, sources[k], outcomes[k]));
    s4 := s3.(inFlight := s3.inFlight - {1 - k}, finished := [k, 1 - k], acc := Absorb(s3.acc, sources[1 - k], outcomes[1 - k]));
  }

  lemma TwoSources(sources: seq<string>, outcomes: seq<Outcome>, k: nat, x: Mention, y: Mention) returns (run: seq<State>)
    requires |sources| == 2 && |outcomes| == 2 && k < 2 && outcomes[k] == Single(x) && outcomes[1 - k] == Single(y)
    ensures Behaviour(sources, outcomes, run) && Done(2, run[|run| - 1])
    ensures run[|run| - 1].acc.mentions == [x, y]
  {
    var s0, s1, s2 := State(0, {}, [], EMPTY), State(1, {0}, [], EMPTY), State(2, {0, 1}, [], EMPTY);
    TwoLaunches(s0, s1, s2);
    var s3, s4 := TwoFinishes(sources, outcomes, k, x, y, s2);
    run := [s0, s1, s2, s3, s4];
  }

  lemma TiedPairStays(a: Mention, b: Mention)
    requires a.postedAt == b.postedAt && a.id == b.id
    ensures Sort(MentionBefore, [a, b]) == [a, b]
  {
    ResultOrders();
    assert Sort(MentionBefore, [b]) == [b];
    assert [a, b][1..] == [b];
  }

  // ---------------------------------------------------------------- the numbers of a run

  function CreditSum(runs: seq<SourceRun>): nat {
    if |runs| == 0 then 0 else runs[0].credits + CreditSum(runs[1..])
  }

  function MentionSum(runs: seq<SourceRun>): nat {
    if |runs| == 0 then 0 else runs[0].mentions + MentionSum(runs[1..])
  }

  lemma {:induction false} SumsOfAppend(a: seq<SourceRun>, b: seq<SourceRun>)
    ensures CreditSum(a + b) == CreditSum(a) + CreditSum(b)
    ensures MentionSum(a + b) == MentionSum(a) + MentionSum(b)
  {
    if |a| == 0 {
      assert a + b == b;
    } else {
      SumsOfAppend(a[1..], b);
      assert (a + b)[1..] == a[1..] + b;
    }
  }

  lemma {:induction false} SumsOfInsert(x: SourceRun, runs: seq<SourceRun>)
    ensures CreditSum(Insert(SourceBefore, x, runs)) == x.credits + CreditSum(runs)
    ensures MentionSum(Insert(SourceBefore, x, runs)) == x.mentions + MentionSum(runs)
  {
    if |runs| == 0 || !SourceBefore(runs[0], x) {
      assert ([x] + runs)[1..] == runs;
    } else {
      SumsOfInsert(x, runs[1..]);
      assert ([runs[0]] + Insert(SourceBefore, x, runs[1..]))[1..] == Insert(SourceBefore, x, runs[1..]);
    }
  }

  lemma {:induction false} SumsOfSort(runs: seq<SourceRun>)
    ensures CreditSum(Sort(SourceBefore, runs)) == CreditSum(runs)
    ensures MentionSum(Sort(SourceBefore, runs)) == MentionSum(runs)
  {
    if |runs| > 0 {
      SumsOfSort(runs[1..]);
      SumsOfInsert(runs[0], Sort(SourceBefore, runs[1..]));
    }
  }

  lemma {:induction false} FoldConserves(sources: seq<string>, outcomes: seq<Outcome>, order: seq<nat>)
    requires |sources| == |outcomes| && Indices(order, |sources|)
    ensures var acc := Fold(sources, outcomes, order);
      CreditSum(acc.perSource) == acc.credits && MentionSum(acc.perSource) == |acc.mentions|
  {
    if |order| > 0 {
      var last, rest := order[|order| - 1], order[..|order| - 1];
      FoldConserves(sources, outcomes, rest);
      match outcomes[last]
      case TransportError(_) =>
      case Batch(mentions, credits, _, _) =>
        var run := [SourceRun(sources[last], |mentions|, credits)];
        SumsOfAppend(Fold(sources, outcomes, rest).perSource, run);
        assert run[1..] == [];
    }
  }

  /** The per-source rows account for every mention and every credit of the run, at every
      moment and after the sorts. */
  lemma PerSourceRowsAddUp(sources: seq<string>, outcomes: seq<Outcome>, s: State)
    requires |sources| == |outcomes| && Invariant(sources, outcomes, s)
    ensures var r := Result(s.acc);
      CreditSum(r.perSource) == r.credits && MentionSum(r.perSource) == |r.mentions|
  {
    FoldConserves(sources, outcomes, s.finished);
    SumsOfSort(s.acc.perSource);
    SortElements(MentionBefore, s.acc.mentions);
    SameElements(s.acc.mentions, Sort(MentionBefore, s.acc.mentions));
  }

  function DeadCount(outcomes: seq<Outcome>, n: nat): nat
    requires n <= |outcomes|
  {
    if n == 0 then 0 else DeadCount(outcomes, n - 1) + (if Dead(outcomes[n - 1]) then 1 else 0)
  }

  function CreditsOf(o: Outcome): nat {
    match o
    case TransportError(_) => 0
    case Batch(_, credits, _, _) => credits
  }

  function CreditTotal(outcomes: seq<Outcome>, n: nat): nat
    requires n <= |outcomes|
  {
    if n == 0 then 0 else CreditTotal(outcomes, n - 1) + CreditsOf(outcomes[n - 1])
  }

  lemma {:induction false} SequentialCounts(sources: seq<string>, outcomes: seq<Outcome>, n: nat)
    requires n <= |sources| == |outcomes|
    ensures Fold(sources, outcomes, InOrder(n)).failed == DeadCount(outcomes, n)
    ensures Fold(sources, outcomes, InOrder(n)).credits == CreditTotal(outcomes, n)
  {
    if n > 0 {
      SequentialCounts(sources, outcomes, n - 1);
      assert InOrder(n)[..n - 1] == InOrder(n - 1);
    }
  }

  /** When all goroutines are done, `failed` counts the dead sources and the credits are those
      of all batches together. */
  lemma CompleteRunCounts(sources: seq<string>, outcomes: seq<Outcome>, s: State)
    requires |sources| == |outcomes| && Invariant(sources, outcomes, s) && Done(|sources|, s)
    ensures s.acc.failed == DeadCount(outcomes, |outcomes|)
    ensures s.acc.credits == CreditTotal(outcomes, |outcomes|)
  {
    SequentialTotals(sources, outcomes, s);
    SequentialCounts(sources, outcomes, |sources|);
  }

  // ---------------------------------------------------------------- the final status

  function FinalStatus(errors: seq<string>, degradedReason: string, attempted: nat, failed: nat): RunStatus {
    if attempted > 0 && failed == attempted then Failed
    else if |errors| > 0 || degradedReason != "" then Partial
    else Okay
  }

  lemma {:induction false} AllDead(outcomes: seq<Outcome>, n: nat)
    requires n <= |outcomes|
    ensures DeadCount(outcomes, n) <= n
    ensures DeadCount(outcomes, n) == n <==> forall k :: 0 <= k < n ==> Dead(outcomes[k])
  {
    if n > 0 {
      AllDead(outcomes, n - 1);
    }
  }

  /** A source whose batch is whole: nothing failed, nothing was cut short. */
  predicate Clean(o: Outcome) {
    o.Batch? && |o.errors| == 0 && !o.truncated
  }

  lemma {:induction false} SilenceMeansClean(sources: seq<string>, outcomes: seq<Outcome>, order: seq<nat>)
    requires |sources| == |outcomes| && Indices(order, |sources|) && |Fold(sources, outcomes, order).errors| == 0
    ensures forall i :: 0 <= i < |order| ==> Clean(outcomes[order[i]])
  {
    if |order| > 0 {
      SilenceMeansClean(sources, outcomes, order[..|order| - 1]);
    }
  }

  /** The status reads the run: failed exactly when there were sources and every one was dead;
      okay only when every source's batch was whole and none was dropped to the cap. `errors`
      is the run's log, which holds at least what the collectors reported. */
  lemma StatusMeansWhatItSays(sources: seq<string>, outcomes: seq<Outcome>, s: State, errors: seq<string>, degradedReason: string)
    requires |sources| == |outcomes| && Invariant(sources, outcomes, s) && Done(|sources|, s)
    requires |s.acc.errors| <= |errors|
    ensures var status := FinalStatus(errors, degradedReason, |sources|, s.acc.failed);
      && (status == Failed <==> |sources| > 0 && forall k :: 0 <= k < |sources| ==> Dead(outcomes[k]))
      && (status == Okay ==> degradedReason == "" && forall k :: 0 <= k < |sources| ==> Clean(outcomes[k]))
  {
    CompleteRunCounts(sources, outcomes, s);
    AllDead(outcomes, |outcomes|);
    if |s.acc.errors| == 0 {
      SilenceMeansClean(sources, outcomes, s.finished);
      FinishedAll(sources, outcomes, s);
      forall k: nat | k < |sources| ensures Clean(outcomes[k]) {
        assert k in s.finished;
        var i :| 0 <= i < |s.finished| && s.finished[i] == k;
      }
    }
  }
}
