/** What the collection step hands on, in terms of what the collectors answered: the totals,
  the log and the status of `agents/bp-orchestrator/pipeline.go`. */
module Gathered {
  import opened Models
  import opened Ordering
  import opened Lists
  import opened Sources
  import opened Collect
  import opened Sums

  // ---------------------------------------------------------------- what was collected

  /** The sources whose call failed, or that reported errors and brought no mention. */
  ghost function DeadSources(outcomes: seq<Outcome>): set<nat> {
    set k: nat | k < |outcomes| &&
      (outcomes[k].TransportError? || (outcomes[k].Batch? && |outcomes[k].errors| > 0 && |outcomes[k].mentions| == 0))
  }

  /** All mentions of the first `n` batches together. */
  ghost function Brought(outcomes: seq<Outcome>, n: nat): multiset<Mention>
    requires n <= |outcomes|
  {
    if n == 0 then multiset{}
    else if outcomes[n - 1].Batch? then Brought(outcomes, n - 1) + multiset(outcomes[n - 1].mentions)
    else Brought(outcomes, n - 1)
  }

  /** The credits of the first `n` batches together. */
  ghost function Used(outcomes: seq<Outcome>, n: nat): nat
    requires n <= |outcomes|
  {
    if n == 0 then 0
    else if outcomes[n - 1].Batch? then Used(outcomes, n - 1) + outcomes[n - 1].credits
    else Used(outcomes, n - 1)
  }

  /** A line of the log about source `k`: why its call failed, what it reported, or that it ran
      into its ceiling. */
  ghost predicate LogLine(sources: seq<string>, outcomes: seq<Outcome>, k: nat, line: string)
    requires |sources| == |outcomes| && k < |sources|
  {
    match outcomes[k]
    case TransportError(message) => line == "bp-collector(" + sources[k] + "): " + message
    case Batch(_, _, errors, truncated) =>
      || (exists i :: 0 <= i < |errors| && line == "bp-collector(" + sources[k] + "): " + errors[i])
      || (truncated && line == "bp-collector(" + sources[k] + "): " + CEILING_NOTE)
  }

  ghost predicate RowOf(sources: seq<string>, outcomes: seq<Outcome>, k: nat, row: SourceRun)
    requires |sources| == |outcomes| && k < |sources|
  {
    outcomes[k].Batch? && row == SourceRun(sources[k], |outcomes[k].mentions|, outcomes[k].credits)
  }

  lemma ComplaintsElements(source: string, errors: seq<string>, truncated: bool, line: string)
    ensures line in Complaints(source, errors, truncated) <==>
      || (exists i :: 0 <= i < |errors| && line == "bp-collector(" + source + "): " + errors[i])
      || (truncated && line == "bp-collector(" + source + "): " + CEILING_NOTE)
  {
    var reports := Reports(source, errors);
    if i :| 0 <= i < |errors| && line == "bp-collector(" + source + "): " + errors[i] {
      assert reports[i] == line;
    }
    if i :| 0 <= i < |reports| && reports[i] == line {
      assert line == Report(source, errors[i]);
    }
  }

  lemma {:induction false} FoldedLog(sources: seq<string>, outcomes: seq<Outcome>, order: seq<nat>, line: string)
    requires |sources| == |outcomes| && Indices(order, |sources|)
    ensures line in Fold(sources, outcomes, order).errors <==> exists i :: 0 <= i < |order| && LogLine(sources, outcomes, order[i], line)
  {
    if |order| > 0 {
      var rest, last := order[..|order| - 1], order[|order| - 1];
      FoldedLog(sources, outcomes, rest, line);
      if outcomes[last].Batch? {
        ComplaintsElements(sources[last], outcomes[last].errors, outcomes[last].truncated, line);
      }
      assert line in Fold(sources, outcomes, order).errors <==>
             line in Fold(sources, outcomes, rest).errors || LogLine(sources, outcomes, last, line);
      LastOrEarlier(order, rest, (k: nat) => k < |sources| && LogLine(sources, outcomes, k, line));
    }
  }

  lemma LastOrEarlier(order: seq<nat>, rest: seq<nat>, holds: nat -> bool)
    requires |order| > 0 && rest == order[..|order| - 1]
    ensures (exists i :: 0 <= i < |order| && holds(order[i])) <==>
      holds(order[|order| - 1]) || exists i :: 0 <= i < |rest| && holds(rest[i])
  {
    if i :| 0 <= i < |rest| && holds(rest[i]) {
      assert holds(order[i]);
    }
    if i :| 0 <= i < |order| && holds(order[i]) {
      assert i < |rest| ==> holds(rest[i]);
    }
  }

  lemma {:induction false} FoldedRows(sources: seq<string>, outcomes: seq<Outcome>, order: seq<nat>, row: SourceRun)
    requires |sources| == |outcomes| && Indices(order, |sources|)
    ensures row in Fold(sources, outcomes, order).perSource <==> exists i :: 0 <= i < |order| && RowOf(sources, outcomes, order[i], row)
  {
    if |order| > 0 {
      var rest, last := order[..|order| - 1], order[|order| - 1];
      FoldedRows(sources, outcomes, rest, row);
      assert row in Fold(sources, outcomes, order).perSource <==>
             row in Fold(sources, outcomes, rest).perSource || RowOf(sources, outcomes, last, row);
      LastOrEarlier(order, rest, (k: nat) => k < |sources| && RowOf(sources, outcomes, k, row));
    }
  }

  lemma AbsorbedTotals(acc: Acc, source: string, o: Outcome)
    ensures multiset(Absorb(acc, source, o).mentions) == multiset(acc.mentions) + (if o.Batch? then multiset(o.mentions) else multiset{})
    ensures Absorb(acc, source, o).credits == acc.credits + (if o.Batch? then o.credits else 0)
    ensures Absorb(acc, source, o).failed == acc.failed + (if Dead(o) then 1 else 0)
  {
    if o.Batch? {
      MultisetOfAppend(acc.mentions, o.mentions);
    }
  }

  lemma FoldNext(sources: seq<string>, outcomes: seq<Outcome>, n: nat)
    requires 0 < n <= |sources| == |outcomes|
    ensures Fold(sources, outcomes, InOrder(n)) == Absorb(Fold(sources, outcomes, InOrder(n - 1)), sources[n - 1], outcomes[n - 1])
  {
    assert InOrder(n)[..n - 1] == InOrder(n - 1);
  }

  ghost predicate TotalsAre(acc: Acc, brought: multiset<Mention>, used: nat, dead: nat) {
    multiset(acc.mentions) == brought && acc.credits == used && acc.failed == dead
  }

  lemma TotalsNext(acc: Acc, next: Acc, source: string, o: Outcome, brought: multiset<Mention>, used: nat, dead: nat)
    requires next == Absorb(acc, source, o) && TotalsAre(acc, brought, used, dead)
    ensures TotalsAre(next, if o.Batch? then brought + multiset(o.mentions) else brought, if o.Batch? then used + o.credits else used,
                      if Dead(o) then dead + 1 else dead)
  {
    AbsorbedTotals(acc, source, o);
    assert brought + multiset{} == brought;
  }

  lemma MoreBrought(outcomes: seq<Outcome>, n: nat)
    requires 0 < n <= |outcomes|
    ensures var o := outcomes[n - 1];
      && Brought(outcomes, n) == (if o.Batch? then Brought(outcomes, n - 1) + multiset(o.mentions) else Brought(outcomes, n - 1))
      && Used(outcomes, n) == if o.Batch? then Used(outcomes, n - 1) + o.credits else Used(outcomes, n - 1)
  {
  }

  lemma {:induction false} FoldedInOrder(sources: seq<string>, outcomes: seq<Outcome>, n: nat)
    requires n <= |sources| == |outcomes|
    ensures TotalsAre(Fold(sources, outcomes, InOrder(n)), Brought(outcomes, n), Used(outcomes, n), |DeadSources(outcomes[..n])|)
  {
    if n == 0 {
      assert DeadSources(outcomes[..0]) == {};
    } else {
      FoldedInOrder(sources, outcomes, n - 1);
      FoldNext(sources, outcomes, n);
      TotalsNext(Fold(sources, outcomes, InOrder(n - 1)), Fold(sources, outcomes, InOrder(n)), sources[n - 1], outcomes[n - 1],
                 Brought(outcomes, n - 1), Used(outcomes, n - 1), |DeadSources(outcomes[..n - 1])|);
      MoreBrought(outcomes, n);
      OneMoreDead(outcomes, n);
    }
  }

  lemma OneMoreDead(outcomes: seq<Outcome>, n: nat)
    requires 0 < n <= |outcomes|
    ensures |DeadSources(outcomes[..n])| == |DeadSources(outcomes[..n - 1])| + (if Dead(outcomes[n - 1]) then 1 else 0)
  {
    var before, after := DeadSources(outcomes[..n - 1]), DeadSources(outcomes[..n]);
    assert after == if Dead(outcomes[n - 1]) then before + {n - 1} else before;
    assert n - 1 !in before;
  }

  lemma GatheredTotals(sources: seq<string>, outcomes: seq<Outcome>, s: State)
    requires |sources| == |outcomes| && Invariant(sources, outcomes, s) && Done(|sources|, s)
    ensures multiset(s.acc.mentions) == Brought(outcomes, |outcomes|) && s.acc.credits == Used(outcomes, |outcomes|)
    ensures s.acc.failed == |DeadSources(outcomes)|
  {
    SequentialTotals(sources, outcomes, s);
    FoldedInOrder(sources, outcomes, |sources|);
    assert outcomes[..|outcomes|] == outcomes;
  }

  lemma GatheredRow(sources: seq<string>, outcomes: seq<Outcome>, s: State, row: SourceRun)
    requires |sources| == |outcomes| && Invariant(sources, outcomes, s) && Done(|sources|, s)
    ensures row in s.acc.perSource <==> exists k: nat :: k < |sources| && RowOf(sources, outcomes, k, row)
  {
    FinishedAll(sources, outcomes, s);
    FoldedRows(sources, outcomes, s.finished, row);
    var holds := (k: nat) => k < |sources| && RowOf(sources, outcomes, k, row);
    AmongAll(s.finished, |sources|, holds);
    if k: nat :| k < |sources| && RowOf(sources, outcomes, k, row) {
      assert holds(k);
    }
  }

  lemma GatheredLine(sources: seq<string>, outcomes: seq<Outcome>, s: State, line: string)
    requires |sources| == |outcomes| && Invariant(sources, outcomes, s) && Done(|sources|, s)
    ensures line in s.acc.errors <==> exists k: nat :: k < |sources| && LogLine(sources, outcomes, k, line)
  {
    FinishedAll(sources, outcomes, s);
    FoldedLog(sources, outcomes, s.finished, line);
    var holds := (k: nat) => k < |sources| && LogLine(sources, outcomes, k, line);
    AmongAll(s.finished, |sources|, holds);
    if k: nat :| k < |sources| && LogLine(sources, outcomes, k, line) {
      assert holds(k);
    }
  }

  /** When every goroutine is done, the totals are those of all batches, whatever the order in
      which they came: every mention as often as it was brought, every credit, the number of
      dead sources, one row for each batch, and in the log every complaint and nothing else. */
  lemma CompleteRunGathers(sources: seq<string>, outcomes: seq<Outcome>, s: State)
    requires |sources| == |outcomes| && Invariant(sources, outcomes, s) && Done(|sources|, s)
    ensures multiset(s.acc.mentions) == Brought(outcomes, |outcomes|) && s.acc.credits == Used(outcomes, |outcomes|)
    ensures s.acc.failed == |DeadSources(outcomes)|
    ensures forall row :: row in s.acc.perSource <==> exists k: nat :: k < |sources| && RowOf(sources, outcomes, k, row)
    ensures forall line :: line in s.acc.errors <==> exists k: nat :: k < |sources| && LogLine(sources, outcomes, k, line)
  {
    GatheredTotals(sources, outcomes, s);
    forall row ensures row in s.acc.perSource <==> exists k: nat :: k < |sources| && RowOf(sources, outcomes, k, row) {
      GatheredRow(sources, outcomes, s, row);
    }
    forall line ensures line in s.acc.errors <==> exists k: nat :: k < |sources| && LogLine(sources, outcomes, k, line) {
      GatheredLine(sources, outcomes, s, line);
    }
  }

  lemma AmongAll(order: seq<nat>, n: nat, holds: nat -> bool)
    requires Indices(order, n) && forall k: nat :: k < n ==> k in order
    ensures (exists i :: 0 <= i < |order| && holds(order[i])) <==> exists k: nat :: k < n && holds(k)
  {
    if k: nat :| k < n && holds(k) {
      assert k in order;
      var i :| 0 <= i < |order| && order[i] == k;
      assert holds(order[i]);
    }
  }

  /** The result is in order of posting time, and of id at one time; the rows are in order of
      their source. */
  lemma ResultInOrder(acc: Acc)
    ensures var mentions, rows := Result(acc).mentions, Result(acc).perSource;
      && multiset(mentions) == multiset(acc.mentions) && multiset(rows) == multiset(acc.perSource)
      && (forall i, j :: 0 <= i < j < |mentions| ==>
            || mentions[i].postedAt < mentions[j].postedAt
            || (mentions[i].postedAt == mentions[j].postedAt && !StringLess(mentions[j].id, mentions[i].id)))
      && (forall i, j :: 0 <= i < j < |rows| ==> !StringLess(rows[j].source, rows[i].source))
  {
    ResultOrders();
    SortSorted(MentionBefore, acc.mentions);
    SortSorted(SourceBefore, acc.perSource);
    SortElements(MentionBefore, acc.mentions);
    SortElements(SourceBefore, acc.perSource);
    var mentions := Result(acc).mentions;
    forall i, j | 0 <= i < j < |mentions|
      ensures mentions[i].postedAt < mentions[j].postedAt ||
              (mentions[i].postedAt == mentions[j].postedAt && !StringLess(mentions[j].id, mentions[i].id))
    {
      assert !MentionBefore(mentions[j], mentions[i]);
    }
  }

  // ---------------------------------------------------------------- the status

  ghost predicate IsDead(o: Outcome) {
    o.TransportError? || (o.Batch? && |o.errors| > 0 && |o.mentions| == 0)
  }

  lemma {:induction false} AllAreDead(outcomes: seq<Outcome>, n: nat)
    requires n <= |outcomes|
    ensures |DeadSources(outcomes[..n])| <= n
    ensures |DeadSources(outcomes[..n])| == n <==> forall k :: 0 <= k < n ==> IsDead(outcomes[k])
  {
    if n == 0 {
      assert DeadSources(outcomes[..0]) == {};
    } else {
      AllAreDead(outcomes, n - 1);
      OneMoreDead(outcomes, n);
    }
  }

  lemma SilentWhenWhole(sources: seq<string>, outcomes: seq<Outcome>, s: State)
    requires |sources| == |outcomes| && Invariant(sources, outcomes, s) && Done(|sources|, s)
    ensures |s.acc.errors| == 0 <==>
      forall k :: 0 <= k < |sources| ==> outcomes[k].Batch? && |outcomes[k].errors| == 0 && !outcomes[k].truncated
  {
    CompleteRunGathers(sources, outcomes, s);
    if k: nat :| k < |sources| && !(outcomes[k].Batch? && |outcomes[k].errors| == 0 && !outcomes[k].truncated) {
      var line := ComplaintOf(sources, outcomes, k);
      assert line in s.acc.errors;
    }
    if |s.acc.errors| > 0 {
      var line := s.acc.errors[0];
      assert line in s.acc.errors;
      var k: nat :| k < |sources| && LogLine(sources, outcomes, k, line);
    }
  }

  lemma ComplaintOf(sources: seq<string>, outcomes: seq<Outcome>, k: nat) returns (line: string)
    requires |sources| == |outcomes| && k < |sources|
    requires !(outcomes[k].Batch? && |outcomes[k].errors| == 0 && !outcomes[k].truncated)
    ensures LogLine(sources, outcomes, k, line)
  {
    var start := "bp-collector(" + sources[k] + "): ";
    match outcomes[k]
    case TransportError(message) => line := start + message;
    case Batch(_, _, errors, truncated) => line := start + (if |errors| > 0 then errors[0] else CEILING_NOTE);
  }

  /** A run has failed exactly when it had sources and each one's call failed or reported errors
      with no mention. When its log is what the collectors reported, it is okay exactly when no
      source was dropped and every batch came back without errors and whole; a quiet source,
      that brought no mention and no error, is no fault. */
  lemma StatusInPlainTerms(sources: seq<string>, outcomes: seq<Outcome>, s: State, degradedReason: string)
    requires |sources| == |outcomes| && Invariant(sources, outcomes, s) && Done(|sources|, s)
    ensures FinalStatus(s.acc.errors, degradedReason, |sources|, s.acc.failed) == Failed <==>
      |sources| > 0 && forall k :: 0 <= k < |sources| ==>
        outcomes[k].TransportError? || (outcomes[k].Batch? && |outcomes[k].errors| > 0 && |outcomes[k].mentions| == 0)
    ensures FinalStatus(s.acc.errors, degradedReason, |sources|, s.acc.failed) == Okay <==>
      degradedReason == "" && forall k :: 0 <= k < |sources| ==> outcomes[k].Batch? && |outcomes[k].errors| == 0 && !outcomes[k].truncated
  {
    CompleteRunGathers(sources, outcomes, s);
    AllAreDead(outcomes, |outcomes|);
    assert outcomes[..|outcomes|] == outcomes;
    assert forall k :: 0 <= k < |outcomes| ==> (IsDead(outcomes[k]) <==>
      outcomes[k].TransportError? || (outcomes[k].Batch? && |outcomes[k].errors| > 0 && |outcomes[k].mentions| == 0));
    SilentWhenWhole(sources, outcomes, s);
  }

  /** Whatever else was logged, the run has failed under the same condition, and is okay exactly
      when nothing at all was logged and no source was dropped. */
  lemma StatusWithOtherErrors(sources: seq<string>, outcomes: seq<Outcome>, s: State, others: seq<string>, degradedReason: string)
    requires |sources| == |outcomes| && Invariant(sources, outcomes, s) && Done(|sources|, s)
    ensures var status := FinalStatus(s.acc.errors + others, degradedReason, |sources|, s.acc.failed);
      && (status == Failed <==> FinalStatus(s.acc.errors, degradedReason, |sources|, s.acc.failed) == Failed)
      && (status == Okay <==> FinalStatus(s.acc.errors, degradedReason, |sources|, s.acc.failed) == Okay && others == [])
  {
    StatusInPlainTerms(sources, outcomes, s, degradedReason);
  }
}
