/** Claiming and finishing runs: `claim` and `execute` of `agents/bp-orchestrator/pipeline.go`
  over `ClaimRun`, `findRun` and `FinishRun` of `store.go`.

  Every SQL statement is one atomic step; the loser's read-back is a step of its own, so
  another trigger may finish the run in between. */
module RunClaims {
  import opened Outcomes
  import opened Models

  datatype Key = Key(brand: string, kind: string, bucket: string)

  datatype Row = Row(id: string, key: Key, status: RunStatus, credits: nat)

  // ---------------------------------------------------------------- the runs table

  predicate IdTaken(rows: seq<Row>, id: string) {
    exists k :: 0 <= k < |rows| && rows[k].id == id
  }

  /** The index of the row with this key, or the table's size. */
  function Find(rows: seq<Row>, key: Key): (at: nat)
    ensures at <= |rows|
    ensures at < |rows| ==> rows[at].key == key
    ensures forall k :: 0 <= k < at ==> rows[k].key != key
  {
    if |rows| == 0 then 0
    else
      var at := Find(rows[..|rows| - 1], key);
      if at < |rows| - 1 then at
      else if rows[|rows| - 1].key == key then |rows| - 1 else |rows|
  }

  /** UPDATE runs SET ... WHERE id = $1. */
  function Updated(rows: seq<Row>, id: string, status: RunStatus, credits: nat): (after: seq<Row>)
    ensures |after| == |rows|
    ensures forall k :: 0 <= k < |rows| ==>
      after[k] == if rows[k].id == id then rows[k].(status := status, credits := credits) else rows[k]
  {
    seq(|rows|, k requires 0 <= k < |rows| =>
      if rows[k].id == id then rows[k].(status := status, credits := credits) else rows[k])
  }

  class RunsTable {
    var rows: seq<Row>

    constructor ()
      ensures rows == []
    {
      rows := [];
    }

    /** INSERT ... ON CONFLICT (brand_id, kind, time_bucket) DO NOTHING RETURNING id. A taken
        id under a free key is an error, since the conflict clause covers the key only. */
    method Insert(row: Row) returns (r: Result<bool>)
      modifies this
      ensures r == if Find(old(rows), row.key) < |old(rows)| then Success(false)
                   else if IdTaken(old(rows), row.id) then Failure
                   else Success(true)
      ensures rows == if r == Success(true) then old(rows) + [row] else old(rows)
    {
      if Find(rows, row.key) < |rows| {
        return Success(false);
      }
      if IdTaken(rows, row.id) {
        return Failure;
      }
      rows := rows + [row];
      return Success(true);
    }

    method FindRun(key: Key) returns (row: Option<Row>)
      ensures row.None? <==> forall k :: 0 <= k < |rows| ==> rows[k].key != key
      ensures row.Some? ==> row.value in rows && row.value.key == key
      ensures UniqueKeys(rows) ==> forall k :: 0 <= k < |rows| && rows[k].key == key ==> row == Some(rows[k])
    {
      var at := Find(rows, key);
      return if at < |rows| then Some(rows[at]) else None;
    }

    method FinishRun(id: string, status: RunStatus, credits: nat)
      modifies this
      ensures rows == Updated(old(rows), id, status, credits)
    {
      ghost var before := rows;
      for k := 0 to |rows|
        invariant |rows| == |before|
        invariant forall l :: 0 <= l < k ==> rows[l] == Updated(before, id, status, credits)[l]
        invariant forall l :: k <= l < |rows| ==> rows[l] == before[l]
      {
        if rows[k].id == id {
          rows := rows[k := rows[k].(status := status, credits := credits)];
        }
      }
    }
  }

  // ---------------------------------------------------------------- the step system

  /** One call of Handle: its key, the fresh id it would insert, and whether it forces. */
  datatype Trigger = Trigger(key: Key, id: string, force: bool)

  /** Where a trigger stands. `record` is the run record it holds in memory. */
  datatype Phase =
    | Idle
    | Conflicted
    | Executing(record: Row)
    | Returned(record: Row)
    | Finished(record: Row)
    | Errored

  /** `calls` counts the peers each trigger called, and `used` is what they cost its run so far.
      The last three fields are bookkeeping of what the table cannot say: what was spent, what
      a later write overwrote, and what a failed write lost. */
  datatype State = State(
    rows: seq<Row>, phases: seq<Phase>, calls: seq<nat>, used: seq<nat>, spent: nat, overwritten: nat, lost: nat)

  /** `dbOk` is false when the statement fails. */
  datatype Action =
    | Claim(i: nat, dbOk: bool)
    | ReadBack(i: nat, dbOk: bool)
    | CallPeer(i: nat, credits: nat)
    | Finish(i: nat, status: RunStatus, dbOk: bool)

  function Start(n: nat): State {
    State([], seq(n, i => Idle), seq(n, i => 0), seq(n, i => 0), 0, 0, 0)
  }

  predicate Shaped(triggers: seq<Trigger>, s: State) {
    |s.phases| == |s.calls| == |s.used| == |triggers|
  }

  function SetPhase(s: State, i: nat, phase: Phase): State
    requires i < |s.phases|
  {
    s.(phases := s.phases[i := phase])
  }

  /** The pipeline starts from the top, with nothing used yet. */
  function Begin(s: State, i: nat, record: Row): State
    requires i < |s.phases| == |s.used|
  {
    SetPhase(s, i, Executing(record)).(used := s.used[i := 0])
  }

  function CreditsAt(rows: seq<Row>, id: string): nat {
    if |rows| == 0 then 0
    else CreditsAt(rows[..|rows| - 1], id) + (if rows[|rows| - 1].id == id then rows[|rows| - 1].credits else 0)
  }

  /** A forced trigger runs the existing row again from the top, keeping its id. */
  function Adopted(row: Row): Row { row.(status := Running, credits := 0) }

  /** One step. An action that is not enabled changes nothing. */
  function Step(triggers: seq<Trigger>, s: State, a: Action): (t: State)
    requires Shaped(triggers, s)
    ensures Shaped(triggers, t)
  {
    if a.i >= |triggers| then s
    else
      var trigger, phase := triggers[a.i], s.phases[a.i];
      match a
      case Claim(i, dbOk) =>
        if phase != Idle then s
        else if !dbOk then SetPhase(s, i, Errored)
        else if Find(s.rows, trigger.key) < |s.rows| then SetPhase(s, i, Conflicted)
        else if IdTaken(s.rows, trigger.id) then SetPhase(s, i, Errored)
        else
          var row := Row(trigger.id, trigger.key, Running, 0);
          Begin(s.(rows := s.rows + [row]), i, row)
      case ReadBack(i, dbOk) =>
        if phase != Conflicted then s
        else
          var at := Find(s.rows, trigger.key);
          if !dbOk || at == |s.rows| then SetPhase(s, i, Errored)
          else if trigger.force then Begin(s, i, Adopted(s.rows[at]))
          else SetPhase(s, i, Returned(s.rows[at]))
      case CallPeer(i, credits) =>
        if phase.Executing?
        then s.(calls := s.calls[i := s.calls[i] + 1], used := s.used[i := s.used[i] + credits], spent := s.spent + credits)
        else s
      case Finish(i, status, dbOk) =>
        if !phase.Executing? || status == Running then s
        else
          var id, credits := phase.record.id, s.used[i];
          var t := SetPhase(s, i, Finished(phase.record.(status := status, credits := credits)));
          if !dbOk then t.(lost := t.lost + credits)
          else t.(rows := Updated(s.rows, id, status, credits), overwritten := t.overwritten + CreditsAt(s.rows, id))
  }

  function Run(triggers: seq<Trigger>, actions: seq<Action>): (s: State)
    ensures Shaped(triggers, s)
  {
    if |actions| == 0 then Start(|triggers|)
    else Step(triggers, Run(triggers, actions[..|actions| - 1]), actions[|actions| - 1])
  }

  // ---------------------------------------------------------------- invariants

  ghost predicate UniqueKeys(rows: seq<Row>) {
    forall k, l :: 0 <= k < l < |rows| ==> rows[k].key != rows[l].key && rows[k].id != rows[l].id
  }

  ghost predicate Stored(rows: seq<Row>, id: string, key: Key) {
    exists k :: 0 <= k < |rows| && rows[k].id == id && rows[k].key == key
  }

  /** The trigger runs, or ran, the pipeline. */
  predicate Owns(p: Phase) { p.Executing? || p.Finished? }

  ghost predicate PhaseSound(rows: seq<Row>, trigger: Trigger, p: Phase, calls: nat) {
    && (p.Conflicted? ==> Find(rows, trigger.key) < |rows|)
    && (Owns(p) || p.Returned? ==> Stored(rows, p.record.id, trigger.key))
    && (Owns(p) && !trigger.force ==> p.record.id == trigger.id)
    && (!Owns(p) ==> calls == 0)
    && (p.Returned? ==> !trigger.force)
  }

  ghost predicate Invariant(triggers: seq<Trigger>, s: State) {
    && Shaped(triggers, s)
    && UniqueKeys(s.rows)
    && forall i :: 0 <= i < |triggers| ==> PhaseSound(s.rows, triggers[i], s.phases[i], s.calls[i])
  }

  /** Rows keep their place, id and key for ever, and a terminal row stays terminal. */
  ghost predicate Extends(before: seq<Row>, after: seq<Row>) {
    && |before| <= |after|
    && forall k :: 0 <= k < |before| ==>
         && after[k].id == before[k].id && after[k].key == before[k].key
         && (before[k].status != Running ==> after[k].status != Running)
  }

  lemma ExtendsKeepsSound(before: seq<Row>, after: seq<Row>, trigger: Trigger, p: Phase, calls: nat)
    requires Extends(before, after) && PhaseSound(before, trigger, p, calls)
    ensures PhaseSound(after, trigger, p, calls)
  {
    if p.Conflicted? {
      assert after[Find(before, trigger.key)].key == trigger.key;
    }
    if Owns(p) || p.Returned? {
      var k :| 0 <= k < |before| && before[k].id == p.record.id && before[k].key == trigger.key;
      assert after[k].id == p.record.id;
    }
  }

  lemma StepExtends(triggers: seq<Trigger>, s: State, a: Action)
    requires Invariant(triggers, s)
    ensures Extends(s.rows, Step(triggers, s, a).rows) && UniqueKeys(Step(triggers, s, a).rows)
  {
  }

  lemma StepKeepsInvariant(triggers: seq<Trigger>, s: State, a: Action)
    requires Invariant(triggers, s)
    ensures Invariant(triggers, Step(triggers, s, a))
  {
    var t := Step(triggers, s, a);
    StepExtends(triggers, s, a);
    forall i | 0 <= i < |triggers| ensures PhaseSound(t.rows, triggers[i], t.phases[i], t.calls[i]) {
      ExtendsKeepsSound(s.rows, t.rows, triggers[i], s.phases[i], s.calls[i]);
      if i == a.i {
        OwnStepSound(triggers, s, a);
      }
    }
  }

  lemma BeginSound(triggers: seq<Trigger>, t: State, i: nat, at: nat)
    requires i < |triggers| && Shaped(triggers, t) && t.phases[i].Executing? && at < |t.rows|
    requires t.rows[at].id == t.phases[i].record.id && t.rows[at].key == triggers[i].key
    requires !triggers[i].force ==> t.phases[i].record.id == triggers[i].id
    ensures PhaseSound(t.rows, triggers[i], t.phases[i], t.calls[i])
  {
  }

  lemma ClaimSound(triggers: seq<Trigger>, s: State, a: Action, t: State)
    requires Invariant(triggers, s) && a.i < |triggers| && a.Claim? && s.phases[a.i] == Idle && t == Step(triggers, s, a)
    ensures PhaseSound(t.rows, triggers[a.i], t.phases[a.i], t.calls[a.i])
  {
    assert PhaseSound(s.rows, triggers[a.i], s.phases[a.i], s.calls[a.i]);
    if t.phases[a.i].Executing? {
      BeginSound(triggers, t, a.i, |s.rows|);
    }
  }

  lemma ReadBackSound(triggers: seq<Trigger>, s: State, a: Action, t: State)
    requires Invariant(triggers, s) && a.i < |triggers| && a.ReadBack? && s.phases[a.i] == Conflicted && t == Step(triggers, s, a)
    ensures PhaseSound(t.rows, triggers[a.i], t.phases[a.i], t.calls[a.i])
  {
    assert PhaseSound(s.rows, triggers[a.i], s.phases[a.i], s.calls[a.i]);
    if t.phases[a.i].Executing? {
      BeginSound(triggers, t, a.i, Find(s.rows, triggers[a.i].key));
    }
  }

  lemma WorkingSound(triggers: seq<Trigger>, s: State, a: Action, t: State)
    requires Invariant(triggers, s) && a.i < |triggers| && (a.CallPeer? || a.Finish?) && s.phases[a.i].Executing? && t == Step(triggers, s, a)
    ensures PhaseSound(t.rows, triggers[a.i], t.phases[a.i], t.calls[a.i])
  {
    StepExtends(triggers, s, a);
    ExtendsKeepsSound(s.rows, t.rows, triggers[a.i], s.phases[a.i], s.calls[a.i]);
  }

  lemma OwnStepSound(triggers: seq<Trigger>, s: State, a: Action)
    requires Invariant(triggers, s) && a.i < |triggers|
    ensures var t := Step(triggers, s, a); PhaseSound(t.rows, triggers[a.i], t.phases[a.i], t.calls[a.i])
  {
    var t := Step(triggers, s, a);
    if a.Claim? && s.phases[a.i] == Idle {
      ClaimSound(triggers, s, a, t);
    } else if a.ReadBack? && s.phases[a.i] == Conflicted {
      ReadBackSound(triggers, s, a, t);
    } else if (a.CallPeer? || a.Finish?) && s.phases[a.i].Executing? {
      WorkingSound(triggers, s, a, t);
    } else {
      assert t == s;
    }
  }

  lemma {:induction false} RunsAreSound(triggers: seq<Trigger>, actions: seq<Action>)
    ensures Invariant(triggers, Run(triggers, actions))
  {
    if |actions| > 0 {
      RunsAreSound(triggers, actions[..|actions| - 1]);
      StepKeepsInvariant(triggers, Run(triggers, actions[..|actions| - 1]), actions[|actions| - 1]);
    }
  }

  // ---------------------------------------------------------------- theorems about every interleaving

  lemma ExtendsTransitive(a: seq<Row>, b: seq<Row>, c: seq<Row>)
    requires Extends(a, b) && Extends(b, c)
    ensures Extends(a, c)
  {
  }

  /** Once stored, a run keeps its id and its key, and a terminal status never returns to
      running, under Force or not: adopting a row changes it in memory only. */
  lemma {:induction false} RowsPersist(triggers: seq<Trigger>, earlier: seq<Action>, later: seq<Action>)
    ensures Extends(Run(triggers, earlier).rows, Run(triggers, earlier + later).rows)
  {
    if |later| == 0 {
      assert earlier + later == earlier;
    } else {
      var rest := later[..|later| - 1];
      RowsPersist(triggers, earlier, rest);
      LastStep(triggers, earlier, later);
      OneStepExtends(triggers, earlier + rest, later[|later| - 1]);
      ExtendsTransitive(Run(triggers, earlier).rows, Run(triggers, earlier + rest).rows, Run(triggers, earlier + later).rows);
    }
  }

  lemma LastStep(triggers: seq<Trigger>, earlier: seq<Action>, later: seq<Action>)
    requires |later| > 0
    ensures Run(triggers, earlier + later) == Step(triggers, Run(triggers, earlier + later[..|later| - 1]), later[|later| - 1])
  {
    assert (earlier + later)[..|earlier + later| - 1] == earlier + later[..|later| - 1];
  }

  lemma OneStepExtends(triggers: seq<Trigger>, actions: seq<Action>, a: Action)
    ensures Extends(Run(triggers, actions).rows, Step(triggers, Run(triggers, actions), a).rows)
  {
    RunsAreSound(triggers, actions);
    StepExtends(triggers, Run(triggers, actions), a);
  }

  ghost predicate FreshIds(triggers: seq<Trigger>) {
    forall i, j :: 0 <= i < j < |triggers| ==> triggers[i].id != triggers[j].id
  }

  /** At most one row per brand, kind and bucket, and at most one unforced owner of it. */
  lemma AtMostOneOwner(triggers: seq<Trigger>, actions: seq<Action>, i: nat, j: nat)
    requires FreshIds(triggers) && i < j < |triggers| && triggers[i].key == triggers[j].key
    requires !triggers[i].force && !triggers[j].force
    ensures UniqueKeys(Run(triggers, actions).rows)
    ensures !(Owns(Run(triggers, actions).phases[i]) && Owns(Run(triggers, actions).phases[j]))
  {
    RunsAreSound(triggers, actions);
    var s := Run(triggers, actions);
    if Owns(s.phases[i]) && Owns(s.phases[j]) {
      assert PhaseSound(s.rows, triggers[i], s.phases[i], s.calls[i]);
      assert PhaseSound(s.rows, triggers[j], s.phases[j], s.calls[j]);
      KeyDeterminesId(s.rows, triggers[i].id, triggers[j].id, triggers[i].key);
    }
  }

  lemma KeyDeterminesId(rows: seq<Row>, id: string, other: string, key: Key)
    requires UniqueKeys(rows) && Stored(rows, id, key) && Stored(rows, other, key)
    ensures id == other
  {
    var k :| 0 <= k < |rows| && rows[k].id == id && rows[k].key == key;
    var l :| 0 <= l < |rows| && rows[l].id == other && rows[l].key == key;
    assert k == l;
  }

  /** An unforced loser has called nobody, and its read-back, whenever it comes, finds the row
      that beat it and returns it unchanged. */
  lemma LosersReturnTheStoredRow(triggers: seq<Trigger>, actions: seq<Action>, i: nat, later: seq<Action>)
    requires i < |triggers| && !triggers[i].force
    requires Run(triggers, actions).phases[i].Conflicted? && Run(triggers, actions + later).phases[i].Conflicted?
    ensures var s := Run(triggers, actions + later);
      var t := Step(triggers, s, ReadBack(i, true));
      && s.calls[i] == 0 && t.calls[i] == 0 && t.rows == s.rows
      && t.phases[i].Returned? && t.phases[i].record in s.rows
      && t.phases[i].record.key == triggers[i].key
      && Find(Run(triggers, actions).rows, triggers[i].key) < |Run(triggers, actions).rows|
      && t.phases[i].record.id == Run(triggers, actions).rows[Find(Run(triggers, actions).rows, triggers[i].key)].id
  {
    RunsAreSound(triggers, actions);
    RunsAreSound(triggers, actions + later);
    RowsPersist(triggers, actions, later);
    var r, s := Run(triggers, actions), Run(triggers, actions + later);
    assert PhaseSound(r.rows, triggers[i], r.phases[i], r.calls[i]);
    assert PhaseSound(s.rows, triggers[i], s.phases[i], s.calls[i]);
    var at, now := Find(r.rows, triggers[i].key), Find(s.rows, triggers[i].key);
    assert s.rows[at].key == s.rows[now].key;
    assert at == now;
  }

  // ---------------------------------------------------------------- the persisted credit total

  /** SUM(credits_used): what the budget of the next process will read. */
  function Persisted(rows: seq<Row>): nat {
    if |rows| == 0 then 0 else Persisted(rows[..|rows| - 1]) + rows[|rows| - 1].credits
  }

  lemma PrefixIds(rows: seq<Row>, id: string)
    requires |rows| > 0
    ensures IdTaken(rows[..|rows| - 1], id) ==> IdTaken(rows, id)
    ensures UniqueKeys(rows) && rows[|rows| - 1].id == id ==> !IdTaken(rows[..|rows| - 1], id)
  {
    var rest := rows[..|rows| - 1];
    if IdTaken(rest, id) {
      var k :| 0 <= k < |rest| && rest[k].id == id;
      assert rows[k].id == id;
    }
  }

  lemma {:induction false} CreditsAtAbsent(rows: seq<Row>, id: string)
    requires !IdTaken(rows, id)
    ensures CreditsAt(rows, id) == 0
    ensures forall status, credits :: Updated(rows, id, status, credits) == rows
  {
    if |rows| > 0 {
      assert rows[|rows| - 1].id != id;
      PrefixIds(rows, id);
      CreditsAtAbsent(rows[..|rows| - 1], id);
    }
  }

  lemma UpdateOfPrefix(rows: seq<Row>, id: string, status: RunStatus, credits: nat)
    requires |rows| > 0
    ensures Updated(rows, id, status, credits)[..|rows| - 1] == Updated(rows[..|rows| - 1], id, status, credits)
  {
  }

  lemma {:induction false} UpdateMovesTotal(rows: seq<Row>, id: string, status: RunStatus, credits: nat)
    requires UniqueKeys(rows) && IdTaken(rows, id)
    ensures Persisted(Updated(rows, id, status, credits)) + CreditsAt(rows, id) == Persisted(rows) + credits
  {
    var rest, last := rows[..|rows| - 1], rows[|rows| - 1];
    UpdateOfPrefix(rows, id, status, credits);
    if last.id == id {
      PrefixIds(rows, id);
      CreditsAtAbsent(rest, id);
    } else {
      var k :| 0 <= k < |rows| && rows[k].id == id;
      assert rest[k].id == id;
      UpdateMovesTotal(rest, id, status, credits);
    }
  }

  /** What the runs still executing have used. */
  function InFlight(phases: seq<Phase>, used: seq<nat>): nat
    requires |phases| == |used|
  {
    if |phases| == 0 then 0
    else
      var last := |phases| - 1;
      InFlight(phases[..last], used[..last]) + (if phases[last].Executing? then used[last] else 0)
  }

  lemma {:induction false} InFlightAfter(phases: seq<Phase>, used: seq<nat>, i: nat, p: Phase, u: nat)
    requires i < |phases| == |used|
    ensures InFlight(phases[i := p], used[i := u]) + (if phases[i].Executing? then used[i] else 0) ==
      InFlight(phases, used) + (if p.Executing? then u else 0)
  {
    var last := |phases| - 1;
    if i == last {
      assert phases[i := p][..last] == phases[..last] && used[i := u][..last] == used[..last];
    } else {
      assert phases[i := p][..last] == phases[..last][i := p] && used[i := u][..last] == used[..last][i := u];
      InFlightAfter(phases[..last], used[..last], i, p, u);
    }
  }

  /** Every credit spent is in the table, was overwritten there, was lost with a failed write,
      or is still to be written. */
  ghost predicate AccountedFor(s: State) {
    |s.phases| == |s.used| && Persisted(s.rows) + s.overwritten + s.lost + InFlight(s.phases, s.used) == s.spent
  }

  lemma {:induction false} NothingInFlight(phases: seq<Phase>, used: seq<nat>)
    requires |phases| == |used| && forall i :: 0 <= i < |phases| ==> !phases[i].Executing?
    ensures InFlight(phases, used) == 0
  {
    if |phases| > 0 {
      NothingInFlight(phases[..|phases| - 1], used[..|phases| - 1]);
    }
  }

  /** Conservation over every run. */
  lemma {:induction false} SpendIsAccountedFor(triggers: seq<Trigger>, actions: seq<Action>)
    ensures AccountedFor(Run(triggers, actions))
  {
    if |actions| == 0 {
      NothingInFlight(Start(|triggers|).phases, Start(|triggers|).used);
    } else {
      var s, a := Run(triggers, actions[..|actions| - 1]), actions[|actions| - 1];
      SpendIsAccountedFor(triggers, actions[..|actions| - 1]);
      RunsAreSound(triggers, actions[..|actions| - 1]);
      StepAccounts(triggers, s, a, Step(triggers, s, a));
    }
  }

  lemma StepAccounts(triggers: seq<Trigger>, s: State, a: Action, t: State)
    requires Invariant(triggers, s) && AccountedFor(s) && t == Step(triggers, s, a)
    ensures AccountedFor(t)
  {
    if a.i < |triggers| {
      StepMovesTable(triggers, s, a, t);
      StepMovesOne(triggers, s, a, t);
      InFlightAfter(s.phases, s.used, a.i, t.phases[a.i], t.used[a.i]);
    }
  }

  lemma StepMovesOne(triggers: seq<Trigger>, s: State, a: Action, t: State)
    requires Shaped(triggers, s) && t == Step(triggers, s, a) && a.i < |triggers|
    ensures t.phases == s.phases[a.i := t.phases[a.i]] && t.used == s.used[a.i := t.used[a.i]]
  {
  }

  function Under(p: Phase, used: nat): nat { if p.Executing? then used else 0 }

  /** What a step moves between the table and the run's own count. */
  ghost predicate Moves(s: State, t: State, i: nat)
    requires i < |s.phases| == |s.used| && i < |t.phases| == |t.used|
  {
    Persisted(t.rows) + t.overwritten + t.lost + Under(t.phases[i], t.used[i]) + s.spent ==
    Persisted(s.rows) + s.overwritten + s.lost + Under(s.phases[i], s.used[i]) + t.spent
  }

  lemma FinishMoves(triggers: seq<Trigger>, s: State, a: Action, t: State)
    requires Invariant(triggers, s) && t == Step(triggers, s, a) && a.i < |triggers| && a.Finish?
    ensures Moves(s, t, a.i)
  {
    if s.phases[a.i].Executing? {
      assert PhaseSound(s.rows, triggers[a.i], s.phases[a.i], s.calls[a.i]);
      UpdateMovesTotal(s.rows, s.phases[a.i].record.id, a.status, s.used[a.i]);
    }
  }

  lemma PersistedMore(rows: seq<Row>, row: Row)
    ensures Persisted(rows + [row]) == Persisted(rows) + row.credits
  {
    assert (rows + [row])[..|rows|] == rows;
  }

  lemma ClaimMoves(triggers: seq<Trigger>, s: State, a: Action, t: State)
    requires Shaped(triggers, s) && t == Step(triggers, s, a) && a.i < |triggers| && a.Claim?
    ensures Moves(s, t, a.i)
  {
    PersistedMore(s.rows, Row(triggers[a.i].id, triggers[a.i].key, Running, 0));
  }

  lemma ReadOrCallMoves(triggers: seq<Trigger>, s: State, a: Action, t: State)
    requires Shaped(triggers, s) && t == Step(triggers, s, a) && a.i < |triggers| && (a.ReadBack? || a.CallPeer?)
    ensures Moves(s, t, a.i)
  {
    assert t.rows == s.rows && t.overwritten == s.overwritten && t.lost == s.lost;
  }

  lemma StepMovesTable(triggers: seq<Trigger>, s: State, a: Action, t: State)
    requires Invariant(triggers, s) && t == Step(triggers, s, a) && a.i < |triggers|
    ensures Moves(s, t, a.i)
  {
    match a
    case Claim(_, _) => ClaimMoves(triggers, s, a, t);
    case ReadBack(_, _) => ReadOrCallMoves(triggers, s, a, t);
    case CallPeer(_, _) => ReadOrCallMoves(triggers, s, a, t);
    case Finish(_, _, _) => FinishMoves(triggers, s, a, t);
  }

  // ---------------------------------------------------------------- when the total is exact

  /** No forced trigger shares its brand, kind and bucket with another trigger. */
  ghost predicate ForcedAreAlone(triggers: seq<Trigger>) {
    forall i, j :: 0 <= i < |triggers| && 0 <= j < |triggers| && i != j && triggers[j].force ==> triggers[i].key != triggers[j].key
  }

  /** A trigger whose insert succeeded wrote this row. */
  ghost predicate WrittenBy(triggers: seq<Trigger>, s: State, row: Row, i: nat)
    requires Shaped(triggers, s)
  {
    i < |triggers| && row.id == triggers[i].id && row.key == triggers[i].key && s.phases[i] != Idle
  }

  ghost predicate Written(triggers: seq<Trigger>, s: State, row: Row)
    requires Shaped(triggers, s)
  {
    exists i: nat :: WrittenBy(triggers, s, row, i)
  }

  ghost predicate AllWritten(triggers: seq<Trigger>, s: State)
    requires Shaped(triggers, s)
  {
    forall k :: 0 <= k < |s.rows| ==> Written(triggers, s, s.rows[k])
  }

  ghost predicate OwnerWrote(trigger: Trigger, p: Phase) {
    (Owns(p) ==> p.record.id == trigger.id) && (trigger.force ==> !p.Conflicted?)
  }

  /** Whoever owns a run owns the row it inserted itself, and no forced trigger lost. */
  ghost predicate OwnersWrote(triggers: seq<Trigger>, s: State)
    requires Shaped(triggers, s)
  {
    forall i :: 0 <= i < |triggers| ==> OwnerWrote(triggers[i], s.phases[i])
  }

  /** Nothing is in a trigger's row before it finishes. */
  ghost predicate NothingUnfinished(triggers: seq<Trigger>, s: State)
    requires Shaped(triggers, s)
  {
    forall i :: 0 <= i < |triggers| && !s.phases[i].Finished? ==> CreditsAt(s.rows, triggers[i].id) == 0
  }

  /** Then nothing was overwritten. */
  ghost predicate Separate(triggers: seq<Trigger>, s: State)
    requires Shaped(triggers, s)
  {
    AllWritten(triggers, s) && OwnersWrote(triggers, s) && s.overwritten == 0 && NothingUnfinished(triggers, s)
  }

  lemma StepKeepsSeparate(triggers: seq<Trigger>, s: State, a: Action, t: State)
    requires FreshIds(triggers) && ForcedAreAlone(triggers) && Invariant(triggers, s) && Separate(triggers, s)
    requires t == Step(triggers, s, a)
    ensures Separate(triggers, t)
  {
    if a.i < |triggers| {
      RowsStayWritten(triggers, s, a, t);
      OwnersStay(triggers, s, a, t);
      NothingIsOverwritten(triggers, s, a, t);
      forall i | 0 <= i < |triggers| && !t.phases[i].Finished? ensures CreditsAt(t.rows, triggers[i].id) == 0 {
        UntouchedCredits(triggers, s, a, i, t);
      }
    }
  }

  lemma RowsStayWritten(triggers: seq<Trigger>, s: State, a: Action, t: State)
    requires Shaped(triggers, s) && AllWritten(triggers, s) && a.i < |triggers| && t == Step(triggers, s, a)
    ensures AllWritten(triggers, t)
  {
    forall k | 0 <= k < |t.rows| ensures Written(triggers, t, t.rows[k]) {
      if k < |s.rows| {
        assert Written(triggers, s, s.rows[k]);
        RowStaysWritten(triggers, s, a, t, k);
      } else {
        assert WrittenBy(triggers, t, t.rows[k], a.i);
      }
    }
  }

  lemma RowStaysWritten(triggers: seq<Trigger>, s: State, a: Action, t: State, k: nat)
    requires Shaped(triggers, s) && k < |s.rows| && Written(triggers, s, s.rows[k]) && a.i < |triggers| && t == Step(triggers, s, a)
    ensures k < |t.rows| && Written(triggers, t, t.rows[k])
  {
    var i: nat :| WrittenBy(triggers, s, s.rows[k], i);
    assert t.rows[k].id == s.rows[k].id && t.rows[k].key == s.rows[k].key;
    assert WrittenBy(triggers, t, t.rows[k], i);
  }

  lemma OwnersStay(triggers: seq<Trigger>, s: State, a: Action, t: State)
    requires ForcedAreAlone(triggers) && Shaped(triggers, s) && AllWritten(triggers, s) && OwnersWrote(triggers, s)
    requires a.i < |triggers| && t == Step(triggers, s, a)
    ensures OwnersWrote(triggers, t)
  {
    if triggers[a.i].force && s.phases[a.i] == Idle {
      NoRivalRow(triggers, s, a.i);
    }
    assert OwnerWrote(triggers[a.i], s.phases[a.i]);
    OwnerStays(triggers, s, a, t);
    StepMovesOne(triggers, s, a, t);
  }

  lemma OwnerStays(triggers: seq<Trigger>, s: State, a: Action, t: State)
    requires Shaped(triggers, s) && a.i < |triggers| && OwnerWrote(triggers[a.i], s.phases[a.i]) && t == Step(triggers, s, a)
    requires triggers[a.i].force && s.phases[a.i] == Idle ==> Find(s.rows, triggers[a.i].key) == |s.rows|
    ensures OwnerWrote(triggers[a.i], t.phases[a.i])
  {
  }

  lemma NoRivalRow(triggers: seq<Trigger>, s: State, j: nat)
    requires ForcedAreAlone(triggers) && Shaped(triggers, s) && AllWritten(triggers, s)
    requires j < |triggers| && triggers[j].force && s.phases[j] == Idle
    ensures Find(s.rows, triggers[j].key) == |s.rows|
  {
    forall k | 0 <= k < |s.rows| ensures s.rows[k].key != triggers[j].key {
      assert Written(triggers, s, s.rows[k]);
      var i: nat :| WrittenBy(triggers, s, s.rows[k], i);
    }
  }

  lemma NothingIsOverwritten(triggers: seq<Trigger>, s: State, a: Action, t: State)
    requires Shaped(triggers, s) && OwnersWrote(triggers, s) && NothingUnfinished(triggers, s) && a.i < |triggers|
    requires t == Step(triggers, s, a)
    ensures t.overwritten == s.overwritten
  {
  }

  lemma UntouchedCredits(triggers: seq<Trigger>, s: State, a: Action, i: nat, t: State)
    requires FreshIds(triggers) && Shaped(triggers, s) && OwnersWrote(triggers, s) && t == Step(triggers, s, a)
    requires NothingUnfinished(triggers, s) && i < |triggers| && !t.phases[i].Finished?
    ensures CreditsAt(t.rows, triggers[i].id) == 0
  {
    if |t.rows| > |s.rows| {
      assert t.rows[..|t.rows| - 1] == s.rows;
    } else if t.rows != s.rows {
      assert a.i != i && triggers[a.i].id != triggers[i].id;
      OtherRowsKeepCredits(s.rows, triggers[a.i].id, a.status, s.used[a.i], triggers[i].id);
    }
  }

  lemma {:induction false} OtherRowsKeepCredits(rows: seq<Row>, id: string, status: RunStatus, credits: nat, other: string)
    requires id != other
    ensures CreditsAt(Updated(rows, id, status, credits), other) == CreditsAt(rows, other)
  {
    if |rows| > 0 {
      OtherRowsKeepCredits(rows[..|rows| - 1], id, status, credits, other);
      assert Updated(rows, id, status, credits)[..|rows| - 1] == Updated(rows[..|rows| - 1], id, status, credits);
    }
  }

  lemma {:induction false} RunsStaySeparate(triggers: seq<Trigger>, actions: seq<Action>)
    requires FreshIds(triggers) && ForcedAreAlone(triggers)
    ensures Separate(triggers, Run(triggers, actions))
  {
    if |actions| > 0 {
      RunsStaySeparate(triggers, actions[..|actions| - 1]);
      RunsAreSound(triggers, actions[..|actions| - 1]);
      StepKeepsSeparate(triggers, Run(triggers, actions[..|actions| - 1]), actions[|actions| - 1], Run(triggers, actions));
    }
  }

  /** Without Force nothing is ever overwritten. */
  lemma UnforcedRunsOverwriteNothing(triggers: seq<Trigger>, actions: seq<Action>)
    requires FreshIds(triggers) && forall i :: 0 <= i < |triggers| ==> !triggers[i].force
    ensures var s := Run(triggers, actions);
      s.overwritten == 0 &&
      forall i :: 0 <= i < |triggers| && !s.phases[i].Finished? ==> CreditsAt(s.rows, triggers[i].id) == 0
  {
    RunsStaySeparate(triggers, actions);
  }

  /** Every FinishRun of the schedule reaches the table. */
  ghost predicate WritesSucceed(actions: seq<Action>) {
    forall k :: 0 <= k < |actions| && actions[k].Finish? ==> actions[k].dbOk
  }

  lemma {:induction false} NothingIsLost(triggers: seq<Trigger>, actions: seq<Action>)
    requires WritesSucceed(actions)
    ensures Run(triggers, actions).lost == 0
  {
    if |actions| > 0 {
      NothingIsLost(triggers, actions[..|actions| - 1]);
    }
  }

  /** No run is under way any more. */
  ghost predicate NobodyExecutes(s: State) {
    forall i :: 0 <= i < |s.phases| ==> !s.phases[i].Executing?
  }

  /** A forced re-run after a finished run of its key: 100 credits spent, then 10. */
  function ForcedRerun(i: nat, j: nat): seq<Action> {
    [Claim(i, true), CallPeer(i, 100), Finish(i, Okay, true),
     Claim(j, true), ReadBack(j, true), CallPeer(j, 10), Finish(j, Okay, true)]
  }

  /** The second figure replaces the first: of 110 credits spent, the next process reads 10. */
  lemma {:induction false} ForcedRerunForgetsSpend(triggers: seq<Trigger>, i: nat, j: nat)
    requires i < |triggers| && j < |triggers| && i != j && triggers[j].force && triggers[i].key == triggers[j].key
    ensures var s := Run(triggers, ForcedRerun(i, j));
      NobodyExecutes(s) && s.spent == 110 && Persisted(s.rows) == 10 && s.overwritten == 100
  {
    var actions := ForcedRerun(i, j);
    var s3 := FirstRun(triggers, i, actions[..3]);
    var s5 := Adopting(triggers, s3, i, j, actions[..3], actions[..5]);
    var s7 := SecondRun(triggers, s5, j, triggers[i].id, actions[..5], actions);
    OneRowPersisted(Row(triggers[i].id, triggers[i].key, Okay, 10));
    NothingInFlight(s7.phases, s7.used);
    SpendIsAccountedFor(triggers, actions);
    NothingIsLost(triggers, actions);
  }

  lemma OneRowPersisted(row: Row)
    ensures Persisted([row]) == row.credits
  {
    assert [row][..0] == [];
  }

  lemma OneMore(triggers: seq<Trigger>, actions: seq<Action>, a: Action, more: seq<Action>) returns (t: State)
    requires more == actions + [a]
    ensures t == Run(triggers, more) == Step(triggers, Run(triggers, actions), a)
  {
    assert more[..|more| - 1] == actions;
    t := Run(triggers, more);
  }

  /** Where one trigger stands, all the others being idle. */
  ghost predicate Alone(triggers: seq<Trigger>, s: State, i: nat) {
    Shaped(triggers, s) && i < |triggers| && forall j :: 0 <= j < |triggers| && j != i ==> s.phases[j] == Idle
  }

  lemma FirstClaim(triggers: seq<Trigger>, i: nat, t: State)
    requires i < |triggers| && t == Step(triggers, Start(|triggers|), Claim(i, true))
    ensures Alone(triggers, t, i) && t.rows == [Row(triggers[i].id, triggers[i].key, Running, 0)] && t.spent == 0
    ensures t.phases[i] == Executing(t.rows[0]) && t.used[i] == 0
  {
  }

  lemma OneCall(triggers: seq<Trigger>, s: State, i: nat, credits: nat, t: State)
    requires Shaped(triggers, s) && i < |triggers| && s.phases[i].Executing? && t == Step(triggers, s, CallPeer(i, credits))
    ensures Shaped(triggers, t) && t.rows == s.rows && t.phases == s.phases
    ensures t.used[i] == s.used[i] + credits && t.spent == s.spent + credits
  {
  }

  lemma OneFinish(triggers: seq<Trigger>, s: State, i: nat, row: Row, t: State)
    requires Shaped(triggers, s) && i < |triggers| && s.phases[i].Executing? && s.phases[i].record.id == row.id
    requires s.rows == [row] && t == Step(triggers, s, Finish(i, Okay, true))
    ensures Shaped(triggers, t) && t.rows == [row.(status := Okay, credits := s.used[i])] && t.spent == s.spent
    ensures t.phases[i].Finished? && forall j :: 0 <= j < |triggers| && j != i ==> t.phases[j] == s.phases[j]
  {
  }

  lemma RunOfOne(triggers: seq<Trigger>, actions: seq<Action>)
    requires |actions| == 1
    ensures Run(triggers, actions) == Step(triggers, Start(|triggers|), actions[0])
  {
    assert Run(triggers, actions[..0]) == Start(|triggers|);
  }

  lemma RunOfThree(triggers: seq<Trigger>, actions: seq<Action>)
    requires |actions| == 3
    ensures Run(triggers, actions) ==
      Step(triggers, Step(triggers, Step(triggers, Start(|triggers|), actions[0]), actions[1]), actions[2])
  {
    RunOfOne(triggers, actions[..1]);
    assert actions[..2][..1] == actions[..1];
    assert Run(triggers, actions[..2]) == Step(triggers, Run(triggers, actions[..1]), actions[1]);
  }

  lemma FirstRun(triggers: seq<Trigger>, i: nat, actions: seq<Action>) returns (s: State)
    requires i < |triggers| && |actions| == 3
    requires actions[0] == Claim(i, true) && actions[1] == CallPeer(i, 100) && actions[2] == Finish(i, Okay, true)
    ensures s == Run(triggers, actions) && s.rows == [Row(triggers[i].id, triggers[i].key, Okay, 100)] && s.spent == 100
    ensures s.phases[i].Finished? && Alone(triggers, s, i)
  {
    RunOfThree(triggers, actions);
    var s1 := Step(triggers, Start(|triggers|), actions[0]);
    FirstClaim(triggers, i, s1);
    var s2 := Step(triggers, s1, actions[1]);
    OneCall(triggers, s1, i, 100, s2);
    s := Step(triggers, s2, actions[2]);
    OneFinish(triggers, s2, i, s1.rows[0], s);
  }

  lemma Adopting(triggers: seq<Trigger>, s: State, i: nat, j: nat, before: seq<Action>, actions: seq<Action>) returns (t: State)
    requires j < |triggers| && i < |triggers| && triggers[j].force && s == Run(triggers, before) && s.phases[j] == Idle
    requires s.rows == [Row(triggers[i].id, triggers[j].key, Okay, 100)] && actions == before + [Claim(j, true), ReadBack(j, true)]
    requires forall k :: 0 <= k < |triggers| && k != j ==> !s.phases[k].Executing?
    ensures t == Run(triggers, actions) && t.rows == s.rows && t.spent == s.spent && t.used[j] == 0
    ensures t.phases[j] == Executing(Row(triggers[i].id, triggers[j].key, Running, 0))
    ensures forall k :: 0 <= k < |triggers| && k != j ==> !t.phases[k].Executing?
  {
    assert s.rows[0].key == triggers[j].key;
    t := OneMore(triggers, before, Claim(j, true), before + [Claim(j, true)]);
    t := OneMore(triggers, before + [Claim(j, true)], ReadBack(j, true), actions);
  }

  lemma SecondRun(triggers: seq<Trigger>, s: State, j: nat, id: string, before: seq<Action>, actions: seq<Action>) returns (t: State)
    requires j < |triggers| && s == Run(triggers, before) && actions == before + [CallPeer(j, 10), Finish(j, Okay, true)]
    requires s.rows == [Row(id, triggers[j].key, Okay, 100)] && s.used[j] == 0
    requires s.phases[j] == Executing(Row(id, triggers[j].key, Running, 0))
    requires forall k :: 0 <= k < |triggers| && k != j ==> !s.phases[k].Executing?
    ensures t == Run(triggers, actions) && t.rows == [Row(id, triggers[j].key, Okay, 10)] && t.spent == s.spent + 10
    ensures NobodyExecutes(t)
  {
    var called := OneMore(triggers, before, CallPeer(j, 10), before + [CallPeer(j, 10)]);
    OneCall(triggers, s, j, 10, called);
    t := OneMore(triggers, before + [CallPeer(j, 10)], Finish(j, Okay, true), actions);
    OneFinish(triggers, called, j, s.rows[0], t);
  }

  /** A run that finishes returns its row with the status it ended in and what its peers cost,
      and that is what it writes. */
  lemma FinishReturnsWhatItWrites(triggers: seq<Trigger>, s: State, i: nat, status: RunStatus, dbOk: bool)
    requires Invariant(triggers, s) && i < |triggers| && s.phases[i].Executing? && status != Running
    ensures var t, was := Step(triggers, s, Finish(i, status, dbOk)), s.phases[i].record;
      && t.phases[i] == Finished(Row(was.id, was.key, status, s.used[i]))
      && (if dbOk then CreditsAt(t.rows, was.id) == s.used[i] && HasStatus(t.rows, was.id, status) else t.rows == s.rows)
  {
    assert PhaseSound(s.rows, triggers[i], s.phases[i], s.calls[i]);
    if dbOk {
      UpdatedHas(s.rows, s.phases[i].record.id, status, s.used[i]);
      UpdatedStatus(s.rows, s.phases[i].record.id, status, s.used[i]);
    }
  }

  ghost predicate HasStatus(rows: seq<Row>, id: string, status: RunStatus) {
    exists k :: 0 <= k < |rows| && rows[k].id == id && rows[k].status == status
  }

  lemma {:induction false} UpdatedHas(rows: seq<Row>, id: string, status: RunStatus, credits: nat)
    requires UniqueKeys(rows) && IdTaken(rows, id)
    ensures CreditsAt(Updated(rows, id, status, credits), id) == credits
  {
    var rest, last := rows[..|rows| - 1], rows[|rows| - 1];
    UpdateOfPrefix(rows, id, status, credits);
    if last.id == id {
      PrefixIds(rows, id);
      CreditsAtAbsent(rest, id);
    } else {
      var k :| 0 <= k < |rows| && rows[k].id == id;
      assert rest[k].id == id;
      UpdatedHas(rest, id, status, credits);
    }
  }

  lemma UpdatedStatus(rows: seq<Row>, id: string, status: RunStatus, credits: nat)
    requires IdTaken(rows, id)
    ensures HasStatus(Updated(rows, id, status, credits), id, status)
  {
    var k :| 0 <= k < |rows| && rows[k].id == id;
    assert Updated(rows, id, status, credits)[k] == rows[k].(status := status, credits := credits);
  }

  /** With every run over and every write done, the persisted total is what was spent. */
  ghost predicate TotalIsExact(triggers: seq<Trigger>, actions: seq<Action>) {
    Persisted(Run(triggers, actions).rows) == Run(triggers, actions).spent
  }

  /** Exactly when the persisted total is what the triggers really spent, in every interleaving
      whose writes reach the table and at whose end no run is under way: when no forced trigger
      has its brand, kind and bucket in common with another trigger. */
  lemma PersistedTotalIsExactWhen(triggers: seq<Trigger>)
    requires FreshIds(triggers)
    ensures (forall actions :: WritesSucceed(actions) && NobodyExecutes(Run(triggers, actions)) ==> TotalIsExact(triggers, actions)) <==>
            ForcedAreAlone(triggers)
  {
    if ForcedAreAlone(triggers) {
      forall actions | WritesSucceed(actions) && NobodyExecutes(Run(triggers, actions)) ensures TotalIsExact(triggers, actions) {
        RunsStaySeparate(triggers, actions);
        NothingIsLost(triggers, actions);
        SpendIsAccountedFor(triggers, actions);
        NothingInFlight(Run(triggers, actions).phases, Run(triggers, actions).used);
      }
    } else {
      var i, j :| 0 <= i < |triggers| && 0 <= j < |triggers| && i != j && triggers[j].force && triggers[i].key == triggers[j].key;
      ForcedRerunForgetsSpend(triggers, i, j);
      assert WritesSucceed(ForcedRerun(i, j)) && !TotalIsExact(triggers, ForcedRerun(i, j));
    }
  }
}
