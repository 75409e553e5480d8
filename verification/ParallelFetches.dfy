/** Overlapping fetches of one client: `fetch` of `internal/anakin/http.go` as the steps
  between which another goroutine of the same client may run.

  The memo and the statistics are each touched under the client's mutex, a spend runs under
  the budget's, and every SQL statement is atomic. Nothing else is. */
module ParallelFetches {
  import opened Outcomes
  import opened CreditBudget
  import opened FetchClient

  /** Where one fetch stands, and what it does next: look into the memo, read the table, spend,
      load, write the table, remember, count. `paid` tells a live answer from a hit, and `held`
      whether a failed fetch had its credits accepted. */
  datatype Phase =
    | Starting
    | Missed
    | Uncached
    | Loading
    | Writing(payload: string)
    | Keeping(payload: string, paid: bool)
    | Counting(payload: string, paid: bool)
    | Done(payload: string, paid: bool)
    | Gone(held: bool)

  datatype State = State(ledger: Ledger, memo: map<string, string>, rows: Rows, credits: nat, hits: nat, phases: seq<Phase>)

  /** One step of fetch `i`, with what the world would answer, or rows of another process. */
  datatype Action = Act(i: nat, world: World) | Interfere(rival: Rows)

  function Start(n: nat, hasPool: bool, ceiling: int): State {
    State(NewLedger(hasPool, ceiling), map[], map[], 0, 0, seq(n, i => Starting))
  }

  function To(s: State, i: nat, p: Phase): State
    requires i < |s.phases|
  {
    s.(phases := s.phases[i := p])
  }

  function Advance(r: Request, useTable: bool, s: State, i: nat, w: World): State
    requires i < |s.phases|
  {
    match s.phases[i]
    case Starting =>
      if KeyOf(r) in s.memo then To(s, i, Counting(s.memo[KeyOf(r)], false))
      else To(s, i, if useTable then Missed else Uncached)
    case Missed =>
      if !w.cacheReadable then To(s, i, Gone(false))
      else To(s, i, if RowKey(r) in s.rows then Keeping(s.rows[RowKey(r)], false) else Uncached)
    case Uncached =>
      var (ledger, verdict) := Spent(s.ledger, r.cost, w.db);
      To(s.(ledger := ledger), i, if verdict.Accepted? then Loading else Gone(false))
    case Loading =>
      if w.fetched.None? then To(s, i, Gone(true))
      else To(s, i, if useTable then Writing(w.fetched.value) else Keeping(w.fetched.value, true))
    case Writing(payload) =>
      if !w.cacheWritable then To(s, i, Gone(true))
      else To(s.(rows := InsertOrIgnore(s.rows, RowKey(r), payload)), i, Keeping(payload, true))
    case Keeping(payload, paid) =>
      To(s.(memo := s.memo[KeyOf(r) := payload]), i, Counting(payload, paid))
    case Counting(payload, paid) =>
      To(if paid then s.(credits := s.credits + r.cost) else s.(hits := s.hits + 1), i, Done(payload, paid))
    case Done(_, _) => s
    case Gone(_) => s
  }

  function Step(requests: seq<Request>, useTable: bool, s: State, a: Action): (t: State)
    requires |s.phases| == |requests|
    ensures |t.phases| == |requests|
  {
    match a
    case Interfere(rival) => s.(rows := WithRival(s.rows, rival))
    case Act(i, world) => if i < |requests| then Advance(requests[i], useTable, s, i, world) else s
  }

  function Run(requests: seq<Request>, useTable: bool, s: State, actions: seq<Action>): (t: State)
    requires |s.phases| == |requests|
    ensures |t.phases| == |requests|
  {
    if |actions| == 0 then s
    else Step(requests, useTable, Run(requests, useTable, s, actions[..|actions| - 1]), actions[|actions| - 1])
  }

  // ---------------------------------------------------------------- one fetch alone

  function ClientOf(s: State, useTable: bool): Client { Client(s.ledger, s.memo, s.credits, s.hits, useTable) }

  function ResultOf(p: Phase): Result<string> { if p.Done? then Success(p.payload) else Failure }

  /** Steps of fetch `i` alone, and rows of other processes. */
  ghost predicate OnlyOf(i: nat, w: World, actions: seq<Action>) {
    forall k :: 0 <= k < |actions| ==> actions[k] == Act(i, w) || actions[k] == Interfere(w.rival)
  }

  /** From `s` these steps of fetch `i` lead to `t`. */
  ghost predicate Leads(requests: seq<Request>, useTable: bool, s: State, t: State, i: nat, w: World) {
    |s.phases| == |requests| &&
    exists actions :: OnlyOf(i, w, actions) && Run(requests, useTable, s, actions) == t
  }

  lemma RunMore(requests: seq<Request>, useTable: bool, s: State, actions: seq<Action>, a: Action)
    requires |s.phases| == |requests|
    ensures Run(requests, useTable, s, actions + [a]) == Step(requests, useTable, Run(requests, useTable, s, actions), a)
  {
    assert (actions + [a])[..|actions|] == actions;
  }

  lemma LeadsOn(requests: seq<Request>, useTable: bool, s: State, t: State, i: nat, w: World, a: Action)
    requires Leads(requests, useTable, s, t, i, w) && (a == Act(i, w) || a == Interfere(w.rival))
    ensures |t.phases| == |requests| && Leads(requests, useTable, s, Step(requests, useTable, t, a), i, w)
  {
    var actions :| OnlyOf(i, w, actions) && Run(requests, useTable, s, actions) == t;
    RunMore(requests, useTable, s, actions, a);
    assert OnlyOf(i, w, actions + [a]);
  }

  /** A step of the fetch. */
  lemma LeadsAct(requests: seq<Request>, useTable: bool, s: State, t: State, i: nat, w: World) returns (u: State)
    requires i < |requests| && Leads(requests, useTable, s, t, i, w)
    ensures |t.phases| == |requests| && u == Advance(requests[i], useTable, t, i, w)
    ensures Leads(requests, useTable, s, u, i, w)
  {
    LeadsOn(requests, useTable, s, t, i, w, Act(i, w));
    u := Step(requests, useTable, t, Act(i, w));
  }

  lemma ToTwice(s: State, i: nat, p: Phase, q: Phase)
    requires i < |s.phases|
    ensures To(To(s, i, p), i, q) == To(s, i, q)
  {
    assert s.phases[i := p][i := q] == s.phases[i := q];
  }

  /** Where the memo and the table leave a fetch. */
  function LookedUp(r: Request, useTable: bool, s: State, w: World): Phase {
    if KeyOf(r) in s.memo then Counting(s.memo[KeyOf(r)], false)
    else if useTable && !w.cacheReadable then Gone(false)
    else if useTable && RowKey(r) in s.rows then Keeping(s.rows[RowKey(r)], false)
    else Uncached
  }

  lemma LooksUp(requests: seq<Request>, useTable: bool, s: State, i: nat, w: World) returns (t: State)
    requires |s.phases| == |requests| && i < |requests| && s.phases[i] == Starting
    ensures t == To(s, i, LookedUp(requests[i], useTable, s, w)) && Leads(requests, useTable, s, t, i, w)
  {
    assert OnlyOf(i, w, []) && Run(requests, useTable, s, []) == s;
    t := LeadsAct(requests, useTable, s, s, i, w);
    if t.phases[i].Missed? {
      t := LeadsAct(requests, useTable, s, t, i, w);
      ToTwice(s, i, Missed, LookedUp(requests[i], useTable, s, w));
    }
  }

  /** The state after a spend, a load and a write that nothing else overlaps. */
  function PaidFor(r: Request, useTable: bool, s: State, i: nat, w: World): State
    requires i < |s.phases|
  {
    var (ledger, verdict) := Spent(s.ledger, r.cost, w.db);
    var held := s.(ledger := ledger);
    if !verdict.Accepted? then To(held, i, Gone(false))
    else
      var later := held.(rows := WithRival(s.rows, w.rival));
      if w.fetched.None? || (useTable && !w.cacheWritable) then To(later, i, Gone(true))
      else To(later.(rows := if useTable then InsertOrIgnore(later.rows, RowKey(r), w.fetched.value) else later.rows), i,
              Keeping(w.fetched.value, true))
  }

  lemma Pays(requests: seq<Request>, useTable: bool, s: State, u: State, i: nat, w: World) returns (t: State)
    requires Leads(requests, useTable, s, u, i, w) && i < |requests| == |u.phases| && u.phases[i] == Uncached
    ensures t == PaidFor(requests[i], useTable, u, i, w) && Leads(requests, useTable, s, t, i, w)
  {
    t := LeadsAct(requests, useTable, s, u, i, w);
    if t.phases[i].Loading? {
      LeadsOn(requests, useTable, s, t, i, w, Interfere(w.rival));
      t := LoadsAndWrites(requests, useTable, s, t.(rows := WithRival(t.rows, w.rival)), i, w);
      ToTwice(u, i, Loading, t.phases[i]);
    }
  }

  lemma LoadsAndWrites(requests: seq<Request>, useTable: bool, s: State, u: State, i: nat, w: World) returns (t: State)
    requires Leads(requests, useTable, s, u, i, w) && i < |requests| == |u.phases| && u.phases[i] == Loading
    ensures Leads(requests, useTable, s, t, i, w)
    ensures t == if w.fetched.None? || (useTable && !w.cacheWritable) then To(u, i, Gone(true))
      else To(u.(rows := if useTable then InsertOrIgnore(u.rows, RowKey(requests[i]), w.fetched.value) else u.rows), i,
              Keeping(w.fetched.value, true))
  {
    t := LeadsAct(requests, useTable, s, u, i, w);
    if t.phases[i].Writing? {
      t := LeadsAct(requests, useTable, s, t, i, w);
      ToTwice(u, i, Writing(w.fetched.value), t.phases[i]);
    }
  }

  /** The state after a payload was remembered and counted. */
  function Counted(r: Request, s: State, i: nat, payload: string, paid: bool): State
    requires i < |s.phases|
  {
    var kept := s.(memo := s.memo[KeyOf(r) := payload]);
    To(if paid then kept.(credits := s.credits + r.cost) else kept.(hits := s.hits + 1), i, Done(payload, paid))
  }

  lemma RemembersAndCounts(requests: seq<Request>, useTable: bool, s: State, u: State, i: nat, w: World, payload: string, paid: bool)
    returns (t: State)
    requires Leads(requests, useTable, s, u, i, w) && i < |requests| == |u.phases|
    requires u.phases[i] == Keeping(payload, paid) ||
      (u.phases[i] == Counting(payload, paid) && KeyOf(requests[i]) in u.memo && u.memo[KeyOf(requests[i])] == payload)
    ensures t == Counted(requests[i], u, i, payload, paid) && Leads(requests, useTable, s, t, i, w)
  {
    t := u;
    if t.phases[i].Keeping? {
      t := LeadsAct(requests, useTable, s, t, i, w);
    }
    assert u.memo[KeyOf(requests[i]) := payload] == t.memo;
    t := LeadsAct(requests, useTable, s, t, i, w);
    ToTwice(u, i, Counting(payload, paid), Done(payload, paid));
  }

  /** The three parts of a fetch in a row. */
  function InOneGo(r: Request, useTable: bool, s: State, i: nat, w: World): State
    requires i < |s.phases|
  {
    var looked := To(s, i, LookedUp(r, useTable, s, w));
    var got := if looked.phases[i].Uncached? then PaidFor(r, useTable, looked, i, w) else looked;
    if got.phases[i].Keeping? || got.phases[i].Counting?
    then Counted(r, got, i, got.phases[i].payload, got.phases[i].paid) else got
  }

  ghost predicate IsFetched(t: State, r: Request, useTable: bool, s: State, i: nat, w: World)
    requires i < |s.phases|
  {
    && OthersSame(s, t, i)
    && (ClientOf(t, useTable), t.rows, ResultOf(t.phases[i])) == Fetched(ClientOf(s, useTable), s.rows, r, w)
    && (t.phases[i].Done? || t.phases[i].Gone?)
  }

  /** Only the phase of fetch `i` differs. */
  ghost predicate OthersSame(s: State, t: State, i: nat) {
    |t.phases| == |s.phases| && forall k :: 0 <= k < |s.phases| && k != i ==> t.phases[k] == s.phases[k]
  }

  lemma PaidForMovesOne(r: Request, useTable: bool, s: State, i: nat, w: World)
    requires i < |s.phases|
    ensures OthersSame(s, PaidFor(r, useTable, s, i, w), i)
  {
  }

  lemma OthersStay(r: Request, useTable: bool, s: State, i: nat, w: World)
    requires i < |s.phases|
    ensures OthersSame(s, InOneGo(r, useTable, s, i, w), i)
  {
    var looked := To(s, i, LookedUp(r, useTable, s, w));
    PaidForMovesOne(r, useTable, looked, i, w);
    var got := if looked.phases[i].Uncached? then PaidFor(r, useTable, looked, i, w) else looked;
    assert OthersSame(s, got, i);
  }

  lemma PaidIsFetched(r: Request, useTable: bool, s: State, i: nat, w: World)
    requires i < |s.phases| && LookedUp(r, useTable, s, w) == Uncached
    ensures IsFetched(InOneGo(r, useTable, s, i, w), r, useTable, s, i, w)
  {
    OthersStay(r, useTable, s, i, w);
    var got := PaidFor(r, useTable, To(s, i, Uncached), i, w);
    if got.phases[i].Gone? {
      assert InOneGo(r, useTable, s, i, w) == got;
    } else {
      assert InOneGo(r, useTable, s, i, w) == Counted(r, got, i, w.fetched.value, true);
    }
  }

  lemma InOneGoIsFetched(r: Request, useTable: bool, s: State, i: nat, w: World)
    requires i < |s.phases|
    ensures IsFetched(InOneGo(r, useTable, s, i, w), r, useTable, s, i, w)
  {
    if KeyOf(r) in s.memo {
      assert s.memo[KeyOf(r) := s.memo[KeyOf(r)]] == s.memo;
    } else if LookedUp(r, useTable, s, w) == Uncached {
      PaidIsFetched(r, useTable, s, i, w);
    }
  }

  /** Fetches that do not overlap are the sequential ones: from any state, the steps of one
      fetch alone lead to the client, the table and the result of `FetchClient.Fetched`. */
  lemma AloneIsFetched(requests: seq<Request>, useTable: bool, s: State, i: nat, w: World) returns (t: State)
    requires |s.phases| == |requests| && i < |requests| && s.phases[i] == Starting
    ensures Leads(requests, useTable, s, t, i, w) && IsFetched(t, requests[i], useTable, s, i, w)
  {
    t := RunsInOneGo(requests, useTable, s, i, w);
    InOneGoIsFetched(requests[i], useTable, s, i, w);
  }

  lemma RunsInOneGo(requests: seq<Request>, useTable: bool, s: State, i: nat, w: World) returns (t: State)
    requires |s.phases| == |requests| && i < |requests| && s.phases[i] == Starting
    ensures Leads(requests, useTable, s, t, i, w) && t == InOneGo(requests[i], useTable, s, i, w)
  {
    t := LooksUp(requests, useTable, s, i, w);
    if t.phases[i].Uncached? {
      t := Pays(requests, useTable, s, t, i, w);
    }
    if t.phases[i].Keeping? || t.phases[i].Counting? {
      t := RemembersAndCounts(requests, useTable, s, t, i, w, t.phases[i].payload, t.phases[i].paid);
    }
  }

  // ---------------------------------------------------------------- over every interleaving

  /** The budget has accepted this fetch's cost. */
  predicate Holds(p: Phase) {
    match p
    case Loading | Writing(_) => true
    case Keeping(_, paid) => paid
    case Counting(_, paid) => paid
    case Done(_, paid) => paid
    case Gone(held) => held
    case _ => false
  }

  predicate IsPaid(p: Phase) { p.Done? && p.paid }

  predicate IsHit(p: Phase) { p.Done? && !p.paid }

  /** What the fetches in the chosen phases cost together. */
  function CostOf(pick: Phase -> bool, costs: seq<nat>, phases: seq<Phase>): nat
    requires |costs| == |phases|
  {
    if |phases| == 0 then 0
    else
      var last := |phases| - 1;
      CostOf(pick, costs[..last], phases[..last]) + (if pick(phases[last]) then costs[last] else 0)
  }

  lemma {:induction false} CostAfter(pick: Phase -> bool, costs: seq<nat>, phases: seq<Phase>, i: nat, p: Phase)
    requires |costs| == |phases| && i < |phases|
    ensures CostOf(pick, costs, phases[i := p]) + (if pick(phases[i]) then costs[i] else 0) ==
      CostOf(pick, costs, phases) + (if pick(p) then costs[i] else 0)
  {
    var last := |phases| - 1;
    if i == last {
      assert phases[i := p][..last] == phases[..last];
    } else {
      assert phases[i := p][..last] == phases[..last][i := p];
      CostAfter(pick, costs[..last], phases[..last], i, p);
    }
  }

  lemma {:induction false} NothingYet(pick: Phase -> bool, costs: seq<nat>, phases: seq<Phase>)
    requires |costs| == |phases| && forall k :: 0 <= k < |phases| ==> !pick(phases[k])
    ensures CostOf(pick, costs, phases) == 0
  {
    if |phases| > 0 {
      NothingYet(pick, costs[..|phases| - 1], phases[..|phases| - 1]);
    }
  }

  function Costs(requests: seq<Request>): (costs: seq<nat>)
    ensures |costs| == |requests|
  {
    seq(|requests|, k requires 0 <= k < |requests| => requests[k].cost)
  }

  function Ones(n: nat): (ones: seq<nat>)
    ensures |ones| == n
  {
    seq(n, k => 1)
  }

  /** The ledger has what was accepted, the statistics what was counted. */
  ghost predicate Balanced(requests: seq<Request>, s: State) {
    && |s.phases| == |requests|
    && CreditBudget.Sound(s.ledger)
    && s.ledger.inProcess == CostOf(Holds, Costs(requests), s.phases)
    && s.credits == CostOf(IsPaid, Costs(requests), s.phases)
    && s.hits == CostOf(IsHit, Ones(|requests|), s.phases)
  }

  ghost predicate Answerable(a: Action) { a.Act? ==> NonNegative(a.world.db) }

  ghost predicate AllAnswerable(actions: seq<Action>) {
    forall k :: 0 <= k < |actions| ==> Answerable(actions[k])
  }

  /** What one step moves in the ledger and in the statistics. */
  ghost predicate Moves(s: State, t: State, i: nat, cost: nat)
    requires i < |s.phases|
  {
    && |t.phases| == |s.phases| && t.phases == s.phases[i := t.phases[i]] && CreditBudget.Sound(t.ledger)
    && t.ledger.inProcess + (if Holds(s.phases[i]) then cost else 0) == s.ledger.inProcess + (if Holds(t.phases[i]) then cost else 0)
    && t.credits + (if IsPaid(s.phases[i]) then cost else 0) == s.credits + (if IsPaid(t.phases[i]) then cost else 0)
    && t.hits + (if IsHit(s.phases[i]) then 1 else 0) == s.hits + (if IsHit(t.phases[i]) then 1 else 0)
  }

  /** So does a step of these numbers from phase `p` to phase `q`. */
  ghost predicate Amounts(s: State, ledger: Ledger, credits: nat, hits: nat, p: Phase, q: Phase, cost: nat) {
    && CreditBudget.Sound(ledger)
    && ledger.inProcess + (if Holds(p) then cost else 0) == s.ledger.inProcess + (if Holds(q) then cost else 0)
    && credits + (if IsPaid(p) then cost else 0) == s.credits + (if IsPaid(q) then cost else 0)
    && hits + (if IsHit(p) then 1 else 0) == s.hits + (if IsHit(q) then 1 else 0)
  }

  lemma ToMoves(s: State, base: State, i: nat, q: Phase, cost: nat)
    requires i < |s.phases| && base.phases == s.phases && Amounts(s, base.ledger, base.credits, base.hits, s.phases[i], q, cost)
    ensures Moves(s, To(base, i, q), i, cost)
  {
  }

  lemma SpendMoves(r: Request, useTable: bool, s: State, i: nat, w: World)
    requires i < |s.phases| && s.phases[i] == Uncached && CreditBudget.Sound(s.ledger) && NonNegative(w.db)
    ensures Moves(s, Advance(r, useTable, s, i, w), i, r.cost)
  {
    SpendIsSound(s.ledger, r.cost, w.db);
    var (ledger, verdict) := Spent(s.ledger, r.cost, w.db);
    ToMoves(s, s.(ledger := ledger), i, if verdict.Accepted? then Loading else Gone(false), r.cost);
  }

  lemma LookMoves(r: Request, useTable: bool, s: State, i: nat, w: World)
    requires i < |s.phases| && (s.phases[i] == Starting || s.phases[i] == Missed) && CreditBudget.Sound(s.ledger)
    ensures Moves(s, Advance(r, useTable, s, i, w), i, r.cost)
  {
    ToMoves(s, s, i, Advance(r, useTable, s, i, w).phases[i], r.cost);
  }

  lemma LoadMoves(r: Request, useTable: bool, s: State, i: nat, w: World)
    requires i < |s.phases| && (s.phases[i].Loading? || s.phases[i].Writing? || s.phases[i].Keeping?) && CreditBudget.Sound(s.ledger)
    ensures Moves(s, Advance(r, useTable, s, i, w), i, r.cost)
  {
    var t := Advance(r, useTable, s, i, w);
    ToMoves(s, s.(rows := t.rows, memo := t.memo), i, t.phases[i], r.cost);
  }

  lemma CountMoves(r: Request, useTable: bool, s: State, i: nat, w: World)
    requires i < |s.phases| && s.phases[i].Counting? && CreditBudget.Sound(s.ledger)
    ensures Moves(s, Advance(r, useTable, s, i, w), i, r.cost)
  {
    var t := Advance(r, useTable, s, i, w);
    ToMoves(s, s.(credits := t.credits, hits := t.hits), i, t.phases[i], r.cost);
  }

  lemma AdvanceMoves(r: Request, useTable: bool, s: State, i: nat, w: World)
    requires i < |s.phases| && CreditBudget.Sound(s.ledger) && NonNegative(w.db)
    ensures Moves(s, Advance(r, useTable, s, i, w), i, r.cost)
  {
    match s.phases[i]
    case Starting => LookMoves(r, useTable, s, i, w);
    case Missed => LookMoves(r, useTable, s, i, w);
    case Uncached => SpendMoves(r, useTable, s, i, w);
    case Loading => LoadMoves(r, useTable, s, i, w);
    case Writing(_) => LoadMoves(r, useTable, s, i, w);
    case Keeping(_, _) => LoadMoves(r, useTable, s, i, w);
    case Counting(_, _) => CountMoves(r, useTable, s, i, w);
    case _ => assert s.phases[i := s.phases[i]] == s.phases;
  }

  lemma MovesKeepBalance(requests: seq<Request>, s: State, t: State, i: nat)
    requires Balanced(requests, s) && i < |requests| && Moves(s, t, i, requests[i].cost)
    ensures Balanced(requests, t)
  {
    CostAfter(Holds, Costs(requests), s.phases, i, t.phases[i]);
    CostAfter(IsPaid, Costs(requests), s.phases, i, t.phases[i]);
    CostAfter(IsHit, Ones(|requests|), s.phases, i, t.phases[i]);
  }

  lemma StartsBalanced(requests: seq<Request>, hasPool: bool, ceiling: int)
    ensures Balanced(requests, Start(|requests|, hasPool, ceiling))
  {
    var s := Start(|requests|, hasPool, ceiling);
    NothingYet(Holds, Costs(requests), s.phases);
    NothingYet(IsPaid, Costs(requests), s.phases);
    NothingYet(IsHit, Ones(|requests|), s.phases);
  }

  /** However the fetches of one client overlap, the ledger holds exactly the costs of the
      fetches whose spend was accepted, the credits exactly those of the paid ones that came
      back, and the hits their number; and the ledger stays within the ceiling. */
  lemma {:induction false} EveryInterleavingBalances(requests: seq<Request>, useTable: bool, hasPool: bool, ceiling: int, actions: seq<Action>)
    requires AllAnswerable(actions)
    ensures var s := Run(requests, useTable, Start(|requests|, hasPool, ceiling), actions);
      Balanced(requests, s) && s.credits <= s.ledger.inProcess && (s.ledger.inProcess > 0 ==> s.ledger.inProcess <= s.ledger.ceiling)
  {
    if |actions| == 0 {
      StartsBalanced(requests, hasPool, ceiling);
    } else {
      var earlier, a := actions[..|actions| - 1], actions[|actions| - 1];
      EveryInterleavingBalances(requests, useTable, hasPool, ceiling, earlier);
      var s := Run(requests, useTable, Start(|requests|, hasPool, ceiling), earlier);
      if a.Act? && a.i < |requests| {
        AdvanceMoves(requests[a.i], useTable, s, a.i, a.world);
        MovesKeepBalance(requests, s, Step(requests, useTable, s, a), a.i);
      }
    }
    var s := Run(requests, useTable, Start(|requests|, hasPool, ceiling), actions);
    PaidIsHeld(Costs(requests), s.phases);
  }

  lemma {:induction false} PaidIsHeld(costs: seq<nat>, phases: seq<Phase>)
    requires |costs| == |phases|
    ensures CostOf(IsPaid, costs, phases) <= CostOf(Holds, costs, phases)
  {
    if |phases| > 0 {
      PaidIsHeld(costs[..|phases| - 1], phases[..|phases| - 1]);
    }
  }

  // ---------------------------------------------------------------- one key, two fetches

  /** A fetch that began after its key was remembered: it can only be a hit. */
  predicate FreeRide(p: Phase) {
    p == Starting || (p.Counting? && !p.paid) || IsHit(p)
  }

  lemma MemoOnlyGrows(r: Request, useTable: bool, s: State, i: nat, w: World, key: string)
    requires i < |s.phases| && key in s.memo
    ensures key in Advance(r, useTable, s, i, w).memo
  {
  }

  lemma StepKeepsFreeRide(requests: seq<Request>, useTable: bool, s: State, a: Action, j: nat)
    requires |s.phases| == |requests| && j < |requests| && KeyOf(requests[j]) in s.memo && FreeRide(s.phases[j])
    ensures var t := Step(requests, useTable, s, a); KeyOf(requests[j]) in t.memo && FreeRide(t.phases[j])
  {
    if a.Act? && a.i < |requests| {
      MemoOnlyGrows(requests[a.i], useTable, s, a.i, a.world, KeyOf(requests[j]));
      if a.i != j {
        assert Advance(requests[a.i], useTable, s, a.i, a.world).phases[j] == s.phases[j];
      }
    }
  }

  lemma {:induction false} RidesStayFree(requests: seq<Request>, useTable: bool, s: State, later: seq<Action>, j: nat)
    requires |s.phases| == |requests| && j < |requests| && KeyOf(requests[j]) in s.memo && FreeRide(s.phases[j])
    ensures var t := Run(requests, useTable, s, later); KeyOf(requests[j]) in t.memo && FreeRide(t.phases[j])
  {
    if |later| > 0 {
      RidesStayFree(requests, useTable, s, later[..|later| - 1], j);
      StepKeepsFreeRide(requests, useTable, Run(requests, useTable, s, later[..|later| - 1]), later[|later| - 1], j);
    }
  }

  /** What came back is remembered. */
  ghost predicate Remembered(requests: seq<Request>, s: State) {
    |s.phases| == |requests| &&
    forall k :: 0 <= k < |requests| && (s.phases[k].Counting? || s.phases[k].Done?) ==> KeyOf(requests[k]) in s.memo
  }

  lemma AdvanceRemembers(r: Request, useTable: bool, s: State, i: nat, w: World)
    requires i < |s.phases| && (s.phases[i].Counting? || s.phases[i].Done? ==> KeyOf(r) in s.memo)
    ensures var t := Advance(r, useTable, s, i, w);
      && i < |t.phases| && (t.phases[i].Counting? || t.phases[i].Done? ==> KeyOf(r) in t.memo)
      && forall key :: key in s.memo ==> key in t.memo
  {
  }

  lemma AdvanceMovesOne(r: Request, useTable: bool, s: State, i: nat, w: World)
    requires i < |s.phases|
    ensures OthersSame(s, Advance(r, useTable, s, i, w), i)
  {
  }

  lemma {:induction false} RunRemembers(requests: seq<Request>, useTable: bool, s: State, actions: seq<Action>)
    requires Remembered(requests, s)
    ensures Remembered(requests, Run(requests, useTable, s, actions))
  {
    if |actions| > 0 {
      var earlier, a := actions[..|actions| - 1], actions[|actions| - 1];
      RunRemembers(requests, useTable, s, earlier);
      if a.Act? && a.i < |requests| {
        var t := Run(requests, useTable, s, earlier);
        AdvanceRemembers(requests[a.i], useTable, t, a.i, a.world);
        AdvanceMovesOne(requests[a.i], useTable, t, a.i, a.world);
      }
    }
  }

  /** Once a fetch has come back, one of the same key that begins later is never charged,
      whatever else is in flight. */
  lemma LaterFetchesAreFree(requests: seq<Request>, useTable: bool, hasPool: bool, ceiling: int,
                            earlier: seq<Action>, later: seq<Action>, i: nat, j: nat)
    requires i < |requests| && j < |requests| && KeyOf(requests[i]) == KeyOf(requests[j])
    requires var s := Run(requests, useTable, Start(|requests|, hasPool, ceiling), earlier); s.phases[i].Done? && s.phases[j] == Starting
    ensures FreeRide(Run(requests, useTable, Start(|requests|, hasPool, ceiling), earlier + later).phases[j])
  {
    var s := Start(|requests|, hasPool, ceiling);
    RunRemembers(requests, useTable, s, earlier);
    RunInParts(requests, useTable, s, earlier, later);
    RidesStayFree(requests, useTable, Run(requests, useTable, s, earlier), later, j);
  }

  /** No key was paid for twice. */
  ghost predicate PaidOncePerKey(requests: seq<Request>, s: State)
    requires |s.phases| == |requests|
  {
    forall i, j :: 0 <= i < j < |requests| && KeyOf(requests[i]) == KeyOf(requests[j]) ==> !(IsPaid(s.phases[i]) && IsPaid(s.phases[j]))
  }

  /** A fresh budget with this ceiling can accept `n`, given a brand budget large enough. */
  predicate Affordable(hasPool: bool, ceiling: int, n: nat) { if ceiling > 0 then n <= ceiling else hasPool }

  ghost predicate LedgerOf(hasPool: bool, ceiling: int, l: Ledger) {
    && l.hasPool == hasPool && (ceiling > 0 ==> l.ceiling == ceiling)
    && (ceiling <= 0 && !hasPool ==> l.ceiling <= 0 && !l.loaded)
  }

  ghost predicate HoldersLoaded(hasPool: bool, ceiling: int, s: State) {
    LedgerOf(hasPool, ceiling, s.ledger) && forall k :: 0 <= k < |s.phases| && Holds(s.phases[k]) ==> s.ledger.loaded
  }

  lemma SpentKeepsLedgerOf(hasPool: bool, ceiling: int, l: Ledger, n: nat, db: Reads)
    requires LedgerOf(hasPool, ceiling, l)
    ensures var (m, verdict) := Spent(l, n, db);
      LedgerOf(hasPool, ceiling, m) && (l.loaded ==> m.loaded) && (verdict.Accepted? ==> m.loaded)
  {
  }

  lemma AdvanceLoads(r: Request, useTable: bool, hasPool: bool, ceiling: int, s: State, i: nat, w: World)
    requires i < |s.phases| && LedgerOf(hasPool, ceiling, s.ledger)
    ensures var t := Advance(r, useTable, s, i, w);
      && LedgerOf(hasPool, ceiling, t.ledger) && (s.ledger.loaded ==> t.ledger.loaded)
      && i < |t.phases| && (Holds(t.phases[i]) ==> Holds(s.phases[i]) || t.ledger.loaded)
  {
    var t := Advance(r, useTable, s, i, w);
    if s.phases[i].Uncached? {
      SpentKeepsLedgerOf(hasPool, ceiling, s.ledger, r.cost, w.db);
    } else {
      assert t.ledger == s.ledger;
    }
  }

  lemma AdvanceKeepsLoaded(r: Request, useTable: bool, hasPool: bool, ceiling: int, s: State, i: nat, w: World)
    requires i < |s.phases| && HoldersLoaded(hasPool, ceiling, s)
    ensures HoldersLoaded(hasPool, ceiling, Advance(r, useTable, s, i, w))
  {
    AdvanceLoads(r, useTable, hasPool, ceiling, s, i, w);
    AdvanceMovesOne(r, useTable, s, i, w);
  }

  lemma {:induction false} RunKeepsLoaded(requests: seq<Request>, useTable: bool, hasPool: bool, ceiling: int, actions: seq<Action>)
    ensures HoldersLoaded(hasPool, ceiling, Run(requests, useTable, Start(|requests|, hasPool, ceiling), actions))
  {
    if |actions| > 0 {
      var earlier, a := actions[..|actions| - 1], actions[|actions| - 1];
      RunKeepsLoaded(requests, useTable, hasPool, ceiling, earlier);
      if a.Act? && a.i < |requests| {
        AdvanceKeepsLoaded(requests[a.i], useTable, hasPool, ceiling, Run(requests, useTable, Start(|requests|, hasPool, ceiling), earlier),
                           a.i, a.world);
      }
    }
  }

  lemma {:induction false} TwoOfMany(pick: Phase -> bool, costs: seq<nat>, phases: seq<Phase>, i: nat, j: nat)
    requires |costs| == |phases| && i < j < |phases| && pick(phases[i]) && pick(phases[j])
    ensures CostOf(pick, costs, phases) >= costs[i] + costs[j]
  {
    var last := |phases| - 1;
    if j == last {
      OneOfMany(pick, costs[..last], phases[..last], i);
    } else {
      TwoOfMany(pick, costs[..last], phases[..last], i, j);
    }
  }

  lemma {:induction false} OneOfMany(pick: Phase -> bool, costs: seq<nat>, phases: seq<Phase>, i: nat)
    requires |costs| == |phases| && i < |phases| && pick(phases[i])
    ensures CostOf(pick, costs, phases) >= costs[i]
  {
    var last := |phases| - 1;
    if i < last {
      OneOfMany(pick, costs[..last], phases[..last], i);
    }
  }

  lemma PaidTwiceIsAffordable(requests: seq<Request>, hasPool: bool, ceiling: int, s: State, i: nat, j: nat)
    requires Balanced(requests, s) && HoldersLoaded(hasPool, ceiling, s) && i < j < |requests|
    requires IsPaid(s.phases[i]) && IsPaid(s.phases[j])
    ensures Affordable(hasPool, ceiling, requests[i].cost + requests[j].cost)
  {
    TwoOfMany(Holds, Costs(requests), s.phases, i, j);
  }

  // ---------------------------------------------------------------- a schedule that pays twice

  ghost predicate Reaches(requests: seq<Request>, useTable: bool, s: State, t: State) {
    |s.phases| == |requests| && exists actions :: AllAnswerable(actions) && Run(requests, useTable, s, actions) == t
  }

  lemma {:induction false} RunInParts(requests: seq<Request>, useTable: bool, s: State, first: seq<Action>, rest: seq<Action>)
    requires |s.phases| == |requests|
    ensures Run(requests, useTable, s, first + rest) == Run(requests, useTable, Run(requests, useTable, s, first), rest)
  {
    if |rest| == 0 {
      assert first + rest == first;
    } else {
      RunInParts(requests, useTable, s, first, rest[..|rest| - 1]);
      assert (first + rest)[..|first + rest| - 1] == first + rest[..|rest| - 1];
    }
  }

  lemma ReachesOn(requests: seq<Request>, useTable: bool, s: State, t: State, u: State, i: nat, w: World)
    requires Reaches(requests, useTable, s, t) && Leads(requests, useTable, t, u, i, w) && NonNegative(w.db)
    ensures Reaches(requests, useTable, s, u)
  {
    var first :| AllAnswerable(first) && Run(requests, useTable, s, first) == t;
    var rest :| OnlyOf(i, w, rest) && Run(requests, useTable, t, rest) == u;
    RunInParts(requests, useTable, s, first, rest);
    assert AllAnswerable(first + rest);
  }

  lemma LeadsNowhere(requests: seq<Request>, useTable: bool, s: State, i: nat, w: World)
    requires |s.phases| == |requests|
    ensures Leads(requests, useTable, s, s, i, w)
  {
    assert OnlyOf(i, w, []) && Run(requests, useTable, s, []) == s;
  }

  function Willing(n: nat): World { World(true, Reads(Some(n), Some(0), Some(0)), Some(""), map[], true) }

  lemma BothAccepted(hasPool: bool, ceiling: int, a: nat, b: nat)
    requires Affordable(hasPool, ceiling, a + b)
    ensures var (l, first) := Spent(NewLedger(hasPool, ceiling), a, Willing(a + b).db);
      first.Accepted? && Spent(l, b, Willing(a + b).db).1.Accepted?
  {
  }

  /** Both fetches have missed the memo and the table. */
  lemma BothMiss(requests: seq<Request>, useTable: bool, s: State, i: nat, j: nat, w: World) returns (t: State)
    requires i < j < |requests| == |s.phases| && s.memo == map[] && s.rows == map[] && s.phases[i] == s.phases[j] == Starting
    requires w.cacheReadable && NonNegative(w.db)
    ensures Reaches(requests, useTable, s, t) && t == To(To(s, i, Uncached), j, Uncached)
  {
    assert AllAnswerable([]) && Run(requests, useTable, s, []) == s;
    t := LooksUp(requests, useTable, s, i, w);
    ReachesOn(requests, useTable, s, s, t, i, w);
    var u := LooksUp(requests, useTable, t, j, w);
    ReachesOn(requests, useTable, s, t, u, j, w);
    t := u;
  }

  /** From there one of them pays. */
  lemma OnePays(requests: seq<Request>, useTable: bool, s: State, u: State, i: nat, w: World) returns (t: State)
    requires Reaches(requests, useTable, s, u) && i < |requests| == |u.phases| && u.phases[i] == Uncached && NonNegative(w.db)
    requires w.fetched == Some("") && w.cacheWritable && Spent(u.ledger, requests[i].cost, w.db).1.Accepted?
    ensures Reaches(requests, useTable, s, t) && OthersSame(u, t, i) && t.phases[i] == Keeping("", true)
    ensures t.ledger == Spent(u.ledger, requests[i].cost, w.db).0
  {
    LeadsNowhere(requests, useTable, u, i, w);
    t := Pays(requests, useTable, u, u, i, w);
    PaidForMovesOne(requests[i], useTable, u, i, w);
    ReachesOn(requests, useTable, s, u, t, i, w);
  }

  /** And comes back. */
  lemma OneReturns(requests: seq<Request>, useTable: bool, s: State, u: State, i: nat, w: World) returns (t: State)
    requires Reaches(requests, useTable, s, u) && i < |requests| == |u.phases| && u.phases[i] == Keeping("", true) && NonNegative(w.db)
    ensures Reaches(requests, useTable, s, t) && OthersSame(u, t, i) && IsPaid(t.phases[i])
  {
    LeadsNowhere(requests, useTable, u, i, w);
    t := RemembersAndCounts(requests, useTable, u, u, i, w, "", true);
    ReachesOn(requests, useTable, s, u, t, i, w);
  }

  lemma BothPay(requests: seq<Request>, useTable: bool, hasPool: bool, ceiling: int, i: nat, j: nat) returns (t: State)
    requires i < j < |requests| && Affordable(hasPool, ceiling, requests[i].cost + requests[j].cost)
    ensures Reaches(requests, useTable, Start(|requests|, hasPool, ceiling), t) && |t.phases| == |requests|
    ensures IsPaid(t.phases[i]) && IsPaid(t.phases[j])
  {
    var s, w := Start(|requests|, hasPool, ceiling), Willing(requests[i].cost + requests[j].cost);
    BothAccepted(hasPool, ceiling, requests[i].cost, requests[j].cost);
    t := BothMiss(requests, useTable, s, i, j, w);
    t := OnePays(requests, useTable, s, t, i, w);
    t := OnePays(requests, useTable, s, t, j, w);
    t := OneReturns(requests, useTable, s, t, i, w);
    t := OneReturns(requests, useTable, s, t, j, w);
  }

  /** Exactly when no interleaving pays twice for a key: when no two requests of one key fit
      the ceiling together. The memo and the table alone do not prevent it, since both fetches
      may look before either has written. */
  lemma NeverPaidTwiceExactlyWhen(requests: seq<Request>, useTable: bool, hasPool: bool, ceiling: int)
    ensures (forall actions :: AllAnswerable(actions) ==>
              PaidOncePerKey(requests, Run(requests, useTable, Start(|requests|, hasPool, ceiling), actions))) <==>
            (forall i, j :: 0 <= i < j < |requests| && KeyOf(requests[i]) == KeyOf(requests[j]) ==>
              !Affordable(hasPool, ceiling, requests[i].cost + requests[j].cost))
  {
    var s := Start(|requests|, hasPool, ceiling);
    if i, j :| (0 <= i < j < |requests| && KeyOf(requests[i]) == KeyOf(requests[j]) &&
                Affordable(hasPool, ceiling, requests[i].cost + requests[j].cost)) {
      var t := BothPay(requests, useTable, hasPool, ceiling, i, j);
      var actions :| AllAnswerable(actions) && Run(requests, useTable, s, actions) == t;
      assert !PaidOncePerKey(requests, Run(requests, useTable, s, actions));
    } else {
      forall actions | AllAnswerable(actions) ensures PaidOncePerKey(requests, Run(requests, useTable, s, actions)) {
        EveryInterleavingBalances(requests, useTable, hasPool, ceiling, actions);
        RunKeepsLoaded(requests, useTable, hasPool, ceiling, actions);
        var t := Run(requests, useTable, s, actions);
        forall i, j | 0 <= i < j < |requests| && KeyOf(requests[i]) == KeyOf(requests[j])
          ensures !(IsPaid(t.phases[i]) && IsPaid(t.phases[j]))
        {
          if IsPaid(t.phases[i]) && IsPaid(t.phases[j]) {
            PaidTwiceIsAffordable(requests, hasPool, ceiling, t, i, j);
            assert false;
          }
        }
      }
    }
  }
}
