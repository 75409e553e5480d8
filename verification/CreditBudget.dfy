/** The credit ceiling of one brand-day: `internal/anakin/budget.go`.

  What Postgres says is an input of every call: other processes finish runs between any
  two reads, so nothing relates one answer to the next. */
module CreditBudget {
  import opened Outcomes

  /** The answers the three queries of one call would get; None is a failed query. */
  datatype Reads = Reads(daily: Option<int>, first: Option<int>, second: Option<int>)

  datatype Verdict = Accepted | Refused | Failed

  /** The fields of a budget as a value. `hasPool` is false in replay. */
  datatype Ledger = Ledger(hasPool: bool, ceiling: int, persisted: int, inProcess: int, loaded: bool)

  function NewLedger(hasPool: bool, ceiling: int): Ledger {
    Ledger(hasPool, ceiling, 0, 0, false)
  }

  // ---------------------------------------------------------------- specification

  /** The ledger after the first-use load, and whether it succeeded. */
  function Loaded(l: Ledger, db: Reads): (Ledger, bool) {
    if l.loaded then (l, true)
    else if !l.hasPool then (if l.ceiling <= 0 then (l, false) else (l.(loaded := true), true))
    else if l.ceiling <= 0 && db.daily.None? then (l, false)
    else
      var c := l.(ceiling := if l.ceiling <= 0 then db.daily.value else l.ceiling);
      if db.first.None? then (c, false) else (c.(persisted := db.first.value, loaded := true), true)
  }

  function Breaches(l: Ledger, n: int): bool { l.persisted + l.inProcess + n > l.ceiling }

  function Spent(l: Ledger, n: int, db: Reads): (Ledger, Verdict) {
    var (m, ok) := Loaded(l, db);
    if !ok then (m, Failed)
    else if !Breaches(m, n) then (m.(inProcess := m.inProcess + n), Accepted)
    else if m.hasPool && db.second.None? then (m, Failed)
    else
      var reread := if m.hasPool then m.(persisted := db.second.value) else m;
      if Breaches(reread, n) then (reread, Refused) else (reread.(inProcess := reread.inProcess + n), Accepted)
  }

  function Left(l: Ledger): nat {
    var left := l.ceiling - l.persisted - l.inProcess;
    if left < 0 then 0 else left
  }

  /** What is left is the most that can still be spent on the totals at hand. */
  lemma RemainingIsWhatFits(l: Ledger, n: int)
    requires n > 0
    ensures n <= Left(l) <==> l.persisted + l.inProcess + n <= l.ceiling
    ensures !Breaches(l, n) <==> l.persisted + l.inProcess + n <= l.ceiling
  {
  }

  // ---------------------------------------------------------------- the code

  class Budget {
    const hasPool: bool
    var ceiling: int
    var persisted: int
    var inProcess: int
    var loaded: bool

    constructor (hasPool: bool, ceiling: int)
      ensures View() == NewLedger(hasPool, ceiling)
    {
      this.hasPool := hasPool;
      this.ceiling := ceiling;
      persisted, inProcess, loaded := 0, 0, false;
    }

    function View(): Ledger
      reads this
    {
      Ledger(hasPool, ceiling, persisted, inProcess, loaded)
    }

    method ReadPersisted(answer: Option<int>) returns (ok: bool)
      modifies this`persisted
      ensures ok <==> !hasPool || answer.Some?
      ensures persisted == if hasPool && answer.Some? then answer.value else old(persisted)
    {
      if !hasPool {
        return true;
      }
      if answer.None? {
        return false;
      }
      persisted := answer.value;
      return true;
    }

    method Load(db: Reads) returns (ok: bool)
      modifies this
      ensures (View(), ok) == Loaded(old(View()), db)
    {
      if loaded {
        return true;
      }
      if !hasPool {
        if ceiling <= 0 {
          return false;
        }
        loaded := true;
        return true;
      }
      if ceiling <= 0 {
        if db.daily.None? {
          return false;
        }
        ceiling := db.daily.value;
      }
      ok := ReadPersisted(db.first);
      if !ok {
        return false;
      }
      loaded := true;
    }

    method Spend(n: int, db: Reads) returns (verdict: Verdict)
      modifies this
      ensures (View(), verdict) == Spent(old(View()), n, db)
    {
      var ok := Load(db);
      if !ok {
        return Failed;
      }
      if persisted + inProcess + n > ceiling {
        ok := ReadPersisted(db.second);
        if !ok {
          return Failed;
        }
        if persisted + inProcess + n > ceiling {
          return Refused;
        }
      }
      inProcess := inProcess + n;
      return Accepted;
    }

    method Remaining(db: Reads) returns (left: Option<nat>)
      modifies this
      ensures View() == Loaded(old(View()), db).0
      ensures left == if Loaded(old(View()), db).1 then Some(Left(View())) else None
    {
      var ok := Load(db);
      if !ok {
        return None;
      }
      var rest := ceiling - persisted - inProcess;
      if rest < 0 {
        return Some(0);
      }
      return Some(rest);
    }
  }

  // ---------------------------------------------------------------- over a whole life

  datatype Event = Spending(n: nat, db: Reads) | Asking(db: Reads)

  function After(l: Ledger, e: Event): Ledger {
    match e
    case Spending(n, db) => Spent(l, n, db).0
    case Asking(db) => Loaded(l, db).0
  }

  function Run(l: Ledger, events: seq<Event>): Ledger {
    if |events| == 0 then l else After(Run(l, events[..|events| - 1]), events[|events| - 1])
  }

  function AcceptedBy(l: Ledger, e: Event): nat {
    if e.Spending? && Spent(l, e.n, e.db).1.Accepted? then e.n else 0
  }

  /** The sum of the accepted spends. */
  function AcceptedSum(l: Ledger, events: seq<Event>): nat {
    if |events| == 0 then 0
    else
      var earlier := events[..|events| - 1];
      AcceptedSum(l, earlier) + AcceptedBy(Run(l, earlier), events[|events| - 1])
  }

  /** Postgres sums non-negative credits. */
  ghost predicate NonNegative(db: Reads) {
    (db.first.Some? ==> db.first.value >= 0) && (db.second.Some? ==> db.second.value >= 0)
  }

  ghost predicate Sound(l: Ledger) {
    && l.persisted >= 0
    && (l.inProcess > 0 ==> l.loaded && l.inProcess <= l.ceiling)
    && l.inProcess >= 0
  }

  lemma EventIsAccurate(l: Ledger, e: Event)
    requires Sound(l) && NonNegative(e.db)
    ensures Sound(After(l, e)) && After(l, e).inProcess == l.inProcess + AcceptedBy(l, e)
  {
  }

  /** Over any sequence of calls and any answers from Postgres, `inProcess` is the sum of the
      accepted spends and stays within the ceiling. */
  lemma {:induction false} LedgerIsAccurate(hasPool: bool, ceiling: int, events: seq<Event>)
    requires forall k :: 0 <= k < |events| ==> NonNegative(events[k].db)
    ensures var l := Run(NewLedger(hasPool, ceiling), events);
      && l.inProcess == AcceptedSum(NewLedger(hasPool, ceiling), events)
      && Sound(l)
  {
    if |events| > 0 {
      LedgerIsAccurate(hasPool, ceiling, events[..|events| - 1]);
      EventIsAccurate(Run(NewLedger(hasPool, ceiling), events[..|events| - 1]), events[|events| - 1]);
    }
  }

  /** A spend is refused exactly when the cached total and then a fresh read both breach the
      ceiling. An accepted one fits the total it was compared with. */
  lemma RefusedOnlyOnAFreshRead(l: Ledger, n: nat, db: Reads)
    ensures var m := Loaded(l, db).0;
      Spent(l, n, db).1.Refused? <==>
        && Loaded(l, db).1 && Breaches(m, n)
        && (m.hasPool ==> db.second.Some? && Breaches(m.(persisted := db.second.value), n))
    ensures Spent(l, n, db).1.Accepted? ==> !Breaches(Spent(l, n, db).0, 0)
    ensures !Spent(l, n, db).1.Accepted? ==> Spent(l, n, db).0.inProcess == l.inProcess
  {
  }

  /** An explicit positive ceiling is never replaced; a ceiling of 0 or less becomes whatever
      the brand's daily budget is, in full, for this budget alone. */
  lemma {:induction false} CeilingIsKept(l: Ledger, events: seq<Event>)
    requires l.ceiling > 0 || l.loaded
    ensures Run(l, events).ceiling == l.ceiling
    ensures l.loaded ==> Run(l, events).loaded
  {
    if |events| > 0 {
      CeilingIsKept(l, events[..|events| - 1]);
    }
  }

  lemma ZeroCeilingIsTheDailyBudget(daily: int, total: int, n: nat, second: Option<int>)
    requires daily > 0 && total >= 0
    ensures Spent(NewLedger(true, 0), n, Reads(Some(daily), Some(total), second)).1.Accepted? <==>
      total + n <= daily || (second.Some? && second.value + n <= daily)
  {
  }

  /** What the ceiling does not promise. `truth` is what Postgres answers now. A spend can take
      the brand-day past the ceiling exactly when the budget is loaded, its cached total is
      behind the true one and still leaves room: an accepting path reads nothing. */
  lemma StaleTotalOverspends(l: Ledger, truth: int)
    requires l.hasPool
    ensures (forall n: nat, db: Reads :: AnswersTruly(db, truth) && Spent(l, n, db).1.Accepted? ==>
              truth + l.inProcess + n <= Loaded(l, db).0.ceiling) <==>
            !l.loaded || truth <= l.persisted || l.persisted + l.inProcess > l.ceiling
  {
    if l.loaded && truth > l.persisted && l.persisted + l.inProcess <= l.ceiling {
      var room: nat := l.ceiling - l.persisted - l.inProcess;
      var db := Reads(None, Some(truth), Some(truth));
      assert AnswersTruly(db, truth) && Spent(l, room, db).1.Accepted?;
    }
  }

  predicate AnswersTruly(db: Reads, truth: int) {
    db.first == Some(truth) && db.second == Some(truth)
  }

  // ---------------------------------------------------------------- several budgets of one day

  /** What a budget opened with this ceiling can spend on its own. */
  function Effective(ceiling: int, daily: int): nat {
    if ceiling > 0 then ceiling else if daily > 0 then daily else 0
  }

  function EffectiveSum(ceilings: seq<int>, daily: int): nat {
    if |ceilings| == 0 then 0
    else EffectiveSum(ceilings[..|ceilings| - 1], daily) + Effective(ceilings[|ceilings| - 1], daily)
  }

  /** The daily budget is read as what it is or not at all; the totals read are any at all. */
  ghost predicate Answered(events: seq<Event>, daily: int) {
    forall k :: 0 <= k < |events| ==>
      NonNegative(events[k].db) && (events[k].db.daily.Some? ==> events[k].db.daily.value == daily)
  }

  /** One life for each budget. */
  ghost predicate Lives(ceilings: seq<int>, lives: seq<seq<Event>>, daily: int) {
    |lives| == |ceilings| && forall k :: 0 <= k < |lives| ==> Answered(lives[k], daily)
  }

  /** What the budgets accepted together. */
  function AcceptedTogether(ceilings: seq<int>, lives: seq<seq<Event>>): nat
    requires |lives| == |ceilings|
  {
    if |ceilings| == 0 then 0
    else
      var last := |ceilings| - 1;
      AcceptedTogether(ceilings[..last], lives[..last]) + AcceptedSum(NewLedger(true, ceilings[last]), lives[last])
  }

  /** Once loaded, the ceiling in force is the explicit one, or the daily budget. */
  lemma {:induction false} CeilingInForce(ceiling: int, daily: int, events: seq<Event>)
    requires Answered(events, daily)
    ensures var l := Run(NewLedger(true, ceiling), events);
      && l.hasPool && (l.ceiling == ceiling || (ceiling <= 0 && l.ceiling == daily))
      && (l.loaded ==> l.ceiling == if ceiling > 0 then ceiling else daily)
  {
    if |events| > 0 {
      CeilingInForce(ceiling, daily, events[..|events| - 1]);
    }
  }

  lemma LifeWithinEffective(ceiling: int, daily: int, events: seq<Event>)
    requires Answered(events, daily)
    ensures AcceptedSum(NewLedger(true, ceiling), events) <= Effective(ceiling, daily)
  {
    CeilingInForce(ceiling, daily, events);
    LedgerIsAccurate(true, ceiling, events);
  }

  lemma {:induction false} TogetherWithinEffective(ceilings: seq<int>, lives: seq<seq<Event>>, daily: int)
    requires Lives(ceilings, lives, daily)
    ensures AcceptedTogether(ceilings, lives) <= EffectiveSum(ceilings, daily)
  {
    if |ceilings| > 0 {
      var last := |ceilings| - 1;
      TogetherWithinEffective(ceilings[..last], lives[..last], daily);
      LifeWithinEffective(ceilings[last], daily, lives[last]);
    }
  }

  /** A life that spends everything at once, before any other budget's run is persisted. */
  function SpendAll(ceiling: int, daily: int): seq<Event> {
    [Spending(Effective(ceiling, daily), Reads(Some(daily), Some(0), Some(0)))]
  }

  lemma SpendAllIsAccepted(ceiling: int, daily: int)
    ensures AcceptedSum(NewLedger(true, ceiling), SpendAll(ceiling, daily)) == Effective(ceiling, daily)
  {
    var life := SpendAll(ceiling, daily);
    assert life[..0] == [];
    assert AcceptedSum(NewLedger(true, ceiling), life[..0]) == 0;
  }

  lemma {:induction false} SpendAllTogether(ceilings: seq<int>, daily: int) returns (lives: seq<seq<Event>>)
    ensures Lives(ceilings, lives, daily) && AcceptedTogether(ceilings, lives) == EffectiveSum(ceilings, daily)
  {
    if |ceilings| == 0 {
      lives := [];
    } else {
      var last := |ceilings| - 1;
      var rest := SpendAllTogether(ceilings[..last], daily);
      lives := rest + [SpendAll(ceilings[last], daily)];
      assert lives[..last] == rest;
      SpendAllIsAccepted(ceilings[last], daily);
    }
  }

  /** Budgets of one brand-day keep its daily budget together, whatever they are asked and
      whatever totals they read, exactly when their effective ceilings add up to at most it.
      Two budgets opened with a ceiling of 0 never do, unless the daily budget is 0. */
  lemma BudgetsKeepTheDayExactlyWhen(ceilings: seq<int>, daily: int)
    ensures (forall lives :: Lives(ceilings, lives, daily) ==> AcceptedTogether(ceilings, lives) <= daily) <==>
            EffectiveSum(ceilings, daily) <= daily
  {
    forall lives | Lives(ceilings, lives, daily) ensures AcceptedTogether(ceilings, lives) <= EffectiveSum(ceilings, daily) {
      TogetherWithinEffective(ceilings, lives, daily);
    }
    var lives := SpendAllTogether(ceilings, daily);
  }
}
