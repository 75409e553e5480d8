/** What the collectors of one run can spend together.

  Each collector builds its own client on its share of the day's credits. A share of 0 is
  passed on as it is, and a client reads a ceiling of 0 as the brand's full daily budget. */
module RunCost {
  import opened Outcomes
  import opened CreditBudget
  import F = FetchClient
  import opened Sources

  /** Postgres answers every client with the same daily budget and with non-negative totals. */
  ghost predicate Answers(calls: seq<F.Call>, daily: int) {
    forall k :: 0 <= k < |calls| ==>
      NonNegative(calls[k].world.db) && (calls[k].world.db.daily.Some? ==> calls[k].world.db.daily.value == daily)
  }

  /** A collector with this share can come back with these credits. */
  ghost predicate CanSpend(daily: int, share: int, credits: nat) {
    exists calls :: Answers(calls, daily) && F.Run(F.NewClient(true, share, true), calls).credits == credits
  }

  ghost predicate CanSpendEach(daily: int, share: int, spends: seq<nat>) {
    forall k :: 0 <= k < |spends| ==> CanSpend(daily, share, spends[k])
  }

  function Total(spends: seq<nat>): nat {
    if |spends| == 0 then 0 else Total(spends[..|spends| - 1]) + spends[|spends| - 1]
  }

  lemma {:induction false} TotalAtMost(spends: seq<nat>, each: nat)
    requires forall k :: 0 <= k < |spends| ==> spends[k] <= each
    ensures Total(spends) <= each * |spends|
  {
    if |spends| > 0 {
      TotalAtMost(spends[..|spends| - 1], each);
      assert each * |spends| == each * (|spends| - 1) + each;
    }
  }

  ghost predicate ShareOrDaily(l: Ledger, daily: int, share: int) {
    l.ceiling == share || (share <= 0 && l.ceiling == daily)
  }

  lemma FetchKeepsShareOrDaily(daily: int, share: int, c: F.Client, call: F.Call)
    requires ShareOrDaily(c.ledger, daily, share)
    requires call.world.db.daily.Some? ==> call.world.db.daily.value == daily
    ensures ShareOrDaily(F.After(c, call).ledger, daily, share)
  {
  }

  lemma {:induction false} CeilingIsShareOrDaily(daily: int, share: int, calls: seq<F.Call>)
    requires Answers(calls, daily)
    ensures ShareOrDaily(F.Run(F.NewClient(true, share, true), calls).ledger, daily, share)
  {
    if |calls| > 0 {
      CeilingIsShareOrDaily(daily, share, calls[..|calls| - 1]);
      FetchKeepsShareOrDaily(daily, share, F.Run(F.NewClient(true, share, true), calls[..|calls| - 1]), calls[|calls| - 1]);
    }
  }

  /** One collector spends at most its share, or the daily budget when its share is 0. */
  lemma CollectorBound(daily: int, share: int, credits: nat)
    requires CanSpend(daily, share, credits) && share >= 0
    ensures credits <= if share > 0 then share else if daily > 0 then daily else 0
  {
    var calls :| Answers(calls, daily) && F.Run(F.NewClient(true, share, true), calls).credits == credits;
    F.CreditsWithinCeiling(true, share, true, calls);
    CeilingIsShareOrDaily(daily, share, calls);
  }

  /** With a positive share the collectors' credits together never exceed the daily budget. */
  lemma RunWithinDailyBudget(daily: int, spends: seq<nat>)
    requires SplitCredits(daily, |spends|) > 0
    requires CanSpendEach(daily, SplitCredits(daily, |spends|), spends)
    ensures Total(spends) <= daily
  {
    var share := SplitCredits(daily, |spends|);
    forall k | 0 <= k < |spends| ensures spends[k] <= share {
      CollectorBound(daily, share, spends[k]);
    }
    TotalAtMost(spends, share);
    SharesFitBudget(daily, |spends|);
  }

  /** The budget as the pipeline reads it: a failed read counts as 0. */
  function BudgetRead(daily: int, readable: bool): int { if readable then daily else 0 }

  /** A collector whose share is 0 can spend the whole daily budget. */
  lemma ZeroShareSpendsAll(daily: nat)
    ensures CanSpend(daily, 0, daily)
  {
    var world := F.World(true, Reads(Some(daily), Some(0), Some(0)), Some("payload"), map[], true);
    var call := F.Call(map[], F.Request("reddit", "hash", "bucket", daily), world);
    var calls := [call];
    assert calls[..0] == [];
    assert F.Run(F.NewClient(true, 0, true), calls) == F.After(F.Run(F.NewClient(true, 0, true), calls[..0]), calls[0]);
    assert Answers(calls, daily);
  }

  lemma {:induction false} TotalOfRepeated(each: nat, n: nat)
    ensures Total(seq(n, i => each)) == n * each
  {
    if n > 0 {
      TotalOfRepeated(each, n - 1);
      assert seq(n, i => each)[..n - 1] == seq(n - 1, i => each);
      assert n * each == (n - 1) * each + each;
    }
  }

  /** The share is 0 when the budget could not be read or is smaller than the number of sources. */
  lemma ShareIsZeroWhen(daily: int, readable: bool, n: nat)
    requires daily > 0 && n > 0
    ensures SplitCredits(BudgetRead(daily, readable), n) == 0 <==> !readable || daily < n
  {
    if readable {
      SharesFitBudget(daily, n);
    }
  }

  /** Exactly when the daily budget bounds a run. With two or more sources and a positive
      budget, every run stays within it if and only if the share is not 0, that is, if the budget
      was read and has a credit for each of them. */
  lemma DailyBudgetBoundsRunsExactlyWhen(daily: int, readable: bool, n: nat)
    ensures (forall spends: seq<nat> :: |spends| == n && CanSpendEach(daily, SplitCredits(BudgetRead(daily, readable), n), spends)
               ==> Total(spends) <= (if daily > 0 then daily else 0)) <==>
            !((!readable || daily < n) && daily > 0 && n >= 2)
  {
    var share := SplitCredits(BudgetRead(daily, readable), n);
    if daily > 0 && n > 0 {
      ShareIsZeroWhen(daily, readable, n);
    }
    if share == 0 && daily > 0 && n >= 2 {
      var spends: seq<nat> := seq(n, i => daily);
      ZeroShareSpendsAll(daily);
      assert |spends| == n && CanSpendEach(daily, share, spends);
      TotalOfRepeated(daily, n);
      assert n * daily >= 2 * daily;
    } else {
      forall spends: seq<nat> | |spends| == n && CanSpendEach(daily, share, spends)
        ensures Total(spends) <= (if daily > 0 then daily else 0)
      {
        if share > 0 {
          RunWithinDailyBudget(daily, spends);
        } else {
          var each := if daily > 0 then daily else 0;
          forall k | 0 <= k < |spends| ensures spends[k] <= each {
            CollectorBound(daily, share, spends[k]);
          }
          TotalAtMost(spends, each);
        }
      }
    }
  }
}
