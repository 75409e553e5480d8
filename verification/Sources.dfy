/** Which sources a run calls, and how the day's credits are split among them:
  `agents/bp-orchestrator/sources.go`. */
module Sources {
  import opened Ordering

  const FAN_OUT_CAP := 8

  function YieldOf(ranking: map<string, real>, source: string): real {
    if source in ranking then ranking[source] else 0.0
  }

  /** Higher yield first, then the source name. */
  function RankBefore(ranking: map<string, real>): (string, string) -> bool {
    (a, b) => YieldOf(ranking, a) > YieldOf(ranking, b)
      || (YieldOf(ranking, a) == YieldOf(ranking, b) && StringLess(a, b))
  }

  lemma RankOrder(ranking: map<string, real>)
    ensures StrictWeak(RankBefore(ranking))
    ensures forall a, b :: !RankBefore(ranking)(a, b) && !RankBefore(ranking)(b, a) ==> a == b
  {
    StringOrder();
  }

  /** Mentions per credit, 0 for a source without a row; the higher yield first and, of equal
      ones, the smaller name. */
  ghost predicate RankedByYield(sources: seq<string>, ranking: map<string, real>) {
    forall i, j :: 0 <= i < j < |sources| ==>
      var a := if sources[i] in ranking then ranking[sources[i]] else 0.0;
      var b := if sources[j] in ranking then ranking[sources[j]] else 0.0;
      a > b || (a == b && !StringLess(sources[j], sources[i]))
  }

  lemma SortedByYield(sources: seq<string>, ranking: map<string, real>)
    requires Sorted(RankBefore(ranking), sources)
    ensures RankedByYield(sources, ranking)
  {
    forall i, j | 0 <= i < j < |sources|
      ensures YieldOf(ranking, sources[i]) > YieldOf(ranking, sources[j]) ||
              (YieldOf(ranking, sources[i]) == YieldOf(ranking, sources[j]) && !StringLess(sources[j], sources[i]))
    {
      assert !RankBefore(ranking)(sources[j], sources[i]);
    }
  }

  method ChooseSources(sources: seq<string>, ranking: map<string, real>, limit: int)
    returns (chosen: seq<string>, skipped: seq<string>)
    ensures Distinct(chosen + skipped) && Sorted(RankBefore(ranking), chosen + skipped)
    ensures forall s :: s in chosen + skipped <==> s in sources
    ensures |chosen| <= limit || (limit < 0 && |chosen| == 0)
    ensures |skipped| > 0 ==> |chosen| == if limit < 0 then 0 else limit
    ensures RankedByYield(chosen + skipped, ranking)
  {
    var ranked: seq<string> := [];
    var seen: set<string> := {};
    for i := 0 to |sources|
      invariant Distinct(ranked)
      invariant forall s :: s in ranked <==> s in sources[..i]
      invariant forall s :: s in seen <==> s in ranked
    {
      assert sources[..i + 1] == sources[..i] + [sources[i]];
      if sources[i] in seen {
        continue;
      }
      seen := seen + {sources[i]};
      ranked := ranked + [sources[i]];
    }
    assert sources[..|sources|] == sources;
    var order := Sort(RankBefore(ranking), ranked);
    RankOrder(ranking);
    SortSorted(RankBefore(ranking), ranked);
    SortElements(RankBefore(ranking), ranked);
    PermutationDistinct(ranked, order);
    SameElements(ranked, order);
    SortedByYield(order, ranking);
    var cap := if limit < 0 then 0 else limit;
    if |order| <= cap {
      assert order + [] == order;
      return order, [];
    }
    assert order[..cap] + order[cap..] == order;
    return order[..cap], order[cap..];
  }

  /** The contract of ChooseSources leaves no freedom: the same brand, yields and limit give
      the same two lists, and every dropped source ranks below every kept one. */
  lemma ChoiceIsDetermined(sources: seq<string>, ranking: map<string, real>, limit: int,
                           c1: seq<string>, s1: seq<string>, c2: seq<string>, s2: seq<string>)
    requires Distinct(c1 + s1) && Sorted(RankBefore(ranking), c1 + s1) && forall s :: s in c1 + s1 <==> s in sources
    requires Distinct(c2 + s2) && Sorted(RankBefore(ranking), c2 + s2) && forall s :: s in c2 + s2 <==> s in sources
    requires |c1| <= limit || (limit < 0 && |c1| == 0)
    requires |c2| <= limit || (limit < 0 && |c2| == 0)
    requires |s1| > 0 ==> |c1| == if limit < 0 then 0 else limit
    requires |s2| > 0 ==> |c2| == if limit < 0 then 0 else limit
    ensures c1 == c2 && s1 == s2
    ensures forall kept, dropped :: kept in c1 && dropped in s1 ==> RankBefore(ranking)(kept, dropped)
  {
    RankOrder(ranking);
    DistinctElements(c1 + s1, c2 + s2);
    SortedUnique(RankBefore(ranking), c1 + s1, c2 + s2);
    assert |c1| == |c2|;
    assert c1 == (c1 + s1)[..|c1|] && s1 == (c1 + s1)[|c1|..];
    assert c2 == (c2 + s2)[..|c2|] && s2 == (c2 + s2)[|c2|..];
    forall kept, dropped | kept in c1 && dropped in s1 ensures RankBefore(ranking)(kept, dropped) {
      var i :| 0 <= i < |c1| && c1[i] == kept;
      var j :| 0 <= j < |s1| && s1[j] == dropped;
      assert (c1 + s1)[i] == kept && (c1 + s1)[|c1| + j] == dropped;
    }
  }

  function SplitCredits(budget: int, sources: int): int {
    if sources <= 0 || budget <= 0 then 0 else budget / sources
  }

  /** The shares never exceed the budget, and fewer credits than sources are left over. */
  lemma SharesFitBudget(budget: int, sources: int)
    requires sources > 0 && budget > 0
    ensures var share := SplitCredits(budget, sources);
      share * sources <= budget < share * sources + sources
    ensures SplitCredits(budget, sources) == 0 <==> budget < sources
  {
    var share := budget / sources;
    assert budget == share * sources + budget % sources;
    if share > 0 {
      AtLeastOnce(share, sources);
    }
  }

  lemma AtLeastOnce(share: int, sources: int)
    requires share > 0 && sources > 0
    ensures share * sources >= sources
  {
  }
}
