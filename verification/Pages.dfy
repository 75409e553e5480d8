/** Which pages of a brand's site are read: `selectPages` in `agents/bp-onboarder/onboarder.go`.

  `classify` is given; it decides by the path of a link. */
module Pages {
  import opened Ordering
  import opened Lists

  const MAX_ANAKIN_CREDITS := 30
  const MAP_CREDITS := 1
  const MAX_SCRAPED_PAGES := MAX_ANAKIN_CREDITS - MAP_CREDITS
  const DEFAULT_MAX_PAGES := 25

  datatype PageKind = About | Product | Collection | Skip

  const ORDER: seq<PageKind> := [About, Product, Collection]

  type Classify = string -> PageKind

  /** However many pages a caller asks for, mapping the site and reading them stays within the
      credit ceiling. */
  function PageBudget(requested: int): (budget: int)
    ensures budget >= 1 && budget + MAP_CREDITS <= MAX_ANAKIN_CREDITS
    ensures 1 <= requested <= MAX_SCRAPED_PAGES ==> budget == requested
  {
    var wanted := if requested <= 0 then DEFAULT_MAX_PAGES else requested;
    if wanted < MAX_SCRAPED_PAGES then wanted else MAX_SCRAPED_PAGES
  }

  /** A link without its trailing slash. */
  function Canonical(url: string): string {
    if |url| > 0 && url[|url| - 1] == '/' then url[..|url| - 1] else url
  }

  function Canonicals(links: seq<string>): seq<string> { Map(Canonical, links) }

  // ---------------------------------------------------------------- without repeats

  function Deduped(links: seq<string>): seq<string> {
    if |links| == 0 then [] else
      var rest, last := Deduped(links[..|links| - 1]), links[|links| - 1];
      if Canonical(last) in Canonicals(links[..|links| - 1]) then rest else rest + [last]
  }

  method Dedupe(links: seq<string>) returns (out: seq<string>)
    ensures out == Deduped(links)
  {
    var seen: set<string> := {};
    out := [];
    for k := 0 to |links|
      invariant forall c :: c in seen <==> c in Canonicals(links[..k])
      invariant out == Deduped(links[..k])
    {
      assert links[..k + 1][..k] == links[..k];
      assert Canonicals(links[..k + 1]) == Canonicals(links[..k]) + [Canonical(links[k])];
      if Canonical(links[k]) in seen {
        continue;
      }
      seen := seen + {Canonical(links[k])};
      out := out + [links[k]];
    }
    assert links[..|links|] == links;
  }

  lemma {:induction false} DedupedElements(links: seq<string>)
    ensures Distinct(Canonicals(Deduped(links)))
    ensures forall c :: c in Canonicals(Deduped(links)) <==> c in Canonicals(links)
    ensures forall x :: x in Deduped(links) ==> x in links
  {
    if |links| > 0 {
      var front, last := links[..|links| - 1], links[|links| - 1];
      DedupedElements(front);
      assert links == front + [last];
      assert Canonicals(links) == Canonicals(front) + [Canonical(last)];
      assert Canonicals(Deduped(front) + [last]) == Canonicals(Deduped(front)) + [Canonical(last)];
    }
  }

  // ---------------------------------------------------------------- taking turns

  function Front(s: seq<string>): seq<string> { if |s| == 0 then [] else [s[0]] }

  function Rest(s: seq<string>): seq<string> { if |s| == 0 then [] else s[1..] }

  function Round(a: seq<string>, p: seq<string>, c: seq<string>): seq<string> { Front(a) + Front(p) + Front(c) }

  /** Rounds of one link of each kind that has any left. */
  function Interleaved(a: seq<string>, p: seq<string>, c: seq<string>): (r: seq<string>)
    ensures |r| == |a| + |p| + |c|
    decreases |a| + |p| + |c|
  {
    if |a| + |p| + |c| == 0 then [] else Round(a, p, c) + Interleaved(Rest(a), Rest(p), Rest(c))
  }

  function Wanted(kind: PageKind, site: string, classify: Classify): string -> bool {
    (url: string) => Canonical(url) != Canonical(site) && classify(url) == kind
  }

  function Bucket(kind: PageKind, site: string, links: seq<string>, classify: Classify): seq<string> {
    Filter(Wanted(kind, site, classify), Deduped(links))
  }

  /** Everything worth reading, in the order it would be read without a budget. */
  function Ranking(site: string, links: seq<string>, classify: Classify): seq<string> {
    [site] + Interleaved(Bucket(About, site, links, classify), Bucket(Product, site, links, classify), Bucket(Collection, site, links, classify))
  }

  function Selected(site: string, links: seq<string>, budget: int, classify: Classify): seq<string> {
    var ranking := Ranking(site, links, classify);
    if budget <= 0 then []
    else if |ranking| <= budget then ranking else ranking[..budget]
  }

  // ---------------------------------------------------------------- the code

  type Buckets = map<PageKind, seq<string>>

  function Left(buckets: Buckets, kind: PageKind): seq<string> { if kind in buckets then buckets[kind] else [] }

  function Total(buckets: Buckets): nat { |Left(buckets, About)| + |Left(buckets, Product)| + |Left(buckets, Collection)| }

  /** What is still to come when the first `k` kinds have had their turn in this round. */
  function ToCome(k: nat, a: seq<string>, p: seq<string>, c: seq<string>): seq<string> {
    if k == 1 then Front(p) + Front(c) + Interleaved(a, Rest(p), Rest(c))
    else if k == 2 then Front(c) + Interleaved(a, p, Rest(c))
    else Interleaved(a, p, c)
  }

  function Pending(k: nat, b: Buckets): seq<string> { ToCome(k, Left(b, About), Left(b, Product), Left(b, Collection)) }

  lemma JoinRight<T>(a: seq<T>, b: seq<T>, c: seq<T>, d: seq<T>)
    ensures a + b + c + d == a + (b + c + d)
  {
  }

  lemma JoinTwo<T>(a: seq<T>, b: seq<T>, c: seq<T>)
    ensures a + b + c == a + (b + c)
  {
  }

  lemma AboutTurn(a: seq<string>, p: seq<string>, c: seq<string>)
    ensures ToCome(0, a, p, c) == Front(a) + ToCome(1, Rest(a), p, c)
  {
    StartsWithRound(a, p, c);
    JoinRight(Front(a), Front(p), Front(c), Interleaved(Rest(a), Rest(p), Rest(c)));
  }

  lemma ProductTurn(a: seq<string>, p: seq<string>, c: seq<string>)
    ensures ToCome(1, a, p, c) == Front(p) + ToCome(2, a, Rest(p), c)
  {
    JoinTwo(Front(p), Front(c), Interleaved(a, Rest(p), Rest(c)));
  }

  lemma CollectionTurn(a: seq<string>, p: seq<string>, c: seq<string>)
    ensures ToCome(2, a, p, c) == Front(c) + ToCome(3, a, p, Rest(c))
  {
  }

  function AfterTurn(b: Buckets, kind: PageKind): Buckets { b[kind := Rest(Left(b, kind))] }

  lemma LeftAfterTurn(b: Buckets, kind: PageKind, other: PageKind)
    ensures Left(AfterTurn(b, kind), other) == if other == kind then Rest(Left(b, kind)) else Left(b, other)
  {
  }

  lemma BucketsAfterTurn(b: Buckets, kind: PageKind, t: Buckets)
    requires t == AfterTurn(b, kind)
    ensures Left(t, About) == if kind == About then Rest(Left(b, About)) else Left(b, About)
    ensures Left(t, Product) == if kind == Product then Rest(Left(b, Product)) else Left(b, Product)
    ensures Left(t, Collection) == if kind == Collection then Rest(Left(b, Collection)) else Left(b, Collection)
  {
    LeftAfterTurn(b, kind, About);
    LeftAfterTurn(b, kind, Product);
    LeftAfterTurn(b, kind, Collection);
  }

  lemma TurnTaken(k: nat, b: Buckets)
    requires k < 3
    ensures Pending(k, b) == Front(Left(b, ORDER[k])) + Pending(k + 1, AfterTurn(b, ORDER[k]))
  {
    BucketsAfterTurn(b, ORDER[k], AfterTurn(b, ORDER[k]));
    TurnOf(k, Left(b, About), Left(b, Product), Left(b, Collection));
  }

  lemma TurnOf(k: nat, a: seq<string>, p: seq<string>, c: seq<string>)
    requires k < 3
    ensures ToCome(k, a, p, c) == match k
      case 0 => Front(a) + ToCome(1, Rest(a), p, c)
      case 1 => Front(p) + ToCome(2, a, Rest(p), c)
      case _ => Front(c) + ToCome(3, a, p, Rest(c))
  {
    if k == 0 {
      AboutTurn(a, p, c);
    } else if k == 1 {
      ProductTurn(a, p, c);
    } else {
      CollectionTurn(a, p, c);
    }
  }

  lemma SkippedTurn(k: nat, b: Buckets)
    requires k < 3 && |Left(b, ORDER[k])| == 0
    ensures Pending(k, b) == Pending(k + 1, b)
  {
    TurnTaken(k, b);
  }

  lemma TurnShrinks(k: nat, b: Buckets)
    requires k < 3 && |Left(b, ORDER[k])| > 0
    ensures Total(AfterTurn(b, ORDER[k])) < Total(b)
  {
  }

  /** The buckets hold what is wanted of these links. */
  ghost predicate Filled(buckets: Buckets, site: string, classify: Classify, links: seq<string>) {
    forall kind :: kind != Skip ==> Left(buckets, kind) == Filter(Wanted(kind, site, classify), links)
  }

  lemma FilledMore(buckets: Buckets, site: string, classify: Classify, links: seq<string>, k: nat)
    requires k < |links| && Filled(buckets, site, classify, links[..k])
    ensures var kind := classify(links[k]);
      if Canonical(links[k]) == Canonical(site) || kind == Skip then Filled(buckets, site, classify, links[..k + 1])
      else Filled(buckets[kind := Left(buckets, kind) + [links[k]]], site, classify, links[..k + 1])
  {
    assert links[..k + 1][..k] == links[..k];
  }

  method FillBuckets(site: string, links: seq<string>, classify: Classify) returns (buckets: Buckets)
    ensures forall kind :: kind != Skip ==> Left(buckets, kind) == Bucket(kind, site, links, classify)
  {
    var home := Canonical(site);
    var deduped := Dedupe(links);
    buckets := map[];
    for k := 0 to |deduped|
      invariant Filled(buckets, site, classify, deduped[..k])
    {
      FilledMore(buckets, site, classify, deduped, k);
      if Canonical(deduped[k]) == home {
        continue;
      }
      var kind := classify(deduped[k]);
      if kind != Skip {
        buckets := buckets[kind := Left(buckets, kind) + [deduped[k]]];
      }
    }
    assert deduped[..|deduped|] == deduped;
  }

  /** `picked` and what is pending make up the ranking. */
  ghost predicate Continues(picked: seq<string>, ranking: seq<string>, k: nat, b: Buckets) {
    ranking == picked + Pending(k, b)
  }

  lemma PickContinues(picked: seq<string>, ranking: seq<string>, k: nat, b: Buckets)
    requires k < 3 && Continues(picked, ranking, k, b) && |Left(b, ORDER[k])| > 0
    ensures Continues(picked + [Left(b, ORDER[k])[0]], ranking, k + 1, AfterTurn(b, ORDER[k]))
  {
    TurnTaken(k, b);
    assert picked + ([Left(b, ORDER[k])[0]] + Pending(k + 1, AfterTurn(b, ORDER[k]))) ==
           picked + [Left(b, ORDER[k])[0]] + Pending(k + 1, AfterTurn(b, ORDER[k]));
  }

  ghost predicate EmptyBefore(k: nat, b: Buckets) {
    forall j :: 0 <= j < k && j < 3 ==> |Left(b, ORDER[j])| == 0
  }

  lemma EmptyThrough(b: Buckets)
    requires EmptyBefore(3, b)
    ensures Total(b) == 0
  {
    assert |Left(b, ORDER[0])| == |Left(b, ORDER[1])| == |Left(b, ORDER[2])| == 0;
  }

  /** One round of turns, cut short when the budget is reached. */
  method TakeTurns(sofar: seq<string>, start: Buckets, budget: int, ghost ranking: seq<string>)
    returns (picked: seq<string>, buckets: Buckets, took: bool)
    requires |sofar| < budget && Continues(sofar, ranking, 0, start)
    ensures |picked| <= budget && picked <= ranking
    ensures |picked| < budget ==> Continues(picked, ranking, 0, buckets)
    ensures took ==> Total(buckets) < Total(start)
    ensures !took ==> |picked| < budget && Total(buckets) == 0
  {
    picked, buckets, took := sofar, start, false;
    for k := 0 to 3
      invariant |picked| <= budget && Continues(picked, ranking, k, buckets)
      invariant took ==> Total(buckets) < Total(start)
      invariant !took ==> picked == sofar && buckets == start && EmptyBefore(k, buckets)
    {
      if |picked| >= budget {
        return;
      }
      var kind := ORDER[k];
      if |Left(buckets, kind)| == 0 {
        SkippedTurn(k, buckets);
        continue;
      }
      PickContinues(picked, ranking, k, buckets);
      TurnShrinks(k, buckets);
      picked := picked + [Left(buckets, kind)[0]];
      buckets := AfterTurn(buckets, kind);
      took := true;
    }
    if !took {
      EmptyThrough(buckets);
    }
  }

  method SelectPages(site: string, links: seq<string>, budget: int, classify: Classify) returns (picked: seq<string>)
    ensures picked == Selected(site, links, budget, classify)
  {
    if budget <= 0 {
      return [];
    }
    var buckets := FillBuckets(site, links, classify);
    ghost var ranking := Ranking(site, links, classify);
    picked := [site];
    var took := true;
    while took && |picked| < budget
      invariant |picked| <= budget && picked <= ranking
      invariant |picked| < budget ==> Continues(picked, ranking, 0, buckets)
      invariant !took ==> |picked| < budget && Total(buckets) == 0
      decreases Total(buckets), took
    {
      picked, buckets, took := TakeTurns(picked, buckets, budget, ranking);
    }
    assert |picked| < budget ==> picked == ranking;
  }

  // ---------------------------------------------------------------- what is selected

  lemma BucketElements(kind: PageKind, site: string, links: seq<string>, classify: Classify, x: string)
    requires x in Bucket(kind, site, links, classify)
    ensures x in Deduped(links) && Canonical(x) != Canonical(site) && classify(x) == kind
  {
    FilterElements(Wanted(kind, site, classify), Deduped(links), x);
  }

  lemma {:induction false} InterleavedElements(a: seq<string>, p: seq<string>, c: seq<string>)
    ensures multiset(Interleaved(a, p, c)) == multiset(a) + multiset(p) + multiset(c)
    decreases |a| + |p| + |c|
  {
    if |a| + |p| + |c| > 0 {
      InterleavedElements(Rest(a), Rest(p), Rest(c));
      FrontAndRest(a);
      FrontAndRest(p);
      FrontAndRest(c);
    }
  }

  lemma FrontAndRest(s: seq<string>)
    ensures multiset(s) == multiset(Front(s)) + multiset(Rest(s))
  {
    assert s == Front(s) + Rest(s);
  }

  /** Every page after the site is a link of the map, is not the homepage again and is of no
      skipped kind. */
  lemma RankedIsWanted(site: string, links: seq<string>, classify: Classify, x: string)
    requires x in Ranking(site, links, classify)[1..]
    ensures x in links && Canonical(x) != Canonical(site) && classify(x) != Skip
  {
    var a, p, c := Bucket(About, site, links, classify), Bucket(Product, site, links, classify), Bucket(Collection, site, links, classify);
    InterleavedElements(a, p, c);
    var r := Interleaved(a, p, c);
    assert Ranking(site, links, classify)[1..] == r;
    assert x in multiset(r);
    DedupedElements(links);
    if x in a {
      BucketElements(About, site, links, classify, x);
    } else if x in p {
      BucketElements(Product, site, links, classify, x);
    } else {
      assert x in c;
      BucketElements(Collection, site, links, classify, x);
    }
  }

  lemma InterleavedDistinct(a: seq<string>, p: seq<string>, c: seq<string>)
    requires Distinct(a) && Distinct(p) && Distinct(c)
    requires forall x :: !(x in a && x in p) && !(x in a && x in c) && !(x in p && x in c)
    ensures Distinct(Interleaved(a, p, c))
  {
    InterleavedElements(a, p, c);
    JoinedDistinct(a, p);
    JoinedDistinct(a + p, c);
    assert multiset(a + p + c) == multiset(Interleaved(a, p, c));
    PermutationDistinct(a + p + c, Interleaved(a, p, c));
  }

  lemma DedupedDistinct(links: seq<string>)
    ensures Distinct(Deduped(links))
    ensures forall x, y :: x in Deduped(links) && y in Deduped(links) && Canonical(x) == Canonical(y) ==> x == y
  {
    var d := Deduped(links);
    DedupedElements(links);
    forall i, j | 0 <= i < j < |d| ensures d[i] != d[j] {
      assert Canonicals(d)[i] != Canonicals(d)[j];
    }
    forall x, y | x in d && y in d && Canonical(x) == Canonical(y) ensures x == y {
      var i :| 0 <= i < |d| && d[i] == x;
      var j :| 0 <= j < |d| && d[j] == y;
      assert Canonicals(d)[i] == Canonicals(d)[j];
    }
  }

  lemma BucketsDisjoint(site: string, links: seq<string>, classify: Classify, k1: PageKind, k2: PageKind, x: string)
    requires k1 != k2
    ensures !(x in Bucket(k1, site, links, classify) && x in Bucket(k2, site, links, classify))
  {
    FilterElements(Wanted(k1, site, classify), Deduped(links), x);
    FilterElements(Wanted(k2, site, classify), Deduped(links), x);
  }

  lemma RankingDistinct(site: string, links: seq<string>, classify: Classify)
    ensures Distinct(Canonicals(Ranking(site, links, classify)))
  {
    var a, p, c := Bucket(About, site, links, classify), Bucket(Product, site, links, classify), Bucket(Collection, site, links, classify);
    DedupedDistinct(links);
    FilterDistinct(Wanted(About, site, classify), Deduped(links));
    FilterDistinct(Wanted(Product, site, classify), Deduped(links));
    FilterDistinct(Wanted(Collection, site, classify), Deduped(links));
    forall x ensures !(x in a && x in p) && !(x in a && x in c) && !(x in p && x in c) {
      BucketsDisjoint(site, links, classify, About, Product, x);
      BucketsDisjoint(site, links, classify, About, Collection, x);
      BucketsDisjoint(site, links, classify, Product, Collection, x);
    }
    InterleavedDistinct(a, p, c);
    var r, tail := Ranking(site, links, classify), Interleaved(a, p, c);
    forall i, j | 0 <= i < j < |r| ensures Canonicals(r)[i] != Canonicals(r)[j] {
      var y := tail[j - 1];
      assert y in r[1..];
      RankedIsWanted(site, links, classify, y);
      if i > 0 {
        var x := tail[i - 1];
        assert x in r[1..];
        RankedIsInDeduped(site, links, classify, x);
        RankedIsInDeduped(site, links, classify, y);
      }
    }
  }

  lemma RankedIsInDeduped(site: string, links: seq<string>, classify: Classify, x: string)
    requires x in Ranking(site, links, classify)[1..]
    ensures x in Deduped(links)
  {
    var a, p, c := Bucket(About, site, links, classify), Bucket(Product, site, links, classify), Bucket(Collection, site, links, classify);
    InterleavedElements(a, p, c);
    assert Ranking(site, links, classify)[1..] == Interleaved(a, p, c);
    assert x in multiset(Interleaved(a, p, c));
    FilterElements(Wanted(About, site, classify), Deduped(links), x);
    FilterElements(Wanted(Product, site, classify), Deduped(links), x);
    FilterElements(Wanted(Collection, site, classify), Deduped(links), x);
  }

  /** The selection starts with the site, never exceeds the budget, and is full unless every
      bucket is used up; no page is in it twice, in any spelling, and none of a skipped kind. */
  lemma SelectionIsSound(site: string, links: seq<string>, budget: int, classify: Classify)
    requires budget > 0
    ensures var r := Selected(site, links, budget, classify);
      && 1 <= |r| <= budget && r[0] == site && Distinct(Canonicals(r))
      && (|r| < budget ==> r == Ranking(site, links, classify))
      && forall k :: 1 <= k < |r| ==> r[k] in links && classify(r[k]) != Skip
  {
    var r, ranking := Selected(site, links, budget, classify), Ranking(site, links, classify);
    RankingDistinct(site, links, classify);
    forall i, j | 0 <= i < j < |r| ensures Canonicals(r)[i] != Canonicals(r)[j] {
      assert Canonicals(ranking)[i] != Canonicals(ranking)[j];
    }
    forall k | 1 <= k < |r| ensures r[k] in links && classify(r[k]) != Skip {
      var x := ranking[1..][k - 1];
      assert x in ranking[1..];
      RankedIsWanted(site, links, classify, x);
    }
  }

  // ---------------------------------------------------------------- fairness

  function OfKind(kind: PageKind, classify: Classify): string -> bool { (url: string) => classify(url) == kind }

  ghost predicate AllOf(kind: PageKind, classify: Classify, s: seq<string>) {
    forall k :: 0 <= k < |s| ==> classify(s[k]) == kind
  }

  /** `s` holds the first i, j and k of the three lists, each in its order. */
  ghost predicate Takes(s: seq<string>, classify: Classify, a: seq<string>, p: seq<string>, c: seq<string>) {
    && Filter(OfKind(About, classify), s) == a && Filter(OfKind(Product, classify), s) == p
    && Filter(OfKind(Collection, classify), s) == c
  }

  lemma FilterOwn(kind: PageKind, other: PageKind, classify: Classify, s: seq<string>)
    requires AllOf(other, classify, s)
    ensures Filter(OfKind(kind, classify), s) == if kind == other then s else []
  {
    if kind == other {
      FilterAll(OfKind(kind, classify), (url: string) => false, s);
    } else {
      FilterNone(OfKind(kind, classify), s);
    }
  }

  lemma TakesRound(classify: Classify, a: seq<string>, p: seq<string>, c: seq<string>)
    requires AllOf(About, classify, a) && AllOf(Product, classify, p) && AllOf(Collection, classify, c)
    ensures Takes(a + p + c, classify, a, p, c)
  {
    forall kind ensures Filter(OfKind(kind, classify), a + p + c) ==
      (if kind == About then a else []) + (if kind == Product then p else []) + (if kind == Collection then c else [])
    {
      FilterAppend(OfKind(kind, classify), a, p);
      FilterAppend(OfKind(kind, classify), a + p, c);
      FilterOwn(kind, About, classify, a);
      FilterOwn(kind, Product, classify, p);
      FilterOwn(kind, Collection, classify, c);
    }
  }

  lemma TakesMore(s: seq<string>, t: seq<string>, classify: Classify, a: seq<string>, p: seq<string>, c: seq<string>,
                  a': seq<string>, p': seq<string>, c': seq<string>)
    requires Takes(s, classify, a, p, c) && Takes(t, classify, a', p', c')
    ensures Takes(s + t, classify, a + a', p + p', c + c')
  {
    FilterAppend(OfKind(About, classify), s, t);
    FilterAppend(OfKind(Product, classify), s, t);
    FilterAppend(OfKind(Collection, classify), s, t);
  }

  /** Of two kinds, the later one is ahead only if the earlier has run out, and the earlier is
      ahead by more than one only if the later has. */
  ghost predicate Fair(earlier: nat, later: nat, sizeOfEarlier: nat, sizeOfLater: nat) {
    && (later > earlier ==> earlier == sizeOfEarlier)
    && (earlier > later + 1 ==> later == sizeOfLater)
  }

  function AtMost(n: nat, size: nat): nat { if n < size then n else size }

  /** Of lists of these sizes, taking the first i, j and k is fair. */
  ghost predicate FairCounts(a: nat, p: nat, c: nat, i: nat, j: nat, k: nat) {
    i <= a && j <= p && k <= c && Fair(i, j, a, p) && Fair(i, k, a, c) && Fair(j, k, p, c)
  }

  /** `s` has the first i, j and k of the three lists, and the kinds took turns. */
  ghost predicate FairSplit(s: seq<string>, classify: Classify, a: seq<string>, p: seq<string>, c: seq<string>, i: nat, j: nat, k: nat) {
    && FairCounts(|a|, |p|, |c|, i, j, k) && i + j + k == |s|
    && Takes(s, classify, a[..i], p[..j], c[..k])
  }

  lemma RoundIsFair(classify: Classify, a: seq<string>, p: seq<string>, c: seq<string>, n: nat) returns (i: nat, j: nat, k: nat)
    requires AllOf(About, classify, a) && AllOf(Product, classify, p) && AllOf(Collection, classify, c)
    requires n <= |Round(a, p, c)|
    ensures FairSplit(Interleaved(a, p, c)[..n], classify, a, p, c, i, j, k)
  {
    i := AtMost(n, |Front(a)|);
    j := AtMost(n - i, |Front(p)|);
    k := n - i - j;
    RoundPrefix(a, p, c, n, i, j, k);
    TakesRound(classify, a[..i], p[..j], c[..k]);
  }

  function LessOne(n: nat): nat { if n == 0 then 0 else n - 1 }

  /** A whole round more stays fair. */
  lemma FairOneMore(a: nat, p: nat, c: nat, x: nat, y: nat, z: nat)
    requires FairCounts(LessOne(a), LessOne(p), LessOne(c), x, y, z)
    ensures FairCounts(a, p, c, x + (a - LessOne(a)), y + (p - LessOne(p)), z + (c - LessOne(c)))
  {
  }

  lemma LaterIsFair(classify: Classify, a: seq<string>, p: seq<string>, c: seq<string>, s: seq<string>, x: nat, y: nat, z: nat, whole: seq<string>)
    returns (i: nat, j: nat, k: nat)
    requires AllOf(About, classify, a) && AllOf(Product, classify, p) && AllOf(Collection, classify, c)
    requires FairSplit(s, classify, Rest(a), Rest(p), Rest(c), x, y, z) && whole == Round(a, p, c) + s
    ensures FairSplit(whole, classify, a, p, c, i, j, k)
  {
    FairOneMore(|a|, |p|, |c|, x, y, z);
    LaterTakes(classify, a, p, c, s, x, y, z);
    i, j, k := x + |Front(a)|, y + |Front(p)|, z + |Front(c)|;
  }

  lemma LaterTakes(classify: Classify, a: seq<string>, p: seq<string>, c: seq<string>, s: seq<string>, x: nat, y: nat, z: nat)
    requires AllOf(About, classify, a) && AllOf(Product, classify, p) && AllOf(Collection, classify, c)
    requires x <= |Rest(a)| && y <= |Rest(p)| && z <= |Rest(c)|
    requires Takes(s, classify, Rest(a)[..x], Rest(p)[..y], Rest(c)[..z])
    ensures Takes(Round(a, p, c) + s, classify, a[..x + |Front(a)|], p[..y + |Front(p)|], c[..z + |Front(c)|])
  {
    FrontIsOf(About, classify, a);
    FrontIsOf(Product, classify, p);
    FrontIsOf(Collection, classify, c);
    TakesRound(classify, Front(a), Front(p), Front(c));
    TakesMore(Round(a, p, c), s, classify, Front(a), Front(p), Front(c), Rest(a)[..x], Rest(p)[..y], Rest(c)[..z]);
    FrontOfRest(a, x);
    FrontOfRest(p, y);
    FrontOfRest(c, z);
  }

  lemma LaterPrefixIsFair(classify: Classify, a: seq<string>, p: seq<string>, c: seq<string>, n: nat, x: nat, y: nat, z: nat)
    returns (i: nat, j: nat, k: nat)
    requires AllOf(About, classify, a) && AllOf(Product, classify, p) && AllOf(Collection, classify, c)
    requires |Round(a, p, c)| < n <= |a| + |p| + |c|
    requires FairSplit(Interleaved(Rest(a), Rest(p), Rest(c))[..n - |Round(a, p, c)|], classify, Rest(a), Rest(p), Rest(c), x, y, z)
    ensures FairSplit(Interleaved(a, p, c)[..n], classify, a, p, c, i, j, k)
  {
    StartsWithRound(a, p, c);
    var later := Interleaved(Rest(a), Rest(p), Rest(c));
    PrefixOfJoined(Round(a, p, c), later, n);
    i, j, k := LaterIsFair(classify, a, p, c, later[..n - |Round(a, p, c)|], x, y, z, Interleaved(a, p, c)[..n]);
  }

  lemma {:induction false} PrefixIsFair(classify: Classify, a: seq<string>, p: seq<string>, c: seq<string>, n: nat)
    returns (i: nat, j: nat, k: nat)
    requires AllOf(About, classify, a) && AllOf(Product, classify, p) && AllOf(Collection, classify, c)
    requires n <= |a| + |p| + |c|
    ensures FairSplit(Interleaved(a, p, c)[..n], classify, a, p, c, i, j, k)
    decreases |a| + |p| + |c|
  {
    var round := |Round(a, p, c)|;
    if n <= round {
      i, j, k := RoundIsFair(classify, a, p, c, n);
    } else {
      RestIsOf(About, classify, a);
      RestIsOf(Product, classify, p);
      RestIsOf(Collection, classify, c);
      var x, y, z := PrefixIsFair(classify, Rest(a), Rest(p), Rest(c), n - round);
      i, j, k := LaterPrefixIsFair(classify, a, p, c, n, x, y, z);
    }
  }

  lemma StartsWithRound(a: seq<string>, p: seq<string>, c: seq<string>)
    ensures Interleaved(a, p, c) == Round(a, p, c) + Interleaved(Rest(a), Rest(p), Rest(c))
  {
  }

  lemma PrefixOfJoined(s: seq<string>, t: seq<string>, n: nat)
    requires |s| <= n <= |s| + |t|
    ensures (s + t)[..n] == s + t[..n - |s|]
  {
  }

  lemma FrontIsOf(kind: PageKind, classify: Classify, s: seq<string>)
    requires AllOf(kind, classify, s)
    ensures AllOf(kind, classify, Front(s))
  {
  }

  lemma RestIsOf(kind: PageKind, classify: Classify, s: seq<string>)
    requires AllOf(kind, classify, s)
    ensures AllOf(kind, classify, Rest(s))
  {
  }

  lemma RoundPrefix(a: seq<string>, p: seq<string>, c: seq<string>, n: nat, i: nat, j: nat, k: nat)
    requires n <= |Round(a, p, c)|
    requires i == AtMost(n, |Front(a)|) && j == AtMost(n - i, |Front(p)|) && k == n - i - j
    ensures Interleaved(a, p, c)[..n] == a[..i] + p[..j] + c[..k]
  {
    StartsWithRound(a, p, c);
    PrefixInside(Round(a, p, c), Interleaved(Rest(a), Rest(p), Rest(c)), n);
    PrefixOfThree(Front(a), Front(p), Front(c), n, i, j, k);
    PrefixOfFront(a, i);
    PrefixOfFront(p, j);
    PrefixOfFront(c, k);
  }

  lemma PrefixInside(s: seq<string>, t: seq<string>, n: nat)
    requires n <= |s|
    ensures (s + t)[..n] == s[..n]
  {
  }

  lemma PrefixOfThree(x: seq<string>, y: seq<string>, z: seq<string>, n: nat, i: nat, j: nat, k: nat)
    requires n <= |x| + |y| + |z| && i == AtMost(n, |x|) && j == AtMost(n - i, |y|) && k == n - i - j
    ensures (x + y + z)[..n] == x[..i] + y[..j] + z[..k]
  {
  }

  lemma PrefixOfFront(s: seq<string>, i: nat)
    requires i <= |Front(s)|
    ensures Front(s)[..i] == s[..i]
  {
  }

  lemma FrontOfRest(s: seq<string>, i: nat)
    requires i <= |Rest(s)|
    ensures Front(s) + Rest(s)[..i] == s[..i + |Front(s)|]
  {
  }

  /** The kinds take turns. Each kind's pages are the first of its bucket, in the map's order;
      about pages come first, and no kind falls more than one behind another before its bucket
      is used up. */
  lemma SelectionIsFair(site: string, links: seq<string>, budget: int, classify: Classify) returns (i: nat, j: nat, k: nat)
    requires budget > 0
    ensures FairSplit(Selected(site, links, budget, classify)[1..], classify, Bucket(About, site, links, classify),
                      Bucket(Product, site, links, classify), Bucket(Collection, site, links, classify), i, j, k)
  {
    BucketIsOfKind(About, site, links, classify);
    BucketIsOfKind(Product, site, links, classify);
    BucketIsOfKind(Collection, site, links, classify);
    i, j, k := CutIsFair(site, budget, classify, Selected(site, links, budget, classify)[1..], Bucket(About, site, links, classify),
                         Bucket(Product, site, links, classify), Bucket(Collection, site, links, classify));
  }

  lemma CutIsFair(site: string, budget: int, classify: Classify, taken: seq<string>, a: seq<string>, p: seq<string>, c: seq<string>)
    returns (i: nat, j: nat, k: nat)
    requires budget > 0 && AllOf(About, classify, a) && AllOf(Product, classify, p) && AllOf(Collection, classify, c)
    requires var r := [site] + Interleaved(a, p, c); taken == (if |r| <= budget then r else r[..budget])[1..]
    ensures FairSplit(taken, classify, a, p, c, i, j, k)
  {
    var n := AtMost(budget - 1, |a| + |p| + |c|);
    CutAt(site, Interleaved(a, p, c), budget, taken, n);
    i, j, k := PrefixIsFair(classify, a, p, c, n);
  }

  lemma CutAt(site: string, tail: seq<string>, budget: int, taken: seq<string>, n: nat)
    requires budget > 0 && n == AtMost(budget - 1, |tail|)
    requires var r := [site] + tail; taken == (if |r| <= budget then r else r[..budget])[1..]
    ensures n <= |tail| && taken == tail[..n]
  {
    TailOfRanking(site, tail, budget);
  }

  lemma TailOfRanking(site: string, tail: seq<string>, budget: int)
    requires budget > 0
    ensures var r := [site] + tail;
      (if |r| <= budget then r else r[..budget])[1..] == tail[..AtMost(budget - 1, |tail|)]
  {
  }

  lemma BucketIsOfKind(kind: PageKind, site: string, links: seq<string>, classify: Classify)
    ensures AllOf(kind, classify, Bucket(kind, site, links, classify))
  {
    var bucket := Bucket(kind, site, links, classify);
    forall k | 0 <= k < |bucket| ensures classify(bucket[k]) == kind {
      var x := bucket[k];
      assert x in bucket;
      BucketElements(kind, site, links, classify, x);
    }
  }
}
