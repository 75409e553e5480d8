/** The page selection over the site map itself: `selectPages`, `dedupe` and `canonical` in
  `agents/bp-onboarder/onboarder.go`, link by link. */
module PagePicks {
  import opened Ordering
  import opened Lists
  import opened Positions
  import opened Pages

  /** `bare` is the link without its trailing slash, if it has one. */
  ghost predicate IsBareOf(link: string, bare: string) {
    link == bare + "/" || (link == bare && (|link| == 0 || link[|link| - 1] != '/'))
  }

  /** One page in two spellings. */
  ghost predicate SamePage(a: string, b: string) { exists bare :: IsBareOf(a, bare) && IsBareOf(b, bare) }

  lemma CanonicalIsBare(link: string, bare: string)
    ensures IsBareOf(link, bare) <==> Canonical(link) == bare
  {
    if |link| > 0 && link[|link| - 1] == '/' {
      assert link == link[..|link| - 1] + "/";
      if link == bare + "/" {
        assert bare == link[..|link| - 1];
      }
    }
  }

  lemma SamePageWhen(a: string, b: string)
    ensures SamePage(a, b) <==> Canonical(a) == Canonical(b)
  {
    CanonicalIsBare(a, Canonical(a));
    CanonicalIsBare(b, Canonical(b));
    if bare :| IsBareOf(a, bare) && IsBareOf(b, bare) {
      CanonicalIsBare(a, bare);
      CanonicalIsBare(b, bare);
    }
  }

  /** Link `k` of the map is the first of its page. */
  ghost predicate FirstOfPage(links: seq<string>, k: nat) {
    k < |links| && forall j :: 0 <= j < k ==> !SamePage(links[j], links[k])
  }

  /** It is not the homepage again and of this kind. */
  ghost predicate Candidate(kind: PageKind, site: string, links: seq<string>, classify: Classify, k: nat) {
    FirstOfPage(links, k) && !SamePage(links[k], site) && classify(links[k]) == kind
  }

  lemma SeenBefore(links: seq<string>, k: nat)
    requires k < |links|
    ensures FirstOfPage(links, k) <==> Canonical(links[k]) !in Canonicals(links[..k])
  {
    var before := Canonicals(links[..k]);
    forall j | 0 <= j < k ensures SamePage(links[j], links[k]) <==> before[j] == Canonical(links[k]) {
      SamePageWhen(links[j], links[k]);
    }
    if Canonical(links[k]) in before {
      var j :| 0 <= j < |before| && before[j] == Canonical(links[k]);
      assert SamePage(links[j], links[k]);
    }
  }

  /** Deduplication keeps the first link of every page, in the map's order. */
  lemma {:induction false} DedupedByPosition(links: seq<string>, n: nat) returns (at: seq<nat>)
    requires n <= |links|
    ensures Ascending(at) && Within(at, n) && Deduped(links[..n]) == ElementsAt(links, at)
    ensures forall k: nat :: k in at <==> k < n && FirstOfPage(links, k)
  {
    if n == 0 {
      at := [];
    } else {
      var before := DedupedByPosition(links, n - 1);
      assert links[..n][..n - 1] == links[..n - 1];
      SeenBefore(links, n - 1);
      if FirstOfPage(links, n - 1) {
        OneMorePosition(before, n - 1);
        ElementsOfMore(links, before, n - 1);
        at := before + [n - 1];
      } else {
        at := before;
      }
    }
  }

  lemma {:induction false} FilterByPosition(p: string -> bool, links: seq<string>, at: seq<nat>) returns (kept: seq<nat>)
    requires Ascending(at) && Within(at, |links|)
    ensures Ascending(kept) && Within(kept, |links|) && Filter(p, ElementsAt(links, at)) == ElementsAt(links, kept)
    ensures forall k: nat :: k in kept <==> k in at && k < |links| && p(links[k])
  {
    if |at| == 0 {
      kept := [];
    } else {
      var rest, last := at[..|at| - 1], at[|at| - 1];
      assert at == rest + [last];
      var before := FilterByPosition(p, links, rest);
      assert ElementsAt(links, at)[..|at| - 1] == ElementsAt(links, rest);
      if p(links[last]) {
        BeforeLast(rest, last, before);
        OneMorePosition(before, last);
        ElementsOfMore(links, before, last);
        kept := before + [last];
      } else {
        assert ElementsAt(links, before) + [] == ElementsAt(links, before);
        kept := before;
      }
    }
  }

  lemma BeforeLast(rest: seq<nat>, last: nat, before: seq<nat>)
    requires Ascending(rest + [last]) && forall k: nat :: k in before ==> k in rest
    ensures Within(before, last)
  {
    forall i | 0 <= i < |before| ensures before[i] < last {
      assert before[i] in before;
      var j :| 0 <= j < |rest| && rest[j] == before[i];
      assert (rest + [last])[j] < (rest + [last])[|rest|];
    }
  }

  /** The bucket of a kind holds its candidates, in the map's order. */
  lemma BucketByPosition(kind: PageKind, site: string, links: seq<string>, classify: Classify) returns (at: seq<nat>)
    ensures Ascending(at) && Within(at, |links|) && Bucket(kind, site, links, classify) == ElementsAt(links, at)
    ensures forall k: nat :: k in at <==> Candidate(kind, site, links, classify, k)
  {
    var first := DedupedByPosition(links, |links|);
    assert links[..|links|] == links;
    at := FilterByPosition(Wanted(kind, site, classify), links, first);
    forall k: nat ensures k in at <==> Candidate(kind, site, links, classify, k) {
      if k < |links| {
        SamePageWhen(links[k], site);
      }
    }
  }

  lemma PickIsCandidate(site: string, links: seq<string>, classify: Classify, x: string) returns (kind: PageKind, k: nat)
    requires x in Ranking(site, links, classify)[1..]
    ensures kind != Skip && Candidate(kind, site, links, classify, k) && links[k] == x
  {
    RankedIsWanted(site, links, classify, x);
    RankedIsInDeduped(site, links, classify, x);
    kind := classify(x);
    FilterElements(Wanted(kind, site, classify), Deduped(links), x);
    var at := BucketByPosition(kind, site, links, classify);
    var i :| 0 <= i < |ElementsAt(links, at)| && ElementsAt(links, at)[i] == x;
    k := at[i];
    assert k in at;
  }

  lemma CandidateIsRanked(kind: PageKind, site: string, links: seq<string>, classify: Classify, k: nat)
    requires kind != Skip && Candidate(kind, site, links, classify, k)
    ensures links[k] in Ranking(site, links, classify)
  {
    var at := BucketByPosition(kind, site, links, classify);
    assert k in at;
    var i :| 0 <= i < |at| && at[i] == k;
    var a, p, c := Bucket(About, site, links, classify), Bucket(Product, site, links, classify), Bucket(Collection, site, links, classify);
    assert Bucket(kind, site, links, classify)[i] == links[k];
    InterleavedElements(a, p, c);
    assert links[k] in multiset(a) + multiset(p) + multiset(c);
    assert links[k] in multiset(Interleaved(a, p, c));
    assert links[k] in Interleaved(a, p, c);
  }

  ghost predicate NoPageTwice(r: seq<string>) { forall i, j :: 0 <= i < j < |r| ==> !SamePage(r[i], r[j]) }

  ghost predicate IsPick(site: string, links: seq<string>, classify: Classify, x: string) {
    exists kind, k: nat :: kind != Skip && Candidate(kind, site, links, classify, k) && links[k] == x
  }

  ghost predicate HasAllPicks(r: seq<string>, site: string, links: seq<string>, classify: Classify) {
    forall kind, k: nat :: kind != Skip && Candidate(kind, site, links, classify, k) ==> links[k] in r
  }

  lemma DistinctPages(r: seq<string>)
    requires Distinct(Canonicals(r))
    ensures NoPageTwice(r)
  {
    forall i, j | 0 <= i < j < |r| ensures !SamePage(r[i], r[j]) {
      SamePageWhen(r[i], r[j]);
      assert Canonicals(r)[i] != Canonicals(r)[j];
    }
  }

  lemma RankingIsComplete(site: string, links: seq<string>, classify: Classify)
    ensures HasAllPicks(Ranking(site, links, classify), site, links, classify)
  {
    forall kind, k: nat | kind != Skip && Candidate(kind, site, links, classify, k) ensures links[k] in Ranking(site, links, classify) {
      CandidateIsRanked(kind, site, links, classify, k);
    }
  }

  /** Page `i` of a selection is page `i` of the ranking. */
  lemma PickIsPick(site: string, links: seq<string>, budget: int, classify: Classify, i: nat)
    requires budget > 0 && 1 <= i < |Selected(site, links, budget, classify)|
    ensures IsPick(site, links, classify, Selected(site, links, budget, classify)[i])
  {
    var r, ranking := Selected(site, links, budget, classify), Ranking(site, links, classify);
    assert ranking[1..][i - 1] == r[i];
    var kind, k := PickIsCandidate(site, links, classify, r[i]);
  }

  /** The pages picked are the site and then candidates, no page twice in any spelling, within
      the budget; with room left, every candidate of a kind that is read is among them. */
  lemma PicksInPlainTerms(site: string, links: seq<string>, budget: int, classify: Classify)
    requires budget > 0
    ensures var r := Selected(site, links, budget, classify);
      && 1 <= |r| <= budget && r[0] == site && NoPageTwice(r)
      && (forall i :: 1 <= i < |r| ==> IsPick(site, links, classify, r[i]))
      && (|r| < budget ==> HasAllPicks(r, site, links, classify))
  {
    SelectionIsSound(site, links, budget, classify);
    DistinctPages(Selected(site, links, budget, classify));
    RankingIsComplete(site, links, classify);
    forall i | 1 <= i < |Selected(site, links, budget, classify)|
      ensures IsPick(site, links, classify, Selected(site, links, budget, classify)[i])
    {
      PickIsPick(site, links, budget, classify, i);
    }
  }
}
