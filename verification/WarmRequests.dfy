/** The warm cache under overlap: a corpus that one request has had answered in full costs
  nothing again, whatever other requests are under way (`agents/bp-enricher/handler.go`). */
module WarmRequests {
  import opened Outcomes
  import opened Models
  import opened Ordering
  import opened Enricher
  import opened EnrichmentCache
  import opened CachedAnswers
  import opened ParallelRequests

  // ---------------------------------------------------------------- nothing is forgotten

  lemma AdvanceKeepsKeys(r: Request, chat: nat -> Chat, s: State, i: nat)
    requires i < |s.works|
    ensures s.cache.Keys <= Advance(r, chat, s, i).cache.Keys
  {
    var w := s.works[i];
    if w.looked >= |r.mentions| && w.filed < |BatchesOf(r, w)| && w.pending.Some? {
      forall key | key in s.cache ensures key in Advance(r, chat, s, i).cache {
        StoredKeys(s.cache, BatchesOf(r, w)[w.filed], PricedOf(w.pending.value), key);
      }
    }
  }

  lemma {:induction false} RunKeepsKeys(requests: seq<Request>, chat: nat -> Chat, s: State, schedule: seq<nat>)
    requires |s.works| == |requests|
    ensures s.cache.Keys <= Run(requests, chat, s, schedule).cache.Keys
  {
    if |schedule| > 0 {
      RunKeepsKeys(requests, chat, s, schedule[..|schedule| - 1]);
      var i := schedule[|schedule| - 1];
      if i < |requests| {
        AdvanceKeepsKeys(requests[i], chat, Run(requests, chat, s, schedule[..|schedule| - 1]), i);
      }
    }
  }

  // ---------------------------------------------------------------- what a request leaves in the cache

  /** A mention with a content hash is in the cache once it was looked up, or it is a miss. */
  ghost predicate LookedUp(r: Request, w: Work, cache: Cache) {
    && w.looked <= |r.mentions|
    && forall k :: 0 <= k < w.looked && r.mentions[k].contentHash != "" ==> CacheKey(r.mentions[k]) in cache || r.mentions[k] in w.misses
  }

  /** As long as nothing failed, the filed batches are in the cache, and the pending one was
      answered in full. */
  ghost predicate FiledSoFar(r: Request, w: Work, cache: Cache) {
    w.bill.failures == 0 ==>
      && (forall b :: 0 <= b < w.filed && b < |BatchesOf(r, w)| ==> Covers(cache, BatchesOf(r, w)[b]))
      && (w.pending.Some? ==> |w.pending.value.unanswered| == 0)
  }

  ghost predicate Fills(r: Request, w: Work, cache: Cache) {
    && Accounted(r, w) && LookedUp(r, w, cache) && FiledSoFar(r, w, cache)
    && forall m :: m in w.misses ==> m in r.mentions
  }

  lemma FillsLasts(r: Request, w: Work, before: Cache, after: Cache)
    requires Fills(r, w, before) && before.Keys <= after.Keys
    ensures Fills(r, w, after)
  {
    if w.bill.failures == 0 {
      forall b | 0 <= b < w.filed && b < |BatchesOf(r, w)| ensures Covers(after, BatchesOf(r, w)[b]) {
        CoverageLasts(before, after, BatchesOf(r, w)[b]);
      }
    }
    forall k | 0 <= k < w.looked && r.mentions[k].contentHash != ""
      ensures CacheKey(r.mentions[k]) in after || r.mentions[k] in w.misses
    {
      assert CacheKey(r.mentions[k]) in before ==> CacheKey(r.mentions[k]) in before.Keys;
    }
  }

  lemma LookingFills(cache: Cache, r: Request, w: Work)
    requires Fills(r, w, cache) && w.looked < |r.mentions|
    ensures Fills(r, LookNext(cache, r, w), cache)
  {
    LookingAccounts(cache, r, w);
    LookingFilesNothing(cache, r, w);
    var v, m := LookNext(cache, r, w), r.mentions[w.looked];
    assert m in r.mentions;
    forall k | 0 <= k < v.looked && r.mentions[k].contentHash != ""
      ensures CacheKey(r.mentions[k]) in cache || r.mentions[k] in v.misses
    {
      if k == w.looked && Looked(cache, m).None? {
        assert v.misses[|w.misses|] == m;
      }
    }
  }

  lemma AskingFills(cache: Cache, r: Request, w: Work, c: Classification)
    requires Fills(r, w, cache) && w.looked >= |r.mentions| && w.filed < |BatchesOf(r, w)|
    requires Conserves(c, BatchesOf(r, w)[w.filed])
    ensures Fills(r, w.(pending := Some(c), bill := Billed(w.bill, c)), cache)
  {
    AskingAccounts(r, w, c);
  }

  /** The answers of a batch that was answered in full cover it. */
  lemma FullAnswerCovers(cache: Cache, batch: seq<Mention>, c: Classification)
    requires IdsAgree(batch) && Conserves(c, batch) && |c.unanswered| == 0
    ensures Covers(Stored(cache, batch, PricedOf(c)), batch)
  {
    assert Ids(c.unanswered) == [] && EnrichmentIds(PricedOf(c)) == EnrichmentIds(c.answered);
    StoredCovers(cache, batch, PricedOf(c));
  }

  lemma FilingCovers(r: Request, w: Work, v: Work, c: Classification, before: Cache, after: Cache, batch: seq<Mention>)
    requires FiledSoFar(r, w, after) && w.pending == Some(c) && IdsAgree(batch) && Conserves(c, batch)
    requires w.filed < |BatchesOf(r, w)| && batch == BatchesOf(r, w)[w.filed] && after == Stored(before, batch, PricedOf(c))
    requires v.misses == w.misses && v.filed == w.filed + 1 && v.pending.None? && v.bill == w.bill
    ensures FiledSoFar(r, v, after)
  {
    if w.bill.failures == 0 {
      FullAnswerCovers(before, batch, c);
    }
  }

  lemma FilingFills(cache: Cache, r: Request, w: Work, c: Classification, after: Cache)
    requires Fills(r, w, cache) && w.pending == Some(c) && IdsAgree(r.mentions) && cache.Keys <= after.Keys
    requires w.filed < |BatchesOf(r, w)| && after == Stored(cache, BatchesOf(r, w)[w.filed], PricedOf(c))
    ensures Fills(r, w.(pending := None, filed := w.filed + 1, out := w.out + (PricedOf(c) + Neutrals(c.unanswered))), after)
  {
    var v := w.(pending := None, filed := w.filed + 1, out := w.out + (PricedOf(c) + Neutrals(c.unanswered)));
    FilingAccounts(r, w, c);
    FillsLasts(r, w, cache, after);
    BatchOfRequestAgrees(r, w, w.filed);
    FilingCovers(r, w, v, c, cache, after, BatchesOf(r, w)[w.filed]);
  }

  lemma LookFills(r: Request, chat: nat -> Chat, s: State, i: nat, w: Work, t: State)
    requires i < |s.works| && s.works[i] == w && Fills(r, w, s.cache) && w.looked < |r.mentions| && t == Advance(r, chat, s, i)
    ensures Fills(r, t.works[i], t.cache)
  {
    LookingFills(s.cache, r, w);
  }

  lemma AskFills(r: Request, chat: nat -> Chat, s: State, i: nat, w: Work, batch: seq<Mention>, t: State)
    requires i < |s.works| && s.works[i] == w && Fills(r, w, s.cache) && w.pending.None? && t == Advance(r, chat, s, i)
    requires w.looked >= |r.mentions| && w.filed < |BatchesOf(r, w)| && batch == BatchesOf(r, w)[w.filed]
    ensures Fills(r, t.works[i], t.cache)
  {
    var c := Classified(batch, chat, |s.asked|);
    BatchConserved(batch, chat, |s.asked|);
    AskingFills(s.cache, r, w, c);
    assert t.works[i] == w.(pending := Some(c), bill := Billed(w.bill, c));
  }

  lemma FileFills(r: Request, chat: nat -> Chat, s: State, i: nat, w: Work, c: Classification, t: State)
    requires i < |s.works| && s.works[i] == w && Fills(r, w, s.cache) && w.pending == Some(c) && t == Advance(r, chat, s, i)
    requires w.looked >= |r.mentions| && w.filed < |BatchesOf(r, w)| && IdsAgree(r.mentions) && s.cache.Keys <= t.cache.Keys
    ensures Fills(r, t.works[i], t.cache)
  {
    FilesPending(r, chat, s, i, w.filed, BatchesOf(r, w)[w.filed], c);
    FilingFills(s.cache, r, w, c, t.cache);
  }

  lemma AdvanceFills(r: Request, chat: nat -> Chat, s: State, i: nat, w: Work, t: State)
    requires i < |s.works| && s.works[i] == w && Fills(r, w, s.cache) && IdsAgree(r.mentions) && t == Advance(r, chat, s, i)
    ensures Fills(r, t.works[i], t.cache)
  {
    AdvanceKeepsKeys(r, chat, s, i);
    if w.looked < |r.mentions| {
      LookFills(r, chat, s, i, w, t);
    } else if w.filed < |BatchesOf(r, w)| {
      match w.pending
      case None => AskFills(r, chat, s, i, w, BatchesOf(r, w)[w.filed], t);
      case Some(c) => FileFills(r, chat, s, i, w, c, t);
    }
  }

  lemma {:induction false} RunFills(requests: seq<Request>, chat: nat -> Chat, schedule: seq<nat>, i: nat)
    requires i < |requests| && IdsAgree(requests[i].mentions)
    ensures var s := Run(requests, chat, Start(|requests|), schedule); Fills(requests[i], s.works[i], s.cache)
  {
    if |schedule| > 0 {
      RunFills(requests, chat, schedule[..|schedule| - 1], i);
      var s, k := Run(requests, chat, Start(|requests|), schedule[..|schedule| - 1]), schedule[|schedule| - 1];
      if k == i {
        AdvanceFills(requests[i], chat, s, i, s.works[i], Advance(requests[i], chat, s, i));
      } else if k < |requests| {
        AdvanceKeepsKeys(requests[k], chat, s, k);
        FillsLasts(requests[i], s.works[i], s.cache, Advance(requests[k], chat, s, k).cache);
      }
    }
  }

  lemma FinishedCovers(r: Request, w: Work, cache: Cache)
    requires Fills(r, w, cache) && Finished(r, w) && w.bill.failures == 0
    ensures Covers(cache, r.mentions)
  {
    forall m | m in r.mentions && m.contentHash != "" ensures CacheKey(m) in cache {
      var k :| 0 <= k < |r.mentions| && r.mentions[k] == m;
      if m in w.misses {
        ChunksCover(w.misses, BatchSize(r.batchSize), m);
        var b :| 0 <= b < |BatchesOf(r, w)| && m in BatchesOf(r, w)[b];
        assert Covers(cache, BatchesOf(r, w)[b]);
      }
    }
  }

  // ---------------------------------------------------------------- asking again

  /** Only hits so far, and nothing asked or paid. */
  ghost predicate OnlyHits(w: Work) {
    w.misses == [] && w.filed == 0 && w.out == [] && w.pending.None? && w.bill == NO_BILL && |w.hits| == w.looked
  }

  lemma OnlyHitsLasts(r: Request, chat: nat -> Chat, s: State, i: nat, w: Work)
    requires i < |s.works| && s.works[i] == w && OnlyHits(w)
    requires Covers(s.cache, r.mentions) && forall m :: m in r.mentions ==> m.contentHash != ""
    ensures OnlyHits(Advance(r, chat, s, i).works[i]) && Advance(r, chat, s, i).asked == s.asked
  {
    if w.looked < |r.mentions| {
      assert r.mentions[w.looked] in r.mentions;
    }
  }

  lemma {:induction false} CoveredStaysFree(requests: seq<Request>, chat: nat -> Chat, s: State, later: seq<nat>, j: nat)
    requires |s.works| == |requests| && j < |requests| && OnlyHits(s.works[j])
    requires Covers(s.cache, requests[j].mentions) && forall m :: m in requests[j].mentions ==> m.contentHash != ""
    ensures OnlyHits(Run(requests, chat, s, later).works[j])
  {
    if |later| > 0 {
      var earlier, k := later[..|later| - 1], later[|later| - 1];
      CoveredStaysFree(requests, chat, s, earlier, j);
      if k == j {
        RunKeepsKeys(requests, chat, s, earlier);
        CoverageLasts(s.cache, Run(requests, chat, s, earlier).cache, requests[j].mentions);
        OnlyHitsLasts(requests[j], chat, Run(requests, chat, s, earlier), j, Run(requests, chat, s, earlier).works[j]);
      }
    }
  }

  /** Every mention has a content hash, and one of the same brand and content was in `corpus`. */
  ghost predicate KnownFrom(mentions: seq<Mention>, corpus: seq<Mention>) {
    forall m :: m in mentions ==> m.contentHash != "" && exists x :: x in corpus && x.contentHash != "" && CacheKey(x) == CacheKey(m)
  }

  lemma KnownIsCovered(cache: Cache, mentions: seq<Mention>, corpus: seq<Mention>)
    requires Covers(cache, corpus) && KnownFrom(mentions, corpus)
    ensures Covers(cache, mentions)
  {
    forall m | m in mentions ensures CacheKey(m) in cache {
      var x :| x in corpus && x.contentHash != "" && CacheKey(x) == CacheKey(m);
    }
  }

  /** Once a request has come back with every mention answered, a request that begins later and
      brings nothing new asks the model nothing and pays nothing, whatever other requests
      overlap it; when it is finished it has answered each of its mentions from the cache. */
  lemma {:induction false} WarmRequestIsFree(requests: seq<Request>, chat: nat -> Chat, earlier: seq<nat>, later: seq<nat>, i: nat, j: nat)
    requires i < |requests| && j < |requests| && IdsAgree(requests[i].mentions) && KnownFrom(requests[j].mentions, requests[i].mentions)
    requires var s := Run(requests, chat, Start(|requests|), earlier);
      Finished(requests[i], s.works[i]) && s.works[i].bill.failures == 0 && s.works[j] == FRESH
    ensures var w := Run(requests, chat, Start(|requests|), earlier + later).works[j];
      OnlyHits(w) && (Finished(requests[j], w) ==> Returned(w) == w.hits && |w.hits| >= |requests[j].mentions|)
  {
    var s := Run(requests, chat, Start(|requests|), earlier);
    RunFills(requests, chat, earlier, i);
    FinishedCovers(requests[i], s.works[i], s.cache);
    KnownIsCovered(s.cache, requests[j].mentions, requests[i].mentions);
    RunInParts(requests, chat, Start(|requests|), earlier, later);
    CoveredStaysFree(requests, chat, s, later, j);
    var w := Run(requests, chat, s, later).works[j];
    assert w.hits + [] == w.hits;
  }

  lemma {:induction false} RunInParts(requests: seq<Request>, chat: nat -> Chat, s: State, first: seq<nat>, rest: seq<nat>)
    requires |s.works| == |requests|
    ensures Run(requests, chat, s, first + rest) == Run(requests, chat, Run(requests, chat, s, first), rest)
  {
    if |rest| == 0 {
      assert first + rest == first;
    } else {
      RunInParts(requests, chat, s, first, rest[..|rest| - 1]);
      assert (first + rest)[..|first + rest| - 1] == first + rest[..|rest| - 1];
    }
  }
}
