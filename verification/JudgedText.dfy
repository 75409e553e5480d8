/** On which text a cached answer was given, over any sequence of requests to one enricher. */
module JudgedText {
  import opened Outcomes
  import opened Models
  import opened Ordering
  import opened Enricher
  import opened Prompts
  import opened EnrichmentCache
  import opened CachedAnswers

  // ---------------------------------------------------------------- what the calls asked about

  ghost predicate OnlyOf(asked: seq<seq<Mention>>, mentions: seq<Mention>) {
    forall c, m :: 0 <= c < |asked| && m in asked[c] ==> m in mentions
  }

  lemma CallsAskOnly(asked: seq<seq<Mention>>, batch: seq<Mention>, chat: Chat)
    requires |asked| > 0 && asked[0] == batch && |asked| <= 2 && (|asked| == 2 ==> asked[1] == Remainder(chat, batch))
    ensures OnlyOf(asked, batch)
  {
    forall k, m | 0 <= k < |asked| && m in asked[k] ensures m in batch {
      if k > 0 {
        RemainderIsOfBatch(chat, batch, m);
      }
    }
  }

  lemma OneBatchAsks(cache: Cache, batch: seq<Mention>, chat: nat -> Chat, first: nat)
    ensures OnlyOf(OneBatch(cache, batch, chat, first).asked, batch)
  {
    BatchConserved(batch, chat, first);
    CallsAskOnly(Classified(batch, chat, first).asked, batch, chat(first));
  }

  ghost predicate AsksOnly(serve: Server) {
    forall cache, batch, first: nat :: OnlyOf(serve(cache, batch, first).asked, batch)
  }

  lemma ServingAsksOnly(chat: nat -> Chat)
    ensures AsksOnly(Serving(chat))
  {
    forall cache, batch, first: nat ensures OnlyOf(Serving(chat)(cache, batch, first).asked, batch) {
      OneBatchAsks(cache, batch, chat, first);
    }
  }

  lemma ServedAsksOnly(serve: Server, p: Progress, batches: seq<seq<Mention>>, mentions: seq<Mention>, first: nat, k: nat)
    requires AsksOnly(serve) && k < |batches| && OnlyOf(p.asked, mentions) && OnlyOf(batches, mentions)
    ensures OnlyOf(Served(serve, p, batches, first, k).asked, mentions)
  {
    var one := serve(p.cache, batches[k], first + |p.asked|);
    assert OnlyOf(one.asked, batches[k]);
    forall c, m | 0 <= c < |p.asked + one.asked| && m in (p.asked + one.asked)[c] ensures m in mentions {
      if c >= |p.asked| {
        assert m in one.asked[c - |p.asked|];
      }
    }
  }

  lemma BatchesAskOnly(serve: Server, start: Progress, batches: seq<seq<Mention>>, mentions: seq<Mention>, first: nat)
    requires AsksOnly(serve) && OnlyOf(start.asked, mentions) && OnlyOf(batches, mentions)
    ensures OnlyOf(Batched(serve, start, batches, first, |batches|).asked, mentions)
  {
    forall p: Progress, k: nat | k < |batches| && OnlyOf(p.asked, mentions)
      ensures OnlyOf(Served(serve, p, batches, first, k).asked, mentions)
    {
      ServedAsksOnly(serve, p, batches, mentions, first, k);
    }
    BatchedKeeps((p: Progress, k: nat) => OnlyOf(p.asked, mentions), serve, start, batches, first, |batches|);
  }

  /** A request asks about its own mentions only. */
  lemma RequestAsksOnly(cache: Cache, mentions: seq<Mention>, requested: int, chat: nat -> Chat, first: nat)
    ensures OnlyOf(Handled(cache, mentions, requested, chat, first).asked, mentions)
  {
    var misses := Misses(cache, mentions);
    var batches := Chunks(misses, BatchSize(requested));
    forall c, m | 0 <= c < |batches| && m in batches[c] ensures m in mentions {
      ChunksCover(misses, BatchSize(requested), m);
      MissesAreOfRequest(cache, mentions, m);
    }
    ServingAsksOnly(chat);
    BatchesAskOnly(Serving(chat), Nothing(cache, Hits(cache, mentions)), batches, mentions, first);
  }

  ghost predicate FromSome(requests: seq<Request>, n: nat, m: Mention) {
    exists r: nat :: r < n && r < |requests| && m in requests[r].mentions
  }

  ghost predicate AllFromSome(requests: seq<Request>, n: nat, asked: seq<seq<Mention>>) {
    forall c, m :: 0 <= c < |asked| && m in asked[c] ==> FromSome(requests, n, m)
  }

  lemma MoreFromSome(requests: seq<Request>, n: nat, early: seq<seq<Mention>>, late: seq<seq<Mention>>)
    requires n < |requests| && AllFromSome(requests, n, early) && OnlyOf(late, requests[n].mentions)
    ensures AllFromSome(requests, n + 1, early + late)
  {
    forall c, m | 0 <= c < |early + late| && m in (early + late)[c] ensures FromSome(requests, n + 1, m) {
      if c < |early| {
        assert FromSome(requests, n, m);
        var r: nat :| r < n && m in requests[r].mentions;
      } else {
        assert m in late[c - |early|];
      }
    }
  }

  lemma SessionAsked(requests: seq<Request>, chat: nat -> Chat, n: nat, p: Progress) returns (late: seq<seq<Mention>>)
    requires n < |requests| && p == Session(requests, chat, n)
    ensures Session(requests, chat, n + 1).asked == p.asked + late && OnlyOf(late, requests[n].mentions)
  {
    late := Handled(p.cache, requests[n].mentions, requests[n].batchSize, chat, |p.asked|).asked;
    RequestAsksOnly(p.cache, requests[n].mentions, requests[n].batchSize, chat, |p.asked|);
  }

  ghost predicate Adds(early: seq<seq<Mention>>, all: seq<seq<Mention>>, mentions: seq<Mention>) {
    exists late :: all == early + late && OnlyOf(late, mentions)
  }

  lemma {:induction false} AddedFromSome(asked: nat -> seq<seq<Mention>>, requests: seq<Request>, n: nat)
    requires n <= |requests| && asked(0) == []
    requires forall k: nat :: k < |requests| ==> Adds(asked(k), asked(k + 1), requests[k].mentions)
    ensures AllFromSome(requests, n, asked(n))
  {
    if n > 0 {
      AddedFromSome(asked, requests, n - 1);
      assert Adds(asked(n - 1), asked(n - 1 + 1), requests[n - 1].mentions);
      var late :| asked(n) == asked(n - 1) + late && OnlyOf(late, requests[n - 1].mentions);
      MoreFromSome(requests, n - 1, asked(n - 1), late);
    }
  }

  function AskedBy(requests: seq<Request>, chat: nat -> Chat): nat -> seq<seq<Mention>> {
    (n: nat) => if n <= |requests| then Session(requests, chat, n).asked else []
  }

  lemma StepAdds(requests: seq<Request>, chat: nat -> Chat, k: nat)
    requires k < |requests|
    ensures Adds(AskedBy(requests, chat)(k), AskedBy(requests, chat)(k + 1), requests[k].mentions)
  {
    var late := SessionAsked(requests, chat, k, Session(requests, chat, k));
  }

  /** Every call asked about mentions of the requests so far. */
  lemma SessionAsksOnly(requests: seq<Request>, chat: nat -> Chat, n: nat)
    requires n <= |requests|
    ensures AllFromSome(requests, n, Session(requests, chat, n).asked)
  {
    var asked := AskedBy(requests, chat);
    forall k: nat | k < |requests| ensures Adds(asked(k), asked(k + 1), requests[k].mentions) {
      StepAdds(requests, chat, k);
    }
    AddedFromSome(asked, requests, n);
  }

  // ---------------------------------------------------------------- on whose text

  /** The requests as the model is asked about them. */
  function Redacted(requests: seq<Request>, redact: string -> string): (asked: seq<Request>)
    ensures |asked| == |requests|
    ensures forall r :: 0 <= r < |requests| ==>
      asked[r] == Request(AsAsked(requests[r].mentions, redact, requests[r].mentions), requests[r].batchSize)
  {
    seq(|requests|, r requires 0 <= r < |requests| =>
      Request(AsAsked(requests[r].mentions, redact, requests[r].mentions), requests[r].batchSize))
  }

  lemma AsAskedAgrees(request: seq<Mention>, redact: string -> string)
    requires IdsAgree(request)
    ensures IdsAgree(AsAsked(request, redact, request))
  {
    var asked := AsAsked(request, redact, request);
    forall i, j | 0 <= i < |asked| && 0 <= j < |asked| && asked[i].id == asked[j].id ensures OwnKey(asked[i]) == OwnKey(asked[j]) {
      assert OwnKey(asked[i]) == OwnKey(request[i]) && OwnKey(asked[j]) == OwnKey(request[j]);
    }
  }

  /** Every cached answer was given for a mention of some request with the entry's key, in a
      call that asked about that mention's own redacted text, as long as the mentions of one
      request that share an id share their content and their text. */
  lemma CachedOnOwnText(requests: seq<Request>, redact: string -> string, chat: nat -> Chat, n: nat, key: string)
    returns (r: nat, k: nat, call: nat)
    requires n <= |requests|
    requires forall l :: 0 <= l < |requests| ==> IdsAgree(requests[l].mentions) && TextsAgree(requests[l].mentions, redact)
    requires key in Session(Redacted(requests, redact), chat, n).cache
    ensures r < n && k < |requests[r].mentions|
    ensures var p, m := Session(Redacted(requests, redact), chat, n), requests[r].mentions[k];
      && m.contentHash != "" && CacheKey(m) == key
      && AnsweredIn(p.cache[key], m.(text := redact(m.text)), call, p.asked, chat)
  {
    var asked := Redacted(requests, redact);
    forall l | 0 <= l < |asked| ensures IdsAgree(asked[l].mentions) {
      AsAskedAgrees(requests[l].mentions, redact);
    }
    CacheIsGenuine(asked, chat, n);
    var p := Session(asked, chat, n);
    assert AnswersKey(p.cache[key], key, p.asked, chat);
    var x: Mention, c: nat :| x.contentHash != "" && CacheKey(x) == key && AnsweredIn(p.cache[key], x, c, p.asked, chat);
    call := c;
    SessionAsksOnly(asked, chat, n);
    assert FromSome(asked, n, x);
    r :| r < n && r < |asked| && x in asked[r].mentions;
    k := MentionAskedAs(requests[r].mentions, redact, x);
  }

  lemma MentionAskedAs(request: seq<Mention>, redact: string -> string, x: Mention) returns (k: nat)
    requires TextsAgree(request, redact) && x in AsAsked(request, redact, request)
    ensures k < |request| && x == request[k].(text := redact(request[k].text)) && CacheKey(x) == CacheKey(request[k])
  {
    var asked := AsAsked(request, redact, request);
    k :| 0 <= k < |asked| && asked[k] == x;
    JudgedOnOwnTextWhen(request, redact);
  }
}
