/** What the enricher's long-lived cache holds, over any sequence of requests: `lookup` and
  `store` in `agents/bp-enricher/handler.go`. */
module CachedAnswers {
  import opened Outcomes
  import opened Models
  import opened Ordering
  import opened Enricher
  import opened EnrichmentCache

  // ---------------------------------------------------------------- where an answer came from

  /** `e` is, but for its price, the usable answer that this call's reply has for `m`, and
      the call was asked about `m`. */
  ghost predicate AnsweredIn(e: Enrichment, m: Mention, call: nat, asked: seq<seq<Mention>>, chat: nat -> Chat) {
    && call < |asked| && m in asked[call]
    && chat(call).reply.Some? && AnswerFor(chat(call).reply.value, m) == Some(e.(cost := 0.0))
  }

  ghost predicate AnswersOneOf(e: Enrichment, batch: seq<Mention>, asked: seq<seq<Mention>>, chat: nat -> Chat) {
    exists m, call: nat :: m in batch && AnsweredIn(e, m, call, asked, chat)
  }

  ghost predicate AnswersKey(e: Enrichment, key: string, asked: seq<seq<Mention>>, chat: nat -> Chat) {
    exists m: Mention, call: nat :: m.contentHash != "" && CacheKey(m) == key && AnsweredIn(e, m, call, asked, chat)
  }

  /** Every entry is an answer the model gave for a mention with the entry's key. */
  ghost predicate Genuine(cache: Cache, asked: seq<seq<Mention>>, chat: nat -> Chat) {
    forall key :: key in cache ==> AnswersKey(cache[key], key, asked, chat)
  }

  lemma {:induction false} AnswerHasMention(items: seq<ReplyItem>, batch: seq<Mention>, i: nat) returns (m: Mention)
    requires i < |Answered(items, batch)|
    ensures m in batch && AnswerFor(items, m) == Some(Answered(items, batch)[i])
  {
    var rest := batch[..|batch| - 1];
    if i < |Answered(items, rest)| {
      m := AnswerHasMention(items, rest, i);
    } else {
      m := batch[|batch| - 1];
    }
  }

  lemma {:induction false} RemainderIsOfBatch(chat: Chat, batch: seq<Mention>, m: Mention)
    requires m in Remainder(chat, batch)
    ensures m in batch
  {
    if chat.reply.Some? {
      var rest := batch[..|batch| - 1];
      if m in Unanswered(chat.reply.value, rest) {
        RemainderIsOfBatch(chat, rest, m);
      }
    }
  }

  lemma CallAnswersOneOf(part: seq<Mention>, batch: seq<Mention>, asked: seq<seq<Mention>>, chat: nat -> Chat, call: nat, e: Enrichment)
    requires call < |asked| && asked[call] == part && forall m :: m in part ==> m in batch
    requires e in NewAnswers(chat(call), part)
    ensures AnswersOneOf(e, batch, asked, chat)
  {
    var i :| 0 <= i < |NewAnswers(chat(call), part)| && NewAnswers(chat(call), part)[i] == e;
    var m := AnswerHasMention(chat(call).reply.value, part, i);
    ReplyIsUnpriced(chat(call).reply.value, m);
    assert AnsweredIn(e, m, call, asked, chat);
  }

  lemma ReplyIsUnpriced(items: seq<ReplyItem>, m: Mention)
    ensures AnswerFor(items, m).Some? ==> AnswerFor(items, m).value.cost == 0.0
  {
  }

  ghost predicate AllAnswerBatch(c: Classification, batch: seq<Mention>, before: seq<seq<Mention>>, chat: nat -> Chat) {
    && (forall e :: e in c.answered ==> AnswersOneOf(e, batch, before + c.asked, chat))
    && forall m :: m in c.unanswered ==> m in batch
  }

  lemma OneCallAnswersBatch(c: Classification, batch: seq<Mention>, before: seq<seq<Mention>>, chat: nat -> Chat, call: nat)
    requires AllAnswerBatch(c, batch, before, chat) && call == |before| + |c.asked|
    ensures AllAnswerBatch(OneCall(c, chat(call)), batch, before, chat)
  {
    var next := OneCall(c, chat(call));
    var asked := before + next.asked;
    assert asked == before + c.asked + [c.unanswered];
    forall e | e in next.answered ensures AnswersOneOf(e, batch, asked, chat) {
      if e in c.answered {
        AnswersMoreAsked(e, batch, before + c.asked, asked, chat);
      } else {
        CallAnswersOneOf(c.unanswered, batch, asked, chat, call, e);
      }
    }
    forall m | m in next.unanswered ensures m in batch {
      RemainderIsOfBatch(chat(call), c.unanswered, m);
    }
  }

  lemma AnswersMoreAsked(e: Enrichment, batch: seq<Mention>, asked: seq<seq<Mention>>, more: seq<seq<Mention>>, chat: nat -> Chat)
    requires AnswersOneOf(e, batch, asked, chat) && asked <= more
    ensures AnswersOneOf(e, batch, more, chat)
  {
    var m, call: nat :| m in batch && AnsweredIn(e, m, call, asked, chat);
    assert AnsweredIn(e, m, call, more, chat);
  }

  lemma {:induction false} CallsAnswerBatch(batch: seq<Mention>, chat: nat -> Chat, before: seq<seq<Mention>>, n: nat)
    returns (c: Classification)
    ensures c == AfterCalls(batch, chat, |before|, n) && |c.asked| == n
    ensures AllAnswerBatch(c, batch, before, chat)
  {
    if n == 0 {
      c := NoCalls(batch);
    } else {
      var earlier := CallsAnswerBatch(batch, chat, before, n - 1);
      OneCallAnswersBatch(earlier, batch, before, chat, |before| + n - 1);
      c := OneCall(earlier, chat(|before| + n - 1));
    }
  }

  lemma ClassifiedAnswersBatch(batch: seq<Mention>, chat: nat -> Chat, before: seq<seq<Mention>>) returns (c: Classification)
    ensures c == Classified(batch, chat, |before|)
    ensures AllAnswerBatch(c, batch, before, chat)
  {
    ClassifiedIsAfterCalls(batch, chat, |before|);
    c := CallsAnswerBatch(batch, chat, before, CallsFor(batch, chat, |before|));
  }

  lemma PricedAnswersBatch(c: Classification, batch: seq<Mention>, before: seq<seq<Mention>>, chat: nat -> Chat, k: nat)
    requires AllAnswerBatch(c, batch, before, chat) && k < |c.answered|
    ensures AnswersOneOf(Priced(c.answered, c.usage.cost)[k], batch, before + c.asked, chat)
  {
    var e := c.answered[k];
    assert e in c.answered;
    var m, call: nat :| m in batch && AnsweredIn(e, m, call, before + c.asked, chat);
    var priced := Priced(c.answered, c.usage.cost)[k];
    assert AnsweredIn(priced, m, call, before + c.asked, chat);
  }

  lemma FiledUnderOwnKey(batch: seq<Mention>, m: Mention)
    requires m in batch && IdsAgree(batch)
    ensures KeyOf(batch, m.id) == OwnKey(m)
  {
    FiledRightWhen(batch);
    var k :| 0 <= k < |batch| && batch[k] == m;
    assert KeyOf(batch, batch[k].id) == OwnKey(batch[k]);
  }

  lemma {:induction false} StoredGenuine(cache: Cache, batch: seq<Mention>, es: seq<Enrichment>, asked: seq<seq<Mention>>, chat: nat -> Chat)
    requires Genuine(cache, asked, chat) && IdsAgree(batch)
    requires forall k :: 0 <= k < |es| ==> AnswersOneOf(es[k], batch, asked, chat)
    ensures Genuine(Stored(cache, batch, es), asked, chat)
  {
    if |es| > 0 {
      var rest, last := es[..|es| - 1], es[|es| - 1];
      StoredGenuine(cache, batch, rest, asked, chat);
      var m, call: nat :| m in batch && AnsweredIn(last, m, call, asked, chat);
      FiledUnderOwnKey(batch, m);
      var key := KeyOf(batch, last.mentionId);
      assert key != "" ==> AnswersKey(last, key, asked, chat);
    }
  }

  lemma GenuineGrows(cache: Cache, asked: seq<seq<Mention>>, more: seq<seq<Mention>>, chat: nat -> Chat)
    requires Genuine(cache, asked, chat)
    ensures Genuine(cache, asked + more, chat)
  {
    forall key | key in cache ensures AnswersKey(cache[key], key, asked + more, chat) {
      assert AnswersKey(cache[key], key, asked, chat);
      var m: Mention, call: nat :| m.contentHash != "" && CacheKey(m) == key && AnsweredIn(cache[key], m, call, asked, chat);
      assert AnsweredIn(cache[key], m, call, asked + more, chat);
    }
  }

  /** Genuine, after the calls made `before` and those of `p`. */
  ghost predicate GenuineAfter(p: Progress, before: seq<seq<Mention>>, chat: nat -> Chat) {
    Genuine(p.cache, before + p.asked, chat)
  }

  lemma OneBatchGenuine(cache: Cache, batch: seq<Mention>, chat: nat -> Chat, before: seq<seq<Mention>>)
    requires Genuine(cache, before, chat) && IdsAgree(batch)
    ensures GenuineAfter(OneBatch(cache, batch, chat, |before|), before, chat)
  {
    var c := ClassifiedAnswersBatch(batch, chat, before);
    var priced := Priced(c.answered, c.usage.cost);
    GenuineGrows(cache, before, c.asked, chat);
    forall k | 0 <= k < |priced| ensures AnswersOneOf(priced[k], batch, before + c.asked, chat) {
      PricedAnswersBatch(c, batch, before, chat, k);
    }
    StoredGenuine(cache, batch, priced, before + c.asked, chat);
  }

  // ---------------------------------------------------------------- over a request

  ghost predicate AllAgree(batches: seq<seq<Mention>>) {
    forall k :: 0 <= k < |batches| ==> IdsAgree(batches[k])
  }

  ghost predicate KeepsGenuine(serve: Server, chat: nat -> Chat) {
    forall cache, batch, before, first: nat :: Genuine(cache, before, chat) && IdsAgree(batch) && first == |before| ==>
      GenuineAfter(serve(cache, batch, first), before, chat)
  }

  lemma ServingKeepsGenuine(chat: nat -> Chat)
    ensures KeepsGenuine(Serving(chat), chat)
  {
    forall cache, batch, before, first: nat | Genuine(cache, before, chat) && IdsAgree(batch) && first == |before|
      ensures GenuineAfter(Serving(chat)(cache, batch, first), before, chat)
    {
      OneBatchGenuine(cache, batch, chat, before);
    }
  }

  lemma ServedGenuine(serve: Server, p: Progress, batches: seq<seq<Mention>>, chat: nat -> Chat, before: seq<seq<Mention>>, first: nat, k: nat)
    requires KeepsGenuine(serve, chat) && k < |batches| && AllAgree(batches) && GenuineAfter(p, before, chat) && first == |before|
    ensures GenuineAfter(Served(serve, p, batches, first, k), before, chat)
  {
    var one := serve(p.cache, batches[k], first + |p.asked|);
    assert GenuineAfter(one, before + p.asked, chat);
    ThenGenuine(p, one, before, chat);
  }

  lemma ThenGenuine(p: Progress, one: Progress, before: seq<seq<Mention>>, chat: nat -> Chat)
    requires GenuineAfter(one, before + p.asked, chat)
    ensures GenuineAfter(Then(p, one), before, chat)
  {
    assert before + p.asked + one.asked == before + (p.asked + one.asked);
  }

  lemma BatchesGenuine(serve: Server, start: Progress, batches: seq<seq<Mention>>, chat: nat -> Chat, before: seq<seq<Mention>>)
    requires KeepsGenuine(serve, chat) && AllAgree(batches) && GenuineAfter(start, before, chat)
    ensures GenuineAfter(Batched(serve, start, batches, |before|, |batches|), before, chat)
  {
    forall p, k: nat | k < |batches| && GenuineAfter(p, before, chat)
      ensures GenuineAfter(Served(serve, p, batches, |before|, k), before, chat)
    {
      ServedGenuine(serve, p, batches, chat, before, |before|, k);
    }
    BatchedKeeps((p, k: nat) => GenuineAfter(p, before, chat), serve, start, batches, |before|, |batches|);
  }

  lemma {:induction false} MissesAreOfRequest(cache: Cache, mentions: seq<Mention>, m: Mention)
    ensures m in Misses(cache, mentions) <==> m in mentions && Looked(cache, m).None?
  {
    if |mentions| > 0 {
      var rest, last := mentions[..|mentions| - 1], mentions[|mentions| - 1];
      MissesAreOfRequest(cache, rest, m);
      assert mentions == rest + [last];
    }
  }

  ghost predicate InSome(batches: seq<seq<Mention>>, m: Mention) {
    exists k :: 0 <= k < |batches| && m in batches[k]
  }

  lemma InSomeOfMore(head: seq<Mention>, tail: seq<seq<Mention>>, m: Mention)
    ensures InSome([head] + tail, m) <==> m in head || InSome(tail, m)
  {
    var all := [head] + tail;
    assert all[0] == head;
    if k :| 0 <= k < |tail| && m in tail[k] {
      assert all[k + 1] == tail[k];
    }
    if k :| 0 < k < |all| && m in all[k] {
      assert all[k] == tail[k - 1];
    }
  }

  lemma {:induction false} ChunksCover(mentions: seq<Mention>, size: nat, m: Mention)
    requires size > 0
    ensures InSome(Chunks(mentions, size), m) <==> m in mentions
    decreases |mentions|
  {
    if |mentions| == 0 {
    } else if |mentions| <= size {
      InSomeOfMore(mentions, [], m);
      assert [mentions] + [] == [mentions];
    } else {
      ChunksCover(mentions[size..], size, m);
      InSomeOfMore(mentions[..size], Chunks(mentions[size..], size), m);
      assert mentions == mentions[..size] + mentions[size..];
    }
  }

  lemma PartAgrees(part: seq<Mention>, whole: seq<Mention>)
    requires IdsAgree(whole) && forall m :: m in part ==> m in whole
    ensures IdsAgree(part)
  {
    forall i, j | 0 <= i < |part| && 0 <= j < |part| && part[i].id == part[j].id
      ensures OwnKey(part[i]) == OwnKey(part[j])
    {
      var a, b := part[i], part[j];
      assert a in part && b in part;
      assert a in whole && b in whole;
      var x :| 0 <= x < |whole| && whole[x] == a;
      var y :| 0 <= y < |whole| && whole[y] == b;
    }
  }

  lemma BatchesAgree(cache: Cache, mentions: seq<Mention>, size: nat)
    requires size > 0 && IdsAgree(mentions)
    ensures AllAgree(Chunks(Misses(cache, mentions), size))
  {
    var misses := Misses(cache, mentions);
    var batches := Chunks(misses, size);
    forall k | 0 <= k < |batches| ensures IdsAgree(batches[k]) {
      forall m | m in batches[k] ensures m in mentions {
        ChunksCover(misses, size, m);
        MissesAreOfRequest(cache, mentions, m);
      }
      PartAgrees(batches[k], mentions);
    }
  }

  lemma RequestKeepsGenuine(cache: Cache, mentions: seq<Mention>, requested: int, chat: nat -> Chat, before: seq<seq<Mention>>)
    requires Genuine(cache, before, chat) && IdsAgree(mentions)
    ensures GenuineAfter(Handled(cache, mentions, requested, chat, |before|), before, chat)
  {
    var start := Nothing(cache, Hits(cache, mentions));
    assert before + start.asked == before;
    BatchesAgree(cache, mentions, BatchSize(requested));
    ServingKeepsGenuine(chat);
    BatchesGenuine(Serving(chat), start, Chunks(Misses(cache, mentions), BatchSize(requested)), chat, before);
  }

  // ---------------------------------------------------------------- over any sequence of requests

  datatype Request = Request(mentions: seq<Mention>, batchSize: int)

  /** The first `n` requests to one handler, one after another. */
  function Session(requests: seq<Request>, chat: nat -> Chat, n: nat): Progress
    requires n <= |requests|
  {
    if n == 0 then Nothing(map[], [])
    else
      var p := Session(requests, chat, n - 1);
      Then(p, Handled(p.cache, requests[n - 1].mentions, requests[n - 1].batchSize, chat, |p.asked|))
  }

  lemma SessionStep(requests: seq<Request>, chat: nat -> Chat, n: nat, p: Progress)
    requires 0 < n <= |requests| && IdsAgree(requests[n - 1].mentions)
    requires p == Session(requests, chat, n - 1) && Genuine(p.cache, p.asked, chat)
    ensures Genuine(Session(requests, chat, n).cache, Session(requests, chat, n).asked, chat)
  {
    var q := Handled(p.cache, requests[n - 1].mentions, requests[n - 1].batchSize, chat, |p.asked|);
    RequestKeepsGenuine(p.cache, requests[n - 1].mentions, requests[n - 1].batchSize, chat, p.asked);
    assert Session(requests, chat, n) == Then(p, q);
  }

  /** Whatever the requests and the replies, every entry of the cache is a validated answer
      that the model gave, in a call that asked for it, for a mention with that key. No neutral
      placeholder is ever in it: those were given by no call. */
  lemma {:induction false} CacheIsGenuine(requests: seq<Request>, chat: nat -> Chat, n: nat)
    requires n <= |requests| && forall k :: 0 <= k < |requests| ==> IdsAgree(requests[k].mentions)
    ensures Genuine(Session(requests, chat, n).cache, Session(requests, chat, n).asked, chat)
  {
    if n > 0 {
      CacheIsGenuine(requests, chat, n - 1);
      var p := Session(requests, chat, n - 1);
      SessionStep(requests, chat, n, p);
    }
  }

  /** A hit serves this mention, free of charge, the answer the model gave for a mention of the
      same brand with the same content. */
  lemma HitsAreAnswers(requests: seq<Request>, chat: nat -> Chat, n: nat, m: Mention, hit: Enrichment)
    returns (original: Mention, call: nat)
    requires n <= |requests| && forall k :: 0 <= k < |requests| ==> IdsAgree(requests[k].mentions)
    requires Looked(Session(requests, chat, n).cache, m) == Some(hit)
    requires NUL !in m.contentHash
    requires forall k, x :: 0 <= k < |Session(requests, chat, n).asked| && x in Session(requests, chat, n).asked[k] ==> NUL !in x.contentHash
    ensures original.brand == m.brand && original.contentHash == m.contentHash != ""
    ensures AnsweredIn(hit.(mentionId := original.id), original, call, Session(requests, chat, n).asked, chat)
    ensures hit.mentionId == m.id && hit.cost == 0.0
  {
    var p := Session(requests, chat, n);
    CacheIsGenuine(requests, chat, n);
    var e := p.cache[CacheKey(m)];
    assert AnswersKey(e, CacheKey(m), p.asked, chat);
    original, call :| original.contentHash != "" && CacheKey(original) == CacheKey(m) && AnsweredIn(e, original, call, p.asked, chat);
    CacheKeyInjective(original, m);
  }

  // ---------------------------------------------------------------- warm requests

  /** Every mention that has a content hash is in the cache. */
  ghost predicate Covers(cache: Cache, mentions: seq<Mention>) {
    forall m :: m in mentions && m.contentHash != "" ==> CacheKey(m) in cache
  }

  lemma {:induction false} StoredKeys(cache: Cache, batch: seq<Mention>, es: seq<Enrichment>, key: string)
    ensures key in Stored(cache, batch, es) <==>
            key in cache || (key != "" && exists k :: 0 <= k < |es| && KeyOf(batch, es[k].mentionId) == key)
  {
    if |es| > 0 {
      var rest, last := es[..|es| - 1], es[|es| - 1];
      StoredKeys(cache, batch, rest, key);
      if k :| 0 <= k < |rest| && KeyOf(batch, rest[k].mentionId) == key {
        assert es[k] == rest[k];
      }
      if k :| 0 <= k < |es| && KeyOf(batch, es[k].mentionId) == key && k < |rest| {
        assert es[k] == rest[k];
      }
    }
  }

  lemma OneBatchKeepsKeys(cache: Cache, batch: seq<Mention>, chat: nat -> Chat, first: nat)
    ensures cache.Keys <= OneBatch(cache, batch, chat, first).cache.Keys
  {
    var c := Classified(batch, chat, first);
    forall key | key in cache.Keys ensures key in OneBatch(cache, batch, chat, first).cache.Keys {
      StoredKeys(cache, batch, Priced(c.answered, c.usage.cost), key);
    }
  }

  /** A batch that was answered in full is covered. */
  ghost predicate CoversUnlessFailed(one: Progress, was: Cache, batch: seq<Mention>) {
    was.Keys <= one.cache.Keys && (one.failures == 0 ==> Covers(one.cache, batch))
  }

  lemma StoredCovers(cache: Cache, batch: seq<Mention>, es: seq<Enrichment>)
    requires IdsAgree(batch) && multiset(EnrichmentIds(es)) == multiset(Ids(batch))
    ensures Covers(Stored(cache, batch, es), batch)
  {
    forall m | m in batch && m.contentHash != "" ensures CacheKey(m) in Stored(cache, batch, es) {
      var i :| 0 <= i < |batch| && batch[i] == m;
      var id := Ids(batch)[i];
      assert id in Ids(batch);
      SameElements(EnrichmentIds(es), Ids(batch));
      assert id in EnrichmentIds(es);
      var k :| 0 <= k < |es| && EnrichmentIds(es)[k] == id;
      FiledUnderOwnKey(batch, m);
      StoredKeys(cache, batch, es, CacheKey(m));
    }
  }

  lemma OneBatchCovers(cache: Cache, batch: seq<Mention>, chat: nat -> Chat, first: nat)
    requires IdsAgree(batch)
    ensures CoversUnlessFailed(OneBatch(cache, batch, chat, first), cache, batch)
  {
    var c := Classified(batch, chat, first);
    var priced := Priced(c.answered, c.usage.cost);
    OneBatchKeepsKeys(cache, batch, chat, first);
    if |c.unanswered| == 0 {
      BatchConserved(batch, chat, first);
      assert Ids(c.unanswered) == [] && EnrichmentIds(priced) == EnrichmentIds(c.answered);
      StoredCovers(cache, batch, priced);
    }
  }

  /** Nothing is forgotten, and without failures the first `k` batches are covered. */
  ghost predicate CoversSoFar(p: Progress, was: Cache, batches: seq<seq<Mention>>, k: nat) {
    && k <= |batches| && was.Keys <= p.cache.Keys
    && (p.failures == 0 ==> forall b :: 0 <= b < k ==> Covers(p.cache, batches[b]))
  }

  ghost predicate FillsCache(serve: Server) {
    forall cache, batch, first: nat :: IdsAgree(batch) ==> CoversUnlessFailed(serve(cache, batch, first), cache, batch)
  }

  lemma ServingFillsCache(chat: nat -> Chat)
    ensures FillsCache(Serving(chat))
  {
    forall cache, batch, first: nat | IdsAgree(batch) ensures CoversUnlessFailed(Serving(chat)(cache, batch, first), cache, batch) {
      OneBatchCovers(cache, batch, chat, first);
    }
  }

  lemma ServedCovers(serve: Server, p: Progress, was: Cache, batches: seq<seq<Mention>>, first: nat, k: nat)
    requires FillsCache(serve) && k < |batches| && AllAgree(batches) && CoversSoFar(p, was, batches, k)
    ensures CoversSoFar(Served(serve, p, batches, first, k), was, batches, k + 1)
  {
    ThenCovers(p, serve(p.cache, batches[k], first + |p.asked|), was, batches, k);
  }

  lemma ThenCovers(p: Progress, one: Progress, was: Cache, batches: seq<seq<Mention>>, k: nat)
    requires k < |batches| && CoversSoFar(p, was, batches, k) && CoversUnlessFailed(one, p.cache, batches[k])
    ensures CoversSoFar(Then(p, one), was, batches, k + 1)
  {
    if p.failures + one.failures == 0 {
      forall b | 0 <= b < k ensures Covers(one.cache, batches[b]) {
        assert Covers(p.cache, batches[b]);
        forall m | m in batches[b] && m.contentHash != "" ensures CacheKey(m) in one.cache {
          assert CacheKey(m) in p.cache.Keys;
        }
      }
    }
  }

  lemma BatchesCover(serve: Server, start: Progress, batches: seq<seq<Mention>>, first: nat)
    requires FillsCache(serve) && AllAgree(batches)
    ensures CoversSoFar(Batched(serve, start, batches, first, |batches|), start.cache, batches, |batches|)
  {
    forall p, k: nat | k < |batches| && CoversSoFar(p, start.cache, batches, k)
      ensures CoversSoFar(Served(serve, p, batches, first, k), start.cache, batches, k + 1)
    {
      ServedCovers(serve, p, start.cache, batches, first, k);
    }
    BatchedKeeps((p, k: nat) => CoversSoFar(p, start.cache, batches, k), serve, start, batches, first, |batches|);
  }

  /** A request forgets nothing; without a failure it leaves every mention it was given that
      has a content hash in the cache. */
  lemma FullyAnsweredRequestIsCached(cache: Cache, mentions: seq<Mention>, requested: int, chat: nat -> Chat, first: nat)
    requires IdsAgree(mentions)
    ensures var p := Handled(cache, mentions, requested, chat, first);
      cache.Keys <= p.cache.Keys && (p.failures == 0 ==> Covers(p.cache, mentions))
  {
    var start := Nothing(cache, Hits(cache, mentions));
    var misses, size := Misses(cache, mentions), BatchSize(requested);
    BatchesAgree(cache, mentions, size);
    ServingFillsCache(chat);
    BatchesCover(Serving(chat), start, Chunks(misses, size), first);
    var p := Handled(cache, mentions, requested, chat, first);
    if p.failures == 0 {
      forall m | m in mentions && m.contentHash != "" ensures CacheKey(m) in p.cache {
        if CacheKey(m) in cache {
          assert CacheKey(m) in p.cache.Keys;
        } else {
          MissesAreOfRequest(cache, mentions, m);
          ChunksCover(misses, size, m);
          var k :| 0 <= k < |Chunks(misses, size)| && m in Chunks(misses, size)[k];
          assert Covers(p.cache, Chunks(misses, size)[k]);
        }
      }
    }
  }

  lemma {:induction false} CoveredRequestHits(cache: Cache, mentions: seq<Mention>)
    requires Covers(cache, mentions) && forall m :: m in mentions ==> m.contentHash != ""
    ensures Misses(cache, mentions) == [] && |Hits(cache, mentions)| == |mentions|
    ensures forall k :: 0 <= k < |mentions| ==> Looked(cache, mentions[k]) == Some(Hits(cache, mentions)[k])
  {
    if |mentions| > 0 {
      var rest, last := mentions[..|mentions| - 1], mentions[|mentions| - 1];
      assert last in mentions;
      CoveredRequestHits(cache, rest);
      assert Looked(cache, last).Some?;
    }
  }

  /** A request over mentions the cache covers asks the model nothing, costs nothing and
      answers every mention from the cache, in order. */
  lemma CoveredRequestIsFree(cache: Cache, mentions: seq<Mention>, requested: int, chat: nat -> Chat, first: nat)
    requires Covers(cache, mentions) && forall m :: m in mentions ==> m.contentHash != ""
    ensures var p := Handled(cache, mentions, requested, chat, first);
      p == Nothing(cache, Hits(cache, mentions)) && |p.out| == |mentions|
    ensures forall k :: 0 <= k < |mentions| ==> Looked(cache, mentions[k]) == Some(Hits(cache, mentions)[k])
  {
    CoveredRequestHits(cache, mentions);
  }

  /** `n` steps, step `k` on the cache that the one before it left. */
  function Iterated(step: (Cache, nat) -> Cache, cache: Cache, n: nat): Cache {
    if n == 0 then cache else step(Iterated(step, cache, n - 1), n - 1)
  }

  ghost predicate ForgetsNothing(step: (Cache, nat) -> Cache) {
    forall cache: Cache, k: nat :: cache.Keys <= step(cache, k).Keys
  }

  lemma {:induction false} IteratedForgetsNothing(step: (Cache, nat) -> Cache, cache: Cache, n: nat)
    requires ForgetsNothing(step)
    ensures cache.Keys <= Iterated(step, cache, n).Keys
  {
    if n > 0 {
      IteratedForgetsNothing(step, cache, n - 1);
    }
  }

  /** Serving request `k` of the list with the model `chats(k)`. */
  function Requesting(requests: seq<Request>, chats: nat -> nat -> Chat): (Cache, nat) -> Cache {
    (cache, k: nat) =>
      if k < |requests| then Handled(cache, requests[k].mentions, requests[k].batchSize, chats(k), 0).cache else cache
  }

  lemma RequestsForgetNothing(requests: seq<Request>, chats: nat -> nat -> Chat)
    requires forall k :: 0 <= k < |requests| ==> IdsAgree(requests[k].mentions)
    ensures ForgetsNothing(Requesting(requests, chats))
  {
    forall cache: Cache, k: nat ensures cache.Keys <= Requesting(requests, chats)(cache, k).Keys {
      if k < |requests| {
        FullyAnsweredRequestIsCached(cache, requests[k].mentions, requests[k].batchSize, chats(k), 0);
      }
    }
  }

  lemma CoverageLasts(before: Cache, after: Cache, mentions: seq<Mention>)
    requires Covers(before, mentions) && before.Keys <= after.Keys
    ensures Covers(after, mentions)
  {
    forall m | m in mentions && m.contentHash != "" ensures CacheKey(m) in after {
      assert CacheKey(m) in before.Keys;
    }
  }

  /** So running a fully answered corpus again is free, whatever other requests came between,
      with whatever batch size, and however badly the model behaves by now. */
  lemma WarmRerunIsFree(cache: Cache, mentions: seq<Mention>, requested: int, chat: nat -> Chat, first: nat,
                        between: seq<Request>, chats: nat -> nat -> Chat, again: int, now: nat -> Chat, later: Cache)
    requires IdsAgree(mentions) && forall m :: m in mentions ==> m.contentHash != ""
    requires forall k :: 0 <= k < |between| ==> IdsAgree(between[k].mentions)
    requires Handled(cache, mentions, requested, chat, first).failures == 0
    requires later == Iterated(Requesting(between, chats), Handled(cache, mentions, requested, chat, first).cache, |between|)
    ensures Handled(later, mentions, again, now, 0) == Nothing(later, Hits(later, mentions)) && |Hits(later, mentions)| == |mentions|
  {
    FullyAnsweredRequestIsCached(cache, mentions, requested, chat, first);
    var after := Handled(cache, mentions, requested, chat, first).cache;
    RequestsForgetNothing(between, chats);
    IteratedForgetsNothing(Requesting(between, chats), after, |between|);
    CoverageLasts(after, later, mentions);
    CoveredRequestIsFree(later, mentions, again, now, 0);
  }
}
