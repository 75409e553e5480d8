/** What the answers of the enricher say, field by field: `parseReply` and `neutralEnrichments`
  in `agents/bp-enricher/batch.go`, and `lookup` in `handler.go`. */
module Verdicts {
  import opened Outcomes
  import opened Models
  import opened Ordering
  import opened Enricher
  import opened EnrichmentCache
  import opened CachedAnswers

  // ---------------------------------------------------------------- one reply

  /** Item `k` is the last one of the reply with this id. */
  ghost predicate LastFor(items: seq<ReplyItem>, id: string, k: nat) {
    k < |items| && items[k].mentionId == id && forall j :: k < j < |items| ==> items[j].mentionId != id
  }

  /** The enrichment says what the item says. */
  ghost predicate Says(item: ReplyItem, e: Enrichment) {
    && e.sentiment == item.sentiment && e.sentimentLabel == item.sentimentLabel
    && e.emotion == item.emotion && e.intent == item.intent && e.aspects == item.aspects
    && e.aboutBrand == item.aboutBrand && e.aboutCompetitor == item.aboutCompetitor
  }

  /** The last item for this mention, whose sentiment is in range. */
  ghost predicate UsableFor(items: seq<ReplyItem>, m: Mention, k: nat) {
    m.id != "" && LastFor(items, m.id, k) && -1.0 <= items[k].sentiment <= 1.0
  }

  lemma {:induction false} ItemForIsLast(items: seq<ReplyItem>, id: string)
    ensures ItemFor(items, id).Some? <==> exists k: nat :: LastFor(items, id, k)
    ensures forall k: nat :: LastFor(items, id, k) ==> ItemFor(items, id) == Some(items[k])
  {
    if |items| > 0 {
      var last := |items| - 1;
      if items[last].mentionId == id {
        assert LastFor(items, id, last);
      } else {
        ItemForIsLast(items[..last], id);
        forall k: nat ensures LastFor(items, id, k) <==> LastFor(items[..last], id, k) {
          if LastFor(items[..last], id, k) {
            forall j | k < j < |items| ensures items[j].mentionId != id {
              assert j < last ==> items[..last][j] == items[j];
            }
          }
        }
      }
    }
  }

  /** A reply answers a mention exactly when it has a last item for it that is in range, and
      then the answer says what that item says, at no cost yet. */
  lemma AnswerSaysReply(items: seq<ReplyItem>, m: Mention)
    ensures AnswerFor(items, m).Some? <==> exists k: nat :: UsableFor(items, m, k)
    ensures forall k: nat :: UsableFor(items, m, k) ==>
      AnswerFor(items, m).Some? && Says(items[k], AnswerFor(items, m).value)
      && AnswerFor(items, m).value.mentionId == m.id && AnswerFor(items, m).value.cost == 0.0
  {
    ItemForIsLast(items, m.id);
    if AnswerFor(items, m).Some? {
      var k: nat :| LastFor(items, m.id, k);
      assert UsableFor(items, m, k);
    }
  }

  lemma {:induction false} AnsweredElements(items: seq<ReplyItem>, batch: seq<Mention>, e: Enrichment)
    ensures e in Answered(items, batch) <==> exists m :: m in batch && AnswerFor(items, m) == Some(e)
  {
    if |batch| > 0 {
      var rest, last := batch[..|batch| - 1], batch[|batch| - 1];
      AnsweredElements(items, rest, e);
      assert batch == rest + [last];
    }
  }

  lemma {:induction false} UnansweredElements(items: seq<ReplyItem>, batch: seq<Mention>, m: Mention)
    ensures m in Unanswered(items, batch) <==> m in batch && AnswerFor(items, m).None?
  {
    if |batch| > 0 {
      var rest, last := batch[..|batch| - 1], batch[|batch| - 1];
      UnansweredElements(items, rest, m);
      assert batch == rest + [last];
    }
  }

  /** The enrichments of a reply are exactly what its last items in range say of the mentions
      of the batch, and the mentions it leaves are exactly those without such an item. */
  lemma ReplyIsRead(items: seq<ReplyItem>, batch: seq<Mention>)
    ensures forall e :: e in Answered(items, batch) <==>
      exists m, k: nat :: m in batch && UsableFor(items, m, k) && Says(items[k], e) && e.mentionId == m.id && e.cost == 0.0
    ensures forall m :: m in Unanswered(items, batch) <==> m in batch && forall k: nat :: !UsableFor(items, m, k)
  {
    forall e ensures e in Answered(items, batch) <==>
      exists m, k: nat :: m in batch && UsableFor(items, m, k) && Says(items[k], e) && e.mentionId == m.id && e.cost == 0.0
    {
      AnsweredElements(items, batch, e);
      if e in Answered(items, batch) {
        var m :| m in batch && AnswerFor(items, m) == Some(e);
        AnswerSaysReply(items, m);
        var k: nat :| UsableFor(items, m, k);
      }
      if m, k: nat :| m in batch && UsableFor(items, m, k) && Says(items[k], e) && e.mentionId == m.id && e.cost == 0.0 {
        AnswerSaysReply(items, m);
        assert AnswerFor(items, m).value == e;
      }
    }
    forall m ensures m in Unanswered(items, batch) <==> m in batch && forall k: nat :: !UsableFor(items, m, k) {
      UnansweredElements(items, batch, m);
      AnswerSaysReply(items, m);
    }
  }

  // ---------------------------------------------------------------- a whole request

  /** What the reply to this call says of `m`, which the call was asked about. */
  ghost predicate SaidInCall(e: Enrichment, m: Mention, call: nat, asked: seq<seq<Mention>>, chat: nat -> Chat) {
    && call < |asked| && m in asked[call] && chat(call).reply.Some? && e.mentionId == m.id
    && exists k: nat :: UsableFor(chat(call).reply.value, m, k) && Says(chat(call).reply.value[k], e)
  }

  /** The verdict cached for the mention's brand and content, free and under its id. */
  ghost predicate SaidByCache(e: Enrichment, m: Mention, cache: Cache) {
    && m.contentHash != "" && CacheKey(m) in cache && e.mentionId == m.id && e.cost == 0.0
    && e.sentiment == cache[CacheKey(m)].sentiment && e.sentimentLabel == cache[CacheKey(m)].sentimentLabel
    && e.emotion == cache[CacheKey(m)].emotion && e.intent == cache[CacheKey(m)].intent && e.aspects == cache[CacheKey(m)].aspects
    && e.aboutBrand == cache[CacheKey(m)].aboutBrand && e.aboutCompetitor == cache[CacheKey(m)].aboutCompetitor
  }

  /** The placeholder: no sentiment, not about the brand, nor about a competitor. */
  ghost predicate SaysNothing(e: Enrichment, m: Mention) {
    && e.mentionId == m.id && e.sentiment == 0.0 && e.sentimentLabel == Sentiment.Neutral && e.cost == 0.0
    && e.emotion == "neutral" && e.intent == "other" && e.aspects == [] && !e.aboutBrand && e.aboutCompetitor == ""
  }

  /** Two calls in a row were asked about `m`, and neither reply could be used for it. */
  ghost predicate AskedInVain(m: Mention, call: nat, asked: seq<seq<Mention>>, chat: nat -> Chat) {
    && call + 1 < |asked| && m in asked[call] && m in asked[call + 1]
    && NoAnswerIn(m, chat(call)) && NoAnswerIn(m, chat(call + 1))
  }

  ghost predicate NoAnswerIn(m: Mention, chat: Chat) {
    chat.reply.None? || forall k: nat :: !UsableFor(chat.reply.value, m, k)
  }

  ghost predicate Sourced(e: Enrichment, m: Mention, cache: Cache, asked: seq<seq<Mention>>, chat: nat -> Chat) {
    || SaidByCache(e, m, cache)
    || (exists call: nat :: SaidInCall(e, m, call, asked, chat))
    || (SaysNothing(e, m) && exists call: nat :: AskedInVain(m, call, asked, chat))
  }

  /** Every output is sourced. `before` are the calls made earlier. */
  ghost predicate AllSourced(p: Progress, mentions: seq<Mention>, cache: Cache, before: seq<seq<Mention>>, chat: nat -> Chat) {
    forall e :: e in p.out ==> exists m :: m in mentions && Sourced(e, m, cache, before + p.asked, chat)
  }

  lemma AnsweredInIsSaid(e: Enrichment, m: Mention, call: nat, asked: seq<seq<Mention>>, chat: nat -> Chat)
    requires AnsweredIn(e, m, call, asked, chat)
    ensures SaidInCall(e, m, call, asked, chat)
  {
    AnswerSaysReply(chat(call).reply.value, m);
    var k: nat :| UsableFor(chat(call).reply.value, m, k);
  }

  lemma RemainderWhen(chat: Chat, batch: seq<Mention>, m: Mention)
    ensures m in Remainder(chat, batch) <==> m in batch && NoAnswerIn(m, chat)
  {
    if chat.reply.Some? {
      UnansweredElements(chat.reply.value, batch, m);
      AnswerSaysReply(chat.reply.value, m);
    }
  }

  lemma SecondCallLeaves(batch: seq<Mention>, chat: nat -> Chat, first: nat)
    ensures AfterCalls(batch, chat, first, 1).unanswered == Remainder(chat(first), batch)
    ensures AfterCalls(batch, chat, first, 2).unanswered == Remainder(chat(first + 1), Remainder(chat(first), batch))
  {
    assert AfterCalls(batch, chat, first, 0) == NoCalls(batch);
    var c := NextCall(batch, chat, first, 2);
    assert c == AfterCalls(batch, chat, first, 1);
  }

  /** What is left of a batch was asked about twice in vain. */
  lemma LeftWasAskedTwice(batch: seq<Mention>, chat: nat -> Chat, before: seq<seq<Mention>>, m: Mention)
    requires m in Classified(batch, chat, |before|).unanswered
    ensures AskedInVain(m, |before|, before + Classified(batch, chat, |before|).asked, chat)
  {
    var first := |before|;
    SecondCallLeaves(batch, chat, first);
    AskedInOrder(batch, chat, first);
    RemainderWhen(chat(first), batch, m);
    RemainderWhen(chat(first + 1), Remainder(chat(first), batch), m);
    var asked := before + Classified(batch, chat, first).asked;
    assert asked[first] == batch && asked[first + 1] == Remainder(chat(first), batch);
  }

  lemma MoreAsked(e: Enrichment, m: Mention, cache: Cache, asked: seq<seq<Mention>>, more: seq<seq<Mention>>, chat: nat -> Chat)
    requires Sourced(e, m, cache, asked, chat) && asked <= more
    ensures Sourced(e, m, cache, more, chat)
  {
    if call: nat :| SaidInCall(e, m, call, asked, chat) {
      assert SaidInCall(e, m, call, more, chat);
    }
    if call: nat :| AskedInVain(m, call, asked, chat) {
      assert AskedInVain(m, call, more, chat);
    }
  }

  lemma AnswerIsSourced(cache: Cache, batch: seq<Mention>, chat: nat -> Chat, before: seq<seq<Mention>>, c: Classification, k: nat)
    returns (m: Mention)
    requires AllAnswerBatch(c, batch, before, chat) && k < |c.answered|
    ensures m in batch && Sourced(Priced(c.answered, c.usage.cost)[k], m, cache, before + c.asked, chat)
  {
    PricedAnswersBatch(c, batch, before, chat, k);
    var e, call: nat;
    e := Priced(c.answered, c.usage.cost)[k];
    m, call :| m in batch && AnsweredIn(e, m, call, before + c.asked, chat);
    AnsweredInIsSaid(e, m, call, before + c.asked, chat);
  }

  lemma OneBatchSourced(cache: Cache, was: Cache, batch: seq<Mention>, chat: nat -> Chat, before: seq<seq<Mention>>)
    ensures AllSourced(OneBatch(cache, batch, chat, |before|), batch, was, before, chat)
  {
    var c := ClassifiedAnswersBatch(batch, chat, before);
    var priced, rest := Priced(c.answered, c.usage.cost), Neutrals(c.unanswered);
    forall e | e in priced + rest ensures exists m :: m in batch && Sourced(e, m, was, before + c.asked, chat) {
      if e in priced {
        var k :| 0 <= k < |priced| && priced[k] == e;
        var m := AnswerIsSourced(was, batch, chat, before, c, k);
      } else {
        var k :| 0 <= k < |rest| && rest[k] == e;
        var m := PlaceholderIsSourced(was, batch, chat, before, c, k);
      }
    }
  }

  lemma PlaceholderIsSourced(cache: Cache, batch: seq<Mention>, chat: nat -> Chat, before: seq<seq<Mention>>, c: Classification, k: nat)
    returns (m: Mention)
    requires c == Classified(batch, chat, |before|) && AllAnswerBatch(c, batch, before, chat) && k < |c.unanswered|
    ensures m in batch && Sourced(Neutrals(c.unanswered)[k], m, cache, before + c.asked, chat)
  {
    m := c.unanswered[k];
    assert m in c.unanswered;
    LeftWasAskedTwice(batch, chat, before, m);
    assert SaysNothing(Neutrals(c.unanswered)[k], m);
  }

  ghost predicate Sources(serve: Server, was: Cache, chat: nat -> Chat) {
    forall cache, batch, before, first: nat :: first == |before| ==> AllSourced(serve(cache, batch, first), batch, was, before, chat)
  }

  lemma ServingSources(was: Cache, chat: nat -> Chat)
    ensures Sources(Serving(chat), was, chat)
  {
    forall cache, batch, before, first: nat | first == |before|
      ensures AllSourced(Serving(chat)(cache, batch, first), batch, was, before, chat)
    {
      OneBatchSourced(cache, was, batch, chat, before);
    }
  }

  lemma SourcesAt(serve: Server, was: Cache, chat: nat -> Chat, cache: Cache, batch: seq<Mention>, before: seq<seq<Mention>>, first: nat)
    requires Sources(serve, was, chat) && first == |before|
    ensures AllSourced(serve(cache, batch, first), batch, was, before, chat)
  {
  }

  ghost predicate AllOf(batches: seq<seq<Mention>>, mentions: seq<Mention>) {
    forall k, m :: 0 <= k < |batches| && m in batches[k] ==> m in mentions
  }

  lemma ThenSourced(p: Progress, one: Progress, mentions: seq<Mention>, batch: seq<Mention>, was: Cache,
                    before: seq<seq<Mention>>, chat: nat -> Chat)
    requires AllSourced(p, mentions, was, before, chat) && AllSourced(one, batch, was, before + p.asked, chat)
    requires forall m :: m in batch ==> m in mentions
    ensures AllSourced(Then(p, one), mentions, was, before, chat)
  {
    var both := before + (p.asked + one.asked);
    assert both == before + p.asked + one.asked;
    forall e | e in Then(p, one).out ensures exists m :: m in mentions && Sourced(e, m, was, both, chat) {
      if e in p.out {
        var m :| m in mentions && Sourced(e, m, was, before + p.asked, chat);
        MoreAsked(e, m, was, before + p.asked, both, chat);
      } else {
        var m :| m in batch && Sourced(e, m, was, before + p.asked + one.asked, chat);
      }
    }
  }

  lemma ServedSourced(serve: Server, p: Progress, batches: seq<seq<Mention>>, mentions: seq<Mention>, was: Cache, chat: nat -> Chat,
                      before: seq<seq<Mention>>, first: nat, k: nat)
    requires Sources(serve, was, chat) && k < |batches| && AllOf(batches, mentions) && first == |before|
    requires AllSourced(p, mentions, was, before, chat)
    ensures AllSourced(Served(serve, p, batches, first, k), mentions, was, before, chat)
  {
    var one := serve(p.cache, batches[k], first + |p.asked|);
    SourcesAt(serve, was, chat, p.cache, batches[k], before + p.asked, first + |p.asked|);
    ThenSourced(p, one, mentions, batches[k], was, before, chat);
  }

  lemma {:induction false} HitsSourced(cache: Cache, mentions: seq<Mention>, e: Enrichment)
    requires e in Hits(cache, mentions)
    ensures exists m :: m in mentions && SaidByCache(e, m, cache)
  {
    var rest, last := mentions[..|mentions| - 1], mentions[|mentions| - 1];
    assert mentions == rest + [last];
    if e in Hits(cache, rest) {
      HitsSourced(cache, rest, e);
    } else {
      assert SaidByCache(e, last, cache);
    }
  }

  /** Every enrichment that comes back is, for a mention of the request, the cached verdict of
      its brand and content, or what the last item for it said in the reply to a call that asked
      about it, or the neutral placeholder, and that only after two calls asked about it in vain. */
  lemma OutputsAreSourced(cache: Cache, mentions: seq<Mention>, requested: int, chat: nat -> Chat, before: seq<seq<Mention>>)
    ensures AllSourced(Handled(cache, mentions, requested, chat, |before|), mentions, cache, before, chat)
  {
    var misses, size, start := Misses(cache, mentions), BatchSize(requested), Nothing(cache, Hits(cache, mentions));
    var batches, serve := Chunks(misses, size), Serving(chat);
    forall k, m | 0 <= k < |batches| && m in batches[k] ensures m in mentions {
      ChunksCover(misses, size, m);
      MissesAreOfRequest(cache, mentions, m);
    }
    forall e | e in start.out ensures exists m :: m in mentions && Sourced(e, m, cache, before + start.asked, chat) {
      HitsSourced(cache, mentions, e);
    }
    ServingSources(cache, chat);
    BatchesSourced(serve, start, batches, mentions, cache, chat, before);
  }

  lemma BatchesSourced(serve: Server, start: Progress, batches: seq<seq<Mention>>, mentions: seq<Mention>, was: Cache,
                       chat: nat -> Chat, before: seq<seq<Mention>>)
    requires Sources(serve, was, chat) && AllOf(batches, mentions) && AllSourced(start, mentions, was, before, chat)
    ensures AllSourced(Batched(serve, start, batches, |before|, |batches|), mentions, was, before, chat)
  {
    forall p, k: nat | k < |batches| && AllSourced(p, mentions, was, before, chat)
      ensures AllSourced(Served(serve, p, batches, |before|, k), mentions, was, before, chat)
    {
      ServedSourced(serve, p, batches, mentions, was, chat, before, |before|, k);
    }
    BatchedKeeps((p, k: nat) => AllSourced(p, mentions, was, before, chat), serve, start, batches, |before|, |batches|);
  }

  /** Over any sequence of requests every cached verdict is what the last item for a mention
      with that key said, in the reply to a call that asked about it. */
  lemma CachedVerdictsWereSaid(requests: seq<Request>, chat: nat -> Chat, n: nat, key: string) returns (m: Mention, call: nat)
    requires n <= |requests| && forall k :: 0 <= k < |requests| ==> IdsAgree(requests[k].mentions)
    requires key in Session(requests, chat, n).cache
    ensures m.contentHash != "" && CacheKey(m) == key
    ensures SaidInCall(Session(requests, chat, n).cache[key], m, call, Session(requests, chat, n).asked, chat)
  {
    var p := Session(requests, chat, n);
    CacheIsGenuine(requests, chat, n);
    assert AnswersKey(p.cache[key], key, p.asked, chat);
    m, call :| m.contentHash != "" && CacheKey(m) == key && AnsweredIn(p.cache[key], m, call, p.asked, chat);
    AnsweredInIsSaid(p.cache[key], m, call, p.asked, chat);
  }

  // ---------------------------------------------------------------- what it cost

  /** The tokens, in and out, of `n` consecutive calls. */
  ghost function TokensOfCalls(chat: nat -> Chat, first: nat, n: nat): nat {
    if n == 0 then 0
    else TokensOfCalls(chat, first, n - 1) + chat(first + n - 1).usage.prompt + chat(first + n - 1).usage.completion
  }

  ghost function CostOfCalls(chat: nat -> Chat, first: nat, n: nat): real {
    if n == 0 then 0.0 else CostOfCalls(chat, first, n - 1) + chat(first + n - 1).usage.cost
  }

  lemma {:induction false} UsageIsSummed(chat: nat -> Chat, first: nat, n: nat)
    ensures Tokens(UsageOf(chat, first, n)) == TokensOfCalls(chat, first, n)
    ensures UsageOf(chat, first, n).cost == CostOfCalls(chat, first, n)
  {
    if n > 0 {
      UsageIsSummed(chat, first, n - 1);
    }
  }

  /** A request reports the tokens and the cost of exactly the calls it made. */
  lemma RequestIsBilled(cache: Cache, mentions: seq<Mention>, requested: int, chat: nat -> Chat, first: nat)
    ensures var p := Handled(cache, mentions, requested, chat, first);
      p.tokens == TokensOfCalls(chat, first, |p.asked|) && p.cost == CostOfCalls(chat, first, |p.asked|)
  {
    RequestTotals(cache, mentions, requested, chat, first);
    UsageIsSummed(chat, first, |Handled(cache, mentions, requested, chat, first).asked|);
  }
}
