/** The enricher's handler and its long-lived, brand-scoped cache:
  `agents/bp-enricher/handler.go`, for requests served one after another. */
module EnrichmentCache {
  import opened Outcomes
  import opened Models
  import opened Ordering
  import opened Enricher
  import opened Prompts

  type Cache = map<string, Enrichment>

  function CacheKey(m: Mention): string { m.brand + [NUL] + m.contentHash }

  /** The key a mention is cached under; none without a content hash. */
  function OwnKey(m: Mention): string { if m.contentHash == "" then "" else CacheKey(m) }

  /** NUL-free hashes make the key unambiguous. */
  lemma CacheKeyInjective(a: Mention, b: Mention)
    requires NUL !in a.contentHash && NUL !in b.contentHash && CacheKey(a) == CacheKey(b)
    ensures a.brand == b.brand && a.contentHash == b.contentHash
  {
    JoinedKeysInjective(a.brand, a.contentHash, b.brand, b.contentHash, NUL);
  }

  /** Exactly when two mentions of different brand or content share a key: one hash holds a
      NUL, and the text up to it continues the other's brand. */
  lemma CacheKeysCollideWhen(a: Mention, b: Mention)
    ensures (CacheKey(a) == CacheKey(b) && (a.brand, a.contentHash) != (b.brand, b.contentHash)) <==>
            ((exists m: string :: b.brand == a.brand + [NUL] + m && a.contentHash == m + [NUL] + b.contentHash) ||
             (exists m: string :: a.brand == b.brand + [NUL] + m && b.contentHash == m + [NUL] + a.contentHash))
  {
    JoinedKeysCollide(a.brand, a.contentHash, b.brand, b.contentHash, NUL);
  }

  // ---------------------------------------------------------------- lookup, price, store

  function Looked(cache: Cache, m: Mention): Option<Enrichment> {
    if m.contentHash != "" && CacheKey(m) in cache
    then Some(cache[CacheKey(m)].(mentionId := m.id, cost := 0.0)) else None
  }

  /** Everything the model said, which leaves the id and the cost. */
  predicate SameVerdict(a: Enrichment, b: Enrichment) {
    && a.sentiment == b.sentiment && a.sentimentLabel == b.sentimentLabel && a.emotion == b.emotion && a.intent == b.intent
    && a.aspects == b.aspects && a.aboutBrand == b.aboutBrand && a.aboutCompetitor == b.aboutCompetitor
  }

  function Hits(cache: Cache, mentions: seq<Mention>): seq<Enrichment> {
    if |mentions| == 0 then [] else
      var last := Looked(cache, mentions[|mentions| - 1]);
      Hits(cache, mentions[..|mentions| - 1]) + (if last.Some? then [last.value] else [])
  }

  function Misses(cache: Cache, mentions: seq<Mention>): seq<Mention> {
    if |mentions| == 0 then [] else
      var last := Looked(cache, mentions[|mentions| - 1]);
      Misses(cache, mentions[..|mentions| - 1]) + (if last.None? then [mentions[|mentions| - 1]] else [])
  }

  function Priced(es: seq<Enrichment>, cost: real): (out: seq<Enrichment>)
    ensures |out| == |es|
    ensures forall k :: 0 <= k < |es| ==> out[k] == es[k].(cost := cost / |es| as real)
  {
    seq(|es|, k requires 0 <= k < |es| => es[k].(cost := cost / |es| as real))
  }

  method Price(es: seq<Enrichment>, usage: Usage) returns (out: seq<Enrichment>)
    ensures out == Priced(es, usage.cost)
  {
    if |es| == 0 {
      return es;
    }
    var perMention := usage.cost / |es| as real;
    out := es;
    for k := 0 to |es|
      invariant |out| == |es|
      invariant forall l :: 0 <= l < k ==> out[l] == es[l].(cost := perMention)
      invariant forall l :: k <= l < |es| ==> out[l] == es[l]
    {
      out := out[k := out[k].(cost := perMention)];
    }
  }

  function CostSum(es: seq<Enrichment>): real {
    if |es| == 0 then 0.0 else CostSum(es[..|es| - 1]) + es[|es| - 1].cost
  }

  lemma {:induction false} CostSumOfEqual(es: seq<Enrichment>, each: real)
    requires forall k :: 0 <= k < |es| ==> es[k].cost == each
    ensures CostSum(es) == |es| as real * each
  {
    if |es| > 0 {
      CostSumOfEqual(es[..|es| - 1], each);
      assert |es| as real * each == (|es| - 1) as real * each + each;
    }
  }

  /** The split of a call's cost over its answers adds up to the cost again. */
  lemma PriceSplitsCost(es: seq<Enrichment>, cost: real)
    requires |es| > 0
    ensures CostSum(Priced(es, cost)) == cost
  {
    CostSumOfEqual(Priced(es, cost), cost / |es| as real);
  }

  /** The key that `store` files an answer under, found by the answer's mention id: the last
      mention of the batch with that id and a hash decides. */
  function KeyOf(batch: seq<Mention>, id: string): string {
    if |batch| == 0 then ""
    else
      var last := batch[|batch| - 1];
      if last.id == id && last.contentHash != "" then CacheKey(last) else KeyOf(batch[..|batch| - 1], id)
  }

  function Stored(cache: Cache, batch: seq<Mention>, es: seq<Enrichment>): Cache {
    if |es| == 0 then cache
    else
      var last := es[|es| - 1];
      var earlier := Stored(cache, batch, es[..|es| - 1]);
      var key := KeyOf(batch, last.mentionId);
      if key != "" then earlier[key := last] else earlier
  }

  /** Mentions of one id have one key. */
  ghost predicate IdsAgree(batch: seq<Mention>) {
    forall i, j :: 0 <= i < |batch| && 0 <= j < |batch| && batch[i].id == batch[j].id ==> OwnKey(batch[i]) == OwnKey(batch[j])
  }

  lemma {:induction false} KeyOfIsSomeones(batch: seq<Mention>, id: string)
    ensures KeyOf(batch, id) == "" <==> forall k :: 0 <= k < |batch| && batch[k].id == id ==> OwnKey(batch[k]) == ""
    ensures KeyOf(batch, id) != "" ==> exists k :: 0 <= k < |batch| && batch[k].id == id && OwnKey(batch[k]) == KeyOf(batch, id)
  {
    if |batch| > 0 {
      var rest, last := batch[..|batch| - 1], batch[|batch| - 1];
      KeyOfIsSomeones(rest, id);
      if last.id == id && last.contentHash != "" {
        assert OwnKey(batch[|batch| - 1]) == CacheKey(last);
      } else if k :| 0 <= k < |rest| && rest[k].id == id && OwnKey(rest[k]) == KeyOf(rest, id) {
        assert batch[k].id == id;
      }
    }
  }

  /** Answers are filed under their own mention's key exactly when mentions that share an id
      share the key. With two contents under one id an answer is filed under the wrong one. */
  lemma FiledRightWhen(batch: seq<Mention>)
    ensures (forall k :: 0 <= k < |batch| ==> KeyOf(batch, batch[k].id) == OwnKey(batch[k])) <==> IdsAgree(batch)
  {
    forall k | 0 <= k < |batch| ensures IdsAgree(batch) ==> KeyOf(batch, batch[k].id) == OwnKey(batch[k]) {
      KeyOfIsSomeones(batch, batch[k].id);
    }
  }

  // ---------------------------------------------------------------- a whole request

  /** The outcome of a request, or of some batches of one; `asked` lists what each call was
      asked about. */
  datatype Progress = Progress(cache: Cache, out: seq<Enrichment>, asked: seq<seq<Mention>>, tokens: nat, cost: real, failures: nat)

  function Nothing(cache: Cache, hits: seq<Enrichment>): Progress { Progress(cache, hits, [], 0, 0.0, 0) }

  /** What was done so far, followed by the rest. */
  function Then(done: Progress, rest: Progress): Progress {
    Progress(rest.cache, done.out + rest.out, done.asked + rest.asked, done.tokens + rest.tokens,
             done.cost + rest.cost, done.failures + rest.failures)
  }

  /** One batch: classify it, price and file its answers, degrade what is left. */
  function OneBatch(cache: Cache, batch: seq<Mention>, chat: nat -> Chat, first: nat): Progress {
    var c := Classified(batch, chat, first);
    var priced := Priced(c.answered, c.usage.cost);
    Progress(Stored(cache, batch, priced), priced + Neutrals(c.unanswered), c.asked, Tokens(c.usage), c.usage.cost,
             if |c.unanswered| > 0 then 1 else 0)
  }

  /** How one batch is served: from the cache as it is, with the number of the next call. */
  type Server = (Cache, seq<Mention>, nat) -> Progress

  function Serving(chat: nat -> Chat): Server {
    (cache, batch, first: nat) => OneBatch(cache, batch, chat, first)
  }

  /** The uncached mentions in batches of `size`, the last one possibly smaller. */
  function Chunks(mentions: seq<Mention>, size: nat): (batches: seq<seq<Mention>>)
    requires size > 0
    ensures forall k :: 0 <= k < |batches| ==> 1 <= |batches[k]| <= size
    decreases |mentions|
  {
    if |mentions| == 0 then []
    else if |mentions| <= size then [mentions]
    else [mentions[..size]] + Chunks(mentions[size..], size)
  }

  /** The first `n` batches one after another, each on the cache the one before it left. */
  function Batched(serve: Server, start: Progress, batches: seq<seq<Mention>>, first: nat, n: nat): Progress
    requires n <= |batches|
  {
    if n == 0 then start
    else
      var p := Batched(serve, start, batches, first, n - 1);
      Then(p, serve(p.cache, batches[n - 1], first + |p.asked|))
  }

  function Handled(cache: Cache, mentions: seq<Mention>, requested: int, chat: nat -> Chat, first: nat): Progress {
    var batches := Chunks(Misses(cache, mentions), BatchSize(requested));
    Batched(Serving(chat), Nothing(cache, Hits(cache, mentions)), batches, first, |batches|)
  }

  /** What serving batch `k` makes of the progress so far. */
  function Served(serve: Server, p: Progress, batches: seq<seq<Mention>>, first: nat, k: nat): Progress
    requires k < |batches|
  {
    Then(p, serve(p.cache, batches[k], first + |p.asked|))
  }

  lemma ServedIs(chat: nat -> Chat, p: Progress, batches: seq<seq<Mention>>, first: nat, k: nat)
    requires k < |batches|
    ensures Served(Serving(chat), p, batches, first, k) == Then(p, OneBatch(p.cache, batches[k], chat, first + |p.asked|))
  {
  }

  lemma BatchedNext(serve: Server, start: Progress, batches: seq<seq<Mention>>, first: nat, k: nat)
    requires k < |batches|
    ensures Batched(serve, start, batches, first, k + 1) == Served(serve, Batched(serve, start, batches, first, k), batches, first, k)
  {
  }

  /** Whatever holds at the start and survives serving each batch holds after every batch. */
  lemma {:induction false} BatchedKeeps(holds: (Progress, nat) -> bool, serve: Server, start: Progress,
                                        batches: seq<seq<Mention>>, first: nat, n: nat)
    requires n <= |batches| && holds(start, 0)
    requires forall p, k: nat :: k < |batches| && holds(p, k) ==> holds(Served(serve, p, batches, first, k), k + 1)
    ensures holds(Batched(serve, start, batches, first, n), n)
  {
    if n > 0 {
      BatchedKeeps(holds, serve, start, batches, first, n - 1);
      var p := Batched(serve, start, batches, first, n - 1);
      assert Batched(serve, start, batches, first, n) == Served(serve, p, batches, first, n - 1);
    }
  }

  /** `keyOf` has the key of every id of the batch. */
  ghost predicate Keyed(keyOf: map<string, string>, batch: seq<Mention>) {
    forall id :: (if id in keyOf then keyOf[id] else "") == KeyOf(batch, id)
  }

  lemma KeyedMore(keyOf: map<string, string>, batch: seq<Mention>, k: nat)
    requires k < |batch| && Keyed(keyOf, batch[..k])
    ensures Keyed(if batch[k].contentHash != "" then keyOf[batch[k].id := CacheKey(batch[k])] else keyOf, batch[..k + 1])
  {
    assert batch[..k + 1][..k] == batch[..k];
  }

  lemma StoredMore(cache: Cache, batch: seq<Mention>, es: seq<Enrichment>, k: nat)
    requires k < |es|
    ensures var key := KeyOf(batch, es[k].mentionId);
      Stored(cache, batch, es[..k + 1]) ==
        if key != "" then Stored(cache, batch, es[..k])[key := es[k]] else Stored(cache, batch, es[..k])
  {
    assert es[..k + 1][..k] == es[..k];
  }

  /** The cache looks at ids and keys only. */
  lemma {:induction false} LookupsIgnoreText(cache: Cache, request: seq<Mention>, redact: string -> string, part: seq<Mention>)
    ensures Hits(cache, AsAsked(request, redact, part)) == Hits(cache, part)
    ensures Misses(cache, AsAsked(request, redact, part)) == AsAsked(request, redact, Misses(cache, part))
  {
    if |part| > 0 {
      var rest, last := part[..|part| - 1], part[|part| - 1];
      LookupsIgnoreText(cache, request, redact, rest);
      assert AsAsked(request, redact, part)[..|part| - 1] == AsAsked(request, redact, rest);
      LookupIgnoresText(cache, last, TextFor(request, redact, last.id));
      AsAskedMore(request, redact, Misses(cache, rest), last);
    }
  }

  lemma LookupIgnoresText(cache: Cache, m: Mention, text: string)
    ensures Looked(cache, m.(text := text)) == Looked(cache, m)
  {
  }

  lemma AsAskedMore(request: seq<Mention>, redact: string -> string, part: seq<Mention>, m: Mention)
    ensures AsAsked(request, redact, part + [m]) == AsAsked(request, redact, part) + [Asked(request, redact, m)]
    ensures AsAsked(request, redact, part + []) == AsAsked(request, redact, part) + []
  {
    assert part + [] == part;
  }

  class EnricherHandler {
    var cached: Cache

    constructor ()
      ensures cached == map[]
    {
      cached := map[];
    }

    method Lookup(m: Mention) returns (hit: Option<Enrichment>)
      ensures hit.Some? <==> m.contentHash != "" && CacheKey(m) in cached
      ensures hit.Some? ==> hit.value.mentionId == m.id && hit.value.cost == 0.0
      ensures hit.Some? ==> SameVerdict(hit.value, cached[CacheKey(m)])
    {
      if m.contentHash == "" {
        return None;
      }
      var key := CacheKey(m);
      if key !in cached {
        return None;
      }
      return Some(cached[key].(mentionId := m.id, cost := 0.0));
    }

    method Store(batch: seq<Mention>, es: seq<Enrichment>)
      modifies this
      ensures cached == Stored(old(cached), batch, es)
    {
      var keyOf: map<string, string> := map[];
      for k := 0 to |batch|
        invariant cached == old(cached) && Keyed(keyOf, batch[..k])
      {
        KeyedMore(keyOf, batch, k);
        if batch[k].contentHash != "" {
          keyOf := keyOf[batch[k].id := CacheKey(batch[k])];
        }
      }
      assert batch[..|batch|] == batch;
      for k := 0 to |es|
        invariant Keyed(keyOf, batch) && cached == Stored(old(cached), batch, es[..k])
      {
        StoredMore(old(cached), batch, es, k);
        var key := if es[k].mentionId in keyOf then keyOf[es[k].mentionId] else "";
        if key != "" {
          cached := cached[key := es[k]];
        }
      }
      assert es[..|es|] == es;
    }

    /** Splits a request into cache hits and mentions to ask about. */
    method SplitCached(mentions: seq<Mention>) returns (hits: seq<Enrichment>, misses: seq<Mention>)
      ensures hits == Hits(cached, mentions) && misses == Misses(cached, mentions)
    {
      hits, misses := [], [];
      for k := 0 to |mentions|
        invariant hits == Hits(cached, mentions[..k]) && misses == Misses(cached, mentions[..k])
      {
        assert mentions[..k + 1][..k] == mentions[..k];
        var hit := Lookup(mentions[k]);
        match hit
        case Some(e) => hits := hits + [e];
        case None => misses := misses + [mentions[k]];
      }
      assert mentions[..|mentions|] == mentions;
    }

    method ServeBatch(batch: seq<Mention>, chat: nat -> Chat, first: nat) returns (one: Progress)
      requires |batch| > 0
      modifies this
      ensures one == OneBatch(old(cached), batch, chat, first)
      ensures cached == one.cache
    {
      var c, failed := Classify(batch, chat, first);
      var priced := Price(c.answered, c.usage);
      Store(batch, priced);
      one := Progress(cached, priced + Neutrals(c.unanswered), c.asked, Tokens(c.usage), c.usage.cost, if failed then 1 else 0);
    }

    method ServeNext(p: Progress, batches: seq<seq<Mention>>, k: nat, chat: nat -> Chat, first: nat) returns (next: Progress)
      requires k < |batches| && |batches[k]| > 0 && cached == p.cache
      modifies this
      ensures next == Served(Serving(chat), p, batches, first, k)
      ensures cached == next.cache
    {
      ServedIs(chat, p, batches, first, k);
      var one := ServeBatch(batches[k], chat, first + |p.asked|);
      next := Then(p, one);
    }

    /** The batch loop, from the progress that the cache hits make. */
    method ServeBatches(start: Progress, batches: seq<seq<Mention>>, chat: nat -> Chat, first: nat) returns (p: Progress)
      requires cached == start.cache
      requires forall k :: 0 <= k < |batches| ==> |batches[k]| > 0
      modifies this
      ensures p == Batched(Serving(chat), start, batches, first, |batches|)
      ensures cached == p.cache
    {
      p := start;
      ghost var serve := Serving(chat);
      for k := 0 to |batches|
        invariant cached == p.cache
        invariant p == Batched(serve, start, batches, first, k)
      {
        BatchedNext(serve, start, batches, first, k);
        p := ServeNext(p, batches, k, chat, first);
      }
    }

    /** The prompts take their texts from one map for the whole request. */
    method Handle(mentions: seq<Mention>, requested: int, redact: string -> string, chat: nat -> Chat, first: nat) returns (p: Progress)
      modifies this
      ensures p == Handled(old(cached), AsAsked(mentions, redact, mentions), requested, chat, first)
      ensures cached == p.cache
    {
      if |mentions| == 0 {
        return Nothing(cached, []);
      }
      var redacted := RedactAll(mentions, redact);
      var hits, misses := SplitCached(mentions);
      var asked := WithTexts(redacted, misses, mentions, redact);
      LookupsIgnoreText(cached, mentions, redact, mentions);
      p := ServeBatches(Nothing(cached, hits), Chunks(asked, BatchSize(requested)), chat, first);
    }
  }

  // ---------------------------------------------------------------- conservation

  lemma {:induction false} CacheSplitsRequest(cache: Cache, mentions: seq<Mention>)
    ensures multiset(EnrichmentIds(Hits(cache, mentions))) + multiset(Ids(Misses(cache, mentions))) == multiset(Ids(mentions))
  {
    if |mentions| > 0 {
      var rest, last := mentions[..|mentions| - 1], mentions[|mentions| - 1];
      CacheSplitsRequest(cache, rest);
      assert mentions == rest + [last];
      OneMoreSplit(Hits(cache, rest), Misses(cache, rest), rest, last, Looked(cache, last));
    }
  }

  /** Every batch comes back, each mention once, under its id. */
  ghost predicate KeepsIds(serve: Server) {
    forall cache, batch, first: nat :: multiset(EnrichmentIds(serve(cache, batch, first).out)) == multiset(Ids(batch))
  }

  lemma ServingKeepsIds(chat: nat -> Chat)
    ensures KeepsIds(Serving(chat))
  {
    forall cache, batch, first: nat ensures multiset(EnrichmentIds(Serving(chat)(cache, batch, first).out)) == multiset(Ids(batch)) {
      OneBatchConserves(cache, batch, chat, first);
    }
  }

  lemma OneBatchConserves(cache: Cache, batch: seq<Mention>, chat: nat -> Chat, first: nat)
    ensures multiset(EnrichmentIds(OneBatch(cache, batch, chat, first).out)) == multiset(Ids(batch))
  {
    var c := Classified(batch, chat, first);
    BatchConserved(batch, chat, first);
    var priced := Priced(c.answered, c.usage.cost);
    EnrichmentIdsAppend(priced, Neutrals(c.unanswered));
    assert EnrichmentIds(priced) == EnrichmentIds(c.answered);
    assert EnrichmentIds(Neutrals(c.unanswered)) == Ids(c.unanswered);
  }

  function BatchIds(batches: seq<seq<Mention>>, n: nat): multiset<string>
    requires n <= |batches|
  {
    if n == 0 then multiset{} else BatchIds(batches, n - 1) + multiset(Ids(batches[n - 1]))
  }

  /** After `k` batches the output holds the starting ids and those of the batches. */
  ghost predicate HasIds(p: Progress, start: multiset<string>, batches: seq<seq<Mention>>, k: nat) {
    k <= |batches| && multiset(EnrichmentIds(p.out)) == start + BatchIds(batches, k)
  }

  lemma ServedHasIds(serve: Server, p: Progress, start: multiset<string>, batches: seq<seq<Mention>>, first: nat, k: nat)
    requires KeepsIds(serve) && k < |batches| && HasIds(p, start, batches, k)
    ensures HasIds(Served(serve, p, batches, first, k), start, batches, k + 1)
  {
    ThenHasIds(p, serve(p.cache, batches[k], first + |p.asked|), start, batches, k);
  }

  lemma BatchesHaveIds(serve: Server, start: Progress, batches: seq<seq<Mention>>, first: nat)
    requires KeepsIds(serve)
    ensures HasIds(Batched(serve, start, batches, first, |batches|), multiset(EnrichmentIds(start.out)), batches, |batches|)
  {
    var ids := multiset(EnrichmentIds(start.out));
    forall p, k: nat | k < |batches| && HasIds(p, ids, batches, k) ensures HasIds(Served(serve, p, batches, first, k), ids, batches, k + 1) {
      ServedHasIds(serve, p, ids, batches, first, k);
    }
    BatchedKeeps((p, k: nat) => HasIds(p, ids, batches, k), serve, start, batches, first, |batches|);
  }

  lemma ThenHasIds(p: Progress, one: Progress, start: multiset<string>, batches: seq<seq<Mention>>, k: nat)
    requires k < |batches| && HasIds(p, start, batches, k)
    requires multiset(EnrichmentIds(one.out)) == multiset(Ids(batches[k]))
    ensures HasIds(Then(p, one), start, batches, k + 1)
  {
    ThenIds(p, one);
    assert start + BatchIds(batches, k + 1) == start + BatchIds(batches, k) + multiset(Ids(batches[k]));
  }

  lemma BatchIdsNext(batches: seq<seq<Mention>>, n: nat)
    requires n < |batches|
    ensures BatchIds(batches, n + 1) == BatchIds(batches, n) + multiset(Ids(batches[n]))
  {
  }

  lemma BatchIdsShift(head: seq<Mention>, tail: seq<seq<Mention>>, n: nat)
    requires n <= |tail|
    ensures BatchIds([head] + tail, n + 1) == multiset(Ids(head)) + BatchIds(tail, n)
  {
    BatchIdsAfter(head, tail, [head] + tail, n, n + 1);
  }

  /** `all` is `tail` after `head`. */
  ghost predicate Follows(all: seq<seq<Mention>>, head: seq<Mention>, tail: seq<seq<Mention>>) {
    all == [head] + tail
  }

  lemma FollowsAt(all: seq<seq<Mention>>, head: seq<Mention>, tail: seq<seq<Mention>>, k: nat)
    requires Follows(all, head, tail)
    ensures |all| == |tail| + 1 && all[0] == head && (k < |tail| ==> all[k + 1] == tail[k])
  {
  }

  lemma {:induction false} BatchIdsAfter(head: seq<Mention>, tail: seq<seq<Mention>>, all: seq<seq<Mention>>, n: nat, m: nat)
    requires Follows(all, head, tail) && n <= |tail| && m == n + 1 <= |all|
    ensures BatchIds(all, m) == multiset(Ids(head)) + BatchIds(tail, n)
  {
    BatchIdsNext(all, n);
    if n == 0 {
      FollowsAt(all, head, tail, 0);
    } else {
      FollowsAt(all, head, tail, n - 1);
      BatchIdsAfter(head, tail, all, n - 1, n);
      BatchIdsNext(tail, n - 1);
    }
  }

  lemma {:induction false} ChunksKeepMentions(mentions: seq<Mention>, size: nat)
    requires size > 0
    ensures BatchIds(Chunks(mentions, size), |Chunks(mentions, size)|) == multiset(Ids(mentions))
    decreases |mentions|
  {
    if |mentions| == 0 {
    } else if |mentions| <= size {
      BatchIdsShift(mentions, [], 0);
      assert [mentions] + [] == [mentions];
    } else {
      var tail := Chunks(mentions[size..], size);
      ChunksKeepMentions(mentions[size..], size);
      BatchIdsShift(mentions[..size], tail, |tail|);
      IdsSplit(mentions, size);
    }
  }

  lemma ThenIds(a: Progress, b: Progress)
    ensures multiset(EnrichmentIds(Then(a, b).out)) == multiset(EnrichmentIds(a.out)) + multiset(EnrichmentIds(b.out))
  {
    EnrichmentIdsAppend(a.out, b.out);
  }

  lemma IdsSplit(mentions: seq<Mention>, n: nat)
    requires n <= |mentions|
    ensures multiset(Ids(mentions)) == multiset(Ids(mentions[..n])) + multiset(Ids(mentions[n..]))
  {
    assert Ids(mentions) == Ids(mentions[..n]) + Ids(mentions[n..]);
  }

  /** One enrichment comes back for every mention that went in, under its id, whatever the
      model does: through cache hits, batching, the narrowing retry and degradation. */
  lemma EveryMentionComesBack(cache: Cache, mentions: seq<Mention>, requested: int, chat: nat -> Chat, first: nat)
    ensures multiset(EnrichmentIds(Handled(cache, mentions, requested, chat, first).out)) == multiset(Ids(mentions))
  {
    var size := BatchSize(requested);
    CacheSplitsRequest(cache, mentions);
    ChunksKeepMentions(Misses(cache, mentions), size);
    ServingKeepsIds(chat);
    BatchesHaveIds(Serving(chat), Nothing(cache, Hits(cache, mentions)), Chunks(Misses(cache, mentions), size), first);
  }

  lemma AddingUsages(a: Usage, b: Usage, c: Usage)
    ensures AddUsage(AddUsage(a, b), c) == AddUsage(a, AddUsage(b, c))
  {
  }

  lemma {:induction false} UsageSplits(chat: nat -> Chat, first: nat, a: nat, b: nat) returns (early: Usage, late: Usage)
    ensures early == UsageOf(chat, first, a) && late == UsageOf(chat, first + a, b)
    ensures UsageOf(chat, first, a + b) == AddUsage(early, late)
  {
    if b == 0 {
      early, late := UsageOf(chat, first, a), NO_USAGE;
    } else {
      early, late := UsageSplits(chat, first, a, b - 1);
      var last := chat(first + a + b - 1).usage;
      AddingUsages(early, late, last);
      late := AddUsage(late, last);
      assert UsageOf(chat, first, a + b) == AddUsage(UsageOf(chat, first, a + b - 1), last);
    }
  }

  /** The totals are those of the calls made, at most two per batch. */
  ghost predicate Counted(p: Progress, chat: nat -> Chat, first: nat, k: nat) {
    && p.tokens == Tokens(UsageOf(chat, first, |p.asked|)) && p.cost == UsageOf(chat, first, |p.asked|).cost
    && |p.asked| <= MAX_ATTEMPTS * k
  }

  /** A batch's totals are those of its calls, at most two. */
  ghost predicate CountsCalls(serve: Server, chat: nat -> Chat) {
    forall cache, batch, first: nat :: Counted(serve(cache, batch, first), chat, first, 1)
  }

  lemma ServingCountsCalls(chat: nat -> Chat)
    ensures CountsCalls(Serving(chat), chat)
  {
    forall cache, batch, first: nat ensures Counted(Serving(chat)(cache, batch, first), chat, first, 1) {
      OneBatchTotals(cache, batch, chat, first);
    }
  }

  lemma ServedCounted(serve: Server, p: Progress, batches: seq<seq<Mention>>, chat: nat -> Chat, first: nat, k: nat)
    requires CountsCalls(serve, chat) && k < |batches| && Counted(p, chat, first, k)
    ensures Counted(Served(serve, p, batches, first, k), chat, first, k + 1)
  {
    ThenCounted(p, serve(p.cache, batches[k], first + |p.asked|), chat, first, k);
  }

  lemma OneBatchTotals(cache: Cache, batch: seq<Mention>, chat: nat -> Chat, first: nat)
    ensures Counted(OneBatch(cache, batch, chat, first), chat, first, 1)
  {
    BatchConserved(batch, chat, first);
  }

  lemma ThenCounted(p: Progress, one: Progress, chat: nat -> Chat, first: nat, k: nat)
    requires Counted(p, chat, first, k) && Counted(one, chat, first + |p.asked|, 1)
    ensures Counted(Then(p, one), chat, first, k + 1)
  {
    var early, late := UsageSplits(chat, first, |p.asked|, |one.asked|);
  }

  lemma BatchesCounted(serve: Server, start: Progress, batches: seq<seq<Mention>>, chat: nat -> Chat, first: nat)
    requires CountsCalls(serve, chat) && Counted(start, chat, first, 0)
    ensures Counted(Batched(serve, start, batches, first, |batches|), chat, first, |batches|)
  {
    forall p, k: nat | k < |batches| && Counted(p, chat, first, k) ensures Counted(Served(serve, p, batches, first, k), chat, first, k + 1) {
      ServedCounted(serve, p, batches, chat, first, k);
    }
    BatchedKeeps((p, k: nat) => Counted(p, chat, first, k), serve, start, batches, first, |batches|);
  }

  lemma NothingCounted(cache: Cache, hits: seq<Enrichment>, chat: nat -> Chat, first: nat)
    ensures Counted(Nothing(cache, hits), chat, first, 0)
  {
  }

  /** The totals of a request are those of the calls it made, each counted once, whether it
      answered anything or not; it makes at most two calls per batch of uncached mentions. */
  lemma RequestTotals(cache: Cache, mentions: seq<Mention>, requested: int, chat: nat -> Chat, first: nat)
    ensures var p := Handled(cache, mentions, requested, chat, first);
      Counted(p, chat, first, |Chunks(Misses(cache, mentions), BatchSize(requested))|)
  {
    NothingCounted(cache, Hits(cache, mentions), chat, first);
    ServingCountsCalls(chat);
    BatchesCounted(Serving(chat), Nothing(cache, Hits(cache, mentions)), Chunks(Misses(cache, mentions), BatchSize(requested)), chat, first);
  }
}
