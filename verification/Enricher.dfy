/** Batched classification against an unreliable model: `agents/bp-enricher/handler.go` and
  `batch.go`.

  The model is an oracle. Call number `k` gets `chat(k)`, which may fail, or omit, repeat,
  invent or corrupt any answers. Prompts are taken to render. */
module Enricher {
  import opened Outcomes
  import opened Models
  import opened Ordering

  const NUL: char := '\0'
  const DEFAULT_BATCH_SIZE := 50
  const MAX_ATTEMPTS := 2

  datatype Usage = Usage(prompt: nat, completion: nat, cost: real)

  datatype ReplyItem = ReplyItem(mentionId: string, sentiment: real, sentimentLabel: Sentiment, emotion: string,
                                 intent: string, aspects: seq<string>, aboutBrand: bool, aboutCompetitor: string)

  /** One call's outcome; None is a failed call or a reply that does not decode. */
  datatype Chat = Chat(reply: Option<seq<ReplyItem>>, usage: Usage)

  const NO_USAGE := Usage(0, 0, 0.0)

  function AddUsage(a: Usage, b: Usage): Usage {
    Usage(a.prompt + b.prompt, a.completion + b.completion, a.cost + b.cost)
  }

  function Tokens(u: Usage): nat { u.prompt + u.completion }

  function BatchSize(requested: int): (size: nat)
    ensures 1 <= size <= DEFAULT_BATCH_SIZE
    ensures 1 <= requested <= DEFAULT_BATCH_SIZE ==> size == requested
  {
    if requested <= 0 then DEFAULT_BATCH_SIZE
    else if requested < DEFAULT_BATCH_SIZE then requested else DEFAULT_BATCH_SIZE
  }

  // ---------------------------------------------------------------- reading a reply

  /** The last item for this id, as the map in the code ends up with it. */
  function ItemFor(items: seq<ReplyItem>, id: string): Option<ReplyItem> {
    if |items| == 0 then None
    else if items[|items| - 1].mentionId == id then Some(items[|items| - 1])
    else ItemFor(items[..|items| - 1], id)
  }

  function AsEnrichment(id: string, item: ReplyItem): Enrichment {
    Enrichment(id, item.sentiment, item.sentimentLabel, item.emotion, item.intent, item.aspects,
               item.aboutBrand, item.aboutCompetitor, 0.0)
  }

  predicate Valid(e: Enrichment) {
    e.mentionId != "" && -1.0 <= e.sentiment <= 1.0
  }

  /** The usable answer the reply has for this mention. */
  function AnswerFor(items: seq<ReplyItem>, m: Mention): (answer: Option<Enrichment>)
    ensures answer.Some? ==> answer.value.mentionId == m.id && Valid(answer.value)
  {
    match ItemFor(items, m.id)
    case None => None
    case Some(item) => if Valid(AsEnrichment(m.id, item)) then Some(AsEnrichment(m.id, item)) else None
  }

  function Answered(items: seq<ReplyItem>, batch: seq<Mention>): seq<Enrichment> {
    if |batch| == 0 then [] else
      var last := AnswerFor(items, batch[|batch| - 1]);
      Answered(items, batch[..|batch| - 1]) + (if last.Some? then [last.value] else [])
  }

  function Unanswered(items: seq<ReplyItem>, batch: seq<Mention>): seq<Mention> {
    if |batch| == 0 then [] else
      var last := AnswerFor(items, batch[|batch| - 1]);
      Unanswered(items, batch[..|batch| - 1]) + (if last.None? then [batch[|batch| - 1]] else [])
  }

  method ParseReply(items: seq<ReplyItem>, batch: seq<Mention>)
    returns (enrichments: seq<Enrichment>, unanswered: seq<Mention>, omitted: seq<string>, invalid: seq<string>)
    ensures enrichments == Answered(items, batch) && unanswered == Unanswered(items, batch)
    ensures multiset(omitted) + multiset(invalid) == multiset(Ids(unanswered))
  {
    var byId: map<string, ReplyItem> := map[];
    for k := 0 to |items|
      invariant forall id :: id in byId <==> ItemFor(items[..k], id).Some?
      invariant forall id :: id in byId ==> ItemFor(items[..k], id) == Some(byId[id])
    {
      assert items[..k + 1][..k] == items[..k];
      byId := byId[items[k].mentionId := items[k]];
    }
    assert items[..|items|] == items;
    enrichments, unanswered, omitted, invalid := [], [], [], [];
    for k := 0 to |batch|
      invariant enrichments == Answered(items, batch[..k])
      invariant unanswered == Unanswered(items, batch[..k])
      invariant multiset(omitted) + multiset(invalid) == multiset(Ids(unanswered))
    {
      assert batch[..k + 1][..k] == batch[..k];
      var m := batch[k];
      IdsAppend(unanswered, m);
      if m.id !in byId {
        unanswered := unanswered + [m];
        omitted := omitted + [m.id];
        continue;
      }
      var enrichment := AsEnrichment(m.id, byId[m.id]);
      if !Valid(enrichment) {
        unanswered := unanswered + [m];
        invalid := invalid + [m.id];
        continue;
      }
      enrichments := enrichments + [enrichment];
    }
    assert batch[..|batch|] == batch;
  }

  lemma IdsAppend(mentions: seq<Mention>, m: Mention)
    ensures Ids(mentions + [m]) == Ids(mentions) + [m.id]
  {
  }

  function Neutral(m: Mention): Enrichment {
    Enrichment(m.id, 0.0, Sentiment.Neutral, "neutral", "other", [], false, "", 0.0)
  }

  function Neutrals(batch: seq<Mention>): (out: seq<Enrichment>)
    ensures |out| == |batch|
    ensures forall k :: 0 <= k < |batch| ==> out[k] == Neutral(batch[k])
  {
    seq(|batch|, k requires 0 <= k < |batch| => Neutral(batch[k]))
  }

  // ---------------------------------------------------------------- one batch

  /** What classify returns; `asked` lists what each call was asked about. */
  datatype Classification = Classification(answered: seq<Enrichment>, unanswered: seq<Mention>, usage: Usage, asked: seq<seq<Mention>>)

  function NewAnswers(chat: Chat, batch: seq<Mention>): seq<Enrichment> {
    if chat.reply.None? then [] else Answered(chat.reply.value, batch)
  }

  function Remainder(chat: Chat, batch: seq<Mention>): seq<Mention> {
    if chat.reply.None? then batch else Unanswered(chat.reply.value, batch)
  }

  /** What is known after one more call, which asks about all that is still open. */
  function OneCall(c: Classification, chat: Chat): Classification {
    Classification(c.answered + NewAnswers(chat, c.unanswered), Remainder(chat, c.unanswered),
                   AddUsage(c.usage, chat.usage), c.asked + [c.unanswered])
  }

  function NoCalls(batch: seq<Mention>): Classification { Classification([], batch, NO_USAGE, []) }

  function AfterCalls(batch: seq<Mention>, chat: nat -> Chat, first: nat, n: nat): Classification {
    if n == 0 then NoCalls(batch) else OneCall(AfterCalls(batch, chat, first, n - 1), chat(first + n - 1))
  }

  /** One call, and a second about what the first left open. */
  function Classified(batch: seq<Mention>, chat: nat -> Chat, first: nat): Classification {
    var c := AfterCalls(batch, chat, first, 1);
    if |c.unanswered| == 0 then c else AfterCalls(batch, chat, first, MAX_ATTEMPTS)
  }

  method Ask(c: Classification, call: Chat) returns (next: Classification)
    ensures next == OneCall(c, call)
  {
    var asked, usage := c.asked + [c.unanswered], AddUsage(c.usage, call.usage);
    match call.reply
    case None => next := Classification(c.answered + [], c.unanswered, usage, asked);
    case Some(items) =>
      var got, rest, omitted, invalid := ParseReply(items, c.unanswered);
      next := Classification(c.answered + got, rest, usage, asked);
  }

  /** An error is returned exactly when a mention stays unanswered. */
  method Classify(batch: seq<Mention>, chat: nat -> Chat, first: nat) returns (c: Classification, failed: bool)
    requires |batch| > 0
    ensures c == Classified(batch, chat, first)
    ensures failed <==> |c.unanswered| > 0
  {
    c := NoCalls(batch);
    for attempt := 0 to MAX_ATTEMPTS
      invariant c == AfterCalls(batch, chat, first, attempt) && |c.unanswered| > 0
    {
      c := Ask(c, chat(first + attempt));
      if |c.unanswered| == 0 {
        return c, false;
      }
    }
    failed := true;
  }

  function EnrichmentIds(es: seq<Enrichment>): (ids: seq<string>)
    ensures |ids| == |es|
  {
    seq(|es|, k requires 0 <= k < |es| => es[k].mentionId)
  }

  lemma EnrichmentIdsAppend(a: seq<Enrichment>, b: seq<Enrichment>)
    ensures EnrichmentIds(a + b) == EnrichmentIds(a) + EnrichmentIds(b)
  {
  }

  /** One more mention is answered or left. */
  lemma OneMoreSplit(answered: seq<Enrichment>, left: seq<Mention>, rest: seq<Mention>, last: Mention, answer: Option<Enrichment>)
    requires multiset(EnrichmentIds(answered)) + multiset(Ids(left)) == multiset(Ids(rest))
    requires answer.Some? ==> answer.value.mentionId == last.id
    ensures multiset(EnrichmentIds(answered + (if answer.Some? then [answer.value] else []))) +
            multiset(Ids(left + (if answer.None? then [last] else []))) == multiset(Ids(rest + [last]))
  {
    IdsAppend(rest, last);
    match answer
    case Some(e) =>
      EnrichmentIdsAppend(answered, [e]);
      assert EnrichmentIds([e]) == [last.id];
      assert left + [] == left;
    case None =>
      IdsAppend(left, last);
      assert answered + [] == answered;
  }

  /** A reply splits the batch: every mention is answered or left, under its own id. */
  lemma {:induction false} ReplySplitsBatch(items: seq<ReplyItem>, batch: seq<Mention>)
    ensures multiset(EnrichmentIds(Answered(items, batch))) + multiset(Ids(Unanswered(items, batch))) == multiset(Ids(batch))
  {
    if |batch| > 0 {
      var rest, last := batch[..|batch| - 1], batch[|batch| - 1];
      ReplySplitsBatch(items, rest);
      assert batch == rest + [last];
      OneMoreSplit(Answered(items, rest), Unanswered(items, rest), rest, last, AnswerFor(items, last));
    }
  }

  lemma CallSplitsBatch(chat: Chat, batch: seq<Mention>)
    ensures multiset(EnrichmentIds(NewAnswers(chat, batch))) + multiset(Ids(Remainder(chat, batch))) == multiset(Ids(batch))
  {
    if chat.reply.Some? {
      ReplySplitsBatch(chat.reply.value, batch);
    }
  }

  ghost predicate Conserves(c: Classification, batch: seq<Mention>) {
    multiset(EnrichmentIds(c.answered)) + multiset(Ids(c.unanswered)) == multiset(Ids(batch))
  }

  lemma OneCallConserves(c: Classification, chat: Chat, batch: seq<Mention>)
    requires Conserves(c, batch)
    ensures Conserves(OneCall(c, chat), batch)
  {
    CallSplitsBatch(chat, c.unanswered);
    EnrichmentIdsAppend(c.answered, NewAnswers(chat, c.unanswered));
  }

  lemma NextCall(batch: seq<Mention>, chat: nat -> Chat, first: nat, n: nat) returns (c: Classification)
    requires n > 0
    ensures c == AfterCalls(batch, chat, first, n - 1)
    ensures AfterCalls(batch, chat, first, n) == OneCall(c, chat(first + n - 1))
  {
    c := AfterCalls(batch, chat, first, n - 1);
  }

  lemma {:induction false} CallsConserve(batch: seq<Mention>, chat: nat -> Chat, first: nat, n: nat)
    ensures Conserves(AfterCalls(batch, chat, first, n), batch)
  {
    if n == 0 {
      assert EnrichmentIds([]) == [];
    } else {
      CallsConserve(batch, chat, first, n - 1);
      var c := NextCall(batch, chat, first, n);
      OneCallConserves(c, chat(first + n - 1), batch);
    }
  }

  lemma {:induction false} CallsCounted(batch: seq<Mention>, chat: nat -> Chat, first: nat, n: nat)
    ensures |AfterCalls(batch, chat, first, n).asked| == n
    ensures AfterCalls(batch, chat, first, n).usage == UsageOf(chat, first, n)
  {
    if n > 0 {
      CallsCounted(batch, chat, first, n - 1);
      var c := NextCall(batch, chat, first, n);
    }
  }

  /** How many calls a batch takes: a second one when the first leaves something open. */
  function CallsFor(batch: seq<Mention>, chat: nat -> Chat, first: nat): nat {
    if |Remainder(chat(first), batch)| == 0 then 1 else MAX_ATTEMPTS
  }

  lemma ClassifiedIsAfterCalls(batch: seq<Mention>, chat: nat -> Chat, first: nat)
    ensures Classified(batch, chat, first) == AfterCalls(batch, chat, first, CallsFor(batch, chat, first))
  {
    assert AfterCalls(batch, chat, first, 1).unanswered == Remainder(chat(first), batch);
  }

  lemma AskedInOrder(batch: seq<Mention>, chat: nat -> Chat, first: nat)
    ensures AfterCalls(batch, chat, first, 1).asked == [batch]
    ensures AfterCalls(batch, chat, first, 2).asked == [batch, Remainder(chat(first), batch)]
  {
    assert AfterCalls(batch, chat, first, 1).unanswered == Remainder(chat(first), batch);
  }

  /** Through both calls no mention is lost or answered twice; the second call asks exactly
      about what is still missing; the usage of every call is counted. */
  lemma BatchConserved(batch: seq<Mention>, chat: nat -> Chat, first: nat)
    ensures var c := Classified(batch, chat, first);
      && Conserves(c, batch) && |c.asked| == CallsFor(batch, chat, first) && c.asked[0] == batch
      && (|c.asked| == 2 ==> c.asked[1] == Remainder(chat(first), batch) && |c.asked[1]| > 0)
      && c.usage == UsageOf(chat, first, |c.asked|)
  {
    ClassifiedIsAfterCalls(batch, chat, first);
    CallsConserve(batch, chat, first, CallsFor(batch, chat, first));
    CallsCounted(batch, chat, first, CallsFor(batch, chat, first));
    AskedInOrder(batch, chat, first);
  }

  /** The usage of `n` consecutive calls. */
  function UsageOf(chat: nat -> Chat, first: nat, n: nat): Usage {
    if n == 0 then NO_USAGE else AddUsage(UsageOf(chat, first, n - 1), chat(first + n - 1).usage)
  }
}
