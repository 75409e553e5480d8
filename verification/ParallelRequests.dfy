/** Overlapping requests to one enricher: `Handle` of `agents/bp-enricher/handler.go` as the
  steps between which another request may run.

  A lookup and the filing of one batch's answers are each under the mutex. The calls to the
  model are not, and touch no shared state; they are numbered in the order they are made. */
module ParallelRequests {
  import opened Outcomes
  import opened Models
  import opened Enricher
  import opened EnrichmentCache
  import opened CachedAnswers

  /** What the calls of a request used, and how many of its batches were not answered in full. */
  datatype Bill = Bill(tokens: nat, cost: real, failures: nat)

  /** One request under way: how many mentions it has looked up and with what, the batches it
      has filed, the batch that was classified but is not filed yet, and its bill. */
  datatype Work = Work(looked: nat, hits: seq<Enrichment>, misses: seq<Mention>, filed: nat, out: seq<Enrichment>,
                       pending: Option<Classification>, bill: Bill)

  datatype State = State(cache: Cache, asked: seq<seq<Mention>>, works: seq<Work>)

  const NO_BILL: Bill := Bill(0, 0.0, 0)

  const FRESH: Work := Work(0, [], [], 0, [], None, NO_BILL)

  function Billed(bill: Bill, c: Classification): Bill {
    Bill(bill.tokens + Tokens(c.usage), bill.cost + c.usage.cost, bill.failures + (if |c.unanswered| > 0 then 1 else 0))
  }

  function Start(n: nat): State { State(map[], [], seq(n, i => FRESH)) }

  function BatchesOf(r: Request, w: Work): (batches: seq<seq<Mention>>)
    ensures forall k :: 0 <= k < |batches| ==> |batches[k]| > 0
  {
    Chunks(w.misses, BatchSize(r.batchSize))
  }

  predicate Finished(r: Request, w: Work) {
    w.looked >= |r.mentions| && w.pending.None? && w.filed >= |BatchesOf(r, w)|
  }

  /** What the request returns when it is finished. */
  function Returned(w: Work): seq<Enrichment> { w.hits + w.out }

  function LookNext(cache: Cache, r: Request, w: Work): Work
    requires w.looked < |r.mentions|
  {
    var m := r.mentions[w.looked];
    var hit := Looked(cache, m);
    if hit.Some? then w.(looked := w.looked + 1, hits := w.hits + [hit.value])
    else w.(looked := w.looked + 1, misses := w.misses + [m])
  }

  /** The answers of the pending batch, priced, and neutrals for the rest. */
  function PricedOf(c: Classification): seq<Enrichment> { Priced(c.answered, c.usage.cost) }

  function Advance(r: Request, chat: nat -> Chat, s: State, i: nat): State
    requires i < |s.works|
  {
    var w := s.works[i];
    if w.looked < |r.mentions| then s.(works := s.works[i := LookNext(s.cache, r, w)])
    else if w.filed >= |BatchesOf(r, w)| then s
    else
      var batch := BatchesOf(r, w)[w.filed];
      match w.pending
      case None =>
        var c := Classified(batch, chat, |s.asked|);
        s.(asked := s.asked + c.asked, works := s.works[i := w.(pending := Some(c), bill := Billed(w.bill, c))])
      case Some(c) =>
        var after := w.(pending := None, filed := w.filed + 1, out := w.out + (PricedOf(c) + Neutrals(c.unanswered)));
        s.(cache := Stored(s.cache, batch, PricedOf(c)), works := s.works[i := after])
  }

  /** The requests move in the order of `schedule`. */
  function Run(requests: seq<Request>, chat: nat -> Chat, s: State, schedule: seq<nat>): (t: State)
    requires |s.works| == |requests|
    ensures |t.works| == |requests|
  {
    if |schedule| == 0 then s
    else
      var t := Run(requests, chat, s, schedule[..|schedule| - 1]);
      var i := schedule[|schedule| - 1];
      if i < |requests| then Advance(requests[i], chat, t, i) else t
  }

  // ---------------------------------------------------------------- the cache stays genuine

  ghost predicate AllAnswer(es: seq<Enrichment>, batch: seq<Mention>, asked: seq<seq<Mention>>, chat: nat -> Chat) {
    forall k :: 0 <= k < |es| ==> AnswersOneOf(es[k], batch, asked, chat)
  }

  /** What was classified and not filed yet are answers for mentions of the batch. */
  ghost predicate PendingGenuine(r: Request, w: Work, asked: seq<seq<Mention>>, chat: nat -> Chat) {
    && (forall m :: m in w.misses ==> m in r.mentions)
    && (w.pending.Some? ==> w.filed < |BatchesOf(r, w)| && w.looked >= |r.mentions|)
    && (w.pending.Some? ==> AllAnswer(PricedOf(w.pending.value), BatchesOf(r, w)[w.filed], asked, chat))
  }

  ghost predicate AllGenuine(requests: seq<Request>, s: State, chat: nat -> Chat) {
    && |s.works| == |requests| && Genuine(s.cache, s.asked, chat)
    && forall k :: 0 <= k < |requests| ==> PendingGenuine(requests[k], s.works[k], s.asked, chat)
  }

  lemma PendingGrows(r: Request, w: Work, asked: seq<seq<Mention>>, more: seq<seq<Mention>>, chat: nat -> Chat)
    requires PendingGenuine(r, w, asked, chat) && asked <= more
    ensures PendingGenuine(r, w, more, chat)
  {
    if w.pending.Some? {
      var priced, batch := PricedOf(w.pending.value), BatchesOf(r, w)[w.filed];
      forall k | 0 <= k < |priced| ensures AnswersOneOf(priced[k], batch, more, chat) {
        AnswersMoreAsked(priced[k], batch, asked, more, chat);
      }
    }
  }

  lemma BatchOfRequestAgrees(r: Request, w: Work, k: nat)
    requires k < |BatchesOf(r, w)| && IdsAgree(r.mentions) && forall m :: m in w.misses ==> m in r.mentions
    ensures IdsAgree(BatchesOf(r, w)[k])
  {
    var batch := BatchesOf(r, w)[k];
    forall m | m in batch ensures m in r.mentions {
      ChunksCover(w.misses, BatchSize(r.batchSize), m);
    }
    PartAgrees(batch, r.mentions);
  }

  /** A lookup. */
  lemma LookingKeepsGenuine(requests: seq<Request>, chat: nat -> Chat, s: State, i: nat)
    requires AllGenuine(requests, s, chat) && i < |requests| && s.works[i].looked < |requests[i].mentions|
    ensures AllGenuine(requests, Advance(requests[i], chat, s, i), chat)
  {
  }

  /** The calls for a batch. */
  lemma AskingKeepsGenuine(requests: seq<Request>, chat: nat -> Chat, s: State, i: nat)
    requires AllGenuine(requests, s, chat) && i < |requests| && s.works[i].looked >= |requests[i].mentions|
    requires s.works[i].pending.None? && s.works[i].filed < |BatchesOf(requests[i], s.works[i])|
    ensures AllGenuine(requests, Advance(requests[i], chat, s, i), chat)
  {
    var batch := BatchesOf(requests[i], s.works[i])[s.works[i].filed];
    var c := ClassifiedAnswersBatch(batch, chat, s.asked);
    forall k | 0 <= k < |PricedOf(c)| ensures AnswersOneOf(PricedOf(c)[k], batch, s.asked + c.asked, chat) {
      PricedAnswersBatch(c, batch, s.asked, chat, k);
    }
    GenuineGrows(s.cache, s.asked, c.asked, chat);
    forall k | 0 <= k < |requests| ensures PendingGenuine(requests[k], s.works[k], s.asked + c.asked, chat) {
      PendingGrows(requests[k], s.works[k], s.asked, s.asked + c.asked, chat);
    }
  }

  /** The filing of a batch. */
  lemma FilingKeepsGenuine(requests: seq<Request>, chat: nat -> Chat, s: State, i: nat)
    requires AllGenuine(requests, s, chat) && i < |requests| && IdsAgree(requests[i].mentions)
    requires s.works[i].pending.Some?
    ensures AllGenuine(requests, Advance(requests[i], chat, s, i), chat)
  {
    var w := s.works[i];
    BatchOfRequestAgrees(requests[i], w, w.filed);
    StoredGenuine(s.cache, BatchesOf(requests[i], w)[w.filed], PricedOf(w.pending.value), s.asked, chat);
  }

  /** However requests overlap, every entry of the cache is a validated answer that the model
      gave, in a call that asked for it, for a mention with that key. */
  lemma {:induction false} EveryInterleavingIsGenuine(requests: seq<Request>, chat: nat -> Chat, schedule: seq<nat>)
    requires forall k :: 0 <= k < |requests| ==> IdsAgree(requests[k].mentions)
    ensures AllGenuine(requests, Run(requests, chat, Start(|requests|), schedule), chat)
  {
    if |schedule| > 0 {
      EveryInterleavingIsGenuine(requests, chat, schedule[..|schedule| - 1]);
      var s, i := Run(requests, chat, Start(|requests|), schedule[..|schedule| - 1]), schedule[|schedule| - 1];
      if i < |requests| {
        if s.works[i].looked < |requests[i].mentions| {
          LookingKeepsGenuine(requests, chat, s, i);
        } else if s.works[i].pending.Some? {
          FilingKeepsGenuine(requests, chat, s, i);
        } else if s.works[i].filed < |BatchesOf(requests[i], s.works[i])| {
          AskingKeepsGenuine(requests, chat, s, i);
        }
      }
    }
  }

  // ---------------------------------------------------------------- nothing is lost

  /** What was looked up is a hit or a miss. */
  ghost predicate LooksAccounted(r: Request, w: Work) {
    w.looked <= |r.mentions| && multiset(EnrichmentIds(w.hits)) + multiset(Ids(w.misses)) == multiset(Ids(r.mentions[..w.looked]))
  }

  /** What was filed came back. */
  ghost predicate FilesAccounted(r: Request, w: Work) {
    && w.filed <= |BatchesOf(r, w)| && multiset(EnrichmentIds(w.out)) == BatchIds(BatchesOf(r, w), w.filed)
    && (w.pending.Some? ==> w.filed < |BatchesOf(r, w)| && Conserves(w.pending.value, BatchesOf(r, w)[w.filed]))
  }

  ghost predicate Accounted(r: Request, w: Work) {
    LooksAccounted(r, w) && FilesAccounted(r, w) && (w.looked < |r.mentions| ==> w.filed == 0 && w.pending.None?)
  }

  lemma LookingAccounts(cache: Cache, r: Request, w: Work)
    requires LooksAccounted(r, w) && w.looked < |r.mentions|
    ensures LooksAccounted(r, LookNext(cache, r, w))
  {
    var m := r.mentions[w.looked];
    assert r.mentions[..w.looked + 1] == r.mentions[..w.looked] + [m];
    IdsAppend(r.mentions[..w.looked], m);
    var hit := Looked(cache, m);
    if hit.Some? {
      EnrichmentIdsAppend(w.hits, [hit.value]);
      assert EnrichmentIds([hit.value]) == [m.id];
    } else {
      IdsAppend(w.misses, m);
    }
  }

  lemma LookingFilesNothing(cache: Cache, r: Request, w: Work)
    requires FilesAccounted(r, w) && w.looked < |r.mentions| && w.filed == 0 && w.pending.None?
    ensures FilesAccounted(r, LookNext(cache, r, w))
  {
    assert BatchIds(BatchesOf(r, w), 0) == multiset{};
  }

  /** The ids a filed batch brings are those of the batch. */
  lemma FiledIds(c: Classification, batch: seq<Mention>)
    requires Conserves(c, batch)
    ensures multiset(EnrichmentIds(PricedOf(c) + Neutrals(c.unanswered))) == multiset(Ids(batch))
  {
    EnrichmentIdsAppend(PricedOf(c), Neutrals(c.unanswered));
    assert EnrichmentIds(PricedOf(c)) == EnrichmentIds(c.answered);
    assert EnrichmentIds(Neutrals(c.unanswered)) == Ids(c.unanswered);
  }

  lemma FilingAccounts(r: Request, w: Work, c: Classification)
    requires FilesAccounted(r, w) && w.pending == Some(c)
    ensures FilesAccounted(r, w.(pending := None, filed := w.filed + 1, out := w.out + (PricedOf(c) + Neutrals(c.unanswered))))
  {
    FiledIds(c, BatchesOf(r, w)[w.filed]);
    FiledCounts(r, w, PricedOf(c) + Neutrals(c.unanswered), BatchesOf(r, w));
  }

  lemma FiledCounts(r: Request, w: Work, more: seq<Enrichment>, batches: seq<seq<Mention>>)
    requires batches == BatchesOf(r, w) && w.filed < |batches| && multiset(EnrichmentIds(more)) == multiset(Ids(batches[w.filed]))
    requires multiset(EnrichmentIds(w.out)) == BatchIds(batches, w.filed)
    ensures FilesAccounted(r, w.(pending := None, filed := w.filed + 1, out := w.out + more))
  {
    EnrichmentIdsAppend(w.out, more);
    assert multiset(EnrichmentIds(w.out) + EnrichmentIds(more)) == multiset(EnrichmentIds(w.out)) + multiset(EnrichmentIds(more));
  }

  lemma AskingAccounts(r: Request, w: Work, c: Classification)
    requires Accounted(r, w) && w.looked >= |r.mentions| && w.filed < |BatchesOf(r, w)|
    requires Conserves(c, BatchesOf(r, w)[w.filed])
    ensures Accounted(r, w.(pending := Some(c), bill := Billed(w.bill, c)))
  {
  }

  lemma LookAccounts(r: Request, chat: nat -> Chat, s: State, i: nat, w: Work)
    requires i < |s.works| && s.works[i] == w && Accounted(r, w) && w.looked < |r.mentions|
    ensures Accounted(r, Advance(r, chat, s, i).works[i])
  {
    LookingAccounts(s.cache, r, w);
    LookingFilesNothing(s.cache, r, w);
    assert Advance(r, chat, s, i).works[i] == LookNext(s.cache, r, w);
  }

  lemma AskAccounts(r: Request, chat: nat -> Chat, s: State, i: nat, w: Work, batch: seq<Mention>)
    requires i < |s.works| && s.works[i] == w && Accounted(r, w) && w.looked >= |r.mentions| && w.pending.None?
    requires w.filed < |BatchesOf(r, w)| && batch == BatchesOf(r, w)[w.filed]
    ensures Accounted(r, Advance(r, chat, s, i).works[i])
  {
    var c := Classified(batch, chat, |s.asked|);
    BatchConserved(batch, chat, |s.asked|);
    AskingAccounts(r, w, c);
    assert Advance(r, chat, s, i).works[i] == w.(pending := Some(c), bill := Billed(w.bill, c));
  }

  lemma FileAccounts(r: Request, chat: nat -> Chat, s: State, i: nat, w: Work, c: Classification)
    requires i < |s.works| && s.works[i] == w && Accounted(r, w) && w.looked >= |r.mentions| && w.pending == Some(c)
    ensures Accounted(r, Advance(r, chat, s, i).works[i])
  {
    var v := w.(pending := None, filed := w.filed + 1, out := w.out + (PricedOf(c) + Neutrals(c.unanswered)));
    FilingAccounts(r, w, c);
    assert Advance(r, chat, s, i).works[i] == v;
  }

  lemma AdvanceAccounts(r: Request, chat: nat -> Chat, s: State, i: nat, w: Work)
    requires i < |s.works| && s.works[i] == w && Accounted(r, w)
    ensures Accounted(r, Advance(r, chat, s, i).works[i])
  {
    if w.looked < |r.mentions| {
      LookAccounts(r, chat, s, i, w);
    } else if w.filed < |BatchesOf(r, w)| {
      match w.pending
      case None => AskAccounts(r, chat, s, i, w, BatchesOf(r, w)[w.filed]);
      case Some(c) => FileAccounts(r, chat, s, i, w, c);
    }
  }

  lemma AccountedNext(requests: seq<Request>, chat: nat -> Chat, s: State, k: nat, i: nat)
    requires i < |requests| == |s.works| && Accounted(requests[i], s.works[i])
    ensures k < |requests| ==> Accounted(requests[i], Advance(requests[k], chat, s, k).works[i])
  {
    if k == i {
      AdvanceAccounts(requests[i], chat, s, i, s.works[i]);
    }
  }

  /** However requests overlap, a finished one returns every mention it was given, each once,
      under its id. */
  lemma {:induction false} EveryRequestComesBack(requests: seq<Request>, chat: nat -> Chat, schedule: seq<nat>, i: nat)
    requires i < |requests|
    ensures var w := Run(requests, chat, Start(|requests|), schedule).works[i];
      Accounted(requests[i], w) && (Finished(requests[i], w) ==> multiset(EnrichmentIds(Returned(w))) == multiset(Ids(requests[i].mentions)))
  {
    if |schedule| > 0 {
      EveryRequestComesBack(requests, chat, schedule[..|schedule| - 1], i);
      AccountedNext(requests, chat, Run(requests, chat, Start(|requests|), schedule[..|schedule| - 1]), schedule[|schedule| - 1], i);
    }
    FinishedReturnsAll(requests[i], Run(requests, chat, Start(|requests|), schedule).works[i]);
  }

  lemma FinishedReturnsAll(r: Request, w: Work)
    requires Accounted(r, w)
    ensures Finished(r, w) ==> multiset(EnrichmentIds(Returned(w))) == multiset(Ids(r.mentions))
  {
    if Finished(r, w) {
      EnrichmentIdsAppend(w.hits, w.out);
      ChunksKeepMentions(w.misses, BatchSize(r.batchSize));
      assert r.mentions[..w.looked] == r.mentions;
    }
  }

  // ---------------------------------------------------------------- one request alone

  /** `n` steps of request `i` and of no other. */
  function Alone(r: Request, chat: nat -> Chat, s: State, i: nat, n: nat): (t: State)
    requires i < |s.works|
    ensures |t.works| == |s.works|
  {
    if n == 0 then s else Advance(r, chat, Alone(r, chat, s, i, n - 1), i)
  }

  lemma {:induction false} AloneIsARun(requests: seq<Request>, chat: nat -> Chat, s: State, i: nat, n: nat)
    requires i < |requests| == |s.works|
    ensures Alone(requests[i], chat, s, i, n) == Run(requests, chat, s, seq(n, k => i))
  {
    if n > 0 {
      AloneIsARun(requests, chat, s, i, n - 1);
      assert seq(n, k => i)[..n - 1] == seq(n - 1, k => i);
    }
  }

  function WithWork(s: State, i: nat, w: Work): State
    requires i < |s.works|
  {
    s.(works := s.works[i := w])
  }

  /** The lookups of the first `n` mentions in one cache. */
  function LookedAt(cache: Cache, r: Request, n: nat): Work
    requires n <= |r.mentions|
  {
    Work(n, Hits(cache, r.mentions[..n]), Misses(cache, r.mentions[..n]), 0, [], None, NO_BILL)
  }

  lemma LookNextIs(cache: Cache, r: Request, n: nat)
    requires n < |r.mentions|
    ensures LookNext(cache, r, LookedAt(cache, r, n)) == LookedAt(cache, r, n + 1)
  {
    var seen, m := r.mentions[..n + 1], r.mentions[n];
    assert seen[..n] == r.mentions[..n] && seen[n] == m;
    if Looked(cache, m).Some? {
      assert Misses(cache, seen) == Misses(cache, seen[..n]) + [];
    } else {
      assert Hits(cache, seen) == Hits(cache, seen[..n]) + [];
    }
  }

  lemma {:induction false} LooksAlone(r: Request, chat: nat -> Chat, s: State, i: nat, n: nat)
    requires i < |s.works| && s.works[i] == FRESH && n <= |r.mentions|
    ensures Alone(r, chat, s, i, n) == WithWork(s, i, LookedAt(s.cache, r, n))
  {
    if n == 0 {
      assert r.mentions[..0] == [];
      assert s.works[i := s.works[i]] == s.works;
    } else {
      LooksAlone(r, chat, s, i, n - 1);
      LookNextIs(s.cache, r, n - 1);
      var t := Alone(r, chat, s, i, n - 1);
      assert t.works[i := LookedAt(s.cache, r, n)] == s.works[i := LookedAt(s.cache, r, n)];
    }
  }

  /** By its own steps alone request `i` gets from `s` to `t`. */
  ghost predicate Goes(r: Request, chat: nat -> Chat, s: State, t: State, i: nat)
    requires i < |s.works|
  {
    exists n: nat :: t == Alone(r, chat, s, i, n)
  }

  lemma GoesOn(r: Request, chat: nat -> Chat, s: State, t: State, i: nat)
    requires i < |s.works| && Goes(r, chat, s, t, i)
    ensures i < |t.works| && Goes(r, chat, s, Advance(r, chat, t, i), i)
  {
    var n: nat :| t == Alone(r, chat, s, i, n);
    assert Alone(r, chat, s, i, n + 1) == Advance(r, chat, t, i);
  }

  /** After `k` of these batches, request `i` stands where the sequential one does. */
  ghost predicate StandsAt(t: State, s: State, r: Request, i: nat, batches: seq<seq<Mention>>, p: Progress, k: nat)
    requires i < |s.works|
  {
    && |t.works| == |s.works| && t.cache == p.cache && t.asked == s.asked + p.asked
    && t.works == s.works[i := t.works[i]]
    && t.works[i].looked == |r.mentions| && t.works[i].pending.None? && t.works[i].filed == k
    && BatchesOf(r, t.works[i]) == batches && Returned(t.works[i]) == p.out && t.works[i].bill == Bill(p.tokens, p.cost, p.failures)
  }

  lemma AsksAlone(r: Request, chat: nat -> Chat, t: State, i: nat, k: nat, batch: seq<Mention>, c: Classification)
    requires i < |t.works| && t.works[i].looked == |r.mentions| && t.works[i].pending.None? && t.works[i].filed == k
    requires k < |BatchesOf(r, t.works[i])| && batch == BatchesOf(r, t.works[i])[k] && c == Classified(batch, chat, |t.asked|)
    ensures Advance(r, chat, t, i) == WithWork(t, i, t.works[i].(pending := Some(c), bill := Billed(t.works[i].bill, c))).(asked := t.asked + c.asked)
  {
  }

  lemma FilesPending(r: Request, chat: nat -> Chat, u: State, i: nat, k: nat, batch: seq<Mention>, c: Classification)
    requires i < |u.works| && u.works[i].looked == |r.mentions| && u.works[i].pending == Some(c) && u.works[i].filed == k
    requires k < |BatchesOf(r, u.works[i])| && batch == BatchesOf(r, u.works[i])[k]
    ensures Advance(r, chat, u, i) ==
      WithWork(u, i, u.works[i].(pending := None, filed := k + 1, out := u.works[i].out + (PricedOf(c) + Neutrals(c.unanswered))))
        .(cache := Stored(u.cache, batch, PricedOf(c)))
  {
  }

  /** The state after a batch was asked about and filed. */
  function Filed(t: State, i: nat, batch: seq<Mention>, c: Classification): State
    requires i < |t.works|
  {
    var w := t.works[i];
    State(Stored(t.cache, batch, PricedOf(c)), t.asked + c.asked,
          t.works[i := w.(filed := w.filed + 1, out := w.out + (PricedOf(c) + Neutrals(c.unanswered)), bill := Billed(w.bill, c))])
  }

  lemma TwoStepsFile(r: Request, chat: nat -> Chat, t: State, i: nat, k: nat, batch: seq<Mention>, c: Classification)
    requires i < |t.works| && t.works[i].looked == |r.mentions| && t.works[i].pending.None? && t.works[i].filed == k
    requires k < |BatchesOf(r, t.works[i])| && batch == BatchesOf(r, t.works[i])[k] && c == Classified(batch, chat, |t.asked|)
    ensures Advance(r, chat, Advance(r, chat, t, i), i) == Filed(t, i, batch, c)
  {
    AsksAlone(r, chat, t, i, k, batch, c);
    var u := Advance(r, chat, t, i);
    assert BatchesOf(r, u.works[i]) == BatchesOf(r, t.works[i]);
    FilesPending(r, chat, u, i, k, batch, c);
    assert Advance(r, chat, u, i).works == Filed(t, i, batch, c).works;
  }

  lemma BilledOn(bill: Bill, c: Classification)
    ensures Billed(bill, c) == Bill(bill.tokens + Billed(NO_BILL, c).tokens, bill.cost + Billed(NO_BILL, c).cost,
                                    bill.failures + Billed(NO_BILL, c).failures)
  {
  }

  /** The request's own work, after the batch was filed. */
  lemma FiledWork(w: Work, v: Work, c: Classification, p: Progress, one: Progress)
    requires Returned(w) == p.out && w.bill == Bill(p.tokens, p.cost, p.failures) && w.pending.None?
    requires v == w.(filed := w.filed + 1, out := w.out + (PricedOf(c) + Neutrals(c.unanswered)), bill := Billed(w.bill, c))
    requires one.out == PricedOf(c) + Neutrals(c.unanswered) && Billed(NO_BILL, c) == Bill(one.tokens, one.cost, one.failures)
    ensures Returned(v) == Then(p, one).out && v.bill == Bill(Then(p, one).tokens, Then(p, one).cost, Then(p, one).failures)
  {
    BilledOn(w.bill, c);
    assert Returned(v) == Returned(w) + one.out;
  }

  lemma FiledStands(r: Request, s: State, t: State, i: nat, batches: seq<seq<Mention>>, p: Progress, k: nat, batch: seq<Mention>,
                    c: Classification, one: Progress)
    requires i < |s.works| && StandsAt(t, s, r, i, batches, p, k)
    requires one.cache == Stored(t.cache, batch, PricedOf(c)) && one.asked == c.asked && one.out == PricedOf(c) + Neutrals(c.unanswered)
    requires Billed(NO_BILL, c) == Bill(one.tokens, one.cost, one.failures)
    ensures StandsAt(Filed(t, i, batch, c), s, r, i, batches, Then(p, one), k + 1)
  {
    var v := Filed(t, i, batch, c);
    FiledWork(t.works[i], v.works[i], c, p, one);
    assert v.works == s.works[i := v.works[i]];
    assert v.asked == s.asked + (p.asked + one.asked);
  }

  lemma ServesAlone(r: Request, chat: nat -> Chat, s: State, t: State, i: nat, batches: seq<seq<Mention>>, p: Progress, k: nat, q: Progress)
    requires i < |s.works| && StandsAt(t, s, r, i, batches, p, k) && k < |batches|
    requires q == Then(p, OneBatch(p.cache, batches[k], chat, |s.asked| + |p.asked|))
    ensures StandsAt(Advance(r, chat, Advance(r, chat, t, i), i), s, r, i, batches, q, k + 1)
  {
    var c := Classified(batches[k], chat, |t.asked|);
    TwoStepsFile(r, chat, t, i, k, batches[k], c);
    FiledStands(r, s, t, i, batches, p, k, batches[k], c, OneBatch(p.cache, batches[k], chat, |s.asked| + |p.asked|));
  }

  lemma StandsAtStart(r: Request, chat: nat -> Chat, s: State, i: nat, start: Progress, batches: seq<seq<Mention>>) returns (t: State)
    requires i < |s.works| && s.works[i] == FRESH && start == Nothing(s.cache, Hits(s.cache, r.mentions))
    requires batches == Chunks(Misses(s.cache, r.mentions), BatchSize(r.batchSize))
    ensures Goes(r, chat, s, t, i) && StandsAt(t, s, r, i, batches, start, 0)
  {
    LooksAlone(r, chat, s, i, |r.mentions|);
    assert r.mentions[..|r.mentions|] == r.mentions;
    t := Alone(r, chat, s, i, |r.mentions|);
    assert Hits(s.cache, r.mentions) + [] == Hits(s.cache, r.mentions);
  }

  /** Some steps of request `i` alone lead to where the sequential one stands. */
  ghost predicate Reached(r: Request, chat: nat -> Chat, s: State, i: nat, batches: seq<seq<Mention>>, p: Progress, k: nat)
    requires i < |s.works|
  {
    exists t :: Goes(r, chat, s, t, i) && StandsAt(t, s, r, i, batches, p, k)
  }

  lemma ReachesNext(r: Request, chat: nat -> Chat, s: State, i: nat, batches: seq<seq<Mention>>, p: Progress, k: nat, q: Progress)
    requires i < |s.works| && Reached(r, chat, s, i, batches, p, k) && k < |batches|
    requires q == Served(Serving(chat), p, batches, |s.asked|, k)
    ensures Reached(r, chat, s, i, batches, q, k + 1)
  {
    var t :| Goes(r, chat, s, t, i) && StandsAt(t, s, r, i, batches, p, k);
    ServesNext(r, chat, s, t, i, batches, p, k, q);
    GoesOn(r, chat, s, t, i);
    GoesOn(r, chat, s, Advance(r, chat, t, i), i);
  }

  lemma ServesNext(r: Request, chat: nat -> Chat, s: State, t: State, i: nat, batches: seq<seq<Mention>>, p: Progress, k: nat, q: Progress)
    requires i < |s.works| && StandsAt(t, s, r, i, batches, p, k) && k < |batches|
    requires q == Served(Serving(chat), p, batches, |s.asked|, k)
    ensures StandsAt(Advance(r, chat, Advance(r, chat, t, i), i), s, r, i, batches, q, k + 1)
  {
    ServedIs(chat, p, batches, |s.asked|, k);
    ServesAlone(r, chat, s, t, i, batches, p, k, q);
  }

  ghost predicate KeepsReaching(serve: Server, r: Request, chat: nat -> Chat, s: State, i: nat, batches: seq<seq<Mention>>, first: nat)
    requires i < |s.works|
  {
    forall p, k: nat :: k < |batches| && Reached(r, chat, s, i, batches, p, k) ==>
      Reached(r, chat, s, i, batches, Served(serve, p, batches, first, k), k + 1)
  }

  lemma ServingReaches(r: Request, chat: nat -> Chat, s: State, i: nat, batches: seq<seq<Mention>>, first: nat)
    requires i < |s.works| && first == |s.asked|
    ensures KeepsReaching(Serving(chat), r, chat, s, i, batches, first)
  {
    forall p, k: nat | k < |batches| && Reached(r, chat, s, i, batches, p, k)
      ensures Reached(r, chat, s, i, batches, Served(Serving(chat), p, batches, first, k), k + 1)
    {
      ReachesNext(r, chat, s, i, batches, p, k, Served(Serving(chat), p, batches, first, k));
    }
  }

  lemma ReachesAll(serve: Server, r: Request, chat: nat -> Chat, s: State, i: nat, batches: seq<seq<Mention>>, start: Progress, first: nat)
    requires i < |s.works| && KeepsReaching(serve, r, chat, s, i, batches, first) && Reached(r, chat, s, i, batches, start, 0)
    ensures Reached(r, chat, s, i, batches, Batched(serve, start, batches, first, |batches|), |batches|)
  {
    BatchedKeeps((p, k: nat) => Reached(r, chat, s, i, batches, p, k), serve, start, batches, first, |batches|);
  }

  /** Requests that do not overlap are the sequential ones: run alone, a request finishes and
      leaves the cache, the calls, the result and the bill of `EnrichmentCache.Handled`. */
  lemma AloneIsHandled(r: Request, chat: nat -> Chat, s: State, i: nat) returns (t: State)
    requires i < |s.works| && s.works[i] == FRESH
    ensures Goes(r, chat, s, t, i) && |t.works| == |s.works|
    ensures var p := Handled(s.cache, r.mentions, r.batchSize, chat, |s.asked|);
      && Finished(r, t.works[i]) && Returned(t.works[i]) == p.out && t.cache == p.cache && t.asked == s.asked + p.asked
      && t.works[i].bill == Bill(p.tokens, p.cost, p.failures)
      && forall k :: 0 <= k < |s.works| && k != i ==> t.works[k] == s.works[k]
  {
    var batches := Chunks(Misses(s.cache, r.mentions), BatchSize(r.batchSize));
    var start := Nothing(s.cache, Hits(s.cache, r.mentions));
    var first := StandsAtStart(r, chat, s, i, start, batches);
    assert Reached(r, chat, s, i, batches, start, 0);
    ServingReaches(r, chat, s, i, batches, |s.asked|);
    ReachesAll(Serving(chat), r, chat, s, i, batches, start, |s.asked|);
    var p := Handled(s.cache, r.mentions, r.batchSize, chat, |s.asked|);
    var last :| Goes(r, chat, s, last, i) && StandsAt(last, s, r, i, batches, p, |batches|);
    StandsFinished(r, s, last, i, batches, p);
    t := last;
  }

  lemma StandsFinished(r: Request, s: State, t: State, i: nat, batches: seq<seq<Mention>>, p: Progress)
    requires i < |s.works| && StandsAt(t, s, r, i, batches, p, |batches|)
    ensures |t.works| == |s.works| && Finished(r, t.works[i]) && Returned(t.works[i]) == p.out
    ensures t.cache == p.cache && t.asked == s.asked + p.asked && t.works[i].bill == Bill(p.tokens, p.cost, p.failures)
    ensures forall k :: 0 <= k < |s.works| && k != i ==> t.works[k] == s.works[k]
  {
  }
}
