/** The single fetch path: memo, then the fetch_cache table, then the budget, then the
  bytes (`internal/anakin/http.go` and `cache.go`), for sequential use of one client. */
module FetchClient {
  import opened Outcomes
  import opened Ordering
  import opened CreditBudget

  const NUL: char := '\0'

  datatype Request = Request(source: string, queryHash: string, timeBucket: string, cost: nat)

  function CacheKey(source: string, queryHash: string, timeBucket: string): string {
    source + [NUL] + queryHash + [NUL] + timeBucket
  }

  function KeyOf(r: Request): string { CacheKey(r.source, r.queryHash, r.timeBucket) }

  /** Hashes are hex and buckets are dates, so neither holds a NUL; then the key tells its
      three parts apart, whatever the source is called. */
  lemma CacheKeyInjective(q: Request, r: Request)
    requires NUL !in q.queryHash && NUL !in r.queryHash && NUL !in q.timeBucket && NUL !in r.timeBucket
    requires KeyOf(q) == KeyOf(r)
    ensures q.source == r.source && q.queryHash == r.queryHash && q.timeBucket == r.timeBucket
  {
    JoinedKeysInjective(q.source + [NUL] + q.queryHash, q.timeBucket, r.source + [NUL] + r.queryHash, r.timeBucket, NUL);
    JoinedKeysInjective(q.source, q.queryHash, r.source, r.queryHash, NUL);
  }

  // ---------------------------------------------------------------- the cache table

  type Rows = map<(string, string, string), string>

  function RowKey(r: Request): (string, string, string) { (r.source, r.queryHash, r.timeBucket) }

  /** INSERT ... ON CONFLICT DO NOTHING: the first writer of a key stays. */
  function InsertOrIgnore(rows: Rows, key: (string, string, string), payload: string): (after: Rows)
    ensures key in after
    ensures forall k :: k in rows ==> k in after && after[k] == rows[k]
  {
    if key in rows then rows else rows[key := payload]
  }

  /** What happens to the table: a write of this client, or rows another process wrote. */
  datatype TableEvent = Wrote(key: (string, string, string), payload: string) | Interfered(rival: Rows)

  function TableAfter(rows: Rows, events: seq<TableEvent>): Rows {
    if |events| == 0 then rows
    else
      var earlier := TableAfter(rows, events[..|events| - 1]);
      match events[|events| - 1]
      case Wrote(key, payload) => InsertOrIgnore(earlier, key, payload)
      case Interfered(rival) => WithRival(earlier, rival)
  }

  /** What this event offers for this key. */
  function Offer(e: TableEvent, key: (string, string, string)): Option<string> {
    match e
    case Wrote(k, payload) => if k == key then Some(payload) else None
    case Interfered(rival) => if key in rival then Some(rival[key]) else None
  }

  /** The first payload ever offered for this key. */
  function FirstOffer(events: seq<TableEvent>, key: (string, string, string)): Option<string> {
    if |events| == 0 then None
    else if Offer(events[0], key).Some? then Offer(events[0], key)
    else FirstOffer(events[1..], key)
  }

  lemma {:induction false} FirstOfferOfMore(events: seq<TableEvent>, e: TableEvent, key: (string, string, string))
    ensures FirstOffer(events + [e], key) == if FirstOffer(events, key).Some? then FirstOffer(events, key) else Offer(e, key)
  {
    if |events| > 0 {
      assert (events + [e])[1..] == events[1..] + [e];
      FirstOfferOfMore(events[1..], e, key);
    } else {
      assert [e][1..] == [];
    }
  }

  /** A read answers the payload that was offered first for its key, whoever wrote it and
      whatever was offered since, and answers nothing exactly when nothing ever was. */
  lemma {:induction false} ReadsAnswerTheFirstWrite(events: seq<TableEvent>, key: (string, string, string))
    ensures var rows := TableAfter(map[], events);
      FirstOffer(events, key) == if key in rows then Some(rows[key]) else None
  {
    if |events| > 0 {
      var earlier, last := events[..|events| - 1], events[|events| - 1];
      ReadsAnswerTheFirstWrite(earlier, key);
      FirstOfferOfMore(earlier, last, key);
      assert events == earlier + [last];
    }
  }

  // ---------------------------------------------------------------- one fetch

  /** What the outside world answers during one fetch. `fetched` is the outcome of the live
      call, or of the fixture read in replay; `rival` is what another process may write to the
      table in the meantime. */
  datatype World = World(cacheReadable: bool, db: Reads, fetched: Option<string>, rival: Rows, cacheWritable: bool)

  datatype Client = Client(ledger: Ledger, memo: map<string, string>, credits: nat, hits: nat, useTable: bool)

  function WithRival(rows: Rows, rival: Rows): Rows { rival + rows }

  function Hit(c: Client, key: string, payload: string): Client {
    c.(memo := c.memo[key := payload], hits := c.hits + 1)
  }

  function Paid(c: Client, key: string, payload: string, cost: nat): Client {
    c.(memo := c.memo[key := payload], credits := c.credits + cost)
  }

  /** The client and the table after a fetch, and the payload it returned. */
  function Fetched(c: Client, rows: Rows, r: Request, w: World): (Client, Rows, Result<string>) {
    var key := KeyOf(r);
    if key in c.memo then (c.(hits := c.hits + 1), rows, Success(c.memo[key]))
    else if c.useTable && !w.cacheReadable then (c, rows, Failure)
    else if c.useTable && RowKey(r) in rows then (Hit(c, key, rows[RowKey(r)]), rows, Success(rows[RowKey(r)]))
    else
      var (ledger, verdict) := Spent(c.ledger, r.cost, w.db);
      var held := c.(ledger := ledger);
      if !verdict.Accepted? then (held, rows, Failure)
      else
        var later := WithRival(rows, w.rival);
        if w.fetched.None? then (held, later, Failure)
        else if c.useTable && !w.cacheWritable then (held, later, Failure)
        else (Paid(held, key, w.fetched.value, r.cost),
              if c.useTable then InsertOrIgnore(later, RowKey(r), w.fetched.value) else later,
              Success(w.fetched.value))
  }

  /** The shared table, which other processes write too. */
  class FetchCache {
    var rows: Rows

    constructor ()
      ensures rows == map[]
    {
      rows := map[];
    }

    method Read(source: string, queryHash: string, timeBucket: string, readable: bool) returns (r: Result<Option<string>>)
      ensures r.Failure? <==> !readable
      ensures r.Success? ==> (r.value.Some? <==> (source, queryHash, timeBucket) in rows)
      ensures r.Success? && r.value.Some? ==> r.value.value == rows[(source, queryHash, timeBucket)]
    {
      if !readable {
        return Failure;
      }
      var key := (source, queryHash, timeBucket);
      return if key in rows then Success(Some(rows[key])) else Success(None);
    }

    method Write(source: string, queryHash: string, timeBucket: string, payload: string, writable: bool) returns (ok: bool)
      modifies this
      ensures ok == writable
      ensures rows == if writable then InsertOrIgnore(old(rows), (source, queryHash, timeBucket), payload) else old(rows)
    {
      if !writable {
        return false;
      }
      var key := (source, queryHash, timeBucket);
      if key !in rows {
        rows := rows[key := payload];
      }
      return true;
    }

    /** Another process writes rows of its own; it replaces none. */
    method Interfere(rival: Rows)
      modifies this
      ensures rows == WithRival(old(rows), rival)
    {
      rows := rival + rows;
    }
  }

  class HttpClient {
    const budget: Budget
    const cache: FetchCache
    const useTable: bool
    var memo: map<string, string>
    var credits: nat
    var hits: nat

    constructor (budget: Budget, cache: FetchCache, useTable: bool)
      ensures this.budget == budget && this.cache == cache
      ensures View() == Client(budget.View(), map[], 0, 0, useTable)
    {
      this.budget := budget;
      this.cache := cache;
      this.useTable := useTable;
      memo, credits, hits := map[], 0, 0;
    }

    function View(): Client
      reads this, budget
    {
      Client(budget.View(), memo, credits, hits, useTable)
    }

    method Recall(key: string) returns (payload: Option<string>)
      ensures payload == if key in memo then Some(memo[key]) else None
    {
      return if key in memo then Some(memo[key]) else None;
    }

    method Remember(key: string, payload: string)
      modifies this`memo
      ensures memo == old(memo)[key := payload]
    {
      memo := memo[key := payload];
    }

    method Fetch(r: Request, w: World) returns (result: Result<string>)
      modifies this, budget, cache
      ensures (View(), cache.rows, result) == Fetched(old(View()), old(cache.rows), r, w)
    {
      var key := CacheKey(r.source, r.queryHash, r.timeBucket);
      var known := Recall(key);
      if known.Some? {
        hits := hits + 1;
        return Success(known.value);
      }
      if useTable {
        var row := cache.Read(r.source, r.queryHash, r.timeBucket, w.cacheReadable);
        if row.Failure? {
          return Failure;
        }
        if row.value.Some? {
          Remember(key, row.value.value);
          hits := hits + 1;
          return Success(row.value.value);
        }
      }
      var verdict := budget.Spend(r.cost, w.db);
      if !verdict.Accepted? {
        return Failure;
      }
      cache.Interfere(w.rival);
      if w.fetched.None? {
        return Failure;
      }
      if useTable {
        var written := cache.Write(r.source, r.queryHash, r.timeBucket, w.fetched.value, w.cacheWritable);
        if !written {
          return Failure;
        }
      }
      Remember(key, w.fetched.value);
      credits := credits + r.cost;
      return Success(w.fetched.value);
    }
  }

  // ---------------------------------------------------------------- over a whole life

  /** One fetch of a run: the table as the client finds it, which others changed at will. */
  datatype Call = Call(rows: Rows, request: Request, world: World)

  function After(c: Client, call: Call): Client { Fetched(c, call.rows, call.request, call.world).0 }

  function Run(c: Client, calls: seq<Call>): Client {
    if |calls| == 0 then c else After(Run(c, calls[..|calls| - 1]), calls[|calls| - 1])
  }

  function NewClient(hasPool: bool, maxCredits: int, useTable: bool): Client {
    Client(NewLedger(hasPool, maxCredits), map[], 0, 0, useTable)
  }

  /** The ledger has the sum of the accepted spends, of which the counted credits are a part:
      a failed load is billed to the budget and not to the statistics. */
  ghost predicate Balanced(c: Client) {
    c.credits <= c.ledger.inProcess && CreditBudget.Sound(c.ledger)
  }

  /** A hit: one more in the statistics, and no credit anywhere. */
  ghost predicate IsHit(c: Client, d: Client) {
    d.hits == c.hits + 1 && d.credits == c.credits && d.ledger == c.ledger
  }

  /** A paid fetch of a key not known before: its cost once in the ledger, once in the credits. */
  ghost predicate IsPaid(c: Client, d: Client, r: Request) {
    && d.hits == c.hits && d.credits == c.credits + r.cost
    && d.ledger.inProcess == c.ledger.inProcess + r.cost && KeyOf(r) !in c.memo
  }

  /** Each success is exactly one cache hit or exactly its cost in credits, and is remembered.
      A failure changes neither, but keeps what the budget accepted. */
  lemma OneHitOrItsCost(c: Client, call: Call)
    ensures var (d, rows, result) := Fetched(c, call.rows, call.request, call.world);
      match result
      case Success(payload) =>
        && (IsHit(c, d) || IsPaid(c, d, call.request))
        && KeyOf(call.request) in d.memo && d.memo[KeyOf(call.request)] == payload
      case Failure =>
        d.hits == c.hits && d.credits == c.credits && d.memo == c.memo && c.ledger.inProcess <= d.ledger.inProcess
  {
  }

  lemma SpendIsSound(l: Ledger, n: nat, db: Reads)
    requires CreditBudget.Sound(l) && NonNegative(db)
    ensures CreditBudget.Sound(Spent(l, n, db).0)
    ensures Spent(l, n, db).0.inProcess == l.inProcess + (if Spent(l, n, db).1.Accepted? then n else 0)
  {
  }

  lemma FetchIsBalanced(c: Client, call: Call)
    requires Balanced(c) && NonNegative(call.world.db)
    ensures Balanced(After(c, call))
  {
    SpendIsSound(c.ledger, call.request.cost, call.world.db);
  }

  /** Over any run of one client: credits used never exceed what the ledger holds, and the
      ledger never exceeds the ceiling. */
  lemma {:induction false} CreditsWithinCeiling(hasPool: bool, maxCredits: int, useTable: bool, calls: seq<Call>)
    requires forall k :: 0 <= k < |calls| ==> NonNegative(calls[k].world.db)
    ensures var c := Run(NewClient(hasPool, maxCredits, useTable), calls);
      Balanced(c) && (c.credits > 0 ==> c.credits <= c.ledger.inProcess <= c.ledger.ceiling)
  {
    if |calls| > 0 {
      CreditsWithinCeiling(hasPool, maxCredits, useTable, calls[..|calls| - 1]);
      FetchIsBalanced(Run(NewClient(hasPool, maxCredits, useTable), calls[..|calls| - 1]), calls[|calls| - 1]);
    }
  }

  lemma FetchKeepsCeiling(c: Client, call: Call)
    requires c.ledger.ceiling > 0
    ensures After(c, call).ledger.ceiling == c.ledger.ceiling
  {
  }

  /** With a positive ceiling the client spends at most that, whatever the brand's budget is. */
  lemma {:induction false} ExplicitCeilingHolds(hasPool: bool, maxCredits: int, useTable: bool, calls: seq<Call>)
    requires maxCredits > 0
    requires forall k :: 0 <= k < |calls| ==> NonNegative(calls[k].world.db)
    ensures Run(NewClient(hasPool, maxCredits, useTable), calls).ledger.ceiling == maxCredits
    ensures Run(NewClient(hasPool, maxCredits, useTable), calls).credits <= maxCredits
  {
    CreditsWithinCeiling(hasPool, maxCredits, useTable, calls);
    if |calls| > 0 {
      ExplicitCeilingHolds(hasPool, maxCredits, useTable, calls[..|calls| - 1]);
      FetchKeepsCeiling(Run(NewClient(hasPool, maxCredits, useTable), calls[..|calls| - 1]), calls[|calls| - 1]);
    }
  }

  /** A remembered key keeps its payload for the client's life. */
  lemma {:induction false} MemoIsStable(c: Client, calls: seq<Call>, key: string)
    requires key in c.memo
    ensures key in Run(c, calls).memo && Run(c, calls).memo[key] == c.memo[key]
  {
    if |calls| > 0 {
      MemoIsStable(c, calls[..|calls| - 1], key);
    }
  }

  /** After one successful fetch, every later fetch of the same key returns the same payload,
      is a cache hit, and leaves the ledger and the credits alone. */
  lemma NeverChargedAgain(c: Client, first: Call, between: seq<Call>, again: Call)
    requires Fetched(c, first.rows, first.request, first.world).2.Success?
    requires KeyOf(again.request) == KeyOf(first.request)
    ensures var before := Run(After(c, first), between);
      var (after, rows, result) := Fetched(before, again.rows, again.request, again.world);
      && result == Fetched(c, first.rows, first.request, first.world).2
      && after.hits == before.hits + 1
      && after.credits == before.credits && after.ledger == before.ledger
      && rows == again.rows
  {
    OneHitOrItsCost(c, first);
    MemoIsStable(After(c, first), between, KeyOf(first.request));
  }

  // ---------------------------------------------------------------- what was paid for

  function ResultAt(c: Client, calls: seq<Call>, k: nat): Result<string>
    requires k < |calls|
  {
    Fetched(Run(c, calls[..k]), calls[k].rows, calls[k].request, calls[k].world).2
  }

  /** Call `k` of the run succeeded and was not a hit. */
  predicate PaidAt(c: Client, calls: seq<Call>, k: nat)
    requires k < |calls|
  {
    var before := Run(c, calls[..k]);
    ResultAt(c, calls, k).Success? && After(before, calls[k]).hits == before.hits
  }

  function PaidCosts(c: Client, calls: seq<Call>, n: nat): nat
    requires n <= |calls|
  {
    if n == 0 then 0
    else PaidCosts(c, calls, n - 1) + (if PaidAt(c, calls, n - 1) then calls[n - 1].request.cost else 0)
  }

  function HitCount(c: Client, calls: seq<Call>, n: nat): nat
    requires n <= |calls|
  {
    if n == 0 then 0 else
      HitCount(c, calls, n - 1) +
      (if ResultAt(c, calls, n - 1).Success? && !PaidAt(c, calls, n - 1) then 1 else 0)
  }

  /** The statistics of a run: the costs of the paid calls, and the number of the others that
      succeeded. */
  lemma {:induction false} StatisticsAreExact(c: Client, calls: seq<Call>, n: nat)
    requires n <= |calls|
    ensures Run(c, calls[..n]).credits == c.credits + PaidCosts(c, calls, n)
    ensures Run(c, calls[..n]).hits == c.hits + HitCount(c, calls, n)
  {
    if n > 0 {
      StatisticsAreExact(c, calls, n - 1);
      assert calls[..n][..n - 1] == calls[..n - 1];
      OneHitOrItsCost(Run(c, calls[..n - 1]), calls[n - 1]);
    }
  }

  lemma {:induction false} RunInParts(c: Client, first: seq<Call>, rest: seq<Call>)
    ensures Run(c, first + rest) == Run(Run(c, first), rest)
  {
    if |rest| == 0 {
      assert first + rest == first;
    } else {
      RunInParts(c, first, rest[..|rest| - 1]);
      assert (first + rest)[..|first + rest| - 1] == first + rest[..|rest| - 1];
    }
  }

  /** No key is paid for twice in a client's life. */
  lemma PaidOnce(c: Client, calls: seq<Call>, i: nat, j: nat)
    requires i < j < |calls| && PaidAt(c, calls, i) && PaidAt(c, calls, j)
    ensures KeyOf(calls[i].request) != KeyOf(calls[j].request)
  {
    var key := KeyOf(calls[i].request);
    OneHitOrItsCost(Run(c, calls[..i]), calls[i]);
    assert calls[..i + 1][..i] == calls[..i];
    assert calls[..j] == calls[..i + 1] + calls[i + 1..j];
    RunInParts(c, calls[..i + 1], calls[i + 1..j]);
    MemoIsStable(Run(c, calls[..i + 1]), calls[i + 1..j], key);
    assert key in Run(c, calls[..j]).memo;
  }
}
