/** The tables behind the pipeline, one atomic statement at a time:
  `agents/bp-orchestrator/store.go` over the constraints of `db/migrations/001_init.sql`.

  A table is the list of its rows in insertion order, so that its keys are unique is
  something to prove. A batch is one implicit transaction: if one statement fails, none
  of them happened. */
module Store {
  import opened Outcomes
  import opened Models
  import opened Ordering

  datatype Alert = Alert(id: string, brand: string, dedupeKey: string, severity: string, samples: seq<string>)

  datatype Draft = Draft(id: string, alertId: Option<string>, mentionId: Option<string>, text: string)

  datatype Db = Db(mentions: seq<Mention>, enrichments: seq<Enrichment>, alerts: seq<Alert>, drafts: seq<Draft>)

  const EMPTY: Db := Db([], [], [], [])

  // ---------------------------------------------------------------- statements

  predicate MentionStored(db: Db, id: string) {
    exists k :: 0 <= k < |db.mentions| && db.mentions[k].id == id
  }

  predicate ContentStored(db: Db, brand: string, hash: string) {
    exists k :: 0 <= k < |db.mentions| && db.mentions[k].brand == brand && db.mentions[k].contentHash == hash
  }

  predicate Enriched(db: Db, id: string) {
    exists k :: 0 <= k < |db.enrichments| && db.enrichments[k].mentionId == id
  }

  predicate AlertStored(db: Db, id: string) {
    exists k :: 0 <= k < |db.alerts| && db.alerts[k].id == id
  }

  predicate KeyStored(db: Db, brand: string, key: string) {
    exists k :: 0 <= k < |db.alerts| && db.alerts[k].brand == brand && db.alerts[k].dedupeKey == key
  }

  predicate DraftStored(db: Db, id: string) {
    exists k :: 0 <= k < |db.drafts| && db.drafts[k].id == id
  }

  /** ON CONFLICT (brand_id, content_hash) DO NOTHING. A taken id under new content is an error. */
  function InsertMention(db: Db, m: Mention): Result<Db> {
    if ContentStored(db, m.brand, m.contentHash) then Success(db)
    else if MentionStored(db, m.id) then Failure
    else Success(db.(mentions := db.mentions + [m]))
  }

  /** WHERE EXISTS (mention) ON CONFLICT (mention_id) DO NOTHING. */
  function InsertEnrichment(db: Db, e: Enrichment): Result<Db> {
    if !MentionStored(db, e.mentionId) || Enriched(db, e.mentionId) then Success(db)
    else Success(db.(enrichments := db.enrichments + [e]))
  }

  /** ON CONFLICT (brand_id, dedupe_key) DO NOTHING. */
  function InsertAlert(db: Db, a: Alert): Result<Db> {
    if KeyStored(db, a.brand, a.dedupeKey) then Success(db)
    else if AlertStored(db, a.id) then Failure
    else Success(db.(alerts := db.alerts + [a]))
  }

  /** WHERE alert IS NULL OR EXISTS (alert) ON CONFLICT (id) DO NOTHING, under the table's
      CHECK that one reference is set and its foreign key to mentions. */
  function InsertDraft(db: Db, d: Draft): Result<Db> {
    if d.alertId.Some? && !AlertStored(db, d.alertId.value) then Success(db)
    else if d.alertId.None? && d.mentionId.None? then Failure
    else if DraftStored(db, d.id) then Success(db)
    else if d.mentionId.Some? && !MentionStored(db, d.mentionId.value) then Failure
    else Success(db.(drafts := db.drafts + [d]))
  }

  /** The statements of a batch, in order; a failure fails the batch. */
  function All<T>(statement: (Db, T) -> Result<Db>, db: Db, batch: seq<T>): Result<Db> {
    if |batch| == 0 then Success(db)
    else match All(statement, db, batch[..|batch| - 1])
      case Failure => Failure
      case Success(before) => statement(before, batch[|batch| - 1])
  }

  /** The database after a batch: as before when the connection or a statement fails. */
  function After<T>(statement: (Db, T) -> Result<Db>, db: Db, batch: seq<T>, dbOk: bool): Db {
    if dbOk && All(statement, db, batch).Success? then All(statement, db, batch).value else db
  }

  // ---------------------------------------------------------------- reading alerts and windows back

  /** The id of the row that holds this key for this brand. */
  function IdOfKey(alerts: seq<Alert>, brand: string, key: string): Option<string> {
    if |alerts| == 0 then None
    else
      var last := alerts[|alerts| - 1];
      if last.brand == brand && last.dedupeKey == key then Some(last.id)
      else IdOfKey(alerts[..|alerts| - 1], brand, key)
  }

  function WithStoredId(db: Db, brand: string, a: Alert): Alert {
    match IdOfKey(db.alerts, brand, a.dedupeKey)
    case Some(id) => a.(id := id)
    case None => a
  }

  function EnrichmentOf(enrichments: seq<Enrichment>, id: string): Option<Enrichment> {
    if |enrichments| == 0 then None
    else
      var last := enrichments[|enrichments| - 1];
      if last.mentionId == id then Some(last) else EnrichmentOf(enrichments[..|enrichments| - 1], id)
  }

  predicate InWindow(m: Mention, brand: string, start: int, end: int) {
    m.brand == brand && start <= m.postedAt < end
  }

  /** The join of the window's mentions with their enrichments, in table order. */
  function Joined(db: Db, mentions: seq<Mention>, brand: string, start: int, end: int): seq<EnrichedMention> {
    if |mentions| == 0 then [] else
      var m := mentions[|mentions| - 1];
      var e := EnrichmentOf(db.enrichments, m.id);
      Joined(db, mentions[..|mentions| - 1], brand, start, end) +
      (if InWindow(m, brand, start, end) && e.Some? then [EnrichedMention(m, e.value)] else [])
  }

  predicate NewerFirst(a: EnrichedMention, b: EnrichedMention) { a.mention.postedAt > b.mention.postedAt }

  function EnrichedInWindow(db: Db, brand: string, start: int, end: int): seq<EnrichedMention> {
    Sort(NewerFirst, Joined(db, db.mentions, brand, start, end))
  }

  // ---------------------------------------------------------------- the code

  class PostgresStore {
    var mentions: seq<Mention>
    var enrichments: seq<Enrichment>
    var alerts: seq<Alert>
    var drafts: seq<Draft>

    constructor ()
      ensures View() == EMPTY
    {
      mentions, enrichments, alerts, drafts := [], [], [], [];
    }

    function View(): Db
      reads this
    {
      Db(mentions, enrichments, alerts, drafts)
    }

    method Commit(db: Db)
      modifies this
      ensures View() == db
    {
      mentions, enrichments, alerts, drafts := db.mentions, db.enrichments, db.alerts, db.drafts;
    }

    /** Runs a batch in one transaction. */
    method SendBatch<T>(statement: (Db, T) -> Result<Db>, batch: seq<T>, dbOk: bool) returns (ok: bool)
      modifies this
      ensures ok == (dbOk && All(statement, old(View()), batch).Success?)
      ensures View() == After(statement, old(View()), batch, dbOk)
    {
      if !dbOk {
        return false;
      }
      var work: Result<Db> := Success(View());
      for k := 0 to |batch|
        invariant View() == old(View())
        invariant work == All(statement, old(View()), batch[..k])
      {
        assert batch[..k + 1][..k] == batch[..k];
        match work
        case Failure =>
        case Success(db) => work := statement(db, batch[k]);
      }
      assert batch[..|batch|] == batch;
      match work
      case Failure => ok := false;
      case Success(db) =>
        Commit(db);
        ok := true;
    }

    method SaveMentions(batch: seq<Mention>, dbOk: bool) returns (ok: bool)
      modifies this
      ensures ok == (dbOk && All(InsertMention, old(View()), batch).Success?)
      ensures View() == After(InsertMention, old(View()), batch, dbOk)
    {
      ok := SendBatch(InsertMention, batch, dbOk);
    }

    method SaveEnrichments(batch: seq<Enrichment>, dbOk: bool) returns (ok: bool)
      modifies this
      ensures ok == (dbOk && All(InsertEnrichment, old(View()), batch).Success?)
      ensures View() == After(InsertEnrichment, old(View()), batch, dbOk)
    {
      ok := SendBatch(InsertEnrichment, batch, dbOk);
    }

    /** Inserts the alerts and returns them with the ids the table ended up with. `readOk` is
        false when the read-back fails; the insert has happened then. */
    method SaveAlerts(batch: seq<Alert>, dbOk: bool, readOk: bool) returns (r: Result<seq<Alert>>)
      modifies this
      ensures |batch| == 0 ==> r == Success([]) && View() == old(View())
      ensures |batch| > 0 ==> View() == After(InsertAlert, old(View()), batch, dbOk)
      ensures |batch| > 0 ==> (r.Success? <==> dbOk && All(InsertAlert, old(View()), batch).Success? && readOk)
      ensures |batch| > 0 && r.Success? ==> r.value == StoredAlerts(View(), batch[0].brand, batch)
    {
      if |batch| == 0 {
        return Success([]);
      }
      var ok := SendBatch(InsertAlert, batch, dbOk);
      if !ok || !readOk {
        return Failure;
      }
      var out := StoredIds(batch);
      return Success(out);
    }

    /** Looks the batch's keys up under the first alert's brand. */
    method StoredIds(batch: seq<Alert>) returns (out: seq<Alert>)
      requires |batch| > 0
      ensures out == StoredAlerts(View(), batch[0].brand, batch)
    {
      var brand := batch[0].brand;
      var idByKey: map<string, string> := map[];
      for k := 0 to |alerts|
        invariant forall key :: key in idByKey <==> IdOfKey(alerts[..k], brand, key).Some?
        invariant forall key :: key in idByKey ==> IdOfKey(alerts[..k], brand, key) == Some(idByKey[key])
      {
        assert alerts[..k + 1][..k] == alerts[..k];
        if alerts[k].brand == brand {
          idByKey := idByKey[alerts[k].dedupeKey := alerts[k].id];
        }
      }
      assert alerts[..|alerts|] == alerts;
      out := [];
      for k := 0 to |batch|
        invariant out == StoredAlerts(View(), brand, batch)[..k]
      {
        var alert := batch[k];
        if alert.dedupeKey in idByKey {
          alert := alert.(id := idByKey[alert.dedupeKey]);
        }
        out := out + [alert];
      }
    }

    method SaveDrafts(batch: seq<Draft>, dbOk: bool) returns (ok: bool)
      modifies this
      ensures ok == (dbOk && All(InsertDraft, old(View()), batch).Success?)
      ensures View() == After(InsertDraft, old(View()), batch, dbOk)
    {
      ok := SendBatch(InsertDraft, batch, dbOk);
    }
  }

  function StoredAlerts(db: Db, brand: string, batch: seq<Alert>): (out: seq<Alert>)
    ensures |out| == |batch|
    ensures forall k :: 0 <= k < |batch| ==> out[k] == WithStoredId(db, brand, batch[k])
  {
    seq(|batch|, k requires 0 <= k < |batch| => WithStoredId(db, brand, batch[k]))
  }

  // ---------------------------------------------------------------- referential integrity

  ghost predicate MentionsUnique(t: seq<Mention>) {
    forall k, l :: 0 <= k < l < |t| ==> t[k].id != t[l].id && (t[k].brand, t[k].contentHash) != (t[l].brand, t[l].contentHash)
  }

  ghost predicate AlertsUnique(t: seq<Alert>) {
    forall k, l :: 0 <= k < l < |t| ==> t[k].id != t[l].id && (t[k].brand, t[k].dedupeKey) != (t[l].brand, t[l].dedupeKey)
  }

  ghost predicate EnrichmentsSound(db: Db) {
    && (forall k, l :: 0 <= k < l < |db.enrichments| ==> db.enrichments[k].mentionId != db.enrichments[l].mentionId)
    && (forall k :: 0 <= k < |db.enrichments| ==> MentionStored(db, db.enrichments[k].mentionId))
  }

  ghost predicate DraftSound(db: Db, d: Draft) {
    && (d.alertId.Some? || d.mentionId.Some?)
    && (d.alertId.Some? ==> AlertStored(db, d.alertId.value))
    && (d.mentionId.Some? ==> MentionStored(db, d.mentionId.value))
  }

  ghost predicate DraftsSound(db: Db) {
    && (forall k, l :: 0 <= k < l < |db.drafts| ==> db.drafts[k].id != db.drafts[l].id)
    && (forall k :: 0 <= k < |db.drafts| ==> DraftSound(db, db.drafts[k]))
  }

  /** Keys are unique and every reference points at a row. */
  ghost predicate Consistent(db: Db) {
    MentionsUnique(db.mentions) && AlertsUnique(db.alerts) && EnrichmentsSound(db) && DraftsSound(db)
  }

  /** Rows are never changed or removed, only appended. */
  ghost predicate Grows(a: Db, b: Db) {
    a.mentions <= b.mentions && a.enrichments <= b.enrichments && a.alerts <= b.alerts && a.drafts <= b.drafts
  }

  lemma GrowsKeepsRows(a: Db, b: Db)
    requires Grows(a, b)
    ensures forall id :: MentionStored(a, id) ==> MentionStored(b, id)
    ensures forall id :: AlertStored(a, id) ==> AlertStored(b, id)
    ensures forall brand, key :: KeyStored(a, brand, key) ==> KeyStored(b, brand, key)
  {
    forall id | MentionStored(a, id) ensures MentionStored(b, id) {
      var k :| 0 <= k < |a.mentions| && a.mentions[k].id == id;
      assert b.mentions[k].id == id;
    }
    forall id | AlertStored(a, id) ensures AlertStored(b, id) {
      var k :| 0 <= k < |a.alerts| && a.alerts[k].id == id;
      assert b.alerts[k].id == id;
    }
    forall brand, key | KeyStored(a, brand, key) ensures KeyStored(b, brand, key) {
      var k :| 0 <= k < |a.alerts| && a.alerts[k].brand == brand && a.alerts[k].dedupeKey == key;
      assert b.alerts[k].brand == brand && b.alerts[k].dedupeKey == key;
    }
  }

  lemma GrowsKeepsDrafts(a: Db, b: Db)
    requires Grows(a, b) && a.drafts == b.drafts && DraftsSound(a)
    ensures DraftsSound(b)
  {
    GrowsKeepsRows(a, b);
    forall k | 0 <= k < |b.drafts| ensures DraftSound(b, b.drafts[k]) {
      assert DraftSound(a, a.drafts[k]);
    }
  }

  /** A statement that keeps the tables consistent and removes nothing. */
  ghost predicate Safe<T(!new)>(statement: (Db, T) -> Result<Db>) {
    forall db, x :: Consistent(db) && statement(db, x).Success? ==>
      Consistent(statement(db, x).value) && Grows(db, statement(db, x).value)
  }

  lemma InsertMentionSafe()
    ensures Safe(InsertMention)
  {
    forall db, m | Consistent(db) && InsertMention(db, m).Success?
      ensures Consistent(InsertMention(db, m).value) && Grows(db, InsertMention(db, m).value)
    {
      var after := InsertMention(db, m).value;
      GrowsKeepsDrafts(db, after);
      GrowsKeepsRows(db, after);
    }
  }

  lemma InsertEnrichmentSafe()
    ensures Safe(InsertEnrichment)
  {
    forall db, e | Consistent(db) && InsertEnrichment(db, e).Success?
      ensures Consistent(InsertEnrichment(db, e).value) && Grows(db, InsertEnrichment(db, e).value)
    {
      var after := InsertEnrichment(db, e).value;
      GrowsKeepsDrafts(db, after);
      GrowsKeepsRows(db, after);
    }
  }

  lemma InsertAlertSafe()
    ensures Safe(InsertAlert)
  {
    forall db, a | Consistent(db) && InsertAlert(db, a).Success?
      ensures Consistent(InsertAlert(db, a).value) && Grows(db, InsertAlert(db, a).value)
    {
      var after := InsertAlert(db, a).value;
      GrowsKeepsDrafts(db, after);
      GrowsKeepsRows(db, after);
    }
  }

  lemma InsertDraftSafe()
    ensures Safe(InsertDraft)
  {
    forall db, d | Consistent(db) && InsertDraft(db, d).Success?
      ensures Consistent(InsertDraft(db, d).value) && Grows(db, InsertDraft(db, d).value)
    {
      var after := InsertDraft(db, d).value;
      GrowsKeepsRows(db, after);
      forall k | 0 <= k < |after.drafts| ensures DraftSound(after, after.drafts[k]) {
        if k < |db.drafts| {
          assert DraftSound(db, db.drafts[k]);
        }
      }
    }
  }

  lemma {:induction false} BatchSafe<T(!new)>(statement: (Db, T) -> Result<Db>, db: Db, batch: seq<T>, dbOk: bool)
    requires Safe(statement) && Consistent(db)
    ensures Consistent(After(statement, db, batch, dbOk)) && Grows(db, After(statement, db, batch, dbOk))
  {
    if |batch| > 0 && dbOk && All(statement, db, batch).Success? {
      var rest := batch[..|batch| - 1];
      BatchSafe(statement, db, rest, dbOk);
      assert After(statement, db, batch, dbOk) == statement(After(statement, db, rest, dbOk), batch[|batch| - 1]).value;
    }
  }

  datatype Operation =
    | SaveMentions(mentions: seq<Mention>, dbOk: bool)
    | SaveEnrichments(enrichments: seq<Enrichment>, dbOk: bool)
    | SaveAlerts(alerts: seq<Alert>, dbOk: bool)
    | SaveDrafts(drafts: seq<Draft>, dbOk: bool)

  function Apply(db: Db, op: Operation): Db {
    match op
    case SaveMentions(batch, dbOk) => After(InsertMention, db, batch, dbOk)
    case SaveEnrichments(batch, dbOk) => After(InsertEnrichment, db, batch, dbOk)
    case SaveAlerts(batch, dbOk) => After(InsertAlert, db, batch, dbOk)
    case SaveDrafts(batch, dbOk) => After(InsertDraft, db, batch, dbOk)
  }

  function Run(db: Db, ops: seq<Operation>): Db {
    if |ops| == 0 then db else Apply(Run(db, ops[..|ops| - 1]), ops[|ops| - 1])
  }

  /** Each write goes to the database that the ones before it left. */
  lemma WritesInOrder(db: Db, ops: seq<Operation>, op: Operation)
    ensures Run(db, []) == db && Run(db, ops + [op]) == Apply(Run(db, ops), op)
  {
    assert (ops + [op])[..|ops|] == ops;
  }

  /** Over any sequence of writes, failing or not, keys stay unique, references stay good, and
      no row is lost. */
  lemma {:induction false} IntegrityOverEveryRun(db: Db, ops: seq<Operation>)
    requires Consistent(db)
    ensures Consistent(Run(db, ops)) && Grows(db, Run(db, ops))
  {
    if |ops| > 0 {
      var before := Run(db, ops[..|ops| - 1]);
      IntegrityOverEveryRun(db, ops[..|ops| - 1]);
      match ops[|ops| - 1]
      case SaveMentions(batch, dbOk) => InsertMentionSafe(); BatchSafe(InsertMention, before, batch, dbOk);
      case SaveEnrichments(batch, dbOk) => InsertEnrichmentSafe(); BatchSafe(InsertEnrichment, before, batch, dbOk);
      case SaveAlerts(batch, dbOk) => InsertAlertSafe(); BatchSafe(InsertAlert, before, batch, dbOk);
      case SaveDrafts(batch, dbOk) => InsertDraftSafe(); BatchSafe(InsertDraft, before, batch, dbOk);
    }
  }

  // ---------------------------------------------------------------- alerts keep the id of their row

  ghost predicate RowHolds(db: Db, id: string, brand: string, key: string) {
    exists k :: 0 <= k < |db.alerts| && db.alerts[k].id == id && db.alerts[k].brand == brand && db.alerts[k].dedupeKey == key
  }

  lemma {:induction false} IdOfKeyFinds(alerts: seq<Alert>, brand: string, key: string)
    ensures IdOfKey(alerts, brand, key).Some? <==>
      exists k :: 0 <= k < |alerts| && alerts[k].brand == brand && alerts[k].dedupeKey == key
    ensures IdOfKey(alerts, brand, key).Some? ==>
      exists k :: 0 <= k < |alerts| && alerts[k].brand == brand && alerts[k].dedupeKey == key
        && alerts[k].id == IdOfKey(alerts, brand, key).value
  {
    if |alerts| > 0 {
      var rest, last := alerts[..|alerts| - 1], alerts[|alerts| - 1];
      IdOfKeyFinds(rest, brand, key);
      if last.brand == brand && last.dedupeKey == key {
        assert alerts[|alerts| - 1].id == last.id;
      } else {
        if k :| 0 <= k < |alerts| && alerts[k].brand == brand && alerts[k].dedupeKey == key {
          assert rest[k].brand == brand;
        }
        var id := IdOfKey(rest, brand, key);
        if k :| 0 <= k < |rest| && rest[k].brand == brand && rest[k].dedupeKey == key && Some(rest[k].id) == id {
          assert alerts[k].id == rest[k].id;
        }
      }
    }
  }

  lemma {:induction false} InsertedKeysAreStored(db: Db, batch: seq<Alert>)
    requires Consistent(db) && All(InsertAlert, db, batch).Success?
    ensures forall k :: 0 <= k < |batch| ==> KeyStored(All(InsertAlert, db, batch).value, batch[k].brand, batch[k].dedupeKey)
  {
    if |batch| > 0 {
      var rest, last := batch[..|batch| - 1], batch[|batch| - 1];
      var before, after := All(InsertAlert, db, rest).value, All(InsertAlert, db, batch).value;
      InsertedKeysAreStored(db, rest);
      assert before.alerts <= after.alerts;
      assert KeyStored(after, last.brand, last.dedupeKey) by {
        if !KeyStored(before, last.brand, last.dedupeKey) {
          assert after.alerts[|before.alerts|] == last;
        }
      }
      KeysPersist(before, after);
      forall k | 0 <= k < |batch| ensures KeyStored(after, batch[k].brand, batch[k].dedupeKey) {
        if k < |rest| {
          assert KeyStored(before, rest[k].brand, rest[k].dedupeKey);
        }
      }
    }
  }

  lemma KeysPersist(a: Db, b: Db)
    requires a.alerts <= b.alerts
    ensures forall brand, key :: KeyStored(a, brand, key) ==> KeyStored(b, brand, key)
  {
    forall brand, key | KeyStored(a, brand, key) ensures KeyStored(b, brand, key) {
      var k :| 0 <= k < |a.alerts| && a.alerts[k].brand == brand && a.alerts[k].dedupeKey == key;
      assert b.alerts[k].brand == brand && b.alerts[k].dedupeKey == key;
    }
  }

  /** Every alert a successful SaveAlerts returns for one brand is the alert it was given with
      the id of the row that holds its key, whether this run's insert won or an earlier one. */
  lemma ReturnedAlertsAreStored(db: Db, batch: seq<Alert>)
    requires Consistent(db) && |batch| > 0 && All(InsertAlert, db, batch).Success?
    requires forall k :: 0 <= k < |batch| ==> batch[k].brand == batch[0].brand
    ensures var after := All(InsertAlert, db, batch).value;
      var out := StoredAlerts(after, batch[0].brand, batch);
      forall k :: 0 <= k < |batch| ==>
        RowHolds(after, out[k].id, batch[k].brand, batch[k].dedupeKey) && out[k] == batch[k].(id := out[k].id)
  {
    var after := All(InsertAlert, db, batch).value;
    InsertedKeysAreStored(db, batch);
    forall k | 0 <= k < |batch|
      ensures var out := StoredAlerts(after, batch[0].brand, batch);
        RowHolds(after, out[k].id, batch[k].brand, batch[k].dedupeKey) && out[k] == batch[k].(id := out[k].id)
    {
      IdOfKeyFinds(after.alerts, batch[0].brand, batch[k].dedupeKey);
      assert KeyStored(after, batch[k].brand, batch[k].dedupeKey);
    }
  }

  /** Exactly when the id is right without assuming one brand: the lookup goes by the first
      alert's brand, so an alert of another brand gets a right id only if that brand has no
      row under its key and the alert's own row is the stored one. */
  lemma StoredIdIsRightWhen(db: Db, brand: string, a: Alert)
    requires Consistent(db) && KeyStored(db, a.brand, a.dedupeKey)
    ensures RowHolds(db, WithStoredId(db, brand, a).id, a.brand, a.dedupeKey) <==>
            a.brand == brand || (!KeyStored(db, brand, a.dedupeKey) && RowHolds(db, a.id, a.brand, a.dedupeKey))
  {
    IdOfKeyFinds(db.alerts, brand, a.dedupeKey);
    var id := WithStoredId(db, brand, a).id;
    if a.brand != brand && KeyStored(db, brand, a.dedupeKey) && RowHolds(db, id, a.brand, a.dedupeKey) {
      IdHasOneBrand(db, id, brand, a.brand, a.dedupeKey);
    }
  }

  lemma IdHasOneBrand(db: Db, id: string, brand: string, other: string, key: string)
    requires Consistent(db) && RowHolds(db, id, brand, key) && RowHolds(db, id, other, key)
    ensures brand == other
  {
    var k :| 0 <= k < |db.alerts| && db.alerts[k].id == id && db.alerts[k].brand == brand && db.alerts[k].dedupeKey == key;
    var l :| 0 <= l < |db.alerts| && db.alerts[l].id == id && db.alerts[l].brand == other && db.alerts[l].dedupeKey == key;
    assert k == l;
  }

  // ---------------------------------------------------------------- drafts are not dropped

  ghost predicate FreshDrafts(db: Db, drafts: seq<Draft>) {
    && (forall k, l :: 0 <= k < l < |drafts| ==> drafts[k].id != drafts[l].id)
    && (forall k :: 0 <= k < |drafts| ==> !DraftStored(db, drafts[k].id))
  }

  /** Drafts with new ids and good references are all written, in order. */
  lemma {:induction false} SoundDraftsAreWritten(db: Db, drafts: seq<Draft>)
    requires FreshDrafts(db, drafts) && forall k :: 0 <= k < |drafts| ==> DraftSound(db, drafts[k])
    ensures All(InsertDraft, db, drafts) == Success(db.(drafts := db.drafts + drafts))
  {
    if |drafts| == 0 {
      assert db.drafts + drafts == db.drafts;
    } else {
      var rest, last := drafts[..|drafts| - 1], drafts[|drafts| - 1];
      SoundDraftsAreWritten(db, rest);
      var before := db.(drafts := db.drafts + rest);
      NewDraftId(db, rest, last);
      assert DraftSound(db, last);
      assert AlertsAndMentionsSame(db, before);
      assert db.drafts + rest + [last] == db.drafts + drafts;
    }
  }

  ghost predicate AlertsAndMentionsSame(a: Db, b: Db) {
    && (forall id :: AlertStored(a, id) <==> AlertStored(b, id))
    && (forall id :: MentionStored(a, id) <==> MentionStored(b, id))
  }

  lemma NewDraftId(db: Db, rest: seq<Draft>, last: Draft)
    requires FreshDrafts(db, rest + [last])
    ensures !DraftStored(db.(drafts := db.drafts + rest), last.id)
  {
    var drafts := rest + [last];
    assert !DraftStored(db, drafts[|rest|].id);
    forall k | 0 <= k < |rest| ensures rest[k].id != last.id {
      assert drafts[k].id != drafts[|rest|].id;
    }
  }

  ghost predicate AgainstAlert(d: Draft, alerts: seq<Alert>) {
    d.mentionId.None? && exists a :: 0 <= a < |alerts| && d.alertId == Some(alerts[a].id)
  }

  /** No draft written against an alert that SaveAlerts returned is dropped by the guard in
      SaveDrafts, whatever other writes come in between. */
  lemma DraftsForReturnedAlertsAreKept(db: Db, batch: seq<Alert>, between: seq<Operation>, drafts: seq<Draft>)
    requires Consistent(db) && |batch| > 0 && All(InsertAlert, db, batch).Success?
    requires forall k :: 0 <= k < |batch| ==> batch[k].brand == batch[0].brand
    requires forall k :: 0 <= k < |drafts| ==>
      AgainstAlert(drafts[k], StoredAlerts(All(InsertAlert, db, batch).value, batch[0].brand, batch))
    requires FreshDrafts(Run(All(InsertAlert, db, batch).value, between), drafts)
    ensures var later := Run(All(InsertAlert, db, batch).value, between);
      All(InsertDraft, later, drafts) == Success(later.(drafts := later.drafts + drafts))
  {
    var after := All(InsertAlert, db, batch).value;
    var out := StoredAlerts(after, batch[0].brand, batch);
    InsertAlertSafe();
    BatchSafe(InsertAlert, db, batch, true);
    IntegrityOverEveryRun(after, between);
    GrowsKeepsRows(after, Run(after, between));
    ReturnedAlertsAreStored(db, batch);
    forall k | 0 <= k < |drafts| ensures DraftSound(Run(after, between), drafts[k]) {
      var a :| 0 <= a < |out| && drafts[k].alertId == Some(out[a].id);
      assert RowHolds(after, out[a].id, batch[a].brand, batch[a].dedupeKey);
      assert AlertStored(after, out[a].id);
    }
    SoundDraftsAreWritten(Run(after, between), drafts);
  }

  // ---------------------------------------------------------------- collecting the same content again

  /** Content that is already stored comes back under ids nobody has seen. */
  ghost predicate RecollectedContent(db: Db, mentions: seq<Mention>) {
    forall k :: 0 <= k < |mentions| ==>
      ContentStored(db, mentions[k].brand, mentions[k].contentHash) && !MentionStored(db, mentions[k].id)
  }

  lemma {:induction false} StoredContentChangesNothing(db: Db, mentions: seq<Mention>)
    requires RecollectedContent(db, mentions)
    ensures All(InsertMention, db, mentions) == Success(db)
  {
    if |mentions| > 0 {
      StoredContentChangesNothing(db, mentions[..|mentions| - 1]);
    }
  }

  lemma {:induction false} UnknownMentionsChangeNothing(db: Db, enrichments: seq<Enrichment>)
    requires forall k :: 0 <= k < |enrichments| ==> !MentionStored(db, enrichments[k].mentionId)
    ensures All(InsertEnrichment, db, enrichments) == Success(db)
  {
    if |enrichments| > 0 {
      UnknownMentionsChangeNothing(db, enrichments[..|enrichments| - 1]);
    }
  }

  /** Re-saving stored content under fresh ids, and then its enrichments, fails nothing and
      leaves every window of every brand as it was. */
  lemma RecollectionIsIdempotent(db: Db, mentions: seq<Mention>, enrichments: seq<Enrichment>, brand: string, start: int, end: int)
    requires RecollectedContent(db, mentions)
    requires forall k :: 0 <= k < |enrichments| ==> enrichments[k].mentionId in Ids(mentions)
    ensures var after := Run(db, [SaveMentions(mentions, true), SaveEnrichments(enrichments, true)]);
      after == db && EnrichedInWindow(after, brand, start, end) == EnrichedInWindow(db, brand, start, end)
  {
    StoredContentChangesNothing(db, mentions);
    UnknownMentionsChangeNothing(db, enrichments);
    var ops := [SaveMentions(mentions, true), SaveEnrichments(enrichments, true)];
    assert ops[..1] == [ops[0]] && ops[..1][..0] == [];
    assert Run(db, ops[..1]) == Apply(Run(db, []), ops[0]);
  }

  // ---------------------------------------------------------------- the window read back

  lemma {:induction false} EnrichmentOfFinds(enrichments: seq<Enrichment>, id: string)
    ensures EnrichmentOf(enrichments, id).Some? ==>
      EnrichmentOf(enrichments, id).value in enrichments && EnrichmentOf(enrichments, id).value.mentionId == id
    ensures EnrichmentOf(enrichments, id).None? ==> forall e :: e in enrichments ==> e.mentionId != id
  {
    if |enrichments| > 0 {
      EnrichmentOfFinds(enrichments[..|enrichments| - 1], id);
      assert enrichments == enrichments[..|enrichments| - 1] + [enrichments[|enrichments| - 1]];
    }
  }

  /** A pair the window should hold: a stored mention of the brand in the half-open window,
      with the enrichment stored for it. */
  ghost predicate Classified(db: Db, mentions: seq<Mention>, brand: string, start: int, end: int, pair: EnrichedMention) {
    && pair.mention in mentions && pair.mention.brand == brand && start <= pair.mention.postedAt < end
    && pair.enrichment in db.enrichments && pair.enrichment.mentionId == pair.mention.id
  }

  lemma {:induction false} JoinIsExact(db: Db, mentions: seq<Mention>, brand: string, start: int, end: int, pair: EnrichedMention)
    requires EnrichmentsSound(db)
    ensures pair in Joined(db, mentions, brand, start, end) <==> Classified(db, mentions, brand, start, end, pair)
  {
    if |mentions| > 0 {
      var rest, m := mentions[..|mentions| - 1], mentions[|mentions| - 1];
      assert mentions == rest + [m];
      JoinIsExact(db, rest, brand, start, end, pair);
      EnrichmentOfFinds(db.enrichments, m.id);
    }
  }

  lemma {:induction false} JoinedDistinct(db: Db, mentions: seq<Mention>, brand: string, start: int, end: int)
    requires MentionsUnique(mentions)
    ensures Distinct(Joined(db, mentions, brand, start, end))
    ensures forall pair :: pair in Joined(db, mentions, brand, start, end) ==> pair.mention in mentions
  {
    if |mentions| > 0 {
      var rest, m := mentions[..|mentions| - 1], mentions[|mentions| - 1];
      JoinedDistinct(db, rest, brand, start, end);
      assert mentions == rest + [m] && m !in rest;
    }
  }

  /** The window read back holds exactly the classified mentions of the brand in the window,
      each once and newest first. */
  lemma WindowIsExact(db: Db, brand: string, start: int, end: int)
    requires Consistent(db)
    ensures forall i, j :: 0 <= i < j < |EnrichedInWindow(db, brand, start, end)| ==>
      EnrichedInWindow(db, brand, start, end)[i].mention.postedAt >= EnrichedInWindow(db, brand, start, end)[j].mention.postedAt
    ensures Sorted(NewerFirst, EnrichedInWindow(db, brand, start, end)) && Distinct(EnrichedInWindow(db, brand, start, end))
    ensures forall pair :: pair in EnrichedInWindow(db, brand, start, end) <==>
      Classified(db, db.mentions, brand, start, end, pair)
  {
    var joined := Joined(db, db.mentions, brand, start, end);
    SortSorted(NewerFirst, joined);
    SortElements(NewerFirst, joined);
    JoinedDistinct(db, db.mentions, brand, start, end);
    PermutationDistinct(joined, EnrichedInWindow(db, brand, start, end));
    SameElements(joined, EnrichedInWindow(db, brand, start, end));
    forall pair ensures pair in EnrichedInWindow(db, brand, start, end) <==>
      Classified(db, db.mentions, brand, start, end, pair)
    {
      JoinIsExact(db, db.mentions, brand, start, end, pair);
    }
  }
}
