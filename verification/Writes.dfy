/** What a save leaves in the tables, row by row: the four batches of
  `agents/bp-orchestrator/store.go` and the conflict rules of their statements. */
module Writes {
  import opened Outcomes
  import opened Models
  import opened Ordering
  import opened Store

  // ---------------------------------------------------------------- the rows of a batch that are new

  /** Element `k` of the batch is not passed over, and its key is neither in the table nor
      earlier in the batch. */
  ghost predicate IsNew<T(!new), K(!new)>(key: T -> K, passed: T -> bool, table: seq<T>, batch: seq<T>, k: nat) {
    && k < |batch| && !passed(batch[k])
    && (forall row :: row in table ==> key(row) != key(batch[k]))
    && (forall j :: 0 <= j < k && !passed(batch[j]) ==> key(batch[j]) != key(batch[k]))
  }

  ghost function NewAmong<T(!new), K(!new)>(key: T -> K, passed: T -> bool, table: seq<T>, batch: seq<T>, n: nat): seq<T>
    requires n <= |batch|
  {
    if n == 0 then []
    else NewAmong(key, passed, table, batch, n - 1) + (if IsNew(key, passed, table, batch, n - 1) then [batch[n - 1]] else [])
  }

  lemma {:induction false} NewAmongElements<T(!new), K(!new)>(key: T -> K, passed: T -> bool, table: seq<T>, batch: seq<T>, n: nat, x: T)
    requires n <= |batch|
    ensures x in NewAmong(key, passed, table, batch, n) <==> exists k: nat :: k < n && IsNew(key, passed, table, batch, k) && batch[k] == x
  {
    if n > 0 {
      NewAmongElements(key, passed, table, batch, n - 1, x);
      if IsNew(key, passed, table, batch, n - 1) && batch[n - 1] == x {
        assert x in NewAmong(key, passed, table, batch, n);
      }
    }
  }

  /** Some row has this key. */
  ghost predicate HasKey<T(!new), K(!new)>(key: T -> K, rows: seq<T>, wanted: K) {
    exists k :: 0 <= k < |rows| && key(rows[k]) == wanted
  }

  /** Some element before `n` that is not passed over has this key. */
  ghost predicate CameBefore<T(!new), K(!new)>(key: T -> K, passed: T -> bool, batch: seq<T>, n: nat, wanted: K) {
    exists j :: 0 <= j < n && j < |batch| && !passed(batch[j]) && key(batch[j]) == wanted
  }

  lemma HasKeyOfMore<T(!new), K(!new)>(key: T -> K, rows: seq<T>, last: T, wanted: K)
    ensures HasKey(key, rows + [last], wanted) <==> HasKey(key, rows, wanted) || key(last) == wanted
  {
    var all := rows + [last];
    assert all[|rows|] == last;
    if k :| 0 <= k < |rows| && key(rows[k]) == wanted {
      assert key(all[k]) == wanted;
    }
    if k :| 0 <= k < |all| && key(all[k]) == wanted {
      assert k < |rows| ==> key(rows[k]) == wanted;
    }
  }

  lemma NewExactlyWhen<T(!new), K(!new)>(key: T -> K, passed: T -> bool, table: seq<T>, batch: seq<T>, k: nat)
    requires k < |batch|
    ensures IsNew(key, passed, table, batch, k) <==>
      !passed(batch[k]) && !HasKey(key, table, key(batch[k])) && !CameBefore(key, passed, batch, k, key(batch[k]))
  {
    if !HasKey(key, table, key(batch[k])) {
      forall row | row in table ensures key(row) != key(batch[k]) {
        var r :| 0 <= r < |table| && table[r] == row;
      }
    }
  }

  /** Every key of the batch is in the table that the new rows make. */
  lemma {:induction false} KeysSoFar<T(!new), K(!new)>(key: T -> K, passed: T -> bool, table: seq<T>, batch: seq<T>, n: nat, wanted: K)
    requires n <= |batch|
    ensures HasKey(key, table + NewAmong(key, passed, table, batch, n), wanted) <==>
            HasKey(key, table, wanted) || CameBefore(key, passed, batch, n, wanted)
  {
    if n == 0 {
      assert table + [] == table;
    } else {
      KeysSoFar(key, passed, table, batch, n - 1, wanted);
      NewExactlyWhen(key, passed, table, batch, n - 1);
      var before := NewAmong(key, passed, table, batch, n - 1);
      if IsNew(key, passed, table, batch, n - 1) {
        assert table + (before + [batch[n - 1]]) == table + before + [batch[n - 1]];
        HasKeyOfMore(key, table + before, batch[n - 1], wanted);
      } else {
        assert before + [] == before;
      }
      OneMoreCame(key, passed, batch, n, wanted);
    }
  }

  lemma OneMoreCame<T(!new), K(!new)>(key: T -> K, passed: T -> bool, batch: seq<T>, n: nat, wanted: K)
    requires 0 < n <= |batch|
    ensures CameBefore(key, passed, batch, n, wanted) <==>
      CameBefore(key, passed, batch, n - 1, wanted) || (!passed(batch[n - 1]) && key(batch[n - 1]) == wanted)
  {
  }

  // ---------------------------------------------------------------- a batch, statement by statement

  ghost predicate Any(refused: nat -> bool, n: nat) { exists k: nat :: k < n && refused(k) }

  /** Statement `k` takes the database from `at(k)` to `at(k + 1)`, or is refused. */
  ghost predicate Stepwise<T(!new)>(statement: (Db, T) -> Result<Db>, batch: seq<T>, refused: nat -> bool, at: nat -> Db) {
    forall k: nat :: k < |batch| ==> statement(at(k), batch[k]) == if refused(k) then Failure else Success(at(k + 1))
  }

  lemma StepAt<T(!new)>(statement: (Db, T) -> Result<Db>, batch: seq<T>, refused: nat -> bool, at: nat -> Db, k: nat, next: nat)
    requires Stepwise(statement, batch, refused, at) && k < |batch| && next == k + 1
    ensures statement(at(k), batch[k]) == if refused(k) then Failure else Success(at(next))
  {
    var x := batch[k];
    assert refused(k) || !refused(k);
  }

  lemma {:induction false} BatchFails<T(!new)>(statement: (Db, T) -> Result<Db>, batch: seq<T>, refused: nat -> bool, at: nat -> Db, n: nat)
    requires n <= |batch| && Stepwise(statement, batch, refused, at)
    ensures All(statement, at(0), batch[..n]) == if Any(refused, n) then Failure else Success(at(n))
  {
    if n > 0 {
      BatchFails(statement, batch, refused, at, n - 1);
      assert batch[..n][..n - 1] == batch[..n - 1];
      StepAt(statement, batch, refused, at, n - 1, n);
      OneMoreRefused(refused, n);
    }
  }

  lemma OneMoreRefused(refused: nat -> bool, n: nat)
    requires n > 0
    ensures Any(refused, n) <==> Any(refused, n - 1) || refused(n - 1)
  {
  }

  lemma WholeBatch<T(!new)>(statement: (Db, T) -> Result<Db>, db: Db, batch: seq<T>, refused: nat -> bool, at: nat -> Db)
    requires Stepwise(statement, batch, refused, at) && at(0) == db
    ensures All(statement, db, batch) == if Any(refused, |batch|) then Failure else Success(at(|batch|))
  {
    BatchFails(statement, batch, refused, at, |batch|);
    assert batch[..|batch|] == batch;
  }

  // ---------------------------------------------------------------- mentions

  function ContentOf(m: Mention): (string, string) { (m.brand, m.contentHash) }

  function IdOfMention(m: Mention): string { m.id }

  predicate NoMention(m: Mention) { false }

  /** Its content is neither stored nor brought by an earlier mention of the batch. */
  ghost predicate NewMention(db: Db, batch: seq<Mention>, k: nat) { IsNew(ContentOf, NoMention, db.mentions, batch, k) }

  ghost function NewMentions(db: Db, batch: seq<Mention>, n: nat): seq<Mention>
    requires n <= |batch|
  {
    NewAmong(ContentOf, NoMention, db.mentions, batch, n)
  }

  /** New content under an id that is taken, in the table or by a new mention before it. */
  ghost predicate RefusedMention(db: Db, batch: seq<Mention>, k: nat) {
    && NewMention(db, batch, k)
    && ((exists row :: row in db.mentions && row.id == batch[k].id) ||
        exists j: nat :: j < k && NewMention(db, batch, j) && batch[j].id == batch[k].id)
  }

  lemma IdTakenSoFar(db: Db, batch: seq<Mention>, k: nat)
    requires k < |batch| && NewMention(db, batch, k)
    ensures MentionStored(db.(mentions := db.mentions + NewMentions(db, batch, k)), batch[k].id) <==> RefusedMention(db, batch, k)
  {
    var news := NewMentions(db, batch, k);
    var rows := db.mentions + news;
    forall x ensures x in news <==> exists j: nat :: j < k && NewMention(db, batch, j) && batch[j] == x {
      NewAmongElements(ContentOf, NoMention, db.mentions, batch, k, x);
    }
    if RefusedMention(db, batch, k) {
      var row :| row in rows && row.id == batch[k].id;
      var r :| 0 <= r < |rows| && rows[r] == row;
    }
    if r :| 0 <= r < |rows| && rows[r].id == batch[k].id {
      assert rows[r] in db.mentions || rows[r] in news;
    }
  }

  lemma ContentStoredSoFar(db: Db, batch: seq<Mention>, k: nat)
    requires k < |batch|
    ensures ContentStored(db.(mentions := db.mentions + NewMentions(db, batch, k)), batch[k].brand, batch[k].contentHash) <==>
            !NewMention(db, batch, k)
  {
    var rows := db.mentions + NewMentions(db, batch, k);
    KeysSoFar(ContentOf, NoMention, db.mentions, batch, k, ContentOf(batch[k]));
    NewExactlyWhen(ContentOf, NoMention, db.mentions, batch, k);
    if r :| 0 <= r < |rows| && rows[r].brand == batch[k].brand && rows[r].contentHash == batch[k].contentHash {
      assert ContentOf(rows[r]) == ContentOf(batch[k]);
    }
  }

  lemma OneMention(db: Db, batch: seq<Mention>, k: nat)
    requires k < |batch|
    ensures InsertMention(db.(mentions := db.mentions + NewMentions(db, batch, k)), batch[k]) ==
      if RefusedMention(db, batch, k) then Failure
      else Success(db.(mentions := db.mentions + NewMentions(db, batch, k + 1)))
  {
    ContentStoredSoFar(db, batch, k);
    var news := NewMentions(db, batch, k);
    if NewMention(db, batch, k) {
      IdTakenSoFar(db, batch, k);
      assert db.mentions + news + [batch[k]] == db.mentions + (news + [batch[k]]);
    } else {
      assert news + [] == news;
    }
  }

  ghost predicate HasContent(rows: seq<Mention>, m: Mention) {
    exists row :: row in rows && row.brand == m.brand && row.contentHash == m.contentHash
  }

  ghost function WithMentions(db: Db, batch: seq<Mention>): nat -> Db {
    (k: nat) => if k <= |batch| then db.(mentions := db.mentions + NewMentions(db, batch, k)) else db
  }

  lemma MentionsAfter(db: Db, batch: seq<Mention>)
    ensures All(InsertMention, db, batch) ==
      if exists k: nat :: RefusedMention(db, batch, k) then Failure
      else Success(db.(mentions := db.mentions + NewMentions(db, batch, |batch|)))
  {
    var refused, at := (k: nat) => RefusedMention(db, batch, k), WithMentions(db, batch);
    forall k: nat | k < |batch| ensures InsertMention(at(k), batch[k]) == if refused(k) then Failure else Success(at(k + 1)) {
      OneMention(db, batch, k);
    }
    assert db.mentions + [] == db.mentions;
    WholeBatch(InsertMention, db, batch, refused, at);
    if k: nat :| RefusedMention(db, batch, k) {
      assert refused(k);
    }
  }

  lemma NewMentionsElements(db: Db, batch: seq<Mention>, m: Mention)
    ensures m in db.mentions + NewMentions(db, batch, |batch|) <==>
            m in db.mentions || exists k: nat :: NewMention(db, batch, k) && batch[k] == m
  {
    NewAmongElements(ContentOf, NoMention, db.mentions, batch, |batch|, m);
  }

  lemma ContentsHaveRows(db: Db, batch: seq<Mention>, m: Mention) returns (row: Mention)
    requires m in batch
    ensures row in db.mentions + NewMentions(db, batch, |batch|) && row.brand == m.brand && row.contentHash == m.contentHash
  {
    var rows := db.mentions + NewMentions(db, batch, |batch|);
    var k :| 0 <= k < |batch| && batch[k] == m;
    KeysSoFar(ContentOf, NoMention, db.mentions, batch, |batch|, ContentOf(m));
    var r :| 0 <= r < |rows| && ContentOf(rows[r]) == ContentOf(m);
    row := rows[r];
  }

  /** A batch of mentions fails exactly when one with new content has a taken id. Otherwise the
      table has grown by the new mentions, as they were given and in their order, and every
      content of the batch has a row. */
  lemma SavedMentions(db: Db, batch: seq<Mention>)
    ensures All(InsertMention, db, batch).Failure? <==> exists k: nat :: RefusedMention(db, batch, k)
    ensures All(InsertMention, db, batch).Success? ==>
      var after := All(InsertMention, db, batch).value;
      && after == db.(mentions := db.mentions + NewMentions(db, batch, |batch|))
      && (forall m :: m in after.mentions <==> m in db.mentions || exists k: nat :: NewMention(db, batch, k) && batch[k] == m)
      && forall m :: m in batch ==> HasContent(after.mentions, m)
  {
    MentionsAfter(db, batch);
    if All(InsertMention, db, batch).Success? {
      forall m ensures m in db.mentions + NewMentions(db, batch, |batch|) <==>
                       m in db.mentions || exists k: nat :: NewMention(db, batch, k) && batch[k] == m
      {
        NewMentionsElements(db, batch, m);
      }
      forall m | m in batch ensures HasContent(db.mentions + NewMentions(db, batch, |batch|), m) {
        var row := ContentsHaveRows(db, batch, m);
      }
    }
  }

  // ---------------------------------------------------------------- enrichments

  function MentionIdOf(e: Enrichment): string { e.mentionId }

  /** An enrichment whose mention is not stored is passed over. */
  predicate Orphan(db: Db, e: Enrichment) { forall r :: 0 <= r < |db.mentions| ==> db.mentions[r].id != e.mentionId }

  ghost function Orphaned(db: Db): Enrichment -> bool { (e: Enrichment) => Orphan(db, e) }

  /** Its mention is stored and has no enrichment, in the table or earlier in the batch. */
  ghost predicate NewEnrichment(db: Db, batch: seq<Enrichment>, k: nat) {
    && k < |batch| && (exists row :: row in db.mentions && row.id == batch[k].mentionId)
    && (forall row :: row in db.enrichments ==> row.mentionId != batch[k].mentionId)
    && (forall j :: 0 <= j < k ==> batch[j].mentionId != batch[k].mentionId)
  }

  ghost function NewEnrichments(db: Db, batch: seq<Enrichment>, n: nat): seq<Enrichment>
    requires n <= |batch|
  {
    NewAmong(MentionIdOf, Orphaned(db), db.enrichments, batch, n)
  }

  lemma NewEnrichmentWhen(db: Db, batch: seq<Enrichment>, k: nat)
    ensures NewEnrichment(db, batch, k) <==> IsNew(MentionIdOf, Orphaned(db), db.enrichments, batch, k)
  {
    if k < |batch| && !Orphan(db, batch[k]) {
      var r :| 0 <= r < |db.mentions| && db.mentions[r].id == batch[k].mentionId;
      assert db.mentions[r] in db.mentions;
    }
  }

  lemma OneEnrichment(db: Db, batch: seq<Enrichment>, k: nat)
    requires k < |batch|
    ensures InsertEnrichment(db.(enrichments := db.enrichments + NewEnrichments(db, batch, k)), batch[k]) ==
            Success(db.(enrichments := db.enrichments + NewEnrichments(db, batch, k + 1)))
  {
    var news := NewEnrichments(db, batch, k);
    var rows, at := db.enrichments + news, db.(enrichments := db.enrichments + news);
    KeysSoFar(MentionIdOf, Orphaned(db), db.enrichments, batch, k, batch[k].mentionId);
    NewExactlyWhen(MentionIdOf, Orphaned(db), db.enrichments, batch, k);
    assert MentionStored(at, batch[k].mentionId) <==> !Orphan(db, batch[k]);
    EnrichedIsKeyed(at, batch[k].mentionId);
    if IsNew(MentionIdOf, Orphaned(db), db.enrichments, batch, k) {
      assert rows + [batch[k]] == db.enrichments + (news + [batch[k]]);
    } else {
      assert news + [] == news;
    }
  }

  lemma EnrichedIsKeyed(db: Db, id: string)
    ensures Enriched(db, id) <==> HasKey(MentionIdOf, db.enrichments, id)
  {
    if r :| 0 <= r < |db.enrichments| && db.enrichments[r].mentionId == id {
      assert MentionIdOf(db.enrichments[r]) == id;
    }
  }

  ghost function WithEnrichments(db: Db, batch: seq<Enrichment>): nat -> Db {
    (k: nat) => if k <= |batch| then db.(enrichments := db.enrichments + NewEnrichments(db, batch, k)) else db
  }

  /** A batch of enrichments is never refused. The table has grown by those whose mention is
      stored and was not enriched yet, as they were given and in their order. */
  lemma SavedEnrichments(db: Db, batch: seq<Enrichment>)
    ensures All(InsertEnrichment, db, batch) == Success(db.(enrichments := db.enrichments + NewEnrichments(db, batch, |batch|)))
    ensures forall e :: e in db.enrichments + NewEnrichments(db, batch, |batch|) <==>
                        e in db.enrichments || exists k: nat :: NewEnrichment(db, batch, k) && batch[k] == e
  {
    var refused, at := (k: nat) => false, WithEnrichments(db, batch);
    forall k: nat | k < |batch| ensures InsertEnrichment(at(k), batch[k]) == if refused(k) then Failure else Success(at(k + 1)) {
      OneEnrichment(db, batch, k);
    }
    assert db.enrichments + [] == db.enrichments;
    WholeBatch(InsertEnrichment, db, batch, refused, at);
    forall e ensures e in db.enrichments + NewEnrichments(db, batch, |batch|) <==>
                     e in db.enrichments || exists k: nat :: NewEnrichment(db, batch, k) && batch[k] == e
    {
      NewEnrichmentsElements(db, batch, e);
    }
  }

  lemma NewEnrichmentsElements(db: Db, batch: seq<Enrichment>, e: Enrichment)
    ensures e in db.enrichments + NewEnrichments(db, batch, |batch|) <==>
            e in db.enrichments || exists k: nat :: NewEnrichment(db, batch, k) && batch[k] == e
  {
    NewAmongElements(MentionIdOf, Orphaned(db), db.enrichments, batch, |batch|, e);
    if k: nat :| NewEnrichment(db, batch, k) && batch[k] == e {
      NewEnrichmentWhen(db, batch, k);
    }
    if k: nat :| k < |batch| && IsNew(MentionIdOf, Orphaned(db), db.enrichments, batch, k) && batch[k] == e {
      NewEnrichmentWhen(db, batch, k);
    }
  }

  // ---------------------------------------------------------------- alerts

  function KeyOfAlert(a: Alert): (string, string) { (a.brand, a.dedupeKey) }

  predicate NoAlert(a: Alert) { false }

  /** Its key is neither stored for its brand nor brought by an earlier alert of the batch. */
  ghost predicate NewAlert(db: Db, batch: seq<Alert>, k: nat) { IsNew(KeyOfAlert, NoAlert, db.alerts, batch, k) }

  ghost function NewAlerts(db: Db, batch: seq<Alert>, n: nat): seq<Alert>
    requires n <= |batch|
  {
    NewAmong(KeyOfAlert, NoAlert, db.alerts, batch, n)
  }

  /** A new key under an id that is taken, in the table or by a new alert before it. */
  ghost predicate RefusedAlert(db: Db, batch: seq<Alert>, k: nat) {
    && NewAlert(db, batch, k)
    && ((exists row :: row in db.alerts && row.id == batch[k].id) ||
        exists j: nat :: j < k && NewAlert(db, batch, j) && batch[j].id == batch[k].id)
  }

  lemma AlertIdTakenSoFar(db: Db, batch: seq<Alert>, k: nat)
    requires k < |batch| && NewAlert(db, batch, k)
    ensures AlertStored(db.(alerts := db.alerts + NewAlerts(db, batch, k)), batch[k].id) <==> RefusedAlert(db, batch, k)
  {
    var news := NewAlerts(db, batch, k);
    var rows := db.alerts + news;
    forall x ensures x in news <==> exists j: nat :: j < k && NewAlert(db, batch, j) && batch[j] == x {
      NewAmongElements(KeyOfAlert, NoAlert, db.alerts, batch, k, x);
    }
    if RefusedAlert(db, batch, k) {
      var row :| row in rows && row.id == batch[k].id;
      var r :| 0 <= r < |rows| && rows[r] == row;
    }
    if r :| 0 <= r < |rows| && rows[r].id == batch[k].id {
      assert rows[r] in db.alerts || rows[r] in news;
    }
  }

  lemma KeyStoredSoFar(db: Db, batch: seq<Alert>, k: nat)
    requires k < |batch|
    ensures KeyStored(db.(alerts := db.alerts + NewAlerts(db, batch, k)), batch[k].brand, batch[k].dedupeKey) <==> !NewAlert(db, batch, k)
  {
    var rows := db.alerts + NewAlerts(db, batch, k);
    KeysSoFar(KeyOfAlert, NoAlert, db.alerts, batch, k, KeyOfAlert(batch[k]));
    NewExactlyWhen(KeyOfAlert, NoAlert, db.alerts, batch, k);
    if r :| 0 <= r < |rows| && rows[r].brand == batch[k].brand && rows[r].dedupeKey == batch[k].dedupeKey {
      assert KeyOfAlert(rows[r]) == KeyOfAlert(batch[k]);
    }
  }

  lemma OneAlert(db: Db, batch: seq<Alert>, k: nat)
    requires k < |batch|
    ensures InsertAlert(db.(alerts := db.alerts + NewAlerts(db, batch, k)), batch[k]) ==
      if RefusedAlert(db, batch, k) then Failure else Success(db.(alerts := db.alerts + NewAlerts(db, batch, k + 1)))
  {
    KeyStoredSoFar(db, batch, k);
    var news := NewAlerts(db, batch, k);
    if NewAlert(db, batch, k) {
      AlertIdTakenSoFar(db, batch, k);
      assert db.alerts + news + [batch[k]] == db.alerts + (news + [batch[k]]);
    } else {
      assert news + [] == news;
    }
  }

  ghost function WithAlerts(db: Db, batch: seq<Alert>): nat -> Db {
    (k: nat) => if k <= |batch| then db.(alerts := db.alerts + NewAlerts(db, batch, k)) else db
  }

  lemma AlertsAfter(db: Db, batch: seq<Alert>)
    ensures All(InsertAlert, db, batch) ==
      if exists k: nat :: RefusedAlert(db, batch, k) then Failure
      else Success(db.(alerts := db.alerts + NewAlerts(db, batch, |batch|)))
  {
    var refused, at := (k: nat) => RefusedAlert(db, batch, k), WithAlerts(db, batch);
    forall k: nat | k < |batch| ensures InsertAlert(at(k), batch[k]) == if refused(k) then Failure else Success(at(k + 1)) {
      OneAlert(db, batch, k);
    }
    assert db.alerts + [] == db.alerts;
    WholeBatch(InsertAlert, db, batch, refused, at);
    if k: nat :| RefusedAlert(db, batch, k) {
      assert refused(k);
    }
  }

  /** A batch of alerts fails exactly when one with a new key has a taken id. Otherwise the
      table has grown by the alerts with new keys, as they were given and in their order. */
  lemma SavedAlerts(db: Db, batch: seq<Alert>)
    ensures All(InsertAlert, db, batch).Failure? <==> exists k: nat :: RefusedAlert(db, batch, k)
    ensures All(InsertAlert, db, batch).Success? ==>
      var after := All(InsertAlert, db, batch).value;
      && after == db.(alerts := db.alerts + NewAlerts(db, batch, |batch|))
      && forall a :: a in after.alerts <==> a in db.alerts || exists k: nat :: NewAlert(db, batch, k) && batch[k] == a
  {
    AlertsAfter(db, batch);
    if All(InsertAlert, db, batch).Success? {
      forall a ensures a in db.alerts + NewAlerts(db, batch, |batch|) <==>
                       a in db.alerts || exists k: nat :: NewAlert(db, batch, k) && batch[k] == a
      {
        NewAmongElements(KeyOfAlert, NoAlert, db.alerts, batch, |batch|, a);
      }
    }
  }

  // ---------------------------------------------------------------- drafts

  function IdOfDraft(d: Draft): string { d.id }

  /** A draft against an alert that is not stored is passed over. */
  predicate Dangling(db: Db, d: Draft) {
    d.alertId.Some? && forall r :: 0 <= r < |db.alerts| ==> db.alerts[r].id != d.alertId.value
  }

  ghost function DanglingIn(db: Db): Draft -> bool { (d: Draft) => Dangling(db, d) }

  /** Not against a missing alert, and its id is neither stored nor brought by such a draft before it. */
  ghost predicate NewDraft(db: Db, batch: seq<Draft>, k: nat) { IsNew(IdOfDraft, DanglingIn(db), db.drafts, batch, k) }

  ghost function NewDrafts(db: Db, batch: seq<Draft>, n: nat): seq<Draft>
    requires n <= |batch|
  {
    NewAmong(IdOfDraft, DanglingIn(db), db.drafts, batch, n)
  }

  /** A draft with no reference at all, or a new one to a mention that is not stored. */
  ghost predicate RefusedDraft(db: Db, batch: seq<Draft>, k: nat) {
    && k < |batch| && !Dangling(db, batch[k])
    && ((batch[k].alertId.None? && batch[k].mentionId.None?) ||
        (NewDraft(db, batch, k) && batch[k].mentionId.Some? && forall row :: row in db.mentions ==> row.id != batch[k].mentionId.value))
  }

  lemma DraftStoredSoFar(db: Db, batch: seq<Draft>, k: nat)
    requires k < |batch|
    ensures NewDraft(db, batch, k) <==>
            !Dangling(db, batch[k]) && !DraftStored(db.(drafts := db.drafts + NewDrafts(db, batch, k)), batch[k].id)
  {
    var rows := db.drafts + NewDrafts(db, batch, k);
    KeysSoFar(IdOfDraft, DanglingIn(db), db.drafts, batch, k, batch[k].id);
    NewExactlyWhen(IdOfDraft, DanglingIn(db), db.drafts, batch, k);
    if r :| 0 <= r < |rows| && rows[r].id == batch[k].id {
      assert IdOfDraft(rows[r]) == batch[k].id;
    }
  }

  lemma ReferencesSeen(db: Db, at: Db, d: Draft)
    requires at.alerts == db.alerts && at.mentions == db.mentions
    ensures Dangling(db, d) <==> d.alertId.Some? && !AlertStored(at, d.alertId.value)
    ensures d.mentionId.Some? ==> (MentionStored(at, d.mentionId.value) <==> exists row :: row in db.mentions && row.id == d.mentionId.value)
  {
    if d.mentionId.Some? && MentionStored(at, d.mentionId.value) {
      var r :| 0 <= r < |db.mentions| && db.mentions[r].id == d.mentionId.value;
      assert db.mentions[r] in db.mentions;
    }
  }

  lemma OneDraft(db: Db, batch: seq<Draft>, k: nat)
    requires k < |batch|
    ensures InsertDraft(db.(drafts := db.drafts + NewDrafts(db, batch, k)), batch[k]) ==
      if RefusedDraft(db, batch, k) then Failure else Success(db.(drafts := db.drafts + NewDrafts(db, batch, k + 1)))
  {
    DraftStoredSoFar(db, batch, k);
    var news := NewDrafts(db, batch, k);
    ReferencesSeen(db, db.(drafts := db.drafts + news), batch[k]);
    if NewDraft(db, batch, k) {
      assert db.drafts + news + [batch[k]] == db.drafts + (news + [batch[k]]);
    } else {
      assert news + [] == news;
    }
  }

  ghost function WithDrafts(db: Db, batch: seq<Draft>): nat -> Db {
    (k: nat) => if k <= |batch| then db.(drafts := db.drafts + NewDrafts(db, batch, k)) else db
  }

  lemma DraftsAfter(db: Db, batch: seq<Draft>)
    ensures All(InsertDraft, db, batch) ==
      if exists k: nat :: RefusedDraft(db, batch, k) then Failure
      else Success(db.(drafts := db.drafts + NewDrafts(db, batch, |batch|)))
  {
    var refused, at := (k: nat) => RefusedDraft(db, batch, k), WithDrafts(db, batch);
    forall k: nat | k < |batch| ensures InsertDraft(at(k), batch[k]) == if refused(k) then Failure else Success(at(k + 1)) {
      OneDraft(db, batch, k);
    }
    assert db.drafts + [] == db.drafts;
    WholeBatch(InsertDraft, db, batch, refused, at);
    if k: nat :| RefusedDraft(db, batch, k) {
      assert refused(k);
    }
  }

  /** A batch of drafts fails exactly when one of them that is not passed over has no reference
      or names a mention that is not stored. Otherwise the table has grown by the new drafts. */
  lemma SavedDrafts(db: Db, batch: seq<Draft>)
    ensures All(InsertDraft, db, batch).Failure? <==> exists k: nat :: RefusedDraft(db, batch, k)
    ensures All(InsertDraft, db, batch).Success? ==>
      var after := All(InsertDraft, db, batch).value;
      && after == db.(drafts := db.drafts + NewDrafts(db, batch, |batch|))
      && forall d :: d in after.drafts <==> d in db.drafts || exists k: nat :: NewDraft(db, batch, k) && batch[k] == d
  {
    DraftsAfter(db, batch);
    if All(InsertDraft, db, batch).Success? {
      forall d ensures d in db.drafts + NewDrafts(db, batch, |batch|) <==>
                       d in db.drafts || exists k: nat :: NewDraft(db, batch, k) && batch[k] == d
      {
        NewAmongElements(IdOfDraft, DanglingIn(db), db.drafts, batch, |batch|, d);
      }
    }
  }

  // ---------------------------------------------------------------- from a save to the window

  lemma RowsStay(db: Db, ops: seq<Operation>)
    requires Consistent(db)
    ensures Consistent(Run(db, ops))
    ensures forall m :: m in db.mentions ==> m in Run(db, ops).mentions
    ensures forall e :: e in db.enrichments ==> e in Run(db, ops).enrichments
  {
    IntegrityOverEveryRun(db, ops);
    var after := Run(db, ops);
    forall m | m in db.mentions ensures m in after.mentions {
      var k :| 0 <= k < |db.mentions| && db.mentions[k] == m;
      assert after.mentions[k] == m;
    }
    forall e | e in db.enrichments ensures e in after.enrichments {
      var k :| 0 <= k < |db.enrichments| && db.enrichments[k] == e;
      assert after.enrichments[k] == e;
    }
  }

  lemma MentionIsSaved(db: Db, batch: seq<Mention>, k: nat)
    requires Consistent(db) && NewMention(db, batch, k) && All(InsertMention, db, batch).Success?
    ensures Consistent(Apply(db, SaveMentions(batch, true))) && batch[k] in Apply(db, SaveMentions(batch, true)).mentions
  {
    SavedMentions(db, batch);
    InsertMentionSafe();
    BatchSafe(InsertMention, db, batch, true);
  }

  lemma EnrichmentIsSaved(db: Db, batch: seq<Enrichment>, k: nat)
    requires Consistent(db) && NewEnrichment(db, batch, k)
    ensures var after := Apply(db, SaveEnrichments(batch, true));
      Consistent(after) && after.mentions == db.mentions && batch[k] in after.enrichments
  {
    SavedEnrichments(db, batch);
    InsertEnrichmentSafe();
    BatchSafe(InsertEnrichment, db, batch, true);
  }

  /** A mention with new content that is saved, and enriched by a later save, is read back in
      every window of its brand that holds its time, with exactly that enrichment, whatever
      else is written in between and afterwards. */
  lemma SavedIsReadBack(db: Db, batch: seq<Mention>, k: nat, between: seq<Operation>, enrichments: seq<Enrichment>, l: nat,
                        later: seq<Operation>, start: int, end: int)
    requires Consistent(db) && All(InsertMention, db, batch).Success? && NewMention(db, batch, k)
    requires start <= batch[k].postedAt < end
    requires var written := Run(Apply(db, SaveMentions(batch, true)), between);
      NewEnrichment(written, enrichments, l) && enrichments[l].mentionId == batch[k].id
    ensures var written := Run(Apply(db, SaveMentions(batch, true)), between);
      var after := Run(Apply(written, SaveEnrichments(enrichments, true)), later);
      EnrichedMention(batch[k], enrichments[l]) in EnrichedInWindow(after, batch[k].brand, start, end)
  {
    var saved := Apply(db, SaveMentions(batch, true));
    MentionIsSaved(db, batch, k);
    RowsStay(saved, between);
    var written := Run(saved, between);
    EnrichmentIsSaved(written, enrichments, l);
    var enriched := Apply(written, SaveEnrichments(enrichments, true));
    RowsStay(enriched, later);
    WindowIsExact(Run(enriched, later), batch[k].brand, start, end);
  }
}
