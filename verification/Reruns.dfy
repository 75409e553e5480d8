/** A run after a run: what the later one reads back from the tables
  (`agents/bp-orchestrator/store.go`), and what the detector then says again. */
module Reruns {
  import opened Models
  import opened Ordering
  import opened Lists
  import opened HourlyCounts
  import opened Baseline
  import opened Grouping
  import opened Detector
  import Store

  /** The detector's input in a run of this window. */
  function InputOf(db: Store.Db, brand: string, start: int, end: int, baseline: BaselineStats): DetectInput {
    DetectInput(brand, Store.EnrichedInWindow(db, brand, start, end), baseline, end)
  }

  /** A run's hour group holds each classified mention of the source and hour once. */
  lemma HourGroupIsExact(db: Store.Db, brand: string, start: int, end: int, baseline: BaselineStats, source: string, hour: int)
    requires Store.Consistent(db)
    ensures Distinct(HourGroup(InputOf(db, brand, start, end, baseline), source, hour))
    ensures forall em :: em in HourGroup(InputOf(db, brand, start, end, baseline), source, hour) <==>
      Store.Classified(db, db.mentions, brand, start, end, em) && Belongs(Everything, source, hour)(em)
  {
    var enriched := Store.EnrichedInWindow(db, brand, start, end);
    Store.WindowIsExact(db, brand, start, end);
    FilterDistinct(Belongs(Everything, source, hour), enriched);
    forall em ensures em in HourGroup(InputOf(db, brand, start, end, baseline), source, hour) <==>
      Store.Classified(db, db.mentions, brand, start, end, em) && Belongs(Everything, source, hour)(em)
    {
      FilterElements(Belongs(Everything, source, hour), enriched, em);
    }
  }

  lemma ClassifiedPersists(a: Store.Db, b: Store.Db, brand: string, start: int, end: int, later: int, until: int, em: EnrichedMention)
    requires Store.Grows(a, b) && Store.Classified(a, a.mentions, brand, start, end, em)
    requires later <= em.mention.postedAt && end <= until
    ensures Store.Classified(b, b.mentions, brand, later, until, em)
  {
    var k :| 0 <= k < |a.mentions| && a.mentions[k] == em.mention;
    assert b.mentions[k] == em.mention;
    var l :| 0 <= l < |a.enrichments| && a.enrichments[l] == em.enrichment;
    assert b.enrichments[l] == em.enrichment;
  }

  /** The mentions of a group are no older than this. */
  ghost predicate NoneOlder(ms: seq<EnrichedMention>, time: int) {
    forall k :: 0 <= k < |ms| ==> ms[k].mention.postedAt >= time
  }

  lemma GroupsPersist(was: seq<EnrichedMention>, now: seq<EnrichedMention>)
    requires Distinct(was) && Distinct(now)
    ensures (forall em :: em in was ==> em in now) <==> multiset(was) <= multiset(now)
  {
    if forall em :: em in was ==> em in now {
      DistinctAmong(was, now);
    }
    if multiset(was) <= multiset(now) {
      forall em | em in was ensures em in now {
        assert em in multiset(was);
        assert em in multiset(now);
      }
    }
  }

  /** Whatever was written between two runs, the later one still reads all mentions of an hour
      exactly when none of them has left the window. */
  lemma StillThereExactlyWhen(db: Store.Db, writes: seq<Store.Operation>, brand: string, start: int, end: int, later: int, until: int,
                              b1: BaselineStats, b2: BaselineStats, source: string, hour: int)
    requires Store.Consistent(db) && end <= until
    ensures var before, after := InputOf(db, brand, start, end, b1), InputOf(Store.Run(db, writes), brand, later, until, b2);
      StillThere(before, after, source, hour) <==> NoneOlder(HourGroup(before, source, hour), later)
  {
    var grown := Store.Run(db, writes);
    var before, after := InputOf(db, brand, start, end, b1), InputOf(grown, brand, later, until, b2);
    var was, now := HourGroup(before, source, hour), HourGroup(after, source, hour);
    Store.IntegrityOverEveryRun(db, writes);
    HourGroupIsExact(db, brand, start, end, b1, source, hour);
    HourGroupIsExact(grown, brand, later, until, b2, source, hour);
    GroupsPersist(was, now);
    forall em | em in was ensures em in now <==> em.mention.postedAt >= later {
      if em.mention.postedAt >= later {
        ClassifiedPersists(db, grown, brand, start, end, later, until, em);
      }
    }
    AllOrNoneOlder(was, now, later);
  }

  lemma AllOrNoneOlder(was: seq<EnrichedMention>, now: seq<EnrichedMention>, time: int)
    requires forall em :: em in was ==> (em in now <==> em.mention.postedAt >= time)
    ensures (forall em :: em in was ==> em in now) <==> NoneOlder(was, time)
  {
    if forall em :: em in was ==> em in now {
      forall k | 0 <= k < |was| ensures was[k].mention.postedAt >= time {
        assert was[k] in was;
      }
    }
  }

  /** Two runs within one hour of the clock, the later one after `writes` that brought no mention
      of the brand from before that hour, each with the baseline computed from its own tables. */
  ghost predicate RunsAgain(db: Store.Db, writes: seq<Store.Operation>, before: DetectInput, after: DetectInput,
                            start: int, later: int, labels: Labels, more: Labels, days: int) {
    && Store.Consistent(db) && before.now <= after.now && Truncated(after.now) == Truncated(before.now)
    && before == InputOf(db, before.brand, start, before.now, before.baseline)
    && after == InputOf(Store.Run(db, writes), before.brand, later, after.now, after.baseline)
    && IsBaseline(before.baseline, db.mentions, labels, before.brand, days, before.now)
    && IsBaseline(after.baseline, Store.Run(db, writes).mentions, more, after.brand, days, after.now)
    && |db.mentions| <= |Store.Run(db, writes).mentions|
    && NoneBefore(Store.Run(db, writes).mentions[|db.mentions|..], before.brand, Truncated(before.now))
  }

  lemma AppendedRows(db: Store.Db, writes: seq<Store.Operation>)
    requires Store.Consistent(db)
    ensures |db.mentions| <= |Store.Run(db, writes).mentions|
    ensures db.mentions + Store.Run(db, writes).mentions[|db.mentions|..] == Store.Run(db, writes).mentions
  {
    Store.IntegrityOverEveryRun(db, writes);
  }

  /** From the tables to the alert: whatever is stored between two runs of the same hour, the
      later run raises every spike again that the earlier one raised and whose mentions are all
      in its window, and its crises last exactly while six in ten of the hour are negative. */
  lemma RerunRaisesAgain(db: Store.Db, writes: seq<Store.Operation>, before: DetectInput, after: DetectInput, start: int, later: int,
                         labels: Labels, more: Labels, days: int, bucket: int -> string, source: string, hour: int)
    requires IsBucketing(bucket) && RunsAgain(db, writes, before, after, start, later, labels, more, days)
    requires NoneOlder(HourGroup(before, source, hour), later)
    ensures HasAlert(Evaluated(before, bucket).alerts, DedupeKey(Spike, source, bucket(hour))) ==>
      HasAlert(Evaluated(after, bucket).alerts, DedupeKey(Spike, source, bucket(hour)))
    ensures HasAlert(Evaluated(before, bucket).alerts, DedupeKey(Crisis, source, bucket(hour))) ==>
      CrisisLasts(before, after, bucket, source, hour)
  {
    var arrived := Store.Run(db, writes).mentions[|db.mentions|..];
    AppendedRows(db, writes);
    StillThereExactlyWhen(db, writes, before.brand, start, before.now, later, after.now, before.baseline, after.baseline, source, hour);
    if HasAlert(Evaluated(before, bucket).alerts, DedupeKey(Spike, source, bucket(hour))) {
      SpikeIsNotSuppressed(before, after, db.mentions, labels, arrived, more, days, bucket, source, hour);
    }
    if HasAlert(Evaluated(before, bucket).alerts, DedupeKey(Crisis, source, bucket(hour))) {
      CrisisIsNotSuppressed(before, after, db.mentions, labels, arrived, more, days, bucket, source, hour);
    }
  }
}
