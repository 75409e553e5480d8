/** The five rules over the mentions themselves: when `agents/bp-detector/rules.go` raises an
  alert for a source and hour, and what the alert carries. Groups, labels and z-scores are in
  the proofs only. */
module Alarms {
  import opened Outcomes
  import opened Models
  import opened Ordering
  import opened Lists
  import opened Positions
  import opened Roots
  import opened HourlyCounts
  import opened Stats
  import opened Baseline
  import opened Grouping
  import opened Detector

  // ---------------------------------------------------------------- the mentions of an hour

  /** Where the mentions of this source are that were posted in this hour. */
  ghost function Posted(enriched: seq<EnrichedMention>, source: string, hour: int): set<nat> {
    set k: nat | k < |enriched| && enriched[k].mention.source == source
                 && 3600 * hour <= enriched[k].mention.postedAt < 3600 * (hour + 1)
  }

  ghost function Negatives(enriched: seq<EnrichedMention>, source: string, hour: int): set<nat> {
    set k: nat | k in Posted(enriched, source, hour) && k < |enriched| && enriched[k].enrichment.sentimentLabel == Sentiment.Negative
  }

  ghost function Rated(enriched: seq<EnrichedMention>, source: string, hour: int): set<nat> {
    set k: nat | k in Posted(enriched, source, hour) && k < |enriched| && enriched[k].mention.rating.Some?
  }

  /** The sum of the hour's ratings among the first `n`. */
  ghost function Stars(enriched: seq<EnrichedMention>, source: string, hour: int, n: nat): real
    requires n <= |enriched|
  {
    if n == 0 then 0.0
    else if n - 1 in Rated(enriched, source, hour) then Stars(enriched, source, hour, n - 1) + enriched[n - 1].mention.rating.value
    else Stars(enriched, source, hour, n - 1)
  }

  ghost function OfInfluencers(enriched: seq<EnrichedMention>, source: string, hour: int): set<nat> {
    set k: nat | k in Posted(enriched, source, hour) && k < |enriched| && enriched[k].mention.followers >= 50000
  }

  ghost function OfCompetitors(enriched: seq<EnrichedMention>, source: string, hour: int): set<nat> {
    set k: nat | k in Posted(enriched, source, hour) && k < |enriched| && enriched[k].enrichment.aboutCompetitor != ""
  }

  /** What the rule looks at. */
  ghost function LookedAt(kind: Kind, enriched: seq<EnrichedMention>, source: string, hour: int): set<nat> {
    match kind
    case InfluencerMention => OfInfluencers(enriched, source, hour)
    case CompetitorMove => OfCompetitors(enriched, source, hour)
    case _ => Posted(enriched, source, hour)
  }

  /** The source has a spread, and so many are this many spreads over its mean. */
  ghost predicate Over(b: BaselineStats, source: string, count: nat, spreads: real) {
    && source in b.std && b.std[source] > 0.0
    && count as real >= (if source in b.mean then b.mean[source] else 0.0) + spreads * b.std[source]
  }

  lemma HourOfTime(time: int, hour: int)
    ensures HourAt(time, 0) == hour <==> 3600 * hour <= time < 3600 * (hour + 1)
  {
  }

  /** The group of a rule that keeps `keep`, by position. */
  lemma GroupByPosition(enriched: seq<EnrichedMention>, keep: Keep, source: string, hour: int) returns (p: Keep)
    ensures p == Belongs(keep, source, hour)
    ensures forall k: nat :: k < |enriched| ==> (p(enriched[k]) <==> keep(enriched[k]) && k in Posted(enriched, source, hour))
  {
    p := Belongs(keep, source, hour);
    forall k: nat | k < |enriched| ensures p(enriched[k]) <==> keep(enriched[k]) && k in Posted(enriched, source, hour) {
      HourOfTime(enriched[k].mention.postedAt, hour);
      assert HourOf(enriched[k]) == HourAt(enriched[k].mention.postedAt, 0);
    }
  }

  lemma PostedIsGroup(enriched: seq<EnrichedMention>, source: string, hour: int) returns (p: Keep)
    ensures p == Belongs(Everything, source, hour)
    ensures forall k: nat :: k < |enriched| ==> (p(enriched[k]) <==> k in Posted(enriched, source, hour))
  {
    p := GroupByPosition(enriched, Everything, source, hour);
    forall k: nat | k < |enriched| ensures p(enriched[k]) <==> k in Posted(enriched, source, hour) {
      assert Everything(enriched[k]);
    }
  }

  lemma VolumeIsPosted(enriched: seq<EnrichedMention>, source: string, hour: int)
    ensures |GroupAt(enriched, Everything, source, hour).mentions| == |Posted(enriched, source, hour)|
  {
    var p := PostedIsGroup(enriched, source, hour);
    FilterSize(p, enriched);
    assert Passing(p, enriched) == Posted(enriched, source, hour);
  }

  lemma NegativesAreCounted(enriched: seq<EnrichedMention>, source: string, hour: int)
    ensures CountIf(IsNegative, GroupAt(enriched, Everything, source, hour).mentions) == |Negatives(enriched, source, hour)|
  {
    var p := PostedIsGroup(enriched, source, hour);
    CountSize(p, IsNegative, enriched);
    assert Passing(Both(p, IsNegative), enriched) == Negatives(enriched, source, hour);
  }

  lemma RatedAreCounted(enriched: seq<EnrichedMention>, source: string, hour: int)
    ensures CountIf(HasRating, GroupAt(enriched, Everything, source, hour).mentions) == |Rated(enriched, source, hour)|
  {
    var p := PostedIsGroup(enriched, source, hour);
    CountSize(p, HasRating, enriched);
    assert Passing(Both(p, HasRating), enriched) == Rated(enriched, source, hour);
  }

  lemma {:induction false} StarsAreSummed(enriched: seq<EnrichedMention>, source: string, hour: int, n: nat)
    requires n <= |enriched|
    ensures SumOf(RatingOf, Filter(Belongs(Everything, source, hour), enriched[..n])) == Stars(enriched, source, hour, n)
  {
    if n > 0 {
      var last := enriched[n - 1];
      var p := PostedIsGroup(enriched, source, hour);
      StarsAreSummed(enriched, source, hour, n - 1);
      assert enriched[..n][..n - 1] == enriched[..n - 1];
      var before := Filter(p, enriched[..n - 1]);
      if p(last) {
        assert (before + [last])[..|before|] == before;
      } else {
        assert before + [] == before;
      }
    }
  }

  lemma StarsOfGroup(enriched: seq<EnrichedMention>, source: string, hour: int)
    ensures SumOf(RatingOf, GroupAt(enriched, Everything, source, hour).mentions) == Stars(enriched, source, hour, |enriched|)
  {
    StarsAreSummed(enriched, source, hour, |enriched|);
    assert enriched[..|enriched|] == enriched;
  }

  // ---------------------------------------------------------------- when an alert is raised

  lemma OverWhenSpikes(b: BaselineStats, source: string, count: nat)
    ensures Spikes(b, source, count) <==> Over(b, source, count, 3.0)
  {
  }

  /** A brand is named, the source has mentions in the hour, and they are three spreads over
      its mean. */
  lemma SpikeIsRaised(input: DetectInput, bucket: int -> string, source: string, hour: int)
    requires IsBucketing(bucket) && SpreadsAreValid(input.baseline)
    ensures HasAlert(Evaluated(input, bucket).alerts, DedupeKey(Spike, source, bucket(hour))) <==>
      && input.brand != "" && |Posted(input.enriched, source, hour)| > 0
      && Over(input.baseline, source, |Posted(input.enriched, source, hour)|, 3.0)
  {
    RaisedExactlyWhen(Spike, input, bucket, source, hour);
    SpikeRaisedExactlyWhen(input, bucket, source, hour);
    VolumeIsPosted(input.enriched, source, hour);
    OverWhenSpikes(input.baseline, source, Volume(input, source, hour));
  }

  /** And six in ten of them are negative. */
  lemma CrisisIsRaised(input: DetectInput, bucket: int -> string, source: string, hour: int)
    requires IsBucketing(bucket) && SpreadsAreValid(input.baseline)
    ensures HasAlert(Evaluated(input, bucket).alerts, DedupeKey(Crisis, source, bucket(hour))) <==>
      && input.brand != "" && |Posted(input.enriched, source, hour)| > 0
      && Over(input.baseline, source, |Posted(input.enriched, source, hour)|, 3.0)
      && 10 * |Negatives(input.enriched, source, hour)| >= 6 * |Posted(input.enriched, source, hour)|
  {
    RaisedExactlyWhen(Crisis, input, bucket, source, hour);
    CrisisRaisedExactlyWhen(input, bucket, source, hour);
    VolumeIsPosted(input.enriched, source, hour);
    NegativesAreCounted(input.enriched, source, hour);
    OverWhenSpikes(input.baseline, source, Volume(input, source, hour));
  }

  /** On a review source, five ratings that average two stars at most. */
  lemma ReviewBombIsRaised(input: DetectInput, bucket: int -> string, source: string, hour: int)
    requires IsBucketing(bucket)
    ensures HasAlert(Evaluated(input, bucket).alerts, DedupeKey(ReviewBomb, source, bucket(hour))) <==>
      && input.brand != "" && (source == "amazon" || source == "appstore" || source == "playstore")
      && |Rated(input.enriched, source, hour)| >= 5
      && Stars(input.enriched, source, hour, |input.enriched|) <= 2.0 * |Rated(input.enriched, source, hour)| as real
  {
    RaisedOnReviews(input, bucket, source, hour, GroupAt(input.enriched, Everything, source, hour).mentions);
    RatedAreCounted(input.enriched, source, hour);
    StarsOfGroup(input.enriched, source, hour);
  }

  lemma RaisedOnReviews(input: DetectInput, bucket: int -> string, source: string, hour: int, ms: seq<EnrichedMention>)
    requires IsBucketing(bucket) && ms == GroupAt(input.enriched, Everything, source, hour).mentions
    ensures HasAlert(Evaluated(input, bucket).alerts, DedupeKey(ReviewBomb, source, bucket(hour))) <==>
      && input.brand != "" && (source == "amazon" || source == "appstore" || source == "playstore")
      && CountIf(HasRating, ms) >= 5 && SumOf(RatingOf, ms) <= 2.0 * CountIf(HasRating, ms) as real
  {
    RaisedExactlyWhen(ReviewBomb, input, bucket, source, hour);
    RaisesOnReviews(input, bucket, source, hour, ms);
    ReviewSources(source);
  }

  lemma ReviewSources(source: string)
    ensures source in REVIEW_SOURCES <==> source == "amazon" || source == "appstore" || source == "playstore"
  {
  }

  lemma RaisesOnReviews(input: DetectInput, bucket: int -> string, source: string, hour: int, ms: seq<EnrichedMention>)
    requires ms == GroupAt(input.enriched, Everything, source, hour).mentions
    ensures Raises(ReviewBomb, input, bucket, source, hour) <==>
      source in REVIEW_SOURCES && CountIf(HasRating, ms) >= 5 && SumOf(RatingOf, ms) <= 2.0 * CountIf(HasRating, ms) as real
  {
    ReviewBombRaisedExactlyWhen(input, bucket, source, hour);
  }

  /** Some author has 50,000 followers. */
  lemma InfluencerIsRaised(input: DetectInput, bucket: int -> string, source: string, hour: int)
    requires IsBucketing(bucket)
    ensures HasAlert(Evaluated(input, bucket).alerts, DedupeKey(InfluencerMention, source, bucket(hour))) <==>
      input.brand != "" && exists k :: k in Posted(input.enriched, source, hour) && input.enriched[k].mention.followers >= 50000
  {
    RaisedExactlyWhen(InfluencerMention, input, bucket, source, hour);
    InfluencerRaisedExactlyWhen(input, bucket, source, hour);
    var p := PostedIsGroup(input.enriched, source, hour);
    if k :| k in Posted(input.enriched, source, hour) && input.enriched[k].mention.followers >= 50000 {
      FilterElements(p, input.enriched, input.enriched[k]);
    }
    if em :| em in Filter(p, input.enriched) && em.mention.followers >= 50000 {
      FilterElements(p, input.enriched, em);
      var k :| 0 <= k < |input.enriched| && input.enriched[k] == em;
    }
  }

  lemma CompetitorsAreCounted(enriched: seq<EnrichedMention>, source: string, hour: int)
    ensures |GroupAt(enriched, AboutACompetitor, source, hour).mentions| == |OfCompetitors(enriched, source, hour)|
  {
    var p := GroupByPosition(enriched, AboutACompetitor, source, hour);
    FilterSize(p, enriched);
    assert Passing(p, enriched) == OfCompetitors(enriched, source, hour);
  }

  /** The mentions that name a competitor are, alone, three spreads over the mean. */
  lemma CompetitorIsRaised(input: DetectInput, bucket: int -> string, source: string, hour: int)
    requires IsBucketing(bucket) && SpreadsAreValid(input.baseline)
    ensures HasAlert(Evaluated(input, bucket).alerts, DedupeKey(CompetitorMove, source, bucket(hour))) <==>
      && input.brand != "" && |OfCompetitors(input.enriched, source, hour)| > 0
      && Over(input.baseline, source, |OfCompetitors(input.enriched, source, hour)|, 3.0)
  {
    RaisedExactlyWhen(CompetitorMove, input, bucket, source, hour);
    CompetitorRaisedExactlyWhen(input, bucket, source, hour);
    CompetitorsAreCounted(input.enriched, source, hour);
    OverWhenSpikes(input.baseline, source, |OfCompetitors(input.enriched, source, hour)|);
  }

  // ---------------------------------------------------------------- which mentions it shows

  /** Mention `a` of the window comes before `b` among the samples. */
  ghost predicate Louder(enriched: seq<EnrichedMention>, a: nat, b: nat) {
    && a < |enriched| && b < |enriched|
    && (enriched[a].mention.engagement > enriched[b].mention.engagement ||
        (enriched[a].mention.engagement == enriched[b].mention.engagement && a < b))
  }

  /** The samples are the mentions at these positions: the loudest of `among`, loudest first
      and in order of arrival among equals, three of them or all if there are fewer. */
  ghost predicate ShowsLoudest(samples: seq<Mention>, enriched: seq<EnrichedMention>, among: set<nat>, picks: seq<nat>) {
    && |samples| == |picks| && |picks| == (if |among| < 3 then |among| else 3)
    && (forall i :: 0 <= i < |picks| ==> picks[i] in among && picks[i] < |enriched| && samples[i] == enriched[picks[i]].mention)
    && (forall i, j :: 0 <= i < j < |picks| ==> Louder(enriched, picks[i], picks[j]))
    && (forall i, k: nat :: 0 <= i < |picks| && k in among && k !in picks ==> Louder(enriched, picks[i], k))
  }

  lemma EngagementOrder()
    ensures StrictWeak(MoreEngaged)
  {
  }

  lemma FirstIsLouder(enriched: seq<EnrichedMention>, a: nat, b: nat)
    requires a < |enriched| && b < |enriched|
    ensures First(MoreEngaged, enriched, a, b) <==> Louder(enriched, a, b)
  {
  }

  /** The samples of what a filter keeps, by position. */
  lemma SamplesByPosition(enriched: seq<EnrichedMention>, p: EnrichedMention -> bool, among: set<nat>) returns (picks: seq<nat>)
    requires among == Passing(p, enriched)
    ensures ShowsLoudest(Samples(Filter(p, enriched)), enriched, among, picks)
  {
    EngagementOrder();
    WhereIsFilter(p, enriched);
    var ps := Where(p, enriched);
    AscendingSize(ps);
    assert among == ElementSet(ps);
    var all := SortInTurn(MoreEngaged, enriched, ps);
    SameElements(all, ps);
    var n := if |all| < 3 then |all| else 3;
    picks := all[..n];
    TopIsLoudest(enriched, among, all, picks);
    assert Samples(Filter(p, enriched)) == Map(MentionOf, ElementsAt(enriched, all)[..n]);
  }

  lemma TopIsLoudest(enriched: seq<EnrichedMention>, among: set<nat>, all: seq<nat>, picks: seq<nat>)
    requires InTurn(MoreEngaged, enriched, all) && (forall k: nat :: k in all <==> k in among)
    requires picks <= all
    ensures forall i, j :: 0 <= i < j < |picks| ==> Louder(enriched, picks[i], picks[j])
    ensures forall i, k: nat :: 0 <= i < |picks| && k in among && k !in picks ==> Louder(enriched, picks[i], k)
  {
    forall i, j | 0 <= i < j < |all| ensures Louder(enriched, all[i], all[j]) {
      FirstIsLouder(enriched, all[i], all[j]);
    }
    forall i, k: nat | 0 <= i < |picks| && k in among && k !in picks ensures Louder(enriched, picks[i], k) {
      var j :| 0 <= j < |all| && all[j] == k;
      assert j >= |picks|;
    }
  }

  lemma KeptIsLookedAt(kind: Kind, enriched: seq<EnrichedMention>, source: string, hour: int) returns (p: Keep)
    requires kind == ReviewBomb ==> source in REVIEW_SOURCES
    requires kind != InfluencerMention
    ensures LookedAt(kind, enriched, source, hour) == Passing(p, enriched)
    ensures Filter(p, enriched) == GroupAt(enriched, Kept(kind), source, hour).mentions
  {
    match kind
    case CompetitorMove => p := GroupByPosition(enriched, AboutACompetitor, source, hour);
    case ReviewBomb =>
      p := PostedIsGroup(enriched, source, hour);
      ReviewGroupIsWhole(enriched, source, hour);
    case _ => p := PostedIsGroup(enriched, source, hour);
  }

  lemma InfluencersAreLookedAt(enriched: seq<EnrichedMention>, source: string, hour: int) returns (p: Keep)
    ensures LookedAt(InfluencerMention, enriched, source, hour) == Passing(p, enriched)
    ensures Filter(p, enriched) == Filter(IsInfluencer, GroupAt(enriched, Kept(InfluencerMention), source, hour).mentions)
  {
    var q := PostedIsGroup(enriched, source, hour);
    FilterOfFilter(q, IsInfluencer, enriched);
    p := Both(q, IsInfluencer);
  }

  lemma ShownByPosition(kind: Kind, enriched: seq<EnrichedMention>, source: string, hour: int) returns (p: Keep)
    requires kind == ReviewBomb ==> source in REVIEW_SOURCES
    ensures LookedAt(kind, enriched, source, hour) == Passing(p, enriched)
    ensures Filter(p, enriched) == Shown(kind, GroupAt(enriched, Kept(kind), source, hour))
  {
    if kind == InfluencerMention {
      p := InfluencersAreLookedAt(enriched, source, hour);
    } else {
      p := KeptIsLookedAt(kind, enriched, source, hour);
    }
  }

  /** What the rule takes its samples from. */
  ghost function Shown(kind: Kind, g: Group): seq<EnrichedMention> {
    if kind == InfluencerMention then Filter(IsInfluencer, g.mentions) else g.mentions
  }

  /** Every alert carries its request's brand and time, and shows the loudest mentions that its
      rule looked at, of which there is at least one. */
  lemma AlertShowsLoudest(kind: Kind, input: DetectInput, bucket: int -> string, source: string, hour: int, a: Alert)
    returns (picks: seq<nat>)
    requires IsBucketing(bucket) && a in Evaluated(input, bucket).alerts && a.dedupeKey == DedupeKey(kind, source, bucket(hour))
    ensures a.kind == kind && a.brand == input.brand != "" && a.createdAt == input.now
    ensures |LookedAt(kind, input.enriched, source, hour)| > 0
    ensures ShowsLoudest(a.samples, input.enriched, LookedAt(kind, input.enriched, source, hour), picks)
  {
    AlertOfKey(kind, input, bucket, source, hour, a);
    var g := GroupAt(input.enriched, Kept(kind), source, hour);
    if kind == ReviewBomb && source !in REVIEW_SOURCES {
      NoReviewGroup(input.enriched, source, hour);
      assert false;
    }
    var p := ShownByPosition(kind, input.enriched, source, hour);
    FilterSize(p, input.enriched);
    picks := SamplesByPosition(input.enriched, p, LookedAt(kind, input.enriched, source, hour));
    SamplesOfAlert(kind, input, bucket, g, a);
  }

  /** Every alert is one rule's of one source and hour. */
  lemma EveryAlertHasItsHour(input: DetectInput, bucket: int -> string, a: Alert) returns (source: string, hour: int)
    requires a in Evaluated(input, bucket).alerts
    ensures a.dedupeKey == DedupeKey(a.kind, source, bucket(hour))
  {
    EvaluatedElements(input, bucket, a);
    var kind, g :| IsGroup(g, input.enriched, Kept(kind)) && Fired(kind, input, bucket, g) == Some(a);
    FiredCarries(kind, input, bucket, g);
    source, hour := g.source, g.hour;
  }

  lemma SamplesOfAlert(kind: Kind, input: DetectInput, bucket: int -> string, g: Group, a: Alert)
    requires Fired(kind, input, bucket, g) == Some(a)
    ensures a.kind == kind && a.brand == input.brand && a.createdAt == input.now
    ensures a.samples == Samples(Shown(kind, g)) && (kind == InfluencerMention ==> |Shown(kind, g)| > 0)
  {
  }

  // ---------------------------------------------------------------- what it reports

  /** The number of spreads over the mean, to one digit. */
  ghost predicate ReportsSpreads(e: Evidence, metric: string, b: BaselineStats, source: string, count: nat) {
    && e.metric == metric && e.threshold == 3.0 && source in b.std
    && var gap := count as real - (if source in b.mean then b.mean[source] else 0.0);
       -0.05 * b.std[source] <= e.value * b.std[source] - gap <= 0.05 * b.std[source]
  }

  /** `part` of `whole`, to two digits. */
  ghost predicate ReportsShare(e: Evidence, metric: string, threshold: real, part: real, whole: real) {
    e.metric == metric && e.threshold == threshold && -0.005 * whole <= e.value * whole - part <= 0.005 * whole
  }

  lemma ScaledGap(z: real, v: real, std: real, gap: real, within: real)
    requires std > 0.0 && z * std == gap && -within <= v - z <= within
    ensures -within * std <= v * std - gap <= within * std
  {
    assert v * std - gap == (v - z) * std;
    SignOfProduct(v - z + within, std);
    SignOfProduct(within - (v - z), std);
  }

  lemma SpreadsToOneDigit(b: BaselineStats, source: string, count: nat, z: real)
    requires z == HourlyZScore(b, source, count) && z >= 3.0 && SpreadsAreValid(b)
    ensures Over(b, source, count, 3.0)
    ensures ReportsSpreads(Evidence("volume_zscore", Round1(z), SPIKE_Z), "volume_zscore", b, source, count)
    ensures ReportsSpreads(Evidence("competitor_volume_zscore", Round1(z), COMPETITOR_Z), "competitor_volume_zscore", b, source, count)
  {
    var mean, std := Found(b.mean, source), Found(b.std, source);
    ZScoreReaches(count as real, mean, std, 3.0);
    RoundingIsClose(z);
    assert z * std == count as real - mean;
    ScaledGap(z, Round1(z), std, count as real - mean, 0.05);
  }

  lemma ShareToTwoDigits(part: real, n: nat, share: real)
    requires n > 0 && part >= 0.0 && share == Per(part, n)
    ensures -0.005 * n as real <= Round2(share) * n as real - part <= 0.005 * n as real
  {
    assert share * n as real == part;
    SignOfProduct(share, n as real);
    RoundingIsClose(share);
    ScaledGap(share, Round2(share), n as real, part, 0.005);
  }

  /** High from five spreads over the mean on. */
  lemma SpikeReports(input: DetectInput, bucket: int -> string, source: string, hour: int, a: Alert)
    requires IsBucketing(bucket) && SpreadsAreValid(input.baseline)
    requires a in Evaluated(input, bucket).alerts && a.dedupeKey == DedupeKey(Spike, source, bucket(hour))
    ensures var count := |Posted(input.enriched, source, hour)|;
      && a.severity == (if Over(input.baseline, source, count, 5.0) then High else Medium)
      && |a.evidence| == 1 && ReportsSpreads(a.evidence[0], "volume_zscore", input.baseline, source, count)
  {
    AlertOfKey(Spike, input, bucket, source, hour, a);
    VolumeIsPosted(input.enriched, source, hour);
    var count := Volume(input, source, hour);
    SpreadsToOneDigit(input.baseline, source, count, HourlyZScore(input.baseline, source, count));
    SpikeSeverity(input, bucket, source, hour, a);
  }

  /** Critical from eight negative mentions in ten on. */
  lemma CrisisReports(input: DetectInput, bucket: int -> string, source: string, hour: int, a: Alert)
    requires IsBucketing(bucket) && SpreadsAreValid(input.baseline)
    requires a in Evaluated(input, bucket).alerts && a.dedupeKey == DedupeKey(Crisis, source, bucket(hour))
    ensures var count, negative := |Posted(input.enriched, source, hour)|, |Negatives(input.enriched, source, hour)|;
      && a.severity == (if 10 * negative >= 8 * count then Critical else High) && |a.evidence| == 3
      && ReportsSpreads(a.evidence[0], "volume_zscore", input.baseline, source, count)
      && ReportsShare(a.evidence[1], "negative_share", 0.6, negative as real, count as real)
      && a.evidence[2] == Evidence("mention_count", count as real, if source in input.baseline.mean then input.baseline.mean[source] else 0.0)
  {
    AlertOfKey(Crisis, input, bucket, source, hour, a);
    VolumeIsPosted(input.enriched, source, hour);
    NegativesAreCounted(input.enriched, source, hour);
    CrisisNumbers(input, bucket, GroupAt(input.enriched, Everything, source, hour), a,
                  Volume(input, source, hour), NegativeVolume(input, source, hour));
    CrisisSeverity(input, bucket, source, hour, a);
  }

  lemma CrisisNumbers(input: DetectInput, bucket: int -> string, g: Group, a: Alert, count: nat, negative: nat)
    requires SpreadsAreValid(input.baseline) && CrisisAlert(input, bucket, g) == Some(a)
    requires count == |g.mentions| > 0 && negative == CountIf(IsNegative, g.mentions)
    ensures |a.evidence| == 3 && ReportsSpreads(a.evidence[0], "volume_zscore", input.baseline, g.source, count)
    ensures ReportsShare(a.evidence[1], "negative_share", 0.6, negative as real, count as real)
    ensures a.evidence[2] == Evidence("mention_count", count as real, if g.source in input.baseline.mean then input.baseline.mean[g.source] else 0.0)
  {
    var z, share := HourlyZScore(input.baseline, g.source, count), Per(negative as real, count);
    CrisisEvidence(input, bucket, g, a, z, share);
    SpreadsToOneDigit(input.baseline, g.source, count, z);
    ShareReported(negative as real, count, share);
  }

  lemma ShareReported(part: real, n: nat, share: real)
    requires n > 0 && part >= 0.0 && share == Per(part, n)
    ensures ReportsShare(Evidence("negative_share", Round2(share), 0.6), "negative_share", 0.6, part, n as real)
  {
    ShareToTwoDigits(part, n, share);
  }

  lemma CrisisEvidence(input: DetectInput, bucket: int -> string, g: Group, a: Alert, z: real, share: real)
    requires CrisisAlert(input, bucket, g) == Some(a) && |g.mentions| > 0
    requires z == HourlyZScore(input.baseline, g.source, |g.mentions|) && share == Per(CountIf(IsNegative, g.mentions) as real, |g.mentions|)
    ensures z >= 3.0 && |a.evidence| == 3 && a.evidence[0] == Evidence("volume_zscore", Round1(z), SPIKE_Z)
    ensures a.evidence[1] == Evidence("negative_share", Round2(share), 0.6)
    ensures a.evidence[2] == Evidence("mention_count", |g.mentions| as real, Found(input.baseline.mean, g.source))
  {
  }

  /** A review bomb is high and reports its ratings and what they average, unless that is negative. */
  lemma ReviewBombReports(input: DetectInput, bucket: int -> string, source: string, hour: int, a: Alert)
    requires IsBucketing(bucket)
    requires a in Evaluated(input, bucket).alerts && a.dedupeKey == DedupeKey(ReviewBomb, source, bucket(hour))
    ensures var rated, stars := |Rated(input.enriched, source, hour)|, Stars(input.enriched, source, hour, |input.enriched|);
      && a.severity == High && |a.evidence| == 2 && a.evidence[0] == Evidence("review_count", rated as real, 5.0)
      && (stars >= 0.0 ==> ReportsShare(a.evidence[1], "mean_rating", 2.0, stars, rated as real))
  {
    AlertOfKey(ReviewBomb, input, bucket, source, hour, a);
    ReviewBombIsOfGroup(input, bucket, source, hour, a);
    RatedAreCounted(input.enriched, source, hour);
    StarsOfGroup(input.enriched, source, hour);
    ReviewNumbers(a, |Rated(input.enriched, source, hour)|, Stars(input.enriched, source, hour, |input.enriched|));
  }

  lemma ReviewNumbers(a: Alert, rated: nat, stars: real)
    requires rated > 0
    requires a.evidence == [Evidence("review_count", rated as real, 5.0), Evidence("mean_rating", Round2(Per(stars, rated)), 2.0)]
    ensures stars >= 0.0 ==> ReportsShare(a.evidence[1], "mean_rating", 2.0, stars, rated as real)
  {
    if stars >= 0.0 {
      ShareToTwoDigits(stars, rated, Per(stars, rated));
    }
  }

  lemma ReviewBombIsOfGroup(input: DetectInput, bucket: int -> string, source: string, hour: int, a: Alert)
    requires IsBucketing(bucket) && |GroupAt(input.enriched, Kept(ReviewBomb), source, hour).mentions| > 0
    requires Fired(ReviewBomb, input, bucket, GroupAt(input.enriched, Kept(ReviewBomb), source, hour)) == Some(a)
    ensures var ms := GroupAt(input.enriched, Everything, source, hour).mentions;
      && CountIf(HasRating, ms) > 0 && a.severity == High
      && a.evidence == [Evidence("review_count", CountIf(HasRating, ms) as real, 5.0),
                        Evidence("mean_rating", Round2(Per(SumOf(RatingOf, ms), CountIf(HasRating, ms))), 2.0)]
  {
    if source in REVIEW_SOURCES {
      ReviewGroupIsWhole(input.enriched, source, hour);
    } else {
      NoReviewGroup(input.enriched, source, hour);
      assert false;
    }
  }

  /** High exactly when an influencer is negative, and the highest follower count. */
  lemma InfluencerReports(input: DetectInput, bucket: int -> string, source: string, hour: int, a: Alert) returns (top: nat)
    requires IsBucketing(bucket)
    requires a in Evaluated(input, bucket).alerts && a.dedupeKey == DedupeKey(InfluencerMention, source, bucket(hour))
    ensures top in Posted(input.enriched, source, hour) && top < |input.enriched|
    ensures forall k :: k in Posted(input.enriched, source, hour) ==>
      input.enriched[k].mention.followers <= input.enriched[top].mention.followers
    ensures a.evidence == [Evidence("author_followers", input.enriched[top].mention.followers as real, 50000.0)]
    ensures a.severity == if |OfInfluencers(input.enriched, source, hour) * Negatives(input.enriched, source, hour)| > 0 then High else Medium
  {
    var p, ms := PostedInGroup(input.enriched, source, hour);
    InfluencerOfAlert(input, bucket, source, hour, a, ms);
    top := HighestPosition(input.enriched, source, hour, p, ms, a.evidence[0].value);
    InfluencerSeverity(input.enriched, source, hour, p);
  }

  lemma InfluencerOfAlert(input: DetectInput, bucket: int -> string, source: string, hour: int, a: Alert, ms: seq<EnrichedMention>)
    requires IsBucketing(bucket) && ms == GroupAt(input.enriched, Everything, source, hour).mentions
    requires a in Evaluated(input, bucket).alerts && a.dedupeKey == DedupeKey(InfluencerMention, source, bucket(hour))
    ensures |a.evidence| == 1 && a.evidence[0].metric == "author_followers" && a.evidence[0].threshold == 50000.0
    ensures (forall em :: em in ms ==> em.mention.followers as real <= a.evidence[0].value)
    ensures exists em :: em in ms && em.mention.followers as real == a.evidence[0].value
    ensures a.severity == if exists em :: em in ms && IsInfluencer(em) && IsNegative(em) then High else Medium
  {
    AlertOfKey(InfluencerMention, input, bucket, source, hour, a);
    InfluencerReportsPeak(input, bucket, source, hour, a);
    InfluencerEvidence(input, bucket, GroupAt(input.enriched, Everything, source, hour), a);
  }

  lemma InfluencerEvidence(input: DetectInput, bucket: int -> string, g: Group, a: Alert)
    requires InfluencerAlert(input, bucket, g) == Some(a)
    ensures |a.evidence| == 1 && a.evidence[0].metric == "author_followers" && a.evidence[0].threshold == 50000.0
    ensures a.severity == High || a.severity == Medium
  {
  }

  lemma HighestPosition(enriched: seq<EnrichedMention>, source: string, hour: int, p: Keep, ms: seq<EnrichedMention>, peak: real)
    returns (top: nat)
    requires ms == Filter(p, enriched) && forall k: nat :: k < |enriched| ==> (p(enriched[k]) <==> k in Posted(enriched, source, hour))
    requires forall em :: em in ms ==> em.mention.followers as real <= peak
    requires exists em :: em in ms && em.mention.followers as real == peak
    ensures top in Posted(enriched, source, hour) && top < |enriched| && enriched[top].mention.followers as real == peak
    ensures forall k :: k in Posted(enriched, source, hour) ==> enriched[k].mention.followers <= enriched[top].mention.followers
  {
    var em :| em in ms && em.mention.followers as real == peak;
    top := PositionOf(enriched, p, em);
    forall k | k in Posted(enriched, source, hour) ensures enriched[k].mention.followers <= enriched[top].mention.followers {
      FilterElements(p, enriched, enriched[k]);
      assert enriched[k] in ms;
    }
  }

  lemma PostedInGroup(enriched: seq<EnrichedMention>, source: string, hour: int) returns (p: Keep, ms: seq<EnrichedMention>)
    ensures ms == GroupAt(enriched, Everything, source, hour).mentions == Filter(p, enriched)
    ensures forall k: nat :: k < |enriched| ==> (p(enriched[k]) <==> k in Posted(enriched, source, hour))
  {
    p := PostedIsGroup(enriched, source, hour);
    ms := Filter(p, enriched);
  }

  lemma PositionOf(enriched: seq<EnrichedMention>, p: Keep, em: EnrichedMention) returns (k: nat)
    requires em in Filter(p, enriched)
    ensures k < |enriched| && enriched[k] == em && p(em)
  {
    FilterElements(p, enriched, em);
    k :| 0 <= k < |enriched| && enriched[k] == em;
  }

  lemma InfluencerSeverity(enriched: seq<EnrichedMention>, source: string, hour: int, p: Keep)
    requires forall k: nat :: k < |enriched| ==> (p(enriched[k]) <==> k in Posted(enriched, source, hour))
    ensures (exists em :: em in Filter(p, enriched) && IsInfluencer(em) && IsNegative(em)) <==>
            |OfInfluencers(enriched, source, hour) * Negatives(enriched, source, hour)| > 0
  {
    var both := OfInfluencers(enriched, source, hour) * Negatives(enriched, source, hour);
    if em :| em in Filter(p, enriched) && IsInfluencer(em) && IsNegative(em) {
      var k := PositionOf(enriched, p, em);
      assert k in both;
    }
    if |both| > 0 {
      var k :| k in both;
      FilterElements(p, enriched, enriched[k]);
      assert IsInfluencer(enriched[k]) && IsNegative(enriched[k]);
    }
  }

  /** A competitor's move is low. */
  lemma CompetitorReports(input: DetectInput, bucket: int -> string, source: string, hour: int, a: Alert)
    requires IsBucketing(bucket) && SpreadsAreValid(input.baseline)
    requires a in Evaluated(input, bucket).alerts && a.dedupeKey == DedupeKey(CompetitorMove, source, bucket(hour))
    ensures var count := |OfCompetitors(input.enriched, source, hour)|;
      a.severity == Low && |a.evidence| == 1 && ReportsSpreads(a.evidence[0], "competitor_volume_zscore", input.baseline, source, count)
  {
    AlertOfKey(CompetitorMove, input, bucket, source, hour, a);
    CompetitorsAreCounted(input.enriched, source, hour);
    var count := |OfCompetitors(input.enriched, source, hour)|;
    SpreadsToOneDigit(input.baseline, source, count, HourlyZScore(input.baseline, source, count));
  }
}
