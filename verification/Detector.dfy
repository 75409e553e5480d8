/** The five alert rules over one window of enriched mentions: `agents/bp-detector/rules.go`.

  Titles, explanations and evidence details are text about the same numbers and are left out,
  as are the generated alert ids, which are never empty. */
module Detector {
  import opened Outcomes
  import opened Models
  import opened Ordering
  import opened Lists
  import opened Roots
  import opened HourlyCounts
  import opened Stats
  import opened Baseline
  import opened Grouping
  import Stability

  const SPIKE_Z := 3.0
  const SPIKE_HIGH_Z := 5.0
  const CRISIS_Z := 3.0
  const CRISIS_NEGATIVE_SHARE := 0.6
  const CRISIS_CRITICAL_SHARE := 0.8
  const REVIEW_BOMB_MIN_REVIEWS := 5
  const REVIEW_BOMB_MAX_MEAN_RATING := 2.0
  const INFLUENCER_FOLLOWERS := 50000
  const COMPETITOR_Z := 3.0
  const MAX_SAMPLES := 3
  const REVIEW_SOURCES: set<string> := {"amazon", "appstore", "playstore"}

  datatype Kind = Spike | Crisis | ReviewBomb | InfluencerMention | CompetitorMove
  datatype Severity = Low | Medium | High | Critical
  datatype Evidence = Evidence(metric: string, value: real, threshold: real)
  datatype Alert = Alert(brand: string, kind: Kind, severity: Severity, dedupeKey: string,
                         evidence: seq<Evidence>, samples: seq<Mention>, createdAt: int)
  datatype DetectInput = DetectInput(brand: string, enriched: seq<EnrichedMention>, baseline: BaselineStats, now: int)
  datatype AlertSet = AlertSet(alerts: seq<Alert>, rulesEvaluated: nat, errors: nat)

  const RULES: seq<Kind> := [Spike, Crisis, ReviewBomb, InfluencerMention, CompetitorMove]

  function KindName(kind: Kind): string {
    match kind
    case Spike => "spike"
    case Crisis => "crisis"
    case ReviewBomb => "review_bomb"
    case InfluencerMention => "influencer_mention"
    case CompetitorMove => "competitor_move"
  }

  function DedupeKey(kind: Kind, source: string, bucket: string): string {
    KindName(kind) + [':'] + source + [':'] + bucket
  }

  /** Dedupe keys of different rules, sources or hours differ. */
  lemma DedupeKeyInjective(k1: Kind, s1: string, h1: int, k2: Kind, s2: string, h2: int, bucket: int -> string)
    requires IsBucketing(bucket) && DedupeKey(k1, s1, bucket(h1)) == DedupeKey(k2, s2, bucket(h2))
    ensures k1 == k2 && s1 == s2 && h1 == h2
  {
    var l1, l2 := KindName(k1) + [':'] + s1, KindName(k2) + [':'] + s2;
    JoinedKeysInjective(l1, bucket(h1), l2, bucket(h2), ':');
    LeftKeysInjective(KindName(k1), s1, KindName(k2), s2, ':');
    assert |KindName(k1)| == |KindName(k2)|;
  }

  // ---------------------------------------------------------------- rounding

  /** Go's conversion to int, which cuts towards zero. */
  function Cut(x: real): (n: int)
    ensures x >= 0.0 ==> n as real <= x < n as real + 1.0
    ensures x <= 0.0 ==> n as real - 1.0 < x <= n as real
  {
    if x >= 0.0 then x.Floor else -(-x).Floor
  }

  function Round1(v: real): real { Cut(v * 10.0 + 0.5) as real / 10.0 }

  function Round2(v: real): real { Cut(v * 100.0 + 0.5) as real / 100.0 }

  lemma CutKeepsOrder(x: real, y: real)
    requires x <= y
    ensures Cut(x) <= Cut(y)
  {
  }

  /** A rounded number is on the same side of a one-digit threshold that the number was. */
  lemma Round1KeepsThreshold(v: real, tenths: nat)
    requires v >= tenths as real / 10.0
    ensures Round1(v) >= tenths as real / 10.0
  {
    CutKeepsOrder(tenths as real + 0.5, v * 10.0 + 0.5);
    assert Cut(tenths as real + 0.5) == tenths;
  }

  lemma Round2KeepsThreshold(v: real, hundredths: nat)
    ensures v >= hundredths as real / 100.0 ==> Round2(v) >= hundredths as real / 100.0
    ensures v <= hundredths as real / 100.0 ==> Round2(v) <= hundredths as real / 100.0
  {
    assert Cut(hundredths as real + 0.5) == hundredths;
    if v >= hundredths as real / 100.0 {
      CutKeepsOrder(hundredths as real + 0.5, v * 100.0 + 0.5);
    }
    if v <= hundredths as real / 100.0 {
      CutKeepsOrder(v * 100.0 + 0.5, hundredths as real + 0.5);
    }
  }

  /** A rounded number that is not negative is off by at most half of its last digit. */
  lemma RoundingIsClose(v: real)
    requires v >= 0.0
    ensures -0.05 <= Round1(v) - v <= 0.05
    ensures -0.005 <= Round2(v) - v <= 0.005
  {
  }

  // ---------------------------------------------------------------- numbers about a group

  function Found(m: map<string, real>, source: string): real { if source in m then m[source] else 0.0 }

  function HourlyZScore(b: BaselineStats, source: string, count: nat): real {
    ZScore(count as real, Found(b.mean, source), Found(b.std, source))
  }

  predicate IsNegative(em: EnrichedMention) { em.enrichment.sentimentLabel == Sentiment.Negative }

  function NegativeShare(ms: seq<EnrichedMention>): real {
    if |ms| == 0 then 0.0 else Per(CountIf(IsNegative, ms) as real, |ms|)
  }

  predicate HasRating(em: EnrichedMention) { em.mention.rating.Some? }

  function RatingOf(em: EnrichedMention): real { if em.mention.rating.Some? then em.mention.rating.value else 0.0 }

  function MeanRatingOf(ms: seq<EnrichedMention>): real {
    if CountIf(HasRating, ms) == 0 then 0.0 else Per(SumOf(RatingOf, ms), CountIf(HasRating, ms))
  }

  predicate IsInfluencer(em: EnrichedMention) { em.mention.followers >= INFLUENCER_FOLLOWERS }

  function Peak(ms: seq<EnrichedMention>): int {
    if |ms| == 0 then 0 else
      var p, last := Peak(ms[..|ms| - 1]), ms[|ms| - 1].mention.followers;
      if last > p then last else p
  }

  predicate MoreEngaged(a: EnrichedMention, b: EnrichedMention) { a.mention.engagement > b.mention.engagement }

  function MentionOf(em: EnrichedMention): Mention { em.mention }

  /** The most engaged mentions, capped; among equals the one that came first. */
  function Samples(ms: seq<EnrichedMention>): seq<Mention> {
    var ranked := Sort(MoreEngaged, ms);
    Map(MentionOf, if |ranked| > MAX_SAMPLES then ranked[..MAX_SAMPLES] else ranked)
  }

  method CountNegative(ms: seq<EnrichedMention>) returns (n: nat)
    ensures n == CountIf(IsNegative, ms)
  {
    n := 0;
    for k := 0 to |ms|
      invariant n == CountIf(IsNegative, ms[..k])
    {
      assert ms[..k + 1][..k] == ms[..k];
      if IsNegative(ms[k]) {
        n := n + 1;
      }
    }
    assert ms[..|ms|] == ms;
  }

  method RatedMean(ms: seq<EnrichedMention>) returns (n: nat, mean: real)
    ensures n == CountIf(HasRating, ms) && mean == MeanRatingOf(ms)
  {
    var sum := 0.0;
    n := 0;
    for k := 0 to |ms|
      invariant n == CountIf(HasRating, ms[..k]) && sum == SumOf(RatingOf, ms[..k])
    {
      assert ms[..k + 1][..k] == ms[..k];
      match ms[k].mention.rating
      case None =>
      case Some(rating) =>
        sum := sum + rating;
        n := n + 1;
    }
    assert ms[..|ms|] == ms;
    mean := if n == 0 then 0.0 else Per(sum, n);
  }

  method PeakAndNegative(ms: seq<EnrichedMention>) returns (peak: int, negative: nat)
    ensures peak == Peak(ms) && negative == CountIf(IsNegative, ms)
  {
    peak, negative := 0, 0;
    for k := 0 to |ms|
      invariant peak == Peak(ms[..k]) && negative == CountIf(IsNegative, ms[..k])
    {
      assert ms[..k + 1][..k] == ms[..k];
      if ms[k].mention.followers > peak {
        peak := ms[k].mention.followers;
      }
      if IsNegative(ms[k]) {
        negative := negative + 1;
      }
    }
    assert ms[..|ms|] == ms;
  }

  // ---------------------------------------------------------------- the rules

  predicate Everything(em: EnrichedMention) { true }

  predicate OnReviewSource(em: EnrichedMention) { em.mention.source in REVIEW_SOURCES }

  predicate AboutACompetitor(em: EnrichedMention) { em.enrichment.aboutCompetitor != "" }

  function Kept(kind: Kind): Keep {
    match kind
    case ReviewBomb => OnReviewSource
    case CompetitorMove => AboutACompetitor
    case _ => Everything
  }

  function NewAlert(input: DetectInput, kind: Kind, severity: Severity, bucket: int -> string, g: Group, evidence: seq<Evidence>): Alert {
    Alert(input.brand, kind, severity, DedupeKey(kind, g.source, bucket(g.hour)), evidence, Samples(g.mentions), input.now)
  }

  function SpikeAlert(input: DetectInput, bucket: int -> string, g: Group): Option<Alert> {
    var z := HourlyZScore(input.baseline, g.source, |g.mentions|);
    if z < SPIKE_Z then None
    else
      var severity := if z >= SPIKE_HIGH_Z then High else Medium;
      Some(NewAlert(input, Spike, severity, bucket, g, [Evidence("volume_zscore", Round1(z), SPIKE_Z)]))
  }

  function CrisisAlert(input: DetectInput, bucket: int -> string, g: Group): Option<Alert> {
    var z, share := HourlyZScore(input.baseline, g.source, |g.mentions|), NegativeShare(g.mentions);
    if z < CRISIS_Z || share < CRISIS_NEGATIVE_SHARE then None
    else
      var severity := if share >= CRISIS_CRITICAL_SHARE then Critical else High;
      Some(NewAlert(input, Crisis, severity, bucket, g,
                    [Evidence("volume_zscore", Round1(z), CRISIS_Z),
                     Evidence("negative_share", Round2(share), CRISIS_NEGATIVE_SHARE),
                     Evidence("mention_count", |g.mentions| as real, Found(input.baseline.mean, g.source))]))
  }

  function ReviewBombAlert(input: DetectInput, bucket: int -> string, g: Group): Option<Alert> {
    var rated, mean := CountIf(HasRating, g.mentions), MeanRatingOf(g.mentions);
    if rated < REVIEW_BOMB_MIN_REVIEWS || mean > REVIEW_BOMB_MAX_MEAN_RATING then None
    else
      Some(NewAlert(input, ReviewBomb, High, bucket, g,
                    [Evidence("review_count", rated as real, REVIEW_BOMB_MIN_REVIEWS as real),
                     Evidence("mean_rating", Round2(mean), REVIEW_BOMB_MAX_MEAN_RATING)]))
  }

  function InfluencerAlert(input: DetectInput, bucket: int -> string, g: Group): Option<Alert> {
    var influencers := Filter(IsInfluencer, g.mentions);
    if |influencers| == 0 then None
    else
      var severity := if CountIf(IsNegative, influencers) > 0 then High else Medium;
      Some(NewAlert(input, InfluencerMention, severity, bucket, g.(mentions := influencers),
                    [Evidence("author_followers", Peak(influencers) as real, INFLUENCER_FOLLOWERS as real)]))
  }

  function CompetitorAlert(input: DetectInput, bucket: int -> string, g: Group): Option<Alert> {
    var z := HourlyZScore(input.baseline, g.source, |g.mentions|);
    if z < COMPETITOR_Z then None
    else Some(NewAlert(input, CompetitorMove, Low, bucket, g, [Evidence("competitor_volume_zscore", Round1(z), COMPETITOR_Z)]))
  }

  function Fired(kind: Kind, input: DetectInput, bucket: int -> string, g: Group): Option<Alert> {
    match kind
    case Spike => SpikeAlert(input, bucket, g)
    case Crisis => CrisisAlert(input, bucket, g)
    case ReviewBomb => ReviewBombAlert(input, bucket, g)
    case InfluencerMention => InfluencerAlert(input, bucket, g)
    case CompetitorMove => CompetitorAlert(input, bucket, g)
  }

  function Firing(kind: Kind, input: DetectInput, bucket: int -> string): Group -> Option<Alert> {
    (g: Group) => Fired(kind, input, bucket, g)
  }

  function AlertsOf(kind: Kind, input: DetectInput, bucket: int -> string, gs: seq<Group>): seq<Alert> {
    FilterMap(Firing(kind, input, bucket), gs)
  }

  function RuleAlerts(kind: Kind, input: DetectInput, bucket: int -> string): seq<Alert> {
    AlertsOf(kind, input, bucket, Groups(input.enriched, Kept(kind), bucket))
  }

  /** Those of the first `n` rules. */
  function AllAlerts(input: DetectInput, bucket: int -> string, n: nat): seq<Alert> {
    Concat(Ruling(input, bucket), n)
  }

  function Ruling(input: DetectInput, bucket: int -> string): nat -> seq<Alert> {
    (r: nat) => if r < |RULES| then RuleAlerts(RULES[r], input, bucket) else []
  }

  predicate ValidAlert(a: Alert) { a.brand != "" && a.dedupeKey != "" && |a.evidence| > 0 }

  predicate InvalidAlert(a: Alert) { !ValidAlert(a) }

  function Evaluated(input: DetectInput, bucket: int -> string): AlertSet {
    var all := AllAlerts(input, bucket, |RULES|);
    AlertSet(Filter(ValidAlert, all), |RULES|, CountIf(InvalidAlert, all))
  }

  method Fire(kind: Kind, input: DetectInput, bucket: int -> string, g: Group) returns (alert: Option<Alert>)
    ensures alert == Fired(kind, input, bucket, g)
  {
    match kind
    case Spike => alert := SpikeAlert(input, bucket, g);
    case CompetitorMove => alert := CompetitorAlert(input, bucket, g);
    case Crisis => alert := FireCrisis(input, bucket, g);
    case ReviewBomb => alert := FireReviewBomb(input, bucket, g);
    case InfluencerMention => alert := FireInfluencer(input, bucket, g);
  }

  method FireCrisis(input: DetectInput, bucket: int -> string, g: Group) returns (alert: Option<Alert>)
    ensures alert == CrisisAlert(input, bucket, g)
  {
    var z := HourlyZScore(input.baseline, g.source, |g.mentions|);
    var negative := CountNegative(g.mentions);
    var share := if |g.mentions| == 0 then 0.0 else Per(negative as real, |g.mentions|);
    if z < CRISIS_Z || share < CRISIS_NEGATIVE_SHARE {
      return None;
    }
    var severity := if share >= CRISIS_CRITICAL_SHARE then Critical else High;
    alert := Some(NewAlert(input, Crisis, severity, bucket, g,
                           [Evidence("volume_zscore", Round1(z), CRISIS_Z),
                            Evidence("negative_share", Round2(share), CRISIS_NEGATIVE_SHARE),
                            Evidence("mention_count", |g.mentions| as real, Found(input.baseline.mean, g.source))]));
  }

  method FireReviewBomb(input: DetectInput, bucket: int -> string, g: Group) returns (alert: Option<Alert>)
    ensures alert == ReviewBombAlert(input, bucket, g)
  {
    var rated, mean := RatedMean(g.mentions);
    if rated < REVIEW_BOMB_MIN_REVIEWS || mean > REVIEW_BOMB_MAX_MEAN_RATING {
      return None;
    }
    alert := Some(NewAlert(input, ReviewBomb, High, bucket, g,
                           [Evidence("review_count", rated as real, REVIEW_BOMB_MIN_REVIEWS as real),
                            Evidence("mean_rating", Round2(mean), REVIEW_BOMB_MAX_MEAN_RATING)]));
  }

  method FireInfluencer(input: DetectInput, bucket: int -> string, g: Group) returns (alert: Option<Alert>)
    ensures alert == InfluencerAlert(input, bucket, g)
  {
    var influencers := Filter(IsInfluencer, g.mentions);
    if |influencers| == 0 {
      return None;
    }
    var peak, negative := PeakAndNegative(influencers);
    var severity := if negative > 0 then High else Medium;
    alert := Some(NewAlert(input, InfluencerMention, severity, bucket, g.(mentions := influencers),
                           [Evidence("author_followers", peak as real, INFLUENCER_FOLLOWERS as real)]));
  }

  /** The loop that every rule has: group, then fire group by group. */
  method RunRule(kind: Kind, input: DetectInput, bucket: int -> string) returns (alerts: seq<Alert>)
    requires IsBucketing(bucket)
    ensures alerts == RuleAlerts(kind, input, bucket)
  {
    var gs := GroupBySourceHour(input.enriched, Kept(kind), bucket);
    alerts := [];
    for k := 0 to |gs|
      invariant alerts == AlertsOf(kind, input, bucket, gs[..k])
    {
      assert gs[..k + 1][..k] == gs[..k];
      var alert := Fire(kind, input, bucket, gs[k]);
      match alert
      case None =>
      case Some(a) => alerts := alerts + [a];
    }
    assert gs[..|gs|] == gs;
  }

  lemma NextRule(input: DetectInput, bucket: int -> string, r: nat)
    requires r < |RULES|
    ensures AllAlerts(input, bucket, r + 1) == AllAlerts(input, bucket, r) + RuleAlerts(RULES[r], input, bucket)
  {
  }

  method Evaluate(input: DetectInput, bucket: int -> string) returns (out: AlertSet)
    requires IsBucketing(bucket)
    ensures out == Evaluated(input, bucket)
  {
    var kept, errors: nat := [], 0;
    ghost var all := [];
    for r := 0 to |RULES|
      invariant all == AllAlerts(input, bucket, r)
      invariant Sifted(all, kept, errors)
    {
      NextRule(input, bucket, r);
      var alerts := RunRule(RULES[r], input, bucket);
      var valid, invalid := Validated(alerts);
      SiftedMore(all, kept, errors, alerts, valid, invalid);
      kept, errors, all := kept + valid, errors + invalid, all + alerts;
    }
    out := AlertSet(kept, |RULES|, errors);
  }

  /** `valid` are the valid ones of `alerts`, and `errors` counts the others. */
  ghost predicate Sifted(alerts: seq<Alert>, valid: seq<Alert>, errors: nat) {
    valid == Filter(ValidAlert, alerts) && errors == CountIf(InvalidAlert, alerts)
  }

  lemma SiftedMore(all: seq<Alert>, kept: seq<Alert>, errors: nat, alerts: seq<Alert>, valid: seq<Alert>, invalid: nat)
    requires Sifted(all, kept, errors) && Sifted(alerts, valid, invalid)
    ensures Sifted(all + alerts, kept + valid, errors + invalid)
  {
    FilterAppend(ValidAlert, all, alerts);
    CountIfAppend(InvalidAlert, all, alerts);
  }

  method Validated(alerts: seq<Alert>) returns (valid: seq<Alert>, errors: nat)
    ensures Sifted(alerts, valid, errors)
  {
    valid, errors := [], 0;
    for k := 0 to |alerts|
      invariant valid == Filter(ValidAlert, alerts[..k]) && errors == CountIf(InvalidAlert, alerts[..k])
    {
      assert alerts[..k + 1][..k] == alerts[..k];
      if ValidAlert(alerts[k]) {
        valid := valid + [alerts[k]];
      } else {
        errors := errors + 1;
      }
    }
    assert alerts[..|alerts|] == alerts;
  }

  // ---------------------------------------------------------------- which alerts are raised

  lemma AlertsOfElements(kind: Kind, input: DetectInput, bucket: int -> string, gs: seq<Group>, a: Alert)
    ensures a in AlertsOf(kind, input, bucket, gs) <==> exists k :: 0 <= k < |gs| && Firing(kind, input, bucket)(gs[k]) == Some(a)
  {
    FilterMapElements(Firing(kind, input, bucket), gs, a);
  }

  /** What every alert carries. */
  lemma FiredCarries(kind: Kind, input: DetectInput, bucket: int -> string, g: Group)
    ensures var alert := Fired(kind, input, bucket, g);
      alert.Some? ==> alert.value.kind == kind && alert.value.brand == input.brand && |alert.value.evidence| > 0 &&
                      alert.value.dedupeKey == DedupeKey(kind, g.source, bucket(g.hour)) && |alert.value.dedupeKey| > 0
  {
  }

  /** A group of this source and hour fires the rule. */
  ghost predicate Raises(kind: Kind, input: DetectInput, bucket: int -> string, source: string, hour: int) {
    var g := GroupAt(input.enriched, Kept(kind), source, hour);
    |g.mentions| > 0 && Fired(kind, input, bucket, g).Some?
  }

  lemma RuleAlertsElements(kind: Kind, input: DetectInput, bucket: int -> string, a: Alert)
    ensures a in RuleAlerts(kind, input, bucket) <==>
            exists g :: IsGroup(g, input.enriched, Kept(kind)) && Fired(kind, input, bucket, g) == Some(a)
  {
    var gs := Groups(input.enriched, Kept(kind), bucket);
    AlertsOfElements(kind, input, bucket, gs, a);
    if k :| 0 <= k < |gs| && Fired(kind, input, bucket, gs[k]) == Some(a) {
      GroupAtIsFound(input.enriched, Kept(kind), bucket, gs, k);
    }
    if g :| IsGroup(g, input.enriched, Kept(kind)) && Fired(kind, input, bucket, g) == Some(a) {
      GroupsElements(input.enriched, Kept(kind), bucket, g);
      var k :| 0 <= k < |gs| && gs[k] == g;
    }
  }

  function Keys(alerts: seq<Alert>): seq<string> { Map((a: Alert) => a.dedupeKey, alerts) }

  lemma AllAlertsElements(input: DetectInput, bucket: int -> string, a: Alert)
    ensures a in AllAlerts(input, bucket, |RULES|) <==> exists r: nat :: r < |RULES| && a in Ruling(input, bucket)(r)
  {
    ConcatElements(Ruling(input, bucket), |RULES|, a);
  }

  lemma RuleIsRun(kind: Kind) returns (r: nat)
    ensures r < |RULES| && RULES[r] == kind
  {
    r := match kind case Spike => 0 case Crisis => 1 case ReviewBomb => 2 case InfluencerMention => 3 case CompetitorMove => 4;
  }

  lemma AlertHasGroup(input: DetectInput, bucket: int -> string, a: Alert) returns (kind: Kind, g: Group)
    requires a in AllAlerts(input, bucket, |RULES|)
    ensures IsGroup(g, input.enriched, Kept(kind)) && Fired(kind, input, bucket, g) == Some(a)
  {
    AllAlertsElements(input, bucket, a);
    var r: nat :| r < |RULES| && a in Ruling(input, bucket)(r);
    kind := RULES[r];
    RuleAlertsElements(kind, input, bucket, a);
    g :| IsGroup(g, input.enriched, Kept(kind)) && Fired(kind, input, bucket, g) == Some(a);
  }

  lemma GroupHasAlert(kind: Kind, input: DetectInput, bucket: int -> string, g: Group, a: Alert)
    requires IsGroup(g, input.enriched, Kept(kind)) && Fired(kind, input, bucket, g) == Some(a)
    ensures a in AllAlerts(input, bucket, |RULES|)
  {
    var r := RuleIsRun(kind);
    RuleAlertsElements(kind, input, bucket, a);
    assert a in Ruling(input, bucket)(r);
    AllAlertsElements(input, bucket, a);
  }

  /** Every alert of the whole detector is what one rule made of one group. */
  lemma EvaluatedElements(input: DetectInput, bucket: int -> string, a: Alert)
    ensures a in Evaluated(input, bucket).alerts <==>
            input.brand != "" && exists kind, g :: IsGroup(g, input.enriched, Kept(kind)) && Fired(kind, input, bucket, g) == Some(a)
  {
    var all := AllAlerts(input, bucket, |RULES|);
    FilterElements(ValidAlert, all, a);
    if a in all {
      var kind, g := AlertHasGroup(input, bucket, a);
      FiredCarries(kind, input, bucket, g);
    }
    if kind, g :| IsGroup(g, input.enriched, Kept(kind)) && Fired(kind, input, bucket, g) == Some(a) {
      GroupHasAlert(kind, input, bucket, g, a);
      FiredCarries(kind, input, bucket, g);
    }
  }

  ghost predicate HasAlert(alerts: seq<Alert>, key: string) {
    exists a :: a in alerts && a.dedupeKey == key
  }

  /** The alert with this key is what the rule made of this hour's kept mentions. */
  lemma AlertOfKey(kind: Kind, input: DetectInput, bucket: int -> string, source: string, hour: int, a: Alert)
    requires IsBucketing(bucket) && a in Evaluated(input, bucket).alerts && a.dedupeKey == DedupeKey(kind, source, bucket(hour))
    ensures input.brand != "" && |GroupAt(input.enriched, Kept(kind), source, hour).mentions| > 0
    ensures Fired(kind, input, bucket, GroupAt(input.enriched, Kept(kind), source, hour)) == Some(a)
  {
    EvaluatedElements(input, bucket, a);
    var k, g :| IsGroup(g, input.enriched, Kept(k)) && Fired(k, input, bucket, g) == Some(a);
    FiredCarries(k, input, bucket, g);
    DedupeKeyInjective(k, g.source, g.hour, kind, source, hour, bucket);
  }

  /** An alert for a rule, source and hour is raised exactly when that hour's kept mentions
      fire the rule and the request names a brand. */
  lemma RaisedExactlyWhen(kind: Kind, input: DetectInput, bucket: int -> string, source: string, hour: int)
    requires IsBucketing(bucket)
    ensures HasAlert(Evaluated(input, bucket).alerts, DedupeKey(kind, source, bucket(hour))) <==>
            input.brand != "" && Raises(kind, input, bucket, source, hour)
  {
    if a :| a in Evaluated(input, bucket).alerts && a.dedupeKey == DedupeKey(kind, source, bucket(hour)) {
      AlertOfKey(kind, input, bucket, source, hour, a);
    }
    if input.brand != "" && Raises(kind, input, bucket, source, hour) {
      var g := GroupAt(input.enriched, Kept(kind), source, hour);
      var a := Fired(kind, input, bucket, g).value;
      FiredCarries(kind, input, bucket, g);
      assert IsGroup(g, input.enriched, Kept(kind));
      EvaluatedElements(input, bucket, a);
    }
  }

  /** No rule's alert is ever dropped, unless the request names no brand, and then all are. */
  lemma NothingIsDropped(input: DetectInput, bucket: int -> string)
    ensures var all, out := AllAlerts(input, bucket, |RULES|), Evaluated(input, bucket);
      if input.brand != "" then out.alerts == all && out.errors == 0 else out.alerts == [] && out.errors == |all|
  {
    var all := AllAlerts(input, bucket, |RULES|);
    forall k | 0 <= k < |all| ensures ValidAlert(all[k]) <==> input.brand != "" {
      var a := all[k];
      assert a in all;
      var kind, g := AlertHasGroup(input, bucket, a);
      FiredCarries(kind, input, bucket, g);
    }
    if input.brand != "" {
      FilterAll(ValidAlert, InvalidAlert, all);
    } else {
      FilterNone(ValidAlert, all);
      CountIfAll(InvalidAlert, all);
    }
  }

  // ---------------------------------------------------------------- dedupe keys

  lemma KeyIsOfGroup(kind: Kind, input: DetectInput, bucket: int -> string, gs: seq<Group>, key: string) returns (k: nat)
    requires key in Keys(AlertsOf(kind, input, bucket, gs))
    ensures k < |gs| && key == DedupeKey(kind, gs[k].source, bucket(gs[k].hour))
  {
    var alerts := AlertsOf(kind, input, bucket, gs);
    var i :| 0 <= i < |alerts| && Keys(alerts)[i] == key;
    var a := alerts[i];
    assert a in alerts;
    AlertsOfElements(kind, input, bucket, gs, a);
    k :| 0 <= k < |gs| && Fired(kind, input, bucket, gs[k]) == Some(a);
    FiredCarries(kind, input, bucket, gs[k]);
  }

  lemma KeysAppend(a: seq<Alert>, b: seq<Alert>)
    ensures Keys(a + b) == Keys(a) + Keys(b)
  {
  }

  lemma {:induction false} RuleKeysDistinct(kind: Kind, input: DetectInput, bucket: int -> string, gs: seq<Group>)
    requires IsBucketing(bucket)
    requires forall i, j :: 0 <= i < j < |gs| ==> gs[i].source != gs[j].source || gs[i].hour != gs[j].hour
    ensures Distinct(Keys(AlertsOf(kind, input, bucket, gs)))
  {
    if |gs| > 0 {
      var rest, last := gs[..|gs| - 1], gs[|gs| - 1];
      RuleKeysDistinct(kind, input, bucket, rest);
      var alert := Fired(kind, input, bucket, last);
      if alert.Some? {
        FiredCarries(kind, input, bucket, last);
        KeysAppend(AlertsOf(kind, input, bucket, rest), [alert.value]);
        if alert.value.dedupeKey in Keys(AlertsOf(kind, input, bucket, rest)) {
          var k := KeyIsOfGroup(kind, input, bucket, rest, alert.value.dedupeKey);
          DedupeKeyInjective(kind, rest[k].source, rest[k].hour, kind, last.source, last.hour, bucket);
          assert false;
        }
      } else {
        assert AlertsOf(kind, input, bucket, gs) == AlertsOf(kind, input, bucket, rest);
      }
    }
  }

  lemma RulesDiffer(r: nat, n: nat)
    requires r < n < |RULES|
    ensures RULES[r] != RULES[n]
  {
  }

  /** Two different rules share no key. */
  lemma RulesShareNoKey(kind: Kind, other: Kind, input: DetectInput, bucket: int -> string, key: string)
    requires IsBucketing(bucket) && kind != other && key in Keys(RuleAlerts(kind, input, bucket))
    ensures key !in Keys(RuleAlerts(other, input, bucket))
  {
    var gs, hs := Groups(input.enriched, Kept(kind), bucket), Groups(input.enriched, Kept(other), bucket);
    var k := KeyIsOfGroup(kind, input, bucket, gs, key);
    if key in Keys(AlertsOf(other, input, bucket, hs)) {
      var l := KeyIsOfGroup(other, input, bucket, hs, key);
      DedupeKeyInjective(kind, gs[k].source, gs[k].hour, other, hs[l].source, hs[l].hour, bucket);
      assert false;
    }
  }

  lemma KeysOfRuleDistinct(kind: Kind, input: DetectInput, bucket: int -> string)
    requires IsBucketing(bucket)
    ensures Distinct(Keys(RuleAlerts(kind, input, bucket)))
  {
    var gs := Groups(input.enriched, Kept(kind), bucket);
    forall i, j | 0 <= i < j < |gs| ensures gs[i].source != gs[j].source || gs[i].hour != gs[j].hour {
      GroupsIncrease(input.enriched, Kept(kind), bucket, gs, i, j);
    }
    RuleKeysDistinct(kind, input, bucket, gs);
  }

  lemma JoinedKeysDistinct(before: seq<Alert>, last: seq<Alert>)
    requires Distinct(Keys(before)) && Distinct(Keys(last)) && forall key :: key in Keys(before) ==> key !in Keys(last)
    ensures Distinct(Keys(before + last))
  {
    KeysAppend(before, last);
    JoinedDistinct(Keys(before), Keys(last));
  }

  ghost predicate ShareNoKey(a: seq<Alert>, b: seq<Alert>) {
    forall key :: key in Keys(a) ==> key !in Keys(b)
  }

  /** No key stands twice in one part, and none in two of the first `n`. */
  ghost predicate PartsDistinct(part: nat -> seq<Alert>, n: nat) {
    && (forall r: nat :: r < n ==> Distinct(Keys(part(r))))
    && forall r: nat, q: nat :: r < q < n ==> ShareNoKey(part(r), part(q))
  }

  lemma {:induction false} PartWithKey(part: nat -> seq<Alert>, n: nat, key: string) returns (r: nat)
    requires key in Keys(Concat(part, n))
    ensures r < n && key in Keys(part(r))
  {
    KeysAppend(Concat(part, n - 1), part(n - 1));
    if key in Keys(part(n - 1)) {
      r := n - 1;
    } else {
      r := PartWithKey(part, n - 1, key);
    }
  }

  lemma {:induction false} PartsKeysDistinct(part: nat -> seq<Alert>, n: nat)
    requires PartsDistinct(part, n)
    ensures Distinct(Keys(Concat(part, n)))
  {
    if n > 0 {
      PartsKeysDistinct(part, n - 1);
      var before, last := Concat(part, n - 1), part(n - 1);
      forall key | key in Keys(before) ensures key !in Keys(last) {
        var r := PartWithKey(part, n - 1, key);
        assert ShareNoKey(part(r), last);
      }
      JoinedKeysDistinct(before, last);
    }
  }

  lemma RulesAreDistinct(input: DetectInput, bucket: int -> string)
    requires IsBucketing(bucket)
    ensures PartsDistinct(Ruling(input, bucket), |RULES|)
  {
    var part := Ruling(input, bucket);
    forall r: nat | r < |RULES| ensures Distinct(Keys(part(r))) {
      KeysOfRuleDistinct(RULES[r], input, bucket);
    }
    forall r: nat, q: nat | r < q < |RULES| ensures ShareNoKey(part(r), part(q)) {
      forall key | key in Keys(part(r)) ensures key !in Keys(part(q)) {
        RulesDiffer(r, q);
        RulesShareNoKey(RULES[r], RULES[q], input, bucket, key);
      }
    }
  }

  /** No two alerts of one evaluation share a dedupe key. */
  lemma DedupeKeysDistinct(input: DetectInput, bucket: int -> string)
    requires IsBucketing(bucket)
    ensures Distinct(Keys(Evaluated(input, bucket).alerts))
  {
    RulesAreDistinct(input, bucket);
    PartsKeysDistinct(Ruling(input, bucket), |RULES|);
    NothingIsDropped(input, bucket);
  }

  // ---------------------------------------------------------------- evidence

  /** The reported number meets the threshold reported with it. */
  ghost predicate Stands(e: Evidence) {
    if e.metric == "mean_rating" then e.value <= e.threshold else e.value >= e.threshold
  }

  ghost predicate SpreadsAreValid(b: BaselineStats) { forall s :: s in b.std ==> b.std[s] >= 0.0 }

  lemma {:induction false} PeakIsHigh(ms: seq<EnrichedMention>)
    requires |ms| > 0 && forall k :: 0 <= k < |ms| ==> IsInfluencer(ms[k])
    ensures Peak(ms) >= INFLUENCER_FOLLOWERS
  {
  }

  lemma EvidenceOfVolume(b: BaselineStats, source: string, count: nat)
    requires SpreadsAreValid(b) && HourlyZScore(b, source, count) >= SPIKE_Z
    ensures Round1(HourlyZScore(b, source, count)) >= SPIKE_Z && count as real >= Found(b.mean, source)
  {
    Round1KeepsThreshold(HourlyZScore(b, source, count), 30);
    ZScoreReaches(count as real, Found(b.mean, source), Found(b.std, source), SPIKE_Z);
  }

  lemma FiredEvidenceStands(kind: Kind, input: DetectInput, bucket: int -> string, g: Group, k: nat)
    requires SpreadsAreValid(input.baseline) && Fired(kind, input, bucket, g).Some?
    requires k < |Fired(kind, input, bucket, g).value.evidence|
    ensures Stands(Fired(kind, input, bucket, g).value.evidence[k])
  {
    match kind
    case Spike => EvidenceOfVolume(input.baseline, g.source, |g.mentions|);
    case CompetitorMove => EvidenceOfVolume(input.baseline, g.source, |g.mentions|);
    case Crisis =>
      EvidenceOfVolume(input.baseline, g.source, |g.mentions|);
      Round2KeepsThreshold(NegativeShare(g.mentions), 60);
    case ReviewBomb => Round2KeepsThreshold(MeanRatingOf(g.mentions), 200);
    case InfluencerMention =>
      var influencers := Filter(IsInfluencer, g.mentions);
      forall k | 0 <= k < |influencers| ensures IsInfluencer(influencers[k]) {
        var em := influencers[k];
        assert em in influencers;
        FilterElements(IsInfluencer, g.mentions, em);
      }
      PeakIsHigh(influencers);
  }

  /** Rounding never makes an alert show a number that misses its own threshold. */
  lemma EvidenceStands(input: DetectInput, bucket: int -> string, a: Alert, k: nat)
    requires SpreadsAreValid(input.baseline)
    requires a in Evaluated(input, bucket).alerts && k < |a.evidence|
    ensures Stands(a.evidence[k])
  {
    EvaluatedElements(input, bucket, a);
    var kind, g :| IsGroup(g, input.enriched, Kept(kind)) && Fired(kind, input, bucket, g) == Some(a);
    FiredEvidenceStands(kind, input, bucket, g, k);
  }

  // ---------------------------------------------------------------- when the volume rules fire

  function Volume(input: DetectInput, source: string, hour: int): nat {
    |GroupAt(input.enriched, Everything, source, hour).mentions|
  }

  function NegativeVolume(input: DetectInput, source: string, hour: int): nat {
    CountIf(IsNegative, GroupAt(input.enriched, Everything, source, hour).mentions)
  }

  /** A source spikes when its spread is positive and the hour has three spreads more than the
      mean. A source without spread, and a source without history, never spikes. */
  ghost predicate Spikes(b: BaselineStats, source: string, volume: nat) {
    Found(b.std, source) > 0.0 && volume as real >= Found(b.mean, source) + SPIKE_Z * Found(b.std, source)
  }

  lemma SpikeRaisedExactlyWhen(input: DetectInput, bucket: int -> string, source: string, hour: int)
    requires SpreadsAreValid(input.baseline)
    ensures Raises(Spike, input, bucket, source, hour) <==>
            Volume(input, source, hour) > 0 && Spikes(input.baseline, source, Volume(input, source, hour))
  {
    ZScoreReaches(Volume(input, source, hour) as real, Found(input.baseline.mean, source), Found(input.baseline.std, source), SPIKE_Z);
  }

  lemma ShareReaches(negative: nat, total: nat, tenths: nat)
    requires total > 0
    ensures Per(negative as real, total) >= tenths as real / 10.0 <==> 10 * negative >= tenths * total
  {
    var share, t := Per(negative as real, total), tenths as real / 10.0;
    assert (share - t) * total as real == negative as real - t * total as real;
    assert 10.0 * (t * total as real) == (tenths * total) as real;
    SignOfProduct(share - t, total as real);
  }

  lemma CrisisRaisedExactlyWhen(input: DetectInput, bucket: int -> string, source: string, hour: int)
    requires SpreadsAreValid(input.baseline)
    ensures Raises(Crisis, input, bucket, source, hour) <==>
            && Volume(input, source, hour) > 0 && Spikes(input.baseline, source, Volume(input, source, hour))
            && 10 * NegativeVolume(input, source, hour) >= 6 * Volume(input, source, hour)
  {
    ZScoreReaches(Volume(input, source, hour) as real, Found(input.baseline.mean, source), Found(input.baseline.std, source), CRISIS_Z);
    if Volume(input, source, hour) > 0 {
      ShareReaches(NegativeVolume(input, source, hour), Volume(input, source, hour), 6);
    }
  }

  /** Competitor mentions alone have to reach the spread of all mentions of the source. */
  lemma CompetitorRaisedExactlyWhen(input: DetectInput, bucket: int -> string, source: string, hour: int)
    requires SpreadsAreValid(input.baseline)
    ensures var volume := |GroupAt(input.enriched, AboutACompetitor, source, hour).mentions|;
      Raises(CompetitorMove, input, bucket, source, hour) <==> volume > 0 && Spikes(input.baseline, source, volume)
  {
    var volume := |GroupAt(input.enriched, AboutACompetitor, source, hour).mentions|;
    ZScoreReaches(volume as real, Found(input.baseline.mean, source), Found(input.baseline.std, source), COMPETITOR_Z);
  }

  lemma MeanAtMost(total: real, n: nat, most: real)
    requires n > 0
    ensures Per(total, n) <= most <==> total <= most * n as real
  {
    assert (most - Per(total, n)) * n as real == most * n as real - total;
    SignOfProduct(most - Per(total, n), n as real);
  }

  lemma ReviewGroupIsWhole(enriched: seq<EnrichedMention>, source: string, hour: int)
    requires source in REVIEW_SOURCES
    ensures GroupAt(enriched, OnReviewSource, source, hour) == GroupAt(enriched, Everything, source, hour)
  {
    var p, q := Belongs(OnReviewSource, source, hour), Belongs(Everything, source, hour);
    forall k | 0 <= k < |enriched| ensures p(enriched[k]) == q(enriched[k]) {
      assert Everything(enriched[k]);
      assert enriched[k].mention.source == source ==> OnReviewSource(enriched[k]);
    }
    FilterSame(p, q, enriched);
  }

  lemma NoReviewGroup(enriched: seq<EnrichedMention>, source: string, hour: int)
    requires source !in REVIEW_SOURCES
    ensures GroupAt(enriched, OnReviewSource, source, hour).mentions == []
  {
    var p := Belongs(OnReviewSource, source, hour);
    forall k | 0 <= k < |enriched| ensures !p(enriched[k]) {
      assert enriched[k].mention.source == source ==> !OnReviewSource(enriched[k]);
    }
    FilterNone(p, enriched);
  }

  /** A review bomb: at least five ratings in the hour on a review source, averaging two stars
      or less. Mentions without a rating count for nothing. */
  lemma ReviewBombRaisedExactlyWhen(input: DetectInput, bucket: int -> string, source: string, hour: int)
    ensures var ms := GroupAt(input.enriched, Everything, source, hour).mentions;
      Raises(ReviewBomb, input, bucket, source, hour) <==>
        && source in REVIEW_SOURCES && CountIf(HasRating, ms) >= REVIEW_BOMB_MIN_REVIEWS
        && SumOf(RatingOf, ms) <= 2.0 * CountIf(HasRating, ms) as real
  {
    var ms := GroupAt(input.enriched, Everything, source, hour).mentions;
    if source in REVIEW_SOURCES {
      ReviewGroupIsWhole(input.enriched, source, hour);
      if CountIf(HasRating, ms) > 0 {
        MeanAtMost(SumOf(RatingOf, ms), CountIf(HasRating, ms), REVIEW_BOMB_MAX_MEAN_RATING);
      }
    } else {
      NoReviewGroup(input.enriched, source, hour);
    }
  }

  /** An hour with at least one author of 50,000 followers or more. */
  lemma InfluencerRaisedExactlyWhen(input: DetectInput, bucket: int -> string, source: string, hour: int)
    ensures Raises(InfluencerMention, input, bucket, source, hour) <==>
            exists em :: em in GroupAt(input.enriched, Everything, source, hour).mentions && em.mention.followers >= INFLUENCER_FOLLOWERS
  {
    var ms := GroupAt(input.enriched, Everything, source, hour).mentions;
    var influencers := Filter(IsInfluencer, ms);
    forall em ensures em in influencers <==> em in ms && IsInfluencer(em) {
      FilterElements(IsInfluencer, ms, em);
    }
    if |influencers| > 0 {
      assert influencers[0] in influencers;
    }
  }

  // ---------------------------------------------------------------- severities

  /** A spike is high from five spreads above the mean on, and medium below. */
  lemma SpikeSeverity(input: DetectInput, bucket: int -> string, source: string, hour: int, a: Alert)
    requires IsBucketing(bucket) && SpreadsAreValid(input.baseline)
    requires a in Evaluated(input, bucket).alerts && a.dedupeKey == DedupeKey(Spike, source, bucket(hour))
    ensures var volume, mean, std := Volume(input, source, hour), Found(input.baseline.mean, source), Found(input.baseline.std, source);
      a.severity == if volume as real >= mean + SPIKE_HIGH_Z * std then High else Medium
  {
    AlertOfKey(Spike, input, bucket, source, hour, a);
    SpikeAlertSeverity(input, bucket, GroupAt(input.enriched, Everything, source, hour), a);
  }

  lemma SpikeAlertSeverity(input: DetectInput, bucket: int -> string, g: Group, a: Alert)
    requires SpreadsAreValid(input.baseline) && SpikeAlert(input, bucket, g) == Some(a)
    ensures var mean, std := Found(input.baseline.mean, g.source), Found(input.baseline.std, g.source);
      a.severity == if |g.mentions| as real >= mean + SPIKE_HIGH_Z * std then High else Medium
  {
    var mean, std := Found(input.baseline.mean, g.source), Found(input.baseline.std, g.source);
    ZScoreReaches(|g.mentions| as real, mean, std, SPIKE_Z);
    ZScoreReaches(|g.mentions| as real, mean, std, SPIKE_HIGH_Z);
  }

  /** A crisis is critical from four negative mentions in five on, and high below. */
  lemma CrisisSeverity(input: DetectInput, bucket: int -> string, source: string, hour: int, a: Alert)
    requires IsBucketing(bucket)
    requires a in Evaluated(input, bucket).alerts && a.dedupeKey == DedupeKey(Crisis, source, bucket(hour))
    ensures a.severity == if 5 * NegativeVolume(input, source, hour) >= 4 * Volume(input, source, hour) then Critical else High
  {
    AlertOfKey(Crisis, input, bucket, source, hour, a);
    ShareReaches(NegativeVolume(input, source, hour), Volume(input, source, hour), 8);
  }

  lemma {:induction false} PeakIsHighest(ms: seq<EnrichedMention>)
    ensures Peak(ms) >= 0 && forall k :: 0 <= k < |ms| ==> ms[k].mention.followers <= Peak(ms)
    ensures Peak(ms) > 0 ==> exists k :: 0 <= k < |ms| && ms[k].mention.followers == Peak(ms)
  {
    if |ms| > 0 {
      PeakIsHighest(ms[..|ms| - 1]);
    }
  }

  /** An influencer alert reports the highest follower count, and is high exactly when one of
      the influencers is negative. */
  lemma InfluencerReportsPeak(input: DetectInput, bucket: int -> string, source: string, hour: int, a: Alert)
    requires IsBucketing(bucket)
    requires a in Evaluated(input, bucket).alerts && a.dedupeKey == DedupeKey(InfluencerMention, source, bucket(hour))
    ensures var ms := GroupAt(input.enriched, Everything, source, hour).mentions;
      && |a.evidence| == 1 && (forall em :: em in ms ==> em.mention.followers as real <= a.evidence[0].value)
      && (exists em :: em in ms && em.mention.followers as real == a.evidence[0].value)
      && (a.severity == High <==> exists em :: em in ms && IsInfluencer(em) && IsNegative(em))
  {
    AlertOfKey(InfluencerMention, input, bucket, source, hour, a);
    PeakOfInfluencers(GroupAt(input.enriched, Everything, source, hour).mentions);
  }

  lemma PeakOfInfluencers(ms: seq<EnrichedMention>)
    ensures var influencers := Filter(IsInfluencer, ms);
      |influencers| > 0 ==>
        && (forall em :: em in ms ==> em.mention.followers <= Peak(influencers))
        && (exists em :: em in ms && em.mention.followers == Peak(influencers))
        && (CountIf(IsNegative, influencers) > 0 <==> exists em :: em in ms && IsInfluencer(em) && IsNegative(em))
  {
    var influencers := Filter(IsInfluencer, ms);
    forall em ensures em in influencers <==> em in ms && IsInfluencer(em) {
      FilterElements(IsInfluencer, ms, em);
    }
    if |influencers| > 0 {
      PeakIsHighest(influencers);
      assert influencers[0] in influencers;
      var highest :| 0 <= highest < |influencers| && influencers[highest].mention.followers == Peak(influencers);
      assert influencers[highest] in influencers;
      forall em | em in ms ensures em.mention.followers <= Peak(influencers) {
        if IsInfluencer(em) {
          var k :| 0 <= k < |influencers| && influencers[k] == em;
        }
      }
      NegativesAmong(influencers);
    }
  }

  lemma NegativesAmong(ms: seq<EnrichedMention>)
    ensures CountIf(IsNegative, ms) > 0 <==> exists em :: em in ms && IsNegative(em)
  {
    CountIfPositive(IsNegative, ms);
    if em :| em in ms && IsNegative(em) {
      var k :| 0 <= k < |ms| && ms[k] == em;
    }
  }

  /** A crisis reports its z-score and its share to within half of their last digit, and its
      counts as they are. */
  lemma CrisisReportsNumbers(input: DetectInput, bucket: int -> string, source: string, hour: int, a: Alert)
    requires IsBucketing(bucket)
    requires a in Evaluated(input, bucket).alerts && a.dedupeKey == DedupeKey(Crisis, source, bucket(hour))
    ensures var volume, negative := Volume(input, source, hour), NegativeVolume(input, source, hour);
      && |a.evidence| == 3 && volume > 0
      && Near(a.evidence[0].value, HourlyZScore(input.baseline, source, volume), 0.05)
      && Near(a.evidence[1].value, Per(negative as real, volume), 0.005)
      && a.evidence[2].value == volume as real && a.evidence[2].threshold == Found(input.baseline.mean, source)
  {
    AlertOfKey(Crisis, input, bucket, source, hour, a);
    RoundingIsClose(HourlyZScore(input.baseline, source, Volume(input, source, hour)));
    RoundingIsClose(NegativeShare(GroupAt(input.enriched, Everything, source, hour).mentions));
  }

  /** As a spike does its z-score. */
  lemma SpikeReportsNumber(input: DetectInput, bucket: int -> string, source: string, hour: int, a: Alert)
    requires IsBucketing(bucket)
    requires a in Evaluated(input, bucket).alerts && a.dedupeKey == DedupeKey(Spike, source, bucket(hour))
    ensures |a.evidence| == 1 && Near(a.evidence[0].value, HourlyZScore(input.baseline, source, Volume(input, source, hour)), 0.05)
  {
    AlertOfKey(Spike, input, bucket, source, hour, a);
    RoundingIsClose(HourlyZScore(input.baseline, source, Volume(input, source, hour)));
  }

  ghost predicate Near(a: real, b: real, within: real) { -within <= a - b <= within }

  // ---------------------------------------------------------------- rules together

  /** A crisis always comes with the spike of the same source and hour. */
  lemma CrisisHasSpike(input: DetectInput, bucket: int -> string, source: string, hour: int)
    requires IsBucketing(bucket)
    requires HasAlert(Evaluated(input, bucket).alerts, DedupeKey(Crisis, source, bucket(hour)))
    ensures HasAlert(Evaluated(input, bucket).alerts, DedupeKey(Spike, source, bucket(hour)))
  {
    RaisedExactlyWhen(Crisis, input, bucket, source, hour);
    RaisedExactlyWhen(Spike, input, bucket, source, hour);
  }

  // ---------------------------------------------------------------- more mentions

  function HourGroup(input: DetectInput, source: string, hour: int): seq<EnrichedMention> {
    GroupAt(input.enriched, Everything, source, hour).mentions
  }

  /** The mentions of this source and hour are still among those of the later run, in whatever
      order the window was read back. */
  ghost predicate StillThere(before: DetectInput, after: DetectInput, source: string, hour: int) {
    multiset(HourGroup(before, source, hour)) <= multiset(HourGroup(after, source, hour))
  }

  lemma VolumeGrows(before: DetectInput, after: DetectInput, source: string, hour: int)
    requires StillThere(before, after, source, hour)
    ensures Volume(before, source, hour) <= Volume(after, source, hour)
    ensures NegativeVolume(before, source, hour) <= NegativeVolume(after, source, hour)
  {
    CountAmongMore(IsNegative, HourGroup(before, source, hour), HourGroup(after, source, hour));
  }

  /** A spike cannot suppress itself. The detector runs again later in the same hour, after more
      mentions arrived and whatever was labelled meanwhile, with the baseline read again from a
      table that now holds mentions of the current hour as well: every spike that fired, and
      whose mentions are still in the window, still fires. */
  lemma SpikeIsNotSuppressed(before: DetectInput, after: DetectInput, table: seq<Mention>, labels: Labels, late: seq<Mention>, more: Labels,
                             days: int, bucket: int -> string, source: string, hour: int)
    requires IsBucketing(bucket)
    requires after.brand == before.brand && Truncated(after.now) == Truncated(before.now) && StillThere(before, after, source, hour)
    requires NoneBefore(late, before.brand, Truncated(before.now))
    requires IsBaseline(before.baseline, table, labels, before.brand, days, before.now)
    requires IsBaseline(after.baseline, table + late, more, after.brand, days, after.now)
    requires HasAlert(Evaluated(before, bucket).alerts, DedupeKey(Spike, source, bucket(hour)))
    ensures HasAlert(Evaluated(after, bucket).alerts, DedupeKey(Spike, source, bucket(hour)))
  {
    ComputedSpreadsAreValid(before.baseline, table, labels, before.brand, days, before.now);
    ComputedSpreadsAreValid(after.baseline, table + late, more, after.brand, days, after.now);
    VolumesIgnoreLabels(before.baseline, after.baseline, table, labels, late, more, before.brand, days, before.now, after.now);
    MoreMentionsKeepSpike(before, after, bucket, source, hour);
  }

  lemma MoreMentionsKeepSpike(before: DetectInput, after: DetectInput, bucket: int -> string, source: string, hour: int)
    requires IsBucketing(bucket) && SpreadsAreValid(before.baseline) && SpreadsAreValid(after.baseline)
    requires after.baseline.mean == before.baseline.mean && after.baseline.std == before.baseline.std
    requires after.brand == before.brand && StillThere(before, after, source, hour)
    requires HasAlert(Evaluated(before, bucket).alerts, DedupeKey(Spike, source, bucket(hour)))
    ensures HasAlert(Evaluated(after, bucket).alerts, DedupeKey(Spike, source, bucket(hour)))
  {
    RaisedExactlyWhen(Spike, before, bucket, source, hour);
    RaisedExactlyWhen(Spike, after, bucket, source, hour);
    SpikeRaisedExactlyWhen(before, bucket, source, hour);
    SpikeRaisedExactlyWhen(after, bucket, source, hour);
    VolumeGrows(before, after, source, hour);
  }

  /** The crisis of an hour lasts exactly while six in ten of the hour are negative. */
  ghost predicate CrisisLasts(before: DetectInput, after: DetectInput, bucket: int -> string, source: string, hour: int) {
    var volume, negative := Volume(after, source, hour), NegativeVolume(after, source, hour);
    && (HasAlert(Evaluated(after, bucket).alerts, DedupeKey(Crisis, source, bucket(hour))) <==> 10 * negative >= 6 * volume)
    && (10 * (negative - NegativeVolume(before, source, hour)) >= 6 * (volume - Volume(before, source, hour)) ==>
        HasAlert(Evaluated(after, bucket).alerts, DedupeKey(Crisis, source, bucket(hour))))
  }

  /** Nor does a crisis end while six in ten of what is new in its hour are negative. It ends
      exactly when the late mentions take the share of the whole hour below that. */
  lemma CrisisIsNotSuppressed(before: DetectInput, after: DetectInput, table: seq<Mention>, labels: Labels, late: seq<Mention>, more: Labels,
                              days: int, bucket: int -> string, source: string, hour: int)
    requires IsBucketing(bucket)
    requires after.brand == before.brand && Truncated(after.now) == Truncated(before.now) && StillThere(before, after, source, hour)
    requires NoneBefore(late, before.brand, Truncated(before.now))
    requires IsBaseline(before.baseline, table, labels, before.brand, days, before.now)
    requires IsBaseline(after.baseline, table + late, more, after.brand, days, after.now)
    requires HasAlert(Evaluated(before, bucket).alerts, DedupeKey(Crisis, source, bucket(hour)))
    ensures CrisisLasts(before, after, bucket, source, hour)
  {
    ComputedSpreadsAreValid(before.baseline, table, labels, before.brand, days, before.now);
    ComputedSpreadsAreValid(after.baseline, table + late, more, after.brand, days, after.now);
    VolumesIgnoreLabels(before.baseline, after.baseline, table, labels, late, more, before.brand, days, before.now, after.now);
    CrisisWithMoreMentions(before, after, bucket, source, hour);
  }

  lemma CrisisWithMoreMentions(before: DetectInput, after: DetectInput, bucket: int -> string, source: string, hour: int)
    requires IsBucketing(bucket) && SpreadsAreValid(before.baseline) && SpreadsAreValid(after.baseline)
    requires after.baseline.mean == before.baseline.mean && after.baseline.std == before.baseline.std
    requires after.brand == before.brand && StillThere(before, after, source, hour)
    requires HasAlert(Evaluated(before, bucket).alerts, DedupeKey(Crisis, source, bucket(hour)))
    ensures CrisisLasts(before, after, bucket, source, hour)
  {
    RaisedExactlyWhen(Crisis, before, bucket, source, hour);
    RaisedExactlyWhen(Crisis, after, bucket, source, hour);
    CrisisRaisedExactlyWhen(before, bucket, source, hour);
    CrisisRaisedExactlyWhen(after, bucket, source, hour);
    VolumeGrows(before, after, source, hour);
  }

  /** A computed baseline has no negative spread. */
  lemma ComputedSpreadsAreValid(b: BaselineStats, table: seq<Mention>, labels: Labels, brand: string, days: int, now: int)
    requires IsBaseline(b, table, labels, brand, days, now)
    ensures SpreadsAreValid(b)
  {
    forall s | s in b.std ensures b.std[s] >= 0.0 {
      assert s in b.mean.Keys;
    }
  }

  // ---------------------------------------------------------------- samples

  lemma {:induction false} TakeOfPermutation<T>(a: seq<T>, n: nat)
    requires n <= |a|
    ensures multiset(a[..n]) + multiset(a[n..]) == multiset(a)
  {
    assert a == a[..n] + a[n..];
  }

  lemma SortedSplit<T>(less: (T, T) -> bool, s: seq<T>, n: nat)
    requires Sorted(less, s) && n <= |s|
    ensures forall i, j :: 0 <= i < n && 0 <= j < |s| - n ==> !less(s[n..][j], s[..n][i])
  {
  }

  /** The samples are mentions of the group, at most three, and none that was left out is more
      engaged than one that was taken. Among equals the one that came first is taken first. */
  lemma SamplesAreLoudest(ms: seq<EnrichedMention>) returns (taken: seq<EnrichedMention>, left: seq<EnrichedMention>)
    ensures Samples(ms) == Map(MentionOf, taken) && multiset(taken) + multiset(left) == multiset(ms)
    ensures |taken| == if |ms| < MAX_SAMPLES then |ms| else MAX_SAMPLES
    ensures forall i, j :: 0 <= i < |taken| && 0 <= j < |left| ==> !MoreEngaged(left[j], taken[i])
    ensures Stability.SameClasses(MoreEngaged, taken + left, ms)
  {
    var ranked := Sort(MoreEngaged, ms);
    SortElements(MoreEngaged, ms);
    SortSorted(MoreEngaged, ms);
    SameElements(ranked, ms);
    var n := if |ms| < MAX_SAMPLES then |ms| else MAX_SAMPLES;
    taken, left := ranked[..n], ranked[n..];
    TakeOfPermutation(ranked, n);
    SortedSplit(MoreEngaged, ranked, n);
    Stability.StableSplit(MoreEngaged, ms, ranked, taken, left);
  }
}
