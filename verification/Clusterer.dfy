/** Topics from clusters: `agents/bp-clusterer/handler.go`.

  The labelling model is an oracle: for each cluster it may name it or fail, and it
  charges tokens either way. */
module Clusterer {
  import opened Outcomes
  import opened Models
  import opened Ordering
  import L = Lists
  import opened Roots
  import opened Vectors
  import opened Linkage
  import opened Agglomerative
  import opened Clusters
  import opened Tfidf

  const DISTANCE_CUTOFF: real := 0.85
  const MAX_LABELLED_CLUSTERS := 8
  const DEFAULT_MIN_CLUSTER_SIZE := 3

  datatype Labelling = Labelling(tokens: nat, cost: real, name: Option<string>)

  datatype Topic = Topic(brand: string, name: string, size: nat, trend: real, mentionIds: seq<string>)

  datatype TopicSet = TopicSet(topics: seq<Topic>, unclustered: seq<string>, tokens: nat, cost: real, errors: nat)

  function MinClusterSize(requested: int): (size: int)
    ensures size >= 1
    ensures requested > 0 ==> size == requested
    ensures requested <= 0 ==> size == 3
  {
    if requested <= 0 then DEFAULT_MIN_CLUSTER_SIZE else requested
  }

  /** This window's size over the prior window's; 1 when there was none. */
  function TrendAgainst(prior: map<string, int>, name: string, size: nat): (trend: real)
    ensures name in prior && prior[name] > 0 ==> trend * prior[name] as real == size as real
    ensures name !in prior || prior[name] <= 0 ==> trend == 1.0
  {
    if name in prior && prior[name] > 0 then size as real / prior[name] as real else 1.0
  }

  predicate AboutBrand(em: EnrichedMention) { em.enrichment.aboutBrand }

  function OnBrand(enriched: seq<EnrichedMention>): seq<EnrichedMention> { L.Filter(AboutBrand, enriched) }

  method OnBrandMentions(enriched: seq<EnrichedMention>) returns (onBrand: seq<EnrichedMention>)
    ensures onBrand == OnBrand(enriched)
  {
    onBrand := [];
    for i := 0 to |enriched|
      invariant onBrand == OnBrand(enriched[..i])
    {
      assert enriched[..i + 1][..i] == enriched[..i];
      if enriched[i].enrichment.aboutBrand {
        onBrand := onBrand + [enriched[i]];
      }
    }
    assert enriched[..|enriched|] == enriched;
  }

  function IdsOf(enriched: seq<EnrichedMention>): (ids: seq<string>)
    ensures |ids| == |enriched|
    ensures forall k :: 0 <= k < |enriched| ==> ids[k] == enriched[k].mention.id
  {
    seq(|enriched|, i requires 0 <= i < |enriched| => enriched[i].mention.id)
  }

  // ---------------------------------------------------------------- counting ids by flag

  /** The ids at the first `n` positions whose flag is `wanted`. */
  function IdsWhere(ids: seq<string>, flags: seq<bool>, wanted: bool, n: nat): multiset<string>
    requires n <= |ids| == |flags|
  {
    if n == 0 then multiset{}
    else if flags[n - 1] == wanted then IdsWhere(ids, flags, wanted, n - 1) + multiset{ids[n - 1]}
    else IdsWhere(ids, flags, wanted, n - 1)
  }

  lemma IdsWhereNext(ids: seq<string>, flags: seq<bool>, wanted: bool, n: nat)
    requires n < |ids| == |flags|
    ensures IdsWhere(ids, flags, wanted, n + 1) ==
      IdsWhere(ids, flags, wanted, n) + (if flags[n] == wanted then multiset{ids[n]} else multiset{})
  {
  }

  lemma {:induction false} RaisingAFlag(ids: seq<string>, flags: seq<bool>, i: nat, n: nat)
    requires n <= |ids| == |flags| && i < |ids| && !flags[i]
    ensures IdsWhere(ids, flags[i := true], true, n) ==
      IdsWhere(ids, flags, true, n) + (if i < n then multiset{ids[i]} else multiset{})
  {
    if n > 0 {
      RaisingAFlag(ids, flags, i, n - 1);
    }
  }

  lemma {:induction false} FlagsSplitIds(ids: seq<string>, flags: seq<bool>, n: nat)
    requires n <= |ids| == |flags|
    ensures IdsWhere(ids, flags, true, n) + IdsWhere(ids, flags, false, n) == multiset(ids[..n])
  {
    if n > 0 {
      FlagsSplitIds(ids, flags, n - 1);
      assert ids[..n] == ids[..n - 1] + [ids[n - 1]];
    }
  }

  lemma {:induction false} NoFlags(ids: seq<string>, flags: seq<bool>, n: nat)
    requires n <= |ids| == |flags| && forall i :: 0 <= i < |flags| ==> !flags[i]
    ensures IdsWhere(ids, flags, true, n) == multiset{}
  {
    if n > 0 {
      NoFlags(ids, flags, n - 1);
    }
  }

  function TopicIds(topics: seq<Topic>): multiset<string> {
    if |topics| == 0 then multiset{}
    else TopicIds(topics[..|topics| - 1]) + multiset(topics[|topics| - 1].mentionIds)
  }

  function GroupIds(onBrand: seq<EnrichedMention>, group: seq<int>): (ids: seq<string>)
    requires InRange(group, |onBrand|)
    ensures |ids| == |group|
  {
    seq(|group|, k requires 0 <= k < |group| => onBrand[group[k]].mention.id)
  }

  // ---------------------------------------------------------------- the handler

  ghost predicate DisjointGroups(groups: seq<seq<int>>, n: nat) {
    && (forall k :: 0 <= k < |groups| ==> Ascending(groups[k]) && InRange(groups[k], n))
    && (forall k, l, x :: 0 <= k < |groups| && 0 <= l < |groups| && k != l && x in groups[k] ==> x !in groups[l])
  }

  method MembersOf(onBrand: seq<EnrichedMention>, group: seq<int>) returns (members: seq<EnrichedMention>)
    requires InRange(group, |onBrand|)
    ensures |members| == |group| && forall k :: 0 <= k < |group| ==> members[k] == onBrand[group[k]]
  {
    members := [];
    for k := 0 to |group|
      invariant |members| == k && forall l :: 0 <= l < k ==> members[l] == onBrand[group[l]]
    {
      members := members + [onBrand[group[k]]];
    }
  }

  /** A topic that fails validation is not built: a brand without an id, or a trend that is
      not positive. */
  method BuildTopic(brand: string, prior: map<string, int>, name: string, members: seq<EnrichedMention>)
    returns (topic: Option<Topic>)
    ensures topic.Some? <==> brand != "" && TrendAgainst(prior, name, |members|) > 0.0
    ensures topic.Some? ==>
      topic.value == Topic(brand, name, |members|, TrendAgainst(prior, name, |members|), IdsOf(members))
  {
    var ids: seq<string> := [];
    for k := 0 to |members|
      invariant ids == IdsOf(members[..k])
    {
      ids := ids + [members[k].mention.id];
      assert IdsOf(members[..k + 1]) == IdsOf(members[..k]) + [members[k].mention.id];
    }
    assert members[..|members|] == members;
    var trend := TrendAgainst(prior, name, |members|);
    if brand == "" || trend <= 0.0 {
      return None;
    }
    return Some(Topic(brand, name, |members|, trend, ids));
  }

  /** Marks a group's rows; their ids move from the unmarked to the marked ones. */
  method MarkGroup(ids: seq<string>, group: seq<int>, grouped: array<bool>)
    requires |ids| == grouped.Length && Ascending(group) && InRange(group, |ids|)
    requires forall k :: 0 <= k < |group| ==> !grouped[group[k]]
    modifies grouped
    ensures IdsWhere(ids, grouped[..], true, |ids|) ==
      old(IdsWhere(ids, grouped[..], true, |ids|)) + multiset(seq(|group|, k requires 0 <= k < |group| => ids[group[k]]))
    ensures forall i :: 0 <= i < grouped.Length && i !in group ==> grouped[i] == old(grouped[i])
  {
    ghost var before := grouped[..];
    ghost var names := seq(|group|, k requires 0 <= k < |group| => ids[group[k]]);
    for k := 0 to |group|
      invariant MarkedTo(ids, group, before, grouped[..], names, k)
    {
      MarkNext(ids, group, before, grouped[..], names, k);
      ghost var flags := grouped[..];
      grouped[group[k]] := true;
      assert grouped[..] == flags[group[k] := true];
    }
    assert names[..|group|] == names;
  }

  /** The first `k` rows of the group are marked, and nothing outside it changed. */
  ghost predicate MarkedTo(ids: seq<string>, group: seq<int>, before: seq<bool>, flags: seq<bool>, names: seq<string>, k: nat) {
    && |ids| == |before| == |flags| && |names| == |group| && InRange(group, |ids|) && k <= |group|
    && (forall l :: k <= l < |group| ==> !flags[group[l]])
    && (forall i :: 0 <= i < |flags| && i !in group ==> flags[i] == before[i])
    && IdsWhere(ids, flags, true, |ids|) == IdsWhere(ids, before, true, |ids|) + multiset(names[..k])
  }

  lemma MarkNext(ids: seq<string>, group: seq<int>, before: seq<bool>, flags: seq<bool>, names: seq<string>, k: nat)
    requires k < |group| && Ascending(group) && MarkedTo(ids, group, before, flags, names, k) && names[k] == ids[group[k]]
    ensures MarkedTo(ids, group, before, flags[group[k] := true], names, k + 1)
  {
    RaisingAFlag(ids, flags, group[k], |ids|);
    assert names[..k + 1] == names[..k] + [ids[group[k]]];
    assert group[k] in group;
  }

  /** The topics of the first `n` groups: one per group that the oracle names and whose
      topic validates, carrying exactly that group's mentions. */
  function TopicsFrom(brand: string, prior: map<string, int>, onBrand: seq<EnrichedMention>,
                      groups: seq<seq<int>>, oracle: nat -> Labelling, n: nat): seq<Topic>
    requires n <= |groups| && forall k :: 0 <= k < |groups| ==> InRange(groups[k], |onBrand|)
  {
    if n == 0 then [] else
      var topic := TopicOf(brand, prior, onBrand, groups[n - 1], oracle(n - 1).name);
      TopicsFrom(brand, prior, onBrand, groups, oracle, n - 1) + (if topic.Some? then [topic.value] else [])
  }

  /** The rows of `groups[from..]` are still unmarked. */
  ghost predicate Unmarked(groups: seq<seq<int>>, flags: seq<bool>, from: nat) {
    forall k, i :: from <= k < |groups| && i in groups[k] && 0 <= i < |flags| ==> !flags[i]
  }

  ghost predicate WellBuilt(topic: Topic, minSize: int) {
    topic.size == |topic.mentionIds| >= minSize && topic.trend > 0.0
  }

  /** Labels group `g`, the groups before it having made `topics`. */
  method LabelNext(brand: string, prior: map<string, int>, onBrand: seq<EnrichedMention>, groups: seq<seq<int>>, g: nat,
                   name: Option<string>, grouped: array<bool>, ghost topics: seq<Topic>) returns (topic: Option<Topic>)
    requires DisjointGroups(groups, |onBrand|) && g < |groups| && LabelledTo(onBrand, groups, topics, grouped[..], g)
    modifies grouped
    ensures topic == TopicOf(brand, prior, onBrand, groups[g], name)
    ensures topic.None? ==> LabelledTo(onBrand, groups, topics, grouped[..], g + 1)
    ensures topic.Some? ==> LabelledTo(onBrand, groups, topics + [topic.value], grouped[..], g + 1)
  {
    NextUnmarked(groups, grouped[..], g, |onBrand|);
    ghost var flags := grouped[..];
    topic := LabelGroup(brand, prior, onBrand, groups[g], name, grouped);
    LabelStep(onBrand, groups, topics, topic, flags, grouped[..], g);
  }

  /** Names each group; a named and valid one becomes a topic and its rows are marked. */
  method LabelGroups(brand: string, prior: map<string, int>, onBrand: seq<EnrichedMention>, groups: seq<seq<int>>,
                     oracle: nat -> Labelling, grouped: array<bool>)
    returns (topics: seq<Topic>, tokens: nat, cost: real, errors: nat)
    requires DisjointGroups(groups, |onBrand|) && grouped.Length == |onBrand|
    requires forall i :: 0 <= i < grouped.Length ==> !grouped[i]
    modifies grouped
    ensures TopicIds(topics) == IdsWhere(IdsOf(onBrand), grouped[..], true, |onBrand|)
    ensures topics == TopicsFrom(brand, prior, onBrand, groups, oracle, |groups|)
    ensures |topics| + errors == |groups|
    ensures tokens == TokensOf(oracle, |groups|) && cost == CostOf(oracle, |groups|)
  {
    topics, tokens, cost, errors := [], 0, 0.0, 0;
    NoFlags(IdsOf(onBrand), grouped[..], |onBrand|);
    for g := 0 to |groups|
      invariant LabelledTo(onBrand, groups, topics, grouped[..], g)
      invariant IsTopicsFrom(topics, brand, prior, onBrand, groups, oracle, g)
      invariant |topics| + errors == g && tokens == TokensOf(oracle, g) && cost == CostOf(oracle, g)
    {
      tokens, cost := tokens + oracle(g).tokens, cost + oracle(g).cost;
      var topic := LabelNext(brand, prior, onBrand, groups, g, oracle(g).name, grouped, topics);
      NextTopic(topics, topic, brand, prior, onBrand, groups, oracle, g);
      match topic
      case None =>
        errors := errors + 1;
      case Some(t) =>
        topics := topics + [t];
    }
  }

  ghost predicate IsTopicsFrom(topics: seq<Topic>, brand: string, prior: map<string, int>, onBrand: seq<EnrichedMention>,
                               groups: seq<seq<int>>, oracle: nat -> Labelling, n: nat)
    requires n <= |groups| && forall k :: 0 <= k < |groups| ==> InRange(groups[k], |onBrand|)
  {
    topics == TopicsFrom(brand, prior, onBrand, groups, oracle, n)
  }

  lemma NextTopic(topics: seq<Topic>, topic: Option<Topic>, brand: string, prior: map<string, int>, onBrand: seq<EnrichedMention>,
                  groups: seq<seq<int>>, oracle: nat -> Labelling, g: nat)
    requires g < |groups| && forall k :: 0 <= k < |groups| ==> InRange(groups[k], |onBrand|)
    requires IsTopicsFrom(topics, brand, prior, onBrand, groups, oracle, g)
    requires topic == TopicOf(brand, prior, onBrand, groups[g], oracle(g).name)
    ensures topic.None? ==> IsTopicsFrom(topics, brand, prior, onBrand, groups, oracle, g + 1)
    ensures topic.Some? ==> IsTopicsFrom(topics + [topic.value], brand, prior, onBrand, groups, oracle, g + 1)
  {
  }

  /** After `g` groups the marked rows are those of the topics, and later groups are unmarked. */
  ghost predicate LabelledTo(onBrand: seq<EnrichedMention>, groups: seq<seq<int>>, topics: seq<Topic>, flags: seq<bool>, g: nat) {
    && |flags| == |onBrand|
    && Unmarked(groups, flags, g)
    && TopicIds(topics) == IdsWhere(IdsOf(onBrand), flags, true, |onBrand|)
  }

  lemma LabelStep(onBrand: seq<EnrichedMention>, groups: seq<seq<int>>, topics: seq<Topic>, topic: Option<Topic>,
                  before: seq<bool>, after: seq<bool>, g: nat)
    requires DisjointGroups(groups, |onBrand|) && g < |groups| && |after| == |onBrand|
    requires LabelledTo(onBrand, groups, topics, before, g)
    requires forall i :: 0 <= i < |onBrand| && i !in groups[g] ==> after[i] == before[i]
    requires topic.Some? ==> topic.value.mentionIds == GroupIds(onBrand, groups[g])
    requires IdsWhere(IdsOf(onBrand), after, true, |onBrand|) ==
      IdsWhere(IdsOf(onBrand), before, true, |onBrand|) +
      (if topic.Some? then multiset(GroupIds(onBrand, groups[g])) else multiset{})
    ensures topic.None? ==> LabelledTo(onBrand, groups, topics, after, g + 1)
    ensures topic.Some? ==> LabelledTo(onBrand, groups, topics + [topic.value], after, g + 1)
  {
    StillUnmarked(groups, before, after, g, |onBrand|);
    if topic.Some? {
      TopicAppended(topics, topic.value);
    }
  }

  lemma TopicAppended(topics: seq<Topic>, topic: Topic)
    ensures TopicIds(topics + [topic]) == TopicIds(topics) + multiset(topic.mentionIds)
  {
    assert (topics + [topic])[..|topics|] == topics;
  }

  lemma {:induction false} TopicsWellBuilt(brand: string, prior: map<string, int>, onBrand: seq<EnrichedMention>,
                                           groups: seq<seq<int>>, oracle: nat -> Labelling, n: nat, minSize: int)
    requires n <= |groups| && forall k :: 0 <= k < |groups| ==> InRange(groups[k], |onBrand|) && |groups[k]| >= minSize
    ensures forall t :: t in TopicsFrom(brand, prior, onBrand, groups, oracle, n) ==> WellBuilt(t, minSize)
  {
    if n > 0 {
      TopicsWellBuilt(brand, prior, onBrand, groups, oracle, n - 1, minSize);
    }
  }

  /** The topic a named group becomes, if it validates. */
  function TopicOf(brand: string, prior: map<string, int>, onBrand: seq<EnrichedMention>, group: seq<int>, name: Option<string>): Option<Topic>
    requires InRange(group, |onBrand|)
  {
    if name.Some? && brand != "" && TrendAgainst(prior, name.value, |group|) > 0.0 then
      Some(Topic(brand, name.value, |group|, TrendAgainst(prior, name.value, |group|), GroupIds(onBrand, group)))
    else None
  }

  method LabelGroup(brand: string, prior: map<string, int>, onBrand: seq<EnrichedMention>, group: seq<int>,
                    name: Option<string>, grouped: array<bool>) returns (topic: Option<Topic>)
    requires grouped.Length == |onBrand| && Ascending(group) && InRange(group, |onBrand|)
    requires forall k :: 0 <= k < |group| ==> !grouped[..][group[k]]
    modifies grouped
    ensures topic == TopicOf(brand, prior, onBrand, group, name)
    ensures IdsWhere(IdsOf(onBrand), grouped[..], true, |onBrand|) ==
      old(IdsWhere(IdsOf(onBrand), grouped[..], true, |onBrand|)) +
      (if topic.Some? then multiset(GroupIds(onBrand, group)) else multiset{})
    ensures forall i :: 0 <= i < grouped.Length && i !in group ==> grouped[i] == old(grouped[i])
  {
    if name.None? {
      return None;
    }
    var members := MembersOf(onBrand, group);
    topic := BuildTopic(brand, prior, name.value, members);
    assert IdsOf(members) == GroupIds(onBrand, group);
    if topic.Some? {
      var ids := IdsOf(onBrand);
      assert GroupIds(onBrand, group) == seq(|group|, k requires 0 <= k < |group| => ids[group[k]]);
      MarkGroup(ids, group, grouped);
    }
  }

  lemma NextUnmarked(groups: seq<seq<int>>, flags: seq<bool>, g: nat, n: nat)
    requires DisjointGroups(groups, n) && g < |groups| && |flags| == n && Unmarked(groups, flags, g)
    ensures forall k :: 0 <= k < |groups[g]| ==> !flags[groups[g][k]]
  {
    forall k | 0 <= k < |groups[g]| ensures !flags[groups[g][k]] {
      var i := groups[g][k];
      assert i in groups[g];
    }
  }

  lemma StillUnmarked(groups: seq<seq<int>>, before: seq<bool>, after: seq<bool>, g: nat, n: nat)
    requires DisjointGroups(groups, n) && g < |groups| && |before| == |after| == n
    requires Unmarked(groups, before, g)
    requires forall i :: 0 <= i < n && i !in groups[g] ==> after[i] == before[i]
    ensures Unmarked(groups, after, g + 1)
  {
  }

  function TokensOf(oracle: nat -> Labelling, n: nat): nat {
    if n == 0 then 0 else TokensOf(oracle, n - 1) + oracle(n - 1).tokens
  }

  function CostOf(oracle: nat -> Labelling, n: nat): real {
    if n == 0 then 0.0 else CostOf(oracle, n - 1) + oracle(n - 1).cost
  }

  method UngroupedIds(onBrand: seq<EnrichedMention>, grouped: array<bool>) returns (unclustered: seq<string>)
    requires grouped.Length == |onBrand|
    ensures multiset(unclustered) == IdsWhere(IdsOf(onBrand), grouped[..], false, |onBrand|)
  {
    unclustered := [];
    ghost var flags := grouped[..];
    for i := 0 to |onBrand|
      invariant grouped[..] == flags && multiset(unclustered) == IdsWhere(IdsOf(onBrand), flags, false, i)
    {
      IdsWhereNext(IdsOf(onBrand), flags, false, i);
      if !grouped[i] {
        unclustered := unclustered + [onBrand[i].mention.id];
      }
    }
  }

  method TextsOf(onBrand: seq<EnrichedMention>, tokenise: string -> seq<string>) returns (docs: seq<seq<string>>)
    ensures docs == Docs(onBrand, tokenise)
  {
    docs := [];
    for i := 0 to |onBrand|
      invariant |docs| == i && forall k :: 0 <= k < i ==> docs[k] == tokenise(onBrand[k].mention.text)
    {
      docs := docs + [tokenise(onBrand[i].mention.text)];
    }
  }

  /** What the handler promises about its output: every on-brand mention is in a topic or in
      Unclustered, exactly once; a topic is never smaller than the minimum size; there are at
      most as many as may be labelled; and no topics at all comes with a reason. */
  ghost predicate Accounted(out: TopicSet, onBrand: seq<EnrichedMention>, minSize: int) {
    && TopicIds(out.topics) + multiset(out.unclustered) == multiset(IdsOf(onBrand))
    && |out.topics| <= MAX_LABELLED_CLUSTERS
    && (|out.topics| == 0 ==> out.errors > 0)
    && forall t :: t in out.topics ==> WellBuilt(t, minSize)
  }

  function Capped(groups: seq<seq<int>>): (capped: seq<seq<int>>)
    ensures capped <= groups && |capped| == if |groups| < 8 then |groups| else 8
  {
    if |groups| > MAX_LABELLED_CLUSTERS then groups[..MAX_LABELLED_CLUSTERS] else groups
  }

  /** Every labelled cluster is paid for, named or not. What became no topic has an error each,
      and so has a window without clusters or with more than may be labelled. */
  ghost predicate Billed(out: TopicSet, groups: seq<seq<int>>, oracle: nat -> Labelling) {
    && out.tokens == TokensOf(oracle, |Capped(groups)|) && out.cost == CostOf(oracle, |Capped(groups)|)
    && |out.topics| + out.errors == |Capped(groups)| + (if 0 < |groups| <= MAX_LABELLED_CLUSTERS then 0 else 1)
  }

  function Docs(onBrand: seq<EnrichedMention>, tokenise: string -> seq<string>): (docs: seq<seq<string>>)
    ensures |docs| == |onBrand|
    ensures forall k :: 0 <= k < |onBrand| ==> docs[k] == tokenise(onBrand[k].mention.text)
  {
    seq(|onBrand|, i requires 0 <= i < |onBrand| => tokenise(onBrand[i].mention.text))
  }

  /** The topics are those of the first eight clusters of the window's TF-IDF matrix, and what
      the labelling of those eight used is reported. */
  ghost predicate FromClusters(out: TopicSet, brand: string, onBrand: seq<EnrichedMention>, minSize: int, prior: map<string, int>,
                               tokenise: string -> seq<string>, oracle: nat -> Labelling, log: real -> real, sqrt: real -> real)
    requires IsSqrt(sqrt)
  {
    if |onBrand| == 0 then out.tokens == 0 && out.cost == 0.0
    else
      exists m: Matrix :: IsTfidf(m, Docs(onBrand, tokenise), log, sqrt) && Rectangular(m.rows) &&
        var groups := Collected(FinalPartition(m.rows, DISTANCE_CUTOFF), minSize);
        (forall k :: 0 <= k < |Capped(groups)| ==> InRange(Capped(groups)[k], |onBrand|)) &&
        out.topics == TopicsFrom(brand, prior, onBrand, Capped(groups), oracle, |Capped(groups)|) && Billed(out, groups, oracle)
  }

  method Handle(brand: string, enriched: seq<EnrichedMention>, requestedMinSize: int, prior: map<string, int>,
                tokenise: string -> seq<string>, oracle: nat -> Labelling, log: real -> real, sqrt: real -> real)
    returns (out: TopicSet)
    requires IsSqrt(sqrt)
    ensures Accounted(out, OnBrand(enriched), MinClusterSize(requestedMinSize))
    ensures FromClusters(out, brand, OnBrand(enriched), MinClusterSize(requestedMinSize), prior, tokenise, oracle, log, sqrt)
  {
    var onBrand := OnBrandMentions(enriched);
    if |onBrand| == 0 {
      return TopicSet([], [], 0, 0.0, 1);
    }
    var docs := TextsOf(onBrand, tokenise);
    var minSize := MinClusterSize(requestedMinSize);
    var matrix := TFIDF(docs, log, sqrt);
    RowsAreNormalised(matrix, docs, log, sqrt);
    var result := Agglomerate(matrix.rows, DISTANCE_CUTOFF, minSize);
    GroupsOfMatrix(matrix.rows, minSize);
    out := NameAndSplit(brand, prior, onBrand, result.value, oracle, minSize);
    ClustersWitness(out, brand, onBrand, minSize, prior, tokenise, oracle, log, sqrt, matrix);
  }

  lemma GroupsOfMatrix(rows: seq<seq<real>>, minSize: int)
    requires Rectangular(rows)
    ensures var groups := Collected(FinalPartition(rows, DISTANCE_CUTOFF), minSize);
      DisjointGroups(groups, |rows|) && forall k :: 0 <= k < |groups| ==> |groups[k]| >= minSize
  {
    FinalClustersAreApart(rows, DISTANCE_CUTOFF);
    CollectedDisjoint(FinalPartition(rows, DISTANCE_CUTOFF), |rows|, minSize);
    var groups := Collected(FinalPartition(rows, DISTANCE_CUTOFF), minSize);
    forall k | 0 <= k < |groups| ensures Ascending(groups[k]) && InRange(groups[k], |rows|) && |groups[k]| >= minSize {
      var g := groups[k];
      assert g in groups;
    }
  }

  lemma ClustersWitness(out: TopicSet, brand: string, onBrand: seq<EnrichedMention>, minSize: int, prior: map<string, int>,
                        tokenise: string -> seq<string>, oracle: nat -> Labelling, log: real -> real, sqrt: real -> real, m: Matrix)
    requires IsSqrt(sqrt) && IsTfidf(m, Docs(onBrand, tokenise), log, sqrt) && Rectangular(m.rows)
    requires |onBrand| > 0
    requires var groups := Collected(FinalPartition(m.rows, DISTANCE_CUTOFF), minSize);
      (forall k :: 0 <= k < |Capped(groups)| ==> InRange(Capped(groups)[k], |onBrand|)) &&
      out.topics == TopicsFrom(brand, prior, onBrand, Capped(groups), oracle, |Capped(groups)|) && Billed(out, groups, oracle)
    ensures FromClusters(out, brand, onBrand, minSize, prior, tokenise, oracle, log, sqrt)
  {
  }

  /** The part after clustering: cap the groups, label them, and list what is left. */
  method NameAndSplit(brand: string, prior: map<string, int>, onBrand: seq<EnrichedMention>, groups: seq<seq<int>>,
                      oracle: nat -> Labelling, minSize: int) returns (out: TopicSet)
    requires DisjointGroups(groups, |onBrand|)
    requires forall k :: 0 <= k < |groups| ==> |groups[k]| >= minSize
    ensures Accounted(out, onBrand, minSize) && Billed(out, groups, oracle)
    ensures out.topics == TopicsFrom(brand, prior, onBrand, Capped(groups), oracle, |Capped(groups)|)
  {
    var errors := if |groups| == 0 then 1 else 0;
    var labelled := groups;
    if |groups| > MAX_LABELLED_CLUSTERS {
      labelled := groups[..MAX_LABELLED_CLUSTERS];
      errors := errors + 1;
    }
    var grouped := new bool[|onBrand|](i => false);
    var topics, tokens, cost, failed := LabelGroups(brand, prior, onBrand, labelled, oracle, grouped);
    TopicsWellBuilt(brand, prior, onBrand, labelled, oracle, |labelled|, minSize);
    var unclustered := UngroupedIds(onBrand, grouped);
    FlagsSplitIds(IdsOf(onBrand), grouped[..], |onBrand|);
    assert IdsOf(onBrand)[..|onBrand|] == IdsOf(onBrand);
    out := TopicSet(topics, unclustered, tokens, cost, errors + failed);
  }
}
