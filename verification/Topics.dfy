/** What the clusterer's topics say, cluster by cluster: `buildTopic`, `trendAgainst` and
  `onBrandMentions` in `agents/bp-clusterer/handler.go`. */
module Topics {
  import opened Outcomes
  import opened Models
  import opened Ordering
  import L = Lists
  import opened Positions
  import opened Linkage
  import opened Clusterer

  /** What is clustered are the mentions about the brand, in the window's order. */
  lemma ClusteredAreOnBrand(enriched: seq<EnrichedMention>) returns (at: seq<nat>)
    ensures Positions.Ascending(at) && |at| == |OnBrand(enriched)|
    ensures forall k: nat :: k in at <==> k < |enriched| && enriched[k].enrichment.aboutBrand
    ensures forall i :: 0 <= i < |at| ==> at[i] < |enriched| && OnBrand(enriched)[i] == enriched[at[i]]
  {
    at := Where(AboutBrand, enriched);
    WhereIsFilter(AboutBrand, enriched);
  }

  /** The topic says what its cluster is: its name, the ids of its members in their order, their
      number, and that number over the count of the name in the window before. */
  ghost predicate Describes(t: Topic, brand: string, name: string, prior: map<string, int>, onBrand: seq<EnrichedMention>, group: seq<int>) {
    && InRange(group, |onBrand|) && t.brand == brand && t.name == name
    && t.size == |group| == |t.mentionIds| && (forall k :: 0 <= k < |group| ==> t.mentionIds[k] == onBrand[group[k]].mention.id)
    && (if name in prior && prior[name] > 0 then t.trend * prior[name] as real == |group| as real else t.trend == 1.0)
  }

  /** A cluster that is not empty becomes a topic exactly when it is named and the brand has an id. */
  ghost predicate Named(brand: string, name: Option<string>) { brand != "" && name.Some? }

  lemma TrendIsPositive(prior: map<string, int>, name: string, size: nat)
    requires size > 0
    ensures TrendAgainst(prior, name, size) > 0.0
  {
    if name in prior && prior[name] > 0 {
      var trend, count := TrendAgainst(prior, name, size), prior[name] as real;
      if trend <= 0.0 {
        NotPositive(trend, count);
      }
    }
  }

  lemma NotPositive(a: real, b: real)
    requires a <= 0.0 && b > 0.0
    ensures a * b <= 0.0
  {
  }

  lemma TopicDescribes(brand: string, prior: map<string, int>, onBrand: seq<EnrichedMention>, group: seq<int>, name: Option<string>)
    requires InRange(group, |onBrand|) && |group| > 0
    ensures TopicOf(brand, prior, onBrand, group, name).Some? <==> Named(brand, name)
    ensures TopicOf(brand, prior, onBrand, group, name).Some? ==>
      Describes(TopicOf(brand, prior, onBrand, group, name).value, brand, name.value, prior, onBrand, group)
  {
    if name.Some? {
      TrendIsPositive(prior, name.value, |group|);
    }
  }

  /** `topics` describe the named ones of the first `n` clusters, which stand at `at`. */
  ghost predicate DescribeNamed(topics: seq<Topic>, at: seq<nat>, brand: string, prior: map<string, int>, onBrand: seq<EnrichedMention>,
                                groups: seq<seq<int>>, oracle: nat -> Labelling, n: nat) {
    && Positions.Ascending(at) && |at| == |topics| && (forall g: nat :: g in at <==> g < n && Named(brand, oracle(g).name))
    && forall i :: 0 <= i < |at| ==>
         at[i] < |groups| && oracle(at[i]).name.Some? &&
         Describes(topics[i], brand, oracle(at[i]).name.value, prior, onBrand, groups[at[i]])
  }

  lemma OneMoreNamed(topics: seq<Topic>, at: seq<nat>, t: Topic, brand: string, prior: map<string, int>, onBrand: seq<EnrichedMention>,
                     groups: seq<seq<int>>, oracle: nat -> Labelling, n: nat)
    requires DescribeNamed(topics, at, brand, prior, onBrand, groups, oracle, n) && n < |groups|
    requires Named(brand, oracle(n).name) && Describes(t, brand, oracle(n).name.value, prior, onBrand, groups[n])
    ensures DescribeNamed(topics + [t], at + [n], brand, prior, onBrand, groups, oracle, n + 1)
  {
    forall i | 0 <= i < |at| ensures at[i] < n {
      assert at[i] in at;
    }
  }

  lemma OneMoreUnnamed(topics: seq<Topic>, at: seq<nat>, brand: string, prior: map<string, int>, onBrand: seq<EnrichedMention>,
                       groups: seq<seq<int>>, oracle: nat -> Labelling, n: nat)
    requires DescribeNamed(topics, at, brand, prior, onBrand, groups, oracle, n) && !Named(brand, oracle(n).name)
    ensures DescribeNamed(topics, at, brand, prior, onBrand, groups, oracle, n + 1)
  {
  }

  lemma TopicsNext(brand: string, prior: map<string, int>, onBrand: seq<EnrichedMention>, groups: seq<seq<int>>, oracle: nat -> Labelling, n: nat)
    requires n < |groups| && forall k :: 0 <= k < |groups| ==> InRange(groups[k], |onBrand|)
    ensures var topic := TopicOf(brand, prior, onBrand, groups[n], oracle(n).name);
      TopicsFrom(brand, prior, onBrand, groups, oracle, n + 1) ==
        if topic.Some? then TopicsFrom(brand, prior, onBrand, groups, oracle, n) + [topic.value]
        else TopicsFrom(brand, prior, onBrand, groups, oracle, n)
  {
  }

  /** The topics describe the clusters that are named, each one, in the clusters' order. */
  lemma {:induction false} TopicsDescribeClusters(brand: string, prior: map<string, int>, onBrand: seq<EnrichedMention>,
                                                  groups: seq<seq<int>>, oracle: nat -> Labelling, n: nat) returns (at: seq<nat>)
    requires n <= |groups| && forall k :: 0 <= k < |groups| ==> InRange(groups[k], |onBrand|) && |groups[k]| > 0
    ensures DescribeNamed(TopicsFrom(brand, prior, onBrand, groups, oracle, n), at, brand, prior, onBrand, groups, oracle, n)
  {
    if n == 0 {
      at := [];
    } else {
      at := TopicsDescribeClusters(brand, prior, onBrand, groups, oracle, n - 1);
      var topics := TopicsFrom(brand, prior, onBrand, groups, oracle, n - 1);
      TopicDescribes(brand, prior, onBrand, groups[n - 1], oracle(n - 1).name);
      TopicsNext(brand, prior, onBrand, groups, oracle, n - 1);
      var topic := TopicOf(brand, prior, onBrand, groups[n - 1], oracle(n - 1).name);
      match topic
      case None => OneMoreUnnamed(topics, at, brand, prior, onBrand, groups, oracle, n - 1);
      case Some(t) =>
        OneMoreNamed(topics, at, t, brand, prior, onBrand, groups, oracle, n - 1);
        at := at + [n - 1];
    }
  }

  /** Every labelling is paid for, named or not: each one adds its tokens and its cost. */
  lemma EveryLabellingIsPaid(oracle: nat -> Labelling)
    ensures TokensOf(oracle, 0) == 0 && forall k: nat :: TokensOf(oracle, k + 1) == TokensOf(oracle, k) + oracle(k).tokens
    ensures CostOf(oracle, 0) == 0.0 && forall k: nat :: CostOf(oracle, k + 1) == CostOf(oracle, k) + oracle(k).cost
  {
    forall k: nat
      ensures TokensOf(oracle, k + 1) == TokensOf(oracle, k) + oracle(k).tokens
      ensures CostOf(oracle, k + 1) == CostOf(oracle, k) + oracle(k).cost
    {
      assert k + 1 > 0;
    }
  }
}
