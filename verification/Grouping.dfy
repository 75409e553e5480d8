/** Mentions by source and UTC hour: `groupBySourceHour` in `agents/bp-detector/rules.go`.

  `bucket` stands for `stats.HourBucket`, which writes an hour as `2006-01-02T15`. */
module Grouping {
  import opened Models
  import opened Ordering
  import opened Lists
  import opened HourlyCounts

  /** The label of an hour names that hour only, and has none of the separators. */
  ghost predicate IsBucketing(bucket: int -> string) {
    && (forall g, h :: bucket(g) == bucket(h) ==> g == h)
    && forall h :: ':' !in bucket(h) && '|' !in bucket(h)
  }

  datatype Group = Group(source: string, hour: int, mentions: seq<EnrichedMention>)

  type Keep = EnrichedMention -> bool

  function HourOf(em: EnrichedMention): int { HourAt(em.mention.postedAt, 0) }

  // ---------------------------------------------------------------- what the groups should be

  function Belongs(keep: Keep, source: string, hour: int): Keep {
    (em: EnrichedMention) => keep(em) && em.mention.source == source && HourOf(em) == hour
  }

  function GroupAt(enriched: seq<EnrichedMention>, keep: Keep, source: string, hour: int): Group {
    Group(source, hour, Filter(Belongs(keep, source, hour), enriched))
  }

  predicate Opens(enriched: seq<EnrichedMention>, keep: Keep, em: EnrichedMention) {
    keep(em) && |GroupAt(enriched, keep, em.mention.source, HourOf(em)).mentions| == 0
  }

  /** One group for each source and hour that has a kept mention, in order of appearance. */
  function Unsorted(enriched: seq<EnrichedMention>, all: seq<EnrichedMention>, keep: Keep): seq<Group> {
    if |enriched| == 0 then [] else
      var rest, last := enriched[..|enriched| - 1], enriched[|enriched| - 1];
      Unsorted(rest, all, keep) + (if Opens(rest, keep, last) then [GroupAt(all, keep, last.mention.source, HourOf(last))] else [])
  }

  predicate GroupLess(bucket: int -> string, a: Group, b: Group) {
    if bucket(a.hour) != bucket(b.hour) then StringLess(bucket(a.hour), bucket(b.hour)) else StringLess(a.source, b.source)
  }

  function Before(bucket: int -> string): (Group, Group) -> bool { (a: Group, b: Group) => GroupLess(bucket, a, b) }

  function Groups(enriched: seq<EnrichedMention>, keep: Keep, bucket: int -> string): seq<Group> {
    Sort(Before(bucket), Unsorted(enriched, enriched, keep))
  }

  // ---------------------------------------------------------------- what the definition means

  ghost predicate IsGroup(g: Group, enriched: seq<EnrichedMention>, keep: Keep) {
    g == GroupAt(enriched, keep, g.source, g.hour) && |g.mentions| > 0
  }

  lemma {:induction false} UnsortedElements(part: seq<EnrichedMention>, all: seq<EnrichedMention>, keep: Keep, g: Group)
    ensures g in Unsorted(part, all, keep) <==>
            g == GroupAt(all, keep, g.source, g.hour) && |GroupAt(part, keep, g.source, g.hour).mentions| > 0
  {
    if |part| > 0 {
      UnsortedElements(part[..|part| - 1], all, keep, g);
    }
  }

  lemma {:induction false} UnsortedDistinct(part: seq<EnrichedMention>, all: seq<EnrichedMention>, keep: Keep)
    ensures Distinct(Unsorted(part, all, keep))
  {
    if |part| > 0 {
      var rest, last := part[..|part| - 1], part[|part| - 1];
      UnsortedDistinct(rest, all, keep);
      UnsortedElements(rest, all, keep, GroupAt(all, keep, last.mention.source, HourOf(last)));
    }
  }

  lemma BucketOrder(bucket: int -> string)
    requires IsBucketing(bucket)
    ensures StrictWeak(Before(bucket))
    ensures forall a, b :: !Before(bucket)(a, b) && !Before(bucket)(b, a) ==> a.source == b.source && a.hour == b.hour
  {
    StringOrder();
  }

  lemma GroupsElements(enriched: seq<EnrichedMention>, keep: Keep, bucket: int -> string, g: Group)
    ensures g in Groups(enriched, keep, bucket) <==> IsGroup(g, enriched, keep)
  {
    SortElements(Before(bucket), Unsorted(enriched, enriched, keep));
    SameElements(Groups(enriched, keep, bucket), Unsorted(enriched, enriched, keep));
    UnsortedElements(enriched, enriched, keep, g);
  }

  lemma GroupsDistinct(enriched: seq<EnrichedMention>, keep: Keep, bucket: int -> string)
    ensures Distinct(Groups(enriched, keep, bucket))
  {
    SortElements(Before(bucket), Unsorted(enriched, enriched, keep));
    UnsortedDistinct(enriched, enriched, keep);
    PermutationDistinct(Unsorted(enriched, enriched, keep), Groups(enriched, keep, bucket));
  }

  lemma GroupAtIsFound(enriched: seq<EnrichedMention>, keep: Keep, bucket: int -> string, gs: seq<Group>, k: nat)
    requires gs == Groups(enriched, keep, bucket) && k < |gs|
    ensures IsGroup(gs[k], enriched, keep)
  {
    var g := gs[k];
    assert g in gs;
    GroupsElements(enriched, keep, bucket, g);
  }

  /** The groups come in strictly increasing order of hour and source. */
  lemma GroupsIncrease(enriched: seq<EnrichedMention>, keep: Keep, bucket: int -> string, gs: seq<Group>, i: nat, j: nat)
    requires IsBucketing(bucket) && gs == Groups(enriched, keep, bucket) && i < j < |gs|
    ensures GroupLess(bucket, gs[i], gs[j])
    ensures StringLess(bucket(gs[i].hour), bucket(gs[j].hour)) || (gs[i].hour == gs[j].hour && StringLess(gs[i].source, gs[j].source))
    ensures gs[i].source != gs[j].source || gs[i].hour != gs[j].hour
  {
    BucketOrder(bucket);
    SortSorted(Before(bucket), Unsorted(enriched, enriched, keep));
    assert !Before(bucket)(gs[j], gs[i]);
    GroupsDistinct(enriched, keep, bucket);
    GroupAtIsFound(enriched, keep, bucket, gs, i);
    GroupAtIsFound(enriched, keep, bucket, gs, j);
    assert gs[i] != gs[j];
  }

  function Joined(gs: seq<Group>): seq<EnrichedMention> {
    if |gs| == 0 then [] else Joined(gs[..|gs| - 1]) + gs[|gs| - 1].mentions
  }

  lemma {:induction false} FilterCounts<T>(p: T -> bool, s: seq<T>, x: T)
    ensures multiset(Filter(p, s))[x] == if p(x) then multiset(s)[x] else 0
  {
    if |s| > 0 {
      var rest, last := s[..|s| - 1], s[|s| - 1];
      FilterCounts(p, rest, x);
      assert s == rest + [last];
      assert multiset(s) == multiset(rest) + multiset{last};
    }
  }

  /** How often `em` is in the first groups: as often as in the input, if its own group is
      among them. */
  lemma {:induction false} JoinedCounts(gs: seq<Group>, enriched: seq<EnrichedMention>, keep: Keep, em: EnrichedMention)
    requires forall k :: 0 <= k < |gs| ==> gs[k] == GroupAt(enriched, keep, gs[k].source, gs[k].hour)
    requires Distinct(gs)
    ensures multiset(Joined(gs))[em] ==
      if keep(em) && GroupAt(enriched, keep, em.mention.source, HourOf(em)) in gs then multiset(enriched)[em] else 0
  {
    if |gs| > 0 {
      var rest, last := gs[..|gs| - 1], gs[|gs| - 1];
      JoinedCounts(rest, enriched, keep, em);
      assert gs == rest + [last] && last !in rest;
      FilterCounts(Belongs(keep, last.source, last.hour), enriched, em);
      assert multiset(Joined(gs)) == multiset(Joined(rest)) + multiset(last.mentions);
    }
  }

  /** The groups hold every kept mention, each exactly as often as it came in. */
  lemma GroupsPartition(enriched: seq<EnrichedMention>, keep: Keep, bucket: int -> string)
    ensures multiset(Joined(Groups(enriched, keep, bucket))) == multiset(Filter(keep, enriched))
  {
    var gs := Groups(enriched, keep, bucket);
    GroupsDistinct(enriched, keep, bucket);
    forall k | 0 <= k < |gs| ensures gs[k] == GroupAt(enriched, keep, gs[k].source, gs[k].hour) {
      GroupAtIsFound(enriched, keep, bucket, gs, k);
    }
    forall em ensures multiset(Joined(gs))[em] == multiset(Filter(keep, enriched))[em] {
      JoinedCounts(gs, enriched, keep, em);
      FilterCounts(keep, enriched, em);
      if keep(em) && em in enriched {
        KeptMentionHasGroup(enriched, keep, bucket, em);
      } else if keep(em) {
        assert em !in multiset(enriched);
      }
    }
  }

  lemma KeptMentionHasGroup(enriched: seq<EnrichedMention>, keep: Keep, bucket: int -> string, em: EnrichedMention)
    requires em in enriched && keep(em)
    ensures GroupAt(enriched, keep, em.mention.source, HourOf(em)) in Groups(enriched, keep, bucket)
    ensures em in GroupAt(enriched, keep, em.mention.source, HourOf(em)).mentions
  {
    var g := GroupAt(enriched, keep, em.mention.source, HourOf(em));
    FilterElements(Belongs(keep, em.mention.source, HourOf(em)), enriched, em);
    assert em in g.mentions;
    GroupsElements(enriched, keep, bucket, g);
  }

  // ---------------------------------------------------------------- the code

  function KeyOf(bucket: int -> string, source: string, hour: int): string { source + ['|'] + bucket(hour) }

  lemma KeyInjective(bucket: int -> string, s1: string, h1: int, s2: string, h2: int)
    requires IsBucketing(bucket) && KeyOf(bucket, s1, h1) == KeyOf(bucket, s2, h2)
    ensures s1 == s2 && h1 == h2
  {
    JoinedKeysInjective(s1, bucket(h1), s2, bucket(h2), '|');
  }

  /** After some of the mentions, the map holds their groups under their keys. */
  ghost predicate Indexed(byKey: map<string, Group>, part: seq<EnrichedMention>, keep: Keep, bucket: int -> string) {
    && (forall key :: key in byKey ==> IsGroup(byKey[key], part, keep) && key == KeyOf(bucket, byKey[key].source, byKey[key].hour))
    && forall s, h :: |GroupAt(part, keep, s, h).mentions| > 0 ==> KeyOf(bucket, s, h) in byKey
  }

  lemma GroupAtGrows(part: seq<EnrichedMention>, em: EnrichedMention, keep: Keep, s: string, h: int)
    ensures GroupAt(part + [em], keep, s, h).mentions ==
      GroupAt(part, keep, s, h).mentions + (if Belongs(keep, s, h)(em) then [em] else [])
  {
    assert (part + [em])[..|part|] == part;
  }

  lemma IndexedSkips(byKey: map<string, Group>, part: seq<EnrichedMention>, em: EnrichedMention, keep: Keep, bucket: int -> string)
    requires Indexed(byKey, part, keep, bucket) && !keep(em)
    ensures Indexed(byKey, part + [em], keep, bucket)
  {
    forall s, h ensures GroupAt(part + [em], keep, s, h) == GroupAt(part, keep, s, h) {
      GroupAtGrows(part, em, keep, s, h);
    }
  }

  lemma GroupsAfter(part: seq<EnrichedMention>, em: EnrichedMention, keep: Keep, s: string, h: int)
    requires keep(em)
    ensures var g := GroupAt(part, keep, em.mention.source, HourOf(em));
      GroupAt(part + [em], keep, s, h) ==
      if s == g.source && h == g.hour then g.(mentions := g.mentions + [em]) else GroupAt(part, keep, s, h)
  {
    GroupAtGrows(part, em, keep, s, h);
  }

  lemma IndexedGrows(byKey: map<string, Group>, part: seq<EnrichedMention>, em: EnrichedMention, keep: Keep, bucket: int -> string, g: Group)
    requires IsBucketing(bucket) && Indexed(byKey, part, keep, bucket) && keep(em)
    requires g == GroupAt(part, keep, em.mention.source, HourOf(em))
    ensures Indexed(byKey[KeyOf(bucket, g.source, g.hour) := g.(mentions := g.mentions + [em])], part + [em], keep, bucket)
  {
    var key := KeyOf(bucket, g.source, g.hour);
    var after := byKey[key := g.(mentions := g.mentions + [em])];
    forall k | k in after ensures IsGroup(after[k], part + [em], keep) && k == KeyOf(bucket, after[k].source, after[k].hour) {
      GroupsAfter(part, em, keep, after[k].source, after[k].hour);
      if k != key {
        assert IsGroup(byKey[k], part, keep);
      }
    }
    forall s, h | |GroupAt(part + [em], keep, s, h).mentions| > 0 ensures KeyOf(bucket, s, h) in after {
      GroupsAfter(part, em, keep, s, h);
    }
  }

  method GroupBySourceHour(enriched: seq<EnrichedMention>, keep: Keep, bucket: int -> string) returns (out: seq<Group>)
    requires IsBucketing(bucket)
    ensures out == Groups(enriched, keep, bucket)
  {
    var byKey: map<string, Group> := map[];
    for k := 0 to |enriched|
      invariant Indexed(byKey, enriched[..k], keep, bucket)
    {
      var em := enriched[k];
      assert enriched[..k + 1] == enriched[..k] + [em];
      if !keep(em) {
        IndexedSkips(byKey, enriched[..k], em, keep, bucket);
        continue;
      }
      var key := KeyOf(bucket, em.mention.source, HourOf(em));
      var g := Opened(byKey, enriched[..k], em, keep, bucket);
      IndexedGrows(byKey, enriched[..k], em, keep, bucket, g);
      byKey := byKey[key := g.(mentions := g.mentions + [em])];
    }
    assert enriched[..|enriched|] == enriched;
    out := Walk(byKey);
    WalkIsGroups(byKey, out, enriched, keep, bucket);
    out := Sort(Before(bucket), out);
  }

  /** The mention's group so far, or a new one. */
  method Opened(byKey: map<string, Group>, ghost part: seq<EnrichedMention>, em: EnrichedMention, keep: Keep, bucket: int -> string)
    returns (g: Group)
    requires IsBucketing(bucket) && Indexed(byKey, part, keep, bucket)
    ensures g == GroupAt(part, keep, em.mention.source, HourOf(em))
  {
    var key := KeyOf(bucket, em.mention.source, HourOf(em));
    if key in byKey {
      g := byKey[key];
      KeyInjective(bucket, g.source, g.hour, em.mention.source, HourOf(em));
    } else {
      g := Group(em.mention.source, HourOf(em), []);
    }
  }

  ghost predicate ListsValues(out: seq<Group>, byKey: map<string, Group>) {
    && (forall g :: g in out <==> exists key :: key in byKey && byKey[key] == g)
  }

  /** A walk over the map, in any order. */
  method Walk(byKey: map<string, Group>) returns (out: seq<Group>)
    requires forall k, l :: k in byKey && l in byKey && byKey[k] == byKey[l] ==> k == l
    ensures Distinct(out) && ListsValues(out, byKey)
  {
    out := [];
    var todo := byKey.Keys;
    while todo != {}
      invariant todo <= byKey.Keys && Distinct(out)
      invariant forall g :: g in out <==> exists key :: key in byKey && key !in todo && byKey[key] == g
      decreases todo
    {
      var key :| key in todo;
      assert byKey[key] !in out;
      out := out + [byKey[key]];
      todo := todo - {key};
    }
  }

  lemma WalkIsGroups(byKey: map<string, Group>, out: seq<Group>, enriched: seq<EnrichedMention>, keep: Keep, bucket: int -> string)
    requires IsBucketing(bucket) && Indexed(byKey, enriched, keep, bucket)
    requires Distinct(out) && ListsValues(out, byKey)
    ensures Sort(Before(bucket), out) == Groups(enriched, keep, bucket)
  {
    var unsorted := Unsorted(enriched, enriched, keep);
    UnsortedDistinct(enriched, enriched, keep);
    forall g ensures g in out <==> IsGroup(g, enriched, keep) {
      if IsGroup(g, enriched, keep) {
        var key := KeyOf(bucket, g.source, g.hour);
        assert |GroupAt(enriched, keep, g.source, g.hour).mentions| > 0;
        assert key in byKey;
        KeyInjective(bucket, byKey[key].source, byKey[key].hour, g.source, g.hour);
      }
    }
    forall g ensures g in out <==> g in unsorted {
      UnsortedElements(enriched, enriched, keep, g);
    }
    DistinctElements(out, unsorted);
    BucketOrder(bucket);
    forall a, b | a in out && b in out && !Before(bucket)(a, b) && !Before(bucket)(b, a) ensures a == b {
      assert IsGroup(a, enriched, keep) && IsGroup(b, enriched, keep);
    }
    SortOfPermutation(Before(bucket), out, unsorted);
  }
}
