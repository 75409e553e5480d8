/** The wire types that several agents share, reduced to the fields the algorithms read. */
module Models {
  import opened Outcomes

  datatype Sentiment = Negative | Neutral | Positive | Mixed

  /** Times are seconds since an epoch, and may be negative. */
  datatype Mention = Mention(
    id: string, brand: string, source: string, text: string, postedAt: int,
    followers: int, engagement: int, rating: Option<real>, contentHash: string)

  datatype Enrichment = Enrichment(
    mentionId: string, sentiment: real, sentimentLabel: Sentiment, emotion: string, intent: string,
    aspects: seq<string>, aboutBrand: bool, aboutCompetitor: string, cost: real)

  datatype EnrichedMention = EnrichedMention(mention: Mention, enrichment: Enrichment)

  datatype RunStatus = Running | Okay | Partial | Failed

  function Ids(mentions: seq<Mention>): (ids: seq<string>)
    ensures |ids| == |mentions|
  {
    seq(|mentions|, i requires 0 <= i < |mentions| => mentions[i].id)
  }
}
