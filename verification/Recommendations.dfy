/** `domain/recommendation/`: one suggested game, and the event that carries a generated list. */
module Recommendations {
  import opened Ordering
  import opened Vectors
  import opened Catalog

  datatype Source = CONTENT | COLLAB | HYBRID | FALLBACK

  /** Why a game is suggested: a shared feature named by the scorer, or a sentence of the explanation model. */
  datatype Reason = SharedFeature(feature: Feature) | Sentence(text: string)

  datatype Recommendation = Recommendation(
    id: int,
    user: UserId,
    game: GameId,
    score: real,
    source: Source,
    rank: nat,
    generatedAt: Time,
    reasons: seq<Reason>)

  /** One entry of the published list; `score` is rounded to six places. */
  datatype Item = Item(game: GameId, score: real, source: Source, rank: nat)

  datatype RecommendationGenerated = RecommendationGenerated(eventId: int, user: UserId, generatedAt: Time,
      items: seq<Item>)

  /** `round(x, 6)`, of which only monotonicity is ever used. */
  type Rounding = real -> real

  function ItemOf(round: Rounding): Recommendation -> Item {
    (r: Recommendation) => Item(r.game, round(r.score), r.source, r.rank)
  }
}
