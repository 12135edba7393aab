/** `domain/catalog/game_profile.py`: the read-model of a game. */
module Catalog {
  import opened Ordering
  import opened Vectors

  type GameId = int
  type UserId = int
  type Time = real

  const MAX_TITLE_CHARS := 200

  /** What a publication says about a game: its stripped title and the tokens of its non-blank genres and tags.
      `oversized` says that some token is longer than a feature may be. */
  datatype Description = Description(title: string, features: seq<Feature>, oversized: bool)

  datatype Game = Game(
    id: GameId,
    developer: UserId,
    title: string,
    isPublished: bool,
    purchaseCount: nat,
    embedding: Embedding,
    dense: Dense)
  {
    predicate NeedsEmbedding() { isPublished && dense == [] }
    function Embedded(vector: Dense): Game { this.(dense := vector) }
    function Bought(): Game { this.(purchaseCount := purchaseCount + 1) }
    function Withdrawn(): Game { this.(isPublished := false) }
  }

  /** The checks of the constructors; a description that fails them is an InvariantViolation. */
  predicate Admissible(d: Description) {
    0 < |d.title| <= MAX_TITLE_CHARS && !d.oversized
  }

  function Published(id: GameId, developer: UserId, d: Description): Option<Game> {
    if !Admissible(d) then None else Some(Game(id, developer, d.title, true, 0, Of(d.features), []))
  }

  /** A republished game keeps its purchases and loses the vector computed from its old words. */
  function Redescribed(game: Game, d: Description): Option<Game> {
    if !Admissible(d) then None else
    Some(game.(title := d.title, isPublished := true, embedding := Of(d.features), dense := []))
  }

  /** `(-purchase_count, str(game_id))`, the order of every popularity scan. */
  function PopularityKey(game: Game): Key {
    Key(0.0, game.purchaseCount, game.id)
  }
}
