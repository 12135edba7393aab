/** The whole sweep, the embedding pass and the generations together: what a plan reads of the dense vectors. */
module Refresh {
  import opened Ordering
  import opened Vectors
  import opened Catalog
  import opened Preference
  import opened Recommendations
  import opened Store
  import opened Scoring
  import opened CoPurchase
  import opened Generate

  /** A game as another catalogue holds it. */
  function In(other: Games): Game -> Game {
    (g: Game) => if g.id in other then g.Embedded(other[g.id].dense) else g
  }

  lemma {:induction false} GamesAtMapped(games: Games, other: Games, ids: seq<GameId>)
    requires SameButVectors(games, other) && forall id :: id in ids ==> id in games && id in other
    ensures GamesAt(other, ids) == Map(GamesAt(games, ids), In(other))
  {
    if ids != [] {
      var first := ids[0];
      assert ids == [first] + ids[1..];
      assert first in ids && first in games && first in other;
      GamesAtMapped(games, other, ids[1..]);
      MapCons(games[first], GamesAt(games, ids[1..]), In(other));
      assert games[first].id == first;
    }
  }

  lemma CatalogueMapped(games: Games, other: Games)
    requires SameButVectors(games, other)
    ensures Catalogue(other) == Map(Catalogue(games), In(other))
  {
    forall id | id in Listing(games.Keys) ensures id in games && id in other { assert id in other.Keys; }
    GamesAtMapped(games, other, Listing(games.Keys));
  }

  /** Popularity knows nothing of vectors. */
  lemma RecommendableMapped(games: Games, other: Games, limit: nat)
    requires SameButVectors(games, other)
    ensures Recommendable(other, limit) == Map(Recommendable(games, limit), In(other))
  {
    var published := (g: Game) => g.isPublished;
    CatalogueMapped(games, other);
    FilterMapped(Catalogue(games), In(other), published, published);
    TopMapped(PublishedGames(games), In(other), PopularityKey, PopularityKey, limit);
  }

  function ScoredIn(other: Games): ScoredGame -> ScoredGame {
    (x: ScoredGame) => x.(game := In(other)(x.game))
  }

  /** The user's content score of a game, if it can be offered at all, does not see the other catalogue's vector. */
  ghost predicate Blind(scorer: ContentScorer, p: UserPreference, other: Games, g: Game) {
    g.isPublished && g.id !in p.owned ==>
      scorer.score(p, In(other)(g)) == scorer.score(p, g) && scorer.reasons(p, In(other)(g)) == scorer.reasons(p, g)
  }

  ghost predicate AllBlind(scorer: ContentScorer, p: UserPreference, other: Games, candidates: seq<Game>) {
    forall g :: g in candidates ==> Blind(scorer, p, other, g)
  }

  lemma SparseIsBlind(root: Root, p: UserPreference, other: Games, candidates: seq<Game>)
    ensures AllBlind(SparseScorer(root), p, other, candidates)
  {}

  lemma ScoredMapped(scorer: ContentScorer, p: UserPreference, coPurchases: CoPurchases, g: Game, other: Games)
    requires Blind(scorer, p, other, g)
    ensures Eligible(scorer, p, coPurchases, In(other)(g)) == Eligible(scorer, p, coPurchases, g)
    ensures Eligible(scorer, p, coPurchases, g) ==>
      ScoredBy(scorer, p, coPurchases, In(other)(g)) == ScoredIn(other)(ScoredBy(scorer, p, coPurchases, g))
  {}

  lemma {:induction false} ShortlistMapped(scorer: ContentScorer, p: UserPreference, candidates: seq<Game>,
                                           coPurchases: CoPurchases, other: Games)
    requires AllBlind(scorer, p, other, candidates)
    ensures Shortlist(scorer, p, Map(candidates, In(other)), coPurchases)
         == Map(Shortlist(scorer, p, candidates, coPurchases), ScoredIn(other))
  {
    if candidates != [] {
      var front, last := candidates[..|candidates| - 1], candidates[|candidates| - 1];
      var mapped := Map(candidates, In(other));
      assert candidates == front + [last];
      assert mapped[..|mapped| - 1] == Map(front, In(other)) && mapped[|mapped| - 1] == In(other)(last);
      ShortlistMapped(scorer, p, front, coPurchases, other);
      ScoredMapped(scorer, p, coPurchases, last, other);
      MapAppend(Shortlist(scorer, p, front, coPurchases),
                if Eligible(scorer, p, coPurchases, last) then [ScoredBy(scorer, p, coPurchases, last)] else [],
                ScoredIn(other));
    }
  }

  lemma RankedMapped(scorer: ContentScorer, p: UserPreference, candidates: seq<Game>, coPurchases: CoPurchases,
                     limit: nat, other: Games)
    requires AllBlind(scorer, p, other, candidates)
    ensures Ranked(scorer, p, Map(candidates, In(other)), coPurchases, limit)
         == Map(Ranked(scorer, p, candidates, coPurchases, limit), ScoredIn(other))
  {
    ShortlistMapped(scorer, p, candidates, coPurchases, other);
    TopMapped(Shortlist(scorer, p, candidates, coPurchases), ScoredIn(other), ScoreKey, ScoreKey, limit);
  }

  lemma CoresMapped(scored: seq<ScoredGame>, other: Games)
    ensures Cores(Map(scored, ScoredIn(other))) == Cores(scored)
  {
    forall i | 0 <= i < |scored| ensures CoreOf(ScoredIn(other)(scored[i]), i) == CoreOf(scored[i], i) {
      CoreMapped(scored[i], other, i);
    }
  }

  lemma CoreMapped(x: ScoredGame, other: Games, i: nat)
    ensures CoreOf(ScoredIn(other)(x), i) == CoreOf(x, i)
  {
    SameScores(ScoredIn(other)(x), x);
    assert In(other)(x.game).id == x.game.id;
  }

  lemma RankedForMapped(games: Games, other: Games, table: Ownerships, p: UserPreference, config: Config)
    requires SameButVectors(games, other)
    requires AllBlind(config.scorer, p, other, Recommendable(games, config.catalogueLimit))
    ensures RankedFor(other, table, p, config) == Map(RankedFor(games, table, p, config), ScoredIn(other))
  {
    RecommendableMapped(games, other, config.catalogueLimit);
    RankedMapped(config.scorer, p, Recommendable(games, config.catalogueLimit),
                 CoPurchased(table, p.user, p.owned, MAX_COLLABORATIVE_CANDIDATES), config.limit, other);
  }

  lemma SparsePlan(s: StoreState, user: UserId, config: Config)
    requires !config.denseSpace
    ensures var p := PreferenceOf(s.preferences, user);
      PlanCores(PlanFor(s, user, config)) == if p.IsCold() then []
        else Cores(RankedFor(s.games, s.ownerships, p, config))
  {}

  /** On the sparse path an embedding pass changes nobody's list. */
  lemma PlanIgnoresVectors(s: StoreState, t: StoreState, user: UserId, config: Config, root: Root)
    requires config.scorer == SparseScorer(root) && !config.denseSpace
    requires t == s.(games := t.games) && SameButVectors(s.games, t.games)
    ensures PlanCores(PlanFor(t, user, config)) == PlanCores(PlanFor(s, user, config))
  {
    var p := PreferenceOf(s.preferences, user);
    SparsePlan(s, user, config);
    SparsePlan(t, user, config);
    SparseIsBlind(root, p, t.games, Recommendable(s.games, config.catalogueLimit));
    RankedForMapped(s.games, t.games, s.ownerships, p, config);
    CoresMapped(RankedFor(s.games, s.ownerships, p, config), t.games);
  }

  lemma SparseSucceeds(s: StoreState, call: Call, config: Config)
    requires !config.denseSpace
    ensures Succeeds(s, call, config) <==> !call.fault
  {}

  /** A whole sweep: the embedding pass, when it does not raise, then the generations. */
  function Swept(s: StoreState, batch: nat, vectors: Option<seq<Dense>>, calls: seq<Call>,
                 config: Config): Option<StoreState> {
    var embedded :- EmbeddedPending(s, batch, vectors);
    Some(RunCalls(embedded, calls, config))
  }

  ghost predicate Reaches(calls: seq<Call>, user: UserId) {
    exists i :: 0 <= i < |calls| && calls[i].user == user && !calls[i].fault
  }

  lemma CoveredIffReached(s: StoreState, calls: seq<Call>, config: Config, user: UserId)
    requires !config.denseSpace
    ensures Covered(s, calls, config, user) <==> Reaches(calls, user)
  {
    if Reaches(calls, user) {
      var i :| 0 <= i < |calls| && calls[i].user == user && !calls[i].fault;
      SparseSucceeds(s, calls[i], config);
    }
    if Covered(s, calls, config, user) {
      var i :| 0 <= i < |calls| && calls[i].user == user && Succeeds(s, calls[i], config);
      SparseSucceeds(s, calls[i], config);
    }
  }

  lemma SweptStores(s: StoreState, batch: nat, vectors: Option<seq<Dense>>, calls: seq<Call>, config: Config,
                    root: Root, user: UserId)
    requires config.scorer == SparseScorer(root) && !config.denseSpace && Swept(s, batch, vectors, calls, config).Some?
    ensures var t := Swept(s, batch, vectors, calls, config).value;
      && StoredCores(t, user) == (if Reaches(calls, user) then PlanCores(PlanFor(s, user, config))
        else StoredCores(s, user))
      && PlanCores(PlanFor(t, user, config)) == PlanCores(PlanFor(s, user, config))
  {
    var embedded := EmbeddedPending(s, batch, vectors).value;
    EmbeddingChangesVectors(s, batch, vectors);
    PlanIgnoresVectors(s, embedded, user, config, root);
    CoveredIffReached(embedded, calls, config, user);
    RunStores(embedded, calls, config, user);
    PlanStableOverRun(embedded, calls, config, user);
  }

  /** Sweeping again, embedding included, leaves every stored list as it was: with any vectors from any provider, by any
      replica, in any order of users. */
  lemma SparseSweepIdempotent(s: StoreState, batch: nat, first: Option<seq<Dense>>, calls: seq<Call>,
                              second: Option<seq<Dense>>, again: seq<Call>, config: Config, root: Root, user: UserId)
    requires config.scorer == SparseScorer(root) && !config.denseSpace
    requires Swept(s, batch, first, calls, config).Some?
    requires Swept(Swept(s, batch, first, calls, config).value, batch, second, again, config).Some?
    requires Reaches(again, user) ==> Reaches(calls, user)
    ensures var t := Swept(s, batch, first, calls, config).value;
      StoredCores(Swept(t, batch, second, again, config).value, user) == StoredCores(t, user)
  {
    SweptStores(s, batch, first, calls, config, root, user);
    SweptStores(Swept(s, batch, first, calls, config).value, batch, second, again, config, root, user);
  }
}
