/** What a generated list holds, in terms of the catalogue, the ownership rows and the profiles. */
module Lists {
  import opened Ordering
  import opened Vectors
  import opened Catalog
  import opened Preference
  import opened Recommendations
  import opened Store
  import opened Scoring
  import opened CoPurchase
  import opened Generate

  // ---------------------------------------------------------------- the collaborative half

  /** The other users who own the game and one of the caller's games. */
  function CoBuyers(table: Ownerships, me: UserId, owned: set<GameId>, g: GameId): set<UserId> {
    set u | u in OwnersOf(table, g) && u != me && exists h :: h in owned && u in OwnersOf(table, h)
  }

  /** The games outside the caller's library that more such users own, smaller ids first among equals. */
  function MoreCoBought(table: Ownerships, me: UserId, owned: set<GameId>, g: GameId): set<GameId> {
    set h | h in table && h !in owned && CoBuyers(table, me, owned, h) != {}
         && (|CoBuyers(table, me, owned, h)| > |CoBuyers(table, me, owned, g)|
             || (|CoBuyers(table, me, owned, h)| == |CoBuyers(table, me, owned, g)| && h < g))
  }

  /** `n / (n + 5)` for the two hundred most co-bought games. */
  function CoScore(s: StoreState, user: UserId, g: GameId): real {
    var owned := PreferenceOf(s.preferences, user).owned;
    var n := |CoBuyers(s.ownerships, user, owned, g)|;
    if |MoreCoBought(s.ownerships, user, owned, g)| < 200 then n as real / (n as real + 5.0) else 0.0
  }

  lemma CoBuyersAreVoters(table: Ownerships, me: UserId, owned: set<GameId>, g: GameId)
    ensures CoBuyers(table, me, owned, g) == Voters(table, Neighbours(table, me, owned), g)
  {}

  lemma CountIsCoBuyers(table: Ownerships, me: UserId, owned: set<GameId>, g: GameId)
    ensures g in JoinCounts(table, me, owned) <==> g !in owned && CoBuyers(table, me, owned, g) != {}
    ensures g !in owned ==> CountOf(JoinCounts(table, me, owned), g) == |CoBuyers(table, me, owned, g)|
  {
    CoBuyersAreVoters(table, me, owned, g);
    JoinCountsVoters(table, me, owned, g);
  }

  lemma HigherIsMoreCoBought(table: Ownerships, me: UserId, owned: set<GameId>, g: GameId)
    requires g !in owned
    ensures CountedHigher(JoinCounts(table, me, owned), g) == MoreCoBought(table, me, owned, g)
  {
    CountIsCoBuyers(table, me, owned, g);
    forall h ensures h in CountedHigher(JoinCounts(table, me, owned), g) <==> h in MoreCoBought(table, me, owned, g) {
      CountIsCoBuyers(table, me, owned, h);
      if CoBuyers(table, me, owned, h) != {} { var u := Member(CoBuyers(table, me, owned, h)); assert h in table; }
    }
  }

  /** The collaborative score of any game the user does not own. */
  lemma CollaborativeIs(s: StoreState, user: UserId, g: GameId)
    requires g !in PreferenceOf(s.preferences, user).owned
    ensures Collaborative(CoPurchasesFor(s.ownerships, PreferenceOf(s.preferences, user)), g) == CoScore(s, user, g)
  {
    var owned := PreferenceOf(s.preferences, user).owned;
    CountIsCoBuyers(s.ownerships, user, owned, g);
    HigherIsMoreCoBought(s.ownerships, user, owned, g);
    CoPurchasedExactly(s.ownerships, user, owned, 200, g);
  }

  // ---------------------------------------------------------------- a whole list

  /** The profile a listed user is ranked with. */
  function Ranker(s: StoreState, user: UserId, config: Config): UserPreference
    requires PlanFor(s, user, config).Listed?
  {
    PlanFor(s, user, config).preference
  }

  function Worth(s: StoreState, user: UserId, config: Config, g: Game): real
    requires PlanFor(s, user, config).Listed?
  {
    0.65 * config.scorer.score(Ranker(s, user, config), g) + 0.35 * CoScore(s, user, g.id)
  }

  /** A scanned game the user does not own, with something to be said for it. */
  predicate Listable(s: StoreState, user: UserId, config: Config, g: Game)
    requires PlanFor(s, user, config).Listed?
  {
    && g in Recommendable(s.games, config.catalogueLimit)
    && g.id !in PreferenceOf(s.preferences, user).owned
    && Worth(s, user, config, g) > 0.0
  }

  /** Worth more, or bought more among equals, or of a smaller id among those. */
  predicate Outranks(s: StoreState, user: UserId, config: Config, y: Game, x: Game)
    requires PlanFor(s, user, config).Listed?
  {
    var a, b := Worth(s, user, config, y), Worth(s, user, config, x);
    || a > b
    || (a == b && y.purchaseCount > x.purchaseCount)
    || (a == b && y.purchaseCount == x.purchaseCount && y.id < x.id)
  }

  ghost function Outranking(s: StoreState, user: UserId, config: Config, x: Game): set<Game>
    requires PlanFor(s, user, config).Listed?
  {
    set y | y in Recommendable(s.games, config.catalogueLimit)
         && Listable(s, user, config, y) && Outranks(s, user, config, y, x)
  }

  /** What the ranker sees of a game. */
  function Seen(s: StoreState, user: UserId, config: Config, g: Game): ScoredGame
    requires PlanFor(s, user, config).Listed?
  {
    var q := Ranker(s, user, config);
    ScoredGame(g, config.scorer.score(q, g), CoScore(s, user, g.id), config.scorer.reasons(q, g))
  }

  lemma RankerIs(s: StoreState, user: UserId, config: Config)
    requires PlanFor(s, user, config).Listed?
    ensures var p, q := PreferenceOf(s.preferences, user), Ranker(s, user, config);
      && q == p.(tasteDense := q.tasteDense)
      && PlanFor(s, user, config).scored
         == Ranked(config.scorer, q, Recommendable(s.games, config.catalogueLimit), CoPurchasesFor(s.ownerships, p),
                   config.limit)
  {
    PlannedProfile(s, user, config);
    RankerScored(s, user, config);
  }

  lemma RankerScored(s: StoreState, user: UserId, config: Config)
    requires PlanFor(s, user, config).Listed?
    ensures PlanFor(s, user, config).scored == RankedFor(s.games, s.ownerships, Ranker(s, user, config), config)
  {}

  lemma SeenIs(s: StoreState, user: UserId, config: Config, g: Game)
    requires PlanFor(s, user, config).Listed? && g.id !in PreferenceOf(s.preferences, user).owned
    ensures var x := ScoredBy(config.scorer, Ranker(s, user, config),
                              CoPurchasesFor(s.ownerships, PreferenceOf(s.preferences, user)), g);
      x == Seen(s, user, config, g) && x.Score() == Worth(s, user, config, g)
  {
    CollaborativeIs(s, user, g.id);
  }

  lemma ShortlistIs(s: StoreState, user: UserId, config: Config, x: ScoredGame)
    requires PlanFor(s, user, config).Listed?
    ensures x in Shortlist(config.scorer, Ranker(s, user, config), Recommendable(s.games, config.catalogueLimit),
                           CoPurchasesFor(s.ownerships, PreferenceOf(s.preferences, user)))
       <==> Listable(s, user, config, x.game) && x == Seen(s, user, config, x.game)
  {
    RankerIs(s, user, config);
    RecommendableUnique(s.games, config.catalogueLimit);
    if x.game.id !in PreferenceOf(s.preferences, user).owned { SeenIs(s, user, config, x.game); }
  }

  lemma OutrankingSize(s: StoreState, user: UserId, config: Config, x: ScoredGame)
    requires PlanFor(s, user, config).Listed? && Listable(s, user, config, x.game) && x == Seen(s, user, config, x.game)
    ensures |Better(config.scorer, Ranker(s, user, config), Recommendable(s.games, config.catalogueLimit),
                    CoPurchasesFor(s.ownerships, PreferenceOf(s.preferences, user)), x)|
         == |Outranking(s, user, config, x.game)|
  {
    var better := Better(config.scorer, Ranker(s, user, config), Recommendable(s.games, config.catalogueLimit),
                         CoPurchasesFor(s.ownerships, PreferenceOf(s.preferences, user)), x);
    var seen := (g: Game) => if PlanFor(s, user, config).Listed? then Seen(s, user, config, g) else x;
    forall y ensures y in better <==> y.game in Outranking(s, user, config, x.game) && y == seen(y.game) {
      BetterIs(s, user, config, x, y);
    }
    SameCount(Outranking(s, user, config, x.game), better, seen);
  }

  lemma BetterIs(s: StoreState, user: UserId, config: Config, x: ScoredGame, y: ScoredGame)
    requires PlanFor(s, user, config).Listed? && Listable(s, user, config, x.game) && x == Seen(s, user, config, x.game)
    ensures y in Better(config.scorer, Ranker(s, user, config), Recommendable(s.games, config.catalogueLimit),
                        CoPurchasesFor(s.ownerships, PreferenceOf(s.preferences, user)), x)
       <==> y.game in Outranking(s, user, config, x.game) && y == Seen(s, user, config, y.game)
  {
    ShortlistIs(s, user, config, y);
    if Listable(s, user, config, y.game) && y == Seen(s, user, config, y.game) { KeysOutrank(s, user, config, x, y); }
  }

  lemma KeysOutrank(s: StoreState, user: UserId, config: Config, x: ScoredGame, y: ScoredGame)
    requires PlanFor(s, user, config).Listed?
    requires Listable(s, user, config, x.game) && x == Seen(s, user, config, x.game)
    requires Listable(s, user, config, y.game) && y == Seen(s, user, config, y.game)
    ensures Before(ScoreKey(y), ScoreKey(x)) <==> Outranks(s, user, config, y.game, x.game)
  {
    SeenIs(s, user, config, x.game);
    SeenIs(s, user, config, y.game);
  }

  lemma {:induction false} SameCount(games: set<Game>, scored: set<ScoredGame>, seen: Game -> ScoredGame)
    requires forall g :: seen(g).game == g
    requires forall y :: y in scored <==> y.game in games && y == seen(y.game)
    ensures |scored| == |games|
    decreases |games|
  {
    if games == {} {
      assert scored == {};
    } else {
      var g := Member(games);
      assert seen(g) in scored;
      SameCount(games - {g}, scored - {seen(g)}, seen);
    }
  }

  /** A game is in the list, with its two scores and the scorer's reasons, exactly when it is published, scanned, not
      owned, worth anything by 0.65 of the content score and 0.35 of `n / (n + 5)`, and outranked by fewer than
      `limit` such games, by worth, then popularity, then id. */
  lemma ListExactly(s: StoreState, user: UserId, config: Config, x: ScoredGame)
    requires PlanFor(s, user, config).Listed?
    ensures x in PlanFor(s, user, config).scored <==>
      && Listable(s, user, config, x.game) && x == Seen(s, user, config, x.game)
      && |Outranking(s, user, config, x.game)| < config.limit
  {
    RankerIs(s, user, config);
    RecommendableUnique(s.games, config.catalogueLimit);
    RankExactly(config.scorer, Ranker(s, user, config), Recommendable(s.games, config.catalogueLimit),
                CoPurchasesFor(s.ownerships, PreferenceOf(s.preferences, user)), config.limit, x);
    ShortlistIs(s, user, config, x);
    if Listable(s, user, config, x.game) && x == Seen(s, user, config, x.game) { OutrankingSize(s, user, config, x); }
  }

  /** The list is in that order. */
  lemma ListInOrder(s: StoreState, user: UserId, config: Config, i: nat, j: nat)
    requires PlanFor(s, user, config).Listed? && i < j < |PlanFor(s, user, config).scored|
    ensures var scored := PlanFor(s, user, config).scored; Outranks(s, user, config, scored[i].game, scored[j].game)
  {
    var scored := PlanFor(s, user, config).scored;
    RankerIs(s, user, config);
    RecommendableUnique(s.games, config.catalogueLimit);
    RankedEarlier(config.scorer, Ranker(s, user, config), Recommendable(s.games, config.catalogueLimit),
                  CoPurchasesFor(s.ownerships, PreferenceOf(s.preferences, user)), config.limit, i, j);
    assert scored[i] in scored && scored[j] in scored;
    ListExactly(s, user, config, scored[i]);
    ListExactly(s, user, config, scored[j]);
  }

  /** A scanned game the user does not own and that content says nothing for is listable exactly when somebody else
      owns it and one of the user's games, and it is among the two hundred most co-bought. */
  lemma CoBoughtListable(s: StoreState, user: UserId, config: Config, g: Game)
    requires PlanFor(s, user, config).Listed? && g in Recommendable(s.games, config.catalogueLimit)
    requires var p := PreferenceOf(s.preferences, user);
      g.id !in p.owned && config.scorer.score(Ranker(s, user, config), g) == 0.0
    ensures var owned := PreferenceOf(s.preferences, user).owned;
      Listable(s, user, config, g) <==>
        CoBuyers(s.ownerships, user, owned, g.id) != {} && |MoreCoBought(s.ownerships, user, owned, g.id)| < 200
  {
    CoScorePositive(s, user, g.id);
  }

  lemma CoScorePositive(s: StoreState, user: UserId, g: GameId)
    ensures var owned := PreferenceOf(s.preferences, user).owned;
      CoScore(s, user, g) > 0.0 <==>
        CoBuyers(s.ownerships, user, owned, g) != {} && |MoreCoBought(s.ownerships, user, owned, g)| < 200
  {
    var co := CoBuyers(s.ownerships, user, PreferenceOf(s.preferences, user).owned, g);
    ShrunkInUnit(|co|);
    if |co| == 0 { assert co == {}; }
  }

  /** The content half: the cosine of its space, never negative, with reasons on the sparse path only. */
  lemma ContentIs(root: Root, p: UserPreference, g: Game)
    ensures SparseScorer(root).score(p, g)
         == if Cosine(p.taste, g.embedding, root) > 0.0 then Cosine(p.taste, g.embedding, root) else 0.0
    ensures DenseScorer(root).score(p, g)
         == if DenseCosine(p.tasteDense, g.dense, root) > 0.0 then DenseCosine(p.tasteDense, g.dense, root) else 0.0
    ensures DenseScorer(root).reasons(p, g) == []
    ensures var reasons, shared := SparseScorer(root).reasons(p, g), Overlap(p.taste, g.embedding);
      |reasons| == |shared| && forall i :: 0 <= i < |shared| ==> reasons[i] == SharedFeature(shared[i])
  {}

  // ---------------------------------------------------------------- what is stored and announced of it

  /** Entry by entry, what a generation stores of the ranking: ids and moment from the call, the blended score, a
      label of the halves that are positive, and the explanation when the model gave one. */
  lemma StoredEntry(s: StoreState, call: Call, config: Config, i: nat)
    requires PlanFor(s, call.user, config).Listed?
    requires i < |PlanFor(s, call.user, config).scored|
    ensures var x, list := PlanFor(s, call.user, config).scored[i], ListFor(s, call, config);
      && |list| == |PlanFor(s, call.user, config).scored|
      && list[i].id == call.ids(i) && list[i].user == call.user && list[i].game == x.game.id && list[i].rank == i + 1
      && list[i].score == 0.65 * x.content + 0.35 * x.collaborative && list[i].generatedAt == call.at
      && (list[i].source == HYBRID <==> x.content > 0.0 && x.collaborative > 0.0)
      && (list[i].source == COLLAB <==> x.content <= 0.0 && x.collaborative > 0.0)
      && (list[i].source == CONTENT <==> x.collaborative <= 0.0)
      && list[i].reasons == if x.game.id in call.explanations then call.explanations[x.game.id] else x.reasons
  {
    var scored := PlanFor(s, call.user, config).scored;
    ListedAt(scored, call, i);
  }

  /** And what it announces: one event for a list that is not empty, with the same games, labels and ranks, and the
      scores rounded; nothing for an empty one. */
  lemma AnnouncedEntry(s: StoreState, call: Call, config: Config)
    requires Succeeds(s, call, config)
    ensures var t, list := Generated(s, call, config), ListFor(s, call, config);
      && StoredFor(t, call.user) == list
      && (list == [] ==> t.outbox == s.outbox)
      && (list != [] ==>
            var event := t.outbox[|t.outbox| - 1];
            && t.outbox == s.outbox + [event]
            && event.eventId == call.eventId && event.user == call.user && event.generatedAt == call.eventAt
            && |event.items| == |list|
            && forall i :: 0 <= i < |list| ==>
                 event.items[i] == Item(list[i].game, config.round(list[i].score), list[i].source, list[i].rank))
  {}

  /** A cold user's list is empty, and only a user of the dense space whose remembered games have vectors of different
      widths has none generated. */
  lemma PlanKinds(s: StoreState, user: UserId, config: Config)
    ensures var p, plan := PreferenceOf(s.preferences, user), PlanFor(s, user, config);
      && (plan.Cold? <==> p.signalCount == 0 || forall f :: At(p.taste, f) == 0.0)
      && (plan.Fails? <==> !plan.Cold? && config.denseSpace
                           && Mixed(p.history, PlayedSpace(s.games, RememberedGames(p.history))))
  {
    var p := PreferenceOf(s.preferences, user);
    RebuiltIsWeightedSum(p.history, PlayedSpace(s.games, RememberedGames(p.history)));
    if forall f :: At(p.taste, f) == 0.0 { SamePoints(p.taste, EMPTY); }
  }

  // ---------------------------------------------------------------- which games an embedding pass takes

  /** A snapshot takes exactly the published games without a vector that fewer than `batch` others are bought more
      than. */
  lemma PendingExactly(games: Games, batch: nat, g: Game)
    ensures g in Pending(games, batch) <==>
      && g.id in games && games[g.id] == g && g.isPublished && g.dense == []
      && |set y | y in BoughtMore(games, g) && y.dense == []| < batch
  {
    var waiting := Filter(Catalogue(games), (x: Game) => x.NeedsEmbedding());
    CatalogueDistinct(games);
    FilterDistinct(Catalogue(games), (x: Game) => x.NeedsEmbedding());
    PopularityInjective(games, waiting);
    TopExactly(waiting, PopularityKey, batch, g);
    WaitingAhead(games, g);
  }

  lemma WaitingAhead(games: Games, g: Game)
    ensures Ahead(Filter(Catalogue(games), (x: Game) => x.NeedsEmbedding()), PopularityKey, g)
         == set y | y in BoughtMore(games, g) && y.dense == []
  {
    forall y
      ensures y in Ahead(Filter(Catalogue(games), (x: Game) => x.NeedsEmbedding()), PopularityKey, g)
         <==> y in BoughtMore(games, g) && y.dense == []
    {
      InBoughtMore(games, g, y);
    }
  }
}
