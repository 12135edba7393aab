/** The dense space: exactly when a game that gets its vector changes a user's list, and when no later pass can. */
module Landings {
  import opened Ordering
  import opened Vectors
  import opened Catalog
  import opened Preference
  import opened Recommendations
  import opened Store
  import opened Ingest
  import opened Scoring
  import opened Steering
  import opened System
  import opened Passes
  import opened Sweeps
  import CoPurchase
  import G = Generate
  import Refresh

  /** The store after one game got its vector. */
  function Landed(s: StoreState, g: GameId, v: Dense): StoreState
    requires g in s.games
  {
    s.(games := s.games[g := s.games[g].Embedded(v)])
  }

  /** The vector changes the user's list. */
  ghost predicate Moves(s: StoreState, user: UserId, config: G.Config, g: GameId, v: Dense)
    requires g in s.games
  {
    var t := Landed(s, g, v);
    && !G.PlanFor(t, user, config).Fails?
    && G.PlanCores(G.PlanFor(t, user, config)) != G.PlanCores(G.PlanFor(s, user, config))
  }

  function Profile(s: StoreState, user: UserId): UserPreference {
    PreferenceOf(s.preferences, user)
  }

  function Scan(s: StoreState, config: G.Config): seq<Game> {
    Recommendable(s.games, config.catalogueLimit)
  }

  function Pairs(s: StoreState, user: UserId): CoPurchases {
    G.CoPurchasesFor(s.ownerships, Profile(s, user))
  }

  /** Dense wiring, a warm user whose profile can be rebuilt, and a known game without a vector. */
  ghost predicate Waiting(s: StoreState, user: UserId, config: G.Config, root: Root, g: GameId) {
    && config.denseSpace && config.scorer == DenseScorer(root) && SquareRoot(root)
    && G.PlanFor(s, user, config).Listed? && g in s.games && s.games[g].dense == []
  }

  /** The dense taste a listed user is ranked with. */
  function Taste(s: StoreState, user: UserId, config: G.Config): Dense
    requires G.PlanFor(s, user, config).Listed?
  {
    G.PlanFor(s, user, config).preference.tasteDense
  }

  /** The list some taste would give among some candidates. */
  function Offered(s: StoreState, user: UserId, config: G.Config, root: Root, scan: seq<Game>, taste: Dense)
    : seq<Item>
  {
    G.Cores(DenseRanks(root, Tasting(Profile(s, user), taste), scan, Pairs(s, user), config.limit))
  }

  // ---------------------------------------------------------------- the plan after the landing

  lemma LandedGames(s: StoreState, g: GameId, v: Dense, limit: nat)
    requires g in s.games
    ensures G.SameButVectors(s.games, Landed(s, g, v).games)
    ensures Recommendable(Landed(s, g, v).games, limit) == Replaced(Recommendable(s.games, limit), g, v)
  {
    var later := Landed(s, g, v).games;
    forall h ensures h in s.games.Keys <==> h in later.Keys {}
    Refresh.RecommendableMapped(s.games, later, limit);
    G.RecommendableUnique(s.games, limit);
    var scan := Recommendable(s.games, limit);
    forall i | 0 <= i < |scan| ensures Refresh.In(later)(scan[i]) == Given(g, v)(scan[i]) {
      assert scan[i] in scan;
    }
  }

  function SpaceFor(s: StoreState, user: UserId): Space {
    G.PlayedSpace(s.games, RememberedGames(Profile(s, user).history))
  }

  lemma LandedSpace(s: StoreState, user: UserId, g: GameId, v: Dense)
    requires g in s.games && s.games[g].dense == []
    ensures Remembers(s, user, g) ==> OneMore(SpaceFor(s, user), SpaceFor(Landed(s, g, v), user), g, v)
    ensures !Remembers(s, user, g) ==>
      RebuiltDense(Profile(s, user).history, SpaceFor(Landed(s, g, v), user))
      == RebuiltDense(Profile(s, user).history, SpaceFor(s, user))
  {
    var space, other := SpaceFor(s, user), SpaceFor(Landed(s, g, v), user);
    forall x | x != g ensures VectorOf(other, x) == VectorOf(space, x) {}
    if !Remembers(s, user, g) {
      RememberedSuffice(Profile(s, user).history, other, space);
    }
  }

  /** The dense taste after the landing, if the profile can be rebuilt then. */
  function TasteAfter(s: StoreState, user: UserId, g: GameId, v: Dense): Option<Dense>
    requires g in s.games
  {
    RebuiltDense(Profile(s, user).history, SpaceFor(Landed(s, g, v), user))
  }

  lemma RankedPlan(s: StoreState, user: UserId, config: G.Config, root: Root)
    requires config.denseSpace && config.scorer == DenseScorer(root) && !Profile(s, user).IsCold()
    ensures var d, plan := RebuiltDense(Profile(s, user).history, SpaceFor(s, user)), G.PlanFor(s, user, config);
      && (plan.Fails? <==> d.None?)
      && (d.Some? ==> G.PlanCores(plan) == Offered(s, user, config, root, Scan(s, config), d.value))
      && (d.Some? ==> plan.Listed? && plan.preference == Tasting(Profile(s, user), d.value))
  {}

  /** The plan before and after, as rankings. */
  lemma LandedPlan(s: StoreState, user: UserId, config: G.Config, root: Root, g: GameId, v: Dense)
    requires Waiting(s, user, config, root, g)
    ensures RebuiltDense(Profile(s, user).history, SpaceFor(s, user)) == Some(Taste(s, user, config))
    ensures G.PlanCores(G.PlanFor(s, user, config))
         == Offered(s, user, config, root, Scan(s, config), Taste(s, user, config))
    ensures G.PlanFor(Landed(s, g, v), user, config).Fails? <==> TasteAfter(s, user, g, v).None?
    ensures TasteAfter(s, user, g, v).Some? ==>
      G.PlanCores(G.PlanFor(Landed(s, g, v), user, config))
      == Offered(s, user, config, root, Replaced(Scan(s, config), g, v), TasteAfter(s, user, g, v).value)
  {
    RankedPlan(s, user, config, root);
    RankedPlan(Landed(s, g, v), user, config, root);
    LandedGames(s, g, v, config.catalogueLimit);
  }

  // ---------------------------------------------------------------- a candidate

  /** The eligible games ahead of the candidate even at its best. */
  ghost function RivalsOf(s: StoreState, user: UserId, config: G.Config, root: Root, g: GameId): set<ScoredGame>
    requires G.PlanFor(s, user, config).Listed? && g in s.games
  {
    Rivals(root, Tasting(Profile(s, user), Taste(s, user, config)), Scan(s, config), Pairs(s, user), g,
           BestKey(Pairs(s, user), s.games[g]))
  }

  /** Some vector for an unembedded candidate changes the user's list exactly when their taste points anywhere and fewer
      than `limit` others would be ahead of the candidate at its best. */
  lemma CandidateMovesIff(s: StoreState, user: UserId, config: G.Config, root: Root, g: GameId)
    requires Waiting(s, user, config, root, g) && Candidate(s, user, config, g) && !Remembers(s, user, g)
    ensures (exists v :: Moves(s, user, config, g, v)) <==>
      Pointed(Taste(s, user, config)) && |RivalsOf(s, user, config, root, g)| < config.limit
  {
    MovesGameIff(s, user, config, root, g);
    if v :| Moves(s, user, config, g, v) {
      UnrememberedLanding(s, user, config, root, g, v);
      assert MovesGame(s, user, config, root, g, v);
    }
    if v :| MovesGame(s, user, config, root, g, v) {
      UnrememberedLanding(s, user, config, root, g, v);
      assert Moves(s, user, config, g, v);
    }
  }

  lemma MovesGameIff(s: StoreState, user: UserId, config: G.Config, root: Root, g: GameId)
    requires Waiting(s, user, config, root, g) && Candidate(s, user, config, g)
    ensures (exists v :: MovesGame(s, user, config, root, g, v)) <==>
      Pointed(Taste(s, user, config)) && |RivalsOf(s, user, config, root, g)| < config.limit
  {
    var q := Tasting(Profile(s, user), Taste(s, user, config));
    G.RecommendableUnique(s.games, config.catalogueLimit);
    Steering.CandidateMovesIff(root, q, Scan(s, config), Pairs(s, user), config.limit, s.games[g]);
    if v :| MovesCandidate(root, q, Scan(s, config), Pairs(s, user), config.limit, s.games[g], v) {
      assert MovesGame(s, user, config, root, g, v);
    }
  }

  ghost predicate MovesGame(s: StoreState, user: UserId, config: G.Config, root: Root, g: GameId, v: Dense)
    requires G.PlanFor(s, user, config).Listed? && g in s.games
  {
    MovesCandidate(root, Tasting(Profile(s, user), Taste(s, user, config)), Scan(s, config), Pairs(s, user),
                   config.limit, s.games[g], v)
  }

  lemma UnrememberedLanding(s: StoreState, user: UserId, config: G.Config, root: Root, g: GameId, v: Dense)
    requires Waiting(s, user, config, root, g) && !Remembers(s, user, g)
    ensures Moves(s, user, config, g, v) <==> MovesGame(s, user, config, root, g, v)
  {
    LandedPlan(s, user, config, root, g, v);
    LandedSpace(s, user, g, v);
  }

  // ---------------------------------------------------------------- a remembered game

  /** A candidate with a vector the user's taste can be compared with. */
  predicate InReach(s: StoreState, user: UserId, config: G.Config, h: GameId)
    requires G.PlanFor(s, user, config).Listed?
  {
    var taste := Taste(s, user, config);
    Candidate(s, user, config, h) && Pointed(s.games[h].dense) && (taste == [] || |taste| == |s.games[h].dense|)
  }

  /** The list a remembered game's vector leads to, when the game itself is no candidate. */
  lemma SteeredPlan(s: StoreState, user: UserId, config: G.Config, root: Root, g: GameId, v: Dense)
    requires Waiting(s, user, config, root, g) && !Candidate(s, user, config, g) && TasteAfter(s, user, g, v).Some?
    ensures G.PlanCores(G.PlanFor(Landed(s, g, v), user, config))
         == Offered(s, user, config, root, Scan(s, config), TasteAfter(s, user, g, v).value)
  {
    LandedPlan(s, user, config, root, g, v);
    UnseenReplaced(s, user, config, root, g, v, TasteAfter(s, user, g, v).value);
  }

  lemma UnseenIsBlind(s: StoreState, user: UserId, config: G.Config, root: Root, g: GameId, v: Dense, q: UserPreference)
    requires g in s.games && !Candidate(s, user, config, g) && q.owned == Profile(s, user).owned
    ensures Refresh.AllBlind(DenseScorer(root), q, Landed(s, g, v).games, Scan(s, config))
  {
    G.RecommendableUnique(s.games, config.catalogueLimit);
    forall x | x in Scan(s, config) && x.isPublished && x.id !in q.owned
      ensures Refresh.In(Landed(s, g, v).games)(x) == x
    {
      assert Candidate(s, user, config, x.id);
    }
  }

  lemma UnseenReplaced(s: StoreState, user: UserId, config: G.Config, root: Root, g: GameId, v: Dense,
                       taste: Dense)
    requires g in s.games && !Candidate(s, user, config, g)
    ensures Offered(s, user, config, root, Replaced(Scan(s, config), g, v), taste)
         == Offered(s, user, config, root, Scan(s, config), taste)
  {
    var q := Tasting(Profile(s, user), taste);
    var scan, later := Scan(s, config), Landed(s, g, v).games;
    G.RecommendableUnique(s.games, config.catalogueLimit);
    UnseenIsBlind(s, user, config, root, g, v, q);
    LandedGames(s, g, v, config.catalogueLimit);
    Refresh.RecommendableMapped(s.games, later, config.catalogueLimit);
    Refresh.RankedMapped(DenseScorer(root), q, scan, Pairs(s, user), config.limit, later);
    Refresh.CoresMapped(DenseRanks(root, q, scan, Pairs(s, user), config.limit), later);
  }

  /** Some vector for an unembedded game the user acted on, and that is no candidate, changes their list exactly when
      its actions do not cancel out, the list may hold anything, and some candidate has a vector within reach. */
  lemma RememberedMovesIff(s: StoreState, user: UserId, config: G.Config, root: Root, g: GameId)
    requires Waiting(s, user, config, root, g) && Remembers(s, user, g) && !Candidate(s, user, config, g)
    ensures (exists v :: Moves(s, user, config, g, v)) <==>
      && TotalWeight(Profile(s, user).history, g) != 0.0 && config.limit > 0
      && exists h :: InReach(s, user, config, h)
  {
    if TotalWeight(Profile(s, user).history, g) != 0.0 && config.limit > 0 && exists h :: InReach(s, user, config, h) {
      var h :| InReach(s, user, config, h);
      SteeringMoves(s, user, config, root, g, h);
    } else {
      forall v ensures !Moves(s, user, config, g, v) { NothingToSteer(s, user, config, root, g, v); }
    }
  }

  lemma SteeringMoves(s: StoreState, user: UserId, config: G.Config, root: Root, g: GameId, h: GameId)
    requires Waiting(s, user, config, root, g) && Remembers(s, user, g) && !Candidate(s, user, config, g)
    requires TotalWeight(Profile(s, user).history, g) != 0.0 && config.limit > 0 && InReach(s, user, config, h)
    ensures exists v :: Moves(s, user, config, g, v)
  {
    var u, d, w := s.games[h].dense, Taste(s, user, config), TotalWeight(Profile(s, user).history, g);
    G.RecommendableUnique(s.games, config.catalogueLimit);
    CosineWithItself(u, root);
    TurnedTo(s, user, config, root, g, u);
    TurnedTo(s, user, config, root, g, Opposite(u));
    OppositeTastesDiffer(root, Profile(s, user), Scan(s, config), Pairs(s, user), config.limit, s.games[h]);
    assert Moves(s, user, config, g, Towards(d, u, w)) || Moves(s, user, config, g, Towards(d, Opposite(u), w));
  }

  lemma TurnedTo(s: StoreState, user: UserId, config: G.Config, root: Root, g: GameId, target: Dense)
    requires Waiting(s, user, config, root, g) && Remembers(s, user, g) && !Candidate(s, user, config, g)
    requires TotalWeight(Profile(s, user).history, g) != 0.0 && target != []
    requires var d := Taste(s, user, config); d == [] || |d| == |target|
    ensures var v := Towards(Taste(s, user, config), target, TotalWeight(Profile(s, user).history, g));
      var plan := G.PlanFor(Landed(s, g, v), user, config);
      !plan.Fails? && G.PlanCores(plan) == Offered(s, user, config, root, Scan(s, config), target)
  {
    var history, d := Profile(s, user).history, Taste(s, user, config);
    var v := Towards(d, target, TotalWeight(history, g));
    LandedPlan(s, user, config, root, g, v);
    LandedSpace(s, user, g, v);
    SteeredTo(history, SpaceFor(s, user), SpaceFor(Landed(s, g, v), user), g, target);
    SteeredPlan(s, user, config, root, g, v);
  }

  lemma NothingToSteer(s: StoreState, user: UserId, config: G.Config, root: Root, g: GameId, v: Dense)
    requires Waiting(s, user, config, root, g) && Remembers(s, user, g) && !Candidate(s, user, config, g)
    requires TotalWeight(Profile(s, user).history, g) == 0.0 || config.limit == 0
          || forall h :: !InReach(s, user, config, h)
    ensures !Moves(s, user, config, g, v)
  {
    if TasteAfter(s, user, g, v).Some? {
      if config.limit == 0 {
        NothingOffered(s, user, config, root, Taste(s, user, config));
        NothingOffered(s, user, config, root, TasteAfter(s, user, g, v).value);
      } else {
        SameOffer(s, user, config, root, g, v);
      }
    }
    UnmovedOffer(s, user, config, root, g, v);
  }

  lemma UnmovedOffer(s: StoreState, user: UserId, config: G.Config, root: Root, g: GameId, v: Dense)
    requires Waiting(s, user, config, root, g) && !Candidate(s, user, config, g)
    requires TasteAfter(s, user, g, v).Some? ==>
      Offered(s, user, config, root, Scan(s, config), TasteAfter(s, user, g, v).value)
      == Offered(s, user, config, root, Scan(s, config), Taste(s, user, config))
    ensures !Moves(s, user, config, g, v)
  {
    LandedPlan(s, user, config, root, g, v);
    if TasteAfter(s, user, g, v).Some? { SteeredPlan(s, user, config, root, g, v); }
  }

  lemma NothingOffered(s: StoreState, user: UserId, config: G.Config, root: Root, taste: Dense)
    requires config.limit == 0
    ensures Offered(s, user, config, root, Scan(s, config), taste) == []
  {}

  lemma SameOffer(s: StoreState, user: UserId, config: G.Config, root: Root, g: GameId, v: Dense)
    requires Waiting(s, user, config, root, g) && Remembers(s, user, g) && TasteAfter(s, user, g, v).Some?
    requires TotalWeight(Profile(s, user).history, g) == 0.0 || forall h :: !InReach(s, user, config, h)
    ensures Offered(s, user, config, root, Scan(s, config), TasteAfter(s, user, g, v).value)
         == Offered(s, user, config, root, Scan(s, config), Taste(s, user, config))
  {
    var a, b := TasteAfter(s, user, g, v).value, Taste(s, user, config);
    forall x | x in Scan(s, config) && x.isPublished && x.id !in Profile(s, user).owned
      ensures DenseCosine(a, x.dense, root) == DenseCosine(b, x.dense, root)
    {
      SameAngle(s, user, config, root, g, v, x);
    }
    ReachlessTastes(root, Profile(s, user), a, b, Scan(s, config), Pairs(s, user), config.limit);
  }

  lemma SameAngle(s: StoreState, user: UserId, config: G.Config, root: Root, g: GameId, v: Dense, x: Game)
    requires Waiting(s, user, config, root, g) && Remembers(s, user, g)
    requires TotalWeight(Profile(s, user).history, g) == 0.0 || forall h :: !InReach(s, user, config, h)
    requires x in Scan(s, config) && x.id !in Profile(s, user).owned
    requires TasteAfter(s, user, g, v).Some?
    ensures DenseCosine(TasteAfter(s, user, g, v).value, x.dense, root)
         == DenseCosine(Taste(s, user, config), x.dense, root)
  {
    var history, space, other := Profile(s, user).history, SpaceFor(s, user), SpaceFor(Landed(s, g, v), user);
    LandedPlan(s, user, config, root, g, v);
    LandedSpace(s, user, g, v);
    if TotalWeight(history, g) == 0.0 {
      CancelledOut(root, history, space, other, g, v, x.dense);
    } else {
      G.RecommendableUnique(s.games, config.catalogueLimit);
      assert Candidate(s, user, config, x.id) && !InReach(s, user, config, x.id);
      if !Pointed(x.dense) {
        PointlessCosine(Taste(s, user, config), x.dense, root);
        PointlessCosine(RebuiltDense(history, other).value, x.dense, root);
      } else {
        WidthKept(history, space, other, g, v);
      }
    }
  }

  lemma WidthKept(history: seq<SignalRecord>, space: Space, other: Space, g: GameId, v: Dense)
    requires OneMore(space, other, g, v) && RebuiltDense(history, space).Some? && RebuiltDense(history, other).Some?
    ensures var d := RebuiltDense(history, space).value; d != [] ==> |RebuiltDense(history, other).value| == |d|
  {
    RebuiltIsWeightedSum(history, space);
    RebuiltIsWeightedSum(history, other);
    if RebuiltDense(history, space).value != [] {
      var k :| 0 <= k < |history| && VectorOf(space, history[k].game) != [];
      assert VectorOf(other, history[k].game) == VectorOf(space, history[k].game);
    }
  }

  // ---------------------------------------------------------------- a candidate the user acted on

  /** A share of the taste small enough not to turn it round. */
  function ShareFor(w: real): (k: real)
    ensures k > 0.0 && 1.0 + Times(w, k) > 0.0
  {
    if w >= 0.0 then 1.0 else
    HalfBack(w);
    1.0 / (-2.0 * w)
  }

  lemma HalfBack(w: real)
    requires w < 0.0
    ensures 1.0 / (-2.0 * w) > 0.0 && Times(w, 1.0 / (-2.0 * w)) == -0.5
  {}

  lemma AlongAdds(d: real, w: real, k: real)
    ensures d + Times(w, Times(k, d)) == Times(1.0 + Times(w, k), d)
  {}

  /** Given a share of the taste for its vector, a candidate the user acted on only stretches the taste. */
  lemma AlongTheTaste(history: seq<SignalRecord>, space: Space, other: Space, g: GameId, share: real, k: real)
    requires RebuiltDense(history, space).Some? && RebuiltDense(history, space).value != []
    requires Steering.Remembered(history, g) && k == 1.0 + Times(TotalWeight(history, g), share)
    requires OneMore(space, other, g, Along(RebuiltDense(history, space).value, share))
    ensures RebuiltDense(history, other) == Some(Along(RebuiltDense(history, space).value, k))
  {
    var d, w := RebuiltDense(history, space).value, TotalWeight(history, g);
    OneMoreRebuilt(history, space, other, g, Along(d, share));
    var r := RebuiltDense(history, other).value;
    forall i | 0 <= i < |d| ensures r[i] == Along(d, k)[i] {
      AlongAdds(d[i], w, share);
    }
    assert r == Along(d, k);
  }

  lemma TasteStretched(s: StoreState, user: UserId, config: G.Config, root: Root, g: GameId, share: real, k: real)
    requires Waiting(s, user, config, root, g) && Remembers(s, user, g) && Taste(s, user, config) != []
    requires k == 1.0 + Times(TotalWeight(Profile(s, user).history, g), share)
    ensures TasteAfter(s, user, g, Along(Taste(s, user, config), share)) == Some(Along(Taste(s, user, config), k))
  {
    var v := Along(Taste(s, user, config), share);
    LandedPlan(s, user, config, root, g, v);
    LandedSpace(s, user, g, v);
    AlongTheTaste(Profile(s, user).history, SpaceFor(s, user), SpaceFor(Landed(s, g, v), user), g, share, k);
  }

  lemma StretchedLanding(s: StoreState, user: UserId, config: G.Config, root: Root, g: GameId, share: real, k: real)
    requires Waiting(s, user, config, root, g) && Candidate(s, user, config, g) && share > 0.0 && k > 0.0
    requires Pointed(Taste(s, user, config)) && |RivalsOf(s, user, config, root, g)| < config.limit
    requires TasteAfter(s, user, g, Along(Taste(s, user, config), share)) == Some(Along(Taste(s, user, config), k))
    ensures Moves(s, user, config, g, Along(Taste(s, user, config), share))
  {
    var d := Taste(s, user, config);
    G.RecommendableUnique(s.games, config.catalogueLimit);
    StretchedMoves(root, Tasting(Profile(s, user), d), Scan(s, config), Pairs(s, user), config.limit, s.games[g],
      share, k);
    LandedPlan(s, user, config, root, g, Along(d, share));
  }

  /** A candidate the user acted on moves their list under the same condition, though it may under others too. */
  lemma ActedOnCandidateMoves(s: StoreState, user: UserId, config: G.Config, root: Root, g: GameId)
    requires Waiting(s, user, config, root, g) && Candidate(s, user, config, g) && Remembers(s, user, g)
    requires Pointed(Taste(s, user, config)) && |RivalsOf(s, user, config, root, g)| < config.limit
    ensures exists v :: Moves(s, user, config, g, v)
  {
    var share := ShareFor(TotalWeight(Profile(s, user).history, g));
    var k := 1.0 + Times(TotalWeight(Profile(s, user).history, g), share);
    CosineWithItself(Taste(s, user, config), root);
    TasteStretched(s, user, config, root, g, share, k);
    StretchedLanding(s, user, config, root, g, share, k);
    assert Moves(s, user, config, g, Along(Taste(s, user, config), share));
  }

  // ---------------------------------------------------------------- as an answer of the provider

  /** The provider's answer to a batch, game by game; an empty vector leaves its game waiting. */
  function AnswerBy(pending: seq<Game>, answer: GameId -> Dense): (r: seq<Dense>)
    ensures |r| == |pending|
  {
    Map(pending, (x: Game) => answer(x.id))
  }

  lemma {:induction false} AnswerAt(games: Games, pending: seq<Game>, answer: GameId -> Dense, g: GameId)
    requires forall x :: x in pending ==> x.id in games && games[x.id] == x
    ensures var after := G.EmbedAll(games, pending, AnswerBy(pending, answer));
      && (g in after <==> g in games)
      && (g in games ==>
            after[g] == if G.Held(pending, g).Some? then games[g].Embedded(answer(g)) else games[g])
  {
    if pending != [] {
      var front, last := pending[..|pending| - 1], pending[|pending| - 1];
      assert pending == front + [last] && last in pending;
      assert AnswerBy(pending, answer)[..|front|] == AnswerBy(front, answer);
      AnswerAt(games, front, answer, g);
    }
  }

  /** Answered so, a pass and a generation store another list than the one stored before. */
  ghost predicate Stirs(s: StoreState, user: UserId, config: G.Config, batch: nat, vectors: seq<Dense>, call: G.Call) {
    var swept := Refresh.Swept(s, batch, Some(vectors), [call], config);
    swept.Some? && G.StoredCores(swept.value, user) != G.StoredCores(s, user)
  }

  /** What is stored is the plan, and the call generates for the user. */
  predicate Regenerates(s: StoreState, user: UserId, config: G.Config, call: G.Call) {
    G.StoredCores(s, user) == G.PlanCores(G.PlanFor(s, user, config)) && call.user == user && !call.fault
  }

  lemma EmbeddedStirs(s: StoreState, user: UserId, config: G.Config, batch: nat, vectors: seq<Dense>, call: G.Call)
    requires G.EmbeddedPending(s, batch, Some(vectors)).Some? && Regenerates(s, user, config, call)
    requires var t := G.EmbeddedPending(s, batch, Some(vectors)).value;
      && !G.PlanFor(t, user, config).Fails?
      && G.PlanCores(G.PlanFor(t, user, config)) != G.PlanCores(G.PlanFor(s, user, config))
    ensures Stirs(s, user, config, batch, vectors, call)
  {
    SweptStored(s, batch, Some(vectors), [call], user, config);
    assert [call][0] == call;
  }

  function One(g: GameId, v: Dense): GameId -> Dense {
    x => if x == g then v else []
  }

  function Two(g: GameId, v: Dense, h: GameId, u: Dense): GameId -> Dense {
    x => if x == g then v else if x == h then u else []
  }

  /** The catalogue an answer leaves: the answered games embedded, the others as they were. */
  ghost predicate AnsweredAs(games: Games, answer: GameId -> Dense, after: Games) {
    && (forall x :: x in after <==> x in games)
    && forall x :: x in games ==> AnsweredAt(games[x], answer(x), after[x])
  }

  predicate AnsweredAt(game: Game, v: Dense, after: Game) {
    after == if v == [] then game else game.Embedded(v)
  }

  /** Only games of the batch are answered. */
  ghost predicate Within(answer: GameId -> Dense, pending: seq<Game>) {
    forall x :: answer(x) != [] ==> G.Held(pending, x).Some?
  }

  lemma AnswerLands(games: Games, batch: nat, answer: GameId -> Dense, after: Games)
    requires Within(answer, G.Pending(games, batch))
    requires AnsweredAs(games, answer, after)
    ensures G.EmbedAll(games, G.Pending(games, batch), AnswerBy(G.Pending(games, batch), answer)) == after
  {
    var pending := G.Pending(games, batch);
    var embedded := G.EmbedAll(games, pending, AnswerBy(pending, answer));
    forall x ensures (x in embedded <==> x in after) && (x in embedded ==> embedded[x] == after[x]) {
      AnswerLandsAt(games, batch, answer, x);
      assert x in games ==> AnsweredAt(games[x], answer(x), after[x]);
    }
    CoPurchase.SameEntries(embedded, after);
  }

  lemma AnswerLandsAt(games: Games, batch: nat, answer: GameId -> Dense, x: GameId)
    requires answer(x) != [] ==> G.Held(G.Pending(games, batch), x).Some?
    ensures var after := G.EmbedAll(games, G.Pending(games, batch), AnswerBy(G.Pending(games, batch), answer));
      && (x in after <==> x in games)
      && (x in games ==> after[x] == if answer(x) == [] then games[x] else games[x].Embedded(answer(x)))
  {
    PendingKnownNeeds(games, batch);
    AnswerAt(games, G.Pending(games, batch), answer, x);
    G.HeldMember(G.Pending(games, batch), x);
  }

  lemma EmbeddedWith(s: StoreState, batch: nat, vectors: seq<Dense>, after: Games)
    requires |vectors| == |G.Pending(s.games, batch)|
      && G.EmbedAll(s.games, G.Pending(s.games, batch), vectors) == after
    ensures G.EmbeddedPending(s, batch, Some(vectors)) == Some(s.(games := after))
  {}

  lemma LandsAs(s: StoreState, batch: nat, answer: GameId -> Dense, after: Games)
    requires Within(answer, G.Pending(s.games, batch)) && AnsweredAs(s.games, answer, after)
    ensures G.EmbeddedPending(s, batch, Some(AnswerBy(G.Pending(s.games, batch), answer))) == Some(s.(games := after))
  {
    AnswerLands(s.games, batch, answer, after);
    EmbeddedWith(s, batch, AnswerBy(G.Pending(s.games, batch), answer), after);
  }

  lemma OneWithin(pending: seq<Game>, g: GameId, v: Dense)
    requires G.Held(pending, g).Some?
    ensures Within(One(g, v), pending)
  {}

  lemma TwoWithin(pending: seq<Game>, g: GameId, v: Dense, h: GameId, u: Dense)
    requires G.Held(pending, g).Some? && G.Held(pending, h).Some?
    ensures Within(Two(g, v, h, u), pending)
  {}

  lemma OneAnswered(games: Games, g: GameId, v: Dense)
    requires g in games && games[g].Embedded([]) == games[g]
    ensures AnsweredAs(games, One(g, v), games[g := games[g].Embedded(v)])
  {}

  lemma TwoAnswered(games: Games, g: GameId, v: Dense, h: GameId, u: Dense)
    requires g != h && g in games && games[g].Embedded([]) == games[g]
    requires h in games && games[h].Embedded([]) == games[h]
    ensures AnsweredAs(games, Two(g, v, h, u), games[h := games[h].Embedded(u)][g := games[g].Embedded(v)])
  {}

  lemma WaitingIsEmpty(games: Games, batch: nat, g: GameId)
    requires G.Held(G.Pending(games, batch), g).Some?
    ensures g in games && games[g].dense == [] && games[g].Embedded([]) == games[g]
  {
    PendingKnownNeeds(games, batch);
    G.HeldMember(G.Pending(games, batch), g);
  }

  /** An answer that changes the plan makes the next sweep store another list. */
  lemma PlanStirs(s: StoreState, user: UserId, config: G.Config, batch: nat, answer: GameId -> Dense, t: StoreState,
                  call: G.Call)
    requires Within(answer, G.Pending(s.games, batch)) && AnsweredAs(s.games, answer, t.games)
    requires t == s.(games := t.games) && Regenerates(s, user, config, call)
    requires !G.PlanFor(t, user, config).Fails?
    requires G.PlanCores(G.PlanFor(t, user, config)) != G.PlanCores(G.PlanFor(s, user, config))
    ensures exists vectors :: Stirs(s, user, config, batch, vectors, call)
  {
    LandsAs(s, batch, answer, t.games);
    EmbeddedStirs(s, user, config, batch, AnswerBy(G.Pending(s.games, batch), answer), call);
  }

  /** A vector that changes the user's list is an answer after which the next sweep stores another one. */
  lemma AnswerStirs(s: StoreState, user: UserId, config: G.Config, batch: nat, g: GameId, v: Dense, call: G.Call)
    requires G.Held(G.Pending(s.games, batch), g).Some? && g in s.games && Moves(s, user, config, g, v)
    requires Regenerates(s, user, config, call)
    ensures exists vectors :: Stirs(s, user, config, batch, vectors, call)
  {
    WaitingIsEmpty(s.games, batch, g);
    OneWithin(G.Pending(s.games, batch), g, v);
    OneAnswered(s.games, g, v);
    PlanStirs(s, user, config, batch, One(g, v), Landed(s, g, v), call);
  }

  /** A vector of the taste's width, or of any when there is none. */
  function Unit(width: nat): (r: Dense)
    ensures r != [] && (width == 0 || |r| == width)
  {
    seq(if width == 0 then 1 else width, i => 1.0)
  }

  lemma UnitPoints(width: nat)
    ensures Pointed(Unit(width))
  {
    var u := Unit(width);
    DenseDotZero(u, u);
    assert u[0] == 1.0;
  }

  /** A bought game and a candidate in one batch change the list together, whatever vectors there are already. */
  lemma TogetherTheyStir(s: StoreState, user: UserId, config: G.Config, root: Root, batch: nat, g: GameId, h: GameId,
                         call: G.Call)
    requires Waiting(s, user, config, root, g) && Remembers(s, user, g) && !Candidate(s, user, config, g)
    requires TotalWeight(Profile(s, user).history, g) != 0.0 && config.limit > 0
    requires Waiting(s, user, config, root, h) && Candidate(s, user, config, h) && !Remembers(s, user, h)
    requires G.Held(G.Pending(s.games, batch), g).Some? && G.Held(G.Pending(s.games, batch), h).Some?
    requires Regenerates(s, user, config, call)
    ensures exists vectors :: Stirs(s, user, config, batch, vectors, call)
  {
    var u := Unit(|Taste(s, user, config)|);
    var t := Landed(s, h, u);
    CandidateInReach(s, user, config, root, g, h, u);
    if Moves(s, user, config, h, u) {
      AnswerStirs(s, user, config, batch, h, u, call);
    } else {
      SteeringMoves(t, user, config, root, g, h);
      var v :| Moves(t, user, config, g, v);
      WaitingIsEmpty(s.games, batch, g);
      WaitingIsEmpty(s.games, batch, h);
      TwoWithin(G.Pending(s.games, batch), g, v, h, u);
      TwoAnswered(s.games, g, v, h, u);
      PlanStirs(s, user, config, batch, Two(g, v, h, u), Landed(t, g, v), call);
    }
  }

  /** Once the candidate has its vector the bought game can steer the taste towards it. */
  lemma CandidateInReach(s: StoreState, user: UserId, config: G.Config, root: Root, g: GameId, h: GameId, u: Dense)
    requires Waiting(s, user, config, root, g) && Remembers(s, user, g) && !Candidate(s, user, config, g)
    requires Waiting(s, user, config, root, h) && Candidate(s, user, config, h) && !Remembers(s, user, h)
    requires u == Unit(|Taste(s, user, config)|)
    ensures var t := Landed(s, h, u);
      && Waiting(t, user, config, root, g) && Remembers(t, user, g) && !Candidate(t, user, config, g)
      && !G.PlanFor(t, user, config).Fails? && InReach(t, user, config, h)
  {
    var t := Landed(s, h, u);
    UnitPoints(|Taste(s, user, config)|);
    LandedSpace(s, user, h, u);
    LandedPlan(s, user, config, root, h, u);
    RankedPlan(t, user, config, root);
    LandedGames(s, h, u, config.catalogueLimit);
    ScanKept(s.games, t.games, config.catalogueLimit, g);
    ScanKept(s.games, t.games, config.catalogueLimit, h);
  }

  lemma PendingKnownNeeds(games: Games, batch: nat)
    ensures forall x :: x in G.Pending(games, batch) ==> x.id in games && games[x.id] == x && x.NeedsEmbedding()
  {
    G.PendingKnown(games, batch);
  }

  // ---------------------------------------------------------------- progress

  /** The games waiting for a vector. */
  function NeedingIds(games: Games): set<GameId> {
    set g | g in games && games[g].NeedsEmbedding()
  }

  function Needing(games: Games): seq<Game> {
    Filter(Catalogue(games), (x: Game) => x.NeedsEmbedding())
  }

  function IdsOf(games: seq<Game>): set<GameId> {
    set x | x in games :: x.id
  }

  lemma {:induction false} IdsSize(games: seq<Game>)
    requires UniqueIds(games)
    ensures |IdsOf(games)| == |games|
  {
    if games != [] {
      var front, last := games[..|games| - 1], games[|games| - 1];
      assert games == front + [last];
      IdsSize(front);
      assert IdsOf(games) == IdsOf(front) + {last.id};
    }
  }

  lemma DistinctIds(games: Games, xs: seq<Game>)
    requires Distinct(xs) && forall x :: x in xs ==> x.id in games && games[x.id] == x
    ensures UniqueIds(xs)
  {
    forall i, j | 0 <= i < j < |xs| ensures xs[i].id != xs[j].id { assert xs[i] in xs && xs[j] in xs; }
  }

  /** A snapshot takes as many waiting games as the batch allows. */
  lemma PendingSize(games: Games, batch: nat)
    ensures |G.Pending(games, batch)| == if |NeedingIds(games)| <= batch then |NeedingIds(games)| else batch
    ensures UniqueIds(G.Pending(games, batch))
  {
    CatalogueDistinct(games);
    FilterDistinct(Catalogue(games), (x: Game) => x.NeedsEmbedding());
    DistinctIds(games, Needing(games));
    IdsSize(Needing(games));
    NeedingAre(games);
    G.TopDistinct(Needing(games), PopularityKey, batch);
    PendingKnownNeeds(games, batch);
    DistinctIds(games, G.Pending(games, batch));
  }

  lemma NeedingAre(games: Games)
    ensures IdsOf(Needing(games)) == NeedingIds(games)
  {
    forall g | g in NeedingIds(games) ensures g in IdsOf(Needing(games)) {
      assert games[g] in Needing(games) && games[g].id == g;
    }
    forall x | x in Needing(games) ensures x.id in NeedingIds(games) {}
  }

  lemma {:induction false} HeldIff(pending: seq<Game>, g: GameId)
    ensures G.Held(pending, g).Some? <==> g in IdsOf(pending)
  {
    if pending != [] {
      var front, last := pending[..|pending| - 1], pending[|pending| - 1];
      assert pending == front + [last];
      HeldIff(front, g);
      assert IdsOf(pending) == IdsOf(front) + {last.id};
    }
  }

  ghost predicate AllVectors(vectors: seq<Dense>) {
    forall v :: v in vectors ==> v != []
  }

  /** A pass whose provider answers every game takes its whole batch off the waiting games, and nothing else. */
  lemma PassProgress(games: Games, batch: nat, vectors: seq<Dense>)
    requires |vectors| == |G.Pending(games, batch)| && AllVectors(vectors)
    ensures var n := |NeedingIds(games)|;
      |NeedingIds(G.EmbedAll(games, G.Pending(games, batch), vectors))| == if n <= batch then 0 else n - batch
  {
    var pending := G.Pending(games, batch);
    var after := G.EmbedAll(games, pending, vectors);
    forall g ensures g in NeedingIds(after) <==> g in NeedingIds(games) && g !in IdsOf(pending) {
      TakenOff(games, batch, vectors, g);
    }
    PendingNeed(games, batch);
    PendingSize(games, batch);
    IdsSize(pending);
    SizeOfRest(NeedingIds(games), NeedingIds(after), IdsOf(pending));
  }

  lemma TakenOff(games: Games, batch: nat, vectors: seq<Dense>, g: GameId)
    requires |vectors| == |G.Pending(games, batch)| && AllVectors(vectors)
    ensures g in NeedingIds(G.EmbedAll(games, G.Pending(games, batch), vectors))
       <==> g in NeedingIds(games) && g !in IdsOf(G.Pending(games, batch))
  {
    var pending := G.Pending(games, batch);
    PendingKnownNeeds(games, batch);
    G.EmbedAllAt(games, pending, vectors, g);
    HeldIff(pending, g);
    G.HeldMember(pending, g);
  }

  lemma PendingNeed(games: Games, batch: nat)
    ensures IdsOf(G.Pending(games, batch)) <= NeedingIds(games)
  {
    PendingKnownNeeds(games, batch);
  }

  lemma SizeOfRest<T>(all: set<T>, rest: set<T>, taken: set<T>)
    requires taken <= all && forall g :: g in rest <==> g in all && g !in taken
    ensures |rest| == |all| - |taken|
  {
    assert all == rest + taken && rest !! taken;
  }

  /** Passes one after another, each answered. */
  function Embeds(batch: nat, answers: seq<seq<Dense>>): seq<Action> {
    if answers == [] then [] else
    Embeds(batch, answers[..|answers| - 1]) + [Snapshot(0, batch)] + [WriteBack(0, Some(answers[|answers| - 1]))]
  }

  /** Every game of every batch is answered with a vector. */
  ghost predicate AllAnswered(w: World, batch: nat, answers: seq<seq<Dense>>, config: G.Config) {
    answers == [] ||
    var front, last := answers[..|answers| - 1], answers[|answers| - 1];
    && AllAnswered(w, batch, front, config)
    && |last| == |G.Pending(From(w, Embeds(batch, front), config).store.games, batch)| && AllVectors(last)
  }

  /** How many games still wait after some passes. */
  function StillWaiting(n: nat, batch: nat, passes: nat): nat {
    if passes == 0 then n else
    var m := StillWaiting(n, batch, passes - 1);
    if m <= batch then 0 else m - batch
  }

  lemma {:induction false} WaitingRunsOut(n: nat, batch: nat, passes: nat)
    ensures StillWaiting(n, batch, passes) == if n <= passes * batch then 0 else n - passes * batch
  {
    if passes > 0 {
      WaitingRunsOut(n, batch, passes - 1);
      assert passes * batch == (passes - 1) * batch + batch;
    } else {
      assert passes * batch == 0;
    }
  }

  lemma FromSnoc(w: World, tail: seq<Action>, a: Action, config: G.Config)
    ensures From(w, tail + [a], config) == Next(From(w, tail, config), a, config)
  {
    assert (tail + [a])[..|tail|] == tail;
  }

  /** One answered pass, its two transactions in a row. */
  lemma PassRuns(w: World, batch: nat, vectors: seq<Dense>, config: G.Config)
    requires w.passes == map[] && |vectors| == |G.Pending(w.store.games, batch)| && AllVectors(vectors)
    ensures var t := Next(Next(w, Snapshot(0, batch), config), WriteBack(0, Some(vectors)), config);
      var n := |NeedingIds(w.store.games)|;
      && t.passes == map[] && |NeedingIds(t.store.games)| == if n <= batch then 0 else n - batch
  {
    PassProgress(w.store.games, batch, vectors);
    BothTransactions(w, batch, vectors, config);
  }

  lemma BothTransactions(w: World, batch: nat, vectors: seq<Dense>, config: G.Config)
    requires w.passes == map[] && |vectors| == |G.Pending(w.store.games, batch)|
    ensures var t := Next(Next(w, Snapshot(0, batch), config), WriteBack(0, Some(vectors)), config);
      t.passes == map[] && t.store.games == G.EmbedAll(w.store.games, G.Pending(w.store.games, batch), vectors)
  {
    var pending := G.Pending(w.store.games, batch);
    var taken := Next(w, Snapshot(0, batch), config);
    assert taken == World(w.store, map[0 := pending]);
    LandsWhole(taken, pending, vectors, config);
  }

  lemma LandsWhole(w: World, pending: seq<Game>, vectors: seq<Dense>, config: G.Config)
    requires w.passes == map[0 := pending] && |vectors| == |pending|
    ensures var t := Next(w, WriteBack(0, Some(vectors)), config);
      t.passes == map[] && t.store.games == G.EmbedAll(w.store.games, pending, vectors)
  {
    assert w.passes - {0} == map[];
    WrittenWhole(w.store, pending, vectors);
  }

  lemma WrittenWhole(s: StoreState, pending: seq<Game>, vectors: seq<Dense>)
    requires |vectors| == |pending|
    ensures After(s, G.WrittenBack(s, pending, Some(vectors))).games == G.EmbedAll(s.games, pending, vectors)
  {
    if pending == [] { assert G.EmbedAll(s.games, pending, vectors) == s.games; }
  }

  lemma {:induction false} PassesDrain(w: World, batch: nat, answers: seq<seq<Dense>>, config: G.Config)
    requires w.passes == map[] && AllAnswered(w, batch, answers, config)
    ensures var t := From(w, Embeds(batch, answers), config);
      && t.passes == map[]
      && |NeedingIds(t.store.games)| == StillWaiting(|NeedingIds(w.store.games)|, batch, |answers|)
  {
    if answers != [] {
      var front, last := answers[..|answers| - 1], answers[|answers| - 1];
      var before := Embeds(batch, front);
      PassesDrain(w, batch, front, config);
      PassRuns(From(w, before, config), batch, last, config);
      FromSnoc(w, before, Snapshot(0, batch), config);
      FromSnoc(w, before + [Snapshot(0, batch)], WriteBack(0, Some(last)), config);
    }
  }

  /** After enough answered passes with no event between, sweeping is idempotent for good, in either space. */
  lemma EnoughPassesSettle(w: World, batch: nat, answers: seq<seq<Dense>>, first: seq<Action>, again: seq<Action>,
                           user: UserId, config: G.Config, root: Root)
    requires Wired(config, root) && w.passes == map[] && AllAnswered(w, batch, answers, config)
    requires |NeedingIds(w.store.games)| <= |answers| * batch
    requires NoDeliveries(first) && NoDeliveries(again) && (GeneratesFor(again, user) ==> GeneratesFor(first, user))
    ensures var t := From(w, Embeds(batch, answers), config);
      G.StoredCores(From(t, first + again, config).store, user) == G.StoredCores(From(t, first, config).store, user)
  {
    var t := From(w, Embeds(batch, answers), config);
    PassesDrain(w, batch, answers, config);
    WaitingRunsOut(|NeedingIds(w.store.games)|, batch, |answers|);
    NothingNeeds(t);
    SettledForGood(t, first, again, user, config, root);
  }

  lemma NothingNeeds(w: World)
    requires w.passes == map[] && |NeedingIds(w.store.games)| == 0
    ensures NoneWaiting(w)
  {
    forall g | g in w.store.games ensures !w.store.games[g].NeedsEmbedding() {
      assert g !in NeedingIds(w.store.games);
    }
  }
}
