/** `application/usecases/generate.py` and `enrich.py`: one user's list, the embedding pass and the sweep. */
module Generate {
  import opened Ordering
  import opened Vectors
  import opened Catalog
  import opened Preference
  import opened Recommendations
  import opened Store
  import opened Scoring
  import opened CoPurchase

  const MAX_COLLABORATIVE_CANDIDATES: nat := 200

  /** How the service is wired. */
  datatype Config = Config(scorer: ContentScorer, denseSpace: bool, catalogueLimit: nat, limit: nat, round: Rounding)

  /** One generation and everything it takes from outside: the explanations, fresh ids, the two clock
      readings, and a failure. */
  datatype Call = Call(
    user: UserId,
    explanations: map<GameId, seq<Reason>>,
    ids: nat -> int,
    eventId: int,
    at: Time,
    eventAt: Time,
    fault: bool)

  // ---------------------------------------------------------------- what a generation decides

  /** The vectors of the played games that are still known. */
  function PlayedSpace(games: Games, ids: seq<GameId>): Space {
    map g | g in ids && g in games :: games[g].dense
  }

  /** The profile ranked with: in the dense space, rebuilt from the vectors available now. */
  function Prepared(games: Games, p: UserPreference, config: Config): (q: Option<UserPreference>)
    ensures q.Some? ==> q.value.user == p.user && q.value.owned == p.owned && q.value.history == p.history
  {
    if !config.denseSpace then Some(p) else Rebuilt(p, PlayedSpace(games, RememberedGames(p.history)))
  }

  datatype Plan = Cold | Fails | Listed(preference: UserPreference, scored: seq<ScoredGame>)

  /** The outcome of a generation before explanations, ids and times. */
  function PlanOf(games: Games, table: Ownerships, p: UserPreference, config: Config): (plan: Plan)
    ensures plan.Listed? ==> plan.preference.user == p.user
  {
    if p.IsCold() then Cold else
    var prepared := Prepared(games, p, config);
    if prepared.None? then Fails else Listed(prepared.value, RankedFor(games, table, prepared.value, config))
  }

  function CoPurchasesFor(table: Ownerships, p: UserPreference): CoPurchases {
    CoPurchased(table, p.user, p.owned, MAX_COLLABORATIVE_CANDIDATES)
  }

  function RankedFor(games: Games, table: Ownerships, p: UserPreference, config: Config): seq<ScoredGame> {
    Ranked(config.scorer, p, Recommendable(games, config.catalogueLimit), CoPurchasesFor(table, p), config.limit)
  }

  function PlanFor(s: StoreState, user: UserId, config: Config): (plan: Plan)
    ensures plan.Listed? ==> plan.preference.user == user
  {
    PlanOf(s.games, s.ownerships, PreferenceOf(s.preferences, user), config)
  }

  /** `_explained`: a model's reasons replace the scorer's for the games it answered about. */
  function Explained(scored: seq<ScoredGame>, explanations: map<GameId, seq<Reason>>): (r: seq<ScoredGame>)
    ensures |r| == |scored|
    ensures forall i :: 0 <= i < |r| ==> r[i].game == scored[i].game && r[i].content == scored[i].content
                                         && r[i].collaborative == scored[i].collaborative
  {
    if explanations == map[] then scored else
    seq(|scored|, i requires 0 <= i < |scored| =>
      if scored[i].game.id in explanations then scored[i].(reasons := explanations[scored[i].game.id]) else scored[i])
  }

  function RecommendationsOf(scored: seq<ScoredGame>, call: Call): (r: seq<Recommendation>)
    ensures |r| == |scored|
  {
    seq(|scored|, i requires 0 <= i < |scored| =>
      Recommendation(call.ids(i), call.user, scored[i].game.id, scored[i].Score(), scored[i].Source(), i + 1, call.at,
                     scored[i].reasons))
  }

  /** The event carrying the whole list. */
  function EventOf(list: seq<Recommendation>, call: Call, config: Config): RecommendationGenerated {
    RecommendationGenerated(call.eventId, call.user, call.eventAt, Map(list, ItemOf(config.round)))
  }

  function ListFor(s: StoreState, call: Call, config: Config): seq<Recommendation> {
    var plan := PlanFor(s, call.user, config);
    if plan.Listed? then RecommendationsOf(Explained(plan.scored, call.explanations), call) else []
  }

  predicate Succeeds(s: StoreState, call: Call, config: Config) {
    !call.fault && !PlanFor(s, call.user, config).Fails?
  }

  /** Only the dense space writes a profile back. */
  function PreferencesAfter(preferences: Preferences, plan: Plan, config: Config): Preferences {
    if plan.Listed? then PreferencesStored(preferences, plan.preference, config) else preferences
  }

  function PreferencesStored(preferences: Preferences, p: UserPreference, config: Config): Preferences {
    if config.denseSpace then preferences[p.user := p] else preferences
  }

  /** One generation, committed or left without a trace. */
  function Generated(s: StoreState, call: Call, config: Config): StoreState {
    if !Succeeds(s, call, config) then s else
    var plan, list := PlanFor(s, call.user, config), ListFor(s, call, config);
    s.(preferences := PreferencesAfter(s.preferences, plan, config),
       recommendations := s.recommendations[call.user := list],
       outbox := if list == [] then s.outbox else s.outbox + [EventOf(list, call, config)])
  }

  // ---------------------------------------------------------------- the use case

  method Explain(scored: seq<ScoredGame>, explanations: map<GameId, seq<Reason>>) returns (r: seq<ScoredGame>)
    ensures r == Explained(scored, explanations)
  {
    if scored == [] || explanations == map[] { return scored; }
    r := [];
    for i := 0 to |scored|
      invariant |r| == i && r == Explained(scored, explanations)[..i]
    {
      var item := scored[i];
      r := r + [if item.game.id in explanations then item.(reasons := explanations[item.game.id]) else item];
    }
  }

  /** The profile to rank with, staged when it was rebuilt. */
  method Prepare(uow: UnitOfWork, p: UserPreference, config: Config) returns (q: Option<UserPreference>)
    modifies uow`preferences
    ensures q == Prepared(old(uow.Merged()).games, p, config)
    ensures q.Some? ==>
      uow.Merged() == old(uow.Merged()).(preferences :=
        PreferencesStored(old(uow.Merged().preferences), q.value, config))
  {
    if !config.denseSpace { return Some(p); }
    var ids := Remembered(p.history);
    var space := FetchSpace(uow, ids);
    q := RebuiltIn(p, space);
    if q.Some? { uow.UpsertPreference(q.value); }
  }

  /** The vectors of the asked games that are known. */
  method FetchSpace(uow: UnitOfWork, ids: seq<GameId>) returns (space: Space)
    ensures space == PlayedSpace(uow.Merged().games, ids)
  {
    var played := uow.GetByIds(ids);
    space := map g | g in played :: g.id := g.dense;
    PlayedIsSpace(uow.Merged().games, ids);
    SpaceAgrees(uow.Merged().games, ids, played, space);
  }

  lemma SpaceAgrees(games: Games, ids: seq<GameId>, played: seq<Game>, space: Space)
    requires forall g :: g in played <==> g.id in ids && g.id in games && games[g.id] == g
    requires space == map g | g in played :: g.id := g.dense
    ensures space == PlayedSpace(games, ids)
  {
    forall id ensures id in space <==> id in ids && id in games {
      if id in ids && id in games { assert games[id] in played && games[id].id == id; }
    }
    forall id | id in space ensures space[id] == games[id].dense {
      var g :| g in played && g.id == id && space[id] == g.dense;
    }
    SameEntries(space, PlayedSpace(games, ids));
  }

  lemma {:induction false} PlayedIsSpace(games: Games, ids: seq<GameId>)
    ensures forall g :: g in ByIds(games, ids) <==> g.id in ids && g.id in games && games[g.id] == g
  {
    if ids != [] {
      PlayedIsSpace(games, ids[1..]);
      assert forall g :: g in ids <==> g == ids[0] || g in ids[1..];
      if ids[0] in games { assert games[ids[0]].id == ids[0]; }
    }
  }

  /** The candidates and the co-purchases, ranked; reads only. */
  method RankCandidates(uow: UnitOfWork, p: UserPreference, config: Config) returns (scored: seq<ScoredGame>)
    requires uow.ownerships == []
    ensures scored == RankedFor(uow.Merged().games, uow.Merged().ownerships, p, config)
  {
    var candidates := uow.GetRecommendable(config.catalogueLimit);
    var table := uow.GetOwnerships();
    var coPurchases := CoPurchasesOf(table, p.user, p.owned, MAX_COLLABORATIVE_CANDIDATES);
    scored := Rank(config.scorer, p, candidates, coPurchases, config.limit);
  }

  /** What staging a generation has to achieve. */
  predicate GenerationStaged(before: StoreState, call: Call, config: Config, after: StoreState, ok: bool,
                             written: nat) {
    && ok == !PlanFor(before, call.user, config).Fails?
    && (ok ==> after == Generated(before, call.(fault := false), config) && written == |ListFor(before, call, config)|)
  }

  method StageGeneration(uow: UnitOfWork, call: Call, config: Config) returns (ok: bool, written: nat)
    requires uow.ownerships == []
    modifies uow`preferences, uow`recommendations, uow`events
    ensures GenerationStaged(old(uow.Merged()), call, config, uow.Merged(), ok, written)
  {
    var found := uow.GetPreference(call.user);
    var p := if found.Some? then found.value else Blank(call.user);
    if p.IsCold() {
      uow.ReplaceFor(call.user, []);
      ColdGenerated(old(uow.Merged()), call, config);
      return true, 0;
    }
    ok, written := StageWarm(uow, p, call, config);
  }

  /** The generation of a user who has signals. */
  method StageWarm(uow: UnitOfWork, p: UserPreference, call: Call, config: Config) returns (ok: bool, written: nat)
    requires uow.ownerships == [] && !p.IsCold() && p == PreferenceOf(uow.Merged().preferences, call.user)
    modifies uow`preferences, uow`recommendations, uow`events
    ensures GenerationStaged(old(uow.Merged()), call, config, uow.Merged(), ok, written)
  {
    ghost var before := uow.Merged();
    var q := Prepare(uow, p, config);
    WarmPlan(before, call, config);
    if q.None? { return false, 0; }
    written := StageRanked(uow, q.value, call, config, before);
    ok := true;
  }

  /** Ranks, explains and stores for a prepared profile; `before` is the state the generation started from. */
  method StageRanked(uow: UnitOfWork, p: UserPreference, call: Call, config: Config, ghost before: StoreState)
    returns (written: nat)
    requires uow.ownerships == []
    requires PlanFor(before, call.user, config) == Listed(p, RankedFor(before.games, before.ownerships, p, config))
    requires uow.Merged() == before.(preferences := PreferencesStored(before.preferences, p, config))
    modifies uow`recommendations, uow`events
    ensures GenerationStaged(before, call, config, uow.Merged(), true, written)
  {
    var scored := RankCandidates(uow, p, config);
    var explained := Explain(scored, call.explanations);
    var list := RecommendationsOf(explained, call);
    StoreList(uow, list, call, config);
    StagedAsGenerated(before, call, config, p, scored, uow.Merged());
    written := |list|;
  }

  lemma WarmPlan(s: StoreState, call: Call, config: Config)
    requires !PreferenceOf(s.preferences, call.user).IsCold()
    ensures var q := Prepared(s.games, PreferenceOf(s.preferences, call.user), config);
      PlanFor(s, call.user, config)
        == if q.None? then Fails else Listed(q.value, RankedFor(s.games, s.ownerships, q.value, config))
  {}

  lemma ColdGenerated(s: StoreState, call: Call, config: Config)
    requires PlanFor(s, call.user, config) == Cold
    ensures ListFor(s, call, config) == []
    ensures Generated(s, call.(fault := false), config) == s.(recommendations := s.recommendations[call.user := []])
  {}

  lemma StagedAsGenerated(s: StoreState, call: Call, config: Config, p: UserPreference, scored: seq<ScoredGame>,
                          after: StoreState)
    requires PlanFor(s, call.user, config) == Listed(p, scored)
    requires var list := RecommendationsOf(Explained(scored, call.explanations), call);
      after == s.(preferences := PreferencesAfter(s.preferences, Listed(p, scored), config),
                  recommendations := s.recommendations[call.user := list],
                  outbox := s.outbox + if list == [] then [] else [EventOf(list, call, config)])
    ensures GenerationStaged(s, call, config, after, true,
      |RecommendationsOf(Explained(scored, call.explanations), call)|)
  {
    assert s.outbox + [] == s.outbox;
  }

  method StoreList(uow: UnitOfWork, list: seq<Recommendation>, call: Call, config: Config)
    modifies uow`recommendations, uow`events
    ensures uow.Merged() == old(uow.Merged()).(
      recommendations := old(uow.Merged().recommendations)[call.user := list],
      outbox := old(uow.Merged().outbox) + if list == [] then [] else [EventOf(list, call, config)])
  {
    uow.ReplaceFor(call.user, list);
    if list != [] {
      uow.Enqueue(EventOf(list, call, config));
    }
  }

  /** One user's generation in its own transaction; `None` when it raised. */
  method Execute(store: MemoryStore, call: Call, config: Config) returns (written: Option<nat>)
    modifies store
    ensures store.View() == Generated(old(store.View()), call, config)
    ensures written.Some? <==> Succeeds(old(store.View()), call, config)
    ensures written.Some? ==> written.value == |ListFor(old(store.View()), call, config)|
  {
    var uow := new UnitOfWork(store);
    var ok, n := StageGeneration(uow, call, config);
    if ok && !call.fault {
      uow.Commit();
      written := Some(n);
    } else {
      written := None;
    }
    uow.Exit();
  }

  // ---------------------------------------------------------------- the shape of a stored list

  /** Ranks are 1..n, games are distinct, and scores never rise down the list. */
  ghost predicate WellShaped(list: seq<Recommendation>) {
    && (forall i :: 0 <= i < |list| ==> list[i].rank == i + 1 && 0.0 < list[i].score)
    && (forall i, j :: 0 <= i < j < |list| ==> list[i].game != list[j].game && list[i].score >= list[j].score)
  }

  lemma {:induction false} TopDistinct<T(!new)>(xs: seq<T>, key: T -> Key, limit: nat)
    requires Distinct(xs)
    ensures Distinct(Top(xs, key, limit))
  {
    DistinctMultiset(xs, Sort(xs, key));
  }

  lemma RecommendableUnique(games: Games, limit: nat)
    ensures UniqueIds(Recommendable(games, limit))
    ensures forall g :: g in Recommendable(games, limit) ==> g.isPublished && g.id in games && games[g.id] == g
  {
    var r := Recommendable(games, limit);
    CatalogueDistinct(games);
    TopDistinct(PublishedGames(games), PopularityKey, limit);
    forall i, j | 0 <= i < j < |r| ensures r[i].id != r[j].id {
      assert r[i] in r && r[j] in r;
    }
  }

  lemma SameScores(x: ScoredGame, y: ScoredGame)
    requires x.content == y.content && x.collaborative == y.collaborative
    ensures x.Score() == y.Score() && x.Source() == y.Source()
  {}

  lemma ListedAt(scored: seq<ScoredGame>, call: Call, i: nat)
    requires i < |scored|
    ensures var r := RecommendationsOf(Explained(scored, call.explanations), call)[i];
      && r.user == call.user && r.game == scored[i].game.id && r.rank == i + 1
      && r.score == scored[i].Score() && r.source == scored[i].Source()
  {
    SameScores(Explained(scored, call.explanations)[i], scored[i]);
  }

  lemma ListShape(scored: seq<ScoredGame>, call: Call)
    requires forall i :: 0 <= i < |scored| ==> scored[i].Score() > 0.0
    requires forall i, j :: 0 <= i < j < |scored| ==>
      scored[i].game.id != scored[j].game.id && scored[i].Score() >= scored[j].Score()
    ensures WellShaped(RecommendationsOf(Explained(scored, call.explanations), call))
    ensures forall r :: r in RecommendationsOf(Explained(scored, call.explanations), call) ==>
      r.user == call.user && exists i :: 0 <= i < |scored| && scored[i].game.id == r.game
  {
    var explained := Explained(scored, call.explanations);
    var list := RecommendationsOf(explained, call);
    forall i | 0 <= i < |list|
      ensures list[i].game == scored[i].game.id && list[i].score == scored[i].Score() && list[i].user == call.user
    {
      ListedAt(scored, call, i);
    }
  }

  /** Whatever the explainer answers, a list is well shaped and made of published games the user does not own. */
  lemma ListWellShaped(s: StoreState, call: Call, config: Config)
    ensures WellShaped(ListFor(s, call, config))
    ensures forall r :: r in ListFor(s, call, config) ==>
      && r.user == call.user && r.game in s.games && s.games[r.game].isPublished
      && r.game !in PreferenceOf(s.preferences, call.user).owned
  {
    var plan := PlanFor(s, call.user, config);
    if plan.Listed? {
      var scored := plan.scored;
      RankedForShape(s.games, s.ownerships, plan.preference, config);
      assert plan.preference.owned == PreferenceOf(s.preferences, call.user).owned;
      ListShape(scored, call);
      forall r | r in ListFor(s, call, config)
        ensures r.game in s.games && s.games[r.game].isPublished
        ensures r.game !in PreferenceOf(s.preferences, call.user).owned
      {
        var i :| 0 <= i < |scored| && scored[i].game.id == r.game;
      }
    }
  }

  lemma RankedForShape(games: Games, table: Ownerships, p: UserPreference, config: Config)
    ensures var r := RankedFor(games, table, p, config);
      && (forall i :: 0 <= i < |r| ==> r[i].Score() > 0.0)
      && (forall i, j :: 0 <= i < j < |r| ==> r[i].game.id != r[j].game.id && r[i].Score() >= r[j].Score())
      && (forall i :: 0 <= i < |r| ==>
            r[i].game.id in games && games[r[i].game.id].isPublished && r[i].game.id !in p.owned)
  {
    var r := RankedFor(games, table, p, config);
    var coPurchases := CoPurchased(table, p.user, p.owned, MAX_COLLABORATIVE_CANDIDATES);
    RecommendableUnique(games, config.catalogueLimit);
    RankedShape(config.scorer, p, Recommendable(games, config.catalogueLimit), coPurchases, config.limit);
    forall i | 0 <= i < |r|
      ensures r[i].game.id in games && games[r[i].game.id].isPublished && r[i].game.id !in p.owned
    {
      assert r[i] in r;
    }
  }

  lemma RankedShape(scorer: ContentScorer, p: UserPreference, candidates: seq<Game>, coPurchases: CoPurchases,
                    limit: nat)
    requires UniqueIds(candidates)
    ensures var r := Ranked(scorer, p, candidates, coPurchases, limit);
      && (forall i :: 0 <= i < |r| ==> r[i].Score() > 0.0)
      && (forall i, j :: 0 <= i < j < |r| ==> r[i].game.id != r[j].game.id && r[i].Score() >= r[j].Score())
  {
    var r := Ranked(scorer, p, candidates, coPurchases, limit);
    forall i | 0 <= i < |r| ensures r[i].Score() > 0.0 { assert r[i] in r; }
    forall i, j | 0 <= i < j < |r| ensures r[i].game.id != r[j].game.id && r[i].Score() >= r[j].Score() {
      RankedEarlier(scorer, p, candidates, coPurchases, limit, i, j);
      assert r[i] in r && r[j] in r;
      IdsDistinguish(candidates, r[i].game, r[j].game);
    }
  }

  // ---------------------------------------------------------------- generations do not disturb each other

  /** What survives ids, times and explanations: which game, with what score and source, at which rank. */
  function CoreOf(x: ScoredGame, i: nat): Item {
    Item(x.game.id, x.Score(), x.Source(), i + 1)
  }

  function Cores(scored: seq<ScoredGame>): seq<Item> {
    seq(|scored|, i requires 0 <= i < |scored| => CoreOf(scored[i], i))
  }

  function PlanCores(plan: Plan): seq<Item> {
    if plan.Listed? then Cores(plan.scored) else []
  }

  function StoredCores(s: StoreState, user: UserId): seq<Item> {
    Map(StoredFor(s, user), RecommendationCore)
  }

  function RecommendationCore(r: Recommendation): Item {
    Item(r.game, r.score, r.source, r.rank)
  }

  lemma ExplanationsKeepCores(scored: seq<ScoredGame>, call: Call)
    ensures Map(RecommendationsOf(Explained(scored, call.explanations), call), RecommendationCore) == Cores(scored)
  {
    var explained := Explained(scored, call.explanations);
    var list := RecommendationsOf(explained, call);
    forall i | 0 <= i < |list| ensures RecommendationCore(list[i]) == CoreOf(scored[i], i) {
      ListedAt(scored, call, i);
    }
  }

  lemma ListCores(s: StoreState, call: Call, config: Config)
    ensures Map(ListFor(s, call, config), RecommendationCore) == PlanCores(PlanFor(s, call.user, config))
  {
    var plan := PlanFor(s, call.user, config);
    if plan.Listed? { ExplanationsKeepCores(plan.scored, call); }
  }

  lemma RebuiltTwice(p: UserPreference, space: Space)
    requires Rebuilt(p, space).Some?
    ensures Rebuilt(Rebuilt(p, space).value, space) == Rebuilt(p, space)
  {}

  lemma PlanOfPrepared(games: Games, table: Ownerships, p: UserPreference, config: Config)
    requires Prepared(games, p, config).Some?
    ensures PlanOf(games, table, Prepared(games, p, config).value, config) == PlanOf(games, table, p, config)
  {
    if config.denseSpace {
      RebuiltTwice(p, PlayedSpace(games, RememberedGames(p.history)));
    }
  }

  /** Generating for anyone, the same user included, leaves what would be generated for anyone unchanged. */
  lemma PlanStable(s: StoreState, call: Call, config: Config, user: UserId)
    ensures PlanFor(Generated(s, call, config), user, config) == PlanFor(s, user, config)
  {
    var p := PreferenceOf(s.preferences, user);
    GeneratedProfile(s, call, config, user);
    if Prepared(s.games, p, config).Some? { PlanOfPrepared(s.games, s.ownerships, p, config); }
  }

  /** A generation touches nothing a plan reads, but for its user's profile, which it may leave prepared. */
  lemma GeneratedProfile(s: StoreState, call: Call, config: Config, user: UserId)
    ensures var p, t := PreferenceOf(s.preferences, user), Generated(s, call, config);
      && t.games == s.games && t.ownerships == s.ownerships
      && (PreferenceOf(t.preferences, user) == p
        || Some(PreferenceOf(t.preferences, user)) == Prepared(s.games, p, config))
  {
    if PlanFor(s, call.user, config).Listed? && Succeeds(s, call, config) {
      PlannedProfile(s, call.user, config);
      StoredProfile(s.preferences, PlanFor(s, call.user, config).preference, config, user);
    }
  }

  lemma PlannedProfile(s: StoreState, user: UserId, config: Config)
    requires PlanFor(s, user, config).Listed?
    ensures Some(PlanFor(s, user, config).preference) == Prepared(s.games, PreferenceOf(s.preferences, user), config)
  {}

  lemma StoredProfile(preferences: Preferences, q: UserPreference, config: Config, user: UserId)
    ensures PreferenceOf(PreferencesStored(preferences, q, config), user)
         == if config.denseSpace && q.user == user then q else PreferenceOf(preferences, user)
  {}

  function RunCalls(s: StoreState, calls: seq<Call>, config: Config): StoreState {
    if calls == [] then s else
    Generated(RunCalls(s, calls[..|calls| - 1], config), calls[|calls| - 1], config)
  }

  lemma {:induction false} PlanStableOverRun(s: StoreState, calls: seq<Call>, config: Config, user: UserId)
    ensures PlanFor(RunCalls(s, calls, config), user, config) == PlanFor(s, user, config)
  {
    if calls != [] {
      var front := calls[..|calls| - 1];
      PlanStableOverRun(s, front, config, user);
      PlanStable(RunCalls(s, front, config), calls[|calls| - 1], config, user);
    }
  }

  /** Some call of the run generates for the user. */
  ghost predicate Covered(s: StoreState, calls: seq<Call>, config: Config, user: UserId) {
    exists i :: 0 <= i < |calls| && calls[i].user == user && Succeeds(s, calls[i], config)
  }

  /** Any interleaving of generations, by any number of replicas, in any order and with any repetition, stores for
      each covered user the list the starting store determines, and leaves every other user's list alone. */
  lemma {:induction false} RunStores(s: StoreState, calls: seq<Call>, config: Config, user: UserId)
    ensures StoredCores(RunCalls(s, calls, config), user)
         == if Covered(s, calls, config, user) then PlanCores(PlanFor(s, user, config)) else StoredCores(s, user)
  {
    if calls != [] {
      var front, last := calls[..|calls| - 1], calls[|calls| - 1];
      RunStores(s, front, config, user);
      var mid := RunCalls(s, front, config);
      PlanStableOverRun(s, front, config, last.user);
      ListCores(mid, last, config);
      CoveredSnoc(s, calls, config, user);
      assert Succeeds(mid, last, config) <==> Succeeds(s, last, config);
    }
  }

  lemma CoveredSnoc(s: StoreState, calls: seq<Call>, config: Config, user: UserId)
    requires calls != []
    ensures var front, last := calls[..|calls| - 1], calls[|calls| - 1];
      Covered(s, calls, config, user) <==>
        Covered(s, front, config, user) || (last.user == user && Succeeds(s, last, config))
  {
    var front, last := calls[..|calls| - 1], calls[|calls| - 1];
    if Covered(s, front, config, user) {
      var i :| 0 <= i < |front| && front[i].user == user && Succeeds(s, front[i], config);
      assert calls[i] == front[i];
    }
    if last.user == user && Succeeds(s, last, config) {
      assert calls[|calls| - 1] == last;
    }
    if Covered(s, calls, config, user) {
      var i :| 0 <= i < |calls| && calls[i].user == user && Succeeds(s, calls[i], config);
      if i < |front| { assert front[i] == calls[i]; }
    }
  }

  /** Sweeping again, by the same or another replica, in any order, changes no stored list. */
  lemma SweepIdempotent(s: StoreState, first: seq<Call>, second: seq<Call>, config: Config, user: UserId)
    requires Covered(s, second, config, user) ==> Covered(s, first, config, user)
    ensures StoredCores(RunCalls(RunCalls(s, first, config), second, config), user)
      == StoredCores(RunCalls(s, first, config), user)
  {
    var mid := RunCalls(s, first, config);
    RunStores(s, first, config, user);
    RunStores(mid, second, config, user);
    PlanStableOverRun(s, first, config, user);
    if Covered(mid, second, config, user) {
      var i :| 0 <= i < |second| && second[i].user == user && Succeeds(mid, second[i], config);
      assert Succeeds(s, second[i], config);
    }
  }

  // ---------------------------------------------------------------- the sweep

  /** `with_signals`: in the memory backend, the users with an action, by id. */
  function ActiveUsers(preferences: Preferences, limit: nat): seq<UserId> {
    Top(Filter(Listing(preferences.Keys), IsActive(preferences)), ActivityKey(preferences), limit)
  }

  function IsActive(preferences: Preferences): UserId -> bool {
    (u: UserId) => PreferenceOf(preferences, u).signalCount > 0
  }

  function ActivityKey(preferences: Preferences): UserId -> Key {
    (u: UserId) => Key(if PreferenceOf(preferences, u).updatedAt.None? then 0.0 else 1.0, 0, u)
  }

  datatype Report = Report(processed: nat, written: nat)

  function ReportOf(s: StoreState, calls: seq<Call>, config: Config): Report {
    if calls == [] then Report(0, 0) else
    var front, last := calls[..|calls| - 1], calls[|calls| - 1];
    var r, mid := ReportOf(s, front, config), RunCalls(s, front, config);
    if Succeeds(mid, last, config) then Report(r.processed + 1, r.written + |ListFor(mid, last, config)|) else r
  }

  /** The loop over users: a user's failure is skipped, and the counters see only what was written. */
  method GenerateAll(store: MemoryStore, calls: seq<Call>, config: Config) returns (report: Report)
    modifies store
    ensures store.View() == RunCalls(old(store.View()), calls, config)
    ensures report == ReportOf(old(store.View()), calls, config)
  {
    var written, processed := 0, 0;
    assert calls[..0] == [];
    for i := 0 to |calls|
      invariant store.View() == RunCalls(old(store.View()), calls[..i], config)
      invariant Report(processed, written) == ReportOf(old(store.View()), calls[..i], config)
    {
      assert calls[..i + 1][..i] == calls[..i];
      var result := Execute(store, calls[i], config);
      if result.None? { continue; }
      written := written + result.value;
      processed := processed + 1;
    }
    assert calls[..|calls|] == calls;
    report := Report(processed, written);
  }

  /** `sum(len(stored list))` over the users whose generation succeeded. */
  function StoredTotal(s: StoreState, calls: seq<Call>, config: Config, after: StoreState): Report {
    if calls == [] then Report(0, 0) else
    var front, last := calls[..|calls| - 1], calls[|calls| - 1];
    var r := StoredTotal(s, front, config, after);
    if Succeeds(s, last, config) then Report(r.processed + 1, r.written + |StoredFor(after, last.user)|) else r
  }

  ghost predicate OnePerUser(calls: seq<Call>) {
    forall i, j :: 0 <= i < j < |calls| ==> calls[i].user != calls[j].user
  }

  lemma {:induction false} StoredTotalLocal(s: StoreState, calls: seq<Call>, config: Config, a: StoreState,
                                            b: StoreState)
    requires forall c :: c in calls ==> StoredFor(a, c.user) == StoredFor(b, c.user)
    ensures StoredTotal(s, calls, config, a) == StoredTotal(s, calls, config, b)
  {
    if calls != [] {
      assert calls == calls[..|calls| - 1] + [calls[|calls| - 1]];
      StoredTotalLocal(s, calls[..|calls| - 1], config, a, b);
    }
  }

  /** The report is the number of users whose list was written and the total length of the lists now stored. */
  lemma {:induction false} ReportCountsStored(s: StoreState, calls: seq<Call>, config: Config)
    requires OnePerUser(calls)
    ensures ReportOf(s, calls, config) == StoredTotal(s, calls, config, RunCalls(s, calls, config))
  {
    if calls != [] {
      var front, last := calls[..|calls| - 1], calls[|calls| - 1];
      ReportCountsStored(s, front, config);
      var mid := RunCalls(s, front, config);
      PlanStableOverRun(s, front, config, last.user);
      assert Succeeds(mid, last, config) <==> Succeeds(s, last, config);
      GeneratedElsewhere(mid, last, config, front);
      StoredTotalLocal(s, front, config, mid, Generated(mid, last, config));
    }
  }

  lemma GeneratedElsewhere(s: StoreState, call: Call, config: Config, others: seq<Call>)
    requires forall c :: c in others ==> c.user != call.user
    ensures forall c :: c in others ==> StoredFor(Generated(s, call, config), c.user) == StoredFor(s, c.user)
    ensures Succeeds(s, call, config) ==> StoredFor(Generated(s, call, config), call.user) == ListFor(s, call, config)
  {}

  /** A sweep lists every active user once, so its report is exactly what is stored when it ends. */
  lemma SweepReport(s: StoreState, userBatch: nat, inputs: UserId -> Call, config: Config)
    requires forall u :: inputs(u).user == u
    ensures var calls := Map(ActiveUsers(s.preferences, userBatch), inputs);
      ReportOf(s, calls, config) == StoredTotal(s, calls, config, RunCalls(s, calls, config))
  {
    ActiveOnce(s.preferences, userBatch);
    var users := ActiveUsers(s.preferences, userBatch);
    var calls := Map(users, inputs);
    forall i, j | 0 <= i < j < |calls| ensures calls[i].user != calls[j].user {
      assert calls[i].user == users[i] && calls[j].user == users[j];
    }
    ReportCountsStored(s, calls, config);
  }

  lemma ActiveOnce(preferences: Preferences, limit: nat)
    ensures Distinct(ActiveUsers(preferences, limit))
  {
    FilterDistinct(Listing(preferences.Keys), IsActive(preferences));
    TopDistinct(Filter(Listing(preferences.Keys), IsActive(preferences)), ActivityKey(preferences), limit);
  }

  // ---------------------------------------------------------------- embedding pending games

  function Pending(games: Games, batch: nat): seq<Game> {
    Top(Filter(Catalogue(games), (g: Game) => g.NeedsEmbedding()), PopularityKey, batch)
  }

  lemma PendingKnown(games: Games, batch: nat)
    ensures forall g :: g in Pending(games, batch) ==> g.id in games && games[g.id] == g
  {}

  function EmbedAll(games: Games, pending: seq<Game>, vectors: seq<Dense>): Games
    requires |pending| == |vectors|
  {
    if pending == [] then games else
    var n := |pending| - 1;
    EmbedAll(games, pending[..n], vectors[..n])[pending[n].id := pending[n].Embedded(vectors[n])]
  }

  /** The second transaction of the pass: every game of the snapshot is written back whole, with its vector. A provider
      that failed wrote nothing, and one that answered with the wrong number of vectors raises, which is `None`. */
  function WrittenBack(s: StoreState, pending: seq<Game>, vectors: Option<seq<Dense>>): Option<StoreState> {
    if pending == [] || vectors.None? then Some(s)
    else if |vectors.value| != |pending| then None
    else Some(s.(games := EmbedAll(s.games, pending, vectors.value)))
  }

  /** The pass when nothing comes between its two transactions. */
  function EmbeddedPending(s: StoreState, batch: nat, vectors: Option<seq<Dense>>): Option<StoreState> {
    WrittenBack(s, Pending(s.games, batch), vectors)
  }

  method SnapshotPending(store: MemoryStore, batch: nat) returns (pending: seq<Game>)
    ensures pending == Pending(store.games, batch)
  {
    pending := Pending(store.games, batch);
  }

  method WriteBack(store: MemoryStore, pending: seq<Game>, vectors: Option<seq<Dense>>) returns (ok: bool)
    modifies store
    ensures var r := WrittenBack(old(store.View()), pending, vectors);
      (ok <==> r.Some?) && store.View() == if r.Some? then r.value else old(store.View())
  {
    if pending == [] || vectors.None? { return true; }
    if |vectors.value| != |pending| { return false; }
    StoreVectors(store, pending, vectors.value);
    ok := true;
  }

  method EmbedPendingGames(store: MemoryStore, batch: nat, vectors: Option<seq<Dense>>) returns (ok: bool)
    modifies store
    ensures var r := EmbeddedPending(old(store.View()), batch, vectors);
      (ok <==> r.Some?) && store.View() == if r.Some? then r.value else old(store.View())
  {
    var pending := SnapshotPending(store, batch);
    ok := WriteBack(store, pending, vectors);
  }

  /** The second transaction of the pass. */
  method StoreVectors(store: MemoryStore, pending: seq<Game>, vectors: seq<Dense>)
    requires |pending| == |vectors|
    modifies store
    ensures store.View() == old(store.View()).(games := EmbedAll(old(store.games), pending, vectors))
  {
    var uow := new UnitOfWork(store);
    StageVectors(uow, pending, vectors);
    uow.Commit();
    uow.Exit();
  }

  method StageVectors(uow: UnitOfWork, pending: seq<Game>, vectors: seq<Dense>)
    requires |pending| == |vectors|
    modifies uow`games
    ensures uow.Merged() == old(uow.Merged()).(games := EmbedAll(old(uow.Merged().games), pending, vectors))
  {
    assert pending[..0] == [] && vectors[..0] == [];
    for i := 0 to |pending|
      invariant uow.Merged() == old(uow.Merged()).(games :=
        EmbedAll(old(uow.Merged().games), pending[..i], vectors[..i]))
    {
      assert pending[..i + 1][..i] == pending[..i] && vectors[..i + 1][..i] == vectors[..i];
      uow.UpsertGame(pending[i].Embedded(vectors[i]));
    }
    assert pending[..|pending|] == pending && vectors[..|pending|] == vectors;
  }

  /** Two catalogues that differ at most in dense vectors. */
  ghost predicate SameButVectors(games: Games, other: Games) {
    && games.Keys == other.Keys
    && forall g :: g in games ==> other[g] == games[g].Embedded(other[g].dense)
  }

  /** The record a snapshot holds of a game. */
  function Held(pending: seq<Game>, g: GameId): Option<Game> {
    if pending == [] then None
    else if pending[|pending| - 1].id == g then Some(pending[|pending| - 1])
    else Held(pending[..|pending| - 1], g)
  }

  lemma {:induction false} HeldMember(pending: seq<Game>, g: GameId)
    ensures Held(pending, g).Some? ==> Held(pending, g).value in pending && Held(pending, g).value.id == g
  {
    if pending != [] {
      assert pending == pending[..|pending| - 1] + [pending[|pending| - 1]];
      HeldMember(pending[..|pending| - 1], g);
    }
  }

  /** A write-back replaces each game of the snapshot by the snapshot's record with some vector, and no other game. */
  lemma {:induction false} EmbedAllAt(games: Games, pending: seq<Game>, vectors: seq<Dense>, g: GameId)
    requires |pending| == |vectors|
    ensures var after, held := EmbedAll(games, pending, vectors), Held(pending, g);
      && (g in after <==> g in games || held.Some?)
      && (held.None? && g in games ==> after[g] == games[g])
      && (held.Some? ==> exists v :: v in vectors && after[g] == held.value.Embedded(v))
  {
    if pending != [] {
      var n := |pending| - 1;
      assert vectors == vectors[..n] + [vectors[n]];
      EmbedAllAt(games, pending[..n], vectors[..n], g);
      if pending[n].id == g { assert vectors[n] in vectors; }
    }
  }

  /** The words and counters of a game: everything but its dense vector. */
  function WordsOf(game: Game): Game {
    game.Embedded([])
  }

  /** The snapshot still says of every game it holds what the catalogue says. */
  ghost predicate StillCurrent(games: Games, pending: seq<Game>) {
    forall g :: Held(pending, g).Some? ==> g in games && WordsOf(games[g]) == WordsOf(Held(pending, g).value)
  }

  /** A write-back changes nothing but vectors exactly when the snapshot is still current. */
  lemma WriteBackKeepsIff(games: Games, pending: seq<Game>, vectors: seq<Dense>)
    requires |pending| == |vectors|
    ensures SameButVectors(games, EmbedAll(games, pending, vectors)) <==> StillCurrent(games, pending)
  {
    var after := EmbedAll(games, pending, vectors);
    if SameButVectors(games, after) {
      forall g | Held(pending, g).Some?
        ensures g in games && WordsOf(games[g]) == WordsOf(Held(pending, g).value)
      {
        EmbedAllAt(games, pending, vectors, g);
        assert g in after.Keys;
      }
    }
    if StillCurrent(games, pending) {
      forall g ensures g in games.Keys <==> g in after.Keys { EmbedAllAt(games, pending, vectors, g); }
      forall g | g in games ensures after[g] == games[g].Embedded(after[g].dense) {
        EmbedAllAt(games, pending, vectors, g);
        if Held(pending, g).Some? { SameWords(games[g], Held(pending, g).value, after[g].dense); }
      }
    }
  }

  lemma SameWords(x: Game, y: Game, v: Dense)
    requires WordsOf(x) == WordsOf(y)
    ensures x.Embedded(v) == y.Embedded(v)
  {
    assert x.Embedded(v) == WordsOf(x).Embedded(v) && y.Embedded(v) == WordsOf(y).Embedded(v);
  }

  /** With nothing between its two transactions the pass changes nothing but vectors. */
  lemma EmbeddingChangesVectors(s: StoreState, batch: nat, vectors: Option<seq<Dense>>)
    requires EmbeddedPending(s, batch, vectors).Some?
    ensures var after := EmbeddedPending(s, batch, vectors).value;
      after == s.(games := after.games) && SameButVectors(s.games, after.games)
  {
    var pending := Pending(s.games, batch);
    SnapshotCurrent(s.games, batch);
    if pending != [] && vectors.Some? { WriteBackKeepsIff(s.games, pending, vectors.value); }
  }

  lemma SnapshotCurrent(games: Games, batch: nat)
    ensures StillCurrent(games, Pending(games, batch))
  {
    var pending := Pending(games, batch);
    PendingKnown(games, batch);
    forall g | Held(pending, g).Some? ensures g in games && WordsOf(games[g]) == WordsOf(Held(pending, g).value) {
      HeldMember(pending, g);
    }
  }

  // ---------------------------------------------------------------- whom a sweep reaches

  /** The users with an action. */
  function Active(preferences: Preferences): set<UserId> {
    set u | u in preferences && preferences[u].signalCount > 0
  }

  /** Those before a user: profiles with a moment first, then smaller ids. */
  function SweptBefore(preferences: Preferences, u: UserId): set<UserId> {
    set v | v in Active(preferences)
         && var a, b := PreferenceOf(preferences, v).updatedAt, PreferenceOf(preferences, u).updatedAt;
            (a.Some? && b.None?) || ((a.Some? <==> b.Some?) && v < u)
  }

  /** A sweep takes exactly the users with an action that fewer than `limit` such users come before. */
  lemma ActiveExactly(preferences: Preferences, limit: nat, u: UserId)
    ensures u in ActiveUsers(preferences, limit) <==>
      u in preferences && preferences[u].signalCount > 0 && |SweptBefore(preferences, u)| < limit
  {
    var active := Filter(Listing(preferences.Keys), IsActive(preferences));
    FilterDistinct(Listing(preferences.Keys), IsActive(preferences));
    TopExactly(active, ActivityKey(preferences), limit, u);
    SweptAhead(preferences, u);
  }

  lemma SweptAhead(preferences: Preferences, u: UserId)
    ensures Ahead(Filter(Listing(preferences.Keys), IsActive(preferences)), ActivityKey(preferences), u)
         == SweptBefore(preferences, u)
  {
    forall v
      ensures v in Ahead(Filter(Listing(preferences.Keys), IsActive(preferences)), ActivityKey(preferences), u)
         <==> v in SweptBefore(preferences, u)
    {
      KeyBefore(preferences, v, u);
    }
  }

  lemma KeyBefore(preferences: Preferences, v: UserId, u: UserId)
    ensures Before(ActivityKey(preferences)(v), ActivityKey(preferences)(u)) <==>
      var a, b := PreferenceOf(preferences, v).updatedAt, PreferenceOf(preferences, u).updatedAt;
      (a.Some? && b.None?) || ((a.Some? <==> b.Some?) && v < u)
  {}

  lemma Fewer<T>(part: set<T>, all: set<T>, x: T)
    requires part <= all && x in all && x !in part
    ensures |part| < |all|
  {
    assert all == part + (all - part) && x in all - part;
  }

  /** With room in the batch and no fault, every user with an action whose profile can be rebuilt ends a sweep with
      the list the store determines. */
  lemma SweepReaches(s: StoreState, userBatch: nat, inputs: UserId -> Call, config: Config, user: UserId)
    requires inputs(user).user == user && !inputs(user).fault && user in Active(s.preferences)
    requires |Active(s.preferences)| <= userBatch && !PlanFor(s, user, config).Fails?
    ensures StoredCores(RunCalls(s, Map(ActiveUsers(s.preferences, userBatch), inputs), config), user)
         == PlanCores(PlanFor(s, user, config))
  {
    var calls := Map(ActiveUsers(s.preferences, userBatch), inputs);
    SweepCalls(s.preferences, userBatch, inputs, user);
    RunStores(s, calls, config, user);
    var i :| 0 <= i < |calls| && calls[i] == inputs(user);
    assert Succeeds(s, calls[i], config);
  }

  lemma SweepCalls(preferences: Preferences, userBatch: nat, inputs: UserId -> Call, user: UserId)
    requires user in Active(preferences) && |Active(preferences)| <= userBatch
    ensures inputs(user) in Map(ActiveUsers(preferences, userBatch), inputs)
  {
    Fewer(SweptBefore(preferences, user), Active(preferences), user);
    ActiveExactly(preferences, userBatch, user);
    CalledOne(ActiveUsers(preferences, userBatch), inputs, user);
  }

  lemma CalledOne(users: seq<UserId>, inputs: UserId -> Call, user: UserId)
    requires user in users
    ensures inputs(user) in Map(users, inputs)
  {
    var i :| 0 <= i < |users| && users[i] == user;
    assert Map(users, inputs)[i] == inputs(user);
  }

  /** Every user with an action whose profile can be rebuilt has the list the store determined. */
  ghost predicate ReachesAll(s: StoreState, t: StoreState, config: Config) {
    forall u :: u in Active(s.preferences) && !PlanFor(s, u, config).Fails? ==>
      StoredCores(t, u) == PlanCores(PlanFor(s, u, config))
  }

  lemma SweepReachesAll(s: StoreState, userBatch: nat, inputs: UserId -> Call, config: Config)
    requires forall u :: inputs(u).user == u && !inputs(u).fault
    requires |Active(s.preferences)| <= userBatch
    ensures ReachesAll(s, RunCalls(s, Map(ActiveUsers(s.preferences, userBatch), inputs), config), config)
  {
    forall u | u in Active(s.preferences) && !PlanFor(s, u, config).Fails?
      ensures StoredCores(RunCalls(s, Map(ActiveUsers(s.preferences, userBatch), inputs), config), u)
           == PlanCores(PlanFor(s, u, config))
    {
      SweepReaches(s, userBatch, inputs, config, u);
    }
  }

  /** `RefreshAllRecommendationsUseCase.execute`: embed once, list the active users, generate for each. */
  method RefreshAll(store: MemoryStore, config: Config, embedBatch: nat, vectors: Option<seq<Dense>>,
                    userBatch: nat, inputs: UserId -> Call)
    returns (report: Option<Report>, ghost calls: seq<Call>)
    requires forall u :: inputs(u).user == u
    modifies store
    ensures var embedded := EmbeddedPending(old(store.View()), embedBatch, vectors);
      && (report.Some? <==> embedded.Some?)
      && (report.None? ==> store.View() == old(store.View()))
      && (report.Some? ==>
            && calls == Map(ActiveUsers(embedded.value.preferences, userBatch), inputs)
            && store.View() == RunCalls(embedded.value, calls, config)
            && report == Some(ReportOf(embedded.value, calls, config)))
      && (report.Some? && |Active(embedded.value.preferences)| <= userBatch && (forall u :: !inputs(u).fault) ==>
            ReachesAll(embedded.value, store.View(), config))
  {
    calls := [];
    var ok := EmbedPendingGames(store, embedBatch, vectors);
    if !ok { return None, []; }
    var users := ActiveUsers(store.preferences, userBatch);
    calls := Map(users, inputs);
    ghost var embedded := store.View();
    var r := GenerateAll(store, Map(users, inputs), config);
    report := Some(r);
    if |Active(embedded.preferences)| <= userBatch && forall u :: !inputs(u).fault {
      SweepReachesAll(embedded, userBatch, inputs, config);
    }
  }
}
