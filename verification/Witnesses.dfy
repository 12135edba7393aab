/** Runs on which a promise the code does not keep is broken, one for each condition stated elsewhere. */
module Witnesses {
  import opened Ordering
  import opened Vectors
  import opened Catalog
  import opened Preference
  import opened Recommendations
  import opened Store
  import opened Ingest
  import opened Ledger
  import opened Scoring
  import opened System
  import Confluence
  import D = Delivery
  import G = Generate
  import Refresh
  import Steering
  import Sweeps
  import Landings
  import Drafts
  import Serve

  function Plain(e: Event): D.Attempt {
    D.Attempt(D.Valid(e), 0.0, false, false)
  }

  // ---------------------------------------------------------------- more early buyers than one backfill credits

  /** Users 0 to n - 1 buy a game nobody has published. */
  function EarlyBuyers(n: nat, g: GameId): seq<D.Attempt> {
    if n == 0 then [] else EarlyBuyers(n - 1, g) + [Plain(PurchaseCompleted(n - 1, n - 1, g, None))]
  }

  /** `n` uncounted rows and nothing else. */
  ghost predicate Bought(s: StoreState, n: nat, g: GameId) {
    && s.games == map[] && s.preferences == map[]
    && (forall i :: i in s.processed <==> 0 <= i < n)
    && (forall u :: Flag(s.ownerships, u, g) == if 0 <= u < n then Some(false) else None)
  }

  lemma {:induction false} EarlyBuyersReach(n: nat, g: GameId)
    ensures Bought(D.Run(EMPTY_STORE, EarlyBuyers(n, g)), n, g)
  {
    if n > 0 {
      EarlyBuyersReach(n - 1, g);
      var all, s := EarlyBuyers(n, g), D.Run(EMPTY_STORE, EarlyBuyers(n - 1, g));
      assert all[..|all| - 1] == EarlyBuyers(n - 1, g);
      OneMoreBuyer(s, n - 1, g);
    }
  }

  lemma OneMoreBuyer(s: StoreState, u: UserId, g: GameId)
    requires u >= 0 && Bought(s, u, g)
    ensures Bought(D.Step(s, Plain(PurchaseCompleted(u, u, g, None))), u + 1, g)
  {
    var e := PurchaseCompleted(u, u, g, None);
    var t := D.Step(s, Plain(e));
    assert t == s.(ownerships := Raise(s.ownerships, u, g, false), processed := s.processed + {u});
    forall v ensures Flag(t.ownerships, v, g) == if 0 <= v < u + 1 then Some(false) else None {
      RaiseFlag(s.ownerships, u, g, false, v, g);
    }
  }

  function Range(n: nat): (r: set<int>)
    ensures |r| == n && forall u :: u in r <==> 0 <= u < n
  {
    if n == 0 then {} else Range(n - 1) + {n - 1}
  }

  lemma UncountedSize(s: StoreState, n: nat, g: GameId)
    requires Bought(s, n, g)
    ensures |Uncounted(RowsOf(s.ownerships, g))| == n
  {
    var users := Uncounted(RowsOf(s.ownerships, g));
    forall u ensures u in users <==> 0 <= u < n {
      assert u in users <==> Flag(s.ownerships, u, g) == Some(false);
    }
    PrefixSize(users);
    assert (set u | u in users) == Range(n);
  }

  /** Five hundred and one purchases before the publication: somebody who owns the game is never credited with it. */
  lemma OverflowLeavesUncounted(n: nat, publish: Event)
    requires n > 500 && publish.GamePublished? && Admissible(publish.description) && publish.id < 0
    ensures var s := D.Run(EMPTY_STORE, EarlyBuyers(n, publish.game) + [Plain(publish)]);
      publish.game in s.games && exists u :: Flag(s.ownerships, u, publish.game) == Some(false)
  {
    var g, all := publish.game, EarlyBuyers(n, publish.game) + [Plain(publish)];
    var s := D.Run(EMPTY_STORE, EarlyBuyers(n, g));
    EarlyBuyersReach(n, g);
    assert all[..|all| - 1] == EarlyBuyers(n, g);
    assert Confluence.NothingEmbedded(s);
    Confluence.EffectWhenSparse(s, publish, 0.0);
    UncountedSize(s, n, g);
    Confluence.PublicationCountsAllIff(s, publish, 0.0);
    EventGames(s, publish, 0.0);
  }

  // ---------------------------------------------------------------- a small catalogue

  const TOKEN: Feature := 3
  const ME: UserId := 7

  function Words(title: string): Description {
    Description(title, [TOKEN], false)
  }

  function Publish(g: GameId): Action {
    Deliver(Plain(GamePublished(g, g, 0, Words("game"))))
  }

  function Buy(g: GameId): Action {
    Deliver(Plain(PurchaseCompleted(100 + g, ME, g, None)))
  }

  function Withdraw(g: GameId): Action {
    Deliver(Plain(GameWithdrawn(200 + g, g)))
  }

  function Fresh(g: GameId): Game {
    Game(g, 0, "game", true, 0, Of([TOKEN]), [])
  }

  lemma PublishStep(w: World, g: GameId, config: G.Config)
    requires Confluence.NothingEmbedded(w.store) && g !in w.store.games && g !in w.store.processed
    requires w.store.ownerships == map[]
    ensures var t := Next(w, Publish(g), config).store;
      && t == w.store.(games := w.store.games[g := Fresh(g)], processed := w.store.processed + {g})
      && Confluence.NothingEmbedded(t)
  {
    var e := GamePublished(g, g, 0, Words("game"));
    Confluence.EffectWhenSparse(w.store, e, 0.0);
    assert EarlyOwners(w.store, g) == [];
    PublicationWritten(w.store, e, 0.0);
    assert Backfill(w.store.preferences, [], Fresh(g), 0.0) == Some(w.store.preferences);
  }

  /** The one token, and nothing else. */
  ghost predicate Likes(e: Embedding) {
    forall f :: At(e, f) == if f == TOKEN then 1.0 else 0.0
  }

  ghost predicate BoughtBy(p: UserPreference, g: GameId) {
    p.owned == {g} && Likes(p.taste) && !p.IsCold() && p.history == [SignalRecord(g, WeightOf(PURCHASE))]
  }

  /** A first purchase of a known game: the buyer owns it and has its tokens for taste. */
  lemma BuyStep(w: World, g: GameId, config: G.Config)
    requires Confluence.NothingEmbedded(w.store) && g in w.store.games && w.store.games[g] == Fresh(g)
    requires w.store.preferences == map[] && w.store.ownerships == map[] && 100 + g !in w.store.processed
    ensures var t := Next(w, Buy(g), config).store;
      && t == w.store.(games := w.store.games[g := Fresh(g).Bought()], preferences := t.preferences,
                       ownerships := t.ownerships, processed := t.processed)
      && t.processed == w.store.processed + {100 + g}
      && BoughtBy(PreferenceOf(t.preferences, ME), g)
  {
    Confluence.EffectWhenSparse(w.store, PurchaseCompleted(100 + g, ME, g, None), 0.0);
    BuyDelivered(w, g, config);
    FirstBuyer(w.store, g);
  }

  lemma BuyDelivered(w: World, g: GameId, config: G.Config)
    requires Effect(w.store, PurchaseCompleted(100 + g, ME, g, None), 0.0).Some? && 100 + g !in w.store.processed
    ensures PurchaseWrites(w.store, ME, g, 0.0).Some?
    ensures Next(w, Buy(g), config).store
         == PurchaseWrites(w.store, ME, g, 0.0).value.(processed := w.store.processed + {100 + g})
  {
    var e := PurchaseCompleted(100 + g, ME, g, None);
    EventFrame(w.store, e, 0.0);
  }

  lemma FirstBuyer(s: StoreState, g: GameId)
    requires g in s.games && s.games[g] == Fresh(g) && s.preferences == map[]
    requires PurchaseWrites(s, ME, g, 0.0).Some?
    ensures var t := PurchaseWrites(s, ME, g, 0.0).value;
      && t == s.(games := s.games[g := Fresh(g).Bought()], preferences := t.preferences, ownerships := t.ownerships)
      && BoughtBy(PreferenceOf(t.preferences, ME), g)
  {
    PurchaseWritten(s, ME, g, 0.0);
    FirstTaste(g);
  }

  lemma FirstTaste(g: GameId)
    ensures var p := Observe(Blank(ME), Fresh(g), PURCHASE, 0.0);
      p.Some? && BoughtBy(p.value, g)
  {
    var p := Observe(Blank(ME), Fresh(g), PURCHASE, 0.0).value;
    LikesOnce(p.taste);
    OnlyToken(p.taste);
    assert TOKEN in p.taste.Keys;
  }

  lemma LikesOnce(taste: Embedding)
    requires taste == Plus(EMPTY, Of([TOKEN]), 1.0)
    ensures Likes(taste)
  {
    forall f ensures At(taste, f) == if f == TOKEN then 1.0 else 0.0 {
      assert At(taste, f) == At(EMPTY, f) + Share(Of([TOKEN]), 1.0, f);
    }
  }

  // ---------------------------------------------------------------- a user who owns all the scan reaches

  function OwnsAll(g: GameId): seq<Action> {
    [] + [Publish(g)] + [Buy(g)]
  }

  /** The only published game is bought, and the fallback is empty though the scan is not. */
  lemma FallbackCanBeEmpty(g: GameId, config: G.Config, limit: nat)
    requires limit > 0
    ensures var s := StoreAt(OwnsAll(g), config);
      && Recommendable(s.games, Serve.ScanOf(limit)) != []
      && Serve.FallbackGames(s.games, PreferenceOf(s.preferences, ME), limit) == []
  {
    OwnsAllReaches(g, config);
    OnlyGameOwned(StoreAt(OwnsAll(g), config), g, limit);
  }

  lemma OwnsAllReaches(g: GameId, config: G.Config)
    ensures var s := StoreAt(OwnsAll(g), config);
      s.games == map[g := Fresh(g).Bought()] && BoughtBy(PreferenceOf(s.preferences, ME), g)
  {
    OnePublished(g, config);
    ReachedSnoc([] + [Publish(g)], Buy(g), config);
    OnlyGameBought(Reached([] + [Publish(g)], config), g, config);
  }

  lemma OnlyGameBought(w: World, g: GameId, config: G.Config)
    requires w.store == EMPTY_STORE.(games := map[g := Fresh(g)], processed := {g})
      && Confluence.NothingEmbedded(w.store)
    ensures var s := Next(w, Buy(g), config).store;
      s.games == map[g := Fresh(g).Bought()] && BoughtBy(PreferenceOf(s.preferences, ME), g)
  {
    BuyStep(w, g, config);
  }

  lemma OnlyGameOwned(s: StoreState, g: GameId, limit: nat)
    requires limit > 0 && s.games == map[g := Fresh(g).Bought()] && g in PreferenceOf(s.preferences, ME).owned
    ensures Recommendable(s.games, Serve.ScanOf(limit)) != []
    ensures Serve.FallbackGames(s.games, PreferenceOf(s.preferences, ME), limit) == []
  {
    assert s.games[g] in PublishedGames(s.games);
    var p := PreferenceOf(s.preferences, ME);
    forall x | x in Recommendable(s.games, Serve.ScanOf(limit)) ensures x.id in p.owned {
      assert x in PublishedGames(s.games);
    }
    Serve.FallbackEmptyIff(s.games, p, limit);
  }

  // ---------------------------------------------------------------- a list emptied after it was announced

  function ConstantRoot(): Root {
    x => 1.0
  }

  lemma AlikeGames(p: UserPreference, g: Game)
    requires Likes(p.taste) && Likes(g.embedding)
    ensures SparseScorer(ConstantRoot()).score(p, g) > 0.0
  {
    var a, b := p.taste, g.embedding;
    OnlyToken(a);
    OnlyToken(b);
    assert a.Keys * b.Keys == {TOKEN};
    SumSplit({TOKEN}, TOKEN, Products(a, b));
    assert {TOKEN} - {TOKEN} == {};
    assert At(a, TOKEN) == 1.0 && At(b, TOKEN) == 1.0;
    assert Dot({TOKEN}, a, b) == 1.0;
  }

  lemma OnlyToken(e: Embedding)
    requires Likes(e)
    ensures e.Keys == {TOKEN}
  {
    forall f ensures f in e.Keys <==> f == TOKEN { assert At(e, f) == if f == TOKEN then 1.0 else 0.0; }
  }

  lemma SmallCatalogue(games: Games, limit: nat, g: GameId)
    requires |games.Keys| <= limit && g in games && games[g].isPublished
    ensures games[g] in Recommendable(games, limit)
  {
    WholeScan(games, limit);
    assert games[g].id == g && games[g] in PublishedGames(games);
  }

  lemma WholeScan(games: Games, limit: nat)
    requires |games.Keys| <= limit
    ensures Recommendable(games, limit) == Sort(PublishedGames(games), PopularityKey)
  {
    GamesAtSize(games, Listing(games.Keys));
  }

  lemma {:induction false} GamesAtSize(games: Games, ids: seq<GameId>)
    requires forall id :: id in ids ==> id in games
    ensures |GamesAt(games, ids)| == |ids|
  {
    if ids != [] { GamesAtSize(games, ids[1..]); }
  }

  /** A game like the user's taste, published and not owned, makes the list non-empty. */
  lemma ListNotEmpty(s: StoreState, call: G.Call, config: G.Config, g: GameId)
    requires config.scorer == SparseScorer(ConstantRoot()) && !config.denseSpace && config.limit > 0
    requires |s.games.Keys| <= config.catalogueLimit && g in s.games && s.games[g].isPublished
    requires var p := PreferenceOf(s.preferences, call.user);
      !p.IsCold() && Likes(p.taste) && g !in p.owned && Likes(s.games[g].embedding)
    ensures G.ListFor(s, call, config) != []
  {
    var p := PreferenceOf(s.preferences, call.user);
    G.WarmPlan(s, call, config);
    SmallCatalogue(s.games, config.catalogueLimit, g);
    RankedNotEmpty(config, p, Recommendable(s.games, config.catalogueLimit), G.CoPurchasesFor(s.ownerships, p),
      s.games[g]);
  }

  lemma RankedNotEmpty(config: G.Config, p: UserPreference, candidates: seq<Game>, coPurchases: CoPurchases, g: Game)
    requires config.scorer == SparseScorer(ConstantRoot()) && config.limit > 0 && g in candidates
    requires g.isPublished && g.id !in p.owned && Likes(p.taste) && Likes(g.embedding)
    ensures |Ranked(config.scorer, p, candidates, coPurchases, config.limit)| > 0
  {
    AlikeGames(p, g);
    CollaborativeAtLeastZero(coPurchases, g.id);
    Shortlisted(config.scorer, p, candidates, coPurchases, g);
  }

  lemma Shortlisted(scorer: ContentScorer, p: UserPreference, candidates: seq<Game>, coPurchases: CoPurchases, g: Game)
    requires g in candidates && g.isPublished && g.id !in p.owned
    requires scorer.score(p, g) > 0.0 && Collaborative(coPurchases, g.id) >= 0.0
    ensures ScoredBy(scorer, p, coPurchases, g) in Shortlist(scorer, p, candidates, coPurchases)
  {}

  lemma CollaborativeAtLeastZero(coPurchases: CoPurchases, g: GameId)
    ensures Collaborative(coPurchases, g) >= 0.0
  {
    if g in coPurchases { ShrunkInUnit(coPurchases[g]); }
  }

  function Emptied(call: G.Call): seq<Action> {
    [] + [Publish(1)] + [Publish(2)] + [Buy(1)] + [Generate(call)] + [Withdraw(2)] + [Generate(call)]
  }

  /** A list of one game is stored and announced; the game is withdrawn, the next generation empties the list, and the
      latest event still offers the game. */
  lemma AnnouncedThenEmptied(call: G.Call, config: G.Config)
    requires config.scorer == SparseScorer(ConstantRoot()) && !config.denseSpace
    requires config.limit > 0 && config.catalogueLimit >= 2 && call.user == ME && !call.fault
    ensures var s := StoreAt(Emptied(call), config);
      && StoredFor(s, ME) == []
      && Latest(s.outbox, ME).Some?
      && Latest(s.outbox, ME).value.items != Map(StoredFor(s, ME), ItemOf(config.round))
  {
    EmptiedReaches(call, config);
    AlwaysAnnounced(Emptied(call), config, ME);
    LatestEventStaleIff(Emptied(call), config, ME);
  }

  lemma EmptiedSteps(call: G.Call, config: G.Config)
    ensures var w := Reached([] + [Publish(1)] + [Publish(2)] + [Buy(1)], config);
      Reached(Emptied(call), config)
        == Next(Next(Next(w, Generate(call), config), Withdraw(2), config), Generate(call), config)
  {
    var bought := [] + [Publish(1)] + [Publish(2)] + [Buy(1)];
    ReachedSnoc(bought, Generate(call), config);
    ReachedSnoc(bought + [Generate(call)], Withdraw(2), config);
    ReachedSnoc(bought + [Generate(call)] + [Withdraw(2)], Generate(call), config);
  }

  lemma EmptiedReaches(call: G.Call, config: G.Config)
    requires config.scorer == SparseScorer(ConstantRoot()) && !config.denseSpace
    requires config.limit > 0 && config.catalogueLimit >= 2 && call.user == ME && !call.fault
    ensures var s := StoreAt(Emptied(call), config); StoredFor(s, ME) == [] && Latest(s.outbox, ME).Some?
  {
    EmptiedSteps(call, config);
    BoughtOne(config);
    EmptiedFrom(Reached([] + [Publish(1)] + [Publish(2)] + [Buy(1)], config), call, config);
  }

  lemma EmptiedFrom(w: World, call: G.Call, config: G.Config)
    requires OwnsFirst(w.store) && w.store.games[2].isPublished && 202 !in w.store.processed && w.store.outbox == []
    requires config.scorer == SparseScorer(ConstantRoot()) && !config.denseSpace
    requires config.limit > 0 && config.catalogueLimit >= 2 && call.user == ME && !call.fault
    ensures var s := Next(Next(Next(w, Generate(call), config), Withdraw(2), config), Generate(call), config).store;
      StoredFor(s, ME) == [] && Latest(s.outbox, ME).Some?
  {
    TwoGames(w.store.games);
    ListNotEmpty(w.store, call, config, 2);
    FirstList(w, call, config);
    WithdrawnFrom(Next(w, Generate(call), config), call, config);
  }

  lemma TwoGames(games: Games)
    requires games.Keys == {1, 2}
    ensures |games.Keys| == 2 && 2 in games
  {
    assert 2 in games.Keys;
  }

  lemma WithdrawnFrom(w: World, call: G.Call, config: G.Config)
    requires OwnsFirst(w.store) && 202 !in w.store.processed
    requires !config.denseSpace && call.user == ME && !call.fault
    ensures var s := Next(Next(w, Withdraw(2), config), Generate(call), config).store;
      StoredFor(s, ME) == [] && s.outbox == w.store.outbox
  {
    WithdrawStep(w, config);
    var w1 := Next(w, Withdraw(2), config);
    ListIsEmpty(w1.store, call, config);
    EmptyList(w1, call, config);
  }

  /** Two games like each other are known and the first is owned. */
  ghost predicate OwnsFirst(s: StoreState) {
    && s.games.Keys == {1, 2} && Likes(s.games[1].embedding) && Likes(s.games[2].embedding)
    && BoughtBy(PreferenceOf(s.preferences, ME), 1)
  }

  lemma TwoPublished(config: G.Config)
    ensures var s := StoreAt([] + [Publish(1)] + [Publish(2)], config);
      && s == EMPTY_STORE.(games := map[1 := Fresh(1), 2 := Fresh(2)], processed := {1, 2})
      && Confluence.NothingEmbedded(s)
  {
    ReachedSnoc([] + [Publish(1)], Publish(2), config);
    OnePublished(1, config);
    PublishStep(Reached([] + [Publish(1)], config), 2, config);
  }

  lemma OnePublished(g: GameId, config: G.Config)
    ensures var s := StoreAt([] + [Publish(g)], config);
      && s == EMPTY_STORE.(games := map[g := Fresh(g)], processed := {g})
      && Confluence.NothingEmbedded(s)
  {
    ReachedSnoc([], Publish(g), config);
    PublishStep(INITIAL, g, config);
  }

  lemma BoughtOne(config: G.Config)
    ensures var s := StoreAt([] + [Publish(1)] + [Publish(2)] + [Buy(1)], config);
      OwnsFirst(s) && s.games[2].isPublished && 202 !in s.processed && s.outbox == []
  {
    var published := [] + [Publish(1)] + [Publish(2)];
    ReachedSnoc(published, Buy(1), config);
    TwoPublished(config);
    FirstBought(Reached(published, config), config);
  }

  lemma FirstBought(w: World, config: G.Config)
    requires w.store == EMPTY_STORE.(games := map[1 := Fresh(1), 2 := Fresh(2)], processed := {1, 2})
    requires Confluence.NothingEmbedded(w.store)
    ensures var s := Next(w, Buy(1), config).store;
      OwnsFirst(s) && s.games[2].isPublished && 202 !in s.processed && s.outbox == []
  {
    BuyStep(w, 1, config);
    FirstOwned(w.store.games, Next(w, Buy(1), config).store);
  }

  lemma FirstOwned(games: Games, s: StoreState)
    requires games == map[1 := Fresh(1), 2 := Fresh(2)] && s.games == games[1 := Fresh(1).Bought()]
    requires BoughtBy(PreferenceOf(s.preferences, ME), 1)
    ensures OwnsFirst(s) && s.games[2].isPublished
  {}

  lemma FirstList(w: World, call: G.Call, config: G.Config)
    requires OwnsFirst(w.store) && !config.denseSpace && call.user == ME && !call.fault
    requires G.ListFor(w.store, call, config) != [] && w.store.outbox == []
    ensures var t := Next(w, Generate(call), config).store;
      && t.games == w.store.games && t.preferences == w.store.preferences && t.processed == w.store.processed
      && Latest(t.outbox, ME).Some?
  {
    ListStored(w.store, call, config);
    LatestAppended(w.store.outbox, G.EventOf(G.ListFor(w.store, call, config), call, config), ME);
  }

  lemma ListStored(s: StoreState, call: G.Call, config: G.Config)
    requires !config.denseSpace && !call.fault && G.ListFor(s, call, config) != []
    ensures var t := G.Generated(s, call, config);
      && t == s.(recommendations := t.recommendations, outbox := t.outbox)
      && t.outbox == s.outbox + [G.EventOf(G.ListFor(s, call, config), call, config)]
  {}

  lemma WithdrawStep(w: World, config: G.Config)
    requires OwnsFirst(w.store) && 202 !in w.store.processed
    ensures var t := Next(w, Withdraw(2), config).store;
      OwnsFirst(t) && !t.games[2].isPublished && t.outbox == w.store.outbox
  {
    assert 2 in w.store.games.Keys;
    var games := w.store.games[2 := w.store.games[2].Withdrawn()];
    forall g ensures g in games.Keys <==> g in {1, 2} { assert g in w.store.games.Keys <==> g in {1, 2}; }
  }

  lemma ListedIsNeither(s: StoreState, call: G.Call, config: G.Config)
    requires OwnsFirst(s) && !s.games[2].isPublished && call.user == ME
    ensures forall r :: r in G.ListFor(s, call, config) ==> r.game in s.games.Keys && r.game != 1 && r.game != 2
  {
    G.ListWellShaped(s, call, config);
  }

  lemma HeadListed<T>(xs: seq<T>)
    requires xs != []
    ensures xs[0] in xs
  {}

  /** The one game left is owned, the other withdrawn. */
  lemma ListIsEmpty(s: StoreState, call: G.Call, config: G.Config)
    requires OwnsFirst(s) && !s.games[2].isPublished && call.user == ME
    ensures G.ListFor(s, call, config) == []
  {
    ListedIsNeither(s, call, config);
    if G.ListFor(s, call, config) != [] {
      HeadListed(G.ListFor(s, call, config));
      assert false;
    }
  }

  lemma EmptyList(w: World, call: G.Call, config: G.Config)
    requires G.ListFor(w.store, call, config) == [] && !config.denseSpace && call.user == ME && !call.fault
    ensures var t := Next(w, Generate(call), config).store;
      StoredFor(t, ME) == [] && t.outbox == w.store.outbox
  {}

  // ---------------------------------------------------------------- a dense sweep that changes the last one's list

  /** The bought game and the other one are known, and neither has a vector. */
  ghost predicate BothWait(s: StoreState) {
    && OwnsFirst(s) && s.games[1].isPublished && s.games[2].isPublished
    && s.games[1].dense == [] && s.games[2].dense == []
    && s.processed == {1, 2, 101}
  }

  lemma BoughtBothWait(config: G.Config)
    ensures BothWait(StoreAt([] + [Publish(1)] + [Publish(2)] + [Buy(1)], config))
  {
    var published := [] + [Publish(1)] + [Publish(2)];
    ReachedSnoc(published, Buy(1), config);
    TwoPublished(config);
    FirstBoughtWaits(Reached(published, config), config);
  }

  lemma FirstBoughtWaits(w: World, config: G.Config)
    requires w.store == EMPTY_STORE.(games := map[1 := Fresh(1), 2 := Fresh(2)], processed := {1, 2})
    requires Confluence.NothingEmbedded(w.store)
    ensures BothWait(Next(w, Buy(1), config).store)
  {
    BuyStep(w, 1, config);
    OneOwnedWaits(Next(w, Buy(1), config).store);
  }

  lemma OneOwnedWaits(s: StoreState)
    requires s.games == map[1 := Fresh(1), 2 := Fresh(2)][1 := Fresh(1).Bought()] && s.processed == {1, 2} + {101}
    requires BoughtBy(PreferenceOf(s.preferences, ME), 1)
    ensures BothWait(s)
  {
    FirstOwned(map[1 := Fresh(1), 2 := Fresh(2)], s);
  }

  const EAST: Dense := [1.0]

  /** The provider is down during the first sweep and answers during the second; no event comes between, and the second
      sweep stores another list. */
  lemma DenseSweepMoves(call: G.Call, config: G.Config, root: Root, batch: nat)
    requires config.denseSpace && config.scorer == DenseScorer(root) && RootAt(root, 1.0) && batch >= 2
    requires config.limit > 0 && config.catalogueLimit >= 2 && call.user == ME && !call.fault
    ensures var s := StoreAt([] + [Publish(1)] + [Publish(2)] + [Buy(1)], config);
      var first := Refresh.Swept(s, batch, None, [call], config);
      && first.Some?
      && var second := Refresh.Swept(first.value, batch, Some([EAST, EAST]), [call], config);
      second.Some? && G.StoredCores(second.value, ME) != G.StoredCores(first.value, ME)
  {
    var s := StoreAt([] + [Publish(1)] + [Publish(2)] + [Buy(1)], config);
    BoughtBothWait(config);
    var t := Refresh.Swept(s, batch, None, [call], config).value;
    StillBothWait(s, call, config);
    BothEmbedded(t, batch);
    Reached1(call);
    Sweeps.SweptStored(s, batch, None, [call], ME, config);
    Sweeps.SweptStored(t, batch, Some([EAST, EAST]), [call], ME, config);
    NowOffered(s, G.EmbeddedPending(t, batch, Some([EAST, EAST])).value, config, root);
  }

  lemma Reached1(call: G.Call)
    requires call.user == ME && !call.fault
    ensures Refresh.Reaches([call], ME)
  {
    assert [call][0] == call;
  }

  lemma StillBothWait(s: StoreState, call: G.Call, config: G.Config)
    requires BothWait(s)
    ensures var t := G.RunCalls(s, [call], config);
      t.games == s.games && PreferenceOf(t.preferences, ME).owned == {1}
      && PreferenceOf(t.preferences, ME).history == PreferenceOf(s.preferences, ME).history
      && !PreferenceOf(t.preferences, ME).IsCold()
  {
    assert [call][..0] == [] && G.RunCalls(s, [], config) == s;
    GeneratedProfiles(s, call, config);
  }

  /** Both waiting games fit the batch and are given the same vector. */
  lemma BothEmbedded(t: StoreState, batch: nat)
    requires t.games.Keys == {1, 2} && t.games[1].NeedsEmbedding() && t.games[2].NeedsEmbedding() && batch >= 2
    ensures var e := G.EmbeddedPending(t, batch, Some([EAST, EAST]));
      && e.Some? && e.value == t.(games := e.value.games) && G.SameButVectors(t.games, e.value.games)
      && e.value.games[1].dense == EAST && e.value.games[2].dense == EAST
  {
    BothNeed(t.games);
    Landings.PendingSize(t.games, batch);
    EastPass(t, batch);
    G.EmbeddingChangesVectors(t, batch, Some([EAST, EAST]));
    EmbeddedEast(t.games, batch, 1);
    EmbeddedEast(t.games, batch, 2);
  }

  lemma EastPass(t: StoreState, batch: nat)
    requires |G.Pending(t.games, batch)| == 2
    ensures G.EmbeddedPending(t, batch, Some([EAST, EAST]))
         == Some(t.(games := G.EmbedAll(t.games, G.Pending(t.games, batch), [EAST, EAST])))
  {}

  lemma BothNeed(games: Games)
    requires games.Keys == {1, 2} && games[1].NeedsEmbedding() && games[2].NeedsEmbedding()
    ensures Landings.NeedingIds(games) == {1, 2}
  {
    forall g ensures g in Landings.NeedingIds(games) <==> g in {1, 2} { assert g in games.Keys <==> g in {1, 2}; }
  }

  lemma EmbeddedEast(games: Games, batch: nat, g: GameId)
    requires games.Keys == {1, 2} && games[1].NeedsEmbedding() && games[2].NeedsEmbedding() && batch >= 2 && g in {1, 2}
    requires |G.Pending(games, batch)| == 2
    ensures var after := G.EmbedAll(games, G.Pending(games, batch), [EAST, EAST]); g in after && after[g].dense == EAST
  {
    AllPending(games, batch, g);
    EastLanded(games, G.Pending(games, batch), g);
  }

  lemma EastLanded(games: Games, pending: seq<Game>, g: GameId)
    requires |pending| == 2 && G.Held(pending, g).Some?
    ensures var after := G.EmbedAll(games, pending, [EAST, EAST]); g in after && after[g].dense == EAST
  {
    G.EmbedAllAt(games, pending, [EAST, EAST], g);
    assert forall v :: v in [EAST, EAST] ==> v == EAST;
  }

  lemma AllPending(games: Games, batch: nat, g: GameId)
    requires games.Keys == {1, 2} && games[1].NeedsEmbedding() && games[2].NeedsEmbedding() && batch >= 2 && g in {1, 2}
    ensures G.Held(G.Pending(games, batch), g).Some?
  {
    var pending := G.Pending(games, batch);
    Landings.PendingSize(games, batch);
    Landings.IdsSize(pending);
    Landings.PendingNeed(games, batch);
    BothNeed(games);
    WholeOf({1, 2}, Landings.IdsOf(pending));
    Landings.HeldIff(pending, g);
  }

  lemma WholeOf<T>(all: set<T>, part: set<T>)
    requires part <= all && |part| == |all|
    ensures part == all
  {
    Landings.SizeOfRest(all, all - part, part);
  }

  /** With the vectors the unowned game is a content match; without them nothing was. */
  lemma NowOffered(s: StoreState, e: StoreState, config: G.Config, root: Root)
    requires BothWait(s) && config.denseSpace && config.scorer == DenseScorer(root) && RootAt(root, 1.0)
    requires config.limit > 0 && config.catalogueLimit >= 2
    requires G.SameButVectors(s.games, e.games) && e.games[1].dense == EAST && e.games[2].dense == EAST
    requires var p, q := PreferenceOf(s.preferences, ME), PreferenceOf(e.preferences, ME);
      q.owned == {1} && q.history == p.history && !q.IsCold()
    ensures !G.PlanFor(s, ME, config).Fails? && !G.PlanFor(e, ME, config).Fails?
    ensures G.PlanCores(G.PlanFor(e, ME, config)) != G.PlanCores(G.PlanFor(s, ME, config))
  {
    Landings.RankedPlan(s, ME, config, root);
    Landings.RankedPlan(e, ME, config, root);
    TasteFrom(s, []);
    TasteFrom(e, EAST);
    var before := Steering.DenseRanks(root, Steering.Tasting(Landings.Profile(s, ME), []), Landings.Scan(s, config),
                                      Landings.Pairs(s, ME), config.limit);
    var after := Steering.DenseRanks(root, Steering.Tasting(Landings.Profile(e, ME), EAST), Landings.Scan(e, config),
                                     Landings.Pairs(e, ME), config.limit);
    ContentHead(e, config, root);
    forall y | y in before ensures y.content == 0.0 {}
    forall y | y in before ensures y.Score() < 0.5 { Steering.CollaborativeInUnit(Landings.Pairs(s, ME), y.game.id); }
    Steering.CoresDiffer(after, before, after[0]);
  }

  lemma TasteFrom(s: StoreState, v: Dense)
    requires 1 in s.games && s.games[1].dense == v && (v == [] || v == EAST)
    requires PreferenceOf(s.preferences, ME).history == [SignalRecord(1, WeightOf(PURCHASE))]
    ensures RebuiltDense(Landings.Profile(s, ME).history, Landings.SpaceFor(s, ME)) == Some(v)
  {
    var history, space := Landings.Profile(s, ME).history, Landings.SpaceFor(s, ME);
    assert history[0].game == 1 && 1 in RememberedGames(history);
    assert history[..0] == [] && RebuiltDense([], space) == Some([]);
    assert DensePlus([], EAST, 1.0).value == EAST;
  }

  lemma ContentHead(e: StoreState, config: G.Config, root: Root)
    requires e.games.Keys == {1, 2} && e.games[2].isPublished && e.games[2].dense == EAST && RootAt(root, 1.0)
    requires PreferenceOf(e.preferences, ME).owned == {1} && config.limit > 0 && config.catalogueLimit >= 2
    ensures var p := Steering.Tasting(Landings.Profile(e, ME), EAST);
      var r := Steering.DenseRanks(root, p, Landings.Scan(e, config), Landings.Pairs(e, ME), config.limit);
      r != [] && r[0] in r && r[0].Score() >= 0.65
  {
    var scan, p := Landings.Scan(e, config), Steering.Tasting(Landings.Profile(e, ME), EAST);
    TwoGames(e.games);
    SmallCatalogue(e.games, config.catalogueLimit, 2);
    EastMatches(root, p, Landings.Pairs(e, ME), e.games[2]);
    Shortlisted(DenseScorer(root), p, scan, Landings.Pairs(e, ME), e.games[2]);
    OnlyTheOther(e.games, config, root, p, Landings.Pairs(e, ME));
  }

  lemma EastMatches(root: Root, p: UserPreference, pairs: CoPurchases, g: Game)
    requires p.tasteDense == EAST && g.dense == EAST && RootAt(root, 1.0)
    ensures DenseScorer(root).score(p, g) == 1.0 && Collaborative(pairs, g.id) >= 0.0
    ensures ScoredBy(DenseScorer(root), p, pairs, g).Score() >= 0.65
  {
    assert DenseDot(EAST, EAST) == 1.0;
    Steering.CosineWithItself(EAST, root);
    Steering.CollaborativeInUnit(pairs, g.id);
  }

  lemma OnlyTheOther(games: Games, config: G.Config, root: Root, p: UserPreference, pairs: CoPurchases)
    requires games.Keys == {1, 2} && p.owned == {1} && config.limit > 0
    requires ScoredBy(DenseScorer(root), p, pairs, games[2])
             in Shortlist(DenseScorer(root), p, Recommendable(games, config.catalogueLimit), pairs)
    ensures var r := Steering.DenseRanks(root, p, Recommendable(games, config.catalogueLimit), pairs, config.limit);
      r != [] && r[0] in r && r[0] == ScoredBy(DenseScorer(root), p, pairs, games[2])
  {
    var r := Steering.DenseRanks(root, p, Recommendable(games, config.catalogueLimit), pairs, config.limit);
    G.RecommendableUnique(games, config.catalogueLimit);
    assert r[0] in r;
    assert r[0].game.id in games.Keys && r[0].game.id !in {1};
  }

  // ---------------------------------------------------------------- a purchase while a generation waits

  function Doing(actions: seq<Action>): (r: seq<Drafts.Move>)
    ensures |r| == |actions|
  {
    Map(actions, a => Drafts.Do(a))
  }

  lemma {:induction false} DoingReaches(actions: seq<Action>, config: G.Config)
    ensures Drafts.At(Doing(actions), config) == Drafts.Service(Reached(actions, config), map[])
  {
    if actions != [] {
      var front := actions[..|actions| - 1];
      DoingReaches(front, config);
      assert Doing(actions)[..|front|] == Doing(front);
    }
  }

  lemma MovedSnoc(moves: seq<Drafts.Move>, m: Drafts.Move, config: G.Config)
    ensures Drafts.At(moves + [m], config) == Drafts.Moved(Drafts.At(moves, config), m, config)
  {
    assert (moves + [m])[..|moves|] == moves;
  }

  /** A user buys a second game while their list waits for its explanations. */
  function BoughtMeanwhile(call: G.Call): seq<Drafts.Move> {
    Doing([] + [Publish(1)] + [Publish(2)] + [Buy(1)]) + [Drafts.Read(0, call)] + [Drafts.Do(Buy(2))]
      + [Drafts.Commit(0)]
  }

  lemma MeanwhileSteps(call: G.Call, config: G.Config)
    ensures var w := Reached([] + [Publish(1)] + [Publish(2)] + [Buy(1)], config);
      Drafts.StoreIn(BoughtMeanwhile(call), config)
      == Drafts.Committed(Next(w, Buy(2), config).store, Drafts.DraftOf(w.store, call, config), config)
  {
    var bought := Doing([] + [Publish(1)] + [Publish(2)] + [Buy(1)]);
    DoingReaches([] + [Publish(1)] + [Publish(2)] + [Buy(1)], config);
    MovedSnoc(bought, Drafts.Read(0, call), config);
    MovedSnoc(bought + [Drafts.Read(0, call)], Drafts.Do(Buy(2)), config);
    MovedSnoc(bought + [Drafts.Read(0, call)] + [Drafts.Do(Buy(2))], Drafts.Commit(0), config);
  }

  lemma SecondBuy(w: World, config: G.Config)
    requires BothWait(w.store)
    ensures Flag(Next(w, Buy(2), config).store.ownerships, ME, 2) == Some(true)
  {
    var s, e := w.store, PurchaseCompleted(102, ME, 2, None);
    assert 2 in s.games.Keys;
    PurchaseWritten(s, ME, 2, 0.0);
    EventFrame(s, e, 0.0);
    RaiseFlag(s.ownerships, ME, 2, true, ME, 2);
  }

  /** In the dense space the purchase is credited, and the list's profile takes the credit back: the row says counted,
      the profile does not own the game, and no later delivery can credit it again. */
  lemma WaitLosesCredit(call: G.Call, config: G.Config, root: Root)
    requires config.denseSpace && config.scorer == DenseScorer(root) && call.user == ME && !call.fault
    ensures var s := Drafts.StoreIn(BoughtMeanwhile(call), config);
      Flag(s.ownerships, ME, 2) == Some(true) && 2 !in PreferenceOf(s.preferences, ME).owned
  {
    var w := Reached([] + [Publish(1)] + [Publish(2)] + [Buy(1)], config);
    MeanwhileSteps(call, config);
    BoughtBothWait(config);
    SecondBuy(w, config);
    WaitingFiled(Next(w, Buy(2), config).store, w.store, call, config, root);
  }

  lemma WaitingFiled(t: StoreState, s: StoreState, call: G.Call, config: G.Config, root: Root)
    requires BothWait(s) && config.denseSpace && config.scorer == DenseScorer(root) && call.user == ME && !call.fault
    ensures var after := Drafts.Committed(t, Drafts.DraftOf(s, call, config), config);
      after.ownerships == t.ownerships && PreferenceOf(after.preferences, ME).owned == {1}
  {
    TasteFrom(s, []);
    Landings.RankedPlan(s, ME, config, root);
    FiledProfile(t.preferences, Steering.Tasting(PreferenceOf(s.preferences, ME), []), ME);
  }

  /** On the sparse path the list stored offers the game the user has bought. */
  lemma WaitOffersOwned(call: G.Call, config: G.Config)
    requires config.scorer == SparseScorer(ConstantRoot()) && !config.denseSpace && call.user == ME && !call.fault
    requires config.limit > 0 && config.catalogueLimit >= 2
    ensures var s := Drafts.StoreIn(BoughtMeanwhile(call), config);
      Flag(s.ownerships, ME, 2) == Some(true) && exists r :: r in StoredFor(s, ME) && r.game == 2
  {
    var w := Reached([] + [Publish(1)] + [Publish(2)] + [Buy(1)], config);
    MeanwhileSteps(call, config);
    BoughtBothWait(config);
    SecondBuy(w, config);
    TwoGames(w.store.games);
    ListNotEmpty(w.store, call, config, 2);
    OffersTheOther(w.store, call, config);
    WaitingStored(Next(w, Buy(2), config).store, w.store, call, config);
  }

  lemma OffersTheOther(s: StoreState, call: G.Call, config: G.Config)
    requires BothWait(s) && call.user == ME && G.ListFor(s, call, config) != []
    ensures exists r :: r in G.ListFor(s, call, config) && r.game == 2
  {
    var list := G.ListFor(s, call, config);
    G.ListWellShaped(s, call, config);
    HeadListed(list);
    assert list[0].game in s.games.Keys && list[0].game !in {1};
  }

  lemma WaitingStored(t: StoreState, s: StoreState, call: G.Call, config: G.Config)
    requires !call.fault && !G.PlanFor(s, call.user, config).Fails?
    ensures StoredFor(Drafts.Committed(t, Drafts.DraftOf(s, call, config), config), call.user)
      == G.ListFor(s, call, config)
    ensures Drafts.Committed(t, Drafts.DraftOf(s, call, config), config).ownerships == t.ownerships
  {}
}
