/** `application/usecases/serve.py`: the read path, its popularity fallback, and the games similar to one game. */
module Serve {
  import opened Ordering
  import opened Vectors
  import opened Catalog
  import opened Preference
  import opened Recommendations
  import opened Store
  import opened Scoring
  import G = Generate
  import System

  datatype ServedItem = ServedItem(game: GameId, title: string, score: real, source: Source, rank: nat,
                                   reasons: seq<Reason>)
  {
    function Core(): Item { Item(game, score, source, rank) }
  }

  datatype Response = Response(user: UserId, source: Source, generatedAt: Option<Time>, items: seq<ServedItem>)

  // ---------------------------------------------------------------- a stored list

  /** `sorted(stored, key=rank)` */
  function RankKey(r: Recommendation): Key {
    Key(0.0, -(r.rank as int), 0)
  }

  function TitleIn(games: Games, id: GameId): string {
    if id in games then games[id].title else ""
  }

  function ServedOf(games: Games, round: Rounding): Recommendation -> ServedItem {
    (r: Recommendation) => ServedItem(r.game, TitleIn(games, r.game), round(r.score), r.source, r.rank, r.reasons)
  }

  /** `_dominant_source` */
  function DominantSource(stored: seq<Recommendation>): Source {
    var sources := set r | r in stored :: r.source;
    if stored == [] then FALLBACK
    else if |sources| > 1 then HYBRID
    else stored[0].source
  }

  /** A list is labelled by a single method exactly when every entry came from it; any mixture is a hybrid. */
  lemma DominantSourceExactly(stored: seq<Recommendation>, source: Source)
    requires stored != []
    ensures DominantSource(stored) == source <==>
      || (forall r :: r in stored ==> r.source == source)
      || (source == HYBRID && exists r, q :: r in stored && q in stored && r.source != q.source)
  {
    var sources := set r | r in stored :: r.source;
    assert stored[0] in stored && stored[0].source in sources;
    if r, q :| r in stored && q in stored && r.source != q.source {
      assert r.source in sources && q.source in sources;
      TwoMembers(sources, r.source, q.source);
    } else {
      forall x | x in sources ensures x == stored[0].source {
        var r :| r in stored && r.source == x;
      }
      assert sources == {stored[0].source};
    }
  }

  lemma TwoMembers<T>(s: set<T>, x: T, y: T)
    requires x in s && y in s && x != y
    ensures |s| > 1
  {
    assert |s - {x}| == |s| - 1;
    assert y in s - {x};
  }

  // ---------------------------------------------------------------- the fallback

  /** `max(limit * 4, limit)` */
  function ScanOf(limit: nat): nat {
    if limit * 4 > limit then limit * 4 else limit
  }

  function MaxCount(games: seq<Game>): nat {
    if games == [] then 0 else
    var rest := MaxCount(games[1..]);
    if games[0].purchaseCount > rest then games[0].purchaseCount else rest
  }

  function PopularityShare(game: Game, strongest: nat, round: Rounding): real {
    if strongest == 0 then 0.0 else round(game.purchaseCount as real / strongest as real)
  }

  function FallbackItems(top: seq<Game>, round: Rounding): seq<ServedItem> {
    seq(|top|, i requires 0 <= i < |top| =>
      ServedItem(top[i].id, top[i].title, PopularityShare(top[i], MaxCount(top), round), FALLBACK, i + 1, []))
  }

  function FallbackGames(games: Games, p: UserPreference, limit: nat): seq<Game> {
    TopSellers(Recommendable(games, ScanOf(limit)), p, limit)
  }

  function ResponseFor(s: StoreState, user: UserId, limit: nat, round: Rounding): Response {
    var stored := Top(StoredFor(s, user), RankKey, limit);
    if stored != [] then
      Response(user, DominantSource(stored), Some(stored[0].generatedAt), Map(stored, ServedOf(s.games, round)))
    else
      Response(user, FALLBACK, None, FallbackItems(FallbackGames(s.games, PreferenceOf(s.preferences, user), limit),
        round))
  }

  /** `ServeRecommendationsUseCase.execute`: a read that leaves the store as it was. */
  method Execute(store: MemoryStore, user: UserId, limit: nat, round: Rounding) returns (r: Response)
    ensures r == ResponseFor(store.View(), user, limit, round)
  {
    var uow := new UnitOfWork(store);
    var all := uow.ForUser(user);
    var stored := Top(all, RankKey, limit);
    if stored != [] {
      var items := ItemsOf(uow, stored, round);
      r := Response(user, DominantSource(stored), Some(stored[0].generatedAt), items);
    } else {
      r := FallbackResponse(uow, user, limit, round);
    }
  }

  /** `items_of`: titles come from the games still known. */
  method ItemsOf(uow: UnitOfWork, stored: seq<Recommendation>, round: Rounding) returns (items: seq<ServedItem>)
    ensures items == Map(stored, ServedOf(uow.Merged().games, round))
  {
    var ids := Map(stored, (item: Recommendation) => item.game);
    var known := uow.GetByIds(ids);
    G.PlayedIsSpace(uow.Merged().games, ids);
    var titles := map g | g in known :: g.id := g.title;
    TitlesAgree(uow.Merged().games, stored, known, titles, ids);
    items := Map(stored, TitledBy(titles, round));
    SameItems(stored, uow.Merged().games, titles, round);
  }

  function TitledBy(titles: map<GameId, string>, round: Rounding): Recommendation -> ServedItem {
    (item: Recommendation) =>
      ServedItem(item.game, if item.game in titles then titles[item.game] else "", round(item.score), item.source,
                 item.rank, item.reasons)
  }

  lemma SameItems(stored: seq<Recommendation>, games: Games, titles: map<GameId, string>, round: Rounding)
    requires forall item :: item in stored ==>
      TitleIn(games, item.game) == if item.game in titles then titles[item.game] else ""
    ensures Map(stored, TitledBy(titles, round)) == Map(stored, ServedOf(games, round))
  {
    forall i | 0 <= i < |stored| ensures TitledBy(titles, round)(stored[i]) == ServedOf(games, round)(stored[i]) {
      assert stored[i] in stored;
    }
  }

  lemma TitlesAgree(catalogue: Games, stored: seq<Recommendation>, known: seq<Game>, titles: map<GameId, string>,
                    ids: seq<GameId>)
    requires ids == Map(stored, (item: Recommendation) => item.game)
    requires forall g :: g in known <==> g.id in ids && g.id in catalogue && catalogue[g.id] == g
    requires titles == map g | g in known :: g.id := g.title
    ensures forall item :: item in stored ==>
      TitleIn(catalogue, item.game) == if item.game in titles then titles[item.game] else ""
  {
    forall item | item in stored
      ensures TitleIn(catalogue, item.game) == if item.game in titles then titles[item.game] else ""
    {
      var i :| 0 <= i < |stored| && stored[i] == item;
      assert ids[i] == item.game;
      if item.game in catalogue { assert catalogue[item.game] in known; }
    }
  }

  method FallbackResponse(uow: UnitOfWork, user: UserId, limit: nat, round: Rounding) returns (r: Response)
    ensures var s := uow.Merged();
      var top := FallbackGames(s.games, PreferenceOf(s.preferences, user), limit);
      r == Response(user, FALLBACK, None, FallbackItems(top, round))
  {
    var found := uow.GetPreference(user);
    var preference := if found.Some? then found.value else Blank(user);
    var candidates := uow.GetRecommendable(ScanOf(limit));
    var top := RankTopSellers(candidates, preference, limit);
    r := Response(user, FALLBACK, None, FallbackItems(top, round));
  }

  // ---------------------------------------------------------------- what a response shows

  /** Entry by entry, what is served of a stored list: the stored game, source, rank and reasons, the score rounded, and
      the title of the catalogue while it knows the game. */
  lemma ServedEntry(s: StoreState, user: UserId, limit: nat, round: Rounding, i: nat)
    requires G.WellShaped(StoredFor(s, user)) && i < |StoredFor(s, user)| && i < limit
    ensures var r, stored := ResponseFor(s, user, limit, round), StoredFor(s, user)[i];
      && r.user == user && r.generatedAt == Some(StoredFor(s, user)[0].generatedAt) && i < |r.items|
      && r.items[i].game == stored.game && r.items[i].score == round(stored.score) && r.items[i].source == stored.source
      && r.items[i].rank == i + 1 && r.items[i].reasons == stored.reasons
      && r.items[i].title == if stored.game in s.games then s.games[stored.game].title else ""
  {
    TopOfWellShaped(StoredFor(s, user), limit);
  }

  /** Without a stored list, every entry is a known game under its own title, ranked by its place and labelled a
      fallback, with its purchases as a share of the first entry's for a score. */
  lemma FallbackEntry(s: StoreState, user: UserId, limit: nat, round: Rounding, i: nat)
    requires StoredFor(s, user) == [] && i < |ResponseFor(s, user, limit, round).items|
    ensures var r := ResponseFor(s, user, limit, round);
      && r.user == user && r.source == FALLBACK && r.generatedAt == None
      && r.items[i].game in s.games && r.items[i].title == s.games[r.items[i].game].title
      && r.items[i].rank == i + 1 && r.items[i].source == FALLBACK && r.items[i].reasons == []
      && r.items[0].game in s.games
      && var most := s.games[r.items[0].game].purchaseCount;
         r.items[i].score ==
           if most == 0 then 0.0 else round(s.games[r.items[i].game].purchaseCount as real / most as real)
  {
    var top := FallbackGames(s.games, PreferenceOf(s.preferences, user), limit);
    FallbackKnown(s.games, PreferenceOf(s.preferences, user), limit, i);
    FallbackKnown(s.games, PreferenceOf(s.preferences, user), limit, 0);
    MaxOfDescending(top);
  }

  lemma FallbackKnown(games: Games, p: UserPreference, limit: nat, i: nat)
    requires i < |FallbackGames(games, p, limit)|
    ensures var g := FallbackGames(games, p, limit)[i]; g.id in games && games[g.id] == g
  {
    G.RecommendableUnique(games, ScanOf(limit));
    var top := FallbackGames(games, p, limit);
    TopSellersExactly(Recommendable(games, ScanOf(limit)), p, limit, top[i]);
    assert top[i] in top;
  }

  /** No game twice, the most bought first, smaller ids first among equals. */
  lemma FallbackInOrder(s: StoreState, user: UserId, limit: nat, round: Rounding, i: nat, j: nat)
    requires StoredFor(s, user) == [] && i < j < |ResponseFor(s, user, limit, round).items|
    ensures var items := ResponseFor(s, user, limit, round).items;
      && items[i].game in s.games && items[j].game in s.games && items[i].game != items[j].game
      && var a, b := s.games[items[i].game], s.games[items[j].game];
         a.purchaseCount > b.purchaseCount || (a.purchaseCount == b.purchaseCount && a.id < b.id)
  {
    FallbackItemsAre(s, user, limit, round);
    ItemsInOrder(s.games, PreferenceOf(s.preferences, user), limit, round, i, j);
  }

  lemma FallbackItemsAre(s: StoreState, user: UserId, limit: nat, round: Rounding)
    requires StoredFor(s, user) == []
    ensures ResponseFor(s, user, limit, round).items
         == FallbackItems(FallbackGames(s.games, PreferenceOf(s.preferences, user), limit), round)
  {}

  lemma ItemsInOrder(games: Games, p: UserPreference, limit: nat, round: Rounding, i: nat, j: nat)
    requires i < j < |FallbackGames(games, p, limit)|
    ensures var items := FallbackItems(FallbackGames(games, p, limit), round);
      && items[i].game in games && items[j].game in games && items[i].game != items[j].game
      && var a, b := games[items[i].game], games[items[j].game];
         a.purchaseCount > b.purchaseCount || (a.purchaseCount == b.purchaseCount && a.id < b.id)
  {
    FallbackKnown(games, p, limit, i);
    FallbackKnown(games, p, limit, j);
    FallbackGamesInOrder(games, p, limit, i, j);
  }

  lemma FallbackGamesInOrder(games: Games, p: UserPreference, limit: nat, i: nat, j: nat)
    requires i < j < |FallbackGames(games, p, limit)|
    ensures var a, b := FallbackGames(games, p, limit)[i], FallbackGames(games, p, limit)[j];
      a.purchaseCount > b.purchaseCount || (a.purchaseCount == b.purchaseCount && a.id < b.id)
  {
    G.RecommendableUnique(games, ScanOf(limit));
    UniqueFiltered(Recommendable(games, ScanOf(limit)), NotOwned(p));
    TopInOrder(Filter(Recommendable(games, ScanOf(limit)), NotOwned(p)), limit, i, j);
  }

  lemma UniqueFiltered(games: seq<Game>, p: Game -> bool)
    requires UniqueIds(games)
    ensures UniqueIds(Filter(games, p))
  {
    var kept := Filter(games, p);
    FilterDistinct(games, p);
    forall i, j | 0 <= i < j < |kept| ensures kept[i].id != kept[j].id {
      assert kept[i] in kept && kept[j] in kept;
      IdsDistinguish(games, kept[i], kept[j]);
    }
  }

  lemma TopInOrder(games: seq<Game>, limit: nat, i: nat, j: nat)
    requires UniqueIds(games) && i < j < |Top(games, PopularityKey, limit)|
    ensures Before(PopularityKey(Top(games, PopularityKey, limit)[i]),
      PopularityKey(Top(games, PopularityKey, limit)[j]))
  {
    var sorted := Sort(games, PopularityKey);
    DistinctMultiset(games, sorted);
    forall x, y | x in sorted && y in sorted && PopularityKey(x) == PopularityKey(y) ensures x == y {
      SameId(games, x, y);
    }
    AheadMeansEarlier(sorted, PopularityKey, i, j);
  }

  /** The games a user does not own that are bought more, within the scan. */
  ghost function RivalSellers(games: Games, p: UserPreference, limit: nat, g: Game): set<Game> {
    set y | y in BoughtMore(games, g) && y.id !in p.owned && |BoughtMore(games, y)| < 4 * limit
  }

  /** A game is shown exactly when it is published, not owned, among the 4 * limit most bought, and fewer than `limit`
      such games are bought more. */
  lemma FallbackShows(s: StoreState, user: UserId, limit: nat, round: Rounding, g: GameId)
    requires StoredFor(s, user) == []
    ensures var p := PreferenceOf(s.preferences, user);
      (exists i :: 0 <= i < |ResponseFor(s, user, limit, round).items|
                && ResponseFor(s, user, limit, round).items[i].game == g) <==>
        && g in s.games && s.games[g].isPublished && g !in p.owned && |BoughtMore(s.games, s.games[g])| < 4 * limit
        && |RivalSellers(s.games, p, limit, s.games[g])| < limit
  {
    var p, items := PreferenceOf(s.preferences, user), ResponseFor(s, user, limit, round).items;
    var top := FallbackGames(s.games, p, limit);
    assert items == FallbackItems(top, round);
    if i :| 0 <= i < |items| && items[i].game == g {
      FallbackKnown(s.games, p, limit, i);
      assert top[i] in top;
      InFallback(s.games, p, limit, s.games[g]);
    }
    if g in s.games {
      InFallback(s.games, p, limit, s.games[g]);
      assert s.games[g].id == g;
      if s.games[g] in top {
        var i :| 0 <= i < |top| && top[i] == s.games[g];
        assert items[i].game == g;
      }
    }
  }

  lemma InFallback(games: Games, p: UserPreference, limit: nat, g: Game)
    ensures g in FallbackGames(games, p, limit) <==>
      && g.id in games && games[g.id] == g && g.isPublished && g.id !in p.owned
      && |BoughtMore(games, g)| < 4 * limit && |RivalSellers(games, p, limit, g)| < limit
  {
    var scan := Recommendable(games, ScanOf(limit));
    G.RecommendableUnique(games, ScanOf(limit));
    TopSellersExactly(scan, p, limit, g);
    RecommendableExactly(games, ScanOf(limit), g);
    RivalsAre(games, p, limit, g);
  }

  lemma RivalsAre(games: Games, p: UserPreference, limit: nat, g: Game)
    ensures MoreBought(Recommendable(games, ScanOf(limit)), p, g) == RivalSellers(games, p, limit, g)
  {
    forall y
      ensures y in MoreBought(Recommendable(games, ScanOf(limit)), p, g) <==> y in RivalSellers(games, p, limit, g)
    {
      RecommendableExactly(games, ScanOf(limit), y);
      InBoughtMore(games, g, y);
    }
  }

  // ---------------------------------------------------------------- serving a list is reading it in order

  lemma TopOfWellShaped(list: seq<Recommendation>, limit: nat)
    requires G.WellShaped(list)
    ensures Top(list, RankKey, limit) == Take(list, limit)
  {
    forall x, y | x in list && y in list && RankKey(x) == RankKey(y) ensures x == y {
      var i :| 0 <= i < |list| && list[i] == x;
      var j :| 0 <= j < |list| && list[j] == y;
    }
    SortedUnique(Sort(list, RankKey), list, RankKey);
  }

  /** In every reachable state, asking for `limit` games of a stored list gives its first `limit` entries in order,
      and the latest announced event of the user begins with the same games, rounded scores, sources and ranks. */
  lemma ServesWhatWasAnnounced(actions: seq<System.Action>, config: G.Config, user: UserId, limit: nat)
    requires limit > 0 && StoredFor(System.StoreAt(actions, config), user) != []
    ensures var s := System.StoreAt(actions, config);
      var list, response := StoredFor(s, user), ResponseFor(s, user, limit, config.round);
      && response.items == Map(Take(list, limit), ServedOf(s.games, config.round))
      && response.generatedAt == Some(list[0].generatedAt)
      && System.Latest(s.outbox, user).Some?
      && Map(response.items, (i: ServedItem) => i.Core()) == Take(System.Latest(s.outbox, user).value.items, limit)
  {
    var s := System.StoreAt(actions, config);
    System.AlwaysAnnounced(actions, config, user);
    TopOfWellShaped(StoredFor(s, user), limit);
  }

  // ---------------------------------------------------------------- when the bounded scan is exact

  lemma SortOfSorted(games: Games, xs: seq<Game>)
    requires Sorted(xs, PopularityKey) && forall g :: g in xs ==> g in Catalogue(games)
    ensures Sort(xs, PopularityKey) == xs
  {
    PopularityInjective(games, xs);
    SortedUnique(xs, Sort(xs, PopularityKey), PopularityKey);
  }

  /** The whole catalogue by popularity, owned games dropped, is the unowned of the scan and then the unowned beyond. */
  lemma ScanSplits(games: Games, p: UserPreference, scan: nat)
    ensures var near, far := Recommendable(games, scan), Beyond(games, scan);
      Sort(Filter(PublishedGames(games), NotOwned(p)), PopularityKey)
        == Filter(near, NotOwned(p)) + Filter(far, NotOwned(p))
  {
    PopularityInjective(games, PublishedGames(games));
    SortFilterSplit(PublishedGames(games), NotOwned(p), PopularityKey, scan);
  }

  lemma ScanSorted(games: Games, p: UserPreference, scan: nat)
    ensures var unowned := Filter(Recommendable(games, scan), NotOwned(p)); Sort(unowned, PopularityKey) == unowned
  {
    FilterSorted(Recommendable(games, scan), NotOwned(p), PopularityKey);
    SortOfSorted(games, Filter(Recommendable(games, scan), NotOwned(p)));
  }

  /** The games the scan never looked at. */
  function Beyond(games: Games, scan: nat): seq<Game> {
    var sorted := Sort(PublishedGames(games), PopularityKey);
    sorted[|Take(sorted, scan)|..]
  }

  /** The fallback is the true top of the whole published catalogue, owned games left out, exactly when the scan holds
      enough unowned games or nothing unowned lies beyond it. */
  lemma FallbackExactIff(games: Games, p: UserPreference, limit: nat)
    ensures FallbackGames(games, p, limit) == TopSellers(PublishedGames(games), p, limit) <==>
      || |Filter(Recommendable(games, ScanOf(limit)), NotOwned(p))| >= limit
      || Filter(Beyond(games, ScanOf(limit)), NotOwned(p)) == []
  {
    ScanSplits(games, p, ScanOf(limit));
    ScanSorted(games, p, ScanOf(limit));
    TakeAppended(Filter(Recommendable(games, ScanOf(limit)), NotOwned(p)),
                 Filter(Beyond(games, ScanOf(limit)), NotOwned(p)), limit);
  }

  lemma TakeAppended<T(!new)>(xs: seq<T>, ys: seq<T>, limit: nat)
    ensures Take(xs + ys, limit) == Take(xs, limit) <==> |xs| >= limit || ys == []
  {
    if |xs| < limit && ys != [] {
      assert |Take(xs + ys, limit)| > |Take(xs, limit)|;
    }
    if ys == [] { assert xs + ys == xs; }
  }

  function OwnedOf(p: UserPreference): Game -> bool {
    (g: Game) => g.id in p.owned
  }

  lemma {:induction false} OwnedOrNot(games: seq<Game>, p: UserPreference)
    requires forall g :: g in games ==> g.isPublished
    ensures |Filter(games, OwnedOf(p))| + |Filter(games, NotOwned(p))| == |games|
  {
    if games != [] {
      assert games[0] in games;
      OwnedOrNot(games[1..], p);
    }
  }

  /** A user who owns at most 3 * limit of the 4 * limit most popular games gets the exact answer. */
  lemma FallbackExactForMost(games: Games, p: UserPreference, limit: nat)
    requires |Filter(Recommendable(games, ScanOf(limit)), OwnedOf(p))| <= 3 * limit
    ensures FallbackGames(games, p, limit) == TopSellers(PublishedGames(games), p, limit)
  {
    FallbackExactIff(games, p, limit);
    var near := Recommendable(games, ScanOf(limit));
    OwnedOrNot(near, p);
    if |near| < 4 * limit { assert Beyond(games, ScanOf(limit)) == []; }
  }

  /** The storefront section is empty exactly when the user owns everything the scan reaches. */
  lemma FallbackEmptyIff(games: Games, p: UserPreference, limit: nat)
    requires limit > 0
    ensures FallbackGames(games, p, limit) == [] <==>
      forall g :: g in Recommendable(games, ScanOf(limit)) ==> g.id in p.owned
  {
    var near := Recommendable(games, ScanOf(limit));
    var unowned := Filter(near, NotOwned(p));
    if unowned != [] {
      assert unowned[0] in unowned;
      assert |FallbackGames(games, p, limit)| > 0;
    }
  }

  // ---------------------------------------------------------------- the popularity share

  lemma {:induction false} MaxOfDescending(games: seq<Game>)
    requires Sorted(games, PopularityKey) && games != []
    ensures MaxCount(games) == games[0].purchaseCount
  {
    if |games| > 1 {
      assert games == [games[0]] + games[1..];
      SortedCons(games[0], games[1..], PopularityKey);
      assert games[1] in games[1..];
      MaxOfDescending(games[1..]);
    }
  }

  ghost predicate Monotone(round: Rounding) {
    forall x, y :: x <= y ==> round(x) <= round(y)
  }

  lemma ShareAtMost(a: nat, b: nat, c: nat)
    requires a <= b && c > 0
    ensures a as real / c as real <= b as real / c as real
  {}

  lemma ShareMonotone(a: Game, b: Game, strongest: nat, round: Rounding)
    requires Monotone(round) && a.purchaseCount <= b.purchaseCount
    ensures PopularityShare(a, strongest, round) <= PopularityShare(b, strongest, round)
  {
    if strongest > 0 { ShareAtMost(a.purchaseCount, b.purchaseCount, strongest); }
  }

  lemma ShareOfStrongest(a: Game, round: Rounding)
    ensures PopularityShare(a, a.purchaseCount, round) == if a.purchaseCount == 0 then 0.0 else round(1.0)
  {
    if a.purchaseCount > 0 { assert a.purchaseCount as real / a.purchaseCount as real == 1.0; }
  }

  /** The first fallback item is the yardstick, and shares never rise down the list. */
  lemma SharesDescend(games: Games, p: UserPreference, limit: nat, round: Rounding)
    requires Monotone(round)
    ensures var top := FallbackGames(games, p, limit);
      var items := FallbackItems(top, round);
      && (forall i, j :: 0 <= i < j < |items| ==> items[i].score >= items[j].score)
      && (items != [] ==> items[0].score == if top[0].purchaseCount == 0 then 0.0 else round(1.0))
  {
    SharesOfSorted(FallbackGames(games, p, limit), round);
  }

  lemma SharesOfSorted(top: seq<Game>, round: Rounding)
    requires Monotone(round) && Sorted(top, PopularityKey)
    ensures var items := FallbackItems(top, round);
      && (forall i, j :: 0 <= i < j < |items| ==> items[i].score >= items[j].score)
      && (items != [] ==> items[0].score == if top[0].purchaseCount == 0 then 0.0 else round(1.0))
  {
    var strongest, items := MaxCount(top), FallbackItems(top, round);
    if top != [] {
      MaxOfDescending(top);
      ShareOfStrongest(top[0], round);
    }
    forall i, j | 0 <= i < j < |items| ensures items[i].score >= items[j].score {
      assert !Before(PopularityKey(top[j]), PopularityKey(top[i]));
      ShareMonotone(top[j], top[i], strongest, round);
    }
  }

  // ---------------------------------------------------------------- similar games

  datatype Neighbour = Neighbour(game: Game, similarity: real)

  function NeighbourKey(n: Neighbour): Key {
    Key(n.similarity, n.game.purchaseCount, n.game.id)
  }

  function NeighbourOf(subject: Game, root: Root): Game -> Neighbour {
    (g: Game) => Neighbour(g, Cosine(subject.embedding, g.embedding, root))
  }

  function Similar(games: Games, subject: Game, catalogueLimit: nat, limit: nat, root: Root): seq<Neighbour> {
    Top(Alike(games, subject, catalogueLimit, root), NeighbourKey, limit)
  }

  /** `nearest_to`: every other published game with a vector, whatever its similarity, nearest first. */
  function NearestTo(games: Games, subject: Game, limit: nat, root: Root): seq<Neighbour> {
    if subject.dense == [] then [] else
    Top(Compared(games, subject, root), DistanceKey, limit)
  }

  function Comparable(subject: Game): Game -> bool {
    (g: Game) => g.isPublished && g.id != subject.id && g.dense != []
  }

  function DenseNeighbourOf(subject: Game, root: Root): Game -> Neighbour {
    (g: Game) => Neighbour(g, DenseCosine(subject.dense, g.dense, root))
  }

  function DistanceKey(n: Neighbour): Key {
    Key(n.similarity, 0, n.game.id)
  }

  /** One entry of the response: the similarity rounded, and on the sparse path the features that explain it. */
  datatype SimilarItem = SimilarItem(game: GameId, title: string, similarity: real, shared: seq<Feature>)

  function SimilarItemOf(subject: Game, denseSpace: bool, round: Rounding): Neighbour -> SimilarItem {
    (n: Neighbour) => SimilarItem(n.game.id, n.game.title, round(n.similarity),
                                  if denseSpace then [] else Overlap(subject.embedding, n.game.embedding))
  }

  /** `ListSimilarGamesUseCase` in either space; `None` is the NotFound of an unknown game. */
  method ListSimilar(store: MemoryStore, id: GameId, denseSpace: bool, catalogueLimit: nat, limit: nat, root: Root,
                     round: Rounding)
    returns (r: Option<seq<SimilarItem>>)
    ensures r.None? <==> id !in store.games
    ensures r.Some? ==>
      r.value == Map(if denseSpace then NearestTo(store.games, store.games[id], limit, root)
                     else Similar(store.games, store.games[id], catalogueLimit, limit, root),
                     SimilarItemOf(store.games[id], denseSpace, round))
  {
    var uow := new UnitOfWork(store);
    var subject := uow.GetGame(id);
    if subject.None? { return None; }
    if denseSpace {
      var nearest := NearestTo(uow.store.games + uow.games, subject.value, limit, root);
      return Some(Map(nearest, SimilarItemOf(subject.value, true, round)));
    }
    var candidates := uow.GetRecommendable(catalogueLimit);
    var others := Filter(candidates, (g: Game) => g.id != subject.value.id);
    var scored := Map(others, NeighbourOf(subject.value, root));
    var positive := Filter(scored, (n: Neighbour) => n.similarity > 0.0);
    r := Some(Map(Take(Sort(positive, NeighbourKey), limit), SimilarItemOf(subject.value, false, round)));
  }

  lemma {:induction false} MapDistinct<S(!new), T(!new)>(xs: seq<S>, f: S -> T)
    requires Distinct(xs) && forall x, y :: x in xs && y in xs && f(x) == f(y) ==> x == y
    ensures Distinct(Map(xs, f))
  {
    forall i, j | 0 <= i < j < |xs| ensures Map(xs, f)[i] != Map(xs, f)[j] {
      assert xs[i] in xs && xs[j] in xs;
    }
  }

  /** The candidates of the sparse path, each with its similarity. */
  function Alike(games: Games, subject: Game, catalogueLimit: nat, root: Root): (r: seq<Neighbour>)
    ensures forall n :: n in r <==>
      && n.game in Recommendable(games, catalogueLimit) && n.game.id != subject.id
      && n.similarity == Cosine(subject.embedding, n.game.embedding, root) && n.similarity > 0.0
  {
    var others := Filter(Recommendable(games, catalogueLimit), (g: Game) => g.id != subject.id);
    MapMembers(others, NeighbourOf(subject, root));
    Filter(Map(others, NeighbourOf(subject, root)), (n: Neighbour) => n.similarity > 0.0)
  }

  lemma MapMembers(games: seq<Game>, f: Game -> Neighbour)
    requires forall g :: f(g).game == g
    ensures forall n :: n in Map(games, f) <==> n.game in games && n == f(n.game)
  {
    var r := Map(games, f);
    forall n ensures n in r <==> n.game in games && n == f(n.game) {
      if n in r {
        var i :| 0 <= i < |r| && r[i] == n;
        assert games[i] in games;
      }
      if n.game in games && n == f(n.game) {
        var i :| 0 <= i < |games| && games[i] == n.game;
        assert r[i] == n;
      }
    }
  }

  /** Every neighbour is another published game with a similarity in (0, 1] that both games would report of each
      other, and some token they both carry explains it. */
  lemma NeighboursShare(games: Games, id: GameId, catalogueLimit: nat, limit: nat, root: Root, n: Neighbour)
    requires id in games && forall g :: g in games ==> RootAt(root, NormSquared(games[g].embedding))
    requires System.TokensUnweighted(games)
    requires n in Similar(games, games[id], catalogueLimit, limit, root)
    ensures n.game.id != id && n.game.id in games && games[n.game.id] == n.game && n.game.isPublished
    ensures 0.0 < n.similarity <= 1.0
    ensures n.similarity == Cosine(n.game.embedding, games[id].embedding, root)
    ensures var shared := Overlap(games[id].embedding, n.game.embedding);
      shared != [] && forall f :: f in shared ==> f in games[id].embedding && f in n.game.embedding
  {
    var subject := games[id];
    G.RecommendableUnique(games, catalogueLimit);
    NeighbourScored(games, subject, catalogueLimit, limit, root, n);
    var a, b := subject.embedding, n.game.embedding;
    CosineInUnit(a, b, root);
    CosineSymmetric(a, b, root);
    PositiveNormalised(Dot(a.Keys * b.Keys, a, b), Magnitude(a, root), Magnitude(b, root));
    var f := PositiveTerm(a.Keys * b.Keys, a, b);
    assert At(a, f) == 1.0 && At(b, f) == 1.0;
    assert f in Overlap(a, b);
  }

  lemma NeighbourScored(games: Games, subject: Game, catalogueLimit: nat, limit: nat, root: Root, n: Neighbour)
    requires n in Similar(games, subject, catalogueLimit, limit, root)
    ensures n.game in Recommendable(games, catalogueLimit) && n.game.id != subject.id
    ensures n.similarity == Cosine(subject.embedding, n.game.embedding, root) && n.similarity > 0.0
  {
    assert n in Alike(games, subject, catalogueLimit, root);
  }

  lemma AlikeDistinct(games: Games, subject: Game, catalogueLimit: nat, root: Root)
    ensures Distinct(Alike(games, subject, catalogueLimit, root))
    ensures Injective(Alike(games, subject, catalogueLimit, root), NeighbourKey)
  {
    var candidates := Recommendable(games, catalogueLimit);
    var others := Filter(candidates, (g: Game) => g.id != subject.id);
    G.RecommendableUnique(games, catalogueLimit);
    FilterDistinct(candidates, (g: Game) => g.id != subject.id);
    MapDistinct(others, NeighbourOf(subject, root));
    FilterDistinct(Map(others, NeighbourOf(subject, root)), (n: Neighbour) => n.similarity > 0.0);
  }

  /** The similar games closer to the subject, bought more among equals, of smaller ids among those. */
  ghost function Closer(games: Games, subject: Game, catalogueLimit: nat, root: Root, n: Neighbour): set<Neighbour> {
    set m | m in Alike(games, subject, catalogueLimit, root)
         && (m.similarity > n.similarity
             || (m.similarity == n.similarity && m.game.purchaseCount > n.game.purchaseCount)
             || (m.similarity == n.similarity && m.game.purchaseCount == n.game.purchaseCount && m.game.id < n.game.id))
  }

  /** A game is among the similar ones exactly when it is another scanned game with a positive similarity and fewer than
      `limit` such games come before it by similarity, popularity and id. */
  lemma SimilarExactly(games: Games, subject: Game, catalogueLimit: nat, limit: nat, root: Root, n: Neighbour)
    ensures n in Similar(games, subject, catalogueLimit, limit, root) <==>
      && n.game in Recommendable(games, catalogueLimit) && n.game.id != subject.id
      && n.similarity == Cosine(subject.embedding, n.game.embedding, root) && n.similarity > 0.0
      && |Closer(games, subject, catalogueLimit, root, n)| < limit
  {
    AlikeDistinct(games, subject, catalogueLimit, root);
    TopExactly(Alike(games, subject, catalogueLimit, root), NeighbourKey, limit, n);
    CloserIsAhead(games, subject, catalogueLimit, root, n);
  }

  lemma CloserIsAhead(games: Games, subject: Game, catalogueLimit: nat, root: Root, n: Neighbour)
    ensures Ahead(Alike(games, subject, catalogueLimit, root), NeighbourKey, n)
         == Closer(games, subject, catalogueLimit, root, n)
  {}

  /** Entry by entry, what the sparse path answers: another game under its own title, the cosine rounded, and the
      features the two share. */
  lemma SimilarEntry(games: Games, id: GameId, catalogueLimit: nat, limit: nat, root: Root, round: Rounding, i: nat)
    requires id in games && i < |Similar(games, games[id], catalogueLimit, limit, root)|
    ensures var x := Map(Similar(games, games[id], catalogueLimit, limit, root),
      SimilarItemOf(games[id], false, round))[i];
      && x.game in games && x.game != id && x.title == games[x.game].title
      && x.similarity == round(Cosine(games[id].embedding, games[x.game].embedding, root))
      && x.shared == Overlap(games[id].embedding, games[x.game].embedding)
  {
    var similar := Similar(games, games[id], catalogueLimit, limit, root);
    assert similar[i] in similar;
    NeighbourScored(games, games[id], catalogueLimit, limit, root, similar[i]);
    G.RecommendableUnique(games, catalogueLimit);
  }

  lemma SimilarInOrder(games: Games, subject: Game, catalogueLimit: nat, limit: nat, root: Root, i: nat, j: nat)
    requires i < j < |Similar(games, subject, catalogueLimit, limit, root)|
    ensures var r := Similar(games, subject, catalogueLimit, limit, root); r[i].similarity >= r[j].similarity
  {
    assert !Before(NeighbourKey(Similar(games, subject, catalogueLimit, limit, root)[j]),
                   NeighbourKey(Similar(games, subject, catalogueLimit, limit, root)[i]));
  }

  /** The games of the dense path, each with its similarity. */
  function Compared(games: Games, subject: Game, root: Root): (r: seq<Neighbour>)
    ensures forall n :: n in r <==>
      && n.game.id in games && games[n.game.id] == n.game && n.game.isPublished && n.game.id != subject.id
      && n.game.dense != [] && n.similarity == DenseCosine(subject.dense, n.game.dense, root)
  {
    var others := Filter(Catalogue(games), Comparable(subject));
    MapMembers(others, DenseNeighbourOf(subject, root));
    Map(others, DenseNeighbourOf(subject, root))
  }

  lemma ComparedDistinct(games: Games, subject: Game, root: Root)
    ensures Distinct(Compared(games, subject, root)) && Injective(Compared(games, subject, root), DistanceKey)
  {
    CatalogueDistinct(games);
    FilterDistinct(Catalogue(games), Comparable(subject));
    MapDistinct(Filter(Catalogue(games), Comparable(subject)), DenseNeighbourOf(subject, root));
  }

  /** The compared games nearer to the subject, smaller ids first among equals. */
  ghost function Nearer(games: Games, subject: Game, root: Root, n: Neighbour): set<Neighbour> {
    set m | m in Compared(games, subject, root)
         && (m.similarity > n.similarity || (m.similarity == n.similarity && m.game.id < n.game.id))
  }

  lemma NearestInOrder(games: Games, subject: Game, limit: nat, root: Root, i: nat, j: nat)
    requires i < j < |NearestTo(games, subject, limit, root)|
    ensures var r := NearestTo(games, subject, limit, root); r[i].similarity >= r[j].similarity
  {
    assert !Before(DistanceKey(NearestTo(games, subject, limit, root)[j]),
                   DistanceKey(NearestTo(games, subject, limit, root)[i]));
  }

  /** In the dense space a game is listed exactly when the subject and it have vectors, it is published, and fewer than
      `limit` such games are nearer; there is no catalogue limit and no floor on the similarity. */
  lemma NearestExactly(games: Games, subject: Game, limit: nat, root: Root, n: Neighbour)
    ensures n in NearestTo(games, subject, limit, root) <==>
      && subject.dense != []
      && n.game.id in games && games[n.game.id] == n.game && n.game.isPublished && n.game.id != subject.id
      && n.game.dense != [] && n.similarity == DenseCosine(subject.dense, n.game.dense, root)
      && |Nearer(games, subject, root, n)| < limit
  {
    ComparedDistinct(games, subject, root);
    TopExactly(Compared(games, subject, root), DistanceKey, limit, n);
    NearerIsAhead(games, subject, root, n);
  }

  lemma NearerIsAhead(games: Games, subject: Game, root: Root, n: Neighbour)
    ensures Ahead(Compared(games, subject, root), DistanceKey, n) == Nearer(games, subject, root, n)
  {}

  /** And the dense path: the cosine of the vectors rounded, with nothing to explain it. */
  lemma NearestEntry(games: Games, id: GameId, limit: nat, root: Root, round: Rounding, i: nat)
    requires id in games && i < |NearestTo(games, games[id], limit, root)|
    ensures var x := Map(NearestTo(games, games[id], limit, root), SimilarItemOf(games[id], true, round))[i];
      && x.game in games && x.game != id && x.title == games[x.game].title && x.shared == []
      && x.similarity == round(DenseCosine(games[id].dense, games[x.game].dense, root))
  {
    var nearest := NearestTo(games, games[id], limit, root);
    assert nearest[i] in nearest;
    NearestExactly(games, games[id], limit, root, nearest[i]);
  }
}
