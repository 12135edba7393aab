/** `infrastructure/persistence/memory/`: the store, and the unit of work that stages writes over it. */
module Store {
  import opened Ordering
  import opened Vectors
  import opened Catalog
  import opened Preference
  import opened Recommendations

  type EventId = int

  // ---------------------------------------------------------------- the ownership table

  /** One row: an owner, and whether the purchase also reached the owner's taste vector. */
  datatype Owner = Owner(user: UserId, counted: bool)

  predicate OneRowEach(rows: seq<Owner>) {
    forall i, j :: 0 <= i < j < |rows| ==> rows[i].user != rows[j].user
  }

  /** The owners of one game in insertion order; a dictionary holds each user once. */
  type Owners = rows: seq<Owner> | OneRowEach(rows)

  /** game -> owner -> counted. */
  type Ownerships = map<GameId, Owners>

  function RowsOf(table: Ownerships, game: GameId): Owners {
    if game in table then table[game] else []
  }

  function FlagIn(rows: seq<Owner>, user: UserId): (r: Option<bool>)
    ensures r.Some? <==> exists i :: 0 <= i < |rows| && rows[i].user == user
  {
    if rows == [] then None
    else if rows[0].user == user then Some(rows[0].counted)
    else
      assert forall i :: 0 <= i < |rows[1..]| ==> rows[1..][i] == rows[i + 1];
      assert forall i :: 0 < i < |rows| ==> rows[i] == rows[1..][i - 1];
      FlagIn(rows[1..], user)
  }

  /** The `counted` flag of a row, `None` when the user has no row for the game. */
  function Flag(table: Ownerships, user: UserId, game: GameId): Option<bool> {
    FlagIn(RowsOf(table, game), user)
  }

  /** `owners[user] = owners.get(user, False) or counted`: raised, never lowered. */
  function RaiseRow(rows: Owners, user: UserId, counted: bool): (r: Owners)
    ensures FlagIn(r, user) == Some(counted || FlagIn(rows, user) == Some(true))
    ensures forall v :: v != user ==> FlagIn(r, v) == FlagIn(rows, v)
  {
    if rows == [] then [Owner(user, counted)]
    else if rows[0].user == user then
      var r := [Owner(user, rows[0].counted || counted)] + rows[1..];
      assert r[1..] == rows[1..];
      r
    else
      var rest := RaiseRow(rows[1..], user, counted);
      var r := [rows[0]] + rest;
      assert r[1..] == rest;
      assert FlagIn(rows[1..], rows[0].user).None?;
      assert FlagIn(rest, rows[0].user).None?;
      r
  }

  function Raise(table: Ownerships, user: UserId, game: GameId, counted: bool): Ownerships {
    table[game := RaiseRow(RowsOf(table, game), user, counted)]
  }

  lemma RaiseFlag(table: Ownerships, user: UserId, game: GameId, counted: bool, v: UserId, h: GameId)
    ensures Flag(Raise(table, user, game, counted), v, h) ==
      if v == user && h == game then Some(counted || Flag(table, user, game) == Some(true)) else Flag(table, v, h)
  {}

  /** Owners whose purchase has not reached their taste vector, in insertion order. */
  function Uncounted(rows: Owners): (r: seq<UserId>)
    ensures forall u :: u in r <==> FlagIn(rows, u) == Some(false)
    ensures Distinct(r)
  {
    if rows == [] then [] else
    var rest := Uncounted(rows[1..]);
    assert FlagIn(rows[1..], rows[0].user).None? by {
      assert forall i :: 0 <= i < |rows[1..]| ==> rows[1..][i] == rows[i + 1];
    }
    if rows[0].counted then rest else [rows[0].user] + rest
  }

  /** A write waiting for the commit. */
  datatype StagedRow = StagedRow(user: UserId, game: GameId, counted: bool)

  function ApplyRows(table: Ownerships, rows: seq<StagedRow>): Ownerships {
    if rows == [] then table else
    var last := rows[|rows| - 1];
    Raise(ApplyRows(table, rows[..|rows| - 1]), last.user, last.game, last.counted)
  }

  predicate Raised(rows: seq<StagedRow>, user: UserId, game: GameId) {
    StagedRow(user, game, true) in rows
  }

  predicate Written(rows: seq<StagedRow>, user: UserId, game: GameId) {
    StagedRow(user, game, true) in rows || StagedRow(user, game, false) in rows
  }

  lemma SnocMembers(rows: seq<StagedRow>, r: StagedRow)
    requires rows != []
    ensures r in rows <==> r in rows[..|rows| - 1] || r == rows[|rows| - 1]
  {
    assert rows == rows[..|rows| - 1] + [rows[|rows| - 1]];
  }

  /** A commit ORs every staged flag into the table, in whatever order the rows were staged. */
  lemma {:induction false} RowsAreMerged(table: Ownerships, rows: seq<StagedRow>, user: UserId, game: GameId)
    ensures Flag(ApplyRows(table, rows), user, game) ==
      if Raised(rows, user, game) then Some(true)
      else if Written(rows, user, game) then Some(Flag(table, user, game) == Some(true))
      else Flag(table, user, game)
  {
    if rows != [] {
      var front, last := rows[..|rows| - 1], rows[|rows| - 1];
      RowsAreMerged(table, front, user, game);
      RaiseFlag(ApplyRows(table, front), last.user, last.game, last.counted, user, game);
      SnocMembers(rows, StagedRow(user, game, true));
      SnocMembers(rows, StagedRow(user, game, false));
    }
  }

  /** Staging order never matters to the committed flags. */
  lemma StagingOrderIrrelevant(table: Ownerships, xs: seq<StagedRow>, ys: seq<StagedRow>, user: UserId, game: GameId)
    requires forall r :: r in xs <==> r in ys
    ensures Flag(ApplyRows(table, xs), user, game) == Flag(ApplyRows(table, ys), user, game)
  {
    RowsAreMerged(table, xs, user, game);
    RowsAreMerged(table, ys, user, game);
  }

  // ---------------------------------------------------------------- the state

  predicate KeyedById(games: map<GameId, Game>) {
    forall g :: g in games ==> games[g].id == g
  }

  predicate KeyedByUser(preferences: map<UserId, UserPreference>) {
    forall u :: u in preferences ==> preferences[u].user == u
  }

  /** Writes file every aggregate under its own id. */
  type Games = games: map<GameId, Game> | KeyedById(games)
  type Preferences = preferences: map<UserId, UserPreference> | KeyedByUser(preferences)

  datatype StoreState = StoreState(
    games: Games,
    preferences: Preferences,
    ownerships: Ownerships,
    recommendations: map<UserId, seq<Recommendation>>,
    outbox: seq<RecommendationGenerated>,
    processed: set<EventId>)

  const EMPTY_STORE := StoreState(map[], map[], map[], map[], [], {})

  function Lookup<K, V>(m: map<K, V>, k: K): Option<V> {
    if k in m then Some(m[k]) else None
  }

  /** `preferences.get(user) or UserPreference.blank(user)` */
  function PreferenceOf(preferences: Preferences, user: UserId): (p: UserPreference)
    ensures p.user == user
  {
    if user in preferences then preferences[user] else Blank(user)
  }

  /** A profile filed under its own user. */
  function Filed(preferences: Preferences, p: UserPreference): Preferences {
    preferences[p.user := p]
  }

  function StoredFor(s: StoreState, user: UserId): seq<Recommendation> {
    if user in s.recommendations then s.recommendations[user] else []
  }

  // ---------------------------------------------------------------- catalogue scans

  function GamesAt(games: Games, ids: seq<GameId>): (r: seq<Game>)
    requires forall id :: id in ids ==> id in games
    ensures forall g :: g in r <==> g.id in ids && games[g.id] == g
  {
    if ids == [] then [] else
    assert ids == [ids[0]] + ids[1..];
    var first := ids[0];
    assert first in ids && first in games;
    var game := games[first];
    assert game.id == first;
    [game] + GamesAt(games, ids[1..])
  }

  /** The catalogue as a list. */
  function Catalogue(games: Games): (r: seq<Game>)
    ensures forall g :: g in r <==> g.id in games && games[g.id] == g
  {
    GamesAt(games, Listing(games.Keys))
  }

  lemma {:induction false} GamesAtDistinct(games: Games, ids: seq<GameId>)
    requires Distinct(ids) && forall id :: id in ids ==> id in games
    ensures Distinct(GamesAt(games, ids))
  {
    if ids != [] { GamesAtDistinct(games, ids[1..]); }
  }

  lemma CatalogueDistinct(games: Games)
    ensures Distinct(Catalogue(games)) && Distinct(PublishedGames(games))
  {
    GamesAtDistinct(games, Listing(games.Keys));
    FilterDistinct(Catalogue(games), (g: Game) => g.isPublished);
  }

  function PublishedGames(games: Games): (r: seq<Game>)
    ensures forall g :: g in r <==> g.id in games && games[g.id] == g && g.isPublished
  {
    Filter(Catalogue(games), (g: Game) => g.isPublished)
  }

  /** `recommendable(limit)`: the most popular published games. */
  function Recommendable(games: Games, limit: nat): seq<Game> {
    Top(PublishedGames(games), PopularityKey, limit)
  }

  /** Games of one catalogue never tie. */
  lemma PopularityInjective(games: Games, xs: seq<Game>)
    requires forall g :: g in xs ==> g in Catalogue(games)
    ensures Injective(xs, PopularityKey)
  {}

  /** `by_ids`: the known games among the asked, in the order asked. */
  function ByIds(games: Games, ids: seq<GameId>): (r: seq<Game>)
    ensures forall g :: g in r ==> g.id in games && games[g.id] == g
  {
    if ids == [] then [] else
    var rest := ByIds(games, ids[1..]);
    if ids[0] in games then
      var game := games[ids[0]];
      assert game.id == ids[0];
      [game] + rest
    else rest
  }

  // ---------------------------------------------------------------- what the reads return, spelled out

  /** A new owner's row goes to the end of the table; a known owner's keeps its place. */
  lemma {:induction false} RaisedInPlace(rows: Owners, user: UserId, counted: bool)
    ensures FlagIn(rows, user).None? ==> RaiseRow(rows, user, counted) == rows + [Owner(user, counted)]
    ensures FlagIn(rows, user).Some? ==>
      var r := RaiseRow(rows, user, counted);
      |r| == |rows| && forall i :: 0 <= i < |rows| ==>
        r[i] == if rows[i].user == user then Owner(user, rows[i].counted || counted) else rows[i]
  {
    if rows != [] {
      assert rows == [rows[0]] + rows[1..];
      RaisedInPlace(rows[1..], user, counted);
    }
  }

  /** Of two uncounted owners the one whose row is older is listed first. */
  lemma {:induction false} UncountedInOrder(rows: Owners, a: nat, b: nat) returns (i: nat, j: nat)
    requires a < b < |rows| && !rows[a].counted && !rows[b].counted
    ensures i < j < |Uncounted(rows)| && Uncounted(rows)[i] == rows[a].user && Uncounted(rows)[j] == rows[b].user
  {
    var shift := if rows[0].counted then 0 else 1;
    if a == 0 {
      i := 0;
      j := UncountedAt(rows[1..], b - 1);
    } else {
      i, j := UncountedInOrder(rows[1..], a - 1, b - 1);
      i := i + shift;
    }
    j := j + shift;
  }

  lemma {:induction false} UncountedAt(rows: Owners, b: nat) returns (j: nat)
    requires b < |rows| && !rows[b].counted
    ensures j < |Uncounted(rows)| && Uncounted(rows)[j] == rows[b].user
  {
    if b == 0 { return 0; }
    j := UncountedAt(rows[1..], b - 1);
    j := if rows[0].counted then j else j + 1;
  }

  /** The known games come in the order asked, one entry each time they are asked for. */
  lemma {:induction false} ByIdsInOrder(games: Games, ids: seq<GameId>)
    ensures var known := Filter(ids, (id: GameId) => id in games);
      |ByIds(games, ids)| == |known| && forall i :: 0 <= i < |known| ==> ByIds(games, ids)[i].id == known[i]
  {
    if ids != [] { ByIdsInOrder(games, ids[1..]); }
  }

  /** The published games bought more often, smaller ids first among equals. */
  ghost function BoughtMore(games: Games, g: Game): set<Game> {
    set id | id in games && games[id].isPublished
          && (games[id].purchaseCount > g.purchaseCount || (games[id].purchaseCount == g.purchaseCount && id < g.id))
        :: games[id]
  }

  /** The scan holds exactly the published games with fewer than `limit` others bought more. */
  lemma RecommendableExactly(games: Games, limit: nat, g: Game)
    ensures g in Recommendable(games, limit) <==>
      g.id in games && games[g.id] == g && g.isPublished && |BoughtMore(games, g)| < limit
  {
    CatalogueDistinct(games);
    PopularityInjective(games, PublishedGames(games));
    TopExactly(PublishedGames(games), PopularityKey, limit, g);
    BoughtMoreIsAhead(games, g);
  }

  lemma BoughtMoreIsAhead(games: Games, g: Game)
    ensures Ahead(PublishedGames(games), PopularityKey, g) == BoughtMore(games, g)
  {
    forall y ensures y in Ahead(PublishedGames(games), PopularityKey, g) <==> y in BoughtMore(games, g) {
      InBoughtMore(games, g, y);
    }
  }

  lemma InBoughtMore(games: Games, g: Game, y: Game)
    ensures y in BoughtMore(games, g) <==>
      && y.id in games && games[y.id] == y && y.isPublished
      && (y.purchaseCount > g.purchaseCount || (y.purchaseCount == g.purchaseCount && y.id < g.id))
  {
    if y in BoughtMore(games, g) {
      var id :| id in games && games[id] == y;
      assert games[id].id == id;
    }
  }

  // ---------------------------------------------------------------- the classes

  class MemoryStore {
    var games: Games
    var preferences: Preferences
    var ownerships: Ownerships
    var recommendations: map<UserId, seq<Recommendation>>
    var outbox: seq<RecommendationGenerated>
    var processed: set<EventId>

    function View(): StoreState
      reads this
    {
      StoreState(games, preferences, ownerships, recommendations, outbox, processed)
    }

    constructor ()
      ensures View() == EMPTY_STORE
    {
      games, preferences, ownerships, recommendations, outbox, processed := map[], map[], map[], map[], [], {};
    }
  }

  /** Every write is staged and reaches the store only on commit. */
  class UnitOfWork {
    const store: MemoryStore
    var games: Games
    var preferences: Preferences
    var ownerships: seq<StagedRow>
    var recommendations: map<UserId, seq<Recommendation>>
    var events: seq<RecommendationGenerated>
    var processed: set<EventId>
    var committed: bool

    /** The store as it would be had every staged write gone straight to it. */
    function Merged(): StoreState
      reads this, store
    {
      StoreState(
        store.games + games,
        store.preferences + preferences,
        ApplyRows(store.ownerships, ownerships),
        store.recommendations + recommendations,
        store.outbox + events,
        store.processed + processed)
    }

    constructor (store: MemoryStore)
      ensures this.store == store && !committed && ownerships == []
      ensures Merged() == store.View()
    {
      this.store := store;
      games, preferences, ownerships, recommendations, events, processed := map[], map[], [], map[], [], {};
      committed := false;
      new;
      assert store.games + games == store.games && store.preferences + preferences == store.preferences;
      assert store.recommendations + recommendations == store.recommendations;
      assert store.outbox + events == store.outbox && store.processed + processed == store.processed;
    }

    method GetGame(id: GameId) returns (r: Option<Game>)
      ensures r == Lookup(Merged().games, id)
    {
      r := if id in games then Some(games[id]) else Lookup(store.games, id);
    }

    method UpsertGame(game: Game)
      modifies this`games
      ensures Merged() == old(Merged()).(games := old(Merged().games)[game.id := game])
    {
      games := games[game.id := game];
      assert store.games + games == old(store.games + games)[game.id := game];
    }

    method GetRecommendable(limit: nat) returns (r: seq<Game>)
      ensures r == Recommendable(Merged().games, limit)
    {
      var merged: Games := store.games + games;
      r := Top(PublishedGames(merged), PopularityKey, limit);
    }

    method GetByIds(ids: seq<GameId>) returns (r: seq<Game>)
      ensures r == ByIds(Merged().games, ids)
    {
      r := [];
      var merged: Games := store.games + games;
      assert ids[|ids|..] == [];
      for i := |ids| downto 0
        invariant r == ByIds(merged, ids[i..])
      {
        assert ids[i..][1..] == ids[i + 1..];
        if ids[i] in merged { r := [merged[ids[i]]] + r; }
      }
      assert ids[0..] == ids;
    }

    method GetPreference(user: UserId) returns (r: Option<UserPreference>)
      ensures r == Lookup(Merged().preferences, user)
    {
      r := if user in preferences then Some(preferences[user]) else Lookup(store.preferences, user);
    }

    method UpsertPreference(preference: UserPreference)
      modifies this`preferences
      ensures Merged() == old(Merged()).(preferences := old(Merged().preferences)[preference.user := preference])
    {
      preferences := preferences[preference.user := preference];
      assert store.preferences + preferences == old(store.preferences + preferences)[preference.user := preference];
    }

    method RecordOwnership(user: UserId, game: GameId, counted: bool)
      modifies this`ownerships
      ensures ownerships == old(ownerships) + [StagedRow(user, game, counted)]
      ensures Merged() == old(Merged()).(ownerships := Raise(old(Merged().ownerships), user, game, counted))
    {
      ownerships := ownerships + [StagedRow(user, game, counted)];
      assert ownerships[..|ownerships| - 1] == old(ownerships);
    }

    /** Rows already in the store first, then the rows of this transaction. */
    method UncountedOwners(game: GameId, limit: nat) returns (r: seq<UserId>)
      ensures r == Take(PendingRead(store.ownerships, ownerships, game), limit)
      ensures ownerships == [] ==> r == Take(Uncounted(RowsOf(Merged().ownerships, game)), limit)
    {
      var pending := Uncounted(RowsOf(store.ownerships, game));
      var staged := StagedUncounted(ownerships, game, pending);
      assert ownerships == [] ==> pending + staged == pending;
      r := Take(pending + staged, limit);
    }

    /** The rows the co-purchase query sees: those of the store. */
    method GetOwnerships() returns (table: Ownerships)
      ensures table == store.ownerships
      ensures ownerships == [] ==> table == Merged().ownerships
    {
      table := store.ownerships;
    }

    method MarkCounted(game: GameId, users: seq<UserId>)
      modifies this`ownerships
      ensures Merged() == old(Merged()).(ownerships := CountAll(old(Merged().ownerships), game, users))
    {
      assert users[..0] == [];
      for i := 0 to |users|
        invariant Merged() == old(Merged()).(ownerships := CountAll(old(Merged().ownerships), game, users[..i]))
      {
        assert users[..i + 1][..i] == users[..i];
        RecordOwnership(users[i], game, true);
      }
      assert users[..|users|] == users;
    }

    method ReplaceFor(user: UserId, list: seq<Recommendation>)
      modifies this`recommendations
      ensures Merged() == old(Merged()).(recommendations := old(Merged().recommendations)[user := list])
    {
      recommendations := recommendations[user := list];
      assert store.recommendations + recommendations == old(store.recommendations + recommendations)[user := list];
    }

    method ForUser(user: UserId) returns (r: seq<Recommendation>)
      ensures r == StoredFor(Merged(), user)
    {
      r := if user in recommendations then recommendations[user]
           else if user in store.recommendations then store.recommendations[user] else [];
    }

    method Enqueue(event: RecommendationGenerated)
      modifies this`events
      ensures Merged() == old(Merged()).(outbox := old(Merged().outbox) + [event])
    {
      events := events + [event];
      assert store.outbox + events == old(store.outbox + events) + [event];
    }

    method Seen(event: EventId) returns (r: bool)
      ensures r <==> event in Merged().processed
    {
      r := event in store.processed || event in processed;
    }

    method Mark(event: EventId)
      modifies this`processed
      ensures Merged() == old(Merged()).(processed := old(Merged().processed) + {event})
    {
      processed := processed + {event};
      assert store.processed + processed == old(store.processed + processed) + {event};
    }

    method CommitOwnerships()
      modifies store`ownerships
      ensures store.ownerships == ApplyRows(old(store.ownerships), ownerships)
    {
      assert ownerships[..0] == [];
      for i := 0 to |ownerships|
        invariant store.ownerships == ApplyRows(old(store.ownerships), ownerships[..i])
      {
        assert ownerships[..i + 1][..i] == ownerships[..i];
        var row := ownerships[i];
        store.ownerships := Raise(store.ownerships, row.user, row.game, row.counted);
      }
      assert ownerships[..|ownerships|] == ownerships;
    }

    /** Committing applies the writes directly. */
    method Commit()
      modifies this`committed, store
      ensures store.View() == old(Merged()) && committed
    {
      store.games := store.games + games;
      store.preferences := store.preferences + preferences;
      CommitOwnerships();
      store.recommendations := store.recommendations + recommendations;
      store.outbox := store.outbox + events;
      store.processed := store.processed + processed;
      committed := true;
    }

    method Rollback()
      modifies this`games, this`preferences, this`ownerships, this`recommendations, this`events, this`processed
      ensures Merged() == store.View()
    {
      games, preferences, ownerships, recommendations, events, processed := map[], map[], [], map[], [], {};
      assert store.games + games == store.games && store.preferences + preferences == store.preferences;
      assert store.recommendations + recommendations == store.recommendations;
      assert store.outbox + events == store.outbox && store.processed + processed == store.processed;
    }

    /** `__aexit__`: leaving without a commit discards the staged writes; the store is untouched either way. */
    method Exit()
      modifies this
      ensures !old(committed) ==> Merged() == store.View()
      ensures old(committed) ==> Merged() == old(Merged())
    {
      if !committed { Rollback(); }
    }
  }

  function CountAll(table: Ownerships, game: GameId, users: seq<UserId>): Ownerships {
    if users == [] then table else
    Raise(CountAll(table, game, users[..|users| - 1]), users[|users| - 1], game, true)
  }

  /** Marking counts exactly the named owners. */
  lemma {:induction false} CountAllFlags(table: Ownerships, game: GameId, users: seq<UserId>, user: UserId,
                                         other: GameId)
    ensures Flag(CountAll(table, game, users), user, other) ==
      if other == game && user in users then Some(true) else Flag(table, user, other)
  {
    if users != [] {
      var front := users[..|users| - 1];
      CountAllFlags(table, game, front, user, other);
      RaiseFlag(CountAll(table, game, front), users[|users| - 1], game, true, user, other);
      LastMember(users, user);
    }
  }

  lemma LastMember(users: seq<UserId>, user: UserId)
    requires users != []
    ensures user in users <==> user in users[..|users| - 1] || user == users[|users| - 1]
  {
    assert users == users[..|users| - 1] + [users[|users| - 1]];
  }

  // ---------------------------------------------------------------- the read that misreads staged rows

  function StagedUncounted(rows: seq<StagedRow>, game: GameId, pending: seq<UserId>): (r: seq<UserId>)
    ensures forall u :: u in r <==> StagedRow(u, game, false) in rows && u !in pending
  {
    if rows == [] then [] else
    var rest := StagedUncounted(rows[1..], game, pending);
    var row := rows[0];
    assert rows == [row] + rows[1..];
    if row.game == game && !row.counted && row.user !in pending then [row.user] + rest else rest
  }

  function PendingRead(table: Ownerships, rows: seq<StagedRow>, game: GameId): seq<UserId> {
    var pending := Uncounted(RowsOf(table, game));
    pending + StagedUncounted(rows, game, pending)
  }

  predicate Asked(row: StagedRow, game: GameId, pending: seq<UserId>) {
    row.game == game && !row.counted && row.user !in pending
  }

  /** Nobody the store does not list is staged twice. */
  ghost predicate StagedOnce(rows: seq<StagedRow>, game: GameId, pending: seq<UserId>) {
    forall i, j :: 0 <= i < j < |rows| && Asked(rows[i], game, pending) && Asked(rows[j], game, pending) ==>
      rows[i].user != rows[j].user
  }

  lemma {:induction false} StagedDistinctIff(rows: seq<StagedRow>, game: GameId, pending: seq<UserId>)
    ensures Distinct(StagedUncounted(rows, game, pending)) <==> StagedOnce(rows, game, pending)
  {
    if rows != [] {
      var rest := StagedUncounted(rows[1..], game, pending);
      StagedDistinctIff(rows[1..], game, pending);
      StagedOnceHead(rows, game, pending);
      if Asked(rows[0], game, pending) { DistinctHead(rows[0].user, rest); }
    }
  }

  lemma StagedOnceHead(rows: seq<StagedRow>, game: GameId, pending: seq<UserId>)
    requires rows != []
    ensures StagedOnce(rows, game, pending) <==>
      && StagedOnce(rows[1..], game, pending)
      && (Asked(rows[0], game, pending) ==> StagedRow(rows[0].user, game, false) !in rows[1..])
  {
    var tail := rows[1..];
    if StagedOnce(rows, game, pending) {
      forall i, j | 0 <= i < j < |tail| && Asked(tail[i], game, pending) && Asked(tail[j], game, pending)
        ensures tail[i].user != tail[j].user
      {
        assert tail[i] == rows[i + 1] && tail[j] == rows[j + 1];
      }
    }
    if i :| 0 <= i < |tail| && tail[i] == StagedRow(rows[0].user, game, false) {
      assert rows[i + 1] == tail[i];
    }
    forall i | 0 < i < |rows| ensures rows[i] == tail[i - 1] && rows[i] in tail {}
    forall i | 0 < i < |rows| && Asked(rows[i], game, pending)
      ensures rows[i] == StagedRow(rows[i].user, game, false) {}
  }

  lemma DistinctHead<T(!new)>(x: T, xs: seq<T>)
    ensures Distinct([x] + xs) <==> Distinct(xs) && x !in xs
  {
    var all := [x] + xs;
    if Distinct(all) {
      forall i, j | 0 <= i < j < |xs| ensures xs[i] != xs[j] {
        assert all[i + 1] == xs[i] && all[j + 1] == xs[j];
      }
      forall i | 0 <= i < |xs| ensures xs[i] != x { assert all[0] != all[i + 1]; }
    }
  }

  lemma DistinctAppend<T(!new)>(xs: seq<T>, ys: seq<T>)
    requires Distinct(xs) && forall y :: y in ys ==> y !in xs
    ensures Distinct(xs + ys) <==> Distinct(ys)
  {
    var all := xs + ys;
    if Distinct(all) {
      forall i, j | 0 <= i < j < |ys| ensures ys[i] != ys[j] {
        assert all[|xs| + i] == ys[i] && all[|xs| + j] == ys[j];
      }
    }
    if Distinct(ys) {
      forall i, j | 0 <= i < j < |all| ensures all[i] != all[j] {
        if i < |xs| <= j { assert all[j] == ys[j - |xs|] && ys[j - |xs|] in ys && xs[i] in xs; }
      }
    }
  }

  /** The list repeats nobody exactly when no transaction stages an uncounted row of the game twice for one user the
      store does not list already. */
  lemma PendingReadOnceIff(table: Ownerships, rows: seq<StagedRow>, game: GameId)
    ensures Distinct(PendingRead(table, rows, game)) <==> StagedOnce(rows, game, Uncounted(RowsOf(table, game)))
  {
    var pending := Uncounted(RowsOf(table, game));
    StagedDistinctIff(rows, game, pending);
    var staged := StagedUncounted(rows, game, pending);
    assert forall u :: u in staged ==> u !in pending;
    DistinctAppend(pending, staged);
  }

  /** `uncounted_owners` lists the owners a commit would leave uncounted exactly when nobody it lists is counted
      by a row of the same transaction, or by the store. */
  lemma PendingReadExact(table: Ownerships, rows: seq<StagedRow>, game: GameId)
    ensures (forall u :: u in PendingRead(table, rows, game) <==> Flag(ApplyRows(table, rows), u, game) == Some(false))
       <==> (forall u :: u in PendingRead(table, rows, game) ==>
               StagedRow(u, game, true) !in rows && Flag(table, u, game) != Some(true))
  {
    var read := PendingRead(table, rows, game);
    forall u
      ensures Flag(ApplyRows(table, rows), u, game) == Some(false) <==>
        u in read && StagedRow(u, game, true) !in rows && Flag(table, u, game) != Some(true)
    {
      RowsAreMerged(table, rows, u, game);
    }
  }
}
