/** Purchases and publications in any order, duplicated and retried, end in the same place. */
module Confluence {
  import opened Ordering
  import opened Vectors
  import opened Catalog
  import opened Preference
  import opened Store
  import opened Ingest
  import opened Ledger
  import opened Delivery

  /** The events a run has applied. */
  function Applied(attempts: seq<Attempt>): set<Event> {
    if attempts == [] then {} else
    var front, last := attempts[..|attempts| - 1], attempts[|attempts| - 1];
    Applied(front)
    + if TakesEffect(Run(EMPTY_STORE, front), last) && last.message.Valid? then {last.message.event} else {}
  }

  /** One publication per game, and each (user, game) bought at most once. */
  ghost predicate OncePerKey(events: set<Event>) {
    forall e, f :: e in events && f in events && SameKey(e, f) ==> e == f
  }

  predicate SameKey(e: Event, f: Event) {
    || (e.GamePublished? && f.GamePublished? && e.game == f.game)
    || (e.PurchaseCompleted? && f.PurchaseCompleted? && e.game == f.game && e.user == f.user)
  }

  /** No publication of the run finds more early owners than one backfill credits. */
  ghost predicate NoOverflow(attempts: seq<Attempt>) {
    forall i :: 0 <= i < |attempts| ==> Fits(Run(EMPTY_STORE, attempts[..i]), attempts[i])
  }

  predicate Fits(s: StoreState, a: Attempt) {
    TakesEffect(s, a) && a.message.Valid? && a.message.event.GamePublished? ==>
      |Uncounted(RowsOf(s.ownerships, a.message.event.game))| <= BACKFILL_LIMIT
  }

  // ---------------------------------------------------------------- what the applied events determine

  /** An entry without its cause: which of purchase and backfill credited it depends on the order. */
  function Uncaused(e: Entry): Entry {
    e.(cause := Bought)
  }

  predicate Expected(s: StoreState, user: UserId, e: Entry) {
    && e.user == user && e.kind == PURCHASE && e.cause == Bought
    && Flag(s.ownerships, user, e.game) == Some(true)
    && e.game in s.games && e.vector == s.games[e.game].embedding
  }

  /** Each counted ownership was credited once, with the game's vector, and nothing else was credited. */
  ghost predicate CreditedOnce(s: StoreState, log: seq<Entry>) {
    forall u :: CreditedTo(s, Map(EntriesOf(log, u), Uncaused), u)
  }

  ghost predicate CreditedTo(s: StoreState, mine: seq<Entry>, user: UserId) {
    Distinct(mine) && forall e :: e in mine <==> Expected(s, user, e)
  }

  ghost predicate NothingEmbedded(s: StoreState) {
    && (forall g :: g in s.games ==> s.games[g].dense == [])
    && (forall u :: PreferenceOf(s.preferences, u).tasteDense == [])
  }

  /** A game is known exactly once published, with the words of its publication. */
  ghost predicate GamesFrom(games: Games, events: set<Event>) {
    && (forall e :: e in events && e.GamePublished? ==> e.game in games && DescribedBy(games[e.game], e))
    && (forall g :: g in games ==> exists e :: e in events && e.GamePublished? && e.game == g)
  }

  predicate DescribedBy(game: Game, e: Event)
    requires e.GamePublished?
  {
    game.embedding == Of(e.description.features) && game.title == e.description.title && game.developer == e.developer
  }

  /** A row exists exactly for the purchases. */
  ghost predicate RowsFrom(table: Ownerships, events: set<Event>) {
    && (forall e :: e in events && e.PurchaseCompleted? ==> Flag(table, e.user, e.game).Some?)
    && (forall u, g :: Flag(table, u, g).Some? ==>
          exists e :: e in events && e.PurchaseCompleted? && e.user == u && e.game == g)
  }

  /** Every row of a known game is counted, and no row of an unknown one. */
  ghost predicate CountedIffKnown(table: Ownerships, games: Games) {
    forall u, g :: Flag(table, u, g).Some? ==> (Flag(table, u, g) == Some(true) <==> g in games)
  }

  /** The credits worth a purchase, and the others. */
  function Purchased(log: seq<Entry>): seq<Entry> {
    Filter(log, (e: Entry) => e.kind == PURCHASE)
  }

  function Opinions(log: seq<Entry>): seq<Entry> {
    Filter(log, (e: Entry) => e.kind != PURCHASE)
  }

  lemma KindSnoc(log: seq<Entry>, e: Entry)
    ensures Purchased(log + [e]) == Purchased(log) + if e.kind == PURCHASE then [e] else []
    ensures Opinions(log + [e]) == Opinions(log) + if e.kind != PURCHASE then [e] else []
  {
    FilterAppend(log, [e], (x: Entry) => x.kind == PURCHASE);
    FilterAppend(log, [e], (x: Entry) => x.kind != PURCHASE);
  }

  ghost predicate Determined(s: StoreState, log: seq<Entry>, events: set<Event>) {
    && CreditedOnce(s, Purchased(log))
    && NothingEmbedded(s)
    && GamesFrom(s.games, events)
    && RowsFrom(s.ownerships, events)
    && CountedIffKnown(s.ownerships, s.games)
  }

  // ---------------------------------------------------------------- one credit

  lemma CreditOneOwner(s: StoreState, log: seq<Entry>, user: UserId, game: Game, at: Time, cause: Cause)
    requires CreditedOnce(s, log) && Credit(s.preferences, user, game, PURCHASE, at).Some?
    requires game.id in s.games && game.embedding == s.games[game.id].embedding
    requires Flag(s.ownerships, user, game.id) != Some(true)
    ensures CreditedOnce(CreditedOwner(s, user, game, at), log + [EntryFor(user, game, PURCHASE, cause)])
  {
    var after, e := CreditedOwner(s, user, game, at), EntryFor(user, game, PURCHASE, cause);
    forall u ensures CreditedTo(after, Map(EntriesOf(log + [e], u), Uncaused), u) {
      var mine := Map(EntriesOf(log, u), Uncaused);
      assert CreditedTo(s, mine, u);
      UncausedSnoc(log, e, u);
      ExpectedAfter(s, user, game, at, u);
      if u == user {
        SnocDistinct(mine, Uncaused(e));
      }
    }
  }

  lemma UncausedSnoc(log: seq<Entry>, e: Entry, u: UserId)
    ensures Map(EntriesOf(log + [e], u), Uncaused)
         == Map(EntriesOf(log, u), Uncaused) + if e.user == u then [Uncaused(e)] else []
  {
    EntriesSnoc(log, e, u);
  }

  lemma ExpectedAfter(s: StoreState, user: UserId, game: Game, at: Time, u: UserId)
    requires Credit(s.preferences, user, game, PURCHASE, at).Some?
    requires game.id in s.games && game.embedding == s.games[game.id].embedding
    ensures forall e :: Expected(CreditedOwner(s, user, game, at), u, e) <==>
      Expected(s, u, e) || (u == user && e == Entry(user, game.id, PURCHASE, game.embedding, Bought))
  {
    forall e ensures Expected(CreditedOwner(s, user, game, at), u, e) <==>
      Expected(s, u, e) || (u == user && e == Entry(user, game.id, PURCHASE, game.embedding, Bought))
    {
      RaiseFlag(s.ownerships, user, game.id, true, u, e.game);
    }
  }

  lemma SnocDistinct(xs: seq<Entry>, x: Entry)
    requires Distinct(xs) && x !in xs
    ensures Distinct(xs + [x]) && forall y :: y in xs + [x] <==> y in xs || y == x
  {}

  lemma {:induction false} CreditOwners(s: StoreState, log: seq<Entry>, owners: seq<UserId>, game: Game, at: Time)
    requires CreditedOnce(s, log) && Distinct(owners) && Backfill(s.preferences, owners, game, at).Some?
    requires forall u :: u in owners ==> Flag(s.ownerships, u, game.id) == Some(false)
    requires game.id in s.games && game.embedding == s.games[game.id].embedding
    ensures CreditedOnce(CreditedOwners(s, owners, game, at), log + BackfillEntries(owners, game))
  {
    if owners == [] {
      assert log + [] == log;
    } else {
      var front, last := owners[..|owners| - 1], owners[|owners| - 1];
      StillUncounted(s, owners, game);
      BackfillSteps(s, owners, game, at);
      CreditOwners(s, log, front, game, at);
      CreditOneOwner(CreditedOwners(s, front, game, at), log + BackfillEntries(front, game), last, game, at,
        Backfilled);
      assert log + BackfillEntries(owners, game)
          == (log + BackfillEntries(front, game)) + [EntryFor(last, game, PURCHASE, Backfilled)];
    }
  }

  lemma {:induction false} BackfillStaysSparse(preferences: Preferences, owners: seq<UserId>, game: Game, at: Time)
    requires game.dense == [] && forall u :: PreferenceOf(preferences, u).tasteDense == []
    ensures Backfill(preferences, owners, game, at).Some?
    ensures forall u :: PreferenceOf(Backfill(preferences, owners, game, at).value, u).tasteDense == []
  {
    if owners != [] {
      BackfillStaysSparse(preferences, owners[..|owners| - 1], game, at);
      var before := Backfill(preferences, owners[..|owners| - 1], game, at).value;
      CreditStaysSparse(before, owners[|owners| - 1], game, PURCHASE, at);
    }
  }

  lemma CreditStaysSparse(preferences: Preferences, user: UserId, game: Game, kind: SignalKind, at: Time)
    requires game.dense == [] && forall u :: PreferenceOf(preferences, u).tasteDense == []
    ensures Credit(preferences, user, game, kind, at).Some?
    ensures forall u :: PreferenceOf(Credit(preferences, user, game, kind, at).value, u).tasteDense == []
  {
    var after := Credit(preferences, user, game, kind, at).value;
    forall u ensures PreferenceOf(after, u).tasteDense == [] {
      assert PreferenceOf(preferences, u).tasteDense == [];
    }
  }

  // ---------------------------------------------------------------- one event

  lemma PublicationDetermined(s: StoreState, log: seq<Entry>, events: set<Event>, e: Event, now: Time)
    requires Determined(s, log, events) && e.GamePublished? && Writes(s, e, now).Some?
    requires OncePerKey(events + {e}) && e !in events
    requires |Uncounted(RowsOf(s.ownerships, e.game))| <= BACKFILL_LIMIT
    ensures Determined(Writes(s, e, now).value, log + Issued(s, e, now), events + {e})
  {
    FreshPublication(s, events, e);
    var game := Described(s, e).value;
    var owners := EarlyOwners(s, e.game);
    var described := s.(games := s.games[e.game := game]);
    NewGameNotCredited(s, Purchased(log), game);
    CreditOwners(described, Purchased(log), owners, game, now);
    BackfillsPurchased(log, owners, game);
    BackfillStaysSparse(s.preferences, owners, game, now);
    PublicationRows(s.ownerships, s.games, events, e, game);
    GamesPublished(s.games, events, e, game);
  }

  lemma {:induction false} BackfillsArePurchases(owners: seq<UserId>, game: Game)
    ensures Purchased(BackfillEntries(owners, game)) == BackfillEntries(owners, game)
  {
    if owners != [] {
      var front, last := owners[..|owners| - 1], EntryFor(owners[|owners| - 1], game, PURCHASE, Backfilled);
      BackfillsArePurchases(front, game);
      FilterAppend(BackfillEntries(front, game), [last], (e: Entry) => e.kind == PURCHASE);
    }
  }

  lemma BackfillsPurchased(log: seq<Entry>, owners: seq<UserId>, game: Game)
    ensures Purchased(log + BackfillEntries(owners, game)) == Purchased(log) + BackfillEntries(owners, game)
  {
    FilterAppend(log, BackfillEntries(owners, game), (e: Entry) => e.kind == PURCHASE);
    BackfillsArePurchases(owners, game);
  }

  lemma GamesPublished(games: Games, events: set<Event>, e: Event, game: Game)
    requires GamesFrom(games, events) && e.GamePublished? && game.id == e.game && DescribedBy(game, e)
      && e.game !in games
    ensures GamesFrom(games[e.game := game], events + {e})
  {
    var after := games[e.game := game];
    forall f | f in events + {e} && f.GamePublished? ensures f.game in after && DescribedBy(after[f.game], f) {
      if f in events { assert f.game in games; }
    }
    forall g | g in after ensures exists f :: f in events + {e} && f.GamePublished? && f.game == g {
      if g == e.game {
        assert e in events + {e};
      } else {
        var f :| f in events && f.GamePublished? && f.game == g;
        assert f in events + {e};
      }
    }
  }

  lemma FreshPublication(s: StoreState, events: set<Event>, e: Event)
    requires GamesFrom(s.games, events) && e.GamePublished? && e !in events && OncePerKey(events + {e})
    ensures e.game !in s.games
  {
    if e.game in s.games {
      var f :| f in events && f.GamePublished? && f.game == e.game;
      assert f in events + {e} && e in events + {e} && SameKey(f, e);
    }
  }

  lemma NewGameNotCredited(s: StoreState, log: seq<Entry>, game: Game)
    requires CreditedOnce(s, log) && CountedIffKnown(s.ownerships, s.games) && game.id !in s.games
    ensures CreditedOnce(s.(games := s.games[game.id := game]), log)
  {
    var after := s.(games := s.games[game.id := game]);
    forall u ensures CreditedTo(after, Map(EntriesOf(log, u), Uncaused), u) {
      assert CreditedTo(s, Map(EntriesOf(log, u), Uncaused), u);
      forall e ensures Expected(after, u, e) <==> Expected(s, u, e) {
        assert Flag(s.ownerships, u, game.id) != Some(true);
      }
    }
  }

  lemma PublicationRows(table: Ownerships, games: Games, events: set<Event>, e: Event, game: Game)
    requires RowsFrom(table, events) && CountedIffKnown(table, games) && e.GamePublished? && game.id == e.game
      && e.game !in games
    requires |Uncounted(RowsOf(table, e.game))| <= BACKFILL_LIMIT
    ensures var owners := Take(Uncounted(RowsOf(table, e.game)), BACKFILL_LIMIT);
      && RowsFrom(CountAll(table, e.game, owners), events + {e})
      && CountedIffKnown(CountAll(table, e.game, owners), games[e.game := game])
  {
    var after := CountAll(table, e.game, Uncounted(RowsOf(table, e.game)));
    forall u, g
      ensures Flag(after, u, g) == if g == e.game && Flag(table, u, g).Some? then Some(true) else Flag(table, u, g)
    {
      AllRowsCounted(table, e.game, Uncounted(RowsOf(table, e.game)), u, g);
    }
    assert CountedIffKnown(after, games[e.game := game]);
    forall f | f in events + {e} && f.PurchaseCompleted? ensures Flag(after, f.user, f.game).Some? {
      assert f in events;
    }
    forall u, g | Flag(after, u, g).Some?
      ensures exists f :: f in events + {e} && f.PurchaseCompleted? && f.user == u && f.game == g
    {
      assert Flag(table, u, g).Some?;
      var f :| f in events && f.PurchaseCompleted? && f.user == u && f.game == g;
      assert f in events + {e};
    }
  }

  lemma TwoFlags(flag: Option<bool>)
    ensures flag.None? || flag == Some(true) || flag == Some(false)
  {
    if flag.Some? { assert flag.value == true || flag.value == false; }
  }

  lemma AllRowsCounted(table: Ownerships, game: GameId, owners: seq<UserId>, u: UserId, g: GameId)
    requires owners == Uncounted(RowsOf(table, game))
    ensures Flag(CountAll(table, game, owners), u, g)
         == if g == game && Flag(table, u, g).Some? then Some(true) else Flag(table, u, g)
  {
    CountAllFlags(table, game, owners, u, g);
    TwoFlags(Flag(table, u, g));
  }

  /** Events that publish nothing and buy nothing leave games and rows accounted for. */
  lemma SameGamesFrom(games: Games, after: Games, events: set<Event>, e: Event)
    requires GamesFrom(games, events) && !e.GamePublished? && games.Keys == after.Keys
    requires forall g :: g in games ==>
      after[g].embedding == games[g].embedding && after[g].title == games[g].title
        && after[g].developer == games[g].developer
    ensures GamesFrom(after, events + {e})
  {
    forall g ensures g in games <==> g in after { assert g in games.Keys <==> g in after.Keys; }
    forall f | f in events + {e} && f.GamePublished? ensures f.game in after && DescribedBy(after[f.game], f) {
      assert f in events;
    }
    forall g | g in after ensures exists f :: f in events + {e} && f.GamePublished? && f.game == g {
      var f :| f in events && f.GamePublished? && f.game == g;
      assert f in events + {e};
    }
  }

  lemma SameRowsFrom(table: Ownerships, events: set<Event>, e: Event)
    requires RowsFrom(table, events) && !e.PurchaseCompleted?
    ensures RowsFrom(table, events + {e})
  {
    forall f | f in events + {e} && f.PurchaseCompleted? ensures Flag(table, f.user, f.game).Some? {
      assert f in events;
    }
    forall u, g | Flag(table, u, g).Some?
      ensures exists f :: f in events + {e} && f.PurchaseCompleted? && f.user == u && f.game == g
    {
      var f :| f in events && f.PurchaseCompleted? && f.user == u && f.game == g;
      assert f in events + {e};
    }
  }

  lemma PurchaseDetermined(s: StoreState, log: seq<Entry>, events: set<Event>, e: Event, now: Time)
    requires Determined(s, log, events) && e.PurchaseCompleted? && Writes(s, e, now).Some?
    requires OncePerKey(events + {e}) && e !in events
    ensures Determined(Writes(s, e, now).value, log + Issued(s, e, now), events + {e})
  {
    FreshPurchase(s, events, e);
    PurchaseRows(s.ownerships, s.games, events, e);
    if e.game in s.games {
      KnownPurchase(s, log, events, e, MomentOf(e.occurredAt, now));
    } else {
      UnknownPurchase(s, log, events, e);
    }
  }

  lemma KnownPurchase(s: StoreState, log: seq<Entry>, events: set<Event>, e: Event, at: Time)
    requires Determined(s, log, events) && e.PurchaseCompleted? && e.game in s.games
    requires PurchaseWrites(s, e.user, e.game, at).Some? && Flag(s.ownerships, e.user, e.game).None?
    requires RowsFrom(Raise(s.ownerships, e.user, e.game, true), events + {e})
    requires CountedIffKnown(Raise(s.ownerships, e.user, e.game, true), s.games)
    ensures Determined(PurchaseWrites(s, e.user, e.game, at).value,
                       log + [EntryFor(e.user, s.games[e.game], PURCHASE, Bought)], events + {e})
  {
    var game := s.games[e.game];
    KnownPurchaseCredited(s, log, e.user, game, at);
    KnownPurchaseSparse(s, e.user, game, at);
    KnownPurchaseRows(s, events, e, game);
    PurchaseWritten(s, e.user, e.game, at);
  }

  lemma KnownPurchaseRows(s: StoreState, events: set<Event>, e: Event, game: Game)
    requires GamesFrom(s.games, events) && e.PurchaseCompleted? && e.game in s.games && s.games[e.game] == game
    requires CountedIffKnown(Raise(s.ownerships, e.user, e.game, true), s.games)
    ensures GamesFrom(s.games[e.game := game.Bought()], events + {e})
    ensures CountedIffKnown(Raise(s.ownerships, e.user, e.game, true), s.games[e.game := game.Bought()])
  {
    KeysKept(s.games, e.game, game.Bought());
    SameGamesFrom(s.games, s.games[e.game := game.Bought()], events, e);
    CountedElsewhere(Raise(s.ownerships, e.user, e.game, true), s.games, s.games[e.game := game.Bought()]);
  }

  lemma KnownPurchaseSparse(s: StoreState, user: UserId, game: Game, at: Time)
    requires NothingEmbedded(s) && PurchaseWrites(s, user, game.id, at).Some?
    requires game.id in s.games && s.games[game.id] == game
    ensures NothingEmbedded(PurchaseWrites(s, user, game.id, at).value)
  {
    CreditStaysSparse(s.preferences, user, game, PURCHASE, at);
  }

  lemma KnownPurchaseCredited(s: StoreState, log: seq<Entry>, user: UserId, game: Game, at: Time)
    requires CreditedOnce(s, Purchased(log)) && PurchaseWrites(s, user, game.id, at).Some?
    requires game.id in s.games && s.games[game.id] == game && Flag(s.ownerships, user, game.id).None?
    ensures CreditedOnce(PurchaseWrites(s, user, game.id, at).value,
      Purchased(log + [EntryFor(user, game, PURCHASE, Bought)]))
  {
    var entry := EntryFor(user, game, PURCHASE, Bought);
    CreditOneOwner(s, Purchased(log), user, game, at, Bought);
    KindSnoc(log, entry);
    SoldStillCredited(CreditedOwner(s, user, game, at), Purchased(log + [entry]), game.id);
  }

  lemma KeysKept(games: Games, g: GameId, game: Game)
    requires g in games
    ensures games[g := game].Keys == games.Keys
  {
    forall h ensures h in games[g := game].Keys <==> h in games.Keys {}
  }

  lemma CountedElsewhere(table: Ownerships, games: Games, after: Games)
    requires CountedIffKnown(table, games) && games.Keys == after.Keys
    ensures CountedIffKnown(table, after)
  {
    forall g ensures g in games <==> g in after { assert g in games.Keys <==> g in after.Keys; }
  }

  lemma UnknownPurchase(s: StoreState, log: seq<Entry>, events: set<Event>, e: Event)
    requires Determined(s, log, events) && e.PurchaseCompleted? && Flag(s.ownerships, e.user, e.game).None?
    requires RowsFrom(Raise(s.ownerships, e.user, e.game, false), events + {e})
    requires CountedIffKnown(Raise(s.ownerships, e.user, e.game, false), s.games)
    ensures Determined(s.(ownerships := Raise(s.ownerships, e.user, e.game, false)), log + [], events + {e})
  {
    assert log + [] == log;
    UncountedRowNotCredited(s, Purchased(log), e.user, e.game);
    SameGamesFrom(s.games, s.games, events, e);
  }

  lemma ReviewDetermined(s: StoreState, log: seq<Entry>, events: set<Event>, e: Event, now: Time)
    requires Determined(s, log, events) && e.ReviewPosted? && Writes(s, e, now).Some?
    ensures Determined(Writes(s, e, now).value, log + Issued(s, e, now), events + {e})
  {
    SameGamesFrom(s.games, s.games, events, e);
    SameRowsFrom(s.ownerships, events, e);
    if e.game in s.games {
      KnownReview(s, log, events, e, now);
    } else {
      assert log + [] == log;
    }
  }

  lemma KnownReview(s: StoreState, log: seq<Entry>, events: set<Event>, e: Event, now: Time)
    requires Determined(s, log, events) && e.ReviewPosted? && Writes(s, e, now).Some? && e.game in s.games
    requires GamesFrom(s.games, events + {e}) && RowsFrom(s.ownerships, events + {e})
    ensures Determined(Writes(s, e, now).value, log + Issued(s, e, now), events + {e})
  {
    var kind, at := if e.liked then REVIEW_LIKE else REVIEW_DISLIKE, MomentOf(e.occurredAt, now);
    var after := s.(preferences := Credit(s.preferences, e.user, s.games[e.game], kind, at).value);
    KindSnoc(log, EntryFor(e.user, s.games[e.game], kind, Reviewed));
    CreditStaysSparse(s.preferences, e.user, s.games[e.game], kind, at);
    CreditedWhatever(s, after, Purchased(log));
    assert Purchased(log) + [] == Purchased(log);
    assert Writes(s, e, now).value == after;
  }

  /** Who was credited with what is a matter of games and rows alone. */
  lemma CreditedWhatever(s: StoreState, t: StoreState, log: seq<Entry>)
    requires CreditedOnce(s, log) && t.games == s.games && t.ownerships == s.ownerships
    ensures CreditedOnce(t, log)
  {
    forall u ensures CreditedTo(t, Map(EntriesOf(log, u), Uncaused), u) {
      assert CreditedTo(s, Map(EntriesOf(log, u), Uncaused), u);
      assert forall e :: Expected(t, u, e) <==> Expected(s, u, e);
    }
  }

  lemma FreshPurchase(s: StoreState, events: set<Event>, e: Event)
    requires RowsFrom(s.ownerships, events) && e.PurchaseCompleted? && e !in events && OncePerKey(events + {e})
    ensures Flag(s.ownerships, e.user, e.game).None?
  {
    if Flag(s.ownerships, e.user, e.game).Some? {
      var f :| f in events && f.PurchaseCompleted? && f.user == e.user && f.game == e.game;
      assert f in events + {e} && e in events + {e} && SameKey(f, e);
    }
  }

  lemma PurchaseRows(table: Ownerships, games: Games, events: set<Event>, e: Event)
    requires RowsFrom(table, events) && CountedIffKnown(table, games) && e.PurchaseCompleted?
    requires Flag(table, e.user, e.game).None?
    ensures RowsFrom(Raise(table, e.user, e.game, e.game in games), events + {e})
    ensures CountedIffKnown(Raise(table, e.user, e.game, e.game in games), games)
  {
    var after := Raise(table, e.user, e.game, e.game in games);
    forall u, g
      ensures Flag(after, u, g) == if u == e.user && g == e.game then Some(g in games) else Flag(table, u, g)
    {
      RaiseFlag(table, e.user, e.game, e.game in games, u, g);
    }
    forall u, g | Flag(after, u, g).Some?
      ensures exists f :: f in events + {e} && f.PurchaseCompleted? && f.user == u && f.game == g
    {
      if u == e.user && g == e.game {
        assert e in events + {e};
      } else {
        assert Flag(table, u, g).Some?;
        var f :| f in events && f.PurchaseCompleted? && f.user == u && f.game == g;
        assert f in events + {e};
      }
    }
  }

  lemma SoldStillCredited(s: StoreState, log: seq<Entry>, g: GameId)
    requires CreditedOnce(s, log) && g in s.games
    ensures CreditedOnce(s.(games := s.games[g := s.games[g].Bought()]), log)
    ensures CreditedOnce(s.(games := s.games[g := s.games[g].Withdrawn()]), log)
  {
    var sold := s.(games := s.games[g := s.games[g].Bought()]);
    var withdrawn := s.(games := s.games[g := s.games[g].Withdrawn()]);
    forall u
      ensures CreditedTo(sold, Map(EntriesOf(log, u), Uncaused), u)
      ensures CreditedTo(withdrawn, Map(EntriesOf(log, u), Uncaused), u)
    {
      assert CreditedTo(s, Map(EntriesOf(log, u), Uncaused), u);
      assert forall e :: Expected(sold, u, e) <==> Expected(s, u, e);
      assert forall e :: Expected(withdrawn, u, e) <==> Expected(s, u, e);
    }
  }

  lemma UncountedRowNotCredited(s: StoreState, log: seq<Entry>, user: UserId, game: GameId)
    requires CreditedOnce(s, log) && Flag(s.ownerships, user, game).None?
    ensures CreditedOnce(s.(ownerships := Raise(s.ownerships, user, game, false)), log)
  {
    var after := s.(ownerships := Raise(s.ownerships, user, game, false));
    forall u ensures CreditedTo(after, Map(EntriesOf(log, u), Uncaused), u) {
      assert CreditedTo(s, Map(EntriesOf(log, u), Uncaused), u);
      forall e ensures Expected(after, u, e) <==> Expected(s, u, e) {
        RaiseFlag(s.ownerships, user, game, false, u, e.game);
      }
    }
  }

  lemma WithdrawalDetermined(s: StoreState, log: seq<Entry>, events: set<Event>, e: Event, now: Time)
    requires Determined(s, log, events) && e.GameWithdrawn?
    ensures Determined(Writes(s, e, now).value, log + Issued(s, e, now), events + {e})
  {
    assert log + [] == log;
    SameRowsFrom(s.ownerships, events, e);
    if e.game in s.games {
      SoldStillCredited(s, Purchased(log), e.game);
      KeysKept(s.games, e.game, s.games[e.game].Withdrawn());
      CountedElsewhere(s.ownerships, s.games, s.games[e.game := s.games[e.game].Withdrawn()]);
    }
    SameGamesFrom(s.games, Writes(s, e, now).value.games, events, e);
  }

  // ---------------------------------------------------------------- whole runs

  lemma StepDetermined(s: StoreState, log: seq<Entry>, events: set<Event>, a: Attempt)
    requires Determined(s, log, events) && TakesEffect(s, a) && a.message.Valid? && a.message.event !in events
    requires OncePerKey(events + {a.message.event}) && Fits(s, a)
    ensures Determined(Step(s, a), log + Recorded(s, a), events + {a.message.event})
  {
    var e := a.message.event;
    var after := Writes(s, e, a.now).value;
    assert Determined(after, log + Issued(s, e, a.now), events + {e}) by {
      if e.GamePublished? { PublicationDetermined(s, log, events, e, a.now); }
      if e.PurchaseCompleted? { PurchaseDetermined(s, log, events, e, a.now); }
      if e.GameWithdrawn? { WithdrawalDetermined(s, log, events, e, a.now); }
      if e.ReviewPosted? { ReviewDetermined(s, log, events, e, a.now); }
      assert e in events + {e};
    }
    MarkDetermined(after, log + Issued(s, e, a.now), events + {e}, after.processed + {e.id});
  }

  lemma MarkDetermined(s: StoreState, log: seq<Entry>, events: set<Event>, processed: set<EventId>)
    requires Determined(s, log, events)
    ensures Determined(s.(processed := processed), log, events)
  {
    CreditedWhatever(s, s.(processed := processed), Purchased(log));
  }

  lemma {:induction false} AppliedAreProcessed(attempts: seq<Attempt>)
    ensures forall e :: e in Applied(attempts) ==> e.id in Run(EMPTY_STORE, attempts).processed
  {
    if attempts != [] {
      var front := attempts[..|attempts| - 1];
      AppliedAreProcessed(front);
      StepMarks(Run(EMPTY_STORE, front), attempts[|attempts| - 1]);
    }
  }

  lemma EmptyDetermined()
    ensures Determined(EMPTY_STORE, [], {})
  {
    forall u ensures CreditedTo(EMPTY_STORE, Map(EntriesOf([], u), Uncaused), u) {
      assert Map(EntriesOf([], u), Uncaused) == [];
    }
  }

  lemma {:induction false} RunDetermined(attempts: seq<Attempt>)
    requires OncePerKey(Applied(attempts)) && NoOverflow(attempts)
    ensures Determined(Run(EMPTY_STORE, attempts), LogOf(EMPTY_STORE, attempts), Applied(attempts))
  {
    if attempts == [] {
      EmptyDetermined();
    } else {
      var front, last := attempts[..|attempts| - 1], attempts[|attempts| - 1];
      assert Applied(front) <= Applied(attempts);
      NoOverflowPrefix(attempts);
      RunDetermined(front);
      AppliedAreProcessed(front);
      var s, log := Run(EMPTY_STORE, front), LogOf(EMPTY_STORE, front);
      assert log + [] == log;
      if TakesEffect(s, last) {
        if last.message.Valid? {
          StepDetermined(s, log, Applied(front), last);
        } else {
          MarkDetermined(s, log, Applied(front), s.processed + {last.Id()});
        }
      }
    }
  }

  // ---------------------------------------------------------------- the theorem

  lemma RemoveAt<T(!new)>(xs: seq<T>, i: nat)
    requires i < |xs|
    ensures multiset(xs) == multiset(xs[..i] + xs[i + 1..]) + multiset{xs[i]}
  {
    assert xs == xs[..i] + [xs[i]] + xs[i + 1..];
  }

  lemma RemoveSame<T(!new)>(xs: seq<T>, ys: seq<T>, i: nat)
    requires multiset(xs) == multiset(ys) && xs != [] && i < |ys| && ys[i] == xs[0]
    ensures multiset(xs[..0] + xs[1..]) == multiset(ys[..i] + ys[i + 1..])
  {
    RemoveAt(xs, 0);
    RemoveAt(ys, i);
    assert multiset(xs[..0] + xs[1..]) == multiset(xs) - multiset{xs[0]};
    assert multiset(ys[..i] + ys[i + 1..]) == multiset(ys) - multiset{xs[0]};
  }

  lemma MapRemoveAt<S(!new), T(!new)>(xs: seq<S>, i: nat, f: S -> T)
    requires i < |xs|
    ensures multiset(Map(xs, f)) == multiset(Map(xs[..i] + xs[i + 1..], f)) + multiset{f(xs[i])}
  {
    RemoveAt(Map(xs, f), i);
    assert Map(xs, f)[..i] + Map(xs, f)[i + 1..] == Map(xs[..i] + xs[i + 1..], f);
  }

  lemma {:induction false} MapMultiset<S(!new), T(!new)>(xs: seq<S>, ys: seq<S>, f: S -> T)
    requires multiset(xs) == multiset(ys)
    ensures multiset(Map(xs, f)) == multiset(Map(ys, f))
    decreases |xs|
  {
    SameSize(xs, ys);
    if xs != [] {
      assert xs[0] in ys;
      var i :| 0 <= i < |ys| && ys[i] == xs[0];
      RemoveSame(xs, ys, i);
      MapMultiset(xs[..0] + xs[1..], ys[..i] + ys[i + 1..], f);
      MapRemoveAt(xs, 0, f);
      MapRemoveAt(ys, i, f);
    }
  }

  lemma SameElementsSameMultiset<T(!new)>(xs: seq<T>, ys: seq<T>)
    requires Distinct(xs) && Distinct(ys) && forall e :: e in xs <==> e in ys
    ensures multiset(xs) == multiset(ys)
  {
    forall e ensures multiset(xs)[e] == multiset(ys)[e] {
      DistinctCount(xs, e);
      DistinctCount(ys, e);
    }
  }

  lemma UncausedTerms(mine: seq<Entry>)
    ensures Map(Map(mine, Uncaused), TermOf) == Map(mine, TermOf)
  {}

  /** Two stores hold the same knowledge of who likes and owns what. */
  ghost predicate SameKnowledge(s: StoreState, t: StoreState) {
    SameCatalogue(s.games, t.games) && SameRows(s.ownerships, t.ownerships) && SameTastes(s.preferences, t.preferences)
  }

  ghost predicate SameCatalogue(games: Games, others: Games) {
    && games.Keys == others.Keys
    && forall g :: g in games ==>
         && games[g].embedding == others[g].embedding
         && games[g].title == others[g].title && games[g].developer == others[g].developer
  }

  ghost predicate SameRows(table: Ownerships, other: Ownerships) {
    forall u, g :: Flag(table, u, g) == Flag(other, u, g)
  }

  ghost predicate SameTastes(preferences: Preferences, others: Preferences) {
    forall u :: SameTaste(PreferenceOf(preferences, u), PreferenceOf(others, u))
  }

  predicate SameTaste(p: UserPreference, q: UserPreference) {
    p.taste == q.taste && p.tasteDense == q.tasteDense && p.owned == q.owned && p.signalCount == q.signalCount
  }

  lemma SameGames(s: StoreState, t: StoreState, events: set<Event>)
    requires GamesFrom(s.games, events) && GamesFrom(t.games, events)
    ensures SameCatalogue(s.games, t.games)
  {
    forall g ensures g in s.games.Keys <==> g in t.games.Keys {}
    forall g | g in s.games
      ensures s.games[g].embedding == t.games[g].embedding
      ensures s.games[g].title == t.games[g].title && s.games[g].developer == t.games[g].developer
    {
      var e :| e in events && e.GamePublished? && e.game == g;
      assert DescribedBy(s.games[g], e) && DescribedBy(t.games[g], e);
    }
  }

  lemma SameFlags(s: StoreState, t: StoreState, events: set<Event>)
    requires RowsFrom(s.ownerships, events) && RowsFrom(t.ownerships, events) && SameCatalogue(s.games, t.games)
    requires CountedIffKnown(s.ownerships, s.games) && CountedIffKnown(t.ownerships, t.games)
    ensures SameRows(s.ownerships, t.ownerships)
  {
    forall u, g ensures Flag(s.ownerships, u, g) == Flag(t.ownerships, u, g) {
      SameRow(s.ownerships, t.ownerships, events, u, g);
      SameRow(t.ownerships, s.ownerships, events, u, g);
      assert g in s.games <==> g in t.games by { assert g in s.games.Keys <==> g in t.games.Keys; }
      TwoFlags(Flag(s.ownerships, u, g));
      TwoFlags(Flag(t.ownerships, u, g));
    }
  }

  lemma SameRow(table: Ownerships, other: Ownerships, events: set<Event>, u: UserId, g: GameId)
    requires RowsFrom(table, events) && RowsFrom(other, events)
    ensures Flag(table, u, g).Some? ==> Flag(other, u, g).Some?
  {
    if Flag(table, u, g).Some? {
      var e :| e in events && e.PurchaseCompleted? && e.user == u && e.game == g;
    }
  }

  lemma SameExpected(s: StoreState, t: StoreState, u: UserId, e: Entry)
    requires SameRows(s.ownerships, t.ownerships) && SameCatalogue(s.games, t.games)
    ensures Expected(s, u, e) <==> Expected(t, u, e)
  {
    assert e.game in s.games.Keys <==> e.game in t.games.Keys;
  }

  lemma SameOwned(s: StoreState, t: StoreState, u: UserId)
    requires CountedIffOwned(s.preferences, s.ownerships) && CountedIffOwned(t.preferences, t.ownerships)
    requires SameRows(s.ownerships, t.ownerships)
    ensures PreferenceOf(s.preferences, u).owned == PreferenceOf(t.preferences, u).owned
  {
    forall g ensures g in PreferenceOf(s.preferences, u).owned <==> g in PreferenceOf(t.preferences, u).owned {
      assert Flag(s.ownerships, u, g) == Some(true) <==> g in PreferenceOf(s.preferences, u).owned;
      assert Flag(t.ownerships, u, g) == Some(true) <==> g in PreferenceOf(t.preferences, u).owned;
    }
  }

  lemma SamePurchases(s: StoreState, sLog: seq<Entry>, t: StoreState, tLog: seq<Entry>, u: UserId)
    requires CreditedOnce(s, sLog) && CreditedOnce(t, tLog)
    requires SameRows(s.ownerships, t.ownerships) && SameCatalogue(s.games, t.games)
    ensures multiset(Map(EntriesOf(sLog, u), Uncaused)) == multiset(Map(EntriesOf(tLog, u), Uncaused))
  {
    var xs, ys := Map(EntriesOf(sLog, u), Uncaused), Map(EntriesOf(tLog, u), Uncaused);
    assert CreditedTo(s, xs, u) && CreditedTo(t, ys, u);
    forall e ensures e in xs <==> e in ys { SameExpected(s, t, u, e); }
    SameElementsSameMultiset(xs, ys);
  }

  /** The credits of a user are the purchases among them and the opinions among them. */
  lemma {:induction false} CreditsSplit(log: seq<Entry>, u: UserId)
    ensures multiset(Map(EntriesOf(log, u), Uncaused))
         == multiset(Map(EntriesOf(Purchased(log), u), Uncaused)) + multiset(Map(EntriesOf(Opinions(log), u), Uncaused))
  {
    if log == [] {
      assert Map(EntriesOf(log, u), Uncaused) == [];
    } else {
      var front, last := log[..|log| - 1], log[|log| - 1];
      assert log == front + [last];
      CreditsSplit(front, u);
      UncausedSnoc(front, last, u);
      KindSnoc(front, last);
      assert Purchased(front) + [] == Purchased(front) && Opinions(front) + [] == Opinions(front);
      UncausedSnoc(Purchased(front), last, u);
      UncausedSnoc(Opinions(front), last, u);
    }
  }

  lemma SameFiltered(xs: seq<Entry>, ys: seq<Entry>, u: UserId)
    requires multiset(xs) == multiset(ys)
    ensures multiset(Map(EntriesOf(xs, u), Uncaused)) == multiset(Map(EntriesOf(ys, u), Uncaused))
  {
    forall e ensures multiset(EntriesOf(xs, u))[e] == multiset(EntriesOf(ys, u))[e] {
      FilterMultiset(xs, (x: Entry) => x.user == u, e);
      FilterMultiset(ys, (x: Entry) => x.user == u, e);
    }
    MapMultiset(EntriesOf(xs, u), EntriesOf(ys, u), Uncaused);
  }

  lemma SameCredits(s: StoreState, sLog: seq<Entry>, t: StoreState, tLog: seq<Entry>, u: UserId)
    requires CreditedOnce(s, Purchased(sLog)) && CreditedOnce(t, Purchased(tLog))
    requires multiset(Opinions(sLog)) == multiset(Opinions(tLog))
    requires SameRows(s.ownerships, t.ownerships) && SameCatalogue(s.games, t.games)
    ensures multiset(Map(EntriesOf(sLog, u), Uncaused)) == multiset(Map(EntriesOf(tLog, u), Uncaused))
  {
    SamePurchases(s, Purchased(sLog), t, Purchased(tLog), u);
    SameFiltered(Opinions(sLog), Opinions(tLog), u);
    CreditsSplit(sLog, u);
    CreditsSplit(tLog, u);
  }

  lemma SameFold(xs: seq<Entry>, ys: seq<Entry>)
    requires multiset(Map(xs, Uncaused)) == multiset(Map(ys, Uncaused))
    ensures Fold(Map(xs, TermOf)) == Fold(Map(ys, TermOf)) && |xs| == |ys|
  {
    MapMultiset(Map(xs, Uncaused), Map(ys, Uncaused), TermOf);
    UncausedTerms(xs);
    UncausedTerms(ys);
    FoldPermuted(Map(xs, TermOf), Map(ys, TermOf));
    SameSize(Map(xs, Uncaused), Map(ys, Uncaused));
  }

  lemma SameProfile(s: StoreState, sLog: seq<Entry>, t: StoreState, tLog: seq<Entry>, u: UserId)
    requires CreditedOnce(s, Purchased(sLog)) && CreditedOnce(t, Purchased(tLog))
    requires multiset(Opinions(sLog)) == multiset(Opinions(tLog)) && Ledgered(s, sLog) && Ledgered(t, tLog)
    requires NothingEmbedded(s) && NothingEmbedded(t)
    requires SameRows(s.ownerships, t.ownerships) && SameCatalogue(s.games, t.games)
    ensures SameTaste(PreferenceOf(s.preferences, u), PreferenceOf(t.preferences, u))
  {
    SameOwned(s, t, u);
    SameCredits(s, sLog, t, tLog, u);
    SameFold(EntriesOf(sLog, u), EntriesOf(tLog, u));
    ProfileIs(s.preferences, sLog, u);
    ProfileIs(t.preferences, tLog, u);
  }

  lemma ProfileIs(preferences: Preferences, log: seq<Entry>, u: UserId)
    requires ProfilesMatch(preferences, log)
    ensures PreferenceOf(preferences, u).taste == Fold(Map(EntriesOf(log, u), TermOf))
    ensures PreferenceOf(preferences, u).signalCount == |EntriesOf(log, u)|
  {
    assert UserMatches(preferences, log, u);
  }

  lemma SameProfiles(s: StoreState, sLog: seq<Entry>, t: StoreState, tLog: seq<Entry>)
    requires CreditedOnce(s, Purchased(sLog)) && CreditedOnce(t, Purchased(tLog))
    requires multiset(Opinions(sLog)) == multiset(Opinions(tLog)) && Ledgered(s, sLog) && Ledgered(t, tLog)
    requires NothingEmbedded(s) && NothingEmbedded(t)
    requires SameRows(s.ownerships, t.ownerships) && SameCatalogue(s.games, t.games)
    ensures SameTastes(s.preferences, t.preferences)
  {
    forall u ensures SameTaste(PreferenceOf(s.preferences, u), PreferenceOf(t.preferences, u)) {
      SameProfile(s, sLog, t, tLog, u);
    }
  }

  lemma DeterminedAgree(s: StoreState, sLog: seq<Entry>, t: StoreState, tLog: seq<Entry>, events: set<Event>)
    requires Determined(s, sLog, events) && Determined(t, tLog, events) && Ledgered(s, sLog) && Ledgered(t, tLog)
    requires multiset(Opinions(sLog)) == multiset(Opinions(tLog))
    ensures SameKnowledge(s, t)
  {
    SameGames(s, t, events);
    SameFlags(s, t, events);
    SameProfiles(s, sLog, t, tLog);
  }

  // ---------------------------------------------------------------- reviews

  predicate Opines(s: StoreState, a: Attempt) {
    TakesEffect(s, a) && a.message.Valid? && a.message.event.ReviewPosted?
  }

  /** No review takes effect before its game is known; one that does is dropped. */
  ghost predicate ReviewsCredited(attempts: seq<Attempt>) {
    forall i :: 0 <= i < |attempts| && Opines(Run(EMPTY_STORE, attempts[..i]), attempts[i]) ==>
      attempts[i].message.event.game in Run(EMPTY_STORE, attempts[..i]).games
  }

  /** The reviews a run has applied, in order. */
  function Reviews(attempts: seq<Attempt>): seq<Event> {
    if attempts == [] then [] else
    var front, last := attempts[..|attempts| - 1], attempts[|attempts| - 1];
    Reviews(front) + if Opines(Run(EMPTY_STORE, front), last) then [last.message.event] else []
  }

  /** The credit of a review, with the vector its game has in the catalogue. */
  function OpinionIn(games: Games): Event -> Entry {
    (e: Event) =>
      if e.ReviewPosted? && e.game in games
      then EntryFor(e.user, games[e.game], if e.liked then REVIEW_LIKE else REVIEW_DISLIKE, Reviewed)
      else Entry(0, 0, REVIEW_LIKE, EMPTY, Reviewed)
  }

  lemma {:induction false} ReviewsApplied(attempts: seq<Attempt>)
    ensures forall e :: e in Reviews(attempts) <==> e in Applied(attempts) && e.ReviewPosted?
    ensures Distinct(Reviews(attempts))
  {
    if attempts != [] {
      var front := attempts[..|attempts| - 1];
      ReviewsApplied(front);
      AppliedAreProcessed(front);
    }
  }

  /** With one publication a game, the words of a known game never change. */
  lemma WordsStay(s: StoreState, events: set<Event>, e: Event, now: Time, g: GameId)
    requires GamesFrom(s.games, events) && OncePerKey(events + {e}) && e !in events
    requires Writes(s, e, now).Some? && g in s.games
    ensures g in Writes(s, e, now).value.games
    ensures Writes(s, e, now).value.games[g].id == g
      && Writes(s, e, now).value.games[g].embedding == s.games[g].embedding
  {
    EventGames(s, e, now);
    if e.GamePublished? { FreshPublication(s, events, e); }
  }

  lemma SameOpinions(reviews: seq<Event>, games: Games, later: Games)
    requires forall e :: e in reviews ==>
      e.game in games && e.game in later && later[e.game].embedding == games[e.game].embedding
    ensures Map(reviews, OpinionIn(later)) == Map(reviews, OpinionIn(games))
  {
    forall i | 0 <= i < |reviews| ensures OpinionIn(later)(reviews[i]) == OpinionIn(games)(reviews[i]) {
      assert reviews[i] in reviews;
    }
  }

  lemma NoOverflowPrefix(attempts: seq<Attempt>)
    requires NoOverflow(attempts) && attempts != []
    ensures NoOverflow(attempts[..|attempts| - 1])
    ensures Fits(Run(EMPTY_STORE, attempts[..|attempts| - 1]), attempts[|attempts| - 1])
  {
    var front := attempts[..|attempts| - 1];
    forall i | 0 <= i < |front| ensures Fits(Run(EMPTY_STORE, front[..i]), front[i]) {
      assert front[..i] == attempts[..i];
    }
  }

  lemma ReviewsCreditedPrefix(attempts: seq<Attempt>)
    requires ReviewsCredited(attempts) && attempts != []
    ensures ReviewsCredited(attempts[..|attempts| - 1])
    ensures var s, last := Run(EMPTY_STORE, attempts[..|attempts| - 1]), attempts[|attempts| - 1];
      Opines(s, last) ==> last.message.event.game in s.games
  {
    var front := attempts[..|attempts| - 1];
    forall i | 0 <= i < |front| && Opines(Run(EMPTY_STORE, front[..i]), front[i])
      ensures front[i].message.event.game in Run(EMPTY_STORE, front[..i]).games
    {
      assert front[..i] == attempts[..i];
    }
  }

  /** The opinions credited by a run are those of its reviews, with the vectors of the final catalogue. */
  lemma {:induction false} OpinionsLogged(attempts: seq<Attempt>)
    requires OncePerKey(Applied(attempts)) && NoOverflow(attempts) && ReviewsCredited(attempts)
    ensures forall e :: e in Reviews(attempts) ==> e.game in Run(EMPTY_STORE, attempts).games
    ensures Opinions(LogOf(EMPTY_STORE, attempts))
      == Map(Reviews(attempts), OpinionIn(Run(EMPTY_STORE, attempts).games))
  {
    if attempts == [] {
      assert Map([], OpinionIn(EMPTY_STORE.games)) == [];
    } else {
      var front, last := attempts[..|attempts| - 1], attempts[|attempts| - 1];
      OncePerKeySubset(Applied(front), Applied(attempts));
      NoOverflowPrefix(attempts);
      ReviewsCreditedPrefix(attempts);
      OpinionsLogged(front);
      RunDetermined(front);
      AppliedAreProcessed(front);
      OpinionsStep(Run(EMPTY_STORE, front), LogOf(EMPTY_STORE, front), Applied(front), Reviews(front), last);
    }
  }

  lemma OpinionsStep(s: StoreState, log: seq<Entry>, events: set<Event>, reviews: seq<Event>, a: Attempt)
    requires GamesFrom(s.games, events) && (Opines(s, a) ==> a.message.event.game in s.games)
    requires TakesEffect(s, a) && a.message.Valid? ==>
      a.message.event !in events && OncePerKey(events + {a.message.event})
    requires forall e :: e in reviews ==> e.game in s.games
    requires Opinions(log) == Map(reviews, OpinionIn(s.games))
    ensures var t, all := Step(s, a), reviews + (if Opines(s, a) then [a.message.event] else []);
      && (forall e :: e in all ==> e.game in t.games)
      && Opinions(log + Recorded(s, a)) == Map(all, OpinionIn(t.games))
  {
    var more := if Opines(s, a) then [a.message.event] else [];
    FilterAppend(log, Recorded(s, a), (e: Entry) => e.kind != PURCHASE);
    OpinionsRecorded(s, a);
    MapAppend(reviews, more, OpinionIn(s.games));
    ReviewedStay(s, events, reviews + more, a);
    SameOpinions(reviews + more, s.games, Step(s, a).games);
  }

  lemma OpinionsRecorded(s: StoreState, a: Attempt)
    requires Opines(s, a) ==> a.message.event.game in s.games
    ensures Opinions(Recorded(s, a)) == Map(if Opines(s, a) then [a.message.event] else [], OpinionIn(s.games))
  {
    if TakesEffect(s, a) && a.message.Valid? { OpinionsIssued(s, a.message.event, a.now); }
  }

  lemma ReviewedStay(s: StoreState, events: set<Event>, reviews: seq<Event>, a: Attempt)
    requires GamesFrom(s.games, events) && forall e :: e in reviews ==> e.game in s.games
    requires TakesEffect(s, a) && a.message.Valid? ==>
      a.message.event !in events && OncePerKey(events + {a.message.event})
    ensures forall e :: e in reviews ==>
      e.game in Step(s, a).games && Step(s, a).games[e.game].embedding == s.games[e.game].embedding
  {
    if TakesEffect(s, a) && a.message.Valid? {
      forall e | e in reviews
        ensures e.game in Step(s, a).games && Step(s, a).games[e.game].embedding == s.games[e.game].embedding
      {
        WordsStay(s, events, a.message.event, a.now, e.game);
      }
    }
  }

  lemma {:induction false} BackfillsAreNoOpinions(owners: seq<UserId>, game: Game)
    ensures Opinions(BackfillEntries(owners, game)) == []
  {
    if owners != [] {
      var front, last := owners[..|owners| - 1], EntryFor(owners[|owners| - 1], game, PURCHASE, Backfilled);
      BackfillsAreNoOpinions(front, game);
      FilterAppend(BackfillEntries(front, game), [last], (e: Entry) => e.kind != PURCHASE);
    }
  }

  lemma OpinionsIssued(s: StoreState, e: Event, now: Time)
    requires Writes(s, e, now).Some?
    ensures Opinions(Issued(s, e, now)) == if e.ReviewPosted? && e.game in s.games then [OpinionIn(s.games)(e)] else []
  {
    match e
    case GamePublished(_, g, _, _) =>
      if Described(s, e).Some? { BackfillsAreNoOpinions(EarlyOwners(s, g), Described(s, e).value); }
    case GameWithdrawn(_, _) =>
    case PurchaseCompleted(_, u, g, _) => if g in s.games { OneOpinion(EntryFor(u, s.games[g], PURCHASE, Bought)); }
    case ReviewPosted(_, _, g, _, _) => if g in s.games { ReviewIssued(s, e, now); }
  }

  lemma ReviewIssued(s: StoreState, e: Event, now: Time)
    requires e.ReviewPosted? && e.game in s.games
    ensures Opinions(Issued(s, e, now)) == [OpinionIn(s.games)(e)]
  {
    var entry := OpinionIn(s.games)(e);
    assert Issued(s, e, now) == [entry] && entry.kind != PURCHASE;
    OneOpinion(entry);
  }

  lemma OneOpinion(e: Entry)
    ensures Opinions([e]) == if e.kind != PURCHASE then [e] else []
  {
    assert [e][1..] == [];
  }

  lemma OpinionsAgree(xs: seq<Attempt>, ys: seq<Attempt>)
    requires Applied(xs) == Applied(ys) && OncePerKey(Applied(xs)) && NoOverflow(xs) && NoOverflow(ys)
    requires ReviewsCredited(xs) && ReviewsCredited(ys)
    ensures multiset(Opinions(LogOf(EMPTY_STORE, xs))) == multiset(Opinions(LogOf(EMPTY_STORE, ys)))
  {
    var s, t := Run(EMPTY_STORE, xs), Run(EMPTY_STORE, ys);
    RunDetermined(xs);
    RunDetermined(ys);
    SameGames(s, t, Applied(xs));
    OpinionsLogged(xs);
    OpinionsLogged(ys);
    ReviewsApplied(xs);
    ReviewsApplied(ys);
    SameElementsSameMultiset(Reviews(xs), Reviews(ys));
    MapMultiset(Reviews(xs), Reviews(ys), OpinionIn(s.games));
    forall e | e in Reviews(ys) ensures s.games[e.game].embedding == t.games[e.game].embedding {
      assert e.game in t.games.Keys;
    }
    SameOpinions(Reviews(ys), t.games, s.games);
  }

  /** Confluence: two runs that have applied the same events, each game published once and each (user, game) bought
      once, in whatever order and however often delivered or retried, agree on every taste, owned set, signal count
      and ownership row, and on which games are known with which words. Reviews count where they were all credited. */
  lemma OrderIrrelevant(xs: seq<Attempt>, ys: seq<Attempt>)
    requires Applied(xs) == Applied(ys) && OncePerKey(Applied(xs)) && NoOverflow(xs) && NoOverflow(ys)
    requires ReviewsCredited(xs) && ReviewsCredited(ys)
    ensures SameKnowledge(Run(EMPTY_STORE, xs), Run(EMPTY_STORE, ys))
  {
    RunDetermined(xs);
    RunDetermined(ys);
    RunLedgered(xs);
    RunLedgered(ys);
    OpinionsAgree(xs, ys);
    DeterminedAgree(Run(EMPTY_STORE, xs), LogOf(EMPTY_STORE, xs), Run(EMPTY_STORE, ys), LogOf(EMPTY_STORE, ys),
      Applied(xs));
  }

  // ---------------------------------------------------------------- from deliveries to applied events

  /** The events some attempt delivered without a fault, but for publications whose description is refused. */
  function Delivered(attempts: seq<Attempt>): set<Event> {
    if attempts == [] then {} else
    var front, last := attempts[..|attempts| - 1], attempts[|attempts| - 1];
    Delivered(front) + if Deliverable(last) then {last.message.event} else {}
  }

  predicate Deliverable(a: Attempt) {
    a.message.Valid? && !a.fault && (a.message.event.GamePublished? ==> Admissible(a.message.event.description))
  }

  /** An id names one message. */
  ghost predicate IdsName(attempts: seq<Attempt>) {
    forall a, b :: a in attempts && b in attempts && a.Id() == b.Id() ==> a.message == b.message
  }

  lemma EffectWhenSparse(s: StoreState, e: Event, now: Time)
    requires NothingEmbedded(s)
    ensures Effect(s, e, now).Some? <==> (e.GamePublished? ==> Admissible(e.description))
  {
    match e
    case GamePublished(_, g, _, _) =>
      var game := Described(s, e);
      if game.Some? { BackfillStaysSparse(s.preferences, EarlyOwners(s, g), game.value, now); }
    case GameWithdrawn(_, _) =>
    case PurchaseCompleted(_, u, g, at) =>
      if g in s.games { CreditStaysSparse(s.preferences, u, s.games[g], PURCHASE, MomentOf(at, now)); }
    case ReviewPosted(_, u, g, liked, at) =>
      if g in s.games {
        CreditStaysSparse(s.preferences, u, s.games[g], if liked then REVIEW_LIKE else REVIEW_DISLIKE,
          MomentOf(at, now));
      }
  }

  lemma {:induction false} ProcessedWasApplied(attempts: seq<Attempt>, a: Attempt)
    requires a.message.Valid? && a.Id() in Run(EMPTY_STORE, attempts).processed
    requires forall b :: b in attempts && b.Id() == a.Id() ==> b.message == a.message
    ensures a.message.event in Applied(attempts)
  {
    var front, last := attempts[..|attempts| - 1], attempts[|attempts| - 1];
    assert attempts == front + [last];
    StepMarks(Run(EMPTY_STORE, front), last);
    if a.Id() in Run(EMPTY_STORE, front).processed {
      ProcessedWasApplied(front, a);
    }
  }

  lemma OncePerKeySubset(events: set<Event>, others: set<Event>)
    requires OncePerKey(others) && events <= others
    ensures OncePerKey(events)
  {}

  /** Such a run applies exactly the events delivered to it. */
  lemma {:induction false} AppliedIsDelivered(attempts: seq<Attempt>)
    requires IdsName(attempts) && OncePerKey(Delivered(attempts)) && NoOverflow(attempts)
    ensures Applied(attempts) == Delivered(attempts)
  {
    if attempts != [] {
      var front, last := attempts[..|attempts| - 1], attempts[|attempts| - 1];
      FrontDelivered(attempts);
      NoOverflowPrefix(attempts);
      AppliedIsDelivered(front);
      RunSparse(front);
      LastApplied(front, last);
    }
  }

  lemma FrontDelivered(attempts: seq<Attempt>)
    requires attempts != [] && IdsName(attempts) && OncePerKey(Delivered(attempts))
    ensures var front, last := attempts[..|attempts| - 1], attempts[|attempts| - 1];
      && IdsName(front) && OncePerKey(Delivered(front))
      && (forall b :: b in front && b.Id() == last.Id() ==> b.message == last.message)
      && Delivered(attempts) == Delivered(front) + (if Deliverable(last) then {last.message.event} else {})
  {
    var front, last := attempts[..|attempts| - 1], attempts[|attempts| - 1];
    assert attempts == front + [last];
    OncePerKeySubset(Delivered(front), Delivered(attempts));
  }

  lemma RunSparse(attempts: seq<Attempt>)
    requires OncePerKey(Applied(attempts)) && NoOverflow(attempts)
    ensures NothingEmbedded(Run(EMPTY_STORE, attempts))
  {
    RunDetermined(attempts);
  }

  lemma LastApplied(front: seq<Attempt>, last: Attempt)
    requires NothingEmbedded(Run(EMPTY_STORE, front)) && Applied(front) == Delivered(front)
    requires forall b :: b in front && b.Id() == last.Id() ==> b.message == last.message
    ensures var s := Run(EMPTY_STORE, front);
      Applied(front) + (if TakesEffect(s, last) && last.message.Valid? then {last.message.event} else {})
      == Delivered(front) + (if Deliverable(last) then {last.message.event} else {})
  {
    var s := Run(EMPTY_STORE, front);
    if last.message.Valid? {
      EffectWhenSparse(s, last.message.event, last.now);
      if last.Id() in s.processed { ProcessedWasApplied(front, last); }
    }
  }

  /** The same, said of what is delivered: any order, any duplicates, any retries. */
  lemma DeliveryOrderIrrelevant(xs: seq<Attempt>, ys: seq<Attempt>)
    requires Delivered(xs) == Delivered(ys) && OncePerKey(Delivered(xs))
    requires IdsName(xs) && IdsName(ys) && NoOverflow(xs) && NoOverflow(ys)
    requires ReviewsCredited(xs) && ReviewsCredited(ys)
    ensures SameKnowledge(Run(EMPTY_STORE, xs), Run(EMPTY_STORE, ys))
  {
    AppliedIsDelivered(xs);
    AppliedIsDelivered(ys);
    OrderIrrelevant(xs, ys);
  }

  /** The users some event has buy the game. */
  function Buyers(events: set<Event>, g: GameId): set<UserId> {
    set e | e in events && e.PurchaseCompleted? && e.game == g :: e.user
  }

  ghost predicate FewBuyers(events: set<Event>) {
    forall g :: |Buyers(events, g)| <= 500
  }

  lemma UncountedAreBuyers(s: StoreState, applied: set<Event>, events: set<Event>, g: GameId)
    requires RowsFrom(s.ownerships, applied) && applied <= events
    ensures |Uncounted(RowsOf(s.ownerships, g))| <= |Buyers(events, g)|
  {
    var users := Uncounted(RowsOf(s.ownerships, g));
    var members := set u | u in users;
    forall u | u in members ensures u in Buyers(events, g) {
      assert Flag(s.ownerships, u, g).Some?;
      var e :| e in applied && e.PurchaseCompleted? && e.user == u && e.game == g;
      assert e in events;
    }
    PrefixSize(users);
    assert Buyers(events, g) == members + (Buyers(events, g) - members);
  }

  /** A backfill never overflows, in any order of delivery, when no game has more than 500 buyers. */
  lemma {:induction false} FewBuyersFit(attempts: seq<Attempt>)
    requires IdsName(attempts) && OncePerKey(Delivered(attempts)) && FewBuyers(Delivered(attempts))
    ensures NoOverflow(attempts)
  {
    if attempts != [] {
      var front, last := attempts[..|attempts| - 1], attempts[|attempts| - 1];
      assert attempts == front + [last];
      OncePerKeySubset(Delivered(front), Delivered(attempts));
      FewerBuyers(Delivered(front), Delivered(attempts));
      FewBuyersFit(front);
      AppliedIsDelivered(front);
      RunDetermined(front);
      var s := Run(EMPTY_STORE, front);
      forall g ensures |Uncounted(RowsOf(s.ownerships, g))| <= BACKFILL_LIMIT {
        UncountedAreBuyers(s, Applied(front), Delivered(attempts), g);
      }
      forall i | 0 <= i < |attempts| ensures Fits(Run(EMPTY_STORE, attempts[..i]), attempts[i]) {
        if i < |front| { assert front[..i] == attempts[..i] && front[i] == attempts[i]; }
      }
    }
  }

  lemma FewerBuyers(events: set<Event>, others: set<Event>)
    requires FewBuyers(others) && events <= others
    ensures FewBuyers(events)
  {
    forall g ensures |Buyers(events, g)| <= BACKFILL_LIMIT {
      assert Buyers(others, g) == Buyers(events, g) + (Buyers(others, g) - Buyers(events, g));
    }
  }

  /** With nothing asked of the order: the same purchases and publications, at most 500 buyers a game, delivered in any
      order, any number of times, with any faults between. */
  lemma DeliveriesCommute(xs: seq<Attempt>, ys: seq<Attempt>)
    requires Delivered(xs) == Delivered(ys) && OncePerKey(Delivered(xs)) && FewBuyers(Delivered(xs))
    requires IdsName(xs) && IdsName(ys)
    requires forall a :: (a in xs || a in ys) && a.message.Valid? ==> !a.message.event.ReviewPosted?
    ensures SameKnowledge(Run(EMPTY_STORE, xs), Run(EMPTY_STORE, ys))
  {
    FewBuyersFit(xs);
    FewBuyersFit(ys);
    DeliveryOrderIrrelevant(xs, ys);
  }

  // ---------------------------------------------------------------- what order does change

  /** The popularity counter is not confluent: a purchase that arrives first is never added to it. */
  lemma PurchaseCountDependsOnOrder(publish: Event, buy: Event, now: Time)
    requires publish.GamePublished? && Admissible(publish.description)
    requires buy.PurchaseCompleted? && buy.game == publish.game && buy.id != publish.id
    ensures var p, b := Attempt(Valid(publish), now, false, false), Attempt(Valid(buy), now, false, false);
      var early, late := Run(EMPTY_STORE, [b, p]), Run(EMPTY_STORE, [p, b]);
      && publish.game in early.games && early.games[publish.game].purchaseCount == 0
      && publish.game in late.games && late.games[publish.game].purchaseCount == 1
  {
    var p, b := Attempt(Valid(publish), now, false, false), Attempt(Valid(buy), now, false, false);
    RunTwo(EMPTY_STORE, b, p);
    RunTwo(EMPTY_STORE, p, b);
    BoughtFirst(publish, buy, now);
    BoughtLater(publish, buy, now);
  }

  /** A purchase of the game takes effect. */
  predicate Buys(s: StoreState, a: Attempt, g: GameId) {
    TakesEffect(s, a) && a.message.Valid? && a.message.event.PurchaseCompleted? && a.message.event.game == g
  }

  /** The purchases of a game that took effect, known or not. */
  function Purchases(attempts: seq<Attempt>, g: GameId): nat {
    if attempts == [] then 0 else
    var front := attempts[..|attempts| - 1];
    Purchases(front, g) + if Buys(Run(EMPTY_STORE, front), attempts[|attempts| - 1], g) then 1 else 0
  }

  /** Those that took effect before the game was known. */
  function Early(attempts: seq<Attempt>, g: GameId): nat {
    if attempts == [] then 0 else
    var front, s := attempts[..|attempts| - 1], Run(EMPTY_STORE, attempts[..|attempts| - 1]);
    Early(front, g) + if Buys(s, attempts[|attempts| - 1], g) && g !in s.games then 1 else 0
  }

  lemma StepSells(s: StoreState, a: Attempt, g: GameId)
    ensures SalesOf(Step(s, a).games, g) == SalesOf(s.games, g) + if Buys(s, a, g) && g in s.games then 1 else 0
  {
    if TakesEffect(s, a) && a.message.Valid? { EventSells(s, a.message.event, a.now, g); }
  }

  /** Every effective purchase of a game is in its counter, or came before the game was known. */
  lemma {:induction false} PurchasesAccounted(attempts: seq<Attempt>, g: GameId)
    ensures Purchases(attempts, g) == SalesOf(Run(EMPTY_STORE, attempts).games, g) + Early(attempts, g)
  {
    if attempts != [] {
      PurchasesAccounted(attempts[..|attempts| - 1], g);
      StepSells(Run(EMPTY_STORE, attempts[..|attempts| - 1]), attempts[|attempts| - 1], g);
    }
  }

  /** If the i-th attempt is an effective purchase of the game, the game is known by then. */
  predicate KnownWhenBought(attempts: seq<Attempt>, i: nat, g: GameId)
    requires i < |attempts|
  {
    var s := Run(EMPTY_STORE, attempts[..i]);
    Buys(s, attempts[i], g) ==> g in s.games
  }

  lemma EarlierUnchanged(attempts: seq<Attempt>, i: nat, g: GameId)
    requires i < |attempts| - 1
    ensures KnownWhenBought(attempts, i, g) == KnownWhenBought(attempts[..|attempts| - 1], i, g)
  {
    assert attempts[..|attempts| - 1][..i] == attempts[..i];
  }

  /** The game is known whenever a purchase of it takes effect. */
  ghost predicate AlwaysKnownWhenBought(attempts: seq<Attempt>, g: GameId) {
    forall i :: 0 <= i < |attempts| ==> KnownWhenBought(attempts, i, g)
  }

  lemma KnownSnoc(attempts: seq<Attempt>, g: GameId)
    requires attempts != []
    ensures AlwaysKnownWhenBought(attempts, g) <==>
      AlwaysKnownWhenBought(attempts[..|attempts| - 1], g) && KnownWhenBought(attempts, |attempts| - 1, g)
  {
    var last := |attempts| - 1;
    forall i | 0 <= i < last ensures KnownWhenBought(attempts, i, g) == KnownWhenBought(attempts[..last], i, g) {
      EarlierUnchanged(attempts, i, g);
    }
  }

  lemma EarlySnoc(attempts: seq<Attempt>, g: GameId)
    requires attempts != []
    ensures Early(attempts, g) ==
      Early(attempts[..|attempts| - 1], g) + if KnownWhenBought(attempts, |attempts| - 1, g) then 0 else 1
  {}

  lemma {:induction false} NoneEarlyIff(attempts: seq<Attempt>, g: GameId)
    ensures Early(attempts, g) == 0 <==> AlwaysKnownWhenBought(attempts, g)
  {
    if attempts == [] {
      assert AlwaysKnownWhenBought(attempts, g);
    } else {
      NoneEarlyIff(attempts[..|attempts| - 1], g);
      KnownSnoc(attempts, g);
      EarlySnoc(attempts, g);
    }
  }

  /** The popularity counter of a game counts every effective purchase exactly when none took effect before the game was
      known: the early buyers a backfill credits, and those an overflow leaves out, are never added to it. */
  lemma PurchaseCountCompleteIff(attempts: seq<Attempt>, g: GameId)
    ensures SalesOf(Run(EMPTY_STORE, attempts).games, g) == Purchases(attempts, g) <==>
      AlwaysKnownWhenBought(attempts, g)
  {
    PurchasesAccounted(attempts, g);
    NoneEarlyIff(attempts, g);
  }

  lemma RunTwo(s: StoreState, a: Attempt, b: Attempt)
    ensures Run(s, [a, b]) == Step(Step(s, a), b)
  {
    assert [a, b][..1] == [a] && [a][..0] == [];
    assert Run(s, []) == s;
    assert Run(s, [a]) == Step(Run(s, [a][..0]), a);
  }

  lemma BoughtFirst(publish: Event, buy: Event, now: Time)
    requires publish.GamePublished? && Admissible(publish.description)
    requires buy.PurchaseCompleted? && buy.game == publish.game && buy.id != publish.id
    ensures var p, b := Attempt(Valid(publish), now, false, false), Attempt(Valid(buy), now, false, false);
      var s := Step(Step(EMPTY_STORE, b), p);
      publish.game in s.games && s.games[publish.game].purchaseCount == 0
  {
    var s := Step(EMPTY_STORE, Attempt(Valid(buy), now, false, false));
    assert s == EMPTY_STORE.(ownerships := Raise(map[], buy.user, buy.game, false), processed := {buy.id});
    FirstPublication(s, publish, now);
  }

  lemma FirstPublication(s: StoreState, publish: Event, now: Time)
    requires publish.GamePublished? && Admissible(publish.description) && publish.id !in s.processed
    requires s.games == map[] && s.preferences == map[]
    ensures var t := Step(s, Attempt(Valid(publish), now, false, false));
      publish.game in t.games && t.games[publish.game].purchaseCount == 0
  {
    BackfillStaysSparse(s.preferences, EarlyOwners(s, publish.game), Described(s, publish).value, now);
  }

  lemma BoughtLater(publish: Event, buy: Event, now: Time)
    requires publish.GamePublished? && Admissible(publish.description)
    requires buy.PurchaseCompleted? && buy.game == publish.game && buy.id != publish.id
    ensures var p, b := Attempt(Valid(publish), now, false, false), Attempt(Valid(buy), now, false, false);
      var s := Step(Step(EMPTY_STORE, p), b);
      publish.game in s.games && s.games[publish.game].purchaseCount == 1
  {
    assert EarlyOwners(EMPTY_STORE, publish.game) == [];
    var s := Step(EMPTY_STORE, Attempt(Valid(publish), now, false, false));
    assert s.games[publish.game].dense == [];
    CreditStaysSparse(s.preferences, buy.user, s.games[publish.game], PURCHASE, MomentOf(buy.occurredAt, now));
  }

  /** A publication leaves no owner of its game uncredited exactly when the early owners fit one backfill. */
  lemma PublicationCountsAllIff(s: StoreState, e: Event, now: Time)
    requires e.GamePublished? && Effect(s, e, now).Some?
    ensures (forall u :: Flag(Effect(s, e, now).value.ownerships, u, e.game) != Some(false))
       <==> |Uncounted(RowsOf(s.ownerships, e.game))| <= 500
  {
    var all, owners := Uncounted(RowsOf(s.ownerships, e.game)), EarlyOwners(s, e.game);
    var after := CountAll(s.ownerships, e.game, owners);
    assert Effect(s, e, now).value.ownerships == after;
    forall u ensures Flag(after, u, e.game) == Some(false) <==> u in all && u !in owners {
      CountAllFlags(s.ownerships, e.game, owners, u, e.game);
    }
    LeftOver(all, BACKFILL_LIMIT);
  }

  lemma LeftOver(all: seq<UserId>, limit: nat)
    requires Distinct(all)
    ensures (forall u :: !(u in all && u !in Take(all, limit))) <==> |all| <= limit
  {
    if |all| > limit {
      var next := all[limit];
      assert next in all && next !in Take(all, limit);
    } else {
      assert Take(all, limit) == all;
    }
  }
}
