/** Every credit an ingest run issues, and what the store knows about them: conservation over whole runs. */
module Ledger {
  import opened Ordering
  import opened Vectors
  import opened Catalog
  import opened Preference
  import opened Store
  import opened Ingest

  datatype Cause = Bought | Backfilled | Reviewed

  /** One action folded into one user's taste, with the vector the game had at that moment. */
  datatype Entry = Entry(user: UserId, game: GameId, kind: SignalKind, vector: Embedding, cause: Cause)

  function EntryFor(user: UserId, game: Game, kind: SignalKind, cause: Cause): Entry {
    Entry(user, game.id, kind, game.embedding, cause)
  }

  function BackfillEntries(owners: seq<UserId>, game: Game): seq<Entry> {
    if owners == [] then [] else
    BackfillEntries(owners[..|owners| - 1], game) + [EntryFor(owners[|owners| - 1], game, PURCHASE, Backfilled)]
  }

  /** The credits one successful attempt issues: a purchase of a known game, the early owners of a published one,
      or a review of a known game. */
  function Issued(s: StoreState, e: Event, now: Time): seq<Entry> {
    match e
    case GamePublished(_, g, _, _) =>
      var game := Described(s, e);
      if game.None? then [] else BackfillEntries(EarlyOwners(s, g), game.value)
    case GameWithdrawn(_, _) => []
    case PurchaseCompleted(_, u, g, _) =>
      if g !in s.games then [] else [EntryFor(u, s.games[g], PURCHASE, Bought)]
    case ReviewPosted(_, u, g, liked, _) =>
      if g !in s.games then [] else
      [EntryFor(u, s.games[g], if liked then REVIEW_LIKE else REVIEW_DISLIKE, Reviewed)]
  }

  function EntriesOf(log: seq<Entry>, user: UserId): seq<Entry> {
    Filter(log, (e: Entry) => e.user == user)
  }

  function TermOf(e: Entry): Term {
    Term(e.vector, WeightOf(e.kind))
  }

  function EntryRecord(e: Entry): SignalRecord {
    SignalRecord(e.game, WeightOf(e.kind))
  }

  function BoughtCount(log: seq<Entry>, game: GameId): nat {
    |Filter(log, (e: Entry) => e.cause == Bought && e.game == game)|
  }

  function BackfillCount(log: seq<Entry>, user: UserId, game: GameId): nat {
    |Filter(log, (e: Entry) => e.cause == Backfilled && e.game == game && e.user == user)|
  }

  // ---------------------------------------------------------------- what the ledger and the store agree on

  ghost predicate ProfileMatches(p: UserPreference, mine: seq<Entry>) {
    && p.taste == Fold(Map(mine, TermOf))
    && p.history == Last(Map(mine, EntryRecord), MAX_SIGNAL_HISTORY)
    && p.signalCount == |mine|
    && forall g :: g in p.owned <==> exists e :: e in mine && e.kind == PURCHASE && e.game == g
  }

  /** Taste is the weighted sum of the whole log, history its last 200 entries, the counter its length. */
  ghost predicate ProfilesMatch(preferences: Preferences, log: seq<Entry>) {
    forall u :: UserMatches(preferences, log, u)
  }

  ghost predicate UserMatches(preferences: Preferences, log: seq<Entry>, u: UserId) {
    ProfileMatches(PreferenceOf(preferences, u), EntriesOf(log, u))
  }

  /** A row is counted exactly when the game is in the owner's owned set. */
  ghost predicate CountedIffOwned(preferences: Preferences, table: Ownerships) {
    forall u, g :: Flag(table, u, g) == Some(true) <==> g in PreferenceOf(preferences, u).owned
  }

  /** `purchase_count`, zero for an unknown game. */
  function SalesOf(games: Games, game: GameId): nat {
    if game in games then games[game].purchaseCount else 0
  }

  /** A game's purchase count is the number of purchases credited while it was known. */
  ghost predicate SalesMatch(games: Games, log: seq<Entry>) {
    forall g :: BoughtCount(log, g) == SalesOf(games, g)
  }

  /** No (user, game) is backfilled twice, and a backfilled one is counted. */
  ghost predicate BackfilledOnce(table: Ownerships, log: seq<Entry>) {
    forall u, g ::
      && BackfillCount(log, u, g) <= 1
      && (BackfillCount(log, u, g) == 1 ==> Flag(table, u, g) == Some(true))
  }

  /** Profiles and ownership rows agree with the log; the catalogue plays no part. */
  ghost predicate Credited(preferences: Preferences, table: Ownerships, log: seq<Entry>) {
    ProfilesMatch(preferences, log) && CountedIffOwned(preferences, table) && BackfilledOnce(table, log)
  }

  ghost predicate Ledgered(s: StoreState, log: seq<Entry>) {
    Credited(s.preferences, s.ownerships, log) && SalesMatch(s.games, log)
  }

  // ---------------------------------------------------------------- one credit

  lemma MatchSnoc(p: UserPreference, mine: seq<Entry>, game: Game, kind: SignalKind, at: Time, e: Entry)
    requires ProfileMatches(p, mine) && Observe(p, game, kind, at).Some?
    requires e.game == game.id && e.kind == kind && e.vector == game.embedding
    ensures ProfileMatches(Observe(p, game, kind, at).value, mine + [e])
  {
    var q, all := Observe(p, game, kind, at).value, mine + [e];
    assert Map(all, TermOf) == Map(mine, TermOf) + [TermOf(e)];
    assert Map(all, TermOf)[..|mine|] == Map(mine, TermOf);
    assert Map(all, EntryRecord) == Map(mine, EntryRecord) + [EntryRecord(e)];
    ObserveRemembers(p, Signal(game, kind, at));
    LastAppended(Map(mine, EntryRecord), EntryRecord(e), MAX_SIGNAL_HISTORY);
    forall g ensures g in q.owned <==> exists x :: x in all && x.kind == PURCHASE && x.game == g {
      OwnedSnoc(mine, e, g);
    }
  }

  lemma OwnedSnoc(mine: seq<Entry>, e: Entry, g: GameId)
    ensures (exists x :: x in mine + [e] && x.kind == PURCHASE && x.game == g)
       <==> (exists x :: x in mine && x.kind == PURCHASE && x.game == g) || (e.kind == PURCHASE && e.game == g)
  {
    if x :| x in mine && x.kind == PURCHASE && x.game == g {
      assert x in mine + [e];
    }
    if e.kind == PURCHASE && e.game == g {
      assert e in mine + [e];
    }
  }

  lemma CreditLogged(preferences: Preferences, log: seq<Entry>, user: UserId, game: Game, kind: SignalKind,
                     at: Time, cause: Cause)
    requires ProfilesMatch(preferences, log) && Credit(preferences, user, game, kind, at).Some?
    ensures ProfilesMatch(Credit(preferences, user, game, kind, at).value, log + [EntryFor(user, game, kind, cause)])
  {
    var after, e := Credit(preferences, user, game, kind, at).value, EntryFor(user, game, kind, cause);
    forall u ensures UserMatches(after, log + [e], u) {
      assert UserMatches(preferences, log, u);
      CreditLoggedFor(preferences, log, user, game, kind, at, cause, u);
    }
  }

  lemma CreditLoggedFor(preferences: Preferences, log: seq<Entry>, user: UserId, game: Game, kind: SignalKind, at: Time,
                        cause: Cause, u: UserId)
    requires UserMatches(preferences, log, u) && Credit(preferences, user, game, kind, at).Some?
    ensures UserMatches(Credit(preferences, user, game, kind, at).value, log + [EntryFor(user, game, kind, cause)], u)
  {
    var e := EntryFor(user, game, kind, cause);
    CreditedProfile(preferences, user, game, kind, at, u);
    if u == user {
      LoggedMine(PreferenceOf(preferences, u), log, e, game, at);
    } else {
      LoggedElsewhere(PreferenceOf(preferences, u), log, e, u);
    }
  }

  lemma LoggedMine(p: UserPreference, log: seq<Entry>, e: Entry, game: Game, at: Time)
    requires ProfileMatches(p, EntriesOf(log, e.user)) && e.game == game.id && e.vector == game.embedding
    requires Observe(p, game, e.kind, at).Some?
    ensures ProfileMatches(Observe(p, game, e.kind, at).value, EntriesOf(log + [e], e.user))
  {
    var mine := EntriesOf(log, e.user);
    EntriesSnoc(log, e, e.user);
    MatchSnoc(p, mine, game, e.kind, at, e);
    MatchSame(Observe(p, game, e.kind, at).value, mine + [e], EntriesOf(log + [e], e.user));
  }

  lemma LoggedElsewhere(p: UserPreference, log: seq<Entry>, e: Entry, u: UserId)
    requires ProfileMatches(p, EntriesOf(log, u)) && e.user != u
    ensures ProfileMatches(p, EntriesOf(log + [e], u))
  {
    EntriesSnoc(log, e, u);
    MatchSame(p, EntriesOf(log, u), EntriesOf(log + [e], u));
  }

  lemma MatchSame(p: UserPreference, mine: seq<Entry>, others: seq<Entry>)
    requires ProfileMatches(p, mine) && mine == others
    ensures ProfileMatches(p, others)
  {}

  lemma EntriesSnoc(log: seq<Entry>, e: Entry, u: UserId)
    ensures EntriesOf(log + [e], u) == if e.user == u then EntriesOf(log, u) + [e] else EntriesOf(log, u)
  {
    FilterAppend(log, [e], (x: Entry) => x.user == u);
  }

  lemma CreditedProfile(preferences: Preferences, user: UserId, game: Game, kind: SignalKind, at: Time, u: UserId)
    requires Credit(preferences, user, game, kind, at).Some?
    ensures PreferenceOf(Credit(preferences, user, game, kind, at).value, u)
         == if u == user then Observe(PreferenceOf(preferences, user), game, kind, at).value
           else PreferenceOf(preferences, u)
  {
    FiledProfile(preferences, Observe(PreferenceOf(preferences, user), game, kind, at).value, u);
  }

  lemma FiledProfile(preferences: Preferences, p: UserPreference, u: UserId)
    ensures PreferenceOf(Filed(preferences, p), u) == if u == p.user then p else PreferenceOf(preferences, u)
  {}

  lemma CreditOwns(preferences: Preferences, user: UserId, game: Game, kind: SignalKind, at: Time, u: UserId, g: GameId)
    requires Credit(preferences, user, game, kind, at).Some?
    ensures g in PreferenceOf(Credit(preferences, user, game, kind, at).value, u).owned
       <==> g in PreferenceOf(preferences, u).owned || (kind == PURCHASE && u == user && g == game.id)
  {
    CreditedProfile(preferences, user, game, kind, at, u);
    ObserveOwns(PreferenceOf(preferences, user), game, kind, at, g);
  }

  lemma ObserveOwns(p: UserPreference, game: Game, kind: SignalKind, at: Time, g: GameId)
    requires Observe(p, game, kind, at).Some?
    ensures g in Observe(p, game, kind, at).value.owned <==> g in p.owned || (kind == PURCHASE && g == game.id)
  {}

  lemma CountsAppend(log: seq<Entry>, e: Entry, user: UserId, game: GameId)
    ensures BoughtCount(log + [e], game)
         == BoughtCount(log, game) + if e.cause == Bought && e.game == game then 1 else 0
    ensures BackfillCount(log + [e], user, game)
         == BackfillCount(log, user, game) + if e.cause == Backfilled && e.game == game && e.user == user then 1 else 0
  {
    FilterAppend(log, [e], (x: Entry) => x.cause == Bought && x.game == game);
    FilterAppend(log, [e], (x: Entry) => x.cause == Backfilled && x.game == game && x.user == user);
  }

  /** The ownership side of a credited purchase: the row is raised as the game enters the owned set. */
  lemma PurchaseKeepsFlags(s: StoreState, log: seq<Entry>, user: UserId, game: Game, at: Time, cause: Cause)
    requires Credited(s.preferences, s.ownerships, log) && Credit(s.preferences, user, game, PURCHASE, at).Some?
    requires cause == Backfilled ==> Flag(s.ownerships, user, game.id) == Some(false)
    ensures var preferences, table, e :=
              Credit(s.preferences, user, game, PURCHASE, at).value,
              Raise(s.ownerships, user, game.id, true),
              EntryFor(user, game, PURCHASE, cause);
      CountedIffOwned(preferences, table) && BackfilledOnce(table, log + [e])
  {
    CreditKeepsCounted(s, user, game, at);
    RaiseKeepsBackfills(s.ownerships, log, user, game, cause);
  }

  lemma CreditKeepsCounted(s: StoreState, user: UserId, game: Game, at: Time)
    requires CountedIffOwned(s.preferences, s.ownerships) && Credit(s.preferences, user, game, PURCHASE, at).Some?
    ensures CountedIffOwned(Credit(s.preferences, user, game, PURCHASE, at).value,
      Raise(s.ownerships, user, game.id, true))
  {
    var preferences := Credit(s.preferences, user, game, PURCHASE, at).value;
    var table := Raise(s.ownerships, user, game.id, true);
    forall u, g ensures Flag(table, u, g) == Some(true) <==> g in PreferenceOf(preferences, u).owned {
      RaiseFlag(s.ownerships, user, game.id, true, u, g);
      CreditOwns(s.preferences, user, game, PURCHASE, at, u, g);
      assert Flag(s.ownerships, u, g) == Some(true) <==> g in PreferenceOf(s.preferences, u).owned;
    }
  }

  lemma RaiseKeepsBackfills(table: Ownerships, log: seq<Entry>, user: UserId, game: Game, cause: Cause)
    requires BackfilledOnce(table, log) && (cause == Backfilled ==> Flag(table, user, game.id) == Some(false))
    ensures BackfilledOnce(Raise(table, user, game.id, true), log + [EntryFor(user, game, PURCHASE, cause)])
  {
    var after, e := Raise(table, user, game.id, true), EntryFor(user, game, PURCHASE, cause);
    forall u, g
      ensures BackfillCount(log + [e], u, g) <= 1
      ensures BackfillCount(log + [e], u, g) == 1 ==> Flag(after, u, g) == Some(true)
    {
      CountsAppend(log, e, u, g);
      RaiseFlag(table, user, game.id, true, u, g);
      assert BackfillCount(log, u, g) <= 1 && (BackfillCount(log, u, g) == 1 ==> Flag(table, u, g) == Some(true));
    }
  }

  lemma BackfillsUnchanged(table: Ownerships, log: seq<Entry>, e: Entry)
    requires BackfilledOnce(table, log) && e.cause != Backfilled
    ensures BackfilledOnce(table, log + [e])
  {
    forall u, g
      ensures BackfillCount(log + [e], u, g) <= 1
      ensures BackfillCount(log + [e], u, g) == 1 ==> Flag(table, u, g) == Some(true)
    {
      CountsAppend(log, e, u, g);
    }
  }

  lemma ReviewKeepsOwned(preferences: Preferences, table: Ownerships, user: UserId, game: Game, kind: SignalKind,
                         at: Time)
    requires CountedIffOwned(preferences, table) && kind != PURCHASE && Credit(preferences, user, game, kind, at).Some?
    ensures CountedIffOwned(Credit(preferences, user, game, kind, at).value, table)
  {
    var after := Credit(preferences, user, game, kind, at).value;
    forall u, g ensures Flag(table, u, g) == Some(true) <==> g in PreferenceOf(after, u).owned {
      CreditOwns(preferences, user, game, kind, at, u, g);
    }
  }

  ghost predicate CreditedIn(s: StoreState, log: seq<Entry>) {
    Credited(s.preferences, s.ownerships, log)
  }

  /** Crediting one early owner keeps the whole agreement. */
  lemma BackfillOneCredited(s: StoreState, log: seq<Entry>, user: UserId, game: Game, at: Time)
    requires CreditedIn(s, log) && Credit(s.preferences, user, game, PURCHASE, at).Some?
    requires Flag(s.ownerships, user, game.id) == Some(false)
    ensures CreditedIn(CreditedOwner(s, user, game, at), log + [EntryFor(user, game, PURCHASE, Backfilled)])
  {
    CreditLogged(s.preferences, log, user, game, PURCHASE, at, Backfilled);
    PurchaseKeepsFlags(s, log, user, game, at, Backfilled);
  }

  function CreditedOwner(s: StoreState, user: UserId, game: Game, at: Time): StoreState
    requires Credit(s.preferences, user, game, PURCHASE, at).Some?
  {
    s.(preferences := Credit(s.preferences, user, game, PURCHASE, at).value,
       ownerships := Raise(s.ownerships, user, game.id, true))
  }

  function CreditedOwners(s: StoreState, owners: seq<UserId>, game: Game, at: Time): StoreState
    requires Backfill(s.preferences, owners, game, at).Some?
  {
    s.(preferences := Backfill(s.preferences, owners, game, at).value,
       ownerships := CountAll(s.ownerships, game.id, owners))
  }

  lemma BackfillSteps(s: StoreState, owners: seq<UserId>, game: Game, at: Time)
    requires owners != [] && Backfill(s.preferences, owners, game, at).Some?
    ensures var front, last := owners[..|owners| - 1], owners[|owners| - 1];
      && Backfill(s.preferences, front, game, at).Some?
      && Credit(CreditedOwners(s, front, game, at).preferences, last, game, PURCHASE, at).Some?
      && CreditedOwners(s, owners, game, at) == CreditedOwner(CreditedOwners(s, front, game, at), last, game, at)
  {}

  lemma StillUncounted(s: StoreState, owners: seq<UserId>, game: Game)
    requires owners != [] && Distinct(owners)
    requires forall u :: u in owners ==> Flag(s.ownerships, u, game.id) == Some(false)
    ensures var front, last := owners[..|owners| - 1], owners[|owners| - 1];
      && (forall u :: u in front ==> Flag(s.ownerships, u, game.id) == Some(false))
      && Flag(CountAll(s.ownerships, game.id, front), last, game.id) == Some(false)
  {
    var front, last := owners[..|owners| - 1], owners[|owners| - 1];
    assert owners == front + [last];
    CountAllFlags(s.ownerships, game.id, front, last, game.id);
  }

  lemma {:induction false} BackfillCredited(s: StoreState, log: seq<Entry>, owners: seq<UserId>, game: Game, at: Time)
    requires CreditedIn(s, log) && Distinct(owners)
    requires forall u :: u in owners ==> Flag(s.ownerships, u, game.id) == Some(false)
    requires Backfill(s.preferences, owners, game, at).Some?
    ensures CreditedIn(CreditedOwners(s, owners, game, at), log + BackfillEntries(owners, game))
  {
    if owners == [] {
      BackfillNone(s, log, owners, game, at);
      CreditedSame(s, log, CreditedOwners(s, owners, game, at), log + BackfillEntries(owners, game));
    } else {
      StillUncounted(s, owners, game);
      BackfillSteps(s, owners, game, at);
      BackfillCredited(s, log, owners[..|owners| - 1], game, at);
      BackfillLastCredited(s, log, owners, game, at);
    }
  }

  lemma BackfillNone(s: StoreState, log: seq<Entry>, owners: seq<UserId>, game: Game, at: Time)
    requires owners == [] && Backfill(s.preferences, owners, game, at).Some?
    ensures CreditedOwners(s, owners, game, at) == s && log + BackfillEntries(owners, game) == log
  {}

  lemma CreditedSame(s: StoreState, log: seq<Entry>, t: StoreState, other: seq<Entry>)
    requires CreditedIn(s, log) && t == s && other == log
    ensures CreditedIn(t, other)
  {}

  lemma BackfillLastCredited(s: StoreState, log: seq<Entry>, owners: seq<UserId>, game: Game, at: Time)
    requires owners != [] && Backfill(s.preferences, owners, game, at).Some?
    requires Backfill(s.preferences, owners[..|owners| - 1], game, at).Some?
    requires Flag(CountAll(s.ownerships, game.id, owners[..|owners| - 1]), owners[|owners| - 1], game.id) == Some(false)
    requires CreditedIn(CreditedOwners(s, owners[..|owners| - 1], game, at),
      log + BackfillEntries(owners[..|owners| - 1], game))
    ensures CreditedIn(CreditedOwners(s, owners, game, at), log + BackfillEntries(owners, game))
  {
    var front, last := owners[..|owners| - 1], owners[|owners| - 1];
    BackfillSteps(s, owners, game, at);
    BackfillOneCredited(CreditedOwners(s, front, game, at), log + BackfillEntries(front, game), last, game, at);
    BackfillEntriesSnoc(log, owners, game);
  }

  lemma BackfillEntriesSnoc(log: seq<Entry>, owners: seq<UserId>, game: Game)
    requires owners != []
    ensures var front, last := owners[..|owners| - 1], owners[|owners| - 1];
      log + BackfillEntries(owners, game)
        == log + BackfillEntries(front, game) + [EntryFor(last, game, PURCHASE, Backfilled)]
  {}

  // ---------------------------------------------------------------- one event

  lemma PublishedCredited(s: StoreState, log: seq<Entry>, e: Event, now: Time)
    requires e.GamePublished? && CreditedIn(s, log) && Writes(s, e, now).Some?
    ensures CreditedIn(Writes(s, e, now).value, log + Issued(s, e, now))
  {
    BackfillCredited(s, log, EarlyOwners(s, e.game), Described(s, e).value, now);
  }

  lemma PurchaseCredited(s: StoreState, log: seq<Entry>, e: Event, now: Time)
    requires e.PurchaseCompleted? && CreditedIn(s, log) && Writes(s, e, now).Some?
    ensures CreditedIn(Writes(s, e, now).value, log + Issued(s, e, now))
  {
    if e.game !in s.games {
      assert log + [] == log;
      RowKeepsCredited(s.preferences, s.ownerships, log, e.user, e.game);
    } else {
      var game, at := s.games[e.game], MomentOf(e.occurredAt, now);
      CreditLogged(s.preferences, log, e.user, game, PURCHASE, at, Bought);
      PurchaseKeepsFlags(s, log, e.user, game, at, Bought);
    }
  }

  /** An uncounted row changes no agreement. */
  lemma RowKeepsCredited(preferences: Preferences, table: Ownerships, log: seq<Entry>, user: UserId, game: GameId)
    requires Credited(preferences, table, log)
    ensures Credited(preferences, Raise(table, user, game, false), log)
  {
    RowKeepsOwned(preferences, table, user, game);
    RowKeepsBackfills(table, log, user, game);
  }

  lemma RowKeepsOwned(preferences: Preferences, table: Ownerships, user: UserId, game: GameId)
    requires CountedIffOwned(preferences, table)
    ensures CountedIffOwned(preferences, Raise(table, user, game, false))
  {
    var after := Raise(table, user, game, false);
    forall u, g ensures Flag(after, u, g) == Some(true) <==> g in PreferenceOf(preferences, u).owned {
      RaiseFlag(table, user, game, false, u, g);
      assert Flag(table, u, g) == Some(true) <==> g in PreferenceOf(preferences, u).owned;
    }
  }

  lemma RowKeepsBackfills(table: Ownerships, log: seq<Entry>, user: UserId, game: GameId)
    requires BackfilledOnce(table, log)
    ensures BackfilledOnce(Raise(table, user, game, false), log)
  {
    forall u, g ensures Flag(Raise(table, user, game, false), u, g) == Some(true) <==> Flag(table, u, g) == Some(true) {
      RaiseFlag(table, user, game, false, u, g);
    }
  }

  lemma ReviewCredited(s: StoreState, log: seq<Entry>, e: Event, now: Time)
    requires e.ReviewPosted? && CreditedIn(s, log) && Writes(s, e, now).Some?
    ensures CreditedIn(Writes(s, e, now).value, log + Issued(s, e, now))
  {
    if e.game !in s.games {
      assert log + [] == log;
    } else {
      var game, at := s.games[e.game], MomentOf(e.occurredAt, now);
      var kind := if e.liked then REVIEW_LIKE else REVIEW_DISLIKE;
      CreditLogged(s.preferences, log, e.user, game, kind, at, Reviewed);
      ReviewKeepsOwned(s.preferences, s.ownerships, e.user, game, kind, at);
      BackfillsUnchanged(s.ownerships, log, EntryFor(e.user, game, kind, Reviewed));
    }
  }

  /** Every event keeps profiles and rows in agreement with the log, whatever the catalogue holds. */
  lemma EventCredited(s: StoreState, log: seq<Entry>, e: Event, now: Time)
    requires CreditedIn(s, log) && Writes(s, e, now).Some?
    ensures CreditedIn(Writes(s, e, now).value, log + Issued(s, e, now))
  {
    match e
    case GamePublished(_, _, _, _) => PublishedCredited(s, log, e, now);
    case GameWithdrawn(_, _) => assert log + [] == log;
    case PurchaseCompleted(_, _, _, _) => PurchaseCredited(s, log, e, now);
    case ReviewPosted(_, _, _, _, _) => ReviewCredited(s, log, e, now);
  }

  /** The sales an event adds to a game's counter. */
  function Sells(s: StoreState, e: Event, game: GameId): nat {
    if e.PurchaseCompleted? && e.game == game && game in s.games then 1 else 0
  }

  lemma {:induction false} BackfillsSellNothing(owners: seq<UserId>, described: Game, game: GameId)
    ensures BoughtCount(BackfillEntries(owners, described), game) == 0
  {
    if owners != [] {
      var front, last := owners[..|owners| - 1], owners[|owners| - 1];
      BackfillsSellNothing(front, described, game);
      CountsAppend(BackfillEntries(front, described), EntryFor(last, described, PURCHASE, Backfilled), last, game);
    }
  }

  lemma BoughtAppend(log: seq<Entry>, more: seq<Entry>, game: GameId)
    ensures BoughtCount(log + more, game) == BoughtCount(log, game) + BoughtCount(more, game)
  {
    FilterAppend(log, more, (x: Entry) => x.cause == Bought && x.game == game);
  }

  /** The log and the counter of a game move together. */
  lemma EventSells(s: StoreState, e: Event, now: Time, game: GameId)
    requires Writes(s, e, now).Some?
    ensures BoughtCount(Issued(s, e, now), game) == Sells(s, e, game)
    ensures SalesOf(Writes(s, e, now).value.games, game) == SalesOf(s.games, game) + Sells(s, e, game)
  {
    IssuedSells(s, e, now, game);
    EventGames(s, e, now);
    if e.GamePublished? && Described(s, e).Some? { DescribedSellsNothing(s, e); }
    assert SalesOf(GamesAfter(s, e), game) == SalesOf(s.games, game) + Sells(s, e, game);
  }

  lemma IssuedSells(s: StoreState, e: Event, now: Time, game: GameId)
    ensures BoughtCount(Issued(s, e, now), game) == Sells(s, e, game)
  {
    if e.GamePublished? && Described(s, e).Some? {
      BackfillsSellNothing(EarlyOwners(s, e.game), Described(s, e).value, game);
    }
  }

  lemma DescribedSellsNothing(s: StoreState, e: Event)
    requires e.GamePublished? && Described(s, e).Some?
    ensures Described(s, e).value.purchaseCount == SalesOf(s.games, e.game)
  {}

  lemma EventSales(s: StoreState, log: seq<Entry>, e: Event, now: Time)
    requires SalesMatch(s.games, log) && Writes(s, e, now).Some?
    ensures SalesMatch(Writes(s, e, now).value.games, log + Issued(s, e, now))
  {
    forall g ensures BoughtCount(log + Issued(s, e, now), g) == SalesOf(Writes(s, e, now).value.games, g) {
      EventSells(s, e, now, g);
      BoughtAppend(log, Issued(s, e, now), g);
    }
  }

  lemma MarkLedgered(s: StoreState, log: seq<Entry>, processed: set<EventId>)
    requires Ledgered(s, log)
    ensures Ledgered(s.(processed := processed), log)
  {}

  /** Every event keeps the store and the ledger in agreement. */
  lemma EventLedgered(s: StoreState, log: seq<Entry>, e: Event, now: Time)
    requires Ledgered(s, log) && Effect(s, e, now).Some?
    ensures Ledgered(Effect(s, e, now).value, log + Issued(s, e, now))
  {
    EventCredited(s, log, e, now);
    EventSales(s, log, e, now);
    var after := Writes(s, e, now).value;
    MarkLedgered(after, log + Issued(s, e, now), after.processed + {e.id});
  }

  lemma EmptyLedgered()
    ensures Ledgered(EMPTY_STORE, [])
  {
    forall u ensures UserMatches(map[], [], u) {
      assert Map([], TermOf) == [] && Map([], EntryRecord) == [];
    }
  }

  /** `counted` is never lowered. */
  lemma FlagsOnlyRise(s: StoreState, e: Event, now: Time, u: UserId, g: GameId)
    requires Effect(s, e, now).Some?
    ensures Flag(s.ownerships, u, g) == Some(true) ==> Flag(Effect(s, e, now).value.ownerships, u, g) == Some(true)
    ensures Flag(s.ownerships, u, g).Some? ==> Flag(Effect(s, e, now).value.ownerships, u, g).Some?
  {
    EventFlags(s, e, now);
    match e
    case GamePublished(_, h, _, _) => CountAllFlags(s.ownerships, h, EarlyOwners(s, h), u, g);
    case PurchaseCompleted(_, v, h, _) => RaiseFlag(s.ownerships, v, h, h in s.games, u, g);
    case _ =>
  }

  lemma EventFlags(s: StoreState, e: Event, now: Time)
    requires Effect(s, e, now).Some?
    ensures Effect(s, e, now).value.ownerships == match e
      case GamePublished(_, h, _, _) => CountAll(s.ownerships, h, EarlyOwners(s, h))
      case PurchaseCompleted(_, v, h, _) => Raise(s.ownerships, v, h, h in s.games)
      case _ => s.ownerships
  {
    match e
    case GamePublished(_, _, _, _) => PublicationWritten(s, e, now);
    case PurchaseCompleted(_, v, h, at) => PurchaseWritten(s, v, h, MomentOf(at, now));
    case _ =>
  }

  /** The catalogue after an event. */
  function GamesAfter(s: StoreState, e: Event): Games {
    match e
    case GamePublished(_, g, _, _) =>
      var game := Described(s, e);
      if game.Some? then s.games[g := game.value] else s.games
    case GameWithdrawn(_, g) => if g in s.games then s.games[g := s.games[g].Withdrawn()] else s.games
    case PurchaseCompleted(_, _, g, _) => if g in s.games then s.games[g := s.games[g].Bought()] else s.games
    case ReviewPosted(_, _, _, _, _) => s.games
  }

  lemma EventGames(s: StoreState, e: Event, now: Time)
    requires Writes(s, e, now).Some?
    ensures Writes(s, e, now).value.games == GamesAfter(s, e)
  {
    match e
    case GamePublished(_, _, _, _) => PublicationWritten(s, e, now);
    case GameWithdrawn(_, _) =>
    case PurchaseCompleted(_, v, h, at) => PurchaseWritten(s, v, h, MomentOf(at, now));
    case ReviewPosted(_, _, _, _, _) => ReviewKeepsGames(s, e, now);
  }

  lemma ReviewKeepsGames(s: StoreState, e: Event, now: Time)
    requires e.ReviewPosted? && Writes(s, e, now).Some?
    ensures Writes(s, e, now).value.games == s.games
  {}

  lemma PublicationWritten(s: StoreState, e: Event, now: Time)
    requires e.GamePublished? && PublicationWrites(s, e, now).Some?
    ensures var t := PublicationWrites(s, e, now).value;
      && Described(s, e).Some?
      && t == s.(games := s.games[e.game := Described(s, e).value], preferences := t.preferences,
                 ownerships := CountAll(s.ownerships, e.game, EarlyOwners(s, e.game)))
  {}

  lemma PurchaseWritten(s: StoreState, user: UserId, g: GameId, at: Time)
    requires PurchaseWrites(s, user, g, at).Some?
    ensures var t := PurchaseWrites(s, user, g, at).value;
      t == s.(games := if g in s.games then s.games[g := s.games[g].Bought()] else s.games,
              preferences := t.preferences,
              ownerships := Raise(s.ownerships, user, g, g in s.games))
  {}

  /** Ingest writes games, profiles and rows only. */
  lemma EventFrame(s: StoreState, e: Event, now: Time)
    requires Writes(s, e, now).Some?
    ensures var t := Writes(s, e, now).value;
      t.recommendations == s.recommendations && t.outbox == s.outbox && t.processed == s.processed
  {
    match e
    case GamePublished(_, _, _, _) => PublicationWritten(s, e, now);
    case PurchaseCompleted(_, v, h, at) => PurchaseWritten(s, v, h, MomentOf(at, now));
    case _ =>
  }

  // ---------------------------------------------------------------- when an event is refused

  /** Crediting owners with a game that has no vector never fails. */
  lemma {:induction false} BackfillAccepted(preferences: Preferences, owners: seq<UserId>, game: Game, at: Time)
    requires game.dense == []
    ensures Backfill(preferences, owners, game, at).Some?
  {
    if owners != [] { BackfillAccepted(preferences, owners[..|owners| - 1], game, at); }
  }

  /** A purchase or a review of a known game whose vector and the user's taste have different widths. */
  predicate WidthsClash(s: StoreState, user: UserId, g: GameId) {
    g in s.games && Clash(PreferenceOf(s.preferences, user).tasteDense, s.games[g].dense)
  }

  /** In any state, an event is refused exactly when it publishes an inadmissible description, since a described game
      has no vector, or buys or reviews a known game whose width clashes with the user's taste. */
  lemma EventRefusedIff(s: StoreState, e: Event, now: Time)
    ensures Effect(s, e, now).None? <==> match e
      case GamePublished(_, _, _, d) => d.title == "" || |d.title| > 200 || d.oversized
      case GameWithdrawn(_, _) => false
      case PurchaseCompleted(_, user, g, _) => WidthsClash(s, user, g)
      case ReviewPosted(_, user, g, _, _) => WidthsClash(s, user, g)
  {
    if e.GamePublished? && Described(s, e).Some? {
      BackfillAccepted(s.preferences, EarlyOwners(s, e.game), Described(s, e).value, now);
    }
  }
}
