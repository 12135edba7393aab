/** `application/usecases/ingest.py`: the four event handlers, each one transaction. */
module Ingest {
  import opened Ordering
  import opened Vectors
  import opened Catalog
  import opened Preference
  import opened Store

  /** `backfill_limit` */
  const BACKFILL_LIMIT: nat := 500

  datatype Event =
    | GamePublished(id: EventId, game: GameId, developer: UserId, description: Description)
    | GameWithdrawn(id: EventId, game: GameId)
    | PurchaseCompleted(id: EventId, user: UserId, game: GameId, occurredAt: Option<Time>)
    | ReviewPosted(id: EventId, user: UserId, game: GameId, liked: bool, occurredAt: Option<Time>)

  function MomentOf(occurredAt: Option<Time>, now: Time): Time {
    if occurredAt.Some? then occurredAt.value else now
  }

  // ---------------------------------------------------------------- what each event does to the state

  /** One action folded into one user's profile. */
  function Credit(preferences: Preferences, user: UserId, game: Game, kind: SignalKind, at: Time): Option<Preferences> {
    var p :- Observe(PreferenceOf(preferences, user), game, kind, at);
    Some(Filed(preferences, p))
  }

  /** Every listed owner is credited with the purchase, in order. */
  function Backfill(preferences: Preferences, owners: seq<UserId>, game: Game, at: Time): Option<Preferences> {
    if owners == [] then Some(preferences) else
    var before :- Backfill(preferences, owners[..|owners| - 1], game, at);
    Credit(before, owners[|owners| - 1], game, PURCHASE, at)
  }

  /** The owners a publication credits: the first 500 whose purchase came before the description. */
  function EarlyOwners(s: StoreState, game: GameId): (r: seq<UserId>)
    ensures Distinct(r)
    ensures forall u :: u in r ==> Flag(s.ownerships, u, game) == Some(false)
  {
    Take(Uncounted(RowsOf(s.ownerships, game)), BACKFILL_LIMIT)
  }

  function Described(s: StoreState, e: Event): (game: Option<Game>)
    requires e.GamePublished?
    ensures game.Some? ==> game.value.id == e.game
  {
    if e.game in s.games then Redescribed(s.games[e.game], e.description)
    else Published(e.game, e.developer, e.description)
  }

  /** The writes of an event; `None` when the handler raises. */
  function Writes(s: StoreState, e: Event, now: Time): Option<StoreState> {
    match e
    case GamePublished(_, _, _, _) => PublicationWrites(s, e, now)
    case GameWithdrawn(_, g) =>
      if g !in s.games then Some(s) else Some(s.(games := s.games[g := s.games[g].Withdrawn()]))
    case PurchaseCompleted(_, u, g, at) => PurchaseWrites(s, u, g, MomentOf(at, now))
    case ReviewPosted(_, u, g, liked, at) =>
      if g !in s.games then Some(s) else
      var preferences :- Credit(s.preferences, u, s.games[g], if liked then REVIEW_LIKE else REVIEW_DISLIKE,
        MomentOf(at, now));
      Some(s.(preferences := preferences))
  }

  function PublicationWrites(s: StoreState, e: Event, now: Time): Option<StoreState>
    requires e.GamePublished?
  {
    var game :- Described(s, e);
    var owners := EarlyOwners(s, e.game);
    var preferences :- Backfill(s.preferences, owners, game, now);
    Some(s.(games := s.games[e.game := game], preferences := preferences,
            ownerships := CountAll(s.ownerships, e.game, owners)))
  }

  function PurchaseWrites(s: StoreState, user: UserId, g: GameId, at: Time): Option<StoreState> {
    if g !in s.games then Some(s.(ownerships := Raise(s.ownerships, user, g, false))) else
    var preferences :- Credit(s.preferences, user, s.games[g], PURCHASE, at);
    Some(s.(games := s.games[g := s.games[g].Bought()], preferences := preferences,
            ownerships := Raise(s.ownerships, user, g, true)))
  }

  /** The effect of an event, without looking at whether it was handled before: its writes and the mark. */
  function Effect(s: StoreState, e: Event, now: Time): Option<StoreState> {
    var r :- Writes(s, e, now);
    Some(r.(processed := r.processed + {e.id}))
  }

  /** A handler does nothing for an event it has already handled. */
  function Handled(s: StoreState, e: Event, now: Time): Option<StoreState> {
    if e.id in s.processed then Some(s) else Effect(s, e, now)
  }

  // ---------------------------------------------------------------- the handlers

  datatype Outcome = Done | Raised

  /** One attempt at an event; a fault before the commit is an attempt that raises. */
  function Attempted(s: StoreState, e: Event, now: Time, fault: bool): Option<StoreState> {
    if fault && e.id !in s.processed then None else Handled(s, e, now)
  }

  /** What the store holds after an attempt: the new state, or the old one when the handler raised. */
  function After(s: StoreState, r: Option<StoreState>): StoreState {
    if r.Some? then r.value else s
  }

  /** Reads a profile, folds one action into it and stages it; false when the profile rejects the game's vector. */
  method CreditUser(uow: UnitOfWork, user: UserId, game: Game, kind: SignalKind, at: Time) returns (ok: bool)
    modifies uow`preferences
    ensures var credited := Credit(old(uow.Merged()).preferences, user, game, kind, at);
      && (ok <==> credited.Some?)
      && (ok ==> uow.Merged() == old(uow.Merged()).(preferences := credited.value))
      && (!ok ==> uow.Merged() == old(uow.Merged()))
  {
    var found := uow.GetPreference(user);
    var preference := if found.Some? then found.value else Blank(user);
    assert preference == PreferenceOf(uow.Merged().preferences, user);
    var observed := Observe(preference, game, kind, at);
    if observed.None? { return false; }
    uow.UpsertPreference(observed.value);
    ok := true;
  }

  /** The writes of `GamePublished`, staged; false when the description or a profile is rejected. */
  method StagePublished(uow: UnitOfWork, e: Event, now: Time) returns (ok: bool)
    requires e.GamePublished? && uow.ownerships == []
    modifies uow`games, uow`preferences, uow`ownerships
    ensures Staged(old(uow.Merged()), e, now, uow.Merged(), ok)
  {
    var existing := uow.GetGame(e.game);
    var described := if existing.Some? then Redescribed(existing.value, e.description)
                     else Published(e.game, e.developer, e.description);
    if described.None? { return false; }
    uow.UpsertGame(described.value);
    ok := BackfillOwners(uow, described.value, now);
  }

  /** What staging an event has to achieve: all of its effect but the mark, or a refusal. */
  predicate Staged(before: StoreState, e: Event, now: Time, after: StoreState, ok: bool) {
    var r := Writes(before, e, now);
    ok == r.Some? && (ok ==> after == r.value)
  }

  /** `_backfill`; false when a profile rejects the game's vector. */
  method BackfillOwners(uow: UnitOfWork, game: Game, at: Time) returns (ok: bool)
    requires uow.ownerships == []
    modifies uow`preferences, uow`ownerships
    ensures var s := old(uow.Merged());
      var owners := EarlyOwners(s, game.id);
      var preferences := Backfill(s.preferences, owners, game, at);
      && (ok <==> preferences.Some?)
      && (ok ==> uow.Merged() == s.(preferences := preferences.value,
                                    ownerships := CountAll(s.ownerships, game.id, owners)))
  {
    var owners := uow.UncountedOwners(game.id, BACKFILL_LIMIT);
    ok := CreditOwners(uow, owners, game, at);
    if ok { uow.MarkCounted(game.id, owners); }
  }

  /** The loop of `_backfill`. */
  method CreditOwners(uow: UnitOfWork, owners: seq<UserId>, game: Game, at: Time) returns (ok: bool)
    modifies uow`preferences
    ensures var preferences := Backfill(old(uow.Merged()).preferences, owners, game, at);
      && (ok <==> preferences.Some?)
      && (ok ==> uow.Merged() == old(uow.Merged()).(preferences := preferences.value))
  {
    ghost var before := uow.Merged();
    for i := 0 to |owners|
      invariant Backfill(before.preferences, owners[..i], game, at).Some?
      invariant uow.Merged() == before.(preferences := Backfill(before.preferences, owners[..i], game, at).value)
    {
      BackfillStep(before.preferences, owners, i, game, at);
      var credited := CreditUser(uow, owners[i], game, PURCHASE, at);
      if !credited {
        BackfillFails(before.preferences, owners, i + 1, game, at);
        return false;
      }
    }
    assert owners[..|owners|] == owners;
    ok := true;
  }

  lemma BackfillStep(preferences: Preferences, owners: seq<UserId>, i: nat, game: Game, at: Time)
    requires i < |owners| && Backfill(preferences, owners[..i], game, at).Some?
    ensures Backfill(preferences, owners[..i + 1], game, at)
         == Credit(Backfill(preferences, owners[..i], game, at).value, owners[i], game, PURCHASE, at)
  {
    assert owners[..i + 1][..i] == owners[..i];
  }

  lemma {:induction false} BackfillFails(preferences: Preferences, owners: seq<UserId>, n: nat, game: Game, at: Time)
    requires n <= |owners| && Backfill(preferences, owners[..n], game, at).None?
    ensures Backfill(preferences, owners, game, at).None?
    decreases |owners|
  {
    if n == |owners| {
      assert owners[..n] == owners;
    } else {
      assert owners[..|owners| - 1][..n] == owners[..n];
      BackfillFails(preferences, owners[..|owners| - 1], n, game, at);
    }
  }

  method StageWithdrawn(uow: UnitOfWork, e: Event, now: Time) returns (ok: bool)
    requires e.GameWithdrawn?
    modifies uow`games
    ensures Staged(old(uow.Merged()), e, now, uow.Merged(), ok)
  {
    var found := uow.GetGame(e.game);
    if found.Some? {
      uow.UpsertGame(found.value.Withdrawn());
    }
    ok := true;
  }

  /** An unknown game leaves an uncounted ownership row; a known one also moves the taste and the counter. */
  method StagePurchase(uow: UnitOfWork, e: Event, now: Time) returns (ok: bool)
    requires e.PurchaseCompleted?
    modifies uow`games, uow`preferences, uow`ownerships
    ensures Staged(old(uow.Merged()), e, now, uow.Merged(), ok)
  {
    var found := uow.GetGame(e.game);
    if found.None? {
      uow.RecordOwnership(e.user, e.game, false);
      return true;
    }
    ok := CreditUser(uow, e.user, found.value, PURCHASE, MomentOf(e.occurredAt, now));
    if ok {
      uow.RecordOwnership(e.user, e.game, true);
      uow.UpsertGame(found.value.Bought());
    }
  }

  method StageReview(uow: UnitOfWork, e: Event, now: Time) returns (ok: bool)
    requires e.ReviewPosted?
    modifies uow`preferences
    ensures Staged(old(uow.Merged()), e, now, uow.Merged(), ok)
  {
    var found := uow.GetGame(e.game);
    if found.None? { return true; }
    var kind := if e.liked then REVIEW_LIKE else REVIEW_DISLIKE;
    ok := CreditUser(uow, e.user, found.value, kind, MomentOf(e.occurredAt, now));
  }

  method Stage(uow: UnitOfWork, e: Event, now: Time) returns (ok: bool)
    requires uow.ownerships == []
    modifies uow`games, uow`preferences, uow`ownerships
    ensures Staged(old(uow.Merged()), e, now, uow.Merged(), ok)
  {
    match e {
      case GamePublished(_, _, _, _) => ok := StagePublished(uow, e, now);
      case GameWithdrawn(_, _) => ok := StageWithdrawn(uow, e, now);
      case PurchaseCompleted(_, _, _, _) => ok := StagePurchase(uow, e, now);
      case ReviewPosted(_, _, _, _, _) => ok := StageReview(uow, e, now);
    }
  }

  /** One handler run: check, stage, mark and commit in one transaction, or leave nothing behind.
      `fault` stands for any failure of the infrastructure before the commit takes effect. */
  method Execute(store: MemoryStore, e: Event, now: Time, fault: bool) returns (outcome: Outcome)
    modifies store
    ensures store.View() == After(old(store.View()), Attempted(old(store.View()), e, now, fault))
    ensures outcome == Done <==> Attempted(old(store.View()), e, now, fault).Some?
  {
    var uow := new UnitOfWork(store);
    var seen := uow.Seen(e.id);
    if seen { outcome := Done; } else { outcome := Handle(uow, e, now, fault); }
    uow.Exit();
  }

  /** The handler proper, for an event not handled before. */
  method Handle(uow: UnitOfWork, e: Event, now: Time, fault: bool) returns (outcome: Outcome)
    requires uow.Merged() == uow.store.View() && uow.ownerships == [] && e.id !in uow.store.processed
    modifies uow, uow.store
    ensures uow.store.View() == After(old(uow.store.View()), Attempted(old(uow.store.View()), e, now, fault))
    ensures outcome == Done <==> Attempted(old(uow.store.View()), e, now, fault).Some?
  {
    var ok := Stage(uow, e, now);
    if ok && !fault {
      MarkAndCommit(uow, e.id);
      outcome := Done;
    } else {
      outcome := Raised;
    }
  }

  method MarkAndCommit(uow: UnitOfWork, id: EventId)
    modifies uow, uow.store
    ensures uow.store.View() == old(uow.Merged()).(processed := old(uow.Merged()).processed + {id})
  {
    uow.Mark(id);
    uow.Commit();
  }
}
