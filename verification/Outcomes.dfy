/** What each event leaves behind, field by field, in the system's own terms. */
module Outcomes {
  import opened Ordering
  import opened Vectors
  import opened Catalog
  import opened Preference
  import opened Store
  import opened Ingest
  import opened Ledger
  import opened Scoring

  /** The user bought the game before it was described, and is among the first five hundred who did. */
  predicate EarlyOwner(s: StoreState, g: GameId, u: UserId) {
    exists i :: 0 <= i < 500 && i < |Uncounted(RowsOf(s.ownerships, g))| && Uncounted(RowsOf(s.ownerships, g))[i] == u
  }

  lemma EarlyOwnerIs(s: StoreState, g: GameId, u: UserId)
    ensures u in EarlyOwners(s, g) <==> EarlyOwner(s, g, u)
  {
    var uncounted, early := Uncounted(RowsOf(s.ownerships, g)), EarlyOwners(s, g);
    if u in early {
      var i :| 0 <= i < |early| && early[i] == u;
      assert uncounted[i] == u;
    }
    if EarlyOwner(s, g, u) {
      var i :| 0 <= i < 500 && i < |uncounted| && uncounted[i] == u;
      assert early[i] == u;
    }
  }

  /** Every game after an event: a publication sets the words and publishes, a withdrawal unpublishes, a purchase
      counts. */
  lemma CatalogueAfter(s: StoreState, e: Event, now: Time, g: GameId)
    requires Writes(s, e, now).Some?
    ensures var games := Writes(s, e, now).value.games;
      var published := e.GamePublished? && e.game == g;
      && (g in games <==> g in s.games || published)
      && (g in games ==>
            && games[g].id == g
            && games[g].developer == (if g in s.games then s.games[g].developer else e.developer)
            && games[g].title == (if published then e.description.title else s.games[g].title)
            && (games[g].isPublished <==> published || (s.games[g].isPublished && !(e.GameWithdrawn? && e.game == g)))
            && games[g].purchaseCount == (if g in s.games then s.games[g].purchaseCount else 0)
                                         + (if e.PurchaseCompleted? && e.game == g then 1 else 0)
            && (forall f :: f in games[g].embedding <==>
                  if published then f in e.description.features else f in s.games[g].embedding)
            && (if published then Unweighted(games[g].embedding) && games[g].dense == []
                else games[g].embedding == s.games[g].embedding && games[g].dense == s.games[g].dense))
  {
    EventGames(s, e, now);
  }

  /** Every ownership row after an event: the early owners of a published game are counted, and a purchase leaves a
      row that is counted when the game is known or it was counted before. */
  lemma RowsAfter(s: StoreState, e: Event, now: Time, u: UserId, g: GameId)
    requires Writes(s, e, now).Some?
    ensures Flag(Writes(s, e, now).value.ownerships, u, g) ==
      if e.GamePublished? && e.game == g && EarlyOwner(s, g, u) then Some(true)
      else if e.PurchaseCompleted? && e.game == g && e.user == u
      then Some(g in s.games || Flag(s.ownerships, u, g) == Some(true))
      else Flag(s.ownerships, u, g)
  {
    match e
    case GamePublished(_, h, _, _) =>
      PublicationWritten(s, e, now);
      CountAllFlags(s.ownerships, h, EarlyOwners(s, h), u, g);
      EarlyOwnerIs(s, g, u);
    case PurchaseCompleted(_, v, h, at) =>
      PurchaseWritten(s, v, h, MomentOf(at, now));
      RaiseFlag(s.ownerships, v, h, h in s.games, u, g);
    case _ =>
  }

  /** The event acts on the user through a game that is known, or that it describes. */
  predicate Touches(s: StoreState, e: Event, u: UserId) {
    match e
    case GamePublished(_, g, _, _) => EarlyOwner(s, g, u)
    case GameWithdrawn(_, _) => false
    case PurchaseCompleted(_, v, g, _) => v == u && g in s.games
    case ReviewPosted(_, v, g, _, _) => v == u && g in s.games
  }

  /** When the action of an event happened: as the event says, or on arrival. */
  function Happened(e: Event, now: Time): Time {
    match e
    case PurchaseCompleted(_, _, _, at) => if at.Some? then at.value else now
    case ReviewPosted(_, _, _, _, at) => if at.Some? then at.value else now
    case _ => now
  }

  /** One more action of a weight, on a game, at a moment. */
  predicate OneMore(p: UserPreference, q: UserPreference, g: GameId, kind: SignalKind, at: Time) {
    var w := match kind case PURCHASE => 1.0 case REVIEW_LIKE => 0.5 case REVIEW_DISLIKE => -0.3;
    && q.updatedAt == Some(at) && q.signalCount == p.signalCount + 1
    && q.owned == p.owned + (if kind.PURCHASE? then {g} else {})
    && q.history == (if |p.history| < 200 then p.history else p.history[|p.history| - 199..]) + [SignalRecord(g, w)]
  }

  /** What the action of an event is. */
  function Acted(e: Event): SignalKind {
    match e
    case ReviewPosted(_, _, _, liked, _) => if liked then REVIEW_LIKE else REVIEW_DISLIKE
    case _ => PURCHASE
  }

  /** Every profile after an event: one more action, at its moment, with its weight in the history and, for a purchase,
      its game in the owned set; and nothing for anybody the event does not touch. */
  lemma ProfileAfter(s: StoreState, e: Event, now: Time, u: UserId)
    requires Writes(s, e, now).Some?
    ensures var p, q := PreferenceOf(s.preferences, u), PreferenceOf(Writes(s, e, now).value.preferences, u);
      if Touches(s, e, u) then OneMore(p, q, e.game, Acted(e), Happened(e, now)) else q == p
  {
    match e
    case GamePublished(_, g, _, _) =>
      EarlyOwnerIs(s, g, u);
      BackfillProfile(s.preferences, EarlyOwners(s, g), Described(s, e).value, now, u);
    case GameWithdrawn(_, _) =>
    case PurchaseCompleted(_, _, _, _) => if e.game in s.games { PurchaseProfile(s, e, now, u); }
    case ReviewPosted(_, _, _, _, _) => if e.game in s.games { ReviewProfile(s, e, now, u); }
  }

  lemma PurchaseProfile(s: StoreState, e: Event, now: Time, u: UserId)
    requires e.PurchaseCompleted? && e.game in s.games && Writes(s, e, now).Some?
    ensures var p, q := PreferenceOf(s.preferences, u), PreferenceOf(Writes(s, e, now).value.preferences, u);
      if e.user == u then OneMore(p, q, e.game, Acted(e), Happened(e, now)) else q == p
  {
    PurchaseCredits(s, e, now);
    CreditProfile(s.preferences, e.user, s.games[e.game], PURCHASE, MomentOf(e.occurredAt, now), u);
  }

  lemma PurchaseCredits(s: StoreState, e: Event, now: Time)
    requires e.PurchaseCompleted? && e.game in s.games && Writes(s, e, now).Some?
    ensures Credit(s.preferences, e.user, s.games[e.game], PURCHASE, MomentOf(e.occurredAt, now))
         == Some(Writes(s, e, now).value.preferences)
  {}

  lemma ReviewProfile(s: StoreState, e: Event, now: Time, u: UserId)
    requires e.ReviewPosted? && e.game in s.games && Writes(s, e, now).Some?
    ensures var p, q := PreferenceOf(s.preferences, u), PreferenceOf(Writes(s, e, now).value.preferences, u);
      if e.user == u then OneMore(p, q, e.game, Acted(e), Happened(e, now)) else q == p
  {
    ReviewCredits(s, e, now);
    CreditProfile(s.preferences, e.user, s.games[e.game], Acted(e), MomentOf(e.occurredAt, now), u);
  }

  lemma ReviewCredits(s: StoreState, e: Event, now: Time)
    requires e.ReviewPosted? && e.game in s.games && Writes(s, e, now).Some?
    ensures Credit(s.preferences, e.user, s.games[e.game], Acted(e), MomentOf(e.occurredAt, now))
         == Some(Writes(s, e, now).value.preferences)
  {}

  lemma CreditProfile(preferences: Preferences, user: UserId, game: Game, kind: SignalKind, at: Time, u: UserId)
    requires Credit(preferences, user, game, kind, at).Some?
    ensures var p, q := PreferenceOf(preferences, u),
                        PreferenceOf(Credit(preferences, user, game, kind, at).value, u);
      if u == user then OneMore(p, q, game.id, kind, at) else q == p
  {
    CreditedProfile(preferences, user, game, kind, at, u);
    ActionRecorded(PreferenceOf(preferences, user), game, kind, at);
  }

  lemma {:induction false} BackfillProfile(preferences: Preferences, owners: seq<UserId>, game: Game, at: Time,
                                           u: UserId)
    requires Backfill(preferences, owners, game, at).Some? && Distinct(owners)
    ensures var p, q := PreferenceOf(preferences, u),
                        PreferenceOf(Backfill(preferences, owners, game, at).value, u);
      if u in owners then OneMore(p, q, game.id, PURCHASE, at) else q == p
  {
    if owners != [] {
      var front, last := owners[..|owners| - 1], owners[|owners| - 1];
      BackfillLast(preferences, owners, game, at);
      BackfillProfile(preferences, front, game, at, u);
      CreditProfile(Backfill(preferences, front, game, at).value, last, game, PURCHASE, at, u);
      LastIsNew(owners);
      LastMember(owners, u);
    }
  }

  lemma BackfillLast(preferences: Preferences, owners: seq<UserId>, game: Game, at: Time)
    requires owners != [] && Backfill(preferences, owners, game, at).Some?
    ensures var front := Backfill(preferences, owners[..|owners| - 1], game, at);
      && front.Some?
      && Credit(front.value, owners[|owners| - 1], game, PURCHASE, at) == Backfill(preferences, owners, game, at)
  {}

  lemma LastIsNew(owners: seq<UserId>)
    requires owners != [] && Distinct(owners)
    ensures owners[|owners| - 1] !in owners[..|owners| - 1]
  {}
}
