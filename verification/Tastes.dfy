/** What a user's taste is in every reachable state, in terms of the events that took effect. */
module Tastes {
  import opened Ordering
  import opened Vectors
  import opened Catalog
  import opened Preference
  import opened Store
  import opened Ingest
  import opened Ledger
  import opened Outcomes
  import opened Scoring
  import opened System
  import D = Delivery
  import G = Generate

  /** How often a user was credited with a game that carries a feature: bought, liked and disliked. */
  datatype Tally = Tally(bought: nat, likes: nat, dislikes: nat)
  {
    function Plus(other: Tally): Tally {
      Tally(bought + other.bought, likes + other.likes, dislikes + other.dislikes)
    }

    function Weight(): real {
      bought as real + 0.5 * likes as real - 0.3 * dislikes as real
    }
  }

  const NOTHING := Tally(0, 0, 0)

  function Counted(yes: bool): nat {
    if yes then 1 else 0
  }

  /** A known game carries the feature. */
  predicate Carries(s: StoreState, g: GameId, f: Feature) {
    g in s.games && f in s.games[g].embedding
  }

  /** What an event that takes effect adds. */
  function EventTally(s: StoreState, e: Event, u: UserId, f: Feature): Tally {
    match e
    case GamePublished(_, g, _, description) =>
      Tally(Counted(f in description.features && EarlyOwner(s, g, u)), 0, 0)
    case GameWithdrawn(_, _) => NOTHING
    case PurchaseCompleted(_, v, g, _) => Tally(Counted(v == u && Carries(s, g, f)), 0, 0)
    case ReviewPosted(_, v, g, liked, _) =>
      Tally(0, Counted(v == u && Carries(s, g, f) && liked), Counted(v == u && Carries(s, g, f) && !liked))
  }

  function ActionTally(w: World, a: Action, u: UserId, f: Feature): Tally {
    if Effective(w, a).Some? then EventTally(w.store, Effective(w, a).value, u, f) else NOTHING
  }

  function TallyOf(actions: seq<Action>, config: G.Config, u: UserId, f: Feature): Tally {
    if actions == [] then NOTHING else
    var front := actions[..|actions| - 1];
    TallyOf(front, config, u, f).Plus(ActionTally(Reached(front, config), actions[|actions| - 1], u, f))
  }

  function TasteAt(preferences: Preferences, u: UserId, f: Feature): real {
    At(PreferenceOf(preferences, u).taste, f)
  }

  // ---------------------------------------------------------------- one event

  lemma CreditTaste(preferences: Preferences, user: UserId, game: Game, kind: SignalKind, at: Time, u: UserId,
                    f: Feature)
    requires Credit(preferences, user, game, kind, at).Some?
    ensures var w := match kind case PURCHASE => 1.0 case REVIEW_LIKE => 0.5 case REVIEW_DISLIKE => -0.3;
      TasteAt(Credit(preferences, user, game, kind, at).value, u, f)
      == TasteAt(preferences, u, f) + if u == user then w * At(game.embedding, f) else 0.0
  {
    CreditedProfile(preferences, user, game, kind, at, u);
    ActionMoves(PreferenceOf(preferences, user), game, kind, at, f, 0);
  }

  lemma {:induction false} BackfillTaste(preferences: Preferences, owners: seq<UserId>, game: Game, at: Time, u: UserId,
                                         f: Feature)
    requires Backfill(preferences, owners, game, at).Some? && Distinct(owners)
    ensures TasteAt(Backfill(preferences, owners, game, at).value, u, f)
         == TasteAt(preferences, u, f) + if u in owners then At(game.embedding, f) else 0.0
  {
    if owners != [] {
      var front, last := owners[..|owners| - 1], owners[|owners| - 1];
      BackfillLast(preferences, owners, game, at);
      BackfillTaste(preferences, front, game, at, u, f);
      LastIsNew(owners);
      OneMoreTaste(Backfill(preferences, front, game, at).value, last, game, at, u, f);
      LastMember(owners, u);
    }
  }

  lemma OneMoreTaste(preferences: Preferences, owner: UserId, game: Game, at: Time, u: UserId, f: Feature)
    requires Credit(preferences, owner, game, PURCHASE, at).Some?
    ensures TasteAt(Credit(preferences, owner, game, PURCHASE, at).value, u, f)
         == TasteAt(preferences, u, f) + if u == owner then At(game.embedding, f) else 0.0
  {
    CreditTaste(preferences, owner, game, PURCHASE, at, u, f);
  }

  lemma PublicationTaste(s: StoreState, e: Event, now: Time, u: UserId, f: Feature)
    requires e.GamePublished? && Writes(s, e, now).Some?
    ensures TasteAt(Writes(s, e, now).value.preferences, u, f)
         == TasteAt(s.preferences, u, f) + EventTally(s, e, u, f).Weight()
  {
    var game := Described(s, e).value;
    BackfillTaste(s.preferences, EarlyOwners(s, e.game), game, now, u, f);
    EarlyOwnerIs(s, e.game, u);
    assert At(game.embedding, f) == if f in e.description.features then 1.0 else 0.0;
  }

  lemma KnownWeight(s: StoreState, g: GameId, f: Feature)
    requires TokensUnweighted(s.games) && g in s.games
    ensures At(s.games[g].embedding, f) == if Carries(s, g, f) then 1.0 else 0.0
  {}

  lemma EventTaste(s: StoreState, e: Event, now: Time, u: UserId, f: Feature)
    requires TokensUnweighted(s.games) && Writes(s, e, now).Some?
    ensures TasteAt(Writes(s, e, now).value.preferences, u, f)
         == TasteAt(s.preferences, u, f) + EventTally(s, e, u, f).Weight()
  {
    match e
    case GamePublished(_, _, _, _) => PublicationTaste(s, e, now, u, f);
    case GameWithdrawn(_, _) =>
    case PurchaseCompleted(_, _, _, _) => if e.game in s.games { PurchaseTaste(s, e, now, u, f); }
    case ReviewPosted(_, _, _, _, _) => if e.game in s.games { ReviewTaste(s, e, now, u, f); }
  }

  lemma PurchaseTaste(s: StoreState, e: Event, now: Time, u: UserId, f: Feature)
    requires TokensUnweighted(s.games) && e.PurchaseCompleted? && e.game in s.games && Writes(s, e, now).Some?
    ensures TasteAt(Writes(s, e, now).value.preferences, u, f)
         == TasteAt(s.preferences, u, f) + EventTally(s, e, u, f).Weight()
  {
    KnownWeight(s, e.game, f);
    CreditTaste(s.preferences, e.user, s.games[e.game], PURCHASE, MomentOf(e.occurredAt, now), u, f);
  }

  lemma ReviewTaste(s: StoreState, e: Event, now: Time, u: UserId, f: Feature)
    requires TokensUnweighted(s.games) && e.ReviewPosted? && e.game in s.games && Writes(s, e, now).Some?
    ensures TasteAt(Writes(s, e, now).value.preferences, u, f)
         == TasteAt(s.preferences, u, f) + EventTally(s, e, u, f).Weight()
  {
    var kind := if e.liked then REVIEW_LIKE else REVIEW_DISLIKE;
    KnownWeight(s, e.game, f);
    CreditTaste(s.preferences, e.user, s.games[e.game], kind, MomentOf(e.occurredAt, now), u, f);
  }

  // ---------------------------------------------------------------- whole runs

  lemma NextTaste(w: World, a: Action, config: G.Config, u: UserId, f: Feature)
    requires Fit(w)
    ensures TasteAt(Next(w, a, config).store.preferences, u, f)
         == TasteAt(w.store.preferences, u, f) + ActionTally(w, a, u, f).Weight()
  {
    match a
    case Deliver(attempt) =>
      DeliveredWrites(w, a, config);
      if Effective(w, a).Some? { EventTaste(w.store, Effective(w, a).value, attempt.now, u, f); }
    case Generate(_) => GeneratedWrites(w, a, config);
    case _ => PassWrites(w, a, config, 0);
  }

  lemma WeightAdds(x: Tally, y: Tally)
    ensures x.Plus(y).Weight() == x.Weight() + y.Weight()
  {}

  /** In every reachable state a user's taste for a feature is the number of credited purchases, early ones included, of
      games that carried it, plus half the likes, minus three tenths of the dislikes. */
  lemma {:induction false} TasteIsTally(actions: seq<Action>, config: G.Config, u: UserId, f: Feature)
    ensures var tally := TallyOf(actions, config, u, f);
      At(PreferenceOf(StoreAt(actions, config).preferences, u).taste, f)
      == tally.bought as real + 0.5 * tally.likes as real - 0.3 * tally.dislikes as real
  {
    if actions != [] {
      var front, last := actions[..|actions| - 1], actions[|actions| - 1];
      TasteIsTally(front, config, u, f);
      AlwaysFit(front, config);
      NextTaste(Reached(front, config), last, config, u, f);
      WeightAdds(TallyOf(front, config, u, f), ActionTally(Reached(front, config), last, u, f));
    }
  }

  // ---------------------------------------------------------------- when, and how often

  predicate TouchedBy(w: World, a: Action, u: UserId) {
    Effective(w, a).Some? && Touches(w.store, Effective(w, a).value, u)
  }

  /** How many actions of the user took effect, and when the last one happened. */
  function TouchCount(actions: seq<Action>, config: G.Config, u: UserId): nat {
    if actions == [] then 0 else
    var front := actions[..|actions| - 1];
    TouchCount(front, config, u) + if TouchedBy(Reached(front, config), actions[|actions| - 1], u) then 1 else 0
  }

  function LastTouch(actions: seq<Action>, config: G.Config, u: UserId): Option<Time> {
    if actions == [] then None else
    var front, last := actions[..|actions| - 1], actions[|actions| - 1];
    if TouchedBy(Reached(front, config), last, u)
    then Some(Happened(Effective(Reached(front, config), last).value, last.attempt.now))
    else LastTouch(front, config, u)
  }

  lemma NextTouch(w: World, a: Action, config: G.Config, u: UserId)
    ensures var p, q := PreferenceOf(w.store.preferences, u), PreferenceOf(Next(w, a, config).store.preferences, u);
      if TouchedBy(w, a, u)
      then q.signalCount == p.signalCount + 1 && q.updatedAt == Some(Happened(Effective(w, a).value, a.attempt.now))
      else q.signalCount == p.signalCount && q.updatedAt == p.updatedAt
  {
    match a
    case Deliver(attempt) =>
      DeliveredWrites(w, a, config);
      if Effective(w, a).Some? { ProfileAfter(w.store, Effective(w, a).value, attempt.now, u); }
    case Generate(_) => GeneratedWrites(w, a, config);
    case _ => PassWrites(w, a, config, 0);
  }

  /** In every reachable state a profile counts the user's actions that took effect and carries the moment of the
      last, or none when there was no action. */
  lemma {:induction false} SignalsAreTouches(actions: seq<Action>, config: G.Config, u: UserId)
    ensures var p := PreferenceOf(StoreAt(actions, config).preferences, u);
      p.signalCount == TouchCount(actions, config, u) && p.updatedAt == LastTouch(actions, config, u)
  {
    if actions != [] {
      var front, last := actions[..|actions| - 1], actions[|actions| - 1];
      SignalsAreTouches(front, config, u);
      NextTouch(Reached(front, config), last, config, u);
    }
  }
}
