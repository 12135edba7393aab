/** The whole service: deliveries, generations and embedding passes interleaved, from an empty store. An embedding pass
    is two transactions with the provider's answer between them, so it is two actions, and any other action may come in
    between. */
module System {
  import opened Ordering
  import opened Vectors
  import opened Catalog
  import opened Preference
  import opened Recommendations
  import opened Store
  import opened Ingest
  import opened Ledger
  import opened Scoring
  import Confluence
  import CoPurchase
  import D = Delivery
  import G = Generate

  /** The store, and the snapshots of the embedding passes in flight, one a replica. */
  datatype World = World(store: StoreState, passes: map<int, seq<Game>>)

  const INITIAL := World(EMPTY_STORE, map[])

  datatype Action =
    | Deliver(attempt: D.Attempt)
    | Generate(call: G.Call)
    | Snapshot(pass: int, batch: nat)
    | WriteBack(pass: int, vectors: Option<seq<Dense>>)

  function Next(w: World, a: Action, config: G.Config): World {
    match a
    case Deliver(attempt) => w.(store := D.Step(w.store, attempt))
    case Generate(call) => w.(store := G.Generated(w.store, call, config))
    case Snapshot(pass, batch) => w.(passes := w.passes[pass := G.Pending(w.store.games, batch)])
    case WriteBack(pass, vectors) =>
      if pass !in w.passes then w else
      World(After(w.store, G.WrittenBack(w.store, w.passes[pass], vectors)), w.passes - {pass})
  }

  /** What a run of actions reaches. */
  function Reached(actions: seq<Action>, config: G.Config): World {
    if actions == [] then INITIAL else
    Next(Reached(actions[..|actions| - 1], config), actions[|actions| - 1], config)
  }

  lemma ReachedSnoc(actions: seq<Action>, a: Action, config: G.Config)
    ensures Reached(actions + [a], config) == Next(Reached(actions, config), a, config)
  {
    assert (actions + [a])[..|actions|] == actions;
  }

  function StoreAt(actions: seq<Action>, config: G.Config): StoreState {
    Reached(actions, config).store
  }

  /** Every credit the run issued. */
  function Credits(actions: seq<Action>, config: G.Config): seq<Entry> {
    if actions == [] then [] else
    var front, last := actions[..|actions| - 1], actions[|actions| - 1];
    Credits(front, config) + if last.Deliver? then D.Recorded(StoreAt(front, config), last.attempt) else []
  }

  /** The event an action applies. */
  function Effective(w: World, a: Action): Option<Event> {
    if a.Deliver? && a.attempt.message.Valid? && D.TakesEffect(w.store, a.attempt)
    then Some(a.attempt.message.event)
    else None
  }

  /** An action that lands a snapshot holding the game. */
  predicate Lands(w: World, a: Action, g: GameId) {
    && a.WriteBack? && a.pass in w.passes && G.Held(w.passes[a.pass], g).Some?
    && a.vectors.Some? && |a.vectors.value| == |w.passes[a.pass]|
  }

  // ---------------------------------------------------------------- what each action leaves alone

  /** Profiles that differ at most in the rebuilt dense vector. */
  ghost predicate SameButRebuilt(before: Preferences, after: Preferences) {
    forall u :: PreferenceOf(after, u) == PreferenceOf(before, u).(tasteDense := PreferenceOf(after, u).tasteDense)
  }

  lemma GeneratedProfiles(s: StoreState, call: G.Call, config: G.Config)
    ensures SameButRebuilt(s.preferences, G.Generated(s, call, config).preferences)
    ensures G.Generated(s, call, config).games == s.games && G.Generated(s, call, config).ownerships == s.ownerships
  {
    var plan := G.PlanFor(s, call.user, config);
    if plan.Listed? && G.Succeeds(s, call, config) {
      PlannedProfile(s, call.user, config);
      StoredProfiles(s.preferences, plan.preference, config);
    }
  }

  lemma PlannedProfile(s: StoreState, user: UserId, config: G.Config)
    requires G.PlanFor(s, user, config).Listed?
    ensures var p, q := PreferenceOf(s.preferences, user), G.PlanFor(s, user, config).preference;
      q == p.(tasteDense := q.tasteDense)
  {}

  lemma StoredProfiles(preferences: Preferences, q: UserPreference, config: G.Config)
    requires q == PreferenceOf(preferences, q.user).(tasteDense := q.tasteDense)
    ensures SameButRebuilt(preferences, G.PreferencesStored(preferences, q, config))
  {}

  /** Ingest never forgets a game. */
  lemma EventKeepsGames(s: StoreState, e: Event, now: Time, g: GameId)
    requires Writes(s, e, now).Some? && g in s.games
    ensures g in Writes(s, e, now).value.games
  {
    EventGames(s, e, now);
  }

  lemma DeliveredWrites(w: World, a: Action, config: G.Config)
    requires a.Deliver?
    ensures Next(w, a, config).passes == w.passes
    ensures var e, s, t := Effective(w, a), w.store, Next(w, a, config).store;
      && (e.None? ==> t == s.(processed := t.processed))
      && (e.Some? ==> Writes(s, e.value, a.attempt.now).Some?
                      && t == Writes(s, e.value, a.attempt.now).value.(processed := t.processed))
  {}

  lemma GeneratedWrites(w: World, a: Action, config: G.Config)
    requires a.Generate?
    ensures var s, t := w.store, Next(w, a, config).store;
      && Next(w, a, config).passes == w.passes
      && t == s.(preferences := t.preferences, recommendations := t.recommendations, outbox := t.outbox)
      && SameButRebuilt(s.preferences, t.preferences)
  {
    GeneratedProfiles(w.store, a.call, config);
  }

  /** A pass writes games only: those of its snapshot, as the snapshot holds them, with some vector. */
  lemma PassWrites(w: World, a: Action, config: G.Config, g: GameId)
    requires a.Snapshot? || a.WriteBack?
    ensures var s, t := w.store, Next(w, a, config).store;
      && t == s.(games := t.games)
      && (Lands(w, a, g) ==> g in t.games && exists v :: t.games[g] == G.Held(w.passes[a.pass], g).value.Embedded(v))
      && (!Lands(w, a, g) ==> (g in t.games <==> g in s.games) && (g in s.games ==> t.games[g] == s.games[g]))
  {
    if a.WriteBack? && a.pass in w.passes && a.vectors.Some? && |a.vectors.value| == |w.passes[a.pass]| {
      var pending := w.passes[a.pass];
      G.EmbedAllAt(w.store.games, pending, a.vectors.value, g);
      if pending == [] { assert G.EmbedAll(w.store.games, pending, a.vectors.value) == w.store.games; }
    }
  }

  /** A snapshot in flight holds known games, published, without a vector, and with unweighted tokens. */
  ghost predicate Fits(games: Games, pending: seq<Game>) {
    forall g :: G.Held(pending, g).Some? ==>
      var held := G.Held(pending, g).value;
      g in games && held.id == g && held.NeedsEmbedding() && Unweighted(held.embedding)
  }

  ghost predicate TokensUnweighted(games: Games) {
    forall g :: g in games ==> Unweighted(games[g].embedding)
  }

  ghost predicate Fit(w: World) {
    TokensUnweighted(w.store.games) && forall p :: p in w.passes ==> Fits(w.store.games, w.passes[p])
  }

  lemma SnapshotFits(games: Games, batch: nat)
    requires TokensUnweighted(games)
    ensures Fits(games, G.Pending(games, batch))
  {
    var pending := G.Pending(games, batch);
    G.PendingKnown(games, batch);
    forall g | G.Held(pending, g).Some?
      ensures var held := G.Held(pending, g).value;
        g in games && held.id == g && held.NeedsEmbedding() && Unweighted(held.embedding)
    {
      G.HeldMember(pending, g);
    }
  }

  lemma EventTokens(s: StoreState, e: Event, now: Time)
    requires TokensUnweighted(s.games) && Writes(s, e, now).Some?
    ensures TokensUnweighted(Writes(s, e, now).value.games)
  {
    EventGames(s, e, now);
    AfterTokens(s, e);
  }

  lemma AfterTokens(s: StoreState, e: Event)
    requires TokensUnweighted(s.games)
    ensures TokensUnweighted(GamesAfter(s, e))
  {
    var after := GamesAfter(s, e);
    if e.GamePublished? && Described(s, e).Some? { DescribedTokens(s, e); }
    forall g | g in after ensures Unweighted(after[g].embedding) {
      assert g != e.game ==> g in s.games && after[g] == s.games[g];
    }
  }

  lemma DescribedTokens(s: StoreState, e: Event)
    requires e.GamePublished? && Described(s, e).Some?
    ensures Unweighted(Described(s, e).value.embedding)
  {}

  lemma NextTokens(w: World, a: Action, config: G.Config)
    requires Fit(w)
    ensures TokensUnweighted(Next(w, a, config).store.games)
  {
    match a
    case Deliver(attempt) =>
      DeliveredWrites(w, a, config);
      if Effective(w, a).Some? { EventTokens(w.store, Effective(w, a).value, attempt.now); }
    case Generate(_) => GeneratedWrites(w, a, config);
    case _ =>
      forall g | g in Next(w, a, config).store.games ensures Unweighted(Next(w, a, config).store.games[g].embedding) {
        PassWrites(w, a, config, g);
      }
  }

  /** Games are never forgotten. */
  lemma NextKeepsGames(w: World, a: Action, config: G.Config, g: GameId)
    requires g in w.store.games
    ensures g in Next(w, a, config).store.games
  {
    match a
    case Deliver(attempt) =>
      DeliveredWrites(w, a, config);
      if Effective(w, a).Some? { EventKeepsGames(w.store, Effective(w, a).value, attempt.now, g); }
    case Generate(_) => GeneratedWrites(w, a, config);
    case _ => PassWrites(w, a, config, g);
  }

  lemma FitsLater(games: Games, later: Games, pending: seq<Game>)
    requires Fits(games, pending) && forall g :: g in games ==> g in later
    ensures Fits(later, pending)
  {}

  lemma NextFit(w: World, a: Action, config: G.Config)
    requires Fit(w)
    ensures Fit(Next(w, a, config))
  {
    var t := Next(w, a, config);
    NextTokens(w, a, config);
    forall g | g in w.store.games ensures g in t.store.games { NextKeepsGames(w, a, config, g); }
    forall p | p in t.passes ensures Fits(t.store.games, t.passes[p]) {
      if a.Snapshot? && p == a.pass { SnapshotFits(w.store.games, a.batch); }
      else { FitsLater(w.store.games, t.store.games, w.passes[p]); }
    }
  }

  lemma {:induction false} AlwaysFit(actions: seq<Action>, config: G.Config)
    ensures Fit(Reached(actions, config))
  {
    if actions != [] {
      AlwaysFit(actions[..|actions| - 1], config);
      NextFit(Reached(actions[..|actions| - 1], config), actions[|actions| - 1], config);
    }
  }

  // ---------------------------------------------------------------- conservation, whatever is interleaved

  lemma CreditedWithoutVectors(before: Preferences, after: Preferences, table: Ownerships, log: seq<Entry>)
    requires Credited(before, table, log) && SameButRebuilt(before, after)
    ensures Credited(after, table, log)
  {
    ProfilesWithoutVectors(before, after, log);
    OwnedWithoutVectors(before, after, table);
  }

  lemma ProfilesWithoutVectors(before: Preferences, after: Preferences, log: seq<Entry>)
    requires ProfilesMatch(before, log) && SameButRebuilt(before, after)
    ensures ProfilesMatch(after, log)
  {
    forall u ensures UserMatches(after, log, u) {
      assert UserMatches(before, log, u);
      RebuiltMatches(PreferenceOf(before, u), PreferenceOf(after, u), EntriesOf(log, u));
    }
  }

  lemma RebuiltMatches(p: UserPreference, q: UserPreference, mine: seq<Entry>)
    requires ProfileMatches(p, mine) && q == p.(tasteDense := q.tasteDense)
    ensures ProfileMatches(q, mine)
  {}

  lemma OwnedWithoutVectors(before: Preferences, after: Preferences, table: Ownerships)
    requires CountedIffOwned(before, table) && SameButRebuilt(before, after)
    ensures CountedIffOwned(after, table)
  {
    forall u, g ensures Flag(table, u, g) == Some(true) <==> g in PreferenceOf(after, u).owned {
      assert PreferenceOf(after, u).owned == PreferenceOf(before, u).owned;
      assert Flag(table, u, g) == Some(true) <==> g in PreferenceOf(before, u).owned;
    }
  }

  lemma DeliveryCredited(w: World, log: seq<Entry>, a: Action, config: G.Config)
    requires CreditedIn(w.store, log) && a.Deliver?
    ensures CreditedIn(Next(w, a, config).store, log + D.Recorded(w.store, a.attempt))
  {
    DeliveredWrites(w, a, config);
    if Effective(w, a).Some? {
      EventCredited(w.store, log, Effective(w, a).value, a.attempt.now);
      MarkCredited(Writes(w.store, Effective(w, a).value, a.attempt.now).value, Next(w, a, config).store,
                   log + D.Recorded(w.store, a.attempt));
    } else {
      assert log + [] == log;
      MarkCredited(w.store, Next(w, a, config).store, log);
    }
  }

  lemma MarkCredited(s: StoreState, t: StoreState, log: seq<Entry>)
    requires CreditedIn(s, log) && t.preferences == s.preferences && t.ownerships == s.ownerships
    ensures CreditedIn(t, log)
  {}

  lemma NextCredited(w: World, log: seq<Entry>, a: Action, config: G.Config)
    requires CreditedIn(w.store, log)
    ensures CreditedIn(Next(w, a, config).store, log + if a.Deliver? then D.Recorded(w.store, a.attempt) else [])
  {
    assert log + [] == log;
    match a
    case Deliver(_) => DeliveryCredited(w, log, a, config);
    case Generate(_) =>
      GeneratedWrites(w, a, config);
      CreditedWithoutVectors(w.store.preferences, Next(w, a, config).store.preferences, w.store.ownerships, log);
    case _ =>
      PassWrites(w, a, config, 0);
      MarkCredited(w.store, Next(w, a, config).store, log);
  }

  /** In every reachable state each profile is the weighted sum of the credits issued to its user, a row is counted
      exactly when its game is owned, and nobody was backfilled twice: no sweep and no pass disturbs them. */
  lemma {:induction false} AlwaysCredited(actions: seq<Action>, config: G.Config)
    ensures CreditedIn(StoreAt(actions, config), Credits(actions, config))
  {
    if actions == [] {
      EmptyLedgered();
    } else {
      var front := actions[..|actions| - 1];
      AlwaysCredited(front, config);
      NextCredited(Reached(front, config), Credits(front, config), actions[|actions| - 1], config);
    }
  }

  lemma NextFlags(w: World, a: Action, config: G.Config, u: UserId, g: GameId)
    ensures var s, t := w.store, Next(w, a, config).store;
      && (Flag(s.ownerships, u, g) == Some(true) ==> Flag(t.ownerships, u, g) == Some(true))
      && (Flag(s.ownerships, u, g).Some? ==> Flag(t.ownerships, u, g).Some?)
  {
    match a
    case Deliver(attempt) =>
      DeliveredWrites(w, a, config);
      if Effective(w, a).Some? { FlagsOnlyRise(w.store, Effective(w, a).value, attempt.now, u, g); }
    case Generate(_) => GeneratedWrites(w, a, config);
    case _ => PassWrites(w, a, config, g);
  }

  /** A counted row stays counted however the run goes on. */
  lemma {:induction false} CountedForever(actions: seq<Action>, n: nat, config: G.Config, u: UserId, g: GameId)
    requires n <= |actions| && Flag(StoreAt(actions[..n], config).ownerships, u, g) == Some(true)
    ensures Flag(StoreAt(actions, config).ownerships, u, g) == Some(true)
    decreases |actions|
  {
    if n == |actions| {
      assert actions[..n] == actions;
    } else {
      var front := actions[..|actions| - 1];
      assert front[..n] == actions[..n];
      CountedForever(front, n, config, u, g);
      NextFlags(Reached(front, config), actions[|actions| - 1], config, u, g);
    }
  }

  // ---------------------------------------------------------------- nothing owned is recommended

  /** No publication of the run overflows the backfill. */
  ghost predicate NeverOverflows(actions: seq<Action>, config: G.Config) {
    forall i :: 0 <= i < |actions| && actions[i].Deliver? ==>
      Confluence.Fits(StoreAt(actions[..i], config), actions[i].attempt)
  }

  /** Every row of a known game is counted. */
  ghost predicate AllCounted(s: StoreState) {
    forall u, g :: g in s.games && Flag(s.ownerships, u, g).Some? ==> Flag(s.ownerships, u, g) == Some(true)
  }

  lemma EventCounts(s: StoreState, e: Event, now: Time)
    requires AllCounted(s) && Effect(s, e, now).Some?
    requires e.GamePublished? ==> |Uncounted(RowsOf(s.ownerships, e.game))| <= BACKFILL_LIMIT
    ensures AllCounted(Effect(s, e, now).value)
  {
    var after := Effect(s, e, now).value;
    if e.GamePublished? { Confluence.PublicationCountsAllIff(s, e, now); }
    forall u, g | g in after.games && Flag(after.ownerships, u, g).Some?
      ensures Flag(after.ownerships, u, g) == Some(true)
    {
      Confluence.TwoFlags(Flag(after.ownerships, u, g));
      match e
      case GamePublished(_, h, _, _) => CountAllFlags(s.ownerships, h, EarlyOwners(s, h), u, g);
      case GameWithdrawn(_, _) =>
      case PurchaseCompleted(_, v, h, _) => RaiseFlag(s.ownerships, v, h, h in s.games, u, g);
      case ReviewPosted(_, _, _, _, _) =>
    }
  }

  lemma NeverOverflowsPrefix(actions: seq<Action>, config: G.Config)
    requires NeverOverflows(actions, config) && actions != []
    ensures var front, last := actions[..|actions| - 1], actions[|actions| - 1];
      && NeverOverflows(front, config)
      && (last.Deliver? ==> Confluence.Fits(StoreAt(front, config), last.attempt))
  {
    var front := actions[..|actions| - 1];
    forall i | 0 <= i < |front| && front[i].Deliver?
      ensures Confluence.Fits(StoreAt(front[..i], config), front[i].attempt)
    {
      assert front[..i] == actions[..i];
    }
  }

  lemma {:induction false} AlwaysCounted(actions: seq<Action>, config: G.Config)
    requires NeverOverflows(actions, config)
    ensures AllCounted(StoreAt(actions, config))
  {
    if actions != [] {
      var front, last := actions[..|actions| - 1], actions[|actions| - 1];
      NeverOverflowsPrefix(actions, config);
      AlwaysCounted(front, config);
      AlwaysFit(front, config);
      NextCounted(Reached(front, config), last, config);
    }
  }

  lemma NextCounted(w: World, a: Action, config: G.Config)
    requires Fit(w) && AllCounted(w.store) && (a.Deliver? ==> Confluence.Fits(w.store, a.attempt))
    ensures AllCounted(Next(w, a, config).store)
  {
    match a
    case Deliver(attempt) =>
      DeliveredWrites(w, a, config);
      if Effective(w, a).Some? { EventCounts(w.store, Effective(w, a).value, attempt.now); }
    case Generate(_) => GeneratedWrites(w, a, config);
    case _ =>
      PassWrites(w, a, config, 0);
      var s, t := w.store, Next(w, a, config).store;
      forall u, g | g in t.games && Flag(t.ownerships, u, g).Some? ensures Flag(t.ownerships, u, g) == Some(true) {
        PassWrites(w, a, config, g);
      }
  }

  /** In every reachable state a generated list avoids the counted games of its user; and while no publication has
      overflowed the backfill, it avoids every game the user has an ownership row for. */
  lemma ListedGamesUnowned(actions: seq<Action>, call: G.Call, config: G.Config, r: Recommendation)
    requires r in G.ListFor(StoreAt(actions, config), call, config)
    ensures Flag(StoreAt(actions, config).ownerships, call.user, r.game) != Some(true)
    ensures NeverOverflows(actions, config) ==> Flag(StoreAt(actions, config).ownerships, call.user, r.game).None?
  {
    AlwaysCredited(actions, config);
    if NeverOverflows(actions, config) { AlwaysCounted(actions, config); }
    ListedNotCounted(StoreAt(actions, config), call, config, r);
  }

  lemma ListedNotCounted(s: StoreState, call: G.Call, config: G.Config, r: Recommendation)
    requires CountedIffOwned(s.preferences, s.ownerships) && r in G.ListFor(s, call, config)
    ensures Flag(s.ownerships, call.user, r.game) != Some(true)
    ensures AllCounted(s) ==> Flag(s.ownerships, call.user, r.game).None?
  {
    G.ListWellShaped(s, call, config);
  }

  // ---------------------------------------------------------------- reasons, in every reachable state

  /** On the sparse path, any ranked game with a content score carries reasons, each a feature of the game that the
      user's taste weighs positively, strongest first. */
  lemma AlwaysExplained(actions: seq<Action>, config: G.Config, root: Root, user: UserId, x: ScoredGame)
    requires config.scorer == SparseScorer(root)
    requires var s := StoreAt(actions, config);
      && RootAt(root, NormSquared(PreferenceOf(s.preferences, user).taste))
      && (forall g :: g in s.games ==> RootAt(root, NormSquared(s.games[g].embedding)))
      && G.PlanFor(s, user, config).Listed? && x in G.PlanFor(s, user, config).scored
    ensures var taste := PreferenceOf(StoreAt(actions, config).preferences, user).taste;
      (x.content > 0.0 ==> x.reasons != []) && SharedByStrength(x.reasons, taste, x.game.embedding)
  {
    var s := StoreAt(actions, config);
    var p := G.PlanFor(s, user, config).preference;
    AlwaysFit(actions, config);
    G.RecommendableUnique(s.games, config.catalogueLimit);
    PlannedProfile(s, user, config);
    var coPurchases := RankedWith(s, user, config, x);
    ReasonsExplain(root, p, x.game, coPurchases);
  }

  lemma RankedWith(s: StoreState, user: UserId, config: G.Config, x: ScoredGame) returns (coPurchases: CoPurchases)
    requires G.PlanFor(s, user, config).Listed? && x in G.PlanFor(s, user, config).scored
    ensures x == ScoredBy(config.scorer, G.PlanFor(s, user, config).preference, coPurchases, x.game)
    ensures x.game.id in s.games && s.games[x.game.id] == x.game
  {
    var plan := G.PlanFor(s, user, config);
    coPurchases := CoPurchase.CoPurchased(s.ownerships, plan.preference.user, plan.preference.owned,
      G.MAX_COLLABORATIVE_CANDIDATES);
    G.RecommendableUnique(s.games, config.catalogueLimit);
    assert x in Ranked(config.scorer, plan.preference, Recommendable(s.games, config.catalogueLimit), coPurchases,
      config.limit);
  }

  // ---------------------------------------------------------------- what is stored is what was announced

  /** The last event enqueued for a user. */
  function Latest(outbox: seq<RecommendationGenerated>, user: UserId): Option<RecommendationGenerated> {
    if outbox == [] then None
    else if outbox[|outbox| - 1].user == user then Some(outbox[|outbox| - 1])
    else Latest(outbox[..|outbox| - 1], user)
  }

  /** A stored list is well shaped and its user's, and the latest event lists it entry for entry. */
  ghost predicate Announced(s: StoreState, round: Rounding, user: UserId) {
    var list, event := StoredFor(s, user), Latest(s.outbox, user);
    && G.WellShaped(list)
    && (forall r :: r in list ==> r.user == user)
    && (list != [] ==> event.Some? && event.value.items == Map(list, ItemOf(round)))
    && (event.Some? ==> event.value.items != [])
  }

  lemma DeliveryStoresNothing(s: StoreState, a: D.Attempt)
    ensures D.Step(s, a).recommendations == s.recommendations && D.Step(s, a).outbox == s.outbox
  {
    if D.TakesEffect(s, a) && a.message.Valid? { EventFrame(s, a.message.event, a.now); }
  }

  lemma LatestAppended(outbox: seq<RecommendationGenerated>, event: RecommendationGenerated, user: UserId)
    ensures Latest(outbox + [event], user) == if event.user == user then Some(event) else Latest(outbox, user)
  {
    assert (outbox + [event])[..|outbox|] == outbox;
  }

  lemma GenerationAnnounced(s: StoreState, call: G.Call, config: G.Config, user: UserId)
    requires Announced(s, config.round, user)
    ensures Announced(G.Generated(s, call, config), config.round, user)
  {
    if G.Succeeds(s, call, config) {
      var list := G.ListFor(s, call, config);
      G.ListWellShaped(s, call, config);
      LatestAppended(s.outbox, G.EventOf(list, call, config), user);
    }
  }

  lemma NextAnnounced(w: World, a: Action, config: G.Config, user: UserId)
    requires Announced(w.store, config.round, user)
    ensures Announced(Next(w, a, config).store, config.round, user)
  {
    match a
    case Deliver(attempt) => DeliveryStoresNothing(w.store, attempt);
    case Generate(call) => GenerationAnnounced(w.store, call, config, user);
    case _ => PassWrites(w, a, config, 0);
  }

  /** In every reachable state a non-empty stored list is what the latest event of its user lists. */
  lemma {:induction false} AlwaysAnnounced(actions: seq<Action>, config: G.Config, user: UserId)
    ensures Announced(StoreAt(actions, config), config.round, user)
  {
    if actions != [] {
      AlwaysAnnounced(actions[..|actions| - 1], config, user);
      NextAnnounced(Reached(actions[..|actions| - 1], config), actions[|actions| - 1], config, user);
    }
  }

  /** An emptied list is never announced: the latest event disagrees with the store exactly when the list has been
      emptied since. */
  lemma LatestEventStaleIff(actions: seq<Action>, config: G.Config, user: UserId)
    requires Latest(StoreAt(actions, config).outbox, user).Some?
    ensures var s := StoreAt(actions, config);
      Latest(s.outbox, user).value.items == Map(StoredFor(s, user), ItemOf(config.round)) <==> StoredFor(s, user) != []
  {
    AlwaysAnnounced(actions, config, user);
  }
}
