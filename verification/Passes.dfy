/** What an embedding pass in flight can undo: popularity, withdrawal and new words, and exactly when it does not. */
module Passes {
  import opened Ordering
  import opened Vectors
  import opened Catalog
  import opened Preference
  import opened Recommendations
  import opened Store
  import opened Ingest
  import opened Ledger
  import opened System
  import Confluence
  import D = Delivery
  import G = Generate

  /** A run continued from any state of the service. */
  function From(w: World, tail: seq<Action>, config: G.Config): World {
    if tail == [] then w else Next(From(w, tail[..|tail| - 1], config), tail[|tail| - 1], config)
  }

  lemma {:induction false} ReachedFrom(actions: seq<Action>, tail: seq<Action>, config: G.Config)
    ensures Reached(actions + tail, config) == From(Reached(actions, config), tail, config)
    decreases |tail|
  {
    if tail == [] {
      assert actions + tail == actions;
    } else {
      var front := tail[..|tail| - 1];
      assert (actions + tail)[..|actions + tail| - 1] == actions + front;
      ReachedFrom(actions, front, config);
    }
  }

  predicate InFlight(w: World, g: GameId) {
    Carried(w.passes, g)
  }

  // ---------------------------------------------------------------- popularity

  /** The sale an action adds to a game's counter. */
  function SellsBy(w: World, a: Action, g: GameId): nat {
    if Effective(w, a).Some? then Sells(w.store, Effective(w, a).value, g) else 0
  }

  /** The purchases of a known game that took effect from step `start` on. */
  function Sold(actions: seq<Action>, config: G.Config, start: nat, g: GameId): nat {
    if |actions| <= start then 0 else
    var front := actions[..|actions| - 1];
    Sold(front, config, start, g) + SellsBy(Reached(front, config), actions[|actions| - 1], g)
  }

  /** The step at which a pass last took its snapshot. */
  function TakenAt(actions: seq<Action>, pass: int): (i: nat)
    ensures i <= |actions|
  {
    if actions == [] then 0
    else if actions[|actions| - 1].Snapshot? && actions[|actions| - 1].pass == pass then |actions| - 1
    else TakenAt(actions[..|actions| - 1], pass)
  }

  /** The sales a game's counter has lost to write-backs: what its snapshot had lost, and what was sold after it. */
  function Missed(actions: seq<Action>, config: G.Config, g: GameId): nat
    decreases |actions|
  {
    if actions == [] then 0 else
    var front, last := actions[..|actions| - 1], actions[|actions| - 1];
    if Lands(Reached(front, config), last, g) then
      var i := TakenAt(front, last.pass);
      Missed(front[..i], config, g) + Sold(front, config, i, g)
    else Missed(front, config, g)
  }

  lemma {:induction false} HeldIsSnapshot(actions: seq<Action>, config: G.Config, pass: int, g: GameId)
    requires pass in Reached(actions, config).passes && G.Held(Reached(actions, config).passes[pass], g).Some?
    ensures var held := G.Held(Reached(actions, config).passes[pass], g).value;
      var games := StoreAt(actions[..TakenAt(actions, pass)], config).games;
      g in games && games[g] == held
  {
    var front, last := actions[..|actions| - 1], actions[|actions| - 1];
    if last.Snapshot? && last.pass == pass {
      SnapshotHolds(StoreAt(front, config).games, last.batch, g);
    } else {
      OtherPassKept(Reached(front, config), last, config, pass);
      HeldIsSnapshot(front, config, pass, g);
      TakenBefore(actions, pass);
    }
  }

  lemma TakenBefore(actions: seq<Action>, pass: int)
    requires actions != []
    ensures var front, last := actions[..|actions| - 1], actions[|actions| - 1];
      var of := if last.Snapshot? && last.pass == pass then |front| else TakenAt(front, pass);
      actions[..TakenAt(actions, pass)] == front[..of]
  {}

  lemma SnapshotHolds(games: Games, batch: nat, g: GameId)
    requires G.Held(G.Pending(games, batch), g).Some?
    ensures g in games && games[g] == G.Held(G.Pending(games, batch), g).value
  {
    G.PendingKnown(games, batch);
    G.HeldMember(G.Pending(games, batch), g);
  }

  /** A pass is as its last snapshot left it. */
  lemma OtherPassKept(w: World, a: Action, config: G.Config, pass: int)
    requires pass in Next(w, a, config).passes && !(a.Snapshot? && a.pass == pass)
    ensures pass in w.passes && w.passes[pass] == Next(w, a, config).passes[pass]
  {}

  lemma {:induction false} SoldSplit(actions: seq<Action>, config: G.Config, i: nat, g: GameId)
    requires i <= |actions|
    ensures Sold(actions, config, 0, g) == Sold(actions[..i], config, 0, g) + Sold(actions, config, i, g)
    decreases |actions|
  {
    if i == |actions| {
      assert actions[..i] == actions;
    } else {
      var front := actions[..|actions| - 1];
      assert front[..i] == actions[..i];
      SoldSplit(front, config, i, g);
    }
  }

  lemma NextSales(w: World, a: Action, config: G.Config, g: GameId)
    ensures SalesOf(Next(w, a, config).store.games, g)
         == if Lands(w, a, g) then G.Held(w.passes[a.pass], g).value.purchaseCount
            else SalesOf(w.store.games, g) + SellsBy(w, a, g)
  {
    match a
    case Deliver(attempt) =>
      DeliveredWrites(w, a, config);
      if Effective(w, a).Some? { EventSells(w.store, Effective(w, a).value, attempt.now, g); }
    case Generate(_) => GeneratedWrites(w, a, config);
    case _ => PassWrites(w, a, config, g);
  }

  /** Every purchase of a known game that took effect is in its counter, or was lost to a write-back. */
  lemma {:induction false} SalesAccounted(actions: seq<Action>, config: G.Config, g: GameId)
    ensures SalesOf(StoreAt(actions, config).games, g) + Missed(actions, config, g) == Sold(actions, config, 0, g)
    decreases |actions|
  {
    if actions != [] {
      var front, last := actions[..|actions| - 1], actions[|actions| - 1];
      NextSales(Reached(front, config), last, config, g);
      if Lands(Reached(front, config), last, g) {
        var i := TakenAt(front, last.pass);
        HeldIsSnapshot(front, config, last.pass, g);
        SalesAccounted(front[..i], config, g);
        SoldSplit(front, config, i, g);
      } else {
        SalesAccounted(front, config, g);
      }
    }
  }

  lemma {:induction false} CreditsSold(actions: seq<Action>, config: G.Config, g: GameId)
    ensures BoughtCount(Credits(actions, config), g) == Sold(actions, config, 0, g)
  {
    if actions != [] {
      var front, last := actions[..|actions| - 1], actions[|actions| - 1];
      CreditsSold(front, config, g);
      var w := Reached(front, config);
      var more := if last.Deliver? then D.Recorded(w.store, last.attempt) else [];
      BoughtAppend(Credits(front, config), more, g);
      if Effective(w, last).Some? { EventSells(w.store, Effective(w, last).value, last.attempt.now, g); }
    }
  }

  ghost predicate NothingMissed(actions: seq<Action>, config: G.Config) {
    forall g :: MissesNothing(actions, config, g)
  }

  predicate MissesNothing(actions: seq<Action>, config: G.Config, g: GameId) {
    Missed(actions, config, g) == 0
  }

  /** The whole store agrees with the log of credits exactly when no game has lost a sale. */
  lemma LedgeredIff(actions: seq<Action>, config: G.Config)
    ensures Ledgered(StoreAt(actions, config), Credits(actions, config)) <==> NothingMissed(actions, config)
  {
    AlwaysCredited(actions, config);
    SalesMatchIff(actions, config);
  }

  lemma SalesMatchIff(actions: seq<Action>, config: G.Config)
    ensures SalesMatch(StoreAt(actions, config).games, Credits(actions, config)) <==> NothingMissed(actions, config)
  {
    var games, log := StoreAt(actions, config).games, Credits(actions, config);
    if SalesMatch(games, log) {
      forall g ensures MissesNothing(actions, config, g) { SaleMatchIff(actions, config, g); }
    }
    if NothingMissed(actions, config) {
      forall g ensures BoughtCount(log, g) == SalesOf(games, g) {
        assert MissesNothing(actions, config, g);
        SaleMatchIff(actions, config, g);
      }
    }
  }

  lemma SaleMatchIff(actions: seq<Action>, config: G.Config, g: GameId)
    ensures BoughtCount(Credits(actions, config), g) == SalesOf(StoreAt(actions, config).games, g)
       <==> MissesNothing(actions, config, g)
  {
    SalesAccounted(actions, config, g);
    CreditsSold(actions, config, g);
  }

  /** No purchase of the game takes effect between a snapshot holding it and that snapshot's write-back. */
  ghost predicate QuietSales(actions: seq<Action>, config: G.Config, g: GameId) {
    forall j :: 0 <= j < |actions| && Lands(Reached(actions[..j], config), actions[j], g) ==>
      Sold(actions[..j], config, TakenAt(actions[..j], actions[j].pass), g) == 0
  }

  ghost predicate NeverMisses(actions: seq<Action>, config: G.Config, g: GameId) {
    forall k :: 0 <= k <= |actions| ==>
      SalesOf(StoreAt(actions[..k], config).games, g) == Sold(actions[..k], config, 0, g)
  }

  lemma MissedPrefix(actions: seq<Action>, config: G.Config, j: nat, g: GameId)
    requires j < |actions| && Lands(Reached(actions[..j], config), actions[j], g)
    ensures var i := TakenAt(actions[..j], actions[j].pass);
      Missed(actions[..j + 1], config, g) == Missed(actions[..i], config, g) + Sold(actions[..j], config, i, g)
  {
    PrefixOf(actions, j, TakenAt(actions[..j], actions[j].pass));
    MissedLanding(actions[..j], actions[j], config, g);
  }

  lemma PrefixOf<T>(xs: seq<T>, j: nat, i: nat)
    requires i <= j < |xs|
    ensures xs[..j + 1] == xs[..j] + [xs[j]] && xs[..j][..i] == xs[..i]
  {}

  lemma MissedLanding(front: seq<Action>, last: Action, config: G.Config, g: GameId)
    requires Lands(Reached(front, config), last, g)
    ensures var i := TakenAt(front, last.pass);
      Missed(front + [last], config, g) == Missed(front[..i], config, g) + Sold(front, config, i, g)
  {
    assert (front + [last])[..|front|] == front;
  }

  lemma {:induction false} QuietMissesNothing(actions: seq<Action>, config: G.Config, k: nat, g: GameId)
    requires QuietSales(actions, config, g) && k <= |actions|
    ensures Missed(actions[..k], config, g) == 0
  {
    if k > 0 {
      var front := actions[..k - 1];
      assert actions[..k][..k - 1] == front;
      if Lands(Reached(front, config), actions[k - 1], g) {
        MissedPrefix(actions, config, k - 1, g);
        QuietMissesNothing(actions, config, TakenAt(front, actions[k - 1].pass), g);
      } else {
        QuietMissesNothing(actions, config, k - 1, g);
      }
    }
  }

  /** A counter is right throughout a run exactly when no purchase of its game falls between the two transactions of a
      pass that holds it. */
  lemma SalesRightIff(actions: seq<Action>, config: G.Config, g: GameId)
    ensures NeverMisses(actions, config, g) <==> QuietSales(actions, config, g)
  {
    if QuietSales(actions, config, g) {
      forall k | 0 <= k <= |actions|
        ensures SalesOf(StoreAt(actions[..k], config).games, g) == Sold(actions[..k], config, 0, g)
      {
        QuietMissesNothing(actions, config, k, g);
        SalesAccounted(actions[..k], config, g);
      }
    }
    if NeverMisses(actions, config, g) {
      forall j | 0 <= j < |actions| && Lands(Reached(actions[..j], config), actions[j], g)
        ensures Sold(actions[..j], config, TakenAt(actions[..j], actions[j].pass), g) == 0
      {
        MissedPrefix(actions, config, j, g);
        SalesAccounted(actions[..j + 1], config, g);
        assert SalesOf(StoreAt(actions[..j + 1], config).games, g) == Sold(actions[..j + 1], config, 0, g);
      }
    }
  }

  /** The purchases of a game that took effect, known or not. */
  function Purchases(actions: seq<Action>, config: G.Config, g: GameId): nat {
    if actions == [] then 0 else
    var front := actions[..|actions| - 1];
    Purchases(front, config, g) + if Buys(Effective(Reached(front, config), actions[|actions| - 1]), g) then 1 else 0
  }

  predicate Buys(e: Option<Event>, g: GameId) {
    e.Some? && e.value.PurchaseCompleted? && e.value.game == g
  }

  /** Those that took effect before the game was known. */
  function Early(actions: seq<Action>, config: G.Config, g: GameId): nat {
    if actions == [] then 0 else
    var front := actions[..|actions| - 1];
    var w := Reached(front, config);
    Early(front, config, g) + if Buys(Effective(w, actions[|actions| - 1]), g) && g !in w.store.games then 1 else 0
  }

  /** Every purchase of a game is in its counter, came before the game was known, or was lost to a write-back. */
  lemma {:induction false} PurchasesAccounted(actions: seq<Action>, config: G.Config, g: GameId)
    ensures Purchases(actions, config, g) == Sold(actions, config, 0, g) + Early(actions, config, g)
    ensures Purchases(actions, config, g)
         == SalesOf(StoreAt(actions, config).games, g) + Missed(actions, config, g) + Early(actions, config, g)
  {
    if actions != [] { PurchasesAccounted(actions[..|actions| - 1], config, g); }
    SalesAccounted(actions, config, g);
  }

  // ---------------------------------------------------------------- a withdrawn game

  predicate Hidden(games: Games, g: GameId) {
    g in games && !games[g].isPublished
  }

  predicate Publishes(a: Action, g: GameId) {
    a.Deliver? && a.attempt.message.Valid? && a.attempt.message.event.GamePublished?
      && a.attempt.message.event.game == g
  }

  ghost predicate NonePublishes(tail: seq<Action>, g: GameId) {
    forall i :: 0 <= i < |tail| ==> !Publishes(tail[i], g)
  }

  /** An effective withdrawal of a known game hides it. */
  lemma WithdrawalHides(w: World, a: Action, config: G.Config, g: GameId)
    requires g in w.store.games && Effective(w, a).Some?
    requires Effective(w, a).value.GameWithdrawn? && Effective(w, a).value.game == g
    ensures Hidden(Next(w, a, config).store.games, g) && (InFlight(Next(w, a, config), g) <==> InFlight(w, g))
  {
    DeliveredWrites(w, a, config);
    EventGames(w.store, Effective(w, a).value, a.attempt.now);
  }

  lemma NextHides(w: World, a: Action, config: G.Config, g: GameId)
    requires Hidden(w.store.games, g) && !Publishes(a, g) && !Lands(w, a, g)
    ensures Hidden(Next(w, a, config).store.games, g)
  {
    match a
    case Deliver(attempt) =>
      DeliveredWrites(w, a, config);
      if Effective(w, a).Some? { EventGames(w.store, Effective(w, a).value, attempt.now); }
    case Generate(_) => GeneratedWrites(w, a, config);
    case _ => PassWrites(w, a, config, g);
  }

  /** A snapshot never takes up a hidden game. */
  lemma NextStaysGrounded(w: World, a: Action, config: G.Config, g: GameId)
    requires !InFlight(w, g) && (a.Snapshot? ==> Hidden(w.store.games, g))
    ensures !InFlight(Next(w, a, config), g)
  {
    match a
    case Deliver(_) => DeliveredWrites(w, a, config);
    case Generate(_) => GeneratedWrites(w, a, config);
    case Snapshot(pass, batch) =>
      PendingNeeds(w.store.games, batch, g);
      TakenGrounded(w.passes, pass, G.Pending(w.store.games, batch), g);
    case WriteBack(pass, _) =>
      LandedGrounded(w.passes, pass, g);
  }

  predicate Carried(passes: map<int, seq<Game>>, g: GameId) {
    exists p :: p in passes && G.Held(passes[p], g).Some?
  }

  lemma TakenGrounded(passes: map<int, seq<Game>>, pass: int, taken: seq<Game>, g: GameId)
    requires !Carried(passes, g) && G.Held(taken, g).None?
    ensures !Carried(passes[pass := taken], g)
  {}

  lemma LandedGrounded(passes: map<int, seq<Game>>, pass: int, g: GameId)
    requires !Carried(passes, g)
    ensures !Carried(passes - {pass}, g)
  {}

  lemma PendingNeeds(games: Games, batch: nat, g: GameId)
    ensures G.Held(G.Pending(games, batch), g).Some? ==> g in games && games[g].NeedsEmbedding()
  {
    G.PendingKnown(games, batch);
    G.HeldMember(G.Pending(games, batch), g);
  }

  lemma {:induction false} StaysHidden(w: World, tail: seq<Action>, config: G.Config, g: GameId)
    requires Hidden(w.store.games, g) && !InFlight(w, g) && NonePublishes(tail, g)
    ensures Hidden(From(w, tail, config).store.games, g) && !InFlight(From(w, tail, config), g)
  {
    if tail != [] {
      var front, last := tail[..|tail| - 1], tail[|tail| - 1];
      assert forall i :: 0 <= i < |front| ==> front[i] == tail[i];
      StaysHidden(w, front, config, g);
      var v := From(w, front, config);
      assert !Lands(v, last, g);
      NextHides(v, last, config, g);
      NextStaysGrounded(v, last, config, g);
    }
  }

  /** The answer of a provider that knows one word. */
  function Ones(n: nat): seq<Dense> {
    seq(n, i => [1.0])
  }

  /** A pass in flight can still land what its snapshot holds of a game. */
  lemma Landing(w: World, config: G.Config, g: GameId) returns (a: Action)
    requires InFlight(w, g)
    ensures Lands(w, a, g)
    ensures var games := Next(w, a, config).store.games;
      g in games && games[g] == G.Held(w.passes[a.pass], g).value.Embedded([1.0])
  {
    var p :| p in w.passes && G.Held(w.passes[p], g).Some?;
    a := WriteBack(p, Some(Ones(|w.passes[p]|)));
    PassWrites(w, a, config, g);
    G.EmbedAllAt(w.store.games, w.passes[p], Ones(|w.passes[p]|), g);
    assert w.passes[p] != [];
  }

  /** A hidden game stays hidden however the service goes on without publishing it, exactly when no pass in flight holds
      it: one that does can still write it back as it was, published. */
  lemma HiddenForeverIff(w: World, config: G.Config, g: GameId)
    requires Fit(w) && Hidden(w.store.games, g)
    ensures (forall tail :: NonePublishes(tail, g) ==> Hidden(From(w, tail, config).store.games, g)) <==>
      !InFlight(w, g)
  {
    if InFlight(w, g) {
      var a := Landing(w, config, g);
      var tail := [a];
      assert tail[..0] == [] && From(w, tail, config) == Next(From(w, tail[..0], config), a, config);
      assert NonePublishes(tail, g) && !Hidden(From(w, tail, config).store.games, g);
    } else {
      forall tail | NonePublishes(tail, g) ensures Hidden(From(w, tail, config).store.games, g) {
        StaysHidden(w, tail, config, g);
      }
    }
  }

  /** So a withdrawal lasts until the next publication exactly when no pass in flight holds the game. */
  lemma WithdrawnForeverIff(w: World, a: Action, config: G.Config, g: GameId)
    requires Fit(w) && g in w.store.games && Effective(w, a).Some?
    requires Effective(w, a).value.GameWithdrawn? && Effective(w, a).value.game == g
    ensures (forall tail :: NonePublishes(tail, g) ==> Hidden(From(Next(w, a, config), tail, config).store.games, g))
       <==> !InFlight(w, g)
  {
    WithdrawalHides(w, a, config, g);
    NextFit(w, a, config);
    HiddenForeverIff(Next(w, a, config), config, g);
  }

  /** The same of whole runs from an empty store. */
  lemma HiddenRunsIff(actions: seq<Action>, config: G.Config, g: GameId)
    requires Hidden(StoreAt(actions, config).games, g)
    ensures (forall tail :: NonePublishes(tail, g) ==> Hidden(StoreAt(actions + tail, config).games, g))
       <==> !InFlight(Reached(actions, config), g)
  {
    var w := Reached(actions, config);
    forall tail ensures StoreAt(actions + tail, config) == From(w, tail, config).store {
      ReachedFrom(actions, tail, config);
    }
    AlwaysFit(actions, config);
    HiddenForeverIff(w, config, g);
  }

  /** While it stays hidden no scan finds it, so no newly generated list, fallback or similarity offers it. */
  lemma HiddenNeverOffered(w: World, tail: seq<Action>, config: G.Config, g: GameId, limit: nat, call: G.Call)
    requires Hidden(w.store.games, g) && !InFlight(w, g) && NonePublishes(tail, g)
    ensures var s := From(w, tail, config).store;
      && (forall x :: x in Recommendable(s.games, limit) ==> x.id != g)
      && (forall r :: r in G.ListFor(s, call, config) ==> r.game != g)
  {
    StaysHidden(w, tail, config, g);
    G.RecommendableUnique(From(w, tail, config).store.games, limit);
    G.ListWellShaped(From(w, tail, config).store, call, config);
  }

  /** Some generation for the user succeeds. */
  function Regenerated(w: World, tail: seq<Action>, config: G.Config, user: UserId): bool {
    if tail == [] then false else
    var front, last := tail[..|tail| - 1], tail[|tail| - 1];
    || Regenerated(w, front, config, user)
    || (last.Generate? && last.call.user == user && G.Succeeds(From(w, front, config).store, last.call, config))
  }

  ghost predicate Offers(list: seq<Recommendation>, g: GameId) {
    exists r :: r in list && r.game == g
  }

  lemma NextServes(w: World, a: Action, config: G.Config, user: UserId)
    ensures var s, t := w.store, Next(w, a, config).store;
      StoredFor(t, user) == if a.Generate? && a.call.user == user && G.Succeeds(s, a.call, config)
                            then G.ListFor(s, a.call, config) else StoredFor(s, user)
  {
    match a
    case Deliver(attempt) => DeliveryStoresNothing(w.store, attempt);
    case Generate(call) =>
      if call.user != user { G.GeneratedElsewhere(w.store, call, config, [call.(user := user)]); }
      else { G.GeneratedElsewhere(w.store, call, config, []); }
    case _ => PassWrites(w, a, config, 0);
  }

  /** A stored list goes on offering a withdrawn game exactly until its user's next successful generation. */
  lemma {:induction false} HiddenServedIff(w: World, tail: seq<Action>, config: G.Config, g: GameId, user: UserId)
    requires Hidden(w.store.games, g) && !InFlight(w, g) && NonePublishes(tail, g)
    ensures Offers(StoredFor(From(w, tail, config).store, user), g)
       <==> Offers(StoredFor(w.store, user), g) && !Regenerated(w, tail, config, user)
  {
    if tail != [] {
      var front, last := tail[..|tail| - 1], tail[|tail| - 1];
      assert forall i :: 0 <= i < |front| ==> front[i] == tail[i];
      HiddenServedIff(w, front, config, g, user);
      var v := From(w, front, config);
      NextServes(v, last, config, user);
      if last.Generate? { HiddenNeverOffered(w, front, config, g, 0, last.call); }
    }
  }

  // ---------------------------------------------------------------- new words

  predicate Unembedded(games: Games, g: GameId) {
    g in games && games[g].dense == []
  }

  /** An effective publication throws the game's vector away. */
  lemma PublicationUnembeds(w: World, a: Action, config: G.Config, g: GameId)
    requires Effective(w, a).Some? && Effective(w, a).value.GamePublished? && Effective(w, a).value.game == g
    ensures Unembedded(Next(w, a, config).store.games, g) && (InFlight(Next(w, a, config), g) <==> InFlight(w, g))
  {
    DeliveredWrites(w, a, config);
    EventGames(w.store, Effective(w, a).value, a.attempt.now);
  }

  lemma NextUnembedded(w: World, a: Action, config: G.Config, g: GameId)
    requires Unembedded(w.store.games, g) && !Lands(w, a, g)
    ensures Unembedded(Next(w, a, config).store.games, g)
  {
    match a
    case Deliver(attempt) =>
      DeliveredWrites(w, a, config);
      if Effective(w, a).Some? { EventGames(w.store, Effective(w, a).value, attempt.now); }
    case Generate(_) => GeneratedWrites(w, a, config);
    case _ => PassWrites(w, a, config, g);
  }

  ghost predicate NoneSnapshots(tail: seq<Action>) {
    forall i :: 0 <= i < |tail| ==> !tail[i].Snapshot?
  }

  lemma {:induction false} StaysUnembedded(w: World, tail: seq<Action>, config: G.Config, g: GameId)
    requires Unembedded(w.store.games, g) && !InFlight(w, g) && NoneSnapshots(tail)
    ensures Unembedded(From(w, tail, config).store.games, g) && !InFlight(From(w, tail, config), g)
  {
    if tail != [] {
      var front, last := tail[..|tail| - 1], tail[|tail| - 1];
      assert forall i :: 0 <= i < |front| ==> front[i] == tail[i];
      StaysUnembedded(w, front, config, g);
      var v := From(w, front, config);
      NextUnembedded(v, last, config, g);
      NextStaysGrounded(v, last, config, g);
    }
  }

  /** Until a new snapshot is taken a republished game has no vector, whatever else happens, exactly when no pass was in
      flight with it: such a pass can still land the vector, and the words, it was given before. */
  lemma NoStaleVectorIff(w: World, config: G.Config, g: GameId)
    requires Unembedded(w.store.games, g)
    ensures (forall tail :: NoneSnapshots(tail) ==> Unembedded(From(w, tail, config).store.games, g)) <==>
      !InFlight(w, g)
  {
    if InFlight(w, g) {
      var a := Landing(w, config, g);
      var tail := [a];
      assert tail[..0] == [] && From(w, tail, config) == Next(From(w, tail[..0], config), a, config);
      assert NoneSnapshots(tail) && !Unembedded(From(w, tail, config).store.games, g);
    } else {
      forall tail | NoneSnapshots(tail) ensures Unembedded(From(w, tail, config).store.games, g) {
        StaysUnembedded(w, tail, config, g);
      }
    }
  }

  /** So a publication discards the old vector until the next snapshot exactly when no pass in flight holds the game. */
  lemma RepublishedIff(w: World, a: Action, config: G.Config, g: GameId)
    requires Effective(w, a).Some? && Effective(w, a).value.GamePublished? && Effective(w, a).value.game == g
    ensures (forall tail :: NoneSnapshots(tail) ==>
               Unembedded(From(Next(w, a, config), tail, config).store.games, g))
       <==> !InFlight(w, g)
  {
    PublicationUnembeds(w, a, config, g);
    NoStaleVectorIff(Next(w, a, config), config, g);
  }

  // ---------------------------------------------------------------- when a snapshot stays current

  /** No other snapshot of the game lands, and it is not published. */
  ghost predicate Undisturbed(w: World, tail: seq<Action>, config: G.Config, g: GameId) {
    && NonePublishes(tail, g)
    && forall i :: 0 <= i < |tail| ==> !Lands(From(w, tail[..i], config), tail[i], g)
  }

  predicate Withdraws(e: Option<Event>, g: GameId) {
    e.Some? && e.value.GameWithdrawn? && e.value.game == g
  }

  function SoldFrom(w: World, tail: seq<Action>, config: G.Config, g: GameId): nat {
    if tail == [] then 0 else
    var front := tail[..|tail| - 1];
    SoldFrom(w, front, config, g) + SellsBy(From(w, front, config), tail[|tail| - 1], g)
  }

  function WithdrawnFrom(w: World, tail: seq<Action>, config: G.Config, g: GameId): bool {
    if tail == [] then false else
    var front := tail[..|tail| - 1];
    WithdrawnFrom(w, front, config, g) || Withdraws(Effective(From(w, front, config), tail[|tail| - 1]), g)
  }

  lemma NextWords(w: World, a: Action, config: G.Config, g: GameId)
    requires g in w.store.games && !Publishes(a, g) && !Lands(w, a, g)
    ensures var before, games := w.store.games[g], Next(w, a, config).store.games;
      && g in games
      && G.WordsOf(games[g]) == G.WordsOf(before).(
           purchaseCount := before.purchaseCount + SellsBy(w, a, g),
           isPublished := before.isPublished && !Withdraws(Effective(w, a), g))
  {
    if a.Deliver? { DeliveredWords(w, a, config, g); } else { OtherwiseKept(w, a, config, g); }
  }

  lemma OtherwiseKept(w: World, a: Action, config: G.Config, g: GameId)
    requires !a.Deliver? && g in w.store.games && !Lands(w, a, g)
    ensures g in Next(w, a, config).store.games && Next(w, a, config).store.games[g] == w.store.games[g]
  {
    match a
    case Generate(_) => GeneratedWrites(w, a, config);
    case _ => PassWrites(w, a, config, g);
  }

  lemma DeliveredWords(w: World, a: Action, config: G.Config, g: GameId)
    requires a.Deliver? && g in w.store.games && !Publishes(a, g)
    ensures var before, games := w.store.games[g], Next(w, a, config).store.games;
      && g in games
      && G.WordsOf(games[g]) == G.WordsOf(before).(
           purchaseCount := before.purchaseCount + SellsBy(w, a, g),
           isPublished := before.isPublished && !Withdraws(Effective(w, a), g))
  {
    DeliveredWrites(w, a, config);
    if Effective(w, a).Some? {
      EventGames(w.store, Effective(w, a).value, a.attempt.now);
      EventWords(w.store, Effective(w, a).value, g);
    }
  }

  lemma EventWords(s: StoreState, e: Event, g: GameId)
    requires g in s.games && !(e.GamePublished? && e.game == g)
    ensures g in GamesAfter(s, e)
    ensures G.WordsOf(GamesAfter(s, e)[g]) == G.WordsOf(s.games[g]).(
      purchaseCount := s.games[g].purchaseCount + Sells(s, e, g),
      isPublished := s.games[g].isPublished && !Withdraws(Some(e), g))
  {}

  lemma {:induction false} WordsFrom(w: World, tail: seq<Action>, config: G.Config, g: GameId)
    requires g in w.store.games && Undisturbed(w, tail, config, g)
    ensures var before, games := w.store.games[g], From(w, tail, config).store.games;
      && g in games
      && G.WordsOf(games[g]) == G.WordsOf(before).(
           purchaseCount := before.purchaseCount + SoldFrom(w, tail, config, g),
           isPublished := before.isPublished && !WithdrawnFrom(w, tail, config, g))
  {
    if tail != [] {
      var front, last := tail[..|tail| - 1], tail[|tail| - 1];
      forall i | 0 <= i < |front| ensures front[i] == tail[i] && front[..i] == tail[..i] {}
      WordsFrom(w, front, config, g);
      NextWords(From(w, front, config), last, config, g);
    }
  }

  /** Between a snapshot and its write-back, with no publication of the game and no other pass landing it, the snapshot
      stays current exactly when no purchase and no withdrawal of the game takes effect. */
  lemma SnapshotCurrentIff(w: World, tail: seq<Action>, config: G.Config, g: GameId)
    requires g in w.store.games && w.store.games[g].NeedsEmbedding() && Undisturbed(w, tail, config, g)
    ensures g in From(w, tail, config).store.games
    ensures G.WordsOf(From(w, tail, config).store.games[g]) == w.store.games[g] <==>
      SoldFrom(w, tail, config, g) == 0 && !WithdrawnFrom(w, tail, config, g)
  {
    WordsFrom(w, tail, config, g);
  }

  // ---------------------------------------------------------------- runs on which a pass undoes an event

  lemma PendingOne(games: Games, g: GameId, batch: nat)
    requires games.Keys == {g} && games[g].NeedsEmbedding() && batch > 0
    ensures G.Pending(games, batch) == [games[g]]
  {
    var needing := Filter(Catalogue(games), (x: Game) => x.NeedsEmbedding());
    assert games[g].id == g && games[g] in Catalogue(games) && games[g] in needing;
    CatalogueDistinct(games);
    FilterDistinct(Catalogue(games), (x: Game) => x.NeedsEmbedding());
    G.TopDistinct(needing, PopularityKey, batch);
    var pending := G.Pending(games, batch);
    G.PendingKnown(games, batch);
    forall x | x in pending ensures x == games[g] { assert x.id in games.Keys; }
    OnlyOne(pending, games[g]);
    assert |needing| > 0;
  }

  lemma OnlyOne<T(!new)>(xs: seq<T>, x: T)
    requires Distinct(xs) && forall y :: y in xs ==> y == x
    ensures |xs| == 0 || xs == [x]
  {
    PrefixSize(xs);
    assert (set y | y in xs) <= {x};
    SubsetSize(set y | y in xs, {x});
    assert forall i :: 0 <= i < |xs| ==> xs[i] in xs;
  }

  lemma SubsetSize<T>(s: set<T>, t: set<T>)
    requires s <= t
    ensures |s| <= |t|
  {
    assert t == s + (t - s);
  }

  function FirstGame(e: Event): Game
    requires e.GamePublished?
  {
    Game(e.game, e.developer, e.description.title, true, 0, Of(e.description.features), [])
  }

  /** A game is published and a pass takes its snapshot. */
  function Opening(publish: Event, now: Time): seq<Action> {
    [Deliver(D.Attempt(D.Valid(publish), now, false, false)), Snapshot(0, 1)]
  }

  lemma OpeningReaches(publish: Event, now: Time, config: G.Config)
    requires publish.GamePublished? && Admissible(publish.description)
    ensures var w := Reached(Opening(publish, now), config);
      && w.store.games == map[publish.game := FirstGame(publish)] && w.passes == map[0 := [FirstGame(publish)]]
      && w.store == EMPTY_STORE.(games := w.store.games, processed := {publish.id})
  {
    var actions := Opening(publish, now);
    OpeningSteps(publish, now, config);
    var w := Next(INITIAL, actions[0], config);
    OnlyPublished(publish, now, config);
    PendingOne(w.store.games, publish.game, 1);
  }

  lemma OpeningSteps(publish: Event, now: Time, config: G.Config)
    ensures var actions := Opening(publish, now);
      Reached(actions, config) == Next(Next(INITIAL, actions[0], config), actions[1], config)
  {
    var actions := Opening(publish, now);
    ReachedSnoc([], actions[0], config);
    ReachedSnoc([] + [actions[0]], actions[1], config);
    assert actions == [] + [actions[0]] + [actions[1]];
  }

  lemma OnlyPublished(publish: Event, now: Time, config: G.Config)
    requires publish.GamePublished? && Admissible(publish.description)
    ensures Next(INITIAL, Opening(publish, now)[0], config)
         == INITIAL.(store := EMPTY_STORE.(games := map[publish.game := FirstGame(publish)], processed := {publish.id}))
  {
    assert EarlyOwners(EMPTY_STORE, publish.game) == [];
  }

  /** The event takes effect between the two transactions of the pass. */
  function Interrupted(publish: Event, e: Event, v: Dense, now: Time): seq<Action> {
    Opening(publish, now) + [Deliver(D.Attempt(D.Valid(e), now, false, false)), WriteBack(0, Some([v]))]
  }

  /** Whatever the event did to the game, the pass puts back what it read before. */
  lemma InterruptedReaches(publish: Event, e: Event, v: Dense, now: Time, config: G.Config)
    requires publish.GamePublished? && Admissible(publish.description)
    requires e.id != publish.id && e.game == publish.game && !e.ReviewPosted?
    requires e.GamePublished? ==> Admissible(e.description)
    ensures var actions, begun := Interrupted(publish, e, v, now), Reached(Opening(publish, now), config);
      && StoreAt(actions[..3], config).games == GamesAfter(begun.store, e)
      && StoreAt(actions, config).games == map[publish.game := FirstGame(publish).Embedded(v)]
  {
    OpeningReaches(publish, now, config);
    InterruptedSteps(publish, e, v, now, config);
    PassPutsBack(Reached(Opening(publish, now), config), FirstGame(publish), e, v, now, config);
  }

  lemma PassPutsBack(w: World, game: Game, e: Event, v: Dense, now: Time, config: G.Config)
    requires w.store.games == map[e.game := game] && game.id == e.game && game.dense == []
    requires w.passes == map[0 := [game]] && w.store.preferences == map[]
    requires e.id !in w.store.processed && !e.ReviewPosted? && (e.GamePublished? ==> Admissible(e.description))
    ensures var v1 := Next(w, Deliver(D.Attempt(D.Valid(e), now, false, false)), config);
      && v1.store.games == GamesAfter(w.store, e)
      && Next(v1, WriteBack(0, Some([v])), config).store.games == map[e.game := game.Embedded(v)]
  {
    EventInterrupts(w, e, now, config);
    LandsBack(Next(w, Deliver(D.Attempt(D.Valid(e), now, false, false)), config), v, game, config);
  }

  /** With no vector anywhere yet, an admissible event about the one known game takes effect and leaves it the only
      one. */
  lemma EventInterrupts(w: World, e: Event, now: Time, config: G.Config)
    requires w.store.games.Keys == {e.game} && Confluence.NothingEmbedded(w.store)
    requires e.id !in w.store.processed && !e.ReviewPosted? && (e.GamePublished? ==> Admissible(e.description))
    ensures var a := Deliver(D.Attempt(D.Valid(e), now, false, false));
      && Effective(w, a) == Some(e)
      && Next(w, a, config).store.games == GamesAfter(w.store, e)
      && Next(w, a, config).store.games.Keys == {e.game} && Next(w, a, config).passes == w.passes
  {
    var a := Deliver(D.Attempt(D.Valid(e), now, false, false));
    Confluence.EffectWhenSparse(w.store, e, now);
    DeliveredWrites(w, a, config);
    EventGames(w.store, e, now);
    StillOnly(w.store, e);
  }

  lemma StillOnly(s: StoreState, e: Event)
    requires s.games.Keys == {e.game}
    ensures GamesAfter(s, e).Keys == {e.game}
  {
    assert e.game in s.games.Keys;
    forall h ensures h in GamesAfter(s, e).Keys <==> h == e.game { assert h in s.games.Keys <==> h == e.game; }
  }

  lemma InterruptedSteps(publish: Event, e: Event, v: Dense, now: Time, config: G.Config)
    ensures var actions, begun := Interrupted(publish, e, v, now), Reached(Opening(publish, now), config);
      && Reached(actions[..2], config) == begun
      && Reached(actions[..3], config) == Next(begun, actions[2], config)
      && Reached(actions, config) == Next(Next(begun, actions[2], config), actions[3], config)
  {
    var actions, begun := Interrupted(publish, e, v, now), Opening(publish, now);
    assert actions[..2] == begun && actions[..3] == begun + [actions[2]]
      && actions == begun + [actions[2]] + [actions[3]];
    ReachedSnoc(begun, actions[2], config);
    ReachedSnoc(begun + [actions[2]], actions[3], config);
  }

  lemma LandsBack(w: World, v: Dense, game: Game, config: G.Config)
    requires w.store.games.Keys == {game.id} && w.passes == map[0 := [game]]
    ensures Next(w, WriteBack(0, Some([v])), config).store.games == map[game.id := game.Embedded(v)]
  {
    var games := G.EmbedAll(w.store.games, [game], [v]);
    assert [game][..0] == [] && [v][..0] == [];
    assert G.EmbedAll(w.store.games, [game][..0], [v][..0]) == w.store.games;
    assert games == w.store.games[game.id := game.Embedded(v)];
    forall h ensures h in games.Keys <==> h == game.id { assert h in w.store.games.Keys <==> h == game.id; }
  }

  /** A withdrawal undone: the game is published again though nobody published it. */
  lemma PassRevives(publish: Event, withdraw: Event, v: Dense, now: Time, config: G.Config)
    requires publish.GamePublished? && Admissible(publish.description)
    requires withdraw.GameWithdrawn? && withdraw.id != publish.id && withdraw.game == publish.game
    ensures var g, actions := publish.game, Interrupted(publish, withdraw, v, now);
      && Hidden(StoreAt(actions[..3], config).games, g)
      && g in StoreAt(actions, config).games && StoreAt(actions, config).games[g].isPublished
  {
    InterruptedReaches(publish, withdraw, v, now, config);
    OpeningReaches(publish, now, config);
  }

  /** A sale lost: the purchase took effect, and the counter is back at zero. */
  lemma PassLosesSale(publish: Event, buy: Event, v: Dense, now: Time, config: G.Config)
    requires publish.GamePublished? && Admissible(publish.description)
    requires buy.PurchaseCompleted? && buy.id != publish.id && buy.game == publish.game
    ensures var g, actions := publish.game, Interrupted(publish, buy, v, now);
      && SalesOf(StoreAt(actions[..3], config).games, g) == 1
      && SalesOf(StoreAt(actions, config).games, g) == 0
      && Sold(actions, config, 0, g) >= 1
  {
    var g, actions := publish.game, Interrupted(publish, buy, v, now);
    InterruptedReaches(publish, buy, v, now, config);
    OpeningReaches(publish, now, config);
    SalesAccounted(actions[..3], config, g);
    SoldSplit(actions, config, 3, g);
  }

  /** New words lost: the game ranks by the old words and by a vector computed from them. */
  lemma PassKeepsOldWords(publish: Event, again: Event, v: Dense, now: Time, config: G.Config)
    requires publish.GamePublished? && Admissible(publish.description)
    requires again.GamePublished? && Admissible(again.description) && again.id != publish.id
      && again.game == publish.game
    ensures var g, actions := publish.game, Interrupted(publish, again, v, now);
      var before, after := StoreAt(actions[..3], config).games, StoreAt(actions, config).games;
      && g in before && before[g].title == again.description.title
      && before[g].embedding == Of(again.description.features) && before[g].dense == []
      && g in after && after[g].title == publish.description.title
      && after[g].embedding == Of(publish.description.features) && after[g].dense == v
  {
    InterruptedReaches(publish, again, v, now, config);
    OpeningReaches(publish, now, config);
  }
}
