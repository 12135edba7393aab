/** Sweeps of any number of replicas, interleaved in any way, while no event arrives. */
module Sweeps {
  import opened Ordering
  import opened Vectors
  import opened Catalog
  import opened Preference
  import opened Recommendations
  import opened Store
  import opened Scoring
  import opened Ingest
  import opened System
  import opened Passes
  import G = Generate
  import Refresh

  /** The scorer is the one of the configured space. */
  ghost predicate Wired(config: G.Config, root: Root) {
    config.scorer == if config.denseSpace then DenseScorer(root) else SparseScorer(root)
  }

  /** Published, not owned and within the scan. */
  predicate Candidate(s: StoreState, user: UserId, config: G.Config, g: GameId) {
    && g in s.games && s.games[g] in Recommendable(s.games, config.catalogueLimit)
    && g !in PreferenceOf(s.preferences, user).owned
  }

  predicate Remembers(s: StoreState, user: UserId, g: GameId) {
    g in RememberedGames(PreferenceOf(s.preferences, user).history)
  }

  /** The user's list reads the dense vector of the game. */
  predicate Reads(s: StoreState, user: UserId, config: G.Config, g: GameId) {
    config.denseSpace && g in s.games && (Remembers(s, user, g) || Candidate(s, user, config, g))
  }

  // ---------------------------------------------------------------- what a plan reads of the vectors

  /** Two stores that differ in dense vectors only, and in none that the user's list reads. */
  ghost predicate SameReading(s: StoreState, t: StoreState, user: UserId, config: G.Config) {
    && t == s.(games := t.games) && G.SameButVectors(s.games, t.games)
    && forall g :: Reads(s, user, config, g) ==> t.games[g].dense == s.games[g].dense
  }

  lemma SamePrepared(s: StoreState, t: StoreState, user: UserId, config: G.Config)
    requires SameReading(s, t, user, config)
    ensures var p := PreferenceOf(s.preferences, user); G.Prepared(t.games, p, config) == G.Prepared(s.games, p, config)
  {
    if config.denseSpace {
      var p := PreferenceOf(s.preferences, user);
      var ids := RememberedGames(p.history);
      forall g | g in ids
        ensures VectorOf(G.PlayedSpace(s.games, ids), g) == VectorOf(G.PlayedSpace(t.games, ids), g)
      {
        assert g in s.games.Keys <==> g in t.games.Keys;
        if g in s.games { assert Reads(s, user, config, g); }
      }
      RememberedSuffice(p.history, G.PlayedSpace(s.games, ids), G.PlayedSpace(t.games, ids));
    }
  }

  lemma ReadIsBlind(s: StoreState, t: StoreState, user: UserId, config: G.Config, root: Root, q: UserPreference)
    requires Wired(config, root) && SameReading(s, t, user, config)
    requires q.owned == PreferenceOf(s.preferences, user).owned
    ensures Refresh.AllBlind(config.scorer, q, t.games, Recommendable(s.games, config.catalogueLimit))
  {
    var candidates := Recommendable(s.games, config.catalogueLimit);
    G.RecommendableUnique(s.games, config.catalogueLimit);
    forall g | g in candidates && g.isPublished && g.id !in q.owned
      ensures Refresh.Blind(config.scorer, q, t.games, g)
    {
      if config.denseSpace {
        assert Candidate(s, user, config, g.id);
        assert g.id in t.games.Keys <==> g.id in s.games.Keys;
        assert Refresh.In(t.games)(g) == g;
      } else {
        Refresh.SparseIsBlind(root, q, t.games, candidates);
      }
    }
  }

  /** Vectors a user's list does not read change nothing of it: on the sparse path none is read, in the dense space
      those of the remembered games and of the candidates are. */
  lemma PlanReads(s: StoreState, t: StoreState, user: UserId, config: G.Config, root: Root)
    requires Wired(config, root) && SameReading(s, t, user, config)
    ensures G.PlanCores(G.PlanFor(t, user, config)) == G.PlanCores(G.PlanFor(s, user, config))
    ensures G.PlanFor(t, user, config).Fails? <==> G.PlanFor(s, user, config).Fails?
  {
    SamePrepared(s, t, user, config);
    PlanGiven(s, user, config);
    PlanGiven(t, user, config);
    var prepared := G.Prepared(s.games, PreferenceOf(s.preferences, user), config);
    if prepared.Some? { SameRanking(s, t, user, config, root, prepared.value); }
  }

  lemma PlanGiven(s: StoreState, user: UserId, config: G.Config)
    ensures var p, plan := PreferenceOf(s.preferences, user), G.PlanFor(s, user, config);
      var prepared := G.Prepared(s.games, p, config);
      && (plan.Fails? <==> !p.IsCold() && prepared.None?)
      && G.PlanCores(plan)
         == if p.IsCold() || prepared.None? then []
            else G.Cores(G.RankedFor(s.games, s.ownerships, prepared.value, config))
  {}

  lemma SameRanking(s: StoreState, t: StoreState, user: UserId, config: G.Config, root: Root, q: UserPreference)
    requires Wired(config, root) && SameReading(s, t, user, config)
    requires q.owned == PreferenceOf(s.preferences, user).owned
    ensures G.Cores(G.RankedFor(t.games, t.ownerships, q, config))
         == G.Cores(G.RankedFor(s.games, s.ownerships, q, config))
  {
    ReadIsBlind(s, t, user, config, root, q);
    Refresh.RankedForMapped(s.games, t.games, s.ownerships, q, config);
    Refresh.CoresMapped(G.RankedFor(s.games, s.ownerships, q, config), t.games);
  }

  // ---------------------------------------------------------------- one step of a sweep

  ghost predicate NoDeliveries(tail: seq<Action>) {
    forall i :: 0 <= i < |tail| ==> !tail[i].Deliver?
  }

  /** Every snapshot in flight still says what the catalogue says, vectors aside. */
  ghost predicate AllCurrent(w: World) {
    forall p :: p in w.passes ==> G.StillCurrent(w.store.games, w.passes[p])
  }

  /** The action lands no game whose vector the user's list reads. */
  ghost predicate Spares(w: World, a: Action, user: UserId, config: G.Config) {
    forall g :: Lands(w, a, g) ==> !Reads(w.store, user, config, g)
  }

  lemma CurrentLater(games: Games, later: Games, pending: seq<Game>)
    requires G.SameButVectors(games, later) && G.StillCurrent(games, pending)
    ensures G.StillCurrent(later, pending)
  {
    forall g | G.Held(pending, g).Some?
      ensures g in later && G.WordsOf(later[g]) == G.WordsOf(G.Held(pending, g).value)
    {
      assert g in games.Keys && g in later.Keys;
    }
  }

  /** Without an event a step changes vectors only, and snapshots in flight stay current. */
  lemma SweepStep(w: World, a: Action, config: G.Config)
    requires !a.Deliver? && AllCurrent(w)
    ensures G.SameButVectors(w.store.games, Next(w, a, config).store.games)
    ensures AllCurrent(Next(w, a, config))
  {
    match a
    case Generate(_) => GeneratedWrites(w, a, config);
    case Snapshot(_, batch) => G.SnapshotCurrent(w.store.games, batch);
    case WriteBack(pass, vectors) => if pass in w.passes { LandingStep(w, pass, vectors); }
  }

  lemma LandingStep(w: World, pass: int, vectors: Option<seq<Dense>>)
    requires AllCurrent(w) && pass in w.passes
    ensures var games := After(w.store, G.WrittenBack(w.store, w.passes[pass], vectors)).games;
      && G.SameButVectors(w.store.games, games)
      && forall p :: p in w.passes ==> G.StillCurrent(games, w.passes[p])
  {
    var games := After(w.store, G.WrittenBack(w.store, w.passes[pass], vectors)).games;
    LandingKeeps(w.store, w.passes[pass], vectors);
    forall p | p in w.passes ensures G.StillCurrent(games, w.passes[p]) {
      CurrentLater(w.store.games, games, w.passes[p]);
    }
  }

  lemma LandingKeeps(s: StoreState, pending: seq<Game>, vectors: Option<seq<Dense>>)
    requires G.StillCurrent(s.games, pending)
    ensures G.SameButVectors(s.games, After(s, G.WrittenBack(s, pending, vectors)).games)
  {
    if pending != [] && vectors.Some? && |vectors.value| == |pending| {
      G.WriteBackKeepsIff(s.games, pending, vectors.value);
    }
  }

  lemma SparedReading(w: World, a: Action, user: UserId, config: G.Config)
    requires (a.Snapshot? || a.WriteBack?) && AllCurrent(w) && Spares(w, a, user, config)
    ensures SameReading(w.store, Next(w, a, config).store, user, config)
  {
    SweepStep(w, a, config);
    PassWrites(w, a, config, 0);
    forall g | Reads(w.store, user, config, g)
      ensures Next(w, a, config).store.games[g].dense == w.store.games[g].dense
    {
      PassWrites(w, a, config, g);
    }
  }

  /** A spared user's plan survives every step, and so does what it reads. */
  lemma StepKeepsPlan(w: World, a: Action, user: UserId, config: G.Config, root: Root)
    requires Wired(config, root) && !a.Deliver? && AllCurrent(w) && Spares(w, a, user, config)
    ensures var s, t := w.store, Next(w, a, config).store;
      && G.PlanCores(G.PlanFor(t, user, config)) == G.PlanCores(G.PlanFor(s, user, config))
      && (G.PlanFor(t, user, config).Fails? <==> G.PlanFor(s, user, config).Fails?)
  {
    match a
    case Generate(call) => G.PlanStable(w.store, call, config, user);
    case _ =>
      SparedReading(w, a, user, config);
      PlanReads(w.store, Next(w, a, config).store, user, config, root);
  }

  lemma ScanKept(games: Games, later: Games, limit: nat, g: GameId)
    requires G.SameButVectors(games, later) && g in games && g in later
    ensures games[g] in Recommendable(games, limit) <==> later[g] in Recommendable(later, limit)
  {
    var scan := Recommendable(games, limit);
    Refresh.RecommendableMapped(games, later, limit);
    G.RecommendableUnique(games, limit);
    assert Refresh.In(later)(games[g]) == later[g];
    MapHas(scan, Refresh.In(later), games[g], later[g]);
  }

  lemma MapHas(games: seq<Game>, f: Game -> Game, x: Game, y: Game)
    requires f(x) == y && forall z :: z in games && f(z) == y ==> z == x
    ensures x in games <==> y in Map(games, f)
  {
    if x in games {
      var i :| 0 <= i < |games| && games[i] == x;
      assert Map(games, f)[i] == y;
    }
    if y in Map(games, f) {
      var i :| 0 <= i < |games| && Map(games, f)[i] == y;
      assert games[i] in games;
    }
  }

  lemma StepKeepsReads(w: World, a: Action, user: UserId, config: G.Config, g: GameId)
    requires !a.Deliver? && AllCurrent(w)
    ensures Reads(Next(w, a, config).store, user, config, g) <==> Reads(w.store, user, config, g)
  {
    var s, t := w.store, Next(w, a, config).store;
    SweepStep(w, a, config);
    SameUser(w, a, user, config);
    assert g in s.games.Keys <==> g in t.games.Keys;
    if g in s.games { ScanKept(s.games, t.games, config.catalogueLimit, g); }
  }

  lemma SameUser(w: World, a: Action, user: UserId, config: G.Config)
    requires !a.Deliver?
    ensures var p, q := PreferenceOf(w.store.preferences, user),
      PreferenceOf(Next(w, a, config).store.preferences, user);
      q.owned == p.owned && q.history == p.history
  {
    match a
    case Generate(_) => GeneratedWrites(w, a, config);
    case _ => PassWrites(w, a, config, 0);
  }

  // ---------------------------------------------------------------- any interleaving

  /** No write-back of the run lands a game whose vector the user's list reads. */
  ghost predicate Harmless(w: World, tail: seq<Action>, user: UserId, config: G.Config) {
    forall i, g :: 0 <= i < |tail| && Lands(From(w, tail[..i], config), tail[i], g) ==> !Reads(w.store, user, config, g)
  }

  /** Some replica generates for the user without a fault. */
  predicate GeneratesFor(tail: seq<Action>, user: UserId) {
    exists i :: 0 <= i < |tail| && tail[i].Generate? && tail[i].call.user == user && !tail[i].call.fault
  }

  lemma {:induction false} StaysCurrent(w: World, tail: seq<Action>, config: G.Config)
    requires AllCurrent(w) && NoDeliveries(tail)
    ensures AllCurrent(From(w, tail, config))
  {
    if tail != [] {
      var front := tail[..|tail| - 1];
      assert forall i :: 0 <= i < |front| ==> front[i] == tail[i];
      StaysCurrent(w, front, config);
      SweepStep(From(w, front, config), tail[|tail| - 1], config);
    }
  }

  lemma {:induction false} ReadsKept(w: World, tail: seq<Action>, user: UserId, config: G.Config, g: GameId)
    requires AllCurrent(w) && NoDeliveries(tail)
    ensures Reads(From(w, tail, config).store, user, config, g) <==> Reads(w.store, user, config, g)
  {
    if tail != [] {
      var front := tail[..|tail| - 1];
      assert forall i :: 0 <= i < |front| ==> front[i] == tail[i];
      ReadsKept(w, front, user, config, g);
      StaysCurrent(w, front, config);
      StepKeepsReads(From(w, front, config), tail[|tail| - 1], user, config, g);
    }
  }

  lemma HarmlessFront(w: World, tail: seq<Action>, user: UserId, config: G.Config)
    requires tail != [] && AllCurrent(w) && NoDeliveries(tail) && Harmless(w, tail, user, config)
    ensures var front, last := tail[..|tail| - 1], tail[|tail| - 1];
      && NoDeliveries(front) && Harmless(w, front, user, config) && !last.Deliver?
      && AllCurrent(From(w, front, config)) && Spares(From(w, front, config), last, user, config)
  {
    var n := |tail| - 1;
    var front := tail[..n];
    assert forall i :: 0 <= i < n ==> front[i] == tail[i];
    forall i, g | 0 <= i < n && Lands(From(w, front[..i], config), front[i], g)
      ensures !Reads(w.store, user, config, g)
    {
      assert front[..i] == tail[..i];
    }
    StaysCurrent(w, front, config);
    forall g | Lands(From(w, front, config), tail[n], g) ensures !Reads(From(w, front, config).store, user, config, g) {
      assert tail[..n] == front;
      ReadsKept(w, front, user, config, g);
    }
  }

  lemma GeneratesForSnoc(tail: seq<Action>, user: UserId)
    requires tail != []
    ensures var front, last := tail[..|tail| - 1], tail[|tail| - 1];
      GeneratesFor(tail, user) <==>
        GeneratesFor(front, user) || (last.Generate? && last.call.user == user && !last.call.fault)
  {
    var n := |tail| - 1;
    var front := tail[..n];
    forall i | 0 <= i < n ensures front[i] == tail[i] {}
    if GeneratesFor(front, user) {
      var i :| 0 <= i < n && front[i].Generate? && front[i].call.user == user && !front[i].call.fault;
      assert tail[i] == front[i];
    }
  }

  /** What the run leaves stored for the user. */
  function LeftStored(s: StoreState, tail: seq<Action>, user: UserId, config: G.Config): seq<Item> {
    if GeneratesFor(tail, user) && !G.PlanFor(s, user, config).Fails? then G.PlanCores(G.PlanFor(s, user, config))
    else G.StoredCores(s, user)
  }

  /** Any number of replicas, sweeping in any interleaving, embedding passes begun and landed at any point: a user some
      faultless generation covers ends with the list the first state determines, and anyone else with the list they had,
      whenever no vector their list reads is landed. */
  lemma {:induction false} InterleavedStores(w: World, tail: seq<Action>, user: UserId, config: G.Config, root: Root)
    requires Wired(config, root) && AllCurrent(w) && NoDeliveries(tail) && Harmless(w, tail, user, config)
    ensures var s, t := w.store, From(w, tail, config).store;
      && G.StoredCores(t, user) == LeftStored(s, tail, user, config)
      && G.PlanCores(G.PlanFor(t, user, config)) == G.PlanCores(G.PlanFor(s, user, config))
      && (G.PlanFor(t, user, config).Fails? <==> G.PlanFor(s, user, config).Fails?)
  {
    if tail != [] {
      var front, last := tail[..|tail| - 1], tail[|tail| - 1];
      HarmlessFront(w, tail, user, config);
      InterleavedStores(w, front, user, config, root);
      StepKeepsPlan(From(w, front, config), last, user, config, root);
      GeneratesForSnoc(tail, user);
      StepStores(From(w, front, config), last, user, config);
    }
  }

  lemma StepStores(w: World, a: Action, user: UserId, config: G.Config)
    requires !a.Deliver?
    ensures var s, t := w.store, Next(w, a, config).store;
      G.StoredCores(t, user)
      == if a.Generate? && a.call.user == user && !a.call.fault && !G.PlanFor(s, user, config).Fails?
         then G.PlanCores(G.PlanFor(s, user, config)) else G.StoredCores(s, user)
  {
    NextServes(w, a, config, user);
    if a.Generate? && a.call.user == user { G.ListCores(w.store, a.call, config); }
  }

  /** On the sparse path nothing is asked of the vectors. */
  lemma SparseHarmless(w: World, tail: seq<Action>, user: UserId, config: G.Config)
    requires !config.denseSpace
    ensures Harmless(w, tail, user, config)
  {}

  lemma SparseInterleavedStores(w: World, tail: seq<Action>, user: UserId, config: G.Config, root: Root)
    requires config.scorer == SparseScorer(root) && !config.denseSpace && AllCurrent(w) && NoDeliveries(tail)
    ensures G.StoredCores(From(w, tail, config).store, user) ==
      if GeneratesFor(tail, user) then G.PlanCores(G.PlanFor(w.store, user, config)) else G.StoredCores(w.store, user)
  {
    SparseHarmless(w, tail, user, config);
    InterleavedStores(w, tail, user, config, root);
  }

  // ---------------------------------------------------------------- sweeping again

  lemma FromAppend(w: World, first: seq<Action>, second: seq<Action>, config: G.Config)
    ensures From(w, first + second, config) == From(From(w, first, config), second, config)
    decreases |second|
  {
    if second == [] {
      assert first + second == first;
    } else {
      var front := second[..|second| - 1];
      assert (first + second)[..|first + second| - 1] == first + front;
      FromAppend(w, first, front, config);
    }
  }

  /** What is stored for the user is what would be generated now, if it can be. */
  predicate UpToDate(s: StoreState, user: UserId, config: G.Config) {
    G.PlanFor(s, user, config).Fails? || G.StoredCores(s, user) == G.PlanCores(G.PlanFor(s, user, config))
  }

  /** Sweeps that embed first and generate afterwards leave the users they generate for up to date. */
  lemma SweepsBringUpToDate(w: World, embedding: seq<Action>, generating: seq<Action>, user: UserId, config: G.Config,
                            root: Root)
    requires Wired(config, root) && AllCurrent(w) && NoDeliveries(embedding) && NoDeliveries(generating)
    requires Harmless(From(w, embedding, config), generating, user, config) && GeneratesFor(generating, user)
    ensures UpToDate(From(w, embedding + generating, config).store, user, config)
  {
    FromAppend(w, embedding, generating, config);
    StaysCurrent(w, embedding, config);
    InterleavedStores(From(w, embedding, config), generating, user, config, root);
  }

  /** Sweeping on changes no stored list, however the sweeps of the replicas interleave: whatever the first ones
      embedded, as long as they generated for the user afterwards, and the later ones land no vector the user's list
      reads. */
  lemma SweepsIdempotent(w: World, embedding: seq<Action>, generating: seq<Action>, again: seq<Action>, user: UserId,
                         config: G.Config, root: Root)
    requires Wired(config, root) && AllCurrent(w)
    requires NoDeliveries(embedding) && NoDeliveries(generating) && NoDeliveries(again)
    requires Harmless(From(w, embedding, config), generating, user, config)
    requires Harmless(From(w, embedding + generating, config), again, user, config)
    requires GeneratesFor(again, user) ==> GeneratesFor(generating, user)
    ensures G.StoredCores(From(w, embedding + generating + again, config).store, user)
         == G.StoredCores(From(w, embedding + generating, config).store, user)
  {
    var first := embedding + generating;
    forall i | 0 <= i < |first| ensures !first[i].Deliver? {
      assert first[i] == if i < |embedding| then embedding[i] else generating[i - |embedding|];
    }
    StaysCurrent(w, first, config);
    FromAppend(w, first, again, config);
    if GeneratesFor(again, user) { SweepsBringUpToDate(w, embedding, generating, user, config, root); }
    InterleavedStores(From(w, first, config), again, user, config, root);
  }

  /** On the sparse path nothing is asked of the vectors: the sweeps of any number of replicas, one inside another, with
      any answers of any provider, are idempotent together. */
  lemma SparseSweepsIdempotent(w: World, first: seq<Action>, again: seq<Action>, user: UserId, config: G.Config,
                               root: Root)
    requires config.scorer == SparseScorer(root) && !config.denseSpace && AllCurrent(w)
    requires NoDeliveries(first) && NoDeliveries(again) && (GeneratesFor(again, user) ==> GeneratesFor(first, user))
    ensures G.StoredCores(From(w, first + again, config).store, user)
         == G.StoredCores(From(w, first, config).store, user)
  {
    assert From(w, [], config) == w && [] + first == first;
    SparseHarmless(w, first, user, config);
    SparseHarmless(From(w, first, config), again, user, config);
    SweepsIdempotent(w, [], first, again, user, config, root);
  }

  /** The second pass embeds no game whose vector the user's list reads: the provider is down, or none is in its
      batch. */
  ghost predicate BatchSpares(s: StoreState, batch: nat, vectors: Option<seq<Dense>>, user: UserId, config: G.Config) {
    vectors.None? || forall g :: G.Held(G.Pending(s.games, batch), g).Some? ==> !Reads(s, user, config, g)
  }

  lemma SparedByBatch(s: StoreState, batch: nat, vectors: Option<seq<Dense>>, user: UserId, config: G.Config)
    requires G.EmbeddedPending(s, batch, vectors).Some? && BatchSpares(s, batch, vectors, user, config)
    ensures SameReading(s, G.EmbeddedPending(s, batch, vectors).value, user, config)
  {
    var t := G.EmbeddedPending(s, batch, vectors).value;
    G.EmbeddingChangesVectors(s, batch, vectors);
    if vectors.Some? && G.Pending(s.games, batch) != [] {
      forall g | Reads(s, user, config, g) ensures t.games[g].dense == s.games[g].dense {
        G.EmbedAllAt(s.games, G.Pending(s.games, batch), vectors.value, g);
      }
    }
  }

  /** One whole sweep after another, in either space: the second changes no stored list of a user when its batch holds
      no game whose vector their list reads, which can be checked before it starts. */
  lemma WholeSweepsIdempotent(s: StoreState, batch: nat, first: Option<seq<Dense>>, calls: seq<G.Call>,
                              second: Option<seq<Dense>>, again: seq<G.Call>, config: G.Config, root: Root,
                              user: UserId)
    requires Wired(config, root) && Refresh.Swept(s, batch, first, calls, config).Some?
    requires var t := Refresh.Swept(s, batch, first, calls, config).value;
      Refresh.Swept(t, batch, second, again, config).Some? && BatchSpares(t, batch, second, user, config)
    requires Refresh.Reaches(again, user) ==> Refresh.Reaches(calls, user)
    ensures var t := Refresh.Swept(s, batch, first, calls, config).value;
      G.StoredCores(Refresh.Swept(t, batch, second, again, config).value, user) == G.StoredCores(t, user)
  {
    var t := Refresh.Swept(s, batch, first, calls, config).value;
    SweptStored(s, batch, first, calls, user, config);
    SweptStored(t, batch, second, again, user, config);
    SparedByBatch(t, batch, second, user, config);
    PlanReads(t, G.EmbeddedPending(t, batch, second).value, user, config, root);
  }

  /** A whole sweep stores what the plan is after its embedding pass. */
  lemma SweptStored(s: StoreState, batch: nat, vectors: Option<seq<Dense>>, calls: seq<G.Call>, user: UserId,
                    config: G.Config)
    requires Refresh.Swept(s, batch, vectors, calls, config).Some?
    ensures var e, t := G.EmbeddedPending(s, batch, vectors).value,
      Refresh.Swept(s, batch, vectors, calls, config).value;
      && G.StoredCores(t, user) == (if Refresh.Reaches(calls, user) && !G.PlanFor(e, user, config).Fails?
                                    then G.PlanCores(G.PlanFor(e, user, config)) else G.StoredCores(s, user))
      && G.PlanFor(t, user, config) == G.PlanFor(e, user, config)
  {
    var e := G.EmbeddedPending(s, batch, vectors).value;
    G.EmbeddingChangesVectors(s, batch, vectors);
    G.RunStores(e, calls, config, user);
    G.PlanStableOverRun(e, calls, config, user);
    CoveredWhenReached(e, calls, user, config);
  }

  lemma CoveredWhenReached(s: StoreState, calls: seq<G.Call>, user: UserId, config: G.Config)
    ensures G.Covered(s, calls, config, user) <==>
      Refresh.Reaches(calls, user) && !G.PlanFor(s, user, config).Fails?
  {
    if Refresh.Reaches(calls, user) && !G.PlanFor(s, user, config).Fails? {
      var i :| 0 <= i < |calls| && calls[i].user == user && !calls[i].fault;
      assert G.Succeeds(s, calls[i], config);
    }
  }

  // ---------------------------------------------------------------- when every game has its vector

  /** No game waits for a vector, and no pass in flight holds one. */
  ghost predicate NoneWaiting(w: World) {
    && (forall g :: g in w.store.games ==> !w.store.games[g].NeedsEmbedding())
    && forall g :: !InFlight(w, g)
  }

  lemma NoneLands(w: World, a: Action, g: GameId)
    requires NoneWaiting(w)
    ensures !Lands(w, a, g)
  {
    if Lands(w, a, g) { assert InFlight(w, g); }
  }

  lemma NoneWaitingIsCurrent(w: World)
    requires NoneWaiting(w)
    ensures AllCurrent(w)
  {
    forall p, g | p in w.passes ensures G.Held(w.passes[p], g).None? {
      assert !InFlight(w, g);
    }
  }

  lemma StepStaysEmbedded(w: World, a: Action, config: G.Config)
    requires !a.Deliver? && NoneWaiting(w)
    ensures NoneWaiting(Next(w, a, config))
  {
    var t := Next(w, a, config);
    forall g | g in t.store.games ensures !t.store.games[g].NeedsEmbedding() {
      NoneLands(w, a, g);
      if a.Generate? { GeneratedWrites(w, a, config); } else { PassWrites(w, a, config, g); }
    }
    forall g ensures !InFlight(t, g) {
      assert !InFlight(w, g);
      match a
      case Generate(_) => GeneratedWrites(w, a, config);
      case Snapshot(pass, batch) =>
        PendingNeeds(w.store.games, batch, g);
        TakenGrounded(w.passes, pass, G.Pending(w.store.games, batch), g);
      case WriteBack(pass, _) => LandedGrounded(w.passes, pass, g);
    }
  }

  lemma {:induction false} StaysEmbedded(w: World, tail: seq<Action>, config: G.Config)
    requires NoneWaiting(w) && NoDeliveries(tail)
    ensures NoneWaiting(From(w, tail, config))
  {
    if tail != [] {
      var front := tail[..|tail| - 1];
      assert forall i :: 0 <= i < |front| ==> front[i] == tail[i];
      StaysEmbedded(w, front, config);
      StepStaysEmbedded(From(w, front, config), tail[|tail| - 1], config);
    }
  }

  lemma EmbeddedIsHarmless(w: World, tail: seq<Action>, user: UserId, config: G.Config)
    requires NoneWaiting(w) && NoDeliveries(tail)
    ensures Harmless(w, tail, user, config)
  {
    forall i, g | 0 <= i < |tail| ensures !Lands(From(w, tail[..i], config), tail[i], g) {
      StaysEmbedded(w, tail[..i], config);
      NoneLands(From(w, tail[..i], config), tail[i], g);
    }
  }

  /** Once every game has its vector, and until the next event, sweeping is idempotent in either space. */
  lemma SettledForGood(w: World, first: seq<Action>, again: seq<Action>, user: UserId, config: G.Config, root: Root)
    requires Wired(config, root) && NoneWaiting(w) && NoDeliveries(first) && NoDeliveries(again)
    requires GeneratesFor(again, user) ==> GeneratesFor(first, user)
    ensures G.StoredCores(From(w, first + again, config).store, user)
         == G.StoredCores(From(w, first, config).store, user)
  {
    assert From(w, [], config) == w && [] + first == first;
    NoneWaitingIsCurrent(w);
    StaysEmbedded(w, first, config);
    EmbeddedIsHarmless(w, first, user, config);
    EmbeddedIsHarmless(From(w, first, config), again, user, config);
    SweepsIdempotent(w, [], first, again, user, config, root);
  }
}
