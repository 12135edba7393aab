/** Generations that wait for their explanations: what they rank is read in one step and committed in a later one, with
    deliveries, embedding passes and other generations in between. */
module Drafts {
  import opened Ordering
  import opened Vectors
  import opened Catalog
  import opened Preference
  import opened Recommendations
  import opened Store
  import opened Ingest
  import opened Ledger
  import opened Scoring
  import opened System
  import D = Delivery
  import G = Generate

  /** What a generation has read: its plan, the rebuilt profile in it. */
  datatype Draft = Draft(call: G.Call, plan: G.Plan)

  datatype Service = Service(world: World, drafts: map<int, Draft>)

  datatype Move = Do(action: Action) | Read(slot: int, call: G.Call) | Commit(slot: int)

  function ListOf(d: Draft): seq<Recommendation> {
    if d.plan.Listed? then G.RecommendationsOf(G.Explained(d.plan.scored, d.call.explanations), d.call) else []
  }

  predicate Lands(d: Draft) {
    !d.call.fault && !d.plan.Fails?
  }

  /** The staged writes of the generation, over whatever the store holds by then. */
  function Committed(s: StoreState, d: Draft, config: G.Config): StoreState {
    if !Lands(d) then s else
    s.(preferences := G.PreferencesAfter(s.preferences, d.plan, config),
       recommendations := s.recommendations[d.call.user := ListOf(d)],
       outbox := if ListOf(d) == [] then s.outbox else s.outbox + [G.EventOf(ListOf(d), d.call, config)])
  }

  function DraftOf(s: StoreState, call: G.Call, config: G.Config): Draft {
    Draft(call, G.PlanFor(s, call.user, config))
  }

  /** Read and committed with nothing in between, it is the generation. */
  lemma AtOnce(s: StoreState, call: G.Call, config: G.Config)
    ensures Committed(s, DraftOf(s, call, config), config) == G.Generated(s, call, config)
  {}

  function Moved(v: Service, m: Move, config: G.Config): Service {
    match m
    case Do(a) => v.(world := Next(v.world, a, config))
    case Read(slot, call) => v.(drafts := v.drafts[slot := DraftOf(v.world.store, call, config)])
    case Commit(slot) =>
      if slot !in v.drafts then v else
      Service(v.world.(store := Committed(v.world.store, v.drafts[slot], config)), v.drafts - {slot})
  }

  function At(moves: seq<Move>, config: G.Config): Service {
    if moves == [] then Service(INITIAL, map[]) else
    Moved(At(moves[..|moves| - 1], config), moves[|moves| - 1], config)
  }

  function StoreIn(moves: seq<Move>, config: G.Config): StoreState {
    At(moves, config).world.store
  }

  function IssuedBy(v: Service, m: Move): seq<Entry> {
    if m.Do? && m.action.Deliver? then D.Recorded(v.world.store, m.action.attempt) else []
  }

  /** Every credit the run issued. */
  function Log(moves: seq<Move>, config: G.Config): seq<Entry> {
    if moves == [] then [] else
    Log(moves[..|moves| - 1], config) + IssuedBy(At(moves[..|moves| - 1], config), moves[|moves| - 1])
  }

  // ---------------------------------------------------------------- one commit

  /** The two profiles stand for the same credits. */
  predicate SameCredits(p: UserPreference, q: UserPreference) {
    p.taste == q.taste && p.owned == q.owned && p.history == q.history && p.signalCount == q.signalCount
  }

  /** The commit writes a profile back. */
  predicate WritesProfile(d: Draft, config: G.Config) {
    config.denseSpace && Lands(d) && d.plan.Listed?
  }

  ghost predicate Current(s: StoreState, d: Draft, config: G.Config) {
    WritesProfile(d, config) ==> SameCredits(d.plan.preference, PreferenceOf(s.preferences, d.plan.preference.user))
  }

  /** A commit keeps profiles and rows in agreement with the credits exactly when the profile it writes back stands for
      the same credits as the stored one: always on the sparse path, which writes none. */
  lemma CommitCreditedIff(s: StoreState, log: seq<Entry>, d: Draft, config: G.Config)
    requires CreditedIn(s, log)
    ensures CreditedIn(Committed(s, d, config), log) <==> Current(s, d, config)
  {
    if WritesProfile(d, config) {
      FiledCreditedIff(s.preferences, s.ownerships, log, d.plan.preference);
    }
  }

  lemma FiledCreditedIff(preferences: Preferences, table: Ownerships, log: seq<Entry>, q: UserPreference)
    requires Credited(preferences, table, log)
    ensures Credited(Filed(preferences, q), table, log) <==> SameCredits(q, PreferenceOf(preferences, q.user))
  {
    if SameCredits(q, PreferenceOf(preferences, q.user)) { FiledCredited(preferences, table, log, q); }
    if Credited(Filed(preferences, q), table, log) {
      FiledProfile(preferences, q, q.user);
      assert UserMatches(preferences, log, q.user) && UserMatches(Filed(preferences, q), log, q.user);
      SameOwned(preferences, Filed(preferences, q), table, q.user);
    }
  }

  lemma SameOwned(before: Preferences, after: Preferences, table: Ownerships, u: UserId)
    requires CountedIffOwned(before, table) && CountedIffOwned(after, table)
    ensures PreferenceOf(before, u).owned == PreferenceOf(after, u).owned
  {
    forall g ensures g in PreferenceOf(before, u).owned <==> g in PreferenceOf(after, u).owned {
      assert Flag(table, u, g) == Some(true) <==> g in PreferenceOf(before, u).owned;
      assert Flag(table, u, g) == Some(true) <==> g in PreferenceOf(after, u).owned;
    }
  }

  lemma FiledCredited(preferences: Preferences, table: Ownerships, log: seq<Entry>, q: UserPreference)
    requires Credited(preferences, table, log) && SameCredits(q, PreferenceOf(preferences, q.user))
    ensures Credited(Filed(preferences, q), table, log)
  {
    var after := Filed(preferences, q);
    forall u ensures UserMatches(after, log, u) { FiledMatches(preferences, log, q, u); }
    FiledOwned(preferences, table, q);
  }

  lemma FiledMatches(preferences: Preferences, log: seq<Entry>, q: UserPreference, u: UserId)
    requires ProfilesMatch(preferences, log) && SameCredits(q, PreferenceOf(preferences, q.user))
    ensures UserMatches(Filed(preferences, q), log, u)
  {
    assert UserMatches(preferences, log, u);
    FiledProfile(preferences, q, u);
    CreditsMatch(PreferenceOf(preferences, u), PreferenceOf(Filed(preferences, q), u), EntriesOf(log, u));
  }

  lemma FiledOwned(preferences: Preferences, table: Ownerships, q: UserPreference)
    requires CountedIffOwned(preferences, table) && SameCredits(q, PreferenceOf(preferences, q.user))
    ensures CountedIffOwned(Filed(preferences, q), table)
  {
    forall u, g ensures Flag(table, u, g) == Some(true) <==> g in PreferenceOf(Filed(preferences, q), u).owned {
      FiledProfile(preferences, q, u);
      assert Flag(table, u, g) == Some(true) <==> g in PreferenceOf(preferences, u).owned;
    }
  }

  lemma CreditsMatch(p: UserPreference, q: UserPreference, mine: seq<Entry>)
    requires ProfileMatches(p, mine) && SameCredits(q, p)
    ensures ProfileMatches(q, mine)
  {}

  // ---------------------------------------------------------------- whole runs

  ghost predicate CommitsCurrent(v: Service, m: Move, config: G.Config) {
    m.Commit? && m.slot in v.drafts ==> Current(v.world.store, v.drafts[m.slot], config)
  }

  ghost predicate AlwaysCurrent(moves: seq<Move>, config: G.Config) {
    forall i :: 0 <= i < |moves| ==> CommitsCurrent(At(moves[..i], config), moves[i], config)
  }

  ghost predicate CreditedThroughout(moves: seq<Move>, config: G.Config) {
    forall k :: 0 <= k <= |moves| ==> CreditedAt(moves[..k], config)
  }

  ghost predicate CreditedAt(moves: seq<Move>, config: G.Config) {
    CreditedIn(StoreIn(moves, config), Log(moves, config))
  }

  lemma MoveCreditedIff(v: Service, log: seq<Entry>, m: Move, config: G.Config)
    requires CreditedIn(v.world.store, log)
    ensures CreditedIn(Moved(v, m, config).world.store, log + IssuedBy(v, m)) <==> CommitsCurrent(v, m, config)
  {
    assert log + [] == log;
    match m
    case Do(a) => NextCredited(v.world, log, a, config);
    case Read(_, _) =>
    case Commit(slot) => if slot in v.drafts { CommitCreditedIff(v.world.store, log, v.drafts[slot], config); }
  }

  lemma CreditedSnoc(moves: seq<Move>, config: G.Config)
    requires moves != [] && CreditedAt(moves[..|moves| - 1], config)
    ensures var n := |moves| - 1;
      CreditedAt(moves, config) <==> CommitsCurrent(At(moves[..n], config), moves[n], config)
  {
    var n := |moves| - 1;
    MoveCreditedIff(At(moves[..n], config), Log(moves[..n], config), moves[n], config);
  }

  /** Over any run, with any number of generations waiting for their explanations: profiles and rows agree with the
      credits throughout exactly when every commit finds the profile it read. */
  lemma CreditedIff(moves: seq<Move>, config: G.Config)
    ensures CreditedThroughout(moves, config) <==> AlwaysCurrent(moves, config)
  {
    if CreditedThroughout(moves, config) {
      forall i | 0 <= i < |moves| ensures CommitsCurrent(At(moves[..i], config), moves[i], config) {
        assert moves[..i + 1][..i] == moves[..i];
        assert CreditedAt(moves[..i], config) && CreditedAt(moves[..i + 1], config);
        CreditedSnoc(moves[..i + 1], config);
      }
    }
    if AlwaysCurrent(moves, config) {
      forall k | 0 <= k <= |moves| ensures CreditedAt(moves[..k], config) { CreditedUpTo(moves, k, config); }
    }
  }

  lemma {:induction false} CreditedUpTo(moves: seq<Move>, k: nat, config: G.Config)
    requires AlwaysCurrent(moves, config) && k <= |moves|
    ensures CreditedAt(moves[..k], config)
  {
    if k == 0 {
      EmptyLedgered();
    } else {
      CreditedUpTo(moves, k - 1, config);
      assert moves[..k][..k - 1] == moves[..k - 1];
      CreditedSnoc(moves[..k], config);
    }
  }

  /** On the sparse path nothing is written back, so no wait disturbs the credits. */
  lemma SparseAlwaysCredited(moves: seq<Move>, config: G.Config)
    requires !config.denseSpace
    ensures CreditedThroughout(moves, config)
  {
    CreditedIff(moves, config);
  }

  // ---------------------------------------------------------------- since the read

  /** The step at which a draft was read. */
  function ReadAt(moves: seq<Move>, slot: int): (i: nat)
    ensures i <= |moves|
  {
    if moves == [] then 0
    else if moves[|moves| - 1].Read? && moves[|moves| - 1].slot == slot then |moves| - 1
    else ReadAt(moves[..|moves| - 1], slot)
  }

  /** A draft is the plan of the store it was read from. */
  lemma {:induction false} DraftIsRead(moves: seq<Move>, config: G.Config, slot: int)
    requires slot in At(moves, config).drafts
    ensures var d := At(moves, config).drafts[slot];
      d == DraftOf(StoreIn(moves[..ReadAt(moves, slot)], config), d.call, config)
  {
    var front, last := moves[..|moves| - 1], moves[|moves| - 1];
    if last.Read? && last.slot == slot {
      assert moves[..ReadAt(moves, slot)] == front;
    } else {
      DraftKept(At(front, config), last, config, slot);
      DraftIsRead(front, config, slot);
      assert front[..ReadAt(front, slot)] == moves[..ReadAt(moves, slot)];
    }
  }

  lemma DraftKept(v: Service, m: Move, config: G.Config, slot: int)
    requires slot in Moved(v, m, config).drafts && !(m.Read? && m.slot == slot)
    ensures slot in v.drafts && v.drafts[slot] == Moved(v, m, config).drafts[slot]
  {}

  /** The credits issued to a user so far. */
  function Mine(moves: seq<Move>, config: G.Config, user: UserId): seq<Entry> {
    EntriesOf(Log(moves, config), user)
  }

  lemma {:induction false} LogGrows(moves: seq<Move>, k: nat, config: G.Config, user: UserId)
    requires k <= |moves|
    ensures |Mine(moves[..k], config, user)| <= |Mine(moves, config, user)|
    ensures Mine(moves[..k], config, user) == Mine(moves, config, user)[..|Mine(moves[..k], config, user)|]
    decreases |moves|
  {
    if k == |moves| {
      assert moves[..k] == moves;
    } else {
      var front := moves[..|moves| - 1];
      assert front[..k] == moves[..k];
      LogGrows(front, k, config, user);
      FilterAppend(Log(front, config), IssuedBy(At(front, config), moves[|moves| - 1]), (e: Entry) => e.user == user);
    }
  }

  /** No credit was issued to the draft's user since it was read. */
  predicate Uncredited(moves: seq<Move>, config: G.Config, slot: int)
    requires slot in At(moves, config).drafts
  {
    var user := At(moves, config).drafts[slot].call.user;
    |Mine(moves, config, user)| == |Mine(moves[..ReadAt(moves, slot)], config, user)|
  }

  /** While the credits agree, a draft is current exactly when it writes no profile or no credit was issued to its user
      since it was read. */
  lemma CurrentIffUncredited(moves: seq<Move>, config: G.Config, slot: int)
    requires slot in At(moves, config).drafts && CreditedThroughout(moves, config)
    ensures var d := At(moves, config).drafts[slot];
      Current(StoreIn(moves, config), d, config) <==> !WritesProfile(d, config) || Uncredited(moves, config, slot)
  {
    var d, i := At(moves, config).drafts[slot], ReadAt(moves, slot);
    var user := d.call.user;
    DraftIsRead(moves, config, slot);
    if WritesProfile(d, config) {
      assert moves[..|moves|] == moves && CreditedAt(moves[..|moves|], config) && CreditedAt(moves[..i], config);
      LogGrows(moves, i, config, user);
      ReadProfile(StoreIn(moves[..i], config), d, config);
      CreditsFromLog(StoreIn(moves[..i], config).preferences, Log(moves[..i], config),
                     StoreIn(moves, config).preferences, Log(moves, config), user);
    }
  }

  lemma ReadProfile(s: StoreState, d: Draft, config: G.Config)
    requires d == DraftOf(s, d.call, config) && d.plan.Listed?
    ensures d.plan.preference.user == d.call.user
    ensures SameCredits(d.plan.preference, PreferenceOf(s.preferences, d.call.user))
  {}

  lemma CreditsFromLog(before: Preferences, earlier: seq<Entry>, after: Preferences, log: seq<Entry>, u: UserId)
    requires ProfilesMatch(before, earlier) && ProfilesMatch(after, log)
    requires var mine, now := EntriesOf(earlier, u), EntriesOf(log, u); |mine| <= |now| && mine == now[..|mine|]
    ensures SameCredits(PreferenceOf(before, u), PreferenceOf(after, u))
       <==> |EntriesOf(log, u)| == |EntriesOf(earlier, u)|
  {
    assert UserMatches(before, earlier, u) && UserMatches(after, log, u);
    SameEntries(PreferenceOf(before, u), EntriesOf(earlier, u), PreferenceOf(after, u), EntriesOf(log, u));
  }

  lemma SameEntries(p: UserPreference, mine: seq<Entry>, q: UserPreference, now: seq<Entry>)
    requires ProfileMatches(p, mine) && ProfileMatches(q, now) && |mine| <= |now| && mine == now[..|mine|]
    ensures SameCredits(p, q) <==> |now| == |mine|
  {
    if |now| == |mine| {
      assert now == mine;
      SameOwnedEntries(p, q, mine);
    }
  }

  lemma SameOwnedEntries(p: UserPreference, q: UserPreference, mine: seq<Entry>)
    requires ProfileMatches(p, mine) && ProfileMatches(q, mine)
    ensures p.owned == q.owned
  {
    forall g ensures g in p.owned <==> g in q.owned {}
  }

  /** So a generation that waits disturbs the credits exactly when it writes a profile back and its user was credited
      while it waited. */
  lemma WaitDisturbsIff(moves: seq<Move>, config: G.Config, slot: int)
    requires slot in At(moves, config).drafts && CreditedThroughout(moves, config)
    ensures var d := At(moves, config).drafts[slot];
      CreditedAt(moves + [Commit(slot)], config) <==> !WritesProfile(d, config) || Uncredited(moves, config, slot)
  {
    var all := moves + [Commit(slot)];
    assert all[..|moves|] == moves && moves[..|moves|] == moves;
    assert CreditedAt(moves[..|moves|], config);
    CreditedSnoc(all, config);
    CurrentIffUncredited(moves, config, slot);
  }

  // ---------------------------------------------------------------- what a waiting list may offer

  /** A list that waited avoids the games that were counted when it was read; any it offers that is counted by now was
      credited to its user since. */
  lemma WaitedListUnowned(moves: seq<Move>, config: G.Config, slot: int, r: Recommendation)
    requires slot in At(moves, config).drafts && r in ListOf(At(moves, config).drafts[slot])
    requires CreditedThroughout(moves, config)
    ensures var u, i := At(moves, config).drafts[slot].call.user, ReadAt(moves, slot);
      && Flag(StoreIn(moves[..i], config).ownerships, u, r.game) != Some(true)
      && (Flag(StoreIn(moves, config).ownerships, u, r.game) == Some(true) ==> !Uncredited(moves, config, slot))
  {
    var d, i := At(moves, config).drafts[slot], ReadAt(moves, slot);
    var s, t := StoreIn(moves[..i], config), StoreIn(moves, config);
    DraftIsRead(moves, config, slot);
    assert moves[..|moves|] == moves && CreditedAt(moves[..|moves|], config) && CreditedAt(moves[..i], config);
    assert ListOf(d) == G.ListFor(s, d.call, config);
    ListedNotCounted(s, d.call, config, r);
    if Uncredited(moves, config, slot) {
      LogGrows(moves, i, config, d.call.user);
      CreditsFromLog(s.preferences, Log(moves[..i], config), t.preferences, Log(moves, config), d.call.user);
      StillUnowned(s, t, d.call.user, r.game);
    }
  }

  lemma StillUnowned(s: StoreState, t: StoreState, u: UserId, g: GameId)
    requires CountedIffOwned(s.preferences, s.ownerships) && CountedIffOwned(t.preferences, t.ownerships)
    requires PreferenceOf(s.preferences, u).owned == PreferenceOf(t.preferences, u).owned
    requires Flag(s.ownerships, u, g) != Some(true)
    ensures Flag(t.ownerships, u, g) != Some(true)
  {
    assert Flag(t.ownerships, u, g) == Some(true) <==> g in PreferenceOf(t.preferences, u).owned;
    assert Flag(s.ownerships, u, g) == Some(true) <==> g in PreferenceOf(s.preferences, u).owned;
  }
}
