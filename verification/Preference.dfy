/** `domain/preference/signal.py` and `profile.py`: what one user is believed to like. */
module Preference {
  import opened Ordering
  import opened Vectors
  import opened Catalog

  const MAX_SIGNAL_HISTORY: nat := 200

  datatype SignalKind = PURCHASE | REVIEW_LIKE | REVIEW_DISLIKE

  function WeightOf(kind: SignalKind): real {
    match kind
    case PURCHASE => 1.0
    case REVIEW_LIKE => 0.5
    case REVIEW_DISLIKE => -0.3
  }

  datatype SignalRecord = SignalRecord(game: GameId, weight: real)

  datatype UserPreference = UserPreference(
    user: UserId,
    taste: Embedding,
    tasteDense: Dense,
    owned: set<GameId>,
    history: seq<SignalRecord>,
    signalCount: nat,
    updatedAt: Option<Time>)
  {
    predicate IsCold() { signalCount == 0 || taste == EMPTY }
  }

  function Blank(user: UserId): UserPreference {
    UserPreference(user, EMPTY, [], {}, [], 0, None)
  }

  /** A profile is cold exactly when it has no signal or its taste has magnitude zero, where the cosine has nothing to
      divide by: a warm profile is scored by a proper cosine against every game with a feature. */
  lemma ColdIffWeightless(p: UserPreference, root: Root)
    requires RootAt(root, NormSquared(p.taste))
    ensures p.IsCold() <==> p.signalCount == 0 || Magnitude(p.taste, root) == 0.0
  {
    ZeroNorm(p.taste);
    RootZero(root, NormSquared(p.taste));
  }

  lemma RootZero(root: Root, x: real)
    requires RootAt(root, x)
    ensures root(x) == 0.0 <==> x == 0.0
  {
    SquareSign(root(x), root(x), x);
  }

  /** A warm user against a game that has features: the cosine is the dot product over two positive magnitudes. */
  lemma WarmCosine(p: UserPreference, game: Game, root: Root)
    requires RootAt(root, NormSquared(p.taste)) && RootAt(root, NormSquared(game.embedding))
    requires !p.IsCold() && game.embedding != EMPTY
    ensures var l, r := Magnitude(p.taste, root), Magnitude(game.embedding, root);
      l > 0.0 && r > 0.0 && l * r != 0.0
      && Cosine(p.taste, game.embedding, root)
        == Dot(p.taste.Keys * game.embedding.Keys, p.taste, game.embedding) / (l * r)
  {
    ColdIffWeightless(p, root);
    ZeroNorm(game.embedding);
    RootZero(root, NormSquared(game.embedding));
    NonZero(Magnitude(p.taste, root), Magnitude(game.embedding, root));
  }

  /** `xs[-limit:]` for a positive limit. */
  function Last<T(!new)>(xs: seq<T>, limit: nat): (r: seq<T>)
    ensures |r| == if |xs| <= limit then |xs| else limit
    ensures r == xs[|xs| - |r|..]
  {
    if |xs| <= limit then xs else xs[|xs| - limit..]
  }

  /** Folds one action into the profile; `None` is the width mismatch of the dense vectors. */
  function Observe(p: UserPreference, game: Game, kind: SignalKind, at: Time): (r: Option<UserPreference>)
    ensures r.None? <==> p.tasteDense != [] && game.dense != [] && |p.tasteDense| != |game.dense|
    ensures r.Some? ==> r.value.user == p.user
  {
    var weight := WeightOf(kind);
    var dense :- DensePlus(p.tasteDense, game.dense, weight);
    Some(UserPreference(
      p.user,
      Plus(p.taste, game.embedding, weight),
      dense,
      if kind == PURCHASE then p.owned + {game.id} else p.owned,
      Last(p.history + [SignalRecord(game.id, weight)], MAX_SIGNAL_HISTORY),
      p.signalCount + 1,
      Some(at)))
  }

  /** What an accepted action does to the taste, feature by feature and coordinate by coordinate: a purchase counts 1, a
      like 0.5, and a dislike takes 0.3 back. */
  lemma ActionMoves(p: UserPreference, game: Game, kind: SignalKind, at: Time, f: Feature, i: nat)
    requires Observe(p, game, kind, at).Some?
    ensures var q := Observe(p, game, kind, at).value;
      var w := match kind case PURCHASE => 1.0 case REVIEW_LIKE => 0.5 case REVIEW_DISLIKE => -0.3;
      && At(q.taste, f) == At(p.taste, f) + w * At(game.embedding, f)
      && Coordinate(q.tasteDense, i) == Coordinate(p.tasteDense, i) + w * Coordinate(game.dense, i)
  {
    PlusCoordinate(p.tasteDense, game.dense, WeightOf(kind), i);
    Weighed(kind, At(game.embedding, f));
    Weighed(kind, Coordinate(game.dense, i));
    assert At(Plus(p.taste, game.embedding, WeightOf(kind)), f)
        == At(p.taste, f) + Share(game.embedding, WeightOf(kind), f);
  }

  lemma Weighed(kind: SignalKind, x: real)
    ensures Times(WeightOf(kind), x)
         == (match kind case PURCHASE => 1.0 case REVIEW_LIKE => 0.5 case REVIEW_DISLIKE => -0.3) * x
  {}

  /** And what it records. */
  lemma ActionRecorded(p: UserPreference, game: Game, kind: SignalKind, at: Time)
    requires Observe(p, game, kind, at).Some?
    ensures var q := Observe(p, game, kind, at).value;
      var record := SignalRecord(game.id, match kind case PURCHASE => 1.0 case REVIEW_LIKE => 0.5
                                                     case REVIEW_DISLIKE => -0.3);
      && q.history == (if |p.history| < 200 then p.history else p.history[|p.history| - 199..]) + [record]
      && q.owned == p.owned + (if kind.PURCHASE? then {game.id} else {})
      && q.user == p.user && q.signalCount == p.signalCount + 1 && q.updatedAt == Some(at)
  {}

  // ---------------------------------------------------------------- rebuilding the dense vector

  type Space = map<GameId, Dense>

  /** The vector available for a game; a game without one, or with an empty one, contributes nothing. */
  function VectorOf(space: Space, game: GameId): Dense {
    if game in space then space[game] else []
  }

  /** The dense vector recomputed from remembered actions, oldest first. */
  function RebuiltDense(history: seq<SignalRecord>, space: Space): Option<Dense> {
    if history == [] then Some([]) else
    var last := history[|history| - 1];
    var sum :- RebuiltDense(history[..|history| - 1], space);
    DensePlus(sum, VectorOf(space, last.game), last.weight)
  }

  function Rebuilt(p: UserPreference, space: Space): Option<UserPreference> {
    var dense :- RebuiltDense(p.history, space);
    Some(p.(tasteDense := dense))
  }

  method RebuiltIn(p: UserPreference, space: Space) returns (r: Option<UserPreference>)
    ensures r == Rebuilt(p, space)
  {
    var rebuilt: Dense := [];
    for i := 0 to |p.history|
      invariant RebuiltDense(p.history[..i], space) == Some(rebuilt)
    {
      var record := p.history[i];
      assert p.history[..i + 1][..i] == p.history[..i];
      if record.game in space && space[record.game] != [] {
        var sum := DensePlus(rebuilt, space[record.game], record.weight);
        if sum.None? {
          RebuiltFailsEarly(p.history, i + 1, space);
          return None;
        }
        rebuilt := sum.value;
      }
    }
    assert p.history[..|p.history|] == p.history;
    r := Some(p.(tasteDense := rebuilt));
  }

  lemma {:induction false} RebuiltFailsEarly(history: seq<SignalRecord>, n: nat, space: Space)
    requires n <= |history| && RebuiltDense(history[..n], space).None?
    ensures RebuiltDense(history, space).None?
    decreases |history|
  {
    if n == |history| {
      assert history[..n] == history;
    } else {
      assert history[..|history| - 1][..n] == history[..n];
      RebuiltFailsEarly(history[..|history| - 1], n, space);
    }
  }

  /** A coordinate, zero past the end. */
  function Coordinate(v: Dense, i: nat): real {
    if i < |v| then v[i] else 0.0
  }

  /** `sum(weight * vector[i])` over the remembered actions that have a vector. */
  function DenseSum(history: seq<SignalRecord>, space: Space, i: nat): real {
    if history == [] then 0.0 else
    var last := history[|history| - 1];
    DenseSum(history[..|history| - 1], space, i) + Times(last.weight, Coordinate(VectorOf(space, last.game), i))
  }

  /** Two remembered games carry vectors of different widths: a model change mid-flight. */
  ghost predicate Mixed(history: seq<SignalRecord>, space: Space) {
    exists j, k :: 0 <= j < k < |history| && Clash(VectorOf(space, history[j].game), VectorOf(space, history[k].game))
  }

  predicate Clash(a: Dense, b: Dense) {
    a != [] && b != [] && |a| != |b|
  }

  /** Rebuilding fails exactly on mixed widths, and otherwise is the weighted sum of the available vectors. */
  lemma {:induction false} RebuiltIsWeightedSum(history: seq<SignalRecord>, space: Space)
    ensures RebuiltDense(history, space).None? <==> Mixed(history, space)
    ensures RebuiltDense(history, space).Some? ==>
      var v := RebuiltDense(history, space).value;
      && (forall i: nat :: Coordinate(v, i) == DenseSum(history, space, i))
      && (forall k :: 0 <= k < |history| && VectorOf(space, history[k].game) != [] ==>
            |v| == |VectorOf(space, history[k].game)|)
      && (v != [] ==> exists k :: 0 <= k < |history| && VectorOf(space, history[k].game) != [])
  {
    if history != [] {
      var n := |history| - 1;
      var front, x := history[..n], VectorOf(space, history[n].game);
      RebuiltIsWeightedSum(front, space);
      MixedSplit(history, space);
      var sum := RebuiltDense(front, space);
      if sum.Some? && x != [] && sum.value != [] {
        var k :| 0 <= k < |front| && VectorOf(space, front[k].game) != [];
        assert history[k] == front[k];
      }
      if RebuiltDense(history, space).Some? {
        var v := RebuiltDense(history, space).value;
        forall i: nat ensures Coordinate(v, i) == DenseSum(history, space, i) {
          PlusCoordinate(sum.value, x, history[n].weight, i);
        }
        forall k | 0 <= k < |history| && VectorOf(space, history[k].game) != []
          ensures |v| == |VectorOf(space, history[k].game)|
        {
          if k < n { assert front[k] == history[k]; }
        }
        if v != [] && x == [] {
          var k :| 0 <= k < |front| && VectorOf(space, front[k].game) != [];
          assert history[k] == front[k];
        }
      }
    }
  }

  lemma MixedSplit(history: seq<SignalRecord>, space: Space)
    requires history != []
    ensures var n := |history| - 1;
      Mixed(history, space) <==>
        || Mixed(history[..n], space)
        || exists k :: 0 <= k < n && Clash(VectorOf(space, history[k].game), VectorOf(space, history[n].game))
  {
    var n := |history| - 1;
    var front := history[..n];
    if Mixed(front, space) {
      var j, k :| 0 <= j < k < n && Clash(VectorOf(space, front[j].game), VectorOf(space, front[k].game));
      assert history[j] == front[j] && history[k] == front[k];
    }
    if Mixed(history, space) {
      var j, k :| 0 <= j < k < |history| && Clash(VectorOf(space, history[j].game), VectorOf(space, history[k].game));
      if k < n { assert history[j] == front[j] && history[k] == front[k]; }
    }
  }

  /** Pointwise, with an empty vector as the identity on either side. */
  lemma PlusCoordinate(a: Dense, b: Dense, scale: real, i: nat)
    requires DensePlus(a, b, scale).Some?
    ensures Coordinate(DensePlus(a, b, scale).value, i) == Coordinate(a, i) + Times(scale, Coordinate(b, i))
  {}

  // ---------------------------------------------------------------- a late embedding loses nothing

  datatype Signal = Signal(game: Game, kind: SignalKind, at: Time)

  function ObserveAll(p: UserPreference, signals: seq<Signal>): Option<UserPreference> {
    if signals == [] then Some(p) else
    var before :- ObserveAll(p, signals[..|signals| - 1]);
    var last := signals[|signals| - 1];
    Observe(before, last.game, last.kind, last.at)
  }

  function RecordOf(signal: Signal): SignalRecord {
    SignalRecord(signal.game.id, WeightOf(signal.kind))
  }

  /** The same actions as if every game had had its final vector when it was acted on. */
  function Ideal(signals: seq<Signal>, space: Space): (r: seq<Signal>)
    ensures |r| == |signals|
  {
    seq(|signals|, i requires 0 <= i < |signals| =>
      signals[i].(game := signals[i].game.Embedded(VectorOf(space, signals[i].game.id))))
  }

  lemma IdealSplit(signals: seq<Signal>, space: Space)
    requires signals != []
    ensures var n, r := |signals| - 1, Ideal(signals, space);
      && r[..n] == Ideal(signals[..n], space)
      && r[n] == signals[n].(game := signals[n].game.Embedded(VectorOf(space, signals[n].game.id)))
  {}

  lemma ObserveRemembers(p: UserPreference, s: Signal)
    requires Observe(p, s.game, s.kind, s.at).Some?
    ensures Observe(p, s.game, s.kind, s.at).value.history == Last(p.history + [RecordOf(s)], MAX_SIGNAL_HISTORY)
  {}

  lemma LastAppended<T(!new)>(xs: seq<T>, x: T, limit: nat)
    requires limit > 0
    ensures Last(Last(xs, limit) + [x], limit) == Last(xs + [x], limit)
  {}

  lemma HistoryStep(before: UserPreference, s: Signal, records: seq<SignalRecord>)
    requires before.history == Last(records, MAX_SIGNAL_HISTORY)
    requires Observe(before, s.game, s.kind, s.at).Some?
    ensures Observe(before, s.game, s.kind, s.at).value.history == Last(records + [RecordOf(s)], MAX_SIGNAL_HISTORY)
  {
    ObserveRemembers(before, s);
    LastAppended(records, RecordOf(s), MAX_SIGNAL_HISTORY);
  }

  lemma RecordsSplit(signals: seq<Signal>)
    requires signals != []
    ensures Map(signals, RecordOf) == Map(signals[..|signals| - 1], RecordOf) + [RecordOf(signals[|signals| - 1])]
  {}

  /** History is the last 200 actions, whatever else the profile went through. */
  lemma {:induction false} HistoryIsRecent(user: UserId, signals: seq<Signal>)
    requires ObserveAll(Blank(user), signals).Some?
    ensures ObserveAll(Blank(user), signals).value.history == Last(Map(signals, RecordOf), 200)
  {
    if signals == [] {
      assert Map(signals, RecordOf) == [];
    } else {
      var front := signals[..|signals| - 1];
      HistoryIsRecent(user, front);
      RecordsSplit(signals);
      HistoryStep(ObserveAll(Blank(user), front).value, signals[|signals| - 1], Map(front, RecordOf));
    }
  }

  lemma RebuiltAppended(history: seq<SignalRecord>, r: SignalRecord, space: Space)
    ensures RebuiltDense(history + [r], space)
         == (if RebuiltDense(history, space).None? then None
             else DensePlus(RebuiltDense(history, space).value, VectorOf(space, r.game), r.weight))
  {
    assert (history + [r])[..|history|] == history;
  }

  /** Rebuilding after an action is the action, with its final vector, after rebuilding. */
  lemma RebuiltCommutes(p: UserPreference, s: Signal, space: Space)
    requires |p.history| < MAX_SIGNAL_HISTORY && Observe(p, s.game, s.kind, s.at).Some?
    ensures Rebuilt(Observe(p, s.game, s.kind, s.at).value, space)
         == (if Rebuilt(p, space).None? then None
             else Observe(Rebuilt(p, space).value, s.game.Embedded(VectorOf(space, s.game.id)), s.kind, s.at))
  {
    ObserveRemembers(p, s);
    assert Last(p.history + [RecordOf(s)], MAX_SIGNAL_HISTORY) == p.history + [RecordOf(s)];
    RebuiltAppended(p.history, RecordOf(s), space);
  }

  /** Up to the history cap, the sweep's rebuild gives the very profile that immediate embeddings would have:
      the same vector, and the same failure when the widths do not agree. */
  lemma {:induction false} LateEmbeddingLosesNothing(user: UserId, signals: seq<Signal>, space: Space)
    requires |signals| <= MAX_SIGNAL_HISTORY
    requires ObserveAll(Blank(user), signals).Some?
    ensures Rebuilt(ObserveAll(Blank(user), signals).value, space) == ObserveAll(Blank(user), Ideal(signals, space))
  {
    if signals != [] {
      var n := |signals| - 1;
      LateEmbeddingLosesNothing(user, signals[..n], space);
      HistoryIsRecent(user, signals[..n]);
      IdealSplit(signals, space);
      assert |Ideal(signals, space)| - 1 == n;
      RebuiltCommutes(ObserveAll(Blank(user), signals[..n]).value, signals[n], space);
    }
  }

  // ---------------------------------------------------------------- remembered games

  /** The games behind the history, most recent first and without repeats. */
  function RememberedGames(history: seq<SignalRecord>): (r: seq<GameId>)
    ensures forall g :: g in r <==> exists k :: 0 <= k < |history| && history[k].game == g
  {
    if history == [] then [] else
    var later := RememberedGames(history[1..]);
    assert forall k :: 0 < k < |history| ==> history[k] == history[1..][k - 1];
    assert forall k :: 0 <= k < |history[1..]| ==> history[1..][k] == history[k + 1];
    WithOlder(later, history[0].game)
  }

  /** An older game goes to the end, unless it was acted on since. */
  function WithOlder(later: seq<GameId>, g: GameId): (r: seq<GameId>)
    ensures |r| > 0 && forall h :: h in r <==> h == g || h in later
  {
    if g in later then later else later + [g]
  }

  method Remembered(history: seq<SignalRecord>) returns (r: seq<GameId>)
    ensures r == RememberedGames(history)
  {
    r := [];
    assert history[|history|..] == [];
    for i := |history| downto 0
      invariant r == RememberedGames(history[i..])
    {
      assert history[i..][1..] == history[i + 1..];
      if history[i].game !in r {
        r := r + [history[i].game];
      }
    }
  }

  lemma {:induction false} RememberedOnce(history: seq<SignalRecord>)
    ensures Distinct(RememberedGames(history))
  {
    if history != [] { RememberedOnce(history[1..]); }
  }

  /** Most recent first: a game acted on last comes first. */
  lemma RememberedNewestFirst(history: seq<SignalRecord>, last: SignalRecord)
    ensures RememberedGames(history + [last])[0] == last.game
    ensures RememberedGames(history + [last])[1..] == Filter(RememberedGames(history), g => g != last.game)
    decreases |history|
  {
    var whole := history + [last];
    if history == [] {
      assert whole[1..] == [];
    } else {
      assert whole[1..] == history[1..] + [last];
      RememberedNewestFirst(history[1..], last);
      NewestFirstStep(RememberedGames(history[1..]), RememberedGames(whole[1..]), history[0].game, g => g != last.game);
    }
  }

  lemma NewestFirstStep(later: seq<GameId>, all: seq<GameId>, older: GameId, p: GameId -> bool)
    requires all != [] && all[1..] == Filter(later, p) && (p(older) <==> older != all[0])
    ensures WithOlder(all, older)[0] == all[0]
    ensures WithOlder(all, older)[1..] == Filter(WithOlder(later, older), p)
  {
    HeadOrRest(all, older);
    FilterSnoc(later, older, p);
  }

  lemma HeadOrRest(games: seq<GameId>, g: GameId)
    requires games != []
    ensures g in games <==> g == games[0] || g in games[1..]
  {
    assert games == [games[0]] + games[1..];
  }

  lemma FilterSnoc(xs: seq<GameId>, x: GameId, p: GameId -> bool)
    ensures Filter(xs + [x], p) == Filter(xs, p) + if p(x) then [x] else []
  {
    FilterAppend(xs, [x], p);
  }

  /** The remembered games are enough to rebuild from ... */
  lemma {:induction false} RememberedSuffice(history: seq<SignalRecord>, space: Space, other: Space)
    requires forall g :: g in RememberedGames(history) ==> VectorOf(space, g) == VectorOf(other, g)
    ensures RebuiltDense(history, space) == RebuiltDense(history, other)
  {
    if history != [] {
      var n := |history| - 1;
      RememberedFront(history);
      RememberedSuffice(history[..n], space, other);
    }
  }

  lemma RememberedFront(history: seq<SignalRecord>)
    requires history != []
    ensures var n := |history| - 1;
      && history[n].game in RememberedGames(history)
      && forall g :: g in RememberedGames(history[..n]) ==> g in RememberedGames(history)
  {
    var n := |history| - 1;
    forall g | g in RememberedGames(history[..n]) ensures g in RememberedGames(history) {
      var k :| 0 <= k < n && history[..n][k].game == g;
      assert history[k].game == g;
    }
  }

  /** ... and each of them is needed: leaving one out can change the result. */
  lemma RememberedNecessary(history: seq<SignalRecord>, g: GameId)
    requires g in RememberedGames(history)
    ensures RebuiltDense(history, map[g := [1.0]]) != RebuiltDense(history, map[])
  {
    var space: Space := map[g := [1.0]];
    RebuiltIsWeightedSum(history, space);
    RebuiltIsWeightedSum(history, map[]);
    assert !Mixed(history, space) && !Mixed(history, map[]);
    var k :| 0 <= k < |history| && history[k].game == g;
    assert VectorOf(space, history[k].game) == [1.0];
  }
}
