/** The dense space: what a new vector can do to a ranking, as a candidate's own or through the user's taste. */
module Steering {
  import opened Ordering
  import opened Vectors
  import opened Catalog
  import opened Preference
  import opened Recommendations
  import opened Scoring
  import G = Generate
  import Refresh

  /** `root` is the square root of every squared length. */
  ghost predicate SquareRoot(root: Root) {
    forall v: Dense :: RootAt(root, DenseDot(v, v))
  }

  predicate Pointed(v: Dense) {
    DenseDot(v, v) != 0.0
  }

  // ---------------------------------------------------------------- cosines

  lemma CosineWithItself(v: Dense, root: Root)
    requires Pointed(v) && RootAt(root, DenseDot(v, v))
    ensures v != [] && DenseCosine(v, v, root) == 1.0
  {
    RootZero(root, DenseDot(v, v));
    var m := DenseMagnitude(v, root);
    NonZero(m, m);
    SelfQuotient(DenseDot(v, v), m * m);
  }

  lemma SelfQuotient(x: real, y: real)
    requires x == y != 0.0
    ensures x / y == 1.0
  {}

  lemma PointlessCosine(a: Dense, b: Dense, root: Root)
    requires (!Pointed(a) && RootAt(root, DenseDot(a, a))) || (!Pointed(b) && RootAt(root, DenseDot(b, b)))
    ensures DenseCosine(a, b, root) == 0.0
  {
    if !Pointed(a) && RootAt(root, DenseDot(a, a)) { RootZero(root, DenseDot(a, a)); }
    else { RootZero(root, DenseDot(b, b)); }
  }

  function Opposite(v: Dense): (r: Dense)
    ensures |r| == |v|
  {
    seq(|v|, i requires 0 <= i < |v| => -v[i])
  }

  lemma {:induction false} OppositeDots(u: Dense, v: Dense, b: Dense)
    requires |u| == |v| == |b| && forall i :: 0 <= i < |u| ==> v[i] == -u[i]
    ensures DenseDot(v, b) == -DenseDot(u, b) && DenseDot(v, v) == DenseDot(u, u)
  {
    if u != [] {
      OppositeDots(u[1..], v[1..], b[1..]);
      NegatedProducts(u[0], b[0]);
    }
  }

  lemma NegatedProducts(x: real, y: real)
    ensures (-x) * y == -(x * y) && (-x) * (-x) == x * x
  {}

  lemma OppositeCosine(u: Dense, b: Dense, root: Root)
    requires RootAt(root, DenseDot(u, u)) && RootAt(root, DenseDot(b, b))
    ensures DenseCosine(u, b, root) > 0.0 ==> DenseCosine(Opposite(u), b, root) <= 0.0
  {
    if |u| == |b| && u != [] {
      OppositeDots(u, Opposite(u), b);
      var l, r := DenseMagnitude(u, root), DenseMagnitude(b, root);
      assert DenseMagnitude(Opposite(u), root) == l;
      PositiveNormalised(DenseDot(u, b), l, r);
      PositiveNormalised(-DenseDot(u, b), l, r);
    }
  }

  // ---------------------------------------------------------------- a candidate's own vector

  /** The candidates with one game's vector replaced. */
  function Given(g: GameId, v: Dense): Game -> Game {
    (x: Game) => if x.id == g then x.Embedded(v) else x
  }

  function Replaced(candidates: seq<Game>, g: GameId, v: Dense): seq<Game> {
    Map(candidates, Given(g, v))
  }

  function DenseRanks(root: Root, q: UserPreference, candidates: seq<Game>, coPurchases: CoPurchases, limit: nat)
    : seq<ScoredGame>
  {
    Ranked(DenseScorer(root), q, candidates, coPurchases, limit)
  }

  function Elsewhere(g: GameId): ScoredGame -> bool {
    (x: ScoredGame) => x.game.id != g
  }

  /** Only the game's own entry sees its vector. */
  lemma {:induction false} ShortlistElsewhere(scorer: ContentScorer, q: UserPreference, candidates: seq<Game>,
                                              coPurchases: CoPurchases, g: GameId, v: Dense)
    ensures Filter(Shortlist(scorer, q, Replaced(candidates, g, v), coPurchases), Elsewhere(g))
         == Filter(Shortlist(scorer, q, candidates, coPurchases), Elsewhere(g))
  {
    if candidates != [] {
      var front, last := candidates[..|candidates| - 1], candidates[|candidates| - 1];
      ShortlistElsewhere(scorer, q, front, coPurchases, g, v);
      LastElsewhere(scorer, q, front, last, coPurchases, g);
      LastElsewhere(scorer, q, Replaced(front, g, v), Given(g, v)(last), coPurchases, g);
      ReplacedSnoc(candidates, g, v);
    }
  }

  lemma ReplacedSnoc(candidates: seq<Game>, g: GameId, v: Dense)
    requires candidates != []
    ensures var front, last := candidates[..|candidates| - 1], candidates[|candidates| - 1];
      candidates == front + [last] && Replaced(candidates, g, v) == Replaced(front, g, v) + [Given(g, v)(last)]
  {}

  lemma LastElsewhere(scorer: ContentScorer, q: UserPreference, front: seq<Game>, last: Game, coPurchases: CoPurchases,
                      g: GameId)
    ensures Filter(Shortlist(scorer, q, front + [last], coPurchases), Elsewhere(g))
         == Filter(Shortlist(scorer, q, front, coPurchases), Elsewhere(g))
          + if last.id != g && Eligible(scorer, q, coPurchases, last)
            then [ScoredBy(scorer, q, coPurchases, last)]
            else []
  {
    var all := front + [last];
    assert all[..|all| - 1] == front;
    var more := if Eligible(scorer, q, coPurchases, last) then [ScoredBy(scorer, q, coPurchases, last)] else [];
    FilterAppend(Shortlist(scorer, q, front, coPurchases), more, Elsewhere(g));
    assert more != [] ==> more[1..] == [];
  }

  lemma ReplacedUnique(candidates: seq<Game>, g: GameId, v: Dense)
    requires UniqueIds(candidates)
    ensures UniqueIds(Replaced(candidates, g, v))
  {}

  /** An element that is not kept can be left out before the sort. */
  lemma TopWithout<T(!new)>(xs: seq<T>, p: T -> bool, key: T -> Key, limit: nat)
    requires Injective(xs, key) && forall x :: x in Top(xs, key, limit) ==> p(x)
    ensures Top(Filter(xs, p), key, limit) == Top(xs, key, limit)
  {
    var kept := Top(xs, key, limit);
    SortFilterSplit(xs, p, key, limit);
    FilterAll(kept, p);
    var s := Sort(xs, key);
    if |s| <= limit { assert s[|kept|..] == []; }
  }

  lemma {:induction false} FilterAll<T(!new)>(xs: seq<T>, p: T -> bool)
    requires forall x :: x in xs ==> p(x)
    ensures Filter(xs, p) == xs
  {
    if xs != [] {
      assert xs == [xs[0]] + xs[1..];
      FilterAll(xs[1..], p);
    }
  }

  /** The key of a game whose content score is as high as one can be. */
  function BestKey(coPurchases: CoPurchases, g: Game): Key {
    Key(Blend(1.0, Collaborative(coPurchases, g.id)), g.purchaseCount, g.id)
  }

  /** The other eligible candidates ahead of a key. */
  ghost function Rivals(root: Root, q: UserPreference, candidates: seq<Game>, coPurchases: CoPurchases, g: GameId,
                        k: Key)
    : set<ScoredGame>
  {
    set y | y in Shortlist(DenseScorer(root), q, candidates, coPurchases) && y.game.id != g && Before(ScoreKey(y), k)
  }

  /** With the vector in place the game is ranked exactly when it scores and few enough others are ahead of it. */
  lemma ReplacedRanked(root: Root, q: UserPreference, candidates: seq<Game>, coPurchases: CoPurchases, limit: nat,
                       g: Game, v: Dense)
    requires UniqueIds(candidates) && g in candidates && g.isPublished && g.id !in q.owned
    ensures var x := ScoredBy(DenseScorer(root), q, coPurchases, g.Embedded(v));
      var ranked := DenseRanks(root, q, Replaced(candidates, g.id, v), coPurchases, limit);
      && (x in ranked <==>
            x.Score() > 0.0 && |Rivals(root, q, candidates, coPurchases, g.id, ScoreKey(x))| < limit)
      && forall y :: y in ranked && y.game.id == g.id ==> y == x
  {
    var x := ScoredBy(DenseScorer(root), q, coPurchases, g.Embedded(v));
    var replaced := Replaced(candidates, g.id, v);
    ReplacedUnique(candidates, g.id, v);
    ReplacedHolds(candidates, g, v);
    RankExactly(DenseScorer(root), q, replaced, coPurchases, limit, x);
    SameRivals(root, q, candidates, coPurchases, g, v, x);
    forall y | y in DenseRanks(root, q, replaced, coPurchases, limit) && y.game.id == g.id ensures y == x {
      SameId(replaced, y.game, g.Embedded(v));
    }
  }

  lemma ReplacedHolds(candidates: seq<Game>, g: Game, v: Dense)
    requires g in candidates
    ensures g.Embedded(v) in Replaced(candidates, g.id, v)
  {
    var i :| 0 <= i < |candidates| && candidates[i] == g;
    assert Replaced(candidates, g.id, v)[i] == g.Embedded(v);
  }

  lemma SameRivals(root: Root, q: UserPreference, candidates: seq<Game>, coPurchases: CoPurchases, g: Game, v: Dense,
                   x: ScoredGame)
    requires UniqueIds(candidates) && g in candidates && x.game == g.Embedded(v)
    requires x == ScoredBy(DenseScorer(root), q, coPurchases, x.game)
    ensures Better(DenseScorer(root), q, Replaced(candidates, g.id, v), coPurchases, x)
         == Rivals(root, q, candidates, coPurchases, g.id, ScoreKey(x))
  {
    var scorer, replaced := DenseScorer(root), Replaced(candidates, g.id, v);
    var mine, theirs := Shortlist(scorer, q, candidates, coPurchases), Shortlist(scorer, q, replaced, coPurchases);
    ShortlistElsewhere(scorer, q, candidates, coPurchases, g.id, v);
    ReplacedUnique(candidates, g.id, v);
    ReplacedHolds(candidates, g, v);
    forall y: ScoredGame | y.game.id != g.id ensures y in mine <==> y in theirs {
      assert y in Filter(mine, Elsewhere(g.id)) <==> y in Filter(theirs, Elsewhere(g.id));
    }
    forall y | y in theirs && y.game.id == g.id ensures y == x { SameId(replaced, y.game, x.game); }
  }

  /** However good its vector, a game with enough rivals is not ranked, and the list is the one without it. */
  lemma Outranked(root: Root, q: UserPreference, candidates: seq<Game>, coPurchases: CoPurchases, limit: nat, g: Game,
                  v: Dense)
    requires SquareRoot(root) && UniqueIds(candidates) && g in candidates && g.isPublished && g.id !in q.owned
    requires |Rivals(root, q, candidates, coPurchases, g.id, BestKey(coPurchases, g))| >= limit
    ensures DenseRanks(root, q, Replaced(candidates, g.id, v), coPurchases, limit)
         == Top(Filter(Shortlist(DenseScorer(root), q, candidates, coPurchases), Elsewhere(g.id)), ScoreKey, limit)
  {
    var replaced := Replaced(candidates, g.id, v);
    var x := ScoredBy(DenseScorer(root), q, coPurchases, g.Embedded(v));
    ReplacedRanked(root, q, candidates, coPurchases, limit, g, v);
    NoBetter(root, q, coPurchases, g, v);
    MoreRivals(root, q, candidates, coPurchases, g.id, BestKey(coPurchases, g), ScoreKey(x));
    ShortlistElsewhere(DenseScorer(root), q, candidates, coPurchases, g.id, v);
    ReplacedUnique(candidates, g.id, v);
    ShortlistDistinct(DenseScorer(root), q, replaced, coPurchases);
    TopWithout(Shortlist(DenseScorer(root), q, replaced, coPurchases), Elsewhere(g.id), ScoreKey, limit);
  }

  lemma NoBetter(root: Root, q: UserPreference, coPurchases: CoPurchases, g: Game, v: Dense)
    requires SquareRoot(root)
    ensures var x := ScoredBy(DenseScorer(root), q, coPurchases, g.Embedded(v));
      x.Score() <= BestKey(coPurchases, g).primary
  {
    DenseCosineInUnit(q.tasteDense, v, root);
  }

  lemma MoreRivals(root: Root, q: UserPreference, candidates: seq<Game>, coPurchases: CoPurchases, g: GameId, high: Key,
                   low: Key)
    requires high.primary >= low.primary && high.popularity == low.popularity && high.id == low.id
    ensures |Rivals(root, q, candidates, coPurchases, g, high)| <= |Rivals(root, q, candidates, coPurchases, g, low)|
  {
    var a, b := Rivals(root, q, candidates, coPurchases, g, high), Rivals(root, q, candidates, coPurchases, g, low);
    assert a <= b;
    assert b == a + (b - a);
  }

  lemma ReplacedByNothing(candidates: seq<Game>, g: Game)
    requires UniqueIds(candidates) && g in candidates && g.dense == []
    ensures Replaced(candidates, g.id, []) == candidates
  {
    forall i | 0 <= i < |candidates| ensures Given(g.id, [])(candidates[i]) == candidates[i] {
      if candidates[i].id == g.id { SameId(candidates, candidates[i], g); }
    }
  }

  /** A game with a vector close to the taste changes the list, if it gets into it. */
  lemma GoodVectorMoves(root: Root, q: UserPreference, candidates: seq<Game>, coPurchases: CoPurchases, limit: nat,
                        g: Game, v: Dense)
    requires SquareRoot(root) && UniqueIds(candidates) && g in candidates && g.isPublished && g.id !in q.owned
    requires g.dense == [] && DenseCosine(q.tasteDense, v, root) == 1.0
    requires |Rivals(root, q, candidates, coPurchases, g.id, BestKey(coPurchases, g))| < limit
    ensures G.Cores(DenseRanks(root, q, Replaced(candidates, g.id, v), coPurchases, limit))
         != G.Cores(DenseRanks(root, q, candidates, coPurchases, limit))
  {
    var x := ScoredBy(DenseScorer(root), q, coPurchases, g.Embedded(v));
    var y := ScoredBy(DenseScorer(root), q, coPurchases, g);
    ReplacedRanked(root, q, candidates, coPurchases, limit, g, v);
    ReplacedRanked(root, q, candidates, coPurchases, limit, g, []);
    ReplacedByNothing(candidates, g);
    assert g.Embedded([]) == g;
    assert y.content == 0.0 && x.content == 1.0;
    CollaborativeInUnit(coPurchases, g.id);
    CoresDiffer(DenseRanks(root, q, Replaced(candidates, g.id, v), coPurchases, limit),
                DenseRanks(root, q, candidates, coPurchases, limit), x);
  }

  lemma CollaborativeInUnit(coPurchases: CoPurchases, g: GameId)
    ensures 0.0 <= Collaborative(coPurchases, g) < 1.0
  {
    if g in coPurchases { ShrunkInUnit(coPurchases[g]); }
  }

  /** A list that holds a game with a score the other never gives it is another list. */
  lemma CoresDiffer(xs: seq<ScoredGame>, ys: seq<ScoredGame>, x: ScoredGame)
    requires x in xs && forall y :: y in ys && y.game.id == x.game.id ==> y.Score() != x.Score()
    ensures G.Cores(xs) != G.Cores(ys)
  {
    var i :| 0 <= i < |xs| && xs[i] == x;
    if i < |ys| {
      assert ys[i] in ys;
      assert G.Cores(xs)[i] != G.Cores(ys)[i];
    }
  }

  /** Some vector for an unembedded candidate changes the list exactly when the taste points anywhere and, with the
      highest content score, the candidate would be in it. */
  lemma CandidateMovesIff(root: Root, q: UserPreference, candidates: seq<Game>, coPurchases: CoPurchases, limit: nat,
                          g: Game)
    requires SquareRoot(root) && UniqueIds(candidates) && g in candidates && g.isPublished && g.id !in q.owned
    requires g.dense == []
    ensures (exists v :: MovesCandidate(root, q, candidates, coPurchases, limit, g, v)) <==>
      Pointed(q.tasteDense) && |Rivals(root, q, candidates, coPurchases, g.id, BestKey(coPurchases, g))| < limit
  {
    if |Rivals(root, q, candidates, coPurchases, g.id, BestKey(coPurchases, g))| >= limit {
      forall v ensures !MovesCandidate(root, q, candidates, coPurchases, limit, g, v) {
        Outranked(root, q, candidates, coPurchases, limit, g, v);
        Outranked(root, q, candidates, coPurchases, limit, g, []);
        ReplacedByNothing(candidates, g);
      }
    } else if !Pointed(q.tasteDense) {
      forall v ensures !MovesCandidate(root, q, candidates, coPurchases, limit, g, v) {
        PointlessTaste(root, q, candidates, coPurchases, limit, g, v);
      }
    } else {
      CosineWithItself(q.tasteDense, root);
      GoodVectorMoves(root, q, candidates, coPurchases, limit, g, q.tasteDense);
      assert MovesCandidate(root, q, candidates, coPurchases, limit, g, q.tasteDense);
    }
  }

  ghost predicate MovesCandidate(root: Root, q: UserPreference, candidates: seq<Game>, coPurchases: CoPurchases,
                                 limit: nat, g: Game, v: Dense)
  {
    G.Cores(DenseRanks(root, q, Replaced(candidates, g.id, v), coPurchases, limit))
    != G.Cores(DenseRanks(root, q, candidates, coPurchases, limit))
  }

  lemma PointlessTaste(root: Root, q: UserPreference, candidates: seq<Game>, coPurchases: CoPurchases, limit: nat,
                       g: Game, v: Dense)
    requires SquareRoot(root) && !Pointed(q.tasteDense) && UniqueIds(candidates) && g in candidates
    ensures G.Cores(DenseRanks(root, q, Replaced(candidates, g.id, v), coPurchases, limit))
         == G.Cores(DenseRanks(root, q, candidates, coPurchases, limit))
  {
    var other: map<GameId, Game> := map[g.id := g.Embedded(v)];
    forall x | x in candidates ensures Refresh.Blind(DenseScorer(root), q, other, x) {
      PointlessCosine(q.tasteDense, x.dense, root);
      PointlessCosine(q.tasteDense, Refresh.In(other)(x).dense, root);
    }
    assert Map(candidates, Refresh.In(other)) == Replaced(candidates, g.id, v);
    Refresh.RankedMapped(DenseScorer(root), q, candidates, coPurchases, limit, other);
    Refresh.CoresMapped(DenseRanks(root, q, candidates, coPurchases, limit), other);
  }

  function Along(d: Dense, k: real): (r: Dense)
    ensures |r| == |d|
  {
    DensePlus([], d, k).value
  }

  /** The same with the taste stretched along itself. */
  lemma StretchedMoves(root: Root, q: UserPreference, candidates: seq<Game>, coPurchases: CoPurchases, limit: nat,
                       g: Game, share: real, k: real)
    requires SquareRoot(root) && UniqueIds(candidates) && g in candidates && g.isPublished && g.id !in q.owned
    requires g.dense == [] && Pointed(q.tasteDense) && share > 0.0 && k > 0.0
    requires |Rivals(root, q, candidates, coPurchases, g.id, BestKey(coPurchases, g))| < limit
    ensures var d := q.tasteDense;
      var replaced := Replaced(candidates, g.id, Along(d, share));
      G.Cores(DenseRanks(root, Tasting(q, Along(d, k)), replaced, coPurchases, limit))
      != G.Cores(DenseRanks(root, q, candidates, coPurchases, limit))
  {
    var d := q.tasteDense;
    CosineWithItself(d, root);
    DenseCosineScaled(d, d, share, root);
    GoodVectorMoves(root, q, candidates, coPurchases, limit, g, Along(d, share));
    DenseRankScaleFree(root, q, k, Replaced(candidates, g.id, Along(d, share)), coPurchases, limit);
  }

  // ---------------------------------------------------------------- through the taste

  /** The taste of a profile, replaced. */
  function Tasting(q: UserPreference, v: Dense): UserPreference {
    q.(tasteDense := v)
  }

  /** Two opposite tastes never give the same list, when some eligible game lies in the direction of one of them. */
  lemma OppositeTastesDiffer(root: Root, q: UserPreference, candidates: seq<Game>, coPurchases: CoPurchases, limit: nat,
                             h: Game)
    requires SquareRoot(root) && UniqueIds(candidates) && h in candidates && h.isPublished && h.id !in q.owned
    requires Pointed(h.dense) && limit > 0
    ensures G.Cores(DenseRanks(root, Tasting(q, h.dense), candidates, coPurchases, limit))
         != G.Cores(DenseRanks(root, Tasting(q, Opposite(h.dense)), candidates, coPurchases, limit))
  {
    var there := DenseRanks(root, Tasting(q, h.dense), candidates, coPurchases, limit);
    var away := DenseRanks(root, Tasting(q, Opposite(h.dense)), candidates, coPurchases, limit);
    HeadIsContent(root, q, candidates, coPurchases, limit, h);
    var x := there[0];
    assert x in there;
    forall y | y in away && y.game.id == x.game.id ensures y.Score() != x.Score() {
      SameId(candidates, x.game, y.game);
      OppositeCosine(h.dense, x.game.dense, root);
    }
    CoresDiffer(there, away, x);
  }

  /** The first game of such a list owes its score to content. */
  lemma HeadIsContent(root: Root, q: UserPreference, candidates: seq<Game>, coPurchases: CoPurchases, limit: nat,
                      h: Game)
    requires SquareRoot(root) && UniqueIds(candidates) && h in candidates && h.isPublished && h.id !in q.owned
    requires Pointed(h.dense) && limit > 0
    ensures var r := DenseRanks(root, Tasting(q, h.dense), candidates, coPurchases, limit);
      r != [] && r[0].content > 0.0
  {
    var scorer, p := DenseScorer(root), Tasting(q, h.dense);
    var x := ScoredBy(scorer, p, coPurchases, h);
    var all := Shortlist(scorer, p, candidates, coPurchases);
    CosineWithItself(h.dense, root);
    CollaborativeInUnit(coPurchases, h.id);
    assert x in all;
    ShortlistDistinct(scorer, p, candidates, coPurchases);
    HeadIsBest(all, limit, x);
    var first := Top(all, ScoreKey, limit)[0];
    CollaborativeInUnit(coPurchases, first.game.id);
    assert first in Top(all, ScoreKey, limit);
  }

  lemma HeadIsBest(all: seq<ScoredGame>, limit: nat, x: ScoredGame)
    requires Distinct(all) && Injective(all, ScoreKey) && x in all && limit > 0
    ensures var r := Top(all, ScoreKey, limit); r != [] && r[0].Score() >= x.Score()
  {
    var s := Sort(all, ScoreKey);
    assert x in multiset(all) && x in s;
    DistinctMultiset(all, s);
    var i :| 0 <= i < |s| && s[i] == x;
    if i > 0 { AheadMeansEarlier(s, ScoreKey, 0, i); }
  }

  /** With no eligible game in reach of either taste the lists are the same. */
  lemma ReachlessTastes(root: Root, q: UserPreference, a: Dense, b: Dense, candidates: seq<Game>,
                        coPurchases: CoPurchases, limit: nat)
    requires forall g :: g in candidates && g.isPublished && g.id !in q.owned ==>
      DenseCosine(a, g.dense, root) == DenseCosine(b, g.dense, root)
    ensures DenseRanks(root, Tasting(q, a), candidates, coPurchases, limit)
         == DenseRanks(root, Tasting(q, b), candidates, coPurchases, limit)
  {
    SameShortlist(root, q, a, b, candidates, coPurchases);
  }

  lemma {:induction false} SameShortlist(root: Root, q: UserPreference, a: Dense, b: Dense, candidates: seq<Game>,
                                         coPurchases: CoPurchases)
    requires forall g :: g in candidates && g.isPublished && g.id !in q.owned ==>
      DenseCosine(a, g.dense, root) == DenseCosine(b, g.dense, root)
    ensures Shortlist(DenseScorer(root), Tasting(q, a), candidates, coPurchases)
         == Shortlist(DenseScorer(root), Tasting(q, b), candidates, coPurchases)
  {
    if candidates != [] {
      var front, last := candidates[..|candidates| - 1], candidates[|candidates| - 1];
      assert candidates == front + [last];
      SameShortlist(root, q, a, b, front, coPurchases);
    }
  }

  // ---------------------------------------------------------------- steering the taste

  /** What the remembered actions on a game weigh together. */
  function TotalWeight(history: seq<SignalRecord>, g: GameId): real {
    if history == [] then 0.0 else
    var last := history[|history| - 1];
    TotalWeight(history[..|history| - 1], g) + if last.game == g then last.weight else 0.0
  }

  ghost predicate Remembered(history: seq<SignalRecord>, g: GameId) {
    exists k :: 0 <= k < |history| && history[k].game == g
  }

  /** Two spaces that differ in one game, which has no vector in the first. */
  ghost predicate OneMore(space: Space, other: Space, g: GameId, v: Dense) {
    && VectorOf(space, g) == [] && VectorOf(other, g) == v
    && forall x :: x != g ==> VectorOf(other, x) == VectorOf(space, x)
  }

  lemma {:induction false} OneMoreSum(history: seq<SignalRecord>, space: Space, other: Space, g: GameId, v: Dense,
                                      i: nat)
    requires OneMore(space, other, g, v)
    ensures DenseSum(history, other, i)
         == DenseSum(history, space, i) + Times(TotalWeight(history, g), Coordinate(v, i))
  {
    if history != [] {
      var n := |history| - 1;
      OneMoreSum(history[..n], space, other, g, v, i);
      var w, c := history[n].weight, Coordinate(v, i);
      Distributes(TotalWeight(history[..n], g), if history[n].game == g then w else 0.0, c);
      if history[n].game != g { assert VectorOf(other, history[n].game) == VectorOf(space, history[n].game); }
      NoCoordinate(w, i);
    }
  }

  lemma Distributes(x: real, y: real, c: real)
    ensures Times(x + y, c) == Times(x, c) + Times(y, c)
    ensures Times(0.0, c) == 0.0
  {}

  lemma NoCoordinate(w: real, i: nat)
    ensures Times(w, Coordinate([], i)) == 0.0
  {}

  lemma OneMoreMixes(history: seq<SignalRecord>, space: Space, other: Space, g: GameId, v: Dense)
    requires OneMore(space, other, g, v) && RebuiltDense(history, space).Some? && v != []
    requires var d := RebuiltDense(history, space).value; d == [] || |d| == |v|
    ensures !Mixed(history, other)
  {
    RebuiltIsWeightedSum(history, space);
    var d := RebuiltDense(history, space).value;
    forall k | 0 <= k < |history| && VectorOf(other, history[k].game) != []
      ensures |VectorOf(other, history[k].game)| == |v|
    {
      if history[k].game != g { assert VectorOf(space, history[k].game) != []; }
    }
  }

  /** One more vector of the right width adds its weighted self to the taste. */
  lemma OneMoreRebuilt(history: seq<SignalRecord>, space: Space, other: Space, g: GameId, v: Dense)
    requires OneMore(space, other, g, v) && RebuiltDense(history, space).Some? && v != [] && Remembered(history, g)
    requires var d := RebuiltDense(history, space).value; d == [] || |d| == |v|
    ensures RebuiltDense(history, other).Some?
    ensures var d, r := RebuiltDense(history, space).value, RebuiltDense(history, other).value;
      |r| == |v| && forall i :: 0 <= i < |v| ==> r[i] == Coordinate(d, i) + Times(TotalWeight(history, g), v[i])
  {
    OneMoreMixes(history, space, other, g, v);
    RebuiltIsWeightedSum(history, space);
    RebuiltIsWeightedSum(history, other);
    var k :| 0 <= k < |history| && history[k].game == g;
    var d, r := RebuiltDense(history, space).value, RebuiltDense(history, other).value;
    assert |r| == |VectorOf(other, history[k].game)|;
    forall i | 0 <= i < |v| ensures r[i] == Coordinate(d, i) + Times(TotalWeight(history, g), v[i]) {
      OneMoreSum(history, space, other, g, v, i);
      assert Coordinate(r, i) == DenseSum(history, other, i) && Coordinate(d, i) == DenseSum(history, space, i);
    }
  }

  /** The vector that takes the taste from `d` to `target`. */
  function Towards(d: Dense, target: Dense, w: real): (v: Dense)
    requires w != 0.0
    ensures |v| == |target|
  {
    seq(|target|, i requires 0 <= i < |target| => (target[i] - Coordinate(d, i)) / w)
  }

  /** A remembered game of non-zero weight can take the taste anywhere. */
  lemma SteeredTo(history: seq<SignalRecord>, space: Space, other: Space, g: GameId, target: Dense)
    requires RebuiltDense(history, space).Some? && target != [] && Remembered(history, g)
    requires TotalWeight(history, g) != 0.0
    requires var d := RebuiltDense(history, space).value;
      (d == [] || |d| == |target|) && OneMore(space, other, g, Towards(d, target, TotalWeight(history, g)))
    ensures RebuiltDense(history, other) == Some(target)
  {
    var d, w := RebuiltDense(history, space).value, TotalWeight(history, g);
    var v := Towards(d, target, w);
    OneMoreRebuilt(history, space, other, g, v);
    var r := RebuiltDense(history, other).value;
    forall i | 0 <= i < |target| ensures r[i] == target[i] {
      Arrives(Coordinate(d, i), target[i], w);
    }
    assert r == target;
  }

  lemma Arrives(x: real, y: real, w: real)
    requires w != 0.0
    ensures x + Times(w, (y - x) / w) == y
  {}

  /** One whose actions cancel out can take it nowhere. */
  lemma CancelledOut(root: Root, history: seq<SignalRecord>, space: Space, other: Space, g: GameId, v: Dense, b: Dense)
    requires SquareRoot(root) && OneMore(space, other, g, v) && TotalWeight(history, g) == 0.0
    requires RebuiltDense(history, space).Some? && RebuiltDense(history, other).Some?
    ensures DenseCosine(RebuiltDense(history, other).value, b, root)
         == DenseCosine(RebuiltDense(history, space).value, b, root)
  {
    RebuiltIsWeightedSum(history, space);
    RebuiltIsWeightedSum(history, other);
    var d, r := RebuiltDense(history, space).value, RebuiltDense(history, other).value;
    forall i: nat ensures Coordinate(r, i) == Coordinate(d, i) {
      OneMoreSum(history, space, other, g, v, i);
      Distributes(0.0, 0.0, Coordinate(v, i));
    }
    if d == [] {
      forall i | 0 <= i < |r| ensures r[i] == 0.0 { assert Coordinate(r, i) == Coordinate(d, i); }
      DenseDotZero(r, r);
      PointlessCosine(r, b, root);
    } else {
      var k :| 0 <= k < |history| && VectorOf(space, history[k].game) != [];
      assert VectorOf(other, history[k].game) == VectorOf(space, history[k].game);
      forall i | 0 <= i < |d| ensures r[i] == d[i] { assert Coordinate(r, i) == Coordinate(d, i); }
      assert r == d;
    }
  }
}
