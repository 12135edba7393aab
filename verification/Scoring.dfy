/** `domain/policy/scoring.py`: the two scorers, the hybrid ranking and the popularity fallback. */
module Scoring {
  import opened Ordering
  import opened Vectors
  import opened Catalog
  import opened Preference
  import opened Recommendations

  const PRIOR := 5.0
  const CONTENT_WEIGHT := 0.65
  const COLLABORATIVE_WEIGHT := 0.35

  datatype ScoredGame = ScoredGame(game: Game, content: real, collaborative: real, reasons: seq<Reason>)
  {
    function Source(): Source {
      if content > 0.0 && collaborative > 0.0 then HYBRID
      else if collaborative > 0.0 then COLLAB
      else CONTENT
    }

    function Score(): real { Blend(content, collaborative) }
  }

  /** Which vector space ranks is a wiring decision: the ranker only sees these two functions. */
  datatype ContentScorer = ContentScorer(
    score: (UserPreference, Game) -> real,
    reasons: (UserPreference, Game) -> seq<Reason>)

  function NonNegative(x: real): real {
    if x > 0.0 then x else 0.0
  }

  function ReasonsFor(shared: seq<Feature>): (r: seq<Reason>)
    ensures |r| == |shared| && forall i :: 0 <= i < |r| ==> r[i] == SharedFeature(shared[i])
  {
    Map(shared, (f: Feature) => SharedFeature(f))
  }

  function SparseScorer(root: Root): ContentScorer {
    ContentScorer(
      (p: UserPreference, g: Game) => NonNegative(Cosine(p.taste, g.embedding, root)),
      (p: UserPreference, g: Game) => ReasonsFor(Overlap(p.taste, g.embedding)))
  }

  function DenseScorer(root: Root): ContentScorer {
    ContentScorer(
      (p: UserPreference, g: Game) => NonNegative(DenseCosine(p.tasteDense, g.dense, root)),
      (p: UserPreference, g: Game) => [])
  }

  type CoPurchases = map<GameId, nat>

  /** `count / (count + PRIOR)` for the games with a co-buyer, zero for the others. */
  function Collaborative(coPurchases: CoPurchases, game: GameId): real {
    if game in coPurchases && coPurchases[game] > 0 then Shrunk(coPurchases[game]) else 0.0
  }

  function Shrunk(count: nat): real {
    count as real / (count as real + PRIOR)
  }

  function Blend(content: real, collaborative: real): real {
    CONTENT_WEIGHT * content + COLLABORATIVE_WEIGHT * collaborative
  }

  // ---------------------------------------------------------------- ranking

  function ScoredBy(scorer: ContentScorer, p: UserPreference, coPurchases: CoPurchases, game: Game): ScoredGame {
    ScoredGame(game, scorer.score(p, game), Collaborative(coPurchases, game.id), scorer.reasons(p, game))
  }

  predicate Eligible(scorer: ContentScorer, p: UserPreference, coPurchases: CoPurchases, game: Game) {
    && game.isPublished
    && game.id !in p.owned
    && ScoredBy(scorer, p, coPurchases, game).Score() > 0.0
  }

  function Shortlist(scorer: ContentScorer, p: UserPreference, candidates: seq<Game>,
                     coPurchases: CoPurchases): (r: seq<ScoredGame>)
    ensures forall x :: x in r <==>
      x.game in candidates && Eligible(scorer, p, coPurchases, x.game) && x == ScoredBy(scorer, p, coPurchases, x.game)
  {
    if candidates == [] then [] else
    var front, last := candidates[..|candidates| - 1], candidates[|candidates| - 1];
    assert candidates == front + [last];
    Shortlist(scorer, p, front, coPurchases)
    + if Eligible(scorer, p, coPurchases, last) then [ScoredBy(scorer, p, coPurchases, last)] else []
  }

  function ScoreKey(x: ScoredGame): Key {
    Key(x.Score(), x.game.purchaseCount, x.game.id)
  }

  function Ranked(scorer: ContentScorer, p: UserPreference, candidates: seq<Game>, coPurchases: CoPurchases, limit: nat)
    : seq<ScoredGame>
  {
    Top(Shortlist(scorer, p, candidates, coPurchases), ScoreKey, limit)
  }

  /** `HybridRanker.rank`: one pass over the candidates, then the sort and the cut. */
  method Rank(scorer: ContentScorer, p: UserPreference, candidates: seq<Game>, coPurchases: CoPurchases, limit: nat)
    returns (r: seq<ScoredGame>)
    ensures r == Ranked(scorer, p, candidates, coPurchases, limit)
  {
    var scored: seq<ScoredGame> := [];
    for i := 0 to |candidates|
      invariant scored == Shortlist(scorer, p, candidates[..i], coPurchases)
    {
      var game := candidates[i];
      assert candidates[..i + 1][..i] == candidates[..i];
      if !game.isPublished || game.id in p.owned { continue; }
      var content := scorer.score(p, game);
      var collab := Collaborative(coPurchases, game.id);
      if Blend(content, collab) <= 0.0 { continue; }
      scored := scored + [ScoredGame(game, content, collab, scorer.reasons(p, game))];
    }
    assert candidates[..|candidates|] == candidates;
    r := Take(Sort(scored, ScoreKey), limit);
  }

  /** No game is offered twice. */
  ghost predicate UniqueIds(games: seq<Game>) {
    forall i, j :: 0 <= i < j < |games| ==> games[i].id != games[j].id
  }

  lemma {:induction false} ShortlistDistinct(scorer: ContentScorer, p: UserPreference, candidates: seq<Game>,
                                             coPurchases: CoPurchases)
    requires UniqueIds(candidates)
    ensures var r := Shortlist(scorer, p, candidates, coPurchases); Distinct(r) && Injective(r, ScoreKey)
  {
    if candidates != [] {
      var front, last := candidates[..|candidates| - 1], candidates[|candidates| - 1];
      ShortlistDistinct(scorer, p, front, coPurchases);
      assert last !in front;
    }
    var r := Shortlist(scorer, p, candidates, coPurchases);
    forall x, y | x in r && y in r && ScoreKey(x) == ScoreKey(y) ensures x == y {
      SameId(candidates, x.game, y.game);
    }
  }

  lemma SameId(games: seq<Game>, x: Game, y: Game)
    requires UniqueIds(games) && x in games && y in games && x.id == y.id
    ensures x == y
  {
    var i :| 0 <= i < |games| && games[i] == x;
    var j :| 0 <= j < |games| && games[j] == y;
  }

  lemma IdsDistinguish(games: seq<Game>, x: Game, y: Game)
    requires UniqueIds(games) && x in games && y in games
    ensures x.id == y.id ==> x == y
  {
    if x.id == y.id { SameId(games, x, y); }
  }

  /** The eligible candidates that beat a game under (score, popularity, id). */
  ghost function Better(scorer: ContentScorer, p: UserPreference, candidates: seq<Game>, coPurchases: CoPurchases,
                        x: ScoredGame)
    : set<ScoredGame>
  {
    set y | y in Shortlist(scorer, p, candidates, coPurchases) && Before(ScoreKey(y), ScoreKey(x))
  }

  /** A game is ranked exactly when it is a published, unowned candidate with a positive score that fewer than
      `limit` eligible candidates beat. */
  lemma RankExactly(scorer: ContentScorer, p: UserPreference, candidates: seq<Game>, coPurchases: CoPurchases,
                    limit: nat, x: ScoredGame)
    requires UniqueIds(candidates)
    ensures x in Ranked(scorer, p, candidates, coPurchases, limit) <==>
      && x.game in candidates
      && Eligible(scorer, p, coPurchases, x.game)
      && x == ScoredBy(scorer, p, coPurchases, x.game)
      && |Better(scorer, p, candidates, coPurchases, x)| < limit
  {
    var s := Shortlist(scorer, p, candidates, coPurchases);
    ShortlistDistinct(scorer, p, candidates, coPurchases);
    TopExactly(s, ScoreKey, limit, x);
    assert Ahead(s, ScoreKey, x) == Better(scorer, p, candidates, coPurchases, x);
  }

  lemma {:induction false} ShortlistMultiset(scorer: ContentScorer, p: UserPreference, candidates: seq<Game>,
                                             coPurchases: CoPurchases, x: ScoredGame)
    ensures multiset(Shortlist(scorer, p, candidates, coPurchases))[x]
         == if Eligible(scorer, p, coPurchases, x.game) && x == ScoredBy(scorer, p, coPurchases, x.game)
            then multiset(candidates)[x.game] else 0
  {
    if candidates != [] {
      var front, last := candidates[..|candidates| - 1], candidates[|candidates| - 1];
      ShortlistMultiset(scorer, p, front, coPurchases, x);
      SnocCount(candidates, x.game);
      if Eligible(scorer, p, coPurchases, last) {
        assert Shortlist(scorer, p, candidates, coPurchases)
            == Shortlist(scorer, p, front, coPurchases) + [ScoredBy(scorer, p, coPurchases, last)];
      } else {
        assert Shortlist(scorer, p, candidates, coPurchases) == Shortlist(scorer, p, front, coPurchases);
      }
    }
  }

  lemma SnocCount<T>(xs: seq<T>, x: T)
    requires xs != []
    ensures multiset(xs)[x] == multiset(xs[..|xs| - 1])[x] + if xs[|xs| - 1] == x then 1 else 0
  {
    assert xs == xs[..|xs| - 1] + [xs[|xs| - 1]];
  }

  /** The order in which candidates are found does not matter. */
  lemma RankOrderIrrelevant(scorer: ContentScorer, p: UserPreference, xs: seq<Game>, ys: seq<Game>,
                            coPurchases: CoPurchases, limit: nat)
    requires UniqueIds(xs) && multiset(xs) == multiset(ys)
    ensures Ranked(scorer, p, xs, coPurchases, limit) == Ranked(scorer, p, ys, coPurchases, limit)
  {
    var s, t := Shortlist(scorer, p, xs, coPurchases), Shortlist(scorer, p, ys, coPurchases);
    forall x ensures multiset(s)[x] == multiset(t)[x] {
      ShortlistMultiset(scorer, p, xs, coPurchases, x);
      ShortlistMultiset(scorer, p, ys, coPurchases, x);
    }
    assert multiset(s) == multiset(t);
    ShortlistDistinct(scorer, p, xs, coPurchases);
    SortPermuted(s, t, ScoreKey);
  }

  /** A shorter list is a prefix of a longer one. */
  lemma RankPrefix(scorer: ContentScorer, p: UserPreference, candidates: seq<Game>, coPurchases: CoPurchases,
                   short: nat, long: nat)
    requires short <= long
    ensures Ranked(scorer, p, candidates, coPurchases, short)
      == Take(Ranked(scorer, p, candidates, coPurchases, long), short)
  {}

  lemma RankedEarlier(scorer: ContentScorer, p: UserPreference, candidates: seq<Game>, coPurchases: CoPurchases,
                      limit: nat, i: nat, j: nat)
    requires UniqueIds(candidates) && i < j < |Ranked(scorer, p, candidates, coPurchases, limit)|
    ensures var r := Ranked(scorer, p, candidates, coPurchases, limit); Before(ScoreKey(r[i]), ScoreKey(r[j]))
  {
    var all := Shortlist(scorer, p, candidates, coPurchases);
    var sorted := Sort(all, ScoreKey);
    ShortlistDistinct(scorer, p, candidates, coPurchases);
    DistinctMultiset(all, sorted);
    AheadMeansEarlier(sorted, ScoreKey, i, j);
  }

  lemma SortedBefore(xs: seq<ScoredGame>, k: nat, l: nat)
    requires Sorted(xs, ScoreKey) && k < |xs| && l < |xs| && Before(ScoreKey(xs[k]), ScoreKey(xs[l]))
    ensures k < l
  {}

  /** Two games keep their relative order whatever other candidates are around and whatever the limits are. */
  lemma RankRelativeOrder(scorer: ContentScorer, p: UserPreference, coPurchases: CoPurchases,
                          xs: seq<Game>, xLimit: nat, i: nat, j: nat,
                          ys: seq<Game>, yLimit: nat, k: nat, l: nat)
    requires UniqueIds(xs) && UniqueIds(ys)
    requires var r := Ranked(scorer, p, xs, coPurchases, xLimit); i < j < |r|
    requires var r := Ranked(scorer, p, ys, coPurchases, yLimit); k < |r| && l < |r|
    requires Ranked(scorer, p, xs, coPurchases, xLimit)[i].game == Ranked(scorer, p, ys, coPurchases, yLimit)[k].game
    requires Ranked(scorer, p, xs, coPurchases, xLimit)[j].game == Ranked(scorer, p, ys, coPurchases, yLimit)[l].game
    ensures k < l
  {
    var r, t := Ranked(scorer, p, xs, coPurchases, xLimit), Ranked(scorer, p, ys, coPurchases, yLimit);
    RankedEarlier(scorer, p, xs, coPurchases, xLimit, i, j);
    assert r[i] in r && r[j] in r && t[k] in t && t[l] in t;
    assert r[i] == t[k] && r[j] == t[l];
    SortedBefore(t, k, l);
  }

  /** Equal scores and reasons for the candidates give equal lists. */
  lemma {:induction false} ShortlistCongruent(a: ContentScorer, p: UserPreference, b: ContentScorer, q: UserPreference,
                                              candidates: seq<Game>, coPurchases: CoPurchases)
    requires p.owned == q.owned
    requires forall g :: g in candidates ==> a.score(p, g) == b.score(q, g) && a.reasons(p, g) == b.reasons(q, g)
    ensures Shortlist(a, p, candidates, coPurchases) == Shortlist(b, q, candidates, coPurchases)
  {
    if candidates != [] {
      var front, last := candidates[..|candidates| - 1], candidates[|candidates| - 1];
      assert candidates == front + [last];
      assert last in candidates;
      ShortlistCongruent(a, p, b, q, front, coPurchases);
    }
  }

  // ---------------------------------------------------------------- ranges and scale

  lemma ShrunkInUnit(count: nat)
    ensures 0.0 <= Shrunk(count) < 1.0
    ensures count > 0 ==> Shrunk(count) > 0.0
  {
    var c := count as real;
    var s := Shrunk(count);
    assert s * (c + PRIOR) == c;
    if s >= 1.0 { TimesAtLeast(s, c + PRIOR); }
    if s < 0.0 { TimesNegative(s, c + PRIOR); }
  }

  lemma TimesAtLeast(s: real, d: real)
    requires s >= 1.0 && d > 0.0
    ensures s * d >= d
  {}

  lemma TimesNegative(s: real, d: real)
    requires s < 0.0 && d > 0.0
    ensures s * d < 0.0
  {}

  /** More co-buyers always mean a higher score, and the score never depends on the other candidates. */
  lemma ShrunkMonotone(fewer: nat, more: nat)
    requires fewer < more
    ensures Shrunk(fewer) < Shrunk(more)
  {
    var c, d := fewer as real, more as real;
    var s, t := Shrunk(fewer), Shrunk(more);
    ShrunkInUnit(fewer);
    ShrunkInUnit(more);
    assert s * (c + PRIOR) == c && t * (d + PRIOR) == d;
    ShrunkComplement(s, c);
    ShrunkComplement(t, d);
    if s >= t {
      assert (1.0 - s) * (c + PRIOR) == PRIOR == (1.0 - t) * (d + PRIOR);
      ProductLess(1.0 - s, 1.0 - t, c + PRIOR, d + PRIOR);
    }
  }

  lemma ShrunkComplement(s: real, c: real)
    requires s * (c + PRIOR) == c
    ensures (1.0 - s) * (c + PRIOR) == PRIOR
  {}

  lemma ProductLess(a: real, b: real, x: real, y: real)
    requires 0.0 < a <= b && 0.0 < x < y
    ensures a * x < b * y
  {
    assert a * x < a * y;
    assert a * y <= b * y;
  }

  /** Every score of a list is strictly between zero and one, and comes from a content score in [0, 1]. */
  lemma SparseScoresInUnit(root: Root, p: UserPreference, candidates: seq<Game>, coPurchases: CoPurchases,
                           limit: nat, x: ScoredGame)
    requires RootAt(root, NormSquared(p.taste)) && forall g :: g in candidates ==>
      RootAt(root, NormSquared(g.embedding))
    requires x in Ranked(SparseScorer(root), p, candidates, coPurchases, limit)
    ensures 0.0 <= x.content <= 1.0 && 0.0 <= x.collaborative < 1.0 && 0.0 < x.Score() < 1.0
  {
    CosineInUnit(p.taste, x.game.embedding, root);
    if x.game.id in coPurchases { ShrunkInUnit(coPurchases[x.game.id]); }
  }

  lemma DenseScoresInUnit(root: Root, p: UserPreference, candidates: seq<Game>, coPurchases: CoPurchases,
                          limit: nat, x: ScoredGame)
    requires RootAt(root, DenseDot(p.tasteDense, p.tasteDense))
    requires forall g :: g in candidates ==> RootAt(root, DenseDot(g.dense, g.dense))
    requires x in Ranked(DenseScorer(root), p, candidates, coPurchases, limit)
    ensures 0.0 <= x.content <= 1.0 && 0.0 <= x.collaborative < 1.0 && 0.0 < x.Score() < 1.0
  {
    DenseCosineInUnit(p.tasteDense, x.game.dense, root);
    if x.game.id in coPurchases { ShrunkInUnit(coPurchases[x.game.id]); }
  }

  /** A longer taste vector in the same direction gives the same games, scores and reasons. */
  lemma SparseRankScaleFree(root: Root, p: UserPreference, k: real, candidates: seq<Game>, coPurchases: CoPurchases,
                            limit: nat)
    requires k > 0.0 && RootAt(root, NormSquared(p.taste)) && RootAt(root, NormSquared(Scaled(p.taste, k)))
    ensures Ranked(SparseScorer(root), p.(taste := Scaled(p.taste, k)), candidates, coPurchases, limit)
         == Ranked(SparseScorer(root), p, candidates, coPurchases, limit)
  {
    var s, q := SparseScorer(root), p.(taste := Scaled(p.taste, k));
    forall g | g in candidates ensures s.score(q, g) == s.score(p, g) && s.reasons(q, g) == s.reasons(p, g) {
      CosineScaled(p.taste, g.embedding, k, root);
      OverlapScaled(p.taste, g.embedding, k);
    }
    ShortlistCongruent(s, q, s, p, candidates, coPurchases);
  }

  lemma DenseRankScaleFree(root: Root, p: UserPreference, k: real, candidates: seq<Game>, coPurchases: CoPurchases,
                           limit: nat)
    requires k > 0.0
    requires var v := DensePlus([], p.tasteDense, k).value;
      RootAt(root, DenseDot(p.tasteDense, p.tasteDense)) && RootAt(root, DenseDot(v, v))
    ensures Ranked(DenseScorer(root), p.(tasteDense := DensePlus([], p.tasteDense, k).value), candidates,
      coPurchases, limit)
         == Ranked(DenseScorer(root), p, candidates, coPurchases, limit)
  {
    var s, q := DenseScorer(root), p.(tasteDense := DensePlus([], p.tasteDense, k).value);
    forall g | g in candidates ensures s.score(q, g) == s.score(p, g) && s.reasons(q, g) == s.reasons(p, g) {
      DenseCosineScaled(p.tasteDense, g.dense, k, root);
    }
    ShortlistCongruent(s, q, s, p, candidates, coPurchases);
  }

  // ---------------------------------------------------------------- reasons

  /** Every token of a game counts once. */
  predicate Unweighted(e: Embedding) {
    forall f :: f in e ==> e[f] == 1.0
  }

  /** Features of `b` that `a` weighs positively, strongest first. */
  ghost predicate SharedByStrength(reasons: seq<Reason>, a: Embedding, b: Embedding) {
    && (forall r :: r in reasons ==> r.SharedFeature? && r.feature in b && At(a, r.feature) > 0.0)
    && (forall i, j :: 0 <= i < j < |reasons| ==> At(a, reasons[i].feature) >= At(a, reasons[j].feature))
  }

  /** On the sparse path a content match always explains itself, by features of the game the user's taste weighs
      positively, strongest first. */
  lemma ReasonsExplain(root: Root, p: UserPreference, game: Game, coPurchases: CoPurchases)
    requires RootAt(root, NormSquared(p.taste)) && RootAt(root, NormSquared(game.embedding))
      && Unweighted(game.embedding)
    ensures var x := ScoredBy(SparseScorer(root), p, coPurchases, game);
      (x.content > 0.0 ==> x.reasons != []) && SharedByStrength(x.reasons, p.taste, game.embedding)
  {
    SparseScored(root, p, coPurchases, game);
    SharedReasons(p.taste, game.embedding);
    if Cosine(p.taste, game.embedding, root) > 0.0 { PositiveCosineShares(p.taste, game.embedding, root); }
  }

  lemma SparseScored(root: Root, p: UserPreference, coPurchases: CoPurchases, game: Game)
    ensures var x := ScoredBy(SparseScorer(root), p, coPurchases, game);
      && x.content == NonNegative(Cosine(p.taste, game.embedding, root))
      && x.reasons == ReasonsFor(Overlap(p.taste, game.embedding))
  {}

  lemma SharedReasons(a: Embedding, b: Embedding)
    ensures SharedByStrength(ReasonsFor(Overlap(a, b)), a, b)
  {
    var shared, r := Overlap(a, b), ReasonsFor(Overlap(a, b));
    forall x | x in r ensures x.SharedFeature? && x.feature in b && At(a, x.feature) > 0.0 {
      var i :| 0 <= i < |r| && r[i] == x;
      assert shared[i] in shared;
    }
  }

  lemma PositiveCosineShares(a: Embedding, b: Embedding, root: Root)
    requires RootAt(root, NormSquared(a)) && RootAt(root, NormSquared(b)) && Unweighted(b)
    requires Cosine(a, b, root) > 0.0
    ensures Overlap(a, b) != []
  {
    PositiveNormalised(Dot(a.Keys * b.Keys, a, b), Magnitude(a, root), Magnitude(b, root));
    var f := PositiveTerm(a.Keys * b.Keys, a, b);
    assert f in b && b[f] == 1.0;
    ProductOfOne(At(a, f), At(b, f));
    assert f in Overlap(a, b);
  }

  lemma ProductOfOne(x: real, y: real)
    requires y == 1.0
    ensures x * y == x
  {}

  // ---------------------------------------------------------------- top sellers

  function TopSellers(games: seq<Game>, p: UserPreference, limit: nat): seq<Game> {
    Top(Filter(games, NotOwned(p)), PopularityKey, limit)
  }

  function NotOwned(p: UserPreference): Game -> bool {
    (g: Game) => g.isPublished && g.id !in p.owned
  }

  /** `TopSellersProvider.rank`: a comprehension, an in-place sort and a slice. */
  method RankTopSellers(games: seq<Game>, p: UserPreference, limit: nat) returns (r: seq<Game>)
    ensures r == TopSellers(games, p, limit)
  {
    var eligible := Filter(games, NotOwned(p));
    eligible := Sort(eligible, PopularityKey);
    r := Take(eligible, limit);
  }

  /** The eligible games bought more often, smaller ids first among equals. */
  ghost function MoreBought(games: seq<Game>, p: UserPreference, x: Game): set<Game> {
    set y | y in games && y.isPublished && y.id !in p.owned
         && (y.purchaseCount > x.purchaseCount || (y.purchaseCount == x.purchaseCount && y.id < x.id))
  }

  /** A game is a top seller exactly when it is published, not owned, and fewer than `limit` such games are bought
      more. */
  lemma TopSellersExactly(games: seq<Game>, p: UserPreference, limit: nat, x: Game)
    requires UniqueIds(games)
    ensures x in TopSellers(games, p, limit) <==>
      x in games && x.isPublished && x.id !in p.owned && |MoreBought(games, p, x)| < limit
  {
    var eligible := Filter(games, NotOwned(p));
    FilterDistinct(games, NotOwned(p));
    forall a, b | a in eligible && b in eligible && PopularityKey(a) == PopularityKey(b) ensures a == b {
      SameId(games, a, b);
    }
    TopExactly(eligible, PopularityKey, limit, x);
    assert Ahead(eligible, PopularityKey, x) == MoreBought(games, p, x);
  }
}
