/** `co_purchases`: the neighbour loop of the memory repository, and the self-join it must agree with. */
module CoPurchase {
  import opened Ordering
  import opened Catalog
  import opened Store
  import opened Scoring

  // ---------------------------------------------------------------- the table

  function OwnersOf(table: Ownerships, game: GameId): set<UserId> {
    set r | r in RowsOf(table, game) :: r.user
  }

  function OwnedBy(table: Ownerships, user: UserId): set<GameId> {
    set g | g in table && user in OwnersOf(table, g)
  }

  // ---------------------------------------------------------------- the self-join

  datatype Row = Row(user: UserId, game: GameId)

  function Rows(table: Ownerships): set<Row> {
    set g, r | g in table && r in table[g] :: Row(r.user, g)
  }

  /** `mine join theirs on user`, with mine among the caller's games, not the caller's row, and theirs another game. */
  function SelfJoin(rows: set<Row>, me: UserId, owned: set<GameId>): set<(Row, Row)> {
    set mine, theirs |
      && mine in rows && theirs in rows
      && mine.user == theirs.user && mine.game in owned && mine.user != me && theirs.game !in owned
      :: (mine, theirs)
  }

  /** `count(distinct theirs.user_id)` of one group. */
  function DistinctUsers(join: set<(Row, Row)>, game: GameId): set<UserId> {
    set pair | pair in join && pair.1.game == game :: pair.1.user
  }

  /** The query's answer before its limit: one count per game of the join. */
  function JoinCounts(table: Ownerships, me: UserId, owned: set<GameId>): CoPurchases {
    var join := SelfJoin(Rows(table), me, owned);
    map g | g in (set pair | pair in join :: pair.1.game) :: |DistinctUsers(join, g)|
  }

  // ---------------------------------------------------------------- the neighbour loop

  /** The other users owning one of the caller's games. */
  function Neighbours(table: Ownerships, me: UserId, owned: set<GameId>): set<UserId> {
    set g, u | g in owned && u in OwnersOf(table, g) && u != me :: u
  }

  function Voters(table: Ownerships, users: set<UserId>, game: GameId): set<UserId> {
    set u | u in users && u in OwnersOf(table, game)
  }

  function CountOf(counts: CoPurchases, game: GameId): nat {
    if game in counts then counts[game] else 0
  }

  method AddOneEach(counts: CoPurchases, games: set<GameId>) returns (r: CoPurchases)
    ensures forall g :: CountOf(r, g) == CountOf(counts, g) + if g in games then 1 else 0
    ensures r.Keys == counts.Keys + games
  {
    r := counts;
    var rest := games;
    while rest != {}
      invariant rest <= games
      invariant forall g :: CountOf(r, g) == CountOf(counts, g) + if g in games && g !in rest then 1 else 0
      invariant r.Keys == counts.Keys + (games - rest)
    {
      var g := Least(rest);
      r := r[g := CountOf(r, g) + 1];
      rest := rest - {g};
    }
  }

  method GatherNeighbours(table: Ownerships, me: UserId, owned: set<GameId>) returns (neighbours: set<UserId>)
    ensures neighbours == Neighbours(table, me, owned)
  {
    neighbours := {};
    var rest := owned;
    while rest != {}
      invariant rest <= owned
      invariant forall u :: u in neighbours <==> exists g :: g in owned - rest && u in OwnersOf(table, g)
    {
      var g := Least(rest);
      assert owned - (rest - {g}) == owned - rest + {g};
      neighbours := neighbours + OwnersOf(table, g);
      rest := rest - {g};
    }
    assert owned - rest == owned;
    neighbours := neighbours - {me};
    forall u ensures u in neighbours <==> u in Neighbours(table, me, owned) {}
  }

  /** The memory repository's count, before `most_common(limit)`, is the self-join's. */
  method CountCoPurchases(table: Ownerships, me: UserId, owned: set<GameId>) returns (counts: CoPurchases)
    ensures counts == JoinCounts(table, me, owned)
  {
    counts := map[];
    var neighbours := GatherNeighbours(table, me, owned);
    var rest := neighbours;
    while rest != {}
      invariant rest <= neighbours
      invariant forall g :: CountOf(counts, g) == if g in owned then 0 else |Voters(table, neighbours - rest, g)|
      invariant forall g :: g in counts ==> counts[g] > 0
    {
      var n := Least(rest);
      var others := OwnedBy(table, n) - owned;
      var before := counts;
      counts := AddOneEach(counts, others);
      forall g ensures CountOf(counts, g) == if g in owned then 0 else |Voters(table, neighbours - (rest - {n}), g)| {
        OneMoreVoter(table, neighbours, rest, n, g);
      }
      forall g | g in counts ensures counts[g] > 0 {
        assert counts[g] == CountOf(counts, g);
        if g in before { assert before[g] == CountOf(before, g); }
      }
      rest := rest - {n};
    }
    assert neighbours - rest == neighbours;
    JoinIsVotes(table, me, owned, counts);
  }

  lemma OneMoreVoter(table: Ownerships, all: set<UserId>, rest: set<UserId>, n: UserId, g: GameId)
    requires n in rest && rest <= all
    ensures |Voters(table, all - (rest - {n}), g)|
         == |Voters(table, all - rest, g)| + if g in OwnedBy(table, n) then 1 else 0
  {
    var before, after := Voters(table, all - rest, g), Voters(table, all - (rest - {n}), g);
    if n in OwnersOf(table, g) {
      assert g in table;
      forall u ensures u in after <==> u in before + {n} {}
      assert after == before + {n};
    } else {
      forall u ensures u in after <==> u in before {}
      assert after == before;
    }
  }

  /** The self-join counts, for each game outside the caller's library, the other users who own it and at least one
      of the caller's games: each person once, whatever the size of either library. */
  lemma JoinCountsVoters(table: Ownerships, me: UserId, owned: set<GameId>, g: GameId)
    ensures g in JoinCounts(table, me, owned) <==> g !in owned && Voters(table, Neighbours(table, me, owned), g) != {}
    ensures g in JoinCounts(table, me, owned) ==>
      JoinCounts(table, me, owned)[g] == |Voters(table, Neighbours(table, me, owned), g)|
  {
    var join := SelfJoin(Rows(table), me, owned);
    var voters := Voters(table, Neighbours(table, me, owned), g);
    forall u ensures u in DistinctUsers(join, g) <==> g !in owned && u in voters {
      PairOfVoter(table, me, owned, g, u);
    }
    if g !in owned {
      assert DistinctUsers(join, g) == voters;
    }
    if g in JoinCounts(table, me, owned) {
      var pair :| pair in join && pair.1.game == g;
      assert pair.1.user in DistinctUsers(join, g);
    }
    if g !in owned && voters != {} {
      var u := Member(voters);
      assert u in DistinctUsers(join, g);
      var pair :| pair in join && pair.1.game == g && pair.1.user == u;
      assert pair.1.game in (set q | q in join :: q.1.game);
    }
  }

  lemma RowsAre(table: Ownerships, u: UserId, g: GameId)
    ensures Row(u, g) in Rows(table) <==> u in OwnersOf(table, g)
  {
    if u in OwnersOf(table, g) {
      var r :| r in RowsOf(table, g) && r.user == u;
      assert g in table && r in table[g];
    }
  }

  lemma PairOfVoter(table: Ownerships, me: UserId, owned: set<GameId>, g: GameId, u: UserId)
    ensures u in DistinctUsers(SelfJoin(Rows(table), me, owned), g)
       <==> g !in owned && u in Voters(table, Neighbours(table, me, owned), g)
  {
    var join := SelfJoin(Rows(table), me, owned);
    RowsAre(table, u, g);
    if u in DistinctUsers(join, g) {
      var pair :| pair in join && pair.1.game == g && pair.1.user == u;
      assert pair.1 == Row(u, g) && pair.0 == Row(u, pair.0.game);
      RowsAre(table, u, pair.0.game);
    }
    if g !in owned && u in Voters(table, Neighbours(table, me, owned), g) {
      var h :| h in owned && u in OwnersOf(table, h) && u != me;
      RowsAre(table, u, h);
      assert (Row(u, h), Row(u, g)) in join;
    }
  }

  lemma JoinIsVotes(table: Ownerships, me: UserId, owned: set<GameId>, counts: CoPurchases)
    requires forall g :: CountOf(counts, g) == if g in owned then 0
      else |Voters(table, Neighbours(table, me, owned), g)|
    requires forall g :: g in counts ==> counts[g] > 0
    ensures counts == JoinCounts(table, me, owned)
  {
    var join := JoinCounts(table, me, owned);
    forall g ensures g in counts <==> g in join
             ensures g in counts ==> counts[g] == join[g] {
      JoinIsVotesAt(table, me, owned, counts, g);
    }
    SameEntries(counts, join);
  }

  lemma SameEntries<K, V>(a: map<K, V>, b: map<K, V>)
    requires forall g :: g in a <==> g in b
    requires forall g :: g in a ==> a[g] == b[g]
    ensures a == b
  {
    forall g ensures g in a.Keys <==> g in b.Keys { assert g in a <==> g in b; }
  }

  lemma JoinIsVotesAt(table: Ownerships, me: UserId, owned: set<GameId>, counts: CoPurchases, g: GameId)
    requires CountOf(counts, g) == if g in owned then 0 else |Voters(table, Neighbours(table, me, owned), g)|
    requires g in counts ==> counts[g] > 0
    ensures g in counts <==> g in JoinCounts(table, me, owned)
    ensures g in counts ==> counts[g] == JoinCounts(table, me, owned)[g]
  {
    JoinCountsVoters(table, me, owned, g);
    var voters := Voters(table, Neighbours(table, me, owned), g);
    if voters != {} { assert |voters| > 0; }
  }

  /** One person, one vote: a neighbour who acquires one more game changes no other game's count. */
  lemma OneVoteEach(table: Ownerships, me: UserId, owned: set<GameId>, n: UserId, extra: GameId, counted: bool,
                    g: GameId)
    requires n in Neighbours(table, me, owned) && g != extra
    ensures CountOf(JoinCounts(Raise(table, n, extra, counted), me, owned), g)
      == CountOf(JoinCounts(table, me, owned), g)
  {
    var after := Raise(table, n, extra, counted);
    forall u, h ensures u in OwnersOf(after, h) <==> u in OwnersOf(table, h) || (u == n && h == extra) {
      RaiseFlag(table, n, extra, counted, u, h);
      OwnerHasFlag(after, u, h);
      OwnerHasFlag(table, u, h);
    }
    assert Neighbours(after, me, owned) == Neighbours(table, me, owned) by {
      forall u ensures u in Neighbours(after, me, owned) <==> u in Neighbours(table, me, owned) {
        if u in Neighbours(table, me, owned) {
          var h :| h in owned && u in OwnersOf(table, h) && u != me;
          assert u in OwnersOf(after, h);
        }
      }
    }
    assert Voters(after, Neighbours(after, me, owned), g) == Voters(table, Neighbours(table, me, owned), g) by {
      forall u ensures u in OwnersOf(after, g) <==> u in OwnersOf(table, g) {}
    }
    JoinCountsVoters(after, me, owned, g);
    JoinCountsVoters(table, me, owned, g);
  }

  lemma OwnerHasFlag(table: Ownerships, u: UserId, g: GameId)
    ensures u in OwnersOf(table, g) <==> Flag(table, u, g).Some?
  {
    var rows := RowsOf(table, g);
    if u in OwnersOf(table, g) {
      var r :| r in rows && r.user == u;
      var i :| 0 <= i < |rows| && rows[i] == r;
    }
    if Flag(table, u, g).Some? {
      var i :| 0 <= i < |rows| && rows[i].user == u;
      assert rows[i] in rows;
    }
  }

  // ---------------------------------------------------------------- the limit

  function CountKey(counts: CoPurchases): GameId -> Key {
    (g: GameId) => Key(CountOf(counts, g) as real, 0, g)
  }

  /** The `limit` largest counts, smaller ids first among equals. */
  function MostCommon(counts: CoPurchases, limit: nat): CoPurchases {
    Restricted(counts, Top(Listing(counts.Keys), CountKey(counts), limit))
  }

  function Restricted(counts: CoPurchases, kept: seq<GameId>): CoPurchases {
    map g | g in kept && g in counts :: counts[g]
  }

  function CoPurchased(table: Ownerships, me: UserId, owned: set<GameId>, limit: nat): CoPurchases {
    MostCommon(JoinCounts(table, me, owned), limit)
  }

  method CoPurchasesOf(table: Ownerships, me: UserId, owned: set<GameId>, limit: nat) returns (r: CoPurchases)
    ensures r == CoPurchased(table, me, owned, limit)
  {
    var counts := CountCoPurchases(table, me, owned);
    var kept := Top(Listing(counts.Keys), CountKey(counts), limit);
    r := Restricted(counts, kept);
  }

  /** The games counted higher, smaller ids first among equals. */
  ghost function CountedHigher(counts: CoPurchases, g: GameId): set<GameId> {
    set h | h in counts.Keys
         && (CountOf(counts, h) > CountOf(counts, g) || (CountOf(counts, h) == CountOf(counts, g) && h < g))
  }

  /** The query keeps exactly the counted games with fewer than `limit` others counted higher, each with its count. */
  lemma CoPurchasedExactly(table: Ownerships, me: UserId, owned: set<GameId>, limit: nat, g: GameId)
    ensures var counts, kept := JoinCounts(table, me, owned), CoPurchased(table, me, owned, limit);
      && (g in kept <==> g in counts && |CountedHigher(counts, g)| < limit)
      && (g in kept ==> kept[g] == counts[g])
  {
    MostCommonExactly(JoinCounts(table, me, owned), limit, g);
  }

  lemma MostCommonExactly(counts: CoPurchases, limit: nat, g: GameId)
    ensures g in MostCommon(counts, limit) <==> g in counts && |CountedHigher(counts, g)| < limit
    ensures g in MostCommon(counts, limit) ==> MostCommon(counts, limit)[g] == counts[g]
  {
    var ids := Listing(counts.Keys);
    TopExactly(ids, CountKey(counts), limit, g);
    AheadIsHigher(counts, ids, g);
  }

  lemma AheadIsHigher(counts: CoPurchases, ids: seq<GameId>, g: GameId)
    requires forall h :: h in ids <==> h in counts
    ensures Ahead(ids, CountKey(counts), g) == CountedHigher(counts, g)
  {}
}
