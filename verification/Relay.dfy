/** `persistence/sql/outbox_store.py` under several dispatchers: claim, lease, publish, record, crash. */
module Relay {
  import opened Ordering
  import opened Catalog
  import opened Outbox

  /** `lease` */
  const LEASE := 30.0

  // ---------------------------------------------------------------- the table and its three writes

  predicate KeyedById(rows: map<int, Row>) {
    forall id :: id in rows ==> rows[id].id == id
  }

  type Table = rows: map<int, Row> | KeyedById(rows)

  /** Claimed rows are pushed a lease ahead. */
  function Leased(table: Table, ids: set<int>, now: Time): Table {
    map id | id in table :: if id in ids then table[id].(nextAttemptAt := Some(now + LEASE)) else table[id]
  }

  /** `record_published` leaves `next_attempt_at` and `dead_lettered` as they are. */
  function WritePublished(row: Row, record: Row): Row {
    row.(publishedAt := record.publishedAt, attempts := record.attempts, lastError := None)
  }

  /** `record_failure` leaves `published_at` as it is. */
  function WriteFailure(row: Row, record: Row): Row {
    row.(attempts := record.attempts, lastError := record.lastError, nextAttemptAt := record.nextAttemptAt,
         deadLettered := record.deadLettered)
  }

  function Written(row: Row, record: Row): Row {
    if record.publishedAt.Some? then WritePublished(row, record) else WriteFailure(row, record)
  }

  function Applied(table: Table, record: Row): Table {
    if record.id in table then table[record.id := Written(table[record.id], record)] else table
  }

  function Claimable(table: Table, now: Time, locked: set<int>): int -> bool {
    (id: int) => id in table && id !in locked && table[id].Due(now)
  }

  function AgeOf(table: Table): int -> Key {
    (id: int) => Key(if id in table then -table[id].occurredAt else 0.0, 0, id)
  }

  function ReadyIds(table: Table, now: Time, locked: set<int>): (r: seq<int>)
    ensures forall id :: id in r <==> id in table && id !in locked && table[id].Due(now)
  {
    Filter(Listing(table.Keys), Claimable(table, now, locked))
  }

  /** The rows one poll claims: due, not locked by another poll, oldest first. */
  function ClaimedIds(table: Table, now: Time, limit: nat, locked: set<int>): (r: seq<int>)
    ensures forall i :: 0 <= i < |r| ==> r[i] in table
    ensures |r| <= limit
  {
    TopMembers(ReadyIds(table, now, locked), AgeOf(table), limit);
    Top(ReadyIds(table, now, locked), AgeOf(table), limit)
  }

  function RecordsOf(table: Table, ids: seq<int>): seq<Row>
    requires forall i :: 0 <= i < |ids| ==> ids[i] in table
  {
    seq(|ids|, i requires 0 <= i < |ids| => table[ids[i]])
  }

  function IdSet(ids: seq<int>): set<int> {
    set id | id in ids
  }

  function PendingIds(table: Table): (r: set<int>)
    ensures forall id :: id in r <==> id in table && table[id].publishedAt.None? && !table[id].deadLettered
  {
    set id | id in table && table[id].Pending()
  }

  function DeadIds(table: Table): (r: set<int>)
    ensures forall id :: id in r <==> id in table && table[id].deadLettered
  {
    set id | id in table && table[id].deadLettered
  }

  class OutboxTable {
    var rows: Table

    constructor ()
      ensures rows == map[]
    {
      rows := map[];
    }
  }

  class SqlOutboxStore {
    const table: OutboxTable
    const batchSize: nat
    var pending: nat
    var deadLettered: nat

    constructor (table: OutboxTable, batchSize: nat)
      ensures this.table == table && this.batchSize == batchSize && pending == 0 && deadLettered == 0
    {
      this.table, this.batchSize := table, batchSize;
      pending, deadLettered := 0, 0;
    }

    /** One poll: the records as they were, the rows leased, the gauges refreshed. */
    method Due(now: Time, limit: nat, locked: set<int>) returns (records: seq<Row>)
      modifies this, table
      ensures var ids := ClaimedIds(old(table.rows), now, if limit < batchSize then limit else batchSize, locked);
        && records == RecordsOf(old(table.rows), ids)
        && table.rows == Leased(old(table.rows), IdSet(ids), now)
      ensures pending == |PendingIds(table.rows)| && deadLettered == |DeadIds(table.rows)|
    {
      var ids := ClaimedIds(table.rows, now, if limit < batchSize then limit else batchSize, locked);
      records := RecordsOf(table.rows, ids);
      LeaseRows(ids, now);
      RefreshCounts();
    }

    method LeaseRows(ids: seq<int>, now: Time)
      requires forall i :: 0 <= i < |ids| ==> ids[i] in table.rows
      modifies table
      ensures table.rows == Leased(old(table.rows), IdSet(ids), now)
    {
      for i := 0 to |ids|
        invariant table.rows == Leased(old(table.rows), IdSet(ids[..i]), now)
      {
        assert forall id :: id in ids[..i + 1] <==> id in ids[..i] || id == ids[i];
        table.rows := table.rows[ids[i] := table.rows[ids[i]].(nextAttemptAt := Some(now + LEASE))];
      }
      assert ids[..|ids|] == ids;
    }

    method RefreshCounts()
      modifies this
      ensures pending == |PendingIds(table.rows)| && deadLettered == |DeadIds(table.rows)|
    {
      pending, deadLettered := |PendingIds(table.rows)|, |DeadIds(table.rows)|;
    }

    method RecordPublished(record: Row)
      requires record.publishedAt.Some?
      modifies table
      ensures table.rows == Applied(old(table.rows), record)
      ensures record.id in old(table.rows) ==>
        table.rows[record.id] == old(table.rows)[record.id].(publishedAt := record.publishedAt, lastError := None,
                                                             attempts := record.attempts)
    {
      if record.id in table.rows {
        table.rows := table.rows[record.id := WritePublished(table.rows[record.id], record)];
      }
    }

    method RecordFailure(record: Row)
      requires record.publishedAt.None?
      modifies table
      ensures table.rows == Applied(old(table.rows), record)
      ensures record.id in old(table.rows) ==>
        table.rows[record.id] == record.(occurredAt := old(table.rows)[record.id].occurredAt,
                                         publishedAt := old(table.rows)[record.id].publishedAt)
    {
      if record.id in table.rows {
        table.rows := table.rows[record.id := WriteFailure(table.rows[record.id], record)];
      }
    }
  }

  // ---------------------------------------------------------------- the protocol

  type Replica = int

  datatype Slot = Slot(replica: Replica, id: int)

  /** A replica's copy of a claimed row: read when the poll began at `now`, and updated by the publish call. */
  datatype Hold = Hold(copy: Row, now: Time, tried: bool)
  {
    predicate Sent() { tried && copy.publishedAt.Some? }
  }

  /** Per row: `calls` counts publish calls and `sent` those the broker accepted; `dropped` and `lost` count the calls,
      and the accepted ones, whose replica died before recording them. */
  datatype Cluster = Cluster(
    clock: Time,
    table: Table,
    holds: map<Slot, Hold>,
    calls: map<int, nat>,
    dropped: map<int, nat>,
    sent: map<int, nat>,
    lost: map<int, nat>)
  {
    predicate Live(k: Slot) { k in holds && clock < holds[k].now + LEASE }
  }

  const INITIAL := Cluster(0.0, map[], map[], map[], map[], map[], map[])

  function CountIn(counts: map<int, nat>, id: int): nat {
    if id in counts then counts[id] else 0
  }

  function Bump(counts: map<int, nat>, id: int): map<int, nat> {
    counts[id := CountIn(counts, id) + 1]
  }

  datatype Step =
    | Tick(to: Time)
    | Enqueue(id: int, occurredAt: Time)
    | Claim(replica: Replica, ids: set<int>, now: Time)
    | Publish(slot: Slot, outcome: Outcome)
    | Record(slot: Slot)
    | Drop(slot: Slot)

  /** A poll claims any due rows it can lock, with the time it read before; a replica drains one batch at a time. */
  ghost predicate Enabled(s: Cluster, step: Step) {
    match step
    case Tick(to) => s.clock <= to
    case Enqueue(id, _) => id !in s.table
    case Claim(replica, ids, now) =>
      && now <= s.clock
      && (forall id :: id in ids ==> id in s.table && s.table[id].Due(now))
      && (forall k :: k in s.holds ==> k.replica != replica)
    case Publish(k, _) => k in s.holds && !s.holds[k].tried
    case Record(k) => k in s.holds && s.holds[k].tried
    case Drop(k) => k in s.holds
  }

  function NewHolds(table: Table, replica: Replica, ids: set<int>, now: Time): map<Slot, Hold> {
    map id | id in ids && id in table :: Slot(replica, id) := Hold(table[id], now, false)
  }

  function Called(h: Hold, outcome: Outcome): Hold {
    Hold(PublishRow(h.copy, h.now, outcome), h.now, true)
  }

  ghost function Next(s: Cluster, step: Step): Cluster {
    if !Enabled(s, step) then s else
    match step
    case Tick(to) => s.(clock := to)
    case Enqueue(id, occurredAt) => s.(table := s.table[id := FreshRow(id, occurredAt)])
    case Claim(replica, ids, now) =>
      s.(table := Leased(s.table, ids, now), holds := s.holds + NewHolds(s.table, replica, ids, now))
    case Publish(k, outcome) =>
      s.(holds := s.holds[k := Called(s.holds[k], outcome)],
         calls := Bump(s.calls, k.id),
         sent := if outcome.Accepted? then Bump(s.sent, k.id) else s.sent)
    case Record(k) => s.(table := Applied(s.table, s.holds[k].copy), holds := s.holds - {k})
    case Drop(k) =>
      s.(holds := s.holds - {k},
         dropped := if s.holds[k].tried then Bump(s.dropped, k.id) else s.dropped,
         lost := if s.holds[k].Sent() then Bump(s.lost, k.id) else s.lost)
  }

  ghost function Reached(steps: seq<Step>): Cluster {
    if steps == [] then INITIAL else Next(Reached(steps[..|steps| - 1]), steps[|steps| - 1])
  }

  // ---------------------------------------------------------------- what every run keeps

  predicate RowBounded(r: Row, clock: Time) {
    && r.attempts <= MAX_ATTEMPTS
    && (r.Pending() ==> r.attempts < MAX_ATTEMPTS)
    && (r.Pending() && r.nextAttemptAt.Some? ==> r.nextAttemptAt.value <= clock + LEASE)
  }

  /** A copy is a pending row until its publish call, and that call's outcome afterwards. */
  predicate HoldBounded(h: Hold, id: int, clock: Time) {
    && h.copy.id == id && h.now <= clock
    && (!h.tried ==> h.copy.Pending() && h.copy.attempts < MAX_ATTEMPTS)
    && (h.tried ==> 0 < h.copy.attempts <= MAX_ATTEMPTS)
    && (h.tried && h.copy.publishedAt.Some? ==> !h.copy.deadLettered)
    && (h.tried && h.copy.publishedAt.None? ==>
          && (h.copy.deadLettered <==> h.copy.attempts == MAX_ATTEMPTS)
          && (!h.copy.deadLettered ==> h.copy.nextAttemptAt.Some? && h.copy.nextAttemptAt.value <= h.now + LEASE))
  }

  ghost predicate Bounded(s: Cluster) {
    && (forall id :: id in s.table ==> RowBounded(s.table[id], s.clock))
    && (forall k :: k in s.holds ==> k.id in s.table && HoldBounded(s.holds[k], k.id, s.clock))
  }

  lemma DelayWithinLease(attempts: nat, random: Fraction)
    requires 0 < attempts < MAX_ATTEMPTS
    ensures Delay(attempts, random) <= LEASE
  {
    assert Backoff(1) == 0.5 && Backoff(2) == 1.0 && Backoff(3) == 2.0 && Backoff(4) == 4.0;
    JitterBounds(Backoff(attempts), random);
  }

  lemma CalledBounded(h: Hold, id: int, clock: Time, outcome: Outcome)
    requires HoldBounded(h, id, clock) && !h.tried
    ensures HoldBounded(Called(h, outcome), id, clock)
    ensures Called(h, outcome).Sent() <==> outcome.Accepted?
  {
    if outcome.Refused? && h.copy.attempts + 1 < MAX_ATTEMPTS { DelayWithinLease(h.copy.attempts + 1, outcome.random); }
  }

  lemma NextBounded(s: Cluster, step: Step)
    requires Bounded(s)
    ensures Bounded(Next(s, step))
  {
    if Enabled(s, step) {
      match step
      case Tick(to) =>
      case Enqueue(id, _) =>
      case Claim(replica, ids, now) =>
      case Publish(k, outcome) => CalledBounded(s.holds[k], k.id, s.clock, outcome);
      case Record(k) =>
      case Drop(k) =>
    }
  }

  lemma {:induction false} AlwaysBounded(steps: seq<Step>)
    ensures Bounded(Reached(steps))
  {
    if steps != [] {
      AlwaysBounded(steps[..|steps| - 1]);
      NextBounded(Reached(steps[..|steps| - 1]), steps[|steps| - 1]);
    }
  }

  /** Whatever the replicas do, a pending row has attempts left and can be claimed again one lease from now. */
  lemma NeverStuck(steps: seq<Step>, id: int)
    requires id in Reached(steps).table && Reached(steps).table[id].Pending()
    ensures Reached(steps).table[id].attempts < 5
    ensures Reached(steps).table[id].Due(Reached(steps).clock + 30.0)
  {
    AlwaysBounded(steps);
  }

  lemma NextKeepsRow(s: Cluster, step: Step, id: int)
    requires Bounded(s) && id in s.table
    ensures var t := Next(s, step).table;
      && id in t && t[id].occurredAt == s.table[id].occurredAt
      && (s.table[id].publishedAt.Some? ==> t[id].publishedAt.Some?)
  {}

  /** Whatever the replicas do, no row is lost and none is ever unpublished. */
  lemma {:induction false} NothingLost(steps: seq<Step>, n: nat, id: int)
    requires n <= |steps| && id in Reached(steps[..n]).table
    ensures id in Reached(steps).table
         && Reached(steps).table[id].occurredAt == Reached(steps[..n]).table[id].occurredAt
    ensures Reached(steps[..n]).table[id].publishedAt.Some? ==> Reached(steps).table[id].publishedAt.Some?
    decreases |steps|
  {
    if n == |steps| {
      assert steps[..n] == steps;
    } else {
      var front := steps[..|steps| - 1];
      assert front[..n] == steps[..n];
      NothingLost(front, n, id);
      AlwaysBounded(front);
      NextKeepsRow(Reached(front), steps[|steps| - 1], id);
    }
  }

  // ---------------------------------------------------------------- a poll is a claim

  /** The rows a poll could claim that are older, smaller ids first among those of the same moment. */
  ghost function Older(table: Table, now: Time, locked: set<int>, id: int): set<int>
    requires id in table
  {
    set j | j in table && j !in locked && table[j].Due(now)
         && (table[j].occurredAt < table[id].occurredAt || (table[j].occurredAt == table[id].occurredAt && j < id))
  }

  /** A row is claimed exactly when it is due, nobody has it locked, and fewer than `limit` such rows are older. */
  lemma ClaimedExactly(table: Table, now: Time, limit: nat, locked: set<int>, id: int)
    ensures id in ClaimedIds(table, now, limit, locked) <==>
      id in table && id !in locked && table[id].Due(now) && |Older(table, now, locked, id)| < limit
  {
    var ready := ReadyIds(table, now, locked);
    ReadyDistinct(table, now, locked);
    TopExactly(ready, AgeOf(table), limit, id);
    if id in table { OlderIsAhead(table, now, locked, id); }
  }

  lemma ReadyDistinct(table: Table, now: Time, locked: set<int>)
    ensures Distinct(ReadyIds(table, now, locked)) && Injective(ReadyIds(table, now, locked), AgeOf(table))
  {
    ListingDistinct(table.Keys);
    FilterDistinct(Listing(table.Keys), Claimable(table, now, locked));
  }

  lemma OlderIsAhead(table: Table, now: Time, locked: set<int>, id: int)
    requires id in table
    ensures Older(table, now, locked, id) == Ahead(ReadyIds(table, now, locked), AgeOf(table), id)
  {
    forall j
      ensures j in Older(table, now, locked, id) <==> j in Ahead(ReadyIds(table, now, locked), AgeOf(table), id)
    {
      AgeBefore(table, j, id);
    }
  }

  lemma AgeBefore(table: Table, j: int, id: int)
    requires id in table
    ensures j in table ==>
      (Before(AgeOf(table)(j), AgeOf(table)(id)) <==>
         table[j].occurredAt < table[id].occurredAt || (table[j].occurredAt == table[id].occurredAt && j < id))
  {}

  /** The records come oldest first, smaller ids first among those of the same moment. */
  lemma ClaimedOldestFirst(table: Table, now: Time, limit: nat, locked: set<int>, i: nat, j: nat)
    requires i < j < |ClaimedIds(table, now, limit, locked)|
    ensures var ids := ClaimedIds(table, now, limit, locked);
      var records := RecordsOf(table, ids);
      && records[i].occurredAt <= records[j].occurredAt
      && (records[i].occurredAt == records[j].occurredAt ==> ids[i] < ids[j])
  {
    var ready := ReadyIds(table, now, locked);
    var s := Sort(ready, AgeOf(table));
    ReadyDistinct(table, now, locked);
    DistinctMultiset(ready, s);
    AheadMeansEarlier(s, AgeOf(table), i, j);
    assert s[i] in ready && s[j] in ready;
  }

  lemma ListingDistinct(s: set<int>)
    ensures Distinct(Listing(s))
  {}

  lemma ClaimedAreDue(table: Table, now: Time, limit: nat, locked: set<int>)
    ensures forall id :: id in IdSet(ClaimedIds(table, now, limit, locked)) ==> id in table && table[id].Due(now)
  {
    var ids := ClaimedIds(table, now, limit, locked);
    forall id | id in IdSet(ids) ensures id in table && table[id].Due(now) {
      ClaimedExactly(table, now, limit, locked, id);
    }
  }

  /** A replica holds the records a poll returned, one copy a row. */
  ghost predicate HoldsCopies(holds: map<Slot, Hold>, replica: Replica, ids: seq<int>, records: seq<Row>, now: Time) {
    |ids| == |records| && forall i :: 0 <= i < |ids| ==>
      Slot(replica, ids[i]) in holds && holds[Slot(replica, ids[i])] == Hold(records[i], now, false)
  }

  lemma HeldCopies(holds: map<Slot, Hold>, table: Table, replica: Replica, ids: seq<int>, now: Time)
    requires forall i :: 0 <= i < |ids| ==> ids[i] in table
    ensures HoldsCopies(holds + NewHolds(table, replica, IdSet(ids), now), replica, ids, RecordsOf(table, ids), now)
  {
    forall i | 0 <= i < |ids| ensures Slot(replica, ids[i]) in NewHolds(table, replica, IdSet(ids), now) {
      assert ids[i] in IdSet(ids);
    }
  }

  /** A poll of the store is one claim of the protocol, and the records it returns are the copies the replica holds. */
  lemma PollIsClaim(s: Cluster, replica: Replica, now: Time, limit: nat, locked: set<int>)
    requires now <= s.clock && forall k :: k in s.holds ==> k.replica != replica
    ensures var ids := ClaimedIds(s.table, now, limit, locked);
      var step := Claim(replica, IdSet(ids), now);
      && Enabled(s, step)
      && Next(s, step).table == Leased(s.table, IdSet(ids), now)
      && HoldsCopies(Next(s, step).holds, replica, ids, RecordsOf(s.table, ids), now)
  {
    var ids := ClaimedIds(s.table, now, limit, locked);
    ClaimedAreDue(s.table, now, limit, locked);
    HeldCopies(s.holds, s.table, replica, ids, now);
    ClaimTakes(s, replica, IdSet(ids), now);
  }

  /** Nobody can claim a claimed row again for thirty seconds, and anybody can after that. */
  lemma ClaimedRests(table: Table, now: Time, limit: nat, locked: set<int>, id: int, later: Time)
    requires id in ClaimedIds(table, now, limit, locked)
    ensures var after := Leased(table, IdSet(ClaimedIds(table, now, limit, locked)), now);
      id in after && (after[id].Due(later) <==> later >= now + 30.0)
  {
    var ids := IdSet(ClaimedIds(table, now, limit, locked));
    ClaimedAreDue(table, now, limit, locked);
    LeasedRests(table, ids, now, id, later);
  }

  lemma LeasedRests(table: Table, ids: set<int>, now: Time, id: int, later: Time)
    requires id in ids && id in table && table[id].Due(now)
    ensures id in Leased(table, ids, now) && (Leased(table, ids, now)[id].Due(later) <==> later >= now + 30.0)
  {
    LeasedRow(table, ids, now, id);
  }

  lemma LeasedRow(table: Table, ids: set<int>, now: Time, id: int)
    requires id in ids && id in table
    ensures id in Leased(table, ids, now)
    ensures Leased(table, ids, now)[id] == table[id].(nextAttemptAt := Some(now + 30.0))
  {}

  /** The other rows of the table stay as they were. */
  lemma OthersNotLeased(table: Table, now: Time, limit: nat, locked: set<int>, id: int)
    requires id !in ClaimedIds(table, now, limit, locked)
    ensures var after := Leased(table, IdSet(ClaimedIds(table, now, limit, locked)), now);
      (id in after <==> id in table) && (id in table ==> after[id] == table[id])
  {}

  lemma ClaimTakes(s: Cluster, replica: Replica, ids: set<int>, now: Time)
    requires now <= s.clock && forall k :: k in s.holds ==> k.replica != replica
    requires forall id :: id in ids ==> id in s.table && s.table[id].Due(now)
    ensures Enabled(s, Claim(replica, ids, now))
    ensures Next(s, Claim(replica, ids, now)).table == Leased(s.table, ids, now)
    ensures Next(s, Claim(replica, ids, now)).holds == s.holds + NewHolds(s.table, replica, ids, now)
  {}
}
