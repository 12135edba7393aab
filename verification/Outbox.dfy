/** `messaging/outbox/dispatcher.py` and `record.py` over the memory outbox: one replica draining records. */
module Outbox {
  import opened Ordering
  import opened Catalog

  const MAX_ATTEMPTS: nat := 5
  const BASE_BACKOFF_SECONDS := 0.5

  /** The fields of a record that draining reads or writes. */
  datatype Row = Row(
    id: int,
    occurredAt: Time,
    attempts: nat,
    publishedAt: Option<Time>,
    nextAttemptAt: Option<Time>,
    deadLettered: bool,
    lastError: Option<string>)
  {
    predicate Pending() { publishedAt.None? && !deadLettered }

    predicate Due(now: Time) { Pending() && (nextAttemptAt.None? || nextAttemptAt.value <= now) }

    /** The publish calls a record may still cost. */
    function Budget(): nat { if Pending() && attempts < MAX_ATTEMPTS then MAX_ATTEMPTS - attempts else 0 }
  }

  function FreshRow(id: int, occurredAt: Time): Row {
    Row(id, occurredAt, 0, None, None, false, None)
  }

  /** `random.random()` */
  type Fraction = x: real | 0.0 <= x < 1.0

  /** What the publisher did with one call. */
  datatype Outcome = Accepted | Refused(error: string, random: Fraction)

  /** 0.5 * 2 ** (attempts - 1) */
  function Backoff(attempts: nat): (b: real)
    ensures b > 0.0
  {
    if attempts <= 1 then BASE_BACKOFF_SECONDS else 2.0 * Backoff(attempts - 1)
  }

  function Delay(attempts: nat, random: Fraction): real {
    Backoff(attempts) + Backoff(attempts) * random * 0.1
  }

  /** One call of `_publish`. */
  function PublishRow(r: Row, now: Time, outcome: Outcome): Row {
    var tried := r.(attempts := r.attempts + 1);
    match outcome
    case Accepted => tried.(publishedAt := Some(now), lastError := None)
    case Refused(error, random) =>
      if tried.attempts >= MAX_ATTEMPTS then tried.(lastError := Some(error), deadLettered := true)
      else tried.(lastError := Some(error), nextAttemptAt := Some(now + Delay(tried.attempts, random)))
  }

  /** One call, field by field: an attempt more; an accepted one is published at the drain's moment; a refused one waits
      0.5, 1, 2 or 4 seconds and up to a tenth more, and the fifth goes to the dead letters. */
  lemma CallLeaves(r: Row, now: Time, outcome: Outcome)
    ensures var after := PublishRow(r, now, outcome);
      && after.id == r.id && after.occurredAt == r.occurredAt && after.attempts == r.attempts + 1
      && after.publishedAt == (if outcome.Accepted? then Some(now) else r.publishedAt)
      && after.lastError == (if outcome.Accepted? then None else Some(outcome.error))
      && (after.deadLettered <==> r.deadLettered || (outcome.Refused? && r.attempts >= 4))
      && (outcome.Refused? && r.attempts < 4 ==>
            after.nextAttemptAt == Some(now + WaitWith(Wait(r.attempts), outcome.random)))
      && (outcome.Accepted? || r.attempts >= 4 ==> after.nextAttemptAt == r.nextAttemptAt)
  {
    if outcome.Refused? && r.attempts < 4 { WaitIsDelay(r.attempts, outcome.random); }
  }

  function Wait(attempts: nat): real
    requires attempts < 4
  {
    if attempts == 0 then 0.5 else if attempts == 1 then 1.0 else if attempts == 2 then 2.0 else 4.0
  }

  function WaitWith(wait: real, random: Fraction): real {
    wait + wait * random * 0.1
  }

  lemma WaitIsDelay(attempts: nat, random: Fraction)
    requires attempts < 4
    ensures Delay(attempts + 1, random) == WaitWith(Wait(attempts), random)
  {
    assert Backoff(1) == 0.5 && Backoff(2) == 1.0 && Backoff(3) == 2.0 && Backoff(4) == 4.0;
    var b := Backoff(attempts + 1);
    assert b == Wait(attempts);
    assert Delay(attempts + 1, random) == b + b * random * 0.1;
  }

  // ---------------------------------------------------------------- the records and the store

  class OutboxRecord {
    const id: int
    const occurredAt: Time
    var attempts: nat
    var publishedAt: Option<Time>
    var nextAttemptAt: Option<Time>
    var deadLettered: bool
    var lastError: Option<string>

    constructor (id: int, occurredAt: Time)
      ensures View() == FreshRow(id, occurredAt)
    {
      this.id, this.occurredAt := id, occurredAt;
      attempts, publishedAt, nextAttemptAt, deadLettered, lastError := 0, None, None, false, None;
    }

    function View(): Row
      reads this
    {
      Row(id, occurredAt, attempts, publishedAt, nextAttemptAt, deadLettered, lastError)
    }
  }

  function Positions(n: nat): (r: seq<int>)
    ensures |r| == n && forall i :: 0 <= i < n ==> r[i] == i
  {
    seq(n, i => i)
  }

  function DueAt(rows: seq<Row>, now: Time): int -> bool {
    (i: int) => 0 <= i < |rows| && rows[i].Due(now)
  }

  /** Oldest first; a stable sort leaves records of the same moment in the order they were enqueued. */
  function AgeKey(rows: seq<Row>): int -> Key {
    (i: int) => Key(if 0 <= i < |rows| then -rows[i].occurredAt else 0.0, 0, i)
  }

  /** `due`, by position in the outbox. */
  function DuePositions(rows: seq<Row>, now: Time, limit: nat): (r: seq<int>)
    ensures forall i :: i in r ==> 0 <= i < |rows| && rows[i].Due(now)
    ensures forall k :: 0 <= k < |r| ==> 0 <= r[k] < |rows| && rows[r[k]].Due(now)
    ensures |r| <= limit
  {
    var r := Top(Filter(Positions(|rows|), DueAt(rows, now)), AgeKey(rows), limit);
    assert forall k :: 0 <= k < |r| ==> r[k] in r;
    r
  }

  lemma ReadyStep(rows: seq<Row>, now: Time, i: nat)
    requires i < |rows|
    ensures var all := Positions(|rows|);
      Filter(all[..i + 1], DueAt(rows, now))
      == Filter(all[..i], DueAt(rows, now)) + if rows[i].Due(now) then [i] else []
  {
    assert Positions(|rows|)[..i + 1] == Positions(|rows|)[..i] + [i];
    FilterAppend(Positions(|rows|)[..i], [i], DueAt(rows, now));
  }

  class MemoryOutboxStore {
    var records: seq<OutboxRecord>

    ghost predicate Valid()
      reads this
    {
      forall i, j :: 0 <= i < j < |records| ==> records[i] != records[j]
    }

    function View(): (rows: seq<Row>)
      reads this, records
      ensures |rows| == |records|
    {
      seq(|records|, i requires 0 <= i < |records| reads this, records => records[i].View())
    }

    constructor ()
      ensures Valid() && View() == []
    {
      records := [];
    }

    method Enqueue(id: int, occurredAt: Time)
      requires Valid()
      modifies this
      ensures Valid() && View() == old(View()) + [FreshRow(id, occurredAt)]
    {
      var record := new OutboxRecord(id, occurredAt);
      assert record !in records;
      records := records + [record];
    }

    /** The positions of the records to drain now. */
    method Due(now: Time, limit: nat) returns (r: seq<int>)
      ensures r == DuePositions(View(), now, limit)
    {
      var ready: seq<int> := [];
      ghost var rows := View();
      assert Positions(|records|)[..|records|] == Positions(|records|);
      for i := 0 to |records|
        invariant ready == Filter(Positions(|records|)[..i], DueAt(rows, now))
      {
        ReadyStep(rows, now, i);
        var record := records[i];
        if record.publishedAt.None? && !record.deadLettered
           && (record.nextAttemptAt.None? || record.nextAttemptAt.value <= now) {
          ready := ready + [i];
        }
      }
      r := Take(Sort(ready, AgeKey(View())), limit);
    }
  }

  // ---------------------------------------------------------------- draining

  function PublishAll(rows: seq<Row>, positions: seq<int>, now: Time, outcomes: nat -> Outcome): (r: seq<Row>)
    ensures |r| == |rows|
  {
    if positions == [] then rows else
    var n := |positions| - 1;
    var before := PublishAll(rows, positions[..n], now, outcomes);
    if 0 <= positions[n] < |rows| then before[positions[n] := PublishRow(before[positions[n]], now, outcomes(n))]
      else before
  }

  lemma PublishAllStep(rows: seq<Row>, positions: seq<int>, k: nat, now: Time, outcomes: nat -> Outcome)
    requires k < |positions| && 0 <= positions[k] < |rows|
    ensures var before := PublishAll(rows, positions[..k], now, outcomes);
      PublishAll(rows, positions[..k + 1], now, outcomes)
        == before[positions[k] := PublishRow(before[positions[k]], now, outcomes(k))]
  {
    assert positions[..k + 1][..k] == positions[..k];
  }

  function Drained(rows: seq<Row>, now: Time, limit: nat, outcomes: nat -> Outcome): seq<Row> {
    PublishAll(rows, DuePositions(rows, now, limit), now, outcomes)
  }

  /** How many of the first `n` calls were accepted. */
  function AcceptedOf(n: nat, outcomes: nat -> Outcome): nat {
    if n == 0 then 0 else AcceptedOf(n - 1, outcomes) + if outcomes(n - 1).Accepted? then 1 else 0
  }

  class OutboxDispatcher {
    const store: MemoryOutboxStore
    const batchSize: nat

    constructor (store: MemoryOutboxStore, batchSize: nat)
      ensures this.store == store && this.batchSize == batchSize
    {
      this.store, this.batchSize := store, batchSize;
    }

    method Publish(record: OutboxRecord, now: Time, outcome: Outcome) returns (accepted: bool)
      modifies record
      ensures record.View() == PublishRow(old(record.View()), now, outcome)
      ensures accepted <==> outcome.Accepted?
    {
      record.attempts := record.attempts + 1;
      match outcome {
        case Refused(error, random) =>
          record.lastError := Some(error);
          if record.attempts >= MAX_ATTEMPTS {
            record.deadLettered := true;
          } else {
            record.nextAttemptAt := Some(now + Delay(record.attempts, random));
          }
          accepted := false;
        case Accepted =>
          record.publishedAt := Some(now);
          record.lastError := None;
          accepted := true;
      }
    }

    /** Publishing one record changes that record only. */
    method PublishAt(i: nat, now: Time, outcome: Outcome) returns (accepted: bool)
      requires store.Valid() && i < |store.records|
      modifies store.records[i]
      ensures store.Valid() && store.View() == old(store.View())[i := PublishRow(old(store.View()[i]), now, outcome)]
      ensures accepted <==> outcome.Accepted?
    {
      ghost var rows := store.View();
      accepted := Publish(store.records[i], now, outcome);
      assert forall j :: 0 <= j < |rows| && j != i ==> store.records[j] != store.records[i];
      assert forall j :: 0 <= j < |rows| && j != i ==> store.View()[j] == rows[j];
    }

    /** The loop of one poll: the k-th due record is tried after those before it. */
    method PublishEach(due: seq<int>, now: Time, outcomes: nat -> Outcome) returns (published: nat)
      requires store.Valid() && forall k :: 0 <= k < |due| ==> 0 <= due[k] < |store.records|
      modifies store.records
      ensures store.View() == PublishAll(old(store.View()), due, now, outcomes)
      ensures published == AcceptedOf(|due|, outcomes)
    {
      published := 0;
      ghost var rows := store.View();
      for k := 0 to |due|
        invariant store.View() == PublishAll(rows, due[..k], now, outcomes)
        invariant published == AcceptedOf(k, outcomes)
      {
        PublishAllStep(rows, due, k, now, outcomes);
        var accepted := PublishAt(due[k], now, outcomes(k));
        if accepted { published := published + 1; }
      }
      assert due[..|due|] == due;
    }

    /** One poll: every due record of the batch is tried once, in order. */
    method DrainOnce(now: Time, outcomes: nat -> Outcome) returns (published: nat)
      requires store.Valid()
      modifies store.records
      ensures store.View() == Drained(old(store.View()), now, batchSize, outcomes)
      ensures published == AcceptedOf(|DuePositions(old(store.View()), now, batchSize)|, outcomes)
    {
      var due := store.Due(now, batchSize);
      published := PublishEach(due, now, outcomes);
    }
  }

  // ---------------------------------------------------------------- what one call keeps

  /** A record is settled at most one way, a pending one has attempts left, and a dead one used them all. */
  predicate Sound(r: Row) {
    && r.attempts <= MAX_ATTEMPTS
    && !(r.publishedAt.Some? && r.deadLettered)
    && (r.Pending() ==> r.attempts < MAX_ATTEMPTS)
    && (r.deadLettered ==> r.attempts == MAX_ATTEMPTS)
    && (r.Pending() ==> (r.nextAttemptAt.None? <==> r.attempts == 0))
  }

  ghost predicate AllSound(rows: seq<Row>) {
    forall i :: 0 <= i < |rows| ==> Sound(rows[i])
  }

  lemma CallKeepsSound(r: Row, now: Time, outcome: Outcome)
    requires Sound(r) && r.Pending()
    ensures var after := PublishRow(r, now, outcome);
      && Sound(after) && after.attempts == r.attempts + 1
      && after.Budget() < r.Budget()
      && (after.publishedAt.Some? <==> outcome.Accepted?)
  {}

  function Total(rows: seq<Row>, f: Row -> nat): nat {
    if rows == [] then 0 else Total(rows[..|rows| - 1], f) + f(rows[|rows| - 1])
  }

  lemma {:induction false} TotalUpdate(rows: seq<Row>, i: nat, r: Row, f: Row -> nat)
    requires i < |rows|
    ensures Total(rows[i := r], f) == Total(rows, f) - f(rows[i]) + f(r)
    decreases |rows|
  {
    var n := |rows| - 1;
    if i < n {
      assert rows[i := r][..n] == rows[..n][i := r];
      TotalUpdate(rows[..n], i, r, f);
    } else {
      assert rows[i := r][..n] == rows[..n];
    }
  }

  function Budgets(): Row -> nat { (r: Row) => r.Budget() }
  function Tries(): Row -> nat { (r: Row) => r.attempts }
  function Sent(): Row -> nat { (r: Row) => if r.publishedAt.Some? then 1 else 0 }

  ghost predicate AllPending(rows: seq<Row>, positions: seq<int>) {
    Distinct(positions) && forall k :: 0 <= k < |positions| ==>
      0 <= positions[k] < |rows| && rows[positions[k]].Pending()
  }

  /** Distinct pending records are tried once each, and everyone else is untouched. */
  lemma {:induction false} PublishAllRows(rows: seq<Row>, positions: seq<int>, now: Time, outcomes: nat -> Outcome,
                                          i: nat)
    requires i < |rows| && AllPending(rows, positions)
    ensures i !in positions ==> PublishAll(rows, positions, now, outcomes)[i] == rows[i]
    ensures forall k :: 0 <= k < |positions| && positions[k] == i ==>
      PublishAll(rows, positions, now, outcomes)[i] == PublishRow(rows[i], now, outcomes(k))
  {
    if positions != [] {
      var n := |positions| - 1;
      assert positions == positions[..n] + [positions[n]];
      PublishAllRows(rows, positions[..n], now, outcomes, i);
      if positions[n] == i { assert i !in positions[..n]; }
    }
  }

  /** One call lowers the budget, and counts as one attempt. */
  lemma OneCall(rows: seq<Row>, p: nat, now: Time, outcome: Outcome)
    requires p < |rows| && Sound(rows[p]) && rows[p].Pending()
    ensures var after := rows[p := PublishRow(rows[p], now, outcome)];
      && Total(after, Budgets()) < Total(rows, Budgets())
      && Total(after, Tries()) == Total(rows, Tries()) + 1
      && Total(after, Sent()) == Total(rows, Sent()) + if outcome.Accepted? then 1 else 0
  {
    var r := PublishRow(rows[p], now, outcome);
    CallKeepsSound(rows[p], now, outcome);
    TotalUpdate(rows, p, r, Budgets());
    TotalUpdate(rows, p, r, Tries());
    TotalUpdate(rows, p, r, Sent());
  }

  /** The totals of a drain move together. */
  lemma {:induction false} PublishAllTotals(rows: seq<Row>, positions: seq<int>, now: Time, outcomes: nat -> Outcome)
    requires AllSound(rows) && AllPending(rows, positions)
    ensures var after := PublishAll(rows, positions, now, outcomes);
      && Total(after, Budgets()) + |positions| <= Total(rows, Budgets())
      && Total(after, Tries()) == Total(rows, Tries()) + |positions|
      && Total(after, Sent()) == Total(rows, Sent()) + AcceptedOf(|positions|, outcomes)
  {
    if positions != [] {
      var n := |positions| - 1;
      PublishAllTotals(rows, positions[..n], now, outcomes);
      PublishAllRows(rows, positions[..n], now, outcomes, positions[n]);
      assert positions[n] !in positions[..n];
      OneCall(PublishAll(rows, positions[..n], now, outcomes), positions[n], now, outcomes(n));
    }
  }

  lemma PublishAllSound(rows: seq<Row>, positions: seq<int>, now: Time, outcomes: nat -> Outcome)
    requires AllSound(rows) && AllPending(rows, positions)
    ensures AllSound(PublishAll(rows, positions, now, outcomes))
  {
    forall i | 0 <= i < |rows| ensures Sound(PublishAll(rows, positions, now, outcomes)[i]) {
      PublishAllRows(rows, positions, now, outcomes, i);
      if i in positions {
        var k :| 0 <= k < |positions| && positions[k] == i;
        CallKeepsSound(rows[i], now, outcomes(k));
      }
    }
  }

  lemma DueDistinct(rows: seq<Row>, now: Time, limit: nat)
    ensures Distinct(DuePositions(rows, now, limit))
  {
    var ready := Filter(Positions(|rows|), DueAt(rows, now));
    FilterDistinct(Positions(|rows|), DueAt(rows, now));
    DistinctMultiset(ready, Sort(ready, AgeKey(rows)));
  }

  /** A record is drained exactly when it is due and fewer than `limit` due records are older. */
  lemma DueExactly(rows: seq<Row>, now: Time, limit: nat, i: nat)
    requires i < |rows|
    ensures i in DuePositions(rows, now, limit) <==>
      && rows[i].Due(now)
      && |OlderDue(rows, now, i)| < limit
  {
    var ready := Filter(Positions(|rows|), DueAt(rows, now));
    FilterDistinct(Positions(|rows|), DueAt(rows, now));
    TopExactly(ready, AgeKey(rows), limit, i);
    ReadyExactly(rows, now, i);
    OlderIsAhead(rows, now, i);
  }

  /** The due records that are older. */
  ghost function OlderDue(rows: seq<Row>, now: Time, i: nat): set<int>
    requires i < |rows|
  {
    set j | 0 <= j < |rows| && rows[j].Due(now) &&
      (rows[j].occurredAt < rows[i].occurredAt || (rows[j].occurredAt == rows[i].occurredAt && j < i))
  }

  /** One drain, record by record: the k-th oldest due record of the batch is called with the k-th outcome, and every
      other record is left as it was. */
  lemma DrainLeaves(rows: seq<Row>, now: Time, limit: nat, outcomes: nat -> Outcome, i: nat)
    requires i < |rows|
    ensures var k := |OlderDue(rows, now, i)|;
      Drained(rows, now, limit, outcomes)[i] ==
        if rows[i].Due(now) && k < limit then PublishRow(rows[i], now, outcomes(k)) else rows[i]
  {
    var due := DuePositions(rows, now, limit);
    DueDistinct(rows, now, limit);
    DueExactly(rows, now, limit, i);
    assert AllPending(rows, due);
    PublishAllRows(rows, due, now, outcomes, i);
    if i in due {
      var k :| 0 <= k < |due| && due[k] == i;
      PlaceInBatch(rows, now, limit, k);
    }
  }

  lemma PlaceInBatch(rows: seq<Row>, now: Time, limit: nat, k: nat)
    requires k < |DuePositions(rows, now, limit)|
    ensures |OlderDue(rows, now, DuePositions(rows, now, limit)[k])| == k
  {
    var ready := Filter(Positions(|rows|), DueAt(rows, now));
    FilterDistinct(Positions(|rows|), DueAt(rows, now));
    AheadOfIndex(ready, AgeKey(rows), k);
    OlderIsAhead(rows, now, DuePositions(rows, now, limit)[k]);
  }

  lemma OlderIsAhead(rows: seq<Row>, now: Time, i: nat)
    requires i < |rows|
    ensures Ahead(Filter(Positions(|rows|), DueAt(rows, now)), AgeKey(rows), i) == OlderDue(rows, now, i)
  {
    forall j
      ensures j in Ahead(Filter(Positions(|rows|), DueAt(rows, now)), AgeKey(rows), i) <==> j in OlderDue(rows, now, i)
    {
      ReadyExactly(rows, now, j);
    }
  }

  lemma ReadyExactly(rows: seq<Row>, now: Time, j: int)
    ensures j in Filter(Positions(|rows|), DueAt(rows, now)) <==> 0 <= j < |rows| && rows[j].Due(now)
  {
    if 0 <= j < |rows| { assert Positions(|rows|)[j] in Positions(|rows|); }
  }

  /** Progress: a drain that finds anything strictly lowers what is left to spend. */
  lemma DrainLowersBudget(rows: seq<Row>, now: Time, limit: nat, outcomes: nat -> Outcome)
    requires AllSound(rows)
    ensures Total(Drained(rows, now, limit, outcomes), Budgets()) + |DuePositions(rows, now, limit)|
      <= Total(rows, Budgets())
  {
    DueDistinct(rows, now, limit);
    PublishAllTotals(rows, DuePositions(rows, now, limit), now, outcomes);
  }

  // ---------------------------------------------------------------- whole runs

  datatype Step = Enqueue(id: int, occurredAt: Time) | Drain(now: Time, limit: nat, outcomes: nat -> Outcome)

  function Next(rows: seq<Row>, step: Step): seq<Row> {
    match step
    case Enqueue(id, occurredAt) => rows + [FreshRow(id, occurredAt)]
    case Drain(now, limit, outcomes) => Drained(rows, now, limit, outcomes)
  }

  function Reached(steps: seq<Step>): seq<Row> {
    if steps == [] then [] else Next(Reached(steps[..|steps| - 1]), steps[|steps| - 1])
  }

  function Calls(steps: seq<Step>): nat {
    if steps == [] then 0 else
    var front, last := steps[..|steps| - 1], steps[|steps| - 1];
    Calls(front) + if last.Drain? then |DuePositions(Reached(front), last.now, last.limit)| else 0
  }

  function AcceptedCalls(steps: seq<Step>): nat {
    if steps == [] then 0 else
    var front, last := steps[..|steps| - 1], steps[|steps| - 1];
    AcceptedCalls(front)
    + if last.Drain? then AcceptedOf(|DuePositions(Reached(front), last.now, last.limit)|, last.outcomes) else 0
  }

  lemma TotalAppend(rows: seq<Row>, r: Row, f: Row -> nat)
    ensures Total(rows + [r], f) == Total(rows, f) + f(r)
  {
    assert (rows + [r])[..|rows|] == rows;
  }

  /** Every publish call is an attempt of some record, every accepted one a published record: nothing is sent twice. */
  lemma {:induction false} CallsAreAttempts(steps: seq<Step>)
    ensures AllSound(Reached(steps))
    ensures Total(Reached(steps), Tries()) == Calls(steps)
    ensures Total(Reached(steps), Sent()) == AcceptedCalls(steps)
  {
    if steps != [] {
      var front, last := steps[..|steps| - 1], steps[|steps| - 1];
      CallsAreAttempts(front);
      var rows := Reached(front);
      match last
      case Enqueue(id, occurredAt) =>
        TotalAppend(rows, FreshRow(id, occurredAt), Tries());
        TotalAppend(rows, FreshRow(id, occurredAt), Sent());
      case Drain(now, limit, outcomes) =>
        DueDistinct(rows, now, limit);
        PublishAllTotals(rows, DuePositions(rows, now, limit), now, outcomes);
        PublishAllSound(rows, DuePositions(rows, now, limit), now, outcomes);
    }
  }

  lemma {:induction false} TotalAtMost(rows: seq<Row>)
    requires AllSound(rows)
    ensures Total(rows, Tries()) <= MAX_ATTEMPTS * |rows|
  {
    if rows != [] { TotalAtMost(rows[..|rows| - 1]); }
  }

  /** N records cost at most 5N publish calls, however the publisher behaves. */
  lemma CallsBounded(steps: seq<Step>)
    ensures Calls(steps) <= 5 * |Reached(steps)|
  {
    CallsAreAttempts(steps);
    TotalAtMost(Reached(steps));
  }

  lemma NextRow(rows: seq<Row>, step: Step, i: nat)
    requires AllSound(rows) && i < |rows|
    ensures i < |Next(rows, step)|
    ensures var after := Next(rows, step)[i];
      if step.Drain? && i in DuePositions(rows, step.now, step.limit)
      then rows[i].Due(step.now) && exists outcome :: after == PublishRow(rows[i], step.now, outcome)
      else after == rows[i]
  {
    if step.Drain? {
      var positions := DuePositions(rows, step.now, step.limit);
      DueDistinct(rows, step.now, step.limit);
      PublishAllRows(rows, positions, step.now, step.outcomes, i);
      if i in positions {
        var k :| 0 <= k < |positions| && positions[k] == i;
        assert Next(rows, step)[i] == PublishRow(rows[i], step.now, step.outcomes(k));
      }
    }
  }

  /** No record is lost, and a published or dead-lettered one never changes again. */
  lemma {:induction false} SettledForever(steps: seq<Step>, n: nat, i: nat)
    requires n <= |steps| && i < |Reached(steps[..n])|
    ensures i < |Reached(steps)| && Reached(steps)[i].id == Reached(steps[..n])[i].id
    ensures !Reached(steps[..n])[i].Pending() ==> Reached(steps)[i] == Reached(steps[..n])[i]
    decreases |steps|
  {
    if n == |steps| {
      assert steps[..n] == steps;
    } else {
      var front := steps[..|steps| - 1];
      assert front[..n] == steps[..n];
      SettledForever(front, n, i);
      CallsAreAttempts(front);
      NextRow(Reached(front), steps[|steps| - 1], i);
    }
  }

  // ---------------------------------------------------------------- patience

  /** The next wait is always longer, whatever the jitter of the two. */
  lemma BackoffGrows(attempts: nat, random: Fraction, other: Fraction)
    requires attempts > 0
    ensures Backoff(attempts) <= Delay(attempts, random) < Delay(attempts + 1, other)
  {
    var b := Backoff(attempts);
    assert Backoff(attempts + 1) == 2.0 * b;
    JitterBounds(b, random);
    JitterBounds(2.0 * b, other);
  }

  lemma JitterBounds(b: real, random: Fraction)
    requires b > 0.0
    ensures 0.0 <= b * random * 0.1 < 0.1 * b
  {
    assert 0.0 <= b * random < b;
  }

  /** When record `i` was tried. */
  function TriedAt(steps: seq<Step>, i: nat): seq<Time> {
    if steps == [] then [] else
    var front, last := steps[..|steps| - 1], steps[|steps| - 1];
    TriedAt(front, i)
    + if last.Drain? && i in DuePositions(Reached(front), last.now, last.limit) then [last.now] else []
  }

  /** Attempts are at least the backoff apart, and the next one is not due before it has passed. */
  ghost predicate Paced(r: Row, times: seq<Time>) {
    && |times| == r.attempts
    && (forall k :: 0 < k < |times| ==> times[k] >= times[k - 1] + Backoff(k))
    && (r.Pending() && times != [] ==>
          r.nextAttemptAt.Some? && r.nextAttemptAt.value >= times[|times| - 1] + Backoff(|times|))
  }

  lemma CallPaced(r: Row, times: seq<Time>, now: Time, outcome: Outcome)
    requires Sound(r) && Paced(r, times) && r.Due(now)
    ensures Paced(PublishRow(r, now, outcome), times + [now])
  {
    if outcome.Refused? { DelayAtLeast(r.attempts + 1, outcome.random); }
  }

  lemma DelayAtLeast(attempts: nat, random: Fraction)
    ensures Delay(attempts, random) >= Backoff(attempts)
  {
    JitterBounds(Backoff(attempts), random);
  }

  lemma {:induction false} NotTriedYet(steps: seq<Step>, i: nat)
    requires i >= |Reached(steps)|
    ensures TriedAt(steps, i) == []
  {
    if steps != [] {
      var front, last := steps[..|steps| - 1], steps[|steps| - 1];
      assert |Reached(front)| <= |Reached(steps)|;
      NotTriedYet(front, i);
    }
  }

  lemma {:induction false} AlwaysPaced(steps: seq<Step>, i: nat)
    requires i < |Reached(steps)|
    ensures Paced(Reached(steps)[i], TriedAt(steps, i))
  {
    var front, last := steps[..|steps| - 1], steps[|steps| - 1];
    var rows := Reached(front);
    CallsAreAttempts(front);
    if i < |rows| {
      AlwaysPaced(front, i);
      NextRow(rows, last, i);
      if last.Drain? && i in DuePositions(rows, last.now, last.limit) {
        var outcome :| Reached(steps)[i] == PublishRow(rows[i], last.now, outcome);
        CallPaced(rows[i], TriedAt(front, i), last.now, outcome);
      } else {
        assert TriedAt(steps, i) == TriedAt(front, i);
      }
    } else {
      NotTriedYet(front, i);
      assert TriedAt(steps, i) == [];
    }
  }

  /** A record is dead-lettered only after five attempts spread over at least 7.5 seconds, however the clock moves. */
  lemma DeadLetterPatience(steps: seq<Step>, i: nat)
    requires i < |Reached(steps)| && Reached(steps)[i].deadLettered
    ensures |TriedAt(steps, i)| == 5 && TriedAt(steps, i)[4] >= TriedAt(steps, i)[0] + 7.5
  {
    CallsAreAttempts(steps);
    AlwaysPaced(steps, i);
    var t := TriedAt(steps, i);
    assert Backoff(1) == 0.5 && Backoff(2) == 1.0 && Backoff(3) == 2.0 && Backoff(4) == 4.0;
    assert t[1] >= t[0] + Backoff(1) && t[2] >= t[1] + Backoff(2) && t[3] >= t[2] + Backoff(3)
      && t[4] >= t[3] + Backoff(4);
  }
}
