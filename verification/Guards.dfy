/** What a late record can do to a row, and the compare-and-set guard under which every run is clean. */
module Guards {
  import opened Ordering
  import opened Catalog
  import Outbox
  import opened Relay

  // ---------------------------------------------------------------- one record step

  /** The row is still as it was claimed: pending, and one attempt short of the copy. */
  predicate Guard(row: Outbox.Row, copy: Outbox.Row) {
    row.Pending() && row.attempts + 1 == copy.attempts
  }

  predicate Exclusive(r: Outbox.Row) {
    !(r.publishedAt.Some? && r.deadLettered)
  }

  /** A settled row is not touched, the attempts grow by one, and the row is settled at most one way. */
  predicate Clean(before: Outbox.Row, after: Outbox.Row) {
    (!before.Pending() ==> after == before) && after.attempts == before.attempts + 1 && Exclusive(after)
  }

  lemma Recorded(s: Cluster, k: Slot)
    requires Bounded(s) && Enabled(s, Record(k))
    ensures var t := Next(s, Record(k)).table;
      && k.id in s.table && s.holds[k].copy.id == k.id
      && t == s.table[k.id := Written(s.table[k.id], s.holds[k].copy)]
  {}

  /** In any reachable state a replica that records writes a clean row exactly when the row is still pending with one
      attempt less than its copy: the comparison the update statement does not make. */
  lemma RecordCleanIff(s: Cluster, k: Slot)
    requires Bounded(s) && Enabled(s, Record(k))
    ensures k.id in s.table && k.id in Next(s, Record(k)).table
    ensures Clean(s.table[k.id], Next(s, Record(k)).table[k.id]) <==> Guard(s.table[k.id], s.holds[k].copy)
  {
    Recorded(s, k);
  }

  /** The row ends up both published and dead-lettered exactly when it was one and the other is written. */
  lemma RecordExclusiveIff(s: Cluster, k: Slot)
    requires Bounded(s) && Enabled(s, Record(k)) && Exclusive(s.table[k.id])
    ensures var row, copy := s.table[k.id], s.holds[k].copy;
      Exclusive(Next(s, Record(k)).table[k.id]) <==>
        && !(row.deadLettered && copy.publishedAt.Some?)
        && !(row.publishedAt.Some? && copy.publishedAt.None? && copy.attempts == Outbox.MAX_ATTEMPTS)
  {
    Recorded(s, k);
  }

  /** A settled row becomes pending again exactly when it was dead-lettered and a refusal short of the fifth is
      written. */
  lemma RecordRevivesIff(s: Cluster, k: Slot)
    requires Bounded(s) && Enabled(s, Record(k)) && !s.table[k.id].Pending()
    ensures var row, copy := s.table[k.id], s.holds[k].copy;
      Next(s, Record(k)).table[k.id].Pending() <==>
        row.publishedAt.None? && copy.publishedAt.None? && copy.attempts < Outbox.MAX_ATTEMPTS
  {
    Recorded(s, k);
  }

  // ---------------------------------------------------------------- whole runs

  /** Every record of the run finds its row as it was claimed. */
  ghost predicate Guarded(steps: seq<Step>) {
    forall i :: 0 <= i < |steps| ==> StepGuarded(Reached(steps[..i]), steps[i])
  }

  ghost predicate StepGuarded(s: Cluster, step: Step) {
    step.Record? && Enabled(s, step) && step.slot.id in s.table ==>
      Guard(s.table[step.slot.id], s.holds[step.slot].copy)
  }

  /** No settled row is touched, a record raises its row's attempts by one and nothing else moves any, and no row is
      settled both ways. */
  ghost predicate StepClean(s: Cluster, step: Step) {
    forall id :: id in s.table ==>
      var before, table := s.table[id], Next(s, step).table;
      && id in table
      && (!before.Pending() ==> table[id] == before)
      && table[id].attempts == before.attempts
        + (if step.Record? && step.slot.id == id && Enabled(s, step) then 1 else 0)
      && Exclusive(table[id])
  }

  ghost predicate AllClean(steps: seq<Step>) {
    forall i :: 0 <= i < |steps| ==> StepClean(Reached(steps[..i]), steps[i])
  }

  ghost predicate AllExclusive(s: Cluster) {
    forall id :: id in s.table ==> Exclusive(s.table[id])
  }

  lemma GuardedStepClean(s: Cluster, step: Step)
    requires Bounded(s) && AllExclusive(s) && StepGuarded(s, step)
    ensures StepClean(s, step) && AllExclusive(Next(s, step))
  {
    if step.Record? && Enabled(s, step) { Recorded(s, step.slot); } else { OtherSteps(s, step); }
  }

  /** Only a record settles a row or moves its attempts. */
  lemma OtherSteps(s: Cluster, step: Step)
    requires !(step.Record? && Enabled(s, step))
    ensures forall id :: id in s.table ==>
      var row, table := s.table[id], Next(s, step).table;
      id in table && table[id] == row.(nextAttemptAt := table[id].nextAttemptAt)
        && (!row.Pending() ==> table[id] == row)
    ensures forall id :: id in Next(s, step).table && id !in s.table ==> Exclusive(Next(s, step).table[id])
  {}

  lemma CleanStepGuarded(s: Cluster, step: Step)
    requires Bounded(s) && StepClean(s, step)
    ensures StepGuarded(s, step)
  {
    if step.Record? && Enabled(s, step) {
      Recorded(s, step.slot);
      RecordCleanIff(s, step.slot);
    }
  }

  lemma GuardedPrefix(steps: seq<Step>, n: nat)
    requires Guarded(steps) && n <= |steps|
    ensures Guarded(steps[..n])
  {
    forall i | 0 <= i < n ensures StepGuarded(Reached(steps[..n][..i]), steps[..n][i]) {
      assert steps[..n][..i] == steps[..i];
    }
  }

  lemma {:induction false} GuardedExclusive(steps: seq<Step>)
    requires Guarded(steps)
    ensures AllExclusive(Reached(steps))
  {
    if steps != [] {
      var n := |steps| - 1;
      GuardedPrefix(steps, n);
      GuardedExclusive(steps[..n]);
      AlwaysBounded(steps[..n]);
      GuardedStepClean(Reached(steps[..n]), steps[n]);
    }
  }

  /** For any number of replicas, any interleaving and whatever the clocks and leases do, a run is clean throughout
      exactly when every record in it finds its row as it was claimed. */
  lemma CleanIffGuarded(steps: seq<Step>)
    ensures AllClean(steps) <==> Guarded(steps)
  {
    if Guarded(steps) {
      forall i | 0 <= i < |steps| ensures StepClean(Reached(steps[..i]), steps[i]) {
        GuardedPrefix(steps, i);
        GuardedExclusive(steps[..i]);
        AlwaysBounded(steps[..i]);
        GuardedStepClean(Reached(steps[..i]), steps[i]);
      }
    }
    if AllClean(steps) {
      forall i | 0 <= i < |steps| ensures StepGuarded(Reached(steps[..i]), steps[i]) {
        AlwaysBounded(steps[..i]);
        CleanStepGuarded(Reached(steps[..i]), steps[i]);
      }
    }
  }

  /** On a guarded run a published or dead-lettered row is never written again. */
  lemma {:induction false} SettledForever(steps: seq<Step>, n: nat, id: int)
    requires Guarded(steps) && n <= |steps|
    requires id in Reached(steps[..n]).table && !Reached(steps[..n]).table[id].Pending()
    ensures id in Reached(steps).table && Reached(steps).table[id] == Reached(steps[..n]).table[id]
    decreases |steps|
  {
    if n == |steps| {
      assert steps[..n] == steps;
    } else {
      var front := steps[..|steps| - 1];
      assert front[..n] == steps[..n];
      GuardedPrefix(steps, |steps| - 1);
      SettledForever(front, n, id);
      CleanIffGuarded(steps);
      assert StepClean(Reached(steps[..|front|]), steps[|front|]);
    }
  }

  // ---------------------------------------------------------------- accounting for every call

  /** The copies whose publish call was made and is not recorded yet, and those whose call was accepted. */
  ghost function Tried(s: Cluster, id: int): set<Slot> {
    set k | k in s.holds && k.id == id && s.holds[k].tried
  }

  ghost function InFlight(s: Cluster, id: int): set<Slot> {
    set k | k in s.holds && k.id == id && s.holds[k].Sent()
  }

  /** Every accepted send of a row is its publication, still in flight, or lost with a replica; every call is an attempt
      of the row, still in flight, or dropped with a replica. */
  ghost predicate Accounted(s: Cluster, id: int) {
    && CountIn(s.sent, id) == (if id in s.table && s.table[id].publishedAt.Some? then 1 else 0)
                              + |InFlight(s, id)| + CountIn(s.lost, id)
    && CountIn(s.calls, id) == (if id in s.table then s.table[id].attempts else 0)
                               + |Tried(s, id)| + CountIn(s.dropped, id)
  }

  lemma Without<T>(a: set<T>, b: set<T>, x: T)
    requires x in a && x !in b && forall y :: y != x ==> (y in a <==> y in b)
    ensures |a| == |b| + 1
  {
    assert a == b + {x};
  }

  lemma SameMembers<T>(a: set<T>, b: set<T>)
    requires forall y :: y in a <==> y in b
    ensures |a| == |b|
  {
    assert a == b;
  }

  lemma ClaimAccounted(s: Cluster, step: Step, id: int)
    requires step.Claim? && Enabled(s, step) && Accounted(s, id)
    ensures Accounted(Next(s, step), id)
  {
    var t := Next(s, step);
    var added := NewHolds(s.table, step.replica, step.ids, step.now);
    forall k ensures k in Tried(t, id) <==> k in Tried(s, id)
             ensures k in InFlight(t, id) <==> k in InFlight(s, id) {
      if k in added { assert k !in s.holds; }
    }
    SameMembers(InFlight(t, id), InFlight(s, id));
    SameMembers(Tried(t, id), Tried(s, id));
  }

  lemma PublishAccounted(s: Cluster, k: Slot, outcome: Outbox.Outcome, id: int)
    requires Enabled(s, Publish(k, outcome)) && Bounded(s) && Accounted(s, id)
    ensures Accounted(Next(s, Publish(k, outcome)), id)
  {
    PublishTried(s, k, outcome, id);
    PublishInFlight(s, k, outcome, id);
  }

  lemma PublishTried(s: Cluster, k: Slot, outcome: Outbox.Outcome, id: int)
    requires Enabled(s, Publish(k, outcome)) && Bounded(s)
    ensures |Tried(Next(s, Publish(k, outcome)), id)| == |Tried(s, id)| + if id == k.id then 1 else 0
  {
    var t := Next(s, Publish(k, outcome));
    if id == k.id { Without(Tried(t, id), Tried(s, id), k); } else { SameMembers(Tried(t, id), Tried(s, id)); }
  }

  lemma PublishInFlight(s: Cluster, k: Slot, outcome: Outbox.Outcome, id: int)
    requires Enabled(s, Publish(k, outcome)) && Bounded(s)
    ensures |InFlight(Next(s, Publish(k, outcome)), id)|
         == |InFlight(s, id)| + if id == k.id && outcome.Accepted? then 1 else 0
  {
    var t := Next(s, Publish(k, outcome));
    CalledBounded(s.holds[k], k.id, s.clock, outcome);
    if id == k.id && outcome.Accepted? {
      Without(InFlight(t, id), InFlight(s, id), k);
    } else {
      SameMembers(InFlight(t, id), InFlight(s, id));
    }
  }

  /** A copy leaves the replica, recorded or dropped. */
  lemma Released(s: Cluster, t: Cluster, k: Slot, id: int)
    requires k in s.holds && t.holds == s.holds - {k}
    ensures |Tried(s, id)| == |Tried(t, id)| + if id == k.id && s.holds[k].tried then 1 else 0
    ensures |InFlight(s, id)| == |InFlight(t, id)| + if id == k.id && s.holds[k].Sent() then 1 else 0
  {
    if id == k.id && s.holds[k].tried {
      Without(Tried(s, id), Tried(t, id), k);
    } else {
      SameMembers(Tried(t, id), Tried(s, id));
    }
    if id == k.id && s.holds[k].Sent() {
      Without(InFlight(s, id), InFlight(t, id), k);
    } else {
      SameMembers(InFlight(t, id), InFlight(s, id));
    }
  }

  lemma RecordAccounted(s: Cluster, k: Slot, id: int)
    requires Enabled(s, Record(k)) && Bounded(s) && StepGuarded(s, Record(k)) && Accounted(s, id)
    ensures Accounted(Next(s, Record(k)), id)
  {
    Recorded(s, k);
    Released(s, Next(s, Record(k)), k, id);
  }

  lemma DropAccounted(s: Cluster, k: Slot, id: int)
    requires Enabled(s, Drop(k)) && Accounted(s, id)
    ensures Accounted(Next(s, Drop(k)), id)
  {
    Released(s, Next(s, Drop(k)), k, id);
  }

  lemma NextAccounted(s: Cluster, step: Step, id: int)
    requires Bounded(s) && StepGuarded(s, step) && Accounted(s, id)
    ensures Accounted(Next(s, step), id)
  {
    if Enabled(s, step) {
      match step
      case Tick(_) => SameHolds(s, Next(s, step), id);
      case Enqueue(_, _) => SameHolds(s, Next(s, step), id);
      case Claim(_, _, _) => ClaimAccounted(s, step, id);
      case Publish(k, outcome) => PublishAccounted(s, k, outcome, id);
      case Record(k) => RecordAccounted(s, k, id);
      case Drop(k) => DropAccounted(s, k, id);
    }
  }

  lemma SameHolds(s: Cluster, t: Cluster, id: int)
    requires t.holds == s.holds
    ensures |InFlight(t, id)| == |InFlight(s, id)| && |Tried(t, id)| == |Tried(s, id)|
  {
    SameMembers(InFlight(t, id), InFlight(s, id));
    SameMembers(Tried(t, id), Tried(s, id));
  }

  /** On a guarded run every call and every send of every row is accounted for. */
  lemma {:induction false} CallsAccounted(steps: seq<Step>, id: int)
    requires Guarded(steps)
    ensures Accounted(Reached(steps), id)
  {
    if steps == [] {
      assert InFlight(INITIAL, id) == {} && Tried(INITIAL, id) == {};
    } else {
      var n := |steps| - 1;
      GuardedPrefix(steps, n);
      CallsAccounted(steps[..n], id);
      AlwaysBounded(steps[..n]);
      assert StepGuarded(Reached(steps[..n]), steps[n]);
      NextAccounted(Reached(steps[..n]), steps[n], id);
    }
  }

  /** A row costs at most five calls and one more for each that died with its replica or is not recorded yet; it was
      sent once if it is published, and once more for each accepted call that died or is not recorded yet. */
  lemma CallsBounded(steps: seq<Step>, id: int)
    requires Guarded(steps) && id in Reached(steps).table
    ensures var s := Reached(steps);
      && CountIn(s.calls, id) <= 5 + |Tried(s, id)| + CountIn(s.dropped, id)
      && CountIn(s.sent, id) == (if s.table[id].publishedAt.Some? then 1 else 0) + |InFlight(s, id)|
        + CountIn(s.lost, id)
  {
    CallsAccounted(steps, id);
    AlwaysBounded(steps);
  }

  // ---------------------------------------------------------------- a run that is not guarded

  /** Replica `b` claims the row a lease later, is refused and records it. */
  function Round(n: nat, b: Replica, id: int): seq<Step> {
    var now := LEASE * n as real;
    [Tick(now), Claim(b, {id}, now), Publish(Slot(b, id), Outbox.Refused("", 0.0)), Record(Slot(b, id))]
  }

  function Rounds(n: nat, b: Replica, id: int): seq<Step> {
    if n == 0 then [] else Rounds(n - 1, b, id) + Round(n, b, id)
  }

  /** A row is enqueued and `a` claims it and stalls. */
  function Stalled(a: Replica, id: int): seq<Step> {
    [Enqueue(id, 0.0), Claim(a, {id}, 0.0)]
  }

  lemma {:induction false} ReachedOnward(steps: seq<Step>, more: seq<Step>)
    requires |more| > 0
    ensures Reached(steps + more) == Next(Reached(steps + more[..|more| - 1]), more[|more| - 1])
  {
    assert (steps + more)[..|steps + more| - 1] == steps + more[..|more| - 1];
  }

  lemma ReachedFour(steps: seq<Step>, p: Step, q: Step, r: Step, t: Step)
    ensures Reached(steps + [p, q, r, t]) == Next(Next(Next(Next(Reached(steps), p), q), r), t)
  {
    assert [p, q, r, t][..3] == [p, q, r] && [p, q, r][..2] == [p, q] && [p, q][..1] == [p] && [p][..0] == [];
    ReachedOnward(steps, [p, q, r, t]);
    ReachedOnward(steps, [p, q, r]);
    ReachedOnward(steps, [p, q]);
    ReachedOnward(steps, [p]);
    assert steps + [] == steps;
  }

  /** After `n` rounds: the stalled copy is untouched and the row has been refused `n` times. */
  ghost predicate Exhausting(s: Cluster, n: nat, a: Replica, id: int) {
    && s.clock == LEASE * n as real
    && s.holds == map[Slot(a, id) := Hold(Outbox.FreshRow(id, 0.0), 0.0, false)]
    && id in s.table && s.table[id].id == id && s.table[id].publishedAt.None? && s.table[id].attempts == n
    && (s.table[id].deadLettered <==> n == Outbox.MAX_ATTEMPTS)
    && (s.table[id].Pending() ==> s.table[id].Due(LEASE * (n + 1) as real))
  }

  lemma StalledReaches(a: Replica, id: int)
    ensures Exhausting(Reached(Stalled(a, id)), 0, a, id)
  {
    var steps := Stalled(a, id);
    assert steps[..1] == [steps[0]] && [steps[0]][..0] == [];
    assert Reached([]) == INITIAL;
    var s := Next(INITIAL, steps[0]);
    assert Reached(steps[..1]) == s;
    assert NewHolds(s.table, a, {id}, 0.0) == map[Slot(a, id) := Hold(Outbox.FreshRow(id, 0.0), 0.0, false)];
    assert s.holds + NewHolds(s.table, a, {id}, 0.0) == map[Slot(a, id) := Hold(Outbox.FreshRow(id, 0.0), 0.0, false)];
  }

  lemma ClaimOne(s: Cluster, b: Replica, id: int, now: Time)
    requires id in s.table && s.table[id].Due(now) && now <= s.clock && forall k :: k in s.holds ==> k.replica != b
    ensures var t := Next(s, Claim(b, {id}, now));
      && t == s.(table := t.table, holds := s.holds[Slot(b, id) := Hold(s.table[id], now, false)])
      && id in t.table && t.table[id] == s.table[id].(nextAttemptAt := Some(now + LEASE))
  {
    assert NewHolds(s.table, b, {id}, now) == map[Slot(b, id) := Hold(s.table[id], now, false)];
  }

  lemma PublishOne(s: Cluster, k: Slot, outcome: Outbox.Outcome)
    requires k in s.holds && !s.holds[k].tried
    ensures var t := Next(s, Publish(k, outcome));
      && t.clock == s.clock && t.table == s.table
      && t.holds == s.holds[k := Called(s.holds[k], outcome)]
  {}

  lemma RecordOne(s: Cluster, k: Slot)
    requires k in s.holds && s.holds[k].tried && s.holds[k].copy.id == k.id && k.id in s.table
    ensures var t := Next(s, Record(k));
      && t.clock == s.clock && t.holds == s.holds - {k}
      && k.id in t.table && t.table[k.id] == Written(s.table[k.id], s.holds[k].copy)
  {}

  lemma RoundExhausts(s: Cluster, n: nat, a: Replica, b: Replica, id: int)
    requires a != b && n < Outbox.MAX_ATTEMPTS && Exhausting(s, n, a, id)
    ensures Exhausting(RunRound(s, Round(n + 1, b, id)), n + 1, a, id)
  {
    RoundRuns(s, LEASE * (n + 1) as real, b, id);
    var r := Round(n + 1, b, id);
    OnceMore(s, RunRound(s, r), n, a, id);
  }

  lemma RoundRuns(s: Cluster, now: Time, b: Replica, id: int)
    requires id in s.table && s.table[id].id == id && s.table[id].Due(now) && s.clock <= now
    requires forall k :: k in s.holds ==> k.replica != b
    ensures var k := Slot(b, id);
      var t := Next(Next(Next(Next(s, Tick(now)), Claim(b, {id}, now)), Publish(k, Outbox.Refused("", 0.0))),
        Record(k));
      && t.clock == now && t.holds == s.holds && id in t.table
      && t.table[id] == Written(s.table[id].(nextAttemptAt := Some(now + LEASE)),
                                Outbox.PublishRow(s.table[id], now, Outbox.Refused("", 0.0)))
  {
    var s1 := Next(s, Tick(now));
    assert s1 == s.(clock := now);
    RoundRow(s1, b, id, now);
  }

  lemma OnceMore(s: Cluster, t: Cluster, n: nat, a: Replica, id: int)
    requires n < Outbox.MAX_ATTEMPTS && Exhausting(s, n, a, id)
    requires t.clock == LEASE * (n + 1) as real && t.holds == s.holds && id in t.table
    requires t.table[id] == Written(s.table[id].(nextAttemptAt := Some(t.clock + LEASE)),
                                    Outbox.PublishRow(s.table[id], t.clock, Outbox.Refused("", 0.0)))
    ensures Exhausting(t, n + 1, a, id)
  {
    RefusedRow(s.table[id], s.table[id].(nextAttemptAt := Some(t.clock + LEASE)), n, t.clock);
  }

  lemma RoundRow(s: Cluster, b: Replica, id: int, now: Time)
    requires id in s.table && s.table[id].id == id && s.table[id].Due(now) && now <= s.clock
    requires forall k :: k in s.holds ==> k.replica != b
    ensures var t := Next(Next(Next(s, Claim(b, {id}, now)), Publish(Slot(b, id), Outbox.Refused("", 0.0))),
      Record(Slot(b, id)));
      && t.clock == s.clock && t.holds == s.holds && id in t.table
      && t.table[id] == Written(s.table[id].(nextAttemptAt := Some(now + LEASE)),
                                Outbox.PublishRow(s.table[id], now, Outbox.Refused("", 0.0)))
  {
    ClaimOne(s, b, id, now);
    RefusedRound(Next(s, Claim(b, {id}, now)), Slot(b, id), s.holds);
  }

  /** A refusal at the start of a lease: the row is due by the next one unless it was the fifth. */
  lemma RefusedRow(copy: Outbox.Row, row: Outbox.Row, n: nat, now: Time)
    requires n < Outbox.MAX_ATTEMPTS && now == LEASE * (n + 1) as real && copy.attempts == n && copy.publishedAt.None?
    requires row == copy.(nextAttemptAt := Some(now + LEASE)) && !copy.deadLettered
    ensures var after := Written(row, Outbox.PublishRow(copy, now, Outbox.Refused("", 0.0)));
      && after.id == copy.id && after.publishedAt.None? && after.attempts == n + 1
      && (after.deadLettered <==> n + 1 == Outbox.MAX_ATTEMPTS)
      && (after.Pending() ==> after.Due(LEASE * (n + 2) as real))
  {
    if n + 1 < Outbox.MAX_ATTEMPTS { DelayWithinLease(n + 1, 0.0); }
  }

  /** A claimed copy is refused and recorded: the other holds stay, and the row is written from the copy. */
  lemma RefusedRound(s: Cluster, k: Slot, others: map<Slot, Hold>)
    requires k !in others && k in s.holds && s.holds == others[k := s.holds[k]] && !s.holds[k].tried
    requires k.id in s.table && s.holds[k].copy.id == k.id
    ensures var h := s.holds[k];
      var t := Next(Next(s, Publish(k, Outbox.Refused("", 0.0))), Record(k));
      && t.clock == s.clock && t.holds == others
      && k.id in t.table
      && t.table[k.id] == Written(s.table[k.id], Outbox.PublishRow(h.copy, h.now, Outbox.Refused("", 0.0)))
  {
    PublishOne(s, k, Outbox.Refused("", 0.0));
    var mid := Next(s, Publish(k, Outbox.Refused("", 0.0)));
    RecordOne(mid, k);
    assert mid.holds - {k} == others;
  }

  lemma {:induction false} RoundsExhaust(n: nat, a: Replica, b: Replica, id: int)
    requires a != b && n <= Outbox.MAX_ATTEMPTS
    ensures Exhausting(Reached(Stalled(a, id) + Rounds(n, b, id)), n, a, id)
  {
    if n == 0 {
      assert Stalled(a, id) + Rounds(0, b, id) == Stalled(a, id);
      StalledReaches(a, id);
    } else {
      RoundsExhaust(n - 1, a, b, id);
      var steps := Stalled(a, id) + Rounds(n - 1, b, id);
      RoundReached(steps, n, b, id);
      assert Stalled(a, id) + Rounds(n, b, id) == steps + Round(n, b, id);
      RoundExhausts(Reached(steps), n - 1, a, b, id);
    }
  }

  lemma RoundReached(steps: seq<Step>, n: nat, b: Replica, id: int)
    ensures Reached(steps + Round(n, b, id)) == RunRound(Reached(steps), Round(n, b, id))
  {
    var r := Round(n, b, id);
    assert r == [r[0], r[1], r[2], r[3]];
    ReachedFour(steps, r[0], r[1], r[2], r[3]);
  }

  ghost function RunRound(s: Cluster, r: seq<Step>): Cluster
    requires |r| == 4
  {
    Next(Next(Next(Next(s, r[0]), r[1]), r[2]), r[3])
  }

  /** `b` drains the row to the dead letters while `a` stalls with the copy it claimed first; then `a` publishes and
      records. */
  function Late(a: Replica, b: Replica, id: int, outcome: Outbox.Outcome): seq<Step> {
    Stalled(a, id) + Rounds(Outbox.MAX_ATTEMPTS, b, id) + [Publish(Slot(a, id), outcome), Record(Slot(a, id))]
  }

  /** `a` stalls with its copy, `b` claims the row a lease later, and both publish. */
  function Both(a: Replica, b: Replica, id: int): seq<Step> {
    Stalled(a, id) + [Tick(LEASE), Claim(b, {id}, LEASE), Publish(Slot(b, id), Outbox.Accepted),
                      Publish(Slot(a, id), Outbox.Accepted)]
  }

  /** A row sent twice though no replica died. */
  lemma SentTwice(a: Replica, b: Replica, id: int)
    requires a != b
    ensures var s := Reached(Both(a, b, id)); CountIn(s.sent, id) == 2 && CountIn(s.lost, id) == 0
  {
    var k, l := Slot(a, id), Slot(b, id);
    ReachedFour(Stalled(a, id), Tick(LEASE), Claim(b, {id}, LEASE), Publish(l, Outbox.Accepted),
                Publish(k, Outbox.Accepted));
    StalledReaches(a, id);
    NothingSent(a, id);
    var s := Next(Reached(Stalled(a, id)), Tick(LEASE));
    ClaimOne(s, b, id, LEASE);
    BothSend(Next(s, Claim(b, {id}, LEASE)), k, l);
  }

  lemma NothingSent(a: Replica, id: int)
    ensures Reached(Stalled(a, id)).sent == map[] && Reached(Stalled(a, id)).lost == map[]
  {
    var steps := Stalled(a, id);
    assert steps[..1] == [steps[0]] && [steps[0]][..0] == [];
    assert Reached([]) == INITIAL;
    assert Reached(steps[..1]) == Next(INITIAL, steps[0]);
  }

  lemma BothSend(s: Cluster, k: Slot, l: Slot)
    requires k != l && k.id == l.id && k in s.holds && l in s.holds && !s.holds[k].tried && !s.holds[l].tried
    ensures var t := Next(Next(s, Publish(l, Outbox.Accepted)), Publish(k, Outbox.Accepted));
      CountIn(t.sent, k.id) == CountIn(s.sent, k.id) + 2 && t.lost == s.lost
  {}

  /** What no lease prevents: the dead-lettered row is published as well, or it is pending again; and either way its
      five attempts are forgotten. */
  lemma LateRecord(a: Replica, b: Replica, id: int, outcome: Outbox.Outcome)
    requires a != b
    ensures var steps := Late(a, b, id, outcome);
      var before, after := Reached(steps[..|steps| - 2]).table, Reached(steps).table;
      && id in before && before[id].deadLettered && before[id].publishedAt.None?
        && before[id].attempts == 5
      && id in after && after[id].attempts == 1
      && (outcome.Accepted? ==> after[id].publishedAt.Some? && after[id].deadLettered)
      && (outcome.Refused? ==> after[id].Pending())
  {
    var steps, k := Late(a, b, id, outcome), Slot(a, id);
    var n := |steps| - 2;
    var base := Stalled(a, id) + Rounds(Outbox.MAX_ATTEMPTS, b, id);
    RoundsExhaust(Outbox.MAX_ATTEMPTS, a, b, id);
    assert steps[..n] == base && steps[..n + 1][..n] == base && steps[..n + 1][n] == Publish(k, outcome);
    var s := Reached(base);
    PublishOne(s, k, outcome);
    var s1 := Next(s, Publish(k, outcome));
    assert Reached(steps[..n + 1]) == s1;
    AlwaysBounded(steps[..n + 1]);
    RecordOne(s1, k);
    if outcome.Accepted? { RecordExclusiveIff(s1, k); } else { RecordRevivesIff(s1, k); }
  }
}
