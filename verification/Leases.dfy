/** Runs in which every replica acts within its own leases. */
module Leases {
  import opened Ordering
  import opened Catalog
  import Outbox
  import opened Relay
  import opened Guards

  /** A replica publishes and records only while its own lease on the row lasts. */
  predicate InLease(s: Cluster, step: Step) {
    match step
    case Publish(k, _) => s.Live(k)
    case Record(k) => s.Live(k)
    case _ => true
  }

  ghost predicate Disciplined(steps: seq<Step>) {
    forall i :: 0 <= i < |steps| ==> Enabled(Reached(steps[..i]), steps[i]) ==> InLease(Reached(steps[..i]), steps[i])
  }

  /** The row under a live hold is the one that was claimed: pending, leased to this holder, attempts unmoved. */
  predicate Agrees(row: Outbox.Row, h: Hold) {
    && row.Pending()
    && row.nextAttemptAt == Some(h.now + LEASE)
    && h.copy.attempts == row.attempts + if h.tried then 1 else 0
  }

  ghost predicate LiveAgree(s: Cluster) {
    forall k :: s.Live(k) ==> k.id in s.table && Agrees(s.table[k.id], s.holds[k])
  }

  ghost predicate OneLiveHolder(s: Cluster) {
    forall k, l :: s.Live(k) && s.Live(l) && k.id == l.id ==> k == l
  }

  ghost predicate Leases(s: Cluster) {
    Bounded(s) && LiveAgree(s) && OneLiveHolder(s)
  }

  lemma ClaimLeases(s: Cluster, step: Step)
    requires step.Claim? && Enabled(s, step) && Leases(s)
    ensures var t := Next(s, step); LiveAgree(t) && OneLiveHolder(t)
  {
    var t := Next(s, step);
    var added := NewHolds(s.table, step.replica, step.ids, step.now);
    forall k | k in s.holds ensures t.holds[k] == s.holds[k] {
      assert k !in added;
    }
    forall k | t.Live(k) ensures Agrees(t.table[k.id], t.holds[k]) {
      if k !in added { StillLeased(s, step, k); }
    }
    forall k, l | t.Live(k) && t.Live(l) && k.id == l.id ensures k == l {
      if k !in added { StillLeased(s, step, k); }
      if l !in added { StillLeased(s, step, l); }
    }
  }

  /** A row somebody holds in lease is not due, so nobody else can claim it. */
  lemma StillLeased(s: Cluster, step: Step, k: Slot)
    requires step.Claim? && Enabled(s, step) && LiveAgree(s) && s.Live(k)
    ensures k.id !in step.ids
  {}

  lemma RecordLeases(s: Cluster, k: Slot)
    requires Enabled(s, Record(k)) && s.Live(k) && Leases(s)
    ensures var t := Next(s, Record(k)); LiveAgree(t) && OneLiveHolder(t)
  {
    var t := Next(s, Record(k));
    assert s.holds[k].copy.id == k.id;
    forall l | t.Live(l) ensures l.id in t.table && Agrees(t.table[l.id], t.holds[l]) {
      assert s.Live(l) && l != k;
      assert l.id != k.id;
    }
  }

  lemma PublishLeases(s: Cluster, k: Slot, outcome: Outbox.Outcome)
    requires Enabled(s, Publish(k, outcome)) && s.Live(k) && Leases(s)
    ensures var t := Next(s, Publish(k, outcome)); LiveAgree(t) && OneLiveHolder(t)
  {
    var t := Next(s, Publish(k, outcome));
    forall l | t.Live(l) ensures l.id in t.table && Agrees(t.table[l.id], t.holds[l]) {
      assert s.Live(l);
    }
    forall l, m | t.Live(l) && t.Live(m) && l.id == m.id ensures l == m {
      assert s.Live(l) && s.Live(m);
    }
  }

  lemma OtherLeases(s: Cluster, step: Step)
    requires (step.Tick? || step.Enqueue? || step.Drop?) && Enabled(s, step)
    requires Leases(s)
    ensures var t := Next(s, step); LiveAgree(t) && OneLiveHolder(t)
  {
    var t := Next(s, step);
    assert forall k :: t.Live(k) ==> s.Live(k) && t.holds[k] == s.holds[k];
  }

  lemma NextLeases(s: Cluster, step: Step)
    requires Leases(s) && (Enabled(s, step) ==> InLease(s, step))
    ensures Leases(Next(s, step)) && StepGuarded(s, step)
  {
    NextBounded(s, step);
    if Enabled(s, step) {
      match step
      case Tick(_) => OtherLeases(s, step);
      case Enqueue(_, _) => OtherLeases(s, step);
      case Claim(_, _, _) => ClaimLeases(s, step);
      case Publish(k, outcome) => PublishLeases(s, k, outcome);
      case Record(k) =>
        RecordLeases(s, k);
        assert Agrees(s.table[k.id], s.holds[k]);
      case Drop(_) => OtherLeases(s, step);
    }
  }

  lemma DisciplinedPrefix(steps: seq<Step>)
    requires Disciplined(steps) && steps != []
    ensures Disciplined(steps[..|steps| - 1])
  {
    var front := steps[..|steps| - 1];
    forall i | 0 <= i < |front|
      ensures Enabled(Reached(front[..i]), front[i]) ==> InLease(Reached(front[..i]), front[i])
    {
      assert front[..i] == steps[..i];
    }
  }

  /** Within the leases, for any number of replicas and any interleaving: one live holder a row, whose copy is
      current. */
  lemma {:induction false} AlwaysLeased(steps: seq<Step>)
    requires Disciplined(steps)
    ensures Leases(Reached(steps))
  {
    if steps != [] {
      DisciplinedPrefix(steps);
      AlwaysLeased(steps[..|steps| - 1]);
      NextLeases(Reached(steps[..|steps| - 1]), steps[|steps| - 1]);
    }
  }

  /** So every record finds its row as it was claimed, and the run is clean: a lease does what the comparison would. */
  lemma DisciplinedIsClean(steps: seq<Step>)
    requires Disciplined(steps)
    ensures Guarded(steps) && AllClean(steps)
  {
    forall i | 0 <= i < |steps| ensures StepGuarded(Reached(steps[..i]), steps[i]) {
      DisciplinedUpTo(steps, i);
      AlwaysLeased(steps[..i]);
      NextLeases(Reached(steps[..i]), steps[i]);
    }
    CleanIffGuarded(steps);
  }

  lemma DisciplinedUpTo(steps: seq<Step>, n: nat)
    requires Disciplined(steps) && n <= |steps|
    ensures Disciplined(steps[..n])
  {
    forall i | 0 <= i < n
      ensures Enabled(Reached(steps[..n][..i]), steps[..n][i]) ==> InLease(Reached(steps[..n][..i]), steps[..n][i])
    {
      assert steps[..n][..i] == steps[..i];
    }
  }

  /** Within the leases, for every row: published and dead-lettered are exclusive, a settled row is never written again,
      and every call and send is accounted for. */
  lemma LeasedRows(steps: seq<Step>, n: nat, id: int)
    requires Disciplined(steps) && n <= |steps| && id in Reached(steps[..n]).table
    ensures id in Reached(steps).table && Exclusive(Reached(steps).table[id]) && Accounted(Reached(steps), id)
    ensures !Reached(steps[..n]).table[id].Pending() ==> Reached(steps).table[id] == Reached(steps[..n]).table[id]
  {
    DisciplinedIsClean(steps);
    NothingLost(steps, n, id);
    GuardedExclusive(steps);
    CallsAccounted(steps, id);
    if !Reached(steps[..n]).table[id].Pending() { SettledForever(steps, n, id); }
  }

  /** The accepted sends that outlived their lease without being recorded. */
  ghost function Stale(s: Cluster, id: int): set<Slot> {
    set k | k in InFlight(s, id) && !s.Live(k)
  }

  ghost predicate Recording(s: Cluster, id: int) {
    exists k :: k in InFlight(s, id) && s.Live(k)
  }

  /** Within the leases a row is sent once when it is published or about to be, and again exactly once for each accepted
      send whose lease ran out, or whose replica died, before it was recorded. */
  lemma SendsExplained(steps: seq<Step>, id: int)
    requires Disciplined(steps) && id in Reached(steps).table
    ensures var s := Reached(steps);
      CountIn(s.sent, id) == (if s.table[id].publishedAt.Some? || Recording(s, id) then 1 else 0)
                             + |Stale(s, id)| + CountIn(s.lost, id)
  {
    assert steps[..|steps|] == steps;
    LeasedRows(steps, |steps|, id);
    AlwaysLeased(steps);
    OneRecording(Reached(steps), id);
  }

  lemma OneRecording(s: Cluster, id: int)
    requires Leases(s) && id in s.table
    ensures |InFlight(s, id)| == |Stale(s, id)| + if Recording(s, id) then 1 else 0
    ensures Recording(s, id) ==> s.table[id].Pending()
  {
    if Recording(s, id) {
      var k :| k in InFlight(s, id) && s.Live(k);
      assert Agrees(s.table[k.id], s.holds[k]);
      Without(InFlight(s, id), Stale(s, id), k);
    } else {
      SameMembers(InFlight(s, id), Stale(s, id));
    }
  }
}
