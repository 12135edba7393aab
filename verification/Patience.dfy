/** How long many replicas together keep trying before a row is given up. */
module Patience {
  import opened Ordering
  import opened Catalog
  import Outbox
  import opened Relay
  import opened Guards

  /** When the recorded attempts of a row were polled for, in order. */
  ghost function PolledAt(steps: seq<Step>, id: int): seq<Time> {
    if steps == [] then [] else
    var front, last := steps[..|steps| - 1], steps[|steps| - 1];
    PolledAt(front, id)
    + if last.Record? && last.slot.id == id && Enabled(Reached(front), last)
      then [Reached(front).holds[last.slot].now] else []
  }

  /** A moment by which the next attempt may begin. */
  predicate Rested(at: Time, times: seq<Time>) {
    times != [] ==> at >= times[|times| - 1] + Outbox.Backoff(|times|)
  }

  /** Attempts are at least the backoff apart, the next one is not due before it has passed, and five come before the
      dead letters. */
  ghost predicate RowPaced(r: Outbox.Row, times: seq<Time>) {
    && |times| == r.attempts
    && (forall k :: 0 < k < |times| ==> times[k] >= times[k - 1] + Outbox.Backoff(k))
    && (r.Pending() && times != [] ==> r.nextAttemptAt.Some? && Rested(r.nextAttemptAt.value, times))
    && (r.deadLettered ==> r.attempts == Outbox.MAX_ATTEMPTS)
  }

  /** The attempts a copy had when it was claimed. */
  function Base(h: Hold): int {
    if h.tried then h.copy.attempts - 1 else h.copy.attempts
  }

  /** A copy is not ahead of its row, it was claimed after the row's rest, and a refusal asks for the next one. */
  ghost predicate HoldPaced(r: Outbox.Row, h: Hold, times: seq<Time>) {
    && Base(h) <= r.attempts
    && (Base(h) == r.attempts ==> Rested(h.now, times))
    && (h.tried && h.copy.Pending() ==>
          h.copy.nextAttemptAt.Some? && h.copy.nextAttemptAt.value >= h.now + Outbox.Backoff(h.copy.attempts))
  }

  ghost predicate Paced(s: Cluster, id: int, times: seq<Time>) {
    && (id !in s.table ==> times == [])
    && (id in s.table ==> RowPaced(s.table[id], times))
    && (forall k :: k in s.holds && k.id == id && id in s.table ==> HoldPaced(s.table[id], s.holds[k], times))
  }

  lemma CallPaced(r: Outbox.Row, h: Hold, times: seq<Time>, outcome: Outbox.Outcome)
    requires HoldPaced(r, h, times) && !h.tried && h.copy.Pending()
    ensures HoldPaced(r, Called(h, outcome), times)
  {
    if outcome.Refused? { Outbox.DelayAtLeast(h.copy.attempts + 1, outcome.random); }
  }

  lemma ClaimPaced(s: Cluster, step: Step, id: int, times: seq<Time>)
    requires step.Claim? && Enabled(s, step) && Paced(s, id, times)
    ensures Paced(Next(s, step), id, times)
  {
    var t := Next(s, step);
    var added := NewHolds(s.table, step.replica, step.ids, step.now);
    forall k | k in t.holds && k.id == id && id in t.table ensures HoldPaced(t.table[id], t.holds[k], times) {
      if k in added { assert k !in s.holds; }
    }
  }

  lemma RecordPaced(s: Cluster, k: Slot, times: seq<Time>)
    requires Bounded(s) && Enabled(s, Record(k)) && Paced(s, k.id, times)
    requires Guard(s.table[k.id], s.holds[k].copy)
    ensures Paced(Next(s, Record(k)), k.id, times + [s.holds[k].now])
  {
    Recorded(s, k);
    WrittenPaced(s.table[k.id], s.holds[k], k.id, s.clock, times);
  }

  lemma WrittenPaced(r: Outbox.Row, h: Hold, id: int, clock: Time, times: seq<Time>)
    requires RowPaced(r, times) && HoldPaced(r, h, times) && HoldBounded(h, id, clock) && h.tried && Guard(r, h.copy)
    ensures RowPaced(Written(r, h.copy), times + [h.now])
  {}

  lemma NextPaced(s: Cluster, step: Step, id: int, times: seq<Time>)
    requires Bounded(s) && StepGuarded(s, step) && Paced(s, id, times)
    ensures Paced(Next(s, step), id,
      times + if step.Record? && step.slot.id == id && Enabled(s, step) then [s.holds[step.slot].now] else [])
  {
    assert times + [] == times;
    if Enabled(s, step) {
      match step
      case Tick(_) =>
      case Enqueue(_, _) =>
      case Claim(_, _, _) => ClaimPaced(s, step, id, times);
      case Publish(k, outcome) => if k.id == id { CallPaced(s.table[id], s.holds[k], times, outcome); }
      case Record(k) => if k.id == id { RecordPaced(s, k, times); } else { Recorded(s, k); }
      case Drop(_) =>
    }
  }

  lemma {:induction false} AlwaysPaced(steps: seq<Step>, id: int)
    requires Guarded(steps)
    ensures Paced(Reached(steps), id, PolledAt(steps, id))
  {
    if steps != [] {
      var n := |steps| - 1;
      GuardedPrefix(steps, n);
      AlwaysPaced(steps[..n], id);
      AlwaysBounded(steps[..n]);
      assert StepGuarded(Reached(steps[..n]), steps[n]);
      NextPaced(Reached(steps[..n]), steps[n], id, PolledAt(steps[..n], id));
    }
  }

  /** With any number of replicas, on a run in which every record finds its row as it was claimed, a row is
      dead-lettered only after five recorded attempts whose polls spread over at least 7.5 seconds. */
  lemma DeadLetterPatience(steps: seq<Step>, id: int)
    requires Guarded(steps) && id in Reached(steps).table && Reached(steps).table[id].deadLettered
    ensures |PolledAt(steps, id)| == 5 && PolledAt(steps, id)[4] >= PolledAt(steps, id)[0] + 7.5
  {
    AlwaysPaced(steps, id);
    SpreadOut(PolledAt(steps, id));
  }

  lemma SpreadOut(t: seq<Time>)
    requires |t| == Outbox.MAX_ATTEMPTS && forall k :: 0 < k < |t| ==> t[k] >= t[k - 1] + Outbox.Backoff(k)
    ensures t[Outbox.MAX_ATTEMPTS - 1] >= t[0] + 7.5
  {
    assert Outbox.Backoff(1) == 0.5 && Outbox.Backoff(2) == 1.0 && Outbox.Backoff(3) == 2.0 && Outbox.Backoff(4) == 4.0;
    assert t[1] >= t[0] + Outbox.Backoff(1) && t[2] >= t[1] + Outbox.Backoff(2);
    assert t[3] >= t[2] + Outbox.Backoff(3) && t[4] >= t[3] + Outbox.Backoff(4);
  }
}
