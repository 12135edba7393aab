/** `messaging/bus/idempotent.py` and `messaging/kafka/subscriber.py`: at-least-once delivery made exactly-once. */
module Delivery {
  import opened Ordering
  import opened Catalog
  import opened Store
  import opened Ingest
  import opened Ledger

  /** What a consumer reads off a topic: an event, or one its handler ignores for want of an id or a title. */
  datatype Message = Valid(event: Event) | Malformed(malformedId: EventId)
  {
    function Id(): EventId {
      match this
      case Valid(e) => e.id
      case Malformed(id) => id
    }
  }

  /** One run of the handler. `fault` fails it before its commit; `lateFault` fails the wrapper's own mark after it. */
  datatype Attempt = Attempt(message: Message, now: Time, fault: bool, lateFault: bool)
  {
    function Id(): EventId { message.Id() }
  }

  /** The unguarded effect of a message. */
  function MessageEffect(s: StoreState, m: Message, now: Time): Option<StoreState> {
    match m
    case Valid(e) => Effect(s, e, now)
    case Malformed(id) => Some(s.(processed := s.processed + {id}))
  }

  /** Whether an attempt takes effect: the id is new, nothing fails before the commit and the handler accepts. */
  predicate TakesEffect(s: StoreState, a: Attempt) {
    && a.Id() !in s.processed
    && !a.fault
    && (a.message.Malformed? ==> !a.lateFault)
    && MessageEffect(s, a.message, a.now).Some?
  }

  function Step(s: StoreState, a: Attempt): StoreState {
    if TakesEffect(s, a) then MessageEffect(s, a.message, a.now).value else s
  }

  function OutcomeOf(s: StoreState, a: Attempt): Outcome {
    if a.Id() in s.processed || (TakesEffect(s, a) && !a.lateFault) then Done else Raised
  }

  /** `IdempotentHandler.__call__`: check, run the handler, then mark outside its transaction. */
  method Call(store: MemoryStore, a: Attempt) returns (outcome: Outcome)
    modifies store
    ensures store.View() == Step(old(store.View()), a)
    ensures outcome == OutcomeOf(old(store.View()), a)
  {
    if a.Id() in store.processed { return Done; }
    match a.message {
      case Valid(e) =>
        var handled := Execute(store, e, a.now, a.fault);
        if handled == Raised { return Raised; }
      case Malformed(id) =>
        if a.fault { return Raised; }
    }
    if a.lateFault { return Raised; }
    store.processed := store.processed + {a.Id()};
    assert a.message.Valid? ==> store.processed == old(store.processed) + {a.Id()};
    outcome := Done;
  }

  /** What an attempt leaves and returns: an id seen before is done already; a new one is done when its event is
      accepted and neither the handler nor the mark after it fails, and applied as soon as the handler did not. */
  lemma AttemptLeaves(s: StoreState, a: Attempt)
    ensures a.message.Valid? && a.Id() !in s.processed && !a.fault && Effect(s, a.message.event, a.now).Some? ==>
      Step(s, a) == Effect(s, a.message.event, a.now).value && a.Id() in Step(s, a).processed
    ensures a.Id() in s.processed || a.fault ==> Step(s, a) == s
    ensures a.message.Valid? && Effect(s, a.message.event, a.now).None? ==> Step(s, a) == s
    ensures a.message.Malformed? ==>
      Step(s, a) == if a.Id() in s.processed || a.fault || a.lateFault then s
                    else s.(processed := s.processed + {a.Id()})
    ensures OutcomeOf(s, a) == Done <==>
      || a.Id() in s.processed
      || (!a.fault && !a.lateFault && (a.message.Valid? ==> Effect(s, a.message.event, a.now).Some?))
  {
    if a.message.Valid? && Effect(s, a.message.event, a.now).Some? { EventFrame(s, a.message.event, a.now); }
  }

  // ---------------------------------------------------------------- the retry loop

  datatype Topic = Main | Retry
  datatype Target = ToRetry | ToDeadLetter
  /** `Escaped`: the send of the reroute raised, out of the consumer, before the offset was committed. */
  datatype Verdict = Ignored | Handled | Rerouted(target: Target) | Lost | Escaped

  /** Each attempt starts from what the one before it left. */
  function Run(s: StoreState, attempts: seq<Attempt>): StoreState {
    if attempts == [] then s else
    Step(Run(s, attempts[..|attempts| - 1]), attempts[|attempts| - 1])
  }

  lemma RunNext(s: StoreState, attempts: seq<Attempt>, i: nat)
    requires i < |attempts|
    ensures Run(s, attempts[..i + 1]) == Step(Run(s, attempts[..i]), attempts[i])
  {
    assert attempts[..i + 1][..i] == attempts[..i];
  }

  /** The first `n` attempts all raised. */
  ghost predicate RaisedFirst(s: StoreState, attempts: seq<Attempt>, n: nat)
    requires n <= |attempts|
  {
    forall j :: 0 <= j < n ==> OutcomeOf(Run(s, attempts[..j]), attempts[j]) == Raised
  }

  /** The retry loop: it stops at the first attempt that returns. */
  method TryEach(store: MemoryStore, attempts: seq<Attempt>) returns (done: bool, used: nat)
    modifies store
    ensures used <= |attempts| && store.View() == Run(old(store.View()), attempts[..used])
    ensures done ==> used > 0 && RaisedFirst(old(store.View()), attempts, used - 1)
    ensures done ==> OutcomeOf(Run(old(store.View()), attempts[..used - 1]), attempts[used - 1]) == Done
    ensures !done ==> used == |attempts| && RaisedFirst(old(store.View()), attempts, used)
  {
    ghost var s := store.View();
    for i := 0 to |attempts|
      invariant store.View() == Run(s, attempts[..i])
      invariant RaisedFirst(s, attempts, i)
    {
      RunNext(s, attempts, i);
      var outcome := Call(store, attempts[i]);
      if outcome == Done { return true, i + 1; }
    }
    done, used := false, |attempts|;
  }

  /** `_handle`: up to three attempts (`consumer_max_retries`), then the message moves on so the partition does not
      stall. */
  method HandleMessage(store: MemoryStore, registered: bool, connected: bool, sendFault: bool, topic: Topic,
                       attempts: seq<Attempt>)
    returns (verdict: Verdict, used: nat)
    requires |attempts| == 3 && attempts[1].message == attempts[0].message && attempts[2].message == attempts[0].message
    modifies store
    ensures used <= 3 && store.View() == Run(old(store.View()), attempts[..used])
    ensures verdict == Ignored <==> !registered
    ensures verdict == Ignored ==> used == 0
    ensures verdict == Handled ==> used > 0 && RaisedFirst(old(store.View()), attempts, used - 1)
    ensures verdict == Handled ==> OutcomeOf(Run(old(store.View()), attempts[..used - 1]), attempts[used - 1]) == Done
    ensures verdict.Rerouted? || verdict.Lost? || verdict.Escaped? ==>
      used == 3 && RaisedFirst(old(store.View()), attempts, 3)
    ensures verdict.Rerouted? ==>
      connected && !sendFault && verdict.target == if topic == Retry then ToDeadLetter else ToRetry
    ensures (verdict.Lost? ==> !connected) && (verdict.Escaped? ==> connected && sendFault)
  {
    if !registered { return Ignored, 0; }
    var done, tried := TryEach(store, attempts);
    used := tried;
    verdict := if done then Handled
               else if !connected then Lost
               else if sendFault then Escaped
               else Rerouted(if topic == Retry then ToDeadLetter else ToRetry);
  }

  /** A message that exhausts its retries leaves the store untouched, unless only the wrapper's own mark failed. */
  lemma {:induction false} PoisonLeavesNoTrace(s: StoreState, attempts: seq<Attempt>)
    requires forall i :: 0 <= i < |attempts| ==> !attempts[i].lateFault
    requires RaisedFirst(s, attempts, |attempts|)
    ensures Run(s, attempts) == s
  {
    if attempts != [] {
      var front := attempts[..|attempts| - 1];
      forall i | 0 <= i < |front| ensures OutcomeOf(Run(s, front[..i]), front[i]) == Raised {
        assert front[..i] == attempts[..i];
      }
      PoisonLeavesNoTrace(s, front);
    }
  }

  // ---------------------------------------------------------------- exactly once over whole runs

  lemma {:induction false} RunAppend(s: StoreState, xs: seq<Attempt>, ys: seq<Attempt>)
    ensures Run(s, xs + ys) == Run(Run(s, xs), ys)
    decreases |ys|
  {
    if ys == [] {
      assert xs + ys == xs;
    } else {
      var front := ys[..|ys| - 1];
      assert (xs + ys)[..|xs + ys| - 1] == xs + front;
      RunAppend(s, xs, front);
    }
  }

  lemma StepMarks(s: StoreState, a: Attempt)
    ensures Step(s, a).processed == if TakesEffect(s, a) then s.processed + {a.Id()} else s.processed
  {
    if TakesEffect(s, a) && a.message.Valid? {
      EventFrame(s, a.message.event, a.now);
    }
  }

  lemma {:induction false} ProcessedGrows(s: StoreState, attempts: seq<Attempt>)
    ensures s.processed <= Run(s, attempts).processed
  {
    if attempts != [] {
      var front := attempts[..|attempts| - 1];
      ProcessedGrows(s, front);
      StepMarks(Run(s, front), attempts[|attempts| - 1]);
    }
  }

  /** Once an attempt has taken effect, every later delivery of the same id, however the run continues,
      can be removed without changing the outcome of the whole run. */
  lemma DuplicateRemoved(s: StoreState, before: seq<Attempt>, a: Attempt, between: seq<Attempt>, b: Attempt,
                         after: seq<Attempt>)
    requires TakesEffect(Run(s, before), a) && b.Id() == a.Id()
    ensures Run(s, before + [a] + between + [b] + after) == Run(s, before + [a] + between + after)
  {
    var through := before + [a] + between;
    RunAppend(s, before, [a]);
    RunAppend(s, before + [a], between);
    assert [a][..0] == [];
    StepMarks(Run(s, before), a);
    ProcessedGrows(Run(s, before + [a]), between);
    assert b.Id() in Run(s, through).processed;
    NoEffectRemoved(s, through, b, after);
  }

  /** An attempt without effect, a failed one included, can be removed from any run. */
  lemma NoEffectRemoved(s: StoreState, before: seq<Attempt>, b: Attempt, after: seq<Attempt>)
    requires !TakesEffect(Run(s, before), b)
    ensures Run(s, before + [b] + after) == Run(s, before + after)
  {
    RunAppend(s, before, [b]);
    assert [b][..0] == [];
    RunAppend(s, before + [b], after);
    RunAppend(s, before, after);
  }

  /** The attempts of a run that took effect. */
  function Effective(s: StoreState, attempts: seq<Attempt>): seq<Attempt> {
    if attempts == [] then [] else
    var front, last := attempts[..|attempts| - 1], attempts[|attempts| - 1];
    Effective(s, front) + if TakesEffect(Run(s, front), last) then [last] else []
  }

  /** Applying messages one after another with no check for what was handled before. */
  function Replay(s: StoreState, attempts: seq<Attempt>): Option<StoreState> {
    if attempts == [] then Some(s) else
    var before :- Replay(s, attempts[..|attempts| - 1]);
    MessageEffect(before, attempts[|attempts| - 1].message, attempts[|attempts| - 1].now)
  }

  /** Exactly-once: whatever is redelivered, retried or refused, a run leaves the store that applying each
      effective message once, in order and unguarded, would leave; and no id is effective twice. */
  lemma {:induction false} ExactlyOnce(s: StoreState, attempts: seq<Attempt>)
    ensures Replay(s, Effective(s, attempts)) == Some(Run(s, attempts))
    ensures forall a :: a in Effective(s, attempts) ==> a.Id() !in s.processed && a.Id() in Run(s, attempts).processed
    ensures forall i, j :: 0 <= i < j < |Effective(s, attempts)| ==>
      Effective(s, attempts)[i].Id() != Effective(s, attempts)[j].Id()
  {
    if attempts != [] {
      var front, last := attempts[..|attempts| - 1], attempts[|attempts| - 1];
      ExactlyOnce(s, front);
      StepMarks(Run(s, front), last);
      ProcessedGrows(s, front);
      var effective := Effective(s, attempts);
      if TakesEffect(Run(s, front), last) {
        assert effective == Effective(s, front) + [last];
        assert effective[..|effective| - 1] == Effective(s, front) && effective[|effective| - 1] == last;
      } else {
        assert effective == Effective(s, front);
      }
    }
  }

  // ---------------------------------------------------------------- the ledger of a run

  function Recorded(s: StoreState, a: Attempt): seq<Entry> {
    if TakesEffect(s, a) && a.message.Valid? then Issued(s, a.message.event, a.now) else []
  }

  function LogOf(s: StoreState, attempts: seq<Attempt>): seq<Entry> {
    if attempts == [] then [] else
    var front := attempts[..|attempts| - 1];
    LogOf(s, front) + Recorded(Run(s, front), attempts[|attempts| - 1])
  }

  lemma StepLedgered(s: StoreState, log: seq<Entry>, a: Attempt)
    requires Ledgered(s, log)
    ensures Ledgered(Step(s, a), log + Recorded(s, a))
  {
    assert log + [] == log;
    if TakesEffect(s, a) {
      match a.message
      case Valid(e) => EventLedgered(s, log, e, a.now);
      case Malformed(id) => MarkLedgered(s, log, s.processed + {id});
    }
  }

  /** Conservation: after any run of deliveries the store agrees with the ledger of what was credited. */
  lemma {:induction false} RunLedgered(attempts: seq<Attempt>)
    ensures Ledgered(Run(EMPTY_STORE, attempts), LogOf(EMPTY_STORE, attempts))
  {
    if attempts == [] {
      EmptyLedgered();
    } else {
      var front := attempts[..|attempts| - 1];
      RunLedgered(front);
      StepLedgered(Run(EMPTY_STORE, front), LogOf(EMPTY_STORE, front), attempts[|attempts| - 1]);
    }
  }
}
