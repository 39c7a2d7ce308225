/** The audit emitter: a bounded queue, many producers, one worker, a stop signal and a sink that can
    fail. */
module Audit {
  import opened Seqs

  datatype Event = Event(screenId: string, txId: string, address: string, chain: string, amount: string,
                         decision: string, exposure: string, score: int, vendor: string, cacheHit: bool,
                         source: string, operator: string, createdAt: int)

  /** Go's zero time. */
  const ZERO_TIME := 0

  function Stamped(e: Event, now: int): Event {
    if e.createdAt == ZERO_TIME then e.(createdAt := now) else e
  }

  function QueueSize(requested: int): int {
    if requested <= 0 then 1024 else requested
  }

  datatype Worker = Waiting | Sending(event: Event) | Exited

  /** The emitter's fields and its worker's position, with the sink. */
  datatype State = State(capacity: int, queue: seq<Event>, drops: nat, emitted: nat, stopped: bool, worker: Worker,
                         sink: seq<Event>)

  datatype Step =
    | Emit(event: Event, now: int)   // a producer's attempt to enqueue
    | Take                           // the worker receives the oldest queued event
    | Deliver(ok: bool)              // the sink's answer
    | Stop                           // Close signals the worker
    | Exit                           // the worker notices the signal

  function Init(queueSize: int): State {
    State(QueueSize(queueSize), [], 0, 0, false, Waiting, [])
  }

  function Next(s: State, step: Step): State {
    match step
    case Emit(e, now) =>
      if |s.queue| < s.capacity then s.(queue := s.queue + [Stamped(e, now)]) else s.(drops := s.drops + 1)
    case Take =>
      if s.worker.Waiting? && s.queue != [] then s.(queue := s.queue[1..], worker := Sending(s.queue[0])) else s
    case Deliver(ok) =>
      if !s.worker.Sending? then s
      else if ok then s.(worker := Waiting, emitted := s.emitted + 1, sink := s.sink + [s.worker.event])
      else s.(worker := Waiting, drops := s.drops + 1)
    case Stop => s.(stopped := true)
    case Exit => if s.worker.Waiting? && s.stopped then s.(worker := Exited) else s
  }

  /** The state after the first k steps of a run. */
  ghost function At(s: State, run: seq<Step>, k: nat): State
    requires k <= |run|
  {
    if k == 0 then s else Next(At(s, run, k - 1), run[k - 1])
  }

  // -------------------------------------- what a run did, told without the state

  function EmitCalls(run: seq<Step>): nat {
    if run == [] then 0 else EmitCalls(run[..|run| - 1]) + if run[|run| - 1].Emit? then 1 else 0
  }

  /** Whether the k-th step enqueued its event. */
  ghost predicate Accepts(s: State, run: seq<Step>, k: nat)
    requires k < |run|
  {
    run[k].Emit? && |At(s, run, k).queue| < At(s, run, k).capacity
  }

  /** The accepted events of the first k steps, in order of acceptance. */
  ghost function Accepted(s: State, run: seq<Step>, k: nat): seq<Event>
    requires k <= |run|
  {
    if k == 0 then []
    else Accepted(s, run, k - 1) +
         if Accepts(s, run, k - 1) then [Stamped(run[k - 1].event, run[k - 1].now)] else []
  }

  /** The sink's answers in the first k steps, in order. */
  ghost function Answers(s: State, run: seq<Step>, k: nat): seq<bool>
    requires k <= |run|
  {
    if k == 0 then []
    else Answers(s, run, k - 1) +
         if run[k - 1].Deliver? && At(s, run, k - 1).worker.Sending? then [run[k - 1].ok] else []
  }

  /** The events whose answer was a success. */
  function Kept(events: seq<Event>, answers: seq<bool>): seq<Event>
    requires |answers| <= |events|
  {
    if answers == [] then []
    else
      var n := |answers| - 1;
      Kept(events, answers[..n]) + if answers[n] then [events[n]] else []
  }

  function Failures(answers: seq<bool>): nat {
    if answers == [] then 0 else Failures(answers[..|answers| - 1]) + if answers[|answers| - 1] then 0 else 1
  }

  function InFlight(w: Worker): seq<Event> {
    if w.Sending? then [w.event] else []
  }

  /** How a state accounts for a number of Emit calls, the events accepted and the answers given. */
  predicate Balanced(s: State, calls: nat, accepted: seq<Event>, answers: seq<bool>) {
    && |s.queue| <= s.capacity
    && |answers| + |InFlight(s.worker)| + |s.queue| == |accepted|
    && accepted[|answers|..] == InFlight(s.worker) + s.queue
    && s.sink == Kept(accepted, answers)
    && s.emitted == |s.sink| == |answers| - Failures(answers)
    && s.drops == calls - |accepted| + Failures(answers)
  }

  ghost predicate Conserved(s0: State, run: seq<Step>, k: nat)
    requires k <= |run|
  {
    At(s0, run, k).capacity == s0.capacity &&
    Balanced(At(s0, run, k), EmitCalls(run[..k]), Accepted(s0, run, k), Answers(s0, run, k))
  }

  lemma KeptExtends(events: seq<Event>, more: seq<Event>, answers: seq<bool>)
    requires |answers| <= |events|
    ensures Kept(events + more, answers) == Kept(events, answers)
  {
    if answers != [] {
      KeptExtends(events, more, answers[..|answers| - 1]);
    }
  }

  lemma {:induction false} RunStep(run: seq<Step>, k: nat)
    requires k < |run|
    ensures EmitCalls(run[..k + 1]) == EmitCalls(run[..k]) + if run[k].Emit? then 1 else 0
  {
    assert run[..k + 1][..k] == run[..k];
  }

  lemma EmitBalances(s: State, calls: nat, accepted: seq<Event>, answers: seq<bool>, e: Event, now: int)
    requires Balanced(s, calls, accepted, answers)
    ensures Balanced(Next(s, Emit(e, now)), calls + 1,
                     accepted + (if |s.queue| < s.capacity then [Stamped(e, now)] else []), answers)
  {
    KeptExtends(accepted, [Stamped(e, now)], answers);
    assert accepted + [] == accepted;
  }

  lemma TakeBalances(s: State, calls: nat, accepted: seq<Event>, answers: seq<bool>)
    requires Balanced(s, calls, accepted, answers)
    ensures Balanced(Next(s, Take), calls, accepted, answers)
  {
  }

  lemma DeliverBalances(s: State, calls: nat, accepted: seq<Event>, answers: seq<bool>, ok: bool)
    requires Balanced(s, calls, accepted, answers)
    ensures Balanced(Next(s, Deliver(ok)), calls, accepted, answers + if s.worker.Sending? then [ok] else [])
  {
    if s.worker.Sending? {
      var answers' := answers + [ok];
      assert answers'[..|answers|] == answers;
      assert accepted[|answers|] == accepted[|answers|..][0] == s.worker.event;
      assert accepted[|answers'|..] == accepted[|answers|..][1..] == s.queue;
    } else {
      assert answers + [] == answers;
    }
  }

  /** The part of AuditConserves that one step is responsible for. */
  lemma {:induction false} StepBalances(s: State, calls: nat, accepted: seq<Event>, answers: seq<bool>, step: Step)
    requires Balanced(s, calls, accepted, answers)
    ensures Next(s, step).capacity == s.capacity
    ensures Balanced(Next(s, step), calls + if step.Emit? then 1 else 0,
                     accepted + (if step.Emit? && |s.queue| < s.capacity then [Stamped(step.event, step.now)] else []),
                     answers + (if step.Deliver? && s.worker.Sending? then [step.ok] else []))
  {
    assert accepted + [] == accepted && answers + [] == answers;
    match step
    case Emit(e, now) => EmitBalances(s, calls, accepted, answers, e, now);
    case Take => TakeBalances(s, calls, accepted, answers);
    case Deliver(ok) => DeliverBalances(s, calls, accepted, answers, ok);
    case Stop =>
    case Exit =>
  }

  lemma {:induction false} ConservedStep(s0: State, run: seq<Step>, k: nat)
    requires k < |run| && Conserved(s0, run, k)
    ensures Conserved(s0, run, k + 1)
  {
    RunStep(run, k);
    StepBalances(At(s0, run, k), EmitCalls(run[..k]), Accepted(s0, run, k), Answers(s0, run, k), run[k]);
  }

  lemma {:induction false} ConservedFrom(s0: State, run: seq<Step>, k: nat)
    requires k <= |run| && Conserved(s0, run, 0)
    ensures Conserved(s0, run, k)
  {
    if k > 0 {
      ConservedFrom(s0, run, k - 1);
      ConservedStep(s0, run, k - 1);
    }
  }

  /** Under every interleaving of producers, worker and Close: the accepted events are, in order, those
      answered by the sink, the one in flight and those queued; the sink holds exactly the answered ones
      whose answer was a success; the queue never exceeds its capacity; and the counters account for
      every call. */
  lemma {:induction false} AuditConserves(queueSize: int, run: seq<Step>, k: nat)
    requires k <= |run|
    ensures Conserved(Init(queueSize), run, k)
  {
    ConservedFrom(Init(queueSize), run, k);
  }

  /** Every Emit call is emitted, dropped, queued or in flight -- each in exactly one way. */
  lemma {:induction false} EveryCallAccountedFor(queueSize: int, run: seq<Step>)
    ensures var s := At(Init(queueSize), run, |run|);
            && EmitCalls(run) == s.emitted + s.drops + |s.queue| + |InFlight(s.worker)|
            && |s.queue| <= s.capacity == if queueSize <= 0 then 1024 else queueSize
  {
    AuditConserves(queueSize, run, |run|);
    assert run[..|run|] == run;
  }

  /** Once the worker is gone nothing reaches the sink, and what is queued stays for ever. */
  lemma {:induction false} ExitIsFinal(s: State, run: seq<Step>, k: nat)
    requires k <= |run| && s.worker.Exited?
    ensures At(s, run, k).worker.Exited? && At(s, run, k).sink == s.sink && s.queue <= At(s, run, k).queue
  {
    if k > 0 { ExitIsFinal(s, run, k - 1); }
  }

  // ------------------------------------------------------- which events get through

  /** The events that producers offered, in order. */
  function Offered(run: seq<Step>): seq<Event> {
    if run == [] then []
    else
      var last := run[|run| - 1];
      Offered(run[..|run| - 1]) + if last.Emit? then [last.event] else []
  }

  function Ids(events: seq<Event>): seq<string> {
    seq(|events|, i requires 0 <= i < |events| => events[i].screenId)
  }

  lemma {:induction false} OfferedCounts(run: seq<Step>)
    ensures |Offered(run)| == EmitCalls(run)
  {
    if run != [] { OfferedCounts(run[..|run| - 1]); }
  }

  /** One more element at the end of both lists, or of the longer one only. */
  lemma DistinctExtends(xs: seq<string>, ys: seq<string>, x: string, both: bool)
    requires Distinct(ys + [x]) ==> Distinct(xs)
    requires forall y :: y in xs ==> y in ys
    ensures Distinct(ys + [x]) ==> Distinct(xs + if both then [x] else [])
    ensures forall y :: y in (xs + if both then [x] else []) ==> y in ys + [x]
  {
    if Distinct(ys + [x]) {
      forall i | 0 <= i < |xs| ensures xs[i] != x {
        assert xs[i] in ys;
        var j :| 0 <= j < |ys| && ys[j] == xs[i];
        assert (ys + [x])[j] == xs[i] && (ys + [x])[|ys|] == x;
      }
    }
  }

  lemma DistinctPrefix(ys: seq<string>, x: string)
    requires Distinct(ys + [x])
    ensures Distinct(ys)
  {
    assert forall i :: 0 <= i < |ys| ==> (ys + [x])[i] == ys[i];
  }

  /** The accepted events are among the offered ones, none of them twice. */
  lemma {:induction false} AcceptedWereOffered(s: State, run: seq<Step>, k: nat)
    requires k <= |run|
    ensures forall id :: id in Ids(Accepted(s, run, k)) ==> id in Ids(Offered(run[..k]))
    ensures Distinct(Ids(Offered(run[..k]))) ==> Distinct(Ids(Accepted(s, run, k)))
  {
    if k > 0 {
      AcceptedWereOffered(s, run, k - 1);
      assert run[..k][..k - 1] == run[..k - 1];
      if run[k - 1].Emit? {
        var xs, ys, id := Ids(Accepted(s, run, k - 1)), Ids(Offered(run[..k - 1])), run[k - 1].event.screenId;
        assert Ids(Offered(run[..k])) == ys + [id];
        assert Ids(Accepted(s, run, k)) == xs + if Accepts(s, run, k - 1) then [id] else [];
        if Distinct(ys + [id]) { DistinctPrefix(ys, id); }
        DistinctExtends(xs, ys, id, Accepts(s, run, k - 1));
      } else {
        assert Offered(run[..k]) == Offered(run[..k - 1]) && Accepted(s, run, k) == Accepted(s, run, k - 1);
      }
    }
  }

  /** The events kept are among those answered, none of them twice. */
  lemma {:induction false} KeptWereAccepted(events: seq<Event>, answers: seq<bool>)
    requires |answers| <= |events|
    ensures forall id :: id in Ids(Kept(events, answers)) ==> id in Ids(events[..|answers|])
    ensures Distinct(Ids(events[..|answers|])) ==> Distinct(Ids(Kept(events, answers)))
  {
    if answers != [] {
      var n := |answers| - 1;
      KeptWereAccepted(events, answers[..n]);
      var xs, ys, id := Ids(Kept(events, answers[..n])), Ids(events[..n]), events[n].screenId;
      assert Ids(events[..n + 1]) == ys + [id];
      assert Ids(Kept(events, answers)) == xs + if answers[n] then [id] else [];
      if Distinct(ys + [id]) { DistinctPrefix(ys, id); }
      DistinctExtends(xs, ys, id, answers[n]);
    }
  }

  lemma DistinctTake(xs: seq<string>, n: nat)
    requires n <= |xs|
    ensures forall x :: x in xs[..n] ==> x in xs
    ensures Distinct(xs) ==> Distinct(xs[..n])
  {
  }

  /** If no two offered events are about the same screen, the sink never holds two about the same one,
      and none that was not offered. */
  lemma {:induction false} SinkHoldsOffered(queueSize: int, run: seq<Step>)
    ensures var sink := At(Init(queueSize), run, |run|).sink;
            && (forall id :: id in Ids(sink) ==> id in Ids(Offered(run)))
            && (Distinct(Ids(Offered(run))) ==> Distinct(Ids(sink)))
  {
    var s0, n := Init(queueSize), |run|;
    AuditConserves(queueSize, run, n);
    assert run[..n] == run;
    AcceptedWereOffered(s0, run, n);
    var accepted, answers := Accepted(s0, run, n), Answers(s0, run, n);
    KeptWereAccepted(accepted, answers);
    assert Ids(accepted[..|answers|]) == Ids(accepted)[..|answers|];
    DistinctTake(Ids(accepted), |answers|);
  }

  // ------------------------------------------------------------ and what they say

  /** e is the offered event, with every field as it was, except that a zero time is replaced by the clock's. */
  predicate Carries(e: Event, offered: Event, now: int) {
    && e.screenId == offered.screenId && e.txId == offered.txId && e.address == offered.address
    && e.chain == offered.chain && e.amount == offered.amount && e.decision == offered.decision
    && e.exposure == offered.exposure && e.score == offered.score && e.vendor == offered.vendor
    && e.cacheHit == offered.cacheHit && e.source == offered.source && e.operator == offered.operator
    && e.createdAt == if offered.createdAt != 0 then offered.createdAt else now
  }

  /** The Emit calls among the first k steps that found room, in order. */
  ghost function AcceptingSteps(s: State, run: seq<Step>, k: nat): seq<nat>
    requires k <= |run|
  {
    if k == 0 then [] else AcceptingSteps(s, run, k - 1) + if Accepts(s, run, k - 1) then [k - 1] else []
  }

  /** The n-th accepted event is what the n-th accepting call offered. */
  lemma {:induction false} AcceptedAsOffered(s: State, run: seq<Step>, k: nat)
    requires k <= |run|
    ensures var (steps, events) := (AcceptingSteps(s, run, k), Accepted(s, run, k));
            && |steps| == |events|
            && (forall n :: 0 <= n < |steps| ==> steps[n] < k && Accepts(s, run, steps[n]) &&
                                                 Carries(events[n], run[steps[n]].event, run[steps[n]].now))
            && (forall m, n :: 0 <= m < n < |steps| ==> steps[m] < steps[n])
  {
    if k > 0 { AcceptedAsOffered(s, run, k - 1); }
  }

  /** Some Emit call of the run offered this event. */
  ghost predicate WasOffered(run: seq<Step>, e: Event) {
    exists i :: 0 <= i < |run| && run[i].Emit? && Carries(e, run[i].event, run[i].now)
  }

  lemma {:induction false} KeptMembers(events: seq<Event>, answers: seq<bool>)
    requires |answers| <= |events|
    ensures forall e :: e in Kept(events, answers) ==> e in events
  {
    if answers != [] { KeptMembers(events, answers[..|answers| - 1]); }
  }

  lemma {:induction false} AcceptedWasOffered(s: State, run: seq<Step>, e: Event)
    requires e in Accepted(s, run, |run|)
    ensures WasOffered(run, e)
  {
    AcceptedAsOffered(s, run, |run|);
    var events, steps := Accepted(s, run, |run|), AcceptingSteps(s, run, |run|);
    var n :| 0 <= n < |events| && events[n] == e;
    assert Carries(e, run[steps[n]].event, run[steps[n]].now);
  }

  /** All that a balanced state holds has been accepted. */
  lemma BalancedMembers(s: State, calls: nat, accepted: seq<Event>, answers: seq<bool>, e: Event)
    requires Balanced(s, calls, accepted, answers)
    requires e in s.queue || e in InFlight(s.worker) || e in s.sink
    ensures e in accepted
  {
    KeptMembers(accepted, answers);
    if e !in s.sink {
      assert e in InFlight(s.worker) + s.queue;
      assert e in accepted[|answers|..];
    }
  }

  /** Nothing is altered on the way: whatever is queued, being sent or in the sink says what some producer
      offered, field by field. */
  lemma {:induction false} EventsSayWhatWasOffered(queueSize: int, run: seq<Step>, e: Event)
    requires var s := At(Init(queueSize), run, |run|); e in s.queue || e in InFlight(s.worker) || e in s.sink
    ensures WasOffered(run, e)
  {
    var s0 := Init(queueSize);
    AuditConserves(queueSize, run, |run|);
    BalancedMembers(At(s0, run, |run|), EmitCalls(run[..|run|]), Accepted(s0, run, |run|), Answers(s0, run, |run|), e);
    AcceptedWasOffered(s0, run, e);
  }

  // ----------------------------------------------------------- what Close leaves behind

  /** Every event accepted by the end of the run has had its answer from the sink. */
  ghost predicate Drained(s: State, run: seq<Step>) {
    |Answers(s, run, |run|)| == |Accepted(s, run, |run|)|
  }

  predicate NoEmits(run: seq<Step>) {
    forall k :: 0 <= k < |run| ==> !run[k].Emit?
  }

  /** The worker's exit, seen from the start of the run and the steps after a call of Close: by then,
      every event accepted at any time has had its answer. */
  ghost predicate DrainsOnExit(s0: State, run: seq<Step>, more: seq<Step>) {
    At(s0, run + more, |run + more|).worker.Exited? ==> Drained(s0, run + more)
  }

  lemma {:induction false} AtPrefix(s: State, run: seq<Step>, more: seq<Step>, k: nat)
    requires k <= |run|
    ensures At(s, run + more, k) == At(s, run, k)
  {
    if k > 0 { AtPrefix(s, run, more, k - 1); }
  }

  lemma {:induction false} AtJoins(s: State, run: seq<Step>, more: seq<Step>, k: nat)
    requires k <= |more|
    ensures At(s, run + more, |run| + k) == At(At(s, run, |run|), more, k)
  {
    if k > 0 {
      AtJoins(s, run, more, k - 1);
    } else {
      AtPrefix(s, run, more, |run|);
    }
  }

  /** At the worker's exit, the accepted events are answered exactly when none is left in the queue. */
  lemma {:induction false} DrainedAtExit(queueSize: int, run: seq<Step>)
    requires At(Init(queueSize), run, |run|).worker.Exited?
    ensures Drained(Init(queueSize), run) <==> At(Init(queueSize), run, |run|).queue == []
  {
    AuditConserves(queueSize, run, |run|);
  }

  lemma {:induction false} EmptyStaysEmpty(s: State, more: seq<Step>, k: nat)
    requires k <= |more| && NoEmits(more) && s.queue == []
    ensures At(s, more, k).queue == []
  {
    if k > 0 { EmptyStaysEmpty(s, more, k - 1); }
  }

  /** The worker finishes what it is sending, if anything, and takes the signal at the next select. */
  function QuickExit(s: State): seq<Step> {
    if s.worker.Sending? then [Deliver(true), Stop, Exit] else [Stop, Exit]
  }

  lemma {:induction false} QuickExitLeaves(s: State)
    requires !s.worker.Exited?
    ensures NoEmits(QuickExit(s))
    ensures var s' := At(s, QuickExit(s), |QuickExit(s)|); s'.worker.Exited? && s'.queue == s.queue
  {
    var run := QuickExit(s);
    var s1 := At(s, run, 1);
    assert s1 == Next(At(s, run, 0), run[0]);
    var s2 := At(s, run, 2);
    assert s2 == Next(s1, run[1]);
    if s.worker.Sending? { assert At(s, run, 3) == Next(s2, run[2]); }
  }

  /** No continuation without producers in which the worker exits loses an accepted event. */
  ghost predicate ClosesSafely(s0: State, run: seq<Step>) {
    forall more :: NoEmits(more) ==> DrainsOnExit(s0, run, more)
  }

  lemma {:induction false} EmptyQueueDrains(queueSize: int, run: seq<Step>, more: seq<Step>)
    requires At(Init(queueSize), run, |run|).queue == [] && NoEmits(more)
    ensures DrainsOnExit(Init(queueSize), run, more)
  {
    var s0 := Init(queueSize);
    AtJoins(s0, run, more, |more|);
    EmptyStaysEmpty(At(s0, run, |run|), more, |more|);
    if At(s0, run + more, |run + more|).worker.Exited? { DrainedAtExit(queueSize, run + more); }
  }

  lemma {:induction false} QuickExitLoses(queueSize: int, run: seq<Step>)
    requires !At(Init(queueSize), run, |run|).worker.Exited? && At(Init(queueSize), run, |run|).queue != []
    ensures var more := QuickExit(At(Init(queueSize), run, |run|));
            && NoEmits(more) && At(Init(queueSize), run + more, |run + more|).worker.Exited?
            && !Drained(Init(queueSize), run + more)
  {
    var s0 := Init(queueSize);
    var more := QuickExit(At(s0, run, |run|));
    QuickExitLeaves(At(s0, run, |run|));
    AtJoins(s0, run, more, |more|);
    DrainedAtExit(queueSize, run + more);
  }

  /** Suppose no producer emits any more from the moment Close is called on. Then no accepted event is lost,
      however worker and signal interleave, exactly when the queue was empty at that moment; an event that
      the worker is sending then does no harm. */
  lemma {:induction false} CloseDrainsExactlyIfEmpty(queueSize: int, run: seq<Step>)
    requires !At(Init(queueSize), run, |run|).worker.Exited?
    ensures ClosesSafely(Init(queueSize), run) <==> At(Init(queueSize), run, |run|).queue == []
  {
    if At(Init(queueSize), run, |run|).queue == [] {
      forall more | NoEmits(more) ensures DrainsOnExit(Init(queueSize), run, more) {
        EmptyQueueDrains(queueSize, run, more);
      }
    } else {
      QuickExitLoses(queueSize, run);
    }
  }

  lemma {:induction false} EmitFills(queueSize: int, run: seq<Step>, e: Event, now: int)
    requires !At(Init(queueSize), run, |run|).worker.Exited?
    ensures var full := run + [Emit(e, now)];
            var s := At(Init(queueSize), full, |full|);
            !s.worker.Exited? && s.queue != []
  {
    var s := At(Init(queueSize), run, |run|);
    AuditConserves(queueSize, run, |run|);
    AtJoins(Init(queueSize), run, [Emit(e, now)], 1);
    assert At(s, [Emit(e, now)], 1) == Next(At(s, [Emit(e, now)], 0), Emit(e, now));
  }

  /** With producers still at work nothing helps: from every state in which the worker runs, whatever the
      queue holds, some continuation ends with an event that Emit accepted and the sink never saw. */
  lemma {:induction false} CloseLosesUnderProducers(queueSize: int, run: seq<Step>, e: Event, now: int)
    returns (more: seq<Step>)
    requires !At(Init(queueSize), run, |run|).worker.Exited?
    ensures At(Init(queueSize), run + more, |run + more|).worker.Exited?
    ensures !Drained(Init(queueSize), run + more)
  {
    var s0 := Init(queueSize);
    var full := run + [Emit(e, now)];
    EmitFills(queueSize, run, e, now);
    more := [Emit(e, now)] + QuickExit(At(s0, full, |full|));
    QuickExitLoses(queueSize, full);
    assert full + QuickExit(At(s0, full, |full|)) == run + more;
  }

  /** The shortest case, from an emitter with an empty queue: Emit accepts an event, and Close loses it. */
  lemma CloseCanLose(queueSize: int, e: Event, now: int)
    ensures var run := [Emit(e, now), Stop, Exit];
            && At(Init(queueSize), run, 3).worker.Exited?
            && Accepted(Init(queueSize), run, 3) == [Stamped(e, now)]
            && !Drained(Init(queueSize), run)
  {
    var run := [Emit(e, now), Stop, Exit];
    var s := Init(queueSize);
    var s1 := At(s, run, 1);
    assert s1 == Next(At(s, run, 0), run[0]);
    assert s1.queue == [Stamped(e, now)];
    assert Accepted(s, run, 0) == [] && Accepts(s, run, 0);
    assert Accepted(s, run, 1) == [Stamped(e, now)];
    assert At(s, run, 2) == Next(s1, run[1]);
    assert Accepted(s, run, 2) == [Stamped(e, now)];
    assert At(s, run, 3) == Next(At(s, run, 2), run[2]);
    AuditConserves(queueSize, run, 3);
  }

  // ------------------------------------------------------------------ classes

  class MemorySink {
    var mem: seq<Event>
    var fail: bool

    constructor ()
      ensures mem == [] && !fail
    {
      mem, fail := [], false;
    }

    method Emit(e: Event) returns (ok: bool)
      modifies this`mem
      ensures ok == !fail
      ensures mem == old(mem) + if ok then [e] else []
    {
      if fail { return false; }
      mem := mem + [e];
      ok := true;
    }
  }

  class Emitter {
    const sink: MemorySink
    const capacity: int
    var queue: seq<Event>
    var drops: nat
    var emitted: nat
    var stopped: bool
    var worker: Worker
    ghost var calls: seq<Event>

    function Value(): State
      reads this, sink
    {
      State(capacity, queue, drops, emitted, stopped, worker, sink.mem)
    }

    /** Every call so far is emitted, dropped, queued or in flight. */
    ghost predicate Valid()
      reads this
    {
      && |queue| <= capacity
      && |calls| == emitted + drops + |queue| + |InFlight(worker)|
    }

    constructor (sink: MemorySink, queueSize: int)
      requires sink.mem == []
      ensures Valid() && this.sink == sink && Value() == Init(queueSize) && calls == []
    {
      this.sink := sink;
      capacity := if queueSize <= 0 then 1024 else queueSize;
      queue, drops, emitted, stopped, worker, calls := [], 0, 0, false, Waiting, [];
    }

    /** Emit: enqueue or drop, without waiting. */
    method Emit(ev: Event, now: int) returns (ok: bool)
      requires Valid()
      modifies this
      ensures Valid()
      ensures Value() == Next(old(Value()), Step.Emit(ev, now))
      ensures ok <==> |old(queue)| < capacity
      ensures calls == old(calls) + [ev]
    {
      calls := calls + [ev];
      var e := ev;
      if e.createdAt == ZERO_TIME {
        e := e.(createdAt := now);
      }
      if |queue| < capacity {
        queue := queue + [e];
        ok := true;
      } else {
        drops := drops + 1;
        ok := false;
      }
    }

    /** One turn of the worker's loop, on whichever ready case the select picks. */
    method WorkerTurn(preferStop: bool)
      requires Valid() && worker.Waiting? && (queue != [] || stopped)
      modifies this, sink
      ensures Valid()
      ensures calls == old(calls)
      ensures Value() == if (preferStop && old(stopped)) || old(queue) == [] then Next(old(Value()), Exit)
                         else Next(Next(old(Value()), Take), Deliver(!old(sink.fail)))
    {
      if (preferStop && stopped) || queue == [] {
        worker := Exited;
        return;
      }
      var ev := queue[0];
      queue := queue[1..];
      var ok := sink.Emit(ev);
      if !ok {
        drops := drops + 1;
      } else {
        emitted := emitted + 1;
      }
    }

    method SignalStop()
      requires Valid()
      modifies this`stopped
      ensures Valid()
      ensures Value() == Next(old(Value()), Stop)
    {
      stopped := true;
    }
  }
}
