/**
  What the composed protocol guarantees after every schedule of the two
  processes, of time and of cancellation requests.
*/
module WireGuarantees {
  import opened Wrappers
  import opened WireProtocol
  import opened WireSystem

  /** The invariant holds after every schedule. */
  lemma {:induction false} RunKeeps(s: System, schedule: seq<Action>)
    requires Inv(s)
    ensures Inv(Run(s, schedule))
    decreases |schedule|
  {
    hide Inv, Step;
    if schedule != [] {
      RunKeeps(s, Rest(schedule));
      StepKeeps(Run(s, Rest(schedule)), Last(schedule));
    }
  }

  /** The state reached from a fresh connection. */
  function Reached(generation: nat, grace: nat, now: int, schedule: seq<Action>): System {
    Run(Start(generation, grace, now), schedule)
  }

  lemma ReachedKeeps(generation: nat, grace: nat, now: int, schedule: seq<Action>)
    ensures Inv(Reached(generation, grace, now, schedule))
  {
    Initially(generation, grace, now);
    RunKeeps(Start(generation, grace, now), schedule);
  }

  /**
    No message ever fails a receive guard, at either end. A cancellation that
    crosses its result therefore always finds the live call or an unmarked
    tombstone. What can still end the connection is the pipe, an exception in a
    service handler, a worker that ignores its grace period, a cyclic service call, or a Stop inside a call.
  */
  lemma EveryMessagePassesItsGuards(generation: nat, grace: nat, now: int, schedule: seq<Action>)
    ensures var s := Reached(generation, grace, now, schedule);
            && !s.wrk.failed
            && (s.sup.fault.Some? ==> s.sup.fault.value in {IoFailed, HandlerThrew, CancelTimeout, ServiceCycle, StoppedDuringCall})
  {
    ReachedKeeps(generation, grace, now, schedule);
    hide Coherent;
  }

  /** Between top-level calls nothing of any finished call is left in a channel or in the worker. */
  lemma DrainedBetweenCalls(generation: nat, grace: nat, now: int, schedule: seq<Action>)
    requires var s := Reached(generation, grace, now, schedule); !Dead(s) && s.sup.frames == []
    ensures Idle(Reached(generation, grace, now, schedule))
  {
    ReachedKeeps(generation, grace, now, schedule);
    hide Run, Common;
  }

  /** The call a message to the supervisor belongs to. */
  function CallOf(m: Envelope): nat {
    if m.body.Request? then m.parent else m.correlation
  }

  ghost predicate OnlyActiveCalls(s: System) {
    && (forall i :: 0 <= i < |s.toSup| ==> Active(s.sup.frames, CallOf(s.toSup[i])))
    && (forall i :: 0 <= i < |s.toWorker| && !s.toWorker[i].body.Reply? ==> Active(s.sup.frames, s.toWorker[i].correlation))
    && (forall i :: 0 <= i < |s.toWorker| && s.toWorker[i].body.Reply? ==>
          s.toWorker[i].correlation in s.wrk.pending && Active(s.sup.frames, s.wrk.pending[s.toWorker[i].correlation]))
    && (forall c :: c in s.wrk.calls ==> Active(s.sup.frames, c))
  }

  lemma UpMember(s: System, b: Baton, k: CancelStage, i: nat)
    requires Busy(s, b, k) && i < |s.toSup| && !s.toSup[i].body.Event?
    ensures CallOf(s.toSup[i]) == Last(s.sup.frames).correlation
  {
    hide Down, EventsFirst, InnerCall, InnerFrame;
    ControlMember(s.toSup, i);
  }

  lemma DownMember(s: System, b: Baton, k: CancelStage, i: nat)
    requires Busy(s, b, k) && i < |s.toWorker|
    ensures var m, c := s.toWorker[i], Last(s.sup.frames).correlation;
            if m.body.Reply? then m.correlation in s.wrk.pending && s.wrk.pending[m.correlation] == c
            else m.correlation == c
  {
    hide Up, EventsFirst, InnerFrame;
  }

  /** Every message in flight and every live worker call belongs to an active invocation. */
  lemma NothingOutlivesItsCall(generation: nat, grace: nat, now: int, schedule: seq<Action>)
    requires !Dead(Reached(generation, grace, now, schedule))
    ensures OnlyActiveCalls(Reached(generation, grace, now, schedule))
  {
    hide Nesting, OuterCalls, Graves, Requests, Active, Busy, Idle, Run;
    var s := Reached(generation, grace, now, schedule);
    ReachedKeeps(generation, grace, now, schedule);
    if !Idle(s) {
      var b: Baton, k: CancelStage :| Busy(s, b, k);
      BusyHasFrames(s, b, k);
      InnermostActive(s.sup.frames);
      forall i | 0 <= i < |s.toSup| ensures Active(s.sup.frames, CallOf(s.toSup[i])) {
        if !s.toSup[i].body.Event? {
          UpMember(s, b, k, i);
        }
      }
      forall i | 0 <= i < |s.toWorker|
        ensures if s.toWorker[i].body.Reply?
                then s.toWorker[i].correlation in s.wrk.pending && Active(s.sup.frames, s.wrk.pending[s.toWorker[i].correlation])
                else Active(s.sup.frames, s.toWorker[i].correlation)
      {
        DownMember(s, b, k, i);
      }
    } else {
      IdleIsEmpty(s);
    }
  }

  lemma IdleIsEmpty(s: System)
    requires Idle(s)
    ensures OnlyActiveCalls(s)
  {
  }

  /** Depth, numbering, deadlines and pending results over all nested calls. */
  lemma StacksStayDisciplined(generation: nat, grace: nat, now: int, schedule: seq<Action>)
    requires !Dead(Reached(generation, grace, now, schedule))
    ensures var sup := Reached(generation, grace, now, schedule).sup;
            && Stacks(sup.frames, sup.next)
            && (forall c :: c in sup.pending ==> Active(sup.frames, c))
  {
    hide Outer, Parents, Justified, WorkerShape, OuterCalls, Events, Down, Up, EventsFirst, InnerCall, Run;
    var s := Reached(generation, grace, now, schedule);
    ReachedKeeps(generation, grace, now, schedule);
    if !Idle(s) {
      var b: Baton, k: CancelStage :| Busy(s, b, k);
      InnermostActive(s.sup.frames);
    }
    hide Active;
  }

  function Cancels(q: seq<Envelope>): nat {
    if q == [] then 0 else (if q[0].body.Cancel? then 1 else 0) + Cancels(q[1..])
  }

  lemma FewCancels(g: nat, c: nat, parent: nat, toWorker: seq<Envelope>, b: Baton, k: CancelStage)
    requires Down(g, c, parent, toWorker, b, k)
    ensures Cancels(toWorker) <= 1
    ensures forall i :: 0 <= i < |toWorker| && toWorker[i].body.Cancel? ==> toWorker[i].correlation == c
    ensures forall i :: 0 <= i < |toWorker| && toWorker[i].body.Request? ==> toWorker[i].correlation == c
  {
    assert |toWorker| <= 2;
    assert |toWorker| == 2 ==> toWorker[1..][1..] == [];
  }

  /**
    At most one CANCEL is on its way, it belongs to the innermost call, every
    call below was never cancelled, and once the innermost call is cancelled
    its service handler cannot put another request on the wire.
  */
  lemma CancellationIsInnermost(generation: nat, grace: nat, now: int, schedule: seq<Action>,
                                timeout: int, probe: Option<nat>, delay: nat)
    requires var s := Reached(generation, grace, now, schedule); !Dead(s) && s.sup.frames != []
    ensures var s := Reached(generation, grace, now, schedule);
            var c := Last(s.sup.frames).correlation;
            && Cancels(s.toWorker) <= 1
            && (forall i :: 0 <= i < |s.toWorker| && s.toWorker[i].body.Cancel? ==> s.toWorker[i].correlation == c)
            && (forall i :: 0 <= i < |s.toWorker| && s.toWorker[i].body.Request? ==> s.toWorker[i].correlation == c)
            && (forall i :: 0 <= i < |s.sup.frames| - 1 ==> !s.sup.frames[i].cancelSent)
            && (Last(s.sup.frames).cancelSent ==>
                  SupervisorStep(s, EngineCall(timeout, probe, delay)).toWorker == s.toWorker)
  {
    hide Stacks, Parents, Justified, WorkerShape, OuterCalls, Events, Up, EventsFirst, InnerCall, Enter, Run;
    var s := Reached(generation, grace, now, schedule);
    ReachedKeeps(generation, grace, now, schedule);
    var b: Baton, k: CancelStage :| Busy(s, b, k);
    FewCancels(s.generation, Last(s.sup.frames).correlation, s.sup.serviceParent, s.toWorker, b, k);
    CancelledOuterNeverDispatches(s, timeout, probe, delay);
    hide Down;
    assert s.toWorker + [] == s.toWorker;
  }

  // ------------------------------------------------- exactly one reply, one ACK

  /** This step hands the supervisor the terminal reply of call c. */
  predicate TakesReply(s: System, a: Action, c: nat) {
    && !Dead(s) && a.SupervisorRead? && Pumping(s) && s.toSup != []
    && s.toSup[0].body.Reply? && s.toSup[0].correlation == c
  }

  /** This step hands the supervisor the cancellation acknowledgement of call c. */
  predicate TakesAck(s: System, a: Action, c: nat) {
    && !Dead(s) && a.SupervisorRead? && Pumping(s) && s.toSup != []
    && s.toSup[0].body.Cancel? && s.toSup[0].correlation == c
  }

  function Replies(s: System, schedule: seq<Action>, c: nat): nat
    decreases |schedule|
  {
    if schedule == [] then 0
    else Replies(s, Rest(schedule), c) + (if TakesReply(Run(s, Rest(schedule)), Last(schedule), c) then 1 else 0)
  }

  function Acks(s: System, schedule: seq<Action>, c: nat): nat
    decreases |schedule|
  {
    if schedule == [] then 0
    else Acks(s, Rest(schedule), c) + (if TakesAck(Run(s, Rest(schedule)), Last(schedule), c) then 1 else 0)
  }

  /** The history of a call agrees with what the supervisor's state remembers of it. */
  ghost predicate Counted(sup: Supervisor, replies: nat -> nat, acks: nat -> nat) {
    && (forall i :: 0 <= i < |sup.frames| ==>
          && replies(sup.frames[i].correlation) == (if sup.frames[i].correlation in sup.pending then 1 else 0)
          && acks(sup.frames[i].correlation) == (if sup.frames[i].cancelAcknowledged then 1 else 0))
    && (forall c :: c >= sup.next ==> replies(c) == 0 && acks(c) == 0)
  }

  function After(counts: nat -> nat, taken: bool, c: nat): nat -> nat {
    d => counts(d) + (if taken && d == c then 1 else 0)
  }

  lemma CountedCall(s: System, a: Action, replies: nat -> nat, acks: nat -> nat)
    requires Stacks(s.sup.frames, s.sup.next) && Counted(s.sup, replies, acks) && a.EngineCall?
    requires forall c :: c in s.sup.pending ==> Active(s.sup.frames, c)
    ensures Counted(SupervisorStep(s, a).sup, replies, acks)
  {
    hide CancellationRequested;
    OldCorrelations(s.sup.frames, s.sup.next);
  }

  lemma CountedTop(s: System, replies: nat -> nat, acks: nat -> nat)
    requires Stacks(s.sup.frames, s.sup.next) && Counted(s.sup, replies, acks) && Pumping(s)
    ensures var t := SupervisorStep(s, SupervisorTop);
            t.sup.fault == s.sup.fault ==> t.sup.fault.Some? || Counted(t.sup, replies, acks)
  {
    TopOutcome(s);
    hide CancellationRequested, TopOfLoop;
  }

  lemma CountedHandler(s: System, replies: nat -> nat, acks: nat -> nat, handled: Response)
    requires Counted(s.sup, replies, acks)
    ensures Counted(SupervisorStep(s, HandlerDone(handled)).sup, replies, acks)
  {
  }

  lemma CountedRead(s: System, replies: nat -> nat, acks: nat -> nat)
    requires Stacks(s.sup.frames, s.sup.next) && Counted(s.sup, replies, acks)
    requires s.sup.fault.None? && !s.wrk.failed && Pumping(s) && s.toSup != []
    ensures var t := SupervisorStep(s, SupervisorRead);
            var c := s.toSup[0].correlation;
            t.sup.fault.None? ==>
              Counted(t.sup, After(replies, TakesReply(s, SupervisorRead, c), c), After(acks, TakesAck(s, SupervisorRead, c), c))
  {
    hide CancellationRequested;
  }

  lemma CountedPointwise(sup: Supervisor, f: nat -> nat, g: nat -> nat, f': nat -> nat, g': nat -> nat)
    requires Counted(sup, f, g) && (forall c :: f(c) == f'(c)) && (forall c :: g(c) == g'(c))
    ensures Counted(sup, f', g')
  {
  }

  lemma PendingActive(s: System)
    requires Coherent(s)
    ensures Stacks(s.sup.frames, s.sup.next)
    ensures forall c :: c in s.sup.pending ==> Active(s.sup.frames, c)
  {
    hide Outer, Parents, Justified, WorkerShape, OuterCalls, Events, Down, Up, EventsFirst, InnerCall;
    if !Idle(s) {
      var b: Baton, k: CancelStage :| Busy(s, b, k);
      InnermostActive(s.sup.frames);
    }
    hide Active;
  }

  lemma SupervisorUntouched(s: System, a: Action)
    requires a.Pass? || a.WorkerRead? || a.WorkerService? || a.WorkerLog? || a.WorkerFinish?
    ensures Step(s, a).sup == s.sup
  {
    hide SupervisorStep;
  }

  lemma CountedSupervisor(s: System, a: Action, replies: nat -> nat, acks: nat -> nat)
    requires Stacks(s.sup.frames, s.sup.next) && (forall c :: c in s.sup.pending ==> Active(s.sup.frames, c))
    requires s.sup.fault.None? && Counted(s.sup, replies, acks)
    requires a.EngineCall? || a.SupervisorTop? || a.HandlerDone? || a.SupervisorIoFailure? || a.HandlerFailure? || a.SupervisorStop?
    ensures SupervisorStep(s, a).sup.fault.None? ==> Counted(SupervisorStep(s, a).sup, replies, acks)
  {
    hide Stacks, TopOfLoop, FinishService, Enter, Counted, Active;
    match a
    case EngineCall(_, _, _) => CountedCall(s, a, replies, acks);
    case SupervisorTop => if Pumping(s) { CountedTop(s, replies, acks); }
    case HandlerDone(handled) => CountedHandler(s, replies, acks, handled);
    case _ =>
  }

  lemma CountedOther(s: System, a: Action, replies: nat -> nat, acks: nat -> nat)
    requires !Dead(s) && Coherent(s) && Counted(s.sup, replies, acks) && !a.SupervisorRead?
    ensures Step(s, a).sup.fault.None? ==> Counted(Step(s, a).sup, replies, acks)
  {
    hide Coherent, Stacks, SupervisorStep, WorkerStep, Counted, Active;
    PendingActive(s);
    if a.Pass? || a.WorkerRead? || a.WorkerService? || a.WorkerLog? || a.WorkerFinish? {
      SupervisorUntouched(s, a);
    } else {
      CountedSupervisor(s, a, replies, acks);
    }
  }

  lemma CountedStep(s: System, a: Action, replies: nat -> nat, acks: nat -> nat)
    requires !Dead(s) && Coherent(s) && Counted(s.sup, replies, acks)
    ensures var t := Step(s, a);
            var c := if s.toSup == [] then 0 else s.toSup[0].correlation;
            t.sup.fault.None? ==>
              Counted(t.sup, After(replies, TakesReply(s, a, c), c), After(acks, TakesAck(s, a, c), c))
  {
    var t := Step(s, a);
    var c := if s.toSup == [] then 0 else s.toSup[0].correlation;
    if a.SupervisorRead? && Pumping(s) && s.toSup != [] {
      PendingActive(s);
      CountedRead(s, replies, acks);
      hide Coherent, Counted, Receive;
    } else {
      if a.SupervisorRead? {
        assert t == s;
      } else {
        CountedOther(s, a, replies, acks);
      }
      hide Coherent, Counted, Step;
      assert !TakesReply(s, a, c) && !TakesAck(s, a, c);
      if t.sup.fault.None? {
        CountedPointwise(t.sup, replies, acks, After(replies, false, c), After(acks, false, c));
      }
    }
  }

  lemma {:induction false} CountedRun(s0: System, schedule: seq<Action>)
    requires Inv(s0) && s0.sup.frames == []
    ensures var s := Run(s0, schedule);
            s.sup.fault.None? ==>
              Counted(s.sup, c => Replies(s0, schedule, c), c => Acks(s0, schedule, c))
    decreases |schedule|
  {
    hide Inv, Step, Counted, TakesReply, TakesAck;
    var replies, acks := (c: nat) => Replies(s0, schedule, c), (c: nat) => Acks(s0, schedule, c);
    if schedule == [] {
      NothingCounted(s0, replies, acks);
    } else {
      var before, a := Run(s0, Rest(schedule)), Last(schedule);
      CountedRun(s0, Rest(schedule));
      RunKeeps(s0, Rest(schedule));
      StepOrStutter(before, a, (c: nat) => Replies(s0, Rest(schedule), c), (c: nat) => Acks(s0, Rest(schedule), c), replies, acks);
    }
  }

  lemma NothingCounted(s0: System, replies: nat -> nat, acks: nat -> nat)
    requires s0.sup.frames == [] && (forall c :: replies(c) == 0 && acks(c) == 0)
    ensures Counted(s0.sup, replies, acks)
  {
  }

  lemma StepOrStutter(s: System, a: Action, f: nat -> nat, g: nat -> nat, f': nat -> nat, g': nat -> nat)
    requires Inv(s) && (s.sup.fault.None? ==> Counted(s.sup, f, g))
    requires forall c :: f'(c) == f(c) + (if TakesReply(s, a, c) then 1 else 0)
    requires forall c :: g'(c) == g(c) + (if TakesAck(s, a, c) then 1 else 0)
    ensures Step(s, a).sup.fault.None? ==> Counted(Step(s, a).sup, f', g')
  {
    hide Coherent, Counted;
    if !Dead(s) {
      CountedStep(s, a, f, g);
      var c := if s.toSup == [] then 0 else s.toSup[0].correlation;
      hide Step;
      if Step(s, a).sup.fault.None? {
        CountedPointwise(Step(s, a).sup, After(f, TakesReply(s, a, c), c), After(g, TakesAck(s, a, c), c), f', g');
      }
    }
  }

  /**
    When the Pump of call c returns after a cancellation, the supervisor has
    been handed exactly one terminal reply of c and exactly one ACK of it, the
    caller sees everything the worker reported except the status, which is the
    interruption, and afterwards no message of c is anywhere.
  */
  lemma CancelledCallConsumesExactlyOne(generation: nat, grace: nat, now: int, schedule: seq<Action>)
    requires var s := Reached(generation, grace, now, schedule); !Dead(s) && Pumping(s)
    requires var s := Reached(generation, grace, now, schedule);
             TopOfLoop(s.sup, s.generation, s.now, s.latched, s.grace).2.Returned? && Last(s.sup.frames).cancelSent
    ensures var s0 := Start(generation, grace, now);
            var s := Reached(generation, grace, now, schedule);
            var c := Last(s.sup.frames).correlation;
            var result := TopOfLoop(s.sup, s.generation, s.now, s.latched, s.grace).2.response;
            && Replies(s0, schedule, c) == 1 && Acks(s0, schedule, c) == 1
            && c in s.sup.pending
            && result.payload == s.sup.pending[c].payload
            && result.indeterminate == s.sup.pending[c].indeterminate
            && (result.status.TimedOut? || result.status.Cancelled?)
            && OnlyActiveCalls(Reached(generation, grace, now, schedule + [SupervisorTop]))
            && !Active(Reached(generation, grace, now, schedule + [SupervisorTop]).sup.frames, c)
  {
    var s0 := Start(generation, grace, now);
    var s := Reached(generation, grace, now, schedule);
    Initially(generation, grace, now);
    CountedRun(s0, schedule);
    ReachedKeeps(generation, grace, now, schedule);
    InterruptedStatus(s);
    ReturnStep(s);
    assert Rest(schedule + [SupervisorTop]) == schedule;
    hide Inv, Step, TopOfLoop, OnlyActiveCalls, Coherent;
    NothingOutlivesItsCall(generation, grace, now, schedule + [SupervisorTop]);
  }

  lemma InterruptedStatus(s: System)
    requires Coherent(s) && s.sup.frames != [] && Last(s.sup.frames).cancelSent
    ensures Last(s.sup.frames).interrupted.TimedOut? || Last(s.sup.frames).interrupted.Cancelled?
  {
    hide Common, Down, Up, EventsFirst, InnerCall;
  }

  lemma ReturnStep(s: System)
    requires Coherent(s) && !Dead(s) && Pumping(s) && Last(s.sup.frames).cancelSent
    requires TopOfLoop(s.sup, s.generation, s.now, s.latched, s.grace).2.Returned?
    ensures var t := Step(s, SupervisorTop);
            !Dead(t) && !Active(t.sup.frames, Last(s.sup.frames).correlation)
    ensures Last(s.sup.frames).cancelAcknowledged && Last(s.sup.frames).correlation in s.sup.pending
  {
    hide Outer, Parents, Justified, WorkerShape, OuterCalls, Events, Busy, Idle, CancellationRequested;
  }
}
