/**
  The supervisor as an object: the reentrant Call and the Pump receive loop,
  run against an arbitrary script of messages, timeouts, pipe failures and
  handler behaviour. Nothing is assumed about the worker here. Every method
  goes through the turns of SupervisorMachine.
*/
module WorkerSupervisor {
  import opened Wrappers
  import opened WireProtocol
  import opened WireSystem
  import opened SupervisorMachine

  class Supervisor {
    const generation: nat
    const grace: nat
    var fault: Option<Fault>
    var next: nat
    var lastService: nat
    var serviceParent: nat
    var active: seq<nat>
    var deadlines: seq<int>
    var cancellations: seq<Option<nat>>
    var ancestry: seq<string>
    var pending: map<nat, Response>
    var outbox: seq<Envelope>

    var now: int
    var latched: set<nat>
    var script: seq<Occurrence>

    /** The Pump locals of every nested call, innermost last. */
    ghost var frames: seq<Frame>

    /** What the call that ended last gave its caller. */
    ghost var answer: Option<CallResult>

    /** The three stacks always have one entry per nested call. */
    ghost predicate Valid()
      reads this
    {
      && |active| == |frames| && |deadlines| == |frames| && |cancellations| == |frames|
      && (forall i :: 0 <= i < |frames| ==>
            active[i] == frames[i].correlation && deadlines[i] == frames[i].deadline && cancellations[i] == frames[i].probe)
      && Stacks(frames, next)
      && (forall c :: c in pending ==> c in active)
      && (fault.Some? ==> pending == map[])
    }

    ghost function View(): WireProtocol.Supervisor
      reads this
    {
      WireProtocol.Supervisor(fault, next, lastService, serviceParent, frames, ancestry, pending)
    }

    ghost function Config(): Machine
      reads this
    {
      Machine(generation, grace, View(), now, latched, outbox, script, answer)
    }

    /** The machine's state once the innermost call has left its scope. */
    ghost function Left(): Machine
      requires frames != []
      reads this
    {
      Config().(sup := View().(frames := Rest(frames)))
    }

    constructor (generation: nat, grace: nat, now: int, script: seq<Occurrence>)
      ensures Valid() && Config() == Machine(generation, grace, WireProtocol.Supervisor.Supervisor(None, 2, 0, 0, [], [], map[]), now, {}, [], script, None)
    {
      this.generation, this.grace, this.now, this.script := generation, grace, now, script;
      fault := None;
      next, lastService, serviceParent := 2, 0, 0;
      active, deadlines, cancellations, ancestry := [], [], [], [];
      pending, outbox, latched := map[], [], {};
      frames := [];
      answer := None;
    }

    method IsActive(correlation: nat) returns (found: bool)
      requires Valid()
      ensures found == Active(frames, correlation) == (correlation in active)
    {
      found := correlation in active;
      assert found ==> exists i :: 0 <= i < |frames| && active[i] == correlation;
    }

    method Cancelled() returns (requested: bool)
      requires Valid()
      ensures requested == CancellationRequested(frames, latched)
    {
      requested := false;
      var i := 0;
      while i < |cancellations|
        invariant 0 <= i <= |cancellations|
        invariant requested <==> exists j :: 0 <= j < i && Probed(frames[j].probe, latched)
      {
        if Probed(cancellations[i], latched) {
          requested := true;
        }
        i := i + 1;
      }
    }

    /** Setting a local of the innermost Pump leaves the three stacks alone. */
    ghost method SetLocals(f: Frame)
      requires Valid() && frames != []
      requires f.correlation == Last(frames).correlation && f.deadline == Last(frames).deadline && f.probe == Last(frames).probe
      modifies this`frames
      ensures Valid() && frames == Rest(old(frames)) + [f]
    {
      frames := Rest(frames) + [f];
    }

    /** The cancellation the top of the loop may write; the locals become `sent1`, `status1`, `grace1`. */
    method WriteCancelIfDue(correlation: nat, deadline: int, sent0: bool, status0: Status, grace0: int)
      returns (sent1: bool, status1: Status, grace1: int)
      requires Valid() && frames != []
      requires var f := Last(frames);
               f.correlation == correlation && f.deadline == deadline && f.cancelSent == sent0 &&
               f.interrupted == status0 && f.grace == grace0
      modifies this`outbox, this`frames
      ensures Valid()
      ensures var (s, sent) := CancelIfDue(old(View()), generation, now, latched, grace);
              View() == s && outbox == old(outbox) + sent
      ensures frames != [] && Rest(frames) == Rest(old(frames))
      ensures Last(frames) == Last(old(frames)).(cancelSent := sent1, interrupted := status1, grace := grace1)
    {
      sent1, status1, grace1 := sent0, status0, grace0;
      var requested := Cancelled();
      if !sent1 && (now >= deadline || requested) {
        status1 := if now >= deadline then TimedOut else Status.Cancelled;
        outbox := outbox + [Envelope(generation, correlation, 0, Cancel(false))];
        sent1 := true;
        grace1 := now + grace;
        SetLocals(Last(frames).(cancelSent := true, interrupted := status1, grace := grace1));
      }
    }

    /** The first part of a Pump turn: cancellation, grace period, return of the stored result. */
    method TopOfLoop(correlation: nat, deadline: int, sent0: bool, acknowledged: bool, status0: Status, grace0: int)
      returns (sent1: bool, status1: Status, grace1: int, turn: Turn)
      requires Valid() && frames != []
      requires Last(frames) == Frame(correlation, deadline, Last(frames).probe, sent0, acknowledged, status0, grace0, None)
      modifies this`outbox, this`pending, this`frames
      ensures Valid()
      ensures var (s, sent, spec) := WireProtocol.TopOfLoop(old(View()), generation, now, latched, grace);
              && outbox == old(outbox) + sent
              && turn == spec
              && (turn.Continue? ==> View() == s)
              && (turn.Returned? ==> View().(frames := Rest(frames)) == s)
              && (turn.Raised? ==> Abort(View(), turn.fault) == s)
      ensures turn.Returned? ==> correlation !in pending
      ensures old(outbox) <= outbox
      ensures frames != [] && Rest(frames) == Rest(old(frames))
      ensures Last(frames) == Frame(correlation, deadline, old(Last(frames)).probe, sent1, acknowledged, status1, grace1, None)
    {
      hide CancellationRequested, Stacks;
      sent1, status1, grace1 := WriteCancelIfDue(correlation, deadline, sent0, status0, grace0);
      hide CancelIfDue;
      if sent1 && now >= grace1 {
        turn := Raised(CancelTimeout);
      } else if correlation in pending && (!sent1 || acknowledged) {
        var response := pending[correlation];
        pending := pending - {correlation};
        turn := Returned(if sent1 then Interrupt(response, status1) else response);
      } else {
        turn := Continue;
      }
    }

    /** A service request: its guards, the ancestry check, and the scope its handler runs in. */
    method BeginService(m: Envelope, operation: Operation, key: string, deadline: int, sent: bool)
      returns (service: Option<Service>, turn: Turn)
      requires Valid() && frames != [] && Last(frames).serving.None?
      requires Last(frames).deadline == deadline && Last(frames).cancelSent == sent
      requires m == Envelope(generation, m.correlation, m.parent, Request(operation, key))
      modifies this`lastService, this`serviceParent, this`ancestry, this`frames
      ensures Valid()
      ensures var (s, spec) := Receive(old(View()), generation, m, now, latched);
              && turn == spec
              && (turn.Continue? ==> View() == s && service.Some?)
              && (turn.Raised? ==> Abort(View(), turn.fault) == s && service.None?)
      ensures frames != [] && Rest(frames) == Rest(old(frames))
      ensures Last(frames) == Last(old(frames)).(serving := service)
      ensures service.Some? ==>
        && turn.Continue? && service.value.previous == old(serviceParent)
        && serviceParent == service.value.correlation && ancestry == old(ancestry) + [key]
      ensures service.None? ==> ancestry == old(ancestry) && serviceParent == old(serviceParent)
      ensures lastService >= old(lastService)
      ensures turn ==
        if m.correlation % 2 == 0 || m.correlation <= old(lastService) || m.parent !in old(active) || operation.EngineOperation?
        then Raised(ServiceInvalid)
        else if key in old(ancestry) then Raised(ServiceCycle)
        else Continue
    {
      hide Stacks, Active, CancellationRequested;
      var parentFound := IsActive(m.parent);
      if m.correlation % 2 != 1 || m.correlation <= lastService || !parentFound || operation.EngineOperation? {
        return None, Raised(ServiceInvalid);
      }
      lastService := m.correlation;
      if key in ancestry {
        return None, Raised(ServiceCycle);
      }
      var requested := Cancelled();
      var blocked := !operation.ReleaseService? && (sent || now >= deadline || requested);
      service := OpenScope(m.correlation, key, blocked);
      turn := Continue;
    }

    /** The scope of a service request: parent, ancestry and the frame's note of it. */
    method OpenScope(correlation: nat, key: string, blocked: bool) returns (service: Option<Service>)
      requires Valid() && frames != [] && lastService == correlation
      modifies this`serviceParent, this`ancestry, this`frames
      ensures Valid() && View() == ServingNow(old(View()), correlation, key, blocked)
      ensures service == Some(Service(correlation, old(serviceParent), blocked))
    {
      hide Stacks;
      service := Some(Service(correlation, serviceParent, blocked));
      serviceParent := correlation;
      ancestry := ancestry + [key];
      SetLocals(Last(frames).(serving := service));
    }

    method StoreReply(correlation: nat, response: Response) returns (turn: Turn)
      requires Valid() && fault.None? && frames != []
      modifies this`pending
      ensures Valid()
      ensures var (s, spec) := Receive(old(View()), generation, Envelope(generation, correlation, 0, Reply(response)), now, latched);
              && turn == spec
              && turn == (if correlation !in old(active) || correlation in old(pending) then Raised(CorrelationInvalid) else Continue)
              && (if turn.Continue? then View() == s else Abort(View(), turn.fault) == s)
    {
      hide Stacks, Active;
      var found := IsActive(correlation);
      if !found || correlation in pending {
        turn := Raised(CorrelationInvalid);
      } else {
        pending := pending[correlation := response];
        turn := Continue;
      }
    }

    /** Events and acknowledgements do not depend on the parent field. */
    lemma ParentIgnored(s: WireProtocol.Supervisor, m: Envelope)
      requires s.frames != [] && !m.body.Request? && m.generation == generation
      ensures Receive(s, generation, m, now, latched) == Receive(s, generation, m.(parent := 0), now, latched)
    {
    }

    /** One received message; a service request leaves `service` for its handler. */
    method Deliver(m: Envelope, correlation: nat, deadline: int, sent: bool, acknowledged0: bool)
      returns (acknowledged1: bool, service: Option<Service>, turn: Turn)
      requires Valid() && fault.None? && frames != [] && Last(frames).serving.None?
      requires var f := Last(frames);
               f.correlation == correlation && f.deadline == deadline && f.cancelSent == sent &&
               f.cancelAcknowledged == acknowledged0
      modifies this`pending, this`lastService, this`serviceParent, this`ancestry, this`frames
      ensures Valid()
      ensures var (s, spec) := Receive(old(View()), generation, m, now, latched);
              && turn == spec
              && (turn.Continue? ==> View() == s)
              && (turn.Raised? ==> Abort(View(), turn.fault) == s)
      ensures !turn.Returned? && lastService >= old(lastService)
      ensures turn ==
        if m.generation != generation then Raised(GenerationInvalid)
        else match m.body
          case Reply(_) =>
            if m.correlation !in old(active) || m.correlation in old(pending) then Raised(CorrelationInvalid) else Continue
          case Cancel(flag) =>
            if m.correlation == correlation && flag && sent && !acknowledged0 then Continue else Raised(CancelInvalid)
          case Event => if m.correlation !in old(active) then Raised(CorrelationInvalid) else Continue
          case Request(operation, key) =>
            if m.correlation % 2 == 0 || m.correlation <= old(lastService) || m.parent !in old(active) || operation.EngineOperation?
            then Raised(ServiceInvalid)
            else if key in old(ancestry) then Raised(ServiceCycle)
            else Continue
          case Hello => Raised(ProtocolInvalid)
      ensures frames != [] && Rest(frames) == Rest(old(frames))
      ensures Last(frames) == Last(old(frames)).(cancelAcknowledged := acknowledged1, serving := service)
      ensures service.Some? ==>
        && turn.Continue? && service.value.previous == old(serviceParent)
        && serviceParent == service.value.correlation && ancestry != [] && Rest(ancestry) == old(ancestry)
      ensures service.None? ==> ancestry == old(ancestry) && serviceParent == old(serviceParent)
    {
      hide Stacks, Active, CancellationRequested;
      acknowledged1, service, turn := acknowledged0, None, Continue;
      assert active[|active| - 1] == correlation;
      if m.generation != generation {
        turn := Raised(GenerationInvalid);
      } else {
        match m.body
        case Reply(response) =>
          ParentIgnored(View(), m);
          turn := StoreReply(m.correlation, response);
        case Cancel(flag) =>
          var found := IsActive(m.correlation);
          if !found || !flag || !sent || acknowledged0 || m.correlation != correlation {
            turn := Raised(CancelInvalid);
          } else {
            acknowledged1 := true;
            SetLocals(Last(frames).(cancelAcknowledged := true));
          }
        case Event =>
          var found := IsActive(m.correlation);
          if !found {
            turn := Raised(CorrelationInvalid);
          }
        case Request(operation, key) =>
          service, turn := BeginService(m, operation, key, deadline, sent);
        case Hello =>
          turn := Raised(ProtocolInvalid);
      }
    }

    /** What neither Call nor anything below it may disturb, and how the surroundings move on. */
    twostate predicate Kept()
      reads this
    {
      && active == old(active) && deadlines == old(deadlines) && cancellations == old(cancellations)
      && ancestry == old(ancestry) && serviceParent == old(serviceParent)
      && next >= old(next) && lastService >= old(lastService)
      && old(outbox) <= outbox
      && now >= old(now) && latched >= old(latched)
      && |script| <= |old(script)|
      && (old(fault).Some? ==> fault.Some?)
    }

    /** The next message, if the pipe has one before the polling deadline. */
    method Read() returns (message: Option<Envelope>, failed: bool)
      requires Valid()
      modifies this`now, this`latched, this`script
      ensures Valid() && now >= old(now) && latched >= old(latched)
      ensures !failed ==> |script| < |old(script)|
      ensures |script| <= |old(script)|
      ensures Config() == Consumed(old(Config()))
      ensures failed <==> old(script) == [] || !(old(script)[0].Arrives? || old(script)[0].Silence?)
      ensures message == if !failed && old(script)[0].Arrives? then Some(old(script)[0].message) else None
    {
      message, failed := None, true;
      if script == [] {
        return;
      }
      match script[0]
      case Arrives(elapsed, probes, m) =>
        now, latched, script := now + elapsed, latched + probes, script[1..];
        message, failed := Some(m), false;
      case Silence(elapsed, probes) =>
        now, latched, script := now + elapsed, latched + probes, script[1..];
        failed := false;
      case _ =>
        script := script[1..];
    }

    method AbortWith(reason: Fault)
      requires Valid()
      modifies this`fault, this`pending
      ensures Valid() && View() == Abort(old(View()), reason)
    {
      fault := Some(reason);
      pending := map[];
    }

    /** The next turn of a machine whose handler is at work. */
    lemma HandlerTurn(m: Machine)
      requires SupervisorMachine.Serving(m) && m.sup.fault.None? && !Last(m.sup.frames).serving.value.blocked
      ensures var c := Dropped(m);
              Next(m) ==
                if m.script != [] && m.script[0].HandlerCalls? then
                  Entered(c, m.script[0].timeout, m.script[0].probe, m.script[0].delay)
                else if m.script != [] && m.script[0].HandlerReturns? then Served(c, m.script[0].response)
                else if m.script != [] && m.script[0].HandlerStops? then Failed(c, StoppedDuringCall)
                else Failed(c, HandlerThrew)
    {
    }

    /** One nested call of a handler, which may have lost its supervisor already. */
    method CallFromHandler(ghost start: Machine)
      requires Valid() && frames != [] && ancestry != []
      requires Last(frames).serving.Some? && !Last(frames).serving.value.blocked
      requires script != [] && script[0].HandlerCalls?
      requires Leads(start, Config())
      modifies this
      ensures Valid() && Kept() && frames == old(frames) && |script| < |old(script)|
      ensures Leads(start, Config())
      decreases |script|, 0
    {
      hide Stacks, Next, Leads, Entered;
      ghost var c := Config();
      if fault.None? {
        HandlerTurn(c);
      }
      var o := script[0];
      script := script[1..];
      assert Config() == Dropped(c);
      var _ := Call(o.timeout, o.probe, o.delay);
      if c.sup.fault.None? {
        Turning(start, c, Config());
      } else {
        Unwinding(start, c, Config());
      }
    }

    /** A Stop inside a call dismantles nothing: it aborts, and the handler goes on without a supervisor. */
    method StopFromHandler(ghost start: Machine)
      requires Valid() && frames != [] && ancestry != []
      requires Last(frames).serving.Some? && !Last(frames).serving.value.blocked
      requires script != [] && script[0].HandlerStops?
      requires Leads(start, Config())
      modifies this`script, this`fault, this`pending
      ensures Valid() && Kept() && frames == old(frames) && |script| < |old(script)|
      ensures Leads(start, Config()) && fault.Some?
    {
      hide Stacks, Next, Leads, Entered;
      ghost var c := Config();
      script := script[1..];
      if fault.None? {
        HandlerTurn(c);
        AbortWith(StoppedDuringCall);
        Here(Next(c));
        Turning(start, c, Next(c));
      } else {
        Unwinding(start, c, Config());
      }
    }

    /** The service handler: any number of nested calls and stops, then a response or an exception. */
    method RunHandler() returns (response: Option<Response>)
      requires Valid() && fault.None? && frames != [] && ancestry != []
      requires Last(frames).serving.Some? && !Last(frames).serving.value.blocked
      modifies this
      ensures Valid() && Kept() && frames == old(frames)
      ensures fault.None? && response.Some? ==> Leads(old(Config()), Served(Config(), response.value))
      ensures fault.None? && response.None? ==> Leads(old(Config()), Failed(Config(), HandlerThrew))
      ensures fault.Some? ==> Leads(old(Config()), Config())
      decreases |script|, 1, 0
    {
      hide Stacks, Next, Leads, Steps, Served, Entered;
      ghost var start := Config();
      Here(start);
      while script != [] && (script[0].HandlerCalls? || script[0].HandlerStops?)
        invariant Valid() && Kept() && frames == old(frames)
        invariant Leads(start, Config())
        decreases |script|
      {
        if script[0].HandlerCalls? {
          CallFromHandler(start);
        } else {
          StopFromHandler(start);
        }
      }
      ghost var c := Config();
      response := None;
      if script != [] {
        if script[0].HandlerReturns? {
          response := Some(script[0].response);
        }
        script := script[1..];
      }
      assert Config() == Dropped(c);
      if c.sup.fault.None? {
        HandlerTurn(c);
        Here(Next(c));
        Turning(start, c, Next(c));
      } else {
        Unwinding(start, c, Config());
      }
    }

    /** The prologue of Call; it is Enter of the step functions up to the push and the write. */
    method Admit(timeout: int, probe: Option<nat>, delay: nat) returns (early: Option<CallResult>, correlation: nat, deadline: int)
      requires Valid() && fault.None?
      modifies this`next, this`now
      ensures Valid() && now >= old(now) && next >= old(next)
      ensures now == if next == old(next) then old(now) else old(now) + delay
      ensures var (s, entry) := Enter(old(View()), generation, timeout, probe, latched, old(now), old(now) + delay);
              match entry
              case Answered(response) => early == Some(Answer(response)) && View() == s
              case Refused => early == Some(TooDeep) && View() == s == old(View()) && |active| >= MAX_DEPTH
              case Dispatched(request) =>
                && early.None? && |active| < MAX_DEPTH
                && s == View().(frames := frames + [Frame(correlation, deadline, probe, false, false, Ok, deadline, None)])
                && request == Envelope(generation, correlation, serviceParent, Request(EngineOperation, ""))
      ensures early.None? ==>
        && (forall i :: 0 <= i < |frames| ==> frames[i].correlation < correlation)
        && correlation % 2 == 0 && 2 <= correlation < next
        && (deadlines != [] ==> deadline <= Last(deadlines))
    {
      hide CancellationRequested, Stacks;
      early, correlation, deadline := None, 0, 0;
      var requested := Cancelled();
      if timeout <= 0 {
        early := Some(Answer(Plain(TimedOut, "Invocation budget expired before dispatch.")));
      } else if Probed(probe, latched) || requested {
        early := Some(Answer(Plain(Status.Cancelled, "Invocation cancelled before dispatch.")));
      } else if |active| >= MAX_DEPTH {
        early := Some(TooDeep);
      } else {
        correlation, deadline := Number(timeout, delay);
        if LeftMs(deadline, now) <= 0 {
          early := Some(Answer(Plain(TimedOut, "Nested invocation budget expired.")));
        }
      }
    }

    /** The number and the deadline of a call that is let in. */
    method Number(timeout: int, delay: nat) returns (correlation: nat, deadline: int)
      requires Valid()
      modifies this`next, this`now
      ensures Valid() && correlation == old(next) && next == old(next) + 2 && now == old(now) + delay
      ensures deadline == EffectiveDeadline(frames, old(now) + timeout * TICKS_PER_MS)
      ensures forall i :: 0 <= i < |frames| ==> frames[i].correlation < correlation
      ensures correlation % 2 == 0 && 2 <= correlation
      ensures deadlines != [] ==> deadline <= Last(deadlines)
    {
      SkippedNumber(frames, next);
      hide Stacks;
      deadline := now + timeout * TICKS_PER_MS;
      if deadlines != [] {
        assert Last(deadlines) == Last(frames).deadline;
        deadline := Min(deadline, Last(deadlines));
      }
      assert deadline == EffectiveDeadline(frames, old(now) + timeout * TICKS_PER_MS);
      correlation := next;
      next := next + 2;
      now := now + delay;
    }

    /** The prologue as the machine sees it. */
    method LetIn(timeout: int, probe: Option<nat>, delay: nat)
      returns (early: Option<CallResult>, correlation: nat, deadline: int)
      requires Valid() && fault.None?
      modifies this`next, this`now, this`answer
      ensures Valid() && now >= old(now) && next >= old(next)
      ensures early.Some? ==>
        && !early.value.Threw? && answer == early && Config() == Entered(old(Config()), timeout, probe, delay)
        && (early.value.TooDeep? ==> View() == old(View()) && |active| >= MAX_DEPTH)
      ensures early.None? ==>
        && Entered(old(Config()), timeout, probe, delay) == Opened(Config(), correlation, deadline, probe)
        && |active| < MAX_DEPTH
        && (forall i :: 0 <= i < |frames| ==> frames[i].correlation < correlation)
        && correlation % 2 == 0 && 2 <= correlation < next
        && (deadlines != [] ==> deadline <= Last(deadlines))
    {
      hide Stacks, CancellationRequested, Enter, Valid;
      early, correlation, deadline := Admit(timeout, probe, delay);
      if early.Some? {
        Remember(early);
      }
    }

    ghost method Remember(result: Option<CallResult>)
      requires Valid()
      modifies this`answer
      ensures Valid() && answer == result
    {
      hide Stacks;
      answer := result;
    }

    /**
      Call: on every way out the three stacks are as the caller left them. What it
      answers is what the machine answers when it enters the same call.
    */
    method Call(timeout: int, probe: Option<nat>, delay: nat) returns (result: CallResult)
      requires Valid() && (frames != [] ==> Last(frames).serving.Some?)
      modifies this
      ensures Valid() && Kept() && frames == old(frames)
      ensures result.Answer? ==> fault.None?
      ensures result.Threw? ==> fault.Some?
      ensures result.TooDeep? ==> View() == old(View()) && outbox == old(outbox) && |active| >= MAX_DEPTH
      ensures old(fault).Some? ==> result == Threw && Config() == old(Config())
      ensures old(fault).None? ==> Leads(Entered(old(Config()), timeout, probe, delay), Config())
      ensures !result.Threw? ==> answer == Some(result)
      decreases |script|, 1, 5
    {
      hide Stacks, Leads, Entered, Opened;
      if fault.Some? {
        return Threw;
      }
      var early, correlation, deadline := LetIn(timeout, probe, delay);
      if early.Some? {
        Here(Config());
        return early.value;
      }
      result := Dispatch(correlation, deadline, probe);
    }

    /** The machine with one more call pushed and its request written. */
    static ghost function Opened(m: Machine, correlation: nat, deadline: int, probe: Option<nat>): Machine {
      m.(sup := m.sup.(frames := m.sup.frames + [Frame(correlation, deadline, probe, false, false, Ok, deadline, None)]),
         outbox := m.outbox + [Envelope(m.generation, correlation, m.sup.serviceParent, Request(EngineOperation, ""))])
    }

    /** The guarded part of Call: push, write the request, pump, pop. */
    method Dispatch(correlation: nat, deadline: int, probe: Option<nat>) returns (result: CallResult)
      requires Valid() && fault.None? && |active| < MAX_DEPTH
      requires forall i :: 0 <= i < |frames| ==> frames[i].correlation < correlation
      requires correlation % 2 == 0 && 2 <= correlation < next
      requires deadlines != [] ==> deadline <= Last(deadlines)
      modifies this
      ensures Valid() && Kept() && frames == old(frames)
      ensures !result.TooDeep?
      ensures result.Answer? ==> fault.None? && answer == Some(result)
      ensures result.Threw? ==> fault.Some?
      ensures Leads(Opened(old(Config()), correlation, deadline, probe), Config())
      decreases |script|, 1, 4
    {
      hide Stacks, Leads, Opened;
      ghost var start := Opened(Config(), correlation, deadline, probe);
      Open(correlation, deadline, probe);
      result := Pump(correlation, deadline);
      Close(start);
    }

    /** The push and the write. */
    method Open(correlation: nat, deadline: int, probe: Option<nat>)
      requires Valid() && |active| < MAX_DEPTH
      requires forall i :: 0 <= i < |frames| ==> frames[i].correlation < correlation
      requires correlation % 2 == 0 && 2 <= correlation < next
      requires deadlines != [] ==> deadline <= Last(deadlines)
      modifies this`active, this`deadlines, this`cancellations, this`frames, this`outbox
      ensures Valid() && Config() == Opened(old(Config()), correlation, deadline, probe)
      ensures active != [] && Rest(active) == old(active)
      ensures deadlines != [] && Rest(deadlines) == old(deadlines)
      ensures cancellations != [] && Rest(cancellations) == old(cancellations)
      ensures frames != [] && Rest(frames) == old(frames)
      ensures Last(frames) == Frame(correlation, deadline, probe, false, false, Ok, deadline, None)
      ensures old(outbox) <= outbox
    {
      hide Stacks, Valid;
      PushScope(correlation, deadline, probe);
      Write(Envelope(generation, correlation, serviceParent, Request(EngineOperation, "")));
    }

    method Write(m: Envelope)
      requires Valid()
      modifies this`outbox
      ensures Valid() && outbox == old(outbox) + [m]
    {
      hide Stacks;
      outbox := outbox + [m];
    }

    /** The way out of a call, whether its Pump returned or threw. */
    method Close(ghost start: Machine)
      requires Valid() && frames != [] && Last(active) !in pending
      requires Leads(start, if fault.None? then Left() else Config())
      modifies this`active, this`deadlines, this`cancellations, this`frames
      ensures Valid() && Leads(start, Config())
      ensures old(active) != [] && active == Rest(old(active))
      ensures old(deadlines) != [] && deadlines == Rest(old(deadlines))
      ensures old(cancellations) != [] && cancellations == Rest(old(cancellations))
      ensures frames == Rest(old(frames))
    {
      hide Stacks, Leads;
      ghost var c := Config();
      PopScope();
      if fault.Some? {
        Unwinding(start, c, Config());
      }
    }

    /** A number that is never used leaves the stacks disciplined. */
    lemma SkippedNumber(frames: seq<Frame>, next: nat)
      requires Stacks(frames, next)
      ensures Stacks(frames, next + 2)
      ensures forall i :: 0 <= i < |frames| ==> frames[i].correlation < next
      ensures next % 2 == 0 && next >= 2
    {
    }

    lemma PushedStacks(frames: seq<Frame>, f: Frame, next: nat)
      requires Stacks(frames, next) && |frames| < MAX_DEPTH
      requires forall i :: 0 <= i < |frames| ==> frames[i].correlation < f.correlation
      requires f.correlation % 2 == 0 && 2 <= f.correlation < next
      requires frames != [] ==> f.deadline <= Last(frames).deadline
      ensures Stacks(frames + [f], next)
    {
    }

    lemma PoppedStacks(frames: seq<Frame>, next: nat)
      requires Stacks(frames, next) && frames != []
      ensures Stacks(Rest(frames), next)
    {
    }

    method PushScope(correlation: nat, deadline: int, probe: Option<nat>)
      requires Valid() && |active| < MAX_DEPTH
      requires forall i :: 0 <= i < |frames| ==> frames[i].correlation < correlation
      requires correlation % 2 == 0 && 2 <= correlation < next
      requires deadlines != [] ==> deadline <= Last(deadlines)
      modifies this`active, this`deadlines, this`cancellations, this`frames
      ensures Valid()
      ensures active != [] && Rest(active) == old(active)
      ensures deadlines != [] && Rest(deadlines) == old(deadlines)
      ensures cancellations != [] && Rest(cancellations) == old(cancellations)
      ensures frames == old(frames) + [Frame(correlation, deadline, probe, false, false, Ok, deadline, None)]
      ensures frames != [] && Rest(frames) == old(frames)
      ensures Last(frames) == Frame(correlation, deadline, probe, false, false, Ok, deadline, None)
    {
      ghost var f := Frame(correlation, deadline, probe, false, false, Ok, deadline, None);
      PushedStacks(frames, f, next);
      hide Stacks;
      active := active + [correlation];
      deadlines := deadlines + [deadline];
      cancellations := cancellations + [probe];
      frames := frames + [f];
    }

    /** The scope guard of Call: results kept for the leaving call go with it. */
    method PopScope()
      requires Valid() && frames != [] && Last(active) !in pending
      modifies this`active, this`deadlines, this`cancellations, this`frames
      ensures Valid()
      ensures old(active) != [] && active == Rest(old(active))
      ensures old(deadlines) != [] && deadlines == Rest(old(deadlines))
      ensures old(cancellations) != [] && cancellations == Rest(old(cancellations))
      ensures frames == Rest(old(frames))
    {
      PoppedStacks(frames, next);
      hide Stacks;
      forall c | c in pending ensures c in Rest(active) {
        var i :| 0 <= i < |active| && active[i] == c;
        assert Rest(active)[i] == c;
      }
      active := Rest(active);
      deadlines := Rest(deadlines);
      cancellations := Rest(cancellations);
      frames := Rest(frames);
    }

    /** The end of a service request: its scope is left and its answer written. */
    method EndService(service: Service, handled: Response, deadline: int)
      requires Valid() && frames != [] && ancestry != []
      requires Last(frames).serving == Some(service) && Last(frames).deadline == deadline
      modifies this`outbox, this`serviceParent, this`ancestry, this`frames
      ensures Valid()
      ensures var (s, reply) := FinishService(old(View()), generation, handled, now);
              View() == s && outbox == old(outbox) + [reply]
      ensures frames == Rest(old(frames)) + [Last(old(frames)).(serving := None)]
      ensures serviceParent == service.previous && ancestry == Rest(old(ancestry)) && old(outbox) <= outbox
    {
      hide Stacks;
      var response := handled;
      if service.blocked {
        response := Plain(if now >= deadline then TimedOut else Status.Cancelled,
                          "Service invocation interrupted before dispatch.");
      }
      serviceParent := service.previous;
      ancestry := Rest(ancestry);
      outbox := outbox + [Envelope(generation, service.correlation, 0, Reply(response))];
      SetLocals(Last(frames).(serving := None));
    }

    /** The scope guard of a service request when an exception leaves it. */
    method LeaveService(service: Service)
      requires Valid() && frames != [] && ancestry != []
      modifies this`serviceParent, this`ancestry, this`frames
      ensures Valid()
      ensures frames == Rest(old(frames)) + [Last(old(frames)).(serving := None)]
      ensures serviceParent == service.previous && ancestry == Rest(old(ancestry))
    {
      hide Stacks;
      serviceParent := service.previous;
      ancestry := Rest(ancestry);
      SetLocals(Last(frames).(serving := None));
    }

    /** The handler's part of a service request: its response, or that the supervisor is done for. */
    method Consult(service: Service) returns (response: Response, ok: bool)
      requires Valid() && fault.None? && frames != [] && ancestry != [] && Last(frames).serving == Some(service)
      modifies this
      ensures Valid() && Kept() && frames == old(frames)
      ensures ok == fault.None?
      ensures Leads(old(Config()), if ok then Served(Config(), response) else Config())
      decreases |script|, 1, 1
    {
      hide Stacks, Leads, Steps, Served;
      response := Plain(Ok, "");
      if service.blocked {
        OneStep(Config());
      } else {
        hide Next;
        var handled := RunHandler();
        if handled.Some? {
          response := handled.value;
        } else if fault.None? {
          AbortWith(HandlerThrew);
        }
      }
      ok := fault.None?;
    }

    /** A service request in hand: false when its handler, or anything under it, ended the supervisor. */
    method Serve(service: Service, deadline: int) returns (ok: bool)
      requires Valid() && fault.None? && frames != [] && ancestry != []
      requires Last(frames).serving == Some(service) && Last(frames).deadline == deadline
      modifies this
      ensures Valid()
      ensures active == old(active) && deadlines == old(deadlines) && cancellations == old(cancellations)
      ensures ancestry == Rest(old(ancestry)) && serviceParent == service.previous
      ensures next >= old(next) && lastService >= old(lastService) && old(outbox) <= outbox
      ensures now >= old(now) && latched >= old(latched) && |script| <= |old(script)|
      ensures frames == Rest(old(frames)) + [Last(old(frames)).(serving := None)]
      ensures ok == fault.None?
      ensures Leads(old(Config()), Config())
      decreases |script|, 1, 2
    {
      hide Stacks, Leads;
      var response;
      response, ok := Consult(service);
      ghost var c := Config();
      if ok {
        hide FinishService;
        EndService(service, response, deadline);
        assert Config() == Served(c, response);
      } else {
        LeaveService(service);
        Unwinding(old(Config()), c, Config());
      }
    }

    /** A message in hand: true when the loop goes on. */
    method Handle(m: Envelope, correlation: nat, deadline: int, sent: bool, acknowledged0: bool)
      returns (ok: bool, acknowledged1: bool)
      requires Valid() && fault.None? && frames != [] && Last(frames).serving.None?
      requires var f := Last(frames);
               f.correlation == correlation && f.deadline == deadline && f.cancelSent == sent &&
               f.cancelAcknowledged == acknowledged0
      modifies this
      ensures Valid() && Kept()
      ensures frames != [] && Rest(frames) == Rest(old(frames))
      ensures Last(frames) == Last(old(frames)).(cancelAcknowledged := acknowledged1)
      ensures ok == fault.None?
      ensures Leads(Received(old(Config()), m), Config())
      decreases |script|, 1, 3, 0
    {
      hide Stacks, CancellationRequested, Receive, Leads;
      var service, turn;
      acknowledged1, service, turn := Deliver(m, correlation, deadline, sent, acknowledged0);
      ok := true;
      Here(Received(old(Config()), m));
      if turn.Raised? {
        AbortWith(turn.fault);
        ok := false;
      } else if service.Some? {
        ok := Serve(service.value, deadline);
      }
    }

    /** The second part of a Pump turn: a polling read and what it brought. */
    method ReadAndHandle(correlation: nat, deadline: int, sent: bool, acknowledged0: bool) returns (ok: bool, acknowledged1: bool)
      requires Valid() && fault.None? && frames != [] && Last(frames).serving.None?
      requires var f := Last(frames);
               f.correlation == correlation && f.deadline == deadline && f.cancelSent == sent &&
               f.cancelAcknowledged == acknowledged0
      modifies this
      ensures Valid() && Kept()
      ensures frames != [] && Rest(frames) == Rest(old(frames))
      ensures Last(frames) == Last(old(frames)).(cancelAcknowledged := acknowledged1)
      ensures ok == fault.None?
      ensures ok ==> |script| < |old(script)|
      ensures Leads(Reading(old(Config())), Config())
      decreases |script|, 1, 3, 1
    {
      hide Stacks, Consumed, Leads;
      ok, acknowledged1 := true, acknowledged0;
      Here(Reading(Config()));
      var message, failed := Read();
      if failed {
        AbortWith(IoFailed);
        ok := false;
      } else if message.Some? {
        ok, acknowledged1 := Handle(message.value, correlation, deadline, sent, acknowledged0);
      }
    }

    /** A turn of the machine up to its reading: an answer, an Abort, or a message to wait for. */
    method TopOfTurn(correlation: nat, deadline: int, sent0: bool, acknowledged: bool, status0: Status, grace0: int)
      returns (sent1: bool, status1: Status, grace1: int, turn: Turn)
      requires Valid() && fault.None? && frames != []
      requires Last(frames) == Frame(correlation, deadline, Last(frames).probe, sent0, acknowledged, status0, grace0, None)
      modifies this`outbox, this`pending, this`frames, this`fault, this`answer
      ensures Valid() && old(outbox) <= outbox
      ensures frames != [] && Rest(frames) == Rest(old(frames))
      ensures Last(frames) == Frame(correlation, deadline, old(Last(frames)).probe, sent1, acknowledged, status1, grace1, None)
      ensures fault.Some? == turn.Raised?
      ensures turn.Continue? ==> Reading(Config()) == Turned(old(Config()))
      ensures turn.Returned? ==>
        correlation !in pending && answer == Some(Answer(turn.response)) && Left() == Turned(old(Config()))
      ensures turn.Raised? ==> Config() == Turned(old(Config()))
    {
      hide Stacks, CancellationRequested, WireProtocol.TopOfLoop, Reading;
      sent1, status1, grace1, turn := TopOfLoop(correlation, deadline, sent0, acknowledged, status0, grace0);
      if turn.Returned? {
        answer := Some(Answer(turn.response));
      } else if turn.Raised? {
        AbortWith(turn.fault);
      }
    }

    /**
      Pump: the receive loop of one call, turn by turn the machine's. It returns the
      machine's answer with its call's scope left to the caller, and throws only after
      an Abort that the machine makes too.
    */
    method Pump(correlation: nat, deadline: int) returns (result: CallResult)
      requires Valid() && fault.None? && frames != []
      requires Last(frames) == Frame(correlation, deadline, Last(frames).probe, false, false, Ok, deadline, None)
      modifies this
      ensures Valid() && Kept()
      ensures frames != [] && Rest(frames) == Rest(old(frames))
      ensures result.Answer? ==> fault.None? && correlation !in pending
      ensures result.Threw? ==> fault.Some?
      ensures !result.TooDeep?
      ensures result.Answer? ==> answer == Some(result) && Leads(old(Config()), Left())
      ensures result.Threw? ==> Leads(old(Config()), Config())
      decreases |script|, 1, 3, 2
    {
      hide Stacks, Leads, Steps, Reading, Turned;
      ghost var start := Config();
      Here(start);
      ghost var probe := Last(frames).probe;
      var sent, acknowledged, status, graceEnd := false, false, Ok, deadline;
      while true
        invariant Valid() && Kept() && fault.None?
        invariant frames != [] && Rest(frames) == Rest(old(frames))
        invariant Last(frames) == Frame(correlation, deadline, probe, sent, acknowledged, status, graceEnd, None)
        invariant Leads(start, Config())
        decreases |script|
      {
        ghost var c := Config();
        assert Next(c) == Turned(c);
        hide Next;
        Here(Next(c));
        Turning(start, c, Next(c));
        var turn;
        sent, status, graceEnd, turn := TopOfTurn(correlation, deadline, sent, acknowledged, status, graceEnd);
        if turn.Returned? {
          return Answer(turn.response);
        }
        if turn.Raised? {
          return Threw;
        }
        var ok;
        ok, acknowledged := ReadAndHandle(correlation, deadline, sent, acknowledged);
        Turning(start, c, Config());
        if !ok {
          return Threw;
        }
      }
    }
  }
}
