/**
  The supervisor as a deterministic machine: from one script of messages,
  time-outs, pipe failures and handler behaviour there is exactly one run. Each
  turn of the machine is a short schedule of WireSystem, and WorkerSupervisor.dfy
  shows that the reentrant Call and Pump go through the machine's turns.
*/
module SupervisorMachine {
  import opened Wrappers
  import opened WireProtocol
  import opened WireSystem

  /** One event from outside the supervisor, in the order the supervisor meets them. */
  datatype Occurrence =
    | Arrives(elapsed: nat, probes: set<nat>, message: Envelope)
    | Silence(elapsed: nat, probes: set<nat>)
    | PipeFails
    | HandlerCalls(timeout: int, probe: Option<nat>, delay: nat)
    | HandlerReturns(response: Response)
    | HandlerThrows
    | HandlerStops

  /** How Call ends: a response, the depth error (nothing happened), or an error after Abort. */
  datatype CallResult = Answer(response: Response) | TooDeep | Threw

  /** `answer` is what the call that ended last gave its caller. */
  datatype Machine = Machine(
    generation: nat,
    grace: nat,
    sup: Supervisor,
    now: int,
    latched: set<nat>,
    outbox: seq<Envelope>,
    script: seq<Occurrence>,
    answer: Option<CallResult>)

  function Failed(m: Machine, fault: Fault): Machine {
    m.(sup := Abort(m.sup, fault))
  }

  /** A call enters: answered at once, refused, or dispatched. The clock moves only for a numbered call. */
  function Entered(m: Machine, timeout: int, probe: Option<nat>, delay: nat): Machine {
    var (sup, entry) := Enter(m.sup, m.generation, timeout, probe, m.latched, m.now, m.now + delay);
    var now := if sup.next == m.sup.next then m.now else m.now + delay;
    match entry
    case Answered(response) => m.(sup := sup, now := now, answer := Some(Answer(response)))
    case Refused => m.(sup := sup, now := now, answer := Some(TooDeep))
    case Dispatched(request) => m.(sup := sup, now := now, outbox := m.outbox + [request])
  }

  /** The head of the script is used up, and its time has passed. */
  function Consumed(m: Machine): Machine {
    if m.script == [] then m
    else match m.script[0]
      case Arrives(elapsed, probes, _) =>
        m.(script := m.script[1..], now := m.now + elapsed, latched := m.latched + probes)
      case Silence(elapsed, probes) =>
        m.(script := m.script[1..], now := m.now + elapsed, latched := m.latched + probes)
      case _ => m.(script := m.script[1..])
  }

  function Received(m: Machine, message: Envelope): Machine
    requires m.sup.frames != []
  {
    m.(sup := Receive(m.sup, m.generation, message, m.now, m.latched).0)
  }

  /** The second part of a Pump turn: anything but a message or silence is a failing pipe. */
  function Reading(m: Machine): Machine
    requires m.sup.frames != []
  {
    var c := Consumed(m);
    if m.script != [] && m.script[0].Arrives? then Received(c, m.script[0].message)
    else if m.script != [] && m.script[0].Silence? then c
    else Failed(c, IoFailed)
  }

  /** One turn of the Pump loop. */
  function Turned(m: Machine): Machine
    requires m.sup.frames != []
  {
    var (sup, sent, turn) := TopOfLoop(m.sup, m.generation, m.now, m.latched, m.grace);
    var top := m.(sup := sup, outbox := m.outbox + sent);
    match turn
    case Continue => if sup.frames == [] then top else Reading(top)
    case Returned(response) => top.(answer := Some(Answer(response)))
    case Raised(_) => top
  }

  predicate Serving(m: Machine) {
    m.sup.frames != [] && Last(m.sup.frames).serving.Some? && m.sup.ancestry != []
  }

  function Served(m: Machine, handled: Response): Machine
    requires Serving(m)
  {
    var (sup, reply) := FinishService(m.sup, m.generation, handled, m.now);
    m.(sup := sup, outbox := m.outbox + [reply])
  }

  function Dropped(m: Machine): Machine {
    if m.script == [] then m else m.(script := m.script[1..])
  }

  /** A service request in hand: answered without its handler when blocked, else the handler's next act. */
  function Consulted(m: Machine): Machine
    requires Serving(m)
  {
    var c := Dropped(m);
    if Last(m.sup.frames).serving.value.blocked then Served(m, Plain(Ok, ""))
    else if m.script != [] && m.script[0].HandlerCalls? then
      Entered(c, m.script[0].timeout, m.script[0].probe, m.script[0].delay)
    else if m.script != [] && m.script[0].HandlerReturns? then Served(c, m.script[0].response)
    else if m.script != [] && m.script[0].HandlerStops? then Failed(c, StoppedDuringCall)
    else Failed(c, HandlerThrew)
  }

  /** The machine rests when no call is active or the supervisor has given up. */
  predicate AtRest(m: Machine) {
    m.sup.fault.Some? || m.sup.frames == []
  }

  function Next(m: Machine): Machine {
    if AtRest(m) then m
    else if Last(m.sup.frames).serving.None? then Turned(m)
    else if m.sup.ancestry == [] then m
    else Consulted(m)
  }

  function Steps(m: Machine, n: nat): Machine {
    if n == 0 then m else Next(Steps(m, n - 1))
  }

  /** The same state; after a fault only the scopes that unwinding leaves may differ, and what the script has left. */
  predicate Agrees(c: Machine, m: Machine) {
    if c.sup.fault.None? then c == m
    else
      && c == m.(sup := c.sup, script := c.script, answer := c.answer)
      && c.sup == m.sup.(frames := c.sup.frames, ancestry := c.sup.ancestry, serviceParent := c.sup.serviceParent)
  }

  ghost predicate Leads(a: Machine, c: Machine) {
    exists n: nat :: Agrees(c, Steps(a, n))
  }

  lemma {:induction false} StepsAdd(m: Machine, a: nat, b: nat)
    ensures Steps(m, a + b) == Steps(Steps(m, a), b)
    decreases b
  {
    hide Next;
    if b > 0 {
      StepsAdd(m, a, b - 1);
    }
  }

  lemma Here(m: Machine)
    ensures Leads(m, m)
  {
    hide Next;
    assert Agrees(m, Steps(m, 0));
  }

  lemma OneStep(m: Machine)
    ensures Leads(m, Next(m))
  {
    hide Next;
    assert Next(m) == Steps(m, 1) by {
      assert Steps(m, 0) == m;
    }
    assert Agrees(Next(m), Steps(m, 1));
  }

  /** A turn that has been made and what follows it. */
  lemma Turning(a: Machine, b: Machine, c: Machine)
    requires Leads(a, b) && b.sup.fault.None? && Leads(Next(b), c)
    ensures Leads(a, c)
  {
    hide Next;
    var i: nat :| Agrees(b, Steps(a, i));
    var j: nat :| Agrees(c, Steps(Next(b), j));
    assert Steps(a, i + 1) == Next(b);
    StepsAdd(a, i + 1, j);
    assert Agrees(c, Steps(a, i + 1 + j));
  }

  /** Unwinding after a fault. */
  lemma Unwinding(a: Machine, c: Machine, d: Machine)
    requires Leads(a, c) && c.sup.fault.Some? && Agrees(d, c)
    ensures Leads(a, d)
  {
    hide Next, Steps;
    var n: nat :| Agrees(c, Steps(a, n));
    assert Agrees(d, Steps(a, n));
  }

  lemma {:induction false} RestsForever(m: Machine, n: nat)
    requires AtRest(m)
    ensures Steps(m, n) == m
    decreases n
  {
    hide Turned, Consulted;
    if n > 0 {
      RestsForever(m, n - 1);
    }
  }

  /** A run has one end at most: what an outermost call answers is a function of the state and the script. */
  lemma OneEnd(m: Machine, a: nat, b: nat)
    requires AtRest(Steps(m, a)) && AtRest(Steps(m, b))
    ensures Steps(m, a) == Steps(m, b)
  {
    hide AtRest, Next, Steps;
    if a <= b {
      StepsAdd(m, a, b - a);
      RestsForever(Steps(m, a), b - a);
    } else {
      StepsAdd(m, b, a - b);
      RestsForever(Steps(m, b), a - b);
    }
  }

  // ------------------------------------------------------- the composed system

  /** The supervisor's half of the composed system is the machine. */
  predicate Matches(s: System, m: Machine) {
    s.generation == m.generation && s.grace == m.grace && s.sup == m.sup && s.now == m.now && s.latched == m.latched
  }

  /** The next turn of the machine takes a message off the pipe. */
  predicate Hears(m: Machine) {
    && !AtRest(m) && Last(m.sup.frames).serving.None?
    && TopOfLoop(m.sup, m.generation, m.now, m.latched, m.grace).2.Continue?
    && m.script != [] && m.script[0].Arrives?
  }

  /** What the head of the script makes of the second part of a Pump turn. */
  function ReadSchedule(script: seq<Occurrence>): seq<Action> {
    if script == [] then [SupervisorIoFailure]
    else match script[0]
      case Arrives(elapsed, probes, _) => [Pass(elapsed, probes), SupervisorRead]
      case Silence(elapsed, probes) => [Pass(elapsed, probes)]
      case _ => [SupervisorIoFailure]
  }

  /** What a handler does next; a blocked request has none. */
  function HandlerAction(m: Machine): Action {
    if m.sup.frames != [] && Last(m.sup.frames).serving.Some? && Last(m.sup.frames).serving.value.blocked then
      HandlerDone(Plain(Ok, ""))
    else if m.script == [] then HandlerFailure
    else match m.script[0]
      case HandlerCalls(timeout, probe, delay) => EngineCall(timeout, probe, Delay(m, timeout, probe, delay))
      case HandlerReturns(response) => HandlerDone(response)
      case HandlerStops => SupervisorStop
      case _ => HandlerFailure
  }

  /** The steps of the composed system in the machine's next turn. */
  function TurnSchedule(m: Machine): seq<Action> {
    if AtRest(m) || (Last(m.sup.frames).serving.Some? && m.sup.ancestry == []) then []
    else if Last(m.sup.frames).serving.Some? then [HandlerAction(m)]
    else if TopOfLoop(m.sup, m.generation, m.now, m.latched, m.grace).2.Continue? then
      [SupervisorTop] + ReadSchedule(m.script)
    else [SupervisorTop]
  }

  /** From s, `schedule` does what one turn of the machine does; the worker does not move. */
  ghost predicate Simulates(s: System, m: Machine, schedule: seq<Action>) {
    var t := Run(s, schedule);
    && Matches(t, Next(m)) && t.wrk == s.wrk
    && t.toSup == (if Hears(m) then if s.toSup == [] then [] else s.toSup[1..] else s.toSup)
    && m.outbox <= Next(m).outbox && t.toWorker == s.toWorker + Next(m).outbox[|m.outbox|..]
  }

  lemma RunUnfolds(s: System, schedule: seq<Action>, a: Action)
    ensures Run(s, schedule + [a]) == Step(Run(s, schedule), a)
  {
    hide Step;
    assert Last(schedule + [a]) == a && Rest(schedule + [a]) == schedule;
  }

  /** The supervisor's half put back into the system, with what it has written since. */
  function Placed(s: System, m: Machine, n: Machine): System
    requires m.outbox <= n.outbox
  {
    s.(sup := n.sup, now := n.now, latched := n.latched, toWorker := s.toWorker + n.outbox[|m.outbox|..])
  }

  lemma TopPlaced(s: System, m: Machine)
    requires Matches(s, m) && !Dead(s) && m.sup.frames != [] && Last(m.sup.frames).serving.None?
    ensures var (sup, sent, _) := TopOfLoop(m.sup, m.generation, m.now, m.latched, m.grace);
            Step(s, SupervisorTop) == Placed(s, m, m.(sup := sup, outbox := m.outbox + sent))
  {
    hide TopOfLoop;
    var (sup, sent, _) := TopOfLoop(m.sup, m.generation, m.now, m.latched, m.grace);
    assert (m.outbox + sent)[|m.outbox|..] == sent;
  }

  /** The schedule of a reading, for a machine whose loop goes on. */
  lemma ReadingIsASchedule(s: System, m: Machine)
    requires Matches(s, m) && !Dead(s) && m.sup.frames != [] && Last(m.sup.frames).serving.None?
    requires m.script != [] && m.script[0].Arrives? ==> s.toSup != [] && s.toSup[0] == m.script[0].message
    ensures Reading(m).outbox == m.outbox
    ensures var heard := m.script != [] && m.script[0].Arrives?;
            Run(s, ReadSchedule(m.script)) == Placed(s, m, Reading(m)).(toSup := if heard then s.toSup[1..] else s.toSup)
  {
    hide Receive, Run, WorkerStep;
    if m.script != [] && (m.script[0].Arrives? || m.script[0].Silence?) {
      var pass := Pass(m.script[0].elapsed, m.script[0].probes);
      RunShort(s, pass, SupervisorRead);
    } else {
      RunShort(s, SupervisorIoFailure, SupervisorRead);
    }
  }

  lemma RunShort(s: System, a: Action, b: Action)
    ensures Run(s, [a]) == Step(s, a) && Run(s, [a, b]) == Step(Step(s, a), b)
  {
    hide Step;
    assert Run(s, []) == s;
    RunUnfolds(s, [], a);
    RunUnfolds(s, [a], b);
    assert [] + [a] == [a] && [a] + [b] == [a, b];
  }

  lemma RunOn(s: System, a: Action, rest: seq<Action>)
    ensures Run(s, [a] + rest) == Run(Step(s, a), rest)
    decreases |rest|
  {
    hide Step;
    if rest == [] {
      assert [a] + rest == [] + [a];
      RunUnfolds(s, [], a);
    } else {
      RunOn(s, a, Rest(rest));
      assert [a] + rest == ([a] + Rest(rest)) + [Last(rest)];
      RunUnfolds(s, [a] + Rest(rest), Last(rest));
    }
  }

  lemma PumpIsASchedule(s: System, m: Machine)
    requires Matches(s, m) && !Dead(s) && m.sup.frames != [] && Last(m.sup.frames).serving.None?
    requires Hears(m) ==> s.toSup != [] && s.toSup[0] == m.script[0].message
    ensures Simulates(s, m, TurnSchedule(m))
  {
    TopPlaced(s, m);
    TopKeepsCalm(m);
    hide Step, TopOfLoop, Reading, ReadSchedule;
    var (sup, sent, turn) := TopOfLoop(m.sup, m.generation, m.now, m.latched, m.grace);
    var top := m.(sup := sup, outbox := m.outbox + sent);
    var rest := if turn.Continue? then ReadSchedule(m.script) else [];
    if turn.Continue? {
      ReadingIsASchedule(Step(s, SupervisorTop), top);
    }
    RunOn(s, SupervisorTop, rest);
    assert [SupervisorTop] + [] == [SupervisorTop];
  }

  lemma TopKeepsCalm(m: Machine)
    requires m.sup.fault.None? && m.sup.frames != [] && Last(m.sup.frames).serving.None?
    ensures var (sup, _, turn) := TopOfLoop(m.sup, m.generation, m.now, m.latched, m.grace);
            turn.Continue? ==> sup.fault.None? && sup.frames != [] && Last(sup.frames).serving.None?
  {
    hide CancellationRequested;
  }

  lemma ServedPlaced(s: System, m: Machine, c: Machine, handled: Response)
    requires Matches(s, m) && !Dead(s) && Serving(m) && c == m.(script := c.script)
    ensures var n := Served(c, handled); m.outbox <= n.outbox && n.generation == m.generation && n.grace == m.grace
    ensures Step(s, HandlerDone(handled)) == Placed(s, m, Served(c, handled))
  {
    hide FinishService;
    var (_, reply) := FinishService(m.sup, m.generation, handled, m.now);
    assert (m.outbox + [reply])[|m.outbox|..] == [reply];
  }

  /** A call that gets no number is answered whatever the clock says afterwards. */
  lemma Unnumbered(s: Supervisor, generation: nat, timeout: int, probe: Option<nat>, latched: set<nat>, now: int, written: int)
    requires Enter(s, generation, timeout, probe, latched, now, written).0.next == s.next
    ensures Enter(s, generation, timeout, probe, latched, now, now) == Enter(s, generation, timeout, probe, latched, now, written)
  {
    hide CancellationRequested;
  }

  lemma CallStep(s: System, timeout: int, probe: Option<nat>, delay: nat)
    requires !Dead(s) && (s.sup.frames == [] || Handling(s))
    ensures var (sup, entry) := Enter(s.sup, s.generation, timeout, probe, s.latched, s.now, s.now + delay);
            Step(s, EngineCall(timeout, probe, delay)) ==
              s.(sup := sup, toWorker := s.toWorker + (if entry.Dispatched? then [entry.request] else []), now := s.now + delay)
  {
    hide Enter;
  }

  /** How long a call takes to enter: no time when it gets no number. */
  function Delay(m: Machine, timeout: int, probe: Option<nat>, delay: nat): nat {
    if Enter(m.sup, m.generation, timeout, probe, m.latched, m.now, m.now + delay).0.next == m.sup.next then 0 else delay
  }

  lemma EnteredShape(m: Machine, timeout: int, probe: Option<nat>, delay: nat)
    ensures var d := Delay(m, timeout, probe, delay);
            var (sup, entry) := Enter(m.sup, m.generation, timeout, probe, m.latched, m.now, m.now + d);
            var n := Entered(m, timeout, probe, delay);
            && n == m.(sup := sup, now := m.now + d, answer := n.answer,
                       outbox := m.outbox + (if entry.Dispatched? then [entry.request] else []))
  {
    hide Enter;
    if Delay(m, timeout, probe, delay) == 0 && delay != 0 {
      Unnumbered(m.sup, m.generation, timeout, probe, m.latched, m.now, m.now + delay);
    }
  }

  lemma EnteredPlaced(s: System, m: Machine, c: Machine, timeout: int, probe: Option<nat>, delay: nat)
    requires Matches(s, m) && !Dead(s) && (s.sup.frames == [] || Handling(s)) && c == m.(script := c.script)
    ensures var n := Entered(c, timeout, probe, delay);
            m.outbox <= n.outbox && n.generation == m.generation && n.grace == m.grace
    ensures Step(s, EngineCall(timeout, probe, Delay(m, timeout, probe, delay))) == Placed(s, m, Entered(c, timeout, probe, delay))
  {
    assert Delay(c, timeout, probe, delay) == Delay(m, timeout, probe, delay) by { hide Enter; }
    hide Enter, Entered, Step, Handling, Delay;
    EnteredShape(c, timeout, probe, delay);
    CallStep(s, timeout, probe, Delay(c, timeout, probe, delay));
  }

  lemma HandlerIsASchedule(s: System, m: Machine)
    requires Matches(s, m) && !Dead(s) && Serving(m)
    ensures Simulates(s, m, TurnSchedule(m))
  {
    hide Entered, Served, Delay, Run, WorkerStep, FinishService, Enter, TopOfLoop, Receive;
    var c, action := Dropped(m), HandlerAction(m);
    if Last(m.sup.frames).serving.value.blocked {
      ServedPlaced(s, m, m, Plain(Ok, ""));
    } else if m.script != [] && m.script[0].HandlerCalls? {
      EnteredPlaced(s, m, c, m.script[0].timeout, m.script[0].probe, m.script[0].delay);
    } else if m.script != [] && m.script[0].HandlerReturns? {
      ServedPlaced(s, m, c, m.script[0].response);
    } else if m.script != [] && m.script[0].HandlerStops? {
      assert Step(s, action) == Placed(s, m, Failed(c, StoppedDuringCall));
    } else {
      assert Step(s, action) == Placed(s, m, Failed(c, HandlerThrew));
    }
    hide Step, Run;
    RunShort(s, action, action);
  }

  /** Whatever state the two processes are in, a turn of the machine is this schedule of the supervisor's steps. */
  lemma TurnIsASchedule(s: System, m: Machine)
    requires Matches(s, m) && !Dead(s)
    requires Hears(m) ==> s.toSup != [] && s.toSup[0] == m.script[0].message
    ensures Simulates(s, m, TurnSchedule(m))
  {
    hide Turned, Consulted;
    if AtRest(m) || (Last(m.sup.frames).serving.Some? && m.sup.ancestry == []) {
    } else if Last(m.sup.frames).serving.None? {
      PumpIsASchedule(s, m);
    } else {
      HandlerIsASchedule(s, m);
    }
  }
}
