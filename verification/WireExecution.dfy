/**
  The machine that Call and Pump go through, and the worker's dispatcher, run
  against each other over the two channels. Every such execution is a run of
  WireSystem, so its guarantees hold for the two objects.
*/
module WireExecution {
  import opened Wrappers
  import opened WireProtocol
  import opened WireSystem
  import opened WireGuarantees
  import opened WireAnswers
  import opened SupervisorMachine

  datatype Both = Both(machine: Machine, wrk: Worker, toWorker: seq<Envelope>, toSup: seq<Envelope>)

  /** A step of the worker, an outermost call, or the supervisor's next turn. */
  datatype Move =
    | WorkerMoves(action: Action)
    | Enters(timeout: int, probe: Option<nat>, delay: nat)
    | Turns

  function AsSystem(b: Both): System {
    System(b.machine.generation, b.machine.grace, b.machine.sup, b.wrk, b.toWorker, b.toSup, b.machine.now, b.machine.latched)
  }

  predicate OfWorker(a: Action) {
    a.WorkerRead? || a.WorkerService? || a.WorkerLog? || a.WorkerFinish?
  }

  /** What the supervisor has written goes into the channel. */
  function Written(b: Both, n: Machine): Both {
    b.(machine := n,
       toWorker := b.toWorker + (if b.machine.outbox <= n.outbox then n.outbox[|b.machine.outbox|..] else []))
  }

  /** A turn that needs a message waits until the channel has just that message. */
  predicate Stuck(b: Both) {
    Hears(b.machine) && (b.toSup == [] || b.toSup[0] != b.machine.script[0].message)
  }

  function Moved(b: Both, move: Move): Both {
    if Dead(AsSystem(b)) then b
    else match move
      case WorkerMoves(action) =>
        if !OfWorker(action) then b else
        var t := WorkerStep(AsSystem(b), action);
        b.(wrk := t.wrk, toWorker := t.toWorker, toSup := t.toSup)
      case Enters(timeout, probe, delay) =>
        if b.machine.sup.frames != [] then b else Written(b, Entered(b.machine, timeout, probe, delay))
      case Turns =>
        if Stuck(b) then b else
        Written(b, Next(b.machine)).(toSup := if Hears(b.machine) then b.toSup[1..] else b.toSup)
  }

  function Played(b: Both, moves: seq<Move>): Both {
    if moves == [] then b else Moved(Played(b, Rest(moves)), Last(moves))
  }

  lemma WorkerMoveIsASchedule(b: Both, action: Action)
    requires !Dead(AsSystem(b)) && OfWorker(action)
    ensures AsSystem(Moved(b, WorkerMoves(action))) == Step(AsSystem(b), action)
  {
    hide Accept, RequestService, Finish, Waiting;
  }

  /** The steps of the composed system in one move. */
  function MoveSchedule(b: Both, move: Move): seq<Action> {
    if Dead(AsSystem(b)) then []
    else match move
      case WorkerMoves(action) => if OfWorker(action) then [action] else []
      case Enters(timeout, probe, delay) =>
        if b.machine.sup.frames != [] then [] else [EngineCall(timeout, probe, Delay(b.machine, timeout, probe, delay))]
      case Turns => if Stuck(b) then [] else TurnSchedule(b.machine)
  }

  function PlaySchedule(b: Both, moves: seq<Move>): seq<Action> {
    if moves == [] then [] else PlaySchedule(b, Rest(moves)) + MoveSchedule(Played(b, Rest(moves)), Last(moves))
  }

  lemma MoveIsASchedule(b: Both, move: Move)
    ensures AsSystem(Moved(b, move)) == Run(AsSystem(b), MoveSchedule(b, move))
  {
    hide Step, Next, Entered, WorkerStep, Run, TurnSchedule, Delay, Accept, TopOfLoop;
    var s := AsSystem(b);
    RunNothing(s);
    if Dead(s) {
    } else if move.Turns? {
      if !Stuck(b) { TurnIsASchedule(s, b.machine); }
    } else if move.WorkerMoves? {
      if OfWorker(move.action) {
        WorkerMoveIsASchedule(b, move.action);
        RunShort(s, move.action, move.action);
      }
    } else if b.machine.sup.frames == [] {
      EnteredPlaced(s, b.machine, b.machine, move.timeout, move.probe, move.delay);
      var action := EngineCall(move.timeout, move.probe, Delay(b.machine, move.timeout, move.probe, move.delay));
      RunShort(s, action, action);
    }
  }

  lemma RunNothing(s: System)
    ensures Run(s, []) == s
  {
  }

  lemma {:induction false} RunConcat(s: System, first: seq<Action>, next: seq<Action>)
    ensures Run(s, first + next) == Run(Run(s, first), next)
    decreases |next|
  {
    hide Step;
    if next == [] {
      assert first + next == first;
    } else {
      RunConcat(s, first, Rest(next));
      assert first + next == (first + Rest(next)) + [Last(next)];
      RunUnfolds(s, first + Rest(next), Last(next));
    }
  }

  /** Any execution of the two objects is a run of the composed system. */
  lemma {:induction false} PlayIsARun(b: Both, moves: seq<Move>)
    ensures AsSystem(Played(b, moves)) == Run(AsSystem(b), PlaySchedule(b, moves))
    decreases |moves|
  {
    hide AsSystem, Moved, Step, MoveSchedule;
    if moves != [] {
      var before := PlaySchedule(b, Rest(moves));
      PlayIsARun(b, Rest(moves));
      MoveIsASchedule(Played(b, Rest(moves)), Last(moves));
      RunConcat(AsSystem(b), before, MoveSchedule(Played(b, Rest(moves)), Last(moves)));
    }
  }

  function Opening(generation: nat, grace: nat, now: int, script: seq<Occurrence>): Both {
    var s := Start(generation, grace, now);
    Both(Machine(generation, grace, s.sup, now, {}, [], script, None), s.wrk, [], [])
  }

  /**
    Whatever the handlers do, however time passes and the two ends interleave: the
    worker accepts every message Call and Pump write, no message of the worker fails
    a guard of theirs, and when an outermost call has ended nothing of it is left.
  */
  lemma CallsPassTheirGuards(generation: nat, grace: nat, now: int, script: seq<Occurrence>, moves: seq<Move>)
    ensures var b := Played(Opening(generation, grace, now, script), moves);
            && !b.wrk.failed
            && (b.machine.sup.fault.Some? ==> !IsGuard(b.machine.sup.fault.value))
            && (AtRest(b.machine) && b.machine.sup.fault.None? ==> Idle(AsSystem(b)))
  {
    hide Played, Run, Idle, Inv, PlaySchedule;
    var opening := Opening(generation, grace, now, script);
    var schedule := PlaySchedule(opening, moves);
    PlayIsARun(opening, moves);
    var b := Played(opening, moves);
    assert AsSystem(opening) == Start(generation, grace, now);
    assert AsSystem(b) == Reached(generation, grace, now, schedule);
    EveryMessagePassesItsGuards(generation, grace, now, schedule);
    if AtRest(b.machine) && b.machine.sup.fault.None? {
      DrainedBetweenCalls(generation, grace, now, schedule);
    }
  }

  /** What happened in an execution, told from its steps. */
  function History(generation: nat, grace: nat, now: int, script: seq<Occurrence>, moves: seq<Move>): Chronicle {
    Annals(Start(generation, grace, now), PlaySchedule(Opening(generation, grace, now, script), moves))
  }

  /**
    The answer of a call. A turn ends the innermost call exactly when the worker has
    finished it and nothing more is owed, and what its caller then gets is what the
    worker finished it with, marked if the call was interrupted. Until then no answer
    is given, unless the turn is a handler's call that is not sent.
  */
  lemma TurnAnswers(generation: nat, grace: nat, now: int, script: seq<Occurrence>, moves: seq<Move>)
    requires var b := Played(Opening(generation, grace, now, script), moves);
             !Dead(AsSystem(b)) && Pumping(AsSystem(b)) && !Stuck(b)
    ensures var b, ch := Played(Opening(generation, grace, now, script), moves), History(generation, grace, now, script, moves);
            var c, t := Last(b.machine.sup.frames).correlation, Moved(b, Turns).machine;
            && (|t.sup.frames| < |b.machine.sup.frames| <==>
                  c in b.machine.sup.pending && !HaltDue(AsSystem(b), ch) &&
                  (c in ch.cancelled ==>
                     Last(b.machine.sup.frames).cancelAcknowledged && b.machine.now < ch.cancelled[c].at + grace))
            && (if |t.sup.frames| < |b.machine.sup.frames|
                then c in ch.told && t.answer == Some(Answer(AnswerDue(ch, c)))
                else t.answer == b.machine.answer)
  {
    var b, ch := Played(Opening(generation, grace, now, script), moves), History(generation, grace, now, script, moves);
    HistoryIsTrue(generation, grace, now, script, moves);
    hide Played, History, Opening, Recorded, HaltDue, AnswerDue;
    TopTold(AsSystem(b), ch);
    TurnPops(b.machine);
    hide Next, TopOfLoop;
  }

  lemma HistoryIsTrue(generation: nat, grace: nat, now: int, script: seq<Occurrence>, moves: seq<Move>)
    ensures var b, ch := Played(Opening(generation, grace, now, script), moves), History(generation, grace, now, script, moves);
            b.machine.grace == grace && (b.machine.sup.fault.None? ==>
              && Recorded(AsSystem(b), ch)
              && (b.machine.sup.frames != [] ==>
                    Last(b.machine.sup.frames).cancelAcknowledged ==> Last(b.machine.sup.frames).cancelSent))
  {
    var opening := Opening(generation, grace, now, script);
    var schedule := PlaySchedule(opening, moves);
    var b := Played(opening, moves);
    PlayIsARun(opening, moves);
    assert AsSystem(opening) == Start(generation, grace, now);
    AnnalsAreTrue(generation, grace, now, schedule);
    ReachedKeeps(generation, grace, now, schedule);
    Constant(Start(generation, grace, now), schedule);
    hide Played, Run, Annals, PlaySchedule, Coherent, Recorded;
    if b.machine.sup.fault.None? && b.machine.sup.frames != [] { AcknowledgedWasSent(AsSystem(b)); }
  }

  /** A turn of the loop takes a frame off the stack, and gives an answer, exactly when its top returns. */
  lemma TurnPops(m: Machine)
    requires !AtRest(m) && Last(m.sup.frames).serving.None?
    ensures var turn := TopOfLoop(m.sup, m.generation, m.now, m.latched, m.grace).2;
            if turn.Returned? then |Next(m).sup.frames| < |m.sup.frames| && Next(m).answer == Some(Answer(turn.response))
            else |Next(m).sup.frames| == |m.sup.frames| && Next(m).answer == m.answer
  {
    TopHeight(m);
    hide TopOfLoop, CancellationRequested, Active;
  }

  lemma TopHeight(m: Machine)
    requires m.sup.frames != []
    ensures var (sup, _, turn) := TopOfLoop(m.sup, m.generation, m.now, m.latched, m.grace);
            |sup.frames| == |m.sup.frames| - (if turn.Returned? then 1 else 0)
  {
    hide CancellationRequested;
  }

  /** A call that is not sent is answered at once, and one that is sent not yet. */
  lemma EntryIsAnswered(m: Machine, timeout: int, probe: Option<nat>, delay: nat)
    ensures var entry := Enter(m.sup, m.generation, timeout, probe, m.latched, m.now, m.now + delay).1;
            Entered(m, timeout, probe, delay).answer ==
              match entry
              case Answered(response) => Some(Answer(response))
              case Refused => Some(TooDeep)
              case Dispatched(_) => m.answer
  {
    hide Enter;
  }
}
