/**
  A concrete run of the wire protocol in which the deadline passes while the
  result is in flight: what the guarantees are about does happen.
*/
module WireCrossing {
  import opened Wrappers
  import opened WireProtocol
  import opened WireSystem
  import opened WireGuarantees

  const LATE := 1 * TICKS_PER_MS

  function CallFrame(cancelSent: bool, acknowledged: bool): Frame {
    Frame(2, LATE, None, cancelSent, acknowledged, if cancelSent then TimedOut else Ok,
          if cancelSent then LATE + 5 else LATE, None)
  }

  function Calling(cancelSent: bool, acknowledged: bool, pending: map<nat, Response>): Supervisor {
    Supervisor(None, 4, 0, 0, [CallFrame(cancelSent, acknowledged)], [], pending)
  }

  function Finished(marked: bool): Worker {
    Worker(false, map[], map[], Tombstones([2], map[2 := marked]), 3, 2)
  }

  function Answer(response: Response): Envelope {
    Envelope(1, 2, 0, Reply(response))
  }

  /** The states of the run, after each of its actions. */
  function Stage(n: nat, response: Response): System
    requires n <= 8
  {
    match n
    case 0 => Start(1, 5, 0)
    case 1 => System(1, 5, Calling(false, false, map[]), Start(1, 5, 0).wrk, [Envelope(1, 2, 0, Request(EngineOperation, ""))], [], 0, {})
    case 2 => System(1, 5, Calling(false, false, map[]), Worker(false, map[2 := false], map[], Tombstones([], map[]), 3, 2), [], [], 0, {})
    case 3 => System(1, 5, Calling(false, false, map[]), Finished(false), [], [Answer(response)], 0, {})
    case 4 => System(1, 5, Calling(false, false, map[]), Finished(false), [], [Answer(response)], LATE, {})
    case 5 => System(1, 5, Calling(true, false, map[]), Finished(false), [Envelope(1, 2, 0, Cancel(false))], [Answer(response)], LATE, {})
    case 6 => System(1, 5, Calling(true, false, map[]), Finished(true), [], [Answer(response), Acknowledge(1, 2)], LATE, {})
    case 7 => System(1, 5, Calling(true, false, map[2 := response]), Finished(true), [], [Acknowledge(1, 2)], LATE, {})
    case _ => System(1, 5, Calling(true, true, map[2 := response]), Finished(true), [], [], LATE, {})
  }

  function Crossing(response: Response): seq<Action> {
    [EngineCall(1, None, 0), WorkerRead, WorkerFinish(2, response), Pass(LATE, {}),
     SupervisorTop, WorkerRead, SupervisorRead, SupervisorRead]
  }

  lemma CallIsSent(response: Response)
    ensures Step(Stage(0, response), EngineCall(1, None, 0)) == Stage(1, response)
  {
    hide WorkerStep, Accept, Finish, Receive, TopOfLoop, FinishService;
    var s := Stage(0, response);
    assert Enter(s.sup, 1, 1, None, {}, 0, 0) ==
      (Calling(false, false, map[]), Dispatched(Envelope(1, 2, 0, Request(EngineOperation, "")))) by {
      assert [] + [CallFrame(false, false)] == [CallFrame(false, false)];
    }
    hide Enter;
  }

  lemma CallArrives(response: Response)
    ensures Step(Stage(1, response), WorkerRead) == Stage(2, response)
  {
    hide SupervisorStep, Finish;
  }

  lemma CallIsFinished(response: Response)
    ensures Step(Stage(2, response), WorkerFinish(2, response)) == Stage(3, response)
    ensures Step(Stage(3, response), Pass(LATE, {})) == Stage(4, response)
  {
    hide SupervisorStep, Accept;
    assert !Waiting(Stage(2, response).wrk, 2);
  }

  lemma CancelIsSent(response: Response)
    ensures Step(Stage(4, response), SupervisorTop) == Stage(5, response)
  {
    hide WorkerStep, Accept, Finish, Receive, Enter, FinishService, CancellationRequested;
    var s := Stage(4, response);
    assert CancelIfDue(s.sup, 1, LATE, {}, 5) == (Calling(true, false, map[]), [Envelope(1, 2, 0, Cancel(false))]) by {
      assert Rest([CallFrame(false, false)]) + [CallFrame(true, false)] == [CallFrame(true, false)];
    }
    hide CancelIfDue;
  }

  lemma CancelFindsTombstone(response: Response)
    ensures Step(Stage(5, response), WorkerRead) == Stage(6, response)
  {
    hide SupervisorStep, Finish;
    assert map[2 := false][2 := true] == map[2 := true];
  }

  lemma ResultThenAck(response: Response)
    ensures Step(Stage(6, response), SupervisorRead) == Stage(7, response)
    ensures Step(Stage(7, response), SupervisorRead) == Stage(8, response)
  {
    hide WorkerStep, Accept, Finish, Enter, TopOfLoop, FinishService;
  }

  lemma {:induction false} CrossingReaches(response: Response, n: nat)
    requires n <= 8
    ensures Run(Start(1, 5, 0), Crossing(response)[..n]) == Stage(n, response)
  {
    hide Step, Stage;
    CallIsSent(response);
    CallArrives(response);
    CallIsFinished(response);
    CancelIsSent(response);
    CancelFindsTombstone(response);
    ResultThenAck(response);
    if n > 0 {
      CrossingReaches(response, n - 1);
      assert Rest(Crossing(response)[..n]) == Crossing(response)[..n - 1];
    } else {
      assert Stage(0, response) == Start(1, 5, 0) by { FirstStage(response); }
    }
  }

  lemma FirstStage(response: Response)
    ensures Stage(0, response) == Start(1, 5, 0)
  {
  }

  /** Such runs exist: the CANCEL finds a tombstone, the call drains the ACK and returns the worker's result as timed out. */
  lemma CancellationCanCrossItsResult(response: Response)
    ensures var s := Reached(1, 5, 0, Crossing(response));
            && !Dead(s) && Pumping(s) && Last(s.sup.frames).cancelSent
            && s.wrk.calls == map[] && s.wrk.completed.marked == map[2 := true]
            && TopOfLoop(s.sup, s.generation, s.now, s.latched, s.grace).2 == Returned(Interrupt(response, TimedOut))
  {
    CrossingReaches(response, 8);
    assert Crossing(response)[..8] == Crossing(response);
    hide Run, Step;
  }
}
