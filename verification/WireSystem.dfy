/**
  Supervisor and worker composed over two FIFO channels, under every
  interleaving of their steps, of time and of cancellation requests.

  The only restriction on the worker is the one its dispatcher imposes on a
  well-behaved extension: a call awaits each of its service requests before it
  does anything else that ends in the next request or in its terminal reply.
*/
module WireSystem {
  import opened Wrappers
  import opened WireProtocol

  datatype System = System(
    generation: nat,
    grace: nat,
    sup: Supervisor,
    wrk: Worker,
    toWorker: seq<Envelope>,
    toSup: seq<Envelope>,
    now: int,
    latched: set<nat>)

  /** Every nondeterministic choice of the two processes and their surroundings. */
  datatype Action =
    | Pass(ticks: nat, probes: set<nat>)
    | EngineCall(timeout: int, probe: Option<nat>, delay: nat)
    | SupervisorTop
    | SupervisorRead
    | HandlerDone(handled: Response)
    | SupervisorIoFailure
    | HandlerFailure
    | SupervisorStop
    | WorkerRead
    | WorkerService(call: nat, operation: Operation, key: string)
    | WorkerLog(call: nat)
    | WorkerFinish(call: nat, response: Response)

  function Start(generation: nat, grace: nat, now: int): System {
    System(generation, grace,
           Supervisor(None, 2, 0, 0, [], [], map[]),
           Worker(false, map[], map[], Tombstones([], map[]), 3, 0),
           [], [], now, {})
  }

  predicate Dead(s: System) {
    s.sup.fault.Some? || s.wrk.failed
  }

  /** The innermost frame runs its Pump loop. */
  predicate Pumping(s: System) {
    s.sup.frames != [] && Last(s.sup.frames).serving.None?
  }

  /** The innermost frame runs a service handler that may call the worker again. */
  predicate Handling(s: System) {
    s.sup.frames != [] && Last(s.sup.frames).serving.Some? && !Last(s.sup.frames).serving.value.blocked
  }

  function SupervisorStep(s: System, a: Action): System {
    match a
    case EngineCall(timeout, probe, delay) =>
      if !(s.sup.frames == [] || Handling(s)) then s else
      var (sup, entry) := Enter(s.sup, s.generation, timeout, probe, s.latched, s.now, s.now + delay);
      var sent := if entry.Dispatched? then [entry.request] else [];
      s.(sup := sup, toWorker := s.toWorker + sent, now := s.now + delay)
    case SupervisorTop =>
      if !Pumping(s) then s else
      var (sup, sent, _) := TopOfLoop(s.sup, s.generation, s.now, s.latched, s.grace);
      s.(sup := sup, toWorker := s.toWorker + sent)
    case SupervisorRead =>
      if !Pumping(s) || s.toSup == [] then s else
      var (sup, _) := Receive(s.sup, s.generation, s.toSup[0], s.now, s.latched);
      s.(sup := sup, toSup := s.toSup[1..])
    case HandlerDone(handled) =>
      if s.sup.frames == [] || Last(s.sup.frames).serving.None? || s.sup.ancestry == [] then s else
      var (sup, reply) := FinishService(s.sup, s.generation, handled, s.now);
      s.(sup := sup, toWorker := s.toWorker + [reply])
    case SupervisorIoFailure =>
      if s.sup.frames == [] then s else s.(sup := Abort(s.sup, IoFailed))
    case HandlerFailure =>
      if !Handling(s) then s else s.(sup := Abort(s.sup, HandlerThrew))
    case SupervisorStop =>
      if s.sup.frames == [] then s else s.(sup := Abort(s.sup, StoppedDuringCall))
    case _ => s
  }

  function WorkerStep(s: System, a: Action): System {
    match a
    case WorkerRead =>
      if s.toWorker == [] then s else
      var (wrk, sent) := Accept(s.wrk, s.generation, s.toWorker[0]);
      s.(wrk := wrk, toWorker := s.toWorker[1..], toSup := s.toSup + sent)
    case WorkerService(call, operation, key) =>
      if call !in s.wrk.calls || Waiting(s.wrk, call) || operation.EngineOperation? then s else
      var (wrk, request) := RequestService(s.wrk, s.generation, call, operation, key);
      s.(wrk := wrk, toSup := s.toSup + [request])
    case WorkerLog(call) =>
      if call !in s.wrk.calls then s else
      s.(toSup := s.toSup + [Envelope(s.generation, call, 0, Event)])
    case WorkerFinish(call, response) =>
      if call !in s.wrk.calls || Waiting(s.wrk, call) then s else
      var (wrk, reply) := Finish(s.wrk, s.generation, call, response);
      s.(wrk := wrk, toSup := s.toSup + [reply])
    case _ => s
  }

  function Step(s: System, a: Action): System {
    if Dead(s) then s
    else match a
      case Pass(ticks, probes) => s.(now := s.now + ticks, latched := s.latched + probes)
      case WorkerRead => WorkerStep(s, a)
      case WorkerService(_, _, _) => WorkerStep(s, a)
      case WorkerLog(_) => WorkerStep(s, a)
      case WorkerFinish(_, _) => WorkerStep(s, a)
      case _ => SupervisorStep(s, a)
  }

  /** The state after a whole schedule. */
  function Run(s: System, schedule: seq<Action>): System
    decreases |schedule|
  {
    if schedule == [] then s else Step(Run(s, Rest(schedule)), Last(schedule))
  }

  // ----------------------------------------------------------------- invariant

  /** Where control over the innermost call currently is. */
  datatype Baton =
    | Queued
    | Working
    | Asking(service: nat, operation: Operation, key: string)
    | Serving(service: nat)
    | Answering(service: nat, answer: Response)
    | Reporting(report: Response)
    | Stored(stored: Response)

  /** Where the cancellation of the innermost call currently is. */
  datatype CancelStage = NotSent | InPipe | AckInPipe | Acked

  function Control(q: seq<Envelope>): seq<Envelope> {
    if q == [] then [] else (if q[0].body.Event? then [] else [q[0]]) + Control(q[1..])
  }

  lemma {:induction false} ControlAppends(q: seq<Envelope>, m: Envelope)
    ensures Control(q + [m]) == Control(q) + (if m.body.Event? then [] else [m])
  {
    if q == [] {
      assert q + [m] == [m];
    } else {
      ControlAppends(q[1..], m);
      assert (q + [m])[1..] == q[1..] + [m];
    }
  }

  lemma {:induction false} ControlMember(q: seq<Envelope>, i: nat)
    requires i < |q| && !q[i].body.Event?
    ensures q[i] in Control(q)
  {
    if i > 0 {
      ControlMember(q[1..], i - 1);
    }
  }

  ghost predicate Live(b: Baton) {
    b.Working? || b.Asking? || b.Serving? || b.Answering?
  }

  ghost predicate Owned(b: Baton) {
    b.Asking? || b.Serving? || b.Answering?
  }

  function BatonToWorker(g: nat, c: nat, parent: nat, b: Baton): seq<Envelope> {
    match b
    case Queued => [Envelope(g, c, parent, Request(EngineOperation, ""))]
    case Answering(service, answer) => [Envelope(g, service, 0, Reply(answer))]
    case _ => []
  }

  function BatonToSup(g: nat, c: nat, b: Baton): seq<Envelope> {
    match b
    case Asking(service, operation, key) => [Envelope(g, service, c, Request(operation, key))]
    case Reporting(report) => [Envelope(g, c, 0, Reply(report))]
    case _ => []
  }

  function CancelToWorker(g: nat, c: nat, k: CancelStage): seq<Envelope> {
    if k.InPipe? then [Envelope(g, c, 0, Cancel(false))] else []
  }

  function CancelToSup(g: nat, c: nat, k: CancelStage): seq<Envelope> {
    if k.AckInPipe? then [Acknowledge(g, c)] else []
  }

  ghost predicate Seen(k: CancelStage) {
    k.AckInPipe? || k.Acked?
  }

  /** The service request being handled just below frame i. */
  function ServiceBelow(frames: seq<Frame>, i: nat): nat
    requires i <= |frames|
  {
    if i == 0 || frames[i - 1].serving.None? then 0 else frames[i - 1].serving.value.correlation
  }

  predicate InnermostPumps(frames: seq<Frame>) {
    frames != [] && Last(frames).serving.None?
  }

  /** The nesting discipline of the three stacks. */
  ghost predicate Stacks(frames: seq<Frame>, next: nat) {
    && |frames| <= MAX_DEPTH
    && next % 2 == 0 && next >= 2
    && (forall i :: 0 <= i < |frames| ==> frames[i].correlation % 2 == 0 && 2 <= frames[i].correlation < next)
    && (forall i, j :: 0 <= i < j < |frames| ==> frames[i].correlation < frames[j].correlation)
    && (forall i, j :: 0 <= i < j < |frames| ==> frames[j].deadline <= frames[i].deadline)
  }

  /** Every frame below the innermost is inside a service handler and was never cancelled. */
  ghost predicate Outer(frames: seq<Frame>) {
    forall i :: 0 <= i < |frames| - 1 ==>
      && frames[i].serving.Some? && !frames[i].serving.value.blocked
      && !frames[i].cancelSent && !frames[i].cancelAcknowledged
  }

  ghost predicate Parents(frames: seq<Frame>, serviceParent: nat) {
    && (forall i {:trigger ServiceBelow(frames, i)} :: 0 <= i < |frames| && frames[i].serving.Some? ==>
          frames[i].serving.value.previous == ServiceBelow(frames, i))
    && serviceParent == ServiceBelow(frames, if InnermostPumps(frames) then |frames| - 1 else |frames|)
  }

  /** A frame that sent its cancellation can prove it: its deadline passed or a probe fires for good. */
  ghost predicate Justified(frames: seq<Frame>, now: int, latched: set<nat>) {
    forall i :: 0 <= i < |frames| && frames[i].cancelSent ==>
      now >= frames[i].deadline || CancellationRequested(frames, latched)
  }

  ghost predicate Nesting(sup: Supervisor, now: int, latched: set<nat>) {
    && Stacks(sup.frames, sup.next)
    && Outer(sup.frames)
    && Parents(sup.frames, sup.serviceParent)
    && Justified(sup.frames, now, latched)
    && |sup.ancestry| == (if InnermostPumps(sup.frames) then |sup.frames| - 1 else |sup.frames|)
  }

  ghost predicate Graves(t: Tombstones, calls: map<nat, bool>, lastRequest: nat) {
    && |t.order| <= MAX_TOMBSTONES
    && (forall i, j :: 0 <= i < j < |t.order| ==> t.order[i] != t.order[j])
    && (forall c :: c in t.marked <==> c in t.order)
    && (forall c :: c in t.marked ==> c !in calls && c <= lastRequest)
  }

  ghost predicate Calls(frames: seq<Frame>, calls: map<nat, bool>, lastRequest: nat) {
    forall c :: c in calls ==> Active(frames, c) && c <= lastRequest
  }

  ghost predicate Requests(calls: map<nat, bool>, pending: map<nat, nat>, nextRequest: nat) {
    && (forall v :: v in pending ==> v % 2 == 1 && v < nextRequest && pending[v] in calls)
    && (forall v, w :: v in pending && w in pending && pending[v] == pending[w] ==> v == w)
  }

  ghost predicate WorkerShape(sup: Supervisor, wrk: Worker) {
    && wrk.nextRequest % 2 == 1
    && sup.lastService < wrk.nextRequest
    && wrk.lastRequest < sup.next
    && Graves(wrk.completed, wrk.calls, wrk.lastRequest)
    && Calls(sup.frames, wrk.calls, wrk.lastRequest)
    && Requests(wrk.calls, wrk.pending, wrk.nextRequest)
  }

  /** Each outer call is suspended in the worker on the request its frame is serving. */
  ghost predicate OuterCalls(frames: seq<Frame>, calls: map<nat, bool>, pending: map<nat, nat>) {
    forall i :: 0 <= i < |frames| - 1 && frames[i].serving.Some? ==>
      && frames[i].correlation in calls && !calls[frames[i].correlation]
      && frames[i].serving.value.correlation in pending
      && pending[frames[i].serving.value.correlation] == frames[i].correlation
  }

  ghost predicate Events(generation: nat, frames: seq<Frame>, toSup: seq<Envelope>) {
    forall i :: 0 <= i < |toSup| && toSup[i].body.Event? ==>
      toSup[i].generation == generation && Active(frames, toSup[i].correlation)
  }

  ghost predicate Common(s: System) {
    && Nesting(s.sup, s.now, s.latched)
    && WorkerShape(s.sup, s.wrk)
    && OuterCalls(s.sup.frames, s.wrk.calls, s.wrk.pending)
    && Events(s.generation, s.sup.frames, s.toSup)
  }

  ghost predicate Idle(s: System) {
    && s.sup.frames == []
    && s.toWorker == [] && s.toSup == []
    && s.sup.pending == map[]
    && s.wrk.calls == map[] && s.wrk.pending == map[]
  }

  ghost predicate Down(g: nat, c: nat, parent: nat, toWorker: seq<Envelope>, b: Baton, k: CancelStage) {
    var work, stop := BatonToWorker(g, c, parent, b), CancelToWorker(g, c, k);
    toWorker == work + stop || (!b.Queued? && toWorker == stop + work)
  }

  ghost predicate Up(g: nat, c: nat, control: seq<Envelope>, b: Baton, k: CancelStage) {
    var work, ack := BatonToSup(g, c, b), CancelToSup(g, c, k);
    control == work + ack || control == ack + work
  }

  /** Events of the innermost call come after its request and before its terminal reply. */
  ghost predicate EventsFirst(c: nat, toSup: seq<Envelope>, b: Baton) {
    && (b.Queued? || b.Stored? ==> forall i :: 0 <= i < |toSup| && toSup[i].body.Event? ==> toSup[i].correlation != c)
    && (forall i, j :: 0 <= i < j < |toSup| && toSup[i].body.Reply? && toSup[j].body.Event? ==>
          toSup[j].correlation != c)
  }

  /** The innermost call as the worker sees it. */
  ghost predicate InnerCall(c: nat, wrk: Worker, b: Baton, k: CancelStage) {
    && (Live(b) <==> c in wrk.calls)
    && (Live(b) ==> wrk.calls[c] == Seen(k))
    && (b.Queued? ==> wrk.lastRequest < c && !Seen(k))
    && (!b.Queued? ==> c <= wrk.lastRequest)
    && (b.Reporting? || b.Stored? ==> c in wrk.completed.marked && wrk.completed.marked[c] == Seen(k))
    && (Owned(b) ==> b.service in wrk.pending && wrk.pending[b.service] == c)
    && (b.Working? ==> !Waiting(wrk, c))
  }

  ghost predicate InnerFrame(f: Frame, sup: Supervisor, b: Baton, k: CancelStage) {
    && f.cancelSent == !k.NotSent?
    && f.cancelAcknowledged == k.Acked?
    && (f.cancelSent ==> f.interrupted.TimedOut? || f.interrupted.Cancelled?)
    && (b.Serving? <==> f.serving.Some?)
    && (b.Serving? ==> f.serving.value.correlation == b.service)
    && (b.Asking? ==> sup.lastService < b.service && !b.operation.EngineOperation?)
    && sup.pending == (if b.Stored? then map[f.correlation := b.stored] else map[])
  }

  ghost predicate Busy(s: System, b: Baton, k: CancelStage) {
    && s.sup.frames != []
    && var f := Last(s.sup.frames);
    && Down(s.generation, f.correlation, s.sup.serviceParent, s.toWorker, b, k)
    && Up(s.generation, f.correlation, Control(s.toSup), b, k)
    && EventsFirst(f.correlation, s.toSup, b)
    && InnerCall(f.correlation, s.wrk, b, k)
    && InnerFrame(f, s.sup, b, k)
  }

  ghost predicate Coherent(s: System) {
    && Common(s)
    && (Idle(s) || exists b: Baton, k: CancelStage :: Busy(s, b, k))
  }

  /** The invariant of the composed system. */
  ghost predicate Inv(s: System) {
    && !s.wrk.failed
    && (s.sup.fault.None? ==> Coherent(s))
    && (s.sup.fault.Some? ==> !IsGuard(s.sup.fault.value))
  }

  // ------------------------------------------------------- one lemma per action

  lemma Initially(generation: nat, grace: nat, now: int)
    ensures Inv(Start(generation, grace, now))
  {
  }

  lemma JustifiedLater(frames: seq<Frame>, now: int, latched: set<nat>, now': int, latched': set<nat>)
    requires Justified(frames, now, latched) && now <= now' && latched <= latched'
    ensures Justified(frames, now', latched')
  {
    if CancellationRequested(frames, latched) {
      var i :| 0 <= i < |frames| && Probed(frames[i].probe, latched);
      assert Probed(frames[i].probe, latched');
    }
  }

  lemma PassKeeps(s: System, ticks: nat, probes: set<nat>)
    requires !Dead(s) && Coherent(s)
    ensures Coherent(Step(s, Pass(ticks, probes)))
  {
    var t := Step(s, Pass(ticks, probes));
    JustifiedLater(s.sup.frames, s.now, s.latched, t.now, t.latched);
    if !Idle(s) {
      var b: Baton, k: CancelStage :| Busy(s, b, k);
      assert Busy(t, b, k);
    }
  }

  lemma UpHasNoReply(g: nat, c: nat, control: seq<Envelope>, b: Baton, k: CancelStage, m: Envelope)
    requires Up(g, c, control, b, k) && !b.Reporting? && m in control
    ensures !m.body.Reply?
  {
  }

  /** While the innermost call is live, no terminal reply of it is in the pipe. */
  lemma NoReplyWhileLive(g: nat, c: nat, toSup: seq<Envelope>, b: Baton, k: CancelStage)
    requires Up(g, c, Control(toSup), b, k) && !b.Reporting?
    ensures forall i :: 0 <= i < |toSup| ==> !toSup[i].body.Reply?
  {
    hide Up;
    forall i | 0 <= i < |toSup| ensures !toSup[i].body.Reply? {
      if toSup[i].body.Reply? {
        ControlMember(toSup, i);
        UpHasNoReply(g, c, Control(toSup), b, k, toSup[i]);
      }
    }
  }

  lemma LogEvents(g: nat, c: nat, toSup: seq<Envelope>, b: Baton, k: CancelStage, call: nat)
    requires Up(g, c, Control(toSup), b, k) && EventsFirst(c, toSup, b)
    requires call == c ==> Live(b)
    ensures var grown := toSup + [Envelope(g, call, 0, Event)];
            Control(grown) == Control(toSup) && EventsFirst(c, grown, b)
  {
    ControlAppends(toSup, Envelope(g, call, 0, Event));
    if call == c {
      NoReplyWhileLive(g, c, toSup, b, k);
    }
  }

  lemma LogKeeps(s: System, call: nat)
    requires !Dead(s) && Coherent(s)
    ensures Coherent(Step(s, WorkerLog(call)))
    ensures call in s.wrk.calls ==> Step(s, WorkerLog(call)) == s.(toSup := s.toSup + [Envelope(s.generation, call, 0, Event)])
  {
    if call in s.wrk.calls {
      var t := Step(s, WorkerLog(call));
      var b: Baton, k: CancelStage :| Busy(s, b, k);
      LogEvents(s.generation, Last(s.sup.frames).correlation, s.toSup, b, k, call);
      assert Busy(t, b, k);
    }
  }

  // Worker steps.

  /** A call that is not waiting is the innermost one, and the worker holds the baton. */
  lemma OnlyInnermostRuns(s: System, b: Baton, k: CancelStage, call: nat)
    requires Common(s) && Busy(s, b, k) && call in s.wrk.calls && !Waiting(s.wrk, call)
    ensures call == Last(s.sup.frames).correlation && b.Working?
  {
    assert Active(s.sup.frames, call);
    var i :| 0 <= i < |s.sup.frames| && s.sup.frames[i].correlation == call;
  }

  lemma AskingComponents(g: nat, c: nat, wrk: Worker, sup: Supervisor, toSup: seq<Envelope>, b: Baton, k: CancelStage,
                         operation: Operation, key: string)
    requires WorkerShape(sup, wrk) && InnerCall(c, wrk, b, k) && b.Working?
    requires Up(g, c, Control(toSup), b, k) && EventsFirst(c, toSup, b) && !operation.EngineOperation?
    requires OuterCalls(sup.frames, wrk.calls, wrk.pending)
    ensures var (wrk', request) := RequestService(wrk, g, c, operation, key);
            var b' := Asking(wrk.nextRequest, operation, key);
            && WorkerShape(sup, wrk') && InnerCall(c, wrk', b', k)
            && OuterCalls(sup.frames, wrk'.calls, wrk'.pending)
            && Up(g, c, Control(toSup + [request]), b', k) && EventsFirst(c, toSup + [request], b')
  {
    hide Graves, Calls;
    ControlAppends(toSup, Envelope(g, wrk.nextRequest, c, Request(operation, key)));
    assert wrk.pending[wrk.nextRequest := c][wrk.nextRequest] == c;
  }

  lemma ServiceStep(s: System, b: Baton, k: CancelStage, call: nat, operation: Operation, key: string)
    requires Common(s) && Busy(s, b, k) && !operation.EngineOperation?
    requires call in s.wrk.calls && !Waiting(s.wrk, call)
    ensures var t := WorkerStep(s, WorkerService(call, operation, key));
            Common(t) && Busy(t, Asking(s.wrk.nextRequest, operation, key), k)
  {
    hide Nesting, Graves, Calls, Requests, OuterCalls, Up, EventsFirst, InnerCall, Waiting, Control, Events;
    OnlyInnermostRuns(s, b, k, call);
    AskingComponents(s.generation, call, s.wrk, s.sup, s.toSup, b, k, operation, key);
    EventsGrow(s.generation, s.sup.frames, s.toSup, Envelope(s.generation, s.wrk.nextRequest, call, Request(operation, key)));
  }

  lemma BuryKeeps(t: Tombstones, calls: map<nat, bool>, lastRequest: nat, call: nat)
    requires Graves(t, calls, lastRequest) && call in calls && call <= lastRequest
    ensures var u := Bury(t, call, calls[call]);
            && Graves(u, calls - {call}, lastRequest)
            && call in u.marked && u.marked[call] == calls[call]
  {
    var order, marked := t.order + [call], t.marked[call := calls[call]];
    assert forall c :: c in marked <==> c in order;
    OrderSize(order, marked);
    if |marked| > MAX_TOMBSTONES {
      DropOldest(order, marked);
    }
  }

  /** Dropping the oldest entry keeps the dictionary and its insertion order in step. */
  lemma DropOldest(order: seq<nat>, marked: map<nat, bool>)
    requires order != []
    requires forall i, j :: 0 <= i < j < |order| ==> order[i] != order[j]
    requires forall c :: c in marked <==> c in order
    ensures forall c :: c in marked - {order[0]} <==> c in order[1..]
  {
    forall c | c in order && c != order[0] ensures c in order[1..] {
      var i :| 0 <= i < |order| && order[i] == c;
      assert order[1..][i - 1] == c;
    }
  }

  ghost function Elements(order: seq<nat>): set<nat> {
    set c | c in order
  }

  lemma {:induction false} DistinctSize(order: seq<nat>)
    requires forall i, j :: 0 <= i < j < |order| ==> order[i] != order[j]
    ensures |Elements(order)| == |order|
  {
    if order != [] {
      DistinctSize(order[1..]);
      assert Elements(order) == Elements(order[1..]) + {order[0]};
    }
  }

  /** A dictionary has as many entries as its insertion order. */
  lemma OrderSize(order: seq<nat>, marked: map<nat, bool>)
    requires forall i, j :: 0 <= i < j < |order| ==> order[i] != order[j]
    requires forall c :: c in marked <==> c in order
    ensures |marked| == |order|
  {
    DistinctSize(order);
    assert marked.Keys == Elements(order);
  }

  lemma FinishEvents(g: nat, c: nat, toSup: seq<Envelope>, b: Baton, k: CancelStage, response: Response)
    requires Up(g, c, Control(toSup), b, k) && b.Working?
    ensures var grown := toSup + [Envelope(g, c, 0, Reply(response))];
            Up(g, c, Control(grown), Reporting(response), k) && EventsFirst(c, grown, Reporting(response))
  {
    ControlAppends(toSup, Envelope(g, c, 0, Reply(response)));
    NoReplyWhileLive(g, c, toSup, b, k);
  }

  lemma FinishOuterCalls(frames: seq<Frame>, next: nat, calls: map<nat, bool>, pending: map<nat, nat>)
    requires Stacks(frames, next) && frames != [] && OuterCalls(frames, calls, pending)
    ensures OuterCalls(frames, calls - {Last(frames).correlation}, pending)
  {
  }

  lemma FinishRequests(wrk: Worker, c: nat)
    requires Requests(wrk.calls, wrk.pending, wrk.nextRequest) && !Waiting(wrk, c)
    ensures Requests(wrk.calls - {c}, wrk.pending, wrk.nextRequest)
  {
  }

  lemma FinishCalls(frames: seq<Frame>, calls: map<nat, bool>, lastRequest: nat, c: nat)
    requires Calls(frames, calls, lastRequest)
    ensures Calls(frames, calls - {c}, lastRequest)
  {
    hide Active;
  }

  lemma FinishShape(g: nat, c: nat, wrk: Worker, sup: Supervisor, b: Baton, k: CancelStage, response: Response)
    requires WorkerShape(sup, wrk) && InnerCall(c, wrk, b, k) && b.Working?
    ensures WorkerShape(sup, Finish(wrk, g, c, response).0)
  {
    FinishCalls(sup.frames, wrk.calls, wrk.lastRequest, c);
    FinishRequests(wrk, c);
    assert c <= wrk.lastRequest;
    BuryKeeps(wrk.completed, wrk.calls, wrk.lastRequest, c);
    hide Graves, Bury, Active, Calls, Requests, Waiting;
  }

  lemma FinishInner(g: nat, c: nat, wrk: Worker, sup: Supervisor, b: Baton, k: CancelStage, response: Response)
    requires WorkerShape(sup, wrk) && InnerCall(c, wrk, b, k) && b.Working?
    ensures InnerCall(c, Finish(wrk, g, c, response).0, Reporting(response), k)
  {
    BuryKeeps(wrk.completed, wrk.calls, wrk.lastRequest, c);
    hide Graves, Bury, Active;
  }

  lemma FinishCommon(s: System, b: Baton, k: CancelStage, call: nat, response: Response)
    requires Common(s) && Busy(s, b, k) && b.Working? && call == Last(s.sup.frames).correlation
    requires call in s.wrk.calls && !Waiting(s.wrk, call)
    ensures Common(WorkerStep(s, WorkerFinish(call, response)))
  {
    hide Outer, Parents, Justified, Graves, Calls, Requests, Active, Down, Up, EventsFirst, Bury, Waiting, Control;
    FinishShape(s.generation, call, s.wrk, s.sup, b, k, response);
    FinishOuterCalls(s.sup.frames, s.sup.next, s.wrk.calls, s.wrk.pending);
    EventsGrow(s.generation, s.sup.frames, s.toSup, Envelope(s.generation, call, 0, Reply(response)));
    hide Nesting, WorkerShape, OuterCalls, Down, Up, EventsFirst, InnerCall, Bury, Waiting, Control, Events;
  }

  lemma EventsGrow(g: nat, frames: seq<Frame>, toSup: seq<Envelope>, m: Envelope)
    requires Events(g, frames, toSup) && !m.body.Event?
    ensures Events(g, frames, toSup + [m])
  {
    hide Active;
  }

  lemma FinishStep(s: System, b: Baton, k: CancelStage, call: nat, response: Response)
    requires Common(s) && Busy(s, b, k)
    requires call in s.wrk.calls && !Waiting(s.wrk, call)
    ensures var t := WorkerStep(s, WorkerFinish(call, response));
            Common(t) && Busy(t, Reporting(response), k)
  {
    hide Nesting, OuterCalls, Events, Graves, Calls, Requests, Up, EventsFirst, InnerCall, Bury, Waiting, Control;
    OnlyInnermostRuns(s, b, k, call);
    FinishCommon(s, b, k, call, response);
    FinishInner(s.generation, call, s.wrk, s.sup, b, k, response);
    FinishEvents(s.generation, call, s.toSup, b, k, response);
  }

  /** Live calls that all belong to given frames are at most as many as the frames. */
  lemma {:induction false} FewCalls(frames: seq<Frame>, calls: set<nat>)
    requires forall c :: c in calls ==> Active(frames, c)
    ensures |calls| <= |frames|
  {
    if frames == [] {
      assert calls == {};
    } else {
      var c := Last(frames).correlation;
      ActiveBelow(frames, calls - {c});
      FewCalls(Rest(frames), calls - {c});
    }
  }

  lemma ActiveBelow(frames: seq<Frame>, calls: set<nat>)
    requires frames != [] && Last(frames).correlation !in calls
    requires forall c :: c in calls ==> Active(frames, c)
    ensures forall c :: c in calls ==> Active(Rest(frames), c)
  {
    forall d | d in calls ensures Active(Rest(frames), d) {
      var i :| 0 <= i < |frames| && frames[i].correlation == d;
      assert Rest(frames)[i].correlation == d;
    }
  }

  lemma RoomForRequest(frames: seq<Frame>, calls: map<nat, bool>, lastRequest: nat)
    requires 0 < |frames| <= MAX_DEPTH && Calls(frames, calls, lastRequest) && Last(frames).correlation !in calls
    ensures |calls| < MAX_DEPTH
  {
    ActiveBelow(frames, calls.Keys);
    FewCalls(Rest(frames), calls.Keys);
  }

  /** The request's service parent is still outstanding when the request arrives. */
  lemma ParentPending(sup: Supervisor, wrk: Worker)
    requires InnermostPumps(sup.frames) && Outer(sup.frames) && Parents(sup.frames, sup.serviceParent)
    requires OuterCalls(sup.frames, wrk.calls, wrk.pending)
    ensures sup.serviceParent == 0 || sup.serviceParent in wrk.pending
  {
    var n := |sup.frames|;
    if n > 1 {
      assert sup.frames[n - 2].serving.Some?;
    }
  }

  lemma RequestComponents(sup: Supervisor, wrk: Worker, b: Baton, k: CancelStage)
    requires Stacks(sup.frames, sup.next) && WorkerShape(sup, wrk) && OuterCalls(sup.frames, wrk.calls, wrk.pending)
    requires sup.frames != [] && b.Queued?
    requires InnerCall(Last(sup.frames).correlation, wrk, b, k)
    ensures var c := Last(sup.frames).correlation;
            var wrk' := wrk.(lastRequest := c, calls := wrk.calls[c := false]);
            && WorkerShape(sup, wrk') && OuterCalls(sup.frames, wrk'.calls, wrk'.pending)
            && InnerCall(c, wrk', Working, k)
  {
    var c := Last(sup.frames).correlation;
    assert sup.frames[|sup.frames| - 1].correlation == c;
    assert Active(sup.frames, c);
    assert wrk.lastRequest < c;
  }

  lemma EventsFirstWorking(c: nat, toSup: seq<Envelope>, b: Baton)
    requires EventsFirst(c, toSup, b)
    ensures EventsFirst(c, toSup, Working)
  {
  }

  lemma RequestAccepted(s: System, b: Baton, k: CancelStage)
    requires Common(s) && Busy(s, b, k) && b.Queued?
    ensures var c := Last(s.sup.frames).correlation;
            && s.toWorker == [Envelope(s.generation, c, s.sup.serviceParent, Request(EngineOperation, ""))] +
                             CancelToWorker(s.generation, c, k)
            && Accept(s.wrk, s.generation, s.toWorker[0]) == (s.wrk.(lastRequest := c, calls := s.wrk.calls[c := false]), [])
            && Down(s.generation, c, s.sup.serviceParent, s.toWorker[1..], Working, k)
            && Up(s.generation, c, Control(s.toSup), Working, k)
  {
    hide Outer, Parents, Justified, OuterCalls, Events, EventsFirst, Graves, Calls, Requests, Control;
    RoomForRequest(s.sup.frames, s.wrk.calls, s.wrk.lastRequest);
    ParentPending(s.sup, s.wrk);
    assert s.sup.frames[|s.sup.frames| - 1].correlation % 2 == 0;
    hide Stacks;
  }

  lemma RequestArrives(s: System, b: Baton, k: CancelStage)
    requires Common(s) && Busy(s, b, k) && b.Queued?
    ensures var t := WorkerStep(s, WorkerRead); Common(t) && Busy(t, Working, k)
  {
    var c := Last(s.sup.frames).correlation;
    RequestAccepted(s, b, k);
    RequestComponents(s.sup, s.wrk, b, k);
    EventsFirstWorking(c, s.toSup, b);
    assert s.toSup + [] == s.toSup;
    hide Nesting, WorkerShape, OuterCalls, Down, Up, EventsFirst, InnerCall, Accept, Control, Events;
  }

  lemma CancelChannel(g: nat, c: nat, toSup: seq<Envelope>, b: Baton)
    requires Up(g, c, Control(toSup), b, InPipe) && EventsFirst(c, toSup, b)
    ensures Up(g, c, Control(toSup + [Acknowledge(g, c)]), b, AckInPipe) && EventsFirst(c, toSup + [Acknowledge(g, c)], b)
  {
    ControlAppends(toSup, Acknowledge(g, c));
    hide Control;
  }

  lemma CancelComponents(g: nat, sup: Supervisor, wrk: Worker, b: Baton, c: nat, m: Envelope)
    requires WorkerShape(sup, wrk) && OuterCalls(sup.frames, wrk.calls, wrk.pending)
    requires Stacks(sup.frames, sup.next) && sup.frames != [] && c == Last(sup.frames).correlation
    requires !b.Queued? && InnerCall(c, wrk, b, InPipe) && !wrk.failed
    requires m == Envelope(g, c, 0, Cancel(false))
    ensures var (wrk', sent) := Accept(wrk, g, m);
            && sent == [Acknowledge(g, c)] && !wrk'.failed
            && WorkerShape(sup, wrk') && OuterCalls(sup.frames, wrk'.calls, wrk'.pending)
            && InnerCall(c, wrk', b, AckInPipe)
  {
    hide Active;
  }

  lemma CancelIsNext(s: System, b: Baton, k: CancelStage)
    requires Busy(s, b, k) && s.toWorker != [] && s.toWorker[0].body.Cancel?
    ensures k.InPipe? && !b.Queued?
    ensures s.toWorker[0] == Envelope(s.generation, Last(s.sup.frames).correlation, 0, Cancel(false))
    ensures Down(s.generation, Last(s.sup.frames).correlation, s.sup.serviceParent, s.toWorker[1..], b, AckInPipe)
  {
    hide Up, EventsFirst, InnerCall;
  }

  lemma CancelArrives(s: System, b: Baton, k: CancelStage)
    requires !s.wrk.failed && Common(s) && Busy(s, b, k) && s.toWorker != [] && s.toWorker[0].body.Cancel?
    ensures var t := WorkerStep(s, WorkerRead); Common(t) && Busy(t, b, AckInPipe) && !t.wrk.failed
  {
    hide Outer, Parents, Justified, WorkerShape, OuterCalls, Down, Up, EventsFirst, InnerCall, Accept, Control, Events;
    CancelIsNext(s, b, k);
    CancelComponents(s.generation, s.sup, s.wrk, b, Last(s.sup.frames).correlation, s.toWorker[0]);
    CancelChannel(s.generation, Last(s.sup.frames).correlation, s.toSup, b);
    EventsGrow(s.generation, s.sup.frames, s.toSup, Acknowledge(s.generation, Last(s.sup.frames).correlation));
    hide Stacks, Nesting;
  }

  lemma AnswerComponents(sup: Supervisor, wrk: Worker, b: Baton, k: CancelStage)
    requires WorkerShape(sup, wrk) && OuterCalls(sup.frames, wrk.calls, wrk.pending)
    requires Stacks(sup.frames, sup.next) && sup.frames != [] && b.Answering?
    requires InnerCall(Last(sup.frames).correlation, wrk, b, k)
    ensures var wrk' := wrk.(pending := wrk.pending - {b.service});
            && WorkerShape(sup, wrk') && OuterCalls(sup.frames, wrk'.calls, wrk'.pending)
            && InnerCall(Last(sup.frames).correlation, wrk', Working, k)
  {
    hide Graves, Calls;
  }

  lemma AnswerIsNext(s: System, b: Baton, k: CancelStage)
    requires Busy(s, b, k) && s.toWorker != [] && s.toWorker[0].body.Reply?
    ensures b.Answering? && s.toWorker[0].correlation == b.service && b.service in s.wrk.pending
    ensures Down(s.generation, Last(s.sup.frames).correlation, s.sup.serviceParent, s.toWorker[1..], Working, k)
    ensures Up(s.generation, Last(s.sup.frames).correlation, Control(s.toSup), Working, k)
  {
    hide EventsFirst;
  }

  lemma AnswerArrives(s: System, b: Baton, k: CancelStage)
    requires Common(s) && Busy(s, b, k) && s.toWorker != [] && s.toWorker[0].body.Reply?
    ensures var t := WorkerStep(s, WorkerRead); Common(t) && Busy(t, Working, k)
  {
    hide Outer, Parents, Justified, WorkerShape, OuterCalls, Down, Up, EventsFirst, InnerCall, Control, Events;
    AnswerIsNext(s, b, k);
    AnswerComponents(s.sup, s.wrk, b, k);
    EventsFirstWorking(Last(s.sup.frames).correlation, s.toSup, b);
    assert s.toSup + [] == s.toSup;
    hide Stacks, Nesting;
  }

  // Supervisor steps.

  lemma ControlHead(q: seq<Envelope>)
    requires q != []
    ensures Control(q) == (if q[0].body.Event? then [] else [q[0]]) + Control(q[1..])
  {
  }

  /** What the supervisor may find at the head of its channel. */
  lemma HeadIsExpected(s: System, b: Baton, k: CancelStage)
    requires Busy(s, b, k) && s.toSup != [] && !s.toSup[0].body.Event?
    ensures var g, c, m := s.generation, Last(s.sup.frames).correlation, s.toSup[0];
            || (BatonToSup(g, c, b) == [m] && Control(s.toSup[1..]) == CancelToSup(g, c, k))
            || (CancelToSup(g, c, k) == [m] && Control(s.toSup[1..]) == BatonToSup(g, c, b))
  {
    hide Down, EventsFirst, InnerCall, InnerFrame;
    ControlHead(s.toSup);
    var g, c := s.generation, Last(s.sup.frames).correlation;
    var up, ack := BatonToSup(g, c, b), CancelToSup(g, c, k);
    var q := Control(s.toSup);
    assert q[0] == s.toSup[0] && q[1..] == Control(s.toSup[1..]);
    if q == up + ack && up != [] {
      assert q[1..] == ack;
    } else if q == up + ack {
      assert q == ack && q[1..] == [];
    } else {
      assert q[1..] == up;
    }
  }

  lemma TailEvents(g: nat, frames: seq<Frame>, toSup: seq<Envelope>)
    requires Events(g, frames, toSup) && toSup != []
    ensures Events(g, frames, toSup[1..])
  {
    hide Active;
  }

  lemma TailEventsFirst(c: nat, toSup: seq<Envelope>, b: Baton)
    requires EventsFirst(c, toSup, b) && toSup != []
    ensures EventsFirst(c, toSup[1..], b)
    ensures toSup[0].body.Reply? ==> forall r: Response :: EventsFirst(c, toSup[1..], Stored(r))
  {
  }

  lemma InnermostActive(frames: seq<Frame>)
    requires frames != []
    ensures Active(frames, Last(frames).correlation)
  {
    assert frames[|frames| - 1].correlation == Last(frames).correlation;
  }

  lemma EventRead(s: System, b: Baton, k: CancelStage)
    requires Common(s) && Busy(s, b, k) && Pumping(s) && s.toSup != [] && s.toSup[0].body.Event?
    ensures var t := SupervisorStep(s, SupervisorRead);
            t.sup == s.sup && Common(t) && Busy(t, b, k)
  {
    hide Nesting, WorkerShape, OuterCalls, Down, Up, EventsFirst, InnerCall, InnerFrame, Active;
    assert s.toSup[0].generation == s.generation && Active(s.sup.frames, s.toSup[0].correlation);
    ControlHead(s.toSup);
    TailEvents(s.generation, s.sup.frames, s.toSup);
    TailEventsFirst(Last(s.sup.frames).correlation, s.toSup, b);
    assert [] + Control(s.toSup[1..]) == Control(s.toSup[1..]);
  }

  lemma ReplyReceived(s: System, b: Baton, k: CancelStage)
    requires Busy(s, b, k) && Pumping(s) && b.Reporting?
    requires s.toSup != [] && BatonToSup(s.generation, Last(s.sup.frames).correlation, b) == [s.toSup[0]]
    ensures var c := Last(s.sup.frames).correlation;
            Receive(s.sup, s.generation, s.toSup[0], s.now, s.latched) ==
              (s.sup.(pending := map[c := b.report]), Continue)
  {
    hide Down, Up, EventsFirst, InnerCall, CancellationRequested;
    InnermostActive(s.sup.frames);
  }

  /** Two batons that put nothing into the worker's pipe are the same to that pipe. */
  lemma DownSame(g: nat, c: nat, parent: nat, toWorker: seq<Envelope>, b: Baton, b': Baton, k: CancelStage)
    requires Down(g, c, parent, toWorker, b, k) && !b.Queued? && !b.Answering? && !b'.Queued? && !b'.Answering?
    ensures forall parent' :: Down(g, c, parent', toWorker, b', k)
  {
  }

  lemma ReplyRead(s: System, b: Baton, k: CancelStage)
    requires Common(s) && Busy(s, b, k) && Pumping(s) && s.toSup != [] && s.toSup[0].body.Reply?
    ensures b.Reporting?
    ensures var t := SupervisorStep(s, SupervisorRead);
            t.sup.fault == s.sup.fault && Common(t) && Busy(t, Stored(b.report), k)
  {
    hide Stacks, Outer, Parents, Justified, Graves, Calls, Requests, OuterCalls, Events, Down, EventsFirst, Active, Receive, Control;
    HeadIsExpected(s, b, k);
    ReplyReceived(s, b, k);
    DownSame(s.generation, Last(s.sup.frames).correlation, s.sup.serviceParent, s.toWorker, b, Stored(b.report), k);
    TailEvents(s.generation, s.sup.frames, s.toSup);
    TailEventsFirst(Last(s.sup.frames).correlation, s.toSup, b);
  }

  lemma SetLast(frames: seq<Frame>, f: Frame)
    requires frames != [] && f.correlation == Last(frames).correlation && f.probe == Last(frames).probe
    ensures var changed := Rest(frames) + [f];
            && (forall c :: Active(changed, c) <==> Active(frames, c))
            && (forall latched :: CancellationRequested(changed, latched) <==> CancellationRequested(frames, latched))
            && (forall i :: 0 <= i < |frames| - 1 ==> changed[i] == frames[i])
            && |changed| == |frames| && Last(changed) == f
  {
    var changed := Rest(frames) + [f];
    forall c ensures Active(changed, c) <==> Active(frames, c) {
      if Active(frames, c) {
        var i :| 0 <= i < |frames| && frames[i].correlation == c;
        assert changed[i].correlation == c;
      }
      if Active(changed, c) {
        var i :| 0 <= i < |changed| && changed[i].correlation == c;
        assert frames[i].correlation == c;
      }
    }
    forall latched ensures CancellationRequested(changed, latched) <==> CancellationRequested(frames, latched) {
      if CancellationRequested(frames, latched) {
        var i :| 0 <= i < |frames| && Probed(frames[i].probe, latched);
        assert Probed(changed[i].probe, latched);
      }
      if CancellationRequested(changed, latched) {
        var i :| 0 <= i < |changed| && Probed(changed[i].probe, latched);
        assert Probed(frames[i].probe, latched);
      }
    }
  }

  /** Replacing the innermost frame keeps what the stacks promise about all frames. */
  lemma NestingWithLast(sup: Supervisor, f: Frame, now: int, latched: set<nat>)
    requires sup.frames != []
    requires var l := Last(sup.frames);
             f.correlation == l.correlation && f.probe == l.probe && f.deadline == l.deadline
    requires Stacks(sup.frames, sup.next) && Outer(sup.frames) && Justified(sup.frames, now, latched)
    requires f.cancelSent ==> Last(sup.frames).cancelSent || now >= f.deadline || CancellationRequested(sup.frames, latched)
    ensures var changed := Rest(sup.frames) + [f];
            Stacks(changed, sup.next) && Outer(changed) && Justified(changed, now, latched)
  {
    SetLast(sup.frames, f);
    hide CancellationRequested;
    var changed := Rest(sup.frames) + [f];
    forall i | 0 <= i < |changed| && changed[i].cancelSent
      ensures now >= changed[i].deadline || CancellationRequested(changed, latched)
    {
      assert sup.frames[i].cancelSent || i == |changed| - 1;
    }
  }

  lemma OuterCallsWithLast(frames: seq<Frame>, f: Frame, calls: map<nat, bool>, pending: map<nat, nat>)
    requires frames != [] && OuterCalls(frames, calls, pending)
    ensures OuterCalls(Rest(frames) + [f], calls, pending)
  {
  }

  lemma CallsWithLast(frames: seq<Frame>, f: Frame, calls: map<nat, bool>, lastRequest: nat, g: nat, toSup: seq<Envelope>)
    requires frames != [] && f.correlation == Last(frames).correlation && f.probe == Last(frames).probe
    requires Calls(frames, calls, lastRequest) && Events(g, frames, toSup)
    ensures Calls(Rest(frames) + [f], calls, lastRequest) && Events(g, Rest(frames) + [f], toSup)
  {
    SetLast(frames, f);
    hide Active;
  }

  lemma ParentsWithLast(frames: seq<Frame>, f: Frame, serviceParent: nat, serviceParent': nat)
    requires frames != [] && Parents(frames, serviceParent)
    requires f.serving.Some? ==> serviceParent' == f.serving.value.correlation
    requires f.serving.Some? ==> f.serving.value.previous == ServiceBelow(frames, |frames| - 1)
    requires f.serving.None? ==> serviceParent' == ServiceBelow(frames, |frames| - 1)
    ensures Parents(Rest(frames) + [f], serviceParent')
  {
    var changed := Rest(frames) + [f];
    forall i {:trigger ServiceBelow(changed, i)} | 0 <= i < |changed|
      ensures ServiceBelow(changed, i) == ServiceBelow(frames, i)
    {
    }
  }

  /** Everything the innermost frame's replacement leaves alone. */
  lemma CommonWithLast(s: System, f: Frame, sup': Supervisor)
    requires Common(s) && s.sup.frames != []
    requires var l := Last(s.sup.frames);
             f.correlation == l.correlation && f.probe == l.probe && f.deadline == l.deadline
    requires f.cancelSent ==> Last(s.sup.frames).cancelSent || s.now >= f.deadline || CancellationRequested(s.sup.frames, s.latched)
    requires sup'.frames == Rest(s.sup.frames) + [f] && sup'.next == s.sup.next && sup'.lastService < s.wrk.nextRequest
    requires |sup'.ancestry| == (if f.serving.None? then |s.sup.frames| - 1 else |s.sup.frames|)
    requires Parents(sup'.frames, sup'.serviceParent)
    ensures Common(s.(sup := sup'))
  {
    hide Stacks, Outer, Parents, Justified, Graves, Calls, Requests, OuterCalls, Events, Active, CancellationRequested;
    NestingWithLast(s.sup, f, s.now, s.latched);
    OuterCallsWithLast(s.sup.frames, f, s.wrk.calls, s.wrk.pending);
    CallsWithLast(s.sup.frames, f, s.wrk.calls, s.wrk.lastRequest, s.generation, s.toSup);
  }

  lemma TailCommon(s: System)
    requires Common(s) && s.toSup != []
    ensures Common(s.(toSup := s.toSup[1..]))
  {
    hide Nesting, WorkerShape, OuterCalls, Events;
    TailEvents(s.generation, s.sup.frames, s.toSup);
  }

  lemma AckReceived(s: System, b: Baton, k: CancelStage)
    requires Busy(s, b, k) && s.toSup != [] && s.toSup[0].body.Cancel?
    ensures k.AckInPipe? && Control(s.toSup[1..]) == BatonToSup(s.generation, Last(s.sup.frames).correlation, b)
    ensures Receive(s.sup, s.generation, s.toSup[0], s.now, s.latched) ==
              (WithLast(s.sup, Last(s.sup.frames).(cancelAcknowledged := true)), Continue)
  {
    hide Down, EventsFirst, InnerCall, CancellationRequested;
    HeadIsExpected(s, b, k);
    InnermostActive(s.sup.frames);
    hide Active;
  }

  lemma AckBusy(s: System, b: Baton, k: CancelStage)
    requires Busy(s, b, k) && s.toSup != [] && k.AckInPipe?
    requires Control(s.toSup[1..]) == BatonToSup(s.generation, Last(s.sup.frames).correlation, b)
    ensures Busy(s.(sup := WithLast(s.sup, Last(s.sup.frames).(cancelAcknowledged := true)), toSup := s.toSup[1..]), b, Acked)
  {
    hide EventsFirst, Control;
    TailEventsFirst(Last(s.sup.frames).correlation, s.toSup, b);
  }

  lemma AckCommon(s: System)
    requires Common(s) && Pumping(s) && s.toSup != []
    ensures Common(s.(sup := WithLast(s.sup, Last(s.sup.frames).(cancelAcknowledged := true)), toSup := s.toSup[1..]))
  {
    hide Stacks, Outer, Justified, OuterCalls, Events, CancellationRequested, Active;
    var f := Last(s.sup.frames).(cancelAcknowledged := true);
    var sup' := WithLast(s.sup, f);
    ParentsWithLast(s.sup.frames, f, s.sup.serviceParent, s.sup.serviceParent);
    CommonWithLast(s, f, sup');
    TailCommon(s.(sup := sup'));
  }

  lemma AckRead(s: System, b: Baton, k: CancelStage)
    requires Common(s) && Busy(s, b, k) && Pumping(s) && s.toSup != [] && s.toSup[0].body.Cancel?
    ensures var t := SupervisorStep(s, SupervisorRead);
            t.sup.fault == s.sup.fault && Common(t) && Busy(t, b, Acked)
  {
    hide Busy, Common, Receive, Control;
    AckReceived(s, b, k);
    AckBusy(s, b, k);
    AckCommon(s);
  }

  lemma RequestReceived(s: System, b: Baton, k: CancelStage)
    requires Common(s) && Busy(s, b, k) && s.toSup != [] && s.toSup[0].body.Request?
    ensures b.Asking? && s.toSup[0] == Envelope(s.generation, b.service, Last(s.sup.frames).correlation, Request(b.operation, b.key))
    ensures Control(s.toSup[1..]) == CancelToSup(s.generation, Last(s.sup.frames).correlation, k)
    ensures b.service % 2 == 1 && s.sup.lastService < b.service < s.wrk.nextRequest && !b.operation.EngineOperation?
    ensures Active(s.sup.frames, Last(s.sup.frames).correlation)
  {
    hide Nesting, OuterCalls, Down, EventsFirst;
    HeadIsExpected(s, b, k);
    InnermostActive(s.sup.frames);
    hide Active, Graves, Calls;
  }

  /** The supervisor while it serves the request just received. */
  function ServingNow(sup: Supervisor, service: nat, key: string, blocked: bool): Supervisor
    requires sup.frames != []
  {
    var s1 := WithLast(sup, Last(sup.frames).(serving := Some(Service(service, sup.serviceParent, blocked))));
    s1.(lastService := service, serviceParent := service, ancestry := sup.ancestry + [key])
  }

  lemma ServingBusy(s: System, b: Baton, k: CancelStage, blocked: bool)
    requires Busy(s, b, k) && s.toSup != [] && b.Asking?
    requires Control(s.toSup[1..]) == CancelToSup(s.generation, Last(s.sup.frames).correlation, k)
    ensures Busy(s.(sup := ServingNow(s.sup, b.service, b.key, blocked), toSup := s.toSup[1..]), Serving(b.service), k)
  {
    hide EventsFirst, Control;
    TailEventsFirst(Last(s.sup.frames).correlation, s.toSup, b);
    EventsFirstServing(Last(s.sup.frames).correlation, s.toSup[1..], b, b.service);
  }

  lemma EventsFirstServing(c: nat, toSup: seq<Envelope>, b: Baton, service: nat)
    requires EventsFirst(c, toSup, b)
    ensures EventsFirst(c, toSup, Serving(service))
  {
  }

  ghost predicate Blocks(s: System, operation: Operation)
    requires s.sup.frames != []
  {
    !operation.ReleaseService? &&
      (Last(s.sup.frames).cancelSent || s.now >= Last(s.sup.frames).deadline ||
       CancellationRequested(s.sup.frames, s.latched))
  }

  lemma ServingCommon(s: System, service: nat, key: string, blocked: bool)
    requires Common(s) && Pumping(s) && s.toSup != [] && service < s.wrk.nextRequest
    ensures Common(s.(sup := ServingNow(s.sup, service, key, blocked), toSup := s.toSup[1..]))
  {
    var sup' := ServingNow(s.sup, service, key, blocked);
    var f := Last(sup'.frames);
    ParentsWithLast(s.sup.frames, f, s.sup.serviceParent, service);
    hide Stacks, Outer, Parents, Justified, OuterCalls, Events;
    CommonWithLast(s, f, sup');
    TailCommon(s.(sup := sup'));
    hide Common;
  }

  lemma RequestOutcome(s: System, service: nat, operation: Operation, key: string)
    requires s.sup.frames != [] && Active(s.sup.frames, Last(s.sup.frames).correlation)
    requires service % 2 == 1 && s.sup.lastService < service && !operation.EngineOperation?
    ensures Receive(s.sup, s.generation,
                    Envelope(s.generation, service, Last(s.sup.frames).correlation, Request(operation, key)), s.now, s.latched) ==
              if key in s.sup.ancestry then Raise(s.sup.(lastService := service), ServiceCycle)
              else (ServingNow(s.sup, service, key, Blocks(s, operation)), Continue)
  {
    hide Active, CancellationRequested;
  }

  lemma RequestRead(s: System, b: Baton, k: CancelStage)
    requires Common(s) && Busy(s, b, k) && Pumping(s) && s.toSup != [] && s.toSup[0].body.Request?
    ensures b.Asking?
    ensures var t := SupervisorStep(s, SupervisorRead);
            || t.sup.fault == Some(ServiceCycle)
            || (t.sup.fault == s.sup.fault && Common(t) && Busy(t, Serving(b.service), k))
  {
    hide Busy, Common, Receive, Active, Control, Blocks;
    RequestReceived(s, b, k);
    RequestOutcome(s, b.service, b.operation, b.key);
    ServingBusy(s, b, k, Blocks(s, b.operation));
    ServingCommon(s, b.service, b.key, Blocks(s, b.operation));
  }

  // The end of a service handler.

  lemma AnsweredBusy(s: System, b: Baton, k: CancelStage, handled: Response)
    requires Common(s) && Busy(s, b, k) && !Pumping(s) && s.sup.ancestry != []
    ensures b.Serving?
    ensures var (sup', reply) := FinishService(s.sup, s.generation, handled, s.now);
            Busy(s.(sup := sup', toWorker := s.toWorker + [reply]), AnswerOf(s, b, handled), k)
  {
    hide Common, Up, EventsFirst;
    var c := Last(s.sup.frames).correlation;
    UpSame(s.generation, c, Control(s.toSup), b, AnswerOf(s, b, handled), k);
    EventsFirstAnswering(c, s.toSup, b, AnswerOf(s, b, handled));
    hide Control;
  }

  /** The baton once the handler's answer is on its way. */
  function AnswerOf(s: System, b: Baton, handled: Response): Baton
    requires s.sup.frames != [] && Last(s.sup.frames).serving.Some? && b.Serving?
  {
    Answering(b.service, ServiceAnswer(Last(s.sup.frames), handled, s.now))
  }

  lemma UpSame(g: nat, c: nat, control: seq<Envelope>, b: Baton, b': Baton, k: CancelStage)
    requires Up(g, c, control, b, k) && BatonToSup(g, c, b) == BatonToSup(g, c, b')
    ensures Up(g, c, control, b', k)
  {
  }

  lemma EventsFirstAnswering(c: nat, toSup: seq<Envelope>, b: Baton, b': Baton)
    requires EventsFirst(c, toSup, b) && b'.Answering?
    ensures EventsFirst(c, toSup, b')
  {
  }

  lemma AnsweredCommon(s: System, handled: Response)
    requires Common(s) && s.sup.frames != [] && !Pumping(s) && s.sup.ancestry != []
    ensures Common(s.(sup := FinishService(s.sup, s.generation, handled, s.now).0))
  {
    var (sup', _) := FinishService(s.sup, s.generation, handled, s.now);
    var f := Last(s.sup.frames).(serving := None);
    assert Last(s.sup.frames).serving.value.previous == ServiceBelow(s.sup.frames, |s.sup.frames| - 1);
    ParentsWithLast(s.sup.frames, f, s.sup.serviceParent, sup'.serviceParent);
    hide Stacks, Outer, Parents, Justified, OuterCalls, Events;
    CommonWithLast(s, f, sup');
  }

  lemma CommonIgnoresToWorker(s: System, toWorker: seq<Envelope>)
    requires Common(s)
    ensures Common(s.(toWorker := toWorker))
  {
    hide Nesting, WorkerShape, OuterCalls, Events;
  }

  lemma HandlerStep(s: System, b: Baton, k: CancelStage, handled: Response)
    requires Common(s) && Busy(s, b, k) && !Pumping(s) && s.sup.ancestry != []
    ensures var t := SupervisorStep(s, HandlerDone(handled));
            && t.sup.fault == s.sup.fault && Common(t)
            && b.Serving? && Last(s.sup.frames).serving.Some? && Busy(t, AnswerOf(s, b, handled), k)
  {
    hide Busy, Common, AnswerOf;
    BusyHasFrames(s, b, k);
    AnsweredBusy(s, b, k, handled);
    AnsweredCommon(s, handled);
    var (sup', reply) := FinishService(s.sup, s.generation, handled, s.now);
    CommonIgnoresToWorker(s.(sup := sup'), s.toWorker + [reply]);
  }

  // Entering a call.

  lemma ActiveGrows(frames: seq<Frame>, f: Frame)
    ensures forall c :: Active(frames, c) ==> Active(frames + [f], c)
  {
    forall c | Active(frames, c) ensures Active(frames + [f], c) {
      var i :| 0 <= i < |frames| && frames[i].correlation == c;
      assert (frames + [f])[i].correlation == c;
    }
  }

  /** A handler whose outer invocation was cancelled cannot reach the worker any more. */
  lemma CancelledOuterNeverDispatches(s: System, timeout: int, probe: Option<nat>, delay: nat)
    requires Common(s) && s.sup.frames != []
    ensures Enter(s.sup, s.generation, timeout, probe, s.latched, s.now, s.now + delay).1.Dispatched? ==>
              !Last(s.sup.frames).cancelSent
  {
    hide Stacks, Outer, Parents, WorkerShape, OuterCalls, Events, CancellationRequested;
    var n := |s.sup.frames|;
    assert s.sup.frames[n - 1].cancelSent ==>
      s.now >= s.sup.frames[n - 1].deadline || CancellationRequested(s.sup.frames, s.latched);
  }

  lemma EnterNesting(s: System, f: Frame, now: int)
    requires Common(s) && (s.sup.frames == [] || Handling(s)) && |s.sup.frames| < MAX_DEPTH && now >= s.now
    requires s.sup.frames != [] ==>
      !Last(s.sup.frames).cancelSent && !Last(s.sup.frames).cancelAcknowledged && f.deadline <= Last(s.sup.frames).deadline
    requires f.correlation == s.sup.next && f.serving.None? && !f.cancelSent
    ensures Stacks(s.sup.frames + [f], s.sup.next + 2)
    ensures Outer(s.sup.frames + [f])
    ensures Justified(s.sup.frames + [f], now, s.latched)
  {
    hide Parents, WorkerShape, OuterCalls, Events, Justified, CancellationRequested;
    assert forall i :: 0 <= i < |s.sup.frames| ==> !s.sup.frames[i].cancelSent;
    assert forall i :: 0 <= i < |s.sup.frames| + 1 ==> !(s.sup.frames + [f])[i].cancelSent;
    NeverSent(s.sup.frames + [f], now, s.latched);
  }

  lemma NeverSent(frames: seq<Frame>, now: int, latched: set<nat>)
    requires forall i :: 0 <= i < |frames| ==> !frames[i].cancelSent
    ensures Justified(frames, now, latched)
  {
  }

  lemma EnterParents(frames: seq<Frame>, f: Frame, serviceParent: nat)
    requires Parents(frames, serviceParent) && !InnermostPumps(frames) && f.serving.None?
    ensures Parents(frames + [f], serviceParent)
  {
    var grown := frames + [f];
    forall i {:trigger ServiceBelow(grown, i)} | 0 <= i <= |frames|
      ensures ServiceBelow(grown, i) == ServiceBelow(frames, i)
    {
    }
  }

  /** Before a call is dispatched both channels carry nothing but log events of outer calls. */
  ghost predicate Quiet(s: System) {
    && s.toWorker == [] && Control(s.toSup) == [] && s.sup.pending == map[]
    && (s.sup.frames != [] ==>
          var f := Last(s.sup.frames);
          && !f.cancelSent && !f.cancelAcknowledged
          && f.serving.Some? && !f.serving.value.blocked
          && f.correlation in s.wrk.calls && !s.wrk.calls[f.correlation]
          && f.serving.value.correlation in s.wrk.pending
          && s.wrk.pending[f.serving.value.correlation] == f.correlation)
  }

  lemma HandlingIsQuiet(s: System, b: Baton, k: CancelStage)
    requires Busy(s, b, k) && Handling(s) && !Last(s.sup.frames).cancelSent
    ensures Quiet(s)
  {
    hide EventsFirst;
  }

  lemma IdleIsQuiet(s: System)
    requires Idle(s)
    ensures Quiet(s)
  {
  }

  lemma EnterOuterCalls(s: System, f: Frame)
    requires Quiet(s) && OuterCalls(s.sup.frames, s.wrk.calls, s.wrk.pending)
    ensures OuterCalls(s.sup.frames + [f], s.wrk.calls, s.wrk.pending)
  {
  }

  lemma EnterWorkerShape(s: System, f: Frame, sup': Supervisor)
    requires WorkerShape(s.sup, s.wrk) && Events(s.generation, s.sup.frames, s.toSup)
    requires sup'.frames == s.sup.frames + [f] && sup'.lastService == s.sup.lastService && sup'.next >= s.sup.next
    ensures WorkerShape(sup', s.wrk) && Events(s.generation, sup'.frames, s.toSup)
  {
    ActiveGrows(s.sup.frames, f);
    hide Active, Graves, Requests;
  }

  lemma EnterCommon(s: System, f: Frame, sup': Supervisor, now: int)
    requires Common(s) && Quiet(s) && |s.sup.frames| < MAX_DEPTH && now >= s.now
    requires s.sup.frames != [] ==> f.deadline <= Last(s.sup.frames).deadline
    requires f.correlation == s.sup.next && f.serving.None? && !f.cancelSent
    requires sup' == s.sup.(next := s.sup.next + 2, frames := s.sup.frames + [f])
    ensures Common(s.(sup := sup', now := now))
  {
    hide Stacks, Outer, Parents, Justified, WorkerShape, OuterCalls, Events, Control;
    EnterNesting(s, f, now);
    EnterParents(s.sup.frames, f, s.sup.serviceParent);
    EnterOuterCalls(s, f);
    EnterWorkerShape(s, f, sup');
  }

  lemma OldCorrelations(frames: seq<Frame>, next: nat)
    requires Stacks(frames, next)
    ensures !Active(frames, next)
  {
  }

  /** No message or worker record of a call exists before its request is written. */
  lemma EnterBusy(s: System, f: Frame, sup': Supervisor, now: int)
    requires Common(s) && Quiet(s)
    requires f.correlation == s.sup.next && f.serving.None? && !f.cancelSent && !f.cancelAcknowledged
    requires sup' == s.sup.(next := s.sup.next + 2, frames := s.sup.frames + [f])
    ensures var request := Envelope(s.generation, f.correlation, s.sup.serviceParent, Request(EngineOperation, ""));
            Busy(s.(sup := sup', now := now, toWorker := s.toWorker + [request]), Queued, NotSent)
  {
    hide Outer, Parents, Justified, OuterCalls;
    OldCorrelations(s.sup.frames, s.sup.next);
    assert Last(sup'.frames) == f;
    forall i, j | 0 <= i < j < |s.toSup| && s.toSup[i].body.Reply? && s.toSup[j].body.Event?
      ensures s.toSup[j].correlation != f.correlation
    {
      assert Active(s.sup.frames, s.toSup[j].correlation);
    }
    hide Stacks, Active, Control, Graves, Requests;
  }

  /** What Enter can do to the supervisor. */
  lemma EnterOutcome(s: System, timeout: int, probe: Option<nat>, delay: nat)
    ensures var (sup', entry) := Enter(s.sup, s.generation, timeout, probe, s.latched, s.now, s.now + delay);
            if entry.Dispatched? then
              && |s.sup.frames| < MAX_DEPTH
              && entry.request == Envelope(s.generation, s.sup.next, s.sup.serviceParent, Request(EngineOperation, ""))
              && exists deadline: int ::
                   && (s.sup.frames != [] ==> deadline <= Last(s.sup.frames).deadline)
                   && sup' == s.sup.(next := s.sup.next + 2, frames := s.sup.frames +
                        [Frame(s.sup.next, deadline, probe, false, false, Ok, deadline, None)])
            else sup' == s.sup || sup' == s.sup.(next := s.sup.next + 2)
  {
    hide CancellationRequested;
  }

  lemma SkipCorrelation(s: System, sup': Supervisor, now: int)
    requires Common(s) && now >= s.now
    requires sup' == s.sup || sup' == s.sup.(next := s.sup.next + 2)
    ensures Common(s.(sup := sup', now := now))
    ensures Idle(s) ==> Idle(s.(sup := sup', now := now))
    ensures forall b: Baton, k: CancelStage :: Busy(s, b, k) ==> Busy(s.(sup := sup', now := now), b, k)
  {
    hide Outer, Parents, Justified, Graves, Calls, Requests, OuterCalls, Events, Active, Down, Up, EventsFirst, InnerCall;
    JustifiedLater(s.sup.frames, s.now, s.latched, now, s.latched);
  }

  lemma EngineCallKeeps(s: System, timeout: int, probe: Option<nat>, delay: nat)
    requires Coherent(s)
    ensures var t := SupervisorStep(s, EngineCall(timeout, probe, delay));
            t.sup.fault == s.sup.fault && Coherent(t)
  {
    hide Common, Busy, Idle, Quiet, Enter;
    var t := SupervisorStep(s, EngineCall(timeout, probe, delay));
    if s.sup.frames == [] || Handling(s) {
      var (sup', entry) := Enter(s.sup, s.generation, timeout, probe, s.latched, s.now, s.now + delay);
      EnterOutcome(s, timeout, probe, delay);
      if entry.Dispatched? {
        if Idle(s) {
          IdleIsQuiet(s);
        } else {
          var b: Baton, k: CancelStage :| Busy(s, b, k);
          BusyHasFrames(s, b, k);
          CancelledOuterNeverDispatches(s, timeout, probe, delay);
          HandlingIsQuiet(s, b, k);
        }
        var f := Last(sup'.frames);
        EnterCommon(s, f, sup', t.now);
        CommonIgnoresToWorker(s.(sup := sup', now := t.now), t.toWorker);
        EnterBusy(s, f, sup', t.now);
        assert Busy(t, Queued, NotSent);
      } else {
        SkipCorrelation(s, sup', t.now);
        assert s.toWorker + [] == s.toWorker;
        assert t == s.(sup := sup', now := t.now);
        if !Idle(s) {
          var b: Baton, k: CancelStage :| Busy(s, b, k);
          assert Busy(t, b, k);
        }
      }
    }
  }

  lemma BusyHasFrames(s: System, b: Baton, k: CancelStage)
    requires Busy(s, b, k)
    ensures s.sup.frames != [] && (b.Serving? <==> !Pumping(s))
  {
    hide Down, Up, EventsFirst, InnerCall;
  }

  // The top of the Pump loop.

  /** The first half of the loop's top: the cancellation it may write. */
  lemma CancelWritten(s: System, b: Baton, k: CancelStage)
    requires Busy(s, b, k) && Pumping(s)
    ensures var (sup', sent) := CancelIfDue(s.sup, s.generation, s.now, s.latched, s.grace);
            Busy(s.(sup := sup', toWorker := s.toWorker + sent), b, if sent == [] then k else InPipe)
  {
    hide EventsFirst, CancellationRequested;
    assert s.toWorker + [] == s.toWorker;
  }

  lemma CancelCommon(s: System)
    requires Common(s) && Pumping(s)
    ensures var (sup', sent) := CancelIfDue(s.sup, s.generation, s.now, s.latched, s.grace);
            Common(s.(sup := sup', toWorker := s.toWorker + sent))
  {
    var (sup', sent) := CancelIfDue(s.sup, s.generation, s.now, s.latched, s.grace);
    if sup' != s.sup {
      var f := Last(sup'.frames);
      ParentsWithLast(s.sup.frames, f, s.sup.serviceParent, s.sup.serviceParent);
      hide Stacks, Outer, Parents, Justified, OuterCalls, Events, CancellationRequested;
      CommonWithLast(s, f, sup');
    }
    CommonIgnoresToWorker(s.(sup := sup'), s.toWorker + sent);
    hide Common;
  }

  /** The supervisor once the innermost call has returned. */
  function Popped(sup: Supervisor): Supervisor
    requires sup.frames != []
  {
    sup.(pending := sup.pending - {Last(sup.frames).correlation}, frames := Rest(sup.frames))
  }

  lemma ActiveMinusLast(frames: seq<Frame>, c: nat)
    requires frames != [] && Active(frames, c) && c != Last(frames).correlation
    ensures Active(Rest(frames), c)
  {
    var i :| 0 <= i < |frames| && frames[i].correlation == c;
    assert Rest(frames)[i].correlation == c;
  }

  lemma PoppedNesting(s: System)
    requires Common(s) && Pumping(s)
    ensures Nesting(Popped(s.sup), s.now, s.latched)
  {
    hide WorkerShape, OuterCalls, Events, CancellationRequested;
    var frames := Rest(s.sup.frames);
    forall i {:trigger ServiceBelow(frames, i)} | 0 <= i <= |frames|
      ensures ServiceBelow(frames, i) == ServiceBelow(s.sup.frames, i)
    {
    }
    assert frames != [] ==> Last(frames) == s.sup.frames[|frames| - 1];
    NeverSent(frames, s.now, s.latched);
    hide Justified;
  }

  lemma PoppedCalls(s: System, b: Baton, k: CancelStage)
    requires Common(s) && Busy(s, b, k) && b.Stored?
    ensures WorkerShape(Popped(s.sup), s.wrk)
    ensures Events(s.generation, Rest(s.sup.frames), s.toSup)
  {
    hide Nesting, OuterCalls, Graves, Requests, Down, Up, Active;
    var c := Last(s.sup.frames).correlation;
    forall d | d in s.wrk.calls ensures Active(Rest(s.sup.frames), d) {
      ActiveMinusLast(s.sup.frames, d);
    }
    forall i | 0 <= i < |s.toSup| && s.toSup[i].body.Event?
      ensures Active(Rest(s.sup.frames), s.toSup[i].correlation)
    {
      ActiveMinusLast(s.sup.frames, s.toSup[i].correlation);
    }
  }

  lemma PoppedOuterCalls(frames: seq<Frame>, calls: map<nat, bool>, pending: map<nat, nat>)
    requires frames != [] && OuterCalls(frames, calls, pending)
    ensures OuterCalls(Rest(frames), calls, pending)
  {
  }

  lemma PoppedCommon(s: System, b: Baton, k: CancelStage)
    requires Common(s) && Busy(s, b, k) && b.Stored? && Pumping(s)
    ensures Common(s.(sup := Popped(s.sup)))
  {
    hide Nesting, WorkerShape, OuterCalls, Events, Down, Up, EventsFirst, InnerCall, InnerFrame;
    PoppedNesting(s);
    PoppedCalls(s, b, k);
    PoppedOuterCalls(s.sup.frames, s.wrk.calls, s.wrk.pending);
  }

  lemma OnlyEvents(toSup: seq<Envelope>)
    requires Control(toSup) == []
    ensures forall i :: 0 <= i < |toSup| ==> toSup[i].body.Event?
  {
    forall i | 0 <= i < |toSup| ensures toSup[i].body.Event? {
      if !toSup[i].body.Event? {
        ControlMember(toSup, i);
      }
    }
  }

  lemma PoppedQuiet(s: System, b: Baton, k: CancelStage)
    requires Busy(s, b, k) && b.Stored? && (k.NotSent? || k.Acked?)
    ensures s.toWorker == [] && Control(s.toSup) == []
    ensures Popped(s.sup).pending == map[]
  {
    hide EventsFirst, InnerCall;
  }

  /** When the outermost call returns nothing of it is left anywhere. */
  lemma PoppedToIdle(s: System)
    requires Common(s) && s.sup.frames == [] && s.toWorker == [] && Control(s.toSup) == [] && s.sup.pending == map[]
    ensures Idle(s)
  {
    hide Nesting, Graves;
    OnlyEvents(s.toSup);
    assert s.wrk.calls == map[];
    assert s.wrk.pending == map[];
  }

  /** When a nested call returns its caller is back in its service handler. */
  lemma PoppedToServing(s: System, below: Frame)
    requires Common(s) && s.sup.frames != [] && below == Last(s.sup.frames)
    requires below.serving.Some? && !below.cancelSent && !below.cancelAcknowledged
    requires below.correlation in s.wrk.calls && !s.wrk.calls[below.correlation]
    requires below.serving.value.correlation in s.wrk.pending
    requires s.wrk.pending[below.serving.value.correlation] == below.correlation
    requires s.toWorker == [] && Control(s.toSup) == [] && s.sup.pending == map[]
    ensures Busy(s, Serving(below.serving.value.correlation), NotSent)
  {
    hide Nesting, OuterCalls, Events, Graves, Requests, Active;
    OnlyEvents(s.toSup);
  }

  /** What the frame below the returning call knows of its own call. */
  lemma BelowIsSuspended(s: System)
    requires Common(s) && |s.sup.frames| >= 2
    ensures var below := s.sup.frames[|s.sup.frames| - 2];
            && below.serving.Some? && !below.cancelSent && !below.cancelAcknowledged
            && below.correlation in s.wrk.calls && !s.wrk.calls[below.correlation]
            && below.serving.value.correlation in s.wrk.pending
            && s.wrk.pending[below.serving.value.correlation] == below.correlation
  {
    hide Stacks, Parents, Justified, WorkerShape, Events;
  }

  lemma ReturnKeeps(s: System, b: Baton, k: CancelStage)
    requires Common(s) && Busy(s, b, k) && Pumping(s) && b.Stored? && (k.NotSent? || k.Acked?)
    ensures Coherent(s.(sup := Popped(s.sup)))
  {
    hide Common, Busy, Idle, Control;
    var t := s.(sup := Popped(s.sup));
    PoppedCommon(s, b, k);
    PoppedQuiet(s, b, k);
    if t.sup.frames == [] {
      PoppedToIdle(t);
    } else {
      BelowIsSuspended(s);
      PoppedToServing(t, s.sup.frames[|s.sup.frames| - 2]);
    }
  }

  /** The top of the loop, read as its cancellation half followed by its timeout and return tests. */
  lemma TopOutcome(s: System)
    requires Pumping(s)
    ensures var (sup1, sent) := CancelIfDue(s.sup, s.generation, s.now, s.latched, s.grace);
            var t := SupervisorStep(s, SupervisorTop);
            var f := Last(sup1.frames);
            || t.sup.fault == Some(CancelTimeout)
            || t == s.(toWorker := s.toWorker + sent,
                       sup := if f.correlation in sup1.pending && (!f.cancelSent || f.cancelAcknowledged)
                              then Popped(sup1) else sup1)
  {
    hide CancelIfDue;
  }

  lemma TopKeeps(s: System, b: Baton, k: CancelStage)
    requires Common(s) && Busy(s, b, k) && Pumping(s)
    ensures var t := SupervisorStep(s, SupervisorTop);
            || t.sup.fault == Some(CancelTimeout)
            || (t.sup.fault == s.sup.fault && Coherent(t))
  {
    hide Common, Busy, Idle, TopOfLoop;
    TopOutcome(s);
    CancelWritten(s, b, k);
    CancelCommon(s);
    var (sup1, sent) := CancelIfDue(s.sup, s.generation, s.now, s.latched, s.grace);
    var t1 := s.(sup := sup1, toWorker := s.toWorker + sent);
    var k1 := if sent == [] then k else InPipe;
    StoredIffPending(t1, b, k1);
    if b.Stored? && (k1.NotSent? || k1.Acked?) {
      ReturnKeeps(t1, b, k1);
    }
  }

  /** The loop's return test says exactly that the reply is stored and no acknowledgement is owed. */
  lemma StoredIffPending(s: System, b: Baton, k: CancelStage)
    requires Busy(s, b, k)
    ensures Last(s.sup.frames).correlation in s.sup.pending <==> b.Stored?
    ensures b.Stored? ==> s.sup.pending[Last(s.sup.frames).correlation] == b.stored
    ensures !Last(s.sup.frames).cancelSent || Last(s.sup.frames).cancelAcknowledged <==> k.NotSent? || k.Acked?
    ensures Last(s.sup.frames).cancelSent == !k.NotSent?
  {
    hide Down, Up, EventsFirst, InnerCall;
  }

  lemma WorkerReadKeeps(s: System, b: Baton, k: CancelStage)
    requires !s.wrk.failed && Common(s) && Busy(s, b, k)
    ensures var t := WorkerStep(s, WorkerRead); !t.wrk.failed && Coherent(t)
  {
    if s.toWorker != [] {
      WorkerHead(s, b, k);
      match s.toWorker[0].body
      case Request(_, _) => RequestArrives(s, b, k); RequestAccepted(s, b, k);
      case Cancel(_) => CancelArrives(s, b, k);
      case Reply(_) => AnswerArrives(s, b, k); AnswerIsNext(s, b, k);
    }
    hide Common, Busy, Idle;
  }

  lemma WorkerHead(s: System, b: Baton, k: CancelStage)
    requires Busy(s, b, k) && s.toWorker != []
    ensures s.toWorker[0].body.Request? || s.toWorker[0].body.Cancel? || s.toWorker[0].body.Reply?
    ensures s.toWorker[0].body.Request? ==> b.Queued?
  {
    hide Up, EventsFirst, InnerCall, InnerFrame;
  }

  lemma SupervisorReadKeeps(s: System, b: Baton, k: CancelStage)
    requires s.sup.fault.None? && Common(s) && Busy(s, b, k)
    ensures var t := SupervisorStep(s, SupervisorRead);
            || t.sup.fault == Some(ServiceCycle)
            || (t.sup.fault.None? && Coherent(t))
  {
    if Pumping(s) && s.toSup != [] {
      SupervisorHead(s, b, k);
      match s.toSup[0].body
      case Request(_, _) => RequestRead(s, b, k);
      case Cancel(_) => AckRead(s, b, k);
      case Reply(_) => ReplyRead(s, b, k);
      case Event => EventRead(s, b, k);
    }
    hide Common, Busy, Idle, Receive;
  }

  lemma SupervisorHead(s: System, b: Baton, k: CancelStage)
    requires Busy(s, b, k) && s.toSup != []
    ensures !s.toSup[0].body.Hello?
  {
    if !s.toSup[0].body.Event? {
      HeadIsExpected(s, b, k);
    }
  }

  lemma StepKeeps(s: System, a: Action)
    requires Inv(s)
    ensures Inv(Step(s, a))
  {
    hide Common, Idle;
    if !Dead(s) {
      match a
      case Pass(ticks, probes) => PassKeeps(s, ticks, probes);
      case WorkerLog(call) => LogKeeps(s, call);
      case EngineCall(timeout, probe, delay) => EngineCallKeeps(s, timeout, probe, delay); OnlyWorkerFails(s, a);
      case _ =>
        if Idle(s) {
          IdleStutters(s, a);
        } else {
          var b: Baton, k: CancelStage :| Busy(s, b, k);
          BusyStep(s, b, k, a);
        }
    }
  }

  lemma OnlyWorkerFails(s: System, a: Action)
    requires !a.WorkerRead?
    ensures Step(s, a).wrk.failed == s.wrk.failed
  {
  }

  lemma IdleStutters(s: System, a: Action)
    requires Idle(s) && !Dead(s) && !a.Pass? && !a.EngineCall?
    ensures Step(s, a) == s
  {
  }

  lemma BusySupervisorStep(s: System, b: Baton, k: CancelStage, a: Action)
    requires !Dead(s) && Common(s) && Busy(s, b, k)
    requires !a.EngineCall?
    ensures var t := SupervisorStep(s, a);
            && t.wrk == s.wrk
            && (t.sup.fault.None? ==> Coherent(t))
            && (t.sup.fault.Some? ==> !IsGuard(t.sup.fault.value))
  {
    hide Common, Idle, Busy, TopOfLoop, Receive, FinishService, AnswerOf, Control;
    BusyHasFrames(s, b, k);
    match a
    case SupervisorTop => if Pumping(s) { TopKeeps(s, b, k); }
    case SupervisorRead => SupervisorReadKeeps(s, b, k);
    case HandlerDone(handled) =>
      if !Pumping(s) && s.sup.ancestry != [] { HandlerStep(s, b, k, handled); }
    case _ =>
  }

  lemma BusyWorkerStep(s: System, b: Baton, k: CancelStage, a: Action)
    requires !Dead(s) && Common(s) && Busy(s, b, k)
    requires !a.WorkerLog?
    ensures var t := WorkerStep(s, a);
            t.sup.fault.None? && !t.wrk.failed && Coherent(t)
  {
    hide Common, Idle, Busy, Accept, Bury, Waiting;
    match a
    case WorkerRead => WorkerReadKeeps(s, b, k);
    case WorkerService(call, operation, key) =>
      if call in s.wrk.calls && !Waiting(s.wrk, call) && !operation.EngineOperation? {
        ServiceStep(s, b, k, call, operation, key);
      }
    case WorkerFinish(call, response) =>
      if call in s.wrk.calls && !Waiting(s.wrk, call) { FinishStep(s, b, k, call, response); }
    case _ =>
  }

  lemma BusyStep(s: System, b: Baton, k: CancelStage, a: Action)
    requires !Dead(s) && Common(s) && Busy(s, b, k)
    requires !a.Pass? && !a.WorkerLog? && !a.EngineCall?
    ensures Inv(Step(s, a))
  {
    hide Common, Busy, Coherent, SupervisorStep, WorkerStep;
    if a.WorkerRead? || a.WorkerService? || a.WorkerFinish? {
      BusyWorkerStep(s, b, k, a);
    } else {
      BusySupervisorStep(s, b, k, a);
    }
  }
}
