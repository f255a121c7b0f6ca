/**
  The wire protocol between the Engine's worker supervisor and the Python worker.

  This module gives both ends as pure step functions over values: one function
  per atomic piece of code, with the guards of the source in the source's order.
  The classes in WorkerSupervisor.dfy and WorkerDispatcher.dfy run the same
  pieces in place and are proved equal to these functions; WireSystem.dfy
  composes the two ends over a pair of FIFO channels.
*/
module WireProtocol {
  import opened Wrappers

  const TICKS_PER_MS := 1_000_000
  const MAX_DEPTH := 16
  const MAX_TOMBSTONES := 64

  datatype Status = Ok | TimedOut | Cancelled | Other(code: nat)

  datatype Response = Response(status: Status, payload: string, diagnostic: string, indeterminate: bool)

  /** The three scoped service operations; every other wire operation is EngineOperation. */
  datatype Operation = EngineOperation | ResolveService | InvokeService | ReleaseService

  datatype Body =
    | Request(operation: Operation, key: string)
    | Reply(response: Response)
    | Cancel(acknowledged: bool)
    | Event
    | Hello

  datatype Envelope = Envelope(generation: nat, correlation: nat, parent: nat, body: Body)

  function Plain(status: Status, diagnostic: string): Response {
    Response(status, "", diagnostic, false)
  }

  // ---------------------------------------------------------------- supervisor

  /** Why the supervisor gave up. The last five are failed receive guards. */
  datatype Fault =
    | IoFailed
    | HandlerThrew
    | CancelTimeout
    | ServiceCycle
    | StoppedDuringCall
    | GenerationInvalid
    | CorrelationInvalid
    | CancelInvalid
    | ServiceInvalid
    | ProtocolInvalid

  predicate IsGuard(f: Fault) {
    f.GenerationInvalid? || f.CorrelationInvalid? || f.CancelInvalid? || f.ServiceInvalid? || f.ProtocolInvalid?
  }

  /** The service request a frame is handling; `previous` is the service parent to restore. */
  datatype Service = Service(correlation: nat, previous: nat, blocked: bool)

  /** One nested Call: its entry on the three stacks and the locals of its Pump. */
  datatype Frame = Frame(
    correlation: nat,
    deadline: int,
    probe: Option<nat>,
    cancelSent: bool,
    cancelAcknowledged: bool,
    interrupted: Status,
    grace: int,
    serving: Option<Service>)

  datatype Supervisor = Supervisor(
    fault: Option<Fault>,
    next: nat,
    lastService: nat,
    serviceParent: nat,
    frames: seq<Frame>,
    ancestry: seq<string>,
    pending: map<nat, Response>)

  /** How the prologue of Call ends: an answer without dispatch, the depth error, or a request to write. */
  datatype Entry = Answered(response: Response) | Refused | Dispatched(request: Envelope)

  /** How one piece of Pump ends. */
  datatype Turn = Continue | Returned(response: Response) | Raised(fault: Fault)

  function Last<T>(s: seq<T>): T
    requires s != []
  {
    s[|s| - 1]
  }

  function Rest<T>(s: seq<T>): seq<T>
    requires s != []
  {
    s[..|s| - 1]
  }

  predicate Probed(probe: Option<nat>, latched: set<nat>) {
    probe.Some? && probe.value in latched
  }

  /** Some frame's cancellation probe fires. */
  predicate CancellationRequested(frames: seq<Frame>, latched: set<nat>) {
    exists i :: 0 <= i < |frames| && Probed(frames[i].probe, latched)
  }

  predicate Active(frames: seq<Frame>, correlation: nat) {
    exists i :: 0 <= i < |frames| && frames[i].correlation == correlation
  }

  /** Whole milliseconds left, truncated toward zero. */
  function LeftMs(deadline: int, now: int): int {
    if deadline >= now then (deadline - now) / TICKS_PER_MS else -((now - deadline) / TICKS_PER_MS)
  }

  function Min(a: int, b: int): int {
    if a <= b then a else b
  }

  function EffectiveDeadline(frames: seq<Frame>, proposed: int): int {
    if frames == [] then proposed else Min(proposed, Last(frames).deadline)
  }

  /** Call up to and including the request it writes; `written` is the clock at the remaining-budget check. */
  function Enter(s: Supervisor, generation: nat, timeout: int, probe: Option<nat>, latched: set<nat>,
                 entered: int, written: int): (r: (Supervisor, Entry))
  {
    if timeout <= 0 then
      (s, Answered(Plain(TimedOut, "Invocation budget expired before dispatch.")))
    else if Probed(probe, latched) || CancellationRequested(s.frames, latched) then
      (s, Answered(Plain(Cancelled, "Invocation cancelled before dispatch.")))
    else if |s.frames| >= MAX_DEPTH then
      (s, Refused)
    else
      var deadline := EffectiveDeadline(s.frames, entered + timeout * TICKS_PER_MS);
      if LeftMs(deadline, written) <= 0 then
        (s.(next := s.next + 2), Answered(Plain(TimedOut, "Nested invocation budget expired.")))
      else
        var frame := Frame(s.next, deadline, probe, false, false, Ok, deadline, None);
        (s.(next := s.next + 2, frames := s.frames + [frame]),
         Dispatched(Envelope(generation, s.next, s.serviceParent, Request(EngineOperation, ""))))
  }

  function WithLast(s: Supervisor, frame: Frame): Supervisor
    requires s.frames != []
  {
    s.(frames := Rest(s.frames) + [frame])
  }

  function Abort(s: Supervisor, fault: Fault): Supervisor {
    s.(fault := Some(fault), pending := map[])
  }

  /** What a cancelled call reports: a new status and diagnostic, everything else as the worker sent it. */
  function Interrupt(response: Response, status: Status): Response {
    response.(status := status, diagnostic := "Invocation interrupted. " + response.diagnostic)
  }

  /** The cancellation that the top of the Pump loop may write. */
  function CancelIfDue(s: Supervisor, generation: nat, now: int, latched: set<nat>, grace: nat): (Supervisor, seq<Envelope>)
    requires s.frames != []
  {
    var f := Last(s.frames);
    if !f.cancelSent && (now >= f.deadline || CancellationRequested(s.frames, latched)) then
      var status := if now >= f.deadline then TimedOut else Cancelled;
      (WithLast(s, f.(cancelSent := true, interrupted := status, grace := now + grace)),
       [Envelope(generation, f.correlation, 0, Cancel(false))])
    else
      (s, [])
  }

  /** The top of the Pump loop, up to the Read. */
  function TopOfLoop(s: Supervisor, generation: nat, now: int, latched: set<nat>, grace: nat): (Supervisor, seq<Envelope>, Turn)
    requires s.frames != []
  {
    var (s1, sent) := CancelIfDue(s, generation, now, latched, grace);
    var f := Last(s1.frames);
    if f.cancelSent && now >= f.grace then
      (Abort(s1, CancelTimeout), sent, Raised(CancelTimeout))
    else if f.correlation in s1.pending && (!f.cancelSent || f.cancelAcknowledged) then
      var response := s1.pending[f.correlation];
      (s1.(pending := s1.pending - {f.correlation}, frames := Rest(s1.frames)), sent,
       Returned(if f.cancelSent then Interrupt(response, f.interrupted) else response))
    else
      (s1, sent, Continue)
  }

  function Raise(s: Supervisor, fault: Fault): (Supervisor, Turn) {
    (Abort(s, fault), Raised(fault))
  }

  /** One received message, from the generation check to the start of a service handler. */
  function Receive(s: Supervisor, generation: nat, m: Envelope, now: int, latched: set<nat>): (Supervisor, Turn)
    requires s.frames != []
  {
    var f := Last(s.frames);
    if m.generation != generation then Raise(s, GenerationInvalid)
    else match m.body
      case Reply(response) =>
        if !Active(s.frames, m.correlation) || m.correlation in s.pending then Raise(s, CorrelationInvalid)
        else (s.(pending := s.pending[m.correlation := response]), Continue)
      case Cancel(acknowledged) =>
        if !Active(s.frames, m.correlation) || !acknowledged || !f.cancelSent || f.cancelAcknowledged ||
           m.correlation != f.correlation then Raise(s, CancelInvalid)
        else (WithLast(s, f.(cancelAcknowledged := true)), Continue)
      case Event =>
        if !Active(s.frames, m.correlation) then Raise(s, CorrelationInvalid) else (s, Continue)
      case Request(operation, key) =>
        if m.correlation % 2 != 1 || m.correlation <= s.lastService || !Active(s.frames, m.parent) ||
           operation.EngineOperation? then Raise(s, ServiceInvalid)
        else if key in s.ancestry then Raise(s.(lastService := m.correlation), ServiceCycle)
        else
          var blocked := !operation.ReleaseService? &&
                         (f.cancelSent || now >= f.deadline || CancellationRequested(s.frames, latched));
          var s1 := WithLast(s, f.(serving := Some(Service(m.correlation, s.serviceParent, blocked))));
          (s1.(lastService := m.correlation, serviceParent := m.correlation, ancestry := s.ancestry + [key]), Continue)
      case Hello => Raise(s, ProtocolInvalid)
  }

  /** The answer to the service request in hand: the handler's, unless new device work is forbidden. */
  function ServiceAnswer(f: Frame, handled: Response, now: int): Response
    requires f.serving.Some?
  {
    if f.serving.value.blocked then
      Plain(if now >= f.deadline then TimedOut else Cancelled, "Service invocation interrupted before dispatch.")
    else handled
  }

  function FinishService(s: Supervisor, generation: nat, handled: Response, now: int): (Supervisor, Envelope)
    requires s.frames != [] && Last(s.frames).serving.Some? && s.ancestry != []
  {
    var f := Last(s.frames);
    var service := f.serving.value;
    var s1 := WithLast(s, f.(serving := None));
    (s1.(serviceParent := service.previous, ancestry := Rest(s.ancestry)),
     Envelope(generation, service.correlation, 0, Reply(ServiceAnswer(f, handled, now))))
  }

  // -------------------------------------------------------------------- worker

  /** Terminal-call tombstones: an insertion-ordered dictionary from correlation to "cancellation seen". */
  datatype Tombstones = Tombstones(order: seq<nat>, marked: map<nat, bool>)

  datatype Worker = Worker(
    failed: bool,
    calls: map<nat, bool>,       // live calls and whether their cancellation was requested
    pending: map<nat, nat>,      // outstanding service requests and the call awaiting each
    completed: Tombstones,
    nextRequest: nat,
    lastRequest: nat)

  function Acknowledge(generation: nat, correlation: nat): Envelope {
    Envelope(generation, correlation, 0, Cancel(true))
  }

  function Fail(w: Worker): (Worker, seq<Envelope>) {
    (w.(failed := true), [])
  }

  /** One control message. */
  function Accept(w: Worker, generation: nat, m: Envelope): (Worker, seq<Envelope>) {
    match m.body
    case Request(_, _) =>
      if m.correlation % 2 != 0 || m.correlation <= w.lastRequest || |w.calls| >= MAX_DEPTH then Fail(w)
      else if m.parent != 0 && m.parent !in w.pending then Fail(w)
      else (w.(lastRequest := m.correlation, calls := w.calls[m.correlation := false]), [])
    case Cancel(acknowledged) =>
      if acknowledged then Fail(w)
      else if m.correlation in w.calls && !w.calls[m.correlation] then
        (w.(calls := w.calls[m.correlation := true]), [Acknowledge(generation, m.correlation)])
      else if m.correlation in w.completed.marked && !w.completed.marked[m.correlation] then
        (w.(completed := w.completed.(marked := w.completed.marked[m.correlation := true])),
         [Acknowledge(generation, m.correlation)])
      else Fail(w)
    case Reply(_) =>
      if m.correlation !in w.pending then Fail(w) else (w.(pending := w.pending - {m.correlation}), [])
    case _ => Fail(w)
  }

  /** The call is suspended on a service request of its own. */
  predicate Waiting(w: Worker, call: nat) {
    exists service :: service in w.pending && w.pending[service] == call
  }

  function RequestService(w: Worker, generation: nat, call: nat, operation: Operation, key: string): (Worker, Envelope) {
    (w.(nextRequest := w.nextRequest + 2, pending := w.pending[w.nextRequest := call]),
     Envelope(generation, w.nextRequest, call, Request(operation, key)))
  }

  /** Dictionary assignment followed by dropping the oldest entry once there are more than 64. */
  function Bury(t: Tombstones, call: nat, cancelled: bool): Tombstones {
    var order := if call in t.marked then t.order else t.order + [call];
    var marked := t.marked[call := cancelled];
    if |marked| > MAX_TOMBSTONES && order != [] then Tombstones(order[1..], marked - {order[0]})
    else Tombstones(order, marked)
  }

  /** The end of dispatch: the terminal reply, then the tombstone. */
  function Finish(w: Worker, generation: nat, call: nat, response: Response): (Worker, Envelope)
    requires call in w.calls
  {
    (w.(calls := w.calls - {call}, completed := Bury(w.completed, call, w.calls[call])),
     Envelope(generation, call, 0, Reply(response)))
  }
}
