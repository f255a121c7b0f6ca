/**
  What calls and service requests are answered, told from the history of a run:
  who was called with which budget, what the worker finished with, when a
  cancellation was written, and what a handler returned.
*/
module WireAnswers {
  import opened Wrappers
  import opened WireProtocol
  import opened WireSystem
  import opened WireGuarantees

  /** A call that was sent: the time by which it has to be over, and its cancellation probe. */
  datatype Sent = Sent(due: int, probe: Option<nat>)

  /** A cancellation that was written: when, and whether the call was late then. */
  datatype Halt = Halt(at: int, late: bool)

  /** A service request that was let in: its key, and whether it may still do device work. */
  datatype Asked = Asked(key: string, allowed: bool)

  datatype Chronicle = Chronicle(
    sent: map<nat, Sent>,
    told: map<nat, Response>,
    cancelled: map<nat, Halt>,
    asked: map<nat, Asked>)

  const BLANK := Chronicle(map[], map[], map[], map[])

  predicate OfSupervisor(a: Action) {
    a.EngineCall? || a.SupervisorTop? || a.SupervisorRead? || a.HandlerDone? || a.SupervisorIoFailure? || a.HandlerFailure? ||
    a.SupervisorStop?
  }

  /** A probe of some active call has fired. */
  predicate Requested(s: System, ch: Chronicle) {
    exists i :: 0 <= i < |s.sup.frames| && s.sup.frames[i].correlation in ch.sent &&
      ch.sent[s.sup.frames[i].correlation].probe.Some? && ch.sent[s.sup.frames[i].correlation].probe.value in s.latched
  }

  predicate Late(s: System, ch: Chronicle, c: nat) {
    c in ch.sent && s.now >= ch.sent[c].due
  }

  /** The time by which a call made now has to be over: its own budget, and never later than the enclosing call's. */
  function Due(s: System, ch: Chronicle, timeout: int): int {
    var own := s.now + timeout * 1_000_000;
    if s.sup.frames == [] || Last(s.sup.frames).correlation !in ch.sent then own
    else
      var enclosing := ch.sent[Last(s.sup.frames).correlation].due;
      if enclosing < own then enclosing else own
  }

  /** What a step adds to the history. */
  function Note(ch: Chronicle, s: System, a: Action): Chronicle {
    var t := Step(s, a);
    if Dead(s) then ch
    else match a
      case EngineCall(timeout, probe, _) =>
        if |t.sup.frames| > |s.sup.frames| then ch.(sent := ch.sent[s.sup.next := Sent(Due(s, ch, timeout), probe)]) else ch
      case WorkerFinish(call, response) =>
        if call in s.wrk.calls && !Waiting(s.wrk, call) then ch.(told := ch.told[call := response]) else ch
      case SupervisorTop =>
        if Pumping(s) && |t.toWorker| > |s.toWorker| then
          var c := Last(s.sup.frames).correlation;
          ch.(cancelled := ch.cancelled[c := Halt(s.now, Late(s, ch, c))])
        else ch
      case SupervisorRead =>
        if Pumping(s) && t.sup.fault.None? && s.toSup != [] && s.toSup[0].body.Request? then
          var m, c := s.toSup[0], Last(s.sup.frames).correlation;
          ch.(asked := ch.asked[m.correlation := Asked(m.body.key,
            m.body.operation.ReleaseService? || !(c in ch.cancelled || Late(s, ch, c) || Requested(s, ch)))])
        else ch
      case _ => ch
  }

  function Annals(s: System, schedule: seq<Action>): Chronicle
    decreases |schedule|
  {
    if schedule == [] then BLANK else Note(Annals(s, Rest(schedule)), Run(s, Rest(schedule)), Last(schedule))
  }

  // ------------------------------------------------- the history and the state

  /** Every terminal reply, under way or stored, is what the worker finished that call with. */
  ghost predicate Replied(sup: Supervisor, wrk: Worker, toSup: seq<Envelope>, told: map<nat, Response>) {
    && (forall i :: 0 <= i < |toSup| && toSup[i].body.Reply? ==>
          toSup[i].correlation in told && told[toSup[i].correlation] == toSup[i].body.response)
    && (forall c :: c in sup.pending ==> c in told && told[c] == sup.pending[c])
    && (forall c :: c in told ==> c !in wrk.calls && c <= wrk.lastRequest)
  }

  /** Every active call has the deadline, the probe and the cancellation that history gives it. */
  ghost predicate Framed(frames: seq<Frame>, next: nat, grace: nat, ch: Chronicle) {
    && (forall c :: c in ch.sent || c in ch.cancelled ==> c < next)
    && (forall i :: 0 <= i < |frames| ==> FrameTold(frames[i], grace, ch))
  }

  ghost predicate FrameTold(f: Frame, grace: nat, ch: Chronicle) {
    && f.correlation in ch.sent && ch.sent[f.correlation] == Sent(f.deadline, f.probe)
    && (f.cancelSent <==> f.correlation in ch.cancelled)
    && (f.cancelSent ==>
          && f.interrupted == (if ch.cancelled[f.correlation].late then TimedOut else Status.Cancelled)
          && f.grace == ch.cancelled[f.correlation].at + grace)
  }

  /** Every service request in hand has the key and the permission that history gives it. */
  ghost predicate ServicesTold(frames: seq<Frame>, ancestry: seq<string>, asked: map<nat, Asked>) {
    forall i :: 0 <= i < |frames| && frames[i].serving.Some? ==>
      && i < |ancestry| && frames[i].serving.value.correlation in asked
      && asked[frames[i].serving.value.correlation] == Asked(ancestry[i], !frames[i].serving.value.blocked)
  }

  ghost predicate Recorded(s: System, ch: Chronicle) {
    && Replied(s.sup, s.wrk, s.toSup, ch.told)
    && Framed(s.sup.frames, s.sup.next, s.grace, ch)
    && ServicesTold(s.sup.frames, s.sup.ancestry, ch.asked)
    && (forall v :: v in ch.asked ==> v <= s.sup.lastService)
  }

  // ------------------------------------------------------ every step is recorded

  lemma WorkerReadTold(s: System, ch: Chronicle)
    requires Replied(s.sup, s.wrk, s.toSup, ch.told) && s.toWorker != []
    ensures var (wrk, sent) := Accept(s.wrk, s.generation, s.toWorker[0]);
            !wrk.failed ==> Replied(s.sup, wrk, s.toSup + sent, ch.told)
  {
  }

  lemma FinishTold(s: System, ch: Chronicle, call: nat, response: Response)
    requires Replied(s.sup, s.wrk, s.toSup, ch.told) && call in s.wrk.calls && call <= s.wrk.lastRequest
    ensures var (wrk, reply) := Finish(s.wrk, s.generation, call, response);
            Replied(s.sup, wrk, s.toSup + [reply], ch.told[call := response])
  {
    hide Bury;
  }

  lemma CallsAreOld(s: System)
    requires Coherent(s)
    ensures forall c :: c in s.wrk.calls ==> c <= s.wrk.lastRequest
  {
    hide Nesting, Graves, Requests, OuterCalls, Events, Active, Busy;
  }

  lemma ReadNoted(s: System, ch: Chronicle)
    requires Recorded(s, ch)
    ensures var t := WorkerStep(s, WorkerRead); !t.wrk.failed || t.wrk == s.wrk ==> Recorded(t, ch)
  {
    hide Framed, ServicesTold;
    if s.toWorker != [] { WorkerReadTold(s, ch); }
    hide Accept, Replied;
  }

  lemma FinishNoted(s: System, ch: Chronicle, call: nat, response: Response)
    requires Recorded(s, ch) && call in s.wrk.calls && call <= s.wrk.lastRequest && !Waiting(s.wrk, call)
    ensures Recorded(WorkerStep(s, WorkerFinish(call, response)), ch.(told := ch.told[call := response]))
  {
    hide ServicesTold;
    FinishTold(s, ch, call, response);
    hide Finish, Replied;
  }

  /** Service requests and log lines are not terminal replies. */
  lemma AskNoted(s: System, ch: Chronicle, a: Action)
    requires Recorded(s, ch) && (a.WorkerService? || a.WorkerLog?)
    ensures Recorded(WorkerStep(s, a), ch)
  {
    hide Framed, ServicesTold, Waiting;
  }

  lemma WorkerNoted(s: System, a: Action, ch: Chronicle)
    requires !Dead(s) && Coherent(s) && Recorded(s, ch) && !OfSupervisor(a)
    ensures !Step(s, a).wrk.failed ==> Recorded(Step(s, a), Note(ch, s, a))
  {
    CallsAreOld(s);
    hide Coherent, Framed, ServicesTold, Replied, Waiting, SupervisorStep;
    match a
    case WorkerRead => hide WorkerStep; ReadNoted(s, ch);
    case WorkerFinish(call, response) =>
      if call in s.wrk.calls && !Waiting(s.wrk, call) {
        hide WorkerStep, Recorded;
        FinishNoted(s, ch, call, response);
      }
    case WorkerService(_, _, _) => hide WorkerStep; AskNoted(s, ch, a);
    case WorkerLog(_) => hide WorkerStep; AskNoted(s, ch, a);
    case Pass(_, _) => hide WorkerStep;
  }

  // The supervisor's steps.

  lemma SentNoted(s: System, ch: Chronicle, f: Frame, sent: Sent)
    requires Stacks(s.sup.frames, s.sup.next) && Framed(s.sup.frames, s.sup.next, s.grace, ch)
    requires f == Frame(s.sup.next, sent.due, sent.probe, false, false, Ok, sent.due, None)
    ensures Framed(s.sup.frames + [f], s.sup.next + 2, s.grace, ch.(sent := ch.sent[s.sup.next := sent]))
  {
  }

  lemma EntryDeadline(s: System, ch: Chronicle, timeout: int)
    requires Framed(s.sup.frames, s.sup.next, s.grace, ch)
    ensures EffectiveDeadline(s.sup.frames, s.now + timeout * TICKS_PER_MS) == Due(s, ch, timeout)
  {
  }

  /** A call that is sent, and one that is not. */
  lemma EnterExactly(s: System, timeout: int, probe: Option<nat>, written: int)
    ensures var (sup, entry) := Enter(s.sup, s.generation, timeout, probe, s.latched, s.now, written);
            var due := EffectiveDeadline(s.sup.frames, s.now + timeout * TICKS_PER_MS);
            if entry.Dispatched? then
              sup == s.sup.(next := s.sup.next + 2,
                            frames := s.sup.frames + [Frame(s.sup.next, due, probe, false, false, Ok, due, None)])
            else sup == s.sup.(next := sup.next) && sup.next >= s.sup.next
  {
    hide CancellationRequested;
  }

  lemma CallShape(s: System, timeout: int, probe: Option<nat>, delay: nat)
    requires !Dead(s)
    ensures var t := Step(s, EngineCall(timeout, probe, delay));
            && t == s.(sup := t.sup, toWorker := t.toWorker, now := t.now)
            && t.sup == if s.sup.frames == [] || Handling(s)
                        then Enter(s.sup, s.generation, timeout, probe, s.latched, s.now, s.now + delay).0 else s.sup
  {
    hide Enter, WorkerStep;
  }

  lemma CallNoted(s: System, timeout: int, probe: Option<nat>, delay: nat, ch: Chronicle)
    requires !Dead(s) && Coherent(s) && Recorded(s, ch)
    ensures var a := EngineCall(timeout, probe, delay); Recorded(Step(s, a), Note(ch, s, a))
  {
    hide CancellationRequested, Replied, Stacks, ServicesTold, Coherent, Step;
    StacksOf(s);
    EntryDeadline(s, ch, timeout);
    CallShape(s, timeout, probe, delay);
    EnterExactly(s, timeout, probe, s.now + delay);
    hide Enter, EffectiveDeadline, Due, Handling;
    var sent := Sent(Due(s, ch, timeout), probe);
    var f := Frame(s.sup.next, sent.due, probe, false, false, Ok, sent.due, None);
    SentNoted(s, ch, f, sent);
    FramedLater(s, ch);
    RepliedLater(s, ch.told);
    OneMoreFrame(s, f, ch);
    hide Framed;
  }

  lemma StacksOf(s: System)
    requires Coherent(s)
    ensures Stacks(s.sup.frames, s.sup.next)
  {
    hide Outer, Parents, Justified, WorkerShape, OuterCalls, Events, Busy, Stacks;
  }

  lemma FramedLater(s: System, ch: Chronicle)
    requires Framed(s.sup.frames, s.sup.next, s.grace, ch)
    ensures forall next: nat :: next >= s.sup.next ==> Framed(s.sup.frames, next, s.grace, ch)
  {
  }

  lemma RepliedLater(s: System, told: map<nat, Response>)
    requires Replied(s.sup, s.wrk, s.toSup, told)
    ensures forall sup: Supervisor :: sup.pending == s.sup.pending ==> Replied(sup, s.wrk, s.toSup, told)
  {
  }

  lemma OneMoreFrame(s: System, f: Frame, ch: Chronicle)
    requires ServicesTold(s.sup.frames, s.sup.ancestry, ch.asked) && f.serving.None?
    ensures ServicesTold(s.sup.frames + [f], s.sup.ancestry, ch.asked)
  {
  }

  /** How far the stack of service keys reaches. */
  lemma AncestryHeight(s: System)
    requires Coherent(s)
    ensures s.sup.frames == [] || |s.sup.ancestry| == (if Pumping(s) then |s.sup.frames| - 1 else |s.sup.frames|)
    ensures forall i :: 0 <= i < |s.sup.frames| - 1 ==> s.sup.frames[i].serving.Some?
  {
    hide Stacks, Parents, Justified, WorkerShape, OuterCalls, Events, Busy;
  }

  lemma RequestedIs(s: System, ch: Chronicle)
    requires Framed(s.sup.frames, s.sup.next, s.grace, ch)
    ensures CancellationRequested(s.sup.frames, s.latched) <==> Requested(s, ch)
  {
  }

  /** The cancellation of the innermost call is due: it was not written, and the call is late or a probe has fired. */
  predicate HaltDue(s: System, ch: Chronicle)
    requires s.sup.frames != []
  {
    var c := Last(s.sup.frames).correlation;
    c !in ch.cancelled && (Late(s, ch, c) || Requested(s, ch))
  }

  function Halted(s: System, ch: Chronicle): Chronicle
    requires s.sup.frames != []
  {
    var c := Last(s.sup.frames).correlation;
    if HaltDue(s, ch) then ch.(cancelled := ch.cancelled[c := Halt(s.now, Late(s, ch, c))]) else ch
  }

  lemma OthersKeepCorrelation(frames: seq<Frame>, next: nat)
    requires Stacks(frames, next) && frames != []
    ensures forall i :: 0 <= i < |frames| - 1 ==> frames[i].correlation != Last(frames).correlation
  {
  }

  lemma HaltExactly(s: System, ch: Chronicle)
    requires Framed(s.sup.frames, s.sup.next, s.grace, ch) && s.sup.frames != []
    ensures CancelIfDue(s.sup, s.generation, s.now, s.latched, s.grace).1 ==
            if HaltDue(s, ch) then [Envelope(s.generation, Last(s.sup.frames).correlation, 0, Cancel(false))] else []
  {
    RequestedIs(s, ch);
    hide CancellationRequested, Requested;
    assert FrameTold(Last(s.sup.frames), s.grace, ch);
  }

  lemma HaltNoted(s: System, ch: Chronicle)
    requires Stacks(s.sup.frames, s.sup.next) && Framed(s.sup.frames, s.sup.next, s.grace, ch) && s.sup.frames != []
    ensures var sup := CancelIfDue(s.sup, s.generation, s.now, s.latched, s.grace).0;
            && Framed(sup.frames, sup.next, s.grace, Halted(s, ch)) && |sup.frames| == |s.sup.frames|
            && sup == s.sup.(frames := sup.frames) && Rest(sup.frames) == Rest(s.sup.frames)
            && Last(sup.frames).serving == Last(s.sup.frames).serving && Last(sup.frames).correlation == Last(s.sup.frames).correlation
  {
    OthersKeepCorrelation(s.sup.frames, s.sup.next);
    RequestedIs(s, ch);
    hide CancellationRequested, Requested, Stacks;
    assert FrameTold(Last(s.sup.frames), s.grace, ch);
  }

  lemma PopNoted(s: System, ch: Chronicle)
    requires Recorded(s, ch) && s.sup.frames != []
    ensures Recorded(s.(sup := Popped(s.sup)), ch)
  {
  }

  /** Another frame at the top of the stack that serves as much. */
  lemma TopFrameNoted(s: System, sup: Supervisor, ch: Chronicle, ch': Chronicle, toWorker: seq<Envelope>)
    requires Recorded(s, ch) && s.sup.frames != [] && |sup.frames| == |s.sup.frames| && sup == s.sup.(frames := sup.frames)
    requires Rest(sup.frames) == Rest(s.sup.frames) && Last(sup.frames).serving == Last(s.sup.frames).serving
    requires Framed(sup.frames, sup.next, s.grace, ch') && ch'.told == ch.told && ch'.asked == ch.asked
    ensures Recorded(s.(sup := sup, toWorker := toWorker), ch')
  {
    hide Framed;
    assert sup.frames == Rest(s.sup.frames) + [Last(sup.frames)];
  }

  lemma TopNoted(s: System, ch: Chronicle)
    requires !Dead(s) && Coherent(s) && Recorded(s, ch)
    ensures var t := Step(s, SupervisorTop); t.sup.fault.None? ==> Recorded(t, Note(ch, s, SupervisorTop))
  {
    hide Coherent, Recorded, TopOfLoop;
    if Pumping(s) {
      PumpNoted(s, ch);
    }
  }

  lemma PumpNoted(s: System, ch: Chronicle)
    requires !Dead(s) && Coherent(s) && Recorded(s, ch) && Pumping(s)
    ensures var t := Step(s, SupervisorTop); t.sup.fault.None? ==> Recorded(t, Note(ch, s, SupervisorTop))
  {
    hide Coherent, Stacks, Framed, Replied, ServicesTold, Recorded, CancellationRequested, Requested, Note, HaltDue, SupervisorStep, CancelIfDue;
    StacksOf(s);
    TopOutcome(s);
    RecordedFrames(s, ch);
    HaltExactly(s, ch);
    HaltNoted(s, ch);
    var (sup1, sent) := CancelIfDue(s.sup, s.generation, s.now, s.latched, s.grace);
    TopFrameNoted(s, sup1, ch, Halted(s, ch), s.toWorker + sent);
    PopNoted(s.(sup := sup1, toWorker := s.toWorker + sent), Halted(s, ch));
    if Step(s, SupervisorTop).sup.fault.None? {
      TopNote(s, ch);
    }
  }

  lemma TopNote(s: System, ch: Chronicle)
    requires Pumping(s) && !Dead(s) && (|Step(s, SupervisorTop).toWorker| > |s.toWorker| <==> HaltDue(s, ch))
    ensures Note(ch, s, SupervisorTop) == Halted(s, ch)
  {
    hide Step;
  }

  lemma RecordedFrames(s: System, ch: Chronicle)
    requires Recorded(s, ch)
    ensures Framed(s.sup.frames, s.sup.next, s.grace, ch)
  {
  }

  // What the supervisor reads.

  /** What a received request may do, told from history. */
  function AskedNow(s: System, ch: Chronicle, m: Envelope): Asked
    requires s.sup.frames != [] && m.body.Request?
  {
    var c := Last(s.sup.frames).correlation;
    Asked(m.body.key, m.body.operation.ReleaseService? || !(c in ch.cancelled || Late(s, ch, c) || Requested(s, ch)))
  }

  lemma RequestReceivedExactly(s: System, ch: Chronicle, m: Envelope)
    requires Framed(s.sup.frames, s.sup.next, s.grace, ch) && s.sup.frames != [] && m.body.Request?
    requires Receive(s.sup, s.generation, m, s.now, s.latched).1.Continue?
    ensures var service := Service(m.correlation, s.sup.serviceParent, !AskedNow(s, ch, m).allowed);
            Receive(s.sup, s.generation, m, s.now, s.latched).0 ==
              s.sup.(frames := Rest(s.sup.frames) + [Last(s.sup.frames).(serving := Some(service))],
                     lastService := m.correlation, serviceParent := m.correlation, ancestry := s.sup.ancestry + [m.body.key])
    ensures m.correlation > s.sup.lastService
  {
    RequestedIs(s, ch);
    hide CancellationRequested, Requested;
    assert FrameTold(Last(s.sup.frames), s.grace, ch);
  }

  lemma RequestNoted(s: System, ch: Chronicle, sup: Supervisor, v: nat, asked: Asked)
    requires Recorded(s, ch) && s.sup.frames != [] && v > s.sup.lastService
    requires |s.sup.ancestry| == |s.sup.frames| - 1 && Last(s.sup.frames).serving.None?
    requires sup == s.sup.(
      frames := Rest(s.sup.frames) + [Last(s.sup.frames).(serving := Some(Service(v, s.sup.serviceParent, !asked.allowed)))],
      lastService := v, serviceParent := v, ancestry := s.sup.ancestry + [asked.key])
    ensures Recorded(s.(sup := sup), ch.(asked := ch.asked[v := asked]))
  {
  }

  lemma TailNoted(s: System, ch: Chronicle)
    requires Recorded(s, ch) && s.toSup != []
    ensures Recorded(s.(toSup := s.toSup[1..]), ch)
  {
    hide Framed, ServicesTold;
  }

  lemma ReplyNoted(s: System, ch: Chronicle)
    requires Recorded(s, ch) && s.toSup != [] && s.toSup[0].body.Reply?
    ensures var m := s.toSup[0];
            Recorded(s.(sup := s.sup.(pending := s.sup.pending[m.correlation := m.body.response])), ch)
  {
    hide Framed, ServicesTold;
  }

  lemma AckNoted(s: System, ch: Chronicle)
    requires Recorded(s, ch) && s.sup.frames != []
    ensures Recorded(s.(sup := WithLast(s.sup, Last(s.sup.frames).(cancelAcknowledged := true))), ch)
  {
  }

  lemma RequestTaken(s: System, ch: Chronicle)
    requires Recorded(s, ch) && Pumping(s) && s.toSup != [] && s.toSup[0].body.Request?
    requires |s.sup.ancestry| == |s.sup.frames| - 1 && s.sup.fault.None?
    ensures var m := s.toSup[0];
            var (sup, turn) := Receive(s.sup, s.generation, m, s.now, s.latched);
            if turn.Continue? then
              Recorded(s.(sup := sup, toSup := s.toSup[1..]), ch.(asked := ch.asked[m.correlation := AskedNow(s, ch, m)]))
            else sup.fault.Some?
  {
    RecordedFrames(s, ch);
    var m := s.toSup[0];
    var (sup, turn) := Receive(s.sup, s.generation, m, s.now, s.latched);
    hide Framed, Replied, ServicesTold, Recorded, Requested, CancellationRequested, Active;
    if turn.Continue? {
      RequestReceivedExactly(s, ch, m);
      hide Receive;
      RequestNoted(s, ch, sup, m.correlation, AskedNow(s, ch, m));
      TailNoted(s.(sup := sup), ch.(asked := ch.asked[m.correlation := AskedNow(s, ch, m)]));
    }
  }

  lemma OtherTaken(s: System, ch: Chronicle)
    requires Recorded(s, ch) && Pumping(s) && s.toSup != [] && !s.toSup[0].body.Request? && s.sup.fault.None?
    ensures var sup := Receive(s.sup, s.generation, s.toSup[0], s.now, s.latched).0;
            sup.fault.None? ==> Recorded(s.(sup := sup, toSup := s.toSup[1..]), ch)
  {
    var m := s.toSup[0];
    hide Framed, Replied, ServicesTold, Recorded, Active;
    match m.body
    case Reply(_) =>
      ReplyNoted(s, ch);
      TailNoted(s.(sup := s.sup.(pending := s.sup.pending[m.correlation := m.body.response])), ch);
    case Cancel(_) =>
      AckNoted(s, ch);
      TailNoted(s.(sup := WithLast(s.sup, Last(s.sup.frames).(cancelAcknowledged := true))), ch);
    case _ => TailNoted(s, ch);
  }

  lemma SupervisorReadNoted(s: System, ch: Chronicle)
    requires !Dead(s) && Coherent(s) && Recorded(s, ch) && Pumping(s) && s.toSup != []
    ensures var t := SupervisorStep(s, SupervisorRead);
            t.sup.fault.None? ==>
              Recorded(t, if s.toSup[0].body.Request?
                          then ch.(asked := ch.asked[s.toSup[0].correlation := AskedNow(s, ch, s.toSup[0])]) else ch)
  {
    AncestryHeight(s);
    hide Coherent, Recorded, Receive;
    if s.toSup[0].body.Request? { RequestTaken(s, ch); } else { OtherTaken(s, ch); }
  }

  lemma HandlerNoted(s: System, ch: Chronicle, handled: Response)
    requires Recorded(s, ch) && Coherent(s)
    ensures Recorded(SupervisorStep(s, HandlerDone(handled)), ch)
  {
    AncestryHeight(s);
    hide Coherent;
    if s.sup.frames != [] && Last(s.sup.frames).serving.Some? && s.sup.ancestry != [] {
      var (sup, reply) := FinishService(s.sup, s.generation, handled, s.now);
      ServiceLeft(s, sup, ch);
      hide FinishService, Replied, Framed, ServicesTold;
    }
  }

  lemma ServiceLeft(s: System, sup: Supervisor, ch: Chronicle)
    requires Recorded(s, ch) && s.sup.frames != [] && |s.sup.ancestry| == |s.sup.frames|
    requires sup == s.sup.(frames := Rest(s.sup.frames) + [Last(s.sup.frames).(serving := None)],
                           ancestry := Rest(s.sup.ancestry), serviceParent := sup.serviceParent)
    ensures Recorded(s.(sup := sup), ch)
  {
  }

  lemma SupervisorNoted(s: System, a: Action, ch: Chronicle)
    requires !Dead(s) && Coherent(s) && Recorded(s, ch) && OfSupervisor(a)
    ensures var t := Step(s, a); t.sup.fault.None? ==> Recorded(t, Note(ch, s, a))
  {
    hide Coherent, Recorded, Framed, Replied, ServicesTold, Receive, TopOfLoop, Enter, FinishService;
    match a
    case EngineCall(timeout, probe, delay) => hide SupervisorStep, Note; CallNoted(s, timeout, probe, delay, ch);
    case SupervisorTop => hide SupervisorStep, Note; TopNoted(s, ch);
    case SupervisorRead =>
      if Pumping(s) && s.toSup != [] { SupervisorReadNoted(s, ch); hide SupervisorStep; }
    case HandlerDone(handled) => HandlerNoted(s, ch, handled); hide SupervisorStep;
    case _ =>
  }

  /** History and state agree after every schedule. */
  lemma {:induction false} AnnalsAreTrue(generation: nat, grace: nat, now: int, schedule: seq<Action>)
    ensures var s := Reached(generation, grace, now, schedule);
            s.sup.fault.None? ==> Recorded(s, Annals(Start(generation, grace, now), schedule))
    decreases |schedule|
  {
    hide Step, Note, Coherent;
    if schedule != [] {
      var s, a := Reached(generation, grace, now, Rest(schedule)), Last(schedule);
      AnnalsAreTrue(generation, grace, now, Rest(schedule));
      ReachedKeeps(generation, grace, now, Rest(schedule));
      ReachedKeeps(generation, grace, now, schedule);
      var ch := Annals(Start(generation, grace, now), Rest(schedule));
      hide Recorded, Run, Annals;
      if Dead(s) {
        DeadStays(s, a, ch);
      } else if OfSupervisor(a) {
        SupervisorNoted(s, a, ch);
      } else {
        WorkerNoted(s, a, ch);
      }
    }
  }

  lemma DeadStays(s: System, a: Action, ch: Chronicle)
    requires Dead(s)
    ensures Step(s, a) == s && Note(ch, s, a) == ch
  {
  }

  // ---------------------------------------------------------------- the answers

  /** What a call that is over answers: the worker's response as it is, or marked by what interrupted the call. */
  function AnswerDue(ch: Chronicle, c: nat): Response
    requires c in ch.told
  {
    var told := ch.told[c];
    if c !in ch.cancelled then told
    else
      Response(if ch.cancelled[c].late then TimedOut else Status.Cancelled, told.payload,
               "Invocation interrupted. " + told.diagnostic, told.indeterminate)
  }

  lemma {:induction false} ToldByWorker(s: System, schedule: seq<Action>, c: nat)
    requires c in Annals(s, schedule).told
    ensures exists i :: 0 <= i < |schedule| && schedule[i] == WorkerFinish(c, Annals(s, schedule).told[c])
    decreases |schedule|
  {
    hide Step, Run;
    var rest := Rest(schedule);
    if c in Annals(s, rest).told && Annals(s, rest).told[c] == Annals(s, schedule).told[c] {
      ToldByWorker(s, rest, c);
      var i :| 0 <= i < |rest| && rest[i] == WorkerFinish(c, Annals(s, rest).told[c]);
      assert schedule[i] == rest[i];
    } else {
      assert Last(schedule) == schedule[|schedule| - 1];
    }
  }

  /** The top of the loop as a function of the state and its history. */
  lemma TopTold(s: System, ch: Chronicle)
    requires Recorded(s, ch) && Pumping(s) && !Dead(s)
    requires Last(s.sup.frames).cancelAcknowledged ==> Last(s.sup.frames).cancelSent
    ensures var f := Last(s.sup.frames);
            var c := f.correlation;
            var (_, sent, turn) := TopOfLoop(s.sup, s.generation, s.now, s.latched, s.grace);
            && c in ch.sent
            && sent == (if HaltDue(s, ch) then [Envelope(s.generation, c, 0, Cancel(false))] else [])
            && (turn.Returned? <==>
                  c in s.sup.pending && !HaltDue(s, ch) &&
                  (c in ch.cancelled ==> f.cancelAcknowledged && s.now < ch.cancelled[c].at + s.grace))
            && (turn.Returned? ==> c in ch.told && turn.response == AnswerDue(ch, c))
            && (turn.Raised? <==>
                  if c in ch.cancelled then s.now >= ch.cancelled[c].at + s.grace else HaltDue(s, ch) && s.grace == 0)
            && (turn.Raised? ==> turn.fault == CancelTimeout)
  {
    RecordedFrames(s, ch);
    HaltExactly(s, ch);
    hide CancellationRequested, Requested, Framed, ServicesTold;
    assert FrameTold(Last(s.sup.frames), s.grace, ch) by { FrameOf(s, ch); }
  }

  lemma FrameOf(s: System, ch: Chronicle)
    requires Framed(s.sup.frames, s.sup.next, s.grace, ch) && s.sup.frames != []
    ensures FrameTold(Last(s.sup.frames), s.grace, ch)
  {
  }

  /**
    After every schedule, for the innermost call c in its loop: its cancellation goes
    out exactly when it is late or a probe of an active call has fired, and only once;
    it returns exactly when its one reply, and its one acknowledgement if it was
    cancelled, have been taken, within the grace period; and what it returns is what
    the worker finished it with, marked only by what interrupted it.
  */
  lemma CallAnswers(generation: nat, grace: nat, now: int, schedule: seq<Action>)
    requires var s := Reached(generation, grace, now, schedule); !Dead(s) && Pumping(s)
    ensures var s0 := Start(generation, grace, now);
            var s, ch := Reached(generation, grace, now, schedule), Annals(s0, schedule);
            var c := Last(s.sup.frames).correlation;
            var (_, sent, turn) := TopOfLoop(s.sup, s.generation, s.now, s.latched, s.grace);
            && sent == (if HaltDue(s, ch) then [Envelope(generation, c, 0, Cancel(false))] else [])
            && (turn.Returned? <==>
                  Replies(s0, schedule, c) == 1 && !HaltDue(s, ch) &&
                  (c in ch.cancelled ==> Acks(s0, schedule, c) == 1 && s.now < ch.cancelled[c].at + grace))
            && (turn.Returned? ==>
                  c in ch.told && turn.response == AnswerDue(ch, c) &&
                  exists i :: 0 <= i < |schedule| && schedule[i] == WorkerFinish(c, ch.told[c]))
            && (turn.Raised? <==>
                  if c in ch.cancelled then s.now >= ch.cancelled[c].at + grace else HaltDue(s, ch) && grace == 0)
  {
    var s0 := Start(generation, grace, now);
    var s, ch := Reached(generation, grace, now, schedule), Annals(s0, schedule);
    Initially(generation, grace, now);
    AnnalsAreTrue(generation, grace, now, schedule);
    ReachedKeeps(generation, grace, now, schedule);
    CountedRun(s0, schedule);
    Constant(s0, schedule);
    hide Recorded, Run, Annals, TopOfLoop, HaltDue, Replies, Acks;
    AcknowledgedWasSent(s);
    TopTold(s, ch);
    hide Inv, Coherent;
    var turn := TopOfLoop(s.sup, s.generation, s.now, s.latched, s.grace).2;
    if turn.Returned? { ToldByWorker(s0, schedule, Last(s.sup.frames).correlation); }
  }

  lemma AcknowledgedWasSent(s: System)
    requires Coherent(s) && s.sup.frames != []
    ensures Last(s.sup.frames).cancelAcknowledged ==> Last(s.sup.frames).cancelSent
  {
    hide Common, Down, Up, EventsFirst, InnerCall;
  }

  lemma {:induction false} Constant(s: System, schedule: seq<Action>)
    ensures Run(s, schedule).generation == s.generation && Run(s, schedule).grace == s.grace
    decreases |schedule|
  {
    if schedule != [] {
      hide Accept, Finish, RequestService, Enter, TopOfLoop, Receive, FinishService, Waiting;
      Constant(s, Rest(schedule));
    }
  }

  /**
    What a service request is answered: its handler's response, when it may do device
    work; otherwise its handler is not run, and the answer says whether the call is
    late.
  */
  lemma ServiceAnswers(generation: nat, grace: nat, now: int, schedule: seq<Action>, handled: Response)
    requires var s := Reached(generation, grace, now, schedule); !Dead(s) && s.sup.frames != [] && !Pumping(s)
    ensures var s, ch := Reached(generation, grace, now, schedule), Annals(Start(generation, grace, now), schedule);
            var c, v := Last(s.sup.frames).correlation, Last(s.sup.frames).serving.value.correlation;
            && c in ch.sent && v in ch.asked && (Handling(s) <==> ch.asked[v].allowed)
            && Step(s, HandlerDone(handled)).toWorker == s.toWorker +
                 [Envelope(generation, v, 0, Reply(
                    if ch.asked[v].allowed then handled
                    else Response(if s.now >= ch.sent[c].due then TimedOut else Status.Cancelled, "",
                                  "Service invocation interrupted before dispatch.", false)))]
  {
    var s, ch := Reached(generation, grace, now, schedule), Annals(Start(generation, grace, now), schedule);
    AnnalsAreTrue(generation, grace, now, schedule);
    ReachedKeeps(generation, grace, now, schedule);
    Constant(Start(generation, grace, now), schedule);
    AncestryHeight(s);
    hide Run, Annals, Inv, Coherent, Step, Recorded;
    ServiceTold(s, ch, handled);
  }

  /** For a request that may do no device work, no call can be made. */
  lemma NoCallWhenBlocked(s: System, timeout: int, probe: Option<nat>, delay: nat)
    requires s.sup.frames != [] && !Handling(s)
    ensures Step(s, EngineCall(timeout, probe, delay)) == s
  {
    hide Enter, WorkerStep;
  }

  lemma ServiceTold(s: System, ch: Chronicle, handled: Response)
    requires !Dead(s) && Recorded(s, ch) && s.sup.frames != [] && !Pumping(s) && |s.sup.ancestry| == |s.sup.frames|
    ensures var c, v := Last(s.sup.frames).correlation, Last(s.sup.frames).serving.value.correlation;
            && c in ch.sent && v in ch.asked && (Handling(s) <==> ch.asked[v].allowed)
            && Step(s, HandlerDone(handled)).toWorker == s.toWorker +
                 [Envelope(s.generation, v, 0, Reply(
                    if ch.asked[v].allowed then handled
                    else Response(if s.now >= ch.sent[c].due then TimedOut else Status.Cancelled, "",
                                  "Service invocation interrupted before dispatch.", false)))]
  {
    RecordedFrames(s, ch);
    FrameOf(s, ch);
    ServiceOf(s, ch);
    hide Framed, ServicesTold, Replied, Recorded, WorkerStep, Enter, TopOfLoop, Receive;
  }

  lemma ServiceOf(s: System, ch: Chronicle)
    requires Recorded(s, ch) && s.sup.frames != [] && Last(s.sup.frames).serving.Some?
    ensures var service := Last(s.sup.frames).serving.value;
            service.correlation in ch.asked && ch.asked[service.correlation].allowed == !service.blocked
  {
  }

  /** A service key is being served by some active call. */
  predicate InService(s: System, ch: Chronicle, key: string) {
    exists i :: 0 <= i < |s.sup.frames| && s.sup.frames[i].serving.Some? &&
      s.sup.frames[i].serving.value.correlation in ch.asked && ch.asked[s.sup.frames[i].serving.value.correlation].key == key
  }

  /** A service request is let in unless its key is already being served further out, which ends the connection. */
  lemma RequestsAreLetIn(generation: nat, grace: nat, now: int, schedule: seq<Action>)
    requires var s := Reached(generation, grace, now, schedule);
             !Dead(s) && Pumping(s) && s.toSup != [] && s.toSup[0].body.Request?
    ensures var s, ch := Reached(generation, grace, now, schedule), Annals(Start(generation, grace, now), schedule);
            var t, m := Step(s, SupervisorRead), s.toSup[0];
            if InService(s, ch, m.body.key) then t.sup.fault == Some(ServiceCycle)
            else
              && !Dead(t) && !Pumping(t) && |t.sup.frames| == |s.sup.frames|
              && Last(t.sup.frames).serving.value.correlation == m.correlation == t.sup.serviceParent
              && (Handling(t) <==>
                    m.body.operation.ReleaseService? ||
                    !(Last(s.sup.frames).correlation in ch.cancelled || Late(s, ch, Last(s.sup.frames).correlation) || Requested(s, ch)))
  {
    var s, ch := Reached(generation, grace, now, schedule), Annals(Start(generation, grace, now), schedule);
    AnnalsAreTrue(generation, grace, now, schedule);
    ReachedKeeps(generation, grace, now, schedule);
    AncestryHeight(s);
    StepKeeps(s, SupervisorRead);
    hide Run, Annals, Coherent, Recorded, Step;
    KeysInService(s, ch, s.toSup[0].body.key);
    RequestTold(s, ch);
  }

  lemma RequestTold(s: System, ch: Chronicle)
    requires !Dead(s) && Recorded(s, ch) && Pumping(s) && s.toSup != [] && s.toSup[0].body.Request?
    ensures var t, m := Step(s, SupervisorRead), s.toSup[0];
            || (t.sup.fault.Some? && IsGuard(t.sup.fault.value))
            || if m.body.key in s.sup.ancestry then t.sup.fault == Some(ServiceCycle)
               else
                 && !Dead(t) && !Pumping(t) && |t.sup.frames| == |s.sup.frames|
                 && Last(t.sup.frames).serving.value.correlation == m.correlation == t.sup.serviceParent
                 && (Handling(t) <==> AskedNow(s, ch, m).allowed)
  {
    RecordedFrames(s, ch);
    hide Recorded, Requested, CancellationRequested, Active, Framed, WorkerStep, AskedNow;
    if Receive(s.sup, s.generation, s.toSup[0], s.now, s.latched).1.Continue? {
      RequestReceivedExactly(s, ch, s.toSup[0]);
    }
  }

  lemma KeysInService(s: System, ch: Chronicle, key: string)
    requires Recorded(s, ch) && Pumping(s) && |s.sup.ancestry| == |s.sup.frames| - 1
    requires forall i :: 0 <= i < |s.sup.frames| - 1 ==> s.sup.frames[i].serving.Some?
    ensures key in s.sup.ancestry <==> InService(s, ch, key)
  {
    hide Replied, Framed;
    if key in s.sup.ancestry {
      var i :| 0 <= i < |s.sup.ancestry| && s.sup.ancestry[i] == key;
      assert s.sup.frames[i].serving.Some?;
    }
  }

  /**
    How a call enters: answered at once when its budget is spent, a probe has fired or
    less than a millisecond is left; refused at depth sixteen; otherwise sent.
  */
  lemma EntryAnswers(generation: nat, grace: nat, now: int, schedule: seq<Action>, timeout: int, probe: Option<nat>, delay: nat)
    requires !Dead(Reached(generation, grace, now, schedule))
    ensures var s, ch := Reached(generation, grace, now, schedule), Annals(Start(generation, grace, now), schedule);
            var (sup, entry) := Enter(s.sup, s.generation, timeout, probe, s.latched, s.now, s.now + delay);
            var due := Due(s, ch, timeout);
            if timeout <= 0 then
              sup == s.sup && entry == Answered(Response(TimedOut, "", "Invocation budget expired before dispatch.", false))
            else if (probe.Some? && probe.value in s.latched) || Requested(s, ch) then
              sup == s.sup && entry == Answered(Response(Status.Cancelled, "", "Invocation cancelled before dispatch.", false))
            else if |s.sup.frames| >= 16 then sup == s.sup && entry == Refused
            else if due - (s.now + delay) < 1_000_000 then
              sup == s.sup.(next := s.sup.next + 2) &&
              entry == Answered(Response(TimedOut, "", "Nested invocation budget expired.", false))
            else
              && entry == Dispatched(Envelope(generation, s.sup.next, s.sup.serviceParent, Request(EngineOperation, "")))
              && |sup.frames| == |s.sup.frames| + 1 && Last(sup.frames).correlation == s.sup.next
              && Last(sup.frames).deadline == due && Last(sup.frames).probe == probe
  {
    var s, ch := Reached(generation, grace, now, schedule), Annals(Start(generation, grace, now), schedule);
    AnnalsAreTrue(generation, grace, now, schedule);
    Constant(Start(generation, grace, now), schedule);
    hide Run, Annals, Replied, ServicesTold, Step;
    EntryDeadline(s, ch, timeout);
    RequestedIs(s, ch);
    hide CancellationRequested, Requested, Framed, Due, EffectiveDeadline;
  }

  lemma WorkerLeavesSup(s: System, a: Action)
    ensures WorkerStep(s, a).sup == s.sup
  {
    hide Accept, RequestService, Finish, Waiting;
  }

  /** A step that ends the connection drops every result that was not returned. */
  lemma FailureForgets(s: System, a: Action)
    requires !Dead(s) && Step(s, a).sup.fault.Some?
    ensures Step(s, a).sup.pending == map[]
  {
    hide WorkerStep, CancellationRequested, EffectiveDeadline, Active, Interrupt;
    WorkerLeavesSup(s, a);
  }
}
