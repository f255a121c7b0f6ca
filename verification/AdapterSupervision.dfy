/**
  The supervisor of one process: functions from the state before an event to the
  state after it, and the class that handles the same events in place.
*/
module AdapterSupervision {
  import opened ProcessOutput
  import opened Wrappers

  /** A child process as QProcess shows it; `alive` is false before it runs and after it has ended. */
  datatype Child = Child(alive: bool, code: int, normal: bool, channel: Bytes)

  /** What was emitted, with all that had been read and the child as it then was. */
  datatype Report =
    | Finished(status: Status, exitCode: int, output: Bytes, limit: nat, read: Bytes, child: Child)
    | Released(child: Child)

  datatype State = Idle | Running | Stopping | Unsettled

  datatype Adapter = Adapter(
    state: State,
    process: Option<Child>,
    output: Bytes,
    limit: nat,
    stoppingFor: Status,
    read: Bytes,
    log: seq<seq<Report>>)

  const NO_ADAPTER := Adapter(Idle, None, [], 0, Timeout, [], [])

  datatype Occurrence =
    | Launch(ready: bool, timeoutMs: nat, limit: nat, failsAtOnce: bool)
    | Writes(data: Bytes)
    | Exits(code: int, normal: bool)
    | ReadyRead
    | FailedToStart
    | FinishedSignal
    | TimeoutFires
    | CleanupFires
    | CancelAsked

  predicate Takes(s: Adapter, ready: bool, timeoutMs: nat, limit: nat) {
    s.state.Idle? && s.process.None? && ready && 1 <= timeoutMs <= 60000 && 1 <= limit <= MAXIMUM_OUTPUT
  }

  function FinishedWith(s: Adapter, status: Status): Adapter
    requires s.process.Some?
  {
    var child := s.process.value;
    var report := Finished(status, if child.alive then -1 else child.code, s.output, s.limit, s.read, child);
    if status.TerminationUnconfirmed? then s.(state := Unsettled, log := Emit(s.log, report))
    else s.(state := Idle, process := None, log := Emit(s.log, report))
  }

  function StoppedFor(s: Adapter, reason: Status): Adapter {
    if !s.state.Running? || s.process.None? then s
    else
      var s1 := s.(state := Stopping, stoppingFor := reason);
      if s.process.value.alive then s1 else FinishedWith(s1, reason)
  }

  /** What capture has read, before it looks for an overflow. */
  function Captured(s: Adapter): Adapter
    requires s.process.Some?
  {
    var channel := s.process.value.channel;
    var available := if |s.output| <= s.limit then s.limit - |s.output| else 0;
    var data := channel[..Min(available + 1, |channel|)];
    s.(output := s.output + data[..Min(available, |data|)], read := s.read + data,
       process := Some(s.process.value.(channel := channel[|data|..])))
  }

  function AfterCapture(s: Adapter): Adapter {
    if s.state.Idle? || s.process.None? then s
    else
      var available := if |s.output| <= s.limit then s.limit - |s.output| else 0;
      if |s.process.value.channel| > available then StoppedFor(Captured(s), OutputLimit) else Captured(s)
  }

  function AfterLaunch(s: Adapter, ready: bool, timeoutMs: nat, limit: nat): Adapter {
    if !Takes(s, ready, timeoutMs, limit) then s
    else Adapter(Running, Some(Child(true, 0, true, [])), [], limit, s.stoppingFor, [], s.log + [[]])
  }

  function AfterFailedToStart(s: Adapter): Adapter {
    if s.state.Running? && s.process.Some? then
      FinishedWith(s.(process := Some(s.process.value.(alive := false))), StartFailed)
    else s
  }

  /** QProcess says that the child has ended; that is only said of one that has. */
  function AfterFinished(s: Adapter): Adapter {
    if s.process.None? || s.process.value.alive then s
    else
      var s1 := AfterCapture(s);
      if s1.process.None? then s1
      else
        match s1.state
        case Unsettled => s1.(state := Idle, process := None, log := Emit(s1.log, Released(s1.process.value)))
        case Stopping => FinishedWith(s1, s1.stoppingFor)
        case Running => FinishedWith(s1, if s1.process.value.code == 0 && s1.process.value.normal then Success else Failed)
        case Idle => s1
  }

  function AfterCleanup(s: Adapter): Adapter {
    if !s.state.Stopping? || s.process.None? then s
    else FinishedWith(s, if s.process.value.alive then TerminationUnconfirmed else s.stoppingFor)
  }

  function React(s: Adapter, e: Occurrence): Adapter {
    match e
    case Launch(ready, timeoutMs, limit, failsAtOnce) =>
      var s1 := AfterLaunch(s, ready, timeoutMs, limit);
      if failsAtOnce && Takes(s, ready, timeoutMs, limit) then AfterFailedToStart(s1) else s1
    case Writes(data) =>
      if s.process.Some? then s.(process := Some(s.process.value.(channel := s.process.value.channel + data))) else s
    case Exits(code, normal) =>
      if s.process.Some? && s.process.value.alive then
        s.(process := Some(s.process.value.(alive := false, code := code, normal := normal)))
      else s
    case ReadyRead => AfterCapture(s)
    case FailedToStart => AfterFailedToStart(s)
    case FinishedSignal => AfterFinished(s)
    case TimeoutFires => StoppedFor(s, Timeout)
    case CleanupFires => AfterCleanup(s)
    case CancelAsked => StoppedFor(s, Cancelled)
  }

  function Reacted(events: seq<Occurrence>): Adapter {
    if events == [] then NO_ADAPTER else React(Reacted(events[..|events| - 1]), events[|events| - 1])
  }

  function Launches(events: seq<Occurrence>): nat {
    if events == [] then 0
    else
      var k := |events| - 1;
      var e := events[k];
      Launches(events[..k]) +
      (if e.Launch? && Takes(Reacted(events[..k]), e.ready, e.timeoutMs, e.limit) then 1 else 0)
  }

  /** Any other status than unconfirmed means that the child has ended; success, that it ended normally with 0 and all was kept. */
  predicate Observed(f: Report)
    requires f.Finished?
  {
    && f.output == Kept(f.read, f.limit)
    && (!f.status.TerminationUnconfirmed? ==> !f.child.alive && f.exitCode == f.child.code)
    && (f.status.Success? ==> f.child.code == 0 && f.child.normal && f.output == f.read)
  }

  predicate ReportsOfOneStart(reports: seq<Report>) {
    || reports == []
    || (|reports| == 1 && reports[0].Finished? && Observed(reports[0]))
    || (|reports| == 2 && reports[0].Finished? && Observed(reports[0]) && reports[0].status.TerminationUnconfirmed?
        && reports[1].Released? && !reports[1].child.alive)
  }

  predicate EndsReports(reports: seq<Report>) {
    || (|reports| == 1 && reports[0].Finished? && !reports[0].status.TerminationUnconfirmed?)
    || |reports| == 2
  }

  predicate StopReason(status: Status) {
    status.Timeout? || status.Cancelled? || status.OutputLimit?
  }

  /** The latest entry of the log is in step with the state. */
  predicate InStep(s: Adapter) {
    var latest := Latest(s.log);
    match s.state
    case Idle => s.log == [] || EndsReports(latest)
    case Running => s.log != [] && latest == []
    case Stopping => s.log != [] && latest == []
    case Unsettled => s.log != [] && |latest| == 1 && latest[0].Finished? && latest[0].status.TerminationUnconfirmed?
  }

  ghost predicate ReportInv(s: Adapter) {
    && (forall i :: 0 <= i < |s.log| ==> ReportsOfOneStart(s.log[i]))
    && (forall i :: 0 <= i < |s.log| - 1 ==> EndsReports(s.log[i]))
    && InStep(s)
  }

  ghost predicate AdapterInv(s: Adapter) {
    && ReportInv(s)
    && (s.state.Idle? <==> s.process.None?)
    && s.output == Kept(s.read, s.limit)
    && (s.state.Running? ==> |s.read| <= s.limit)
    && (s.state.Stopping? ==> StopReason(s.stoppingFor))
  }

  lemma ReportEmitted(log: seq<seq<Report>>, report: Report)
    requires log != []
    requires forall i :: 0 <= i < |log| ==> ReportsOfOneStart(log[i])
    requires forall i :: 0 <= i < |log| - 1 ==> EndsReports(log[i])
    requires ReportsOfOneStart(Latest(log) + [report])
    ensures var t := Emit(log, report);
            && |t| == |log| && Latest(t) == Latest(log) + [report]
            && (forall i :: 0 <= i < |t| ==> ReportsOfOneStart(t[i]))
            && (forall i :: 0 <= i < |t| - 1 ==> EndsReports(t[i]))
  {
    hide ReportsOfOneStart, EndsReports;
  }

  /** A start that is not over completes once, with the child's exit code; only an unconfirmed end keeps the child. */
  lemma FinishKeeps(s: Adapter, status: Status)
    requires ReportInv(s) && (s.state.Running? || s.state.Stopping?) && s.process.Some? && s.output == Kept(s.read, s.limit)
    requires status.TerminationUnconfirmed? || !s.process.value.alive
    requires status.Success? ==> s.process.value.code == 0 && s.process.value.normal && |s.read| <= s.limit
    ensures AdapterInv(FinishedWith(s, status)) && |FinishedWith(s, status).log| == |s.log|
    ensures |Latest(FinishedWith(s, status).log)| == 1
  {
    assert |s.read| <= s.limit ==> Kept(s.read, s.limit) == s.read;
    var report := FinishedWith(s, status).log[|s.log| - 1];
    var child := s.process.value;
    var emitted := Finished(status, if child.alive then -1 else child.code, s.output, s.limit, s.read, child);
    assert Latest(s.log) + [emitted] == [emitted];
    ReportEmitted(s.log, emitted);
    hide Kept;
  }

  lemma StoppedKeeps(s: Adapter, reason: Status)
    requires ReportInv(s) && s.output == Kept(s.read, s.limit) && StopReason(reason)
    requires (s.state.Idle? <==> s.process.None?) && (s.state.Stopping? ==> StopReason(s.stoppingFor))
    requires s.state.Running? || AdapterInv(s)
    ensures AdapterInv(StoppedFor(s, reason)) && |StoppedFor(s, reason).log| == |s.log|
    ensures s.state.Running? ==> !StoppedFor(s, reason).state.Running?
  {
    hide Kept;
    if s.state.Running? {
      var s1 := s.(state := Stopping, stoppingFor := reason);
      assert ReportInv(s1);
      if !s.process.value.alive { FinishKeeps(s1, reason); }
    }
  }

  lemma CapturedOutput(s: Adapter)
    requires s.process.Some? && s.output == Kept(s.read, s.limit)
    requires |s.read| <= s.limit || |s.output| == s.limit
    ensures var t := Captured(s);
            && t.output == Kept(t.read, t.limit)
            && (|s.read| <= s.limit && |s.process.value.channel| <= s.limit - |s.output| ==> |t.read| <= t.limit)
  {
    var channel := s.process.value.channel;
    var data := channel[..Min(s.limit - |s.output| + 1, |channel|)];
    KeptAppends(s.read, data, s.limit);
    hide Kept;
  }

  /** What arrives is appended up to the limit, and more than that stops a running child. */
  lemma CaptureKeeps(s: Adapter)
    requires AdapterInv(s)
    ensures AdapterInv(AfterCapture(s)) && |AfterCapture(s).log| == |s.log|
    ensures s.state.Running? && |s.process.value.channel| > s.limit - |s.output| ==> !AfterCapture(s).state.Running?
    ensures !s.state.Running? ==> AfterCapture(s).state == s.state && AfterCapture(s).log == s.log
    ensures AfterCapture(s).process.Some? ==>
              s.process.Some? && AfterCapture(s).process.value == s.process.value.(channel := AfterCapture(s).process.value.channel)
  {
    KeptAppends(s.read, [], s.limit);
    if s.process.Some? {
      assert |s.read| <= s.limit || |s.output| == s.limit;
      CapturedOutput(s);
      hide Kept;
      var s1 := Captured(s);
      assert ReportInv(s1);
      if |s.process.value.channel| > s.limit - |s.output| {
        StoppedKeeps(s1, OutputLimit);
      }
    }
  }

  lemma ReactKeeps(s: Adapter, e: Occurrence)
    requires AdapterInv(s)
    ensures AdapterInv(React(s, e))
    ensures |React(s, e).log| == |s.log| + (if e.Launch? && Takes(s, e.ready, e.timeoutMs, e.limit) then 1 else 0)
  {
    hide Kept;
    match e
    case Launch(ready, timeoutMs, limit, failsAtOnce) => LaunchKeeps(s, ready, timeoutMs, limit, failsAtOnce);
    case Writes(data) =>
      assert ReportInv(React(s, e));
    case Exits(code, normal) =>
      assert ReportInv(React(s, e));
    case ReadyRead => CaptureKeeps(s);
    case FailedToStart => FailedToStartKeeps(s);
    case FinishedSignal => FinishedKeeps(s);
    case TimeoutFires => StoppedKeeps(s, Timeout);
    case CleanupFires =>
      if s.state.Stopping? {
        FinishKeeps(s, if s.process.value.alive then TerminationUnconfirmed else s.stoppingFor);
      }
    case CancelAsked => StoppedKeeps(s, Cancelled);
  }

  lemma FailedToStartKeeps(s: Adapter)
    requires AdapterInv(s)
    ensures AdapterInv(AfterFailedToStart(s)) && |AfterFailedToStart(s).log| == |s.log|
  {
    hide Kept;
    if s.state.Running? {
      var s1 := s.(process := Some(s.process.value.(alive := false)));
      assert ReportInv(s1);
      FinishKeeps(s1, StartFailed);
    }
  }

  lemma LaunchKeeps(s: Adapter, ready: bool, timeoutMs: nat, limit: nat, failsAtOnce: bool)
    requires AdapterInv(s)
    ensures var t := React(s, Launch(ready, timeoutMs, limit, failsAtOnce));
            AdapterInv(t) && |t.log| == |s.log| + (if Takes(s, ready, timeoutMs, limit) then 1 else 0)
  {
    if Takes(s, ready, timeoutMs, limit) {
      var s1 := AfterLaunch(s, ready, timeoutMs, limit);
      assert AdapterInv(s1) by {
        assert ReportsOfOneStart([]);
        hide ReportsOfOneStart, EndsReports;
        assert forall i :: 0 <= i < |s.log| ==> s1.log[i] == s.log[i];
        assert s.log != [] ==> s.log[|s.log| - 1] == Latest(s.log);
      }
      FailedToStartKeeps(s1);
    }
  }

  /** The end of the child leaves the adapter idle with one more signal: settled, the stop's reason, or success exactly for a normal 0. */
  lemma FinishedKeeps(s: Adapter)
    requires AdapterInv(s)
    ensures var t := AfterFinished(s);
            && AdapterInv(t) && |t.log| == |s.log|
            && (s.process.Some? && !s.process.value.alive ==>
                  && t.state.Idle? && |Latest(t.log)| == |Latest(s.log)| + 1
                  && (s.state.Unsettled? <==> Latest(t.log)[|Latest(t.log)| - 1].Released?)
                  && (s.state.Running? && !Latest(t.log)[0].status.OutputLimit? ==>
                        (Latest(t.log)[0].status.Success? <==> s.process.value.code == 0 && s.process.value.normal)))
  {
    hide Kept;
    if s.process.Some? && !s.process.value.alive {
      CaptureKeeps(s);
      var s1 := AfterCapture(s);
      match s1.state
      case Unsettled =>
        ReportEmitted(s1.log, Released(s1.process.value));
      case Stopping =>
        FinishKeeps(s1, s1.stoppingFor);
      case Running =>
        FinishKeeps(s1, if s1.process.value.code == 0 && s1.process.value.normal then Success else Failed);
      case Idle =>
    }
  }

  /** Over all events: one entry per accepted start, each what a start may emit, all but the last over, the last in step. */
  lemma {:induction false} AdapterGuarantee(events: seq<Occurrence>)
    ensures var s := Reacted(events);
            && AdapterInv(s) && |s.log| == Launches(events)
            && (forall i :: 0 <= i < |s.log| ==> ReportsOfOneStart(s.log[i]))
            && (forall i :: 0 <= i < |s.log| - 1 ==> EndsReports(s.log[i]))
            && InStep(s) && |s.output| <= s.limit
  {
    hide ReportsOfOneStart, EndsReports, React;
    KeptAppends(Reacted(events).read, [], Reacted(events).limit);
    if events != [] {
      var k := |events| - 1;
      AdapterGuarantee(events[..k]);
      ReactKeeps(Reacted(events[..k]), events[k]);
    }
  }

  // --------------------------------------------------- the class ProcessAdapter

  class ProcessAdapter {
    var state: State
    var process: Option<Child>
    var output: Bytes
    var limit: nat
    var stoppingFor: Status
    ghost var read: Bytes
    ghost var log: seq<seq<Report>>

    ghost function View(): Adapter
      reads this
    {
      Adapter(state, process, output, limit, stoppingFor, read, log)
    }

    constructor ()
      ensures View() == NO_ADAPTER
    {
      state, process, output, limit, stoppingFor, read, log := Idle, None, [], 0, Timeout, [], [];
    }

    method Finish(status: Status)
      requires process.Some?
      modifies `state, `process, `log
      ensures View() == FinishedWith(old(View()), status)
    {
      var child := process.value;
      if status.TerminationUnconfirmed? {
        state := Unsettled;
      } else {
        state, process := Idle, None;
      }
      log := Emit(log, Finished(status, if child.alive then -1 else child.code, output, limit, read, child));
    }

    method Stop(reason: Status)
      modifies `state, `process, `log, `stoppingFor
      ensures View() == StoppedFor(old(View()), reason)
    {
      hide Emit;
      if !state.Running? || process.None? {
        return;
      }
      stoppingFor, state := reason, Stopping;
      if !process.value.alive {
        Finish(reason);
      }
    }

    method Capture()
      modifies this
      ensures View() == AfterCapture(old(View()))
    {
      hide StoppedFor;
      if state.Idle? || process.None? {
        return;
      }
      var available := if |output| <= limit then limit - |output| else 0;
      var channel := process.value.channel;
      var data := channel[..Min(available + 1, |channel|)];
      output := output + data[..Min(available, |data|)];
      read := read + data;
      process := Some(process.value.(channel := channel[|data|..]));
      assert View() == Captured(old(View()));
      if |data| > available || process.value.channel != [] {
        Stop(OutputLimit);
      }
    }

    method Start(ready: bool, timeoutMs: nat, limit: nat) returns (accepted: bool)
      modifies this
      ensures View() == AfterLaunch(old(View()), ready, timeoutMs, limit)
      ensures accepted == Takes(old(View()), ready, timeoutMs, limit)
    {
      if !state.Idle? || process.Some? || !ready || timeoutMs < 1 || timeoutMs > 60000 || limit < 1 || limit > MAXIMUM_OUTPUT {
        return false;
      }
      process := Some(Child(true, 0, true, []));
      output, this.limit, state := [], limit, Running;
      read, log := [], log + [[]];
      accepted := true;
    }

    method OnFailedToStart()
      modifies `state, `process, `log
      ensures View() == AfterFailedToStart(old(View()))
    {
      hide Emit;
      if state.Running? && process.Some? {
        process := Some(process.value.(alive := false));
        Finish(StartFailed);
      }
    }

    method OnFinished()
      modifies this
      ensures View() == AfterFinished(old(View()))
    {
      hide AfterCapture, Emit, FinishedWith;
      if process.None? || process.value.alive {
        return;
      }
      Capture();
      if process.None? {
        return;
      }
      if state.Unsettled? {
        log := Emit(log, Released(process.value));
        state, process := Idle, None;
      } else if state.Stopping? {
        Finish(stoppingFor);
      } else if state.Running? {
        Finish(if process.value.code == 0 && process.value.normal then Success else Failed);
      }
    }

    method OnCleanup()
      modifies `state, `process, `log
      ensures View() == AfterCleanup(old(View()))
    {
      hide FinishedWith;
      if state.Stopping? && process.Some? {
        Finish(if process.value.alive then TerminationUnconfirmed else stoppingFor);
      }
    }

    method Dispatch(e: Occurrence)
      modifies this
      ensures View() == React(old(View()), e)
    {
      hide AfterCapture, AfterFailedToStart, AfterFinished, AfterCleanup, StoppedFor;
      match e
      case Launch(ready, timeoutMs, limit, failsAtOnce) =>
        var accepted := Start(ready, timeoutMs, limit);
        if accepted && failsAtOnce {
          OnFailedToStart();
        }
      case Writes(data) =>
        if process.Some? {
          process := Some(process.value.(channel := process.value.channel + data));
        }
      case Exits(code, normal) =>
        if process.Some? && process.value.alive {
          process := Some(process.value.(alive := false, code := code, normal := normal));
        }
      case ReadyRead => Capture();
      case FailedToStart => OnFailedToStart();
      case FinishedSignal => OnFinished();
      case TimeoutFires => Stop(Timeout);
      case CleanupFires => OnCleanup();
      case CancelAsked => Stop(Cancelled);
    }

    /** Any events in any order; signals about a child come only while it is connected. */
    method Run(events: seq<Occurrence>)
      requires View() == NO_ADAPTER
      modifies this
      ensures View() == Reacted(events)
    {
      hide React;
      assert events[..0] == [];
      for i := 0 to |events|
        invariant View() == Reacted(events[..i])
      {
        assert events[..i + 1][..i] == events[..i];
        Dispatch(events[i]);
      }
      assert events[..|events|] == events;
    }
  }
}
