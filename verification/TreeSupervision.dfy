/**
  The supervisor of a whole job of processes, with its commit handshake.

  It is given as functions from the state before an event to the state after it;
  the class handles the same events in place. Events come in any order, and time
  only moves forward. `log` holds what was emitted, one entry per start.
*/
module TreeSupervision {
  import opened ProcessOutput
  import opened Wrappers

  const STOP_MS := 2000
  const COMMIT_MS := 5000
  const READS_PER_TICK := 16
  const CHUNK := 4096
  const MAXIMUM_MS := 1800000
  const COMMIT_ROOM := 16384

  /** The processes of a job, the exit code of its root, and output that has not been read. */
  datatype Job = Job(active: nat, rootExit: Option<int>, pipe: Bytes)

  /** A completion also records what was true when it was emitted: all that had been read, the commit token, the job. */
  datatype Signal =
    | Completed(status: Status, exitCode: int, output: Bytes, limit: nat, read: Bytes, launched: bool, committed: bool, job: Job)
    | Settled(job: Job)

  datatype Tree = Tree(
    native: Option<Job>,
    status: Status,
    exitCode: int,
    output: Bytes,
    limit: nat,
    timeoutMs: nat,
    startedAt: nat,
    stoppedAt: nat,
    committedAt: nat,
    stopping: bool,
    reported: bool,
    polling: bool,
    commitProtocol: bool,
    committing: bool,
    telemetry: bool,
    terminated: bool,
    read: Bytes,
    log: seq<seq<Signal>>)

  const NO_TREE := Tree(None, StartFailed, -1, [], 0, 0, 0, 0, 0, false, false, false, false, false, false, false, [], [])

  datatype What =
    | Starting(ready: bool, timeoutMs: nat, limit: nat, commitProtocol: bool, launched: bool)
    | Cancelling
    | Ticking(pieces: seq<nat>, known: bool, onlyTelemetry: bool, tokenWritten: bool)
    | FailingLaunch
    | Permitting
    | Happening(next: Job)

  datatype Event = Event(elapsed: nat, what: What)

  predicate Over(job: Job) {
    job.active == 0 && job.rootExit.Some?
  }

  predicate EndsWith(text: Bytes, suffix: Bytes) {
    |suffix| <= |text| && text[|text| - |suffix|..] == suffix
  }

  predicate CommitReady(output: Bytes) {
    EndsWith(output, "ARTESTDEV_COMMIT_READY\r\n") || EndsWith(output, "ARTESTDEV_COMMIT_READY\n")
  }

  /** An exit code stays what it is, and a running root is one of the job's processes. */
  predicate Evolves(job: Job, next: Job, launched: bool) {
    && (job.rootExit.Some? ==> next.rootExit == job.rootExit)
    && (next.rootExit.None? && launched ==> next.active > 0)
    && job.pipe <= next.pipe
  }

  predicate Acceptable(s: Tree, ready: bool, timeoutMs: nat, limit: nat) {
    s.native.None? && ready && 1 <= timeoutMs <= MAXIMUM_MS && 1 <= limit <= MAXIMUM_OUTPUT
  }

  function Launched(launched: bool): Job {
    Job(if launched then 1 else 0, None, [])
  }

  function AfterStart(s: Tree, ready: bool, timeoutMs: nat, limit: nat, commitProtocol: bool, launched: bool, now: nat): Tree {
    if !Acceptable(s, ready, timeoutMs, limit) then s
    else
      Tree(Some(Launched(launched)), StartFailed, -1, [], limit, timeoutMs, now, s.stoppedAt, s.committedAt,
           false, false, launched, commitProtocol, false, s.telemetry, false, [], s.log + [[]])
  }

  function AfterStop(s: Tree, reason: Status, now: nat): (r: Tree)
    ensures r.native == s.native
  {
    var s1 := if s.stopping && s.status.Success? && !reason.Success? then s.(status := reason) else s;
    if s1.native.None? || s1.stopping || s1.committing then s1
    else s1.(status := reason, stopping := true, stoppedAt := now, terminated := true)
  }

  /** The part of a read before an overflow is noticed. */
  function Taken(s: Tree, count: nat): Tree
    requires s.native.Some? && count <= |s.native.value.pipe|
  {
    var job := s.native.value;
    var remaining := if |s.output| <= s.limit then s.limit - |s.output| else 0;
    s.(output := s.output + job.pipe[..Min(remaining, count)], read := s.read + job.pipe[..count],
       native := Some(job.(pipe := job.pipe[count..])))
  }

  function AfterRead(s: Tree, count: nat, now: nat): (r: Tree)
    requires s.native.Some? && count <= |s.native.value.pipe|
    ensures r.native.Some?
  {
    var s1 := Taken(s, count);
    if |s.output| + count > s.limit then AfterStop(s1, OutputLimit, now) else s1
  }

  /** How much the next read brings, if anything. */
  function ReadSize(s: Tree, pieces: seq<nat>): nat
    requires s.native.Some?
  {
    if pieces == [] then 0 else Min(pieces[0], Min(CHUNK, |s.native.value.pipe|))
  }

  function AfterDrain(s: Tree, pieces: seq<nat>, turns: nat, now: nat): (r: Tree)
    requires s.native.Some?
    ensures r.native.Some?
    decreases |pieces|
  {
    var count := ReadSize(s, pieces);
    if turns == READS_PER_TICK || count == 0 then s else AfterDrain(AfterRead(s, count, now), pieces[1..], turns + 1, now)
  }

  /** The root waits for the commit token. */
  predicate Waits(s: Tree, known: bool)
    requires s.native.Some?
  {
    && s.commitProtocol && !s.committing && !s.stopping && s.native.value.rootExit.None? && known
    && s.native.value.active == 1 && CommitReady(s.output)
  }

  function AfterHandshake(s: Tree, known: bool, tokenWritten: bool, now: nat): (r: Tree)
    requires s.native.Some?
    ensures r.native == s.native
  {
    if !Waits(s, known) then s
    else if now >= s.startedAt + s.timeoutMs then AfterStop(s, Timeout, now)
    else if s.limit < |s.output| + Min(COMMIT_ROOM, s.limit / 2) then AfterStop(s, OutputLimit, now)
    else if tokenWritten then s.(committing := true, committedAt := now)
    else AfterStop(s, Failed, now)
  }

  function CompletionOf(s: Tree): Signal
    requires s.native.Some?
  {
    Completed(s.status, s.exitCode, s.output, s.limit, s.read, s.polling, s.committing, s.native.value)
  }

  /** Every process is gone and the output is drained. */
  function AfterEnd(s: Tree): Tree
    requires s.native.Some? && s.native.value.rootExit.Some?
  {
    var code := s.native.value.rootExit.value;
    var s1 := s.(exitCode := code, status := if s.stopping then s.status else if code == 0 then Success else Failed);
    s1.(native := None, polling := false,
        log := Emit(s.log, if s.reported then Settled(s.native.value) else CompletionOf(s1)))
  }

  function AfterWatch(s: Tree, onlyTelemetry: bool, now: nat): (r: Tree)
    requires s.native.Some?
    ensures r.native == s.native
  {
    var exited, late := s.native.value.rootExit.Some?, now >= s.startedAt + s.timeoutMs;
    if s.stopping || !(exited || late) then s
    else if exited && !late && s.telemetry && s.native.value.rootExit == Some(0) && onlyTelemetry then AfterStop(s, Success, now)
    else AfterStop(s, if exited then Failed else Timeout, now)
  }

  function AfterReport(s: Tree, now: nat): Tree
    requires s.native.Some?
  {
    if s.reported || !((s.stopping && now >= s.stoppedAt + STOP_MS) || (s.committing && now >= s.committedAt + COMMIT_MS)) then s
    else
      var s1 := s.(reported := true, status := TerminationUnconfirmed);
      s1.(log := Emit(s.log, CompletionOf(s1)))
  }

  function AfterTick(s: Tree, pieces: seq<nat>, known: bool, onlyTelemetry: bool, tokenWritten: bool, now: nat): Tree {
    if s.native.None? || !s.polling then s
    else
      var s1 := AfterHandshake(AfterDrain(s, pieces, 0, now), known, tokenWritten, now);
      if known && Over(s1.native.value) then if s1.native.value.pipe == [] then AfterEnd(s1) else s1
      else AfterReport(AfterWatch(s1, onlyTelemetry, now), now)
  }

  function AfterFailedLaunch(s: Tree): Tree {
    if s.native.None? || s.polling then s else s.(native := None, log := Emit(s.log, CompletionOf(s)))
  }

  function Handle(s: Tree, what: What, now: nat): Tree {
    match what
    case Starting(ready, timeoutMs, limit, commitProtocol, launched) =>
      AfterStart(s, ready, timeoutMs, limit, commitProtocol, launched, now)
    case Cancelling => AfterStop(s, Cancelled, now)
    case Ticking(pieces, known, onlyTelemetry, tokenWritten) => AfterTick(s, pieces, known, onlyTelemetry, tokenWritten, now)
    case FailingLaunch => AfterFailedLaunch(s)
    case Permitting => s.(telemetry := s.telemetry || s.native.None?)
    case Happening(next) => if s.native.Some? && Evolves(s.native.value, next, s.polling) then s.(native := Some(next)) else s
  }

  function Clock(events: seq<Event>): nat {
    if events == [] then 0 else Clock(events[..|events| - 1]) + events[|events| - 1].elapsed
  }

  /** The state after all events. */
  function After(events: seq<Event>): Tree {
    if events == [] then NO_TREE
    else Handle(After(events[..|events| - 1]), events[|events| - 1].what, Clock(events))
  }

  /** How many starts were accepted. */
  function Starts(events: seq<Event>): nat {
    if events == [] then 0
    else
      var k := |events| - 1;
      var e := events[k].what;
      Starts(events[..k]) +
      (if e.Starting? && Acceptable(After(events[..k]), e.ready, e.timeoutMs, e.limit) then 1 else 0)
  }

  // ------------------------------------------------- what a start may emit

  /** Success: the root exited with 0, nothing runs in the job, and its output is drained and complete unless the token was out. */
  predicate Confirmed(c: Signal)
    requires c.Completed?
  {
    && c.output == Kept(c.read, c.limit)
    && (c.status.Success? ==> c.launched && c.job.rootExit == Some(0) && c.exitCode == 0 && (c.output == c.read || c.committed))
    && (c.launched && !c.status.TerminationUnconfirmed? ==> Over(c.job) && c.job.pipe == [])
    && (!c.launched ==> c.status.StartFailed? || c.status.Cancelled?)
  }

  /** What one accepted start may have emitted up to now. */
  predicate SignalsOfOneStart(signals: seq<Signal>) {
    || signals == []
    || (|signals| == 1 && signals[0].Completed? && Confirmed(signals[0]))
    || (|signals| == 2 && signals[0].Completed? && Confirmed(signals[0]) && signals[0].status.TerminationUnconfirmed?
        && signals[1].Settled? && Over(signals[1].job))
  }

  /** The start is over: it completed, confirmed or else settled later. */
  predicate EndsStart(signals: seq<Signal>) {
    || (|signals| == 1 && signals[0].Completed? && !signals[0].status.TerminationUnconfirmed?)
    || |signals| == 2
  }

  predicate Unconfirmed(signals: seq<Signal>) {
    |signals| == 1 && signals[0].Completed? && signals[0].status.TerminationUnconfirmed?
  }

  ghost predicate LogInv(s: Tree) {
    && (forall i :: 0 <= i < |s.log| ==> SignalsOfOneStart(s.log[i]))
    && (forall i :: 0 <= i < |s.log| - 1 ==> EndsStart(s.log[i]))
    && (s.native.None? ==> s.log == [] || EndsStart(Latest(s.log)))
    && (s.native.Some? ==> s.log != [] && if s.reported then Unconfirmed(Latest(s.log)) else Latest(s.log) == [])
  }

  /** Never more than the limit is kept; what is lost past it is never lost silently, unless the commit token was out. */
  predicate OutputInv(s: Tree) {
    && s.output == Kept(s.read, s.limit)
    && (|s.read| > s.limit ==> s.committing || (s.stopping && !s.status.Success?))
  }

  /** A job that was given the commit token is never told to terminate. */
  predicate StopInv(s: Tree)
    requires s.native.Some?
  {
    && s.terminated == s.stopping && !(s.committing && s.stopping)
    && (s.native.value.rootExit.None? && s.polling ==> s.native.value.active > 0)
    && (if s.polling then
          && (s.stopping && s.status.Success? ==> s.native.value.rootExit == Some(0))
          && (s.stopping && !s.reported ==> !s.status.StartFailed? && !s.status.TerminationUnconfirmed?)
        else !s.reported && !s.committing && (s.status.StartFailed? || s.status.Cancelled?))
  }

  ghost predicate Inv(s: Tree) {
    LogInv(s) && (if s.native.Some? then OutputInv(s) && StopInv(s) else !s.polling)
  }

  // ------------------------------------------------------- every event keeps it

  lemma StopKeeps(s: Tree, reason: Status, now: nat)
    requires s.native.Some? && StopInv(s) && s.polling && !reason.TerminationUnconfirmed? && !reason.StartFailed?
    requires reason.Success? ==> s.native.value.rootExit == Some(0)
    ensures var t := AfterStop(s, reason, now);
            && StopInv(t) && t.native == s.native && t.log == s.log && t.reported == s.reported
            && t.committing == s.committing && (s.committing ==> t == s) && (!s.committing ==> t.stopping)
            && (!reason.Success? && !s.committing ==> !t.status.Success?)
  {
  }

  lemma SplitPipe(read: Bytes, pipe: Bytes, count: nat)
    requires count <= |pipe|
    ensures read + pipe[..count] + pipe[count..] == read + pipe
    ensures forall n :: 0 <= n <= count ==> pipe[..count][..n] == pipe[..n]
  {
  }

  lemma TakenOutput(s: Tree, count: nat)
    requires s.native.Some? && OutputInv(s) && count <= |s.native.value.pipe|
    ensures var t := Taken(s, count);
            && t.output == Kept(t.read, t.limit) && t.read + t.native.value.pipe == s.read + s.native.value.pipe
            && |s.output| <= s.limit
            && (|t.read| > t.limit <==> count > s.limit - |s.output| || |s.read| > s.limit)
  {
    var pipe := s.native.value.pipe;
    KeptAppends(s.read, pipe[..count], s.limit);
    SplitPipe(s.read, pipe, count);
    hide Kept;
    assert |pipe[..count]| == count;
  }

  lemma ReadKeeps(s: Tree, count: nat, now: nat)
    requires Inv(s) && s.native.Some? && s.polling && 0 < count <= |s.native.value.pipe|
    ensures var t := AfterRead(s, count, now);
            && Inv(t) && t.native == Some(s.native.value.(pipe := s.native.value.pipe[count..]))
            && t.read + t.native.value.pipe == s.read + s.native.value.pipe
            && t.polling && t.committing == s.committing && t.reported == s.reported && t.log == s.log
            && (s.committing ==> t.terminated == s.terminated)
  {
    hide Kept, LogInv;
    TakenOutput(s, count);
    var s1 := Taken(s, count);
    StopKeeps(s1, OutputLimit, now);
    StopOnlyStops(s1, OutputLimit, now);
    assert AfterRead(s, count, now) == if |s.output| + count > s.limit then AfterStop(s1, OutputLimit, now) else s1;
    hide Taken, AfterRead, AfterStop;
    SameLog(s, AfterRead(s, count, now));
  }

  lemma StopOnlyStops(s: Tree, reason: Status, now: nat)
    ensures var t := AfterStop(s, reason, now);
            t == s.(status := t.status, stopping := t.stopping, stoppedAt := t.stoppedAt, terminated := t.terminated)
  {
  }

  lemma SameLog(s: Tree, t: Tree)
    requires LogInv(s) && t.log == s.log && t.native.Some? == s.native.Some? && t.reported == s.reported
    ensures LogInv(t)
  {
  }

  /** Draining loses nothing between the pipe and the record. */
  lemma {:induction false} DrainKeeps(s: Tree, pieces: seq<nat>, turns: nat, now: nat)
    requires Inv(s) && s.native.Some? && s.polling
    ensures var t := AfterDrain(s, pieces, turns, now);
            && Inv(t) && t.native == Some(s.native.value.(pipe := t.native.value.pipe))
            && t.read + t.native.value.pipe == s.read + s.native.value.pipe
            && t.polling && t.committing == s.committing && t.reported == s.reported && t.log == s.log
            && (s.committing ==> t.terminated == s.terminated)
    decreases |pieces|
  {
    hide Inv, AfterRead;
    var count := ReadSize(s, pieces);
    if turns != READS_PER_TICK && count > 0 {
      ReadKeeps(s, count, now);
      DrainKeeps(AfterRead(s, count, now), pieces[1..], turns + 1, now);
    }
  }

  /** The token goes out exactly to a waiting root that is in time and has room to answer; another waiting root is stopped. */
  lemma HandshakeKeeps(s: Tree, known: bool, tokenWritten: bool, now: nat)
    requires Inv(s) && s.native.Some? && s.polling
    ensures var t := AfterHandshake(s, known, tokenWritten, now);
            && Inv(t) && t.native == s.native && t.polling && t.reported == s.reported && t.log == s.log
            && (s.committing ==> t.terminated == s.terminated)
            && (t.committing && !s.committing <==>
                  Waits(s, known) && tokenWritten && now < s.startedAt + s.timeoutMs && |s.output| + Min(COMMIT_ROOM, s.limit / 2) <= s.limit)
            && (Waits(s, known) ==> t.committing || (t.stopping && t.terminated))
  {
    hide LogInv, CommitReady, Kept;
    StopKeeps(s, Timeout, now);
    StopKeeps(s, OutputLimit, now);
    StopKeeps(s, Failed, now);
    SameLog(s, AfterHandshake(s, known, tokenWritten, now));
  }

  lemma WatchKeeps(s: Tree, onlyTelemetry: bool, now: nat)
    requires Inv(s) && s.native.Some? && s.polling
    ensures var t := AfterWatch(s, onlyTelemetry, now);
            && Inv(t) && t.native == s.native && t.polling && t.reported == s.reported && t.log == s.log
            && t.committing == s.committing && (s.committing ==> t.terminated == s.terminated)
            && (s.native.value.rootExit.Some? || now >= s.startedAt + s.timeoutMs ==> t.stopping || t.committing)
  {
    hide LogInv, Kept;
    if s.native.value.rootExit == Some(0) { StopKeeps(s, Success, now); }
    StopKeeps(s, Failed, now);
    StopKeeps(s, Timeout, now);
    SameLog(s, AfterWatch(s, onlyTelemetry, now));
  }

  lemma EmitKeeps(log: seq<seq<Signal>>, signal: Signal)
    requires log != []
    requires forall i :: 0 <= i < |log| ==> SignalsOfOneStart(log[i])
    requires forall i :: 0 <= i < |log| - 1 ==> EndsStart(log[i])
    requires SignalsOfOneStart(Latest(log) + [signal])
    ensures var t := Emit(log, signal);
            && |t| == |log| && Latest(t) == Latest(log) + [signal]
            && (forall i :: 0 <= i < |t| ==> SignalsOfOneStart(t[i]))
            && (forall i :: 0 <= i < |t| - 1 ==> EndsStart(t[i]))
  {
    hide SignalsOfOneStart, EndsStart;
  }

  lemma ReportKeeps(s: Tree, now: nat)
    requires Inv(s) && s.native.Some? && s.polling
    ensures var t := AfterReport(s, now);
            && Inv(t) && t.native == s.native && |t.log| == |s.log| && t.committing == s.committing && t.terminated == s.terminated
            && t.stopping == s.stopping
            && ((s.stopping && now >= s.stoppedAt + STOP_MS) || (s.committing && now >= s.committedAt + COMMIT_MS) ==> t.reported)
  {
    hide Kept;
    var t := AfterReport(s, now);
    if t != s {
      assert Latest(s.log) + [CompletionOf(t)] == [CompletionOf(t)];
      EmitKeeps(s.log, CompletionOf(t));
    }
  }

  lemma EndKeeps(s: Tree)
    requires Inv(s) && s.native.Some? && s.polling && Over(s.native.value) && s.native.value.pipe == []
    ensures var t := AfterEnd(s);
            && Inv(t) && t.native.None? && |t.log| == |s.log| && t.terminated == s.terminated
            && |Latest(t.log)| == |Latest(s.log)| + 1
            && var c, exit := Latest(t.log)[|Latest(s.log)|], s.native.value.rootExit.value;
               if s.reported then c.Settled?
               else
                 && c.Completed? && c.exitCode == exit
                 && (if s.stopping then c.status == s.status else c.status == if exit == 0 then Success else Failed)
  {
    KeptAppends(s.read, [], s.limit);
    assert |s.read| <= s.limit ==> Kept(s.read, s.limit) == s.read;
    hide Kept;
    var t := AfterEnd(s);
    var code := s.native.value.rootExit.value;
    var s1 := s.(exitCode := code, status := if s.stopping then s.status else if code == 0 then Success else Failed);
    var signal := if s.reported then Settled(s.native.value) else CompletionOf(s1);
    if !s.reported {
      assert Latest(s.log) + [signal] == [signal];
    }
    EmitKeeps(s.log, signal);
  }

  /** No exit, time-out, slow stop or slow commit goes unnoticed. */
  predicate Watched(s: Tree, now: nat)
    requires s.native.Some?
  {
    && (s.native.value.rootExit.Some? || now >= s.startedAt + s.timeoutMs ==> s.stopping || s.committing)
    && (s.stopping && now >= s.stoppedAt + STOP_MS ==> s.reported)
    && (s.committing && now >= s.committedAt + COMMIT_MS ==> s.reported)
  }

  lemma TickKeeps(s: Tree, pieces: seq<nat>, known: bool, onlyTelemetry: bool, tokenWritten: bool, now: nat)
    requires Inv(s)
    ensures var t := AfterTick(s, pieces, known, onlyTelemetry, tokenWritten, now);
            && Inv(t) && |t.log| == |s.log|
            && (s.committing ==> t.terminated == s.terminated)
            && (s.native.Some? && s.polling && t.native.Some? ==>
                  if known && Over(t.native.value) then t.native.value.pipe != [] else Watched(t, now))
            && (s.native.None? ==> t == s)
  {
    if s.native.Some? && s.polling {
      hide Inv, AfterDrain, AfterHandshake, AfterWatch, AfterReport, AfterEnd;
      DrainKeeps(s, pieces, 0, now);
      var s1 := AfterDrain(s, pieces, 0, now);
      HandshakeKeeps(s1, known, tokenWritten, now);
      var s2 := AfterHandshake(s1, known, tokenWritten, now);
      if known && Over(s2.native.value) {
        if s2.native.value.pipe == [] { EndKeeps(s2); }
      } else {
        WatchKeeps(s2, onlyTelemetry, now);
        ReportKeeps(AfterWatch(s2, onlyTelemetry, now), now);
        ReportSchedule(AfterWatch(s2, onlyTelemetry, now), now);
      }
    }
  }

  lemma ReportSchedule(s: Tree, now: nat)
    requires s.native.Some?
    ensures var t := AfterReport(s, now);
            t.startedAt == s.startedAt && t.timeoutMs == s.timeoutMs && t.stoppedAt == s.stoppedAt && t.committedAt == s.committedAt
  {
  }

  lemma StartKeeps(s: Tree, ready: bool, timeoutMs: nat, limit: nat, commitProtocol: bool, launched: bool, now: nat)
    requires Inv(s)
    ensures var t := AfterStart(s, ready, timeoutMs, limit, commitProtocol, launched, now);
            Inv(t) && |t.log| == |s.log| + (if Acceptable(s, ready, timeoutMs, limit) then 1 else 0)
  {
    var t := AfterStart(s, ready, timeoutMs, limit, commitProtocol, launched, now);
    if Acceptable(s, ready, timeoutMs, limit) {
      hide SignalsOfOneStart, EndsStart;
      assert SignalsOfOneStart([]) by { NothingEmitted(); }
      assert forall i :: 0 <= i < |s.log| ==> t.log[i] == s.log[i];
      assert s.log != [] ==> s.log[|s.log| - 1] == Latest(s.log);
    }
  }

  lemma NothingEmitted()
    ensures SignalsOfOneStart([])
  {
  }

  lemma CancelKeeps(s: Tree, now: nat)
    requires Inv(s)
    ensures var t := AfterStop(s, Cancelled, now);
            Inv(t) && t.log == s.log && (s.native.Some? && s.committing ==> t.terminated == s.terminated)
  {
    hide SignalsOfOneStart, EndsStart, Kept;
  }

  lemma FailedLaunchKeeps(s: Tree)
    requires Inv(s)
    ensures Inv(AfterFailedLaunch(s)) && |AfterFailedLaunch(s).log| == |s.log|
  {
    if s.native.Some? && !s.polling {
      assert Latest(s.log) + [CompletionOf(s)] == [CompletionOf(s)];
      EmitKeeps(s.log, CompletionOf(s));
    }
  }

  lemma HandleKeeps(s: Tree, what: What, now: nat)
    requires Inv(s)
    ensures Inv(Handle(s, what, now))
    ensures |Handle(s, what, now).log| == |s.log| +
            (if what.Starting? && Acceptable(s, what.ready, what.timeoutMs, what.limit) then 1 else 0)
  {
    match what
    case Starting(ready, timeoutMs, limit, commitProtocol, launched) =>
      StartKeeps(s, ready, timeoutMs, limit, commitProtocol, launched, now);
    case Cancelling => CancelKeeps(s, now);
    case Ticking(pieces, known, onlyTelemetry, tokenWritten) => TickKeeps(s, pieces, known, onlyTelemetry, tokenWritten, now);
    case FailingLaunch => FailedLaunchKeeps(s);
    case Permitting =>
      hide SignalsOfOneStart, EndsStart, Kept;
    case Happening(next) =>
      hide SignalsOfOneStart, EndsStart, Kept;
  }

  /**
    Over all events: one entry per accepted start, each what a start may emit, all
    but the last over, and the last in step with whether a job is supervised and
    whether its end was reported as unconfirmed.
  */
  lemma {:induction false} TreeGuarantee(events: seq<Event>)
    ensures var s := After(events);
            && Inv(s) && |s.log| == Starts(events)
            && (forall i :: 0 <= i < |s.log| ==> SignalsOfOneStart(s.log[i]))
            && (forall i :: 0 <= i < |s.log| - 1 ==> EndsStart(s.log[i]))
            && (if s.native.None? then s.log == [] || EndsStart(Latest(s.log))
                else if s.reported then Unconfirmed(Latest(s.log)) else Latest(s.log) == [])
            && (s.native.Some? ==> !(s.committing && s.terminated))
  {
    hide SignalsOfOneStart, EndsStart, Kept, Handle, OutputInv;
    if events != [] {
      var k := |events| - 1;
      TreeGuarantee(events[..k]);
      HandleKeeps(After(events[..k]), events[k].what, Clock(events));
    }
  }

  // ------------------------------------------------------ the class TreeProcess

  datatype Result = Result(status: Status, exitCode: int, output: Bytes)

  /** What an observer knows: whether the job was told to terminate, what was read from it, what was emitted. */
  datatype Seen = Seen(terminated: bool, read: Bytes, log: seq<seq<Signal>>)

  class TreeProcess {
    var native: Option<Job>
    var result: Result
    var limit: nat
    var timeoutMs: nat
    var startedAt: nat
    var stoppedAt: nat
    var committedAt: nat
    var stopping: bool
    var reported: bool
    var polling: bool
    var commitProtocol: bool
    var committing: bool
    var telemetry: bool
    ghost var seen: Seen

    ghost function View(): Tree
      reads this
    {
      Tree(native, result.status, result.exitCode, result.output, limit, timeoutMs, startedAt, stoppedAt, committedAt, stopping,
           reported, polling, commitProtocol, committing, telemetry, seen.terminated, seen.read, seen.log)
    }

    constructor ()
      ensures View() == NO_TREE
    {
      native := None;
      result, limit := Result(StartFailed, -1, []), 0;
      timeoutMs, startedAt, stoppedAt, committedAt := 0, 0, 0, 0;
      stopping, reported, polling := false, false, false;
      commitProtocol, committing, telemetry := false, false, false;
      seen := Seen(false, [], []);
    }

    method Start(ready: bool, timeoutMs: nat, limit: nat, commitProtocol: bool, launched: bool, now: nat) returns (accepted: bool)
      modifies this
      ensures View() == AfterStart(old(View()), ready, timeoutMs, limit, commitProtocol, launched, now)
      ensures accepted == Acceptable(old(View()), ready, timeoutMs, limit)
    {
      if native.Some? || !ready || timeoutMs < 1 || timeoutMs > MAXIMUM_MS || limit < 1 || limit > MAXIMUM_OUTPUT {
        return false;
      }
      Reset(timeoutMs, limit, commitProtocol);
      native := Some(Launched(launched));
      startedAt, polling := now, launched;
      accepted := true;
    }

    /** Nothing is left of the last start. */
    method Reset(timeoutMs: nat, limit: nat, commitProtocol: bool)
      modifies `result, `stopping, `reported, `commitProtocol, `committing, `timeoutMs, `limit, `seen
      ensures result == Result(StartFailed, -1, []) && !stopping && !reported && !committing
      ensures this.commitProtocol == commitProtocol && this.timeoutMs == timeoutMs && this.limit == limit
      ensures seen == Seen(false, [], old(seen).log + [[]])
    {
      result := Result(StartFailed, -1, []);
      stopping, reported := false, false;
      this.commitProtocol, committing := commitProtocol, false;
      this.timeoutMs, this.limit := timeoutMs, limit;
      seen := Seen(false, [], seen.log + [[]]);
    }

    method Stop(reason: Status, now: nat)
      modifies `result, `stopping, `stoppedAt, `seen
      ensures View() == AfterStop(old(View()), reason, now)
    {
      if stopping && result.status.Success? && !reason.Success? {
        result := result.(status := reason);
      }
      if native.None? || stopping || committing {
        return;
      }
      result := result.(status := reason);
      stopping, stoppedAt := true, now;
      seen := seen.(terminated := true);
    }

    method Cancel(now: nat)
      modifies `result, `stopping, `stoppedAt, `seen
      ensures View() == AfterStop(old(View()), Cancelled, now)
    {
      Stop(Cancelled, now);
    }

    /** At most sixteen reads a turn. */
    method Drain(pieces: seq<nat>, now: nat)
      requires native.Some?
      modifies `native, `result, `stopping, `stoppedAt, `seen
      ensures View() == AfterDrain(old(View()), pieces, 0, now)
    {
      hide AfterRead;
      var turn := 0;
      assert pieces[0..] == pieces;
      while turn < READS_PER_TICK && turn < |pieces| && native.value.pipe != []
        invariant turn <= |pieces| && turn <= READS_PER_TICK && native.Some?
        invariant AfterDrain(View(), pieces[turn..], turn, now) == AfterDrain(old(View()), pieces, 0, now)
      {
        var count := Min(pieces[turn], Min(CHUNK, |native.value.pipe|));
        if count == 0 {
          break;
        }
        assert pieces[turn..][1..] == pieces[turn + 1..];
        ReadOne(count, now);
        turn := turn + 1;
      }
    }

    method ReadOne(count: nat, now: nat)
      requires native.Some? && count <= |native.value.pipe|
      modifies `native, `result, `stopping, `stoppedAt, `seen
      ensures View() == AfterRead(old(View()), count, now)
    {
      var data := native.value.pipe[..count];
      var remaining := if |result.output| <= limit then limit - |result.output| else 0;
      var over := |result.output| + count > limit;
      SplitPipe(seen.read, native.value.pipe, count);
      result := result.(output := result.output + data[..Min(remaining, count)]);
      seen := seen.(read := seen.read + data);
      native := Some(native.value.(pipe := native.value.pipe[count..]));
      assert View() == Taken(old(View()), count);
      hide Taken, AfterStop, Min;
      if over {
        Stop(OutputLimit, now);
      }
    }

    /** The commit handshake. */
    method Handshake(known: bool, tokenWritten: bool, now: nat)
      requires native.Some?
      modifies `committing, `committedAt, `result, `stopping, `stoppedAt, `seen
      ensures View() == AfterHandshake(old(View()), known, tokenWritten, now)
    {
      hide CommitReady, AfterStop;
      if commitProtocol && !committing && !stopping && native.value.rootExit.None? && known && native.value.active == 1 &&
         CommitReady(result.output) {
        if now >= startedAt + timeoutMs {
          Stop(Timeout, now);
        } else if limit < |result.output| + Min(COMMIT_ROOM, limit / 2) {
          Stop(OutputLimit, now);
        } else if tokenWritten {
          committing, committedAt := true, now;
        } else {
          Stop(Failed, now);
        }
      }
    }

    /** The poll timer. `known`, `onlyTelemetry` and `pieces` are what the queries about the job and its pipe answered. */
    method Tick(pieces: seq<nat>, known: bool, onlyTelemetry: bool, tokenWritten: bool, now: nat)
      modifies this
      ensures View() == AfterTick(old(View()), pieces, known, onlyTelemetry, tokenWritten, now)
    {
      hide AfterDrain, AfterHandshake, AfterWatch, AfterReport, AfterEnd;
      if native.None? || !polling {
        return;
      }
      ghost var before := View();
      Drain(pieces, now);
      assert View().native.Some?;
      Handshake(known, tokenWritten, now);
      if known && Over(native.value) {
        if native.value.pipe == [] {
          End();
        }
        return;
      }
      WatchTime(onlyTelemetry, now);
      Report(now);
    }

    method End()
      requires native.Some? && native.value.rootExit.Some?
      modifies this
      ensures View() == AfterEnd(old(View()))
    {
      hide Emit;
      result := result.(exitCode := native.value.rootExit.value);
      if !stopping {
        result := result.(status := if result.exitCode == 0 then Success else Failed);
      }
      seen := seen.(log := Emit(seen.log, if reported then Settled(native.value) else CompletionOf(View())));
      polling := false;
      native := None;
    }

    /** Root exit with processes left over, or the time-out. */
    method WatchTime(onlyTelemetry: bool, now: nat)
      requires native.Some?
      modifies `result, `stopping, `stoppedAt, `seen
      ensures View() == AfterWatch(old(View()), onlyTelemetry, now)
    {
      hide AfterStop;
      var rootExited := native.value.rootExit.Some?;
      if !stopping && (rootExited || now >= startedAt + timeoutMs) {
        if rootExited && now < startedAt + timeoutMs && telemetry && native.value.rootExit == Some(0) && onlyTelemetry {
          Stop(Success, now);
        } else {
          Stop(if rootExited then Failed else Timeout, now);
        }
      }
    }

    /** Termination, or what the commit did, is not confirmed in time. */
    method Report(now: nat)
      requires native.Some?
      modifies `reported, `result, `seen
      ensures View() == AfterReport(old(View()), now)
    {
      hide Emit;
      if !reported && ((stopping && now >= stoppedAt + STOP_MS) || (committing && now >= committedAt + COMMIT_MS)) {
        reported, result := true, result.(status := TerminationUnconfirmed);
        seen := seen.(log := Emit(seen.log, CompletionOf(View())));
      }
    }

    /** A failed launch is reported from the event loop. */
    method LaunchFailure()
      modifies `native, `seen
      ensures View() == AfterFailedLaunch(old(View()))
    {
      hide Emit;
      if native.None? || polling {
        return;
      }
      seen := seen.(log := Emit(seen.log, CompletionOf(View())));
      native := None;
    }

    method PermitTelemetryTail()
      modifies `telemetry
      ensures View() == old(View()).(telemetry := old(telemetry) || native.None?)
    {
      if native.None? {
        telemetry := true;
      }
    }

    /** Any events in any order. */
    method Run(events: seq<Event>)
      requires View() == NO_TREE
      modifies this
      ensures View() == After(events)
    {
      hide Handle;
      var now: nat := 0;
      assert events[..0] == [];
      for i := 0 to |events|
        invariant View() == After(events[..i]) && now == Clock(events[..i])
      {
        assert events[..i + 1][..i] == events[..i];
        now := now + events[i].elapsed;
        Dispatch(events[i].what, now);
      }
      assert events[..|events|] == events;
    }

    method Dispatch(what: What, now: nat)
      modifies this
      ensures View() == Handle(old(View()), what, now)
    {
      hide AfterStart, AfterStop, AfterTick, AfterFailedLaunch;
      match what
      case Starting(ready, timeoutMs, limit, commitProtocol, launched) =>
        var _ := Start(ready, timeoutMs, limit, commitProtocol, launched, now);
      case Cancelling => Cancel(now);
      case Ticking(pieces, known, onlyTelemetry, tokenWritten) => Tick(pieces, known, onlyTelemetry, tokenWritten, now);
      case FailingLaunch => LaunchFailure();
      case Permitting => PermitTelemetryTail();
      case Happening(next) =>
        if native.Some? && Evolves(native.value, next, polling) {
          native := Some(next);
        }
    }
  }
}
