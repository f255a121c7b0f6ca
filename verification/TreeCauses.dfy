/**
  Why a start of the job supervisor ends as it does. The reasons are told from what
  was asked, from the time and from what the job did; the supervisor's own record
  of why it stops is not looked at.
*/
module TreeCauses {
  import opened ProcessOutput
  import opened TreeSupervision
  import opened Wrappers

  /**
    The current start: what it was asked for, what was read from it, the first reason to
    stop it and when it came, when the commit token went out, and whether its end was
    reported as unconfirmed.
  */
  datatype Story = Story(
    startedAt: nat,
    timeoutMs: nat,
    limit: nat,
    commitProtocol: bool,
    telemetry: bool,
    read: Bytes,
    stop: Option<(Status, nat)>,
    commit: Option<nat>,
    reported: bool)

  const NO_STORY := Story(0, 0, 0, false, false, [], None, None, false)

  /** A reason to stop: nothing stops a committing job, and only an orderly end of the tail gives way to a later reason. */
  function Because(story: Story, reason: Status, now: nat): Story {
    if story.commit.Some? then story
    else match story.stop
      case None => story.(stop := Some((reason, now)))
      case Some((Success, at)) => story.(stop := Some((reason, at)))
      case _ => story
  }

  /** How many bytes sixteen reads of at most 4096 bytes take. */
  function Drained(available: nat, pieces: seq<nat>, turns: nat): (n: nat)
    ensures n <= available
    decreases |pieces|
  {
    if pieces == [] || turns >= 16 then 0
    else
      var most := if available < 4096 then available else 4096;
      var count := if pieces[0] < most then pieces[0] else most;
      if count == 0 then 0 else count + Drained(available - count, pieces[1..], turns + 1)
  }

  predicate Announces(read: Bytes) {
    || (|read| >= 24 && read[|read| - 24..] == "ARTESTDEV_COMMIT_READY\r\n")
    || (|read| >= 23 && read[|read| - 23..] == "ARTESTDEV_COMMIT_READY\n")
  }

  function Half(limit: nat): nat {
    if limit / 2 < 16384 then limit / 2 else 16384
  }

  /** The story after a tick's reading and its handshake. */
  function HandshakeStory(job: Job, story: Story, pieces: seq<nat>, known: bool, tokenWritten: bool, now: nat): Story {
    var read := story.read + job.pipe[..Drained(|job.pipe|, pieces, 0)];
    var story1 := Overflown(story.(read := read), |read| > |story.read| && |read| > story.limit, now);
    Shaken(job, story1, known, tokenWritten, now)
  }

  function Overflown(story: Story, over: bool, now: nat): Story {
    if over then Because(story, OutputLimit, now) else story
  }

  /** The handshake: a root that waits for the token gets it in time and with room to answer, or is stopped. */
  function Shaken(job: Job, story: Story, known: bool, tokenWritten: bool, now: nat): Story {
    if !(story.commitProtocol && story.stop.None? && story.commit.None? && job.rootExit.None? && known && job.active == 1 &&
         Announces(story.read)) then story
    else if now >= story.startedAt + story.timeoutMs then Because(story, Timeout, now)
    else if story.limit - |story.read| < Half(story.limit) then Because(story, OutputLimit, now)
    else if tokenWritten then story.(commit := Some(now))
    else Because(story, Failed, now)
  }

  /** The rest of a tick that does not find the end: an exit with processes left, or the time-out. */
  function Watched(job: Job, story: Story, onlyTelemetry: bool, now: nat): Story {
    var late := now >= story.startedAt + story.timeoutMs;
    if story.stop.Some? then story
    else if job.rootExit == Some(0) && !late && story.telemetry && onlyTelemetry then Because(story, Success, now)
    else if job.rootExit.Some? then Because(story, Failed, now)
    else if late then Because(story, Timeout, now)
    else story
  }

  /** A tick too late for the stop or for the commit. */
  predicate Overdue(story: Story, now: nat) {
    (story.stop.Some? && now >= story.stop.value.1 + 2000) || (story.commit.Some? && now >= story.commit.value + 5000)
  }

  function TickStory(job: Job, story: Story, pieces: seq<nat>, known: bool, onlyTelemetry: bool, tokenWritten: bool, now: nat): Story {
    var story1 := HandshakeStory(job, story, pieces, known, tokenWritten, now);
    if known && job.active == 0 && job.rootExit.Some? then story1
    else
      var story2 := Watched(job, story1, onlyTelemetry, now);
      story2.(reported := story2.reported || Overdue(story2, now))
  }

  function NextStory(native: Option<Job>, launched: bool, story: Story, what: What, now: nat): Story {
    match what
    case Starting(ready, timeoutMs, limit, commitProtocol, _) =>
      if native.None? && ready && 1 <= timeoutMs <= 1800000 && 1 <= limit <= 1048576
      then Story(now, timeoutMs, limit, commitProtocol, story.telemetry, [], None, None, false) else story
    case Cancelling => if native.Some? then Because(story, Cancelled, now) else story
    case Ticking(pieces, known, onlyTelemetry, tokenWritten) =>
      if native.Some? && launched then TickStory(native.value, story, pieces, known, onlyTelemetry, tokenWritten, now) else story
    case Permitting => if native.None? then story.(telemetry := true) else story
    case _ => story
  }

  /** The story of the current start. */
  function StoryOf(events: seq<Event>): Story {
    if events == [] then NO_STORY
    else
      var k := |events| - 1;
      NextStory(After(events[..k]).native, After(events[..k]).polling, StoryOf(events[..k]), events[k].what, Clock(events))
  }

  /** The supervisor's record and the story agree. */
  predicate Tells(s: Tree, story: Story) {
    s.telemetry == story.telemetry && (s.native.Some? ==> Told(s, story))
  }

  predicate Told(s: Tree, story: Story) {
    && s.startedAt == story.startedAt && s.timeoutMs == story.timeoutMs && s.limit == story.limit
    && s.commitProtocol == story.commitProtocol && s.read == story.read && s.reported == story.reported
    && (s.stopping <==> story.stop.Some?) && (s.committing <==> story.commit.Some?)
    && (s.stopping ==> s.stoppedAt == story.stop.value.1 && (!s.reported ==> s.status == story.stop.value.0))
    && (s.committing ==> s.committedAt == story.commit.value)
    && (!s.polling && !s.stopping ==> s.status.StartFailed?)
    && s.exitCode == -1 && (!s.polling ==> s.read == s.output == [] && !s.committing && !s.reported)
  }

  lemma StopTells(s: Tree, story: Story, reason: Status, now: nat)
    requires s.native.Some? && Tells(s, story) && !(s.stopping && s.committing) && (reason.Success? ==> !s.stopping)
    ensures Tells(AfterStop(s, reason, now), Because(story, reason, now))
    ensures AfterStop(s, reason, now).stopping == (s.stopping || !s.committing)
  {
    if s.committing {
      assert AfterStop(s, reason, now) == s && Because(story, reason, now) == story;
    } else if s.stopping {
      StopAgain(s, reason, now);
      hide AfterStop;
    }
  }

  lemma StopAgain(s: Tree, reason: Status, now: nat)
    requires s.native.Some? && s.stopping
    ensures AfterStop(s, reason, now) == s.(status := if s.status.Success? then reason else s.status)
  {
  }

  /** What a stop leaves alone. */
  predicate SameJob(s: Tree, t: Tree) {
    && t.native.Some? == s.native.Some? && t.limit == s.limit && t.timeoutMs == s.timeoutMs && t.startedAt == s.startedAt
    && t.reported == s.reported && t.polling == s.polling && t.commitProtocol == s.commitProtocol
    && t.committing == s.committing && t.telemetry == s.telemetry && t.log == s.log && t.exitCode == s.exitCode
  }

  lemma ReadTells(s: Tree, story: Story, count: nat, now: nat)
    requires Inv(s) && s.native.Some? && s.polling && Tells(s, story) && 0 < count <= |s.native.value.pipe|
    ensures var t, pipe := AfterRead(s, count, now), s.native.value.pipe;
            && SameJob(s, t) && t.read == s.read + pipe[..count] && t.native == Some(s.native.value.(pipe := pipe[count..]))
            && Tells(t, Overflown(story.(read := t.read), |t.read| > s.limit, now))
  {
    TakenOutput(s, count);
    var s1 := Taken(s, count);
    TakenTells(s, story, count);
    StopTells(s1, story.(read := s1.read), OutputLimit, now);
    StopOnlyStops(s1, OutputLimit, now);
    hide LogInv, Kept, AfterStop, Tells, Because;
  }

  lemma TakenTells(s: Tree, story: Story, count: nat)
    requires s.native.Some? && s.polling && Tells(s, story) && count <= |s.native.value.pipe|
    ensures Tells(Taken(s, count), story.(read := s.read + s.native.value.pipe[..count]))
  {
  }

  lemma OverflowTwice(story: Story, a: Bytes, b: Bytes, now: nat)
    ensures forall over ::
      Overflown(Overflown(story.(read := a), over, now).(read := b), over, now) == Overflown(story.(read := b), over, now)
    ensures Overflown(Overflown(story.(read := a), false, now).(read := b), true, now) == Overflown(story.(read := b), true, now)
    ensures Overflown(Overflown(story.(read := a), true, now).(read := b), false, now) == Overflown(story.(read := b), true, now)
  {
  }

  /** How much a drain leaves in the pipe. */
  lemma {:induction false} DrainLeaves(s: Tree, pieces: seq<nat>, turns: nat, now: nat)
    requires Inv(s) && s.native.Some? && s.polling && turns <= 16
    ensures |AfterDrain(s, pieces, turns, now).native.value.pipe| ==
            |s.native.value.pipe| - Drained(|s.native.value.pipe|, pieces, turns)
    decreases |pieces|
  {
    hide Inv, AfterRead;
    var count := ReadSize(s, pieces);
    if turns < READS_PER_TICK && count > 0 {
      ReadKeeps(s, count, now);
      DrainLeaves(AfterRead(s, count, now), pieces[1..], turns + 1, now);
    }
  }

  lemma {:induction false} DrainRecords(s: Tree, story: Story, pieces: seq<nat>, turns: nat, now: nat)
    requires Inv(s) && s.native.Some? && s.polling && Tells(s, story)
    ensures var t := AfterDrain(s, pieces, turns, now);
            SameJob(s, t) && Tells(t, Overflown(story.(read := t.read), |t.read| > |s.read| && |t.read| > s.limit, now))
    ensures |AfterDrain(s, pieces, turns, now).read| >= |s.read|
    decreases |pieces|
  {
    var count := ReadSize(s, pieces);
    hide Inv, AfterRead, Tells, Because, SameJob;
    SameItself(s);
    if turns != READS_PER_TICK && count > 0 {
      var r := AfterRead(s, count, now);
      ReadTells(s, story, count, now);
      ReadKeeps(s, count, now);
      SameLimit(s, r);
      DrainRecords(r, Overflown(story.(read := r.read), |r.read| > s.limit, now), pieces[1..], turns + 1, now);
      OverflowTwice(story, r.read, AfterDrain(r, pieces[1..], turns + 1, now).read, now);
      hide AfterDrain;
      SameTwice(s, r, AfterDrain(r, pieces[1..], turns + 1, now));
    }
  }

  lemma SplitAt(read: Bytes, pipe: Bytes, read': Bytes, pipe': Bytes)
    requires read + pipe == read' + pipe' && |read'| >= |read|
    ensures |pipe'| <= |pipe| && read' == read + pipe[..|pipe| - |pipe'|] && pipe' == pipe[|pipe| - |pipe'|..]
  {
    assert |read + pipe| == |read'| + |pipe'|;
    assert read' == (read' + pipe')[..|read'|];
    assert pipe' == (read' + pipe')[|read'|..];
  }

  lemma DrainTells(s: Tree, story: Story, pieces: seq<nat>, now: nat)
    requires Inv(s) && s.native.Some? && s.polling && Tells(s, story)
    ensures var t, pipe := AfterDrain(s, pieces, 0, now), s.native.value.pipe;
            var n := Drained(|pipe|, pieces, 0);
            && Inv(t) && SameJob(s, t) && t.read == s.read + pipe[..n] && t.native == Some(s.native.value.(pipe := pipe[n..]))
            && Tells(t, Overflown(story.(read := t.read), |t.read| > |s.read| && |t.read| > s.limit, now))
  {
    hide Inv, AfterDrain, Tells, Because, SameJob;
    DrainKeeps(s, pieces, 0, now);
    DrainLeaves(s, pieces, 0, now);
    DrainRecords(s, story, pieces, 0, now);
    var t := AfterDrain(s, pieces, 0, now);
    SplitAt(s.read, s.native.value.pipe, t.read, t.native.value.pipe);
  }

  lemma SameLimit(s: Tree, t: Tree)
    requires SameJob(s, t)
    ensures t.limit == s.limit && t.polling == s.polling
  {
  }

  lemma SameTwice(s: Tree, t: Tree, u: Tree)
    requires SameJob(s, t) && SameJob(t, u)
    ensures SameJob(s, u)
  {
  }

  lemma SameItself(s: Tree)
    ensures SameJob(s, s)
  {
  }

  // ---------------------------------------------------------------- one tick

  /** What the end of a start reports: what stopped it, or how its root exited. */
  function Verdict(story: Story, exit: int): Status {
    if story.stop.Some? then story.stop.value.0 else if exit == 0 then Success else Failed
  }

  /** A completion: the beginning of what was read, as far as the limit goes. */
  function Ending(story: Story, status: Status, exit: int, job: Job): Signal {
    Completed(status, exit, story.read[..if |story.read| < story.limit then |story.read| else story.limit], story.limit, story.read,
              true, story.commit.Some?, job)
  }

  lemma SameRead(s: Tree)
    requires OutputInv(s) && |s.read| <= s.limit
    ensures s.output == s.read && CommitReady(s.output) == Announces(s.read)
  {
  }

  lemma HandshakeTells(s: Tree, story: Story, known: bool, tokenWritten: bool, now: nat)
    requires Inv(s) && s.native.Some? && s.polling && Tells(s, story)
    ensures var t := AfterHandshake(s, known, tokenWritten, now);
            && t.native == s.native && t.polling && t.log == s.log
            && Tells(t, Shaken(s.native.value, story, known, tokenWritten, now))
  {
    hide LogInv, CommitReady, Announces, Kept;
    if !s.stopping && !s.committing { SameRead(s); }
    StopTells(s, story, Timeout, now);
    StopTells(s, story, OutputLimit, now);
    StopTells(s, story, Failed, now);
  }

  lemma WatchTells(s: Tree, story: Story, onlyTelemetry: bool, now: nat)
    requires Inv(s) && s.native.Some? && s.polling && Tells(s, story)
    ensures var t := AfterWatch(s, onlyTelemetry, now);
            && t.native == s.native && t.polling && t.log == s.log
            && Tells(t, Watched(s.native.value, story, onlyTelemetry, now))
  {
    hide LogInv, Kept;
    if !s.stopping { StopTells(s, story, Success, now); }
    StopTells(s, story, Failed, now);
    StopTells(s, story, Timeout, now);
  }

  lemma EndTells(s: Tree, story: Story)
    requires Inv(s) && s.native.Some? && s.polling && Tells(s, story) && s.native.value.rootExit.Some?
    ensures var job, t := s.native.value, AfterEnd(s);
            && t.native.None? && Tells(t, story)
            && t.log == Emit(s.log,
                 if story.reported then Settled(job)
                 else Ending(story, Verdict(story, job.rootExit.value), job.rootExit.value, job))
  {
    hide LogInv;
  }

  lemma ReportTells(s: Tree, story: Story, now: nat)
    requires Inv(s) && s.native.Some? && s.polling && Tells(s, story)
    ensures var t := AfterReport(s, now);
            && t.native == s.native && Tells(t, story.(reported := story.reported || Overdue(story, now)))
            && t.log == if !story.reported && Overdue(story, now)
                        then Emit(s.log, Ending(story, TerminationUnconfirmed, -1, s.native.value)) else s.log
  {
    hide LogInv;
  }

  lemma HandshakeOfTick(s: Tree, story: Story, pieces: seq<nat>, known: bool, tokenWritten: bool, now: nat)
    requires Inv(s) && s.native.Some? && s.polling && Tells(s, story)
    ensures var t := AfterHandshake(AfterDrain(s, pieces, 0, now), known, tokenWritten, now);
            var job := s.native.value;
            && Inv(t) && t.polling && t.log == s.log
            && t.native == Some(job.(pipe := job.pipe[Drained(|job.pipe|, pieces, 0)..]))
            && Tells(t, HandshakeStory(job, story, pieces, known, tokenWritten, now))
  {
    hide Inv, AfterDrain, AfterHandshake, Tells, HandshakeStory, Shaken, Overflown, Drained;
    DrainTells(s, story, pieces, now);
    var s1 := AfterDrain(s, pieces, 0, now);
    StoryOfReading(s, story, pieces, known, tokenWritten, now, s1.read);
    var story1 := Overflown(story.(read := s1.read), |s1.read| > |s.read| && |s1.read| > s.limit, now);
    HandshakeTells(s1, story1, known, tokenWritten, now);
    HandshakeKeeps(s1, known, tokenWritten, now);
    ShakenIgnoresPipe(s.native.value, s1.native.value.pipe, story1, known, tokenWritten, now);
  }

  lemma StoryOfReading(s: Tree, story: Story, pieces: seq<nat>, known: bool, tokenWritten: bool, now: nat, read: Bytes)
    requires s.native.Some? && Tells(s, story)
    requires read == s.read + s.native.value.pipe[..Drained(|s.native.value.pipe|, pieces, 0)]
    ensures HandshakeStory(s.native.value, story, pieces, known, tokenWritten, now) ==
            Shaken(s.native.value, Overflown(story.(read := read), |read| > |s.read| && |read| > s.limit, now), known, tokenWritten, now)
  {
    hide Drained, Overflown, Shaken;
  }

  lemma ShakenIgnoresPipe(job: Job, pipe: Bytes, story: Story, known: bool, tokenWritten: bool, now: nat)
    ensures Shaken(job.(pipe := pipe), story, known, tokenWritten, now) == Shaken(job, story, known, tokenWritten, now)
  {
  }

  /** What a tick has to emit. */
  ghost predicate TickReports(job: Job, log: seq<seq<Signal>>, story: Story, pieces: seq<nat>, known: bool, onlyTelemetry: bool,
                              tokenWritten: bool, now: nat, log': seq<seq<Signal>>)
  {
    var n := Drained(|job.pipe|, pieces, 0);
    var story1, left := HandshakeStory(job, story, pieces, known, tokenWritten, now), job.(pipe := job.pipe[n..]);
    if known && job.active == 0 && job.rootExit.Some? then
      log' == if n < |job.pipe| then log
              else Emit(log, if story.reported then Settled(left)
                             else Ending(story1, Verdict(story1, job.rootExit.value), job.rootExit.value, left))
    else
      var story2 := Watched(job, story1, onlyTelemetry, now);
      log' == if !story.reported && Overdue(story2, now) then Emit(log, Ending(story2, TerminationUnconfirmed, -1, left)) else log
  }

  lemma TickTells(s: Tree, story: Story, pieces: seq<nat>, known: bool, onlyTelemetry: bool, tokenWritten: bool, now: nat)
    requires Inv(s) && s.native.Some? && s.polling && Tells(s, story)
    ensures var t, job := AfterTick(s, pieces, known, onlyTelemetry, tokenWritten, now), s.native.value;
            && Tells(t, TickStory(job, story, pieces, known, onlyTelemetry, tokenWritten, now))
            && TickReports(job, s.log, story, pieces, known, onlyTelemetry, tokenWritten, now, t.log)
  {
    hide Inv, AfterDrain, AfterHandshake, HandshakeStory, Drained, Emit, AfterWatch, AfterReport, AfterEnd, Tells, Overdue, Ending;
    hide Watched, AfterTick, TickStory, TickReports;
    HandshakeOfTick(s, story, pieces, known, tokenWritten, now);
    var s2 := AfterHandshake(AfterDrain(s, pieces, 0, now), known, tokenWritten, now);
    var story1 := HandshakeStory(s.native.value, story, pieces, known, tokenWritten, now);
    StillReported(s.native.value, story, pieces, known, tokenWritten, now);
    if known && Over(s2.native.value) {
      EndTells(s2, story1);
      TickThatEnds(s, story, pieces, onlyTelemetry, tokenWritten, now);
    } else {
      WatchTells(s2, story1, onlyTelemetry, now);
      WatchKeeps(s2, onlyTelemetry, now);
      ReportTells(AfterWatch(s2, onlyTelemetry, now), Watched(s2.native.value, story1, onlyTelemetry, now), now);
      WatchedIgnoresPipe(s.native.value, s2.native.value.pipe, story1, onlyTelemetry, now);
      TickThatGoesOn(s, story, pieces, known, onlyTelemetry, tokenWritten, now);
    }
  }

  /** The definitions of a tick, unfolded where it finds the end. */
  lemma TickThatEnds(s: Tree, story: Story, pieces: seq<nat>, onlyTelemetry: bool, tokenWritten: bool, now: nat)
    requires s.native.Some? && s.polling
    requires var s2 := AfterHandshake(AfterDrain(s, pieces, 0, now), true, tokenWritten, now);
             var job := s.native.value;
             && s2.native == Some(job.(pipe := job.pipe[Drained(|job.pipe|, pieces, 0)..])) && Over(job) && s2.log == s.log
             && Tells(s2, HandshakeStory(job, story, pieces, true, tokenWritten, now))
             && (s2.native.value.pipe == [] ==>
                   var story1 := HandshakeStory(job, story, pieces, true, tokenWritten, now);
                   && Tells(AfterEnd(s2), story1)
                   && AfterEnd(s2).log == Emit(s.log, if story.reported then Settled(s2.native.value)
                        else Ending(story1, Verdict(story1, job.rootExit.value), job.rootExit.value, s2.native.value)))
    ensures var t, job := AfterTick(s, pieces, true, onlyTelemetry, tokenWritten, now), s.native.value;
            && Tells(t, TickStory(job, story, pieces, true, onlyTelemetry, tokenWritten, now))
            && TickReports(job, s.log, story, pieces, true, onlyTelemetry, tokenWritten, now, t.log)
  {
    hide Inv, AfterDrain, AfterHandshake, HandshakeStory, Drained, Emit, AfterWatch, AfterReport, AfterEnd, Tells, Overdue, Ending;
    hide Watched, Verdict;
  }

  lemma TickThatGoesOn(s: Tree, story: Story, pieces: seq<nat>, known: bool, onlyTelemetry: bool, tokenWritten: bool, now: nat)
    requires s.native.Some? && s.polling
    requires var s2 := AfterHandshake(AfterDrain(s, pieces, 0, now), known, tokenWritten, now);
             var job := s.native.value;
             var story2 := Watched(job, HandshakeStory(job, story, pieces, known, tokenWritten, now), onlyTelemetry, now);
             var t := AfterReport(AfterWatch(s2, onlyTelemetry, now), now);
             && s2.native == Some(job.(pipe := job.pipe[Drained(|job.pipe|, pieces, 0)..])) && !(known && Over(job))
             && story2.reported == story.reported
             && Tells(t, story2.(reported := story2.reported || Overdue(story2, now)))
             && t.log == if !story2.reported && Overdue(story2, now)
                         then Emit(s.log, Ending(story2, TerminationUnconfirmed, -1, s2.native.value)) else s.log
    ensures var t, job := AfterTick(s, pieces, known, onlyTelemetry, tokenWritten, now), s.native.value;
            && Tells(t, TickStory(job, story, pieces, known, onlyTelemetry, tokenWritten, now))
            && TickReports(job, s.log, story, pieces, known, onlyTelemetry, tokenWritten, now, t.log)
  {
    hide Inv, AfterDrain, AfterHandshake, HandshakeStory, Drained, Emit, AfterWatch, AfterReport, AfterEnd, Tells, Overdue, Ending;
    hide Watched;
  }

  lemma StillReported(job: Job, story: Story, pieces: seq<nat>, known: bool, tokenWritten: bool, now: nat)
    ensures HandshakeStory(job, story, pieces, known, tokenWritten, now).reported == story.reported
  {
    hide Announces, Drained;
  }

  lemma WatchedIgnoresPipe(job: Job, pipe: Bytes, story: Story, onlyTelemetry: bool, now: nat)
    ensures Watched(job.(pipe := pipe), story, onlyTelemetry, now) == Watched(job, story, onlyTelemetry, now)
    ensures Watched(job, story, onlyTelemetry, now).reported == story.reported
  {
  }

  lemma NoTick(s: Tree, pieces: seq<nat>, known: bool, onlyTelemetry: bool, tokenWritten: bool, now: nat)
    requires s.native.None? || !s.polling
    ensures AfterTick(s, pieces, known, onlyTelemetry, tokenWritten, now) == s
  {
  }

  // ---------------------------------------------------------------- all events

  /** What an event has to report, given the job it meets and the story so far. */
  ghost predicate Reports(s: Tree, story: Story, what: What, now: nat, log: seq<seq<Signal>>) {
    match what
    case Ticking(pieces, known, onlyTelemetry, tokenWritten) =>
      if s.native.Some? && s.polling
      then TickReports(s.native.value, s.log, story, pieces, known, onlyTelemetry, tokenWritten, now, log)
      else log == s.log
    case FailingLaunch =>
      log == if !(s.native.Some? && !s.polling) then s.log
             else Emit(s.log, Completed(if story.stop.Some? then story.stop.value.0 else StartFailed, -1, [], story.limit, [], false,
                                        false, s.native.value))
    case Starting(ready, timeoutMs, limit, _, _) =>
      log == s.log + if s.native.None? && ready && 1 <= timeoutMs <= 1800000 && 1 <= limit <= 1048576 then [[]] else []
    case _ => log == s.log
  }

  lemma OneEventTells(s: Tree, story: Story, what: What, now: nat)
    requires Inv(s) && Tells(s, story)
    ensures Tells(Handle(s, what, now), NextStory(s.native, s.polling, story, what, now))
    ensures Reports(s, story, what, now, Handle(s, what, now).log)
  {
    match what
    case Ticking(pieces, known, onlyTelemetry, tokenWritten) =>
      hide Inv, AfterTick, TickStory, TickReports, Tells;
      if s.native.Some? && s.polling {
        TickTells(s, story, pieces, known, onlyTelemetry, tokenWritten, now);
      } else {
        NoTick(s, pieces, known, onlyTelemetry, tokenWritten, now);
      }
    case Cancelling =>
      if s.native.Some? { hide LogInv, Kept; StopTells(s, story, Cancelled, now); }
    case _ =>
      assert s.log + [] == s.log;
      hide Inv, Because, AfterStop, AfterTick, TickStory;
  }

  lemma {:induction false} StoryIsTrue(events: seq<Event>)
    ensures Tells(After(events), StoryOf(events))
  {
    hide Handle, NextStory, Tells, Inv;
    if events != [] {
      var k := |events| - 1;
      StoryIsTrue(events[..k]);
      TreeGuarantee(events[..k]);
      OneEventTells(After(events[..k]), StoryOf(events[..k]), events[k].what, Clock(events));
    } else {
      NothingTold();
    }
  }

  lemma NothingTold()
    ensures Tells(NO_TREE, NO_STORY)
  {
  }

  /**
    Over all events, whatever comes next: a drained job that has ended is reported with
    what first stopped it, or, if nothing did, as a success exactly for exit code 0; an
    overdue stop or commit as unconfirmed; a failed launch as cancelled or not started;
    and nothing else is reported.
  */
  lemma EndsAsItHappened(events: seq<Event>, next: Event)
    ensures Reports(After(events), StoryOf(events), next.what, Clock(events) + next.elapsed, After(events + [next]).log)
  {
    hide Inv, Tells, Reports, Handle;
    StoryIsTrue(events);
    TreeGuarantee(events);
    OneEventTells(After(events), StoryOf(events), next.what, Clock(events) + next.elapsed);
    assert (events + [next])[..|events|] == events;
  }
}
