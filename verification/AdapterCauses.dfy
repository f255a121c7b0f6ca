/**
  Why a start of the process adapter ends as it does, told from the events alone:
  what was asked, what the child wrote, and how it ended.
*/
module AdapterCauses {
  import opened AdapterSupervision
  import opened ProcessOutput
  import opened Wrappers

  /** The current start: its child, what was taken of the child's output, the first reason to stop it, and whether it was given up on. */
  datatype Course = Course(busy: bool, limit: nat, child: Child, taken: Bytes, stop: Option<Status>, givenUp: bool)

  const NO_COURSE := Course(false, 0, Child(true, 0, true, []), [], None, false)

  function Room(c: Course): nat {
    if |c.taken| < c.limit then c.limit - |c.taken| else 0
  }

  function Said(c: Course, status: Status): Report {
    Finished(status, if c.child.alive then -1 else c.child.code, c.taken[..if |c.taken| < c.limit then |c.taken| else c.limit],
             c.limit, c.taken, c.child)
  }

  function Ends(c: Course, status: Status): (Course, Option<Report>) {
    (c.(busy := false), Some(Said(c, status)))
  }

  /** A reason to stop counts only for a start that nothing has stopped yet; a child that is gone ends it at once. */
  function Asked(c: Course, reason: Status): (Course, Option<Report>) {
    if !c.busy || c.stop.Some? then (c, None)
    else if c.child.alive then (c.(stop := Some(reason)), None)
    else Ends(c.(stop := Some(reason)), reason)
  }

  /** One byte more than there is room for is taken, to notice that there is more. */
  function Took(c: Course): Course {
    var n := if |c.child.channel| <= Room(c) then |c.child.channel| else Room(c) + 1;
    c.(taken := c.taken + c.child.channel[..n], child := c.child.(channel := c.child.channel[n..]))
  }

  function Captures(c: Course): (Course, Option<Report>) {
    if !c.busy then (c, None)
    else if |c.child.channel| > Room(c) then Asked(Took(c), OutputLimit)
    else (Took(c), None)
  }

  function Next(c: Course, e: Occurrence): (Course, Option<Report>) {
    match e
    case Launch(ready, timeoutMs, limit, failsAtOnce) =>
      if c.busy || !ready || timeoutMs < 1 || timeoutMs > 60000 || limit < 1 || limit > 1048576 then (c, None)
      else
        var started := Course(true, limit, Child(!failsAtOnce, 0, true, []), [], None, false);
        if failsAtOnce then Ends(started, StartFailed) else (started, None)
    case Writes(data) => (if c.busy then c.(child := c.child.(channel := c.child.channel + data)) else c, None)
    case Exits(code, normal) =>
      (if c.busy && c.child.alive then c.(child := c.child.(alive := false, code := code, normal := normal)) else c, None)
    case ReadyRead => Captures(c)
    case FailedToStart =>
      if c.busy && c.stop.None? then Ends(c.(child := c.child.(alive := false)), StartFailed) else (c, None)
    case FinishedSignal =>
      if !c.busy || c.child.alive then (c, None)
      else
        var (c1, report) := Captures(c);
        if report.Some? then (c1, report)
        else if c1.givenUp then (c1.(busy := false), Some(Released(c1.child)))
        else if c1.stop.Some? then Ends(c1, c1.stop.value)
        else Ends(c1, if c1.child.code == 0 && c1.child.normal then Success else Failed)
    case TimeoutFires => Asked(c, Timeout)
    case CancelAsked => Asked(c, Cancelled)
    case CleanupFires =>
      if !c.busy || c.stop.None? || c.givenUp then (c, None)
      else if c.child.alive then (c.(givenUp := true), Some(Said(c, TerminationUnconfirmed)))
      else Ends(c, c.stop.value)
  }

  function CourseOf(events: seq<Occurrence>): Course {
    if events == [] then NO_COURSE else Next(CourseOf(events[..|events| - 1]), events[|events| - 1]).0
  }

  /** The adapter's state and the course of events agree. */
  predicate Tells(s: Adapter, c: Course) {
    && (s.state.Idle? <==> !c.busy)
    && (s.state.Running? <==> c.busy && c.stop.None?)
    && (s.state.Stopping? <==> c.busy && c.stop.Some? && !c.givenUp)
    && (s.state.Stopping? ==> s.stoppingFor == c.stop.value)
    && (c.givenUp ==> c.stop.Some?)
    && (c.busy ==> s.process == Some(c.child) && s.limit == c.limit && s.read == c.taken &&
                   s.output == c.taken[..if |c.taken| < c.limit then |c.taken| else c.limit])
    && (!c.busy ==> s.process.None?)
  }

  /** What an event adds to the log. */
  predicate Adds(log: seq<seq<Report>>, starts: bool, report: Option<Report>, log': seq<seq<Report>>) {
    var log1 := if starts then log + [[]] else log;
    log' == if report.Some? then Emit(log1, report.value) else log1
  }

  predicate Starts(c: Course, e: Occurrence) {
    e.Launch? && !c.busy && e.ready && 1 <= e.timeoutMs <= 60000 && 1 <= e.limit <= 1048576
  }

  lemma StopTells(s: Adapter, c: Course, reason: Status)
    requires Tells(s, c) && !reason.TerminationUnconfirmed?
    ensures var t := StoppedFor(s, reason);
            Tells(t, Asked(c, reason).0) && Adds(s.log, false, Asked(c, reason).1, t.log)
  {
  }

  lemma TookTells(s: Adapter, c: Course)
    requires Tells(s, c) && c.busy
    ensures Tells(Captured(s), Took(c)) && Captured(s).log == s.log
  {
    KeptAppends(s.read, s.process.value.channel[..|s.process.value.channel|], s.limit);
  }

  lemma CaptureTells(s: Adapter, c: Course)
    requires Tells(s, c)
    ensures var t := AfterCapture(s);
            Tells(t, Captures(c).0) && Adds(s.log, false, Captures(c).1, t.log)
  {
    if c.busy {
      TookTells(s, c);
      hide Tells, Captured, Took;
      StopTells(Captured(s), Took(c), OutputLimit);
    }
  }

  lemma FinishTells(s: Adapter, c: Course, status: Status)
    requires Tells(s, c) && c.busy
    ensures var t := FinishedWith(s, status);
            && t.log == Emit(s.log, Said(c, status))
            && (!status.TerminationUnconfirmed? ==> Tells(t, c.(busy := false)))
            && (status.TerminationUnconfirmed? && c.stop.Some? ==> Tells(t, c.(givenUp := true)))
  {
  }

  lemma EndTells(s: Adapter, c: Course)
    requires Tells(s, c) && AdapterInv(s) && c.busy && !c.child.alive
    ensures var t := AfterFinished(s);
            Tells(t, Next(c, FinishedSignal).0) && Adds(s.log, false, Next(c, FinishedSignal).1, t.log)
  {
    CaptureTells(s, c);
    CaptureKeeps(s);
    var s1, c1, report := AfterCapture(s), Captures(c).0, Captures(c).1;
    hide AfterCapture, Captures, ReportInv, Kept;
    if report.None? && c1.busy {
      FinishTells(s1, c1, s1.stoppingFor);
      FinishTells(s1, c1, if s1.process.value.code == 0 && s1.process.value.normal then Success else Failed);
    }
  }

  lemma OneEventTells(s: Adapter, c: Course, e: Occurrence)
    requires Tells(s, c) && AdapterInv(s)
    ensures Tells(React(s, e), Next(c, e).0) && Adds(s.log, Starts(c, e), Next(c, e).1, React(s, e).log)
  {
    hide ReportInv, Kept, AfterCapture, Captures, AfterFinished, StoppedFor, Asked;
    match e
    case ReadyRead => CaptureTells(s, c);
    case FinishedSignal =>
      if c.busy && !c.child.alive { hide Next; EndTells(s, c); } else { NotFinished(s, c); }
    case TimeoutFires => StopTells(s, c, Timeout);
    case CancelAsked => StopTells(s, c, Cancelled);
    case _ =>
  }

  lemma NotFinished(s: Adapter, c: Course)
    requires Tells(s, c) && (!c.busy || c.child.alive)
    ensures AfterFinished(s) == s
  {
  }

  lemma {:induction false} CourseIsTrue(events: seq<Occurrence>)
    ensures Tells(Reacted(events), CourseOf(events))
  {
    hide React, Next, Tells, AdapterInv;
    if events != [] {
      var k := |events| - 1;
      CourseIsTrue(events[..k]);
      AdapterGuarantee(events[..k]);
      OneEventTells(Reacted(events[..k]), CourseOf(events[..k]), events[k]);
    } else {
      assert Tells(NO_ADAPTER, NO_COURSE) by { NothingHappened(); }
    }
  }

  lemma NothingHappened()
    ensures Tells(NO_ADAPTER, NO_COURSE)
  {
  }

  /**
    Over all events, whatever comes next: what is emitted is what the course of events
    calls for. A start that nothing stopped ends as a success exactly for a normal exit
    with 0; a stopped one with the first reason asked for, or as unconfirmed when its
    child outlives the grace period.
  */
  lemma EndsAsItHappened(events: seq<Occurrence>, next: Occurrence)
    ensures var c := CourseOf(events);
            Adds(Reacted(events).log, Starts(c, next), Next(c, next).1, Reacted(events + [next]).log)
  {
    hide React, Next, Tells, AdapterInv, Adds, Starts;
    CourseIsTrue(events);
    AdapterGuarantee(events);
    OneEventTells(Reacted(events), CourseOf(events), next);
    assert (events + [next])[..|events|] == events;
  }

  /** A reason to stop came from the event it stands for. */
  lemma {:induction false} StopWasAsked(events: seq<Occurrence>)
    ensures var c := CourseOf(events);
            c.stop.Some? ==>
              match c.stop.value
              case Cancelled => CancelAsked in events
              case Timeout => TimeoutFires in events
              case OutputLimit => |c.taken| > c.limit
              case _ => false
  {
    if events != [] {
      var k := |events| - 1;
      StopWasAsked(events[..k]);
      StopOfOne(CourseOf(events[..k]), events[k]);
      hide Next;
      assert events[k] in events && forall e :: e in events[..k] ==> e in events;
    }
  }

  lemma StopOfOne(c: Course, e: Occurrence)
    ensures var d := Next(c, e).0;
            d.stop.Some? ==>
              || (d.stop == c.stop && (|c.taken| > c.limit ==> |d.taken| > d.limit))
              || (d.stop == Some(Cancelled) && e.CancelAsked?)
              || (d.stop == Some(Timeout) && e.TimeoutFires?)
              || (d.stop == Some(OutputLimit) && |d.taken| > d.limit)
  {
  }
}
