/**
  When a success of the job supervisor can come without all of its output. A job
  that holds the commit token is never stopped for what it prints, so the answer
  depends on whether a start can be given the token at all.
*/
module CommittedOutput {
  import opened ProcessOutput
  import opened TreeSupervision
  import opened Wrappers

  const READY := "ARTESTDEV_COMMIT_READY\n"

  /** The shortest announcement leaves the room that the handshake asks for. */
  predicate Room(limit: nat) {
    |READY| + Min(COMMIT_ROOM, limit / 2) <= limit
  }

  predicate Grantable(commitProtocol: bool, limit: nat) {
    commitProtocol && Room(limit)
  }

  /** A start that ended as a success with less than what was read. */
  predicate Truncated(signals: seq<Signal>) {
    |signals| == 1 && signals[0].Completed? && signals[0].status.Success? && signals[0].output != signals[0].read
  }

  /** In this run the start after `before` ends in a truncated success. */
  ghost predicate EndsTruncated(before: seq<Event>, start: Event, later: seq<Event>) {
    var log, k := After(before + [start] + later).log, |After(before).log|;
    k < |log| && Truncated(log[k])
  }

  lemma AfterOneMore(events: seq<Event>, e: Event)
    ensures Clock(events + [e]) == Clock(events) + e.elapsed
    ensures After(events + [e]) == Handle(After(events), e.what, Clock(events) + e.elapsed)
  {
    hide Handle;
    assert (events + [e])[..|events|] == events;
  }

  // ------------------------------------------------------- the token needs room

  /** Entry k is that of a start with these arguments, and only a start that can be given the token had it. */
  ghost predicate Belongs(s: Tree, k: nat, commitProtocol: bool, limit: nat) {
    && k < |s.log|
    && (k == |s.log| - 1 && s.native.Some? ==>
          s.limit == limit && s.commitProtocol == commitProtocol && (s.committing ==> Grantable(commitProtocol, limit)))
    && (forall c :: c in s.log[k] && c.Completed? && c.committed ==> Grantable(commitProtocol, limit))
  }

  /** What a piece of an event leaves of a start's arguments. */
  predicate SameStart(s: Tree, t: Tree) {
    t.limit == s.limit && t.commitProtocol == s.commitProtocol && t.log == s.log && t.native.Some? == s.native.Some?
  }

  lemma ReadSameStart(s: Tree, count: nat, now: nat)
    requires s.native.Some? && count <= |s.native.value.pipe|
    ensures var t := AfterRead(s, count, now); SameStart(s, t) && t.committing == s.committing
  {
    var s1 := Taken(s, count);
    assert SameStart(s, s1) && s1.committing == s.committing;
    StopOnlyStops(s1, OutputLimit, now);
    assert AfterRead(s, count, now) == if |s.output| + count > s.limit then AfterStop(s1, OutputLimit, now) else s1;
    hide Taken, AfterStop, AfterRead;
  }

  lemma {:induction false} DrainSameStart(s: Tree, pieces: seq<nat>, turns: nat, now: nat)
    requires s.native.Some?
    ensures var t := AfterDrain(s, pieces, turns, now); SameStart(s, t) && t.committing == s.committing
    decreases |pieces|
  {
    hide AfterRead;
    var count := ReadSize(s, pieces);
    if turns != READS_PER_TICK && count > 0 {
      ReadSameStart(s, count, now);
      DrainSameStart(AfterRead(s, count, now), pieces[1..], turns + 1, now);
    }
  }

  lemma HandshakeSameStart(s: Tree, known: bool, tokenWritten: bool, now: nat)
    requires s.native.Some?
    ensures var t := AfterHandshake(s, known, tokenWritten, now);
            SameStart(s, t) && (t.committing && !s.committing ==> Grantable(s.commitProtocol, s.limit))
  {
  }

  /** A signal that is emitted carries the token's state of its own start. */
  lemma EmittedBelongs(s: Tree, t: Tree, signal: Signal, k: nat, commitProtocol: bool, limit: nat)
    requires Belongs(s, k, commitProtocol, limit) && s.native.Some?
    requires t.log == Emit(s.log, signal) && (signal.Completed? ==> signal.committed == s.committing)
    requires t.native.Some? ==> t.limit == s.limit && t.commitProtocol == s.commitProtocol && t.committing == s.committing
    ensures Belongs(t, k, commitProtocol, limit)
  {
  }

  lemma StillBelongs(s: Tree, t: Tree, k: nat, commitProtocol: bool, limit: nat)
    requires Belongs(s, k, commitProtocol, limit) && s.native.Some? && SameStart(s, t)
    requires t.committing ==> s.committing || Grantable(s.commitProtocol, s.limit)
    ensures Belongs(t, k, commitProtocol, limit)
  {
    hide Grantable;
  }

  lemma EndBelongs(s: Tree, k: nat, commitProtocol: bool, limit: nat)
    requires Belongs(s, k, commitProtocol, limit) && s.native.Some? && s.native.value.rootExit.Some?
    ensures Belongs(AfterEnd(s), k, commitProtocol, limit)
  {
    hide Belongs, Emit, Over;
    var code := s.native.value.rootExit.value;
    var s1 := s.(exitCode := code, status := if s.stopping then s.status else if code == 0 then Success else Failed);
    EmittedBelongs(s, AfterEnd(s), if s.reported then Settled(s.native.value) else CompletionOf(s1), k, commitProtocol, limit);
  }

  lemma WatchSameStart(s: Tree, onlyTelemetry: bool, now: nat)
    requires s.native.Some?
    ensures var t := AfterWatch(s, onlyTelemetry, now); SameStart(s, t) && t.committing == s.committing
  {
  }

  lemma ReportBelongs(s: Tree, onlyTelemetry: bool, now: nat, k: nat, commitProtocol: bool, limit: nat)
    requires Belongs(s, k, commitProtocol, limit) && s.native.Some?
    ensures Belongs(AfterReport(AfterWatch(s, onlyTelemetry, now), now), k, commitProtocol, limit)
  {
    hide Belongs, AfterWatch;
    WatchSameStart(s, onlyTelemetry, now);
    var w := AfterWatch(s, onlyTelemetry, now);
    StillBelongs(s, w, k, commitProtocol, limit);
    if AfterReport(w, now) != w {
      EmittedBelongs(w, AfterReport(w, now), CompletionOf(w.(reported := true, status := TerminationUnconfirmed)), k, commitProtocol, limit);
    }
  }

  lemma TickBelongs(s: Tree, pieces: seq<nat>, known: bool, onlyTelemetry: bool, tokenWritten: bool, now: nat,
                    k: nat, commitProtocol: bool, limit: nat)
    requires Belongs(s, k, commitProtocol, limit)
    ensures Belongs(AfterTick(s, pieces, known, onlyTelemetry, tokenWritten, now), k, commitProtocol, limit)
  {
    if s.native.Some? && s.polling {
      hide AfterDrain, AfterHandshake, Grantable;
      DrainSameStart(s, pieces, 0, now);
      var s1 := AfterDrain(s, pieces, 0, now);
      HandshakeSameStart(s1, known, tokenWritten, now);
      var s2 := AfterHandshake(s1, known, tokenWritten, now);
      hide AfterEnd, AfterWatch, AfterReport, Belongs;
      StillBelongs(s, s2, k, commitProtocol, limit);
      if known && Over(s2.native.value) {
        if s2.native.value.pipe == [] { EndBelongs(s2, k, commitProtocol, limit); }
      } else {
        ReportBelongs(s2, onlyTelemetry, now, k, commitProtocol, limit);
      }
    }
  }

  lemma HandleBelongs(s: Tree, what: What, now: nat, k: nat, commitProtocol: bool, limit: nat)
    requires Belongs(s, k, commitProtocol, limit)
    ensures Belongs(Handle(s, what, now), k, commitProtocol, limit)
  {
    hide Grantable;
    match what
    case Ticking(pieces, known, onlyTelemetry, tokenWritten) =>
      TickBelongs(s, pieces, known, onlyTelemetry, tokenWritten, now, k, commitProtocol, limit);
    case FailingLaunch =>
      if s.native.Some? && !s.polling {
        EmittedBelongs(s, AfterFailedLaunch(s), CompletionOf(s), k, commitProtocol, limit);
      }
    case _ =>
  }

  lemma StartBelongs(s: Tree, what: What, now: nat)
    requires what.Starting? && Acceptable(s, what.ready, what.timeoutMs, what.limit)
    ensures Belongs(Handle(s, what, now), |s.log|, what.commitProtocol, what.limit)
  {
  }

  lemma {:induction false} RunBelongs(before: seq<Event>, start: Event, later: seq<Event>)
    requires start.what.Starting? && Acceptable(After(before), start.what.ready, start.what.timeoutMs, start.what.limit)
    ensures Belongs(After(before + [start] + later), |After(before).log|, start.what.commitProtocol, start.what.limit)
    decreases |later|
  {
    hide Handle, After, Belongs;
    if later == [] {
      AfterOneMore(before, start);
      assert before + [start] + later == before + [start];
      StartBelongs(After(before), start.what, Clock(before) + start.elapsed);
    } else {
      var k := |later| - 1;
      RunBelongs(before, start, later[..k]);
      assert before + [start] + later == (before + [start] + later[..k]) + [later[k]];
      AfterOneMore(before + [start] + later[..k], later[k]);
      HandleBelongs(After(before + [start] + later[..k]), later[k].what,
                    Clock(before + [start] + later[..k]) + later[k].elapsed,
                    |After(before).log|, start.what.commitProtocol, start.what.limit);
    }
  }

  // ----------------------------------------------- a start that has room gets it

  /** Events that follow each other at once. */
  function Instantly(whats: seq<What>): seq<Event> {
    seq(|whats|, i requires 0 <= i < |whats| => Event(0, whats[i]))
  }

  function Play(s: Tree, now: nat, whats: seq<What>): Tree
    decreases |whats|
  {
    if whats == [] then s else Play(Handle(s, whats[0], now), now, whats[1..])
  }

  lemma {:induction false} PlayIsARun(events: seq<Event>, whats: seq<What>)
    ensures After(events + Instantly(whats)) == Play(After(events), Clock(events), whats)
    decreases |whats|
  {
    hide Handle, After, Clock;
    if whats == [] {
      assert events + Instantly(whats) == events;
    } else {
      var e := Event(0, whats[0]);
      AfterOneMore(events, e);
      PlayIsARun(events + [e], whats[1..]);
      assert events + Instantly(whats) == events + [e] + Instantly(whats[1..]);
    }
  }

  lemma {:induction false} PlayOn(s: Tree, now: nat, first: seq<What>, more: seq<What>)
    ensures Play(s, now, first + more) == Play(Play(s, now, first), now, more)
    decreases |first|
  {
    hide Handle;
    if first == [] {
      assert first + more == more;
    } else {
      assert (first + more)[1..] == first[1..] + more;
      PlayOn(Handle(s, first[0], now), now, first[1..], more);
    }
  }

  /** A committed job that has ended, with output still to be read. */
  ghost predicate Ending(s: Tree, all: Bytes) {
    && Inv(s) && s.native.Some? && s.polling && s.committing && !s.reported
    && s.native.value.active == 0 && s.native.value.rootExit == Some(0) && s.read + s.native.value.pipe == all
  }

  function Ended(limit: nat, all: Bytes): Signal {
    Completed(Success, 0, Kept(all, limit), limit, all, true, true, Job(0, Some(0), []))
  }

  const QUICK_TICK := Ticking([CHUNK], true, false, true)

  /** A tick that reads one piece: the next of the output, or the end. */
  lemma OnePiece(s: Tree, now: nat, all: Bytes)
    requires Ending(s, all)
    ensures var t, pipe := Handle(s, QUICK_TICK, now), s.native.value.pipe;
            if |pipe| <= CHUNK then t.log == Emit(s.log, Ended(s.limit, all))
            else Ending(t, all) && t.limit == s.limit && t.log == s.log && |t.native.value.pipe| < |pipe|
  {
    var pipe := s.native.value.pipe;
    var count := Min(CHUNK, |pipe|);
    var s1 := AfterDrain(s, [CHUNK], 0, now);
    hide Inv, Kept, AfterRead;
    if count > 0 {
      ReadKeeps(s, count, now);
      ReadSameStart(s, count, now);
      var r := AfterRead(s, count, now);
      assert [CHUNK][1..] == [];
      assert AfterDrain(r, [], 1, now) == r;
      assert s1 == r;
    }
    hide AfterDrain;
    assert AfterHandshake(s1, true, true, now) == s1;
    if |pipe| <= CHUNK {
      assert s1.native == Some(Job(0, Some(0), []));
      EndsWell(s1, all);
    }
  }

  lemma EndsWell(s: Tree, all: Bytes)
    requires Ending(s, all) && s.native.value.pipe == []
    ensures AfterEnd(s).log == Emit(s.log, Ended(s.limit, all))
  {
    hide LogInv, Kept;
    assert s.read == all;
  }

  lemma {:induction false} DrainsOut(s: Tree, now: nat, all: Bytes) returns (ticks: seq<What>)
    requires Ending(s, all)
    ensures Play(s, now, ticks).log == Emit(s.log, Ended(s.limit, all))
    decreases |s.native.value.pipe|
  {
    hide Handle, Inv;
    OnePiece(s, now, all);
    var t := Handle(s, QUICK_TICK, now);
    if |s.native.value.pipe| <= CHUNK {
      ticks := [QUICK_TICK];
      assert ticks[1..] == [];
    } else {
      var rest := DrainsOut(t, now, all);
      ticks := [QUICK_TICK] + rest;
      assert ticks[1..] == rest;
    }
  }

  /** The announcement is read and the token goes out; then the root prints more, and everything ends. */
  const ANNOUNCED := [Happening(Job(1, None, READY)), Ticking([CHUNK], true, false, true)]

  lemma TokenGoesOut(s: Tree, now: nat)
    requires Inv(s) && s.native == Some(Launched(true)) && s.polling && !s.stopping && !s.reported && !s.committing
    requires s.output == s.read == [] && s.commitProtocol && Room(s.limit) && now < s.startedAt + s.timeoutMs
    ensures var t := Play(s, now, ANNOUNCED);
            && Inv(t) && t.native == Some(Job(1, None, [])) && t.polling && t.committing && !t.reported
            && t.limit == s.limit && t.log == s.log && t.read == READY
  {
    var s1 := Handle(s, ANNOUNCED[0], now);
    HandleKeeps(s, ANNOUNCED[0], now);
    assert s1 == s.(native := Some(Job(1, None, READY)));
    hide Inv;
    Announced(s1, now);
    var t := Handle(s1, ANNOUNCED[1], now);
    assert ANNOUNCED[1..] == [ANNOUNCED[1]] && [ANNOUNCED[1]][1..] == [];
    hide Handle;
    assert Play(t, now, []) == t;
    assert Play(s1, now, [ANNOUNCED[1]]) == t;
  }

  lemma Announced(s: Tree, now: nat)
    requires Inv(s) && s.native == Some(Job(1, None, READY)) && s.polling && !s.stopping && !s.reported && !s.committing
    requires s.output == s.read == [] && s.commitProtocol && Room(s.limit) && now < s.startedAt + s.timeoutMs
    ensures var t := Handle(s, ANNOUNCED[1], now);
            && Inv(t) && t.native == Some(Job(1, None, [])) && t.polling && t.committing && !t.reported
            && t.limit == s.limit && t.log == s.log && t.read == READY
  {
    HandleKeeps(s, ANNOUNCED[1], now);
    var r := AfterRead(s, |READY|, now);
    assert [] + READY == READY && READY[..|READY|] == READY && READY[|READY|..] == [];
    assert r == s.(native := Some(Job(1, None, [])), output := READY, read := READY);
    assert [CHUNK][1..] == [] && AfterDrain(r, [], 1, now) == r;
    assert AfterDrain(s, [CHUNK], 0, now) == r;
    hide Inv, AfterDrain, AfterRead;
    assert CommitReady(READY);
  }

  /**
    Whatever a job prints after its announcement: a start that can be given the token
    has a run in which it is, and which ends as a success with the beginning of it.
  */
  lemma CommittedRun(before: seq<Event>, ready: bool, timeoutMs: nat, limit: nat, tail: Bytes) returns (start: Event, later: seq<Event>)
    requires Acceptable(After(before), ready, timeoutMs, limit) && Room(limit)
    ensures start == Event(0, Starting(ready, timeoutMs, limit, true, true))
    ensures After(before + [start] + later).log == After(before).log + [[Ended(limit, READY + tail)]]
  {
    hide Kept, Room, Inv;
    start := Event(0, Starting(ready, timeoutMs, limit, true, true));
    var events, now := before + [start], Clock(before);
    AfterOneMore(before, start);
    TreeGuarantee(events);
    var s := After(events);
    assert s == AfterStart(After(before), ready, timeoutMs, limit, true, true, now);
    hide After, Clock, Acceptable;
    TokenGoesOut(s, now);
    hide Handle;
    var token := Play(s, now, ANNOUNCED);
    var more := Happening(Job(0, Some(0), tail));
    var printed := Prints(token, now, tail);
    var ticks := DrainsOut(printed, now, READY + tail);
    var whats := ANNOUNCED + ([more] + ticks);
    PlayOn(s, now, ANNOUNCED, [more] + ticks);
    assert ([more] + ticks)[1..] == ticks;
    assert Play(token, now, [more] + ticks) == Play(printed, now, ticks);
    PlayIsARun(events, whats);
    later := Instantly(whats);
    FirstOfEntry(After(before).log, Ended(limit, READY + tail));
  }

  lemma FirstOfEntry(log: seq<seq<Signal>>, signal: Signal)
    ensures Emit(log + [[]], signal) == log + [[signal]]
  {
    assert (log + [[]])[..|log|] == log && [] + [signal] == [signal];
  }

  /** The root prints its tail, and it and everything it started exit. */
  lemma Prints(s: Tree, now: nat, tail: Bytes) returns (t: Tree)
    requires Inv(s) && s.native == Some(Job(1, None, [])) && s.polling && s.committing && !s.reported
    ensures t == Handle(s, Happening(Job(0, Some(0), tail)), now)
    ensures Ending(t, s.read + tail) && t.limit == s.limit && t.log == s.log
  {
    t := Handle(s, Happening(Job(0, Some(0), tail)), now);
    HandleKeeps(s, Happening(Job(0, Some(0), tail)), now);
    hide Inv;
  }

  // ---------------------------------------------------------- the exact condition

  /** Some run of a start with these arguments, after any others, ends in a truncated success. */
  ghost predicate CanTruncate(before: seq<Event>, ready: bool, timeoutMs: nat, limit: nat, commitProtocol: bool) {
    exists elapsed: nat, launched: bool, later: seq<Event> ::
      EndsTruncated(before, Event(elapsed, Starting(ready, timeoutMs, limit, commitProtocol, launched)), later)
  }

  /** A start can end in a truncated success if and only if it asks for the commit protocol and its limit is 45 or more. */
  lemma TruncatedExactly(before: seq<Event>, ready: bool, timeoutMs: nat, limit: nat, commitProtocol: bool)
    requires Acceptable(After(before), ready, timeoutMs, limit)
    ensures CanTruncate(before, ready, timeoutMs, limit, commitProtocol) <==> commitProtocol && limit >= 45
  {
    assert Room(limit) <==> limit >= 45;
    if commitProtocol && Room(limit) {
      var tail := seq(limit, _ => 'x');
      var start, later := CommittedRun(before, ready, timeoutMs, limit, tail);
      hide After, Acceptable;
      assert Truncated([Ended(limit, READY + tail)]);
      assert EndsTruncated(before, start, later);
    }
    hide After, Acceptable, Room;
    forall elapsed: nat, launched: bool, later: seq<Event>
      | EndsTruncated(before, Event(elapsed, Starting(ready, timeoutMs, limit, commitProtocol, launched)), later)
      ensures Grantable(commitProtocol, limit)
    {
      TokenWasOut(before, Event(elapsed, Starting(ready, timeoutMs, limit, commitProtocol, launched)), later);
    }
  }

  lemma TokenWasOut(before: seq<Event>, start: Event, later: seq<Event>)
    requires start.what.Starting? && Acceptable(After(before), start.what.ready, start.what.timeoutMs, start.what.limit)
    requires EndsTruncated(before, start, later)
    ensures Grantable(start.what.commitProtocol, start.what.limit)
  {
    hide After, Acceptable, Grantable, Kept, Inv;
    TreeGuarantee(before + [start] + later);
    RunBelongs(before, start, later);
  }
}
