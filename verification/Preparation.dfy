/**
  Preparation of one immutable revision of a Python project: lock, work marker,
  incomplete marker, build, validation and publication, with an exception or a
  kill possible before and after every file-system operation.

  The name of a revision is the digest of its inputs. A digest is injective, so
  an identity stands for the inputs themselves.
*/
module Preparation {
  import opened Wrappers

  type Inputs = string

  /** A file or directory that is written in two steps: it exists, then it is complete. */
  datatype Stored<T> = Absent | Torn | Whole(value: T)

  datatype Package = Package(extensionId: string, content: string)

  datatype Environment = Environment(extensionId: string, package: Package, launcher: bool)

  /** The receipt that an extension's environment is found by. */
  datatype Association = Association(extensionId: string, receiptOf: Inputs)

  datatype Revision = Revision(
    incompleteMarker: bool,
    package: Stored<Package>,
    environment: Stored<Environment>,
    association: Stored<Association>,
    metadata: Stored<Inputs>,
    others: set<string>)

  datatype WorkFile = Marker(id: Inputs, token: nat) | ReadyCandidate(token: nat)

  datatype Selection = Selects(id: Inputs) | Unreadable

  datatype Disk = Disk(
    lock: Stored<nat>,
    work: set<WorkFile>,
    incomplete: map<(Inputs, nat), Revision>,
    revisions: map<Inputs, Revision>,
    ready: Option<Selection>)

  const FRESH := Revision(false, Absent, Absent, Absent, Absent, {})

  /** What _validate_revision accepts without looking at the current inputs. */
  predicate Valid(revision: Revision, id: Inputs) {
    && !revision.incompleteMarker && revision.others == {}
    && revision.package.Whole? && revision.package.value.extensionId != ""
    && revision.environment.Whole? && revision.environment.value.launcher
    && revision.environment.value.extensionId == revision.package.value.extensionId
    && revision.environment.value.package == revision.package.value
    && revision.association == Whole(Association(revision.package.value.extensionId, id))
    && revision.metadata == Whole(id)
  }

  /** What one run meets: the inputs at each look, what the package tool builds, and whether it verifies it. */
  datatype World = World(
    token: nat,
    first: Inputs,
    second: Inputs,
    third: Inputs,
    package: Package,
    environment: Environment,
    verifies: bool)

  /** The inputs hold still and the package tool does its work. */
  predicate Sound(w: World) {
    && w.second == w.first && w.third == w.first && w.verifies
    && w.package.extensionId != "" && w.environment == Environment(w.package.extensionId, w.package, true)
  }

  /** How an operation ends; KeyboardInterrupt and the like are not caught where errors are. */
  datatype Ending = Completed | Raised(interrupt: bool) | Killed {
    predicate IsFailure() {
      !Completed?
    }

    function PropagateFailure(): Ending
      requires IsFailure()
    {
      this
    }

    /** Caught by `except (OSError, ProjectError)`. */
    predicate IsError() {
      Raised? && !interrupt
    }
  }

  /** What happens at a file-system operation. */
  datatype Fault = Fine | Throws(interrupt: bool, afterEffect: bool) | Kill

  /** A valid revision is determined by its package: nothing is missing, nothing is extra, nothing is another's. */
  lemma ValidExactly(revision: Revision, id: Inputs)
    ensures Valid(revision, id) <==>
              && revision.package.Whole?
              && var package := revision.package.value;
                 && package.extensionId != ""
                 && revision == Revision(false, Whole(package), Whole(Environment(package.extensionId, package, true)),
                                         Whole(Association(package.extensionId, id)), Whole(id), {})
  {
    if Valid(revision, id) {
      var package, environment := revision.package.value, revision.environment.value;
      assert environment == Environment(package.extensionId, package, true);
    }
  }

  // -------------------------------------------------------------- invariants

  /** A revision that is not complete has a marker in work/; a selected one is complete and was fully validated. */
  ghost predicate Durable(d: Disk, validated: set<Inputs>) {
    && (forall id :: id in d.revisions ==> Valid(d.revisions[id], id) || exists token :: Marker(id, token) in d.work)
    && (d.ready.Some? && d.ready.value.Selects? ==>
          var id := d.ready.value.id;
          id in d.revisions && Valid(d.revisions[id], id) && id in validated)
  }

  /** No run touches a revision, or a preserved attempt, that was there before it. */
  ghost predicate Kept(before: Disk, now: Disk) {
    && (forall id :: id in before.revisions ==> id in now.revisions && now.revisions[id] == before.revisions[id])
    && (forall name :: name in before.incomplete ==> name in now.incomplete && now.incomplete[name] == before.incomplete[name])
    && before.work <= now.work
  }

  /** A fresh preparation under way: all it has made is its own directory, its own marker and its own preserved attempt. */
  ghost predicate Attempting(before: Disk, now: Disk, id: Inputs, token: nat) {
    && id !in before.revisions && before.work == {}
    && now.lock == before.lock && now.ready == before.ready
    && now.work <= {Marker(id, token)}
    && now.revisions.Keys <= before.revisions.Keys + {id}
    && Kept(before, now)
    && (id in now.revisions ==> Marker(id, token) in now.work || Valid(now.revisions[id], id))
  }

  lemma KeptTwice(a: Disk, b: Disk, c: Disk)
    requires Kept(a, b) && Kept(b, c)
    ensures Kept(a, c)
  {
  }

  lemma AttemptIsDurable(before: Disk, now: Disk, id: Inputs, token: nat, validated: set<Inputs>)
    requires Durable(before, validated) && Attempting(before, now, id, token)
    ensures Durable(now, validated) && Kept(before, now) && now.lock == before.lock && now.ready == before.ready
  {
    forall other | other in now.revisions
      ensures Valid(now.revisions[other], other) || exists t :: Marker(other, t) in now.work
    {
      if other != id {
        assert other in before.revisions;
        assert forall t :: Marker(other, t) !in before.work;
      }
    }
  }

  lemma ValidatedGrows(d: Disk, v0: set<Inputs>, v1: set<Inputs>)
    requires Durable(d, v0) && v0 <= v1
    ensures Durable(d, v1)
  {
    hide Valid;
  }

  lemma SelectionKeeps(before: Disk, d: Disk, now: Disk)
    requires Kept(before, d) && now == d.(work := now.work, ready := now.ready) && d.work <= now.work
    ensures Kept(before, now)
  {
  }

  lemma PublicationIsDurable(d: Disk, id: Inputs, validated: set<Inputs>)
    requires Durable(d, validated) && id in d.revisions && Valid(d.revisions[id], id) && id in validated
    ensures Durable(d.(ready := Some(Selects(id))), validated)
  {
  }

  function WithRevision(d: Disk, id: Inputs, revision: Revision): Disk {
    d.(revisions := d.revisions[id := revision])
  }

  /** Work in the attempt's own directory keeps to it while its marker stands. */
  lemma OwnDirectory(before: Disk, d: Disk, id: Inputs, token: nat, revision: Revision)
    requires Attempting(before, d, id, token) && Marker(id, token) in d.work
    ensures Attempting(before, WithRevision(d, id, revision), id, token)
  {
  }

  /** The revision as the tool and this run leave it, incomplete marker removed. */
  function Built(w: World): Revision {
    Revision(false, Whole(w.package), Whole(w.environment), Whole(Association(w.package.extensionId, w.first)), Whole(w.first), {})
  }

  function Failed(revision: Revision): Revision {
    revision.(others := revision.others + {"failure.json"})
  }

  function WithoutFailure(revision: Revision): Revision {
    revision.(others := revision.others - {"failure.json"})
  }

  /** Only just made, or still marked as incomplete. */
  predicate Unfinished(revision: Revision) {
    revision == FRESH || revision.incompleteMarker
  }

  /** The inputs held still at every look, and the package tool verified what is selected. */
  predicate Confirmed(w: World, built: bool) {
    w.second == w.first && w.verifies && (built ==> w.third == w.first)
  }

  lemma SoundIsValid(w: World)
    ensures Sound(w) <==> Valid(Built(w), w.first) && Confirmed(w, true)
  {
    ValidExactly(Built(w), w.first);
  }

  /** What the run finds and meets lets it complete, if no operation fails. */
  predicate Succeeds(d: Disk, w: World) {
    d.ready != Some(Unreadable) && if w.first in d.revisions then Confirmed(w, false) else Sound(w)
  }

  /** The disk after a run that completed. */
  function Prepared(before: Disk, w: World): Disk {
    before.(
      ready := Some(Selects(w.first)),
      revisions := if w.first in before.revisions then before.revisions else before.revisions[w.first := Built(w)])
  }

  /** All a run can have added, whatever happened to it. */
  predicate OnlyOwn(before: Disk, now: Disk, w: World, name: nat) {
    && now.revisions.Keys <= before.revisions.Keys + {w.first}
    && now.incomplete.Keys <= before.incomplete.Keys + {(w.first, name)}
    && now.work <= before.work + {Marker(w.first, w.token), ReadyCandidate(w.token)}
  }

  /** The disk after a run that met no fault and could not complete. */
  predicate GivenUp(before: Disk, now: Disk, w: World, name: nat) {
    && now == before.(incomplete := now.incomplete)
    && if before.ready == Some(Unreadable) || w.first in before.revisions then now.incomplete == before.incomplete
       else (w.first, name) in now.incomplete && "failure.json" in now.incomplete[(w.first, name)].others
  }

  /** The marker may go once the revision is complete. */
  lemma MarkerRemoved(before: Disk, d: Disk, id: Inputs, token: nat)
    requires Attempting(before, d, id, token) && id in d.revisions && Valid(d.revisions[id], id)
    ensures var now := d.(work := d.work - {Marker(id, token)});
            Attempting(before, now, id, token) && now.work == {}
  {
    hide Valid;
  }

  class Preparer {
    var disk: Disk
    var faults: seq<Fault>
    /** Every identity whose revision has passed full validation, now or in an earlier run. */
    ghost var validated: set<Inputs>
    /** False from a kill to the next start: a killed run does nothing more. */
    ghost var running: bool

    constructor (disk: Disk)
      ensures this.disk == disk && faults == [] && validated == {} && running
    {
      this.disk := disk;
      faults := [];
      validated := {};
      running := true;
    }

    /** `raise ProjectError` unless the condition holds. */
    method Require(condition: bool) returns (e: Ending)
      ensures e == if condition then Completed else Raised(false)
    {
      e := if condition then Completed else Raised(false);
    }

    /** One atomic file-system operation. */
    method Apply(next: Disk) returns (e: Ending)
      requires running
      modifies `disk, `faults, `running
      ensures running == !e.Killed?
      ensures e.Completed? ==> disk == next
      ensures e.Raised? ==> disk == old(disk) || disk == next
      ensures e.Killed? ==> disk == old(disk)
      ensures old(faults) == [] ==> e.Completed? && faults == []
      ensures old(faults) != [] ==>
                && faults == old(faults)[1..]
                && match old(faults)[0] {
                     case Fine => e == Completed
                     case Throws(interrupt, afterEffect) => e == Raised(interrupt) && (afterEffect ==> disk == next) && (!afterEffect ==> disk == old(disk))
                     case Kill => e == Killed
                   }
    {
      var fault := if faults == [] then Fine else faults[0];
      faults := if faults == [] then [] else faults[1..];
      match fault
      case Fine =>
        disk := next;
        e := Completed;
      case Throws(interrupt, afterEffect) =>
        disk := if afterEffect then next else disk;
        e := Raised(interrupt);
      case Kill =>
        running := false;
        e := Killed;
    }

    // ------------------------------------------------------------------ lock

    method AcquireLock(token: nat) returns (e: Ending)
      requires running
      modifies `disk, `faults, `running
      ensures running == !e.Killed?
      ensures disk == old(disk).(lock := disk.lock)
      ensures !old(disk).lock.Absent? ==> e.IsError() && disk == old(disk)
      ensures e.Completed? ==> old(disk).lock.Absent? && disk.lock == Whole(token)
      ensures old(faults) == [] && old(disk).lock.Absent? ==> e.Completed? && faults == []
      ensures old(disk).lock.Absent? && |old(faults)| > 1 && old(faults)[0].Fine? && old(faults)[1].Throws? ==>
                (|old(faults)| == 2 || old(faults)[2].Fine? ==> e == Raised(old(faults)[1].interrupt) && disk.lock.Absent?)
      ensures e.Killed? ==> |old(faults)| > 0 && (old(faults)[0].Fine? ==> !disk.lock.Absent?)
    {
      e := Require(disk.lock.Absent?);
      if e.IsFailure() {
        return;
      }
      :- Apply(disk.(lock := Torn));
      e := Apply(disk.(lock := Whole(token)));
      if e.Raised? {
        var removal := Apply(disk.(lock := Absent));
        return if removal.IsError() || removal.Completed? then e else removal;
      }
    }

    method ReleaseLock(token: nat) returns (e: Ending)
      requires running
      modifies `disk, `faults, `running
      ensures running == !e.Killed?
      ensures disk == old(disk).(lock := disk.lock)
      ensures old(disk).lock != Whole(token) ==> e.IsError() && disk == old(disk)
      ensures e.Completed? ==> disk.lock.Absent?
      ensures e.Killed? ==> disk == old(disk)
      ensures old(faults) == [] && old(disk).lock == Whole(token) ==> e.Completed? && faults == []
    {
      e := Require(disk.lock == Whole(token));
      if e.IsFailure() {
        return;
      }
      e := Apply(disk.(lock := Absent));
    }

    // ------------------------------------------------------------ publication

    /** _publish_ready */
    method PublishReady(id: Inputs, token: nat) returns (e: Ending)
      requires id in disk.revisions && Valid(disk.revisions[id], id) && id in validated
      requires running
      modifies `disk, `faults, `running
      ensures running == !e.Killed?
      ensures Durable(old(disk), validated) ==> Durable(disk, validated)
      ensures disk == old(disk).(work := disk.work, ready := disk.ready) && old(disk).work <= disk.work
      ensures disk.ready == old(disk).ready || disk.ready == Some(Selects(id))
      ensures disk.work == old(disk).work || (disk.work == old(disk).work + {ReadyCandidate(token)} && disk.ready == old(disk).ready)
      ensures e.Completed? ==> disk.ready == Some(Selects(id)) && disk.work == old(disk).work
      ensures ReadyCandidate(token) !in old(disk).work && |old(faults)| > 0 && old(faults)[0].Fine? && !e.Completed? ==>
                ReadyCandidate(token) in disk.work || disk.ready == Some(Selects(id))
      ensures old(faults) == [] ==> faults == [] && (e.Completed? || e.IsError()) && (ReadyCandidate(token) !in old(disk).work ==> e.Completed?)
    {
      hide Valid;
      var candidate := ReadyCandidate(token);
      :- Require(candidate !in disk.work);
      ghost var before := disk;
      if Durable(disk, validated) { PublicationIsDurable(disk, id, validated); }
      :- Apply(disk.(work := disk.work + {candidate}));
      :- Apply(disk);
      e := Apply(disk.(work := disk.work - {candidate}, ready := Some(Selects(id))));
      assert before.work + {candidate} - {candidate} == before.work;
    }

    /** _validate_ready_selection */
    method ValidateReadySelection() returns (e: Ending)
      requires running
      modifies `disk, `faults, `running
      ensures running == !e.Killed?
      ensures disk == old(disk)
      ensures e.Completed? && disk.ready.Some? ==>
        disk.ready.value.Selects? && disk.ready.value.id in disk.revisions && Valid(disk.revisions[disk.ready.value.id], disk.ready.value.id)
      ensures old(faults) == [] ==>
        && faults == [] && (e.Completed? || e.IsError())
        && (Durable(disk, validated) ==> (e.Completed? <==> disk.ready != Some(Unreadable)))
    {
      e := Apply(disk);
      if e.IsFailure() {
        return;
      }
      if disk.ready.None? {
        return Completed;
      }
      :- Require(disk.ready.value.Selects?);
      var id := disk.ready.value.id;
      e := Require(id in disk.revisions && Valid(disk.revisions[id], id));
    }

    /** _validate_revision with the expected inputs and a look at the current ones. */
    method ValidateFully(id: Inputs, verifies: bool) returns (e: Ending)
      requires running
      modifies `disk, `faults, `validated, `running
      ensures running == !e.Killed?
      ensures disk == old(disk) && old(validated) <= validated
      ensures e.Completed? ==> id in disk.revisions && Valid(disk.revisions[id], id) && id in validated && verifies
      ensures old(faults) == [] ==>
        && faults == [] && (e.Completed? || e.IsError())
        && (e.Completed? <==> id in disk.revisions && Valid(disk.revisions[id], id) && verifies)
    {
      e := Require(id in disk.revisions && Valid(disk.revisions[id], id));
      if e.IsFailure() {
        return;
      }
      :- Apply(disk);
      :- Require(verifies);
      validated := validated + {id};
      e := Completed;
    }

    // ------------------------------------------------------------- two paths

    /** The revision is there already: it is validated and selected as it is. */
    method Reuse(w: World) returns (e: Ending)
      requires w.first in disk.revisions && Durable(disk, validated)
      requires running
      modifies `disk, `faults, `validated, `running
      ensures running == !e.Killed?
      ensures Durable(disk, validated) && old(validated) <= validated
      ensures Kept(old(disk), disk) && disk.revisions == old(disk).revisions && disk.lock == old(disk).lock
      ensures disk.incomplete == old(disk).incomplete
      ensures disk.ready == old(disk).ready || disk.ready == Some(Selects(w.first))
      ensures disk.ready != old(disk).ready || e.Completed? ==> Confirmed(w, false)
      ensures e.Completed? ==> disk.ready == Some(Selects(w.first)) && disk.work == old(disk).work
      ensures old(faults) == [] && old(disk).work == {} ==> faults == [] && !e.Killed? && disk.work == {} && (e.Completed? <==> Confirmed(w, false))
      ensures old(faults) == [] && old(disk).work == {} && !e.Completed? ==> e.IsError() && disk == old(disk)
      ensures disk.work <= old(disk).work + {ReadyCandidate(w.token)}
    {
      hide Valid;
      :- ValidateFully(w.first, w.verifies);
      :- Require(w.second == w.first);
      e := PublishReady(w.first, w.token);
    }

    /** One change to the attempt's own directory. */
    method Change(ghost before: Disk, id: Inputs, token: nat, revision: Revision) returns (e: Ending)
      requires Attempting(before, disk, id, token) && Marker(id, token) in disk.work && id in disk.revisions
      requires running
      modifies `disk, `faults, `running
      ensures running == !e.Killed?
      ensures Attempting(before, disk, id, token) && id in disk.revisions
      ensures disk == old(disk).(revisions := old(disk).revisions[id := disk.revisions[id]])
      ensures disk.revisions[id] == old(disk).revisions[id] || disk.revisions[id] == revision
      ensures e.Completed? ==> disk.revisions[id] == revision
      ensures old(faults) == [] ==> e.Completed? && faults == []
    {
      hide Valid;
      OwnDirectory(before, disk, id, token, revision);
      hide Attempting;
      e := Apply(WithRevision(disk, id, revision));
    }

    /** A file or directory of the attempt: first it is there, then it is complete. */
    method Write(ghost before: Disk, id: Inputs, token: nat, torn: Revision, whole: Revision) returns (e: Ending)
      requires Attempting(before, disk, id, token) && Marker(id, token) in disk.work && id in disk.revisions
      requires running
      modifies `disk, `faults, `running
      ensures running == !e.Killed?
      ensures Attempting(before, disk, id, token) && id in disk.revisions
      ensures disk == old(disk).(revisions := old(disk).revisions[id := disk.revisions[id]])
      ensures disk.revisions[id] == old(disk).revisions[id] || disk.revisions[id] == torn || disk.revisions[id] == whole
      ensures e.Completed? ==> disk.revisions[id] == whole
      ensures old(faults) == [] ==> e.Completed? && faults == []
    {
      hide Valid, Attempting;
      :- Change(before, id, token, torn);
      e := Change(before, id, token, whole);
    }

    /** Everything between the making of the directory and the removal of its incomplete marker. */
    method Build(ghost before: Disk, w: World) returns (e: Ending)
      requires Attempting(before, disk, w.first, w.token) && Marker(w.first, w.token) in disk.work
      requires w.first in disk.revisions && disk.revisions[w.first] == FRESH
      requires running
      modifies `disk, `faults, `running
      ensures running == !e.Killed?
      ensures Attempting(before, disk, w.first, w.token) && w.first in disk.revisions
      ensures disk == old(disk).(revisions := old(disk).revisions[w.first := disk.revisions[w.first]])
      ensures Unfinished(disk.revisions[w.first]) || (disk.revisions[w.first] == Built(w) && w.second == w.first)
      ensures e.Completed? ==> disk.revisions[w.first] == Built(w) && w.second == w.first
      ensures old(faults) == [] ==>
                faults == [] && (e.Completed? || e.IsError()) && (e.Completed? <==> w.second == w.first && w.package.extensionId != "")
    {
      var id := w.first;
      var r := FRESH;
      hide Valid, Attempting;
      :- Write(before, id, w.token, r.(incompleteMarker := true), r.(incompleteMarker := true));
      r := r.(incompleteMarker := true);
      :- Write(before, id, w.token, r.(package := Torn), r.(package := Whole(w.package)));
      r := r.(package := Whole(w.package));
      :- Write(before, id, w.token, r.(environment := Torn), r.(environment := Whole(w.environment)));
      r := r.(environment := Whole(w.environment));
      :- Require(w.package.extensionId != "");
      var association := Association(w.package.extensionId, id);
      :- Write(before, id, w.token, r.(association := Torn), r.(association := Whole(association)));
      r := r.(association := Whole(association));
      :- Write(before, id, w.token, r.(metadata := Torn), r.(metadata := Whole(id)));
      r := r.(metadata := Whole(id));
      :- Require(w.second == id);
      e := Change(before, id, w.token, r.(incompleteMarker := false));
    }

    /** The fresh path; `attempt` and `marker` are the variables that the exception handler finds. */
    method Fresh(w: World) returns (e: Ending, attempt: Option<Inputs>, marker: Option<WorkFile>)
      requires w.first !in disk.revisions && disk.work == {} && Durable(disk, validated)
      requires running
      modifies `disk, `faults, `validated, `running
      ensures running == !e.Killed?
      ensures old(validated) <= validated && Durable(disk, validated)
      ensures attempt.None? || Attempting(old(disk), disk, w.first, w.token)
      ensures attempt.Some? ==> attempt.value == w.first
      ensures marker.Some? ==> marker.value == Marker(w.first, w.token)
      ensures Kept(old(disk), disk) && disk.lock == old(disk).lock && disk.incomplete == old(disk).incomplete
      ensures disk.ready == old(disk).ready || (disk.ready == Some(Selects(w.first)) && attempt.None?)
      ensures disk.ready != old(disk).ready || e.Completed? ==> Confirmed(w, true)
      ensures e.Completed? ==> disk.ready == Some(Selects(w.first)) && disk.work == {} && attempt.None?
      ensures e.Completed? ==> disk.revisions == old(disk).revisions[w.first := Built(w)] && Sound(w)
      ensures disk.ready != old(disk).ready ==> disk.work == {}
      ensures disk.work <= {Marker(w.first, w.token), ReadyCandidate(w.token)}
      ensures disk.revisions.Keys <= old(disk).revisions.Keys + {w.first}
      ensures old(faults) == [] ==> faults == [] && (e.Completed? || e.IsError()) && (e.Completed? <==> Sound(w))
      ensures old(faults) == [] && e.Raised? ==>
        && attempt.Some? && marker.Some? && disk.work == {marker.value}
        && w.first in disk.revisions && disk.revisions.Keys == old(disk).revisions.Keys + {w.first}
    {
      SoundIsValid(w);
      assert Sound(w) ==> w.second == w.first && w.package.extensionId != "";
      hide Valid, Attempting, Kept, Durable, Sound;
      attempt, marker := None, None;
      ghost var before := disk;
      var id := w.first;
      marker := Some(Marker(id, w.token));
      e := WriteMarker(before, id, w.token);
      AttemptIsDurable(before, disk, id, w.token, validated);
      if e.IsFailure() {
        return;
      }
      OwnDirectory(before, disk, id, w.token, FRESH);
      e := Apply(WithRevision(disk, id, FRESH));
      AttemptIsDurable(before, disk, id, w.token, validated);
      if e.IsFailure() {
        return;
      }
      attempt := Some(id);
      e := Build(before, w);
      AttemptIsDurable(before, disk, id, w.token, validated);
      if e.IsFailure() {
        return;
      }
      e, attempt, marker := Finish(before, w);
    }

    /** Full validation of what was built, then the marker goes, then the revision is selected. */
    method Finish(ghost before: Disk, w: World) returns (e: Ending, attempt: Option<Inputs>, marker: Option<WorkFile>)
      requires Attempting(before, disk, w.first, w.token) && Durable(before, validated)
      requires w.first in disk.revisions && disk.revisions[w.first] == Built(w) && w.second == w.first
      requires running
      modifies `disk, `faults, `validated, `running
      ensures running == !e.Killed?
      ensures old(validated) <= validated && Durable(disk, validated)
      ensures attempt.None? || (attempt.value == w.first && Attempting(before, disk, w.first, w.token))
      ensures marker.Some? ==> marker.value == Marker(w.first, w.token)
      ensures Kept(before, disk) && disk.lock == before.lock && disk.incomplete == old(disk).incomplete
      ensures disk.revisions == old(disk).revisions
      ensures disk.ready == before.ready || (disk.ready == Some(Selects(w.first)) && attempt.None?)
      ensures disk.ready != before.ready || e.Completed? ==> Confirmed(w, true)
      ensures e.Completed? ==> disk.ready == Some(Selects(w.first)) && disk.work == {} && attempt.None? && Sound(w)
      ensures disk.ready != before.ready ==> disk.work == {}
      ensures disk.work <= old(disk).work + {ReadyCandidate(w.token)}
      ensures old(faults) == [] ==> faults == [] && (e.Completed? || e.IsError()) && (e.Completed? <==> Sound(w))
      ensures old(faults) == [] && e.Raised? ==> attempt.Some? && marker.Some? && disk == old(disk)
    {
      SoundIsValid(w);
      hide Valid, Attempting, Kept, Durable;
      var id := w.first;
      attempt, marker := Some(id), Some(Marker(id, w.token));
      e := ValidateFully(id, w.verifies);
      ValidatedGrows(before, old(validated), validated);
      AttemptIsDurable(before, disk, id, w.token, validated);
      if e.IsFailure() {
        return;
      }
      :- Require(w.third == id);
      MarkerRemoved(before, disk, id, w.token);
      e := Apply(disk.(work := disk.work - {Marker(id, w.token)}));
      AttemptIsDurable(before, disk, id, w.token, validated);
      if e.IsFailure() {
        return;
      }
      marker, attempt := None, None;
      ghost var unselected := disk;
      e := PublishReady(id, w.token);
      SelectionKeeps(before, unselected, disk);
    }

    method WriteMarker(ghost before: Disk, id: Inputs, token: nat) returns (e: Ending)
      requires before == disk && id !in disk.revisions && disk.work == {}
      requires running
      modifies `disk, `faults, `running
      ensures running == !e.Killed?
      ensures Attempting(before, disk, id, token) && disk == old(disk).(work := disk.work)
      ensures e.Completed? ==> disk.work == {Marker(id, token)}
      ensures old(faults) == [] ==> e.Completed? && faults == []
    {
      e := Apply(disk.(work := disk.work + {Marker(id, token)}));
      if e.IsFailure() {
        return;
      }
      e := Apply(disk);
    }

    // --------------------------------------------------------------- failures

    /** _preserve_failed_attempt */
    method PreserveFailedAttempt(ghost before: Disk, id: Inputs, token: nat, name: nat) returns (e: Ending, preserved: bool)
      requires Attempting(before, disk, id, token)
      requires running
      modifies `disk, `faults, `running
      ensures running == !e.Killed?
      ensures Attempting(before, disk, id, token)
      ensures id in old(disk).revisions ==>
        || (id in disk.revisions && disk.revisions[id] == old(disk).revisions[id])
        || ((id, name) in disk.incomplete && WithoutFailure(disk.incomplete[(id, name)]) == WithoutFailure(old(disk).revisions[id]))
      ensures preserved ==> e.Completed? && id !in disk.revisions && (id, name) in disk.incomplete &&
                            "failure.json" in disk.incomplete[(id, name)].others
      ensures disk == old(disk).(revisions := disk.revisions, incomplete := disk.incomplete)
      ensures disk.incomplete.Keys <= old(disk).incomplete.Keys + {(id, name)}
      ensures !e.IsError()
      ensures old(faults) == [] && id in old(disk).revisions && (id, name) !in old(disk).incomplete ==>
        && preserved && faults == []
        && disk == old(disk).(
             revisions := old(disk).revisions - {id},
             incomplete := old(disk).incomplete[(id, name) := Failed(old(disk).revisions[id])])
    {
      hide Valid;
      e, preserved := Completed, false;
      if id !in disk.revisions || (id, name) in disk.incomplete {
        return;
      }
      var moved := disk.revisions[id];
      e := Apply(disk.(revisions := disk.revisions - {id}, incomplete := disk.incomplete[(id, name) := moved]));
      if e.IsFailure() {
        e := if e.IsError() then Completed else e;
        return;
      }
      e := Apply(disk.(incomplete := disk.incomplete[(id, name) := moved.(others := moved.others + {"failure.json"})]));
      if e.IsFailure() {
        e := if e.IsError() then Completed else e;
        return;
      }
      preserved := true;
    }

    /** The `except BaseException` clause of prepare_project. */
    method HandleFailure(ghost before: Disk, w: World, name: nat, attempt: Option<Inputs>, marker: Option<WorkFile>)
      returns (e: Ending)
      requires attempt.Some? ==> attempt.value == w.first && Attempting(before, disk, w.first, w.token)
      requires marker.Some? ==> marker.value == Marker(w.first, w.token)
      requires running
      modifies `disk, `faults, `running
      ensures running == !e.Killed?
      ensures attempt.None? ==> e.Completed? && disk == old(disk)
      ensures !e.IsError()
      ensures attempt.Some? ==> Attempting(before, disk, w.first, w.token)
      ensures w.first in old(disk).revisions ==>
        || (w.first in disk.revisions && disk.revisions[w.first] == old(disk).revisions[w.first])
        || ((w.first, name) in disk.incomplete && WithoutFailure(disk.incomplete[(w.first, name)]) == WithoutFailure(old(disk).revisions[w.first]))
      ensures disk.incomplete.Keys <= old(disk).incomplete.Keys + {(w.first, name)}
      ensures old(faults) == [] && attempt.Some? && marker.Some? ==>
                (w.first in old(disk).revisions && (w.first, name) !in old(disk).incomplete ==>
                   && e.Completed? && faults == []
                   && disk == old(disk).(
                        work := old(disk).work - {marker.value},
                        revisions := old(disk).revisions - {w.first},
                        incomplete := old(disk).incomplete[(w.first, name) := Failed(old(disk).revisions[w.first])]))
    {
      if attempt.None? {
        return Completed;
      }
      var preserved;
      e, preserved := PreserveFailedAttempt(before, w.first, w.token, name);
      if e.IsFailure() {
        return;
      }
      if preserved && marker.Some? {
        e := Apply(disk.(work := disk.work - {marker.value}));
        e := if e.IsError() then Completed else e;
      }
    }

    // -------------------------------------------------------------------- run

    /** prepare_project, from the lock on. `name` is the random suffix of a preserved attempt. */
    method Prepare(w: World, name: nat) returns (e: Ending)
      requires Durable(disk, validated)
      requires running
      modifies `disk, `faults, `validated, `running
      ensures running == !e.Killed?
      ensures Durable(disk, validated) && old(validated) <= validated
      ensures Kept(old(disk), disk)
      ensures disk.ready == old(disk).ready || disk.ready == Some(Selects(w.first))
      ensures disk.ready != old(disk).ready || e.Completed? ==>
                w.first == w.second && w.verifies && (w.first in old(disk).revisions || w.first == w.third)
      ensures !old(disk).lock.Absent? ==> e.IsError() && disk == old(disk)
      ensures disk.ready != old(disk).ready ==> disk.work == {} || disk.revisions == old(disk).revisions
      ensures old(disk).work != {} || old(disk).ready == Some(Unreadable) ==> !e.Completed? && disk == old(disk).(lock := disk.lock)
      ensures disk.revisions.Keys <= old(disk).revisions.Keys + {w.first}
      ensures disk.incomplete.Keys <= old(disk).incomplete.Keys + {(w.first, name)}
      ensures disk.work <= old(disk).work + {Marker(w.first, w.token), ReadyCandidate(w.token)}
      ensures e.Killed? ==> disk == old(disk) || !disk.lock.Absent?
      ensures e.Completed? ==>
                var package := w.package;
                var built := Revision(false, Whole(package), Whole(Environment(package.extensionId, package, true)),
                                      Whole(Association(package.extensionId, w.first)), Whole(w.first), {});
                disk == old(disk).(
                  ready := Some(Selects(w.first)),
                  revisions := if w.first in old(disk).revisions then old(disk).revisions else old(disk).revisions[w.first := built])
      ensures old(faults) == [] && old(disk).lock.Absent? && old(disk).work == {} && (w.first, name) !in old(disk).incomplete ==>
                && disk.lock.Absent? && disk.work == {} && (e.Completed? || e.IsError())
                && (e.Completed? <==>
                      && old(disk).ready != Some(Unreadable)
                      && w.first == w.second && w.verifies
                      && (w.first in old(disk).revisions ||
                          (w.first == w.third && w.package.extensionId != "" &&
                           w.environment == Environment(w.package.extensionId, w.package, true))))
                && (e.Raised? ==>
                      && disk.ready == old(disk).ready && disk.revisions == old(disk).revisions
                      && if old(disk).ready == Some(Unreadable) || w.first in old(disk).revisions then disk.incomplete == old(disk).incomplete
                         else (w.first, name) in disk.incomplete && "failure.json" in disk.incomplete[(w.first, name)].others)
    {
      hide Valid;
      e := AcquireLock(w.token);
      if e.IsFailure() {
        return;
      }
      e := Guarded(w, name);
      if e.Killed? {
        return;
      }
      var release := ReleaseLock(w.token);
      if release.IsFailure() && !(release.IsError() && e.Raised?) {
        e := release;
      }
    }

    /** The body of the `try` and its `except`, with the lock held. */
    method Guarded(w: World, name: nat) returns (e: Ending)
      requires Durable(disk, validated)
      requires running
      modifies `disk, `faults, `validated, `running
      ensures running == !e.Killed?
      ensures Durable(disk, validated) && old(validated) <= validated
      ensures Kept(old(disk), disk) && disk.lock == old(disk).lock
      ensures disk.ready == old(disk).ready || disk.ready == Some(Selects(w.first))
      ensures disk.ready != old(disk).ready || e.Completed? ==> Confirmed(w, w.first !in old(disk).revisions)
      ensures disk.ready != old(disk).ready ==> disk.work == {} || disk.revisions == old(disk).revisions
      ensures old(disk).work != {} || old(disk).ready == Some(Unreadable) ==> !e.Completed? && disk == old(disk)
      ensures OnlyOwn(old(disk), disk, w, name)
      ensures e.Completed? ==> disk == Prepared(old(disk), w) && Succeeds(old(disk), w)
      ensures old(faults) == [] && old(disk).work == {} && (w.first, name) !in old(disk).incomplete ==>
                && faults == [] && (e.Completed? || e.IsError())
                && (e.Completed? <==> Succeeds(old(disk), w))
                && (e.Raised? ==> GivenUp(old(disk), disk, w, name))
    {
      hide Valid;
      ghost var before := disk;
      :- Require(disk.work == {});
      :- ValidateReadySelection();
      :- Apply(disk);
      if w.first in disk.revisions {
        e := Reuse(w);
        return;
      }
      var attempt, marker;
      e, attempt, marker := Fresh(w);
      if e.Raised? {
        var handling := HandleFailure(before, w, name, attempt, marker);
        if attempt.Some? { AttemptIsDurable(before, disk, w.first, w.token, validated); }
        if handling.IsFailure() {
          e := handling;
        }
      }
    }

    /** Any number of runs, each with its own faults; a person may remove a stale lock between them. */
    method PrepareRepeatedly(runs: seq<(World, nat, seq<Fault>, bool)>) returns (endings: seq<Ending>)
      requires Durable(disk, validated)
      modifies this
      ensures Durable(disk, validated) && Kept(old(disk), disk) && |endings| == |runs|
      ensures disk.ready == old(disk).ready || exists i :: 0 <= i < |runs| && disk.ready == Some(Selects(runs[i].0.first))
      ensures forall i :: 0 <= i < |runs| && endings[i].Completed? ==>
                exists k :: i <= k < |runs| && disk.ready == Some(Selects(runs[k].0.first))
      ensures Undisturbed(old(disk), runs) ==> forall i :: 0 <= i < |runs| ==> endings[i].Completed?
      ensures !old(disk).lock.Absent? && (forall i :: 0 <= i < |runs| ==> !runs[i].3) ==>
                disk == old(disk) && forall i :: 0 <= i < |runs| ==> endings[i].IsError()
    {
      hide Valid, Durable, Kept;
      NothingLost(disk);
      endings := [];
      ghost var first := disk;
      for i := 0 to |runs|
        invariant Durable(disk, validated) && Kept(old(disk), disk) && |endings| == i
        invariant disk.ready == old(disk).ready || exists k :: 0 <= k < i && disk.ready == Some(Selects(runs[k].0.first))
        invariant forall j :: 0 <= j < i && endings[j].Completed? ==>
                    exists k :: j <= k < i && disk.ready == Some(Selects(runs[k].0.first))
        invariant Undisturbed(first, runs) ==>
                    && (forall j :: 0 <= j < i ==> endings[j].Completed?)
                    && (disk.lock.Absent? || (i == 0 && disk == first)) && disk.work == {} && disk.incomplete == first.incomplete && disk.ready != Some(Unreadable)
        invariant !first.lock.Absent? && (forall j :: 0 <= j < |runs| ==> !runs[j].3) ==>
                    disk == first && forall j :: 0 <= j < i ==> endings[j].IsError()
      {
        var (w, name, trouble, unlocked) := runs[i];
        if unlocked {
          LockIsIrrelevant(old(disk), disk, validated);
          disk := disk.(lock := Absent);
        }
        faults, running := trouble, true;
        ghost var before := disk;
        assert Undisturbed(first, runs) ==> Sound(w) && trouble == [] && disk.lock.Absent? && (w.first, name) !in disk.incomplete;
        var e := Prepare(w, name);
        endings := endings + [e];
        KeptTwice(old(disk), before, disk);
      }
    }
  }

  /** Nothing is left over, no operation fails, the inputs hold still and no preserved attempt has the name of a new one. */
  predicate Undisturbed(d: Disk, runs: seq<(World, nat, seq<Fault>, bool)>) {
    && (d.lock.Absent? || (runs != [] && runs[0].3)) && d.work == {} && d.ready != Some(Unreadable)
    && forall i :: 0 <= i < |runs| ==>
         Sound(runs[i].0) && runs[i].2 == [] && (runs[i].0.first, runs[i].1) !in d.incomplete
  }

  lemma NothingLost(d: Disk)
    ensures Kept(d, d)
  {
  }

  lemma LockIsIrrelevant(before: Disk, d: Disk, validated: set<Inputs>)
    requires Durable(d, validated) && Kept(before, d)
    ensures Durable(d.(lock := Absent), validated) && Kept(before, d.(lock := Absent))
  {
  }
}
