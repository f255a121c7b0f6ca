/**
  Publication of a native build: a candidate tree becomes the current output by
  directory renames under a phase journal, and recover finishes or undoes the
  publication after the process was killed anywhere.

  A tree is known by its ownership record, which carries the unique revision of
  the build that made it; `intact` says that its files still match that record.
*/
module NativePublication {
  import opened CrashModel
  import opened Wrappers

  datatype Owner = Owner(revision: nat, inputs: string)

  datatype Output = Output(owner: Owner, intact: bool)

  datatype Phase =
    | Building
    | Staged
    | Ready
    | BackedUp
    | Promoted
    | RollingBack
    | RolledBack
    | RetiringBackup
    | CleanedUp

  datatype Journal = Journal(
    phase: Phase,
    revision: nat,
    previous: bool,
    candidateOwner: Option<Owner>,
    previousOwner: Option<Owner>,
    assembledInWork: bool,
    retention: bool)

  /** The trees below the work directory of the journal's revision. */
  datatype Payload = Payload(
    assembled: Option<Output>,
    retiredBackup: Option<Output>,
    retiredCandidate: Option<Output>,
    foreign: set<string>)

  /** The work directory: its payload and, once sealed, the inventory recorded in scratch.json. */
  datatype Work = Work(payload: Payload, scratch: Option<Payload>)

  datatype Disk = Disk(
    journal: Option<Journal>,
    current: Option<Output>,
    candidate: Option<Output>,
    backup: Option<Output>,
    work: Option<Work>)

  const EMPTY := Payload(None, None, None, {})

  function PayloadOf(d: Disk): Payload {
    if d.work.Some? then d.work.value.payload else EMPTY
  }

  /** The work directory with another payload; scratch.json stays as it is. */
  function WithPayload(d: Disk, payload: Payload): Disk
    requires d.work.Some?
  {
    d.(work := Some(d.work.value.(payload := payload)))
  }

  /** `owned` succeeds and returns this record. */
  predicate Owns(tree: Option<Output>, owner: Option<Owner>) {
    tree.Some? && owner.Some? && tree.value.intact && tree.value.owner == owner.value
  }

  predicate OwnsIfThere(tree: Option<Output>, owner: Option<Owner>) {
    tree.Some? ==> Owns(tree, owner)
  }

  // ------------------------------------------------------------ topology checks

  predicate Identified(j: Journal) {
    && j.candidateOwner.Some? && j.candidateOwner.value.revision == j.revision
    && (j.previous ==> j.previousOwner.Some?)
  }

  predicate StagedTopology(d: Disk, j: Journal) {
    && j.assembledInWork
    && d.backup.None? && d.current.Some? == j.previous
    && d.candidate.Some? != PayloadOf(d).assembled.Some?
    && OwnsIfThere(d.current, j.previousOwner)
  }

  /** The candidate was never promoted. */
  predicate UnpromotedTopology(d: Disk, j: Journal) {
    && d.candidate.Some?
    && ((d.current.Some? == j.previous && d.backup.None?) || (j.previous && d.current.None? && d.backup.Some?))
    && Owns(d.candidate, j.candidateOwner)
    && OwnsIfThere(d.current, j.previousOwner) && OwnsIfThere(d.backup, j.previousOwner)
    && PayloadOf(d).retiredCandidate.None? && PayloadOf(d).retiredBackup.None?
  }

  /** The candidate was promoted but the journal does not say so yet. */
  predicate JustPromotedTopology(d: Disk, j: Journal) {
    && j.phase.BackedUp? && d.current.Some? && d.candidate.None? && d.backup.Some? == j.previous
    && Owns(d.current, j.candidateOwner) && OwnsIfThere(d.backup, j.previousOwner)
  }

  predicate RollbackTopology(d: Disk, j: Journal) {
    && PayloadOf(d).retiredBackup.None?
    && (if j.previous then d.current.Some? != d.backup.Some? else d.current.None? && d.backup.None?)
    && d.candidate.Some? != PayloadOf(d).retiredCandidate.Some?
    && OwnsIfThere(d.current, j.previousOwner) && OwnsIfThere(d.backup, j.previousOwner)
    && Owns(if d.candidate.Some? then d.candidate else PayloadOf(d).retiredCandidate, j.candidateOwner)
  }

  predicate CleanupTopology(d: Disk, j: Journal) {
    && d.current.Some? && d.candidate.None? && PayloadOf(d).retiredCandidate.None?
    && (if j.previous then d.backup.Some? != PayloadOf(d).retiredBackup.Some?
        else d.backup.None? && PayloadOf(d).retiredBackup.None?)
    && Owns(d.current, j.candidateOwner)
    && (j.previous ==> Owns(if d.backup.Some? then d.backup else PayloadOf(d).retiredBackup, j.previousOwner))
  }

  /** The topology, as a whole, is one that recover acts on. */
  predicate Accepted(d: Disk, j: Journal) {
    && Identified(j)
    && match j.phase
       case Building => false
       case Staged =>
         StagedTopology(d, j) &&
         (if d.candidate.None? then Owns(PayloadOf(d).assembled, j.candidateOwner) else UnpromotedTopology(d, j))
       case Ready => UnpromotedTopology(d, j)
       case BackedUp => UnpromotedTopology(d, j) || (JustPromotedTopology(d, j) && CleanupTopology(d, j))
       case RollingBack => RollbackTopology(d, j)
       case RolledBack => RollbackTopology(d, j)
       case Promoted => CleanupTopology(d, j)
       case RetiringBackup => CleanupTopology(d, j)
       case CleanedUp => CleanupTopology(d, j)
  }

  /** scratch.json, if there is one, describes exactly what is there. */
  predicate Verified(w: Work) {
    w.scratch.Some? ==> w.scratch.value == w.payload
  }

  /** Everything in the work directory is accounted for before it is sealed. */
  predicate Sealable(w: Work, j: Journal) {
    && Verified(w)
    && w.payload.foreign == {}
    && OwnsIfThere(w.payload.assembled, j.candidateOwner)
    && OwnsIfThere(w.payload.retiredCandidate, j.candidateOwner)
    && OwnsIfThere(w.payload.retiredBackup, j.previousOwner)
  }

  // --------------------------------------------------------- the crash invariant

  /** What one publication is about. */
  datatype Plan = Plan(previous: bool, prior: Owner, next: Owner, retention: bool)

  ghost predicate IsJournal(j: Journal, p: Plan) {
    && j.revision == p.next.revision && j.previous == p.previous && j.retention == p.retention && j.assembledInWork
    && j.candidateOwner == Some(p.next) && (p.previous ==> j.previousOwner == Some(p.prior))
    && p.prior.revision != p.next.revision
  }

  function Tree(owner: Owner): Option<Output> {
    Some(Output(owner, true))
  }

  function Prior(p: Plan): Option<Output> {
    if p.previous then Tree(p.prior) else None
  }

  ghost predicate WorkInv(d: Disk) {
    && PayloadOf(d).foreign == {}
    && (d.work.Some? ==> Verified(d.work.value))
    && (d.work.Some? && d.work.value.scratch.Some? ==> d.candidate.None? && d.backup.None?)
  }

  ghost predicate InPlace(d: Disk, p: Plan, candidate: Option<Output>, payload: Payload) {
    d.current == Prior(p) && d.backup.None? && d.candidate == candidate && PayloadOf(d) == payload
  }

  ghost predicate SetAside(d: Disk, p: Plan, candidate: Option<Output>, payload: Payload) {
    p.previous && d.current.None? && d.backup == Prior(p) && d.candidate == candidate && PayloadOf(d) == payload
  }

  ghost predicate Installed(d: Disk, p: Plan) {
    d.current == Tree(p.next)
  }

  /** The new tree is current; the prior one is the backup or retired. */
  ghost predicate Installing(d: Disk, p: Plan) {
    && Installed(d, p) && d.candidate.None?
    && ((d.backup == Prior(p) && PayloadOf(d) == EMPTY) ||
        (d.backup.None? && PayloadOf(d) == EMPTY.(retiredBackup := Prior(p))))
  }

  ghost predicate PhaseInv(d: Disk, p: Plan, phase: Phase) {
    var built, gone := Tree(p.next), EMPTY.(retiredCandidate := Tree(p.next));
    match phase
    case Building => false
    case Staged => InPlace(d, p, None, EMPTY.(assembled := built)) || InPlace(d, p, built, EMPTY)
    case Ready => InPlace(d, p, built, EMPTY) || SetAside(d, p, built, EMPTY)
    case BackedUp =>
      || InPlace(d, p, built, EMPTY) || SetAside(d, p, built, EMPTY)
      || (Installing(d, p) && d.backup == Prior(p) && PayloadOf(d) == EMPTY)
    case RollingBack =>
      || InPlace(d, p, built, EMPTY) || SetAside(d, p, built, EMPTY) || InPlace(d, p, None, gone)
    case RolledBack => InPlace(d, p, None, gone)
    case Promoted => Installing(d, p)
    case RetiringBackup => Installing(d, p)
    case CleanedUp => Installing(d, p) && d.backup.None?
  }

  /** Every disk that a killed promote or recover of this publication can leave. */
  ghost predicate Inv(d: Disk, p: Plan) {
    if d.journal.Some? then
      IsJournal(d.journal.value, p) && WorkInv(d) && PhaseInv(d, p, d.journal.value.phase)
    else Settled(d, p)
  }

  /** The publication is over: the new tree is current, or exactly the prior state is. */
  ghost predicate Settled(d: Disk, p: Plan) {
    && d.journal.None? && d.candidate.None? && d.backup.None?
    && p.prior.revision != p.next.revision
    && (p.retention && d.work.Some? ==> d.work.value.scratch == Some(d.work.value.payload))
    && ((Installed(d, p) && PayloadOf(d) == EMPTY.(retiredBackup := Prior(p)))
        || (d.current == Prior(p) &&
            (PayloadOf(d) == EMPTY.(retiredCandidate := Tree(p.next)) || PayloadOf(d) == EMPTY.(assembled := Tree(p.next)))))
  }

  function One(tree: Option<Output>, owner: Owner): nat {
    if tree == Tree(owner) then 1 else 0
  }

  /** How often a tree is on the disk. */
  function Copies(d: Disk, owner: Owner): nat {
    One(d.current, owner) + One(d.candidate, owner) + One(d.backup, owner) +
    One(PayloadOf(d).assembled, owner) + One(PayloadOf(d).retiredBackup, owner) + One(PayloadOf(d).retiredCandidate, owner)
  }

  /** No tree is lost or duplicated, and each is in one of its own places. */
  lemma Conservation(d: Disk, p: Plan)
    requires Inv(d, p)
    ensures Copies(d, p.next) == 1
    ensures One(PayloadOf(d).assembled, p.next) + One(d.candidate, p.next) + One(d.current, p.next) +
            One(PayloadOf(d).retiredCandidate, p.next) == 1
    ensures p.previous ==> Copies(d, p.prior) == 1
    ensures p.previous ==> One(d.current, p.prior) + One(d.backup, p.prior) + One(PayloadOf(d).retiredBackup, p.prior) == 1
  {
  }

  /** Recovery accepts every disk that a kill can leave. */
  lemma AlwaysAccepted(d: Disk, p: Plan)
    requires Inv(d, p) && d.journal.Some?
    ensures Accepted(d, d.journal.value)
    ensures d.work.Some? ==> Sealable(d.work.value, d.journal.value)
  {
  }

  ghost function Bag(tree: Option<Output>): multiset<Output> {
    if tree.Some? then multiset{tree.value} else multiset{}
  }

  /** All trees of the disk, wherever they are. */
  ghost function Trees(d: Disk): multiset<Output> {
    Bag(d.current) + Bag(d.candidate) + Bag(d.backup) +
    Bag(PayloadOf(d).assembled) + Bag(PayloadOf(d).retiredBackup) + Bag(PayloadOf(d).retiredCandidate)
  }

  /** A tree that is there, unaltered, and belongs to this owner. */
  predicate Unaltered(tree: Option<Output>, owner: Option<Owner>) {
    tree.Some? && owner.Some? && tree.value == Output(owner.value, true)
  }

  /** The prior tree stands in exactly one of two places, if there was one, and in neither otherwise. */
  predicate PriorInOneOf(a: Option<Output>, b: Option<Output>, j: Journal) {
    if j.previous then (Unaltered(a, j.previousOwner) && b.None?) || (a.None? && Unaltered(b, j.previousOwner))
    else a.None? && b.None?
  }

  /** The candidate was not promoted: it is there, and the prior tree is current or set aside. */
  predicate Unpromoted(d: Disk, j: Journal) {
    && Unaltered(d.candidate, j.candidateOwner) && PriorInOneOf(d.current, d.backup, j)
    && PayloadOf(d).retiredCandidate.None? && PayloadOf(d).retiredBackup.None?
  }

  /** The candidate is current, and the prior tree is the backup or retired. */
  predicate PromotedTo(d: Disk, j: Journal) {
    && Unaltered(d.current, j.candidateOwner) && d.candidate.None? && PayloadOf(d).retiredCandidate.None?
    && PriorInOneOf(d.backup, PayloadOf(d).retiredBackup, j)
  }

  /** Where the unaltered trees have to be, phase by phase, for recovery to act. */
  lemma AcceptedIsExact(d: Disk, j: Journal)
    ensures var work := PayloadOf(d);
            Accepted(d, j) <==>
              && j.candidateOwner.Some? && j.candidateOwner.value.revision == j.revision && (j.previous ==> j.previousOwner.Some?)
              && match j.phase
                 case Building => false
                 case Staged =>
                   && j.assembledInWork && d.backup.None? && PriorInOneOf(d.current, None, j)
                   && (if d.candidate.None? then Unaltered(work.assembled, j.candidateOwner)
                       else work.assembled.None? && Unpromoted(d, j))
                 case Ready => Unpromoted(d, j)
                 case BackedUp =>
                   Unpromoted(d, j) || (PromotedTo(d, j) && work.retiredBackup.None?)
                 case RollingBack =>
                   && PriorInOneOf(d.current, d.backup, j) && work.retiredBackup.None?
                   && (d.candidate.None? || work.retiredCandidate.None?)
                   && Unaltered(if d.candidate.Some? then d.candidate else work.retiredCandidate, j.candidateOwner)
                 case RolledBack =>
                   && PriorInOneOf(d.current, d.backup, j) && work.retiredBackup.None?
                   && (d.candidate.None? || work.retiredCandidate.None?)
                   && Unaltered(if d.candidate.Some? then d.candidate else work.retiredCandidate, j.candidateOwner)
                 case Promoted => PromotedTo(d, j)
                 case RetiringBackup => PromotedTo(d, j)
                 case CleanedUp => PromotedTo(d, j)
  {
  }

  // Value lemmas: each operation, on any disk that satisfies the invariant.

  function WithPhase(d: Disk, phase: Phase): Disk
    requires d.journal.Some?
  {
    d.(journal := Some(d.journal.value.(phase := phase)))
  }

  function Sealed(d: Disk): Disk
    requires d.work.Some?
  {
    d.(work := Some(Work(d.work.value.payload, Some(d.work.value.payload))))
  }

  ghost predicate At(d: Disk, p: Plan, phase: Phase) {
    Inv(d, p) && d.journal.Some? && d.journal.value.phase == phase
  }

  /** The journal may say "rolling back" while the candidate is still there. */
  lemma RollbackStarts(d: Disk, p: Plan)
    requires Inv(d, p) && d.journal.Some?
    requires d.journal.value.phase.Staged? || d.journal.value.phase.Ready? || d.journal.value.phase.BackedUp?
    requires d.candidate.Some?
    ensures At(WithPhase(d, RollingBack), p, RollingBack)
  {
  }

  lemma PromotionNoticed(d: Disk, p: Plan)
    requires At(d, p, BackedUp) && d.candidate.None?
    ensures At(WithPhase(d, Promoted), p, Promoted)
  {
  }

  lemma BackupRestored(d: Disk, p: Plan)
    requires At(d, p, RollingBack) || At(d, p, RolledBack)
    ensures d.backup.Some? ==>
              && d.current.None?
              && At(d.(current := d.backup, backup := None), p, d.journal.value.phase)
              && !Installed(d.(current := d.backup, backup := None), p)
    ensures !Installed(d, p)
  {
  }

  function MadeWork(d: Disk): Disk {
    if d.work.Some? then d else d.(work := Some(Work(EMPTY, None)))
  }

  lemma WorkMade(d: Disk, p: Plan)
    requires Inv(d, p) && d.journal.Some?
    ensures Inv(MadeWork(d), p) && Installed(MadeWork(d), p) == Installed(d, p)
  {
  }

  function CandidateRetired(d: Disk): Disk
    requires d.work.Some?
  {
    WithPayload(d, PayloadOf(d).(retiredCandidate := d.candidate)).(candidate := None)
  }

  lemma CandidateMoves(d: Disk, p: Plan)
    requires (At(d, p, RollingBack) || At(d, p, RolledBack)) && d.backup.None? && d.candidate.Some? && d.work.Some?
    ensures PayloadOf(d).retiredCandidate.None?
    ensures At(CandidateRetired(d), p, d.journal.value.phase) && !Installed(CandidateRetired(d), p)
  {
  }

  lemma RollbackDone(d: Disk, p: Plan)
    requires (At(d, p, RollingBack) || At(d, p, RolledBack)) && d.backup.None? && d.candidate.None?
    ensures At(WithPhase(d, RolledBack), p, RolledBack)
  {
  }

  lemma RetiringStarts(d: Disk, p: Plan)
    requires At(d, p, Promoted) || At(d, p, RetiringBackup) || At(d, p, CleanedUp)
    ensures At(WithPhase(d, RetiringBackup), p, RetiringBackup) && Installed(d, p)
  {
  }

  function BackupRetired(d: Disk): Disk
    requires d.work.Some?
  {
    WithPayload(d, PayloadOf(d).(retiredBackup := d.backup)).(backup := None)
  }

  lemma BackupMoves(d: Disk, p: Plan)
    requires At(d, p, RetiringBackup) && d.backup.Some? && d.work.Some?
    ensures PayloadOf(d).retiredBackup.None?
    ensures At(BackupRetired(d), p, RetiringBackup) && Installed(BackupRetired(d), p)
  {
  }

  lemma RetiringDone(d: Disk, p: Plan)
    requires At(d, p, RetiringBackup) && d.backup.None?
    ensures At(WithPhase(d, CleanedUp), p, CleanedUp) && Installed(d, p)
  {
  }

  // No operation loses or doubles a tree: each target is free when something is moved there.

  lemma QuietMoves(d: Disk, journal: Option<Journal>)
    ensures Trees(d.(journal := journal)) == Trees(d) && Trees(MadeWork(d)) == Trees(d)
    ensures d.work.Some? ==> Trees(Sealed(d)) == Trees(d)
  {
  }

  lemma BackupBackTrees(d: Disk)
    requires d.current.None?
    ensures Trees(d.(current := d.backup, backup := None)) == Trees(d)
  {
  }

  lemma CandidateRetiredTrees(d: Disk)
    requires d.work.Some? && PayloadOf(d).retiredCandidate.None?
    ensures Trees(CandidateRetired(d)) == Trees(d)
  {
  }

  lemma BackupRetiredTrees(d: Disk)
    requires d.work.Some? && PayloadOf(d).retiredBackup.None?
    ensures Trees(BackupRetired(d)) == Trees(d)
  {
  }

  lemma PromotionTrees(d: Disk)
    ensures d.candidate.None? && d.work.Some? ==> Trees(AssembledToCandidate(d)) == Trees(d)
    ensures d.backup.None? ==> Trees(CurrentToBackup(d)) == Trees(d)
    ensures d.current.None? ==> Trees(CandidateToCurrent(d)) == Trees(d)
  {
    hide Bag;
    assert Bag(None) == multiset{} by { NoBag(); }
  }

  lemma NoBag()
    ensures Bag(None) == multiset{}
  {
  }

  /** The publication is decided and only the journal is left to go. */
  ghost predicate Decided(d: Disk, p: Plan) {
    && Inv(d, p) && d.journal.Some?
    && (d.journal.value.phase.RolledBack? || d.journal.value.phase.CleanedUp? ||
        (d.journal.value.phase.Staged? && d.candidate.None?))
  }

  lemma SealKeeps(d: Disk, p: Plan)
    requires Decided(d, p) && d.work.Some?
    ensures Sealable(d.work.value, d.journal.value)
    ensures Decided(Sealed(d), p) && Sealed(d).work.value.scratch == Some(Sealed(d).work.value.payload)
  {
  }

  lemma SameRetention(d: Disk, p: Plan)
    requires Inv(d, p) && d.journal.Some?
    ensures d.journal.value.retention == p.retention
  {
  }

  lemma JournalGoes(d: Disk, p: Plan)
    requires Decided(d, p)
    requires p.retention && d.work.Some? ==> d.work.value.scratch == Some(d.work.value.payload)
    ensures Settled(d.(journal := None), p)
  {
  }

  /** More operations than any single recovery performs. */
  const RECOVERY_OPERATIONS := 7

  /** Enough operations to publish. */
  const PROMOTE_OPERATIONS := 7 + RECOVERY_OPERATIONS

  class Publisher {
    var disk: Disk
    var budget: nat       // file-system operations left before the process is killed

    constructor (disk: Disk, budget: nat)
      ensures this.disk == disk && this.budget == budget
    {
      this.disk, this.budget := disk, budget;
    }

    /** One atomic change of the disk, unless the process is killed first. */
    method Apply(changed: Disk) returns (o: Outcome)
      modifies this
      ensures o == if old(budget) > 0 then Completed else Killed
      ensures o.Completed? ==> disk == changed && budget == old(budget) - 1
      ensures o.Killed? ==> disk == old(disk) && budget == 0
    {
      if budget == 0 {
        return Killed;
      }
      budget := budget - 1;
      disk := changed;
      o := Completed;
    }

    method SetPhase(phase: Phase) returns (o: Outcome)
      requires disk.journal.Some?
      modifies this
      ensures o == if old(budget) > 0 then Completed else Killed
      ensures o.Completed? ==> disk == WithPhase(old(disk), phase) && budget == old(budget) - 1
      ensures o.Killed? ==> disk == old(disk) && budget == 0
      ensures Trees(disk) == Trees(old(disk))
    {
      QuietMoves(disk, Some(disk.journal.value.(phase := phase)));
      hide Trees;
      o := Apply(WithPhase(disk, phase));
    }

    /** What every part of recovery keeps: the crash invariant, no refusal, and which tree wins. */
    twostate predicate Safe(p: Plan, o: Outcome, operations: nat)
      reads this
    {
      && (old(Inv(disk, p)) ==> Inv(disk, p) && !o.Refused? && Installed(disk, p) == old(Installed(disk, p)))
      && (o.Completed? ==> budget >= old(budget) - operations)
      && (o.Killed? ==> old(budget) < operations)
    }

    /** Nothing but the journal has changed. */
    twostate predicate NoTreeMoved()
      reads this
    {
      disk == old(disk).(journal := disk.journal)
    }

    /** A staged publication that never became a candidate is sealed where it lies. */
    method AbandonStaged(j: Journal, ghost p: Plan) returns (o: Outcome)
      requires disk.journal == Some(j) && j.phase.Staged? && StagedTopology(disk, j) && disk.candidate.None?
      modifies this
      ensures Trees(disk) == Trees(old(disk))
      ensures o.Completed? ==>
        && disk == old(disk).(journal := None, work := if j.retention
                                then Some(Work(PayloadOf(old(disk)), Some(PayloadOf(old(disk))))) else old(disk).work)
        && (j.retention ==>
              && PayloadOf(old(disk)) == EMPTY.(assembled := PayloadOf(old(disk)).assembled)
              && (old(disk).work.value.scratch.None? || old(disk).work.value.scratch == Some(PayloadOf(old(disk)))))
      ensures Safe(p, o, 2)
      ensures !Owns(old(PayloadOf(disk)).assembled, j.candidateOwner) ==> o.Refused? && disk == old(disk)
      ensures o.Completed? ==> disk.journal.None?
    {
      hide Trees;
      if Inv(disk, p) {
        AlwaysAccepted(disk, p);
        if disk.work.Some? { SealKeeps(disk, p); }
      }
      QuietMoves(disk, None);
      if disk.work.Some? { QuietMoves(Sealed(disk), None); }
      hide Trees;
      var payload := PayloadOf(disk);
      :- Require(Owns(payload.assembled, j.candidateOwner));
      hide Inv, StagedTopology;
      if j.retention {
        :- Require(Verified(disk.work.value));
        :- Require(payload == EMPTY.(assembled := payload.assembled));
        :- Apply(Sealed(disk));
      }
      if Inv(disk, p) { JournalGoes(disk, p); }
      o := Apply(disk.(journal := None));
    }

    /** The candidate is retired by rename into the work directory. */
    method CandidateAside(j: Journal, ghost p: Plan) returns (o: Outcome)
      requires disk.journal == Some(j) && (j.phase.RollingBack? || j.phase.RolledBack?)
      requires Inv(disk, p) ==> disk.backup.None?
      modifies this
      ensures Trees(disk) == Trees(old(disk))
      ensures Safe(p, o, 3) && (o.Completed? ==> budget + 2 >= old(budget)) && (o.Killed? ==> old(budget) < 2)
      ensures old(Inv(disk, p) && disk.backup.None? && !Installed(disk, p)) ==> disk.backup.None? && !Installed(disk, p)
      ensures o.Completed? ==> disk.journal == Some(j) && disk.candidate.None? && disk.backup == old(disk).backup
    {
      hide Trees;
      ghost var good := Inv(disk, p);
      if good { BackupRestored(disk, p); }
      hide Inv, Installed;
      if disk.candidate.Some? {
        if good { WorkMade(disk, p); }
        QuietMoves(disk, disk.journal);
        if disk.work.None? {
          :- Apply(MadeWork(disk));
        }
        if good { CandidateMoves(disk, p); }
        o := Require(PayloadOf(disk).retiredCandidate.None?);
        if o.IsFailure() {
          return;
        }
        CandidateRetiredTrees(disk);
        :- Apply(CandidateRetired(disk));
      }
      o := Completed;
    }

    /** The prior tree goes back in place and the candidate is retired by rename. */
    method FinishRollback(j: Journal, ghost p: Plan) returns (o: Outcome)
      requires disk.journal == Some(j) && (j.phase.RollingBack? || j.phase.RolledBack?)
      modifies this
      ensures Trees(disk) == Trees(old(disk))
      ensures Safe(p, o, 4)
      ensures !RollbackTopology(old(disk), j) ==> o.Refused? && disk == old(disk)
      ensures o.Completed? ==> disk.journal == Some(j.(phase := RolledBack))
    {
      hide Trees;
      if Inv(disk, p) { AlwaysAccepted(disk, p); BackupRestored(disk, p); }
      ghost var good := Inv(disk, p);
      hide Inv, Installed, Trees;
      :- Require(RollbackTopology(disk, j));
      hide RollbackTopology;
      if disk.backup.Some? {
        o := Require(disk.current.None?);
        if o.IsFailure() {
          return;
        }
        BackupBackTrees(disk);
        :- Apply(disk.(current := disk.backup, backup := None));
      }
      o := CandidateAside(j, p);
      if o.IsFailure() {
        return;
      }
      if good { RollbackDone(disk, p); }
      o := SetPhase(RolledBack);
    }

    /** The prior tree, if any, is retired by rename, never deleted here. */
    method FinishPromotion(j: Journal, ghost p: Plan) returns (o: Outcome)
      requires disk.journal == Some(j) && (j.phase.Promoted? || j.phase.RetiringBackup? || j.phase.CleanedUp?)
      modifies this
      ensures Trees(disk) == Trees(old(disk))
      ensures Safe(p, o, 4)
      ensures !CleanupTopology(old(disk), j) ==> o.Refused? && disk == old(disk)
      ensures o.Completed? ==> disk.journal == Some(j.(phase := CleanedUp))
    {
      hide Trees;
      if Inv(disk, p) { AlwaysAccepted(disk, p); RetiringStarts(disk, p); }
      ghost var good := Inv(disk, p);
      hide Inv, Installed, Trees;
      :- Require(CleanupTopology(disk, j));
      hide CleanupTopology;
      :- SetPhase(RetiringBackup);
      if disk.backup.Some? {
        if good { WorkMade(disk, p); }
        QuietMoves(disk, disk.journal);
        if disk.work.None? {
          :- Apply(MadeWork(disk));
        }
        if good { BackupMoves(disk, p); }
        o := Require(PayloadOf(disk).retiredBackup.None?);
        if o.IsFailure() {
          return;
        }
        BackupRetiredTrees(disk);
        :- Apply(BackupRetired(disk));
      }
      if good { RetiringDone(disk, p); }
      o := SetPhase(CleanedUp);
    }

    /** The work directory is checked and sealed, then the journal goes. */
    method RetireJournal(j: Journal, ghost p: Plan) returns (o: Outcome)
      requires disk.journal == Some(j) && (j.phase.RolledBack? || j.phase.CleanedUp?)
      modifies this
      ensures Trees(disk) == Trees(old(disk))
      ensures o.Completed? ==>
        disk == old(disk).(journal := None, work := if j.retention && old(disk).work.Some?
                             then Some(Work(PayloadOf(old(disk)), Some(PayloadOf(old(disk))))) else old(disk).work)
      ensures o.Completed? && j.retention && old(disk).work.Some? ==>
        var w := old(disk).work.value;
        && (w.scratch.None? || w.scratch == Some(w.payload)) && w.payload.foreign == {}
        && (w.payload.assembled.None? || Unaltered(w.payload.assembled, j.candidateOwner))
        && (w.payload.retiredCandidate.None? || Unaltered(w.payload.retiredCandidate, j.candidateOwner))
        && (w.payload.retiredBackup.None? || Unaltered(w.payload.retiredBackup, j.previousOwner))
      ensures Safe(p, o, 2)
      ensures o.Completed? ==> disk.journal.None?
    {
      hide Trees;
      if Inv(disk, p) {
        if disk.work.Some? { SealKeeps(disk, p); }
      }
      ghost var good := Inv(disk, p);
      if good { SameRetention(disk, p); }
      QuietMoves(disk, None);
      if disk.work.Some? { QuietMoves(Sealed(disk), None); }
      hide Inv, Trees;
      if j.retention && disk.work.Some? {
        :- Require(Sealable(disk.work.value, j));
        :- Apply(Sealed(disk));
      }
      if good { JournalGoes(disk, p); }
      o := Apply(disk.(journal := None));
    }

    /** Before the candidate is promoted or not: the phase in which recovery has to go on. */
    method DecideDirection(j: Journal, ghost p: Plan) returns (o: Outcome)
      requires disk.journal == Some(j) && (j.phase.Staged? || j.phase.Ready? || j.phase.BackedUp?)
      requires j.phase.Staged? ==> disk.candidate.Some?
      modifies this
      ensures Trees(disk) == Trees(old(disk))
      ensures Safe(p, o, 1) && NoTreeMoved()
      ensures o.Completed? ==>
        && (disk.journal == Some(j.(phase := RollingBack)) || disk.journal == Some(j.(phase := Promoted)))
        && (UnpromotedTopology(old(disk), j) || JustPromotedTopology(old(disk), j))
        && (disk.journal.value.phase.Promoted? ==> JustPromotedTopology(old(disk), j))
    {
      hide Trees;
      if Inv(disk, p) {
        AlwaysAccepted(disk, p);
        if disk.candidate.Some? { RollbackStarts(disk, p); } else { PromotionNoticed(disk, p); }
      }
      hide Inv, Trees;
      if disk.candidate.Some? &&
         ((disk.current.Some? == j.previous && disk.backup.None?) || (j.previous && disk.current.None? && disk.backup.Some?)) {
        :- Require(UnpromotedTopology(disk, j));
        o := SetPhase(RollingBack);
      } else {
        :- Require(JustPromotedTopology(disk, j));
        o := SetPhase(Promoted);
      }
    }

    /** recover: finish or undo whatever the journal says was under way. */
    method Recover(ghost p: Plan) returns (o: Outcome)
      modifies this
      ensures Trees(disk) == Trees(old(disk))
      ensures Safe(p, o, RECOVERY_OPERATIONS)
      ensures o.Completed? ==> disk.journal.None?
      ensures old(disk).journal.None? ==>
                disk == old(disk) && o == if disk.candidate.None? && disk.backup.None? then Completed else Refused
      ensures old(disk).journal.Some? && !Accepted(old(disk), old(disk).journal.value) ==> !o.Completed? && NoTreeMoved()
    {
      hide Trees;
      if disk.journal.None? {
        o := Require(disk.candidate.None? && disk.backup.None?);
        return;
      }
      var j := disk.journal.value;
      if Inv(disk, p) { AlwaysAccepted(disk, p); }
      hide Inv, Trees;
      :- Require(Identified(j));
      hide Identified;
      if j.phase.Staged? {
        :- Require(StagedTopology(disk, j));
        if disk.candidate.None? {
          o := AbandonStaged(j, p);
          return;
        }
      }
      if j.phase.Staged? || j.phase.Ready? || j.phase.BackedUp? {
        :- DecideDirection(j, p);
      }
      :- Require(!disk.journal.value.phase.Building?);
      o := Conclude(disk.journal.value, p);
    }

    /** The second half of recover: one direction or the other, then the journal goes. */
    method Conclude(j: Journal, ghost p: Plan) returns (o: Outcome)
      requires disk.journal == Some(j) && !j.phase.Building? && !j.phase.Staged? && !j.phase.Ready? && !j.phase.BackedUp?
      modifies this
      ensures Trees(disk) == Trees(old(disk))
      ensures Safe(p, o, 6)
      ensures o.Completed? ==> disk.journal.None?
      ensures !(if j.phase.RollingBack? || j.phase.RolledBack? then RollbackTopology(old(disk), j) else CleanupTopology(old(disk), j)) ==>
                o.Refused? && disk == old(disk)
    {
      hide Trees;
      hide Inv, RollbackTopology, CleanupTopology, Trees;
      if j.phase.RollingBack? || j.phase.RolledBack? {
        :- FinishRollback(j, p);
      } else {
        :- FinishPromotion(j, p);
      }
      o := RetireJournal(disk.journal.value, p);
    }

    /** promote, from the staged journal on; `assembled` is the finished tree in the work directory. */
    method Promote(j0: Journal, ghost p: Plan) returns (o: Outcome)
      modifies this
      ensures Trees(disk) == Trees(old(disk))
      ensures old(Buildable(disk, j0, p)) ==> !o.Refused? && (disk == old(disk) || Inv(disk, p))
      ensures old(Buildable(disk, j0, p)) && o.Completed? ==> Settled(disk, p) && Installed(disk, p)
      ensures o.Killed? ==> old(budget) < PROMOTE_OPERATIONS
      ensures PayloadOf(old(disk)).assembled.None? || !PayloadOf(old(disk)).assembled.value.intact ||
              (old(disk).current.Some? && !old(disk).current.value.intact) ==>
                o.Refused? && disk == old(disk)
    {
      hide Trees;
      if Buildable(disk, j0, p) { PromotionSteps(disk, j0, p); }
      :- Require(PayloadOf(disk).assembled.Some? && PayloadOf(disk).assembled.value.intact);
      :- Require(disk.current.Some? ==> disk.current.value.intact);
      var j := StagedJournal(disk, j0);
      hide Inv, Buildable, Installed, Trees;
      QuietMoves(disk, Some(j));
      :- Apply(disk.(journal := Some(j)));
      :- Require(disk.candidate.None?);
      PromotionTrees(disk);
      :- Apply(AssembledToCandidate(disk));
      :- SetPhase(Ready);
      :- Require(disk.current.Some? ==> disk.backup.None?);
      PromotionTrees(disk);
      if disk.current.Some? {
        :- Apply(CurrentToBackup(disk));
      }
      :- SetPhase(BackedUp);
      o := Require(disk.current.None?);
      if o.IsFailure() {
        return;
      }
      PromotionTrees(disk);
      :- Apply(CandidateToCurrent(disk));
      :- SetPhase(Promoted);
      o := Recover(p);
    }

    /** Any number of later starts, each killed after its own number of operations, until one recovery completes. */
    method RecoverUntilSettled(ghost p: Plan, boots: seq<nat>) returns (settled: bool)
      requires Inv(disk, p)
      modifies this
      ensures Trees(disk) == Trees(old(disk))
      ensures Inv(disk, p) && Installed(disk, p) == old(Installed(disk, p))
      ensures settled ==> Settled(disk, p) && (!old(Installed(disk, p)) ==> disk.current == Prior(p))
      ensures (exists i :: 0 <= i < |boots| && boots[i] >= RECOVERY_OPERATIONS) ==> settled
    {
      hide Trees;
      hide Accepted, Trees;
      var i := 0;
      while i < |boots|
        invariant 0 <= i <= |boots|
        invariant Inv(disk, p) && Installed(disk, p) == old(Installed(disk, p)) && Trees(disk) == Trees(old(disk))
        invariant forall k :: 0 <= k < i ==> boots[k] < RECOVERY_OPERATIONS
      {
        budget := boots[i];
        var o := Recover(p);
        if o.Completed? {
          return true;
        }
        i := i + 1;
      }
      settled := false;
    }
  }

  // The forward direction.

  /** The disk that build hands to promote. */
  ghost predicate Buildable(d: Disk, j: Journal, p: Plan) {
    && d.journal == Some(j) && j.phase.Building?
    && j.revision == p.next.revision && j.previous == p.previous && j.retention == p.retention
    && p.prior.revision != p.next.revision
    && d.current == Prior(p) && d.candidate.None? && d.backup.None?
    && d.work == Some(Work(EMPTY.(assembled := Tree(p.next)), None))
  }

  function AssembledToCandidate(d: Disk): Disk
    requires d.work.Some?
  {
    WithPayload(d, PayloadOf(d).(assembled := None)).(candidate := PayloadOf(d).assembled)
  }

  function CurrentToBackup(d: Disk): Disk {
    if d.current.Some? then d.(backup := d.current, current := None) else d
  }

  function CandidateToCurrent(d: Disk): Disk {
    d.(current := d.candidate, candidate := None)
  }

  /** The journal that promote writes first: it records whose trees these are. */
  function StagedJournal(d: Disk, j: Journal): Journal
    requires PayloadOf(d).assembled.Some?
  {
    j.(phase := Staged, assembledInWork := true, candidateOwner := Some(PayloadOf(d).assembled.value.owner),
       previousOwner := if d.current.Some? then Some(d.current.value.owner) else j.previousOwner)
  }

  function Staging(d: Disk, j: Journal): Disk
    requires PayloadOf(d).assembled.Some?
  {
    d.(journal := Some(StagedJournal(d, j)))
  }

  /** The disks that promote goes through; the rename of the candidate is what installs the new tree. */
  lemma PromotionSteps(d: Disk, j: Journal, p: Plan)
    requires Buildable(d, j, p)
    ensures PayloadOf(d).assembled.Some? && PayloadOf(d).assembled.value.intact && (d.current.Some? ==> d.current.value.intact)
    ensures var d1 := Staging(d, j);
            var d2 := AssembledToCandidate(d1);
            var d3 := WithPhase(d2, Ready);
            var d4 := CurrentToBackup(d3);
            var d5 := WithPhase(d4, BackedUp);
            var d6 := CandidateToCurrent(d5);
            var d7 := WithPhase(d6, Promoted);
            && d1.candidate.None? && d3.backup.None? && d5.current.None?
            && Inv(d1, p) && Inv(d2, p) && Inv(d3, p) && Inv(d4, p) && Inv(d5, p)
            && !Installed(d1, p) && !Installed(d2, p) && !Installed(d3, p) && !Installed(d4, p) && !Installed(d5, p)
            && Inv(d6, p) && Installed(d6, p) && Inv(d7, p) && Installed(d7, p)
  {
  }
}
