/**
  The registration transaction: one catalog directory and three JSON files that
  must change together, kept together by a journal and a restartable recovery
  cursor while the process may be killed before any file-system operation.

  Inventories and digests are injective identities; a rename and a whole-file
  write are atomic. Paths that carry the transaction token are maps from tokens.
*/
module Registration {
  import opened CrashModel
  import opened Wrappers

  /** A package directory of the catalog; directories without a manifest have no identity. */
  datatype Package = Package(id: Option<string>, inventory: map<string, string>)

  type Tree = map<string, Package>

  datatype Kind = State | Mapping | Profile

  datatype Record = Record(hadPrevious: bool, previous: string, next: string)

  datatype Phase = Prepared | BackingUp | Promoting | WritingState | WritingProfile | Committed

  /** What a transaction is about; everything in its journal except the phase. */
  datatype Plan = Plan(token: nat, hadCatalog: bool, previous: Tree, next: Tree, files: map<Kind, Record>)

  datatype Journal = Journal(plan: Plan, phase: Phase)

  datatype Step = Unpromote | Restore | Files | Done

  /** The recovery cursor; `journal` stands for the digest of the journal's bytes. */
  datatype Cursor = Cursor(token: nat, journal: Journal, step: Step)

  datatype Disk = Disk(
    journal: Option<Journal>,
    cursor: Option<Cursor>,
    catalog: Option<Tree>,
    candidates: map<nat, Tree>,
    backups: map<nat, Tree>,
    retired: map<nat, Package>,
    files: map<Kind, string>,
    rolledBack: map<nat, Journal>,
    committed: map<nat, Journal>,
    doneCursors: set<nat>)

  // ------------------------------------------------------------------- checks

  /** The file is what the record says it was or will be. */
  predicate CheckRecord(files: map<Kind, string>, k: Kind, r: Record) {
    && (!r.hadPrevious ==> r.previous == "")
    && (if k in files then files[k] == r.next || (r.hadPrevious && files[k] == r.previous) else !r.hadPrevious)
  }

  predicate CheckRecords(files: map<Kind, string>, records: map<Kind, Record>) {
    && State in records && Mapping in records && Profile in records
    && CheckRecord(files, State, records[State])
    && CheckRecord(files, Mapping, records[Mapping])
    && CheckRecord(files, Profile, records[Profile])
  }

  predicate AllNext(files: map<Kind, string>, records: map<Kind, Record>) {
    forall k :: k in records ==> k in files && files[k] == records[k].next
  }

  predicate AllPrevious(files: map<Kind, string>, records: map<Kind, Record>) {
    forall k :: k in records ==>
      if records[k].hadPrevious then k in files && files[k] == records[k].previous else k !in files
  }

  /** The topology that each journaled phase allows. */
  predicate Topology(d: Disk, j: Journal) {
    var p := j.plan;
    var had := p.hadCatalog;
    var C, B, A := p.token in d.candidates, p.token in d.backups, d.catalog.Some?;
    var prior := A && had && d.catalog.value == p.previous;
    var next := A && d.catalog.value == p.next;
    match j.phase
    case Prepared => C && !B && (if had then prior else !A)
    case BackingUp => C && (if had then (prior && !B) || (!A && B) else !A && !B)
    case Promoting => C != next && had == B && (!A || next)
    case WritingState => !C && next && had == B
    case WritingProfile => !C && next && had == B
    case Committed => !C && next && (!B || had)
  }

  predicate ValidateJournal(d: Disk, j: Journal, recovering: bool) {
    var p := j.plan;
    && (p.hadCatalog || p.previous == map[])
    && CheckRecords(d.files, p.files)
    && (p.token in d.candidates ==> d.candidates[p.token] == p.next)
    && (p.token in d.backups ==> p.hadCatalog && d.backups[p.token] == p.previous)
    && (recovering ||
          (Topology(d, j) && (j.phase.Committed? ==> AllNext(d.files, p.files))))
  }

  // --------------------------------------------------------- the crash invariant

  /** The plan is one that staging produces. */
  ghost predicate WellFormed(p: Plan) {
    && (forall k: Kind :: k in p.files)
    && (forall k :: k in p.files && !p.files[k].hadPrevious ==> p.files[k].previous == "")
    && (p.hadCatalog || p.previous == map[])
  }

  ghost predicate OldCatalog(d: Disk, p: Plan) {
    d.catalog == if p.hadCatalog then Some(p.previous) else None
  }

  ghost predicate BackedUp(d: Disk, p: Plan) {
    if p.hadCatalog then p.token in d.backups && d.backups[p.token] == p.previous else p.token !in d.backups
  }

  ghost predicate Candidate(d: Disk, p: Plan) {
    p.token in d.candidates && d.candidates[p.token] == p.next
  }

  /** The catalog has not been replaced: it is in place, or set aside in the backup. */
  ghost predicate Unreplaced(d: Disk, p: Plan) {
    && Candidate(d, p)
    && ((OldCatalog(d, p) && p.token !in d.backups) || (d.catalog.None? && BackedUp(d, p)))
  }

  /** The new tree is either still the candidate or already the catalog. */
  ghost predicate Replacing(d: Disk, p: Plan) {
    && BackedUp(d, p)
    && ((Candidate(d, p) && d.catalog.None?) || (p.token !in d.candidates && d.catalog == Some(p.next)))
  }

  ghost predicate Replaced(d: Disk, p: Plan) {
    p.token !in d.candidates && d.catalog == Some(p.next) && (p.token in d.backups ==> BackedUp(d, p))
  }

  ghost predicate Restored(d: Disk, p: Plan) {
    Candidate(d, p) && OldCatalog(d, p) && p.token !in d.backups
  }

  ghost predicate ForwardInv(d: Disk, p: Plan, phase: Phase) {
    match phase
    case Prepared => Restored(d, p) && AllPrevious(d.files, p.files)
    case BackingUp => Unreplaced(d, p) && AllPrevious(d.files, p.files)
    case Promoting => Replacing(d, p) && AllPrevious(d.files, p.files)
    case WritingState => Replaced(d, p) && BackedUp(d, p)
    case WritingProfile => Replaced(d, p) && BackedUp(d, p)
    case Committed => Replaced(d, p) && BackedUp(d, p) && AllNext(d.files, p.files)
  }

  ghost predicate BackwardInv(d: Disk, p: Plan, step: Step) {
    match step
    case Unpromote => Replacing(d, p)
    case Restore => Unreplaced(d, p)
    case Files => Restored(d, p)
    case Done => Restored(d, p) && AllPrevious(d.files, p.files)
  }

  ghost predicate Fresh(d: Disk, token: nat) {
    token !in d.rolledBack && token !in d.committed && token !in d.doneCursors
  }

  /** The transaction was rolled back: everything live is as before staging. */
  ghost predicate Undone(d: Disk, p: Plan) {
    && p.token in d.rolledBack && d.rolledBack[p.token].plan == p && p.token !in d.committed
    && Restored(d, p) && AllPrevious(d.files, p.files)
  }

  /** The transaction was committed: everything live is new. */
  ghost predicate Finished(d: Disk, p: Plan) {
    && p.token in d.committed && d.committed[p.token] == Journal(p, Committed) && p.token !in d.rolledBack
    && Replaced(d, p) && BackedUp(d, p) && AllNext(d.files, p.files)
  }

  /** Every disk that a killed promote, commit or recover of plan p can leave. */
  ghost predicate Inv(d: Disk, p: Plan) {
    && WellFormed(p)
    && match (d.journal, d.cursor)
       case (Some(j), None) =>
         j.plan == p && Fresh(d, p.token) && CheckRecords(d.files, p.files) && ForwardInv(d, p, j.phase)
       case (Some(j), Some(c)) =>
         && j.plan == p && Fresh(d, p.token) && CheckRecords(d.files, p.files) && !j.phase.Committed?
         && c.token == p.token && c.journal == j && BackwardInv(d, p, c.step)
       case (None, Some(c)) =>
         && c.token == p.token && c.step.Done? && p.token !in d.doneCursors
         && Undone(d, p) && c.journal == d.rolledBack[p.token]
       case (None, None) =>
         (Undone(d, p) && p.token in d.doneCursors) || (Finished(d, p) && p.token !in d.doneCursors)
  }

  /** "committed" has been journaled. */
  predicate CommitPoint(d: Disk, p: Plan) {
    p.token in d.committed || (d.journal.Some? && d.journal.value.phase.Committed?)
  }

  /** A file is as it was before the transaction or as it is to be. */
  ghost predicate Touched(files: map<Kind, string>, k: Kind, r: Record) {
    && (r.hadPrevious || r.previous == "")
    && ((k in files && files[k] == r.next) || (r.hadPrevious && k in files && files[k] == r.previous) || (!r.hadPrevious && k !in files))
  }

  /**
    Validation accepts a disk exactly when the three files are old or new, candidate and
    backup are unaltered, and, unless a rollback is under way, catalog, candidate and
    backup stand as one of the disks that the forward run passes in the journaled phase.
  */
  lemma ValidationIsExact(d: Disk, j: Journal, recovering: bool)
    ensures var p := j.plan;
            var candidate, backup := p.token in d.candidates, p.token in d.backups;
            var absent, next := d.catalog.None?, d.catalog == Some(p.next);
            var previous := p.hadCatalog && d.catalog == Some(p.previous);
            ValidateJournal(d, j, recovering) <==>
              && (p.hadCatalog || p.previous == map[])
              && (forall k: Kind :: k in p.files && Touched(d.files, k, p.files[k]))
              && (candidate ==> d.candidates[p.token] == p.next)
              && (backup ==> p.hadCatalog && d.backups[p.token] == p.previous)
              && (recovering ||
                  match j.phase
                  case Prepared => candidate && !backup && (previous || (!p.hadCatalog && absent))
                  case BackingUp => candidate && (if backup then absent else previous || (!p.hadCatalog && absent))
                  case Promoting => backup == p.hadCatalog && if candidate then absent else next
                  case WritingState => backup == p.hadCatalog && !candidate && next
                  case WritingProfile => backup == p.hadCatalog && !candidate && next
                  case Committed => !candidate && next && forall k :: k in p.files ==> k in d.files && d.files[k] == p.files[k].next)
  {
    var p := j.plan;
    assert (forall k: Kind :: k in p.files && Touched(d.files, k, p.files[k])) <==> CheckRecords(d.files, p.files) by {
      EachKind(d.files, p.files);
    }
  }

  lemma EachKind(files: map<Kind, string>, records: map<Kind, Record>)
    ensures (forall k: Kind :: k in records && Touched(files, k, records[k])) <==> CheckRecords(files, records)
  {
    if CheckRecords(files, records) {
      forall k: Kind ensures k in records && Touched(files, k, records[k]) {
        match k
        case State =>
        case Mapping =>
        case Profile =>
      }
    }
  }

  /** No validation ever refuses a disk that a kill can leave. */
  lemma NeverAmbiguous(d: Disk, p: Plan)
    requires Inv(d, p) && d.journal.Some?
    ensures ValidateJournal(d, d.journal.value, d.cursor.Some?)
  {
  }

  // Value lemmas: each operation of recovery, on any disk that satisfies the invariant.

  function WithStep(d: Disk, step: Step): Disk
    requires d.cursor.Some?
  {
    d.(cursor := Some(d.cursor.value.(step := step)))
  }

  /** A rollback is under way at the given step. */
  ghost predicate Undoing(d: Disk, p: Plan, step: Step) {
    Inv(d, p) && d.journal.Some? && d.cursor.Some? && d.cursor.value.step == step
  }

  function CatalogToCandidate(d: Disk, token: nat, tree: Tree): Disk {
    d.(catalog := None, candidates := d.candidates[token := tree])
  }

  lemma UnpromoteMoves(d: Disk, p: Plan)
    requires Undoing(d, p, Unpromote)
    ensures d.journal.value.plan == p
    ensures d.catalog.Some? ==>
              && p.token !in d.candidates && d.catalog.value == p.next
              && Undoing(CatalogToCandidate(d, p.token, p.next), p, Unpromote)
    ensures d.catalog.None? ==> p.token in d.candidates && d.candidates[p.token] == p.next
  {
    hide CheckRecords;
  }

  lemma UnpromoteAdvances(d: Disk, p: Plan)
    requires Undoing(d, p, Unpromote) && d.catalog.None?
    ensures Undoing(WithStep(d, Restore), p, Restore)
  {
    hide CheckRecords;
  }

  function BackupToCatalog(d: Disk, token: nat, tree: Tree): Disk {
    d.(catalog := Some(tree), backups := d.backups - {token})
  }

  lemma RestoreMoves(d: Disk, p: Plan)
    requires Undoing(d, p, Restore)
    ensures d.journal.value.plan == p
    ensures p.hadCatalog && p.token in d.backups ==>
              && d.catalog.None? && d.backups[p.token] == p.previous
              && Undoing(BackupToCatalog(d, p.token, p.previous), p, Restore)
    ensures p.hadCatalog && p.token !in d.backups ==> d.catalog == Some(p.previous)
    ensures !p.hadCatalog ==> d.catalog.None? && p.token !in d.backups
  {
    hide CheckRecords;
  }

  lemma RestoreAdvances(d: Disk, p: Plan)
    requires Undoing(d, p, Restore) && p.token !in d.backups
    ensures Undoing(WithStep(d, Files), p, Files)
  {
    hide CheckRecords;
  }

  lemma FilesCheck(d: Disk, p: Plan)
    requires Undoing(d, p, Files) || Undoing(d, p, Done)
    ensures d.journal.value.plan == p && p.token !in d.backups && OldCatalog(d, p)
  {
  }

  lemma FilesStep(d: Disk, p: Plan)
    requires Inv(d, p) && d.journal.Some? && d.cursor.Some?
    ensures d.journal.value.plan == p && WellFormed(p) && (forall k: Kind :: k in p.files)
    ensures forall files :: CommitPoint(d.(files := files), p) == CommitPoint(d, p)
  {
  }

  lemma PutPrevious(d: Disk, p: Plan, k: Kind)
    requires Undoing(d, p, Files) && k in p.files
    ensures CheckRecord(d.files, k, p.files[k])
    ensures Undoing(d.(files := Put(d.files, k, p.files[k], true)), p, Files)
  {
  }

  lemma FilesAdvance(d: Disk, p: Plan, files: map<Kind, string>)
    requires WellFormed(p) && Undoing(d, p, Files)
    requires d.files == Put(Put(Put(files, State, p.files[State], true), Mapping, p.files[Mapping], true), Profile, p.files[Profile], true)
    ensures Undoing(WithStep(d, Done), p, Done)
  {
    forall k | k in p.files
      ensures if p.files[k].hadPrevious then k in d.files && d.files[k] == p.files[k].previous else k !in d.files
    {
      match k
      case State =>
      case Mapping =>
      case Profile =>
    }
  }

  function JournalToRolledBack(d: Disk, j: Journal): Disk {
    d.(journal := None, rolledBack := d.rolledBack[j.plan.token := j])
  }

  function CursorToDone(d: Disk, token: nat): Disk {
    d.(cursor := None, doneCursors := d.doneCursors + {token})
  }

  lemma ArchiveMoves(d: Disk, p: Plan, j: Journal)
    requires Undoing(d, p, Done) && d.journal == Some(j)
    ensures j.plan == p
    ensures AllPrevious(d.files, p.files) && p.token !in d.rolledBack && p.token !in d.doneCursors
    ensures Inv(JournalToRolledBack(d, j), p) && Inv(CursorToDone(JournalToRolledBack(d, j), p.token), p)
    ensures !CommitPoint(d, p) && !CommitPoint(JournalToRolledBack(d, j), p)
    ensures !CommitPoint(CursorToDone(JournalToRolledBack(d, j), p.token), p)
  {
    hide AllPrevious, CheckRecords;
  }

  function JournalToCommitted(d: Disk, j: Journal): Disk {
    d.(journal := None, committed := d.committed[j.plan.token := j])
  }

  lemma CommittedMoves(d: Disk, p: Plan, j: Journal)
    requires Inv(d, p) && d.journal == Some(j) && d.cursor.None? && j.phase.Committed?
    ensures j.plan == p
    ensures p.token !in d.committed
    ensures Inv(JournalToCommitted(d, j), p) && CommitPoint(d, p) && CommitPoint(JournalToCommitted(d, j), p)
  {
    hide AllNext, CheckRecords;
  }

  /** Where a rollback starts. */
  function FirstStep(d: Disk, j: Journal): Step {
    if j.phase.WritingState? || j.phase.WritingProfile? ||
       (j.phase.Promoting? && d.catalog.Some? && j.plan.token !in d.candidates) then Unpromote
    else Restore
  }

  lemma RollbackStarts(d: Disk, p: Plan, j: Journal)
    requires Inv(d, p) && d.journal == Some(j) && d.cursor.None? && !j.phase.Committed?
    ensures j.plan == p
    ensures Undoing(d.(cursor := Some(Cursor(p.token, j, FirstStep(d, j)))), p, FirstStep(d, j))
  {
    hide CheckRecords;
  }

  /** The cursor left without a journal belongs to the rollback that finished last and was archived. */
  predicate Orphan(d: Disk, c: Cursor) {
    && c.step.Done?
    && c.token in d.rolledBack && d.rolledBack[c.token] == c.journal
    && c.token !in d.doneCursors
  }

  // Value lemmas of the forward direction.

  /** The transaction is under way and its own copy of the journal is the one on disk. */
  ghost predicate Going(d: Disk, own: Option<Journal>, p: Plan) {
    Inv(d, p) && d.journal.Some? && d.cursor.None? && own == d.journal && !d.journal.value.phase.Committed?
  }

  lemma PreparedFacts(d: Disk, p: Plan)
    requires Inv(d, p) && d.journal.Some? && d.cursor.None? && d.journal.value.phase.Prepared?
    ensures d.journal.value.plan == p && p.token !in d.backups && p.token in d.candidates
    ensures d.catalog.Some? == p.hadCatalog
  {
    hide CheckRecords, AllPrevious;
  }

  /** When the next phase may be journaled. */
  ghost predicate MayEnter(d: Disk, p: Plan, phase: Phase)
    requires d.journal.Some?
  {
    var now := d.journal.value.phase;
    match phase
    case Prepared => false
    case BackingUp => now.Prepared?
    case Promoting => now.BackingUp? && (p.hadCatalog ==> d.catalog.None?)
    case WritingState => now.Promoting? && d.catalog.Some?
    case WritingProfile => now.WritingState?
    case Committed => now.WritingProfile? && AllNext(d.files, p.files)
  }

  function WithPhase(d: Disk, phase: Phase): Disk
    requires d.journal.Some?
  {
    d.(journal := Some(d.journal.value.(phase := phase)))
  }

  lemma PhaseMoves(d: Disk, p: Plan, phase: Phase)
    requires Inv(d, p) && d.journal.Some? && d.cursor.None? && MayEnter(d, p, phase)
    ensures Inv(WithPhase(d, phase), p) && d.journal.value.plan == p
    ensures CommitPoint(WithPhase(d, phase), p) == phase.Committed? && !CommitPoint(d, p)
  {
    hide CheckRecords, AllPrevious;
  }

  lemma BackupMoves(d: Disk, p: Plan)
    requires Inv(d, p) && d.journal.Some? && d.cursor.None? && d.journal.value.phase.BackingUp?
    requires p.hadCatalog ==> p.token !in d.backups
    ensures p.hadCatalog ==>
              d.catalog.Some? && Inv(d.(catalog := None, backups := d.backups[p.token := d.catalog.value]), p)
  {
    hide CheckRecords, AllPrevious;
  }

  lemma NothingToReplace(d: Disk, p: Plan)
    requires Inv(d, p) && d.journal.Some? && d.cursor.None? && d.journal.value.phase.BackingUp?
    ensures !p.hadCatalog ==> d.catalog.None?
  {
    hide CheckRecords, AllPrevious;
  }

  lemma CandidateMoves(d: Disk, p: Plan)
    requires Inv(d, p) && d.journal.Some? && d.cursor.None? && d.journal.value.phase.Promoting? && d.catalog.None?
    ensures p.token in d.candidates
    ensures Inv(d.(catalog := Some(d.candidates[p.token]), candidates := d.candidates - {p.token}), p)
  {
    hide CheckRecords, AllPrevious;
  }

  /** promote has completed. */
  ghost predicate Promoted(d: Disk, own: Option<Journal>, p: Plan) {
    && Going(d, own, p) && d.journal.value.phase.WritingState? && WellFormed(p)
    && State in d.files && d.files[State] == p.files[State].next
    && Mapping in d.files && d.files[Mapping] == p.files[Mapping].next
  }

  lemma PutNext(d: Disk, p: Plan, k: Kind)
    requires Inv(d, p) && d.journal.Some? && d.cursor.None?
    requires d.journal.value.phase.WritingState? || d.journal.value.phase.WritingProfile?
    ensures d.journal.value.plan == p && WellFormed(p) && k in p.files && CheckRecord(d.files, k, p.files[k])
    ensures Inv(d.(files := Put(d.files, k, p.files[k], false)), p)
  {
  }

  lemma AllWritten(d: Disk, p: Plan)
    requires WellFormed(p)
    requires State in d.files && d.files[State] == p.files[State].next
    requires Mapping in d.files && d.files[Mapping] == p.files[Mapping].next
    requires Profile in d.files && d.files[Profile] == p.files[Profile].next
    ensures AllNext(d.files, p.files)
  {
    forall k | k in p.files ensures k in d.files && d.files[k] == p.files[k].next {
      match k
      case State =>
      case Mapping =>
      case Profile =>
    }
  }

  // Staging.

  predicate Unused(d: Disk, token: nat) {
    && token !in d.candidates && token !in d.backups && token !in d.retired
    && token !in d.rolledBack && token !in d.committed && token !in d.doneCursors
  }

  function CatalogTree(d: Disk): Tree {
    if d.catalog.Some? then d.catalog.value else map[]
  }

  /** No two packages claim one identity, and no identity is empty. */
  predicate UniqueIds(tree: Tree) {
    && (forall a, b :: a in tree && b in tree && a != b && tree[a].id.Some? ==> tree[a].id != tree[b].id)
    && (forall a :: a in tree && tree[a].id.Some? ==> tree[a].id.value != "")
  }

  /** The directories that claim an identity. */
  function Holders(tree: Tree, extension: string): set<string> {
    set a | a in tree && tree[a].id == Some(extension)
  }

  /** What stage asks of the catalog, the package and what is registered so far. */
  predicate Stageable(d: Disk, extension: string, packageName: string, package: Package,
                      registered: Option<(string, map<string, string>)>) {
    var tree := CatalogTree(d);
    && d.journal.None? && package.id == Some(extension) && UniqueIds(tree)
    && (if Holders(tree, extension) != {} then
          && Holders(tree, extension) == {packageName} && packageName in tree
          && registered == Some((packageName, tree[packageName].inventory))
        else registered.None? && packageName !in tree)
  }

  function NextTree(tree: Tree, packageName: string, package: Package): Tree {
    (tree - {packageName})[packageName := package]
  }

  function RecordOf(files: map<Kind, string>, k: Kind, next: string): Record {
    if k in files then Record(true, files[k], next) else Record(false, "", next)
  }

  function PlanFor(d: Disk, token: nat, packageName: string, package: Package, contents: map<Kind, string>): Plan
    requires State in contents && Mapping in contents && Profile in contents
  {
    Plan(token, d.catalog.Some?, CatalogTree(d), NextTree(CatalogTree(d), packageName, package),
         map[State := RecordOf(d.files, State, contents[State]),
             Mapping := RecordOf(d.files, Mapping, contents[Mapping]),
             Profile := RecordOf(d.files, Profile, contents[Profile])])
  }

  /**
    What staging insists on: identities are unique, nobody else holds this one, and a
    package is only replaced when it is, file by file, the one that was registered.
  */
  lemma StageableMeans(d: Disk, extension: string, packageName: string, package: Package,
                       registered: Option<(string, map<string, string>)>)
    ensures var tree: Tree := if d.catalog.Some? then d.catalog.value else map[];
            Stageable(d, extension, packageName, package, registered) <==>
              && d.journal.None? && package.id == Some(extension)
              && (forall a, b :: a in tree && b in tree && tree[a].id.Some? && tree[a].id == tree[b].id ==> a == b)
              && (forall a :: a in tree ==> tree[a].id != Some(""))
              && (forall a :: a in tree && tree[a].id == Some(extension) ==> a == packageName)
              && (if packageName in tree then
                    tree[packageName].id == Some(extension) && registered == Some((packageName, tree[packageName].inventory))
                  else registered.None?)
  {
    var tree := CatalogTree(d);
    assert packageName in tree && tree[packageName].id == Some(extension) ==> packageName in Holders(tree, extension);
    if forall a :: a in tree && tree[a].id == Some(extension) ==> a == packageName {
      assert Holders(tree, extension) <= {packageName};
    } else {
      var a :| a in tree && tree[a].id == Some(extension) && a != packageName;
      assert a in Holders(tree, extension);
    }
    assert UniqueIds(tree) ==> forall a, b :: a in tree && b in tree && tree[a].id.Some? && tree[a].id == tree[b].id ==> a == b;
  }

  /** Publishing a package changes nothing else in the catalog and keeps identities unique. */
  lemma NextTreeIsMinimal(tree: Tree, extension: string, packageName: string, package: Package)
    requires UniqueIds(tree) && Holders(tree, extension) <= {packageName}
    requires package.id == Some(extension) && extension != ""
    ensures var next := NextTree(tree, packageName, package);
            && UniqueIds(next) && Holders(next, extension) == {packageName} && packageName in next && next[packageName] == package
            && (forall a :: a != packageName ==> (a in next <==> a in tree) && (a in tree ==> next[a] == tree[a]))
  {
    var next := NextTree(tree, packageName, package);
    forall a | a in tree && a != packageName ensures tree[a].id != Some(extension) {
      assert tree[a].id == Some(extension) ==> a in Holders(tree, extension);
    }
  }

  /** Everything a settled, committed transaction leaves: the old catalog stays as its backup, the journal as its record. */
  ghost predicate AllNew(d: Disk, p: Plan) {
    && d.journal.None? && d.cursor.None? && d.catalog == Some(p.next) && AllNext(d.files, p.files)
    && p.token !in d.candidates && p.token !in d.rolledBack && p.token !in d.doneCursors
    && (if p.hadCatalog then p.token in d.backups && d.backups[p.token] == p.previous else p.token !in d.backups)
    && p.token in d.committed && d.committed[p.token] == Journal(p, Committed)
  }

  /** Everything a settled, undone transaction leaves: the candidate stays, journal and cursor as its record. */
  ghost predicate AllOld(d: Disk, p: Plan) {
    && d.journal.None? && d.cursor.None?
    && d.catalog == (if p.hadCatalog then Some(p.previous) else None)
    && AllPrevious(d.files, p.files)
    && p.token in d.candidates && d.candidates[p.token] == p.next && p.token !in d.backups && p.token !in d.committed
    && p.token in d.rolledBack && d.rolledBack[p.token].plan == p && p.token in d.doneCursors
  }

  /** The disk after a committed registration, as a function of the disk before it. */
  ghost function CommittedDisk(before: Disk, p: Plan, packageName: string, contents: map<Kind, string>): Disk {
    before.(catalog := Some(p.next), files := contents,
            backups := if p.hadCatalog then before.backups[p.token := p.previous] else before.backups,
            retired := RetiredBy(before, p, packageName),
            committed := before.committed[p.token := Journal(p, Committed)])
  }

  /** The disk after one that was undone; `j` is its journal as far as it got. */
  ghost function UndoneDisk(before: Disk, p: Plan, packageName: string, j: Journal): Disk {
    before.(candidates := before.candidates[p.token := p.next],
            retired := RetiredBy(before, p, packageName),
            rolledBack := before.rolledBack[p.token := j], doneCursors := before.doneCursors + {p.token})
  }

  /** The package that is replaced is set aside. */
  ghost function RetiredBy(before: Disk, p: Plan, packageName: string): map<nat, Package> {
    if packageName in p.previous then before.retired[p.token := p.previous[packageName]] else before.retired
  }

  lemma Settled(d: Disk, p: Plan)
    requires Inv(d, p) && d.journal.None? && d.cursor.None?
    ensures if CommitPoint(d, p) then AllNew(d, p) else AllOld(d, p)
  {
    hide AllNext, AllPrevious;
  }

  /** What nobody else touched and what the transaction leaves make up the whole disk. */
  lemma WholeDisk(before: Disk, staged: Disk, d: Disk, p: Plan, packageName: string, contents: map<Kind, string>)
    requires before.journal.None? && before.cursor.None? && Unused(before, p.token) && p.hadCatalog == before.catalog.Some?
    requires p.previous == CatalogTree(before)
    requires staged == before.(journal := staged.journal, candidates := before.candidates[p.token := p.next],
                               retired := RetiredBy(before, p, packageName))
    requires Elsewhere(staged, d, p.token)
    ensures AllNew(d, p) && d.files == contents ==> d == CommittedDisk(before, p, packageName, contents)
    ensures AllOld(d, p) && d.files == before.files ==> d == UndoneDisk(before, p, packageName, d.rolledBack[p.token])
  {
    hide AllNext, AllPrevious, SameBut;
    if AllNew(d, p) || AllOld(d, p) {
      OnlyThere(staged.candidates, d.candidates, p.token);
      OnlyThere(staged.backups, d.backups, p.token);
      OnlyThere(staged.rolledBack, d.rolledBack, p.token);
      OnlyThere(staged.committed, d.committed, p.token);
      assert before.candidates[p.token := p.next] - {p.token} == before.candidates;
      assert AllNew(d, p) ==> d.doneCursors == before.doneCursors;
      assert AllOld(d, p) ==> d.doneCursors == before.doneCursors + {p.token};
    }
  }

  lemma OnlyThere<T>(a: map<nat, T>, b: map<nat, T>, token: nat)
    requires SameBut(a, b, token)
    ensures b == if token in b then a[token := b[token]] else a - {token}
    ensures token !in a ==> a - {token} == a
  {
  }

  lemma StagedIsGoing(d: Disk, p: Plan)
    requires Inv(d, p) && d.journal.Some? && d.cursor.None?
    ensures d.journal.value.phase.Prepared? ==> Going(d, d.journal, p)
  {
  }

  lemma PlanCovers(before: Disk, token: nat, packageName: string, package: Package, contents: map<Kind, string>)
    requires State in contents && Mapping in contents && Profile in contents
    ensures WellFormed(PlanFor(before, token, packageName, package, contents))
    ensures forall k: Kind :: k in contents
    ensures forall k: Kind ::
              PlanFor(before, token, packageName, package, contents).files[k] == RecordOf(before.files, k, contents[k])
  {
    var p := PlanFor(before, token, packageName, package, contents);
    forall k: Kind ensures k in p.files && k in contents && p.files[k] == RecordOf(before.files, k, contents[k]) {
      match k
      case State =>
      case Mapping =>
      case Profile =>
    }
  }

  /** The records of a plan determine the three files. */
  lemma OnlyThreeFiles(before: Disk, token: nat, packageName: string, package: Package, contents: map<Kind, string>, after: Disk)
    requires State in contents && Mapping in contents && Profile in contents
    ensures var p := PlanFor(before, token, packageName, package, contents);
            && (AllNext(after.files, p.files) ==> after.files == contents)
            && (AllPrevious(after.files, p.files) ==> after.files == before.files)
  {
    PlanCovers(before, token, packageName, package, contents);
    hide PlanFor;
  }

  /** The disk with a freshly journaled plan satisfies the crash invariant. */
  lemma StagedInv(before: Disk, d: Disk, token: nat, packageName: string, package: Package, contents: map<Kind, string>)
    requires Unused(before, token) && before.cursor.None?
    requires State in contents && Mapping in contents && Profile in contents
    requires var p := PlanFor(before, token, packageName, package, contents);
             && d == before.(journal := Some(Journal(p, Prepared)), candidates := d.candidates, retired := d.retired)
             && token in d.candidates && d.candidates[token] == p.next
    ensures Inv(d, PlanFor(before, token, packageName, package, contents))
  {
    PlanCovers(before, token, packageName, package, contents);
  }

  lemma RecordsChecked(d: Disk, j: Journal, recovering: bool)
    requires ValidateJournal(d, j, recovering)
    ensures CheckRecords(d.files, j.plan.files)
  {
  }

  lemma CursorIsGood(d: Disk, p: Plan)
    requires Inv(d, p) && d.journal.Some?
    ensures ValidateJournal(d, d.journal.value, d.cursor.Some?)
    ensures d.journal.value.plan == p
    ensures d.cursor.Some? ==> d.cursor.value.journal == d.journal.value && d.cursor.value.token == p.token
  {
    NeverAmbiguous(d, p);
    hide ValidateJournal;
  }

  // ------------------------------------------------------ what is never touched

  ghost predicate SameBut<T>(a: map<nat, T>, b: map<nat, T>, token: nat) {
    forall n :: n != token ==> (n in a <==> n in b) && (n in a ==> a[n] == b[n])
  }

  /** Nothing of any other transaction has changed, no replaced package has gone, and no tree was lost or doubled. */
  ghost predicate Elsewhere(before: Disk, now: Disk, token: nat) {
    Others(before, now, token) && Trees(now, token) == Trees(before, token)
  }

  /** An archived record stays as it was written. */
  ghost predicate Recorded<T>(before: map<nat, T>, now: map<nat, T>, token: nat) {
    token in before ==> token in now && now[token] == before[token]
  }

  ghost predicate Others(before: Disk, now: Disk, token: nat) {
    && SameBut(before.candidates, now.candidates, token) && SameBut(before.backups, now.backups, token)
    && SameBut(before.rolledBack, now.rolledBack, token) && SameBut(before.committed, now.committed, token)
    && Recorded(before.rolledBack, now.rolledBack, token) && Recorded(before.committed, now.committed, token)
    && before.doneCursors <= now.doneCursors
    && (forall n :: n != token ==> (n in before.doneCursors <==> n in now.doneCursors))
    && now.retired == before.retired
  }

  /** A catalog that is not the one this transaction published. */
  predicate Foreign(d: Disk, p: Plan) {
    d.catalog.Some? && d.catalog.value != p.next
  }

  ghost function One<T>(m: map<nat, T>, token: nat): multiset<T> {
    if token in m then multiset{m[token]} else multiset{}
  }

  /** The trees of a transaction, wherever they are: moved about, never lost or doubled. */
  ghost function Trees(d: Disk, token: nat): multiset<Tree> {
    (if d.catalog.Some? then multiset{d.catalog.value} else multiset{}) + One(d.candidates, token) + One(d.backups, token)
  }

  /** What a rollback has to show before its journal is archived: the old catalog and the three old files. */
  ghost predicate RolledBackTo(d: Disk, j: Journal) {
    && d.journal.None? && d.cursor.None? && d.catalog == (if j.plan.hadCatalog then Some(j.plan.previous) else None)
    && j.plan.token !in d.backups && j.plan.token in d.rolledBack && d.rolledBack[j.plan.token] == j && j.plan.token in d.doneCursors
    && forall k :: k in j.plan.files ==>
         if j.plan.files[k].hadPrevious then k in d.files && d.files[k] == j.plan.files[k].previous else k !in d.files
  }

  /** The transaction that a recovery is about. */
  function TokenOf(d: Disk): nat {
    if d.journal.Some? then d.journal.value.plan.token else if d.cursor.Some? then d.cursor.value.token else 0
  }

  lemma ElsewhereTwice(a: Disk, b: Disk, c: Disk, token: nat)
    requires Elsewhere(a, b, token) && Elsewhere(b, c, token)
    ensures Elsewhere(a, c, token)
  {
    hide Trees;
  }

  lemma Undone1(d: Disk, token: nat, tree: Tree)
    requires d.catalog == Some(tree) && token !in d.candidates
    ensures Elsewhere(d, CatalogToCandidate(d, token, tree), token)
  {
    ChangedThere(d.candidates, token, tree);
    assert d.candidates[token := tree][token] == tree;
    hide SameBut;
    Alike(d, token);
  }

  lemma Undone2(d: Disk, token: nat, tree: Tree)
    requires d.catalog.None? && token in d.backups && d.backups[token] == tree
    ensures Elsewhere(d, BackupToCatalog(d, token, tree), token)
  {
    GoneThere(d.backups, token);
    hide SameBut;
    Alike(d, token);
  }

  lemma Done1(d: Disk, token: nat, tree: Tree)
    requires d.catalog == Some(tree) && token !in d.backups
    ensures Elsewhere(d, d.(catalog := None, backups := d.backups[token := tree]), token)
  {
    hide SameBut;
    ChangedThere(d.backups, token, tree);
    Alike(d, token);
  }

  lemma Done2(d: Disk, token: nat, tree: Tree)
    requires d.catalog.None? && token in d.candidates && d.candidates[token] == tree
    ensures Elsewhere(d, d.(catalog := Some(tree), candidates := d.candidates - {token}), token)
  {
    hide SameBut;
    GoneThere(d.candidates, token);
    Alike(d, token);
  }

  lemma GoneThere<T>(a: map<nat, T>, token: nat)
    ensures SameBut(a, a - {token}, token)
  {
  }

  lemma Alike(d: Disk, token: nat)
    ensures SameBut(d.candidates, d.candidates, token) && SameBut(d.backups, d.backups, token)
    ensures SameBut(d.rolledBack, d.rolledBack, token) && SameBut(d.committed, d.committed, token)
  {
  }

  lemma Unmoved(d: Disk, token: nat)
    ensures SameBut(d.candidates, d.candidates, token) && SameBut(d.retired, d.retired, token)
  {
  }

  lemma ChangedThere<T>(a: map<nat, T>, token: nat, x: T)
    ensures SameBut(a, a[token := x], token)
  {
  }

  lemma Overwritten<T>(a: map<nat, T>, token: nat, y: T, x: T)
    ensures a[token := y][token := x] == a[token := x]
  {
  }

  lemma TokenIsKnown(d: Disk, p: Plan)
    requires Inv(d, p)
    ensures d.journal.Some? || d.cursor.Some? ==> TokenOf(d) == p.token
  {
  }

  lemma StillElsewhere(a: Disk, b: Disk, c: Disk, token: nat)
    requires Elsewhere(a, b, token) && Elsewhere(b, c, TokenOf(b))
    requires if b.journal.None? && b.cursor.None? then c == b else TokenOf(b) == token
    ensures Elsewhere(a, c, token)
  {
    hide Elsewhere;
    if TokenOf(b) == token { ElsewhereTwice(a, b, c, token); }
  }

  lemma ArchivesElsewhere(d: Disk, token: nat, j: Journal)
    requires j.plan.token == token
    ensures token !in d.rolledBack ==> Elsewhere(d, JournalToRolledBack(d, j), token)
    ensures token !in d.committed ==> Elsewhere(d, JournalToCommitted(d, j), token)
  {
    ChangedThere(d.rolledBack, token, j);
    ChangedThere(d.committed, token, j);
    hide SameBut;
    Alike(d, token);
  }

  lemma CursorElsewhere(d: Disk, token: nat)
    ensures Elsewhere(d, CursorToDone(d, token), token)
  {
    hide SameBut;
    Alike(d, token);
  }

  lemma ProgressElsewhere(d: Disk, now: Disk, token: nat)
    requires now == d.(journal := now.journal, cursor := now.cursor, files := now.files)
    ensures Elsewhere(d, now, token)
  {
    hide SameBut;
    Alike(d, token);
  }

  // ------------------------------------------------------------ the transaction

  /** More operations than any single recovery performs. */
  const RECOVERY_OPERATIONS := 11

  /** Enough operations for the parts of a registration. */
  const STAGE_OPERATIONS := 5
  const SWAP_OPERATIONS := 5
  const PROMOTE_OPERATIONS := SWAP_OPERATIONS + 2
  const COMMIT_OPERATIONS := 3 + RECOVERY_OPERATIONS
  const REGISTER_OPERATIONS := STAGE_OPERATIONS + PROMOTE_OPERATIONS + COMMIT_OPERATIONS

  class Transaction {
    var disk: Disk
    var journal: Option<Journal>      // the transaction's own copy
    var budget: nat                   // file-system operations left before the process is killed

    constructor (disk: Disk, budget: nat)
      ensures this.disk == disk && this.budget == budget && journal.None?
    {
      this.disk, this.budget := disk, budget;
      journal := None;
    }

    /** One atomic change of the disk, unless the process is killed first. */
    method Apply(changed: Disk) returns (o: Outcome)
      modifies this`disk, this`budget
      ensures o == if old(budget) > 0 then Completed else Killed
      ensures o.Completed? ==> disk == changed && budget == old(budget) - 1
      ensures o.Killed? ==> disk == old(disk) && budget == 0
    {
      if budget == 0 {
        return Killed;
      }
      budget := budget - 1;
      disk := changed;
      o := Completed;
    }

    method SavePhase(phase: Phase) returns (o: Outcome)
      requires journal.Some?
      modifies this
      ensures o == if old(budget) > 0 then Completed else Killed
      ensures journal == Some(old(journal).value.(phase := phase))
      ensures o.Completed? ==> disk == old(disk).(journal := journal) && budget == old(budget) - 1
      ensures o.Killed? ==> disk == old(disk) && budget == 0
    {
      journal := Some(journal.value.(phase := phase));
      o := Apply(disk.(journal := journal));
    }

    /** Write one recorded file, new or previous; previous absence is restored by removal. */
    method PutRecord(k: Kind, r: Record, previous: bool) returns (o: Outcome)
      modifies this`disk, this`budget
      ensures o.Refused? <==> !CheckRecord(old(disk).files, k, r)
      ensures o.Completed? ==> disk == old(disk).(files := Put(old(disk).files, k, r, previous)) && budget >= old(budget) - 1
      ensures !o.Completed? ==> disk == old(disk)
      ensures o.Killed? ==> old(budget) == 0
      ensures budget <= old(budget)
    {
      o := Require(CheckRecord(disk.files, k, r));
      if o.IsFailure() {
        return;
      }
      if previous && !r.hadPrevious {
        if k in disk.files {
          :- Apply(disk.(files := disk.files - {k}));
        }
        return Completed;
      }
      o := Apply(disk.(files := disk.files[k := if previous then r.previous else r.next]));
    }

    /** The recovery cursor moves on. */
    method Advance(step: Step) returns (o: Outcome)
      requires disk.cursor.Some?
      modifies this`disk, this`budget
      ensures o == if old(budget) > 0 then Completed else Killed
      ensures o.Completed? ==> disk == old(disk).(cursor := Some(old(disk).cursor.value.(step := step))) && budget == old(budget) - 1
      ensures o.Killed? ==> disk == old(disk)
    {
      o := Apply(disk.(cursor := Some(disk.cursor.value.(step := step))));
    }

    /** Killed only for want of operations, and not wasteful with them. */
    twostate predicate Spends(o: Outcome, operations: nat)
      reads this
    {
      && (o.Completed? ==> budget + operations >= old(budget))
      && (o.Killed? ==> old(budget) < operations)
    }

    /** What every part of recovery keeps: the crash invariant, the absence of refusals, the commit decision. */
    twostate predicate Safe(p: Plan, o: Outcome, operations: nat)
      reads this
    {
      && (old(Inv(disk, p)) ==> Inv(disk, p) && !o.Refused? && CommitPoint(disk, p) == old(CommitPoint(disk, p)))
      && Spends(o, operations)
    }

    /** A move of recovery: only the places of the trees change. */
    twostate predicate OnlyTreesMoved()
      reads this
    {
      disk == old(disk).(catalog := disk.catalog, candidates := disk.candidates, backups := disk.backups)
    }

    method CatalogBack(j: Journal, ghost p: Plan) returns (o: Outcome)
      requires disk.journal == Some(j) && disk.cursor.Some? && disk.cursor.value.step.Unpromote?
      modifies this`disk, this`budget
      ensures Elsewhere(old(disk), disk, j.plan.token)
      ensures Foreign(old(disk), j.plan) ==> disk.catalog == old(disk).catalog
      ensures Safe(p, o, 1) && OnlyTreesMoved()
      ensures o.Completed? ==>
        disk.catalog.None? && j.plan.token in disk.candidates && disk.candidates[j.plan.token] == j.plan.next
    {
      hide Inv, Elsewhere;
      if Inv(disk, p) { UnpromoteMoves(disk, p); }
      var token, next := j.plan.token, j.plan.next;
      ProgressElsewhere(disk, disk, token);
      if disk.catalog.Some? {
        :- Require(token !in disk.candidates && disk.catalog.value == next);
        Undone1(disk, token, next);
        o := Apply(CatalogToCandidate(disk, token, next));
      } else {
        o := Require(token in disk.candidates && disk.candidates[token] == next);
      }
    }

    /** The catalog goes back to being the candidate. */
    method UndoPromotion(j: Journal, ghost p: Plan) returns (o: Outcome)
      requires disk.journal == Some(j) && disk.cursor.Some? && disk.cursor.value.step.Unpromote?
      modifies this`disk, this`budget
      ensures Elsewhere(old(disk), disk, j.plan.token)
      ensures Foreign(old(disk), j.plan) ==> disk.catalog == old(disk).catalog
      ensures Safe(p, o, 2)
      ensures o.Completed? ==> disk.journal == Some(j) && disk.cursor == Some(old(disk).cursor.value.(step := Restore))
      ensures o.Completed? ==> disk.files == old(disk).files
    {
      hide Inv, Elsewhere;
      ghost var good := Inv(disk, p);
      :- CatalogBack(j, p);
      if good { UnpromoteAdvances(disk, p); }
      ghost var middle := disk;
      o := Advance(Restore);
      ProgressElsewhere(middle, disk, j.plan.token);
      ElsewhereTwice(old(disk), middle, disk, j.plan.token);
    }

    method BackupBack(j: Journal, ghost p: Plan) returns (o: Outcome)
      requires disk.journal == Some(j) && disk.cursor.Some? && disk.cursor.value.step.Restore?
      modifies this`disk, this`budget
      ensures Elsewhere(old(disk), disk, j.plan.token)
      ensures old(disk).catalog.Some? ==> disk.catalog == old(disk).catalog
      ensures Safe(p, o, 1) && OnlyTreesMoved()
      ensures o.Completed? && old(Inv(disk, p)) ==> p.token !in disk.backups
    {
      hide Inv, Elsewhere;
      if Inv(disk, p) { RestoreMoves(disk, p); }
      var token, previous := j.plan.token, j.plan.previous;
      ProgressElsewhere(disk, disk, token);
      if !j.plan.hadCatalog {
        o := Require(disk.catalog.None?);
      } else if token in disk.backups {
        :- Require(disk.catalog.None? && disk.backups[token] == previous);
        Undone2(disk, token, previous);
        o := Apply(BackupToCatalog(disk, token, previous));
      } else {
        o := Require(disk.catalog == Some(previous));
      }
    }

    /** The backup goes back to being the catalog, or the catalog is proved to be the old one. */
    method RestoreCatalog(j: Journal, ghost p: Plan) returns (o: Outcome)
      requires disk.journal == Some(j) && disk.cursor.Some? && disk.cursor.value.step.Restore?
      modifies this`disk, this`budget
      ensures Elsewhere(old(disk), disk, j.plan.token)
      ensures old(disk).catalog.Some? ==> disk.catalog == old(disk).catalog
      ensures Safe(p, o, 2)
      ensures o.Completed? ==> disk.journal == Some(j) && disk.cursor == Some(old(disk).cursor.value.(step := Files))
      ensures o.Completed? ==> disk.files == old(disk).files
    {
      hide Inv, Elsewhere;
      ghost var good := Inv(disk, p);
      :- BackupBack(j, p);
      if good { RestoreAdvances(disk, p); }
      ghost var middle := disk;
      o := Advance(Files);
      ProgressElsewhere(middle, disk, j.plan.token);
      ElsewhereTwice(old(disk), middle, disk, j.plan.token);
    }

    method PutPreviousFiles(j: Journal, ghost p: Plan) returns (o: Outcome)
      requires disk.journal == Some(j) && disk.cursor.Some? && disk.cursor.value.step.Files?
      requires CheckRecords(disk.files, j.plan.files)
      modifies this`disk, this`budget
      ensures Safe(p, o, 3)
      ensures disk == old(disk).(files := disk.files)
      ensures o.Completed? ==>
        var files := j.plan.files;
        disk.files == Put(Put(Put(old(disk).files, State, files[State], true), Mapping, files[Mapping], true), Profile, files[Profile], true)
    {
      hide Inv, CommitPoint, CheckRecord, Put;
      var files := j.plan.files;
      ghost var good := Inv(disk, p);
      if good { FilesStep(disk, p); PutPrevious(disk, p, State); }
      :- PutRecord(State, files[State], true);
      if good { PutPrevious(disk, p, Mapping); }
      :- PutRecord(Mapping, files[Mapping], true);
      if good { PutPrevious(disk, p, Profile); }
      o := PutRecord(Profile, files[Profile], true);
    }

    /** The three files go back to their recorded contents or absence. */
    method RestoreFiles(j: Journal, ghost p: Plan) returns (o: Outcome)
      requires disk.journal == Some(j) && disk.cursor.Some? && disk.cursor.value.step.Files?
      requires CheckRecords(disk.files, j.plan.files)
      modifies this`disk, this`budget
      ensures Elsewhere(old(disk), disk, j.plan.token)
      ensures Foreign(old(disk), j.plan) ==> disk.catalog == old(disk).catalog
      ensures disk == old(disk).(files := disk.files, cursor := disk.cursor)
      ensures Safe(p, o, 4)
      ensures o.Completed? ==> disk.journal == Some(j) && disk.cursor == Some(old(disk).cursor.value.(step := Done))
    {
      hide Inv, CheckRecords, Elsewhere;
      ghost var good := Inv(disk, p);
      ghost var before := disk.files;
      if good { FilesStep(disk, p); }
      o := PutPreviousFiles(j, p);
      ProgressElsewhere(old(disk), disk, j.plan.token);
      if o.IsFailure() {
        return;
      }
      if good { FilesAdvance(disk, p, before); }
      o := Advance(Done);
      ProgressElsewhere(old(disk), disk, j.plan.token);
    }

    /** The restored selection is confirmed and the journal archived. */
    method ArchiveJournal(j: Journal, ghost p: Plan) returns (o: Outcome)
      requires disk.journal == Some(j) && disk.cursor.Some? && disk.cursor.value.step.Done?
      modifies this`disk, this`budget
      ensures Elsewhere(old(disk), disk, j.plan.token)
      ensures Safe(p, o, 1)
      ensures o.Completed? ==> disk == JournalToRolledBack(old(disk), j) && AllPrevious(disk.files, j.plan.files)
      ensures disk.catalog == old(disk).catalog
      ensures o.Completed? && old(Inv(disk, p)) ==>
        && j.plan.token !in disk.doneCursors && Inv(CursorToDone(disk, j.plan.token), p)
        && !CommitPoint(disk, p) && !CommitPoint(CursorToDone(disk, j.plan.token), p)
    {
      hide Inv, AllPrevious, Elsewhere;
      var token := j.plan.token;
      ProgressElsewhere(disk, disk, token);
      if Inv(disk, p) { ArchiveMoves(disk, p, j); }
      hide CommitPoint;
      ArchivesElsewhere(disk, token, j);
      :- Require(AllPrevious(disk.files, j.plan.files) && token !in disk.rolledBack);
      o := Apply(JournalToRolledBack(disk, j));
    }

    /** Journal and cursor are archived, in that order. */
    method Archive(j: Journal, ghost p: Plan) returns (o: Outcome)
      requires disk.journal == Some(j) && disk.cursor.Some? && disk.cursor.value.step.Done?
      modifies this
      ensures Elsewhere(old(disk), disk, j.plan.token)
      ensures Safe(p, o, 2)
      ensures o.Completed? ==>
        && disk == CursorToDone(JournalToRolledBack(old(disk), j), j.plan.token) && AllPrevious(disk.files, j.plan.files)
        && journal.None?
      ensures disk.catalog == old(disk).catalog
    {
      hide Inv, AllPrevious, Elsewhere, CommitPoint;
      var token := j.plan.token;
      o := ArchiveJournal(j, p);
      if o.IsFailure() {
        return;
      }
      CursorElsewhere(disk, token);
      ElsewhereTwice(old(disk), disk, CursorToDone(disk, token), token);
      o := ArchiveCursor(token);
      if o.Completed? {
        journal := None;
      }
    }

    /** The cursor of a finished rollback goes to its archive. */
    method ArchiveCursor(token: nat) returns (o: Outcome)
      modifies this`disk, this`budget
      ensures o.Refused? <==> token in old(disk).doneCursors
      ensures o.Killed? ==> old(budget) == 0
      ensures o.Completed? ==> disk == CursorToDone(old(disk), token) && budget + 1 >= old(budget)
      ensures !o.Completed? ==> disk == old(disk)
    {
      o := Require(token !in disk.doneCursors);
      if o.IsFailure() {
        return;
      }
      o := Apply(CursorToDone(disk, token));
    }

    /** The steps of a rollback from wherever its cursor stands. */
    method RollBack(j: Journal, ghost p: Plan) returns (o: Outcome)
      requires disk.journal == Some(j) && disk.cursor.Some? && CheckRecords(disk.files, j.plan.files)
      modifies this
      ensures Elsewhere(old(disk), disk, j.plan.token)
      ensures Foreign(old(disk), j.plan) ==> disk.catalog == old(disk).catalog
      ensures Safe(p, o, 10)
      ensures o.Completed? ==> disk.journal.None? && disk.cursor.None?
      ensures o.Completed? ==> RolledBackTo(disk, j) && journal.None?
    {
      hide Inv, CheckRecords, Elsewhere, CommitPoint;
      o := CatalogRestored(j, p);
      if o.IsFailure() {
        return;
      }
      ghost var middle := disk;
      if Inv(disk, p) { FilesCheck(disk, p); }
      :- Require(j.plan.token !in disk.backups &&
                 disk.catalog == if j.plan.hadCatalog then Some(j.plan.previous) else None);
      if disk.cursor.value.step.Files? {
        o := RestoreFiles(j, p);
        ElsewhereTwice(old(disk), middle, disk, j.plan.token);
        if o.IsFailure() {
          return;
        }
      }
      middle := disk;
      o := Archive(j, p);
      ElsewhereTwice(old(disk), middle, disk, j.plan.token);
    }

    /** The part of a rollback that moves the trees. */
    method CatalogRestored(j: Journal, ghost p: Plan) returns (o: Outcome)
      requires disk.journal == Some(j) && disk.cursor.Some? && CheckRecords(disk.files, j.plan.files)
      modifies this
      ensures Elsewhere(old(disk), disk, j.plan.token)
      ensures Foreign(old(disk), j.plan) ==> disk.catalog == old(disk).catalog
      ensures Safe(p, o, 4)
      ensures o.Completed? ==> disk.journal == Some(j) && disk.cursor.Some? && disk.files == old(disk).files
      ensures o.Completed? ==> disk.cursor.value.step.Files? || disk.cursor.value.step.Done?
    {
      hide Inv, CheckRecords, Elsewhere, CommitPoint;
      ProgressElsewhere(disk, disk, j.plan.token);
      if disk.cursor.value.step.Unpromote? {
        o := UndoPromotion(j, p);
        if o.IsFailure() {
          return;
        }
      }
      ghost var middle := disk;
      if disk.cursor.value.step.Restore? {
        o := RestoreCatalog(j, p);
        ElsewhereTwice(old(disk), middle, disk, j.plan.token);
        if o.IsFailure() {
          return;
        }
      }
      o := Completed;
    }

    /** A committed journal is archived; nothing is undone. */
    method ArchiveCommitted(j: Journal, ghost p: Plan) returns (o: Outcome)
      requires disk.journal == Some(j) && disk.cursor.None? && j.phase.Committed?
      modifies this
      ensures Elsewhere(old(disk), disk, j.plan.token)
      ensures Foreign(old(disk), j.plan) ==> disk.catalog == old(disk).catalog
      ensures Safe(p, o, 1)
      ensures o.Completed? ==> disk.journal.None? && disk.cursor.None? && journal.None?
      ensures o.Completed? ==> disk == JournalToCommitted(old(disk), j)
    {
      if Inv(disk, p) { CommittedMoves(disk, p, j); }
      hide Inv, Elsewhere;
      ProgressElsewhere(disk, disk, j.plan.token);
      ArchivesElsewhere(disk, j.plan.token, j);
      :- Require(j.plan.token !in disk.committed);
      :- Apply(JournalToCommitted(disk, j));
      journal := None;
      o := Completed;
    }

    /** The cursor of a new rollback is made durable before anything is undone. */
    method StartRollback(j: Journal, ghost p: Plan) returns (o: Outcome)
      requires disk.journal == Some(j) && disk.cursor.None? && !j.phase.Committed?
      modifies this`disk, this`budget
      ensures Elsewhere(old(disk), disk, j.plan.token)
      ensures Foreign(old(disk), j.plan) ==> disk.catalog == old(disk).catalog
      ensures Safe(p, o, 1)
      ensures o.Completed? ==> disk.journal == Some(j) && disk.cursor.Some? && disk.files == old(disk).files
    {
      if Inv(disk, p) { RollbackStarts(disk, p, j); }
      hide Inv, FirstStep, Elsewhere;
      o := Apply(disk.(cursor := Some(Cursor(j.plan.token, j, FirstStep(disk, j)))));
      ProgressElsewhere(old(disk), disk, j.plan.token);
    }

    /** recover: undo or finish whatever the journal says was under way. */
    method Recover(ghost p: Plan) returns (o: Outcome)
      modifies this
      ensures Elsewhere(old(disk), disk, TokenOf(old(disk)))
      ensures old(disk).journal.Some? && Foreign(old(disk), old(disk).journal.value.plan) ==> disk.catalog == old(disk).catalog
      ensures o.Completed? && old(disk).journal.Some? && !old(disk).journal.value.phase.Committed? ==>
                RolledBackTo(disk, old(disk).journal.value)
      ensures Safe(p, o, RECOVERY_OPERATIONS)
      ensures o.Completed? ==> disk.journal.None? && disk.cursor.None?
      ensures old(disk).journal.Some? &&
              (!ValidateJournal(old(disk), old(disk).journal.value, old(disk).cursor.Some?) ||
               (old(disk).cursor.Some? &&
                old(disk).cursor.value != Cursor(old(disk).journal.value.plan.token, old(disk).journal.value, old(disk).cursor.value.step))) ==>
                o.Refused? && disk == old(disk)
      ensures o.Completed? && old(disk).journal.Some? ==> journal.None?
      ensures old(disk).journal.None? && old(disk).cursor.None? ==> o.Completed? && disk == old(disk)
      ensures old(disk).journal.None? && old(disk).cursor.Some? ==>
                (o.Refused? <==> !Orphan(old(disk), old(disk).cursor.value)) &&
                disk == if o.Completed? then CursorToDone(old(disk), old(disk).cursor.value.token) else old(disk)
    {
      hide Inv, Orphan, ValidateJournal, CommitPoint, CheckRecords, Elsewhere;
      ProgressElsewhere(disk, disk, TokenOf(disk));
      if disk.journal.None? {
        o := RecoverCursor(p);
        return;
      }
      if Inv(disk, p) { CursorIsGood(disk, p); }
      var j := disk.journal.value;
      if disk.cursor.Some? {
        var c := disk.cursor.value;
        :- Require(c.journal == j && c.token == j.plan.token && ValidateJournal(disk, j, true));
        RecordsChecked(disk, j, true);
      } else {
        :- Require(ValidateJournal(disk, j, false));
        RecordsChecked(disk, j, false);
        if j.phase.Committed? {
          o := ArchiveCommitted(j, p);
          return;
        }
        o := StartRollback(j, p);
        if o.IsFailure() {
          return;
        }
      }
      journal := Some(j);
      ghost var middle := disk;
      o := RollBack(j, p);
      ElsewhereTwice(old(disk), middle, disk, j.plan.token);
    }

    /** No journal: at most an orphaned cursor of a finished rollback is left to archive. */
    method RecoverCursor(ghost p: Plan) returns (o: Outcome)
      requires disk.journal.None?
      modifies this
      ensures Elsewhere(old(disk), disk, TokenOf(old(disk)))
      ensures Safe(p, o, 1)
      ensures o.Completed? ==> disk.journal.None? && disk.cursor.None?
      ensures old(disk).cursor.None? ==> o.Completed? && disk == old(disk)
      ensures old(disk).cursor.Some? ==>
                var c := old(disk).cursor.value;
                && (o.Refused? <==> !Orphan(old(disk), c))
                && disk == (if o.Completed? then old(disk).(cursor := None, doneCursors := old(disk).doneCursors + {c.token}) else old(disk))
                && (o.Refused? <==>
                      || c != Cursor(c.token, c.journal, Done)
                      || (c.token, c.journal) !in old(disk).rolledBack.Items
                      || c.token in old(disk).doneCursors)
    {
      hide Elsewhere;
      ProgressElsewhere(disk, disk, TokenOf(disk));
      if disk.cursor.Some? {
        var c := disk.cursor.value;
        CursorElsewhere(disk, c.token);
        :- Require(Orphan(disk, c));
        :- Apply(CursorToDone(disk, c.token));
      }
      o := Completed;
    }

    // ---------------------------------------------------------------- forward

    /** What promote and commit keep while the transaction has not been committed. */
    twostate predicate Ahead(p: Plan, o: Outcome)
      reads this
    {
      old(Going(disk, journal, p)) ==> Inv(disk, p) && !o.Refused? && !CommitPoint(disk, p)
    }

    /** Set the old catalog aside. */
    method SetAside(ghost p: Plan) returns (o: Outcome)
      requires journal.Some?
      modifies this
      ensures Elsewhere(old(disk), disk, old(journal).value.plan.token)
      ensures old(Going(disk, journal, p) && journal.value.phase.Prepared?) ==>
                && Ahead(p, o)
                && (o.Completed? ==> Going(disk, journal, p) && journal.value.phase.BackingUp? && (p.hadCatalog ==> disk.catalog.None?))
      ensures Spends(o, 2)
      ensures journal.Some? && journal.value.plan == old(journal).value.plan
    {
      hide Inv, Elsewhere;
      ghost var good := Going(disk, journal, p) && journal.value.phase.Prepared?;
      var plan := journal.value.plan;
      var token := plan.token;
      if good { PreparedFacts(disk, p); PhaseMoves(disk, p, BackingUp); }
      o := SavePhase(BackingUp);
      ghost var middle := disk;
      ProgressElsewhere(old(disk), disk, token);
      if o.IsFailure() {
        return;
      }
      if good { BackupMoves(disk, p); }
      if plan.hadCatalog {
        :- Require(token !in disk.backups && disk.catalog.Some?);
        Done1(disk, token, disk.catalog.value);
        ElsewhereTwice(old(disk), disk, disk.(catalog := None, backups := disk.backups[token := disk.catalog.value]), token);
        o := Apply(disk.(catalog := None, backups := disk.backups[token := disk.catalog.value]));
      }
    }

    /** Put the candidate in its place. */
    method PutInPlace(ghost p: Plan) returns (o: Outcome)
      requires journal.Some?
      modifies this
      ensures Elsewhere(old(disk), disk, old(journal).value.plan.token)
      ensures old(Going(disk, journal, p) && journal.value.phase.BackingUp? && (p.hadCatalog ==> disk.catalog.None?)) ==>
                Ahead(p, o) && (o.Completed? ==> Going(disk, journal, p) && journal.value.phase.WritingState?)
      ensures Spends(o, 3)
      ensures journal.Some? && journal.value.plan == old(journal).value.plan
    {
      hide Inv, Elsewhere;
      ghost var good := Going(disk, journal, p) && journal.value.phase.BackingUp? && (p.hadCatalog ==> disk.catalog.None?);
      var token := journal.value.plan.token;
      if good { NothingToReplace(disk, p); PhaseMoves(disk, p, Promoting); }
      o := SavePhase(Promoting);
      ProgressElsewhere(old(disk), disk, token);
      if o.IsFailure() {
        return;
      }
      if good { CandidateMoves(disk, p); }
      :- Require(disk.catalog.None? && token in disk.candidates);
      Done2(disk, token, disk.candidates[token]);
      ElsewhereTwice(old(disk), disk, disk.(catalog := Some(disk.candidates[token]), candidates := disk.candidates - {token}), token);
      o := Apply(disk.(catalog := Some(disk.candidates[token]), candidates := disk.candidates - {token}));
      if o.IsFailure() {
        return;
      }
      if good { PhaseMoves(disk, p, WritingState); }
      ghost var middle := disk;
      o := SavePhase(WritingState);
      ProgressElsewhere(middle, disk, token);
      ElsewhereTwice(old(disk), middle, disk, token);
    }

    /** Set the old catalog aside and put the candidate in its place. */
    method SwapCatalog(ghost p: Plan) returns (o: Outcome)
      requires journal.Some?
      modifies this
      ensures Elsewhere(old(disk), disk, old(journal).value.plan.token)
      ensures old(Going(disk, journal, p) && journal.value.phase.Prepared?) ==>
                Ahead(p, o) && (o.Completed? ==> Going(disk, journal, p) && journal.value.phase.WritingState?)
      ensures Spends(o, SWAP_OPERATIONS)
      ensures journal.Some? && journal.value.plan == old(journal).value.plan
    {
      hide Inv, Elsewhere, CommitPoint;
      o := SetAside(p);
      if o.IsFailure() {
        return;
      }
      ghost var middle := disk;
      o := PutInPlace(p);
      ElsewhereTwice(old(disk), middle, disk, old(journal).value.plan.token);
    }

    /** promote: the catalog is swapped, then registrations and environment mapping are written. */
    method Promote(ghost p: Plan) returns (o: Outcome)
      requires journal.Some?
      modifies this
      ensures Elsewhere(old(disk), disk, old(journal).value.plan.token)
      ensures old(Going(disk, journal, p) && journal.value.phase.Prepared?) ==>
                Ahead(p, o) && (o.Completed? ==> Promoted(disk, journal, p))
      ensures Spends(o, PROMOTE_OPERATIONS)
    {
      hide Inv, ValidateJournal, Elsewhere;
      ProgressElsewhere(disk, disk, journal.value.plan.token);
      ghost var good := Going(disk, journal, p) && journal.value.phase.Prepared?;
      if good { CursorIsGood(disk, p); }
      :- Require(ValidateJournal(disk, journal.value, false));
      RecordsChecked(disk, journal.value, false);
      :- SwapCatalog(p);
      ghost var middle := disk;
      o := WriteTwo(p);
      ProgressElsewhere(middle, disk, journal.value.plan.token);
      ElsewhereTwice(old(disk), middle, disk, journal.value.plan.token);
    }

    /** The registrations and the environment mapping. */
    method WriteTwo(ghost p: Plan) returns (o: Outcome)
      requires journal.Some? && State in journal.value.plan.files && Mapping in journal.value.plan.files
      modifies this`disk, this`budget
      ensures disk == old(disk).(files := disk.files)
      ensures old(Going(disk, journal, p) && journal.value.phase.WritingState?) ==>
                Ahead(p, o) && (o.Completed? ==> Promoted(disk, journal, p))
      ensures Spends(o, 2)
    {
      hide Inv;
      ghost var good := Going(disk, journal, p) && journal.value.phase.WritingState?;
      if good { NotYet(disk, journal, p); }
      var files := journal.value.plan.files;
      if good { PutNext(disk, p, State); }
      :- PutRecord(State, files[State], false);
      if good { PutNext(disk, p, Mapping); }
      o := PutRecord(Mapping, files[Mapping], false);
    }

    /** The profile, then the word "committed". */
    method WriteLast(ghost p: Plan) returns (o: Outcome)
      requires journal.Some? && Profile in journal.value.plan.files
      modifies this
      ensures disk == old(disk).(files := disk.files, journal := disk.journal)
      ensures journal.Some? && journal.value.plan == old(journal).value.plan
      ensures o.Completed? ==> disk.journal == journal
      ensures old(Promoted(disk, journal, p)) ==> Inv(disk, p) && !o.Refused? && (o.Completed? ==> CommitPoint(disk, p))
      ensures Spends(o, 3)
    {
      hide Inv;
      ghost var good := Promoted(disk, journal, p);
      if good { PhaseMoves(disk, p, WritingProfile); }
      :- SavePhase(WritingProfile);
      if good { PutNext(disk, p, Profile); }
      :- PutRecord(Profile, journal.value.plan.files[Profile], false);
      if good { AllWritten(disk, p); PhaseMoves(disk, p, Committed); }
      o := SavePhase(Committed);
    }

    /** commit: the profile is written and "committed" journaled; the archive step may fail without undoing that. */
    method Commit(ghost p: Plan) returns (o: Outcome)
      requires journal.Some?
      modifies this
      ensures Elsewhere(old(disk), disk, old(journal).value.plan.token)
      ensures old(Promoted(disk, journal, p)) ==>
                && Inv(disk, p) && !o.Refused?
                && (o.Completed? ==> CommitPoint(disk, p) && AllNew(disk, p))
                && Spends(o, COMMIT_OPERATIONS)
    {
      hide Inv, ValidateJournal, Elsewhere;
      ProgressElsewhere(disk, disk, journal.value.plan.token);
      ghost var good := Promoted(disk, journal, p);
      if good { CursorIsGood(disk, p); }
      :- Require(ValidateJournal(disk, journal.value, false));
      RecordsChecked(disk, journal.value, false);
      o := WriteLast(p);
      ghost var middle := disk;
      ProgressElsewhere(old(disk), disk, journal.value.plan.token);
      if o.IsFailure() {
        return;
      }
      var archived := Recover(p);
      ElsewhereTwice(old(disk), middle, disk, old(journal).value.plan.token);
      o := if archived.Killed? then Killed else Completed;
      if good && o.Completed? { Settled(disk, p); }
    }

    /** The candidate: a copy of the catalog with this extension's package replaced or added. */
    method Assemble(token: nat, extension: string, packageName: string, package: Package,
                    registered: Option<(string, map<string, string>)>) returns (o: Outcome)
      requires Unused(disk, token)
      modifies this`disk, this`budget
      ensures disk == old(disk).(candidates := disk.candidates, retired := disk.retired)
      ensures SameBut(old(disk).candidates, disk.candidates, token) && SameBut(old(disk).retired, disk.retired, token)
      ensures o.Completed? ==>
        && disk.candidates == old(disk).candidates[token := NextTree(CatalogTree(disk), packageName, package)]
        && disk.retired == (if packageName in CatalogTree(disk)
                            then old(disk).retired[token := CatalogTree(disk)[packageName]] else old(disk).retired)
        && UniqueIds(CatalogTree(disk)) && Holders(CatalogTree(disk), extension) <= {packageName}
      ensures Spends(o, STAGE_OPERATIONS - 1)
      ensures disk.journal.None? && package.id == Some(extension) && !o.Killed? ==>
        (o.Completed? <==> Stageable(old(disk), extension, packageName, package, registered))
    {
      hide UniqueIds, SameBut;
      var tree := CatalogTree(disk);
      Unmoved(disk, token);
      o := Apply(disk.(candidates := disk.candidates[token := map[]]));
      ChangedThere(old(disk).candidates, token, map[]);
      if o.IsFailure() {
        return;
      }
      o := Apply(disk.(candidates := disk.candidates[token := tree]));
      ChangedThere(old(disk).candidates, token, tree);
      Overwritten(old(disk).candidates, token, map[], tree);
      if o.IsFailure() {
        return;
      }
      assert disk.candidates == old(disk).candidates[token := tree];
      :- Require(UniqueIds(tree));
      var holders := Holders(tree, extension);
      hide Holders;
      if holders != {} {
        :- Require(holders == {packageName} && packageName in tree);
        :- Require(registered == Some((packageName, tree[packageName].inventory)));
        o := Apply(disk.(candidates := disk.candidates[token := tree - {packageName}],
                         retired := disk.retired[token := tree[packageName]]));
        ChangedThere(old(disk).candidates, token, tree - {packageName});
        Overwritten(old(disk).candidates, token, tree, tree - {packageName});
        ChangedThere(old(disk).retired, token, tree[packageName]);
        if o.IsFailure() {
          return;
        }
      } else {
        :- Require(registered.None? && packageName !in tree);
      }
      o := Apply(disk.(candidates := disk.candidates[token := NextTree(tree, packageName, package)]));
      ChangedThere(old(disk).candidates, token, NextTree(tree, packageName, package));
      Overwritten(old(disk).candidates, token, tree, NextTree(tree, packageName, package));
      Overwritten(old(disk).candidates, token, tree - {packageName}, NextTree(tree, packageName, package));
    }

    /**
      stage: build the candidate tree beside the catalog and journal the plan.
      `registered` is what the state file says is registered for this extension;
      `contents` are the three files as they shall read.
    */
    method Stage(token: nat, extension: string, packageName: string, package: Package,
                 registered: Option<(string, map<string, string>)>, contents: map<Kind, string>) returns (o: Outcome)
      requires Unused(disk, token) && State in contents && Mapping in contents && Profile in contents
      modifies this
      ensures disk == old(disk).(journal := disk.journal, candidates := disk.candidates, retired := disk.retired)
      ensures SameBut(old(disk).candidates, disk.candidates, token) && SameBut(old(disk).retired, disk.retired, token)
      ensures !o.Completed? ==> disk.journal == old(disk).journal
      ensures o.Completed? ==>
        && old(disk).journal.None?
        && journal == disk.journal == Some(Journal(PlanFor(old(disk), token, packageName, package, contents), Prepared))
        && package.id == Some(extension) && UniqueIds(CatalogTree(old(disk)))
        && Holders(CatalogTree(old(disk)), extension) <= {packageName}
        && disk.candidates == old(disk).candidates[token := NextTree(CatalogTree(old(disk)), packageName, package)]
        && disk.retired == RetiredBy(old(disk), journal.value.plan, packageName)
        && (old(disk).cursor.None? ==> Inv(disk, journal.value.plan))
      ensures Spends(o, STAGE_OPERATIONS)
      ensures !o.Killed? ==> (o.Completed? <==> Stageable(old(disk), extension, packageName, package, registered))
    {
      hide Inv, UniqueIds, Holders;
      :- Require(disk.journal.None?);
      :- Assemble(token, extension, packageName, package, registered);
      :- Require(package.id == Some(extension));
      journal := Some(Journal(PlanFor(disk, token, packageName, package, contents), Prepared));
      :- Apply(disk.(journal := journal));
      if old(disk).cursor.None? {
        StagedInv(old(disk), disk, token, packageName, package, contents);
      }
      o := Completed;
    }

    /** Any number of later starts, each killed after its own number of operations, until one recovery completes. */
    method RecoverUntilSettled(ghost p: Plan, boots: seq<nat>) returns (settled: bool)
      requires Inv(disk, p)
      modifies this
      ensures Inv(disk, p) && CommitPoint(disk, p) == old(CommitPoint(disk, p)) && Elsewhere(old(disk), disk, p.token)
      ensures settled ==> if CommitPoint(disk, p) then AllNew(disk, p) else AllOld(disk, p)
      ensures (exists i :: 0 <= i < |boots| && boots[i] >= RECOVERY_OPERATIONS) ==> settled
      ensures old(disk).journal.None? && old(disk).cursor.None? ==> disk == old(disk)
    {
      hide Inv, CommitPoint, Elsewhere;
      ProgressElsewhere(disk, disk, p.token);
      var i := 0;
      while i < |boots|
        invariant 0 <= i <= |boots|
        invariant Inv(disk, p) && CommitPoint(disk, p) == old(CommitPoint(disk, p)) && Elsewhere(old(disk), disk, p.token)
        invariant forall k :: 0 <= k < i ==> boots[k] < RECOVERY_OPERATIONS
        invariant old(disk).journal.None? && old(disk).cursor.None? ==> disk == old(disk)
      {
        budget := boots[i];
        ghost var before := disk;
        TokenIsKnown(disk, p);
        var o := Recover(p);
        StillElsewhere(old(disk), before, disk, p.token);
        if o.Completed? {
          Settled(disk, p);
          return true;
        }
        i := i + 1;
      }
      settled := false;
    }

    /**
      One registration from stage to commit, killed anywhere, then any number of
      recoveries killed anywhere: once a recovery completes, catalog and files are
      all new or exactly what they were before.
    */
    method Register(token: nat, extension: string, packageName: string, package: Package,
                    registered: Option<(string, map<string, string>)>, contents: map<Kind, string>, boots: seq<nat>)
      returns (staged: bool, committed: bool, settled: bool)
      requires Unused(disk, token) && State in contents && Mapping in contents && Profile in contents && disk.cursor.None?
      modifies this
      ensures (committed ==> staged) && (settled ==> staged)
      ensures !staged ==> disk.catalog == old(disk).catalog && disk.files == old(disk).files
      ensures staged && settled ==>
        var p := PlanFor(old(disk), token, packageName, package, contents);
        || disk == CommittedDisk(old(disk), p, packageName, contents)
        || (!committed && exists j :: disk == UndoneDisk(old(disk), p, packageName, j))
      ensures staged && (exists i :: 0 <= i < |boots| && boots[i] >= RECOVERY_OPERATIONS) ==> settled
      ensures Stageable(old(disk), extension, packageName, package, registered) && old(budget) >= REGISTER_OPERATIONS ==>
        committed && disk == CommittedDisk(old(disk), PlanFor(old(disk), token, packageName, package, contents), packageName, contents)
    {
      hide Stageable, Inv, Elsewhere, AllNew, AllOld, CommittedDisk, UndoneDisk, NextTree, Unused, Going;
      var o := Stage(token, extension, packageName, package, registered, contents);
      staged, committed, settled := o.Completed?, false, false;
      if !staged {
        return;
      }
      ghost var p, start := journal.value.plan, disk;
      StagedIsGoing(disk, p);
      o := PromoteAndCommit(p);
      committed := o.Completed?;
      ghost var middle := disk;
      if committed { NewRests(disk, p); }
      settled := RecoverUntilSettled(p, boots);
      ElsewhereTwice(start, middle, disk, token);
      Concluded(old(disk), start, disk, token, packageName, package, contents);
      assert AllOld(disk, p) ==> exists j :: disk == UndoneDisk(old(disk), p, packageName, j);
    }

    /** The forward run from a staged journal to a journaled commit. */
    method PromoteAndCommit(ghost p: Plan) returns (o: Outcome)
      requires Going(disk, journal, p) && journal.value.phase.Prepared?
      modifies this
      ensures Inv(disk, p) && !o.Refused? && Elsewhere(old(disk), disk, p.token)
      ensures o.Completed? ==> CommitPoint(disk, p) && AllNew(disk, p)
      ensures Spends(o, PROMOTE_OPERATIONS + COMMIT_OPERATIONS)
    {
      hide Inv, Elsewhere, CommitPoint, AllNew;
      OwnPlan(disk, journal, p);
      o := Promote(p);
      if o.IsFailure() {
        return;
      }
      ghost var middle := disk;
      OwnPlan(disk, journal, p);
      o := Commit(p);
      ElsewhereTwice(old(disk), middle, disk, p.token);
    }
  }

  lemma NewRests(d: Disk, p: Plan)
    requires AllNew(d, p)
    ensures d.journal.None? && d.cursor.None?
  {
  }

  lemma NotYet(d: Disk, own: Option<Journal>, p: Plan)
    requires Going(d, own, p)
    ensures p.token !in d.committed && WellFormed(p)
  {
  }

  lemma OwnPlan(d: Disk, own: Option<Journal>, p: Plan)
    requires Going(d, own, p)
    ensures own.Some? && own.value.plan == p
  {
  }

  /** A registration that has settled, seen from its beginning. */
  lemma Concluded(before: Disk, staged: Disk, d: Disk, token: nat, packageName: string, package: Package, contents: map<Kind, string>)
    requires before.journal.None? && before.cursor.None? && Unused(before, token)
    requires State in contents && Mapping in contents && Profile in contents
    requires var p := PlanFor(before, token, packageName, package, contents);
             && staged == before.(journal := staged.journal, candidates := before.candidates[token := p.next],
                                  retired := RetiredBy(before, p, packageName))
    requires Elsewhere(staged, d, token)
    ensures var p := PlanFor(before, token, packageName, package, contents);
            && (AllNew(d, p) ==> d == CommittedDisk(before, p, packageName, contents))
            && (AllOld(d, p) ==> exists j :: d == UndoneDisk(before, p, packageName, j))
  {
    var p := PlanFor(before, token, packageName, package, contents);
    OnlyThreeFiles(before, token, packageName, package, contents, d);
    hide AllNext, AllPrevious, Elsewhere, Unused, NextTree;
    WholeDisk(before, staged, d, p, packageName, contents);
  }

  function Put(files: map<Kind, string>, k: Kind, r: Record, previous: bool): map<Kind, string> {
    if previous && !r.hadPrevious then files - {k}
    else files[k := if previous then r.previous else r.next]
  }
}
