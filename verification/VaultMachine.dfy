/**
 The write-through protocol of `persist_with_vault_write` as a labelled step machine.

 Any number of writers, in any number of processes, put pages to one slug. One action is one
 system call or one SQL statement; actions of different writers interleave freely, outsiders may
 replace the target file at any point, a process may be killed at any point, the machine may lose
 power at any point, and a recovery started by a leftover sentinel runs beside the writers.
*/
module VaultMachine {
  import opened Wrappers

  /** The `write_id` of one put (a fresh UUID in the source). */
  type Id = nat

  /**
   What stays fixed during a run: the digest, and five measures of which the code as shipped takes
   none. `COMMIT` syncs the write-ahead log; recovery syncs the vault directory after it has read the
   file; recovery holds the database's write lock from before it reads the file until it has written
   the row; a directory made for a vault file is synced into the one that holds it; so is the
   recovery directory.
  */
  datatype Config = Config(
    sha: Bytes -> string,
    syncOnCommit: bool, syncDirOnRecover: bool, lockOnRecover: bool, syncNewFolders: bool, syncRecoveryDir: bool)

  // ── The vault file ───────────────────────────────────────────

  /** Who produced a directory entry. `Settled` entries were there, in agreement, at the start. */
  datatype Author = Settled | Writer(id: Id) | Outsider

  /** What the directory says about the target name. `stamp` stands for mtime and ctime. */
  datatype Entry =
    | Missing(author: Author)
    | Regular(inode: nat, stamp: nat, bytes: Bytes, author: Author)
    | Symlink(inode: nat, stamp: nat, author: Author)

  /** The columns of a `file_state` row that are compared with the disk. */
  datatype FileState = FileState(inode: nat, stamp: nat, size: nat, sha: string)

  /** A directory: not there, made since the one that holds it was last synced, or sure to survive power loss. */
  datatype Folder = Absent | Fresh | Durable

  /** `mkdir` of what is missing. */
  function Made(folder: Folder, synced: bool): Folder {
    if !folder.Absent? then folder else if synced then Durable else Fresh
  }

  function AfterPowerLoss(folder: Folder, emptied: bool): Folder {
    if !folder.Fresh? then folder else if emptied then Absent else Durable
  }

  // ── The database ─────────────────────────────────────────────

  /**
   The page row with the rows committed beside it. Every page column is computed from the raw
   bytes, so `content` stands for all of them.
  */
  datatype Row = Row(version: nat, content: Bytes, fileState: FileState, rawActive: Bytes, jobPending: bool)

  datatype Change =
    | Put(id: Id, expected: Option<nat>, version: nat, bytes: Bytes, hashed: Bytes)
    | Reconciled(row: Option<Row>)

  /** One committed database image; `log` lists the transactions it contains. */
  datatype Db = Db(row: Option<Row>, log: seq<Change>)

  /** Who holds the database's write lock. */
  datatype Lock = Free | Held(w: Id) | HeldByRecovery

  // ── Writers ──────────────────────────────────────────────────

  datatype PutError =
    | MissingExpectedVersion | StaleExpectedVersion
    | ExternalDelete | ExternalCreate | HashMismatch | TargetIsSymlink
    | DbError | OccConflict(currentVersion: nat)
    | SentinelError | IoError | DuplicateDedup
    | RecoveryPending | ConcurrentRename

  datatype Outcome = Stored(created: bool, version: nat)

  /** Where a writer stands; each name says what has just been done. */
  datatype Phase =
    | VersionRead | VersionChecked | PreconditionChecked
    | Begun | Staged
    | SentinelCreated | SentinelDurable
    | TempWritten | TempIdentified | SymlinkChecked
    | DedupHeld | SelfRemembered
    | Renamed | ParentSynced | TargetStatted | TargetHashed | Verified
    | Committed | DedupReleased
    | UndoTemp(why: PutError, clearsKey: bool) | UndoTracking(why: PutError) | UndoSentinel(why: PutError)
    | UndoRenamed(why: PutError)
    | Done(result: Result<Outcome, PutError>)
    | Dead

  /**
   One put. `staged` is the version the SQL statement wrote, `outcome` the version the code
   returns; they are computed from different reads. `tempInode`, `seen` and `hashed` are what the
   writer learnt about its temporary file and about the target after the rename.
  */
  datatype Writing = Writing(
    proc: nat, bytes: Bytes, expected: Option<nat>, read: Option<nat>, phase: Phase,
    staged: nat, outcome: Outcome, tempInode: nat, seen: FileState, hashed: Bytes)

  // ── Recovery ─────────────────────────────────────────────────

  /** What a full-hash reconcile decides for the page, from the file it found and the row it found. */
  datatype Plan =
    | Unchanged(seen: FileState)
    | Changed(seen: FileState, bytes: Bytes)
    | Created(seen: FileState, bytes: Bytes)
    | Removed
    | Nothing

  /** Where the recovery stands; `listed` are the sentinels it has found and will unlink. */
  datatype Recovery =
    | Idle
    | Listed(listed: set<Id>)
    | Marked(listed: set<Id>)
    | FileRead(listed: set<Id>, found: Entry, plan: Plan)
    | DirSynced(listed: set<Id>, found: Entry, plan: Plan)
    | Applied(listed: set<Id>)

  datatype RecoveryStep =
    | ListSentinels | MarkDirty | ReadTarget | SyncVaultDir | ApplyPlan | UnlinkListed(failed: set<Id>) | GiveUp

  // ── The state ────────────────────────────────────────────────

  /**
   `db` is the latest committed image and `olderDbs` the images power loss may bring back
   (committed, but the write-ahead log was not synced since). `dir` is the history of the target's
   directory entry since the directory was last synced: its last element is what the running
   system sees, and power loss may leave any of them. `folder` is the directory that holds the
   target, `recoveryDir` the one that holds the sentinels. `sentinels` are the sentinel files visible
   in the running system, `durable` those sure to survive power loss if their directory does, and
   `mayReturn` those power loss can leave behind, because an unlink need not have reached the disk.
  */
  datatype State = State(
    db: Db, olderDbs: seq<Db>,
    dir: seq<Entry>, folder: Folder, recoveryDir: Folder,
    sentinels: set<Id>, durable: set<Id>, mayReturn: set<Id>,
    temps: set<Id>,
    dedup: set<(nat, string)>,
    lock: Lock,
    recovery: Recovery,
    puts: map<Id, Writing>)
  {
    predicate At(w: Id, ph: Phase) { w in puts && puts[w].phase == ph }

    function Target(): Entry
      requires dir != []
    {
      dir[|dir| - 1]
    }
  }

  /** One system call or SQL statement of a put; a flag says whether the call succeeds. */
  datatype Op =
    | CheckVersion
    | CheckPrecondition(ok: bool)
    | BeginTx(ok: bool)
    | StageRow(ok: bool)
    | CreateSentinel
    | SyncSentinel
    | FailSentinel(created: bool, unlinked: bool)
    | WriteTemp(inode: nat)
    | FailTemp(created: bool)
    | IdentifyTemp(ok: bool)
    | CheckSymlink(ok: bool)
    | InsertDedup
    | RememberSelf(ok: bool)
    | RenameTemp(stamp: nat, ok: bool)
    | SyncParent(ok: bool)
    | StatTarget(ok: bool)
    | HashTarget(linked: Bytes, ok: bool)
    | VerifyTarget
    | CommitTx(ok: bool)
    | ReleaseDedup
    | DropSentinel(unlinked: bool)
    | UnlinkTemp(unlinked: bool)
    | ClearTracking
    | RemoveSentinel(unlinked: bool)
    | ReportFailure

  datatype Action =
    | Start(w: Id, proc: nat, bytes: Bytes, expected: Option<nat>)
    | Own(w: Id, op: Op)
    // the surroundings
    | Kill(proc: nat)
    | PowerLoss(entry: Entry, image: Db, kept: set<Id>)
    | Foreign(entry: Entry)
    | RemoveFolder
    | WriteBack
    | WriteBackFolders
    | Checkpoint
    | Recover(step: RecoveryStep)

  // ── Guards and effects read off the code ─────────────────────

  predicate Finished(ph: Phase) { ph.Done? || ph.Dead? }

  /** The phases during which a writer owns the `BEGIN IMMEDIATE` lock. */
  predicate InTx(ph: Phase) {
    || ph.Begun? || ph.Staged? || ph.SentinelCreated? || ph.SentinelDurable? || ph.TempWritten? || ph.TempIdentified?
    || ph.SymlinkChecked? || ph.DedupHeld? || ph.SelfRemembered? || ph.Renamed? || ph.ParentSynced?
    || ph.TargetStatted? || ph.TargetHashed? || ph.Verified?
  }

  /** The phases during which a put works in the directory it has opened. */
  predicate UsesFolder(ph: Phase) { !ph.VersionRead? && !ph.VersionChecked? && !Finished(ph) }

  /** `with_write_slug_lock`: inside one process the puts to a slug run one at a time. */
  predicate SlugLockFree(s: State, proc: nat) {
    forall v :: v in s.puts && s.puts[v].proc == proc ==> Finished(s.puts[v].phase)
  }

  /** `check_update_expected_version`. */
  function CheckUpdateExpectedVersion(current: Option<nat>, expected: Option<nat>): Result<(), PutError> {
    match (current, expected)
    case (Some(_), None) => Err(MissingExpectedVersion)
    case (Some(c), Some(e)) => if c != e then Err(StaleExpectedVersion) else Ok(())
    case (None, _) => Ok(())
  }

  datatype FsOutcome = FastPath | SlowPathSelfHeal | FreshCreate

  /** `inspect_fs_precondition_with_parent_fd`. */
  function InspectPrecondition(sha: Bytes -> string, stored: Option<FileState>, entry: Entry)
    : Result<FsOutcome, PutError>
  {
    if entry.Symlink? then Err(TargetIsSymlink)
    else match (stored, entry)
      case (None, Missing(_)) => Ok(FreshCreate)
      case (Some(_), Missing(_)) => Err(ExternalDelete)
      case (None, _) => Err(ExternalCreate)
      case (Some(f), Regular(inode, stamp, bytes, _)) =>
        if inode == f.inode && stamp == f.stamp && |bytes| == f.size then Ok(FastPath)
        else if sha(bytes) == f.sha then Ok(SlowPathSelfHeal)
        else Err(HashMismatch)
      case _ => Err(TargetIsSymlink)
  }

  function StoredFileState(row: Option<Row>): Option<FileState> {
    if row.Some? then Some(row.value.fileState) else None
  }

  /**
   `stage_page_record`: `INSERT` fails on the unique key, the compare-and-swap `UPDATE` touches no
   row when the version moved. The result pairs the version the SQL wrote with the reported one.
  */
  function StagePageRecord(p: Writing, row: Option<Row>): Result<(nat, Outcome), PutError> {
    match p.read
    case None => if row.Some? then Err(DbError) else Ok((1, Stored(true, 1)))
    case Some(current) =>
      if row.Some? && (p.expected.Some? ==> row.value.version == p.expected.value) then
        Ok((row.value.version + 1, Stored(false, current + 1)))
      else
        Err(OccConflict(current))
  }

  /** The three comparisons after the rename: size, inode and digest. */
  predicate TargetMatches(sha: Bytes -> string, p: Writing) {
    p.seen.size == |p.bytes| && p.seen.inode == p.tempInode && sha(p.hashed) == sha(p.bytes)
  }

  function RowOf(c: Config, p: Writing): Row {
    Row(p.staged, p.bytes, p.seen.(sha := c.sha(p.bytes)), p.bytes, true)
  }

  function DbAfterPut(c: Config, db: Db, w: Id, p: Writing): Db {
    Db(Some(RowOf(c, p)), db.log + [Put(w, p.expected, p.outcome.version, p.bytes, p.hashed)])
  }

  /** `COMMIT`: without a log sync the previous image may come back after power loss. */
  function Publish(c: Config, s: State, db: Db): State {
    s.(db := db, olderDbs := if c.syncOnCommit then [] else s.olderDbs + [s.db])
  }

  function Key(c: Config, p: Writing): (nat, string) { (p.proc, c.sha(p.bytes)) }

  // ── Operations of a put ──────────────────────────────────────

  /** The program order: what `op` of writer `w` may follow. */
  predicate CanDo(s: State, w: Id, op: Op) {
    && s.dir != [] && w in s.puts
    && var ph := s.puts[w].phase;
       match op
       case CheckVersion => ph.VersionRead?
       case CheckPrecondition(_) => ph.VersionChecked?
       case BeginTx(ok) => ph.PreconditionChecked? && (ok ==> s.lock.Free?)
       case StageRow(_) => ph.Begun?
       case CreateSentinel => ph.Staged?
       case SyncSentinel => ph.SentinelCreated?
       case FailSentinel(created, _) => if created then ph.SentinelCreated? else ph.Staged?
       case WriteTemp(_) => ph.SentinelDurable?
       case FailTemp(_) => ph.SentinelDurable?
       case IdentifyTemp(_) => ph.TempWritten?
       case CheckSymlink(_) => ph.TempIdentified?
       case InsertDedup => ph.SymlinkChecked?
       case RememberSelf(_) => ph.DedupHeld?
       case RenameTemp(_, _) => ph.SelfRemembered?
       case SyncParent(_) => ph.Renamed?
       case StatTarget(ok) => ph.ParentSynced? && (ok ==> !s.Target().Missing?)
       case HashTarget(_, ok) => ph.TargetStatted? && (ok ==> !s.Target().Missing?)
       case VerifyTarget => ph.TargetHashed?
       case CommitTx(_) => ph.Verified?
       case ReleaseDedup => ph.Committed?
       case DropSentinel(_) => ph.DedupReleased?
       case UnlinkTemp(_) => ph.UndoTemp?
       case ClearTracking => ph.UndoTracking?
       case RemoveSentinel(_) => ph.UndoSentinel?
       case ReportFailure => ph.UndoRenamed?
  }

  /** The put after `op`: what it has learnt and where it stands. */
  function Moved(c: Config, s: State, w: Id, op: Op): (q: Writing)
    requires CanDo(s, w, op)
    ensures q.proc == s.puts[w].proc && q.bytes == s.puts[w].bytes
    ensures q.expected == s.puts[w].expected && q.read == s.puts[w].read
  {
    var p := s.puts[w];
    match op
    case CheckVersion =>
      var r := CheckUpdateExpectedVersion(p.read, p.expected);
      p.(phase := if r.Ok? then VersionChecked else Done(Err(r.error)))
    case CheckPrecondition(ok) =>
      var r := InspectPrecondition(c.sha, StoredFileState(s.db.row), s.Target());
      p.(phase := if !ok then Done(Err(IoError)) else if r.Ok? then PreconditionChecked else Done(Err(r.error)))
    case BeginTx(ok) => p.(phase := if ok then Begun else Done(Err(DbError)))
    case StageRow(ok) =>
      var r := StagePageRecord(p, s.db.row);
      if !ok then p.(phase := Done(Err(DbError)))
      else if r.Err? then p.(phase := Done(Err(r.error)))
      else p.(phase := Staged, staged := r.value.0, outcome := r.value.1)
    case CreateSentinel => p.(phase := SentinelCreated)
    case SyncSentinel => p.(phase := SentinelDurable)
    case FailSentinel(_, _) => p.(phase := Done(Err(SentinelError)))
    case WriteTemp(inode) => p.(phase := TempWritten, tempInode := inode)
    case FailTemp(_) => p.(phase := UndoTemp(IoError, true))
    case IdentifyTemp(ok) =>
      // The bare `?`: dropping the transaction rolls back, the temp file and the sentinel stay.
      p.(phase := if ok then TempIdentified else Done(Err(IoError)))
    case CheckSymlink(ok) =>
      // A target that cannot be statted passes.
      p.(phase := if ok && s.Target().Symlink? then UndoTemp(IoError, true) else SymlinkChecked)
    case InsertDedup => p.(phase := if Key(c, p) in s.dedup then UndoTemp(DuplicateDedup, false) else DedupHeld)
    case RememberSelf(ok) => p.(phase := if ok then SelfRemembered else UndoTemp(IoError, true))
    case RenameTemp(_, ok) => p.(phase := if ok then Renamed else UndoTemp(IoError, true))
    case SyncParent(ok) => p.(phase := if ok then ParentSynced else UndoRenamed(RecoveryPending))
    case StatTarget(ok) =>
      var t := s.Target();
      if !ok then p.(phase := UndoRenamed(RecoveryPending))
      else p.(phase := TargetStatted, seen := FileState(t.inode, t.stamp, if t.Regular? then |t.bytes| else 0, ""))
    case HashTarget(linked, ok) =>
      // `hash_file` opens by path, so a symlink hands over whatever it points to.
      var t := s.Target();
      if !ok then p.(phase := UndoRenamed(RecoveryPending))
      else p.(phase := TargetHashed, hashed := if t.Regular? then t.bytes else linked)
    case VerifyTarget => p.(phase := if TargetMatches(c.sha, p) then Verified else UndoRenamed(ConcurrentRename))
    case CommitTx(ok) => p.(phase := if ok then Committed else UndoRenamed(RecoveryPending))
    case ReleaseDedup => p.(phase := DedupReleased)
    case DropSentinel(_) => p.(phase := Done(Ok(p.outcome)))
    case UnlinkTemp(_) =>
      p.(phase := if p.phase.clearsKey then UndoTracking(p.phase.why) else UndoSentinel(p.phase.why))
    case ClearTracking => p.(phase := UndoSentinel(p.phase.why))
    case RemoveSentinel(_) => p.(phase := Done(Err(p.phase.why)))
    case ReportFailure => p.(phase := Done(Err(p.phase.why)))
  }

  /** The transaction is open from `BEGIN` to `COMMIT`; every failure in between rolls it back. */
  function LockAfter(lock: Lock, w: Id, before: Phase, after: Phase): Lock {
    if InTx(after) then Held(w) else if InTx(before) then Free else lock
  }

  /** What the directory of the target says after `op`. */
  function DirAfter(s: State, w: Id, op: Op): (dir: seq<Entry>)
    requires CanDo(s, w, op)
    ensures dir != []
  {
    var p := s.puts[w];
    match op
    case RenameTemp(stamp, ok) => if ok then s.dir + [Regular(p.tempInode, stamp, p.bytes, Writer(w))] else s.dir
    case SyncParent(ok) => if ok then [s.Target()] else s.dir
    case _ => s.dir
  }

  /** `walk_to_parent_create_dirs` makes the directories of the target before the file is checked. */
  function FolderAfter(c: Config, s: State, op: Op): Folder {
    if op.CheckPrecondition? && op.ok then Made(s.folder, c.syncNewFolders) else s.folder
  }

  /** `create_recovery_sentinel` makes its directory first. */
  function RecoveryDirAfter(c: Config, s: State, op: Op): Folder {
    if op.CreateSentinel? then Made(s.recoveryDir, c.syncRecoveryDir) else s.recoveryDir
  }

  predicate MakesSentinel(op: Op) { op.CreateSentinel? || op.SyncSentinel? }

  predicate UnlinksSentinel(op: Op) { (op.FailSentinel? || op.DropSentinel? || op.RemoveSentinel?) && op.unlinked }

  function SentinelsAfter(ids: set<Id>, w: Id, makes: bool, unlinks: bool): set<Id> {
    if makes then ids + {w} else if unlinks then ids - {w} else ids
  }

  function TempsAfter(s: State, w: Id, op: Op): set<Id> {
    match op
    case WriteTemp(_) => s.temps + {w}
    case FailTemp(created) => if created then s.temps + {w} else s.temps
    case RenameTemp(_, ok) => if ok then s.temps - {w} else s.temps
    case UnlinkTemp(unlinked) => if unlinked then s.temps - {w} else s.temps
    case _ => s.temps
  }

  function DedupAfter(c: Config, s: State, p: Writing, op: Op): set<(nat, string)> {
    match op
    case InsertDedup => s.dedup + {Key(c, p)}
    case ReleaseDedup => s.dedup - {Key(c, p)}
    case ClearTracking => s.dedup - {Key(c, p)}
    case ReportFailure => s.dedup - {Key(c, p)}
    case _ => s.dedup
  }

  function Do(c: Config, s: State, w: Id, op: Op): State
    requires CanDo(s, w, op)
  {
    var p, q := s.puts[w], Moved(c, s, w, op);
    var t := s.(
      puts := s.puts[w := q], lock := LockAfter(s.lock, w, p.phase, q.phase),
      dir := DirAfter(s, w, op), folder := FolderAfter(c, s, op), recoveryDir := RecoveryDirAfter(c, s, op),
      sentinels := SentinelsAfter(s.sentinels, w, MakesSentinel(op), UnlinksSentinel(op)),
      // an unlink makes a sentinel uncertain at once; only a failed unlink keeps it
      durable := SentinelsAfter(s.durable, w, op.SyncSentinel?, UnlinksSentinel(op)),
      mayReturn := SentinelsAfter(s.mayReturn, w, MakesSentinel(op), false),
      temps := TempsAfter(s, w, op), dedup := DedupAfter(c, s, p, op));
    if op.CommitTx? && op.ok then Publish(c, t, DbAfterPut(c, s.db, w, p)) else t
  }

  // ── Steps of recovery ────────────────────────────────────────

  /** `build_full_hash_plan` for the page: the walk skips symlinks, the stored digest decides. */
  function PlanFor(c: Config, row: Option<Row>, entry: Entry): Plan {
    match entry
    case Regular(inode, stamp, bytes, _) =>
      var seen := FileState(inode, stamp, |bytes|, c.sha(bytes));
      if row.None? then Created(seen, bytes)
      else if row.value.fileState.sha == seen.sha then Unchanged(seen)
      else Changed(seen, bytes)
    case _ => if row.Some? then Removed else Nothing
  }

  /**
   `apply_full_hash_metadata_self_heal` and `apply_reconciliation`, on the row as it is by then. An
   unchanged file has its stat and digest recorded again; a changed one is skipped if its page is gone.
  */
  function RowAfterPlan(plan: Plan, row: Option<Row>): Option<Row> {
    match plan
    case Unchanged(seen) => if row.Some? then Some(row.value.(fileState := seen)) else None
    case Changed(seen, bytes) => if row.Some? then Some(Row(row.value.version + 1, bytes, seen, bytes, true)) else None
    case Created(seen, bytes) =>
      Some(Row(if row.Some? then row.value.version + 1 else 1, bytes, seen, bytes, true))
    case Removed => None
    case Nothing => row
  }

  /** A page whose version stays is not logged as changed. */
  function DbAfterPlan(db: Db, plan: Plan): Db {
    var row := RowAfterPlan(plan, db.row);
    if row.None? == db.row.None? && (row.Some? ==> row.value.version == db.row.value.version) then Db(row, db.log)
    else Db(row, db.log + [Reconciled(row)])
  }

  /** Recovery writes to the database, so it has to wait for the write lock; with `lockOnRecover` it keeps it. */
  predicate MayWrite(c: Config, s: State) { if c.lockOnRecover then s.lock.HeldByRecovery? else s.lock.Free? }

  predicate CanRecover(c: Config, s: State, step: RecoveryStep) {
    match step
    case ListSentinels => s.recovery.Idle? && s.sentinels != {}
    case MarkDirty => s.recovery.Listed? && s.lock.Free?
    case ReadTarget => s.recovery.Marked? && s.dir != []
    case SyncVaultDir => s.recovery.FileRead? && c.syncDirOnRecover && s.dir != []
    case ApplyPlan =>
      && (if c.syncDirOnRecover then s.recovery.DirSynced? else s.recovery.FileRead?) && MayWrite(c, s)
      // the recorded stat refers to the page, which has to be there
      && (s.recovery.plan.Unchanged? ==> s.db.row.Some?)
    case UnlinkListed(_) => s.recovery.Applied?
    case GiveUp => !s.recovery.Idle?
  }

  function Recovered(c: Config, s: State, step: RecoveryStep): State
    requires CanRecover(c, s, step)
  {
    match step
    case ListSentinels => s.(recovery := Listed(s.sentinels))
    case MarkDirty =>
      s.(recovery := Marked(s.recovery.listed), lock := if c.lockOnRecover then HeldByRecovery else Free)
    case ReadTarget =>
      s.(recovery := FileRead(s.recovery.listed, s.Target(), PlanFor(c, s.db.row, s.Target())))
    case SyncVaultDir =>
      s.(recovery := DirSynced(s.recovery.listed, s.recovery.found, s.recovery.plan), dir := [s.Target()])
    case ApplyPlan =>
      Publish(c, s, DbAfterPlan(s.db, s.recovery.plan)).(recovery := Applied(s.recovery.listed), lock := Free)
    case UnlinkListed(failed) =>
      var gone := s.recovery.listed - failed;
      s.(recovery := Idle, sentinels := s.sentinels - gone, durable := s.durable - gone)
    case GiveUp => s.(recovery := Idle, lock := if s.lock.HeldByRecovery? then Free else s.lock)
  }

  // ── All steps ────────────────────────────────────────────────

  /** What power loss may leave under the target name: with the directory that holds it, the file goes. */
  predicate MayLeave(s: State, e: Entry) {
    e in s.dir || (s.dir != [] && s.folder.Fresh? && !s.Target().Missing? && e == Missing(Settled))
  }

  predicate MayKeep(s: State, kept: set<Id>) {
    s.durable <= kept <= s.mayReturn || (s.recoveryDir.Fresh? && kept == {})
  }

  predicate Enabled(c: Config, s: State, a: Action) {
    s.dir != [] &&
    match a
    case Start(w, proc, _, _) => w !in s.puts && SlugLockFree(s, proc)
    case Own(w, op) => CanDo(s, w, op)
    case Kill(_) => true
    case PowerLoss(entry, image, kept) =>
      MayLeave(s, entry) && (image == s.db || image in s.olderDbs) && MayKeep(s, kept)
    case Foreign(entry) => entry.author == Outsider
    case RemoveFolder => forall w :: w in s.puts ==> !UsesFolder(s.puts[w].phase)
    case WriteBack => true
    case WriteBackFolders => true
    case Checkpoint => true
    case Recover(step) => CanRecover(c, s, step)
  }

  /** A put that already returned stays as it is. */
  function Stop(p: Writing): Writing { if p.phase.Done? then p else p.(phase := Dead) }

  function Step(c: Config, s: State, a: Action): State
    requires Enabled(c, s, a)
  {
    match a
    case Start(w, proc, bytes, expected) =>
      var read := if s.db.row.Some? then Some(s.db.row.value.version) else None;
      s.(puts := s.puts[w := Writing(proc, bytes, expected, read, VersionRead, 0, Stored(false, 0), 0,
                                     FileState(0, 0, 0, ""), [])])
    case Own(w, op) => Do(c, s, w, op)
    case Kill(proc) =>
      s.(puts := map v | v in s.puts :: if s.puts[v].proc == proc then Stop(s.puts[v]) else s.puts[v],
         lock := if s.lock.Held? && s.lock.w in s.puts && s.puts[s.lock.w].proc == proc then Free else s.lock,
         dedup := set k | k in s.dedup && k.0 != proc)
    case PowerLoss(entry, image, kept) =>
      s.(db := image, olderDbs := [], dir := [entry], dedup := {}, lock := Free, recovery := Idle,
         folder := AfterPowerLoss(s.folder, entry.Missing?),
         recoveryDir := AfterPowerLoss(s.recoveryDir, kept == {}),
         sentinels := kept, durable := kept, mayReturn := kept,
         puts := map v | v in s.puts :: Stop(s.puts[v]))
    case Foreign(entry) =>
      s.(dir := s.dir + [entry], folder := if entry.Missing? then s.folder else Made(s.folder, true))
    case RemoveFolder => s.(dir := s.dir + [Missing(Outsider)], folder := Absent)
    case WriteBack => s.(dir := [s.Target()])
    case WriteBackFolders =>
      s.(folder := AfterPowerLoss(s.folder, false), recoveryDir := AfterPowerLoss(s.recoveryDir, false))
    case Checkpoint => s.(olderDbs := [])
    case Recover(step) => Recovered(c, s, step)
  }

  // ── Runs ─────────────────────────────────────────────────────

  /** At the start the disk and the database agree, the registries are empty and nobody writes. */
  ghost predicate Init(s: State) {
    && s.olderDbs == [] && |s.dir| == 1 && s.dir[0] == Missing(Settled)
    && !s.folder.Fresh? && !s.recoveryDir.Fresh?
    && s.sentinels == s.durable == s.mayReturn == {} && s.temps == {} && s.dedup == {}
    && s.lock == Free && s.recovery == Idle && s.puts == map[]
    && s.db == Db(None, [])
  }

  /** The file holds, by its digest, what the page row holds; without a row there is no file. */
  predicate Agrees(c: Config, row: Option<Row>, e: Entry) {
    match row
    case None => !e.Regular?
    case Some(r) => e.Regular? && c.sha(e.bytes) == c.sha(r.content)
  }

  ghost predicate Run(c: Config, s: State, acts: seq<Action>, t: State)
    decreases |acts|
  {
    if acts == [] then s == t
    else Enabled(c, s, acts[0]) && Run(c, Step(c, s, acts[0]), acts[1..], t)
  }

  ghost predicate Reachable(c: Config, t: State) { exists s, acts :: Init(s) && Run(c, s, acts, t) }

  /** No power loss along the run brings back a database image older than the latest commit. */
  ghost predicate KeepsCommits(c: Config, s: State, acts: seq<Action>)
    decreases |acts|
  {
    acts != [] && Enabled(c, s, acts[0]) ==>
      && (acts[0].PowerLoss? ==> acts[0].image == s.db)
      && KeepsCommits(c, Step(c, s, acts[0]), acts[1..])
  }

  /** What recovery decided still fits the row and the file, and no other file can come back for it. */
  predicate PlanFits(c: Config, s: State) {
    && (s.recovery.FileRead? || s.recovery.DirSynced?) && s.dir != []
    && s.recovery.plan == PlanFor(c, s.db.row, s.Target())
    && forall e :: e in s.dir ==> e == s.Target() || e.author == Outsider
  }

  /**
   A step that needs none of the five measures, or comes with the one it needs: power loss keeps the
   latest commit, no directory is made unsynced, and recovery writes under the lock and with the
   directory synced, or finds all as it was read.
  */
  predicate Careful(c: Config, s: State, a: Action) {
    match a
    case PowerLoss(_, image, _) => image == s.db
    case Own(_, op) =>
      && (op.CheckPrecondition? ==> c.syncNewFolders || !s.folder.Absent?)
      && (op.CreateSentinel? ==> c.syncRecoveryDir || !s.recoveryDir.Absent?)
    case Recover(step) => step.ApplyPlan? ==> (c.lockOnRecover && c.syncDirOnRecover) || PlanFits(c, s)
    case _ => true
  }

  ghost predicate CarefulRun(c: Config, s: State, acts: seq<Action>)
    decreases |acts|
  {
    acts != [] && Enabled(c, s, acts[0]) ==>
      Careful(c, s, acts[0]) && CarefulRun(c, Step(c, s, acts[0]), acts[1..])
  }
}
