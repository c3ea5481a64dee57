/**
 Runs written out call by call: a put with nothing going wrong, from every state that is ready for
 it, and what such runs show about the five missing measures and about expected versions.
*/
module VaultScenarios {
  import opened Wrappers
  import opened VaultMachine
  import opened VaultSafety
  import opened VaultVersions

  // ── A put with nothing going wrong ───────────────────────────

  /** What one put asks for, and what the kernel gives its temporary file. */
  datatype Request =
    Request(w: Id, proc: nat, bytes: Bytes, expected: Option<nat>, inode: nat, stamp: nat)

  /** The lock is free, no sentinel, file or key of the put exists, and its version passes the check. */
  ghost predicate Fit(c: Config, s: State, r: Request) {
    && s.dir != [] && !s.Target().Symlink? && s.lock.Free?
    && r.w !in s.sentinels && r.w !in s.durable && r.w !in s.temps
    && (r.proc, c.sha(r.bytes)) !in s.dedup
    && CheckUpdateExpectedVersion(RowVersion(s.db.row), r.expected).Ok?
  }

  /** The put has not begun, and its file passes the check too. */
  ghost predicate Ready(c: Config, s: State, r: Request) {
    && Fit(c, s, r) && SlugLockFree(s, r.proc) && r.w !in s.puts
    && InspectPrecondition(c.sha, StoredFileState(s.db.row), s.Target()).Ok?
  }

  function ActionAt(r: Request, k: nat): Action
    requires k < 20
  {
    if k == 0 then Start(r.w, r.proc, r.bytes, r.expected) else Own(r.w, OpAt(r, k))
  }

  function OpAt(r: Request, k: nat): Op
    requires 0 < k < 20
  {
    match k
    case 1 => CheckVersion
    case 2 => CheckPrecondition(true)
    case 3 => BeginTx(true)
    case 4 => StageRow(true)
    case 5 => CreateSentinel
    case 6 => SyncSentinel
    case 7 => WriteTemp(r.inode)
    case 8 => IdentifyTemp(true)
    case 9 => CheckSymlink(true)
    case 10 => InsertDedup
    case 11 => RememberSelf(true)
    case 12 => RenameTemp(r.stamp, true)
    case 13 => SyncParent(true)
    case 14 => StatTarget(true)
    case 15 => HashTarget([], true)
    case 16 => VerifyTarget
    case 17 => CommitTx(true)
    case 18 => ReleaseDedup
    case _ => DropSentinel(true)
  }

  function PhaseAt(row: Option<Row>, k: nat): Phase
    requires 0 < k <= 20
  {
    match k
    case 1 => VersionRead
    case 2 => VersionChecked
    case 3 => PreconditionChecked
    case 4 => Begun
    case 5 => Staged
    case 6 => SentinelCreated
    case 7 => SentinelDurable
    case 8 => TempWritten
    case 9 => TempIdentified
    case 10 => SymlinkChecked
    case 11 => DedupHeld
    case 12 => SelfRemembered
    case 13 => Renamed
    case 14 => ParentSynced
    case 15 => TargetStatted
    case 16 => TargetHashed
    case 17 => Verified
    case 18 => Committed
    case 19 => DedupReleased
    case _ => Done(Ok(NextOutcome(row)))
  }

  /** A put to an absent page creates version 1, any other adds one. */
  function NextOutcome(row: Option<Row>): Outcome {
    if row.None? then Stored(true, 1) else Stored(false, row.value.version + 1)
  }

  function PutAt(row: Option<Row>, r: Request, k: nat): Writing
    requires 0 < k <= 20
  {
    Writing(r.proc, r.bytes, r.expected, RowVersion(row), PhaseAt(row, k),
            if k >= 5 then NextOutcome(row).version else 0,
            if k >= 5 then NextOutcome(row) else Stored(false, 0),
            if k >= 8 then r.inode else 0,
            if k >= 15 then FileState(r.inode, r.stamp, |r.bytes|, "") else FileState(0, 0, 0, ""),
            if k >= 16 then r.bytes else [])
  }

  function EntryOf(r: Request): Entry { Regular(r.inode, r.stamp, r.bytes, Writer(r.w)) }

  /** The state after the first `k` of the twenty actions. */
  function At(c: Config, s: State, r: Request, k: nat): State
    requires k <= 20
  {
    if k == 0 then s
    else s.(
      db := if k >= 18 then DbAfterPut(c, s.db, r.w, PutAt(s.db.row, r, 17)) else s.db,
      olderDbs := if k < 18 then s.olderDbs else if c.syncOnCommit then [] else s.olderDbs + [s.db],
      dir := if k <= 12 then s.dir else if k == 13 then s.dir + [EntryOf(r)] else [EntryOf(r)],
      folder := if k >= 3 then Made(s.folder, c.syncNewFolders) else s.folder,
      recoveryDir := if k >= 6 then Made(s.recoveryDir, c.syncRecoveryDir) else s.recoveryDir,
      sentinels := if 6 <= k <= 19 then s.sentinels + {r.w} else s.sentinels,
      durable := if 7 <= k <= 19 then s.durable + {r.w} else s.durable,
      mayReturn := if 6 <= k then s.mayReturn + {r.w} else s.mayReturn,
      temps := if 8 <= k <= 12 then s.temps + {r.w} else s.temps,
      dedup := if 11 <= k <= 18 then s.dedup + {(r.proc, c.sha(r.bytes))} else s.dedup,
      lock := if 4 <= k <= 17 then Held(r.w) else s.lock,
      puts := s.puts[r.w := PutAt(s.db.row, r, k)])
  }

  ghost predicate StepsOn(c: Config, s: State, r: Request, k: nat)
    requires k < 20
  {
    Enabled(c, At(c, s, r, k), ActionAt(r, k)) && Step(c, At(c, s, r, k), ActionAt(r, k)) == At(c, s, r, k + 1)
  }

  // ── Each call ────────────────────────────────────────────────

  /** The `k`-th call can be made, and the put goes on as planned. */
  ghost predicate MovesOnAt(c: Config, s: State, r: Request, k: nat)
    requires 0 < k < 20
  {
    && CanDo(At(c, s, r, k), r.w, OpAt(r, k))
    && Moved(c, At(c, s, r, k), r.w, OpAt(r, k)) == PutAt(s.db.row, r, k + 1)
  }

  lemma ChecksMoveOn(c: Config, s: State, r: Request, k: nat)
    requires 1 <= k < 3 && Ready(c, s, r)
    ensures MovesOnAt(c, s, r, k)
  {
    hide StagePageRecord, TargetMatches, Key, DbAfterPut;
    match k {
      case 1 =>
      case _ =>
    }
  }

  lemma StagesOn(c: Config, s: State, r: Request, k: nat)
    requires 3 <= k < 6 && Fit(c, s, r)
    ensures MovesOnAt(c, s, r, k)
  {
    hide InspectPrecondition, TargetMatches, Key, DbAfterPut;
    match k {
      case 3 =>
      case 4 =>
      case _ =>
    }
  }

  lemma SentinelAndFileMoveOn(c: Config, s: State, r: Request, k: nat)
    requires 6 <= k < 10 && Fit(c, s, r)
    ensures MovesOnAt(c, s, r, k)
  {
    hide CheckUpdateExpectedVersion, InspectPrecondition, StagePageRecord, TargetMatches, Key, DbAfterPut;
    match k {
      case 6 =>
      case 7 =>
      case 8 =>
      case _ =>
    }
  }

  lemma RegistersOn(c: Config, s: State, r: Request, k: nat)
    requires 10 <= k < 12 && Fit(c, s, r)
    ensures MovesOnAt(c, s, r, k)
  {
    hide CheckUpdateExpectedVersion, InspectPrecondition, StagePageRecord, TargetMatches, DbAfterPut;
    match k {
      case 10 =>
      case _ =>
    }
  }

  lemma RenameMovesOn(c: Config, s: State, r: Request, k: nat)
    requires 12 <= k < 14 && Fit(c, s, r)
    ensures MovesOnAt(c, s, r, k)
  {
    hide CheckUpdateExpectedVersion, InspectPrecondition, StagePageRecord, TargetMatches, Key, DbAfterPut;
    match k {
      case 12 =>
      case _ =>
    }
  }

  lemma ReadBackMovesOn(c: Config, s: State, r: Request, k: nat)
    requires 14 <= k < 17 && Fit(c, s, r)
    ensures MovesOnAt(c, s, r, k)
  {
    hide CheckUpdateExpectedVersion, InspectPrecondition, StagePageRecord, Key, DbAfterPut;
    match k {
      case 14 =>
      case 15 =>
      case _ =>
    }
  }

  lemma CommitMovesOn(c: Config, s: State, r: Request, k: nat)
    requires 17 <= k < 19 && Fit(c, s, r)
    ensures MovesOnAt(c, s, r, k)
  {
    hide CheckUpdateExpectedVersion, InspectPrecondition, StagePageRecord, TargetMatches, Key, DbAfterPut;
    match k {
      case 17 =>
      case _ =>
    }
  }

  lemma LastMovesOn(c: Config, s: State, r: Request, k: nat)
    requires k == 19 && Fit(c, s, r)
    ensures MovesOnAt(c, s, r, k)
  {
    hide CheckUpdateExpectedVersion, InspectPrecondition, StagePageRecord, TargetMatches, Key, DbAfterPut;
  }

  lemma DirGoesOn(c: Config, s: State, r: Request, k: nat)
    requires 0 < k < 20 && Fit(c, s, r) && CanDo(At(c, s, r, k), r.w, OpAt(r, k))
    ensures var a, b, op := At(c, s, r, k), At(c, s, r, k + 1), OpAt(r, k);
            DirAfter(a, r.w, op) == b.dir
  {
    hide CanDo, Moved, PhaseAt, DbAfterPut, CheckUpdateExpectedVersion;
  }

  lemma FoldersGoOn(c: Config, s: State, r: Request, k: nat)
    requires 0 < k < 20 && Fit(c, s, r) && CanDo(At(c, s, r, k), r.w, OpAt(r, k))
    ensures var a, b, op := At(c, s, r, k), At(c, s, r, k + 1), OpAt(r, k);
            FolderAfter(c, a, op) == b.folder && RecoveryDirAfter(c, a, op) == b.recoveryDir
  {
    hide CanDo, Moved, PutAt, PhaseAt, DbAfterPut, CheckUpdateExpectedVersion;
  }

  lemma SentinelsGoOn(c: Config, s: State, r: Request, k: nat)
    requires 0 < k < 20 && Fit(c, s, r) && CanDo(At(c, s, r, k), r.w, OpAt(r, k))
    ensures var a, b, op := At(c, s, r, k), At(c, s, r, k + 1), OpAt(r, k);
            && SentinelsAfter(a.sentinels, r.w, MakesSentinel(op), UnlinksSentinel(op)) == b.sentinels
            && SentinelsAfter(a.durable, r.w, op.SyncSentinel?, UnlinksSentinel(op)) == b.durable
            && SentinelsAfter(a.mayReturn, r.w, MakesSentinel(op), false) == b.mayReturn
  {
    hide CanDo, Moved, PutAt, PhaseAt, DbAfterPut, CheckUpdateExpectedVersion;
  }

  lemma FilesGoOn(c: Config, s: State, r: Request, k: nat)
    requires 0 < k < 20 && Fit(c, s, r) && CanDo(At(c, s, r, k), r.w, OpAt(r, k))
    ensures var a, b, op := At(c, s, r, k), At(c, s, r, k + 1), OpAt(r, k);
            TempsAfter(a, r.w, op) == b.temps && DedupAfter(c, a, PutAt(s.db.row, r, k), op) == b.dedup
  {
    hide CanDo, Moved, PhaseAt, DbAfterPut, CheckUpdateExpectedVersion;
  }

  lemma LockGoesOn(c: Config, s: State, r: Request, k: nat)
    requires 0 < k < 20 && Fit(c, s, r) && CanDo(At(c, s, r, k), r.w, OpAt(r, k))
    ensures var a, b, op := At(c, s, r, k), At(c, s, r, k + 1), OpAt(r, k);
            LockAfter(a.lock, r.w, PhaseAt(s.db.row, k), PhaseAt(s.db.row, k + 1)) == b.lock
  {
    hide CanDo, Moved, PutAt, DbAfterPut, CheckUpdateExpectedVersion;
  }

  lemma CallGoesOn(c: Config, s: State, r: Request, k: nat)
    requires 0 < k < 20 && Fit(c, s, r) && MovesOnAt(c, s, r, k)
    ensures StepsOn(c, s, r, k)
  {
    DirGoesOn(c, s, r, k);
    FoldersGoOn(c, s, r, k);
    SentinelsGoOn(c, s, r, k);
    FilesGoOn(c, s, r, k);
    LockGoesOn(c, s, r, k);
    assert OpAt(r, k).CommitTx? && OpAt(r, k).ok <==> k == 17;
    hide CanDo, Moved, PhaseAt, OpAt, DirAfter, FolderAfter, RecoveryDirAfter, SentinelsAfter, TempsAfter, DedupAfter,
         LockAfter, Fit;
    var a := At(c, s, r, k);
    assert a.puts[r.w := PutAt(s.db.row, r, k + 1)] == At(c, s, r, k + 1).puts;
  }

  lemma StartGoesOn(c: Config, s: State, r: Request)
    requires Ready(c, s, r)
    ensures StepsOn(c, s, r, 0)
  {
    hide CanDo, Do, InspectPrecondition, DbAfterPut;
  }

  lemma PutStepsOn(c: Config, s: State, r: Request, k: nat)
    requires k < 20 && Fit(c, s, r) && (k < 3 ==> Ready(c, s, r))
    ensures StepsOn(c, s, r, k)
  {
    hide *;
    if k == 0 {
      StartGoesOn(c, s, r);
    } else {
      if k < 3 {
        ChecksMoveOn(c, s, r, k);
      } else if k < 6 {
        StagesOn(c, s, r, k);
      } else if k < 10 {
        SentinelAndFileMoveOn(c, s, r, k);
      } else if k < 12 {
        RegistersOn(c, s, r, k);
      } else if k < 14 {
        RenameMovesOn(c, s, r, k);
      } else if k < 17 {
        ReadBackMovesOn(c, s, r, k);
      } else if k < 19 {
        CommitMovesOn(c, s, r, k);
      } else {
        LastMovesOn(c, s, r, k);
      }
      CallGoesOn(c, s, r, k);
    }
  }

  // ── Runs ─────────────────────────────────────────────────────

  lemma {:induction false} RunJoin(c: Config, s: State, first: seq<Action>, t: State, next: seq<Action>, u: State)
    requires Run(c, s, first, t) && Run(c, t, next, u)
    ensures Run(c, s, first + next, u)
    decreases |first|
  {
    hide Do, CanDo;
    if first == [] {
      assert first + next == next;
    } else {
      assert (first + next)[1..] == first[1..] + next;
      RunJoin(c, Step(c, s, first[0]), first[1..], t, next, u);
    }
  }

  lemma ReachableThen(c: Config, s: State, acts: seq<Action>, t: State)
    requires Reachable(c, s) && Run(c, s, acts, t)
    ensures Reachable(c, t)
  {
    hide Run, Init;
    var origin, before :| Init(origin) && Run(c, origin, before, s);
    RunJoin(c, origin, before, s, acts, t);
  }

  lemma ReachableNext(c: Config, s: State, a: Action)
    requires Reachable(c, s) && Enabled(c, s, a)
    ensures Reachable(c, Step(c, s, a))
  {
    hide Do, CanDo, Reachable;
    assert Run(c, Step(c, s, a), [], Step(c, s, a));
    assert Run(c, s, [a], Step(c, s, a));
    ReachableThen(c, s, [a], Step(c, s, a));
  }

  /** The first `k` calls of the put. */
  function Actions(r: Request, k: nat): seq<Action>
    requires k <= 20
  {
    if k == 0 then [] else Actions(r, k - 1) + [ActionAt(r, k - 1)]
  }

  lemma ReadyIsFit(c: Config, s: State, r: Request)
    requires Ready(c, s, r)
    ensures Fit(c, s, r)
  {
  }

  lemma {:induction false} PutRuns(c: Config, s: State, r: Request, k: nat)
    requires k <= 20 && Ready(c, s, r)
    ensures Run(c, s, Actions(r, k), At(c, s, r, k))
  {
    hide Do, CanDo, Enabled, Step, ActionAt, Ready, Fit;
    if k > 0 {
      var t, a, u := At(c, s, r, k - 1), ActionAt(r, k - 1), At(c, s, r, k);
      hide At;
      PutRuns(c, s, r, k - 1);
      ReadyIsFit(c, s, r);
      PutStepsOn(c, s, r, k - 1);
      assert Run(c, u, [], u);
      assert Run(c, t, [a], u);
      RunJoin(c, s, Actions(r, k - 1), t, [a], u);
    }
  }

  lemma PutReaches(c: Config, s: State, r: Request, k: nat)
    requires k <= 20 && Ready(c, s, r) && Reachable(c, s)
    ensures Reachable(c, At(c, s, r, k))
  {
    hide *;
    PutRuns(c, s, r, k);
    ReachableThen(c, s, Actions(r, k), At(c, s, r, k));
  }

  /**
   `t` is `s` after a put that has succeeded: its bytes are the next version, in row and file, and
   all its traces are cleared.
  */
  ghost predicate StoredBy(c: Config, s: State, t: State, r: Request) {
    && t.At(r.w, Done(Ok(NextOutcome(s.db.row))))
    && t.db.row == Some(Row(NextOutcome(s.db.row).version, r.bytes,
                            FileState(r.inode, r.stamp, |r.bytes|, c.sha(r.bytes)), r.bytes, true))
    && t.db.log == s.db.log + [Put(r.w, r.expected, NextOutcome(s.db.row).version, r.bytes, r.bytes)]
    && t.dir == [EntryOf(r)]
    && t.sentinels == s.sentinels && t.durable == s.durable && t.temps == s.temps && t.dedup == s.dedup
    && t.lock.Free? && (forall v :: v in s.puts ==> v in t.puts && t.puts[v] == s.puts[v])
  }

  lemma LastIsStored(c: Config, s: State, r: Request)
    requires Ready(c, s, r)
    ensures StoredBy(c, s, At(c, s, r, 20), r)
  {
  }

  /** With nothing going wrong a put can succeed, from every state that is ready for it: its twenty calls are a run. */
  lemma FaultFreePutSucceeds(c: Config, s: State, r: Request)
    requires Ready(c, s, r)
    ensures exists t :: Run(c, s, Actions(r, 20), t) && StoredBy(c, s, t, r)
  {
    hide *;
    PutRuns(c, s, r, 20);
    LastIsStored(c, s, r);
  }

  // ── What the missing measures cost ───────────────────────────

  /** A vault in which neither the page nor its file exists. */
  function EmptyVault(folder: Folder): State {
    State(Db(None, []), [], [Missing(Settled)], folder, folder, {}, {}, {}, {}, {}, Free, Idle, map[])
  }

  lemma EmptyVaultIsReachable(c: Config, folder: Folder)
    requires !folder.Fresh?
    ensures Reachable(c, EmptyVault(folder)) && Init(EmptyVault(folder))
  {
    assert Run(c, EmptyVault(folder), [], EmptyVault(folder));
  }

  /** The request of most of the runs below. */
  function FirstPut(): Request { Request(0, 0, [65], None, 7, 1) }

  lemma FirstPutIsReady(c: Config, folder: Folder)
    ensures Ready(c, EmptyVault(folder), FirstPut())
  {
  }

  lemma FirstPutReaches(c: Config, folder: Folder, k: nat)
    requires !folder.Fresh? && k <= 20
    ensures Reachable(c, At(c, EmptyVault(folder), FirstPut(), k))
  {
    hide *;
    EmptyVaultIsReachable(c, folder);
    FirstPutIsReady(c, folder);
    PutReaches(c, EmptyVault(folder), FirstPut(), k);
  }

  /** Without a log sync: the put returns, its sentinel is gone, and the old database comes back. */
  lemma CommitCanBeLost(c: Config) returns (t: State)
    requires !c.syncOnCommit
    ensures Reachable(c, t) && !PowerLossSafe(c, t)
    ensures t.At(0, Done(Ok(Stored(true, 1))))
  {
    hide Reachable;
    t := At(c, EmptyVault(Durable), FirstPut(), 20);
    FirstPutReaches(c, Durable, 20);
    assert MayLeave(t, t.dir[0]) && Db(None, []) in t.olderDbs && !Agrees(c, None, t.dir[0]);
  }

  /** Without a sync of new directories: the put returns, its sentinel is gone, and the folder goes with the file. */
  lemma FolderCanBeLost(c: Config) returns (t: State)
    requires !c.syncNewFolders
    ensures Reachable(c, t) && !CrashSafe(c, t) && !PowerLossSafe(c, t)
    ensures t.At(0, Done(Ok(Stored(true, 1))))
  {
    hide Reachable;
    t := At(c, EmptyVault(Absent), FirstPut(), 20);
    FirstPutReaches(c, Absent, 20);
    assert MayLeave(t, Missing(Settled)) && !Agrees(c, t.db.row, Missing(Settled));
  }

  /** Without a sync of the recovery directory: between rename and commit the only sentinel can go with it. */
  lemma SentinelCanBeLost(c: Config) returns (t: State)
    requires !c.syncRecoveryDir
    ensures Reachable(c, t) && !CrashSafe(c, t) && !PowerLossSafe(c, t)
    ensures t.At(0, Renamed) && t.durable == {0}
  {
    hide Reachable;
    t := At(c, EmptyVault(Absent), FirstPut(), 13);
    FirstPutReaches(c, Absent, 13);
    assert MayLeave(t, t.Target()) && !Agrees(c, t.db.row, t.Target());
    assert t.durable == {0};
  }

  // ── Recovery ─────────────────────────────────────────────────

  /** Recovery has listed the sentinels, marked the collection and read the file. */
  function ReadStage(c: Config, s: State): State
    requires s.dir != []
  {
    s.(recovery := FileRead(s.sentinels, s.Target(), PlanFor(c, s.db.row, s.Target())),
       lock := if c.lockOnRecover then HeldByRecovery else Free)
  }

  lemma RecoveryReads(c: Config, s: State)
    requires Reachable(c, s) && s.recovery.Idle? && s.lock.Free? && s.sentinels != {} && s.dir != []
    ensures Reachable(c, ReadStage(c, s))
  {
    hide Reachable, PlanFor;
    var listed := Recovered(c, s, ListSentinels);
    ReachableNext(c, s, Recover(ListSentinels));
    var marked := Recovered(c, listed, MarkDirty);
    ReachableNext(c, listed, Recover(MarkDirty));
    ReachableNext(c, marked, Recover(ReadTarget));
    assert Recovered(c, marked, ReadTarget) == ReadStage(c, s);
  }

  /** If recovery syncs the directory it does so now. */
  function SyncStage(c: Config, s: State): State
    requires s.recovery.FileRead? && s.dir != []
  {
    if c.syncDirOnRecover then
      s.(recovery := DirSynced(s.recovery.listed, s.recovery.found, s.recovery.plan), dir := [s.Target()])
    else s
  }

  lemma RecoverySyncs(c: Config, s: State)
    requires Reachable(c, s) && s.recovery.FileRead? && s.dir != []
    ensures Reachable(c, SyncStage(c, s))
  {
    hide Reachable;
    if c.syncDirOnRecover { ReachableNext(c, s, Recover(SyncVaultDir)); }
  }

  /** Recovery writes the row and unlinks what it has listed. */
  function EndStage(c: Config, s: State): State
    requires s.recovery.FileRead? || s.recovery.DirSynced?
  {
    Publish(c, s, DbAfterPlan(s.db, s.recovery.plan)).(
      recovery := Idle, lock := Free,
      sentinels := s.sentinels - s.recovery.listed, durable := s.durable - s.recovery.listed)
  }

  lemma RecoveryEnds(c: Config, s: State)
    requires Reachable(c, s) && CanRecover(c, s, ApplyPlan) && s.dir != []
    ensures Reachable(c, EndStage(c, s))
  {
    hide Reachable, DbAfterPlan;
    var applied := Recovered(c, s, ApplyPlan);
    ReachableNext(c, s, Recover(ApplyPlan));
    ReachableNext(c, applied, Recover(UnlinkListed({})));
    assert s.recovery.listed - {} == s.recovery.listed;
  }

  /** A put is killed between its rename and its directory sync. */
  lemma KilledIsReachable(c: Config) returns (t: State)
    ensures Reachable(c, t) && t.dir == [Missing(Settled), EntryOf(FirstPut())] && t.db == Db(None, [])
    ensures t.sentinels == t.durable == {0} && t.lock.Free? && t.recovery.Idle?
    ensures forall v :: v in t.puts ==> Finished(t.puts[v].phase)
  {
    hide Reachable, Run, Do, CanDo, Recovered, CanRecover, Fit, Ready;
    var s := At(c, EmptyVault(Durable), FirstPut(), 13);
    FirstPutReaches(c, Durable, 13);
    ReachableNext(c, s, Kill(0));
    t := Step(c, s, Kill(0));
    assert t.dir == s.dir == [Missing(Settled)] + [EntryOf(FirstPut())];
  }

  /**
   Without a directory sync in recovery: the killed put is recovered from; then power loss takes the
   renamed file back, with its sentinel gone.
  */
  lemma RecoveredFileCanBeLost(c: Config) returns (t: State)
    requires !c.syncDirOnRecover
    ensures Reachable(c, t) && !CrashSafe(c, t) && !PowerLossSafe(c, t)
    ensures forall v :: v in t.puts ==> Finished(t.puts[v].phase)
  {
    hide Reachable, Run;
    var s := KilledIsReachable(c);
    assert 0 in s.sentinels;
    RecoveryReads(c, s);
    var found := ReadStage(c, s);
    RecoveryEnds(c, found);
    t := EndStage(c, found);
    assert t.dir[0] in t.dir && t.dir[0] == Missing(Settled) && t.db.row.Some?;
    assert t.durable == {};
  }

  /** A put that has passed its checks goes on, whatever has happened to the file since. */
  lemma {:induction false} PutResumes(c: Config, s: State, r: Request, k: nat)
    requires Reachable(c, s) && Fit(c, s, r) && At(c, s, r, 3) == s && 3 <= k <= 20
    ensures Reachable(c, At(c, s, r, k))
    decreases k
  {
    hide Reachable, Fit, Step, Enabled, ActionAt;
    if k > 3 {
      PutResumes(c, s, r, k - 1);
      PutStepsOn(c, s, r, k - 1);
      ReachableNext(c, At(c, s, r, k - 1), ActionAt(r, k - 1));
    }
  }

  function CreatingPut(bytes: Bytes): Request { Request(0, 0, bytes, None, 7, 1) }

  function FailingPut(): Request { Request(1, 1, [67], Some(1), 8, 1) }

  function SlowPut(bytes: Bytes): Request { Request(2, 0, bytes, Some(1), 9, 1) }

  /** A page and its file, with nobody at work. */
  ghost predicate AtRest(c: Config, s: State, bytes: Bytes) {
    && s.db.row == Some(Row(1, bytes, FileState(7, 1, |bytes|, c.sha(bytes)), bytes, true))
    && s.dir == [EntryOf(CreatingPut(bytes))] && s.folder.Durable? && s.recoveryDir.Durable?
    && s.durable == {} && s.temps == {} && s.dedup == {} && s.lock.Free? && s.recovery.Idle?
    && forall v :: v in s.puts ==> Finished(s.puts[v].phase)
  }

  lemma CreatedIsReachable(c: Config, bytes: Bytes) returns (s: State)
    ensures Reachable(c, s) && AtRest(c, s, bytes) && s.sentinels == {} && s.puts.Keys == {0}
  {
    hide Reachable, Run;
    EmptyVaultIsReachable(c, Durable);
    s := At(c, EmptyVault(Durable), CreatingPut(bytes), 20);
    PutReaches(c, EmptyVault(Durable), CreatingPut(bytes), 20);
  }

  lemma NextIsReady(c: Config, s: State, bytes: Bytes, r: Request)
    requires AtRest(c, s, bytes) && r.expected == Some(1) && r.w !in s.puts && r.w !in s.sentinels
    ensures Ready(c, s, r)
  {
  }

  /** A put that fails for its sentinel, and cannot unlink it. */
  lemma LitteredIsReachable(c: Config, bytes: Bytes) returns (t: State)
    ensures Reachable(c, t) && AtRest(c, t, bytes) && t.sentinels == {1} && t.puts.Keys == {0, 1}
  {
    hide Reachable, Run, AtRest, Ready, At, Do;
    var s := CreatedIsReachable(c, bytes);
    NextIsReady(c, s, bytes, FailingPut());
    PutReaches(c, s, FailingPut(), 6);
    var u := At(c, s, FailingPut(), 6);
    FailureLitters(c, s, bytes);
    ReachableNext(c, u, Own(1, FailSentinel(true, false)));
    t := Do(c, u, 1, FailSentinel(true, false));
  }

  lemma FailureLitters(c: Config, s: State, bytes: Bytes)
    requires AtRest(c, s, bytes) && s.sentinels == {} && s.puts.Keys == {0}
    ensures var u := At(c, s, FailingPut(), 6);
            && CanDo(u, 1, FailSentinel(true, false)) && u.dir != []
            && var t := Do(c, u, 1, FailSentinel(true, false));
               AtRest(c, t, bytes) && t.sentinels == {1} && t.puts.Keys == {0, 1}
  {
    hide InspectPrecondition, StagePageRecord, TargetMatches;
  }

  /** A second put has passed its checks; then, if `deleted`, an outsider deletes the file. */
  ghost predicate Overtaken(c: Config, s: State, before: Bytes, bytes: Bytes, deleted: bool) {
    && s.db.row == Some(Row(1, before, FileState(7, 1, |before|, c.sha(before)), before, true))
    && s.dir == (if deleted then [EntryOf(CreatingPut(before)), Missing(Outsider)] else [EntryOf(CreatingPut(before))])
    && s.folder.Durable? && s.recoveryDir.Durable?
    && s.sentinels == {1} && s.durable == {} && s.temps == {} && s.dedup == {} && s.lock.Free? && s.recovery.Idle?
    && 2 in s.puts && s.puts[2] == PutAt(s.db.row, SlowPut(bytes), 3)
  }

  lemma OvertakenIsReachable(c: Config, before: Bytes, bytes: Bytes, deleted: bool) returns (t: State)
    ensures Reachable(c, t) && Overtaken(c, t, before, bytes, deleted)
  {
    hide Reachable, Run, AtRest, Ready, At, Overtaken;
    var s := LitteredIsReachable(c, before);
    NextIsReady(c, s, before, SlowPut(bytes));
    PutReaches(c, s, SlowPut(bytes), 3);
    t := At(c, s, SlowPut(bytes), 3);
    SlowPutWaits(c, s, before, bytes);
    if deleted {
      ReachableNext(c, t, Foreign(Missing(Outsider)));
      t := Step(c, t, Foreign(Missing(Outsider)));
      DeletedBehind(c, At(c, s, SlowPut(bytes), 3), before, bytes);
    }
  }

  lemma SlowPutWaits(c: Config, s: State, before: Bytes, bytes: Bytes)
    requires AtRest(c, s, before) && s.sentinels == {1} && s.puts.Keys == {0, 1}
    ensures Overtaken(c, At(c, s, SlowPut(bytes), 3), before, bytes, false)
    ensures At(c, s, SlowPut(bytes), 3).dir != []
  {
  }

  lemma DeletedBehind(c: Config, s: State, before: Bytes, bytes: Bytes)
    requires Overtaken(c, s, before, bytes, false) && s.dir != []
    ensures Overtaken(c, Step(c, s, Foreign(Missing(Outsider))), before, bytes, true)
  {
  }

  /**
   Without the lock: recovery has read the file, and the second put goes through before recovery writes
   what it has decided. It deletes the row of a page whose file is there, or records the old file for it.
  */
  lemma StaleRecovery(c: Config, before: Bytes, bytes: Bytes, deleted: bool) returns (t: State)
    requires !c.lockOnRecover
    ensures Reachable(c, t) && t.dir == [EntryOf(SlowPut(bytes))] && t.durable == {}
    ensures t.db.row == if deleted then None
                        else Some(Row(2, bytes, FileState(7, 1, |before|, c.sha(before)), bytes, true))
  {
    hide Reachable, Run, Overtaken, At, SyncStage, EndStage, Fit, CanRecover, PlanFor, Decided;
    var s := OvertakenIsReachable(c, before, bytes, deleted);
    RecoveryHasRead(c, s, before, bytes, deleted);
    RecoveryReads(c, s);
    RecoverySyncs(c, ReadStage(c, s));
    var u := SyncStage(c, ReadStage(c, s));
    PutResumes(c, u, SlowPut(bytes), 20);
    var v := At(c, u, SlowPut(bytes), 20);
    PutOvertakes(c, s, before, bytes, deleted);
    RecoveryIsStale(c, v, before, bytes, deleted);
    RecoveryEnds(c, v);
    t := EndStage(c, v);
  }

  /** What recovery has decided. */
  function StalePlan(c: Config, before: Bytes, deleted: bool): Plan {
    if deleted then Removed else Unchanged(FileState(7, 1, |before|, c.sha(before)))
  }

  ghost predicate Decided(c: Config, s: State, before: Bytes, deleted: bool) {
    && (if c.syncDirOnRecover then s.recovery.DirSynced? else s.recovery.FileRead?)
    && s.recovery.listed == {1} && s.recovery.plan == StalePlan(c, before, deleted)
  }

  lemma RecoveryHasRead(c: Config, s: State, before: Bytes, bytes: Bytes, deleted: bool)
    requires !c.lockOnRecover && Overtaken(c, s, before, bytes, deleted)
    ensures s.recovery.Idle? && s.lock.Free? && s.sentinels != {} && s.dir != []
    ensures var u, r := SyncStage(c, ReadStage(c, s)), SlowPut(bytes);
            Decided(c, u, before, deleted) && Fit(c, u, r) && At(c, u, r, 3) == u
  {
    var u, r := SyncStage(c, ReadStage(c, s)), SlowPut(bytes);
    assert 1 in s.sentinels;
    assert u.puts[2 := PutAt(u.db.row, r, 3)] == u.puts;
  }

  lemma PutOvertakes(c: Config, s: State, before: Bytes, bytes: Bytes, deleted: bool)
    requires !c.lockOnRecover && Overtaken(c, s, before, bytes, deleted)
    ensures s.dir != [] && SyncStage(c, ReadStage(c, s)).dir != []
    ensures var v := At(c, SyncStage(c, ReadStage(c, s)), SlowPut(bytes), 20);
            && v.dir == [EntryOf(SlowPut(bytes))] && v.durable == {} && v.lock.Free?
            && v.db.row == Some(Row(2, bytes, FileState(9, 1, |bytes|, c.sha(bytes)), bytes, true))
            && Decided(c, v, before, deleted)
  {
  }

  lemma RecoveryIsStale(c: Config, v: State, before: Bytes, bytes: Bytes, deleted: bool)
    requires !c.lockOnRecover && v.dir == [EntryOf(SlowPut(bytes))] && v.durable == {} && v.lock.Free?
    requires v.db.row == Some(Row(2, bytes, FileState(9, 1, |bytes|, c.sha(bytes)), bytes, true))
    requires Decided(c, v, before, deleted)
    ensures CanRecover(c, v, ApplyPlan)
    ensures var t := EndStage(c, v);
            && t.dir == v.dir && t.durable == {}
            && t.db.row == if deleted then None
                           else Some(Row(2, bytes, FileState(7, 1, |before|, c.sha(before)), bytes, true))
  {
  }

  /** Without the lock recovery can delete the page of a put that has returned, and its sentinel with it. */
  lemma PageCanBeDropped(c: Config) returns (t: State)
    requires !c.lockOnRecover
    ensures Reachable(c, t) && !CrashSafe(c, t) && !PowerLossSafe(c, t)
  {
    hide Reachable;
    t := StaleRecovery(c, [65], [66], true);
    assert t.dir[0] in t.dir && !Agrees(c, t.db.row, t.dir[0]);
  }

  // ── The exact price ──────────────────────────────────────────

  /**
   Every reachable state is safe against every power loss if and only if all five measures are taken:
   each of them is needed, even with the other four.
  */
  lemma PowerLossSafeIffAllMeasures(c: Config)
    ensures AllMeasures(c) <==> forall t :: Reachable(c, t) ==> PowerLossSafe(c, t)
  {
    hide Reachable, PowerLossSafe;
    if AllMeasures(c) {
      forall t | Reachable(c, t)
        ensures PowerLossSafe(c, t)
      {
        MeasuredIsSafe(c, t);
      }
    } else {
      var t := UnsafeState(c);
    }
  }

  lemma UnsafeState(c: Config) returns (t: State)
    requires !AllMeasures(c)
    ensures Reachable(c, t) && !PowerLossSafe(c, t)
  {
    hide Reachable, PowerLossSafe, CrashSafe;
    if !c.syncOnCommit {
      t := CommitCanBeLost(c);
    } else if !c.syncNewFolders {
      t := FolderCanBeLost(c);
    } else if !c.syncRecoveryDir {
      t := SentinelCanBeLost(c);
    } else if !c.syncDirOnRecover {
      t := RecoveredFileCanBeLost(c);
    } else {
      t := PageCanBeDropped(c);
    }
  }

  /** If no two texts have different digests, recovery cannot record a wrong one. */
  lemma {:induction false} BlindRunKeepsCoherent(c: Config, s: State, acts: seq<Action>, t: State)
    requires (forall a, b :: c.sha(a) == c.sha(b)) && VersionInv(c, s) && CoherentInv(c, s) && Run(c, s, acts, t)
    ensures CoherentInv(c, t)
    decreases |acts|
  {
    hide VersionInv, CoherentInv, Enabled, Step, HealFits;
    if acts != [] {
      BlindHealFits(c, s, acts[0]);
      StepKeepsVersions(c, s, acts[0]);
      StepKeepsCoherent(c, s, acts[0]);
      BlindRunKeepsCoherent(c, Step(c, s, acts[0]), acts[1..], t);
    }
  }

  lemma BlindHealFits(c: Config, s: State, a: Action)
    requires (forall x, y :: c.sha(x) == c.sha(y)) && CoherentInv(c, s) && Enabled(c, s, a)
    ensures HealFits(s, a)
  {
    hide Do, CanDo;
    if a.Recover? && a.step.ApplyPlan? && s.recovery.plan.Unchanged? {
      assert c.sha(s.recovery.found.bytes) == c.sha(s.db.row.value.content);
    }
  }

  /** When the row always fits what is committed beside it: under the lock, or if digests tell nothing apart. */
  lemma CoherentIffLocked(c: Config)
    ensures c.lockOnRecover || (forall a, b :: c.sha(a) == c.sha(b)) <==>
            forall t :: Reachable(c, t) ==> Coherent(c, t.db.row)
  {
    hide Reachable, Coherent;
    if c.lockOnRecover || (forall a, b :: c.sha(a) == c.sha(b)) {
      forall t | Reachable(c, t)
        ensures Coherent(c, t.db.row)
      {
        if c.lockOnRecover { LockedIsCoherent(c, t); } else { BlindIsCoherent(c, t); }
      }
    } else {
      var a, b :| c.sha(a) != c.sha(b);
      var t := StaleRecovery(c, a, b, false);
      StaleIsIncoherent(c, t.db.row);
    }
  }

  lemma StaleIsIncoherent(c: Config, row: Option<Row>)
    requires row.Some? && row.value.fileState.sha != c.sha(row.value.content)
    ensures !Coherent(c, row)
  {
  }

  lemma BlindIsCoherent(c: Config, t: State)
    requires (forall a, b :: c.sha(a) == c.sha(b)) && Reachable(c, t)
    ensures Coherent(c, t.db.row)
  {
    hide Run;
    var s, acts :| Init(s) && Run(c, s, acts, t);
    BlindRunKeepsCoherent(c, s, acts, t);
  }

  // ── An expected version does not always decide ───────────────

  /** What two callers can ask for who both expect version 1. */
  function ExpectingPut(w: Id): Request { Request(w, 0, if w == 0 then [65] else [66], Some(1), 7 + w, 1) }

  /**
   Two puts with the same expected version can both succeed: the page does not exist, the first put
   creates it as version 1 without a conflict, and the second replaces that version.
  */
  lemma SameExpectedBothSucceed(c: Config)
    ensures exists t ::
              && Reachable(c, t)
              && t.At(0, Done(Ok(Stored(true, 1)))) && t.At(1, Done(Ok(Stored(false, 2))))
              && t.puts[0].expected == t.puts[1].expected == Some(1)
              && t.db.log == [Put(0, Some(1), 1, [65], [65]), Put(1, Some(1), 2, [66], [66])]
  {
    hide At, PhaseAt, Reachable, Ready;
    var s := At(c, EmptyVault(Durable), ExpectingPut(0), 20);
    EmptyVaultIsReachable(c, Durable);
    BothPutsAreReady(c);
    PutReaches(c, EmptyVault(Durable), ExpectingPut(0), 20);
    PutReaches(c, s, ExpectingPut(1), 20);
    var t := At(c, s, ExpectingPut(1), 20);
    PutEnds(c, EmptyVault(Durable), ExpectingPut(0));
    PutEnds(c, s, ExpectingPut(1));
    assert t.db.log == s.db.log + [Put(1, Some(1), 2, [66], [66])];
  }

  lemma PutEnds(c: Config, s: State, r: Request)
    ensures var t := At(c, s, r, 20);
            && t.puts == s.puts[r.w := PutAt(s.db.row, r, 20)] && t.At(r.w, Done(Ok(NextOutcome(s.db.row))))
            && t.db.log == s.db.log + [Put(r.w, r.expected, NextOutcome(s.db.row).version, r.bytes, r.bytes)]
            && RowVersion(t.db.row) == Some(NextOutcome(s.db.row).version)
  {
  }

  lemma BothPutsAreReady(c: Config)
    ensures Ready(c, EmptyVault(Durable), ExpectingPut(0))
    ensures Ready(c, At(c, EmptyVault(Durable), ExpectingPut(0), 20), ExpectingPut(1))
  {
  }
}
