/**
 Crash safety of the write-through protocol: whatever the interleaving, whenever the file left by a
 writer differs from the last committed page row, a sentinel that survives power loss says so.
*/
module VaultSafety {
  import opened Wrappers
  import opened VaultMachine

  // ── The property ─────────────────────────────────────────────

  /** Every entry power loss may leave, unless an outsider made it, agrees with the latest commit. */
  ghost predicate AllAgree(c: Config, s: State) {
    forall e :: MayLeave(s, e) && e.author != Outsider ==> Agrees(c, s.db.row, e)
  }

  /** A sentinel survives power loss, and so does the directory that holds it. */
  predicate Warned(s: State) { s.durable != {} && !s.recoveryDir.Fresh? }

  /** The property a crash image must have: file and row agree, or a surviving sentinel exists. */
  ghost predicate CrashSafe(c: Config, s: State) {
    forall e :: MayLeave(s, e) && e.author != Outsider && !Agrees(c, s.db.row, e) ==> Warned(s)
  }

  // ── The inductive invariant ──────────────────────────────────

  ghost predicate TxInv(s: State) {
    && (forall w :: w in s.puts ==> (InTx(s.puts[w].phase) <==> s.lock == Held(w)))
    && (s.lock.Held? ==> s.lock.w in s.puts)
  }

  ghost predicate SentinelSets(s: State) {
    s.dir != [] && s.durable <= s.sentinels <= s.mayReturn <= s.puts.Keys
  }

  /** The phases before the sentinel. */
  predicate BeforeSentinel(ph: Phase) {
    ph.VersionRead? || ph.VersionChecked? || ph.PreconditionChecked? || ph.Begun? || ph.Staged?
  }

  /** The phases whose sentinel is certain: from its sync until the transaction ends, as recovery waits for that. */
  predicate NeedsSentinel(ph: Phase) {
    || ph.SentinelDurable? || ph.TempWritten? || ph.TempIdentified? || ph.SymlinkChecked? || ph.DedupHeld?
    || ph.SelfRemembered? || ph.Renamed? || AfterSync(ph)
  }

  /** The phases after the transaction. */
  predicate AfterTx(ph: Phase) { !BeforeSentinel(ph) && !InTx(ph) }

  /** The rename happened and the commit did not; a crash now leaves the two stores apart. */
  predicate AfterRename(ph: Phase) { ph.Renamed? || AfterSync(ph) || ph.UndoRenamed? }

  predicate AfterSync(ph: Phase) { ph.ParentSynced? || ph.TargetStatted? || ph.TargetHashed? || ph.Verified? }

  ghost predicate SentinelInv(s: State) {
    forall w :: w in s.puts ==>
      && (NeedsSentinel(s.puts[w].phase) ==> w in s.durable)
      && (w in s.mayReturn ==> !BeforeSentinel(s.puts[w].phase))
  }

  ghost predicate OursOrForeign(e: Entry, w: Id, bytes: Bytes) {
    e.author == Outsider || (e.Regular? && e.author == Writer(w) && e.bytes == bytes)
  }

  ghost predicate TargetInv(s: State) {
    && s.dir != []
    && (forall w :: w in s.puts && s.puts[w].phase.Renamed? ==> OursOrForeign(s.Target(), w, s.puts[w].bytes))
    && (forall w, e :: w in s.puts && AfterSync(s.puts[w].phase) && e in s.dir ==> OursOrForeign(e, w, s.puts[w].bytes))
  }

  /** The sentinels a recovery will unlink belong to puts that are past their sentinel, and past their transaction. */
  ghost predicate ListedInv(s: State) {
    !s.recovery.Idle? ==>
      forall w :: w in s.recovery.listed ==>
        && w in s.puts && !BeforeSentinel(s.puts[w].phase)
        && (!s.recovery.Listed? ==> AfterTx(s.puts[w].phase))
  }

  /** A recovery that takes the lock has it from its mark to its write. */
  ghost predicate HoldInv(c: Config, s: State) {
    s.lock.HeldByRecovery? <==>
      c.lockOnRecover && (s.recovery.Marked? || s.recovery.FileRead? || s.recovery.DirSynced?)
  }

  /** Under the lock what was read stays true, outsiders apart; once the directory is synced nothing else comes back. */
  ghost predicate ReadInv(c: Config, s: State) {
    c.lockOnRecover && (s.recovery.FileRead? || s.recovery.DirSynced?) ==>
      && s.recovery.plan == PlanFor(c, s.db.row, s.recovery.found)
      && s.dir != [] && (s.Target() == s.recovery.found || s.Target().author == Outsider)
      && (s.recovery.DirSynced? ==> forall e :: e in s.dir ==> e == s.recovery.found || e.author == Outsider)
  }

  /** The digest recorded for the file is that of the page. */
  predicate DigestFits(c: Config, row: Option<Row>) {
    row.Some? ==> row.value.fileState.sha == c.sha(row.value.content)
  }

  ghost predicate DigestInv(c: Config, s: State) {
    DigestFits(c, s.db.row) && forall image :: image in s.olderDbs ==> DigestFits(c, image.row)
  }

  /** What holds along every run, whatever is lost and however recovery runs. */
  ghost predicate Base(c: Config, s: State) {
    && SentinelSets(s) && TxInv(s) && SentinelInv(s) && TargetInv(s)
    && ListedInv(s) && HoldInv(c, s) && ReadInv(c, s)
    && (c.lockOnRecover ==> DigestInv(c, s))
  }

  /** A sentinel nobody will unlink before its put commits: recovery has not listed it, or will first write the row. */
  ghost predicate Guarding(s: State, w: Id) {
    && w in s.durable && w in s.puts && (AfterRename(s.puts[w].phase) || Finished(s.puts[w].phase))
    && (s.recovery.Applied? ==> w !in s.recovery.listed)
  }

  ghost predicate Guarded(s: State) { exists w :: Guarding(s, w) }

  ghost predicate Inv(c: Config, s: State) {
    && Base(c, s) && !s.folder.Fresh? && !s.recoveryDir.Fresh?
    && DigestFits(c, s.db.row) && (AllAgree(c, s) || Guarded(s))
  }

  lemma InitHasInv(c: Config, s: State)
    requires Init(s)
    ensures Inv(c, s)
  {
  }

  lemma InvIsCrashSafe(c: Config, s: State)
    requires Inv(c, s)
    ensures CrashSafe(c, s)
  {
  }

  // ── What an operation changes ────────────────────────────────

  /** An operation of `w` changes only the record of `w`, and keeps what the put was asked to write. */
  ghost predicate OnlyMoves(s: State, t: State, w: Id) {
    && w in s.puts && w in t.puts && t.puts == s.puts[w := t.puts[w]]
    && t.puts[w].bytes == s.puts[w].bytes && t.puts[w].proc == s.puts[w].proc
    && t.recovery == s.recovery
  }

  /** The lock follows the phase. */
  ghost predicate MovesLock(s: State, t: State, w: Id)
    requires w in s.puts && w in t.puts
  {
    && t.lock == LockAfter(s.lock, w, s.puts[w].phase, t.puts[w].phase)
    && (InTx(t.puts[w].phase) && !InTx(s.puts[w].phase) ==> s.lock == Free)
  }

  /** Only the sentinel of `w` may go, and only outside the phases that need it. */
  ghost predicate MovesSentinel(s: State, t: State, w: Id)
    requires w in s.puts && w in t.puts
  {
    && s.durable - {w} <= t.durable <= s.durable + {w}
    && s.sentinels - {w} <= t.sentinels <= s.sentinels + {w}
    && s.mayReturn <= t.mayReturn <= s.mayReturn + {w}
    && (w in t.durable ==> w in t.sentinels) && (w in t.sentinels ==> w in t.mayReturn)
    && (NeedsSentinel(t.puts[w].phase) ==> w in t.durable)
    && (w in t.mayReturn ==> !BeforeSentinel(t.puts[w].phase))
  }

  /** A put passes its sentinel and its transaction once. */
  predicate MovesOn(before: Phase, after: Phase) {
    && !Finished(before)
    && (BeforeSentinel(after) ==> BeforeSentinel(before))
    && (AfterTx(before) ==> AfterTx(after))
  }

  /** A sentinel stops guarding only when its put commits. */
  ghost predicate MovesGuard(s: State, t: State, w: Id)
    requires w in s.puts && w in t.puts
  {
    var ph, ph' := s.puts[w].phase, t.puts[w].phase;
    AfterRename(ph) ==>
      t.durable == s.durable && (AfterRename(ph') || ph'.Committed? || (Finished(ph') && ph.UndoRenamed?))
  }

  /** The target changes by the rename of `w`, and its history is cut by the directory sync of `w`. */
  ghost predicate MovesTarget(s: State, t: State, w: Id)
    requires w in s.puts && w in t.puts && s.dir != []
  {
    var ph, ph' := s.puts[w].phase, t.puts[w].phase;
    if ph'.Renamed? then
      && InTx(ph)
      && exists e :: t.dir == s.dir + [e] && OursOrForeign(e, w, s.puts[w].bytes)
    else if ph.Renamed? && AfterSync(ph') then t.dir == [s.Target()]
    else t.dir == s.dir && (AfterSync(ph') ==> AfterSync(ph))
  }

  /** Only the commit changes the row, and it stores the bytes of the put. */
  ghost predicate MovesRow(c: Config, s: State, t: State, w: Id)
    requires w in s.puts && w in t.puts
  {
    if t.puts[w].phase.Committed? then
      && AfterSync(s.puts[w].phase) && t.db.row.Some? && t.db.row.value.content == s.puts[w].bytes
      && DigestFits(c, t.db.row) && (t.olderDbs == [] || t.olderDbs == s.olderDbs + [s.db])
    else t.db == s.db && t.olderDbs == s.olderDbs
  }

  /** Directories are made, and stay. */
  predicate MovesFolders(s: State, t: State) {
    && (t.folder == s.folder || s.folder.Absent?) && (t.recoveryDir == s.recoveryDir || s.recoveryDir.Absent?)
  }

  lemma OwnsPut(s: State, w: Id, op: Op)
    requires CanDo(s, w, op)
    ensures w in s.puts
  {
  }

  lemma DoMovesRecord(c: Config, s: State, w: Id, op: Op)
    requires CanDo(s, w, op)
    ensures OnlyMoves(s, Do(c, s, w, op), w)
    ensures Do(c, s, w, op).puts[w] == Moved(c, s, w, op)
  {
    hide Moved, LockAfter, DirAfter, FolderAfter, RecoveryDirAfter, SentinelsAfter, TempsAfter, DedupAfter, DbAfterPut;
  }

  lemma DoMovesLock(c: Config, s: State, w: Id, op: Op)
    requires CanDo(s, w, op)
    ensures w in Do(c, s, w, op).puts && MovesLock(s, Do(c, s, w, op), w)
  {
    hide DirAfter, FolderAfter, RecoveryDirAfter, SentinelsAfter, TempsAfter, DedupAfter, DbAfterPut,
         CheckUpdateExpectedVersion, InspectPrecondition, StagePageRecord, TargetMatches, Key;
  }

  lemma DoMovesFolders(c: Config, s: State, w: Id, op: Op)
    requires CanDo(s, w, op)
    ensures MovesFolders(s, Do(c, s, w, op))
    ensures Careful(c, s, Own(w, op)) && !s.folder.Fresh? ==> !Do(c, s, w, op).folder.Fresh?
    ensures Careful(c, s, Own(w, op)) && !s.recoveryDir.Fresh? ==> !Do(c, s, w, op).recoveryDir.Fresh?
  {
    hide CanDo, Moved, LockAfter, DirAfter, SentinelsAfter, TempsAfter, DedupAfter, DbAfterPut;
  }

  /** What an operation does to the phase, as far as the sentinel depends on it. */
  lemma PhaseNeeds(c: Config, s: State, w: Id, op: Op)
    requires CanDo(s, w, op)
    ensures var ph, ph' := s.puts[w].phase, Moved(c, s, w, op).phase;
            && (MakesSentinel(op) ==> !BeforeSentinel(ph'))
            && (NeedsSentinel(ph') ==> NeedsSentinel(ph) || op.SyncSentinel?)
            && (NeedsSentinel(ph) && UnlinksSentinel(op) ==> !NeedsSentinel(ph'))
  {
    hide CheckUpdateExpectedVersion, InspectPrecondition, StagePageRecord, TargetMatches, Key;
  }

  predicate Checks(op: Op) { op.CheckVersion? || op.CheckPrecondition? || op.BeginTx? || op.StageRow? }

  /** The same for the order of the phases. */
  lemma PhaseMovesOn(c: Config, s: State, w: Id, op: Op)
    requires CanDo(s, w, op)
    ensures MovesOn(s.puts[w].phase, Moved(c, s, w, op).phase)
  {
    hide CheckUpdateExpectedVersion, InspectPrecondition, StagePageRecord, TargetMatches, Key, AfterRename;
  }

  /** The same for the guard. */
  lemma PhaseGuards(c: Config, s: State, w: Id, op: Op)
    requires CanDo(s, w, op)
    ensures var ph, ph' := s.puts[w].phase, Moved(c, s, w, op).phase;
            AfterRename(ph) ==> !UnlinksSentinel(op) && !op.SyncSentinel?
                                && (AfterRename(ph') || ph'.Committed? || (Finished(ph') && ph.UndoRenamed?))
  {
    hide CheckUpdateExpectedVersion, InspectPrecondition, StagePageRecord, TargetMatches, Key;
    if Checks(op) {
      assert !AfterRename(s.puts[w].phase);
    }
  }

  lemma DoMovesSets(c: Config, s: State, w: Id, op: Op)
    requires CanDo(s, w, op)
    ensures var t := Do(c, s, w, op);
            && t.sentinels == SentinelsAfter(s.sentinels, w, MakesSentinel(op), UnlinksSentinel(op))
            && t.durable == SentinelsAfter(s.durable, w, op.SyncSentinel?, UnlinksSentinel(op))
            && t.mayReturn == SentinelsAfter(s.mayReturn, w, MakesSentinel(op), false)
  {
    hide CanDo, Moved, LockAfter, DirAfter, FolderAfter, RecoveryDirAfter, SentinelsAfter, TempsAfter, DedupAfter,
         DbAfterPut;
  }

  lemma DoMovesSentinel(c: Config, s: State, w: Id, op: Op)
    requires CanDo(s, w, op) && SentinelSets(s) && SentinelInv(s)
    ensures w in Do(c, s, w, op).puts && MovesSentinel(s, Do(c, s, w, op), w)
  {
    OwnsPut(s, w, op);
    PhaseNeeds(c, s, w, op);
    PhaseMovesOn(c, s, w, op);
    DoMovesRecord(c, s, w, op);
    DoMovesSets(c, s, w, op);
    hide Do, CanDo, Moved, NeedsSentinel, BeforeSentinel, AfterTx, Finished;
  }

  lemma DoMovesGuard(c: Config, s: State, w: Id, op: Op)
    requires CanDo(s, w, op)
    ensures w in Do(c, s, w, op).puts
    ensures MovesGuard(s, Do(c, s, w, op), w) && MovesOn(s.puts[w].phase, Do(c, s, w, op).puts[w].phase)
  {
    PhaseMovesOn(c, s, w, op);
    PhaseGuards(c, s, w, op);
    DoMovesRecord(c, s, w, op);
    hide CanDo, Moved, LockAfter, DirAfter, FolderAfter, RecoveryDirAfter, TempsAfter, DedupAfter, DbAfterPut,
         NeedsSentinel, BeforeSentinel, AfterRename, AfterTx, MovesOn;
  }

  /** How the phase goes through rename, directory sync and commit. */
  lemma PhasePasses(c: Config, s: State, w: Id, op: Op)
    requires CanDo(s, w, op)
    ensures var ph, ph' := s.puts[w].phase, Moved(c, s, w, op).phase;
            && (ph'.Renamed? <==> op.RenameTemp? && op.ok)
            && (ph'.Renamed? ==> InTx(ph))
            && (op.SyncParent? && op.ok <==> ph.Renamed? && AfterSync(ph'))
            && (AfterSync(ph') ==> AfterSync(ph) || (op.SyncParent? && op.ok))
            && (ph'.Committed? <==> op.CommitTx? && op.ok)
            && (ph'.Committed? ==> AfterSync(ph))
  {
    hide CheckUpdateExpectedVersion, InspectPrecondition, StagePageRecord, TargetMatches, Key;
  }

  lemma DoMovesTarget(c: Config, s: State, w: Id, op: Op)
    requires CanDo(s, w, op)
    ensures w in Do(c, s, w, op).puts
    ensures MovesTarget(s, Do(c, s, w, op), w) && MovesRow(c, s, Do(c, s, w, op), w)
  {
    PhasePasses(c, s, w, op);
    DoMovesRecord(c, s, w, op);
    hide CanDo, Moved, LockAfter, FolderAfter, RecoveryDirAfter, SentinelsAfter, TempsAfter, DedupAfter,
         InTx, AfterSync;
    if op.RenameTemp? && op.ok {
      var p := s.puts[w];
      var e := Regular(p.tempInode, op.stamp, p.bytes, Writer(w));
      assert OursOrForeign(e, w, p.bytes) && Do(c, s, w, op).dir == s.dir + [e];
    }
  }

  // What follows from a move is argued on the two states alone.

  lemma MoveKeepsLocks(c: Config, s: State, t: State, w: Id)
    requires TxInv(s) && HoldInv(c, s) && OnlyMoves(s, t, w) && MovesLock(s, t, w)
    ensures TxInv(t) && HoldInv(c, t)
  {
    hide InTx;
  }

  lemma MoveKeepsSentinels(s: State, t: State, w: Id)
    requires SentinelSets(s) && SentinelInv(s) && OnlyMoves(s, t, w) && MovesSentinel(s, t, w) && t.dir != []
    ensures SentinelSets(t) && SentinelInv(t)
  {
    hide NeedsSentinel, BeforeSentinel;
  }

  lemma MoveKeepsTarget(s: State, t: State, w: Id)
    requires TxInv(s) && TargetInv(s) && OnlyMoves(s, t, w) && MovesTarget(s, t, w)
    ensures TargetInv(t)
  {
  }

  lemma MoveKeepsListed(s: State, t: State, w: Id)
    requires ListedInv(s) && OnlyMoves(s, t, w) && MovesOn(s.puts[w].phase, t.puts[w].phase)
    ensures ListedInv(t)
  {
    hide AfterTx, BeforeSentinel;
  }

  /** While recovery holds the lock no put changes the row or the file. */
  lemma MoveKeepsRead(c: Config, s: State, t: State, w: Id)
    requires TxInv(s) && HoldInv(c, s) && ReadInv(c, s) && OnlyMoves(s, t, w)
    requires s.dir != [] && MovesTarget(s, t, w) && MovesRow(c, s, t, w)
    ensures ReadInv(c, t)
  {
    hide PlanFor, DigestFits, OursOrForeign;
  }

  lemma MoveKeepsDigest(c: Config, s: State, t: State, w: Id)
    requires DigestInv(c, s) && OnlyMoves(s, t, w) && MovesRow(c, s, t, w)
    ensures DigestInv(c, t)
  {
    hide DigestFits;
  }

  lemma MoveKeepsGuard(c: Config, s: State, t: State, w: Id)
    requires Inv(c, s) && OnlyMoves(s, t, w) && MovesSentinel(s, t, w) && MovesGuard(s, t, w)
    requires MovesTarget(s, t, w) && MovesRow(c, s, t, w) && !t.folder.Fresh?
    requires !Finished(s.puts[w].phase)
    ensures AllAgree(c, t) || Guarded(t)
  {
    hide SentinelInv, SentinelSets, HoldInv, ReadInv, DigestInv;
    if t.puts[w].phase.Committed? {
      assert t.dir == s.dir;
    } else if t.puts[w].phase.Renamed? {
      assert Guarding(t, w);
    } else if Guarded(s) {
      var v :| Guarding(s, v);
      assert Guarding(t, v);
    }
  }

  /** What an operation changes, and the parts of the invariant that follow from it. */
  lemma OwnStepMoves(c: Config, s: State, w: Id, op: Op)
    requires Base(c, s) && CanDo(s, w, op)
    ensures var t := Do(c, s, w, op);
            && OnlyMoves(s, t, w) && MovesGuard(s, t, w) && MovesTarget(s, t, w) && MovesRow(c, s, t, w)
            && MovesSentinel(s, t, w) && MovesFolders(s, t)
            && !Finished(s.puts[w].phase) && Base(c, t)
  {
    hide Do, CanDo, SentinelSets, TxInv, SentinelInv, TargetInv, ListedInv, HoldInv, ReadInv, DigestInv, MovesOn,
         MovesLock, MovesTarget, MovesSentinel, MovesGuard, MovesRow, MovesFolders;
    var t := Do(c, s, w, op);
    DoMovesRecord(c, s, w, op);
    DoMovesLock(c, s, w, op);
    DoMovesSentinel(c, s, w, op);
    DoMovesGuard(c, s, w, op);
    DoMovesTarget(c, s, w, op);
    DoMovesFolders(c, s, w, op);
    MoveKeepsLocks(c, s, t, w);
    TargetIsThere(s);
    MoveKeepsTarget(s, t, w);
    TargetIsThere(t);
    MoveKeepsSentinels(s, t, w);
    MoveKeepsListed(s, t, w);
    MoveKeepsRead(c, s, t, w);
    if c.lockOnRecover { MoveKeepsDigest(c, s, t, w); }
    MovesOnFrom(s.puts[w].phase, t.puts[w].phase);
  }

  lemma TargetIsThere(s: State)
    requires TargetInv(s)
    ensures s.dir != []
  {
  }

  lemma MovesOnFrom(before: Phase, after: Phase)
    requires MovesOn(before, after)
    ensures !Finished(before)
  {
  }

  lemma OwnStepKeepsInv(c: Config, s: State, w: Id, op: Op)
    requires Inv(c, s) && CanDo(s, w, op) && Careful(c, s, Own(w, op))
    ensures Inv(c, Do(c, s, w, op))
  {
    hide Do, CanDo, Base, Guarded, AllAgree, DigestFits, Careful;
    OwnStepMoves(c, s, w, op);
    DoMovesFolders(c, s, w, op);
    MoveKeepsGuard(c, s, Do(c, s, w, op), w);
    MoveKeepsRowDigest(c, s, Do(c, s, w, op), w);
  }

  lemma MoveKeepsRowDigest(c: Config, s: State, t: State, w: Id)
    requires DigestFits(c, s.db.row) && w in s.puts && w in t.puts && MovesRow(c, s, t, w)
    ensures DigestFits(c, t.db.row)
  {
  }

  // ── The surroundings ─────────────────────────────────────────

  /** What a crash leaves: unfinished puts are dead, their lock is gone, and only with its directory a sure sentinel. */
  ghost predicate Crashed(c: Config, s: State, t: State) {
    && t.puts.Keys == s.puts.Keys
    && (forall v :: v in s.puts ==> t.puts[v] == s.puts[v] || t.puts[v] == Stop(s.puts[v]))
    && t.durable <= t.sentinels <= t.mayReturn <= s.mayReturn
    && (s.durable <= t.durable || forall v :: v in s.puts ==> t.puts[v] == Stop(s.puts[v]))
    && t.dir != [] && (t.dir == s.dir || forall v :: v in s.puts ==> t.puts[v] == Stop(s.puts[v]))
    && (if t.lock == s.lock then t.lock.Held? ==> s.lock.w in s.puts && t.puts[s.lock.w] == s.puts[s.lock.w]
        else t.lock.Free? && (s.lock.Held? ==> s.lock.w in t.puts && t.puts[s.lock.w].phase.Dead?))
    && (t.recovery.Idle? || (t.recovery == s.recovery && t.dir == s.dir && t.db == s.db))
    && (t.lock.HeldByRecovery? <==> s.lock.HeldByRecovery? && !t.recovery.Idle?)
    && (t.db == s.db || t.db in s.olderDbs) && forall image :: image in t.olderDbs ==> image in s.olderDbs
  }

  lemma CrashKeepsBase(c: Config, s: State, t: State)
    requires Base(c, s) && Crashed(c, s, t)
    ensures Base(c, t)
  {
    hide SentinelSets, SentinelInv, TxInv, TargetInv, ListedInv, HoldInv, ReadInv, DigestInv, Crashed;
    CrashKeepsSentinels(c, s, t);
    CrashKeepsLock(c, s, t);
    CrashKeepsTarget(c, s, t);
    CrashKeepsRecovery(c, s, t);
    if c.lockOnRecover { CrashKeepsDigest(c, s, t); }
  }

  lemma CrashKeepsSentinels(c: Config, s: State, t: State)
    requires SentinelSets(s) && SentinelInv(s) && Crashed(c, s, t)
    ensures SentinelSets(t) && SentinelInv(t)
  {
  }

  lemma CrashKeepsLock(c: Config, s: State, t: State)
    requires TxInv(s) && HoldInv(c, s) && Crashed(c, s, t)
    ensures TxInv(t) && HoldInv(c, t)
  {
  }

  lemma CrashKeepsTarget(c: Config, s: State, t: State)
    requires TargetInv(s) && Crashed(c, s, t)
    ensures TargetInv(t)
  {
  }

  lemma CrashKeepsRecovery(c: Config, s: State, t: State)
    requires ListedInv(s) && ReadInv(c, s) && Crashed(c, s, t)
    ensures ListedInv(t) && ReadInv(c, t)
  {
    hide PlanFor;
  }

  lemma CrashKeepsDigest(c: Config, s: State, t: State)
    requires DigestInv(c, s) && Crashed(c, s, t)
    ensures DigestInv(c, t)
  {
    hide DigestFits;
  }

  lemma CrashKeepsInv(c: Config, s: State, t: State)
    requires Inv(c, s) && Crashed(c, s, t) && t.db == s.db && s.durable <= t.durable
    requires (forall e :: e in t.dir ==> e in s.dir) && !t.folder.Fresh? && !t.recoveryDir.Fresh?
    ensures Inv(c, t)
  {
    CrashKeepsBase(c, s, t);
    hide Base;
    if Guarded(s) {
      var v :| Guarding(s, v);
      assert v in t.durable && v in t.puts;
      assert Guarding(t, v);
    }
  }

  /** Outsiders, the kernel writing back, a log checkpoint: the target's history gains an outsider's entry or is cut. */
  ghost predicate Surrounded(s: State, t: State) {
    && t.puts == s.puts && t.lock == s.lock && t.db == s.db && t.recovery == s.recovery
    && t.durable == s.durable && t.sentinels == s.sentinels && t.mayReturn == s.mayReturn
    && s.dir != [] && t.dir != [] && (t.Target() == s.Target() || t.Target().author == Outsider)
    && (forall e :: e in t.dir ==> e in s.dir || e.author == Outsider)
    && (s.folder.Fresh? || !t.folder.Fresh?) && (s.recoveryDir.Fresh? || !t.recoveryDir.Fresh?)
    && forall image :: image in t.olderDbs ==> image in s.olderDbs
  }

  lemma SurroundedKeepsBase(c: Config, s: State, t: State)
    requires Base(c, s) && Surrounded(s, t)
    ensures Base(c, t)
  {
    hide PlanFor, DigestFits;
  }

  lemma SurroundedKeepsInv(c: Config, s: State, t: State)
    requires Inv(c, s) && Surrounded(s, t)
    ensures Inv(c, t)
  {
    SurroundedKeepsBase(c, s, t);
    hide Base;
    if Guarded(s) {
      var v :| Guarding(s, v);
      assert Guarding(t, v);
    }
  }

  lemma StartKeepsBase(c: Config, s: State, a: Action)
    requires Base(c, s) && Enabled(c, s, a) && a.Start?
    ensures Base(c, Step(c, s, a))
  {
    hide Do, CanDo, Recovered, CanRecover, PlanFor, DigestFits, LateError;
  }

  lemma StartKeepsInv(c: Config, s: State, a: Action)
    requires Inv(c, s) && Enabled(c, s, a) && a.Start?
    ensures Inv(c, Step(c, s, a))
  {
    StartKeepsBase(c, s, a);
    hide Base, Agrees;
    if Guarded(s) {
      var v :| Guarding(s, v);
      assert Guarding(Step(c, s, a), v);
    }
  }

  // ── Recovery ─────────────────────────────────────────────────

  lemma PlanKeepsDigest(c: Config, row: Option<Row>, now: Option<Row>, found: Entry)
    requires DigestFits(c, now) && (row == now || !PlanFor(c, row, found).Unchanged?)
    ensures DigestFits(c, RowAfterPlan(PlanFor(c, row, found), now))
  {
  }

  /** A plan made for the row that is there brings it into agreement with the file that was found. */
  lemma PlanAgrees(c: Config, row: Option<Row>, found: Entry)
    requires DigestFits(c, row)
    ensures Agrees(c, RowAfterPlan(PlanFor(c, row, found), row), found)
  {
  }

  lemma RecoveryKeepsLock(c: Config, s: State, step: RecoveryStep)
    requires TxInv(s) && HoldInv(c, s) && CanRecover(c, s, step)
    ensures TxInv(Recovered(c, s, step)) && HoldInv(c, Recovered(c, s, step))
  {
    hide InTx, PlanFor, DbAfterPlan;
  }

  /** Once it has written its mark, recovery lists only sentinels no put relies on. */
  lemma RecoveryKeepsSentinels(c: Config, s: State, step: RecoveryStep)
    requires SentinelSets(s) && SentinelInv(s) && TxInv(s) && ListedInv(s) && TargetInv(s) && CanRecover(c, s, step)
    ensures var t := Recovered(c, s, step); SentinelSets(t) && SentinelInv(t) && ListedInv(t) && TargetInv(t)
  {
    hide PlanFor, DbAfterPlan, OursOrForeign;
    assert s.Target() in s.dir;
    forall w | w in s.puts && AfterTx(s.puts[w].phase)
      ensures !NeedsSentinel(s.puts[w].phase)
    {
    }
  }

  lemma RecoveryKeepsRead(c: Config, s: State, step: RecoveryStep)
    requires HoldInv(c, s) && ReadInv(c, s) && CanRecover(c, s, step)
    ensures ReadInv(c, Recovered(c, s, step))
  {
    hide PlanFor, DbAfterPlan;
  }

  lemma RecoveryKeepsDigest(c: Config, s: State, step: RecoveryStep)
    requires c.lockOnRecover && ReadInv(c, s) && DigestInv(c, s) && CanRecover(c, s, step)
    ensures DigestInv(c, Recovered(c, s, step))
  {
    hide PlanFor, RowAfterPlan, DbAfterPlan, DigestFits;
    if step.ApplyPlan? {
      PlanKeepsDigest(c, s.db.row, s.db.row, s.recovery.found);
      RowOfPlan(s.db, s.recovery.plan);
    }
  }

  lemma RecoveryKeepsBase(c: Config, s: State, step: RecoveryStep)
    requires Base(c, s) && CanRecover(c, s, step)
    ensures Base(c, Recovered(c, s, step))
  {
    hide SentinelSets, SentinelInv, TxInv, TargetInv, ListedInv, HoldInv, ReadInv, DigestInv, CanRecover, Recovered;
    RecoveryKeepsLock(c, s, step);
    RecoveryKeepsSentinels(c, s, step);
    RecoveryKeepsRead(c, s, step);
    if c.lockOnRecover { RecoveryKeepsDigest(c, s, step); }
  }

  lemma RowOfPlan(db: Db, plan: Plan)
    ensures DbAfterPlan(db, plan).row == RowAfterPlan(plan, db.row)
  {
  }

  /** Writing the row as planned makes everything agree that may come back. */
  lemma ApplyMakesAgree(c: Config, s: State)
    requires Base(c, s) && CanRecover(c, s, ApplyPlan) && !s.folder.Fresh? && DigestFits(c, s.db.row)
    requires (c.lockOnRecover && c.syncDirOnRecover) || PlanFits(c, s)
    ensures var t := Recovered(c, s, ApplyPlan); AllAgree(c, t) && DigestFits(c, t.db.row)
  {
    hide PlanFor, RowAfterPlan, Agrees, DigestFits, DbAfterPlan;
    RowOfPlan(s.db, s.recovery.plan);
    var found := if PlanFits(c, s) then s.Target() else s.recovery.found;
    PlanAgrees(c, s.db.row, found);
    PlanKeepsDigest(c, s.db.row, s.db.row, found);
  }

  lemma RecoveryKeepsInv(c: Config, s: State, step: RecoveryStep)
    requires Inv(c, s) && CanRecover(c, s, step) && Careful(c, s, Recover(step))
    ensures Inv(c, Recovered(c, s, step))
  {
    RecoveryKeepsBase(c, s, step);
    var t := Recovered(c, s, step);
    if step.ApplyPlan? {
      ApplyMakesAgree(c, s);
    } else {
      hide Base, PlanFor, DbAfterPlan, Agrees;
      if Guarded(s) {
        var v :| Guarding(s, v);
        assert Guarding(t, v);
      }
    }
  }

  // ── One step ─────────────────────────────────────────────────

  /** Every step keeps the basic facts, whatever is lost and however recovery runs. */
  lemma StepKeepsBase(c: Config, s: State, a: Action)
    requires Base(c, s) && Enabled(c, s, a)
    ensures Base(c, Step(c, s, a))
  {
    hide Do, CanDo, Recovered, CanRecover, Base;
    match a
    case Own(w, op) => OwnStepMoves(c, s, w, op);
    case Recover(step) => RecoveryKeepsBase(c, s, step);
    case Kill(_) =>
      CrashIs(c, s, a);
      CrashKeepsBase(c, s, Step(c, s, a));
    case PowerLoss(_, _, _) =>
      CrashIs(c, s, a);
      CrashKeepsBase(c, s, Step(c, s, a));
    case Start(_, _, _, _) => StartKeepsBase(c, s, a);
    case _ => SurroundedIs(c, s, a); SurroundedKeepsBase(c, s, Step(c, s, a));
  }

  lemma CrashIs(c: Config, s: State, a: Action)
    requires Base(c, s) && Enabled(c, s, a) && (a.Kill? || a.PowerLoss?)
    ensures Crashed(c, s, Step(c, s, a))
  {
    hide Do, CanDo, Recovered, CanRecover, ReadInv, DigestInv, TargetInv, ListedInv;
  }

  lemma SurroundedIs(c: Config, s: State, a: Action)
    requires Enabled(c, s, a) && !a.Kill? && !a.PowerLoss? && !a.Start? && !a.Own? && !a.Recover?
    ensures Surrounded(s, Step(c, s, a))
  {
    hide Do, CanDo, Recovered, CanRecover;
  }

  /** A careful power loss leaves what was there, and no directory in doubt. */
  lemma CarefulCrash(c: Config, s: State, a: Action)
    requires Inv(c, s) && Enabled(c, s, a) && Careful(c, s, a) && (a.Kill? || a.PowerLoss?)
    ensures var t := Step(c, s, a);
            && Crashed(c, s, t) && t.db == s.db && s.durable <= t.durable
            && (forall e :: e in t.dir ==> e in s.dir) && !t.folder.Fresh? && !t.recoveryDir.Fresh?
  {
    CrashIs(c, s, a);
    hide Do, CanDo, Recovered, CanRecover, Base, AllAgree, Guarded, Crashed;
  }

  lemma StepKeepsInv(c: Config, s: State, a: Action)
    requires Inv(c, s) && Enabled(c, s, a) && Careful(c, s, a)
    ensures Inv(c, Step(c, s, a))
  {
    hide Do, CanDo, Recovered, CanRecover, Inv, Careful;
    match a
    case Start(_, _, _, _) => StartKeepsInv(c, s, a);
    case Own(w, op) => OwnStepKeepsInv(c, s, w, op);
    case Recover(step) => RecoveryKeepsInv(c, s, step);
    case Kill(_) =>
      CarefulCrash(c, s, a);
      CrashKeepsInv(c, s, Step(c, s, a));
    case PowerLoss(_, _, _) =>
      CarefulCrash(c, s, a);
      CrashKeepsInv(c, s, Step(c, s, a));
    case _ => SurroundedIs(c, s, a); SurroundedKeepsInv(c, s, Step(c, s, a));
  }

  // ── Whole runs ───────────────────────────────────────────────

  lemma {:induction false} RunKeepsBase(c: Config, s: State, acts: seq<Action>, t: State)
    requires Base(c, s) && Run(c, s, acts, t)
    ensures Base(c, t)
    decreases |acts|
  {
    hide Base, Enabled, Step;
    if acts != [] {
      StepKeepsBase(c, s, acts[0]);
      RunKeepsBase(c, Step(c, s, acts[0]), acts[1..], t);
    }
  }

  lemma ReachableBase(c: Config, t: State)
    requires Reachable(c, t)
    ensures Base(c, t)
  {
    hide Run, Init, Base;
    var s, acts :| Init(s) && Run(c, s, acts, t);
    InitHasBase(c, s);
    RunKeepsBase(c, s, acts, t);
  }

  lemma InitHasBase(c: Config, s: State)
    requires Init(s)
    ensures Base(c, s)
  {
    InitHasInv(c, s);
  }

  lemma {:induction false} RunKeepsInv(c: Config, s: State, acts: seq<Action>, t: State)
    requires Inv(c, s) && Run(c, s, acts, t) && CarefulRun(c, s, acts)
    ensures Inv(c, t)
    decreases |acts|
  {
    hide Inv, Enabled, Step, Careful;
    if acts != [] {
      StepKeepsInv(c, s, acts[0]);
      RunKeepsInv(c, Step(c, s, acts[0]), acts[1..], t);
    }
  }

  /**
   Crash safety. Along every interleaving of puts, outsiders, kills, power losses and recoveries in
   which every step is careful, every state is crash safe, whichever un-synced rename the crash keeps.
  */
  lemma CrashSafety(c: Config, s: State, acts: seq<Action>, t: State)
    requires Init(s) && Run(c, s, acts, t) && CarefulRun(c, s, acts)
    ensures CrashSafe(c, t)
  {
    hide Run, Init, Inv, CarefulRun;
    InitHasInv(c, s);
    RunKeepsInv(c, s, acts, t);
    InvIsCrashSafe(c, t);
  }

  /**
   Recovery heals: at every reachable state, lost commits and other puts under way included, a careful
   write of recovery makes the row agree with every file that may come back, if no directory is in
   doubt and the recorded digest is the page's own, as it always is when recoveries hold the lock; and
   from there on every careful run is crash safe again.
  */
  lemma RecoveryHeals(c: Config, s: State, acts: seq<Action>, t: State)
    requires Reachable(c, s) && CanRecover(c, s, ApplyPlan) && Careful(c, s, Recover(ApplyPlan))
    requires !s.folder.Fresh? && !s.recoveryDir.Fresh? && (c.lockOnRecover || DigestFits(c, s.db.row))
    requires var healed := Recovered(c, s, ApplyPlan); Run(c, healed, acts, t) && CarefulRun(c, healed, acts)
    ensures AllAgree(c, Recovered(c, s, ApplyPlan)) && CrashSafe(c, t)
  {
    var healed := Recovered(c, s, ApplyPlan);
    ReachableBase(c, s);
    ApplyMakesAgree(c, s);
    RecoveryKeepsBase(c, s, ApplyPlan);
    hide Reachable, Run, Base, CanRecover, AllAgree, DigestFits, CarefulRun;
    RunKeepsInv(c, healed, acts, t);
    InvIsCrashSafe(c, t);
  }

  // ── How long a sentinel stays ────────────────────────────────

  /** A failure after the rename, reported or about to be. */
  predicate FailedLate(ph: Phase) { ph.UndoRenamed? || (ph.Done? && ph.result.Err? && LateError(ph.result.error)) }

  /** Errors reported after the rename; all others are reported before it. */
  predicate LateError(e: PutError) { e.RecoveryPending? || e.ConcurrentRename? }

  /** Before-rename failures carry before-rename errors, after-rename failures after-rename ones. */
  predicate WhyFits(ph: Phase) {
    && (ph.UndoTemp? || ph.UndoTracking? || ph.UndoSentinel? ==> !LateError(ph.why))
    && (ph.UndoRenamed? ==> LateError(ph.why))
  }

  lemma DoFailsLate(c: Config, s: State, w: Id, op: Op)
    requires CanDo(s, w, op) && WhyFits(s.puts[w].phase)
    ensures var ph := Moved(c, s, w, op).phase; WhyFits(ph) && (FailedLate(ph) ==> AfterRename(s.puts[w].phase))
  {
    hide *;
    if Checks(op) { ChecksFailEarly(c, s, w, op); } else { OthersFailLate(c, s, w, op); }
  }

  lemma ChecksFailEarly(c: Config, s: State, w: Id, op: Op)
    requires CanDo(s, w, op) && Checks(op)
    ensures var ph := Moved(c, s, w, op).phase; WhyFits(ph) && !FailedLate(ph)
  {
    ErrorsAreEarly(c, s, w);
    hide CheckUpdateExpectedVersion, InspectPrecondition, StagePageRecord;
  }

  lemma OthersFailLate(c: Config, s: State, w: Id, op: Op)
    requires CanDo(s, w, op) && !Checks(op) && WhyFits(s.puts[w].phase)
    ensures var ph := Moved(c, s, w, op).phase; WhyFits(ph) && (FailedLate(ph) ==> AfterRename(s.puts[w].phase))
  {
    hide CheckUpdateExpectedVersion, InspectPrecondition, StagePageRecord, TargetMatches, Key;
  }

  /** The errors of the checks before the rename are none of the late ones. */
  lemma ErrorsAreEarly(c: Config, s: State, w: Id)
    requires w in s.puts && s.dir != []
    ensures var p := s.puts[w];
            && (var r := CheckUpdateExpectedVersion(p.read, p.expected); r.Err? ==> !LateError(r.error))
            && (var r := InspectPrecondition(c.sha, StoredFileState(s.db.row), s.Target());
                r.Err? ==> !LateError(r.error))
            && (var r := StagePageRecord(p, s.db.row); r.Err? ==> !LateError(r.error))
  {
  }

  /** No power loss along the run takes the recovery directory with the sentinels in it. */
  ghost predicate KeepsSentinels(c: Config, s: State, acts: seq<Action>)
    decreases |acts|
  {
    acts != [] && Enabled(c, s, acts[0]) ==>
      && (acts[0].PowerLoss? ==> s.durable <= acts[0].kept)
      && KeepsSentinels(c, Step(c, s, acts[0]), acts[1..])
  }

  ghost predicate Kept(s: State, w: Id) {
    w in s.puts ==> WhyFits(s.puts[w].phase) && (FailedLate(s.puts[w].phase) ==> w in s.durable)
  }

  lemma BaseSentinels(c: Config, s: State)
    requires Base(c, s)
    ensures SentinelInv(s)
  {
  }

  lemma StepKeepsKept(c: Config, s: State, a: Action, w: Id)
    requires Base(c, s) && Kept(s, w) && Enabled(c, s, a)
    requires !(a.Recover? && a.step.UnlinkListed?) && (a.PowerLoss? ==> s.durable <= a.kept)
    ensures Kept(Step(c, s, a), w)
  {
    hide Do, CanDo, Base;
    BaseSentinels(c, s);
    if a.Own? {
      OwnStepMoves(c, s, a.w, a.op);
      if a.w == w {
        DoMovesRecord(c, s, a.w, a.op);
        DoFailsLate(c, s, w, a.op);
      }
      hide Moved, MovesTarget, MovesRow, LateError;
    }
  }

  lemma KeptMeans(s: State, w: Id)
    requires Kept(s, w) && w in s.puts && FailedLate(s.puts[w].phase)
    ensures w in s.durable
  {
  }

  lemma {:induction false} SentinelStaysUntilRecovery(c: Config, s: State, acts: seq<Action>, t: State, w: Id)
    requires Base(c, s) && Kept(s, w) && Run(c, s, acts, t) && KeepsSentinels(c, s, acts)
    requires w in t.puts && FailedLate(t.puts[w].phase) && w !in t.durable
    ensures exists k :: 0 <= k < |acts| && Unlinks(acts[k])
    decreases |acts|
  {
    hide Base, Kept, Enabled, Step, FailedLate;
    if acts == [] {
      KeptMeans(s, w);
    } else if Unlinks(acts[0]) {
    } else {
      StepKeepsKept(c, s, acts[0], w);
      StepKeepsBase(c, s, acts[0]);
      SentinelStaysUntilRecovery(c, Step(c, s, acts[0]), acts[1..], t, w);
      var k :| 0 <= k < |acts[1..]| && Unlinks(acts[1..][k]);
      assert Unlinks(acts[k + 1]);
    }
  }

  /** The end of a recovery. */
  predicate Unlinks(a: Action) { a.Recover? && a.step.UnlinkListed? }

  /** A recovery ended after put `w` began. */
  ghost predicate RecoveredSinceStart(acts: seq<Action>, w: Id) {
    exists j, k :: 0 <= j < k < |acts| && acts[j].Start? && acts[j].w == w && Unlinks(acts[k])
  }

  lemma StartsOnlyByStart(c: Config, s: State, a: Action, w: Id)
    requires Enabled(c, s, a) && w !in s.puts && w in Step(c, s, a).puts
    ensures a.Start? && a.w == w && Step(c, s, a).puts[w].phase.VersionRead?
    ensures Kept(Step(c, s, a), w)
  {
    hide Do, CanDo;
    if a.Own? {
      OwnsPut(s, a.w, a.op);
      DoMovesRecord(c, s, a.w, a.op);
    }
  }

  /**
   The sentinel of a put that failed after its rename stays, through kills, crashes and lost commits,
   until a recovery, unless power loss takes the recovery directory: in every run that has lost it, a
   recovery ended after the put began.
  */
  lemma {:induction false} LateFailureKeepsSentinel(c: Config, s: State, acts: seq<Action>, t: State, w: Id)
    requires Base(c, s) && w !in s.puts && Run(c, s, acts, t) && KeepsSentinels(c, s, acts)
    requires w in t.puts && FailedLate(t.puts[w].phase) && w !in t.durable
    ensures RecoveredSinceStart(acts, w)
    decreases |acts|
  {
    hide Base, Kept, FailedLate, Step, Enabled;
    var next := Step(c, s, acts[0]);
    StepKeepsBase(c, s, acts[0]);
    if w in next.puts {
      StartsOnlyByStart(c, s, acts[0], w);
      SentinelStaysUntilRecovery(c, next, acts[1..], t, w);
      var k :| 0 <= k < |acts[1..]| && Unlinks(acts[1..][k]);
      assert acts[0].Start? && Unlinks(acts[k + 1]);
    } else {
      LateFailureKeepsSentinel(c, next, acts[1..], t, w);
      var j, k :| 0 <= j < k < |acts[1..]| && acts[1..][j].Start? && acts[1..][j].w == w && Unlinks(acts[1..][k]);
      assert acts[j + 1].Start? && acts[j + 1].w == w && Unlinks(acts[k + 1]);
    }
  }

  // ── What the measures are for ────────────────────────────────

  /** Crash safety against every image power loss may bring back, commits lost or not. */
  ghost predicate PowerLossSafe(c: Config, s: State) {
    forall e, image ::
      && MayLeave(s, e) && e.author != Outsider
      && (image == s.db || image in s.olderDbs) && !Agrees(c, image.row, e)
      ==> Warned(s)
  }

  lemma {:induction false} SyncedRunsKeepCommits(c: Config, s: State, acts: seq<Action>, t: State)
    requires c.syncOnCommit && s.olderDbs == [] && Run(c, s, acts, t)
    ensures KeepsCommits(c, s, acts) && t.olderDbs == []
    decreases |acts|
  {
    hide CanDo, Moved, DirAfter, InTx;
    if acts != [] { SyncedRunsKeepCommits(c, Step(c, s, acts[0]), acts[1..], t); }
  }

  /** With all five measures every step is careful. */
  ghost predicate AllMeasures(c: Config) {
    c.syncOnCommit && c.syncDirOnRecover && c.lockOnRecover && c.syncNewFolders && c.syncRecoveryDir
  }

  lemma {:induction false} MeasuredRunsAreCareful(c: Config, s: State, acts: seq<Action>)
    requires AllMeasures(c) && KeepsCommits(c, s, acts)
    ensures CarefulRun(c, s, acts)
    decreases |acts|
  {
    hide Do, CanDo, Recovered, CanRecover;
    if acts != [] && Enabled(c, s, acts[0]) { MeasuredRunsAreCareful(c, Step(c, s, acts[0]), acts[1..]); }
  }

  lemma MeasuredIsSafe(c: Config, t: State)
    requires AllMeasures(c) && Reachable(c, t)
    ensures PowerLossSafe(c, t)
  {
    hide Run, KeepsCommits, CarefulRun;
    var s, acts :| Init(s) && Run(c, s, acts, t);
    SyncedRunsKeepCommits(c, s, acts, t);
    MeasuredRunsAreCareful(c, s, acts);
    CrashSafety(c, s, acts, t);
  }
}
