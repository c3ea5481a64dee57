/**
 Conflicts: what the version check and the file precondition let through, and what a put refused by
 them leaves behind: nothing but the directories it made on its way to the file.
*/
module VaultConflicts {
  import opened Wrappers
  import opened VaultMachine
  import opened VaultSafety
  import opened VaultVersions

  // ── What is let through ──────────────────────────────────────

  /** The file still has the inode, time stamps and size that were recorded for it. */
  predicate SameStat(f: FileState, e: Entry) {
    e.Regular? && e.inode == f.inode && e.stamp == f.stamp && |e.bytes| == f.size
  }

  /**
   The precondition guards edits made outside: at every reachable state a put goes on exactly if
   neither page nor file exists, or both do and the file is unchanged by its stat or has the recorded
   digest, which is the page's own if recoveries hold the lock; otherwise the error says what happened
   to the file. Refused or not, the put has made the directory of the file by then.
  */
  lemma PreconditionGuardsEdits(c: Config, t: State, w: Id)
    requires Reachable(c, t) && CanDo(t, w, CheckPrecondition(true))
    ensures var row, e, ph := t.db.row, t.Target(), Do(c, t, w, CheckPrecondition(true)).puts[w].phase;
            && (ph.PreconditionChecked? <==>
                || (row.None? && e.Missing?)
                || (row.Some? && SameStat(row.value.fileState, e))
                || (row.Some? && e.Regular? && c.sha(e.bytes) == row.value.fileState.sha))
            && (c.lockOnRecover && row.Some? ==> row.value.fileState.sha == c.sha(row.value.content))
            && (!ph.PreconditionChecked? ==> ph == Done(Err(
                  if e.Symlink? then TargetIsSymlink
                  else if e.Missing? then ExternalDelete
                  else if row.None? then ExternalCreate
                  else HashMismatch)))
            && !Do(c, t, w, CheckPrecondition(true)).folder.Absent?
  {
    hide Reachable;
    if c.lockOnRecover { LockedIsCoherent(c, t); }
  }

  /**
   The compare-and-swap inside the transaction: at every reachable state the row is staged exactly if
   the page is still at the version the put read, or still absent; otherwise the put conflicts.
  */
  lemma CompareAndSwap(c: Config, t: State, w: Id)
    requires Reachable(c, t) && CanDo(t, w, StageRow(true))
    ensures var p := t.puts[w];
            var ph := Do(c, t, w, StageRow(true)).puts[w].phase;
            && (ph.Staged? <==> RowVersion(t.db.row) == p.read)
            && (!ph.Staged? ==> ph == Done(Err(if p.read.None? then DbError else OccConflict(p.read.value))))
  {
    hide Run;
    var s, acts :| Init(s) && Run(c, s, acts, t);
    RunKeepsVersions(c, s, acts, t);
    assert RecordFits(c, t.puts[w], t.db.row);
  }

  // ── Refused puts leave no trace ──────────────────────────────

  /** The errors of the version check, the precondition and the compare-and-swap. */
  predicate IsConflict(e: PutError) {
    || e.MissingExpectedVersion? || e.StaleExpectedVersion? || e.OccConflict?
    || e.ExternalDelete? || e.ExternalCreate? || e.HashMismatch? || e.TargetIsSymlink?
  }

  /** The phases before the sentinel, and the exits with a conflict. */
  predicate Early(ph: Phase) { BeforeSentinel(ph) || (ph.Done? && ph.result.Err? && IsConflict(ph.result.error)) }

  predicate UndoesNoConflict(ph: Phase) {
    ph.UndoTemp? || ph.UndoTracking? || ph.UndoSentinel? || ph.UndoRenamed? ==> !IsConflict(ph.why)
  }

  ghost predicate TraceInv(s: State) {
    && s.sentinels <= s.mayReturn && s.durable <= s.mayReturn <= s.puts.Keys && s.temps <= s.puts.Keys
    && forall w :: w in s.puts ==>
         UndoesNoConflict(s.puts[w].phase) && (Early(s.puts[w].phase) ==> w !in s.mayReturn && w !in s.temps)
  }

  /** An operation of `w` adds no sentinel or temporary file but its own, and that not before it is due. */
  ghost predicate MovesTrace(s: State, t: State, w: Id)
    requires w in t.puts
  {
    && t.mayReturn <= s.mayReturn + {w} && t.temps <= s.temps + {w} && UndoesNoConflict(t.puts[w].phase)
    && t.sentinels <= t.mayReturn && t.durable <= t.mayReturn
    && (Early(t.puts[w].phase) ==> w !in t.mayReturn && w !in t.temps)
  }

  /** What an operation does to the phase, as far as a trace depends on it. */
  lemma PhaseIsEarly(c: Config, s: State, w: Id, op: Op)
    requires CanDo(s, w, op) && UndoesNoConflict(s.puts[w].phase)
    ensures var ph, ph' := s.puts[w].phase, Moved(c, s, w, op).phase;
            && UndoesNoConflict(ph')
            && (Early(ph') ==> BeforeSentinel(ph) && !MakesSentinel(op) && !op.WriteTemp? && !op.FailTemp?)
  {
    hide CheckUpdateExpectedVersion, InspectPrecondition, StagePageRecord, TargetMatches, Key;
  }

  lemma DoMovesTrace(c: Config, s: State, w: Id, op: Op)
    requires CanDo(s, w, op) && UndoesNoConflict(s.puts[w].phase)
    requires s.sentinels <= s.mayReturn && s.durable <= s.mayReturn
    requires Early(s.puts[w].phase) ==> w !in s.mayReturn && w !in s.temps
    ensures w in Do(c, s, w, op).puts && MovesTrace(s, Do(c, s, w, op), w)
  {
    PhaseIsEarly(c, s, w, op);
    DoMovesRecord(c, s, w, op);
    hide CanDo, Moved, LockAfter, DirAfter, FolderAfter, RecoveryDirAfter, DedupAfter, DbAfterPut,
         IsConflict, UndoesNoConflict, BeforeSentinel;
  }

  lemma MoveKeepsTrace(s: State, t: State, w: Id)
    requires TraceInv(s) && OnlyMoves(s, t, w) && MovesTrace(s, t, w)
    ensures TraceInv(t)
  {
    hide Early, UndoesNoConflict;
  }

  lemma RecoveryKeepsTrace(c: Config, s: State, step: RecoveryStep)
    requires TraceInv(s) && CanRecover(c, s, step)
    ensures TraceInv(Recovered(c, s, step))
  {
    hide PlanFor, DbAfterPlan, Early, UndoesNoConflict;
  }

  lemma StepKeepsTrace(c: Config, s: State, a: Action)
    requires TraceInv(s) && Enabled(c, s, a)
    ensures TraceInv(Step(c, s, a))
  {
    hide Do, CanDo, Recovered, CanRecover;
    if a.Own? {
      OwnsPut(s, a.w, a.op);
      DoMovesRecord(c, s, a.w, a.op);
      DoMovesTrace(c, s, a.w, a.op);
      MoveKeepsTrace(s, Do(c, s, a.w, a.op), a.w);
    } else if a.Recover? {
      RecoveryKeepsTrace(c, s, a.step);
    }
  }

  lemma {:induction false} RunKeepsTrace(c: Config, s: State, acts: seq<Action>, t: State)
    requires TraceInv(s) && Run(c, s, acts, t)
    ensures TraceInv(t)
    decreases |acts|
  {
    hide TraceInv, Enabled, Step;
    if acts != [] {
      StepKeepsTrace(c, s, acts[0]);
      RunKeepsTrace(c, Step(c, s, acts[0]), acts[1..], t);
    }
  }

  /**
   At every reachable state, crashes and lost commits included, a put refused for a conflict has left
   no sentinel, none that power loss could bring back, no temporary file and no target entry, and is
   not in the log.
  */
  lemma ConflictsLeaveNoTrace(c: Config, t: State, w: Id)
    requires Reachable(c, t)
    requires w in t.puts && t.puts[w].phase.Done?
    requires t.puts[w].phase.result.Err? && IsConflict(t.puts[w].phase.result.error)
    ensures w !in t.sentinels && w !in t.mayReturn && w !in t.temps
    ensures forall e :: e in t.dir ==> e.author != Writer(w)
    ensures forall i :: 0 <= i < |t.db.log| && t.db.log[i].Put? ==> t.db.log[i].id != w
  {
    hide Do, CanDo, Run;
    var s, acts :| Init(s) && Run(c, s, acts, t);
    RunKeepsTrace(c, s, acts, t);
    AllOrNothing(c, s, acts, t, w);
  }

  // ── What the version check decides ───────────────────────────

  predicate IsVerdict(e: PutError) { e.MissingExpectedVersion? || e.StaleExpectedVersion? }

  /** The put may go on: the page was absent when it was read, or its version was the expected one. */
  predicate Expected(p: Writing) { p.read.None? || p.expected == p.read }

  /** How the two version errors come about, and what every other put past the check satisfies. */
  predicate Judged(p: Writing) {
    && UndoesNoConflict(p.phase)
    && (!p.phase.VersionRead? && !Finished(p.phase) ==> Expected(p))
    && (p.phase.Done? ==>
          && (p.phase.result == Err(MissingExpectedVersion) <==> p.read.Some? && p.expected.None?)
          && (p.phase.result == Err(StaleExpectedVersion) <==>
                p.read.Some? && p.expected.Some? && p.expected != p.read))
  }

  ghost predicate JudgedInv(s: State) { forall w :: w in s.puts ==> Judged(s.puts[w]) }

  lemma CheckJudges(c: Config, s: State, w: Id, op: Op)
    requires CanDo(s, w, op) && op.CheckVersion? && Judged(s.puts[w])
    ensures Judged(Moved(c, s, w, op))
  {
    hide InspectPrecondition, StagePageRecord, TargetMatches, Key;
  }

  /** Only the version check gives a verdict. */
  lemma OthersGiveNoVerdict(c: Config, s: State, w: Id, op: Op)
    requires CanDo(s, w, op) && !op.CheckVersion? && UndoesNoConflict(s.puts[w].phase)
    ensures var ph := Moved(c, s, w, op).phase; ph.Done? && ph.result.Err? ==> !IsVerdict(ph.result.error)
    ensures !s.puts[w].phase.VersionRead? && !Finished(s.puts[w].phase)
  {
    LaterChecksGiveNoVerdict(c, s, w);
    hide CheckUpdateExpectedVersion, InspectPrecondition, StagePageRecord, TargetMatches, Key;
  }

  lemma LaterChecksGiveNoVerdict(c: Config, s: State, w: Id)
    requires w in s.puts && s.dir != []
    ensures var r := InspectPrecondition(c.sha, StoredFileState(s.db.row), s.Target()); r.Err? ==> !IsVerdict(r.error)
    ensures var r := StagePageRecord(s.puts[w], s.db.row); r.Err? ==> !IsVerdict(r.error)
  {
  }

  lemma DoJudges(c: Config, s: State, w: Id, op: Op)
    requires CanDo(s, w, op) && Judged(s.puts[w])
    ensures Judged(Moved(c, s, w, op))
  {
    hide Moved, CanDo;
    if op.CheckVersion? {
      CheckJudges(c, s, w, op);
    } else {
      PhaseIsEarly(c, s, w, op);
      OthersGiveNoVerdict(c, s, w, op);
    }
  }

  lemma StepKeepsJudged(c: Config, s: State, a: Action)
    requires JudgedInv(s) && Enabled(c, s, a)
    ensures JudgedInv(Step(c, s, a))
  {
    hide Do, CanDo, Recovered, CanRecover, Moved;
    if a.Own? {
      OwnsPut(s, a.w, a.op);
      DoMovesRecord(c, s, a.w, a.op);
      DoJudges(c, s, a.w, a.op);
      hide Judged;
    } else if a.Recover? {
      RecoveryKeepsJudged(c, s, a.step);
    }
  }

  lemma RecoveryKeepsJudged(c: Config, s: State, step: RecoveryStep)
    requires JudgedInv(s) && CanRecover(c, s, step)
    ensures JudgedInv(Recovered(c, s, step))
  {
    hide Judged;
  }

  lemma {:induction false} RunKeepsJudged(c: Config, s: State, acts: seq<Action>, t: State)
    requires JudgedInv(s) && Run(c, s, acts, t)
    ensures JudgedInv(t)
    decreases |acts|
  {
    hide JudgedInv, Enabled, Step;
    if acts != [] {
      StepKeepsJudged(c, s, acts[0]);
      RunKeepsJudged(c, Step(c, s, acts[0]), acts[1..], t);
    }
  }

  /**
   The verdicts over whole runs: a finished put was refused for a missing version exactly if the page
   existed when it was read and no version was given, and as stale exactly if another version was
   given; every put that has done more than read expected what it read, or read an absent page.
  */
  lemma VersionVerdicts(c: Config, t: State, w: Id)
    requires Reachable(c, t) && w in t.puts
    ensures var p := t.puts[w];
            && (p.phase.Done? ==>
                  && (p.phase.result == Err(MissingExpectedVersion) <==> p.read.Some? && p.expected.None?)
                  && (p.phase.result == Err(StaleExpectedVersion) <==>
                        p.read.Some? && p.expected.Some? && p.expected != p.read))
            && (!p.phase.VersionRead? && !Finished(p.phase) ==> p.read.None? || p.expected == p.read)
  {
    hide Run;
    var s, acts :| Init(s) && Run(c, s, acts, t);
    RunKeepsJudged(c, s, acts, t);
    assert Judged(t.puts[w]);
  }

  // ── Cleaning up before the rename ────────────────────────────

  /** A cleanup call leaves the page, the target and the lock alone. */
  predicate OnlyCleans(c: Config, s: State, t: State, w: Id) {
    && w in s.puts && w in t.puts && Key(c, t.puts[w]) == Key(c, s.puts[w])
    && t.db == s.db && t.dir == s.dir && t.lock == s.lock
  }

  lemma UnlinkTempCleans(c: Config, s: State, w: Id)
    requires CanDo(s, w, UnlinkTemp(true))
    ensures var p, t := s.puts[w], Do(c, s, w, UnlinkTemp(true));
            && OnlyCleans(c, s, t, w) && w !in t.temps && t.dir != []
            && t.puts[w].phase == if p.phase.clearsKey then UndoTracking(p.phase.why) else UndoSentinel(p.phase.why)
  {
    hide InspectPrecondition, StagePageRecord, TargetMatches, DbAfterPut, SentinelsAfter, DedupAfter;
  }

  lemma ClearTrackingCleans(c: Config, s: State, w: Id)
    requires CanDo(s, w, ClearTracking)
    ensures var p, t := s.puts[w], Do(c, s, w, ClearTracking);
            && OnlyCleans(c, s, t, w) && t.temps == s.temps && t.dir != []
            && t.dedup == s.dedup - {Key(c, p)} && t.puts[w].phase == UndoSentinel(p.phase.why)
  {
    hide InspectPrecondition, StagePageRecord, TargetMatches, DbAfterPut, SentinelsAfter;
  }

  lemma RemoveSentinelCleans(c: Config, s: State, w: Id)
    requires CanDo(s, w, RemoveSentinel(true))
    ensures var p, t := s.puts[w], Do(c, s, w, RemoveSentinel(true));
            && OnlyCleans(c, s, t, w) && t.temps == s.temps && t.dedup == s.dedup
            && w !in t.sentinels && w !in t.durable && t.At(w, Done(Err(p.phase.why)))
  {
    hide InspectPrecondition, StagePageRecord, TargetMatches, DbAfterPut;
  }

  /**
   If its calls succeed, the cleanup leaves neither temporary file nor sentinel nor key, and reports the
   original error.
  */
  lemma CleanupRemovesAll(c: Config, s: State, w: Id)
    requires CanDo(s, w, UnlinkTemp(true))
    ensures var why, clears := s.puts[w].phase.why, s.puts[w].phase.clearsKey;
            var s1 := Do(c, s, w, UnlinkTemp(true));
            && (clears ==> CanDo(s1, w, ClearTracking))
            && var s2 := if clears then Do(c, s1, w, ClearTracking) else s1;
               && CanDo(s2, w, RemoveSentinel(true))
               && var t := Do(c, s2, w, RemoveSentinel(true));
                  && t.At(w, Done(Err(why))) && w !in t.temps && w !in t.sentinels && w !in t.durable
                  && (clears ==> Key(c, s.puts[w]) !in t.dedup)
                  && t.db == s.db && t.dir == s.dir && t.lock == s.lock
  {
    hide Do, Key;
    var s1 := Do(c, s, w, UnlinkTemp(true));
    UnlinkTempCleans(c, s, w);
    if s.puts[w].phase.clearsKey {
      ClearTrackingCleans(c, s1, w);
      RemoveSentinelCleans(c, Do(c, s1, w, ClearTracking), w);
    } else {
      RemoveSentinelCleans(c, s1, w);
    }
  }

  // ── What a committed put has seen ────────────────────────────

  predicate Matched(c: Config, p: Writing) {
    p.phase.Verified? || HasCommitted(p.phase) ==> TargetMatches(c.sha, p)
  }

  ghost predicate MatchInv(c: Config, s: State) { forall w :: w in s.puts ==> Matched(c, s.puts[w]) }

  lemma DoKeepsMatch(c: Config, s: State, w: Id, op: Op)
    requires CanDo(s, w, op) && Matched(c, s.puts[w])
    ensures Matched(c, Moved(c, s, w, op))
  {
    hide CheckUpdateExpectedVersion, InspectPrecondition, StagePageRecord, Key;
  }

  lemma StepKeepsMatch(c: Config, s: State, a: Action)
    requires MatchInv(c, s) && Enabled(c, s, a)
    ensures MatchInv(c, Step(c, s, a))
  {
    hide Do, CanDo, Recovered, CanRecover, Moved, TargetMatches;
    if a.Own? {
      OwnsPut(s, a.w, a.op);
      DoMovesRecord(c, s, a.w, a.op);
      DoKeepsMatch(c, s, a.w, a.op);
      hide Matched;
    } else if a.Recover? {
      RecoveryKeepsMatch(c, s, a.step);
    }
  }

  lemma RecoveryKeepsMatch(c: Config, s: State, step: RecoveryStep)
    requires MatchInv(c, s) && CanRecover(c, s, step)
    ensures MatchInv(c, Recovered(c, s, step))
  {
    hide Matched;
  }

  lemma {:induction false} RunKeepsMatch(c: Config, s: State, acts: seq<Action>, t: State)
    requires MatchInv(c, s) && Run(c, s, acts, t)
    ensures MatchInv(c, t)
    decreases |acts|
  {
    hide MatchInv, Enabled, Step;
    if acts != [] {
      StepKeepsMatch(c, s, acts[0]);
      RunKeepsMatch(c, Step(c, s, acts[0]), acts[1..], t);
    }
  }

  /** After the rename a put that committed saw its own temporary file under the target name: inode, size and digest. */
  lemma CommittedSawItsFile(c: Config, t: State, w: Id)
    requires Reachable(c, t) && w in t.puts && HasCommitted(t.puts[w].phase)
    ensures var p := t.puts[w];
            p.seen.inode == p.tempInode && p.seen.size == |p.bytes| && c.sha(p.hashed) == c.sha(p.bytes)
  {
    hide Run;
    var s, acts :| Init(s) && Run(c, s, acts, t);
    RunKeepsMatch(c, s, acts, t);
    assert Matched(c, t.puts[w]);
  }
}
