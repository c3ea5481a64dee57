/**
 Lost-update freedom and the all-or-nothing outcome, over every interleaving of any number of
 writers to one slug.
*/
module VaultVersions {
  import opened Wrappers
  import opened VaultMachine
  import opened VaultSafety

  // ── The version chain ────────────────────────────────────────

  function RowVersion(row: Option<Row>): Option<nat> {
    if row.Some? then Some(row.value.version) else None
  }

  /** The version in effect after the transactions of `log`. */
  function VersionAfter(log: seq<Change>): Option<nat> {
    if log == [] then None
    else match log[|log| - 1]
      case Put(_, _, version, _, _) => Some(version)
      case Reconciled(row) => RowVersion(row)
  }

  /** A put creates version 1 or replaces exactly the version it expected; nothing skips a version. */
  predicate Follows(before: Option<nat>, change: Change) {
    match change
    case Put(_, expected, version, _, _) =>
      if before.None? then version == 1 else expected == before && version == before.value + 1
    case Reconciled(row) =>
      row.Some? ==> row.value.version == if before.None? then 1 else before.value + 1
  }

  ghost predicate Chain(log: seq<Change>) {
    forall i :: 0 <= i < |log| ==> Follows(VersionAfter(log[..i]), log[i])
  }

  ghost predicate DbChain(db: Db) { Chain(db.log) && VersionAfter(db.log) == RowVersion(db.row) }

  lemma ChainGrows(log: seq<Change>, change: Change)
    requires Chain(log) && Follows(VersionAfter(log), change)
    ensures Chain(log + [change])
  {
  }

  /** Among puts alone the committed versions are 1, 2, 3, ... and each update expected its predecessor. */
  lemma {:induction false} PutsCountVersions(log: seq<Change>, i: nat)
    requires Chain(log) && i < |log| && forall j :: 0 <= j < |log| ==> log[j].Put?
    ensures log[i].version == i + 1
    ensures i > 0 ==> log[i].expected == Some(i)
  {
    assert Follows(VersionAfter(log[..i]), log[i]);
    if i > 0 {
      PutsCountVersions(log, i - 1);
      assert log[..i][|log[..i]| - 1] == log[i - 1];
    }
  }

  /** No reconcile between two points of the log deleted the page. */
  ghost predicate NotDeleted(log: seq<Change>, i: nat, j: nat) {
    forall k :: i <= k < j && k < |log| ==> log[k] != Reconciled(None)
  }

  /** While the page is not deleted, versions grow along the log. */
  lemma {:induction false} VersionsGrow(log: seq<Change>, i: nat, j: nat)
    requires Chain(log) && i < j <= |log| && VersionAfter(log[..i]).Some? && NotDeleted(log, i, j)
    ensures VersionAfter(log[..j]).Some? && VersionAfter(log[..i]).value < VersionAfter(log[..j]).value
    decreases j
  {
    assert log[..j][|log[..j]| - 1] == log[j - 1];
    assert Follows(VersionAfter(log[..j - 1]), log[j - 1]);
    if i < j - 1 { VersionsGrow(log, i, j - 1); }
  }

  /** While the page is not deleted, each change after the put at `i` adds one to its version. */
  lemma {:induction false} VersionsCount(log: seq<Change>, i: nat, j: nat)
    requires Chain(log) && i < j <= |log| && log[i].Put? && NotDeleted(log, i + 1, j)
    ensures VersionAfter(log[..j]) == Some(log[i].version + (j - i - 1))
    decreases j
  {
    assert log[..j][|log[..j]| - 1] == log[j - 1];
    assert Follows(VersionAfter(log[..j - 1]), log[j - 1]);
    if i < j - 1 { VersionsCount(log, i, j - 1); }
  }

  /** The put at `i` created the page although it came with an expected version. */
  predicate ExpectingCreation(log: seq<Change>, i: nat)
    requires i < |log|
  {
    log[i].Put? && VersionAfter(log[..i]).None? && log[i].expected.Some?
  }

  /**
   When two committed puts can have the same expected version, without a deletion between them: only
   if the first created the page, and expected the very version the page had by the time of the second.
  */
  lemma SameExpectedIff(log: seq<Change>, i: nat, j: nat)
    requires Chain(log) && i < j < |log| && log[i].Put? && log[j].Put? && NotDeleted(log, i + 1, j)
    ensures log[i].expected == log[j].expected <==> VersionAfter(log[..i]).None? && log[i].expected == Some(j - i)
  {
    VersionsCount(log, i, j);
    assert Follows(VersionAfter(log[..i]), log[i]) && Follows(VersionAfter(log[..j]), log[j]);
  }

  /** Without such creations at most one of several puts with the same expected version is committed. */
  lemma OneWinnerPerVersion(log: seq<Change>, i: nat, j: nat)
    requires Chain(log) && i < |log| && j < |log| && log[i].Put? && log[j].Put? && log[i].expected == log[j].expected
    requires if i < j then NotDeleted(log, i + 1, j) else NotDeleted(log, j + 1, i)
    requires !ExpectingCreation(log, i) && !ExpectingCreation(log, j)
    ensures i == j
  {
    if i < j { SameExpectedIff(log, i, j); }
    if j < i { SameExpectedIff(log, j, i); }
  }

  // ── What a writer knows in each phase ────────────────────────

  predicate HasStaged(ph: Phase) { InTx(ph) && !ph.Begun? }

  predicate HasCommitted(ph: Phase) { ph.Committed? || ph.DedupReleased? || (ph.Done? && ph.result.Ok?) }

  /** The phases of a writer whose rename took place. */
  predicate HasRenamed(ph: Phase) {
    || AfterRename(ph) || HasCommitted(ph) || ph.Dead?
    || (ph.Done? && ph.result.Err? && LateError(ph.result.error))
  }

  /** The staged row replaces exactly the row that is there, and the reported version is its version. */
  predicate StagedFits(p: Writing, row: Option<Row>) {
    && p.outcome.version == p.staged
    && (if p.read.None? then row.None? && p.outcome == Stored(true, 1)
        else RowVersion(row) == p.read && p.outcome == Stored(false, p.read.value + 1))
  }

  /** After the version check an update carries the version it read. */
  predicate ExpectsWhatItRead(p: Writing) {
    !p.phase.VersionRead? && !Finished(p.phase) && p.read.Some? ==> p.expected == p.read
  }

  predicate ReportsItsOutcome(p: Writing) {
    p.phase.Done? && p.phase.result.Ok? ==> p.phase.result.value == p.outcome
  }

  predicate RecordFits(c: Config, p: Writing, row: Option<Row>) {
    && WhyFits(p.phase) && ReportsItsOutcome(p) && ExpectsWhatItRead(p)
    && (HasStaged(p.phase) ==> StagedFits(p, row))
    && (p.phase.Verified? ==> TargetMatches(c.sha, p))
  }

  ghost predicate RecordInv(c: Config, s: State) {
    forall w :: w in s.puts ==> RecordFits(c, s.puts[w], s.db.row)
  }

  lemma DoKeepsReasons(c: Config, s: State, w: Id, op: Op)
    requires CanDo(s, w, op) && WhyFits(s.puts[w].phase)
    ensures WhyFits(Moved(c, s, w, op).phase) && ReportsItsOutcome(Moved(c, s, w, op))
  {
    DoFailsLate(c, s, w, op);
    hide CheckUpdateExpectedVersion, InspectPrecondition, StagePageRecord, TargetMatches, Key, WhyFits;
  }

  lemma DoKeepsExpected(c: Config, s: State, w: Id, op: Op)
    requires CanDo(s, w, op) && ExpectsWhatItRead(s.puts[w])
    ensures ExpectsWhatItRead(Moved(c, s, w, op))
  {
    hide InspectPrecondition, StagePageRecord, TargetMatches, Key;
  }

  lemma DoStages(c: Config, s: State, w: Id, op: Op)
    requires CanDo(s, w, op) && op.StageRow? && ExpectsWhatItRead(s.puts[w])
    ensures var q := Moved(c, s, w, op); HasStaged(q.phase) ==> StagedFits(q, s.db.row)
  {
  }

  lemma LaterKeepsStaged(c: Config, s: State, w: Id, op: Op)
    requires CanDo(s, w, op) && !op.StageRow?
    requires HasStaged(s.puts[w].phase) ==> StagedFits(s.puts[w], s.db.row)
    ensures var q := Moved(c, s, w, op); HasStaged(q.phase) ==> StagedFits(q, s.db.row)
  {
    hide CheckUpdateExpectedVersion, InspectPrecondition, StagePageRecord, TargetMatches, Key;
  }

  lemma DoKeepsVerified(c: Config, s: State, w: Id, op: Op)
    requires CanDo(s, w, op)
    ensures var q := Moved(c, s, w, op); q.phase.Verified? ==> TargetMatches(c.sha, q)
  {
    hide CheckUpdateExpectedVersion, InspectPrecondition, StagePageRecord, Key;
  }

  /** A commit leaves nothing staged. */
  lemma DoKeepsRecord(c: Config, s: State, w: Id, op: Op)
    requires CanDo(s, w, op) && RecordFits(c, s.puts[w], s.db.row)
    ensures RecordFits(c, Do(c, s, w, op).puts[w], Do(c, s, w, op).db.row)
  {
    var t := Do(c, s, w, op);
    DoMovesRecord(c, s, w, op);
    DoMovesTarget(c, s, w, op);
    DoKeepsReasons(c, s, w, op);
    DoKeepsExpected(c, s, w, op);
    DoKeepsVerified(c, s, w, op);
    if op.StageRow? { DoStages(c, s, w, op); } else { LaterKeepsStaged(c, s, w, op); }
    hide Do, CanDo, Moved, WhyFits, ReportsItsOutcome, ExpectsWhatItRead, StagedFits, TargetMatches, MovesTarget;
  }

  // ── The database and the log ─────────────────────────────────

  ghost predicate ChainInv(s: State) {
    DbChain(s.db) && forall image :: image in s.olderDbs ==> DbChain(image)
  }

  /** One operation commits at most its own put, and only from `Verified`. */
  ghost predicate MovesDb(c: Config, s: State, t: State, w: Id)
    requires w in s.puts && w in t.puts
  {
    if t.puts[w].phase.Committed? then
      && s.puts[w].phase.Verified?
      && t.db == DbAfterPut(c, s.db, w, s.puts[w])
      && t.olderDbs == (if c.syncOnCommit then [] else s.olderDbs + [s.db])
      && t.puts[w] == s.puts[w].(phase := Committed)
    else
      && t.db == s.db && t.olderDbs == s.olderDbs
      && (HasCommitted(t.puts[w].phase) <==> HasCommitted(s.puts[w].phase))
      && (HasCommitted(s.puts[w].phase) ==> PutOf(w, t.puts[w]) == PutOf(w, s.puts[w]))
      && !t.puts[w].phase.Dead?
  }

  function PutOf(w: Id, p: Writing): Change { Put(w, p.expected, p.outcome.version, p.bytes, p.hashed) }

  lemma PhaseCommits(c: Config, s: State, w: Id, op: Op)
    requires CanDo(s, w, op)
    ensures var p, q := s.puts[w], Moved(c, s, w, op);
            && (q.phase.Committed? <==> op.CommitTx? && op.ok)
            && (q.phase.Committed? ==> p.phase.Verified? && q == p.(phase := Committed))
            && (!q.phase.Committed? ==>
                  && (HasCommitted(q.phase) <==> HasCommitted(p.phase)) && !q.phase.Dead?
                  && (HasCommitted(p.phase) ==> q.outcome == p.outcome && q.hashed == p.hashed))
  {
    hide CheckUpdateExpectedVersion, InspectPrecondition, StagePageRecord, TargetMatches, Key;
  }

  lemma DoMovesDb(c: Config, s: State, w: Id, op: Op)
    requires CanDo(s, w, op)
    ensures w in Do(c, s, w, op).puts && MovesDb(c, s, Do(c, s, w, op), w)
  {
    DoMovesRecord(c, s, w, op);
    PhaseCommits(c, s, w, op);
    hide CanDo, Moved, LockAfter, DirAfter, FolderAfter, RecoveryDirAfter, SentinelsAfter, TempsAfter, DedupAfter,
         DbAfterPut, HasCommitted;
  }

  lemma MoveKeepsRecords(c: Config, s: State, t: State, w: Id)
    requires TxInv(s) && RecordInv(c, s) && OnlyMoves(s, t, w) && MovesDb(c, s, t, w)
    requires RecordFits(c, t.puts[w], t.db.row)
    ensures RecordInv(c, t)
  {
  }

  lemma MoveKeepsChain(c: Config, s: State, t: State, w: Id)
    requires ChainInv(s) && RecordInv(c, s) && OnlyMoves(s, t, w) && MovesDb(c, s, t, w)
    ensures ChainInv(t)
  {
    if t.puts[w].phase.Committed? {
      var p := s.puts[w];
      assert RecordFits(c, p, s.db.row);
      assert Follows(VersionAfter(s.db.log), PutOf(w, p));
      ChainGrows(s.db.log, PutOf(w, p));
    }
  }

  ghost predicate VersionInv(c: Config, s: State) { s.dir != [] && TxInv(s) && RecordInv(c, s) && ChainInv(s) }

  lemma OwnStepKeepsVersions(c: Config, s: State, w: Id, op: Op)
    requires VersionInv(c, s) && CanDo(s, w, op)
    ensures VersionInv(c, Do(c, s, w, op))
  {
    var t := Do(c, s, w, op);
    DoMovesRecord(c, s, w, op);
    DoMovesLock(c, s, w, op);
    DoMovesTarget(c, s, w, op);
    DoMovesDb(c, s, w, op);
    assert RecordFits(c, s.puts[w], s.db.row);
    DoKeepsRecord(c, s, w, op);
    hide Do, CanDo, Moved, RecordFits, MovesDb, MovesLock, ChainInv, TxInv, InTx;
    MoveKeepsTx(s, t, w);
    MoveKeepsRecords(c, s, t, w);
    MoveKeepsChain(c, s, t, w);
  }

  lemma MoveKeepsTx(s: State, t: State, w: Id)
    requires TxInv(s) && OnlyMoves(s, t, w) && MovesLock(s, t, w)
    ensures TxInv(t)
  {
    hide InTx;
  }

  lemma RecoveryKeepsVersions(c: Config, s: State, step: RecoveryStep)
    requires VersionInv(c, s) && CanRecover(c, s, step)
    ensures VersionInv(c, Recovered(c, s, step))
  {
    hide RecordFits, DbAfterPlan, InTx, PlanFor, DbChain;
    if step.ApplyPlan? {
      PlanGrows(s.db, s.recovery.plan);
      NothingStaged(c, s, DbAfterPlan(s.db, s.recovery.plan).row);
    }
  }

  lemma PlanGrows(db: Db, plan: Plan)
    requires DbChain(db)
    ensures DbChain(DbAfterPlan(db, plan))
  {
  }

  /** While no put holds the lock nothing is staged, so any row suits the puts. */
  lemma NothingStaged(c: Config, s: State, row: Option<Row>)
    requires RecordInv(c, s) && TxInv(s) && !s.lock.Held?
    ensures forall v :: v in s.puts ==> RecordFits(c, s.puts[v], row)
  {
  }

  lemma CrashKeepsVersions(c: Config, s: State, a: Action)
    requires VersionInv(c, s) && Enabled(c, s, a) && (a.Kill? || a.PowerLoss?)
    ensures VersionInv(c, Step(c, s, a))
  {
    hide Do, CanDo, Recovered, CanRecover, DbChain, WhyFits, ExpectsWhatItRead, StagedFits, TargetMatches;
    var t := Step(c, s, a);
    forall v | v in t.puts
      ensures RecordFits(c, t.puts[v], t.db.row)
    {
      assert RecordFits(c, s.puts[v], s.db.row);
      StoppedFits(c, s.puts[v], s.db.row, t.db.row);
    }
  }

  lemma StoppedFits(c: Config, p: Writing, row: Option<Row>, later: Option<Row>)
    requires RecordFits(c, p, row)
    ensures RecordFits(c, Stop(p), later)
  {
  }

  lemma StepKeepsVersions(c: Config, s: State, a: Action)
    requires VersionInv(c, s) && Enabled(c, s, a)
    ensures VersionInv(c, Step(c, s, a))
  {
    hide Do, CanDo, Recovered, CanRecover;
    match a
    case Own(w, op) => OwnStepKeepsVersions(c, s, w, op);
    case Recover(step) => RecoveryKeepsVersions(c, s, step);
    case Kill(_) => CrashKeepsVersions(c, s, a);
    case PowerLoss(_, _, _) => CrashKeepsVersions(c, s, a);
    case _ =>
  }

  lemma {:induction false} RunKeepsVersions(c: Config, s: State, acts: seq<Action>, t: State)
    requires VersionInv(c, s) && Run(c, s, acts, t)
    ensures VersionInv(c, t)
    decreases |acts|
  {
    hide VersionInv, Step, Enabled;
    if acts != [] {
      StepKeepsVersions(c, s, acts[0]);
      RunKeepsVersions(c, Step(c, s, acts[0]), acts[1..], t);
    }
  }

  /**
   Lost-update freedom, over every run, lost commits included: the committed puts form a gapless
   chain in which each update replaced exactly the version it expected.
  */
  lemma NoLostUpdates(c: Config, t: State)
    requires Reachable(c, t)
    ensures DbChain(t.db)
  {
    var s, acts :| Init(s) && Run(c, s, acts, t);
    RunKeepsVersions(c, s, acts, t);
  }

  // ── All or nothing ───────────────────────────────────────────

  /** The bytes have the size and the digest recorded for the file. */
  predicate RecordedAs(c: Config, f: FileState, bytes: Bytes) { |bytes| == f.size && c.sha(bytes) == f.sha }

  /**
   Page columns, active raw import and embedding job speak of the same bytes, and the file state
   records bytes with their digest.
  */
  ghost predicate Coherent(c: Config, row: Option<Row>) {
    row.Some? ==>
      && row.value.rawActive == row.value.content && row.value.jobPending
      && row.value.fileState.sha == c.sha(row.value.content)
      && exists bytes :: RecordedAs(c, row.value.fileState, bytes)
  }

  ghost predicate InLog(log: seq<Change>, change: Change) { change in log }

  /** The log of a database image: puts that verified their file and have not failed. */
  ghost predicate LogFits(c: Config, puts: map<Id, Writing>, log: seq<Change>) {
    forall i :: 0 <= i < |log| && log[i].Put? ==>
      && log[i].id in puts
      && (HasCommitted(puts[log[i].id].phase) || puts[log[i].id].phase.Dead?)
      && c.sha(log[i].hashed) == c.sha(log[i].bytes)
  }

  /** So are the logs of the images power loss may bring back. */
  ghost predicate LogsInv(c: Config, s: State) {
    LogFits(c, s.puts, s.db.log) && forall image :: image in s.olderDbs ==> LogFits(c, s.puts, image.log)
  }

  /** What reported success is in the log. */
  ghost predicate CommittedInv(s: State) {
    forall w :: w in s.puts && HasCommitted(s.puts[w].phase) ==> InLog(s.db.log, PutOf(w, s.puts[w]))
  }

  /** A target entry names a writer only if that writer's rename took place. */
  ghost predicate RenameInv(s: State) {
    forall e, w :: e in s.dir && e.author == Writer(w) ==> w in s.puts && HasRenamed(s.puts[w].phase)
  }

  /** Puts go on only to phases a log allows. */
  ghost predicate PutsGoOn(puts: map<Id, Writing>, after: map<Id, Writing>) {
    forall w :: w in puts && (HasCommitted(puts[w].phase) || puts[w].phase.Dead?) ==>
      w in after && (HasCommitted(after[w].phase) || after[w].phase.Dead?)
  }

  lemma LogStillFits(c: Config, puts: map<Id, Writing>, after: map<Id, Writing>, log: seq<Change>)
    requires LogFits(c, puts, log) && PutsGoOn(puts, after)
    ensures LogFits(c, after, log)
  {
    hide HasCommitted;
  }

  lemma LogsStillFit(c: Config, s: State, t: State)
    requires LogsInv(c, s) && PutsGoOn(s.puts, t.puts)
    requires (t.db == s.db || t.db in s.olderDbs) && forall image :: image in t.olderDbs ==> image in s.olderDbs
    ensures LogsInv(c, t)
  {
    hide LogFits, PutsGoOn;
    LogStillFits(c, s.puts, t.puts, s.db.log);
    forall image | image in s.olderDbs
      ensures LogFits(c, t.puts, image.log)
    {
      LogStillFits(c, s.puts, t.puts, image.log);
    }
  }

  lemma MoveGoesOn(c: Config, s: State, t: State, w: Id)
    requires OnlyMoves(s, t, w) && MovesDb(c, s, t, w) && !s.puts[w].phase.Dead?
    ensures PutsGoOn(s.puts, t.puts)
  {
  }

  /** The log a commit adds to. */
  lemma CommitFits(c: Config, s: State, t: State, w: Id)
    requires RecordInv(c, s) && LogFits(c, t.puts, s.db.log) && OnlyMoves(s, t, w) && MovesDb(c, s, t, w)
    requires t.puts[w].phase.Committed?
    ensures LogFits(c, t.puts, t.db.log)
  {
    assert RecordFits(c, s.puts[w], s.db.row);
  }

  lemma MoveKeepsLogs(c: Config, s: State, t: State, w: Id)
    requires RecordInv(c, s) && LogsInv(c, s) && OnlyMoves(s, t, w) && MovesDb(c, s, t, w)
    requires !s.puts[w].phase.Dead?
    ensures LogsInv(c, t)
  {
    hide LogFits, PutsGoOn, RecordInv;
    MoveGoesOn(c, s, t, w);
    forall image | image == s.db || image in s.olderDbs
      ensures LogFits(c, t.puts, image.log)
    {
      LogStillFits(c, s.puts, t.puts, image.log);
    }
    if t.puts[w].phase.Committed? { CommitFits(c, s, t, w); }
  }

  lemma MoveKeepsCommitted(c: Config, s: State, t: State, w: Id)
    requires CommittedInv(s) && OnlyMoves(s, t, w) && MovesDb(c, s, t, w)
    ensures CommittedInv(t)
  {
    if t.puts[w].phase.Committed? {
      assert InLog(t.db.log, PutOf(w, t.puts[w])) by { assert t.db.log[|s.db.log|] == PutOf(w, t.puts[w]); }
    }
    forall v | v in t.puts && HasCommitted(t.puts[v].phase)
      ensures InLog(t.db.log, PutOf(v, t.puts[v]))
    {
      if v != w { assert InLog(s.db.log, PutOf(v, s.puts[v])); }
    }
  }

  lemma DoKeepsRenamed(c: Config, s: State, w: Id, op: Op)
    requires CanDo(s, w, op) && WhyFits(s.puts[w].phase)
    ensures HasRenamed(s.puts[w].phase) ==> HasRenamed(Moved(c, s, w, op).phase)
    ensures Moved(c, s, w, op).phase.Renamed? ==> HasRenamed(Moved(c, s, w, op).phase)
    ensures !s.puts[w].phase.Dead?
  {
    hide CheckUpdateExpectedVersion, InspectPrecondition, StagePageRecord, TargetMatches, Key;
  }

  lemma MoveKeepsRenames(s: State, t: State, w: Id)
    requires s.dir != [] && RenameInv(s) && OnlyMoves(s, t, w) && MovesTarget(s, t, w)
    requires HasRenamed(s.puts[w].phase) || t.puts[w].phase.Renamed? ==> HasRenamed(t.puts[w].phase)
    ensures RenameInv(t)
  {
    hide HasRenamed, AfterSync, InTx;
    assert s.Target() in s.dir;
  }

  ghost predicate OutcomeInv(c: Config, s: State) { VersionInv(c, s) && LogsInv(c, s) && RenameInv(s) }

  lemma OwnStepKeepsOutcomes(c: Config, s: State, w: Id, op: Op)
    requires OutcomeInv(c, s) && CanDo(s, w, op)
    ensures OutcomeInv(c, Do(c, s, w, op))
    ensures CommittedInv(s) ==> CommittedInv(Do(c, s, w, op))
  {
    hide LogsInv, RenameInv, CommittedInv, ChainInv, TxInv, CanDo, Do, Moved, HasRenamed;
    var t := Do(c, s, w, op);
    OwnStepKeepsVersions(c, s, w, op);
    DoMovesRecord(c, s, w, op);
    DoMovesDb(c, s, w, op);
    DoMovesTarget(c, s, w, op);
    assert RecordFits(c, s.puts[w], s.db.row);
    DoKeepsRenamed(c, s, w, op);
    MoveKeepsLogs(c, s, t, w);
    MoveKeepsRenames(s, t, w);
    if CommittedInv(s) { MoveKeepsCommitted(c, s, t, w); }
  }

  /** Crashes, outsiders and the start of a put. */
  lemma QuietStepGoesOn(c: Config, s: State, a: Action)
    requires Enabled(c, s, a) && !a.Own? && !a.Recover?
    ensures var t := Step(c, s, a);
            && PutsGoOn(s.puts, t.puts)
            && (t.db == s.db || t.db in s.olderDbs) && forall image :: image in t.olderDbs ==> image in s.olderDbs
  {
    hide Do, CanDo;
  }

  lemma QuietStepKeepsRenames(c: Config, s: State, a: Action)
    requires RenameInv(s) && Enabled(c, s, a) && !a.Own? && !a.Recover?
    ensures RenameInv(Step(c, s, a))
  {
    hide Do, CanDo;
    assert s.Target() in s.dir;
  }

  lemma QuietStepKeepsCommitted(c: Config, s: State, a: Action)
    requires CommittedInv(s) && Enabled(c, s, a) && !a.Own? && !a.Recover? && (a.PowerLoss? ==> a.image == s.db)
    ensures CommittedInv(Step(c, s, a))
  {
    hide Do, CanDo;
    var t := Step(c, s, a);
    forall v | v in t.puts && HasCommitted(t.puts[v].phase)
      ensures InLog(t.db.log, PutOf(v, t.puts[v]))
    {
      assert InLog(s.db.log, PutOf(v, s.puts[v]));
    }
  }

  lemma PlanKeepsLog(c: Config, puts: map<Id, Writing>, db: Db, plan: Plan)
    requires LogFits(c, puts, db.log)
    ensures LogFits(c, puts, DbAfterPlan(db, plan).log)
    ensures forall change :: InLog(db.log, change) ==> InLog(DbAfterPlan(db, plan).log, change)
  {
  }

  lemma RecoveryKeepsOutcomes(c: Config, s: State, step: RecoveryStep)
    requires LogsInv(c, s) && RenameInv(s) && CanRecover(c, s, step)
    ensures LogsInv(c, Recovered(c, s, step)) && RenameInv(Recovered(c, s, step))
    ensures CommittedInv(s) ==> CommittedInv(Recovered(c, s, step))
  {
    hide DbAfterPlan, PlanFor, LogFits, HasCommitted, HasRenamed, InLog;
    if step.ApplyPlan? {
      PlanKeepsLog(c, s.puts, s.db, s.recovery.plan);
    } else if step.SyncVaultDir? {
      assert s.Target() in s.dir;
    }
  }

  lemma StepKeepsOutcomes(c: Config, s: State, a: Action)
    requires OutcomeInv(c, s) && Enabled(c, s, a)
    ensures OutcomeInv(c, Step(c, s, a))
    ensures CommittedInv(s) && (a.PowerLoss? ==> a.image == s.db) ==> CommittedInv(Step(c, s, a))
  {
    hide VersionInv, LogsInv, RenameInv, CommittedInv, Do, CanDo, Recovered, CanRecover;
    if a.Own? {
      OwnStepKeepsOutcomes(c, s, a.w, a.op);
    } else {
      StepKeepsVersions(c, s, a);
      if a.Recover? {
        RecoveryKeepsOutcomes(c, s, a.step);
      } else {
        QuietStepGoesOn(c, s, a);
        LogsStillFit(c, s, Step(c, s, a));
        QuietStepKeepsRenames(c, s, a);
        if CommittedInv(s) && (a.PowerLoss? ==> a.image == s.db) { QuietStepKeepsCommitted(c, s, a); }
      }
    }
  }

  lemma {:induction false} RunKeepsOutcomes(c: Config, s: State, acts: seq<Action>, t: State)
    requires OutcomeInv(c, s) && Run(c, s, acts, t)
    ensures OutcomeInv(c, t)
    ensures CommittedInv(s) && KeepsCommits(c, s, acts) ==> CommittedInv(t)
    decreases |acts|
  {
    hide OutcomeInv, CommittedInv, Enabled, Step;
    if acts != [] {
      StepKeepsOutcomes(c, s, acts[0]);
      RunKeepsOutcomes(c, Step(c, s, acts[0]), acts[1..], t);
    }
  }

  lemma InitHasOutcomes(c: Config, s: State)
    requires Init(s)
    ensures OutcomeInv(c, s) && CommittedInv(s)
  {
  }

  // ── Content and version ──────────────────────────────────────

  /** The page's content stays as it is unless its version grows by one. */
  predicate ContentCarriesVersion(before: Option<Row>, after: Option<Row>) {
    before.Some? && after.Some? && after.value.content != before.value.content ==>
      after.value.version == before.value.version + 1
  }

  /** A page's content never changes under the same version, whoever changes it: readers can go by the version. */
  lemma StepCarriesVersion(c: Config, s: State, a: Action)
    requires Reachable(c, s) && Enabled(c, s, a) && !a.PowerLoss?
    ensures ContentCarriesVersion(s.db.row, Step(c, s, a).db.row)
  {
    hide Reachable, Do, CanDo, Recovered, CanRecover, ContentCarriesVersion;
    ReachableVersions(c, s);
    if a.Own? {
      OwnStepCarriesVersion(c, s, a.w, a.op);
    } else if a.Recover? {
      RecoveryCarriesVersion(c, s, a.step);
    } else {
      SameRowCarriesVersion(s.db.row);
    }
  }

  lemma SameRowCarriesVersion(row: Option<Row>)
    ensures ContentCarriesVersion(row, row)
  {
  }

  lemma ReachableVersions(c: Config, t: State)
    requires Reachable(c, t)
    ensures VersionInv(c, t)
  {
    hide Run;
    var s, acts :| Init(s) && Run(c, s, acts, t);
    InitIsCoherent(c, s);
    RunKeepsVersions(c, s, acts, t);
  }

  lemma OwnStepCarriesVersion(c: Config, s: State, w: Id, op: Op)
    requires VersionInv(c, s) && CanDo(s, w, op)
    ensures ContentCarriesVersion(s.db.row, Do(c, s, w, op).db.row)
  {
    OwnsPut(s, w, op);
    assert RecordFits(c, s.puts[w], s.db.row);
    DoMovesDb(c, s, w, op);
    hide Do, CanDo, Moved, TxInv, ChainInv, WhyFits;
  }

  lemma RecoveryCarriesVersion(c: Config, s: State, step: RecoveryStep)
    requires CanRecover(c, s, step)
    ensures ContentCarriesVersion(s.db.row, Recovered(c, s, step).db.row)
  {
  }

  // ── The row and what is committed beside it ──────────────────

  /** A plan records the file that was found. */
  predicate PlanRecords(c: Config, plan: Plan, found: Entry) {
    plan.Unchanged? || plan.Changed? || plan.Created? ==>
      && found.Regular? && RecordedAs(c, plan.seen, found.bytes)
      && (plan.Unchanged? || plan.bytes == found.bytes)
  }

  /** Every image power loss may bring back is coherent, and so will be what recovery has decided. */
  ghost predicate CoherentInv(c: Config, s: State) {
    && Coherent(c, s.db.row) && (forall image :: image in s.olderDbs ==> Coherent(c, image.row))
    && (s.recovery.FileRead? || s.recovery.DirSynced? ==> PlanRecords(c, s.recovery.plan, s.recovery.found))
  }

  /** Recording an unchanged file again, recovery finds the digest it has compared with. */
  predicate HealFits(s: State, a: Action) {
    a.Recover? && a.step.ApplyPlan? && (s.recovery.FileRead? || s.recovery.DirSynced?) && s.recovery.plan.Unchanged? ==>
      s.db.row.Some? && s.db.row.value.fileState.sha == s.recovery.plan.seen.sha
  }

  ghost predicate HealsFit(c: Config, s: State, acts: seq<Action>)
    decreases |acts|
  {
    acts != [] && Enabled(c, s, acts[0]) ==> HealFits(s, acts[0]) && HealsFit(c, Step(c, s, acts[0]), acts[1..])
  }

  lemma CommitIsCoherent(c: Config, s: State, t: State, w: Id)
    requires RecordInv(c, s) && OnlyMoves(s, t, w) && MovesDb(c, s, t, w) && CoherentInv(c, s)
    ensures CoherentInv(c, t)
  {
    hide PlanRecords;
    if t.puts[w].phase.Committed? {
      var p := s.puts[w];
      assert RecordFits(c, p, s.db.row);
      assert RecordedAs(c, RowOf(c, p).fileState, p.bytes);
    }
  }

  lemma PlanIsCoherent(c: Config, row: Option<Row>, plan: Plan, found: Entry)
    requires Coherent(c, row) && PlanRecords(c, plan, found)
    requires plan.Unchanged? ==> row.Some? && row.value.fileState.sha == plan.seen.sha
    ensures Coherent(c, RowAfterPlan(plan, row))
  {
    if plan.Unchanged? || plan.Changed? || plan.Created? { assert RecordedAs(c, plan.seen, found.bytes); }
  }

  lemma RecoveryKeepsCoherent(c: Config, s: State, step: RecoveryStep)
    requires CoherentInv(c, s) && CanRecover(c, s, step) && HealFits(s, Recover(step))
    ensures CoherentInv(c, Recovered(c, s, step))
  {
    hide Coherent, RowAfterPlan, DbAfterPlan;
    if step.ApplyPlan? {
      RowOfPlan(s.db, s.recovery.plan);
      PlanIsCoherent(c, s.db.row, s.recovery.plan, s.recovery.found);
    }
  }

  lemma StepKeepsCoherent(c: Config, s: State, a: Action)
    requires VersionInv(c, s) && CoherentInv(c, s) && Enabled(c, s, a) && HealFits(s, a)
    ensures CoherentInv(c, Step(c, s, a))
  {
    hide Do, CanDo, Recovered, CanRecover, Coherent, PlanRecords;
    if a.Own? {
      DoMovesRecord(c, s, a.w, a.op);
      DoMovesDb(c, s, a.w, a.op);
      CommitIsCoherent(c, s, Do(c, s, a.w, a.op), a.w);
    } else if a.Recover? {
      RecoveryKeepsCoherent(c, s, a.step);
    }
  }

  lemma {:induction false} RunKeepsCoherent(c: Config, s: State, acts: seq<Action>, t: State)
    requires VersionInv(c, s) && CoherentInv(c, s) && Run(c, s, acts, t) && HealsFit(c, s, acts)
    ensures CoherentInv(c, t)
    decreases |acts|
  {
    hide VersionInv, CoherentInv, Enabled, Step, HealFits;
    if acts != [] {
      StepKeepsVersions(c, s, acts[0]);
      StepKeepsCoherent(c, s, acts[0]);
      RunKeepsCoherent(c, Step(c, s, acts[0]), acts[1..], t);
    }
  }

  /** A recovery that holds the lock compares with the digest it then records again. */
  lemma LockedHealFits(c: Config, s: State, a: Action)
    requires c.lockOnRecover && Base(c, s)
    ensures HealFits(s, a)
  {
  }

  lemma {:induction false} LockedHealsFit(c: Config, s: State, acts: seq<Action>)
    requires c.lockOnRecover && Base(c, s)
    ensures HealsFit(c, s, acts)
    decreases |acts|
  {
    hide Base, Enabled, Step, HealFits;
    if acts != [] && Enabled(c, s, acts[0]) {
      LockedHealFits(c, s, acts[0]);
      StepKeepsBase(c, s, acts[0]);
      LockedHealsFit(c, Step(c, s, acts[0]), acts[1..]);
    }
  }

  /** If recoveries hold the lock, the row is coherent at every reachable state. */
  lemma LockedIsCoherent(c: Config, t: State)
    requires c.lockOnRecover && Reachable(c, t)
    ensures Coherent(c, t.db.row)
  {
    hide Run, HealsFit, Base;
    var s, acts :| Init(s) && Run(c, s, acts, t);
    InitHasBase(c, s);
    LockedHealsFit(c, s, acts);
    RunKeepsCoherent(c, s, acts, t);
  }

  /**
   All or nothing. Along every run: a put that reported an error is in no log, and unless it failed
   late no image of the target is its own. Along every run that loses no commit: a put that reported
   success is in the log with the version it reported, and the target it hashed after the rename had
   the digest of its bytes. Along every run in which recovery records unchanged files as it compared
   them: the row and everything committed beside it fit together.
  */
  lemma AllOrNothing(c: Config, s: State, acts: seq<Action>, t: State, w: Id)
    requires Init(s) && Run(c, s, acts, t) && w in t.puts && t.puts[w].phase.Done?
    ensures HealsFit(c, s, acts) ==> Coherent(c, t.db.row)
    ensures var p := t.puts[w];
            match p.phase.result
            case Ok(o) => KeepsCommits(c, s, acts) ==>
              exists i :: && 0 <= i < |t.db.log| && t.db.log[i] == Put(w, p.expected, o.version, p.bytes, p.hashed)
                          && c.sha(p.hashed) == c.sha(p.bytes)
            case Err(e) =>
              && (forall i :: 0 <= i < |t.db.log| && t.db.log[i].Put? ==> t.db.log[i].id != w)
              && (!LateError(e) ==> forall f :: f in t.dir ==> f.author != Writer(w))
  {
    hide Run, KeepsCommits, ChainInv, TxInv, HealsFit, Coherent;
    InitHasOutcomes(c, s);
    RunKeepsOutcomes(c, s, acts, t);
    if HealsFit(c, s, acts) {
      InitIsCoherent(c, s);
      RunKeepsCoherent(c, s, acts, t);
    }
    var p := t.puts[w];
    assert RecordFits(c, p, t.db.row);
    if p.phase.result.Ok? && KeepsCommits(c, s, acts) {
      assert InLog(t.db.log, PutOf(w, p));
      var i :| 0 <= i < |t.db.log| && t.db.log[i] == PutOf(w, p);
    }
  }

  lemma InitIsCoherent(c: Config, s: State)
    requires Init(s)
    ensures CoherentInv(c, s) && VersionInv(c, s)
  {
  }
}
