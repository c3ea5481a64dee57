/**
 The control flow of one put, and the order of its calls in every run: nothing else the machine does
 can make a put skip a call, repeat one or make two in the wrong order.
*/
module VaultOrder {
  import opened Wrappers
  import opened VaultMachine
  import opened VaultSafety

  // ── Where each call leads ────────────────────────────────────

  /** The request of a put never changes. */
  predicate SameRequest(p: Writing, q: Writing) { q.bytes == p.bytes && q.proc == p.proc && q.expected == p.expected }

  predicate FailsBeforeRename(ph: Phase) { ph.Done? && ph.result.Err? && !LateError(ph.result.error) }

  /**
   The control flow: where each operation leads. A call that works goes on or finds something to
   refuse; one that fails leads to the error due, at once or after the cleanup.
  */
  predicate Leads(op: Op, before: Phase, after: Phase) {
    match op
    case CheckVersion => after.VersionChecked? || FailsBeforeRename(after)
    case CheckPrecondition(ok) =>
      if ok then after.PreconditionChecked? || FailsBeforeRename(after) else after == Done(Err(IoError))
    case BeginTx(ok) => if ok then after.Begun? else after == Done(Err(DbError))
    case StageRow(ok) => if ok then after.Staged? || FailsBeforeRename(after) else after == Done(Err(DbError))
    case CreateSentinel => after.SentinelCreated?
    case SyncSentinel => after.SentinelDurable?
    case FailSentinel(_, _) => after == Done(Err(SentinelError))
    case WriteTemp(_) => after.TempWritten?
    case FailTemp(_) => after == UndoTemp(IoError, true)
    case IdentifyTemp(ok) => if ok then after.TempIdentified? else after == Done(Err(IoError))
    case CheckSymlink(ok) => after.SymlinkChecked? || (ok && after == UndoTemp(IoError, true))
    case InsertDedup => after.DedupHeld? || after == UndoTemp(DuplicateDedup, false)
    case RememberSelf(ok) => if ok then after.SelfRemembered? else after == UndoTemp(IoError, true)
    case RenameTemp(_, ok) => if ok then after.Renamed? else after == UndoTemp(IoError, true)
    case SyncParent(ok) => if ok then after.ParentSynced? else after == UndoRenamed(RecoveryPending)
    case StatTarget(ok) => if ok then after.TargetStatted? else after == UndoRenamed(RecoveryPending)
    case HashTarget(_, ok) => if ok then after.TargetHashed? else after == UndoRenamed(RecoveryPending)
    case VerifyTarget => after.Verified? || after == UndoRenamed(ConcurrentRename)
    case CommitTx(ok) => if ok then after.Committed? else after == UndoRenamed(RecoveryPending)
    case ReleaseDedup => after.DedupReleased?
    case DropSentinel(_) => after.Done? && after.result.Ok?
    case UnlinkTemp(_) =>
      before.UndoTemp? && after == if before.clearsKey then UndoTracking(before.why) else UndoSentinel(before.why)
    case ClearTracking => before.UndoTracking? && after == UndoSentinel(before.why)
    case RemoveSentinel(_) => before.UndoSentinel? && after == Done(Err(before.why))
    case ReportFailure => before.UndoRenamed? && after == Done(Err(before.why))
  }

  lemma ChecksLead(c: Config, s: State, w: Id, op: Op)
    requires CanDo(s, w, op) && Checks(op)
    ensures Leads(op, s.puts[w].phase, Moved(c, s, w, op).phase)
  {
    ErrorsAreEarly(c, s, w);
    hide CheckUpdateExpectedVersion, InspectPrecondition, StagePageRecord, LateError;
    assert !LateError(IoError) && !LateError(DbError) by { EarlyErrors(); }
  }

  lemma EarlyErrors()
    ensures !LateError(IoError) && !LateError(DbError)
  {
  }

  lemma OthersLead(c: Config, s: State, w: Id, op: Op)
    requires CanDo(s, w, op) && !Checks(op)
    ensures Leads(op, s.puts[w].phase, Moved(c, s, w, op).phase)
  {
    hide CheckUpdateExpectedVersion, InspectPrecondition, StagePageRecord, TargetMatches, Key, LateError;
  }

  lemma DoLeads(c: Config, s: State, w: Id, op: Op)
    requires CanDo(s, w, op)
    ensures Leads(op, s.puts[w].phase, Do(c, s, w, op).puts[w].phase)
    ensures SameRequest(s.puts[w], Do(c, s, w, op).puts[w])
  {
    DoMovesRecord(c, s, w, op);
    hide CanDo, Moved, Do, Leads;
    if Checks(op) { ChecksLead(c, s, w, op); } else { OthersLead(c, s, w, op); }
  }

  // ── The order of the calls ───────────────────────────────────

  /** The place of a call in the program text; the cleanup calls come after all others. */
  function Rank(op: Op): nat {
    match op
    case CheckVersion => 1
    case CheckPrecondition(_) => 2
    case BeginTx(_) => 3
    case StageRow(_) => 4
    case CreateSentinel => 5
    case SyncSentinel => 6
    case FailSentinel(created, _) => if created then 6 else 5
    case WriteTemp(_) => 7
    case FailTemp(_) => 7
    case IdentifyTemp(_) => 8
    case CheckSymlink(_) => 9
    case InsertDedup => 10
    case RememberSelf(_) => 11
    case RenameTemp(_, _) => 12
    case SyncParent(_) => 13
    case StatTarget(_) => 14
    case HashTarget(_, _) => 15
    case VerifyTarget => 16
    case CommitTx(_) => 17
    case ReleaseDedup => 18
    case DropSentinel(_) => 19
    case UnlinkTemp(_) => 20
    case ReportFailure => 20
    case ClearTracking => 21
    case RemoveSentinel(_) => 22
  }

  /** How many calls a put has made that stands here without a failure. */
  function Progress(ph: Phase): nat {
    match ph
    case VersionChecked => 1
    case PreconditionChecked => 2
    case Begun => 3
    case Staged => 4
    case SentinelCreated => 5
    case SentinelDurable => 6
    case TempWritten => 7
    case TempIdentified => 8
    case SymlinkChecked => 9
    case DedupHeld => 10
    case SelfRemembered => 11
    case Renamed => 12
    case ParentSynced => 13
    case TargetStatted => 14
    case TargetHashed => 15
    case Verified => 16
    case Committed => 17
    case DedupReleased => 18
    case Done(_) => 19
    case _ => 0
  }

  /** No call has failed. */
  predicate OnPath(ph: Phase) {
    && !ph.UndoTemp? && !ph.UndoTracking? && !ph.UndoSentinel? && !ph.UndoRenamed?
    && !ph.Dead? && (ph.Done? ==> ph.result.Ok?)
  }

  /** The calls from the temporary file to the rename after whose failure the dedup key is cleared too. */
  predicate ClearsTracking(n: nat) { n == 7 || n == 9 || n == 11 || n == 12 }

  /** The cleanup calls due after the call of rank `n` has failed. */
  function Cleanup(n: nat): (ranks: seq<nat>)
    ensures |ranks| == if ClearsTracking(n) then 3 else if n == 10 then 2 else if 13 <= n <= 17 then 1 else 0
  {
    if ClearsTracking(n) then [20, 21, 22]
    else if n == 10 then [20, 22]
    else if 13 <= n <= 17 then [20]
    else []
  }

  /** The error due after the call of rank `n` has failed; the first four calls report what they found. */
  predicate ErrorFits(n: nat, e: PutError) {
    if n <= 4 then n > 0 && !LateError(e)
    else if n <= 6 then e == SentinelError
    else if n == 10 then e == DuplicateDedup
    else if n <= 12 then e == IoError
    else if n == 16 then e == ConcurrentRename
    else n <= 17 && e == RecoveryPending
  }

  /** A put in this phase has made its first `n` calls, and then `j` of the cleanup calls due after them. */
  predicate Stands(ph: Phase, n: nat, j: nat) {
    match ph
    case UndoTemp(why, clearsKey) => j == 0 && ErrorFits(n, why) && if clearsKey then ClearsTracking(n) else n == 10
    case UndoTracking(why) => j == 1 && ErrorFits(n, why) && ClearsTracking(n)
    case UndoSentinel(why) => ErrorFits(n, why) && if ClearsTracking(n) then j == 2 else n == 10 && j == 1
    case UndoRenamed(why) => j == 0 && ErrorFits(n, why) && 13 <= n <= 17
    case Dead => true
    case Done(Err(e)) => j == |Cleanup(n)| && ErrorFits(n, e)
    case _ => j == 0 && n == Progress(ph)
  }

  function UpTo(n: nat): seq<nat> { seq(n, k => k + 1) }

  /** The ranks of the first `n` calls and `j` cleanup calls. */
  function Part(n: nat, j: nat): seq<nat>
    requires j <= |Cleanup(n)|
  {
    UpTo(n) + Cleanup(n)[..j]
  }

  function Ranks(ops: seq<Op>): seq<nat> { seq(|ops|, k requires 0 <= k < |ops| => Rank(ops[k])) }

  /** `ops` is what a put in this phase may have done. */
  ghost predicate DoneBy(ph: Phase, ops: seq<Op>) {
    exists n: nat, j: nat :: j <= |Cleanup(n)| && Stands(ph, n, j) && Ranks(ops) == Part(n, j)
  }

  /** The calls put `w` makes along a run. */
  function Calls(acts: seq<Action>, w: Id): seq<Op> {
    if acts == [] then [] else CallOf(acts[0], w) + Calls(acts[1..], w)
  }

  function CallOf(a: Action, w: Id): seq<Op> { if a.Own? && a.w == w then [a.op] else [] }

  /** `ops` is what put `w` has done. */
  ghost predicate Did(s: State, w: Id, ops: seq<Op>) {
    if w in s.puts then DoneBy(s.puts[w].phase, ops) else ops == []
  }

  // ── One step ─────────────────────────────────────────────────

  /** The calls after a failure. */
  predicate CleansUp(op: Op) { op.UnlinkTemp? || op.ReportFailure? || op.ClearTracking? || op.RemoveSentinel? }

  lemma CallFollows(s: State, w: Id, op: Op)
    requires CanDo(s, w, op)
    ensures var ph := s.puts[w].phase; CleansUp(op) || (OnPath(ph) && Rank(op) == Progress(ph) + 1)
  {
  }

  lemma EarlyCallStands(op: Op, before: Phase, after: Phase)
    requires Leads(op, before, after) && !CleansUp(op) && Rank(op) == Progress(before) + 1 <= 9
    ensures Stands(after, Rank(op), 0)
  {
    EarlyErrors();
    hide LateError;
  }

  lemma LateCallStands(op: Op, before: Phase, after: Phase)
    requires Leads(op, before, after) && !CleansUp(op) && Rank(op) == Progress(before) + 1 > 9
    ensures Stands(after, Rank(op), 0)
  {
    hide LateError, FailsBeforeRename;
  }

  /** A call of the text: it succeeds, or it is the one that fails. */
  lemma CallStands(op: Op, before: Phase, after: Phase)
    requires Leads(op, before, after) && !CleansUp(op) && Rank(op) == Progress(before) + 1
    ensures Stands(after, Rank(op), 0)
  {
    hide *;
    if Progress(before) < 9 { EarlyCallStands(op, before, after); } else { LateCallStands(op, before, after); }
  }

  lemma CleanupStands(op: Op, before: Phase, after: Phase, n: nat, j: nat)
    requires Leads(op, before, after) && CleansUp(op) && Stands(before, n, j)
    ensures j < |Cleanup(n)| && Stands(after, n, j + 1) && Cleanup(n)[j] == Rank(op)
  {
  }

  lemma StandsHere(ph: Phase, n: nat, j: nat)
    requires Stands(ph, n, j) && OnPath(ph)
    ensures n == Progress(ph) && j == 0
  {
  }

  lemma CleanupExtends(ops: seq<Op>, op: Op, n: nat, j: nat)
    requires j < |Cleanup(n)| && Ranks(ops) == Part(n, j) && Cleanup(n)[j] == Rank(op)
    ensures Ranks(ops + [op]) == Part(n, j + 1)
  {
    hide Rank, Cleanup;
    assert Ranks(ops + [op]) == Ranks(ops) + [Rank(op)];
    assert Cleanup(n)[..j + 1] == Cleanup(n)[..j] + [Rank(op)];
  }

  lemma TextExtends(ops: seq<Op>, op: Op, n: nat)
    requires Ranks(ops) == Part(n, 0) && Rank(op) == n + 1
    ensures Ranks(ops + [op]) == Part(n + 1, 0)
  {
    hide Rank, Cleanup;
    assert Ranks(ops + [op]) == Ranks(ops) + [Rank(op)];
    assert Ranks(ops) == UpTo(n) && UpTo(n + 1) == UpTo(n) + [n + 1];
  }

  lemma CallExtends(op: Op, before: Phase, after: Phase, ops: seq<Op>)
    requires DoneBy(before, ops) && Leads(op, before, after)
    requires CleansUp(op) || (OnPath(before) && Rank(op) == Progress(before) + 1)
    ensures DoneBy(after, ops + [op])
  {
    hide Rank, Leads, Stands, Progress, Cleanup, ErrorFits, OnPath, Ranks, Part;
    var n: nat, j: nat :| j <= |Cleanup(n)| && Stands(before, n, j) && Ranks(ops) == Part(n, j);
    if CleansUp(op) {
      CleanupStands(op, before, after, n, j);
      CleanupExtends(ops, op, n, j);
    } else {
      CallStands(op, before, after);
      StandsHere(before, n, j);
      TextExtends(ops, op, n);
    }
  }

  /** What others do leaves the put where it is, unless it dies. */
  lemma OthersKeepPhase(c: Config, s: State, a: Action, w: Id)
    requires Enabled(c, s, a) && w in s.puts && !(a.Own? && a.w == w)
    ensures w in Step(c, s, a).puts
    ensures Step(c, s, a).puts[w].phase == s.puts[w].phase || Step(c, s, a).puts[w].phase.Dead?
  {
    if a.Own? { DoMovesRecord(c, s, a.w, a.op); }
    hide Do, CanDo;
  }

  lemma DyingKeeps(before: Phase, after: Phase, ops: seq<Op>)
    requires DoneBy(before, ops) && (after == before || after.Dead?)
    ensures DoneBy(after, ops)
  {
    hide Ranks, Part;
    var n: nat, j: nat :| j <= |Cleanup(n)| && Stands(before, n, j) && Ranks(ops) == Part(n, j);
    assert Stands(after, n, j);
  }

  lemma NothingDone(ph: Phase)
    requires ph.VersionRead?
    ensures DoneBy(ph, [])
  {
    assert Stands(ph, 0, 0) && Ranks([]) == Part(0, 0);
  }

  lemma StepKeepsDid(c: Config, s: State, a: Action, w: Id, ops: seq<Op>)
    requires Did(s, w, ops) && Enabled(c, s, a)
    ensures Did(Step(c, s, a), w, ops + CallOf(a, w))
  {
    hide Do, CanDo, DoneBy, Rank, Leads;
    var t := Step(c, s, a);
    if a.Own? && a.w == w {
      DoMovesRecord(c, s, w, a.op);
      DoLeads(c, s, w, a.op);
      CallFollows(s, w, a.op);
      CallExtends(a.op, s.puts[w].phase, t.puts[w].phase, ops);
    } else {
      assert ops + CallOf(a, w) == ops;
      if w in s.puts {
        OthersKeepPhase(c, s, a, w);
        DyingKeeps(s.puts[w].phase, t.puts[w].phase, ops);
      } else if w in t.puts {
        StartsOnlyByStart(c, s, a, w);
        NothingDone(t.puts[w].phase);
      }
    }
  }

  // ── Whole runs ───────────────────────────────────────────────

  /**
   In every run a put has made the first calls of the program text, in order and each once, up to
   where it stands; if one of them failed, then no later one, but the cleanup due after it, in order,
   and the error it reports is the one due. So no rename comes without a synced sentinel before it,
   no commit without the directory sync and the comparison, and no sentinel goes before the commit.
  */
  lemma {:induction false} CallsInOrder(c: Config, s: State, acts: seq<Action>, t: State, w: Id, ops: seq<Op>)
    requires Did(s, w, ops) && Run(c, s, acts, t)
    ensures Did(t, w, ops + Calls(acts, w))
    decreases |acts|
  {
    hide Did, Step, Enabled, CallOf;
    if acts == [] {
      assert ops + Calls(acts, w) == ops;
    } else {
      StepKeepsDid(c, s, acts[0], w, ops);
      CallsInOrder(c, Step(c, s, acts[0]), acts[1..], t, w, ops + CallOf(acts[0], w));
      assert ops + Calls(acts, w) == ops + CallOf(acts[0], w) + Calls(acts[1..], w);
    }
  }

  /** The same for the two ways a put can return. */
  lemma CallsOfReturnedPut(c: Config, s: State, acts: seq<Action>, t: State, w: Id)
    requires Init(s) && Run(c, s, acts, t) && w in t.puts && t.puts[w].phase.Done?
    ensures match t.puts[w].phase.result
            case Ok(_) => Ranks(Calls(acts, w)) == UpTo(19)
            case Err(e) => exists n: nat :: ErrorFits(n, e) && Ranks(Calls(acts, w)) == UpTo(n) + Cleanup(n)
  {
    hide Run, Rank, Ranks, Calls;
    CallsInOrder(c, s, acts, t, w, []);
    assert [] + Calls(acts, w) == Calls(acts, w);
    var n: nat, j: nat :| j <= |Cleanup(n)| && Stands(t.puts[w].phase, n, j) && Ranks(Calls(acts, w)) == Part(n, j);
    if t.puts[w].phase.result.Ok? { assert Part(19, 0) == UpTo(19); } else { assert Cleanup(n)[..j] == Cleanup(n); }
  }
}
