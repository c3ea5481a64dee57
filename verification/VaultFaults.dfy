/**
 What makes a put fail: a call that fails, a check that refuses, or a state others have left; nothing
 else. So a put that nothing stands against succeeds.
*/
module VaultFaults {
  import opened Wrappers
  import opened VaultMachine
  import opened VaultSafety
  import opened VaultOrder
  import opened VaultVersions
  import opened VaultConflicts
  import opened VaultScenarios

  // ── What stands against a call ───────────────────────────────

  /** The calls that report failure of their own. */
  predicate CanFail(op: Op) {
    && !op.CheckVersion? && !op.InsertDedup? && !op.VerifyTarget? && !op.ReleaseDedup?
    && !op.ClearTracking? && !op.ReportFailure?
  }

  /** The call reports success. */
  predicate Works(op: Op) {
    match op
    case CheckPrecondition(ok) => ok
    case BeginTx(ok) => ok
    case StageRow(ok) => ok
    case FailSentinel(_, _) => false
    case FailTemp(_) => false
    case IdentifyTemp(ok) => ok
    case CheckSymlink(ok) => ok
    case RememberSelf(ok) => ok
    case RenameTemp(_, ok) => ok
    case SyncParent(ok) => ok
    case StatTarget(ok) => ok
    case HashTarget(_, ok) => ok
    case CommitTx(ok) => ok
    case DropSentinel(unlinked) => unlinked
    case UnlinkTemp(unlinked) => unlinked
    case RemoveSentinel(unlinked) => unlinked
    case _ => true
  }

  /** Others hold the lock, or have removed the file. */
  predicate Blocked(s: State, op: Op) {
    || (op.BeginTx? && !s.lock.Free?)
    || ((op.StatTarget? || op.HashTarget?) && s.dir != [] && s.Target().Missing?)
  }

  /** The file is as the page row says it was left: unchanged by its stat or its digest, or neither exists. */
  predicate FileFits(c: Config, row: Option<Row>, e: Entry) {
    match row
    case None => e.Missing?
    case Some(r) => SameStat(r.fileState, e) || (e.Regular? && c.sha(e.bytes) == r.fileState.sha)
  }

  /** What a call that works finds wrong. */
  predicate Refuses(c: Config, s: State, w: Id, op: Op)
    requires s.dir != [] && w in s.puts
  {
    var p := s.puts[w];
    match op
    // an update needs the version that was read; a creation takes any
    case CheckVersion => p.read.Some? && p.expected != p.read
    case CheckPrecondition(_) => !FileFits(c, s.db.row, s.Target())
    case StageRow(_) => RowVersion(s.db.row) != p.read
    case CheckSymlink(ok) => ok && s.Target().Symlink?
    case InsertDedup => (p.proc, c.sha(p.bytes)) in s.dedup
    case VerifyTarget =>
      !(p.seen.size == |p.bytes| && p.seen.inode == p.tempInode && c.sha(p.hashed) == c.sha(p.bytes))
    case _ => false
  }

  /** A call whose failure ends the put: all but the symlink check and the last unlink. */
  predicate Fatal(op: Op) { CanFail(op) && !CleansUp(op) && !op.CheckSymlink? && !op.DropSentinel? }

  /** A put goes on past a call of the text exactly if the call works and refuses nothing. */
  lemma GoesOnIff(c: Config, s: State, w: Id, op: Op)
    requires CanDo(s, w, op) && !CleansUp(op) && ExpectsWhatItRead(s.puts[w])
    ensures OnPath(Do(c, s, w, op).puts[w].phase) <==> (Fatal(op) ==> Works(op)) && !Refuses(c, s, w, op)
  {
    DoMovesRecord(c, s, w, op);
    DoLeads(c, s, w, op);
    hide Do;
    if Checks(op) { CheckGoesOnIff(c, s, w, op); } else { CallGoesOnIff(c, s, w, op); }
  }

  lemma CheckGoesOnIff(c: Config, s: State, w: Id, op: Op)
    requires CanDo(s, w, op) && Checks(op) && ExpectsWhatItRead(s.puts[w])
    ensures OnPath(Moved(c, s, w, op).phase) <==> Works(op) && !Refuses(c, s, w, op)
  {
    hide Leads;
  }

  lemma CallGoesOnIff(c: Config, s: State, w: Id, op: Op)
    requires CanDo(s, w, op) && !Checks(op) && !CleansUp(op)
    ensures OnPath(Moved(c, s, w, op).phase) <==> (Fatal(op) ==> Works(op)) && !Refuses(c, s, w, op)
  {
    hide CheckUpdateExpectedVersion, InspectPrecondition, StagePageRecord, FileFits, SameStat;
  }

  // ── Runs in which given calls fail ───────────────────────────

  /** A call that can fail works exactly if it is not among those that fail and others do not stand in its way. */
  predicate MeetsFaults(s: State, op: Op, faults: set<nat>) {
    CanFail(op) ==> (Works(op) <==> Rank(op) !in faults && !Blocked(s, op))
  }

  /** Along the run the calls of put `w` fail whose ranks are in `faults`, or which others stand in the way of. */
  ghost predicate FaultsDecide(c: Config, s: State, acts: seq<Action>, w: Id, faults: set<nat>)
    decreases |acts|
  {
    acts != [] && Enabled(c, s, acts[0]) ==>
      && (acts[0].Own? && acts[0].w == w ==> MeetsFaults(s, acts[0].op, faults))
      && FaultsDecide(c, Step(c, s, acts[0]), acts[1..], w, faults)
  }

  lemma {:induction false} FaultsGrow(c: Config, s: State, acts: seq<Action>, t: State, a: Action, w: Id,
                                      faults: set<nat>)
    requires Run(c, s, acts, t) && FaultsDecide(c, s, acts, w, faults) && Enabled(c, t, a)
    requires a.Own? && a.w == w ==> MeetsFaults(t, a.op, faults)
    ensures FaultsDecide(c, s, acts + [a], w, faults)
    decreases |acts|
  {
    hide Enabled, Step, MeetsFaults;
    if acts == [] {
      assert acts + [a] == [a];
      assert FaultsDecide(c, Step(c, t, a), [], w, faults);
    } else {
      assert (acts + [a])[1..] == acts[1..] + [a];
      FaultsGrow(c, Step(c, s, acts[0]), acts[1..], t, a, w, faults);
    }
  }

  /** A call of put `w` that fails: it is among the faults, others stand in its way, or it refuses what it finds. */
  predicate FailsHere(c: Config, s: State, a: Action, w: Id, faults: set<nat>) {
    && a.Own? && a.w == w && w in s.puts && s.dir != [] && !CleansUp(a.op)
    && ((Fatal(a.op) && (Rank(a.op) in faults || Blocked(s, a.op))) || Refuses(c, s, w, a.op))
  }

  /** Somewhere along the run put `w` makes a call that fails. */
  ghost predicate SomeCallFails(c: Config, s: State, acts: seq<Action>, w: Id, faults: set<nat>)
    decreases |acts|
  {
    acts != [] && Enabled(c, s, acts[0])
    && (FailsHere(c, s, acts[0], w, faults) || SomeCallFails(c, Step(c, s, acts[0]), acts[1..], w, faults))
  }

  /** The put has failed or died. */
  predicate Fallen(s: State, w: Id) { w in s.puts && !OnPath(s.puts[w].phase) }

  lemma CleanupIsOffPath(s: State, w: Id, op: Op)
    requires CanDo(s, w, op) && CleansUp(op)
    ensures !OnPath(s.puts[w].phase)
  {
  }

  lemma OwnStepGoesOnIff(c: Config, s: State, a: Action, w: Id, faults: set<nat>)
    requires VersionInv(c, s) && Enabled(c, s, a) && a.Own? && a.w == w && MeetsFaults(s, a.op, faults)
    requires w in s.puts && OnPath(s.puts[w].phase)
    ensures w in Step(c, s, a).puts
    ensures Fallen(Step(c, s, a), w) <==> FailsHere(c, s, a, w, faults)
  {
    hide VersionInv, Do, CanDo, Refuses, OnPath, CanFail, Works, Rank, ExpectsWhatItRead, CleansUp;
    KnowsWhatItExpects(c, s, w);
    OwnsPut(s, w, a.op);
    DoMovesRecord(c, s, w, a.op);
    if CleansUp(a.op) { CleanupIsOffPath(s, w, a.op); }
    GoesOnIff(c, s, w, a.op);
  }

  lemma KnowsWhatItExpects(c: Config, s: State, w: Id)
    requires VersionInv(c, s) && w in s.puts
    ensures s.dir != [] && ExpectsWhatItRead(s.puts[w])
  {
    assert RecordFits(c, s.puts[w], s.db.row);
  }

  lemma FallenStays(c: Config, s: State, a: Action, w: Id)
    requires Enabled(c, s, a) && Fallen(s, w)
    ensures Fallen(Step(c, s, a), w)
    ensures s.puts[w].phase.Dead? ==> Step(c, s, a).puts[w].phase.Dead?
  {
    hide Do, CanDo, Moved, Rank, Progress;
    if a.Own? && a.w == w {
      CallFollows(s, w, a.op);
      DoMovesRecord(c, s, w, a.op);
      DoLeads(c, s, w, a.op);
    } else {
      OthersKeepPhase(c, s, a, w);
    }
  }

  lemma {:induction false} FallenEnds(c: Config, s: State, acts: seq<Action>, t: State, w: Id)
    requires Run(c, s, acts, t) && Fallen(s, w)
    ensures Fallen(t, w) && (s.puts[w].phase.Dead? ==> t.puts[w].phase.Dead?)
    decreases |acts|
  {
    hide Enabled, Step, OnPath;
    if acts != [] {
      FallenStays(c, s, acts[0], w);
      FallenEnds(c, Step(c, s, acts[0]), acts[1..], t, w);
    }
  }

  /** What others do fells a put only by killing it. */
  lemma OthersFell(c: Config, s: State, a: Action, w: Id)
    requires Enabled(c, s, a) && !(a.Own? && a.w == w) && !Fallen(s, w)
    ensures var t := Step(c, s, a); Fallen(t, w) ==> t.puts[w].phase.Dead?
  {
    if w in s.puts {
      OthersKeepPhase(c, s, a, w);
    } else if w in Step(c, s, a).puts {
      StartsOnlyByStart(c, s, a, w);
    }
    hide Do, CanDo, Enabled, Step;
  }

  /**
   A put that returned has failed exactly if it made a call that fails: one among the faults, one that
   others stood in the way of, or a check that refused what it found.
  */
  lemma {:induction false} ErrIffSomeCallFails(c: Config, s: State, acts: seq<Action>, t: State, w: Id,
                                              faults: set<nat>)
    requires VersionInv(c, s) && !Fallen(s, w) && Run(c, s, acts, t) && FaultsDecide(c, s, acts, w, faults)
    requires w in t.puts && t.puts[w].phase.Done?
    ensures t.puts[w].phase.result.Err? <==> SomeCallFails(c, s, acts, w, faults)
    decreases |acts|
  {
    hide VersionInv, Enabled, Step, FailsHere, MeetsFaults;
    if acts == [] {
    } else {
      var a, next := acts[0], Step(c, s, acts[0]);
      StepKeepsVersions(c, s, a);
      if a.Own? && a.w == w {
        OwnsCalls(c, s, a);
        OwnStepGoesOnIff(c, s, a, w, faults);
      } else {
        OthersFell(c, s, a, w);
        assert !FailsHere(c, s, a, w, faults) by { OthersDoNotFail(c, s, a, w, faults); }
      }
      if Fallen(next, w) {
        FallenEnds(c, next, acts[1..], t, w);
      } else {
        ErrIffSomeCallFails(c, next, acts[1..], t, w, faults);
      }
    }
  }

  lemma OwnsCalls(c: Config, s: State, a: Action)
    requires Enabled(c, s, a) && a.Own?
    ensures a.w in s.puts
  {
  }

  lemma OthersDoNotFail(c: Config, s: State, a: Action, w: Id, faults: set<nat>)
    requires !(a.Own? && a.w == w)
    ensures !FailsHere(c, s, a, w, faults)
  {
  }

  // ── A put that nothing stands against ────────────────────────

  /** Only put `w` acts. */
  predicate Alone(acts: seq<Action>, w: Id) {
    forall k :: 0 <= k < |acts| ==> (acts[k].Own? || acts[k].Start?) && acts[k].w == w
  }

  /** The same request, perhaps with other numbers for the file. */
  predicate SameAsk(r: Request, q: Request) { q == r.(inode := q.inode, stamp := q.stamp) }

  function With(r: Request, op: Op): (q: Request)
    ensures SameAsk(r, q)
  {
    match op
    case WriteTemp(inode) => r.(inode := inode)
    case RenameTemp(stamp, _) => r.(stamp := stamp)
    case _ => r
  }

  /** What the kernel gives the file does not matter before it is there. */
  lemma WithIsAt(c: Config, s: State, r: Request, k: nat, op: Op)
    requires 0 < k < 20 && Rank(op) == k && Works(op)
    ensures At(c, s, With(r, op), k) == At(c, s, r, k)
    ensures op == OpAt(With(r, op), k) || op.HashTarget?
    ensures Ready(c, s, r) ==> Ready(c, s, With(r, op))
  {
  }

  lemma NothingBlocks(c: Config, s: State, r: Request, k: nat, op: Op)
    requires 0 < k < 20 && Fit(c, s, r) && Rank(op) == k
    ensures At(c, s, r, k).dir != [] && !Blocked(At(c, s, r, k), op)
  {
  }

  /** A symlink's target does not matter where there is no symlink. */
  lemma LinkDoesNotMatter(c: Config, s: State, r: Request, linked: Bytes)
    requires Fit(c, s, r) && CanDo(At(c, s, r, 15), r.w, HashTarget(linked, true))
    ensures CanDo(At(c, s, r, 15), r.w, HashTarget([], true))
    ensures Do(c, At(c, s, r, 15), r.w, HashTarget(linked, true)) == Do(c, At(c, s, r, 15), r.w, HashTarget([], true))
  {
    hide Fit, DbAfterPut;
    var u := At(c, s, r, 15);
    assert Moved(c, u, r.w, HashTarget(linked, true)) == Moved(c, u, r.w, HashTarget([], true));
  }

  /** The only call a put can make after `k` of its twenty is the next one. */
  lemma NextCall(c: Config, s: State, r: Request, k: nat, op: Op)
    requires 0 < k <= 20 && CanDo(At(c, s, r, k), r.w, op)
    ensures k < 20 && Rank(op) == k
  {
    hide CanDo, At, PhaseAt, Progress, Rank, OnPath;
    var u := At(c, s, r, k);
    OwnsPut(u, r.w, op);
    PhaseOfAt(c, s, r, k);
    ProgressOfAt(s.db.row, k);
    CallFollows(u, r.w, op);
    if CleansUp(op) { CleanupIsOffPath(u, r.w, op); }
    NineteenCalls(op);
  }

  lemma PhaseOfAt(c: Config, s: State, r: Request, k: nat)
    requires 0 < k <= 20
    ensures var u := At(c, s, r, k); r.w in u.puts && u.puts[r.w].phase == PhaseAt(s.db.row, k)
  {
    hide DbAfterPut;
  }

  lemma ProgressOfAt(row: Option<Row>, k: nat)
    requires 0 < k <= 20
    ensures OnPath(PhaseAt(row, k)) && Progress(PhaseAt(row, k)) == k - 1
  {
  }

  lemma NineteenCalls(op: Op)
    ensures !CleansUp(op) ==> Rank(op) < 20
  {
  }

  lemma BegunPut(c: Config, s: State, r: Request, k: nat, a: Action)
    requires 0 < k <= 20 && Enabled(c, At(c, s, r, k), a) && Alone([a], r.w)
    ensures a.Own? && a.w == r.w && CanDo(At(c, s, r, k), r.w, a.op)
    ensures Step(c, At(c, s, r, k), a) == Do(c, At(c, s, r, k), r.w, a.op)
  {
    hide CanDo, Do, PutAt, DbAfterPut;
    assert [a][0] == a;
  }

  lemma UnblockedWorks(s: State, op: Op)
    requires MeetsFaults(s, op, {}) && !Blocked(s, op)
    ensures Works(op)
  {
  }

  lemma PlannedStep(c: Config, s: State, r: Request, k: nat)
    requires 0 < k < 20 && StepsOn(c, s, r, k)
    ensures CanDo(At(c, s, r, k), r.w, OpAt(r, k))
    ensures Do(c, At(c, s, r, k), r.w, OpAt(r, k)) == At(c, s, r, k + 1)
  {
    hide At, OpAt, Do, CanDo;
  }

  lemma HashIsFifteenth(r: Request, op: Op)
    requires op.HashTarget? && Works(op)
    ensures Rank(op) == 15 && op == HashTarget(op.linked, true) && OpAt(r, 15) == HashTarget([], true)
  {
  }

  /** A step taken alone, with no call failing, is the next of the twenty. */
  lemma AloneStepsOn(c: Config, s: State, r: Request, k: nat, a: Action)
    requires 0 < k <= 20 && Ready(c, s, r) && Enabled(c, At(c, s, r, k), a) && Alone([a], r.w)
    requires a.Own? ==> MeetsFaults(At(c, s, r, k), a.op, {})
    ensures a.Own? && k < 20 && Ready(c, s, With(r, a.op))
    ensures Step(c, At(c, s, r, k), a) == At(c, s, With(r, a.op), k + 1)
  {
    hide At, Ready, Fit, Enabled, Step, CanDo, Do, OpAt, StepsOn, MeetsFaults, Works, Blocked, Rank, With, Alone;
    BegunPut(c, s, r, k, a);
    NextCall(c, s, r, k, a.op);
    ReadyIsFit(c, s, r);
    NothingBlocks(c, s, r, k, a.op);
    UnblockedWorks(At(c, s, r, k), a.op);
    WithIsAt(c, s, r, k, a.op);
    var r' := With(r, a.op);
    ReadyIsFit(c, s, r');
    PutStepsOn(c, s, r', k);
    PlannedStep(c, s, r', k);
    if a.op.HashTarget? {
      HashIsFifteenth(r', a.op);
      LinkDoesNotMatter(c, s, r', a.op.linked);
    }
  }

  lemma {:induction false} AloneRun(c: Config, s: State, r: Request, k: nat, acts: seq<Action>, t: State)
    returns (q: Request, n: nat)
    requires 0 < k <= 20 && Ready(c, s, r) && Run(c, At(c, s, r, k), acts, t) && Alone(acts, r.w)
    requires FaultsDecide(c, At(c, s, r, k), acts, r.w, {})
    ensures SameAsk(r, q) && Ready(c, s, q) && k <= n <= 20 && t == At(c, s, q, n)
    decreases |acts|
  {
    hide At, Ready, Enabled, Step, MeetsFaults;
    if acts == [] {
      q, n := r, k;
    } else {
      assert Alone([acts[0]], r.w) && Alone(acts[1..], r.w);
      OnlyPuts(acts, r.w);
      AloneStepsOn(c, s, r, k, acts[0]);
      q, n := AloneRun(c, s, With(r, acts[0].op), k + 1, acts[1..], t);
    }
  }

  lemma OnlyPuts(acts: seq<Action>, w: Id)
    requires Alone(acts, w) && acts != []
    ensures (acts[0].Own? || acts[0].Start?) && acts[0].w == w
  {
  }

  lemma EndIsLast(c: Config, s: State, r: Request, n: nat)
    requires 0 < n <= 20 && r.w in At(c, s, r, n).puts && At(c, s, r, n).puts[r.w].phase.Done?
    ensures n == 20
  {
    hide DbAfterPut;
  }

  /**
   A put that nothing stands against succeeds: in every run in which it alone acts and no call fails,
   from a state that is ready for it, it returns success and has stored its bytes as the next version.
  */
  lemma AlonePutSucceeds(c: Config, s: State, r: Request, acts: seq<Action>, t: State) returns (q: Request)
    requires Ready(c, s, r) && Run(c, s, acts, t) && Alone(acts, r.w) && FaultsDecide(c, s, acts, r.w, {})
    requires acts != [] && acts[0] == Start(r.w, r.proc, r.bytes, r.expected)
    requires r.w in t.puts && t.puts[r.w].phase.Done?
    ensures SameAsk(r, q) && StoredBy(c, s, t, q)
  {
    hide At, Ready, Enabled, Step, MeetsFaults, StoredBy;
    ReadyIsFit(c, s, r);
    PutStepsOn(c, s, r, 0);
    StartedPut(c, s, r);
    assert Alone(acts[1..], r.w);
    var n: nat;
    q, n := AloneRun(c, s, r, 1, acts[1..], t);
    EndIsLast(c, s, q, n);
    LastIsStored(c, s, q);
  }

  lemma StartedPut(c: Config, s: State, r: Request)
    requires StepsOn(c, s, r, 0)
    ensures var a := Start(r.w, r.proc, r.bytes, r.expected);
            Enabled(c, s, a) && Step(c, s, a) == At(c, s, r, 1)
  {
    hide Enabled, Step;
  }

  // ── Runs that are continued ──────────────────────────────────

  lemma {:induction false} PutStays(c: Config, s: State, acts: seq<Action>, t: State, w: Id)
    requires Run(c, s, acts, t) && w in s.puts
    ensures w in t.puts
    decreases |acts|
  {
    hide Enabled, Step;
    if acts != [] {
      StepKeepsPut(c, s, acts[0], w);
      PutStays(c, Step(c, s, acts[0]), acts[1..], t, w);
    }
  }

  lemma StepKeepsPut(c: Config, s: State, a: Action, w: Id)
    requires Enabled(c, s, a) && w in s.puts
    ensures w in Step(c, s, a).puts
  {
    if a.Own? && a.w == w { DoMovesRecord(c, s, w, a.op); } else { OthersKeepPhase(c, s, a, w); }
    hide Do;
  }

  /** A put that has not begun has made no call. */
  lemma {:induction false} NothingDecided(c: Config, s: State, acts: seq<Action>, t: State, w: Id, faults: set<nat>)
    requires Run(c, s, acts, t) && w !in t.puts
    ensures FaultsDecide(c, s, acts, w, faults)
    decreases |acts|
  {
    hide Enabled, Step, MeetsFaults;
    if acts != [] {
      if acts[0].Own? && acts[0].w == w {
        OwnsCalls(c, s, acts[0]);
        PutStays(c, s, acts, t, w);
      }
      NothingDecided(c, Step(c, s, acts[0]), acts[1..], t, w, faults);
    }
  }

  /** What a run says about its continuation. */
  lemma {:induction false} Continued(c: Config, s: State, before: seq<Action>, t: State, after: seq<Action>, u: State,
                                     w: Id, faults: set<nat>)
    requires Run(c, s, before, t) && Run(c, s, before + after, u) && FaultsDecide(c, s, before + after, w, faults)
    ensures Run(c, t, after, u) && FaultsDecide(c, t, after, w, faults)
    decreases |before|
  {
    hide Enabled, Step, MeetsFaults;
    if before == [] {
      assert before + after == after;
    } else {
      assert (before + after)[1..] == before[1..] + after;
      Continued(c, Step(c, s, before[0]), before[1..], t, after, u, w, faults);
    }
  }

  lemma StoredReports(c: Config, s: State, t: State, r: Request)
    requires StoredBy(c, s, t, r)
    ensures r.w in t.puts && t.puts[r.w].phase == Done(Ok(
              if s.db.row.None? then Stored(true, 1) else Stored(false, s.db.row.value.version + 1)))
  {
  }

  /** A run that goes on with a put that nothing stands against. */
  lemma AloneContinues(c: Config, origin: State, before: seq<Action>, s: State, acts: seq<Action>, t: State, r: Request)
    requires Run(c, origin, before, s) && Run(c, origin, before + acts, t)
    requires FaultsDecide(c, origin, before + acts, r.w, {}) && Alone(acts, r.w) && Ready(c, s, r)
    requires acts != [] && acts[0] == Start(r.w, r.proc, r.bytes, r.expected)
    requires r.w in t.puts && t.puts[r.w].phase.Done?
    ensures t.puts[r.w].phase.result ==
            Ok(if s.db.row.None? then Stored(true, 1) else Stored(false, s.db.row.value.version + 1))
    ensures exists q :: SameAsk(r, q) && StoredBy(c, s, t, q)
  {
    hide Run, FaultsDecide, Alone, Ready, StoredBy;
    Continued(c, origin, before, s, acts, t, r.w, {});
    var q := AlonePutSucceeds(c, s, r, acts, t);
    StoredReports(c, s, t, q);
  }
}
