/**
 The put as the program text runs it: system calls in order, each failure branch with its cleanup,
 and other writers, outsiders and the kernel acting between any two calls.
*/
module PutProtocol {
  import opened Wrappers
  import opened VaultMachine
  import opened VaultSafety
  import opened VaultOrder
  import opened VaultVersions
  import opened VaultRegistry
  import opened VaultScenarios
  import opened VaultFaults

  class Vault {
    const c: Config
    var s: State
    ghost var origin: State
    ghost var trace: seq<Action>

    /** The present state was reached from a clean start by recorded steps that lose no commit and no sentinel. */
    ghost predicate Valid()
      reads this
    {
      && Init(origin) && Run(c, origin, trace, s)
      && KeepsCommits(c, origin, trace) && KeepsSentinels(c, origin, trace)
    }

    constructor (c: Config)
      ensures Valid() && this.c == c && s.puts == map[] && trace == []
    {
      this.c := c;
      s := State(Db(None, []), [], [Missing(Settled)], Absent, Absent, {}, {}, {}, {}, {}, Free, Idle, map[]);
      origin := State(Db(None, []), [], [Missing(Settled)], Absent, Absent, {}, {}, {}, {}, {}, Free, Idle, map[]);
      trace := [];
    }

    /**
     The present run goes on from `before`; of the calls of put `w`, those have failed whose ranks are in
     `faults`, or which others stood in the way of.
    */
    ghost predicate Obeys(w: Id, faults: set<nat>, before: seq<Action>)
      reads this
    {
      Valid() && FaultsDecide(c, origin, trace, w, faults) && before <= trace
    }

    /** One step of the machine, recorded. */
    method Take(a: Action, ghost w: Id, ghost faults: set<nat>, ghost before: seq<Action>)
      requires Obeys(w, faults, before) && Enabled(c, s, a) && !a.PowerLoss?
      requires a.Own? && a.w == w ==> MeetsFaults(s, a.op, faults)
      modifies this`s, this`trace
      ensures Obeys(w, faults, before) && s == Step(c, old(s), a) && trace == old(trace) + [a]
    {
      TraceGrows(c, origin, trace, s, a);
      FaultsGrow(c, origin, trace, s, a, w, faults);
      s := Step(c, s, a);
      trace := trace + [a];
    }

    /** Anything the surroundings may do while put `w` is between two calls and its process lives. */
    method Interfere(w: Id, ghost faults: set<nat>, ghost before: seq<Action>)
      requires Obeys(w, faults, before) && w in s.puts && !Finished(s.puts[w].phase)
      modifies this`s, this`trace
      ensures Obeys(w, faults, before)
      ensures w in s.puts && s.puts[w] == old(s.puts[w]) && s.dir != []
    {
      hide FaultsDecide, KeepsCommits, KeepsSentinels, Run;
      var n :| 0 <= n;
      ReachedHasTarget(c, origin, trace, s);
      for i := 0 to n
        invariant Obeys(w, faults, before)
        invariant w in s.puts && s.puts[w] == old(s.puts[w]) && s.dir != []
      {
        var a: Action := *;
        if Enabled(c, s, a) && !a.PowerLoss? && !(a.Own? && a.w == w) && !(a.Kill? && a.proc == s.puts[w].proc) {
          OthersLeaveRecord(c, s, a, w);
          Take(a, w, faults, before);
          ReachedHasTarget(c, origin, trace, s);
        }
      }
    }

    /** A call of put `w`, then whatever happens before its next call. Returns where the put stands. */
    method Perform(w: Id, op: Op, ghost faults: set<nat>, ghost before: seq<Action>) returns (ph: Phase)
      requires Obeys(w, faults, before) && CanDo(s, w, op) && MeetsFaults(s, op, faults)
      modifies this`s, this`trace
      ensures Obeys(w, faults, before) && w in s.puts && s.dir != []
      ensures ph == s.puts[w].phase && Leads(op, old(s.puts[w].phase), ph) && SameRequest(old(s.puts[w]), s.puts[w])
      ensures Finished(ph) ==> SlugLockFree(s, s.puts[w].proc)
    {
      DoMovesRecord(c, s, w, op);
      DoLeads(c, s, w, op);
      ExitFacts(c, origin, trace, s, w, op);
      Take(Own(w, op), w, faults, before);
      ph := s.puts[w].phase;
      if !Finished(ph) { Interfere(w, faults, before); } else { ReachedHasTarget(c, origin, trace, s); }
    }

    /** The put reads the page's row. */
    method Begin(w: Id, proc: nat, bytes: Bytes, expected: Option<nat>, ghost faults: set<nat>)
      requires Valid() && w !in s.puts && SlugLockFree(s, proc)
      modifies this`s, this`trace
      ensures Obeys(w, faults, old(trace) + [Start(w, proc, bytes, expected)]) && s.At(w, VersionRead) && s.dir != []
      ensures s.puts[w].bytes == bytes && s.puts[w].expected == expected && s.puts[w].proc == proc
    {
      hide FaultsDecide, KeepsCommits, KeepsSentinels, MeetsFaults, Run;
      ReachedHasTarget(c, origin, trace, s);
      NothingDecided(c, origin, trace, s, w, faults);
      Take(Start(w, proc, bytes, expected), w, faults, trace);
      Interfere(w, faults, trace);
    }

    /**
     `put_from_string_with_output` from the moment it holds the slug lock: read the row, then persist.
     `faults` are the ranks of the calls that fail when they are reached.
    */
    method PutLocked(w: Id, proc: nat, bytes: Bytes, expected: Option<nat>, faults: set<nat>)
      returns (r: Result<Outcome, PutError>)
      requires Valid() && w !in s.puts && SlugLockFree(s, proc)
      modifies this`s, this`trace
      ensures Obeys(w, faults, old(trace)) && w in s.puts && s.puts[w].phase == Done(r)
      ensures s.puts[w].bytes == bytes && s.puts[w].expected == expected && s.puts[w].proc == proc
      // it fails exactly if one of its calls is among the faults, meets what others did, or refuses what it finds
      ensures r.Err? <==> SomeCallFails(c, origin, trace, w, faults)
      // with no faults and nobody else at work, a put that passes the checks stores its bytes as the next version
      ensures var ask := Request(w, proc, bytes, expected, 0, 0);
              faults == {} && Alone(trace[|old(trace)|..], w) && Ready(c, old(s), ask) ==>
                && r == Ok(if old(s.db.row).None? then Stored(true, 1)
                           else Stored(false, old(s.db.row).value.version + 1))
                && exists q :: SameAsk(ask, q) && StoredBy(c, old(s), s, q)
      // all or nothing, as the caller sees it on return
      ensures HealsFit(c, origin, trace) ==> Coherent(c, s.db.row)
      ensures r.Ok? ==> exists i :: && 0 <= i < |s.db.log| && c.sha(s.puts[w].hashed) == c.sha(bytes)
                                    && s.db.log[i] == Put(w, expected, r.value.version, bytes, s.puts[w].hashed)
      ensures r.Err? ==> forall i :: 0 <= i < |s.db.log| && s.db.log[i].Put? ==> s.db.log[i].id != w
      ensures r.Err? && !LateError(r.error) ==> forall e :: e in s.dir ==> e.author != Writer(w)
      ensures forall k :: k in s.dedup ==> k.0 != proc
      // after a late error the sentinel is there, unless a recovery ended since the put began
      ensures r.Err? && LateError(r.error) && w !in s.durable ==> RecoveredSinceStart(trace, w)
      // the calls made: all, or those up to the one that failed and the cleanup and error due after it
      ensures match r
              case Ok(_) => Ranks(Calls(trace, w)) == UpTo(19)
              case Err(e) => exists n: nat :: ErrorFits(n, e) && Ranks(Calls(trace, w)) == UpTo(n) + Cleanup(n)
    {
      hide ErrorFits, Cleanup, UpTo, Ranks, Calls, Coherent, HealsFit, KeepsCommits, KeepsSentinels, FaultsDecide,
           SomeCallFails, MeetsFaults, StoredBy, Ready, LateError, RecoveredSinceStart, Alone, Do, CanDo, Run;
      ghost var before, began, ask := trace, s, Request(w, proc, bytes, expected, 0, 0);
      Begin(w, proc, bytes, expected, faults);
      r := PersistWithVaultWrite(w, faults, before + [Start(w, proc, bytes, expected)]);
      AllOrNothing(c, origin, trace, s, w);
      ExitClearsKeys(c, origin, trace, s, w);
      CallsOfReturnedPut(c, origin, trace, s, w);
      LateErrorKeepsSentinel(c, origin, trace, s, w, r);
      ErrIffFails(c, origin, trace, s, w, faults);
      assert trace == before + trace[|before|..] && trace[|before|..][0] == Start(w, proc, bytes, expected);
      AloneOutcome(c, origin, before, began, trace[|before|..], s, ask, faults);
    }

    method PersistWithVaultWrite(w: Id, faults: set<nat>, ghost before: seq<Action>)
      returns (r: Result<Outcome, PutError>)
      requires Obeys(w, faults, before) && s.At(w, VersionRead) && s.dir != []
      modifies this`s, this`trace
      ensures Obeys(w, faults, before) && Returned(old(s), s, w, r)
    {
      hide Obeys, SlugLockFree, LateError;
      var ph := Perform(w, CheckVersion, faults, before);
      if ph.Done? { return ph.result; }
      ph := Perform(w, CheckPrecondition(2 !in faults), faults, before);
      if ph.Done? { return ph.result; }
      ph := Perform(w, BeginTx(3 !in faults && s.lock.Free?), faults, before);
      if ph.Done? { return ph.result; }
      ph := Perform(w, StageRow(4 !in faults), faults, before);
      if ph.Done? { return ph.result; }
      r := WriteWithSentinel(w, faults, before);
    }

    /** From the staged row to the sentinel, which comes before the temporary file. */
    method WriteWithSentinel(w: Id, faults: set<nat>, ghost before: seq<Action>)
      returns (r: Result<Outcome, PutError>)
      requires Obeys(w, faults, before) && s.At(w, Staged) && s.dir != []
      modifies this`s, this`trace
      ensures Obeys(w, faults, before) && Returned(old(s), s, w, r)
    {
      hide Obeys, SlugLockFree, LateError;
      var unlinked: bool := *;
      var ph: Phase;
      if 5 in faults {
        ph := Perform(w, FailSentinel(false, unlinked), faults, before);
        return ph.result;
      }
      ph := Perform(w, CreateSentinel, faults, before);
      if 6 in faults {
        ph := Perform(w, FailSentinel(true, unlinked), faults, before);
        return ph.result;
      }
      ph := Perform(w, SyncSentinel, faults, before);
      r := WriteTempFile(w, faults, before);
    }

    method WriteTempFile(w: Id, faults: set<nat>, ghost before: seq<Action>)
      returns (r: Result<Outcome, PutError>)
      requires Obeys(w, faults, before) && s.At(w, SentinelDurable) && s.dir != []
      modifies this`s, this`trace
      ensures Obeys(w, faults, before) && Returned(old(s), s, w, r)
    {
      hide Obeys, SlugLockFree, LateError;
      var ph: Phase;
      if 7 in faults {
        var created: bool := *;
        ph := Perform(w, FailTemp(created), faults, before);
        r := CleanupPreRename(w, faults, before);
        return;
      }
      var inode: nat :| true;
      ph := Perform(w, WriteTemp(inode), faults, before);
      r := CheckTarget(w, faults, before);
    }

    /** The temporary file is statted, and the target must not be a symlink. */
    method CheckTarget(w: Id, faults: set<nat>, ghost before: seq<Action>)
      returns (r: Result<Outcome, PutError>)
      requires Obeys(w, faults, before) && s.At(w, TempWritten) && s.dir != []
      modifies this`s, this`trace
      ensures Obeys(w, faults, before) && Returned(old(s), s, w, r)
    {
      hide Obeys, SlugLockFree, LateError;
      var ph := Perform(w, IdentifyTemp(8 !in faults), faults, before);
      if ph.Done? { return ph.result; }
      ph := Perform(w, CheckSymlink(9 !in faults), faults, before);
      if ph.UndoTemp? {
        r := CleanupPreRename(w, faults, before);
        return;
      }
      r := ReplaceTarget(w, faults, before);
    }

    /** The registries and the rename. */
    method ReplaceTarget(w: Id, faults: set<nat>, ghost before: seq<Action>)
      returns (r: Result<Outcome, PutError>)
      requires Obeys(w, faults, before) && s.At(w, SymlinkChecked) && s.dir != []
      modifies this`s, this`trace
      ensures Obeys(w, faults, before) && Returned(old(s), s, w, r)
    {
      hide Obeys, SlugLockFree, LateError;
      var ph := Perform(w, InsertDedup, faults, before);
      if ph.UndoTemp? {
        r := CleanupPreRename(w, faults, before);
        return;
      }
      ph := Perform(w, RememberSelf(11 !in faults), faults, before);
      if ph.UndoTemp? {
        r := CleanupPreRename(w, faults, before);
        return;
      }
      var stamp: nat :| true;
      ph := Perform(w, RenameTemp(stamp, 12 !in faults), faults, before);
      if ph.UndoTemp? {
        r := CleanupPreRename(w, faults, before);
        return;
      }
      r := SyncRenamed(w, faults, before);
    }

    method SyncRenamed(w: Id, faults: set<nat>, ghost before: seq<Action>)
      returns (r: Result<Outcome, PutError>)
      requires Obeys(w, faults, before) && s.At(w, Renamed) && s.dir != []
      modifies this`s, this`trace
      ensures Obeys(w, faults, before) && Returned(old(s), s, w, r)
    {
      hide Obeys, SlugLockFree, LateError;
      var ph := Perform(w, SyncParent(13 !in faults), faults, before);
      if ph.UndoRenamed? {
        r := HandlePostRenameFailure(w, faults, before);
        return;
      }
      r := VerifyAndCommit(w, faults, before);
    }

    /** Stat, then hash, what is under the target name now. */
    method VerifyAndCommit(w: Id, faults: set<nat>, ghost before: seq<Action>)
      returns (r: Result<Outcome, PutError>)
      requires Obeys(w, faults, before) && s.At(w, ParentSynced) && s.dir != []
      modifies this`s, this`trace
      ensures Obeys(w, faults, before) && Returned(old(s), s, w, r)
    {
      hide Obeys, SlugLockFree, LateError;
      var ph := Perform(w, StatTarget(14 !in faults && !s.Target().Missing?), faults, before);
      if ph.UndoRenamed? {
        r := HandlePostRenameFailure(w, faults, before);
        return;
      }
      var linked: Bytes := *;
      ph := Perform(w, HashTarget(linked, 15 !in faults && !s.Target().Missing?), faults, before);
      if ph.UndoRenamed? {
        r := HandlePostRenameFailure(w, faults, before);
        return;
      }
      r := CompareAndCommit(w, faults, before);
    }

    method CompareAndCommit(w: Id, faults: set<nat>, ghost before: seq<Action>)
      returns (r: Result<Outcome, PutError>)
      requires Obeys(w, faults, before) && s.At(w, TargetHashed) && s.dir != []
      modifies this`s, this`trace
      ensures Obeys(w, faults, before) && Returned(old(s), s, w, r)
    {
      hide Obeys, SlugLockFree, LateError;
      var ph := Perform(w, VerifyTarget, faults, before);
      if ph.UndoRenamed? {
        r := HandlePostRenameFailure(w, faults, before);
        return;
      }
      r := CommitAndRelease(w, faults, before);
    }

    /** `commit_staged_page_record`, then the key and the sentinel go. */
    method CommitAndRelease(w: Id, faults: set<nat>, ghost before: seq<Action>)
      returns (r: Result<Outcome, PutError>)
      requires Obeys(w, faults, before) && s.At(w, Verified) && s.dir != []
      modifies this`s, this`trace
      ensures Obeys(w, faults, before) && Returned(old(s), s, w, r)
    {
      hide Obeys, SlugLockFree, LateError;
      var ph := Perform(w, CommitTx(17 !in faults), faults, before);
      if ph.UndoRenamed? {
        r := HandlePostRenameFailure(w, faults, before);
        return;
      }
      ph := Perform(w, ReleaseDedup, faults, before);
      ph := Perform(w, DropSentinel(19 !in faults), faults, before);
      r := ph.result;
    }

    /** `cleanup_pre_rename` and `cleanup_pre_rename_without_dedup_clear`; every call is best effort. */
    method CleanupPreRename(w: Id, faults: set<nat>, ghost before: seq<Action>)
      returns (r: Result<Outcome, PutError>)
      requires Obeys(w, faults, before) && w in s.puts && s.puts[w].phase.UndoTemp? && s.dir != []
      modifies this`s, this`trace
      ensures Obeys(w, faults, before) && Returned(old(s), s, w, r)
      ensures r == Err(old(s.puts[w].phase.why))
    {
      var ph := Perform(w, UnlinkTemp(20 !in faults), faults, before);
      if ph.UndoTracking? { ph := Perform(w, ClearTracking, faults, before); }
      ph := Perform(w, RemoveSentinel(22 !in faults), faults, before);
      r := ph.result;
    }

    method HandlePostRenameFailure(w: Id, faults: set<nat>, ghost before: seq<Action>)
      returns (r: Result<Outcome, PutError>)
      requires Obeys(w, faults, before) && w in s.puts && s.puts[w].phase.UndoRenamed? && s.dir != []
      modifies this`s, this`trace
      ensures Obeys(w, faults, before) && Returned(old(s), s, w, r)
      ensures r == Err(old(s.puts[w].phase.why)) && forall k :: k in s.dedup ==> k.0 != s.puts[w].proc
    {
      var ph := Perform(w, ReportFailure, faults, before);
      r := ph.result;
      ExitClearsKeys(c, origin, trace, s, w);
    }
  }

  // ── What a caller of the operations relies on ────────────────

  lemma ExitFacts(c: Config, s: State, acts: seq<Action>, t: State, w: Id, op: Op)
    requires Init(s) && Run(c, s, acts, t) && CanDo(t, w, op)
    ensures var u := Do(c, t, w, op); w in u.puts && (Finished(u.puts[w].phase) ==> SlugLockFree(u, u.puts[w].proc))
  {
    hide Run, Init, Do, RegistryInv, Moved, CanDo;
    ReachedOnePerProcess(c, s, acts, t);
    OwnsPut(t, w, op);
    DoMovesRecord(c, t, w, op);
    PhaseHolds(c, t, w, op);
  }

  lemma ReachedOnePerProcess(c: Config, s: State, acts: seq<Action>, t: State)
    requires Init(s) && Run(c, s, acts, t)
    ensures OnePerProcess(t)
  {
    hide Run;
    assert Reachable(c, t);
    ReachableRegistry(c, t);
  }

  /** What every path out of the protocol establishes; the slug lock can be given on. */
  ghost predicate Returned(before: State, after: State, w: Id, r: Result<Outcome, PutError>) {
    && w in before.puts && w in after.puts && after.puts[w].phase == Done(r)
    && SameRequest(before.puts[w], after.puts[w]) && SlugLockFree(after, after.puts[w].proc)
  }

  lemma ExitClearsKeys(c: Config, s: State, acts: seq<Action>, t: State, w: Id)
    requires Init(s) && Run(c, s, acts, t) && w in t.puts && t.puts[w].phase.Done?
    requires SlugLockFree(t, t.puts[w].proc)
    ensures forall k :: k in t.dedup ==> k.0 != t.puts[w].proc
  {
    assert Reachable(c, t);
    KeysClearOnExit(c, t, w);
  }

  lemma {:induction false} TraceGrows(c: Config, s: State, acts: seq<Action>, t: State, a: Action)
    requires Run(c, s, acts, t) && Enabled(c, t, a) && !a.PowerLoss?
    ensures Run(c, s, acts + [a], Step(c, t, a))
    ensures KeepsCommits(c, s, acts) ==> KeepsCommits(c, s, acts + [a])
    ensures KeepsSentinels(c, s, acts) ==> KeepsSentinels(c, s, acts + [a])
    decreases |acts|
  {
    hide Enabled, Step;
    if acts == [] {
      assert acts + [a] == [a];
      var u := Step(c, t, a);
      assert Run(c, u, [], u) && KeepsCommits(c, u, []) && KeepsSentinels(c, u, []);
    } else {
      assert (acts + [a])[1..] == acts[1..] + [a];
      TraceGrows(c, Step(c, s, acts[0]), acts[1..], t, a);
    }
  }

  lemma ReachedHasTarget(c: Config, s: State, acts: seq<Action>, t: State)
    requires Init(s) && Run(c, s, acts, t)
    ensures t.dir != []
  {
    hide Run, Base;
    InitHasBase(c, s);
    RunKeepsBase(c, s, acts, t);
    BaseHasTarget(c, t);
  }

  lemma OthersLeaveRecord(c: Config, s: State, a: Action, w: Id)
    requires Enabled(c, s, a) && w in s.puts && !a.PowerLoss?
    requires !(a.Own? && a.w == w) && !(a.Kill? && a.proc == s.puts[w].proc)
    ensures w in Step(c, s, a).puts && Step(c, s, a).puts[w] == s.puts[w]
  {
    hide Do, CanDo, Moved, Recovered, CanRecover;
    if a.Own? {
      OwnsPut(s, a.w, a.op);
      DoMovesRecord(c, s, a.w, a.op);
    }
    if a.Recover? { RecoveryLeavesPuts(c, s, a.step); }
  }

  lemma LateErrorKeepsSentinel(c: Config, s: State, acts: seq<Action>, t: State, w: Id, r: Result<Outcome, PutError>)
    requires Init(s) && Run(c, s, acts, t) && KeepsSentinels(c, s, acts) && t.At(w, Done(r))
    ensures r.Err? && LateError(r.error) && w !in t.durable ==> RecoveredSinceStart(acts, w)
  {
    hide Run, KeepsSentinels, RecoveredSinceStart;
    if r.Err? && LateError(r.error) && w !in t.durable {
      InitHasBase(c, s);
      LateFailureKeepsSentinel(c, s, acts, t, w);
    }
  }

  lemma AloneOutcome(c: Config, origin: State, before: seq<Action>, s: State, acts: seq<Action>, t: State, r: Request,
                     faults: set<nat>)
    requires Run(c, origin, before, s) && Run(c, origin, before + acts, t)
    requires FaultsDecide(c, origin, before + acts, r.w, faults)
    requires acts != [] && acts[0] == Start(r.w, r.proc, r.bytes, r.expected)
    requires r.w in t.puts && t.puts[r.w].phase.Done?
    ensures faults == {} && Alone(acts, r.w) && Ready(c, s, r) ==>
      && t.puts[r.w].phase.result ==
         Ok(if s.db.row.None? then Stored(true, 1) else Stored(false, s.db.row.value.version + 1))
      && exists q :: SameAsk(r, q) && StoredBy(c, s, t, q)
  {
    hide Run, FaultsDecide, Alone, Ready, StoredBy;
    if faults == {} && Alone(acts, r.w) && Ready(c, s, r) { AloneContinues(c, origin, before, s, acts, t, r); }
  }

  lemma ErrIffFails(c: Config, s: State, acts: seq<Action>, t: State, w: Id, faults: set<nat>)
    requires Init(s) && Run(c, s, acts, t) && FaultsDecide(c, s, acts, w, faults)
    requires w in t.puts && t.puts[w].phase.Done?
    ensures t.puts[w].phase.result.Err? <==> SomeCallFails(c, s, acts, w, faults)
  {
    hide Run, FaultsDecide, SomeCallFails;
    InitIsCoherent(c, s);
    ErrIffSomeCallFails(c, s, acts, t, w, faults);
  }

  lemma BaseHasTarget(c: Config, s: State)
    requires Base(c, s)
    ensures s.dir != []
  {
  }
}
