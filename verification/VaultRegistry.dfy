/**
 The in-process registries: the per-slug lock and the write-dedup set. A key is in the set only
 while the put that inserted it is under way, so no put ever meets a stale key.
*/
module VaultRegistry {
  import opened Wrappers
  import opened VaultMachine
  import opened VaultSafety

  /** The phases between inserting the key and clearing it, and the undo phases that will clear it. */
  predicate HoldsKey(ph: Phase) {
    || ph.DedupHeld? || ph.SelfRemembered? || AfterRename(ph) || ph.Committed?
    || (ph.UndoTemp? && ph.clearsKey) || ph.UndoTracking?
  }

  ghost predicate KeyHeld(c: Config, s: State, k: (nat, string)) {
    exists w :: w in s.puts && Key(c, s.puts[w]) == k && HoldsKey(s.puts[w].phase)
  }

  /** `with_write_slug_lock`: at most one put to the slug is under way in each process. */
  ghost predicate OnePerProcess(s: State) {
    forall v, w :: v in s.puts && w in s.puts && s.puts[v].proc == s.puts[w].proc && v != w
      ==> Finished(s.puts[v].phase) || Finished(s.puts[w].phase)
  }

  predicate NoDuplicate(ph: Phase) { UndoesNoDuplicate(ph) && (ph.Done? ==> ph.result != Err(DuplicateDedup)) }

  predicate UndoesNoDuplicate(ph: Phase) {
    ph.UndoTemp? || ph.UndoTracking? || ph.UndoSentinel? || ph.UndoRenamed? ==> ph.why != DuplicateDedup
  }

  ghost predicate RegistryInv(c: Config, s: State) {
    && OnePerProcess(s)
    && (forall k :: k in s.dedup ==> KeyHeld(c, s, k))
    && (forall w :: w in s.puts ==> NoDuplicate(s.puts[w].phase))
  }

  lemma HeldByNoOther(c: Config, s: State, w: Id)
    requires RegistryInv(c, s) && w in s.puts && !Finished(s.puts[w].phase) && !HoldsKey(s.puts[w].phase)
    ensures Key(c, s.puts[w]) !in s.dedup
  {
  }

  ghost predicate MovesKey(c: Config, s: State, t: State, w: Id)
    requires w in s.puts && w in t.puts
  {
    var k := Key(c, s.puts[w]);
    && (t.dedup == s.dedup + {k} || t.dedup == s.dedup - {k} || t.dedup == s.dedup)
    && (!HoldsKey(t.puts[w].phase) ==> t.dedup == s.dedup - {k} || (t.dedup == s.dedup && !HoldsKey(s.puts[w].phase)))
  }

  lemma PhaseHolds(c: Config, s: State, w: Id, op: Op)
    requires CanDo(s, w, op)
    ensures var ph, ph' := s.puts[w].phase, Moved(c, s, w, op).phase;
            HoldsKey(ph) && !HoldsKey(ph') ==> op.ReleaseDedup? || op.ClearTracking? || op.ReportFailure?
    ensures op.InsertDedup? && !HoldsKey(Moved(c, s, w, op).phase) ==> Key(c, s.puts[w]) in s.dedup
    ensures !Finished(s.puts[w].phase) && (op.InsertDedup? ==> !HoldsKey(s.puts[w].phase))
  {
    hide CheckUpdateExpectedVersion, InspectPrecondition, StagePageRecord, TargetMatches, Key;
  }

  lemma DoMovesKey(c: Config, s: State, w: Id, op: Op)
    requires CanDo(s, w, op) && w in Do(c, s, w, op).puts
    requires !HoldsKey(s.puts[w].phase) ==> Key(c, s.puts[w]) !in s.dedup
    ensures MovesKey(c, s, Do(c, s, w, op), w) && !Finished(s.puts[w].phase)
  {
    PhaseHolds(c, s, w, op);
    DoMovesRecord(c, s, w, op);
    hide CanDo, Moved, LockAfter, DirAfter, FolderAfter, RecoveryDirAfter, SentinelsAfter, TempsAfter, DbAfterPut,
         HoldsKey, Key;
  }

  lemma DoUndoesNoDuplicate(c: Config, s: State, w: Id, op: Op)
    requires CanDo(s, w, op) && UndoesNoDuplicate(s.puts[w].phase)
    requires op.InsertDedup? ==> Key(c, s.puts[w]) !in s.dedup
    ensures NoDuplicate(Moved(c, s, w, op).phase)
  {
    hide *;
    if Checks(op) { ChecksFindNoDuplicate(c, s, w, op); } else { OthersFindNoDuplicate(c, s, w, op); }
  }

  lemma ChecksFindNoDuplicate(c: Config, s: State, w: Id, op: Op)
    requires CanDo(s, w, op) && Checks(op)
    ensures NoDuplicate(Moved(c, s, w, op).phase)
  {
    NoCheckFindsDuplicates(c, s, w);
    hide CheckUpdateExpectedVersion, InspectPrecondition, StagePageRecord;
  }

  lemma OthersFindNoDuplicate(c: Config, s: State, w: Id, op: Op)
    requires CanDo(s, w, op) && !Checks(op) && UndoesNoDuplicate(s.puts[w].phase)
    requires op.InsertDedup? ==> Key(c, s.puts[w]) !in s.dedup
    ensures NoDuplicate(Moved(c, s, w, op).phase)
  {
    hide CheckUpdateExpectedVersion, InspectPrecondition, StagePageRecord, TargetMatches, Key;
  }

  lemma NoCheckFindsDuplicates(c: Config, s: State, w: Id)
    requires w in s.puts && s.dir != []
    ensures var p := s.puts[w];
            && (var r := CheckUpdateExpectedVersion(p.read, p.expected); r.Err? ==> !r.error.DuplicateDedup?)
            && (var r := InspectPrecondition(c.sha, StoredFileState(s.db.row), s.Target());
                r.Err? ==> !r.error.DuplicateDedup?)
            && (var r := StagePageRecord(p, s.db.row); r.Err? ==> !r.error.DuplicateDedup?)
  {
  }

  lemma MoveKeepsRegistry(c: Config, s: State, t: State, w: Id)
    requires RegistryInv(c, s) && OnlyMoves(s, t, w) && MovesKey(c, s, t, w)
    requires NoDuplicate(t.puts[w].phase) && !Finished(s.puts[w].phase)
    ensures RegistryInv(c, t)
  {
    forall k | k in t.dedup
      ensures KeyHeld(c, t, k)
    {
      if k in s.dedup {
        var v :| v in s.puts && Key(c, s.puts[v]) == k && HoldsKey(s.puts[v].phase);
        assert v in t.puts && Key(c, t.puts[v]) == k && HoldsKey(t.puts[v].phase);
      } else {
        assert w in t.puts && Key(c, t.puts[w]) == k && HoldsKey(t.puts[w].phase);
      }
    }
  }

  lemma SurroundingsKeepRegistry(c: Config, s: State, a: Action)
    requires RegistryInv(c, s) && Enabled(c, s, a) && !a.Own?
    ensures RegistryInv(c, Step(c, s, a))
  {
    hide Do, CanDo, Recovered, CanRecover, RegistryInv;
    if a.Start? {
      StartKeepsRegistry(c, s, a);
    } else if a.Kill? || a.PowerLoss? {
      CrashKeepsRegistry(c, s, a);
    } else {
      if a.Recover? { RecoveryLeavesPuts(c, s, a.step); }
      SameKeepsRegistry(c, s, Step(c, s, a));
    }
  }

  lemma StartKeepsRegistry(c: Config, s: State, a: Action)
    requires RegistryInv(c, s) && Enabled(c, s, a) && a.Start?
    ensures RegistryInv(c, Step(c, s, a))
  {
    hide Do, CanDo, Recovered, CanRecover, Key;
    var t := Step(c, s, a);
    forall k | k in t.dedup
      ensures KeyHeld(c, t, k)
    {
      var v :| v in s.puts && Key(c, s.puts[v]) == k && HoldsKey(s.puts[v].phase);
      assert v in t.puts && Key(c, t.puts[v]) == k && HoldsKey(t.puts[v].phase);
    }
  }

  /** The keys of a killed process go with it. */
  lemma CrashKeepsRegistry(c: Config, s: State, a: Action)
    requires RegistryInv(c, s) && Enabled(c, s, a) && (a.Kill? || a.PowerLoss?)
    ensures RegistryInv(c, Step(c, s, a))
  {
    hide Do, CanDo, Recovered, CanRecover;
    var t := Step(c, s, a);
    forall k | k in t.dedup
      ensures KeyHeld(c, t, k)
    {
      var v :| v in s.puts && Key(c, s.puts[v]) == k && HoldsKey(s.puts[v].phase);
      assert v in t.puts && Key(c, t.puts[v]) == k && HoldsKey(t.puts[v].phase);
    }
  }

  lemma SameKeepsRegistry(c: Config, s: State, t: State)
    requires RegistryInv(c, s) && t.puts == s.puts && t.dedup == s.dedup
    ensures RegistryInv(c, t)
  {
    hide Key, HoldsKey;
    forall k | k in t.dedup
      ensures KeyHeld(c, t, k)
    {
      assert KeyHeld(c, s, k);
    }
  }

  lemma RecoveryLeavesPuts(c: Config, s: State, step: RecoveryStep)
    requires CanRecover(c, s, step)
    ensures var t := Recovered(c, s, step); t.puts == s.puts && t.dedup == s.dedup
  {
  }

  lemma StepKeepsRegistry(c: Config, s: State, a: Action)
    requires RegistryInv(c, s) && Enabled(c, s, a)
    ensures RegistryInv(c, Step(c, s, a))
  {
    if a.Own? {
      DoMovesRecord(c, s, a.w, a.op);
      PhaseHolds(c, s, a.w, a.op);
      if !HoldsKey(s.puts[a.w].phase) { HeldByNoOther(c, s, a.w); }
      DoUndoesNoDuplicate(c, s, a.w, a.op);
      DoMovesKey(c, s, a.w, a.op);
      hide Do, CanDo, Moved, HoldsKey, Key;
      MoveKeepsRegistry(c, s, Do(c, s, a.w, a.op), a.w);
    } else {
      SurroundingsKeepRegistry(c, s, a);
    }
  }

  lemma {:induction false} RunKeepsRegistry(c: Config, s: State, acts: seq<Action>, t: State)
    requires RegistryInv(c, s) && Run(c, s, acts, t)
    ensures RegistryInv(c, t)
    decreases |acts|
  {
    hide RegistryInv, Enabled, Step;
    if acts != [] {
      StepKeepsRegistry(c, s, acts[0]);
      RunKeepsRegistry(c, Step(c, s, acts[0]), acts[1..], t);
    }
  }

  lemma ReachableRegistry(c: Config, t: State)
    requires Reachable(c, t)
    ensures RegistryInv(c, t)
  {
    hide Run;
    var s, acts :| Init(s) && Run(c, s, acts, t);
    RunKeepsRegistry(c, s, acts, t);
  }

  /** At every reachable state the key of a put that has not inserted it yet is free. */
  lemma KeyIsFree(c: Config, t: State, w: Id)
    requires Reachable(c, t) && w in t.puts && !Finished(t.puts[w].phase) && !HoldsKey(t.puts[w].phase)
    ensures Key(c, t.puts[w]) !in t.dedup
  {
    hide Reachable;
    ReachableRegistry(c, t);
    HeldByNoOther(c, t, w);
  }

  /**
   Every exit clears the key, also after failures and kills: a process with no put to the slug under
   way holds no key for it. So no put is ever refused as a duplicate.
  */
  lemma KeysClearOnExit(c: Config, t: State, w: Id)
    requires Reachable(c, t) && w in t.puts
    ensures SlugLockFree(t, t.puts[w].proc) ==> forall k :: k in t.dedup ==> k.0 != t.puts[w].proc
    ensures t.puts[w].phase != Done(Err(DuplicateDedup))
  {
    hide Reachable;
    ReachableRegistry(c, t);
    if SlugLockFree(t, t.puts[w].proc) {
      forall k | k in t.dedup
        ensures k.0 != t.puts[w].proc
      {
        assert KeyHeld(c, t, k);
        var v :| v in t.puts && Key(c, t.puts[v]) == k && HoldsKey(t.puts[v].phase);
      }
    }
  }
}
