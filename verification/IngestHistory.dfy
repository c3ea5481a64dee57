/** The history of raw imports is bounded: pruning keeps a page's inactive rows within the limit. */
module IngestHistory {
  import opened Ingest
  import opened IngestRuns

  function Inactive(raws: seq<Raw>, page: string): seq<Raw> {
    if raws == [] then []
    else
      var last := raws[|raws| - 1];
      Inactive(raws[..|raws| - 1], page) + if last.page == page && !last.active then [last] else []
  }

  /** Row ids increase and are below the next one (`AUTOINCREMENT`). */
  predicate IdsIncrease(raws: seq<Raw>, next: nat) {
    raws != [] ==> raws[|raws| - 1].id < next && IdsIncrease(raws[..|raws| - 1], raws[|raws| - 1].id)
  }

  lemma {:induction false} IdsBelow(raws: seq<Raw>, next: nat, more: nat)
    requires IdsIncrease(raws, next) && next <= more
    ensures IdsIncrease(raws, more) && forall r :: r in raws ==> r.id < next
  {
    if raws != [] {
      var front, last := raws[..|raws| - 1], raws[|raws| - 1];
      IdsBelow(front, last.id, next);
      assert raws == front + [last];
    }
  }

  lemma InactiveSnoc(raws: seq<Raw>, r: Raw, page: string)
    ensures Inactive(raws + [r], page) == Inactive(raws, page) + if r.page == page && !r.active then [r] else []
  {
    assert (raws + [r])[..|raws|] == raws;
  }

  // ── The oldest of a list ─────────────────────────────────────

  lemma {:induction false} AllNewer(rows: seq<Raw>, r: Raw)
    requires forall q :: q in rows ==> q.page == r.page && !q.active && Newer(q, r)
    ensures Rank(rows, r) == |rows|
  {
    hide Newer;
    if rows != [] { AllNewer(rows[..|rows| - 1], r); }
  }

  /** Some row has all others before it. */
  lemma {:induction false} Oldest(rows: seq<Raw>, page: string, next: nat) returns (r: Raw)
    requires rows != [] && IdsIncrease(rows, next) && forall q :: q in rows ==> q.page == page && !q.active
    ensures r in rows && Rank(rows, r) == |rows| - 1 && forall q :: q in rows && q != r ==> Newer(q, r)
  {
    var front, last := rows[..|rows| - 1], rows[|rows| - 1];
    assert rows == front + [last];
    if front == [] {
      r := last;
    } else {
      IdsBelow(front, last.id, next);
      r := Oldest(front, page, last.id);
      if !Newer(last, r) {
        r := last;
        AllNewer(front, r);
      }
    }
  }

  // ── Pruning ──────────────────────────────────────────────────

  lemma {:induction false} PruneLowersRank(c: Config, all: seq<Raw>, page: string, now: nat, raws: seq<Raw>, r: Raw)
    ensures Rank(Inactive(Prune(c, all, page, now, raws), page), r) <= Rank(raws, r)
    decreases |raws|
  {
    hide Newer, Pruned;
    if raws != [] {
      var front, last := raws[..|raws| - 1], raws[|raws| - 1];
      PruneLowersRank(c, all, page, now, front, r);
      var kept := Prune(c, all, page, now, front);
      assert kept + [] == kept && Inactive(kept, page) + [] == Inactive(kept, page);
      InactiveSnoc(kept, last, page);
      RankSnoc(Inactive(kept, page), last, r);
    }
  }

  lemma RankSnoc(rows: seq<Raw>, q: Raw, r: Raw)
    ensures Rank(rows + [q], r) == Rank(rows, r) + if q.page == r.page && !q.active && Newer(q, r) then 1 else 0
  {
    assert (rows + [q])[..|rows|] == rows;
  }

  lemma {:induction false} InactiveAre(raws: seq<Raw>, page: string, r: Raw)
    ensures r in Inactive(raws, page) <==> r in raws && r.page == page && !r.active
  {
    if raws != [] {
      InactiveAre(raws[..|raws| - 1], page, r);
      assert raws == raws[..|raws| - 1] + [raws[|raws| - 1]];
    }
  }

  lemma {:induction false} InactiveKeepsIds(raws: seq<Raw>, page: string, next: nat)
    requires IdsIncrease(raws, next)
    ensures IdsIncrease(Inactive(raws, page), next)
  {
    hide IdsIncrease;
    IdsFront(raws, next);
    if raws != [] {
      var front, last := raws[..|raws| - 1], raws[|raws| - 1];
      InactiveKeepsIds(front, page, last.id);
      IdsGrow(Inactive(front, page), last, next);
      assert Inactive(front, page) + [] == Inactive(front, page);
    }
  }

  lemma {:induction false} PruneKeepsIds(c: Config, all: seq<Raw>, page: string, now: nat, raws: seq<Raw>, next: nat)
    requires IdsIncrease(raws, next)
    ensures IdsIncrease(Prune(c, all, page, now, raws), next)
    decreases |raws|
  {
    hide Pruned, IdsIncrease;
    IdsFront(raws, next);
    if raws != [] {
      var front, last := raws[..|raws| - 1], raws[|raws| - 1];
      PruneKeepsIds(c, all, page, now, front, last.id);
      var kept := Prune(c, all, page, now, front);
      IdsGrow(kept, last, next);
      assert kept + [] == kept;
    }
  }

  lemma IdsFront(raws: seq<Raw>, next: nat)
    requires IdsIncrease(raws, next)
    ensures IdsIncrease([], next)
    ensures raws != [] ==> raws[|raws| - 1].id < next && IdsIncrease(raws[..|raws| - 1], raws[|raws| - 1].id)
  {
  }

  /** A row whose id is above all others may stay or be added. */
  lemma IdsGrow(raws: seq<Raw>, r: Raw, next: nat)
    requires IdsIncrease(raws, r.id) && r.id < next
    ensures IdsIncrease(raws, next) && IdsIncrease(raws + [r], next)
  {
    IdsBelow(raws, r.id, next);
    assert (raws + [r])[..|raws|] == raws;
  }

  /** Pruning leaves at most `keep` inactive rows of the page, none of them expired. */
  lemma PruneBounds(c: Config, all: seq<Raw>, page: string, now: nat, next: nat)
    requires !c.keepAll && IdsIncrease(all, next)
    ensures var kept := Inactive(Prune(c, all, page, now, all), page);
            |kept| <= c.keep && forall r :: r in kept ==> r.at + c.ttl >= now
  {
    hide Newer, Prune, IdsIncrease, Inactive, Rank;
    var pruned := Prune(c, all, page, now, all);
    var kept := Inactive(pruned, page);
    PruneKeepsIds(c, all, page, now, all, next);
    InactiveKeepsIds(pruned, page, next);
    forall r | r in kept
      ensures r.page == page && !r.active && r in pruned && Rank(all, r) < c.keep && r.at + c.ttl >= now
    {
      InactiveAre(pruned, page, r);
      PrunedRow(c, all, page, now, all, r);
    }
    if kept != [] {
      var r := Oldest(kept, page, next);
      PruneLowersRank(c, all, page, now, all, r);
    }
  }

  /** Pruning keeps what is recent enough and within the limit. */
  lemma PruneKeepsRecent(c: Config, all: seq<Raw>, page: string, now: nat, r: Raw)
    requires r in all && r.page == page && !r.active && now <= r.at + c.ttl && Rank(all, r) < c.keep
    ensures r in Inactive(Prune(c, all, page, now, all), page)
  {
    hide Rank, Prune, Inactive;
    PrunedRow(c, all, page, now, all, r);
    InactiveAre(Prune(c, all, page, now, all), page, r);
  }

  lemma {:induction false} NewerRanksLower(raws: seq<Raw>, q: Raw, r: Raw)
    requires q.page == r.page && (q.at > r.at || (q.at == r.at && q.id > r.id))
    ensures Rank(raws, q) <= Rank(raws, r)
  {
    if raws != [] { NewerRanksLower(raws[..|raws| - 1], q, r); }
  }

  /** Pruning takes the oldest first: with a row it keeps all later ones, by time and then by id. */
  lemma PruneTakesOldest(c: Config, all: seq<Raw>, page: string, now: nat, q: Raw, r: Raw)
    requires q in all && q.page == r.page == page && !q.active && !r.active
    requires r in Prune(c, all, page, now, all) && (q.at > r.at || (q.at == r.at && q.id > r.id))
    ensures q in Prune(c, all, page, now, all)
  {
    hide Rank, Prune;
    PrunedRow(c, all, page, now, all, q);
    PrunedRow(c, all, page, now, all, r);
    NewerRanksLower(all, q, r);
  }

  /** The inactive rows of the page that are newer than `r`. */
  function NewerRows(raws: seq<Raw>, r: Raw): set<Raw> {
    set q | q in raws && q.page == r.page && !q.active && (q.at > r.at || (q.at == r.at && q.id > r.id))
  }

  lemma NewerSnoc(raws: seq<Raw>, last: Raw, r: Raw)
    ensures NewerRows(raws + [last], r) ==
            NewerRows(raws, r) + if last.page == r.page && !last.active && Newer(last, r) then {last} else {}
    ensures last !in raws ==> last !in NewerRows(raws, r)
  {
  }

  lemma NothingNewer(r: Raw)
    ensures NewerRows([], r) == {} && Rank([], r) == 0
  {
  }

  lemma {:induction false} RankCounts(raws: seq<Raw>, next: nat, r: Raw)
    requires IdsIncrease(raws, next)
    ensures Rank(raws, r) == |NewerRows(raws, r)|
  {
    hide Rank, NewerRows, Newer;
    NothingNewer(r);
    IdsFront(raws, next);
    if raws != [] {
      var front, last := raws[..|raws| - 1], raws[|raws| - 1];
      RankCounts(front, last.id, r);
      IdsBelow(front, last.id, last.id);
      assert raws == front + [last];
      NewerSnoc(front, last, r);
      RankSnoc(front, last, r);
    }
  }

  /** A row goes exactly if it is an inactive one of the page that is too old, or has `keep` newer ones before it. */
  lemma PrunedIff(c: Config, all: seq<Raw>, page: string, now: nat, next: nat, r: Raw)
    requires !c.keepAll && IdsIncrease(all, next) && r in all
    ensures r !in Prune(c, all, page, now, all) <==>
            r.page == page && !r.active && (r.at + c.ttl < now || |NewerRows(all, r)| >= c.keep)
  {
    hide Rank, Prune, IdsIncrease, NewerRows;
    PrunedRow(c, all, page, now, all, r);
    RankCounts(all, next, r);
  }

  // ── Over all runs ────────────────────────────────────────────

  lemma {:induction false} OthersDeactivated(raws: seq<Raw>, p: string, next: nat, q: string)
    requires IdsIncrease(raws, next)
    ensures IdsIncrease(Deactivate(raws, p), next)
    ensures q != p ==> Inactive(Deactivate(raws, p), q) == Inactive(raws, q)
  {
    if raws != [] {
      var front := raws[..|raws| - 1];
      OthersDeactivated(front, p, raws[|raws| - 1].id, q);
      assert Deactivate(raws, p)[..|front|] == Deactivate(front, p);
    }
  }

  lemma {:induction false} OthersPruned(c: Config, all: seq<Raw>, p: string, now: nat, raws: seq<Raw>, q: string)
    requires q != p
    ensures Inactive(Prune(c, all, p, now, raws), q) == Inactive(raws, q)
    decreases |raws|
  {
    if raws != [] {
      var front, last := raws[..|raws| - 1], raws[|raws| - 1];
      OthersPruned(c, all, p, now, front, q);
      var kept := Prune(c, all, p, now, front);
      assert kept + [] == kept && Inactive(kept, q) + [] == Inactive(kept, q);
      InactiveSnoc(kept, last, q);
    }
  }

  lemma {:induction false} RefreshKeepsHistory(c: Config, raws: seq<Raw>, e: Command, next: nat, q: string)
    requires IdsIncrease(raws, next)
    ensures IdsIncrease(Refresh(c, raws, e), next) && |Inactive(Refresh(c, raws, e), q)| == |Inactive(raws, q)|
  {
    if raws != [] {
      var front := raws[..|raws| - 1];
      RefreshKeepsHistory(c, front, e, raws[|raws| - 1].id, q);
      assert Refresh(c, raws, e)[..|front|] == Refresh(c, front, e);
    }
  }

  lemma RotationBounds(c: Config, s: State, e: Command, q: string)
    requires IdsIncrease(s.raws, s.nextId) && !c.keepAll && |Inactive(s.raws, q)| <= c.keep
    ensures IdsIncrease(Rotated(c, s, e), s.nextId + 1) && |Inactive(Rotated(c, s, e), q)| <= c.keep
  {
    hide IdsIncrease, Inactive, Prune, Deactivate;
    var before, all := Deactivate(s.raws, e.slug), Added(c, s, e);
    OthersDeactivated(s.raws, e.slug, s.nextId, q);
    IdsGrow(before, NewRaw(c, s, e), s.nextId + 1);
    PruneKeepsIds(c, all, e.slug, e.now, all, s.nextId + 1);
    if q == e.slug {
      PruneBounds(c, all, q, e.now, s.nextId + 1);
    } else {
      OthersPruned(c, all, e.slug, e.now, all, q);
      InactiveSnoc(before, NewRaw(c, s, e), q);
    }
  }

  /** Over every sequence of ingests a page keeps at most `keep` inactive imports beside its active one. */
  lemma {:induction false} HistoryIsBounded(c: Config, commands: seq<Command>, page: string)
    requires !c.keepAll
    ensures |Inactive(Final(c, commands).raws, page)| <= c.keep
    ensures IdsIncrease(Final(c, commands).raws, Final(c, commands).nextId)
    decreases |commands|
  {
    hide IdsIncrease, Inactive, Rotated, Refresh, Active;
    if commands == [] {
      EmptyHistory(page);
    } else {
      var front, e := commands[..|commands| - 1], commands[|commands| - 1];
      var s := Final(c, front);
      HistoryIsBounded(c, front, page);
      match Decide(c, s, e)
      case Ingested => RotationBounds(c, s, e, page);
      case AlreadyIngested => RefreshKeepsHistory(c, s.raws, e, s.nextId, page);
      case _ =>
    }
  }

  lemma EmptyHistory(page: string)
    ensures Inactive(EMPTY.raws, page) == [] && IdsIncrease(EMPTY.raws, EMPTY.nextId)
  {
  }
}
