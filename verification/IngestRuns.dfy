/** What every sequence of ingests keeps, from an empty store on. */
module IngestRuns {
  import opened Wrappers
  import opened Ingest

  // ── Runs ─────────────────────────────────────────────────────

  function Final(c: Config, commands: seq<Command>): State {
    if commands == [] then EMPTY
    else After(c, Final(c, commands[..|commands| - 1]), commands[|commands| - 1])
  }

  /** One ingest reported as done. */
  datatype Entry = Entry(slug: string, bytes: Bytes, content: string, frontmatter: string)

  /** Every ingest reported as done, in order. */
  function History(c: Config, commands: seq<Command>): seq<Entry> {
    if commands == [] then []
    else
      var front, e := commands[..|commands| - 1], commands[|commands| - 1];
      History(c, front) + if Decide(c, Final(c, front), e).Ingested? then [EntryOf(c, e)] else []
  }

  function EntryOf(c: Config, e: Command): Entry { Entry(e.slug, e.bytes, e.content, Synced(c, e, e.frontmatter)) }

  function CountOf(log: seq<Entry>, slug: string): nat {
    if log == [] then 0 else CountOf(log[..|log| - 1], slug) + if log[|log| - 1].slug == slug then 1 else 0
  }

  function LastOf(log: seq<Entry>, slug: string): Option<Entry> {
    if log == [] then None
    else if log[|log| - 1].slug == slug then Some(log[|log| - 1])
    else LastOf(log[..|log| - 1], slug)
  }

  // ── Active rows ──────────────────────────────────────────────

  lemma {:induction false} ActiveDeactivate(raws: seq<Raw>, p: string, q: string)
    ensures Active(Deactivate(raws, p), q) == if q == p then [] else Active(raws, q)
  {
    if raws != [] { ActiveDeactivate(raws[..|raws| - 1], p, q); }
  }

  lemma {:induction false} ActivePrune(c: Config, all: seq<Raw>, p: string, now: nat, raws: seq<Raw>, q: string)
    ensures Active(Prune(c, all, p, now, raws), q) == Active(raws, q)
  {
    if raws != [] {
      var front, last := raws[..|raws| - 1], raws[|raws| - 1];
      ActivePrune(c, all, p, now, front, q);
      ActiveSnoc(Prune(c, all, p, now, front), last, q);
      assert Prune(c, all, p, now, front) + [] == Prune(c, all, p, now, front);
    }
  }

  lemma ActiveSnoc(raws: seq<Raw>, r: Raw, q: string)
    ensures Active(raws + [r], q) == Active(raws, q) + if r.page == q && r.active then [r] else []
  {
  }

  /** Refreshing the source path leaves the bytes of the active rows. */
  lemma {:induction false} ActiveRefresh(c: Config, raws: seq<Raw>, e: Command, q: string)
    ensures |Active(Refresh(c, raws, e), q)| == |Active(raws, q)|
    ensures forall k :: 0 <= k < |Active(raws, q)| ==>
              Active(Refresh(c, raws, e), q)[k].bytes == Active(raws, q)[k].bytes
  {
    if raws != [] { ActiveRefresh(c, raws[..|raws| - 1], e, q); }
  }

  /** After a rotation the page's one active row is the new one; other pages keep theirs. */
  lemma ActiveRotated(c: Config, s: State, e: Command, q: string)
    ensures Active(Rotated(c, s, e), q) == if q == e.slug then [NewRaw(c, s, e)] else Active(s.raws, q)
  {
    ActivePrune(c, Added(c, s, e), e.slug, e.now, Added(c, s, e), q);
    ActiveSnoc(Deactivate(s.raws, e.slug), NewRaw(c, s, e), q);
    ActiveDeactivate(s.raws, e.slug, q);
  }

  // ── Rows ─────────────────────────────────────────────────────

  /** A row up to what later runs may change: its activity and its path. */
  ghost predicate SameImport(r: Raw, q: Raw) { r == q.(active := r.active, path := r.path) }

  lemma {:induction false} DeactivatedRow(raws: seq<Raw>, p: string, r: Raw) returns (q: Raw)
    requires r in Deactivate(raws, p)
    ensures q in raws && SameImport(r, q)
  {
    var last := raws[|raws| - 1];
    if r == (if last.page == p then last.(active := false) else last) {
      q := last;
    } else {
      q := DeactivatedRow(raws[..|raws| - 1], p, r);
    }
  }

  lemma {:induction false} RowDeactivated(raws: seq<Raw>, p: string, r: Raw) returns (q: Raw)
    requires r in raws
    ensures q in Deactivate(raws, p) && SameImport(q, r)
  {
    var last := raws[|raws| - 1];
    if r == last {
      q := if last.page == p then last.(active := false) else last;
    } else {
      q := RowDeactivated(raws[..|raws| - 1], p, r);
    }
  }

  lemma {:induction false} PrunedRow(c: Config, all: seq<Raw>, p: string, now: nat, raws: seq<Raw>, r: Raw)
    ensures r in Prune(c, all, p, now, raws) <==> r in raws && !Pruned(c, all, p, now, r)
  {
    hide Pruned;
    if raws != [] {
      PrunedRow(c, all, p, now, raws[..|raws| - 1], r);
      assert raws == raws[..|raws| - 1] + [raws[|raws| - 1]];
    }
  }

  lemma {:induction false} RefreshedRow(c: Config, raws: seq<Raw>, e: Command, r: Raw) returns (q: Raw)
    requires r in Refresh(c, raws, e)
    ensures q in raws && SameImport(r, q)
  {
    var last := raws[|raws| - 1];
    if r == last || r == last.(path := e.path) {
      q := last;
    } else {
      q := RefreshedRow(c, raws[..|raws| - 1], e, r);
    }
  }

  lemma {:induction false} RowRefreshed(c: Config, raws: seq<Raw>, e: Command, r: Raw) returns (q: Raw)
    requires r in raws
    ensures q in Refresh(c, raws, e) && SameImport(q, r)
  {
    var last := raws[|raws| - 1];
    if r == last {
      q := Refresh(c, raws, e)[|raws| - 1];
    } else {
      q := RowRefreshed(c, raws[..|raws| - 1], e, r);
    }
  }

  lemma {:induction false} NoRowsOfPage(raws: seq<Raw>, p: string)
    requires forall r :: r in raws ==> r.page != p
    ensures OfPage(raws, p) == []
  {
    if raws != [] { NoRowsOfPage(raws[..|raws| - 1], p); }
  }

  // ── The invariant ────────────────────────────────────────────

  /** A page's version counts its ingests; content, frontmatter and its one active import are those of the last. */
  ghost predicate PageFits(s: State, log: seq<Entry>, slug: string) {
    && (slug in s.pages <==> CountOf(log, slug) > 0)
    && (slug in s.pages ==>
          && s.pages[slug].version == CountOf(log, slug)
          && |Active(s.raws, slug)| == 1
          && LastOf(log, slug) ==
             Some(Entry(slug, Active(s.raws, slug)[0].bytes, s.pages[slug].content, s.pages[slug].frontmatter)))
  }

  ghost predicate RowFits(c: Config, s: State, r: Raw) { r.page in s.pages && r.hash == c.sha(r.bytes) }

  ghost predicate Inv(c: Config, s: State, log: seq<Entry>) {
    (forall slug :: PageFits(s, log, slug)) && forall r :: r in s.raws ==> RowFits(c, s, r)
  }

  /** The checks around a rotation never fire: only a statement that fails makes a run fail. */
  lemma ChecksPass(c: Config, s: State, log: seq<Entry>, e: Command)
    requires Inv(c, s, log)
    ensures MayRotate(s.raws, e.slug) && |Active(Rotated(c, s, e), e.slug)| == 1
    ensures Decide(c, s, e).Failed? ==> e.fails.Some?
  {
    hide Active, OfPage, Rotated, Seen;
    ActiveRotated(c, s, e, e.slug);
    assert PageFits(s, log, e.slug);
    if e.slug !in s.pages {
      forall r | r in s.raws
        ensures r.page != e.slug
      {
        assert RowFits(c, s, r);
      }
      NoRowsOfPage(s.raws, e.slug);
    }
  }

  lemma LogGrows(log: seq<Entry>, entry: Entry, slug: string)
    ensures CountOf(log + [entry], slug) == CountOf(log, slug) + if entry.slug == slug then 1 else 0
    ensures LastOf(log + [entry], slug) == if entry.slug == slug then Some(entry) else LastOf(log, slug)
  {
  }

  lemma IngestKeepsInv(c: Config, s: State, log: seq<Entry>, e: Command)
    requires Inv(c, s, log) && Decide(c, s, e).Ingested?
    ensures Inv(c, After(c, s, e), log + [EntryOf(c, e)])
  {
    IngestedState(c, s, e);
    hide Active, Rotated, CountOf, LastOf, Decide, After, PageFits, RowFits;
    var t := After(c, s, e);
    forall slug
      ensures PageFits(t, log + [EntryOf(c, e)], slug)
    {
      assert PageFits(s, log, slug) && PageFits(s, log, e.slug);
      PageAfterIngest(c, s, log, e, t, slug);
    }
    forall r | r in t.raws
      ensures RowFits(c, t, r)
    {
      RotatedRowFits(c, s, e, t, r);
    }
  }

  lemma IngestedState(c: Config, s: State, e: Command)
    requires Decide(c, s, e).Ingested?
    ensures After(c, s, e) == State(Upserted(c, s, e), Rotated(c, s, e), s.nextId + 1)
  {
  }

  lemma PageAfterIngest(c: Config, s: State, log: seq<Entry>, e: Command, t: State, slug: string)
    requires PageFits(s, log, slug) && t == State(Upserted(c, s, e), Rotated(c, s, e), s.nextId + 1)
    requires PageFits(s, log, e.slug)
    ensures PageFits(t, log + [EntryOf(c, e)], slug)
  {
    hide Active, Rotated, CountOf, LastOf;
    LogGrows(log, EntryOf(c, e), slug);
    ActiveRotated(c, s, e, slug);
  }

  lemma RotatedRowFits(c: Config, s: State, e: Command, t: State, r: Raw)
    requires (forall q :: q in s.raws ==> RowFits(c, s, q)) && r in Rotated(c, s, e)
    requires t == State(Upserted(c, s, e), Rotated(c, s, e), s.nextId + 1)
    ensures RowFits(c, t, r)
  {
    hide Deactivate, Prune;
    PrunedRow(c, Added(c, s, e), e.slug, e.now, Added(c, s, e), r);
    if r != NewRaw(c, s, e) {
      var q := DeactivatedRow(s.raws, e.slug, r);
      assert RowFits(c, s, q);
    }
  }

  lemma RefreshKeepsInv(c: Config, s: State, log: seq<Entry>, e: Command)
    requires Inv(c, s, log)
    ensures Inv(c, s.(raws := Refresh(c, s.raws, e)), log)
  {
    hide Active, Refresh, CountOf, LastOf;
    var t := s.(raws := Refresh(c, s.raws, e));
    forall slug
      ensures PageFits(t, log, slug)
    {
      assert PageFits(s, log, slug);
      ActiveRefresh(c, s.raws, e, slug);
    }
    forall r | r in t.raws
      ensures RowFits(c, t, r)
    {
      var q := RefreshedRow(c, s.raws, e, r);
      assert RowFits(c, s, q);
    }
  }

  lemma {:induction false} RunsKeepInv(c: Config, commands: seq<Command>)
    ensures Inv(c, Final(c, commands), History(c, commands))
  {
    hide Rotated, Refresh, Active, CountOf, LastOf;
    if commands != [] {
      var front, e := commands[..|commands| - 1], commands[|commands| - 1];
      RunsKeepInv(c, front);
      var s, log := Final(c, front), History(c, front);
      assert log + [] == log;
      match Decide(c, s, e)
      case Ingested => IngestKeepsInv(c, s, log, e);
      case AlreadyIngested => RefreshKeepsInv(c, s, log, e);
      case _ =>
    } else {
      EmptyFits(c);
    }
  }

  lemma EmptyFits(c: Config)
    ensures Inv(c, EMPTY, [])
  {
  }

  // ── The results ──────────────────────────────────────────────

  /** Over every sequence of ingests: versions count, and content and active import are those of the last ingest. */
  lemma VersionsCountIngests(c: Config, commands: seq<Command>, slug: string)
    ensures PageFits(Final(c, commands), History(c, commands), slug)
  {
    RunsKeepInv(c, commands);
  }

  /** A failing run changes nothing, and a run fails only where a statement does. */
  lemma FailureChangesNothing(c: Config, commands: seq<Command>, e: Command)
    ensures Decide(c, Final(c, commands), e).Failed? ==> e.fails.Some? && Final(c, commands + [e]) == Final(c, commands)
  {
    RunsKeepInv(c, commands);
    ChecksPass(c, Final(c, commands), History(c, commands), e);
    assert (commands + [e])[..|commands|] == commands;
  }

  ghost predicate Retained(raws: seq<Raw>, bytes: Bytes) { exists r :: r in raws && r.bytes == bytes }

  /** The duplicate check finds every retained row, whatever its page, and no other. */
  lemma DuplicateIffRetained(c: Config, commands: seq<Command>, e: Command)
    requires !e.force && e.fails.None?
    ensures Decide(c, Final(c, commands), e).AlreadyIngested? <==> Retained(Final(c, commands).raws, e.bytes)
    ensures Decide(c, Final(c, commands), e).AlreadyIngested? ==>
              Final(c, commands + [e]).pages == Final(c, commands).pages
  {
    hide Rotated, Refresh, Active;
    var s := Final(c, commands);
    RunsKeepInv(c, commands);
    if r :| r in s.raws && r.bytes == e.bytes {
      assert RowFits(c, s, r);
      assert Seen(c, s.raws, e.bytes);
    }
    assert (commands + [e])[..|commands|] == commands;
  }

  /**
   When a command without force changes no page: exactly while some page still keeps its bytes, or
   if its content is not novel. Bytes seen before and pruned since do change a page.
  */
  lemma PagesUnchangedIff(c: Config, commands: seq<Command>, e: Command)
    requires !e.force && e.fails.None?
    ensures var s := Final(c, commands);
            Final(c, commands + [e]).pages == s.pages <==> Retained(s.raws, e.bytes) || RejectedAsNotNovel(c, s, e)
  {
    hide Rotated, Refresh, Active, Seen, MayRotate;
    var s := Final(c, commands);
    DuplicateIffRetained(c, commands, e);
    RunsKeepInv(c, commands);
    ChecksPass(c, s, History(c, commands), e);
    assert (commands + [e])[..|commands|] == commands;
    if Decide(c, s, e).Ingested? {
      assert After(c, s, e).pages[e.slug].version == if e.slug in s.pages then s.pages[e.slug].version + 1 else 1;
    }
  }

  /**
   What a command without failures reports, after every run: a duplicate, exactly if it comes without
   force and some page still keeps its bytes; not novel, exactly if it comes without force, no page
   keeps its bytes, its page exists and the novelty check says so; ingested otherwise.
  */
  lemma OutcomesDecided(c: Config, commands: seq<Command>, e: Command)
    requires e.fails.None?
    ensures var s := Final(c, commands);
            var o := Decide(c, s, e);
            && (o.AlreadyIngested? <==> !e.force && Retained(s.raws, e.bytes))
            && (o.NotNovel? <==> !e.force && !Retained(s.raws, e.bytes)
                                 && e.slug in s.pages && c.novel(e.content, s.pages[e.slug].content) == Some(false))
            && (o.Ingested? <==> !o.AlreadyIngested? && !o.NotNovel?)
  {
    hide Rotated, Active, Seen, MayRotate, Inv, Final;
    var s := Final(c, commands);
    RunsKeepInv(c, commands);
    ChecksPass(c, s, History(c, commands), e);
    if Retained(s.raws, e.bytes) { RetainedIsSeen(c, s, History(c, commands), e.bytes); }
    if Seen(c, s.raws, e.bytes) { SeenIsRetained(c, s.raws, e.bytes); }
  }

  lemma SeenIsRetained(c: Config, raws: seq<Raw>, bytes: Bytes)
    requires Seen(c, raws, bytes)
    ensures Retained(raws, bytes)
  {
  }

  /**
   Which failures make a command fail: those before its bytes are looked up, the commit, and those of
   the statements it reaches. A command that does not fail does what it would do without failures.
  */
  lemma FailsIffReached(c: Config, commands: seq<Command>, e: Command, stage: Stage)
    requires e.fails == Some(stage)
    ensures var s := Final(c, commands);
            var o, without := Decide(c, s, e), Decide(c, s, e.(fails := None));
            && (o.Failed? <==> || stage.Before? || stage.Lookup? || stage.Commit?
                               || (stage.Refreshing? && without.AlreadyIngested?)
                               || ((stage.Upsert? || stage.Artifacts? || stage.Rotation?) && without.Ingested?))
            && (!o.Failed? ==> o == without)
  {
    hide Rotated, Active, Seen, MayRotate, Inv, Final;
    RunsKeepInv(c, commands);
    ChecksPass(c, Final(c, commands), History(c, commands), e);
    ChecksPass(c, Final(c, commands), History(c, commands), e.(fails := None));
  }

  /**
   What a command that is ingested stores: the page's next version with its content and frontmatter,
   and its bytes as the page's one active import. No other page changes, nor its active import.
  */
  lemma IngestStores(c: Config, commands: seq<Command>, e: Command, slug: string)
    requires Decide(c, Final(c, commands), e).Ingested?
    ensures var s, t := Final(c, commands), Final(c, commands + [e]);
            && t.pages == s.pages[e.slug := Page(
                 if e.slug in s.pages then s.pages[e.slug].version + 1 else 1, e.content,
                 if e.syncs && c.front(e.bytes).Some? then c.front(e.bytes).value else e.frontmatter)]
            && Active(t.raws, slug) ==
               if slug == e.slug then [Raw(s.nextId, e.slug, true, c.sha(e.bytes), e.bytes, e.path, e.now)]
               else Active(s.raws, slug)
  {
    hide Rotated, Active, Decide;
    assert (commands + [e])[..|commands|] == commands;
    IngestedState(c, Final(c, commands), e);
    ActiveRotated(c, Final(c, commands), e, slug);
  }

  /** With force, bytes are ingested whether or not a page keeps them, and whether or not they are novel. */
  lemma ForceIngests(c: Config, commands: seq<Command>, e: Command)
    requires e.force && e.fails.None?
    ensures var s, t := Final(c, commands), Final(c, commands + [e]);
            && Decide(c, s, e).Ingested? && e.slug in t.pages && t.pages[e.slug].content == e.content
            && t.pages[e.slug].version == (if e.slug in s.pages then s.pages[e.slug].version + 1 else 1)
            && |Active(t.raws, e.slug)| == 1 && Active(t.raws, e.slug)[0].bytes == e.bytes
  {
    hide Final, Decide, Active;
    OutcomesDecided(c, commands, e);
    IngestStores(c, commands, e, e.slug);
  }

  /** The page's frontmatter never drifts from its active import, if commands read it from their own bytes. */
  lemma FrontmatterFitsImport(c: Config, commands: seq<Command>, slug: string)
    requires forall k :: 0 <= k < |commands| ==> ReadsItsBytes(c, commands[k])
    requires slug in Final(c, commands).pages
    ensures var s := Final(c, commands);
            |Active(s.raws, slug)| == 1 && FrontFits(c, Active(s.raws, slug)[0].bytes, s.pages[slug].frontmatter)
  {
    hide Active, Final, History;
    VersionsCountIngests(c, commands, slug);
    LastReadsItsBytes(c, commands, slug);
  }

  predicate FrontFits(c: Config, bytes: Bytes, frontmatter: string) {
    c.front(bytes).Some? ==> frontmatter == c.front(bytes).value
  }

  predicate ReadsItsBytes(c: Config, e: Command) { FrontFits(c, e.bytes, e.frontmatter) }

  lemma {:induction false} LastReadsItsBytes(c: Config, commands: seq<Command>, slug: string)
    requires forall k :: 0 <= k < |commands| ==> ReadsItsBytes(c, commands[k])
    requires LastOf(History(c, commands), slug).Some?
    ensures var last := LastOf(History(c, commands), slug).value; FrontFits(c, last.bytes, last.frontmatter)
  {
    hide Decide, Final;
    var front, e := commands[..|commands| - 1], commands[|commands| - 1];
    assert ReadsItsBytes(c, e) && History(c, front) + [] == History(c, front);
    LogGrows(History(c, front), EntryOf(c, e), slug);
    if History(c, commands) == History(c, front) || e.slug != slug { LastReadsItsBytes(c, front, slug); }
  }

  /** What `refresh_source_mapping_for_duplicate` does to one row. */
  function Refreshed(c: Config, r: Raw, e: Command): Raw {
    if r.page == e.slug && r.bytes == e.bytes && (r.hash == c.sha(e.bytes) || r.hash == "") then r.(path := e.path)
    else r
  }

  lemma {:induction false} ActiveRefreshed(c: Config, raws: seq<Raw>, e: Command, q: string, k: nat)
    requires k < |Active(raws, q)|
    ensures |Active(Refresh(c, raws, e), q)| == |Active(raws, q)|
    ensures Active(Refresh(c, raws, e), q)[k] == Refreshed(c, Active(raws, q)[k], e)
  {
    ActiveRefresh(c, raws, e, q);
    var front := raws[..|raws| - 1];
    ActiveRefresh(c, front, e, q);
    if k < |Active(front, q)| { ActiveRefreshed(c, front, e, q, k); }
  }

  /** A duplicate moves the source path of its own page's active import, if that has the bytes, and no other. */
  lemma DuplicateMovesPath(c: Config, commands: seq<Command>, e: Command, slug: string)
    requires var s := Final(c, commands); Decide(c, s, e).AlreadyIngested? && slug in s.pages
    ensures var before, after := Active(Final(c, commands).raws, slug), Active(Final(c, commands + [e]).raws, slug);
            && |before| == |after| == 1
            && after[0] ==
               if slug == e.slug && before[0].bytes == e.bytes then before[0].(path := e.path) else before[0]
  {
    RunsKeepInv(c, commands);
    RefreshMovesPath(c, Final(c, commands), History(c, commands), e, slug);
    assert (commands + [e])[..|commands|] == commands;
    hide Active, Refresh, Inv, History;
  }

  lemma RefreshMovesPath(c: Config, s: State, log: seq<Entry>, e: Command, slug: string)
    requires Inv(c, s, log) && slug in s.pages
    ensures var before, after := Active(s.raws, slug), Active(Refresh(c, s.raws, e), slug);
            && |before| == |after| == 1
            && after[0] ==
               if slug == e.slug && before[0].bytes == e.bytes then before[0].(path := e.path) else before[0]
  {
    hide Active, Refresh, CountOf, LastOf;
    assert PageFits(s, log, slug);
    ActiveRefreshed(c, s.raws, e, slug, 0);
    ActiveInRaws(s.raws, slug, Active(s.raws, slug)[0]);
    assert RowFits(c, s, Active(s.raws, slug)[0]);
  }

  lemma {:induction false} RefreshedAt(c: Config, raws: seq<Raw>, e: Command, k: nat)
    requires k < |raws|
    ensures Refresh(c, raws, e)[k] == if raws[k].active then Refreshed(c, raws[k], e) else raws[k]
  {
    if k < |raws| - 1 { RefreshedAt(c, raws[..|raws| - 1], e, k); }
  }

  /** A duplicate changes no row but its own page's active import, if that has the bytes, and of it only the path. */
  lemma DuplicateKeepsRows(c: Config, commands: seq<Command>, e: Command, k: nat)
    requires Decide(c, Final(c, commands), e).AlreadyIngested? && k < |Final(c, commands).raws|
    ensures var s, t := Final(c, commands), Final(c, commands + [e]);
            && |t.raws| == |s.raws|
            && t.raws[k] ==
               if s.raws[k].page == e.slug && s.raws[k].active && s.raws[k].bytes == e.bytes then
                 s.raws[k].(path := e.path)
               else s.raws[k]
  {
    var s := Final(c, commands);
    RunsKeepInv(c, commands);
    assert RowFits(c, s, s.raws[k]);
    RefreshedAt(c, s.raws, e, k);
    assert (commands + [e])[..|commands|] == commands;
    hide Refresh, Inv;
  }

  lemma {:induction false} DeactivatedAt(raws: seq<Raw>, p: string, k: nat)
    requires k < |raws|
    ensures Deactivate(raws, p)[k] == if raws[k].page == p then raws[k].(active := false) else raws[k]
  {
    if k < |raws| - 1 { DeactivatedAt(raws[..|raws| - 1], p, k); }
  }

  /**
   The rows after an ingest: the new one and those that were there, the page's own no longer active,
   without those that pruning takes.
  */
  lemma RowsAfterIngest(c: Config, commands: seq<Command>, e: Command, r: Raw)
    requires Decide(c, Final(c, commands), e).Ingested?
    ensures var s, t := Final(c, commands), Final(c, commands + [e]);
            r in t.raws <==>
            && !Pruned(c, Added(c, s, e), e.slug, e.now, r)
            && (|| r == Raw(s.nextId, e.slug, true, c.sha(e.bytes), e.bytes, e.path, e.now)
                || exists q :: q in s.raws && r == if q.page == e.slug then q.(active := false) else q)
  {
    hide Final, Decide, Pruned, Deactivate, Rotated, Prune;
    var s := Final(c, commands);
    LastIngested(c, commands, e);
    PrunedRow(c, Added(c, s, e), e.slug, e.now, Added(c, s, e), r);
    forall k | 0 <= k < |s.raws|
      ensures Deactivate(s.raws, e.slug)[k] ==
              if s.raws[k].page == e.slug then s.raws[k].(active := false) else s.raws[k]
    {
      DeactivatedAt(s.raws, e.slug, k);
    }
    if q :| q in s.raws && r == if q.page == e.slug then q.(active := false) else q {
      var k :| 0 <= k < |s.raws| && s.raws[k] == q;
      assert Deactivate(s.raws, e.slug)[k] == r;
    }
  }

  lemma LastIngested(c: Config, commands: seq<Command>, e: Command)
    requires Decide(c, Final(c, commands), e).Ingested?
    ensures var s := Final(c, commands);
            && Final(c, commands + [e]).raws == Rotated(c, s, e)
            && Rotated(c, s, e) == Prune(c, Added(c, s, e), e.slug, e.now, Added(c, s, e))
  {
    hide Rotated, Decide;
    assert (commands + [e])[..|commands|] == commands;
    IngestedState(c, Final(c, commands), e);
    RotatedIs(c, Final(c, commands), e);
  }

  lemma RotatedIs(c: Config, s: State, e: Command)
    ensures Rotated(c, s, e) == Prune(c, Added(c, s, e), e.slug, e.now, Added(c, s, e))
  {
    hide Prune, Added;
  }

  lemma {:induction false} ActiveInRaws(raws: seq<Raw>, page: string, r: Raw)
    requires r in Active(raws, page)
    ensures r in raws && r.page == page
  {
    var front := raws[..|raws| - 1];
    if r in Active(front, page) { ActiveInRaws(front, page, r); }
  }

  /** With pruning switched off nothing is forgotten, so no bytes are ever ingested twice without force. */
  lemma {:induction false} KeepAllRetains(c: Config, commands: seq<Command>, bytes: Bytes)
    requires c.keepAll && exists k :: 0 <= k < |History(c, commands)| && History(c, commands)[k].bytes == bytes
    ensures Retained(Final(c, commands).raws, bytes)
  {
    hide Active, OfPage, Deactivate, Prune, Refresh;
    var front, e := commands[..|commands| - 1], commands[|commands| - 1];
    var s := Final(c, front);
    var k :| 0 <= k < |History(c, commands)| && History(c, commands)[k].bytes == bytes;
    if k < |History(c, front)| {
      assert History(c, front)[k].bytes == bytes;
      KeepAllRetains(c, front, bytes);
      StaysRetained(c, s, e, bytes);
    } else {
      PrunedRow(c, Added(c, s, e), e.slug, e.now, Added(c, s, e), NewRaw(c, s, e));
      assert NewRaw(c, s, e) in Rotated(c, s, e);
    }
  }

  lemma StaysRetained(c: Config, s: State, e: Command, bytes: Bytes)
    requires c.keepAll && Retained(s.raws, bytes)
    ensures Retained(After(c, s, e).raws, bytes)
  {
    hide Active, OfPage, Deactivate, Prune, Refresh;
    var r :| r in s.raws && r.bytes == bytes;
    match Decide(c, s, e)
    case Ingested =>
      var q := RowDeactivated(s.raws, e.slug, r);
      PrunedRow(c, Added(c, s, e), e.slug, e.now, Added(c, s, e), q);
      assert q in Rotated(c, s, e) && q.bytes == bytes;
    case AlreadyIngested =>
      var q := RowRefreshed(c, s.raws, e, r);
      assert q.bytes == bytes;
    case _ =>
  }

  lemma KeepAllNeverRepeats(c: Config, commands: seq<Command>, e: Command)
    requires c.keepAll && !e.force
    requires exists k :: 0 <= k < |History(c, commands)| && History(c, commands)[k].bytes == e.bytes
    ensures !Decide(c, Final(c, commands), e).Ingested? && Final(c, commands + [e]).pages == Final(c, commands).pages
  {
    KeepAllRetains(c, commands, e.bytes);
    assert (commands + [e])[..|commands|] == commands;
    if e.fails.None? {
      DuplicateIffRetained(c, commands, e);
    } else {
      RunsKeepInv(c, commands);
      RetainedIsSeen(c, Final(c, commands), History(c, commands), e.bytes);
    }
  }

  lemma RetainedIsSeen(c: Config, s: State, log: seq<Entry>, bytes: Bytes)
    requires Inv(c, s, log) && Retained(s.raws, bytes)
    ensures Seen(c, s.raws, bytes)
  {
  }

  function Write(bytes: Bytes, content: string, now: nat): Command {
    Command(bytes, "note.md", "note", content, "{}", false, now, false, None)
  }

  /**
   With pruning on, bytes seen before can change the page again: keeping no history, a file that goes
   back to its first bytes is ingested a third time.
  */
  lemma PruningForgets(c: Config)
    requires !c.keepAll && c.keep == 0 && forall a, b :: c.novel(a, b) == Some(true)
    ensures var first, second, third := Write([1], "one", 0), Write([2], "two", 1), Write([1], "one", 2);
            var s1 := After(c, EMPTY, first);
            var s2 := After(c, s1, second);
            && Decide(c, EMPTY, first).Ingested? && Decide(c, s1, second).Ingested? && Decide(c, s2, third).Ingested?
            && After(c, s2, third).pages == map["note" := Page(3, "one", "{}")]
  {
    hide Decide, After, Upserted;
    var first, second, third := Write([1], "one", 0), Write([2], "two", 1), Write([1], "one", 2);
    FirstWrite(c, first);
    var s1 := After(c, EMPTY, first);
    OverWrite(c, s1, second, 1, "one");
    var s2 := After(c, s1, second);
    OverWrite(c, s2, third, 2, "two");
  }

  lemma FirstWrite(c: Config, e: Command)
    requires e == Write(e.bytes, e.content, e.now)
    ensures Decide(c, EMPTY, e).Ingested?
    ensures After(c, EMPTY, e) == State(map["note" := Page(1, e.content, "{}")],
                                        [Raw(1, "note", true, c.sha(e.bytes), e.bytes, "note.md", e.now)], 2)
  {
    FirstRows(c, e);
    ActiveRotated(c, EMPTY, e, "note");
    NoRowsOfPage([], "note");
    hide Rotated, Active, OfPage;
    assert Upserted(c, EMPTY, e) == map["note" := Page(1, e.content, "{}")];
  }

  lemma FirstRows(c: Config, e: Command)
    requires e.slug == "note"
    ensures Rotated(c, EMPTY, e) == [NewRaw(c, EMPTY, e)]
  {
    var r := NewRaw(c, EMPTY, e);
    assert Added(c, EMPTY, e) == [r] && [r][..0] == [];
    assert Prune(c, [r], "note", e.now, [r]) == Prune(c, [r], "note", e.now, [r][..0]) + [r];
  }

  /** Overwriting a page that keeps no history leaves one row. */
  lemma OverWrite(c: Config, s: State, e: Command, version: nat, content: string)
    requires !c.keepAll && c.keep == 0 && forall a, b :: c.novel(a, b) == Some(true)
    requires e == Write(e.bytes, e.content, e.now)
    requires s.pages == map["note" := Page(version, content, "{}")]
    requires |s.raws| == 1 && s.raws[0].page == "note" && s.raws[0].active && s.raws[0].bytes != e.bytes
    ensures Decide(c, s, e).Ingested?
    ensures After(c, s, e) == State(map["note" := Page(version + 1, e.content, "{}")],
                                    [Raw(s.nextId, "note", true, c.sha(e.bytes), e.bytes, "note.md", e.now)],
                                    s.nextId + 1)
  {
    OverWrittenRows(c, s, e);
    ActiveRotated(c, s, e, "note");
    OneActive(s.raws, "note");
    hide Rotated, Active, OfPage;
    assert Upserted(c, s, e) == map["note" := Page(version + 1, e.content, "{}")];
  }

  lemma OneActive(raws: seq<Raw>, page: string)
    requires |raws| == 1 && raws[0].page == page && raws[0].active
    ensures |Active(raws, page)| == 1
  {
  }

  lemma OverWrittenRows(c: Config, s: State, e: Command)
    requires !c.keepAll && c.keep == 0 && e.slug == "note" && |s.raws| == 1 && s.raws[0].page == "note"
    ensures Rotated(c, s, e) == [NewRaw(c, s, e)]
  {
    var q, r := s.raws[0].(active := false), NewRaw(c, s, e);
    assert s.raws[..0] == [] && Deactivate(s.raws, "note") == [q];
    var all := [q, r];
    assert Added(c, s, e) == all && all[..1] == [q] && [q][..0] == [];
    assert Prune(c, all, "note", e.now, [q]) == Prune(c, all, "note", e.now, [q][..0]) + [];
    assert Prune(c, all, "note", e.now, all) == Prune(c, all, "note", e.now, all[..1]) + [r];
  }
}
