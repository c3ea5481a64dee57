/**
 Ingesting files: the page upsert, the rotation of raw imports and the duplicate check, inside one
 transaction. Parsing, the novelty score and the digest are parameters.
*/
module Ingest {
  import opened Wrappers

  /** A page row of collection 1 in the global namespace; its slug is its key. */
  datatype Page = Page(version: nat, content: string, frontmatter: string)

  /** A row of `raw_imports`. */
  datatype Raw = Raw(id: nat, page: string, active: bool, hash: string, bytes: Bytes, path: string, at: nat)

  datatype State = State(pages: map<string, Page>, raws: seq<Raw>, nextId: nat)

  /**
   `novel` is `None` when the check fails, which lets the ingest go on. `front` is the frontmatter, as
   stored, that the rotation reads from the bytes; `None` if they are not UTF-8.
  */
  datatype Config = Config(
    sha: Bytes -> string, novel: (string, string) -> Option<bool>, front: Bytes -> Option<string>,
    keepAll: bool, keep: nat, ttl: nat)

  /** Where a run fails: before the transaction, or at a statement of it. */
  datatype Stage = Before | Lookup | Refreshing | Upsert | Artifacts | Rotation | Commit

  /**
   One command: the file's bytes, the slug, content and frontmatter read from them, and the clock.
   `syncs` tells whether the rotation's frontmatter update succeeds; its failure is ignored.
  */
  datatype Command = Command(
    bytes: Bytes, path: string, slug: string, content: string, frontmatter: string,
    force: bool, now: nat, syncs: bool, fails: Option<Stage>)

  datatype Outcome = Ingested | AlreadyIngested | NotNovel | Failed

  const EMPTY: State := State(map[], [], 1)

  // ── Raw imports ──────────────────────────────────────────────

  /** `is_already_ingested`: the same bytes under their digest, or under none. */
  predicate Seen(c: Config, raws: seq<Raw>, bytes: Bytes) {
    exists r :: r in raws && r.bytes == bytes && (r.hash == c.sha(bytes) || r.hash == "")
  }

  function Active(raws: seq<Raw>, page: string): seq<Raw> {
    if raws == [] then []
    else
      var last := raws[|raws| - 1];
      Active(raws[..|raws| - 1], page) + if last.page == page && last.active then [last] else []
  }

  function OfPage(raws: seq<Raw>, page: string): seq<Raw> {
    if raws == [] then []
    else
      var last := raws[|raws| - 1];
      OfPage(raws[..|raws| - 1], page) + if last.page == page then [last] else []
  }

  function Deactivate(raws: seq<Raw>, page: string): (r: seq<Raw>)
    ensures |r| == |raws|
  {
    if raws == [] then []
    else
      var last := raws[|raws| - 1];
      Deactivate(raws[..|raws| - 1], page) + [if last.page == page then last.(active := false) else last]
  }

  /** `ORDER BY created_at DESC, id DESC` puts `q` before `r`. */
  predicate Newer(q: Raw, r: Raw) { q.at > r.at || (q.at == r.at && q.id > r.id) }

  /** How many inactive rows of the page come before `r` in the pruning query. */
  function Rank(raws: seq<Raw>, r: Raw): nat {
    if raws == [] then 0
    else
      var q := raws[|raws| - 1];
      Rank(raws[..|raws| - 1], r)
      + if q.page == r.page && !q.active && Newer(q, r) then 1 else 0
  }

  /** Inactive rows go when they are too old or too many. */
  predicate Pruned(c: Config, all: seq<Raw>, page: string, now: nat, r: Raw) {
    !c.keepAll && r.page == page && !r.active && (r.at + c.ttl < now || Rank(all, r) >= c.keep)
  }

  function Prune(c: Config, all: seq<Raw>, page: string, now: nat, raws: seq<Raw>): seq<Raw> {
    if raws == [] then []
    else
      var last := raws[|raws| - 1];
      Prune(c, all, page, now, raws[..|raws| - 1]) + if Pruned(c, all, page, now, last) then [] else [last]
  }

  function NewRaw(c: Config, s: State, e: Command): Raw {
    Raw(s.nextId, e.slug, true, c.sha(e.bytes), e.bytes, e.path, e.now)
  }

  /** The rows after deactivating the page's old import and adding the new one, before pruning. */
  function Added(c: Config, s: State, e: Command): seq<Raw> { Deactivate(s.raws, e.slug) + [NewRaw(c, s, e)] }

  function Rotated(c: Config, s: State, e: Command): seq<Raw> {
    Prune(c, Added(c, s, e), e.slug, e.now, Added(c, s, e))
  }

  /** `assert_existing_active_row_invariant`. */
  predicate MayRotate(raws: seq<Raw>, page: string) { OfPage(raws, page) == [] || |Active(raws, page)| == 1 }

  /** `refresh_source_mapping_for_duplicate`; a page has at most one active row. */
  function Refresh(c: Config, raws: seq<Raw>, e: Command): (r: seq<Raw>)
    ensures |r| == |raws|
  {
    if raws == [] then []
    else
      var last := raws[|raws| - 1];
      var mine := last.page == e.slug && last.active && last.bytes == e.bytes
                  && (last.hash == c.sha(e.bytes) || last.hash == "");
      Refresh(c, raws[..|raws| - 1], e) + [if mine then last.(path := e.path) else last]
  }

  // ── One run ──────────────────────────────────────────────────

  /** What the rotation leaves in the page's frontmatter column. */
  function Synced(c: Config, e: Command, frontmatter: string): string {
    if e.syncs && c.front(e.bytes).Some? then c.front(e.bytes).value else frontmatter
  }

  function Upserted(c: Config, s: State, e: Command): map<string, Page> {
    s.pages[e.slug := Page(if e.slug in s.pages then s.pages[e.slug].version + 1 else 1,
                           e.content, Synced(c, e, e.frontmatter))]
  }

  predicate FailsAt(e: Command, stages: set<Stage>) { e.fails.Some? && e.fails.value in stages }

  predicate RejectedAsNotNovel(c: Config, s: State, e: Command) {
    e.slug in s.pages && c.novel(e.content, s.pages[e.slug].content) == Some(false)
  }

  function Decide(c: Config, s: State, e: Command): Outcome {
    if FailsAt(e, {Before, Lookup}) then Failed
    else if !e.force && Seen(c, s.raws, e.bytes) then
      if FailsAt(e, {Refreshing, Commit}) then Failed else AlreadyIngested
    else if !e.force && RejectedAsNotNovel(c, s, e) then
      if FailsAt(e, {Commit}) then Failed else NotNovel
    else if FailsAt(e, {Upsert, Artifacts, Rotation, Commit}) then Failed
    else if !MayRotate(s.raws, e.slug) || |Active(Rotated(c, s, e), e.slug)| != 1 then Failed
    else Ingested
  }

  function After(c: Config, s: State, e: Command): State {
    match Decide(c, s, e)
    case Ingested => State(Upserted(c, s, e), Rotated(c, s, e), s.nextId + 1)
    case AlreadyIngested => s.(raws := Refresh(c, s.raws, e))
    case NotNovel => s
    case Failed => s
  }

  class Store {
    var pages: map<string, Page>
    var raws: seq<Raw>
    var nextId: nat

    ghost function Value(): State
      reads this
    {
      State(pages, raws, nextId)
    }

    constructor ()
      ensures Value() == EMPTY
    {
      pages, raws, nextId := map[], [], 1;
    }

    /**
     The run as the code makes it, rolling back where it fails. When `COMMIT` itself fails, the open
     transaction goes with the command's connection.
    */
    method Run(c: Config, e: Command) returns (outcome: Outcome)
      modifies this
      ensures outcome == Decide(c, old(Value()), e) && Value() == After(c, old(Value()), e)
    {
      hide Seen, Deactivate, Prune, Refresh, Active, OfPage;
      if FailsAt(e, {Before}) {
        return Failed;
      }
      var saved := (pages, raws, nextId); // BEGIN IMMEDIATE
      outcome := Write(c, e);
      if outcome.Failed? || FailsAt(e, {Commit}) {
        pages, raws, nextId := saved.0, saved.1, saved.2; // ROLLBACK
        return Failed;
      }
    }

    /** The statements between `BEGIN` and `COMMIT`; after a failure what they did is undone. */
    method Write(c: Config, e: Command) returns (outcome: Outcome)
      modifies this
      ensures !FailsAt(e, {Before}) ==>
                (outcome.Failed? || FailsAt(e, {Commit}) <==> Decide(c, old(Value()), e).Failed?)
      ensures !outcome.Failed? && !FailsAt(e, {Before, Commit}) ==>
                outcome == Decide(c, old(Value()), e) && Value() == After(c, old(Value()), e)
    {
      hide Seen, Deactivate, Prune, Refresh, Active, OfPage;
      if FailsAt(e, {Lookup}) {
        return Failed;
      }
      if !e.force && Seen(c, raws, e.bytes) {
        if FailsAt(e, {Refreshing}) {
          return Failed;
        }
        raws := Refresh(c, raws, e);
        return AlreadyIngested;
      }
      if !e.force && e.slug in pages {
        if c.novel(e.content, pages[e.slug].content) == Some(false) {
          return NotNovel;
        }
      }
      if FailsAt(e, {Upsert}) {
        return Failed;
      }
      var version := if e.slug in pages then pages[e.slug].version + 1 else 1;
      pages := pages[e.slug := Page(version, e.content, e.frontmatter)];
      if FailsAt(e, {Artifacts, Rotation}) {
        return Failed;
      }
      var ok := Rotate(c, e);
      return if ok then Ingested else Failed;
    }

    /** `rotate_active_raw_import`, with the checks at both ends. */
    method Rotate(c: Config, e: Command) returns (ok: bool)
      requires e.slug in pages
      modifies this
      ensures ok <==> MayRotate(old(raws), e.slug) && |Active(Rotated(c, old(Value()), e), e.slug)| == 1
      ensures ok ==> raws == Rotated(c, old(Value()), e) && nextId == old(nextId) + 1
      ensures ok ==> var page := old(pages[e.slug]);
                     pages == old(pages)[e.slug := page.(frontmatter := Synced(c, e, page.frontmatter))]
    {
      hide Deactivate, Prune, Active, OfPage;
      if !(OfPage(raws, e.slug) == [] || |Active(raws, e.slug)| == 1) {
        return false;
      }
      raws := Deactivate(raws, e.slug);
      raws := raws + [Raw(nextId, e.slug, true, c.sha(e.bytes), e.bytes, e.path, e.now)];
      nextId := nextId + 1;
      var front := c.front(e.bytes);
      if front.Some? && e.syncs {
        pages := pages[e.slug := pages[e.slug].(frontmatter := front.value)];
      }
      raws := Prune(c, raws, e.slug, e.now, raws);
      return |Active(raws, e.slug)| == 1;
    }
  }
}
