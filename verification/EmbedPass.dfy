/** Embedding pages: replacing one page's rows, the paginated pass over all pages, purging a collection. */
module EmbedPass {
  import opened Wrappers
  import opened EmbeddingIndex

  const EMBEDDER_VERSION: int := 2

  /** A page row; `chunks` is what the chunker makes of its content. */
  datatype Page = Page(id: nat, collection: nat, namespace: string, slug: string, chunks: seq<Chunk>)

  // ── Finding a page by key ────────────────────────────────────

  /** `ORDER BY namespace`: bytewise, which for UTF-8 is by code point. */
  predicate Less(a: string, b: string) {
    b != [] && (a == [] || a[0] < b[0] || (a[0] == b[0] && Less(a[1..], b[1..])))
  }

  lemma {:induction false} LessIsOrder(a: string, b: string, c: string)
    ensures a == b || (Less(a, b) != Less(b, a))
    ensures Less(a, b) && Less(b, c) ==> Less(a, c)
    ensures !Less(a, a)
  {
    if a != [] && b != [] && a[0] == b[0] {
      assert a == [a[0]] + a[1..] && b == [b[0]] + b[1..];
      LessIsOrder(a[1..], b[1..], if c != [] then c[1..] else c);
    } else if a != [] {
      LessIsOrder(a[1..], a[1..], a[1..]);
    }
  }

  /** Without a namespace the global page comes first, then the others by namespace. */
  predicate Prefers(a: Page, b: Page) {
    if (a.namespace == "") != (b.namespace == "") then a.namespace == "" else Less(a.namespace, b.namespace)
  }

  /** Bytewise order: the first difference decides, and a prefix comes first. */
  lemma {:induction false} LessIff(a: string, b: string)
    ensures Less(a, b) <==>
            exists k :: 0 <= k <= |a| && k < |b| && a[..k] == b[..k] && (k == |a| || a[k] < b[k])
  {
    if a != [] && b != [] && a[0] == b[0] {
      LessIff(a[1..], b[1..]);
      if k :| && 0 <= k <= |a[1..]| && k < |b[1..]| && a[1..][..k] == b[1..][..k]
              && (k == |a[1..]| || a[1..][k] < b[1..][k]) {
        assert a[..k + 1] == [a[0]] + a[1..][..k] && b[..k + 1] == [b[0]] + b[1..][..k];
      }
      if k :| 0 <= k <= |a| && k < |b| && a[..k] == b[..k] && (k == |a| || a[k] < b[k]) {
        assert a[1..][..k - 1] == a[..k][1..] && b[1..][..k - 1] == b[..k][1..];
      }
    } else if b != [] {
      assert a[..0] == b[..0];
      SameHead(a, b);
    }
  }

  lemma SameHead(a: string, b: string)
    ensures forall k :: 0 < k <= |a| && k <= |b| && a[..k] == b[..k] ==> a[0] == b[0]
  {
    forall k | 0 < k <= |a| && k <= |b| && a[..k] == b[..k]
      ensures a[0] == b[0]
    {
      assert a[..k][0] == b[..k][0];
    }
  }

  lemma PrefersIff(a: Page, b: Page)
    ensures Prefers(a, b) <==>
            || (a.namespace == "" && b.namespace != "")
            || (a.namespace != "" && b.namespace != "" && Less(a.namespace, b.namespace))
  {
  }

  predicate HasKey(p: Page, collection: nat, slug: string) { p.collection == collection && p.slug == slug }

  /** `pages::resolve_optional` without a namespace. */
  function Resolve(pages: seq<Page>, collection: nat, slug: string): (r: Option<Page>)
    ensures r.Some? ==> r.value in pages && HasKey(r.value, collection, slug)
  {
    if pages == [] then None
    else
      var p := pages[0];
      var other := Resolve(pages[1..], collection, slug);
      if HasKey(p, collection, slug) && (other.None? || Prefers(p, other.value)) then Some(p) else other
  }

  ghost predicate UniqueKeys(pages: seq<Page>) {
    forall p, q :: p in pages && q in pages && HasKey(p, q.collection, q.slug) && p.namespace == q.namespace ==> p == q
  }

  lemma {:induction false} ResolvesToBest(pages: seq<Page>, collection: nat, slug: string, q: Page)
    requires UniqueKeys(pages) && q in pages && HasKey(q, collection, slug)
    ensures var r := Resolve(pages, collection, slug); r.Some? && (r.value == q || Prefers(r.value, q))
  {
    var rest := pages[1..];
    var other := Resolve(rest, collection, slug);
    if q in rest {
      ResolvesToBest(rest, collection, slug, q);
      LessIsOrder(pages[0].namespace, other.value.namespace, q.namespace);
    } else if other.Some? {
      LessIsOrder(q.namespace, other.value.namespace, q.namespace);
      assert HasKey(q, other.value.collection, other.value.slug);
    }
  }

  /** A page is embedded from its own content exactly if its key resolves to it: no other namespace comes before. */
  lemma OwnContentIff(pages: seq<Page>, p: Page)
    requires UniqueKeys(pages) && p in pages
    ensures Resolve(pages, p.collection, p.slug) == Some(p) <==>
            forall q :: q in pages && q != p && HasKey(q, p.collection, p.slug) ==> Prefers(p, q)
  {
    ResolvesToBest(pages, p.collection, p.slug, p);
    var r := Resolve(pages, p.collection, p.slug).value;
    if r == p {
      forall q | q in pages && q != p && HasKey(q, p.collection, p.slug)
        ensures Prefers(p, q)
      {
        ResolvesToBest(pages, p.collection, p.slug, q);
      }
    } else {
      LessIsOrder(p.namespace, r.namespace, p.namespace);
      assert !Prefers(p, r) && HasKey(r, p.collection, p.slug);
    }
  }

  /** Two namespaces of one slug: both pages are embedded from the global page's content. */
  lemma NamespacesShareContent(first: seq<Chunk>, second: seq<Chunk>)
    ensures var global, other := Page(1, 1, "", "notes", first), Page(2, 1, "team", "notes", second);
            UniqueKeys([global, other]) && ContentOf([global, other], other) == first
  {
  }

  /** The chunks `get_page_by_key` leads to. */
  function ContentOf(pages: seq<Page>, p: Page): seq<Chunk> {
    match Resolve(pages, p.collection, p.slug)
    case Some(q) => q.chunks
    case None => []
  }

  // ── Pages in id order ────────────────────────────────────────

  function Ids(pages: seq<Page>): (ids: seq<nat>)
    ensures |ids| == |pages| && forall k :: 0 <= k < |ids| ==> ids[k] == pages[k].id
  {
    if pages == [] then [] else Ids(pages[..|pages| - 1]) + [pages[|pages| - 1].id]
  }

  /** The table by its key: ids are positive and increase. */
  ghost predicate InIdOrder(pages: seq<Page>) {
    && (forall k :: 0 <= k < |pages| ==> pages[k].id > 0)
    && forall j, k :: 0 <= j < k < |pages| ==> pages[j].id < pages[k].id
  }

  /** `SELECT ... WHERE id > ?1 ORDER BY id LIMIT ?2`. */
  function PageRefsAfter(pages: seq<Page>, last: nat, limit: nat): seq<Page> {
    if pages == [] || limit == 0 then []
    else if pages[0].id > last then [pages[0]] + PageRefsAfter(pages[1..], last, limit - 1)
    else PageRefsAfter(pages[1..], last, limit)
  }

  /** After `n` pages the next batch is the following ones. */
  lemma NextBatch(pages: seq<Page>, n: nat, last: nat, limit: nat)
    requires InIdOrder(pages) && n <= |pages| && last == if n == 0 then 0 else pages[n - 1].id
    ensures PageRefsAfter(pages, last, limit) == pages[n..if n + limit <= |pages| then n + limit else |pages|]
  {
    SkipRead(pages, n, last, limit);
    BatchFrom(pages[n..], last, limit);
  }

  lemma {:induction false} SkipRead(pages: seq<Page>, n: nat, last: nat, limit: nat)
    requires n <= |pages| && forall k :: 0 <= k < n ==> pages[k].id <= last
    ensures PageRefsAfter(pages, last, limit) == PageRefsAfter(pages[n..], last, limit)
    decreases n
  {
    if n > 0 {
      SkipRead(pages[1..], n - 1, last, limit);
      assert pages[1..][n - 1..] == pages[n..];
    }
  }

  lemma {:induction false} BatchFrom(pages: seq<Page>, last: nat, limit: nat)
    requires InIdOrder(pages) && forall k :: 0 <= k < |pages| ==> pages[k].id > last
    ensures PageRefsAfter(pages, last, limit) == pages[..if limit <= |pages| then limit else |pages|]
    decreases |pages|
  {
    if pages != [] && limit > 0 { BatchFrom(pages[1..], last, limit - 1); }
  }

  // ── What the index says of a page ────────────────────────────

  function Chunks(rows: seq<Row>): (r: seq<Chunk>)
    ensures |r| == |rows| && forall k :: 0 <= k < |r| ==> r[k] == rows[k].chunk
  {
    if rows == [] then [] else Chunks(rows[..|rows| - 1]) + [rows[|rows| - 1].chunk]
  }

  /** `page_needs_refresh`: the recorded chunks differ in number or in some compared field. */
  predicate NeedsRefresh(rows: seq<Row>, page: nat, model: string, chunks: seq<Chunk>, versionMismatch: bool) {
    versionMismatch
    || var existing := Select(rows, page, model);
       |existing| != |chunks| || exists k :: 0 <= k < |existing| && existing[k].chunk != chunks[k]
  }

  lemma RefreshIff(rows: seq<Row>, page: nat, model: string, chunks: seq<Chunk>)
    ensures NeedsRefresh(rows, page, model, chunks, false) <==> Chunks(Select(rows, page, model)) != chunks
  {
  }

  // ── The store ────────────────────────────────────────────────

  ghost function Above(ids: set<nat>): (n: nat)
    ensures forall id :: id in ids ==> id < n
  {
    if ids == {} then 0
    else
      var id :| id in ids;
      var n := Above(ids - {id});
      assert forall other :: other in ids ==> other == id || other in ids - {id};
      if id < n then n else id + 1
  }

  /** A rowid for the next vector, as the table would choose one: any that is not in use. */
  method NewRowid(table: map<nat, Bytes>) returns (id: nat)
    ensures id !in table
  {
    ghost var n := Above(table.Keys);
    assert n !in table;
    id :| id !in table;
  }

  ghost predicate HasVector(r: Row, vecs: Vectors, vector: Bytes) {
    Backed(r, vecs) && vecs[r.model][r.vecRowid] == vector
  }

  /** The page's rows record the chunks in order, each with its vector. */
  ghost predicate Embedded(rows: seq<Row>, vecs: Vectors, page: nat, model: string, chunks: seq<Chunk>,
                           embed: Chunk -> Bytes)
  {
    && Chunks(Select(rows, page, model)) == chunks
    && forall r :: r in Select(rows, page, model) ==> HasVector(r, vecs, embed(r.chunk))
  }

  /** Other pages and models keep their rows and vectors. */
  ghost predicate OthersKept(rows: seq<Row>, vecs: Vectors, rows': seq<Row>, vecs': Vectors, page: nat, model: string) {
    && vecs'.Keys == vecs.Keys
    && (forall q: nat, m :: q != page || m != model ==> Select(rows', q, m) == Select(rows, q, m))
    && forall r :: r in rows && (r.page != page || r.model != model) && Backed(r, vecs) ==>
         HasVector(r, vecs', vecs[r.model][r.vecRowid])
  }

  function OfPage(page: nat, model: string): (nat, string) -> bool { (q, m) => q == page && m == model }

  function NewRow(rows: seq<Row>, page: nat, model: string, rowid: nat, chunk: Chunk): Row {
    Row(page, model, rowid, |Select(rows, page, model)|, chunk)
  }

  lemma DropsPage(pages: set<nat>, rows: seq<Row>, vecs: Vectors, page: nat, model: string, after: Vectors,
                  embed: Chunk -> Bytes)
    requires Consistent(pages, rows, vecs) && VectorsDropped(rows, OfPage(page, model), vecs, after)
    ensures var kept := Without(rows, OfPage(page, model));
            && Consistent(pages, kept, after) && Embedded(kept, after, page, model, [], embed)
            && OthersKept(rows, vecs, kept, after, page, model)
  {
    DropKeepsConsistent(pages, rows, vecs, OfPage(page, model), pages, after);
    hide Consistent, Select, Without;
    var kept := Without(rows, OfPage(page, model));
    forall q: nat, m
      ensures Select(kept, q, m) == if q == page && m == model then [] else Select(rows, q, m)
    {
      SelectWithout(rows, OfPage(page, model), q, m);
    }
  }

  lemma InsertsChunk(pages: set<nat>, rows: seq<Row>, vecs: Vectors, page: nat, model: string, rowid: nat,
                     chunks: seq<Chunk>, k: nat, embed: Chunk -> Bytes)
    requires Consistent(pages, rows, vecs) && page in pages && model in vecs && rowid !in vecs[model]
    requires k < |chunks| && Embedded(rows, vecs, page, model, chunks[..k], embed)
    ensures var r := NewRow(rows, page, model, rowid, chunks[k]);
            var after := PutVector(vecs, model, rowid, embed(chunks[k]));
            && Consistent(pages, rows + [r], after) && Embedded(rows + [r], after, page, model, chunks[..k + 1], embed)
            && OthersKept(rows, vecs, rows + [r], after, page, model) && after.Keys == vecs.Keys
  {
    hide Consistent, Select, Embedded, OthersKept;
    var r := NewRow(rows, page, model, rowid, chunks[k]);
    InsertKeepsConsistent(pages, rows, vecs, r, embed(chunks[k]));
    InsertEmbeds(rows, vecs, r, chunks[..k], embed);
    InsertKeepsOthers(rows, vecs, r, embed(chunks[k]));
    assert chunks[..k + 1] == chunks[..k] + [chunks[k]];
  }

  lemma InsertEmbeds(rows: seq<Row>, vecs: Vectors, r: Row, chunks: seq<Chunk>, embed: Chunk -> Bytes)
    requires r.model in vecs && r.vecRowid !in vecs[r.model] && Embedded(rows, vecs, r.page, r.model, chunks, embed)
    ensures var after := PutVector(vecs, r.model, r.vecRowid, embed(r.chunk));
            Embedded(rows + [r], after, r.page, r.model, chunks + [r.chunk], embed)
  {
    hide Select, Chunks, HasVector, PutVector;
    SelectSnoc(rows, r, r.page, r.model);
    ChunksSnoc(Select(rows, r.page, r.model), r);
    forall q | q in Select(rows + [r], r.page, r.model)
      ensures HasVector(q, PutVector(vecs, r.model, r.vecRowid, embed(r.chunk)), embed(q.chunk))
    {
      if q in Select(rows, r.page, r.model) { InsertKeepsVector(vecs, r, q, embed); }
      InsertedVector(vecs, r, embed(r.chunk));
    }
  }

  lemma InsertKeepsVector(vecs: Vectors, r: Row, q: Row, embed: Chunk -> Bytes)
    requires r.model in vecs && r.vecRowid !in vecs[r.model] && HasVector(q, vecs, embed(q.chunk))
    ensures HasVector(q, PutVector(vecs, r.model, r.vecRowid, embed(r.chunk)), embed(q.chunk))
  {
  }

  lemma InsertedVector(vecs: Vectors, r: Row, vector: Bytes)
    requires r.model in vecs
    ensures HasVector(r, PutVector(vecs, r.model, r.vecRowid, vector), vector)
  {
  }

  lemma InsertKeepsOthers(rows: seq<Row>, vecs: Vectors, r: Row, vector: Bytes)
    requires r.model in vecs && r.vecRowid !in vecs[r.model]
    ensures OthersKept(rows, vecs, rows + [r], PutVector(vecs, r.model, r.vecRowid, vector), r.page, r.model)
  {
  }

  lemma ChunksSnoc(rows: seq<Row>, r: Row)
    ensures Chunks(rows + [r]) == Chunks(rows) + [r.chunk]
  {
  }

  lemma KeptTwice(r0: seq<Row>, v0: Vectors, r1: seq<Row>, v1: Vectors, r2: seq<Row>, v2: Vectors, page: nat,
                  model: string)
    requires OthersKept(r0, v0, r1, v1, page, model) && OthersKept(r1, v1, r2, v2, page, model)
    ensures OthersKept(r0, v0, r2, v2, page, model)
  {
    hide Select;
    forall r | r in r0 && (r.page != page || r.model != model) && Backed(r, v0)
      ensures HasVector(r, v2, v0[r.model][r.vecRowid])
    {
      SelectIs(r0, r.page, r.model, r);
      SelectIs(r1, r.page, r.model, r);
    }
  }

  predicate NotAmong(rows: seq<Row>, k: nat, id: nat)
    requires k <= |rows|
  {
    forall j :: 0 <= j < k ==> rows[j].vecRowid != id
  }

  lemma VectorsGone(pages: set<nat>, rows: seq<Row>, vecs: Vectors, page: nat, model: string, after: Vectors)
    requires Consistent(pages, rows, vecs) && model in vecs && after.Keys == vecs.Keys
    requires forall m :: m in vecs && m != model ==> after[m] == vecs[m]
    requires var mine := Select(rows, page, model);
             forall id :: id in after[model] <==> id in vecs[model] && NotAmong(mine, |mine|, id)
    requires forall id :: id in after[model] ==> after[model][id] == vecs[model][id]
    ensures VectorsDropped(rows, OfPage(page, model), vecs, after)
  {
    hide Select, Numbered;
    var mine := Select(rows, page, model);
    forall r | r in rows && Backed(r, vecs)
      ensures if r.page == page && r.model == model then !Backed(r, after) else Backed(r, after)
    {
      SelectIs(rows, page, model, r);
      forall j | 0 <= j < |mine|
        ensures mine[j] in rows && mine[j].page == page && mine[j].model == model
      {
        SelectIs(rows, page, model, mine[j]);
      }
    }
  }

  // ── Purging ──────────────────────────────────────────────────

  function PageIdsIn(pages: seq<Page>, collection: nat): (ids: set<nat>)
    ensures forall id :: id in ids <==> exists p :: p in pages && p.collection == collection && p.id == id
  {
    set p | p in pages && p.collection == collection :: p.id
  }

  function OfPages(ids: set<nat>): (nat, string) -> bool { (q, m) => q in ids }

  function Outside(pages: seq<Page>, collection: nat): (r: seq<Page>)
    ensures forall p :: p in r <==> p in pages && p.collection != collection
  {
    if pages == [] then []
    else
      var front, last := pages[..|pages| - 1], pages[|pages| - 1];
      assert pages == front + [last];
      Outside(front, collection) + if last.collection == collection then [] else [last]
  }

  lemma {:induction false} OutsideInOrder(pages: seq<Page>, collection: nat)
    requires InIdOrder(pages)
    ensures InIdOrder(Outside(pages, collection))
  {
    if pages != [] {
      var front := pages[..|pages| - 1];
      OutsideInOrder(front, collection);
      forall k | 0 <= k < |Outside(front, collection)|
        ensures Outside(front, collection)[k].id < pages[|pages| - 1].id
      {
        assert Outside(front, collection)[k] in front;
      }
    }
  }

  lemma PurgeKeepsRows(pages: seq<Page>, rows: seq<Row>, collection: nat)
    requires forall r :: r in rows ==> r.page in PageIds(pages)
    ensures forall r :: r in rows && !OfPages(PageIdsIn(pages, collection))(r.page, r.model) ==>
              r.page in PageIds(Outside(pages, collection))
  {
  }

  function RemoveVector(vecs: Vectors, model: string, id: nat): Vectors
    requires model in vecs
  {
    var table: map<nat, Bytes> := vecs[model] - {id};
    vecs[model := table]
  }

  /** The vectors of the doomed rows among the first `n` are gone, those of the rows that stay are not. */
  ghost predicate DroppedSoFar(rows: seq<Row>, n: nat, drop: (nat, string) -> bool, vecs: Vectors, after: Vectors) {
    && n <= |rows| && after.Keys == vecs.Keys
    && (forall r :: r in rows[..n] && drop(r.page, r.model) ==> !Backed(r, after))
    && (forall r :: r in rows && !drop(r.page, r.model) ==> Backed(r, after))
    && forall model, id :: model in after && id in after[model] ==>
         id in vecs[model] && after[model][id] == vecs[model][id]
  }

  lemma DropsNone(rows: seq<Row>, drop: (nat, string) -> bool, vecs: Vectors)
    requires forall r :: r in rows ==> Backed(r, vecs)
    ensures DroppedSoFar(rows, 0, drop, vecs, vecs)
  {
  }

  lemma AllDropped(rows: seq<Row>, drop: (nat, string) -> bool, vecs: Vectors, after: Vectors)
    requires DroppedSoFar(rows, |rows|, drop, vecs, after)
    ensures VectorsDropped(rows, drop, vecs, after) && after.Keys == vecs.Keys
  {
  }

  lemma DropsOne(rows: seq<Row>, k: nat, drop: (nat, string) -> bool, vecs: Vectors, after: Vectors)
    requires k < |rows| && UniqueRowids(rows) && Backed(rows[k], vecs)
    requires drop(rows[k].page, rows[k].model) && DroppedSoFar(rows, k, drop, vecs, after)
    ensures rows[k].model in after
    ensures DroppedSoFar(rows, k + 1, drop, vecs, RemoveVector(after, rows[k].model, rows[k].vecRowid))
  {
  }

  lemma SkipsOne(rows: seq<Row>, k: nat, drop: (nat, string) -> bool, vecs: Vectors, after: Vectors)
    requires k < |rows| && !drop(rows[k].page, rows[k].model) && DroppedSoFar(rows, k, drop, vecs, after)
    ensures DroppedSoFar(rows, k + 1, drop, vecs, after)
  {
  }

  // ── What a pass does with each page ──────────────────────────

  /**
   What goes wrong during a pass: pages that do not load, statements of a page's transaction that
   fail, pages whose rows cannot be read, last page ids after which the next batch cannot be read,
   and whether recording the version fails.
  */
  datatype Faults = Faults(
    broken: set<nat>, statements: map<nat, nat>, unreadable: set<nat>, batchAfter: set<nat>, recording: bool)

  const NO_FAULTS: Faults := Faults({}, map[], {}, {}, false)

  /** One pass: whether all pages are due, whether the pipeline's version differs, and what goes wrong. */
  datatype Pass = Pass(all: bool, mismatch: bool, faults: Faults)

  datatype Counts = Counts(pages: nat, chunks: nat, failed: nat)

  function Count(counts: Counts, r: PageResult): Counts {
    match r
    case Failed => counts.(failed := counts.failed + 1)
    case Skipped => counts
    case Aborted => counts
    case Replaced(chunks) => counts.(pages := counts.pages + 1, chunks := counts.chunks + chunks)
  }

  datatype PageResult = Failed | Skipped | Replaced(chunks: nat) | Aborted

  /** The page's recorded chunks are those of its content; pages without chunks are never embedded. */
  predicate Current(pages: seq<Page>, rows: seq<Row>, active: string, p: Page) {
    ContentOf(pages, p) != [] ==> Chunks(Select(rows, p.id, active)) == ContentOf(pages, p)
  }

  predicate AllCurrent(pages: seq<Page>, rows: seq<Row>, active: string) {
    forall p :: p in pages ==> Current(pages, rows, active, p)
  }

  /** The page has to be embedded: it has chunks, and all such pages are due or it is not current. */
  predicate Due(pages: seq<Page>, rows: seq<Row>, active: string, pass: Pass, p: Page) {
    ContentOf(pages, p) != [] && (pass.all || pass.mismatch || !Current(pages, rows, active, p))
  }

  /** The page's rows are read, and cannot be: that ends the pass. */
  predicate AbortsOn(pages: seq<Page>, pass: Pass, p: Page) {
    && p.id !in pass.faults.broken && ContentOf(pages, p) != [] && !pass.all && !pass.mismatch
    && p.id in pass.faults.unreadable
  }

  /** The page's transaction fails: at a chunk, or at the commit after the last one. */
  predicate TransactionFails(pages: seq<Page>, pass: Pass, p: Page) {
    p.id in pass.faults.statements && pass.faults.statements[p.id] <= |ContentOf(pages, p)|
  }

  predicate FailsOn(pages: seq<Page>, rows: seq<Row>, active: string, pass: Pass, p: Page) {
    || p.id in pass.faults.broken
    || (!AbortsOn(pages, pass, p) && Due(pages, rows, active, pass, p) && TransactionFails(pages, pass, p))
  }

  predicate Embeds(pages: seq<Page>, rows: seq<Row>, active: string, pass: Pass, p: Page) {
    && p.id !in pass.faults.broken && !AbortsOn(pages, pass, p)
    && Due(pages, rows, active, pass, p) && !TransactionFails(pages, pass, p)
  }

  /** How many of the pages pass the test. */
  function NumberOf(pages: seq<Page>, test: Page -> bool): (n: nat)
    ensures n == 0 <==> forall p :: p in pages ==> !test(p)
  {
    if pages == [] then 0
    else
      var last := pages[|pages| - 1];
      assert pages == pages[..|pages| - 1] + [last];
      NumberOf(pages[..|pages| - 1], test) + if test(last) then 1 else 0
  }

  /** How many chunks the pages that pass the test have together. */
  function ChunksOf(all: seq<Page>, pages: seq<Page>, test: Page -> bool): nat {
    if pages == [] then 0
    else
      var last := pages[|pages| - 1];
      ChunksOf(all, pages[..|pages| - 1], test) + if test(last) then |ContentOf(all, last)| else 0
  }

  function FailTest(pages: seq<Page>, rows: seq<Row>, active: string, pass: Pass): Page -> bool {
    p => FailsOn(pages, rows, active, pass, p)
  }

  function EmbedTest(pages: seq<Page>, rows: seq<Row>, active: string, pass: Pass): Page -> bool {
    p => Embeds(pages, rows, active, pass, p)
  }

  /** Batches start at the multiples of their size. */
  predicate StartsBatch(n: nat, size: nat)
    requires size > 0
    decreases n
  {
    n == 0 || (n >= size && StartsBatch(n - size, size))
  }

  /** The batch query after the first `n` pages is made, and fails. */
  predicate QueryFails(pages: seq<Page>, pass: Pass, batchSize: nat, n: nat)
    requires n <= |pages| && batchSize > 0
  {
    (StartsBatch(n, batchSize) || n == |pages|) && (if n == 0 then 0 else pages[n - 1].id) in pass.faults.batchAfter
  }

  /** The pass stops at its `n`-th page, or at the query for it. */
  predicate StopsAt(pages: seq<Page>, pass: Pass, batchSize: nat, n: nat)
    requires n <= |pages| && batchSize > 0
  {
    QueryFails(pages, pass, batchSize, n) || (n < |pages| && AbortsOn(pages, pass, pages[n]))
  }

  /**
   After the first `n` pages of a pass that started with `r0` and `v0`: those it embeds record their
   chunks, each with its vector; all others have their rows and vectors as before.
  */
  ghost predicate PassSoFar(pages: seq<Page>, r0: seq<Row>, v0: Vectors, rows: seq<Row>, vecs: Vectors, active: string,
                            embed: Chunk -> Bytes, pass: Pass, n: nat)
  {
    && n <= |pages| && (forall k :: 0 <= k < n ==> !AbortsOn(pages, pass, pages[k]))
    && (forall k :: 0 <= k < n && Embeds(pages, r0, active, pass, pages[k]) ==>
          Embedded(rows, vecs, pages[k].id, active, ContentOf(pages, pages[k]), embed))
    && (forall k :: 0 <= k < |pages| && (k >= n || !Embeds(pages, r0, active, pass, pages[k])) ==>
          Untouched(r0, v0, rows, vecs, pages[k].id, active))
    && (forall id: nat, m :: m != active ==> Untouched(r0, v0, rows, vecs, id, m))
    && ((forall k :: 0 <= k < n ==> !Embeds(pages, r0, active, pass, pages[k])) ==> rows == r0 && vecs == v0)
  }

  /** The page's rows are the same, and so are the vectors they had. */
  ghost predicate Untouched(r0: seq<Row>, v0: Vectors, rows: seq<Row>, vecs: Vectors, page: nat, model: string) {
    && Select(rows, page, model) == Select(r0, page, model)
    && forall r :: r in Select(r0, page, model) && Backed(r, v0) ==> HasVector(r, vecs, v0[r.model][r.vecRowid])
  }

  predicate CountsFit(pages: seq<Page>, r0: seq<Row>, active: string, pass: Pass, n: nat, counts: Counts)
    requires n <= |pages|
  {
    && counts.failed == NumberOf(pages[..n], FailTest(pages, r0, active, pass))
    && counts.pages == NumberOf(pages[..n], EmbedTest(pages, r0, active, pass))
    && counts.chunks == ChunksOf(pages, pages[..n], EmbedTest(pages, r0, active, pass))
  }

  lemma PassStarts(pages: seq<Page>, rows: seq<Row>, vecs: Vectors, active: string, embed: Chunk -> Bytes, pass: Pass)
    ensures PassSoFar(pages, rows, vecs, rows, vecs, active, embed, pass, 0)
    ensures CountsFit(pages, rows, active, pass, 0, Counts(0, 0, 0))
  {
    hide ContentOf, Chunks;
    forall id: nat, m
      ensures Untouched(rows, vecs, rows, vecs, id, m)
    {
    }
  }

  /** Replacing a page's rows keeps what others record. */
  lemma OthersUntouched(r0: seq<Row>, v0: Vectors, r1: seq<Row>, v1: Vectors, rows: seq<Row>, vecs: Vectors,
                        page: nat, active: string, id: nat, m: string)
    requires Untouched(r0, v0, r1, v1, id, m) && OthersKept(r1, v1, rows, vecs, page, active)
    requires id != page || m != active
    ensures Untouched(r0, v0, rows, vecs, id, m)
  {
    hide Select;
    forall r | r in Select(r0, id, m) && Backed(r, v0)
      ensures HasVector(r, vecs, v0[r.model][r.vecRowid])
    {
      SelectIs(r1, id, m, r);
    }
  }

  lemma OthersEmbedded(r1: seq<Row>, v1: Vectors, rows: seq<Row>, vecs: Vectors, page: nat, active: string, id: nat,
                       chunks: seq<Chunk>, embed: Chunk -> Bytes)
    requires Embedded(r1, v1, id, active, chunks, embed) && OthersKept(r1, v1, rows, vecs, page, active) && id != page
    ensures Embedded(rows, vecs, id, active, chunks, embed)
  {
    hide Select, Chunks;
    forall r | r in Select(rows, id, active)
      ensures HasVector(r, vecs, embed(r.chunk))
    {
      SelectIs(r1, id, active, r);
    }
  }

  /** What a pass has established about the pages so far survives the next page. */
  lemma PassGoesOn(pages: seq<Page>, r0: seq<Row>, v0: Vectors, r1: seq<Row>, v1: Vectors, rows: seq<Row>,
                   vecs: Vectors, active: string, embed: Chunk -> Bytes, pass: Pass, n: nat)
    requires InIdOrder(pages) && n < |pages| && !AbortsOn(pages, pass, pages[n])
    requires PassSoFar(pages, r0, v0, r1, v1, active, embed, pass, n)
    requires var p := pages[n];
             if Embeds(pages, r1, active, pass, p) then
               && Embedded(rows, vecs, p.id, active, ContentOf(pages, p), embed)
               && OthersKept(r1, v1, rows, vecs, p.id, active)
             else rows == r1 && vecs == v1
    ensures PassSoFar(pages, r0, v0, rows, vecs, active, embed, pass, n + 1)
  {
    hide Select, ContentOf, Chunks, Untouched, Embedded, OthersKept, AbortsOn, TransactionFails;
    var p := pages[n];
    SameDue(pages, r0, v0, r1, v1, active, pass, p);
    if Embeds(pages, r1, active, pass, p) {
      forall k | 0 <= k < |pages| && (k >= n + 1 || !Embeds(pages, r0, active, pass, pages[k]))
        ensures Untouched(r0, v0, rows, vecs, pages[k].id, active)
      {
        OthersUntouched(r0, v0, r1, v1, rows, vecs, p.id, active, pages[k].id, active);
      }
      forall id: nat, m | m != active
        ensures Untouched(r0, v0, rows, vecs, id, m)
      {
        OthersUntouched(r0, v0, r1, v1, rows, vecs, p.id, active, id, m);
      }
      forall k | 0 <= k < n && Embeds(pages, r0, active, pass, pages[k])
        ensures Embedded(rows, vecs, pages[k].id, active, ContentOf(pages, pages[k]), embed)
      {
        OthersEmbedded(r1, v1, rows, vecs, p.id, active, pages[k].id, ContentOf(pages, pages[k]), embed);
      }
    }
  }

  /** A page not visited yet is due exactly if it was at the start. */
  lemma SameDue(pages: seq<Page>, r0: seq<Row>, v0: Vectors, r1: seq<Row>, v1: Vectors, active: string, pass: Pass,
                p: Page)
    requires Untouched(r0, v0, r1, v1, p.id, active)
    ensures Due(pages, r1, active, pass, p) == Due(pages, r0, active, pass, p)
    ensures Embeds(pages, r1, active, pass, p) == Embeds(pages, r0, active, pass, p)
    ensures FailsOn(pages, r1, active, pass, p) == FailsOn(pages, r0, active, pass, p)
  {
    hide Select, ContentOf, Chunks;
  }

  lemma NotVisited(pages: seq<Page>, r0: seq<Row>, v0: Vectors, r1: seq<Row>, v1: Vectors, active: string,
                   embed: Chunk -> Bytes, pass: Pass, n: nat)
    requires PassSoFar(pages, r0, v0, r1, v1, active, embed, pass, n) && n < |pages|
    ensures Embeds(pages, r1, active, pass, pages[n]) == Embeds(pages, r0, active, pass, pages[n])
    ensures FailsOn(pages, r1, active, pass, pages[n]) == FailsOn(pages, r0, active, pass, pages[n])
  {
    hide Embeds, FailsOn, Embedded, Untouched, AbortsOn;
    SameDue(pages, r0, v0, r1, v1, active, pass, pages[n]);
  }

  lemma NoAborts(pages: seq<Page>, r0: seq<Row>, v0: Vectors, rows: seq<Row>, vecs: Vectors, active: string,
                 embed: Chunk -> Bytes, pass: Pass, n: nat)
    requires PassSoFar(pages, r0, v0, rows, vecs, active, embed, pass, n)
    ensures n <= |pages| && forall k :: 0 <= k < n ==> !AbortsOn(pages, pass, pages[k])
  {
  }

  lemma CountsGoOn(pages: seq<Page>, r0: seq<Row>, active: string, pass: Pass, n: nat, counts: Counts, r: PageResult)
    requires n < |pages| && CountsFit(pages, r0, active, pass, n, counts) && !r.Aborted?
    requires r.Failed? <==> FailsOn(pages, r0, active, pass, pages[n])
    requires r.Replaced? <==> Embeds(pages, r0, active, pass, pages[n])
    requires r.Replaced? ==> r.chunks == |ContentOf(pages, pages[n])|
    ensures CountsFit(pages, r0, active, pass, n + 1, Count(counts, r))
  {
    hide FailsOn, Embeds, ContentOf;
    assert pages[..n + 1][..n] == pages[..n];
  }

  /** A pass in which no page fails leaves all pages current, those it had to embed with their vectors. */
  lemma CleanPassEnds(pages: seq<Page>, r0: seq<Row>, v0: Vectors, rows: seq<Row>, vecs: Vectors, active: string,
                      embed: Chunk -> Bytes, pass: Pass, counts: Counts, p: Page)
    requires PassSoFar(pages, r0, v0, rows, vecs, active, embed, pass, |pages|) && p in pages
    requires CountsFit(pages, r0, active, pass, |pages|, counts) && counts.failed == 0
    ensures Current(pages, rows, active, p)
    ensures Due(pages, r0, active, pass, p) ==> Embedded(rows, vecs, p.id, active, ContentOf(pages, p), embed)
    ensures !Due(pages, r0, active, pass, p) ==> Untouched(r0, v0, rows, vecs, p.id, active)
  {
    hide Select, ContentOf, Chunks, NumberOf;
    assert pages[..|pages|] == pages;
    var k :| 0 <= k < |pages| && pages[k] == p;
    assert !FailTest(pages, r0, active, pass)(p);
  }

  /** The same for all pages. */
  lemma CleanPass(pages: seq<Page>, r0: seq<Row>, v0: Vectors, rows: seq<Row>, vecs: Vectors, active: string,
                  embed: Chunk -> Bytes, pass: Pass, counts: Counts)
    requires PassSoFar(pages, r0, v0, rows, vecs, active, embed, pass, |pages|)
    requires CountsFit(pages, r0, active, pass, |pages|, counts) && counts.failed == 0
    ensures AllCurrent(pages, rows, active)
    ensures forall p :: p in pages ==>
              (Chunks(Select(rows, p.id, active)) == ContentOf(pages, p) <==>
               ContentOf(pages, p) != [] || Select(r0, p.id, active) == [])
    ensures pass.all || pass.mismatch ==>
              forall p :: p in pages && ContentOf(pages, p) != [] ==>
                Embedded(rows, vecs, p.id, active, ContentOf(pages, p), embed)
  {
    hide Select, ContentOf, Chunks, NumberOf, CountsFit, PassSoFar, Embedded;
    forall p | p in pages
      ensures Current(pages, rows, active, p)
      ensures ContentOf(pages, p) == [] ==> Select(rows, p.id, active) == Select(r0, p.id, active)
      ensures (pass.all || pass.mismatch) && ContentOf(pages, p) != [] ==>
                Embedded(rows, vecs, p.id, active, ContentOf(pages, p), embed)
    {
      CleanPassEnds(pages, r0, v0, rows, vecs, active, embed, pass, counts, p);
    }
  }

  /** A pass that is not told to embed everything embeds nothing where all is current. */
  lemma IdlePass(pages: seq<Page>, r0: seq<Row>, v0: Vectors, rows: seq<Row>, vecs: Vectors, active: string,
                 embed: Chunk -> Bytes, pass: Pass, n: nat, counts: Counts)
    requires PassSoFar(pages, r0, v0, rows, vecs, active, embed, pass, n)
    requires CountsFit(pages, r0, active, pass, n, counts)
    requires !pass.all && !pass.mismatch && AllCurrent(pages, r0, active)
    ensures counts.pages == counts.chunks == 0 && rows == r0 && vecs == v0
  {
    hide Select, ContentOf, Chunks, Untouched, Embedded, NumberOf, ChunksOf;
    forall p | p in pages
      ensures !Embeds(pages, r0, active, pass, p)
    {
    }
    NoChunks(pages, pages[..n], EmbedTest(pages, r0, active, pass));
  }

  lemma {:induction false} NoChunks(all: seq<Page>, pages: seq<Page>, test: Page -> bool)
    requires forall p :: p in pages ==> !test(p)
    ensures ChunksOf(all, pages, test) == 0 && NumberOf(pages, test) == 0
  {
    hide ContentOf;
    if pages != [] { NoChunks(all, pages[..|pages| - 1], test); }
  }

  lemma NoFaultsNoFailures(pages: seq<Page>, r0: seq<Row>, active: string, pass: Pass, n: nat, counts: Counts,
                           batchSize: nat)
    requires pass.faults == NO_FAULTS && n <= |pages| && CountsFit(pages, r0, active, pass, n, counts) && batchSize > 0
    ensures counts.failed == 0 && !StopsAt(pages, pass, batchSize, n)
  {
    hide ContentOf, Select, Chunks, NumberOf;
    forall p | p in pages[..n]
      ensures !FailTest(pages, r0, active, pass)(p)
    {
    }
    NoChunks(pages, pages[..n], FailTest(pages, r0, active, pass));
  }

  lemma {:induction false} NoBatchBetween(a: nat, k: nat, size: nat)
    requires size > 0 && StartsBatch(a, size) && a < k < a + size
    ensures !StartsBatch(k, size)
    decreases a
  {
    if a > 0 { NoBatchBetween(a - size, k - size, size); }
  }

  /** When a batch begins, its query decides; a page stops the pass when it is reached. */
  lemma QueryStops(pages: seq<Page>, pass: Pass, batchSize: nat, n: nat)
    requires batchSize > 0 && n <= |pages| && (StartsBatch(n, batchSize) || n == |pages|)
    ensures QueryFails(pages, pass, batchSize, n) <==> (if n == 0 then 0 else pages[n - 1].id) in pass.faults.batchAfter
    ensures QueryFails(pages, pass, batchSize, n) ==> StopsAt(pages, pass, batchSize, n)
    ensures n == |pages| && !QueryFails(pages, pass, batchSize, n) ==> !StopsAt(pages, pass, batchSize, n)
  {
    hide AbortsOn;
  }

  lemma PageStops(pages: seq<Page>, pass: Pass, batchSize: nat, n: nat)
    requires batchSize > 0 && n < |pages| && AbortsOn(pages, pass, pages[n])
    ensures StopsAt(pages, pass, batchSize, n)
  {
    hide AbortsOn;
  }

  /** Inside a batch only a page can stop the pass. */
  lemma BatchGoesOn(pages: seq<Page>, pass: Pass, batchSize: nat, from: nat, n: nat)
    requires batchSize > 0 && from < n <= |pages| && n <= from + batchSize && StartsBatch(from, batchSize)
    requires !QueryFails(pages, pass, batchSize, from)
    requires forall k :: from <= k < n ==> !AbortsOn(pages, pass, pages[k])
    ensures forall k :: from <= k < n ==> !StopsAt(pages, pass, batchSize, k)
    ensures n == from + batchSize ==> StartsBatch(n, batchSize)
  {
    hide AbortsOn;
    forall k | from <= k < n
      ensures !StopsAt(pages, pass, batchSize, k)
    {
      if k > from { NoBatchBetween(from, k, batchSize); }
    }
  }

  /**
   The tables a pass works on. The invariant `Valid`, which the queries of the validator check, holds
   after every sequence of the methods; pages come and change by `AddPage` and `EditPage` between passes.
  */
  class Store {
    var pages: seq<Page>
    var rows: seq<Row>
    var vecs: Vectors
    var active: string
    var version: Option<int>
    const embed: Chunk -> Bytes

    ghost predicate Valid()
      reads `pages, `rows, `vecs, `active
    {
      && InIdOrder(pages) && active in vecs && Consistent(PageIds(pages), rows, vecs)
    }

    constructor (model: string, embed: Chunk -> Bytes)
      ensures Valid() && pages == [] && rows == [] && version.None? && active == model && this.embed == embed
    {
      pages, rows, vecs, active, version := [], [], map[model := map[]], model, None;
      this.embed := embed;
    }

    /** A new page row: `AUTOINCREMENT` gives it an id above all others. */
    method AddPage(p: Page)
      requires Valid() && p.id > 0 && forall q :: q in pages ==> q.id < p.id
      modifies `pages
      ensures Valid() && pages == old(pages) + [p]
    {
      hide Select;
      pages := pages + [p];
      assert PageIds(old(pages)) <= PageIds(pages);
    }

    /** An edit changes a page's content, not its row id. */
    method EditPage(k: nat, chunks: seq<Chunk>)
      requires Valid() && k < |pages|
      modifies `pages
      ensures Valid() && pages == old(pages)[k := old(pages)[k].(chunks := chunks)]
    {
      hide Select;
      ghost var before := pages;
      pages := pages[k := pages[k].(chunks := chunks)];
      forall id | id in PageIds(before)
        ensures id in PageIds(pages)
      {
        var j :| 0 <= j < |before| && before[j].id == id;
        assert pages[j] in pages && pages[j].id == id;
      }
    }

    /**
     The purge of `remove`: first the vectors of the collection's pages, of every registered model,
     then the pages, whose rows go with them.
    */
    method Purge(collection: nat)
      requires Valid()
      modifies `pages, `rows, `vecs
      ensures Valid() && pages == Outside(old(pages), collection)
      ensures rows == Without(old(rows), OfPages(PageIdsIn(old(pages), collection)))
      ensures VectorsDropped(old(rows), OfPages(PageIdsIn(old(pages), collection)), old(vecs), vecs)
    {
      hide Select, VectorsDropped, DroppedSoFar, Without, Numbered;
      var doomed := PageIdsIn(pages, collection);
      ghost var before := vecs;
      var drop := OfPages(doomed);
      DropsNone(rows, drop, vecs);
      for k := 0 to |rows|
        invariant rows == old(rows) && pages == old(pages) && active == old(active)
        invariant DroppedSoFar(rows, k, drop, before, vecs)
      {
        var r := rows[k];
        if r.page in doomed {
          DropsOne(rows, k, drop, before, vecs);
          vecs := RemoveVector(vecs, r.model, r.vecRowid);
        } else {
          SkipsOne(rows, k, drop, before, vecs);
        }
      }
      AllDropped(rows, drop, before, vecs);
      PurgeKeepsRows(pages, rows, collection);
      DropKeepsConsistent(PageIds(pages), rows, before, drop, PageIds(Outside(pages, collection)), vecs);
      OutsideInOrder(pages, collection);
      rows := Without(rows, drop);
      pages := Outside(pages, collection);
    }

    /** `DELETE FROM <vec_table> WHERE rowid = ?`, for each rowid recorded for the page. */
    method DeleteVectors(page: nat)
      requires Valid()
      modifies `vecs
      ensures VectorsDropped(rows, OfPage(page, active), old(vecs), vecs) && vecs.Keys == old(vecs).Keys
    {
      hide Consistent, Select, VectorsDropped;
      var mine := Select(rows, page, active);
      for k := 0 to |mine|
        invariant vecs.Keys == old(vecs).Keys && forall m :: m in vecs && m != active ==> vecs[m] == old(vecs)[m]
        invariant forall id :: id in vecs[active] <==> id in old(vecs)[active] && NotAmong(mine, k, id)
        invariant forall id :: id in vecs[active] ==> vecs[active][id] == old(vecs)[active][id]
      {
        vecs := vecs[active := vecs[active] - {mine[k].vecRowid}];
      }
      VectorsGone(PageIds(pages), rows, old(vecs), page, active, vecs);
    }

    /**
     Replaces a page's rows and vectors in one transaction; `fails` is the chunk at whose statements
     the transaction fails, or the number of chunks for the commit.
    */
    method ReplacePageEmbeddings(page: nat, chunks: seq<Chunk>, fails: Option<nat>) returns (ok: bool)
      requires Valid() && page in PageIds(pages)
      modifies `rows, `vecs
      ensures Valid() && (ok <==> fails.None? || fails.value > |chunks|)
      ensures ok ==> Embedded(rows, vecs, page, active, chunks, embed)
      ensures ok ==> OthersKept(old(rows), old(vecs), rows, vecs, page, active)
      ensures !ok ==> rows == old(rows) && vecs == old(vecs)
    {
      hide Consistent, Select, Without, OthersKept, Embedded, PutVector, VectorsDropped;
      ghost var ids := PageIds(pages);
      var saved := (rows, vecs);
      DeleteVectors(page);
      DropsPage(ids, rows, old(vecs), page, active, vecs, embed);
      rows := Without(rows, OfPage(page, active));
      assert chunks[..0] == [];
      for k := 0 to |chunks|
        invariant active in vecs && Consistent(ids, rows, vecs)
        invariant Embedded(rows, vecs, page, active, chunks[..k], embed)
        invariant OthersKept(old(rows), old(vecs), rows, vecs, page, active)
        invariant fails.None? || fails.value >= k
      {
        if fails == Some(k) {
          rows, vecs := saved.0, saved.1;
          return false;
        }
        var rowid := NewRowid(vecs[active]);
        InsertsChunk(ids, rows, vecs, page, active, rowid, chunks, k, embed);
        ghost var before := (rows, vecs);
        vecs := PutVector(vecs, active, rowid, embed(chunks[k]));
        rows := rows + [NewRow(rows, page, active, rowid, chunks[k])];
        KeptTwice(old(rows), old(vecs), before.0, before.1, rows, vecs, page, active);
      }
      assert chunks[..|chunks|] == chunks;
      if fails == Some(|chunks|) {
        rows, vecs := saved.0, saved.1;
        return false;
      }
      return true;
    }

    ghost predicate UpToDate()
      reads `pages, `rows, `active
    {
      AllCurrent(pages, rows, active)
    }

    /** What the bulk loop does with one page. Loading it can fail, and so can embedding it; reading its rows aborts. */
    method EmbedPage(p: Page, all: bool, mismatch: bool, faults: Faults) returns (r: PageResult)
      requires Valid() && p in pages
      modifies `rows, `vecs
      ensures Valid()
      ensures r.Aborted? <==> AbortsOn(pages, Pass(all, mismatch, faults), p)
      ensures r.Failed? <==> FailsOn(pages, old(rows), active, Pass(all, mismatch, faults), p)
      ensures r.Replaced? <==> Embeds(pages, old(rows), active, Pass(all, mismatch, faults), p)
      ensures r.Replaced? ==>
                && r.chunks == |ContentOf(pages, p)| && Embedded(rows, vecs, p.id, active, ContentOf(pages, p), embed)
                && OthersKept(old(rows), old(vecs), rows, vecs, p.id, active)
      ensures !r.Replaced? ==> rows == old(rows) && vecs == old(vecs)
    {
      hide Select, Consistent, Resolve, Embedded, OthersKept;
      PageIdIn(pages, p);
      if p.id in faults.broken {
        return Failed;
      }
      var chunks := ContentOf(pages, p);
      if chunks == [] {
        return Skipped;
      }
      if !all {
        if !mismatch && p.id in faults.unreadable {
          return Aborted;
        }
        RefreshIff(rows, p.id, active, chunks);
        if !NeedsRefresh(rows, p.id, active, chunks, mismatch) {
          return Skipped;
        }
      }
      var fails := if p.id in faults.statements then Some(faults.statements[p.id]) else None;
      var ok := ReplacePageEmbeddings(p.id, chunks, fails);
      return if ok then Replaced(|chunks|) else Failed;
    }

    /** One batch, starting after the first `n` pages. `r0`, `v0` is the index the pass started with. */
    method EmbedBatch(refs: seq<Page>, all: bool, mismatch: bool, faults: Faults, before: Counts,
                      ghost r0: seq<Row>, ghost v0: Vectors, ghost n: nat)
      returns (counts: Counts, last: nat, aborted: bool, ghost n': nat)
      requires Valid() && refs != [] && n + |refs| <= |pages| && refs == pages[n..n + |refs|]
      requires PassSoFar(pages, r0, v0, rows, vecs, active, embed, Pass(all, mismatch, faults), n)
      requires CountsFit(pages, r0, active, Pass(all, mismatch, faults), n, before)
      modifies `rows, `vecs
      ensures Valid() && n <= n' <= n + |refs|
      ensures if aborted then n' < n + |refs| && AbortsOn(pages, Pass(all, mismatch, faults), pages[n'])
              else n' == n + |refs| && last == pages[n' - 1].id
      ensures PassSoFar(pages, r0, v0, rows, vecs, active, embed, Pass(all, mismatch, faults), n')
      ensures CountsFit(pages, r0, active, Pass(all, mismatch, faults), n', counts)
    {
      hide Select, Consistent, ContentOf, Chunks, PassSoFar, CountsFit, AbortsOn, FailsOn, Embeds, Embedded, OthersKept,
           InIdOrder, PageIds;
      ghost var pass := Pass(all, mismatch, faults);
      counts, last, aborted, n' := before, 0, false, n;
      for i := 0 to |refs|
        invariant Valid() && n' == n + i && (i > 0 ==> last == pages[n' - 1].id)
        invariant PassSoFar(pages, r0, v0, rows, vecs, active, embed, pass, n')
        invariant CountsFit(pages, r0, active, pass, n', counts)
      {
        var p := refs[i];
        assert p == pages[n'];
        last := p.id;
        ghost var r1, v1 := rows, vecs;
        var r := EmbedPage(p, all, mismatch, faults);
        if r.Aborted? {
          aborted := true;
          return;
        }
        NotVisited(pages, r0, v0, r1, v1, active, embed, pass, n');
        PassGoesOn(pages, r0, v0, r1, v1, rows, vecs, active, embed, pass, n');
        CountsGoOn(pages, r0, active, pass, n', counts, r);
        n' := n' + 1;
        counts := Count(counts, r);
      }
    }

    /** The pagination loop: batch after batch, until no page is left or a query fails. */
    method EmbedBatches(all: bool, mismatch: bool, batchSize: nat, faults: Faults)
      returns (counts: Counts, aborted: bool, ghost n: nat)
      requires Valid() && batchSize > 0
      modifies `rows, `vecs
      ensures Valid() && n <= |pages| && (!aborted ==> n == |pages|)
      ensures aborted <==> StopsAt(pages, Pass(all, mismatch, faults), batchSize, n)
      ensures forall k :: 0 <= k < n ==> !StopsAt(pages, Pass(all, mismatch, faults), batchSize, k)
      ensures PassSoFar(pages, old(rows), old(vecs), rows, vecs, active, embed, Pass(all, mismatch, faults), n)
      ensures CountsFit(pages, old(rows), active, Pass(all, mismatch, faults), n, counts)
    {
      hide Select, Consistent, ContentOf, Chunks, PassSoFar, CountsFit, StopsAt, QueryFails, AbortsOn, InIdOrder,
           PageRefsAfter, PageIds;
      ghost var pass := Pass(all, mismatch, faults);
      counts, aborted := Counts(0, 0, 0), false;
      var lastPageId: nat := 0;
      n := 0;
      PassStarts(pages, rows, vecs, active, embed, pass);
      while true
        invariant Valid() && n <= |pages| && !aborted && (StartsBatch(n, batchSize) || n == |pages|)
        invariant lastPageId == if n == 0 then 0 else pages[n - 1].id
        invariant forall k :: 0 <= k < n ==> !StopsAt(pages, pass, batchSize, k)
        invariant PassSoFar(pages, old(rows), old(vecs), rows, vecs, active, embed, pass, n)
        invariant CountsFit(pages, old(rows), active, pass, n, counts)
        decreases |pages| - n
      {
        QueryStops(pages, pass, batchSize, n);
        if lastPageId in faults.batchAfter {
          return counts, true, n;
        }
        NextBatch(pages, n, lastPageId, batchSize);
        var pageRefs := PageRefsAfter(pages, lastPageId, batchSize);
        if pageRefs == [] {
          return;
        }
        ghost var from := n;
        counts, lastPageId, aborted, n := EmbedBatch(pageRefs, all, mismatch, faults, counts, old(rows), old(vecs), n);
        NoAborts(pages, old(rows), old(vecs), rows, vecs, active, embed, pass, n);
        if from < n { BatchGoesOn(pages, pass, batchSize, from, n); }
        if aborted {
          PageStops(pages, pass, batchSize, n);
          return;
        }
      }
    }

    /**
     The bulk pass. It visits every page once, in id order, unless a failing query ends it early; then
     the pages not reached keep their rows. A pass to the end without failures leaves every page
     current and records the pipeline version; then a page's rows match its content exactly if the
     content has chunks, or no rows were there. A pass over current pages embeds nothing.
    */
    method RunBulk(all: bool, batchSize: nat, faults: Faults)
      returns (counts: Counts, aborted: bool, ghost visited: seq<nat>)
      requires Valid() && batchSize > 0
      modifies `rows, `vecs, `version
      ensures Valid() && visited <= Ids(pages) && (!aborted ==> visited == Ids(pages))
      ensures version == if !aborted && counts.failed == 0 then Some(EMBEDDER_VERSION) else old(version)
      // it ends at the first query that fails; recording the version is the last
      ensures var pass := Pass(all, old(version) != Some(EMBEDDER_VERSION), faults);
              && (forall k :: 0 <= k < |visited| ==> !StopsAt(pages, pass, batchSize, k))
              && (aborted <==> StopsAt(pages, pass, batchSize, |visited|) || (counts.failed == 0 && faults.recording))
      // the counts are those of the pages visited that fail, and that are embedded
      ensures CountsFit(pages, old(rows), active, Pass(all, old(version) != Some(EMBEDDER_VERSION), faults), |visited|,
                        counts)
      // what becomes of each page
      ensures var pass := Pass(all, old(version) != Some(EMBEDDER_VERSION), faults);
              forall k :: 0 <= k < |pages| ==>
                if k < |visited| && Embeds(pages, old(rows), active, pass, pages[k]) then
                  Embedded(rows, vecs, pages[k].id, active, ContentOf(pages, pages[k]), embed)
                else
                  Untouched(old(rows), old(vecs), rows, vecs, pages[k].id, active)
      ensures forall id: nat, m :: m != active ==> Untouched(old(rows), old(vecs), rows, vecs, id, m)
      // passes without failures
      ensures faults == NO_FAULTS ==> !aborted && counts.failed == 0
      ensures !aborted && counts.failed == 0 ==>
                UpToDate() && forall p :: p in pages ==>
                  (Chunks(Select(rows, p.id, active)) == ContentOf(pages, p) <==>
                   ContentOf(pages, p) != [] || old(Select(rows, p.id, active)) == [])
      ensures !aborted && counts.failed == 0 && (all || old(version) != Some(EMBEDDER_VERSION)) ==>
                forall p :: p in pages && ContentOf(pages, p) != [] ==>
                  Embedded(rows, vecs, p.id, active, ContentOf(pages, p), embed)
      ensures !all && old(version) == Some(EMBEDDER_VERSION) && old(UpToDate()) ==>
                counts.pages == counts.chunks == 0 && rows == old(rows) && vecs == old(vecs)
    {
      hide Select, Consistent, ContentOf, Chunks, Current, AllCurrent, Embedded, Untouched, CountsFit, StopsAt, Ids,
           InIdOrder, PageIds;
      var mismatch := version != Some(EMBEDDER_VERSION);
      ghost var pass, n := Pass(all, mismatch, faults), 0;
      counts, aborted, n := EmbedBatches(all, mismatch, batchSize, faults);
      visited := Ids(pages)[..n];
      if faults == NO_FAULTS { NoFaultsNoFailures(pages, old(rows), active, pass, n, counts, batchSize); }
      if !aborted && counts.failed == 0 {
        CleanPass(pages, old(rows), old(vecs), rows, vecs, active, embed, pass, counts);
      }
      if !all && !mismatch && old(UpToDate()) {
        IdlePass(pages, old(rows), old(vecs), rows, vecs, active, embed, pass, n, counts);
      }
      if !aborted && counts.failed == 0 {
        if faults.recording {
          aborted := true;
        } else {
          version := Some(EMBEDDER_VERSION);
        }
      }
    }
  }

  lemma PageIdIn(pages: seq<Page>, p: Page)
    requires p in pages
    ensures p.id in PageIds(pages)
  {
  }

  ghost function PageIds(pages: seq<Page>): set<nat> { set p | p in pages :: p.id }
}
