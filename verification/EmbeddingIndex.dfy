/**
 The embedding index: metadata rows on one side, vectors in a table per model on the other, which
 nothing but the code keeps in step. A model's vector table is named here by the model.
*/
module EmbeddingIndex {
  import opened Wrappers

  /** What the index keeps of a chunk, and compares to decide whether a page is up to date. */
  datatype Chunk = Chunk(chunkType: string, contentHash: string, headingPath: string)

  /** A row of `page_embeddings`. */
  datatype Row = Row(page: nat, model: string, vecRowid: nat, index: nat, chunk: Chunk)

  type Vectors = map<string, map<nat, Bytes>>

  function PutVector(vecs: Vectors, model: string, id: nat, vector: Bytes): Vectors
    requires model in vecs
  {
    var table: map<nat, Bytes> := vecs[model][id := vector];
    vecs[model := table]
  }

  // ── Rows of one page, and rows that stay ─────────────────────

  /** The rows of a page for a model, in insertion order, which `Consistent` makes chunk order. */
  function Select(rows: seq<Row>, page: nat, model: string): seq<Row> {
    if rows == [] then []
    else
      var last := rows[|rows| - 1];
      Select(rows[..|rows| - 1], page, model) + if last.page == page && last.model == model then [last] else []
  }

  /** `DELETE FROM page_embeddings`: `drop` says of which pages and models. */
  function Without(rows: seq<Row>, drop: (nat, string) -> bool): seq<Row> {
    if rows == [] then []
    else
      var last := rows[|rows| - 1];
      Without(rows[..|rows| - 1], drop) + if drop(last.page, last.model) then [] else [last]
  }

  lemma {:induction false} SelectIs(rows: seq<Row>, page: nat, model: string, r: Row)
    ensures r in Select(rows, page, model) <==> r in rows && r.page == page && r.model == model
  {
    if rows != [] {
      SelectIs(rows[..|rows| - 1], page, model, r);
      assert rows == rows[..|rows| - 1] + [rows[|rows| - 1]];
    }
  }

  lemma {:induction false} WithoutIs(rows: seq<Row>, drop: (nat, string) -> bool, r: Row)
    ensures r in Without(rows, drop) <==> r in rows && !drop(r.page, r.model)
  {
    if rows != [] {
      WithoutIs(rows[..|rows| - 1], drop, r);
      assert rows == rows[..|rows| - 1] + [rows[|rows| - 1]];
    }
  }

  lemma {:induction false} SelectWithout(rows: seq<Row>, drop: (nat, string) -> bool, page: nat, model: string)
    ensures Select(Without(rows, drop), page, model) == if drop(page, model) then [] else Select(rows, page, model)
  {
    if rows != [] {
      var front, last := rows[..|rows| - 1], rows[|rows| - 1];
      SelectWithout(front, drop, page, model);
      SelectSnoc(Without(front, drop), last, page, model);
      assert Without(front, drop) + [] == Without(front, drop);
    }
  }

  lemma SelectSnoc(rows: seq<Row>, r: Row, page: nat, model: string)
    ensures Select(rows + [r], page, model)
         == Select(rows, page, model) + if r.page == page && r.model == model then [r] else []
  {
  }

  // ── Consistency ──────────────────────────────────────────────

  ghost predicate Backed(r: Row, vecs: Vectors) { r.model in vecs && r.vecRowid in vecs[r.model] }

  ghost predicate HasRow(rows: seq<Row>, model: string, id: nat) {
    exists r :: r in rows && r.model == model && r.vecRowid == id
  }

  /** The chunk indexes of a page are 0, 1, 2 and so on. */
  ghost predicate Numbered(rows: seq<Row>, page: nat, model: string) {
    var mine := Select(rows, page, model);
    forall k :: 0 <= k < |mine| ==> mine[k].index == k
  }

  /** `UNIQUE(model, vec_rowid)`. */
  ghost predicate UniqueRowids(rows: seq<Row>) {
    forall r, q :: r in rows && q in rows && r.model == q.model && r.vecRowid == q.vecRowid ==> r == q
  }

  /** Rows and vectors correspond one to one, and every page's rows are numbered. */
  ghost predicate Consistent(pages: set<nat>, rows: seq<Row>, vecs: Vectors) {
    && (forall r :: r in rows ==> r.page in pages && Backed(r, vecs))
    && UniqueRowids(rows)
    && (forall model, id :: model in vecs && id in vecs[model] ==> HasRow(rows, model, id))
    && forall page, model :: Numbered(rows, page, model)
  }

  /** The vectors of the dropped rows are gone, all others are as before. */
  ghost predicate VectorsDropped(rows: seq<Row>, drop: (nat, string) -> bool, vecs: Vectors, after: Vectors) {
    && after.Keys == vecs.Keys
    && (forall r :: r in rows && Backed(r, vecs) ==>
          if drop(r.page, r.model) then !Backed(r, after) else Backed(r, after))
    && forall model, id :: model in after && id in after[model] ==>
         id in vecs[model] && after[model][id] == vecs[model][id]
  }

  /** Dropping rows together with their vectors. */
  lemma DropKeepsConsistent(pages: set<nat>, rows: seq<Row>, vecs: Vectors, drop: (nat, string) -> bool,
                            left: set<nat>, after: Vectors)
    requires Consistent(pages, rows, vecs) && VectorsDropped(rows, drop, vecs, after)
    requires forall r :: r in rows && !drop(r.page, r.model) ==> r.page in left
    ensures Consistent(left, Without(rows, drop), after)
  {
    var kept := Without(rows, drop);
    forall r | r in rows || r in kept
      ensures r in kept <==> r in rows && !drop(r.page, r.model)
    {
      WithoutIs(rows, drop, r);
    }
    forall page, model
      ensures Numbered(kept, page, model)
    {
      SelectWithout(rows, drop, page, model);
      assert Numbered(rows, page, model);
    }
    forall model, id | model in after && id in after[model]
      ensures HasRow(kept, model, id)
    {
      assert HasRow(rows, model, id);
      var r :| r in rows && r.model == model && r.vecRowid == id;
      assert Backed(r, vecs) && Backed(r, after);
    }
  }

  /** Inserting a page's next chunk under an unused rowid. */
  lemma InsertKeepsConsistent(pages: set<nat>, rows: seq<Row>, vecs: Vectors, r: Row, vector: Bytes)
    requires Consistent(pages, rows, vecs) && r.page in pages
    requires r.model in vecs && r.vecRowid !in vecs[r.model] && r.index == |Select(rows, r.page, r.model)|
    ensures Consistent(pages, rows + [r], PutVector(vecs, r.model, r.vecRowid, vector))
  {
    InsertBacked(pages, rows, vecs, r, vector);
    InsertNumbered(rows, r);
    hide Select, Backed, HasRow, PutVector;
    assert forall page, model :: Numbered(rows, page, model);
  }

  lemma InsertNumbered(rows: seq<Row>, r: Row)
    requires (forall page, model :: Numbered(rows, page, model)) && r.index == |Select(rows, r.page, r.model)|
    ensures forall page, model :: Numbered(rows + [r], page, model)
  {
    hide Numbered, Select;
    forall page, model
      ensures Numbered(rows + [r], page, model)
    {
      assert Numbered(rows, page, model);
      InsertNumberedFor(rows, r, page, model);
    }
  }

  lemma InsertNumberedFor(rows: seq<Row>, r: Row, page: nat, model: string)
    requires Numbered(rows, page, model) && r.index == |Select(rows, r.page, r.model)|
    ensures Numbered(rows + [r], page, model)
  {
  }

  lemma InsertBacked(pages: set<nat>, rows: seq<Row>, vecs: Vectors, r: Row, vector: Bytes)
    requires Consistent(pages, rows, vecs) && r.page in pages && r.model in vecs && r.vecRowid !in vecs[r.model]
    ensures var after := PutVector(vecs, r.model, r.vecRowid, vector);
            && (forall q :: q in rows + [r] ==> q.page in pages && Backed(q, after))
            && UniqueRowids(rows + [r])
            && forall model, id :: model in after && id in after[model] ==> HasRow(rows + [r], model, id)
  {
  }

  // ── The validator ────────────────────────────────────────────

  /** Rows of another model than the active one. */
  ghost predicate StaleModel(rows: seq<Row>, active: string) { exists r :: r in rows && r.model != active }

  /** Rows of pages that do not exist. */
  ghost predicate OrphanedRow(pages: set<nat>, rows: seq<Row>) { exists r :: r in rows && r.page !in pages }

  /** Rows of the active model without a vector. */
  ghost predicate StaleRowid(rows: seq<Row>, vecs: Vectors, active: string) {
    exists r :: r in rows && r.model == active && !Backed(r, vecs)
  }

  /** What the orphan query counts: vectors of the active model whose rowid no row of any model has. */
  ghost function Counted(rows: seq<Row>, vecs: Vectors, active: string): set<nat>
    requires active in vecs
  {
    set id | id in vecs[active] && forall r :: r in rows ==> r.vecRowid != id
  }

  ghost predicate OrphanedVector(rows: seq<Row>, vecs: Vectors, active: string)
    requires active in vecs
  {
    exists id :: id in Counted(rows, vecs, active)
  }

  ghost predicate NothingReported(pages: set<nat>, rows: seq<Row>, vecs: Vectors, active: string)
    requires active in vecs
  {
    && !StaleModel(rows, active) && !OrphanedRow(pages, rows)
    && !StaleRowid(rows, vecs, active) && !OrphanedVector(rows, vecs, active)
  }

  /** What it should count: vectors of the active model that no row of that model has. */
  ghost function Orphans(rows: seq<Row>, vecs: Vectors, active: string): set<nat>
    requires active in vecs
  {
    set id | id in vecs[active] && !HasRow(rows, active, id)
  }

  /** A row of another model has the rowid. */
  ghost predicate Masked(rows: seq<Row>, active: string, id: nat) {
    exists r :: r in rows && r.model != active && r.vecRowid == id
  }

  /** The query misses an orphan exactly if a row of another model has its rowid, and counts nothing else. */
  lemma OrphanCountedIff(rows: seq<Row>, vecs: Vectors, active: string, id: nat)
    requires active in vecs
    ensures id in Counted(rows, vecs, active) <==> id in Orphans(rows, vecs, active) && !Masked(rows, active, id)
  {
  }

  /** A consistent index passes all checks but the one for other models. */
  lemma ConsistentPassesValidator(pages: set<nat>, rows: seq<Row>, vecs: Vectors, active: string)
    requires Consistent(pages, rows, vecs) && active in vecs
    ensures !OrphanedRow(pages, rows) && !StaleRowid(rows, vecs, active) && !OrphanedVector(rows, vecs, active)
  {
  }

  /** All checks together say exactly that the rows are the active model's and match its vectors one to one. */
  lemma ValidatorIsExact(pages: set<nat>, rows: seq<Row>, vecs: Vectors, active: string)
    requires active in vecs && UniqueRowids(rows)
    ensures NothingReported(pages, rows, vecs, active) <==>
            && (forall r :: r in rows ==> r.page in pages && r.model == active && r.vecRowid in vecs[active])
            && (forall id :: id in vecs[active] ==> HasRow(rows, active, id))
  {
    hide Counted, HasRow;
    forall id | id in vecs[active]
      ensures id in Counted(rows, vecs, active) <==> !HasRow(rows, active, id) && !Masked(rows, active, id)
    {
      OrphanCountedIff(rows, vecs, active, id);
    }
    if NothingReported(pages, rows, vecs, active) {
      forall id | id in vecs[active]
        ensures HasRow(rows, active, id)
      {
        assert id !in Counted(rows, vecs, active);
      }
    } else if id :| id in Counted(rows, vecs, active) {
      OrphanCountedIff(rows, vecs, active, id);
    }
  }

  // ── The orphan query alone ───────────────────────────────────

  lemma SubsetOfSameSize(small: set<nat>, large: set<nat>)
    requires small <= large && |small| == |large|
    ensures small == large
  {
    assert |large - small| == |large| - |small|;
    assert large == small + (large - small);
  }

  /** The query's count is right exactly if no orphan has the rowid of another model's row. */
  lemma OrphanCountExactIff(rows: seq<Row>, vecs: Vectors, active: string)
    requires active in vecs
    ensures |Counted(rows, vecs, active)| <= |Orphans(rows, vecs, active)|
    ensures |Counted(rows, vecs, active)| == |Orphans(rows, vecs, active)| <==>
            forall id :: id in Orphans(rows, vecs, active) ==> !Masked(rows, active, id)
  {
    hide Counted, Orphans, Masked;
    var counted, orphans := Counted(rows, vecs, active), Orphans(rows, vecs, active);
    forall id
      ensures id in counted <==> id in orphans && !Masked(rows, active, id)
    {
      OrphanCountedIff(rows, vecs, active, id);
    }
    assert |orphans - counted| == |orphans| - |counted|;
    if |counted| == |orphans| { SubsetOfSameSize(counted, orphans); }
    if forall id :: id in orphans ==> !Masked(rows, active, id) { assert counted == orphans; }
  }

  /** It can be wrong: a row of a retired model hides the only orphan. */
  lemma OrphanQueryIsModelBlind()
    ensures var rows := [Row(1, "retired", 5, 0, Chunk("truth_section", "", ""))];
            var vecs := map["active" := map[5 := []], "retired" := map[5 := []]];
            && UniqueRowids(rows) && 5 in Orphans(rows, vecs, "active") && Masked(rows, "active", 5)
            && !OrphanedVector(rows, vecs, "active") && StaleModel(rows, "active")
  {
    assert Row(1, "retired", 5, 0, Chunk("truth_section", "", "")).vecRowid == 5;
  }
}
