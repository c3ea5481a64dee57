/**
 The atoms of the chunker: paragraphs, then lines, then hard splits. The functions say which
 characters an atom holds; the methods work on byte offsets, as the code does, and return the
 byte ranges of those characters.
*/
module ChunkRanges {
  import opened Wrappers
  import opened Utf8
  import opened Text

  datatype Range = Range(start: nat, end: nat)

  /** The byte range of a range of characters, `base` bytes further on. */
  function ByteRange(s: string, base: nat, m: Range): Range { Range(base + Off(s, m.start), base + Off(s, m.end)) }

  function ByteRanges(s: string, base: nat, marks: seq<Range>): (r: seq<Range>)
    ensures |r| == |marks|
  {
    if marks == [] then [] else [ByteRange(s, base, marks[0])] + ByteRanges(s, base, marks[1..])
  }

  lemma {:induction false} ByteRangesJoin(s: string, base: nat, left: seq<Range>, right: seq<Range>)
    ensures ByteRanges(s, base, left + right) == ByteRanges(s, base, left) + ByteRanges(s, base, right)
    decreases |left|
  {
    hide ByteRange;
    if left == [] {
      assert left + right == right;
    } else {
      ByteRangesJoin(s, base, left[1..], right);
      assert (left + right)[1..] == left[1..] + right;
    }
  }

  lemma {:induction false} ByteRangesAt(s: string, base: nat, marks: seq<Range>, k: nat)
    requires k < |marks|
    ensures ByteRanges(s, base, marks)[k] == ByteRange(s, base, marks[k])
    decreases |marks|
  {
    if k > 0 { ByteRangesAt(s, base, marks[1..], k - 1); }
  }

  // ── Order and coverage ───────────────────────────────────────

  /** Non-empty, disjoint and in order, between `from` and `to`. */
  predicate Ordered(from: nat, to: nat, marks: seq<Range>)
    decreases |marks|
  {
    if marks == [] then from <= to
    else from <= marks[0].start < marks[0].end && Ordered(marks[0].end, to, marks[1..])
  }

  /** Without gaps, from `from` to `to`. */
  predicate Tiles(from: nat, to: nat, marks: seq<Range>)
    decreases |marks|
  {
    if marks == [] then from == to
    else from == marks[0].start < marks[0].end && Tiles(marks[0].end, to, marks[1..])
  }

  predicate Covered(marks: seq<Range>, i: nat) {
    marks != [] && (marks[0].start <= i < marks[0].end || Covered(marks[1..], i))
  }

  lemma {:induction false} OrderedBounds(from: nat, to: nat, marks: seq<Range>, k: nat)
    requires Ordered(from, to, marks)
    ensures from <= to && (k < |marks| ==> from <= marks[k].start < marks[k].end <= to)
    decreases |marks|
  {
    if marks != [] { OrderedBounds(marks[0].end, to, marks[1..], if k == 0 then 0 else k - 1); }
  }

  lemma {:induction false} OrderedPair(from: nat, to: nat, marks: seq<Range>, j: nat, k: nat)
    requires Ordered(from, to, marks) && j < k < |marks|
    ensures marks[j].end <= marks[k].start
    decreases |marks|
  {
    if j == 0 {
      OrderedBounds(marks[0].end, to, marks[1..], k - 1);
    } else {
      OrderedPair(marks[0].end, to, marks[1..], j - 1, k - 1);
    }
  }

  lemma {:induction false} OrderedJoin(from: nat, mid: nat, mid': nat, to: nat, left: seq<Range>, right: seq<Range>)
    requires Ordered(from, mid, left) && mid <= mid' && Ordered(mid', to, right)
    ensures Ordered(from, to, left + right)
    decreases |left|
  {
    if left == [] {
      assert left + right == right;
      OrderedBounds(mid', to, right, 0);
    } else {
      OrderedJoin(left[0].end, mid, mid', to, left[1..], right);
      assert (left + right)[1..] == left[1..] + right;
    }
  }

  lemma {:induction false} CoveredJoin(left: seq<Range>, right: seq<Range>, i: nat)
    ensures Covered(left + right, i) <==> Covered(left, i) || Covered(right, i)
    decreases |left|
  {
    if left == [] {
      assert left + right == right;
    } else {
      CoveredJoin(left[1..], right, i);
      assert (left + right)[1..] == left[1..] + right;
    }
  }

  lemma {:induction false} CoveredAt(marks: seq<Range>, i: nat)
    ensures Covered(marks, i) <==> exists k :: 0 <= k < |marks| && marks[k].start <= i < marks[k].end
    decreases |marks|
  {
    if marks != [] {
      var rest := marks[1..];
      CoveredAt(rest, i);
      if Covered(rest, i) {
        var k :| 0 <= k < |rest| && rest[k].start <= i < rest[k].end;
        assert marks[k + 1] == rest[k];
      }
      if k :| 0 <= k < |marks| && marks[k].start <= i < marks[k].end {
        assert k > 0 ==> rest[k - 1] == marks[k];
      }
    }
  }

  lemma {:induction false} TilesFacts(from: nat, to: nat, marks: seq<Range>, i: nat)
    requires Tiles(from, to, marks)
    ensures Ordered(from, to, marks) && (from <= i < to ==> Covered(marks, i))
    decreases |marks|
  {
    if marks != [] { TilesFacts(marks[0].end, to, marks[1..], i); }
  }

  function ShiftAll(marks: seq<Range>, offset: nat): (r: seq<Range>)
    ensures |r| == |marks|
  {
    if marks == [] then [] else [Range(offset + marks[0].start, offset + marks[0].end)] + ShiftAll(marks[1..], offset)
  }

  lemma {:induction false} ShiftFacts(from: nat, to: nat, marks: seq<Range>, offset: nat, i: nat)
    requires Ordered(from, to, marks)
    ensures Ordered(offset + from, offset + to, ShiftAll(marks, offset))
    ensures Covered(marks, i) ==> Covered(ShiftAll(marks, offset), offset + i)
    decreases |marks|
  {
    if marks != [] { ShiftFacts(marks[0].end, to, marks[1..], offset, i); }
  }

  lemma ShiftedByteRange(s: string, a: nat, b: nat, m: Range)
    requires a <= b <= |s| && m.start <= b - a && m.end <= b - a
    ensures ByteRange(s[a..b], Off(s, a), m) == ByteRange(s, 0, Range(a + m.start, a + m.end))
  {
    hide Off;
    OffSlice(s, a, b, m.start);
    OffSlice(s, a, b, m.end);
    OffGrows(s, a, a + m.start);
    OffGrows(s, a, a + m.end);
  }

  /** Ranges of the substring `s[a..b]`, `Off(s, a)` bytes further on, are ranges of `s`. */
  lemma {:induction false} ShiftedByteRanges(s: string, a: nat, b: nat, from: nat, marks: seq<Range>)
    requires a <= b <= |s| && Ordered(from, b - a, marks)
    ensures ByteRanges(s[a..b], Off(s, a), marks) == ByteRanges(s, 0, ShiftAll(marks, a))
    decreases |marks|
  {
    hide Off, ByteRange;
    if marks != [] {
      OrderedBounds(from, b - a, marks, 0);
      ShiftedByteRange(s, a, b, marks[0]);
      ShiftedByteRanges(s, a, b, marks[0].end, marks[1..]);
    }
  }

  // ── Paragraphs ───────────────────────────────────────────────

  /** The byte lengths of the line `s[pos..next]` and of its trimmed part are differences of offsets. */
  lemma LineBytes(s: string, pos: nat, next: nat)
    requires pos <= next <= |s|
    ensures var line := s[pos..next];
            && ByteLen(line) == Off(s, next) - Off(s, pos)
            && ByteLen(TrimEnd(line)) == Off(s, pos + EndOfText(line)) - Off(s, pos)
  {
    var kept := EndOfText(s[pos..next]);
    ByteLenSlice(s, pos, next);
    ByteLenSlice(s, pos, pos + kept);
    assert TrimEnd(s[pos..next]) == s[pos..pos + kept];
  }

  /** What `trim_end` drops from the line `s[pos..next]` is white space. */
  lemma LineTail(s: string, pos: nat, next: nat, i: nat)
    requires pos <= next <= |s| && pos + EndOfText(s[pos..next]) <= i < next
    ensures IsSpace(s[i])
  {
    TextEndsAt(s[pos..next], i - pos);
    assert s[i] == s[pos..next][i - pos];
  }

  function Closed(open: Option<Range>): seq<Range> { if open.Some? then [open.value] else [] }

  /** Runs of non-blank lines, without the white space after the last of them. `open` is the run being read. */
  function Paragraphs(s: string, pos: nat, open: Option<Range>): (r: seq<Range>)
    requires pos <= |s|
    decreases |s| - pos
  {
    if pos == |s| then Closed(open)
    else
      var next := LineEnd(s, pos);
      var line := s[pos..next];
      if IsBlank(line) then Closed(open) + Paragraphs(s, next, None)
      else Paragraphs(s, next, Some(Range(if open.Some? then open.value.start else pos, pos + EndOfText(line))))
  }

  function From(pos: nat, open: Option<Range>): nat { if open.Some? then open.value.start else pos }

  lemma {:induction false} ParagraphsOrdered(s: string, pos: nat, open: Option<Range>)
    requires pos <= |s| && (open.Some? ==> open.value.start < open.value.end <= pos)
    ensures Ordered(From(pos, open), |s|, Paragraphs(s, pos, open))
    decreases |s| - pos
  {
    if pos < |s| {
      var next := LineEnd(s, pos);
      var line := s[pos..next];
      if IsBlank(line) {
        ParagraphsOrdered(s, next, None);
        if open.Some? {
          OrderedJoin(From(pos, open), open.value.end, next, |s|, [open.value], Paragraphs(s, next, None));
        } else {
          OrderedJoin(pos, pos, next, |s|, [], Paragraphs(s, next, None));
          assert [] + Paragraphs(s, next, None) == Paragraphs(s, next, None);
        }
      } else {
        ParagraphsOrdered(s, next, Some(Range(From(pos, open), pos + EndOfText(line))));
      }
    }
  }

  /** A character that is not white space is in a paragraph, if it lies in the part still to be read. */
  lemma {:induction false} ParagraphsCover(s: string, pos: nat, open: Option<Range>, i: nat)
    requires pos <= |s| && From(pos, open) <= i < |s| && !IsSpace(s[i])
    requires open.Some? ==> open.value.end <= pos && (i < open.value.end || pos <= i)
    ensures Covered(Paragraphs(s, pos, open), i)
    decreases |s| - pos
  {
    if pos < |s| {
      var next := LineEnd(s, pos);
      var line := s[pos..next];
      if IsBlank(line) {
        CoveredJoin(Closed(open), Paragraphs(s, next, None), i);
        if pos <= i < next { LineTail(s, pos, next, i); }
        if next <= i { ParagraphsCover(s, next, None, i); }
      } else {
        if pos + EndOfText(line) <= i < next { LineTail(s, pos, next, i); }
        ParagraphsCover(s, next, Some(Range(From(pos, open), pos + EndOfText(line))), i);
      }
    }
  }

  /** The byte ranges of the paragraphs from `pos` on. */
  function ParagraphsFrom(s: string, pos: nat, open: Option<Range>): seq<Range>
    requires pos <= |s|
  {
    ByteRanges(s, 0, Paragraphs(s, pos, open))
  }

  lemma SomeRanges(s: string, open: Option<Range>)
    ensures ByteRanges(s, 0, Closed(open)) == if open.Some? then [ByteRange(s, 0, open.value)] else []
    ensures ParagraphsFrom(s, |s|, open) == ByteRanges(s, 0, Closed(open))
    ensures Off(s, 0) == 0
  {
  }

  /** What one line contributes. */
  lemma ParagraphStep(s: string, pos: nat, open: Option<Range>)
    requires pos < |s|
    ensures var next := LineEnd(s, pos);
            var line := s[pos..next];
            ParagraphsFrom(s, pos, open) ==
            if IsBlank(line) then ByteRanges(s, 0, Closed(open)) + ParagraphsFrom(s, next, None)
            else ParagraphsFrom(s, next, Some(Range(From(pos, open), pos + EndOfText(line))))
  {
    hide Off, LineEnd, EndOfText, IsBlank, ByteRanges, Closed;
    ByteRangesJoin(s, 0, Closed(open), Paragraphs(s, LineEnd(s, pos), None));
  }

  method ParagraphRanges(content: string) returns (ranges: seq<Range>)
    ensures ranges == ParagraphsFrom(content, 0, None)
  {
    hide ByteRanges, Paragraphs, ParagraphsFrom, Off, ByteLen, LineEnd, EndOfText, IsBlank;
    SomeRanges(content, None);
    ranges := [];
    var start: Option<nat> := None;
    var end: nat, offset: nat, pos: nat := 0, 0, 0;
    ghost var open: Option<Range> := None; // the characters of the paragraph being read
    while pos < |content|
      invariant pos <= |content| && offset == Off(content, pos)
      invariant start.Some? == open.Some?
      invariant open.Some? ==> Range(start.value, end) == ByteRange(content, 0, open.value)
      invariant ranges + ParagraphsFrom(content, pos, open) == ParagraphsFrom(content, 0, None)
      decreases |content| - pos
    {
      var next := LineEnd(content, pos);
      var line := content[pos..next];
      LineBytes(content, pos, next);
      ParagraphStep(content, pos, open);
      SomeRanges(content, open);
      var lineStart := offset;
      offset := offset + ByteLen(line);
      if IsBlank(line) {
        if start.Some? {
          ranges := ranges + [Range(start.value, end)];
          start, open := None, None;
        }
      } else {
        if start.None? {
          start := Some(lineStart);
        }
        open := Some(Range(From(pos, open), pos + EndOfText(line)));
        end := lineStart + ByteLen(TrimEnd(line));
      }
      pos := next;
    }
    SomeRanges(content, open);
    if start.Some? {
      ranges := ranges + [Range(start.value, end)];
    }
  }

  // ── Lines of a paragraph ─────────────────────────────────────

  /** The lines from `pos` on, without the white space at their ends; blank lines are left out. */
  function LineMarks(s: string, pos: nat): seq<Range>
    requires pos <= |s|
    decreases |s| - pos
  {
    if pos == |s| then []
    else
      var next := LineEnd(s, pos);
      var kept := EndOfText(s[pos..next]);
      (if kept == 0 then [] else [Range(pos, pos + kept)]) + LineMarks(s, next)
  }

  lemma {:induction false} LineMarksOrdered(s: string, pos: nat)
    requires pos <= |s|
    ensures Ordered(pos, |s|, LineMarks(s, pos))
    decreases |s| - pos
  {
    if pos < |s| {
      var next := LineEnd(s, pos);
      var kept := EndOfText(s[pos..next]);
      LineMarksOrdered(s, next);
      OrderedJoin(pos, pos + kept, next, |s|, if kept == 0 then [] else [Range(pos, pos + kept)], LineMarks(s, next));
    }
  }

  lemma {:induction false} LineMarksCover(s: string, pos: nat, i: nat)
    requires pos <= i < |s| && !IsSpace(s[i])
    ensures Covered(LineMarks(s, pos), i)
    decreases |s| - pos
  {
    var next := LineEnd(s, pos);
    var kept := EndOfText(s[pos..next]);
    CoveredJoin(if kept == 0 then [] else [Range(pos, pos + kept)], LineMarks(s, next), i);
    if next <= i {
      LineMarksCover(s, next, i);
    } else if pos + kept <= i {
      LineTail(s, pos, next, i);
    }
  }

  lemma NoLines(s: string, base: nat)
    ensures ByteRanges(s, base, LineMarks(s, |s|)) == [] && Off(s, 0) == 0
  {
  }

  lemma LineStep(s: string, base: nat, pos: nat)
    requires pos < |s|
    ensures var next := LineEnd(s, pos);
            var kept := EndOfText(s[pos..next]);
            ByteRanges(s, base, LineMarks(s, pos)) ==
            (if kept == 0 then [] else [ByteRange(s, base, Range(pos, pos + kept))])
            + ByteRanges(s, base, LineMarks(s, next))
  {
    var next := LineEnd(s, pos);
    var kept := EndOfText(s[pos..next]);
    ByteRangesJoin(s, base, if kept == 0 then [] else [Range(pos, pos + kept)], LineMarks(s, next));
  }

  /** `base` is the byte offset of the paragraph in the whole content. */
  method LineRanges(paragraph: string, base: nat) returns (ranges: seq<Range>)
    ensures ranges == ByteRanges(paragraph, base, LineMarks(paragraph, 0))
  {
    hide ByteRanges, LineMarks, Off, ByteLen, LineEnd, EndOfText;
    NoLines(paragraph, base);
    ranges := [];
    var offset: nat, pos: nat := 0, 0;
    while pos < |paragraph|
      invariant pos <= |paragraph| && offset == Off(paragraph, pos)
      invariant ranges + ByteRanges(paragraph, base, LineMarks(paragraph, pos))
             == ByteRanges(paragraph, base, LineMarks(paragraph, 0))
      decreases |paragraph| - pos
    {
      var next := LineEnd(paragraph, pos);
      var line := paragraph[pos..next];
      LineBytes(paragraph, pos, next);
      LineStep(paragraph, base, pos);
      var lineStart := offset;
      offset := offset + ByteLen(line);
      var trimmed := TrimEnd(line);
      if trimmed != [] {
        ranges := ranges + [Range(base + lineStart, base + lineStart + ByteLen(trimmed))];
      }
      pos := next;
    }
  }

  // ── Hard splits ──────────────────────────────────────────────

  /** The last character starting at or before the byte offset `cut`. */
  function LastBoundary(s: string, cut: nat, i: nat): (j: nat)
    requires i <= |s|
    ensures j <= i && (j > 0 ==> Off(s, j) <= cut) && (j < i ==> cut < Off(s, j + 1))
  {
    if i == 0 || Off(s, i) <= cut then i else LastBoundary(s, cut, i - 1)
  }

  /** Going back to a character boundary stays after the piece's start, a character having at most four bytes. */
  lemma BoundaryAfterStart(s: string, a: nat, b: nat, limit: nat)
    requires a < b <= |s| && limit >= 4 && Off(s, b) - Off(s, a) > limit
    ensures var q := LastBoundary(s, Off(s, a) + limit, |s|);
            a < q < b && Off(s, q) <= Off(s, a) + limit < Off(s, q) + 4
  {
    var cut := Off(s, a) + limit;
    var q := LastBoundary(s, cut, |s|);
    if q < |s| { OffGrows(s, q, q + 1); }
    if q <= a {
      OffGrows(s, q + 1, a + 1);
      OffGrows(s, a, a + 1);
    } else if b <= q {
      OffGrows(s, b, q);
    }
  }

  /** The pieces of `s[a..b]`: each as long as the limit and the character boundaries allow. */
  function Pieces(s: string, a: nat, b: nat, limit: nat): seq<Range>
    requires a < b <= |s| && limit >= 4
    decreases b - a
  {
    if Off(s, b) - Off(s, a) <= limit then [Range(a, b)]
    else
      BoundaryAfterStart(s, a, b, limit);
      var q := LastBoundary(s, Off(s, a) + limit, |s|);
      [Range(a, q)] + Pieces(s, q, b, limit)
  }

  predicate AtMost(s: string, marks: seq<Range>, limit: nat) {
    forall m :: m in marks ==> m.end <= |s| && Off(s, m.end) <= Off(s, m.start) + limit
  }

  lemma {:induction false} PiecesFacts(s: string, a: nat, b: nat, limit: nat)
    requires a < b <= |s| && limit >= 4
    ensures Tiles(a, b, Pieces(s, a, b, limit)) && AtMost(s, Pieces(s, a, b, limit), limit)
    decreases b - a
  {
    if Off(s, b) - Off(s, a) > limit {
      BoundaryAfterStart(s, a, b, limit);
      var q := LastBoundary(s, Off(s, a) + limit, |s|);
      PiecesFacts(s, q, b, limit);
      assert Pieces(s, a, b, limit)[1..] == Pieces(s, q, b, limit);
    }
  }

  /** No cut could have been made later: the next character would not fit. */
  lemma {:induction false} PiecesAreLongest(s: string, a: nat, b: nat, limit: nat, k: nat)
    requires a < b <= |s| && limit >= 4 && k + 1 < |Pieces(s, a, b, limit)|
    ensures var m := Pieces(s, a, b, limit)[k]; m.end < |s| && Off(s, m.end + 1) > Off(s, m.start) + limit
    decreases k
  {
    BoundaryAfterStart(s, a, b, limit);
    var q := LastBoundary(s, Off(s, a) + limit, |s|);
    if k > 0 { PiecesAreLongest(s, q, b, limit, k - 1); }
  }

  /** The search for a boundary stops exactly at the last one. */
  lemma BoundaryFound(s: string, cut: nat, limit: nat)
    requires cut <= limit <= ByteLen(s) && LastBoundary(s, limit, |s|) > 0 && Off(s, LastBoundary(s, limit, |s|)) <= cut
    ensures |Encode(s)| == ByteLen(s)
    ensures IsCharBoundary(Encode(s), cut) <==> cut == Off(s, LastBoundary(s, limit, |s|))
  {
    var q := LastBoundary(s, limit, |s|);
    EncodedLength(s);
    BoundaryIsOffset(s, cut);
    if IsCharBoundary(Encode(s), cut) && cut != Off(s, q) {
      var i :| 0 <= i <= |s| && Off(s, i) == cut;
      if i <= q { OffGrows(s, i, q); } else { OffGrows(s, q + 1, i); }
    }
  }

  lemma PieceStep(s: string, a: nat, b: nat, limit: nat)
    requires a < b <= |s| && limit >= 4 && Off(s, b) - Off(s, a) > limit
    ensures var q := LastBoundary(s, Off(s, a) + limit, |s|);
            && a < q < b && Off(s, a) < Off(s, q) < Off(s, b)
            && ByteRanges(s, 0, Pieces(s, a, b, limit)) ==
               [ByteRange(s, 0, Range(a, q))] + ByteRanges(s, 0, Pieces(s, q, b, limit))
  {
    BoundaryAfterStart(s, a, b, limit);
    var q := LastBoundary(s, Off(s, a) + limit, |s|);
    OffGrows(s, a, q);
    OffGrows(s, q, b);
    ByteRangesJoin(s, 0, [Range(a, q)], Pieces(s, q, b, limit));
  }

  lemma LastPiece(s: string, a: nat, b: nat, limit: nat)
    requires a < b <= |s| && limit >= 4 && Off(s, b) - Off(s, a) <= limit
    ensures ByteRanges(s, 0, Pieces(s, a, b, limit)) == [ByteRange(s, 0, Range(a, b))]
  {
  }

  /** The backward search of `hard_split`, from `from`. */
  method BoundaryAtOrBefore(content: string, from: nat) returns (cut: nat)
    requires from <= ByteLen(content) && LastBoundary(content, from, |content|) > 0
    ensures cut == Off(content, LastBoundary(content, from, |content|))
  {
    var bytes := Encode(content);
    ghost var q := LastBoundary(content, from, |content|);
    cut := from;
    BoundaryFound(content, cut, from);
    while !IsCharBoundary(bytes, cut)
      invariant Off(content, q) <= cut <= from
      invariant IsCharBoundary(bytes, cut) <==> cut == Off(content, q)
      decreases cut
    {
      cut := cut - 1;
      BoundaryFound(content, cut, from);
    }
  }

  /** `a` and `b` are the characters at the byte offsets `start` and `end`. */
  method HardSplit(content: string, start: nat, end: nat, maxAtomBytes: nat, before: seq<Range>, ghost a: nat,
                   ghost b: nat)
    returns (atoms: seq<Range>)
    requires maxAtomBytes >= 4 // the code passes SPLIT_WINDOW_TOKENS * APPROX_BYTES_PER_TOKEN
    requires a < b <= |content| && start == Off(content, a) && end == Off(content, b)
    ensures atoms == before + ByteRanges(content, 0, Pieces(content, a, b, maxAtomBytes))
  {
    hide ByteRanges, Pieces, Off, LastBoundary;
    atoms := before;
    var pieceStart := start;
    ghost var p := a;
    OffGrows(content, a, b);
    OffGrows(content, b, |content|);
    while end - pieceStart > maxAtomBytes
      invariant a <= p < b && pieceStart == Off(content, p) && pieceStart < end
      invariant atoms + ByteRanges(content, 0, Pieces(content, p, b, maxAtomBytes))
             == before + ByteRanges(content, 0, Pieces(content, a, b, maxAtomBytes))
      decreases end - pieceStart
    {
      PieceStep(content, p, b, maxAtomBytes);
      var cut := BoundaryAtOrBefore(content, pieceStart + maxAtomBytes);
      atoms := atoms + [Range(pieceStart, cut)];
      pieceStart, p := cut, LastBoundary(content, pieceStart + maxAtomBytes, |content|);
    }
    LastPiece(content, p, b, maxAtomBytes);
    atoms := atoms + [Range(pieceStart, end)];
  }
}
