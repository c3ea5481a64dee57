/**
 `split_atoms`: a paragraph that fits is one atom; otherwise its lines are, and a line that does
 not fit is cut into pieces.
*/
module ChunkAtoms {
  import opened Wrappers
  import opened Utf8
  import opened Text
  import opened ChunkRanges

  predicate Fits(s: string, m: Range, limit: nat) { Off(s, m.end) <= Off(s, m.start) + limit }

  /** The atoms of a paragraph's lines. */
  function LineAtoms(s: string, from: nat, to: nat, lines: seq<Range>, limit: nat): seq<Range>
    requires Ordered(from, to, lines) && to <= |s| && limit >= 4
    decreases |lines|
  {
    if lines == [] then []
    else
      OrderedBounds(from, to, lines, 0);
      var l := lines[0];
      (if Fits(s, l, limit) then [l] else Pieces(s, l.start, l.end, limit))
      + LineAtoms(s, l.end, to, lines[1..], limit)
  }

  /** The lines of the paragraph `p`, as ranges of the whole content. */
  function LinesIn(s: string, p: Range): (lines: seq<Range>)
    requires p.start < p.end <= |s|
    ensures Ordered(p.start, p.end, lines)
  {
    var paragraph := s[p.start..p.end];
    LineMarksOrdered(paragraph, 0);
    ShiftFacts(0, p.end - p.start, LineMarks(paragraph, 0), p.start, 0);
    ShiftAll(LineMarks(paragraph, 0), p.start)
  }

  function ParagraphAtoms(s: string, p: Range, limit: nat): seq<Range>
    requires p.start < p.end <= |s| && limit >= 4
  {
    if Fits(s, p, limit) then [p] else LineAtoms(s, p.start, p.end, LinesIn(s, p), limit)
  }

  function AtomsFrom(s: string, from: nat, paragraphs: seq<Range>, limit: nat): seq<Range>
    requires Ordered(from, |s|, paragraphs) && limit >= 4
    decreases |paragraphs|
  {
    if paragraphs == [] then []
    else
      OrderedBounds(from, |s|, paragraphs, 0);
      ParagraphAtoms(s, paragraphs[0], limit) + AtomsFrom(s, paragraphs[0].end, paragraphs[1..], limit)
  }

  function Atoms(s: string, limit: nat): seq<Range>
    requires limit >= 4
  {
    ParagraphsOrdered(s, 0, None);
    AtomsFrom(s, 0, Paragraphs(s, 0, None), limit)
  }

  // ── Order, size, coverage ────────────────────────────────────

  lemma {:induction false} LineAtomsFacts(s: string, from: nat, to: nat, lines: seq<Range>, limit: nat, i: nat)
    requires Ordered(from, to, lines) && to <= |s| && limit >= 4
    ensures var atoms := LineAtoms(s, from, to, lines, limit);
            Ordered(from, to, atoms) && AtMost(s, atoms, limit) && (Covered(lines, i) ==> Covered(atoms, i))
    decreases |lines|
  {
    if lines != [] {
      var l := lines[0];
      OrderedBounds(from, to, lines, 0);
      var first := if Fits(s, l, limit) then [l] else Pieces(s, l.start, l.end, limit);
      FirstAtoms(s, l, limit, i);
      LineAtomsFacts(s, l.end, to, lines[1..], limit, i);
      var rest := LineAtoms(s, l.end, to, lines[1..], limit);
      AtomsJoin(s, from, l.start, l.end, to, first, rest, limit, i);
    }
  }

  lemma FirstAtoms(s: string, l: Range, limit: nat, i: nat)
    requires l.start < l.end <= |s| && limit >= 4
    ensures var first := if Fits(s, l, limit) then [l] else Pieces(s, l.start, l.end, limit);
            && Ordered(l.start, l.end, first) && AtMost(s, first, limit)
            && (l.start <= i < l.end ==> Covered(first, i))
  {
    if !Fits(s, l, limit) {
      PiecesFacts(s, l.start, l.end, limit);
      TilesFacts(l.start, l.end, Pieces(s, l.start, l.end, limit), i);
    }
  }

  lemma AtomsJoin(s: string, from: nat, start: nat, mid: nat, to: nat, left: seq<Range>, right: seq<Range>,
                  limit: nat, i: nat)
    requires from <= start && Ordered(start, mid, left) && Ordered(mid, to, right)
    requires AtMost(s, left, limit) && AtMost(s, right, limit)
    ensures Ordered(from, to, left + right) && AtMost(s, left + right, limit)
    ensures Covered(left + right, i) <==> Covered(left, i) || Covered(right, i)
  {
    OrderedBounds(start, mid, left, 0);
    OrderedJoin(start, mid, mid, to, left, right);
    OrderedJoin(from, from, start, to, [], left + right);
    assert [] + (left + right) == left + right;
    CoveredJoin(left, right, i);
  }

  lemma LinesInCover(s: string, p: Range, i: nat)
    requires p.start <= i < p.end <= |s| && !IsSpace(s[i])
    ensures Covered(LinesIn(s, p), i)
  {
    hide IsSpace, LineMarks, Covered, Ordered, ShiftAll;
    var paragraph := s[p.start..p.end];
    assert paragraph[i - p.start] == s[i];
    LineMarksCover(paragraph, 0, i - p.start);
    LineMarksOrdered(paragraph, 0);
    ShiftFacts(0, p.end - p.start, LineMarks(paragraph, 0), p.start, i - p.start);
  }

  lemma ParagraphAtomsFacts(s: string, p: Range, limit: nat, i: nat)
    requires p.start < p.end <= |s| && limit >= 4
    ensures var atoms := ParagraphAtoms(s, p, limit);
            && Ordered(p.start, p.end, atoms) && AtMost(s, atoms, limit)
            && (p.start <= i < p.end && !IsSpace(s[i]) ==> Covered(atoms, i))
  {
    hide LinesIn, LineAtoms, IsSpace, Off;
    if !Fits(s, p, limit) {
      LineAtomsFacts(s, p.start, p.end, LinesIn(s, p), limit, i);
      if p.start <= i < p.end && !IsSpace(s[i]) { LinesInCover(s, p, i); }
    }
  }

  lemma {:induction false} AtomsFromFacts(s: string, from: nat, paragraphs: seq<Range>, limit: nat, i: nat)
    requires Ordered(from, |s|, paragraphs) && limit >= 4
    ensures var atoms := AtomsFrom(s, from, paragraphs, limit);
            && Ordered(from, |s|, atoms) && AtMost(s, atoms, limit)
            && (i < |s| && !IsSpace(s[i]) && Covered(paragraphs, i) ==> Covered(atoms, i))
    decreases |paragraphs|
  {
    if paragraphs != [] {
      var p := paragraphs[0];
      OrderedBounds(from, |s|, paragraphs, 0);
      ParagraphAtomsFacts(s, p, limit, i);
      AtomsFromFacts(s, p.end, paragraphs[1..], limit, i);
      AtomsJoin(s, from, p.start, p.end, |s|, ParagraphAtoms(s, p, limit),
                AtomsFrom(s, p.end, paragraphs[1..], limit), limit, i);
    }
  }

  /** Atoms are in order, fit, and leave out white space only. */
  lemma AtomsFacts(s: string, limit: nat, i: nat)
    requires limit >= 4
    ensures Ordered(0, |s|, Atoms(s, limit)) && AtMost(s, Atoms(s, limit), limit)
    ensures i < |s| && !IsSpace(s[i]) ==> Covered(Atoms(s, limit), i)
  {
    ParagraphsOrdered(s, 0, None);
    AtomsFromFacts(s, 0, Paragraphs(s, 0, None), limit, i);
    if i < |s| && !IsSpace(s[i]) { ParagraphsCover(s, 0, None, i); }
  }

  // ── The loop over paragraphs ─────────────────────────────────

  lemma LinesStep(s: string, from: nat, to: nat, lines: seq<Range>, limit: nat)
    requires lines != [] && Ordered(from, to, lines) && to <= |s| && limit >= 4
    ensures var l := lines[0];
            && l.start < l.end <= to && Ordered(l.end, to, lines[1..]) && Off(s, l.start) < Off(s, l.end)
            && ByteRanges(s, 0, LineAtoms(s, from, to, lines, limit)) ==
               (if Fits(s, l, limit) then [ByteRange(s, 0, l)] else ByteRanges(s, 0, Pieces(s, l.start, l.end, limit)))
               + ByteRanges(s, 0, LineAtoms(s, l.end, to, lines[1..], limit))
  {
    var l := lines[0];
    OrderedBounds(from, to, lines, 0);
    OffGrows(s, l.start, l.end);
    var first := if Fits(s, l, limit) then [l] else Pieces(s, l.start, l.end, limit);
    ByteRangesJoin(s, 0, first, LineAtoms(s, l.end, to, lines[1..], limit));
  }

  lemma ByteRangesRest(s: string, marks: seq<Range>)
    requires marks != []
    ensures ByteRanges(s, 0, marks)[0] == ByteRange(s, 0, marks[0])
    ensures ByteRanges(s, 0, marks)[1..] == ByteRanges(s, 0, marks[1..])
  {
  }

  method SplitLines(content: string, lineRanges: seq<Range>, maxAtomBytes: nat, before: seq<Range>,
                    ghost from: nat, ghost to: nat, ghost lines: seq<Range>)
    returns (atoms: seq<Range>)
    requires maxAtomBytes >= 4
    requires Ordered(from, to, lines) && to <= |content| && lineRanges == ByteRanges(content, 0, lines)
    ensures atoms == before + ByteRanges(content, 0, LineAtoms(content, from, to, lines, maxAtomBytes))
  {
    hide ByteRanges, ByteRange, Pieces, Off;
    atoms := before;
    var todo := lineRanges;
    ghost var at, left := from, lines;
    while todo != []
      invariant Ordered(at, to, left) && todo == ByteRanges(content, 0, left)
      invariant atoms + ByteRanges(content, 0, LineAtoms(content, at, to, left, maxAtomBytes))
             == before + ByteRanges(content, 0, LineAtoms(content, from, to, lines, maxAtomBytes))
      decreases |todo|
    {
      LinesStep(content, at, to, left, maxAtomBytes);
      ByteRangesRest(content, left);
      var start, end := todo[0].start, todo[0].end;
      RangeFits(content, left[0], maxAtomBytes);
      if end <= start + maxAtomBytes {
        atoms := atoms + [Range(start, end)];
      } else {
        atoms := HardSplit(content, start, end, maxAtomBytes, atoms, left[0].start, left[0].end);
      }
      todo, at, left := todo[1..], left[0].end, left[1..];
    }
    assert left == [];
    NoRanges(content);
  }

  lemma NoRanges(s: string)
    ensures ByteRanges(s, 0, []) == []
  {
  }

  lemma RangeFits(s: string, m: Range, limit: nat)
    ensures var r := ByteRange(s, 0, m);
            r.start == Off(s, m.start) && r.end == Off(s, m.end) && (Fits(s, m, limit) <==> r.end <= r.start + limit)
  {
  }

  lemma ParagraphAtomsStep(s: string, from: nat, paragraphs: seq<Range>, limit: nat)
    requires paragraphs != [] && Ordered(from, |s|, paragraphs) && limit >= 4
    ensures var p := paragraphs[0];
            && p.start < p.end <= |s| && Ordered(p.end, |s|, paragraphs[1..])
            && ByteRanges(s, 0, AtomsFrom(s, from, paragraphs, limit)) ==
               ByteRanges(s, 0, ParagraphAtoms(s, p, limit))
               + ByteRanges(s, 0, AtomsFrom(s, p.end, paragraphs[1..], limit))
            && (Fits(s, p, limit) ==> ByteRanges(s, 0, ParagraphAtoms(s, p, limit)) == [ByteRange(s, 0, p)])
  {
    var p := paragraphs[0];
    OrderedBounds(from, |s|, paragraphs, 0);
    ByteRangesJoin(s, 0, ParagraphAtoms(s, p, limit), AtomsFrom(s, p.end, paragraphs[1..], limit));
  }

  /** `&content[start..end]` and the line ranges found in it. */
  lemma ParagraphSlice(s: string, p: Range)
    requires p.start < p.end <= |s|
    ensures Off(s, p.start) < Off(s, p.end) && IsOffset(s, Off(s, p.start)) && IsOffset(s, Off(s, p.end))
    ensures SliceBytes(s, Off(s, p.start), Off(s, p.end)) == s[p.start..p.end]
    ensures ByteRanges(s[p.start..p.end], Off(s, p.start), LineMarks(s[p.start..p.end], 0))
         == ByteRanges(s, 0, LinesIn(s, p))
  {
    OffGrows(s, p.start, p.end);
    LineMarksOrdered(s[p.start..p.end], 0);
    ShiftedByteRanges(s, p.start, p.end, 0, LineMarks(s[p.start..p.end], 0));
  }

  method SplitAtoms(content: string, maxAtomBytes: nat) returns (atoms: seq<Range>)
    requires maxAtomBytes >= 4 // the code passes SPLIT_WINDOW_TOKENS * APPROX_BYTES_PER_TOKEN
    ensures atoms == ByteRanges(content, 0, Atoms(content, maxAtomBytes))
  {
    hide ByteRanges, ByteRange, Pieces, Off, LineMarks, LineAtoms, ParagraphAtoms, Paragraphs, SliceBytes, IsOffset;
    atoms := [];
    ParagraphsOrdered(content, 0, None);
    ghost var from: nat, left := 0, Paragraphs(content, 0, None);
    var todo := ParagraphRanges(content);
    assert todo == ByteRanges(content, 0, left) by { var _ := ParagraphsFrom(content, 0, None); }
    while todo != []
      invariant Ordered(from, |content|, left) && todo == ByteRanges(content, 0, left)
      invariant atoms + ByteRanges(content, 0, AtomsFrom(content, from, left, maxAtomBytes))
             == ByteRanges(content, 0, Atoms(content, maxAtomBytes))
      decreases |todo|
    {
      ParagraphAtomsStep(content, from, left, maxAtomBytes);
      ByteRangesRest(content, left);
      var start, end := todo[0].start, todo[0].end;
      ghost var p := left[0];
      RangeFits(content, p, maxAtomBytes);
      if end <= start + maxAtomBytes {
        atoms := atoms + [Range(start, end)];
      } else {
        ParagraphSlice(content, p);
        var lineRanges := LineRanges(SliceBytes(content, start, end), start);
        atoms := SplitLines(content, lineRanges, maxAtomBytes, atoms, p.start, p.end, LinesIn(content, p));
        LongParagraph(content, p, maxAtomBytes);
      }
      todo, from, left := todo[1..], p.end, left[1..];
    }
    assert left == [];
    NoRanges(content);
  }

  lemma LongParagraph(s: string, p: Range, limit: nat)
    requires p.start < p.end <= |s| && limit >= 4 && !Fits(s, p, limit)
    ensures ParagraphAtoms(s, p, limit) == LineAtoms(s, p.start, p.end, LinesIn(s, p), limit)
  {
  }
}
