/** Where the atoms of a text begin and end: at its first line with text, and after its last character. */
module TextSpan {
  import opened Wrappers
  import opened Utf8
  import opened Text
  import opened ChunkRanges
  import opened ChunkAtoms

  /** The start of the first line from `pos` on that is not blank. */
  function TextStart(s: string, pos: nat): (n: nat)
    requires pos <= |s|
    ensures pos <= n <= |s|
    decreases |s| - pos
  {
    if pos < |s| && IsBlank(s[pos..LineEnd(s, pos)]) then TextStart(s, LineEnd(s, pos)) else pos
  }

  /** The range begins with the line at its start, which is not blank. */
  predicate BeginsWithText(s: string, p: Range) {
    && p.start < p.end <= |s|
    && var kept := EndOfText(s[p.start..LineEnd(s, p.start)]); 0 < kept && p.start + kept <= p.end
  }

  // ── Paragraphs ───────────────────────────────────────────────

  lemma {:induction false} FirstParagraph(s: string, pos: nat, open: Option<Range>)
    requires pos <= |s| && (open.Some? ==> BeginsWithText(s, open.value) && open.value.end <= pos)
    requires Paragraphs(s, pos, open) != []
    ensures var p := Paragraphs(s, pos, open)[0];
            BeginsWithText(s, p) && p.start == if open.Some? then open.value.start else TextStart(s, pos)
    decreases |s| - pos
  {
    hide LineEnd, EndOfText, IsBlank;
    if pos < |s| {
      var next := LineEnd(s, pos);
      var kept := EndOfText(s[pos..next]);
      if IsBlank(s[pos..next]) {
        if open.None? { FirstParagraph(s, next, None); }
      } else {
        FirstParagraph(s, next, Some(Range(From(pos, open), pos + kept)));
      }
    }
  }

  lemma TextBefore(s: string, i: nat)
    requires i < |s| && !IsSpace(s[i])
    ensures i < EndOfText(s)
  {
    TextEndsAt(s, i);
  }

  /** Every paragraph ends with text. */
  lemma {:induction false} ParagraphsEnd(s: string, pos: nat, open: Option<Range>, p: Range)
    requires pos <= |s| && p in Paragraphs(s, pos, open) && (open.Some? ==> open.value.end <= EndOfText(s))
    ensures p.end <= EndOfText(s)
    decreases |s| - pos
  {
    hide IsSpace, EndOfText, LineEnd;
    if pos < |s| {
      var next := LineEnd(s, pos);
      var line := s[pos..next];
      if IsBlank(line) {
        if p in Paragraphs(s, next, None) { ParagraphsEnd(s, next, None, p); }
      } else {
        TextEndsAt(line, 0);
        TextBefore(s, pos + EndOfText(line) - 1);
        ParagraphsEnd(s, next, Some(Range(From(pos, open), pos + EndOfText(line))), p);
      }
    }
  }

  // ── The first atom ───────────────────────────────────────────

  lemma {:induction false} LineEndFacts(s: string, pos: nat, i: nat)
    requires pos < |s|
    ensures pos <= i < LineEnd(s, pos) - 1 ==> s[i] != '\n'
    ensures LineEnd(s, pos) < |s| ==> s[LineEnd(s, pos) - 1] == '\n'
    decreases |s| - pos
  {
    if s[pos] != '\n' && pos + 1 < |s| { LineEndFacts(s, pos + 1, i); }
  }

  /** The first line of a paragraph has text. */
  lemma FirstLineOf(s: string, p: Range)
    requires BeginsWithText(s, p)
    ensures LinesIn(s, p) != [] && LinesIn(s, p)[0].start == p.start
  {
    hide LineEnd, EndOfText, Off;
    var paragraph, line := s[p.start..p.end], s[p.start..LineEnd(s, p.start)];
    var kept, next := EndOfText(line), LineEnd(paragraph, 0);
    TextEndsAt(line, 0);
    assert paragraph[kept - 1] == line[kept - 1] == s[p.start + kept - 1];
    LineEndFacts(paragraph, 0, 0);
    LineEndFacts(s, p.start, p.start + next - 1);
    assert paragraph[next - 1] == s[p.start + next - 1];
    assert kept <= next;
    TextBefore(paragraph[0..next], kept - 1);
    assert LineMarks(paragraph, 0)[0].start == 0;
  }

  lemma FirstAtomOfLines(s: string, from: nat, to: nat, lines: seq<Range>, limit: nat)
    requires lines != [] && Ordered(from, to, lines) && to <= |s| && limit >= 4
    ensures LineAtoms(s, from, to, lines, limit) != []
    ensures LineAtoms(s, from, to, lines, limit)[0].start == lines[0].start
  {
    hide Off, LastBoundary;
    OrderedBounds(from, to, lines, 0);
    var l := lines[0];
    var first := if Fits(s, l, limit) then [l] else Pieces(s, l.start, l.end, limit);
    if !Fits(s, l, limit) { PiecesFacts(s, l.start, l.end, limit); }
    assert first != [] && first[0].start == l.start;
  }

  lemma BeginsInside(s: string, p: Range)
    requires BeginsWithText(s, p)
    ensures p.start < p.end <= |s|
  {
  }

  lemma FirstAtomOf(s: string, p: Range, limit: nat)
    requires BeginsWithText(s, p) && limit >= 4
    ensures ParagraphAtoms(s, p, limit) != [] && ParagraphAtoms(s, p, limit)[0].start == p.start
  {
    hide LinesIn, LineAtoms, BeginsWithText, Off;
    BeginsInside(s, p);
    if !Fits(s, p, limit) {
      FirstLineOf(s, p);
      FirstAtomOfLines(s, p.start, p.end, LinesIn(s, p), limit);
    }
  }

  // ── The last atom ────────────────────────────────────────────

  lemma {:induction false} AtomsEnd(s: string, from: nat, paragraphs: seq<Range>, limit: nat, e: nat, a: Range)
    requires Ordered(from, |s|, paragraphs) && limit >= 4 && forall p :: p in paragraphs ==> p.end <= e
    requires a in AtomsFrom(s, from, paragraphs, limit)
    ensures a.end <= e
    decreases |paragraphs|
  {
    hide ParagraphAtoms;
    var p := paragraphs[0];
    OrderedBounds(from, |s|, paragraphs, 0);
    ParagraphAtomsFacts(s, p, limit, 0);
    assert p in paragraphs;
    var own, rest := ParagraphAtoms(s, p, limit), AtomsFrom(s, p.end, paragraphs[1..], limit);
    if a in own {
      var k :| 0 <= k < |own| && own[k] == a;
      OrderedBounds(p.start, p.end, own, k);
    } else {
      assert a in rest;
      AtomsEnd(s, p.end, paragraphs[1..], limit, e, a);
    }
  }

  // ── The span of the atoms ────────────────────────────────────

  lemma SomeText(s: string) returns (i: nat)
    requires !IsBlank(s)
    ensures i < |s| && !IsSpace(s[i]) && i == EndOfText(s) - 1
  {
    i := EndOfText(s) - 1;
    TextEndsAt(s, i);
  }

  /** The atoms reach from the start of the first line with text to the end of the text. */
  lemma AtomsSpan(s: string, limit: nat)
    requires !IsBlank(s) && limit >= 4
    ensures var atoms := Atoms(s, limit);
            atoms != [] && atoms[0].start == TextStart(s, 0) && atoms[|atoms| - 1].end == EndOfText(s)
  {
    hide IsSpace, IsBlank, EndOfText, Paragraphs, ParagraphAtoms, BeginsWithText, TextStart, Off;
    var atoms, paragraphs := Atoms(s, limit), Paragraphs(s, 0, None);
    var i := SomeText(s);
    ParagraphsOrdered(s, 0, None);
    ParagraphsCover(s, 0, None, i);
    FirstParagraph(s, 0, None);
    BeginsInside(s, paragraphs[0]);
    FirstAtomOf(s, paragraphs[0], limit);
    AtomsFacts(s, limit, i);
    CoveredAt(atoms, i);
    var k :| 0 <= k < |atoms| && atoms[k].start <= i < atoms[k].end;
    if k < |atoms| - 1 { OrderedPair(0, |s|, atoms, k, |atoms| - 1); }
    OrderedBounds(0, |s|, atoms, |atoms| - 1);
    forall p | p in paragraphs
      ensures p.end <= EndOfText(s)
    {
      ParagraphsEnd(s, 0, None, p);
    }
    AtomsEnd(s, 0, paragraphs, limit, EndOfText(s), atoms[|atoms| - 1]);
  }
}
