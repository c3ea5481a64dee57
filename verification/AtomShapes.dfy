/** What paragraphs, lines and atoms are: which characters belong together, where they begin and end. */
module AtomShapes {
  import opened Wrappers
  import opened Utf8
  import opened Text
  import opened ChunkRanges
  import opened ChunkAtoms
  import opened TextSpan

  predicate LineBegins(s: string, q: nat) { q < |s| && (q == 0 || s[q - 1] == '\n') }

  predicate BlankLineAt(s: string, q: nat) { LineBegins(s, q) && IsBlank(s[q..LineEnd(s, q)]) }

  ghost predicate BlankLineBetween(s: string, i: nat, j: nat) { exists q :: i < q <= j && BlankLineAt(s, q) }

  /** One of the ranges holds both characters. */
  ghost predicate Together(marks: seq<Range>, i: nat, j: nat) {
    exists m :: m in marks && m.start <= i < m.end && m.start <= j < m.end
  }

  lemma TogetherJoin(left: seq<Range>, right: seq<Range>, i: nat, j: nat)
    ensures Together(left + right, i, j) <==> Together(left, i, j) || Together(right, i, j)
  {
  }

  lemma ApartBefore(from: nat, to: nat, marks: seq<Range>, i: nat, j: nat)
    requires Ordered(from, to, marks) && (i < from || j < from)
    ensures !Together(marks, i, j)
  {
    if m :| m in marks && m.start <= i < m.end && m.start <= j < m.end {
      var k :| 0 <= k < |marks| && marks[k] == m;
      OrderedBounds(from, to, marks, k);
    }
  }

  /** A line is whole: no other line begins inside it. */
  lemma NoLineInside(s: string, pos: nat, q: nat)
    requires pos < |s| && pos < q < LineEnd(s, pos)
    ensures !LineBegins(s, q)
  {
    LineEndFacts(s, pos, q - 1);
  }

  lemma NextLineBegins(s: string, pos: nat)
    requires pos < |s| && LineEnd(s, pos) < |s|
    ensures LineBegins(s, LineEnd(s, pos))
  {
    LineEndFacts(s, pos, pos);
  }

  // ── Paragraphs ───────────────────────────────────────────────

  /** The part of the text that has been read: a line begins next, and no blank line is in the open paragraph. */
  ghost predicate ReadTo(s: string, pos: nat, open: Option<Range>) {
    && (pos == |s| || LineBegins(s, pos)) && pos <= |s|
    && (open.Some? ==>
          && open.value.start < open.value.end <= pos && LineBegins(s, open.value.start)
          && !IsSpace(s[open.value.end - 1])
          && forall q :: open.value.start <= q < pos ==> !BlankLineAt(s, q))
  }

  predicate InReach(pos: nat, open: Option<Range>, i: nat) {
    From(pos, open) <= i && (open.Some? ==> i < open.value.end || pos <= i)
  }

  lemma LastOfLine(s: string, pos: nat, next: nat)
    requires pos < next <= |s| && !IsBlank(s[pos..next])
    ensures var kept := EndOfText(s[pos..next]); 0 < kept <= next - pos && !IsSpace(s[pos + kept - 1])
  {
    hide IsSpace, IsBlank, EndOfText;
    var line := s[pos..next];
    TextEndsAt(line, 0);
    assert line[EndOfText(line) - 1] == s[pos + EndOfText(line) - 1];
  }

  lemma LineGoesOn(s: string, pos: nat, open: Option<Range>)
    requires pos < |s| && ReadTo(s, pos, open)
    ensures var next := LineEnd(s, pos);
            var line := s[pos..next];
            if IsBlank(line) then ReadTo(s, next, None) && BlankLineAt(s, pos)
            else ReadTo(s, next, Some(Range(From(pos, open), pos + EndOfText(line))))
  {
    hide IsSpace, IsBlank, EndOfText, LineEnd;
    var next := LineEnd(s, pos);
    var line := s[pos..next];
    if next < |s| { NextLineBegins(s, pos); }
    if !IsBlank(line) {
      LastOfLine(s, pos, next);
      forall q | From(pos, open) <= q < next
        ensures !BlankLineAt(s, q)
      {
        if q > pos { NoLineInside(s, pos, q); }
      }
    }
  }

  lemma InLine(s: string, pos: nat, open: Option<Range>, i: nat)
    requires pos < |s| && ReadTo(s, pos, open) && i < |s| && !IsSpace(s[i]) && InReach(pos, open, i)
    ensures var next := LineEnd(s, pos);
            var line := s[pos..next];
            if IsBlank(line) then i < pos || InReach(next, None, i)
            else InReach(next, Some(Range(From(pos, open), pos + EndOfText(line))), i)
  {
    hide IsSpace, LineEnd;
    var next := LineEnd(s, pos);
    if pos + EndOfText(s[pos..next]) <= i < next { LineTail(s, pos, next, i); }
  }

  lemma {:induction false} TogetherIff(s: string, pos: nat, open: Option<Range>, i: nat, j: nat)
    requires ReadTo(s, pos, open) && i <= j < |s| && !IsSpace(s[i]) && !IsSpace(s[j])
    requires InReach(pos, open, i) && InReach(pos, open, j)
    ensures Together(Paragraphs(s, pos, open), i, j) <==> !BlankLineBetween(s, i, j)
    decreases |s| - pos
  {
    hide IsSpace, IsBlank, EndOfText, LineEnd, BlankLineAt, Ordered;
    if pos == |s| {
      assert open.value in Paragraphs(s, pos, open);
    } else {
      var next := LineEnd(s, pos);
      var line := s[pos..next];
      LineGoesOn(s, pos, open);
      InLine(s, pos, open, i);
      InLine(s, pos, open, j);
      if IsBlank(line) {
        var rest := Paragraphs(s, next, None);
        TogetherJoin(Closed(open), rest, i, j);
        ParagraphsOrdered(s, next, None);
        if i < pos { ApartBefore(next, |s|, rest, i, j); } else { TogetherIff(s, next, None, i, j); }
        if j < pos { assert open.value in Closed(open); }
      } else {
        TogetherIff(s, next, Some(Range(From(pos, open), pos + EndOfText(line))), i, j);
      }
    }
  }

  /** Two characters that are not white space are in one paragraph exactly if no blank line is between them. */
  lemma SameParagraphIff(s: string, i: nat, j: nat)
    requires i <= j < |s| && !IsSpace(s[i]) && !IsSpace(s[j])
    ensures Together(Paragraphs(s, 0, None), i, j) <==> !BlankLineBetween(s, i, j)
  {
    TogetherIff(s, 0, None, i, j);
  }

  lemma {:induction false} EdgesFrom(s: string, pos: nat, open: Option<Range>, p: Range)
    requires ReadTo(s, pos, open) && p in Paragraphs(s, pos, open)
    ensures p.start < p.end <= |s| && LineBegins(s, p.start) && !BlankLineAt(s, p.start) && !IsSpace(s[p.end - 1])
    decreases |s| - pos
  {
    hide IsSpace, IsBlank, EndOfText, LineEnd, BlankLineAt;
    if pos < |s| {
      var next := LineEnd(s, pos);
      LineGoesOn(s, pos, open);
      if IsBlank(s[pos..next]) {
        if p !in Closed(open) { EdgesFrom(s, next, None, p); }
      } else {
        EdgesFrom(s, next, Some(Range(From(pos, open), pos + EndOfText(s[pos..next]))), p);
      }
    }
  }

  /** A paragraph goes from the beginning of a line that is not blank to a character that is not white space. */
  lemma ParagraphEdges(s: string, p: Range)
    requires p in Paragraphs(s, 0, None)
    ensures p.start < p.end <= |s| && LineBegins(s, p.start) && !BlankLineAt(s, p.start) && !IsSpace(s[p.end - 1])
  {
    EdgesFrom(s, 0, None, p);
  }

  // ── Lines ────────────────────────────────────────────────────

  lemma LineMark(s: string, pos: nat, i: nat)
    requires pos < |s| && pos <= i < LineEnd(s, pos) && !IsSpace(s[i])
    ensures var kept := EndOfText(s[pos..LineEnd(s, pos)]);
            kept > 0 && i < pos + kept
  {
    hide IsSpace, LineEnd;
    var next := LineEnd(s, pos);
    if pos + EndOfText(s[pos..next]) <= i { LineTail(s, pos, next, i); }
  }

  lemma {:induction false} LinesTogetherIff(s: string, pos: nat, i: nat, j: nat)
    requires pos <= i <= j < |s| && !IsSpace(s[i]) && !IsSpace(s[j])
    ensures Together(LineMarks(s, pos), i, j) <==> forall k :: i <= k < j ==> s[k] != '\n'
    decreases |s| - pos
  {
    hide IsSpace, EndOfText, LineEnd, Ordered;
    var next := LineEnd(s, pos);
    var kept := EndOfText(s[pos..next]);
    var first, rest := if kept == 0 then [] else [Range(pos, pos + kept)], LineMarks(s, next);
    TogetherJoin(first, rest, i, j);
    LineMarksOrdered(s, next);
    if next <= i {
      LinesTogetherIff(s, next, i, j);
    } else {
      ApartBefore(next, |s|, rest, i, j);
      LineMark(s, pos, i);
      assert first == [Range(pos, pos + kept)];
      if j < next {
        LineMark(s, pos, j);
        assert Range(pos, pos + kept) in first;
        forall k | i <= k < j
          ensures s[k] != '\n'
        {
          LineEndFacts(s, pos, k);
        }
      } else {
        LineEndFacts(s, pos, pos);
        assert s[next - 1] == '\n';
      }
    }
  }

  /** Two characters that are not white space are in one line exactly if no line feed is between them. */
  lemma SameLineIff(s: string, i: nat, j: nat)
    requires i <= j < |s| && !IsSpace(s[i]) && !IsSpace(s[j])
    ensures Together(LineMarks(s, 0), i, j) <==> forall k :: i <= k < j ==> s[k] != '\n'
  {
    LinesTogetherIff(s, 0, i, j);
  }

  /** A line goes from its beginning to its last character that is not white space. */
  lemma {:induction false} LineEdges(s: string, pos: nat, m: Range)
    requires pos <= |s| && (pos == |s| || LineBegins(s, pos)) && m in LineMarks(s, pos)
    ensures m.start < m.end <= |s| && LineBegins(s, m.start) && !IsSpace(s[m.end - 1])
    decreases |s| - pos
  {
    hide IsSpace, EndOfText, LineEnd;
    var next := LineEnd(s, pos);
    var kept := EndOfText(s[pos..next]);
    if m == Range(pos, pos + kept) && kept > 0 {
      TextEndsAt(s[pos..next], 0);
      assert s[pos..next][kept - 1] == s[pos + kept - 1];
    } else {
      if next < |s| { NextLineBegins(s, pos); }
      LineEdges(s, next, m);
    }
  }

  // ── Atoms ────────────────────────────────────────────────────

  /** A line that fits, or a piece of one that does not. */
  ghost predicate OfLine(s: string, l: Range, limit: nat, m: Range)
    requires l.start < l.end <= |s| && limit >= 4
  {
    if Fits(s, l, limit) then m == l else m in Pieces(s, l.start, l.end, limit)
  }

  /** A paragraph that fits, or what its lines make. */
  ghost predicate OfParagraph(s: string, p: Range, limit: nat, m: Range)
    requires p.start < p.end <= |s| && limit >= 4
  {
    if Fits(s, p, limit) then m == p
    else exists l :: l in LinesIn(s, p) && l.start < l.end <= |s| && OfLine(s, l, limit, m)
  }

  lemma {:induction false} LineAtomsAre(s: string, from: nat, to: nat, lines: seq<Range>, limit: nat, m: Range)
    requires Ordered(from, to, lines) && to <= |s| && limit >= 4
    ensures m in LineAtoms(s, from, to, lines, limit) <==>
            exists l :: l in lines && l.start < l.end <= |s| && OfLine(s, l, limit, m)
    decreases |lines|
  {
    hide Fits, Pieces;
    if lines != [] {
      OrderedBounds(from, to, lines, 0);
      assert lines == [lines[0]] + lines[1..];
      LineAtomsAre(s, lines[0].end, to, lines[1..], limit, m);
    }
  }

  lemma {:induction false} AtomsFromAre(s: string, from: nat, paragraphs: seq<Range>, limit: nat, m: Range)
    requires Ordered(from, |s|, paragraphs) && limit >= 4
    ensures m in AtomsFrom(s, from, paragraphs, limit) <==>
            exists p :: p in paragraphs && p.start < p.end <= |s| && OfParagraph(s, p, limit, m)
    decreases |paragraphs|
  {
    hide Fits, LinesIn, OfLine, LineAtoms;
    if paragraphs != [] {
      var p := paragraphs[0];
      OrderedBounds(from, |s|, paragraphs, 0);
      assert paragraphs == [p] + paragraphs[1..];
      LineAtomsAre(s, p.start, p.end, LinesIn(s, p), limit, m);
      AtomsFromAre(s, p.end, paragraphs[1..], limit, m);
    }
  }

  /** An atom is a paragraph that fits, or a line that fits of one that does not, or a piece of such a line. */
  lemma AtomsAre(s: string, limit: nat, m: Range)
    requires limit >= 4
    ensures m in Atoms(s, limit) <==>
            exists p :: p in Paragraphs(s, 0, None) && p.start < p.end <= |s| && OfParagraph(s, p, limit, m)
  {
    hide OfParagraph, Paragraphs, AtomsFrom;
    ParagraphsOrdered(s, 0, None);
    AtomsFromAre(s, 0, Paragraphs(s, 0, None), limit, m);
  }
}
