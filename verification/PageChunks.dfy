/** A page's chunks: truth sections, timeline entries, and the parts of those that are too long. */
module PageChunks {
  import opened Utf8
  import opened Text
  import opened ChunkRanges
  import opened ChunkAtoms
  import opened ChunkWindows
  import opened TextSpan

  datatype Page = Page(slug: string, compiledTruth: string, timeline: string)

  /** The content hash, a function of the content, is left out. */
  datatype Chunk = Chunk(pageSlug: string, headingPath: string, content: string, tokenCount: nat, chunkType: string)

  function BuildChunk(slug: string, heading: string, content: string, chunkType: string): Chunk {
    Chunk(slug, heading, content, if ByteLen(content) / 4 > 1 then ByteLen(content) / 4 else 1, chunkType)
  }

  function PartHeadingPath(heading: string, part: nat, total: nat): string {
    var suffix := "[" + Decimal(part) + "/" + Decimal(total) + "]";
    if heading == [] then suffix else heading + " " + suffix
  }

  // ── Parts ────────────────────────────────────────────────────

  /** The first `n` of the parts of a text with more than one window. */
  function NumberedParts(slug: string, heading: string, windows: seq<string>, chunkType: string,
                         n: nat): (r: seq<Chunk>)
    requires n <= |windows|
    ensures |r| == n
    ensures forall k :: 0 <= k < n ==>
              r[k] == BuildChunk(slug, PartHeadingPath(heading, k + 1, |windows|), windows[k], chunkType)
  {
    if n == 0 then []
    else NumberedParts(slug, heading, windows, chunkType, n - 1)
         + [BuildChunk(slug, PartHeadingPath(heading, n, |windows|), windows[n - 1], chunkType)]
  }

  /** The chunks of one section or entry. */
  function Parts(slug: string, heading: string, content: string, chunkType: string): seq<Chunk> {
    var windows := WindowsOf(content);
    if |windows| <= 1 then [BuildChunk(slug, heading, content, chunkType)]
    else NumberedParts(slug, heading, windows, chunkType, |windows|)
  }

  method PushCappedChunks(chunks: seq<Chunk>, slug: string, heading: string, content: string, chunkType: string)
    returns (r: seq<Chunk>)
    ensures r == chunks + Parts(slug, heading, content, chunkType)
  {
    hide WindowsOf;
    var windows := SplitOversized(content);
    if |windows| <= 1 {
      return chunks + [BuildChunk(slug, heading, content, chunkType)];
    }
    var total := |windows|;
    r := chunks;
    for index := 0 to total
      invariant r == chunks + NumberedParts(slug, heading, windows, chunkType, index)
    {
      r := r + [BuildChunk(slug, PartHeadingPath(heading, index + 1, total), windows[index], chunkType)];
    }
  }

  /** The chunk holds the text's character `i`: its content is a slice of the text around it. */
  ghost predicate Holds(c: Chunk, text: string, i: nat) {
    exists a, b :: 0 <= a <= i < b <= |text| && c.content == text[a..b]
  }

  /** No character is lost, white space apart: each is in some part. */
  lemma PartsHold(slug: string, heading: string, content: string, chunkType: string, i: nat) returns (k: nat)
    requires i < |content| && !IsSpace(content[i])
    ensures k < |Parts(slug, heading, content, chunkType)|
    ensures Holds(Parts(slug, heading, content, chunkType)[k], content, i)
  {
    hide IsSpace, ByteAtoms, Windowing, AtomWindows, Atoms, Off;
    var windows := WindowsOf(content);
    if |windows| <= 1 {
      k := 0;
      assert content == content[0..|content|];
    } else {
      k := WindowsCover(content, AtomWindows(content), windows, i);
      var m := Span(content, AtomWindows(content)[k]);
      assert windows[k] == content[m.start..m.end];
    }
  }

  /** Several parts: each within the window, so of at most 440 tokens, and numbered 1 to n of n. */
  lemma PartsAreNumbered(slug: string, heading: string, content: string, chunkType: string, k: nat)
    requires 1 < |Parts(slug, heading, content, chunkType)| && k < |Parts(slug, heading, content, chunkType)|
    ensures var parts := Parts(slug, heading, content, chunkType);
            && parts[k].headingPath == PartHeadingPath(heading, k + 1, |parts|)
            && parts[k].tokenCount <= 440
  {
    hide ByteAtoms, Atoms, Off, Chain;
    var windows := WindowsOf(content);
    var ws := AtomWindows(content);
    AllGreedy(ByteAtoms(content), ws);
    assert ws[k] in ws;
    WindowText(content, ws[k]);
  }

  /** Different parts of a text have different headings. */
  lemma PartHeadingsDiffer(heading: string, j: nat, k: nat, total: nat)
    requires j != k
    ensures PartHeadingPath(heading, j, total) != PartHeadingPath(heading, k, total)
  {
    hide Decimal;
    var front := if heading == [] then "[" else heading + " " + "[";
    var back := "/" + Decimal(total) + "]";
    var p, q := PartHeadingPath(heading, j, total), PartHeadingPath(heading, k, total);
    assert p == front + Decimal(j) + back && q == front + Decimal(k) + back;
    if p == q {
      assert p[|front|..|p| - |back|] == Decimal(j) && q[|front|..|q| - |back|] == Decimal(k);
      DecimalIsInjective(j, k);
    }
  }

  /** One part: the whole text, under its own heading. */
  lemma OnePartIsWhole(slug: string, heading: string, content: string, chunkType: string)
    requires |Parts(slug, heading, content, chunkType)| == 1
    ensures Parts(slug, heading, content, chunkType)[0] == BuildChunk(slug, heading, content, chunkType)
  {
    hide WindowsOf;
  }

  /** From the start of the first line with text to the end of the text: what the windows divide. */
  predicate TextFitsOneWindow(s: string) {
    IsBlank(s) || Off(s, EndOfText(s)) <= Off(s, TextStart(s, 0)) + WINDOW_BYTES
  }

  ghost predicate ExceedsCap(chunks: seq<Chunk>) { exists c :: c in chunks && c.tokenCount > MAX_CHUNK_TOKENS }

  /**
   The texts that are too long for one chunk and pushed whole: at least 1924 bytes, but no more than
   1760 from the start of the first line with text to the end of the text.
  */
  predicate PushedOverCap(s: string) { ByteLen(s) >= 4 * (MAX_CHUNK_TOKENS + 1) && TextFitsOneWindow(s) }

  /** The cap on tokens fails for exactly those. */
  lemma CapFailsIff(slug: string, heading: string, content: string, chunkType: string)
    ensures ExceedsCap(Parts(slug, heading, content, chunkType)) <==> PushedOverCap(content)
  {
    hide WindowsOf, ByteAtoms, ByteLen, AtomWindows, TextFitsOneWindow;
    var parts := Parts(slug, heading, content, chunkType);
    OneWindowIff(content);
    if |parts| == 1 {
      OnePartIsWhole(slug, heading, content, chunkType);
      assert parts[0].tokenCount > MAX_CHUNK_TOKENS <==> ByteLen(content) >= 4 * (MAX_CHUNK_TOKENS + 1);
    } else {
      forall k | 0 <= k < |parts|
        ensures parts[k].tokenCount <= MAX_CHUNK_TOKENS
      {
        PartsAreNumbered(slug, heading, content, chunkType, k);
      }
    }
  }

  /** A letter and many blanks after it. */
  function LetterAndBlanks(blanks: nat): string { ['a'] + seq(blanks, _ => ' ') }

  lemma LetterSpan(blanks: nat)
    ensures var s := LetterAndBlanks(blanks);
            TextFitsOneWindow(s) && ByteLen(s) == blanks + 1
  {
    hide LineEnd;
    var s := LetterAndBlanks(blanks);
    assert s[0] == 'a' && forall i :: 0 < i < |s| ==> s[i] == ' ';
    TextBefore(s, 0);
    TextEndsAt(s, EndOfText(s) - 1);
    assert EndOfText(s) == 1;
    var line := s[0..LineEnd(s, 0)];
    assert line[0] == 'a' && TextStart(s, 0) == 0;
    NarrowBytes(s, 1);
    NarrowBytes(s, |s|);
  }

  lemma {:induction false} NarrowBytes(s: string, n: nat)
    requires n <= |s| && forall i :: 0 <= i < |s| ==> Width(s[i]) == 1
    ensures Off(s, n) == n
  {
    if n > 0 { NarrowBytes(s, n - 1); }
  }

  /** The atoms, in bytes, reach from the first line with text to the end of the text. */
  lemma ByteAtomsSpan(s: string)
    ensures ByteAtoms(s) == [] <==> IsBlank(s)
    ensures !IsBlank(s) ==>
              && ByteAtoms(s)[0].start == Off(s, TextStart(s, 0))
              && ByteAtoms(s)[|ByteAtoms(s)| - 1].end == Off(s, EndOfText(s))
  {
    hide Atoms, Off, IsBlank;
    NoAtomsIffBlank(s);
    if !IsBlank(s) {
      var atoms := Atoms(s, WINDOW_BYTES);
      AtomsSpan(s, WINDOW_BYTES);
      ByteRangesAt(s, 0, atoms, 0);
      ByteRangesAt(s, 0, atoms, |atoms| - 1);
    }
  }

  lemma OneWindowIff(s: string)
    ensures |WindowsOf(s)| >= 1
    ensures ByteLen(s) > MAX_CHUNK_TOKENS * APPROX_BYTES_PER_TOKEN ==> (|WindowsOf(s)| == 1 <==> TextFitsOneWindow(s))
  {
    hide Atoms, ByteAtoms, ByteLen, Chain, Off, IsBlank, TextStart, EndOfText;
    ByteAtomFacts(s, 0);
    ByteAtomsSpan(s);
    if !WholeWindow(s) {
      var atoms, ws := ByteAtoms(s), AtomWindows(s);
      ChainHead(atoms, ws);
      if |ws| > 1 { WindowStops(atoms, ws, 1); }
      if ws[0].last + 1 < |atoms| {
        assert atoms[ws[0].last + 1].end <= atoms[|atoms| - 1].end;
      }
    }
  }

  // ── Truth sections ───────────────────────────────────────────

  const SECTION_PREFIX: string := "## "

  predicate IsHeading(line: string) { SECTION_PREFIX <= line }

  /** The sections of the remaining lines; `current` is the section being read. */
  function Sections(lines: seq<string>, current: seq<string>): seq<seq<string>>
    decreases |lines|
  {
    if lines == [] then (if current == [] then [] else [current])
    else if IsHeading(lines[0]) && current != [] then [current] + Sections(lines[1..], [lines[0]])
    else Sections(lines[1..], current + [lines[0]])
  }

  /** No line is lost or moved. */
  lemma {:induction false} SectionsKeepLines(lines: seq<string>, current: seq<string>)
    ensures Flatten(Sections(lines, current)) == current + lines
    decreases |lines|
  {
    if lines != [] {
      var now := if IsHeading(lines[0]) && current != [] then [lines[0]] else current + [lines[0]];
      SectionsKeepLines(lines[1..], now);
      assert lines == [lines[0]] + lines[1..];
    }
  }

  ghost predicate HeadingOnlyFirst(section: seq<string>) {
    section != [] && forall k :: 0 < k < |section| ==> !IsHeading(section[k])
  }

  /** A heading is the first line of its section, and every section after the first has one. */
  lemma {:induction false} SectionsStartAtHeadings(lines: seq<string>, current: seq<string>, k: nat)
    requires current == [] || HeadingOnlyFirst(current)
    requires k < |Sections(lines, current)|
    ensures HeadingOnlyFirst(Sections(lines, current)[k])
    ensures k > 0 ==> IsHeading(Sections(lines, current)[k][0])
    ensures k == 0 && current != [] ==> current <= Sections(lines, current)[0]
    decreases |lines|
  {
    if lines != [] {
      if IsHeading(lines[0]) && current != [] {
        if k > 0 { SectionsStartAtHeadings(lines[1..], [lines[0]], k - 1); }
      } else {
        SectionsStartAtHeadings(lines[1..], current + [lines[0]], k);
      }
    }
  }

  /** The heading path of a section: the trimmed text of its own heading. */
  function SectionHeading(section: seq<string>): string {
    if section != [] && IsHeading(section[0]) then Trim(section[0][3..]) else ""
  }

  function SectionChunks(slug: string, sections: seq<seq<string>>): seq<Chunk> {
    if sections == [] then []
    else
      Parts(slug, SectionHeading(sections[0]), JoinLines(sections[0]), "truth_section")
      + SectionChunks(slug, sections[1..])
  }

  method TruthChunks(page: Page) returns (chunks: seq<Chunk>)
    ensures chunks == SectionChunks(page.slug, Sections(Lines(Trim(page.compiledTruth)), []))
  {
    hide Parts, Trim, LinesFrom, JoinLines;
    var content := Trim(page.compiledTruth);
    if content == [] {
      NoLines(content);
      return [];
    }
    chunks := [];
    var currentHeading: string := [];
    var currentLines: seq<string> := [];
    var sawHeading := false;
    var todo := Lines(content);
    while todo != []
      invariant sawHeading || currentHeading == []
      invariant currentHeading == SectionHeading(currentLines)
      invariant chunks + SectionChunks(page.slug, Sections(todo, currentLines))
             == SectionChunks(page.slug, Sections(Lines(content), []))
      decreases |todo|
    {
      var line := todo[0];
      SectionStep(page.slug, chunks, todo, currentLines);
      if SECTION_PREFIX <= line {
        sawHeading := true;
        if currentLines != [] {
          chunks := PushCappedChunks(chunks, page.slug, currentHeading, JoinLines(currentLines), "truth_section");
          currentLines := [];
        }
        currentHeading := Trim(line[3..]);
      }
      assert [] + [line] == [line];
      currentLines := currentLines + [line];
      todo := todo[1..];
    }
    if currentLines != [] {
      var heading := if sawHeading then currentHeading else "";
      chunks := PushCappedChunks(chunks, page.slug, heading, JoinLines(currentLines), "truth_section");
    }
  }

  /** What one line adds. */
  lemma SectionStep(slug: string, chunks: seq<Chunk>, lines: seq<string>, current: seq<string>)
    requires lines != []
    ensures chunks + SectionChunks(slug, Sections(lines, current)) ==
            if IsHeading(lines[0]) && current != [] then
              chunks + Parts(slug, SectionHeading(current), JoinLines(current), "truth_section")
              + SectionChunks(slug, Sections(lines[1..], [lines[0]]))
            else chunks + SectionChunks(slug, Sections(lines[1..], current + [lines[0]]))
  {
  }

  lemma NoLines(s: string)
    requires s == []
    ensures Lines(s) == []
  {
  }

  /** Where a line of a flattened list comes from. */
  lemma {:induction false} LineOfSection(sections: seq<seq<string>>, l: nat) returns (g: nat, h: nat)
    requires l < |Flatten(sections)|
    ensures g < |sections| && h < |sections[g]| && sections[g][h] == Flatten(sections)[l]
    decreases |sections|
  {
    if l < |sections[0]| {
      g, h := 0, l;
    } else {
      g, h := LineOfSection(sections[1..], l - |sections[0]|);
      g := g + 1;
    }
  }

  lemma {:induction false} SectionChunkAt(slug: string, sections: seq<seq<string>>, g: nat, k: nat) returns (c: nat)
    requires g < |sections|
    requires k < |Parts(slug, SectionHeading(sections[g]), JoinLines(sections[g]), "truth_section")|
    ensures c < |SectionChunks(slug, sections)|
    ensures SectionChunks(slug, sections)[c]
         == Parts(slug, SectionHeading(sections[g]), JoinLines(sections[g]), "truth_section")[k]
    decreases g
  {
    hide Parts, SectionHeading, JoinLines;
    if g == 0 {
      c := k;
    } else {
      c := SectionChunkAt(slug, sections[1..], g - 1, k);
      c := |Parts(slug, SectionHeading(sections[0]), JoinLines(sections[0]), "truth_section")| + c;
    }
  }

  /** The chunk holds the page character `i`: it is a slice of a text that has this character in one of its lines. */
  ghost predicate Reaches(c: Chunk, s: string, i: nat, lines: seq<string>, h: nat, start: nat) {
    && h < |lines| && start <= i < start + |lines[h]| <= |s| && lines[h] == s[start..start + |lines[h]|]
    && Holds(c, JoinLines(lines), LineStart(lines, h) + (i - start))
  }

  /** Every character of the truth that is not white space is in a chunk. */
  lemma TruthReachesChunk(page: Page, i: nat) returns (c: nat, section: seq<string>, h: nat, start: nat)
    requires i < |page.compiledTruth| && !IsSpace(page.compiledTruth[i])
    ensures var sections := Sections(Lines(Trim(page.compiledTruth)), []);
            && section in sections && c < |SectionChunks(page.slug, sections)|
            && Reaches(SectionChunks(page.slug, sections)[c], page.compiledTruth, i, section, h, start)
  {
    hide *;
    var s := page.compiledTruth;
    var l, from := LineHolding(s, i);
    var lines := Lines(Trim(s));
    var sections := Sections(lines, []);
    SectionsKeepLines(lines, []);
    assert [] + lines == lines;
    var g: nat;
    g, h := LineOfSection(sections, l);
    section, start := sections[g], from;
    JoinedLineAt(section, h, i - start);
    var at := LineStart(section, h) + (i - start);
    var k := PartsHold(page.slug, SectionHeading(section), JoinLines(section), "truth_section", at);
    c := SectionChunkAt(page.slug, sections, g, k);
    ReachesIntro(SectionChunks(page.slug, sections)[c], s, i, section, h, start);
  }

  lemma ReachesIntro(c: Chunk, s: string, i: nat, lines: seq<string>, h: nat, start: nat)
    requires h < |lines| && start <= i < start + |lines[h]| <= |s| && lines[h] == s[start..start + |lines[h]|]
    requires Holds(c, JoinLines(lines), LineStart(lines, h) + (i - start))
    ensures Reaches(c, s, i, lines, h, start)
  {
  }

  /** The line of the trimmed text that has the character `i`. */
  lemma LineHolding(s: string, i: nat) returns (l: nat, start: nat)
    requires i < |s| && !IsSpace(s[i])
    ensures l < |Lines(Trim(s))| && start <= i < start + |Lines(Trim(s))[l]| <= |s|
    ensures Lines(Trim(s))[l] == s[start..start + |Lines(Trim(s))[l]|] && Lines(Trim(s))[l][i - start] == s[i]
  {
    hide IsSpace, Trim, LinesFrom;
    var a := TrimKeeps(s, i);
    var t := Trim(s);
    assert t[i - a] == s[i];
    var from: nat;
    l, from := CharInLine(t, 0, i - a);
    start := a + from;
    SliceOfSlice(s, a, a + |t|, from, from + |Lines(t)[l]|);
  }

  lemma SliceOfSlice(s: string, a: nat, b: nat, c: nat, d: nat)
    requires a <= b <= |s| && c <= d <= b - a
    ensures s[a..b][c..d] == s[a + c..a + d]
  {
    var x, y := s[a..b][c..d], s[a + c..a + d];
    assert forall k :: 0 <= k < d - c ==> x[k] == s[a..b][c + k] == s[a + c + k] == y[k];
  }

  // ── Timeline entries ─────────────────────────────────────────

  /** `trim_end_matches('\r')`. */
  function DropReturns(line: string): string {
    if line != [] && line[|line| - 1] == '\r' then DropReturns(line[..|line| - 1]) else line
  }

  predicate IsBoundary(line: string) { DropReturns(line) == "---" }

  /** The lines between boundaries; `current` is the group being read. */
  function Groups(lines: seq<string>, current: seq<string>): seq<seq<string>>
    decreases |lines|
  {
    var closed := if current == [] then [] else [current];
    if lines == [] then closed
    else if IsBoundary(lines[0]) then closed + Groups(lines[1..], [])
    else Groups(lines[1..], current + [lines[0]])
  }

  function OtherLines(lines: seq<string>): seq<string> {
    if lines == [] then [] else (if IsBoundary(lines[0]) then [] else [lines[0]]) + OtherLines(lines[1..])
  }

  /** The groups are the lines that are not boundaries, each line once and in order. */
  lemma {:induction false} GroupsPartition(lines: seq<string>, current: seq<string>)
    ensures Flatten(Groups(lines, current)) == current + OtherLines(lines)
    decreases |lines|
  {
    hide IsBoundary;
    if lines != [] {
      if IsBoundary(lines[0]) {
        GroupsPartition(lines[1..], []);
        FlattenClosed(current, Groups(lines[1..], []));
      } else {
        GroupsPartition(lines[1..], current + [lines[0]]);
      }
    }
  }

  lemma FlattenClosed(current: seq<string>, rest: seq<seq<string>>)
    ensures Flatten((if current == [] then [] else [current]) + rest) == current + Flatten(rest)
  {
    if current == [] { assert [] + rest == rest; } else { assert ([current] + rest)[1..] == rest; }
  }

  lemma {:induction false} GroupsHaveNoBoundary(lines: seq<string>, current: seq<string>, g: nat)
    requires forall line :: line in current ==> !IsBoundary(line)
    requires g < |Groups(lines, current)|
    ensures Groups(lines, current)[g] != [] && forall line :: line in Groups(lines, current)[g] ==> !IsBoundary(line)
    decreases |lines|
  {
    hide IsBoundary;
    if lines != [] {
      if IsBoundary(lines[0]) {
        if current == [] { GroupsHaveNoBoundary(lines[1..], [], g); }
        else if g > 0 { GroupsHaveNoBoundary(lines[1..], [], g - 1); }
      } else {
        GroupsHaveNoBoundary(lines[1..], current + [lines[0]], g);
      }
    }
  }

  /** Lines without a boundary among them are one group. */
  lemma {:induction false} GroupsOfRun(lines: seq<string>, current: seq<string>)
    requires forall line :: line in lines ==> !IsBoundary(line)
    ensures Groups(lines, current) == if current + lines == [] then [] else [current + lines]
    decreases |lines|
  {
    hide IsBoundary;
    if lines == [] {
      assert current + lines == current;
    } else {
      GroupsOfRun(lines[1..], current + [lines[0]]);
      assert current + [lines[0]] + lines[1..] == current + lines;
    }
  }

  /** A boundary parts the groups before it from those after it. */
  lemma {:induction false} BoundaryParts(lines: seq<string>, boundary: string, rest: seq<string>, current: seq<string>)
    requires IsBoundary(boundary)
    ensures Groups(lines + [boundary] + rest, current) == Groups(lines, current) + Groups(rest, [])
    decreases |lines|
  {
    hide IsBoundary;
    var all := lines + [boundary] + rest;
    if lines == [] {
      assert all[0] == boundary && all[1..] == rest;
    } else {
      assert all[0] == lines[0] && all[1..] == lines[1..] + [boundary] + rest;
      if IsBoundary(lines[0]) { BoundaryParts(lines[1..], boundary, rest, []); }
      else { BoundaryParts(lines[1..], boundary, rest, current + [lines[0]]); }
    }
  }

  /** `Vec::join` on every group. */
  function Joined(groups: seq<seq<string>>): (r: seq<string>)
    ensures |r| == |groups|
  {
    if groups == [] then [] else [JoinLines(groups[0])] + Joined(groups[1..])
  }

  /** Blank entries are dropped. */
  function WithText(entries: seq<string>): seq<string> {
    if entries == [] then [] else (if IsBlank(entries[0]) then [] else [entries[0]]) + WithText(entries[1..])
  }

  lemma {:induction false} WithTextAre(entries: seq<string>, entry: string)
    ensures entry in WithText(entries) <==> entry in entries && !IsBlank(entry)
  {
    hide IsBlank;
    if entries != [] {
      assert entries == [entries[0]] + entries[1..];
      WithTextAre(entries[1..], entry);
    }
  }

  function Entries(timeline: string): seq<string> { WithText(Joined(Groups(Lines(timeline), []))) }

  lemma GroupStep(entries: seq<string>, lines: seq<string>, current: seq<string>)
    requires lines != []
    ensures entries + Joined(Groups(lines, current)) ==
            if IsBoundary(lines[0]) then
              (if current == [] then entries else entries + [JoinLines(current)]) + Joined(Groups(lines[1..], []))
            else entries + Joined(Groups(lines[1..], current + [lines[0]]))
  {
    hide IsBoundary, JoinLines;
    if IsBoundary(lines[0]) {
      if current == [] { assert [] + Groups(lines[1..], []) == Groups(lines[1..], []); }
      else { assert ([current] + Groups(lines[1..], []))[1..] == Groups(lines[1..], []); }
    }
  }

  lemma GroupsEnd(entries: seq<string>, current: seq<string>)
    ensures entries + Joined(Groups([], current)) == if current == [] then entries else entries + [JoinLines(current)]
  {
  }

  method SplitTimelineEntries(timeline: string) returns (r: seq<string>)
    ensures r == Entries(timeline)
  {
    hide IsBoundary, LinesFrom, JoinLines;
    var entries: seq<string> := [];
    var current: seq<string> := [];
    var todo := Lines(timeline);
    while todo != []
      invariant entries + Joined(Groups(todo, current)) == Joined(Groups(Lines(timeline), []))
      decreases |todo|
    {
      GroupStep(entries, todo, current);
      if IsBoundary(todo[0]) {
        if current != [] {
          entries := entries + [JoinLines(current)];
          current := [];
        }
      } else {
        current := current + [todo[0]];
      }
      todo := todo[1..];
    }
    GroupsEnd(entries, current);
    assert todo == [];
    if current != [] {
      entries := entries + [JoinLines(current)];
    }
    r := WithText(entries);
  }

  /** The heading of an entry: its first line with text, trimmed. */
  function FirstText(lines: seq<string>): string {
    if lines == [] then [] else if IsBlank(lines[0]) then FirstText(lines[1..]) else Trim(lines[0])
  }

  /** An entry always has a heading, and it is the trimmed text of one of its lines. */
  lemma EntryHasHeading(entry: string) returns (l: nat)
    requires !IsBlank(entry)
    ensures l < |Lines(entry)| && FirstText(Lines(entry)) == Trim(Lines(entry)[l]) != []
    ensures forall k :: 0 <= k < l ==> IsBlank(Lines(entry)[k])
  {
    hide LinesFrom, IsSpace, Trim, FirstText;
    var i :| 0 <= i < |entry| && !IsSpace(entry[i]);
    var m, start := CharInLine(entry, 0, i);
    assert Lines(entry)[m][i - start] == entry[i];
    l := FirstTextIn(Lines(entry), m);
  }

  lemma {:induction false} FirstTextIn(lines: seq<string>, m: nat) returns (l: nat)
    requires m < |lines| && !IsBlank(lines[m])
    ensures l < |lines| && FirstText(lines) == Trim(lines[l]) != []
    ensures forall k :: 0 <= k < l ==> IsBlank(lines[k])
    decreases m
  {
    hide IsSpace;
    if !IsBlank(lines[0]) {
      l := 0;
      TextEndsAt(lines[0], StartOfText(lines[0]));
    } else {
      l := FirstTextIn(lines[1..], m - 1);
      l := l + 1;
    }
  }

  function EntryChunks(slug: string, entries: seq<string>): seq<Chunk> {
    if entries == [] then []
    else Parts(slug, FirstText(Lines(entries[0])), entries[0], "timeline_entry") + EntryChunks(slug, entries[1..])
  }

  function TimelineChunksOf(page: Page): seq<Chunk> {
    if IsBlank(page.timeline) then [] else EntryChunks(page.slug, Entries(page.timeline))
  }

  method TimelineChunks(page: Page) returns (chunks: seq<Chunk>)
    ensures chunks == TimelineChunksOf(page)
  {
    hide Parts, FirstText, LinesFrom, Entries, IsBlank;
    if IsBlank(page.timeline) {
      return [];
    }
    chunks := [];
    var todo := SplitTimelineEntries(page.timeline);
    while todo != []
      invariant chunks + EntryChunks(page.slug, todo) == EntryChunks(page.slug, Entries(page.timeline))
      decreases |todo|
    {
      var entry := todo[0];
      chunks := PushCappedChunks(chunks, page.slug, FirstText(Lines(entry)), entry, "timeline_entry");
      todo := todo[1..];
    }
  }

  lemma {:induction false} EntryChunkAt(slug: string, entries: seq<string>, e: nat, k: nat) returns (c: nat)
    requires e < |entries| && k < |Parts(slug, FirstText(Lines(entries[e])), entries[e], "timeline_entry")|
    ensures c < |EntryChunks(slug, entries)|
    ensures EntryChunks(slug, entries)[c] == Parts(slug, FirstText(Lines(entries[e])), entries[e], "timeline_entry")[k]
    decreases e
  {
    hide Parts, FirstText, LinesFrom;
    if e == 0 {
      c := k;
    } else {
      c := EntryChunkAt(slug, entries[1..], e - 1, k);
      c := |Parts(slug, FirstText(Lines(entries[0])), entries[0], "timeline_entry")| + c;
    }
  }

  lemma {:induction false} KeptEntry(groups: seq<seq<string>>, g: nat) returns (e: nat)
    requires g < |groups| && !IsBlank(JoinLines(groups[g]))
    ensures e < |WithText(Joined(groups))| && WithText(Joined(groups))[e] == JoinLines(groups[g])
    decreases g
  {
    hide IsBlank, JoinLines;
    if g == 0 {
      e := 0;
    } else {
      e := KeptEntry(groups[1..], g - 1);
      e := e + if IsBlank(JoinLines(groups[0])) then 0 else 1;
    }
  }

  lemma {:induction false} OtherLineAt(lines: seq<string>, l: nat) returns (m: nat)
    requires l < |lines| && !IsBoundary(lines[l])
    ensures m < |OtherLines(lines)| && OtherLines(lines)[m] == lines[l]
    decreases l
  {
    hide IsBoundary;
    if l == 0 {
      m := 0;
    } else {
      m := OtherLineAt(lines[1..], l - 1);
      m := m + if IsBoundary(lines[0]) then 0 else 1;
    }
  }

  /** Every character of the timeline that is not white space, nor in a boundary line, is in a chunk. */
  lemma TimelineReachesChunk(page: Page, l: nat, j: nat) returns (c: nat, group: seq<string>, h: nat)
    requires l < |Lines(page.timeline)| && !IsBoundary(Lines(page.timeline)[l])
    requires j < |Lines(page.timeline)[l]| && !IsSpace(Lines(page.timeline)[l][j]) && !IsBlank(page.timeline)
    ensures group in Groups(Lines(page.timeline), []) && h < |group| && group[h] == Lines(page.timeline)[l]
    ensures c < |TimelineChunksOf(page)|
    ensures Holds(TimelineChunksOf(page)[c], JoinLines(group), LineStart(group, h) + j)
  {
    hide *;
    var lines := Lines(page.timeline);
    var groups := Groups(lines, []);
    var m := OtherLineAt(lines, l);
    GroupsPartition(lines, []);
    assert [] + OtherLines(lines) == OtherLines(lines);
    var g: nat;
    g, h := LineOfSection(groups, m);
    group := groups[g];
    JoinedLineAt(group, h, j);
    var entry := JoinLines(group);
    NotBlank(entry, LineStart(group, h) + j);
    var e := KeptEntry(groups, g);
    var k := PartsHold(page.slug, FirstText(Lines(entry)), entry, "timeline_entry", LineStart(group, h) + j);
    EntriesAre(page);
    c := EntryChunkAt(page.slug, Entries(page.timeline), e, k);
  }

  lemma NotBlank(s: string, i: nat)
    requires i < |s| && !IsSpace(s[i])
    ensures !IsBlank(s)
  {
  }

  lemma EntriesAre(page: Page)
    requires !IsBlank(page.timeline)
    ensures Entries(page.timeline) == WithText(Joined(Groups(Lines(page.timeline), [])))
    ensures TimelineChunksOf(page) == EntryChunks(page.slug, Entries(page.timeline))
  {
  }

  /** The chunks of a page: its sections', then its timeline entries'. */
  function ChunksOf(page: Page): seq<Chunk> {
    SectionChunks(page.slug, Sections(Lines(Trim(page.compiledTruth)), [])) + TimelineChunksOf(page)
  }

  method ChunkPage(page: Page) returns (chunks: seq<Chunk>)
    ensures chunks == ChunksOf(page)
  {
    hide SectionChunks, Sections, LinesFrom, Trim, TimelineChunksOf;
    chunks := TruthChunks(page);
    var timeline := TimelineChunks(page);
    chunks := chunks + timeline;
  }

  // ── The cap, page by page ────────────────────────────────────

  ghost predicate SectionOverCap(sections: seq<seq<string>>) {
    exists section :: section in sections && PushedOverCap(JoinLines(section))
  }

  lemma {:induction false} SectionsExceedCap(slug: string, sections: seq<seq<string>>)
    ensures ExceedsCap(SectionChunks(slug, sections)) <==> SectionOverCap(sections)
  {
    hide Parts, JoinLines, PushedOverCap, SectionHeading;
    if sections != [] {
      CapFailsIff(slug, SectionHeading(sections[0]), JoinLines(sections[0]), "truth_section");
      SectionsExceedCap(slug, sections[1..]);
      assert sections == [sections[0]] + sections[1..];
      assert SectionOverCap(sections) <==> PushedOverCap(JoinLines(sections[0])) || SectionOverCap(sections[1..]);
    }
  }

  lemma {:induction false} EntriesExceedCap(slug: string, entries: seq<string>)
    ensures ExceedsCap(EntryChunks(slug, entries)) <==> exists entry :: entry in entries && PushedOverCap(entry)
  {
    hide Parts, FirstText, LinesFrom, PushedOverCap;
    if entries != [] {
      CapFailsIff(slug, FirstText(Lines(entries[0])), entries[0], "timeline_entry");
      EntriesExceedCap(slug, entries[1..]);
    }
  }

  /** A page has a chunk over the cap exactly if one of its sections or timeline entries is pushed whole over it. */
  lemma PageCapFailsIff(page: Page)
    ensures ExceedsCap(ChunksOf(page)) <==>
            || SectionOverCap(Sections(Lines(Trim(page.compiledTruth)), []))
            || (!IsBlank(page.timeline) && exists entry :: entry in Entries(page.timeline) && PushedOverCap(entry))
  {
    hide SectionChunks, SectionOverCap, Sections, LinesFrom, Trim, EntryChunks, Entries, IsBlank, PushedOverCap;
    SectionsExceedCap(page.slug, Sections(Lines(Trim(page.compiledTruth)), []));
    EntriesExceedCap(page.slug, Entries(page.timeline));
  }

  /** A timeline of a letter and enough blanks makes one chunk, of any size over the cap. */
  lemma BlankTailExceedsCap(slug: string, blanks: nat)
    requires blanks >= 1923
    ensures var s := LetterAndBlanks(blanks);
            && ChunksOf(Page(slug, "", s)) == [Chunk(slug, "a", s, (blanks + 1) / 4, "timeline_entry")]
            && (blanks + 1) / 4 > MAX_CHUNK_TOKENS
  {
    hide WindowsOf, LinesFrom, TextFitsOneWindow, Parts, ByteLen, Entries, FirstText;
    var s := LetterAndBlanks(blanks);
    LetterSpan(blanks);
    LetterIsOneEntry(blanks);
    LetterIsOnePart(slug, blanks);
    assert Trim("") == "";
    NoLines("");
    assert Sections([], []) == [] && SectionChunks(slug, []) == [];
    assert EntryChunks(slug, [s]) == Parts(slug, "a", s, "timeline_entry") by { assert EntryChunks(slug, []) == []; }
    assert [s][1..] == [] && Parts(slug, "a", s, "timeline_entry") + [] == Parts(slug, "a", s, "timeline_entry");
  }

  lemma LetterIsOnePart(slug: string, blanks: nat)
    requires blanks >= 1923
    ensures var s := LetterAndBlanks(blanks);
            Parts(slug, "a", s, "timeline_entry") == [Chunk(slug, "a", s, (blanks + 1) / 4, "timeline_entry")]
  {
    hide WindowsOf, TextFitsOneWindow, ByteLen;
    var s := LetterAndBlanks(blanks);
    LetterSpan(blanks);
    OneWindowIff(s);
    OnePartIsWhole(slug, "a", s, "timeline_entry");
  }

  lemma LetterIsOneEntry(blanks: nat)
    requires blanks > 0
    ensures var s := LetterAndBlanks(blanks);
            Lines(s) == [s] && Entries(s) == [s] && !IsBlank(s) && FirstText([s]) == "a"
  {
    hide LineEnd, EndOfText, StartOfText;
    var s := LetterAndBlanks(blanks);
    assert s[0] == 'a' && forall i :: 0 < i < |s| ==> s[i] == ' ';
    LineEndFacts(s, 0, 0);
    assert LineEnd(s, 0) == |s| && s[0..|s|] == s;
    assert LinesFrom(s, |s|) == [];
    assert !IsBoundary(s) && Groups([], [s]) == [[s]] && [] + [s] == [s];
    assert Groups([s], []) == Groups([], [s]);
    TextBefore(s, 0);
    TextEndsAt(s, 0);
    assert Trim(s) == "a";
    assert Joined([[s]]) == [s] by { assert [[s]][1..] == [] && Joined([]) == []; }
    assert WithText([s]) == [s] by { assert [s][1..] == [] && WithText([]) == []; }
  }
}
