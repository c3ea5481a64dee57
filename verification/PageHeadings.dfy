/** What a page's chunks carry beside their text: the page, the kind, the size and the heading path. */
module PageHeadings {
  import opened Utf8
  import opened Text
  import opened ChunkRanges
  import opened ChunkWindows
  import opened PageChunks

  // ── Numerals ─────────────────────────────────────────────────

  predicate IsDigit(c: char) { '0' <= c <= '9' }

  /** The number a numeral stands for. */
  function ValueOf(s: string): nat
    requires forall c :: c in s ==> IsDigit(c)
  {
    if s == [] then 0
    else
      assert IsDigit(s[|s| - 1]) && forall c :: c in s[..|s| - 1] ==> c in s;
      10 * ValueOf(s[..|s| - 1]) + (s[|s| - 1] as nat - '0' as nat)
  }

  /** The decimal numeral of a number: its digits, without leading zeros. */
  ghost predicate Numeral(s: string, n: nat) {
    && s != [] && (forall c :: c in s ==> IsDigit(c)) && ValueOf(s) == n
    && (|s| > 1 ==> s[0] != '0')
  }

  lemma {:induction false} DecimalIsNumeral(n: nat)
    ensures Numeral(Decimal(n), n) && (n > 0 ==> Decimal(n)[0] != '0')
  {
    if n >= 10 {
      DecimalIsNumeral(n / 10);
      var front, s := Decimal(n / 10), Decimal(n);
      assert s == front + [Digit(n % 10)] && s[..|s| - 1] == front && s[0] == front[0];
    } else {
      assert Decimal(n) == [Digit(n)] && [Digit(n)][..0] == [];
    }
  }

  // ── Headings ─────────────────────────────────────────────────

  /** The heading of a section is what follows the marker in its first line, trimmed. */
  lemma HeadingOfSection(heading: string, rest: seq<string>)
    ensures Trimmed(heading, SectionHeading(["## " + heading] + rest))
  {
    var line := "## " + heading;
    assert SECTION_PREFIX <= line && line[3..] == heading;
    TrimIsTrimmed(heading);
  }

  /** A section that does not begin with a heading has none. */
  lemma NoHeading(section: seq<string>)
    requires section == [] || !("## " <= section[0])
    ensures SectionHeading(section) == ""
  {
  }

  /** The lines between timeline entries: three hyphens, carriage returns after them apart. */
  lemma {:induction false} BoundaryIff(line: string)
    ensures IsBoundary(line) <==> |line| >= 3 && line[..3] == "---" && forall i :: 3 <= i < |line| ==> line[i] == '\r'
  {
    if line != [] && line[|line| - 1] == '\r' {
      BoundaryIff(line[..|line| - 1]);
      if |line| > 3 { assert line[..|line| - 1][..3] == line[..3]; }
    } else if |line| == 3 {
      assert line[..3] == line;
    }
  }

  /** The heading of one of several parts: that of the whole, a blank, and the part's number of how many. */
  ghost predicate PartOf(path: string, heading: string, part: nat, total: nat) {
    exists x, y :: && Numeral(x, part) && Numeral(y, total)
                   && path == (if heading == "" then "" else heading + " ") + "[" + x + "/" + y + "]"
  }

  lemma PartHeadingIs(heading: string, part: nat, total: nat)
    ensures PartOf(PartHeadingPath(heading, part, total), heading, part, total)
  {
    hide Decimal, Numeral;
    DecimalIsNumeral(part);
    DecimalIsNumeral(total);
    var x, y := Decimal(part), Decimal(total);
    assert PartHeadingPath(heading, part, total)
        == (if heading == "" then "" else heading + " ") + "[" + x + "/" + y + "]";
  }

  // ── Chunks ───────────────────────────────────────────────────

  /** A slice of a text as a chunk: the page's slug, a quarter of its bytes as its tokens, its kind. */
  ghost predicate IsChunk(c: Chunk, slug: string, content: string, chunkType: string) {
    && c.pageSlug == slug && c.chunkType == chunkType
    && c.tokenCount == (if ByteLen(c.content) < 8 then 1 else ByteLen(c.content) / 4)
    && exists a, b :: 0 <= a <= b <= |content| && c.content == content[a..b]
  }

  /** Part `k` of a text: the whole under its own heading, or a numbered slice. */
  ghost predicate IsPart(c: Chunk, slug: string, heading: string, content: string, chunkType: string, k: nat, n: nat) {
    && IsChunk(c, slug, content, chunkType)
    && if n == 1 then c.headingPath == heading && c.content == content else PartOf(c.headingPath, heading, k + 1, n)
  }

  lemma PartsAreParts(slug: string, heading: string, content: string, chunkType: string, k: nat)
    requires k < |Parts(slug, heading, content, chunkType)|
    ensures var parts := Parts(slug, heading, content, chunkType);
            IsPart(parts[k], slug, heading, content, chunkType, k, |parts|)
  {
    hide PartOf, PartHeadingPath, ByteLen, ByteAtoms, Windowing, AtomWindows, Span;
    var windows := WindowsOf(content);
    if |windows| <= 1 {
      assert content == content[0..|content|];
    } else {
      PartHeadingIs(heading, k + 1, |windows|);
      var m := Span(content, AtomWindows(content)[k]);
      assert windows[k] == content[m.start..m.end];
    }
  }

  /** A chunk of the truth is a part of one of its sections, under that section's heading. */
  lemma {:induction false} SectionOfChunk(slug: string, sections: seq<seq<string>>, c: nat) returns (g: nat, k: nat)
    requires c < |SectionChunks(slug, sections)|
    ensures g < |sections|
    ensures var parts := Parts(slug, SectionHeading(sections[g]), JoinLines(sections[g]), "truth_section");
            && k < |parts| && SectionChunks(slug, sections)[c] == parts[k]
            && IsPart(parts[k], slug, SectionHeading(sections[g]), JoinLines(sections[g]), "truth_section", k, |parts|)
  {
    hide Parts, SectionHeading, JoinLines, IsPart;
    var first := Parts(slug, SectionHeading(sections[0]), JoinLines(sections[0]), "truth_section");
    if c < |first| {
      PartsAreParts(slug, SectionHeading(sections[0]), JoinLines(sections[0]), "truth_section", c);
      g, k := 0, c;
    } else {
      g, k := SectionOfChunk(slug, sections[1..], c - |first|);
      g := g + 1;
    }
  }

  /** A chunk of the timeline is a part of one of its entries, under the entry's first line with text. */
  lemma {:induction false} EntryOfChunk(slug: string, entries: seq<string>, c: nat) returns (e: nat, k: nat)
    requires c < |EntryChunks(slug, entries)|
    ensures e < |entries|
    ensures var parts := Parts(slug, FirstText(Lines(entries[e])), entries[e], "timeline_entry");
            && k < |parts| && EntryChunks(slug, entries)[c] == parts[k]
            && IsPart(parts[k], slug, FirstText(Lines(entries[e])), entries[e], "timeline_entry", k, |parts|)
  {
    hide Parts, FirstText, LinesFrom, IsPart;
    var first := Parts(slug, FirstText(Lines(entries[0])), entries[0], "timeline_entry");
    if c < |first| {
      PartsAreParts(slug, FirstText(Lines(entries[0])), entries[0], "timeline_entry", c);
      e, k := 0, c;
    } else {
      e, k := EntryOfChunk(slug, entries[1..], c - |first|);
      e := e + 1;
    }
  }

  /** The heading of an entry is its first line that is not blank, trimmed. */
  lemma HeadingOfEntry(entry: string) returns (l: nat)
    requires !IsBlank(entry)
    ensures l < |Lines(entry)| && Trimmed(Lines(entry)[l], FirstText(Lines(entry))) && FirstText(Lines(entry)) != []
    ensures forall k :: 0 <= k < l ==> IsBlank(Lines(entry)[k])
  {
    hide IsBlank, LinesFrom, FirstText, Trim, Trimmed;
    l := EntryHasHeading(entry);
    TrimIsTrimmed(Lines(entry)[l]);
  }
}
