/** The `.quaidignore` editor: adding and removing one pattern, keeping every other line. */
module IgnoreFile {
  import opened Wrappers
  import opened Text

  // ── Lines of a string ────────────────────────────────────────

  predicate NoBreak(line: string) { '\n' !in line }

  /** LF text: no carriage returns. */
  predicate Plain(s: string) { '\r' !in s }

  lemma {:induction false} LineEndShift(s: string, a: nat, pos: nat)
    requires a <= pos < |s|
    ensures LineEnd(s, pos) == a + LineEnd(s[a..], pos - a)
    decreases |s| - pos
  {
    if s[pos] != '\n' && pos + 1 < |s| { LineEndShift(s, a, pos + 1); }
  }

  lemma {:induction false} LinesShift(s: string, a: nat, pos: nat)
    requires a <= pos <= |s|
    ensures LinesFrom(s, pos) == LinesFrom(s[a..], pos - a)
    decreases |s| - pos
  {
    hide ChompLine, LineEnd;
    if pos < |s| {
      LineEndShift(s, a, pos);
      var next := LineEnd(s, pos);
      LinesShift(s, a, next);
      assert s[a..][pos - a..next - a] == s[pos..next];
    }
  }

  lemma {:induction false} LineEndFound(line: string, rest: string, pos: nat)
    requires NoBreak(line) && pos <= |line|
    ensures LineEnd(line + ['\n'] + rest, pos) == |line| + 1
    decreases |line| - pos
  {
    var s := line + ['\n'] + rest;
    if pos < |line| {
      assert s[pos] == line[pos] && line[pos] in line;
      LineEndFound(line, rest, pos + 1);
    }
  }

  lemma {:induction false} NoLineEnd(line: string, pos: nat)
    requires NoBreak(line) && pos < |line|
    ensures LineEnd(line, pos) == |line|
    decreases |line| - pos
  {
    assert line[pos] in line;
    if pos + 1 < |line| { NoLineEnd(line, pos + 1); }
  }

  /** A terminated line comes first, without its line feed. */
  lemma LinesCons(line: string, rest: string)
    requires NoBreak(line)
    ensures Lines(line + ['\n'] + rest) == [ChompLine(line + ['\n'])] + Lines(rest)
  {
    hide LineEnd, ChompLine;
    var s := line + ['\n'] + rest;
    LineEndFound(line, rest, 0);
    assert s[0..|line| + 1] == line + ['\n'] && s[|line| + 1..] == rest;
    LinesShift(s, |line| + 1, |line| + 1);
  }

  /** An unterminated line is a line unless it is empty. */
  lemma LinesOne(line: string)
    requires NoBreak(line)
    ensures Lines(line) == if line == [] then [] else [line]
  {
    if line != [] {
      NoLineEnd(line, 0);
      assert line[0..|line|] == line;
      assert line[|line| - 1] in line;
      assert LinesFrom(line, |line|) == [];
    }
  }

  lemma ChompPlain(line: string)
    requires Plain(line)
    ensures ChompLine(line + ['\n']) == line
  {
    assert line != [] ==> line[|line| - 1] in line;
    ChompsLineEnding(line);
  }

  ghost predicate PlainLines(lines: seq<string>) { forall line :: line in lines ==> NoBreak(line) && Plain(line) }

  /** The lines of LF text are plain. */
  lemma {:induction false} LinesArePlain(s: string, pos: nat)
    requires Plain(s) && pos <= |s|
    ensures PlainLines(LinesFrom(s, pos))
    decreases |s| - pos
  {
    hide ChompLine, LineEnd;
    if pos < |s| {
      LinesArePlain(s, LineEnd(s, pos));
      FirstLineIsPlain(s, pos);
    }
  }

  lemma FirstLineIsPlain(s: string, pos: nat)
    requires Plain(s) && pos < |s|
    ensures var line := ChompLine(s[pos..LineEnd(s, pos)]); NoBreak(line) && Plain(line)
  {
    var e := LineEnd(s, pos);
    BeforeLineEnd(s, pos);
    var line := ChompLine(s[pos..e]);
    forall k | 0 <= k < |line|
      ensures line[k] != '\n' && line[k] != '\r'
    {
      assert line[k] == s[pos + k] && s[pos + k] in s;
    }
  }

  lemma {:induction false} BeforeLineEnd(s: string, pos: nat)
    requires pos < |s|
    ensures forall k :: pos <= k < LineEnd(s, pos) - 1 ==> s[k] != '\n'
    ensures LineEnd(s, pos) < |s| ==> s[LineEnd(s, pos) - 1] == '\n'
    decreases |s| - pos
  {
    if s[pos] != '\n' && pos + 1 < |s| { BeforeLineEnd(s, pos + 1); }
  }

  // ── Rendering lines and reading them back ────────────────────

  lemma {:induction false} JoinTerminated(lines: seq<string>)
    requires lines != []
    ensures JoinLines(lines) + ['\n'] == Terminated(lines, '\n')
  {
    if |lines| == 1 {
      assert Terminated(lines[1..], '\n') == [];
    } else {
      JoinTerminated(lines[1..]);
      assert JoinLines(lines) + ['\n'] == lines[0] + ['\n'] + (JoinLines(lines[1..]) + ['\n']);
    }
  }

  lemma {:induction false} TerminatedLines(lines: seq<string>, rest: string)
    requires PlainLines(lines)
    ensures Lines(Terminated(lines, '\n') + rest) == lines + Lines(rest)
    decreases |lines|
  {
    hide LinesFrom, ChompLine;
    if lines == [] {
      assert Terminated(lines, '\n') + rest == rest;
    } else {
      TerminatedLines(lines[1..], rest);
      assert Terminated(lines, '\n') + rest == lines[0] + ['\n'] + (Terminated(lines[1..], '\n') + rest);
      LinesCons(lines[0], Terminated(lines[1..], '\n') + rest);
      ChompPlain(lines[0]);
    }
  }

  /** Joined lines without a final newline lose a last line that is empty. */
  lemma {:induction false} JoinedLines(lines: seq<string>)
    requires PlainLines(lines) && lines != []
    ensures Lines(JoinLines(lines)) == if lines[|lines| - 1] == [] then lines[..|lines| - 1] else lines
    decreases |lines|
  {
    hide LinesFrom, ChompLine;
    if |lines| == 1 {
      LinesOne(lines[0]);
    } else {
      JoinedLines(lines[1..]);
      LinesCons(lines[0], JoinLines(lines[1..]));
      ChompPlain(lines[0]);
    }
  }

  /** A text with a missing last newline supplied. */
  function Completed(t: string): string { if t == [] || t[|t| - 1] == '\n' then t else t + ['\n'] }

  lemma CompletedJoin(front: string, rest: string)
    requires front != [] && (rest != [] ==> front[|front| - 1] == '\n')
    ensures Completed(front + rest) == Completed(front) + Completed(rest)
  {
    if rest == [] {
      assert front + rest == front;
    } else {
      assert (front + rest)[|front + rest| - 1] == rest[|rest| - 1];
    }
  }

  /** LF text is its lines, terminated, but for a missing last newline. */
  lemma {:induction false} TextIsLines(s: string, pos: nat)
    requires Plain(s) && pos <= |s|
    ensures Terminated(LinesFrom(s, pos), '\n') == Completed(s[pos..])
    decreases |s| - pos
  {
    hide ChompLine, LineEnd, Terminated, Completed, Plain;
    if pos < |s| {
      var next := LineEnd(s, pos);
      TextIsLines(s, next);
      LineOfText(s, pos);
      CompletedJoin(s[pos..next], s[next..]);
      assert s[pos..next] + s[next..] == s[pos..];
      TerminatedCons(ChompLine(s[pos..next]), LinesFrom(s, next), '\n');
    } else {
      NothingCompleted();
      assert s[pos..] == "";
    }
  }

  lemma NothingCompleted()
    ensures Terminated<char>([], '\n') == Completed("") == ""
  {
  }

  lemma LineOfText(s: string, pos: nat)
    requires Plain(s) && pos < |s|
    ensures var e := LineEnd(s, pos);
            var t := s[pos..e];
            && pos < e <= |s| && (e < |s| ==> t[|t| - 1] == '\n') && ChompLine(t) + ['\n'] == Completed(t)
  {
    var e := LineEnd(s, pos);
    BeforeLineEnd(s, pos);
    var t := s[pos..e];
    if |t| >= 2 { assert t[|t| - 2] == s[e - 2] && s[e - 2] in s; }
  }

  // ── Patterns ─────────────────────────────────────────────────

  /** A line that names the pattern: not blank, not a comment, and equal to it once trimmed. */
  predicate Names(line: string, pattern: string) {
    var t := Trim(line);
    t != [] && t[0] != '#' && t == pattern
  }

  predicate Contains(content: string, pattern: string) { exists line :: line in Lines(content) && Names(line, pattern) }

  /** A pattern that one line can name: trimmed, single-line, neither empty nor a comment. */
  predicate Usable(pattern: string) { NoBreak(pattern) && Names(pattern, pattern) }

  /** A line names the pattern that is left of it without the white space around it, comments and blank lines none. */
  lemma NamesIff(line: string, pattern: string)
    ensures Names(line, pattern) <==> Trimmed(line, pattern) && pattern != [] && pattern[0] != '#'
  {
    hide Trim, Trimmed;
    TrimIsTrimmed(line);
    if Trimmed(line, pattern) { TrimmedIsTrim(line, pattern); }
  }

  /** The usable patterns. */
  lemma UsableIff(pattern: string)
    ensures Usable(pattern) <==>
            && '\n' !in pattern && pattern != [] && pattern[0] != '#'
            && !IsSpace(pattern[0]) && !IsSpace(pattern[|pattern| - 1])
  {
    hide Names, IsSpace;
    NamesIff(pattern, pattern);
    if pattern != [] && !IsSpace(pattern[0]) && !IsSpace(pattern[|pattern| - 1]) {
      assert pattern == pattern[0..|pattern|] && IsBlank(pattern[..0]) && IsBlank(pattern[|pattern|..]);
      assert Trimmed(pattern, pattern);
    }
  }

  function AddPattern(current: Option<string>, pattern: string): string {
    var content := if current.Some? then current.value else "";
    if Contains(content, pattern) then content
    else content + (if content != [] && content[|content| - 1] != '\n' then "\n" else "") + pattern + "\n"
  }

  method AddIgnorePatternContent(current: Option<string>, pattern: string) returns (content: string)
    ensures content == AddPattern(current, pattern)
  {
    hide Contains;
    content := if current.Some? then current.value else "";
    if Contains(content, pattern) {
      return;
    }
    if content != [] && content[|content| - 1] != '\n' {
      content := content + "\n";
    }
    content := content + pattern;
    content := content + "\n";
  }

  /** The lines that do not name the pattern. */
  function Others(lines: seq<string>, pattern: string): seq<string> {
    if lines == [] then []
    else Others(lines[..|lines| - 1], pattern) + if Names(lines[|lines| - 1], pattern) then [] else [lines[|lines| - 1]]
  }

  function RemovePattern(current: Option<string>, pattern: string): string {
    match current
    case None => ""
    case Some(content) =>
      var remaining := Others(Lines(content), pattern);
      if remaining == [] then ""
      else JoinLines(remaining) + if content != [] && content[|content| - 1] == '\n' then "\n" else ""
  }

  lemma {:induction false} OthersAre(lines: seq<string>, pattern: string, line: string)
    ensures line in Others(lines, pattern) <==> line in lines && !Names(line, pattern)
  {
    hide Names;
    if lines != [] {
      OthersAre(lines[..|lines| - 1], pattern, line);
      assert lines == lines[..|lines| - 1] + [lines[|lines| - 1]];
    }
  }

  lemma {:induction false} NothingToRemove(lines: seq<string>, pattern: string)
    requires forall line :: line in lines ==> !Names(line, pattern)
    ensures Others(lines, pattern) == lines
  {
    hide Names;
    if lines != [] { NothingToRemove(lines[..|lines| - 1], pattern); }
  }

  // ── Adding ───────────────────────────────────────────────────

  /** Adding appends one line and keeps all others in order. */
  lemma AddKeepsLines(content: string, pattern: string)
    requires Plain(content) && Plain(pattern) && NoBreak(pattern) && !Contains(content, pattern)
    ensures Lines(AddPattern(Some(content), pattern)) == Lines(content) + [pattern]
    ensures AddPattern(Some(content), pattern) == Terminated(Lines(content) + [pattern], '\n')
  {
    hide LinesFrom, ChompLine, Completed, Terminated;
    LinesArePlain(content, 0);
    TextIsLines(content, 0);
    assert content[0..] == content;
    var lines := Lines(content);
    TerminatedSnoc(lines, pattern);
    AddCompletes(content, pattern);
    TerminatedLines(lines + [pattern], "");
    NoLinesLeft();
    assert Terminated(lines + [pattern], '\n') + "" == Terminated(lines + [pattern], '\n');
    assert lines + [pattern] + [] == lines + [pattern];
  }

  lemma AddCompletes(content: string, pattern: string)
    requires !Contains(content, pattern)
    ensures AddPattern(Some(content), pattern) == Completed(content) + pattern + ['\n']
  {
    hide Contains;
  }

  lemma TerminatedSnoc(lines: seq<string>, line: string)
    ensures Terminated(lines + [line], '\n') == Terminated(lines, '\n') + line + ['\n']
  {
    hide Terminated;
    TerminatedJoin(lines, [line]);
    TerminatedCons(line, [], '\n');
    assert [line] + [] == [line];
    NothingCompleted();
  }

  lemma NoLinesLeft()
    ensures Lines("") == []
  {
  }

  lemma {:induction false} TerminatedJoin(left: seq<string>, right: seq<string>)
    ensures Terminated(left + right, '\n') == Terminated(left, '\n') + Terminated(right, '\n')
    decreases |left|
  {
    if left == [] {
      assert left + right == right;
    } else {
      TerminatedJoin(left[1..], right);
      assert (left + right)[1..] == left[1..] + right;
    }
  }

  lemma {:induction false} LinesHaveNoBreak(s: string, pos: nat)
    requires pos <= |s|
    ensures forall line :: line in LinesFrom(s, pos) ==> NoBreak(line)
    decreases |s| - pos
  {
    hide ChompLine, LineEnd;
    if pos < |s| {
      LinesHaveNoBreak(s, LineEnd(s, pos));
      FirstLineHasNoBreak(s, pos);
    }
  }

  lemma FirstLineHasNoBreak(s: string, pos: nat)
    requires pos < |s|
    ensures NoBreak(ChompLine(s[pos..LineEnd(s, pos)]))
  {
    var e := LineEnd(s, pos);
    BeforeLineEnd(s, pos);
    var line := ChompLine(s[pos..e]);
    assert forall k :: 0 <= k < |line| ==> line[k] == s[pos + k];
  }

  /** Only usable patterns are ever found. */
  lemma ContainedIsUsable(content: string, pattern: string)
    requires Contains(content, pattern)
    ensures Usable(pattern)
  {
    hide LinesFrom;
    LinesHaveNoBreak(content, 0);
    var line :| line in Lines(content) && Names(line, pattern);
    TrimTwice(line);
  }

  /** Adding makes the pattern present, and adding it again changes nothing, exactly if a line can name it. */
  lemma AddMakesPresentIff(content: string, pattern: string)
    requires Plain(content) && Plain(pattern)
    ensures Contains(AddPattern(Some(content), pattern), pattern) <==> Usable(pattern)
    ensures AddPattern(Some(AddPattern(Some(content), pattern)), pattern) == AddPattern(Some(content), pattern)
       <==> Usable(pattern)
  {
    hide LinesFrom, Trim;
    var added := AddPattern(Some(content), pattern);
    if Contains(content, pattern) {
      ContainedIsUsable(content, pattern);
    } else if Usable(pattern) {
      AddKeepsLines(content, pattern);
      assert Lines(added)[|Lines(content)|] == pattern;
    } else if Contains(added, pattern) {
      ContainedIsUsable(added, pattern);
    }
  }

  /** Trimming is idempotent. */
  lemma TrimTwice(s: string)
    ensures Trim(Trim(s)) == Trim(s)
  {
    var t := Trim(s);
    if !IsBlank(s) {
      var a, b := StartOfText(s), EndOfText(s);
      TextEndsAt(s, a);
      assert !IsSpace(t[0]) && !IsSpace(t[|t| - 1]);
      assert StartOfText(t) == 0 && EndOfText(t) == |t|;
    }
  }

  // ── Removing ─────────────────────────────────────────────────

  /**
   Removing keeps every other line in order, except that without a final newline an empty line left
   at the end is lost.
  */
  lemma RemoveKeepsLinesIff(content: string, pattern: string)
    requires Plain(content)
    ensures var kept := Others(Lines(content), pattern);
            var after := Lines(RemovePattern(Some(content), pattern));
            var terminated := content != [] && content[|content| - 1] == '\n';
            && (after == kept <==> terminated || kept == [] || kept[|kept| - 1] != [])
            && (after == kept || (kept != [] && after == kept[..|kept| - 1]))
  {
    hide LinesFrom, Names, Trim;
    var kept := Others(Lines(content), pattern);
    KeptIsPlain(content, pattern);
    NoLinesLeft();
    if kept != [] {
      if content != [] && content[|content| - 1] == '\n' {
        JoinTerminated(kept);
        TerminatedLines(kept, "");
        assert Terminated(kept, '\n') + "" == Terminated(kept, '\n');
      } else {
        JoinedLines(kept);
        assert JoinLines(kept) + "" == JoinLines(kept);
      }
    }
  }

  lemma KeptIsPlain(content: string, pattern: string)
    requires Plain(content)
    ensures PlainLines(Others(Lines(content), pattern))
  {
    hide LinesFrom, Names, Others;
    LinesArePlain(content, 0);
    forall line | line in Others(Lines(content), pattern)
      ensures NoBreak(line) && Plain(line)
    {
      OthersAre(Lines(content), pattern, line);
    }
  }

  /** The pattern is absent afterwards. */
  lemma RemoveMakesAbsent(content: string, pattern: string)
    requires Plain(content)
    ensures !Contains(RemovePattern(Some(content), pattern), pattern)
  {
    hide LinesFrom, Names, Others, RemovePattern;
    RemoveKeepsLinesIff(content, pattern);
    var kept := Others(Lines(content), pattern);
    forall line | line in Lines(RemovePattern(Some(content), pattern))
      ensures !Names(line, pattern)
    {
      assert line in kept;
      OthersAre(Lines(content), pattern, line);
    }
  }

  /** The blank line before an unterminated last pattern is lost with it. */
  lemma RemoveLosesBlankLine()
    ensures Lines("a\n\nb") == ["a", "", "b"] && Lines(RemovePattern(Some("a\n\nb"), "b")) == ["a"]
  {
    hide LinesFrom, RemovePattern, Others;
    ThreeLines();
    OthersOfThree();
    RemoveKeepsLinesIff("a\n\nb", "b");
    assert ["a", ""][..1] == ["a"];
  }

  lemma ThreeLines()
    ensures Lines("a\n\nb") == ["a", "", "b"]
  {
    hide LinesFrom, ChompLine;
    LinesCons("a", "\nb");
    LinesCons("", "b");
    LinesOne("b");
    ChompPlain("a");
    ChompPlain("");
    assert "a" + ['\n'] + "\nb" == "a\n\nb" && "" + ['\n'] + "b" == "\nb";
  }

  lemma OthersOfThree()
    ensures Others(["a", "", "b"], "b") == ["a", ""]
  {
    TrimOne('a');
    TrimOne('b');
    assert Names("b", "b") && !Names("a", "b") && !Names("", "b");
    hide Names;
    var lines := ["a", "", "b"];
    assert lines[..2] == ["a", ""] && ["a", ""][..1] == ["a"] && ["a"][..0] == [];
    assert Others(["a"], "b") == Others([], "b") + ["a"];
    assert Others(["a", ""], "b") == Others(["a"], "b") + [""];
    assert Others(lines, "b") == Others(["a", ""], "b") + [];
  }

  lemma TrimOne(c: char)
    requires !IsSpace(c)
    ensures Trim([c]) == [c]
  {
    assert [c][0] == c;
  }

  /** Removing an added pattern restores the lines. */
  lemma RemoveUndoesAdd(content: string, pattern: string)
    requires Plain(content) && Plain(pattern) && Usable(pattern) && !Contains(content, pattern)
    ensures Lines(RemovePattern(Some(AddPattern(Some(content), pattern)), pattern)) == Lines(content)
  {
    hide LinesFrom, RemovePattern, Trim;
    var added := AddPattern(Some(content), pattern);
    AddKeepsLines(content, pattern);
    var lines := Lines(content);
    assert (lines + [pattern])[..|lines|] == lines;
    NothingToRemove(lines, pattern);
    assert Others(lines + [pattern], pattern) == lines + [];
    AddedIsPlain(content, pattern);
    RemoveKeepsLinesIff(added, pattern);
  }

  /** A file that is not there is an empty one. */
  lemma NoFileIsEmpty(pattern: string)
    ensures AddPattern(None, pattern) == AddPattern(Some(""), pattern) == pattern + "\n"
    ensures RemovePattern(None, pattern) == RemovePattern(Some(""), pattern) == ""
  {
    NoLinesLeft();
  }

  lemma AddedIsPlain(content: string, pattern: string)
    requires Plain(content) && Plain(pattern) && !Contains(content, pattern)
    ensures var added := AddPattern(Some(content), pattern); Plain(added) && added != [] && added[|added| - 1] == '\n'
  {
  }
}
