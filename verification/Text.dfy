/** The parts of Rust's `str` the sources use: white space, trimming, lines, joining. */
module Text {
  /** `char::is_whitespace`: the Unicode property White_Space. */
  predicate IsSpace(c: char) {
    var cp := c as int;
    || 0x09 <= cp <= 0x0D || cp == 0x20 || cp == 0x85 || cp == 0xA0 || cp == 0x1680
    || 0x2000 <= cp <= 0x200A || cp == 0x2028 || cp == 0x2029 || cp == 0x202F || cp == 0x205F || cp == 0x3000
  }

  predicate IsBlank(s: string) { forall i {:trigger IsSpace(s[i])} | 0 <= i < |s| :: IsSpace(s[i]) }

  /** How many characters `trim_end` keeps. */
  function EndOfText(s: string): (n: nat)
    ensures n <= |s| && (n == 0 <==> IsBlank(s))
  {
    if s == [] then 0 else if IsSpace(s[|s| - 1]) then EndOfText(s[..|s| - 1]) else |s|
  }

  /** How many characters `trim_start` drops. */
  function StartOfText(s: string): (n: nat)
    ensures n <= |s| && (n < |s| ==> !IsSpace(s[n]))
    ensures forall i {:trigger IsSpace(s[i])} :: 0 <= i < n ==> IsSpace(s[i])
  {
    if s == [] || !IsSpace(s[0]) then 0
    else
      assert forall i :: 0 <= i < |s| - 1 ==> s[1..][i] == s[i + 1];
      1 + StartOfText(s[1..])
  }

  /** `trim_end` drops white space only, and all of it. */
  lemma {:induction false} TextEndsAt(s: string, i: nat)
    ensures EndOfText(s) > 0 ==> !IsSpace(s[EndOfText(s) - 1])
    ensures EndOfText(s) <= i < |s| ==> IsSpace(s[i])
  {
    if s != [] && IsSpace(s[|s| - 1]) { TextEndsAt(s[..|s| - 1], i); }
  }

  function TrimEnd(s: string): string { s[..EndOfText(s)] }

  function Trim(s: string): string {
    if IsBlank(s) then []
    else
      TextEndsAt(s, StartOfText(s));
      s[StartOfText(s)..EndOfText(s)]
  }

  /** `t` is `s` without the white space around it. */
  ghost predicate Trimmed(s: string, t: string) {
    && (exists a, b :: 0 <= a <= b <= |s| && t == s[a..b] && IsBlank(s[..a]) && IsBlank(s[b..]))
    && (t != [] ==> !IsSpace(t[0]) && !IsSpace(t[|t| - 1]))
  }

  lemma TrimIsTrimmed(s: string)
    ensures Trimmed(s, Trim(s))
  {
    hide IsSpace;
    if IsBlank(s) {
      assert s[..0] == "" && s[0..0] == "" && s[0..] == s;
      assert IsBlank(s[..0]) && IsBlank(s[0..]);
    } else {
      var a, b := StartOfText(s), EndOfText(s);
      TextEndsAt(s, a);
      forall i | 0 <= i < |s[b..]|
        ensures IsSpace(s[b..][i])
      {
        TextEndsAt(s, b + i);
      }
      assert IsBlank(s[..a]) && IsBlank(s[b..]);
    }
  }

  /** Nothing else is. */
  lemma TrimmedIsTrim(s: string, t: string)
    requires Trimmed(s, t)
    ensures t == Trim(s)
  {
    hide IsSpace;
    var a, b :| 0 <= a <= b <= |s| && t == s[a..b] && IsBlank(s[..a]) && IsBlank(s[b..]);
    if t == [] {
      assert s == s[..a] + s[b..];
      assert IsBlank(s) by { BlankJoin(s[..a], s[b..]); }
    } else {
      assert !IsSpace(s[a]) && !IsSpace(s[b - 1]);
      StartsAt(s, a);
      EndsAt(s, b);
    }
  }

  lemma BlankJoin(s: string, t: string)
    requires IsBlank(s) && IsBlank(t)
    ensures IsBlank(s + t)
  {
    hide IsSpace;
    forall i | 0 <= i < |s + t|
      ensures IsSpace((s + t)[i])
    {
      if i < |s| { assert (s + t)[i] == s[i]; } else { assert (s + t)[i] == t[i - |s|]; }
    }
  }

  lemma StartsAt(s: string, a: nat)
    requires a < |s| && IsBlank(s[..a]) && !IsSpace(s[a])
    ensures StartOfText(s) == a
  {
    hide IsSpace;
    assert forall i :: 0 <= i < a ==> s[..a][i] == s[i];
  }

  lemma BlankFrom(s: string, b: nat)
    requires b <= |s| && IsBlank(s[b..])
    ensures forall i {:trigger s[i]} :: b <= i < |s| ==> IsSpace(s[i])
  {
    hide IsSpace;
    forall i {:trigger s[i]} | b <= i < |s|
      ensures IsSpace(s[i])
    {
      assert s[b..][i - b] == s[i];
    }
  }

  lemma EndsAt(s: string, b: nat)
    requires 0 < b <= |s| && IsBlank(s[b..]) && !IsSpace(s[b - 1])
    ensures EndOfText(s) == b
  {
    hide IsSpace, EndOfText, IsBlank;
    BlankFrom(s, b);
    TextEndsAt(s, b - 1);
    assert EndOfText(s) >= b;
  }

  /** The end of the line starting at `pos`, its line feed included (`split_inclusive('\n')`). */
  function LineEnd(s: string, pos: nat): (e: nat)
    requires pos < |s|
    ensures pos < e <= |s|
    decreases |s| - pos
  {
    if s[pos] == '\n' || pos + 1 == |s| then pos + 1 else LineEnd(s, pos + 1)
  }

  /** `str::lines` drops the line feed, and a carriage return before it. */
  function ChompLine(line: string): string {
    if line == [] || line[|line| - 1] != '\n' then line
    else if |line| >= 2 && line[|line| - 2] == '\r' then line[..|line| - 2]
    else line[..|line| - 1]
  }

  /** Both line endings are dropped whole, and nothing else. */
  lemma ChompsLineEnding(body: string)
    ensures ChompLine(body + "\r\n") == body
    ensures body == [] || body[|body| - 1] != '\r' ==> ChompLine(body + "\n") == body
    ensures body == [] || body[|body| - 1] != '\n' ==> ChompLine(body) == body
  {
    var crlf, lf := body + "\r\n", body + "\n";
    assert crlf[|crlf| - 1] == '\n' && crlf[|crlf| - 2] == '\r' && crlf[..|crlf| - 2] == body;
    assert lf[|lf| - 1] == '\n' && lf[..|lf| - 1] == body && (body != [] ==> lf[|lf| - 2] == body[|body| - 1]);
  }

  /** The lines of `s` from `pos` on. */
  function LinesFrom(s: string, pos: nat): seq<string>
    requires pos <= |s|
    decreases |s| - pos
  {
    if pos == |s| then [] else [ChompLine(s[pos..LineEnd(s, pos)])] + LinesFrom(s, LineEnd(s, pos))
  }

  function Lines(s: string): seq<string> { LinesFrom(s, 0) }

  /** `lines.join("\n")`. */
  function JoinLines(lines: seq<string>): string {
    if lines == [] then [] else if |lines| == 1 then lines[0] else lines[0] + ['\n'] + JoinLines(lines[1..])
  }

  /** Where line `l` starts in the joined lines. */
  function LineStart(lines: seq<string>, l: nat): (p: nat)
    requires l < |lines|
    ensures p + |lines[l]| <= |JoinLines(lines)|
  {
    if l == 0 then 0 else |lines[0]| + 1 + LineStart(lines[1..], l - 1)
  }

  lemma {:induction false} JoinedLineAt(lines: seq<string>, l: nat, i: nat)
    requires l < |lines| && i < |lines[l]|
    ensures JoinLines(lines)[LineStart(lines, l) + i] == lines[l][i]
    decreases l
  {
    if l > 0 { JoinedLineAt(lines[1..], l - 1, i); }
  }

  /** What chomping drops from the line `s[pos..next]` is white space at its end. */
  lemma ChompKeeps(s: string, pos: nat, next: nat, i: nat)
    requires pos <= i < next <= |s| && !IsSpace(s[i])
    ensures var line := ChompLine(s[pos..next]);
            i < pos + |line| <= next && line == s[pos..pos + |line|]
  {
    var line := s[pos..next];
    assert line[i - pos] == s[i] && IsSpace('\n') && IsSpace('\r');
    assert ChompLine(line) == s[pos..pos + |ChompLine(line)|];
  }

  /** A character that is not white space is in a line. */
  lemma {:induction false} CharInLine(s: string, pos: nat, i: nat) returns (l: nat, start: nat)
    requires pos <= i < |s| && !IsSpace(s[i])
    ensures l < |LinesFrom(s, pos)| && start <= i < start + |LinesFrom(s, pos)[l]| <= |s|
    ensures LinesFrom(s, pos)[l] == s[start..start + |LinesFrom(s, pos)[l]|]
    decreases |s| - pos
  {
    hide IsSpace, ChompLine, LineEnd;
    var next := LineEnd(s, pos);
    if i < next {
      l, start := 0, pos;
      ChompKeeps(s, pos, next, i);
    } else {
      l, start := CharInLine(s, next, i);
      l := l + 1;
    }
  }

  /** `trim` keeps every character that is not white space. */
  lemma TrimKeeps(s: string, i: nat) returns (a: nat)
    requires i < |s| && !IsSpace(s[i])
    ensures a <= i < a + |Trim(s)| <= |s| && Trim(s) == s[a..a + |Trim(s)|]
  {
    a := StartOfText(s);
    TextEndsAt(s, i);
    TextEndsAt(s, a);
  }

  function Flatten<T>(parts: seq<seq<T>>): seq<T> {
    if parts == [] then [] else parts[0] + Flatten(parts[1..])
  }

  /** Every line followed by its end mark. */
  function Terminated<T>(lines: seq<seq<T>>, end: T): seq<T> {
    if lines == [] then [] else lines[0] + [end] + Terminated(lines[1..], end)
  }

  lemma TerminatedCons<T>(line: seq<T>, rest: seq<seq<T>>, end: T)
    ensures Terminated([line] + rest, end) == line + [end] + Terminated(rest, end)
  {
  }

  /** Decimal rendering of a count. */
  function Decimal(n: nat): (r: string)
    ensures r != []
  {
    if n < 10 then [Digit(n)] else Decimal(n / 10) + [Digit(n % 10)]
  }

  function Digit(n: nat): char
    requires n < 10
  {
    ('0' as int + n) as char
  }

  lemma {:induction false} DecimalIsInjective(m: nat, n: nat)
    requires Decimal(m) == Decimal(n)
    ensures m == n
  {
    var a, b := Decimal(m), Decimal(n);
    assert a[|a| - 1] == Digit(m % 10) && b[|b| - 1] == Digit(n % 10);
    if m >= 10 && n >= 10 {
      assert a[..|a| - 1] == Decimal(m / 10) && b[..|b| - 1] == Decimal(n / 10);
      DecimalIsInjective(m / 10, n / 10);
    }
  }
}
