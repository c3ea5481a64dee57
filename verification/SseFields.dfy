/** What an event is made of: the fields of a block's lines. */
module SseFields {
  import opened Wrappers
  import opened Text
  import opened Sse
  import opened SseReads

  // ── Trimming ─────────────────────────────────────────────────

  /** `t` is `s` without the white space around it. */
  ghost predicate JsTrimmed(s: string, t: string) {
    && (exists a, b :: 0 <= a <= b <= |s| && t == s[a..b] && JsBlank(s[..a]) && JsBlank(s[b..]))
    && (t != [] ==> !IsJsSpace(t[0]) && !IsJsSpace(t[|t| - 1]))
  }

  ghost predicate JsBlank(s: string) { forall i :: 0 <= i < |s| ==> IsJsSpace(s[i]) }

  lemma JsTrimIsTrimmed(s: string)
    ensures JsTrimmed(s, JsTrim(s))
  {
    hide IsJsSpace, JsTrim;
    var a, b := JsTrimSlice(s);
    JsTrimEnds(s);
  }

  lemma {:induction false} JsTrimSlice(s: string) returns (a: nat, b: nat)
    ensures a <= b <= |s| && JsTrim(s) == s[a..b] && JsBlank(s[..a]) && JsBlank(s[b..])
    decreases |s|
  {
    hide IsJsSpace;
    if s != [] && IsJsSpace(s[0]) {
      a, b := JsTrimSlice(s[1..]);
      a, b := a + 1, b + 1;
      assert s == [s[0]] + s[1..];
      SliceOfRest(s, a, b);
    } else if s != [] && IsJsSpace(s[|s| - 1]) {
      var n := |s| - 1;
      a, b := JsTrimSlice(s[..n]);
      assert s[b..] == s[..n][b..] + [s[n]] && s[..a] == s[..n][..a] && s[a..b] == s[..n][a..b];
    } else {
      a, b := 0, |s|;
      assert s[..0] == [] && s[|s|..] == [] && s[0..|s|] == s;
    }
  }

  lemma SliceOfRest(s: string, a: nat, b: nat)
    requires 0 < a <= b <= |s|
    ensures s[..a] == [s[0]] + s[1..][..a - 1] && s[b..] == s[1..][b - 1..] && s[a..b] == s[1..][a - 1..b - 1]
  {
    var rest := s[1..];
    var x, y, z := s[..a], s[b..], s[a..b];
    assert forall i :: 0 < i < a ==> x[i] == rest[i - 1] == rest[..a - 1][i - 1];
    assert forall i :: 0 <= i < |s| - b ==> y[i] == rest[b - 1 + i] == rest[b - 1..][i];
    assert forall i :: 0 <= i < b - a ==> z[i] == rest[a - 1 + i] == rest[a - 1..b - 1][i];
  }

  lemma {:induction false} JsTrimEnds(s: string)
    ensures JsTrim(s) != [] ==> !IsJsSpace(JsTrim(s)[0]) && !IsJsSpace(JsTrim(s)[|JsTrim(s)| - 1])
    decreases |s|
  {
    hide IsJsSpace;
    if s != [] && IsJsSpace(s[0]) {
      JsTrimEnds(s[1..]);
    } else if s != [] && IsJsSpace(s[|s| - 1]) {
      JsTrimEnds(s[..|s| - 1]);
    }
  }

  // ── Lines ────────────────────────────────────────────────────

  /** Lines put together, each but the last ended by a line feed, or by a carriage return and a line feed. */
  function Ended(lines: seq<string>, crlf: seq<bool>): string
    requires lines != [] && |crlf| == |lines| - 1
  {
    if |lines| == 1 then lines[0]
    else lines[0] + (if crlf[0] then "\r\n" else "\n") + Ended(lines[1..], crlf[1..])
  }

  /** A line has no line feed in it, and no carriage return at its end. */
  predicate WholeLine(line: string) { '\n' !in line && (line != [] ==> line[|line| - 1] != '\r') }

  lemma ClosedLine(line: string, returned: bool)
    requires WholeLine(line)
    ensures Closed([if returned then line + "\r" else line]) == [line]
  {
    var x := if returned then line + "\r" else line;
    var none: seq<string> := [];
    assert [x][..0] == none && (returned ==> x[..|line|] == line);
  }

  lemma {:induction false} SplitNoFeed(s: string, line: string)
    requires '\n' !in s
    ensures SplitCrLf(s, line) == [line + s]
    decreases |s|
  {
    if s == [] {
      assert line + s == line;
    } else {
      assert s[0] in s && s == [s[0]] + s[1..];
      SplitNoFeed(s[1..], line + [s[0]]);
      assert line + [s[0]] + s[1..] == line + s;
    }
  }

  lemma SplitLine(line: string)
    requires '\n' !in line
    ensures SplitCrLf(line, []) == [line]
  {
    hide SplitCrLf;
    SplitNoFeed(line, []);
    assert [] + line == line;
  }

  lemma SplitFirst(line: string, returned: bool, rest: string)
    requires WholeLine(line)
    ensures SplitCrLf(line + (if returned then "\r\n" else "\n") + rest, []) == [line] + SplitCrLf(rest, [])
  {
    hide SplitCrLf, Closed;
    var x := if returned then line + "\r" else line;
    assert line + (if returned then "\r\n" else "\n") + rest == x + ['\n'] + rest;
    SplitJoin(x, rest, []);
    SplitLine(x);
    ClosedLine(line, returned);
  }

  /** Splitting gives the lines back, whatever ends them. */
  lemma {:induction false} SplitGivesLines(lines: seq<string>, crlf: seq<bool>)
    requires lines != [] && |crlf| == |lines| - 1 && forall line :: line in lines ==> WholeLine(line)
    ensures SplitCrLf(Ended(lines, crlf), []) == lines
    decreases |lines|
  {
    hide SplitCrLf;
    assert lines == [lines[0]] + lines[1..] && WholeLine(lines[0]);
    if |lines| == 1 {
      SplitLine(lines[0]);
    } else {
      SplitGivesLines(lines[1..], crlf[1..]);
      SplitFirst(lines[0], crlf[0], Ended(lines[1..], crlf[1..]));
    }
  }

  // ── Fields ───────────────────────────────────────────────────

  /** The event's name is that of the last `event:` line, if there is one. */
  lemma {:induction false} NameIff(lines: seq<string>)
    ensures EventName(lines).None? <==> forall k :: 0 <= k < |lines| ==> !("event:" <= lines[k])
    ensures EventName(lines).Some? ==>
              exists k :: && 0 <= k < |lines| && "event:" <= lines[k]
                          && JsTrimmed(lines[k][6..], EventName(lines).value)
                          && forall j :: k < j < |lines| ==> !("event:" <= lines[j])
  {
    hide JsTrim, JsTrimmed;
    if lines != [] {
      var last := lines[|lines| - 1];
      if "event:" <= last {
        JsTrimIsTrimmed(last[6..]);
      } else {
        NameIff(lines[..|lines| - 1]);
      }
    }
  }

  /** What follows the field name in the `data:` lines, in order. */
  function DataLines(lines: seq<string>): seq<string> {
    if lines == [] then []
    else
      var last := lines[|lines| - 1];
      DataLines(lines[..|lines| - 1]) + if "data:" <= last then [last[5..]] else []
  }

  /** The event's data are the values of the `data:` lines, each ended by a line feed. */
  lemma {:induction false} DataAre(lines: seq<string>) returns (values: seq<string>)
    ensures |values| == |DataLines(lines)| && EventData(lines) == Terminated(values, '\n')
    ensures forall k :: 0 <= k < |values| ==> JsTrimmed(DataLines(lines)[k], values[k])
  {
    hide JsTrim, JsTrimmed, Terminated;
    if lines == [] {
      values := [];
      NothingEnded();
    } else {
      var front, last := lines[..|lines| - 1], lines[|lines| - 1];
      values := DataAre(front);
      if "data:" <= last {
        JsTrimIsTrimmed(last[5..]);
        EndedSnoc(values, JsTrim(last[5..]));
        values := values + [JsTrim(last[5..])];
      } else {
        assert EventData(front) + "" == EventData(front) && DataLines(front) + [] == DataLines(front);
      }
    }
  }

  lemma NothingEnded()
    ensures Terminated([], '\n') == ""
  {
  }

  lemma {:induction false} EndedSnoc(values: seq<string>, value: string)
    ensures Terminated(values + [value], '\n') == Terminated(values, '\n') + (value + "\n")
    decreases |values|
  {
    if values == [] {
      assert [value][1..] == [] && [] + [value] == [value];
    } else {
      assert (values + [value])[1..] == values[1..] + [value];
      EndedSnoc(values[1..], value);
    }
  }

  /**
   The event of a block of lines, however they end: its name is what the last `event:` line says, its
   data what the `data:` lines say, each value trimmed and ended by a line feed, and the whole trimmed.
  */
  lemma EventOfLines(lines: seq<string>, crlf: seq<bool>) returns (values: seq<string>)
    requires lines != [] && |crlf| == |lines| - 1 && forall line :: line in lines ==> WholeLine(line)
    ensures var e := EventOf(Ended(lines, crlf));
            && (e.event.None? <==> forall k :: 0 <= k < |lines| ==> !("event:" <= lines[k]))
            && (e.event.Some? ==>
                  exists k :: && 0 <= k < |lines| && "event:" <= lines[k] && JsTrimmed(lines[k][6..], e.event.value)
                              && forall j :: k < j < |lines| ==> !("event:" <= lines[j]))
            && |values| == |DataLines(lines)|
            && (forall k :: 0 <= k < |values| ==> JsTrimmed(DataLines(lines)[k], values[k]))
            && JsTrimmed(Terminated(values, '\n'), e.data)
  {
    hide JsTrim, JsTrimmed, SplitCrLf, EventName, EventData, Terminated;
    SplitGivesLines(lines, crlf);
    NameIff(lines);
    values := DataAre(lines);
    JsTrimIsTrimmed(EventData(lines));
  }
}
