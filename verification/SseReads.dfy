/** Which read ends inside a carriage-return line-feed pair change an event. */
module SseReads {
  import opened Wrappers
  import opened Sse
  import opened SseCuts

  // ── Boundaries after a text without one ──────────────────────

  predicate EndsLine(s: string) { s != [] && s[|s| - 1] == '\n' }

  predicate BeginsEmpty(s: string) { s != [] && s[0] == '\n' }

  function AfterFeed(s: string): string { if s == [] then [] else s[1..] }

  function Shifted(i: Option<nat>, n: nat): Option<nat> {
    match i
    case None => None
    case Some(k) => Some(n + k)
  }

  lemma BoundaryCons(c: char, s: string)
    ensures Boundary([c] + s) == if c == '\n' && BeginsEmpty(s) then Some(0) else Shifted(Boundary(s), 1)
  {
    assert ([c] + s)[1..] == s;
  }

  lemma {:induction false} BoundaryJoin(s: string, t: string)
    requires Boundary(s).None?
    ensures Boundary(s + t) == if EndsLine(s) && BeginsEmpty(t) then Some(|s| - 1) else Shifted(Boundary(t), |s|)
    decreases |s|
  {
    hide Boundary;
    if s == [] {
      assert s + t == t;
    } else {
      var rest := s[1..];
      assert s == [s[0]] + rest && s + t == [s[0]] + (rest + t);
      BoundaryCons(s[0], rest);
      BoundaryCons(s[0], rest + t);
      BoundaryJoin(rest, t);
    }
  }

  lemma BlocksFrom(s: string, i: nat)
    requires Boundary(s) == Some(i)
    ensures i + 2 <= |s| && Blocks(s) == [s[..i]] + Blocks(s[i + 2..])
  {
    hide Boundary;
  }

  lemma NoBoundaryNoBlocks(s: string)
    requires Boundary(s).None?
    ensures Blocks(s) == []
  {
  }

  // ── Lines of joined blocks ───────────────────────────────────

  function DropReturn(line: string): string {
    if line != [] && line[|line| - 1] == '\r' then line[..|line| - 1] else line
  }

  /** What a line feed after the last line does to it. */
  function Closed(lines: seq<string>): (r: seq<string>)
    ensures |r| == |lines|
  {
    if lines == [] then [] else lines[..|lines| - 1] + [DropReturn(lines[|lines| - 1])]
  }

  lemma {:induction false} SplitJoin(x: string, y: string, line: string)
    ensures SplitCrLf(x + ['\n'] + y, line) == Closed(SplitCrLf(x, line)) + SplitCrLf(y, [])
    decreases |x|
  {
    var s := x + ['\n'] + y;
    if x == [] {
      assert s[1..] == y;
    } else {
      assert s[1..] == x[1..] + ['\n'] + y;
      SplitJoin(x[1..], y, if x[0] == '\n' then [] else line + [x[0]]);
      if x[0] == '\n' {
        var rest := SplitCrLf(x[1..], []);
        SomeLine(x[1..], []);
        assert Closed([DropReturn(line)] + rest) == [DropReturn(line)] + Closed(rest);
      }
    }
  }

  lemma {:induction false} SomeLine(s: string, line: string)
    ensures SplitCrLf(s, line) != []
    decreases |s|
  {
    if s != [] && s[0] != '\n' { SomeLine(s[1..], line + [s[0]]); }
  }

  lemma ClosedAgrees(lines: seq<string>)
    ensures EventName(Closed(lines)) == EventName(lines) && EventData(Closed(lines)) == EventData(lines)
  {
    var closed := Closed(lines);
    forall k | 0 <= k < |lines|
      ensures SameLine(closed[k], lines[k])
    {
      if DropReturn(lines[k]) != lines[k] { assert lines[k] == lines[k][..|lines[k]| - 1] + ['\r']; }
    }
    LinesAgree(closed, lines);
  }

  function Later(a: Option<string>, b: Option<string>): Option<string> { if b.Some? then b else a }

  function FieldData(line: string): string { if DATA_FIELD <= line then JsTrim(line[5..]) + "\n" else "" }

  function FieldName(line: string): Option<string> { if EVENT_FIELD <= line then Some(JsTrim(line[6..])) else None }

  lemma LastField(xs: seq<string>, y: string)
    ensures EventName(xs + [y]) == Later(EventName(xs), FieldName(y))
    ensures EventData(xs + [y]) == EventData(xs) + FieldData(y)
  {
    hide JsTrim;
    assert (xs + [y])[..|xs|] == xs;
  }

  lemma {:induction false} FieldsJoin(xs: seq<string>, ys: seq<string>)
    ensures EventName(xs + ys) == Later(EventName(xs), EventName(ys))
    ensures EventData(xs + ys) == EventData(xs) + EventData(ys)
    decreases |ys|
  {
    hide EventName, EventData, FieldName, FieldData;
    if ys == [] {
      assert xs + ys == xs;
      NoFields();
    } else {
      var front, y := ys[..|ys| - 1], ys[|ys| - 1];
      FieldsJoin(xs, front);
      LastField(xs + front, y);
      LastField(front, y);
      assert ys == front + [y] && xs + ys == xs + front + [y];
    }
  }

  lemma NoFields()
    ensures EventName([]) == None && EventData([]) == ""
  {
  }

  lemma BlankLine()
    ensures SplitCrLf("", []) == [""] && EventName([""]) == None && EventData([""]) == ""
    ensures SplitCrLf("\r", []) == ["\r"] && EventName(["\r"]) == None && EventData(["\r"]) == ""
    ensures EventOf("").data == ""
  {
    assert "\r"[1..] == "" && [] + ['\r'] == "\r";
    assert [""][..0] == [] && ["\r"][..0] == [];
  }

  function DataOf(block: string): string { EventData(SplitCrLf(block, [])) }

  function NameOf(block: string): Option<string> { EventName(SplitCrLf(block, [])) }

  /** The fields of two blocks read as one are those of the first, then those of the second. */
  lemma BlocksReadAsOne(a: string, b: string)
    ensures NameOf(a + "\n" + b) == Later(NameOf(a), NameOf(b)) && DataOf(a + "\n" + b) == DataOf(a) + DataOf(b)
  {
    hide SplitCrLf, EventName, EventData;
    SplitJoin(a, b, []);
    ClosedAgrees(SplitCrLf(a, []));
    FieldsJoin(Closed(SplitCrLf(a, [])), SplitCrLf(b, []));
    assert "\n" == ['\n'];
  }

  // ── Trimming ─────────────────────────────────────────────────

  lemma {:induction false} BlankIsSpaces(s: string, i: nat)
    requires JsTrim(s) == [] && i < |s|
    ensures IsJsSpace(s[i])
    decreases |s|
  {
    if IsJsSpace(s[0]) {
      if i > 0 { BlankIsSpaces(s[1..], i - 1); }
    } else if i < |s| - 1 {
      BlankIsSpaces(s[..|s| - 1], i);
    }
  }

  lemma {:induction false} TrimDropsBlankEnd(s: string, blank: string)
    requires forall i :: 0 <= i < |blank| ==> IsJsSpace(blank[i])
    ensures JsTrim(s + blank) == JsTrim(s)
    decreases |blank|
  {
    hide JsTrim, IsJsSpace;
    if blank == [] {
      assert s + blank == s;
    } else {
      var n := |blank| - 1;
      TrimDropsBlankEnd(s, blank[..n]);
      TrimDropsSpace(s + blank[..n], blank[n]);
      assert s + blank == s + blank[..n] + [blank[n]];
    }
  }

  lemma {:induction false} TrimDropsBlankStart(blank: string, s: string)
    requires forall i :: 0 <= i < |blank| ==> IsJsSpace(blank[i])
    ensures JsTrim(blank + s) == JsTrim(s)
    decreases |blank|
  {
    if blank == [] {
      assert blank + s == s;
    } else {
      assert (blank + s)[1..] == blank[1..] + s;
      TrimDropsBlankStart(blank[1..], s);
    }
  }

  lemma TrimJoin(s: string, t: string)
    ensures JsTrim(t) == [] ==> JsTrim(s + t) == JsTrim(s)
    ensures JsTrim(s) == [] ==> JsTrim(s + t) == JsTrim(t)
  {
    hide JsTrim, IsJsSpace;
    if JsTrim(t) == [] {
      forall i | 0 <= i < |t| ensures IsJsSpace(t[i]) { BlankIsSpaces(t, i); }
      TrimDropsBlankEnd(s, t);
    }
    if JsTrim(s) == [] {
      forall i | 0 <= i < |s| ensures IsJsSpace(s[i]) { BlankIsSpaces(s, i); }
      TrimDropsBlankStart(s, t);
    }
  }

  // ── Blocks that run together ─────────────────────────────────

  /**
   Whether an event changes when a block is read together with the one after it: both have data, or
   one has and takes another name.
  */
  predicate MergingMatters(a: SseEvent, b: SseEvent) {
    || (a.data != [] && b.data != [])
    || (a.data != [] && b.event.Some? && b.event != a.event)
    || (b.data != [] && b.event.None? && a.event.Some?)
  }

  lemma MergedEvent(a: string, b: string)
    ensures var m := EventOf(a + "\n\r\n" + b);
            && m.event == Later(EventOf(a).event, EventOf(b).event)
            && (EventOf(a).data == [] ==> m.data == EventOf(b).data)
            && (EventOf(b).data == [] ==> m.data == EventOf(a).data)
  {
    hide SplitCrLf, EventName, EventData, JsTrim;
    BlankLine();
    BlocksReadAsOne(a, "\r\n" + b);
    BlocksReadAsOne("\r", b);
    assert "\r" + "\n" + b == "\r\n" + b && a + "\n" + ("\r\n" + b) == a + "\n\r\n" + b;
    assert "" + DataOf(b) == DataOf(b);
    TrimJoin(DataOf(a), DataOf(b));
  }

  function Given(e: SseEvent): seq<SseEvent> { if e.data != [] then [e] else [] }

  lemma MergedGiven(a: SseEvent, b: SseEvent, m: SseEvent)
    requires m.event == Later(a.event, b.event)
    requires (a.data == [] ==> m.data == b.data) && (b.data == [] ==> m.data == a.data)
    ensures Given(m) == Given(a) + Given(b) <==> !MergingMatters(a, b)
  {
    if a.data != [] && b.data != [] {
      assert |Given(a) + Given(b)| == 2;
    } else if a.data != [] {
      assert Given(a) + Given(b) == [a] && (Given(m) == [a] <==> Given(m)[0] == a);
    } else if b.data != [] {
      assert Given(a) + Given(b) == [b] && (Given(m) == [b] <==> Given(m)[0] == b);
    }
  }

  lemma MergingMattersIff(a: string, b: string)
    ensures Delivered([a + "\n\r\n" + b]) == Delivered([a]) + Delivered([b])
       <==> !MergingMatters(EventOf(a), EventOf(b))
  {
    hide EventOf, Delivered, MergingMatters;
    MergedEvent(a, b);
    DeliveredOne(a);
    DeliveredOne(b);
    DeliveredOne(a + "\n\r\n" + b);
    MergedGiven(EventOf(a), EventOf(b), EventOf(a + "\n\r\n" + b));
  }

  lemma SameFieldsSameEvent(a: string, b: string)
    requires NameOf(a) == NameOf(b) && DataOf(a) == DataOf(b)
    ensures EventOf(a) == EventOf(b)
  {
  }

  /** A blank line at either end of a block changes nothing. */
  lemma BlankLineAround(a: string)
    ensures EventOf(a + "\n\r") == EventOf(a) && EventOf("\n" + a) == EventOf(a)
  {
    hide SplitCrLf, EventName, EventData, EventOf;
    BlankLine();
    BlocksReadAsOne(a, "\r");
    assert a + "\n" + "\r" == a + "\n\r" && DataOf(a) + "" == DataOf(a);
    SameFieldsSameEvent(a + "\n\r", a);
    BlocksReadAsOne("", a);
    assert "" + "\n" + a == "\n" + a && "" + DataOf(a) == DataOf(a);
    SameFieldsSameEvent("\n" + a, a);
  }

  /** Nor does one more line feed in front of the text. */
  lemma {:induction false} LeadingLineFeed(s: string)
    ensures Delivered(Blocks("\n" + s)) == Delivered(Blocks(s))
    decreases |s|
  {
    hide Boundary, EventOf, Delivered, Blocks;
    NoBoundaryInFeed();
    BoundaryJoin("\n", s);
    var t := "\n" + s;
    if BeginsEmpty(s) {
      BlocksFrom(t, 0);
      LeadingLineFeed(s[1..]);
      assert s == "\n" + s[1..] && t[2..] == s[1..] && t[..0] == "";
      BlankLine();
      DeliveredOne("");
      DeliveredJoin([""], Blocks(s[1..]));
    } else if Boundary(s).Some? {
      var i := Boundary(s).value;
      BlocksFrom(t, 1 + i);
      BlocksFrom(s, i);
      assert t[1 + i + 2..] == s[i + 2..] && t[..1 + i] == "\n" + s[..i];
      BlankLineAround(s[..i]);
      DeliveredOne(s[..i]);
      DeliveredOne("\n" + s[..i]);
      DeliveredJoin([s[..i]], Blocks(s[i + 2..]));
      DeliveredJoin(["\n" + s[..i]], Blocks(s[i + 2..]));
    } else {
      NoBoundaryNoBlocks(t);
      NoBoundaryNoBlocks(s);
    }
  }

  lemma NoBoundaryInFeed()
    ensures Boundary("\n").None? && Boundary("\r").None?
  {
  }

  // ── One read end ─────────────────────────────────────────────

  /** Whether an event changes when the empty line between `block` and `rest` is not seen. */
  predicate BoundaryMatters(block: string, rest: string) {
    !BeginsEmpty(rest)
    && match Boundary(rest)
       case None => EventOf(block).data != []
       case Some(i) => MergingMatters(EventOf(block), EventOf(rest[..i]))
  }

  /** The blocks with the boundary. */
  lemma SeenBoundary(block: string, rest: string)
    requires Boundary(block + "\n").None?
    ensures Blocks(block + "\n\n" + rest) == [block] + Blocks(rest)
  {
    hide Boundary, Blocks;
    var fed, whole := "\n" + rest, block + "\n\n" + rest;
    BoundaryJoin(block + "\n", fed);
    assert whole == block + "\n" + fed;
    BlocksFrom(whole, |block|);
    assert whole[..|block|] == block && whole[|block| + 2..] == rest;
  }

  /** The first boundary after a carriage return and a line feed. */
  lemma NextBoundary(s: string, rest: string)
    requires Boundary(s).None? && !EndsLine(s)
    ensures Boundary(s + ("\n" + rest)) ==
            if BeginsEmpty(rest) then Some(|s|) else Shifted(Boundary(rest), |s| + 1)
  {
    hide Boundary;
    NoBoundaryInFeed();
    BoundaryJoin(s, "\n" + rest);
    BoundaryJoin("\n", rest);
  }

  lemma MarkedLineFeed(block: string)
    requires Boundary(block + "\n").None?
    ensures Boundary(block + "\n\r").None? && !EndsLine(block + "\n\r")
  {
    hide Boundary;
    NoBoundaryInFeed();
    BoundaryJoin(block + "\n", "\r");
    assert block + "\n" + "\r" == block + "\n\r";
  }

  /** The blocks without the boundary. */
  lemma HiddenBoundary(block: string, rest: string)
    requires Boundary(block + "\n").None?
    ensures var cut := block + "\n\r" + ("\n" + rest);
            if BeginsEmpty(rest) then Blocks(cut) == [block + "\n\r"] + Blocks(rest[1..])
            else match Boundary(rest)
              case None => Blocks(cut) == []
              case Some(i) => Blocks(cut) == [block + "\n\r\n" + rest[..i]] + Blocks(rest[i + 2..])
  {
    hide Boundary, Blocks;
    var front := block + "\n\r";
    MarkedLineFeed(block);
    NextBoundary(front, rest);
    var cut := front + ("\n" + rest);
    if BeginsEmpty(rest) {
      BlocksFrom(cut, |block| + 2);
      assert cut[..|block| + 2] == front && cut[|block| + 4..] == rest[1..];
    } else if Boundary(rest).Some? {
      var i := Boundary(rest).value;
      BlocksFrom(cut, |block| + 3 + i);
      assert cut[..|block| + 3 + i] == front + ("\n" + rest[..i]) == block + "\n\r\n" + rest[..i];
      assert cut[|block| + 3 + i + 2..] == rest[i + 2..];
    } else {
      NoBoundaryNoBlocks(cut);
    }
  }

  lemma HiddenBoundaryIff(block: string, rest: string)
    requires Boundary(block + "\n").None?
    ensures Delivered(Blocks(block + "\n\r\n" + rest)) == Delivered(Blocks(block + "\n\n" + rest))
       <==> !BoundaryMatters(block, rest)
  {
    hide Boundary, EventOf, Delivered, Blocks, MergingMatters;
    SeenBoundary(block, rest);
    HiddenBoundary(block, rest);
    assert block + "\n\r\n" + rest == block + "\n\r" + ("\n" + rest);
    DeliveredJoin([block], Blocks(rest));
    DeliveredOne(block);
    if BeginsEmpty(rest) {
      var after := rest[1..];
      assert rest == "\n" + after;
      LeadingLineFeed(after);
      BlankLineAround(block);
      DeliveredOne(block + "\n\r");
      DeliveredJoin([block + "\n\r"], Blocks(after));
    } else if Boundary(rest).Some? {
      var i := Boundary(rest).value;
      var next, after := rest[..i], Delivered(Blocks(rest[i + 2..]));
      BlocksFrom(rest, i);
      DeliveredJoin([next], Blocks(rest[i + 2..]));
      DeliveredJoin([block + "\n\r\n" + next], Blocks(rest[i + 2..]));
      MergingMattersIff(block, next);
      SameBeforeIff(Delivered([block + "\n\r\n" + next]), Delivered([block]) + Delivered([next]), after);
      assert Delivered([block]) + (Delivered([next]) + after) == Delivered([block]) + Delivered([next]) + after;
    } else {
      NoBoundaryNoBlocks(rest);
      NothingDelivered();
    }
  }

  lemma SameBeforeIff<T>(a: seq<T>, b: seq<T>, after: seq<T>)
    ensures a + after == b + after <==> a == b
  {
    if a + after == b + after {
      assert a == (a + after)[..|a|] && b == (b + after)[..|b|];
    }
  }

  lemma SameAfterIff<T>(before: seq<T>, a: seq<T>, b: seq<T>)
    ensures before + a == before + b <==> a == b
  {
    if before + a == before + b {
      assert a == (before + a)[|before|..] && b == (before + b)[|before|..];
    }
  }

  lemma {:induction false} ReceivedJoin(left: seq<string>, right: seq<string>)
    ensures Received(left + right) == Received(left) + Received(right)
    decreases |right|
  {
    hide Unix;
    if right == [] {
      assert left + right == left;
    } else {
      ReceivedJoin(left, right[..|right| - 1]);
      assert (left + right)[..|left + right| - 1] == left + right[..|right| - 1];
    }
  }

  /** Marking one line feed of the text after `buffer`. */
  lemma OneMarkIff(buffer: string, rest: string)
    requires Boundary(buffer).None?
    ensures Delivered(Blocks(buffer + "\r\n" + rest)) == Delivered(Blocks(buffer + "\n" + rest))
       <==> !(EndsLine(buffer) && BoundaryMatters(buffer[..|buffer| - 1], rest))
  {
    hide Boundary, Delivered, Blocks, BoundaryMatters, Marked;
    if EndsLine(buffer) {
      var block := buffer[..|buffer| - 1];
      assert buffer == block + "\n";
      assert buffer + "\r\n" + rest == block + "\n\r\n" + rest && buffer + "\n" + rest == block + "\n\n" + rest;
      HiddenBoundaryIff(block, rest);
    } else {
      var fed := "\n" + rest;
      MarkedSame(buffer, true);
      CutMarks(fed);
      MarkedJoin(buffer, buffer, true, fed, ['\r'] + fed);
      assert buffer + fed == buffer + "\n" + rest && buffer + (['\r'] + fed) == buffer + "\r\n" + rest;
      MarkedEvents(buffer + "\n" + rest, buffer + "\r\n" + rest, true);
    }
  }

  lemma ReceivedPair(x: string, y: string)
    ensures Received([x]) == Unix(x) && Received([x, y]) == Unix(x) + Unix(y)
  {
    hide Unix;
    assert [x, y][..1] == [x] && [x][..0] == [];
  }

  lemma ReceivedApart(front: seq<string>, x: string, y: string, back: seq<string>)
    ensures Received(front + [x, y] + back) == Received(front) + (Unix(x) + Unix(y)) + Received(back)
    ensures Received(front + [x + y] + back) == Received(front) + Unix(x + y) + Received(back)
  {
    hide Received, Unix;
    ReceivedJoin(front + [x, y], back);
    ReceivedJoin(front, [x, y]);
    ReceivedPair(x, y);
    ReceivedJoin(front + [x + y], back);
    ReceivedJoin(front, [x + y]);
    ReceivedPair(x + y, "");
  }

  lemma ReceivedAround(front: seq<string>, x: string, y: string, back: seq<string>)
    requires CutsPair(x, y)
    ensures var before, rest := Received(front) + Unix(x[..|x| - 1]), AfterFeed(Unix(y)) + Received(back);
            && Received(front + [x, y] + back) == before + ("\r\n" + rest)
            && Received(front + [x + y] + back) == before + ("\n" + rest)
  {
    hide Unix, Received;
    UnixCut(x, y);
    ReceivedApart(front, x, y, back);
    Regroup(Received(front), Unix(x[..|x| - 1]), Unix(y), Received(back));
  }

  lemma Regroup(a: string, b: string, u: string, d: string)
    requires BeginsEmpty(u)
    ensures a + (b + ['\r'] + u) + d == a + b + ("\r\n" + (AfterFeed(u) + d))
    ensures a + (b + u) + d == a + b + ("\n" + (AfterFeed(u) + d))
  {
    assert u == ['\n'] + u[1..];
    assert a + (b + u) + d == a + b + (u + d) && u + d == "\n" + (u[1..] + d);
    assert a + (b + ['\r'] + u) + d == a + b + (['\r'] + (u + d)) && ['\r'] + (u + d) == "\r\n" + (u[1..] + d);
  }

  lemma CutEndMattersIff(front: seq<string>, x: string, y: string, back: seq<string>)
    requires CutsPair(x, y)
    ensures var buffer := Remainder(Received(front) + Unix(x[..|x| - 1]));
            var rest := AfterFeed(Unix(y)) + Received(back);
            Delivered(Blocks(Received(front + [x, y] + back))) != Delivered(Blocks(Received(front + [x + y] + back)))
            <==> EndsLine(buffer) && BoundaryMatters(buffer[..|buffer| - 1], rest)
  {
    hide Unix, Blocks, Remainder, Delivered, BoundaryMatters, Received;
    UnixCut(x, y);
    var before, rest := Received(front) + Unix(x[..|x| - 1]), AfterFeed(Unix(y)) + Received(back);
    ReceivedAround(front, x, y, back);
    BlocksJoin(before, "\r\n" + rest);
    BlocksJoin(before, "\n" + rest);
    var buffer := Remainder(before);
    DeliveredJoin(Blocks(before), Blocks(buffer + ("\r\n" + rest)));
    DeliveredJoin(Blocks(before), Blocks(buffer + ("\n" + rest)));
    SameAfterIff(Delivered(Blocks(before)), Delivered(Blocks(buffer + ("\r\n" + rest))),
                 Delivered(Blocks(buffer + ("\n" + rest))));
    assert buffer + ("\r\n" + rest) == buffer + "\r\n" + rest && buffer + ("\n" + rest) == buffer + "\n" + rest;
    OneMarkIff(buffer, rest);
  }

  /** `x` and `y` read apart or together, in any stream: when the events differ. */
  predicate ReadEndMatters(front: seq<string>, x: string, y: string, back: seq<string>) {
    && CutsPair(x, y)
    && var buffer := Remainder(Received(front) + Unix(x[..|x| - 1]));
       EndsLine(buffer) && BoundaryMatters(buffer[..|buffer| - 1], AfterFeed(Unix(y)) + Received(back))
  }

  /**
   The end of a read changes the events exactly if it cuts a pair, the buffer then holds a block and
   the line feed of its last line, no line feed follows the pair, and it matters to read that block
   together with the one after it, or to wait for one.
  */
  lemma ReadEndMattersIff(front: seq<string>, x: string, y: string, back: seq<string>)
    ensures Delivered(Blocks(Received(front + [x, y] + back))) != Delivered(Blocks(Received(front + [x + y] + back)))
       <==> ReadEndMatters(front, x, y, back)
  {
    hide Unix, Blocks, Remainder, Delivered, BoundaryMatters, Received, EndsLine;
    if CutsPair(x, y) {
      CutEndMattersIff(front, x, y, back);
    } else {
      UnixJoin(x, y);
      ReceivedApart(front, x, y, back);
    }
  }
}
