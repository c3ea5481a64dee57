/** The event-stream reader of the playground's MCP client: blocks are cut from a growing buffer. */
module Sse {
  import opened Wrappers
  import opened Text

  // ── Text ─────────────────────────────────────────────────────

  /** `replace(/\r\n/g, "\n")`. */
  function Unix(s: string): (r: string)
    ensures |r| <= |s|
    decreases |s|
  {
    if |s| >= 2 && s[0] == '\r' && s[1] == '\n' then ['\n'] + Unix(s[2..])
    else if s == [] then []
    else [s[0]] + Unix(s[1..])
  }

  /** The cut between `a` and `b` separates a carriage return from its line feed. */
  predicate CutsPair(a: string, b: string) { a != [] && b != [] && a[|a| - 1] == '\r' && b[0] == '\n' }

  /** Where the first empty line starts (`indexOf("\n\n")`). */
  function Boundary(s: string): (r: Option<nat>)
    ensures r.Some? ==> r.value + 2 <= |s| && s[r.value] == s[r.value + 1] == '\n'
    decreases |s|
  {
    if |s| < 2 then None
    else if s[0] == s[1] == '\n' then Some(0)
    else match Boundary(s[1..])
      case Some(i) => Some(i + 1)
      case None => None
  }

  lemma {:induction false} BoundaryIsFirst(s: string, i: nat)
    requires i + 2 <= |s| && s[i] == s[i + 1] == '\n'
    ensures Boundary(s).Some? && Boundary(s).value <= i
    decreases |s|
  {
    if i > 0 { BoundaryIsFirst(s[1..], i - 1); }
  }

  /** The complete blocks of a text. */
  function Blocks(s: string): seq<string>
    decreases |s|
  {
    match Boundary(s)
    case None => []
    case Some(i) => [s[..i]] + Blocks(s[i + 2..])
  }

  /** What follows the last complete block. */
  function Remainder(s: string): (r: string)
    ensures Boundary(r).None?
    decreases |s|
  {
    match Boundary(s)
    case None => s
    case Some(i) => Remainder(s[i + 2..])
  }

  lemma {:induction false} BoundaryStays(s: string, t: string)
    requires Boundary(s).Some?
    ensures Boundary(s + t) == Boundary(s)
    decreases |s|
  {
    if !(s[0] == s[1] == '\n') {
      assert (s + t)[1..] == s[1..] + t;
      BoundaryStays(s[1..], t);
    }
  }

  /** Cutting blocks from the first part and then from what is left is cutting them from the whole. */
  lemma {:induction false} BlocksJoin(s: string, t: string)
    ensures Blocks(s + t) == Blocks(s) + Blocks(Remainder(s) + t)
    ensures Remainder(s + t) == Remainder(Remainder(s) + t)
    decreases |s|
  {
    hide Boundary;
    match Boundary(s)
    case None =>
      assert Blocks(s) == [] && Remainder(s) == s;
    case Some(i) =>
      BoundaryStays(s, t);
      assert (s + t)[..i] == s[..i] && (s + t)[i + 2..] == s[i + 2..] + t;
      BlocksJoin(s[i + 2..], t);
  }

  // ── Events ───────────────────────────────────────────────────

  datatype SseEvent = SseEvent(event: Option<string>, data: string)

  /** White space for `String.prototype.trim`. */
  predicate IsJsSpace(c: char) { (IsSpace(c) && c as int != 0x85) || c as int == 0xFEFF }

  function JsTrim(s: string): string
    decreases |s|
  {
    if s != [] && IsJsSpace(s[0]) then JsTrim(s[1..])
    else if s != [] && IsJsSpace(s[|s| - 1]) then JsTrim(s[..|s| - 1])
    else s
  }

  /** `split(/\r?\n/)`; `line` is the line being read. */
  function SplitCrLf(s: string, line: string): seq<string>
    decreases |s|
  {
    if s == [] then [line]
    else if s[0] == '\n' then
      [if line != [] && line[|line| - 1] == '\r' then line[..|line| - 1] else line] + SplitCrLf(s[1..], [])
    else SplitCrLf(s[1..], line + [s[0]])
  }

  const EVENT_FIELD: string := "event:"
  const DATA_FIELD: string := "data:"

  /** The last `event:` field. */
  function EventName(lines: seq<string>): Option<string> {
    if lines == [] then None
    else if EVENT_FIELD <= lines[|lines| - 1] then Some(JsTrim(lines[|lines| - 1][6..]))
    else EventName(lines[..|lines| - 1])
  }

  /** The `data:` fields, each on a line of its own. */
  function EventData(lines: seq<string>): string {
    if lines == [] then []
    else
      var line := lines[|lines| - 1];
      EventData(lines[..|lines| - 1]) + if DATA_FIELD <= line then JsTrim(line[5..]) + "\n" else ""
  }

  function EventOf(block: string): SseEvent {
    var lines := SplitCrLf(block, []);
    SseEvent(EventName(lines), JsTrim(EventData(lines)))
  }

  method ParseSseEvent(block: string) returns (event: SseEvent)
    ensures event == EventOf(block)
  {
    hide JsTrim, SplitCrLf;
    event := SseEvent(None, "");
    var lines := SplitCrLf(block, []);
    for k := 0 to |lines|
      invariant event == SseEvent(EventName(lines[..k]), EventData(lines[..k]))
    {
      var line := lines[k];
      assert lines[..k + 1][..k] == lines[..k];
      assert EventData(lines[..k]) + "" == EventData(lines[..k]);
      assert (EVENT_FIELD <= line ==> line[0] == 'e') && (DATA_FIELD <= line ==> line[0] == 'd');
      if EVENT_FIELD <= line {
        event := event.(event := Some(JsTrim(line[6..])));
      } else if DATA_FIELD <= line {
        event := event.(data := event.data + (JsTrim(line[5..]) + "\n"));
      }
    }
    assert lines[..|lines|] == lines;
    event := event.(data := JsTrim(event.data));
  }

  /** Events without data are not delivered. */
  function Delivered(blocks: seq<string>): seq<SseEvent> {
    if blocks == [] then []
    else
      var e := EventOf(blocks[|blocks| - 1]);
      Delivered(blocks[..|blocks| - 1]) + if e.data != [] then [e] else []
  }

  lemma {:induction false} DeliveredJoin(left: seq<string>, right: seq<string>)
    ensures Delivered(left + right) == Delivered(left) + Delivered(right)
    decreases |right|
  {
    hide EventOf;
    if right == [] {
      assert left + right == left;
    } else {
      DeliveredJoin(left, right[..|right| - 1]);
      assert (left + right)[..|left + right| - 1] == left + right[..|right| - 1];
    }
  }

  // ── The reading loop ─────────────────────────────────────────

  /** The text the loop works on: every read is normalised on its own. */
  function Received(chunks: seq<string>): string {
    if chunks == [] then [] else Received(chunks[..|chunks| - 1]) + Unix(chunks[|chunks| - 1])
  }

  /** Cuts every complete block from the buffer. */
  method DrainBlocks(text: string) returns (events: seq<SseEvent>, buffer: string)
    ensures events == Delivered(Blocks(text)) && buffer == Remainder(text) && Boundary(buffer).None?
  {
    hide Boundary, EventOf, Delivered;
    events, buffer := [], text;
    NothingDelivered();
    ghost var cut: seq<string> := [];
    var boundary := Boundary(buffer);
    while boundary.Some?
      invariant boundary == Boundary(buffer)
      invariant cut + Blocks(buffer) == Blocks(text) && Remainder(buffer) == Remainder(text)
      invariant events == Delivered(cut)
      decreases |buffer|
    {
      var block := buffer[..boundary.value];
      buffer := buffer[boundary.value + 2..];
      var event := ParseSseEvent(block);
      DeliveredJoin(cut, [block]);
      DeliveredOne(block);
      cut := cut + [block];
      if event.data != [] {
        events := events + [event];
      }
      boundary := Boundary(buffer);
    }
    assert cut == Blocks(text);
  }

  lemma NothingDelivered()
    ensures Delivered([]) == []
  {
  }

  lemma DeliveredOne(block: string)
    ensures Delivered([block]) == if EventOf(block).data != [] then [EventOf(block)] else []
  {
  }

  /** However the received text is cut into reads, the events are those of the whole text. */
  method ReadSse(chunks: seq<string>) returns (events: seq<SseEvent>)
    ensures events == Delivered(Blocks(Received(chunks)))
  {
    hide Boundary, EventOf, Delivered, Blocks, Remainder, Unix;
    events := [];
    NothingDelivered();
    NoBlocks();
    var buffer := "";
    for k := 0 to |chunks|
      invariant events == Delivered(Blocks(Received(chunks[..k]))) && buffer == Remainder(Received(chunks[..k]))
    {
      assert chunks[..k + 1][..k] == chunks[..k];
      var before := Received(chunks[..k]);
      var more := Unix(chunks[k]);
      BlocksJoin(before, more);
      DeliveredJoin(Blocks(before), Blocks(buffer + more));
      var found: seq<SseEvent>;
      found, buffer := DrainBlocks(buffer + more);
      events := events + found;
    }
    assert chunks[..|chunks|] == chunks;
  }

  lemma NoBlocks()
    ensures Blocks("") == [] && Remainder("") == ""
  {
  }

  // ── Cuts and carriage returns ────────────────────────────────

  /** The text sent. */
  function Sent(chunks: seq<string>): string {
    if chunks == [] then [] else Sent(chunks[..|chunks| - 1]) + chunks[|chunks| - 1]
  }

  /** No read ends between a carriage return and its line feed. */
  predicate KeepsPairs(chunks: seq<string>) {
    chunks != [] ==> KeepsPairs(chunks[..|chunks| - 1]) && !CutsPair(Sent(chunks[..|chunks| - 1]), chunks[|chunks| - 1])
  }

  /**
   Normalising the parts is normalising the whole, unless the cut separates a pair; then it leaves one
   character more.
  */
  lemma {:induction false} UnixJoin(a: string, b: string)
    ensures if CutsPair(a, b) then |Unix(a) + Unix(b)| == |Unix(a + b)| + 1 else Unix(a) + Unix(b) == Unix(a + b)
    decreases |a|
  {
    hide Unix;
    NothingSent();
    if a == [] {
      assert a + b == b;
    } else if |a| >= 2 && a[0] == '\r' && a[1] == '\n' {
      UnixPair(a, a[2..]);
      UnixPair(a + b, a[2..] + b);
      UnixJoin(a[2..], b);
    } else if |a| == 1 && CutsPair(a, b) {
      UnixPair(a + b, b[1..]);
      UnixOther(a, []);
      UnixOther(b, b[1..]);
    } else {
      UnixOther(a, a[1..]);
      UnixOther(a + b, a[1..] + b);
      UnixJoin(a[1..], b);
    }
  }

  lemma UnixPair(s: string, rest: string)
    requires |s| >= 2 && s[0] == '\r' && s[1] == '\n' && rest == s[2..]
    ensures Unix(s) == ['\n'] + Unix(rest)
  {
  }

  lemma UnixOther(s: string, rest: string)
    requires s != [] && rest == s[1..] && !(|s| >= 2 && s[0] == '\r' && s[1] == '\n')
    ensures Unix(s) == [s[0]] + Unix(rest)
  {
  }

  lemma {:induction false} ReceivedIsLonger(chunks: seq<string>)
    ensures |Received(chunks)| >= |Unix(Sent(chunks))|
  {
    hide Unix;
    if chunks != [] {
      ReceivedIsLonger(chunks[..|chunks| - 1]);
      UnixJoin(Sent(chunks[..|chunks| - 1]), chunks[|chunks| - 1]);
    } else {
      NothingSent();
    }
  }

  lemma NothingSent()
    ensures Unix([]) == []
  {
  }

  /** The reader sees the normalised text sent exactly if no read ends inside a pair. */
  lemma {:induction false} ReceivedIffPairsKept(chunks: seq<string>)
    ensures Received(chunks) == Unix(Sent(chunks)) <==> KeepsPairs(chunks)
  {
    hide Unix, CutsPair;
    NothingSent();
    if chunks != [] {
      var front, last := chunks[..|chunks| - 1], chunks[|chunks| - 1];
      ReceivedIffPairsKept(front);
      ReceivedIsLonger(front);
      UnixJoin(Sent(front), last);
      if Received(chunks) == Unix(Sent(chunks)) {
        assert |Received(front)| == |Unix(Sent(front))|;
        assert Received(front) == Received(chunks)[..|Received(front)|];
        assert Unix(Sent(front)) == (Unix(Sent(front)) + Unix(last))[..|Received(front)|];
      }
    }
  }

  ghost predicate NoReturns(s: string) { '\r' !in s }

  /** A stream without carriage returns gives the same events for every cutting. */
  lemma {:induction false} NoReturnsNoPairs(chunks: seq<string>)
    requires NoReturns(Sent(chunks))
    ensures KeepsPairs(chunks) && Received(chunks) == Unix(Sent(chunks))
  {
    hide Unix;
    if chunks != [] { NoReturnsNoPairs(chunks[..|chunks| - 1]); }
    ReceivedIffPairsKept(chunks);
  }

  lemma CuttingDoesNotMatter(chunks: seq<string>, others: seq<string>)
    requires Sent(chunks) == Sent(others)
    requires (KeepsPairs(chunks) && KeepsPairs(others)) || NoReturns(Sent(chunks))
    ensures Delivered(Blocks(Received(chunks))) == Delivered(Blocks(Received(others)))
  {
    if NoReturns(Sent(chunks)) {
      NoReturnsNoPairs(chunks);
      NoReturnsNoPairs(others);
    }
    ReceivedIffPairsKept(chunks);
    ReceivedIffPairsKept(others);
  }

  predicate OneLine(s: string) { '\r' !in s && '\n' !in s }

  lemma {:induction false} OneLineStays(s: string, t: string)
    requires OneLine(s)
    ensures Unix(s + t) == s + Unix(t)
    decreases |s|
  {
    hide Unix;
    if s == [] {
      assert s + t == t;
    } else {
      assert (s + t)[1..] == s[1..] + t && s[0] in s;
      UnixOther(s + t, s[1..] + t);
      OneLineStays(s[1..], t);
    }
  }

  lemma {:induction false} NoBoundaryInLine(s: string, t: string)
    requires OneLine(s)
    ensures Boundary(s + t) == if Boundary(t).Some? then Some(|s| + Boundary(t).value) else None
    decreases |s|
  {
    if s == [] {
      assert s + t == t;
    } else {
      assert (s + t)[1..] == s[1..] + t && s[0] in s;
      NoBoundaryInLine(s[1..], t);
    }
  }

  lemma PairsAlone()
    ensures Unix("\r\n\r\n") == "\n\n" && Unix("\r\n\r") == "\n\r" && Unix("\n") == "\n" && Unix("") == ""
    ensures Boundary("\n\n") == Some(0) && Boundary("\n\r\n").None? && Boundary("").None?
  {
  }

  /** A read that ends inside a pair hides the end of a block: the one event of the stream is not delivered. */
  lemma CutPairHidesBlock(line: string)
    requires OneLine(line)
    ensures Sent([line + "\r\n\r\n"]) == Sent([line + "\r\n\r", "\n"])
    ensures Blocks(Received([line + "\r\n\r\n"])) == [line]
    ensures Blocks(Received([line + "\r\n\r", "\n"])) == []
  {
    hide Unix, Boundary;
    var whole, cut := line + "\r\n\r\n", line + "\r\n\r";
    PairsAlone();
    OneLineStays(line, "\r\n\r\n");
    OneLineStays(line, "\r\n\r");
    NoBoundaryInLine(line, "\n\n");
    NoBoundaryInLine(line, "\n\r\n");
    assert [whole][..0] == [] && [cut, "\n"][..1] == [cut] && [cut][..0] == [];
    assert Sent([cut]) == cut && cut + "\n" == whole;
    var text := line + "\n\n";
    assert Received([whole]) == text;
    assert text[..|line|] == line && text[|line| + 2..] == "" && Blocks("") == [];
    assert Received([cut]) == line + "\n\r" && line + "\n\r" + "\n" == line + "\n\r\n";
    assert Received([cut, "\n"]) == line + "\n\r\n";
  }
}
