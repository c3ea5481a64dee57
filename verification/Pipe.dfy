/** The JSONL loop: a bounded line reader over buffer fills, and one answer per line that needs one. */
module Pipe {
  import opened Wrappers
  import opened Text

  const NEWLINE: Byte := 10

  // ── Lines of a byte stream ───────────────────────────────────

  /** The number of bytes before the first newline, or all of them. */
  function LineLength(s: Bytes): (n: nat)
    ensures n <= |s| && NEWLINE !in s[..n] && (n < |s| ==> s[n] == NEWLINE)
  {
    if s == [] || s[0] == NEWLINE then 0
    else
      var n := 1 + LineLength(s[1..]);
      assert s[..n] == [s[0]] + s[1..][..n - 1];
      n
  }

  lemma {:induction false} LengthIs(s: Bytes, n: nat)
    requires n <= |s| && NEWLINE !in s[..n] && (n < |s| ==> s[n] == NEWLINE)
    ensures LineLength(s) == n
  {
  }

  function FirstLine(s: Bytes): Bytes { s[..LineLength(s)] }

  /** What follows the first line and its newline. */
  function AfterLine(s: Bytes): (r: Bytes)
    ensures s != [] ==> |r| < |s|
  {
    if LineLength(s) < |s| then s[LineLength(s) + 1..] else []
  }

  /** The lines of a stream; the last need not end with a newline. */
  function SplitLines(s: Bytes): seq<Bytes>
    decreases |s|
  {
    if s == [] then [] else [FirstLine(s)] + SplitLines(AfterLine(s))
  }

  /** Splitting loses nothing: ending each line with a newline gives the stream back, but for a missing last newline. */
  lemma {:induction false} SplitRoundTrip(s: Bytes)
    ensures Terminated(SplitLines(s), NEWLINE) == if s == [] || s[|s| - 1] == NEWLINE then s else s + [NEWLINE]
    ensures forall k :: 0 <= k < |SplitLines(s)| ==> NEWLINE !in SplitLines(s)[k]
    decreases |s|
  {
    hide LineLength, FirstLine, AfterLine, Terminated;
    if s == [] {
      NothingTerminated();
    } else {
      LineParts(s);
      SplitRoundTrip(AfterLine(s));
      TerminatedCons(FirstLine(s), SplitLines(AfterLine(s)), NEWLINE);
    }
  }

  lemma NothingTerminated()
    ensures Terminated([], NEWLINE) == []
  {
  }

  lemma LineParts(s: Bytes)
    requires s != []
    ensures |AfterLine(s)| < |s| && NEWLINE !in FirstLine(s)
    ensures || FirstLine(s) + [NEWLINE] + AfterLine(s) == s
            || (s[|s| - 1] != NEWLINE && FirstLine(s) == s && AfterLine(s) == [])
    ensures AfterLine(s) != [] ==> AfterLine(s)[|AfterLine(s)| - 1] == s[|s| - 1]
    ensures FirstLine(s) != s && AfterLine(s) == [] ==> s[|s| - 1] == NEWLINE
  {
  }

  // ── The reader ───────────────────────────────────────────────

  datatype LineRead = Line(text: string) | TooLong | InvalidUtf8

  /** What a line is read as, by a decoder of UTF-8. */
  function ReadAs(decode: Bytes -> Option<string>, line: Bytes, maxBytes: nat): LineRead {
    if |line| > maxBytes then TooLong
    else match decode(line)
      case Some(text) => Line(text)
      case None => InvalidUtf8
  }

  /** A `BufRead`: the bytes still to come, cut into buffer fills in some way. */
  class BufReader {
    var fills: seq<Bytes>

    ghost predicate Valid()
      reads this
    {
      forall k :: 0 <= k < |fills| ==> fills[k] != []
    }

    ghost function Stream(): Bytes
      reads this
    {
      Flatten(fills)
    }

    constructor (cut: seq<Bytes>)
      requires forall k :: 0 <= k < |cut| ==> cut[k] != []
      ensures Valid() && fills == cut
    {
      fills := cut;
    }

    /** `fill_buf`: what is buffered; nothing only at the end of the stream. */
    function FillBuf(): (available: Bytes)
      requires Valid()
      reads this
      ensures available == [] <==> Stream() == []
      ensures available <= Stream()
    {
      if fills == [] then [] else fills[0]
    }

    method Consume(n: nat)
      requires Valid() && 0 < n <= |FillBuf()|
      modifies this
      ensures Valid() && Stream() == old(Stream())[n..]
    {
      assert fills[0] != [] && Stream() == fills[0] + Flatten(fills[1..]);
      if n == |fills[0]| {
        fills := fills[1..];
      } else {
        fills := [fills[0][n..]] + fills[1..];
        assert fills[1..] == old(fills)[1..];
      }
    }
  }

  /** `max_bytes` allows for the line so far. */
  ghost predicate Gathered(buf: Bytes, exceeded: bool, seen: Bytes, maxBytes: nat) {
    if exceeded then |seen| > maxBytes && buf == [] else buf == seen && |seen| <= maxBytes
  }

  /** `seen` is the beginning of the stream's first line, `rest` is still to be read. */
  ghost predicate ReadSoFar(stream: Bytes, seen: Bytes, rest: Bytes) { NEWLINE !in seen && seen + rest == stream }

  lemma LineContinues(stream: Bytes, seen: Bytes, rest: Bytes, part: Bytes)
    requires ReadSoFar(stream, seen, rest) && part <= rest && NEWLINE !in part
    ensures ReadSoFar(stream, seen + part, rest[|part|..])
  {
  }

  lemma LineEnds(stream: Bytes, line: Bytes)
    requires ReadSoFar(stream, line, [])
    ensures FirstLine(stream) == line == stream && AfterLine(stream) == []
  {
  }

  lemma LineFound(stream: Bytes, seen: Bytes, rest: Bytes, pos: nat)
    requires ReadSoFar(stream, seen, rest) && pos < |rest| && rest[pos] == NEWLINE && NEWLINE !in rest[..pos]
    ensures stream != [] && FirstLine(stream) == seen + rest[..pos] && AfterLine(stream) == rest[pos + 1..]
  {
    var line := seen + rest[..pos];
    assert stream == line + [NEWLINE] + rest[pos + 1..];
    LengthIs(stream, |line|);
  }

  /** What `position` finds in the buffer it finds in the stream. */
  lemma FoundInBuffer(available: Bytes, rest: Bytes)
    requires available <= rest
    ensures var pos := LineLength(available);
            && pos <= |available| && available[..pos] == rest[..pos] && NEWLINE !in rest[..pos]
            && (pos < |available| ==> rest[pos] == NEWLINE) && (pos == |available| ==> available[..pos] == available)
  {
  }

  /**
   Reads the first line of the stream, whatever the fills; `peak` is the most that was buffered.
   `None` is the end of the stream.
  */
  method ReadLimitedLine(reader: BufReader, maxBytes: nat, decode: Bytes -> Option<string>)
    returns (r: Option<LineRead>, ghost peak: nat)
    requires reader.Valid()
    modifies reader
    ensures reader.Valid() && peak <= maxBytes
    ensures r.None? <==> old(reader.Stream()) == []
    ensures r.Some? ==> r.value == ReadAs(decode, FirstLine(old(reader.Stream())), maxBytes)
    ensures reader.Stream() == AfterLine(old(reader.Stream()))
  {
    hide Flatten, LineLength, FirstLine, AfterLine, ReadAs, Finish, ReadSoFar;
    var buf: Bytes := [];
    var exceeded := false;
    peak := 0;
    ghost var stream, seen: Bytes := reader.Stream(), [];
    NothingRead(stream);
    while true
      invariant reader.Valid() && ReadSoFar(stream, seen, reader.Stream())
      invariant Gathered(buf, exceeded, seen, maxBytes) && |buf| <= peak <= maxBytes
      decreases |reader.Stream()|
    {
      var available := reader.FillBuf();
      if available == [] {
        LineEnds(stream, seen);
        ReadLine(decode, buf, exceeded, seen, maxBytes);
        if buf == [] && !exceeded {
          return None, peak;
        }
        return Some(if exceeded then TooLong else Finish(decode, buf)), peak;
      }
      var pos := LineLength(available);
      FoundInBuffer(available, reader.Stream());
      LineContinues(stream, seen, reader.Stream(), available[..pos]);
      var slice := available[..pos];
      ghost var line := seen + slice;
      if !exceeded {
        if |buf| + |slice| > maxBytes {
          exceeded, buf := true, [];
        } else {
          buf := buf + slice;
        }
      }
      peak := if |buf| > peak then |buf| else peak;
      if pos < |available| {
        LineFound(stream, seen, reader.Stream(), pos);
        ReadLine(decode, buf, exceeded, line, maxBytes);
        reader.Consume(pos + 1);
        return Some(if exceeded then TooLong else Finish(decode, buf)), peak;
      }
      reader.Consume(|available|);
      seen := line;
    }
  }

  lemma NothingRead(stream: Bytes)
    ensures ReadSoFar(stream, [], stream)
  {
  }

  function Finish(decode: Bytes -> Option<string>, buf: Bytes): LineRead {
    match decode(buf)
    case Some(text) => Line(text)
    case None => InvalidUtf8
  }

  lemma ReadLine(decode: Bytes -> Option<string>, buf: Bytes, exceeded: bool, line: Bytes, maxBytes: nat)
    requires Gathered(buf, exceeded, line, maxBytes)
    ensures ReadAs(decode, line, maxBytes) == if exceeded then TooLong else Finish(decode, buf)
  {
  }

  // ── The main loop ────────────────────────────────────────────

  datatype Response = LineTooLong(limit: nat) | ReadError | Reply(json: string)

  /** The answer to one line: none for a blank line. `respond` parses and dispatches. */
  function Answer(read: LineRead, maxBytes: nat, respond: string -> string): seq<Response> {
    match read
    case TooLong => [LineTooLong(maxBytes)]
    case InvalidUtf8 => [ReadError]
    case Line(text) => if IsBlank(text) then [] else [Reply(respond(Trim(text)))]
  }

  function Answers(lines: seq<Bytes>, maxBytes: nat, decode: Bytes -> Option<string>, respond: string -> string)
    : seq<Response>
  {
    if lines == [] then []
    else Answer(ReadAs(decode, lines[0], maxBytes), maxBytes, respond) + Answers(lines[1..], maxBytes, decode, respond)
  }

  /** The lines that are too long, not UTF-8 or not blank get one answer each, in order. */
  predicate NeedsAnswer(line: Bytes, maxBytes: nat, decode: Bytes -> Option<string>) {
    |line| > maxBytes || decode(line).None? || !IsBlank(decode(line).value)
  }

  function LinesToAnswer(lines: seq<Bytes>, maxBytes: nat, decode: Bytes -> Option<string>): seq<Bytes> {
    if lines == [] then []
    else
      (if NeedsAnswer(lines[0], maxBytes, decode) then [lines[0]] else [])
      + LinesToAnswer(lines[1..], maxBytes, decode)
  }

  lemma {:induction false} OneAnswerEach(lines: seq<Bytes>, maxBytes: nat, decode: Bytes -> Option<string>,
                                         respond: string -> string, k: nat)
    ensures |Answers(lines, maxBytes, decode, respond)| == |LinesToAnswer(lines, maxBytes, decode)|
    ensures k < |LinesToAnswer(lines, maxBytes, decode)| ==>
              var line := LinesToAnswer(lines, maxBytes, decode)[k];
              Answers(lines, maxBytes, decode, respond)[k] ==
              if |line| > maxBytes then LineTooLong(maxBytes)
              else if decode(line).None? then ReadError
              else Reply(respond(Trim(decode(line).value)))
    decreases |lines|
  {
    hide IsBlank, Trim;
    if lines != [] {
      var first := NeedsAnswer(lines[0], maxBytes, decode);
      OneAnswerEach(lines[1..], maxBytes, decode, respond, if first && k > 0 then k - 1 else k);
    }
  }

  lemma NoAnswers(maxBytes: nat, decode: Bytes -> Option<string>, respond: string -> string)
    ensures Answers(SplitLines([]), maxBytes, decode, respond) == [] && AfterLine([]) == []
  {
  }

  lemma AnswersStep(s: Bytes, maxBytes: nat, decode: Bytes -> Option<string>, respond: string -> string)
    ensures s != [] ==>
              && |AfterLine(s)| < |s|
              && Answers(SplitLines(s), maxBytes, decode, respond) ==
                 Answer(ReadAs(decode, FirstLine(s), maxBytes), maxBytes, respond)
                 + Answers(SplitLines(AfterLine(s)), maxBytes, decode, respond)
  {
  }

  method RunWithIo(reader: BufReader, maxLineBytes: nat, decode: Bytes -> Option<string>, respond: string -> string)
    returns (written: seq<Response>)
    requires reader.Valid()
    modifies reader
    ensures reader.Valid() && reader.Stream() == []
    ensures written == Answers(SplitLines(old(reader.Stream())), maxLineBytes, decode, respond)
  {
    hide Flatten, LineLength, FirstLine, AfterLine, SplitLines, Answers, IsBlank, Trim, ReadAs;
    written := [];
    NoAnswers(maxLineBytes, decode, respond);
    ghost var stream := reader.Stream();
    while true
      invariant reader.Valid()
      invariant written + Answers(SplitLines(reader.Stream()), maxLineBytes, decode, respond)
             == Answers(SplitLines(stream), maxLineBytes, decode, respond)
      decreases |reader.Stream()|
    {
      AnswersStep(reader.Stream(), maxLineBytes, decode, respond);
      var read, _ := ReadLimitedLine(reader, maxLineBytes, decode);
      if read.None? {
        break;
      }
      match read.value {
        case TooLong =>
          written := written + [LineTooLong(maxLineBytes)];
        case InvalidUtf8 =>
          written := written + [ReadError];
        case Line(text) =>
          if !IsBlank(text) {
            written := written + [Reply(respond(Trim(text)))];
          }
      }
    }
  }
}
