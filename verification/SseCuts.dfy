/**
 Cuts inside a carriage-return line-feed pair, seen at the events: such a cut changes nothing unless
 the pair ends an empty line.
*/
module SseCuts {
  import opened Wrappers
  import opened Text
  import opened Sse

  /** No read ends inside a pair that directly follows a line feed. */
  predicate CutsNoEmptyLine(chunks: seq<string>) {
    chunks != [] ==>
      && CutsNoEmptyLine(chunks[..|chunks| - 1])
      && var sent := Sent(chunks[..|chunks| - 1]);
         CutsPair(sent, chunks[|chunks| - 1]) ==> |sent| < 2 || sent[|sent| - 2] != '\n'
  }

  // ── What a cut leaves in the received text ───────────────────

  /**
   `r` is `u` with carriage returns put before line feeds that do not follow a line feed; `open` says
   that none stands right before.
  */
  predicate Marked(u: string, r: string, open: bool)
    decreases |u|
  {
    if u == [] then r == []
    else
      || (r != [] && r[0] == u[0] && Marked(u[1..], r[1..], u[0] != '\n'))
      || (open && u[0] == '\n' && |r| >= 2 && r[0] == '\r' && r[1] == '\n' && Marked(u[1..], r[2..], false))
  }

  predicate Fresh(u: string) { u == [] || u[|u| - 1] != '\n' }

  lemma {:induction false} MarkedSame(u: string, open: bool)
    ensures Marked(u, u, open)
    decreases |u|
  {
    if u != [] { MarkedSame(u[1..], u[0] != '\n'); }
  }

  lemma {:induction false} MarkedJoin(u: string, r: string, open: bool, u': string, r': string)
    requires Marked(u, r, open) && Marked(u', r', if u == [] then open else Fresh(u))
    ensures Marked(u + u', r + r', open)
    decreases |u|
  {
    if u == [] {
      assert u + u' == u' && r + r' == r';
    } else {
      assert (u + u')[1..] == u[1..] + u' && u[1..] != [] ==> u[1..][|u| - 2] == u[|u| - 1];
      if r != [] && r[0] == u[0] && Marked(u[1..], r[1..], u[0] != '\n') {
        assert (r + r')[1..] == r[1..] + r';
        MarkedJoin(u[1..], r[1..], u[0] != '\n', u', r');
      } else {
        assert (r + r')[2..] == r[2..] + r';
        MarkedJoin(u[1..], r[2..], false, u', r');
      }
    }
  }

  /** A final carriage return is in both. */
  lemma {:induction false} MarkedFront(u: string, r: string, open: bool)
    requires Marked(u + ['\r'], r, open)
    ensures r != [] && r[|r| - 1] == '\r' && Marked(u, r[..|r| - 1], open)
    decreases |u|
  {
    var w := u + ['\r'];
    assert w[1..] == if u == [] then [] else u[1..] + ['\r'];
    if u != [] {
      if r != [] && r[0] == w[0] && Marked(w[1..], r[1..], w[0] != '\n') {
        MarkedFront(u[1..], r[1..], w[0] != '\n');
        assert r[..|r| - 1][1..] == r[1..][..|r| - 2];
      } else {
        MarkedFront(u[1..], r[2..], false);
        assert r[..|r| - 1][2..] == r[2..][..|r| - 3];
      }
    }
  }

  /** A cut pair, with the text before it. */
  lemma {:induction false} UnixCut(a: string, b: string)
    requires CutsPair(a, b)
    ensures Unix(a) == Unix(a[..|a| - 1]) + ['\r'] && Unix(a + b) == Unix(a[..|a| - 1]) + Unix(b)
    ensures Unix(b) != [] && Unix(b)[0] == '\n'
  {
    hide Unix;
    var front := a[..|a| - 1];
    assert a == front + ['\r'] && a + b == front + (['\r'] + b);
    UnixJoin(front, ['\r']);
    UnixJoin(front, ['\r'] + b);
    NothingSent();
    UnixOther(['\r'], []);
    UnixOther(b, b[1..]);
    UnixPair(['\r'] + b, b[1..]);
  }

  lemma {:induction false} UnixEnds(a: string)
    ensures (a == [] ==> Unix(a) == []) && (a != [] ==> Unix(a) != [] && Unix(a)[|Unix(a)| - 1] == a[|a| - 1])
    decreases |a|
  {
    if |a| >= 2 && a[0] == '\r' && a[1] == '\n' {
      UnixEnds(a[2..]);
    } else if a != [] {
      UnixEnds(a[1..]);
    }
  }

  lemma {:induction false} ReceivedIsMarked(chunks: seq<string>)
    requires CutsNoEmptyLine(chunks)
    ensures Marked(Unix(Sent(chunks)), Received(chunks), true)
  {
    hide Unix, Marked;
    NothingSent();
    MarkedSame([], true);
    if chunks != [] {
      var front, last := chunks[..|chunks| - 1], chunks[|chunks| - 1];
      var sent := Sent(front);
      ReceivedIsMarked(front);
      UnixJoin(sent, last);
      if CutsPair(sent, last) {
        var before, r := Unix(sent[..|sent| - 1]), Received(front);
        UnixCut(sent, last);
        MarkedFront(before, r, true);
        UnixEnds(sent[..|sent| - 1]);
        CutMarks(Unix(last));
        MarkedJoin(before, r[..|r| - 1], true, Unix(last), ['\r'] + Unix(last));
        assert r[..|r| - 1] + (['\r'] + Unix(last)) == r + Unix(last);
      } else {
        MarkedSame(Unix(last), if Unix(sent) == [] then true else Fresh(Unix(sent)));
        MarkedJoin(Unix(sent), Received(front), true, Unix(last), Unix(last));
      }
    }
  }

  lemma CutMarks(u: string)
    requires u != [] && u[0] == '\n'
    ensures Marked(u, ['\r'] + u, true)
  {
    MarkedSame(u[1..], false);
    assert (['\r'] + u)[2..] == u[1..];
  }

  // ── Blocks ───────────────────────────────────────────────────

  /** The same block but for marks, the last of which may have lost its line feed to the boundary. */
  predicate SameBlock(u: string, r: string, open: bool) {
    Marked(u, r, open) || (r != [] && r[|r| - 1] == '\r' && Marked(u, r[..|r| - 1], open))
  }

  /** Boundaries at `i` and `j` part the two texts alike. */
  predicate PartAlike(u: string, r: string, open: bool, i: nat, j: nat) {
    && i + 2 <= |u| && j + 2 <= |r|
    && SameBlock(u[..i], r[..j], open) && Marked(u[i + 2..], r[j + 2..], false)
  }

  predicate BoundariesMatch(u: string, r: string, open: bool) {
    match (Boundary(u), Boundary(r))
    case (None, None) => true
    case (Some(i), Some(j)) => PartAlike(u, r, open, i, j)
    case _ => false
  }

  lemma {:induction false} BoundaryMarked(u: string, r: string, open: bool)
    requires Marked(u, r, open)
    ensures BoundariesMatch(u, r, open)
    decreases |u|
  {
    if u == [] {
    } else if r != [] && r[0] == u[0] && Marked(u[1..], r[1..], u[0] != '\n') {
      BoundaryMarked(u[1..], r[1..], u[0] != '\n');
      SameHead(u, r, open);
    } else {
      BoundaryMarked(u[1..], r[2..], false);
      MarkedHead(u, r);
    }
  }

  lemma SameHead(u: string, r: string, open: bool)
    requires u != [] && r != [] && r[0] == u[0] && Marked(u[1..], r[1..], u[0] != '\n')
    requires BoundariesMatch(u[1..], r[1..], u[0] != '\n')
    ensures BoundariesMatch(u, r, open)
  {
    if |u| >= 2 && u[0] == u[1] == '\n' {
      assert u[1..][1..] == u[2..] && r[1..][1..] == r[2..];
    } else if Boundary(u[1..]).Some? {
      var i, j := Boundary(u[1..]).value, Boundary(r[1..]).value;
      assert u[1..][i + 2..] == u[i + 3..] && r[1..][j + 2..] == r[j + 3..];
      assert u[..i + 1][1..] == u[1..][..i] && r[..j + 1][1..] == r[1..][..j];
      if j > 0 {
        assert r[..j][1..] == r[1..][..j - 1] && r[..j + 1][..j] == r[..j];
        assert r[1..][..j][..j - 1] == r[1..][..j - 1];
      }
    }
  }

  lemma MarkedHead(u: string, r: string)
    requires u != [] && |r| >= 2 && u[0] == '\n' && r[0] == '\r' && r[1] == '\n' && Marked(u[1..], r[2..], false)
    requires BoundariesMatch(u[1..], r[2..], false)
    ensures BoundariesMatch(u, r, true)
  {
    assert r[1..][1..] == r[2..];
    if |u| >= 2 && u[1] == '\n' {
      assert u[1..][1..] == u[2..] && r[2..][1..] == r[3..] && r[..1][..0] == [];
      assert r[2..][0] == r[2] == '\n' && Boundary(r[1..]) == Some(0);
    } else if Boundary(u[1..]).Some? {
      var i, j := Boundary(u[1..]).value, Boundary(r[2..]).value;
      assert u[1..][i + 2..] == u[i + 3..] && r[2..][j + 2..] == r[j + 4..];
      assert u[..i + 1][1..] == u[1..][..i] && r[..j + 2][2..] == r[2..][..j];
      if j > 0 {
        assert r[..j + 1][2..] == r[2..][..j - 1] && r[..j + 2][..j + 1] == r[..j + 1];
        assert r[2..][..j][..j - 1] == r[2..][..j - 1];
      }
    }
  }

  // ── Lines and events ─────────────────────────────────────────

  /** The same line, or with one more carriage return at its end. */
  predicate SameLine(x: string, y: string) { y == x || y == x + ['\r'] }

  predicate SameLines(xs: seq<string>, ys: seq<string>) {
    |xs| == |ys| && forall k :: 0 <= k < |xs| ==> SameLine(xs[k], ys[k])
  }

  lemma {:induction false} SplitMarked(u: string, r: string, open: bool, tail: string, line: string)
    requires Marked(u, r, open) && (tail == "" || tail == "\r")
    ensures SameLines(SplitCrLf(u, line), SplitCrLf(r + tail, line))
    decreases |u|
  {
    if u == [] {
      assert r + tail == tail && tail[..|tail|] == tail;
      if tail == "\r" { assert tail[1..] == [] && SplitCrLf(tail, line) == [line + ['\r']]; }
    } else {
      assert r == [r[0]] + r[1..] && (r + tail)[1..] == r[1..] + tail;
      if r[0] == u[0] && Marked(u[1..], r[1..], u[0] != '\n') {
        SplitMarked(u[1..], r[1..], u[0] != '\n', tail, if u[0] == '\n' then [] else line + [u[0]]);
      } else {
        assert (r + tail)[1..][1..] == r[2..] + tail;
        SplitMarked(u[1..], r[2..], false, tail, []);
        MarkedLine(u, r + tail, line);
      }
    }
  }

  /** A marked line end splits off the line, a carriage return of its own included. */
  lemma MarkedLine(u: string, r: string, line: string)
    requires u != [] && u[0] == '\n' && |r| >= 2 && r[0] == '\r' && r[1] == '\n'
    requires SameLines(SplitCrLf(u[1..], []), SplitCrLf(r[2..], []))
    ensures SameLines(SplitCrLf(u, line), SplitCrLf(r, line))
  {
    var longer := line + ['\r'];
    assert r[1..][1..] == r[2..] && longer[..|longer| - 1] == line;
    assert SplitCrLf(r, line) == SplitCrLf(r[1..], longer) == [line] + SplitCrLf(r[2..], []);
    if line != [] && line[|line| - 1] == '\r' {
      assert line == line[..|line| - 1] + ['\r'];
    }
  }

  lemma {:induction false} TrimDropsSpace(s: string, c: char)
    requires IsJsSpace(c)
    ensures JsTrim(s + [c]) == JsTrim(s)
    decreases |s|
  {
    var t := s + [c];
    assert t[..|s|] == s;
    if s == [] {
      assert t[1..] == [];
    } else if IsJsSpace(s[0]) {
      assert t[1..] == s[1..] + [c];
      TrimDropsSpace(s[1..], c);
    }
  }

  /** A field without carriage returns is found in both lines or in neither, with the same value. */
  lemma FieldsAgree(field: string, x: string, y: string)
    requires SameLine(x, y) && '\r' !in field
    ensures field <= x <==> field <= y
    ensures field <= x ==> JsTrim(x[|field|..]) == JsTrim(y[|field|..])
  {
    if y != x {
      assert y[|x|] == '\r' && forall k :: 0 <= k < |field| ==> field[k] in field;
      if field <= x {
        assert y[|field|..] == x[|field|..] + ['\r'];
        TrimDropsSpace(x[|field|..], '\r');
      }
    }
  }

  lemma {:induction false} LinesAgree(xs: seq<string>, ys: seq<string>)
    requires SameLines(xs, ys)
    ensures EventName(xs) == EventName(ys) && EventData(xs) == EventData(ys)
  {
    hide JsTrim;
    if xs != [] {
      var x, y := xs[|xs| - 1], ys[|ys| - 1];
      LinesAgree(xs[..|xs| - 1], ys[..|ys| - 1]);
      FieldsAgree(EVENT_FIELD, x, y);
      FieldsAgree(DATA_FIELD, x, y);
    }
  }

  lemma SameBlockSameEvent(u: string, r: string, open: bool)
    requires SameBlock(u, r, open)
    ensures EventOf(u) == EventOf(r)
  {
    hide JsTrim, SplitCrLf, Marked, EventName, EventData;
    if Marked(u, r, open) {
      SplitMarked(u, r, open, "", []);
      assert r + "" == r;
    } else {
      SplitMarked(u, r[..|r| - 1], open, "\r", []);
      assert r[..|r| - 1] + "\r" == r;
    }
    LinesAgree(SplitCrLf(u, []), SplitCrLf(r, []));
  }

  lemma {:induction false} MarkedEvents(u: string, r: string, open: bool)
    requires Marked(u, r, open)
    ensures Delivered(Blocks(u)) == Delivered(Blocks(r))
    decreases |u|
  {
    hide Boundary, Marked, EventOf, Delivered, SameBlock;
    BoundaryMarked(u, r, open);
    if Boundary(u).Some? {
      var i, j := Boundary(u).value, Boundary(r).value;
      SameBlockSameEvent(u[..i], r[..j], open);
      MarkedEvents(u[i + 2..], r[j + 2..], false);
      DeliveredOne(u[..i]);
      DeliveredOne(r[..j]);
      DeliveredJoin([u[..i]], Blocks(u[i + 2..]));
      DeliveredJoin([r[..j]], Blocks(r[j + 2..]));
    }
  }

  /**
   A read that ends inside a pair changes no event, unless the pair directly follows a line feed: all
   other events are those of the normalised text sent.
  */
  lemma OtherCutsAreHarmless(chunks: seq<string>)
    requires CutsNoEmptyLine(chunks)
    ensures Delivered(Blocks(Received(chunks))) == Delivered(Blocks(Unix(Sent(chunks))))
  {
    ReceivedIsMarked(chunks);
    MarkedEvents(Unix(Sent(chunks)), Received(chunks), true);
  }
}
