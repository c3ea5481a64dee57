/** `split_oversized`: the greedy, overlapping windows over the atoms of a text. */
module ChunkWindows {
  import opened Wrappers
  import opened Utf8
  import opened Text
  import opened ChunkRanges
  import opened ChunkAtoms

  const APPROX_BYTES_PER_TOKEN: nat := 4
  const MAX_CHUNK_TOKENS: nat := 480
  const SPLIT_WINDOW_TOKENS: nat := 440
  const SPLIT_OVERLAP_TOKENS: nat := 60
  const WINDOW_BYTES: nat := SPLIT_WINDOW_TOKENS * APPROX_BYTES_PER_TOKEN
  const OVERLAP_BYTES: nat := SPLIT_OVERLAP_TOKENS * APPROX_BYTES_PER_TOKEN

  /** The atoms `first` to `last`, both included. */
  datatype Window = Window(first: nat, last: nat)

  /** Byte ranges that are not empty and follow each other. */
  ghost predicate InOrder(atoms: seq<Range>) {
    && (forall k :: 0 <= k < |atoms| ==> atoms[k].start < atoms[k].end)
    && forall j, k :: 0 <= j < k < |atoms| ==> atoms[j].end <= atoms[k].start
  }

  /** As many atoms as fit, and at least one. */
  ghost predicate Greedy(atoms: seq<Range>, w: Window) {
    && w.first <= w.last < |atoms|
    && (w.first < w.last ==> atoms[w.last].end - atoms[w.first].start <= WINDOW_BYTES)
    && (w.last + 1 < |atoms| ==> atoms[w.last + 1].end - atoms[w.first].start > WINDOW_BYTES)
  }

  /** Walking back from `n`, not as far as `first`, over the atoms that begin at or after `cut`. */
  function BackTo(atoms: seq<Range>, first: nat, cut: nat, n: nat): (r: nat)
    requires first < n <= |atoms|
    ensures first < r <= n && (forall k :: r <= k < n ==> atoms[k].start >= cut)
    ensures r > first + 1 ==> atoms[r - 1].start < cut
  {
    if n > first + 1 && atoms[n - 1].start >= cut then BackTo(atoms, first, cut, n - 1) else n
  }

  function SaturatingSub(a: nat, b: nat): nat { if a < b then 0 else a - b }

  /** Where the next window starts: in the overlap, or at a small enough last atom, or after the window. */
  function NextStart(atoms: seq<Range>, w: Window): (r: nat)
    requires w.first <= w.last < |atoms| && InOrder(atoms)
    ensures w.first < r <= w.last + 1
  {
    var end := atoms[w.last].end;
    var back := BackTo(atoms, w.first, SaturatingSub(end, OVERLAP_BYTES), w.last + 1);
    if back > w.last && w.last > w.first && end - atoms[w.last].start <= 2 * OVERLAP_BYTES then w.last else back
  }

  /** A window may start at atom `first` after `v`. */
  ghost predicate Follows(atoms: seq<Range>, v: Window, first: nat) {
    && InOrder(atoms) && v.first <= v.last && v.last + 1 < |atoms| && first == NextStart(atoms, v)
  }

  /** The windows so far: each greedy, each starting where the one before says. */
  ghost predicate Chain(atoms: seq<Range>, ws: seq<Window>) {
    && ws != [] && Greedy(atoms, ws[|ws| - 1])
    && if |ws| == 1 then ws[0].first == 0
       else Chain(atoms, ws[..|ws| - 1]) && Follows(atoms, ws[|ws| - 2], ws[|ws| - 1].first)
  }

  /** The windows of the whole list of atoms. */
  ghost predicate Windowing(atoms: seq<Range>, ws: seq<Window>) {
    Chain(atoms, ws) && ws[|ws| - 1].last + 1 == |atoms|
  }

  // ── Window arithmetic ────────────────────────────────────────

  /** The next window starts later, leaves no atom out, ends no earlier and shares at most 480 bytes. */
  lemma WindowAdvances(atoms: seq<Range>, v: Window, w: Window)
    requires Greedy(atoms, v) && Greedy(atoms, w) && Follows(atoms, v, w.first)
    ensures v.first < w.first <= v.last + 1 && v.last <= w.last
    ensures atoms[v.first].start < atoms[w.first].start && atoms[v.last].end <= atoms[w.last].end
    ensures atoms[v.last].end <= atoms[w.first].start + 480
  {
  }

  /**
   What consecutive windows share: every atom but the first that begins in the last 240 bytes, and a
   last atom of at most 480 bytes; nothing before those.
  */
  lemma NextWindowShares(atoms: seq<Range>, v: Window, w: Window, k: nat)
    requires Greedy(atoms, v) && Greedy(atoms, w) && Follows(atoms, v, w.first) && v.first < k <= v.last
    ensures var end := atoms[v.last].end;
            w.first <= k <==>
            atoms[k].start + 240 >= end || (k == v.last && end - atoms[k].start <= 480)
  {
    var end := atoms[v.last].end;
    var back := BackTo(atoms, v.first, SaturatingSub(end, OVERLAP_BYTES), v.last + 1);
    if back > v.first + 1 && k < back { assert atoms[k].start <= atoms[back - 1].start; }
  }

  lemma {:induction false} ChainPrefix(atoms: seq<Range>, ws: seq<Window>, n: nat)
    requires Chain(atoms, ws) && 0 < n <= |ws|
    ensures Chain(atoms, ws[..n])
  {
    if n < |ws| {
      ChainPrefix(atoms, ws[..|ws| - 1], n);
      assert ws[..|ws| - 1][..n] == ws[..n];
    } else {
      assert ws[..n] == ws;
    }
  }

  /** Two consecutive windows of a chain. */
  lemma ChainStep(atoms: seq<Range>, ws: seq<Window>, k: nat)
    requires Chain(atoms, ws) && 0 < k < |ws|
    ensures Greedy(atoms, ws[k - 1]) && Greedy(atoms, ws[k]) && Follows(atoms, ws[k - 1], ws[k].first)
  {
  }

  lemma ChainHead(atoms: seq<Range>, ws: seq<Window>)
    requires Chain(atoms, ws)
    ensures |ws| > 0 && Greedy(atoms, ws[0]) && ws[0].first == 0
  {
    ChainPrefix(atoms, ws, 1);
  }

  lemma {:induction false} WindowsReach(atoms: seq<Range>, ws: seq<Window>, j: nat, k: nat)
    requires Chain(atoms, ws) && j <= k < |ws|
    ensures Greedy(atoms, ws[j]) && Greedy(atoms, ws[k])
    ensures ws[j].first + (k - j) <= ws[k].first && ws[j].last <= ws[k].last
    ensures j < k ==> atoms[ws[j].first].start < atoms[ws[k].first].start
    ensures atoms[ws[j].last].end <= atoms[ws[k].last].end
    decreases k
  {
    hide Chain, Follows;
    if j < k {
      WindowsReach(atoms, ws, j, k - 1);
      ChainStep(atoms, ws, k);
      WindowAdvances(atoms, ws[k - 1], ws[k]);
    } else if k == 0 {
      ChainHead(atoms, ws);
    } else {
      ChainStep(atoms, ws, k);
    }
  }

  /** There are no more windows than atoms. */
  lemma NoMoreWindowsThanAtoms(atoms: seq<Range>, ws: seq<Window>)
    requires Windowing(atoms, ws)
    ensures |ws| <= |atoms|
  {
    WindowsReach(atoms, ws, 0, |ws| - 1);
  }

  lemma NoAtomLeftOut(atoms: seq<Range>, ws: seq<Window>, k: nat)
    requires Chain(atoms, ws) && k < |ws|
    ensures Greedy(atoms, ws[k]) && ws[k].first <= if k == 0 then 0 else ws[k - 1].last + 1
  {
    hide Chain, Follows, InOrder;
    if k == 0 {
      ChainHead(atoms, ws);
    } else {
      ChainStep(atoms, ws, k);
      WindowAdvances(atoms, ws[k - 1], ws[k]);
    }
  }

  /** Every atom up to a window's last is in that window or in an earlier one. */
  lemma {:induction false} AtomInWindowUpTo(atoms: seq<Range>, ws: seq<Window>, a: nat, n: nat) returns (k: nat)
    requires Chain(atoms, ws) && n < |ws| && a <= ws[n].last
    ensures k <= n && Greedy(atoms, ws[k]) && ws[k].first <= a <= ws[k].last
  {
    hide *;
    NoAtomLeftOut(atoms, ws, n);
    if a < ws[n].first { k := AtomInWindowUpTo(atoms, ws, a, n - 1); } else { k := n; }
  }

  /** Every atom is in some window. */
  lemma AtomInWindow(atoms: seq<Range>, ws: seq<Window>, a: nat) returns (k: nat)
    requires Windowing(atoms, ws) && a < |atoms|
    ensures k < |ws| && Greedy(atoms, ws[k]) && ws[k].first <= a <= ws[k].last
  {
    k := AtomInWindowUpTo(atoms, ws, a, |ws| - 1);
  }

  /** The rules leave no choice: two chains agree as far as both go. */
  lemma {:induction false} ChainsAgree(atoms: seq<Range>, vs: seq<Window>, ws: seq<Window>, k: nat)
    requires InOrder(atoms) && Chain(atoms, vs) && Chain(atoms, ws) && k < |vs| && k < |ws|
    ensures vs[k] == ws[k]
  {
    hide Chain, Greedy;
    if k == 0 {
      ChainHead(atoms, vs);
      ChainHead(atoms, ws);
    } else {
      ChainsAgree(atoms, vs, ws, k - 1);
      ChainStep(atoms, vs, k);
      ChainStep(atoms, ws, k);
    }
    GreedyEndIsUnique(atoms, vs[k], ws[k]);
  }

  lemma WindowsAreDetermined(atoms: seq<Range>, vs: seq<Window>, ws: seq<Window>)
    requires InOrder(atoms) && Windowing(atoms, vs) && Windowing(atoms, ws)
    ensures vs == ws
  {
    ChainHead(atoms, vs);
    ChainHead(atoms, ws);
    hide Chain, Greedy;
    var n, m := |vs|, |ws|;
    if n < m {
      ChainsAgree(atoms, vs, ws, n - 1);
      WindowStops(atoms, ws, n);
    } else if m < n {
      ChainsAgree(atoms, vs, ws, m - 1);
      WindowStops(atoms, vs, m);
    }
    forall k | 0 <= k < n && k < m
      ensures vs[k] == ws[k]
    {
      ChainsAgree(atoms, vs, ws, k);
    }
  }

  /** A window with one after it does not hold the last atom. */
  lemma WindowStops(atoms: seq<Range>, ws: seq<Window>, k: nat)
    requires Chain(atoms, ws) && 0 < k < |ws|
    ensures ws[k - 1].last + 1 < |atoms|
  {
    ChainStep(atoms, ws, k);
  }

  lemma GreedyEndIsUnique(atoms: seq<Range>, v: Window, w: Window)
    requires InOrder(atoms) && Greedy(atoms, v) && Greedy(atoms, w) && v.first == w.first
    ensures v == w
  {
  }

  /** A window can lie inside the one before it: ends need not increase. */
  lemma WindowInsidePrevious()
    ensures var atoms := [Range(0, 100), Range(102, 302), Range(304, 2004)];
            InOrder(atoms) && Windowing(atoms, [Window(0, 1), Window(1, 1), Window(2, 2)])
  {
  }

  // ── The loop ─────────────────────────────────────────────────

  lemma {:induction false} ByteOrder(s: string, from: nat, marks: seq<Range>)
    requires Ordered(from, |s|, marks)
    ensures Ordered(Off(s, from), Off(s, |s|), ByteRanges(s, 0, marks))
    decreases |marks|
  {
    hide Off;
    if marks == [] {
      OffGrows(s, from, |s|);
    } else {
      OrderedBounds(from, |s|, marks, 0);
      OffGrows(s, from, marks[0].start);
      OffGrows(s, marks[0].start, marks[0].end);
      ByteOrder(s, marks[0].end, marks[1..]);
    }
  }

  lemma OrderedInOrder(from: nat, to: nat, marks: seq<Range>)
    requires Ordered(from, to, marks)
    ensures InOrder(marks)
  {
    hide Ordered;
    forall k | 0 <= k < |marks|
      ensures marks[k].start < marks[k].end
    {
      OrderedBounds(from, to, marks, k);
    }
    forall j, k | 0 <= j < k < |marks|
      ensures marks[j].end <= marks[k].start
    {
      OrderedPair(from, to, marks, j, k);
    }
  }

  /** The atoms of the content as byte ranges. */
  function ByteAtoms(s: string): seq<Range> { ByteRanges(s, 0, Atoms(s, WINDOW_BYTES)) }

  /** The atoms as byte ranges: in order, each of 1760 bytes at most, at character boundaries. */
  lemma ByteAtomFacts(s: string, k: nat)
    ensures InOrder(ByteAtoms(s)) && |ByteAtoms(s)| == |Atoms(s, WINDOW_BYTES)|
    ensures k < |ByteAtoms(s)| ==>
              var m := Atoms(s, WINDOW_BYTES)[k];
              && m.start < m.end <= |s| && ByteAtoms(s)[k] == ByteRange(s, 0, m)
              && ByteAtoms(s)[k].end <= ByteAtoms(s)[k].start + WINDOW_BYTES
  {
    hide Atoms, Off;
    var marks := Atoms(s, WINDOW_BYTES);
    AtomsFacts(s, WINDOW_BYTES, 0);
    ByteOrder(s, 0, marks);
    OrderedInOrder(Off(s, 0), Off(s, |s|), ByteAtoms(s));
    if k < |marks| {
      OrderedBounds(0, |s|, marks, k);
      ByteRangesAt(s, 0, marks, k);
      assert marks[k] in marks;
    }
  }

  /** The characters of a window. */
  function Span(s: string, w: Window): Range
    requires w.first < |Atoms(s, WINDOW_BYTES)| && w.last < |Atoms(s, WINDOW_BYTES)|
  {
    Range(Atoms(s, WINDOW_BYTES)[w.first].start, Atoms(s, WINDOW_BYTES)[w.last].end)
  }

  /** A window's text: a slice at character boundaries, of at most 1760 bytes. */
  lemma WindowText(s: string, w: Window)
    requires Greedy(ByteAtoms(s), w)
    ensures w.first <= w.last < |ByteAtoms(s)| == |Atoms(s, WINDOW_BYTES)|
    ensures var m := Span(s, w);
            var start, end := ByteAtoms(s)[w.first].start, ByteAtoms(s)[w.last].end;
            && m.start < m.end <= |s| && start < end && start == Off(s, m.start) && end == Off(s, m.end)
            && IsOffset(s, start) && IsOffset(s, end)
            && SliceBytes(s, start, end) == s[m.start..m.end]
            && ByteLen(s[m.start..m.end]) == end - start <= 1760
  {
    hide Atoms, Off, ByteAtoms;
    ByteAtomFacts(s, w.first);
    ByteAtomFacts(s, w.last);
    var m := Span(s, w);
    if m.end <= m.start { OffGrows(s, m.end, m.start); }
    ByteLenSlice(s, m.start, m.end);
  }

  /** `windows` are the texts of `ws`. */
  ghost predicate TextsOf(s: string, ws: seq<Window>, windows: seq<string>) {
    && |windows| == |ws| && |ByteAtoms(s)| == |Atoms(s, WINDOW_BYTES)|
    && forall k :: 0 <= k < |ws| ==>
         && ws[k].first < |ByteAtoms(s)| && ws[k].last < |ByteAtoms(s)|
         && Span(s, ws[k]).start <= Span(s, ws[k]).end <= |s|
         && windows[k] == s[Span(s, ws[k]).start..Span(s, ws[k]).end]
  }

  predicate WholeWindow(s: string) {
    ByteLen(s) <= MAX_CHUNK_TOKENS * APPROX_BYTES_PER_TOKEN || Atoms(s, WINDOW_BYTES) == []
  }

  // ── The windows as a function of the text ────────────────────

  function Extend(atoms: seq<Range>, first: nat, end: nat): (e: nat)
    requires first <= end < |atoms| && InOrder(atoms)
    requires first < end ==> atoms[end].end - atoms[first].start <= WINDOW_BYTES
    ensures first <= e < |atoms| && Greedy(atoms, Window(first, e))
    decreases |atoms| - end
  {
    if end + 1 < |atoms| && atoms[end + 1].end - atoms[first].start <= WINDOW_BYTES then Extend(atoms, first, end + 1)
    else end
  }

  function WindowsFrom(atoms: seq<Range>, first: nat): (ws: seq<Window>)
    requires first < |atoms| && InOrder(atoms)
    ensures ws != []
    decreases |atoms| - first
  {
    var w := Window(first, Extend(atoms, first, first));
    if w.last + 1 >= |atoms| then [w] else [w] + WindowsFrom(atoms, NextStart(atoms, w))
  }

  lemma {:induction false} WindowsFromChain(atoms: seq<Range>, ws: seq<Window>, first: nat)
    requires first < |atoms| && InOrder(atoms)
    requires if ws == [] then first == 0 else Chain(atoms, ws) && Follows(atoms, ws[|ws| - 1], first)
    ensures Windowing(atoms, ws + WindowsFrom(atoms, first))
    decreases |atoms| - first
  {
    hide *;
    var w := Window(first, Extend(atoms, first, first));
    ChainGrows(atoms, ws, w);
    FirstOfWindows(atoms, first);
    if w.last + 1 < |atoms| {
      NextFollows(atoms, w);
      WindowsFromChain(atoms, ws + [w], NextStart(atoms, w));
      assert ws + [w] + WindowsFrom(atoms, NextStart(atoms, w)) == ws + WindowsFrom(atoms, first);
    } else {
      EndsWindowing(atoms, ws, w);
      assert ws + WindowsFrom(atoms, first) == ws + [w];
    }
  }

  lemma FirstOfWindows(atoms: seq<Range>, first: nat)
    requires first < |atoms| && InOrder(atoms)
    ensures var w := Window(first, Extend(atoms, first, first));
            WindowsFrom(atoms, first) ==
            [w] + if w.last + 1 >= |atoms| then [] else WindowsFrom(atoms, NextStart(atoms, w))
  {
  }

  lemma NextFollows(atoms: seq<Range>, w: Window)
    requires InOrder(atoms) && Greedy(atoms, w) && w.last + 1 < |atoms|
    ensures Follows(atoms, w, NextStart(atoms, w)) && w.first < NextStart(atoms, w) < |atoms|
  {
    hide InOrder, BackTo;
  }

  lemma EndsWindowing(atoms: seq<Range>, ws: seq<Window>, w: Window)
    requires Chain(atoms, ws + [w]) && w.last + 1 == |atoms|
    ensures Windowing(atoms, ws + [w])
  {
  }

  /** The windows over the atoms of a text that is split. */
  function AtomWindows(s: string): (ws: seq<Window>)
    requires !WholeWindow(s)
    ensures Windowing(ByteAtoms(s), ws)
  {
    ByteAtomFacts(s, 0);
    WindowsFromChain(ByteAtoms(s), [], 0);
    assert [] + WindowsFrom(ByteAtoms(s), 0) == WindowsFrom(ByteAtoms(s), 0);
    WindowsFrom(ByteAtoms(s), 0)
  }

  function WindowTexts(s: string, ws: seq<Window>): (r: seq<string>)
    requires forall w :: w in ws ==> Greedy(ByteAtoms(s), w)
    ensures TextsOf(s, ws, r)
  {
    hide Atoms, Off, ByteAtoms, Greedy;
    ByteAtomFacts(s, 0);
    if ws == [] then []
    else
      var n := |ws| - 1;
      WindowText(s, ws[n]);
      WindowTexts(s, ws[..n]) + [s[Span(s, ws[n]).start..Span(s, ws[n]).end]]
  }

  lemma AllGreedy(atoms: seq<Range>, ws: seq<Window>)
    requires Chain(atoms, ws)
    ensures forall w :: w in ws ==> Greedy(atoms, w)
  {
    hide *;
    forall w | w in ws
      ensures Greedy(atoms, w)
    {
      var k :| 0 <= k < |ws| && ws[k] == w;
      NoAtomLeftOut(atoms, ws, k);
    }
  }

  /** The windows of a text. */
  function WindowsOf(s: string): (r: seq<string>)
    ensures WholeWindow(s) ==> r == [s]
    ensures !WholeWindow(s) ==> TextsOf(s, AtomWindows(s), r)
  {
    if WholeWindow(s) then [s]
    else
      AllGreedy(ByteAtoms(s), AtomWindows(s));
      WindowTexts(s, AtomWindows(s))
  }

  lemma TextsAreDetermined(s: string, ws: seq<Window>, windows: seq<string>)
    requires !WholeWindow(s) && Windowing(ByteAtoms(s), ws) && TextsOf(s, ws, windows)
    ensures windows == WindowsOf(s)
  {
    hide Atoms, ByteAtoms, Windowing;
    ByteAtomFacts(s, 0);
    WindowsAreDetermined(ByteAtoms(s), AtomWindows(s), ws);
  }

  method SplitOversized(content: string) returns (windows: seq<string>)
    ensures windows == WindowsOf(content)
  {
    hide Atoms, Off, ByteAtoms, Chain, Greedy, BackTo, NextStart, IsOffset, SliceBytes, TextsOf, WindowsOf;
    WholeText(content);
    if ByteLen(content) <= MAX_CHUNK_TOKENS * APPROX_BYTES_PER_TOKEN {
      return [content];
    }
    var windowBytes := SPLIT_WINDOW_TOKENS * APPROX_BYTES_PER_TOKEN;
    var overlapBytes := SPLIT_OVERLAP_TOKENS * APPROX_BYTES_PER_TOKEN;
    var atoms := SplitAtoms(content, windowBytes);
    ByteAtomFacts(content, 0);
    AtomsAreBytes(content);
    if atoms == [] {
      return [content];
    }
    windows := [];
    var windowStartAtom: nat := 0;
    ghost var ws: seq<Window> := [];
    NoTexts(content);
    while true
      invariant windowStartAtom < |atoms|
      invariant TextsOf(content, ws, windows)
      invariant if ws == [] then windowStartAtom == 0
                else Chain(atoms, ws) && Follows(atoms, ws[|ws| - 1], windowStartAtom)
      decreases |atoms| - windowStartAtom
    {
      var endAtom := GreedyEnd(atoms, windowStartAtom);
      ghost var w := Window(windowStartAtom, endAtom);
      WindowText(content, w);
      ChainGrows(atoms, ws, w);
      TextsGrow(content, ws, windows, w);
      windows := windows + [SliceBytes(content, atoms[windowStartAtom].start, atoms[endAtom].end)];
      ws := ws + [w];
      if endAtom + 1 >= |atoms| {
        TextsAreDetermined(content, ws, windows);
        return;
      }
      windowStartAtom := WalkBack(atoms, windowStartAtom, endAtom, overlapBytes);
    }
  }

  lemma WholeText(s: string)
    ensures WholeWindow(s) ==> WindowsOf(s) == [s]
  {
  }

  lemma NoTexts(s: string)
    ensures TextsOf(s, [], [])
  {
  }

  lemma TextsGrow(s: string, ws: seq<Window>, windows: seq<string>, w: Window)
    requires TextsOf(s, ws, windows) && Greedy(ByteAtoms(s), w)
    ensures w.first <= w.last < |ByteAtoms(s)| == |Atoms(s, WINDOW_BYTES)| && Span(s, w).start <= Span(s, w).end <= |s|
    ensures TextsOf(s, ws + [w], windows + [s[Span(s, w).start..Span(s, w).end]])
  {
    hide Atoms, ByteAtoms, Off;
    WindowText(s, w);
  }

  lemma AtomsAreBytes(s: string)
    ensures ByteAtoms(s) == ByteRanges(s, 0, Atoms(s, WINDOW_BYTES))
  {
  }

  lemma ChainGrows(atoms: seq<Range>, ws: seq<Window>, w: Window)
    requires Greedy(atoms, w)
    requires if ws == [] then w.first == 0 else Chain(atoms, ws) && Follows(atoms, ws[|ws| - 1], w.first)
    ensures Chain(atoms, ws + [w])
  {
  }

  /** The inner loop that extends a window. */
  method GreedyEnd(atoms: seq<Range>, windowStartAtom: nat) returns (endAtom: nat)
    requires windowStartAtom < |atoms| && InOrder(atoms)
    ensures Greedy(atoms, Window(windowStartAtom, endAtom))
    ensures windowStartAtom < endAtom ==> atoms[endAtom].end - atoms[windowStartAtom].start <= 1760
    ensures endAtom + 1 < |atoms| ==> atoms[endAtom + 1].end - atoms[windowStartAtom].start > 1760
  {
    var windowByteStart := atoms[windowStartAtom].start;
    endAtom := windowStartAtom;
    while endAtom + 1 < |atoms| && atoms[endAtom + 1].end - windowByteStart <= WINDOW_BYTES
      invariant windowStartAtom <= endAtom < |atoms|
      invariant windowStartAtom < endAtom ==> atoms[endAtom].end - windowByteStart <= WINDOW_BYTES
    {
      endAtom := endAtom + 1;
    }
  }

  /** The overlap rule: walk back over atoms, or carry the last one. */
  method WalkBack(atoms: seq<Range>, windowStartAtom: nat, endAtom: nat, overlapBytes: nat) returns (nextStart: nat)
    requires windowStartAtom <= endAtom && endAtom + 1 < |atoms| && InOrder(atoms) && overlapBytes == OVERLAP_BYTES
    ensures windowStartAtom < nextStart < |atoms|
    ensures Follows(atoms, Window(windowStartAtom, endAtom), nextStart)
  {
    hide InOrder;
    var windowByteEnd := atoms[endAtom].end;
    var desiredOverlapStart := SaturatingSub(windowByteEnd, overlapBytes);
    nextStart := endAtom + 1;
    while nextStart > windowStartAtom + 1 && atoms[nextStart - 1].start >= desiredOverlapStart
      invariant windowStartAtom < nextStart <= endAtom + 1
      invariant BackTo(atoms, windowStartAtom, desiredOverlapStart, nextStart)
             == BackTo(atoms, windowStartAtom, desiredOverlapStart, endAtom + 1)
    {
      nextStart := nextStart - 1;
    }
    if nextStart > endAtom && endAtom > windowStartAtom && windowByteEnd - atoms[endAtom].start <= 2 * overlapBytes {
      nextStart := endAtom;
    }
  }

  // ── Coverage ─────────────────────────────────────────────────

  lemma AtomHolding(s: string, i: nat) returns (a: nat)
    requires i < |s| && !IsSpace(s[i])
    ensures a < |Atoms(s, WINDOW_BYTES)| == |ByteAtoms(s)|
    ensures Atoms(s, WINDOW_BYTES)[a].start <= i < Atoms(s, WINDOW_BYTES)[a].end
  {
    hide Atoms, Off, IsSpace;
    var marks := Atoms(s, WINDOW_BYTES);
    AtomsFacts(s, WINDOW_BYTES, i);
    CoveredAt(marks, i);
    a :| 0 <= a < |marks| && marks[a].start <= i < marks[a].end;
  }

  lemma SpanHolds(s: string, ws: seq<Window>, windows: seq<string>, k: nat, a: nat, i: nat)
    requires k < |ws| && TextsOf(s, ws, windows) && ws[k].first <= a <= ws[k].last
    requires a < |Atoms(s, WINDOW_BYTES)| && i < |s|
    requires Atoms(s, WINDOW_BYTES)[a].start <= i < Atoms(s, WINDOW_BYTES)[a].end
    ensures k < |windows| && Span(s, ws[k]).start <= i < Span(s, ws[k]).end
    ensures windows[k][i - Span(s, ws[k]).start] == s[i]
  {
    hide Atoms, Off, ByteAtoms;
    AtomsFacts(s, WINDOW_BYTES, i);
    OrderedInOrder(0, |s|, Atoms(s, WINDOW_BYTES));
  }

  /** Every character that is not white space is in some window. */
  lemma WindowsCover(s: string, ws: seq<Window>, windows: seq<string>, i: nat) returns (k: nat)
    requires Windowing(ByteAtoms(s), ws) && TextsOf(s, ws, windows) && i < |s| && !IsSpace(s[i])
    ensures k < |windows| && Span(s, ws[k]).start <= i < Span(s, ws[k]).end
    ensures windows[k][i - Span(s, ws[k]).start] == s[i]
  {
    hide *;
    var a := AtomHolding(s, i);
    k := AtomInWindow(ByteAtoms(s), ws, a);
    SpanHolds(s, ws, windows, k, a, i);
  }

  /** Only a blank text has no atoms. */
  lemma NoAtomsIffBlank(s: string)
    ensures Atoms(s, WINDOW_BYTES) == [] <==> IsBlank(s)
  {
    if IsBlank(s) {
      BlankHasNoParagraphs(s, 0);
    } else {
      var i :| 0 <= i < |s| && !IsSpace(s[i]);
      AtomsFacts(s, WINDOW_BYTES, i);
    }
  }

  lemma {:induction false} BlankHasNoParagraphs(s: string, pos: nat)
    requires IsBlank(s) && pos <= |s|
    ensures Paragraphs(s, pos, None) == []
    decreases |s| - pos
  {
    if pos < |s| {
      assert IsBlank(s[pos..LineEnd(s, pos)]);
      BlankHasNoParagraphs(s, LineEnd(s, pos));
    }
  }
}
