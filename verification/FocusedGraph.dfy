/** The playground's neighbourhood graph: a breadth-first search over live links, bounded in depth and size. */
module FocusedGraph {
  datatype Link = Link(source: nat, target: nat, live: bool)

  /** A live link joins the two pages, in either direction. */
  predicate Joined(links: seq<Link>, a: nat, b: nat) {
    exists l :: l in links && l.live && ((l.source == a && l.target == b) || (l.source == b && l.target == a))
  }

  // ── The specification ────────────────────────────────────────

  /** A walk along live links. */
  ghost predicate Walk(links: seq<Link>, p: seq<nat>) {
    p != [] && forall k :: 0 < k < |p| ==> Joined(links, p[k - 1], p[k])
  }

  /** The pages at the end of a live link from `a`. */
  function Around(links: seq<Link>, a: nat): (r: set<nat>)
    ensures forall b :: b in r <==> Joined(links, a, b)
  {
    (set l | l in links && l.live && l.source == a :: l.target)
    + (set l | l in links && l.live && l.target == a :: l.source)
  }

  ghost function AllAround(links: seq<Link>, pages: set<nat>): set<nat> {
    set a, b | a in pages && b in Around(links, a) :: b
  }

  lemma AroundHas(links: seq<Link>, pages: set<nat>, a: nat, b: nat)
    requires a in pages && Joined(links, a, b)
    ensures b in AllAround(links, pages)
  {
    assert b in Around(links, a);
  }

  lemma AroundFrom(links: seq<Link>, pages: set<nat>, b: nat) returns (a: nat)
    requires b in AllAround(links, pages)
    ensures a in pages && Joined(links, a, b)
  {
    a :| a in pages && b in Around(links, a);
  }

  /** The pages within `k` live links of the root. */
  ghost function Ball(links: seq<Link>, root: nat, k: nat): set<nat> {
    if k == 0 then {root} else Ball(links, root, k - 1) + AllAround(links, Ball(links, root, k - 1))
  }

  /** The ball is what walks of at most `k` links reach. */
  lemma {:induction false} BallIsWalks(links: seq<Link>, root: nat, k: nat, x: nat)
    ensures x in Ball(links, root, k) <==> exists p :: Walk(links, p) && |p| <= k + 1 && p[0] == root && p[|p| - 1] == x
  {
    if x in Ball(links, root, k) {
      var p := WalkTo(links, root, k, x);
    }
    if p :| Walk(links, p) && |p| <= k + 1 && p[0] == root && p[|p| - 1] == x {
      WalkStaysInBall(links, root, k, p);
    }
  }

  lemma {:induction false} WalkTo(links: seq<Link>, root: nat, k: nat, x: nat) returns (p: seq<nat>)
    requires x in Ball(links, root, k)
    ensures Walk(links, p) && |p| <= k + 1 && p[0] == root && p[|p| - 1] == x
    decreases k
  {
    hide Joined, AllAround;
    if k == 0 {
      p := [root];
    } else if x in Ball(links, root, k - 1) {
      p := WalkTo(links, root, k - 1, x);
    } else {
      var a := AroundFrom(links, Ball(links, root, k - 1), x);
      var q := WalkTo(links, root, k - 1, a);
      p := q + [x];
    }
  }

  lemma {:induction false} WalkStaysInBall(links: seq<Link>, root: nat, k: nat, p: seq<nat>)
    requires Walk(links, p) && |p| <= k + 1 && p[0] == root
    ensures p[|p| - 1] in Ball(links, root, k)
    decreases k
  {
    hide Joined, AllAround;
    if |p| == 1 {
      BallGrows(links, root, 0, k);
    } else {
      WalkStaysInBall(links, root, k - 1, p[..|p| - 1]);
      AroundHas(links, Ball(links, root, k - 1), p[|p| - 2], p[|p| - 1]);
    }
  }

  /** One link reaches the pages at the other end of a live link, whichever way it points. */
  lemma FirstBall(links: seq<Link>, root: nat, x: nat)
    ensures x in Ball(links, root, 1) <==>
            || x == root
            || exists l :: l in links && l.live && {l.source, l.target} == {root, x}
  {
    hide AllAround;
    var ball := Ball(links, root, 0);
    assert Ball(links, root, 1) == ball + AllAround(links, ball);
    if x in AllAround(links, ball) { var a := AroundFrom(links, ball, x); }
    if l :| l in links && l.live && {l.source, l.target} == {root, x} {
      EndsOf(l.source, l.target, root, x);
      AroundHas(links, ball, root, x);
    }
  }

  lemma EndsOf(a: nat, b: nat, c: nat, d: nat)
    requires {a, b} == {c, d}
    ensures (a == c && b == d) || (a == d && b == c)
  {
    assert a in {c, d} && b in {c, d} && c in {a, b} && d in {a, b};
  }

  function Backwards(p: seq<nat>): (r: seq<nat>)
    ensures |r| == |p| && forall k :: 0 <= k < |p| ==> r[k] == p[|p| - 1 - k]
  {
    if p == [] then [] else Backwards(p[1..]) + [p[0]]
  }

  /** Reaching goes both ways. */
  lemma {:induction false} BallIsSymmetric(links: seq<Link>, a: nat, b: nat, k: nat)
    requires b in Ball(links, a, k)
    ensures a in Ball(links, b, k)
  {
    hide AllAround;
    var p := WalkTo(links, a, k, b);
    var q := Backwards(p);
    forall i | 0 < i < |q|
      ensures Joined(links, q[i - 1], q[i])
    {
      assert Joined(links, p[|p| - 1 - i], p[|p| - i]);
    }
    WalkStaysInBall(links, b, k, q);
  }

  lemma {:induction false} BallGrows(links: seq<Link>, root: nat, j: nat, k: nat)
    requires j <= k
    ensures Ball(links, root, j) <= Ball(links, root, k)
    decreases k
  {
    hide AllAround;
    if j < k { BallGrows(links, root, j, k - 1); }
  }

  function Live(links: seq<Link>): (r: seq<Link>)
    ensures forall l :: l in r <==> l in links && l.live
  {
    if links == [] then []
    else
      assert links == [links[0]] + links[1..];
      (if links[0].live then [links[0]] else []) + Live(links[1..])
  }

  /** Links that are no longer live lead nowhere. */
  lemma {:induction false} DeadLinksDoNotMatter(links: seq<Link>, root: nat, k: nat)
    ensures Ball(links, root, k) == Ball(Live(links), root, k)
  {
    hide Live, AllAround;
    if k > 0 {
      DeadLinksDoNotMatter(links, root, k - 1);
      LiveAround(links, Ball(links, root, k - 1));
    }
  }

  lemma LiveAround(links: seq<Link>, pages: set<nat>)
    ensures AllAround(Live(links), pages) == AllAround(links, pages)
  {
    hide Live, AllAround, Joined;
    forall b
      ensures b in AllAround(Live(links), pages) <==> b in AllAround(links, pages)
    {
      if b in AllAround(links, pages) {
        var a := AroundFrom(links, pages, b);
        LiveJoined(links, a, b);
        AroundHas(Live(links), pages, a, b);
      } else if b in AllAround(Live(links), pages) {
        var a := AroundFrom(Live(links), pages, b);
        LiveJoined(links, a, b);
        AroundHas(links, pages, a, b);
      }
    }
  }

  lemma LiveJoined(links: seq<Link>, a: nat, b: nat)
    ensures Joined(links, a, b) <==> Joined(Live(links), a, b)
  {
  }

  /** No live link leads out: the whole component has been found. */
  ghost predicate Closed(links: seq<Link>, pages: set<nat>) { AllAround(links, pages) <= pages }

  /** Once closed, the ball of every greater radius is the same. */
  lemma {:induction false} ClosedBallStays(links: seq<Link>, root: nat, j: nat, k: nat)
    requires j <= k && Closed(links, Ball(links, root, j))
    ensures Ball(links, root, k) == Ball(links, root, j)
    decreases k
  {
    hide AllAround;
    if j < k { ClosedBallStays(links, root, j, k - 1); }
  }

  // ── The search ───────────────────────────────────────────────

  /** The rows of the neighbour query; `UNION` leaves each id once. */
  function Rows(links: seq<Link>, id: nat): (rows: seq<nat>)
    ensures forall b :: b in rows <==> Joined(links, id, b)
  {
    if links == [] then []
    else
      var front, l := links[..|links| - 1], links[|links| - 1];
      assert links == front + [l];
      var rows := Rows(front, id);
      var more := if l.live && l.source == id && l.target !in rows then rows + [l.target] else rows;
      if l.live && l.target == id && l.source !in more then more + [l.source] else more
  }

  const MAX_DEPTH: int := 4
  const MAX_SEEN: nat := 400

  function ClampDepth(depth: int): (d: nat)
    ensures d <= 4 && d >= 0 && (0 <= depth <= 4 ==> d == depth) && (depth > 4 ==> d == 4) && (depth < 0 ==> d == 0)
  {
    if depth < 0 then 0 else if depth > MAX_DEPTH then 4 else depth
  }

  /** One round: the unseen neighbours of the frontier become the next frontier. */
  method Expand(links: seq<Link>, seen: set<nat>, frontier: seq<nat>) returns (seen': set<nat>, next: seq<nat>)
    ensures seen' == seen + AllAround(links, Elements(frontier))
    ensures Elements(next) == seen' - seen
  {
    seen', next := seen, [];
    NothingAround(links);
    for i := 0 to |frontier|
      invariant seen' == seen + AllAround(links, Elements(frontier[..i])) && Elements(next) == seen' - seen
    {
      var rows := Rows(links, frontier[i]);
      ghost var before := seen';
      for j := 0 to |rows|
        invariant seen' == before + Elements(rows[..j]) && Elements(next) == seen' - seen && before >= seen
      {
        ElementsSnoc(rows, j);
        if rows[j] !in seen' {
          ElementsGrow(next, rows[j]);
          next := next + [rows[j]];
          seen' := seen' + {rows[j]};
        }
      }
      assert rows[..|rows|] == rows;
      ElementsSnoc(frontier, i);
      AroundOneMore(links, Elements(frontier[..i]), frontier[i]);
    }
    assert frontier[..|frontier|] == frontier;
  }

  ghost function Elements(s: seq<nat>): set<nat> { set x | x in s }

  lemma ElementsSnoc(s: seq<nat>, i: nat)
    requires i < |s|
    ensures Elements(s[..i + 1]) == Elements(s[..i]) + {s[i]}
  {
  }

  lemma ElementsGrow(s: seq<nat>, x: nat)
    ensures Elements(s + [x]) == Elements(s) + {x}
  {
  }

  lemma NothingAround(links: seq<Link>)
    ensures AllAround(links, Elements([])) == {}
  {
  }

  lemma AroundOneMore(links: seq<Link>, pages: set<nat>, a: nat)
    ensures AllAround(links, pages + {a}) == AllAround(links, pages) + Elements(Rows(links, a))
  {
    forall b
      ensures b in AllAround(links, pages + {a}) <==> b in AllAround(links, pages) + Elements(Rows(links, a))
    {
      if b in AllAround(links, pages + {a}) {
        var x := AroundFrom(links, pages + {a}, b);
        if x in pages { AroundHas(links, pages, x, b); }
      } else if b in AllAround(links, pages) {
        var x := AroundFrom(links, pages, b);
        AroundHas(links, pages + {a}, x, b);
      } else if b in Rows(links, a) {
        AroundHas(links, pages + {a}, a, b);
      }
    }
  }

  /** Expanding the last shell is expanding the whole ball. */
  lemma ShellSuffices(links: seq<Link>, root: nat, k: nat, frontier: set<nat>)
    requires if k == 0 then frontier == {root} else frontier == Ball(links, root, k) - Ball(links, root, k - 1)
    ensures Ball(links, root, k) + AllAround(links, frontier) == Ball(links, root, k + 1)
  {
  }

  /**
   After every round the seen pages are a full ball. The search ends with the ball of the clamped
   depth, or with a closed component, or with the first ball of more than 400 pages.
  */
  method Search(links: seq<Link>, root: nat, depth: int) returns (seen: set<nat>, ghost rounds: nat)
    ensures seen == Ball(links, root, rounds) && rounds <= ClampDepth(depth)
    ensures rounds == ClampDepth(depth) || Closed(links, seen) || |seen| > 400
    ensures forall k :: 0 <= k < rounds - 1 ==> GoesOn(links, root, k)
    ensures |seen| <= 400 ==> seen == Ball(links, root, if depth < 0 then 0 else if depth > 4 then 4 else depth)
  {
    hide AllAround, Elements;
    StartOf(links, root);
    seen := {root};
    var frontier := [root];
    var maxDepth := ClampDepth(depth);
    rounds := 0;
    for i := 0 to maxDepth
      invariant rounds == i && seen == Ball(links, root, i)
      invariant Elements(frontier) == if i == 0 then {root} else Ball(links, root, i) - Ball(links, root, i - 1)
      invariant forall k :: 0 <= k < i ==> GoesOn(links, root, k)
    {
      ShellSuffices(links, root, i, Elements(frontier));
      seen, frontier := Expand(links, seen, frontier);
      rounds := i + 1;
      NewShell(links, root, i, frontier);
      if frontier == [] || |seen| > MAX_SEEN {
        if frontier == [] {
          ClosedBallStays(links, root, i, i + 1);
          ClosedBallStays(links, root, i, maxDepth);
        }
        return;
      }
    }
  }

  lemma StartOf(links: seq<Link>, root: nat)
    ensures Ball(links, root, 0) == {root} && Elements([root]) == {root}
  {
  }

  lemma NothingNew(known: set<nat>, found: set<nat>)
    requires (known + found) - known == {}
    ensures found <= known
  {
    forall b | b in found
      ensures b in known
    {
      assert b in (known + found) - known || b in known;
    }
  }

  lemma NewShell(links: seq<Link>, root: nat, k: nat, frontier: seq<nat>)
    requires Elements(frontier) == Ball(links, root, k + 1) - Ball(links, root, k)
    ensures frontier == [] <==> Closed(links, Ball(links, root, k))
  {
    hide AllAround;
    var ball := Ball(links, root, k);
    assert Ball(links, root, k + 1) == ball + AllAround(links, ball);
    if frontier != [] {
      assert frontier[0] in Elements(frontier);
    } else {
      assert Elements(frontier) == {};
      NothingNew(ball, AllAround(links, ball));
    }
  }

  /** A round after which the search goes on: it found new pages, and not too many. */
  ghost predicate GoesOn(links: seq<Link>, root: nat, k: nat) {
    !Closed(links, Ball(links, root, k)) && |Ball(links, root, k + 1)| <= 400
  }

  function LinksAmong(links: seq<Link>, seen: set<nat>): (r: seq<Link>)
    ensures forall l :: l in r <==> l in links && l.live && l.source in seen && l.target in seen
  {
    if links == [] then []
    else
      var front, l := links[..|links| - 1], links[|links| - 1];
      assert links == front + [l];
      LinksAmong(front, seen) + if l.live && l.source in seen && l.target in seen then [l] else []
  }
}
