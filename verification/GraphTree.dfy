/** The text rendering of a page's neighbourhood: one line per simple path from the root. */
module GraphTree {
  datatype Edge = Edge(from: string, to: string, relationship: string)

  // ── Simple paths ─────────────────────────────────────────────

  /** Indexes into the edge list. */
  ghost predicate Indexes(edges: seq<Edge>, p: seq<nat>) { forall k :: 0 <= k < |p| ==> p[k] < |edges| }

  /**
   A path, given by edge indexes, that goes on from the last of the visited nodes: every edge starts
   at the node reached and leads to a node not visited before.
  */
  predicate SimplePath(edges: seq<Edge>, visited: seq<string>, p: seq<nat>)
    requires visited != []
    decreases |p|
  {
    p != [] ==>
      && p[0] < |edges| && edges[p[0]].from == visited[|visited| - 1] && edges[p[0]].to !in visited
      && SimplePath(edges, visited + [edges[p[0]].to], p[1..])
  }

  /** Preorder: a path comes before its extensions, and before paths that leave it by a later edge. */
  ghost predicate LexBefore(p: seq<nat>, q: seq<nat>) {
    exists n :: Splits(p, q, n)
  }

  predicate Splits(p: seq<nat>, q: seq<nat>, n: nat) {
    n <= |p| && n < |q| && p[..n] == q[..n] && (n == |p| || p[n] < q[n])
  }

  ghost predicate Sorted(paths: seq<seq<nat>>) {
    forall j, k :: 0 <= j < k < |paths| ==> LexBefore(paths[j], paths[k])
  }

  // ── The paths in printing order ──────────────────────────────

  /** The edges leaving a node, self-links skipped, among the first `n`. */
  function Children(edges: seq<Edge>, from: string, n: nat): (r: seq<nat>)
    requires n <= |edges|
    ensures forall k :: 0 <= k < |r| ==> r[k] < n
    ensures forall j, k :: 0 <= j < k < |r| ==> r[j] < r[k]
  {
    if n == 0 then []
    else
      var before := Children(edges, from, n - 1);
      var e := edges[n - 1];
      if e.from == from && e.to != from then before + [n - 1] else before
  }

  lemma {:induction false} ChildrenAre(edges: seq<Edge>, from: string, n: nat, i: nat)
    requires n <= |edges|
    ensures i in Children(edges, from, n) <==> i < n && edges[i].from == from && edges[i].to != from
  {
    if n > 0 { ChildrenAre(edges, from, n - 1, i); }
  }

  function AllChildren(edges: seq<Edge>, from: string): (r: seq<nat>)
    ensures Indexes(edges, r)
  {
    Children(edges, from, |edges|)
  }

  /** The nodes a path may still visit. */
  ghost function Unvisited(edges: seq<Edge>, active: seq<string>): set<string> {
    set i | 0 <= i < |edges| && edges[i].to !in active :: edges[i].to
  }

  lemma UnvisitedShrinks(edges: seq<Edge>, active: seq<string>, i: nat)
    requires i < |edges| && edges[i].to !in active
    ensures Unvisited(edges, active + [edges[i].to]) < Unvisited(edges, active)
  {
    var x := edges[i].to;
    assert x in Unvisited(edges, active) && x !in Unvisited(edges, active + [x]);
  }

  /** The paths below `path` that go on with one of `todo`, in the order they are printed. */
  ghost function Tree(edges: seq<Edge>, active: seq<string>, path: seq<nat>, todo: seq<nat>): seq<seq<nat>>
    requires Indexes(edges, todo)
    decreases Unvisited(edges, active), |todo|
  {
    if todo == [] then []
    else
      var i := todo[0];
      var child := edges[i].to;
      if child in active then Tree(edges, active, path, todo[1..])
      else
        UnvisitedShrinks(edges, active, i);
        [path + [i]] + Tree(edges, active + [child], path + [i], AllChildren(edges, child))
        + Tree(edges, active, path, todo[1..])
  }

  ghost function TreeOf(edges: seq<Edge>, root: string): seq<seq<nat>> {
    Tree(edges, [root], [], AllChildren(edges, root))
  }

  // ── Exactly the simple paths ─────────────────────────────────

  /** The path goes on after `path` with one of `todo`. */
  ghost predicate Below(edges: seq<Edge>, active: seq<string>, path: seq<nat>, todo: seq<nat>, q: seq<nat>)
    requires active != []
  {
    path < q && q[|path|] in todo && SimplePath(edges, active, q[|path|..])
  }

  lemma {:induction false} TreeIsSimplePaths(edges: seq<Edge>, active: seq<string>, path: seq<nat>, todo: seq<nat>,
                                             q: seq<nat>)
    requires active != [] && Indexes(edges, todo)
    requires forall k :: 0 <= k < |todo| ==> edges[todo[k]].from == active[|active| - 1]
    ensures q in Tree(edges, active, path, todo) <==> Below(edges, active, path, todo, q)
    decreases Unvisited(edges, active), |todo|
  {
    hide SimplePath;
    if todo != [] {
      var i := todo[0];
      var child := edges[i].to;
      TreeIsSimplePaths(edges, active, path, todo[1..], q);
      BelowSplits(edges, active, path, todo, q);
      if child !in active {
        UnvisitedShrinks(edges, active, i);
        ChildrenStart(edges, child);
        TreeIsSimplePaths(edges, active + [child], path + [i], AllChildren(edges, child), q);
      }
    }
  }

  lemma ChildrenStart(edges: seq<Edge>, from: string)
    ensures forall k :: 0 <= k < |AllChildren(edges, from)| ==> edges[AllChildren(edges, from)[k]].from == from
  {
    forall k | 0 <= k < |AllChildren(edges, from)|
      ensures edges[AllChildren(edges, from)[k]].from == from
    {
      ChildrenAre(edges, from, |edges|, AllChildren(edges, from)[k]);
    }
  }

  /** Going on with the first of `todo` is that edge alone, or that edge and one of its children. */
  lemma BelowSplits(edges: seq<Edge>, active: seq<string>, path: seq<nat>, todo: seq<nat>, q: seq<nat>)
    requires active != [] && Indexes(edges, todo) && todo != [] && edges[todo[0]].from == active[|active| - 1]
    ensures var i := todo[0];
            var child := edges[i].to;
            Below(edges, active, path, todo, q) <==>
            || Below(edges, active, path, todo[1..], q)
            || (child !in active
                && (q == path + [i] || Below(edges, active + [child], path + [i], AllChildren(edges, child), q)))
  {
    var i := todo[0];
    var child := edges[i].to;
    assert todo == [i] + todo[1..];
    if path + [i] < q { assert path < q && q[|path|] == (path + [i])[|path|]; }
    if path < q && q[|path|] == i {
      var rest := q[|path|..];
      assert rest[0] == i && rest[1..] == q[|path + [i]|..];
      if |rest| == 1 {
        assert q == path + [i] && SimplePath(edges, active + [child], rest[1..]);
      } else {
        assert path + [i] < q && rest[1] == rest[1..][0] == q[|path + [i]|];
        ChildrenAre(edges, child, |edges|, rest[1]);
        var visited := active + [child];
        assert visited[|visited| - 1] == child;
        assert SimplePath(edges, visited, rest[1..]) ==> rest[1] in AllChildren(edges, child);
      }
    }
  }

  /** The printed lines are the simple paths from the root of at least one edge, parallel edges counted apart. */
  lemma PrintsSimplePaths(edges: seq<Edge>, root: string, q: seq<nat>)
    ensures q in TreeOf(edges, root) <==> q != [] && SimplePath(edges, [root], q)
  {
    ChildrenStart(edges, root);
    TreeIsSimplePaths(edges, [root], [], AllChildren(edges, root), q);
    if q != [] && q[0] < |edges| { ChildrenAre(edges, root, |edges|, q[0]); }
  }

  /** A printed path has edges, and they are those of the list. */
  lemma PathEnds(edges: seq<Edge>, root: string, p: seq<nat>)
    requires p in TreeOf(edges, root)
    ensures p != [] && p[|p| - 1] < |edges|
  {
    hide SimplePath, TreeOf;
    PrintsSimplePaths(edges, root, p);
    EndIsEdge(edges, [root], p);
  }

  lemma {:induction false} EndIsEdge(edges: seq<Edge>, visited: seq<string>, p: seq<nat>)
    requires visited != [] && SimplePath(edges, visited, p) && p != []
    ensures p[|p| - 1] < |edges|
    decreases |p|
  {
    if |p| > 1 { EndIsEdge(edges, visited + [edges[p[0]].to], p[1..]); }
  }

  // ── In preorder, each once ───────────────────────────────────

  lemma SortedJoin(left: seq<seq<nat>>, right: seq<seq<nat>>)
    requires Sorted(left) && Sorted(right) && forall p, q :: p in left && q in right ==> LexBefore(p, q)
    ensures Sorted(left + right)
  {
  }

  ghost predicate AllExtend(paths: seq<seq<nat>>, path: seq<nat>, todo: seq<nat>) {
    forall q :: q in paths ==> path < q && q[|path|] in todo
  }

  lemma {:induction false} TreeIsSorted(edges: seq<Edge>, active: seq<string>, path: seq<nat>, todo: seq<nat>)
    requires Indexes(edges, todo)
    requires forall j, k :: 0 <= j < k < |todo| ==> todo[j] < todo[k]
    ensures Sorted(Tree(edges, active, path, todo)) && AllExtend(Tree(edges, active, path, todo), path, todo)
    decreases Unvisited(edges, active), |todo|
  {
    if todo != [] {
      var i := todo[0];
      var child := edges[i].to;
      TreeIsSorted(edges, active, path, todo[1..]);
      if child !in active {
        UnvisitedShrinks(edges, active, i);
        TreeIsSorted(edges, active + [child], path + [i], AllChildren(edges, child));
        BlocksAreSorted(path, i, todo, Tree(edges, active + [child], path + [i], AllChildren(edges, child)),
                        AllChildren(edges, child), Tree(edges, active, path, todo[1..]));
      }
    }
  }

  lemma BlocksAreSorted(path: seq<nat>, i: nat, todo: seq<nat>, below: seq<seq<nat>>, children: seq<nat>,
                        after: seq<seq<nat>>)
    requires todo != [] && todo[0] == i && (forall j, k :: 0 <= j < k < |todo| ==> todo[j] < todo[k])
    requires Sorted(below) && AllExtend(below, path + [i], children)
    requires Sorted(after) && AllExtend(after, path, todo[1..])
    ensures Sorted([path + [i]] + below + after) && AllExtend([path + [i]] + below + after, path, todo)
  {
    var p := path + [i];
    forall q | q in below
      ensures LexBefore(p, q)
    {
      assert Splits(p, q, |p|);
    }
    SortedJoin([p], below);
    forall q, r | q in [p] + below && r in after
      ensures LexBefore(q, r)
    {
      assert q[..|path|] == path == r[..|path|] && q[|path|] == i;
      assert Splits(q, r, |path|);
    }
    SortedJoin([p] + below, after);
  }

  lemma LexBeforeIsStrict(p: seq<nat>)
    ensures !LexBefore(p, p)
  {
  }

  /** Preorder, and no path twice. */
  lemma PrintsInPreorder(edges: seq<Edge>, root: string, j: nat, k: nat)
    requires j < k < |TreeOf(edges, root)|
    ensures LexBefore(TreeOf(edges, root)[j], TreeOf(edges, root)[k])
    ensures TreeOf(edges, root)[j] != TreeOf(edges, root)[k]
  {
    TreeIsSorted(edges, [root], [], AllChildren(edges, root));
    LexBeforeIsStrict(TreeOf(edges, root)[j]);
  }

  // ── The code ─────────────────────────────────────────────────

  function Indent(depth: nat): (r: string)
    ensures |r| == 2 * depth && forall c :: c in r ==> c == ' '
  {
    if depth == 0 then "" else "  " + Indent(depth - 1)
  }

  function ChildLine(depth: nat, e: Edge): string {
    Indent(depth) + "\U{2192} " + e.to + " (" + e.relationship + ")"
  }

  /** The line of a path: indented by its length, naming its last edge. */
  function PathLine(edges: seq<Edge>, p: seq<nat>): string {
    if p == [] || p[|p| - 1] >= |edges| then "" else ChildLine(|p|, edges[p[|p| - 1]])
  }

  lemma LineOfPath(edges: seq<Edge>, p: seq<nat>)
    requires p != [] && p[|p| - 1] < |edges|
    ensures var line, last := PathLine(edges, p), edges[p[|p| - 1]];
            && |line| >= 2 * |p| && (forall i :: 0 <= i < 2 * |p| ==> line[i] == ' ')
            && line[2 * |p|..] == "\U{2192} " + last.to + " (" + last.relationship + ")"
  {
    var last := edges[p[|p| - 1]];
    Indented(Indent(|p|), "\U{2192} " + last.to + " (" + last.relationship + ")");
    assert PathLine(edges, p) == Indent(|p|) + ("\U{2192} " + last.to + " (" + last.relationship + ")");
  }

  lemma Indented(indent: string, text: string)
    requires forall c :: c in indent ==> c == ' '
    ensures (indent + text)[|indent|..] == text && forall i :: 0 <= i < |indent| ==> (indent + text)[i] == ' '
  {
    forall i | 0 <= i < |indent|
      ensures (indent + text)[i] == ' '
    {
      assert (indent + text)[i] == indent[i] && indent[i] in indent;
    }
  }

  ghost function PathLines(edges: seq<Edge>, paths: seq<seq<nat>>): seq<string> {
    seq(|paths|, k requires 0 <= k < |paths| => PathLine(edges, paths[k]))
  }

  lemma PathLinesJoin(edges: seq<Edge>, left: seq<seq<nat>>, right: seq<seq<nat>>)
    ensures PathLines(edges, left + right) == PathLines(edges, left) + PathLines(edges, right)
  {
  }

  /** The map groups the edges by their start. */
  ghost predicate Grouped(edges: seq<Edge>, edgesByFrom: map<string, seq<nat>>, n: nat)
    requires n <= |edges|
  {
    forall from :: (if from in edgesByFrom then edgesByFrom[from] else []) == Children(edges, from, n)
  }

  class TreeWriter {
    var lines: seq<string>
    var activePath: seq<string>

    constructor ()
      ensures lines == [] && activePath == []
    {
      lines, activePath := [], [];
    }

    /** `edges` and `path` say, for the specification, which edges were followed. */
    method WriteChildren(parent: string, edges: seq<Edge>, edgesByFrom: map<string, seq<nat>>, depth: nat,
                         ghost path: seq<nat>)
      requires Grouped(edges, edgesByFrom, |edges|) && depth == |path| + 1
      modifies this
      ensures activePath == old(activePath)
      ensures lines == old(lines) + PathLines(edges, Tree(edges, activePath, path, AllChildren(edges, parent)))
      decreases Unvisited(edges, activePath)
    {
      hide Tree, PathLines, Unvisited, ChildLine, Children;
      ghost var active, before := activePath, lines;
      NoMorePaths(edges, active, path);
      if parent !in edgesByFrom {
        assert AllChildren(edges, parent) == [];
        return;
      }
      var todo := edgesByFrom[parent];
      while todo != []
        invariant activePath == active && Indexes(edges, todo)
        invariant lines + PathLines(edges, Tree(edges, active, path, todo))
               == before + PathLines(edges, Tree(edges, active, path, AllChildren(edges, parent)))
        decreases |todo|
      {
        var i := todo[0];
        var child := edges[i].to;
        TreeStep(edges, active, path, todo);
        if child !in activePath {
          lines := lines + [ChildLine(depth, edges[i])];
          UnvisitedShrinks(edges, active, i);
          activePath := activePath + [child];
          WriteChildren(child, edges, edgesByFrom, depth + 1, path + [i]);
          activePath := activePath[..|activePath| - 1];
        }
        todo := todo[1..];
      }
      assert todo == [];
    }

    /**
     The root, then a line for each path: two blanks for each of its edges, an arrow, the page its last
     edge leads to, and that edge's relationship in brackets.
    */
    method RenderTree(root: string, edges: seq<Edge>)
      modifies this
      ensures lines == old(lines) + [root] + PathLines(edges, TreeOf(edges, root))
      ensures |lines| == |old(lines)| + 1 + |TreeOf(edges, root)| && lines[|old(lines)|] == root
      ensures forall k :: 0 <= k < |TreeOf(edges, root)| ==>
                var p, line := TreeOf(edges, root)[k], lines[|old(lines)| + 1 + k];
                && p != [] && p[|p| - 1] < |edges| && |line| >= 2 * |p|
                && (forall i :: 0 <= i < 2 * |p| ==> line[i] == ' ')
                && var last := edges[p[|p| - 1]];
                   line[2 * |p|..] == "\U{2192} " + last.to + " (" + last.relationship + ")"
      ensures activePath == [root]
    {
      hide Tree, TreeOf, PathLine;
      lines := lines + [root];
      var edgesByFrom: map<string, seq<nat>> := map[];
      for i: nat := 0 to |edges|
        invariant Grouped(edges, edgesByFrom, i)
      {
        var e := edges[i];
        if e.from != e.to {
          edgesByFrom := edgesByFrom[e.from := (if e.from in edgesByFrom then edgesByFrom[e.from] else []) + [i]];
        }
      }
      activePath := [root];
      WriteChildren(root, edges, edgesByFrom, 1, []);
      TreeOfIs(edges, root);
      LinesOfPaths(edges, root);
      assert forall k :: 0 <= k < |TreeOf(edges, root)| ==>
               lines[|old(lines)| + 1 + k] == PathLines(edges, TreeOf(edges, root))[k];
    }
  }

  lemma TreeOfIs(edges: seq<Edge>, root: string)
    ensures TreeOf(edges, root) == Tree(edges, [root], [], AllChildren(edges, root))
  {
    hide Tree;
  }

  lemma LinesOfPaths(edges: seq<Edge>, root: string)
    ensures |PathLines(edges, TreeOf(edges, root))| == |TreeOf(edges, root)|
    ensures forall k :: 0 <= k < |TreeOf(edges, root)| ==>
              var p, line := TreeOf(edges, root)[k], PathLines(edges, TreeOf(edges, root))[k];
              && p != [] && p[|p| - 1] < |edges| && |line| >= 2 * |p|
              && (forall i :: 0 <= i < 2 * |p| ==> line[i] == ' ')
              && var last := edges[p[|p| - 1]];
                 line[2 * |p|..] == "\U{2192} " + last.to + " (" + last.relationship + ")"
  {
    hide TreeOf, PathLine;
    forall k | 0 <= k < |TreeOf(edges, root)|
      ensures var p := TreeOf(edges, root)[k]; p != [] && p[|p| - 1] < |edges|
      ensures var p, line := TreeOf(edges, root)[k], PathLines(edges, TreeOf(edges, root))[k];
              && |line| >= 2 * |p| && (forall i :: 0 <= i < 2 * |p| ==> line[i] == ' ')
              && var last := edges[p[|p| - 1]];
                 line[2 * |p|..] == "\U{2192} " + last.to + " (" + last.relationship + ")"
    {
      PathEnds(edges, root, TreeOf(edges, root)[k]);
      LineOfPath(edges, TreeOf(edges, root)[k]);
    }
  }

  lemma NoMorePaths(edges: seq<Edge>, active: seq<string>, path: seq<nat>)
    ensures PathLines(edges, Tree(edges, active, path, [])) == []
  {
  }

  lemma TreeStep(edges: seq<Edge>, active: seq<string>, path: seq<nat>, todo: seq<nat>)
    requires todo != [] && Indexes(edges, todo)
    ensures var i := todo[0];
            PathLines(edges, Tree(edges, active, path, todo)) ==
            (if edges[i].to in active then []
             else [ChildLine(|path| + 1, edges[i])]
                  + PathLines(edges, Tree(edges, active + [edges[i].to], path + [i], AllChildren(edges, edges[i].to))))
            + PathLines(edges, Tree(edges, active, path, todo[1..]))
  {
    hide Tree, ChildLine, Unvisited, AllChildren;
    TreeUnfolds(edges, active, path, todo);
    var i := todo[0];
    if edges[i].to !in active {
      var below := Tree(edges, active + [edges[i].to], path + [i], AllChildren(edges, edges[i].to));
      var after := Tree(edges, active, path, todo[1..]);
      PathLinesJoin(edges, [path + [i]] + below, after);
      PathLinesJoin(edges, [path + [i]], below);
    }
  }

  lemma TreeUnfolds(edges: seq<Edge>, active: seq<string>, path: seq<nat>, todo: seq<nat>)
    requires todo != [] && Indexes(edges, todo)
    ensures var i := todo[0];
            Tree(edges, active, path, todo) ==
            (if edges[i].to in active then []
             else [path + [i]] + Tree(edges, active + [edges[i].to], path + [i], AllChildren(edges, edges[i].to)))
            + Tree(edges, active, path, todo[1..])
  {
    hide Unvisited, AllChildren;
  }
}
