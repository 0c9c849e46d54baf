/** Cycle detection on the skill graph: the iterative depth-first search of
    `detectCycles` (lib/progression-engine.ts:226-262), proved sound and complete. */
module CycleDetector {

  type Node = string

  datatype Edge = Edge(source: Node, target: Node)

  // ----- What a cycle is -----

  predicate IsWalk(edges: seq<Edge>, w: seq<Node>) {
    forall i :: 0 <= i < |w| - 1 ==> Edge(w[i], w[i + 1]) in edges
  }

  predicate IsClosedWalk(edges: seq<Edge>, w: seq<Node>) {
    |w| >= 2 && w[0] == w[|w| - 1] && IsWalk(edges, w)
  }

  ghost predicate Acyclic(edges: seq<Edge>) {
    forall w: seq<Node> :: !IsClosedWalk(edges, w)
  }

  // ----- The search state -----

  /** A snapshot of the search. The last two components are ghost bookkeeping:
      `pos[i]` is the stack slot from which `path[i]` was entered, and
      `finish` lists the nodes left for good, in the order they were left. */
  datatype Dfs = Dfs(white: set<Node>, gray: set<Node>, parent: map<Node, Node>, stack: seq<Node>,
                     path: seq<Node>, pos: seq<nat>, finish: seq<Node>)

  ghost predicate PathOnStack(d: Dfs) {
    && |d.path| == |d.pos|
    && (forall i :: 0 <= i < |d.pos| ==> d.pos[i] < |d.stack| && d.stack[d.pos[i]] == d.path[i])
    && (forall i, j :: 0 <= i < j < |d.pos| ==> d.pos[i] < d.pos[j])
    && (|d.pos| > 0 ==> d.pos[0] == 0)
    && (|d.pos| == 0 ==> |d.stack| <= 1)
    && (forall i, j :: 0 <= i < |d.pos| && d.pos[i] < j < |d.stack| ==> d.stack[j] != d.path[i])
  }

  ghost predicate Partition(nodes: set<Node>, d: Dfs) {
    && (forall n :: n in d.gray <==> n in d.path)
    && (forall n :: n in nodes <==> n in d.white || n in d.gray || n in d.finish)
    && (forall n :: n in d.white ==> n !in d.gray && n !in d.finish)
    && (forall n :: n in d.gray ==> n !in d.finish)
    && (forall i, j :: 0 <= i < j < |d.finish| ==> d.finish[i] != d.finish[j])
    && (forall j :: 0 <= j < |d.stack| ==> d.stack[j] in nodes)
  }

  /** Stack slot `j` lies above path node `i` and not above the next path node. */
  ghost predicate Segment(d: Dfs, i: int, j: int) {
    && |d.path| == |d.pos| && 0 <= i < |d.path|
    && d.pos[i] < j < |d.stack| && (i + 1 < |d.path| ==> j <= d.pos[i + 1])
  }

  /** Slot `j` holds a successor of `u`; if it is the topmost copy of a white node, `u` is its parent. */
  ghost predicate PushedBy(edges: seq<Edge>, d: Dfs, u: Node, j: int) {
    && 0 <= j < |d.stack| && Edge(u, d.stack[j]) in edges
    && (d.stack[j] in d.white && d.stack[j] !in d.stack[j + 1..] ==>
          d.stack[j] in d.parent && d.parent[d.stack[j]] == u)
  }

  ghost predicate Pushed(edges: seq<Edge>, d: Dfs) {
    forall i, j :: Segment(d, i, j) ==> PushedBy(edges, d, d.path[i], j)
  }

  ghost predicate Parents(d: Dfs) {
    && (forall i :: 1 <= i < |d.path| ==> d.path[i] in d.parent && d.parent[d.path[i]] == d.path[i - 1])
    && (|d.path| > 0 ==> d.path[0] !in d.parent)
    && (forall n :: n in d.white && n in d.parent ==> |d.stack| > 0 && n in d.stack[1..])
  }

  /** The successor `s` of path node `i` is finished, still above it on the stack, or (for the
      top path node) among the successors `todo` it has not looked at yet. */
  ghost predicate Handled(d: Dfs, i: int, s: Node, todo: seq<Node>) {
    || s in d.finish
    || (0 <= i < |d.pos| && d.pos[i] < |d.stack| && s in d.stack[d.pos[i] + 1..])
    || (i == |d.path| - 1 && s in todo)
  }

  ghost predicate Covered(edges: seq<Edge>, d: Dfs, todo: seq<Node>) {
    forall i, s :: 0 <= i < |d.path| && Edge(d.path[i], s) in edges ==> Handled(d, i, s, todo)
  }

  /** Every edge out of a finished node leads to a node finished earlier. */
  ghost predicate Ranked(edges: seq<Edge>, finish: seq<Node>) {
    forall i, s :: 0 <= i < |finish| && Edge(finish[i], s) in edges ==> s in finish[..i]
  }

  ghost predicate Inv(edges: seq<Edge>, nodes: set<Node>, d: Dfs, todo: seq<Node>) {
    && PathOnStack(d) && Partition(nodes, d) && Pushed(edges, d) && Parents(d)
    && Covered(edges, d, todo) && Ranked(edges, d.finish)
  }

  lemma PathDistinct(d: Dfs)
    requires PathOnStack(d)
    ensures forall i, j :: 0 <= i < j < |d.path| ==> d.path[i] != d.path[j]
  {
    forall i, j | 0 <= i < j < |d.path| ensures d.path[i] != d.path[j] {
      assert d.stack[d.pos[j]] == d.path[j];
    }
  }

  // ----- Entering a white node -----

  ghost function Entered(d: Dfs): Dfs
    requires |d.stack| > 0
  {
    var node := d.stack[|d.stack| - 1];
    d.(white := d.white - {node}, gray := d.gray + {node}, path := d.path + [node], pos := d.pos + [|d.stack| - 1])
  }

  lemma EnterSegment(nodes: set<Node>, d: Dfs)
    requires PathOnStack(d) && Partition(nodes, d) && |d.stack| > 0 && d.stack[|d.stack| - 1] in d.white
    ensures d.path != [] ==> Segment(d, |d.path| - 1, |d.stack| - 1)
  {
    var last := |d.path| - 1;
    if d.path != [] {
      assert d.path[last] in d.gray && d.stack[d.pos[last]] == d.path[last];
      assert d.pos[last] < |d.stack| - 1;
    }
  }

  lemma EnterPath(d: Dfs)
    requires PathOnStack(d) && |d.stack| > 0 && d.stack[|d.stack| - 1] in d.white
    requires d.path != [] ==> d.pos[|d.pos| - 1] < |d.stack| - 1
    ensures PathOnStack(Entered(d))
  {
  }

  lemma EnterPartition(nodes: set<Node>, d: Dfs)
    requires Partition(nodes, d) && |d.stack| > 0 && d.stack[|d.stack| - 1] in d.white
    ensures Partition(nodes, Entered(d))
  {
    forall n ensures n in Entered(d).gray <==> n in Entered(d).path {}
  }

  lemma EnterShape(nodes: set<Node>, d: Dfs)
    requires PathOnStack(d) && Partition(nodes, d) && |d.stack| > 0 && d.stack[|d.stack| - 1] in d.white
    ensures PathOnStack(Entered(d)) && Partition(nodes, Entered(d))
    ensures d.path != [] ==> Segment(d, |d.path| - 1, |d.stack| - 1)
  {
    EnterSegment(nodes, d);
    EnterPath(d);
    EnterPartition(nodes, d);
  }

  lemma EnterParents(edges: seq<Edge>, d: Dfs)
    requires PathOnStack(d) && Pushed(edges, d) && Parents(d) && |d.stack| > 0 && d.stack[|d.stack| - 1] in d.white
    requires d.path != [] ==> Segment(d, |d.path| - 1, |d.stack| - 1)
    ensures Parents(Entered(d))
  {
    var top := |d.stack| - 1;
    assert d.stack[top + 1..] == [];
    if d.path != [] {
      assert PushedBy(edges, d, d.path[|d.path| - 1], top);
    }
  }

  lemma EnterPushed(edges: seq<Edge>, d: Dfs)
    requires PathOnStack(d) && Pushed(edges, d) && |d.stack| > 0
    ensures Pushed(edges, Entered(d))
  {
    var e := Entered(d);
    forall i, j | Segment(e, i, j) ensures PushedBy(edges, e, e.path[i], j) {
      assert e.pos[|e.pos| - 1] == |d.stack| - 1;
      assert i < |d.path| && e.pos[i] == d.pos[i];
      assert Segment(d, i, j);
      assert PushedBy(edges, d, d.path[i], j);
    }
  }

  lemma EnterCovered(edges: seq<Edge>, d: Dfs, todo: seq<Node>)
    requires PathOnStack(d) && Covered(edges, d, []) && |d.stack| > 0
    requires forall s :: Edge(d.stack[|d.stack| - 1], s) in edges ==> s in todo
    ensures Covered(edges, Entered(d), todo)
  {
    var e := Entered(d);
    forall i, s | 0 <= i < |e.path| && Edge(e.path[i], s) in edges ensures Handled(e, i, s, todo) {
      if i < |d.path| {
        assert Handled(d, i, s, []);
      }
    }
  }

  lemma Enter(edges: seq<Edge>, nodes: set<Node>, d: Dfs, todo: seq<Node>)
    requires Inv(edges, nodes, d, []) && |d.stack| > 0 && d.stack[|d.stack| - 1] in d.white
    requires forall s :: Edge(d.stack[|d.stack| - 1], s) in edges ==> s in todo
    ensures Inv(edges, nodes, Entered(d), todo)
  {
    EnterShape(nodes, d);
    EnterParents(edges, d);
    EnterPushed(edges, d);
    EnterCovered(edges, d, todo);
  }

  // ----- Looking at one successor -----

  ghost function Looked(d: Dfs, next: Node): Dfs
    requires |d.path| > 0
  {
    if next in d.white then d.(parent := d.parent[next := d.path[|d.path| - 1]], stack := d.stack + [next]) else d
  }

  lemma LookShape(nodes: set<Node>, d: Dfs, next: Node)
    requires PathOnStack(d) && Partition(nodes, d) && |d.path| > 0
    ensures PathOnStack(Looked(d, next)) && Partition(nodes, Looked(d, next))
  {
    assert forall i :: 0 <= i < |d.path| ==> d.path[i] in d.gray;
  }

  lemma LookParents(nodes: set<Node>, d: Dfs, next: Node)
    requires PathOnStack(d) && Partition(nodes, d) && Parents(d) && |d.path| > 0
    ensures Parents(Looked(d, next))
  {
    assert forall i :: 0 <= i < |d.path| ==> d.path[i] in d.gray;
    assert d.pos[0] < |d.stack|;
    if next in d.white {
      assert (d.stack + [next])[1..] == d.stack[1..] + [next];
    }
  }

  lemma LookPushed(edges: seq<Edge>, d: Dfs, next: Node)
    requires PathOnStack(d) && Pushed(edges, d) && |d.path| > 0 && Edge(d.path[|d.path| - 1], next) in edges
    ensures Pushed(edges, Looked(d, next))
  {
    var e := Looked(d, next);
    if next in d.white {
      forall i, j | Segment(e, i, j) ensures PushedBy(edges, e, e.path[i], j) {
        if j < |d.stack| {
          assert Segment(d, i, j) && PushedBy(edges, d, d.path[i], j);
          assert e.stack[j + 1..] == d.stack[j + 1..] + [next];
        } else {
          assert i == |d.path| - 1;
        }
      }
    }
  }

  lemma LookCovered(edges: seq<Edge>, nodes: set<Node>, d: Dfs, todo: seq<Node>)
    requires PathOnStack(d) && Partition(nodes, d) && Covered(edges, d, todo) && |d.path| > 0 && |todo| > 0
    requires todo[0] in nodes && todo[0] !in d.gray
    ensures Covered(edges, Looked(d, todo[0]), todo[1..])
  {
    var next := todo[0];
    var e := Looked(d, next);
    forall i, s | 0 <= i < |e.path| && Edge(e.path[i], s) in edges ensures Handled(e, i, s, todo[1..]) {
      assert Handled(d, i, s, todo);
      assert todo == [next] + todo[1..];
      assert next in d.white ==> e.stack[e.pos[i] + 1..] == d.stack[d.pos[i] + 1..] + [next];
    }
  }

  lemma Look(edges: seq<Edge>, nodes: set<Node>, d: Dfs, todo: seq<Node>)
    requires Inv(edges, nodes, d, todo) && |d.path| > 0 && |todo| > 0
    requires todo[0] in nodes && todo[0] !in d.gray && Edge(d.path[|d.path| - 1], todo[0]) in edges
    ensures Inv(edges, nodes, Looked(d, todo[0]), todo[1..])
  {
    LookShape(nodes, d, todo[0]);
    LookParents(nodes, d, todo[0]);
    LookPushed(edges, d, todo[0]);
    LookCovered(edges, nodes, d, todo);
  }

  // ----- Popping a node that is no longer white -----

  ghost predicate Leaving(d: Dfs) {
    d.path != [] && d.pos != [] && d.pos[|d.pos| - 1] == |d.stack| - 1
  }

  ghost function Popped(d: Dfs): Dfs
    requires |d.stack| > 0
  {
    var top := |d.stack| - 1;
    var node := d.stack[top];
    if Leaving(d) then
      Dfs(d.white, d.gray - {node}, d.parent, d.stack[..top], d.path[..|d.path| - 1], d.pos[..|d.pos| - 1],
          d.finish + [node])
    else
      d.(stack := d.stack[..top], gray := d.gray - {node})
  }

  /** The popped node is finished: it cannot be a path node, whose slots all lie below the top. */
  lemma PopFinishes(nodes: set<Node>, d: Dfs)
    requires PathOnStack(d) && Partition(nodes, d) && |d.stack| > 0 && d.stack[|d.stack| - 1] !in d.white
    ensures Leaving(d) <==> d.stack[|d.stack| - 1] in d.gray
    ensures d.stack[|d.stack| - 1] in Popped(d).finish
  {
    var top := |d.stack| - 1;
    if d.stack[top] in d.path {
      var i :| 0 <= i < |d.path| && d.path[i] == d.stack[top];
      assert d.pos[i] == top;
    }
  }

  lemma PopPath(d: Dfs)
    requires PathOnStack(d) && |d.stack| > 0
    requires !Leaving(d) ==> d.stack[|d.stack| - 1] !in d.path
    ensures PathOnStack(Popped(d))
  {
    var e, top := Popped(d), |d.stack| - 1;
    assert forall i :: 0 <= i < |e.pos| ==> e.pos[i] == d.pos[i] && e.path[i] == d.path[i];
    forall i | 0 <= i < |e.pos| ensures e.pos[i] < top {
      if Leaving(d) { assert d.pos[i] < d.pos[|d.pos| - 1]; }
    }
  }

  lemma PopPartition(nodes: set<Node>, d: Dfs)
    requires PathOnStack(d) && Partition(nodes, d) && |d.stack| > 0
    requires Leaving(d) <==> d.stack[|d.stack| - 1] in d.gray
    ensures Partition(nodes, Popped(d))
  {
    var e, node := Popped(d), d.stack[|d.stack| - 1];
    PathDistinct(d);
    if Leaving(d) {
      assert d.path == e.path + [node];
    }
    forall n ensures n in e.gray <==> n in e.path {
      if Leaving(d) { assert n in d.path <==> n in e.path || n == node; }
    }
  }

  lemma PopParents(d: Dfs)
    requires PathOnStack(d) && Parents(d) && |d.stack| > 0 && d.stack[|d.stack| - 1] !in d.white
    ensures Parents(Popped(d))
  {
    var e, top := Popped(d), |d.stack| - 1;
    if top > 0 {
      assert d.stack[1..] == e.stack[1..] + [d.stack[top]];
    }
  }

  lemma PopPushed(edges: seq<Edge>, d: Dfs)
    requires PathOnStack(d) && Pushed(edges, d) && |d.stack| > 0 && d.stack[|d.stack| - 1] !in d.white
    ensures Pushed(edges, Popped(d))
  {
    var e, top := Popped(d), |d.stack| - 1;
    forall i, j | Segment(e, i, j) ensures PushedBy(edges, e, e.path[i], j) {
      assert Segment(d, i, j) && PushedBy(edges, d, d.path[i], j);
      assert d.stack[j + 1..] == e.stack[j + 1..] + [d.stack[top]];
    }
  }

  lemma PopCovered(edges: seq<Edge>, d: Dfs)
    requires PathOnStack(d) && Covered(edges, d, []) && |d.stack| > 0 && d.stack[|d.stack| - 1] in Popped(d).finish
    ensures Covered(edges, Popped(d), [])
  {
    var e, top := Popped(d), |d.stack| - 1;
    forall i, s | 0 <= i < |e.path| && Edge(e.path[i], s) in edges ensures Handled(e, i, s, []) {
      assert e.path[i] == d.path[i] && e.pos[i] == d.pos[i] && Handled(d, i, s, []);
      assert e.pos[i] < top;
      assert d.stack[d.pos[i] + 1..] == e.stack[e.pos[i] + 1..] + [d.stack[top]];
    }
  }

  lemma PopRanked(edges: seq<Edge>, d: Dfs)
    requires PathOnStack(d) && Covered(edges, d, []) && Ranked(edges, d.finish) && |d.stack| > 0
    ensures Ranked(edges, Popped(d).finish)
  {
    var e := Popped(d);
    forall i, s | 0 <= i < |e.finish| && Edge(e.finish[i], s) in edges ensures s in e.finish[..i] {
      if i < |d.finish| {
        assert e.finish[..i] == d.finish[..i];
      } else {
        assert Handled(d, |d.path| - 1, s, []);
        assert e.finish[..i] == d.finish;
      }
    }
  }

  lemma Pop(edges: seq<Edge>, nodes: set<Node>, d: Dfs)
    requires Inv(edges, nodes, d, []) && |d.stack| > 0 && d.stack[|d.stack| - 1] !in d.white
    ensures Inv(edges, nodes, Popped(d), [])
  {
    PopFinishes(nodes, d);
    PopPath(d);
    PopPartition(nodes, d);
    PopParents(d);
    PopPushed(edges, d);
    PopCovered(edges, d);
    PopRanked(edges, d);
  }

  // ----- A ranking of all nodes rules cycles out -----

  lemma {:induction false} WalkDescends(edges: seq<Edge>, finish: seq<Node>, w: seq<Node>, i: nat)
    requires Ranked(edges, finish) && IsWalk(edges, w) && |w| >= 2
    requires i < |finish| && finish[i] == w[0]
    ensures w[|w| - 1] in finish[..i]
  {
    assert Edge(w[0], w[1]) in edges;
    if |w| > 2 {
      var k :| 0 <= k < i && finish[k] == w[1];
      assert IsWalk(edges, w[1..]) by {
        forall j | 0 <= j < |w[1..]| - 1 ensures Edge(w[1..][j], w[1..][j + 1]) in edges {
          assert Edge(w[j + 1], w[j + 2]) in edges;
        }
      }
      WalkDescends(edges, finish, w[1..], k);
      assert finish[..k] <= finish[..i];
    }
  }

  lemma RankedIsAcyclic(edges: seq<Edge>, finish: seq<Node>)
    requires Ranked(edges, finish)
    requires forall i, j :: 0 <= i < j < |finish| ==> finish[i] != finish[j]
    requires forall e :: e in edges ==> e.source in finish
    ensures Acyclic(edges)
  {
    forall w: seq<Node> ensures !IsClosedWalk(edges, w) {
      if IsClosedWalk(edges, w) {
        assert Edge(w[0], w[1]) in edges;
        var i :| 0 <= i < |finish| && finish[i] == w[0];
        WalkDescends(edges, finish, w, i);
        assert false;
      }
    }
  }

  // ----- The algorithm -----

  /** Targets of the edges leaving `n`, in edge order. */
  function Successors(edges: seq<Edge>, n: Node): (r: seq<Node>)
    ensures forall s :: s in r <==> Edge(n, s) in edges
  {
    if edges == [] then [] else
      var e := edges[|edges| - 1];
      var rest := Successors(edges[..|edges| - 1], n);
      assert edges == edges[..|edges| - 1] + [e];
      if e.source == n then rest + [e.target] else rest
  }

  predicate Distinct(order: seq<Node>) {
    forall i, j :: 0 <= i < j < |order| ==> order[i] != order[j]
  }

  function Insert(order: seq<Node>, n: Node): (r: seq<Node>)
    ensures Distinct(order) ==> Distinct(r)
    ensures forall m :: m in r <==> m in order || m == n
  {
    if n in order then order else order + [n]
  }

  method BuildAdjacency(edges: seq<Edge>) returns (adj: map<Node, seq<Node>>, allNodes: seq<Node>)
    ensures forall n :: (if n in adj then adj[n] else []) == Successors(edges, n)
    ensures Distinct(allNodes)
    ensures forall n :: n in allNodes <==> exists e :: e in edges && (n == e.source || n == e.target)
  {
    adj, allNodes := map[], [];
    for i := 0 to |edges|
      invariant forall n :: (if n in adj then adj[n] else []) == Successors(edges[..i], n)
      invariant Distinct(allNodes)
      invariant forall n :: n in allNodes <==> exists e :: e in edges[..i] && (n == e.source || n == e.target)
    {
      var e := edges[i];
      assert edges[..i + 1] == edges[..i] + [e];
      assert edges[..i + 1][..i] == edges[..i];
      allNodes := Insert(Insert(allNodes, e.source), e.target);
      adj := adj[e.source := (if e.source in adj then adj[e.source] else []) + [e.target]];
    }
    assert edges[..|edges|] == edges;
  }

  /** Walks the parent chain from `node` back to `neighbor` and reports it front to back. */
  method ReportCycle(edges: seq<Edge>, ghost d: Dfs, parent: map<Node, Node>, node: Node, neighbor: Node)
    returns (cycle: seq<Node>)
    requires PathOnStack(d) && Pushed(edges, d) && Parents(d) && d.parent == parent
    requires |d.path| > 0 && node == d.path[|d.path| - 1] && neighbor in d.path && Edge(node, neighbor) in edges
    ensures IsClosedWalk(edges, cycle)
  {
    ghost var n := |d.path|;
    ghost var i := n - 1;
    var cur := node;
    cycle := [neighbor, node];
    ghost var target :| 0 <= target < n && d.path[target] == neighbor;
    while cur != neighbor && cur in parent
      invariant target <= i < n && cur == d.path[i]
      invariant |cycle| == n - i + 1 && cycle[0] == neighbor
      invariant forall k :: 1 <= k < |cycle| ==> cycle[k] == d.path[n - k]
      decreases i
    {
      cur := parent[cur];
      cycle := cycle + [cur];
      i := i - 1;
    }
    assert i > target ==> cur in parent;
    PathDistinct(d);
    ParentChainIsWalk(edges, d, cycle);
    cycle := Reverse(cycle);
  }

  lemma ParentChainIsWalk(edges: seq<Edge>, d: Dfs, back: seq<Node>)
    requires PathOnStack(d) && Pushed(edges, d) && 2 <= |back| <= |d.path| + 1
    requires forall k :: 1 <= k < |back| ==> back[k] == d.path[|d.path| - k]
    requires Edge(back[1], back[0]) in edges
    ensures IsWalk(edges, Reverse(back))
  {
    var r := Reverse(back);
    forall k | 0 <= k < |r| - 1 ensures Edge(r[k], r[k + 1]) in edges {
      var m := |r| - 1 - k;
      assert r[k] == back[m] && r[k + 1] == back[m - 1];
      if m > 1 {
        var p := |d.path| - m;
        assert Segment(d, p, d.pos[p + 1]);
        assert PushedBy(edges, d, d.path[p], d.pos[p + 1]);
      }
    }
  }

  function Reverse(s: seq<Node>): (r: seq<Node>)
    ensures |r| == |s| && forall k :: 0 <= k < |s| ==> s[k] == r[|s| - 1 - k]
  {
    seq(|s|, k requires 0 <= k < |s| => s[|s| - 1 - k])
  }

  /** Enters the white node at the top of the stack and looks at every successor: an edge back to a gray
      node is reported, white successors are pushed. */
  method Expand(edges: seq<Edge>, ghost nodes: set<Node>, ghost d: Dfs, node: Node, successors: seq<Node>,
                white: set<Node>, gray: set<Node>, parent0: map<Node, Node>, stack0: seq<Node>)
    returns (cycle: seq<Node>, parent: map<Node, Node>, stack: seq<Node>)
    requires Inv(edges, nodes, d, []) && |stack0| > 0 && d.stack == stack0 && stack0[|stack0| - 1] == node
    requires node in d.white
    requires white == d.white - {node} && gray == d.gray + {node} && d.parent == parent0
    requires forall s :: s in successors <==> Edge(node, s) in edges
    requires forall s :: s in successors ==> s in nodes
    ensures cycle != [] ==> IsClosedWalk(edges, cycle)
    ensures cycle == [] ==> Inv(edges, nodes, Entered(d).(parent := parent, stack := stack), [])
  {
    Enter(edges, nodes, d, successors);
    cycle, parent, stack := [], parent0, stack0;
    ghost var e := Entered(d);
    for k := 0 to |successors|
      invariant Inv(edges, nodes, e, successors[k..])
      invariant e == Entered(d).(parent := parent, stack := stack)
    {
      var neighbor := successors[k];
      if neighbor in gray {
        cycle := ReportCycle(edges, e, parent, node, neighbor);
        return;
      }
      Look(edges, nodes, e, successors[k..]);
      e := Looked(e, neighbor);
      assert successors[k..][1..] == successors[k + 1..];
      if neighbor in white {
        parent := parent[neighbor := node];
        stack := stack + [neighbor];
      }
    }
    assert successors[|successors|..] == [];
  }

  lemma Start(edges: seq<Edge>, nodes: set<Node>, d: Dfs, start: Node)
    requires Inv(edges, nodes, d, []) && d.stack == [] && start in d.white
    ensures Inv(edges, nodes, d.(stack := [start]), [])
  {
  }

  lemma Done(edges: seq<Edge>, nodes: set<Node>, d: Dfs)
    requires Partition(nodes, d) && PathOnStack(d) && Ranked(edges, d.finish) && d.stack == [] && d.white == {}
    requires forall e :: e in edges ==> e.source in nodes
    ensures Acyclic(edges)
  {
    assert d.path == [];
    RankedIsAcyclic(edges, d.finish);
  }

  ghost predicate Mirrors(d: Dfs, white: set<Node>, gray: set<Node>, parent: map<Node, Node>, stack: seq<Node>) {
    d.white == white && d.gray == gray && d.parent == parent && d.stack == stack
  }

  /** One round of the search loop on the node at the top of the stack. */
  method Step(edges: seq<Edge>, ghost nodes: set<Node>, ghost d0: Dfs, successors: seq<Node>,
              white0: set<Node>, gray0: set<Node>, parent0: map<Node, Node>, stack0: seq<Node>)
    returns (cycle: seq<Node>, white: set<Node>, gray: set<Node>, parent: map<Node, Node>, stack: seq<Node>,
             ghost d: Dfs)
    requires Inv(edges, nodes, d0, []) && Mirrors(d0, white0, gray0, parent0, stack0) && |stack0| > 0
    requires forall s :: s in successors <==> Edge(stack0[|stack0| - 1], s) in edges
    requires forall s :: s in successors ==> s in nodes
    ensures cycle != [] ==> IsClosedWalk(edges, cycle)
    ensures cycle == [] ==> Inv(edges, nodes, d, []) && Mirrors(d, white, gray, parent, stack)
    ensures white == white0 - {stack0[|stack0| - 1]}
    ensures stack0[|stack0| - 1] !in white0 ==> |stack| < |stack0|
  {
    var node := stack0[|stack0| - 1];
    cycle, white, gray, parent := [], white0 - {node}, gray0, parent0;
    if node in white0 {
      gray := gray + {node};
      cycle, parent, stack := Expand(edges, nodes, d0, node, successors, white, gray, parent, stack0);
      d := Entered(d0).(parent := parent, stack := stack);
    } else {
      Pop(edges, nodes, d0);
      d := Popped(d0);
      stack := stack0[..|stack0| - 1];
      gray := gray - {node};
    }
  }

  /** The search from one start node: it reports a cycle or leaves the start node and everything
      reachable from it finished. */
  method Explore(edges: seq<Edge>, ghost nodes: set<Node>, ghost d0: Dfs, adj: map<Node, seq<Node>>, start: Node,
                 white0: set<Node>, gray0: set<Node>, parent0: map<Node, Node>)
    returns (cycle: seq<Node>, white: set<Node>, gray: set<Node>, parent: map<Node, Node>, ghost d: Dfs)
    requires Inv(edges, nodes, d0, []) && Mirrors(d0, white0, gray0, parent0, []) && start in white0
    requires forall n :: (if n in adj then adj[n] else []) == Successors(edges, n)
    requires forall e :: e in edges ==> e.target in nodes
    ensures cycle != [] ==> IsClosedWalk(edges, cycle)
    ensures cycle == [] ==> Inv(edges, nodes, d, []) && Mirrors(d, white, gray, parent, [])
    ensures cycle == [] ==> start !in white && white <= white0
  {
    cycle, white, gray, parent := [], white0, gray0, parent0;
    var stack := [start];
    Start(edges, nodes, d0, start);
    d := d0.(stack := stack);
    while |stack| > 0
      invariant Inv(edges, nodes, d, []) && Mirrors(d, white, gray, parent, stack)
      invariant white <= white0 && cycle == []
      invariant stack == [start] || start !in white
      decreases |white|, |stack|
    {
      var node := stack[|stack| - 1];
      var successors := if node in adj then adj[node] else [];
      cycle, white, gray, parent, stack, d := Step(edges, nodes, d, successors, white, gray, parent, stack);
      if cycle != [] { return; }
    }
    assert stack == [];
  }

  /** The first `s` start nodes are no longer white. */
  predicate Swept(allNodes: seq<Node>, s: nat, white: set<Node>) {
    forall i :: 0 <= i < s && i < |allNodes| ==> allNodes[i] !in white
  }

  lemma Sweep(allNodes: seq<Node>, s: nat, before: set<Node>, white: set<Node>)
    requires s < |allNodes| && Swept(allNodes, s, before) && white <= before && allNodes[s] !in white
    ensures Swept(allNodes, s + 1, white)
  {
  }

  lemma NoneLeft(allNodes: seq<Node>, white: set<Node>)
    requires Swept(allNodes, |allNodes|, white) && white <= set n | n in allNodes
    ensures white == {}
  {
    if n :| n in white {
      assert false;
    }
  }

  /** The answer is empty exactly when the graph has no cycle; any other answer is a cycle. */
  method DetectCycles(edges: seq<Edge>) returns (cycle: seq<Node>)
    ensures cycle == [] <==> Acyclic(edges)
    ensures cycle != [] ==> IsClosedWalk(edges, cycle)
  {
    var adj, allNodes := BuildAdjacency(edges);
    ghost var nodes := set n | n in allNodes;
    var white := set n | n in allNodes;
    var gray: set<Node> := {};
    var parent: map<Node, Node> := map[];
    ghost var d := Dfs(white, {}, map[], [], [], [], []);
    forall e | e in edges ensures e.source in nodes && e.target in nodes {
      assert e.source in allNodes && e.target in allNodes;
    }
    for s := 0 to |allNodes|
      invariant Inv(edges, nodes, d, []) && Mirrors(d, white, gray, parent, [])
      invariant white <= nodes
      invariant Swept(allNodes, s, white)
    {
      var start := allNodes[s];
      ghost var before := white;
      if start !in white {
        Sweep(allNodes, s, before, white);
        continue;
      }
      cycle, white, gray, parent, d := Explore(edges, nodes, d, adj, start, white, gray, parent);
      if cycle != [] { return; }
      Sweep(allNodes, s, before, white);
    }
    NoneLeft(allNodes, white);
    Done(edges, nodes, d);
    return [];
  }
}
