/** strongly_connected_components of Tools/find-includes-cycles.py: Tarjan's algorithm over
    a dictionary from file names to the names they include. */
module Tarjan {
  type Node = string
  type Graph = map<Node, seq<Node>>

  /** The successors of a node; a name that is not a key has none. */
  function Succ(g: Graph, v: Node): seq<Node> {
    if v in g then g[v] else []
  }

  predicate Path(g: Graph, p: seq<Node>) {
    |p| > 0 && forall i :: 0 <= i < |p| - 1 ==> p[i + 1] in Succ(g, p[i])
  }

  ghost predicate Leads(g: Graph, p: seq<Node>, x: Node, y: Node) {
    Path(g, p) && p[0] == x && p[|p| - 1] == y
  }

  ghost predicate Reach(g: Graph, x: Node, y: Node) {
    exists p: seq<Node> :: Leads(g, p, x, y)
  }

  lemma ReachSelf(g: Graph, x: Node)
    ensures Reach(g, x, x)
  {
    assert Leads(g, [x], x, x);
  }

  lemma ReachEdge(g: Graph, x: Node, y: Node)
    requires y in Succ(g, x)
    ensures Reach(g, x, y)
  {
    assert Leads(g, [x, y], x, y);
  }

  lemma ReachTrans(g: Graph, x: Node, y: Node, z: Node)
    requires Reach(g, x, y) && Reach(g, y, z)
    ensures Reach(g, x, z)
  {
    var p :| Leads(g, p, x, y);
    var q :| Leads(g, q, y, z);
    assert Leads(g, p + q[1..], x, z);
  }

  /** A set of nodes that no edge leaves holds every node reachable from it. */
  ghost predicate Closed(g: Graph, s: set<Node>) {
    forall v, w :: v in s && w in Succ(g, v) ==> w in s
  }

  lemma {:induction false} PathStays(g: Graph, s: set<Node>, p: seq<Node>, i: nat)
    requires Closed(g, s) && Path(g, p) && p[0] in s && i < |p|
    ensures p[i] in s
    decreases i
  {
    if i > 0 {
      PathStays(g, s, p, i - 1);
      assert p[i - 1 + 1] in Succ(g, p[i - 1]);
    }
  }

  lemma ReachStays(g: Graph, s: set<Node>, x: Node, y: Node)
    requires Closed(g, s) && x in s && Reach(g, x, y)
    ensures y in s
  {
    var p :| Leads(g, p, x, y);
    PathStays(g, s, p, |p| - 1);
  }

  ghost predicate Mutual(g: Graph, x: Node, y: Node) {
    Reach(g, x, y) && Reach(g, y, x)
  }

  /** A strongly connected component, listed without repetition. */
  ghost predicate IsComponent(g: Graph, c: seq<Node>) {
    && |c| > 0
    && (forall i, j :: 0 <= i < j < |c| ==> c[i] != c[j])
    && forall y :: y in c <==> Mutual(g, c[0], y)
  }

  ghost function Listed(result: seq<seq<Node>>): set<Node> {
    set i, v | 0 <= i < |result| && v in result[i] :: v
  }

  /** The components found: disjoint, and each after all it leads to. */
  ghost predicate ComponentsOk(g: Graph, result: seq<seq<Node>>) {
    && (forall i :: 0 <= i < |result| ==> IsComponent(g, result[i]))
    && (forall i, j, v :: 0 <= i < j < |result| && v in result[i] ==> v !in result[j])
    && forall i, v, w :: 0 <= i < |result| && v in result[i] && w in Succ(g, v) ==> w in Listed(result[..i + 1])
  }

  /** A node that some key of the graph leads to. */
  ghost predicate Rooted(g: Graph, v: Node) {
    exists k :: k in g && Reach(g, k, v)
  }

  /** The search so far; gray are the nodes whose call has not returned. */
  datatype Env = Env(stack: seq<Node>, index: map<Node, int>, result: seq<seq<Node>>, gray: set<Node>, counter: nat)

  /** Which nodes have been numbered and where they are. */
  ghost predicate Placed(g: Graph, e: Env) {
    && (forall v :: v in e.index <==> v in e.stack || v in Listed(e.result))
    && (forall v :: v in e.stack ==> v !in Listed(e.result))
    && (forall v :: v in e.index ==> 0 <= e.index[v] < e.counter && Rooted(g, v))
    && forall v :: v in e.gray ==> v in e.stack
  }

  /** The stack is in the order of the numbers. */
  ghost predicate Ordered(e: Env) {
    && (forall i :: 0 <= i < |e.stack| ==> e.stack[i] in e.index)
    && forall i, j :: 0 <= i < j < |e.stack| ==> e.index[e.stack[i]] < e.index[e.stack[j]]
  }

  /** Each node on the stack reaches those above it, and a gray one at or below it. */
  ghost predicate Connected(g: Graph, e: Env) {
    && (forall i, j :: 0 <= i <= j < |e.stack| ==> Reach(g, e.stack[i], e.stack[j]))
    && forall i :: 0 <= i < |e.stack| ==> ReturnsTo(g, e, i)
  }

  ghost predicate ReturnsTo(g: Graph, e: Env, i: nat)
    requires i < |e.stack|
  {
    exists k :: 0 <= k <= i && e.stack[k] in e.gray && Reach(g, e.stack[i], e.stack[k])
  }

  /** A node whose call has returned has only numbered successors. */
  ghost predicate Explored(g: Graph, e: Env) {
    forall v, w :: v in e.index && v !in e.gray && w in Succ(g, v) ==> w in e.index
  }

  ghost predicate Inv(g: Graph, e: Env) {
    && Placed(g, e) && Ordered(e) && Connected(g, e) && Explored(g, e) && ComponentsOk(g, e.result)
  }

  /** Numbering a node and putting it on the stack. */
  function Push(e: Env, node: Node): Env {
    Env(e.stack + [node], e.index[node := e.counter], e.result, e.gray + {node}, e.counter + 1)
  }

  /** A node may be searched next: new, rooted, and below every unfinished call. */
  ghost predicate Enterable(g: Graph, e: Env, node: Node) {
    node !in e.index && Rooted(g, node) && forall x :: x in e.gray ==> Reach(g, x, node)
  }

  lemma PushConnected(g: Graph, e: Env, node: Node)
    requires Connected(g, e) && Enterable(g, e, node)
    ensures Connected(g, Push(e, node))
  {
    var e' := Push(e, node);
    ReachSelf(g, node);
    var n := |e.stack|;
    forall i, j | 0 <= i <= j < |e'.stack|
      ensures Reach(g, e'.stack[i], e'.stack[j])
    {
      if j == n && i < n {
        assert ReturnsTo(g, e, i);
        var k :| 0 <= k <= i && e.stack[k] in e.gray && Reach(g, e.stack[i], e.stack[k]);
        ReachTrans(g, e.stack[i], e.stack[k], node);
      }
    }
    forall i | 0 <= i < |e'.stack|
      ensures ReturnsTo(g, e', i)
    {
      if i < n {
        assert ReturnsTo(g, e, i);
        var k :| 0 <= k <= i && e.stack[k] in e.gray && Reach(g, e.stack[i], e.stack[k]);
        assert e'.stack[k] in e'.gray && Reach(g, e'.stack[i], e'.stack[k]);
      } else {
        assert e'.stack[n] in e'.gray && Reach(g, e'.stack[n], e'.stack[n]);
      }
    }
  }

  lemma PushInv(g: Graph, e: Env, node: Node)
    requires Inv(g, e) && Enterable(g, e, node)
    ensures Inv(g, Push(e, node))
  {
    hide Connected, ComponentsOk, Reach;
    PushConnected(g, e, node);
    var e' := Push(e, node);
    assert Placed(g, e');
    assert Ordered(e');
    assert Explored(g, e');
    assert ComponentsOk(g, e'.result);
  }

  /** The nodes known in e0 keep their numbers, and e0's stack is at the bottom of e's. */
  ghost predicate Grows(e0: Env, e: Env) {
    && e0.stack <= e.stack && e0.counter <= e.counter
    && (forall v :: v in e.index && v !in e0.index ==> e0.counter <= e.index[v])
    && forall v :: v in e0.index ==> v in e.index && e.index[v] == e0.index[v]
  }

  /** low is the number of node, or of a node below it on the old stack that it reaches. */
  ghost predicate LowReached(g: Graph, e0: Env, e: Env, node: Node, low: int) {
    && node in e.index && low <= e.index[node]
    && (low < e.index[node] ==> exists y :: y in e0.stack && y in e.index && e.index[y] == low && Reach(g, node, y))
  }

  /** No edge from the stack above position n to the old stack goes below low. */
  ghost predicate LowBound(g: Graph, e0: Env, e: Env, n: nat, low: int) {
    forall i, y :: n <= i < |e.stack| && y in e0.stack && y in Succ(g, e.stack[i]) ==> y in e.index && low <= e.index[y]
  }

  /** What strongconnect(node), called in e0, has done when it returns in e. */
  ghost predicate Returned(g: Graph, e0: Env, e: Env, node: Node, low: int) {
    && Inv(g, e) && e.gray == e0.gray && Grows(e0, e)
    && LowReached(g, e0, e, node, low) && LowBound(g, e0, e, |e0.stack|, low)
  }

  /** During strongconnect(node), called in e0: i successors have been considered. */
  ghost predicate Within(g: Graph, e0: Env, e: Env, node: Node, low: int, i: nat) {
    && Inv(g, e) && e.gray == e0.gray + {node} && Grows(Push(e0, node), e)
    && node !in e0.index
    && LowReached(g, e0, e, node, low) && LowBound(g, e0, e, |e0.stack| + 1, low)
    && i <= |Succ(g, node)|
    && forall j :: 0 <= j < i ==> Considered(g, e0, e, Succ(g, node)[j], low)
  }

  ghost predicate Considered(g: Graph, e0: Env, e: Env, w: Node, low: int) {
    w in e.index && (w in e0.stack ==> low <= e.index[w])
  }

  /** Position facts about the stack. */
  lemma StackFacts(g: Graph, e: Env, i: nat, j: nat)
    requires Ordered(e) && i < |e.stack| && j < |e.stack|
    ensures e.stack[i] in e.index && e.stack[j] in e.index
    ensures e.index[e.stack[i]] < e.index[e.stack[j]] ==> i < j
    ensures e.stack[i] == e.stack[j] ==> i == j
  {
  }

  /** Every unfinished call leads to a successor of the node on top of them. */
  lemma SuccessorEnterable(g: Graph, e0: Env, e: Env, node: Node, low: int, i: nat)
    requires Placed(g, e0) && Within(g, e0, e, node, low, i) && i < |Succ(g, node)|
    requires Succ(g, node)[i] !in e.index
    ensures Enterable(g, e, Succ(g, node)[i])
  {
    var w := Succ(g, node)[i];
    var n := |e0.stack|;
    assert e.stack[n] == node;
    ReachEdge(g, node, w);
    assert Rooted(g, w) by {
      assert Rooted(g, node);
      var k :| k in g && Reach(g, k, node);
      ReachTrans(g, k, node, w);
    }
    forall x | x in e.gray
      ensures Reach(g, x, w)
    {
      var k: nat :| k <= n && e.stack[k] == x;
      assert Reach(g, e.stack[k], e.stack[n]);
      ReachTrans(g, x, node, w);
    }
  }

  lemma LowLess(g: Graph, e0: Env, e: Env, n: nat, low: int, less: int)
    requires LowBound(g, e0, e, n, low) && less <= low
    ensures LowBound(g, e0, e, n, less)
  {
  }

  lemma ConsideredLess(g: Graph, e0: Env, e: Env, e': Env, w: Node, low: int, less: int)
    requires Considered(g, e0, e, w, low) && less <= low && Grows(e, e')
    ensures Considered(g, e0, e', w, less)
  {
  }

  /** A successor on the stack. */
  lemma ConsiderOnStack(g: Graph, e0: Env, e: Env, node: Node, low: int, i: nat)
    requires Inv(g, e0) && Within(g, e0, e, node, low, i) && i < |Succ(g, node)| && Succ(g, node)[i] in e.stack
    ensures Succ(g, node)[i] in e.index
    ensures Within(g, e0, e, node, Min(low, e.index[Succ(g, node)[i]]), i + 1)
  {
    hide Inv, Connected, ComponentsOk, Explored, Placed, LowBound;
    var w := Succ(g, node)[i];
    OnStackNumbered(g, e, w);
    var less := Min(low, e.index[w]);
    LowLess(g, e0, e, |e0.stack| + 1, low, less);
    if less < e.index[node] && less < low {
      BelowIsOld(g, e0, e, node, w);
      ReachEdge(g, node, w);
    }
  }

  lemma OnStackNumbered(g: Graph, e: Env, w: Node)
    requires Inv(g, e) && w in e.stack
    ensures w in e.index
  {
  }

  /** A node on the stack with a smaller number than node was there before it. */
  lemma BelowIsOld(g: Graph, e0: Env, e: Env, node: Node, w: Node)
    requires Inv(g, e) && Grows(Push(e0, node), e) && w in e.stack && w in e.index && node in e.index
      && e.index[w] < e.index[node]
    ensures w in e0.stack
  {
    var j: nat :| j < |e.stack| && e.stack[j] == w;
    assert e.stack[|e0.stack|] == node;
    StackFacts(g, e, j, |e0.stack|);
    assert e.stack[j] == Push(e0, node).stack[j];
  }

  function Min(a: int, b: int): int {
    if a <= b then a else b
  }

  /** A successor whose component has already been listed. */
  lemma ConsiderListed(g: Graph, e0: Env, e: Env, node: Node, low: int, i: nat)
    requires Within(g, e0, e, node, low, i) && i < |Succ(g, node)|
    requires Succ(g, node)[i] in e.index && Succ(g, node)[i] !in e.stack
    ensures Within(g, e0, e, node, low, i + 1)
  {
    assert e0.stack <= e.stack;
    assert forall y :: y in e0.stack ==> y in e.stack;
  }

  lemma CalledLowReached(g: Graph, e0: Env, e: Env, e': Env, node: Node, low: int, i: nat, m: int)
    requires Within(g, e0, e, node, low, i) && i < |Succ(g, node)|
    requires Succ(g, node)[i] !in e.index && Returned(g, e, e', Succ(g, node)[i], m)
    ensures LowReached(g, e0, e', node, Min(low, m))
  {
    hide Connected, ComponentsOk, Explored, Ordered, LowBound, Reach;
    var w := Succ(g, node)[i];
    if m < low {
      assert m < e'.index[w];
      var y :| y in e.stack && y in e'.index && e'.index[y] == m && Reach(g, w, y);
      BelowIsOld(g, e0, e, node, y);
      ReachEdge(g, node, w);
      ReachTrans(g, node, w, y);
    }
  }

  lemma CalledLowBound(g: Graph, e0: Env, e: Env, e': Env, node: Node, low: int, m: int)
    requires e0.stack <= e.stack && Grows(e, e')
    requires LowBound(g, e0, e, |e0.stack| + 1, low) && LowBound(g, e, e', |e.stack|, m)
    ensures LowBound(g, e0, e', |e0.stack| + 1, Min(low, m))
  {
    forall i, y | |e0.stack| + 1 <= i < |e'.stack| && y in e0.stack && y in Succ(g, e'.stack[i])
      ensures y in e'.index && Min(low, m) <= e'.index[y]
    {
      if i < |e.stack| {
        assert e'.stack[i] == e.stack[i];
      } else {
        assert y in e.stack;
      }
    }
  }

  lemma OldUnseen(g: Graph, e0: Env, e: Env, w: Node)
    requires Placed(g, e) && e0.stack <= e.stack && w !in e.index
    ensures w !in e0.stack
  {
  }

  lemma GrowsTrans(e0: Env, e: Env, e': Env)
    requires Grows(e0, e) && Grows(e, e')
    ensures Grows(e0, e')
  {
  }

  /** A successor that had to be searched itself. */
  lemma ConsiderCalled(g: Graph, e0: Env, e: Env, e': Env, node: Node, low: int, i: nat, m: int)
    requires Within(g, e0, e, node, low, i) && i < |Succ(g, node)|
    requires Succ(g, node)[i] !in e.index && Returned(g, e, e', Succ(g, node)[i], m)
    ensures Within(g, e0, e', node, Min(low, m), i + 1)
  {
    hide Inv, Push, Grows, LowReached, LowBound, Considered, Succ;
    var less := Min(low, m);
    CalledLowReached(g, e0, e, e', node, low, i, m);
    WithinPlaced(g, e0, e, node, low, i);
    GrowsTrans(Push(e0, node), e, e');
    PushGrows(e0, node, e);
    CalledLowBound(g, e0, e, e', node, low, m);
    forall j | 0 <= j < i + 1
      ensures Considered(g, e0, e', Succ(g, node)[j], less)
    {
      if j < i {
        assert Considered(g, e0, e, Succ(g, node)[j], low);
        ConsideredLess(g, e0, e, e', Succ(g, node)[j], low, less);
      } else {
        ConsideredNew(g, e0, e, e', Succ(g, node)[i], less, m);
      }
    }
  }

  lemma PushGrows(e0: Env, node: Node, e: Env)
    requires Grows(Push(e0, node), e)
    ensures e0.stack <= e.stack
  {
    assert e0.stack <= Push(e0, node).stack;
  }

  lemma ConsideredNew(g: Graph, e0: Env, e: Env, e': Env, w: Node, less: int, m: int)
    requires Placed(g, e) && e0.stack <= e.stack && w !in e.index && LowReached(g, e, e', w, m)
    ensures Considered(g, e0, e', w, less)
  {
    OldUnseen(g, e0, e, w);
  }

  lemma WithinPlaced(g: Graph, e0: Env, e: Env, node: Node, low: int, i: nat)
    requires Within(g, e0, e, node, low, i)
    ensures Placed(g, e) && Ordered(e) && e0.stack <= e.stack
  {
  }

  // ---- the end of a call ----

  lemma WithinTop(g: Graph, e0: Env, e: Env, node: Node, low: int, i: nat)
    requires Placed(g, e0) && Ordered(e0) && Within(g, e0, e, node, low, i)
    ensures |e0.stack| < |e.stack| && e.stack[|e0.stack|] == node
    ensures node !in e0.stack && node !in e0.gray
    ensures Grows(e0, e)
  {
    hide Inv, LowReached, LowBound, Considered;
    assert e.stack[|e0.stack|] == Push(e0, node).stack[|e0.stack|];
    assert node !in e0.stack;
    forall v | v in e0.index
      ensures v in e.index && e.index[v] == e0.index[v]
    {
      assert v in Push(e0, node).index;
    }
  }

  lemma ClosedReturns(g: Graph, e0: Env, e: Env, node: Node, low: int, i: nat)
    requires Placed(g, e0) && Ordered(e0) && Connected(g, e0)
    requires Within(g, e0, e, node, low, |Succ(g, node)|) && low < e.index[node]
    requires i < |e.stack|
    ensures ReturnsTo(g, e.(gray := e0.gray), i)
  {
    hide Placed, Ordered, ComponentsOk, Explored, LowBound, Considered, Reach;
    WithinTop(g, e0, e, node, low, |Succ(g, node)|);
    var e' := e.(gray := e0.gray);
    var n := |e0.stack|;
    assert ReturnsTo(g, e, i);
    var k :| 0 <= k <= i && e.stack[k] in e.gray && Reach(g, e.stack[i], e.stack[k]);
    if e.stack[k] == node {
      var y :| y in e0.stack && y in e.index && e.index[y] == low && Reach(g, node, y);
      var j :| 0 <= j < n && e0.stack[j] == y;
      assert ReturnsTo(g, e0, j);
      var l :| 0 <= l <= j && e0.stack[l] in e0.gray && Reach(g, e0.stack[j], e0.stack[l]);
      ReachTrans(g, node, y, e0.stack[l]);
      ReachTrans(g, e.stack[i], node, e0.stack[l]);
      PrefixBefore(g, e0, e, node, low, k, l);
      assert e'.stack[l] in e'.gray && Reach(g, e'.stack[i], e'.stack[l]);
    } else {
      assert e'.stack[k] in e'.gray;
    }
  }

  lemma PrefixBefore(g: Graph, e0: Env, e: Env, node: Node, low: int, k: nat, l: nat)
    requires Placed(g, e0) && Ordered(e0) && Within(g, e0, e, node, low, |Succ(g, node)|)
    requires k < |e.stack| && l < |e0.stack| && e.stack[k] == node
    ensures l < |e.stack| && e.stack[l] == e0.stack[l] && l <= k
  {
    hide Connected, ComponentsOk, Explored, LowBound, LowReached, Considered, Reach;
    WithinTop(g, e0, e, node, low, |Succ(g, node)|);
    StackFacts(g, e, k, |e0.stack|);
  }

  lemma KeepConnected(g: Graph, e0: Env, e: Env, node: Node, low: int)
    requires Inv(g, e0) && Within(g, e0, e, node, low, |Succ(g, node)|) && low < e.index[node]
    ensures Connected(g, e.(gray := e0.gray))
  {
    hide Inv, Reach, ReturnsTo, LowReached, LowBound, Considered, Succ;
    InvParts(g, e0);
    InvParts(g, e);
    forall i | 0 <= i < |e.stack|
      ensures ReturnsTo(g, e.(gray := e0.gray), i)
    {
      ClosedReturns(g, e0, e, node, low, i);
    }
  }

  lemma InvParts(g: Graph, e: Env)
    requires Inv(g, e)
    ensures Placed(g, e) && Ordered(e) && Connected(g, e) && Explored(g, e) && ComponentsOk(g, e.result)
  {
  }

  /** The call returns without popping: node belongs to the component of an older node. */
  lemma FinishKeep(g: Graph, e0: Env, e: Env, node: Node, low: int)
    requires Inv(g, e0) && Within(g, e0, e, node, low, |Succ(g, node)|) && low < e.index[node]
    ensures Returned(g, e0, e.(gray := e0.gray), node, low)
  {
    hide Connected, ComponentsOk, Reach, Explored, Ordered, LowBound, LowReached, Considered, Succ;
    WithinTop(g, e0, e, node, low, |Succ(g, node)|);
    KeepConnected(g, e0, e, node, low);
    KeepExplored(g, e0, e, node, low);
    KeepLow(g, e0, e, node, low);
    KeepPlaced(g, e0, e);
    PopOrdered(g, e, e, e.(gray := e0.gray));
    PopGrows(e0, e, e.(gray := e0.gray));
  }

  lemma KeepPlaced(g: Graph, e0: Env, e: Env)
    requires Placed(g, e) && e0.gray <= e.gray
    ensures Placed(g, e.(gray := e0.gray))
  {
  }

  lemma KeepExplored(g: Graph, e0: Env, e: Env, node: Node, low: int)
    requires Within(g, e0, e, node, low, |Succ(g, node)|)
    ensures Explored(g, e.(gray := e0.gray))
  {
    hide Connected, ComponentsOk, Reach, Placed, Ordered, LowBound, LowReached;
    forall v, w | v in e.index && v !in e0.gray && w in Succ(g, v)
      ensures w in e.index
    {
      if v == node {
        var j :| 0 <= j < |Succ(g, node)| && Succ(g, node)[j] == w;
        assert Considered(g, e0, e, Succ(g, node)[j], low);
      }
    }
  }

  lemma KeepLow(g: Graph, e0: Env, e: Env, node: Node, low: int)
    requires Placed(g, e0) && Ordered(e0) && Within(g, e0, e, node, low, |Succ(g, node)|)
    ensures LowReached(g, e0, e.(gray := e0.gray), node, low)
    ensures LowBound(g, e0, e.(gray := e0.gray), |e0.stack|, low)
  {
    hide Inv, Reach, Succ;
    WithinTop(g, e0, e, node, low, |Succ(g, node)|);
    forall i, y | |e0.stack| <= i < |e.stack| && y in e0.stack && y in Succ(g, e.stack[i])
      ensures y in e.index && low <= e.index[y]
    {
      if i == |e0.stack| {
        var j :| 0 <= j < |Succ(g, node)| && Succ(g, node)[j] == y;
        assert Considered(g, e0, e, Succ(g, node)[j], low);
      }
    }
  }

  /** A component being popped: the top of the stack first, down to position n. */
  ghost predicate Popped(full: seq<Node>, n: nat, component: seq<Node>) {
    && n <= |full| && |component| == |full| - n
    && forall j :: 0 <= j < |component| ==> component[j] == full[|full| - 1 - j]
  }

  lemma PoppedNodes(full: seq<Node>, n: nat, component: seq<Node>, v: Node)
    requires Popped(full, n, component)
    ensures v in component <==> v in full[n..]
  {
    if v in component {
      var j :| 0 <= j < |component| && component[j] == v;
      assert full[n..][|full| - 1 - j - n] == v;
    }
    if v in full[n..] {
      var j :| 0 <= j < |full| - n && full[n..][j] == v;
      assert component[|full| - 1 - n - j] == v;
    }
  }

  /** No edge leaves the popped nodes for the rest of the stack. */
  lemma NoEdgeDown(g: Graph, e0: Env, e: Env, node: Node, i: nat, y: Node)
    requires Placed(g, e0) && Ordered(e0)
    requires node in e.index && Within(g, e0, e, node, e.index[node], |Succ(g, node)|)
    requires |e0.stack| <= i < |e.stack| && y in Succ(g, e.stack[i])
    ensures y in e.index && y !in e0.stack
  {
    hide Connected, ComponentsOk, Reach, Succ;
    WithinTop(g, e0, e, node, e.index[node], |Succ(g, node)|);
    KeepLow(g, e0, e, node, e.index[node]);
    KeepExplored(g, e0, e, node, e.index[node]);
    AboveNotGray(g, e0, e, node, e.index[node], i);
    assert LowBound(g, e0, e.(gray := e0.gray), |e0.stack|, e.index[node]);
    OldIsLower(g, e0, e, node);
  }

  lemma OldIsLower(g: Graph, e0: Env, e: Env, node: Node)
    requires Ordered(e) && e0.stack <= e.stack && |e0.stack| < |e.stack| && e.stack[|e0.stack|] == node
    ensures node in e.index
    ensures forall y :: y in e0.stack ==> y in e.index && e.index[y] < e.index[node]
  {
    assert forall j :: 0 <= j < |e0.stack| ==> e.stack[j] == e0.stack[j];
  }

  lemma AboveNotGray(g: Graph, e0: Env, e: Env, node: Node, low: int, i: nat)
    requires Placed(g, e0) && Ordered(e0) && Within(g, e0, e, node, low, |Succ(g, node)|)
    requires |e0.stack| <= i < |e.stack|
    ensures e.stack[i] in e.index && e.stack[i] !in e0.stack && e.stack[i] !in e0.gray
  {
    hide Connected, ComponentsOk, Explored, LowBound, LowReached, Considered, Reach;
    WithinTop(g, e0, e, node, low, |Succ(g, node)|);
    forall j | 0 <= j < |e0.stack|
      ensures e0.stack[j] != e.stack[i]
    {
      assert e.stack[j] == e0.stack[j];
    }
  }

  lemma ListedClosed(g: Graph, result: seq<seq<Node>>)
    requires ComponentsOk(g, result)
    ensures Closed(g, Listed(result))
  {
    forall v, w | v in Listed(result) && w in Succ(g, v)
      ensures w in Listed(result)
    {
      var i :| 0 <= i < |result| && v in result[i];
      assert w in Listed(result[..i + 1]);
      var j :| 0 <= j < i + 1 && w in result[..i + 1][j];
      assert w in result[j];
    }
  }

  /** The popped nodes and those listed before: nothing leads out of them. */
  lemma PoppedClosed(g: Graph, e0: Env, e: Env, node: Node)
    requires Placed(g, e0) && Ordered(e0)
    requires node in e.index && Within(g, e0, e, node, e.index[node], |Succ(g, node)|)
    ensures |e0.stack| <= |e.stack|
    ensures Closed(g, (set v | v in e.stack[|e0.stack|..]) + Listed(e.result))
  {
    hide Connected, Ordered, Explored, Reach, Succ, LowBound, LowReached, Considered, Listed, ComponentsOk;
    WithinTop(g, e0, e, node, e.index[node], |Succ(g, node)|);
    ListedClosed(g, e.result);
    var n := |e0.stack|;
    var s := set v | v in e.stack[n..];
    forall v, w | v in s + Listed(e.result) && w in Succ(g, v)
      ensures w in s + Listed(e.result)
    {
      if v in s {
        var i: nat :| i < |e.stack[n..]| && e.stack[n..][i] == v;
        NoEdgeDown(g, e0, e, node, n + i, w);
        if w !in Listed(e.result) {
          StackSplit(e.stack, n, w, e0.stack);
        }
      }
    }
  }

  lemma StackSplit(stack: seq<Node>, n: nat, w: Node, below: seq<Node>)
    requires below <= stack && n == |below| && w in stack && w !in below
    ensures w in stack[n..]
  {
    var j :| 0 <= j < |stack| && stack[j] == w;
    assert forall k :: 0 <= k < n ==> stack[k] == below[k];
    assert stack[n..][j - n] == w;
  }

  lemma ListedHas(e: Env, g: Graph, v: Node)
    requires Placed(g, e) && v in e.stack
    ensures v !in Listed(e.result)
  {
  }

  /** Every popped node leads back to node, which leads to every popped node. */
  lemma PoppedMutual(g: Graph, e0: Env, e: Env, node: Node, i: nat)
    requires Placed(g, e0) && Ordered(e0)
    requires node in e.index && Within(g, e0, e, node, e.index[node], |Succ(g, node)|)
    requires |e0.stack| <= i < |e.stack|
    ensures Mutual(g, node, e.stack[i])
  {
    hide Placed, Ordered, Explored, Reach, Succ, LowBound, LowReached, Considered, Listed, ComponentsOk, Closed;
    var n := |e0.stack|;
    WithinTop(g, e0, e, node, e.index[node], |Succ(g, node)|);
    PoppedClosed(g, e0, e, node);
    assert Reach(g, e.stack[n], e.stack[i]);
    assert ReturnsTo(g, e, i);
    var k :| 0 <= k <= i && e.stack[k] in e.gray && Reach(g, e.stack[i], e.stack[k]);
    assert e.stack[i] == e.stack[n..][i - n];
    ReachStays(g, (set v | v in e.stack[n..]) + Listed(e.result), e.stack[i], e.stack[k]);
    ListedHas(e, g, e.stack[k]);
    if e.stack[k] != node {
      var l :| 0 <= l < |e.stack[n..]| && e.stack[n..][l] == e.stack[k];
      AboveNotGray(g, e0, e, node, e.index[node], n + l);
    }
  }

  lemma MutualTrans(g: Graph, node: Node, x: Node, y: Node)
    requires Mutual(g, node, x) && Mutual(g, node, y)
    ensures Mutual(g, x, y)
  {
    hide Reach;
    ReachTrans(g, x, node, y);
    ReachTrans(g, y, node, x);
  }

  /** Whoever x of a closed set leads to and back is in that set, and in a smaller closed set only with x. */
  lemma MutualStays(g: Graph, s: set<Node>, listed: set<Node>, x: Node, y: Node)
    requires Closed(g, s + listed) && Closed(g, listed) && x in s && x !in listed && Mutual(g, x, y)
    ensures y in s
  {
    hide Reach, Closed;
    ReachStays(g, s + listed, x, y);
    if y in listed { ReachStays(g, listed, y, x); }
  }

  lemma PoppedOnce(e: Env, n: nat, component: seq<Node>)
    requires Ordered(e) && Popped(e.stack, n, component)
    ensures forall i, j :: 0 <= i < j < |component| ==> component[i] != component[j]
  {
    forall i, j | 0 <= i < j < |component|
      ensures component[i] != component[j]
    {
      var k, l := |e.stack| - 1 - j, |e.stack| - 1 - i;
      assert component[i] == e.stack[l] && component[j] == e.stack[k];
      assert e.index[e.stack[k]] < e.index[e.stack[l]];
    }
  }

  lemma WithinIs(g: Graph, e0: Env, e: Env, node: Node, low: int, i: nat)
    requires Within(g, e0, e, node, low, i)
    ensures Placed(g, e) && Ordered(e) && ComponentsOk(g, e.result)
  {
    hide Placed, Ordered, ComponentsOk;
  }

  /** The popped nodes are exactly one strongly connected component. */
  lemma PoppedComponent(g: Graph, e0: Env, e: Env, node: Node, component: seq<Node>)
    requires Placed(g, e0) && Ordered(e0)
    requires node in e.index && Within(g, e0, e, node, e.index[node], |Succ(g, node)|)
    requires Popped(e.stack, |e0.stack|, component)
    ensures IsComponent(g, component)
  {
    hide Reach, Succ, Listed, ComponentsOk, Closed, Mutual, Ordered, Placed, Within, Inv;
    var n := |e0.stack|;
    WithinIs(g, e0, e, node, e.index[node], |Succ(g, node)|);
    PoppedOnce(e, n, component);
    WithinTop(g, e0, e, node, e.index[node], |Succ(g, node)|);
    PoppedClosed(g, e0, e, node);
    ListedClosed(g, e.result);
    var top := |e.stack| - 1;
    PoppedMutual(g, e0, e, node, top);
    ListedHas(e, g, component[0]);
    PoppedNodes(e.stack, n, component, component[0]);
    forall y
      ensures y in component <==> Mutual(g, component[0], y)
    {
      PoppedNodes(e.stack, n, component, y);
      if y in component {
        var j :| 0 <= j < |component| && component[j] == y;
        PoppedMutual(g, e0, e, node, top - j);
        MutualTrans(g, node, component[0], y);
      }
      if Mutual(g, component[0], y) {
        MutualStays(g, (set v | v in e.stack[n..]), Listed(e.result), component[0], y);
      }
    }
  }

  lemma ListedAppend(result: seq<seq<Node>>, component: seq<Node>)
    ensures Listed(result + [component]) == Listed(result) + set v | v in component
  {
    forall v
      ensures v in Listed(result + [component]) <==> v in Listed(result) || v in component
    {
      if v in component { assert v in (result + [component])[|result|]; }
      if v in Listed(result) {
        var i :| 0 <= i < |result| && v in result[i];
        assert v in (result + [component])[i];
      }
    }
  }

  lemma ComponentsAppend(g: Graph, result: seq<seq<Node>>, component: seq<Node>)
    requires ComponentsOk(g, result) && IsComponent(g, component)
    requires forall v :: v in component ==> v !in Listed(result)
    requires forall v, w :: v in component && w in Succ(g, v) ==> w in component || w in Listed(result)
    ensures ComponentsOk(g, result + [component])
  {
    hide IsComponent, Succ;
    var all := result + [component];
    forall i, v, w | 0 <= i < |all| && v in all[i] && w in Succ(g, v)
      ensures w in Listed(all[..i + 1])
    {
      if i == |result| {
        assert all[..i + 1] == all;
        ListedAppend(result, component);
      } else {
        assert all[..i + 1] == result[..i + 1];
        assert v in result[i];
      }
    }
  }

  /** The call pops the component of node: everything pushed since it began. */
  lemma FinishPop(g: Graph, e0: Env, e: Env, node: Node, component: seq<Node>)
    requires Inv(g, e0)
    requires node in e.index && Within(g, e0, e, node, e.index[node], |Succ(g, node)|)
    requires Popped(e.stack, |e0.stack|, component)
    ensures Returned(g, e0, Env(e0.stack, e.index, e.result + [component], e0.gray, e.counter), node, e.index[node])
  {
    hide Connected, Explored, Reach, Succ, LowBound, Considered, ComponentsOk, IsComponent, Popped, Closed, Listed;
    var n := |e0.stack|;
    var e' := Env(e0.stack, e.index, e.result + [component], e0.gray, e.counter);
    WithinTop(g, e0, e, node, e.index[node], |Succ(g, node)|);
    PoppedComponent(g, e0, e, node, component);
    PoppedEdges(g, e0, e, node, component);
    ComponentsAppend(g, e.result, component);
    KeepExplored(g, e0, e, node, e.index[node]);
    PopExplored(g, e, e', e0.gray);
    ListedAppend(e.result, component);
    PopPlaced(g, e0, e, node, component);
    PopOrdered(g, e0, e, e');
    PopConnected(g, e0, e');
    assert LowReached(g, e0, e', node, e.index[node]);
    PopBound(g, e0, e', e.index[node]);
    PopGrows(e0, e, e');
  }

  lemma PopExplored(g: Graph, e: Env, e': Env, gray: set<Node>)
    requires Explored(g, e.(gray := gray)) && e'.index == e.index && e'.gray == gray
    ensures Explored(g, e')
  {
  }

  lemma PopConnected(g: Graph, e0: Env, e': Env)
    requires Connected(g, e0) && e'.stack == e0.stack && e'.gray == e0.gray
    ensures Connected(g, e')
  {
    forall i | 0 <= i < |e'.stack|
      ensures ReturnsTo(g, e', i)
    {
      assert ReturnsTo(g, e0, i);
    }
  }

  lemma PopGrows(e0: Env, e: Env, e': Env)
    requires Grows(e0, e) && e0.stack <= e'.stack && e'.index == e.index && e'.counter == e.counter
    ensures Grows(e0, e')
  {
  }

  lemma PopOrdered(g: Graph, e0: Env, e: Env, e': Env)
    requires Ordered(e) && e0.stack <= e.stack && e'.stack == e0.stack && e'.index == e.index
    ensures Ordered(e')
  {
    assert forall i :: 0 <= i < |e0.stack| ==> e0.stack[i] == e.stack[i];
  }

  lemma PopBound(g: Graph, e0: Env, e': Env, low: int)
    requires e'.stack == e0.stack
    ensures LowBound(g, e0, e', |e0.stack|, low)
  {
  }

  lemma PopPlaced(g: Graph, e0: Env, e: Env, node: Node, component: seq<Node>)
    requires Placed(g, e0) && Ordered(e0)
    requires node in e.index && Within(g, e0, e, node, e.index[node], |Succ(g, node)|)
    requires Popped(e.stack, |e0.stack|, component)
    ensures Placed(g, Env(e0.stack, e.index, e.result + [component], e0.gray, e.counter))
  {
    hide Connected, ComponentsOk, Explored, Reach, Succ, LowBound, LowReached, Considered, Listed;
    var n := |e0.stack|;
    WithinTop(g, e0, e, node, e.index[node], |Succ(g, node)|);
    ListedAppend(e.result, component);
    forall v
      ensures v in e.stack <==> v in e0.stack || v in component
      ensures v in e0.stack ==> v !in component
    {
      PoppedNodes(e.stack, n, component, v);
      if v in e.stack && v !in e0.stack { StackSplit(e.stack, n, v, e0.stack); }
      if v in component {
        var i: nat :| i < |e.stack[n..]| && e.stack[n..][i] == v;
        AboveNotGray(g, e0, e, node, e.index[node], n + i);
        assert v in e.stack;
      }
      if v in e0.stack { assert v in e.stack[..n]; }
    }
  }

  lemma PoppedEdges(g: Graph, e0: Env, e: Env, node: Node, component: seq<Node>)
    requires Placed(g, e0) && Ordered(e0)
    requires node in e.index && Within(g, e0, e, node, e.index[node], |Succ(g, node)|)
    requires Popped(e.stack, |e0.stack|, component)
    ensures forall v :: v in component ==> v !in Listed(e.result)
    ensures forall v, w :: v in component && w in Succ(g, v) ==> w in component || w in Listed(e.result)
  {
    hide Connected, ComponentsOk, Explored, Reach, Succ, LowBound, LowReached, Considered, Listed, Popped, Ordered;
    PoppedClosed(g, e0, e, node);
    var n := |e0.stack|;
    forall v | v in component
      ensures v !in Listed(e.result)
      ensures v in e.stack[n..]
    {
      PoppedNodes(e.stack, n, component, v);
      ListedHas(e, g, v);
    }
    forall v, w | v in component && w in Succ(g, v)
      ensures w in component || w in Listed(e.result)
    {
      PoppedNodes(e.stack, n, component, w);
    }
  }

  // ---- termination ----

  /** The keys of the graph and every name they list. */
  ghost function Universe(g: Graph): set<Node> {
    g.Keys + set v, w | v in g && w in g[v] :: w
  }

  lemma RootedInUniverse(g: Graph, v: Node)
    requires Rooted(g, v)
    ensures v in Universe(g)
  {
    var k :| k in g && Reach(g, k, v);
    ReachStays(g, Universe(g), k, v);
  }

  ghost function Unseen(g: Graph, index: map<Node, int>): set<Node> {
    Universe(g) - index.Keys
  }

  lemma UnseenLess(g: Graph, index: map<Node, int>, index': map<Node, int>, v: Node)
    requires Rooted(g, v) && v !in index && v in index' && index.Keys <= index'.Keys
    ensures Unseen(g, index') < Unseen(g, index)
  {
    RootedInUniverse(g, v);
    assert v in Unseen(g, index) && v !in Unseen(g, index');
  }

  // ---- the procedure ----

  class Search {
    const graph: Graph
    var indexCounter: nat
    var stack: seq<Node>
    var lowlinks: map<Node, int>
    var index: map<Node, int>
    var result: seq<seq<Node>>
    /** The nodes whose call has not returned. */
    ghost var gray: set<Node>

    ghost function State(): Env
      reads this
    {
      Env(stack, index, result, gray, indexCounter)
    }

    ghost predicate Valid()
      reads this
    {
      Inv(graph, State()) && lowlinks.Keys == index.Keys
    }

    constructor (graph: Graph)
      ensures this.graph == graph && Valid()
      ensures State() == Env([], map[], [], {}, 0)
    {
      this.graph := graph;
      indexCounter, stack, lowlinks, index, result := 0, [], map[], map[], [];
      gray := {};
      new;
      assert Placed(graph, State());
    }

    /** Pops the stack down to and including node, at position n. */
    method PopComponent(node: Node, ghost n: nat) returns (component: seq<Node>)
      requires n < |stack| && stack[n] == node && forall i :: n < i < |stack| ==> stack[i] != node
      modifies `stack
      ensures stack == old(stack)[..n] && Popped(old(stack), n, component)
    {
      component := [];
      while true
        invariant n < |stack| <= |old(stack)| && stack == old(stack)[..|stack|]
        invariant Popped(old(stack), |stack|, component)
        decreases |stack|
      {
        var successor := stack[|stack| - 1];
        stack := stack[..|stack| - 1];
        component := component + [successor];
        if successor == node { break; }
      }
    }

    /** The end of strongconnect(node): if node is a root, its component is popped and listed. */
    method Finish(node: Node, ghost e0: Env)
      requires Inv(graph, e0) && node in lowlinks
      requires Within(graph, e0, State(), node, lowlinks[node], |Succ(graph, node)|)
      modifies `stack, `result, `gray
      ensures Returned(graph, e0, State(), node, lowlinks[node])
    {
      hide Inv, Within, Returned, Succ;
      ghost var e := State();
      Explores(graph, e0, e, node, lowlinks[node]);
      if lowlinks[node] == index[node] {
        OnlyOne(graph, e0, e, node, lowlinks[node]);
        var component := PopComponent(node, |e0.stack|);
        result := result + [component];
        FinishPop(graph, e0, e, node, component);
        gray := e0.gray;
        assert stack == e0.stack;
      } else {
        FinishKeep(graph, e0, e, node, lowlinks[node]);
        gray := e0.gray;
      }
    }

    method StrongConnect(node: Node)
      requires Valid() && Enterable(graph, State(), node)
      modifies this
      ensures lowlinks.Keys == index.Keys
      ensures forall v :: v in old(lowlinks) ==> v in lowlinks && lowlinks[v] == old(lowlinks)[v]
      ensures node in lowlinks && Returned(graph, old(State()), State(), node, lowlinks[node])
      decreases Unseen(graph, index)
    {
      hide Inv, Enterable, Within, Returned, Unseen, Rooted, Succ, Min;
      ghost var e0 := State();
      index := index[node := indexCounter];
      lowlinks := lowlinks[node := indexCounter];
      indexCounter := indexCounter + 1;
      stack := stack + [node];
      gray := gray + {node};
      Entered(graph, e0, node);
      assert State() == Push(e0, node);
      var successors := Succ(graph, node);
      for i := 0 to |successors|
        invariant node in lowlinks && lowlinks.Keys == index.Keys
        invariant forall v :: v in old(lowlinks) ==> v in lowlinks && lowlinks[v] == old(lowlinks)[v]
        invariant Within(graph, e0, State(), node, lowlinks[node], i)
      {
        var successor := successors[i];
        ghost var e := State();
        if successor !in lowlinks {
          SuccessorReady(graph, e0, e, node, lowlinks[node], i);
          StrongConnect(successor);
          ConsiderCalled(graph, e0, e, State(), node, lowlinks[node], i, lowlinks[successor]);
          lowlinks := lowlinks[node := Min(lowlinks[node], lowlinks[successor])];
        } else if successor in stack {
          ConsiderOnStack(graph, e0, e, node, lowlinks[node], i);
          lowlinks := lowlinks[node := Min(lowlinks[node], index[successor])];
        } else {
          ConsiderListed(graph, e0, e, node, lowlinks[node], i);
        }
      }
      Finish(node, e0);
    }
  }

  lemma Entered(g: Graph, e0: Env, node: Node)
    requires Inv(g, e0) && Enterable(g, e0, node)
    ensures node !in e0.index
    ensures Within(g, e0, Push(e0, node), node, e0.counter, 0)
  {
    PushInv(g, e0, node);
    hide Inv, Rooted, Reach;
    assert LowBound(g, e0, Push(e0, node), |e0.stack| + 1, e0.counter);
  }

  lemma SuccessorReady(g: Graph, e0: Env, e: Env, node: Node, low: int, i: nat)
    requires Inv(g, e0) && Within(g, e0, e, node, low, i) && i < |Succ(g, node)|
    requires Succ(g, node)[i] !in e.index
    ensures Inv(g, e) && Enterable(g, e, Succ(g, node)[i])
    ensures Unseen(g, e.index) < Unseen(g, e0.index)
  {
    hide Connected, Explored, ComponentsOk, LowReached, LowBound, Considered, Unseen;
    SuccessorEnterable(g, e0, e, node, low, i);
    WithinTop(g, e0, e, node, low, i);
    UnseenLess(g, e0.index, e.index, node);
  }

  lemma Explores(g: Graph, e0: Env, e: Env, node: Node, low: int)
    requires Inv(g, e0) && Within(g, e0, e, node, low, |Succ(g, node)|)
    ensures |e0.stack| < |e.stack| && e.stack[|e0.stack|] == node && e0.stack <= e.stack
    ensures node in e.index && low <= e.index[node]
  {
    WithinTop(g, e0, e, node, low, |Succ(g, node)|);
  }

  lemma OnlyOne(g: Graph, e0: Env, e: Env, node: Node, low: int)
    requires Inv(g, e0) && Within(g, e0, e, node, low, |Succ(g, node)|)
    ensures |e0.stack| < |e.stack| && e.stack[..|e0.stack|] == e0.stack
    ensures forall k :: |e0.stack| < k < |e.stack| ==> e.stack[k] != node
  {
    WithinTop(g, e0, e, node, low, |Succ(g, node)|);
    forall k | |e0.stack| < k < |e.stack|
      ensures e.stack[k] != node
    {
      StackFacts(g, e, k, |e0.stack|);
    }
  }

  /** The components of the graph, given its keys in the order they are iterated in. */
  method StronglyConnectedComponents(graph: Graph, keys: seq<Node>) returns (result: seq<seq<Node>>)
    requires forall k :: k in keys <==> k in graph
    ensures ComponentsOk(graph, result)
    ensures forall v :: v in Listed(result) <==> Rooted(graph, v)
  {
    hide Inv, ComponentsOk, Rooted, Listed, Reach, Enterable, Returned;
    var search := new Search(graph);
    for i := 0 to |keys|
      invariant search.graph == graph && search.Valid() && search.gray == {}
      invariant forall j :: 0 <= j < i ==> keys[j] in search.index
    {
      var node := keys[i];
      if node !in search.lowlinks {
        ghost var e := search.State();
        RootEnterable(graph, e, node);
        search.StrongConnect(node);
        RootReturned(graph, e, search.State(), node, search.lowlinks[node]);
      }
    }
    AllListed(graph, search.State());
    result := search.result;
  }

  lemma RootEnterable(g: Graph, e: Env, node: Node)
    requires e.gray == {} && node in g && node !in e.index
    ensures Enterable(g, e, node)
  {
    ReachSelf(g, node);
  }

  lemma RootReturned(g: Graph, e: Env, e': Env, node: Node, low: int)
    requires Returned(g, e, e', node, low)
    ensures Inv(g, e') && e'.gray == e.gray && node in e'.index
    ensures forall v :: v in e.index ==> v in e'.index
  {
  }

  lemma AllListed(g: Graph, e: Env)
    requires Inv(g, e) && e.gray == {}
    requires forall k :: k in g ==> k in e.index
    ensures ComponentsOk(g, e.result)
    ensures forall v :: v in Listed(e.result) <==> Rooted(g, v)
  {
    assert |e.stack| > 0 ==> ReturnsTo(g, e, 0);
    ListedClosed(g, e.result);
    forall v | Rooted(g, v)
      ensures v in Listed(e.result)
    {
      var k :| k in g && Reach(g, k, v);
      ReachStays(g, Listed(e.result), k, v);
    }
  }

  // ---- what the result means ----

  /** Components come in reverse topological order. */
  lemma LeadsBack(g: Graph, result: seq<seq<Node>>, i: nat, v: Node, j: nat, w: Node)
    requires ComponentsOk(g, result)
    requires i < |result| && v in result[i] && j < |result| && w in result[j] && Reach(g, v, w)
    ensures j <= i
  {
    var s := Listed(result[..i + 1]);
    forall a, b | a in s && b in Succ(g, a)
      ensures b in s
    {
      var k :| 0 <= k < i + 1 && a in result[..i + 1][k];
      assert a in result[k];
      assert b in Listed(result[..k + 1]);
      var l :| 0 <= l < k + 1 && b in result[..k + 1][l];
      assert b in result[..i + 1][l];
    }
    assert v in result[..i + 1][i];
    ReachStays(g, s, v, w);
    var l :| 0 <= l < i + 1 && w in result[..i + 1][l];
    assert w in result[l];
  }

  /** Two listed nodes share a tuple exactly when each leads to the other. */
  lemma SameTuple(g: Graph, result: seq<seq<Node>>, i: nat, v: Node, j: nat, w: Node)
    requires ComponentsOk(g, result)
    requires i < |result| && v in result[i] && j < |result| && w in result[j]
    ensures i == j <==> Mutual(g, v, w)
  {
    if i == j {
      var c := result[i];
      assert IsComponent(g, c);
      assert Mutual(g, c[0], v) && Mutual(g, c[0], w);
      ReachTrans(g, v, c[0], w);
      ReachTrans(g, w, c[0], v);
    } else if Mutual(g, v, w) {
      LeadsBack(g, result, i, v, j, w);
      LeadsBack(g, result, j, w, i, v);
    }
  }

  /** The tuples the tool prints, those of length other than one, hold exactly the
      files on a cycle through another file. */
  lemma PrintedCycles(g: Graph, result: seq<seq<Node>>, v: Node)
    requires ComponentsOk(g, result) && (forall x :: x in Listed(result) <==> Rooted(g, x))
    requires v in g
    ensures (exists c :: c in result && |c| != 1 && v in c) <==> exists w :: w != v && Mutual(g, v, w)
  {
    ReachSelf(g, v);
    assert Rooted(g, v);
    var i :| 0 <= i < |result| && v in result[i];
    var c := result[i];
    assert IsComponent(g, c);
    if w :| w != v && Mutual(g, v, w) {
      ReachTrans(g, c[0], v, w);
      ReachTrans(g, w, v, c[0]);
      assert c in result && |c| != 1;
    }
    if d :| d in result && |d| != 1 && v in d {
      var j :| 0 <= j < |result| && result[j] == d;
      assert IsComponent(g, d);
      var w := if d[0] == v then d[1] else d[0];
      ReachSelf(g, d[0]);
      assert w in d;
      SameTuple(g, result, j, v, j, w);
    }
  }
}
