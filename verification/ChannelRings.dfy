/** Commands in linked rings: iterators, and the operations of Externals/enet/list.c as
    Externals/enet/peer.c uses them on the lists of a channel, each leaving every list whole. */
module ChannelRings {
  import opened PeerQueues
  import opened RingList

  /** Each of these nodes begins a command whose packet is held once. */
  ghost predicate Begin(commands: map<Node, Incoming>, references: map<Node, nat>, nodes: seq<Node>) {
    forall i :: 0 <= i < |nodes| ==> nodes[i] in commands && nodes[i] in references && references[nodes[i]] == 1
  }

  /** The commands that begin with these nodes. */
  ghost function Of(commands: map<Node, Incoming>, nodes: seq<Node>): (q: seq<Incoming>)
    requires forall i :: 0 <= i < |nodes| ==> nodes[i] in commands
    ensures |q| == |nodes| && forall i :: 0 <= i < |q| ==> q[i] == commands[nodes[i]]
  {
    seq(|nodes|, i requires 0 <= i < |nodes| => commands[nodes[i]])
  }

  lemma OfParts(commands: map<Node, Incoming>, references: map<Node, nat>, nodes: seq<Node>, i: nat, j: nat)
    requires i <= j <= |nodes| && Begin(commands, references, nodes)
    ensures Begin(commands, references, nodes[i..j]) && Of(commands, nodes[i..j]) == Of(commands, nodes)[i..j]
  {
  }

  lemma OfSum(commands: map<Node, Incoming>, references: map<Node, nat>, a: seq<Node>, b: seq<Node>)
    requires Begin(commands, references, a) && Begin(commands, references, b)
    ensures Begin(commands, references, a + b) && Of(commands, a + b) == Of(commands, a) + Of(commands, b)
  {
  }

  /** Where an iterator at position p of a list points. */
  ghost function At(list: List, nodes: seq<Node>, p: nat): Node
    requires p <= |nodes|
  {
    if p < |nodes| then nodes[p] else list.sentinel
  }

  /** enet_list_next and enet_list_previous, and the comparison with enet_list_end. */
  lemma Walk(list: List, nodes: seq<Node>, p: nat)
    requires list.Holds(nodes) && p <= |nodes|
    ensures At(list, nodes, p).next == At(list, nodes, if p < |nodes| then p + 1 else 0)
    ensures At(list, nodes, p).previous == At(list, nodes, if p > 0 then p - 1 else |nodes|)
    ensures At(list, nodes, p) == list.sentinel <==> p == |nodes|
  {
    var r := [list.sentinel] + nodes;
    if p < |nodes| {
      RingLinks(r, p + 1);
    } else {
      RingLinks(r, 0);
      RingLinks(r, |nodes|);
    }
  }

  /** The node before position p of a list. */
  ghost function Before(list: List, nodes: seq<Node>, p: nat): Node
    requires p <= |nodes|
  {
    if p > 0 then nodes[p - 1] else list.sentinel
  }

  lemma WalkBack(list: List, nodes: seq<Node>, p: nat)
    requires list.Holds(nodes) && p <= |nodes|
    ensures Before(list, nodes, p).next == At(list, nodes, p)
    ensures p > 0 ==> Before(list, nodes, p).previous == Before(list, nodes, p - 1)
    ensures p == |nodes| ==> list.sentinel.previous == Before(list, nodes, p)
    ensures Before(list, nodes, p) == list.sentinel <==> p == 0
  {
    var r := [list.sentinel] + nodes;
    RingLinks(r, p);
    assert p < |nodes| ==> r[p + 1] == nodes[p];
    RingLinks(r, |nodes|);
    if p > 0 { RingLinks(r, p - 1); }
  }

  lemma SamePlace(list: List, nodes: seq<Node>, p: nat, o: nat)
    requires Distinct([list.sentinel] + nodes) && p <= |nodes| && o <= |nodes|
    ensures At(list, nodes, p) == At(list, nodes, o) <==> p == o
  {
    var r := [list.sentinel] + nodes;
    var a, b := if p < |nodes| then p + 1 else 0, if o < |nodes| then o + 1 else 0;
    assert r[a] == At(list, nodes, p) && r[b] == At(list, nodes, o);
    assert a < b ==> r[a] != r[b];
    assert b < a ==> r[b] != r[a];
  }

  lemma ListedOnce(list: List, nodes: seq<Node>)
    requires list.Holds(nodes)
    ensures Distinct([list.sentinel] + nodes)
  {
  }

  /** enet_list_move to the end of another list: the nodes from first up to the one before current. */
  method MoveToEnd(to: List, from: List, first: Node, current: Node, ghost nodes: seq<Node>, ghost f: nat,
                   ghost l: nat, ghost moved: seq<Node>,
                   ghost other: List, ghost kept: seq<Node>)
    requires from.Holds(nodes) && to.Holds(moved) && other.Holds(kept)
    requires Elements([other.sentinel] + kept) !! Elements([from.sentinel] + nodes) + Elements([to.sentinel] + moved)
    requires Elements([from.sentinel] + nodes) !! Elements([to.sentinel] + moved)
    requires f < l <= |nodes| && first == nodes[f] && current == At(from, nodes, l)
    modifies Elements([from.sentinel] + nodes), Elements([to.sentinel] + moved)
    ensures from.Holds(nodes[..f] + nodes[l..]) && to.Holds(moved + nodes[f..l]) && other.Holds(kept)
  {
    hide Ring, Chain, Linked, Apart, Distinct;
    ghost var a, b := [from.sentinel] + nodes, [to.sentinel] + moved;
    assert a[f + 1..l + 1] == nodes[f..l] && b[..|moved| + 1] == b && b[|moved| + 1..] == [];
    ElementsApart(a, b);
    Walk(from, nodes, l);
    Walk(to, moved, |moved|);
    assert a[f + 1] == nodes[f] && a[l] == nodes[l - 1];
    Move(to.sentinel, first, current.previous, a, f + 1, l, b, |moved|);
    assert a[..f + 1] + a[l + 1..] == [from.sentinel] + (nodes[..f] + nodes[l..]);
    assert b[..|moved| + 1] + a[f + 1..l + 1] + b[|moved| + 1..] == [to.sentinel] + (moved + nodes[f..l]);
  }

  /** enet_list_insert of a new node at position p. */
  method InsertNode(list: List, currentCommand: Node, ghost nodes: seq<Node>, ghost at: nat,
                    ghost p: List, ghost ps: seq<Node>, ghost q: List, ghost qs: seq<Node>) returns (node: Node)
    requires list.Holds(nodes) && p.Holds(ps) && q.Holds(qs) && at <= |nodes|
      && currentCommand == Before(list, nodes, at)
    requires Elements([p.sentinel] + ps) + Elements([q.sentinel] + qs) !! Elements([list.sentinel] + nodes)
    modifies Elements([list.sentinel] + nodes)
    ensures fresh(node)
    ensures node !in Elements([list.sentinel] + nodes) + Elements([p.sentinel] + ps) + Elements([q.sentinel] + qs)
    ensures list.Holds(nodes[..at] + [node] + nodes[at..]) && p.Holds(ps) && q.Holds(qs)
    ensures Elements([list.sentinel] + (nodes[..at] + [node] + nodes[at..]))
      == Elements([list.sentinel] + nodes) + {node}
  {
    hide Ring, Chain, Linked, Distinct;
    ghost var r := [list.sentinel] + nodes;
    node := new Node();
    WalkBack(list, nodes, at);
    RingList.Insert(currentCommand.next, node, r, at);
    assert r[..at + 1] + [node] + r[at + 1..] == [list.sentinel] + (nodes[..at] + [node] + nodes[at..]);
    InsertedElements(list.sentinel, nodes, at, node);
  }

  lemma InsertedElements(sentinel: Node, nodes: seq<Node>, at: nat, node: Node)
    requires at <= |nodes|
    ensures Elements([sentinel] + (nodes[..at] + [node] + nodes[at..])) == Elements([sentinel] + nodes) + {node}
  {
    hide Elements;
    ElementsParts(nodes, at, at);
    ElementsSum([sentinel], nodes);
    ElementsSum([sentinel], nodes[..at] + [node] + nodes[at..]);
    ElementsSum(nodes[..at] + [node], nodes[at..]);
    ElementsSum(nodes[..at], [node]);
    OneElement(node);
    assert nodes[at..at] == [];
    NoElements();
  }

  lemma OneElement(node: Node)
    ensures Elements([node]) == {node}
  {
  }

  lemma NoElements()
    ensures Elements([]) == {}
  {
  }

  /** A new node begins a command of its own. */
  lemma OneMore(commands: map<Node, Incoming>, references: map<Node, nat>, sentinel: Node, nodes: seq<Node>,
                node: Node, x: Incoming)
    requires Begin(commands, references, nodes) && node !in Elements([sentinel] + nodes)
    ensures Begin(commands[node := x], references[node := 1], nodes)
    ensures Of(commands[node := x], nodes) == Of(commands, nodes)
  {
    ElementsSum([sentinel], nodes);
    forall i | 0 <= i < |nodes|
      ensures nodes[i] != node
    {
      assert nodes[i] in Elements(nodes);
    }
  }

  lemma InsertedOf(commands: map<Node, Incoming>, references: map<Node, nat>, nodes: seq<Node>, at: nat, node: Node)
    requires at <= |nodes| && Begin(commands, references, nodes) && node in commands && node in references
      && references[node] == 1
    ensures Begin(commands, references, nodes[..at] + [node] + nodes[at..])
    ensures Of(commands, nodes[..at] + [node] + nodes[at..]) == InsertAt(Of(commands, nodes), at, commands[node])
  {
  }

  /** The three lists are whole rings that share no node. */
  ghost predicate Rings(p: List, ps: seq<Node>, q: List, qs: seq<Node>, r: List, rs: seq<Node>)
    reads Elements([p.sentinel] + ps) + Elements([q.sentinel] + qs) + Elements([r.sentinel] + rs)
  {
    && p.Holds(ps) && q.Holds(qs) && r.Holds(rs)
    && Elements([p.sentinel] + ps) !! Elements([q.sentinel] + qs) !! Elements([r.sentinel] + rs)
  }

  /** The packets of these nodes have been let go; the others are held as before. */
  ghost predicate Released(before: map<Node, nat>, after: map<Node, nat>, nodes: seq<Node>) {
    after == map x | x in before :: if x in nodes then 0 else before[x]
  }

  lemma NoneReleased(references: map<Node, nat>, nodes: seq<Node>)
    ensures Released(references, references, nodes[..0])
  {
  }

  lemma OneReleased(before: map<Node, nat>, after: map<Node, nat>, sentinel: Node, nodes: seq<Node>, i: nat)
    requires i < |nodes| && Distinct([sentinel] + nodes) && nodes[i] in before && before[nodes[i]] == 1
    requires Released(before, after, nodes[..i])
    ensures nodes[i] in after && after[nodes[i]] == 1
    ensures Released(before, after[nodes[i] := 0], nodes[..i + 1])
  {
    DistinctTail(sentinel, nodes);
    assert nodes[..i + 1] == nodes[..i] + [nodes[i]];
  }

  /** enet_list_remove of the first node. */
  method RemoveFirst(position: Node, list: List, ghost nodes: seq<Node>, ghost p: List, ghost ps: seq<Node>,
                     ghost q: List, ghost qs: seq<Node>)
    requires list.Holds(nodes) && p.Holds(ps) && q.Holds(qs) && nodes != [] && position == nodes[0]
    requires Elements([p.sentinel] + ps) + Elements([q.sentinel] + qs) !! Elements([list.sentinel] + nodes)
    modifies Elements([list.sentinel] + nodes)
    ensures list.Holds(nodes[1..]) && p.Holds(ps) && q.Holds(qs)
    ensures Elements([list.sentinel] + nodes[1..]) <= Elements([list.sentinel] + nodes)
  {
    hide Ring, Chain, Linked, Distinct;
    ghost var r := [list.sentinel] + nodes;
    Remove(position, r, 1);
    assert r[..1] + r[2..] == [list.sentinel] + nodes[1..];
  }

  /** What remains of a list is still held. */
  lemma StillHeld(commands: map<Node, Incoming>, before: map<Node, nat>, after: map<Node, nat>, sentinel: Node,
                  nodes: seq<Node>, n: nat)
    requires n <= |nodes| && Distinct([sentinel] + nodes) && Begin(commands, before, nodes)
      && Released(before, after, nodes[..n])
    ensures Begin(commands, after, nodes[n..])
    ensures Elements([sentinel] + nodes[n..]) <= Elements([sentinel] + nodes)
  {
    DistinctTail(sentinel, nodes);
    ElementsSum([sentinel], nodes);
    ElementsSum([sentinel], nodes[n..]);
    ElementsParts(nodes, 0, n);
    forall i | 0 <= i < |nodes[n..]|
      ensures nodes[n..][i] in after && after[nodes[n..][i]] == 1
    {
      assert nodes[n..][i] == nodes[n + i];
    }
  }

  lemma OthersHeld(commands: map<Node, Incoming>, before: map<Node, nat>, after: map<Node, nat>, sentinel: Node,
                   nodes: seq<Node>, n: nat,
                   s: Node, others: seq<Node>)
    requires n <= |nodes| && Elements([sentinel] + nodes) !! Elements([s] + others)
    requires Begin(commands, before, others) && Released(before, after, nodes[..n])
    ensures Begin(commands, after, others)
  {
    ElementsSum([sentinel], nodes);
    ElementsSum([s], others);
    forall i | 0 <= i < |others|
      ensures others[i] !in nodes[..n]
    {
      assert others[i] in Elements(others);
    }
  }

  /** Changing one command changes it in its list only. */
  lemma Changed(commands: map<Node, Incoming>, references: map<Node, nat>, a: Node, nodes: seq<Node>, at: nat,
                x: Incoming,
                b: Node, ps: seq<Node>, c: Node, qs: seq<Node>)
    requires at < |nodes| && Distinct([a] + nodes)
    requires Elements([a] + nodes) !! Elements([b] + ps) && Elements([a] + nodes) !! Elements([c] + qs)
    requires Begin(commands, references, nodes) && Begin(commands, references, ps) && Begin(commands, references, qs)
    ensures var commands' := commands[nodes[at] := x];
      && Begin(commands', references, nodes) && Begin(commands', references, ps) && Begin(commands', references, qs)
      && Of(commands', nodes) == Of(commands, nodes)[at := x] && Of(commands', ps) == Of(commands, ps)
      && Of(commands', qs) == Of(commands, qs)
  {
    DistinctTail(a, nodes);
    ElementsSum([a], nodes);
    ElementsSum([b], ps);
    ElementsSum([c], qs);
    assert nodes[at] in Elements(nodes);
    assert forall i :: 0 <= i < |ps| ==> ps[i] in Elements(ps);
    assert forall i :: 0 <= i < |qs| ==> qs[i] in Elements(qs);
  }

  lemma FirstOf(commands: map<Node, Incoming>, references: map<Node, nat>, nodes: seq<Node>)
    requires nodes != [] && Begin(commands, references, nodes)
    ensures nodes[0] in commands && nodes[0] in references && references[nodes[0]] == 1
    ensures Begin(commands, references, nodes[1..])
    ensures Of(commands, nodes) == [commands[nodes[0]]] + Of(commands, nodes[1..])
  {
  }
}
