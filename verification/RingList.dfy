/** The linked rings under every ENet queue (Externals/enet/list.c): a list is the ring of its
    sentinel and its elements, and each operation rewires a constant number of pointers. */
module RingList {
  class Node {
    var next: Node?
    var previous: Node?

    constructor () {
      next, previous := null, null;
    }
  }

  ghost predicate Linked(x: Node, y: Node)
    reads x, y
  {
    x.next == y && y.previous == x
  }

  ghost predicate Distinct(r: seq<Node>) {
    forall i, j :: 0 <= i < j < |r| ==> r[i] != r[j]
  }

  /** The two lists share no node. */
  ghost predicate Apart(a: seq<Node>, b: seq<Node>) {
    forall i, j :: 0 <= i < |a| && 0 <= j < |b| ==> a[i] != b[j]
  }

  ghost function Elements(r: seq<Node>): set<Node> {
    set x | x in r
  }

  lemma ElementsApart(a: seq<Node>, b: seq<Node>)
    requires Elements(a) !! Elements(b)
    ensures Apart(a, b)
  {
    forall i, j | 0 <= i < |a| && 0 <= j < |b|
      ensures a[i] != b[j]
    {
      assert a[i] in Elements(a) && b[j] in Elements(b);
    }
  }

  lemma ElementsSum(a: seq<Node>, b: seq<Node>)
    ensures Elements(a + b) == Elements(a) + Elements(b)
  {
  }

  lemma ElementsParts(q: seq<Node>, f: nat, l: nat)
    requires f <= l <= |q|
    ensures Elements(q) == Elements(q[..f]) + Elements(q[f..l]) + Elements(q[l..])
    ensures Distinct(q) ==> Elements(q[f..l]) !! Elements(q[..f]) && Elements(q[f..l]) !! Elements(q[l..])
  {
    assert q == q[..f] + q[f..l] + q[l..];
    ElementsSum(q[..f], q[f..l]);
    ElementsSum(q[..f] + q[f..l], q[l..]);
    if Distinct(q) {
      forall x | x in q[f..l]
        ensures x !in q[..f] && x !in q[l..]
      {
        var i :| f <= i < l && q[i] == x;
        assert forall k :: 0 <= k < f ==> q[k] != q[i];
        assert forall k :: l <= k < |q| ==> q[k] != q[i];
      }
    }
  }

  lemma DistinctTail(u: Node, q: seq<Node>)
    requires Distinct([u] + q)
    ensures Distinct(q) && u !in Elements(q) && Elements([u]) == {u}
  {
    var r := [u] + q;
    assert forall i :: 0 <= i < |q| ==> r[i + 1] == q[i];
    forall i, j | 0 <= i < j < |q|
      ensures q[i] != q[j]
    {
      assert r[i + 1] != r[j + 1];
    }
    assert u == r[0] && forall i :: 0 <= i < |q| ==> u != q[i];
  }

  /** A run of the list u, q goes to the end of the list v, d. */
  lemma Regrouped(u: Node, q: seq<Node>, v: Node, d: seq<Node>, f: nat, l: nat)
    requires f <= l <= |q| && Distinct([u] + q) && Elements([u] + q) !! Elements([v] + d)
    ensures var q', d' := q[..f] + q[l..], d + q[f..l];
      && Elements([u] + q') !! Elements([v] + d')
      && Elements([u] + q') + Elements([v] + d') == Elements([u] + q) + Elements([v] + d)
  {
    hide Elements, Distinct;
    var q', d' := q[..f] + q[l..], d + q[f..l];
    DistinctTail(u, q);
    ElementsSum([u], q);
    ElementsSum([u], q');
    ElementsSum([v], d);
    ElementsSum([v], d');
    ElementsParts(q, f, l);
    ElementsSum(q[..f], q[l..]);
    ElementsSum(d, q[f..l]);
  }

  lemma InSequence(a: seq<Node>, b: seq<Node>, c: seq<Node>)
    requires Apart(a, b) && Apart(a, c)
    ensures forall x :: x in a ==> x !in b && x !in c
  {
  }

  /** Each node is linked to the following one. */
  ghost predicate Chain(r: seq<Node>)
    reads r
  {
    forall i :: 0 <= i < |r| - 1 ==> Linked(r[i], r[i + 1])
  }

  /** The nodes of r, in order, form a ring closed in both directions. */
  ghost predicate Ring(r: seq<Node>)
    reads r
  {
    |r| > 0 && Distinct(r) && Chain(r) && Linked(r[|r| - 1], r[0])
  }

  /** The node after position i of the ring. */
  function After(r: seq<Node>, i: nat): Node
    requires i < |r|
  {
    if i + 1 < |r| then r[i + 1] else r[0]
  }

  lemma RingLinks(r: seq<Node>, i: nat)
    requires Ring(r) && i < |r|
    ensures Linked(r[i], After(r, i)) && (i > 0 ==> Linked(r[i - 1], r[i]))
  {
    if i > 0 { assert Linked(r[i - 1], r[i - 1 + 1]); }
  }

  class List {
    const sentinel: Node

    /** The list with these elements. */
    ghost predicate Holds(elements: seq<Node>)
      reads Elements([sentinel] + elements)
    {
      Ring([sentinel] + elements)
    }

    constructor ()
      ensures Holds([]) && fresh(sentinel)
    {
      sentinel := new Node();
      new;
      Clear([]);
    }

    /** Whatever the sentinel was linked to, the list is empty. */
    method Clear(ghost elements: seq<Node>)
      modifies sentinel
      ensures Holds([])
    {
      sentinel.next := sentinel;
      sentinel.previous := sentinel;
    }

    method Size(ghost elements: seq<Node>) returns (size: nat)
      requires Holds(elements)
      ensures size == |elements|
    {
      ghost var r := [sentinel] + elements;
      size := 0;
      var position := sentinel.next;
      while position != sentinel
        invariant size <= |elements| && position == After(r, size)
        decreases |elements| - size
      {
        assert size + 1 < |r| && position == r[size + 1];
        RingLinks(r, size + 1);
        size := size + 1;
        position := position.next;
      }
    }
  }

  /** Puts data before position, the node after r[i]; the end of a list is before its sentinel. */
  method Insert(position: Node, data: Node, ghost r: seq<Node>, ghost i: nat)
    requires Ring(r) && i < |r| && position == After(r, i) && data !in r
    modifies r, data
    ensures Ring(r[..i + 1] + [data] + r[i + 1..])
  {
    RingLinks(r, i);
    data.previous := position.previous;
    data.next := position;
    data.previous.next := data;
    position.previous := data;
    ghost var r' := r[..i + 1] + [data] + r[i + 1..];
    assert Chain(r') by {
      forall k | 0 <= k < |r'| - 1
        ensures Linked(r'[k], r'[k + 1])
      {
        if k < i {
          assert old(Linked(r[k], r[k + 1]));
        } else if k > i + 1 {
          assert old(Linked(r[k - 1], r[k]));
        }
      }
    }
  }

  /** Takes the node at i out of its ring. */
  method Remove(position: Node, ghost r: seq<Node>, ghost i: nat)
    requires Ring(r) && 0 < i < |r| && position == r[i]
    modifies r
    ensures Ring(r[..i] + r[i + 1..])
  {
    RingLinks(r, i);
    position.previous.next := position.next;
    position.next.previous := position.previous;
    ghost var r' := r[..i] + r[i + 1..];
    assert Chain(r') by {
      forall k | 0 <= k < |r'| - 1
        ensures Linked(r'[k], r'[k + 1])
      {
        if k + 1 < i {
          assert old(Linked(r[k], r[k + 1]));
        } else if k >= i {
          assert old(Linked(r[k + 1], r[k + 2]));
        }
      }
    }
  }

  /** Takes the run from first to last out of its ring. */
  method Detach(first: Node, last: Node, ghost r: seq<Node>, ghost f: nat, ghost l: nat)
    requires Ring(r) && 0 < f <= l < |r| && first == r[f] && last == r[l]
    modifies r
    ensures Ring(r[..f] + r[l + 1..]) && Chain(r[f..l + 1])
  {
    ghost var r', run := r[..f] + r[l + 1..], r[f..l + 1];
    RingLinks(r, f);
    RingLinks(r, l);
    first.previous.next := last.next;
    last.next.previous := first.previous;
    forall k | 0 <= k < |r'| - 1
      ensures Linked(r'[k], r'[k + 1])
    {
      if k + 1 < f {
        assert old(Linked(r[k], r[k + 1]));
      } else if k >= f {
        ghost var m := k + l + 1 - f;
        assert old(Linked(r[m], r[m + 1]));
      }
    }
    forall k | 0 <= k < |run| - 1
      ensures Linked(run[k], run[k + 1])
    {
      assert old(Linked(r[f + k], r[f + k + 1]));
    }
  }

  /** Puts the run from first to last before position, the node after r[i]. */
  method Splice(position: Node, first: Node, last: Node, ghost run: seq<Node>, ghost r: seq<Node>, ghost i: nat)
    requires run != [] && Distinct(run) && Chain(run) && first == run[0] && last == run[|run| - 1]
    requires Ring(r) && i < |r| && position == After(r, i)
    requires Apart(run, r)
    modifies run, r
    ensures Ring(r[..i + 1] + run + r[i + 1..])
  {
    ghost var r' := r[..i + 1] + run + r[i + 1..];
    RingLinks(r, i);
    first.previous := position.previous;
    last.next := position;
    first.previous.next := first;
    position.previous := last;
    forall k | 0 <= k < |r'| - 1
      ensures Linked(r'[k], r'[k + 1])
    {
      if k < i {
        assert old(Linked(r[k], r[k + 1]));
      } else if i < k < i + |run| {
        assert old(Linked(run[k - i - 1], run[k - i]));
      } else if k > i + |run| {
        assert old(Linked(r[k - |run|], r[k - |run| + 1]));
      }
    }
  }

  /** Takes the nodes from first to last out of their ring and puts them before position in another. */
  method Move(position: Node, first: Node, last: Node, ghost a: seq<Node>, ghost f: nat, ghost l: nat,
              ghost b: seq<Node>, ghost i: nat)
    requires Ring(a) && 0 < f <= l < |a| && first == a[f] && last == a[l]
    requires Ring(b) && i < |b| && position == After(b, i)
    requires Apart(a, b)
    modifies a, b
    ensures Ring(a[..f] + a[l + 1..])
    ensures Ring(b[..i + 1] + a[f..l + 1] + b[i + 1..])
  {
    hide Chain, Linked, After;
    ghost var rest, run := a[..f] + a[l + 1..], a[f..l + 1];
    assert run[0] == first && run[|run| - 1] == last;
    Detach(first, last, a, f, l);
    assert Apart(rest, run) && Apart(rest, b) && Apart(run, b);
    InSequence(rest, run, b);
    Splice(position, first, last, run, b, i);
  }
}
