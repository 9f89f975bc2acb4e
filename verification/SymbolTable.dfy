/** The symbol array of ENet's range coder (Externals/enet/compress.c): every context is a
    binary search tree of array elements linked by relative offsets, and a node's `under`
    caches the weight of its left subtree plus its own.  The array is proved to represent
    the frequencies of PpmModel, whatever the shape of the trees. */
module SymbolTable {
  import opened RangeCoding
  import opened PpmModel

  type U16 = x: int | 0 <= x < 0x1_0000

  /** ENetSymbol. */
  datatype Symbol = Symbol(
    value: Byte, count: Byte, under: U16, left: U16, right: U16,
    symbols: U16, escapes: U16, total: U16, parent: U16)

  /** Where the symbol of a key lives, and the values its subtree may hold. */
  datatype Slot = Slot(index: nat, lo: int, hi: int)
  type Slots = map<Key, Slot>

  ghost predicate SameNode(a: Symbol, b: Symbol) {
    a.value == b.value && a.count == b.count && a.under == b.under && a.left == b.left && a.right == b.right
  }

  /** keys lists the keys by element, so distinct keys sit at distinct elements. */
  ghost predicate Indexed(slots: Slots, keys: seq<Key>) {
    forall k :: k in slots ==> slots[k].index < |keys| && keys[slots[k].index] == k
  }

  /** The live elements are the symbols of the model, the root first, and the fields that
      do not belong to a tree say what the model says. */
  ghost predicate Placed(s: seq<Symbol>, keys: seq<Key>, slots: Slots, m: Model) {
    && slots.Keys == m.Keys
    && |m| == |keys| <= |s|
    && Root in m && slots[Root].index == 0
    && Indexed(slots, keys)
    && (forall k :: k in m ==> s[slots[k].index].escapes == m[k].escapes && s[slots[k].index].total == m[k].total)
  }

  /** Offset `off` from element `from` leads to the subtree for the values a, ..., b - 1. */
  ghost predicate LinkOk(s: seq<Symbol>, slots: Slots, f: seq<nat>, p: Key, from: nat, off: int, a: int, b: int)
    requires |f| == 256 && 0 <= a && b <= 256 && off >= 0
  {
    if off == 0 then forall w :: a <= w < b ==> f[w] == 0
    else
      && from + off < |s|
      && var w := s[from + off].value;
      && a <= w < b && f[w] > 0
      && Child(p, w) in slots && slots[Child(p, w)] == Slot(from + off, a, b)
  }

  ghost predicate NodeOk(s: seq<Symbol>, slots: Slots, f: seq<nat>, p: Key, u: Byte, bump: int)
    requires |f| == 256
  {
    && Child(p, u) in slots
    && var t := slots[Child(p, u)];
    && t.index < |s| && 0 <= t.lo <= u < t.hi <= 256
    && var node := s[t.index];
    && node.value == u && node.count == f[u]
    && node.under == Sum(f, t.lo, u + 1) + bump
    && LinkOk(s, slots, f, p, t.index, node.left, t.lo, u)
    && LinkOk(s, slots, f, p, t.index, node.right, u + 1, t.hi)
  }

  /** A value inside the span of another node's subtree has its own span on one side. */
  ghost predicate Nested(slots: Slots, f: seq<nat>, p: Key)
    requires |f| == 256
    requires forall u: Byte :: f[u] > 0 ==> Child(p, u) in slots
  {
    forall u: Byte, w: Byte :: f[u] > 0 && f[w] > 0 ==>
      var (t, r) := (slots[Child(p, u)], slots[Child(p, w)]);
      && (t.lo <= w < u ==> t.lo <= r.lo && r.hi <= u)
      && (u < w < t.hi ==> u < r.lo && r.hi <= t.hi)
  }

  ghost predicate RootLink(s: seq<Symbol>, slots: Slots, f: seq<nat>, p: Key)
    requires |f| == 256
  {
    && p in slots && slots[p].index < |s|
    && LinkOk(s, slots, f, p, slots[p].index, s[slots[p].index].symbols, 0, 256)
  }

  /** The elements of context p form a search tree for the frequencies f. */
  ghost predicate TreeOk(s: seq<Symbol>, slots: Slots, f: seq<nat>, p: Key) {
    && |f| == 256
    && RootLink(s, slots, f, p)
    && (forall u: Byte :: f[u] > 0 ==> NodeOk(s, slots, f, p, u, 0))
    && Nested(slots, f, p)
  }

  /** What a node on the way to v has been given in advance, when the walk has reached
      the span [lo, hi): the update, if v lies to the left of the node. */
  ghost function Bump(t: Slot, u: int, v: int, update: nat, lo: int, hi: int): nat {
    if t.lo <= v < u && !(lo <= u < hi) then update else 0
  }

  /** The search for v in context p has narrowed to the span [lo, hi). */
  ghost predicate Walking(s: seq<Symbol>, slots: Slots, f: seq<nat>, p: Key, v: Byte, update: nat, lo: int, hi: int) {
    && |f| == 256 && 0 <= lo <= v < hi <= 256
    && RootLink(s, slots, f, p)
    && (forall u: Byte :: f[u] > 0 ==>
          Child(p, u) in slots && NodeOk(s, slots, f, p, u, Bump(slots[Child(p, u)], u, v, update, lo, hi)))
    && Nested(slots, f, p)
    && Enclosed(slots, f, p, v, lo, hi)
  }

  ghost predicate Distinct(slots: Slots) {
    forall j, k :: j in slots && k in slots && j != k ==> slots[j].index != slots[k].index
  }

  ghost predicate SameValues(s: seq<Symbol>, s': seq<Symbol>) {
    |s| == |s'| && forall i :: 0 <= i < |s| ==> s'[i].value == s[i].value
  }

  ghost predicate SameSupport(f: seq<nat>, f': seq<nat>) {
    |f| == |f'| == 256 && forall u :: 0 <= u < 256 ==> (f'[u] > 0 <==> f[u] > 0)
  }

  lemma NestedSame(slots: Slots, f: seq<nat>, f': seq<nat>, p: Key)
    requires SameSupport(f, f')
    requires forall u: Byte :: f[u] > 0 ==> Child(p, u) in slots
    requires Nested(slots, f, p)
    ensures Nested(slots, f', p)
  {
  }

  lemma RootLinkSame(s: seq<Symbol>, s': seq<Symbol>, slots: Slots, f: seq<nat>, f': seq<nat>, p: Key)
    requires SameSupport(f, f') && SameValues(s, s') && RootLink(s, slots, f, p)
    requires s'[slots[p].index].symbols == s[slots[p].index].symbols
    ensures RootLink(s', slots, f', p)
  {
  }

  /** A node none of whose fields changed, after a change elsewhere. */
  lemma NodeFrame(s: seq<Symbol>, s': seq<Symbol>, slots: Slots, f: seq<nat>, p: Key, u: Byte, bump: int, bump': int)
    requires |f| == 256 && NodeOk(s, slots, f, p, u, bump) && SameValues(s, s')
    requires var i := slots[Child(p, u)].index;
             && s'[i].count == s[i].count && s'[i].left == s[i].left && s'[i].right == s[i].right
             && s'[i].under - bump' == s[i].under - bump
    ensures NodeOk(s', slots, f, p, u, bump')
  {
  }

  /** The state of a walk at the node of u, and the update it makes before going left. */
  ghost predicate GoesLeft(s: seq<Symbol>, slots: Slots, f: seq<nat>, p: Key, v: Byte, update: nat, u: Byte,
                           s': seq<Symbol>) {
    && |f| == 256 && f[u] > 0 && Child(p, u) in slots && v < u && Distinct(slots)
    && var t := slots[Child(p, u)];
    && Walking(s, slots, f, p, v, update, t.lo, t.hi)
    && s[t.index].under + update < 0x1_0000
    && s' == s[t.index := s[t.index].(under := s[t.index].under + update)]
  }

  lemma StepLeftNode(s: seq<Symbol>, slots: Slots, f: seq<nat>, p: Key, v: Byte, update: nat, u: Byte, s': seq<Symbol>,
                     w: Byte)
    requires GoesLeft(s, slots, f, p, v, update, u, s') && f[w] > 0
    ensures Child(p, w) in slots
    ensures NodeOk(s', slots, f, p, w, Bump(slots[Child(p, w)], w, v, update, slots[Child(p, u)].lo, u))
  {
    hide LinkOk, RootLink;
    var t, r := slots[Child(p, u)], slots[Child(p, w)];
    assert NodeOk(s, slots, f, p, w, Bump(r, w, v, update, t.lo, t.hi));
    if w != u {
      assert r.index != t.index;
      assert t.lo <= w < t.hi && u < w ==> u < r.lo;
    }
    NodeFrame(s, s', slots, f, p, w, Bump(r, w, v, update, t.lo, t.hi), Bump(r, w, v, update, t.lo, u));
  }

  lemma StepLeft(s: seq<Symbol>, slots: Slots, f: seq<nat>, p: Key, v: Byte, update: nat, u: Byte, s': seq<Symbol>)
    requires GoesLeft(s, slots, f, p, v, update, u, s')
    ensures Walking(s', slots, f, p, v, update, slots[Child(p, u)].lo, u)
  {
    var t := slots[Child(p, u)];
    forall w: Byte | f[w] > 0
      ensures Child(p, w) in slots
      ensures NodeOk(s', slots, f, p, w, Bump(slots[Child(p, w)], w, v, update, t.lo, u))
    {
      StepLeftNode(s, slots, f, p, v, update, u, s', w);
    }
    RootLinkSame(s, s', slots, f, f, p);
    StepLeftSpans(slots, f, p, v, u);
  }

  /** The spans that hold v and are no longer in question all contain the new one. */
  ghost predicate Enclosed(slots: Slots, f: seq<nat>, p: Key, v: Byte, lo: int, hi: int)
    requires |f| == 256 && forall u: Byte :: f[u] > 0 ==> Child(p, u) in slots
  {
    forall u: Byte :: f[u] > 0 && slots[Child(p, u)].lo <= v < slots[Child(p, u)].hi && !(lo <= u < hi) ==>
      && (v < u ==> slots[Child(p, u)].lo <= lo && hi <= u)
      && (u < v ==> u < lo && hi <= slots[Child(p, u)].hi)
  }

  lemma StepLeftSpans(slots: Slots, f: seq<nat>, p: Key, v: Byte, u: Byte)
    requires |f| == 256 && (forall u: Byte :: f[u] > 0 ==> Child(p, u) in slots) && Nested(slots, f, p)
    requires f[u] > 0 && v < u && 0 <= slots[Child(p, u)].lo <= v && u < slots[Child(p, u)].hi <= 256
    requires Enclosed(slots, f, p, v, slots[Child(p, u)].lo, slots[Child(p, u)].hi)
    ensures Enclosed(slots, f, p, v, slots[Child(p, u)].lo, u)
  {
  }

  lemma StepRightSpans(slots: Slots, f: seq<nat>, p: Key, v: Byte, u: Byte)
    requires |f| == 256 && (forall u: Byte :: f[u] > 0 ==> Child(p, u) in slots) && Nested(slots, f, p)
    requires f[u] > 0 && u < v && 0 <= slots[Child(p, u)].lo <= u && v < slots[Child(p, u)].hi <= 256
    requires Enclosed(slots, f, p, v, slots[Child(p, u)].lo, slots[Child(p, u)].hi)
    ensures Enclosed(slots, f, p, v, u + 1, slots[Child(p, u)].hi)
  {
  }

  lemma StepRight(s: seq<Symbol>, slots: Slots, f: seq<nat>, p: Key, v: Byte, update: nat, u: Byte)
    requires |f| == 256 && f[u] > 0 && Child(p, u) in slots && u < v
    requires Walking(s, slots, f, p, v, update, slots[Child(p, u)].lo, slots[Child(p, u)].hi)
    ensures Walking(s, slots, f, p, v, update, u + 1, slots[Child(p, u)].hi)
  {
    var t := slots[Child(p, u)];
    assert NodeOk(s, slots, f, p, u, 0);
    forall w: Byte | f[w] > 0
      ensures NodeOk(s, slots, f, p, w, Bump(slots[Child(p, w)], w, v, update, u + 1, t.hi))
    {
      assert NodeOk(s, slots, f, p, w, Bump(slots[Child(p, w)], w, v, update, t.lo, t.hi));
    }
    StepRightSpans(slots, f, p, v, u);
  }

  /** Adding to the count of v: a node whose fields did not change otherwise. */
  lemma NodeCounted(s: seq<Symbol>, s': seq<Symbol>, slots: Slots, f: seq<nat>, p: Key, u: Byte, bump: int, v: Byte,
                    update: nat)
    requires |f| == 256 && f[v] > 0 && NodeOk(s, slots, f, p, u, bump) && SameValues(s, s')
    requires var t := slots[Child(p, u)];
             var i := t.index;
             && s'[i].left == s[i].left && s'[i].right == s[i].right
             && s'[i].count == s[i].count + (if u == v then update else 0)
             && s'[i].under == s[i].under - bump + (if t.lo <= v <= u then update else 0)
    ensures NodeOk(s', slots, f[v := f[v] + update], p, u, 0)
  {
    SumAdd(f, v, update, slots[Child(p, u)].lo, u + 1);
  }

  lemma FoundNode(s: seq<Symbol>, slots: Slots, f: seq<nat>, p: Key, v: Byte, update: nat, s': seq<Symbol>, u: Byte)
    requires |f| == 256 && f[v] > 0 && f[u] > 0 && Child(p, v) in slots && Distinct(slots)
    requires var t := slots[Child(p, v)];
             && Walking(s, slots, f, p, v, update, t.lo, t.hi)
             && s[t.index].under + update < 0x1_0000 && f[v] + update <= 0xFF
             && s' == s[t.index := s[t.index].(under := s[t.index].under + update, count := s[t.index].count + update)]
    ensures NodeOk(s', slots, f[v := f[v] + update], p, u, 0)
  {
    hide LinkOk, RootLink;
    var t, r := slots[Child(p, v)], slots[Child(p, u)];
    if u != v { assert r.index != t.index; }
    NodeCounted(s, s', slots, f, p, u, Bump(r, u, v, update, t.lo, t.hi), v, update);
  }

  lemma Found(s: seq<Symbol>, slots: Slots, f: seq<nat>, p: Key, v: Byte, update: nat, s': seq<Symbol>)
    requires |f| == 256 && f[v] > 0 && Child(p, v) in slots && Distinct(slots)
    requires var t := slots[Child(p, v)];
             && Walking(s, slots, f, p, v, update, t.lo, t.hi)
             && s[t.index].under + update < 0x1_0000 && f[v] + update <= 0xFF
             && s' == s[t.index := s[t.index].(under := s[t.index].under + update, count := s[t.index].count + update)]
    ensures TreeOk(s', slots, f[v := f[v] + update], p)
  {
    var f' := f[v := f[v] + update];
    assert SameValues(s, s');
    assert SameSupport(f, f');
    forall u: Byte | f'[u] > 0
      ensures NodeOk(s', slots, f', p, u, 0)
    {
      FoundNode(s, slots, f, p, v, update, s', u);
    }
    NestedSame(slots, f, f', p);
    RootLinkSame(s, s', slots, f, f', p);
  }

  /** What ENET_SYMBOL_CREATE writes. */
  function Fresh(value: Byte, count: Byte): Symbol {
    Symbol(value, count, count, 0, 0, 0, 0, 0, 0)
  }

  /** A new symbol v at element n, below the node of c that has no subtree on v's side. */
  function Attach(s: seq<Symbol>, i: nat, c: Byte, v: Byte, update: Byte, n: nat): (r: seq<Symbol>)
    requires i < n < |s| && n < MAX_SYMBOLS
    requires v < c ==> s[i].under + update < 0x1_0000
    ensures |r| == |s|
  {
    s[n := Fresh(v, update)]
     [i := if v < c then s[i].(under := s[i].under + update, left := n - i) else s[i].(right := n - i)]
  }

  ghost predicate Below(slots: Slots, n: nat) {
    forall k :: k in slots ==> slots[k].index < n
  }

  /** The hypotheses of a creation below c. */
  ghost predicate Room(s: seq<Symbol>, slots: Slots, f: seq<nat>, p: Key, v: Byte, update: Byte, c: Byte, n: nat) {
    && |f| == 256 && f[v] == 0 && f[c] > 0 && update > 0 && v != c
    && n < |s| && n < MAX_SYMBOLS && Below(slots, n) && Distinct(slots) && Child(p, v) !in slots
    && Child(p, c) in slots
    && var t := slots[Child(p, c)];
    && Walking(s, slots, f, p, v, update, t.lo, t.hi)
    && (if v < c then s[t.index].left == 0 && s[t.index].under + update < 0x1_0000 else s[t.index].right == 0)
  }

  function Span(t: Slot, c: int, v: int): (int, int) {
    if v < c then (t.lo, c) else (c + 1, t.hi)
  }

  /** s' and slots' add the symbol v of context p, at element n, to s and slots. */
  ghost predicate Grown(s: seq<Symbol>, s': seq<Symbol>, slots: Slots, slots': Slots, p: Key, v: Byte, n: nat) {
    && |s'| == |s| && (forall i :: 0 <= i < |s| && i != n ==> s'[i].value == s[i].value)
    && Below(slots, n) && Child(p, v) !in slots
    && Child(p, v) in slots' && slots' == slots[Child(p, v) := slots'[Child(p, v)]]
  }

  lemma LinkGrows(s: seq<Symbol>, s': seq<Symbol>, slots: Slots, slots': Slots, f: seq<nat>, f': seq<nat>, p: Key,
                  from: nat, off: int, a: int, b: int, v: Byte, n: nat)
    requires |f| == |f'| == 256 && 0 <= a && b <= 256 && off >= 0 && LinkOk(s, slots, f, p, from, off, a, b)
    requires Grown(s, s', slots, slots', p, v, n)
    requires f' == f[v := f'[v]]
    requires off != 0 || !(a <= v < b)
    ensures LinkOk(s', slots', f', p, from, off, a, b)
  {
  }

  /** A node that is not the one extended: it gained the update if v is to its left. */
  lemma NodeGrows(s: seq<Symbol>, s': seq<Symbol>, slots: Slots, slots': Slots, f: seq<nat>, p: Key, v: Byte,
                  update: Byte,
                  n: nat, u: Byte, bump: int)
    requires |f| == 256 && f[v] == 0 && u != v && NodeOk(s, slots, f, p, u, bump)
    requires Grown(s, s', slots, slots', p, v, n)
    requires var r := slots[Child(p, u)];
             && s'[r.index] == s[r.index]
             && bump == (if r.lo <= v < u then update else 0)
             && (s[r.index].left != 0 || !(r.lo <= v < u))
             && (s[r.index].right != 0 || !(u < v < r.hi))
    ensures NodeOk(s', slots', f[v := f[v] + update], p, u, 0)
  {
    var r := slots[Child(p, u)];
    var f' := f[v := f[v] + update];
    SumAdd(f, v, update, r.lo, u + 1);
    LinkGrows(s, s', slots, slots', f, f', p, r.index, s[r.index].left, r.lo, u, v, n);
    LinkGrows(s, s', slots, slots', f, f', p, r.index, s[r.index].right, u + 1, r.hi, v, n);
  }

  lemma AboutOther(s: seq<Symbol>, slots: Slots, f: seq<nat>, p: Key, v: Byte, update: Byte, c: Byte, n: nat, u: Byte)
    requires Room(s, slots, f, p, v, update, c, n) && f[u] > 0 && u != c
    ensures Child(p, u) in slots
    ensures var t, r := slots[Child(p, c)], slots[Child(p, u)];
            && r.index != t.index && r.index < n
            && NodeOk(s, slots, f, p, u, if r.lo <= v < u then update else 0)
            && (s[r.index].left != 0 || !(r.lo <= v < u))
            && (s[r.index].right != 0 || !(u < v < r.hi))
  {
    var t, r := slots[Child(p, c)], slots[Child(p, u)];
    assert NodeOk(s, slots, f, p, u, Bump(r, u, v, update, t.lo, t.hi));
    assert NodeOk(s, slots, f, p, c, 0);
    if t.lo <= u < t.hi {
      assert !(r.lo <= v < r.hi);
    } else if r.lo <= v < u {
      assert r.lo <= c < u;
    } else if u < v < r.hi {
      assert u < c < r.hi;
    }
  }

  lemma AttachGrows(s: seq<Symbol>, slots: Slots, p: Key, v: Byte, update: Byte, c: Byte, n: nat, i: nat, slot: Slot)
    requires i < n < |s| && n < MAX_SYMBOLS && Below(slots, n) && Child(p, v) !in slots
    requires v < c ==> s[i].under + update < 0x1_0000
    ensures Grown(s, Attach(s, i, c, v, update, n), slots, slots[Child(p, v) := slot], p, v, n)
    ensures forall j :: 0 <= j < |s| && j != i && j != n ==> Attach(s, i, c, v, update, n)[j] == s[j]
  {
  }

  lemma AttachedOther(s: seq<Symbol>, slots: Slots, f: seq<nat>, p: Key, v: Byte, update: Byte, c: Byte, n: nat,
                      u: Byte, slot: Slot)
    requires Room(s, slots, f, p, v, update, c, n) && f[u] > 0 && u != c
    ensures NodeOk(Attach(s, slots[Child(p, c)].index, c, v, update, n), slots[Child(p, v) := slot],
                   f[v := f[v] + update], p, u, 0)
  {
    AboutOther(s, slots, f, p, v, update, c, n, u);
    var i, r := slots[Child(p, c)].index, slots[Child(p, u)];
    AttachGrows(s, slots, p, v, update, c, n, i, slot);
    NodeGrows(s, Attach(s, i, c, v, update, n), slots, slots[Child(p, v) := slot], f, p, v, update, n, u,
              if r.lo <= v < u then update else 0);
  }

  lemma ParentGrows(s: seq<Symbol>, s': seq<Symbol>, slots: Slots, slots': Slots, f: seq<nat>, p: Key, v: Byte,
                    update: Byte,
                    n: nat, c: Byte, i: nat)
    requires |f| == 256 && f[v] == 0 && f[c] > 0 && v != c && update > 0 && NodeOk(s, slots, f, p, c, 0)
    requires Grown(s, s', slots, slots', p, v, n)
    requires i < n < |s| && n < MAX_SYMBOLS && s'[n].value == v
    requires var t := slots[Child(p, c)];
             && t.index == i && t.lo <= v < t.hi
             && var (a, b) := Span(t, c, v);
             && slots'[Child(p, v)] == Slot(n, a, b)
             && s'[i].value == s[i].value && s'[i].count == s[i].count
             && s'[i].under == s[i].under + (if v < c then update else 0)
             && s'[i].left == (if v < c then n - i else s[i].left)
             && s'[i].right == (if v < c then s[i].right else n - i)
    ensures NodeOk(s', slots', f[v := f[v] + update], p, c, 0)
  {
    var t := slots[Child(p, c)];
    var f' := f[v := f[v] + update];
    SumAdd(f, v, update, t.lo, c + 1);
    if v < c {
      LinkGrows(s, s', slots, slots', f, f', p, i, s[i].right, c + 1, t.hi, v, n);
    } else {
      LinkGrows(s, s', slots, slots', f, f', p, i, s[i].left, t.lo, c, v, n);
    }
  }

  lemma AttachedParent(s: seq<Symbol>, slots: Slots, f: seq<nat>, p: Key, v: Byte, update: Byte, c: Byte, n: nat,
                       slot: Slot)
    requires Room(s, slots, f, p, v, update, c, n)
    requires var t := slots[Child(p, c)]; slot == Slot(n, Span(t, c, v).0, Span(t, c, v).1)
    ensures NodeOk(Attach(s, slots[Child(p, c)].index, c, v, update, n), slots[Child(p, v) := slot],
                   f[v := f[v] + update], p, c, 0)
  {
    var i := slots[Child(p, c)].index;
    AttachGrows(s, slots, p, v, update, c, n, i, slot);
    assert NodeOk(s, slots, f, p, c, 0);
    ParentGrows(s, Attach(s, i, c, v, update, n), slots, slots[Child(p, v) := slot], f, p, v, update, n, c, i);
  }

  /** A fresh leaf is a node for a span that holds nothing but v. */
  lemma LeafOk(s: seq<Symbol>, slots: Slots, f: seq<nat>, p: Key, v: Byte, update: Byte, n: nat, a: int, b: int)
    requires |f| == 256 && 0 <= a <= v < b <= 256 && n < |s|
    requires forall w :: a <= w < b ==> f[w] == 0
    requires s[n] == Fresh(v, update) && Child(p, v) in slots && slots[Child(p, v)] == Slot(n, a, b)
    ensures NodeOk(s, slots, f[v := f[v] + update], p, v, 0)
  {
    var f' := f[v := f[v] + update];
    SumZero(f', a, v);
    assert Sum(f', a, v + 1) == Sum(f', a, v) + f'[v];
  }

  lemma SpanEmpty(s: seq<Symbol>, slots: Slots, f: seq<nat>, p: Key, v: Byte, update: Byte, c: Byte, n: nat)
    requires Room(s, slots, f, p, v, update, c, n)
    ensures var (a, b) := Span(slots[Child(p, c)], c, v);
            0 <= a <= v < b <= 256 && forall w :: a <= w < b ==> f[w] == 0
  {
    assert NodeOk(s, slots, f, p, c, 0);
  }

  /** The span of the new leaf lies on one side of every node whose span holds v. */
  lemma SpanNested(s: seq<Symbol>, slots: Slots, f: seq<nat>, p: Key, v: Byte, update: Byte, c: Byte, n: nat, u: Byte)
    requires Room(s, slots, f, p, v, update, c, n) && f[u] > 0
    ensures var (t, r) := (slots[Child(p, c)], slots[Child(p, u)]);
            var (a, b) := Span(t, c, v);
            && (r.lo <= v < u ==> r.lo <= a && b <= u)
            && (u < v < r.hi ==> u < a && b <= r.hi)
  {
    hide NodeOk, LinkOk, RootLink, Distinct, Below;
    SpanOfNode(s, slots, f, p, v, update, c, n, c);
    SpanOfNode(s, slots, f, p, v, update, c, n, u);
    SideEmpty(s, slots, f, p, v, update, c, n);
  }

  /** Nothing is counted on the side of c where v goes. */
  lemma SideEmpty(s: seq<Symbol>, slots: Slots, f: seq<nat>, p: Key, v: Byte, update: Byte, c: Byte, n: nat)
    requires Room(s, slots, f, p, v, update, c, n)
    ensures var (a, b) := Span(slots[Child(p, c)], c, v); forall w: Byte :: a <= w < b ==> f[w] == 0
  {
    hide RootLink, Nested, Enclosed, Distinct, Below;
    var t := slots[Child(p, c)];
    assert NodeOk(s, slots, f, p, c, Bump(t, c, v, update, t.lo, t.hi));
  }

  lemma SpanOfNode(s: seq<Symbol>, slots: Slots, f: seq<nat>, p: Key, v: Byte, update: Byte, c: Byte, n: nat, u: Byte)
    requires Room(s, slots, f, p, v, update, c, n) && f[u] > 0
    ensures Child(p, u) in slots && 0 <= slots[Child(p, u)].lo <= u < slots[Child(p, u)].hi <= 256
  {
    hide LinkOk, RootLink, Nested, Enclosed, Distinct, Below;
    var t := slots[Child(p, c)];
    assert NodeOk(s, slots, f, p, u, Bump(slots[Child(p, u)], u, v, update, t.lo, t.hi));
  }

  lemma NestedGrows(slots: Slots, f: seq<nat>, f': seq<nat>, p: Key, v: Byte, slot: Slot)
    requires |f| == |f'| == 256 && f' == f[v := f'[v]] && f[v] == 0
    requires forall u: Byte :: f[u] > 0 ==> Child(p, u) in slots
    requires Nested(slots, f, p)
    requires 0 <= slot.lo <= v < slot.hi <= 256 && forall w :: slot.lo <= w < slot.hi ==> f[w] == 0
    requires forall u: Byte :: f[u] > 0 ==>
               && (slots[Child(p, u)].lo <= v < u ==> slots[Child(p, u)].lo <= slot.lo && slot.hi <= u)
               && (u < v < slots[Child(p, u)].hi ==> u < slot.lo && slot.hi <= slots[Child(p, u)].hi)
    ensures Nested(slots[Child(p, v) := slot], f', p)
  {
  }

  lemma RootLinkGrows(s: seq<Symbol>, s': seq<Symbol>, slots: Slots, slots': Slots, f: seq<nat>, f': seq<nat>, p: Key,
                      v: Byte, n: nat, c: Byte)
    requires |f| == |f'| == 256 && f[c] > 0 && RootLink(s, slots, f, p) && f' == f[v := f'[v]]
    requires Grown(s, s', slots, slots', p, v, n) && p in slots' && slots'[p] == slots[p]
    requires s'[slots[p].index].symbols == s[slots[p].index].symbols
    ensures RootLink(s', slots', f', p)
  {
    var i := slots[p].index;
    assert s[i].symbols != 0;
    LinkGrows(s, s', slots, slots', f, f', p, i, s[i].symbols, 0, 256, v, n);
  }

  lemma AttachedNode(s: seq<Symbol>, slots: Slots, f: seq<nat>, p: Key, v: Byte, update: Byte, c: Byte, n: nat,
                     slot: Slot, u: Byte)
    requires Room(s, slots, f, p, v, update, c, n) && (f[u] > 0 || u == v)
    requires var t := slots[Child(p, c)]; slot == Slot(n, Span(t, c, v).0, Span(t, c, v).1)
    ensures NodeOk(Attach(s, slots[Child(p, c)].index, c, v, update, n), slots[Child(p, v) := slot],
                   f[v := f[v] + update], p, u, 0)
  {
    if u == c {
      AttachedParent(s, slots, f, p, v, update, c, n, slot);
    } else if u == v {
      SpanEmpty(s, slots, f, p, v, update, c, n);
      LeafOk(Attach(s, slots[Child(p, c)].index, c, v, update, n), slots[Child(p, v) := slot], f, p, v, update, n,
             slot.lo, slot.hi);
    } else {
      AttachedOther(s, slots, f, p, v, update, c, n, u, slot);
    }
  }

  lemma AttachedNested(s: seq<Symbol>, slots: Slots, f: seq<nat>, p: Key, v: Byte, update: Byte, c: Byte, n: nat,
                       slot: Slot)
    requires Room(s, slots, f, p, v, update, c, n)
    requires var t := slots[Child(p, c)]; slot == Slot(n, Span(t, c, v).0, Span(t, c, v).1)
    ensures forall u: Byte :: f[u] > 0 ==> Child(p, u) in slots
    ensures Nested(slots[Child(p, v) := slot], f[v := f[v] + update], p)
  {
    SpanEmpty(s, slots, f, p, v, update, c, n);
    forall u: Byte | f[u] > 0
      ensures slots[Child(p, u)].lo <= v < u ==> slots[Child(p, u)].lo <= slot.lo && slot.hi <= u
      ensures u < v < slots[Child(p, u)].hi ==> u < slot.lo && slot.hi <= slots[Child(p, u)].hi
    {
      SpanNested(s, slots, f, p, v, update, c, n, u);
    }
    NestedGrows(slots, f, f[v := f[v] + update], p, v, slot);
  }

  lemma Attached(s: seq<Symbol>, slots: Slots, f: seq<nat>, p: Key, v: Byte, update: Byte, c: Byte, n: nat, slot: Slot)
    requires Room(s, slots, f, p, v, update, c, n)
    requires var t := slots[Child(p, c)]; slot == Slot(n, Span(t, c, v).0, Span(t, c, v).1)
    ensures TreeOk(Attach(s, slots[Child(p, c)].index, c, v, update, n), slots[Child(p, v) := slot],
                   f[v := f[v] + update], p)
  {
    var i := slots[Child(p, c)].index;
    var s', slots', f' := Attach(s, i, c, v, update, n), slots[Child(p, v) := slot], f[v := f[v] + update];
    AttachGrows(s, slots, p, v, update, c, n, i, slot);
    forall u: Byte | f'[u] > 0
      ensures NodeOk(s', slots', f', p, u, 0)
    {
      AttachedNode(s, slots, f, p, v, update, c, n, slot, u);
    }
    AttachedNested(s, slots, f, p, v, update, c, n, slot);
    assert p != Child(p, v) by { assert Depth(Child(p, v)) == Depth(p) + 1; }
    RootLinkGrows(s, s', slots, slots', f, f', p, v, n, c);
  }

  /** The first symbol of an empty context. */
  lemma AttachedRoot(s: seq<Symbol>, slots: Slots, f: seq<nat>, p: Key, v: Byte, update: Byte, n: nat, s': seq<Symbol>)
    requires TreeOk(s, slots, f, p) && s[slots[p].index].symbols == 0 && update > 0
    requires slots[p].index < n < |s| && n < MAX_SYMBOLS && Child(p, v) !in slots
    requires s' == s[n := Fresh(v, update)][slots[p].index := s[slots[p].index].(symbols := n - slots[p].index)]
    ensures TreeOk(s', slots[Child(p, v) := Slot(n, 0, 256)], f[v := f[v] + update], p)
  {
    var slots', f' := slots[Child(p, v) := Slot(n, 0, 256)], f[v := f[v] + update];
    assert forall w :: 0 <= w < 256 ==> f[w] == 0;
    LeafOk(s', slots', f, p, v, update, n, 0, 256);
    hide NodeOk;
    assert forall u: Byte :: f'[u] > 0 ==> u == v;
    assert Depth(Child(p, v)) == Depth(p) + 1;
  }

  /** The array s represents the model m. */
  ghost predicate Represents(s: seq<Symbol>, keys: seq<Key>, slots: Slots, m: Model) {
    && Placed(s, keys, slots, m)
    && (forall p :: p in m ==> TreeOk(s, slots, m[p].freq, p))
    && Counted(m)
  }

  /** The fields outside the tree of context p that a change to that tree leaves alone. */
  ghost predicate Kept(a: Symbol, b: Symbol, k: Key, p: Key) {
    && a.escapes == b.escapes && a.total == b.total && a.parent == b.parent
    && (k != p ==> a.symbols == b.symbols)
    && ((k.Child? && k.parent == p) || SameNode(a, b))
  }

  /** Between s0 and s only the tree of context p has changed. */
  ghost predicate OnlyTree(s0: seq<Symbol>, s: seq<Symbol>, slots: Slots, p: Key) {
    && |s| == |s0|
    && forall k :: k in slots && slots[k].index < |s| ==> Kept(s0[slots[k].index], s[slots[k].index], k, p)
  }

  lemma FrameNode(s: seq<Symbol>, s': seq<Symbol>, slots: Slots, slots': Slots, f: seq<nat>, q: Key, u: Byte)
    requires |f| == 256 && NodeOk(s, slots, f, q, u, 0) && |s'| == |s|
    requires forall w: Byte :: f[w] > 0 || w == u ==>
      Child(q, w) in slots && slots[Child(q, w)].index < |s| && Child(q, w) in slots'
    requires forall w: Byte :: f[w] > 0 || w == u ==> slots'[Child(q, w)] == slots[Child(q, w)]
    requires forall w: Byte :: f[w] > 0 || w == u ==>
      SameNode(s[slots[Child(q, w)].index], s'[slots[Child(q, w)].index])
    ensures NodeOk(s', slots', f, q, u, 0)
  {
  }

  lemma TreeFrame(s: seq<Symbol>, s': seq<Symbol>, slots: Slots, slots': Slots, f: seq<nat>, q: Key)
    requires TreeOk(s, slots, f, q) && |s'| == |s|
    requires q in slots' && slots'[q] == slots[q] && s'[slots[q].index].symbols == s[slots[q].index].symbols
    requires forall u: Byte :: f[u] > 0 ==> Child(q, u) in slots'
    requires forall u: Byte :: f[u] > 0 ==> slots'[Child(q, u)] == slots[Child(q, u)]
    requires forall u: Byte :: f[u] > 0 ==> SameNode(s[slots[Child(q, u)].index], s'[slots[Child(q, u)].index])
    ensures TreeOk(s', slots', f, q)
  {
    hide Nested;
    forall u: Byte | f[u] > 0
      ensures NodeOk(s', slots', f, q, u, 0)
    {
      assert NodeOk(s, slots, f, q, u, 0);
      FrameNode(s, s', slots, slots', f, q, u);
    }
    hide NodeOk;
    NestedFrame(slots, slots', f, q);
  }

  lemma NestedFrame(slots: Slots, slots': Slots, f: seq<nat>, q: Key)
    requires |f| == 256 && forall u: Byte :: f[u] > 0 ==> Child(q, u) in slots && Child(q, u) in slots'
    requires forall u: Byte :: f[u] > 0 ==> slots'[Child(q, u)] == slots[Child(q, u)]
    requires Nested(slots, f, q)
    ensures Nested(slots', f, q)
  {
  }

  /** The model after context p has added `update` to its count of v. */
  function AddCount(m: Model, p: Key, v: Byte, update: nat): Model
    requires p in m && |m[p].freq| == 256
  {
    Put(m, p, Added(m[p], v, update), v)
  }

  function Added(c: Context, v: Byte, update: nat): Context
    requires |c.freq| == 256
  {
    c.(freq := c.freq[v := c.freq[v] + update], spans := Seen(c, v))
  }

  lemma FrameOther(s: seq<Symbol>, s': seq<Symbol>, slots: Slots, slots': Slots, m: Model, p: Key, q: Key)
    requires q in m && q != p && TreeOk(s, slots, m[q].freq, q) && Counted(m) && slots.Keys == m.Keys
    requires forall k :: k in slots ==> slots[k].index < |s|
    requires OnlyTree(s, s', slots, p)
    requires forall k :: k in slots ==> k in slots' && slots'[k] == slots[k]
    ensures TreeOk(s', slots', m[q].freq, q)
  {
    forall u: Byte | m[q].freq[u] > 0
      ensures Child(q, u) in slots && SameNode(s[slots[Child(q, u)].index], s'[slots[Child(q, u)].index])
    {
      assert Child(q, u) in m;
    }
    TreeFrame(s, s', slots, slots', m[q].freq, q);
  }

  lemma CountedAt(s: seq<Symbol>, s': seq<Symbol>, keys: seq<Key>, slots: Slots, m: Model, p: Key, v: Byte,
                  update: nat, q: Key)
    requires Represents(s, keys, slots, m) && p in m && |m[p].freq| == 256 && m[p].freq[v] > 0 && update > 0
    requires OnlyTree(s, s', slots, p) && TreeOk(s', slots, m[p].freq[v := m[p].freq[v] + update], p)
    requires q in AddCount(m, p, v, update)
    ensures q in m && q in slots && slots[q].index < |s'| == |s|
    ensures TreeOk(s', slots, AddCount(m, p, v, update)[q].freq, q)
    ensures s'[slots[q].index].escapes == AddCount(m, p, v, update)[q].escapes
    ensures s'[slots[q].index].total == AddCount(m, p, v, update)[q].total
  {
    hide TreeOk;
    PutAt(m, p, Added(m[p], v, update), v, q);
    hide Put;
    assert Child(p, v) in m;
    if q != p { FrameOther(s, s', slots, slots, m, p, q); }
  }

  lemma RepresentsFacts(s: seq<Symbol>, keys: seq<Key>, slots: Slots, m: Model, p: Key, v: Byte)
    requires Represents(s, keys, slots, m) && p in m && |m[p].freq| == 256 && m[p].freq[v] > 0
    ensures Counted(m) && Child(p, v) in m && slots.Keys == m.Keys && |m| == |keys| <= |s|
    ensures Root in m && slots[Root].index == 0 && Indexed(slots, keys)
  {
    hide TreeOk, Indexed;
  }

  /** s' holds the new tree of p; everything else is as it was. */
  lemma CountedRepresents(s: seq<Symbol>, s': seq<Symbol>, keys: seq<Key>, slots: Slots, m: Model, p: Key, v: Byte,
                          update: nat)
    requires Represents(s, keys, slots, m) && p in m && |m[p].freq| == 256 && m[p].freq[v] > 0 && update > 0
    requires OnlyTree(s, s', slots, p)
    requires TreeOk(s', slots, m[p].freq[v := m[p].freq[v] + update], p)
    ensures Represents(s', keys, slots, AddCount(m, p, v, update))
  {
    hide TreeOk, Put, Counted, OnlyTree, Indexed;
    var c, m' := Added(m[p], v, update), AddCount(m, p, v, update);
    RepresentsFacts(s, keys, slots, m, p, v);
    PutSize(m, p, c, v);
    PutCounted(m, p, c, v);
    assert m'.Keys == m.Keys;
    forall q | q in m'
      ensures slots[q].index < |s'| == |s| && TreeOk(s', slots, m'[q].freq, q)
      ensures s'[slots[q].index].escapes == m'[q].escapes && s'[slots[q].index].total == m'[q].total
    {
      CountedAt(s, s', keys, slots, m, p, v, update, q);
    }
  }

  lemma FreshEmpty(s: seq<Symbol>, slots: Slots, k: Key)
    requires k in slots && slots[k].index < |s| && s[slots[k].index].symbols == 0
    ensures TreeOk(s, slots, EmptyContext.freq, k)
  {
  }

  lemma CreatedIndexed(keys: seq<Key>, slots: Slots, slots': Slots, k: Key, slot: Slot)
    requires Indexed(slots, keys) && k !in slots && slot.index == |keys| && slots' == slots[k := slot]
    ensures Indexed(slots', keys + [k])
  {
  }

  /** s' holds the tree of p with the new symbol v in the next element. */
  ghost predicate Created(s: seq<Symbol>, s': seq<Symbol>, keys: seq<Key>, slots: Slots, slots': Slots, m: Model,
                          p: Key, v: Byte, update: nat) {
    && Represents(s, keys, slots, m) && p in m && |m[p].freq| == 256 && m[p].freq[v] == 0 && update > 0
    && OnlyTree(s, s', slots, p) && |keys| < |s|
    && s'[|keys|].symbols == 0 && s'[|keys|].escapes == 0 && s'[|keys|].total == 0
    && Child(p, v) in slots' && slots'[Child(p, v)].index == |keys|
    && slots' == slots[Child(p, v) := slots'[Child(p, v)]]
    && TreeOk(s', slots', m[p].freq[v := m[p].freq[v] + update], p)
  }

  lemma CreatedAt(s: seq<Symbol>, s': seq<Symbol>, keys: seq<Key>, slots: Slots, slots': Slots, m: Model, p: Key,
                  v: Byte, update: nat, q: Key)
    requires Created(s, s', keys, slots, slots', m, p, v, update) && q in AddCount(m, p, v, update)
    ensures q in slots' && slots'[q].index <= |keys|
    ensures TreeOk(s', slots', AddCount(m, p, v, update)[q].freq, q)
    ensures s'[slots'[q].index].escapes == AddCount(m, p, v, update)[q].escapes
    ensures s'[slots'[q].index].total == AddCount(m, p, v, update)[q].total
  {
    hide TreeOk;
    PutAt(m, p, Added(m[p], v, update), v, q);
    hide Put;
    assert Child(p, v) !in m;
    if q == Child(p, v) {
      FreshEmpty(s', slots', q);
    } else if q != p {
      FrameOther(s, s', slots, slots', m, p, q);
    }
  }

  lemma CreatedRepresents(s: seq<Symbol>, s': seq<Symbol>, keys: seq<Key>, slots: Slots, slots': Slots, m: Model,
                          p: Key, v: Byte, update: nat)
    requires Created(s, s', keys, slots, slots', m, p, v, update)
    ensures Represents(s', keys + [Child(p, v)], slots', AddCount(m, p, v, update))
  {
    hide TreeOk, Put, Counted, OnlyTree, Indexed, Created;
    CreatedFacts(s, s', keys, slots, slots', m, p, v, update);
    var c, m' := Added(m[p], v, update), AddCount(m, p, v, update);
    PutSize(m, p, c, v);
    PutCounted(m, p, c, v);
    CreatedIndexed(keys, slots, slots', Child(p, v), slots'[Child(p, v)]);
    assert m'.Keys == slots'.Keys;
    forall q | q in m'
      ensures TreeOk(s', slots', m'[q].freq, q)
      ensures s'[slots'[q].index].escapes == m'[q].escapes && s'[slots'[q].index].total == m'[q].total
    {
      CreatedAt(s, s', keys, slots, slots', m, p, v, update, q);
    }
    CreatedRoot(slots, slots', m, p, v, c);
  }

  lemma CreatedRoot(slots: Slots, slots': Slots, m: Model, p: Key, v: Byte, c: Context)
    requires p in m && Root in m && Root in slots && slots[Root].index == 0
    requires Child(p, v) in slots' && slots' == slots[Child(p, v) := slots'[Child(p, v)]]
    ensures Root in Put(m, p, c, v) && Root in slots' && slots'[Root].index == 0
  {
  }

  lemma CreatedFacts(s: seq<Symbol>, s': seq<Symbol>, keys: seq<Key>, slots: Slots, slots': Slots, m: Model, p: Key,
                     v: Byte, update: nat)
    requires Created(s, s', keys, slots, slots', m, p, v, update)
    ensures p in m && |m[p].freq| == 256 && update > 0 && Child(p, v) !in m && Counted(m)
    ensures slots.Keys == m.Keys && |m| == |keys| < |s'| && Root in m && slots[Root].index == 0 && Indexed(slots, keys)
    ensures Child(p, v) in slots' && slots'[Child(p, v)].index == |keys|
      && slots' == slots[Child(p, v) := slots'[Child(p, v)]]
  {
    hide TreeOk, Indexed;
    assert Child(p, v) !in m;
  }
}
