/** ENetRangeCoder (Externals/enet/compress.c): the 4096 symbols shared by every context,
    and the macros that search, extend and rescale their trees in place. */
module SymbolArray {
  import opened RangeCoding
  import opened PpmModel
  import opened SymbolTable
  import opened SymbolSpans

  /** What every operation leaves alone: the places of the keys and their parent links. */
  ghost predicate Extends(s0: seq<Symbol>, slots0: Slots, s: seq<Symbol>, slots: Slots) {
    && |s| == |s0|
    && forall k :: k in slots0 && slots0[k].index < |s0| ==>
         k in slots && slots[k] == slots0[k] && s[slots[k].index].parent == s0[slots0[k].index].parent
  }

  lemma {:induction false} SumInside(f: seq<nat>, a: int, b: int)
    requires 0 <= a <= b <= |f|
    ensures Sum(f, a, b) <= Weight(f)
  {
    SumSplit(f, 0, a, |f|);
    SumSplit(f, a, b, |f|);
  }

  lemma IndexedDistinct(slots: Slots, keys: seq<Key>)
    requires Indexed(slots, keys)
    ensures Distinct(slots) && Below(slots, |keys|)
  {
  }

  lemma Facts(s: seq<Symbol>, keys: seq<Key>, slots: Slots, m: Model, p: Key, v: Byte)
    requires Represents(s, keys, slots, m) && p in m
    ensures Indexed(slots, keys) && |keys| == |m| <= |s| && p in slots && |m[p].freq| == 256
    ensures Child(p, v) in slots <==> m[p].freq[v] > 0
    ensures Child(p, v) in m <==> m[p].freq[v] > 0
    ensures TreeOk(s, slots, m[p].freq, p)
  {
    hide TreeOk;
  }

  /** The walk in progress: only the tree of p has changed since s0. */
  ghost predicate Searching(s0: seq<Symbol>, s: seq<Symbol>, keys: seq<Key>, slots: Slots, m: Model, p: Key, v: Byte,
                            update: nat, lo: int, hi: int) {
    && Represents(s0, keys, slots, m) && p in m && |m[p].freq| == 256
    && |s| == |s0| && OnlyTree(s0, s, slots, p)
    && Walking(s, slots, m[p].freq, p, v, update, lo, hi)
  }

  ghost predicate AtNode(s: seq<Symbol>, slots: Slots, f: seq<nat>, p: Key, node: nat, u: Byte, lo: int, hi: int) {
    && |f| == 256 && f[u] > 0 && Child(p, u) in slots && slots[Child(p, u)] == Slot(node, lo, hi) && lo <= u < hi
    && node < |s| && s[node].value == u
  }

  lemma OnlyTreeWrite(s0: seq<Symbol>, s: seq<Symbol>, keys: seq<Key>, slots: Slots, p: Key, u: Byte, x: Symbol)
    requires OnlyTree(s0, s, slots, p) && Indexed(slots, keys) && |keys| <= |s| && Child(p, u) in slots
    requires var y := s[slots[Child(p, u)].index];
             x.escapes == y.escapes && x.total == y.total && x.parent == y.parent && x.symbols == y.symbols
    ensures OnlyTree(s0, s[slots[Child(p, u)].index := x], slots, p)
  {
  }

  lemma OnlyTreeCreate(s0: seq<Symbol>, s: seq<Symbol>, keys: seq<Key>, slots: Slots, p: Key, x: Symbol)
    requires OnlyTree(s0, s, slots, p) && Indexed(slots, keys) && |keys| < |s|
    ensures OnlyTree(s0, s[|keys| := x], slots, p)
  {
  }

  function Bumped(s: seq<Symbol>, node: nat, update: nat, count: nat): (r: seq<Symbol>)
    requires node < |s| && s[node].under + update < 0x1_0000 && s[node].count + count <= 0xFF
  {
    s[node := s[node].(under := s[node].under + update, count := s[node].count + count)]
  }

  lemma FoundTree(s: seq<Symbol>, keys: seq<Key>, slots: Slots, f: seq<nat>, p: Key, v: Byte, update: nat, node: nat,
                  lo: int, hi: int)
    requires Walking(s, slots, f, p, v, update, lo, hi) && AtNode(s, slots, f, p, node, v, lo, hi)
      && Indexed(slots, keys)
    requires s[node].under + update < 0x1_0000 && f[v] + update <= 0xFF
    ensures s[node].count + update <= 0xFF
    ensures TreeOk(Bumped(s, node, update, update), slots, f[v := f[v] + update], p)
  {
    assert NodeOk(s, slots, f, p, v, 0);
    IndexedDistinct(slots, keys);
    hide Indexed, NodeOk, Nested, RootLink;
    Found(s, slots, f, p, v, update, Bumped(s, node, update, update));
  }

  lemma FinishFound(s0: seq<Symbol>, s: seq<Symbol>, keys: seq<Key>, slots: Slots, m: Model, p: Key, v: Byte,
                    update: nat, node: nat, lo: int, hi: int)
    requires Searching(s0, s, keys, slots, m, p, v, update, lo, hi) && AtNode(s, slots, m[p].freq, p, node, v, lo, hi)
    requires s[node].under + update < 0x1_0000 && m[p].freq[v] + update <= 0xFF && update > 0
    ensures s[node].count + update <= 0xFF
    ensures OnlyTree(s0, Bumped(s, node, update, update), slots, p)
    ensures Represents(Bumped(s, node, update, update), keys, slots, AddCount(m, p, v, update))
  {
    hide Represents, Walking, OnlyTree, TreeOk, Indexed;
    Facts(s0, keys, slots, m, p, v);
    FoundTree(s, keys, slots, m[p].freq, p, v, update, node, lo, hi);
    OnlyTreeWrite(s0, s, keys, slots, p, v, Bumped(s, node, update, update)[node]);
    CountedRepresents(s0, Bumped(s, node, update, update), keys, slots, m, p, v, update);
  }

  /** Where the new leaf v goes, below the node of c. */
  function LeafSlot(n: nat, lo: int, hi: int, c: int, v: int): Slot {
    if v < c then Slot(n, lo, c) else Slot(n, c + 1, hi)
  }

  ghost predicate Bare(s: seq<Symbol>, node: nat, c: Byte, v: Byte, update: nat) {
    && node < |s| && v != c
    && (if v < c then s[node].left == 0 && s[node].under + update < 0x1_0000 else s[node].right == 0)
  }

  lemma AttachTree(s: seq<Symbol>, keys: seq<Key>, slots: Slots, f: seq<nat>, p: Key, v: Byte, update: Byte, node: nat,
                   c: Byte, lo: int, hi: int)
    requires Walking(s, slots, f, p, v, update, lo, hi) && AtNode(s, slots, f, p, node, c, lo, hi)
      && Indexed(slots, keys)
    requires Bare(s, node, c, v, update) && update > 0 && |keys| < |s| && |keys| < MAX_SYMBOLS
    requires Child(p, v) in slots <==> f[v] > 0
    ensures node < |keys| && f[v] == 0
    ensures TreeOk(Attach(s, node, c, v, update, |keys|), slots[Child(p, v) := LeafSlot(|keys|, lo, hi, c, v)],
                   f[v := f[v] + update], p)
  {
    assert NodeOk(s, slots, f, p, c, 0);
    IndexedDistinct(slots, keys);
    assert node < |keys|;
    hide NodeOk, Nested, RootLink, Walking, Indexed;
    Attached(s, slots, f, p, v, update, c, |keys|, LeafSlot(|keys|, lo, hi, c, v));
  }

  lemma AttachOnly(s0: seq<Symbol>, s: seq<Symbol>, keys: seq<Key>, slots: Slots, p: Key, v: Byte, update: Byte,
                   node: nat, c: Byte)
    requires OnlyTree(s0, s, slots, p) && Indexed(slots, keys) && |keys| < |s| && |keys| < MAX_SYMBOLS
    requires Child(p, c) in slots && slots[Child(p, c)].index == node && Bare(s, node, c, v, update)
    ensures node < |keys| && OnlyTree(s0, Attach(s, node, c, v, update, |keys|), slots, p)
  {
    assert keys[node] == Child(p, c);
    var s' := Attach(s, node, c, v, update, |keys|);
    OnlyTreeWrite(s0, s, keys, slots, p, c, s'[node]);
    OnlyTreeCreate(s0, s[node := s'[node]], keys, slots, p, Fresh(v, update));
    assert s' == s[node := s'[node]][|keys| := Fresh(v, update)];
  }

  lemma AttachCreated(s0: seq<Symbol>, s: seq<Symbol>, keys: seq<Key>, slots: Slots, m: Model, p: Key, v: Byte,
                      update: Byte,
                      node: nat, c: Byte, lo: int, hi: int, s': seq<Symbol>, slots': Slots)
    requires Represents(s0, keys, slots, m) && p in m && |m[p].freq| == 256 && OnlyTree(s0, s, slots, p)
    requires Walking(s, slots, m[p].freq, p, v, update, lo, hi) && AtNode(s, slots, m[p].freq, p, node, c, lo, hi)
    requires Bare(s, node, c, v, update) && update > 0 && |keys| < |s| && |keys| < MAX_SYMBOLS && node < |keys|
    requires s' == Attach(s, node, c, v, update, |keys|)
      && slots' == slots[Child(p, v) := LeafSlot(|keys|, lo, hi, c, v)]
    ensures Created(s0, s', keys, slots, slots', m, p, v, update)
  {
    hide Represents, Walking, OnlyTree, TreeOk, Indexed, Counted;
    Facts(s0, keys, slots, m, p, v);
    AttachTree(s, keys, slots, m[p].freq, p, v, update, node, c, lo, hi);
    AttachOnly(s0, s, keys, slots, p, v, update, node, c);
    assert s'[|keys|] == Fresh(v, update);
  }

  lemma FinishAttach(s0: seq<Symbol>, s: seq<Symbol>, keys: seq<Key>, slots: Slots, m: Model, p: Key, v: Byte,
                     update: Byte,
                     node: nat, c: Byte, lo: int, hi: int, s': seq<Symbol>, slots': Slots)
    requires Searching(s0, s, keys, slots, m, p, v, update, lo, hi) && AtNode(s, slots, m[p].freq, p, node, c, lo, hi)
    requires Bare(s, node, c, v, update) && update > 0 && |keys| < |s| && |keys| < MAX_SYMBOLS && node < |keys|
    requires s' == Attach(s, node, c, v, update, |keys|)
      && slots' == slots[Child(p, v) := LeafSlot(|keys|, lo, hi, c, v)]
    ensures m[p].freq[v] == 0 && OnlyTree(s0, s', slots, p)
    ensures Represents(s', keys + [Child(p, v)], slots', AddCount(m, p, v, update))
  {
    hide Attach, Represents, Walking, OnlyTree, AddCount;
    AttachCreated(s0, s, keys, slots, m, p, v, update, node, c, lo, hi, s', slots');
    CreatedRepresents(s0, s', keys, slots, slots', m, p, v, update);
  }

  lemma AttachedLeaf(s: seq<Symbol>, node: nat, c: Byte, v: Byte, update: Byte, n: nat)
    requires node < n < |s| && n < MAX_SYMBOLS && (v < c ==> s[node].under + update < 0x1_0000)
    ensures Attach(s, node, c, v, update, n)[n] == Fresh(v, update)
  {
  }

  /** Where there is no subtree nothing has been counted. */
  lemma GapSum(s: seq<Symbol>, slots: Slots, f: seq<nat>, p: Key, from: nat, a: int, b: int, v: int)
    requires |f| == 256 && 0 <= a <= v < b <= 256 && LinkOk(s, slots, f, p, from, 0, a, b)
    ensures Sum(f, 0, v) == Sum(f, 0, a) && f[v] == 0
  {
    SumSplit(f, 0, a, v);
    SumZero(f, a, v);
  }

  /** The code lies in the slice of v. */
  ghost predicate InSlice(f: seq<nat>, v: int, minimum: nat, code: int)
    requires 0 <= v < 256 == |f|
  {
    Under(f, v, minimum) <= code < Under(f, v, minimum) + f[v] + minimum
  }

  /** What a lookup by code can be looking for: v, or nothing when the context has no
      minimum and the code is above all its slices. */
  ghost predicate Sought(f: seq<nat>, v: int, minimum: nat, code: int) {
    && |f| == 256 && 0 <= v < 256 && minimum <= 1
    && (InSlice(f, v, minimum, code) || (minimum == 0 && v == 255 && code >= Weight(f)))
  }

  /** Comparing the code with the bounds of a node is comparing the value with the node's. */
  lemma CodeOrders(f: seq<nat>, v: int, minimum: nat, code: int, c: int, after: int)
    requires Sought(f, v, minimum, code) && 0 <= c < 256 && after == Under(f, c + 1, minimum)
    ensures Under(f, c, minimum) == after - f[c] - minimum
    ensures InSlice(f, v, minimum, code) ==> (code >= after <==> v > c)
    ensures InSlice(f, v, minimum, code) ==> (code < after - f[c] - minimum <==> v < c)
    ensures !InSlice(f, v, minimum, code) ==> code >= after
  {
    if InSlice(f, v, minimum, code) {
      if v < c { UnderOrdered(f, v, c, minimum); }
      if c < v { UnderOrdered(f, c, v, minimum); }
    } else {
      SumInside(f, 0, c + 1);
    }
  }

  /** A value in a gap after c is as far from c as its code from the end of c's slice. */
  lemma GapCode(f: seq<nat>, v: int, code: int, c: int)
    requires |f| == 256 && 0 <= v < 256 && InSlice(f, v, 1, code) && f[v] == 0
    ensures 0 <= c <= v && Sum(f, 0, v) == Sum(f, 0, c) ==> code - Under(f, c, 1) == v - c
    ensures v <= c < 256 && Sum(f, 0, v) == Sum(f, 0, c) ==> Under(f, c, 1) - code == c - v
    ensures code == Under(f, v, 1)
  {
  }

  lemma LinkSpan(s: seq<Symbol>, slots: Slots, f: seq<nat>, p: Key, from: nat, off: int, a: int, b: int)
    requires |f| == 256 && 0 <= a && b <= 256 && off > 0 && LinkOk(s, slots, f, p, from, off, a, b)
    ensures a < b
  {
  }

  lemma SumGap(s: seq<Symbol>, slots: Slots, f: seq<nat>, p: Key, from: nat, a: int, b: int, v: int)
    requires |f| == 256 && 0 <= a <= v < b <= 256 && LinkOk(s, slots, f, p, from, 0, a, b)
    ensures Sum(f, 0, v) == Sum(f, 0, a) == Sum(f, 0, b) && f[v] == 0
  {
    GapSum(s, slots, f, p, from, a, b, v);
    SumSplit(f, 0, a, b);
    SumZero(f, a, b);
  }

  /** The node reached through a link for the span [lo, hi). */
  lemma Arrive(s: seq<Symbol>, slots: Slots, f: seq<nat>, p: Key, from: nat, off: int, lo: int, hi: int)
    requires |f| == 256 && 0 <= lo && hi <= 256 && off > 0 && LinkOk(s, slots, f, p, from, off, lo, hi)
    ensures from + off < |s| && AtNode(s, slots, f, p, from + off, s[from + off].value, lo, hi)
  {
  }

  lemma SearchStart(s: seq<Symbol>, keys: seq<Key>, slots: Slots, m: Model, p: Key, v: Byte, update: nat)
    requires Represents(s, keys, slots, m) && p in m
    ensures p in slots && slots[p].index < |s| && |m[p].freq| == 256
    ensures Searching(s, s, keys, slots, m, p, v, update, 0, 256)
    ensures LinkOk(s, slots, m[p].freq, p, slots[p].index, s[slots[p].index].symbols, 0, 256)
  {
    hide TreeOk, LinkOk, NodeOk;
    Facts(s, keys, slots, m, p, v);
    StartWalking(s, slots, m[p].freq, p, v, update);
  }

  lemma StartWalking(s: seq<Symbol>, slots: Slots, f: seq<nat>, p: Key, v: Byte, update: nat)
    requires TreeOk(s, slots, f, p)
    ensures Walking(s, slots, f, p, v, update, 0, 256)
    ensures LinkOk(s, slots, f, p, slots[p].index, s[slots[p].index].symbols, 0, 256)
  {
    hide LinkOk;
    forall u: Byte | f[u] > 0
      ensures Child(p, u) in slots && NodeOk(s, slots, f, p, u, Bump(slots[Child(p, u)], u, v, update, 0, 256))
    {
      assert NodeOk(s, slots, f, p, u, 0);
    }
  }

  /** What a node in the span of the search holds. */
  lemma NodeFacts(s0: seq<Symbol>, s: seq<Symbol>, keys: seq<Key>, slots: Slots, m: Model, p: Key, v: Byte,
                  update: nat, node: nat, c: Byte, lo: int, hi: int)
    requires Searching(s0, s, keys, slots, m, p, v, update, lo, hi) && AtNode(s, slots, m[p].freq, p, node, c, lo, hi)
    ensures 0 <= lo <= c < hi <= 256 && node < |keys|
    ensures s[node].count == m[p].freq[c] && s[node].under == Sum(m[p].freq, lo, c + 1)
    ensures Sum(m[p].freq, 0, lo) + Sum(m[p].freq, lo, c + 1) == Sum(m[p].freq, 0, c + 1)
    ensures s[node].under <= Weight(m[p].freq)
    ensures LinkOk(s, slots, m[p].freq, p, node, s[node].left, lo, c)
    ensures LinkOk(s, slots, m[p].freq, p, node, s[node].right, c + 1, hi)
  {
    hide Represents, OnlyTree, Indexed;
    Facts(s0, keys, slots, m, p, v);
    InKeys(keys, slots, Child(p, c));
    assert NodeOk(s, slots, m[p].freq, p, c, 0);
    SumSplit(m[p].freq, 0, lo, c + 1);
    SumInside(m[p].freq, lo, c + 1);
  }

  lemma InKeys(keys: seq<Key>, slots: Slots, k: Key)
    requires Indexed(slots, keys) && k in slots
    ensures slots[k].index < |keys| && keys[slots[k].index] == k
  {
  }

  lemma SearchLeft(s0: seq<Symbol>, s: seq<Symbol>, keys: seq<Key>, slots: Slots, m: Model, p: Key, v: Byte,
                   update: nat, node: nat, c: Byte, lo: int, hi: int)
    requires Searching(s0, s, keys, slots, m, p, v, update, lo, hi) && AtNode(s, slots, m[p].freq, p, node, c, lo, hi)
    requires v < c && s[node].under + update < 0x1_0000 && s[node].left != 0
    ensures Searching(s0, Bumped(s, node, update, 0), keys, slots, m, p, v, update, lo, c)
    ensures var next := node + s[node].left;
            next < |s| && AtNode(Bumped(s, node, update, 0), slots, m[p].freq, p, next, s[next].value, lo, c)
  {
    hide Represents, OnlyTree, Walking, Indexed;
    Facts(s0, keys, slots, m, p, v);
    NodeFacts(s0, s, keys, slots, m, p, v, update, node, c, lo, hi);
    WalkLeft(s, keys, slots, m[p].freq, p, v, update, node, c, lo, hi);
    OnlyTreeWrite(s0, s, keys, slots, p, c, Bumped(s, node, update, 0)[node]);
    Arrive(s, slots, m[p].freq, p, node, s[node].left, lo, c);
  }

  lemma WalkLeft(s: seq<Symbol>, keys: seq<Key>, slots: Slots, f: seq<nat>, p: Key, v: Byte, update: nat, node: nat,
                 c: Byte, lo: int, hi: int)
    requires Walking(s, slots, f, p, v, update, lo, hi) && AtNode(s, slots, f, p, node, c, lo, hi)
      && Indexed(slots, keys)
    requires v < c && s[node].under + update < 0x1_0000
    ensures Walking(Bumped(s, node, update, 0), slots, f, p, v, update, lo, c)
  {
    hide Walking, Indexed;
    IndexedDistinct(slots, keys);
    StepLeft(s, slots, f, p, v, update, c, Bumped(s, node, update, 0));
  }

  lemma SearchRight(s0: seq<Symbol>, s: seq<Symbol>, keys: seq<Key>, slots: Slots, m: Model, p: Key, v: Byte,
                    update: nat, node: nat, c: Byte, lo: int, hi: int)
    requires Searching(s0, s, keys, slots, m, p, v, update, lo, hi) && AtNode(s, slots, m[p].freq, p, node, c, lo, hi)
    requires c < v && s[node].right != 0
    ensures Searching(s0, s, keys, slots, m, p, v, update, c + 1, hi)
    ensures var next := node + s[node].right;
            next < |s| && AtNode(s, slots, m[p].freq, p, next, s[next].value, c + 1, hi)
  {
    hide Represents, OnlyTree, Walking, Indexed;
    NodeFacts(s0, s, keys, slots, m, p, v, update, node, c, lo, hi);
    StepRight(s, slots, m[p].freq, p, v, update, c);
    Arrive(s, slots, m[p].freq, p, node, s[node].right, c + 1, hi);
  }

  lemma FinishRoot(s0: seq<Symbol>, keys: seq<Key>, slots: Slots, m: Model, p: Key, v: Byte, update: Byte,
                   s': seq<Symbol>, slots': Slots)
    requires Represents(s0, keys, slots, m) && p in m && p in slots && slots[p].index < |keys| < |s0|
      && |keys| < MAX_SYMBOLS
    requires s0[slots[p].index].symbols == 0 && update > 0
    requires s'
      == s0[|keys| := Fresh(v, update)][slots[p].index := s0[slots[p].index].(symbols := |keys| - slots[p].index)]
    requires slots' == slots[Child(p, v) := Slot(|keys|, 0, 256)]
    ensures |m[p].freq| == 256 && m[p].freq[v] == 0 && OnlyTree(s0, s', slots, p)
    ensures Represents(s', keys + [Child(p, v)], slots', AddCount(m, p, v, update))
  {
    hide Represents, TreeOk, Indexed, AddCount;
    Facts(s0, keys, slots, m, p, v);
    RootUnseen(s0, slots, m[p].freq, p, v);
    AttachedRoot(s0, slots, m[p].freq, p, v, update, |keys|, s');
    RootOnly(s0, keys, slots, p, s');
    CreatedRepresents(s0, s', keys, slots, slots', m, p, v, update);
  }

  lemma RootUnseen(s: seq<Symbol>, slots: Slots, f: seq<nat>, p: Key, v: Byte)
    requires TreeOk(s, slots, f, p) && s[slots[p].index].symbols == 0
    ensures f[v] == 0
  {
  }

  lemma RootOnly(s0: seq<Symbol>, keys: seq<Key>, slots: Slots, p: Key, s': seq<Symbol>)
    requires Indexed(slots, keys) && p in slots && slots[p].index < |keys| < |s0| && |s'| == |s0|
    requires forall i :: 0 <= i < |s0| && i != |keys| && i != slots[p].index ==> s'[i] == s0[i]
    requires var i := slots[p].index; s'[i] == s0[i].(symbols := s'[i].symbols)
    ensures OnlyTree(s0, s', slots, p)
  {
  }

  lemma ExtendsSelf(s: seq<Symbol>, slots: Slots)
    ensures Extends(s, slots, s, slots)
  {
  }

  lemma OnlyExtends(s0: seq<Symbol>, s': seq<Symbol>, keys: seq<Key>, slots: Slots, slots': Slots, p: Key, v: Byte)
    requires OnlyTree(s0, s', slots, p)
    requires slots' == slots
      || (Child(p, v) !in slots && Child(p, v) in slots' && slots' == slots[Child(p, v) := slots'[Child(p, v)]])
    ensures Extends(s0, slots, s', slots')
  {
  }

  /** The nodes of context p with values in [lo, hi) are right for the frequencies f. */
  ghost predicate SpanOk(s: seq<Symbol>, slots: Slots, f: seq<nat>, p: Key, lo: int, hi: int) {
    |f| == 256 && forall u: Byte :: f[u] > 0 && lo <= u < hi ==> NodeOk(s, slots, f, p, u, 0)
  }

  ghost predicate InSpan(k: Key, p: Key, lo: int, hi: int) {
    k.Child? && k.parent == p && lo <= k.last < hi
  }

  /** Only the weights of the nodes of p with values in [lo, hi) have changed. */
  ghost predicate OnlySpan(s: seq<Symbol>, s': seq<Symbol>, slots: Slots, p: Key, lo: int, hi: int) {
    && SameValues(s, s')
    && forall k :: k in slots && slots[k].index < |s| ==>
         var (a, b) := (s[slots[k].index], s'[slots[k].index]);
         if InSpan(k, p, lo, hi) then b == a.(count := b.count, under := b.under) else a == b
  }

  lemma OnlySpanTrans(s: seq<Symbol>, s': seq<Symbol>, s'': seq<Symbol>, slots: Slots, p: Key, lo: int, a: int, b: int,
                      hi: int)
    requires OnlySpan(s, s', slots, p, lo, hi) && OnlySpan(s', s'', slots, p, a, b) && lo <= a && b <= hi
    ensures OnlySpan(s, s'', slots, p, lo, hi)
  {
  }

  lemma SpanSame(s: seq<Symbol>, s': seq<Symbol>, slots: Slots, f: seq<nat>, p: Key, lo: int, hi: int, a: int, b: int)
    requires SpanOk(s, slots, f, p, lo, hi) && OnlySpan(s, s', slots, p, a, b) && (hi <= a || b <= lo)
    ensures SpanOk(s', slots, f, p, lo, hi)
  {
    forall u: Byte | f[u] > 0 && lo <= u < hi
      ensures NodeOk(s', slots, f, p, u, 0)
    {
      assert NodeOk(s, slots, f, p, u, 0);
      assert !InSpan(Child(p, u), p, a, b);
      NodeFrame(s, s', slots, f, p, u, 0, 0);
    }
  }

  lemma WriteSpan(s: seq<Symbol>, keys: seq<Key>, slots: Slots, p: Key, u: Byte, count: Byte, under: U16)
    requires Indexed(slots, keys) && |keys| <= |s| && Child(p, u) in slots
    ensures slots[Child(p, u)].index < |s|
    ensures var i := slots[Child(p, u)].index;
            OnlySpan(s, s[i := s[i].(count := count, under := under)], slots, p, u, u + 1)
  {
  }

  lemma SpanJoin(s: seq<Symbol>, slots: Slots, f: seq<nat>, p: Key, lo: int, m: int, hi: int)
    requires SpanOk(s, slots, f, p, lo, m) && SpanOk(s, slots, f, p, m, hi)
    ensures SpanOk(s, slots, f, p, lo, hi)
  {
    hide NodeOk;
  }

  lemma SpanPart(s: seq<Symbol>, slots: Slots, f: seq<nat>, p: Key, lo: int, hi: int, a: int, b: int)
    requires SpanOk(s, slots, f, p, lo, hi) && lo <= a && b <= hi
    ensures SpanOk(s, slots, f, p, a, b)
  {
    hide NodeOk;
  }

  /** A node whose weights have been halved together with its left subtree's. */
  lemma HalvedNode(s: seq<Symbol>, s': seq<Symbol>, slots: Slots, f: seq<nat>, p: Key, u: Byte)
    requires |f| == 256 && f[u] > 0 && NodeOk(s, slots, f, p, u, 0) && SameValues(s, s')
    requires var t := slots[Child(p, u)];
             && s'[t.index].left == s[t.index].left && s'[t.index].right == s[t.index].right
             && s'[t.index].count == f[u] - f[u] / 2
             && s'[t.index].under == Sum(Halve(f), t.lo, u) + s'[t.index].count
    ensures SpanOk(s', slots, Halve(f), p, u, u + 1)
  {
  }

  lemma TreeSpan(s: seq<Symbol>, slots: Slots, f: seq<nat>, p: Key)
    requires TreeOk(s, slots, f, p)
    ensures SpanOk(s, slots, f, p, 0, 256)
    ensures LinkOk(s, slots, f, p, slots[p].index, s[slots[p].index].symbols, 0, 256)
  {
    hide NodeOk, LinkOk;
  }

  lemma SpanTree(s: seq<Symbol>, s': seq<Symbol>, slots: Slots, f: seq<nat>, p: Key)
    requires TreeOk(s, slots, f, p) && OnlySpan(s, s', slots, p, 0, 256)
    requires SpanOk(s', slots, Halve(f), p, 0, 256)
    ensures TreeOk(s', slots, Halve(f), p)
  {
    SpanSupport(s, slots, f, p);
    hide NodeOk;
    NestedSame(slots, f, Halve(f), p);
    RootLinkSame(s, s', slots, f, Halve(f), p);
  }

  lemma SpanSupport(s: seq<Symbol>, slots: Slots, f: seq<nat>, p: Key)
    requires TreeOk(s, slots, f, p)
    ensures forall u: Byte :: f[u] > 0 ==> Child(p, u) in slots
  {
  }

  lemma SpanOnlyTree(s: seq<Symbol>, s': seq<Symbol>, slots: Slots, p: Key)
    requires OnlySpan(s, s', slots, p, 0, 256)
    ensures OnlyTree(s, s', slots, p)
  {
  }

  lemma OnlySpanRefl(s: seq<Symbol>, slots: Slots, p: Key, lo: int, hi: int)
    ensures OnlySpan(s, s, slots, p, lo, hi)
  {
  }

  lemma SpanOutside(s: seq<Symbol>, s': seq<Symbol>, slots: Slots, p: Key, u: Byte, lo: int, hi: int)
    requires OnlySpan(s, s', slots, p, lo, hi) && Child(p, u) in slots && slots[Child(p, u)].index < |s|
      && !(lo <= u < hi)
    ensures |s'| == |s| && s'[slots[Child(p, u)].index] == s[slots[Child(p, u)].index]
  {
  }

  lemma LinkSame(s: seq<Symbol>, s': seq<Symbol>, slots: Slots, f: seq<nat>, p: Key, from: nat, off: int, a: int,
                 b: int, lo: int, hi: int)
    requires |f| == 256 && 0 <= a && b <= 256 && off >= 0 && LinkOk(s, slots, f, p, from, off, a, b)
    requires OnlySpan(s, s', slots, p, lo, hi)
    ensures LinkOk(s', slots, f, p, from, off, a, b)
  {
  }

  lemma HalvedFits(f: seq<nat>, lo: int, u: Byte)
    requires |f| == 256 && 0 <= lo <= u && Weight(f) < 0x1_0000
    ensures (f[u] - f[u] / 2) + Sum(Halve(f), lo, u) == Sum(Halve(f), lo, u as int + 1) < 0x1_0000
  {
    SumInside(f, lo, u as int + 1);
    SumLess(Halve(f), f, lo, u as int + 1);
  }

  lemma {:induction false} SumLess(g: seq<nat>, f: seq<nat>, a: int, b: int)
    requires |g| == |f| && (forall i :: 0 <= i < |f| ==> g[i] <= f[i]) && 0 <= a <= b <= |f|
    ensures Sum(g, a, b) <= Sum(f, a, b)
    decreases b - a
  {
    if a < b { SumLess(g, f, a, b - 1); }
  }

  lemma HalvedSpan(s: seq<Symbol>, s': seq<Symbol>, slots: Slots, f: seq<nat>, p: Key, node: nat, u: Byte, lo: int,
                   hi: int)
    requires SpanOk(s, slots, f, p, lo, hi) && AtNode(s, slots, f, p, node, u, lo, hi)
    requires OnlySpan(s, s', slots, p, lo, u as int + 1) && 0 <= lo && |s'| == |s|
    requires s'[node].count == f[u] - f[u] / 2 && s'[node].under == s'[node].count + Sum(Halve(f), lo, u)
    ensures SpanOk(s', slots, Halve(f), p, u, u as int + 1)
  {
    assert NodeOk(s, slots, f, p, u, 0);
    hide NodeOk;
    HalvedNode(s, s', slots, f, p, u);
  }

  /** One turn of the rescaling loop: [lo, a) was done, [a, b) is done now, [b, hi) is not. */
  lemma SpanAdvance(s0: seq<Symbol>, s: seq<Symbol>, s': seq<Symbol>, slots: Slots, f: seq<nat>, p: Key, lo: int,
                    a: int, b: int, hi: int)
    requires 0 <= lo <= a <= b <= hi <= 256
    requires OnlySpan(s0, s, slots, p, lo, hi) && OnlySpan(s, s', slots, p, a, b)
    requires SpanOk(s, slots, Halve(f), p, lo, a) && SpanOk(s, slots, f, p, a, hi)
      && SpanOk(s', slots, Halve(f), p, a, b)
    ensures OnlySpan(s0, s', slots, p, lo, hi)
    ensures SpanOk(s', slots, Halve(f), p, lo, b) && SpanOk(s', slots, f, p, b, hi)
    ensures |f| == 256 && Sum(Halve(f), lo, b) == Sum(Halve(f), lo, a) + Sum(Halve(f), a, b)
  {
    hide OnlySpan, NodeOk;
    OnlySpanTrans(s0, s, s', slots, p, lo, a, b, hi);
    SpanSame(s, s', slots, Halve(f), p, lo, a, a, b);
    SpanPart(s, slots, f, p, a, hi, b, hi);
    SpanSame(s, s', slots, f, p, b, hi, a, b);
    SpanJoin(s', slots, Halve(f), p, lo, a, b);
    SumSplit(Halve(f), lo, a, b);
  }

  lemma SpanNone(s: seq<Symbol>, slots: Slots, f: seq<nat>, p: Key, lo: int)
    requires |f| == 256
    ensures SpanOk(s, slots, f, p, lo, lo)
  {
  }

  lemma SpanNode(s: seq<Symbol>, slots: Slots, f: seq<nat>, p: Key, node: nat, u: Byte, lo: int, hi: int)
    requires SpanOk(s, slots, f, p, lo, hi) && AtNode(s, slots, f, p, node, u, lo, hi) && 0 <= lo < hi <= 256
    ensures s[node].count == f[u] && s[node].under == Sum(f, lo, u + 1)
    ensures LinkOk(s, slots, f, p, node, s[node].left, lo, u)
    ensures LinkOk(s, slots, f, p, node, s[node].right, u + 1, hi)
  {
    assert NodeOk(s, slots, f, p, u, 0);
  }

  lemma HalvedGap(s: seq<Symbol>, slots: Slots, f: seq<nat>, p: Key, from: nat, a: int, b: int)
    requires |f| == 256 && 0 <= a <= b <= 256 && LinkOk(s, slots, f, p, from, 0, a, b)
    ensures Sum(Halve(f), a, b) == 0
  {
    SumZero(Halve(f), a, b);
  }

  lemma SpanGap(s: seq<Symbol>, slots: Slots, f: seq<nat>, p: Key, from: nat, lo: int, a: int, b: int)
    requires |f| == 256 && 0 <= a <= b <= 256 && LinkOk(s, slots, f, p, from, 0, a, b)
    requires SpanOk(s, slots, Halve(f), p, lo, a)
    ensures SpanOk(s, slots, Halve(f), p, lo, b)
  {
    hide NodeOk;
  }

  /** One context has new frequencies for the symbols it has seen. */
  lemma Reweighted(s: seq<Symbol>, s': seq<Symbol>, keys: seq<Key>, slots: Slots, m: Model, p: Key, f': seq<nat>)
    requires Represents(s, keys, slots, m) && p in m && SameSupport(m[p].freq, f')
    requires OnlyTree(s, s', slots, p) && TreeOk(s', slots, f', p)
    ensures Represents(s', keys, slots, m[p := m[p].(freq := f')])
  {
    hide TreeOk, Counted;
    var m' := m[p := m[p].(freq := f')];
    ReweightedCounted(m, p, f');
    assert m'.Keys == m.Keys;
    forall q | q in m'
      ensures TreeOk(s', slots, m'[q].freq, q)
    {
      if q != p { FrameOther(s, s', slots, slots, m, p, q); }
    }
  }

  lemma ReweightedCounted(m: Model, p: Key, f': seq<nat>)
    requires Counted(m) && p in m && SameSupport(m[p].freq, f')
    ensures Counted(m[p := m[p].(freq := f')])
  {
  }

  lemma FieldsRepresent(s: seq<Symbol>, keys: seq<Key>, slots: Slots, m: Model, p: Key, escapes: U16, total: U16)
    requires Represents(s, keys, slots, m) && p in m && p in slots && slots[p].index < |s|
    ensures var s' := s[slots[p].index := s[slots[p].index].(escapes := escapes, total := total)];
            && Represents(s', keys, slots, m[p := m[p].(escapes := escapes, total := total)])
            && Extends(s, slots, s', slots)
  {
    hide TreeOk, Counted;
    var i := slots[p].index;
    var s' := s[i := s[i].(escapes := escapes, total := total)];
    var m' := m[p := m[p].(escapes := escapes, total := total)];
    assert m'.Keys == m.Keys;
    FieldsCounted(m, p, escapes, total);
    forall q | q in m'
      ensures TreeOk(s', slots, m'[q].freq, q)
    {
      WriteFrame(s, s', slots, m[q].freq, q, i);
    }
  }

  lemma FieldsCounted(m: Model, p: Key, escapes: nat, total: nat)
    requires Counted(m) && p in m
    ensures Counted(m[p := m[p].(escapes := escapes, total := total)])
  {
  }

  /** A write that keeps the tree fields of an element. */
  lemma WriteFrame(s: seq<Symbol>, s': seq<Symbol>, slots: Slots, f: seq<nat>, q: Key, i: nat)
    requires TreeOk(s, slots, f, q) && i < |s| == |s'|
    requires s' == s[i := s'[i]] && SameNode(s[i], s'[i]) && s'[i].symbols == s[i].symbols
    ensures TreeOk(s', slots, f, q)
  {
    SpanSupport(s, slots, f, q);
    forall u: Byte | f[u] > 0
      ensures SameNode(s[slots[Child(q, u)].index], s'[slots[Child(q, u)].index])
    {
      assert NodeOk(s, slots, f, q, u, 0);
    }
    hide NodeOk;
    TreeFrame(s, s', slots, slots, f, q);
  }

  lemma ParentRepresents(s: seq<Symbol>, keys: seq<Key>, slots: Slots, m: Model, i: nat, parent: U16)
    requires Represents(s, keys, slots, m) && i < |s|
    ensures Represents(s[i := s[i].(parent := parent)], keys, slots, m)
  {
    hide TreeOk, Counted;
    var s' := s[i := s[i].(parent := parent)];
    forall q | q in m
      ensures TreeOk(s', slots, m[q].freq, q)
    {
      WriteFrame(s, s', slots, m[q].freq, q, i);
    }
  }

  /** What the context of k holds once its tree and its escape weight have counted v. */
  lemma AddedUpdate(m: Model, k: Key, v: Byte, c: Context)
    requires k in m && |m[k].freq| == 256
    ensures AddCount(m, k, v, Delta(k))[k := c] == Put(m, k, c, v)
  {
    assert Depth(Child(k, v)) == Depth(k) + 1;
  }

  lemma KeysFit(s: seq<Symbol>, keys: seq<Key>, slots: Slots, m: Model)
    requires Represents(s, keys, slots, m)
    ensures Indexed(slots, keys) && |keys| == |m| <= |s| && slots.Keys == m.Keys
    ensures Root in m && slots[Root].index == 0
  {
    hide TreeOk, Counted;
  }

  lemma TotalFields(s: seq<Symbol>, keys: seq<Key>, slots: Slots, m: Model, p: Key)
    requires Represents(s, keys, slots, m) && p in m
    ensures Root in m && p in slots && slots[p].index < |s|
    ensures s[slots[p].index].escapes == m[p].escapes && s[slots[p].index].total == m[p].total
  {
    hide TreeOk, Counted;
  }

  lemma ExtendsTrans(s: seq<Symbol>, s': seq<Symbol>, s'': seq<Symbol>, slots: Slots)
    requires Extends(s, slots, s', slots) && Extends(s', slots, s'', slots)
    ensures Extends(s, slots, s'', slots)
  {
  }

  lemma HalvedRepresents(s: seq<Symbol>, s': seq<Symbol>, keys: seq<Key>, slots: Slots, m: Model, p: Key)
    requires Represents(s, keys, slots, m) && p in m && |m[p].freq| == 256
    requires OnlySpan(s, s', slots, p, 0, 256) && SpanOk(s', slots, Halve(m[p].freq), p, 0, 256)
    ensures Represents(s', keys, slots, m[p := m[p].(freq := Halve(m[p].freq))])
    ensures Extends(s, slots, s', slots)
  {
    hide Represents, TreeOk, OnlySpan, SpanOk, OnlyTree, Extends;
    Facts(s, keys, slots, m, p, 0);
    SpanTree(s, s', slots, m[p].freq, p);
    SpanOnlyTree(s, s', slots, p);
    OnlyExtends(s, s', keys, slots, slots, p, 0);
    Reweighted(s, s', keys, slots, m, p, Halve(m[p].freq));
  }

  lemma HalvedWeight(f: seq<nat>, total: int)
    requires |f| == 256 && total == Sum(Halve(f), 0, 256)
    ensures total == Weight(Halve(f)) <= Weight(f)
  {
    SumLess(Halve(f), f, 0, |f|);
  }

  /** The sums a rescale adds up fit sixteen bits. */
  lemma RescaleRoom(p: Key, c: Context, v: Byte)
    requires ValidContext(p, c)
    ensures var d := Count(p, c, v);
            |d.freq| == 256 && Weight(d.freq) + d.escapes + 256 * Minimum(p) == d.total < 0x1_0000
  {
    CountSum(p, c, v);
  }

  /** Every symbol outside `waiting` leads to the symbol without its oldest byte. */
  ghost predicate Linked(s: seq<Symbol>, slots: Slots, waiting: set<Key>) {
    forall k {:trigger LinkedAt(s, slots, k)} :: k in slots && k.Child? && k !in waiting ==> LinkedAt(s, slots, k)
  }

  ghost predicate LinkedAt(s: seq<Symbol>, slots: Slots, k: Key)
    requires k in slots && k.Child?
  {
    Suffix(k) in slots && slots[k].index < |s| && s[slots[k].index].parent == slots[Suffix(k)].index
  }

  lemma LinkedExtends(s: seq<Symbol>, slots: Slots, s': seq<Symbol>, slots': Slots, waiting: set<Key>, k: Key)
    requires Linked(s, slots, waiting) && Extends(s, slots, s', slots') && slots'.Keys <= slots.Keys + {k}
    requires forall j :: j in slots ==> slots[j].index < |s|
    ensures Linked(s', slots', if k in slots then waiting else waiting + {k})
  {
    forall j | j in slots' && j.Child? && j !in (if k in slots then waiting else waiting + {k})
      ensures LinkedAt(s', slots', j)
    {
      assert j in slots && LinkedAt(s, slots, j);
    }
  }

  /** Storing the right parent in the symbol of k. */
  lemma LinkedStore(s: seq<Symbol>, keys: seq<Key>, slots: Slots, waiting: set<Key>, k: Key, parent: U16)
    requires Linked(s, slots, waiting) && Indexed(slots, keys) && |keys| <= |s|
    requires k in slots && k.Child? && Suffix(k) in slots && slots[Suffix(k)].index == parent
    ensures slots[k].index < |s|
    ensures Linked(s[slots[k].index := s[slots[k].index].(parent := parent)], slots, waiting - {k})
  {
    var s' := s[slots[k].index := s[slots[k].index].(parent := parent)];
    forall j | j in slots && j.Child? && j !in waiting - {k}
      ensures LinkedAt(s', slots, j)
    {
      if j != k {
        assert LinkedAt(s, slots, j);
      }
    }
  }

  lemma LinkedDone(s: seq<Symbol>, slots: Slots, waiting: set<Key>, k: Key)
    requires Linked(s, slots, waiting) && k in slots && k.Child? && LinkedAt(s, slots, k)
    ensures Linked(s, slots, waiting - {k})
  {
    forall j | j in slots && j.Child? && j !in waiting - {k}
      ensures LinkedAt(s, slots, j)
    {
    }
  }

  /** The gap of a new leaf holds no value seen so far. */
  lemma LeafUnseen(s: seq<Symbol>, slots: Slots, f: seq<nat>, p: Key, node: nat, c: Byte, v: Byte, update: nat,
                   lo: int, hi: int)
    requires |f| == 256 && 0 <= lo <= c < hi <= 256 && Bare(s, node, c, v, update)
    requires LinkOk(s, slots, f, p, node, s[node].left, lo, c) && LinkOk(s, slots, f, p, node, s[node].right, c + 1, hi)
    ensures var t := LeafSlot(0, lo, hi, c, v); forall u :: t.lo <= u < t.hi ==> f[u] == 0
  {
  }

  /** What the slot of a new leaf is in terms of what the context has seen. */
  lemma LeafSpan(s0: seq<Symbol>, s: seq<Symbol>, keys: seq<Key>, slots: Slots, m: Model, p: Key, v: Byte, update: Byte,
                 node: nat, c: Byte, lo: int, hi: int)
    requires Searching(s0, s, keys, slots, m, p, v, update, lo, hi) && AtNode(s, slots, m[p].freq, p, node, c, lo, hi)
    requires Bare(s, node, c, v, update) && Spanned(slots, m)
    ensures |m[p].freq| == 256
    ensures var t := LeafSlot(|keys|, lo, hi, c, v);
      Edged(m[p].freq, Span(t.lo, t.hi)) && t.lo <= v < t.hi && forall u :: t.lo <= u < t.hi ==> m[p].freq[u] == 0
  {
    hide Represents, Spanned, OnlyTree, LinkOk;
    NodeFacts(s0, s, keys, slots, m, p, v, update, node, c, lo, hi);
    LeafGap(slots, m, p, c, v, node, lo, hi);
    LeafUnseen(s, slots, m[p].freq, p, node, c, v, update, lo, hi);
  }

  lemma RootGap(s: seq<Symbol>, slots: Slots, f: seq<nat>, p: Key)
    requires TreeOk(s, slots, f, p) && slots[p].index < |s| && s[slots[p].index].symbols == 0
    ensures Edged(f, Span(0, 256)) && forall u :: 0 <= u < 256 ==> f[u] == 0
  {
  }

  lemma FreqLength(s: seq<Symbol>, keys: seq<Key>, slots: Slots, m: Model, p: Key)
    requires Represents(s, keys, slots, m) && p in m
    ensures |m[p].freq| == 256
  {
  }

  class ENetRangeCoder {
    const symbols: array<Symbol>
    var nextSymbol: nat
    ghost var keys: seq<Key>
    ghost var slots: Slots
    ghost var model: Model

    ghost predicate Valid()
      reads this, symbols
    {
      && symbols.Length == MAX_SYMBOLS
      && nextSymbol == |keys|
      && Represents(symbols[..], keys, slots, model)
      && Spanned(slots, model)
    }

    constructor ()
      ensures symbols.Length == MAX_SYMBOLS && fresh(symbols)
    {
      symbols := new Symbol[MAX_SYMBOLS](_ => Fresh(0, 0));
      nextSymbol, keys, slots, model := 0, [], map[], map[];
    }

    method Write(i: nat, s: Symbol)
      requires i < symbols.Length
      modifies symbols
      ensures symbols[..] == old(symbols[..])[i := s]
    {
      symbols[i] := s;
    }

    /** ENET_SYMBOL_CREATE. */
    method Create(value: Byte, count: Byte) returns (symbol: nat)
      requires nextSymbol < symbols.Length
      modifies this`nextSymbol, symbols
      ensures symbol == old(nextSymbol) && nextSymbol == symbol + 1
      ensures symbols[..] == old(symbols[..])[symbol := Fresh(value, count)]
    {
      symbol := nextSymbol;
      Write(symbol, Fresh(value, count));
      nextSymbol := nextSymbol + 1;
    }

    /** The root context of a fresh table: ENET_CONTEXT_CREATE at element 0. */
    method Reset()
      requires symbols.Length == MAX_SYMBOLS
      modifies this, symbols
      ensures Valid() && model == FreshModel && nextSymbol == 1
      ensures slots == map[Root := Slot(0, 0, 0)]
    {
      nextSymbol := 0;
      var root := Create(0, 0);
      Write(root,
            symbols[root].(escapes := ESCAPE_MINIMUM, total := ESCAPE_MINIMUM + 256 * SYMBOL_MINIMUM, symbols := 0));
      keys, slots, model := [Root], map[Root := Slot(0, 0, 0)], FreshModel;
      SpannedReset(slots);
    }

    /** The search ends at the node of the value: both its weights grow. */
    method CountNode(node: nat, ghost value: Byte, update: Byte, ghost s0: seq<Symbol>, ghost p: Key, ghost lo: int,
                     ghost hi: int)
      requires symbols.Length == MAX_SYMBOLS && nextSymbol == |keys|
      requires Searching(s0, symbols[..], keys, slots, model, p, value, update, lo, hi)
      requires AtNode(symbols[..], slots, model[p].freq, p, node, value, lo, hi) && Spanned(slots, model)
      requires update > 0 && symbols[node].under + update < 0x1_0000 && model[p].freq[value] + update <= 0xFF
      modifies this`model, symbols
      ensures Valid() && model == AddCount(old(model), p, value, update)
      ensures Extends(s0, slots, symbols[..], slots)
    {
      hide Represents, Spanned, OnlyTree, Walking, AddCount, Extends;
      ghost var s := symbols[..];
      FinishFound(s0, s, keys, slots, model, p, value, update, node, lo, hi);
      Facts(s0, keys, slots, model, p, value);
      SpannedCounted(slots, model, p, value, update);
      Write(node, symbols[node].(under := symbols[node].under + update, count := symbols[node].count + update));
      assert symbols[..] == Bumped(s, node, update, update);
      OnlyExtends(s0, symbols[..], keys, slots, slots, p, value);
      model := AddCount(model, p, value, update);
    }

    /** A new leaf below a node without a subtree on its side. */
    method AddLeaf(node: nat, value: Byte, update: Byte) returns (symbol: nat)
      requires node < nextSymbol < symbols.Length == MAX_SYMBOLS && update > 0
      requires Bare(symbols[..], node, symbols[node].value, value, update)
      modifies this`nextSymbol, symbols
      ensures symbol == old(nextSymbol) && nextSymbol == symbol + 1
      ensures symbols[..] == Attach(old(symbols[..]), node, old(symbols[node].value), value, update, symbol)
    {
      ghost var s, c := symbols[..], symbols[node].value;
      if value < symbols[node].value {
        Write(node, symbols[node].(under := symbols[node].under + update));
        symbol := Create(value, update);
        Write(node, symbols[node].(left := symbol - node));
      } else {
        symbol := Create(value, update);
        Write(node, symbols[node].(right := symbol - node));
      }
      assert symbols[..] == Attach(s, node, c, value, update, symbol);
    }

    /** The search ends at a node without a subtree on the side of the value. */
    method GrowTree(node: nat, value: Byte, update: Byte, ghost s0: seq<Symbol>, ghost p: Key, ghost lo: int,
                    ghost hi: int)
      returns (symbol: nat)
      requires node < nextSymbol == |keys| < symbols.Length == MAX_SYMBOLS
      requires Searching(s0, symbols[..], keys, slots, model, p, value, update, lo, hi)
      requires AtNode(symbols[..], slots, model[p].freq, p, node, symbols[node].value, lo, hi)
      requires Bare(symbols[..], node, symbols[node].value, value, update) && update > 0 && Spanned(slots, model)
      modifies this, symbols
      ensures Valid() && model == AddCount(old(model), p, value, update)
      ensures old(model[p].freq[value]) == 0 && nextSymbol == old(nextSymbol) + 1
      ensures Child(p, value) in slots && slots[Child(p, value)].index == symbol
      ensures symbols[symbol].parent == 0
      ensures Extends(s0, old(slots), symbols[..], slots)
    {
      hide Represents, Spanned, OnlyTree, Walking, AddCount, Extends, Indexed, AtNode, TreeOk, LinkOk, Attach, Sum,
        Weight;
      ghost var s, c := symbols[..], symbols[node].value;
      Facts(s0, keys, slots, model, p, value);
      NodeFacts(s0, s, keys, slots, model, p, value, update, node, c, lo, hi);
      LeafSpan(s0, s, keys, slots, model, p, value, update, node, c, lo, hi);
      symbol := AddLeaf(node, value, update);
      ghost var slots' := slots[Child(p, value) := LeafSlot(|keys|, lo, hi, c, value)];
      FinishAttach(s0, s, keys, slots, model, p, value, update, node, c, lo, hi, symbols[..], slots');
      OnlyExtends(s0, symbols[..], keys, slots, slots', p, value);
      AttachedLeaf(s, node, c, value, update, symbol);
      SpannedCreated(slots, slots', model, p, value, update);
      keys, slots, model := keys + [Child(p, value)], slots', AddCount(model, p, value, update);
    }

    /** The first symbol of a context. */
    method PlantTree(context: nat, value: Byte, update: Byte, ghost p: Key) returns (symbol: nat)
      requires Valid() && p in model && slots[p].index == context && update > 0
      requires context < nextSymbol < MAX_SYMBOLS && symbols[context].symbols == 0
      modifies this, symbols
      ensures |old(model[p].freq)| == 256
      ensures Valid() && model == AddCount(old(model), p, value, update)
      ensures old(model[p].freq[value]) == 0 && nextSymbol == old(nextSymbol) + 1
      ensures Child(p, value) in slots && slots[Child(p, value)].index == symbol
      ensures symbols[symbol].parent == 0
      ensures Extends(old(symbols[..]), old(slots), symbols[..], slots)
    {
      hide Represents, Spanned, OnlyTree, AddCount, Extends, Indexed;
      ghost var s0 := symbols[..];
      Facts(s0, keys, slots, model, p, value);
      symbol := Create(value, update);
      Write(context, symbols[context].(symbols := symbol - context));
      ghost var slots' := slots[Child(p, value) := Slot(symbol, 0, 256)];
      FinishRoot(s0, keys, slots, model, p, value, update, symbols[..], slots');
      OnlyExtends(s0, symbols[..], keys, slots, slots', p, value);
      assert symbols[..][symbol] == Fresh(value, update);
      RootGap(s0, slots, model[p].freq, p);
      SpannedCreated(slots, slots', model, p, value, update);
      keys, slots, model := keys + [Child(p, value)], slots', AddCount(model, p, value, update);
    }

    /** ENET_CONTEXT_ENCODE: the slice of value in the context, which counts it. */
    method EncodeContext(context: nat, value: Byte, update: Byte, minimum: nat, ghost p: Key)
      returns (symbol: nat, under: int, count: int)
      requires Valid() && p in model && slots[p].index == context
      requires |model[p].freq| == 256 && model[p].freq[value] + update <= 0xFF
      requires update > 0 && Weight(model[p].freq) + update < 0x1_0000
      requires nextSymbol < MAX_SYMBOLS
      modifies this, symbols
      ensures Valid() && model == AddCount(old(model), p, value, update)
      ensures under == Under(old(model[p].freq), value, minimum)
      ensures count == old(model[p].freq[value]) + minimum
      ensures nextSymbol == old(nextSymbol) + (if old(model[p].freq[value]) == 0 then 1 else 0)
      ensures Child(p, value) in slots && slots[Child(p, value)].index == symbol
      ensures old(model[p].freq[value]) == 0 ==> symbols[symbol].parent == 0
      ensures Extends(old(symbols[..]), old(slots), symbols[..], slots)
    {
      hide Represents, Spanned, Searching, OnlyTree, LinkOk, AddCount, Extends, Indexed, TreeOk;
      ghost var s0, f := symbols[..], model[p].freq;
      SearchStart(s0, keys, slots, model, p, value, update);
      Facts(s0, keys, slots, model, p, value);
      InKeys(keys, slots, p);
      under := value * minimum;
      count := minimum;
      if symbols[context].symbols == 0 {
        GapSum(s0, slots, f, p, context, 0, 256, value);
        symbol := PlantTree(context, value, update, p);
        return;
      }
      Arrive(s0, slots, f, p, context, symbols[context].symbols, 0, 256);
      var node: nat := context + symbols[context].symbols;
      ghost var lo, hi := 0, 256;
      while true
        invariant symbols.Length == MAX_SYMBOLS && node < symbols.Length && nextSymbol == |keys| == old(nextSymbol)
        invariant slots == old(slots) && model == old(model) && Spanned(slots, model)
        invariant Searching(s0, symbols[..], keys, slots, model, p, value, update, lo, hi)
        invariant AtNode(symbols[..], slots, f, p, node, symbols[node].value, lo, hi)
        invariant 0 <= lo <= value < hi <= 256
        invariant under == Sum(f, 0, lo) + value * minimum && count == minimum
        decreases hi - lo
      {
        ghost var s, c := symbols[..], symbols[node].value;
        NodeFacts(s0, s, keys, slots, model, p, value, update, node, c, lo, hi);
        if value < symbols[node].value {
          if symbols[node].left != 0 {
            SearchLeft(s0, s, keys, slots, model, p, value, update, node, c, lo, hi);
            Write(node, symbols[node].(under := symbols[node].under + update));
            node := node + symbols[node].left;
            hi := c;
            continue;
          }
          GapSum(s, slots, f, p, node, lo, c, value);
        } else if value > symbols[node].value {
          under := under + symbols[node].under;
          if symbols[node].right != 0 {
            SearchRight(s0, s, keys, slots, model, p, value, update, node, c, lo, hi);
            node := node + symbols[node].right;
            lo := c + 1;
            continue;
          }
          GapSum(s, slots, f, p, node, c + 1, hi, value);
        } else {
          count := count + symbols[node].count;
          under := under + symbols[node].under - symbols[node].count;
          CountNode(node, value, update, s0, p, lo, hi);
          return node, under, count;
        }
        symbol := GrowTree(node, value, update, s0, p, lo, hi);
        return;
      }
    }

    /** ENET_CONTEXT_DECODE: the value whose slice holds the code, which the context
        counts.  A context without a minimum fails, unchanged, on a code above its slices
        (ENET_CONTEXT_TRY_DECODE); the root creates the symbols it has not seen
        (ENET_CONTEXT_ROOT_DECODE). */
    method DecodeContext(context: nat, code: int, update: Byte, minimum: nat, ghost p: Key, ghost v: Byte)
      returns (found: bool, symbol: nat, value: Byte, under: int, count: int)
      requires Valid() && p in model && slots[p].index == context
      requires Sought(model[p].freq, v, minimum, code)
      requires model[p].freq[v] + update <= 0xFF
      requires update > 0 && Weight(model[p].freq) + 256 * minimum + update < 0x1_0000
      requires nextSymbol < MAX_SYMBOLS
      modifies this, symbols
      ensures Valid() && found == InSlice(old(model[p].freq), v, minimum, code)
      ensures !found ==> symbols[..] == old(symbols[..]) && nextSymbol == old(nextSymbol)
      ensures !found ==> keys == old(keys) && slots == old(slots) && model == old(model)
      ensures found ==> model == AddCount(old(model), p, v, update)
      ensures found ==> value == v && under == Under(old(model[p].freq), v, minimum)
      ensures found ==> count == old(model[p].freq[v]) + minimum
      ensures found ==> nextSymbol == old(nextSymbol) + (if old(model[p].freq[v]) == 0 then 1 else 0)
      ensures found ==> Child(p, v) in slots && slots[Child(p, v)].index == symbol
      ensures found && old(model[p].freq[v]) == 0 ==> symbols[symbol].parent == 0
      ensures Extends(old(symbols[..]), old(slots), symbols[..], slots)
    {
      hide Represents, Spanned, Searching, OnlyTree, LinkOk, AddCount, Indexed, TreeOk, Extends, Walking, NodeOk,
        Nested;
      ExtendsSelf(symbols[..], slots);
      ghost var s0, f := symbols[..], model[p].freq;
      SearchStart(s0, keys, slots, model, p, v, update);
      Facts(s0, keys, slots, model, p, v);
      InKeys(keys, slots, p);
      found, symbol, value, under, count := false, 0, 0, 0, minimum;
      if symbols[context].symbols == 0 {
        SumGap(s0, slots, f, p, context, 0, 256, v);
        if minimum == 0 {
          return;
        }
        GapCode(f, v, code, 0);
        value := code / minimum;
        under := code - code % minimum;
        symbol := PlantTree(context, value, update, p);
        return true, symbol, value, under, count;
      }
      Arrive(s0, slots, f, p, context, symbols[context].symbols, 0, 256);
      var node: nat := context + symbols[context].symbols;
      ghost var lo, hi := 0, 256;
      while true
        invariant symbols.Length == MAX_SYMBOLS && node < symbols.Length && nextSymbol == |keys| == old(nextSymbol)
        invariant keys == old(keys) && slots == old(slots) && model == old(model) && Spanned(slots, model)
        invariant Searching(s0, symbols[..], keys, slots, model, p, v, update, lo, hi)
        invariant AtNode(symbols[..], slots, f, p, node, symbols[node].value, lo, hi)
        invariant 0 <= lo <= v < hi <= 256
        invariant under == Sum(f, 0, lo) && count == minimum && !found
        invariant !InSlice(f, v, minimum, code) ==> symbols[..] == s0
        decreases hi - lo
      {
        ghost var s, c := symbols[..], symbols[node].value;
        NodeFacts(s0, s, keys, slots, model, p, v, update, node, c, lo, hi);
        var after := under + symbols[node].under + (symbols[node].value + 1) * minimum;
        var before := symbols[node].count + minimum;
        CodeOrders(f, v, minimum, code, c, after);
        if code >= after {
          under := under + symbols[node].under;
          if symbols[node].right != 0 {
            LinkSpan(s, slots, f, p, node, symbols[node].right, c as int + 1, hi);
            SearchRight(s0, s, keys, slots, model, p, v, update, node, c, lo, hi);
            node := node + symbols[node].right;
            lo := c + 1;
            continue;
          }
          if InSlice(f, v, minimum, code) {
            SumGap(s, slots, f, p, node, c as int + 1, hi, v);
          }
        } else if code < after - before {
          if symbols[node].left != 0 {
            SearchLeft(s0, s, keys, slots, model, p, v, update, node, c, lo, hi);
            Write(node, symbols[node].(under := symbols[node].under + update));
            node := node + symbols[node].left;
            hi := c;
            continue;
          }
          SumGap(s, slots, f, p, node, lo, c, v);
        } else {
          value := symbols[node].value;
          count := count + symbols[node].count;
          under := after - before;
          CountNode(node, v, update, s0, p, lo, hi);
          return true, node, value, under, count;
        }
        if minimum == 0 {
          return;
        }
        if code >= after {
          GapCode(f, v, code, c + 1);
          value := symbols[node].value + 1 + (code - after) / minimum;
          under := code - (code - after) % minimum;
        } else {
          GapCode(f, v, code, c);
          value := symbols[node].value - 1 - (after - before - code - 1) / minimum;
          under := code - (after - before - code - 1) % minimum;
        }
        symbol := GrowTree(node, value, update, s0, p, lo, hi);
        return true, symbol, value, under, count;
      }
    }

    /** enet_symbol_rescale: halves the counts of a subtree in place, recomputes its
        cached weights and returns its new total. */
    method RescaleTree(start: nat, ghost p: Key, ghost f: seq<nat>, ghost lo: int, ghost hi: int) returns (total: int)
      requires |f| == 256 && 0 <= lo < hi <= 256 && Weight(f) < 0x1_0000
      requires |keys| <= symbols.Length && Indexed(slots, keys)
      requires SpanOk(symbols[..], slots, f, p, lo, hi)
      requires start < symbols.Length && AtNode(symbols[..], slots, f, p, start, symbols[start].value, lo, hi)
      modifies symbols
      ensures SpanOk(symbols[..], slots, Halve(f), p, lo, hi)
      ensures total == Sum(Halve(f), lo, hi)
      ensures OnlySpan(old(symbols[..]), symbols[..], slots, p, lo, hi)
      decreases hi - lo, 1
    {
      hide Indexed, SpanOk, OnlySpan;
      ghost var s0 := symbols[..];
      total := 0;
      var symbol: nat := start;
      ghost var a := lo;
      OnlySpanRefl(s0, slots, p, lo, hi);
      SpanNone(s0, slots, Halve(f), p, lo);
      while true
        invariant symbol < symbols.Length && lo <= a < hi
        invariant SpanOk(symbols[..], slots, Halve(f), p, lo, a) && SpanOk(symbols[..], slots, f, p, a, hi)
        invariant AtNode(symbols[..], slots, f, p, symbol, symbols[symbol].value, a, hi)
        invariant OnlySpan(s0, symbols[..], slots, p, lo, hi)
        invariant total == Sum(Halve(f), lo, a)
        decreases hi - a
      {
        ghost var s, u: int := symbols[..], symbols[symbol].value;
        SpanNode(s, slots, f, p, symbol, symbols[symbol].value, a, hi);
        var under := RescaleNode(symbol, p, f, a, hi);
        SpanAdvance(s0, s, symbols[..], slots, f, p, lo, a, u + 1, hi);
        total := total + under;
        if symbols[symbol].right == 0 {
          HalvedGap(symbols[..], slots, f, p, symbol, u + 1, hi);
          SumSplit(Halve(f), lo, u + 1, hi);
          SpanGap(symbols[..], slots, f, p, symbol, lo, u + 1, hi);
          break;
        }
        Arrive(symbols[..], slots, f, p, symbol, symbols[symbol].right, u + 1, hi);
        LinkSpan(symbols[..], slots, f, p, symbol, symbols[symbol].right, u + 1, hi);
        symbol := symbol + symbols[symbol].right;
        a := u + 1;
      }
    }

    /** One turn of enet_symbol_rescale's loop: a node and the subtree to its left. */
    method RescaleNode(symbol: nat, ghost p: Key, ghost f: seq<nat>, ghost lo: int, ghost hi: int) returns (under: int)
      requires |f| == 256 && 0 <= lo < hi <= 256 && Weight(f) < 0x1_0000
      requires |keys| <= symbols.Length && Indexed(slots, keys)
      requires SpanOk(symbols[..], slots, f, p, lo, hi)
      requires symbol < symbols.Length && AtNode(symbols[..], slots, f, p, symbol, symbols[symbol].value, lo, hi)
      modifies symbols
      ensures lo <= symbols[symbol].value < hi && symbols[symbol].value == old(symbols[symbol].value)
      ensures symbols[symbol].right == old(symbols[symbol].right)
      ensures SpanOk(symbols[..], slots, Halve(f), p, lo, symbols[symbol].value + 1)
      ensures under == Sum(Halve(f), lo, symbols[symbol].value + 1)
      ensures OnlySpan(old(symbols[..]), symbols[..], slots, p, lo, symbols[symbol].value + 1)
      ensures LinkOk(symbols[..], slots, f, p, symbol, symbols[symbol].right, symbols[symbol].value + 1, hi)
      decreases hi - lo, 0
    {
      hide Indexed, SpanOk, OnlySpan, LinkOk;
      ghost var s0, u := symbols[..], symbols[symbol].value;
      SpanNode(s0, slots, f, p, symbol, u, lo, hi);
      HalvedFits(f, lo, u);
      Write(symbol, symbols[symbol].(count := symbols[symbol].count - symbols[symbol].count / 2));
      Write(symbol, symbols[symbol].(under := symbols[symbol].count));
      ghost var s1 := symbols[..];
      assert s1 == s0[symbol := s0[symbol].(count := s1[symbol].count, under := s1[symbol].under)];
      WriteSpan(s0, keys, slots, p, u, s1[symbol].count, s1[symbol].under);
      SpanPart(s0, slots, f, p, lo, hi, lo, u);
      SpanSame(s0, s1, slots, f, p, lo, u, u, u as int + 1);
      LinkSame(s0, s1, slots, f, p, symbol, s0[symbol].left, lo, u, u, u as int + 1);
      RescaleLeft(symbol, p, f, lo, u);
      under := symbols[symbol].under;
      OnlySpanRefl(s0, slots, p, lo, u as int + 1);
      OnlySpanTrans(s0, s0, s1, slots, p, lo, u, u as int + 1, u as int + 1);
      OnlySpanTrans(s0, s1, symbols[..], slots, p, lo, lo, u as int + 1, u as int + 1);
      HalvedSpan(s0, symbols[..], slots, f, p, symbol, u, lo, hi);
      SpanJoin(symbols[..], slots, Halve(f), p, lo, u, u as int + 1);
      LinkSame(s0, symbols[..], slots, f, p, symbol, s0[symbol].right, u as int + 1, hi, lo, u as int + 1);
    }

    /** The recursive call for the left subtree, when there is one. */
    method RescaleLeft(symbol: nat, ghost p: Key, ghost f: seq<nat>, ghost lo: int, ghost u: Byte)
      requires |f| == 256 && 0 <= lo <= u && Weight(f) < 0x1_0000
      requires |keys| <= symbols.Length && Indexed(slots, keys)
      requires SpanOk(symbols[..], slots, f, p, lo, u)
      requires symbol < symbols.Length && Child(p, u) in slots && slots[Child(p, u)].index == symbol
      requires LinkOk(symbols[..], slots, f, p, symbol, symbols[symbol].left, lo, u)
      requires symbols[symbol].under + Sum(Halve(f), lo, u) < 0x1_0000
      modifies symbols
      ensures SpanOk(symbols[..], slots, Halve(f), p, lo, u)
      ensures OnlySpan(old(symbols[..]), symbols[..], slots, p, lo, u as int + 1)
      ensures symbols[symbol] == old(symbols[symbol]).(under := old(symbols[symbol].under) + Sum(Halve(f), lo, u))
      decreases u - lo, 2
    {
      hide Indexed, SpanOk, OnlySpan, LinkOk;
      ghost var s1 := symbols[..];
      if symbols[symbol].left != 0 {
        Arrive(s1, slots, f, p, symbol, symbols[symbol].left, lo, u);
        LinkSpan(s1, slots, f, p, symbol, symbols[symbol].left, lo, u);
        var sub := RescaleTree(symbol + symbols[symbol].left, p, f, lo, u);
        ghost var s2 := symbols[..];
        SpanOutside(s1, s2, slots, p, u, lo, u);
        Write(symbol, symbols[symbol].(under := symbols[symbol].under + sub));
        ghost var s3 := symbols[..];
        assert s3 == s2[symbol := s2[symbol].(count := s2[symbol].count, under := s3[symbol].under)];
        WriteSpan(s2, keys, slots, p, u, s2[symbol].count, s3[symbol].under);
        OnlySpanRefl(s1, slots, p, lo, u as int + 1);
        OnlySpanTrans(s1, s1, s2, slots, p, lo, lo, u, u as int + 1);
        OnlySpanTrans(s1, s2, s3, slots, p, lo, u, u as int + 1, u as int + 1);
        SpanSame(s2, s3, slots, Halve(f), p, lo, u, u, u as int + 1);
      } else {
        SpanNone(s1, slots, Halve(f), p, lo);
        SpanGap(s1, slots, f, p, symbol, lo, lo, u);
        HalvedGap(s1, slots, f, p, symbol, lo, u);
        OnlySpanRefl(s1, slots, p, lo, u as int + 1);
      }
    }

    ghost predicate ParentsLinked(waiting: set<Key>)
      reads this, symbols
    {
      Linked(symbols[..], slots, waiting)
    }

    /** The stores to a context's escapes and total. */
    method SetTotals(context: nat, escapes: U16, total: U16, ghost p: Key)
      requires Valid() && p in model && p in slots && slots[p].index == context < symbols.Length
      modifies this`model, symbols
      ensures Valid() && model == old(model)[p := old(model)[p].(escapes := escapes, total := total)]
      ensures Extends(old(symbols[..]), slots, symbols[..], slots)
      ensures symbols[context] == old(symbols[context]).(escapes := escapes, total := total)
    {
      hide Represents, Spanned, Extends;
      FieldsRepresent(symbols[..], keys, slots, model, p, escapes, total);
      FreqLength(symbols[..], keys, slots, model, p);
      SpannedKept(slots, model, p, model[p].(escapes := escapes, total := total));
      Write(context, symbols[context].(escapes := escapes, total := total));
      model := model[p := model[p].(escapes := escapes, total := total)];
    }

    /** ENET_CONTEXT_RESCALE. */
    method RescaleContext(context: nat, minimum: nat, ghost p: Key)
      requires Valid() && p in model && p in slots && slots[p].index == context < symbols.Length
      requires |model[p].freq| == 256 && Weight(model[p].freq) + model[p].escapes + 256 * minimum < 0x1_0000
      modifies this`model, symbols
      ensures Valid() && model == old(model)[p := Rescale(old(model)[p], minimum)]
      ensures Extends(old(symbols[..]), slots, symbols[..], slots)
    {
      hide Represents, Spanned, Extends, TreeOk, Indexed, LinkOk, SpanOk, OnlySpan, OnlyTree;
      ghost var s0, m, f := symbols[..], model, model[p].freq;
      Facts(s0, keys, slots, m, p, 0);
      TotalFields(s0, keys, slots, m, p);
      TreeSpan(s0, slots, f, p);
      var total := 0;
      if symbols[context].symbols != 0 {
        Arrive(s0, slots, f, p, context, symbols[context].symbols, 0, 256);
        total := RescaleTree(context + symbols[context].symbols, p, f, 0, 256);
      } else {
        SpanNone(s0, slots, Halve(f), p, 0);
        SpanGap(s0, slots, f, p, context, 0, 0, 256);
        HalvedGap(s0, slots, f, p, context, 0, 256);
        OnlySpanRefl(s0, slots, p, 0, 256);
      }
      ghost var s1 := symbols[..];
      HalvedRepresents(s0, s1, keys, slots, m, p);
      SpannedKept(slots, m, p, m[p].(freq := Halve(f)));
      model := m[p := m[p].(freq := Halve(f))];
      TotalFields(s1, keys, slots, model, p);
      HalvedWeight(f, total);
      SetTotals(context, symbols[context].escapes - symbols[context].escapes / 2,
                total + (symbols[context].escapes - symbols[context].escapes / 2) + 256 * minimum, p);
      ExtendsTrans(s0, s1, symbols[..], slots);
    }

    /** The additions to a context's escapes and total after it has counted v with
        `before` occurrences, and the rescale they may call for. */
    method Account(context: nat, before: int, minimum: nat, ghost p: Key, ghost c: Context, ghost v: Byte)
      requires Valid() && p in model && p in slots && slots[p].index == context < symbols.Length
      requires |c.freq| == 256 && ValidContext(p, c) && before == c.freq[v] && minimum == Minimum(p)
      requires model[p] == Added(c, v, Delta(p))
      modifies this`model, symbols
      ensures Valid() && model == old(model)[p := Update(p, c, v)]
      ensures Extends(old(symbols[..]), slots, symbols[..], slots)
    {
      hide Represents, Spanned, Extends, ValidContext;
      ghost var s0, m, d := symbols[..], model, Count(p, c, v);
      CountSum(p, c, v);
      RescaleRoom(p, c, v);
      TotalFields(s0, keys, slots, m, p);
      var escape := if minimum == 0 && before == 0 then SUBCONTEXT_ESCAPE_DELTA else 0;
      var delta := if minimum == 0 then SUBCONTEXT_SYMBOL_DELTA else SYMBOL_DELTA;
      SetTotals(context, symbols[context].escapes + escape, symbols[context].total + escape + delta, p);
      ghost var s1 := symbols[..];
      assert model[p] == d;
      if before + minimum > (if minimum == 0 then 0xFF - 2 * SUBCONTEXT_SYMBOL_DELTA
                             else 0xFF - 2 * SYMBOL_DELTA + SYMBOL_MINIMUM)
         || symbols[context].total > TOTAL_LIMIT {
        RescaleContext(context, minimum, p);
        ExtendsTrans(s0, s1, symbols[..], slots);
      }
      assert model == m[p := Update(p, c, v)];
    }

    /** * parent = symbol, when the pointer leads to the symbol of k. */
    method SetParent(symbol: nat, parent: U16, ghost k: Key, ghost waiting: set<Key>)
      requires Valid() && ParentsLinked(waiting)
      requires k in slots && k.Child? && slots[k].index == symbol < symbols.Length
      requires Suffix(k) in slots && slots[Suffix(k)].index == parent
      modifies symbols
      ensures Valid() && ParentsLinked(waiting - {k})
    {
      hide Represents, Spanned, Linked;
      ghost var s := symbols[..];
      KeysFit(s, keys, slots, model);
      LinkedStore(s, keys, slots, waiting, k, parent);
      ParentRepresents(s, keys, slots, model, symbol, parent);
      Write(symbol, symbols[symbol].(parent := parent));
    }
  }
}
