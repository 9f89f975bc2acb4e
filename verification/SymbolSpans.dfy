/** The shape of the trees in ENet's symbol array (Externals/enet/compress.c): the span of a node is
    the gap its value filled when it came, so it depends on what the context had seen, and on
    nothing else. */
module SymbolSpans {
  import opened RangeCoding
  import opened PpmModel
  import opened SymbolTable

  /** Every symbol has the span the model gives it. */
  ghost predicate Spanned(slots: Slots, m: Model) {
    forall p: Key, v: Byte :: Child(p, v) in slots ==> SpannedAt(slots[Child(p, v)], m, p, v)
  }

  ghost predicate SpannedAt(t: Slot, m: Model, p: Key, v: Byte) {
    && p in m && |m[p].freq| == 256 && m[p].freq[v] > 0
    && v in m[p].spans && m[p].spans[v] == Span(t.lo, t.hi) && Edged(m[p].freq, Span(t.lo, t.hi))
  }

  lemma SpannedReset(slots: Slots)
    requires slots.Keys == {Root}
    ensures Spanned(slots, FreshModel)
  {
  }

  /** Counting and rescaling change no span as long as they forget no value. */
  lemma SpannedKept(slots: Slots, m: Model, p: Key, c: Context)
    requires Spanned(slots, m) && p in m && |m[p].freq| == |c.freq| == 256 && c.spans == m[p].spans
    requires forall w: Byte :: m[p].freq[w] > 0 ==> c.freq[w] > 0
    ensures Spanned(slots, m[p := c])
  {
    forall q: Key, v: Byte | Child(q, v) in slots
      ensures SpannedAt(slots[Child(q, v)], m[p := c], q, v)
    {
      assert SpannedAt(slots[Child(q, v)], m, q, v);
    }
  }

  lemma SpannedCounted(slots: Slots, m: Model, p: Key, v: Byte, update: nat)
    requires Spanned(slots, m) && p in m && |m[p].freq| == 256 && m[p].freq[v] > 0 && Child(p, v) in m
    ensures Spanned(slots, AddCount(m, p, v, update))
  {
    SpannedKept(slots, m, p, Added(m[p], v, update));
  }

  /** A new symbol has the gap it fills. */
  lemma SpannedCreated(slots: Slots, slots': Slots, m: Model, p: Key, v: Byte, update: nat)
    requires Spanned(slots, m) && p in m && |m[p].freq| == 256 && m[p].freq[v] == 0 && update > 0 && Child(p, v) !in m
    requires Child(p, v) in slots' && slots' == slots[Child(p, v) := slots'[Child(p, v)]]
    requires var t := slots'[Child(p, v)];
      Edged(m[p].freq, Span(t.lo, t.hi)) && t.lo <= v < t.hi && forall u :: t.lo <= u < t.hi ==> m[p].freq[u] == 0
    ensures Spanned(slots', AddCount(m, p, v, update))
  {
    var c, m' := Added(m[p], v, update), AddCount(m, p, v, update);
    var t := slots'[Child(p, v)];
    GapIs(m[p].freq, v, Span(t.lo, t.hi));
    forall q: Key, w: Byte | Child(q, w) in slots'
      ensures SpannedAt(slots'[Child(q, w)], m', q, w)
    {
      assert Depth(Child(p, v)) == Depth(p) + 1;
      if !(q == p && w == v) { assert SpannedAt(slots[Child(q, w)], m, q, w); }
    }
  }

  /** The gap below a node on the side that has no subtree. */
  lemma LeafGap(slots: Slots, m: Model, p: Key, c: Byte, v: Byte, node: nat, lo: int, hi: int)
    requires Spanned(slots, m) && Child(p, c) in slots && slots[Child(p, c)] == Slot(node, lo, hi) && lo <= v < hi
      && v != c
    ensures p in m && |m[p].freq| == 256
    ensures Edged(m[p].freq, if v < c then Span(lo, c) else Span(c as int + 1, hi))
  {
    assert SpannedAt(slots[Child(p, c)], m, p, c);
  }
}
