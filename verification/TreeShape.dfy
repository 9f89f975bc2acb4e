/** The symbol tables of the two ends of ENet's packet compressor (Externals/enet/compress.c): the
    elements come in different orders, and apart from that the tables are the same. */
module TreeShape {
  import opened IndexSets
  import opened RangeCoding
  import opened PpmModel
  import opened SymbolTable
  import opened SymbolSpans
  import opened SymbolArray
  import opened PpmStream
  import opened RangeCompressor

  /** Two offsets from corresponding elements lead nowhere, or to corresponding elements. */
  ghost predicate SameLink(slots: Slots, slots': Slots, from: nat, off: nat, from': nat, off': nat) {
    || off == 0 == off'
    || (off > 0 && off' > 0 &&
        exists k :: k in slots && k in slots' && slots[k].index == from + off && slots'[k].index == from' + off')
  }

  /** Element i of one table and element j of the other agree in every field, the links up to
      which element they lead to. */
  ghost predicate SameSymbol(a: Symbol, b: Symbol, slots: Slots, slots': Slots, i: nat, j: nat, k: Key)
    requires k in slots && k in slots'
  {
    && (k.Child? ==>
          && a.value == b.value == k.last && a.count == b.count && a.under == b.under
          && SameLink(slots, slots', i, a.left, j, b.left) && SameLink(slots, slots', i, a.right, j, b.right)
          && Suffix(k) in slots && Suffix(k) in slots'
          && a.parent == slots[Suffix(k)].index && b.parent == slots'[Suffix(k)].index)
    && a.escapes == b.escapes && a.total == b.total
    && SameLink(slots, slots', i, a.symbols, j, b.symbols)
  }

  /** The correspondence of elements that lie at the same key is a bijection of the live elements
      under which the tables are the same. */
  ghost predicate Isomorphic(s: seq<Symbol>, keys: seq<Key>, slots: Slots, s': seq<Symbol>, keys': seq<Key>,
                             slots': Slots) {
    && |keys| == |keys'| <= |s| && |keys| <= |s'| && slots.Keys == slots'.Keys
    && (forall i :: 0 <= i < |keys| ==> keys[i] in slots && slots[keys[i]].index == i)
    && (forall j :: 0 <= j < |keys'| ==> keys'[j] in slots' && slots'[keys'[j]].index == j)
    && forall k :: k in slots ==>
         && slots[k].index < |keys| && slots'[k].index < |keys'|
         && SameSymbol(s[slots[k].index], s'[slots'[k].index], slots, slots', slots[k].index, slots'[k].index, k)
  }

  /** Two values of one context with one span are one value: a subtree has one root. */
  lemma OneRoot(slots: Slots, m: Model, p: Key, u: Byte, w: Byte)
    requires Spanned(slots, m) && p in m && |m[p].freq| == 256 && m[p].freq[u] > 0 && m[p].freq[w] > 0
    requires forall x: Byte :: m[p].freq[x] > 0 ==> Child(p, x) in slots
    requires Nested(slots, m[p].freq, p)
    requires u in m[p].spans && w in m[p].spans && m[p].spans[u] == m[p].spans[w]
    requires m[p].spans[u].lo <= u < m[p].spans[u].hi && m[p].spans[u].lo <= w < m[p].spans[u].hi
    ensures u == w
  {
    assert SpannedAt(slots[Child(p, u)], m, p, u) && SpannedAt(slots[Child(p, w)], m, p, w);
  }

  /** Offsets for the same values lead to the same node. */
  lemma LinkSameShape(s: seq<Symbol>, slots: Slots, from: nat, off: nat, s': seq<Symbol>, slots': Slots, from': nat,
                      off': nat,
                      m: Model, p: Key, a: int, b: int)
    requires p in m && |m[p].freq| == 256 && 0 <= a && b <= 256
    requires LinkOk(s, slots, m[p].freq, p, from, off, a, b) && LinkOk(s', slots', m[p].freq, p, from', off', a, b)
    requires Spanned(slots, m) && Spanned(slots', m)
    requires forall x: Byte :: m[p].freq[x] > 0 ==> Child(p, x) in slots && Child(p, x) in slots'
    requires Nested(slots, m[p].freq, p)
    ensures SameLink(slots, slots', from, off, from', off')
  {
    if off != 0 && off' != 0 {
      var u, w := s[from + off].value, s'[from' + off'].value;
      assert SpannedAt(slots[Child(p, u)], m, p, u) && SpannedAt(slots'[Child(p, w)], m, p, w);
      hide Nested;
      OneRoot(slots, m, p, u, w);
      assert Child(p, u) in slots && Child(p, u) in slots';
    }
  }

  /** Two tables that represent one model with all parents linked are the same up to the order of
      their elements. */
  lemma SameModelSameShape(s: seq<Symbol>, keys: seq<Key>, slots: Slots, s': seq<Symbol>, keys': seq<Key>,
                           slots': Slots, m: Model)
    requires Represents(s, keys, slots, m) && Represents(s', keys', slots', m)
    requires Spanned(slots, m) && Spanned(slots', m) && Linked(s, slots, {}) && Linked(s', slots', {})
    ensures Isomorphic(s, keys, slots, s', keys', slots')
  {
    hide SameSymbol, Linked, TreeOk, Spanned;
    Onto(s, keys, slots, m);
    Onto(s', keys', slots', m);
    forall k | k in slots
      ensures slots[k].index < |keys| && slots'[k].index < |keys'|
      ensures SameSymbol(s[slots[k].index], s'[slots'[k].index], slots, slots', slots[k].index, slots'[k].index, k)
    {
      SameAt(s, keys, slots, s', keys', slots', m, k);
    }
  }

  /** Every live element is the symbol of some key. */
  lemma Onto(s: seq<Symbol>, keys: seq<Key>, slots: Slots, m: Model)
    requires Represents(s, keys, slots, m)
    ensures |keys| == |m| <= |s| && slots.Keys == m.Keys
    ensures forall k :: k in slots ==> slots[k].index < |keys|
    ensures forall i :: 0 <= i < |keys| ==> keys[i] in slots && slots[keys[i]].index == i
  {
    hide TreeOk;
    var indices := set k | k in slots :: slots[k].index;
    Counts(slots, keys, slots.Keys);
    Pigeons(indices, |keys|);
    forall i | 0 <= i < |keys|
      ensures keys[i] in slots && slots[keys[i]].index == i
    {
      assert i in indices;
    }
  }

  /** Distinct keys lie at distinct elements. */
  lemma {:induction false} Counts(slots: Slots, keys: seq<Key>, some: set<Key>)
    requires Indexed(slots, keys) && some <= slots.Keys
    ensures |set k | k in some :: slots[k].index| == |some|
    decreases some
  {
    if x :| x in some {
      var rest := some - {x};
      Counts(slots, keys, rest);
      var few := set k | k in rest :: slots[k].index;
      assert slots[x].index !in few;
      assert (set k | k in some :: slots[k].index) == few + {slots[x].index};
    }
  }

  lemma SameAt(s: seq<Symbol>, keys: seq<Key>, slots: Slots, s': seq<Symbol>, keys': seq<Key>, slots': Slots, m: Model,
               k: Key)
    requires Represents(s, keys, slots, m) && Represents(s', keys', slots', m) && k in slots && k in slots'
    requires Spanned(slots, m) && Spanned(slots', m) && Linked(s, slots, {}) && Linked(s', slots', {})
    ensures slots[k].index < |keys| <= |s| && slots'[k].index < |keys'| <= |s'|
    ensures SameSymbol(s[slots[k].index], s'[slots'[k].index], slots, slots', slots[k].index, slots'[k].index, k)
  {
    hide LinkOk, Spanned, Nested, SameLink, Linked, NodeOk, Represents;
    var i, j := slots[k].index, slots'[k].index;
    KeyAt(s, keys, slots, m, k);
    TreeAt(s, keys, slots, m, k);
    TreeAt(s', keys', slots', m, k);
    LinkSameShape(s, slots, i, s[i].symbols, s', slots', j, s'[j].symbols, m, k, 0, 256);
    if k.Child? {
      var p, u := k.parent, k.last;
      SpansAgree(slots, slots', m, p, u);
      TreeAt(s, keys, slots, m, p);
      TreeAt(s', keys', slots', m, p);
      NodeAt(s, slots, m[p].freq, p, u);
      NodeAt(s', slots', m[p].freq, p, u);
      LinkSameShape(s, slots, i, s[i].left, s', slots', j, s'[j].left, m, p, slots[k].lo, u);
      LinkSameShape(s, slots, i, s[i].right, s', slots', j, s'[j].right, m, p, u as int + 1, slots[k].hi);
      LinkedTo(s, slots, k);
      LinkedTo(s', slots', k);
    }
  }

  lemma NodeAt(s: seq<Symbol>, slots: Slots, f: seq<nat>, p: Key, u: Byte)
    requires |f| == 256 && NodeOk(s, slots, f, p, u, 0)
    ensures Child(p, u) in slots && slots[Child(p, u)].index < |s|
    ensures var t := slots[Child(p, u)];
      && 0 <= t.lo <= u < t.hi <= 256
      && s[t.index].value == u && s[t.index].count == f[u] && s[t.index].under == Sum(f, t.lo, u + 1)
      && LinkOk(s, slots, f, p, t.index, s[t.index].left, t.lo, u)
      && LinkOk(s, slots, f, p, t.index, s[t.index].right, u + 1, t.hi)
  {
    hide LinkOk;
  }

  lemma LinkedTo(s: seq<Symbol>, slots: Slots, k: Key)
    requires Linked(s, slots, {}) && k in slots && k.Child?
    ensures LinkedAt(s, slots, k)
  {
  }

  lemma SpansAgree(slots: Slots, slots': Slots, m: Model, p: Key, u: Byte)
    requires Spanned(slots, m) && Spanned(slots', m) && Child(p, u) in slots && Child(p, u) in slots'
    ensures p in m && |m[p].freq| == 256 && m[p].freq[u] > 0
    ensures slots[Child(p, u)].lo == slots'[Child(p, u)].lo && slots[Child(p, u)].hi == slots'[Child(p, u)].hi
  {
    assert SpannedAt(slots[Child(p, u)], m, p, u) && SpannedAt(slots'[Child(p, u)], m, p, u);
  }

  /** What a table says about one context. */
  lemma TreeAt(s: seq<Symbol>, keys: seq<Key>, slots: Slots, m: Model, p: Key)
    requires Represents(s, keys, slots, m) && p in m
    ensures p in slots && slots[p].index < |keys| <= |s| && |m[p].freq| == 256
    ensures s[slots[p].index].escapes == m[p].escapes && s[slots[p].index].total == m[p].total
    ensures LinkOk(s, slots, m[p].freq, p, slots[p].index, s[slots[p].index].symbols, 0, 256)
    ensures forall u: Byte :: m[p].freq[u] > 0 ==> Child(p, u) in slots && NodeOk(s, slots, m[p].freq, p, u, 0)
    ensures Nested(slots, m[p].freq, p)
  {
    hide LinkOk, NodeOk, Nested;
  }

  /** After every byte of every message the compressor's table and the decompressor's are the same
      up to the order of their elements: same trees, counts, escapes, totals and parent chains, the
      same number of symbols, the same order, and the predicted contexts correspond. */
  lemma Synchronised(writer: ENetRangeCoder, reader: ENetRangeCoder, msg: seq<Byte>, i: nat,
                     predicted: nat, order: nat, predicted': nat, order': nat)
    requires i <= |msg|
    requires InStep(writer, EncodeAll(msg[..i]).context, predicted, order, EncodeAll(msg[..i]))
    requires InStep(reader, EncodeAll(msg[..i]).context, predicted', order', EncodeAll(msg[..i]))
    ensures Isomorphic(writer.symbols[..], writer.keys, writer.slots, reader.symbols[..], reader.keys, reader.slots)
    ensures writer.nextSymbol == reader.nextSymbol && order == order'
    ensures predicted < |writer.keys| && predicted' < |reader.keys| && writer.keys[predicted] == reader.keys[predicted']
  {
    hide Represents, Spanned, Linked, EncodeAll, SameSymbol;
    var m := writer.model;
    SameModelSameShape(writer.symbols[..], writer.keys, writer.slots, reader.symbols[..], reader.keys, reader.slots, m);
    Onto(writer.symbols[..], writer.keys, writer.slots, m);
    Onto(reader.symbols[..], reader.keys, reader.slots, m);
    KeyAt(writer.symbols[..], writer.keys, writer.slots, m, EncodeAll(msg[..i]).context);
    KeyAt(reader.symbols[..], reader.keys, reader.slots, m, EncodeAll(msg[..i]).context);
  }

  lemma KeyAt(s: seq<Symbol>, keys: seq<Key>, slots: Slots, m: Model, k: Key)
    requires Represents(s, keys, slots, m) && k in slots
    ensures k in m && slots[k].index < |keys| && keys[slots[k].index] == k
  {
    hide TreeOk;
  }
}
