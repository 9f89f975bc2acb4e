/** enet_range_coder_compress and enet_range_coder_decompress (Externals/enet/compress.c):
    the symbol array and the range coder together, proved against PpmStream, so that
    decompressing what was compressed gives back the message. */
module RangeCompressor {
  import opened RangeCoding
  import opened PpmModel
  import opened SymbolTable
  import opened SymbolSpans
  import opened SymbolArray
  import opened PpmStream

  /** Where the pointer `parent` leads: the variable `predicted` or a symbol's field. */
  datatype Place = Predicted | ParentOf(symbol: nat)

  /** The pointer leads to the symbol of `pending`, the only one without its parent. */
  ghost predicate Points(table: ENetRangeCoder, parent: Place, pending: Key, next: Key)
    reads table
  {
    if parent.Predicted? then pending == Root
    else
      && pending.Child? && Suffix(pending) == next
      && pending in table.slots && table.slots[pending].index == parent.symbol
  }

  function Waiting(pending: Key): set<Key> {
    if pending.Root? then {} else {pending}
  }

  lemma RootIndex(s: seq<Symbol>, keys: seq<Key>, slots: Slots, m: Model, k: Key)
    requires Represents(s, keys, slots, m) && k in m
    ensures k in slots && slots[k].index < |keys| <= |s|
    ensures slots[k].index == 0 <==> k == Root
  {
    KeysFit(s, keys, slots, m);
    hide Represents, Spanned;
    assert keys[slots[k].index] == k;
    assert keys[slots[Root].index] == Root;
  }

  lemma ParentIs(s: seq<Symbol>, slots: Slots, waiting: set<Key>, k: Key)
    requires Linked(s, slots, waiting) && k in slots && k.Child? && k !in waiting
    ensures LinkedAt(s, slots, k)
  {
  }

  lemma ExtendsKey(s: seq<Symbol>, slots: Slots, s': seq<Symbol>, slots': Slots, k: Key)
    requires Extends(s, slots, s', slots') && k in slots && slots[k].index < |s|
    ensures k in slots' && slots'[k] == slots[k]
  {
  }

  /** ENET_CONTEXT_ENCODE followed by the store through `parent`. */
  method Enter(table: ENetRangeCoder, context: nat, value: Byte, minimum: nat, parent: Place, ghost k: Key,
               ghost pending: Key)
    returns (symbol: nat, under: int, count: int)
    requires table.Valid() && table.ParentsLinked(Waiting(pending)) && Points(table, parent, pending, Child(k, value))
    requires k in table.model && table.slots[k].index == context && minimum == Minimum(k)
    requires ValidContext(k, table.model[k]) && table.nextSymbol < MAX_SYMBOLS
    modifies table, table.symbols
    ensures table.Valid() && table.model == AddCount(old(table.model), k, value, Delta(k))
    ensures under == Under(old(table.model[k].freq), value, minimum)
    ensures count == old(table.model[k].freq[value]) + minimum
    ensures table.nextSymbol == old(table.nextSymbol) + (if old(table.model[k].freq[value]) == 0 then 1 else 0)
    ensures Child(k, value) in table.slots && table.slots[Child(k, value)].index == symbol
    ensures table.ParentsLinked(Waiting(Pending(old(table.model), k, value)))
    ensures forall j :: j in old(table.slots) ==> j in table.slots && table.slots[j] == old(table.slots[j])
  {
    hide Represents, Spanned, Extends, ValidContext, Linked, AddCount, Indexed;
    ghost var s0, slots0, m0, c := table.symbols[..], table.slots, table.model, Child(k, value);
    EnterRoom(k, m0[k], value);
    KeysFit(s0, table.keys, slots0, m0);
    SlotsFit(s0, table.keys, slots0);
    Facts(s0, table.keys, slots0, m0, k, value);
    assert Delta(k) == if minimum == 0 then SUBCONTEXT_SYMBOL_DELTA else SYMBOL_DELTA;
    symbol, under, count := table.EncodeContext(context, value,
                                                if minimum == 0 then SUBCONTEXT_SYMBOL_DELTA
                                                  else SYMBOL_DELTA, minimum, k);
    ghost var s1 := table.symbols[..];
    KeysFit(s1, table.keys, table.slots, table.model);
    InKeys(table.keys, table.slots, c);
    CountedLinks(s0, slots0, m0, s1, table.keys, table.slots, k, value, Waiting(pending), symbol);
    if parent.ParentOf? {
      ExtendsKey(s0, slots0, s1, table.slots, pending);
      table.SetParent(parent.symbol, symbol, pending, Waiting(pending) + Waiting(Pending(m0, k, value)));
      assert Waiting(pending) + Waiting(Pending(m0, k, value)) - {pending} == Waiting(Pending(m0, k, value));
    } else {
      assert Waiting(pending) + Waiting(Pending(m0, k, value)) == Waiting(Pending(m0, k, value));
    }
  }

  lemma SlotsFit(s: seq<Symbol>, keys: seq<Key>, slots: Slots)
    requires Indexed(slots, keys) && |keys| <= |s|
    ensures forall j :: j in slots ==> slots[j].index < |s|
  {
  }

  lemma EnterRoom(k: Key, c: Context, v: Byte)
    requires ValidContext(k, c)
    ensures |c.freq| == 256 && c.freq[v] + Delta(k) <= 0xFF && Weight(c.freq) + 256 * Minimum(k) + Delta(k) < 0x1_0000
  {
  }

  /** After a context counted v, only a new symbol of a subcontext lacks its parent. */
  lemma CountedLinks(s0: seq<Symbol>, slots0: Slots, m0: Model, s: seq<Symbol>, keys: seq<Key>, slots: Slots, k: Key,
                     v: Byte, waiting: set<Key>, symbol: nat)
    requires k in m0 && |m0[k].freq| == 256 && slots0.Keys == m0.Keys && (Child(k, v) in slots0 <==> m0[k].freq[v] > 0)
    requires Represents(s, keys, slots, AddCount(m0, k, v, Delta(k))) && |s| == MAX_SYMBOLS
    requires Extends(s0, slots0, s, slots) && Linked(s0, slots0, waiting)
      && (forall j :: j in slots0 ==> slots0[j].index < |s0|)
    requires Child(k, v) in slots && slots[Child(k, v)].index == symbol
    requires m0[k].freq[v] == 0 ==> symbol < |s| && s[symbol].parent == 0
    ensures Linked(s, slots, waiting + Waiting(Pending(m0, k, v)))
    ensures symbol < MAX_SYMBOLS
    ensures forall j :: j in slots0 ==> j in slots && slots[j] == slots0[j]
  {
    hide Represents, Spanned, Linked, LinkedAt, Extends, Indexed;
    PutSize(m0, k, Added(m0[k], v, Delta(k)), v);
    KeysFit(s, keys, slots, AddCount(m0, k, v, Delta(k)));
    InKeys(keys, slots, Child(k, v));
    LinkedExtends(s0, slots0, s, slots, waiting, Child(k, v));
    assert waiting + {} == waiting;
    if m0[k].freq[v] == 0 && k.Root? {
      RootChildLinked(s, slots, v);
      LinkedDone(s, slots, waiting + {Child(k, v)}, Child(k, v));
      LinkedMore(s, slots, waiting + {Child(k, v)} - {Child(k, v)}, waiting);
    }
    ExtendsAll(s0, slots0, s, slots);
  }

  lemma RootChildLinked(s: seq<Symbol>, slots: Slots, v: Byte)
    requires Child(Root, v) in slots && slots[Child(Root, v)].index < |s| && s[slots[Child(Root, v)].index].parent == 0
    requires Root in slots && slots[Root].index == 0
    ensures LinkedAt(s, slots, Child(Root, v))
  {
  }

  lemma LinkedMore(s: seq<Symbol>, slots: Slots, few: set<Key>, more: set<Key>)
    requires Linked(s, slots, few) && few <= more
    ensures Linked(s, slots, more)
  {
    forall k | k in slots && k.Child? && k !in more
      ensures LinkedAt(s, slots, k)
    {
    }
  }

  lemma ExtendsAll(s: seq<Symbol>, slots: Slots, s': seq<Symbol>, slots': Slots)
    requires Extends(s, slots, s', slots') && forall j :: j in slots ==> slots[j].index < |s|
    ensures forall j :: j in slots ==> j in slots' && slots'[j] == slots[j]
  {
  }

  lemma OneSlice(c: Coder, e: Slice)
    requires Ready(c) && ValidSlice(e)
    ensures EncodeSlices(c, [e]) == EncodeSlice(c, e)
  {
    assert [e][1..] == [];
    var sent := EncodeSlice(c, e).1;
    assert sent + [] == sent;
  }

  lemma SlicesJoin(c: Coder, here: seq<Slice>, rest: seq<Slice>)
    requires Ready(c) && ValidSlices(here) && ValidSlices(rest) && |here| <= 1
    ensures ValidSlices(here + rest)
    ensures var first := EncodeSlices(c, here);
            var second := EncodeSlices(first.0, rest);
            EncodeSlices(c, here + rest) == (second.0, first.1 + second.1)
  {
    hide EncodeSlice, Ready, ValidSlice;
    if here == [] {
      assert here + rest == rest;
      var sent := EncodeSlices(c, rest).1;
      assert [] + sent == sent;
    } else {
      OneSlice(c, here[0]);
      assert here == [here[0]];
      assert (here + rest)[1..] == rest;
    }
  }

  /** The rest of the walk, after context k has escaped. */
  lemma EscapeStep(m: Model, k: Key, v: Byte, c: Coder)
    requires ContextsValid(m) && Chain(m, k) && Ready(c) && k.Child? && m[k].freq[v] == 0
    ensures ContextsValid(Touch(m, k, v)) && Chain(Touch(m, k, v), Suffix(k))
    ensures Learn(m, k, v) == Learn(Touch(m, k, v), Suffix(k), v)
    ensures var first := EncodeSlices(c, ContextSlices(k, m[k], v));
            var second := EncodeSlices(first.0, Slices(Touch(m, k, v), Suffix(k), v));
            EncodeSlices(c, Slices(m, k, v)) == (second.0, first.1 + second.1)
  {
    TouchKeeps(m, k, v, Suffix(k));
    TargetStable(m, Suffix(k), k, v);
    SlicesJoin(c, ContextSlices(k, m[k], v), Slices(m, Suffix(k), v));
  }

  /** The walk ends at a context that knows v, or at the root. */
  lemma LastStep(m: Model, k: Key, v: Byte)
    requires ContextsValid(m) && Chain(m, k) && (k.Root? || m[k].freq[v] > 0)
    ensures Learn(m, k, v) == Touch(m, k, v)
    ensures Slices(m, k, v) == ContextSlices(k, m[k], v)
  {
  }

  lemma Learned(m: Model, k: Key, v: Byte)
    requires k in m && |m[k].freq| == 256
    ensures k in AddCount(m, k, v, Delta(k)) && AddCount(m, k, v, Delta(k))[k] == Added(m[k], v, Delta(k))
    ensures AddCount(m, k, v, Delta(k))[k := Update(k, m[k], v)] == Touch(m, k, v)
  {
    PutAt(m, k, Added(m[k], v, Delta(k)), v, k);
    AddedUpdate(m, k, v, Update(k, m[k], v));
  }

  /** One context on the way: its symbol, its slice or its escape, its statistics. */
  method CodeHere(table: ENetRangeCoder, encoder: RangeEncoder, context: nat, value: Byte, minimum: nat, parent: Place,
                  ghost k: Key, ghost pending: Key)
    returns (ok: bool, symbol: nat, seen: bool)
    requires table.Valid() && table.ParentsLinked(Waiting(pending)) && Points(table, parent, pending, Child(k, value))
    requires k in table.model && table.slots[k].index == context && minimum == Minimum(k)
    requires ValidContext(k, table.model[k]) && table.nextSymbol < MAX_SYMBOLS
    requires encoder.Valid() && Ready(encoder.Registers())
    modifies table, table.symbols, encoder, encoder.out
    ensures encoder.Valid()
    ensures ok
      == (|old(encoder.Sent())| + |EncodeSlices(old(encoder.Registers()),
                                                ContextSlices(k, old(table.model[k]), value)).1|
                   <= encoder.out.Length)
    ensures ok ==> table.Valid() && table.model == Touch(old(table.model), k, value)
    ensures ok ==> table.ParentsLinked(Waiting(Pending(old(table.model), k, value)))
    ensures ok ==> Child(k, value) in table.slots && table.slots[Child(k, value)].index == symbol
    ensures ok ==> seen == (k.Root? || old(table.model[k].freq[value]) > 0)
    ensures ok ==> table.nextSymbol == old(table.nextSymbol) + (if old(table.model[k].freq[value]) == 0 then 1 else 0)
    ensures ok ==>
      encoder.Registers() == EncodeSlices(old(encoder.Registers()), ContextSlices(k, old(table.model[k]), value)).0
    ensures ok ==> encoder.Sent() ==
                   old(encoder.Sent()) + EncodeSlices(old(encoder.Registers()),
                                                      ContextSlices(k, old(table.model[k]), value)).1
    ensures ok ==> forall j :: j in old(table.slots) ==> j in table.slots && table.slots[j] == old(table.slots[j])
  {
    hide Represents, Spanned, Linked, AddCount, EncodeSlice, Extends;
    ghost var m, c := table.model, table.model[k];
    KeysFit(table.symbols[..], table.keys, table.slots, m);
    ghost var here := ContextSlices(k, c, value);
    assert here != [] ==> ValidSlice(here[0]);
    var under, count;
    symbol, under, count := Enter(table, context, value, minimum, parent, k, pending);
    Learned(m, k, value);
    ghost var s1 := table.symbols[..];
    KeysFit(s1, table.keys, table.slots, table.model);
    TotalFields(s1, table.keys, table.slots, table.model, k);
    var escapes, total := table.symbols[context].escapes, table.symbols[context].total;
    ok, seen := true, count > 0;
    if seen {
      assert here == [Slice(escapes + under, count, total)];
      OneSlice(encoder.Registers(), here[0]);
      ok := encoder.Encode(Slice(escapes + under, count, total));
    } else if 0 < escapes < total {
      assert here == [Slice(0, escapes, total)];
      OneSlice(encoder.Registers(), here[0]);
      ok := encoder.Encode(Slice(0, escapes, total));
    }
    if !ok {
      return;
    }
    table.Account(context, count - minimum, minimum, k, c, value);
    ExtendsLinked(s1, table.symbols[..], table.keys, table.slots, Waiting(Pending(m, k, value)));
  }

  lemma ExtendsLinked(s: seq<Symbol>, s': seq<Symbol>, keys: seq<Key>, slots: Slots, waiting: set<Key>)
    requires Linked(s, slots, waiting) && Extends(s, slots, s', slots) && Indexed(slots, keys) && |keys| <= |s|
      && Root in slots
    ensures Linked(s', slots, waiting)
  {
    hide Linked, Extends;
    SlotsFit(s, keys, slots);
    LinkedExtends(s, slots, s', slots, waiting, Root);
  }

  /** enet_range_coder_compress for one byte: every context from the predicted one down
      to the first that has seen it codes an escape or the symbol, and learns. */
  method CompressByte(table: ENetRangeCoder, encoder: RangeEncoder, value: Byte, predicted: nat, ghost context: Key)
    returns (ok: bool, symbol: nat)
    requires table.Valid() && table.ParentsLinked({}) && Between(table.model, context)
    requires context in table.slots && table.slots[context].index == predicted
    requires encoder.Valid() && Ready(encoder.Registers())
    modifies table, table.symbols, encoder, encoder.out
    ensures ContextsValid(old(table.model)) && Chain(old(table.model), context)
    ensures ok
      == (|old(encoder.Sent())| + |EncodeSlices(old(encoder.Registers()), Slices(old(table.model), context, value)).1|
                   <= encoder.out.Length)
    ensures ok ==> table.Valid() && table.ParentsLinked({}) && encoder.Valid()
    ensures ok ==> table.model == Learn(old(table.model), context, value)
    ensures ok ==>
      encoder.Registers() == EncodeSlices(old(encoder.Registers()), Slices(old(table.model), context, value)).0
    ensures ok ==> encoder.Sent() ==
                   old(encoder.Sent()) + EncodeSlices(old(encoder.Registers()),
                                                      Slices(old(table.model), context, value)).1
    ensures ok ==> Child(context, value) in table.slots && table.slots[Child(context, value)].index == symbol
  {
    hide Represents, Spanned, Linked, ContextsValid, ValidContext, ValidModel, Learn, Slices, EncodeSlices, ValidSlices,
      Touch, ContextSlices;
    BetweenFacts(table.model, context);
    ghost var m0, sent0 := table.model, encoder.Sent();
    ghost var target := EncodeSlices(encoder.Registers(), Slices(m0, context, value));
    ghost var k, pending := context, Root;
    KeysFit(table.symbols[..], table.keys, table.slots, m0);
    symbol := 0;
    var subcontext, parent := predicted, Predicted;
    while subcontext != 0
      invariant table.Valid() && table.ParentsLinked(Waiting(pending))
        && Points(table, parent, pending, Child(k, value))
      invariant k in table.slots && table.slots[k].index == subcontext && k in table.model
      invariant ContextsValid(table.model) && Chain(table.model, k) && Depth(k) <= Depth(context)
      invariant encoder.Valid() && Ready(encoder.Registers())
      invariant EncodeSlices(encoder.Registers(), Slices(table.model, k, value)).0 == target.0
      invariant encoder.Sent() + EncodeSlices(encoder.Registers(), Slices(table.model, k, value)).1 == sent0 + target.1
      invariant Learn(table.model, k, value) == Learn(m0, context, value)
      invariant table.nextSymbol + Depth(k) <= |m0| + Depth(context)
      invariant if parent.Predicted? then k == context
                else Child(context, value) in table.slots && table.slots[Child(context, value)].index == symbol
      decreases Depth(k)
    {
      RootIndex(table.symbols[..], table.keys, table.slots, table.model, k);
      ContextOf(table.model, k);
      ghost var m, c := table.model, encoder.Registers();
      if m[k].freq[value] == 0 {
        EscapeStep(m, k, value, c);
      } else {
        LastStep(m, k, value);
      }
      var here, seen;
      ok, here, seen := CodeHere(table, encoder, subcontext, value, 0, parent, k, pending);
      if !ok {
        return;
      }
      if parent.Predicted? {
        symbol := here;
      }
      if seen {
        return;
      }
      pending := Child(k, value);
      parent := ParentOf(here);
      assert Depth(pending) == Depth(k) + 1;
      ParentIs(table.symbols[..], table.slots, Waiting(pending), k);
      subcontext := table.symbols[subcontext].parent;
      k := Suffix(k);
    }
    RootIndex(table.symbols[..], table.keys, table.slots, table.model, k);
    ContextOf(table.model, k);
    LastStep(table.model, k, value);
    var here, seen;
    ok, here, seen := CodeHere(table, encoder, subcontext, value, SYMBOL_MINIMUM, parent, k, pending);
    if ok && parent.Predicted? {
      symbol := here;
    }
  }

  lemma ContextOf(m: Model, k: Key)
    requires ContextsValid(m) && k in m
    ensures ValidContext(k, m[k]) && |m[k].freq| == 256
  {
  }

  /** nextInput, and ENET_RANGE_CODER_FREE_SYMBOLS. */
  method Advance(table: ENetRangeCoder, symbol: nat, order: nat, ghost m: Model, ghost context: Key, ghost value: Byte)
    returns (predicted: nat, nextOrder: nat)
    requires table.Valid() && table.ParentsLinked({}) && Between(m, context) && order == Depth(context)
    requires ContextsValid(m) && Chain(m, context) && table.model == Learn(m, context, value)
    requires Child(context, value) in table.slots && table.slots[Child(context, value)].index == symbol
    modifies table, table.symbols
    ensures table.Valid() && table.ParentsLinked({}) && table.model == NextModel(m, context, value)
    ensures NextContext(m, context, value) in table.slots
    ensures table.slots[NextContext(m, context, value)].index == predicted
    ensures nextOrder == Depth(NextContext(m, context, value))
  {
    hide Represents, Spanned, Linked, Learn, ContextsValid, ValidModel;
    KeysFit(table.symbols[..], table.keys, table.slots, table.model);
    SlotsFit(table.symbols[..], table.keys, table.slots);
    predicted, nextOrder := symbol, order;
    if order >= SUBCONTEXT_ORDER {
      ParentIs(table.symbols[..], table.slots, {}, Child(context, value));
      predicted := table.symbols[predicted].parent;
    } else {
      nextOrder := order + 1;
    }
    assert Depth(Child(context, value)) == Depth(context) + 1;
    if table.nextSymbol >= MAX_SYMBOLS - SUBCONTEXT_ORDER {
      table.Reset();
      FreshLinked(table.symbols[..], table.slots);
      predicted, nextOrder := 0, 0;
    }
  }

  lemma FreshLinked(s: seq<Symbol>, slots: Slots)
    requires slots.Keys == {Root}
    ensures Linked(s, slots, {})
  {
  }

  /** The bytes of several buffers, one after the other. */
  function Joined(buffers: seq<seq<Byte>>): seq<Byte> {
    if buffers == [] then [] else buffers[0] + Joined(buffers[1..])
  }

  /** Writer state after i bytes of the message. */
  ghost predicate InStep(table: ENetRangeCoder, context: Key, predicted: nat, order: nat, st: State)
    reads table, table.symbols
  {
    && table.Valid() && table.ParentsLinked({}) && table.model == st.model
    && context == st.context && context in table.slots && table.slots[context].index == predicted
    && order == Depth(context)
  }

  method Begin(table: ENetRangeCoder)
    requires table.symbols.Length == MAX_SYMBOLS
    modifies table, table.symbols
    ensures InStep(table, Root, 0, 0, Start)
  {
    hide Represents, Spanned;
    table.Reset();
    FreshLinked(table.symbols[..], table.slots);
  }

  /** The encoder has sent what the first i bytes of the message send. */
  ghost predicate Coded(encoder: RangeEncoder, msg: seq<Byte>, i: nat)
    requires i <= |msg|
    reads encoder, encoder.out
  {
    encoder.Valid() && encoder.Registers() == EncodeAll(msg[..i]).coder && encoder.Sent() == EncodeAll(msg[..i]).out
  }

  /** One turn of the compressor's loop, after it has fetched the byte. */
  method EncodeByte(table: ENetRangeCoder, encoder: RangeEncoder, value: Byte, predicted: nat, order: nat,
                    ghost msg: seq<Byte>, ghost i: nat)
    returns (ok: bool, nextPredicted: nat, nextOrder: nat)
    requires i < |msg| && msg[i] == value && Coded(encoder, msg, i)
    requires InStep(table, EncodeAll(msg[..i]).context, predicted, order, EncodeAll(msg[..i]))
    modifies table, table.symbols, encoder, encoder.out
    ensures ok == (|EncodeAll(msg[..i + 1]).out| <= encoder.out.Length)
    ensures ok ==> Coded(encoder, msg, i + 1)
    ensures ok ==> InStep(table, EncodeAll(msg[..i + 1]).context, nextPredicted, nextOrder, EncodeAll(msg[..i + 1]))
  {
    hide Represents, Spanned, Linked, Learn, ContextsValid, ValidModel, Slices, EncodeSlices, EncodeAll, Between,
      Normalize;
    nextPredicted, nextOrder := predicted, order;
    ghost var st := EncodeAll(msg[..i]);
    EncodeNext(msg, i);
    BetweenFacts(st.model, st.context);
    var symbol;
    ok, symbol := CompressByte(table, encoder, value, predicted, st.context);
    if ok {
      nextPredicted, nextOrder := Advance(table, symbol, order, st.model, st.context, value);
    }
  }

  /** What is left of the message is what is left of this buffer and the buffers after it. */
  ghost predicate Remaining(msg: seq<Byte>, i: nat, data: seq<Byte>, pos: nat, buffers: seq<seq<Byte>>, next: nat) {
    i <= |msg| && pos <= |data| && next <= |buffers| && msg[i..] == data[pos..] + Joined(buffers[next..])
  }

  lemma FirstBuffer(buffers: seq<seq<Byte>>)
    requires |buffers| > 0
    ensures Remaining(Joined(buffers), 0, buffers[0], 0, buffers, 1)
  {
  }

  lemma NextBuffer(msg: seq<Byte>, i: nat, data: seq<Byte>, buffers: seq<seq<Byte>>, next: nat)
    requires Remaining(msg, i, data, |data|, buffers, next) && next < |buffers|
    ensures Remaining(msg, i, buffers[next], 0, buffers, next + 1)
  {
    assert buffers[next..][1..] == buffers[next + 1..];
  }

  lemma NextByte(msg: seq<Byte>, i: nat, data: seq<Byte>, pos: nat, buffers: seq<seq<Byte>>, next: nat)
    requires Remaining(msg, i, data, pos, buffers, next) && pos < |data|
    ensures i < |msg| && msg[i] == data[pos] && Remaining(msg, i + 1, data, pos + 1, buffers, next)
  {
    assert |msg[i..]| > 0 && msg[i] == msg[i..][0];
    assert msg[i + 1..] == msg[i..][1..];
    assert data[pos + 1..] == data[pos..][1..];
  }

  lemma LastBuffer(msg: seq<Byte>, i: nat, data: seq<Byte>, buffers: seq<seq<Byte>>)
    requires Remaining(msg, i, data, |data|, buffers, |buffers|)
    ensures i == |msg|
  {
    assert |msg[i..]| == 0;
  }

  /** ENET_RANGE_CODER_FLUSH and the result. */
  method EndStream(encoder: RangeEncoder, ghost msg: seq<Byte>) returns (n: nat)
    requires Coded(encoder, msg, |msg|)
    modifies encoder, encoder.out
    ensures n > 0 <==> msg != [] && |Stream(msg)| <= encoder.out.Length
    ensures n > 0 ==> n <= encoder.out.Length && encoder.out[..n] == Stream(msg)
  {
    hide Coded, Stream, Flush;
    StreamEmpty(msg);
    CodedAll(encoder, msg);
    var ok := encoder.FlushLow();
    n := if ok then encoder.pos else 0;
  }

  lemma Overflow(msg: seq<Byte>, i: nat, room: nat)
    requires i <= |msg| && |EncodeAll(msg[..i]).out| > room
    ensures |Stream(msg)| > room
  {
    hide EncodeAll, Stream;
    OutGrows(msg, i);
  }

  /** The loop over the buffers, and the flush. */
  method CompressBuffers(table: ENetRangeCoder, buffers: seq<seq<Byte>>, out: array<Byte>) returns (n: nat)
    requires table.symbols.Length == MAX_SYMBOLS && |buffers| > 0
    requires forall i :: 0 < i < |buffers| ==> buffers[i] != []
    modifies table, table.symbols, out
    ensures n > 0 <==> Joined(buffers) != [] && |Stream(Joined(buffers))| <= out.Length
    ensures n > 0 ==> n <= out.Length && out[..n] == Stream(Joined(buffers))
  {
    hide *;
    ghost var msg, i := Joined(buffers), 0;
    FirstBuffer(buffers);
    Begin(table);
    var encoder := new RangeEncoder(out);
    var predicted, order := 0, 0;
    var data, pos, next := buffers[0], 0, 1;
    EncodeNone(msg);
    CodedNone(encoder, msg);
    while true
      invariant encoder.out == out && 1 <= next <= |buffers| && pos <= |data| && i <= |msg|
      invariant Remaining(msg, i, data, pos, buffers, next)
      invariant Coded(encoder, msg, i)
      invariant InStep(table, EncodeAll(msg[..i]).context, predicted, order, EncodeAll(msg[..i]))
      decreases |msg| - i
    {
      if pos >= |data| {
        if next >= |buffers| {
          break;
        }
        NextBuffer(msg, i, data, buffers, next);
        data, pos, next := buffers[next], 0, next + 1;
      }
      var value := data[pos];
      NextByte(msg, i, data, pos, buffers, next);
      pos := pos + 1;
      var ok;
      ok, predicted, order := EncodeByte(table, encoder, value, predicted, order, msg, i);
      i := i + 1;
      if !ok {
        Overflow(msg, i, out.Length);
        return 0;
      }
    }
    LastBuffer(msg, i, data, buffers);
    n := EndStream(encoder, msg);
  }

  /** enet_range_coder_compress: the stream of the message, or 0 exactly when there is
      nothing to compress or the stream does not fit. */
  method Compress(table: ENetRangeCoder, buffers: seq<seq<Byte>>, inLimit: int, out: array<Byte>) returns (n: nat)
    requires table.symbols.Length == MAX_SYMBOLS
    requires forall i :: 0 < i < |buffers| ==> buffers[i] != []
    modifies table, table.symbols, out
    ensures n > 0 <==> inLimit > 0 && Joined(buffers) != [] && |Stream(Joined(buffers))| <= out.Length
    ensures n > 0 ==> n <= out.Length && out[..n] == Stream(Joined(buffers))
  {
    hide Stream;
    if |buffers| == 0 || inLimit <= 0 {
      return 0;
    }
    n := CompressBuffers(table, buffers, out);
  }

  lemma StreamEmpty(msg: seq<Byte>)
    ensures Stream(msg) == [] <==> msg == []
  {
    if msg != [] { StreamNotEmpty(msg); }
  }

  lemma CodedNone(encoder: RangeEncoder, msg: seq<Byte>)
    requires encoder.Valid() && encoder.Registers() == FreshCoder && encoder.pos == 0
    ensures Coded(encoder, msg, 0)
  {
    EncodeNone(msg);
  }

  lemma CodedAll(encoder: RangeEncoder, msg: seq<Byte>)
    requires Coded(encoder, msg, |msg|)
    ensures encoder.Valid() && 0 <= encoder.low < WORD
    ensures encoder.Sent() + Flush(encoder.low) == Stream(msg)
  {
    hide EncodeAll, Flush;
    assert msg[..|msg|] == msg;
  }

  lemma EncodeNone(msg: seq<Byte>)
    ensures EncodeAll(msg[..0]) == Start && Start.context == Root
  {
  }
}
