/** enet_range_coder_decompress (Externals/enet/compress.c).  It finds the context first
    and patches the longer ones afterwards, so it creates symbols in another order than
    the compressor; the model it has learned after each byte is the same. */
module RangeDecompressor {
  import opened RangeCoding
  import opened PpmModel
  import opened SymbolTable
  import opened SymbolSpans
  import opened SymbolArray
  import opened PpmStream
  import opened RangeCompressor

  /** The bytes of s from p to q are what coding v in context k sends, and the code that
      follows is inside the interval it leads to. */
  ghost predicate Expecting(s: seq<Byte>, p: nat, c: Coder, m: Model, k: Key, v: Byte, last: Coder, q: nat)
    requires ContextsValid(m) && Chain(m, k)
  {
    && Ready(c)
    && EncodeSlices(c, Slices(m, k, v)).0 == last
    && p <= q <= |s| && s[p..q] == EncodeSlices(c, Slices(m, k, v)).1
    && Contains(last, Window(s, q))
  }

  /** Nothing follows: the code is the flushed low, and all later bytes are padding. */
  ghost predicate Finished(s: seq<Byte>, p: nat, c: Coder) {
    Ready(c) && Window(s, p) == c.low && |s| <= p + 4
  }

  /** The code a context reads: inside the slice to come, or 0 at the end. */
  ghost predicate Coming(s: seq<Byte>, p: nat, c: Coder, m: Model, k: Key, v: Byte, last: Coder, q: nat, more: bool)
    requires ContextsValid(m) && Chain(m, k)
  {
    if more then Expecting(s, p, c, m, k, v, last, q) else Finished(s, p, c)
  }

  /** A code equal to low stays equal to low through an escape, reading only padding. */
  lemma {:induction false} NormalizeTail(s: seq<Byte>, p: nat, c: Coder)
    requires Live(c) && Window(s, p) == c.low && |s| <= p + 4
    ensures Window(s, p + |Normalize(c).1|) == Normalize(c).0.low
    decreases (c.low + c.range) % BOTTOM != 0, WORD - c.range
  {
    hide Live, Straddles, Settle, Window, Truncate, At;
    if !Stable(c) {
      SettleShift(c);
      WindowShift(s, p);
      PastEnd(s, p + 4);
      NormalizeStep(c, []);
      NormalizeTail(s, p + 1, Shift(Settle(c)));
    }
  }

  lemma PastEnd(s: seq<Byte>, p: nat)
    requires |s| <= p
    ensures At(s, p) == 0
  {
  }

  lemma EscapeTail(s: seq<Byte>, p: nat, c: Coder, e: Slice)
    requires Finished(s, p, c) && ValidSlice(e) && e.under == 0
    ensures Finished(s, p + |EncodeSlice(c, e).1|, EncodeSlice(c, e).0)
    ensures (Window(s, p) - c.low) / (c.range / e.total) == 0 < e.count
  {
    NarrowInside(c, e);
    NormalizeTail(s, p, Narrow(c, e));
  }

  /** A context that does not know v sends an escape or nothing, and the rest follows. */
  lemma EscapeExpected(s: seq<Byte>, p: nat, c: Coder, m: Model, k: Key, v: Byte, last: Coder, q: nat)
    requires ContextsValid(m) && Chain(m, k) && k.Child? && m[k].freq[v] == 0
    requires Expecting(s, p, c, m, k, v, last, q)
    ensures 0 < m[k].escapes < m[k].total ==>
              var e := Slice(0, m[k].escapes, m[k].total);
              && ValidSlice(e)
              && Contains(Narrow(c, e), Window(s, p))
              && Expecting(s, p + |EncodeSlice(c, e).1|, EncodeSlice(c, e).0, m, Suffix(k), v, last, q)
    ensures !(0 < m[k].escapes < m[k].total) ==> Expecting(s, p, c, m, Suffix(k), v, last, q)
  {
    hide Contains, Window, EncodeSlice, Ready;
    var rest := Slices(m, Suffix(k), v);
    var here := ContextSlices(k, m[k], v);
    SlicesJoin(c, here, rest);
    if 0 < m[k].escapes < m[k].total {
      var e := Slice(0, m[k].escapes, m[k].total);
      assert here == [e] && ValidSlice(here[0]);
      OneSlice(c, e);
      SplitSlices(s, p, c, e, rest, q);
    } else {
      assert here + rest == rest;
    }
  }

  lemma SplitSlices(s: seq<Byte>, p: nat, c: Coder, e: Slice, rest: seq<Slice>, q: nat)
    requires Ready(c) && ValidSlice(e) && ValidSlices(rest)
    requires var first := EncodeSlice(c, e);
             var second := EncodeSlices(first.0, rest);
             && p <= q <= |s| && s[p..q] == first.1 + second.1
             && Contains(second.0, Window(s, q))
    ensures var n := |EncodeSlice(c, e).1|;
            && p + n <= q && s[p + n..q] == EncodeSlices(EncodeSlice(c, e).0, rest).1
            && Contains(Narrow(c, e), Window(s, p))
  {
    hide EncodeSlice, EncodeSlices, Window, Narrow;
    var first := EncodeSlice(c, e);
    var second := EncodeSlices(first.0, rest);
    var r := p + |first.1|;
    assert s[p..q][..|first.1|] == s[p..r];
    assert s[p..q][|first.1|..] == s[r..q];
    SlicesBack(s, r, first.0, rest);
    SliceBack(s, p, c, e);
  }

  /** A context that knows v, or the root, sends v's slice, and then nothing. */
  lemma SymbolExpected(s: seq<Byte>, p: nat, c: Coder, m: Model, k: Key, v: Byte, last: Coder, q: nat)
    requires ContextsValid(m) && Chain(m, k) && (k.Root? || m[k].freq[v] > 0)
    requires Expecting(s, p, c, m, k, v, last, q)
    ensures var e := Slice(m[k].escapes + Under(m[k].freq, v, Minimum(k)), m[k].freq[v] + Minimum(k), m[k].total);
            && ValidSlice(e)
            && Contains(Narrow(c, e), Window(s, p))
            && EncodeSlice(c, e).0 == last && p + |EncodeSlice(c, e).1| == q
  {
    hide Contains, Window, EncodeSlice, Ready;
    var here := ContextSlices(k, m[k], v);
    assert here == Slices(m, k, v) && ValidSlice(here[0]) && here == [here[0]];
    OneSlice(c, here[0]);
    Narrowed(s, p, c, here[0], q);
  }

  lemma Narrowed(s: seq<Byte>, p: nat, c: Coder, e: Slice, q: nat)
    requires Ready(c) && ValidSlice(e) && p <= q <= |s| && s[p..q] == EncodeSlice(c, e).1
    requires Contains(EncodeSlice(c, e).0, Window(s, q))
    ensures Contains(Narrow(c, e), Window(s, p))
  {
    SliceBack(s, p, c, e);
  }

  /** A lookup by code in the context of k: what it must find. */
  lemma SoughtIn(k: Key, c: Context, v: Byte, code: int)
    requires ValidContext(k, c) && InSlice(c.freq, v, Minimum(k), code)
    ensures Sought(c.freq, v, Minimum(k), code)
    ensures c.freq[v] + Delta(k) <= 0xFF && Weight(c.freq) + 256 * Minimum(k) + Delta(k) < 0x1_0000
  {
  }

  /** The slice of v in the context c of k. */
  function SymbolSlice(k: Key, c: Context, v: Byte): Slice
    requires |c.freq| == 256
  {
    Slice(c.escapes + Under(c.freq, v, Minimum(k)), c.freq[v] + Minimum(k), c.total)
  }

  /** ENET_CONTEXT_TRY_DECODE or ENET_CONTEXT_ROOT_DECODE on a code in the slice of v. */
  method FindSymbol(table: ENetRangeCoder, context: nat, code: int, minimum: nat, ghost k: Key, ghost v: Byte)
    returns (found: bool, symbol: nat, value: Byte, under: int, count: int)
    requires table.Valid() && table.ParentsLinked({}) && table.nextSymbol < MAX_SYMBOLS
    requires k in table.model && k in table.slots && table.slots[k].index == context
    requires |table.model[k].freq| == 256 && ValidContext(k, table.model[k]) && minimum == Minimum(k)
    requires InSlice(table.model[k].freq, v, minimum, code)
    modifies table, table.symbols
    ensures found && value == v && table.Valid() && table.ParentsLinked({})
    ensures table.model == AddCount(old(table.model), k, v, Delta(k))
    ensures under == Under(old(table.model[k].freq), v, minimum) && count == old(table.model[k].freq[v]) + minimum
    ensures table.nextSymbol <= old(table.nextSymbol) + 1
    ensures Child(k, v) in table.slots && table.slots[Child(k, v)].index == symbol
    ensures forall j :: j in old(table.slots) ==> j in table.slots && table.slots[j] == old(table.slots[j])
  {
    hide Represents, Spanned, Linked, AddCount, Extends, ValidContext, Indexed, InSlice, Under;
    ghost var m, s0, slots0 := table.model, table.symbols[..], table.slots;
    SoughtIn(k, m[k], v, code);
    KeysFit(s0, table.keys, slots0, m);
    SlotsFit(s0, table.keys, slots0);
    Facts(s0, table.keys, slots0, m, k, v);
    assert Delta(k) == if minimum == 0 then SUBCONTEXT_SYMBOL_DELTA else SYMBOL_DELTA;
    found, symbol, value, under, count :=
      table.DecodeContext(context, code, if minimum == 0 then SUBCONTEXT_SYMBOL_DELTA else SYMBOL_DELTA, minimum, k, v);
    ghost var s1 := table.symbols[..];
    KeysFit(s1, table.keys, table.slots, table.model);
    InKeys(table.keys, table.slots, Child(k, v));
    CountedLinks(s0, slots0, m, s1, table.keys, table.slots, k, v, {}, symbol);
    SlicePending(m, k, v, code);
  }

  /** A subcontext has a slice only for symbols it has seen, so nothing is left pending. */
  lemma SlicePending(m: Model, k: Key, v: Byte, code: int)
    requires k in m && |m[k].freq| == 256 && InSlice(m[k].freq, v, Minimum(k), code)
    ensures {} + Waiting(Pending(m, k, v)) == {}
  {
  }

  /** The symbol of v found by its code in context k, decoded and counted. */
  method TakeSymbol(table: ENetRangeCoder, decoder: RangeDecoder, context: nat, code: int, minimum: nat,
                    ghost c: Coder, ghost k: Key, ghost v: Byte)
    returns (found: bool, symbol: nat, value: Byte)
    requires table.Valid() && table.ParentsLinked({}) && table.nextSymbol < MAX_SYMBOLS
    requires k in table.model && k in table.slots && table.slots[k].index == context < table.symbols.Length
    requires |table.model[k].freq| == 256 && ValidContext(k, table.model[k]) && minimum == Minimum(k)
    requires decoder.Valid() && Ready(c) && ValidSlice(SymbolSlice(k, table.model[k], v))
    requires Contains(Narrow(c, SymbolSlice(k, table.model[k], v)), decoder.code)
    requires decoder.low == c.low && decoder.range == c.range / table.model[k].total > 0
    requires code == (decoder.code - decoder.low) / decoder.range - table.model[k].escapes
    modifies table, table.symbols, decoder
    ensures found && value == v && table.Valid() && table.ParentsLinked({})
      && table.model == Touch(old(table.model), k, v)
    ensures table.nextSymbol <= old(table.nextSymbol) + 1
    ensures Child(k, v) in table.slots && table.slots[Child(k, v)].index == symbol
    ensures forall j :: j in old(table.slots) ==> j in table.slots && table.slots[j] == old(table.slots[j])
    ensures decoder.Valid()
    ensures decoder.Registers() == EncodeSlice(c, SymbolSlice(k, old(table.model[k]), v)).0
    ensures decoder.consumed == old(decoder.consumed) + |EncodeSlice(c, SymbolSlice(k, old(table.model[k]), v)).1|
  {
    hide Represents, Spanned, Linked, AddCount, Touch, Extends, ValidContext, EncodeSlice, Window, Put;
    ghost var m, ctx := table.model, table.model[k];
    ReadBack(c, SymbolSlice(k, ctx, v), decoder.code);
    TotalFields(table.symbols[..], table.keys, table.slots, m, k);
    var escapes, total := table.symbols[context].escapes, table.symbols[context].total;
    var under, count;
    found, symbol, value, under, count := FindSymbol(table, context, code, minimum, k, v);
    ghost var s1 := table.symbols[..];
    decoder.Decode(Slice(escapes + under, count, total), c);
    Learned(m, k, v);
    KeysFit(s1, table.keys, table.slots, table.model);
    table.Account(context, count - minimum, minimum, k, ctx, v);
    ExtendsLinked(s1, table.symbols[..], table.keys, table.slots, {});
  }

  /** The quotient read with the total of a subcontext that knows the coming byte. */
  lemma ComingSymbol(s: seq<Byte>, p: nat, c: Coder, m: Model, k: Key, v: Byte, last: Coder, q: nat)
    requires ContextsValid(m) && Chain(m, k) && k.Child? && m[k].freq[v] > 0
    requires Expecting(s, p, c, m, k, v, last, q)
    ensures Ready(c) && 0 < m[k].escapes < m[k].total <= BOTTOM && c.range / m[k].total >= 1
    ensures (Window(s, p) - c.low) / (c.range / m[k].total) >= m[k].escapes
    ensures ValidSlice(SymbolSlice(k, m[k], v))
    ensures Contains(Narrow(c, SymbolSlice(k, m[k], v)), Window(s, p))
    ensures EncodeSlice(c, SymbolSlice(k, m[k], v)).0 == last
    ensures p + |EncodeSlice(c, SymbolSlice(k, m[k], v)).1| == q
  {
    hide Expecting, Window, EncodeSlice, Contains, Narrow, Ready, ContextsValid, ValidContext;
    ContextOf(m, k);
    ReadyComing(s, p, c, m, k, v, last, q, true);
    SymbolExpected(s, p, c, m, k, v, last, q);
    SeenEscapes(k, m[k], v);
    ReadBack(c, SymbolSlice(k, m[k], v), Window(s, p));
  }

  /** The quotient read with the total of a subcontext that has to escape, at the end too. */
  lemma ComingEscape(s: seq<Byte>, p: nat, c: Coder, m: Model, k: Key, v: Byte, last: Coder, q: nat, more: bool)
    requires ContextsValid(m) && Chain(m, k) && k.Child? && Coming(s, p, c, m, k, v, last, q, more)
    requires more ==> m[k].freq[v] == 0
    requires 0 < m[k].escapes < m[k].total
    ensures Ready(c) && ValidSlice(Slice(0, m[k].escapes, m[k].total)) && c.range / m[k].total >= 1
    ensures (Window(s, p) - c.low) / (c.range / m[k].total) < m[k].escapes
    ensures var d := EncodeSlice(c, Slice(0, m[k].escapes, m[k].total));
            Coming(s, p + |d.1|, d.0, m, Suffix(k), v, last, q, more)
  {
    hide Expecting, Finished, Window, EncodeSlice, Contains, Narrow, Ready, ContextsValid, ValidContext;
    ContextOf(m, k);
    ReadyComing(s, p, c, m, k, v, last, q, more);
    var e := Slice(0, m[k].escapes, m[k].total);
    TotalFits(k, m[k]);
    NarrowInside(c, e);
    if more {
      EscapeExpected(s, p, c, m, k, v, last, q);
      ReadBack(c, e, Window(s, p));
    } else {
      EscapeTail(s, p, c, e);
    }
  }

  lemma TotalFits(k: Key, c: Context)
    requires ValidContext(k, c)
    ensures c.total <= BOTTOM
  {
  }

  /** A subcontext without escapes to send is passed over. */
  lemma ComingSkip(s: seq<Byte>, p: nat, c: Coder, m: Model, k: Key, v: Byte, last: Coder, q: nat, more: bool)
    requires ContextsValid(m) && Chain(m, k) && k.Child? && Coming(s, p, c, m, k, v, last, q, more)
    requires !(0 < m[k].escapes < m[k].total)
    ensures more ==> m[k].freq[v] == 0
    ensures Coming(s, p, c, m, Suffix(k), v, last, q, more)
  {
    hide Expecting, Finished, ContextsValid, ValidContext;
    ContextOf(m, k);
    if more {
      if m[k].freq[v] > 0 {
        SeenEscapes(k, m[k], v);
      }
      EscapeExpected(s, p, c, m, k, v, last, q);
    }
  }

  lemma ReadyComing(s: seq<Byte>, p: nat, c: Coder, m: Model, k: Key, v: Byte, last: Coder, q: nat, more: bool)
    requires ContextsValid(m) && Chain(m, k) && Coming(s, p, c, m, k, v, last, q, more)
    ensures Ready(c)
  {
    hide EncodeSlices, Window;
  }

  lemma SeenEscapes(k: Key, c: Context, v: Byte)
    requires ValidContext(k, c) && k.Child? && c.freq[v] > 0
    ensures 0 < c.escapes < c.total
  {
    SumZero(c.freq, 0, |c.freq|);
  }

  /** One subcontext in the search for the coming byte. */
  method TryContext(table: ENetRangeCoder, decoder: RangeDecoder, context: nat,
                    ghost k: Key, ghost v: Byte, ghost last: Coder, ghost q: nat, ghost more: bool)
    returns (hit: bool, found: bool, symbol: nat, value: Byte)
    requires table.Valid() && table.ParentsLinked({}) && table.nextSymbol < MAX_SYMBOLS
    requires k in table.slots && table.slots[k].index == context < table.symbols.Length && k.Child?
    requires ContextsValid(table.model) && Chain(table.model, k)
    requires decoder.Valid()
      && Coming(decoder.data, decoder.consumed, decoder.Registers(), table.model, k, v, last, q, more)
    modifies table, table.symbols, decoder
    ensures hit == (more && old(table.model[k].freq[v]) > 0) && decoder.Valid()
    ensures !hit ==>
      table.Valid() && table.ParentsLinked({}) && table.model == old(table.model) && table.slots == old(table.slots)
    ensures !hit ==> table.nextSymbol == old(table.nextSymbol) && table.symbols[..] == old(table.symbols[..])
    ensures !hit ==>
      Coming(decoder.data, decoder.consumed, decoder.Registers(), old(table.model), Suffix(k), v, last, q, more)
    ensures hit ==>
      found && value == v && table.Valid() && table.ParentsLinked({}) && table.model == Touch(old(table.model), k, v)
    ensures hit ==> table.nextSymbol <= old(table.nextSymbol) + 1
    ensures hit ==> Child(k, v) in table.slots && table.slots[Child(k, v)].index == symbol
    ensures hit ==> forall j :: j in old(table.slots) ==> j in table.slots && table.slots[j] == old(table.slots[j])
    ensures hit ==> decoder.Registers() == last && decoder.consumed == q
  {
    hide Represents, Spanned, Linked, AddCount, Touch, ContextsValid, ValidContext, EncodeSlice, Window, Put, Coming;
    ghost var m, c, p := table.model, decoder.Registers(), decoder.consumed;
    ContextOf(m, k);
    TotalFields(table.symbols[..], table.keys, table.slots, m, k);
    hit, found, symbol, value := false, false, 0, 0;
    var escapes, total := table.symbols[context].escapes, table.symbols[context].total;
    if 0 < escapes < total {
      if more && m[k].freq[v] > 0 {
        ComingMore(decoder.data, p, c, m, k, v, last, q, more);
        ComingSymbol(decoder.data, p, c, m, k, v, last, q);
      } else {
        ComingEscape(decoder.data, p, c, m, k, v, last, q, more);
      }
      var code := decoder.Read(total);
      if code < escapes {
        decoder.Decode(Slice(0, escapes, total), c);
      } else {
        hit := true;
        found, symbol, value := TakeSymbol(table, decoder, context, code - escapes, 0, c, k, v);
      }
    } else {
      ComingSkip(decoder.data, p, c, m, k, v, last, q, more);
    }
  }

  lemma ComingMore(s: seq<Byte>, p: nat, c: Coder, m: Model, k: Key, v: Byte, last: Coder, q: nat, more: bool)
    requires ContextsValid(m) && Chain(m, k) && Coming(s, p, c, m, k, v, last, q, more) && more
    ensures Expecting(s, p, c, m, k, v, last, q)
  {
    hide Expecting;
  }

  /** The quotient read with the total of the root: below its escapes only at the end. */
  lemma ComingRoot(s: seq<Byte>, p: nat, c: Coder, m: Model, v: Byte, last: Coder, q: nat, more: bool)
    requires ContextsValid(m) && Chain(m, Root) && Coming(s, p, c, m, Root, v, last, q, more)
    ensures Ready(c) && 0 < m[Root].escapes < m[Root].total <= BOTTOM && c.range / m[Root].total >= 1
    ensures (Window(s, p) - c.low) / (c.range / m[Root].total) >= m[Root].escapes <==> more
    ensures |m[Root].freq| == 256 && ValidSlice(Slice(0, m[Root].escapes, m[Root].total))
    ensures more ==>
              && ValidSlice(SymbolSlice(Root, m[Root], v))
              && Contains(Narrow(c, SymbolSlice(Root, m[Root], v)), Window(s, p))
              && EncodeSlice(c, SymbolSlice(Root, m[Root], v)).0 == last
              && p + |EncodeSlice(c, SymbolSlice(Root, m[Root], v)).1| == q
  {
    hide Expecting, Finished, Window, EncodeSlice, Contains, Narrow, Ready, ContextsValid, ValidContext;
    ContextOf(m, Root);
    ReadyComing(s, p, c, m, Root, v, last, q, more);
    TotalFits(Root, m[Root]);
    RootEscapes(m[Root]);
    var e := Slice(0, m[Root].escapes, m[Root].total);
    NarrowInside(c, e);
    if more {
      SymbolExpected(s, p, c, m, Root, v, last, q);
      ReadBack(c, SymbolSlice(Root, m[Root], v), Window(s, p));
    } else {
      EscapeTail(s, p, c, e);
    }
  }

  lemma RootEscapes(c: Context)
    requires ValidContext(Root, c)
    ensures 0 < c.escapes < c.total
  {
  }

  /** The root: it finds the byte whatever it is, or ends the message on its escape. */
  method TryRoot(table: ENetRangeCoder, decoder: RangeDecoder, ghost v: Byte, ghost last: Coder, ghost q: nat,
                 ghost more: bool)
    returns (ended: bool, found: bool, symbol: nat, value: Byte)
    requires table.Valid() && table.ParentsLinked({}) && table.nextSymbol < MAX_SYMBOLS
    requires Root in table.slots && table.slots[Root].index == 0
    requires ContextsValid(table.model) && Chain(table.model, Root)
    requires decoder.Valid()
      && Coming(decoder.data, decoder.consumed, decoder.Registers(), table.model, Root, v, last, q, more)
    modifies table, table.symbols, decoder
    ensures ended == !more && decoder.Valid()
    ensures more ==>
      found && value == v && table.Valid() && table.ParentsLinked({}) && table.model == Touch(old(table.model), Root, v)
    ensures more ==> table.nextSymbol <= old(table.nextSymbol) + 1
    ensures more ==> Child(Root, v) in table.slots && table.slots[Child(Root, v)].index == symbol
    ensures more ==> forall j :: j in old(table.slots) ==> j in table.slots && table.slots[j] == old(table.slots[j])
    ensures more ==> decoder.Registers() == last && decoder.consumed == q
  {
    hide Represents, Spanned, Linked, AddCount, Touch, ContextsValid, ValidContext, EncodeSlice, Window, Put, Coming;
    ghost var m, c := table.model, decoder.Registers();
    ContextOf(m, Root);
    TotalFields(table.symbols[..], table.keys, table.slots, m, Root);
    ComingRoot(decoder.data, decoder.consumed, c, m, v, last, q, more);
    ended, found, symbol, value := false, false, 0, 0;
    var escapes, total := table.symbols[0].escapes, table.symbols[0].total;
    var code := decoder.Read(total);
    if code < escapes {
      decoder.Decode(Slice(0, escapes, total), c);
      ended := true;
    } else {
      found, symbol, value := TakeSymbol(table, decoder, 0, code - escapes, SYMBOL_MINIMUM, c, Root, v);
    }
  }

  /** The search for the coming byte, from the longest context down to the root. */
  method FindByte(table: ENetRangeCoder, decoder: RangeDecoder, predicted: nat,
                  ghost context: Key, ghost v: Byte, ghost last: Coder, ghost q: nat, ghost more: bool)
    returns (ended: bool, found: bool, subcontext: nat, symbol: nat, value: Byte)
    requires table.Valid() && table.ParentsLinked({}) && table.nextSymbol < MAX_SYMBOLS
    requires context in table.slots && table.slots[context].index == predicted
    requires ContextsValid(table.model) && Chain(table.model, context)
    requires decoder.Valid()
      && Coming(decoder.data, decoder.consumed, decoder.Registers(), table.model, context, v, last, q, more)
    modifies table, table.symbols, decoder
    ensures ended == !more && decoder.Valid()
    ensures more ==> found && value == v && table.Valid() && table.ParentsLinked({})
    ensures more ==> table.model == Touch(old(table.model), Target(old(table.model), context, v), v)
    ensures more ==> table.nextSymbol <= old(table.nextSymbol) + 1
    ensures more ==> Target(old(table.model), context, v) in table.slots
                     && table.slots[Target(old(table.model), context, v)].index == subcontext
    ensures more ==> Child(Target(old(table.model), context, v), v) in table.slots
                     && table.slots[Child(Target(old(table.model), context, v), v)].index == symbol
    ensures more ==> forall j :: j in old(table.slots) ==> j in table.slots && table.slots[j] == old(table.slots[j])
    ensures more ==> decoder.Registers() == last && decoder.consumed == q
  {
    hide Represents, Spanned, Linked, AddCount, Touch, ContextsValid, ValidContext, EncodeSlice, Window, Put, Coming;
    ghost var m, slots0, k := table.model, table.slots, context;
    KeysFit(table.symbols[..], table.keys, table.slots, m);
    ended, found, subcontext, symbol, value := false, false, predicted, 0, 0;
    while subcontext != 0
      invariant table.Valid() && table.ParentsLinked({}) && table.model == m && table.slots == slots0
      invariant table.nextSymbol == old(table.nextSymbol)
      invariant k in slots0 && slots0[k].index == subcontext && Chain(m, k)
      invariant more ==> Target(m, k, v) == Target(m, context, v)
      invariant decoder.Valid() && Coming(decoder.data, decoder.consumed, decoder.Registers(), m, k, v, last, q, more)
      decreases Depth(k)
    {
      RootIndex(table.symbols[..], table.keys, table.slots, m, k);
      ContextOf(m, k);
      ParentIs(table.symbols[..], table.slots, {}, k);
      var hit;
      hit, found, symbol, value := TryContext(table, decoder, subcontext, k, v, last, q, more);
      if hit {
        return;
      }
      subcontext := table.symbols[subcontext].parent;
      k := Suffix(k);
    }
    RootIndex(table.symbols[..], table.keys, table.slots, m, k);
    ended, found, symbol, value := TryRoot(table, decoder, v, last, q, more);
  }

  /** One context patched after the byte is known: it counts the byte and escapes. */
  method PatchContext(table: ENetRangeCoder, context: nat, value: Byte, parent: Place, ghost k: Key, ghost pending: Key)
    returns (symbol: nat)
    requires table.Valid() && table.ParentsLinked(Waiting(pending)) && Points(table, parent, pending, Child(k, value))
    requires k in table.model && table.slots[k].index == context && k.Child?
    requires |table.model[k].freq| == 256 && ValidContext(k, table.model[k]) && table.nextSymbol < MAX_SYMBOLS
    modifies table, table.symbols
    ensures table.Valid() && table.model == Touch(old(table.model), k, value)
    ensures table.ParentsLinked(Waiting(Pending(old(table.model), k, value)))
    ensures Child(k, value) in table.slots && table.slots[Child(k, value)].index == symbol
    ensures table.nextSymbol <= old(table.nextSymbol) + 1
    ensures forall j :: j in old(table.slots) ==> j in table.slots && table.slots[j] == old(table.slots[j])
  {
    hide Represents, Spanned, Linked, AddCount, Extends, Touch, Put, ValidContext;
    ghost var m, c := table.model, table.model[k];
    KeysFit(table.symbols[..], table.keys, table.slots, m);
    var under, count;
    symbol, under, count := Enter(table, context, value, 0, parent, k, pending);
    Learned(m, k, value);
    ghost var s1 := table.symbols[..];
    KeysFit(s1, table.keys, table.slots, table.model);
    TotalFields(s1, table.keys, table.slots, table.model, k);
    table.Account(context, count, 0, k, c, value);
    ExtendsLinked(s1, table.symbols[..], table.keys, table.slots, Waiting(Pending(m, k, value)));
  }

  lemma KeysDistinct(s: seq<Symbol>, keys: seq<Key>, slots: Slots, m: Model, j: Key, k: Key)
    requires Represents(s, keys, slots, m) && j in slots && k in slots
    ensures slots[j].index == slots[k].index <==> j == k
    ensures slots[k].index < |s|
  {
    KeysFit(s, keys, slots, m);
    hide Represents, Spanned;
    assert keys[slots[j].index] == j && keys[slots[k].index] == k;
  }

  lemma TargetStep(m: Model, k: Key, v: Byte, t: Key)
    requires ContextsValid(m) && Chain(m, k) && t == Target(m, k, v) && t != k
    ensures k.Child? && m[k].freq[v] == 0 && Target(m, Suffix(k), v) == t
  {
  }

  /** patchContexts: the contexts from the predicted one down to the target, and the
      parent links of their new symbols. */
  method PatchContexts(table: ENetRangeCoder, predicted: nat, subcontext: nat, bottom: nat, value: Byte,
                       ghost context: Key, ghost m: Model)
    returns (symbol: nat)
    requires ContextsValid(m) && Chain(m, context) && Depth(context) <= SUBCONTEXT_ORDER
    requires table.Valid() && table.ParentsLinked({}) && table.model == Touch(m, Target(m, context, value), value)
    requires table.nextSymbol <= |m| + 1 < MAX_SYMBOLS - SUBCONTEXT_ORDER + 1
    requires context in table.slots && table.slots[context].index == predicted
    requires Target(m, context, value) in table.slots && table.slots[Target(m, context, value)].index == subcontext
    requires Child(Target(m, context, value), value) in table.slots
             && table.slots[Child(Target(m, context, value), value)].index == bottom
    modifies table, table.symbols
    ensures table.Valid() && table.ParentsLinked({}) && table.model == Learn(m, context, value)
    ensures Child(context, value) in table.slots && table.slots[Child(context, value)].index == symbol
  {
    hide Represents, Spanned, Linked, AddCount, Touch, Put, ContextsValid, ValidContext, Learn, Patch;
    ghost var t, k, pending := Target(m, context, value), context, Root;
    PatchLearns(m, context, value);
    TargetBehind(m, context, value, t);
    symbol := bottom;
    var patch, parent := predicted, Predicted;
    KeysDistinct(table.symbols[..], table.keys, table.slots, table.model, context, t);
    while patch != subcontext
      invariant table.Valid() && table.ParentsLinked(Waiting(pending))
        && Points(table, parent, pending, Child(k, value))
      invariant k in table.slots && table.slots[k].index == patch && t in table.slots
        && table.slots[t].index == subcontext
      invariant Child(t, value) in table.slots && table.slots[Child(t, value)].index == bottom
      invariant ContextsValid(table.model) && Chain(table.model, k) && Depth(k) <= Depth(context)
      invariant Patch(table.model, k, t, value) == Learn(m, context, value)
      invariant k == t <==> patch == subcontext
      invariant Behind(table.model, k, value, t)
      invariant table.nextSymbol + Depth(k) <= |m| + 1 + Depth(context)
      invariant if parent.Predicted? then k == context && symbol == bottom
                else Child(context, value) in table.slots && table.slots[Child(context, value)].index == symbol
      decreases Depth(k)
    {
      ghost var m1 := table.model;
      BehindStep(m1, k, value, t);
      ContextOf(m1, k);
      PatchStep(m1, k, t, value);
      BehindTouch(m1, Suffix(k), k, value, t);
      var here := PatchContext(table, patch, value, parent, k, pending);
      if parent.Predicted? {
        symbol := here;
      }
      pending := Child(k, value);
      parent := ParentOf(here);
      assert Depth(pending) == Depth(k) + 1;
      ParentIs(table.symbols[..], table.slots, Waiting(pending), k);
      patch := table.symbols[patch].parent;
      k := Suffix(k);
      KeysDistinct(table.symbols[..], table.keys, table.slots, table.model, k, t);
    }
    PatchDone(table.model, t, value);
    if parent.ParentOf? {
      KeysFit(table.symbols[..], table.keys, table.slots, table.model);
      InKeys(table.keys, table.slots, pending);
      InKeys(table.keys, table.slots, Child(t, value));
      table.SetParent(parent.symbol, bottom, pending, {pending});
      assert {pending} - {pending} == {};
    }
  }

  /** The contexts from k to t have not seen v, and t has just been taught it. */
  ghost predicate Behind(m: Model, k: Key, v: Byte, t: Key)
    decreases Depth(k)
  {
    k == t || (k.Child? && k in m && |m[k].freq| == 256 && m[k].freq[v] == 0 && Behind(m, Suffix(k), v, t))
  }

  lemma BehindStep(m: Model, k: Key, v: Byte, t: Key)
    requires Behind(m, k, v, t) && k != t
    ensures k.Child? && k in m && |m[k].freq| == 256 && m[k].freq[v] == 0 && Behind(m, Suffix(k), v, t)
  {
  }

  lemma PatchDone(m: Model, t: Key, v: Byte)
    requires ContextsValid(m) && Chain(m, t)
    ensures Patch(m, t, t, v) == m
  {
  }

  lemma {:induction false} BehindTouch(m: Model, j: Key, k: Key, v: Byte, t: Key)
    requires Behind(m, j, v, t) && Depth(j) < Depth(k) && k in m && |m[k].freq| == 256
    ensures Behind(Touch(m, k, v), j, v, t)
    decreases Depth(j)
  {
    if j != t {
      PutAt(m, k, Update(k, m[k], v), v, j);
      BehindTouch(m, Suffix(j), k, v, t);
    }
  }

  lemma {:induction false} TargetBehind(m: Model, k: Key, v: Byte, t: Key)
    requires ContextsValid(m) && Chain(m, k) && t == Target(m, k, v)
    ensures Behind(Touch(m, t, v), k, v, t)
    decreases Depth(k)
  {
    if k != t {
      TargetStep(m, k, v, t);
      TargetBehind(m, Suffix(k), v, t);
      PutAt(m, t, Update(t, m[t], v), v, k);
    }
  }

  lemma ComingNext(msg: seq<Byte>, i: nat, p: nat)
    requires i < |msg| && p == |EncodeAll(msg[..i]).out|
    ensures var (st, next) := (EncodeAll(msg[..i]), EncodeAll(msg[..i + 1]));
            && ContextsValid(st.model) && Chain(st.model, st.context)
            && Coming(Stream(msg), p, st.coder, st.model, st.context, msg[i], next.coder, |next.out|, true)
  {
    hide Stream, EncodeAll, Between, Slices, EncodeSlices, Window, ContextsValid;
    var st := EncodeAll(msg[..i]);
    BetweenFacts(st.model, st.context);
    EncodeNext(msg, i);
    SentBetween(msg, i);
    CodeInside(msg, i + 1);
  }

  lemma {:induction false} FlushShort(low: int)
    requires 0 <= low < WORD
    ensures |Flush(low)| <= FlushRank(low) <= 4
    decreases FlushRank(low)
  {
    if low != 0 {
      FlushStep(low);
      FlushShort((low * 256) % WORD);
    }
  }

  /** After the last byte every context reads an escape, the root's too: the message ends
      without a symbol of its own. */
  lemma ComingEnd(msg: seq<Byte>)
    ensures var st := EncodeAll(msg);
            && ContextsValid(st.model) && Chain(st.model, st.context)
            && forall v: Byte,
              last: Coder :: Coming(Stream(msg), |st.out|, st.coder, st.model, st.context, v, last, 0, false)
  {
    var st := EncodeAll(msg);
    BetweenFacts(st.model, st.context);
    CodeAtEnd(msg);
    FlushShort(st.coder.low);
    hide EncodeAll, Window, Flush, Between, ContextsValid;
    assert msg[..|msg|] == msg;
  }

  /** Reader state after i bytes of the message. */
  ghost predicate Follows(decoder: RangeDecoder, msg: seq<Byte>, i: nat)
    requires i <= |msg|
    reads decoder
  {
    && decoder.Valid() && decoder.data == Stream(msg)
    && decoder.Registers() == EncodeAll(msg[..i]).coder && decoder.consumed == |EncodeAll(msg[..i]).out|
  }

  /** One turn of the decompressor's loop, up to the output of the byte. */
  method DecodeByte(table: ENetRangeCoder, decoder: RangeDecoder, predicted: nat, order: nat, ghost msg: seq<Byte>,
                    ghost i: nat)
    returns (ended: bool, found: bool, value: Byte, symbol: nat)
    requires i <= |msg| && Follows(decoder, msg, i)
    requires InStep(table, EncodeAll(msg[..i]).context, predicted, order, EncodeAll(msg[..i]))
    modifies table, table.symbols, decoder
    ensures ended == (i == |msg|)
    ensures i < |msg| ==> found && value == msg[i] && Follows(decoder, msg, i + 1)
    ensures Between(EncodeAll(msg[..i]).model, EncodeAll(msg[..i]).context)
    ensures i < |msg| ==> var st := EncodeAll(msg[..i]);
                          && table.Valid() && table.ParentsLinked({})
                          && ContextsValid(st.model) && Chain(st.model, st.context)
                          && table.model == Learn(st.model, st.context, msg[i])
                          && Child(st.context, msg[i]) in table.slots
                          && table.slots[Child(st.context, msg[i])].index == symbol
  {
    hide Represents, Spanned, Linked, Learn, ContextsValid, ValidModel, EncodeAll, Touch, Coming, Target, Stream,
      Between;
    ghost var st, more := EncodeAll(msg[..i]), i < |msg|;
    ghost var v: Byte := if more then msg[i] else 0;
    ghost var next := if more then EncodeAll(msg[..i + 1]) else st;
    ghost var q := if more then |next.out| else 0;
    BetweenFacts(st.model, st.context);
    if more {
      ComingNext(msg, i, decoder.consumed);
    } else {
      assert msg[..i] == msg;
      ComingEnd(msg);
    }
    var subcontext, bottom;
    symbol := 0;
    KeysFit(table.symbols[..], table.keys, table.slots, table.model);
    ended, found, subcontext, bottom, value := FindByte(table, decoder, predicted, st.context, v, next.coder, q, more);
    if !ended && found {
      symbol := PatchContexts(table, predicted, subcontext, bottom, value, st.context, st.model);
    }
  }

  /** enet_range_coder_decompress on a compressed message: the message if there is room
      for it, 0 if there is not. */
  method Decompress(table: ENetRangeCoder, data: seq<Byte>, out: array<Byte>, ghost msg: seq<Byte>) returns (n: nat)
    requires table.symbols.Length == MAX_SYMBOLS
    requires data == Stream(msg)
    modifies table, table.symbols, out
    ensures n == if |msg| <= out.Length then |msg| else 0
    ensures n <= out.Length && out[..n] == msg[..n]
  {
    hide Represents, Spanned, Linked, Learn, ContextsValid, ValidModel, EncodeAll, Between, Follows, Stream;
    n := 0;
    if |data| == 0 {
      EmptyStream(msg);
      return;
    }
    Begin(table);
    var decoder := new RangeDecoder(data);
    var predicted, order, failed, ended := 0, 0, false, false;
    StartFollows(decoder, msg);
    while !ended && !failed
      invariant n <= out.Length && n <= |msg| && out[..n] == msg[..n]
      invariant ended ==> n == |msg|
      invariant failed ==> n == out.Length < |msg|
      invariant !ended && !failed ==>
        Follows(decoder, msg, n) && InStep(table, EncodeAll(msg[..n]).context, predicted, order, EncodeAll(msg[..n]))
      decreases !ended && !failed, |msg| - n
    {
      ghost var st := EncodeAll(msg[..n]);
      var found, value, symbol;
      ended, found, value, symbol := DecodeByte(table, decoder, predicted, order, msg, n);
      if !ended {
        failed := !found || n >= out.Length;
        if !failed {
          out[n] := value;
          EncodeNext(msg, n);
          predicted, order := Advance(table, symbol, order, st.model, st.context, value);
          n := n + 1;
        }
      }
    }
    if failed {
      n := 0;
    }
  }

  lemma StartFollows(decoder: RangeDecoder, msg: seq<Byte>)
    requires decoder.Valid() && decoder.data == Stream(msg) && decoder.Registers() == FreshCoder
      && decoder.consumed == 0
    ensures Follows(decoder, msg, 0) && EncodeAll(msg[..0]) == Start
  {
    EncodeNone(msg);
  }

  lemma EmptyStream(msg: seq<Byte>)
    requires Stream(msg) == []
    ensures msg == []
  {
    if msg != [] { StreamNotEmpty(msg); }
  }

  /** Two symbols whose slices hold the same code are the same symbol. */
  lemma SameSymbol(c: Coder, k: Key, ctx: Context, v: Byte, w: Byte, code: int)
    requires Ready(c) && |ctx.freq| == 256
    requires ValidSlice(SymbolSlice(k, ctx, v)) && ValidSlice(SymbolSlice(k, ctx, w))
    requires Contains(Narrow(c, SymbolSlice(k, ctx, v)), code) && Contains(Narrow(c, SymbolSlice(k, ctx, w)), code)
    ensures v == w
  {
    hide Narrow, Ready, Contains, Under;
    SlicesDisjoint(c, SymbolSlice(k, ctx, v), SymbolSlice(k, ctx, w), code);
    if v < w { UnderOrdered(ctx.freq, v, w, Minimum(k)); }
    if w < v { UnderOrdered(ctx.freq, w, v, Minimum(k)); }
  }

  // ---- bytes that are no stream ----

  /** What the first four bytes 0xFF read as in the fresh root context: its total, one past its last
      value, which the byte of a symbol does not hold. */
  lemma PastTheRoot(rest: seq<Byte>)
    ensures var root := FreshModel[Root];
      && Window([0xFF, 0xFF, 0xFF, 0xFF] + rest, 0) / (FreshCoder.range / root.total) == root.total
      && root.total - root.escapes == 256
  {
    var s := [0xFF, 0xFF, 0xFF, 0xFF] + rest;
    assert s[0] == s[1] == s[2] == s[3] == 0xFF;
  }

  /** No message has a stream that begins so. */
  lemma NoMessage(rest: seq<Byte>, msg: seq<Byte>)
    ensures Stream(msg) != [0xFF, 0xFF, 0xFF, 0xFF] + rest
  {
    hide EncodeAll, Stream, Window;
    CodeInside(msg, 0);
    NothingEncoded(msg);
    FourBytes(rest);
  }

  lemma NothingEncoded(msg: seq<Byte>)
    ensures EncodeAll(msg[..0]) == Start && CodeAt(msg, 0) == Window(Stream(msg), 0)
  {
    EncodeNone(msg);
  }

  lemma FourBytes(rest: seq<Byte>)
    ensures Window([0xFF, 0xFF, 0xFF, 0xFF] + rest, 0) == WORD - 1
  {
    var s := [0xFF, 0xFF, 0xFF, 0xFF] + rest;
    assert s[0] == s[1] == s[2] == s[3] == 0xFF;
  }

  /** From one state and one stream only one continuation is possible: one byte, or the end. */
  lemma {:induction false} SameEvent(s: seq<Byte>, p: nat, c: Coder, m: Model, k: Key,
                                     v: Byte, last: Coder, q: nat, more: bool, v': Byte, last': Coder, q': nat,
                                       more': bool)
    requires ContextsValid(m) && Chain(m, k)
    requires Coming(s, p, c, m, k, v, last, q, more) && Coming(s, p, c, m, k, v', last', q', more')
    ensures more == more' && (more ==> v == v')
    decreases Depth(k)
  {
    hide Expecting, Finished, Window, EncodeSlice, Contains, Narrow, Ready, ContextsValid, ValidContext;
    ContextOf(m, k);
    if k.Root? {
      ComingRoot(s, p, c, m, v, last, q, more);
      ComingRoot(s, p, c, m, v', last', q', more');
      if more {
        SameSymbol(c, Root, m[Root], v, v', Window(s, p));
      }
    } else {
      var a, b := more && m[k].freq[v] > 0, more' && m[k].freq[v'] > 0;
      if a { ComingSymbol(s, p, c, m, k, v, last, q); }
      if b { ComingSymbol(s, p, c, m, k, v', last', q'); }
      if 0 < m[k].escapes < m[k].total {
        if !a { ComingEscape(s, p, c, m, k, v, last, q, more); }
        if !b { ComingEscape(s, p, c, m, k, v', last', q', more'); }
        var d := EncodeSlice(c, Slice(0, m[k].escapes, m[k].total));
        if a && b {
          SameSymbol(c, k, m[k], v, v', Window(s, p));
        } else {
          SameEvent(s, p + |d.1|, d.0, m, Suffix(k), v, last, q, more, v', last', q', more');
        }
      } else {
        ComingSkip(s, p, c, m, k, v, last, q, more);
        ComingSkip(s, p, c, m, k, v', last', q', more');
        SameEvent(s, p, c, m, Suffix(k), v, last, q, more, v', last', q', more');
      }
    }
  }

  /** What follows the first i bytes of a message. */
  lemma ComingAfter(msg: seq<Byte>, i: nat, v: Byte, last: Coder, q: nat)
    requires i <= |msg|
    requires i < |msg| ==> v == msg[i] && last == EncodeAll(msg[..i + 1]).coder && q == |EncodeAll(msg[..i + 1]).out|
    requires i == |msg| ==> q == 0
    ensures var st := EncodeAll(msg[..i]);
            && ContextsValid(st.model) && Chain(st.model, st.context)
            && Coming(Stream(msg), |st.out|, st.coder, st.model, st.context, v, last, q, i < |msg|)
  {
    hide Coming, Stream, EncodeAll;
    if i < |msg| {
      ComingNext(msg, i, |EncodeAll(msg[..i]).out|);
    } else {
      assert msg[..i] == msg;
      ComingEnd(msg);
    }
  }

  lemma {:induction false} SamePrefix(a: seq<Byte>, b: seq<Byte>, i: nat)
    requires Stream(a) == Stream(b) && i <= |a|
    ensures i <= |b| && a[..i] == b[..i]
    decreases i
  {
    hide Stream;
    if i > 0 {
      SamePrefix(a, b, i - 1);
      NextSame(a, b, i - 1);
    }
  }

  lemma NextSame(a: seq<Byte>, b: seq<Byte>, i: nat)
    requires Stream(a) == Stream(b) && i <= |a| && i <= |b| && a[..i] == b[..i]
    ensures i == |a| <==> i == |b|
    ensures i < |a| ==> a[..i + 1] == b[..i + 1]
  {
    hide Coming, Stream, EncodeAll, ContextsValid;
    var st := EncodeAll(a[..i]);
    var v: Byte, last, q := 0, st.coder, 0;
    var v': Byte, last', q' := 0, st.coder, 0;
    if i < |a| { v, last, q := a[i], EncodeAll(a[..i + 1]).coder, |EncodeAll(a[..i + 1]).out|; }
    if i < |b| { v', last', q' := b[i], EncodeAll(b[..i + 1]).coder, |EncodeAll(b[..i + 1]).out|; }
    ComingAfter(a, i, v, last, q);
    ComingAfter(b, i, v', last', q');
    SameEvent(Stream(a), |st.out|, st.coder, st.model, st.context, v, last, q, i < |a|, v', last', q', i < |b|);
  }

  /** Different messages have different streams. */
  lemma StreamInjective(a: seq<Byte>, b: seq<Byte>)
    requires Stream(a) == Stream(b)
    ensures a == b
  {
    hide Stream;
    SamePrefix(a, b, |a|);
    SamePrefix(b, a, |b|);
    assert a[..|a|] == a && b[..|b|] == b;
  }

  /** The round trip through two independent coders with enough room on the way back. */
  method RoundTrip(writer: ENetRangeCoder, reader: ENetRangeCoder, buffers: seq<seq<Byte>>, packed: array<Byte>,
                   unpacked: array<Byte>)
    returns (n: nat, r: nat)
    requires writer.symbols.Length == MAX_SYMBOLS && reader.symbols.Length == MAX_SYMBOLS
    requires forall i :: 0 < i < |buffers| ==> buffers[i] != []
    requires packed != unpacked
    modifies writer, writer.symbols, reader, reader.symbols, packed, unpacked
    ensures n > 0 && |Joined(buffers)| <= unpacked.Length ==>
              r == |Joined(buffers)| <= unpacked.Length && unpacked[..r] == Joined(buffers)
    ensures n == 0 ==> r == 0
  {
    hide Stream;
    n := Compress(writer, buffers, 1, packed);
    r := 0;
    if n > 0 {
      ghost var msg := Joined(buffers);
      r := Decompress(reader, packed[..n], unpacked, msg);
      assert msg[..|msg|] == msg;
    }
  }
}
