/** The compressed form of a message in plain numbers (Externals/enet/compress.c): which context each
    byte is coded in, when the model starts over, what a context counts and which slices the first
    bytes get. */
module StreamNumbers {
  import opened RangeCoding
  import opened PpmModel
  import opened PpmStream

  // ---- contexts ----

  /** The symbols left after byte j might not be enough for the next one. */
  ghost predicate Resets(msg: seq<Byte>, j: nat)
    requires j < |msg|
  {
    var st := EncodeAll(msg[..j]);
    |Learn(st.model, st.context, msg[j])| + 3 > 4096
  }

  /** Every byte is coded after the last two bytes, or as many as there are since the start or the
      last reset. */
  lemma {:induction false} ContextIs(msg: seq<Byte>, i: nat)
    requires i <= |msg|
    ensures EncodeAll(msg[..i]).context ==
      if i == 0 || Resets(msg, i - 1) then Root
      else if i == 1 || Resets(msg, i - 2) then Child(Root, msg[i - 1])
      else Child(Child(Root, msg[i - 2]), msg[i - 1])
  {
    hide EncodeAll, Resets, ValidState;
    if i == 0 {
      StartsEmpty(msg);
    } else {
      ContextIs(msg, i - 1);
      ContextNext(msg, i - 1);
    }
  }

  lemma StartsEmpty(msg: seq<Byte>)
    ensures EncodeAll(msg[..0]) == Start
  {
    assert msg[..0] == [];
  }

  lemma ContextNext(msg: seq<Byte>, i: nat)
    requires i < |msg|
    ensures var k := EncodeAll(msg[..i]).context;
      EncodeAll(msg[..i + 1]).context == if Resets(msg, i) then Root else Recent(k, msg[i])
  {
    hide EncodeAll, EncodeSlices, Slices, Learn, Between, NextKey;
    EncodeNext(msg, i);
    var st := EncodeAll(msg[..i]);
    BetweenFacts(st.model, st.context);
    NextPlain(st.context, msg[i]);
  }

  /** The last two bytes. */
  function Recent(k: Key, v: Byte): Key {
    if k.Child? then Child(Child(Root, k.last), v) else Child(Root, v)
  }

  lemma NextPlain(k: Key, v: Byte)
    requires Depth(k) <= 2
    ensures NextKey(k, v) == Recent(k, v)
  {
    if Depth(k) >= 1 {
      assert Depth(k.parent) <= 1;
      if Depth(k.parent) == 1 {
        assert k.parent.parent == Root;
        assert Suffix(Child(Root, k.parent.last)) == Root;
        assert Suffix(k) == Child(Root, k.last);
        assert Suffix(Child(k, v)) == Child(Suffix(k), v);
      }
    }
  }

  /** The model starts over exactly when fewer than three of the 4096 symbols would be left, and
      otherwise goes on with what it has learned. */
  lemma ModelIs(m: Model, k: Key, v: Byte)
    requires ContextsValid(m) && Chain(m, k)
    ensures NextModel(m, k, v) ==
      if |Learn(m, k, v)| + 3 > 4096 then map[Root := Context(seq(256, _ => 0), 1, 257, map[])] else Learn(m, k, v)
  {
    hide Learn, ContextsValid;
    assert Zeros() == seq(256, _ => 0);
  }

  // ---- counts ----

  /** What one byte does to a context: it counts two, in the root three, and when it is new to a
      context of one or two bytes the escapes get five; then everything is halved, rounding up, when
      the count was above 251, in the root above 249, or the total is above 65280. */
  lemma UpdateIs(k: Key, c: Context, v: Byte)
    requires ValidContext(k, c)
    ensures var u, d := Update(k, c, v), if k.Root? then 3 else 2;
      var e := c.escapes + if k.Child? && c.freq[v] == 0 then 5 else 0;
      var full := c.freq[v] > (if k.Root? then 249 else 251) || c.total + e - c.escapes + d > 65280;
      && u.escapes == (if full then e - e / 2 else e)
      && forall w: Byte ::
           var n := if w == v then c.freq[w] + d else c.freq[w];
           u.freq[w] == if full then n - n / 2 else n
  {
    hide Sum, Seen;
  }

  /** After any byte the total is the escapes and the counts, in the root with one for each value. */
  lemma TotalIs(k: Key, c: Context, v: Byte)
    requires ValidContext(k, c)
    ensures var u := Update(k, c, v);
      u.total == u.escapes + Sum(u.freq, 0, 256) + if k.Root? then 256 else 0
  {
    UpdateValid(k, c, v);
  }

  /** The context k1 is the string k without its first byte, k0 without its first two. */
  ghost predicate Shorter(k: Key, k1: Key, k0: Key) {
    k.Child? && k.parent.Child? && k.parent.parent.Root? && k1 == Child(Root, k.last) && k0 == Root
  }

  /** Which contexts learn a byte: that of the last two bytes, that of the last one if the first did not
      know it, and the root if neither did. Every other context stays as it was. */
  lemma LearnIs(m: Model, k: Key, k1: Key, k0: Key, v: Byte, j: Key)
    requires ContextsValid(m) && Chain(m, k) && Shorter(k, k1, k0) && j in m
    ensures k1 in m && |m[k].freq| == |m[k1].freq| == 256 && j in Learn(m, k, v)
    ensures Learn(m, k, v)[j] ==
      if j == k || (j == k1 && m[k].freq[v] == 0) || (j == k0 && m[k].freq[v] == 0 && m[k1].freq[v] == 0)
      then Update(j, m[j], v) else m[j]
  {
    hide Update, Sum, ContextsValid, Suffix;
    ShorterIs(k, k1, k0);
    ChainFacts(m, k);
    ChainFacts(m, k1);
    ChainFacts(m, k0);
    LearnHere(m, k, v, j);
    if m[k].freq[v] == 0 {
      var m1 := Touch(m, k, v);
      LearnHere(m, k, v, k1);
      LearnHere(m, k, v, k0);
      LearnHere(m1, k1, v, j);
      if m[k1].freq[v] == 0 {
        var m0 := Touch(m1, k1, v);
        LearnHere(m1, k1, v, k0);
        LearnHere(m0, k0, v, j);
      }
    }
  }

  lemma ShorterIs(k: Key, k1: Key, k0: Key)
    requires Shorter(k, k1, k0)
    ensures k.Child? && k1.Child? && Suffix(k) == k1 && Suffix(k1) == k0
  {
    assert Suffix(k.parent) == Root;
  }

  lemma ChainFacts(m: Model, k: Key)
    requires ContextsValid(m) && Chain(m, k)
    ensures k in m && |m[k].freq| == 256
    ensures k.Child? ==> Chain(m, Suffix(k))
  {
  }

  lemma LearnHere(m: Model, k: Key, v: Byte, j: Key)
    requires ContextsValid(m) && Chain(m, k) && j in m
    ensures k in m && |m[k].freq| == 256 && j in Touch(m, k, v)
    ensures Touch(m, k, v)[j] == if j == k then Update(k, m[k], v) else m[j]
    ensures k.Root? || m[k].freq[v] > 0 ==> Learn(m, k, v) == Touch(m, k, v)
    ensures k.Child? && m[k].freq[v] == 0 ==>
      && ContextsValid(Touch(m, k, v)) && Chain(Touch(m, k, v), Suffix(k))
      && Learn(m, k, v) == Learn(Touch(m, k, v), Suffix(k), v)
  {
    hide Update, Sum;
    PutAt(m, k, Update(k, m[k], v), v, j);
    TouchValid(m, k, v);
    if k.Child? { TouchChain(m, k, v, Suffix(k)); }
  }

  // ---- slices ----

  /** What codes a byte: in the context of the last two bytes if that has counted it, and otherwise the
      escapes of that context, when they are some and not all of it, and then likewise in the context
      of the last byte; in the root every value counts one more than it was counted. The escapes come
      first and then the values in their order. */
  lemma SlicesAre(m: Model, k: Key, k1: Key, k0: Key, v: Byte)
    requires ContextsValid(m) && Chain(m, k) && Shorter(k, k1, k0)
    ensures k1 in m && k0 in m && |m[k].freq| == |m[k1].freq| == |m[k0].freq| == 256
    ensures var c, c1, c0 := m[k], m[k1], m[k0];
      var escape := if 0 < c.escapes < c.total then [Slice(0, c.escapes, c.total)] else [];
      var escape1 := if 0 < c1.escapes < c1.total then [Slice(0, c1.escapes, c1.total)] else [];
      Slices(m, k, v) ==
        if c.freq[v] > 0 then [Slice(c.escapes + Sum(c.freq, 0, v), c.freq[v], c.total)]
        else if c1.freq[v] > 0 then escape + [Slice(c1.escapes + Sum(c1.freq, 0, v), c1.freq[v], c1.total)]
        else escape + escape1 + [Slice(c0.escapes + Sum(c0.freq, 0, v) + v, 1 + c0.freq[v], c0.total)]
  {
    hide Sum, ContextsValid, Suffix, Slices, Chain;
    ShorterIs(k, k1, k0);
    SlicesHere(m, k, v);
    SlicesHere(m, k1, v);
    SlicesHere(m, k0, v);
    var escape := if 0 < m[k].escapes < m[k].total then [Slice(0, m[k].escapes, m[k].total)] else [];
    var escape1 := if 0 < m[k1].escapes < m[k1].total then [Slice(0, m[k1].escapes, m[k1].total)] else [];
    var last := Slices(m, k0, v);
    assert escape + (escape1 + last) == escape + escape1 + last;
  }

  /** What codes a byte from one context on. */
  lemma SlicesHere(m: Model, k: Key, v: Byte)
    requires ContextsValid(m) && Chain(m, k)
    ensures k in m && |m[k].freq| == 256 && (k.Child? ==> Chain(m, Suffix(k)))
    ensures var c := m[k];
      Slices(m, k, v) ==
        if k.Root? then [Slice(c.escapes + Sum(c.freq, 0, v) + v, 1 + c.freq[v], c.total)]
        else if c.freq[v] > 0 then [Slice(c.escapes + Sum(c.freq, 0, v), c.freq[v], c.total)]
        else (if 0 < c.escapes < c.total then [Slice(0, c.escapes, c.total)] else []) + Slices(m, Suffix(k), v)
  {
    hide Sum, ContextsValid, Suffix;
    ChainFacts(m, k);
  }

  /** One step of the renormalisation: when the interval lies in one block of 2^24 the top byte of low is
      sent; when it does not and its range is at least 2^16 nothing is done; and otherwise it is cut
      short at the next multiple of 2^16 and then the byte is sent. */
  lemma RenormalizeIs(low: int, range: int)
    requires Live(Coder(low, range))
    ensures var c := Coder(low, range);
      var inside := low / 0x100_0000 == (low + range) % 0x1_0000_0000 / 0x100_0000;
      var r := if inside then range else (0x1_0000_0000 - low) % 0x1_0000;
      var next := Coder(low * 256 % 0x1_0000_0000, r * 256 % 0x1_0000_0000);
      if !inside && range >= 0x1_0000 then Normalize(c) == (c, [])
      else Live(next) && Normalize(c) == (Normalize(next).0, [low / 0x100_0000] + Normalize(next).1)
  {
    hide Live, Normalize;
    var c := Coder(low, range);
    if Stable(c) {
      Done(c);
    } else {
      NormalizeStep(c, []);
      assert [] + Normalize(c).1 == Normalize(c).1 && [] + [c.low / TOP] == [c.low / TOP];
    }
  }

  /** A slice of the interval, before renormalisation. */
  lemma NarrowIs(c: Coder, e: Slice)
    requires Ready(c) && ValidSlice(e)
    ensures var part := Coder(c.low + e.under * (c.range / e.total), e.count * (c.range / e.total));
      Live(part) && EncodeSlice(c, e) == Normalize(part)
  {
    hide Normalize;
    NarrowInside(c, e);
    assert Narrow(c, e) == Coder(c.low + e.under * (c.range / e.total), e.count * (c.range / e.total));
    assert EncodeSlice(c, e) == Normalize(Narrow(c, e));
  }

  /** The end of a stream is the bytes of low without the zeros at its end. */
  lemma {:induction false} FlushIs(low: int)
    requires 0 <= low < WORD
    ensures Window(Flush(low), 0) == low && |Flush(low)| <= FlushRank(low) <= 4
    ensures Flush(low) != [] ==> Flush(low)[|Flush(low)| - 1] != 0
    decreases FlushRank(low)
  {
    var f := Flush(low);
    assert f[0..] == f;
    FlushWindow(f, 0, low);
    if low > 0 {
      FlushStep(low);
      FlushIs((low * 256) % WORD);
    }
  }

  // ---- the first slices ----

  lemma OneCount(a: Byte, n: nat, v: Byte)
    ensures |Zeros()[a := n]| == 256
    ensures Under(Zeros()[a := n], v, 1) == v + if a < v then n else 0
    ensures Under(Zeros()[a := n], v, 0) == if a < v then n else 0
    ensures Sum(Zeros()[a := n], 0, 256) == n
  {
    hide Sum;
    var f := Zeros();
    SumZero(f, 0, v);
    SumZero(f, 0, 256);
    SumAdd(f, a, n, 0, v);
    SumAdd(f, a, n, 0, 256);
    assert f[a := f[a] + n] == f[a := n];
  }

  lemma FarFromFull(m: Model, k: Key, v: Byte)
    requires Between(m, k) && |m| < 4000
    ensures ContextsValid(m) && Chain(m, k)
    ensures NextModel(m, k, v) == Learn(m, k, v) && |Learn(m, k, v)| <= |m| + 3 && NextContext(m, k, v) == Recent(k, v)
  {
    hide Learn, ContextsValid, Counted, NextKey;
    LearnValid(m, k, v, Root);
    NextPlain(k, v);
  }

  /** What a context new to a byte becomes. */
  lemma FirstCount(k: Key, a: Byte)
    requires k.Child?
    ensures var u := Update(k, EmptyContext, a); u.freq == Zeros()[a := 2] && u.escapes == 5 && u.total == 7
  {
    hide Update, Sum, ValidContext;
    EmptyValid(k);
    UpdateIs(k, EmptyContext, a);
    TotalIs(k, EmptyContext, a);
    OneCount(a, 2, a);
    UpdateSize(k, EmptyContext, a);
    assert Update(k, EmptyContext, a).freq == Zeros()[a := 2];
  }

  lemma UpdateSize(k: Key, c: Context, v: Byte)
    requires ValidContext(k, c)
    ensures |Update(k, c, v).freq| == 256
  {
    UpdateValid(k, c, v);
  }

  /** The root context after n bytes a and nothing else. */
  lemma RootCount(c: Context, a: Byte, n: nat)
    requires n < 80 && ValidContext(Root, c) && c.freq == Zeros()[a := 3 * n] && c.escapes == 1
    ensures var u := Update(Root, c, a);
      u.freq == Zeros()[a := 3 * n + 3] && u.escapes == 1 && u.total == 260 + 3 * n
  {
    hide Update, Sum, ValidContext;
    RootTotal(c, a, n);
    UpdateIs(Root, c, a);
    TotalIs(Root, c, a);
    UpdateSize(Root, c, a);
    OneCount(a, 3 * n + 3, a);
    assert Update(Root, c, a).freq == Zeros()[a := 3 * n + 3];
  }

  lemma RootTotal(c: Context, a: Byte, n: nat)
    requires ValidContext(Root, c) && c.freq == Zeros()[a := 3 * n] && c.escapes == 1
    ensures c.total == 257 + 3 * n
  {
    OneCount(a, 3 * n, a);
  }

  /** The first byte a is coded as 1 + a, 1 of 257. */
  lemma FirstByte(a: Byte)
    ensures var st := EncodeAll([]); Slices(st.model, st.context, a) == [Slice(1 + a, 1, 257)]
  {
    hide Sum;
    FreshBetween();
    OneCount(a, 0, a);
    assert Zeros()[a := 0] == Zeros();
  }

  /** The model after one byte. */
  lemma AfterOne(a: Byte)
    ensures var st := EncodeAll([a]);
      && st.context == Child(Root, a) && |st.model| <= 4 && Root in st.model && Child(Root, a) in st.model
      && st.model[Child(Root, a)] == EmptyContext
      && st.model[Root].freq == Zeros()[a := 3] && st.model[Root].escapes == 1 && st.model[Root].total == 260
  {
    hide Sum, Update, EncodeSlices, Between;
    FreshBetween();
    BetweenFacts(FreshModel, Root);
    FarFromFull(FreshModel, Root, a);
    assert [a][..0] == [];
    assert Zeros()[a := 0] == Zeros();
    RootCount(RootContext, a, 0);
    PutAt(FreshModel, Root, Update(Root, RootContext, a), a, Root);
    PutAt(FreshModel, Root, Update(Root, RootContext, a), a, Child(Root, a));
  }

  lemma EscapedOnce(m: Model, k: Key, v: Byte)
    requires ContextsValid(m) && Chain(m, k) && k.Child? && m[k] == EmptyContext
    ensures Slices(m, k, v) == Slices(m, Suffix(k), v)
    ensures ContextsValid(Touch(m, k, v)) && Chain(Touch(m, k, v), Suffix(k))
    ensures Learn(m, k, v) == Learn(Touch(m, k, v), Suffix(k), v)
  {
    hide ContextsValid, Touch, Sum;
    EmptyValid(k);
    TouchKeeps(m, k, v, Suffix(k));
    assert ContextSlices(k, m[k], v) == [];
  }

  lemma Found(m: Model, k: Key, v: Byte)
    requires ContextsValid(m) && Chain(m, k) && (k.Root? || m[k].freq[v] > 0)
    ensures Slices(m, k, v)
      == [Slice(m[k].escapes + Under(m[k].freq, v, Minimum(k)), m[k].freq[v] + Minimum(k), m[k].total)]
    ensures Learn(m, k, v) == Touch(m, k, v)
  {
    hide Touch, Under;
  }

  /** A second byte b after a: coded as if new to everything but the root. */
  lemma SecondByte(a: Byte, b: Byte)
    ensures var st := EncodeAll([a]);
      Slices(st.model, st.context, b) ==
        [if a == b then Slice(1 + a, 4, 260) else Slice(1 + b + if a < b then 3 else 0, 1, 260)]
  {
    hide Slices, Under, EncodeAll, Learn, Between, ContextsValid;
    var st := EncodeAll([a]);
    AfterOne(a);
    BetweenFacts(st.model, st.context);
    EscapedOnce(st.model, st.context, b);
    Found(st.model, Root, b);
    OneCount(a, 3, b);
  }

  lemma NotYet(m: Model, k: Key, v: Byte)
    requires Between(m, k) && k in m && m[k] == EmptyContext
    ensures Child(k, v) !in m
  {
  }

  /** The same byte again: only it has been counted, in each context. */
  lemma AfterTwo(a: Byte)
    ensures var st, k := EncodeAll([a, a]), Child(Root, a);
      && st.context == Child(k, a) && |st.model| <= 7 && k in st.model && Child(k, a) in st.model
      && st.model[Child(k, a)] == EmptyContext
      && st.model[k].freq == Zeros()[a := 2] && st.model[k].escapes == 5 && st.model[k].total == 7
  {
    hide Sum, Update, EncodeAll, EncodeSlices, Slices, Learn, Between, ContextsValid;
    var st, k := EncodeAll([a]), Child(Root, a);
    AfterOne(a);
    BetweenFacts(st.model, k);
    FarFromFull(st.model, k, a);
    EscapedOnce(st.model, k, a);
    var m := Touch(st.model, k, a);
    Found(m, Root, a);
    EncodeNext([a, a], 1);
    assert [a, a][..1] == [a] && [a, a][..2] == [a, a];
    FirstCount(k, a);
    NotYet(st.model, k, a);
    PutAt(st.model, k, Update(k, EmptyContext, a), a, k);
    PutAt(st.model, k, Update(k, EmptyContext, a), a, Child(k, a));
    PutAt(st.model, k, Update(k, EmptyContext, a), a, Root);
    PutAt(m, Root, Update(Root, m[Root], a), a, k);
    PutAt(m, Root, Update(Root, m[Root], a), a, Child(k, a));
  }

  /** A third time: coded as 5, 2 of 7 in the context of one byte. */
  lemma ThirdByte(a: Byte)
    ensures var st := EncodeAll([a, a]); Slices(st.model, st.context, a) == [Slice(5, 2, 7)]
  {
    hide Slices, Under, EncodeAll, Learn, Between, ContextsValid;
    var st := EncodeAll([a, a]);
    AfterTwo(a);
    BetweenFacts(st.model, st.context);
    EscapedOnce(st.model, st.context, a);
    assert Suffix(st.context) == Child(Root, a);
    Found(st.model, Child(Root, a), a);
    OneCount(a, 2, a);
  }

  lemma AfterThree(a: Byte)
    ensures var st, k := EncodeAll([a, a, a]), Child(Child(Root, a), a);
      && st.context == k && k in st.model
      && st.model[k].freq == Zeros()[a := 2] && st.model[k].escapes == 5 && st.model[k].total == 7
  {
    hide Sum, Update, EncodeAll, EncodeSlices, Slices, Learn, Between, ContextsValid;
    var st, k := EncodeAll([a, a]), Child(Child(Root, a), a);
    AfterTwo(a);
    BetweenFacts(st.model, k);
    FarFromFull(st.model, k, a);
    EscapedOnce(st.model, k, a);
    assert Suffix(k) == Child(Root, a);
    var m := Touch(st.model, k, a);
    EncodeNext([a, a, a], 2);
    assert [a, a, a][..2] == [a, a] && [a, a, a][..3] == [a, a, a];
    FirstCount(k, a);
    PutAt(st.model, k, Update(k, EmptyContext, a), a, k);
    PutAt(st.model, k, Update(k, EmptyContext, a), a, Suffix(k));
    Found(m, Suffix(k), a);
    PutAt(m, Suffix(k), Update(Suffix(k), m[Suffix(k)], a), a, k);
  }

  /** And a fourth time as 5, 2 of 7 in the context of two bytes. */
  lemma FourthByte(a: Byte)
    ensures var st := EncodeAll([a, a, a]); Slices(st.model, st.context, a) == [Slice(5, 2, 7)]
  {
    hide Slices, Under, EncodeAll, Learn, Between, ContextsValid;
    var st := EncodeAll([a, a, a]);
    AfterThree(a);
    BetweenFacts(st.model, st.context);
    Found(st.model, st.context, a);
    OneCount(a, 2, a);
  }

  // ---- a whole stream ----

  lemma StepOut(msg: seq<Byte>, v: Byte, e: Slice)
    requires var st := EncodeAll(msg); Slices(st.model, st.context, v) == [e]
    ensures ValidSlice(e)
    ensures var st, next := EncodeAll(msg), EncodeAll(msg + [v]);
      next.coder == EncodeSlice(st.coder, e).0 && next.out == st.out + EncodeSlice(st.coder, e).1
  {
    hide Slices, Between, EncodeSlice, EncodeSlices, ContextsValid, EncodeAll;
    var st := EncodeAll(msg);
    BetweenFacts(st.model, st.context);
    EncodeNext(msg + [v], |msg|);
    assert (msg + [v])[..|msg|] == msg && (msg + [v])[..|msg| + 1] == msg + [v];
    assert [e][0] == e;
    OneSlice(st.coder, e);
  }

  lemma OneSlice(c: Coder, e: Slice)
    requires Ready(c) && ValidSlice(e)
    ensures EncodeSlices(c, [e]) == EncodeSlice(c, e)
  {
    hide EncodeSlice;
    var first := EncodeSlice(c, e);
    assert [e][1..] == [] && EncodeSlices(first.0, []) == (first.0, []);
    assert first.1 + [] == first.1;
  }

  /** Four zero bytes. */
  lemma FourZeros()
    ensures Stream([0, 0, 0, 0]) == [0x01, 0x03, 0x96, 0x66]
  {
    hide Slices, EncodeAll, EncodeSlice, Flush, ValidState, Ready;
    FirstByte(0);
    SecondByte(0, 0);
    ThirdByte(0);
    FourthByte(0);
    StepOut([], 0, Slice(1, 1, 257));
    StepOut([0], 0, Slice(1, 4, 260));
    StepOut([0, 0], 0, Slice(5, 2, 7));
    StepOut([0, 0, 0], 0, Slice(5, 2, 7));
    assert [] + [0] == [0] && [0] + [0] == [0, 0] && [0, 0] + [0] == [0, 0, 0] && [0, 0, 0] + [0] == [0, 0, 0, 0];
    FirstCoded();
    SecondCoded();
    ThirdCoded();
    FourthCoded();
    LastFlushed();
    StartsEmpty([]);
  }

  /** A range that has its top byte sends it. */
  lemma OneByte(c: Coder)
    requires Live(c) && !Straddles(c) && Live(Shift(c)) && Stable(Shift(c))
    ensures Normalize(c) == (Shift(c), [c.low / TOP])
  {
    hide Straddles, Live, Shift;
    Done(Shift(c));
    assert [c.low / TOP] + [] == [c.low / TOP];
  }

  lemma FirstCoded()
    ensures EncodeSlice(FreshCoder, Slice(1, 1, 257)) == (Coder(16711935, 16711935), [])
  {
    hide Normalize;
    var c := Coder(16711935, 16711935);
    assert Narrow(FreshCoder, Slice(1, 1, 257)) == c;
    Done(c);
  }

  lemma Done(c: Coder)
    requires Live(c) && Stable(c)
    ensures Normalize(c) == (c, [])
  {
  }

  lemma SecondCoded()
    ensures EncodeSlice(Coder(16711935, 16711935), Slice(1, 4, 260)) == (Coder(16776211, 257104), [])
  {
    hide Normalize;
    var c := Coder(16776211, 257104);
    assert Narrow(Coder(16711935, 16711935), Slice(1, 4, 260)) == c;
    Done(c);
  }

  lemma ThirdCoded()
    ensures EncodeSlice(Coder(16776211, 257104), Slice(5, 2, 7)) == (Coder(46755840, 18805248), [1])
  {
    hide Normalize;
    var c := Coder(16959856, 73458);
    assert Narrow(Coder(16776211, 257104), Slice(5, 2, 7)) == c;
    assert Shift(c) == Coder(46755840, 18805248);
    OneByte(c);
  }

  lemma FourthCoded()
    ensures EncodeSlice(Coder(46755840, 18805248), Slice(5, 2, 7)) == (Coder(2523267072, 1375469568), [3])
  {
    hide Normalize;
    var c := Coder(60188160, 5372928);
    assert Narrow(Coder(46755840, 18805248), Slice(5, 2, 7)) == c;
    assert Shift(c) == Coder(2523267072, 1375469568);
    OneByte(c);
  }

  lemma LastFlushed()
    ensures Flush(2523267072) == [0x96, 0x66]
  {
    assert Flush(0) == [];
    assert (0x66000000 * 256) % WORD == 0;
    assert Flush(0x66000000) == [0x66] + Flush(0);
    assert Flush(2523267072) == [0x96] + Flush(0x66000000);
  }
}
