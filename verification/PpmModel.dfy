/** The statistics behind ENet's packet compressor (Externals/enet/compress.c) with no
    trees and no indices: an order-2 context is a string of at most two bytes, and what
    it knows is a frequency for each of the 256 byte values, an escape weight and a total. */
module PpmModel {
  import opened RangeCoding

  const SYMBOL_DELTA := 3
  const SYMBOL_MINIMUM := 1
  const ESCAPE_MINIMUM := 1
  const SUBCONTEXT_ORDER := 2
  const SUBCONTEXT_SYMBOL_DELTA := 2
  const SUBCONTEXT_ESCAPE_DELTA := 5
  const MAX_SYMBOLS := 4096

  /** A total above this bound makes a context rescale. */
  const TOTAL_LIMIT := BOTTOM - 0x100

  /** A string of bytes, most recent last.  A symbol of the coder is the string that
      leads to it; the same symbol is also the context that follows that string. */
  datatype Key = Root | Child(parent: Key, last: Byte)

  function Depth(k: Key): nat {
    if k.Root? then 0 else Depth(k.parent) + 1
  }

  /** The string without its oldest byte: where the parent link of a symbol leads. */
  function Suffix(k: Key): (r: Key)
    requires k.Child?
    ensures Depth(r) + 1 == Depth(k)
  {
    if k.parent.Root? then Root else Child(Suffix(k.parent), k.last)
  }

  /** The values lo, ..., hi - 1. */
  datatype Span = Span(lo: int, hi: int)

  /** Frequency 0 means that the byte has not been seen in this context. The span of a byte that has
      been seen is the gap between its neighbours when it was first seen: together the spans say
      in which order the bytes came, as far as the shape of a search tree depends on it. */
  datatype Context = Context(freq: seq<nat>, escapes: nat, total: nat, spans: map<Byte, Span>)

  type Model = map<Key, Context>

  function Zeros(): seq<nat> { seq(256, _ => 0) }

  const EmptyContext := Context(Zeros(), 0, 0, map[])
  const RootContext := Context(Zeros(), ESCAPE_MINIMUM, ESCAPE_MINIMUM + 256 * SYMBOL_MINIMUM, map[])
  const FreshModel: Model := map[Root := RootContext]

  function Minimum(k: Key): nat { if k.Root? then SYMBOL_MINIMUM else 0 }

  function Delta(k: Key): nat { if k.Root? then SYMBOL_DELTA else SUBCONTEXT_SYMBOL_DELTA }

  /** The frequencies of the values a, ..., b - 1 together. */
  function Sum(f: seq<nat>, a: int, b: int): (r: nat)
    requires 0 <= a <= b <= |f|
    decreases b - a, |f|
  {
    if a == b then 0 else Sum(f, a, b - 1) + f[b - 1]
  }

  function Weight(f: seq<nat>): nat {
    Sum(f, 0, |f|)
  }

  lemma {:induction false} SumSplit(f: seq<nat>, a: int, m: int, b: int)
    requires 0 <= a <= m <= b <= |f|
    ensures Sum(f, a, b) == Sum(f, a, m) + Sum(f, m, b)
    decreases b - m
  {
    if m < b { SumSplit(f, a, m, b - 1); }
  }

  lemma {:induction false} SumAdd(f: seq<nat>, v: int, d: nat, a: int, b: int)
    requires 0 <= a <= b <= |f| && 0 <= v < |f|
    ensures Sum(f[v := f[v] + d], a, b) == Sum(f, a, b) + (if a <= v < b then d else 0)
    decreases b - a
  {
    if a < b { SumAdd(f, v, d, a, b - 1); }
  }

  lemma {:induction false} SumZero(f: seq<nat>, a: int, b: int)
    requires 0 <= a <= b <= |f|
    ensures Sum(f, a, b) == 0 <==> forall w :: a <= w < b ==> f[w] == 0
    decreases b - a
  {
    if a < b { SumZero(f, a, b - 1); }
  }

  /** The slice of a value: everything below it, then its own weight. */
  function Under(f: seq<nat>, v: int, minimum: nat): nat
    requires 0 <= v <= 256 == |f|
  {
    Sum(f, 0, v) + v * minimum
  }

  /** The slices of different values are disjoint and in the order of the values. */
  lemma UnderOrdered(f: seq<nat>, v: int, w: int, minimum: nat)
    requires 0 <= v < w <= 256 == |f|
    ensures Under(f, v, minimum) + f[v] + minimum <= Under(f, w, minimum)
  {
    SumSplit(f, 0, v + 1, w);
    assert w * minimum == (v + 1) * minimum + (w - v - 1) * minimum;
  }

  /** Halving a count, rounding up, keeps a seen value seen. */
  function Halve(f: seq<nat>): (r: seq<nat>)
    ensures |r| == |f|
    ensures forall i :: 0 <= i < |f| ==> (r[i] > 0 <==> f[i] > 0) && r[i] <= f[i]
  {
    seq(|f|, i requires 0 <= i < |f| => f[i] - f[i] / 2)
  }

  lemma {:induction false} SumHalve(f: seq<nat>, a: int, b: int)
    requires 0 <= a <= b <= |f|
    ensures 2 * Sum(Halve(f), a, b) <= Sum(f, a, b) + (b - a)
    decreases b - a
  {
    if a < b { SumHalve(f, a, b - 1); }
  }

  /** ENET_CONTEXT_RESCALE. */
  function Rescale(c: Context, minimum: nat): Context
    requires |c.freq| == 256
  {
    var f := Halve(c.freq);
    Context(f, c.escapes - c.escapes / 2, Weight(f) + (c.escapes - c.escapes / 2) + 256 * minimum, c.spans)
  }

  /** The first value of the gap that ends before v, and the end of the gap that begins at v. */
  function Lower(f: seq<nat>, v: nat): int
    requires v <= |f|
  {
    if v == 0 || f[v - 1] > 0 then v else Lower(f, v - 1)
  }

  function Upper(f: seq<nat>, v: nat): int
    requires v <= |f|
    decreases |f| - v
  {
    if v == |f| || f[v] > 0 then v else Upper(f, v + 1)
  }

  /** The gap between the neighbours of a value not seen yet. */
  function Gap(f: seq<nat>, v: Byte): Span
    requires |f| == 256
  {
    Span(Lower(f, v), Upper(f, v + 1))
  }

  /** The span ends next to values that have been seen. */
  predicate Edged(f: seq<nat>, span: Span)
    requires |f| == 256
  {
    0 <= span.lo <= span.hi <= 256 && (span.lo > 0 ==> f[span.lo - 1] > 0) && (span.hi < 256 ==> f[span.hi] > 0)
  }

  lemma {:induction false} LowerIs(f: seq<nat>, v: nat, lo: nat)
    requires lo <= v <= |f| && (forall u :: lo <= u < v ==> f[u] == 0) && (lo > 0 ==> f[lo - 1] > 0)
    ensures Lower(f, v) == lo
    decreases v
  {
    if lo < v { LowerIs(f, v - 1, lo); }
  }

  lemma {:induction false} UpperIs(f: seq<nat>, v: nat, hi: nat)
    requires v <= hi <= |f| && (forall u :: v <= u < hi ==> f[u] == 0) && (hi < |f| ==> f[hi] > 0)
    ensures Upper(f, v) == hi
    decreases hi - v
  {
    if v < hi { UpperIs(f, v + 1, hi); }
  }

  lemma GapIs(f: seq<nat>, v: Byte, span: Span)
    requires |f| == 256 && Edged(f, span) && span.lo <= v < span.hi
    requires forall u :: span.lo <= u < span.hi ==> f[u] == 0
    ensures Gap(f, v) == span
  {
    LowerIs(f, v, span.lo);
    UpperIs(f, v + 1, span.hi);
  }

  function Seen(c: Context, v: Byte): map<Byte, Span>
    requires |c.freq| == 256
  {
    if c.freq[v] == 0 then c.spans[v := Gap(c.freq, v)] else c.spans
  }

  /** One occurrence of v in the context of key k: the symbol's weight, and in a
      subcontext that had not seen it the escape weight too. */
  function Count(k: Key, c: Context, v: Byte): Context
    requires |c.freq| == 256
  {
    var escape := if k.Child? && c.freq[v] == 0 then SUBCONTEXT_ESCAPE_DELTA else 0;
    Context(c.freq[v := c.freq[v] + Delta(k)], c.escapes + escape, c.total + escape + Delta(k), Seen(c, v))
  }

  /** The test made with the weight v had before, and with the new total. */
  predicate Overfull(k: Key, before: nat, total: nat) {
    || (k.Child? && before > 0xFF - 2 * SUBCONTEXT_SYMBOL_DELTA)
    || (k.Root? && before + SYMBOL_MINIMUM > 0xFF - 2 * SYMBOL_DELTA + SYMBOL_MINIMUM)
    || total > TOTAL_LIMIT
  }

  function Update(k: Key, c: Context, v: Byte): Context
    requires |c.freq| == 256
  {
    var d := Count(k, c, v);
    if Overfull(k, c.freq[v], d.total) then Rescale(d, Minimum(k)) else d
  }

  ghost predicate ValidContext(k: Key, c: Context) {
    && |c.freq| == 256
    && (forall v :: 0 <= v < 256 ==> c.freq[v] + Delta(k) <= 0xFF)
    && c.total == c.escapes + Weight(c.freq) + 256 * Minimum(k)
    && c.total <= TOTAL_LIMIT
    && (c.escapes == 0 <==> k.Child? && Weight(c.freq) == 0)
  }

  lemma CountSum(k: Key, c: Context, v: Byte)
    requires ValidContext(k, c)
    ensures Count(k, c, v).freq[v] == c.freq[v] + Delta(k) <= 0xFF
    ensures Weight(Count(k, c, v).freq) == Weight(c.freq) + Delta(k)
    ensures Count(k, c, v).total == Count(k, c, v).escapes + Weight(Count(k, c, v).freq) + 256 * Minimum(k)
    ensures Count(k, c, v).total <= TOTAL_LIMIT + 7
    ensures Count(k, c, v).escapes > 0
  {
    SumAdd(c.freq, v, Delta(k), 0, |c.freq|);
    SumZero(c.freq, 0, |c.freq|);
  }

  lemma HalvedTotals(f: seq<nat>, escapes: nat)
    requires |f| == 256 && escapes > 0
    ensures 2 * Weight(Halve(f)) <= Weight(f) + 256
    ensures 1 <= escapes - escapes / 2 && 2 * (escapes - escapes / 2) <= escapes + 1
    ensures Weight(f) > 0 ==> Weight(Halve(f)) > 0
  {
    SumHalve(f, 0, |f|);
    SumZero(Halve(f), 0, |f|);
    SumZero(f, 0, |f|);
  }

  lemma RescaleValid(k: Key, d: Context)
    requires |d.freq| == 256 && d.escapes > 0
    requires forall v :: 0 <= v < 256 ==> d.freq[v] <= 0xFF
    requires d.total == d.escapes + Weight(d.freq) + 256 * Minimum(k) <= TOTAL_LIMIT + 7
    requires k.Child? ==> Weight(d.freq) > 0
    ensures ValidContext(k, Rescale(d, Minimum(k)))
  {
    var f := Halve(d.freq);
    HalvedTotals(d.freq, d.escapes);
    forall v | 0 <= v < 256
      ensures f[v] + Delta(k) <= 0xFF
    {
      assert f[v] == d.freq[v] - d.freq[v] / 2;
    }
  }

  /** No 8-bit count and no 16-bit total overflows before the rescale has brought
      them back under their limits. */
  lemma UpdateValid(k: Key, c: Context, v: Byte)
    requires ValidContext(k, c)
    ensures ValidContext(k, Update(k, c, v))
    ensures c.freq[v] + Delta(k) <= 0xFF && Count(k, c, v).total <= 0xFFFF
    ensures Update(k, c, v).freq[v] > 0
    ensures forall w :: 0 <= w < 256 && w != v ==> (Update(k, c, v).freq[w] > 0 <==> c.freq[w] > 0)
  {
    CountSum(k, c, v);
    var d := Count(k, c, v);
    assert Weight(d.freq) > 0;
    if Overfull(k, c.freq[v], d.total) {
      RescaleValid(k, d);
    } else {
      assert Update(k, c, v) == d;
      assert d.freq[v] + Delta(k) <= 0xFF;
    }
  }

  /** The registers of a symbol's slice, or of the escape when the subcontext has not
      seen it; a subcontext that has seen nothing codes nothing. */
  function ContextSlices(k: Key, c: Context, v: Byte): (r: seq<Slice>)
    requires ValidContext(k, c)
    ensures ValidSlices(r) && |r| <= 1
  {
    SumSplit(c.freq, 0, v + 1, |c.freq|);
    if k.Root? || c.freq[v] > 0 then
      [Slice(c.escapes + Under(c.freq, v, Minimum(k)), c.freq[v] + Minimum(k), c.total)]
    else if 0 < c.escapes < c.total then [Slice(0, c.escapes, c.total)]
    else []
  }

  /** The keys of a model are closed under dropping the newest and the oldest byte, and
      a symbol is present exactly when its context has counted it. */
  ghost predicate ValidModel(m: Model) {
    ValidExcept(m, Root)
  }

  /** A symbol is present exactly when its context is and has counted it. */
  ghost predicate Counted(m: Model) {
    && (forall k :: k in m ==> |m[k].freq| == 256)
    && (forall k, v: Byte :: Child(k, v) in m <==> k in m && m[k].freq[v] > 0)
  }

  /** As ValidModel, while the suffix of the symbol p is still to be created. */
  ghost predicate ValidExcept(m: Model, p: Key) {
    && ContextsValid(m)
    && Counted(m)
    && (forall k :: k in m ==> Depth(k) <= SUBCONTEXT_ORDER + 1)
    && (forall k {:trigger Suffix(k)} :: k in m && k.Child? && k != p ==> Suffix(k) in m)
  }

  /** Context k becomes c, and the symbol v after it exists. */
  function Put(m: Model, k: Key, c: Context, v: Byte): Model {
    var m' := m[k := c];
    if Child(k, v) in m' then m' else m'[Child(k, v) := EmptyContext]
  }

  lemma PutAt(m: Model, k: Key, c: Context, v: Byte, j: Key)
    requires k in m
    ensures j in Put(m, k, c, v) <==> j in m || j == Child(k, v)
    ensures j in Put(m, k, c, v) ==>
              Put(m, k, c, v)[j] == if j == k then c else if j in m then m[j] else EmptyContext
  {
    assert Depth(Child(k, v)) == Depth(k) + 1;
  }

  lemma PutSize(m: Model, k: Key, c: Context, v: Byte)
    requires k in m
    ensures |Put(m, k, c, v)| == |m| + (if Child(k, v) in m then 0 else 1)
    ensures Put(m, k, c, v).Keys == m.Keys + {Child(k, v)}
  {
    assert Depth(Child(k, v)) == Depth(k) + 1;
    assert m[k := c].Keys == m.Keys;
    assert Put(m, k, c, v).Keys == m.Keys + {Child(k, v)};
  }

  lemma PutCountedAt(m: Model, k: Key, c: Context, v: Byte, j: Key, w: Byte)
    requires k in m && |m[k].freq| == |c.freq| == 256 && c.freq[v] > 0
    requires w != v ==> (c.freq[w] > 0 <==> m[k].freq[w] > 0)
    requires Child(k, w) in m <==> m[k].freq[w] > 0
    requires Child(j, w) in m <==> j in m && |m[j].freq| == 256 && m[j].freq[w] > 0
    requires j in m ==> |m[j].freq| == 256
    ensures j in Put(m, k, c, v) ==> |Put(m, k, c, v)[j].freq| == 256
    ensures Child(j, w) in Put(m, k, c, v) <==> j in Put(m, k, c, v) && Put(m, k, c, v)[j].freq[w] > 0
  {
    PutAt(m, k, c, v, j);
    PutAt(m, k, c, v, Child(j, w));
  }

  lemma PutCounted(m: Model, k: Key, c: Context, v: Byte)
    requires Counted(m) && k in m && |c.freq| == 256 && c.freq[v] > 0
    requires forall w :: 0 <= w < 256 && w != v ==> (c.freq[w] > 0 <==> m[k].freq[w] > 0)
    ensures Counted(Put(m, k, c, v))
  {
    var m' := Put(m, k, c, v);
    forall j | j in m'
      ensures |m'[j].freq| == 256
    {
      PutAt(m, k, c, v, j);
    }
    forall j, w: Byte
      ensures Child(j, w) in m' <==> j in m' && m'[j].freq[w] > 0
    {
      PutCountedAt(m, k, c, v, j, w);
    }
  }

  /** One context learns one byte. */
  function Touch(m: Model, k: Key, v: Byte): Model
    requires k in m && |m[k].freq| == 256
  {
    Put(m, k, Update(k, m[k], v), v)
  }

  ghost predicate ContextsValid(m: Model) {
    && Root in m
    && forall k :: k in m ==> ValidContext(k, m[k])
  }

  /** All suffixes of k are contexts of m. */
  predicate Chain(m: Model, k: Key)
    decreases Depth(k)
  {
    k in m && (k.Root? || Chain(m, Suffix(k)))
  }

  lemma {:induction false} TouchChain(m: Model, k: Key, v: Byte, j: Key)
    requires k in m && |m[k].freq| == 256 && Chain(m, j)
    ensures Chain(Touch(m, k, v), j)
    decreases Depth(j)
  {
    if j.Child? { TouchChain(m, k, v, Suffix(j)); }
  }

  lemma TouchValid(m: Model, k: Key, v: Byte)
    requires ContextsValid(m) && k in m
    ensures ContextsValid(Touch(m, k, v))
  {
    UpdateValid(k, m[k], v);
    EmptyValid(Child(k, v));
    forall j | j in Touch(m, k, v)
      ensures ValidContext(j, Touch(m, k, v)[j])
    {
      PutAt(m, k, Update(k, m[k], v), v, j);
    }
  }

  lemma EmptyValid(k: Key)
    requires k.Child?
    ensures ValidContext(k, EmptyContext)
  {
    SumZero(Zeros(), 0, |Zeros()|);
  }

  /** The longest suffix of k whose context has seen v, or the root. */
  function Target(m: Model, k: Key, v: Byte): (t: Key)
    requires ContextsValid(m) && Chain(m, k)
    ensures Chain(m, t) && Depth(t) <= Depth(k)
    decreases Depth(k)
  {
    if k.Root? || m[k].freq[v] > 0 then k else Target(m, Suffix(k), v)
  }

  /** What the whole model learns from v after the string k: every context from k down
      to the first that already knew v, in that order. */
  function Learn(m: Model, k: Key, v: Byte): Model
    requires ContextsValid(m) && Chain(m, k)
    decreases Depth(k)
  {
    TouchValid(m, k, v);
    if k.Root? || m[k].freq[v] > 0 then Touch(m, k, v)
    else
      TouchChain(m, k, v, Suffix(k));
      Learn(Touch(m, k, v), Suffix(k), v)
  }

  /** The slices that code v after the string k: escapes, then the symbol itself. */
  function Slices(m: Model, k: Key, v: Byte): (r: seq<Slice>)
    requires ContextsValid(m) && Chain(m, k)
    ensures ValidSlices(r)
    decreases Depth(k)
  {
    var here := ContextSlices(k, m[k], v);
    if k.Root? || m[k].freq[v] > 0 then here else here + Slices(m, Suffix(k), v)
  }

  /** The decoder's order: the contexts from k to the target, the target already done. */
  function Patch(m: Model, k: Key, target: Key, v: Byte): Model
    requires ContextsValid(m) && Chain(m, k)
    decreases Depth(k)
  {
    if k == target || k.Root? then m
    else
      TouchValid(m, k, v);
      TouchChain(m, k, v, Suffix(k));
      Patch(Touch(m, k, v), Suffix(k), target, v)
  }

  lemma PutCommutes(m: Model, a: Key, c: Context, b: Key, d: Context, v: Byte)
    requires a in m && b in m && a != b
    ensures a in Put(m, b, d, v) && b in Put(m, a, c, v)
    ensures Put(m, a, c, v)[b] == m[b] && Put(m, b, d, v)[a] == m[a]
    ensures Put(Put(m, a, c, v), b, d, v) == Put(Put(m, b, d, v), a, c, v)
  {
    PutAt(m, a, c, v, b);
    PutAt(m, b, d, v, a);
    var ab, ba := Put(Put(m, a, c, v), b, d, v), Put(Put(m, b, d, v), a, c, v);
    forall j
      ensures j in ab <==> j in ba
      ensures j in ab ==> ab[j] == ba[j]
    {
      PutAt(m, a, c, v, j);
      PutAt(m, b, d, v, j);
      PutAt(Put(m, a, c, v), b, d, v, j);
      PutAt(Put(m, b, d, v), a, c, v, j);
    }
  }

  lemma TouchCommutes(m: Model, a: Key, b: Key, v: Byte)
    requires a in m && b in m && a != b && |m[a].freq| == |m[b].freq| == 256
    ensures a in Touch(m, b, v) && b in Touch(m, a, v)
    ensures Touch(m, a, v)[b] == m[b] && Touch(m, b, v)[a] == m[a]
    ensures Touch(Touch(m, a, v), b, v) == Touch(Touch(m, b, v), a, v)
  {
    PutCommutes(m, a, Update(a, m[a], v), b, Update(b, m[b], v), v);
  }

  lemma {:induction false} TargetStable(m: Model, k: Key, a: Key, v: Byte)
    requires ContextsValid(m) && Chain(m, k) && a in m && Depth(a) > Depth(k)
    ensures ContextsValid(Touch(m, a, v)) && Chain(Touch(m, a, v), k)
    ensures Target(Touch(m, a, v), k, v) == Target(m, k, v)
    ensures Slices(Touch(m, a, v), k, v) == Slices(m, k, v)
    decreases Depth(k)
  {
    TouchValid(m, a, v);
    TouchChain(m, a, v, k);
    assert Touch(m, a, v)[k] == m[k];
    if k.Child? && m[k].freq[v] == 0 { TargetStable(m, Suffix(k), a, v); }
  }

  lemma TouchKeeps(m: Model, k: Key, v: Byte, j: Key)
    requires ContextsValid(m) && k in m && Chain(m, j)
    ensures ContextsValid(Touch(m, k, v)) && Chain(Touch(m, k, v), j)
  {
    TouchValid(m, k, v);
    TouchChain(m, k, v, j);
  }

  lemma PatchStep(m: Model, k: Key, t: Key, v: Byte)
    requires ContextsValid(m) && Chain(m, k) && k.Child? && t != k
    ensures ContextsValid(Touch(m, k, v)) && Chain(Touch(m, k, v), Suffix(k))
    ensures Patch(m, k, t, v) == Patch(Touch(m, k, v), Suffix(k), t, v)
  {
    TouchKeeps(m, k, v, Suffix(k));
  }

  /** Decoding first and patching the longer contexts afterwards, as the decoder must,
      teaches the model the same as the encoder's walk. */
  lemma {:induction false} PatchLearns(m: Model, k: Key, v: Byte)
    requires ContextsValid(m) && Chain(m, k)
    ensures ContextsValid(Touch(m, Target(m, k, v), v)) && Chain(Touch(m, Target(m, k, v), v), k)
    ensures Patch(Touch(m, Target(m, k, v), v), k, Target(m, k, v), v) == Learn(m, k, v)
    decreases Depth(k)
  {
    var t := Target(m, k, v);
    TouchKeeps(m, t, v, k);
    if t != k {
      TouchKeeps(m, k, v, Suffix(k));
      TargetStable(m, Suffix(k), k, v);
      PatchStep(Touch(m, t, v), k, t, v);
      TouchCommutes(m, t, k, v);
      PatchLearns(Touch(m, k, v), Suffix(k), v);
    }
  }

  lemma {:induction false} ValidChain(m: Model, k: Key)
    requires ValidModel(m) && k in m
    ensures Chain(m, k)
    decreases Depth(k)
  {
    if k.Child? { ValidChain(m, Suffix(k)); }
  }

  /** The symbol still waiting for its suffix after the context k learned v. */
  function Pending(m: Model, k: Key, v: Byte): Key
    requires k in m && |m[k].freq| == 256
  {
    if k.Child? && m[k].freq[v] == 0 then Child(k, v) else Root
  }

  lemma TouchCounted(m: Model, k: Key, v: Byte)
    requires ContextsValid(m) && Counted(m) && k in m
    ensures Counted(Touch(m, k, v))
    ensures |Touch(m, k, v)| == |m| + (if m[k].freq[v] == 0 then 1 else 0)
  {
    UpdateValid(k, m[k], v);
    PutCounted(m, k, Update(k, m[k], v), v);
    PutSize(m, k, Update(k, m[k], v), v);
  }

  lemma TouchExcept(m: Model, k: Key, v: Byte, p: Key)
    requires ValidExcept(m, p) && Depth(k) <= SUBCONTEXT_ORDER && k in m
    requires p.Child? ==> Suffix(p) == Child(k, v)
    ensures ValidExcept(Touch(m, k, v), Pending(m, k, v))
    ensures |Touch(m, k, v)| == |m| + (if m[k].freq[v] == 0 then 1 else 0)
  {
    TouchValid(m, k, v);
    TouchCounted(m, k, v);
    assert Depth(Child(k, v)) == Depth(k) + 1;
    forall j | j in Touch(m, k, v)
      ensures Depth(j) <= SUBCONTEXT_ORDER + 1
      ensures j.Child? && j != Pending(m, k, v) ==> Suffix(j) in Touch(m, k, v)
    {
      PutAt(m, k, Update(k, m[k], v), v, j);
      if j.Child? { PutAt(m, k, Update(k, m[k], v), v, Suffix(j)); }
    }
  }

  /** Learning keeps the model closed and costs at most one symbol per context. */
  lemma {:induction false} LearnValid(m: Model, k: Key, v: Byte, p: Key)
    requires ValidExcept(m, p) && Depth(k) <= SUBCONTEXT_ORDER && Chain(m, k)
    requires p.Child? ==> Suffix(p) == Child(k, v)
    ensures ValidModel(Learn(m, k, v))
    ensures Child(k, v) in Learn(m, k, v)
    ensures m.Keys <= Learn(m, k, v).Keys
    ensures |Learn(m, k, v)| <= |m| + Depth(k) + 1
    decreases Depth(k)
  {
    TouchExcept(m, k, v, p);
    if k.Child? && m[k].freq[v] == 0 {
      TouchKeeps(m, k, v, Suffix(k));
      LearnValid(Touch(m, k, v), Suffix(k), v, Child(k, v));
    }
  }

  /** The context in which the byte after v is coded. */
  function NextKey(k: Key, v: Byte): Key {
    if Depth(k) >= SUBCONTEXT_ORDER then Suffix(Child(k, v)) else Child(k, v)
  }

  /** ENET_RANGE_CODER_FREE_SYMBOLS: start over when a symbol array of MAX_SYMBOLS
      might not hold what the next byte adds. */
  predicate Exhausted(m: Model) {
    |m| >= MAX_SYMBOLS - SUBCONTEXT_ORDER
  }

  function NextModel(m: Model, k: Key, v: Byte): Model
    requires ContextsValid(m) && Chain(m, k)
  {
    var learned := Learn(m, k, v);
    if Exhausted(learned) then FreshModel else learned
  }

  function NextContext(m: Model, k: Key, v: Byte): Key
    requires ContextsValid(m) && Chain(m, k)
  {
    if Exhausted(Learn(m, k, v)) then Root else NextKey(k, v)
  }

  /** A model and a context between two bytes. */
  ghost predicate Between(m: Model, k: Key) {
    ValidModel(m) && Chain(m, k) && Depth(k) <= SUBCONTEXT_ORDER && |m| < MAX_SYMBOLS - SUBCONTEXT_ORDER
  }

  lemma FreshBetween()
    ensures Between(FreshModel, Root)
  {
    SumZero(Zeros(), 0, |Zeros()|);
  }

  lemma NextKeyKnown(learned: Model, k: Key, v: Byte)
    requires ValidModel(learned) && Child(k, v) in learned && Depth(k) <= SUBCONTEXT_ORDER
    ensures !Exhausted(learned) ==> Between(learned, NextKey(k, v))
  {
    assert Depth(Child(k, v)) == Depth(k) + 1;
    assert Suffix(Child(k, v)) in learned;
    ValidChain(learned, NextKey(k, v));
  }

  /** The symbol array never overflows: a byte adds at most three symbols. */
  lemma NextBetween(m: Model, k: Key, v: Byte)
    requires Between(m, k)
    ensures |Learn(m, k, v)| <= MAX_SYMBOLS
    ensures Between(NextModel(m, k, v), NextContext(m, k, v))
  {
    LearnValid(m, k, v, Root);
    FreshBetween();
    NextKeyKnown(Learn(m, k, v), k, v);
  }
}
