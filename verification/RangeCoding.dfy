/** The carry-less 32-bit range coder underneath ENet's packet compressor
    (Externals/enet/compress.c): narrowing, renormalisation and the flush as
    functions on the pair of registers, and the reason a decoder that reads the
    finished stream stays inside every interval the encoder ever held. */
module RangeCoding {

  type Byte = x: int | 0 <= x < 256

  const WORD := 0x1_0000_0000
  const TOP := 0x100_0000
  const BOTTOM := 0x1_0000

  /** The registers encodeLow/encodeRange (and decodeLow/decodeRange). */
  datatype Coder = Coder(low: int, range: int)

  const FreshCoder := Coder(0, WORD - 1)

  /** One coded event: the slice [under, under + count) of a context total. */
  datatype Slice = Slice(under: int, count: int, total: int)

  predicate ValidSlice(e: Slice) {
    0 <= e.under && 0 < e.count && e.under + e.count <= e.total <= BOTTOM
  }

  /** Registers between two renormalisation steps.  The sum may be exactly 2^32,
      where the 32-bit addition wraps to 0; then low is already in the last blocks. */
  predicate Live(c: Coder) {
    && 0 <= c.low
    && 0 < c.range < WORD
    && c.low + c.range <= WORD
    && (c.low + c.range == WORD ==> c.low >= TOP)
  }

  /** Registers at a coding step. */
  predicate Ready(c: Coder) {
    Live(c) && c.range >= BOTTOM
  }

  predicate Contains(c: Coder, code: int) {
    c.low <= code < c.low + c.range
  }

  predicate Within(inner: Coder, outer: Coder) {
    outer.low <= inner.low && inner.low + inner.range <= outer.low + outer.range
  }

  function Narrow(c: Coder, e: Slice): Coder
    requires e.total > 0
  {
    Coder(c.low + e.under * (c.range / e.total), (c.range / e.total) * e.count)
  }

  /** The top bytes of low and of the (wrapping) sum low + range differ. */
  predicate Straddles(c: Coder) {
    c.low / TOP != ((c.low + c.range) % WORD) / TOP
  }

  /** -low & (BOTTOM - 1). */
  function Truncate(c: Coder): Coder {
    Coder(c.low, (WORD - c.low) % BOTTOM)
  }

  function Settle(c: Coder): Coder {
    if Straddles(c) then Truncate(c) else c
  }

  function Shift(c: Coder): Coder {
    Coder((c.low * 256) % WORD, (c.range * 256) % WORD)
  }

  predicate Stable(c: Coder) {
    Straddles(c) && c.range >= BOTTOM
  }

  lemma CrossesBoundary(a: int, b: int)
    requires 0 <= a <= b && a / TOP != b / TOP
    ensures (a / BOTTOM + 1) * BOTTOM <= b
  {
    assert a / TOP == (a / BOTTOM) / 256;
    assert b / TOP == (b / BOTTOM) / 256;
  }

  /** A range below BOTTOM that straddles two blocks crosses a BOTTOM boundary, so
      truncation stops exactly at that boundary and never makes the range 0. */
  lemma TruncateInside(c: Coder)
    requires Live(c) && Straddles(c) && c.range < BOTTOM
    ensures 0 < Truncate(c).range <= c.range
    ensures (c.low + Truncate(c).range) % BOTTOM == 0
    ensures c.low % TOP + Truncate(c).range <= TOP
    ensures (c.low + c.range) % BOTTOM == 0 ==> Truncate(c) == c
  {
    hide Live, Straddles;
    StraddlesFacts(c);
    CrossesBoundary(c.low, if c.low + c.range == WORD then WORD else c.low + c.range);
    Boundary(c.low);
    NextBoundary(c.low, c.range);
  }

  lemma StraddlesFacts(c: Coder)
    requires Live(c) && Straddles(c)
    ensures 0 <= c.low && 0 < c.range && c.low + c.range <= WORD && c.low / TOP != (c.low + c.range) / TOP
  {
    if c.low + c.range < WORD { assert (c.low + c.range) % WORD == c.low + c.range; }
  }

  /** What lies between low and the next multiple of BOTTOM. */
  lemma Boundary(low: int)
    requires 0 <= low < WORD && low % BOTTOM > 0
    ensures (WORD - low) % BOTTOM == BOTTOM - low % BOTTOM
    ensures (low + (BOTTOM - low % BOTTOM)) % BOTTOM == 0
    ensures low % TOP + (BOTTOM - low % BOTTOM) <= TOP
  {
    var block, m := low / BOTTOM, low % BOTTOM;
    assert low == block * BOTTOM + m;
    assert WORD - low == (BOTTOM - 1 - block) * BOTTOM + (BOTTOM - m);
    assert low + (BOTTOM - m) == (block + 1) * BOTTOM;
    assert low % TOP == (block % 256) * BOTTOM + m;
  }

  lemma NextBoundary(low: int, range: int)
    requires 0 <= low && 0 < range < BOTTOM && (low / BOTTOM + 1) * BOTTOM <= low + range
    ensures low % BOTTOM > 0 && BOTTOM - low % BOTTOM <= range
    ensures (low + range) % BOTTOM == 0 ==> range == BOTTOM - low % BOTTOM
  {
    var block, m := low / BOTTOM, low % BOTTOM;
    assert low == block * BOTTOM + m;
    assert low + range == (block + 1) * BOTTOM + (m + range - BOTTOM);
  }

  /** Settling keeps the interval inside the old one and leaves a range that is
      not empty; the shift then magnifies it without losing a bit. */
  lemma SettleInside(c: Coder)
    requires Live(c) && !Stable(c)
    ensures Within(Settle(c), c)
    ensures 0 < Settle(c).range < TOP
    ensures Settle(c).low % TOP + Settle(c).range <= TOP
    ensures c.low % TOP + Settle(c).range == TOP ==> c.low % TOP >= TOP - BOTTOM
    ensures (c.low + c.range) % BOTTOM == 0 ==> Settle(c) == c
    ensures Straddles(c) ==> (c.low + Settle(c).range) % BOTTOM == 0
  {
    var sum := c.low + c.range;
    if Straddles(c) {
      TruncateInside(c);
    } else {
      assert sum != WORD;
      assert sum % WORD == sum;
      assert sum == (sum / TOP) * TOP + sum % TOP;
      assert c.low % TOP + c.range == sum % TOP;
    }
  }

  lemma SettleShift(c: Coder)
    requires Live(c) && !Stable(c)
    ensures Within(Settle(c), c) && Settle(c).range > 0
    ensures Shift(Settle(c)) == Coder((c.low % TOP) * 256, Settle(c).range * 256)
    ensures Live(Shift(Settle(c)))
    ensures (c.low + c.range) % BOTTOM == 0 || Straddles(c) ==>
              (Shift(Settle(c)).low + Shift(Settle(c)).range) % BOTTOM == 0
    ensures (c.low + c.range) % BOTTOM == 0 ==> Settle(c) == c
  {
    hide Straddles, Settle, Truncate;
    SettleInside(c);
    SettleKeepsLow(c);
    var r := Settle(c).range;
    Magnified(c.low, r);
  }

  lemma SettleKeepsLow(c: Coder)
    ensures Settle(c).low == c.low
    ensures !Straddles(c) ==> Settle(c) == c
  {
  }

  /** Shifting loses no bit and keeps a sum that is a multiple of BOTTOM one. */
  lemma Magnified(low: int, r: int)
    requires 0 <= low < WORD && 0 < r < TOP
    ensures (low * 256) % WORD == (low % TOP) * 256 && (r * 256) % WORD == r * 256
    ensures (low + r) % BOTTOM == 0 ==> ((low % TOP) * 256 + r * 256) % BOTTOM == 0
  {
    var q, m := low / TOP, low % TOP;
    assert low == q * TOP + m;
    assert low * 256 == q * WORD + m * 256;
    assert low + r == q * 256 * BOTTOM + (m + r);
    if (low + r) % BOTTOM == 0 {
      assert (m + r) % BOTTOM == 0;
      assert m * 256 + r * 256 == ((m + r) / BOTTOM * 256) * BOTTOM;
    }
  }

  /** The renormalisation loop: the settled registers and the bytes it sends. */
  function Normalize(c: Coder): (r: (Coder, seq<Byte>))
    requires Live(c)
    ensures Ready(r.0)
    decreases (c.low + c.range) % BOTTOM != 0, WORD - c.range
  {
    if Stable(c) then (c, [])
    else
      SettleShift(c);
      var d := Settle(c);
      var rest := Normalize(Shift(d));
      (rest.0, [d.low / TOP] + rest.1)
  }

  lemma NormalizeStep(c: Coder, sent: seq<Byte>)
    requires Live(c) && !Stable(c)
    ensures Live(Shift(Settle(c))) && 0 <= Settle(c).low / TOP < 256
    ensures Shift(Settle(c)) == Coder((c.low * 256) % WORD, (Settle(c).range * 256) % WORD)
    ensures Normalize(c).0 == Normalize(Shift(Settle(c))).0
    ensures sent + Normalize(c).1 == (sent + [c.low / TOP]) + Normalize(Shift(Settle(c))).1
    ensures ((c.low + c.range) % BOTTOM != 0, WORD - c.range decreases to
             (Shift(Settle(c)).low + Shift(Settle(c)).range) % BOTTOM != 0, WORD - Shift(Settle(c)).range)
  {
    SettleShift(c);
    var rest := Normalize(Shift(Settle(c))).1;
    assert sent + ([c.low / TOP] + rest) == (sent + [c.low / TOP]) + rest;
  }

  /** A slice of a ready interval is a live interval inside it. */
  lemma NarrowInside(c: Coder, e: Slice)
    requires Ready(c) && ValidSlice(e)
    ensures c.range / e.total >= 1
    ensures Live(Narrow(c, e)) && Within(Narrow(c, e), c)
  {
    var step := c.range / e.total;
    assert step * e.total <= c.range;
    assert step * (e.under + e.count) <= step * e.total by { MulMono(e.under + e.count, e.total, step); }
    assert step * (e.under + e.count) == e.under * step + step * e.count;
    assert step * e.count >= 1 by { MulMono(1, e.count, step); }
    assert e.under * step >= 0;
    var n := Narrow(c, e);
    if n.low + n.range == WORD {
      assert c.low + c.range == WORD;
    }
  }

  lemma MulMono(a: int, b: int, k: int)
    requires a <= b && 0 <= k
    ensures k * a <= k * b
  {
  }

  lemma MulCancel(a: int, b: int, k: int)
    requires k * a < k * b && 0 <= k
    ensures a < b
  {
    if b <= a { MulMono(b, a, k); }
  }

  function EncodeSlice(c: Coder, e: Slice): (r: (Coder, seq<Byte>))
    requires Ready(c) && ValidSlice(e)
    ensures Ready(r.0)
  {
    NarrowInside(c, e);
    Normalize(Narrow(c, e))
  }

  predicate ValidSlices(es: seq<Slice>) {
    forall i :: 0 <= i < |es| ==> ValidSlice(es[i])
  }

  function EncodeSlices(c: Coder, es: seq<Slice>): (r: (Coder, seq<Byte>))
    requires Ready(c) && ValidSlices(es)
    ensures Ready(r.0)
    decreases |es|
  {
    if es == [] then (c, [])
    else
      var first := EncodeSlice(c, es[0]);
      var rest := EncodeSlices(first.0, es[1..]);
      (rest.0, first.1 + rest.1)
  }

  /** ENET_RANGE_CODER_FLUSH: the significant bytes of low, zero bytes trimmed. */
  function Flush(low: int): seq<Byte>
    requires 0 <= low < WORD
    decreases FlushRank(low)
  {
    if low == 0 then []
    else
      FlushStep(low);
      [low / TOP] + Flush((low * 256) % WORD)
  }

  function FlushRank(low: int): nat {
    if low % WORD == 0 then 0
    else if low % TOP == 0 then 1
    else if low % 0x1_0000 == 0 then 2
    else if low % 0x100 == 0 then 3
    else 4
  }

  lemma FlushStep(low: int)
    requires 0 < low < WORD
    ensures 0 <= (low * 256) % WORD
    ensures (low * 256) % WORD == (low % TOP) * 256
    ensures FlushRank((low * 256) % WORD) < FlushRank(low)
  {
    var m := low % TOP;
    LowTop(low);
    LowNested(low);
    ShiftedUp(m);
  }

  lemma LowTop(low: int)
    requires 0 <= low
    ensures (low * 256) % WORD == (low % TOP) * 256
  {
    var q, m := low / TOP, low % TOP;
    assert low == q * TOP + m;
    assert low * 256 == q * WORD + m * 256;
  }

  lemma LowNested(low: int)
    ensures low % TOP % 0x1_0000 == low % 0x1_0000 && low % TOP % 0x100 == low % 0x100
  {
    var q, m := low / TOP, low % TOP;
    assert low == q * TOP + m;
    assert low == q * 0x100 * 0x1_0000 + m;
    assert low == q * 0x1_0000 * 0x100 + m;
  }

  lemma ShiftedUp(m: int)
    requires 0 <= m < TOP
    ensures (m * 256) % TOP == (m % 0x1_0000) * 256
    ensures (m * 256) % 0x1_0000 == (m % 0x100) * 256
    ensures (m * 256) % 0x100 == 0 && (m * 256) % WORD == m * 256
  {
    assert m == m / 0x1_0000 * 0x1_0000 + m % 0x1_0000;
    assert m * 256 == m / 0x1_0000 * TOP + m % 0x1_0000 * 256;
    assert m == m / 0x100 * 0x100 + m % 0x100;
    assert m * 256 == m / 0x100 * 0x1_0000 + m % 0x100 * 256;
  }

  lemma FlushUnfold(low: int, sent: seq<Byte>)
    requires 0 < low < WORD
    ensures 0 <= (low * 256) % WORD
    ensures FlushRank((low * 256) % WORD) < FlushRank(low)
    ensures 0 <= low / TOP < 256
    ensures sent + Flush(low) == (sent + [low / TOP]) + Flush((low * 256) % WORD)
  {
    FlushStep(low);
    var rest := Flush((low * 256) % WORD);
    assert sent + ([low / TOP] + rest) == (sent + [low / TOP]) + rest;
  }

  /** Byte i of a stream, padded with zeros past its end as the decoder pads it. */
  function At(s: seq<Byte>, i: nat): Byte {
    if i < |s| then s[i] else 0
  }

  /** The 32-bit word a decoder holds after consuming p bytes ahead of its register. */
  function Window(s: seq<Byte>, p: nat): int {
    At(s, p) * TOP + At(s, p + 1) * 0x1_0000 + At(s, p + 2) * 0x100 + At(s, p + 3)
  }

  /** decodeCode <<= 8 followed by the next byte. */
  lemma WindowShift(s: seq<Byte>, p: nat)
    ensures 0 <= Window(s, p) < WORD
    ensures Window(s, p + 1) == (Window(s, p) * 256) % WORD + At(s, p + 4)
    ensures Window(s, p) / TOP == At(s, p)
    ensures Window(s, p + 1) / 256 == Window(s, p) % TOP
  {
    var rest := At(s, p + 1) * 0x1_0000 + At(s, p + 2) * 0x100 + At(s, p + 3);
    assert Window(s, p) * 256 == At(s, p) * WORD + rest * 256;
    assert Window(s, p + 1) == rest * 256 + At(s, p + 4);
  }

  /** The flushed bytes read back as exactly the final low. */
  lemma {:induction false} FlushWindow(s: seq<Byte>, p: nat, low: int)
    requires 0 <= low < WORD
    requires p <= |s| && s[p..] == Flush(low)
    ensures Window(s, p) == low
    decreases FlushRank(low)
  {
    if low == 0 {
      assert |s| == p;
    } else {
      FlushStep(low);
      assert s[p] == s[p..][0] == low / TOP;
      assert s[p + 1..] == s[p..][1..];
      FlushWindow(s, p + 1, (low * 256) % WORD);
      WindowShift(s, p);
      assert Window(s, p + 1) / 256 == low % TOP;
    }
  }

  /** Undoing one renormalisation: a window inside the normalised interval was
      inside the interval before it. */
  lemma {:induction false} NormalizeBack(s: seq<Byte>, p: nat, c: Coder)
    requires Live(c)
    requires p + |Normalize(c).1| <= |s| && s[p..p + |Normalize(c).1|] == Normalize(c).1
    requires Contains(Normalize(c).0, Window(s, p + |Normalize(c).1|))
    ensures Contains(c, Window(s, p))
    decreases (c.low + c.range) % BOTTOM != 0, WORD - c.range
  {
    if !Stable(c) {
      SettleShift(c);
      var d := Settle(c);
      var sent := Normalize(c).1;
      var rest := Normalize(Shift(d)).1;
      assert s[p] == s[p..p + |sent|][0] == d.low / TOP;
      assert s[p + 1..p + 1 + |rest|] == s[p..p + |sent|][1..];
      NormalizeBack(s, p + 1, Shift(d));
      WindowShift(s, p);
    }
  }

  lemma {:induction false} SliceBack(s: seq<Byte>, p: nat, c: Coder, e: Slice)
    requires Ready(c) && ValidSlice(e)
    requires p + |EncodeSlice(c, e).1| <= |s| && s[p..p + |EncodeSlice(c, e).1|] == EncodeSlice(c, e).1
    requires Contains(EncodeSlice(c, e).0, Window(s, p + |EncodeSlice(c, e).1|))
    ensures Contains(Narrow(c, e), Window(s, p))
    ensures Contains(c, Window(s, p))
  {
    NarrowInside(c, e);
    NormalizeBack(s, p, Narrow(c, e));
  }

  lemma {:induction false} SlicesBack(s: seq<Byte>, p: nat, c: Coder, es: seq<Slice>)
    requires Ready(c) && ValidSlices(es)
    requires p + |EncodeSlices(c, es).1| <= |s| && s[p..p + |EncodeSlices(c, es).1|] == EncodeSlices(c, es).1
    requires Contains(EncodeSlices(c, es).0, Window(s, p + |EncodeSlices(c, es).1|))
    ensures Contains(c, Window(s, p))
    decreases |es|
  {
    if es != [] {
      var (d, sent) := EncodeSlice(c, es[0]);
      var (last, rest) := EncodeSlices(d, es[1..]);
      var all := s[p..p + |sent| + |rest|];
      assert all == sent + rest;
      assert s[p..p + |sent|] == all[..|sent|] == sent;
      assert s[p + |sent|..p + |sent| + |rest|] == all[|sent|..] == rest;
      SlicesBack(s, p + |sent|, d, es[1..]);
      SliceBack(s, p, c, es[0]);
    }
  }

  /** ENET_RANGE_CODER_READ: dividing the offset by the step lands in the slice
      that was coded, whatever the remainder of range / total. */
  lemma ReadBack(c: Coder, e: Slice, code: int)
    requires Ready(c) && ValidSlice(e) && Contains(Narrow(c, e), code)
    ensures c.range / e.total >= 1
    ensures e.under <= (code - c.low) / (c.range / e.total) < e.under + e.count
  {
    NarrowInside(c, e);
    var step := c.range / e.total;
    var off := code - c.low;
    var q := off / step;
    assert off == q * step + off % step;
    assert step * (e.under + e.count) == e.under * step + step * e.count;
    assert step * (q + 1) == q * step + step;
    MulCancel(e.under, q + 1, step);
    MulCancel(q, e.under + e.count, step);
  }

  /** Slices of one total that share no point cannot contain a common code:
      the reason a stream determines the message. */
  lemma SlicesDisjoint(c: Coder, e: Slice, f: Slice, code: int)
    requires Ready(c) && ValidSlice(e) && ValidSlice(f) && e.total == f.total
    requires Contains(Narrow(c, e), code) && Contains(Narrow(c, f), code)
    ensures e.under < f.under + f.count && f.under < e.under + e.count
  {
    ReadBack(c, e, code);
    ReadBack(c, f, code);
  }

  /** encodeLow, encodeRange and the output pointer of the compressor. */
  class RangeEncoder {
    var low: int
    var range: int
    const out: array<Byte>
    var pos: nat

    constructor (out: array<Byte>)
      ensures this.out == out
      ensures Valid() && Registers() == FreshCoder && pos == 0
    {
      this.out := out;
      low, range, pos := 0, WORD - 1, 0;
    }

    ghost predicate Valid()
      reads this
    {
      pos <= out.Length
    }

    ghost function Registers(): Coder
      reads this
    {
      Coder(low, range)
    }

    ghost function Sent(): seq<Byte>
      reads this, out
      requires Valid()
    {
      out[..pos]
    }

    /** ENET_RANGE_CODER_OUTPUT. */
    method Output(b: Byte) returns (ok: bool)
      requires Valid()
      modifies this`pos, out
      ensures Valid()
      ensures ok == (old(pos) < out.Length)
      ensures ok ==> Sent() == old(Sent()) + [b]
      ensures !ok ==> Sent() == old(Sent())
    {
      if pos >= out.Length {
        return false;
      }
      out[pos] := b;
      pos := pos + 1;
      return true;
    }

    /** The loop of ENET_RANGE_CODER_ENCODE.  It fails exactly when the bytes it has to
        send do not fit the output buffer. */
    method Renormalize() returns (ok: bool)
      requires Valid() && Live(Registers())
      modifies this, out
      ensures Valid()
      ensures ok == (|old(Sent())| + |Normalize(old(Registers())).1| <= out.Length)
      ensures ok ==> Registers() == Normalize(old(Registers())).0
      ensures ok ==> Sent() == old(Sent()) + Normalize(old(Registers())).1
    {
      ghost var c := Registers();
      ghost var target := Sent() + Normalize(c).1;
      while true
        invariant Valid() && Live(Registers())
        invariant Normalize(Registers()).0 == Normalize(c).0
        invariant Sent() + Normalize(Registers()).1 == target
        decreases (low + range) % BOTTOM != 0, WORD - range
      {
        ghost var before := Registers();
        if Straddles(Coder(low, range)) {
          if range >= BOTTOM {
            break;
          }
          range := (WORD - low) % BOTTOM;
        }
        NormalizeStep(before, Sent());
        ok := Output(low / TOP);
        if !ok {
          return;
        }
        range := (range * 256) % WORD;
        low := (low * 256) % WORD;
      }
      return true;
    }

    /** ENET_RANGE_CODER_ENCODE. */
    method Encode(e: Slice) returns (ok: bool)
      requires Valid() && Ready(Registers()) && ValidSlice(e)
      modifies this, out
      ensures Valid()
      ensures ok == (|old(Sent())| + |EncodeSlice(old(Registers()), e).1| <= out.Length)
      ensures ok ==> Registers() == EncodeSlice(old(Registers()), e).0
      ensures ok ==> Sent() == old(Sent()) + EncodeSlice(old(Registers()), e).1
    {
      NarrowInside(Registers(), e);
      range := range / e.total;
      low := low + e.under * range;
      range := range * e.count;
      ok := Renormalize();
    }

    /** ENET_RANGE_CODER_FLUSH. */
    method FlushLow() returns (ok: bool)
      requires Valid() && 0 <= low < WORD
      modifies this, out
      ensures Valid()
      ensures ok == (|old(Sent())| + |Flush(old(low))| <= out.Length)
      ensures ok ==> Sent() == old(Sent()) + Flush(old(low))
    {
      ghost var target := Sent() + Flush(low);
      while low != 0
        invariant Valid() && 0 <= low < WORD
        invariant Sent() + Flush(low) == target
        decreases FlushRank(low)
      {
        FlushUnfold(low, Sent());
        ok := Output(low / TOP);
        if !ok {
          return;
        }
        low := (low * 256) % WORD;
      }
      return true;
    }
  }

  /** decodeLow, decodeRange, decodeCode and the input pointer of the decompressor.
      The code register always shows the next four bytes of the padded input. */
  class RangeDecoder {
    var low: int
    var range: int
    var code: int
    const data: seq<Byte>
    var pos: nat
    ghost var consumed: nat

    ghost predicate Valid()
      reads this
    {
      && pos == (if consumed + 4 <= |data| then consumed + 4 else |data|)
      && code == Window(data, consumed)
    }

    ghost function Registers(): Coder
      reads this
    {
      Coder(low, range)
    }

    /** ENET_RANGE_CODER_SEED. */
    constructor (data: seq<Byte>)
      ensures this.data == data
      ensures Valid() && Registers() == FreshCoder && consumed == 0
    {
      this.data := data;
      low, range := 0, WORD - 1;
      var word: int, next: nat := 0, 0;
      if next < |data| {
        word, next := word + TOP * data[next] as int, next + 1;
      }
      if next < |data| {
        word, next := word + 0x1_0000 * data[next] as int, next + 1;
      }
      if next < |data| {
        word, next := word + 0x100 * data[next] as int, next + 1;
      }
      if next < |data| {
        word, next := word + data[next], next + 1;
      }
      code, pos, consumed := word, next, 0;
    }

    /** ENET_RANGE_CODER_READ: divides the range in place and reads the quotient. */
    method Read(total: int) returns (q: int)
      requires total > 0 && Ready(Registers()) && total <= BOTTOM
      modifies this`range
      ensures range == old(range) / total && range >= 1
      ensures q == (code - low) / range
    {
      NarrowInside(Registers(), Slice(0, 1, total));
      range := range / total;
      q := (code - low) / range;
    }

    /** decodeCode <<= 8 and the next input byte, or zero past the end. */
    method NextCode()
      requires Valid()
      modifies this`code, this`pos, this`consumed
      ensures Valid() && consumed == old(consumed) + 1
    {
      WindowShift(data, consumed);
      code := (code * 256) % WORD;
      if pos < |data| {
        code, pos := code + data[pos], pos + 1;
      }
      consumed := consumed + 1;
    }

    /** The loop of ENET_RANGE_CODER_DECODE. */
    method Renormalize()
      requires Valid() && Live(Registers())
      modifies this
      ensures Valid()
      ensures Registers() == Normalize(old(Registers())).0
      ensures consumed == old(consumed) + |Normalize(old(Registers())).1|
    {
      ghost var c := Registers();
      while true
        invariant Valid() && Live(Registers())
        invariant Normalize(c).0 == Normalize(Registers()).0
        invariant old(consumed) + |Normalize(c).1| == consumed + |Normalize(Registers()).1|
        decreases (low + range) % BOTTOM != 0, WORD - range
      {
        ghost var before := Registers();
        if Straddles(Coder(low, range)) {
          if range >= BOTTOM {
            break;
          }
          range := (WORD - low) % BOTTOM;
        }
        NormalizeStep(before, []);
        NextCode();
        range := (range * 256) % WORD;
        low := (low * 256) % WORD;
      }
    }

    /** ENET_RANGE_CODER_DECODE, after Read divided the range of c: the registers
        follow the encoder's through the same slice, byte for byte. */
    method Decode(e: Slice, ghost c: Coder)
      requires Valid() && Ready(c) && ValidSlice(e)
      requires low == c.low && range == c.range / e.total
      modifies this
      ensures Valid()
      ensures Registers() == EncodeSlice(c, e).0
      ensures consumed == old(consumed) + |EncodeSlice(c, e).1|
    {
      NarrowInside(c, e);
      low := low + e.under * range;
      range := range * e.count;
      Renormalize();
    }
  }
}
