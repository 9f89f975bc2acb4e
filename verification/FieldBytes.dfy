/** Field elements as thirty-two bytes (fe_frombytes and fe_tobytes of Externals/ed25519/fe.c). */
module FieldBytes {
  import opened ScalarRecoding
  import opened ScalarBytes
  import opened FieldElement

  /** Limbs bounded by 1.1 * 2^26 and 1.1 * 2^25: what fe_tobytes accepts. */
  predicate Medium(s: Fe) {
    forall i :: 0 <= i < 10 ==> Within(s[i], if i % 2 == 0 then 73819750 else 36909875)
  }

  lemma TightIsMedium(s: Fe)
    requires Tight(s)
    ensures Medium(s)
  {
  }

  // ---- the quotient by the prime ----

  /** The chain of shifts that starts fe_tobytes, from limb i on. */
  function Quotient(s: Fe, q: int, i: nat): int
    requires i <= 10
    decreases 10 - i
  {
    if i == 10 then q else Quotient(s, (s[i] + q) / Radix(i), i + 1)
  }

  lemma DivDiv(y: int, r: nat, d: nat)
    requires r > 0 && d > 0
    ensures r * d > 0 && y / r / d == y / (r * d)
  {
    var q := y / r;
    DivMod(y, r);
    DivMod(q, d);
    Factored(r, d, q / d, q % d);
    BelowProduct(r, d, y % r, q % d);
    Exact(y, r * d, q / d, r * (q % d) + y % r);
  }

  lemma DivMod(y: int, r: nat)
    requires r > 0
    ensures y == r * (y / r) + y % r && 0 <= y % r < r
  {
  }

  lemma Factored(r: nat, d: nat, m: int, b: int)
    ensures r * (d * m + b) == r * d * m + r * b
  {
  }

  lemma BelowProduct(r: nat, d: nat, a: nat, b: nat)
    requires a < r && b < d
    ensures 0 <= r * b + a < r * d
  {
    Spread(r, b, d - 1 - b);
    assert b + 1 + (d - 1 - b) == d;
  }

  lemma Spread(r: nat, b: nat, k: nat)
    ensures r * (b + 1 + k) == r * b + r + r * k && r * b >= 0 && r * k >= 0
  {
  }

  lemma Exact(y: int, c: nat, m: int, rest: nat)
    requires rest < c && y == c * m + rest
    ensures y / c == m
  {
    var k := y / c;
    assert y == c * k + y % c;
    assert c * (k - m) == c * k - c * m;
    Multiple(c, k - m);
  }

  lemma Multiple(c: nat, a: int)
    ensures a >= 1 ==> c * a >= c
    ensures a <= -1 ==> c * a <= 0 - c
  {
    if a >= 1 {
      assert c * (a - 1) >= 0;
    } else if a <= -1 {
      assert c * (-1 - a) >= 0;
    }
  }

  lemma DivAdd(x: int, v: int, r: nat)
    requires r > 0
    ensures (x + r * v) / r == x / r + v
  {
    assert x + r * v == r * (x / r + v) + x % r;
    Exact(x + r * v, r, x / r + v, x % r);
  }

  /** One step of the chain. */
  lemma Nest(x: int, v: int, r: nat, d: nat)
    requires r > 0 && d > 0
    ensures r * d > 0 && (x / r + v) / d == (x + r * v) / (r * d)
  {
    DivAdd(x, v, r);
    DivDiv(x + r * v, r, d);
  }

  lemma QuotientStep(s: Fe, q: int, i: nat)
    requires i < 10
    ensures Quotient(s, q, i) == Quotient(s, (s[i] + q) / Radix(i), i + 1)
    ensures Value(s, i) == s[i] + Radix(i) * Value(s, i + 1)
  {
  }

  lemma QuotientFrom9(s: Fe, q: int)
    ensures Quotient(s, q, 9) == (Value(s, 9) + q) / 0x200_0000
  {
    hide Quotient, Value;
    QuotientStep(s, q, 9);
    QuotientDone(s, (s[9] + q) / 0x200_0000);
  }

  lemma QuotientFrom8(s: Fe, q: int)
    ensures Quotient(s, q, 8) == (Value(s, 8) + q) / 0x8_0000_0000_0000
  {
    hide Quotient, Value;
    QuotientStep(s, q, 8);
    QuotientFrom9(s, (s[8] + q) / 0x400_0000);
    Nest(s[8] + q, Value(s, 9), 0x400_0000, 0x200_0000);
  }

  lemma QuotientFrom7(s: Fe, q: int)
    ensures Quotient(s, q, 7) == (Value(s, 7) + q) / 0x1000_0000_0000_0000_0000
  {
    hide Quotient, Value;
    QuotientStep(s, q, 7);
    QuotientFrom8(s, (s[7] + q) / 0x200_0000);
    Nest(s[7] + q, Value(s, 8), 0x200_0000, 0x8_0000_0000_0000);
  }

  lemma QuotientFrom6(s: Fe, q: int)
    ensures Quotient(s, q, 6) == (Value(s, 6) + q) / 0x40_0000_0000_0000_0000_0000_0000
  {
    hide Quotient, Value;
    QuotientStep(s, q, 6);
    QuotientFrom7(s, (s[6] + q) / 0x400_0000);
    Nest(s[6] + q, Value(s, 7), 0x400_0000, 0x1000_0000_0000_0000_0000);
  }

  lemma QuotientFrom5(s: Fe, q: int)
    ensures Quotient(s, q, 5) == (Value(s, 5) + q) / 0x8000_0000_0000_0000_0000_0000_0000_0000
  {
    hide Quotient, Value;
    QuotientStep(s, q, 5);
    QuotientFrom6(s, (s[5] + q) / 0x200_0000);
    Nest(s[5] + q, Value(s, 6), 0x200_0000, 0x40_0000_0000_0000_0000_0000_0000);
  }

  lemma QuotientFrom4(s: Fe, q: int)
    ensures Quotient(s, q, 4) == (Value(s, 4) + q) / 0x200_0000_0000_0000_0000_0000_0000_0000_0000_0000
  {
    hide Quotient, Value;
    QuotientStep(s, q, 4);
    QuotientFrom5(s, (s[4] + q) / 0x400_0000);
    Nest(s[4] + q, Value(s, 5), 0x400_0000, 0x8000_0000_0000_0000_0000_0000_0000_0000);
  }

  lemma QuotientFrom3(s: Fe, q: int)
    ensures Quotient(s, q, 3) == (Value(s, 3) + q) / 0x4_0000_0000_0000_0000_0000_0000_0000_0000_0000_0000_0000
  {
    hide Quotient, Value;
    QuotientStep(s, q, 3);
    QuotientFrom4(s, (s[3] + q) / 0x200_0000);
    Nest(s[3] + q, Value(s, 4), 0x200_0000, 0x200_0000_0000_0000_0000_0000_0000_0000_0000_0000);
  }

  lemma QuotientFrom2(s: Fe, q: int)
    ensures Quotient(s, q, 2) == (Value(s, 2) + q) / 0x1000_0000_0000_0000_0000_0000_0000_0000_0000_0000_0000_0000_0000
  {
    hide Quotient, Value;
    QuotientStep(s, q, 2);
    QuotientFrom3(s, (s[2] + q) / 0x400_0000);
    Nest(s[2] + q, Value(s, 3), 0x400_0000, 0x4_0000_0000_0000_0000_0000_0000_0000_0000_0000_0000_0000);
  }

  lemma QuotientFrom1(s: Fe, q: int)
    ensures Quotient(s, q, 1) == (Value(s, 1)
      + q) / 0x20_0000_0000_0000_0000_0000_0000_0000_0000_0000_0000_0000_0000_0000_0000
  {
    hide Quotient, Value;
    QuotientStep(s, q, 1);
    QuotientFrom2(s, (s[1] + q) / 0x200_0000);
    Nest(s[1] + q, Value(s, 2), 0x200_0000, 0x1000_0000_0000_0000_0000_0000_0000_0000_0000_0000_0000_0000_0000);
  }

  lemma QuotientFrom0(s: Fe, q: int)
    ensures Quotient(s, q, 0) == (Value(s, 0)
      + q) / 0x8000_0000_0000_0000_0000_0000_0000_0000_0000_0000_0000_0000_0000_0000_0000_0000
  {
    hide Quotient, Value;
    QuotientStep(s, q, 0);
    QuotientFrom1(s, (s[0] + q) / 0x400_0000);
    Nest(s[0] + q, Value(s, 1), 0x400_0000, 0x20_0000_0000_0000_0000_0000_0000_0000_0000_0000_0000_0000_0000_0000_0000);
  }

  lemma QuotientDone(s: Fe, q: int)
    ensures Quotient(s, q, 10) == q && Value(s, 10) == 0
  {
  }

  /** The number lies within 2^231 of its last limb's share. */
  lemma TopLimb(s: Fe)
    requires Medium(s)
    ensures Within(Value(s, 0) - 0x40_0000_0000_0000_0000_0000_0000_0000_0000_0000_0000_0000_0000_0000_0000 * s[9],
                   0x80_0000_0000_0000_0000_0000_0000_0000_0000_0000_0000_0000_0000_0000_0000)
  {
    Expand(s);
  }

  /** The chain computes the quotient by the prime although it only divides by powers of two. */
  lemma QuotientIsExact(s: Fe)
    requires Medium(s)
    ensures Quotient(s, (19 * s[9] + 0x100_0000) / 0x200_0000, 0) == Value(s, 0) / PRIME
  {
    hide Value, Quotient, Medium;
    var q0, v := (19 * s[9] + 0x100_0000) / 0x200_0000, Value(s, 0);
    TopLimb(s);
    TopSmall(s);
    QuotientFrom0(s, q0);
    Rounded(v, s[9], q0);
  }

  lemma TopSmall(s: Fe)
    requires Medium(s)
    ensures Within(s[9], 36909875)
  {
  }

  lemma Rounded(v: int, top: int, q0: int)
    requires Within(v - 0x40_0000_0000_0000_0000_0000_0000_0000_0000_0000_0000_0000_0000_0000_0000 * top,
                    0x80_0000_0000_0000_0000_0000_0000_0000_0000_0000_0000_0000_0000_0000_0000) && Within(top, 36909875)
    requires 0x200_0000 * q0 <= 19 * top + 0x100_0000 < 0x200_0000 * q0 + 0x200_0000
    ensures (v + q0) / 0x8000_0000_0000_0000_0000_0000_0000_0000_0000_0000_0000_0000_0000_0000_0000_0000 == v / PRIME
  {
    var q, r := v / PRIME, v % PRIME;
    assert v == PRIME * q + r;
    assert 0 <= r - 19 * q + q0 < 0x8000_0000_0000_0000_0000_0000_0000_0000_0000_0000_0000_0000_0000_0000_0000_0000;
    assert v + q0 == 0x8000_0000_0000_0000_0000_0000_0000_0000_0000_0000_0000_0000_0000_0000_0000_0000 * q
      + (r - 19 * q + q0);
  }

  // ---- truncating carries ----

  predicate DownFits(s: Fe, i: nat) {
    i < 9 && Within(s[i], 0x6000_0000) && Within(s[i + 1], 0x6000_0000)
  }

  function CarryDown(s: Fe, i: nat): Fe
    requires DownFits(s, i)
  {
    var carry := s[i] / Radix(i);
    s[i + 1 := s[i + 1] + carry][i := s[i] - carry * Radix(i)]
  }

  ghost predicate DownCarried(s: Fe, k: nat) {
    && k <= 9
    && (forall i :: 0 <= i < k ==> 0 <= s[i] < Radix(i))
    && forall i :: k <= i < 10 ==> Within(s[i], if i == k then 0x600_0000 else 0x500_0000)
  }

  lemma DownStep(s: Fe, k: nat)
    requires DownCarried(s, k) && k < 9
    ensures DownFits(s, k) && DownCarried(CarryDown(s, k), k + 1) && Value(CarryDown(s, k), 0) == Value(s, 0)
  {
    hide Value;
    CarryNext(s, k, s[k] / Radix(k));
  }

  /** The limbs once carried down, the carry out of the last one dropped. */
  method CarryAll(s0: Fe) returns (s: Fe)
    requires DownCarried(s0, 0)
    ensures forall i :: 0 <= i < 10 ==> 0 <= s[i] < Radix(i)
    ensures exists carry ::
            Value(s, 0)
            == Value(s0, 0) - 0x8000_0000_0000_0000_0000_0000_0000_0000_0000_0000_0000_0000_0000_0000_0000_0000 * carry
  {
    hide CarryDown, DownFits, DownCarried, Value;
    s := s0;
    DownStep(s, 0);
    s := CarryDown(s, 0);
    DownStep(s, 1);
    s := CarryDown(s, 1);
    DownStep(s, 2);
    s := CarryDown(s, 2);
    DownStep(s, 3);
    s := CarryDown(s, 3);
    DownStep(s, 4);
    s := CarryDown(s, 4);
    DownStep(s, 5);
    s := CarryDown(s, 5);
    DownStep(s, 6);
    s := CarryDown(s, 6);
    DownStep(s, 7);
    s := CarryDown(s, 7);
    DownStep(s, 8);
    s := CarryDown(s, 8);
    ghost var t := s;
    DownFacts(s);
    var carry9 := s[9] / 0x200_0000;
    s := s[9 := s[9] - carry9 * 0x200_0000];
    DropTop(t, carry9);
  }

  lemma DownFacts(s: Fe)
    requires DownCarried(s, 9)
    ensures forall i :: 0 <= i < 9 ==> 0 <= s[i] < Radix(i)
  {
  }

  lemma DropTop(s: Fe, carry: int)
    ensures Value(s[9 := s[9] - carry * 0x200_0000], 0)
      == Value(s, 0) - 0x8000_0000_0000_0000_0000_0000_0000_0000_0000_0000_0000_0000_0000_0000_0000_0000 * carry
  {
    hide Value;
    Expand(s);
    Expand(s[9 := s[9] - carry * 0x200_0000]);
  }

  lemma IsReduced(s: Fe)
    requires forall i :: 0 <= i < 10 ==> 0 <= s[i] < Radix(i)
    ensures Reduced(s)
  {
  }

  lemma ReducedRange(s: Fe)
    requires forall i :: 0 <= i < 10 ==> 0 <= s[i] < Radix(i)
    ensures 0 <= Value(s, 0) < 0x8000_0000_0000_0000_0000_0000_0000_0000_0000_0000_0000_0000_0000_0000_0000_0000
  {
    Expand(s);
  }

  lemma Start(s: Fe, q: int)
    requires Medium(s) && -3 <= q <= 3
    ensures DownCarried(s[0 := s[0] + 19 * q], 0)
    ensures Value(s[0 := s[0] + 19 * q], 0) == Value(s, 0) + 19 * q
  {
    ValueTail(s, s[0 := s[0] + 19 * q], 1);
  }

  lemma SmallQuotient(s: Fe)
    requires Medium(s)
    ensures -3 <= Value(s, 0) / PRIME <= 3
  {
    Expand(s);
  }

  lemma Modulo(v: int, w: int, carry: int)
    requires w == v
      + 19 * (v / PRIME) - 0x8000_0000_0000_0000_0000_0000_0000_0000_0000_0000_0000_0000_0000_0000_0000_0000 * carry
        && 0 <= w < 0x8000_0000_0000_0000_0000_0000_0000_0000_0000_0000_0000_0000_0000_0000_0000_0000
    ensures w == v % PRIME
  {
    var q := v / PRIME;
    assert v + 19 * q == 0x8000_0000_0000_0000_0000_0000_0000_0000_0000_0000_0000_0000_0000_0000_0000_0000 * q
      + v % PRIME;
  }

  // ---- the bytes of reduced limbs ----

  predicate Reduced(s: Fe) {
    forall i :: 0 <= i < 10 ==> 0 <= s[i] < Radix(i)
  }

  /** The bytes of ten reduced limbs; the top bit is clear. */
  function Packed(s: Fe): (b: seq<Byte>)
    requires Reduced(s)
    ensures |b| == 32
  {
    [
      s[0] % 256,
      s[0] / 0x100 % 256,
      s[0] / 0x1_0000 % 256,
      s[0] / 0x100_0000 + s[1] % 64 * 4,
      s[1] / 0x40 % 256,
      s[1] / 0x4000 % 256,
      s[1] / 0x40_0000 + s[2] % 32 * 8,
      s[2] / 0x20 % 256,
      s[2] / 0x2000 % 256,
      s[2] / 0x20_0000 + s[3] % 8 * 32,
      s[3] / 0x8 % 256,
      s[3] / 0x800 % 256,
      s[3] / 0x8_0000 + s[4] % 4 * 64,
      s[4] / 0x4 % 256,
      s[4] / 0x400 % 256,
      s[4] / 0x4_0000 % 256,
      s[5] % 256,
      s[5] / 0x100 % 256,
      s[5] / 0x1_0000 % 256,
      s[5] / 0x100_0000 + s[6] % 128 * 2,
      s[6] / 0x80 % 256,
      s[6] / 0x8000 % 256,
      s[6] / 0x80_0000 + s[7] % 32 * 8,
      s[7] / 0x20 % 256,
      s[7] / 0x2000 % 256,
      s[7] / 0x20_0000 + s[8] % 16 * 16,
      s[8] / 0x10 % 256,
      s[8] / 0x1000 % 256,
      s[8] / 0x10_0000 + s[9] % 4 * 64,
      s[9] / 0x4 % 256,
      s[9] / 0x400 % 256,
      s[9] / 0x4_0000
    ]
  }

  /** A byte across two limbs. */
  lemma AcrossLimbs(y: int, w: nat, m: nat, r: nat, v: int)
    requires w in {2, 4, 8, 16, 32, 64, 128} && w * m == 256 && r in {0x200_0000, 0x400_0000}
    ensures w * (y + r * v) == y % m * w + 256 * (y / m + r / m * v)
  {
    if r == 0x200_0000 { AcrossShort(y, w, m, v); } else { AcrossLong(y, w, m, v); }
  }

  lemma AcrossShort(y: int, w: nat, m: nat, v: int)
    requires w in {2, 4, 8, 16, 32, 64, 128} && w * m == 256
    ensures w * (y + 0x200_0000 * v) == y % m * w + 256 * (y / m + 0x200_0000 / m * v)
  {
    if w == 2 {
      assert m == 128;
    } else if w == 4 {
      assert m == 64;
    } else if w == 8 {
      assert m == 32;
    } else if w == 16 {
      assert m == 16;
    } else if w == 32 {
      assert m == 8;
    } else if w == 64 {
      assert m == 4;
    } else {
      assert m == 2;
    }
  }

  lemma AcrossLong(y: int, w: nat, m: nat, v: int)
    requires w in {2, 4, 8, 16, 32, 64, 128} && w * m == 256
    ensures w * (y + 0x400_0000 * v) == y % m * w + 256 * (y / m + 0x400_0000 / m * v)
  {
    if w == 2 {
      assert m == 128;
    } else if w == 4 {
      assert m == 64;
    } else if w == 8 {
      assert m == 32;
    } else if w == 16 {
      assert m == 16;
    } else if w == 32 {
      assert m == 8;
    } else if w == 64 {
      assert m == 4;
    } else {
      assert m == 2;
    }
  }

  lemma PackedIn0(s: Fe)
    requires Reduced(s)
    ensures Packed(s)[0] == s[0] % 256
    ensures Packed(s)[1] == s[0] / 0x100 % 256
    ensures Packed(s)[2] == s[0] / 0x1_0000 % 256
    ensures Packed(s)[3] == s[0] / 0x100_0000 + s[1] % 64 * 4
  {
  }

  lemma Piece0(x: int, y: int, v: int)
    ensures x + 0x400_0000 * (y + 0x200_0000 * v)
      == x % 256 + 256 * (x / 0x100 % 256 + 256 * (x / 0x1_0000 % 256 + 256 * (x / 0x100_0000 + y % 64 * 4
        + 256 * (y / 0x40 + 0x8_0000 * v))))
  {
    assert x / 0x100 == x / 256;
    assert x / 0x1_0000 == x / 0x100 / 256;
    assert x / 0x100_0000 == x / 0x1_0000 / 256;
    AcrossLimbs(y, 4, 64, 0x200_0000, v);
  }

  lemma PackLimb0(s: Fe)
    requires Reduced(s)
    requires Bytes(Packed(s), 4) == s[1] / 0x40 + 0x8_0000 * Value(s, 2)
    ensures Bytes(Packed(s), 0) == s[0] + 0x400_0000 * Value(s, 1)
  {
    hide Value, Bytes, Packed;
    var b := Packed(s);
    PackedIn0(s);
    ValueNext(s, 1);
    Piece0(s[0], s[1], Value(s, 2));
    BytesStep(b, 0);
    BytesStep(b, 1);
    BytesStep(b, 2);
    BytesStep(b, 3);
  }

  lemma PackedIn1(s: Fe)
    requires Reduced(s)
    ensures Packed(s)[4] == s[1] / 0x40 % 256
    ensures Packed(s)[5] == s[1] / 0x4000 % 256
    ensures Packed(s)[6] == s[1] / 0x40_0000 + s[2] % 32 * 8
  {
  }

  lemma Piece1(x: int, y: int, v: int)
    ensures x / 0x40 + 0x8_0000 * (y + 0x400_0000 * v)
      == x / 0x40 % 256 + 256 * (x / 0x4000 % 256 + 256 * (x / 0x40_0000 + y % 32 * 8 + 256 * (y / 0x20
        + 0x20_0000 * v)))
  {
    assert x / 0x4000 == x / 0x40 / 256;
    assert x / 0x40_0000 == x / 0x4000 / 256;
    AcrossLimbs(y, 8, 32, 0x400_0000, v);
  }

  lemma PackLimb1(s: Fe)
    requires Reduced(s)
    requires Bytes(Packed(s), 7) == s[2] / 0x20 + 0x20_0000 * Value(s, 3)
    ensures Bytes(Packed(s), 4) == s[1] / 0x40 + 0x8_0000 * Value(s, 2)
  {
    hide Value, Bytes, Packed;
    var b := Packed(s);
    PackedIn1(s);
    ValueNext(s, 2);
    Piece1(s[1], s[2], Value(s, 3));
    BytesStep(b, 4);
    BytesStep(b, 5);
    BytesStep(b, 6);
  }

  lemma PackedIn2(s: Fe)
    requires Reduced(s)
    ensures Packed(s)[7] == s[2] / 0x20 % 256
    ensures Packed(s)[8] == s[2] / 0x2000 % 256
    ensures Packed(s)[9] == s[2] / 0x20_0000 + s[3] % 8 * 32
  {
  }

  lemma Piece2(x: int, y: int, v: int)
    ensures x / 0x20 + 0x20_0000 * (y + 0x200_0000 * v)
      == x / 0x20 % 256 + 256 * (x / 0x2000 % 256 + 256 * (x / 0x20_0000 + y % 8 * 32 + 256 * (y / 0x8
        + 0x40_0000 * v)))
  {
    assert x / 0x2000 == x / 0x20 / 256;
    assert x / 0x20_0000 == x / 0x2000 / 256;
    AcrossLimbs(y, 32, 8, 0x200_0000, v);
  }

  lemma PackLimb2(s: Fe)
    requires Reduced(s)
    requires Bytes(Packed(s), 10) == s[3] / 0x8 + 0x40_0000 * Value(s, 4)
    ensures Bytes(Packed(s), 7) == s[2] / 0x20 + 0x20_0000 * Value(s, 3)
  {
    hide Value, Bytes, Packed;
    var b := Packed(s);
    PackedIn2(s);
    ValueNext(s, 3);
    Piece2(s[2], s[3], Value(s, 4));
    BytesStep(b, 7);
    BytesStep(b, 8);
    BytesStep(b, 9);
  }

  lemma PackedIn3(s: Fe)
    requires Reduced(s)
    ensures Packed(s)[10] == s[3] / 0x8 % 256
    ensures Packed(s)[11] == s[3] / 0x800 % 256
    ensures Packed(s)[12] == s[3] / 0x8_0000 + s[4] % 4 * 64
  {
  }

  lemma Piece3(x: int, y: int, v: int)
    ensures x / 0x8 + 0x40_0000 * (y + 0x400_0000 * v)
      == x / 0x8 % 256 + 256 * (x / 0x800 % 256 + 256 * (x / 0x8_0000 + y % 4 * 64 + 256 * (y / 0x4 + 0x100_0000 * v)))
  {
    assert x / 0x800 == x / 0x8 / 256;
    assert x / 0x8_0000 == x / 0x800 / 256;
    AcrossLimbs(y, 64, 4, 0x400_0000, v);
  }

  lemma PackLimb3(s: Fe)
    requires Reduced(s)
    requires Bytes(Packed(s), 13) == s[4] / 0x4 + 0x100_0000 * Value(s, 5)
    ensures Bytes(Packed(s), 10) == s[3] / 0x8 + 0x40_0000 * Value(s, 4)
  {
    hide Value, Bytes, Packed;
    var b := Packed(s);
    PackedIn3(s);
    ValueNext(s, 4);
    Piece3(s[3], s[4], Value(s, 5));
    BytesStep(b, 10);
    BytesStep(b, 11);
    BytesStep(b, 12);
  }

  lemma PackedIn4(s: Fe)
    requires Reduced(s)
    ensures Packed(s)[13] == s[4] / 0x4 % 256
    ensures Packed(s)[14] == s[4] / 0x400 % 256
    ensures Packed(s)[15] == s[4] / 0x4_0000 % 256
  {
  }

  lemma Piece4(x: int, y: int, v: int)
    requires 0 <= x < 0x400_0000
    ensures x / 0x4 + 0x100_0000 * (y + 0x200_0000 * v)
      == x / 0x4 % 256 + 256 * (x / 0x400 % 256 + 256 * (x / 0x4_0000 % 256 + 256 * (y + 0x200_0000 * v)))
  {
    assert x / 0x400 == x / 0x4 / 256;
    assert x / 0x4_0000 == x / 0x400 / 256;
  }

  lemma PackLimb4(s: Fe)
    requires Reduced(s)
    requires Bytes(Packed(s), 16) == s[5] + 0x200_0000 * Value(s, 6)
    ensures Bytes(Packed(s), 13) == s[4] / 0x4 + 0x100_0000 * Value(s, 5)
  {
    hide Value, Bytes, Packed;
    var b := Packed(s);
    PackedIn4(s);
    ValueNext(s, 5);
    Piece4(s[4], s[5], Value(s, 6));
    BytesStep(b, 13);
    BytesStep(b, 14);
    BytesStep(b, 15);
  }

  lemma PackedIn5(s: Fe)
    requires Reduced(s)
    ensures Packed(s)[16] == s[5] % 256
    ensures Packed(s)[17] == s[5] / 0x100 % 256
    ensures Packed(s)[18] == s[5] / 0x1_0000 % 256
    ensures Packed(s)[19] == s[5] / 0x100_0000 + s[6] % 128 * 2
  {
  }

  lemma Piece5(x: int, y: int, v: int)
    ensures x + 0x200_0000 * (y + 0x400_0000 * v)
      == x % 256 + 256 * (x / 0x100 % 256 + 256 * (x / 0x1_0000 % 256 + 256 * (x / 0x100_0000 + y % 128 * 2
        + 256 * (y / 0x80 + 0x8_0000 * v))))
  {
    assert x / 0x100 == x / 256;
    assert x / 0x1_0000 == x / 0x100 / 256;
    assert x / 0x100_0000 == x / 0x1_0000 / 256;
    AcrossLimbs(y, 2, 128, 0x400_0000, v);
  }

  lemma PackLimb5(s: Fe)
    requires Reduced(s)
    requires Bytes(Packed(s), 20) == s[6] / 0x80 + 0x8_0000 * Value(s, 7)
    ensures Bytes(Packed(s), 16) == s[5] + 0x200_0000 * Value(s, 6)
  {
    hide Value, Bytes, Packed;
    var b := Packed(s);
    PackedIn5(s);
    ValueNext(s, 6);
    Piece5(s[5], s[6], Value(s, 7));
    BytesStep(b, 16);
    BytesStep(b, 17);
    BytesStep(b, 18);
    BytesStep(b, 19);
  }

  lemma PackedIn6(s: Fe)
    requires Reduced(s)
    ensures Packed(s)[20] == s[6] / 0x80 % 256
    ensures Packed(s)[21] == s[6] / 0x8000 % 256
    ensures Packed(s)[22] == s[6] / 0x80_0000 + s[7] % 32 * 8
  {
  }

  lemma Piece6(x: int, y: int, v: int)
    ensures x / 0x80 + 0x8_0000 * (y + 0x200_0000 * v)
      == x / 0x80 % 256 + 256 * (x / 0x8000 % 256 + 256 * (x / 0x80_0000 + y % 32 * 8 + 256 * (y / 0x20
        + 0x10_0000 * v)))
  {
    assert x / 0x8000 == x / 0x80 / 256;
    assert x / 0x80_0000 == x / 0x8000 / 256;
    AcrossLimbs(y, 8, 32, 0x200_0000, v);
  }

  lemma PackLimb6(s: Fe)
    requires Reduced(s)
    requires Bytes(Packed(s), 23) == s[7] / 0x20 + 0x10_0000 * Value(s, 8)
    ensures Bytes(Packed(s), 20) == s[6] / 0x80 + 0x8_0000 * Value(s, 7)
  {
    hide Value, Bytes, Packed;
    var b := Packed(s);
    PackedIn6(s);
    ValueNext(s, 7);
    Piece6(s[6], s[7], Value(s, 8));
    BytesStep(b, 20);
    BytesStep(b, 21);
    BytesStep(b, 22);
  }

  lemma PackedIn7(s: Fe)
    requires Reduced(s)
    ensures Packed(s)[23] == s[7] / 0x20 % 256
    ensures Packed(s)[24] == s[7] / 0x2000 % 256
    ensures Packed(s)[25] == s[7] / 0x20_0000 + s[8] % 16 * 16
  {
  }

  lemma Piece7(x: int, y: int, v: int)
    ensures x / 0x20 + 0x10_0000 * (y + 0x400_0000 * v)
      == x / 0x20 % 256 + 256 * (x / 0x2000 % 256 + 256 * (x / 0x20_0000 + y % 16 * 16 + 256 * (y / 0x10
        + 0x40_0000 * v)))
  {
    assert x / 0x2000 == x / 0x20 / 256;
    assert x / 0x20_0000 == x / 0x2000 / 256;
    AcrossLimbs(y, 16, 16, 0x400_0000, v);
  }

  lemma PackLimb7(s: Fe)
    requires Reduced(s)
    requires Bytes(Packed(s), 26) == s[8] / 0x10 + 0x40_0000 * Value(s, 9)
    ensures Bytes(Packed(s), 23) == s[7] / 0x20 + 0x10_0000 * Value(s, 8)
  {
    hide Value, Bytes, Packed;
    var b := Packed(s);
    PackedIn7(s);
    ValueNext(s, 8);
    Piece7(s[7], s[8], Value(s, 9));
    BytesStep(b, 23);
    BytesStep(b, 24);
    BytesStep(b, 25);
  }

  lemma PackedIn8(s: Fe)
    requires Reduced(s)
    ensures Packed(s)[26] == s[8] / 0x10 % 256
    ensures Packed(s)[27] == s[8] / 0x1000 % 256
    ensures Packed(s)[28] == s[8] / 0x10_0000 + s[9] % 4 * 64
  {
  }

  lemma Piece8(x: int, y: int, v: int)
    ensures x / 0x10 + 0x40_0000 * (y + 0x200_0000 * v)
      == x / 0x10 % 256 + 256 * (x / 0x1000 % 256 + 256 * (x / 0x10_0000 + y % 4 * 64 + 256 * (y / 0x4
        + 0x80_0000 * v)))
  {
    assert x / 0x1000 == x / 0x10 / 256;
    assert x / 0x10_0000 == x / 0x1000 / 256;
    AcrossLimbs(y, 64, 4, 0x200_0000, v);
  }

  lemma PackLimb8(s: Fe)
    requires Reduced(s)
    requires Bytes(Packed(s), 29) == s[9] / 0x4
    ensures Bytes(Packed(s), 26) == s[8] / 0x10 + 0x40_0000 * Value(s, 9)
  {
    hide Value, Bytes, Packed;
    var b := Packed(s);
    PackedIn8(s);
    ValueNext(s, 9);
    Piece8(s[8], s[9], Value(s, 10));
    BytesStep(b, 26);
    BytesStep(b, 27);
    BytesStep(b, 28);
  }

  lemma PackedIn9(s: Fe)
    requires Reduced(s)
    ensures Packed(s)[29] == s[9] / 0x4 % 256
    ensures Packed(s)[30] == s[9] / 0x400 % 256
    ensures Packed(s)[31] == s[9] / 0x4_0000
  {
  }

  lemma PackLimb9(s: Fe)
    requires Reduced(s)
    ensures Bytes(Packed(s), 29) == s[9] / 0x4
  {
    hide Value, Bytes, Packed;
    var b := Packed(s);
    PackedIn9(s);
    NoBytes(b);
    assert s[9] / 0x400 == s[9] / 0x4 / 256;
    assert s[9] / 0x4_0000 == s[9] / 0x400 / 256;
    BytesStep(b, 29);
    BytesStep(b, 30);
    BytesStep(b, 31);
  }

  lemma ValueNext(s: Fe, i: nat)
    requires i < 10
    ensures Value(s, i) == s[i] + Radix(i) * Value(s, i + 1)
    ensures i == 9 ==> Value(s, 10) == 0
  {
  }

  /** Packing keeps the number. */
  lemma PackedValue(s: Fe)
    requires Reduced(s)
    ensures Bytes(Packed(s), 0) == Value(s, 0)
  {
    hide Packed, Bytes, Value, Reduced;
    ValueNext(s, 9);
    PackLimb9(s);
    PackLimb8(s);
    PackLimb7(s);
    PackLimb6(s);
    PackLimb5(s);
    ValueNext(s, 5);
    PackLimb4(s);
    PackLimb3(s);
    PackLimb2(s);
    PackLimb1(s);
    PackLimb0(s);
    ValueNext(s, 0);
  }

  /** The shifts that start fe_tobytes: the quotient by the prime. */
  /** A right shift of a thirty-two-bit number. */
  function Shift(x: int, r: nat): int
    requires Fits32(x) && r > 0
  {
    x / r
  }

  lemma MediumFits(f: Fe)
    requires Medium(f)
    ensures Within(f[9], 36909875) && forall i :: 0 <= i < 10 ==> Within(f[i], 73819750)
  {
  }

  method Divide(f: Fe) returns (q: int)
    requires Medium(f)
    ensures q == Value(f, 0) / PRIME
  {
    hide Medium, Value, Quotient, Radix;
    Radices();
    MediumFits(f);
    QuotientIsExact(f);
    q := Shift(19 * f[9] + 0x100_0000, 0x200_0000);
    ChainStep(f, q, 0);
    q := Shift(f[0] + q, 0x400_0000);
    ChainStep(f, q, 1);
    q := Shift(f[1] + q, 0x200_0000);
    ChainStep(f, q, 2);
    q := Shift(f[2] + q, 0x400_0000);
    ChainStep(f, q, 3);
    q := Shift(f[3] + q, 0x200_0000);
    ChainStep(f, q, 4);
    q := Shift(f[4] + q, 0x400_0000);
    ChainStep(f, q, 5);
    q := Shift(f[5] + q, 0x200_0000);
    ChainStep(f, q, 6);
    q := Shift(f[6] + q, 0x400_0000);
    ChainStep(f, q, 7);
    q := Shift(f[7] + q, 0x200_0000);
    ChainStep(f, q, 8);
    q := Shift(f[8] + q, 0x400_0000);
    ChainStep(f, q, 9);
    q := Shift(f[9] + q, 0x200_0000);
    QuotientDone(f, q);
  }

  lemma ChainStep(s: Fe, q: int, i: nat)
    requires i < 10 && Within(s[i], 73819750) && Within(q, 32)
    ensures Quotient(s, q, i) == Quotient(s, (s[i] + q) / Radix(i), i + 1) && Within((s[i] + q) / Radix(i), 32)
  {
  }

  lemma Radices()
    ensures forall i :: 0 <= i < 10 ==> Radix(i) == if i % 2 == 0 then 0x400_0000 else 0x200_0000
  {
  }

  /** fe_tobytes: the unique bytes of the element, between 0 and the prime. */
  method FeToBytes(f: Fe) returns (b: seq<Byte>)
    requires Medium(f)
    ensures |b| == 32 && Bytes(b, 0) == Residue(f)
  {
    hide Medium, Value, Bytes, Packed, DownCarried, Reduced;
    SmallQuotient(f);
    var q := Divide(f);
    Start(f, q);
    var s := CarryAll(f[0 := f[0] + 19 * q]);
    ReducedRange(s);
    ghost var carry :| Value(s, 0) == Value(f, 0)
      + 19 * q - 0x8000_0000_0000_0000_0000_0000_0000_0000_0000_0000_0000_0000_0000_0000_0000_0000 * carry;
    Modulo(Value(f, 0), Value(s, 0), carry);
    IsReduced(s);
    PackedValue(s);
    b := Packed(s);
  }

  // ---- reading ----

  /** The limbs fe_frombytes starts from; the top bit of the last byte is ignored. */
  function Loaded(b: seq<Byte>): Fe
    requires |b| == 32
  {
    [
      Load4(b, 0),
      Load3(b, 4) * 0x40,
      Load3(b, 7) * 0x20,
      Load3(b, 10) * 0x8,
      Load3(b, 13) * 0x4,
      Load4(b, 16),
      Load3(b, 20) * 0x80,
      Load3(b, 23) * 0x20,
      Load3(b, 26) * 0x10,
      Load3(b, 29) % 0x80_0000 * 0x4
    ]
  }

  lemma Bytes4(b: seq<Byte>, p: nat)
    requires p + 4 <= |b|
    ensures Bytes(b, p) == Load4(b, p) + 0x1_0000_0000 * Bytes(b, p + 4)
  {
    Bytes3(b, p);
    assert Bytes(b, p + 3) == b[p + 3] as int + 256 * Bytes(b, p + 4);
  }

  lemma BytesAsLoads(b: seq<Byte>)
    requires |b| == 32
    ensures Bytes(b, 0) == Load4(b, 0) + 0x1_0000_0000 * Load3(b, 4) + 0x100_0000_0000_0000 * Load3(b, 7)
      + 0x1_0000_0000_0000_0000_0000 * Load3(b, 10) + 0x100_0000_0000_0000_0000_0000_0000 * Load3(b, 13)
      + 0x1_0000_0000_0000_0000_0000_0000_0000_0000 * Load4(b, 16)
      + 0x1_0000_0000_0000_0000_0000_0000_0000_0000_0000_0000 * Load3(b, 20)
      + 0x100_0000_0000_0000_0000_0000_0000_0000_0000_0000_0000_0000 * Load3(b, 23)
      + 0x1_0000_0000_0000_0000_0000_0000_0000_0000_0000_0000_0000_0000_0000 * Load3(b, 26)
      + 0x100_0000_0000_0000_0000_0000_0000_0000_0000_0000_0000_0000_0000_0000_0000 * Load3(b, 29)
  {
    hide Load3, Load4, Bytes;
    NoBytes(b);
    Bytes3(b, 29);
    Bytes3(b, 26);
    Bytes3(b, 23);
    Bytes3(b, 20);
    Bytes4(b, 16);
    Bytes3(b, 13);
    Bytes3(b, 10);
    Bytes3(b, 7);
    Bytes3(b, 4);
    Bytes4(b, 0);
    assert Bytes(b, 29) == Load3(b, 29);
    assert Bytes(b, 26) == Load3(b, 26) + 0x100_0000 * Load3(b, 29);
    assert Bytes(b, 23) == Load3(b, 23) + 0x100_0000 * Load3(b, 26) + 0x1_0000_0000_0000 * Load3(b, 29);
    assert Bytes(b, 20) == Load3(b, 20) + 0x100_0000 * Load3(b, 23) + 0x1_0000_0000_0000 * Load3(b, 26)
      + 0x100_0000_0000_0000_0000 * Load3(b, 29);
    assert Bytes(b, 16) == Load4(b, 16) + 0x1_0000_0000 * Load3(b, 20) + 0x100_0000_0000_0000 * Load3(b, 23)
      + 0x1_0000_0000_0000_0000_0000 * Load3(b, 26) + 0x100_0000_0000_0000_0000_0000_0000 * Load3(b, 29);
    assert Bytes(b, 13) == Load3(b, 13) + 0x100_0000 * Load4(b, 16) + 0x100_0000_0000_0000 * Load3(b, 20)
      + 0x1_0000_0000_0000_0000_0000 * Load3(b, 23) + 0x100_0000_0000_0000_0000_0000_0000 * Load3(b, 26)
      + 0x1_0000_0000_0000_0000_0000_0000_0000_0000 * Load3(b, 29);
    assert Bytes(b, 10) == Load3(b, 10) + 0x100_0000 * Load3(b, 13) + 0x1_0000_0000_0000 * Load4(b, 16)
      + 0x1_0000_0000_0000_0000_0000 * Load3(b, 20) + 0x100_0000_0000_0000_0000_0000_0000 * Load3(b, 23)
      + 0x1_0000_0000_0000_0000_0000_0000_0000_0000 * Load3(b, 26)
      + 0x100_0000_0000_0000_0000_0000_0000_0000_0000_0000 * Load3(b, 29);
    assert Bytes(b, 7) == Load3(b, 7) + 0x100_0000 * Load3(b, 10) + 0x1_0000_0000_0000 * Load3(b, 13)
      + 0x100_0000_0000_0000_0000 * Load4(b, 16) + 0x100_0000_0000_0000_0000_0000_0000 * Load3(b, 20)
      + 0x1_0000_0000_0000_0000_0000_0000_0000_0000 * Load3(b, 23)
      + 0x100_0000_0000_0000_0000_0000_0000_0000_0000_0000 * Load3(b, 26)
      + 0x1_0000_0000_0000_0000_0000_0000_0000_0000_0000_0000_0000 * Load3(b, 29);
    assert Bytes(b, 4) == Load3(b, 4) + 0x100_0000 * Load3(b, 7) + 0x1_0000_0000_0000 * Load3(b, 10)
      + 0x100_0000_0000_0000_0000 * Load3(b, 13) + 0x1_0000_0000_0000_0000_0000_0000 * Load4(b, 16)
      + 0x1_0000_0000_0000_0000_0000_0000_0000_0000 * Load3(b, 20)
      + 0x100_0000_0000_0000_0000_0000_0000_0000_0000_0000 * Load3(b, 23)
      + 0x1_0000_0000_0000_0000_0000_0000_0000_0000_0000_0000_0000 * Load3(b, 26)
      + 0x100_0000_0000_0000_0000_0000_0000_0000_0000_0000_0000_0000_0000 * Load3(b, 29);
    assert Bytes(b, 0) == Load4(b, 0) + 0x1_0000_0000 * Load3(b, 4) + 0x100_0000_0000_0000 * Load3(b, 7)
      + 0x1_0000_0000_0000_0000_0000 * Load3(b, 10) + 0x100_0000_0000_0000_0000_0000_0000 * Load3(b, 13)
      + 0x1_0000_0000_0000_0000_0000_0000_0000_0000 * Load4(b, 16)
      + 0x1_0000_0000_0000_0000_0000_0000_0000_0000_0000_0000 * Load3(b, 20)
      + 0x100_0000_0000_0000_0000_0000_0000_0000_0000_0000_0000_0000 * Load3(b, 23)
      + 0x1_0000_0000_0000_0000_0000_0000_0000_0000_0000_0000_0000_0000_0000 * Load3(b, 26)
      + 0x100_0000_0000_0000_0000_0000_0000_0000_0000_0000_0000_0000_0000_0000_0000 * Load3(b, 29);
  }

  lemma LoadedValue(b: seq<Byte>)
    requires |b| == 32
    ensures Value(Loaded(b), 0)
      == Bytes(b, 0) % 0x8000_0000_0000_0000_0000_0000_0000_0000_0000_0000_0000_0000_0000_0000_0000_0000
  {
    hide Load3, Load4, Bytes, Value;
    LoadedSum(b);
    LoadBounds(b);
    LowBits(Bytes(b, 0), Value(Loaded(b), 0), Load3(b, 29) / 0x80_0000);
  }

  lemma LoadedSum(b: seq<Byte>)
    requires |b| == 32
    ensures Bytes(b, 0) == Value(Loaded(b), 0)
      + 0x8000_0000_0000_0000_0000_0000_0000_0000_0000_0000_0000_0000_0000_0000_0000_0000 * (Load3(b, 29) / 0x80_0000)
  {
    hide Load3, Load4, Bytes, Value;
    Expand(Loaded(b));
    BytesAsLoads(b);
    var top := Load3(b, 29);
    assert top == top % 0x80_0000 + 0x80_0000 * (top / 0x80_0000);
  }

  lemma LowBits(v: int, w: int, t: int)
    requires v == w
      + 0x8000_0000_0000_0000_0000_0000_0000_0000_0000_0000_0000_0000_0000_0000_0000_0000 * t
        && 0 <= w < 0x8000_0000_0000_0000_0000_0000_0000_0000_0000_0000_0000_0000_0000_0000_0000_0000
    ensures v % 0x8000_0000_0000_0000_0000_0000_0000_0000_0000_0000_0000_0000_0000_0000_0000_0000 == w
  {
  }

  lemma Limits(b: seq<Byte>, p: nat)
    requires p + 3 <= |b|
    ensures 0 <= Load3(b, p) < 0x100_0000
    ensures p + 4 <= |b| ==> 0 <= Load4(b, p) < 0x1_0000_0000
  {
  }

  lemma LoadBounds(b: seq<Byte>)
    requires |b| == 32
    ensures forall i :: 0 <= i < 10 ==> 0 <= Loaded(b)[i] < 0x1_0000_0000
    ensures 0 <= Value(Loaded(b), 0) < 0x8000_0000_0000_0000_0000_0000_0000_0000_0000_0000_0000_0000_0000_0000_0000_0000
  {
    hide Value, Load3, Load4;
    Expand(Loaded(b));
    Limits(b, 0);
    Limits(b, 4);
    Limits(b, 7);
    Limits(b, 10);
    Limits(b, 13);
    Limits(b, 16);
    Limits(b, 20);
    Limits(b, 23);
    Limits(b, 26);
    Limits(b, 29);
  }

  /** How large the limbs are after the odd limbs from 9 have been carried, n of them. */
  ghost predicate OddCarried(s: Fe, n: nat) {
    && n <= 5
    && Within(s[0], if n < 1 then 0x1_0000_0000 else 0x1_8000_0000)
    && (forall i :: 1 <= i < 9 && i % 2 == 1 ==> Within(s[i], if i < 2 * n - 1 then 0x100_0000 else 0x1_0000_0000))
    && (forall i :: 2 <= i < 10 && i % 2 == 0 ==> Within(s[i], if i < 2 * n then 0x1_8000_0000 else 0x1_0000_0000))
    && Within(s[9], if n < 1 then 0x1_0000_0000 else 0x100_0000)
  }

  /** How large the limbs are after the even limbs have been carried, n of them. */
  ghost predicate EvenCarried(s: Fe, n: nat) {
    && n <= 5
    && (forall i :: 0 <= i < 10 && i % 2 == 0 ==> Within(s[i], if i < 2 * n then 0x200_0000 else 0x1_8000_0000))
    && forall i :: 0 <= i < 10 && i % 2 == 1 ==> Within(s[i], if i < 2 * n then 0x100_0100 else 0x100_0000)
  }

  lemma OddStep(s: Fe, n: nat)
    requires OddCarried(s, n) && n < 5
    ensures var i := if n == 0 then 9 else 2 * n - 1;
      CarryFits(s, i) && OddCarried(Carry(s, i), n + 1) && Residue(Carry(s, i)) == Residue(s)
  {
    hide Carry, Residue;
    var i := if n == 0 then 9 else 2 * n - 1;
    CarryBounds(s, i, 0x1_0000_0000);
    CarryResidue(s, i);
  }

  lemma EvenStep(s: Fe, n: nat)
    requires EvenCarried(s, n) && n < 5
    ensures CarryFits(s, 2 * n) && EvenCarried(Carry(s, 2 * n), n + 1) && Residue(Carry(s, 2 * n)) == Residue(s)
  {
    hide Carry, Residue;
    CarryBounds(s, 2 * n, 0x1_8000_0000);
    CarryResidue(s, 2 * n);
  }

  lemma OddStart(s: Fe)
    requires forall i :: 0 <= i < 10 ==> 0 <= s[i] < 0x1_0000_0000
    ensures OddCarried(s, 0)
  {
  }

  lemma OddToEven(s: Fe)
    requires OddCarried(s, 5)
    ensures EvenCarried(s, 0)
  {
  }

  lemma EvenEnd(s: Fe)
    requires EvenCarried(s, 5)
    ensures Tight(s)
  {
  }

  /** fe_frombytes: the element the low 255 bits stand for. */
  method FeFromBytes(b: seq<Byte>) returns (s: Fe)
    requires |b| == 32
    ensures Tight(s)
      && Residue(s)
        == Bytes(b, 0) % 0x8000_0000_0000_0000_0000_0000_0000_0000_0000_0000_0000_0000_0000_0000_0000_0000 % PRIME
  {
    hide Carry, CarryFits, Residue, OddCarried, EvenCarried, Loaded, Bytes, Value, Tight;
    LoadBounds(b);
    LoadedResidue(b);
    s := Loaded(b);
    OddStart(s);
    OddStep(s, 0);
    s := Carry(s, 9);
    OddStep(s, 1);
    s := Carry(s, 1);
    OddStep(s, 2);
    s := Carry(s, 3);
    OddStep(s, 3);
    s := Carry(s, 5);
    OddStep(s, 4);
    s := Carry(s, 7);
    OddToEven(s);
    EvenStep(s, 0);
    s := Carry(s, 0);
    EvenStep(s, 1);
    s := Carry(s, 2);
    EvenStep(s, 2);
    s := Carry(s, 4);
    EvenStep(s, 3);
    s := Carry(s, 6);
    EvenStep(s, 4);
    s := Carry(s, 8);
    EvenEnd(s);
  }

  lemma LoadedResidue(b: seq<Byte>)
    requires |b| == 32
    ensures Residue(Loaded(b))
      == Bytes(b, 0) % 0x8000_0000_0000_0000_0000_0000_0000_0000_0000_0000_0000_0000_0000_0000_0000_0000 % PRIME
  {
    hide Loaded, Bytes, Value;
    LoadedValue(b);
  }

  // ---- both ways ----

  lemma {:induction false} BytesInjective(a: seq<Byte>, b: seq<Byte>, i: nat)
    requires |a| == |b| && i <= |a| && Bytes(a, i) == Bytes(b, i)
    ensures a[i..] == b[i..]
    decreases |a| - i
  {
    if i < |a| {
      assert a[i] == Bytes(a, i) % 256 && b[i] == Bytes(b, i) % 256;
      BytesInjective(a, b, i + 1);
      assert a[i..] == [a[i]] + a[i + 1..] && b[i..] == [b[i]] + b[i + 1..];
    }
  }

  /** Reading and writing back gives the same bytes exactly when they were canonical. */
  method ReadWrite(b: seq<Byte>) returns (c: seq<Byte>)
    requires |b| == 32
    ensures |c| == 32 && (c == b <==> Bytes(b, 0) < PRIME)
    ensures Bytes(c, 0)
      == Bytes(b, 0) % 0x8000_0000_0000_0000_0000_0000_0000_0000_0000_0000_0000_0000_0000_0000_0000_0000 % PRIME
  {
    hide Bytes, Residue, Tight, Medium;
    var f := FeFromBytes(b);
    TightIsMedium(f);
    c := FeToBytes(f);
    SameBytes(b, c);
  }

  lemma SameBytes(b: seq<Byte>, c: seq<Byte>)
    requires |b| == |c| == 32
      && Bytes(c, 0)
        == Bytes(b, 0) % 0x8000_0000_0000_0000_0000_0000_0000_0000_0000_0000_0000_0000_0000_0000_0000_0000 % PRIME
    ensures c == b <==> Bytes(b, 0) < PRIME
  {
    hide Bytes;
    if Bytes(b, 0) < PRIME {
      BytesInjective(b, c, 0);
      assert b[0..] == b && c[0..] == c;
    }
  }

  /** Writing and reading back keeps the element modulo the prime. */
  method WriteRead(f: Fe) returns (g: Fe)
    requires Medium(f)
    ensures Tight(g) && Residue(g) == Residue(f)
  {
    hide Bytes, Value, Tight, Medium;
    var b := FeToBytes(f);
    g := FeFromBytes(b);
  }
}
