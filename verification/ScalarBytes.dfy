/** How scalars are read from and written to bytes (Externals/ed25519/sc.c). A mask, a shift and
    an or of disjoint bits are written as remainder, quotient and sum. */
module ScalarBytes {
  import opened ScalarRecoding
  import opened ScalarField

  function Load3(b: seq<Byte>, i: nat): int
    requires i + 3 <= |b|
  {
    b[i] as int + 0x100 * (b[i + 1] as int) + 0x1_0000 * (b[i + 2] as int)
  }

  function Load4(b: seq<Byte>, i: nat): int
    requires i + 4 <= |b|
  {
    Load3(b, i) + 0x100_0000 * (b[i + 3] as int)
  }

  /** Eight limbs from twenty-one bytes; the pattern repeats every twenty-one bytes. */
  function LoadEight(b: seq<Byte>, o: nat): (s: seq<int>)
    requires o + 21 <= |b|
    ensures |s| == 8
  {
    [
      Load3(b, o) % LIMB,
      Load4(b, o + 2) / 0x20 % LIMB,
      Load3(b, o + 5) / 0x4 % LIMB,
      Load4(b, o + 7) / 0x80 % LIMB,
      Load4(b, o + 10) / 0x10 % LIMB,
      Load3(b, o + 13) / 0x2 % LIMB,
      Load4(b, o + 15) / 0x40 % LIMB,
      Load3(b, o + 18) / 0x8 % LIMB
    ]
  }

  /** The twenty-four limbs of sixty-four bytes; the last one is longer. */
  function LoadLong(b: seq<Byte>): (s: seq<int>)
    requires |b| == 64
    ensures |s| == 24
  {
    LoadEight(b, 0) + LoadEight(b, 21) + LoadEight(b, 42)[..7] + [Load4(b, 60) / 0x8]
  }

  /** The twelve limbs of thirty-two bytes; the last one is longer. */
  function LoadScalar(b: seq<Byte>): (s: seq<int>)
    requires |b| == 32
    ensures |s| == 12
  {
    LoadEight(b, 0) + [Load3(b, 21) % LIMB, Load4(b, 23) / 0x20 % LIMB, Load3(b, 26) / 0x4 % LIMB, Load4(b, 28) / 0x80]
  }

  lemma Bytes3(b: seq<Byte>, p: nat)
    requires p + 3 <= |b|
    ensures Bytes(b, p) == Load3(b, p) + 0x100_0000 * Bytes(b, p + 3)
  {
    assert Bytes(b, p + 1) == b[p + 1] + 256 * (b[p + 2] + 256 * Bytes(b, p + 3));
  }

  /** A limb read from four bytes is the next twenty-one bits. */
  lemma Four(b: seq<Byte>, p: nat, shift: nat)
    requires p + 4 <= |b| && shift in {4, 5, 6, 7}
    ensures Bytes(b, p) / Pow2(shift) == Load4(b, p) / Pow2(shift) % LIMB + LIMB * (Bytes(b, p + 3) / Pow2(shift - 3))
  {
    Bytes3(b, p);
    var low, top, rest := Load3(b, p), b[p + 3], Bytes(b, p + 4);
    assert Bytes(b, p + 3) == top + 0x100 * rest;
    Powers();
    if shift == 4 {
      FourBits4(low, top, rest);
    } else if shift == 5 {
      FourBits5(low, top, rest);
    } else if shift == 6 {
      FourBits6(low, top, rest);
    } else {
      FourBits7(low, top, rest);
    }
  }

  lemma Powers()
    ensures Pow2(0) == 1 && Pow2(1) == 2 && Pow2(2) == 4 && Pow2(3) == 8 && Pow2(4) == 16
    ensures Pow2(5) == 32 && Pow2(6) == 64 && Pow2(7) == 128 && Pow2(8) == 256
  {
    assert Pow2(4) == 2 * (2 * (2 * (2 * Pow2(0))));
    assert Pow2(8) == 2 * (2 * (2 * (2 * Pow2(4))));
  }

  lemma FourBits4(low: int, top: Byte, rest: nat)
    requires 0 <= low < 0x100_0000
    ensures (low + 0x100_0000 * (top + 0x100 * rest)) / 16
      == (low + 0x100_0000 * top) / 16 % LIMB + LIMB * ((top + 0x100 * rest) / 2)
  {
    assert (low + 0x100_0000 * (top + 0x100 * rest)) / 16 == low / 16 + 0x10_0000 * (top + 0x100 * rest);
    assert (low + 0x100_0000 * top) / 16 == low / 16 + 0x10_0000 * top;
    assert (top + 0x100 * rest) / 2 == top / 2 + 128 * rest;
    assert low / 16 + 0x10_0000 * top == low / 16 + 0x10_0000 * (top % 2) + LIMB * (top / 2);
  }

  lemma FourBits5(low: int, top: Byte, rest: nat)
    requires 0 <= low < 0x100_0000
    ensures (low + 0x100_0000 * (top + 0x100 * rest)) / 32
      == (low + 0x100_0000 * top) / 32 % LIMB + LIMB * ((top + 0x100 * rest) / 4)
  {
    assert (low + 0x100_0000 * (top + 0x100 * rest)) / 32 == low / 32 + 0x8_0000 * (top + 0x100 * rest);
    assert (low + 0x100_0000 * top) / 32 == low / 32 + 0x8_0000 * top;
    assert (top + 0x100 * rest) / 4 == top / 4 + 64 * rest;
    assert low / 32 + 0x8_0000 * top == low / 32 + 0x8_0000 * (top % 4) + LIMB * (top / 4);
  }

  lemma FourBits6(low: int, top: Byte, rest: nat)
    requires 0 <= low < 0x100_0000
    ensures (low + 0x100_0000 * (top + 0x100 * rest)) / 64
      == (low + 0x100_0000 * top) / 64 % LIMB + LIMB * ((top + 0x100 * rest) / 8)
  {
    assert (low + 0x100_0000 * (top + 0x100 * rest)) / 64 == low / 64 + 0x4_0000 * (top + 0x100 * rest);
    assert (low + 0x100_0000 * top) / 64 == low / 64 + 0x4_0000 * top;
    assert (top + 0x100 * rest) / 8 == top / 8 + 32 * rest;
    assert low / 64 + 0x4_0000 * top == low / 64 + 0x4_0000 * (top % 8) + LIMB * (top / 8);
  }

  lemma FourBits7(low: int, top: Byte, rest: nat)
    requires 0 <= low < 0x100_0000
    ensures (low + 0x100_0000 * (top + 0x100 * rest)) / 128
      == (low + 0x100_0000 * top) / 128 % LIMB + LIMB * ((top + 0x100 * rest) / 16)
  {
    assert (low + 0x100_0000 * (top + 0x100 * rest)) / 128 == low / 128 + 0x2_0000 * (top + 0x100 * rest);
    assert (low + 0x100_0000 * top) / 128 == low / 128 + 0x2_0000 * top;
    assert (top + 0x100 * rest) / 16 == top / 16 + 16 * rest;
    assert low / 128 + 0x2_0000 * top == low / 128 + 0x2_0000 * (top % 16) + LIMB * (top / 16);
  }

  /** A limb read from three bytes is the next twenty-one bits. */
  lemma Three(b: seq<Byte>, p: nat, shift: nat)
    requires p + 3 <= |b| && shift in {0, 1, 2, 3}
    ensures Bytes(b, p) / Pow2(shift) == Load3(b, p) / Pow2(shift) % LIMB + LIMB * (Bytes(b, p + 2) / Pow2(shift + 5))
  {
    Bytes3(b, p);
    var low, top, rest := b[p] as int + 0x100 * (b[p + 1] as int), b[p + 2], Bytes(b, p + 3);
    assert Bytes(b, p + 2) == top + 0x100 * rest;
    Powers();
    if shift == 0 {
      ThreeBits0(low, top, rest);
    } else if shift == 1 {
      ThreeBits1(low, top, rest);
    } else if shift == 2 {
      ThreeBits2(low, top, rest);
    } else {
      ThreeBits3(low, top, rest);
    }
  }

  lemma ThreeBits0(low: int, top: Byte, rest: nat)
    requires 0 <= low < 0x1_0000
    ensures (low + 0x1_0000 * (top + 0x100 * rest)) / 1
      == (low + 0x1_0000 * top) / 1 % LIMB + LIMB * ((top + 0x100 * rest) / 32)
  {
    assert (low + 0x1_0000 * (top + 0x100 * rest)) / 1 == low / 1 + 0x1_0000 * (top + 0x100 * rest);
    assert (low + 0x1_0000 * top) / 1 == low / 1 + 0x1_0000 * top;
    assert (top + 0x100 * rest) / 32 == top / 32 + 8 * rest;
    assert low / 1 + 0x1_0000 * top == low / 1 + 0x1_0000 * (top % 32) + LIMB * (top / 32);
  }

  lemma ThreeBits1(low: int, top: Byte, rest: nat)
    requires 0 <= low < 0x1_0000
    ensures (low + 0x1_0000 * (top + 0x100 * rest)) / 2
      == (low + 0x1_0000 * top) / 2 % LIMB + LIMB * ((top + 0x100 * rest) / 64)
  {
    assert (low + 0x1_0000 * (top + 0x100 * rest)) / 2 == low / 2 + 0x8000 * (top + 0x100 * rest);
    assert (low + 0x1_0000 * top) / 2 == low / 2 + 0x8000 * top;
    assert (top + 0x100 * rest) / 64 == top / 64 + 4 * rest;
    assert low / 2 + 0x8000 * top == low / 2 + 0x8000 * (top % 64) + LIMB * (top / 64);
  }

  lemma ThreeBits2(low: int, top: Byte, rest: nat)
    requires 0 <= low < 0x1_0000
    ensures (low + 0x1_0000 * (top + 0x100 * rest)) / 4
      == (low + 0x1_0000 * top) / 4 % LIMB + LIMB * ((top + 0x100 * rest) / 128)
  {
    assert (low + 0x1_0000 * (top + 0x100 * rest)) / 4 == low / 4 + 0x4000 * (top + 0x100 * rest);
    assert (low + 0x1_0000 * top) / 4 == low / 4 + 0x4000 * top;
    assert (top + 0x100 * rest) / 128 == top / 128 + 2 * rest;
    assert low / 4 + 0x4000 * top == low / 4 + 0x4000 * (top % 128) + LIMB * (top / 128);
  }

  lemma ThreeBits3(low: int, top: Byte, rest: nat)
    requires 0 <= low < 0x1_0000
    ensures (low + 0x1_0000 * (top + 0x100 * rest)) / 8
      == (low + 0x1_0000 * top) / 8 % LIMB + LIMB * ((top + 0x100 * rest) / 256)
  {
    assert (low + 0x1_0000 * (top + 0x100 * rest)) / 8 == low / 8 + 0x2000 * (top + 0x100 * rest);
    assert (low + 0x1_0000 * top) / 8 == low / 8 + 0x2000 * top;
    assert (top + 0x100 * rest) / 256 == top / 256 + 1 * rest;
    assert low / 8 + 0x2000 * top == low / 8 + 0x2000 * (top % 256) + LIMB * (top / 256);
  }

  /** The number with limbs e below the number rest. */
  function Stack(e: seq<int>, i: nat, rest: int): int
    decreases |e| - i
  {
    if i >= |e| then rest else e[i] + LIMB * Stack(e, i + 1, rest)
  }

  lemma {:induction false} ValueStack(e: seq<int>, t: seq<int>, i: nat)
    requires i <= |e|
    ensures Value(e + t, i) == Stack(e, i, Value(t, 0))
    decreases |e| - i
  {
    if i < |e| { ValueStack(e, t, i + 1); } else { ValueDrop(e, t, |e|); }
  }

  lemma {:induction false} ValueDrop(e: seq<int>, t: seq<int>, i: nat)
    requires |e| <= i <= |e| + |t|
    ensures Value(e + t, i) == Value(t, i - |e|)
    decreases |e| + |t| - i
  {
    if i < |e| + |t| { ValueDrop(e, t, i + 1); }
  }

  lemma StackStep(e: seq<int>, i: nat, rest: int)
    requires i < |e|
    ensures Stack(e, i, rest) == e[i] + LIMB * Stack(e, i + 1, rest)
  {
  }

  lemma StackEnd(e: seq<int>, rest: int)
    ensures Stack(e, |e|, rest) == rest
  {
  }

  /** Eight limbs and what follows them make up the bytes. */
  lemma LoadEightStack(b: seq<Byte>, o: nat)
    requires o + 21 <= |b|
    ensures Stack(LoadEight(b, o), 0, Bytes(b, o + 21)) == Bytes(b, o)
  {
    hide Load3, Load4, Bytes, Stack, Pow2;
    var e, rest := LoadEight(b, o), Bytes(b, o + 21);
    Powers();
    StackEnd(e, rest);
    StackStep(e, 7, rest);
    Three(b, o + 18, 3);
    DropByte(b, o + 20);
    StackStep(e, 6, rest);
    Four(b, o + 15, 6);
    StackStep(e, 5, rest);
    Three(b, o + 13, 1);
    StackStep(e, 4, rest);
    Four(b, o + 10, 4);
    StackStep(e, 3, rest);
    Four(b, o + 7, 7);
    StackStep(e, 2, rest);
    Three(b, o + 5, 2);
    StackStep(e, 1, rest);
    Four(b, o + 2, 5);
    StackStep(e, 0, rest);
    Three(b, o, 0);
  }

  lemma LastFour(b: seq<Byte>, p: nat)
    requires p + 4 == |b|
    ensures Bytes(b, p) == Load4(b, p)
  {
    Bytes3(b, p);
    assert Bytes(b, p + 3) == b[p + 3] as int + 256 * Bytes(b, p + 4);
  }

  lemma DropByte(b: seq<Byte>, p: nat)
    requires p < |b|
    ensures Bytes(b, p) / 256 == Bytes(b, p + 1)
  {
  }

  lemma {:induction false} StackFront(e: seq<int>, i: nat, rest: int)
    requires i < |e|
    ensures Stack(e, i, rest) == Stack(e[..|e| - 1], i, e[|e| - 1] + LIMB * rest)
    decreases |e| - i
  {
    if i < |e| - 1 { StackFront(e, i + 1, rest); }
  }

  lemma ValueOne(x: int)
    ensures Value([x], 0) == x
  {
    assert Value([x], 1) == 0;
  }

  /** Reading keeps the number. */
  lemma LoadLongValue(b: seq<Byte>)
    requires |b| == 64
    ensures Value(LoadLong(b), 0) == Bytes(b, 0)
  {
    hide Load3, Load4, Bytes, Value, Stack, LoadEight, Pow2;
    var e0, e1, e2, last := LoadEight(b, 0), LoadEight(b, 21), LoadEight(b, 42), [Load4(b, 60) / 0x8];
    LoadEightStack(b, 0);
    LoadEightStack(b, 21);
    assert LoadLong(b) == e0 + (e1 + (e2[..7] + last));
    ValueStack(e0, e1 + (e2[..7] + last), 0);
    ValueStack(e1, e2[..7] + last, 0);
    ValueStack(e2[..7], last, 0);
    ValueOne(Load4(b, 60) / 0x8);
    LoadSeven(b);
  }

  lemma LoadSeven(b: seq<Byte>)
    requires |b| == 64
    ensures Stack(LoadEight(b, 42)[..7], 0, Load4(b, 60) / 0x8) == Bytes(b, 42)
  {
    hide Load3, Load4, Bytes, Stack, Pow2;
    var e := LoadEight(b, 42);
    LoadEightStack(b, 42);
    StackFront(e, 0, Bytes(b, 63));
    LastFour(b, 60);
    Three(b, 60, 3);
    DropByte(b, 62);
    Powers();
  }

  lemma LoadScalarValue(b: seq<Byte>)
    requires |b| == 32
    ensures Value(LoadScalar(b), 0) == Bytes(b, 0)
  {
    hide Load3, Load4, Bytes, Value, Stack, LoadEight, Pow2;
    var t := [Load3(b, 21) % LIMB, Load4(b, 23) / 0x20 % LIMB, Load3(b, 26) / 0x4 % LIMB, Load4(b, 28) / 0x80];
    LoadEightStack(b, 0);
    ValueStack(LoadEight(b, 0), t, 0);
    Powers();
    LastFour(b, 28);
    Four(b, 23, 5);
    Three(b, 26, 2);
    Three(b, 21, 0);
    ValueStep(t, 3);
    ValueStep(t, 2);
    ValueStep(t, 1);
    ValueStep(t, 0);
    ValueZero(t, 4);
  }

  lemma ValueStep(s: seq<int>, i: nat)
    requires i < |s|
    ensures Value(s, i) == s[i] + LIMB * Value(s, i + 1)
  {
  }

  lemma LoadEightBounds(b: seq<Byte>, o: nat)
    requires o + 21 <= |b|
    ensures forall i :: 0 <= i < 8 ==> 0 <= LoadEight(b, o)[i] < LIMB
  {
  }

  lemma LoadLongBounds(b: seq<Byte>)
    requires |b| == 64
    ensures forall i :: 0 <= i < 24 ==> 0 <= LoadLong(b)[i] < 0x2000_0000
  {
    hide LoadEight;
    LoadEightBounds(b, 0);
    LoadEightBounds(b, 21);
    LoadEightBounds(b, 42);
  }

  lemma LoadScalarBounds(b: seq<Byte>)
    requires |b| == 32
    ensures forall i :: 0 <= i < 11 ==> 0 <= LoadScalar(b)[i] < LIMB
    ensures 0 <= LoadScalar(b)[11] < 0x200_0000
  {
    hide LoadEight;
    LoadEightBounds(b, 0);
  }

  // ---- writing ----

  predicate Storable(s: seq<int>) {
    && |s| >= 12 && (forall i :: 0 <= i < 11 ==> 0 <= s[i] < LIMB) && 0 <= s[11] <= LIMB
    && forall i :: 12 <= i < |s| ==> s[i] == 0
  }

  /** The thirty-two bytes of twelve limbs; the last limb may be one bit longer. */
  function Store(s: seq<int>): (b: seq<Byte>)
    requires Storable(s)
    ensures |b| == 32
  {
    [
      s[0] % 256,
      s[0] / 0x100 % 256,
      s[0] / 0x1_0000 + s[1] % 8 * 32,
      s[1] / 0x8 % 256,
      s[1] / 0x800 % 256,
      s[1] / 0x8_0000 + s[2] % 64 * 4,
      s[2] / 0x40 % 256,
      s[2] / 0x4000 + s[3] % 2 * 128,
      s[3] / 0x2 % 256,
      s[3] / 0x200 % 256,
      s[3] / 0x2_0000 + s[4] % 16 * 16,
      s[4] / 0x10 % 256,
      s[4] / 0x1000 % 256,
      s[4] / 0x10_0000 + s[5] % 128 * 2,
      s[5] / 0x80 % 256,
      s[5] / 0x8000 + s[6] % 4 * 64,
      s[6] / 0x4 % 256,
      s[6] / 0x400 % 256,
      s[6] / 0x4_0000 + s[7] % 32 * 8,
      s[7] / 0x20 % 256,
      s[7] / 0x2000 % 256,
      s[8] % 256,
      s[8] / 0x100 % 256,
      s[8] / 0x1_0000 + s[9] % 8 * 32,
      s[9] / 0x8 % 256,
      s[9] / 0x800 % 256,
      s[9] / 0x8_0000 + s[10] % 64 * 4,
      s[10] / 0x40 % 256,
      s[10] / 0x4000 + s[11] % 2 * 128,
      s[11] / 0x2 % 256,
      s[11] / 0x200 % 256,
      s[11] / 0x2_0000 % 256
    ]
  }

  /** A byte across two limbs. */
  lemma Across(y: int, w: nat, m: nat, v: int)
    requires w in {2, 4, 8, 16, 32, 64, 128} && w * m == 256
    ensures w * (y + LIMB * v) == y % m * w + 256 * (y / m + LIMB / m * v)
  {
    if w == 2 {
      assert m == 128;
    } else if w == 4 {
      assert m == 64;
    } else if w == 8 {
      assert m == 32;
    } else if w == 16 {
      assert m == 16;
    } else if w == 32 {
      assert m == 8;
    } else if w == 64 {
      assert m == 4;
    } else {
      assert m == 2;
    }
  }

  lemma BytesStep(b: seq<Byte>, j: nat)
    requires j < |b|
    ensures Bytes(b, j) == b[j] as int + 256 * Bytes(b, j + 1)
  {
  }

  // How the bytes of one limb, from bit t of it to bit t' of the next, follow each other.

  lemma Limb0(x: int, y: int, v: int)
    ensures x + 0x20_0000 * (y + LIMB * v)
      == x % 256 + 256 * (x / 0x100 % 256 + 256 * (x / 0x1_0000 + y % 8 * 32 + 256 * (y / 0x8 + 0x4_0000 * v)))
  {
    assert x / 0x100 == x / 256;
    assert x / 0x1_0000 == x / 0x100 / 256;
    Across(y, 32, 8, v);
  }

  lemma Limb1(x: int, y: int, v: int)
    ensures x / 0x8 + 0x4_0000 * (y + LIMB * v)
      == x / 0x8 % 256 + 256 * (x / 0x800 % 256 + 256 * (x / 0x8_0000 + y % 64 * 4 + 256 * (y / 0x40 + 0x8000 * v)))
  {
    assert x / 0x800 == x / 0x8 / 256;
    assert x / 0x8_0000 == x / 0x800 / 256;
    Across(y, 4, 64, v);
  }

  lemma Limb2(x: int, y: int, v: int)
    ensures x / 0x40 + 0x8000 * (y + LIMB * v)
      == x / 0x40 % 256 + 256 * (x / 0x4000 + y % 2 * 128 + 256 * (y / 0x2 + 0x10_0000 * v))
  {
    assert x / 0x4000 == x / 0x40 / 256;
    Across(y, 128, 2, v);
  }

  lemma Limb3(x: int, y: int, v: int)
    ensures x / 0x2 + 0x10_0000 * (y + LIMB * v)
      == x / 0x2 % 256 + 256 * (x / 0x200 % 256 + 256 * (x / 0x2_0000 + y % 16 * 16 + 256 * (y / 0x10 + 0x2_0000 * v)))
  {
    assert x / 0x200 == x / 0x2 / 256;
    assert x / 0x2_0000 == x / 0x200 / 256;
    Across(y, 16, 16, v);
  }

  lemma Limb4(x: int, y: int, v: int)
    ensures x / 0x10 + 0x2_0000 * (y + LIMB * v)
      == x / 0x10 % 256 + 256 * (x / 0x1000 % 256 + 256 * (x / 0x10_0000 + y % 128 * 2 + 256 * (y / 0x80 + 0x4000 * v)))
  {
    assert x / 0x1000 == x / 0x10 / 256;
    assert x / 0x10_0000 == x / 0x1000 / 256;
    Across(y, 2, 128, v);
  }

  lemma Limb5(x: int, y: int, v: int)
    ensures x / 0x80 + 0x4000 * (y + LIMB * v)
      == x / 0x80 % 256 + 256 * (x / 0x8000 + y % 4 * 64 + 256 * (y / 0x4 + 0x8_0000 * v))
  {
    assert x / 0x8000 == x / 0x80 / 256;
    Across(y, 64, 4, v);
  }

  lemma Limb6(x: int, y: int, v: int)
    ensures x / 0x4 + 0x8_0000 * (y + LIMB * v)
      == x / 0x4 % 256 + 256 * (x / 0x400 % 256 + 256 * (x / 0x4_0000 + y % 32 * 8 + 256 * (y / 0x20 + 0x1_0000 * v)))
  {
    assert x / 0x400 == x / 0x4 / 256;
    assert x / 0x4_0000 == x / 0x400 / 256;
    Across(y, 8, 32, v);
  }

  lemma Limb7(x: int, y: int, v: int)
    requires 0 <= x < LIMB
    ensures x / 0x20 + 0x1_0000 * (y + LIMB * v)
      == x / 0x20 % 256 + 256 * (x / 0x2000 % 256 + 256 * (y + LIMB * v))
  {
    assert x / 0x2000 == x / 0x20 / 256;
  }

  lemma StoredIn0(s: seq<int>)
    requires Storable(s)
    ensures Store(s)[0] == s[0] % 256
    ensures Store(s)[1] == s[0] / 0x100 % 256
    ensures Store(s)[2] == s[0] / 0x1_0000 + s[1] % 8 * 32
  {
  }

  lemma StoreLimb0(s: seq<int>)
    requires Storable(s)
    requires Bytes(Store(s), 3) == s[1] / 0x8 + 0x4_0000 * Value(s, 2)
    ensures Bytes(Store(s), 0) == s[0] + 0x20_0000 * Value(s, 1)
  {
    hide Value, Bytes, Store;
    var b := Store(s);
    StoredIn0(s);
    ValueStep(s, 1);
    Limb0(s[0], s[1], Value(s, 2));
    BytesStep(b, 0);
    BytesStep(b, 1);
    BytesStep(b, 2);
  }

  lemma StoredIn1(s: seq<int>)
    requires Storable(s)
    ensures Store(s)[3] == s[1] / 0x8 % 256
    ensures Store(s)[4] == s[1] / 0x800 % 256
    ensures Store(s)[5] == s[1] / 0x8_0000 + s[2] % 64 * 4
  {
  }

  lemma StoreLimb1(s: seq<int>)
    requires Storable(s)
    requires Bytes(Store(s), 6) == s[2] / 0x40 + 0x8000 * Value(s, 3)
    ensures Bytes(Store(s), 3) == s[1] / 0x8 + 0x4_0000 * Value(s, 2)
  {
    hide Value, Bytes, Store;
    var b := Store(s);
    StoredIn1(s);
    ValueStep(s, 2);
    Limb1(s[1], s[2], Value(s, 3));
    BytesStep(b, 3);
    BytesStep(b, 4);
    BytesStep(b, 5);
  }

  lemma StoredIn2(s: seq<int>)
    requires Storable(s)
    ensures Store(s)[6] == s[2] / 0x40 % 256
    ensures Store(s)[7] == s[2] / 0x4000 + s[3] % 2 * 128
  {
  }

  lemma StoreLimb2(s: seq<int>)
    requires Storable(s)
    requires Bytes(Store(s), 8) == s[3] / 0x2 + 0x10_0000 * Value(s, 4)
    ensures Bytes(Store(s), 6) == s[2] / 0x40 + 0x8000 * Value(s, 3)
  {
    hide Value, Bytes, Store;
    var b := Store(s);
    StoredIn2(s);
    ValueStep(s, 3);
    Limb2(s[2], s[3], Value(s, 4));
    BytesStep(b, 6);
    BytesStep(b, 7);
  }

  lemma StoredIn3(s: seq<int>)
    requires Storable(s)
    ensures Store(s)[8] == s[3] / 0x2 % 256
    ensures Store(s)[9] == s[3] / 0x200 % 256
    ensures Store(s)[10] == s[3] / 0x2_0000 + s[4] % 16 * 16
  {
  }

  lemma StoreLimb3(s: seq<int>)
    requires Storable(s)
    requires Bytes(Store(s), 11) == s[4] / 0x10 + 0x2_0000 * Value(s, 5)
    ensures Bytes(Store(s), 8) == s[3] / 0x2 + 0x10_0000 * Value(s, 4)
  {
    hide Value, Bytes, Store;
    var b := Store(s);
    StoredIn3(s);
    ValueStep(s, 4);
    Limb3(s[3], s[4], Value(s, 5));
    BytesStep(b, 8);
    BytesStep(b, 9);
    BytesStep(b, 10);
  }

  lemma StoredIn4(s: seq<int>)
    requires Storable(s)
    ensures Store(s)[11] == s[4] / 0x10 % 256
    ensures Store(s)[12] == s[4] / 0x1000 % 256
    ensures Store(s)[13] == s[4] / 0x10_0000 + s[5] % 128 * 2
  {
  }

  lemma StoreLimb4(s: seq<int>)
    requires Storable(s)
    requires Bytes(Store(s), 14) == s[5] / 0x80 + 0x4000 * Value(s, 6)
    ensures Bytes(Store(s), 11) == s[4] / 0x10 + 0x2_0000 * Value(s, 5)
  {
    hide Value, Bytes, Store;
    var b := Store(s);
    StoredIn4(s);
    ValueStep(s, 5);
    Limb4(s[4], s[5], Value(s, 6));
    BytesStep(b, 11);
    BytesStep(b, 12);
    BytesStep(b, 13);
  }

  lemma StoredIn5(s: seq<int>)
    requires Storable(s)
    ensures Store(s)[14] == s[5] / 0x80 % 256
    ensures Store(s)[15] == s[5] / 0x8000 + s[6] % 4 * 64
  {
  }

  lemma StoreLimb5(s: seq<int>)
    requires Storable(s)
    requires Bytes(Store(s), 16) == s[6] / 0x4 + 0x8_0000 * Value(s, 7)
    ensures Bytes(Store(s), 14) == s[5] / 0x80 + 0x4000 * Value(s, 6)
  {
    hide Value, Bytes, Store;
    var b := Store(s);
    StoredIn5(s);
    ValueStep(s, 6);
    Limb5(s[5], s[6], Value(s, 7));
    BytesStep(b, 14);
    BytesStep(b, 15);
  }

  lemma StoredIn6(s: seq<int>)
    requires Storable(s)
    ensures Store(s)[16] == s[6] / 0x4 % 256
    ensures Store(s)[17] == s[6] / 0x400 % 256
    ensures Store(s)[18] == s[6] / 0x4_0000 + s[7] % 32 * 8
  {
  }

  lemma StoreLimb6(s: seq<int>)
    requires Storable(s)
    requires Bytes(Store(s), 19) == s[7] / 0x20 + 0x1_0000 * Value(s, 8)
    ensures Bytes(Store(s), 16) == s[6] / 0x4 + 0x8_0000 * Value(s, 7)
  {
    hide Value, Bytes, Store;
    var b := Store(s);
    StoredIn6(s);
    ValueStep(s, 7);
    Limb6(s[6], s[7], Value(s, 8));
    BytesStep(b, 16);
    BytesStep(b, 17);
    BytesStep(b, 18);
  }

  lemma StoredIn7(s: seq<int>)
    requires Storable(s)
    ensures Store(s)[19] == s[7] / 0x20 % 256
    ensures Store(s)[20] == s[7] / 0x2000 % 256
  {
  }

  lemma StoreLimb7(s: seq<int>)
    requires Storable(s)
    requires Bytes(Store(s), 21) == s[8] + 0x20_0000 * Value(s, 9)
    ensures Bytes(Store(s), 19) == s[7] / 0x20 + 0x1_0000 * Value(s, 8)
  {
    hide Value, Bytes, Store;
    var b := Store(s);
    StoredIn7(s);
    ValueStep(s, 8);
    Limb7(s[7], s[8], Value(s, 9));
    BytesStep(b, 19);
    BytesStep(b, 20);
  }

  lemma StoredIn8(s: seq<int>)
    requires Storable(s)
    ensures Store(s)[21] == s[8] % 256
    ensures Store(s)[22] == s[8] / 0x100 % 256
    ensures Store(s)[23] == s[8] / 0x1_0000 + s[9] % 8 * 32
  {
  }

  lemma StoreLimb8(s: seq<int>)
    requires Storable(s)
    requires Bytes(Store(s), 24) == s[9] / 0x8 + 0x4_0000 * Value(s, 10)
    ensures Bytes(Store(s), 21) == s[8] + 0x20_0000 * Value(s, 9)
  {
    hide Value, Bytes, Store;
    var b := Store(s);
    StoredIn8(s);
    ValueStep(s, 9);
    Limb0(s[8], s[9], Value(s, 10));
    BytesStep(b, 21);
    BytesStep(b, 22);
    BytesStep(b, 23);
  }

  lemma StoredIn9(s: seq<int>)
    requires Storable(s)
    ensures Store(s)[24] == s[9] / 0x8 % 256
    ensures Store(s)[25] == s[9] / 0x800 % 256
    ensures Store(s)[26] == s[9] / 0x8_0000 + s[10] % 64 * 4
  {
  }

  lemma StoreLimb9(s: seq<int>)
    requires Storable(s)
    requires Bytes(Store(s), 27) == s[10] / 0x40 + 0x8000 * Value(s, 11)
    ensures Bytes(Store(s), 24) == s[9] / 0x8 + 0x4_0000 * Value(s, 10)
  {
    hide Value, Bytes, Store;
    var b := Store(s);
    StoredIn9(s);
    ValueStep(s, 10);
    Limb1(s[9], s[10], Value(s, 11));
    BytesStep(b, 24);
    BytesStep(b, 25);
    BytesStep(b, 26);
  }

  lemma StoredIn10(s: seq<int>)
    requires Storable(s)
    ensures Store(s)[27] == s[10] / 0x40 % 256
    ensures Store(s)[28] == s[10] / 0x4000 + s[11] % 2 * 128
  {
  }

  lemma StoreLimb10(s: seq<int>)
    requires Storable(s)
    requires Bytes(Store(s), 29) == s[11] / 0x2
    ensures Bytes(Store(s), 27) == s[10] / 0x40 + 0x8000 * Value(s, 11)
  {
    hide Value, Bytes, Store;
    var b := Store(s);
    StoredIn10(s);
    ValueStep(s, 11);
    ValueZero(s, 12);
    Limb2(s[10], s[11], Value(s, 12));
    BytesStep(b, 27);
    BytesStep(b, 28);
  }

  lemma StoredIn11(s: seq<int>)
    requires Storable(s)
    ensures Store(s)[29] == s[11] / 0x2 % 256
    ensures Store(s)[30] == s[11] / 0x200 % 256
    ensures Store(s)[31] == s[11] / 0x2_0000 % 256
  {
  }

  lemma StoreLimb11(s: seq<int>)
    requires Storable(s)
    ensures Bytes(Store(s), 29) == s[11] / 0x2
  {
    hide Value, Bytes, Store;
    var b := Store(s);
    StoredIn11(s);
    NoBytes(b);
    assert s[11] / 0x200 == s[11] / 2 / 256 && s[11] / 0x2_0000 == s[11] / 0x200 / 256;
    BytesStep(b, 29);
    BytesStep(b, 30);
    BytesStep(b, 31);
  }

  lemma NoBytes(b: seq<Byte>)
    ensures Bytes(b, |b|) == 0
  {
  }

  /** Writing keeps the number. */
  lemma StoreValue(s: seq<int>)
    requires Storable(s)
    ensures Bytes(Store(s), 0) == Value(s, 0)
  {
    hide Store, Bytes, Value;
    ValueZero(s, 12);
    ValueStep(s, 11);
    StoreLimb11(s);
    StoreLimb10(s);
    StoreLimb9(s);
    StoreLimb8(s);
    ValueStep(s, 8);
    StoreLimb7(s);
    StoreLimb6(s);
    StoreLimb5(s);
    StoreLimb4(s);
    StoreLimb3(s);
    StoreLimb2(s);
    StoreLimb1(s);
    StoreLimb0(s);
    ValueStep(s, 0);
  }
}
