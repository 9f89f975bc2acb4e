/** The two recodings of scalars in Externals/ed25519/ge.c: sliding signed digits for the
    variable-time product and signed base-16 digits for multiples of the base point. */
module ScalarRecoding {
  type Byte = x: int | 0 <= x < 256

  function Pow2(n: nat): (p: nat)
    ensures p > 0
  {
    if n == 0 then 1 else 2 * Pow2(n - 1)
  }

  /** The number whose binary, base-16 or base-256 digits from position i on are those of s. */
  function Binary(s: seq<int>, i: nat): int
    decreases |s| - i
  {
    if i >= |s| then 0 else s[i] + 2 * Binary(s, i + 1)
  }

  function Nibbles(s: seq<int>, i: nat): int
    decreases |s| - i
  {
    if i >= |s| then 0 else s[i] + 16 * Nibbles(s, i + 1)
  }

  function Bytes(s: seq<Byte>, i: nat): (n: nat)
    decreases |s| - i
  {
    if i >= |s| then 0 else s[i] + 256 * Bytes(s, i + 1)
  }

  // ---- bits ----

  ghost predicate IsBit(x: int) {
    x == 0 || x == 1
  }

  /** Zero or odd and at most fifteen in size. */
  ghost predicate IsSlideDigit(x: int) {
    x == 0 || (x % 2 == 1 && -15 <= x <= 15)
  }

  function Bit(b: Byte, k: nat): int {
    b / Pow2(k) % 2
  }

  lemma Halve(b: Byte, p: nat)
    requires p in {1, 2, 4, 8, 16, 32, 64, 128}
    ensures b / p == b / p % 2 + 2 * (b / (2 * p))
  {
  }

  lemma ByteBits(b: Byte)
    ensures b == Bit(b, 0) + 2 * Bit(b, 1) + 4 * Bit(b, 2) + 8 * Bit(b, 3)
      + 16 * Bit(b, 4) + 32 * Bit(b, 5) + 64 * Bit(b, 6) + 128 * Bit(b, 7)
  {
    assert Pow2(1) == 2 && Pow2(2) == 4 && Pow2(3) == 8;
    assert Pow2(4) == 16 && Pow2(5) == 32 && Pow2(6) == 64 && Pow2(7) == 128;
    Halve(b, 1);
    Halve(b, 2);
    Halve(b, 4);
    Halve(b, 8);
    Halve(b, 16);
    Halve(b, 32);
    Halve(b, 64);
    Halve(b, 128);
  }

  lemma Binary4(s: seq<int>, i: nat)
    requires i + 4 <= |s|
    ensures Binary(s, i) == s[i] + 2 * s[i + 1] + 4 * s[i + 2] + 8 * s[i + 3] + 16 * Binary(s, i + 4)
  {
    assert Binary(s, i + 2) == s[i + 2] + 2 * (s[i + 3] + 2 * Binary(s, i + 4));
  }

  lemma {:induction false} BitsOfBytes(s: seq<int>, a: seq<Byte>, j: nat)
    requires |s| == 8 * |a| && j <= |a|
    requires forall i :: 0 <= i < |s| ==> s[i] == Bit(a[i / 8], i % 8)
    ensures Binary(s, 8 * j) == Bytes(a, j)
    decreases |a| - j
  {
    hide Bit;
    if j < |a| {
      BitsOfBytes(s, a, j + 1);
      ByteBits(a[j]);
      var i := 8 * j;
      forall k | 0 <= k < 8
        ensures s[i + k] == Bit(a[j], k)
      {
        assert (i + k) / 8 == j && (i + k) % 8 == k;
      }
      assert s[i] == s[i + 0];
      Binary4(s, i);
      Binary4(s, i + 4);
    }
  }

  /** Only the digits from i on matter. */
  lemma {:induction false} BinaryTail(s: seq<int>, t: seq<int>, i: nat)
    requires |s| == |t| && forall j :: i <= j < |s| ==> s[j] == t[j]
    ensures Binary(s, i) == Binary(t, i)
    decreases |s| - i
  {
    if i < |s| { BinaryTail(s, t, i + 1); }
  }

  /** Digits below i do not change the number when the part from i on does not change. */
  lemma {:induction false} BinaryHead(s: seq<int>, t: seq<int>, k: nat, i: nat)
    requires |s| == |t| && k <= i <= |s| && (forall j :: k <= j < i ==> s[j] == t[j]) && Binary(s, i) == Binary(t, i)
    ensures Binary(s, k) == Binary(t, k)
    decreases i - k
  {
    if k < i { BinaryHead(s, t, k + 1, i); }
  }

  lemma {:induction false} BinaryZeros(s: seq<int>, i: nat, j: nat)
    requires i <= j <= |s| && forall k :: i <= k < j ==> s[k] == 0
    ensures Binary(s, i) == Pow2(j - i) * Binary(s, j)
    decreases j - i
  {
    if i < j {
      BinaryZeros(s, i + 1, j);
      assert Pow2(j - i) == 2 * Pow2(j - i - 1);
    }
  }

  lemma {:induction false} BinaryOnes(s: seq<int>, i: nat)
    requires i <= |s| && forall k :: i <= k < |s| ==> s[k] == 1
    ensures Binary(s, i) == Pow2(|s| - i) - 1
    decreases |s| - i
  {
    if i < |s| { BinaryOnes(s, i + 1); }
  }

  lemma {:induction false} BinaryNotNegative(s: seq<int>, i: nat)
    requires forall k :: i <= k < |s| ==> IsBit(s[k])
    ensures Binary(s, i) >= 0
    decreases |s| - i
  {
    if i < |s| { BinaryNotNegative(s, i + 1); }
  }

  /** Turning ones into zeros and the zero after them into a one adds one. */
  lemma {:induction false} CarryValue(s: seq<int>, t: seq<int>, i: nat, k: nat)
    requires |s| == |t| && i <= k < |s| && s[k] == 0 && t[k] == 1
    requires forall j :: i <= j < k ==> s[j] == 1 && t[j] == 0
    requires forall j :: k < j < |s| ==> s[j] == t[j]
    ensures Binary(t, i) == Binary(s, i) + 1
    decreases k - i
  {
    if i < k {
      CarryValue(s, t, i + 1, k);
    } else {
      BinaryTail(s, t, k + 1);
    }
  }

  lemma {:induction false} Pow2Add(m: nat, n: nat)
    ensures Pow2(m + n) == Pow2(m) * Pow2(n)
  {
    if m > 0 { Pow2Add(m - 1, n); }
  }

  lemma {:induction false} Pow2Monotone(m: nat, n: nat)
    requires m <= n
    ensures Pow2(m) <= Pow2(n) && (m < n ==> Pow2(m) < Pow2(n))
  {
    if m < n { Pow2Monotone(m, n - 1); }
  }

  // ---- sliding signed digits ----

  /** A bit at i + b may be subtracted from the digit at i and carried: the carry stays inside. */
  lemma CarryRoom(s: seq<int>, i: nat, b: nat)
    requires |s| == 256 && 1 <= b <= 6 && i + b < 256
    requires (forall k :: i < k < i + b ==> s[k] == 0) && s[i] > 0
    requires Binary(s, i) <= Pow2(255 - i)
    ensures 2 * Binary(s, i + 1) + Pow2(b) <= Pow2(255 - i)
    ensures Binary(s, i + b) + 1 < Pow2(256 - (i + b))
  {
    hide Pow2;
    var q, m := Binary(s, i + b), 255 - i - b;
    BinaryZeros(s, i + 1, i + b);
    Pow2Next(b - 1);
    Pow2Next(m);
    Pow2Add(b, m);
    Room(Pow2(b - 1), Pow2(b), q, Pow2(m), Pow2(255 - i));
  }

  lemma Room(half: nat, power: nat, q: int, m: int, bound: int)
    requires power == 2 * half > 0 && bound == power * m && 2 * (half * q) < bound
    ensures 2 * (half * q) + power <= bound && q < m
  {
    assert power * q == 2 * (half * q);
    LessFactor(power, q, m);
    assert power * (q + 1) == power * q + power;
  }

  lemma LessFactor(c: nat, x: int, y: int)
    requires c > 0 && c * x < c * y
    ensures x < y && c * (x + 1) <= c * y
  {
    if y <= x { LessEqFactor(c, y, x); }
    LessEqFactor(c, x + 1, y);
  }

  lemma LessEqFactor(c: nat, x: int, y: int)
    requires x <= y
    ensures c * x <= c * y
  {
  }

  /** The digits from k0 on, a number in binary, are increased by one. */
  method CarryUp(r: array<int>, k0: nat)
    requires r.Length == 256 && k0 < 256 && forall j :: k0 <= j < 256 ==> IsBit(r[j])
    requires Binary(r[..], k0) + 1 < Pow2(256 - k0)
    modifies r
    ensures forall j :: 0 <= j < k0 ==> r[j] == old(r[j])
    ensures forall j :: k0 <= j < 256 ==> IsBit(r[j])
    ensures Binary(r[..], k0) == old(Binary(r[..], k0)) + 1
    ensures old(r[k0]) == 1 ==> r[k0] == 0
  {
    ghost var s := r[..];
    var k := k0;
    while k < 256
      invariant k0 <= k <= 256
      invariant forall j :: k0 <= j < k ==> s[j] == 1 && r[j] == 0
      invariant forall j :: (0 <= j < k0 || k <= j < 256) ==> r[j] == s[j]
    {
      if r[k] == 0 {
        r[k] := 1;
        CarryValue(s, r[..], k0, k);
        return;
      }
      r[k] := 0;
      k := k + 1;
    }
    BinaryOnes(s, k0);
    assert false;
  }

  /** The state in which digits below i are final: the number is kept and what is left of it
      from i on is small enough never to carry out of the last digit. */
  ghost predicate Sliding(s: seq<int>, value: int, i: nat) {
    && |s| == 256 && i <= 256 && Binary(s, 0) == value
    && (forall j :: 0 <= j < i ==> IsSlideDigit(s[j]))
    && (forall j :: i <= j < 256 ==> IsBit(s[j]))
    && (i <= 255 ==> Binary(s, i) <= Pow2(255 - i))
  }

  /** While the digit at i gathers the bits above it, up to position i + b. */
  ghost predicate Gathering(s: seq<int>, value: int, i: nat, b: nat) {
    && |s| == 256 && 1 <= b && i + b <= 256 && Binary(s, 0) == value
    && (forall j :: 0 <= j <= i ==> IsSlideDigit(s[j])) && s[i] != 0
    && (forall j :: i < j < 256 ==> IsBit(s[j])) && (forall j :: i < j < i + b ==> s[j] == 0)
    && Binary(s, i) <= Pow2(255 - i) && 2 * Binary(s, i + 1) <= Pow2(255 - i)
  }

  lemma GatherStart(s: seq<int>, value: int, i: nat)
    requires Sliding(s, value, i) && i < 256 && s[i] != 0
    ensures Gathering(s, value, i, 1)
  {
  }

  lemma GatherEnd(s: seq<int>, value: int, i: nat, b: nat)
    requires Gathering(s, value, i, b)
    ensures Sliding(s, value, i + 1)
  {
    if i < 255 { assert Pow2(255 - i) == 2 * Pow2(254 - i); }
  }

  lemma SkipZero(s: seq<int>, value: int, i: nat)
    requires Sliding(s, value, i) && i < 256 && s[i] == 0
    ensures Sliding(s, value, i + 1)
  {
    if i < 255 { assert Pow2(255 - i) == 2 * Pow2(254 - i); }
  }

  /** Moving d between position i + b and the digit at i keeps the number. */
  lemma GatherValue(s: seq<int>, t: seq<int>, i: nat, b: nat, d: int)
    requires |s| == |t| == 256 && 1 <= b && i + b < 256
    requires (forall j :: i < j < i + b ==> s[j] == 0 && t[j] == 0) && forall j :: 0 <= j < i ==> s[j] == t[j]
    requires t[i] == s[i] - d * Pow2(b) && Binary(t, i + b) == Binary(s, i + b) + d
    ensures Binary(t, i) == Binary(s, i) && Binary(t, 0) == Binary(s, 0)
    ensures 2 * Binary(t, i + 1) == 2 * Binary(s, i + 1) + d * Pow2(b)
  {
    hide Pow2;
    BinaryZeros(s, i + 1, i + b);
    BinaryZeros(t, i + 1, i + b);
    Pow2Next(b - 1);
    Shifted(Pow2(b - 1), Pow2(b), Binary(s, i + b), d);
    BinaryHead(s, t, 0, i);
  }

  lemma Shifted(half: int, power: int, q: int, d: int)
    requires power == 2 * half
    ensures 2 * (half * (q + d)) == 2 * (half * q) + d * power
  {
    assert half * (q + d) == half * q + half * d;
    assert d * power == 2 * (half * d);
  }

  lemma Pow2Next(n: nat)
    ensures Pow2(n + 1) == 2 * Pow2(n)
  {
  }

  /** The bit at i + b is added to the digit at i. */
  lemma GatherAdd(s: seq<int>, t: seq<int>, value: int, i: nat, b: nat)
    requires Gathering(s, value, i, b) && b <= 6 && i + b < 256 && s[i + b] == 1 && s[i] + Pow2(b) <= 15
    requires t == s[i := s[i] + Pow2(b)][i + b := 0]
    ensures Gathering(t, value, i, b + 1)
  {
    hide Pow2;
    Pow2Next(b - 1);
    BinaryTail(s, t, i + b + 1);
    GatherValue(s, t, i, b, -1);
  }

  /** The bit at i + b is subtracted, and carried upwards. */
  lemma GatherSubtract(s: seq<int>, t: seq<int>, value: int, i: nat, b: nat)
    requires Gathering(s, value, i, b) && b <= 6 && i + b < 256 && s[i + b] == 1
    requires s[i] + Pow2(b) > 15 && s[i] - Pow2(b) >= -15
    requires |t| == 256 && t[i] == s[i] - Pow2(b) && t[i + b] == 0
    requires (forall j :: 0 <= j < i + b && j != i ==> t[j] == s[j]) && forall j :: i + b <= j < 256 ==> IsBit(t[j])
    requires Binary(t, i + b) == Binary(s, i + b) + 1
    ensures Gathering(t, value, i, b + 1)
  {
    hide Pow2;
    Pow2Next(b - 1);
    CarryRoom(s, i, b);
    GatherValue(s, t, i, b, 1);
  }

  lemma GatherSkip(s: seq<int>, value: int, i: nat, b: nat)
    requires Gathering(s, value, i, b) && i + b < 256 && s[i + b] == 0
    ensures Gathering(s, value, i, b + 1)
  {
  }

  /** slide: the digits of a in r, each zero or odd between -15 and 15. */
  method Slide(r: array<int>, a: seq<Byte>)
    requires r.Length == 256 && |a| == 32 && Bytes(a, 0) <= Pow2(255)
    modifies r
    ensures Binary(r[..], 0) == Bytes(a, 0)
    ensures forall i :: 0 <= i < 256 ==> IsSlideDigit(r[i])
  {
    hide Binary, Bytes, Gathering, Sliding, IsSlideDigit, Pow2, Bit;
    ghost var value := Bytes(a, 0);
    for i := 0 to 256
      invariant forall j :: 0 <= j < i ==> r[j] == Bit(a[j / 8], j % 8)
    {
      r[i] := Bit(a[i / 8], i % 8);
    }
    SlideStart(r[..], a);
    for i := 0 to 256
      invariant Sliding(r[..], value, i)
    {
      if r[i] != 0 {
        GatherStart(r[..], value, i);
        var b := 1;
        while b <= 6 && i + b < 256
          invariant 1 <= b <= 7 && Gathering(r[..], value, i, b)
        {
          ghost var s := r[..];
          GatheringFacts(s, value, i, b);
          if r[i + b] != 0 {
            if r[i] + r[i + b] * Pow2(b) <= 15 {
              r[i] := r[i] + r[i + b] * Pow2(b);
              r[i + b] := 0;
              GatherAdd(s, r[..], value, i, b);
            } else if r[i] - r[i + b] * Pow2(b) >= -15 {
              CarryRoom(s, i, b);
              r[i] := r[i] - r[i + b] * Pow2(b);
              BinaryTail(s, r[..], i + b);
              CarryUp(r, i + b);
              GatherSubtract(s, r[..], value, i, b);
            } else {
              break;
            }
          } else {
            GatherSkip(s, value, i, b);
          }
          b := b + 1;
        }
        GatherEnd(r[..], value, i, b);
      } else {
        SkipZero(r[..], value, i);
      }
    }
    SlideEnd(r[..], value);
  }

  lemma SlideStart(s: seq<int>, a: seq<Byte>)
    requires |s| == 256 && |a| == 32 && Bytes(a, 0) <= Pow2(255)
    requires forall j :: 0 <= j < 256 ==> s[j] == Bit(a[j / 8], j % 8)
    ensures Sliding(s, Bytes(a, 0), 0)
  {
    BitsOfBytes(s, a, 0);
  }

  lemma SlideEnd(s: seq<int>, value: int)
    requires Sliding(s, value, 256)
    ensures Binary(s, 0) == value && forall i :: 0 <= i < 256 ==> IsSlideDigit(s[i])
  {
  }

  lemma GatheringFacts(s: seq<int>, value: int, i: nat, b: nat)
    requires Gathering(s, value, i, b)
    ensures |s| == 256 && -15 <= s[i] <= 15
    ensures (forall j :: i < j < 256 ==> IsBit(s[j])) && (forall j :: i < j < i + b ==> s[j] == 0)
    ensures Binary(s, i) <= Pow2(255 - i)
  {
  }

  // ---- signed base-16 digits ----

  lemma Nibbles2(s: seq<int>, i: nat)
    requires i + 2 <= |s|
    ensures Nibbles(s, i) == s[i] + 16 * s[i + 1] + 256 * Nibbles(s, i + 2)
  {
    assert Nibbles(s, i + 1) == s[i + 1] + 16 * Nibbles(s, i + 2);
  }

  lemma {:induction false} NibblesOfBytes(s: seq<int>, a: seq<Byte>, j: nat)
    requires |s| == 2 * |a| && j <= |a|
    requires forall i :: 0 <= i < |a| ==> s[2 * i] == a[i] % 16 && s[2 * i + 1] == a[i] / 16
    ensures Nibbles(s, 2 * j) == Bytes(a, j)
    decreases |a| - j
  {
    if j < |a| {
      NibblesOfBytes(s, a, j + 1);
      Nibbles2(s, 2 * j);
    }
  }

  lemma {:induction false} NibblesHead(s: seq<int>, t: seq<int>, k: nat, i: nat)
    requires |s| == |t| && k <= i <= |s| && (forall j :: k <= j < i ==> s[j] == t[j]) && Nibbles(s, i) == Nibbles(t, i)
    ensures Nibbles(s, k) == Nibbles(t, k)
    decreases i - k
  {
    if k < i { NibblesHead(s, t, k + 1, i); }
  }

  lemma {:induction false} NibblesTail(s: seq<int>, t: seq<int>, i: nat)
    requires |s| == |t| && forall j :: i <= j < |s| ==> s[j] == t[j]
    ensures Nibbles(s, i) == Nibbles(t, i)
    decreases |s| - i
  {
    if i < |s| { NibblesTail(s, t, i + 1); }
  }

  /** Digits below i are recoded; the carry belongs to digit i. */
  ghost predicate Recoding(s: seq<int>, value: int, i: nat, carry: int) {
    && |s| == 64 && i <= 63 && IsBit(carry) && Nibbles(s[i := s[i] + carry], 0) == value
    && (forall j :: 0 <= j < i ==> -8 <= s[j] < 8)
    && (forall j :: i <= j < 64 ==> 0 <= s[j] < 16) && s[63] < 8
  }

  lemma RecodeStep(s: seq<int>, value: int, i: nat, carry: int)
    requires Recoding(s, value, i, carry) && i < 63
    ensures var c := (s[i] + carry + 8) / 16;
      Recoding(s[i := s[i] + carry - 16 * c], value, i + 1, c)
  {
    var c := (s[i] + carry + 8) / 16;
    var before := s[i := s[i] + carry];
    var t := s[i := s[i] + carry - 16 * c];
    var after := t[i + 1 := t[i + 1] + c];
    Nibbles2(before, i);
    Nibbles2(after, i);
    NibblesTail(before, after, i + 2);
    NibblesHead(before, after, 0, i);
  }

  /** The loops at the start of ge_scalarmult_base: 64 digits between -8 and 8. */
  method Radix16(a: seq<Byte>) returns (e: array<int>)
    requires |a| == 32 && a[31] <= 127
    ensures e.Length == 64 && Nibbles(e[..], 0) == Bytes(a, 0)
    ensures forall i :: 0 <= i < 63 ==> -8 <= e[i] < 8
    ensures 0 <= e[63] <= 8
  {
    e := new int[64];
    for i := 0 to 32
      invariant forall j :: 0 <= j < i ==> e[2 * j] == a[j] % 16 && e[2 * j + 1] == a[j] / 16
    {
      e[2 * i] := a[i] % 16;
      e[2 * i + 1] := a[i] / 16;
    }
    RecodeStart(e[..], a);
    var carry := 0;
    for i := 0 to 63
      invariant Recoding(e[..], Bytes(a, 0), i, carry)
    {
      RecodeStep(e[..], Bytes(a, 0), i, carry);
      ghost var s, c := e[..], carry;
      e[i] := e[i] + carry;
      carry := (e[i] + 8) / 16;
      e[i] := e[i] - carry * 16;
      assert e[..] == s[i := s[i] + c - 16 * carry];
    }
    ghost var s := e[..];
    e[63] := e[63] + carry;
    assert e[..] == s[63 := s[63] + carry];
  }

  lemma RecodeStart(s: seq<int>, a: seq<Byte>)
    requires |s| == 64 && |a| == 32 && a[31] <= 127
    requires forall j :: 0 <= j < 32 ==> s[2 * j] == a[j] % 16 && s[2 * j + 1] == a[j] / 16
    ensures Recoding(s, Bytes(a, 0), 0, 0)
  {
    NibblesOfBytes(s, a, 0);
    assert s[0 := s[0] + 0] == s;
    assert s[2 * 31 + 1] < 8;
    forall j | 0 <= j < 64
      ensures 0 <= s[j] < 16
    {
      var h := j / 2;
      assert s[2 * h] == a[h] % 16 && s[2 * h + 1] == a[h] / 16;
      assert j == 2 * h || j == 2 * h + 1;
    }
  }
}
