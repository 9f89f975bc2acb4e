/** sc_reduce and sc_muladd of Externals/ed25519/sc.c: the canonical residues of sixty-four bytes
    and of a * b + c, in sixty-four-bit integers that never overflow. */
module ScalarReduce {
  import opened ScalarRecoding
  import opened ScalarField
  import opened ScalarBytes

  /** Overwrites the first half of s with the residue of s. */
  method ScReduce(s: array<Byte>)
    requires s.Length == 64
    modifies s
    ensures Bytes(s[..32], 0) == old(Bytes(s[..], 0)) % ORDER
    ensures s[32..] == old(s[32..])
  {
    hide Bytes, Value, LoadLong, Store;
    LoadLongBounds(s[..]);
    LoadLongValue(s[..]);
    var limbs := ReduceLimbs(LoadLong(s[..]));
    StoreValue(limbs);
    var r := Store(limbs);
    for i := 0 to 32
      invariant forall j :: 0 <= j < i ==> s[j] == r[j]
      invariant s[32..] == old(s[32..])
    {
      s[i] := r[i];
    }
    assert s[..32] == r;
  }

  // ---- the product of two scalars ----

  /** The sum of a[j] * b[n - j] over j below i. */
  function Column(a: seq<int>, b: seq<int>, n: nat, i: nat): int
    requires i <= |a|
  {
    if i == 0 then 0
    else Column(a, b, n, i - 1) + if i - 1 <= n < i - 1 + |b| then a[i - 1] * b[n - i + 1] else 0
  }

  function Columns(a: seq<int>, b: seq<int>, i: nat): (s: seq<int>)
    requires i <= |a|
    ensures |s| == 24
  {
    seq(24, n requires 0 <= n < 24 => Column(a, b, n, i))
  }

  /** x times b, moved up by i limbs. */
  function Moved(x: int, b: seq<int>, i: nat): (s: seq<int>)
    ensures |s| == 24
  {
    seq(24, n requires 0 <= n < 24 => if i <= n < i + |b| then x * b[n - i] else 0)
  }

  lemma {:induction false} ValueSum(s: seq<int>, t: seq<int>, u: seq<int>, i: nat)
    requires |s| == |t| == |u| && forall k :: 0 <= k < |s| ==> u[k] == s[k] + t[k]
    ensures Value(u, i) == Value(s, i) + Value(t, i)
    decreases |s| - i
  {
    if i < |s| { ValueSum(s, t, u, i + 1); }
  }

  lemma {:induction false} MovedValue(x: int, b: seq<int>, i: nat, k: nat)
    requires i + |b| <= 24 && i <= k <= 24
    ensures Value(Moved(x, b, i), k) == x * Value(b, k - i)
    decreases 24 - k
  {
    if k < 24 {
      MovedValue(x, b, i, k + 1);
      Scale(x, Value(b, k + 1 - i));
      if k - i < |b| {
        Distribute(x, b[k - i], LIMB * Value(b, k + 1 - i));
      } else {
        ValueZero(b, k + 1 - i);
      }
    }
  }

  lemma Distribute(x: int, y: int, z: int)
    ensures x * (y + z) == x * y + x * z
  {
  }

  lemma {:induction false} MovedWeight(x: int, b: seq<int>, i: nat, k: nat)
    requires i + |b| <= 24 && k <= i
    ensures Value(Moved(x, b, i), k) == Power(i - k) * (x * Value(b, 0))
    decreases i - k
  {
    if k == i {
      MovedValue(x, b, i, i);
    } else {
      MovedWeight(x, b, i, k + 1);
      Scale(x * Value(b, 0), Power(i - k - 1));
    }
  }

  /** The limbs of a below i, as a number. */
  function Below(a: seq<int>, i: nat): int
    requires i <= |a|
  {
    if i == 0 then 0 else Below(a, i - 1) + a[i - 1] * Power(i - 1)
  }

  lemma {:induction false} BelowValue(a: seq<int>, i: nat)
    requires i <= |a|
    ensures Value(a, 0) == Below(a, i) + Power(i) * Value(a, i)
  {
    if i > 0 {
      BelowValue(a, i - 1);
      Distribute(Power(i - 1), a[i - 1], LIMB * Value(a, i));
      Scale(Value(a, i), Power(i - 1));
    }
  }

  /** The columns are the schoolbook product. */
  lemma {:induction false} ColumnsValue(a: seq<int>, b: seq<int>, i: nat)
    requires i <= |a| && |a| + |b| <= 24
    ensures Value(Columns(a, b, i), 0) == Below(a, i) * Value(b, 0)
  {
    if i == 0 {
      ValueZero(Columns(a, b, 0), 0);
    } else {
      ColumnsValue(a, b, i - 1);
      var x := a[i - 1];
      ValueSum(Columns(a, b, i - 1), Moved(x, b, i - 1), Columns(a, b, i), 0);
      MovedWeight(x, b, i - 1, 0);
      Gather(Below(a, i - 1), x, Power(i - 1), Value(b, 0));
    }
  }

  lemma Gather(u: int, x: int, p: int, v: int)
    ensures (u + x * p) * v == u * v + p * (x * v)
  {
  }

  /** The limbs of a * b + c. */
  function MulAdd(a: seq<int>, b: seq<int>, c: seq<int>): (s: seq<int>)
    requires |a| == |b| == |c| == 12
    ensures |s| == 24
  {
    seq(24, n requires 0 <= n < 24 => (if n < 12 then c[n] else 0) + Column(a, b, n, 12))
  }

  lemma MulAddValue(a: seq<int>, b: seq<int>, c: seq<int>)
    requires |a| == |b| == |c| == 12
    ensures Value(MulAdd(a, b, c), 0) == Value(a, 0) * Value(b, 0) + Value(c, 0)
  {
    var padding := seq(12, i => 0);
    ValueSum(c + padding, Columns(a, b, 12), MulAdd(a, b, c), 0);
    ColumnsValue(a, b, 12);
    BelowValue(a, 12);
    assert Value(a, 12) == 0;
    Padded(c, padding, 0);
  }

  lemma {:induction false} Padded(c: seq<int>, padding: seq<int>, i: nat)
    requires i <= |c| && forall k :: 0 <= k < |padding| ==> padding[k] == 0
    ensures Value(c + padding, i) == Value(c, i)
    decreases |c| - i
  {
    if i < |c| { Padded(c, padding, i + 1); } else { ValueZero(c + padding, i); }
  }

  predicate ScalarLimbs(a: seq<int>) {
    |a| == 12 && (forall i :: 0 <= i < 11 ==> 0 <= a[i] < LIMB) && 0 <= a[11] < 0x200_0000
  }

  lemma ProductBound(x: int, y: int, m: nat, n: nat)
    requires 0 <= x <= m && 0 <= y <= n
    ensures 0 <= x * y <= m * n
  {
    assert x * y <= m * y <= m * n;
  }

  /** Each column fits: a product has at most forty-six bits unless it is the very last one. */
  lemma {:induction false} ColumnBound(a: seq<int>, b: seq<int>, n: nat, i: nat)
    requires ScalarLimbs(a) && ScalarLimbs(b) && i <= 12
    ensures 0 <= Column(a, b, n, i) <= if n == 22 then i * 0x4000_0000_0000 + 0x4_0000_0000_0000
      else i * 0x4000_0000_0000
    ensures n >= 23 ==> Column(a, b, n, i) == 0
    ensures n == 22 && i < 12 ==> Column(a, b, n, i) == 0
  {
    if i > 0 {
      ColumnBound(a, b, n, i - 1);
      if i - 1 <= n < i - 1 + 12 {
        var j := n - i + 1;
        ProductBound(a[i - 1], b[j], if i == 12 then 0x200_0000 else LIMB, if j == 11 then 0x200_0000 else LIMB);
      }
    }
  }

  /** Even limbs below k of the product have been carried. */
  ghost predicate ProductEvens(s: Limbs, k: nat) {
    && k <= 24 && k % 2 == 0
    && (forall i :: 0 <= i < 23 ==> Within(s[i],
         if i % 2 == 0 then if i < k then 0x10_0000 else 0x8_0000_0000_0000
         else if i < k then 0x8_0000_8000_0000 else 0x8_0000_0000_0000))
    && Within(s[23], if k == 24 then 0x8000_0000 else 0)
  }

  lemma ProductEven(s: Limbs, k: nat)
    requires ProductEvens(s, k) && k < 24
    ensures k < 23 && CarryFits(s, k) && ProductEvens(Carry(s, k), k + 2) && Residue(Carry(s, k)) == Residue(s)
  {
    hide Carry, Value, Residue;
    CarryBounds(s, k, 0x8_0000_0000_0000);
  }

  /** Odd limbs below k of the product have been carried. */
  ghost predicate ProductOdds(s: Limbs, k: nat) {
    && 1 <= k <= 23 && k % 2 == 1
    && (forall i :: 0 <= i < 23 ==> Within(s[i],
         if i % 2 == 1 then if i < k then 0x10_0000 else 0x8_0000_8000_0000
         else if i < k then 0x8000_0000 else 0x10_0000))
    && Within(s[23], 0x8000_0000)
  }

  lemma ProductOdd(s: Limbs, k: nat)
    requires ProductOdds(s, k) && k < 23
    ensures CarryFits(s, k) && ProductOdds(Carry(s, k), k + 2) && Residue(Carry(s, k)) == Residue(s)
  {
    hide Carry, Value, Residue;
    CarryBounds(s, k, 0x8_0000_8000_0000);
  }

  lemma ProductStart(a: seq<int>, b: seq<int>, c: seq<int>)
    requires ScalarLimbs(a) && ScalarLimbs(b) && ScalarLimbs(c)
    ensures ProductEvens(MulAdd(a, b, c), 0)
  {
    hide Column;
    forall n | 0 <= n < 24
      ensures 0 <= MulAdd(a, b, c)[n] <= if n == 23 then 0 else 0x8_0000_0000_0000
    {
      ColumnBound(a, b, n, 12);
    }
  }

  lemma ProductHalf(s: Limbs)
    requires ProductEvens(s, 24)
    ensures ProductOdds(s, 1)
  {
  }

  lemma ProductEnd(s: Limbs)
    requires ProductOdds(s, 23)
    ensures forall i :: 0 <= i < 24 ==> Within(s[i], 0x8000_0000)
  {
  }

  /** The first carries of sc_muladd, over all the limbs of the product. */
  method CarryProduct(s0: Limbs) returns (s: Limbs)
    requires ProductEvens(s0, 0)
    ensures (forall i :: 0 <= i < 24 ==> Within(s[i], 0x8000_0000)) && Residue(s) == Residue(s0)
  {
    hide Carry, CarryFits, ProductEvens, ProductOdds, Residue;
    s := s0;
    ProductEven(s, 0);
    s := Carry(s, 0);
    ProductEven(s, 2);
    s := Carry(s, 2);
    ProductEven(s, 4);
    s := Carry(s, 4);
    ProductEven(s, 6);
    s := Carry(s, 6);
    ProductEven(s, 8);
    s := Carry(s, 8);
    ProductEven(s, 10);
    s := Carry(s, 10);
    ProductEven(s, 12);
    s := Carry(s, 12);
    ProductEven(s, 14);
    s := Carry(s, 14);
    ProductEven(s, 16);
    s := Carry(s, 16);
    ProductEven(s, 18);
    s := Carry(s, 18);
    ProductEven(s, 20);
    s := Carry(s, 20);
    ProductEven(s, 22);
    s := Carry(s, 22);
    ProductHalf(s);
    ProductOdd(s, 1);
    s := Carry(s, 1);
    ProductOdd(s, 3);
    s := Carry(s, 3);
    ProductOdd(s, 5);
    s := Carry(s, 5);
    ProductOdd(s, 7);
    s := Carry(s, 7);
    ProductOdd(s, 9);
    s := Carry(s, 9);
    ProductOdd(s, 11);
    s := Carry(s, 11);
    ProductOdd(s, 13);
    s := Carry(s, 13);
    ProductOdd(s, 15);
    s := Carry(s, 15);
    ProductOdd(s, 17);
    s := Carry(s, 17);
    ProductOdd(s, 19);
    s := Carry(s, 19);
    ProductOdd(s, 21);
    s := Carry(s, 21);
    ProductEnd(s);
  }

  lemma LoadedLimbs(b: seq<Byte>)
    requires |b| == 32
    ensures ScalarLimbs(LoadScalar(b))
  {
    hide LoadScalar;
    LoadScalarBounds(b);
  }

  /** Writes the residue of a * b + c to the thirty-two bytes of s from position at on. */
  method ScMulAdd(s: array<Byte>, at: nat, a: seq<Byte>, b: seq<Byte>, c: seq<Byte>)
    requires at + 32 <= s.Length && |a| == |b| == |c| == 32
    modifies s
    ensures Bytes(s[at..at + 32], 0) == (Bytes(a, 0) * Bytes(b, 0) + Bytes(c, 0)) % ORDER
    ensures s[..at] == old(s[..at]) && s[at + 32..] == old(s[at + 32..])
  {
    hide Bytes, Value, LoadScalar, Store, MulAdd, ScalarLimbs;
    LoadedLimbs(a);
    LoadedLimbs(b);
    LoadedLimbs(c);
    LoadScalarValue(a);
    LoadScalarValue(b);
    LoadScalarValue(c);
    var la, lb, lc := LoadScalar(a), LoadScalar(b), LoadScalar(c);
    ProductStart(la, lb, lc);
    MulAddValue(la, lb, lc);
    var limbs := CarryProduct(MulAdd(la, lb, lc));
    limbs := ReduceLimbs(limbs);
    StoreValue(limbs);
    var r := Store(limbs);
    for i := 0 to 32
      invariant forall j :: 0 <= j < i ==> s[at + j] == r[j]
      invariant s[..at] == old(s[..at]) && s[at + 32..] == old(s[at + 32..])
    {
      s[at + i] := r[i];
    }
    assert s[at..at + 32] == r;
  }
}
