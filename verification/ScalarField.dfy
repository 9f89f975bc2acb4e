/** Scalars modulo the group order (Externals/ed25519/sc.c): twenty-four limbs of twenty-one bits
    in sixty-four-bit integers, folded and carried down to the canonical residue. */
module ScalarField {
  import opened ScalarRecoding

  /** The order of the base point, section 5.1 of RFC 8032. */
  const ORDER := 7237005577332262213973186563042994240857116359379907606001950938285454250989
  const LIMB := 0x20_0000

  type Limbs = s: seq<int> | |s| == 24 witness seq(24, i => 0)

  predicate Fits64(x: int) {
    -0x8000_0000_0000_0000 <= x < 0x8000_0000_0000_0000
  }

  predicate Within(x: int, bound: nat) {
    -(bound as int) <= x <= bound
  }

  function Power(n: nat): (p: nat)
    ensures p > 0
  {
    if n == 0 then 1 else LIMB * Power(n - 1)
  }

  /** The number the limbs from i on stand for. */
  function Value(s: seq<int>, i: nat): int
    decreases |s| - i
  {
    if i >= |s| then 0 else s[i] + LIMB * Value(s, i + 1)
  }

  function Residue(s: seq<int>): int {
    Value(s, 0) % ORDER
  }

  lemma {:induction false} ValueUpdate(s: seq<int>, j: nat, i: nat, d: int)
    requires j <= i < |s|
    ensures Value(s[i := s[i] + d], j) == Value(s, j) + d * Power(i - j)
    decreases i - j
  {
    var t := s[i := s[i] + d];
    if j < i {
      ValueUpdate(s, j + 1, i, d);
      Scale(d, Power(i - j - 1));
    } else {
      ValueTail(s, t, i + 1);
    }
  }

  lemma Scale(d: int, p: int)
    ensures LIMB * (d * p) == d * (LIMB * p)
  {
  }

  lemma {:induction false} ValueTail(s: seq<int>, t: seq<int>, i: nat)
    requires |s| == |t| && forall j :: i <= j < |s| ==> s[j] == t[j]
    ensures Value(s, i) == Value(t, i)
    decreases |s| - i
  {
    if i < |s| { ValueTail(s, t, i + 1); }
  }

  // ---- one fold: limb k, of weight 2^252 times that of limb k - 12, is replaced ----

  predicate FoldFits(s: Limbs, k: nat) {
    && 12 <= k < 24 && Within(s[k], 0x400_0000_0000)
    && forall i :: k - 12 <= i <= k - 7 ==> Within(s[i], 0x2000_0000_0000_0000)
  }

  function Fold(s: Limbs, k: nat): (r: Limbs)
    requires FoldFits(s, k)
  {
    s[k - 12 := s[k - 12] + s[k] * 666643]
     [k - 11 := s[k - 11] + s[k] * 470296]
     [k - 10 := s[k - 10] + s[k] * 654183]
     [k - 9 := s[k - 9] - s[k] * 997805]
     [k - 8 := s[k - 8] + s[k] * 136657]
     [k - 7 := s[k - 7] - s[k] * 683901]
     [k := 0]
  }

  lemma FoldBounds(s: Limbs, k: nat, bound: nat)
    requires FoldFits(s, k) && Within(s[k], bound)
    ensures Fold(s, k)[k] == 0
    ensures forall i :: 0 <= i < 24 && !(k - 12 <= i <= k - 7) && i != k ==> Fold(s, k)[i] == s[i]
    ensures forall i :: k - 12 <= i <= k - 7 ==>
      Within(Fold(s, k)[i] - s[i], 0x10_0000 * bound) && Fits64(Fold(s, k)[i])
  {
  }

  lemma PowerShift(n: nat)
    ensures Power(n + 1) == 0x20_0000 * Power(n)
    ensures Power(n + 2) == 0x400_0000_0000 * Power(n)
    ensures Power(n + 3) == 0x8000_0000_0000_0000 * Power(n)
    ensures Power(n + 4) == 0x10_0000_0000_0000_0000_0000 * Power(n)
    ensures Power(n + 5) == 0x200_0000_0000_0000_0000_0000_0000 * Power(n)
    ensures Power(n + 12)
      == 0x1000_0000_0000_0000_0000_0000_0000_0000_0000_0000_0000_0000_0000_0000_0000_0000 * Power(n)
  {
    assert Power(n + 1) == LIMB * Power(n);
    assert Power(n + 2) == LIMB * Power(n + 1);
    assert Power(n + 3) == LIMB * Power(n + 2);
    assert Power(n + 4) == LIMB * Power(n + 3);
    assert Power(n + 5) == LIMB * Power(n + 4);
    assert Power(n + 6) == LIMB * Power(n + 5);
    assert Power(n + 7) == LIMB * Power(n + 6);
    assert Power(n + 8) == LIMB * Power(n + 7);
    assert Power(n + 9) == LIMB * Power(n + 8);
    assert Power(n + 10) == LIMB * Power(n + 9);
    assert Power(n + 11) == LIMB * Power(n + 10);
    assert Power(n + 12) == LIMB * Power(n + 11);
  }

  lemma Term(x: int, f: int, c: int, p: int)
    ensures x * f * (c * p) == f * c * (x * p)
  {
  }

  lemma FoldSum(s: Limbs, k: nat)
    requires 12 <= k < 24 && FoldFits(s, k)
    ensures Value(Fold(s, k), 0) == Value(s, 0) + (s[k] * 666643 * Power(k - 12) + s[k] * 470296 * Power(k - 11)
      + s[k] * 654183 * Power(k - 10) + s[k] * -997805 * Power(k - 9) + s[k] * 136657 * Power(k - 8)
      + s[k] * -683901 * Power(k - 7) + s[k] * -1 * Power(k))
  {
    hide Value, Power, FoldFits;
    var x, n := s[k], k - 12;
    var s1 := s[n := s[n] + x * 666643];
    var s2 := s1[n + 1 := s1[n + 1] + x * 470296];
    var s3 := s2[n + 2 := s2[n + 2] + x * 654183];
    var s4 := s3[n + 3 := s3[n + 3] + x * -997805];
    var s5 := s4[n + 4 := s4[n + 4] + x * 136657];
    var s6 := s5[n + 5 := s5[n + 5] + x * -683901];
    var s7 := s6[k := s6[k] + x * -1];
    ValueUpdate(s, 0, n, x * 666643);
    ValueUpdate(s1, 0, n + 1, x * 470296);
    ValueUpdate(s2, 0, n + 2, x * 654183);
    ValueUpdate(s3, 0, n + 3, x * -997805);
    ValueUpdate(s4, 0, n + 4, x * 136657);
    ValueUpdate(s5, 0, n + 5, x * -683901);
    ValueUpdate(s6, 0, k, x * -1);
    assert s7 == Fold(s, k);
  }

  /** What a fold adds: the constants make up the order. */
  lemma FoldWeight(x: int, n: nat)
    ensures x * 666643 * Power(n) + x * 470296 * Power(n + 1) + x * 654183 * Power(n + 2) + x * -997805 * Power(n + 3)
      + x * 136657 * Power(n + 4) + x * -683901 * Power(n + 5) + x * -1 * Power(n + 12) == -(ORDER * (x * Power(n)))
  {
    hide Power;
    var p := Power(n);
    PowerShift(n);
    Term(x, 666643, 1, p);
    Term(x, 470296, 0x20_0000, p);
    Term(x, 654183, 0x400_0000_0000, p);
    Term(x, -997805, 0x8000_0000_0000_0000, p);
    Term(x, 136657, 0x10_0000_0000_0000_0000_0000, p);
    Term(x, -683901, 0x200_0000_0000_0000_0000_0000_0000, p);
    Term(x, -1, 0x1000_0000_0000_0000_0000_0000_0000_0000_0000_0000_0000_0000_0000_0000_0000_0000, p);
  }

  /** A fold subtracts a multiple of the group order. */
  lemma FoldValue(s: Limbs, k: nat)
    requires 12 <= k < 24 && FoldFits(s, k)
    ensures Value(Fold(s, k), 0) == Value(s, 0) - ORDER * (s[k] * Power(k - 12))
    ensures Residue(Fold(s, k)) == Residue(s)
  {
    hide Value, Power, FoldFits, Fold;
    FoldSum(s, k);
    FoldWeight(s[k], k - 12);
    SameResidue(Value(s, 0), s[k] * Power(k - 12));
  }

  lemma SameResidue(v: int, q: int)
    ensures (v - ORDER * q) % ORDER == v % ORDER
  {
    assert v - ORDER * q == ORDER * (v / ORDER - q) + v % ORDER;
  }

  // ---- one carry ----

  predicate CarryFits(s: Limbs, k: nat) {
    k < 23 && Within(s[k], 0x4000_0000_0000_0000) && Within(s[k + 1], 0x4000_0000_0000_0000)
  }

  /** Rounding carry: limb k is left between -2^20 and 2^20. */
  function Carry(s: Limbs, k: nat): Limbs
    requires CarryFits(s, k)
  {
    var carry := (s[k] + 0x10_0000) / LIMB;
    s[k + 1 := s[k + 1] + carry][k := s[k] - carry * LIMB]
  }

  /** Truncating carry: limb k is left between 0 and 2^21. */
  function CarryDown(s: Limbs, k: nat): Limbs
    requires CarryFits(s, k)
  {
    var carry := s[k] / LIMB;
    s[k + 1 := s[k + 1] + carry][k := s[k] - carry * LIMB]
  }

  lemma CarryBounds(s: Limbs, k: nat, bound: nat)
    requires CarryFits(s, k) && Within(s[k], bound)
    ensures -0x10_0000 <= Carry(s, k)[k] < 0x10_0000
    ensures Within(Carry(s, k)[k + 1] - s[k + 1], bound / LIMB + 1)
    ensures forall i :: 0 <= i < 24 && i != k && i != k + 1 ==> Carry(s, k)[i] == s[i]
    ensures Residue(Carry(s, k)) == Residue(s) && Value(Carry(s, k), 0) == Value(s, 0)
  {
    CarryValue(s, k, (s[k] + 0x10_0000) / LIMB);
  }

  lemma CarryDownBounds(s: Limbs, k: nat, bound: nat)
    requires CarryFits(s, k) && Within(s[k], bound)
    ensures 0 <= CarryDown(s, k)[k] < LIMB
    ensures Within(CarryDown(s, k)[k + 1] - s[k + 1], bound / LIMB + 1)
    ensures forall i :: 0 <= i < 24 && i != k && i != k + 1 ==> CarryDown(s, k)[i] == s[i]
    ensures Value(CarryDown(s, k), 0) == Value(s, 0)
  {
    CarryValue(s, k, s[k] / LIMB);
  }

  lemma CarryValue(s: Limbs, k: nat, carry: int)
    requires k < 23
    ensures Value(s[k + 1 := s[k + 1] + carry][k := s[k] - carry * LIMB], 0) == Value(s, 0)
  {
    hide Value, Power;
    var t, d := s[k + 1 := s[k + 1] + carry], carry * LIMB;
    ValueUpdate(s, 0, k + 1, carry);
    ValueUpdate(t, 0, k, -d);
    PowerNext(k);
    Shift(carry, Power(k));
    assert t[k := t[k] + -d] == s[k + 1 := s[k + 1] + carry][k := s[k] - d];
  }

  lemma PowerNext(n: nat)
    ensures Power(n + 1) == LIMB * Power(n)
  {
  }

  lemma Shift(carry: int, p: int)
    ensures -(carry * LIMB) * p == -(carry * (LIMB * p))
  {
  }

  // ---- the phases: how large the limbs are after each step ----

  /** Limbs 23 down to k have been folded. */
  ghost predicate HighFolded(s: Limbs, k: nat) {
    && 18 <= k <= 24
    && (forall i :: 0 <= i < 6 ==> Within(s[i], 0x8000_0000))
    && (forall i :: 6 <= i <= 16 ==> Within(s[i], 0x8000_0000 + (24 - k) * 0x8_0000_0000_0000))
    && (forall i :: 17 <= i < k ==> Within(s[i], 0x8000_0000))
    && forall i :: k <= i < 24 ==> s[i] == 0
  }

  lemma HighFold(s: Limbs, k: nat)
    requires HighFolded(s, k + 1) && 18 <= k < 24
    ensures FoldFits(s, k) && HighFolded(Fold(s, k), k) && Residue(Fold(s, k)) == Residue(s)
  {
    hide Fold, Value;
    FoldBounds(s, k, 0x8000_0000);
    FoldValue(s, k);
  }

  /** Even limbs from 6 below k have been carried. */
  ghost predicate EvensCarried(s: Limbs, k: nat) {
    && 6 <= k <= 18 && k % 2 == 0
    && (forall i :: 0 <= i < 6 ==> Within(s[i], 0x8000_0000))
    && (forall i :: 6 <= i < 17 ==> Within(s[i],
         if i % 2 == 0 then if i < k then 0x10_0000 else 0x40_0000_0000_0000
         else if i < k then 0x40_0004_0000_0000 else 0x40_0000_0000_0000))
    && Within(s[17], if k == 18 then 0x8_0000_0000 else 0x8000_0000)
    && forall i :: 18 <= i < 24 ==> s[i] == 0
  }

  lemma CarryEven(s: Limbs, k: nat)
    requires EvensCarried(s, k) && k < 18
    ensures CarryFits(s, k) && EvensCarried(Carry(s, k), k + 2) && Residue(Carry(s, k)) == Residue(s)
  {
    hide Carry, Value, Residue;
    CarryBounds(s, k, 0x40_0000_0000_0000);
  }

  /** Odd limbs from 7 below k have been carried. */
  ghost predicate OddsCarried(s: Limbs, k: nat) {
    && 7 <= k <= 17 && k % 2 == 1
    && (forall i :: 0 <= i < 6 ==> Within(s[i], 0x8000_0000))
    && (forall i :: 6 <= i < 17 ==> Within(s[i],
         if i % 2 == 1 then if i < k then 0x10_0000 else 0x40_0004_0000_0000
         else if i < k then 0x8_0000_0000 else 0x10_0000))
    && Within(s[17], 0x8_0000_0000)
    && forall i :: 18 <= i < 24 ==> s[i] == 0
  }

  lemma CarryOdd(s: Limbs, k: nat)
    requires OddsCarried(s, k) && k < 17
    ensures CarryFits(s, k) && OddsCarried(Carry(s, k), k + 2) && Residue(Carry(s, k)) == Residue(s)
  {
    hide Carry, Value, Residue;
    CarryBounds(s, k, 0x40_0004_0000_0000);
  }

  /** Limbs 17 down to k have been folded. */
  ghost predicate LowFolded(s: Limbs, k: nat) {
    && 12 <= k <= 18
    && (forall i :: 0 <= i <= 10 ==> Within(s[i], 0x8_0000_0000 + (18 - k) * 0x80_0000_0000_0000))
    && (forall i :: 11 <= i < k ==> Within(s[i], 0x8_0000_0000))
    && forall i :: k <= i < 24 ==> s[i] == 0
  }

  lemma LowFold(s: Limbs, k: nat)
    requires LowFolded(s, k + 1) && 12 <= k < 18
    ensures FoldFits(s, k) && LowFolded(Fold(s, k), k) && Residue(Fold(s, k)) == Residue(s)
  {
    hide Fold, Value;
    FoldBounds(s, k, 0x8_0000_0000);
    FoldValue(s, k);
  }

  /** Even limbs below k have been carried. */
  ghost predicate LowEvensCarried(s: Limbs, k: nat) {
    && k <= 12 && k % 2 == 0
    && (forall i :: 0 <= i < 11 ==> Within(s[i],
         if i % 2 == 0 then if i < k then 0x10_0000 else 0x400_0000_0000_0000
         else if i < k then 0x400_0040_0000_0000 else 0x400_0000_0000_0000))
    && Within(s[11], if k == 12 then 0x80_0000_0000 else 0x8_0000_0000)
    && forall i :: 12 <= i < 24 ==> s[i] == 0
  }

  lemma CarryLowEven(s: Limbs, k: nat)
    requires LowEvensCarried(s, k) && k < 12
    ensures CarryFits(s, k) && LowEvensCarried(Carry(s, k), k + 2) && Residue(Carry(s, k)) == Residue(s)
  {
    hide Carry, Value, Residue;
    CarryBounds(s, k, 0x400_0000_0000_0000);
  }

  /** Odd limbs below k have been carried. */
  ghost predicate LowOddsCarried(s: Limbs, k: nat) {
    && 1 <= k <= 13 && k % 2 == 1
    && (forall i :: 0 <= i < 12 ==> Within(s[i],
         if i % 2 == 1 then if i < k then 0x10_0000 else if i == 11 then 0x80_0000_0000 else 0x400_0040_0000_0000
         else if i < k then 0x80_0000_0000 else 0x10_0000))
    && Within(s[12], if k == 13 then 0x80_0000_0000 else 0)
    && forall i :: 13 <= i < 24 ==> s[i] == 0
  }

  lemma CarryLowOdd(s: Limbs, k: nat)
    requires LowOddsCarried(s, k) && k < 13
    ensures CarryFits(s, k) && LowOddsCarried(Carry(s, k), k + 2) && Residue(Carry(s, k)) == Residue(s)
  {
    hide Carry, Value, Residue;
    CarryBounds(s, k, if k == 11 then 0x80_0000_0000 else 0x400_0040_0000_0000);
  }

  // ---- the canonical residue ----

  /** The twelve low limbs with limb 12 on top. */
  lemma {:induction false} LowPart(s: Limbs, i: nat)
    requires i <= 12 && forall k :: 13 <= k < 24 ==> s[k] == 0
    ensures Value(s, i) == Value(s[..12], i) + s[12] * Power(12 - i)
    decreases 12 - i
  {
    if i == 12 {
      ValueZero(s, 13);
    } else {
      LowPart(s, i + 1);
      Scale(s[12], Power(12 - i - 1));
    }
  }

  lemma {:induction false} ValueZero(s: seq<int>, i: nat)
    requires forall k :: i <= k < |s| ==> s[k] == 0
    ensures Value(s, i) == 0
    decreases |s| - i
  {
    if i < |s| { ValueZero(s, i + 1); }
  }

  lemma {:induction false} ValueRange(s: seq<int>, i: nat)
    requires i <= |s| && forall k :: i <= k < |s| ==> 0 <= s[k] < LIMB
    ensures 0 <= Value(s, i) < Power(|s| - i)
    decreases |s| - i
  {
    if i < |s| { ValueRange(s, i + 1); }
  }

  /** After the third fold the number is less than 2^252 in size. */
  ghost predicate Small(s: Limbs) {
    && (forall i :: 0 <= i < 6 ==> Within(s[i], 0x1000_0000_0000_0000))
    && (forall i :: 6 <= i < 11 ==> Within(s[i], 0x80_0000_0000))
    && Within(s[11], 0x10_0000)
    && forall i :: 12 <= i < 24 ==> s[i] == 0
  }

  lemma SmallValue(s: Limbs)
    requires Small(s)
    ensures -0x1000_0000_0000_0000_0000_0000_0000_0000_0000_0000_0000_0000_0000_0000_0000_0000 < Value(s, 0)
      < 0x1000_0000_0000_0000_0000_0000_0000_0000_0000_0000_0000_0000_0000_0000_0000_0000
  {
    ValueZero(s, 12);
    assert Within(Value(s, 11), 0x10_0000);
    assert Within(Value(s, 10), 0x280_0000_0000);
    assert Within(Value(s, 9), 0x5000_0080_0000_0000);
    assert Within(Value(s, 8), 0xa_0000_1000_0080_0000_0000);
    assert Within(Value(s, 7), 0x140_0002_0000_1000_0080_0000_0000);
    assert Within(Value(s, 6), 0x2800_0040_0002_0000_1000_0080_0000_0000);
    assert Within(Value(s, 5), 0x5_0000_0800_0040_0002_0000_2000_0000_0000_0000);
    assert Within(Value(s, 4), 0xa0_0001_0000_0800_0040_0004_0000_1000_0000_0000_0000);
    assert Within(Value(s, 3), 0x1400_0020_0001_0000_0800_0080_0002_0000_1000_0000_0000_0000);
    assert Within(Value(s, 2), 0x2_8000_0400_0020_0001_0000_1000_0040_0002_0000_1000_0000_0000_0000);
    assert Within(Value(s, 1), 0x50_0000_8000_0400_0020_0002_0000_0800_0040_0002_0000_1000_0000_0000_0000);
    assert Within(Value(s, 0), 0xa00_0010_0000_8000_0400_0040_0001_0000_0800_0040_0002_0000_1000_0000_0000_0000);
  }

  lemma Power12()
    ensures Power(12) == 0x1000_0000_0000_0000_0000_0000_0000_0000_0000_0000_0000_0000_0000_0000_0000_0000
      && Power(11) == 0x80_0000_0000_0000_0000_0000_0000_0000_0000_0000_0000_0000_0000_0000_0000
  {
    assert Power(1) == LIMB * Power(0);
    PowerShift(0);
    assert Power(6) == LIMB * Power(5);
    PowerShift(6);
  }

  /** Limbs below k have been carried down; every limb is moderate. */
  ghost predicate DownCarried(s: Limbs, k: nat) {
    && k <= 12
    && (forall i :: 0 <= i < k ==> 0 <= s[i] < LIMB)
    && (forall i :: k <= i < 13 ==> Within(s[i], 0x2000_0000_0000_0000))
    && forall i :: 13 <= i < 24 ==> s[i] == 0
  }

  /** Limbs below k have been carried down; the others have not been touched. */
  ghost predicate Untouched(s: Limbs, k: nat) {
    forall i :: k < i < 13 ==> Within(s[i], 0x1000_0000_0000_0000)
  }

  lemma DownStep(s: Limbs, k: nat)
    requires DownCarried(s, k) && Untouched(s, k) && k < 12
    ensures CarryFits(s, k) && DownCarried(CarryDown(s, k), k + 1) && Untouched(CarryDown(s, k), k + 1)
    ensures Value(CarryDown(s, k), 0) == Value(s, 0)
    ensures k < 11 ==> CarryDown(s, k)[12] == s[12]
  {
    hide CarryDown, Value;
    CarryDownBounds(s, k, 0x2000_0000_0000_0000);
  }

  /** Once carried down, limb 12 is the quotient by 2^252. */
  lemma Quotient(s: Limbs)
    requires DownCarried(s, 12)
      && -0x1000_0000_0000_0000_0000_0000_0000_0000_0000_0000_0000_0000_0000_0000_0000_0000 < Value(s, 0)
        < 0x1000_0000_0000_0000_0000_0000_0000_0000_0000_0000_0000_0000_0000_0000_0000_0000
    ensures s[12] == if Value(s, 0) < 0 then -1 else 0
  {
    LowPart(s, 0);
    ValueRange(s[..12], 0);
    Power12();
  }

  /** The fourth fold leaves the canonical residue. */
  lemma LastFold(s: Limbs)
    requires DownCarried(s, 12)
      && -0x1000_0000_0000_0000_0000_0000_0000_0000_0000_0000_0000_0000_0000_0000_0000_0000 < Value(s, 0)
        < 0x1000_0000_0000_0000_0000_0000_0000_0000_0000_0000_0000_0000_0000_0000_0000_0000
    ensures FoldFits(s, 12) && 0 <= Value(Fold(s, 12), 0) < ORDER
    ensures Value(Fold(s, 12), 0) == Value(s, 0) % ORDER
    ensures DownCarried(Fold(s, 12), 0) && Untouched(Fold(s, 12), 0) && Fold(s, 12)[12] == 0
  {
    hide Value, Fold;
    Quotient(s);
    FoldBounds(s, 12, 1);
    FoldValue(s, 12);
    assert Power(0) == 1;
    Canonical(Value(s, 0), Value(Fold(s, 12), 0));
  }

  lemma Canonical(v: int, r: int)
    requires 0 <= r < ORDER && (r == v || r == v + ORDER)
    ensures r == v % ORDER
  {
  }

  /** The last limb, one bit longer than the others. */
  lemma LastLimb(s: Limbs)
    requires DownCarried(s, 11) && s[12] == 0 && 0 <= Value(s, 0) < ORDER
    ensures 0 <= s[11] <= LIMB
  {
    LowPart(s, 0);
    LowEleven(s[..12], 0);
    ValueRange(s[..11], 0);
    assert s[..12][..11] == s[..11];
    Power12();
  }

  lemma {:induction false} LowEleven(s: seq<int>, i: nat)
    requires |s| == 12 && i <= 11
    ensures Value(s, i) == Value(s[..11], i) + s[11] * Power(11 - i)
    decreases 11 - i
  {
    if i < 11 {
      LowEleven(s, i + 1);
      Scale(s[11], Power(11 - i - 1));
    } else {
      assert Power(0) == 1 && Value(s, 12) == 0;
    }
  }

  // ---- the reduction both functions end with ----

  method FoldHigh(s0: Limbs) returns (s: Limbs)
    requires forall i :: 0 <= i < 24 ==> Within(s0[i], 0x8000_0000)
    ensures EvensCarried(s, 6) && Residue(s) == Residue(s0)
  {
    hide Fold, FoldFits, HighFolded, Residue;
    HighStart(s0);
    s := s0;
    HighFold(s, 23);
    s := Fold(s, 23);
    HighFold(s, 22);
    s := Fold(s, 22);
    HighFold(s, 21);
    s := Fold(s, 21);
    HighFold(s, 20);
    s := Fold(s, 20);
    HighFold(s, 19);
    s := Fold(s, 19);
    HighFold(s, 18);
    s := Fold(s, 18);
    HighEnd(s);
  }

  lemma HighStart(s: Limbs)
    requires forall i :: 0 <= i < 24 ==> Within(s[i], 0x8000_0000)
    ensures HighFolded(s, 24)
  {
  }

  lemma HighEnd(s: Limbs)
    requires HighFolded(s, 18)
    ensures EvensCarried(s, 6)
  {
  }

  method CarryMiddle(s0: Limbs) returns (s: Limbs)
    requires EvensCarried(s0, 6)
    ensures LowFolded(s, 18) && Residue(s) == Residue(s0)
  {
    hide Carry, CarryFits, EvensCarried, OddsCarried, Residue;
    s := s0;
    CarryEven(s, 6);
    s := Carry(s, 6);
    CarryEven(s, 8);
    s := Carry(s, 8);
    CarryEven(s, 10);
    s := Carry(s, 10);
    CarryEven(s, 12);
    s := Carry(s, 12);
    CarryEven(s, 14);
    s := Carry(s, 14);
    CarryEven(s, 16);
    s := Carry(s, 16);
    MiddleHalf(s);
    CarryOdd(s, 7);
    s := Carry(s, 7);
    CarryOdd(s, 9);
    s := Carry(s, 9);
    CarryOdd(s, 11);
    s := Carry(s, 11);
    CarryOdd(s, 13);
    s := Carry(s, 13);
    CarryOdd(s, 15);
    s := Carry(s, 15);
    MiddleEnd(s);
  }

  lemma MiddleHalf(s: Limbs)
    requires EvensCarried(s, 18)
    ensures OddsCarried(s, 7)
  {
  }

  lemma MiddleEnd(s: Limbs)
    requires OddsCarried(s, 17)
    ensures LowFolded(s, 18)
  {
  }

  method FoldLow(s0: Limbs) returns (s: Limbs)
    requires LowFolded(s0, 18)
    ensures LowEvensCarried(s, 0) && Residue(s) == Residue(s0)
  {
    hide Fold, FoldFits, LowFolded, Residue;
    s := s0;
    LowFold(s, 17);
    s := Fold(s, 17);
    LowFold(s, 16);
    s := Fold(s, 16);
    LowFold(s, 15);
    s := Fold(s, 15);
    LowFold(s, 14);
    s := Fold(s, 14);
    LowFold(s, 13);
    s := Fold(s, 13);
    LowFold(s, 12);
    s := Fold(s, 12);
    LowEnd(s);
  }

  lemma LowEnd(s: Limbs)
    requires LowFolded(s, 12)
    ensures LowEvensCarried(s, 0)
  {
  }

  method CarryLow(s0: Limbs) returns (s: Limbs)
    requires LowEvensCarried(s0, 0)
    ensures LowOddsCarried(s, 13) && Residue(s) == Residue(s0)
  {
    hide Carry, CarryFits, LowEvensCarried, LowOddsCarried, Residue;
    s := s0;
    CarryLowEven(s, 0);
    s := Carry(s, 0);
    CarryLowEven(s, 2);
    s := Carry(s, 2);
    CarryLowEven(s, 4);
    s := Carry(s, 4);
    CarryLowEven(s, 6);
    s := Carry(s, 6);
    CarryLowEven(s, 8);
    s := Carry(s, 8);
    CarryLowEven(s, 10);
    s := Carry(s, 10);
    LowHalf(s);
    CarryLowOdd(s, 1);
    s := Carry(s, 1);
    CarryLowOdd(s, 3);
    s := Carry(s, 3);
    CarryLowOdd(s, 5);
    s := Carry(s, 5);
    CarryLowOdd(s, 7);
    s := Carry(s, 7);
    CarryLowOdd(s, 9);
    s := Carry(s, 9);
    CarryLowOdd(s, 11);
    s := Carry(s, 11);
  }

  lemma LowHalf(s: Limbs)
    requires LowEvensCarried(s, 12)
    ensures LowOddsCarried(s, 1)
  {
  }

  /** The third fold. */
  lemma ThirdFold(s: Limbs)
    requires LowOddsCarried(s, 13)
    ensures FoldFits(s, 12) && Residue(Fold(s, 12)) == Residue(s)
    ensures Small(Fold(s, 12)) && DownCarried(Fold(s, 12), 0) && Untouched(Fold(s, 12), 0)
  {
    hide Fold, Residue;
    FoldBounds(s, 12, 0x80_0000_0000);
    FoldValue(s, 12);
  }

  method CarryAll(s0: Limbs) returns (s: Limbs)
    requires DownCarried(s0, 0) && Untouched(s0, 0)
    ensures DownCarried(s, 12) && Value(s, 0) == Value(s0, 0)
  {
    hide CarryDown, CarryFits, DownCarried, Untouched, Value;
    s := s0;
    DownStep(s, 0);
    s := CarryDown(s, 0);
    DownStep(s, 1);
    s := CarryDown(s, 1);
    DownStep(s, 2);
    s := CarryDown(s, 2);
    DownStep(s, 3);
    s := CarryDown(s, 3);
    DownStep(s, 4);
    s := CarryDown(s, 4);
    DownStep(s, 5);
    s := CarryDown(s, 5);
    DownStep(s, 6);
    s := CarryDown(s, 6);
    DownStep(s, 7);
    s := CarryDown(s, 7);
    DownStep(s, 8);
    s := CarryDown(s, 8);
    DownStep(s, 9);
    s := CarryDown(s, 9);
    DownStep(s, 10);
    s := CarryDown(s, 10);
    DownStep(s, 11);
    s := CarryDown(s, 11);
  }

  method CarryEleven(s0: Limbs) returns (s: Limbs)
    requires DownCarried(s0, 0) && Untouched(s0, 0)
    ensures DownCarried(s, 11) && s[12] == s0[12] && Value(s, 0) == Value(s0, 0)
  {
    hide CarryDown, CarryFits, DownCarried, Untouched, Value;
    s := s0;
    DownStep(s, 0);
    s := CarryDown(s, 0);
    DownStep(s, 1);
    s := CarryDown(s, 1);
    DownStep(s, 2);
    s := CarryDown(s, 2);
    DownStep(s, 3);
    s := CarryDown(s, 3);
    DownStep(s, 4);
    s := CarryDown(s, 4);
    DownStep(s, 5);
    s := CarryDown(s, 5);
    DownStep(s, 6);
    s := CarryDown(s, 6);
    DownStep(s, 7);
    s := CarryDown(s, 7);
    DownStep(s, 8);
    s := CarryDown(s, 8);
    DownStep(s, 9);
    s := CarryDown(s, 9);
    DownStep(s, 10);
    s := CarryDown(s, 10);
  }

  /** The folds and carries shared by sc_reduce and sc_muladd. */
  method ReduceLimbs(s0: Limbs) returns (s: Limbs)
    requires forall i :: 0 <= i < 24 ==> Within(s0[i], 0x8000_0000)
    ensures Value(s, 0) == Residue(s0)
    ensures (forall i :: 0 <= i < 11 ==> 0 <= s[i] < LIMB) && 0 <= s[11] <= LIMB
    ensures forall i :: 12 <= i < 24 ==> s[i] == 0
  {
    hide Value, Fold, FoldFits, Small, LowOddsCarried;
    s := FoldHigh(s0);
    s := CarryMiddle(s);
    s := FoldLow(s);
    s := CarryLow(s);
    ThirdFold(s);
    s := Fold(s, 12);
    SmallValue(s);
    s := CarryAll(s);
    LastFold(s);
    s := Fold(s, 12);
    s := CarryEleven(s);
    LastLimb(s);
  }
}
