/** Field elements modulo 2^255 - 19 (Externals/ed25519/fe.c): ten limbs of alternately twenty-six
    and twenty-five bits, multiplied in sixty-four-bit integers and carried back. */
module FieldElement {
  /** The prime of section 5.1 of RFC 8032. */
  const PRIME := 57896044618658097711785492504343953926634992332820282019728792003956564819949

  type Fe = s: seq<int> | |s| == 10 witness seq(10, i => 0)

  function Radix(i: nat): nat {
    if i % 2 == 0 then 0x400_0000 else 0x200_0000
  }

  /** The number the limbs from i on stand for, in units of limb i. */
  function Value(s: seq<int>, i: nat): int
    decreases |s| - i
  {
    if i >= |s| then 0 else s[i] + Radix(i) * Value(s, i + 1)
  }

  function Residue(s: seq<int>): int {
    Value(s, 0) % PRIME
  }

  predicate Within(x: int, bound: nat) {
    -(bound as int) <= x <= bound
  }

  predicate Fits32(x: int) {
    -0x8000_0000 <= x < 0x8000_0000
  }

  predicate Fits64(x: int) {
    -0x8000_0000_0000_0000 <= x < 0x8000_0000_0000_0000
  }

  /** Limbs bounded by 1.65 * 2^26 and 1.65 * 2^25: what a product accepts. */
  predicate Loose(s: Fe) {
    forall i :: 0 <= i < 10 ==> Within(s[i], if i % 2 == 0 then 110729625 else 55364812)
  }

  /** Limbs bounded by 1.01 * 2^25 and 1.01 * 2^24: what a product returns. */
  predicate Tight(s: Fe) {
    forall i :: 0 <= i < 10 ==> Within(s[i], if i % 2 == 0 then 33889976 else 16944988)
  }

  lemma TightIsLoose(s: Fe)
    requires Tight(s)
    ensures Loose(s)
  {
  }

  lemma Expand(s: Fe)
    ensures Value(s, 0) == s[0] + 0x400_0000 * s[1] + 0x8_0000_0000_0000 * s[2]
      + 0x2000_0000_0000_0000_0000 * s[3] + 0x40_0000_0000_0000_0000_0000_0000 * s[4]
      + 0x1_0000_0000_0000_0000_0000_0000_0000_0000 * s[5]
      + 0x200_0000_0000_0000_0000_0000_0000_0000_0000_0000 * s[6]
      + 0x8_0000_0000_0000_0000_0000_0000_0000_0000_0000_0000_0000 * s[7]
      + 0x1000_0000_0000_0000_0000_0000_0000_0000_0000_0000_0000_0000_0000 * s[8]
      + 0x40_0000_0000_0000_0000_0000_0000_0000_0000_0000_0000_0000_0000_0000_0000 * s[9]
  {
    assert Value(s, 9) == s[9] + Radix(9) * Value(s, 10);
    assert Value(s, 8) == s[8] + 0x400_0000 * s[9];
    assert Value(s, 7) == s[7] + 0x200_0000 * s[8] + 0x8_0000_0000_0000 * s[9];
    assert Value(s, 6) == s[6] + 0x400_0000 * s[7] + 0x8_0000_0000_0000 * s[8] + 0x2000_0000_0000_0000_0000 * s[9];
    assert Value(s, 5) == s[5] + 0x200_0000 * s[6] + 0x8_0000_0000_0000 * s[7]
      + 0x1000_0000_0000_0000_0000 * s[8] + 0x40_0000_0000_0000_0000_0000_0000 * s[9];
    assert Value(s, 4) == s[4] + 0x400_0000 * s[5] + 0x8_0000_0000_0000 * s[6]
      + 0x2000_0000_0000_0000_0000 * s[7] + 0x40_0000_0000_0000_0000_0000_0000 * s[8]
      + 0x1_0000_0000_0000_0000_0000_0000_0000_0000 * s[9];
    assert Value(s, 3) == s[3] + 0x200_0000 * s[4] + 0x8_0000_0000_0000 * s[5]
      + 0x1000_0000_0000_0000_0000 * s[6] + 0x40_0000_0000_0000_0000_0000_0000 * s[7]
      + 0x8000_0000_0000_0000_0000_0000_0000_0000 * s[8]
      + 0x200_0000_0000_0000_0000_0000_0000_0000_0000_0000 * s[9];
    assert Value(s, 2) == s[2] + 0x400_0000 * s[3] + 0x8_0000_0000_0000 * s[4]
      + 0x2000_0000_0000_0000_0000 * s[5] + 0x40_0000_0000_0000_0000_0000_0000 * s[6]
      + 0x1_0000_0000_0000_0000_0000_0000_0000_0000 * s[7]
      + 0x200_0000_0000_0000_0000_0000_0000_0000_0000_0000 * s[8]
      + 0x8_0000_0000_0000_0000_0000_0000_0000_0000_0000_0000_0000 * s[9];
    assert Value(s, 1) == s[1] + 0x200_0000 * s[2] + 0x8_0000_0000_0000 * s[3]
      + 0x1000_0000_0000_0000_0000 * s[4] + 0x40_0000_0000_0000_0000_0000_0000 * s[5]
      + 0x8000_0000_0000_0000_0000_0000_0000_0000 * s[6]
      + 0x200_0000_0000_0000_0000_0000_0000_0000_0000_0000 * s[7]
      + 0x4_0000_0000_0000_0000_0000_0000_0000_0000_0000_0000_0000 * s[8]
      + 0x1000_0000_0000_0000_0000_0000_0000_0000_0000_0000_0000_0000_0000 * s[9];
    assert Value(s, 0) == s[0] + 0x400_0000 * s[1] + 0x8_0000_0000_0000 * s[2]
      + 0x2000_0000_0000_0000_0000 * s[3] + 0x40_0000_0000_0000_0000_0000_0000 * s[4]
      + 0x1_0000_0000_0000_0000_0000_0000_0000_0000 * s[5]
      + 0x200_0000_0000_0000_0000_0000_0000_0000_0000_0000 * s[6]
      + 0x8_0000_0000_0000_0000_0000_0000_0000_0000_0000_0000_0000 * s[7]
      + 0x1000_0000_0000_0000_0000_0000_0000_0000_0000_0000_0000_0000_0000 * s[8]
      + 0x40_0000_0000_0000_0000_0000_0000_0000_0000_0000_0000_0000_0000_0000_0000 * s[9];
  }

  // ---- the product, row by row ----

  /** What limb i of one factor is multiplied by in column k: the limb of the other factor that
      belongs there, doubled between two odd limbs and times nineteen past the top. */
  function Entry(g: Fe, i: nat, k: nat): int
    requires i < 10 && k < 10
  {
    var j := if k >= i then k - i else k + 10 - i;
    (if i % 2 == 1 && j % 2 == 1 then 2 else 1) * (if k >= i then 1 else 19) * g[j]
  }

  function Mul(x: int, y: int): int {
    x * y
  }

  function Column(f: Fe, g: Fe, k: nat, i: nat): int
    requires k < 10 && i <= 10
  {
    if i == 0 then 0 else Column(f, g, k, i - 1) + Mul(f[i - 1], Entry(g, i - 1, k))
  }

  function Columns(f: Fe, g: Fe, i: nat): Fe
    requires i <= 10
  {
    seq(10, k requires 0 <= k < 10 => Column(f, g, k, i))
  }

  function Row(g: Fe, i: nat): Fe
    requires i < 10
  {
    seq(10, k requires 0 <= k < 10 => Entry(g, i, k))
  }

  /** The weight of limb i: 2^(25.5 * i), rounded up. */
  function Weight(i: nat): nat {
    if i == 0 then 1 else Radix(i - 1) * Weight(i - 1)
  }

  lemma Weights()
    ensures Weight(0) == 0x1
    ensures Weight(1) == 0x400_0000
    ensures Weight(2) == 0x8_0000_0000_0000
    ensures Weight(3) == 0x2000_0000_0000_0000_0000
    ensures Weight(4) == 0x40_0000_0000_0000_0000_0000_0000
    ensures Weight(5) == 0x1_0000_0000_0000_0000_0000_0000_0000_0000
    ensures Weight(6) == 0x200_0000_0000_0000_0000_0000_0000_0000_0000_0000
    ensures Weight(7) == 0x8_0000_0000_0000_0000_0000_0000_0000_0000_0000_0000_0000
    ensures Weight(8) == 0x1000_0000_0000_0000_0000_0000_0000_0000_0000_0000_0000_0000_0000
    ensures Weight(9) == 0x40_0000_0000_0000_0000_0000_0000_0000_0000_0000_0000_0000_0000_0000_0000
  {
    assert Weight(1) == Radix(0) * Weight(0);
    assert Weight(2) == Radix(1) * Weight(1);
    assert Weight(3) == Radix(2) * Weight(2);
    assert Weight(4) == Radix(3) * Weight(3);
    assert Weight(5) == Radix(4) * Weight(4);
    assert Weight(6) == Radix(5) * Weight(5);
    assert Weight(7) == Radix(6) * Weight(6);
    assert Weight(8) == Radix(7) * Weight(7);
    assert Weight(9) == Radix(8) * Weight(8);
  }

  /** The multiple of the prime that row i takes off: the limbs past the top. */
  function Wrapped(g: Fe, i: nat): int
    requires i < 10
  {
    if i == 0 then 0 else
    if i == 1 then 0x2 * g[9] else
    if i == 2 then g[8] + 0x400_0000 * g[9] else
    if i == 3 then 0x2 * g[7] + 0x400_0000 * g[8] + 0x10_0000_0000_0000 * g[9] else
    if i == 4 then g[6] + 0x400_0000 * g[7] + 0x8_0000_0000_0000 * g[8] + 0x2000_0000_0000_0000_0000 * g[9] else
    if i == 5 then 0x2 * g[5] + 0x400_0000 * g[6] + 0x10_0000_0000_0000 * g[7]
      + 0x2000_0000_0000_0000_0000 * g[8] + 0x80_0000_0000_0000_0000_0000_0000 * g[9] else
    if i == 6 then g[4] + 0x400_0000 * g[5] + 0x8_0000_0000_0000 * g[6] + 0x2000_0000_0000_0000_0000 * g[7]
      + 0x40_0000_0000_0000_0000_0000_0000 * g[8] + 0x1_0000_0000_0000_0000_0000_0000_0000_0000 * g[9] else
    if i == 7 then 0x2 * g[3] + 0x400_0000 * g[4] + 0x10_0000_0000_0000 * g[5]
      + 0x2000_0000_0000_0000_0000 * g[6] + 0x80_0000_0000_0000_0000_0000_0000 * g[7]
      + 0x1_0000_0000_0000_0000_0000_0000_0000_0000 * g[8]
      + 0x400_0000_0000_0000_0000_0000_0000_0000_0000_0000 * g[9] else
    if i == 8 then g[2] + 0x400_0000 * g[3] + 0x8_0000_0000_0000 * g[4] + 0x2000_0000_0000_0000_0000 * g[5]
      + 0x40_0000_0000_0000_0000_0000_0000 * g[6] + 0x1_0000_0000_0000_0000_0000_0000_0000_0000 * g[7]
      + 0x200_0000_0000_0000_0000_0000_0000_0000_0000_0000 * g[8]
      + 0x8_0000_0000_0000_0000_0000_0000_0000_0000_0000_0000_0000 * g[9] else
    0x2 * g[1] + 0x400_0000 * g[2] + 0x10_0000_0000_0000 * g[3] + 0x2000_0000_0000_0000_0000 * g[4]
      + 0x80_0000_0000_0000_0000_0000_0000 * g[5] + 0x1_0000_0000_0000_0000_0000_0000_0000_0000 * g[6]
      + 0x400_0000_0000_0000_0000_0000_0000_0000_0000_0000 * g[7]
      + 0x8_0000_0000_0000_0000_0000_0000_0000_0000_0000_0000_0000 * g[8]
      + 0x2000_0000_0000_0000_0000_0000_0000_0000_0000_0000_0000_0000_0000 * g[9]
  }

  lemma RowEntries0(g: Fe)
    ensures Row(g, 0)[0] == g[0]
    ensures Row(g, 0)[1] == g[1]
    ensures Row(g, 0)[2] == g[2]
    ensures Row(g, 0)[3] == g[3]
    ensures Row(g, 0)[4] == g[4]
    ensures Row(g, 0)[5] == g[5]
    ensures Row(g, 0)[6] == g[6]
    ensures Row(g, 0)[7] == g[7]
    ensures Row(g, 0)[8] == g[8]
    ensures Row(g, 0)[9] == g[9]
  {
  }

  lemma RowValue0(g: Fe)
    ensures Value(Row(g, 0), 0) == Weight(0) * Value(g, 0) - PRIME * Wrapped(g, 0)
  {
    hide Row, Value, Weight;
    RowEntries0(g);
    Expand(Row(g, 0));
    Expand(g);
    Weights();
  }

  lemma RowEntries1(g: Fe)
    ensures Row(g, 1)[0] == 38 * g[9]
    ensures Row(g, 1)[1] == g[0]
    ensures Row(g, 1)[2] == 2 * g[1]
    ensures Row(g, 1)[3] == g[2]
    ensures Row(g, 1)[4] == 2 * g[3]
    ensures Row(g, 1)[5] == g[4]
    ensures Row(g, 1)[6] == 2 * g[5]
    ensures Row(g, 1)[7] == g[6]
    ensures Row(g, 1)[8] == 2 * g[7]
    ensures Row(g, 1)[9] == g[8]
  {
  }

  lemma RowValue1(g: Fe)
    ensures Value(Row(g, 1), 0) == Weight(1) * Value(g, 0) - PRIME * Wrapped(g, 1)
  {
    hide Row, Value, Weight;
    RowEntries1(g);
    Expand(Row(g, 1));
    Expand(g);
    Weights();
  }

  lemma RowEntries2(g: Fe)
    ensures Row(g, 2)[0] == 19 * g[8]
    ensures Row(g, 2)[1] == 19 * g[9]
    ensures Row(g, 2)[2] == g[0]
    ensures Row(g, 2)[3] == g[1]
    ensures Row(g, 2)[4] == g[2]
    ensures Row(g, 2)[5] == g[3]
    ensures Row(g, 2)[6] == g[4]
    ensures Row(g, 2)[7] == g[5]
    ensures Row(g, 2)[8] == g[6]
    ensures Row(g, 2)[9] == g[7]
  {
  }

  lemma RowValue2(g: Fe)
    ensures Value(Row(g, 2), 0) == Weight(2) * Value(g, 0) - PRIME * Wrapped(g, 2)
  {
    hide Row, Value, Weight;
    RowEntries2(g);
    Expand(Row(g, 2));
    Expand(g);
    Weights();
  }

  lemma RowEntries3(g: Fe)
    ensures Row(g, 3)[0] == 38 * g[7]
    ensures Row(g, 3)[1] == 19 * g[8]
    ensures Row(g, 3)[2] == 38 * g[9]
    ensures Row(g, 3)[3] == g[0]
    ensures Row(g, 3)[4] == 2 * g[1]
    ensures Row(g, 3)[5] == g[2]
    ensures Row(g, 3)[6] == 2 * g[3]
    ensures Row(g, 3)[7] == g[4]
    ensures Row(g, 3)[8] == 2 * g[5]
    ensures Row(g, 3)[9] == g[6]
  {
  }

  lemma RowValue3(g: Fe)
    ensures Value(Row(g, 3), 0) == Weight(3) * Value(g, 0) - PRIME * Wrapped(g, 3)
  {
    hide Row, Value, Weight;
    RowEntries3(g);
    Expand(Row(g, 3));
    Expand(g);
    Weights();
  }

  lemma RowEntries4(g: Fe)
    ensures Row(g, 4)[0] == 19 * g[6]
    ensures Row(g, 4)[1] == 19 * g[7]
    ensures Row(g, 4)[2] == 19 * g[8]
    ensures Row(g, 4)[3] == 19 * g[9]
    ensures Row(g, 4)[4] == g[0]
    ensures Row(g, 4)[5] == g[1]
    ensures Row(g, 4)[6] == g[2]
    ensures Row(g, 4)[7] == g[3]
    ensures Row(g, 4)[8] == g[4]
    ensures Row(g, 4)[9] == g[5]
  {
  }

  lemma RowValue4(g: Fe)
    ensures Value(Row(g, 4), 0) == Weight(4) * Value(g, 0) - PRIME * Wrapped(g, 4)
  {
    hide Row, Value, Weight;
    RowEntries4(g);
    Expand(Row(g, 4));
    Expand(g);
    Weights();
  }

  lemma RowEntries5(g: Fe)
    ensures Row(g, 5)[0] == 38 * g[5]
    ensures Row(g, 5)[1] == 19 * g[6]
    ensures Row(g, 5)[2] == 38 * g[7]
    ensures Row(g, 5)[3] == 19 * g[8]
    ensures Row(g, 5)[4] == 38 * g[9]
    ensures Row(g, 5)[5] == g[0]
    ensures Row(g, 5)[6] == 2 * g[1]
    ensures Row(g, 5)[7] == g[2]
    ensures Row(g, 5)[8] == 2 * g[3]
    ensures Row(g, 5)[9] == g[4]
  {
  }

  lemma RowValue5(g: Fe)
    ensures Value(Row(g, 5), 0) == Weight(5) * Value(g, 0) - PRIME * Wrapped(g, 5)
  {
    hide Row, Value, Weight;
    RowEntries5(g);
    Expand(Row(g, 5));
    Expand(g);
    Weights();
  }

  lemma RowEntries6(g: Fe)
    ensures Row(g, 6)[0] == 19 * g[4]
    ensures Row(g, 6)[1] == 19 * g[5]
    ensures Row(g, 6)[2] == 19 * g[6]
    ensures Row(g, 6)[3] == 19 * g[7]
    ensures Row(g, 6)[4] == 19 * g[8]
    ensures Row(g, 6)[5] == 19 * g[9]
    ensures Row(g, 6)[6] == g[0]
    ensures Row(g, 6)[7] == g[1]
    ensures Row(g, 6)[8] == g[2]
    ensures Row(g, 6)[9] == g[3]
  {
  }

  lemma RowValue6(g: Fe)
    ensures Value(Row(g, 6), 0) == Weight(6) * Value(g, 0) - PRIME * Wrapped(g, 6)
  {
    hide Row, Value, Weight;
    RowEntries6(g);
    Expand(Row(g, 6));
    Expand(g);
    Weights();
  }

  lemma RowEntries7(g: Fe)
    ensures Row(g, 7)[0] == 38 * g[3]
    ensures Row(g, 7)[1] == 19 * g[4]
    ensures Row(g, 7)[2] == 38 * g[5]
    ensures Row(g, 7)[3] == 19 * g[6]
    ensures Row(g, 7)[4] == 38 * g[7]
    ensures Row(g, 7)[5] == 19 * g[8]
    ensures Row(g, 7)[6] == 38 * g[9]
    ensures Row(g, 7)[7] == g[0]
    ensures Row(g, 7)[8] == 2 * g[1]
    ensures Row(g, 7)[9] == g[2]
  {
  }

  lemma RowValue7(g: Fe)
    ensures Value(Row(g, 7), 0) == Weight(7) * Value(g, 0) - PRIME * Wrapped(g, 7)
  {
    hide Row, Value, Weight;
    RowEntries7(g);
    Expand(Row(g, 7));
    Expand(g);
    Weights();
  }

  lemma RowEntries8(g: Fe)
    ensures Row(g, 8)[0] == 19 * g[2]
    ensures Row(g, 8)[1] == 19 * g[3]
    ensures Row(g, 8)[2] == 19 * g[4]
    ensures Row(g, 8)[3] == 19 * g[5]
    ensures Row(g, 8)[4] == 19 * g[6]
    ensures Row(g, 8)[5] == 19 * g[7]
    ensures Row(g, 8)[6] == 19 * g[8]
    ensures Row(g, 8)[7] == 19 * g[9]
    ensures Row(g, 8)[8] == g[0]
    ensures Row(g, 8)[9] == g[1]
  {
  }

  lemma RowValue8(g: Fe)
    ensures Value(Row(g, 8), 0) == Weight(8) * Value(g, 0) - PRIME * Wrapped(g, 8)
  {
    hide Row, Value, Weight;
    RowEntries8(g);
    Expand(Row(g, 8));
    Expand(g);
    Weights();
  }

  lemma RowEntries9(g: Fe)
    ensures Row(g, 9)[0] == 38 * g[1]
    ensures Row(g, 9)[1] == 19 * g[2]
    ensures Row(g, 9)[2] == 38 * g[3]
    ensures Row(g, 9)[3] == 19 * g[4]
    ensures Row(g, 9)[4] == 38 * g[5]
    ensures Row(g, 9)[5] == 19 * g[6]
    ensures Row(g, 9)[6] == 38 * g[7]
    ensures Row(g, 9)[7] == 19 * g[8]
    ensures Row(g, 9)[8] == 38 * g[9]
    ensures Row(g, 9)[9] == g[0]
  {
  }

  lemma RowValue9(g: Fe)
    ensures Value(Row(g, 9), 0) == Weight(9) * Value(g, 0) - PRIME * Wrapped(g, 9)
  {
    hide Row, Value, Weight;
    RowEntries9(g);
    Expand(Row(g, 9));
    Expand(g);
    Weights();
  }

  /** A row is its limb's weight times the other factor, less a multiple of the prime. */
  lemma RowValue(g: Fe, i: nat)
    requires i < 10
    ensures Value(Row(g, i), 0) == Weight(i) * Value(g, 0) - PRIME * Wrapped(g, i)
  {
    hide Row, Value, Weight, Wrapped;
    match i {
      case 0 => RowValue0(g);
      case 1 => RowValue1(g);
      case 2 => RowValue2(g);
      case 3 => RowValue3(g);
      case 4 => RowValue4(g);
      case 5 => RowValue5(g);
      case 6 => RowValue6(g);
      case 7 => RowValue7(g);
      case 8 => RowValue8(g);
      case _ => RowValue9(g);
    }
  }

  lemma {:induction false} ValueAdd(s: seq<int>, t: seq<int>, x: int, u: seq<int>, i: nat)
    requires |s| == |t| == |u| && forall k :: 0 <= k < |s| ==> u[k] == s[k] + x * t[k]
    ensures Value(u, i) == Value(s, i) + x * Value(t, i)
    decreases |s| - i
  {
    if i < |s| {
      ValueAdd(s, t, x, u, i + 1);
      Distribute(x, t[i], Radix(i), Value(t, i + 1));
    }
  }

  lemma Distribute(x: int, y: int, r: int, v: int)
    ensures x * (y + r * v) == x * y + r * (x * v)
  {
  }

  /** The limbs of f below i, as a number. */
  function Below(f: Fe, i: nat): int
    requires i <= 10
  {
    if i == 0 then 0 else Below(f, i - 1) + f[i - 1] * Weight(i - 1)
  }

  function Taken(f: Fe, g: Fe, i: nat): int
    requires i <= 10
  {
    if i == 0 then 0 else Taken(f, g, i - 1) + f[i - 1] * Wrapped(g, i - 1)
  }

  lemma {:induction false} ColumnsValue(f: Fe, g: Fe, i: nat)
    requires i <= 10
    ensures Value(Columns(f, g, i), 0) == Below(f, i) * Value(g, 0) - PRIME * Taken(f, g, i)
  {
    hide Value, Weight, Wrapped, Row;
    if i == 0 {
      NoColumns(f, g);
    } else {
      ColumnsValue(f, g, i - 1);
      RowValue(g, i - 1);
      ColumnsNext(f, g, i);
      Collect(f[i - 1], Below(f, i - 1), Weight(i - 1), Value(g, 0), Taken(f, g, i - 1), Wrapped(g, i - 1));
    }
  }

  lemma NoColumns(f: Fe, g: Fe)
    ensures Value(Columns(f, g, 0), 0) == 0
  {
    Expand(Columns(f, g, 0));
  }

  lemma ColumnsNext(f: Fe, g: Fe, i: nat)
    requires 0 < i <= 10
    ensures Value(Columns(f, g, i), 0) == Value(Columns(f, g, i - 1), 0) + f[i - 1] * Value(Row(g, i - 1), 0)
  {
    hide Value, Entry;
    ValueAdd(Columns(f, g, i - 1), Row(g, i - 1), f[i - 1], Columns(f, g, i), 0);
  }

  lemma Collect(x: int, below: int, w: int, v: int, taken: int, wrapped: int)
    ensures below * v - PRIME * taken + x * (w * v - PRIME * wrapped) == (below + x * w) * v - PRIME * (taken
      + x * wrapped)
  {
  }

  lemma {:induction false} BelowValue(f: Fe, i: nat)
    requires i <= 10
    ensures Value(f, 0) == Below(f, i) + Weight(i) * Value(f, i)
  {
    if i > 0 {
      BelowValue(f, i - 1);
      BelowNext(f, i);
    }
  }

  lemma BelowNext(f: Fe, i: nat)
    requires 0 < i <= 10
    ensures Below(f, i) + Weight(i) * Value(f, i) == Below(f, i - 1) + Weight(i - 1) * Value(f, i - 1)
  {
    hide Radix;
    Regroup(f[i - 1], Radix(i - 1), Weight(i - 1), Value(f, i));
  }

  lemma Regroup(x: int, r: int, w: int, v: int)
    ensures x * w + r * w * v == w * (x + r * v)
  {
  }

  /** The columns of all ten rows are the product of the two elements. */
  lemma ProductResidue(f: Fe, g: Fe)
    ensures Residue(Columns(f, g, 10)) == Value(f, 0) * Value(g, 0) % PRIME
  {
    hide Value, Weight, Wrapped, Columns;
    ColumnsValue(f, g, 10);
    BelowValue(f, 10);
    NoMore(f);
    SameResidue(Value(f, 0) * Value(g, 0), Taken(f, g, 10));
  }

  lemma NoMore(f: Fe)
    ensures Value(f, 10) == 0
  {
  }

  lemma SameResidue(v: int, q: int)
    ensures (v - PRIME * q) % PRIME == v % PRIME
  {
    assert v - PRIME * q == PRIME * (v / PRIME - q) + v % PRIME;
  }

  // ---- no overflow ----

  lemma MulWithin(x: int, y: int, m: nat, n: nat)
    requires Within(x, m) && Within(y, n)
    ensures Within(x * y, m * n)
  {
    var a, b := if x < 0 then -x else x, if y < 0 then -y else y;
    MulAtMost(a, b, m, n);
    assert x * y == a * b || x * y == -(a * b);
  }

  lemma MulAtMost(a: nat, b: nat, m: nat, n: nat)
    requires a <= m && b <= n
    ensures 0 <= a * b <= m * n
  {
    assert a * b <= m * b <= m * n;
  }

  lemma EntryWithin(g: Fe, i: nat, k: nat)
    requires Loose(g) && i < 10 && k < 10
    ensures Within(Entry(g, i, k), if i % 2 == 0 then 19 * 110729625 else 38 * 110729625)
  {
  }

  lemma {:induction false} ColumnWithin(f: Fe, g: Fe, k: nat, i: nat)
    requires Loose(f) && Loose(g) && k < 10 && i <= 10
    ensures Within(Column(f, g, k, i), i * 0x33b_a3d6_73c2_8f63)
  {
    hide Entry;
    if i > 0 {
      ColumnWithin(f, g, k, i - 1);
      EntryWithin(g, i - 1, k);
      if (i - 1) % 2 == 0 {
        MulWithin(f[i - 1], Entry(g, i - 1, k), 110729625, 19 * 110729625);
      } else {
        MulWithin(f[i - 1], Entry(g, i - 1, k), 55364812, 38 * 110729625);
      }
    }
  }

  // ---- carries ----

  predicate CarryFits(s: Fe, i: nat) {
    i < 10 && Within(s[i], 0x7000_0000_0000_0000) && Within(s[if i == 9 then 0 else i + 1], 0x7000_0000_0000_0000)
  }

  /** Rounding carry out of limb i; past the top it comes back times nineteen. */
  function Carry(s: Fe, i: nat): Fe
    requires CarryFits(s, i)
  {
    var carry := (s[i] + Radix(i) / 2) / Radix(i);
    if i == 9 then s[0 := s[0] + carry * 19][9 := s[9] - carry * Radix(9)]
    else s[i + 1 := s[i + 1] + carry][i := s[i] - carry * Radix(i)]
  }

  lemma CarryBounds(s: Fe, i: nat, bound: nat)
    requires CarryFits(s, i) && Within(s[i], bound)
    ensures Within(Carry(s, i)[i], Radix(i) / 2)
    ensures i < 9 ==> Within(Carry(s, i)[i + 1] - s[i + 1], bound / Radix(i) + 1)
    ensures i == 9 ==> Within(Carry(s, i)[0] - s[0], 19 * (bound / Radix(i) + 1))
    ensures forall k :: 0 <= k < 10 && k != i && k != (if i == 9 then 0 else i + 1) ==> Carry(s, i)[k] == s[k]
  {
  }

  lemma {:induction false} ValueHead(s: seq<int>, t: seq<int>, k: nat, i: nat)
    requires |s| == |t| && k <= i <= |s| && (forall j :: k <= j < i ==> s[j] == t[j]) && Value(s, i) == Value(t, i)
    ensures Value(s, k) == Value(t, k)
    decreases i - k
  {
    if k < i { ValueHead(s, t, k + 1, i); }
  }

  lemma {:induction false} ValueTail(s: seq<int>, t: seq<int>, i: nat)
    requires |s| == |t| && forall j :: i <= j < |s| ==> s[j] == t[j]
    ensures Value(s, i) == Value(t, i)
    decreases |s| - i
  {
    if i < |s| { ValueTail(s, t, i + 1); }
  }

  lemma CarryResidue(s: Fe, i: nat)
    requires CarryFits(s, i)
    ensures Residue(Carry(s, i)) == Residue(s) && (i < 9 ==> Value(Carry(s, i), 0) == Value(s, 0))
  {
    if i == 9 {
      CarryTop(s, (s[9] + 0x100_0000) / 0x200_0000);
    } else {
      CarryNext(s, i, (s[i] + Radix(i) / 2) / Radix(i));
    }
  }

  lemma CarryNext(s: Fe, i: nat, carry: int)
    requires i < 9
    ensures Value(s[i + 1 := s[i + 1] + carry][i := s[i] - carry * Radix(i)], 0) == Value(s, 0)
  {
    var t := s[i + 1 := s[i + 1] + carry][i := s[i] - carry * Radix(i)];
    ValueTail(s, t, i + 2);
    assert Value(s, i + 1) == s[i + 1] + Radix(i + 1) * Value(s, i + 2);
    assert Value(t, i + 1) == Value(s, i + 1) + carry;
    ValueHead(s, t, 0, i);
  }

  lemma CarryTop(s: Fe, carry: int)
    ensures Residue(s[0 := s[0] + carry * 19][9 := s[9] - carry * 0x200_0000]) == Residue(s)
  {
    hide Value;
    var t := s[0 := s[0] + carry * 19][9 := s[9] - carry * 0x200_0000];
    Expand(s);
    Expand(t);
    SameResidue(Value(s, 0), carry);
  }

  /** How large the limbs are after the first n of the twelve carries of a product. */
  ghost predicate Carried(s: Fe, n: nat) {
    && n <= 12
    && Within(s[0],
              if n == 0 then 0x40a8_ccc1_0b33_33bc
                else if n < 11 then 0x200_0000 else if n == 11 then 0x266_459b_8a05 else 0x200_0000)
    && Within(s[1],
              if n < 1 then 0x40a8_ccc1_0b33_33bc
                else if n < 3 then 0x40a8_cd01_0b33_33bc else if n < 12 then 0x100_0000 else 16944988)
    && Within(s[2], if n < 3 then 0x40a8_ccc1_0b33_33bc else if n < 5 then 0x40a8_cd01_0b33_33bc else 0x200_0000)
    && Within(s[3], if n < 5 then 0x40a8_ccc1_0b33_33bc else if n < 7 then 0x40a8_cd01_0b33_33bc else 0x100_0000)
    && Within(s[4],
              if n < 2 then 0x40a8_ccc1_0b33_33bc
                else if n < 7 then 0x200_0000 else if n < 9 then 0x40_0200_0000 else 0x200_0000)
    && Within(s[5],
              if n < 2 then 0x40a8_ccc1_0b33_33bc
                else if n < 4 then 0x40a8_cd01_0b33_33bc else if n < 9 then 0x100_0000 else 16944988)
    && Within(s[6], if n < 4 then 0x40a8_ccc1_0b33_33bc else if n < 6 then 0x40a8_cd01_0b33_33bc else 0x200_0000)
    && Within(s[7], if n < 6 then 0x40a8_ccc1_0b33_33bc else if n < 8 then 0x40a8_cd01_0b33_33bc else 0x100_0000)
    && Within(s[8], if n < 8 then 0x40a8_ccc1_0b33_33bc else if n < 10 then 0x40a8_cd01_0b33_33bc else 0x200_0000)
    && Within(s[9], if n < 10 then 0x40a8_ccc1_0b33_33bc else if n < 11 then 0x40a8_cd01_0b33_33bc else 0x100_0000)
  }

  /** The limb the n-th carry is taken out of. */
  function Turn(n: nat): nat {
    [0, 4, 1, 5, 2, 6, 3, 7, 4, 8, 9, 0][if n < 12 then n else 0]
  }

  lemma CarryStep(s: Fe, n: nat)
    requires Carried(s, n) && n < 12
    ensures Turn(n) < 10 && CarryFits(s, Turn(n)) && Carried(Carry(s, Turn(n)), n + 1)
    ensures Residue(Carry(s, Turn(n))) == Residue(s)
  {
    hide Carry, Residue, CarryFits;
    var i := Turn(n);
    StepFits(s, n);
    CarryBounds(s, i, if n == 8 then 0x40_0200_0000 else if n == 11 then 0x266_459b_8a05 else 0x40a8_cd01_0b33_33bc);
    CarryResidue(s, i);
    StepCarried(s, Carry(s, i), n);
  }

  lemma StepFits(s: Fe, n: nat)
    requires Carried(s, n) && n < 12
    ensures CarryFits(s, Turn(n))
    ensures Within(s[Turn(n)],
                   if n == 8 then 0x40_0200_0000 else if n == 11 then 0x266_459b_8a05 else 0x40a8_cd01_0b33_33bc)
  {
  }

  /** The bounds move on by one carry. */
  lemma StepCarried(s: Fe, t: Fe, n: nat)
    requires Carried(s, n) && n < 12
    requires var i, bound := Turn(n), if n == 8 then 0x40_0200_0000
      else if n == 11 then 0x266_459b_8a05 else 0x40a8_cd01_0b33_33bc;
      && Within(t[i], Radix(i) / 2)
      && (i < 9 ==> Within(t[i + 1] - s[i + 1], bound / Radix(i) + 1))
      && (i == 9 ==> Within(t[0] - s[0], 19 * (bound / Radix(i) + 1)))
      && forall k :: 0 <= k < 10 && k != i && k != (if i == 9 then 0 else i + 1) ==> t[k] == s[k]
    ensures Carried(t, n + 1)
  {
  }

  /** The twelve carries at the end of fe_mul, fe_sq and fe_sq2. */
  method CarryProduct(s0: Fe) returns (s: Fe)
    requires forall i :: 0 <= i < 10 ==> Within(s0[i], 0x40a8_ccc1_0b33_33bc)
    ensures Tight(s) && Residue(s) == Residue(s0)
  {
    hide Carry, CarryFits, Residue, Carried, Tight;
    CarriedStart(s0);
    s := s0;
    CarryStep(s, 0);
    s := Carry(s, 0);
    CarryStep(s, 1);
    s := Carry(s, 4);
    CarryStep(s, 2);
    s := Carry(s, 1);
    CarryStep(s, 3);
    s := Carry(s, 5);
    CarryStep(s, 4);
    s := Carry(s, 2);
    CarryStep(s, 5);
    s := Carry(s, 6);
    CarryStep(s, 6);
    s := Carry(s, 3);
    CarryStep(s, 7);
    s := Carry(s, 7);
    CarryStep(s, 8);
    s := Carry(s, 4);
    CarryStep(s, 9);
    s := Carry(s, 8);
    CarryStep(s, 10);
    s := Carry(s, 9);
    CarryStep(s, 11);
    s := Carry(s, 0);
    CarriedEnd(s);
  }

  lemma CarriedStart(s: Fe)
    requires forall i :: 0 <= i < 10 ==> Within(s[i], 0x40a8_ccc1_0b33_33bc)
    ensures Carried(s, 0)
  {
  }

  lemma CarriedEnd(s: Fe)
    requires Carried(s, 12)
    ensures Tight(s)
  {
  }

  // ---- the products as they are written out ----

  /** A product of thirty-two-bit factors, in sixty-four bits. */
  function Product(x: int, y: int): (r: int)
    requires Within(x, 0xd33_3332) && Within(y, 0x7d66_665b)
    ensures Fits32(x) && Fits32(y) && Fits64(r) && Term(r)
  {
    MulWithin(x, y, 0xd33_3332, 0x7d66_665b);
    x * y
  }

  /** What a product of factors that come from loose limbs may be. */
  predicate Term(x: int) {
    Within(x, 0xd33_3332 * 0x7d66_665b)
  }

  /** A sixty-four-bit sum. */
  function Plus(x: int, y: int): int
    requires Fits64(x) && Fits64(y) && Fits64(x + y)
  {
    x + y
  }

  /** The terms of a column added from left to right: no partial sum leaves sixty-four bits. */
  function Sum5(a: int, b: int, c: int, d: int, e: int): (r: int)
    requires Term(a) && Term(b) && Term(c) && Term(d) && Term(e)
    ensures r == a + b + c + d + e
  {
    Plus(Plus(Plus(Plus(a, b), c), d), e)
  }

  function Sum6(a: int, b: int, c: int, d: int, e: int, f: int): (r: int)
    requires Term(a) && Term(b) && Term(c) && Term(d) && Term(e) && Term(f)
    ensures r == a + b + c + d + e + f
  {
    Plus(Plus(Plus(Plus(Plus(a, b), c), d), e), f)
  }

  function Sum10(a: int, b: int, c: int, d: int, e: int, f: int, g: int, h: int, i: int, j: int): (r: int)
    requires Term(a) && Term(b) && Term(c) && Term(d) && Term(e) && Term(f) && Term(g) && Term(h) && Term(i) && Term(j)
    ensures r == a + b + c + d + e + f + g + h + i + j
  {
    Plus(Plus(Plus(Plus(Plus(Plus(Plus(Plus(Plus(a, b), c), d), e), f), g), h), i), j)
  }

  /** The factors the products multiply by beforehand fit thirty-two bits. */
  lemma FactorsFit(f: Fe)
    requires Loose(f)
    ensures forall i :: 0 <= i < 10 ==>
      Within(f[i], 0x699_9999) && Within(2 * f[i], 0xd33_3332) && Within(19 * f[i], 0x7d66_665b)
    ensures forall i :: 0 <= i < 10 && i % 2 == 1 ==> Within(38 * f[i], 0x7d66_665b)
  {
  }

  /** fe_mul: the ten columns of f * g. */
  function MulColumns(f: Fe, g: Fe): Fe
    requires Loose(f) && Loose(g)
  {
    FactorsFit(f);
    FactorsFit(g);
    var g1_19, g2_19, g3_19, g4_19, g5_19, g6_19, g7_19, g8_19, g9_19 :=
      19 * g[1], 19 * g[2], 19 * g[3], 19 * g[4], 19 * g[5], 19 * g[6], 19 * g[7], 19 * g[8], 19 * g[9];
    var f1_2, f3_2, f5_2, f7_2, f9_2 := 2 * f[1], 2 * f[3], 2 * f[5], 2 * f[7], 2 * f[9];
    [
      Sum10(Product(f[0], g[0]), Product(f1_2, g9_19), Product(f[2], g8_19), Product(f3_2, g7_19),
            Product(f[4], g6_19), Product(f5_2, g5_19), Product(f[6], g4_19), Product(f7_2, g3_19),
            Product(f[8], g2_19), Product(f9_2, g1_19)),
      Sum10(Product(f[0], g[1]), Product(f[1], g[0]), Product(f[2], g9_19), Product(f[3], g8_19),
            Product(f[4], g7_19), Product(f[5], g6_19), Product(f[6], g5_19), Product(f[7], g4_19),
            Product(f[8], g3_19), Product(f[9], g2_19)),
      Sum10(Product(f[0], g[2]), Product(f1_2, g[1]), Product(f[2], g[0]), Product(f3_2, g9_19),
            Product(f[4], g8_19), Product(f5_2, g7_19), Product(f[6], g6_19), Product(f7_2, g5_19),
            Product(f[8], g4_19), Product(f9_2, g3_19)),
      Sum10(Product(f[0], g[3]), Product(f[1], g[2]), Product(f[2], g[1]), Product(f[3], g[0]), Product(f[4], g9_19),
            Product(f[5], g8_19), Product(f[6], g7_19), Product(f[7], g6_19), Product(f[8], g5_19),
            Product(f[9], g4_19)),
      Sum10(Product(f[0], g[4]), Product(f1_2, g[3]), Product(f[2], g[2]), Product(f3_2, g[1]), Product(f[4], g[0]),
            Product(f5_2, g9_19), Product(f[6], g8_19), Product(f7_2, g7_19), Product(f[8], g6_19),
            Product(f9_2, g5_19)),
      Sum10(Product(f[0], g[5]), Product(f[1], g[4]), Product(f[2], g[3]), Product(f[3], g[2]), Product(f[4], g[1]),
            Product(f[5], g[0]), Product(f[6], g9_19), Product(f[7], g8_19), Product(f[8], g7_19),
            Product(f[9], g6_19)),
      Sum10(Product(f[0], g[6]), Product(f1_2, g[5]), Product(f[2], g[4]), Product(f3_2, g[3]), Product(f[4], g[2]),
            Product(f5_2, g[1]), Product(f[6], g[0]), Product(f7_2, g9_19), Product(f[8], g8_19),
            Product(f9_2, g7_19)),
      Sum10(Product(f[0], g[7]), Product(f[1], g[6]), Product(f[2], g[5]), Product(f[3], g[4]), Product(f[4], g[3]),
            Product(f[5], g[2]), Product(f[6], g[1]), Product(f[7], g[0]), Product(f[8], g9_19), Product(f[9], g8_19)),
      Sum10(Product(f[0], g[8]), Product(f1_2, g[7]), Product(f[2], g[6]), Product(f3_2, g[5]), Product(f[4], g[4]),
            Product(f5_2, g[3]), Product(f[6], g[2]), Product(f7_2, g[1]), Product(f[8], g[0]), Product(f9_2, g9_19)),
      Sum10(Product(f[0], g[9]), Product(f[1], g[8]), Product(f[2], g[7]), Product(f[3], g[6]), Product(f[4], g[5]),
            Product(f[5], g[4]), Product(f[6], g[3]), Product(f[7], g[2]), Product(f[8], g[1]), Product(f[9], g[0]))
    ]
  }

  /** One product of a column. */
  lemma MulTerm(x: int, y: int, a: int, b: int)
    requires Within(a * x, 0xd33_3332) && Within(b * y, 0x7d66_665b)
    ensures Product(a * x, b * y) == Mul(x, a * b * y)
  {
    assert a * x * (b * y) == x * (a * b * y);
  }

  /** A product taken once for two places of a column. */
  lemma SquareTerm(x: int, y: int, a: int, b: int, c: int, d: int)
    requires Within(a * x, 0xd33_3332) && Within(b * y, 0x7d66_665b) && a * b == c + d
    ensures Product(a * x, b * y) == Mul(x, c * y) + Mul(y, d * x)
  {
    assert a * x * (b * y) == a * b * (x * y);
    assert (c + d) * (x * y) == x * (c * y) + y * (d * x);
  }

  lemma ColumnStep(f: Fe, g: Fe, k: nat, i: nat)
    requires k < 10 && i < 10
    ensures Column(f, g, k, i + 1) == Column(f, g, k, i) + Mul(f[i], Entry(g, i, k))
  {
  }

  lemma WholeColumn(f: Fe, g: Fe, k: nat)
    requires k < 10
    ensures Column(f, g, k, 10) == Mul(f[0], Entry(g, 0, k)) + Mul(f[1], Entry(g, 1, k)) + Mul(f[2], Entry(g, 2, k))
      + Mul(f[3], Entry(g, 3, k)) + Mul(f[4], Entry(g, 4, k)) + Mul(f[5], Entry(g, 5, k)) + Mul(f[6], Entry(g, 6, k))
      + Mul(f[7], Entry(g, 7, k)) + Mul(f[8], Entry(g, 8, k)) + Mul(f[9], Entry(g, 9, k))
  {
    hide Column, Entry, Mul;
    assert Column(f, g, k, 0) == 0 by { EmptyColumn(f, g, k); }
    ColumnStep(f, g, k, 0);
    ColumnStep(f, g, k, 1);
    ColumnStep(f, g, k, 2);
    ColumnStep(f, g, k, 3);
    ColumnStep(f, g, k, 4);
    ColumnStep(f, g, k, 5);
    ColumnStep(f, g, k, 6);
    ColumnStep(f, g, k, 7);
    ColumnStep(f, g, k, 8);
    ColumnStep(f, g, k, 9);
  }

  lemma EmptyColumn(f: Fe, g: Fe, k: nat)
    requires k < 10
    ensures Column(f, g, k, 0) == 0
  {
  }

  lemma MulColumn0(f: Fe, g: Fe)
    requires Loose(f) && Loose(g)
    ensures MulColumns(f, g)[0] == Column(f, g, 0, 10)
  {
    hide Column, Loose, Product, Mul;
    FactorsFit(f);
    FactorsFit(g);
    WholeColumn(f, g, 0);
    MulTerm(f[0], g[0], 1, 1);
    MulTerm(f[1], g[9], 2, 19);
    MulTerm(f[2], g[8], 1, 19);
    MulTerm(f[3], g[7], 2, 19);
    MulTerm(f[4], g[6], 1, 19);
    MulTerm(f[5], g[5], 2, 19);
    MulTerm(f[6], g[4], 1, 19);
    MulTerm(f[7], g[3], 2, 19);
    MulTerm(f[8], g[2], 1, 19);
    MulTerm(f[9], g[1], 2, 19);
  }

  lemma MulColumn1(f: Fe, g: Fe)
    requires Loose(f) && Loose(g)
    ensures MulColumns(f, g)[1] == Column(f, g, 1, 10)
  {
    hide Column, Loose, Product, Mul;
    FactorsFit(f);
    FactorsFit(g);
    WholeColumn(f, g, 1);
    MulTerm(f[0], g[1], 1, 1);
    MulTerm(f[1], g[0], 1, 1);
    MulTerm(f[2], g[9], 1, 19);
    MulTerm(f[3], g[8], 1, 19);
    MulTerm(f[4], g[7], 1, 19);
    MulTerm(f[5], g[6], 1, 19);
    MulTerm(f[6], g[5], 1, 19);
    MulTerm(f[7], g[4], 1, 19);
    MulTerm(f[8], g[3], 1, 19);
    MulTerm(f[9], g[2], 1, 19);
  }

  lemma MulColumn2(f: Fe, g: Fe)
    requires Loose(f) && Loose(g)
    ensures MulColumns(f, g)[2] == Column(f, g, 2, 10)
  {
    hide Column, Loose, Product, Mul;
    FactorsFit(f);
    FactorsFit(g);
    WholeColumn(f, g, 2);
    MulTerm(f[0], g[2], 1, 1);
    MulTerm(f[1], g[1], 2, 1);
    MulTerm(f[2], g[0], 1, 1);
    MulTerm(f[3], g[9], 2, 19);
    MulTerm(f[4], g[8], 1, 19);
    MulTerm(f[5], g[7], 2, 19);
    MulTerm(f[6], g[6], 1, 19);
    MulTerm(f[7], g[5], 2, 19);
    MulTerm(f[8], g[4], 1, 19);
    MulTerm(f[9], g[3], 2, 19);
  }

  lemma MulColumn3(f: Fe, g: Fe)
    requires Loose(f) && Loose(g)
    ensures MulColumns(f, g)[3] == Column(f, g, 3, 10)
  {
    hide Column, Loose, Product, Mul;
    FactorsFit(f);
    FactorsFit(g);
    WholeColumn(f, g, 3);
    MulTerm(f[0], g[3], 1, 1);
    MulTerm(f[1], g[2], 1, 1);
    MulTerm(f[2], g[1], 1, 1);
    MulTerm(f[3], g[0], 1, 1);
    MulTerm(f[4], g[9], 1, 19);
    MulTerm(f[5], g[8], 1, 19);
    MulTerm(f[6], g[7], 1, 19);
    MulTerm(f[7], g[6], 1, 19);
    MulTerm(f[8], g[5], 1, 19);
    MulTerm(f[9], g[4], 1, 19);
  }

  lemma MulColumn4(f: Fe, g: Fe)
    requires Loose(f) && Loose(g)
    ensures MulColumns(f, g)[4] == Column(f, g, 4, 10)
  {
    hide Column, Loose, Product, Mul;
    FactorsFit(f);
    FactorsFit(g);
    WholeColumn(f, g, 4);
    MulTerm(f[0], g[4], 1, 1);
    MulTerm(f[1], g[3], 2, 1);
    MulTerm(f[2], g[2], 1, 1);
    MulTerm(f[3], g[1], 2, 1);
    MulTerm(f[4], g[0], 1, 1);
    MulTerm(f[5], g[9], 2, 19);
    MulTerm(f[6], g[8], 1, 19);
    MulTerm(f[7], g[7], 2, 19);
    MulTerm(f[8], g[6], 1, 19);
    MulTerm(f[9], g[5], 2, 19);
  }

  lemma MulColumn5(f: Fe, g: Fe)
    requires Loose(f) && Loose(g)
    ensures MulColumns(f, g)[5] == Column(f, g, 5, 10)
  {
    hide Column, Loose, Product, Mul;
    FactorsFit(f);
    FactorsFit(g);
    WholeColumn(f, g, 5);
    MulTerm(f[0], g[5], 1, 1);
    MulTerm(f[1], g[4], 1, 1);
    MulTerm(f[2], g[3], 1, 1);
    MulTerm(f[3], g[2], 1, 1);
    MulTerm(f[4], g[1], 1, 1);
    MulTerm(f[5], g[0], 1, 1);
    MulTerm(f[6], g[9], 1, 19);
    MulTerm(f[7], g[8], 1, 19);
    MulTerm(f[8], g[7], 1, 19);
    MulTerm(f[9], g[6], 1, 19);
  }

  lemma MulColumn6(f: Fe, g: Fe)
    requires Loose(f) && Loose(g)
    ensures MulColumns(f, g)[6] == Column(f, g, 6, 10)
  {
    hide Column, Loose, Product, Mul;
    FactorsFit(f);
    FactorsFit(g);
    WholeColumn(f, g, 6);
    MulTerm(f[0], g[6], 1, 1);
    MulTerm(f[1], g[5], 2, 1);
    MulTerm(f[2], g[4], 1, 1);
    MulTerm(f[3], g[3], 2, 1);
    MulTerm(f[4], g[2], 1, 1);
    MulTerm(f[5], g[1], 2, 1);
    MulTerm(f[6], g[0], 1, 1);
    MulTerm(f[7], g[9], 2, 19);
    MulTerm(f[8], g[8], 1, 19);
    MulTerm(f[9], g[7], 2, 19);
  }

  lemma MulColumn7(f: Fe, g: Fe)
    requires Loose(f) && Loose(g)
    ensures MulColumns(f, g)[7] == Column(f, g, 7, 10)
  {
    hide Column, Loose, Product, Mul;
    FactorsFit(f);
    FactorsFit(g);
    WholeColumn(f, g, 7);
    MulTerm(f[0], g[7], 1, 1);
    MulTerm(f[1], g[6], 1, 1);
    MulTerm(f[2], g[5], 1, 1);
    MulTerm(f[3], g[4], 1, 1);
    MulTerm(f[4], g[3], 1, 1);
    MulTerm(f[5], g[2], 1, 1);
    MulTerm(f[6], g[1], 1, 1);
    MulTerm(f[7], g[0], 1, 1);
    MulTerm(f[8], g[9], 1, 19);
    MulTerm(f[9], g[8], 1, 19);
  }

  lemma MulColumn8(f: Fe, g: Fe)
    requires Loose(f) && Loose(g)
    ensures MulColumns(f, g)[8] == Column(f, g, 8, 10)
  {
    hide Column, Loose, Product, Mul;
    FactorsFit(f);
    FactorsFit(g);
    WholeColumn(f, g, 8);
    MulTerm(f[0], g[8], 1, 1);
    MulTerm(f[1], g[7], 2, 1);
    MulTerm(f[2], g[6], 1, 1);
    MulTerm(f[3], g[5], 2, 1);
    MulTerm(f[4], g[4], 1, 1);
    MulTerm(f[5], g[3], 2, 1);
    MulTerm(f[6], g[2], 1, 1);
    MulTerm(f[7], g[1], 2, 1);
    MulTerm(f[8], g[0], 1, 1);
    MulTerm(f[9], g[9], 2, 19);
  }

  lemma MulColumn9(f: Fe, g: Fe)
    requires Loose(f) && Loose(g)
    ensures MulColumns(f, g)[9] == Column(f, g, 9, 10)
  {
    hide Column, Loose, Product, Mul;
    FactorsFit(f);
    FactorsFit(g);
    WholeColumn(f, g, 9);
    MulTerm(f[0], g[9], 1, 1);
    MulTerm(f[1], g[8], 1, 1);
    MulTerm(f[2], g[7], 1, 1);
    MulTerm(f[3], g[6], 1, 1);
    MulTerm(f[4], g[5], 1, 1);
    MulTerm(f[5], g[4], 1, 1);
    MulTerm(f[6], g[3], 1, 1);
    MulTerm(f[7], g[2], 1, 1);
    MulTerm(f[8], g[1], 1, 1);
    MulTerm(f[9], g[0], 1, 1);
  }

  lemma AllColumns(f: Fe, g: Fe)
    requires Loose(f) && Loose(g)
    ensures MulColumns(f, g) == Columns(f, g, 10)
  {
    hide Column, Loose, MulColumns;
    MulColumn0(f, g);
    MulColumn1(f, g);
    MulColumn2(f, g);
    MulColumn3(f, g);
    MulColumn4(f, g);
    MulColumn5(f, g);
    MulColumn6(f, g);
    MulColumn7(f, g);
    MulColumn8(f, g);
    MulColumn9(f, g);
  }

  lemma ColumnsWithin(f: Fe, g: Fe)
    requires Loose(f) && Loose(g)
    ensures forall k :: 0 <= k < 10 ==> Within(Columns(f, g, 10)[k], 0x2054_6660_8599_99de)
  {
    hide Column, Loose;
    forall k | 0 <= k < 10
      ensures Within(Columns(f, g, 10)[k], 0x2054_6660_8599_99de)
    {
      ColumnWithin(f, g, k, 10);
    }
  }

  /** fe_mul: h is f * g modulo the prime, with small limbs. */
  method FeMul(f: Fe, g: Fe) returns (h: Fe)
    requires Loose(f) && Loose(g)
    ensures Tight(h) && Residue(h) == Value(f, 0) * Value(g, 0) % PRIME
  {
    hide Loose, Tight, Residue, Value, MulColumns, Columns;
    AllColumns(f, g);
    ColumnsWithin(f, g);
    ProductResidue(f, g);
    h := CarryProduct(MulColumns(f, g));
  }

  /** fe_sq: the ten columns of f * f, each product of two different limbs taken once. */
  function SquareColumns(f: Fe): Fe
    requires Loose(f)
  {
    FactorsFit(f);
    var f0_2, f1_2, f2_2, f3_2, f4_2, f5_2, f6_2, f7_2 :=
      2 * f[0], 2 * f[1], 2 * f[2], 2 * f[3], 2 * f[4], 2 * f[5], 2 * f[6], 2 * f[7];
    var f5_38, f6_19, f7_38, f8_19, f9_38 := 38 * f[5], 19 * f[6], 38 * f[7], 19 * f[8], 38 * f[9];
    [
      Sum6(Product(f[0], f[0]), Product(f1_2, f9_38), Product(f2_2, f8_19), Product(f3_2, f7_38),
            Product(f4_2, f6_19), Product(f[5], f5_38)),
      Sum5(Product(f0_2, f[1]), Product(f[2], f9_38), Product(f3_2, f8_19), Product(f[4], f7_38),
            Product(f5_2, f6_19)),
      Sum6(Product(f0_2, f[2]), Product(f1_2, f[1]), Product(f3_2, f9_38), Product(f4_2, f8_19),
            Product(f5_2, f7_38), Product(f[6], f6_19)),
      Sum5(Product(f0_2, f[3]), Product(f1_2, f[2]), Product(f[4], f9_38), Product(f5_2, f8_19), Product(f[6], f7_38)),
      Sum6(Product(f0_2, f[4]), Product(f1_2, f3_2), Product(f[2], f[2]), Product(f5_2, f9_38), Product(f6_2, f8_19),
            Product(f[7], f7_38)),
      Sum5(Product(f0_2, f[5]), Product(f1_2, f[4]), Product(f2_2, f[3]), Product(f[6], f9_38), Product(f7_2, f8_19)),
      Sum6(Product(f0_2, f[6]), Product(f1_2, f5_2), Product(f2_2, f[4]), Product(f3_2, f[3]), Product(f7_2, f9_38),
            Product(f[8], f8_19)),
      Sum5(Product(f0_2, f[7]), Product(f1_2, f[6]), Product(f2_2, f[5]), Product(f3_2, f[4]), Product(f[8], f9_38)),
      Sum6(Product(f0_2, f[8]), Product(f1_2, f7_2), Product(f2_2, f[6]), Product(f3_2, f5_2), Product(f[4], f[4]),
            Product(f[9], f9_38)),
      Sum5(Product(f0_2, f[9]), Product(f1_2, f[8]), Product(f2_2, f[7]), Product(f3_2, f[6]), Product(f4_2, f[5]))
    ]
  }

  lemma SquareColumn0(f: Fe)
    requires Loose(f)
    ensures SquareColumns(f)[0] == Column(f, f, 0, 10)
  {
    hide Column, Loose, Product, Mul;
    FactorsFit(f);
    WholeColumn(f, f, 0);
    MulTerm(f[0], f[0], 1, 1);
    SquareTerm(f[1], f[9], 2, 38, 38, 38);
    SquareTerm(f[2], f[8], 2, 19, 19, 19);
    SquareTerm(f[3], f[7], 2, 38, 38, 38);
    SquareTerm(f[4], f[6], 2, 19, 19, 19);
    MulTerm(f[5], f[5], 1, 38);
  }

  lemma SquareColumn1(f: Fe)
    requires Loose(f)
    ensures SquareColumns(f)[1] == Column(f, f, 1, 10)
  {
    hide Column, Loose, Product, Mul;
    FactorsFit(f);
    WholeColumn(f, f, 1);
    SquareTerm(f[0], f[1], 2, 1, 1, 1);
    SquareTerm(f[2], f[9], 1, 38, 19, 19);
    SquareTerm(f[3], f[8], 2, 19, 19, 19);
    SquareTerm(f[4], f[7], 1, 38, 19, 19);
    SquareTerm(f[5], f[6], 2, 19, 19, 19);
  }

  lemma SquareColumn2(f: Fe)
    requires Loose(f)
    ensures SquareColumns(f)[2] == Column(f, f, 2, 10)
  {
    hide Column, Loose, Product, Mul;
    FactorsFit(f);
    WholeColumn(f, f, 2);
    SquareTerm(f[0], f[2], 2, 1, 1, 1);
    MulTerm(f[1], f[1], 2, 1);
    SquareTerm(f[3], f[9], 2, 38, 38, 38);
    SquareTerm(f[4], f[8], 2, 19, 19, 19);
    SquareTerm(f[5], f[7], 2, 38, 38, 38);
    MulTerm(f[6], f[6], 1, 19);
  }

  lemma SquareColumn3(f: Fe)
    requires Loose(f)
    ensures SquareColumns(f)[3] == Column(f, f, 3, 10)
  {
    hide Column, Loose, Product, Mul;
    FactorsFit(f);
    WholeColumn(f, f, 3);
    SquareTerm(f[0], f[3], 2, 1, 1, 1);
    SquareTerm(f[1], f[2], 2, 1, 1, 1);
    SquareTerm(f[4], f[9], 1, 38, 19, 19);
    SquareTerm(f[5], f[8], 2, 19, 19, 19);
    SquareTerm(f[6], f[7], 1, 38, 19, 19);
  }

  lemma SquareColumn4(f: Fe)
    requires Loose(f)
    ensures SquareColumns(f)[4] == Column(f, f, 4, 10)
  {
    hide Column, Loose, Product, Mul;
    FactorsFit(f);
    WholeColumn(f, f, 4);
    SquareTerm(f[0], f[4], 2, 1, 1, 1);
    SquareTerm(f[1], f[3], 2, 2, 2, 2);
    MulTerm(f[2], f[2], 1, 1);
    SquareTerm(f[5], f[9], 2, 38, 38, 38);
    SquareTerm(f[6], f[8], 2, 19, 19, 19);
    MulTerm(f[7], f[7], 1, 38);
  }

  lemma SquareColumn5(f: Fe)
    requires Loose(f)
    ensures SquareColumns(f)[5] == Column(f, f, 5, 10)
  {
    hide Column, Loose, Product, Mul;
    FactorsFit(f);
    WholeColumn(f, f, 5);
    SquareTerm(f[0], f[5], 2, 1, 1, 1);
    SquareTerm(f[1], f[4], 2, 1, 1, 1);
    SquareTerm(f[2], f[3], 2, 1, 1, 1);
    SquareTerm(f[6], f[9], 1, 38, 19, 19);
    SquareTerm(f[7], f[8], 2, 19, 19, 19);
  }

  lemma SquareColumn6(f: Fe)
    requires Loose(f)
    ensures SquareColumns(f)[6] == Column(f, f, 6, 10)
  {
    hide Column, Loose, Product, Mul;
    FactorsFit(f);
    WholeColumn(f, f, 6);
    SquareTerm(f[0], f[6], 2, 1, 1, 1);
    SquareTerm(f[1], f[5], 2, 2, 2, 2);
    SquareTerm(f[2], f[4], 2, 1, 1, 1);
    MulTerm(f[3], f[3], 2, 1);
    SquareTerm(f[7], f[9], 2, 38, 38, 38);
    MulTerm(f[8], f[8], 1, 19);
  }

  lemma SquareColumn7(f: Fe)
    requires Loose(f)
    ensures SquareColumns(f)[7] == Column(f, f, 7, 10)
  {
    hide Column, Loose, Product, Mul;
    FactorsFit(f);
    WholeColumn(f, f, 7);
    SquareTerm(f[0], f[7], 2, 1, 1, 1);
    SquareTerm(f[1], f[6], 2, 1, 1, 1);
    SquareTerm(f[2], f[5], 2, 1, 1, 1);
    SquareTerm(f[3], f[4], 2, 1, 1, 1);
    SquareTerm(f[8], f[9], 1, 38, 19, 19);
  }

  lemma SquareColumn8(f: Fe)
    requires Loose(f)
    ensures SquareColumns(f)[8] == Column(f, f, 8, 10)
  {
    hide Column, Loose, Product, Mul;
    FactorsFit(f);
    WholeColumn(f, f, 8);
    SquareTerm(f[0], f[8], 2, 1, 1, 1);
    SquareTerm(f[1], f[7], 2, 2, 2, 2);
    SquareTerm(f[2], f[6], 2, 1, 1, 1);
    SquareTerm(f[3], f[5], 2, 2, 2, 2);
    MulTerm(f[4], f[4], 1, 1);
    MulTerm(f[9], f[9], 1, 38);
  }

  lemma SquareColumn9(f: Fe)
    requires Loose(f)
    ensures SquareColumns(f)[9] == Column(f, f, 9, 10)
  {
    hide Column, Loose, Product, Mul;
    FactorsFit(f);
    WholeColumn(f, f, 9);
    SquareTerm(f[0], f[9], 2, 1, 1, 1);
    SquareTerm(f[1], f[8], 2, 1, 1, 1);
    SquareTerm(f[2], f[7], 2, 1, 1, 1);
    SquareTerm(f[3], f[6], 2, 1, 1, 1);
    SquareTerm(f[4], f[5], 2, 1, 1, 1);
  }

  lemma AllSquares(f: Fe)
    requires Loose(f)
    ensures SquareColumns(f) == Columns(f, f, 10)
  {
    hide Column, Loose, SquareColumns;
    SquareColumn0(f);
    SquareColumn1(f);
    SquareColumn2(f);
    SquareColumn3(f);
    SquareColumn4(f);
    SquareColumn5(f);
    SquareColumn6(f);
    SquareColumn7(f);
    SquareColumn8(f);
    SquareColumn9(f);
  }

  /** fe_sq: h is f * f modulo the prime. */
  method FeSq(f: Fe) returns (h: Fe)
    requires Loose(f)
    ensures Tight(h) && Residue(h) == Value(f, 0) * Value(f, 0) % PRIME
  {
    hide Loose, Tight, Residue, Value, SquareColumns, Columns;
    AllSquares(f);
    ColumnsWithin(f, f);
    ProductResidue(f, f);
    h := CarryProduct(SquareColumns(f));
  }

  lemma {:induction false} ValueTwice(s: seq<int>, t: seq<int>, i: nat)
    requires |s| == |t| && forall k :: 0 <= k < |s| ==> t[k] == s[k] + s[k]
    ensures Value(t, i) == 2 * Value(s, i)
    decreases |s| - i
  {
    if i < |s| { ValueTwice(s, t, i + 1); }
  }

  lemma TwiceResidue(x: int, y: int)
    requires x % PRIME == y % PRIME
    ensures 2 * x % PRIME == 2 * y % PRIME
  {
    SameResidue(2 * y, 2 * (y / PRIME) - 2 * (x / PRIME));
  }

  /** fe_sq2: h is 2 * f * f modulo the prime. */
  method FeSq2(f: Fe) returns (h: Fe)
    requires Loose(f)
    ensures Tight(h) && Residue(h) == 2 * (Value(f, 0) * Value(f, 0)) % PRIME
  {
    hide Loose, Tight, Value, SquareColumns, Columns;
    AllSquares(f);
    ColumnsWithin(f, f);
    ProductResidue(f, f);
    var s := SquareColumns(f);
    var t := [Plus(s[0], s[0]), Plus(s[1], s[1]), Plus(s[2], s[2]), Plus(s[3], s[3]), Plus(s[4], s[4]),
              Plus(s[5], s[5]), Plus(s[6], s[6]), Plus(s[7], s[7]), Plus(s[8], s[8]), Plus(s[9], s[9])];
    ValueTwice(s, t, 0);
    TwiceResidue(Value(s, 0), Value(f, 0) * Value(f, 0));
    h := CarryProduct(t);
  }
}
