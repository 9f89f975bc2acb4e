/** The two scalar multiplications of Externals/ed25519/ge.c over any commutative group. The
    conversions between coordinate systems are the identity on points. */
module ScalarMult {
  import opened PointGroup
  import opened ScalarRecoding

  // ---- a * A + b * B ----

  /** The table of odd multiples x, 3x, ..., 15x. */
  ghost predicate OddMultiples<P(!new)>(g: Group<P>, t: seq<P>, x: P) {
    |t| == 8 && forall j :: 0 <= j < 8 ==> t[j] == g.Times(2 * j + 1, x)
  }

  lemma NextOdd<P(!new)>(g: Group<P>, j: nat, x: P)
    requires g.Laws()
    ensures g.add(g.add(x, x), g.Times(2 * j + 1, x)) == g.Times(2 * j + 3, x)
  {
    hide g.Laws;
    TimesOne(g, x);
    TimesAdd(g, 1, 1, x);
    TimesAdd(g, 2, 2 * j + 1, x);
  }

  /** Adding or subtracting an entry of the table adds digit * x. */
  lemma TableEntry<P(!new)>(g: Group<P>, t: seq<P>, x: P, digit: int)
    requires g.Laws() && OddMultiples(g, t, x) && IsSlideDigit(digit)
    ensures digit > 0 ==> 0 <= digit / 2 < 8 && t[digit / 2] == g.Times(digit, x)
    ensures digit < 0 ==> 0 <= -digit / 2 < 8 && g.neg(t[-digit / 2]) == g.Times(digit, x)
  {
    if digit > 0 {
      assert 2 * (digit / 2) + 1 == digit;
    } else if digit < 0 {
      assert 2 * (-digit / 2) + 1 == -digit;
      TimesNeg(g, -digit, x);
    }
  }

  /** r plus digit * x, from the table of x. */
  method AddDigit<P(!new)>(g: Group<P>, r: P, t: seq<P>, ghost x: P, digit: int) returns (r': P)
    requires g.Laws() && OddMultiples(g, t, x) && IsSlideDigit(digit)
    ensures r' == g.add(r, g.Times(digit, x))
  {
    hide g.Laws, OddMultiples;
    TableEntry(g, t, x, digit);
    TableLength(g, t, x);
    r' := r;
    if digit > 0 {
      r' := g.add(r, t[digit / 2]);
    } else if digit < 0 {
      r' := g.add(r, g.neg(t[-digit / 2]));
    } else {
      Unit(g, r);
    }
  }

  lemma TableLength<P(!new)>(g: Group<P>, t: seq<P>, x: P)
    requires OddMultiples(g, t, x)
    ensures |t| == 8
  {
  }

  /** r is the sum of the multiples given by the digits from i on. */
  ghost predicate Summed<P(!new)>(g: Group<P>, r: P, a: seq<int>, A: P, b: seq<int>, B: P, i: nat) {
    r == Combo(g, Binary(a, i), A, Binary(b, i), B)
  }

  lemma SumNext<P(!new)>(g: Group<P>, r: P, a: seq<int>, A: P, b: seq<int>, B: P, i: nat)
    requires g.Laws() && |a| == |b| && i < |a| && Summed(g, r, a, A, b, B, i + 1)
    ensures Summed(g, g.add(g.add(g.add(r, r), g.Times(a[i], A)), g.Times(b[i], B)), a, A, b, B, i)
  {
    hide g.Laws;
    var u, v := Binary(a, i + 1), Binary(b, i + 1);
    ComboDouble(g, u, A, v, B);
    ComboFirst(g, 2 * u, A, 2 * v, B, a[i]);
    ComboSecond(g, 2 * u + a[i], A, 2 * v, B, b[i]);
  }

  lemma SumNone<P(!new)>(g: Group<P>, a: seq<int>, A: P, b: seq<int>, B: P, i: nat)
    requires g.Laws() && |a| == |b| && i <= |a| && forall j :: i <= j < |a| ==> a[j] == 0 && b[j] == 0
    ensures Summed(g, g.zero, a, A, b, B, i)
  {
    hide g.Laws;
    BinaryZeros(a, i, |a|);
    BinaryZeros(b, i, |b|);
    Unit(g, g.zero);
  }

  /** ge_double_scalarmult_vartime: a * A + b * B. */
  method DoubleScalarMult<P(!new)>(g: Group<P>, a: seq<Byte>, A: P, b: seq<Byte>, Bi: seq<P>, ghost B: P) returns (r: P)
    requires g.Laws() && OddMultiples(g, Bi, B)
    requires |a| == 32 && |b| == 32 && Bytes(a, 0) <= Pow2(255) && Bytes(b, 0) <= Pow2(255)
    ensures r == g.add(g.Times(Bytes(a, 0), A), g.Times(Bytes(b, 0), B))
  {
    hide g.Laws, OddMultiples, Binary, Bytes, Summed, Pow2, Group.Times;
    var aslide, bslide := new int[256], new int[256];
    Slide(aslide, a);
    ghost var da := aslide[..];
    Slide(bslide, b);
    ghost var db := bslide[..];
    var Ai := Multiples(g, A);
    r := g.zero;
    var i := 255;
    while i >= 0
      invariant -1 <= i <= 255 && aslide[..] == da && bslide[..] == db
      invariant forall j :: i < j < 256 ==> da[j] == 0 && db[j] == 0
    {
      if aslide[i] != 0 || bslide[i] != 0 { break; }
      i := i - 1;
    }
    SumNone(g, da, A, db, B, i + 1);
    while i >= 0
      invariant -1 <= i <= 255 && aslide[..] == da && bslide[..] == db
      invariant Summed(g, r, da, A, db, B, i + 1)
    {
      SumNext(g, r, da, A, db, B, i);
      r := g.add(r, r);
      r := AddDigit(g, r, Ai, A, aslide[i]);
      r := AddDigit(g, r, Bi, B, bslide[i]);
      i := i - 1;
    }
    SumDone(g, r, da, A, db, B);
  }

  lemma SumDone<P(!new)>(g: Group<P>, r: P, a: seq<int>, A: P, b: seq<int>, B: P)
    requires Summed(g, r, a, A, b, B, 0)
    ensures r == g.add(g.Times(Binary(a, 0), A), g.Times(Binary(b, 0), B))
  {
  }

  /** The table A, 3A, ..., 15A built at the start of ge_double_scalarmult_vartime. */
  method Multiples<P(!new)>(g: Group<P>, A: P) returns (Ai: seq<P>)
    requires g.Laws()
    ensures OddMultiples(g, Ai, A)
  {
    hide g.Laws, Group.Times;
    var A2 := g.add(A, A);
    TimesOne(g, A);
    Ai := [A];
    NextOdd(g, 0, A);
    Ai := Ai + [g.add(A2, Ai[0])];
    NextOdd(g, 1, A);
    Ai := Ai + [g.add(A2, Ai[1])];
    NextOdd(g, 2, A);
    Ai := Ai + [g.add(A2, Ai[2])];
    NextOdd(g, 3, A);
    Ai := Ai + [g.add(A2, Ai[3])];
    NextOdd(g, 4, A);
    Ai := Ai + [g.add(A2, Ai[4])];
    NextOdd(g, 5, A);
    Ai := Ai + [g.add(A2, Ai[5])];
    NextOdd(g, 6, A);
    Ai := Ai + [g.add(A2, Ai[6])];
  }

  // ---- a * B from the table of multiples of the base point ----

  function Pow256(n: nat): nat {
    if n == 0 then 1 else 256 * Pow256(n - 1)
  }

  /** base[i][j] is (j + 1) * 256^i * B. */
  ghost predicate BaseTable<P(!new)>(g: Group<P>, base: seq<seq<P>>, B: P) {
    && |base| == 32 && (forall i :: 0 <= i < 32 ==> |base[i]| == 8)
    && forall i, j :: 0 <= i < 32 && 0 <= j < 8 ==> base[i][j] == g.Times((j + 1) * Pow256(i), B)
  }

  /** equal: the two bytes differ in no bit. */
  function Equal(ub: bv8, uc: bv8): bv8 {
    var x := ub ^ uc;
    var y := (x as bv64) - 1;
    (y >> 63) as bv8
  }

  lemma EqualIs(ub: bv8, uc: bv8)
    ensures Equal(ub, uc) == if ub == uc then 1 else 0
  {
  }

  /** negative: the sign bit of a signed byte widened to sixty-four bits. */
  function Negative(b: bv8): bv8 {
    var x := if b < 0x80 then b as bv64 else 0xffff_ffff_ffff_ff00 | (b as bv64);
    (x >> 63) as bv8
  }

  lemma NegativeIs(b: bv8)
    ensures Negative(b) == if b >= 0x80 then 1 else 0
  {
  }

  /** A signed byte as the machine holds it. */
  function Signed(b: int): bv8
    requires -8 <= b <= 8
  {
    if b >= 0 then b as bv8 else (256 + b) as bv8
  }

  /** The absolute value, without a branch. */
  function Absolute(b: bv8): bv8 {
    b - (((0 - Negative(b)) & b) << 1)
  }

  lemma AbsoluteIs(b: int)
    requires -8 <= b <= 8
    ensures Negative(Signed(b)) == if b < 0 then 1 else 0
    ensures Absolute(Signed(b)) == Signed(if b < 0 then -b else b)
  {
    NegativeIs(Signed(b));
  }

  function Cmov<P>(t: P, u: P, b: bv8): P {
    if b == 1 then u else t
  }

  lemma EqualsDigit(n: int, j: int)
    requires 0 <= n <= 8 && 1 <= j <= 8
    ensures Equal(Signed(n), Signed(j)) == if n == j then 1 else 0
  {
    EqualIs(Signed(n), Signed(j));
  }

  lemma RowEntry<P(!new)>(g: Group<P>, base: seq<seq<P>>, pos: nat, b: int, B: P)
    requires g.Laws() && BaseTable(g, base, B) && pos < 32 && -8 <= b <= 8
    ensures |base| == 32 && |base[pos]| == 8
    ensures b == 0 ==> g.zero == g.neg(g.zero) == g.Times(b * Pow256(pos), B)
    ensures b > 0 ==> base[pos][b - 1] == g.Times(b * Pow256(pos), B)
    ensures b < 0 ==> g.neg(base[pos][-b - 1]) == g.Times(b * Pow256(pos), B)
  {
    if b < 0 {
      assert b * Pow256(pos) == -(-b * Pow256(pos));
      TimesNeg(g, -b * Pow256(pos), B);
    } else if b == 0 {
      TimesNeg(g, 0, B);
    }
  }

  /** select: b * 256^pos * B for a digit b between -8 and 8. */
  method Select<P(!new)>(g: Group<P>, base: seq<seq<P>>, pos: nat, b: int, ghost B: P) returns (t: P)
    requires g.Laws() && BaseTable(g, base, B) && pos < 32 && -8 <= b <= 8
    ensures t == g.Times(b * Pow256(pos), B)
  {
    hide g.Laws, BaseTable, Group.Times, Absolute, Negative, Equal, Pow256;
    RowEntry(g, base, pos, b, B);
    AbsoluteIs(b);
    ghost var n := if b < 0 then -b else b;
    forall j | 1 <= j <= 8
      ensures Equal(Signed(n), Signed(j)) == if n == j then 1 else 0
    {
      EqualsDigit(n, j);
    }
    var bnegative := Negative(Signed(b));
    var babs := Absolute(Signed(b));
    t := g.zero;
    t := Cmov(t, base[pos][0], Equal(babs, Signed(1)));
    t := Cmov(t, base[pos][1], Equal(babs, Signed(2)));
    t := Cmov(t, base[pos][2], Equal(babs, Signed(3)));
    t := Cmov(t, base[pos][3], Equal(babs, Signed(4)));
    t := Cmov(t, base[pos][4], Equal(babs, Signed(5)));
    t := Cmov(t, base[pos][5], Equal(babs, Signed(6)));
    t := Cmov(t, base[pos][6], Equal(babs, Signed(7)));
    t := Cmov(t, base[pos][7], Equal(babs, Signed(8)));
    var minust := g.neg(t);
    t := Cmov(t, minust, bnegative);
  }

  /** The digits at even or odd places, as numbers in base 256. */
  function Evens(e: seq<int>, n: nat): int
    requires 2 * n <= |e|
  {
    if n == 0 then 0 else Evens(e, n - 1) + e[2 * n - 2] * Pow256(n - 1)
  }

  function Odds(e: seq<int>, n: nat): int
    requires 2 * n <= |e|
  {
    if n == 0 then 0 else Odds(e, n - 1) + e[2 * n - 1] * Pow256(n - 1)
  }

  lemma {:induction false} EvensAndOdds(e: seq<int>, n: nat)
    requires 2 * n <= |e|
    ensures Evens(e, n) + 16 * Odds(e, n) + Pow256(n) * Nibbles(e, 2 * n) == Nibbles(e, 0)
  {
    if n > 0 {
      EvensAndOdds(e, n - 1);
      Nibbles2(e, 2 * n - 2);
      Regroup(Pow256(n - 1), e[2 * n - 2], e[2 * n - 1], Nibbles(e, 2 * n));
    }
  }

  lemma Regroup(p: int, x: int, y: int, z: int)
    ensures p * (x + 16 * y + 256 * z) == x * p + 16 * (y * p) + 256 * p * z
  {
  }

  /** ge_scalarmult_base: a * B. */
  method ScalarMultBase<P(!new)>(g: Group<P>, base: seq<seq<P>>, a: seq<Byte>, ghost B: P) returns (h: P)
    requires g.Laws() && BaseTable(g, base, B) && |a| == 32 && a[31] <= 127
    ensures h == g.Times(Bytes(a, 0), B)
  {
    hide g.Laws, BaseTable, Group.Times, Pow256, Bytes, Nibbles, Evens, Odds;
    var e := Radix16(a);
    ghost var digits := e[..];
    h := g.zero;
    NoDigits(g, digits, B);
    var i := 1;
    while i < 64
      invariant 1 <= i <= 65 && i % 2 == 1 && e[..] == digits
      invariant h == g.Times(Odds(digits, i / 2), B)
    {
      var t := Select(g, base, i / 2, e[i], B);
      AddOdd(g, digits, i / 2, B);
      h := g.add(h, t);
      i := i + 2;
    }
    Sixteen(g, Odds(digits, 32), B);
    h := g.add(h, h);
    h := g.add(h, h);
    h := g.add(h, h);
    h := g.add(h, h);
    i := 0;
    while i < 64
      invariant 0 <= i <= 64 && i % 2 == 0 && e[..] == digits
      invariant h == g.Times(16 * Odds(digits, 32) + Evens(digits, i / 2), B)
    {
      var t := Select(g, base, i / 2, e[i], B);
      AddEven(g, digits, i / 2, B);
      h := g.add(h, t);
      i := i + 2;
    }
    AllDigits(digits);
  }

  lemma NoDigits<P(!new)>(g: Group<P>, digits: seq<int>, B: P)
    requires |digits| == 64
    ensures g.zero == g.Times(Odds(digits, 0), B) && Evens(digits, 0) == 0
  {
  }

  lemma AddOdd<P(!new)>(g: Group<P>, digits: seq<int>, n: nat, B: P)
    requires g.Laws() && 2 * n + 1 < |digits| == 64
    ensures g.add(g.Times(Odds(digits, n), B), g.Times(digits[2 * n + 1] * Pow256(n), B))
      == g.Times(Odds(digits, n + 1), B)
  {
    hide g.Laws, Group.Times, Pow256;
    TimesAdd(g, Odds(digits, n), digits[2 * n + 1] * Pow256(n), B);
  }

  lemma AddEven<P(!new)>(g: Group<P>, digits: seq<int>, n: nat, B: P)
    requires g.Laws() && 2 * n + 1 < |digits| == 64
    ensures g.add(g.Times(16 * Odds(digits, 32) + Evens(digits, n), B), g.Times(digits[2 * n] * Pow256(n), B))
      == g.Times(16 * Odds(digits, 32) + Evens(digits, n + 1), B)
  {
    hide g.Laws, Group.Times, Pow256, Odds;
    TimesAdd(g, 16 * Odds(digits, 32) + Evens(digits, n), digits[2 * n] * Pow256(n), B);
  }

  lemma AllDigits(digits: seq<int>)
    requires |digits| == 64
    ensures 16 * Odds(digits, 32) + Evens(digits, 32) == Nibbles(digits, 0)
  {
    hide Evens, Odds, Nibbles, Pow256;
    EvensAndOdds(digits, 32);
    NoNibbles(digits);
  }

  lemma NoNibbles(e: seq<int>)
    ensures Nibbles(e, |e|) == 0
  {
  }

  lemma Sixteen<P(!new)>(g: Group<P>, n: int, B: P)
    requires g.Laws()
    ensures var h := g.Times(n, B); var h2 := g.add(h, h); var h4 := g.add(h2, h2); var h8 := g.add(h4, h4);
      g.add(h8, h8) == g.Times(16 * n, B)
  {
    hide g.Laws;
    TimesAdd(g, n, n, B);
    TimesAdd(g, 2 * n, 2 * n, B);
    TimesAdd(g, 4 * n, 4 * n, B);
    TimesAdd(g, 8 * n, 8 * n, B);
  }
}
