/** The addition chains of Externals/ed25519/fe.c: the powers z^(2^255 - 21) and z^(2^252 - 3). */
module FieldPowers {
  import opened ScalarRecoding
  import opened FieldElement

  function Power(x: int, n: nat): int {
    if n == 0 then 1 else Power(x, n - 1) * x
  }

  lemma {:induction false} PowerAdd(x: int, m: nat, n: nat)
    ensures Power(x, m + n) == Power(x, m) * Power(x, n)
  {
    if n > 0 {
      PowerAdd(x, m, n - 1);
      assert Power(x, m) * Power(x, n - 1) * x == Power(x, m) * (Power(x, n - 1) * x);
    }
  }

  lemma ProductModulo(a: int, b: int, x: int, y: int)
    requires a % PRIME == x % PRIME && b % PRIME == y % PRIME
    ensures a * b % PRIME == x * y % PRIME
  {
    var m, n := a / PRIME - x / PRIME, b / PRIME - y / PRIME;
    assert a == x + PRIME * m && b == y + PRIME * n;
    Expanded(x, m, y, n);
    SameResidue(a * b, x * n + m * y + PRIME * m * n);
  }

  lemma Expanded(x: int, m: int, y: int, n: int)
    ensures (x + PRIME * m) * (y + PRIME * n) - PRIME * (x * n + m * y + PRIME * m * n) == x * y
  {
    assert (x + PRIME * m) * (y + PRIME * n) == x * y + x * (PRIME * n) + PRIME * m * y + PRIME * m * (PRIME * n);
    assert PRIME * m * (PRIME * n) == PRIME * (PRIME * m * n);
    assert x * (PRIME * n) == PRIME * (x * n);
    assert PRIME * m * y == PRIME * (m * y);
  }

  /** t holds z to the power e. */
  ghost predicate Holds(t: Fe, z: Fe, e: nat) {
    Loose(t) && Residue(t) == Power(Value(z, 0), e) % PRIME
  }

  lemma HoldsOne(z: Fe)
    requires Loose(z)
    ensures Holds(z, z, 1)
  {
    assert Power(Value(z, 0), 1) == Power(Value(z, 0), 0) * Value(z, 0);
  }

  lemma HoldsProduct(h: Fe, f: Fe, g: Fe, z: Fe, m: nat, n: nat)
    requires Holds(f, z, m) && Holds(g, z, n)
    requires Tight(h) && Residue(h) == Value(f, 0) * Value(g, 0) % PRIME
    ensures Holds(h, z, m + n)
  {
    hide Value, Power, Loose, Tight;
    TightIsLoose(h);
    ProductModulo(Value(f, 0), Value(g, 0), Power(Value(z, 0), m), Power(Value(z, 0), n));
    PowerAdd(Value(z, 0), m, n);
  }

  /** One product of a chain. */
  method Times(f: Fe, g: Fe, ghost z: Fe, ghost m: nat, ghost n: nat) returns (h: Fe)
    requires Holds(f, z, m) && Holds(g, z, n)
    ensures Holds(h, z, m + n)
  {
    hide Value, Power, Loose, Tight, Residue;
    h := FeMul(f, g);
    HoldsProduct(h, f, g, z, m, n);
  }

  /** A run of n squarings of a chain: one, and a loop for the others. */
  method Squares(f: Fe, n: nat, ghost z: Fe, ghost e: nat) returns (h: Fe)
    requires Holds(f, z, e) && n > 0
    ensures Holds(h, z, e * Pow2(n))
  {
    hide Value, Power, Loose, Tight, Residue, Holds;
    HoldsLoose(f, z, e);
    h := FeSq(f);
    HoldsProduct(h, f, f, z, e, e);
    assert e * Pow2(1) == e + e;
    var i := 1;
    while i < n
      invariant 1 <= i <= n && Holds(h, z, e * Pow2(i))
    {
      ghost var before := h;
      HoldsLoose(h, z, e * Pow2(i));
      h := FeSq(h);
      HoldsProduct(h, before, before, z, e * Pow2(i), e * Pow2(i));
      Twice(e, i);
      i := i + 1;
    }
  }

  lemma HoldsLoose(f: Fe, z: Fe, e: nat)
    requires Holds(f, z, e)
    ensures Loose(f)
  {
  }

  lemma Twice(e: nat, i: nat)
    ensures e * Pow2(i) + e * Pow2(i) == e * Pow2(i + 1)
  {
    assert e * (2 * Pow2(i)) == e * Pow2(i) + e * Pow2(i);
  }

  lemma Runs()
    ensures Pow2(1) == 2 && Pow2(2) == 4 && Pow2(5) == 32 && Pow2(10) == 1024 && Pow2(20) == 0x10_0000
    ensures Pow2(50) == 0x4_0000_0000_0000
    ensures Pow2(100) == 0x10_0000_0000_0000_0000_0000_0000
  {
    hide Pow2;
    FirstPowers();
    assert Pow2(10) == 1024 by { Pow2Add(5, 5); }
    assert Pow2(20) == 0x10_0000 by { Pow2Add(10, 10); }
    assert Pow2(40) == 0x100_0000_0000 by { Pow2Add(20, 20); }
    assert Pow2(50) == 0x4_0000_0000_0000 by { Pow2Add(10, 40); }
    assert Pow2(100) == 0x10_0000_0000_0000_0000_0000_0000 by { Pow2Add(50, 50); }
  }

  lemma FirstPowers()
    ensures Pow2(1) == 2 && Pow2(2) == 4 && Pow2(5) == 32
  {
    assert Pow2(5) == 2 * (2 * (2 * (2 * (2 * Pow2(0)))));
  }

  lemma HoldsFinal(f: Fe, z: Fe, e: nat)
    requires Holds(f, z, e)
    ensures Loose(f) && Residue(f) == Power(Value(z, 0), e) % PRIME
  {
  }

  /** fe_invert: z to the power 2^255 - 21, the prime less two. */
  method FeInvert(z: Fe) returns (out: Fe)
    requires Loose(z)
    ensures Loose(out)
      && Residue(out)
        == Power(Value(z, 0), 0x7fff_ffff_ffff_ffff_ffff_ffff_ffff_ffff_ffff_ffff_ffff_ffff_ffff_ffff_ffff_ffeb) % PRIME
  {
    hide Value, Power, Loose, Residue, Holds, Pow2;
    HoldsOne(z);
    Runs();
    var t0 := Squares(z, 1, z, 1);
    var t1 := Squares(t0, 2, z, 2);
    t1 := Times(z, t1, z, 1, 8);
    t0 := Times(t0, t1, z, 2, 9);
    var t2 := Squares(t0, 1, z, 0xb);
    t1 := Times(t1, t2, z, 9, 0x16);
    t2 := Squares(t1, 5, z, 0x1f);
    t1 := Times(t2, t1, z, 0x3e0, 0x1f);
    t2 := Squares(t1, 10, z, 0x3ff);
    t2 := Times(t2, t1, z, 0xf_fc00, 0x3ff);
    var t3 := Squares(t2, 20, z, 0xf_ffff);
    t2 := Times(t3, t2, z, 0xff_fff0_0000, 0xf_ffff);
    t2 := Squares(t2, 10, z, 0xff_ffff_ffff);
    t1 := Times(t2, t1, z, 0x3_ffff_ffff_fc00, 0x3ff);
    t2 := Squares(t1, 50, z, 0x3_ffff_ffff_ffff);
    t2 := Times(t2, t1, z, 0xf_ffff_ffff_fffc_0000_0000_0000, 0x3_ffff_ffff_ffff);
    t3 := Squares(t2, 100, z, 0xf_ffff_ffff_ffff_ffff_ffff_ffff);
    t2 := Times(t3, t2, z, 0xff_ffff_ffff_ffff_ffff_ffff_fff0_0000_0000_0000_0000_0000_0000,
                0xf_ffff_ffff_ffff_ffff_ffff_ffff);
    t2 := Squares(t2, 50, z, 0xff_ffff_ffff_ffff_ffff_ffff_ffff_ffff_ffff_ffff_ffff_ffff_ffff);
    t1 := Times(t2, t1, z, 0x3ff_ffff_ffff_ffff_ffff_ffff_ffff_ffff_ffff_ffff_ffff_ffff_fffc_0000_0000_0000,
                0x3_ffff_ffff_ffff);
    t1 := Squares(t1, 5, z, 0x3ff_ffff_ffff_ffff_ffff_ffff_ffff_ffff_ffff_ffff_ffff_ffff_ffff_ffff_ffff_ffff);
    out := Times(t1, t0, z, 0x7fff_ffff_ffff_ffff_ffff_ffff_ffff_ffff_ffff_ffff_ffff_ffff_ffff_ffff_ffff_ffe0, 0xb);
    HoldsFinal(out, z, 0x7fff_ffff_ffff_ffff_ffff_ffff_ffff_ffff_ffff_ffff_ffff_ffff_ffff_ffff_ffff_ffeb);
  }

  /** fe_pow22523: z to the power 2^252 - 3. */
  method FePow22523(z: Fe) returns (out: Fe)
    requires Loose(z)
    ensures Loose(out)
      && Residue(out)
        == Power(Value(z, 0), 0xfff_ffff_ffff_ffff_ffff_ffff_ffff_ffff_ffff_ffff_ffff_ffff_ffff_ffff_ffff_fffd) % PRIME
  {
    hide Value, Power, Loose, Residue, Holds, Pow2;
    HoldsOne(z);
    Runs();
    var t0 := Squares(z, 1, z, 1);
    var t1 := Squares(t0, 2, z, 2);
    t1 := Times(z, t1, z, 1, 8);
    t0 := Times(t0, t1, z, 2, 9);
    t0 := Squares(t0, 1, z, 0xb);
    t0 := Times(t1, t0, z, 9, 0x16);
    t1 := Squares(t0, 5, z, 0x1f);
    t0 := Times(t1, t0, z, 0x3e0, 0x1f);
    t1 := Squares(t0, 10, z, 0x3ff);
    t1 := Times(t1, t0, z, 0xf_fc00, 0x3ff);
    var t2 := Squares(t1, 20, z, 0xf_ffff);
    t1 := Times(t2, t1, z, 0xff_fff0_0000, 0xf_ffff);
    t1 := Squares(t1, 10, z, 0xff_ffff_ffff);
    t0 := Times(t1, t0, z, 0x3_ffff_ffff_fc00, 0x3ff);
    t1 := Squares(t0, 50, z, 0x3_ffff_ffff_ffff);
    t1 := Times(t1, t0, z, 0xf_ffff_ffff_fffc_0000_0000_0000, 0x3_ffff_ffff_ffff);
    t2 := Squares(t1, 100, z, 0xf_ffff_ffff_ffff_ffff_ffff_ffff);
    t1 := Times(t2, t1, z, 0xff_ffff_ffff_ffff_ffff_ffff_fff0_0000_0000_0000_0000_0000_0000,
                0xf_ffff_ffff_ffff_ffff_ffff_ffff);
    t1 := Squares(t1, 50, z, 0xff_ffff_ffff_ffff_ffff_ffff_ffff_ffff_ffff_ffff_ffff_ffff_ffff);
    t0 := Times(t1, t0, z, 0x3ff_ffff_ffff_ffff_ffff_ffff_ffff_ffff_ffff_ffff_ffff_ffff_fffc_0000_0000_0000,
                0x3_ffff_ffff_ffff);
    t0 := Squares(t0, 2, z, 0x3ff_ffff_ffff_ffff_ffff_ffff_ffff_ffff_ffff_ffff_ffff_ffff_ffff_ffff_ffff_ffff);
    out := Times(t0, z, z, 0xfff_ffff_ffff_ffff_ffff_ffff_ffff_ffff_ffff_ffff_ffff_ffff_ffff_ffff_ffff_fffc, 1);
    HoldsFinal(out, z, 0xfff_ffff_ffff_ffff_ffff_ffff_ffff_ffff_ffff_ffff_ffff_ffff_ffff_ffff_ffff_fffd);
  }
}
