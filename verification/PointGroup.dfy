/** The group the Ed25519 point code computes in, taken abstractly: any commutative group,
    whatever coordinates its elements are kept in. */
module PointGroup {
  datatype Group<!P(!new)> = Group(zero: P, add: (P, P) -> P, neg: P -> P)
  {
    ghost predicate Laws() {
      && (forall x: P :: add(zero, x) == x)
      && (forall x: P, y: P :: add(x, y) == add(y, x))
      && (forall x: P, y: P, z: P :: add(add(x, y), z) == add(x, add(y, z)))
      && (forall x: P :: add(x, neg(x)) == zero)
    }

    /** The multiple n * x. */
    function Times(n: int, x: P): P
      decreases if n < 0 then 1 - n else n
    {
      if n == 0 then zero
      else if n > 0 then add(Times(n - 1, x), x)
      else neg(Times(-n, x))
    }
  }

  lemma Assoc<P(!new)>(g: Group<P>, a: P, b: P, c: P)
    requires g.Laws()
    ensures g.add(g.add(a, b), c) == g.add(a, g.add(b, c))
  {
  }

  lemma Unit<P(!new)>(g: Group<P>, a: P)
    requires g.Laws()
    ensures g.add(g.zero, a) == a && g.add(a, g.zero) == a
  {
    assert g.add(a, g.zero) == g.add(g.zero, a);
  }

  lemma Swap<P(!new)>(g: Group<P>, a: P, b: P, c: P)
    requires g.Laws()
    ensures g.add(g.add(a, b), c) == g.add(g.add(a, c), b)
  {
    calc {
      g.add(g.add(a, b), c);
      g.add(a, g.add(b, c));
      { assert g.add(b, c) == g.add(c, b); }
      g.add(a, g.add(c, b));
      g.add(g.add(a, c), b);
    }
  }

  lemma Interchange<P(!new)>(g: Group<P>, a: P, b: P, c: P, d: P)
    requires g.Laws()
    ensures g.add(g.add(a, b), g.add(c, d)) == g.add(g.add(a, c), g.add(b, d))
  {
    calc {
      g.add(g.add(a, b), g.add(c, d));
      g.add(g.add(g.add(a, b), c), d);
      { Swap(g, a, b, c); }
      g.add(g.add(g.add(a, c), b), d);
      g.add(g.add(a, c), g.add(b, d));
    }
  }

  lemma Cancel<P(!new)>(g: Group<P>, x: P, y: P)
    requires g.Laws()
    ensures g.add(g.add(x, y), g.neg(y)) == x && g.add(g.add(x, g.neg(y)), y) == x
  {
    assert g.add(g.add(x, y), g.neg(y)) == g.add(x, g.add(y, g.neg(y)));
    assert g.add(g.add(x, g.neg(y)), y) == g.add(x, g.add(g.neg(y), y));
    assert g.add(g.neg(y), y) == g.add(y, g.neg(y));
    assert g.add(x, g.zero) == g.add(g.zero, x);
  }

  /** An element with y + x = zero is the negation. */
  lemma NegUnique<P(!new)>(g: Group<P>, x: P, y: P)
    requires g.Laws() && g.add(y, x) == g.zero
    ensures y == g.neg(x)
  {
    Cancel(g, y, x);
  }

  lemma TimesNeg<P(!new)>(g: Group<P>, n: int, x: P)
    requires g.Laws()
    ensures g.Times(-n, x) == g.neg(g.Times(n, x))
  {
    if n == 0 {
      assert g.add(g.zero, g.zero) == g.zero;
      NegUnique(g, g.zero, g.zero);
    } else if n < 0 {
      var y := g.Times(-n, x);
      assert g.add(y, g.neg(y)) == g.zero;
      NegUnique(g, g.neg(y), y);
    }
  }

  lemma NegOfSum<P(!new)>(g: Group<P>, y: P, x: P)
    requires g.Laws()
    ensures g.add(g.neg(g.add(y, x)), x) == g.neg(y)
  {
    var z := g.neg(g.add(y, x));
    Cancel(g, g.zero, g.add(y, x));
    Swap(g, z, x, y);
    assert g.add(g.add(z, y), x) == g.add(z, g.add(y, x));
    assert g.add(z, g.add(y, x)) == g.add(g.add(y, x), z) == g.zero;
    NegUnique(g, y, g.add(z, x));
  }

  lemma TimesNext<P(!new)>(g: Group<P>, n: int, x: P)
    requires g.Laws()
    ensures g.Times(n + 1, x) == g.add(g.Times(n, x), x)
  {
    hide g.Laws;
    if n < 0 {
      NegOfSum(g, g.Times(-n - 1, x), x);
      TimesNeg(g, -n - 1, x);
    }
  }

  lemma {:induction false} TimesAdd<P(!new)>(g: Group<P>, m: int, n: int, x: P)
    requires g.Laws()
    ensures g.Times(m + n, x) == g.add(g.Times(m, x), g.Times(n, x))
    decreases if n < 0 then -n else n
  {
    hide g.Laws;
    var a, b := g.Times(m, x), g.Times(n, x);
    if n == 0 {
      Unit(g, a);
    } else if n > 0 {
      TimesAdd(g, m, n - 1, x);
      TimesNext(g, m + n - 1, x);
      Assoc(g, a, g.Times(n - 1, x), x);
    } else {
      TimesAdd(g, m, n + 1, x);
      TimesNext(g, m + n, x);
      TimesNext(g, n, x);
      Assoc(g, a, b, x);
      Cancel(g, g.Times(m + n, x), x);
      Cancel(g, g.add(a, b), x);
    }
  }

  lemma {:induction false} TimesTimes<P(!new)>(g: Group<P>, m: int, n: int, x: P)
    requires g.Laws()
    ensures g.Times(m, g.Times(n, x)) == g.Times(m * n, x)
    decreases if m < 0 then 1 - m else m
  {
    hide g.Laws;
    if m > 0 {
      TimesTimes(g, m - 1, n, x);
      assert m * n == (m - 1) * n + n;
      TimesAdd(g, (m - 1) * n, n, x);
    } else if m < 0 {
      TimesTimes(g, -m, n, x);
      assert m * n == -(-m * n);
      TimesNeg(g, -m * n, x);
    }
  }

  lemma TimesOne<P(!new)>(g: Group<P>, x: P)
    requires g.Laws()
    ensures g.Times(1, x) == x && g.Times(-1, x) == g.neg(x) && g.Times(0, x) == g.zero
  {
    assert g.Times(1, x) == g.add(g.Times(0, x), x);
  }

  // ---- sums u * a + v * b ----

  function Combo<P(!new)>(g: Group<P>, u: int, a: P, v: int, b: P): P {
    g.add(g.Times(u, a), g.Times(v, b))
  }

  lemma ComboDouble<P(!new)>(g: Group<P>, u: int, a: P, v: int, b: P)
    requires g.Laws()
    ensures var c := Combo(g, u, a, v, b); g.add(c, c) == Combo(g, 2 * u, a, 2 * v, b)
  {
    hide g.Laws;
    var x, y := g.Times(u, a), g.Times(v, b);
    Interchange(g, x, y, x, y);
    TimesAdd(g, u, u, a);
    TimesAdd(g, v, v, b);
  }

  lemma ComboFirst<P(!new)>(g: Group<P>, u: int, a: P, v: int, b: P, k: int)
    requires g.Laws()
    ensures g.add(Combo(g, u, a, v, b), g.Times(k, a)) == Combo(g, u + k, a, v, b)
  {
    hide g.Laws;
    Swap(g, g.Times(u, a), g.Times(v, b), g.Times(k, a));
    TimesAdd(g, u, k, a);
  }

  lemma ComboSecond<P(!new)>(g: Group<P>, u: int, a: P, v: int, b: P, k: int)
    requires g.Laws()
    ensures g.add(Combo(g, u, a, v, b), g.Times(k, b)) == Combo(g, u, a, v + k, b)
  {
    hide g.Laws;
    TimesAdd(g, v, k, b);
    Assoc(g, g.Times(u, a), g.Times(v, b), g.Times(k, b));
  }
}
