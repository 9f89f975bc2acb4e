/** Signing and verification of Externals/ed25519 (sign.c, verify.c) over any group with a base
    point of the right order, any point encoding that can be undone and any hash. */
module Ed25519 {
  import opened ByteBits
  import opened PointGroup
  import opened ScalarRecoding
  import opened ScalarMult
  import opened ScalarField
  import opened ScalarReduce

  datatype Option<T> = None | Some(value: T)

  /** What the code takes as given: the group, its base point and the tables of its multiples,
      the encoding of points, decoding to the negated point, and SHA-512. */
  datatype Curve<!P(!new)> = Curve(g: Group<P>, B: P, base: seq<seq<P>>, Bi: seq<P>,
                                   encode: P -> seq<Byte>, decodeNegate: seq<Byte> -> Option<P>,
                                     hash: seq<Byte> -> seq<Byte>)
  {
    ghost predicate Valid() {
      && g.Laws() && BaseTable(g, base, B) && OddMultiples(g, Bi, B)
      && g.Times(ORDER, B) == g.zero
      && (forall p: P :: |encode(p)| == 32)
      && (forall p: P :: decodeNegate(encode(p)) == Some(g.neg(p)))
      && (forall m: seq<Byte> :: |hash(m)| == 64)
    }
  }

  /** A running hash: what it returns at the end depends only on the bytes put in. */
  class Sha512Context {
    var data: seq<Byte>

    constructor ()
      ensures data == []
    {
      data := [];
    }

    method Update(more: seq<Byte>)
      modifies this
      ensures data == old(data) + more
    {
      data := data + more;
    }

    method Final(hash: seq<Byte> -> seq<Byte>, out: array<Byte>)
      requires out.Length == 64 && |hash(data)| == 64
      modifies out
      ensures out[..] == hash(data)
    {
      var digest := hash(data);
      for i := 0 to 64
        invariant forall j :: 0 <= j < i ==> out[j] == digest[j]
      {
        out[i] := digest[i];
      }
    }
  }

  // ---- what a signature is ----

  function HashScalar<P(!new)>(c: Curve<P>, data: seq<Byte>): int {
    Bytes(c.hash(data), 0) % ORDER
  }

  /** The nonce: the hash of the second half of the private key and the message. */
  function Nonce<P(!new)>(c: Curve<P>, message: seq<Byte>, privateKey: seq<Byte>): int
    requires |privateKey| == 64
  {
    HashScalar(c, privateKey[32..] + message)
  }

  /** R is the nonce times the base point, S = nonce + h * a, section 5.1.6 of RFC 8032. */
  ghost predicate IsSignature<P(!new)>(c: Curve<P>, signature: seq<Byte>, message: seq<Byte>, publicKey: seq<Byte>,
                                privateKey: seq<Byte>)
    requires |privateKey| == 64
  {
    && |signature| == 64
    && var r := Nonce(c, message, privateKey);
      && signature[..32] == c.encode(c.g.Times(r, c.B))
      && Bytes(signature[32..], 0)
         == (HashScalar(c, signature[..32] + publicKey + message) * Bytes(privateKey[..32], 0) + r) % ORDER
  }

  /** The acceptance equation: R is the encoding of S * B - h * A. */
  ghost predicate Accepts<P(!new)>(c: Curve<P>, signature: seq<Byte>, message: seq<Byte>, publicKey: seq<Byte>)
    requires |signature| == 64
  {
    && signature[63] < 32
    && c.decodeNegate(publicKey).Some?
    && var h := HashScalar(c, signature[..32] + publicKey + message);
      c.encode(c.g.add(c.g.Times(h, c.decodeNegate(publicKey).value), c.g.Times(Bytes(signature[32..], 0), c.B)))
        == signature[..32]
  }

  // ---- scalars small enough for the multiplications ----

  lemma {:induction false} TopByte(b: seq<Byte>, i: nat)
    requires |b| == 32 && i <= 31
    ensures Bytes(b, i) >= b[31] as int * Pow256(31 - i)
    ensures Bytes(b, i) < (b[31] as int + 1) * Pow256(31 - i)
    decreases 31 - i
  {
    if i < 31 {
      TopByte(b, i + 1);
      Scale256(b[31], Pow256(31 - i - 1));
      Scale256(b[31] as int + 1, Pow256(31 - i - 1));
    } else {
      assert Bytes(b, 32) == 0;
    }
  }

  lemma Scale256(x: int, p: int)
    ensures 256 * (x * p) == x * (256 * p)
  {
  }

  lemma SmallTop(b: seq<Byte>)
    requires |b| == 32
    ensures Bytes(b, 0) < ORDER ==> b[31] < 32
    ensures b[31] < 32 ==> Bytes(b, 0) <= Pow2(255)
  {
    hide Bytes, Pow256;
    TopByte(b, 0);
    Weights();
  }

  lemma Weights()
    ensures Pow256(31) == 0x100_0000_0000_0000_0000_0000_0000_0000_0000_0000_0000_0000_0000_0000_0000_0000
    ensures Pow2(255) == 0x8000_0000_0000_0000_0000_0000_0000_0000_0000_0000_0000_0000_0000_0000_0000_0000
  {
    hide Pow2, Pow256;
    FirstWeights();
    assert Pow256(7) == 0x100_0000_0000_0000 by { Pow256Add(3, 4); }
    assert Pow256(8) == 0x1_0000_0000_0000_0000 by { Pow256Add(4, 4); }
    assert Pow256(15) == 0x100_0000_0000_0000_0000_0000_0000_0000 by { Pow256Add(7, 8); }
    assert Pow256(16) == 0x1_0000_0000_0000_0000_0000_0000_0000_0000 by { Pow256Add(8, 8); }
    assert Pow256(31)
      == 0x100_0000_0000_0000_0000_0000_0000_0000_0000_0000_0000_0000_0000_0000_0000_0000 by { Pow256Add(15, 16); }
    assert Pow2(15) == 0x8000 by { Pow2Add(7, 8); }
    assert Pow2(16) == 0x1_0000 by { Pow2Add(8, 8); }
    assert Pow2(31) == 0x8000_0000 by { Pow2Add(15, 16); }
    assert Pow2(32) == 0x1_0000_0000 by { Pow2Add(16, 16); }
    assert Pow2(63) == 0x8000_0000_0000_0000 by { Pow2Add(31, 32); }
    assert Pow2(64) == 0x1_0000_0000_0000_0000 by { Pow2Add(32, 32); }
    assert Pow2(127) == 0x8000_0000_0000_0000_0000_0000_0000_0000 by { Pow2Add(63, 64); }
    assert Pow2(128) == 0x1_0000_0000_0000_0000_0000_0000_0000_0000 by { Pow2Add(64, 64); }
    assert Pow2(255)
      == 0x8000_0000_0000_0000_0000_0000_0000_0000_0000_0000_0000_0000_0000_0000_0000_0000 by { Pow2Add(127, 128); }
  }

  lemma FirstWeights()
    ensures Pow256(3) == 0x100_0000 && Pow256(4) == 0x1_0000_0000
    ensures Pow2(7) == 0x80 && Pow2(8) == 0x100
  {
    assert Pow2(4) == 2 * (2 * (2 * (2 * Pow2(0))));
    assert Pow2(8) == 2 * (2 * (2 * (2 * Pow2(4))));
    assert Pow256(4) == 256 * (256 * (256 * (256 * Pow256(0))));
  }

  lemma {:induction false} Pow256Add(m: nat, n: nat)
    ensures Pow256(m + n) == Pow256(m) * Pow256(n)
  {
    if m > 0 { Pow256Add(m - 1, n); }
  }

  // ---- signing ----

  lemma Lengths<P(!new)>(c: Curve<P>, m: seq<Byte>, p: P)
    requires c.Valid()
    ensures |c.hash(m)| == 64 && |c.encode(p)| == 32
  {
  }

  lemma Tables<P(!new)>(c: Curve<P>)
    requires c.Valid()
    ensures c.g.Laws() && BaseTable(c.g, c.base, c.B) && OddMultiples(c.g, c.Bi, c.B)
  {
  }

  /** The nonce, hashed and reduced. */
  method HashNonce<P(!new)>(c: Curve<P>, message: seq<Byte>, privateKey: seq<Byte>) returns (r: array<Byte>)
    requires c.Valid() && |privateKey| == 64
    ensures fresh(r) && r.Length == 64 && Bytes(r[..32], 0) == Nonce(c, message, privateKey)
  {
    hide Bytes, c.Valid;
    r := new Byte[64];
    var hash := new Sha512Context();
    hash.Update(privateKey[32..]);
    hash.Update(message);
    assert hash.data == privateKey[32..] + message;
    Lengths(c, hash.data, c.B);
    hash.Final(c.hash, r);
    ScReduce(r);
  }

  /** The hash of R, the public key and the message, reduced. */
  method HashChallenge<P(!new)>(c: Curve<P>, R: seq<Byte>, publicKey: seq<Byte>, message: seq<Byte>)
    returns (h: array<Byte>)
    requires c.Valid()
    ensures fresh(h) && h.Length == 64 && Bytes(h[..32], 0) == HashScalar(c, R + publicKey + message)
  {
    hide Bytes, c.Valid;
    h := new Byte[64];
    var hash := new Sha512Context();
    hash.Update(R);
    hash.Update(publicKey);
    hash.Update(message);
    assert hash.data == R + publicKey + message;
    Lengths(c, hash.data, c.B);
    hash.Final(c.hash, h);
    ScReduce(h);
  }

  /** Writes the signature of the message. */
  method Sign<P(!new)>(c: Curve<P>, signature: array<Byte>, message: seq<Byte>, publicKey: seq<Byte>,
                privateKey: seq<Byte>)
    requires c.Valid() && signature.Length == 64 && |publicKey| == 32 && |privateKey| == 64
    modifies signature
    ensures IsSignature(c, signature[..], message, publicKey, privateKey)
    ensures var r := Bytes(c.hash(privateKey[32..] + message), 0) % ORDER;
      && signature[..32] == c.encode(c.g.Times(r, c.B))
      && Bytes(signature[32..], 0)
         == (Bytes(c.hash(signature[..32] + publicKey + message), 0) % ORDER * Bytes(privateKey[..32], 0) + r) % ORDER
  {
    hide Bytes, Pow2, c.Valid, c.g.Laws, BaseTable, OddMultiples, Group.Times, Nonce, HashScalar;
    Tables(c);
    var r := HashNonce(c, message, privateKey);
    ghost var nonce := r[..32];
    ReducedBelow(c, privateKey[32..] + message, message, privateKey);
    SmallTop(nonce);
    var R := ScalarMultBase(c.g, c.base, r[..32], c.B);
    Lengths(c, [], R);
    var encoded := c.encode(R);
    for i := 0 to 32
      invariant forall j :: 0 <= j < i ==> signature[j] == encoded[j]
      invariant r[..32] == nonce
    {
      signature[i] := encoded[i];
    }
    assert signature[..32] == encoded;
    var hram := HashChallenge(c, signature[..32], publicKey, message);
    ScMulAdd(signature, 32, hram[..32], privateKey[..32], r[..32]);
    assert signature[..][..32] == encoded;
    assert signature[..][32..] == signature[32..64];
    assert signature[32..] == signature[..][32..] && signature[..32] == signature[..][..32];
    SignatureIs(c, signature[..], message, publicKey, privateKey);
  }

  /** A signature in terms of the hash alone. */
  lemma SignatureIs<P(!new)>(c: Curve<P>, signature: seq<Byte>, message: seq<Byte>, publicKey: seq<Byte>,
                             privateKey: seq<Byte>)
    requires |privateKey| == 64 && IsSignature(c, signature, message, publicKey, privateKey)
    ensures var r := Bytes(c.hash(privateKey[32..] + message), 0) % ORDER;
      && |signature| == 64 && signature[..32] == c.encode(c.g.Times(r, c.B))
      && Bytes(signature[32..], 0)
         == (Bytes(c.hash(signature[..32] + publicKey + message), 0) % ORDER * Bytes(privateKey[..32], 0) + r) % ORDER
  {
    hide Bytes, Group.Times;
  }

  lemma ReducedBelow<P(!new)>(c: Curve<P>, data: seq<Byte>, message: seq<Byte>, privateKey: seq<Byte>)
    requires |privateKey| == 64
    ensures 0 <= HashScalar(c, data) < ORDER && 0 <= Nonce(c, message, privateKey) < ORDER
  {
  }

  // ---- verification ----

  /** consttime_equal: the differences are collected without a branch. */
  method ConsttimeEqual(x: seq<Byte>, y: seq<Byte>) returns (equal: bool)
    requires |x| == |y| == 32
    ensures equal <==> x == y
  {
    var r: bv8 := (x[0] as bv8) ^ (y[0] as bv8);
    Difference(x[0], y[0]);
    for i := 1 to 32
      invariant r == 0 <==> x[..i] == y[..i]
    {
      Difference(x[i], y[i]);
      Collect(r, (x[i] as bv8) ^ (y[i] as bv8));
      r := r | ((x[i] as bv8) ^ (y[i] as bv8));
      assert x[..i + 1] == x[..i] + [x[i]] && y[..i + 1] == y[..i] + [y[i]];
    }
    equal := r == 0;
    assert x[..32] == x && y[..32] == y;
  }

  /** Whether the signature is accepted. */
  method Verify<P(!new)>(c: Curve<P>, signature: seq<Byte>, message: seq<Byte>, publicKey: seq<Byte>)
    returns (accepted: bool)
    requires c.Valid() && |signature| == 64 && |publicKey| == 32
    ensures accepted <==> Accepts(c, signature, message, publicKey)
    ensures accepted <==>
      && signature[63] < 32 && c.decodeNegate(publicKey).Some?
      && var h := Bytes(c.hash(signature[..32] + publicKey + message), 0) % ORDER;
        c.encode(c.g.add(c.g.Times(h, c.decodeNegate(publicKey).value), c.g.Times(Bytes(signature[32..], 0), c.B)))
          == signature[..32]
  {
    hide Bytes, Pow2, c.Valid, c.g.Laws, BaseTable, OddMultiples, Group.Times;
    Tables(c);
    TopBits(signature[63]);
    if (signature[63] as bv8) & 224 != 0 { return false; }
    var A := c.decodeNegate(publicKey);
    if A.None? { return false; }
    var h := HashChallenge(c, signature[..32], publicKey, message);
    SmallTop(h[..32]);
    SmallTop(signature[32..]);
    assert signature[32..][31] == signature[63];
    var R := DoubleScalarMult(c.g, h[..32], A.value, signature[32..], c.Bi, c.B);
    Lengths(c, [], R);
    var checker := c.encode(R);
    accepted := ConsttimeEqual(checker, signature[..32]);
  }

  // ---- a signature is accepted ----

  lemma {:induction false} TimesZero<P(!new)>(g: Group<P>, n: int)
    requires g.Laws()
    ensures g.Times(n, g.zero) == g.zero
    decreases if n < 0 then 1 - n else n
  {
    hide g.Laws;
    Unit(g, g.zero);
    if n > 0 {
      TimesZero(g, n - 1);
    } else if n < 0 {
      TimesZero(g, -n);
      TimesNeg(g, 0, g.zero);
    }
  }

  /** Multiples of a point of order l depend only on the scalar modulo l. */
  lemma TimesModulo<P(!new)>(g: Group<P>, n: int, B: P)
    requires g.Laws() && g.Times(ORDER, B) == g.zero
    ensures g.Times(n % ORDER, B) == g.Times(n, B)
  {
    hide g.Laws, Group.Times;
    var q, r := n / ORDER, n % ORDER;
    TimesAdd(g, r, q * ORDER, B);
    TimesTimes(g, q, ORDER, B);
    TimesZero(g, q);
    Unit(g, g.Times(r, B));
  }

  /** S * B - h * A gives back the nonce times B. */
  lemma SignatureEquation<P(!new)>(g: Group<P>, B: P, h: int, a: int, r: int)
    requires g.Laws() && g.Times(ORDER, B) == g.zero
    ensures g.add(g.Times(h, g.neg(g.Times(a, B))), g.Times((h * a + r) % ORDER, B)) == g.Times(r, B)
  {
    hide g.Laws, Group.Times;
    TimesNeg(g, a, B);
    TimesTimes(g, h, -a, B);
    TimesModulo(g, h * a + r, B);
    TimesAdd(g, h * -a, h * a + r, B);
    assert h * -a + (h * a + r) == r;
  }

  /** Whatever Sign produces for the public key of its private key, Verify accepts. */
  lemma SignedIsAccepted<P(!new)>(c: Curve<P>, signature: seq<Byte>, message: seq<Byte>, publicKey: seq<Byte>,
                           privateKey: seq<Byte>)
    requires c.Valid() && |publicKey| == 32 && |privateKey| == 64
    requires publicKey == c.encode(c.g.Times(Bytes(privateKey[..32], 0), c.B))
    requires IsSignature(c, signature, message, publicKey, privateKey)
    ensures Accepts(c, signature, message, publicKey)
  {
    hide Bytes, c.Valid, c.g.Laws, BaseTable, OddMultiples, Group.Times;
    var a, r := Bytes(privateKey[..32], 0), Nonce(c, message, privateKey);
    var h := HashScalar(c, signature[..32] + publicKey + message);
    Tables(c);
    Decoded(c, c.g.Times(a, c.B));
    SignatureEquation(c.g, c.B, h, a, r);
    SmallTop(signature[32..]);
    assert signature[32..][31] == signature[63];
  }

  lemma Decoded<P(!new)>(c: Curve<P>, p: P)
    requires c.Valid()
    ensures c.decodeNegate(c.encode(p)) == Some(c.g.neg(p)) && c.g.Times(ORDER, c.B) == c.g.zero
  {
    hide c.g.Laws, BaseTable, OddMultiples, Group.Times;
  }

  /** The round trip as a program: sign, then verify. */
  method SignThenVerify<P(!new)>(c: Curve<P>, message: seq<Byte>, publicKey: seq<Byte>, privateKey: seq<Byte>)
    returns (accepted: bool)
    requires c.Valid() && |publicKey| == 32 && |privateKey| == 64
    requires publicKey == c.encode(c.g.Times(Bytes(privateKey[..32], 0), c.B))
    ensures accepted
  {
    hide IsSignature, Accepts, c.Valid, Bytes;
    var signature := new Byte[64];
    Sign(c, signature, message, publicKey, privateKey);
    SignedIsAccepted(c, signature[..], message, publicKey, privateKey);
    accepted := Verify(c, signature[..], message, publicKey);
  }
}
