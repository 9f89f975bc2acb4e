/** The range test on S in ed25519_verify (Externals/ed25519/verify.c) beside the one of section 5.1.7
    of RFC 8032: the code asks for the top three bits to be clear, the standard for S below the order. */
module ScalarRange {
  import opened PointGroup
  import opened ScalarRecoding
  import opened ScalarMult
  import opened ScalarField
  import opened Ed25519

  const LIMIT := 0x2000_0000_0000_0000_0000_0000_0000_0000_0000_0000_0000_0000_0000_0000_0000_0000

  // ---- numbers as bytes ----

  /** The number in k bytes, least first. */
  function Written(n: nat, k: nat): (b: seq<Byte>)
    ensures |b| == k
    decreases k
  {
    if k == 0 then [] else [n % 256] + Written(n / 256, k - 1)
  }

  lemma {:induction false} BytesMoved(a: Byte, b: seq<Byte>, i: nat)
    requires i <= |b|
    ensures Bytes([a] + b, i + 1) == Bytes(b, i)
    decreases |b| - i
  {
    if i < |b| { BytesMoved(a, b, i + 1); }
  }

  lemma {:induction false} WrittenValue(n: nat, k: nat)
    requires n < Pow256(k)
    ensures Bytes(Written(n, k), 0) == n
    decreases k
  {
    if k > 0 {
      WrittenValue(n / 256, k - 1);
      BytesMoved(n % 256, Written(n / 256, k - 1), 0);
    }
  }

  /** The mask test is a comparison of the number with 2^253. */
  lemma TopClear(b: seq<Byte>)
    requires |b| == 32
    ensures b[31] < 32 <==> Bytes(b, 0) < LIMIT
  {
    hide Bytes, Pow256;
    TopByte(b, 0);
    Weights();
  }

  lemma Fits(n: nat)
    requires n < 8 * LIMIT
    ensures Bytes(Written(n, 32), 0) == n
  {
    hide Bytes, Written, Pow256;
    Weights();
    assert Pow256(32) == 256 * Pow256(31) by { Pow256Next(); }
    WrittenValue(n, 32);
  }

  lemma Pow256Next()
    ensures Pow256(32) == 256 * Pow256(31)
  {
  }

  // ---- the two tests ----

  /** The verification equation for R and S. */
  ghost predicate Equation<P(!new)>(c: Curve<P>, R: seq<Byte>, S: int, message: seq<Byte>, publicKey: seq<Byte>) {
    && c.decodeNegate(publicKey).Some?
    && var h := HashScalar(c, R + publicKey + message);
      c.encode(c.g.add(c.g.Times(h, c.decodeNegate(publicKey).value), c.g.Times(S, c.B))) == R
  }

  /** What section 5.1.7 of RFC 8032 accepts. */
  ghost predicate StandardAccepts<P(!new)>(c: Curve<P>, signature: seq<Byte>, message: seq<Byte>, publicKey: seq<Byte>)
    requires |signature| == 64
  {
    Bytes(signature[32..], 0) < ORDER && Equation(c, signature[..32], Bytes(signature[32..], 0), message, publicKey)
  }

  /** The signature with the same R and another S. */
  function WithScalar(signature: seq<Byte>, S: nat): (b: seq<Byte>)
    requires |signature| == 64
    ensures |b| == 64
  {
    signature[..32] + Written(S, 32)
  }

  lemma AcceptsIs<P(!new)>(c: Curve<P>, signature: seq<Byte>, message: seq<Byte>, publicKey: seq<Byte>)
    requires |signature| == 64
    ensures Accepts(c, signature, message, publicKey)
      <==> Bytes(signature[32..], 0) < LIMIT
           && Equation(c, signature[..32], Bytes(signature[32..], 0), message, publicKey)
  {
    hide Bytes;
    TopClear(signature[32..]);
    assert signature[32..][31] == signature[63];
  }

  lemma WithScalarIs<P(!new)>(c: Curve<P>, signature: seq<Byte>, S: nat, message: seq<Byte>, publicKey: seq<Byte>)
    requires |signature| == 64 && S < 8 * LIMIT
    ensures Bytes(WithScalar(signature, S)[32..], 0) == S && WithScalar(signature, S)[..32] == signature[..32]
    ensures Accepts(c, WithScalar(signature, S), message, publicKey)
      <==> S < LIMIT && Equation(c, signature[..32], S, message, publicKey)
    ensures StandardAccepts(c, WithScalar(signature, S), message, publicKey)
      <==> S < ORDER && Equation(c, signature[..32], S, message, publicKey)
  {
    hide Bytes, Written, Equation, Accepts;
    var b := WithScalar(signature, S);
    assert b[..32] == signature[..32] && b[32..] == Written(S, 32);
    Fits(S);
    AcceptsIs(c, b, message, publicKey);
  }

  /** The equation does not see multiples of the order. */
  lemma SameEquation<P(!new)>(c: Curve<P>, R: seq<Byte>, S: int, message: seq<Byte>, publicKey: seq<Byte>)
    requires c.Valid()
    ensures Equation(c, R, S + ORDER, message, publicKey) <==> Equation(c, R, S, message, publicKey)
  {
    hide c.Valid, c.g.Laws, Group.Times, HashScalar;
    Tables(c);
    Decoded(c, c.B);
    TimesModulo(c.g, S, c.B);
    TimesModulo(c.g, S + ORDER, c.B);
    assert (S + ORDER) % ORDER == S % ORDER;
  }

  /** For S below the order the code accepts what the standard accepts. */
  lemma BelowOrder<P(!new)>(c: Curve<P>, signature: seq<Byte>, message: seq<Byte>, publicKey: seq<Byte>)
    requires |signature| == 64 && Bytes(signature[32..], 0) < ORDER
    ensures Accepts(c, signature, message, publicKey) <==> StandardAccepts(c, signature, message, publicKey)
  {
    hide Bytes, Equation, Accepts;
    AcceptsIs(c, signature, message, publicKey);
  }

  /** From the order up to 2^253 the code accepts S exactly when it accepts S - l with the same R,
      and the standard accepts nothing. */
  lemma AboveOrder<P(!new)>(c: Curve<P>, signature: seq<Byte>, message: seq<Byte>, publicKey: seq<Byte>)
    requires c.Valid() && |signature| == 64 && ORDER <= Bytes(signature[32..], 0) < LIMIT
    ensures var lower := WithScalar(signature, Bytes(signature[32..], 0) - ORDER);
      && (Accepts(c, signature, message, publicKey) <==> Accepts(c, lower, message, publicKey))
      && (Accepts(c, signature, message, publicKey) <==> StandardAccepts(c, lower, message, publicKey))
      && !StandardAccepts(c, signature, message, publicKey)
  {
    hide Bytes, Equation, Accepts, WithScalar, c.Valid;
    var S := Bytes(signature[32..], 0);
    AcceptsIs(c, signature, message, publicKey);
    WithScalarIs(c, signature, S - ORDER, message, publicKey);
    SameEquation(c, signature[..32], S - ORDER, message, publicKey);
  }

  /** For every signature: when the code accepts, and where that is more than the standard does. */
  lemma AcceptsExactly<P(!new)>(c: Curve<P>, signature: seq<Byte>, message: seq<Byte>, publicKey: seq<Byte>)
    requires c.Valid() && |signature| == 64
    ensures var S := Bytes(signature[32..], 0);
      Accepts(c, signature, message, publicKey) <==>
        if S < ORDER then StandardAccepts(c, signature, message, publicKey)
        else S < LIMIT && StandardAccepts(c, WithScalar(signature, S - ORDER), message, publicKey)
  {
    hide Bytes, Accepts, StandardAccepts, WithScalar, c.Valid;
    var S := Bytes(signature[32..], 0);
    if S < ORDER {
      BelowOrder(c, signature, message, publicKey);
    } else if S < LIMIT {
      AboveOrder(c, signature, message, publicKey);
    } else {
      hide Equation;
      AcceptsIs(c, signature, message, publicKey);
    }
  }

  /** Where the two tests differ: beside each signature that the signer produces stands the one with
      S + l, which the standard never accepts, and the code exactly when S + l is below 2^253. */
  lemma SignedTwice<P(!new)>(c: Curve<P>, signature: seq<Byte>, message: seq<Byte>, publicKey: seq<Byte>,
                      privateKey: seq<Byte>)
    requires c.Valid() && |publicKey| == 32 && |privateKey| == 64
    requires publicKey == c.encode(c.g.Times(Bytes(privateKey[..32], 0), c.B))
    requires IsSignature(c, signature, message, publicKey, privateKey)
    ensures var S := Bytes(signature[32..], 0);
      && StandardAccepts(c, signature, message, publicKey)
      && !StandardAccepts(c, WithScalar(signature, S + ORDER), message, publicKey)
      && (Accepts(c, WithScalar(signature, S + ORDER), message, publicKey) <==> S + ORDER < LIMIT)
  {
    hide Bytes, Accepts, StandardAccepts, WithScalar, Equation, c.Valid;
    var S := Bytes(signature[32..], 0);
    SignedIsAccepted(c, signature, message, publicKey, privateKey);
    SignedBelow(c, signature, message, publicKey, privateKey);
    BelowOrder(c, signature, message, publicKey);
    AcceptsIs(c, signature, message, publicKey);
    WithScalarIs(c, signature, S + ORDER, message, publicKey);
    SameEquation(c, signature[..32], S, message, publicKey);
  }

  lemma SignedBelow<P(!new)>(c: Curve<P>, signature: seq<Byte>, message: seq<Byte>, publicKey: seq<Byte>,
                      privateKey: seq<Byte>)
    requires |privateKey| == 64 && IsSignature(c, signature, message, publicKey, privateKey)
    ensures |signature| == 64 && Bytes(signature[32..], 0) < ORDER
  {
    hide Bytes, HashScalar, Nonce;
  }
}
