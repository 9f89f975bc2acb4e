/** Bitwise tests on bytes, against the numbers they stand for. */
module ByteBits {
  lemma TopBits(x: int)
    requires 0 <= x < 256
    ensures (x as bv8) & 224 == 0 <==> x < 32
  {
    TopBitsOf(x as bv8);
    BackToByte(x);
  }

  lemma TopBitsOf(b: bv8)
    ensures b & 224 == 0 <==> b as int < 32
  {
  }

  lemma BackToByte(x: int)
    requires 0 <= x < 256
    ensures (x as bv8) as int == x
  {
    var b := x as bv8;
    var y := b as int;
    assert 0 <= y < 256;
    assert (y - x) % 256 == 0;
  }

  lemma Difference(x: int, y: int)
    requires 0 <= x < 256 && 0 <= y < 256
    ensures (x as bv8) ^ (y as bv8) == 0 <==> x == y
  {
    BackToByte(x);
    BackToByte(y);
    DifferenceOf(x as bv8, y as bv8);
  }

  lemma DifferenceOf(a: bv8, b: bv8)
    ensures a ^ b == 0 <==> a == b
  {
  }

  lemma Collect(r: bv8, d: bv8)
    ensures r | d == 0 <==> r == 0 && d == 0
  {
  }
}
