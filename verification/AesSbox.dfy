// The S-box of FIPS 197, section 5.1.1: the multiplicative inverse in GF(2^8), followed by an affine map
// over the bits. The bytes that table Te4 repeats are those.
module AesSbox {
  import opened AesTables
  import opened AesField

  // Multiplication, section 4.2: the multiples of a by powers of x, as far as b has them.
  function Part(a: bv8, b: bv8, bit: bv8): bv8 { if b & bit != 0 then a else 0 }

  function Mul(a: bv8, b: bv8): bv8 {
    var a1 := Xtime(a);
    var a2 := Xtime(a1);
    var a3 := Xtime(a2);
    var a4 := Xtime(a3);
    var a5 := Xtime(a4);
    var a6 := Xtime(a5);
    Add(Sum4(Part(a, b, 0x01), Part(a1, b, 0x02), Part(a2, b, 0x04), Part(a3, b, 0x08)),
        Sum4(Part(a4, b, 0x10), Part(a5, b, 0x20), Part(a6, b, 0x40), Part(Xtime(a6), b, 0x80)))
  }

  function Rotl(b: bv8): bv8 { (b << 1) | (b >> 7) }
  function Rotl2(b: bv8): bv8 { (b << 2) | (b >> 6) }
  function Rotl3(b: bv8): bv8 { (b << 3) | (b >> 5) }
  function Rotl4(b: bv8): bv8 { (b << 4) | (b >> 4) }
  function Rotl6(b: bv8): bv8 { (b << 6) | (b >> 2) }

  // Bit i becomes the sum of bits i, i + 4, i + 5, i + 6 and i + 7, and of bit i of 0x63.
  function Affine(b: bv8): bv8 { Add(Add(b, Sum4(Rotl(b), Rotl2(b), Rotl3(b), Rotl4(b))), 0x63) }

  predicate IsInverse(x: bv8, y: bv8) { if x == 0 then y == 0 else Mul(x, y) == 1 }

  // The other way round: bit i is the sum of bits i + 2, i + 5 and i + 7, and of bit i of 0x05.
  function Unaffine(b: bv8): bv8 { Add(Add(Add(Rotl(b), Rotl3(b)), Rotl6(b)), 0x05) }

  lemma AffineBack(b: bv8)
    ensures Affine(Unaffine(b)) == b
  {}

  lemma Inverses0(x: bv8)
    requires x <= 0x1f
    ensures IsInverse(x, Unaffine(S(x)))
  {}

  lemma Inverses1(x: bv8)
    requires 0x20 <= x <= 0x3f
    ensures IsInverse(x, Unaffine(S(x)))
  {}

  lemma Inverses2(x: bv8)
    requires 0x40 <= x <= 0x5f
    ensures IsInverse(x, Unaffine(S(x)))
  {}

  lemma Inverses3(x: bv8)
    requires 0x60 <= x <= 0x7f
    ensures IsInverse(x, Unaffine(S(x)))
  {}

  lemma Inverses4(x: bv8)
    requires 0x80 <= x <= 0x9f
    ensures IsInverse(x, Unaffine(S(x)))
  {}

  lemma Inverses5(x: bv8)
    requires 0xa0 <= x <= 0xbf
    ensures IsInverse(x, Unaffine(S(x)))
  {}

  lemma Inverses6(x: bv8)
    requires 0xc0 <= x <= 0xdf
    ensures IsInverse(x, Unaffine(S(x)))
  {}

  lemma Inverses7(x: bv8)
    requires 0xe0 <= x
    ensures IsInverse(x, Unaffine(S(x)))
  {}

  // Each byte of the S-box is the affine image of an inverse.
  lemma SboxIs(x: bv8)
    ensures exists y :: IsInverse(x, y) && S(x) == Affine(y)
  {
    if x <= 0x1f {
      Inverses0(x);
    } else if x <= 0x3f {
      Inverses1(x);
    } else if x <= 0x5f {
      Inverses2(x);
    } else if x <= 0x7f {
      Inverses3(x);
    } else if x <= 0x9f {
      Inverses4(x);
    } else if x <= 0xbf {
      Inverses5(x);
    } else if x <= 0xdf {
      Inverses6(x);
    } else {
      Inverses7(x);
    }
    AffineBack(S(x));
  }
}
