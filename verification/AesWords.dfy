// The table-driven rounds on 32-bit words, and their meaning as rounds on columns: what the
// tables hold (every entry is checked), and what a word of a round computes.
module AesWords {
  import opened AesTables
  import opened AesField
  import opened AesSpec

  function B0(w: bv32): bv8 { (w >> 24) as bv8 }
  function B1(w: bv32): bv8 { ((w >> 16) & 0xff) as bv8 }
  function B2(w: bv32): bv8 { ((w >> 8) & 0xff) as bv8 }
  function B3(w: bv32): bv8 { (w & 0xff) as bv8 }

  function Bytes(w: bv32): Column { Column(B0(w), B1(w), B2(w), B3(w)) }

  function Pack(b0: bv8, b1: bv8, b2: bv8, b3: bv8): bv32 {
    ((b0 as bv32) << 24) ^ ((b1 as bv32) << 16) ^ ((b2 as bv32) << 8) ^ (b3 as bv32)
  }

  lemma BytesPack(b0: bv8, b1: bv8, b2: bv8, b3: bv8)
    ensures Bytes(Pack(b0, b1, b2, b3)) == Column(b0, b1, b2, b3)
  {
  }

  lemma PackBytes(w: bv32)
    ensures Pack(B0(w), B1(w), B2(w), B3(w)) == w
  {
  }

  function Xor(a: bv32, b: bv32): bv32 { a ^ b }
  function Xor4(a: bv32, b: bv32, c: bv32, d: bv32): bv32 { Xor(Xor(Xor(a, b), c), d) }

  lemma BytesXor(a: bv32, b: bv32)
    ensures Bytes(Xor(a, b)) == XorCol(Bytes(a), Bytes(b))
  {
    calc {
      Bytes(Xor(a, b));
      Column(B0(a ^ b), B1(a ^ b), B2(a ^ b), B3(a ^ b));
      Column(B0(a) ^ B0(b), B1(a) ^ B1(b), B2(a) ^ B2(b), B3(a) ^ B3(b));
      XorCol(Bytes(a), Bytes(b));
    }
  }

  function Rotr8(w: bv32): bv32 { (w >> 8) | (w << 24) }

  lemma Rotr8Bytes(w: bv32)
    ensures Bytes(Rotr8(w)) == Column(B3(w), B0(w), B1(w), B2(w))
  {
  }

  // ----- what the tables hold, for all 256 indices -----

  lemma Te0Byte0(x: bv8)
    ensures B0(Te0(x)) == Xtime(S(x))
  {
  }

  lemma Te0Byte1(x: bv8)
    ensures B1(Te0(x)) == S(x)
  {
  }

  lemma Te0Byte2(x: bv8)
    ensures B2(Te0(x)) == S(x)
  {
  }

  lemma Te0Byte3(x: bv8)
    ensures B3(Te0(x)) == Mul3(S(x))
  {
  }

  lemma Te1Rotates(x: bv8)
    ensures Te1(x) == Rotr8(Te0(x))
  {
  }

  lemma Te2Rotates(x: bv8)
    ensures Te2(x) == Rotr8(Te1(x))
  {
  }

  lemma Te3Rotates(x: bv8)
    ensures Te3(x) == Rotr8(Te2(x))
  {
  }

  lemma Te0Holds(x: bv8)
    ensures Bytes(Te0(x)) == Column(Xtime(S(x)), S(x), S(x), Mul3(S(x)))
  {
    Te0Byte0(x);
    Te0Byte1(x);
    Te0Byte2(x);
    Te0Byte3(x);
  }

  lemma Te1Holds(x: bv8)
    ensures Bytes(Te1(x)) == Column(Mul3(S(x)), Xtime(S(x)), S(x), S(x))
  {
    Te0Holds(x);
    Te1Rotates(x);
    Rotr8Bytes(Te0(x));
  }

  lemma Te2Holds(x: bv8)
    ensures Bytes(Te2(x)) == Column(S(x), Mul3(S(x)), Xtime(S(x)), S(x))
  {
    Te1Holds(x);
    Te2Rotates(x);
    Rotr8Bytes(Te1(x));
  }

  lemma Te3Holds(x: bv8)
    ensures Bytes(Te3(x)) == Column(S(x), S(x), Mul3(S(x)), Xtime(S(x)))
  {
    Te2Holds(x);
    Te3Rotates(x);
    Rotr8Bytes(Te2(x));
  }

  lemma Te4High(x: bv8)
    ensures B0(Te4(x)) == S(x) && B1(Te4(x)) == S(x)
  {
  }

  lemma Te4Low(x: bv8)
    ensures B2(Te4(x)) == S(x) && B3(Te4(x)) == S(x)
  {
  }

  lemma Te4Holds(x: bv8)
    ensures Bytes(Te4(x)) == Column(S(x), S(x), S(x), S(x))
  {
    Te4High(x);
    Te4Low(x);
  }

  lemma Td0Byte0(x: bv8)
    ensures B0(Td0(x)) == MulE(Si(x))
  {
  }

  lemma Td0Byte1(x: bv8)
    ensures B1(Td0(x)) == Mul9(Si(x))
  {
  }

  lemma Td0Byte2(x: bv8)
    ensures B2(Td0(x)) == MulD(Si(x))
  {
  }

  lemma Td0Byte3(x: bv8)
    ensures B3(Td0(x)) == MulB(Si(x))
  {
  }

  lemma Td1Rotates(x: bv8)
    ensures Td1(x) == Rotr8(Td0(x))
  {
  }

  lemma Td2Rotates(x: bv8)
    ensures Td2(x) == Rotr8(Td1(x))
  {
  }

  lemma Td3Rotates(x: bv8)
    ensures Td3(x) == Rotr8(Td2(x))
  {
  }

  lemma Td0Holds(x: bv8)
    ensures Bytes(Td0(x)) == Column(MulE(Si(x)), Mul9(Si(x)), MulD(Si(x)), MulB(Si(x)))
  {
    Td0Byte0(x);
    Td0Byte1(x);
    Td0Byte2(x);
    Td0Byte3(x);
  }

  lemma Td1Holds(x: bv8)
    ensures Bytes(Td1(x)) == Column(MulB(Si(x)), MulE(Si(x)), Mul9(Si(x)), MulD(Si(x)))
  {
    Td0Holds(x);
    Td1Rotates(x);
    Rotr8Bytes(Td0(x));
  }

  lemma Td2Holds(x: bv8)
    ensures Bytes(Td2(x)) == Column(MulD(Si(x)), MulB(Si(x)), MulE(Si(x)), Mul9(Si(x)))
  {
    Td1Holds(x);
    Td2Rotates(x);
    Rotr8Bytes(Td1(x));
  }

  lemma Td3Holds(x: bv8)
    ensures Bytes(Td3(x)) == Column(Mul9(Si(x)), MulD(Si(x)), MulB(Si(x)), MulE(Si(x)))
  {
    Td2Holds(x);
    Td3Rotates(x);
    Rotr8Bytes(Td2(x));
  }

  lemma Td4High(x: bv8)
    ensures B0(Td4(x)) == Si(x) && B1(Td4(x)) == Si(x)
  {
  }

  lemma Td4Low(x: bv8)
    ensures B2(Td4(x)) == Si(x) && B3(Td4(x)) == Si(x)
  {
  }

  lemma Td4Holds(x: bv8)
    ensures Bytes(Td4(x)) == Column(Si(x), Si(x), Si(x), Si(x))
  {
    Td4High(x);
    Td4Low(x);
  }

  // ----- one word of a round -----

  function EncryptWord(a: bv32, b: bv32, c: bv32, d: bv32, k: bv32): bv32 {
    Xor(Xor4(Te0(B0(a)), Te1(B1(b)), Te2(B2(c)), Te3(B3(d))), k)
  }
  function DecryptWord(a: bv32, b: bv32, c: bv32, d: bv32, k: bv32): bv32 {
    Xor(Xor4(Td0(B0(a)), Td1(B1(b)), Td2(B2(c)), Td3(B3(d))), k)
  }
  function Assemble(w0: bv32, w1: bv32, w2: bv32, w3: bv32): bv32 {
    (w0 & 0xff000000) ^ (w1 & 0x00ff0000) ^ (w2 & 0x0000ff00) ^ (w3 & 0x000000ff)
  }
  function LastEncryptWord(a: bv32, b: bv32, c: bv32, d: bv32, k: bv32): bv32 {
    Xor(Assemble(Te4(B0(a)), Te4(B1(b)), Te4(B2(c)), Te4(B3(d))), k)
  }
  function LastDecryptWord(a: bv32, b: bv32, c: bv32, d: bv32, k: bv32): bv32 {
    Xor(Assemble(Td4(B0(a)), Td4(B1(b)), Td4(B2(c)), Td4(B3(d))), k)
  }
  // The transform of AES_set_decrypt_key: the S-box inside Td is cancelled by Te4.
  function InvMixWord(w: bv32): bv32 {
    Xor4(Td0(S(B0(w))), Td1(S(B1(w))), Td2(S(B2(w))), Td3(S(B3(w))))
  }

  lemma BytesXor4(w0: bv32, w1: bv32, w2: bv32, w3: bv32)
    ensures Bytes(Xor4(w0, w1, w2, w3)) == XorCol(XorCol(XorCol(Bytes(w0), Bytes(w1)), Bytes(w2)), Bytes(w3))
  {
    BytesXor(w0, w1);
    BytesXor(Xor(w0, w1), w2);
    BytesXor(Xor(Xor(w0, w1), w2), w3);
  }

  lemma MixOfWords(w0: bv32, w1: bv32, w2: bv32, w3: bv32, c: Column)
    requires Bytes(w0) == Column(Xtime(c.b0), c.b0, c.b0, Mul3(c.b0))
    requires Bytes(w1) == Column(Mul3(c.b1), Xtime(c.b1), c.b1, c.b1)
    requires Bytes(w2) == Column(c.b2, Mul3(c.b2), Xtime(c.b2), c.b2)
    requires Bytes(w3) == Column(c.b3, c.b3, Mul3(c.b3), Xtime(c.b3))
    ensures Bytes(Xor4(w0, w1, w2, w3)) == MixColumn(c)
  {
    BytesXor4(w0, w1, w2, w3);
  }

  lemma InvMixOfWords(w0: bv32, w1: bv32, w2: bv32, w3: bv32, c: Column)
    requires Bytes(w0) == Column(MulE(c.b0), Mul9(c.b0), MulD(c.b0), MulB(c.b0))
    requires Bytes(w1) == Column(MulB(c.b1), MulE(c.b1), Mul9(c.b1), MulD(c.b1))
    requires Bytes(w2) == Column(MulD(c.b2), MulB(c.b2), MulE(c.b2), Mul9(c.b2))
    requires Bytes(w3) == Column(Mul9(c.b3), MulD(c.b3), MulB(c.b3), MulE(c.b3))
    ensures Bytes(Xor4(w0, w1, w2, w3)) == InvMixColumn(c)
  {
    BytesXor4(w0, w1, w2, w3);
  }

  lemma AssembleBytes(w0: bv32, w1: bv32, w2: bv32, w3: bv32)
    ensures Bytes(Assemble(w0, w1, w2, w3)) == Column(B0(w0), B1(w1), B2(w2), B3(w3))
  {
  }

  lemma EncryptWordBytes(a: bv32, b: bv32, c: bv32, d: bv32, k: bv32)
    ensures Bytes(EncryptWord(a, b, c, d, k))
         == XorCol(MixColumn(SubCol(Column(B0(a), B1(b), B2(c), B3(d)))), Bytes(k))
  {
    var w0, w1, w2, w3 := Te0(B0(a)), Te1(B1(b)), Te2(B2(c)), Te3(B3(d));
    Te0Holds(B0(a));
    Te1Holds(B1(b));
    Te2Holds(B2(c));
    Te3Holds(B3(d));
    MixOfWords(w0, w1, w2, w3, SubCol(Column(B0(a), B1(b), B2(c), B3(d))));
    BytesXor(Xor4(w0, w1, w2, w3), k);
  }

  lemma DecryptWordBytes(a: bv32, b: bv32, c: bv32, d: bv32, k: bv32)
    ensures Bytes(DecryptWord(a, b, c, d, k))
         == XorCol(InvMixColumn(InvSubCol(Column(B0(a), B1(b), B2(c), B3(d)))), Bytes(k))
  {
    var w0, w1, w2, w3 := Td0(B0(a)), Td1(B1(b)), Td2(B2(c)), Td3(B3(d));
    Td0Holds(B0(a));
    Td1Holds(B1(b));
    Td2Holds(B2(c));
    Td3Holds(B3(d));
    InvMixOfWords(w0, w1, w2, w3, InvSubCol(Column(B0(a), B1(b), B2(c), B3(d))));
    BytesXor(Xor4(w0, w1, w2, w3), k);
  }

  lemma LastEncryptWordBytes(a: bv32, b: bv32, c: bv32, d: bv32, k: bv32)
    ensures Bytes(LastEncryptWord(a, b, c, d, k)) == XorCol(SubCol(Column(B0(a), B1(b), B2(c), B3(d))), Bytes(k))
  {
    var w0, w1, w2, w3 := Te4(B0(a)), Te4(B1(b)), Te4(B2(c)), Te4(B3(d));
    Te4Holds(B0(a));
    Te4Holds(B1(b));
    Te4Holds(B2(c));
    Te4Holds(B3(d));
    AssembleBytes(w0, w1, w2, w3);
    BytesXor(Assemble(w0, w1, w2, w3), k);
  }

  lemma LastDecryptWordBytes(a: bv32, b: bv32, c: bv32, d: bv32, k: bv32)
    ensures Bytes(LastDecryptWord(a, b, c, d, k)) == XorCol(InvSubCol(Column(B0(a), B1(b), B2(c), B3(d))), Bytes(k))
  {
    var w0, w1, w2, w3 := Td4(B0(a)), Td4(B1(b)), Td4(B2(c)), Td4(B3(d));
    Td4Holds(B0(a));
    Td4Holds(B1(b));
    Td4Holds(B2(c));
    Td4Holds(B3(d));
    AssembleBytes(w0, w1, w2, w3);
    BytesXor(Assemble(w0, w1, w2, w3), k);
  }

  lemma InvMixWordBytes(w: bv32)
    ensures Bytes(InvMixWord(w)) == InvMixColumn(Bytes(w))
  {
    SubColInverse(Bytes(w));
    var s := SubCol(Bytes(w));
    Td0Holds(s.b0);
    Td1Holds(s.b1);
    Td2Holds(s.b2);
    Td3Holds(s.b3);
    InvMixOfWords(Td0(s.b0), Td1(s.b1), Td2(s.b2), Td3(s.b3), Bytes(w));
  }
}
