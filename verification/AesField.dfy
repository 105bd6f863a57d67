// Arithmetic in GF(2^8) and on the columns of the cipher state (FIPS 197, sections 4 and 5):
// MixColumn, InvMixColumn and the S-box, with the proof that each inverse undoes its partner
// and that InvMixColumn is linear.
module AesField {
  import opened AesTables

  // ----- bytes as elements of GF(2^8), section 4 -----

  function Add(a: bv8, b: bv8): bv8 { a ^ b }

  function Double(a: bv8): bv8 { a << 1 }
  function Carry(a: bv8): bv8 { if a & 0x80 != 0 then 0x1b else 0 }
  function Xtime(a: bv8): bv8 { Add(Double(a), Carry(a)) }

  function Mul3(a: bv8): bv8 { Add(Xtime(a), a) }
  function Mul9(a: bv8): bv8 { Add(Xtime(Xtime(Xtime(a))), a) }
  function MulB(a: bv8): bv8 { Add(Add(Xtime(Xtime(Xtime(a))), Xtime(a)), a) }
  function MulD(a: bv8): bv8 { Add(Add(Xtime(Xtime(Xtime(a))), Xtime(Xtime(a))), a) }
  function MulE(a: bv8): bv8 { Add(Add(Xtime(Xtime(Xtime(a))), Xtime(Xtime(a))), Xtime(a)) }

  function Sum4(a: bv8, b: bv8, c: bv8, d: bv8): bv8 { Add(Add(Add(a, b), c), d) }

  lemma Exchange(a: bv8, b: bv8, c: bv8, d: bv8)
    ensures Add(Add(a, b), Add(c, d)) == Add(Add(a, c), Add(b, d))
  {
    assert (a ^ b) ^ (c ^ d) == (a ^ c) ^ (b ^ d);
  }

  lemma AddCancels(a: bv8, k: bv8)
    ensures Add(Add(a, k), k) == a
  {
    assert (a ^ k) ^ k == a;
  }

  lemma DoubleLinear(a: bv8, b: bv8)
    ensures Double(Add(a, b)) == Add(Double(a), Double(b))
  {
    assert (a ^ b) << 1 == (a << 1) ^ (b << 1);
  }

  lemma CarryLinear(a: bv8, b: bv8)
    ensures Carry(Add(a, b)) == Add(Carry(a), Carry(b))
  {
    assert ((a ^ b) & 0x80 != 0) == ((a & 0x80 != 0) != (b & 0x80 != 0));
  }

  lemma XtimeLinear(a: bv8, b: bv8)
    ensures Xtime(Add(a, b)) == Add(Xtime(a), Xtime(b))
  {
    DoubleLinear(a, b);
    CarryLinear(a, b);
    Exchange(Double(a), Double(b), Carry(a), Carry(b));
  }

  lemma MulLinear(a: bv8, b: bv8)
    ensures Mul9(Add(a, b)) == Add(Mul9(a), Mul9(b))
    ensures MulB(Add(a, b)) == Add(MulB(a), MulB(b))
    ensures MulD(Add(a, b)) == Add(MulD(a), MulD(b))
    ensures MulE(Add(a, b)) == Add(MulE(a), MulE(b))
  {
    var a1, b1 := Xtime(a), Xtime(b);
    var a2, b2 := Xtime(a1), Xtime(b1);
    var a3, b3 := Xtime(a2), Xtime(b2);
    XtimeLinear(a, b);
    XtimeLinear(a1, b1);
    XtimeLinear(a2, b2);
    Exchange(a3, b3, a, b);
    Exchange(a3, b3, a1, b1);
    Exchange(a3, b3, a2, b2);
    Exchange(Add(a3, a1), Add(b3, b1), a, b);
    Exchange(Add(a3, a2), Add(b3, b2), a, b);
    Exchange(Add(a3, a2), Add(b3, b2), a1, b1);
  }

  lemma Sum4Linear(a: bv8, b: bv8, c: bv8, d: bv8, e: bv8, f: bv8, g: bv8, h: bv8)
    ensures Sum4(Add(a, e), Add(b, f), Add(c, g), Add(d, h)) == Add(Sum4(a, b, c, d), Sum4(e, f, g, h))
  {
    Exchange(a, e, b, f);
    Exchange(Add(a, b), Add(e, f), c, g);
    Exchange(Add(Add(a, b), c), Add(Add(e, f), g), d, h);
  }

  // ----- the S-box, section 5.1.1: the byte that table Te4 repeats, and its inverse -----

  function S(x: bv8): bv8 { (Te4(x) & 0xff) as bv8 }
  function Si(x: bv8): bv8 { (Td4(x) & 0xff) as bv8 }

  lemma SboxInverse(x: bv8)
    ensures Si(S(x)) == x
  {
  }

  // ----- columns, section 5.1.3 and section 5.3.3 -----

  datatype Column = Column(b0: bv8, b1: bv8, b2: bv8, b3: bv8)

  function XorCol(a: Column, b: Column): Column {
    Column(Add(a.b0, b.b0), Add(a.b1, b.b1), Add(a.b2, b.b2), Add(a.b3, b.b3))
  }

  function MixColumn(c: Column): Column {
    Column(Sum4(Xtime(c.b0), Mul3(c.b1), c.b2, c.b3),
           Sum4(c.b0, Xtime(c.b1), Mul3(c.b2), c.b3),
           Sum4(c.b0, c.b1, Xtime(c.b2), Mul3(c.b3)),
           Sum4(Mul3(c.b0), c.b1, c.b2, Xtime(c.b3)))
  }

  function InvMixColumn(c: Column): Column {
    Column(Sum4(MulE(c.b0), MulB(c.b1), MulD(c.b2), Mul9(c.b3)),
           Sum4(Mul9(c.b0), MulE(c.b1), MulB(c.b2), MulD(c.b3)),
           Sum4(MulD(c.b0), Mul9(c.b1), MulE(c.b2), MulB(c.b3)),
           Sum4(MulB(c.b0), MulD(c.b1), Mul9(c.b2), MulE(c.b3)))
  }

  lemma InvMixLinear(a: Column, b: Column)
    ensures InvMixColumn(XorCol(a, b)) == XorCol(InvMixColumn(a), InvMixColumn(b))
  {
    MulLinear(a.b0, b.b0);
    MulLinear(a.b1, b.b1);
    MulLinear(a.b2, b.b2);
    MulLinear(a.b3, b.b3);
    Sum4Linear(MulE(a.b0), MulB(a.b1), MulD(a.b2), Mul9(a.b3), MulE(b.b0), MulB(b.b1), MulD(b.b2), Mul9(b.b3));
    Sum4Linear(Mul9(a.b0), MulE(a.b1), MulB(a.b2), MulD(a.b3), Mul9(b.b0), MulE(b.b1), MulB(b.b2), MulD(b.b3));
    Sum4Linear(MulD(a.b0), Mul9(a.b1), MulE(a.b2), MulB(a.b3), MulD(b.b0), Mul9(b.b1), MulE(b.b2), MulB(b.b3));
    Sum4Linear(MulB(a.b0), MulD(a.b1), Mul9(a.b2), MulE(a.b3), MulB(b.b0), MulD(b.b1), Mul9(b.b2), MulE(b.b3));
  }

  lemma MixLinear(a: Column, b: Column)
    ensures MixColumn(XorCol(a, b)) == XorCol(MixColumn(a), MixColumn(b))
  {
    XtimeLinear(a.b0, b.b0);
    XtimeLinear(a.b1, b.b1);
    XtimeLinear(a.b2, b.b2);
    XtimeLinear(a.b3, b.b3);
    Exchange(Xtime(a.b0), Xtime(b.b0), a.b0, b.b0);
    Exchange(Xtime(a.b1), Xtime(b.b1), a.b1, b.b1);
    Exchange(Xtime(a.b2), Xtime(b.b2), a.b2, b.b2);
    Exchange(Xtime(a.b3), Xtime(b.b3), a.b3, b.b3);
    Sum4Linear(Xtime(a.b0), Mul3(a.b1), a.b2, a.b3, Xtime(b.b0), Mul3(b.b1), b.b2, b.b3);
    Sum4Linear(a.b0, Xtime(a.b1), Mul3(a.b2), a.b3, b.b0, Xtime(b.b1), Mul3(b.b2), b.b3);
    Sum4Linear(a.b0, a.b1, Xtime(a.b2), Mul3(a.b3), b.b0, b.b1, Xtime(b.b2), Mul3(b.b3));
    Sum4Linear(Mul3(a.b0), a.b1, a.b2, Xtime(a.b3), Mul3(b.b0), b.b1, b.b2, Xtime(b.b3));
  }

  lemma Rotate(a: bv8, b: bv8, c: bv8, d: bv8)
    ensures Sum4(a, b, c, d) == Sum4(b, c, d, a)
  {
    calc {
      Sum4(a, b, c, d);
      ((a ^ b) ^ c) ^ d;
      ((b ^ c) ^ d) ^ a;
      Sum4(b, c, d, a);
    }
  }

  // A polynomial of degree at most four over GF(2), in the power of Xtime, acting on a byte.
  datatype Poly = Poly(c4: bv8, c3: bv8, c2: bv8, c1: bv8, c0: bv8)

  function Plus(p: Poly, q: Poly): Poly {
    Poly(Add(p.c4, q.c4), Add(p.c3, q.c3), Add(p.c2, q.c2), Add(p.c1, q.c1), Add(p.c0, q.c0))
  }

  function Pick(c: bv8, x: bv8): bv8 { c & x }

  function Sum5(a: bv8, b: bv8, c: bv8, d: bv8, e: bv8): bv8 { Add(Sum4(a, b, c, d), e) }

  function Combine(p: Poly, x4: bv8, x3: bv8, x2: bv8, x1: bv8, x0: bv8): bv8 {
    Sum5(Pick(p.c4, x4), Pick(p.c3, x3), Pick(p.c2, x2), Pick(p.c1, x1), Pick(p.c0, x0))
  }

  function At(p: Poly, x: bv8): bv8 {
    Combine(p, Xtime(Xtime(Xtime(Xtime(x)))), Xtime(Xtime(Xtime(x))), Xtime(Xtime(x)), Xtime(x), x)
  }

  lemma PickAdd(c: bv8, d: bv8, x: bv8)
    ensures Add(Pick(c, x), Pick(d, x)) == Pick(Add(c, d), x)
  {
    calc {
      Add(Pick(c, x), Pick(d, x));
      (c & x) ^ (d & x);
      (c ^ d) & x;
      Pick(Add(c, d), x);
    }
  }

  lemma Sum5Linear(a4: bv8, a3: bv8, a2: bv8, a1: bv8, a0: bv8, b4: bv8, b3: bv8, b2: bv8, b1: bv8, b0: bv8,
                   r4: bv8, r3: bv8, r2: bv8, r1: bv8, r0: bv8)
    requires r4 == Add(a4, b4) && r3 == Add(a3, b3) && r2 == Add(a2, b2) && r1 == Add(a1, b1) && r0 == Add(a0, b0)
    ensures Add(Sum5(a4, a3, a2, a1, a0), Sum5(b4, b3, b2, b1, b0)) == Sum5(r4, r3, r2, r1, r0)
  {
    Sum4Linear(a4, a3, a2, a1, b4, b3, b2, b1);
    Exchange(Sum4(a4, a3, a2, a1), a0, Sum4(b4, b3, b2, b1), b0);
  }

  lemma CombineAdd(p: Poly, q: Poly, x4: bv8, x3: bv8, x2: bv8, x1: bv8, x0: bv8)
    ensures Add(Combine(p, x4, x3, x2, x1, x0), Combine(q, x4, x3, x2, x1, x0))
         == Combine(Plus(p, q), x4, x3, x2, x1, x0)
  {
    PickAdd(p.c4, q.c4, x4);
    PickAdd(p.c3, q.c3, x3);
    PickAdd(p.c2, q.c2, x2);
    PickAdd(p.c1, q.c1, x1);
    PickAdd(p.c0, q.c0, x0);
    var r := Plus(p, q);
    Sum5Linear(Pick(p.c4, x4), Pick(p.c3, x3), Pick(p.c2, x2), Pick(p.c1, x1), Pick(p.c0, x0),
               Pick(q.c4, x4), Pick(q.c3, x3), Pick(q.c2, x2), Pick(q.c1, x1), Pick(q.c0, x0),
               Pick(r.c4, x4), Pick(r.c3, x3), Pick(r.c2, x2), Pick(r.c1, x1), Pick(r.c0, x0));
  }

  lemma AtAdd(p: Poly, q: Poly, x: bv8)
    ensures Add(At(p, x), At(q, x)) == At(Plus(p, q), x)
  {
    CombineAdd(p, q, Xtime(Xtime(Xtime(Xtime(x)))), Xtime(Xtime(Xtime(x))), Xtime(Xtime(x)), Xtime(x), x);
  }

  lemma AtSum4(p: Poly, q: Poly, r: Poly, t: Poly, x: bv8)
    ensures Sum4(At(p, x), At(q, x), At(r, x), At(t, x)) == At(Plus(Plus(Plus(p, q), r), t), x)
  {
    AtAdd(p, q, x);
    AtAdd(Plus(p, q), r, x);
    AtAdd(Plus(Plus(p, q), r), t, x);
  }

  lemma Powers(a: bv8)
    ensures At(Poly(0x00, 0x00, 0x00, 0x00, 0x00), a) == 0
    ensures At(Poly(0x00, 0x00, 0x00, 0x00, 0xff), a) == a && At(Poly(0x00, 0x00, 0x00, 0xff, 0x00), a) == Xtime(a)
    ensures At(Poly(0x00, 0x00, 0xff, 0x00, 0x00), a) == Xtime(Xtime(a)) && At(Poly(0x00, 0xff, 0x00, 0x00, 0x00), a) == Xtime(Xtime(Xtime(a)))
    ensures At(Poly(0xff, 0x00, 0x00, 0x00, 0x00), a) == Xtime(Xtime(Xtime(Xtime(a))))
  {
    assert forall x: bv8 :: Add(x, 0) == x && Add(0, x) == x;
  }

  lemma Forms(a: bv8)
    ensures Mul9(a) == At(Poly(0x00, 0xff, 0x00, 0x00, 0xff), a) && MulB(a) == At(Poly(0x00, 0xff, 0x00, 0xff, 0xff), a)
    ensures MulD(a) == At(Poly(0x00, 0xff, 0xff, 0x00, 0xff), a) && MulE(a) == At(Poly(0x00, 0xff, 0xff, 0xff, 0x00), a)
    ensures Mul9(Xtime(a)) == At(Poly(0xff, 0x00, 0x00, 0xff, 0x00), a) && MulB(Xtime(a)) == At(Poly(0xff, 0x00, 0xff, 0xff, 0x00), a)
    ensures MulD(Xtime(a)) == At(Poly(0xff, 0xff, 0x00, 0xff, 0x00), a) && MulE(Xtime(a)) == At(Poly(0xff, 0xff, 0xff, 0x00, 0x00), a)
  {
    Powers(a);
    AtAdd(Poly(0x00, 0xff, 0x00, 0x00, 0x00), Poly(0x00, 0x00, 0x00, 0x00, 0xff), a);
    AtAdd(Poly(0x00, 0xff, 0x00, 0x00, 0x00), Poly(0x00, 0x00, 0x00, 0xff, 0x00), a);
    AtAdd(Poly(0x00, 0xff, 0x00, 0xff, 0x00), Poly(0x00, 0x00, 0x00, 0x00, 0xff), a);
    AtAdd(Poly(0x00, 0xff, 0x00, 0x00, 0x00), Poly(0x00, 0x00, 0xff, 0x00, 0x00), a);
    AtAdd(Poly(0x00, 0xff, 0xff, 0x00, 0x00), Poly(0x00, 0x00, 0x00, 0x00, 0xff), a);
    AtAdd(Poly(0x00, 0xff, 0xff, 0x00, 0x00), Poly(0x00, 0x00, 0x00, 0xff, 0x00), a);
    AtAdd(Poly(0xff, 0x00, 0x00, 0x00, 0x00), Poly(0x00, 0x00, 0x00, 0xff, 0x00), a);
    AtAdd(Poly(0xff, 0x00, 0x00, 0x00, 0x00), Poly(0x00, 0x00, 0xff, 0x00, 0x00), a);
    AtAdd(Poly(0xff, 0x00, 0xff, 0x00, 0x00), Poly(0x00, 0x00, 0x00, 0xff, 0x00), a);
    AtAdd(Poly(0xff, 0x00, 0x00, 0x00, 0x00), Poly(0x00, 0xff, 0x00, 0x00, 0x00), a);
    AtAdd(Poly(0xff, 0xff, 0x00, 0x00, 0x00), Poly(0x00, 0x00, 0x00, 0xff, 0x00), a);
    AtAdd(Poly(0xff, 0xff, 0x00, 0x00, 0x00), Poly(0x00, 0x00, 0xff, 0x00, 0x00), a);
  }

  // Multiplication by Mul3 = Xtime + 1 after the four inverse coefficients.
  lemma Forms3(a: bv8)
    ensures Mul9(Mul3(a)) == At(Poly(0xff, 0xff, 0x00, 0xff, 0xff), a)
    ensures MulB(Mul3(a)) == At(Poly(0xff, 0xff, 0xff, 0x00, 0xff), a)
    ensures MulD(Mul3(a)) == At(Poly(0xff, 0x00, 0xff, 0xff, 0xff), a)
    ensures MulE(Mul3(a)) == At(Poly(0xff, 0x00, 0x00, 0xff, 0x00), a)
  {
    MulLinear(Xtime(a), a);
    Forms(a);
    AtAdd(Poly(0xff, 0x00, 0x00, 0xff, 0x00), Poly(0x00, 0xff, 0x00, 0x00, 0xff), a);
    AtAdd(Poly(0xff, 0x00, 0xff, 0xff, 0x00), Poly(0x00, 0xff, 0x00, 0xff, 0xff), a);
    AtAdd(Poly(0xff, 0xff, 0x00, 0xff, 0x00), Poly(0x00, 0xff, 0xff, 0x00, 0xff), a);
    AtAdd(Poly(0xff, 0xff, 0xff, 0x00, 0x00), Poly(0x00, 0xff, 0xff, 0xff, 0x00), a);
  }

  // The rows of InvMixColumn against the first column of MixColumn.
  lemma Unmix0(a: bv8)
    ensures Sum4(MulE(Xtime(a)), MulB(a), MulD(a), Mul9(Mul3(a))) == a
  {
    Forms(a);
    Forms3(a);
    Powers(a);
    AtSum4(Poly(0xff, 0xff, 0xff, 0x00, 0x00), Poly(0x00, 0xff, 0x00, 0xff, 0xff),
           Poly(0x00, 0xff, 0xff, 0x00, 0xff), Poly(0xff, 0xff, 0x00, 0xff, 0xff), a);
  }

  lemma Unmix1(a: bv8)
    ensures Sum4(Mul9(Xtime(a)), MulE(a), MulB(a), MulD(Mul3(a))) == 0
  {
    Forms(a);
    Forms3(a);
    Powers(a);
    AtSum4(Poly(0xff, 0x00, 0x00, 0xff, 0x00), Poly(0x00, 0xff, 0xff, 0xff, 0x00),
           Poly(0x00, 0xff, 0x00, 0xff, 0xff), Poly(0xff, 0x00, 0xff, 0xff, 0xff), a);
  }

  lemma Unmix2(a: bv8)
    ensures Sum4(MulD(Xtime(a)), Mul9(a), MulE(a), MulB(Mul3(a))) == 0
  {
    Forms(a);
    Forms3(a);
    Powers(a);
    AtSum4(Poly(0xff, 0xff, 0x00, 0xff, 0x00), Poly(0x00, 0xff, 0x00, 0x00, 0xff),
           Poly(0x00, 0xff, 0xff, 0xff, 0x00), Poly(0xff, 0xff, 0xff, 0x00, 0xff), a);
  }

  lemma Unmix3(a: bv8)
    ensures Sum4(MulB(Xtime(a)), MulD(a), Mul9(a), MulE(Mul3(a))) == 0
  {
    Forms(a);
    Forms3(a);
    Powers(a);
    AtSum4(Poly(0xff, 0x00, 0xff, 0xff, 0x00), Poly(0x00, 0xff, 0xff, 0x00, 0xff),
           Poly(0x00, 0xff, 0x00, 0x00, 0xff), Poly(0xff, 0x00, 0x00, 0xff, 0x00), a);
  }

  lemma Alone(x: bv8)
    ensures Sum4(x, 0, 0, 0) == x && Sum4(0, x, 0, 0) == x && Sum4(0, 0, x, 0) == x && Sum4(0, 0, 0, x) == x
    ensures Xtime(0) == 0 && Mul3(0) == 0
  {
    assert x ^ 0 == x && 0 ^ x == x;
  }

  // InvMixColumn undoes MixColumn on a column with one byte set, hence, both being linear, on
  // every column.
  lemma MixInverse0(a: bv8)
    ensures InvMixColumn(MixColumn(Column(a, 0, 0, 0))) == Column(a, 0, 0, 0)
  {
    Alone(a);
    Alone(Xtime(a));
    Alone(Mul3(a));
    assert MixColumn(Column(a, 0, 0, 0)) == Column(Xtime(a), a, a, Mul3(a));
    Unmix0(a);
    Unmix1(a);
    Unmix2(a);
    Unmix3(a);
  }

  lemma MixInverse1(a: bv8)
    ensures InvMixColumn(MixColumn(Column(0, a, 0, 0))) == Column(0, a, 0, 0)
  {
    Alone(a);
    Alone(Xtime(a));
    Alone(Mul3(a));
    assert MixColumn(Column(0, a, 0, 0)) == Column(Mul3(a), Xtime(a), a, a);
    Unmix0(a);
    Unmix1(a);
    Unmix2(a);
    Unmix3(a);
    Rotate(MulE(Mul3(a)), MulB(Xtime(a)), MulD(a), Mul9(a));
    Rotate(Mul9(Mul3(a)), MulE(Xtime(a)), MulB(a), MulD(a));
    Rotate(MulD(Mul3(a)), Mul9(Xtime(a)), MulE(a), MulB(a));
    Rotate(MulB(Mul3(a)), MulD(Xtime(a)), Mul9(a), MulE(a));
  }

  lemma MixInverse2(a: bv8)
    ensures InvMixColumn(MixColumn(Column(0, 0, a, 0))) == Column(0, 0, a, 0)
  {
    Alone(a);
    Alone(Xtime(a));
    Alone(Mul3(a));
    assert MixColumn(Column(0, 0, a, 0)) == Column(a, Mul3(a), Xtime(a), a);
    Unmix0(a);
    Unmix1(a);
    Unmix2(a);
    Unmix3(a);
    Rotate(MulE(a), MulB(Mul3(a)), MulD(Xtime(a)), Mul9(a));
    Rotate(MulB(Mul3(a)), MulD(Xtime(a)), Mul9(a), MulE(a));
    Rotate(Mul9(a), MulE(Mul3(a)), MulB(Xtime(a)), MulD(a));
    Rotate(MulE(Mul3(a)), MulB(Xtime(a)), MulD(a), Mul9(a));
    Rotate(MulD(a), Mul9(Mul3(a)), MulE(Xtime(a)), MulB(a));
    Rotate(Mul9(Mul3(a)), MulE(Xtime(a)), MulB(a), MulD(a));
    Rotate(MulB(a), MulD(Mul3(a)), Mul9(Xtime(a)), MulE(a));
    Rotate(MulD(Mul3(a)), Mul9(Xtime(a)), MulE(a), MulB(a));
  }

  lemma MixInverse3(a: bv8)
    ensures InvMixColumn(MixColumn(Column(0, 0, 0, a))) == Column(0, 0, 0, a)
  {
    Alone(a);
    Alone(Xtime(a));
    Alone(Mul3(a));
    assert MixColumn(Column(0, 0, 0, a)) == Column(a, a, Mul3(a), Xtime(a));
    Unmix0(a);
    Unmix1(a);
    Unmix2(a);
    Unmix3(a);
    Rotate(MulE(a), MulB(a), MulD(Mul3(a)), Mul9(Xtime(a)));
    Rotate(MulB(a), MulD(Mul3(a)), Mul9(Xtime(a)), MulE(a));
    Rotate(MulD(Mul3(a)), Mul9(Xtime(a)), MulE(a), MulB(a));
    Rotate(Mul9(a), MulE(a), MulB(Mul3(a)), MulD(Xtime(a)));
    Rotate(MulE(a), MulB(Mul3(a)), MulD(Xtime(a)), Mul9(a));
    Rotate(MulB(Mul3(a)), MulD(Xtime(a)), Mul9(a), MulE(a));
    Rotate(MulD(a), Mul9(a), MulE(Mul3(a)), MulB(Xtime(a)));
    Rotate(Mul9(a), MulE(Mul3(a)), MulB(Xtime(a)), MulD(a));
    Rotate(MulE(Mul3(a)), MulB(Xtime(a)), MulD(a), Mul9(a));
    Rotate(MulB(a), MulD(a), Mul9(Mul3(a)), MulE(Xtime(a)));
    Rotate(MulD(a), Mul9(Mul3(a)), MulE(Xtime(a)), MulB(a));
    Rotate(Mul9(Mul3(a)), MulE(Xtime(a)), MulB(a), MulD(a));
  }

  lemma MixInverse(c: Column)
    ensures InvMixColumn(MixColumn(c)) == c
  {
    var e0, e1 := Column(c.b0, 0, 0, 0), Column(0, c.b1, 0, 0);
    var e2, e3 := Column(0, 0, c.b2, 0), Column(0, 0, 0, c.b3);
    var e01, e23 := XorCol(e0, e1), XorCol(e2, e3);
    assert e01 == Column(c.b0, c.b1, 0, 0) && e23 == Column(0, 0, c.b2, c.b3);
    assert XorCol(e01, e23) == c;
    MixInverse0(c.b0);
    MixInverse1(c.b1);
    MixInverse2(c.b2);
    MixInverse3(c.b3);
    MixLinear(e0, e1);
    MixLinear(e2, e3);
    MixLinear(e01, e23);
    InvMixLinear(MixColumn(e0), MixColumn(e1));
    InvMixLinear(MixColumn(e2), MixColumn(e3));
    InvMixLinear(MixColumn(e01), MixColumn(e23));
  }
}
