// The expressions of fped (eda/fped/expr.c): numbers with units.
module Expr {
  import opened Folding

  datatype Unit = Mm | Mil

  // struct num: n millimeters or mils, to some power
  datatype Num = Undef | Num(unit: Unit, exponent: int, n: real)

  datatype Expr =
    | Lit(num: Num)
    | Text(str: string)
    | Var(name: string)
    | Sin(a: Expr) | Cos(a: Expr) | Sqrt(a: Expr)
    | Minus(a: Expr)
    | Add(a: Expr, b: Expr) | Sub(a: Expr, b: Expr)
    | Mult(a: Expr, b: Expr) | Div(a: Expr, b: Expr)

  // The functions of the mathematical library, on reals.
  datatype Math = Math(sin: real -> real, cos: real -> real, sqrt: real -> real, pi: real)

  // All that is asked of sqrt.
  ghost predicate RootsOk(m: Math) {
    forall x | x >= 0.0 :: m.sqrt(x) >= 0.0 && m.sqrt(x) * m.sqrt(x) == x
  }

  // ----- powers of the ratio between the units -----

  const MIL_IN_MM := 0.0254

  // pow(MIL_IN_MM, exponent)
  function Pow(e: int): (r: real)
    ensures r > 0.0
    decreases if e < 0 then -e else e
  {
    if e == 0 then 1.0
    else if e > 0 then Pow(e - 1) * MIL_IN_MM
    else Pow(e + 1) / MIL_IN_MM
  }

  lemma PowNext(e: int)
    ensures Pow(e + 1) == Pow(e) * MIL_IN_MM
  {
    if e < 0 {
      assert Pow(e) == Pow(e + 1) / MIL_IN_MM;
    }
  }

  // z is the product of x and y; it is left folded up until an Unfold is in sight.
  ghost predicate IsProduct(z: real, x: real, y: real) {
    forall k {:trigger Unfold(k)} :: Unfold(k) ==> z == x * y
  }

  // x * y and x / y, folded up in the same way.
  ghost function Times(x: real, y: real): (r: real)
    ensures IsProduct(r, x, y)
  {
    ProductIs(x, y);
    var r :| IsProduct(r, x, y);
    r
  }

  ghost function Ratio(x: real, y: real): (r: real)
    requires y != 0.0
    ensures IsProduct(x, r, y)
  {
    RatioIs(x, y);
    var r :| IsProduct(x, r, y);
    r
  }

  lemma ProductIs(x: real, y: real)
    ensures IsProduct(x * y, x, y)
  {}

  lemma RatioIs(x: real, y: real)
    requires y != 0.0
    ensures IsProduct(x, x / y, y)
  {}

  lemma TimesIs(x: real, y: real)
    ensures Times(x, y) == x * y
  {
    assert Unfold(0);
  }

  lemma RatioIsQuotient(x: real, y: real)
    requires y != 0.0
    ensures Ratio(x, y) == x / y
  {
    assert Unfold(0);
    EqualFactors(Ratio(x, y), x / y, y);
  }

  // The laws of products, each on its own.
  lemma TimesProduct(z: real, x: real, y: real)
    requires IsProduct(z, x, y)
    ensures Times(x, y) == z
  {
    assert Unfold(0);
  }

  lemma TimesOneIs(x: real)
    ensures Times(x, 1.0) == x && Times(1.0, x) == x
  {
    assert Unfold(0);
  }

  lemma Interchange(x: real, y: real, s: real, t: real)
    ensures Times(Times(x, y), Times(s, t)) == Times(Times(x, s), Times(y, t))
  {
    var a, b, c, d := Times(x, y), Times(s, t), Times(x, s), Times(y, t);
    TimesIs(x, y);
    TimesIs(s, t);
    TimesIs(x, s);
    TimesIs(y, t);
    TimesIs(a, b);
    TimesIs(c, d);
    RawInterchange(x, y, s, t);
  }

  lemma RawInterchange(x: real, y: real, s: real, t: real)
    ensures (x * y) * (s * t) == (x * s) * (y * t)
  {
    assert (x * y) * (s * t) == x * (y * (s * t)) == x * (s * (y * t));
  }

  lemma Distributes(x: real, y: real, s: real)
    ensures Times(x + y, s) == Times(x, s) + Times(y, s) && Times(x - y, s) == Times(x, s) - Times(y, s)
  {
    TimesIs(x + y, s);
    TimesIs(x - y, s);
    TimesIs(x, s);
    TimesIs(y, s);
  }

  lemma TimesMinus(x: real, s: real)
    ensures Times(-x, s) == -Times(x, s)
  {
    TimesIs(-x, s);
    TimesIs(x, s);
  }

  lemma TimesSign(x: real, s: real)
    requires s > 0.0
    ensures (Times(x, s) == 0.0 <==> x == 0.0) && (Times(x, s) < 0.0 <==> x < 0.0)
  {
    TimesIs(x, s);
    if x > 0.0 {
      assert x * s > 0.0;
    } else if x < 0.0 {
      assert -x * s > 0.0;
    }
  }

  lemma RatioUnique(x: real, y: real, q: real)
    requires y != 0.0 && Times(q, y) == x
    ensures Ratio(x, y) == q
  {
    TimesIs(q, y);
    RatioIsQuotient(x, y);
  }

  lemma RatioTimes(x: real, y: real)
    requires y != 0.0
    ensures Times(Ratio(x, y), y) == x
  {
    TimesProduct(x, Ratio(x, y), y);
  }

  lemma {:induction false} PowSumUp(e: int, f: int)
    requires f >= 0
    ensures IsProduct(Pow(e + f), Pow(e), Pow(f))
    decreases f
  {
    if f == 0 {
      TimesOne(Pow(e));
    } else {
      PowSumUp(e, f - 1);
      PowNext(e + (f - 1));
      ScaledUp(Pow(e), Pow(f - 1), Pow(f), Pow(e + (f - 1)), Pow(e + f), MIL_IN_MM);
    }
  }

  lemma {:induction false} PowSumDown(e: int, f: int)
    requires f <= 0
    ensures IsProduct(Pow(e + f), Pow(e), Pow(f))
    decreases -f
  {
    if f == 0 {
      TimesOne(Pow(e));
    } else {
      PowSumDown(e, f + 1);
      PowNext(e + f);
      PowNext(f);
      ScaledDown(Pow(e), Pow(f), Pow(f + 1), Pow(e + f), Pow(e + (f + 1)), MIL_IN_MM);
    }
  }

  lemma PowSum(e: int, f: int)
    ensures IsProduct(Pow(e + f), Pow(e), Pow(f))
  {
    if f >= 0 {
      PowSumUp(e, f);
    } else {
      PowSumDown(e, f);
    }
  }

  lemma TimesOne(x: real)
    ensures IsProduct(x, x, 1.0) && IsProduct(x, 1.0, x)
  {}

  lemma ScaledUp(x: real, y: real, y': real, z: real, z': real, k: real)
    requires IsProduct(z, x, y) && y' == y * k && z' == z * k
    ensures IsProduct(z', x, y')
  {
    assert Unfold(0);
    calc {
      x * y';
      x * (y * k);
      (x * y) * k;
    }
  }

  lemma ScaledDown(x: real, y: real, y': real, z: real, z': real, k: real)
    requires k != 0.0 && IsProduct(z', x, y') && y' == y * k && z' == z * k
    ensures IsProduct(z, x, y)
  {
    assert Unfold(0);
    calc {
      z * k;
      x * (y * k);
      (x * y) * k;
    }
    EqualFactors(z, x * y, k);
  }

  lemma EqualFactors(x: real, y: real, k: real)
    requires k != 0.0 && x * k == y * k
    ensures x == y
  {
    assert (x - y) * k == 0.0;
  }

  // ----- evaluation, as in the code -----

  // mil_to_mm
  function MilToMm(n: real, exponent: int): real { n * Pow(exponent) }

  function Converted(x: Num, exponent: int): Num
    requires x.Num?
  {
    if x.unit == Mil then x.(unit := Mm, n := MilToMm(x.n, exponent)) else x
  }

  // What compatible_sum does to its arguments: the exponent used is that of the first.
  function ForSum(a: Num, b: Num): (Num, Num)
    requires a.Num? && b.Num?
  {
    if a.unit != b.unit then (Converted(a, a.exponent), Converted(b, a.exponent)) else (a, b)
  }

  // What compatible_mult does to its arguments.
  function ForMult(a: Num, b: Num): (Num, Num)
    requires a.Num? && b.Num?
  {
    if a.unit != b.unit then (Converted(a, a.exponent), Converted(b, b.exponent)) else (a, b)
  }

  // C's test of the low bit, and its shift
  predicate Odd(e: int) { e % 2 == 1 }
  function Half(e: int): int { e / 2 }

  function EvalSum(a: Num, b: Num, minus: bool): Num {
    if a.Undef? || b.Undef? then Undef
    else
      var (x, y) := ForSum(a, b);
      if x.exponent != y.exponent then Undef else Num(x.unit, x.exponent, if minus then x.n - y.n else x.n + y.n)
  }

  function EvalMult(a: Num, b: Num): Num {
    if a.Undef? || b.Undef? then Undef
    else
      var (x, y) := ForMult(a, b);
      Num(x.unit, a.exponent + b.exponent, x.n * y.n)
  }

  function EvalDiv(a: Num, b: Num): Num {
    if a.Undef? || b.Undef? || b.n == 0.0 then Undef
    else
      var (x, y) := ForMult(a, b);
      if y.n == 0.0 then Undef else Num(x.unit, a.exponent - b.exponent, x.n / y.n)
  }

  function Radians(x: real, pi: real): real { x / 180.0 * pi }

  // sin_cos: the angle must be dimensionless
  function EvalAngle(a: Num, fn: real -> real, pi: real): Num {
    if a.Undef? || a.exponent != 0 then Undef else a.(n := fn(Radians(a.n, pi)))
  }

  function EvalSqrt(a: Num, m: Math): Num {
    if a.Undef? || Odd(a.exponent) || a.n < 0.0 then Undef
    else a.(n := m.sqrt(a.n), exponent := Half(a.exponent))
  }

  // eval_num, with the values of variables given
  function Eval(e: Expr, env: string -> Num, m: Math): Num {
    match e
    case Lit(num) => num
    case Text(_) => Undef
    case Var(name) => env(name)
    case Sin(a) => EvalAngle(Eval(a, env, m), m.sin, m.pi)
    case Cos(a) => EvalAngle(Eval(a, env, m), m.cos, m.pi)
    case Sqrt(a) => EvalSqrt(Eval(a, env, m), m)
    case Minus(a) => var x := Eval(a, env, m); if x.Undef? then Undef else x.(n := -x.n)
    case Add(a, b) => EvalSum(Eval(a, env, m), Eval(b, env, m), false)
    case Sub(a, b) => EvalSum(Eval(a, env, m), Eval(b, env, m), true)
    case Mult(a, b) => EvalMult(Eval(a, env, m), Eval(b, env, m))
    case Div(a, b) => EvalDiv(Eval(a, env, m), Eval(b, env, m))
  }

  // ----- in numbers -----

  // A mil is 0.0254 mm, in lengths, areas, and what is per length.
  lemma MilsAdded(n: real, x: real)
    ensures EvalSum(Num(Mil, 0, n), Num(Mm, 0, x), false) == Num(Mm, 0, n + x)
    ensures EvalSum(Num(Mil, 1, n), Num(Mm, 1, x), false) == Num(Mm, 1, n * 0.0254 + x)
    ensures EvalSum(Num(Mil, 2, n), Num(Mm, 2, x), false) == Num(Mm, 2, n * (0.0254 * 0.0254) + x)
    ensures EvalSum(Num(Mil, -1, n), Num(Mm, -1, x), false) == Num(Mm, -1, n * (1.0 / 0.0254) + x)
  {
    assert Pow(1) == 0.0254 && Pow(2) == 0.0254 * 0.0254 && Pow(-1) == 1.0 / 0.0254;
  }

  // Numbers in the same unit stay in it.
  lemma SameUnit(u: Unit, e: int, f: int, n: real, x: real)
    ensures EvalSum(Num(u, e, n), Num(u, e, x), false) == Num(u, e, n + x)
    ensures EvalSum(Num(u, e, n), Num(u, e, x), true) == Num(u, e, n - x)
    ensures e != f ==> EvalSum(Num(u, e, n), Num(u, f, x), false) == EvalSum(Num(u, e, n), Num(u, f, x), true) == Undef
    ensures EvalMult(Num(u, e, n), Num(u, f, x)) == Num(u, e + f, n * x)
    ensures EvalDiv(Num(u, e, n), Num(u, f, x)) == if x == 0.0 then Undef else Num(u, e - f, n / x)
  {}

  // Angles are in degrees, and have no dimension.
  lemma Angles(u: Unit, e: int, n: real, fn: real -> real, pi: real)
    ensures EvalAngle(Num(u, e, n), fn, pi) == if e == 0 then Num(u, 0, fn(n * pi / 180.0)) else Undef
  {
    assert n / 180.0 * pi == n * pi / 180.0;
  }

  // Roots are taken of even powers.
  lemma Roots(u: Unit, k: int, n: real, m: Math)
    ensures EvalSqrt(Num(u, 2 * k, n), m) == if n >= 0.0 then Num(u, k, m.sqrt(n)) else Undef
    ensures EvalSqrt(Num(u, 2 * k + 1, n), m) == Undef
  {}

  // ----- physical quantities -----

  // Millimeters to some power, or nothing.
  datatype Quantity = Nothing | Quantity(exponent: int, mm: real)

  function Scale(u: Unit, exponent: int): (r: real)
    ensures r > 0.0
  {
    if u == Mil then Pow(exponent) else 1.0
  }

  // What a number means.
  ghost function Phys(x: Num): Quantity {
    if x.Undef? then Nothing else Quantity(x.exponent, Times(x.n, Scale(x.unit, x.exponent)))
  }

  ghost function PhysSum(a: Quantity, b: Quantity, minus: bool): Quantity {
    if a.Nothing? || b.Nothing? || a.exponent != b.exponent then Nothing
    else Quantity(a.exponent, if minus then a.mm - b.mm else a.mm + b.mm)
  }

  ghost function PhysMult(a: Quantity, b: Quantity): Quantity {
    if a.Nothing? || b.Nothing? then Nothing else Quantity(a.exponent + b.exponent, Times(a.mm, b.mm))
  }

  ghost function PhysDiv(a: Quantity, b: Quantity): Quantity {
    if a.Nothing? || b.Nothing? || b.mm == 0.0 then Nothing
    else Quantity(a.exponent - b.exponent, Ratio(a.mm, b.mm))
  }

  ghost function PhysAngle(a: Quantity, fn: real -> real, pi: real): Quantity {
    if a.Nothing? || a.exponent != 0 then Nothing else Quantity(0, fn(Radians(a.mm, pi)))
  }

  ghost function PhysSqrt(a: Quantity, m: Math): Quantity {
    if a.Nothing? || Odd(a.exponent) || a.mm < 0.0 then Nothing
    else Quantity(Half(a.exponent), m.sqrt(a.mm))
  }

  ghost function PhysMinus(a: Quantity): Quantity { if a.Nothing? then Nothing else Quantity(a.exponent, -a.mm) }

  // Evaluation without units: everything is in millimeters from the start.
  ghost function PhysEval(e: Expr, env: string -> Num, m: Math): Quantity {
    match e
    case Lit(num) => Phys(num)
    case Text(_) => Nothing
    case Var(name) => Phys(env(name))
    case Sin(a) => PhysAngle(PhysEval(a, env, m), m.sin, m.pi)
    case Cos(a) => PhysAngle(PhysEval(a, env, m), m.cos, m.pi)
    case Sqrt(a) => PhysSqrt(PhysEval(a, env, m), m)
    case Minus(a) => PhysMinus(PhysEval(a, env, m))
    case Add(a, b) => PhysSum(PhysEval(a, env, m), PhysEval(b, env, m), false)
    case Sub(a, b) => PhysSum(PhysEval(a, env, m), PhysEval(b, env, m), true)
    case Mult(a, b) => PhysMult(PhysEval(a, env, m), PhysEval(b, env, m))
    case Div(a, b) => PhysDiv(PhysEval(a, env, m), PhysEval(b, env, m))
  }

  // ----- the code computes physical quantities -----

  lemma ConvertedSame(x: Num)
    requires x.Num?
    ensures Phys(Converted(x, x.exponent)) == Phys(x)
  {
    TimesIs(x.n, Pow(x.exponent));
    TimesOneIs(Converted(x, x.exponent).n);
  }

  lemma ForSumSame(a: Num, b: Num)
    requires a.Num? && b.Num? && a.exponent == b.exponent
    ensures var (x, y) := ForSum(a, b);
            && x.Num? && y.Num? && x.unit == y.unit && x.exponent == y.exponent == a.exponent
            && Phys(x) == Phys(a) && Phys(y) == Phys(b)
  {
    ConvertedSame(a);
    ConvertedSame(b);
  }

  lemma SumPhys(a: Num, b: Num, minus: bool)
    ensures Phys(EvalSum(a, b, minus)) == PhysSum(Phys(a), Phys(b), minus)
  {
    if a.Num? && b.Num? && a.exponent == b.exponent {
      ForSumSame(a, b);
      var (x, y) := ForSum(a, b);
      Distributes(x.n, y.n, Scale(x.unit, x.exponent));
    }
  }

  lemma ScaleSum(u: Unit, e: int, f: int)
    ensures Scale(u, e + f) == Times(Scale(u, e), Scale(u, f))
  {
    PowSum(e, f);
    TimesProduct(Pow(e + f), Pow(e), Pow(f));
    TimesOneIs(1.0);
  }

  lemma ForMultSame(a: Num, b: Num)
    requires a.Num? && b.Num?
    ensures var (x, y) := ForMult(a, b);
            && x.Num? && y.Num? && x.unit == y.unit && x.exponent == a.exponent && y.exponent == b.exponent
            && Phys(x) == Phys(a) && Phys(y) == Phys(b)
  {
    ConvertedSame(a);
    ConvertedSame(b);
  }

  lemma MultPhys(a: Num, b: Num)
    ensures Phys(EvalMult(a, b)) == PhysMult(Phys(a), Phys(b))
  {
    if a.Num? && b.Num? {
      ForMultSame(a, b);
      var (x, y) := ForMult(a, b);
      TimesIs(x.n, y.n);
      ScaleSum(x.unit, a.exponent, b.exponent);
      Interchange(x.n, y.n, Scale(x.unit, a.exponent), Scale(x.unit, b.exponent));
      var z := EvalMult(a, b);
      assert z == Num(x.unit, a.exponent + b.exponent, Times(x.n, y.n));
    }
  }

  lemma ZeroPhys(x: Num)
    requires x.Num?
    ensures Phys(x).mm == 0.0 <==> x.n == 0.0
  {
    TimesSign(x.n, Scale(x.unit, x.exponent));
  }

  // A quotient, in units and in millimeters: both give back the dividend.
  lemma RatioMm(x: real, y: real, s: real, t: real, u: real)
    requires y != 0.0 && t > 0.0 && s == Times(u, t)
    ensures Times(y, t) != 0.0 && Times(Ratio(x, y), u) == Ratio(Times(x, s), Times(y, t))
  {
    TimesSign(y, t);
    RatioTimes(x, y);
    Interchange(Ratio(x, y), y, u, t);
    RatioUnique(Times(x, s), Times(y, t), Times(Ratio(x, y), u));
  }

  lemma DivPhys(a: Num, b: Num)
    ensures Phys(EvalDiv(a, b)) == PhysDiv(Phys(a), Phys(b))
  {
    if a.Num? && b.Num? {
      ForMultSame(a, b);
      var (x, y) := ForMult(a, b);
      ZeroPhys(b);
      ZeroPhys(y);
      if y.n != 0.0 {
        RatioIsQuotient(x.n, y.n);
        ScaleSum(x.unit, a.exponent - b.exponent, b.exponent);
        assert (a.exponent - b.exponent) + b.exponent == a.exponent;
        RatioMm(x.n, y.n, Scale(x.unit, a.exponent), Scale(x.unit, b.exponent), Scale(x.unit, a.exponent - b.exponent));
      }
    }
  }

  lemma AnglePhys(a: Num, fn: real -> real, pi: real)
    ensures Phys(EvalAngle(a, fn, pi)) == PhysAngle(Phys(a), fn, pi)
  {
    if a.Num? && a.exponent == 0 {
      TimesOneIs(a.n);
      TimesOneIs(fn(Radians(a.n, pi)));
    }
  }

  // Roots are unique, so they go through products.
  lemma RootOfProduct(m: Math, x: real, s: real)
    requires RootsOk(m) && x >= 0.0 && s > 0.0
    ensures m.sqrt(Times(x, Times(s, s))) == Times(m.sqrt(x), s)
  {
    var r, p := m.sqrt(x), Times(x, Times(s, s));
    TimesSign(s, s);
    TimesSign(x, Times(s, s));
    RootIs(m, x);
    RootIs(m, p);
    TimesSign(r, s);
    Interchange(r, s, r, s);
    UniqueRoot(m.sqrt(p), Times(r, s));
  }

  lemma RootIs(m: Math, x: real)
    requires RootsOk(m) && x >= 0.0
    ensures m.sqrt(x) >= 0.0 && Times(m.sqrt(x), m.sqrt(x)) == x
  {
    TimesIs(m.sqrt(x), m.sqrt(x));
  }

  lemma UniqueRoot(a: real, b: real)
    requires a >= 0.0 && b >= 0.0 && Times(a, a) == Times(b, b)
    ensures a == b
  {
    TimesIs(a, a);
    TimesIs(b, b);
    if a < b {
      Squares(a, b);
    } else if b < a {
      Squares(b, a);
    }
  }

  lemma Squares(a: real, b: real)
    requires 0.0 <= a < b
    ensures a * a < b * b
  {
    assert (b - a) * a >= 0.0;
    assert (b - a) * b > 0.0;
  }

  lemma SqrtPhys(a: Num, m: Math)
    requires RootsOk(m)
    ensures Phys(EvalSqrt(a, m)) == PhysSqrt(Phys(a), m)
  {
    if a.Num? && !Odd(a.exponent) {
      var h := Half(a.exponent);
      assert a.exponent == h + h;
      ScaleSum(a.unit, h, h);
      TimesSign(a.n, Scale(a.unit, a.exponent));
      if a.n >= 0.0 {
        RootOfProduct(m, a.n, Scale(a.unit, h));
      }
    }
  }

  // Evaluation refines the evaluation of physical quantities, whatever units are mixed.
  lemma {:induction false} EvalPhys(e: Expr, env: string -> Num, m: Math)
    requires RootsOk(m)
    ensures Phys(Eval(e, env, m)) == PhysEval(e, env, m)
    decreases e
  {
    match e
    case Lit(_) | Text(_) | Var(_) =>
    case Sin(a) =>
      EvalPhys(a, env, m);
      AnglePhys(Eval(a, env, m), m.sin, m.pi);
    case Cos(a) =>
      EvalPhys(a, env, m);
      AnglePhys(Eval(a, env, m), m.cos, m.pi);
    case Sqrt(a) =>
      EvalPhys(a, env, m);
      SqrtPhys(Eval(a, env, m), m);
    case Minus(a) =>
      EvalPhys(a, env, m);
      var x := Eval(a, env, m);
      if x.Num? {
        TimesMinus(x.n, Scale(x.unit, x.exponent));
      }
    case Add(a, b) =>
      EvalPhys(a, env, m);
      EvalPhys(b, env, m);
      SumPhys(Eval(a, env, m), Eval(b, env, m), false);
    case Sub(a, b) =>
      EvalPhys(a, env, m);
      EvalPhys(b, env, m);
      SumPhys(Eval(a, env, m), Eval(b, env, m), true);
    case Mult(a, b) =>
      EvalPhys(a, env, m);
      EvalPhys(b, env, m);
      MultPhys(Eval(a, env, m), Eval(b, env, m));
    case Div(a, b) =>
      EvalPhys(a, env, m);
      EvalPhys(b, env, m);
      DivPhys(Eval(a, env, m), Eval(b, env, m));
  }

  // ----- other units for the same lengths -----

  // The same expression, but for literals that are written in the other unit.
  predicate Rewritten(e: Expr, f: Expr) {
    match (e, f)
    case (Lit(x), Lit(y)) => x == y || Exchanged(x, y) || Exchanged(y, x)
    case (Text(s), Text(t)) => s == t
    case (Var(s), Var(t)) => s == t
    case (Sin(a), Sin(b)) => Rewritten(a, b)
    case (Cos(a), Cos(b)) => Rewritten(a, b)
    case (Sqrt(a), Sqrt(b)) => Rewritten(a, b)
    case (Minus(a), Minus(b)) => Rewritten(a, b)
    case (Add(a, b), Add(c, d)) => Rewritten(a, c) && Rewritten(b, d)
    case (Sub(a, b), Sub(c, d)) => Rewritten(a, c) && Rewritten(b, d)
    case (Mult(a, b), Mult(c, d)) => Rewritten(a, c) && Rewritten(b, d)
    case (Div(a, b), Div(c, d)) => Rewritten(a, c) && Rewritten(b, d)
    case _ => false
  }

  // x is n mil^e, y is the equal number of mm^e.
  predicate Exchanged(x: Num, y: Num) {
    x.Num? && y.Num? && x.unit == Mil && y.unit == Mm && y.exponent == x.exponent && y.n == x.n * Pow(x.exponent)
  }

  // All literals in millimeters.
  function InMm(e: Expr): Expr {
    match e
    case Lit(num) => if num.Num? && num.unit == Mil then Lit(Num(Mm, num.exponent, num.n * Pow(num.exponent))) else e
    case Text(_) | Var(_) => e
    case Sin(a) => Sin(InMm(a))
    case Cos(a) => Cos(InMm(a))
    case Sqrt(a) => Sqrt(InMm(a))
    case Minus(a) => Minus(InMm(a))
    case Add(a, b) => Add(InMm(a), InMm(b))
    case Sub(a, b) => Sub(InMm(a), InMm(b))
    case Mult(a, b) => Mult(InMm(a), InMm(b))
    case Div(a, b) => Div(InMm(a), InMm(b))
  }

  // Any expression can be rewritten with millimeters only, and back.
  lemma {:induction false} RewrittenInMm(e: Expr)
    ensures Rewritten(e, InMm(e)) && Rewritten(InMm(e), e)
  {
    match e
    case Lit(_) | Text(_) | Var(_) =>
    case Sin(_) | Cos(_) | Sqrt(_) | Minus(_) => RewrittenInMm(e.a);
    case Add(_, _) | Sub(_, _) | Mult(_, _) | Div(_, _) =>
      RewrittenInMm(e.a);
      RewrittenInMm(e.b);
  }

  lemma ExchangedPhys(x: Num, y: Num)
    ensures Exchanged(x, y) || Exchanged(y, x) ==> Phys(x) == Phys(y)
  {
    if Exchanged(x, y) {
      TimesIs(x.n, Pow(x.exponent));
      TimesOneIs(y.n);
    } else if Exchanged(y, x) {
      TimesIs(y.n, Pow(y.exponent));
      TimesOneIs(x.n);
    }
  }

  lemma {:induction false} RewrittenPhys(e: Expr, f: Expr, env: string -> Num, env': string -> Num, m: Math)
    requires Rewritten(e, f) && forall s :: Phys(env(s)) == Phys(env'(s))
    ensures PhysEval(e, env, m) == PhysEval(f, env', m)
    decreases e
  {
    match (e, f)
    case (Lit(x), Lit(y)) =>
      if x.Num? {
        ExchangedPhys(x, y);
      }
    case (Text(s), Text(t)) =>
    case (Var(s), Var(t)) =>
    case (Sin(a), Sin(b)) => RewrittenPhys(a, b, env, env', m);
    case (Cos(a), Cos(b)) => RewrittenPhys(a, b, env, env', m);
    case (Sqrt(a), Sqrt(b)) => RewrittenPhys(a, b, env, env', m);
    case (Minus(a), Minus(b)) => RewrittenPhys(a, b, env, env', m);
    case (Add(a, b), Add(c, d)) => RewrittenPhys(a, c, env, env', m); RewrittenPhys(b, d, env, env', m);
    case (Sub(a, b), Sub(c, d)) => RewrittenPhys(a, c, env, env', m); RewrittenPhys(b, d, env, env', m);
    case (Mult(a, b), Mult(c, d)) => RewrittenPhys(a, c, env, env', m); RewrittenPhys(b, d, env, env', m);
    case (Div(a, b), Div(c, d)) => RewrittenPhys(a, c, env, env', m); RewrittenPhys(b, d, env, env', m);
  }

  // Writing lengths in mils or millimeters, in an expression or behind its variables, is all the same:
  // the result is the same quantity, with the same exponent, or is undefined in both.
  lemma UnitsDoNotMatter(e: Expr, f: Expr, env: string -> Num, env': string -> Num, m: Math)
    requires RootsOk(m) && Rewritten(e, f) && forall s :: Phys(env(s)) == Phys(env'(s))
    ensures Phys(Eval(e, env, m)) == Phys(Eval(f, env', m))
    ensures Eval(e, env, m).Undef? <==> Eval(f, env', m).Undef?
    ensures Eval(e, env, m).Num? ==> Eval(e, env, m).exponent == Eval(f, env', m).exponent
  {
    EvalPhys(e, env, m);
    EvalPhys(f, env', m);
    RewrittenPhys(e, f, env, env', m);
  }
}
