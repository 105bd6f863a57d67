// Printing expressions in fped (eda/fped/unparse.c) with as few parentheses as possible, and
// reading them again (eda/fped/fpd.y, eda/fped/fpd.l).
module Unparse {
  import opened Wrappers
  import opened Expr

  datatype Suffix = NoUnit | WithUnit(unit: Unit) | WithPower(unit: Unit, exponent: int)

  datatype Token =
    | Number(n: real, suffix: Suffix)
    | Id(name: string)
    | Str(str: string)
    | Plus | Dash | Star | Slash | Open | Close

  // ----- printing -----

  // enum prec
  const ADD := 0
  const MULT := 1
  const UNARY := 2
  const PRIMARY := 3

  function Precedence(e: Expr): int {
    match e
    case Add(_, _) | Sub(_, _) => ADD
    case Mult(_, _) | Div(_, _) => MULT
    case Minus(_) => UNARY
    case _ => PRIMARY
  }

  // str_unit
  function UnitOf(x: Num): Suffix
    requires x.Num?
  {
    if x.exponent == 0 then NoUnit
    else if x.exponent == 1 then WithUnit(x.unit)
    else WithPower(x.unit, x.exponent)
  }

  // %lg with its sign
  function PrintNum(x: Num): seq<Token>
    requires x.Num?
  {
    if x.n < 0.0 then [Dash, Number(-x.n, UnitOf(x))] else [Number(x.n, UnitOf(x))]
  }

  // Literals that are undefined cannot be printed; the code never makes any.
  predicate Printable(e: Expr) {
    match e
    case Lit(num) => num.Num?
    case Text(_) | Var(_) => true
    case Sin(a) => Printable(a)
    case Cos(a) => Printable(a)
    case Sqrt(a) => Printable(a)
    case Minus(a) => Printable(a)
    case Add(a, b) => Printable(a) && Printable(b)
    case Sub(a, b) => Printable(a) && Printable(b)
    case Mult(a, b) => Printable(a) && Printable(b)
    case Div(a, b) => Printable(a) && Printable(b)
  }

  // unparse_op
  function Print(e: Expr, prec: int): seq<Token>
    requires Printable(e)
    decreases e, 1
  {
    if prec > Precedence(e) then [Open] + Plain(e) + [Close] else Plain(e)
  }

  function Plain(e: Expr): seq<Token>
    requires Printable(e)
    decreases e, 0
  {
    match e
    case Lit(num) => PrintNum(num)
    case Text(s) => [Str(s)]
    case Var(s) => [Id(s)]
    case Minus(a) => [Dash] + Print(a, UNARY)
    case Add(a, b) => Print(a, ADD) + [Plus] + Print(b, ADD)
    case Sub(a, b) => Print(a, ADD) + [Dash] + Print(b, MULT)
    case Mult(a, b) => Print(a, MULT) + [Star] + Print(b, MULT)
    case Div(a, b) => Print(a, MULT) + [Slash] + Print(b, PRIMARY)
    case Sin(a) => PrintFn("sin", a)
    case Cos(a) => PrintFn("cos", a)
    case Sqrt(a) => PrintFn("sqrt", a)
  }

  // unparse_fn
  function PrintFn(name: string, a: Expr): seq<Token>
    requires Printable(a)
    decreases a, 2
  {
    [Id(name), Open] + Print(a, ADD) + [Close]
  }

  // ----- reading -----

  // What has been read, and what is left to read.
  type Read = Option<(Expr, seq<Token>)>

  // The lexer knows lengths and plain numbers; a plain number counts as millimeters to the power of
  // zero. Only if lax, it also knows other powers.
  function ReadNumber(n: real, suffix: Suffix, lax: bool): Option<Num> {
    match suffix
    case NoUnit => Some(Num(Mm, 0, n))
    case WithUnit(u) => Some(Num(u, 1, n))
    case WithPower(u, e) => if lax then Some(Num(u, e, n)) else None
  }

  function ReadExpr(ts: seq<Token>, lax: bool): (r: Read)
    ensures r.Some? ==> |r.value.1| < |ts|
    decreases |ts|, 4
  {
    match ReadMult(ts, lax)
    case None => None
    case Some(m) => MoreSums(m.0, m.1, lax)
  }

  function MoreSums(acc: Expr, ts: seq<Token>, lax: bool): (r: Read)
    ensures r.Some? ==> |r.value.1| <= |ts|
    decreases |ts|, 3
  {
    if ts == [] || !(ts[0].Plus? || ts[0].Dash?) then Some((acc, ts))
    else
      match ReadMult(ts[1..], lax)
      case None => None
      case Some(m) => MoreSums(if ts[0].Plus? then Add(acc, m.0) else Sub(acc, m.0), m.1, lax)
  }

  function ReadMult(ts: seq<Token>, lax: bool): (r: Read)
    ensures r.Some? ==> |r.value.1| < |ts|
    decreases |ts|, 2
  {
    match ReadUnary(ts, lax)
    case None => None
    case Some(m) => MoreProducts(m.0, m.1, lax)
  }

  function MoreProducts(acc: Expr, ts: seq<Token>, lax: bool): (r: Read)
    ensures r.Some? ==> |r.value.1| <= |ts|
    decreases |ts|, 3
  {
    if ts == [] || !(ts[0].Star? || ts[0].Slash?) then Some((acc, ts))
    else
      match ReadUnary(ts[1..], lax)
      case None => None
      case Some(m) => MoreProducts(if ts[0].Star? then Mult(acc, m.0) else Div(acc, m.0), m.1, lax)
  }

  // The grammar has at most one sign before a primary expression; only if lax, it has more.
  function ReadUnary(ts: seq<Token>, lax: bool): (r: Read)
    ensures r.Some? ==> |r.value.1| < |ts|
    decreases |ts|, 1
  {
    if ts != [] && ts[0].Dash? then
      match if lax then ReadUnary(ts[1..], lax) else ReadPrimary(ts[1..], lax)
      case None => None
      case Some(m) => Some((Minus(m.0), m.1))
    else ReadPrimary(ts, lax)
  }

  function ReadPrimary(ts: seq<Token>, lax: bool): (r: Read)
    ensures r.Some? ==> |r.value.1| < |ts|
    decreases |ts|, 0
  {
    if ts == [] then None
    else
      match ts[0]
      case Number(n, suffix) =>
        var x := ReadNumber(n, suffix, lax);
        if x.None? then None else Some((Lit(x.value), ts[1..]))
      case Str(s) => Some((Text(s), ts[1..]))
      case Id(s) =>
        if |ts| > 1 && ts[1].Open? then
          match ReadClosed(ts[2..], lax)
          case None => None
          case Some(m) =>
            if s == "sin" then Some((Sin(m.0), m.1))
            else if s == "cos" then Some((Cos(m.0), m.1))
            else if s == "sqrt" then Some((Sqrt(m.0), m.1))
            else None
        else Some((Var(s), ts[1..]))
      case Open => ReadClosed(ts[1..], lax)
      case _ => None
  }

  // an expression and the closing parenthesis
  function ReadClosed(ts: seq<Token>, lax: bool): (r: Read)
    ensures r.Some? ==> |r.value.1| < |ts|
    decreases |ts|, 5
  {
    match ReadExpr(ts, lax)
    case None => None
    case Some(m) => if m.1 != [] && m.1[0].Close? then Some((m.0, m.1[1..])) else None
  }

  // All tokens make one expression.
  function Parse(ts: seq<Token>, lax: bool): Option<Expr> {
    var r := ReadExpr(ts, lax);
    if r.Some? && r.value.1 == [] then Some(r.value.0) else None
  }

  function Unparse(e: Expr): seq<Token>
    requires Printable(e)
  {
    Print(e, ADD)
  }

  // ----- when the grammar can read what is printed -----

  // It is printed with a sign in front.
  predicate Signed(e: Expr) { e.Minus? || (e.Lit? && e.num.Num? && e.num.n < 0.0) }

  // No sign directly follows a sign, and literals are lengths or plain numbers.
  predicate Readable(e: Expr) {
    match e
    case Lit(num) => num.Num? && num.exponent in {0, 1}
    case Text(_) | Var(_) => true
    case Sin(a) => Readable(a)
    case Cos(a) => Readable(a)
    case Sqrt(a) => Readable(a)
    case Minus(a) => Readable(a) && !Signed(a)
    case Add(a, b) => Readable(a) && Readable(b)
    case Sub(a, b) => Readable(a) && Readable(b)
    case Mult(a, b) => Readable(a) && Readable(b)
    case Div(a, b) => Readable(a) && Readable(b)
  }

  ghost predicate Same(e: Expr, f: Expr, env: string -> Num, m: Math) {
    PhysEval(e, env, m) == PhysEval(f, env, m)
  }

  // ----- quantities -----

  lemma SumAssociates(a: Quantity, b: Quantity, c: Quantity, minus: bool)
    ensures PhysSum(PhysSum(a, b, false), c, minus) == PhysSum(a, PhysSum(b, c, minus), false)
  {}

  lemma TimesAssociates(x: real, y: real, z: real)
    ensures Times(Times(x, y), z) == Times(x, Times(y, z))
  {
    TimesOneIs(x);
    TimesOneIs(z);
    Interchange(x, y, 1.0, z);
  }

  lemma ProductAssociates(a: Quantity, b: Quantity, c: Quantity)
    ensures PhysMult(PhysMult(a, b), c) == PhysMult(a, PhysMult(b, c))
  {
    if a.Quantity? && b.Quantity? && c.Quantity? {
      TimesAssociates(a.mm, b.mm, c.mm);
    }
  }

  lemma RatioAssociates(a: Quantity, b: Quantity, c: Quantity)
    ensures PhysDiv(PhysMult(a, b), c) == PhysMult(a, PhysDiv(b, c))
  {
    if a.Quantity? && b.Quantity? && c.Quantity? && c.mm != 0.0 {
      TimesAssociates(a.mm, Ratio(b.mm, c.mm), c.mm);
      RatioTimes(b.mm, c.mm);
      RatioUnique(Times(a.mm, b.mm), c.mm, Times(a.mm, Ratio(b.mm, c.mm)));
    }
  }

  lemma SignedLiteral(x: Num)
    requires x.Num?
    ensures Phys(x.(n := -x.n)) == PhysMinus(Phys(x))
  {
    TimesMinus(x.n, Scale(x.unit, x.exponent));
  }

  lemma UnitlessLiteral(x: Num, lax: bool)
    requires x.Num? && (lax || x.exponent in {0, 1})
    ensures ReadNumber(x.n, UnitOf(x), lax).Some? && Phys(ReadNumber(x.n, UnitOf(x), lax).value) == Phys(x)
  {}

  // ----- what reading does with what was printed -----

  // What follows does not go on with a product, and does not make a call of a name.
  predicate EndsProduct(ts: seq<Token>) { ts == [] || ts[0].Plus? || ts[0].Dash? || ts[0].Close? }
  predicate EndsName(ts: seq<Token>) { ts == [] || !ts[0].Open? }

  function Fine(e: Expr, lax: bool): bool { lax || Readable(e) }

  // The first token of a printed operand is a sign only if the operand is printed with one.
  lemma FirstToken(e: Expr, prec: int)
    requires Printable(e) && prec in {UNARY, PRIMARY}
    ensures Print(e, prec) != []
    ensures Print(e, prec)[0].Dash? <==> Signed(e) && prec <= Precedence(e)
  {
    match e
    case Minus(a) => assert Plain(e)[0] == Dash;
    case Lit(x) => assert Plain(e)[0] == PrintNum(x)[0];
    case Text(t) => assert Plain(e)[0] == Str(t);
    case Var(t) => assert Plain(e)[0] == Id(t);
    case Sin(a) => assert Plain(e) == PrintFn("sin", a);
    case Cos(a) => assert Plain(e) == PrintFn("cos", a);
    case Sqrt(a) => assert Plain(e) == PrintFn("sqrt", a);
    case _ => assert Print(e, prec)[0] == Open;
  }

  // Printing for a product or for an operand is the same but for products themselves.
  lemma OperandLevels(e: Expr)
    requires Printable(e)
    ensures Precedence(e) != MULT ==> Print(e, MULT) == Print(e, UNARY)
    ensures Precedence(e) != ADD ==> Print(e, MULT) == Plain(e)
  {}

  lemma Joined(a: seq<Token>, t: Token, b: seq<Token>, rest: seq<Token>)
    ensures a + [t] + b + rest == a + ([t] + b + rest)
    ensures ([t] + b + rest)[1..] == b + rest && ([t] + b + rest)[0] == t
  {
    assert [t] + b + rest == [t] + (b + rest);
  }

  lemma Enclosed(a: seq<Token>, rest: seq<Token>)
    ensures ([Open] + a + [Close] + rest)[1..] == a + ([Close] + rest)
    ensures ([Close] + rest)[1..] == rest
  {
    assert [Open] + a + [Close] + rest == [Open] + (a + ([Close] + rest));
  }

  // One more term, or factor, once it is read.
  lemma SumStep(acc: Expr, minus: bool, s: seq<Token>, rest: seq<Token>, lax: bool, f: Option<Expr>)
    requires EndsProduct(rest)
    requires if f.Some? then ReadMult(s + rest, lax) == MoreProducts(f.value, rest, lax) else ReadMult(s + rest, lax) == None
    ensures MoreSums(acc, [if minus then Dash else Plus] + s + rest, lax)
         == if f.None? then None
            else MoreSums(if minus then Sub(acc, f.value) else Add(acc, f.value), rest, lax)
  {
    Joined([], if minus then Dash else Plus, s, rest);
  }

  lemma ProductStep(acc: Expr, div: bool, s: seq<Token>, rest: seq<Token>, lax: bool, f: Option<Expr>)
    requires if f.Some? then ReadUnary(s + rest, lax) == Some((f.value, rest)) else ReadUnary(s + rest, lax) == None
    ensures MoreProducts(acc, [if div then Slash else Star] + s + rest, lax)
         == if f.None? then None
            else MoreProducts(if div then Div(acc, f.value) else Mult(acc, f.value), rest, lax)
  {
    Joined([], if div then Slash else Star, s, rest);
  }

  // A sum or product in a sum or product, as tokens.
  lemma TokensTakenIn(first: Token, a: seq<Token>, op: Token, b: seq<Token>, rest: seq<Token>)
    ensures [first] + (a + [op] + b) + rest == [first] + a + ([op] + b + rest)
  {
    assert [op] + b + rest == [op] + (b + rest);
  }

  // An expression, up to where sums may go on.
  lemma {:induction false} ExprIsRead(e: Expr, rest: seq<Token>, lax: bool, env: string -> Num, m: Math) returns (f: Expr)
    requires Printable(e) && EndsProduct(rest)
    ensures Print(e, ADD) == Plain(e)
    ensures Fine(e, lax) ==> ReadExpr(Plain(e) + rest, lax) == MoreSums(f, rest, lax) && Same(f, e, env, m)
    ensures !Fine(e, lax) ==> ReadExpr(Plain(e) + rest, lax) == None
    decreases e, 6
  {
    match e
    case Add(a, b) => f := SumIsRead(e, a, b, false, rest, lax, env, m);
    case Sub(a, b) => f := SumIsRead(e, a, b, true, rest, lax, env, m);
    case _ =>
      OperandLevels(e);
      f := ProductIsRead(e, rest, lax, env, m);
  }

  lemma {:induction false} SumIsRead(e: Expr, a: Expr, b: Expr, minus: bool, rest: seq<Token>, lax: bool,
                                     env: string -> Num, m: Math) returns (f: Expr)
    requires Printable(e) && EndsProduct(rest) && e == if minus then Sub(a, b) else Add(a, b)
    ensures Fine(e, lax) ==> ReadExpr(Plain(e) + rest, lax) == MoreSums(f, rest, lax) && Same(f, e, env, m)
    ensures !Fine(e, lax) ==> ReadExpr(Plain(e) + rest, lax) == None
    decreases e, 5
  {
    var op, level := if minus then Dash else Plus, if minus then MULT else ADD;
    Joined(Print(a, ADD), op, Print(b, level), rest);
    f := ExprIsRead(a, [op] + Print(b, level) + rest, lax, env, m);
    if Fine(a, lax) {
      f := SumGoesOn(f, b, minus, rest, lax, env, m);
    }
  }

  // One more term of a sum; a sum that is added is taken in term by term.
  lemma {:induction false} SumGoesOn(acc: Expr, e: Expr, minus: bool, rest: seq<Token>, lax: bool,
                                     env: string -> Num, m: Math) returns (f: Expr)
    requires Printable(e) && EndsProduct(rest)
    ensures var ts := [if minus then Dash else Plus] + Print(e, if minus then MULT else ADD) + rest;
            if Fine(e, lax)
            then MoreSums(acc, ts, lax) == MoreSums(f, rest, lax)
              && PhysEval(f, env, m) == PhysSum(PhysEval(acc, env, m), PhysEval(e, env, m), minus)
            else MoreSums(acc, ts, lax) == None
    decreases e, 11
  {
    if !minus && e.Add? {
      f := SumTakenIn(acc, e, e.a, e.b, false, rest, lax, env, m);
    } else if !minus && e.Sub? {
      f := SumTakenIn(acc, e, e.a, e.b, true, rest, lax, env, m);
    } else {
      f := TermGoesOn(acc, e, minus, rest, lax, env, m);
    }
  }

  lemma {:induction false} TermGoesOn(acc: Expr, e: Expr, minus: bool, rest: seq<Token>, lax: bool,
                                      env: string -> Num, m: Math) returns (f: Expr)
    requires Printable(e) && EndsProduct(rest) && (minus || !(e.Add? || e.Sub?))
    ensures var ts := [if minus then Dash else Plus] + Print(e, if minus then MULT else ADD) + rest;
            if Fine(e, lax)
            then MoreSums(acc, ts, lax) == MoreSums(f, rest, lax)
              && PhysEval(f, env, m) == PhysSum(PhysEval(acc, env, m), PhysEval(e, env, m), minus)
            else MoreSums(acc, ts, lax) == None
    decreases e, 10, 1
  {
    OperandLevels(e);
    var s := Print(e, MULT);
    assert s == Print(e, if minus then MULT else ADD);
    f := ProductIsRead(e, rest, lax, env, m);
    if Fine(e, lax) {
      SumStep(acc, minus, s, rest, lax, Some(f));
    } else {
      SumStep(acc, minus, s, rest, lax, None);
    }
    SumValue(acc, f, e, minus, env, m);
    f := if minus then Sub(acc, f) else Add(acc, f);
  }

  lemma SumValue(acc: Expr, f: Expr, e: Expr, minus: bool, env: string -> Num, m: Math)
    ensures Same(f, e, env, m) ==> PhysEval(if minus then Sub(acc, f) else Add(acc, f), env, m)
                                   == PhysSum(PhysEval(acc, env, m), PhysEval(e, env, m), minus)
  {
    SumEvals(acc, f, minus, env, m);
  }

  lemma SumEvals(a: Expr, b: Expr, minus: bool, env: string -> Num, m: Math)
    ensures PhysEval(if minus then Sub(a, b) else Add(a, b), env, m) == PhysSum(PhysEval(a, env, m), PhysEval(b, env, m), minus)
  {
    if minus {
      calc {
        PhysEval(Sub(a, b), env, m);
        PhysSum(PhysEval(a, env, m), PhysEval(b, env, m), true);
      }
    } else {
      calc {
        PhysEval(Add(a, b), env, m);
        PhysSum(PhysEval(a, env, m), PhysEval(b, env, m), false);
      }
    }
  }

  lemma {:induction false} SumTakenIn(acc: Expr, e: Expr, a: Expr, b: Expr, minus: bool, rest: seq<Token>, lax: bool,
                                      env: string -> Num, m: Math) returns (f: Expr)
    requires Printable(e) && EndsProduct(rest) && e == if minus then Sub(a, b) else Add(a, b)
    ensures var ts := [Plus] + Plain(e) + rest;
            if Fine(e, lax)
            then MoreSums(acc, ts, lax) == MoreSums(f, rest, lax)
              && PhysEval(f, env, m) == PhysSum(PhysEval(acc, env, m), PhysEval(e, env, m), false)
            else MoreSums(acc, ts, lax) == None
    decreases e, 7
  {
    var op, level := if minus then Dash else Plus, if minus then MULT else ADD;
    var more := [op] + Print(b, level) + rest;
    TokensTakenIn(Plus, Print(a, ADD), op, Print(b, level), rest);
    assert Plain(e) == Print(a, ADD) + [op] + Print(b, level);
    f := SumGoesOn(acc, a, false, more, lax, env, m);
    if Fine(a, lax) {
      f := SumGoesOn(f, b, minus, rest, lax, env, m);
      SumAssociates(PhysEval(acc, env, m), PhysEval(a, env, m), PhysEval(b, env, m), minus);
    }
  }

  // A product, up to where it may go on.
  lemma {:induction false} ProductIsRead(e: Expr, rest: seq<Token>, lax: bool, env: string -> Num, m: Math) returns (f: Expr)
    requires Printable(e) && EndsName(rest)
    ensures Fine(e, lax) ==> ReadMult(Print(e, MULT) + rest, lax) == MoreProducts(f, rest, lax) && Same(f, e, env, m)
    ensures !Fine(e, lax) ==> ReadMult(Print(e, MULT) + rest, lax) == None
    decreases e, if Precedence(e) < MULT then 10 else 3, 0
  {
    if e.Mult? || e.Div? {
      var op, level := if e.Div? then Slash else Star, if e.Div? then PRIMARY else MULT;
      Joined(Print(e.a, MULT), op, Print(e.b, level), rest);
      f := ProductIsRead(e.a, [op] + Print(e.b, level) + rest, lax, env, m);
      if Fine(e.a, lax) {
        f := ProductGoesOn(f, e.b, e.Div?, rest, lax, env, m);
      }
    } else {
      OperandLevels(e);
      f := UnaryIsRead(e, UNARY, rest, lax, env, m);
    }
  }

  // One more factor of a product; a product that is multiplied is taken in factor by factor.
  lemma {:induction false} ProductGoesOn(acc: Expr, e: Expr, div: bool, rest: seq<Token>, lax: bool,
                                         env: string -> Num, m: Math) returns (f: Expr)
    requires Printable(e) && EndsName(rest)
    ensures var ts := [if div then Slash else Star] + Print(e, if div then PRIMARY else MULT) + rest;
            if Fine(e, lax)
            then MoreProducts(acc, ts, lax) == MoreProducts(f, rest, lax)
              && PhysEval(f, env, m)
                 == if div then PhysDiv(PhysEval(acc, env, m), PhysEval(e, env, m))
                    else PhysMult(PhysEval(acc, env, m), PhysEval(e, env, m))
            else MoreProducts(acc, ts, lax) == None
    decreases e, 11
  {
    if !div && (e.Mult? || e.Div?) {
      f := ProductTakenIn(acc, e, e.a, e.b, e.Div?, rest, lax, env, m);
    } else {
      var level := if div then PRIMARY else UNARY;
      OperandLevels(e);
      f := UnaryIsRead(e, level, rest, lax, env, m);
      ProductStep(acc, div, Print(e, level), rest, lax, if Fine(e, lax) then Some(f) else None);
      f := if div then Div(acc, f) else Mult(acc, f);
    }
  }

  lemma {:induction false} ProductTakenIn(acc: Expr, e: Expr, a: Expr, b: Expr, div: bool, rest: seq<Token>, lax: bool,
                                          env: string -> Num, m: Math) returns (f: Expr)
    requires Printable(e) && EndsName(rest) && e == if div then Div(a, b) else Mult(a, b)
    ensures var ts := [Star] + Plain(e) + rest;
            if Fine(e, lax)
            then MoreProducts(acc, ts, lax) == MoreProducts(f, rest, lax)
              && PhysEval(f, env, m) == PhysMult(PhysEval(acc, env, m), PhysEval(e, env, m))
            else MoreProducts(acc, ts, lax) == None
    decreases e, 7
  {
    var op, level := if div then Slash else Star, if div then PRIMARY else MULT;
    var more := [op] + Print(b, level) + rest;
    TokensTakenIn(Star, Print(a, MULT), op, Print(b, level), rest);
    assert Plain(e) == Print(a, MULT) + [op] + Print(b, level);
    f := ProductGoesOn(acc, a, false, more, lax, env, m);
    if Fine(a, lax) {
      f := ProductGoesOn(f, b, div, rest, lax, env, m);
      ProductAssociates(PhysEval(acc, env, m), PhysEval(a, env, m), PhysEval(b, env, m));
      RatioAssociates(PhysEval(acc, env, m), PhysEval(a, env, m), PhysEval(b, env, m));
    }
  }

  // An operand, and only that.
  lemma {:induction false} UnaryIsRead(e: Expr, prec: int, rest: seq<Token>, lax: bool, env: string -> Num, m: Math)
    returns (f: Expr)
    requires Printable(e) && prec in {UNARY, PRIMARY} && EndsName(rest)
    ensures Fine(e, lax) ==> ReadUnary(Print(e, prec) + rest, lax) == Some((f, rest)) && Same(f, e, env, m)
    ensures !Fine(e, lax) ==> ReadUnary(Print(e, prec) + rest, lax) == None
    decreases e, if prec > Precedence(e) then 9 else 0
  {
    if prec > Precedence(e) {
      Enclosed(Plain(e), rest);
      f := ClosedIsRead(e, rest, lax, env, m);
    } else {
      match e
      case Minus(a) =>
        f := SignIsRead(a, rest, lax, env, m);
      case Lit(x) =>
        f := LiteralIsRead(x, rest, lax, env, m);
      case Text(_) | Var(_) =>
        f := e;
      case Sin(a) =>
        f := FnIsRead("sin", a, rest, lax, env, m);
        f := Sin(f);
      case Cos(a) =>
        f := FnIsRead("cos", a, rest, lax, env, m);
        f := Cos(f);
      case Sqrt(a) =>
        f := FnIsRead("sqrt", a, rest, lax, env, m);
        f := Sqrt(f);
    }
  }

  lemma {:induction false} ClosedIsRead(e: Expr, rest: seq<Token>, lax: bool, env: string -> Num, m: Math) returns (f: Expr)
    requires Printable(e)
    ensures Fine(e, lax) ==> ReadClosed(Plain(e) + ([Close] + rest), lax) == Some((f, rest)) && Same(f, e, env, m)
    ensures !Fine(e, lax) ==> ReadClosed(Plain(e) + ([Close] + rest), lax) == None
    decreases e, 8
  {
    f := ExprIsRead(e, [Close] + rest, lax, env, m);
    assert ([Close] + rest)[1..] == rest;
  }

  lemma {:induction false} FnIsRead(name: string, a: Expr, rest: seq<Token>, lax: bool, env: string -> Num, m: Math)
    returns (f: Expr)
    requires Printable(a)
    ensures var ts := PrintFn(name, a) + rest;
            && |ts| > 1 && ts[0] == Id(name) && ts[1] == Open
            && (Fine(a, lax) ==> ReadClosed(ts[2..], lax) == Some((f, rest)) && Same(f, a, env, m))
            && (!Fine(a, lax) ==> ReadClosed(ts[2..], lax) == None)
    decreases a, 9
  {
    f := ClosedIsRead(a, rest, lax, env, m);
    assert PrintFn(name, a) + rest == [Id(name), Open] + (Plain(a) + ([Close] + rest));
  }

  lemma LiteralIsRead(x: Num, rest: seq<Token>, lax: bool, env: string -> Num, m: Math) returns (f: Expr)
    requires x.Num?
    ensures Fine(Lit(x), lax) ==> ReadUnary(PrintNum(x) + rest, lax) == Some((f, rest)) && Same(f, Lit(x), env, m)
    ensures !Fine(Lit(x), lax) ==> ReadUnary(PrintNum(x) + rest, lax) == None
  {
    var y := if x.n < 0.0 then x.(n := -x.n) else x;
    var number := [Number(y.n, UnitOf(x))] + rest;
    var r := ReadNumber(y.n, UnitOf(y), lax);
    assert number[1..] == rest;
    assert ReadPrimary(number, lax) == if r.None? then None else Some((Lit(r.value), rest));
    if lax || x.exponent in {0, 1} {
      UnitlessLiteral(y, lax);
      SignedLiteral(y);
      assert y.(n := -y.n) == x || y == x;
    }
    f := if r.None? then Lit(x) else if x.n < 0.0 then Minus(Lit(r.value)) else Lit(r.value);
    if x.n < 0.0 {
      assert PrintNum(x) + rest == [Dash] + number;
      assert ([Dash] + number)[1..] == number;
    }
  }

  lemma {:induction false} SignIsRead(a: Expr, rest: seq<Token>, lax: bool, env: string -> Num, m: Math) returns (f: Expr)
    requires Printable(a) && EndsName(rest)
    ensures var ts := [Dash] + Print(a, UNARY) + rest;
            if Fine(Minus(a), lax) then ReadUnary(ts, lax) == Some((f, rest)) && Same(f, Minus(a), env, m)
            else ReadUnary(ts, lax) == None
    decreases a, 12
  {
    FirstToken(a, UNARY);
    Joined([], Dash, Print(a, UNARY), rest);
    f := UnaryIsRead(a, UNARY, rest, lax, env, m);
    f := Minus(f);
    assert (Print(a, UNARY) + rest)[0] == Print(a, UNARY)[0];
  }

  // ----- the round trip -----

  // The grammar reads what is printed exactly if it is readable, and it then means the same: it has
  // the same value as the original, or is undefined with it, whatever the variables are.
  lemma RoundTrip(e: Expr, lax: bool, env: string -> Num, m: Math)
    requires Printable(e) && RootsOk(m)
    ensures Parse(Unparse(e), lax).Some? <==> lax || Readable(e)
    ensures lax || Readable(e) ==> Phys(Eval(Parse(Unparse(e), lax).value, env, m)) == Phys(Eval(e, env, m))
  {
    var f := ExprIsRead(e, [], lax, env, m);
    assert Unparse(e) + [] == Unparse(e);
    EvalPhys(e, env, m);
    if lax || Readable(e) {
      EvalPhys(Parse(Unparse(e), lax).value, env, m);
    }
  }

  function Wrapped(e: Expr, parentheses: bool): seq<Token>
    requires Printable(e)
  {
    if parentheses then [Open] + Unparse(e) + [Close] else Unparse(e)
  }

  lemma PlainIs(e: Expr)
    requires Printable(e)
    ensures Unparse(e) == Plain(e)
  {
    assert Print(e, ADD) == Plain(e);
  }

  lemma PrintIs(e: Expr)
    requires Printable(e)
    ensures Print(e, ADD) == Unparse(e)
    ensures Print(e, MULT) == Wrapped(e, e.Add? || e.Sub?)
    ensures Print(e, UNARY) == Wrapped(e, e.Add? || e.Sub? || e.Mult? || e.Div?)
    ensures Print(e, PRIMARY) == Wrapped(e, e.Add? || e.Sub? || e.Mult? || e.Div? || e.Minus?)
  {
    PlainIs(e);
  }

  // Where parentheses are put: around sums that are taken away, but nowhere else in sums.
  lemma SumsPrinted(a: Expr, b: Expr)
    requires Printable(a) && Printable(b)
    ensures Unparse(Add(a, b)) == Unparse(a) + [Plus] + Unparse(b)
    ensures Unparse(Sub(a, b)) == Unparse(a) + [Dash] + Wrapped(b, b.Add? || b.Sub?)
  {
    PlainIs(Add(a, b));
    PlainIs(Sub(a, b));
    PrintIs(a);
    PrintIs(b);
  }

  // Around sums in products, and behind a '/' also around products and signs.
  lemma ProductsPrinted(a: Expr, b: Expr)
    requires Printable(a) && Printable(b)
    ensures Unparse(Mult(a, b)) == Wrapped(a, a.Add? || a.Sub?) + [Star] + Wrapped(b, b.Add? || b.Sub?)
    ensures Unparse(Div(a, b))
         == Wrapped(a, a.Add? || a.Sub?) + [Slash] + Wrapped(b, b.Add? || b.Sub? || b.Mult? || b.Div? || b.Minus?)
  {
    PlainIs(Mult(a, b));
    PlainIs(Div(a, b));
    PrintIs(a);
    PrintIs(b);
  }

  // Around sums and products behind a sign, and around what functions are applied to.
  lemma OthersPrinted(a: Expr)
    requires Printable(a)
    ensures Unparse(Minus(a)) == [Dash] + Wrapped(a, a.Add? || a.Sub? || a.Mult? || a.Div?)
    ensures Unparse(Sin(a)) == [Id("sin"), Open] + Unparse(a) + [Close]
    ensures Unparse(Cos(a)) == [Id("cos"), Open] + Unparse(a) + [Close]
    ensures Unparse(Sqrt(a)) == [Id("sqrt"), Open] + Unparse(a) + [Close]
  {
    PlainIs(Minus(a));
    PlainIs(Sin(a));
    PlainIs(Cos(a));
    PlainIs(Sqrt(a));
    PrintIs(a);
  }

  // Numbers have their sign in front and their unit behind, unless they have no dimension.
  lemma NumberPrinted(u: Unit, e: int, n: real)
    ensures var suffix := if e == 0 then NoUnit else if e == 1 then WithUnit(u) else WithPower(u, e);
            Unparse(Lit(Num(u, e, n))) == if n < 0.0 then [Dash, Number(-n, suffix)] else [Number(n, suffix)]
  {
    PlainIs(Lit(Num(u, e, n)));
  }

  // Two signs in a row are printed, but not read.
  lemma DoubleSign(x: string, env: string -> Num, m: Math)
    requires RootsOk(m)
    ensures Unparse(Minus(Minus(Var(x)))) == [Dash, Dash, Id(x)]
    ensures Parse([Dash, Dash, Id(x)], false).None? && Parse([Dash, Dash, Id(x)], true).Some?
  {
    var e := Minus(Minus(Var(x)));
    assert Print(Var(x), UNARY) == [Id(x)];
    assert Print(Minus(Var(x)), UNARY) == [Dash] + [Id(x)];
    assert Print(e, ADD) == [Dash] + ([Dash] + [Id(x)]);
    RoundTrip(e, false, env, m);
    RoundTrip(e, true, env, m);
  }
}
