// The evaluation of variables in fped (eda/fped/expr.c): a variable may be defined through others,
// even through itself, which a flag detects.
module Variables {
  import opened Wrappers
  import opened Expr

  class Variable {
    const name: string
    var visited: bool
    constructor (name: string)
      ensures this.name == name && !visited
    {
      this.name, visited := name, false;
    }
  }

  // A table, with the current row if there is one, and else with the active row.
  datatype Table = Table(vars: seq<Variable>, curr: Option<seq<Expr>>, active: seq<Expr>)

  datatype Loop = Loop(name: string, currValue: Option<real>, initialized: bool, n: real, active: int)

  class Frame {
    const tables: seq<Table>
    const loops: seq<Loop>
    const currParent: Frame?   // during generation
    const activeFrame: Frame?  // the frame of the active reference
    ghost const depth: nat

    constructor (tables: seq<Table>, loops: seq<Loop>, currParent: Frame?, activeFrame: Frame?, ghost depth: nat)
      ensures this.tables == tables && this.loops == loops
      ensures this.currParent == currParent && this.activeFrame == activeFrame && this.depth == depth
    {
      this.tables, this.loops, this.currParent, this.activeFrame := tables, loops, currParent, activeFrame;
      this.depth := depth;
    }
  }

  function Parent(f: Frame): Frame? { if f.currParent != null then f.currParent else f.activeFrame }

  function Row(t: Table): seq<Expr> { if t.curr.Some? then t.curr.value else t.active }

  // Rows have a value for each variable, all variables are in world, and the chain of parents ends.
  ghost predicate WellMade(f: Frame, world: set<Variable>)
    decreases f.depth
  {
    && (forall t | t in f.tables :: |t.vars| <= |Row(t)| && forall v | v in t.vars :: v in world)
    && (Parent(f) != null ==> Parent(f).depth < f.depth && WellMade(Parent(f), world))
  }

  // ----- what a name stands for in a frame -----

  datatype Meaning = Defined(v: Variable, e: Expr) | LoopValue(num: Num) | Unknown

  function InRow(vars: seq<Variable>, row: seq<Expr>, name: string): (r: Meaning)
    requires |vars| <= |row|
    ensures r.Defined? ==> r.v in vars
    ensures !r.LoopValue?
  {
    if vars == [] then Unknown
    else if vars[0].name == name then Defined(vars[0], row[0])
    else InRow(vars[1..], row[1..], name)
  }

  function InTables(ts: seq<Table>, name: string): (r: Meaning)
    requires forall t | t in ts :: |t.vars| <= |Row(t)|
    ensures r.Defined? ==> exists t :: t in ts && r.v in t.vars
    ensures !r.LoopValue?
  {
    if ts == [] then Unknown
    else
      var r := InRow(ts[0].vars, Row(ts[0]), name);
      if r.Defined? then r else InTables(ts[1..], name)
  }

  function ValueOfLoop(l: Loop): Num {
    if l.currValue.None? then Num(Mm, 0, l.n + l.active as real)
    else if !l.initialized then Undef
    else Num(Mm, 0, l.currValue.value)
  }

  function InLoops(ls: seq<Loop>, name: string): (r: Meaning)
    ensures !r.Defined?
  {
    if ls == [] then Unknown
    else if ls[0].name == name then LoopValue(ValueOfLoop(ls[0]))
    else InLoops(ls[1..], name)
  }

  ghost function InFrame(f: Frame, world: set<Variable>, name: string): (r: Meaning)
    requires WellMade(f, world)
    ensures r.Defined? ==> r.v in world
  {
    var r := InTables(f.tables, name);
    if r.Defined? then r else InLoops(f.loops, name)
  }

  // ----- values -----

  // The value of an expression in a frame, while the variables in seen are being evaluated.
  ghost function Value(e: Expr, f: Frame, world: set<Variable>, seen: set<Variable>, m: Math): Num
    requires WellMade(f, world)
    decreases |world - seen|, 1, e
  {
    match e
    case Lit(num) => num
    case Text(_) => Undef
    case Var(name) => ValueOfName(name, f, world, seen, m)
    case Sin(a) => EvalAngle(Value(a, f, world, seen, m), m.sin, m.pi)
    case Cos(a) => EvalAngle(Value(a, f, world, seen, m), m.cos, m.pi)
    case Sqrt(a) => EvalSqrt(Value(a, f, world, seen, m), m)
    case Minus(a) => Negated(Value(a, f, world, seen, m))
    case Add(a, b) => EvalSum(Value(a, f, world, seen, m), Value(b, f, world, seen, m), false)
    case Sub(a, b) => EvalSum(Value(a, f, world, seen, m), Value(b, f, world, seen, m), true)
    case Mult(a, b) => EvalMult(Value(a, f, world, seen, m), Value(b, f, world, seen, m))
    case Div(a, b) => EvalDiv(Value(a, f, world, seen, m), Value(b, f, world, seen, m))
  }

  ghost function ValueOfName(name: string, f: Frame, world: set<Variable>, seen: set<Variable>, m: Math): Num
    requires WellMade(f, world)
    decreases |world - seen|, 0, f.depth
  {
    match InFrame(f, world, name)
    case Defined(v, e) =>
      if v in seen then Undef
      else
        Shrinks(world, seen, v);
        Value(e, f, world, seen + {v}, m)
    case LoopValue(num) => num
    case Unknown => if Parent(f) == null then Undef else ValueOfName(name, Parent(f), world, seen, m)
  }

  function Negated(x: Num): Num { if x.Undef? then Undef else x.(n := -x.n) }

  lemma Shrinks(world: set<Variable>, seen: set<Variable>, v: Variable)
    requires v in world && v !in seen
    ensures |world - (seen + {v})| < |world - seen|
  {
    assert world - (seen + {v}) == (world - seen) - {v};
  }

  // ----- where a name is looked up -----

  // No table before the i-th has a variable of this name, and in the i-th the j-th is the first.
  ghost predicate FirstAt(ts: seq<Table>, name: string, i: nat, j: nat) {
    && i < |ts| && j < |ts[i].vars| && ts[i].vars[j].name == name
    && (forall k | 0 <= k < j :: ts[i].vars[k].name != name)
    && forall k | 0 <= k < i :: NotAmong(ts[k].vars, name)
  }

  ghost predicate NotAmong(vars: seq<Variable>, name: string) { forall k | 0 <= k < |vars| :: vars[k].name != name }

  // The first variable of a name counts, with its value in the current row, or if there is none in the
  // active row; while it is being evaluated it has no value.
  lemma TableLookup(f: Frame, world: set<Variable>, seen: set<Variable>, m: Math, name: string, i: nat, j: nat, row: seq<Expr>)
    requires WellMade(f, world) && FirstAt(f.tables, name, i, j)
    requires f.tables[i].curr == Some(row) || (f.tables[i].curr == None && row == f.tables[i].active)
    ensures f.tables[i].vars[j] in world && j < |row|
    ensures ValueOfName(name, f, world, seen, m)
         == if f.tables[i].vars[j] in seen then Undef else Value(row[j], f, world, seen + {f.tables[i].vars[j]}, m)
  {
    var t := f.tables[i];
    assert t in f.tables && t.vars[j] in t.vars;
    InTablesAt(f.tables, name, i, j);
    InRowAt(t.vars, row, name, j);
  }

  lemma {:induction false} InTablesAt(ts: seq<Table>, name: string, i: nat, j: nat)
    requires (forall t | t in ts :: |t.vars| <= |Row(t)|) && FirstAt(ts, name, i, j)
    ensures InRow(ts[i].vars, Row(ts[i]), name).Defined?
    ensures InTables(ts, name) == InRow(ts[i].vars, Row(ts[i]), name)
  {
    assert ts[i] in ts;
    InRowAt(ts[i].vars, Row(ts[i]), name, j);
    if i > 0 {
      assert NotAmong(ts[0].vars, name);
      InRowNot(ts[0].vars, Row(ts[0]), name);
      InTablesAt(ts[1..], name, i - 1, j);
    }
  }

  lemma {:induction false} InRowAt(vars: seq<Variable>, row: seq<Expr>, name: string, j: nat)
    requires |vars| <= |row| && j < |vars| && vars[j].name == name && forall k | 0 <= k < j :: vars[k].name != name
    ensures InRow(vars, row, name) == Defined(vars[j], row[j])
  {
    if j > 0 {
      InRowAt(vars[1..], row[1..], name, j - 1);
    }
  }

  lemma {:induction false} InRowNot(vars: seq<Variable>, row: seq<Expr>, name: string)
    requires |vars| <= |row| && NotAmong(vars, name)
    ensures InRow(vars, row, name) == Unknown
  {
    if vars != [] {
      InRowNot(vars[1..], row[1..], name);
    }
  }

  lemma {:induction false} InTablesNot(ts: seq<Table>, name: string)
    requires forall t | t in ts :: |t.vars| <= |Row(t)|
    requires forall k | 0 <= k < |ts| :: NotAmong(ts[k].vars, name)
    ensures InTables(ts, name) == Unknown
  {
    if ts != [] {
      InRowNot(ts[0].vars, Row(ts[0]), name);
      InTablesNot(ts[1..], name);
    }
  }

  // Loops are looked at after the tables: the first loop of a name counts, with its current value, which
  // must be initialized, or if there is none with the active one.
  lemma LoopLookup(f: Frame, world: set<Variable>, seen: set<Variable>, m: Math, name: string, i: nat)
    requires WellMade(f, world) && forall k | 0 <= k < |f.tables| :: NotAmong(f.tables[k].vars, name)
    requires i < |f.loops| && f.loops[i].name == name && forall k | 0 <= k < i :: f.loops[k].name != name
    ensures ValueOfName(name, f, world, seen, m)
         == match f.loops[i]
            case Loop(_, None, _, n, active) => Num(Mm, 0, n + active as real)
            case Loop(_, Some(_), false, _, _) => Undef
            case Loop(_, Some(x), true, _, _) => Num(Mm, 0, x)
  {
    InTablesNot(f.tables, name);
    InLoopsAt(f.loops, name, i);
  }

  lemma {:induction false} InLoopsAt(ls: seq<Loop>, name: string, i: nat)
    requires i < |ls| && ls[i].name == name && forall k | 0 <= k < i :: ls[k].name != name
    ensures InLoops(ls, name) == LoopValue(ValueOfLoop(ls[i]))
  {
    if i > 0 {
      InLoopsAt(ls[1..], name, i - 1);
    }
  }

  // A name that a frame does not know is looked up in the frame it is generated from, otherwise in the
  // frame of the active reference.
  lemma ParentLookup(f: Frame, world: set<Variable>, seen: set<Variable>, m: Math, name: string)
    requires WellMade(f, world) && forall k | 0 <= k < |f.tables| :: NotAmong(f.tables[k].vars, name)
    requires forall k | 0 <= k < |f.loops| :: f.loops[k].name != name
    ensures f.currParent != null ==>
      && WellMade(f.currParent, world)
      && ValueOfName(name, f, world, seen, m) == ValueOfName(name, f.currParent, world, seen, m)
    ensures f.currParent == null && f.activeFrame != null ==>
      && WellMade(f.activeFrame, world)
      && ValueOfName(name, f, world, seen, m) == ValueOfName(name, f.activeFrame, world, seen, m)
    ensures f.currParent == null && f.activeFrame == null ==> ValueOfName(name, f, world, seen, m) == Undef
  {
    InTablesNot(f.tables, name);
    InLoopsNot(f.loops, name);
  }

  lemma {:induction false} InLoopsNot(ls: seq<Loop>, name: string)
    requires forall k | 0 <= k < |ls| :: ls[k].name != name
    ensures InLoops(ls, name) == Unknown
  {
    if ls != [] {
      InLoopsNot(ls[1..], name);
    }
  }

  // ----- evaluation -----

  ghost predicate Marked(world: set<Variable>, seen: set<Variable>)
    reads world
  {
    seen <= world && forall v | v in world :: v.visited <==> v in seen
  }

  // eval_num: it ends, leaves all flags as they were, and has the value above
  method EvalNum(e: Expr, f: Frame, m: Math, ghost world: set<Variable>, ghost seen: set<Variable>) returns (r: Num)
    requires WellMade(f, world) && Marked(world, seen)
    modifies world`visited
    ensures Marked(world, seen) && r == Value(e, f, world, seen, m)
    decreases |world - seen|, 1, e, 1
  {
    match e {
      case Lit(num) => r := num;
      case Text(_) => r := Undef;
      case Var(name) => r := EvalVar(name, f, m, world, seen);
      case Sin(a) =>
        var x := EvalNum(a, f, m, world, seen);
        r := EvalAngle(x, m.sin, m.pi);
      case Cos(a) =>
        var x := EvalNum(a, f, m, world, seen);
        r := EvalAngle(x, m.cos, m.pi);
      case Sqrt(a) =>
        var x := EvalNum(a, f, m, world, seen);
        r := EvalSqrt(x, m);
      case Minus(a) =>
        var x := EvalNum(a, f, m, world, seen);
        r := Negated(x);
      case Add(a, b) =>
        var x, y := EvalBoth(e, a, b, f, m, world, seen);
        r := EvalSum(x, y, false);
      case Sub(a, b) =>
        var x, y := EvalBoth(e, a, b, f, m, world, seen);
        r := EvalSum(x, y, true);
      case Mult(a, b) =>
        var x, y := EvalBoth(e, a, b, f, m, world, seen);
        r := EvalMult(x, y);
      case Div(a, b) =>
        var x, y := EvalBoth(e, a, b, f, m, world, seen);
        r := EvalDiv(x, y);
    }
  }

  // BINARY: the second operand is evaluated only if the first one is defined
  method EvalBoth(ghost e: Expr, a: Expr, b: Expr, f: Frame, m: Math, ghost world: set<Variable>, ghost seen: set<Variable>)
    returns (x: Num, y: Num)
    requires WellMade(f, world) && Marked(world, seen) && e in {Add(a, b), Sub(a, b), Mult(a, b), Div(a, b)}
    modifies world`visited
    ensures Marked(world, seen) && x == Value(a, f, world, seen, m)
    ensures x.Num? ==> y == Value(b, f, world, seen, m)
    decreases |world - seen|, 1, e, 0
  {
    x := EvalNum(a, f, m, world, seen);
    if x.Undef? {
      return x, Undef;
    }
    y := EvalNum(b, f, m, world, seen);
  }

  // eval_var
  method EvalVar(name: string, f: Frame, m: Math, ghost world: set<Variable>, ghost seen: set<Variable>) returns (r: Num)
    requires WellMade(f, world) && Marked(world, seen)
    modifies world`visited
    ensures Marked(world, seen) && r == ValueOfName(name, f, world, seen, m)
    decreases |world - seen|, 0, f.depth, 1
  {
    for i := 0 to |f.tables|
      invariant Marked(world, seen)
      invariant InTables(f.tables, name) == InTables(f.tables[i..], name)
    {
      var t := f.tables[i];
      assert t in f.tables && f.tables[i..][1..] == f.tables[i + 1..];
      for j := 0 to |t.vars|
        invariant Marked(world, seen)
        invariant InRow(t.vars, Row(t), name) == InRow(t.vars[j..], Row(t)[j..], name)
      {
        assert t.vars[j..][1..] == t.vars[j + 1..] && Row(t)[j..][1..] == Row(t)[j + 1..];
        var v := t.vars[j];
        if v.name == name {
          assert InFrame(f, world, name) == Defined(v, Row(t)[j]);
          if v.visited {
            return Undef;
          }
          r := EvalVisited(v, Row(t)[j], f, m, world, seen);
          return;
        }
      }
    }
    assert InTables(f.tables, name) == Unknown;
    for i := 0 to |f.loops|
      invariant InLoops(f.loops, name) == InLoops(f.loops[i..], name)
    {
      assert f.loops[i..][1..] == f.loops[i + 1..];
      if f.loops[i].name == name {
        return ValueOfLoop(f.loops[i]);
      }
    }
    if f.currParent != null {
      r := EvalVar(name, f.currParent, m, world, seen);
    } else if f.activeFrame != null {
      r := EvalVar(name, f.activeFrame, m, world, seen);
    } else {
      r := Undef;
    }
  }

  method EvalVisited(v: Variable, e: Expr, f: Frame, m: Math, ghost world: set<Variable>, ghost seen: set<Variable>)
    returns (r: Num)
    requires WellMade(f, world) && Marked(world, seen) && v in world && v !in seen
    modifies world`visited
    ensures Marked(world, seen) && r == Value(e, f, world, seen + {v}, m)
    decreases |world - seen|, 0, 0, 0
  {
    Shrinks(world, seen, v);
    v.visited := true;
    r := EvalNum(e, f, m, world, seen + {v});
    v.visited := false;
  }

  // ----- recursive definitions -----

  // Evaluation of e in f may come to variable v, through n others at most.
  ghost predicate Reaches(e: Expr, f: Frame, world: set<Variable>, v: Variable, n: nat)
    requires WellMade(f, world)
    decreases n, 1, e
  {
    match e
    case Lit(_) | Text(_) => false
    case Var(name) => NameReaches(name, f, world, v, n)
    case Sin(_) | Cos(_) | Sqrt(_) | Minus(_) => Reaches(e.a, f, world, v, n)
    case Add(_, _) | Sub(_, _) | Mult(_, _) | Div(_, _) => Reaches(e.a, f, world, v, n) || Reaches(e.b, f, world, v, n)
  }

  ghost predicate NameReaches(name: string, f: Frame, world: set<Variable>, v: Variable, n: nat)
    requires WellMade(f, world)
    decreases n, 0, f.depth
  {
    match InFrame(f, world, name)
    case Defined(w, e) => w == v || (n > 0 && Reaches(e, f, world, v, n - 1))
    case LoopValue(_) => false
    case Unknown => Parent(f) != null && NameReaches(name, Parent(f), world, v, n)
  }

  // What comes to a variable being evaluated has no value.
  lemma {:induction false} ReachedUndef(e: Expr, f: Frame, world: set<Variable>, seen: set<Variable>, m: Math, v: Variable, n: nat)
    requires WellMade(f, world) && v in seen && Reaches(e, f, world, v, n)
    ensures Value(e, f, world, seen, m) == Undef
    decreases n, 1, e
  {
    match e
    case Var(name) => NameReachedUndef(name, f, world, seen, m, v, n);
    case Sin(_) | Cos(_) | Sqrt(_) | Minus(_) => ReachedUndef(e.a, f, world, seen, m, v, n);
    case Add(_, _) | Sub(_, _) | Mult(_, _) | Div(_, _) =>
      var a, b := e.a, e.b;
      if Reaches(a, f, world, v, n) {
        ReachedUndef(a, f, world, seen, m, v, n);
      } else {
        ReachedUndef(b, f, world, seen, m, v, n);
      }
  }

  lemma {:induction false} NameReachedUndef(name: string, f: Frame, world: set<Variable>, seen: set<Variable>, m: Math,
                                            v: Variable, n: nat)
    requires WellMade(f, world) && v in seen && NameReaches(name, f, world, v, n)
    ensures ValueOfName(name, f, world, seen, m) == Undef
    decreases n, 0, f.depth
  {
    match InFrame(f, world, name)
    case Defined(w, e) =>
      if w !in seen {
        ReachedUndef(e, f, world, seen + {w}, m, v, n - 1);
      }
    case Unknown => NameReachedUndef(name, Parent(f), world, seen, m, v, n);
  }

  // It comes to one of the variables in vs.
  ghost predicate Meets(e: Expr, f: Frame, world: set<Variable>, vs: set<Variable>)
    requires WellMade(f, world)
  {
    exists v, n: nat :: v in vs && Reaches(e, f, world, v, n)
  }

  // A variable that is defined through itself has no value.
  lemma RecursiveUndef(name: string, f: Frame, world: set<Variable>, m: Math, v: Variable, e: Expr, n: nat)
    requires WellMade(f, world) && InFrame(f, world, name) == Defined(v, e) && Reaches(e, f, world, v, n)
    ensures ValueOfName(name, f, world, {}, m) == Undef
  {
    ReachedUndef(e, f, world, {} + {v}, m, v, n);
  }

  // Which variables are being evaluated makes no difference to what does not come to them.
  lemma {:induction false} FlagsDoNotMatter(e: Expr, f: Frame, world: set<Variable>, seen: set<Variable>, other: set<Variable>, m: Math)
    requires WellMade(f, world) && !Meets(e, f, world, seen + other)
    ensures Value(e, f, world, seen, m) == Value(e, f, world, other, m)
    decreases |world - seen|, 1, e
  {
    match e
    case Lit(_) | Text(_) =>
    case Var(name) =>
      forall v, n: nat | v in seen + other ensures !NameReaches(name, f, world, v, n) {
        assert !Reaches(e, f, world, v, n);
      }
      FlagsAndName(name, f, world, seen, other, m);
    case Sin(_) | Cos(_) | Sqrt(_) | Minus(_) =>
      var a := e.a;
      NotMet(e, a, f, world, seen + other);
      FlagsDoNotMatter(a, f, world, seen, other, m);
    case Add(_, _) | Sub(_, _) | Mult(_, _) | Div(_, _) =>
      var a, b := e.a, e.b;
      NotMet(e, a, f, world, seen + other);
      NotMet(e, b, f, world, seen + other);
      FlagsDoNotMatter(a, f, world, seen, other, m);
      FlagsDoNotMatter(b, f, world, seen, other, m);
  }

  // a is an operand of e.
  predicate Operand(e: Expr, a: Expr) {
    match e
    case Sin(b) => a == b
    case Cos(b) => a == b
    case Sqrt(b) => a == b
    case Minus(b) => a == b
    case Add(b, c) => a == b || a == c
    case Sub(b, c) => a == b || a == c
    case Mult(b, c) => a == b || a == c
    case Div(b, c) => a == b || a == c
    case _ => false
  }

  lemma NotMet(e: Expr, a: Expr, f: Frame, world: set<Variable>, vs: set<Variable>)
    requires WellMade(f, world) && Operand(e, a) && !Meets(e, f, world, vs)
    ensures !Meets(a, f, world, vs)
  {
    forall v, n: nat | v in vs ensures !Reaches(a, f, world, v, n) {
      assert !Reaches(e, f, world, v, n);
    }
  }

  lemma {:induction false} FlagsAndName(name: string, f: Frame, world: set<Variable>, seen: set<Variable>, other: set<Variable>, m: Math)
    requires WellMade(f, world) && forall v, n: nat | v in seen + other :: !NameReaches(name, f, world, v, n)
    ensures ValueOfName(name, f, world, seen, m) == ValueOfName(name, f, world, other, m)
    decreases |world - seen|, 0, f.depth
  {
    match InFrame(f, world, name)
    case Defined(w, e) =>
      assert w !in seen + other by {
        if w in seen + other {
          assert NameReaches(name, f, world, w, 0);
        }
      }
      Shrinks(world, seen, w);
      if n: nat :| Reaches(e, f, world, w, n) {
        ReachedUndef(e, f, world, seen + {w}, m, w, n);
        ReachedUndef(e, f, world, other + {w}, m, w, n);
      } else {
        forall v, n: nat | v in (seen + {w}) + (other + {w}) ensures !Reaches(e, f, world, v, n) {
          if v != w {
            assert !NameReaches(name, f, world, v, n + 1);
          }
        }
        FlagsDoNotMatter(e, f, world, seen + {w}, other + {w}, m);
      }
    case LoopValue(_) =>
    case Unknown =>
      if Parent(f) != null {
        forall v, n: nat | v in seen + other ensures !NameReaches(name, Parent(f), world, v, n) {
          assert !NameReaches(name, f, world, v, n);
        }
        FlagsAndName(name, Parent(f), world, seen, other, m);
      }
  }

  // In all: with variables in seen under evaluation, what comes to one of them has no value, and all
  // else has the value it has by itself.
  lemma ValueExactly(e: Expr, f: Frame, world: set<Variable>, seen: set<Variable>, m: Math)
    requires WellMade(f, world)
    ensures Value(e, f, world, seen, m) == if Meets(e, f, world, seen) then Undef else Value(e, f, world, {}, m)
  {
    if Meets(e, f, world, seen) {
      var v, n: nat :| v in seen && Reaches(e, f, world, v, n);
      ReachedUndef(e, f, world, seen, m, v, n);
    } else {
      assert seen + {} == seen;
      FlagsDoNotMatter(e, f, world, seen, {}, m);
    }
  }
}
