// Evaluation with variables and evaluation with given values agree, and so the choice of units makes no
// difference in the tables of variables either (eda/fped/expr.c).
module VariableUnits {
  import opened Expr
  import opened Variables

  // What the names mean in a frame, while the variables in seen are being evaluated.
  ghost function NamesIn(f: Frame, world: set<Variable>, seen: set<Variable>, m: Math): string -> Num
    requires WellMade(f, world)
  {
    (name: string) => ValueOfName(name, f, world, seen, m)
  }

  lemma {:induction false} ValueIsEval(e: Expr, f: Frame, world: set<Variable>, seen: set<Variable>, m: Math)
    requires WellMade(f, world)
    ensures Value(e, f, world, seen, m) == Eval(e, NamesIn(f, world, seen, m), m)
    decreases e
  {
    match e
    case Lit(_) =>
    case Text(_) =>
    case Var(_) =>
    case Sin(a) => ValueIsEval(a, f, world, seen, m);
    case Cos(a) => ValueIsEval(a, f, world, seen, m);
    case Sqrt(a) => ValueIsEval(a, f, world, seen, m);
    case Minus(a) => ValueIsEval(a, f, world, seen, m);
    case Add(a, b) => ValueIsEval(a, f, world, seen, m); ValueIsEval(b, f, world, seen, m);
    case Sub(a, b) => ValueIsEval(a, f, world, seen, m); ValueIsEval(b, f, world, seen, m);
    case Mult(a, b) => ValueIsEval(a, f, world, seen, m); ValueIsEval(b, f, world, seen, m);
    case Div(a, b) => ValueIsEval(a, f, world, seen, m); ValueIsEval(b, f, world, seen, m);
  }

  // ----- tables in other units -----

  ghost predicate RowsRewritten(a: seq<Expr>, b: seq<Expr>) {
    |a| == |b| && forall k | 0 <= k < |a| :: Rewritten(a[k], b[k])
  }

  ghost predicate TablesRewritten(a: seq<Table>, b: seq<Table>) {
    |a| == |b| && forall k | 0 <= k < |a| :: a[k].vars == b[k].vars && RowsRewritten(Row(a[k]), Row(b[k]))
  }

  // The frames, and those they were reached from, have the same variables and loops, and the same
  // expressions but for the units of lengths.
  ghost predicate FramesRewritten(f: Frame, f': Frame, world: set<Variable>)
    requires WellMade(f, world)
    decreases f.depth
  {
    && TablesRewritten(f.tables, f'.tables) && f.loops == f'.loops && (Parent(f) == null <==> Parent(f') == null)
    && (Parent(f) != null ==> FramesRewritten(Parent(f), Parent(f'), world))
  }

  ghost predicate SameMeaning(a: Meaning, b: Meaning) {
    if a.Defined? then b.Defined? && a.v == b.v && Rewritten(a.e, b.e) else a == b
  }

  lemma {:induction false} InRowRewritten(vars: seq<Variable>, a: seq<Expr>, b: seq<Expr>, name: string)
    requires |vars| <= |a| && RowsRewritten(a, b)
    ensures SameMeaning(InRow(vars, a, name), InRow(vars, b, name))
  {
    if vars != [] && vars[0].name != name {
      InRowRewritten(vars[1..], a[1..], b[1..], name);
    }
  }

  lemma {:induction false} InTablesRewritten(a: seq<Table>, b: seq<Table>, name: string)
    requires (forall t | t in a :: |t.vars| <= |Row(t)|) && (forall t | t in b :: |t.vars| <= |Row(t)|)
    requires TablesRewritten(a, b)
    ensures SameMeaning(InTables(a, name), InTables(b, name))
  {
    if a != [] {
      InRowRewritten(a[0].vars, Row(a[0]), Row(b[0]), name);
      InTablesRewritten(a[1..], b[1..], name);
    }
  }

  lemma InFrameRewritten(f: Frame, f': Frame, world: set<Variable>, name: string)
    requires WellMade(f, world) && WellMade(f', world) && FramesRewritten(f, f', world)
    ensures SameMeaning(InFrame(f, world, name), InFrame(f', world, name))
  {
    InTablesRewritten(f.tables, f'.tables, name);
  }

  // A name stands for the same quantity, or is undefined in both.
  lemma {:induction false} NameUnits(name: string, f: Frame, f': Frame, world: set<Variable>, seen: set<Variable>, m: Math)
    requires RootsOk(m) && WellMade(f, world) && WellMade(f', world) && FramesRewritten(f, f', world)
    ensures Phys(ValueOfName(name, f, world, seen, m)) == Phys(ValueOfName(name, f', world, seen, m))
    decreases |world - seen|, 0, f.depth
  {
    InFrameRewritten(f, f', world, name);
    match InFrame(f, world, name)
    case Defined(v, e) =>
      if v !in seen {
        Shrinks(world, seen, v);
        ValueUnits(e, InFrame(f', world, name).e, f, f', world, seen + {v}, m);
      }
    case LoopValue(_) =>
    case Unknown =>
      if Parent(f) != null {
        NameUnits(name, Parent(f), Parent(f'), world, seen, m);
      }
  }

  // Writing lengths in mils or millimeters, in an expression or in the tables of variables, is all the
  // same for eval_num.
  lemma {:induction false} ValueUnits(e: Expr, e': Expr, f: Frame, f': Frame, world: set<Variable>, seen: set<Variable>, m: Math)
    requires RootsOk(m) && WellMade(f, world) && WellMade(f', world) && FramesRewritten(f, f', world) && Rewritten(e, e')
    ensures var x, y := Value(e, f, world, seen, m), Value(e', f', world, seen, m);
            Phys(x) == Phys(y) && (x.Undef? <==> y.Undef?) && (x.Num? ==> x.exponent == y.exponent)
    decreases |world - seen|, 1
  {
    var names, names' := NamesIn(f, world, seen, m), NamesIn(f', world, seen, m);
    forall s ensures Phys(names(s)) == Phys(names'(s)) {
      NameUnits(s, f, f', world, seen, m);
    }
    ValueIsEval(e, f, world, seen, m);
    ValueIsEval(e', f', world, seen, m);
    UnitsDoNotMatter(e, e', names, names', m);
  }
}
