// The overlap test of fped (eda/fped/overlap.c) for pads and holes.
module Overlap {
  import opened Wrappers
  import opened Coords

  // A pad, rounded or not, or a hole, which is always rounded.
  datatype Inst = Inst(base: Coord, other: Coord, rounded: bool)

  datatype Allow = NoOverlap | Touch | Any

  datatype Shape = Circle(center: Coord, r: int) | Rect(min: Coord, max: Coord)

  // ----- distances -----

  // The root of n, truncated.
  function FloorRoot(n: nat): (d: nat)
    ensures d * d <= n < (d + 1) * (d + 1)
  {
    RootFrom(n, 0)
  }

  function RootFrom(n: nat, d: nat): (r: nat)
    requires d * d <= n
    ensures r * r <= n < (r + 1) * (r + 1)
    decreases n - d
  {
    if (d + 1) * (d + 1) <= n then
      Larger(d);
      RootFrom(n, d + 1)
    else d
  }

  lemma Larger(d: nat)
    ensures (d + 1) * (d + 1) > d
  {}

  function SquaredDistance(a: Coord, b: Coord): (n: nat) {
    Square(a.x - b.x);
    Square(a.y - b.y);
    (a.x - b.x) * (a.x - b.x) + (a.y - b.y) * (a.y - b.y)
  }

  lemma Square(x: int)
    ensures x * x >= 0
  {}

  // dist_point: hypot, as an integer
  function Distance(a: Coord, b: Coord): nat { FloorRoot(SquaredDistance(a, b)) }

  // sort_coord
  function Low(a: Coord, b: Coord): Coord { Coord(if a.x > b.x then b.x else a.x, if a.y > b.y then b.y else a.y) }
  function High(a: Coord, b: Coord): Coord { Coord(if a.x > b.x then a.x else b.x, if a.y > b.y then a.y else b.y) }

  // ----- the tests of the code -----

  predicate CircleCircle(c1: Coord, r1: int, c2: Coord, r2: int, allow: Allow) {
    if allow == Touch then Distance(c1, c2) < r1 + r2 else Distance(c1, c2) <= r1 + r2
  }

  predicate CircleRect(c: Coord, r: int, min: Coord, max: Coord, allow: Allow) {
    if allow == Touch && (c.x <= min.x - r || c.x >= max.x + r) then false
    else if allow == Touch && (c.y <= min.y - r || c.y >= max.y + r) then false
    else if c.x < min.x - r || c.x > max.x + r then false
    else if c.y < min.y - r || c.y > max.y + r then false
    else true
  }

  predicate RectRect(min1: Coord, max1: Coord, min2: Coord, max2: Coord, allow: Allow) {
    if allow == Touch && (max1.x <= min2.x || max2.x <= min1.x) then false
    else if allow == Touch && (max1.y <= min2.y || max2.y <= min1.y) then false
    else if max1.x < min2.x || max2.x < min1.x then false
    else if max1.y < min2.y || max2.y < min1.y then false
    else true
  }

  predicate ShapesOverlap(a: Shape, b: Shape, allow: Allow)
    decreases if a.Circle? then 1 else 0
  {
    if a.Circle? && b.Rect? then ShapesOverlap(b, a, allow)
    else if a.Circle? then CircleCircle(a.center, a.r, b.center, b.r, allow)
    else if b.Circle? then CircleRect(b.center, b.r, a.min, a.max, allow)
    else RectRect(a.min, a.max, b.min, b.max, allow)
  }

  // do_circle, do_rect: go on with the second item, or compare
  predicate DoShape(next: Option<Inst>, other: Option<Shape>, s: Shape, allow: Allow)
    requires next.None? ==> other.Some?
    decreases if next.Some? then 1 else 0, 0
  {
    if next.Some? then TestOverlap(next.value, None, Some(s), allow)
    else ShapesOverlap(other.value, s, allow)
  }

  predicate TestOverlap(a: Inst, b: Option<Inst>, other: Option<Shape>, allow: Allow)
    requires b.None? ==> other.Some?
    decreases if b.Some? then 1 else 0, 1
  {
    var min, max := Low(a.base, a.other), High(a.base, a.other);
    var h, w := max.y - min.y, max.x - min.x;
    if !a.rounded then DoShape(b, other, RectAt(min.x, min.y, w, h), allow)
    else if h > w then
      var r := w / 2;
      || DoShape(b, other, Circle(Coord(min.x + r, max.y - r), r), allow)
      || DoShape(b, other, RectAt(min.x, min.y + r, w, h - 2 * r), allow)
      || DoShape(b, other, Circle(Coord(min.x + r, min.y + r), r), allow)
    else
      var r := h / 2;
      || DoShape(b, other, Circle(Coord(min.x + r, min.y + r), r), allow)
      || DoShape(b, other, RectAt(min.x + r, min.y, w - 2 * r, h), allow)
      || DoShape(b, other, Circle(Coord(max.x - r, min.y + r), r), allow)
  }

  function RectAt(x: int, y: int, w: int, h: int): Shape { Rect(Coord(x, y), Coord(x + w, y + h)) }

  // overlap
  predicate Overlap(a: Inst, b: Inst, allow: Allow) {
    allow != Any && TestOverlap(a, Some(b), None, allow)
  }

  // inside
  predicate Inside(a: Inst, b: Inst) {
    var minA, maxA, minB, maxB := Low(a.base, a.other), High(a.base, a.other), Low(b.base, b.other), High(b.base, b.other);
    minA.x >= minB.x && maxA.x <= maxB.x && minA.y >= minB.y && maxA.y <= maxB.y
  }

  // ----- what an item covers -----

  datatype Point = Point(x: real, y: real)

  ghost predicate In(p: Point, s: Shape) {
    match s
    case Circle(c, r) =>
      r >= 0 && SumOfSquares(p.x - c.x as real, p.y - c.y as real) <= (r as real) * (r as real)
    case Rect(min, max) => min.x as real <= p.x <= max.x as real && min.y as real <= p.y <= max.y as real
  }

  function SumOfSquares(x: real, y: real): real { x * x + y * y }

  // The decomposition into at most a circle, a rectangle, and a circle.
  function Shapes(a: Inst): (s: seq<Shape>)
    ensures forall k | 0 <= k < |s| && s[k].Circle? :: s[k].r >= 0
  {
    var min, max := Low(a.base, a.other), High(a.base, a.other);
    var h, w := max.y - min.y, max.x - min.x;
    if !a.rounded then [RectAt(min.x, min.y, w, h)]
    else if h > w then
      var r := w / 2;
      [Circle(Coord(min.x + r, max.y - r), r), RectAt(min.x, min.y + r, w, h - 2 * r), Circle(Coord(min.x + r, min.y + r), r)]
    else
      var r := h / 2;
      [Circle(Coord(min.x + r, min.y + r), r), RectAt(min.x + r, min.y, w - 2 * r, h), Circle(Coord(max.x - r, min.y + r), r)]
  }

  ghost predicate Covers(a: Inst, p: Point) { exists k :: 0 <= k < |Shapes(a)| && In(p, Shapes(a)[k]) }

  // The recursion compares each shape of the one item with each of the other.
  lemma OverlapIsPairwise(a: Inst, b: Inst, allow: Allow)
    requires allow != Any
    ensures Overlap(a, b, allow)
       <==> exists i, j :: 0 <= i < |Shapes(a)| && 0 <= j < |Shapes(b)| && ShapesOverlap(Shapes(a)[i], Shapes(b)[j], allow)
  {
    var s, t := Shapes(a), Shapes(b);
    assert Overlap(a, b, allow) <==> exists i :: 0 <= i < |s| && TestOverlap(b, None, Some(s[i]), allow) by {
      SomeOf(a, Some(b), None, allow);
    }
    forall i | 0 <= i < |s|
      ensures TestOverlap(b, None, Some(s[i]), allow) <==> exists j :: 0 <= j < |t| && ShapesOverlap(s[i], t[j], allow)
    {
      SomeOf(b, None, Some(s[i]), allow);
    }
  }

  lemma SomeOf(a: Inst, b: Option<Inst>, other: Option<Shape>, allow: Allow)
    requires b.None? ==> other.Some?
    ensures TestOverlap(a, b, other, allow)
       <==> exists k :: 0 <= k < |Shapes(a)| && DoShape(b, other, Shapes(a)[k], allow)
  {
    var s := Shapes(a);
    if a.rounded {
      assert TestOverlap(a, b, other, allow)
        <==> DoShape(b, other, s[0], allow) || DoShape(b, other, s[1], allow) || DoShape(b, other, s[2], allow);
    } else {
      assert TestOverlap(a, b, other, allow) <==> DoShape(b, other, s[0], allow);
    }
  }

  // ----- symmetry, and the order of strictness -----

  lemma DistanceSymmetric(a: Coord, b: Coord)
    ensures SquaredDistance(a, b) == SquaredDistance(b, a)
  {
    var x, y := a.x - b.x, a.y - b.y;
    assert (-x) * (-x) == x * x && (-y) * (-y) == y * y;
  }

  lemma ShapesSymmetric(a: Shape, b: Shape, allow: Allow)
    ensures ShapesOverlap(a, b, allow) == ShapesOverlap(b, a, allow)
  {
    if a.Circle? && b.Circle? {
      DistanceSymmetric(a.center, b.center);
    }
  }

  lemma OverlapSymmetric(a: Inst, b: Inst, allow: Allow)
    ensures Overlap(a, b, allow) == Overlap(b, a, allow)
    ensures allow == Any ==> !Overlap(a, b, allow)
  {
    if allow != Any {
      OverlapIsPairwise(a, b, allow);
      OverlapIsPairwise(b, a, allow);
      var s, t := Shapes(a), Shapes(b);
      forall i, j | 0 <= i < |s| && 0 <= j < |t| ensures ShapesOverlap(s[i], t[j], allow) == ShapesOverlap(t[j], s[i], allow) {
        ShapesSymmetric(s[i], t[j], allow);
      }
    }
  }

  // What overlaps even where touching is allowed, overlaps where it is not.
  lemma TouchIsStricter(a: Inst, b: Inst)
    ensures Overlap(a, b, Touch) ==> Overlap(a, b, NoOverlap)
  {
    OverlapIsPairwise(a, b, Touch);
    OverlapIsPairwise(a, b, NoOverlap);
    var s, t := Shapes(a), Shapes(b);
    forall i, j | 0 <= i < |s| && 0 <= j < |t| && ShapesOverlap(s[i], t[j], Touch)
      ensures ShapesOverlap(s[i], t[j], NoOverlap)
    {
      ShapesStricter(s[i], t[j]);
    }
  }

  lemma ShapesStricter(a: Shape, b: Shape)
    ensures ShapesOverlap(a, b, Touch) ==> ShapesOverlap(a, b, NoOverlap)
  {
    ShapesSymmetric(a, b, Touch);
    ShapesSymmetric(a, b, NoOverlap);
  }

  // ----- nothing is missed -----

  lemma {:induction false} RealProduct(a: nat, b: int)
    ensures (a * b) as real == a as real * b as real
  {
    if a > 0 {
      RealProduct(a - 1, b);
      assert a * b == (a - 1) * b + b;
      assert (a as real) * (b as real) == ((a - 1) as real) * (b as real) + b as real;
    }
  }

  lemma RealSquare(a: int)
    ensures (a * a) as real == a as real * a as real
  {
    var n: nat := if a < 0 then -a else a;
    RealProduct(n, n);
    assert n * n == a * a && (n as real) * (n as real) == (a as real) * (a as real);
  }

  lemma CauchySchwarz(a: real, b: real, c: real, d: real)
    ensures (a * c + b * d) * (a * c + b * d) <= SumOfSquares(a, b) * SumOfSquares(c, d)
  {
    var e := a * d - b * c;
    assert e * e >= 0.0;
    assert SumOfSquares(a, b) * SumOfSquares(c, d) == (a * c + b * d) * (a * c + b * d) + e * e;
  }

  // The triangle inequality, on squares: with u no longer than r and v no longer than s, u - v is no
  // longer than r + s.
  lemma Triangle(a: real, b: real, c: real, d: real, r: real, s: real)
    requires r >= 0.0 && s >= 0.0 && SumOfSquares(a, b) <= r * r && SumOfSquares(c, d) <= s * s
    ensures SumOfSquares(a - c, b - d) <= (r + s) * (r + s)
  {
    var dot := a * c + b * d;
    CauchySchwarz(a, b, c, d);
    ProductsGrow(SumOfSquares(a, b), SumOfSquares(c, d), r * r, s * s);
    Regroup(r, s);
    RootsGrow(dot, r * s);
    Expand(a, b, c, d);
  }

  lemma Regroup(r: real, s: real)
    requires r >= 0.0 && s >= 0.0
    ensures (r * r) * (s * s) == (r * s) * (r * s) && r * s >= 0.0
  {}

  lemma ProductsGrow(x: real, y: real, x': real, y': real)
    requires 0.0 <= x <= x' && 0.0 <= y <= y'
    ensures x * y <= x' * y'
  {
    assert x * y <= x * y' <= x' * y';
  }

  lemma RootsGrow(x: real, y: real)
    requires y >= 0.0 && x * x <= y * y
    ensures -y <= x <= y
  {
    if x > y {
      SquaresGrow(y, x);
    } else if x < -y {
      SquaresGrow(y, -x);
      SignedSquare(x);
    }
  }

  lemma SquaresGrow(x: real, y: real)
    requires 0.0 <= x < y
    ensures x * x < y * y
  {
    PositiveProduct(y - x, y + x);
    assert (y - x) * (y + x) == y * y - x * x;
  }

  lemma PositiveProduct(x: real, y: real)
    requires x > 0.0 && y > 0.0
    ensures x * y > 0.0
  {}

  lemma SignedSquare(x: real)
    ensures (-x) * (-x) == x * x
  {}

  lemma Expand(a: real, b: real, c: real, d: real)
    ensures SumOfSquares(a - c, b - d) == SumOfSquares(a, b) + SumOfSquares(c, d) - 2.0 * (a * c + b * d)
  {}

  // Circles with a point in common overlap.
  lemma CirclesMeet(p: Point, c1: Coord, r1: int, c2: Coord, r2: int)
    requires In(p, Circle(c1, r1)) && In(p, Circle(c2, r2))
    ensures CircleCircle(c1, r1, c2, r2, NoOverlap)
  {
    var a, b := p.x - c1.x as real, p.y - c1.y as real;
    var c, d := p.x - c2.x as real, p.y - c2.y as real;
    Triangle(a, b, c, d, r1 as real, r2 as real);
    var x, y := c2.x - c1.x, c2.y - c1.y;
    assert a - c == x as real && b - d == y as real && (r1 + r2) as real == r1 as real + r2 as real;
    GridDistance(x, y, r1 + r2);
    DistanceSymmetric(c1, c2);
    RootBelow(SquaredDistance(c1, c2), r1 + r2);
  }

  lemma GridDistance(x: int, y: int, r: int)
    requires SumOfSquares(x as real, y as real) <= r as real * r as real
    ensures x * x + y * y <= r * r
  {
    RealSquare(x);
    RealSquare(y);
    RealSquare(r);
    assert (x * x + y * y) as real == (x * x) as real + (y * y) as real;
  }

  lemma NatSquares(x: nat, y: nat)
    requires x <= y
    ensures x * x <= y * y
  {
    assert x * x <= x * y <= y * y;
  }

  lemma RootBelow(n: nat, r: nat)
    requires n <= r * r
    ensures FloorRoot(n) <= r
  {
    var d := FloorRoot(n);
    if d > r {
      NatSquares(r + 1, d);
    }
  }

  // A circle and a rectangle with a point in common overlap.
  lemma CircleMeetsRect(p: Point, c: Coord, r: int, min: Coord, max: Coord)
    requires In(p, Circle(c, r)) && In(p, Rect(min, max))
    ensures CircleRect(c, r, min, max, NoOverlap)
  {
    WithinRadius(p.x - c.x as real, p.y - c.y as real, r as real);
    WithinRadius(p.y - c.y as real, p.x - c.x as real, r as real);
  }

  lemma WithinRadius(x: real, y: real, r: real)
    requires r >= 0.0 && SumOfSquares(x, y) <= r * r
    ensures -r <= x <= r
  {
    assert y * y >= 0.0;
    RootsGrow(x, r);
  }

  lemma ShapesMeet(p: Point, s: Shape, t: Shape)
    requires In(p, s) && In(p, t)
    ensures ShapesOverlap(s, t, NoOverlap)
  {
    match (s, t)
    case (Circle(c1, r1), Circle(c2, r2)) => CirclesMeet(p, c1, r1, c2, r2);
    case (Circle(c, r), Rect(min, max)) => CircleMeetsRect(p, c, r, min, max);
    case (Rect(min, max), Circle(c, r)) => CircleMeetsRect(p, c, r, min, max);
    case (Rect(_, _), Rect(_, _)) =>
  }

  // If any point, on the grid or between, is in both items, they are found to overlap.
  lemma NothingMissed(a: Inst, b: Inst, p: Point)
    requires Covers(a, p) && Covers(b, p)
    ensures Overlap(a, b, NoOverlap)
  {
    var i :| 0 <= i < |Shapes(a)| && In(p, Shapes(a)[i]);
    var j :| 0 <= j < |Shapes(b)| && In(p, Shapes(b)[j]);
    ShapesMeet(p, Shapes(a)[i], Shapes(b)[j]);
    OverlapIsPairwise(a, b, NoOverlap);
  }

  // ----- and how much is added -----

  // Rectangles overlap exactly if they have a point in common.
  lemma RectsExactly(min1: Coord, max1: Coord, min2: Coord, max2: Coord)
    requires min1.x <= max1.x && min1.y <= max1.y && min2.x <= max2.x && min2.y <= max2.y
    ensures RectRect(min1, max1, min2, max2, NoOverlap) <==> exists p :: In(p, Rect(min1, max1)) && In(p, Rect(min2, max2))
  {
    if RectRect(min1, max1, min2, max2, NoOverlap) {
      var x, y := if min1.x > min2.x then min1.x else min2.x, if min1.y > min2.y then min1.y else min2.y;
      assert In(Point(x as real, y as real), Rect(min1, max1)) && In(Point(x as real, y as real), Rect(min2, max2));
    }
  }

  // Circles overlap exactly if their centers are less than one unit further apart than the radii.
  lemma CirclesExactly(c1: Coord, r1: nat, c2: Coord, r2: nat)
    ensures CircleCircle(c1, r1, c2, r2, NoOverlap) <==> SquaredDistance(c1, c2) < (r1 + r2 + 1) * (r1 + r2 + 1)
  {
    var n, d, r := SquaredDistance(c1, c2), Distance(c1, c2), r1 + r2;
    if d <= r {
      NatSquares(d + 1, r + 1);
    } else {
      NatSquares(r + 1, d);
    }
  }

  // Radii 0 and 1 at a distance of the root of 2: no point is in both circles.
  lemma CirclesApart()
    ensures var c1, c2 := Coord(0, 0), Coord(1, 1);
            CircleCircle(c1, 0, c2, 1, NoOverlap) && forall p :: !(In(p, Circle(c1, 0)) && In(p, Circle(c2, 1)))
  {
    CirclesExactly(Coord(0, 0), 0, Coord(1, 1), 1);
    forall p ensures !(In(p, Circle(Coord(0, 0), 0)) && In(p, Circle(Coord(1, 1), 1))) {
      if In(p, Circle(Coord(0, 0), 0)) {
        WithinRadius(p.x, p.y, 0.0);
        assert SumOfSquares(0.0 - 1.0, 0.0 - 1.0) == 2.0;
      }
    }
  }

  // A circle and a rectangle overlap exactly if the square around the circle meets the rectangle.
  lemma CircleRectExactly(c: Coord, r: nat, min: Coord, max: Coord)
    requires min.x <= max.x && min.y <= max.y
    ensures CircleRect(c, r, min, max, NoOverlap)
       <==> exists p :: In(p, Rect(Coord(c.x - r, c.y - r), Coord(c.x + r, c.y + r))) && In(p, Rect(min, max))
  {
    RectsExactly(Coord(c.x - r, c.y - r), Coord(c.x + r, c.y + r), min, max);
  }

  // Radius 1 around the origin, and a rectangle that begins at (1, 1): again no point is in both.
  lemma CircleRectApart()
    ensures var c, min, max := Coord(0, 0), Coord(1, 1), Coord(2, 2);
            CircleRect(c, 1, min, max, NoOverlap) && forall p :: !(In(p, Circle(c, 1)) && In(p, Rect(min, max)))
  {
    forall p ensures !(In(p, Circle(Coord(0, 0), 1)) && In(p, Rect(Coord(1, 1), Coord(2, 2)))) {
      if In(p, Rect(Coord(1, 1), Coord(2, 2))) {
        ProductsGrow(1.0, 1.0, p.x, p.x);
        ProductsGrow(1.0, 1.0, p.y, p.y);
      }
    }
  }

  // One item is inside another exactly if the rectangle around it is.
  lemma InsideExactly(a: Inst, b: Inst)
    ensures Inside(a, b) <==> forall p | Around(a, p) :: Around(b, p)
  {
    var min, max := Low(a.base, a.other), High(a.base, a.other);
    assert Around(a, Point(min.x as real, min.y as real)) && Around(a, Point(max.x as real, max.y as real));
  }

  // Between two numbers, whichever is the larger one.
  ghost predicate Between(x: real, u: int, v: int) { u as real <= x <= v as real || v as real <= x <= u as real }

  // In the rectangle between the corners of an item.
  ghost predicate Around(a: Inst, p: Point) { Between(p.x, a.base.x, a.other.x) && Between(p.y, a.base.y, a.other.y) }

  // ----- what an item covers, by its corners -----

  // An item that is not rounded covers the rectangle.
  lemma PlainCovers(a: Inst, p: Point)
    requires !a.rounded
    ensures Covers(a, p) <==> Around(a, p)
  {
    assert Covers(a, p) <==> In(p, Shapes(a)[0]);
  }

  // No farther than r from (x, y).
  ghost predicate Near(p: Point, x: int, y: int, r: nat) {
    (p.x - x as real) * (p.x - x as real) + (p.y - y as real) * (p.y - y as real) <= r as real * r as real
  }

  // A rounded item that is higher than wide, from corner (x, y), w wide and h high: two half circles of
  // half the width, truncated, at the ends of a rectangle.
  lemma HighCovers(a: Inst, x: int, y: int, w: nat, h: nat, p: Point)
    requires a.rounded && w < h
    requires {a.base.x, a.other.x} == {x, x + w} && {a.base.y, a.other.y} == {y, y + h}
    ensures var r := w / 2;
            Covers(a, p) == (
              || (x as real <= p.x <= (x + w) as real && (y + r) as real <= p.y <= (y + h - r) as real)
              || Near(p, x + r, y + h - r, r) || Near(p, x + r, y + r, r))
  {
    var r := w / 2;
    LowHigh(a, x, y, w, h);
    ThreeShapes(a, p, Coord(x + r, y + h - r), Coord(x + r, y + r), r, Coord(x, y + r), Coord(x + w, y + h - r));
  }

  // The same for one that is not higher than wide.
  lemma WideCovers(a: Inst, x: int, y: int, w: nat, h: nat, p: Point)
    requires a.rounded && h <= w
    requires {a.base.x, a.other.x} == {x, x + w} && {a.base.y, a.other.y} == {y, y + h}
    ensures var r := h / 2;
            Covers(a, p) == (
              || (y as real <= p.y <= (y + h) as real && (x + r) as real <= p.x <= (x + w - r) as real)
              || Near(p, x + r, y + r, r) || Near(p, x + w - r, y + r, r))
  {
    var r := h / 2;
    LowHigh(a, x, y, w, h);
    ThreeShapes(a, p, Coord(x + r, y + r), Coord(x + w - r, y + r), r, Coord(x + r, y), Coord(x + w - r, y + h));
  }

  lemma ThreeShapes(a: Inst, p: Point, c: Coord, d: Coord, r: nat, min: Coord, max: Coord)
    requires Shapes(a) == [Circle(c, r), Rect(min, max), Circle(d, r)]
    ensures Covers(a, p) <==> In(p, Rect(min, max)) || Near(p, c.x, c.y, r) || Near(p, d.x, d.y, r)
  {
    assert Shapes(a)[0] == Circle(c, r) && Shapes(a)[1] == Rect(min, max) && Shapes(a)[2] == Circle(d, r);
    InCircle(p, c, r);
    InCircle(p, d, r);
  }

  lemma InCircle(p: Point, c: Coord, r: nat)
    ensures In(p, Circle(c, r)) <==> Near(p, c.x, c.y, r)
  {}

  lemma LowHigh(a: Inst, x: int, y: int, w: nat, h: nat)
    requires {a.base.x, a.other.x} == {x, x + w} && {a.base.y, a.other.y} == {y, y + h}
    ensures Low(a.base, a.other) == Coord(x, y) && High(a.base, a.other) == Coord(x + w, y + h)
  {
    assert x in {a.base.x, a.other.x} && x + w in {a.base.x, a.other.x};
    assert y in {a.base.y, a.other.y} && y + h in {a.base.y, a.other.y};
    assert a.base.x in {x, x + w} && a.other.x in {x, x + w};
    assert a.base.y in {y, y + h} && a.other.y in {y, y + h};
  }

  // ----- where touching is allowed -----

  // Not on the border.
  ghost predicate Inner(p: Point, s: Shape) {
    match s
    case Circle(c, r) => r >= 0 && SumOfSquares(p.x - c.x as real, p.y - c.y as real) < (r as real) * (r as real)
    case Rect(min, max) => min.x as real < p.x < max.x as real && min.y as real < p.y < max.y as real
  }

  // Then rectangles overlap exactly if they have an inner point in common.
  lemma RectsTouch(min1: Coord, max1: Coord, min2: Coord, max2: Coord)
    requires min1.x < max1.x && min1.y < max1.y && min2.x < max2.x && min2.y < max2.y
    ensures RectRect(min1, max1, min2, max2, Touch) <==> exists p :: Inner(p, Rect(min1, max1)) && Inner(p, Rect(min2, max2))
  {
    if RectRect(min1, max1, min2, max2, Touch) {
      var low, high := High(min1, min2), Low(max1, max2);
      var p := Point((low.x + high.x) as real / 2.0, (low.y + high.y) as real / 2.0);
      assert Inner(p, Rect(min1, max1)) && Inner(p, Rect(min2, max2));
    }
  }

  // So do a circle and a rectangle, with the square around the circle.
  lemma CircleRectTouch(c: Coord, r: int, min: Coord, max: Coord)
    requires r > 0 && min.x < max.x && min.y < max.y
    ensures CircleRect(c, r, min, max, Touch)
       <==> exists p :: Inner(p, Rect(Coord(c.x - r, c.y - r), Coord(c.x + r, c.y + r))) && Inner(p, Rect(min, max))
  {
    RectsTouch(Coord(c.x - r, c.y - r), Coord(c.x + r, c.y + r), min, max);
  }

  // And two circles, with nothing lost by truncation.
  lemma CirclesTouch(c1: Coord, r1: int, c2: Coord, r2: int)
    requires r1 > 0 && r2 > 0
    ensures CircleCircle(c1, r1, c2, r2, Touch) <==> exists p :: Inner(p, Circle(c1, r1)) && Inner(p, Circle(c2, r2))
  {
    NearerThan(SquaredDistance(c1, c2), r1 + r2);
    if SquaredDistance(c1, c2) < (r1 + r2) * (r1 + r2) {
      var p := Divides(c1, r1, c2, r2);
    }
    forall p | Inner(p, Circle(c1, r1)) && Inner(p, Circle(c2, r2)) ensures CircleCircle(c1, r1, c2, r2, Touch) {
      InnerMeet(p, c1, r1, c2, r2);
    }
  }

  lemma NearerThan(n: nat, r: nat)
    ensures FloorRoot(n) < r <==> n < r * r
  {
    var d := FloorRoot(n);
    if d < r {
      NatSquares(d + 1, r);
    } else {
      NatSquares(r, d);
    }
  }

  // The point that divides the distance between the centers as the radii do.
  lemma Divides(c1: Coord, r1: int, c2: Coord, r2: int) returns (p: Point)
    requires r1 > 0 && r2 > 0 && SquaredDistance(c1, c2) < (r1 + r2) * (r1 + r2)
    ensures Inner(p, Circle(c1, r1)) && Inner(p, Circle(c2, r2))
  {
    var x, y, a, b := (c2.x - c1.x) as real, (c2.y - c1.y) as real, r1 as real, r2 as real;
    p := Point(c1.x as real + a * x / (a + b), c1.y as real + a * y / (a + b));
    RealSum(c1, c2, r1 + r2);
    Shorter(x, y, a, a + b);
    Shorter(x, y, b, a + b);
    TheRest(x, a, b);
    TheRest(y, a, b);
    OtherSide(p, c2, b * x / (a + b), b * y / (a + b), r2);
  }

  lemma OtherSide(p: Point, c: Coord, u: real, v: real, r: int)
    requires r >= 0 && p.x - c.x as real == -u && p.y - c.y as real == -v && SumOfSquares(u, v) < r as real * r as real
    ensures Inner(p, Circle(c, r))
  {
    SignedSquare(u);
    SignedSquare(v);
  }

  lemma TheRest(x: real, a: real, b: real)
    requires a > 0.0 && b > 0.0
    ensures x - a * x / (a + b) == b * x / (a + b)
  {
    assert x == (a + b) * x / (a + b);
  }

  lemma RealSum(c1: Coord, c2: Coord, r: int)
    requires SquaredDistance(c1, c2) < r * r
    ensures SumOfSquares((c2.x - c1.x) as real, (c2.y - c1.y) as real) < r as real * r as real
  {
    var x, y := c2.x - c1.x, c2.y - c1.y;
    RealSquare(x);
    RealSquare(y);
    RealSquare(r);
    DistanceSymmetric(c1, c2);
    assert (x * x + y * y) as real == (x * x) as real + (y * y) as real;
  }

  // A vector shorter than r, scaled down by a / r, is shorter than a.
  lemma Shorter(x: real, y: real, a: real, r: real)
    requires r > 0.0 && a > 0.0 && SumOfSquares(x, y) < r * r
    ensures SumOfSquares(a * x / r, a * y / r) < a * a
  {
    var k := a / r;
    assert a * x / r == k * x && a * y / r == k * y && k * r == a && k > 0.0;
    Scaled(x, y, k);
    Products(SumOfSquares(x, y), r * r, k * k);
    assert k * k * (r * r) == (k * r) * (k * r);
  }

  lemma Scaled(x: real, y: real, k: real)
    ensures SumOfSquares(k * x, k * y) == k * k * SumOfSquares(x, y)
  {
    assert (k * x) * (k * x) == k * k * (x * x) && (k * y) * (k * y) == k * k * (y * y);
  }

  lemma Products(x: real, y: real, k: real)
    requires x < y && k > 0.0
    ensures k * x < k * y
  {
    PositiveProduct(k, y - x);
  }

  lemma InnerMeet(p: Point, c1: Coord, r1: int, c2: Coord, r2: int)
    requires Inner(p, Circle(c1, r1)) && Inner(p, Circle(c2, r2))
    ensures CircleCircle(c1, r1, c2, r2, Touch)
  {
    var a, b := p.x - c1.x as real, p.y - c1.y as real;
    var c, d := p.x - c2.x as real, p.y - c2.y as real;
    StrictTriangle(a, b, c, d, r1 as real, r2 as real);
    var x, y := c2.x - c1.x, c2.y - c1.y;
    assert a - c == x as real && b - d == y as real && (r1 + r2) as real == r1 as real + r2 as real;
    GridStrictly(x, y, r1 + r2);
    DistanceSymmetric(c1, c2);
    NearerThan(SquaredDistance(c1, c2), r1 + r2);
  }

  lemma GridStrictly(x: int, y: int, r: int)
    requires SumOfSquares(x as real, y as real) < r as real * r as real
    ensures x * x + y * y < r * r
  {
    RealSquare(x);
    RealSquare(y);
    RealSquare(r);
    assert (x * x + y * y) as real == (x * x) as real + (y * y) as real;
  }

  lemma StrictTriangle(a: real, b: real, c: real, d: real, r: real, s: real)
    requires r >= 0.0 && s >= 0.0 && SumOfSquares(a, b) < r * r && SumOfSquares(c, d) < s * s
    ensures SumOfSquares(a - c, b - d) < (r + s) * (r + s)
  {
    var dot := a * c + b * d;
    CauchySchwarz(a, b, c, d);
    ProductsGrow(SumOfSquares(a, b), SumOfSquares(c, d), r * r, s * s);
    Regroup(r, s);
    RootsGrow(dot, r * s);
    Expand(a, b, c, d);
  }

  ghost predicate CoversInner(a: Inst, p: Point) { exists k :: 0 <= k < |Shapes(a)| && Inner(p, Shapes(a)[k]) }

  // If an inner point is in both items, they overlap even where touching is allowed.
  lemma TouchMisses(a: Inst, b: Inst, p: Point)
    requires CoversInner(a, p) && CoversInner(b, p)
    ensures Overlap(a, b, Touch)
  {
    var i :| 0 <= i < |Shapes(a)| && Inner(p, Shapes(a)[i]);
    var j :| 0 <= j < |Shapes(b)| && Inner(p, Shapes(b)[j]);
    ShapesInner(p, Shapes(a)[i], Shapes(b)[j]);
    OverlapIsPairwise(a, b, Touch);
  }

  lemma ShapesInner(p: Point, s: Shape, t: Shape)
    requires Inner(p, s) && Inner(p, t)
    ensures ShapesOverlap(s, t, Touch)
  {
    match (s, t)
    case (Circle(c1, r1), Circle(c2, r2)) => InnerMeet(p, c1, r1, c2, r2);
    case (Circle(c, r), Rect(min, max)) => InSquare(p, c, r);
    case (Rect(min, max), Circle(c, r)) => InSquare(p, c, r);
    case (Rect(_, _), Rect(_, _)) =>
  }

  lemma InSquare(p: Point, c: Coord, r: int)
    requires Inner(p, Circle(c, r))
    ensures Inner(p, Rect(Coord(c.x - r, c.y - r), Coord(c.x + r, c.y + r)))
  {
    WithinStrictly(p.x - c.x as real, p.y - c.y as real, r as real);
    WithinStrictly(p.y - c.y as real, p.x - c.x as real, r as real);
  }

  lemma WithinStrictly(x: real, y: real, r: real)
    requires r >= 0.0 && SumOfSquares(x, y) < r * r
    ensures -r < x < r
  {
    assert y * y >= 0.0;
    RootsGrow(x, r);
    if x == r || x == -r {
      SignedSquare(r);
    }
  }
}
