// The measurements of fped (eda/fped/meas.c): of all positions that a vector takes on, only what
// queries can tell apart is kept.
module Meas {
  import opened Wrappers
  import opened Coords
  import opened Bitset

  // A position, and the frames through which it was reached.
  datatype Post = Post(pos: Coord, frames: set<nat>)

  // ----- orders on positions -----

  datatype Order = ByXY | ByX | ByY

  // lt_xy, lt_x, lt_y
  predicate Lt(lt: Order, a: Coord, b: Coord) {
    match lt
    case ByXY => a.y < b.y || (a.y == b.y && a.x < b.x)
    case ByX => a.x < b.x
    case ByY => a.y < b.y
  }

  // closer: the smaller distance, and of two equal distances the positive one
  predicate Closer(da: int, db: int) {
    var a, b := if da < 0 then -da else da, if db < 0 then -db else db;
    a < b || (a == b && da > db)
  }

  // better_next
  predicate BetterNext(lt: Order, a0: Coord, b0: Coord, b: Coord) {
    if !Lt(lt, a0, b0) then true
    else if !Lt(lt, a0, b) then false
    else if Lt(lt, b, b0) then true
    else if Lt(lt, b0, b) then false
    else match lt
      case ByXY => false
      case ByX => Closer(b.y - a0.y, b0.y - a0.y)
      case ByY => Closer(b.x - a0.x, b0.x - a0.x)
  }

  // ----- what the queries mean -----

  // The positions among posts that were reached through all frames of the qualifier.
  ghost predicate Candidate(posts: set<Post>, qual: set<nat>, p: Coord) {
    exists e :: e in posts && e.pos == p && qual <= e.frames
  }

  // Ahead in one order, or level and ahead in the order by y and x.
  ghost predicate Ahead(lt: Order, a: Coord, b: Coord) { Lt(lt, a, b) || (!Lt(lt, b, a) && Lt(ByXY, a, b)) }

  ghost predicate IsMin(lt: Order, posts: set<Post>, qual: set<nat>, p: Coord) {
    Candidate(posts, qual, p) && forall c | Candidate(posts, qual, c) :: c == p || Ahead(lt, p, c)
  }

  ghost predicate IsMax(lt: Order, posts: set<Post>, qual: set<nat>, p: Coord) {
    Candidate(posts, qual, p) && forall c | Candidate(posts, qual, c) :: c == p || Ahead(lt, c, p)
  }

  // Ahead in one order, or level and closer to a0 across it.
  ghost predicate Nearer(lt: Order, a0: Coord, a: Coord, b: Coord) {
    || Lt(lt, a, b)
    || (!Lt(lt, b, a) && match lt
        case ByXY => false
        case ByX => Closer(a.y - a0.y, b.y - a0.y)
        case ByY => Closer(a.x - a0.x, b.x - a0.x))
  }

  // The nearest position beyond a0; if there is none beyond, the greatest position of all.
  ghost predicate IsNext(lt: Order, posts: set<Post>, qual: set<nat>, a0: Coord, p: Coord) {
    && Candidate(posts, qual, p)
    && if exists c :: Candidate(posts, qual, c) && Lt(lt, a0, c) then
         && Lt(lt, a0, p)
         && forall c | Candidate(posts, qual, c) && Lt(lt, a0, c) :: c == p || Nearer(lt, a0, p, c)
       else
         forall c | Candidate(posts, qual, c) :: c == p || Lt(ByXY, c, p)
  }

  // Each query has one answer at most, so it depends on the set of posts alone.
  lemma OneAnswer(lt: Order, posts: set<Post>, qual: set<nat>, a0: Coord, p: Coord, q: Coord)
    ensures IsMin(lt, posts, qual, p) && IsMin(lt, posts, qual, q) ==> p == q
    ensures IsMax(lt, posts, qual, p) && IsMax(lt, posts, qual, q) ==> p == q
    ensures IsNext(lt, posts, qual, a0, p) && IsNext(lt, posts, qual, a0, q) ==> p == q
  {
    if IsNext(lt, posts, qual, a0, p) && IsNext(lt, posts, qual, a0, q) && p != q {
      if c :| Candidate(posts, qual, c) && Lt(lt, a0, c) {
        assert false;
      }
    }
  }

  // ----- the queries in coordinates -----

  // Least and greatest are by rows, from left to right; by x, positions of one x are taken by y.
  lemma ExtremesMean(lt: Order, posts: set<Post>, qual: set<nat>, p: Coord)
    ensures IsMin(lt, posts, qual, p) <==>
      && Candidate(posts, qual, p)
      && forall c | Candidate(posts, qual, c) ::
        if lt.ByX? then p.x < c.x || (p.x == c.x && p.y <= c.y) else p.y < c.y || (p.y == c.y && p.x <= c.x)
    ensures IsMax(lt, posts, qual, p) <==>
      && Candidate(posts, qual, p)
      && forall c | Candidate(posts, qual, c) ::
        if lt.ByX? then c.x < p.x || (c.x == p.x && c.y <= p.y) else c.y < p.y || (c.y == p.y && c.x <= p.x)
  {
    if IsMin(lt, posts, qual, p) {
      forall c | Candidate(posts, qual, c)
        ensures if lt.ByX? then p.x < c.x || (p.x == c.x && p.y <= c.y) else p.y < c.y || (p.y == c.y && p.x <= c.x)
      {}
    }
    if IsMax(lt, posts, qual, p) {
      forall c | Candidate(posts, qual, c)
        ensures if lt.ByX? then c.x < p.x || (c.x == p.x && c.y <= p.y) else c.y < p.y || (c.y == p.y && c.x <= p.x)
      {}
    }
  }

  // a is not farther from zero than b, and on the positive side if both are as far.
  lemma CloserMeans(a: int, b: int)
    ensures a == b || Closer(a, b) <==> a * a < b * b || (a * a == b * b && b <= a)
  {
    var c, d := if a < 0 then -a else a, if b < 0 then -b else b;
    assert a * a == c * c && b * b == d * d;
    if c < d {
      assert c * c < d * d by {
        assert c * c <= c * d;
        assert c * d < d * d;
      }
    } else if d < c {
      assert d * d < c * c by {
        assert d * d <= d * c;
        assert d * c < c * c;
      }
    }
  }

  // Beyond the reference along x, the least x is taken, then the least distance along y, then the
  // positive side.
  lemma NextAlongX(posts: set<Post>, qual: set<nat>, ref: Coord, p: Coord, c: Coord)
    requires IsNext(ByX, posts, qual, ref, p) && Candidate(posts, qual, c) && ref.x < c.x
    ensures ref.x < p.x <= c.x
    ensures p.x == c.x ==>
      var d, e := p.y - ref.y, c.y - ref.y;
      d * d < e * e || (d * d == e * e && e <= d)
  {
    CloserMeans(p.y - ref.y, c.y - ref.y);
  }

  // The same along y.
  lemma NextAlongY(posts: set<Post>, qual: set<nat>, ref: Coord, p: Coord, c: Coord)
    requires IsNext(ByY, posts, qual, ref, p) && Candidate(posts, qual, c) && ref.y < c.y
    ensures ref.y < p.y <= c.y
    ensures p.y == c.y ==>
      var d, e := p.x - ref.x, c.x - ref.x;
      d * d < e * e || (d * d == e * e && e <= d)
  {
    CloserMeans(p.x - ref.x, c.x - ref.x);
  }

  // By rows, the first position behind the reference is taken.
  lemma NextByRows(posts: set<Post>, qual: set<nat>, ref: Coord, p: Coord, c: Coord)
    requires IsNext(ByXY, posts, qual, ref, p) && Candidate(posts, qual, c)
    requires ref.y < c.y || (ref.y == c.y && ref.x < c.x)
    ensures ref.y < p.y || (ref.y == p.y && ref.x < p.x)
    ensures p.y < c.y || (p.y == c.y && p.x <= c.x)
  {
    assert Lt(ByXY, ref, c);
  }

  // With no position beyond the reference, the last one by rows is taken.
  lemma NextBehind(lt: Order, posts: set<Post>, qual: set<nat>, ref: Coord, p: Coord)
    requires IsNext(lt, posts, qual, ref, p)
    requires forall c | Candidate(posts, qual, c) ::
      match lt
      case ByXY => c.y < ref.y || (c.y == ref.y && c.x <= ref.x)
      case ByX => c.x <= ref.x
      case ByY => c.y <= ref.y
    ensures Candidate(posts, qual, p)
    ensures forall c | Candidate(posts, qual, c) :: c.y < p.y || (c.y == p.y && c.x <= p.x)
  {
    forall c | Candidate(posts, qual, c) ensures c.y < p.y || (c.y == p.y && c.x <= p.x) {
      assert !Lt(lt, ref, c);
    }
  }

  // ----- what is kept -----

  // The list has no position that was not posted, and for each post one that can stand for it.
  ghost predicate Covers(view: seq<Post>, posts: set<Post>) {
    && (forall e | e in view :: e in posts)
    && forall p {:trigger StoodFor(view, p)} | p in posts :: StoodFor(view, p)
  }

  // Some element of the list is at the position of p and was reached through all frames p was.
  ghost predicate StoodFor(view: seq<Post>, p: Post) {
    exists i: nat :: i < |view| && view[i].pos == p.pos && p.frames <= view[i].frames
  }

  ghost predicate Sorted(view: seq<Post>) {
    forall i, j | 0 <= i < j < |view| :: !Lt(ByXY, view[j].pos, view[i].pos)
  }

  ghost predicate Candidates(view: seq<Post>, qual: set<nat>, p: Coord) {
    exists e :: e in view && e.pos == p && qual <= e.frames
  }

  // No qualifier can tell the list from the set of all posts.
  lemma SameCandidates(view: seq<Post>, posts: set<Post>, qual: set<nat>, p: Coord)
    requires Covers(view, posts)
    ensures Candidates(view, qual, p) <==> Candidate(posts, qual, p)
  {
    if e :| e in posts && e.pos == p && qual <= e.frames {
      assert StoodFor(view, e);
      var i: nat :| i < |view| && view[i].pos == e.pos && e.frames <= view[i].frames;
      assert view[i] in view;
    }
  }

  lemma CoversKnown(view: seq<Post>, posts: set<Post>, i: nat, p: Post)
    requires Covers(view, posts) && i < |view| && view[i].pos == p.pos && p.frames <= view[i].frames
    ensures Covers(view, posts + {p})
  {
    assert StoodFor(view, p);
    forall q | q in posts + {p} ensures StoodFor(view, q) {}
  }

  lemma CoversGrown(view: seq<Post>, posts: set<Post>, i: nat, p: Post)
    requires Covers(view, posts) && i < |view| && view[i].pos == p.pos && view[i].frames <= p.frames
    ensures Covers(view[i := p], posts + {p})
  {
    var view' := view[i := p];
    forall q | q in posts + {p} ensures StoodFor(view', q) {
      if q == p {
        assert view'[i] == p;
      } else {
        assert StoodFor(view, q);
        var k: nat :| k < |view| && view[k].pos == q.pos && q.frames <= view[k].frames;
        assert view'[k].pos == q.pos && q.frames <= view'[k].frames;
      }
    }
  }

  lemma CoversInserted(view: seq<Post>, posts: set<Post>, i: nat, p: Post)
    requires Covers(view, posts) && i <= |view|
    ensures Covers(view[..i] + [p] + view[i..], posts + {p})
  {
    var view' := view[..i] + [p] + view[i..];
    forall q | q in posts + {p} ensures StoodFor(view', q) {
      if q == p {
        assert view'[i] == p;
      } else {
        assert StoodFor(view, q);
        var k: nat :| k < |view| && view[k].pos == q.pos && q.frames <= view[k].frames;
        var k' := if k < i then k else k + 1;
        assert view'[k'] == view[k];
      }
    }
  }

  lemma SortedInserted(view: seq<Post>, i: nat, p: Post)
    requires Sorted(view) && i <= |view|
    requires forall k | 0 <= k < i :: !Lt(ByXY, p.pos, view[k].pos)
    requires i < |view| ==> Lt(ByXY, p.pos, view[i].pos)
    ensures Sorted(view[..i] + [p] + view[i..])
  {
    var view' := view[..i] + [p] + view[i..];
    forall k | i <= k < |view| ensures !Lt(ByXY, view[k].pos, p.pos) {
      if i < k {
        assert !Lt(ByXY, view[k].pos, view[i].pos);
      }
    }
  }

  class Sample {
    const pos: Coord
    const frameSet: Bitset

    constructor (pos: Coord, frameSet: Bitset)
      ensures this.pos == pos && this.frameSet == frameSet
    {
      this.pos, this.frameSet := pos, frameSet;
    }
  }

  // The samples of one vector.
  class Samples {
    var list: seq<Sample>
    const words: nat
    ghost var view: seq<Post>
    ghost var posts: set<Post>
    ghost var repr: set<object>

    ghost predicate Apart()
      reads this
    {
      forall i, j | 0 <= i < j < |list| :: list[i].frameSet.v != list[j].frameSet.v
    }

    ghost predicate Valid()
      reads this, repr
    {
      && this !in repr && |view| == |list| && Apart()
      && (forall i | 0 <= i < |list| ::
        && list[i].frameSet.v in repr && list[i].frameSet.v.Length == words
        && view[i] == Post(list[i].pos, list[i].frameSet.Contents()))
      && Sorted(view) && Covers(view, posts)
    }

    constructor (words: nat)
      ensures Valid() && posts == {} && this.words == words && repr == {}
    {
      list, this.words, view, posts, repr := [], words, [], {}, {};
    }

    // meas_post
    method Add(pos: Coord, frameSet: Bitset)
      requires Valid() && frameSet.v.Length == words && frameSet.v !in repr
      modifies this, repr
      ensures Valid() && fresh(repr - old(repr)) && frameSet.Contents() == old(frameSet.Contents())
      ensures posts == old(posts) + {Post(pos, frameSet.Contents())}
    {
      ghost var p := Post(pos, frameSet.Contents());
      var i := 0;
      while i < |list|
        invariant i <= |list| && Valid() && list == old(list) && view == old(view) && posts == old(posts) && repr == old(repr)
        invariant frameSet.Contents() == old(frameSet.Contents())
        invariant forall k | 0 <= k < i :: !Lt(ByXY, pos, view[k].pos)
      {
        var at := list[i].pos;
        if pos.y < at.y {
          break;
        }
        if pos.y == at.y {
          if pos.x < at.x {
            break;
          }
          if pos.x == at.x {
            var known := list[i].frameSet.Ge(frameSet);
            if known {
              CoversKnown(view, posts, i, p);
              posts := posts + {p};
              return;
            }
            var grown := frameSet.Ge(list[i].frameSet);
            if grown {
              GrowAt(i, frameSet);
              return;
            }
          }
        }
        i := i + 1;
      }
      InsertAt(i, pos, frameSet);
    }

    method GrowAt(i: nat, frameSet: Bitset)
      requires Valid() && frameSet.v.Length == words && frameSet.v !in repr && i < |list|
      requires view[i].frames <= frameSet.Contents()
      modifies this`view, this`posts, repr
      ensures Valid() && frameSet.Contents() == old(frameSet.Contents()) && list == old(list) && repr == old(repr)
      ensures posts == old(posts) + {Post(list[i].pos, frameSet.Contents())}
    {
      ghost var p := Post(list[i].pos, frameSet.Contents());
      CoversGrown(view, posts, i, p);
      list[i].frameSet.Join(frameSet);
      view, posts := view[i := p], posts + {p};
    }

    method InsertAt(i: nat, pos: Coord, frameSet: Bitset)
      requires Valid() && frameSet.v.Length == words && frameSet.v !in repr && i <= |list|
      requires forall k | 0 <= k < i :: !Lt(ByXY, pos, view[k].pos)
      requires i < |view| ==> Lt(ByXY, pos, view[i].pos)
      modifies this
      ensures Valid() && fresh(repr - old(repr)) && frameSet.Contents() == old(frameSet.Contents())
      ensures posts == old(posts) + {Post(pos, frameSet.Contents())}
    {
      ghost var p := Post(pos, frameSet.Contents());
      CoversInserted(view, posts, i, p);
      SortedInserted(view, i, p);
      var clone := new Bitset.Clone(frameSet);
      var sample := new Sample(pos, clone);
      list := list[..i] + [sample] + list[i..];
      view, posts, repr := view[..i] + [p] + view[i..], posts + {p}, repr + {clone.v};
    }

    // The test that all three searches make.
    method Matches(i: nat, qual: Bitset) returns (ok: bool)
      requires Valid() && qual.v.Length == words && i < |list|
      ensures ok <==> qual.Contents() <= view[i].frames
    {
      ok := list[i].frameSet.Ge(qual);
    }

    // meas_find_min
    method FindMin(lt: Order, qual: Bitset) returns (min: Option<Coord>)
      requires Valid() && qual.v.Length == words
      ensures min.None? <==> !Any(posts, qual.Contents())
      ensures min.Some? ==> IsMin(lt, posts, qual.Contents(), min.value)
    {
      ghost var q := qual.Contents();
      min := None;
      for i := 0 to |list|
        invariant MinSoFar(lt, view, q, i, min)
      {
        var matches := Matches(i, qual);
        var pos := list[i].pos;
        if matches && (min.None? || Lt(lt, pos, min.value) || (!Lt(lt, min.value, pos) && Lt(ByXY, pos, min.value))) {
          min := Some(pos);
        }
      }
      MinFound(lt, view, posts, q, min);
    }

    // meas_find_max
    method FindMax(lt: Order, qual: Bitset) returns (max: Option<Coord>)
      requires Valid() && qual.v.Length == words
      ensures max.None? <==> !Any(posts, qual.Contents())
      ensures max.Some? ==> IsMax(lt, posts, qual.Contents(), max.value)
    {
      ghost var q := qual.Contents();
      max := None;
      for i := 0 to |list|
        invariant MaxSoFar(lt, view, q, i, max)
      {
        var matches := Matches(i, qual);
        var pos := list[i].pos;
        if matches && (max.None? || Lt(lt, max.value, pos) || (!Lt(lt, pos, max.value) && Lt(ByXY, max.value, pos))) {
          max := Some(pos);
        }
      }
      MaxFound(lt, view, posts, q, max);
    }

    // meas_find_next
    method FindNext(lt: Order, ref: Coord, qual: Bitset) returns (next: Option<Coord>)
      requires Valid() && qual.v.Length == words
      ensures next.None? <==> !Any(posts, qual.Contents())
      ensures next.Some? ==> IsNext(lt, posts, qual.Contents(), ref, next.value)
    {
      ghost var q := qual.Contents();
      next := None;
      for i := 0 to |list|
        invariant NextSoFar(lt, view, q, ref, i, next)
      {
        var matches := Matches(i, qual);
        var pos := list[i].pos;
        if matches && (next.None? || BetterNext(lt, ref, next.value, pos)) {
          next := Some(pos);
        }
      }
      NextFound(lt, view, posts, q, ref, next);
    }
  }

  // ----- searches through a list -----

  ghost predicate Any(posts: set<Post>, qual: set<nat>) { exists p :: Candidate(posts, qual, p) }

  // best is the position of a match among the first n elements, or there is no match among them.
  ghost predicate FoundIn(view: seq<Post>, q: set<nat>, n: nat, best: Option<Coord>)
    requires n <= |view|
  {
    match best
    case None => forall k | 0 <= k < n :: !(q <= view[k].frames)
    case Some(p) => exists k :: 0 <= k < n && q <= view[k].frames && view[k].pos == p
  }

  ghost predicate MinSoFar(lt: Order, view: seq<Post>, q: set<nat>, n: nat, min: Option<Coord>)
    requires n <= |view|
  {
    && FoundIn(view, q, n, min)
    && (min.Some? ==> forall k | 0 <= k < n && q <= view[k].frames :: view[k].pos == min.value || Ahead(lt, min.value, view[k].pos))
  }

  ghost predicate MaxSoFar(lt: Order, view: seq<Post>, q: set<nat>, n: nat, max: Option<Coord>)
    requires n <= |view|
  {
    && FoundIn(view, q, n, max)
    && (max.Some? ==> forall k | 0 <= k < n && q <= view[k].frames :: view[k].pos == max.value || Ahead(lt, view[k].pos, max.value))
  }

  ghost predicate NextSoFar(lt: Order, view: seq<Post>, q: set<nat>, ref: Coord, n: nat, next: Option<Coord>)
    requires n <= |view|
  {
    && FoundIn(view, q, n, next)
    && (next.Some? ==>
      if Lt(lt, ref, next.value) then
        forall k | 0 <= k < n && q <= view[k].frames && Lt(lt, ref, view[k].pos) ::
          view[k].pos == next.value || Nearer(lt, ref, next.value, view[k].pos)
      else
        && (forall k | 0 <= k < n && q <= view[k].frames :: !Lt(lt, ref, view[k].pos))
        && forall k | 0 <= k < n && q <= view[k].frames :: !Lt(ByXY, next.value, view[k].pos))
  }

  lemma FoundAll(view: seq<Post>, posts: set<Post>, q: set<nat>, best: Option<Coord>)
    requires Covers(view, posts) && FoundIn(view, q, |view|, best)
    ensures best.None? <==> !Any(posts, q)
    ensures best.Some? ==> Candidate(posts, q, best.value)
    ensures forall p | Candidate(posts, q, p) :: exists k :: 0 <= k < |view| && q <= view[k].frames && view[k].pos == p
  {
    if best.Some? {
      var k :| 0 <= k < |view| && q <= view[k].frames && view[k].pos == best.value;
      assert view[k] in view;
      SameCandidates(view, posts, q, best.value);
    }
    forall p | Candidate(posts, q, p) ensures exists k :: 0 <= k < |view| && q <= view[k].frames && view[k].pos == p {
      SameCandidates(view, posts, q, p);
    }
  }

  lemma MinFound(lt: Order, view: seq<Post>, posts: set<Post>, q: set<nat>, min: Option<Coord>)
    requires Covers(view, posts) && MinSoFar(lt, view, q, |view|, min)
    ensures min.None? <==> !Any(posts, q)
    ensures min.Some? ==> IsMin(lt, posts, q, min.value)
  {
    FoundAll(view, posts, q, min);
  }

  lemma MaxFound(lt: Order, view: seq<Post>, posts: set<Post>, q: set<nat>, max: Option<Coord>)
    requires Covers(view, posts) && MaxSoFar(lt, view, q, |view|, max)
    ensures max.None? <==> !Any(posts, q)
    ensures max.Some? ==> IsMax(lt, posts, q, max.value)
  {
    FoundAll(view, posts, q, max);
  }

  // In a sorted list the last position is the greatest.
  lemma NextFound(lt: Order, view: seq<Post>, posts: set<Post>, q: set<nat>, ref: Coord, next: Option<Coord>)
    requires Covers(view, posts) && NextSoFar(lt, view, q, ref, |view|, next)
    ensures next.None? <==> !Any(posts, q)
    ensures next.Some? ==> IsNext(lt, posts, q, ref, next.value)
  {
    FoundAll(view, posts, q, next);
  }

  // ----- one measurement -----

  datatype MeasType = XYNext | XNext | YNext | XYMax | XMax | YMax

  function OrderOf(kind: MeasType): Order {
    match kind
    case XYNext | XYMax => ByXY
    case XNext | XMax => ByX
    case YNext | YMax => ByY
  }

  predicate LooksForNext(kind: MeasType) { kind.XYNext? || kind.XNext? || kind.YNext? }

  // From the least position of the one vector to the next, or the greatest, of the other.
  ghost predicate Measures(kind: MeasType, low: set<Post>, lq: set<nat>, high: set<Post>, hq: set<nat>, a: Coord, b: Coord) {
    && IsMin(OrderOf(kind), low, lq, a)
    && if LooksForNext(kind) then IsNext(OrderOf(kind), high, hq, a, b) else IsMax(OrderOf(kind), high, hq, b)
  }

  // What is measured follows from what was posted, in whichever order.
  lemma MeasuresOne(kind: MeasType, low: set<Post>, lq: set<nat>, high: set<Post>, hq: set<nat>,
                    a: Coord, b: Coord, c: Coord, d: Coord)
    requires Measures(kind, low, lq, high, hq, a, b) && Measures(kind, low, lq, high, hq, c, d)
    ensures a == c && b == d
  {
    OneAnswer(OrderOf(kind), low, lq, a, a, c);
    OneAnswer(OrderOf(kind), high, hq, a, b, d);
  }

  // What each type of measurement looks for at its two ends.
  lemma TypesMean(low: set<Post>, lq: set<nat>, high: set<Post>, hq: set<nat>, a: Coord, b: Coord)
    ensures Measures(XYNext, low, lq, high, hq, a, b) <==> IsMin(ByXY, low, lq, a) && IsNext(ByXY, high, hq, a, b)
    ensures Measures(XNext, low, lq, high, hq, a, b) <==> IsMin(ByX, low, lq, a) && IsNext(ByX, high, hq, a, b)
    ensures Measures(YNext, low, lq, high, hq, a, b) <==> IsMin(ByY, low, lq, a) && IsNext(ByY, high, hq, a, b)
    ensures Measures(XYMax, low, lq, high, hq, a, b) <==> IsMin(ByXY, low, lq, a) && IsMax(ByXY, high, hq, b)
    ensures Measures(XMax, low, lq, high, hq, a, b) <==> IsMin(ByX, low, lq, a) && IsMax(ByX, high, hq, b)
    ensures Measures(YMax, low, lq, high, hq, a, b) <==> IsMin(ByY, low, lq, a) && IsMax(ByY, high, hq, b)
  {}

  function Numbers(qual: seq<nat>): set<nat> { set f | f in qual }

  // make_frame_set
  method MakeFrameSet(qual: seq<nat>, frames: nat) returns (s: Bitset)
    requires forall f | f in qual :: f < frames
    ensures s.Contents() == Numbers(qual) && s.v.Length == Words(frames) && fresh(s.v)
  {
    s := new Bitset(frames);
    for i := 0 to |qual|
      invariant s.Contents() == Numbers(qual[..i]) && s.v.Length == Words(frames) && fresh(s.v)
    {
      assert qual[i] in qual;
      s.Set(qual[i]);
      assert qual[..i + 1] == qual[..i] + [qual[i]];
    }
    assert qual[..|qual|] == qual;
  }

  // instantiate_meas_pkg, for one object
  method Measure(kind: MeasType, inverted: bool, low: Samples, lowQual: seq<nat>, high: Samples, highQual: seq<nat>, frames: nat)
    returns (ends: Option<(Coord, Coord)>)
    requires low.Valid() && high.Valid() && low.words == high.words == Words(frames)
    requires (forall f | f in lowQual :: f < frames) && forall f | f in highQual :: f < frames
    ensures var lq, hq := Numbers(lowQual), Numbers(highQual);
            && (ends.None? <==> !Any(low.posts, lq) || !Any(high.posts, hq))
            && (ends.Some? ==>
                var (a, b) := ends.value;
                if inverted then Measures(kind, low.posts, lq, high.posts, hq, b, a)
                else Measures(kind, low.posts, lq, high.posts, hq, a, b))
  {
    var lq := MakeFrameSet(lowQual, frames);
    var a0 := low.FindMin(OrderOf(kind), lq);
    if a0.None? {
      return None;
    }
    var hq := MakeFrameSet(highQual, frames);
    var b0: Option<Coord>;
    if LooksForNext(kind) {
      b0 := high.FindNext(OrderOf(kind), a0.value, hq);
    } else {
      b0 := high.FindMax(OrderOf(kind), hq);
    }
    if b0.None? {
      return None;
    }
    return Some(if inverted then (b0.value, a0.value) else (a0.value, b0.value));
  }
}
