// What the topological sort of fped (eda/fped/tsort.c) is meant to compute: Kahn's algorithm with
// priorities that decay, and with the order of insertion as the last criterion.
module TopSortSpec {
  import opened SeqMinus

  datatype Arc<U> = Arc(to: U, priority: int)
  datatype Vertex<U> = Vertex(user: U, decay: bool, arcs: seq<Arc<U>>)

  // ----- graphs -----

  ghost predicate HasArc<U>(v: Vertex<U>, u: U) { exists a :: a in v.arcs && a.to == u }

  // Nothing in g has to come before u.
  ghost predicate Free<U>(g: seq<Vertex<U>>, u: U) { forall w | w in g :: !HasArc(w, u) }

  ghost predicate UniqueUsers<U>(g: seq<Vertex<U>>) {
    forall i, j | 0 <= i < j < |g| :: g[i].user != g[j].user
  }

  // Every arc leads to a vertex of the graph.
  ghost predicate Closed<U>(g: seq<Vertex<U>>) {
    forall v | v in g :: forall a | a in v.arcs :: exists w :: w in g && w.user == a.to
  }

  // A walk along arcs.
  ghost predicate Walk<U>(g: seq<Vertex<U>>, p: seq<Vertex<U>>) {
    && (forall v | v in p :: v in g)
    && forall k: nat {:trigger Leg(p, k)} | k + 1 < |p| :: Leg(p, k)
  }

  ghost predicate Leg<U>(p: seq<Vertex<U>>, k: nat)
    requires k + 1 < |p|
  {
    HasArc(p[k], p[k + 1].user)
  }

  ghost predicate Cyclic<U(!new)>(g: seq<Vertex<U>>) {
    exists p :: Walk(g, p) && |p| >= 2 && p[0] == p[|p| - 1]
  }

  // ----- priorities -----

  function Count<U(==)>(arcs: seq<Arc<U>>, u: U): nat {
    if arcs == [] then 0 else (if arcs[0].to == u then 1 else 0) + Count(arcs[1..], u)
  }

  function Weight<U(==)>(arcs: seq<Arc<U>>, u: U): int {
    if arcs == [] then 0 else (if arcs[0].to == u then arcs[0].priority else 0) + Weight(arcs[1..], u)
  }

  function Incoming<U(==)>(g: seq<Vertex<U>>, u: U): nat {
    if g == [] then 0 else Count(g[0].arcs, u) + Incoming(g[1..], u)
  }

  // The priority u has when out has been output: what the arcs say since the last decay.
  function Accumulated<U(==)>(out: seq<Vertex<U>>, u: U): int {
    if out == [] then 0
    else
      var n := |out| - 1;
      Weight(out[n].arcs, u) + if out[n].decay then 0 else Accumulated(out[..n], u)
  }

  // ----- the order -----

  function Elements<T>(s: seq<T>): set<T> { set x | x in s }

  // w has to give way to v: its priority is lower, or the same and it comes later.
  ghost predicate GivesWay<U>(rest: seq<Vertex<U>>, out: seq<Vertex<U>>, w: Vertex<U>, v: Vertex<U>)
    requires v in rest && w in rest
  {
    var a, b := Accumulated(out, w.user), Accumulated(out, v.user);
    a < b || (a == b && IndexOf(rest, v) <= IndexOf(rest, w))
  }

  // v is the vertex to output next, after out.
  ghost predicate Next<U>(rest: seq<Vertex<U>>, out: seq<Vertex<U>>, v: Vertex<U>) {
    && v in rest && Free(rest, v.user)
    && forall w | w in rest && Free(rest, w.user) :: GivesWay(rest, out, w, v)
  }

  ghost function Rest<U>(g: seq<Vertex<U>>, out: seq<Vertex<U>>): seq<Vertex<U>> {
    Minus(g, Elements(out))
  }

  // Every element of out was next in its turn.
  ghost predicate Greedy<U>(g: seq<Vertex<U>>, out: seq<Vertex<U>>) {
    forall k: nat | k < |out| :: NextAt(g, out, k)
  }

  ghost predicate NextAt<U>(g: seq<Vertex<U>>, out: seq<Vertex<U>>, k: nat)
    requires k < |out|
  {
    Next(Rest(g, out[..k]), out[..k], out[k])
  }

  // Nothing is left that could be output.
  ghost predicate Stuck<U>(rest: seq<Vertex<U>>) {
    forall v {:trigger Free(rest, v.user)} | v in rest :: !Free(rest, v.user)
  }

  lemma RestIn<U(!new)>(g: seq<Vertex<U>>, out: seq<Vertex<U>>, v: Vertex<U>)
    ensures v in Rest(g, out) <==> v in g && v !in out
  {
    MinusIn(g, Elements(out), v);
  }

  // ----- each vertex once, origins before destinations -----

  lemma {:induction false} OutOnce<U(!new)>(g: seq<Vertex<U>>, out: seq<Vertex<U>>)
    requires Greedy(g, out)
    ensures NoDup(out) && forall v | v in out :: v in g
  {
    if out != [] {
      var n := |out| - 1;
      GreedyPrefix(g, out, n);
      OutOnce(g, out[..n]);
      assert NextAt(g, out, n);
      RestIn(g, out[..n], out[n]);
      NoDupInsert(out[..n], n, out[n]);
      assert out == out[..n][..n] + [out[n]] + out[..n][n..];
    }
  }

  lemma GreedyPrefix<U(!new)>(g: seq<Vertex<U>>, out: seq<Vertex<U>>, n: nat)
    requires Greedy(g, out) && n <= |out|
    ensures Greedy(g, out[..n])
  {
    forall k: nat | k < n ensures NextAt(g, out[..n], k) {
      assert NextAt(g, out, k) && out[..n][..k] == out[..k];
    }
  }

  // What is output comes after the origins of all arcs to it.
  lemma OriginsFirst<U(!new)>(g: seq<Vertex<U>>, out: seq<Vertex<U>>, k: nat, w: Vertex<U>)
    requires Greedy(g, out) && k < |out| && w in g && HasArc(w, out[k].user)
    ensures w in out[..k]
  {
    assert NextAt(g, out, k);
    RestIn(g, out[..k], w);
  }

  // ----- cycles -----

  // A complete output leaves no room for a cycle.
  lemma CompleteNotCyclic<U(!new)>(g: seq<Vertex<U>>, out: seq<Vertex<U>>)
    requires Greedy(g, out) && Rest(g, out) == []
    ensures !Cyclic(g)
  {
    OutOnce(g, out);
    forall p | Walk(g, p) && |p| >= 2 ensures p[0] != p[|p| - 1] {
      Climbs(g, out, p, |p| - 1);
    }
  }

  lemma {:induction false} Climbs<U(!new)>(g: seq<Vertex<U>>, out: seq<Vertex<U>>, p: seq<Vertex<U>>, n: nat)
    requires Greedy(g, out) && Rest(g, out) == [] && NoDup(out) && Walk(g, p) && n < |p|
    ensures p[0] in out && p[n] in out && (n > 0 ==> IndexOf(out, p[0]) < IndexOf(out, p[n]))
  {
    RestIn(g, out, p[0]);
    RestIn(g, out, p[n]);
    if n > 0 {
      Climbs(g, out, p, n - 1);
      var k := IndexOf(out, p[n]);
      assert Leg(p, n - 1);
      OriginsFirst(g, out, k, p[n - 1]);
      var j :| 0 <= j < k && out[j] == p[n - 1];
      IndexOfUnique(out, j);
    }
  }

  // If nothing can be output, then going back along arcs never ends.
  lemma {:induction false} WalkBack<U(!new)>(rest: seq<Vertex<U>>, n: nat) returns (p: seq<Vertex<U>>)
    requires Stuck(rest) && rest != [] && n > 0
    ensures |p| == n && Walk(rest, p)
  {
    if n == 1 {
      p := [rest[0]];
    } else {
      var q := WalkBack(rest, n - 1);
      assert q[0] in rest && !Free(rest, q[0].user);
      var w :| w in rest && HasArc(w, q[0].user);
      p := [w] + q;
      forall k: nat | k + 1 < |p| ensures Leg(p, k) {
        if k > 0 {
          assert Leg(q, k - 1);
        }
      }
    }
  }

  lemma {:induction false} Pigeonhole<T>(p: seq<T>, s: set<T>) returns (i: nat, j: nat)
    requires (forall x | x in p :: x in s) && |p| > |s|
    ensures i < j < |p| && p[i] == p[j]
  {
    var n := |p| - 1;
    if k :| 0 <= k < n && p[k] == p[n] {
      i, j := k, n;
    } else {
      assert |s - {p[n]}| < |s|;
      i, j := Pigeonhole(p[..n], s - {p[n]});
    }
  }

  lemma StuckIsCyclic<U(!new)>(rest: seq<Vertex<U>>)
    requires Stuck(rest) && rest != []
    ensures Cyclic(rest)
  {
    var p := WalkBack(rest, |Elements(rest)| + 1);
    var i, j := Pigeonhole(p, Elements(rest));
    CycleIn(rest, p, i, j);
  }

  lemma CycleIn<U(!new)>(g: seq<Vertex<U>>, p: seq<Vertex<U>>, i: nat, j: nat)
    requires Walk(g, p) && i < j < |p| && p[i] == p[j]
    ensures Cyclic(g)
  {
    var c := p[i..j + 1];
    forall k: nat | k < |c| ensures c[k] == p[i + k] {
      SliceAt(p, i, j + 1, k);
    }
    forall k: nat | k + 1 < |c| ensures Leg(c, k) {
      assert Leg(p, i + k) && c[k] == p[i + k] && c[k + 1] == p[i + (k + 1)];
    }
    forall v | v in c ensures v in g {
      assert v in p;
    }
    assert Walk(g, c) && c[0] == c[|c| - 1];
  }

  lemma SliceAt<T>(s: seq<T>, i: nat, j: nat, k: nat)
    requires i <= j <= |s| && k < j - i
    ensures s[i..j][k] == s[i + k]
  {}

  // A sort that has come to its end has output everything exactly if there is no cycle.
  lemma CompleteIffAcyclic<U(!new)>(g: seq<Vertex<U>>, out: seq<Vertex<U>>)
    requires Greedy(g, out) && Stuck(Rest(g, out))
    ensures Rest(g, out) == [] <==> !Cyclic(g)
  {
    if Rest(g, out) == [] {
      CompleteNotCyclic(g, out);
    } else {
      StuckIsCyclic(Rest(g, out));
      var p :| Walk(Rest(g, out), p) && |p| >= 2 && p[0] == p[|p| - 1];
      forall v | v in p ensures v in g {
        RestIn(g, out, v);
      }
      assert Walk(g, p);
    }
  }

  // ----- there is one such order, and it keeps what needs no change -----

  lemma {:induction false} GreedyUnique<U(!new)>(g: seq<Vertex<U>>, out: seq<Vertex<U>>, other: seq<Vertex<U>>, n: nat)
    requires Greedy(g, out) && Greedy(g, other) && n <= |out| && n <= |other|
    ensures out[..n] == other[..n]
  {
    if n > 0 {
      GreedyUnique(g, out, other, n - 1);
      var rest := Rest(g, out[..n - 1]);
      assert NextAt(g, out, n - 1) && NextAt(g, other, n - 1);
      assert GivesWay(rest, out[..n - 1], out[n - 1], other[n - 1]);
      assert out[n - 1] == rest[IndexOf(rest, out[n - 1])];
      assert other[n - 1] == rest[IndexOf(rest, other[n - 1])];
    }
  }

  // Every arc leads forward.
  ghost predicate Forward<U>(g: seq<Vertex<U>>) {
    forall i, j | 0 <= i < |g| && 0 <= j < |g| && HasArc(g[i], g[j].user) :: i < j
  }

  ghost predicate NoPriorities<U>(g: seq<Vertex<U>>) {
    forall v | v in g :: forall a | a in v.arcs :: a.priority == 0
  }

  lemma {:induction false} WeightZero<U(!new)>(arcs: seq<Arc<U>>, u: U)
    requires forall a | a in arcs :: a.priority == 0
    ensures Weight(arcs, u) == 0
  {
    if arcs != [] {
      WeightZero(arcs[1..], u);
    }
  }

  lemma {:induction false} AccumulatedZero<U(!new)>(out: seq<Vertex<U>>, u: U)
    requires NoPriorities(out)
    ensures Accumulated(out, u) == 0
  {
    if out != [] {
      WeightZero(out[|out| - 1].arcs, u);
      AccumulatedZero(out[..|out| - 1], u);
    }
  }

  lemma {:induction false} RestOfPrefix<U(!new)>(g: seq<Vertex<U>>, n: nat)
    requires NoDup(g) && n <= |g|
    ensures Rest(g, g[..n]) == g[n..]
  {
    assert g == g[..n] + g[n..];
    MinusConcat(g[..n], g[n..], Elements(g[..n]));
    MinusAllGone(g[..n], Elements(g[..n]));
    forall x | x in g[n..] ensures x !in Elements(g[..n]) {
      NotInPrefix(g, n, x);
    }
    MinusNothing(g[n..], Elements(g[..n]));
  }

  lemma NotInPrefix<T>(s: seq<T>, n: nat, x: T)
    requires NoDup(s) && n <= |s| && x in s[n..]
    ensures x !in s[..n]
  {
    var i: nat :| n <= i < |s| && s[i] == x;
    if x in s[..n] {
      var k: nat :| k < n && s[k] == x;
      NoDupAt(s, k, i);
    }
  }

  lemma {:induction false} MinusAllGone<T>(s: seq<T>, d: set<T>)
    requires forall x | x in s :: x in d
    ensures Minus(s, d) == []
  {
    if s != [] {
      MinusAllGone(s[1..], d);
    }
  }

  // Without priorities, an order that already is topological comes out as it was.
  lemma {:induction false} SortedStays<U(!new)>(g: seq<Vertex<U>>, out: seq<Vertex<U>>)
    requires NoDup(g) && Forward(g) && NoPriorities(g) && Greedy(g, out)
    ensures |out| <= |g| && out == g[..|out|]
    ensures Stuck(Rest(g, out)) ==> out == g
  {
    if out != [] {
      var n := |out| - 1;
      GreedyPrefix(g, out, n);
      SortedStays(g, out[..n]);
      assert NextAt(g, out, n);
      SortedNext(g, n, out[n]);
    }
    if |out| < |g| {
      RestOfPrefix(g, |out|);
      HeadFree(g, |out|);
    }
  }

  lemma SortedNext<U(!new)>(g: seq<Vertex<U>>, n: nat, v: Vertex<U>)
    requires NoDup(g) && Forward(g) && NoPriorities(g) && n <= |g| && Next(Rest(g, g[..n]), g[..n], v)
    ensures n < |g| && v == g[n]
  {
    RestOfPrefix(g, n);
    assert n < |g|;
    HeadFree(g, n);
    FirstIsNext(g, n, v);
  }

  lemma FirstIsNext<U(!new)>(g: seq<Vertex<U>>, n: nat, v: Vertex<U>)
    requires n < |g| && NoPriorities(g) && Free(g[n..], g[n].user) && Next(g[n..], g[..n], v)
    ensures v == g[n]
  {
    forall w | w in g[..n] ensures w in g {}
    AccumulatedZero(g[..n], g[n].user);
    AccumulatedZero(g[..n], v.user);
    IndexOfFirst(g[n..], 0);
    assert g[n..][0] == g[n] && GivesWay(g[n..], g[..n], g[n], v);
  }

  lemma HeadFree<U(!new)>(g: seq<Vertex<U>>, n: nat)
    requires Forward(g) && n < |g|
    ensures g[n] in g[n..] && Free(g[n..], g[n].user)
  {
    forall w | w in g[n..] ensures !HasArc(w, g[n].user) {
      var j :| 0 <= j < |g[n..]| && g[n..][j] == w;
      assert g[n + j] == w;
    }
    assert g[n..][0] == g[n];
  }
}
