// The topological sort of fped (eda/fped/tsort.c): nodes with counters of incoming edges.
module TopSort {
  import opened Wrappers
  import opened SeqMinus
  import opened TopSortSpec

  datatype Edge<U(==)> = Edge(to: Node<U>, priority: int)

  class Node<U(==)> {
    const user: U
    const decay: bool
    var edges: seq<Edge<U>>  // outbound edges
    var incoming: int        // number of incoming edges
    var priority: int        // cumulative node priority

    constructor (user: U, decay: bool)
      ensures this.user == user && this.decay == decay
      ensures edges == [] && incoming == 0 && priority == 0
    {
      this.user, this.decay, this.edges, this.incoming, this.priority := user, decay, [], 0, 0;
    }
  }

  // ----- nodes and the graph they stand for -----

  ghost predicate EdgesOk<U>(edges: seq<Edge<U>>, arcs: seq<Arc<U>>, nodes: seq<Node<U>>) {
    && |edges| == |arcs|
    && forall k | 0 <= k < |edges| ::
      edges[k].to in nodes && edges[k].to.user == arcs[k].to && edges[k].priority == arcs[k].priority
  }

  ghost predicate NodeOk<U>(n: Node<U>, v: Vertex<U>, nodes: seq<Node<U>>, incoming: int, priority: int)
    reads n
  {
    && n.user == v.user && n.decay == v.decay && EdgesOk(n.edges, v.arcs, nodes)
    && n.incoming == incoming && n.priority == priority
  }

  // The nodes stand for the vertices rest, after out has been output.
  ghost predicate Stand<U>(nodes: seq<Node<U>>, rest: seq<Vertex<U>>, out: seq<Vertex<U>>)
    reads nodes
  {
    && |nodes| == |rest|
    && forall i: nat {:trigger StandsAt(nodes, rest, out, i)} | i < |nodes| :: StandsAt(nodes, rest, out, i)
  }

  ghost predicate StandsAt<U>(nodes: seq<Node<U>>, rest: seq<Vertex<U>>, out: seq<Vertex<U>>, i: nat)
    requires i < |nodes| == |rest|
    reads nodes
  {
    var u := rest[i].user;
    NodeOk(nodes[i], rest[i], nodes, Incoming(rest, u), Accumulated(out, u))
  }

  // ----- adding to a graph -----

  // The arcs with p added to the arc to u, or with a new arc to u.
  function AddedArc<U(==)>(arcs: seq<Arc<U>>, u: U, p: int): seq<Arc<U>> {
    if arcs == [] then [Arc(u, p)]
    else if arcs[0].to == u then [Arc(u, arcs[0].priority + p)] + arcs[1..]
    else [arcs[0]] + AddedArc(arcs[1..], u, p)
  }

  ghost predicate UniqueArcs<U(!new)>(g: seq<Vertex<U>>) {
    forall v, u | v in g :: Count(v.arcs, u) <= 1
  }

  lemma {:induction false} AddedArcCounts<U(!new)>(arcs: seq<Arc<U>>, u: U, p: int, w: U)
    ensures Weight(AddedArc(arcs, u, p), w) == Weight(arcs, w) + if w == u then p else 0
    ensures Count(AddedArc(arcs, u, p), w) == if w == u && Count(arcs, w) == 0 then 1 else Count(arcs, w)
  {
    if arcs != [] {
      AddedArcCounts(arcs[1..], u, p, w);
    }
  }

  lemma {:induction false} AddedArcAt<U(!new)>(arcs: seq<Arc<U>>, u: U, p: int, k: nat)
    requires k <= |arcs| && (forall i | 0 <= i < k :: arcs[i].to != u) && (k < |arcs| ==> arcs[k].to == u)
    ensures AddedArc(arcs, u, p)
         == if k < |arcs| then arcs[k := Arc(u, arcs[k].priority + p)] else arcs + [Arc(u, p)]
    ensures Count(arcs, u) == 0 <==> k == |arcs|
  {
    if k > 0 {
      AddedArcAt(arcs[1..], u, p, k - 1);
    }
  }

  lemma {:induction false} CountPositive<U(!new)>(arcs: seq<Arc<U>>, u: U)
    ensures Count(arcs, u) > 0 <==> exists a :: a in arcs && a.to == u
  {
    if arcs != [] {
      CountPositive(arcs[1..], u);
      assert arcs == [arcs[0]] + arcs[1..];
      if arcs[0].to == u {
        assert arcs[0] in arcs;
      }
    }
  }

  lemma {:induction false} IncomingFree<U(!new)>(g: seq<Vertex<U>>, u: U)
    ensures Incoming(g, u) == 0 <==> Free(g, u)
  {
    if g != [] {
      IncomingFree(g[1..], u);
      CountPositive(g[0].arcs, u);
      assert g == [g[0]] + g[1..];
      assert Free(g, u) <==> !HasArc(g[0], u) && Free(g[1..], u);
    }
  }

  lemma {:induction false} IncomingChanged<U(!new)>(g: seq<Vertex<U>>, i: nat, v: Vertex<U>, u: U)
    requires i < |g|
    ensures Incoming(g[i := v], u) == Incoming(g, u) - Count(g[i].arcs, u) + Count(v.arcs, u)
  {
    if i > 0 {
      IncomingChanged(g[1..], i - 1, v, u);
      assert g[i := v][1..] == g[1..][i - 1 := v];
    }
  }

  lemma {:induction false} IncomingConcat<U(!new)>(g: seq<Vertex<U>>, h: seq<Vertex<U>>, u: U)
    ensures Incoming(g + h, u) == Incoming(g, u) + Incoming(h, u)
  {
    if g == [] {
      assert g + h == h;
    } else {
      IncomingConcat(g[1..], h, u);
      assert (g + h)[1..] == g[1..] + h;
    }
  }

  lemma IncomingWithout<U(!new)>(g: seq<Vertex<U>>, i: nat, u: U)
    requires i < |g|
    ensures Incoming(g, u) == Incoming(g[..i] + g[i + 1..], u) + Count(g[i].arcs, u)
  {
    assert g == g[..i] + g[i..] && g[i..][1..] == g[i + 1..];
    IncomingConcat(g[..i], g[i..], u);
    IncomingConcat(g[..i], g[i + 1..], u);
  }

  // ----- the sorter -----

  class Sorter<U(==, !new)> {
    var nodes: seq<Node<U>>
    var count: nat
    ghost var graph: seq<Vertex<U>>

    ghost predicate Valid()
      reads this, nodes
    {
      && Stand(nodes, graph, []) && count == |nodes|
      && UniqueUsers(graph) && UniqueArcs(graph) && Closed(graph)
    }

    // begin_tsort
    constructor ()
      ensures Valid() && graph == []
    {
      nodes, count, graph := [], 0, [];
    }

    // add_node: the node of this user, new or not
    method AddNode(user: U, decay: bool) returns (node: Node<U>)
      requires Valid()
      modifies this
      ensures Valid() && node in nodes && node.user == user
      ensures if exists v :: v in old(graph) && v.user == user
              then graph == old(graph) && nodes == old(nodes)
              else graph == old(graph) + [Vertex(user, decay, [])] && nodes == old(nodes) + [node] && fresh(node)
    {
      for i := 0 to |nodes|
        invariant Valid() && graph == old(graph) && nodes == old(nodes)
        invariant forall k | 0 <= k < i :: graph[k].user != user
      {
        assert StandsAt(nodes, graph, [], i);
        if nodes[i].user == user {
          assert graph[i] in old(graph);
          return nodes[i];
        }
      }
      node := new Node(user, decay);
      ghost var v := Vertex(user, decay, []);
      NodeAdded(nodes, graph, node, v);
      graph := graph + [v];
      nodes := nodes + [node];
      count := count + 1;
    }

    // add_edge: a new edge, or more priority for the one there is
    method AddEdge(from: Node<U>, to: Node<U>, priority: int)
      requires Valid() && from in nodes && to in nodes
      modifies this`graph, nodes
      ensures Valid() && nodes == old(nodes) && |graph| == |old(graph)|
      ensures forall i | 0 <= i < |graph| ::
        var v := old(graph)[i];
        graph[i] == if v.user == from.user then v.(arcs := AddedArc(v.arcs, to.user, priority)) else v
    {
      ghost var i: nat :| i < |nodes| && nodes[i] == from;
      ghost var g, v := graph, graph[i];
      assert StandsAt(nodes, g, [], i);
      UserOf(nodes, g, [], to);
      EdgeAdded(g, i, to.user, priority);
      PutEdge(from, to, priority, g, i);
      graph := g[i := v.(arcs := AddedArc(v.arcs, to.user, priority))];
    }

    method PutEdge(from: Node<U>, to: Node<U>, priority: int, ghost g: seq<Vertex<U>>, ghost i: nat)
      requires Stand(nodes, g, []) && UniqueUsers(g) && i < |nodes| && nodes[i] == from && to in nodes
      modifies from`edges, to`incoming
      ensures Stand(nodes, g[i := g[i].(arcs := AddedArc(g[i].arcs, to.user, priority))], [])
    {
      ghost var v := g[i];
      StandUsers(nodes, g, []);
      assert StandsAt(nodes, g, [], i);
      var k := FindEdge(from, to, v, g);
      AddedArcAt(v.arcs, to.user, priority, k);
      if k < |from.edges| {
        from.edges := from.edges[k := Edge(to, from.edges[k].priority + priority)];
      } else {
        from.edges := from.edges + [Edge(to, priority)];
        to.incoming := to.incoming + 1;
      }
      ghost var g' := g[i := v.(arcs := AddedArc(v.arcs, to.user, priority))];
      assert EdgesOk(from.edges, g'[i].arcs, nodes);
      forall j: nat | j < |nodes| ensures StandsAt(nodes, g', [], j) {
        assert old(StandsAt(nodes, g, [], j));
        IncomingAdded(nodes, g, i, j, to, priority);
      }
    }

    method FindEdge(from: Node<U>, to: Node<U>, ghost v: Vertex<U>, ghost g: seq<Vertex<U>>) returns (k: nat)
      requires Stand(nodes, g, []) && UniqueUsers(g) && to in nodes && EdgesOk(from.edges, v.arcs, nodes)
      ensures k <= |v.arcs| && (forall i | 0 <= i < k :: v.arcs[i].to != to.user)
      ensures k < |v.arcs| ==> from.edges[k].to == to && v.arcs[k].to == to.user
    {
      k := 0;
      while k < |from.edges| && from.edges[k].to != to
        invariant k <= |v.arcs| && (forall i | 0 <= i < k :: v.arcs[i].to != to.user)
      {
        SameUser(nodes, g, [], from.edges[k].to, to);
        k := k + 1;
      }
    }

    // The search for the next node: no incoming edges, then the highest priority, then the first.
    method Select(ghost out: seq<Vertex<U>>, ghost rest: seq<Vertex<U>>) returns (first: int)
      requires Stand(nodes, rest, out) && UniqueUsers(rest)
      ensures first < 0 ==> Stuck(rest)
      ensures 0 <= first ==> first < |rest| && Next(rest, out, rest[first])
    {
      first := -1;
      for walk := 0 to |nodes|
        invariant -1 <= first < walk
        invariant first < 0 ==> forall j | 0 <= j < walk :: nodes[j].incoming != 0
        invariant 0 <= first ==> nodes[first].incoming == 0 && forall j | 0 <= j < walk && nodes[j].incoming == 0 ::
          nodes[j].priority < nodes[first].priority || (nodes[j].priority == nodes[first].priority && first <= j)
      {
        if nodes[walk].incoming == 0 && (first < 0 || nodes[first].priority < nodes[walk].priority) {
          first := walk;
        }
      }
      Selected(nodes, rest, out, first);
    }

    // Output of a node: all priorities may decay, and its edges take effect and go.
    method Output(first: nat, ghost out: seq<Vertex<U>>, ghost rest: seq<Vertex<U>>) returns (user: U)
      requires Stand(nodes, rest, out) && UniqueUsers(rest)
      requires first < |rest| && Free(rest, rest[first].user)
      modifies this`nodes, nodes
      ensures nodes == old(nodes)[..first] + old(nodes)[first + 1..] && user == rest[first].user
      ensures Stand(nodes, rest[..first] + rest[first + 1..], out + [rest[first]])
    {
      var node := nodes[first];
      assert StandsAt(nodes, rest, out, first);
      ghost var v, all := rest[first], nodes;
      ghost var decayed: seq<Vertex<U>> := if node.decay then [] else out;
      if node.decay {
        Decay(out, rest);
      }
      assert StandsAt(nodes, rest, decayed, first);
      nodes := nodes[..first] + nodes[first + 1..];
      user := node.user;
      ghost var left := rest[..first] + rest[first + 1..];
      TakenOut(all, rest, decayed, first, out + [v]);
      Settle(node, nodes, left, out + [v], v.arcs);
    }

    // end_tsort: the users in the order that Greedy determines, with a None at the end; or the
    // report of a cycle
    method EndSort() returns (acyclic: bool, res: array<Option<U>>, ghost out: seq<Vertex<U>>)
      requires Valid()
      modifies this`nodes, nodes
      ensures acyclic == !Cyclic(graph) && graph == old(graph)
      ensures Greedy(graph, out) && Stuck(Rest(graph, out)) && |out| <= |graph|
      ensures acyclic ==> NoDup(out) && forall v :: v in out <==> v in graph
      ensures acyclic ==> |out| == |graph| && res.Length == |out| + 1 && res[|out|] == None
      ensures acyclic ==> forall k | 0 <= k < |out| :: res[k] == Some(out[k].user)
    {
      res := new Option<U>[count + 1];
      var n := 0;
      ghost var rest := graph;
      out := [];
      NothingOut(graph);
      var first := Select(out, rest);
      while first >= 0
        invariant graph == old(graph) && fresh(res) && res.Length == |graph| + 1
        invariant Stand(nodes, rest, out) && forall k | 0 <= k < |nodes| :: nodes[k] in old(nodes)
        invariant Underway(graph, out, rest) && n == |out|
        invariant if first < 0 then Stuck(rest) else first < |rest| && Next(rest, out, rest[first])
        invariant forall k | 0 <= k < n :: res[k] == Some(out[k].user)
        decreases |rest|
      {
        out, rest := PutNext(first, res, n, graph, out, rest);
        n := n + 1;
        first := Select(out, rest);
      }
      AllOut(graph, out, rest);
      acyclic := nodes == [];
      if acyclic {
        res[n] := None;
      }
    }

    method PutNext(first: nat, res: array<Option<U>>, n: nat,
                   ghost g: seq<Vertex<U>>, ghost out: seq<Vertex<U>>, ghost rest: seq<Vertex<U>>)
      returns (ghost out': seq<Vertex<U>>, ghost rest': seq<Vertex<U>>)
      requires Stand(nodes, rest, out) && Underway(g, out, rest) && first < |rest| && Next(rest, out, rest[first])
      requires n == |out| && res.Length == |g| + 1 && forall k | 0 <= k < n :: res[k] == Some(out[k].user)
      modifies this`nodes, nodes, res
      ensures forall k | 0 <= k < |nodes| :: nodes[k] in old(nodes)
      ensures Stand(nodes, rest', out') && Underway(g, out', rest') && |rest'| < |rest| && |out'| == n + 1
      ensures forall k | 0 <= k < n + 1 :: res[k] == Some(out'[k].user)
    {
      NextOut(g, out, rest, first);
      var user := Output(first, out, rest);
      out', rest' := out + [rest[first]], rest[..first] + rest[first + 1..];
      res[n] := Some(user);
    }

    // All priorities are forgotten.
    method Decay(ghost out: seq<Vertex<U>>, ghost rest: seq<Vertex<U>>)
      requires Stand(nodes, rest, out)
      modifies nodes
      ensures Stand(nodes, rest, [])
    {
      for i := 0 to |nodes|
        invariant forall n | n in nodes :: n.edges == old(n.edges) && n.incoming == old(n.incoming)
        invariant forall j: nat | j < i :: nodes[j].priority == 0
      {
        nodes[i].priority := 0;
      }
      forall j: nat | j < |nodes| ensures StandsAt(nodes, rest, [], j) {
        assert old(StandsAt(nodes, rest, out, j));
      }
    }
  }

  ghost predicate UsersMatch<U>(nodes: seq<Node<U>>, g: seq<Vertex<U>>) {
    |nodes| == |g| && forall k | 0 <= k < |g| :: nodes[k].user == g[k].user
  }

  lemma StandUsers<U(!new)>(nodes: seq<Node<U>>, rest: seq<Vertex<U>>, out: seq<Vertex<U>>)
    requires Stand(nodes, rest, out)
    ensures UsersMatch(nodes, rest)
  {
    forall k: nat | k < |rest| ensures nodes[k].user == rest[k].user {
      assert StandsAt(nodes, rest, out, k);
    }
  }

  lemma IncomingAdded<U(!new)>(nodes: seq<Node<U>>, g: seq<Vertex<U>>, i: nat, j: nat, to: Node<U>, p: int)
    requires i < |g| && j < |g| == |nodes| && to in nodes && UniqueUsers(g)
    requires UsersMatch(nodes, g)
    ensures var v := g[i];
            var g' := g[i := v.(arcs := AddedArc(v.arcs, to.user, p))];
            Incoming(g', g'[j].user) == Incoming(g, g[j].user) + if nodes[j] == to && Count(v.arcs, to.user) == 0 then 1 else 0
  {
    var v := g[i];
    var v' := v.(arcs := AddedArc(v.arcs, to.user, p));
    AddedArcCounts(v.arcs, to.user, p, g[j].user);
    IncomingChanged(g, i, v', g[j].user);
    var k :| 0 <= k < |nodes| && nodes[k] == to;
  }

  lemma AddedArcTo<U(!new)>(arcs: seq<Arc<U>>, u: U, p: int, a: Arc<U>)
    requires a in AddedArc(arcs, u, p)
    ensures a.to == u || exists b :: b in arcs && b.to == a.to
  {
    CountPositive(AddedArc(arcs, u, p), a.to);
    CountPositive(arcs, a.to);
    AddedArcCounts(arcs, u, p, a.to);
  }

  lemma EdgeAdded<U(!new)>(g: seq<Vertex<U>>, i: nat, u: U, p: int)
    requires UniqueUsers(g) && UniqueArcs(g) && Closed(g) && i < |g| && exists w :: w in g && w.user == u
    ensures var g' := g[i := g[i].(arcs := AddedArc(g[i].arcs, u, p))];
            UniqueUsers(g') && UniqueArcs(g') && Closed(g')
  {
    var g' := g[i := g[i].(arcs := AddedArc(g[i].arcs, u, p))];
    forall v, w | v in g' ensures Count(v.arcs, w) <= 1 {
      AddedArcCounts(g[i].arcs, u, p, w);
    }
    forall v | v in g' ensures forall a | a in v.arcs :: exists w :: w in g' && w.user == a.to {
      forall a | a in v.arcs ensures exists w :: w in g' && w.user == a.to {
        if v == g'[i] {
          AddedArcTo(g[i].arcs, u, p, a);
        }
        var w :| w in g && w.user == a.to;
        var k :| 0 <= k < |g| && g[k] == w;
        assert g'[k].user == a.to && g'[k] in g';
      }
    }
  }

  lemma NodeAdded<U(!new)>(nodes: seq<Node<U>>, g: seq<Vertex<U>>, n: Node<U>, v: Vertex<U>)
    requires Stand(nodes, g, []) && UniqueUsers(g) && UniqueArcs(g) && Closed(g)
    requires (forall k | 0 <= k < |g| :: g[k].user != v.user) && v.arcs == []
    requires n.user == v.user && n.decay == v.decay && n.edges == [] && n.incoming == 0 && n.priority == 0
    ensures Stand(nodes + [n], g + [v], []) && UniqueUsers(g + [v]) && UniqueArcs(g + [v]) && Closed(g + [v])
  {
    var nodes', g' := nodes + [n], g + [v];
    forall i: nat | i < |nodes'| ensures StandsAt(nodes', g', [], i) {
      IncomingConcat(g, [v], g'[i].user);
      if i < |nodes| {
        assert StandsAt(nodes, g, [], i);
      } else if !Free(g, v.user) {
        NotClosed(g, v.user);
      } else {
        IncomingFree(g, v.user);
      }
    }
    forall w | w in g' ensures forall a | a in w.arcs :: exists x :: x in g' && x.user == a.to {
      forall a | a in w.arcs ensures exists x :: x in g' && x.user == a.to {
        var x :| x in g && x.user == a.to;
        assert x in g';
      }
    }
  }

  lemma NotClosed<U(!new)>(g: seq<Vertex<U>>, u: U)
    requires Closed(g) && !Free(g, u)
    ensures exists k :: 0 <= k < |g| && g[k].user == u
  {
    var w :| w in g && HasArc(w, u);
    var a :| a in w.arcs && a.to == u;
    var x :| x in g && x.user == a.to;
  }

  lemma SameUser<U(!new)>(nodes: seq<Node<U>>, rest: seq<Vertex<U>>, out: seq<Vertex<U>>, a: Node<U>, b: Node<U>)
    requires Stand(nodes, rest, out) && UniqueUsers(rest) && a in nodes && b in nodes
    ensures a.user == b.user ==> a == b
  {
    var i: nat :| i < |nodes| && nodes[i] == a;
    var j: nat :| j < |nodes| && nodes[j] == b;
    assert StandsAt(nodes, rest, out, i) && StandsAt(nodes, rest, out, j);
  }

  lemma Selected<U(!new)>(nodes: seq<Node<U>>, rest: seq<Vertex<U>>, out: seq<Vertex<U>>, first: int)
    requires Stand(nodes, rest, out) && UniqueUsers(rest) && -1 <= first < |nodes|
    requires first < 0 ==> forall j | 0 <= j < |nodes| :: nodes[j].incoming != 0
    requires 0 <= first ==> nodes[first].incoming == 0 && forall j | 0 <= j < |nodes| && nodes[j].incoming == 0 ::
      nodes[j].priority < nodes[first].priority || (nodes[j].priority == nodes[first].priority && first <= j)
    ensures first < 0 ==> Stuck(rest)
    ensures 0 <= first ==> Next(rest, out, rest[first])
  {
    forall j: nat | j < |rest|
      ensures (nodes[j].incoming == 0 <==> Free(rest, rest[j].user))
      ensures nodes[j].priority == Accumulated(out, rest[j].user) && IndexOf(rest, rest[j]) == j
    {
      assert StandsAt(nodes, rest, out, j);
      IncomingFree(rest, rest[j].user);
      IndexOfFirst(rest, j);
    }
    if 0 <= first {
      forall w | w in rest && Free(rest, w.user) ensures GivesWay(rest, out, w, rest[first]) {
        var j :| 0 <= j < |rest| && rest[j] == w;
      }
    }
  }

  lemma UserOf<U(!new)>(nodes: seq<Node<U>>, rest: seq<Vertex<U>>, out: seq<Vertex<U>>, a: Node<U>)
    requires Stand(nodes, rest, out) && a in nodes
    ensures exists w :: w in rest && w.user == a.user
  {
    var i: nat :| i < |nodes| && nodes[i] == a;
    assert StandsAt(nodes, rest, out, i) && rest[i] in rest;
  }

  // ----- the edges of a node that has been output -----

  // The nodes stand for rest after out, except that arcs are still to take effect.
  ghost predicate Owed<U>(nodes: seq<Node<U>>, rest: seq<Vertex<U>>, out: seq<Vertex<U>>, arcs: seq<Arc<U>>)
    reads nodes
  {
    && |nodes| == |rest|
    && forall i: nat {:trigger OwedAt(nodes, rest, out, arcs, i)} | i < |nodes| :: OwedAt(nodes, rest, out, arcs, i)
  }

  ghost predicate OwedAt<U>(nodes: seq<Node<U>>, rest: seq<Vertex<U>>, out: seq<Vertex<U>>, arcs: seq<Arc<U>>, i: nat)
    requires i < |nodes| == |rest|
    reads nodes
  {
    var u := rest[i].user;
    NodeOk(nodes[i], rest[i], nodes, Incoming(rest, u) + Count(arcs, u), Accumulated(out, u) - Weight(arcs, u))
  }

  lemma TakenOut<U(!new)>(nodes: seq<Node<U>>, rest: seq<Vertex<U>>, was: seq<Vertex<U>>, i: nat, out: seq<Vertex<U>>)
    requires Stand(nodes, rest, was) && UniqueUsers(rest) && i < |rest| && Free(rest, rest[i].user)
    requires out != [] && out[|out| - 1] == rest[i] && was == if rest[i].decay then [] else out[..|out| - 1]
    ensures Owed(nodes[..i] + nodes[i + 1..], rest[..i] + rest[i + 1..], out, rest[i].arcs)
    ensures nodes[i] !in nodes[..i] + nodes[i + 1..]
    ensures EdgesOk(nodes[i].edges, rest[i].arcs, nodes[..i] + nodes[i + 1..])
  {
    var nodes', rest' := nodes[..i] + nodes[i + 1..], rest[..i] + rest[i + 1..];
    forall k: nat | k < |nodes'| ensures nodes'[k] != nodes[i] && OwedAt(nodes', rest', out, rest[i].arcs, k) {
      var k' := if k < i then k else k + 1;
      assert StandsAt(nodes, rest, was, k') && StandsAt(nodes, rest, was, i);
      IncomingWithout(rest, i, rest[k'].user);
      EdgesElsewhere(nodes, rest, was, i, k');
    }
    EdgesElsewhere(nodes, rest, was, i, i);
  }

  // No edge leads to a free node.
  lemma EdgesElsewhere<U(!new)>(nodes: seq<Node<U>>, rest: seq<Vertex<U>>, out: seq<Vertex<U>>, i: nat, k: nat)
    requires Stand(nodes, rest, out) && i < |rest| && k < |rest| && Free(rest, rest[i].user)
    ensures EdgesOk(nodes[k].edges, rest[k].arcs, nodes[..i] + nodes[i + 1..])
  {
    assert StandsAt(nodes, rest, out, k) && StandsAt(nodes, rest, out, i);
    var nodes' := nodes[..i] + nodes[i + 1..];
    forall e: nat | e < |nodes[k].edges| ensures nodes[k].edges[e].to in nodes' {
      var to := nodes[k].edges[e].to;
      assert rest[k].arcs[e] in rest[k].arcs && !HasArc(rest[k], rest[i].user);
      var j :| 0 <= j < |nodes| && nodes[j] == to;
      assert to == if j < i then nodes'[j] else nodes'[j - 1];
    }
  }

  method Settle<U(!new)>(node: Node<U>, nodes: seq<Node<U>>,
                   ghost rest: seq<Vertex<U>>, ghost out: seq<Vertex<U>>, ghost arcs: seq<Arc<U>>)
    requires Owed(nodes, rest, out, arcs) && UniqueUsers(rest)
    requires node !in nodes && EdgesOk(node.edges, arcs, nodes)
    modifies node, nodes
    ensures Stand(nodes, rest, out)
  {
    ghost var left := arcs;
    while node.edges != []
      invariant Owed(nodes, rest, out, left) && EdgesOk(node.edges, left, nodes)
      decreases |node.edges|
    {
      var edge := node.edges[0];
      Pay(edge, nodes, rest, out, left);
      node.edges := node.edges[1..];
      left := left[1..];
    }
    forall i: nat | i < |nodes| ensures StandsAt(nodes, rest, out, i) {
      assert OwedAt(nodes, rest, out, left, i);
    }
  }

  method Pay<U(!new)>(edge: Edge<U>, nodes: seq<Node<U>>,
                ghost rest: seq<Vertex<U>>, ghost out: seq<Vertex<U>>, ghost arcs: seq<Arc<U>>)
    requires Owed(nodes, rest, out, arcs) && UniqueUsers(rest) && edge.to in nodes
    requires arcs != [] && edge.to.user == arcs[0].to && edge.priority == arcs[0].priority
    modifies edge.to
    ensures Owed(nodes, rest, out, arcs[1..]) && edge.to.edges == old(edge.to.edges)
  {
    ghost var i: nat :| i < |nodes| && nodes[i] == edge.to;
    assert OwedAt(nodes, rest, out, arcs, i);
    edge.to.incoming := edge.to.incoming - 1;
    edge.to.priority := edge.to.priority + edge.priority;
    forall j: nat | j < |nodes| ensures OwedAt(nodes, rest, out, arcs[1..], j) {
      assert old(OwedAt(nodes, rest, out, arcs, j));
    }
  }

  // ----- the run of the sort -----

  lemma {:induction false} GraphNoDup<U(!new)>(g: seq<Vertex<U>>)
    requires UniqueUsers(g)
    ensures NoDup(g)
  {
    if g != [] {
      forall v | v in g[1..] ensures v != g[0] {
        var j :| 0 <= j < |g[1..]| && g[1..][j] == v;
        assert g[j + 1] == v;
      }
      GraphNoDup(g[1..]);
    }
  }

  // After output of out, rest is left.
  ghost predicate Underway<U>(g: seq<Vertex<U>>, out: seq<Vertex<U>>, rest: seq<Vertex<U>>) {
    && UniqueUsers(rest) && UniqueUsers(g)
    && Greedy(g, out) && rest == Rest(g, out) && |out| + |rest| == |g|
  }

  lemma NothingOut<U(!new)>(g: seq<Vertex<U>>)
    requires UniqueUsers(g)
    ensures Underway(g, [], g)
  {
    MinusNothing(g, Elements<Vertex<U>>([]));
  }

  // Output of the next vertex keeps the order greedy.
  lemma NextOut<U(!new)>(g: seq<Vertex<U>>, out: seq<Vertex<U>>, rest: seq<Vertex<U>>, i: nat)
    requires Underway(g, out, rest) && i < |rest| && Next(rest, out, rest[i])
    ensures Underway(g, out + [rest[i]], rest[..i] + rest[i + 1..])
  {
    var v := rest[i];
    var out' := out + [v];
    forall k: nat | k < |out'| ensures NextAt(g, out', k) {
      if k < |out| {
        assert NextAt(g, out, k) && out'[..k] == out[..k];
      } else {
        assert out'[..k] == out;
      }
    }
    GraphNoDup(g);
    MinusNoDup(g, Elements(out));
    MinusOne(rest, i);
    MinusTwice(g, Elements(out), {v});
    assert Elements(out') == Elements(out) + {v};
    MinusUnique(g, Elements(out'));
  }

  lemma {:induction false} MinusUnique<U(!new)>(g: seq<Vertex<U>>, d: set<Vertex<U>>)
    requires UniqueUsers(g)
    ensures UniqueUsers(Minus(g, d))
  {
    if g != [] {
      MinusUnique(g[1..], d);
      if g[0] !in d {
        var s := Minus(g[1..], d);
        forall j | 0 <= j < |s| ensures s[j].user != g[0].user {
          MinusIn(g[1..], d, s[j]);
          var k :| 0 <= k < |g[1..]| && g[1..][k] == s[j];
          assert g[k + 1] == s[j];
        }
      }
    }
  }

  lemma AllOut<U(!new)>(g: seq<Vertex<U>>, out: seq<Vertex<U>>, rest: seq<Vertex<U>>)
    requires Underway(g, out, rest) && Stuck(rest)
    ensures NoDup(out) && (rest == [] <==> !Cyclic(g))
    ensures rest == [] ==> forall v :: v in out <==> v in g
  {
    CompleteIffAcyclic(g, out);
    OutOnce(g, out);
    forall v ensures v in rest <==> v in g && v !in out {
      RestIn(g, out, v);
    }
  }
}
