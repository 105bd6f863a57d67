// Giving a vector a new base in fped (eda/fped/inst.c): the list of vectors is put back in order.
module VecMove {
  import opened SeqMinus
  import opened Vecs

  function PlaceOf(s: seq<Vec>, x: Vec): nat
    requires x in s
  {
    IndexOf(s, x)
  }

  // ----- what is moved -----

  // Those elements of s that are in d, in the same order.
  function Keep(s: seq<Vec>, d: set<Vec>): seq<Vec> {
    if s == [] then []
    else if s[0] in d then [s[0]] + Keep(s[1..], d)
    else Keep(s[1..], d)
  }

  // The dependents of v in s.
  ghost function Users(b: Bases, s: seq<Vec>, v: Vec): set<Vec> { set x | x in s && DependsOn(b, x, v) }

  // The list after v has moved to base to, with bases b: unless the base comes before v anyway, v and
  // its users from before the base follow right after it.
  ghost function Moved(b: Bases, s: seq<Vec>, v: Vec, to: Vec?): seq<Vec>
    requires v in s
  {
    if to == null || to in s[..PlaceOf(s, v)] || to !in s then s
    else
      var k := PlaceOf(s, to);
      Reordered(s, k, Users(b, s[..k], v))
  }

  // Those in m go from before position k to right after it.
  ghost function Reordered(s: seq<Vec>, k: nat, m: set<Vec>): seq<Vec>
    requires k < |s|
  {
    Minus(s[..k], m) + [s[k]] + Keep(s[..k], m) + s[k + 1..]
  }

  lemma {:induction false} KeepIn(s: seq<Vec>, d: set<Vec>, x: Vec)
    ensures x in Keep(s, d) <==> x in s && x in d
  {
    if s != [] {
      assert s == [s[0]] + s[1..];
      KeepIn(s[1..], d, x);
    }
  }

  lemma {:induction false} KeepConcat(s: seq<Vec>, t: seq<Vec>, d: set<Vec>)
    ensures Keep(s + t, d) == Keep(s, d) + Keep(t, d)
  {
    if s == [] {
      assert s + t == t;
    } else {
      assert (s + t)[1..] == s[1..] + t;
      KeepConcat(s[1..], t, d);
    }
  }

  lemma {:induction false} KeepAll(s: seq<Vec>, d: set<Vec>)
    ensures (forall x | x in s :: x in d) ==> Keep(s, d) == s
    ensures (forall x | x in s :: x !in d) ==> Keep(s, d) == []
    ensures (forall x | x in s :: x in d) ==> Minus(s, d) == []
  {
    if s != [] {
      assert s == [s[0]] + s[1..];
      KeepAll(s[1..], d);
    }
  }

  lemma {:induction false} KeepMinusMultiset(s: seq<Vec>, d: set<Vec>)
    ensures multiset(Minus(s, d)) + multiset(Keep(s, d)) == multiset(s)
  {
    if s != [] {
      assert s == [s[0]] + s[1..];
      KeepMinusMultiset(s[1..], d);
    }
  }

  // ----- the order after the move -----

  // The list has the same elements as before, each once, and bases come before their users again.
  // Both the vectors that depend on v and the others stay in order among themselves.
  lemma MoveRepairs(b: Bases, s: seq<Vec>, v: Vec, to: Vec?)
    requires NoDup(s) && BasesFirst(b, s) && v in s
    requires to != null ==> to in s && !DependsOn(b, to, v)
    ensures var b', r := b[v := to], Moved(b[v := to], s, v, to);
            var m := Users(b', s, v);
            && multiset(r) == multiset(s) && BasesFirst(b', r)
            && Minus(r, m) == Minus(s, m) && Keep(r, m) == Keep(s, m)
  {
    var b' := b[v := to];
    if to == null || to in s[..PlaceOf(s, v)] {
      StaysOrdered(b, s, v, to);
    } else {
      MoveReorders(b, s, v, to, PlaceOf(s, to));
    }
  }

  lemma StaysOrdered(b: Bases, s: seq<Vec>, v: Vec, to: Vec?)
    requires NoDup(s) && BasesFirst(b, s) && v in s && (to == null || to in s[..PlaceOf(s, v)])
    ensures BasesFirst(b[v := to], s)
  {
    var b' := b[v := to];
    forall i: nat | i < |s| ensures BaseBefore(b', s, i) {
      assert BaseBefore(b, s, i);
      if s[i] == v {
        IndexOfUnique(s, i);
      }
    }
  }

  lemma MoveReorders(b: Bases, s: seq<Vec>, v: Vec, to: Vec, k: nat)
    requires NoDup(s) && BasesFirst(b, s) && v in s && !DependsOn(b, to, v)
    requires to !in s[..PlaceOf(s, v)] && k < |s| && s[k] == to
    ensures var b' := b[v := to];
            var m, all := Users(b', s[..k], v), Users(b', s, v);
            var r := Reordered(s, k, m);
            && multiset(r) == multiset(s) && BasesFirst(b', r)
            && Minus(r, all) == Minus(s, all) && Keep(r, all) == Keep(s, all)
  {
    var b' := b[v := to];
    SameUsers(b, v, to, to);
    DependsStep(b, to, v);
    ComesBefore(s, v, to, k);
    MovedOrdered(b, s, v, to, k);
    ReorderedKeeps(s, k, Users(b', s[..k], v), Users(b', s, v));
    ReorderedMultiset(s, k, Users(b', s[..k], v));
  }

  lemma ComesBefore(s: seq<Vec>, v: Vec, to: Vec, k: nat)
    requires v in s && v != to && to !in s[..PlaceOf(s, v)] && k < |s| && s[k] == to
    ensures v in s[..k]
  {
    NotBefore(s, to, PlaceOf(s, v), k);
    assert s[..k][PlaceOf(s, v)] == v;
  }

  lemma ReorderedKeeps(s: seq<Vec>, k: nat, m: set<Vec>, all: set<Vec>)
    requires k < |s| && s[k] !in all && forall x | x in s[..k] :: x in m <==> x in all
    ensures var r := Reordered(s, k, m); Minus(r, all) == Minus(s, all) && Keep(r, all) == Keep(s, all)
  {
    MovedKeeps(s[..k], s[k], s[k + 1..], m, all);
    Split(s, k);
  }

  lemma ReorderedMultiset(s: seq<Vec>, k: nat, m: set<Vec>)
    requires k < |s|
    ensures multiset(Reordered(s, k, m)) == multiset(s)
  {
    KeepMinusMultiset(s[..k], m);
    Split(s, k);
    assert multiset(s) == multiset(s[..k] + [s[k]] + s[k + 1..]);
  }

  lemma Split(s: seq<Vec>, k: nat)
    requires k < |s|
    ensures s == s[..k] + [s[k]] + s[k + 1..]
  {}

  lemma NotBefore(s: seq<Vec>, x: Vec, i: nat, k: nat)
    requires i <= |s| && x !in s[..i] && k < |s| && s[k] == x
    ensures i <= k
  {}

  lemma {:induction false} SameReach(b: Bases, v: Vec, to: Vec?, x: Vec, n: nat)
    ensures Reaches(b[v := to], x, v, n) <==> Reaches(b, x, v, n)
  {
    if x != v && n > 0 && BaseOf(b, x) != null {
      SameReach(b, v, to, BaseOf(b, x), n - 1);
    }
  }

  lemma SameUsers(b: Bases, v: Vec, to: Vec?, x: Vec)
    ensures DependsOn(b[v := to], x, v) <==> DependsOn(b, x, v)
  {
    var b' := b[v := to];
    if n: nat :| Reaches(b', x, v, n) {
      SameReach(b, v, to, x, n);
    }
    if n: nat :| Reaches(b, x, v, n) {
      SameReach(b, v, to, x, n);
    }
  }

  // Without the users of v, the others have their bases.
  lemma {:induction false} MinusOrdered(b: Bases, b': Bases, seen: set<Vec>, now: set<Vec>, s: seq<Vec>, m: set<Vec>)
    requires Ordered(b, seen, s) && seen <= now + m
    requires forall x | x in s && x !in m :: BaseOf(b', x) == BaseOf(b, x) && BaseOf(b, x) !in m
    ensures Ordered(b', now, Minus(s, m))
    decreases s
  {
    if s != [] {
      if s[0] in m {
        MinusOrdered(b, b', seen + {s[0]}, now, s[1..], m);
      } else {
        MinusOrdered(b, b', seen + {s[0]}, now + {s[0]}, s[1..], m);
      }
    }
  }

  // Once all others are there, v and its users have their bases.
  lemma {:induction false} KeepOrdered(b: Bases, v: Vec, to: Vec, seen: set<Vec>, now: set<Vec>, s: seq<Vec>, m: set<Vec>)
    requires Ordered(b, seen, s) && seen <= now && to in now
    requires forall x | x in s && x !in m :: x in now
    ensures Ordered(b[v := to], now, Keep(s, m))
    decreases s
  {
    if s != [] {
      if s[0] in m {
        KeepOrdered(b, v, to, seen + {s[0]}, now + {s[0]}, s[1..], m);
      } else {
        KeepOrdered(b, v, to, seen + {s[0]}, now, s[1..], m);
      }
    }
  }

  lemma {:induction false} RestOrdered(b: Bases, v: Vec, to: Vec, seen: set<Vec>, s: seq<Vec>)
    requires Ordered(b, seen, s) && v !in s
    ensures Ordered(b[v := to], seen, s)
    decreases s
  {
    if s != [] {
      RestOrdered(b, v, to, seen + {s[0]}, s[1..]);
    }
  }

  lemma MovedOrdered(b: Bases, s: seq<Vec>, v: Vec, to: Vec, k: nat)
    requires NoDup(s) && BasesFirst(b, s) && k < |s| && s[k] == to && v in s[..k]
    requires !DependsOn(b, to, v) && !DependsOn(b[v := to], to, v)
    ensures var b' := b[v := to];
            var m := Users(b', s[..k], v);
            BasesFirst(b', Reordered(s, k, m))
  {
    var b' := b[v := to];
    var p, q := s[..k], s[k + 1..];
    var m := Users(b', p, v);
    var u, w := Minus(p, m), Keep(p, m);
    OrderedAround(b, s, k);
    NotBehind(s, v, k);
    MovedFront(b, p, v, to);
    MovedMiddle(b, p, v, to);
    MovedBack(b, p, v, to, q, m);
    OrderedConcat(b', {}, u + [to], w);
    OrderedConcat(b', {}, u + [to] + w, q);
    OrderedIff(b', u + [to] + w + q);
  }

  lemma OrderedAround(b: Bases, s: seq<Vec>, k: nat)
    requires BasesFirst(b, s) && k < |s|
    ensures Ordered(b, {}, s[..k]) && (BaseOf(b, s[k]) == null || BaseOf(b, s[k]) in s[..k])
    ensures Ordered(b, Elements(s[..k]) + {s[k]}, s[k + 1..])
  {
    var p, q := s[..k], s[k + 1..];
    assert s == p + ([s[k]] + q);
    OrderedIff(b, s);
    OrderedConcat(b, {}, p, [s[k]] + q);
    OrderedConcat(b, {} + Elements(p), [s[k]], q);
    assert {} + Elements(p) + Elements([s[k]]) == Elements(p) + {s[k]};
  }

  lemma MovedFront(b: Bases, p: seq<Vec>, v: Vec, to: Vec)
    requires Ordered(b, {}, p) && (BaseOf(b, to) == null || BaseOf(b, to) in p)
    requires v in p && !DependsOn(b, to, v) && !DependsOn(b[v := to], to, v)
    ensures Ordered(b[v := to], {}, Minus(p, Users(b[v := to], p, v)) + [to])
  {
    var b' := b[v := to];
    var m := Users(b', p, v);
    var u := Minus(p, m);
    DependsStep(b', v, v);
    forall x | x in p && x !in m ensures BaseOf(b', x) == BaseOf(b, x) && BaseOf(b, x) !in m {
      DependsStep(b', x, v);
    }
    MinusOrdered(b, b', {}, {}, p, m);
    DependsStep(b', to, v);
    if BaseOf(b, to) != null {
      var base: Vec := BaseOf(b, to);
      MinusIn(p, m, base);
    }
    OrderedConcat(b', {}, u, [to]);
  }

  lemma MovedMiddle(b: Bases, p: seq<Vec>, v: Vec, to: Vec)
    requires Ordered(b, {}, p)
    ensures var m := Users(b[v := to], p, v);
            Ordered(b[v := to], {} + Elements(Minus(p, m) + [to]), Keep(p, m))
  {
    var m := Users(b[v := to], p, v);
    var u := Minus(p, m);
    forall x | x in p && x !in m ensures x in Elements(u + [to]) {
      MinusIn(p, m, x);
    }
    assert to in u + [to];
    KeepOrdered(b, v, to, {}, {} + Elements(u + [to]), p, m);
  }

  lemma MovedBack(b: Bases, p: seq<Vec>, v: Vec, to: Vec, q: seq<Vec>, m: set<Vec>)
    requires Ordered(b, Elements(p) + {to}, q) && v !in q
    ensures Ordered(b[v := to], {} + Elements(Minus(p, m) + [to] + Keep(p, m)), q)
  {
    var all := Minus(p, m) + [to] + Keep(p, m);
    forall x | x in p ensures x in all {
      MinusIn(p, m, x);
      KeepIn(p, m, x);
    }
    assert to in all;
    OrderedMore(b, Elements(p) + {to}, {} + Elements(all), q);
    RestOrdered(b, v, to, {} + Elements(all), q);
  }

  lemma NotBehind(s: seq<Vec>, v: Vec, k: nat)
    requires NoDup(s) && k < |s| && v in s[..k]
    ensures v !in s[k + 1..]
  {
    var i :| 0 <= i < k && s[i] == v;
    forall j | k < j < |s| ensures s[j] != v {
      NoDupAt(s, i, j);
    }
  }

  // Nothing is lost, and neither the moved nor the others change places among themselves.
  lemma MovedKeeps(p: seq<Vec>, to: Vec, q: seq<Vec>, m: set<Vec>, all: set<Vec>)
    requires to !in all && forall x | x in p :: x in m <==> x in all
    ensures var s, r := p + [to] + q, Minus(p, m) + [to] + Keep(p, m) + q;
            Minus(r, all) == Minus(s, all) && Keep(r, all) == Keep(s, all)
  {
    var u, w, s, r := Minus(p, m), Keep(p, m), p + [to] + q, Minus(p, m) + [to] + Keep(p, m) + q;
    SameOn(p, m, all);
    MinusKeep(p, all);
    KeepAll([to], all);
    MinusNothing([to], all);
    MinusConcat(u + [to] + w, q, all);
    MinusConcat(u + [to], w, all);
    MinusConcat(u, [to], all);
    MinusConcat(p + [to], q, all);
    MinusConcat(p, [to], all);
    assert Minus(u + [to] + w, all) == Minus(p + [to], all);
    KeepConcat(u + [to] + w, q, all);
    KeepConcat(u + [to], w, all);
    KeepConcat(u, [to], all);
    KeepConcat(p + [to], q, all);
    KeepConcat(p, [to], all);
    assert Keep(u + [to] + w, all) == Keep(p + [to], all);
  }

  lemma {:induction false} MinusKeep(s: seq<Vec>, m: set<Vec>)
    ensures Minus(Minus(s, m), m) == Minus(s, m) && Keep(Keep(s, m), m) == Keep(s, m)
    ensures Minus(Keep(s, m), m) == [] && Keep(Minus(s, m), m) == []
  {
    if s != [] {
      MinusKeep(s[1..], m);
      if s[0] in m {
        assert ([s[0]] + Keep(s[1..], m))[1..] == Keep(s[1..], m);
      } else {
        assert ([s[0]] + Minus(s[1..], m))[1..] == Minus(s[1..], m);
      }
    }
  }

  lemma {:induction false} SameOn(p: seq<Vec>, m: set<Vec>, all: set<Vec>)
    requires forall x | x in p :: x in m <==> x in all
    ensures Minus(p, m) == Minus(p, all) && Keep(p, m) == Keep(p, all)
  {
    if p != [] {
      SameOn(p[1..], m, all);
    }
  }

  // ----- the list in memory -----

  // The list with element i taken out and put at position a.
  function Shifted(s: seq<Vec>, i: nat, a: nat): seq<Vec>
    requires i < a <= |s|
  {
    s[..i] + s[i + 1..a] + [s[i]] + s[a..]
  }

  // The three pointers that do this.
  function ShiftedLinks(nx: Links, s: seq<Vec>, i: nat, a: nat): Links
    requires i < a <= |s|
  {
    nx[Slot(s, i) := At(s, i + 1)][s[i] := At(s, a)][Slot(s, a) := s[i]]
  }

  lemma ShiftedChained(nx: Links, s: seq<Vec>, i: nat, a: nat)
    requires Chained(nx, s) && NoDup(s) && i + 1 < a <= |s|
    ensures Chained(ShiftedLinks(nx, s, i, a), Shifted(s, i, a))
  {
    var t := Shifted(s, i, a);
    forall k: nat | k <= |t| ensures Leads(ShiftedLinks(nx, s, i, a), t, k) {
      ShiftedAt(s, i, a);
      ShiftedSlot(nx, s, i, a, k);
    }
  }

  lemma ShiftedAt(s: seq<Vec>, i: nat, a: nat)
    requires i + 1 < a <= |s|
    ensures var t := Shifted(s, i, a);
            && |t| == |s|
            && forall j | 0 <= j < |t| ::
              t[j] == if j < i then s[j] else if j < a - 1 then s[j + 1] else if j < a then s[i] else s[j]
  {}

  // The slots of the new list are those of the old one.
  lemma ShiftedSlot(nx: Links, s: seq<Vec>, i: nat, a: nat, k: nat)
    requires Chained(nx, s) && NoDup(s) && i + 1 < a <= |s| && k <= |Shifted(s, i, a)|
    requires var t := Shifted(s, i, a);
             && |t| == |s|
             && forall j | 0 <= j < |t| ::
               t[j] == if j < i then s[j] else if j < a - 1 then s[j + 1] else if j < a then s[i] else s[j]
    ensures Leads(ShiftedLinks(nx, s, i, a), Shifted(s, i, a), k)
  {
    var t := Shifted(s, i, a);
    var k' := if k <= i || k > a then k else if k < a then k + 1 else i + 1;
    assert Slot(t, k) == Slot(s, k') && Leads(nx, s, k');
    SlotsDiffer(s, k', i);
    SlotsDiffer(s, k', i + 1);
    SlotsDiffer(s, k', a);
  }

  lemma SlotIn(s: seq<Vec>, i: nat)
    requires i <= |s|
    ensures i > 0 ==> Slot(s, i) in s
  {}

  lemma SlotsDiffer(s: seq<Vec>, i: nat, j: nat)
    requires NoDup(s) && i <= |s| && j <= |s|
    ensures i != j ==> Slot(s, i) != Slot(s, j)
  {
    if i != j && i > 0 && j > 0 {
      NoDupAt(s, i - 1, j - 1);
    }
  }

  class Frame {
    var vecs: Vec?
    ghost var list: seq<Vec>
    ghost var links: Links
    ghost var bases: Bases
    ghost const nodes: set<Vec>

    // A frame with the vectors of a list just loaded.
    constructor (vecs: Vec?, ghost list: seq<Vec>, ghost links: Links, ghost bases: Bases)
      requires NoDup(list) && Chained(links, list) && null in links && links[null] == vecs
      requires forall x | x in list :: x in links && x.next == links[x] && x in bases && x.base == bases[x]
      ensures Valid() && this.list == list && this.bases == bases
    {
      this.vecs, this.list, this.links, this.bases, this.nodes := vecs, list, links, bases, Elements(list);
    }

    // Links and bases are what the pointers say.
    ghost predicate Loaded()
      reads this, nodes
    {
      && null in links && links[null] == vecs
      && forall x | x in nodes :: x in links && x.next == links[x] && x in bases && x.base == bases[x]
    }

    ghost predicate Valid()
      reads this, nodes
    {
      Loaded() && NoDup(list) && Chained(links, list) && Elements(list) == nodes
    }

    // The pointer stored at a slot.
    method Follow(slot: Vec?) returns (v: Vec?)
      requires Loaded() && (slot != null ==> slot in nodes)
      ensures slot in links && v == links[slot]
    {
      if slot != null { v := slot.next; } else { v := vecs; }
    }

    method Store(slot: Vec?, v: Vec?)
      requires Loaded() && (slot != null ==> slot in nodes)
      modifies this`vecs, this`links, nodes`next
      ensures Loaded() && links == old(links)[slot := v]
    {
      if slot != null { slot.next := v; } else { vecs := v; }
      links := links[slot := v];
    }

    // What becomes of *walk and *anchor in one step of the repair.
    method Shift(walk: Vec?, anchor: Vec, ghost i: nat, ghost a: nat) returns (v: Vec)
      requires Valid() && i + 1 < a <= |list| && walk == Slot(list, i) && anchor == Slot(list, a)
      modifies this`vecs, this`links, this`list, nodes`next
      ensures Valid() && v == old(list)[i] && list == Shifted(old(list), i, a)
    {
      ghost var s := list;
      assert Leads(links, s, i) && Leads(links, s, i + 1) && Leads(links, s, a);
      SlotsDiffer(s, i, a);
      SlotsDiffer(s, i + 1, a);
      ShiftedChained(links, s, i, a);
      ShiftedSame(s, i, a);
      v := Follow(walk);
      Store(walk, v.next);
      assert anchor in links && links[anchor] == At(s, a);
      Store(v, anchor.next);
      Store(anchor, v);
      assert links == ShiftedLinks(old(links), s, i, a);
      list := Shifted(s, i, a);
    }

    // do_move_to_vec: a new base for vec, and the list in order again
    method MoveTo(vec: Vec, to: Vec?)
      requires Valid() && BasesFirst(bases, list) && vec in nodes
      requires to != null ==> to in nodes && !DependsOn(bases, to, vec)
      modifies this, nodes
      ensures Valid() && bases == old(bases)[vec := to] && BasesFirst(bases, list)
      ensures list == Moved(bases, old(list), vec, to)
    {
      ghost var b, s := bases, list;
      MoveRepairs(b, s, vec, to);
      if to != null {
        DependsStep(b, to, vec);
      }
      vec.base := to;
      bases := bases[vec := to];
      var found := MarkUsers(vec, to, b);
      if found == null {
        return;
      }
      ghost var k := PlaceOf(s, found);
      ghost var m := Users(bases, s[..k], vec);
      MarksMean(s, k, b, vec, to);
      Repair(found, k, m);
    }

    // The first two loops: mark the users of vec, up to its new base.
    method MarkUsers(vec: Vec, to: Vec?, ghost b: Bases) returns (v: Vec?)
      requires Valid() && BasesFirst(b, list) && vec in list && bases == b[vec := to]
      requires to != null ==> to in list && to != vec
      modifies nodes`mark
      ensures Valid() && (v == null <==> to == null || to in list[..PlaceOf(list, vec)])
      ensures v != null ==> v == to && Marked(list, PlaceOf(list, to), b, vec)
    {
      ghost var at := ClearMarks(vec, b);
      v := MarkFrom(vec, to, b, at);
    }

    method ClearMarks(vec: Vec, ghost b: Bases) returns (ghost at: nat)
      requires Valid() && BasesFirst(b, list) && vec in list
      modifies nodes`mark
      ensures Valid() && at == PlaceOf(list, vec) && at < |list| && list[at] == vec && Marked(list, at, b, vec)
    {
      var v := vecs;
      at := 0;
      assert Leads(links, list, 0);
      while v != vec
        invariant Valid() && at < |list| && v == list[at] && vec in list[at..] && vec !in list[..at]
        invariant Marked(list, at, b, vec)
        decreases |list| - at
      {
        NotYetUser(b, list, at, vec);
        v := Mark(v, false, b, vec, at);
        at := at + 1;
      }
      IndexOfFirst(list, at);
    }

    // Mark one vector and go on to the next.
    method Mark(v: Vec, mark: bool, ghost b: Bases, ghost vec: Vec, ghost i: nat) returns (next: Vec?)
      requires Valid() && i < |list| && v == list[i] && Marked(list, i, b, vec)
      requires mark <==> DependsOn(b, v, vec)
      modifies v`mark
      ensures Valid() && next == At(list, i + 1) && Marked(list, i + 1, b, vec)
    {
      assert v in nodes && Leads(links, list, i + 1);
      v.mark := mark;
      forall j | 0 <= j < i ensures list[j] != v {
        NoDupAt(list, j, i);
      }
      next := v.next;
    }

    method MarkFrom(vec: Vec, to: Vec?, ghost b: Bases, ghost at: nat) returns (v: Vec?)
      requires Valid() && BasesFirst(b, list) && bases == b[vec := to]
      requires vec in list && at == PlaceOf(list, vec) && at < |list| && list[at] == vec && Marked(list, at, b, vec)
      requires to != null ==> to in list && to != vec
      modifies nodes`mark
      ensures Valid() && (v == null <==> to == null || to in list[..at])
      ensures v != null ==> v == to && Marked(list, PlaceOf(list, to), b, vec)
    {
      DependsStep(b, vec, vec);
      v := Mark(vec, true, b, vec, at);
      ghost var i := at + 1;
      while v != null && v != to
        invariant Valid() && at < i <= |list| && v == At(list, i)
        invariant to != null ==> to !in list[at..i]
        invariant Marked(list, i, b, vec)
        decreases |list| - i
      {
        MarkOfBase(v, b, vec, to, at, i);
        assert list[at..i + 1] == list[at..i] + [list[i]];
        v := Mark(v, if v.base != null then v.base.mark else false, b, vec, i);
        i := i + 1;
      }
      if to != null {
        FoundWhere(list, at, i, to);
      }
    }

    lemma MarkOfBase(v: Vec, b: Bases, vec: Vec, to: Vec?, at: nat, i: nat)
      requires Valid() && BasesFirst(b, list) && bases == b[vec := to]
      requires at < i < |list| && v == list[i] && list[at] == vec && Marked(list, i, b, vec)
      ensures (if v.base != null then v.base.mark else false) <==> DependsOn(b, v, vec)
    {
      NoDupAt(list, at, i);
      assert v in nodes && BaseBefore(b, list, i);
      DependsStep(b, v, vec);
    }

    // One round of the repair.
    method RepairStep(v: Vec, walk: Vec?, anchor: Vec, ghost s: seq<Vec>, ghost k: nat, ghost m: set<Vec>, ghost i: nat)
      returns (walk': Vec?, anchor': Vec)
      requires Valid() && i < k < |s| && list == Stage(s, k, m, i) && v == s[i] && (v.mark <==> v in m)
      requires From(s, m, i) <= |list| && walk == Slot(list, From(s, m, i)) && Into(s, k, m, i) <= |list| && anchor == Slot(list, Into(s, k, m, i))
      modifies this`vecs, this`links, this`list, nodes`next
      ensures Valid() && list == Stage(s, k, m, i + 1)
      ensures From(s, m, i + 1) <= |list| && walk' == Slot(list, From(s, m, i + 1))
      ensures Into(s, k, m, i + 1) <= |list| && anchor' == Slot(list, Into(s, k, m, i + 1))
      ensures walk' in links && links[walk'] == s[i + 1]
    {
      walk', anchor' := walk, anchor;
      StageNext(s, k, m, i);
      StageAt(s, k, m, i);
      SlotsNext(s, k, m, i);
      if !v.mark {
        walk' := v;
      } else {
        anchor' := Shift(walk, anchor, From(s, m, i), Into(s, k, m, i));
      }
      FollowNext(s, k, m, i + 1);
    }

    lemma FollowNext(s: seq<Vec>, k: nat, m: set<Vec>, i: nat)
      requires Valid() && i <= k < |s| && list == Stage(s, k, m, i)
      ensures From(s, m, i) < |list| == |s| && Slot(list, From(s, m, i)) in links
      ensures links[Slot(list, From(s, m, i))] == s[i]
    {
      StageAt(s, k, m, i);
      assert Leads(links, list, From(s, m, i));
    }

    // The last loop: move the marked vectors that come before the new base behind it.
    method Repair(to: Vec, ghost k: nat, ghost m: set<Vec>)
      requires Valid() && k < |list| && to == list[k]
      requires forall j | 0 <= j < k :: list[j].mark <==> list[j] in m
      modifies this`vecs, this`links, this`list, nodes`next
      ensures Valid() && list == Reordered(old(list), k, m)
    {
      ghost var s, i := list, 0;
      var anchor := to;
      var walk: Vec? := null;
      StageEnds(s, k, m);
      assert Leads(links, list, 0);
      var v := Follow(walk);
      while v != to
        invariant Valid() && i <= k && list == Stage(s, k, m, i) && v == s[i]
        invariant From(s, m, i) <= |list| && walk == Slot(list, From(s, m, i))
        invariant Into(s, k, m, i) <= |list| && anchor == Slot(list, Into(s, k, m, i))
        decreases k - i
      {
        assert i < k;
        walk, anchor := RepairStep(v, walk, anchor, s, k, m, i);
        i := i + 1;
        SlotIn(list, From(s, m, i));
        v := Follow(walk);
      }
      if i < k {
        NoDupAt(s, i, k);
      }
    }
  }

  // A search from position at on that stops at i finds what does not come before.
  lemma FoundWhere(s: seq<Vec>, at: nat, i: nat, to: Vec)
    requires NoDup(s) && at <= i <= |s| && to in s && to !in s[at..i] && (i < |s| ==> s[i] == to)
    ensures i < |s| ==> PlaceOf(s, to) == i && to !in s[..at]
    ensures i == |s| ==> to in s[..at]
  {
    if i < |s| {
      IndexOfUnique(s, i);
      forall j | 0 <= j < at ensures s[j] != to {
        NoDupAt(s, j, i);
      }
    } else {
      assert s == s[..at] + s[at..i];
    }
  }

  ghost predicate Marked(s: seq<Vec>, n: nat, b: Bases, v: Vec)
    requires n <= |s|
    reads s
  {
    forall j | 0 <= j < n :: s[j].mark <==> DependsOn(b, s[j], v)
  }

  lemma NotYetUser(b: Bases, s: seq<Vec>, i: nat, v: Vec)
    requires BasesFirst(b, s) && i < |s| && v !in s[..i] && v != s[i]
    ensures !DependsOn(b, s[i], v)
  {
    if DependsOn(b, s[i], v) {
      DependsBack(b, s, i, v);
    }
  }

  // What the marks say with the new base.
  lemma MarksMean(s: seq<Vec>, k: nat, b: Bases, v: Vec, to: Vec?)
    requires k <= |s| && Marked(s, k, b, v)
    ensures forall j | 0 <= j < k :: s[j].mark <==> s[j] in Users(b[v := to], s[..k], v)
  {
    forall j | 0 <= j < k ensures s[j].mark <==> s[j] in Users(b[v := to], s[..k], v) {
      SameUsers(b, v, to, s[j]);
    }
  }

  // ----- the stages of the repair -----

  // The list when the first i elements before position k have been dealt with.
  ghost function Stage(s: seq<Vec>, k: nat, m: set<Vec>, i: nat): seq<Vec>
    requires i <= k < |s|
  {
    Joined(Minus(s[..i], m), s[i..k], s[k], Keep(s[..i], m), s[k + 1..])
  }

  function Joined(u: seq<Vec>, p: seq<Vec>, to: Vec, w: seq<Vec>, q: seq<Vec>): seq<Vec> {
    u + p + [to] + w + q
  }

  // Where the repair takes from, and where it puts.
  ghost function From(s: seq<Vec>, m: set<Vec>, i: nat): nat
    requires i <= |s|
  {
    |Minus(s[..i], m)|
  }

  ghost function Into(s: seq<Vec>, k: nat, m: set<Vec>, i: nat): nat
    requires i <= k < |s|
  {
    |Minus(s[..i], m)| + (k - i) + 1 + |Keep(s[..i], m)|
  }

  lemma StageEnds(s: seq<Vec>, k: nat, m: set<Vec>)
    requires k < |s|
    ensures Stage(s, k, m, 0) == s && From(s, m, 0) == 0 && Into(s, k, m, 0) == k + 1
    ensures Stage(s, k, m, k) == Reordered(s, k, m)
  {
    Split(s, k);
    assert s[0..k] == s[..k] && s[k..k] == [];
  }

  lemma StageAt(s: seq<Vec>, k: nat, m: set<Vec>, i: nat)
    requires i <= k < |s|
    ensures var t, f, a := Stage(s, k, m, i), From(s, m, i), Into(s, k, m, i);
            f < a <= |t| == |s| && t[f] == s[i] && (i < k ==> f + 1 < a)
  {
    KeepMinusMultiset(s[..i], m);
    assert |multiset(Minus(s[..i], m)) + multiset(Keep(s[..i], m))| == |multiset(s[..i])|;
  }

  // One element on: it stays, or it goes to where the repair puts things.
  lemma StageNext(s: seq<Vec>, k: nat, m: set<Vec>, i: nat)
    requires i < k < |s|
    ensures var t, f, a, n := Stage(s, k, m, i), From(s, m, i), Into(s, k, m, i), i + 1;
            && f + 1 < a <= |t| && Stage(s, k, m, n) == (if s[i] in m then Shifted(t, f, a) else t)
            && From(s, m, n) == (if s[i] in m then f else f + 1) && Into(s, k, m, n) == a
  {
    StageAt(s, k, m, i);
    FromNext(s, k, m, i);
    if s[i] in m {
      StageMoves(s, k, m, i);
    } else {
      StageKeeps(s, k, m, i);
    }
  }

  lemma FromNext(s: seq<Vec>, k: nat, m: set<Vec>, i: nat)
    requires i < k < |s|
    ensures From(s, m, i + 1) == From(s, m, i) + if s[i] in m then 0 else 1
    ensures Into(s, k, m, i + 1) == Into(s, k, m, i)
  {
    NextParts(s, k, m, i);
  }

  lemma StageMoves(s: seq<Vec>, k: nat, m: set<Vec>, i: nat)
    requires i < k < |s| && s[i] in m
    ensures var t, f, a := Stage(s, k, m, i), From(s, m, i), Into(s, k, m, i);
            f < a <= |t| && Stage(s, k, m, i + 1) == Shifted(t, f, a)
  {
    NextParts(s, k, m, i);
    MovedPart(Minus(s[..i], m), s[i], s[i + 1..k], s[k], Keep(s[..i], m), s[k + 1..]);
  }

  lemma StageKeeps(s: seq<Vec>, k: nat, m: set<Vec>, i: nat)
    requires i < k < |s| && s[i] !in m
    ensures Stage(s, k, m, i + 1) == Stage(s, k, m, i)
  {
    NextParts(s, k, m, i);
    KeptPart(Minus(s[..i], m), s[i], s[i + 1..k], s[k], Keep(s[..i], m), s[k + 1..]);
  }

  // The slots of the next stage.
  lemma SlotsNext(s: seq<Vec>, k: nat, m: set<Vec>, i: nat)
    requires i < k < |s|
    ensures var t, f, a, n := Stage(s, k, m, i), From(s, m, i), Into(s, k, m, i), i + 1;
            && f + 1 < a <= |t| && a <= |Stage(s, k, m, n)|
            && Slot(Stage(s, k, m, n), From(s, m, n)) == (if s[i] in m then Slot(t, f) else s[i])
            && Slot(Stage(s, k, m, n), a) == (if s[i] in m then s[i] else Slot(t, a))
  {
    StageAt(s, k, m, i);
    StageNext(s, k, m, i);
    if s[i] in m {
      ShiftedAt(Stage(s, k, m, i), From(s, m, i), Into(s, k, m, i));
    }
  }

  lemma NextParts(s: seq<Vec>, k: nat, m: set<Vec>, i: nat)
    requires i < k < |s|
    ensures s[i..k] == [s[i]] + s[i + 1..k]
    ensures Minus(s[..i + 1], m) == Minus(s[..i], m) + if s[i] in m then [] else [s[i]]
    ensures Keep(s[..i + 1], m) == Keep(s[..i], m) + if s[i] in m then [s[i]] else []
  {
    assert s[..i + 1] == s[..i] + [s[i]];
    MinusConcat(s[..i], [s[i]], m);
    KeepConcat(s[..i], [s[i]], m);
  }

  lemma MovedPart(u: seq<Vec>, x: Vec, p: seq<Vec>, to: Vec, w: seq<Vec>, q: seq<Vec>)
    ensures var t, a := Joined(u, [x] + p, to, w, q), |u| + 1 + |p| + 1 + |w|;
            a <= |t| && Shifted(t, |u|, a) == Joined(u, p, to, w + [x], q)
  {
    var t := u + ([x] + p) + [to] + w + q;
    var a := |u| + 1 + |p| + 1 + |w|;
    assert t[..|u|] == u && t[|u|] == x;
    assert t[|u| + 1..a] == p + [to] + w;
    assert t[a..] == q;
  }

  lemma KeptPart(u: seq<Vec>, x: Vec, p: seq<Vec>, to: Vec, w: seq<Vec>, q: seq<Vec>)
    ensures Joined(u, [x] + p, to, w, q) == Joined(u + [x], p, to, w, q)
  {
    assert u + ([x] + p) == (u + [x]) + p;
  }

  lemma ShiftedSame(s: seq<Vec>, i: nat, a: nat)
    requires NoDup(s) && i + 1 < a <= |s|
    ensures NoDup(Shifted(s, i, a)) && Elements(Shifted(s, i, a)) == Elements(s)
  {
    ShiftedElements(s, i, a);
    ShiftedAt(s, i, a);
    NoDupCount(s);
    NoDupCount(Shifted(s, i, a));
  }

  lemma {:induction false} NoDupCount(s: seq<Vec>)
    ensures |Elements(s)| <= |s| && (NoDup(s) <==> |Elements(s)| == |s|)
  {
    if s != [] {
      NoDupCount(s[1..]);
      assert Elements(s) == {s[0]} + Elements(s[1..]);
      if s[0] in s[1..] {
        assert Elements(s) == Elements(s[1..]);
      }
    }
  }

  lemma ShiftedElements(s: seq<Vec>, i: nat, a: nat)
    requires i + 1 < a <= |s|
    ensures Elements(Shifted(s, i, a)) == Elements(s)
  {
    ShiftedAt(s, i, a);
    var t := Shifted(s, i, a);
    forall k | 0 <= k < |s| ensures s[k] in t {
      assert s[k] == t[if k < i || k >= a then k else if k == i then a - 1 else k - 1];
    }
    forall j | 0 <= j < |t| ensures t[j] in s {}
  }

  // ----- which bases are offered -----

  // What a click on the canvas finds: the frame itself, or something with a vector.
  datatype Inst = FrameInst | VecInst(vec: Vec?)

  // find_point_vec: no base is offered that depends on the vector to be moved.
  method FindPoint(f: Frame, self: Vec, found: Inst) returns (ok: bool)
    requires f.Valid() && BasesFirst(f.bases, f.list)
    requires found.VecInst? && found.vec != null ==> found.vec in f.nodes
    ensures ok <==> found.FrameInst? || found.vec == null || !DependsOn(f.bases, found.vec, self)
  {
    if found.FrameInst? {
      return true;
    }
    var vec := found.vec;
    ghost var i := if vec == null then 0 else PlaceOf(f.list, vec);
    while vec != null
      invariant vec != null ==> 0 <= i < |f.list| && f.list[i] == vec
      invariant found.vec != null ==>
        (DependsOn(f.bases, found.vec, self) <==> vec != null && DependsOn(f.bases, vec, self))
      decreases if vec == null then 0 else i + 1
    {
      DependsStep(f.bases, vec, self);
      if vec == self {
        return false;
      }
      assert vec in f.nodes && BaseBefore(f.bases, f.list, i);
      ghost var at := i;
      vec := vec.base;
      if vec != null {
        i :| 0 <= i < at && f.list[i] == vec;
      }
    }
    return true;
  }
}
