// The vectors of a frame in fped (eda/fped/obj.h): a singly linked list in which each vector may
// be based on another one.
module Vecs {
  import opened SeqMinus

  class Vec {
    var next: Vec?
    var base: Vec?
    var mark: bool    // used by the list repair in inst.c
    var dumped: bool  // used by dump.c

    constructor ()
      ensures next == null && base == null && !mark && !dumped
    {
      next, base, mark, dumped := null, null, false, false;
    }
  }

  // ----- bases -----

  // What the bases of the vectors are.
  type Bases = map<Vec, Vec?>

  function BaseOf(b: Bases, x: Vec): Vec? { if x in b then b[x] else null }

  ghost predicate Reaches(b: Bases, x: Vec, v: Vec, n: nat) {
    x == v || (n > 0 && BaseOf(b, x) != null && Reaches(b, BaseOf(b, x), v, n - 1))
  }

  // v is x, its base, its base's base, ...
  ghost predicate DependsOn(b: Bases, x: Vec, v: Vec) { exists n: nat :: Reaches(b, x, v, n) }

  lemma DependsStep(b: Bases, x: Vec, v: Vec)
    ensures DependsOn(b, x, v) <==> x == v || (BaseOf(b, x) != null && DependsOn(b, BaseOf(b, x), v))
  {
    if DependsOn(b, x, v) {
      var n: nat :| Reaches(b, x, v, n);
      if x != v {
        assert Reaches(b, BaseOf(b, x), v, n - 1);
      }
    }
    if x == v {
      assert Reaches(b, x, v, 0);
    } else if BaseOf(b, x) != null && DependsOn(b, BaseOf(b, x), v) {
      var n: nat :| Reaches(b, BaseOf(b, x), v, n);
      assert Reaches(b, x, v, n + 1);
    }
  }

  // The base of s[i] comes before it.
  ghost predicate BaseBefore(b: Bases, s: seq<Vec>, i: nat)
    requires i < |s|
  {
    BaseOf(b, s[i]) == null || BaseOf(b, s[i]) in s[..i]
  }

  // Every base comes before its users.
  ghost predicate BasesFirst(b: Bases, s: seq<Vec>) {
    forall i: nat {:trigger BaseBefore(b, s, i)} | i < |s| :: BaseBefore(b, s, i)
  }

  // What an element of a list depends on is not behind it.
  lemma {:induction false} DependsBack(b: Bases, s: seq<Vec>, i: nat, v: Vec)
    requires BasesFirst(b, s) && i < |s| && DependsOn(b, s[i], v)
    ensures v in s[..i + 1]
  {
    DependsStep(b, s[i], v);
    if s[i] != v {
      assert BaseBefore(b, s, i);
      var j :| 0 <= j < i && s[j] == BaseOf(b, s[i]);
      DependsBack(b, s, j, v);
    }
  }

  // The same, element by element, given the bases seen before.
  ghost predicate Ordered(b: Bases, seen: set<Vec>, s: seq<Vec>)
    decreases s
  {
    s == [] || ((BaseOf(b, s[0]) == null || BaseOf(b, s[0]) in seen) && Ordered(b, seen + {s[0]}, s[1..]))
  }

  function Elements(s: seq<Vec>): set<Vec> { set x | x in s }

  lemma {:induction false} OrderedConcat(b: Bases, seen: set<Vec>, s: seq<Vec>, t: seq<Vec>)
    ensures Ordered(b, seen, s + t) <==> Ordered(b, seen, s) && Ordered(b, seen + Elements(s), t)
    decreases s
  {
    if s == [] {
      assert s + t == t && seen + Elements(s) == seen;
    } else {
      assert (s + t)[1..] == s[1..] + t;
      assert seen + {s[0]} + Elements(s[1..]) == seen + Elements(s);
      OrderedConcat(b, seen + {s[0]}, s[1..], t);
    }
  }

  lemma {:induction false} OrderedMore(b: Bases, seen: set<Vec>, more: set<Vec>, s: seq<Vec>)
    requires Ordered(b, seen, s) && seen <= more
    ensures Ordered(b, more, s)
    decreases s
  {
    if s != [] {
      OrderedMore(b, seen + {s[0]}, more + {s[0]}, s[1..]);
    }
  }

  lemma {:induction false} OrderedIff(b: Bases, s: seq<Vec>)
    ensures Ordered(b, {}, s) <==> BasesFirst(b, s)
  {
    if s != [] {
      var n := |s| - 1;
      var t := s[..n];
      assert s == t + [s[n]];
      OrderedIff(b, t);
      OrderedConcat(b, {}, t, [s[n]]);
      assert Ordered(b, {} + Elements(t), [s[n]]) <==> BaseBefore(b, s, n);
      forall i: nat | i < n ensures BaseBefore(b, t, i) <==> BaseBefore(b, s, i) {
        assert s[..i] == t[..i];
      }
    }
  }

  // ----- links -----

  // What the pointers are: of each vector, and of the list head under the key null.
  type Links = map<Vec?, Vec?>

  // Where a pointer to position i of s is stored.
  function Slot(s: seq<Vec>, i: nat): Vec?
    requires i <= |s|
  {
    if i == 0 then null else s[i - 1]
  }

  function At(s: seq<Vec>, i: nat): Vec? { if i < |s| then s[i] else null }

  ghost predicate Leads(nx: Links, s: seq<Vec>, i: nat)
    requires i <= |s|
  {
    Slot(s, i) in nx && nx[Slot(s, i)] == At(s, i)
  }

  // The pointers run through s, from the head to the end.
  ghost predicate Chained(nx: Links, s: seq<Vec>) {
    forall i: nat {:trigger Leads(nx, s, i)} | i <= |s| :: Leads(nx, s, i)
  }
}
