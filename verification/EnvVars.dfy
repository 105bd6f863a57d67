// The variables of the U-Boot environment editor (src/host/envedit/var.c): a growing array with
// slots that are reused.
module EnvVars {
  import opened Wrappers
  import opened Folding

  type Byte = x: int | 0 <= x < 256
  type Text = seq<Byte>

  // struct var; the name is NULL in a free slot
  datatype Slot = Free | Used(name: Text, value: Text)

  // ----- slots and the map they stand for -----

  // A name is used once at most.
  ghost predicate Unique(vars: seq<Slot>) {
    forall i, j | 0 <= i < j < |vars| && vars[i].Used? && vars[j].Used? :: vars[i].name != vars[j].name
  }

  // The same; this is left folded up until an Unfold is in sight.
  ghost predicate Distinct(vars: seq<Slot>) {
    forall k {:trigger Unfold(k)} :: Unfold(k) ==> Unique(vars)
  }

  function MapOf(vars: seq<Slot>): map<Text, Text> {
    if vars == [] then map[]
    else
      var m := MapOf(vars[..|vars| - 1]);
      var s := vars[|vars| - 1];
      if s.Used? then m[s.name := s.value] else m
  }

  // The map has what the slots have.
  lemma {:induction false} MapHas(vars: seq<Slot>, name: Text)
    requires Unique(vars)
    ensures name in MapOf(vars) <==> exists i :: 0 <= i < |vars| && vars[i].Used? && vars[i].name == name
    ensures forall i | 0 <= i < |vars| && vars[i].Used? && vars[i].name == name :: name in MapOf(vars) && MapOf(vars)[name] == vars[i].value
  {
    if vars != [] {
      var n := |vars| - 1;
      MapHas(vars[..n], name);
      forall i | 0 <= i < n ensures vars[..n][i] == vars[i] {}
    }
  }

  // Two arrays with the same used slots, in whichever order, stand for the same map.
  lemma SameSlots(vars: seq<Slot>, other: seq<Slot>)
    requires Unique(vars) && Unique(other) && forall s: Slot | s.Used? :: s in vars <==> s in other
    ensures MapOf(vars) == MapOf(other)
  {
    forall name: Text
      ensures name in MapOf(vars) <==> name in MapOf(other)
      ensures name in MapOf(vars) ==> name in MapOf(other) && MapOf(vars)[name] == MapOf(other)[name]
    {
      MapHas(vars, name);
      MapHas(other, name);
      if i :| 0 <= i < |vars| && vars[i].Used? && vars[i].name == name {
        assert vars[i] in other;
        var j :| 0 <= j < |other| && other[j] == vars[i];
      }
      if i :| 0 <= i < |other| && other[i].Used? && other[i].name == name {
        assert other[i] in vars;
        var j :| 0 <= j < |vars| && vars[j] == other[i];
      }
    }
  }

  lemma SlotSet(vars: seq<Slot>, i: nat, name: Text, value: Text)
    requires Unique(vars) && i < |vars|
    requires forall j | 0 <= j < |vars| && j != i && vars[j].Used? :: vars[j].name != name
    requires vars[i].Used? ==> vars[i].name == name
    ensures Unique(vars[i := Used(name, value)]) && MapOf(vars[i := Used(name, value)]) == MapOf(vars)[name := value]
  {
    var now := vars[i := Used(name, value)];
    forall n: Text
      ensures n in MapOf(now) <==> n == name || n in MapOf(vars)
      ensures n in MapOf(now) ==> MapOf(now)[n] == MapOf(vars)[name := value][n]
    {
      MapHas(vars, n);
      MapHas(now, n);
      if k :| 0 <= k < |vars| && vars[k].Used? && vars[k].name == n {
        assert k != i ==> now[k] == vars[k];
      }
      if k :| 0 <= k < |now| && now[k].Used? && now[k].name == n {
        assert k != i ==> now[k] == vars[k];
      }
      if n == name {
        assert now[i].name == n;
      }
    }
  }

  lemma SlotFreed(vars: seq<Slot>, i: nat)
    requires Unique(vars) && i < |vars| && vars[i].Used?
    ensures Unique(vars[i := Free]) && MapOf(vars[i := Free]) == MapOf(vars) - {vars[i].name}
  {
    var now, name := vars[i := Free], vars[i].name;
    forall n: Text
      ensures n in MapOf(now) <==> n != name && n in MapOf(vars)
      ensures n in MapOf(now) ==> MapOf(now)[n] == MapOf(vars)[n]
    {
      MapHas(vars, n);
      MapHas(now, n);
      if k :| 0 <= k < |vars| && vars[k].Used? && vars[k].name == n {
        assert k != i ==> now[k] == vars[k];
      }
      if k :| 0 <= k < |now| && now[k].Used? && now[k].name == n {
        assert now[k] == vars[k];
      }
    }
  }

  lemma {:induction false} FreeSlots(vars: seq<Slot>, n: nat)
    requires Unique(vars)
    ensures var now := vars + seq(n, i => Free); Unique(now) && MapOf(now) == MapOf(vars)
  {
    var now := vars + seq(n, i => Free);
    if n == 0 {
      assert now == vars;
    } else {
      FreeSlots(vars, n - 1);
      assert now[..|now| - 1] == vars + seq(n - 1, i => Free);
    }
  }

  // ----- the store -----

  // strcmp
  predicate Before(a: Text, b: Text) {
    if a == [] then b != []
    else if b == [] then false
    else a[0] < b[0] || (a[0] == b[0] && Before(a[1..], b[1..]))
  }

  // What is before what: where two texts differ first, the smaller character decides, and an end comes
  // before any character.
  lemma BeforeMeans(a: Text, b: Text, k: nat)
    requires k <= |a| && k <= |b| && a[..k] == b[..k]
    ensures k == |a| ==> (Before(a, b) <==> k < |b|)
    ensures k == |b| ==> !Before(a, b)
    ensures k < |a| && k < |b| && a[k] != b[k] ==> (Before(a, b) <==> a[k] < b[k])
    decreases k
  {
    if k > 0 {
      assert a[0] == a[..k][0] == b[..k][0] == b[0];
      assert a[1..][..k - 1] == a[..k][1..] && b[1..][..k - 1] == b[..k][1..];
      BeforeMeans(a[1..], b[1..], k - 1);
    }
  }

  // comp: free slots come first
  predicate Ordered(a: Slot, b: Slot) { a.Free? || (b.Used? && !Before(b.name, a.name)) }

  // What qsort makes of an array.
  ghost predicate SortOf(sorted: seq<Slot>, vars: seq<Slot>) {
    multiset(sorted) == multiset(vars) && forall i, j | 0 <= i < j < |sorted| :: Ordered(sorted[i], sorted[j])
  }

  // ----- any slots can be sorted -----

  lemma {:induction false} BeforeTotal(a: Text, b: Text)
    ensures a == b || Before(a, b) || Before(b, a)
    ensures !(Before(a, b) && Before(b, a)) && !Before(a, a)
  {
    if a != [] && b != [] {
      BeforeTotal(a[1..], b[1..]);
      assert a == [a[0]] + a[1..] && b == [b[0]] + b[1..];
    }
    if a != [] {
      BeforeItself(a);
    }
  }

  lemma {:induction false} BeforeItself(a: Text)
    ensures !Before(a, a)
  {
    if a != [] {
      BeforeItself(a[1..]);
    }
  }

  lemma {:induction false} BeforeTransitive(a: Text, b: Text, c: Text)
    requires Before(a, b) && Before(b, c)
    ensures Before(a, c)
  {
    if a != [] && b != [] && c != [] && a[0] == b[0] == c[0] {
      BeforeTransitive(a[1..], b[1..], c[1..]);
    }
  }

  lemma OrderedTransitive(a: Slot, b: Slot, c: Slot)
    requires Ordered(a, b) && Ordered(b, c)
    ensures Ordered(a, c)
  {
    if a.Used? && Before(c.name, a.name) {
      BeforeTotal(a.name, b.name);
      BeforeTotal(b.name, c.name);
      if Before(a.name, b.name) {
        BeforeTransitive(c.name, a.name, b.name);
      }
    }
  }

  lemma {:induction false} Inserted(x: Slot, t: seq<Slot>) returns (s: seq<Slot>)
    requires SortOf(t, t)
    ensures SortOf(s, [x] + t)
    decreases |t|
  {
    if t == [] || Ordered(x, t[0]) {
      s := [x] + t;
      forall j | 0 < j < |s| ensures Ordered(x, s[j]) {
        if j > 1 {
          OrderedTransitive(x, t[0], s[j]);
        }
      }
    } else {
      var u := Inserted(x, t[1..]);
      s := [t[0]] + u;
      assert t == [t[0]] + t[1..];
      if x.Used? && t[0].Used? {
        BeforeTotal(x.name, t[0].name);
      }
      forall j | 0 < j < |s| ensures Ordered(t[0], s[j]) {
        assert s[j] in multiset(u);
        assert s[j] == x || s[j] in t[1..];
      }
    }
  }

  lemma {:induction false} SortExists(vars: seq<Slot>) returns (s: seq<Slot>)
    ensures SortOf(s, vars)
    decreases |vars|
  {
    if vars == [] {
      s := [];
    } else {
      var t := SortExists(vars[1..]);
      s := Inserted(vars[0], t);
      assert vars == [vars[0]] + vars[1..];
    }
  }

  class Store {
    var vars: seq<Slot>
    var curr: nat

    ghost predicate Valid()
      reads this
    {
      Distinct(vars) && curr <= |vars|
    }

    ghost function Contents(): map<Text, Text>
      reads this
    {
      MapOf(vars)
    }

    constructor ()
      ensures Valid() && Contents() == map[] && vars == []
    {
      vars, curr := [], 0;
    }

    // set_var: the array grows only if the name is new and no slot is free
    method Set(name: Text, value: Text)
      requires Valid()
      modifies this
      ensures Valid() && Contents() == old(Contents())[name := value]
      ensures |vars| == if name in old(Contents()) || Free in old(vars) then |old(vars)| else 2 * (|old(vars)| + 1)
    {
      assert Unfold(0);
      var p, unused := 0, -1;
      MapHas(vars, name);
      while p < |vars|
        invariant 0 <= p <= |vars| && -1 <= unused < p
        invariant forall i | 0 <= i < p && vars[i].Used? :: vars[i].name != name
        invariant if unused < 0 then forall i | 0 <= i < p :: vars[i].Used? else vars[unused].Free?
      {
        if vars[p].Free? {
          unused := p;
        } else if vars[p].name == name {
          break;
        }
        p := p + 1;
      }
      if p == |vars| && unused >= 0 {
        p := unused;
      }
      if p == |vars| {
        FreeSlots(vars, |vars| + 2);
        vars := vars + seq(|vars| + 2, i => Free);
      }
      SlotSet(vars, p, name, value);
      vars := vars[p := Used(name, value)];
    }

    // del_var
    method Delete(name: Text)
      requires Valid()
      modifies this`vars
      ensures Valid() && Contents() == old(Contents()) - {name} && |vars| == |old(vars)|
    {
      var p := 0;
      while p < |vars| && !(vars[p].Used? && vars[p].name == name)
        invariant 0 <= p <= |vars|
        invariant forall i | 0 <= i < p && vars[i].Used? :: vars[i].name != name
      {
        p := p + 1;
      }
      assert Unfold(0);
      MapHas(vars, name);
      if p == |vars| {
        return;
      }
      SlotFreed(vars, p);
      vars := vars[p := Free];
    }

    // reset_var, with what qsort delivers
    method Reset(sorted: seq<Slot>)
      requires Valid() && SortOf(sorted, vars)
      modifies this
      ensures Valid() && Contents() == old(Contents()) && vars == sorted && curr == 0
    {
      assert Unfold(0);
      Sorted(sorted, vars);
      vars := sorted;
      curr := 0;
    }

    // next_var: the used slots one by one
    method Next() returns (r: Option<(Text, Text)>)
      requires Valid()
      modifies this`curr
      ensures Valid() && old(curr) <= curr
      ensures match r
              case None => curr == |vars| && forall i | old(curr) <= i < |vars| :: vars[i].Free?
              case Some((name, value)) =>
                && old(curr) < curr && vars[curr - 1] == Used(name, value)
                && forall i | old(curr) <= i < curr - 1 :: vars[i].Free?
    {
      while curr < |vars| && vars[curr].Free?
        invariant old(curr) <= curr <= |vars|
        invariant forall i | old(curr) <= i < curr :: vars[i].Free?
      {
        curr := curr + 1;
      }
      if curr == |vars| {
        return None;
      }
      curr := curr + 1;
      return Some((vars[curr - 1].name, vars[curr - 1].value));
    }
  }

  lemma Sorted(sorted: seq<Slot>, vars: seq<Slot>)
    requires Unique(vars) && multiset(sorted) == multiset(vars)
    ensures Unique(sorted) && MapOf(sorted) == MapOf(vars)
  {
    forall s: Slot ensures s in sorted <==> s in vars {
      assert s in multiset(sorted) <==> s in multiset(vars);
    }
    forall i, j | 0 <= i < j < |sorted| && sorted[i].Used? && sorted[j].Used? ensures sorted[i].name != sorted[j].name {
      if sorted[i].name == sorted[j].name {
        UniqueSlot(vars, sorted[i], sorted[j]);
        TwicePresent(sorted, i, j);
        OncePresent(vars, sorted[i]);
        assert false;
      }
    }
    SameSlots(sorted, vars);
  }

  lemma UniqueSlot(vars: seq<Slot>, a: Slot, b: Slot)
    requires Unique(vars) && a in multiset(vars) && b in multiset(vars) && a.Used? && b.Used? && a.name == b.name
    ensures a == b
  {
    var i :| 0 <= i < |vars| && vars[i] == a;
    var j :| 0 <= j < |vars| && vars[j] == b;
  }

  lemma TwicePresent(s: seq<Slot>, i: nat, j: nat)
    requires i < j < |s| && s[i] == s[j]
    ensures multiset(s)[s[i]] >= 2
  {
    assert s == s[..i] + [s[i]] + s[i + 1..j] + [s[j]] + s[j + 1..];
  }

  lemma {:induction false} OncePresent(vars: seq<Slot>, s: Slot)
    requires Unique(vars) && s.Used?
    ensures multiset(vars)[s] <= 1
  {
    if vars != [] {
      var n := |vars| - 1;
      OncePresent(vars[..n], s);
      assert vars == vars[..n] + [vars[n]];
      assert vars[n] == s ==> s !in vars[..n];
    }
  }
}
