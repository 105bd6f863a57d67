// The cascading deletes of fped (eda/fped/delete.c): a vector takes all that depends on it along.
module DeleteCascade {
  import opened SeqMinus
  import opened DeleteLog
  import opened DeleteUndo

  // ----- lists without a set of nodes -----

  function MinusAll(ls: Lists, d: set<Node>): Lists { map a | a in ls :: Minus(ls[a], d) }

  ghost predicate Homes(ls: Lists) {
    forall a | a in ls :: forall x | x in ls[a] :: x.home == a
  }

  lemma MinusAllNothing(ls: Lists)
    ensures MinusAll(ls, {}) == ls
  {
    forall a | a in ls ensures Minus(ls[a], {}) == ls[a] {
      MinusNothing(ls[a], {});
    }
  }

  lemma MinusAllOne(ls: Lists, d: set<Node>, x: Node)
    requires Homes(ls) && x.home in ls
    ensures var m := MinusAll(ls, d); m[x.home := Minus(m[x.home], {x})] == MinusAll(ls, d + {x})
  {
    forall a | a in ls
      ensures Minus(ls[a], d + {x}) == if a == x.home then Minus(Minus(ls[a], d), {x}) else Minus(ls[a], d)
    {
      MinusTwice(ls[a], d, {x});
      if a != x.home {
        forall y | y in Minus(ls[a], d) ensures y != x {
          MinusIn(ls[a], d, y);
        }
        MinusNothing(Minus(ls[a], d), {x});
      }
    }
  }

  lemma {:induction false} MinusShrinks(s: seq<Node>, d: set<Node>, e: set<Node>)
    requires d <= e
    ensures |Minus(s, e)| <= |Minus(s, d)|
    ensures (exists x :: x in s && x in e && x !in d) ==> |Minus(s, e)| < |Minus(s, d)|
  {
    if s != [] {
      MinusShrinks(s[1..], d, e);
      assert s == [s[0]] + s[1..];
    }
  }

  // ----- the walk through nodes that are gone -----

  // Following pointer p into s, only dead nodes are passed over.
  ghost predicate SkipTo(s: seq<Node>, p: Node?, dead: set<Node>) {
    if s == [] then p == null else s[0] == p || (s[0] in dead && SkipTo(s[1..], p, dead))
  }

  lemma {:induction false} SkipToMore(s: seq<Node>, p: Node?, d: set<Node>, e: set<Node>)
    requires SkipTo(s, p, d) && d <= e
    ensures SkipTo(s, p, e)
  {
    if s != [] && s[0] != p {
      SkipToMore(s[1..], p, d, e);
    }
  }

  lemma {:induction false} SkipToHead(s: seq<Node>, dead: set<Node>)
    ensures SkipTo(s, Head(Minus(s, dead)), dead)
  {
    if s != [] && s[0] in dead {
      SkipToHead(s[1..], dead);
    }
  }

  lemma {:induction false} SkipToAfter(s: seq<Node>, dead: set<Node>, i: nat)
    requires i < |s| && s[i] !in dead && NoDup(s)
    ensures s[i] in Minus(s, dead)
    ensures SkipTo(s[i + 1..], After(Minus(s, dead), IndexOf(Minus(s, dead), s[i])), dead)
  {
    MinusIn(s, dead, s[i]);
    if i == 0 {
      SkipToHead(s[1..], dead);
      assert Minus(s, dead)[1..] == Minus(s[1..], dead);
    } else {
      SkipToAfter(s[1..], dead, i - 1);
      NoDupAt(s, 0, i);
      assert s[1..][i..] == s[i + 1..];
      if s[0] !in dead {
        assert Minus(s, dead) == [s[0]] + Minus(s[1..], dead);
      }
    }
  }

  // Where the walk lands.
  lemma {:induction false} SkipLands(s: seq<Node>, p: Node?, dead: set<Node>) returns (j: nat)
    requires SkipTo(s, p, dead)
    ensures j <= |s| && (if p == null then j == |s| else j < |s| && s[j] == p)
    ensures forall k | 0 <= k < j :: s[k] in dead
  {
    if s == [] || s[0] == p {
      j := 0;
    } else {
      j := SkipLands(s[1..], p, dead);
      j := j + 1;
    }
  }

  ghost predicate SkipOk(m: Memory, s: seq<Node>, i: nat, dead: set<Node>)
    requires i < |s|
  {
    s[i] in m.next && SkipTo(s[i + 1..], m.next[s[i]], dead)
  }

  // From every dead node of s, the pointer passes over dead nodes only.
  ghost predicate Skips(m: Memory, s: seq<Node>, dead: set<Node>) {
    forall i: nat {:trigger SkipOk(m, s, i, dead)} | i < |s| && s[i] in dead :: SkipOk(m, s, i, dead)
  }

  lemma SkipsUnlinked(m: Memory, s: seq<Node>, dead: set<Node>, v: Node)
    requires Skips(m, s, dead) && NoDup(s) && v in s && v !in dead
    ensures v in Minus(s, dead)
    ensures var t := Minus(s, dead); var k := IndexOf(t, v);
            Leads(m, t, k) ==> Skips(Bent(m, v.home, Before(t, k), After(t, k)), s, dead + {v})
  {
    MinusIn(s, dead, v);
    var t := Minus(s, dead);
    var k := IndexOf(t, v);
    if Leads(m, t, k) {
      MinusNoDup(s, dead);
      var m' := Bent(m, v.home, Before(t, k), After(t, k));
      forall i: nat | i < |s| && s[i] in dead + {v} ensures SkipOk(m', s, i, dead + {v}) {
        if s[i] == v {
          SkipToAfter(s, dead, i);
          SkipToMore(s[i + 1..], After(t, k), dead, dead + {v});
          if k > 0 {
            NoDupAt(t, k - 1, k);
          }
        } else {
          assert SkipOk(m, s, i, dead);
          SkipToMore(s[i + 1..], m.next[s[i]], dead, dead + {v});
          if k > 0 {
            MinusIn(s, dead, t[k - 1]);
          }
        }
      }
    }
  }

  ghost predicate SkipsIn(m: Memory, ls: Lists, dead: set<Node>, a: Anchor)
    requires a in ls
  {
    Skips(m, ls[a], dead)
  }

  ghost predicate AllSkip(m: Memory, ls: Lists, dead: set<Node>) {
    forall a {:trigger SkipsIn(m, ls, dead, a)} | a in ls :: SkipsIn(m, ls, dead, a)
  }

  ghost predicate NoDups(ls: Lists) {
    forall a | a in ls :: NoDup(ls[a])
  }

  lemma SkipsElsewhere(m: Memory, s: seq<Node>, dead: set<Node>, v: Node, prev: Node?, to: Node?)
    requires Skips(m, s, dead) && (forall x | x in s :: x.home != v.home) && (prev == null || prev.home == v.home)
    ensures Skips(Bent(m, v.home, prev, to), s, dead + {v})
  {
    var m' := Bent(m, v.home, prev, to);
    forall i: nat | i < |s| && s[i] in dead + {v} ensures SkipOk(m', s, i, dead + {v}) {
      assert s[i] in s && s[i] != v && SkipOk(m, s, i, dead);
      SkipToMore(s[i + 1..], m.next[s[i]], dead, dead + {v});
    }
  }

  lemma AllSkipUnlinked(m: Memory, ls: Lists, dead: set<Node>, v: Node)
    requires AllSkip(m, ls, dead) && NoDups(ls) && Homes(ls)
    requires v.home in ls && v in ls[v.home] && v !in dead
    ensures v in Minus(ls[v.home], dead)
    ensures var t := Minus(ls[v.home], dead); var k := IndexOf(t, v);
            Leads(m, t, k) ==> AllSkip(Bent(m, v.home, Before(t, k), After(t, k)), ls, dead + {v})
  {
    assert SkipsIn(m, ls, dead, v.home);
    SkipsUnlinked(m, ls[v.home], dead, v);
    var t := Minus(ls[v.home], dead);
    var k := IndexOf(t, v);
    if Leads(m, t, k) {
      var m' := Bent(m, v.home, Before(t, k), After(t, k));
      if k > 0 {
        MinusIn(ls[v.home], dead, t[k - 1]);
      }
      forall a | a in ls ensures SkipsIn(m', ls, dead + {v}, a) {
        assert SkipsIn(m, ls, dead, a);
        if a != v.home {
          SkipsElsewhere(m, ls[a], dead, v, Before(t, k), After(t, k));
        }
      }
    }
  }

  // ----- what depends on a vector -----

  function Base(x: Node): Node? { if x.item.VecItem? then x.item.base else null }

  ghost predicate Reaches(x: Node, v: Node, n: nat) {
    x == v || (n > 0 && Base(x) != null && Reaches(Base(x), v, n - 1))
  }

  // v is x, its base, its base's base, ...
  ghost predicate DependsOn(x: Node, v: Node) { exists n: nat :: Reaches(x, v, n) }

  // Every base comes before its users.
  ghost predicate BasesFirst(s: seq<Node>) {
    forall i | 0 <= i < |s| :: Base(s[i]) != null ==> Base(s[i]) in s[..i]
  }

  lemma DependsStep(x: Node, v: Node)
    ensures DependsOn(x, v) <==> x == v || (Base(x) != null && DependsOn(Base(x), v))
  {
    if DependsOn(x, v) {
      var n: nat :| Reaches(x, v, n);
      if x != v {
        assert Reaches(Base(x), v, n - 1);
      }
    }
    if x == v {
      assert Reaches(x, v, 0);
    } else if Base(x) != null && DependsOn(Base(x), v) {
      var n: nat :| Reaches(Base(x), v, n);
      assert Reaches(x, v, n + 1);
    }
  }

  // What an element of a list depends on is not behind it.
  lemma {:induction false} DependsBack(s: seq<Node>, i: nat, v: Node)
    requires BasesFirst(s) && i < |s| && DependsOn(s[i], v)
    ensures v in s[..i + 1]
  {
    DependsStep(s[i], v);
    if s[i] != v {
      var j :| 0 <= j < i && s[j] == Base(s[i]);
      DependsBack(s, j, v);
    }
  }

  lemma {:induction false} DependsTransitive(s: seq<Node>, i: nat, v: Node, w: Node)
    requires BasesFirst(s) && i < |s| && DependsOn(s[i], v) && DependsOn(v, w)
    ensures DependsOn(s[i], w)
  {
    DependsStep(s[i], v);
    DependsStep(s[i], w);
    if s[i] != v {
      var j :| 0 <= j < i && s[j] == Base(s[i]);
      DependsTransitive(s, j, v, w);
    }
  }

  // The vectors something depends on form a chain.
  lemma {:induction false} DependsChain(s: seq<Node>, i: nat, v: Node, w: Node)
    requires BasesFirst(s) && i < |s| && DependsOn(s[i], v) && DependsOn(s[i], w)
    ensures DependsOn(v, w) || DependsOn(w, v)
  {
    DependsStep(s[i], v);
    DependsStep(s[i], w);
    if s[i] != v && s[i] != w {
      var j :| 0 <= j < i && s[j] == Base(s[i]);
      DependsChain(s, j, v, w);
    }
  }

  // The subtree of v.
  ghost function Subtree(s: seq<Node>, v: Node): set<Node> { set x | x in s && DependsOn(x, v) }

  // The subtrees of those among the first i elements of s that sit directly on v.
  ghost function Branches(s: seq<Node>, v: Node, i: nat): set<Node>
    requires i <= |s|
  {
    set x | x in s && exists j | 0 <= j < i :: Base(s[j]) == v && DependsOn(x, s[j])
  }

  lemma BranchesAll(s: seq<Node>, v: Node)
    requires BasesFirst(s) && v in s
    ensures Subtree(s, v) == {v} + Branches(s, v, |s|)
  {
    forall x | x in s ensures x in Subtree(s, v) <==> x in {v} + Branches(s, v, |s|) {
      var i :| 0 <= i < |s| && s[i] == x;
      if DependsOn(x, v) && x != v {
        BranchExists(s, i, v);
      } else if x in Branches(s, v, |s|) {
        var j :| 0 <= j < |s| && Base(s[j]) == v && DependsOn(x, s[j]);
        DependsStep(v, v);
        DependsStep(s[j], v);
        DependsTransitive(s, i, s[j], v);
      } else {
        DependsStep(v, v);
      }
    }
  }

  lemma {:induction false} BranchExists(s: seq<Node>, i: nat, v: Node)
    requires BasesFirst(s) && i < |s| && DependsOn(s[i], v) && s[i] != v
    ensures exists j | 0 <= j < |s| :: Base(s[j]) == v && DependsOn(s[i], s[j])
  {
    DependsStep(s[i], v);
    if Base(s[i]) == v {
      DependsStep(s[i], s[i]);
    } else {
      var k :| 0 <= k < i && s[k] == Base(s[i]);
      BranchExists(s, k, v);
      var j :| 0 <= j < |s| && Base(s[j]) == v && DependsOn(s[k], s[j]);
      DependsStep(s[i], s[j]);
    }
  }

  // The next branch has nothing in common with v and the branches before it.
  lemma BranchNext(s: seq<Node>, v: Node, i: nat)
    requires BasesFirst(s) && NoDup(s) && i < |s|
    ensures Base(s[i]) != v ==> Branches(s, v, i + 1) == Branches(s, v, i)
    ensures Base(s[i]) == v ==> Branches(s, v, i + 1) == Branches(s, v, i) + Subtree(s, s[i])
    ensures Base(s[i]) == v ==> Subtree(s, s[i]) !! {v} + Branches(s, v, i)
    ensures Base(s[i]) == v ==> Subtree(s, s[i]) <= Subtree(s, v)
  {
    if Base(s[i]) == v {
      forall x | x in Subtree(s, s[i]) ensures x !in {v} + Branches(s, v, i) && DependsOn(x, v) {
        var k :| 0 <= k < |s| && s[k] == x;
        DependsStep(v, v);
        DependsStep(s[i], v);
        DependsTransitive(s, k, s[i], v);
        if x == v {
          NotBelow(s, i);
        }
        if x in Branches(s, v, i) {
          var j :| 0 <= j < i && Base(s[j]) == v && DependsOn(x, s[j]);
          NoDupAt(s, i, j);
          DependsChain(s, k, s[i], s[j]);
          DependsStep(s[i], s[j]);
          DependsStep(s[j], s[i]);
          NotBelow(s, i);
          NotBelow(s, j);
        }
      }
    }
  }

  lemma NotBelow(s: seq<Node>, i: nat)
    requires BasesFirst(s) && NoDup(s) && i < |s| && Base(s[i]) != null
    ensures !DependsOn(Base(s[i]), s[i])
  {
    var j :| 0 <= j < i && s[j] == Base(s[i]);
    if DependsOn(s[j], s[i]) {
      DependsBack(s, j, s[i]);
      var k :| 0 <= k < j + 1 && s[k] == s[i];
      NoDupAt(s, k, i);
    }
  }
}
