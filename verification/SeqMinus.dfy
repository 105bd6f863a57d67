// Sequences without repetition, and taking a set of elements out of them in place.
module SeqMinus {
  ghost predicate NoDup<T>(s: seq<T>) {
    s == [] || (s[0] !in s[1..] && NoDup(s[1..]))
  }

  lemma {:induction false} NoDupAt<T>(s: seq<T>, i: nat, j: nat)
    requires NoDup(s) && i < |s| && j < |s| && i != j
    ensures s[i] != s[j]
  {
    if i > 0 && j > 0 {
      NoDupAt(s[1..], i - 1, j - 1);
    } else if i == 0 {
      assert s[j] == s[1..][j - 1];
    } else {
      assert s[i] == s[1..][i - 1];
    }
  }

  // s without the elements of d, in the same order.
  function Minus<T(==)>(s: seq<T>, d: set<T>): seq<T> {
    if s == [] then []
    else if s[0] in d then Minus(s[1..], d)
    else [s[0]] + Minus(s[1..], d)
  }

  lemma {:induction false} MinusIn<T>(s: seq<T>, d: set<T>, x: T)
    ensures x in Minus(s, d) <==> x in s && x !in d
  {
    if s != [] {
      assert s == [s[0]] + s[1..];
      MinusIn(s[1..], d, x);
    }
  }

  lemma {:induction false} MinusNothing<T>(s: seq<T>, d: set<T>)
    requires forall x | x in s :: x !in d
    ensures Minus(s, d) == s
  {
    if s != [] {
      assert s == [s[0]] + s[1..];
      MinusNothing(s[1..], d);
    }
  }

  lemma {:induction false} MinusTwice<T>(s: seq<T>, d: set<T>, e: set<T>)
    ensures Minus(Minus(s, d), e) == Minus(s, d + e)
  {
    if s != [] {
      MinusTwice(s[1..], d, e);
      if s[0] !in d {
        assert ([s[0]] + Minus(s[1..], d))[1..] == Minus(s[1..], d);
      }
    }
  }

  lemma {:induction false} MinusConcat<T>(s: seq<T>, t: seq<T>, d: set<T>)
    ensures Minus(s + t, d) == Minus(s, d) + Minus(t, d)
  {
    if s == [] {
      assert s + t == t;
    } else {
      assert (s + t)[1..] == s[1..] + t;
      MinusConcat(s[1..], t, d);
    }
  }

  // Taking one element out.
  lemma {:induction false} MinusOne<T>(s: seq<T>, i: nat)
    requires i < |s| && NoDup(s)
    ensures Minus(s, {s[i]}) == s[..i] + s[i + 1..]
  {
    if i == 0 {
      MinusNothing(s[1..], {s[0]});
    } else {
      NoDupAt(s, 0, i);
      MinusOne(s[1..], i - 1);
      assert s[..i] + s[i + 1..] == [s[0]] + (s[1..][..i - 1] + s[1..][i..]);
    }
  }

  lemma Inserted<T>(s: seq<T>, p: nat, x: T)
    requires 0 < p <= |s|
    ensures s[..p] + [x] + s[p..] == [s[0]] + (s[1..][..p - 1] + [x] + s[1..][p - 1..])
  {}

  lemma {:induction false} NoDupInsert<T>(s: seq<T>, p: nat, x: T)
    requires NoDup(s) && p <= |s| && x !in s
    ensures NoDup(s[..p] + [x] + s[p..])
  {
    if p == 0 {
      assert s[..0] + [x] + s[0..] == [x] + s;
    } else {
      var r := s[1..];
      NoDupInsert(r, p - 1, x);
      Inserted(s, p, x);
      assert s[0] !in r[..p - 1] + [x] + r[p - 1..];
    }
  }

  lemma {:induction false} MinusNoDup<T>(s: seq<T>, d: set<T>)
    requires NoDup(s)
    ensures NoDup(Minus(s, d))
  {
    if s != [] {
      MinusNoDup(s[1..], d);
      MinusIn(s[1..], d, s[0]);
    }
  }

  function IndexOf<T(==)>(s: seq<T>, x: T): (i: nat)
    requires x in s
    ensures i < |s| && s[i] == x
  {
    if s[0] == x then 0 else 1 + IndexOf(s[1..], x)
  }

  lemma {:induction false} IndexOfFirst<T>(s: seq<T>, i: nat)
    requires i < |s| && s[i] !in s[..i]
    ensures IndexOf(s, s[i]) == i
  {
    if i > 0 {
      assert s[0] != s[i] && s[1..][..i - 1] == s[1..i];
      IndexOfFirst(s[1..], i - 1);
    }
  }

  lemma {:induction false} IndexOfUnique<T>(s: seq<T>, i: nat)
    requires i < |s| && NoDup(s)
    ensures IndexOf(s, s[i]) == i
  {
    if i > 0 {
      NoDupAt(s, 0, i);
      IndexOfUnique(s[1..], i - 1);
    }
  }
}
