// The bit sets of fped (eda/fped/bitset.c): arrays of words that stand for sets of numbers.
module Bitset {
  const BITS := 32

  // ----- one word -----

  function Or(a: bv32, b: bv32): bv32 { a | b }
  function And(a: bv32, b: bv32): bv32 { a & b }
  function Not(a: bv32): bv32 { !a }

  // 1U << k, one bit at a time
  function Mask(k: nat): bv32
    requires k < BITS
  {
    if k == 0 then 1 else Mask(k - 1) << 1
  }

  predicate Bit(w: bv32, k: nat)
    requires k < BITS
  {
    And(w, Mask(k)) != 0
  }

  ghost predicate Single(x: bv32) { x & (x - 1) == 0 && x != 0 }

  lemma {:induction false} MaskIsShift(k: nat)
    requires k < BITS
    ensures Mask(k) == (1 as bv32) << k
  {
    if k > 0 {
      MaskIsShift(k - 1);
      ShiftOneMore(k - 1);
    }
  }

  lemma ShiftOneMore(k: nat)
    requires k + 1 < BITS
    ensures ((1 as bv32) << k) << 1 == (1 as bv32) << (k + 1)
  {}

  lemma ShiftsDiffer(k: nat, j: nat)
    requires k < BITS && j < BITS && k != j
    ensures And((1 as bv32) << k, (1 as bv32) << j) == 0
  {}

  lemma ShiftSingle(k: nat)
    requires k < BITS
    ensures Single((1 as bv32) << k)
  {}

  lemma MasksDiffer(k: nat, j: nat)
    requires k < BITS && j < BITS
    ensures Single(Mask(k)) && (k != j ==> And(Mask(k), Mask(j)) == 0)
  {
    MaskIsShift(k);
    MaskIsShift(j);
    ShiftSingle(k);
    if k != j {
      ShiftsDiffer(k, j);
    }
  }

  // The laws of the word operations, each on its own.
  lemma RawNot(a: bv32, x: bv32)
    ensures !a & x == x & !(a & x)
  {}

  lemma RawSelf(x: bv32)
    ensures x & x == x && x | x == x && x & !x == 0
  {}

  lemma RawZero(x: bv32)
    ensures x | 0 == x && 0 | x == x && x & 0 == 0 && 0 & x == 0 && x & !0 == x
  {}

  lemma RawSingle(a: bv32, x: bv32)
    requires Single(x)
    ensures a & x == 0 || a & x == x
  {}

  lemma RawOnes(m: bv32)
    requires Single(m)
    ensures (m - 1) | m == (m << 1) - 1
  {}

  lemma OrAt(a: bv32, b: bv32, x: bv32)
    ensures And(Or(a, b), x) == Or(And(a, x), And(b, x))
  {
    assert (a | b) & x == (a & x) | (b & x);
  }

  lemma AndAt(a: bv32, b: bv32, x: bv32)
    ensures And(And(a, b), x) == And(And(a, x), And(b, x))
  {
    assert (a & b) & x == (a & x) & (b & x);
  }

  lemma NotAt(a: bv32, x: bv32)
    ensures And(Not(a), x) == And(x, Not(And(a, x)))
  {
    calc {
      And(Not(a), x);
      !a & x;
      { RawNot(a, x); }
      x & !(a & x);
      And(x, Not(And(a, x)));
    }
  }

  lemma Simple(x: bv32)
    ensures And(x, x) == x && Or(x, x) == x && And(x, Not(x)) == 0
    ensures Or(x, 0) == x && Or(0, x) == x && And(x, 0) == 0 && And(0, x) == 0 && And(x, Not(0)) == x
  {
    RawSelf(x);
    RawZero(x);
  }

  lemma SingleAt(a: bv32, x: bv32)
    requires Single(x)
    ensures And(a, x) == 0 || And(a, x) == x
  {
    RawSingle(a, x);
  }

  lemma AndSwap(a: bv32, b: bv32)
    ensures And(a, b) == And(b, a)
  {}

  // The operations, bit by bit.
  lemma CombineBit(a: bv32, b: bv32, k: nat)
    requires k < BITS
    ensures Bit(And(a, b), k) <==> Bit(a, k) && Bit(b, k)
    ensures Bit(Or(a, b), k) <==> Bit(a, k) || Bit(b, k)
    ensures Bit(Not(a), k) <==> !Bit(a, k)
  {
    var x := Mask(k);
    MasksDiffer(k, k);
    SingleAt(a, x);
    SingleAt(b, x);
    AndAt(a, b, x);
    OrAt(a, b, x);
    NotAt(a, x);
    Simple(x);
    Simple(0);
  }

  lemma MaskBit(k: nat, j: nat)
    requires k < BITS && j < BITS
    ensures Bit(Mask(k), j) <==> k == j
  {
    MasksDiffer(k, j);
    Simple(Mask(k));
  }

  function Ones(n: nat): bv32
    requires n <= BITS
  {
    if n == 0 then 0 else Or(Ones(n - 1), Mask(n - 1))
  }

  lemma {:induction false} OnesBelow(n: nat)
    requires n < BITS
    ensures Ones(n) == Mask(n) - 1
  {
    if n > 0 {
      OnesBelow(n - 1);
      MasksDiffer(n - 1, n - 1);
      RawOnes(Mask(n - 1));
    }
  }

  lemma AllOnes()
    ensures Ones(BITS) == 0xFFFF_FFFF
  {
    OnesBelow(BITS - 1);
    MaskIsShift(BITS - 1);
    assert (1 as bv32) << (BITS - 1) == 0x8000_0000;
    assert (0x8000_0000 as bv32) - 1 | 0x8000_0000 == 0xFFFF_FFFF;
  }

  lemma {:induction false} NoBits(w: bv32, n: nat)
    requires n <= BITS && forall k: nat | k < n :: !Bit(w, k)
    ensures And(w, Ones(n)) == 0
  {
    Simple(w);
    if n > 0 {
      NoBits(w, n - 1);
      assert !Bit(w, n - 1);
      calc {
        And(w, Ones(n));
        { AndSwap(w, Ones(n)); }
        And(Ones(n), w);
        { OrAt(Ones(n - 1), Mask(n - 1), w); }
        Or(And(Ones(n - 1), w), And(Mask(n - 1), w));
        { AndSwap(Ones(n - 1), w); AndSwap(Mask(n - 1), w); }
        Or(0, 0);
        { Simple(0); }
        0;
      }
    }
  }

  // A word that is not zero has a bit set.
  lemma WordNonZero(w: bv32)
    ensures w != 0 <==> exists k: nat :: k < BITS && Bit(w, k)
  {
    if w == 0 {
      forall k: nat | k < BITS ensures !Bit(w, k) {
        Simple(Mask(k));
      }
    } else if forall k: nat | k < BITS :: !Bit(w, k) {
      NoBitsZero(w);
      assert false;
    }
  }

  lemma NoBitsZero(w: bv32)
    requires forall k: nat | k < BITS :: !Bit(w, k)
    ensures w == 0
  {
    NoBits(w, BITS);
    AllOnes();
    WithOnes(w);
  }

  lemma WithOnes(w: bv32)
    ensures And(w, 0xFFFF_FFFF) == w
  {
    assert w & 0xFFFF_FFFF == w;
  }

  // ----- arrays of words -----

  // Bit n of the array.
  predicate Has(v: seq<bv32>, n: nat) { n / BITS < |v| && Bit(v[n / BITS], n % BITS) }

  ghost function SetOf(v: seq<bv32>): set<nat> { set n: nat | n < BITS * |v| && Has(v, n) }

  lemma InSetOf(v: seq<bv32>, n: nat)
    ensures n in SetOf(v) <==> Has(v, n)
  {
    if n / BITS < |v| {
      assert n == BITS * (n / BITS) + n % BITS < BITS * (n / BITS + 1) <= BITS * |v|;
    }
  }

  lemma HasAt(v: seq<bv32>, i: nat, k: nat)
    requires i < |v| && k < BITS
    ensures Has(v, BITS * i + k) <==> Bit(v[i], k)
  {
    assert (BITS * i + k) / BITS == i && (BITS * i + k) % BITS == k;
  }

  lemma MetSets(x: seq<bv32>, y: seq<bv32>, z: seq<bv32>)
    requires |x| == |y| == |z| && forall i | 0 <= i < |x| :: z[i] == And(x[i], y[i])
    ensures SetOf(z) == SetOf(x) * SetOf(y)
  {
    forall n: nat ensures n in SetOf(z) <==> n in SetOf(x) && n in SetOf(y) {
      InSetOf(x, n);
      InSetOf(y, n);
      InSetOf(z, n);
      if n / BITS < |x| {
        CombineBit(x[n / BITS], y[n / BITS], n % BITS);
      }
    }
  }

  lemma JoinedSets(x: seq<bv32>, y: seq<bv32>, z: seq<bv32>)
    requires |x| == |y| == |z| && forall i | 0 <= i < |x| :: z[i] == Or(x[i], y[i])
    ensures SetOf(z) == SetOf(x) + SetOf(y)
  {
    forall n: nat ensures n in SetOf(z) <==> n in SetOf(x) || n in SetOf(y) {
      InSetOf(x, n);
      InSetOf(y, n);
      InSetOf(z, n);
      if n / BITS < |x| {
        CombineBit(x[n / BITS], y[n / BITS], n % BITS);
      }
    }
  }

  // w |= 1U << k
  method WithBit(w: bv32, k: nat) returns (r: bv32)
    requires k < BITS
    ensures forall j: nat | j < BITS :: Bit(r, j) <==> Bit(w, j) || j == k
  {
    r := Or(w, Mask(k));
    forall j: nat | j < BITS ensures Bit(r, j) <==> Bit(w, j) || j == k {
      CombineBit(w, Mask(k), j);
      MaskBit(k, j);
    }
  }

  // w &= ~(1U << k)
  method WithoutBit(w: bv32, k: nat) returns (r: bv32)
    requires k < BITS
    ensures forall j: nat | j < BITS :: Bit(r, j) <==> Bit(w, j) && j != k
  {
    r := And(w, Not(Mask(k)));
    forall j: nat | j < BITS ensures Bit(r, j) <==> Bit(w, j) && j != k {
      CombineBit(w, Not(Mask(k)), j);
      CombineBit(Mask(k), 0, j);
      MaskBit(k, j);
    }
  }

  lemma ChangedSet(x: seq<bv32>, n: nat, w: bv32, on: bool)
    requires n / BITS < |x|
    requires forall j: nat | j < BITS :: Bit(w, j) <==> if j == n % BITS then on else Bit(x[n / BITS], j)
    ensures SetOf(x[n / BITS := w]) == if on then SetOf(x) + {n} else SetOf(x) - {n}
  {
    var y := x[n / BITS := w];
    forall j: nat ensures j in SetOf(y) <==> if j == n then on else j in SetOf(x) {
      InSetOf(x, j);
      InSetOf(y, j);
    }
  }

  // A bit that is in y and not in x.
  lemma MissingBit(x: seq<bv32>, y: seq<bv32>, i: nat)
    requires i < |x| == |y|
    ensures And(Not(x[i]), y[i]) != 0 <==> exists n: nat :: n / BITS == i && !Has(x, n) && Has(y, n)
  {
    WordNonZero(And(Not(x[i]), y[i]));
    if And(Not(x[i]), y[i]) != 0 {
      var k: nat :| k < BITS && Bit(And(Not(x[i]), y[i]), k);
      CombineBit(Not(x[i]), y[i], k);
      CombineBit(x[i], y[i], k);
      HasAt(x, i, k);
      HasAt(y, i, k);
      assert (BITS * i + k) / BITS == i;
    } else if n: nat :| n / BITS == i && !Has(x, n) && Has(y, n) {
      CombineBit(Not(x[i]), y[i], n % BITS);
      CombineBit(x[i], y[i], n % BITS);
    }
  }

  // v_n, which rounds up the number of bits and is then taken as a number of words
  function Words(n: nat): (w: nat)
    ensures w >= n
  {
    (n + BITS - 1) / BITS * BITS
  }

  // There are as many words as the next multiple of 32 has bits: for one number, one would do, there are 32.
  lemma WordsTooMany(n: nat)
    ensures Words(n) % 32 == 0 && n <= Words(n) < n + 32
    ensures n > 0 ==> Words(n) >= 32
    ensures Words(1) == 32
  {}

  class Bitset {
    const v: array<bv32>

    ghost function Contents(): set<nat>
      reads v
    {
      SetOf(v[..])
    }

    function Capacity(): nat { BITS * v.Length }

    // bitset_new: as many words as the next multiple of the word size has bits
    constructor (n: nat)
      ensures Contents() == {} && v.Length == Words(n) && Capacity() >= n && fresh(v)
    {
      v := new bv32[Words(n)](_ => 0);
      new;
      assert forall i: nat :: i < |v[..]| ==> v[..][i] == 0;
    }

    // bitset_clone
    constructor Clone(other: Bitset)
      ensures Contents() == other.Contents() && v.Length == other.v.Length && fresh(v)
    {
      v := new bv32[other.v.Length](i requires 0 <= i < other.v.Length reads other.v => other.v[i]);
      new;
      assert v[..] == other.v[..];
    }

    method Set(n: nat)
      requires n < Capacity()
      modifies v
      ensures Contents() == old(Contents()) + {n}
    {
      ghost var was := v[..];
      var w := WithBit(v[n / BITS], n % BITS);
      ChangedSet(was, n, w, true);
      v[n / BITS] := w;
      assert v[..] == was[n / BITS := w];
    }

    method Clear(n: nat)
      requires n < Capacity()
      modifies v
      ensures Contents() == old(Contents()) - {n}
    {
      ghost var was := v[..];
      var w := WithoutBit(v[n / BITS], n % BITS);
      ChangedSet(was, n, w, false);
      v[n / BITS] := w;
      assert v[..] == was[n / BITS := w];
    }

    method Pick(n: nat) returns (r: bool)
      requires n < Capacity()
      ensures r <==> n in Contents()
    {
      InSetOf(v[..], n);
      r := And(v[n / BITS], Mask(n % BITS)) != 0;
    }

    method IsEmpty() returns (r: bool)
      ensures r <==> Contents() == {}
    {
      for i := 0 to v.Length
        invariant forall j: nat :: j in Contents() ==> j / BITS >= i
      {
        WordNonZero(v[i]);
        if v[i] != 0 {
          ghost var k: nat :| k < BITS && Bit(v[i], k);
          HasAt(v[..], i, k);
          InSetOf(v[..], BITS * i + k);
          return false;
        }
        forall j: nat | j in Contents() ensures j / BITS >= i + 1 {
          InSetOf(v[..], j);
        }
      }
      forall j: nat ensures j !in Contents() {
        InSetOf(v[..], j);
      }
      return true;
    }

    method Zero()
      modifies v
      ensures Contents() == {}
    {
      for i := 0 to v.Length
        invariant forall j | 0 <= j < i :: v[j] == 0
      {
        v[i] := 0;
      }
    }

    // bitset_and
    method Meet(b: Bitset)
      requires v.Length == b.v.Length
      modifies v
      ensures Contents() == old(Contents()) * old(b.Contents())
    {
      ghost var x, y := v[..], b.v[..];
      for i := 0 to v.Length
        invariant v == b.v ==> x == y
        invariant forall j | 0 <= j < v.Length :: v[j] == if j < i then And(x[j], y[j]) else x[j]
        invariant forall j | i <= j < v.Length :: b.v[j] == y[j]
      {
        v[i] := And(v[i], b.v[i]);
      }
      MetSets(x, y, v[..]);
    }

    // bitset_or
    method Join(b: Bitset)
      requires v.Length == b.v.Length
      modifies v
      ensures Contents() == old(Contents()) + old(b.Contents())
    {
      ghost var x, y := v[..], b.v[..];
      for i := 0 to v.Length
        invariant v == b.v ==> x == y
        invariant forall j | 0 <= j < v.Length :: v[j] == if j < i then Or(x[j], y[j]) else x[j]
        invariant forall j | i <= j < v.Length :: b.v[j] == y[j]
      {
        v[i] := Or(v[i], b.v[i]);
      }
      JoinedSets(x, y, v[..]);
    }

    // bitset_ge: this set includes b
    method Ge(b: Bitset) returns (r: bool)
      requires v.Length == b.v.Length
      ensures r <==> b.Contents() <= Contents()
    {
      for i := 0 to v.Length
        invariant forall n: nat | n / BITS < i && Has(b.v[..], n) :: Has(v[..], n)
      {
        MissingBit(v[..], b.v[..], i);
        if And(Not(v[i]), b.v[i]) != 0 {
          ghost var n: nat :| n / BITS == i && !Has(v[..], n) && Has(b.v[..], n);
          InSetOf(v[..], n);
          InSetOf(b.v[..], n);
          return false;
        }
      }
      forall n: nat | n in b.Contents() ensures n in Contents() {
        InSetOf(b.v[..], n);
        InSetOf(v[..], n);
      }
      return true;
    }
  }
}
