// Key schedules as the code writes them, in place into the array of a key object: the
// encryption schedule is the KeyExpansion of FIPS 197 (section 5.2), the decryption schedule is
// that of the equivalent inverse cipher (section 5.3.5).
module AesKeys {
  import opened AesTables
  import opened AesField
  import opened AesSpec
  import opened AesWords

  // ----- key expansion, section 5.2 -----

  function SubWord(w: bv32): bv32 { Pack(S(B0(w)), S(B1(w)), S(B2(w)), S(B3(w))) }
  function RotWord(w: bv32): bv32 { (w << 8) | (w >> 24) }

  // x^(j-1) in GF(2^8)
  function RconByte(j: nat): bv8
    requires j >= 1
  {
    if j == 1 then 1 else Xtime(RconByte(j - 1))
  }

  function Expand(key: seq<bv32>, i: nat): bv32
    requires |key| >= 4
  {
    if i < |key| then key[i]
    else
      var temp := Expand(key, i - 1);
      Xor(Expand(key, i - |key|),
          if i % |key| == 0 then Xor(SubWord(RotWord(temp)), Pack(RconByte(i / |key|), 0, 0, 0))
          else if |key| > 6 && i % |key| == 4 then SubWord(temp)
          else temp)
  }

  // The constants the code adds, by iteration number.
  function Rcon(i: nat): bv32
    requires i < 10
  {
    if i == 0 then 0x01000000 else if i == 1 then 0x02000000 else if i == 2 then 0x04000000
    else if i == 3 then 0x08000000 else if i == 4 then 0x10000000 else if i == 5 then 0x20000000
    else if i == 6 then 0x40000000 else if i == 7 then 0x80000000 else if i == 8 then 0x1B000000
    else 0x36000000
  }

  lemma RconHolds(i: nat)
    requires i < 10
    ensures Rcon(i) == Pack(RconByte(i + 1), 0, 0, 0)
  {
    assert RconByte(1) == 0x01 && RconByte(2) == 0x02;
    assert RconByte(3) == 0x04 && RconByte(4) == 0x08;
    assert RconByte(5) == 0x10 && RconByte(6) == 0x20;
    assert RconByte(7) == 0x40 && RconByte(8) == 0x80;
    assert RconByte(9) == 0x1B && RconByte(10) == 0x36;
  }

  // The two ways the code runs four Te4 lookups over the last word.
  function SubRotTables(t: bv32): bv32 { Assemble(Te4(B1(t)), Te4(B2(t)), Te4(B3(t)), Te4(B0(t))) }
  function SubTables(t: bv32): bv32 { Assemble(Te4(B0(t)), Te4(B1(t)), Te4(B2(t)), Te4(B3(t))) }

  lemma SameBytes(v: bv32, w: bv32)
    requires Bytes(v) == Bytes(w)
    ensures v == w
  {
    PackBytes(v);
    PackBytes(w);
  }

  lemma SubTablesHolds(t: bv32)
    ensures SubTables(t) == SubWord(t)
  {
    Te4Holds(B0(t));
    Te4Holds(B1(t));
    Te4Holds(B2(t));
    Te4Holds(B3(t));
    AssembleBytes(Te4(B0(t)), Te4(B1(t)), Te4(B2(t)), Te4(B3(t)));
    BytesPack(S(B0(t)), S(B1(t)), S(B2(t)), S(B3(t)));
    SameBytes(SubTables(t), SubWord(t));
  }

  lemma RotWordBytes(t: bv32)
    ensures Bytes(RotWord(t)) == Column(B1(t), B2(t), B3(t), B0(t))
  {
  }

  lemma SubRotTablesHolds(t: bv32)
    ensures SubRotTables(t) == SubWord(RotWord(t))
  {
    RotWordBytes(t);
    SubTablesHolds(RotWord(t));
  }

  lemma XorAssoc(a: bv32, b: bv32, c: bv32)
    ensures Xor(a, Xor(b, c)) == Xor(Xor(a, b), c)
  {
    assert a ^ (b ^ c) == (a ^ b) ^ c;
  }

  // The three shapes of one assignment of the expansion loops.
  function HeadWord(prev: bv32, temp: bv32, rcon: bv32): bv32 { Xor(Xor(prev, SubRotTables(temp)), rcon) }
  function MiddleWord(prev: bv32, temp: bv32): bv32 { Xor(prev, SubTables(temp)) }

  lemma HeadWordHolds(prev: bv32, temp: bv32, j: nat)
    requires 1 <= j <= 10
    ensures Xor(prev, Xor(SubWord(RotWord(temp)), Pack(RconByte(j), 0, 0, 0))) == HeadWord(prev, temp, Rcon(j - 1))
  {
    RconHolds(j - 1);
    SubRotTablesHolds(temp);
    XorAssoc(prev, SubRotTables(temp), Rcon(j - 1));
  }

  lemma ExpandHead(key: seq<bv32>, i: nat)
    requires 4 <= |key| <= i && i % |key| == 0 && i / |key| <= 10
    ensures i / |key| >= 1
    ensures Expand(key, i) == HeadWord(Expand(key, i - |key|), Expand(key, i - 1), Rcon(i / |key| - 1))
  {
    assert i / |key| >= 1;
    HeadWordHolds(Expand(key, i - |key|), Expand(key, i - 1), i / |key|);
  }

  lemma ExpandMiddle(key: seq<bv32>, i: nat)
    requires 6 < |key| <= i && i % |key| == 4
    ensures Expand(key, i) == MiddleWord(Expand(key, i - |key|), Expand(key, i - 1))
  {
    SubTablesHolds(Expand(key, i - 1));
  }

  lemma ExpandTail(key: seq<bv32>, i: nat)
    requires 4 <= |key| <= i && i % |key| != 0 && (|key| > 6 ==> i % |key| != 4)
    ensures Expand(key, i) == Xor(Expand(key, i - |key|), Expand(key, i - 1))
  {
  }

  // A schedule as a function value e: equal to Expand, but looked into only where Expand is named.
  ghost predicate IsSchedule(e: nat -> bv32, key: seq<bv32>) {
    |key| >= 4 && forall i: nat {:trigger Expand(key, i)} :: e(i) == Expand(key, i)
  }

  ghost predicate Holds<T>(rk: array<T>, e: nat -> T, n: nat)
    reads rk
  {
    n <= rk.Length && forall j: nat | j < n :: rk[j] == e(j)
  }

  // One assignment of an expansion loop, to word j, for keys of nk words.
  method KeyHead(rk: array<bv32>, j: nat, nk: nat, i: nat, ghost key: seq<bv32>, ghost e: nat -> bv32)
    requires IsSchedule(e, key) && |key| == nk && i < 10 && nk <= j < rk.Length && j % nk == 0 && j / nk == i + 1
    requires Holds(rk, e, j)
    modifies rk
    ensures Holds(rk, e, j + 1)
  {
    rk[j] := HeadWord(rk[j - nk], rk[j - 1], Rcon(i));
    ExpandHead(key, j);
  }

  method KeyMiddle(rk: array<bv32>, j: nat, nk: nat, ghost key: seq<bv32>, ghost e: nat -> bv32)
    requires IsSchedule(e, key) && |key| == nk && 6 < nk <= j < rk.Length && j % nk == 4
    requires Holds(rk, e, j)
    modifies rk
    ensures Holds(rk, e, j + 1)
  {
    rk[j] := MiddleWord(rk[j - nk], rk[j - 1]);
    ExpandMiddle(key, j);
  }

  method KeyTail(rk: array<bv32>, j: nat, nk: nat, ghost key: seq<bv32>, ghost e: nat -> bv32)
    requires IsSchedule(e, key) && |key| == nk <= j < rk.Length && j % nk != 0 && (nk > 6 ==> j % nk != 4)
    requires Holds(rk, e, j)
    modifies rk
    ensures Holds(rk, e, j + 1)
  {
    rk[j] := Xor(rk[j - nk], rk[j - 1]);
    ExpandTail(key, j);
  }

  method Expand128(rk: array<bv32>, ghost key: seq<bv32>, ghost e: nat -> bv32)
    requires IsSchedule(e, key) && |key| == 4 && rk.Length >= 44 && Holds(rk, e, 4)
    modifies rk
    ensures Holds(rk, e, 44)
  {
    var i, p := 0, 0;
    while true
      invariant 0 <= i < 10 && p == 4 * i
      invariant Holds(rk, e, p + 4)
      decreases 10 - i
    {
      KeyHead(rk, p + 4, 4, i, key, e);
      KeyTail(rk, p + 5, 4, key, e);
      KeyTail(rk, p + 6, 4, key, e);
      KeyTail(rk, p + 7, 4, key, e);
      i := i + 1;
      if i == 10 {
        return;
      }
      p := p + 4;
    }
  }

  method Expand192(rk: array<bv32>, ghost key: seq<bv32>, ghost e: nat -> bv32)
    requires IsSchedule(e, key) && |key| == 6 && rk.Length >= 52 && Holds(rk, e, 6)
    modifies rk
    ensures Holds(rk, e, 52)
  {
    var i, p := 0, 0;
    while true
      invariant 0 <= i < 8 && p == 6 * i
      invariant Holds(rk, e, p + 6)
      decreases 8 - i
    {
      KeyHead(rk, p + 6, 6, i, key, e);
      KeyTail(rk, p + 7, 6, key, e);
      KeyTail(rk, p + 8, 6, key, e);
      KeyTail(rk, p + 9, 6, key, e);
      i := i + 1;
      if i == 8 {
        return;
      }
      KeyTail(rk, p + 10, 6, key, e);
      KeyTail(rk, p + 11, 6, key, e);
      p := p + 6;
    }
  }

  method Expand256(rk: array<bv32>, ghost key: seq<bv32>, ghost e: nat -> bv32)
    requires IsSchedule(e, key) && |key| == 8 && rk.Length >= 60 && Holds(rk, e, 8)
    modifies rk
    ensures Holds(rk, e, 60)
  {
    var i, p := 0, 0;
    while true
      invariant 0 <= i < 7 && p == 8 * i
      invariant Holds(rk, e, p + 8)
      decreases 7 - i
    {
      KeyHead(rk, p + 8, 8, i, key, e);
      KeyTail(rk, p + 9, 8, key, e);
      KeyTail(rk, p + 10, 8, key, e);
      KeyTail(rk, p + 11, 8, key, e);
      i := i + 1;
      if i == 7 {
        return;
      }
      KeyMiddle(rk, p + 12, 8, key, e);
      KeyTail(rk, p + 13, 8, key, e);
      KeyTail(rk, p + 14, 8, key, e);
      KeyTail(rk, p + 15, 8, key, e);
      p := p + 8;
    }
  }

  // ----- the decryption schedule -----

  // Word k of a schedule of r rounds, with the round keys in reverse order.
  function Mirror(r: nat, k: nat): nat
    requires k < 4 * r + 4
  {
    4 * r - k + 2 * (k % 4)
  }

  // The inverse MixColumn transform as a function value, looked into only where InvMixWord is named.
  ghost predicate IsInvMix(m: bv32 -> bv32) {
    forall w {:trigger InvMixWord(w)} :: m(w) == InvMixWord(w)
  }

  ghost predicate Mirrored<T>(rk: array<T>, e: nat -> T, r: nat)
    reads rk
  {
    4 * r + 4 <= rk.Length && forall k: nat | k < 4 * r + 4 :: rk[k] == e(Mirror(r, k))
  }

  // All round keys in reverse order, those from 1 to i - 1 also transformed.
  ghost predicate Transformed(rk: array<bv32>, e: nat -> bv32, m: bv32 -> bv32, r: nat, n: nat)
    reads rk
  {
    && 4 * r + 4 <= rk.Length
    && forall k: nat | k < 4 * r + 4 :: rk[k] == if 4 <= k < n then m(e(Mirror(r, k))) else e(Mirror(r, k))
  }

  ghost predicate PartMirrored<T>(s: seq<T>, e: nat -> T, r: nat, i: int, j: int) {
    4 * r + 4 <= |s| && forall k: nat | k < 4 * r + 4 :: s[k] == e(if i <= k < j + 4 then k else Mirror(r, k))
  }

  ghost predicate Swapped<T>(s: seq<T>, t: seq<T>, i: nat, j: nat) {
    && i + 4 <= j && j + 4 <= |s| && |t| == |s|
    && forall k: nat | k < |s| :: t[k] == s[if i <= k < i + 4 then k - i + j else if j <= k < j + 4 then k - j + i else k]
  }

  lemma MirrorQuad(r: nat, a: nat, k: nat)
    requires 4 * a <= k < 4 * a + 4 && a <= r
    ensures Mirror(r, k) == 4 * (r - a) + (k - 4 * a)
  {
    assert k % 4 == k - 4 * a;
  }

  lemma SwapAdvances<T>(s: seq<T>, t: seq<T>, e: nat -> T, r: nat, i: nat, j: nat)
    requires i % 4 == 0 && i + j == 4 * r && Swapped(s, t, i, j) && PartMirrored(s, e, r, i, j)
    ensures PartMirrored(t, e, r, i + 4, j - 4)
  {
    forall k: nat | k < 4 * r + 4
      ensures t[k] == e(if i + 4 <= k < j then k else Mirror(r, k))
    {
      if i <= k < i + 4 {
        MirrorQuad(r, i / 4, k);
      } else if j <= k < j + 4 {
        MirrorQuad(r, r - i / 4, k);
      }
    }
  }

  lemma SwapsDone<T>(s: seq<T>, e: nat -> T, r: nat, i: nat, j: int)
    requires i % 4 == 0 && j <= i <= j + 4 && i + j == 4 * r && PartMirrored(s, e, r, i, j)
    ensures forall k: nat | k < 4 * r + 4 :: s[k] == e(Mirror(r, k))
  {
    forall k: nat | k < 4 * r + 4 && i <= k < j + 4 ensures k == Mirror(r, k) {
      MirrorQuad(r, i / 4, k);
    }
  }

  method SwapQuads<T>(rk: array<T>, i: nat, j: nat)
    requires i + 4 <= j && j + 4 <= rk.Length
    modifies rk
    ensures Swapped(old(rk[..]), rk[..], i, j)
  {
    rk[i], rk[j] := rk[j], rk[i];
    rk[i + 1], rk[j + 1] := rk[j + 1], rk[i + 1];
    rk[i + 2], rk[j + 2] := rk[j + 2], rk[i + 2];
    rk[i + 3], rk[j + 3] := rk[j + 3], rk[i + 3];
  }

  method ReverseKeys<T>(rk: array<T>, r: nat, ghost e: nat -> T)
    requires Holds(rk, e, 4 * r + 4)
    modifies rk
    ensures Mirrored(rk, e, r)
  {
    var i, j := 0, 4 * r;
    while i < j
      invariant i % 4 == 0 && 0 <= i <= j + 4 && i + j == 4 * r
      invariant PartMirrored(rk[..], e, r, i, j)
    {
      ghost var s := rk[..];
      SwapQuads(rk, i, j);
      SwapAdvances(s, rk[..], e, r, i, j);
      i, j := i + 4, j - 4;
    }
    SwapsDone(rk[..], e, r, i, j);
    assert forall k: nat | k < 4 * r + 4 :: rk[k] == rk[..][k];
  }

  method TransformWord(rk: array<bv32>, k: nat, r: nat, ghost e: nat -> bv32, ghost m: bv32 -> bv32)
    requires IsInvMix(m) && 4 <= k < 4 * r && Transformed(rk, e, m, r, k)
    modifies rk
    ensures Transformed(rk, e, m, r, k + 1)
  {
    rk[k] := InvMixWord(rk[k]);
  }

  method TransformKeys(rk: array<bv32>, r: nat, ghost e: nat -> bv32, ghost m: bv32 -> bv32)
    requires IsInvMix(m) && r >= 1 && Mirrored(rk, e, r)
    modifies rk
    ensures Transformed(rk, e, m, r, 4 * r)
  {
    for i := 1 to r
      invariant Transformed(rk, e, m, r, 4 * i)
    {
      TransformWord(rk, 4 * i, r, e, m);
      TransformWord(rk, 4 * i + 1, r, e, m);
      TransformWord(rk, 4 * i + 2, r, e, m);
      TransformWord(rk, 4 * i + 3, r, e, m);
    }
  }
}
