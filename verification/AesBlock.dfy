// The block cipher as the code runs it: set a key, encrypt a block, decrypt a block. Each method
// is proved against FIPS 197 (AesSpec), and the end-to-end theorem is stated on what the
// methods compute.
module AesBlock {
  import opened AesField
  import opened AesSpec
  import opened AesWords
  import opened AesKeys

  const MAXNR := 14

  class AesKey {
    const rdKey: array<bv32>
    var rounds: nat

    constructor ()
      ensures Valid() && fresh(rdKey)
    {
      rdKey := new bv32[4 * (MAXNR + 1)];
      rounds := 0;
    }

    predicate Valid() { rdKey.Length == 4 * (MAXNR + 1) }

    // The key holds a schedule that AesEncrypt and AesDecrypt can run.
    predicate Ready()
      reads this
    {
      Valid() && (rounds == 10 || rounds == 12 || rounds == 14)
    }

    ghost function Keys(): (ks: seq<State>)
      requires Ready()
      reads this, rdKey
      ensures |ks| == rounds + 1 >= 11
    {
      KeysOf(rdKey[..], rounds)
    }
  }

  // ----- words, blocks and states -----

  function StateOf(w0: bv32, w1: bv32, w2: bv32, w3: bv32): State {
    State(Bytes(w0), Bytes(w1), Bytes(w2), Bytes(w3))
  }

  function KeysOf(w: seq<bv32>, r: nat): (ks: seq<State>)
    requires |w| >= 4 * r + 4
    ensures |ks| == r + 1
  {
    seq(r + 1, q requires 0 <= q < r + 1 => StateOf(w[4 * q], w[4 * q + 1], w[4 * q + 2], w[4 * q + 3]))
  }

  function ToState(b: seq<bv8>): State
    requires |b| == 16
  {
    State(Column(b[0], b[1], b[2], b[3]), Column(b[4], b[5], b[6], b[7]),
          Column(b[8], b[9], b[10], b[11]), Column(b[12], b[13], b[14], b[15]))
  }

  function FromState(s: State): (b: seq<bv8>)
    ensures |b| == 16 && ToState(b) == s
  {
    [s.c0.b0, s.c0.b1, s.c0.b2, s.c0.b3, s.c1.b0, s.c1.b1, s.c1.b2, s.c1.b3,
     s.c2.b0, s.c2.b1, s.c2.b2, s.c2.b3, s.c3.b0, s.c3.b1, s.c3.b2, s.c3.b3]
  }

  // ----- setting a key -----

  predicate ValidBits(bits: int) { bits == 128 || bits == 192 || bits == 256 }

  function RoundsFor(bits: int): nat
    requires ValidBits(bits)
  {
    if bits == 128 then 10 else if bits == 192 then 12 else 14
  }

  function WordsOf(u: seq<bv8>): (w: seq<bv32>)
    ensures |w| == |u| / 4
  {
    seq(|u| / 4, k requires 0 <= k < |u| / 4 => Pack(u[4 * k], u[4 * k + 1], u[4 * k + 2], u[4 * k + 3]))
  }

  ghost function ScheduleOf(u: seq<bv8>): nat -> bv32
    requires |u| >= 16
  {
    (i: nat) => Expand(WordsOf(u), i)
  }

  method LoadKey(rk: array<bv32>, userKey: array<bv8>, nk: nat)
    requires nk <= rk.Length && 4 * nk <= userKey.Length
    modifies rk
    ensures rk[..nk] == WordsOf(userKey[..4 * nk])
  {
    for k := 0 to nk
      invariant forall j | 0 <= j < k :: rk[j] == WordsOf(userKey[..4 * nk])[j]
    {
      rk[k] := Pack(userKey[4 * k], userKey[4 * k + 1], userKey[4 * k + 2], userKey[4 * k + 3]);
    }
  }

  method AesSetEncryptKey(userKey: array?<bv8>, bits: int, key: AesKey?) returns (status: int)
    requires key != null ==> key.Valid()
    requires userKey != null && ValidBits(bits) ==> userKey.Length >= bits / 8
    modifies if key == null then {} else {key, key.rdKey}
    ensures status == if userKey == null || key == null then -1 else if !ValidBits(bits) then -2 else 0
    ensures status == 0 ==> key.rounds == RoundsFor(bits)
    ensures status == 0 ==> Holds(key.rdKey, ScheduleOf(userKey[..bits / 8]), 4 * key.rounds + 4)
    ensures status != 0 && key != null ==> key.rounds == old(key.rounds) && key.rdKey[..] == old(key.rdKey[..])
  {
    if userKey == null || key == null {
      return -1;
    }
    if bits != 128 && bits != 192 && bits != 256 {
      return -2;
    }
    var rk := key.rdKey;
    ghost var u := userKey[..bits / 8];
    ghost var e := ScheduleOf(u);
    ghost var words := WordsOf(u);
    LoadKey(rk, userKey, bits / 32);
    assert Holds(rk, e, bits / 32) by {
      assert forall j: nat | j < bits / 32 :: rk[j] == rk[..bits / 32][j];
    }
    if bits == 128 {
      key.rounds := 10;
      Expand128(rk, words, e);
    } else if bits == 192 {
      key.rounds := 12;
      Expand192(rk, words, e);
    } else {
      key.rounds := 14;
      Expand256(rk, words, e);
    }
    return 0;
  }

  method AesSetDecryptKey(userKey: array?<bv8>, bits: int, key: AesKey?) returns (status: int)
    requires key != null ==> key.Valid()
    requires userKey != null && ValidBits(bits) ==> userKey.Length >= bits / 8
    modifies if key == null then {} else {key, key.rdKey}
    ensures status == if userKey == null || key == null then -1 else if !ValidBits(bits) then -2 else 0
    ensures status == 0 ==> key.rounds == RoundsFor(bits)
    ensures status == 0 ==>
      Transformed(key.rdKey, ScheduleOf(userKey[..bits / 8]), InvMixWord, key.rounds, 4 * key.rounds)
    ensures status != 0 && key != null ==> key.rounds == old(key.rounds) && key.rdKey[..] == old(key.rdKey[..])
  {
    status := AesSetEncryptKey(userKey, bits, key);
    if status < 0 {
      return;
    }
    ghost var e := ScheduleOf(userKey[..bits / 8]);
    ReverseKeys(key.rdKey, key.rounds, e);
    TransformKeys(key.rdKey, key.rounds, e, InvMixWord);
    return 0;
  }

  // Round key q of a decryption schedule, word by word, against the encryption schedule.
  ghost predicate KeyMatch(m: bv32 -> bv32, ew: seq<bv32>, dw: seq<bv32>, r: nat, q: nat)
    requires |ew| >= 4 * r + 4 && |dw| >= 4 * r + 4 && q <= r
  {
    var edge, p := q == 0 || q == r, 4 * (r - q);
    && dw[4 * q] == (if edge then ew[p] else m(ew[p]))
    && dw[4 * q + 1] == (if edge then ew[p + 1] else m(ew[p + 1]))
    && dw[4 * q + 2] == (if edge then ew[p + 2] else m(ew[p + 2]))
    && dw[4 * q + 3] == (if edge then ew[p + 3] else m(ew[p + 3]))
  }

  lemma KeyMatches(m: bv32 -> bv32, ew: seq<bv32>, dw: seq<bv32>, e: nat -> bv32, r: nat, q: nat)
    requires |ew| >= 4 * r + 4 && |dw| >= 4 * r + 4 && q <= r
    requires forall k: nat | k < 4 * r + 4 :: ew[k] == e(k)
    requires forall k: nat | k < 4 * r + 4 :: dw[k] == if 4 <= k < 4 * r then m(e(Mirror(r, k))) else e(Mirror(r, k))
    ensures KeyMatch(m, ew, dw, r, q)
  {
    MirrorQuad(r, q, 4 * q);
    MirrorQuad(r, q, 4 * q + 1);
    MirrorQuad(r, q, 4 * q + 2);
    MirrorQuad(r, q, 4 * q + 3);
  }

  lemma InvMixState(w0: bv32, w1: bv32, w2: bv32, w3: bv32)
    ensures StateOf(InvMixWord(w0), InvMixWord(w1), InvMixWord(w2), InvMixWord(w3)) == InvMixColumns(StateOf(w0, w1, w2, w3))
  {
    InvMixWordBytes(w0);
    InvMixWordBytes(w1);
    InvMixWordBytes(w2);
    InvMixWordBytes(w3);
  }

  lemma KeyMatchMeans(m: bv32 -> bv32, mix: State -> State, ew: seq<bv32>, dw: seq<bv32>, r: nat, q: nat)
    requires |ew| >= 4 * r + 4 && |dw| >= 4 * r + 4 && q <= r
    requires KeyMatch(m, ew, dw, r, q)
    requires forall w0, w1, w2, w3 :: StateOf(m(w0), m(w1), m(w2), m(w3)) == mix(StateOf(w0, w1, w2, w3))
    ensures KeysOf(dw, r)[q] == if q == 0 || q == r then KeysOf(ew, r)[r - q] else mix(KeysOf(ew, r)[r - q])
  {
  }

  // The schedule that AesSetDecryptKey leaves is the one the equivalent inverse cipher needs.
  lemma SchedulesMatch(ew: seq<bv32>, dw: seq<bv32>, e: nat -> bv32, r: nat)
    requires |ew| >= 4 * r + 4 && |dw| >= 4 * r + 4
    requires forall k: nat | k < 4 * r + 4 :: ew[k] == e(k)
    requires forall k: nat | k < 4 * r + 4 ::
      dw[k] == if 4 <= k < 4 * r then InvMixWord(e(Mirror(r, k))) else e(Mirror(r, k))
    ensures KeysOf(dw, r) == DecryptionKeys(KeysOf(ew, r))
  {
    var ek := KeysOf(ew, r);
    forall w0, w1, w2, w3
      ensures StateOf(InvMixWord(w0), InvMixWord(w1), InvMixWord(w2), InvMixWord(w3)) == InvMixColumns(StateOf(w0, w1, w2, w3))
    {
      InvMixState(w0, w1, w2, w3);
    }
    forall q | 0 <= q <= r
      ensures KeysOf(dw, r)[q] == if q == 0 || q == r then ek[r - q] else InvMixColumns(ek[r - q])
    {
      KeyMatches(InvMixWord, ew, dw, e, r, q);
      KeyMatchMeans(InvMixWord, InvMixColumns, ew, dw, r, q);
    }
  }

  // The two key objects that one user key sets.
  ghost predicate KeyPair(u: seq<bv8>, ek: AesKey, dk: AesKey)
    requires |u| >= 16
    reads ek, ek.rdKey, dk, dk.rdKey
  {
    && ek.Ready() && dk.Ready() && ek.rounds == dk.rounds
    && Holds(ek.rdKey, ScheduleOf(u), 4 * ek.rounds + 4)
    && Transformed(dk.rdKey, ScheduleOf(u), InvMixWord, dk.rounds, 4 * dk.rounds)
  }

  lemma KeyPairKeys(u: seq<bv8>, ek: AesKey, dk: AesKey)
    requires |u| >= 16 && KeyPair(u, ek, dk)
    ensures dk.Keys() == DecryptionKeys(ek.Keys())
  {
    var ew, dw := ek.rdKey[..], dk.rdKey[..];
    assert forall k: nat | k < 4 * ek.rounds + 4 :: ew[k] == ek.rdKey[k] && dw[k] == dk.rdKey[k];
    SchedulesMatch(ew, dw, ScheduleOf(u), ek.rounds);
  }

  // A block encrypted under a key comes back when it is decrypted under the decryption key set
  // from the same user key.
  lemma RoundTrip(u: seq<bv8>, ek: AesKey, dk: AesKey, block: seq<bv8>)
    requires |u| >= 16 && |block| == 16 && KeyPair(u, ek, dk)
    ensures DecryptBlock(dk.Keys(), EncryptBlock(ek.Keys(), block)) == block
  {
    KeyPairKeys(u, ek, dk);
    BlockRoundTrip(ek.Keys(), block);
  }

  type Block = b: seq<bv8> | |b| == 16 witness [0, 0, 0, 0, 0, 0, 0, 0, 0, 0, 0, 0, 0, 0, 0, 0]

  function EncryptBlock(keys: seq<State>, block: Block): Block
    requires |keys| >= 2
  {
    FromState(Cipher(keys, ToState(block)))
  }

  function DecryptBlock(keys: seq<State>, block: Block): Block
    requires |keys| >= 2
  {
    FromState(EqInvCipher(keys, ToState(block)))
  }

  lemma BlockRoundTrip(keys: seq<State>, block: seq<bv8>)
    requires |keys| >= 2 && |block| == 16
    ensures DecryptBlock(DecryptionKeys(keys), EncryptBlock(keys, block)) == block
  {
    DecryptUndoesEncrypt(keys, ToState(block));
    FromToState(block);
  }

  lemma FromToState(b: seq<bv8>)
    requires |b| == 16
    ensures FromState(ToState(b)) == b
  {
  }

  // ----- one block -----

  // The four words the code keeps in s0 .. s3, and the round keys as it reads them.
  datatype Quad<W> = Quad(w0: W, w1: W, w2: W, w3: W)

  function QuadState(q: Quad<bv32>): State { StateOf(q.w0, q.w1, q.w2, q.w3) }

  function QuadsOf<W>(w: seq<W>, r: nat): (ks: seq<Quad<W>>)
    requires |w| >= 4 * r + 4
    ensures |ks| == r + 1
  {
    seq(r + 1, q requires 0 <= q < r + 1 => Quad(w[4 * q], w[4 * q + 1], w[4 * q + 2], w[4 * q + 3]))
  }

  function XorQuad(s: Quad<bv32>, k: Quad<bv32>): Quad<bv32> {
    Quad(Xor(s.w0, k.w0), Xor(s.w1, k.w1), Xor(s.w2, k.w2), Xor(s.w3, k.w3))
  }

  // The assignments of one half of a loop iteration, and those after the loop.
  function EncryptQuad(s: Quad<bv32>, k: Quad<bv32>): Quad<bv32> {
    Quad(EncryptWord(s.w0, s.w1, s.w2, s.w3, k.w0), EncryptWord(s.w1, s.w2, s.w3, s.w0, k.w1),
         EncryptWord(s.w2, s.w3, s.w0, s.w1, k.w2), EncryptWord(s.w3, s.w0, s.w1, s.w2, k.w3))
  }
  function LastEncryptQuad(s: Quad<bv32>, k: Quad<bv32>): Quad<bv32> {
    Quad(LastEncryptWord(s.w0, s.w1, s.w2, s.w3, k.w0), LastEncryptWord(s.w1, s.w2, s.w3, s.w0, k.w1),
         LastEncryptWord(s.w2, s.w3, s.w0, s.w1, k.w2), LastEncryptWord(s.w3, s.w0, s.w1, s.w2, k.w3))
  }
  function DecryptQuad(s: Quad<bv32>, k: Quad<bv32>): Quad<bv32> {
    Quad(DecryptWord(s.w0, s.w3, s.w2, s.w1, k.w0), DecryptWord(s.w1, s.w0, s.w3, s.w2, k.w1),
         DecryptWord(s.w2, s.w1, s.w0, s.w3, k.w2), DecryptWord(s.w3, s.w2, s.w1, s.w0, k.w3))
  }
  function LastDecryptQuad(s: Quad<bv32>, k: Quad<bv32>): Quad<bv32> {
    Quad(LastDecryptWord(s.w0, s.w3, s.w2, s.w1, k.w0), LastDecryptWord(s.w1, s.w0, s.w3, s.w2, k.w1),
         LastDecryptWord(s.w2, s.w1, s.w0, s.w3, k.w2), LastDecryptWord(s.w3, s.w2, s.w1, s.w0, k.w3))
  }

  // ----- what the word functions mean -----

  lemma XorQuadMeans(s: Quad<bv32>, k: Quad<bv32>)
    ensures QuadState(XorQuad(s, k)) == AddRoundKey(QuadState(s), QuadState(k))
  {
    BytesXor(s.w0, k.w0);
    BytesXor(s.w1, k.w1);
    BytesXor(s.w2, k.w2);
    BytesXor(s.w3, k.w3);
  }

  lemma EncryptQuadMeans(s: Quad<bv32>, k: Quad<bv32>)
    ensures QuadState(EncryptQuad(s, k)) == EncryptStep(QuadState(s), QuadState(k))
  {
    EncryptWordBytes(s.w0, s.w1, s.w2, s.w3, k.w0);
    EncryptWordBytes(s.w1, s.w2, s.w3, s.w0, k.w1);
    EncryptWordBytes(s.w2, s.w3, s.w0, s.w1, k.w2);
    EncryptWordBytes(s.w3, s.w0, s.w1, s.w2, k.w3);
  }

  lemma LastEncryptQuadMeans(s: Quad<bv32>, k: Quad<bv32>)
    ensures QuadState(LastEncryptQuad(s, k)) == LastEncryptStep(QuadState(s), QuadState(k))
  {
    LastEncryptWordBytes(s.w0, s.w1, s.w2, s.w3, k.w0);
    LastEncryptWordBytes(s.w1, s.w2, s.w3, s.w0, k.w1);
    LastEncryptWordBytes(s.w2, s.w3, s.w0, s.w1, k.w2);
    LastEncryptWordBytes(s.w3, s.w0, s.w1, s.w2, k.w3);
  }

  lemma DecryptQuadMeans(s: Quad<bv32>, k: Quad<bv32>)
    ensures QuadState(DecryptQuad(s, k)) == DecryptStep(QuadState(s), QuadState(k))
  {
    DecryptWordBytes(s.w0, s.w3, s.w2, s.w1, k.w0);
    DecryptWordBytes(s.w1, s.w0, s.w3, s.w2, k.w1);
    DecryptWordBytes(s.w2, s.w1, s.w0, s.w3, k.w2);
    DecryptWordBytes(s.w3, s.w2, s.w1, s.w0, k.w3);
  }

  lemma LastDecryptQuadMeans(s: Quad<bv32>, k: Quad<bv32>)
    ensures QuadState(LastDecryptQuad(s, k)) == LastDecryptStep(QuadState(s), QuadState(k))
  {
    LastDecryptWordBytes(s.w0, s.w3, s.w2, s.w1, k.w0);
    LastDecryptWordBytes(s.w1, s.w0, s.w3, s.w2, k.w1);
    LastDecryptWordBytes(s.w2, s.w1, s.w0, s.w3, k.w2);
    LastDecryptWordBytes(s.w3, s.w2, s.w1, s.w0, k.w3);
  }

  // The table-driven run is the cipher of FIPS 197, and its inverse is the equivalent inverse cipher.
  lemma EncryptRunMeans(w: seq<bv32>, r: nat, s: Quad<bv32>)
    requires r >= 1 && |w| >= 4 * r + 4
    ensures QuadState(Run(XorQuad, EncryptQuad, LastEncryptQuad, QuadsOf(w, r), s)) == Cipher(KeysOf(w, r), QuadState(s))
  {
    forall x, k
      ensures QuadState(XorQuad(x, k)) == AddRoundKey(QuadState(x), QuadState(k))
      ensures QuadState(EncryptQuad(x, k)) == EncryptStep(QuadState(x), QuadState(k))
      ensures QuadState(LastEncryptQuad(x, k)) == LastEncryptStep(QuadState(x), QuadState(k))
    {
      XorQuadMeans(x, k);
      EncryptQuadMeans(x, k);
      LastEncryptQuadMeans(x, k);
    }
    RunViewed(QuadState, XorQuad, EncryptQuad, LastEncryptQuad, AddRoundKey, EncryptStep, LastEncryptStep,
              QuadsOf(w, r), KeysOf(w, r), s);
  }

  lemma DecryptRunMeans(w: seq<bv32>, r: nat, s: Quad<bv32>)
    requires r >= 1 && |w| >= 4 * r + 4
    ensures QuadState(Run(XorQuad, DecryptQuad, LastDecryptQuad, QuadsOf(w, r), s)) == EqInvCipher(KeysOf(w, r), QuadState(s))
  {
    forall x, k
      ensures QuadState(XorQuad(x, k)) == AddRoundKey(QuadState(x), QuadState(k))
      ensures QuadState(DecryptQuad(x, k)) == DecryptStep(QuadState(x), QuadState(k))
      ensures QuadState(LastDecryptQuad(x, k)) == LastDecryptStep(QuadState(x), QuadState(k))
    {
      XorQuadMeans(x, k);
      DecryptQuadMeans(x, k);
      LastDecryptQuadMeans(x, k);
    }
    RunViewed(QuadState, XorQuad, DecryptQuad, LastDecryptQuad, AddRoundKey, DecryptStep, LastDecryptStep,
              QuadsOf(w, r), KeysOf(w, r), s);
  }

  // ----- the loops -----

  // The loop both directions share, two rounds to an iteration; p ends at the last round key.
  method RunRounds<W>(round: Step<Quad<W>>, s: Quad<W>, rk: array<W>, rounds: nat) returns (t: Quad<W>, p: nat)
    requires rounds >= 2 && rounds % 2 == 0 && 4 * rounds + 4 <= rk.Length
    ensures p == 4 * rounds
    ensures t == Rounds(round, QuadsOf(rk[..], rounds), s, rounds - 1)
  {
    ghost var keys := QuadsOf(rk[..], rounds);
    var x, r := s, rounds / 2;
    p := 0;
    ghost var n := 0;
    while true
      invariant 1 <= r && n == rounds - 2 * r && p == 4 * n
      invariant x == Rounds(round, keys, s, n)
      decreases r
    {
      t := round(x, Quad(rk[p + 4], rk[p + 5], rk[p + 6], rk[p + 7]));
      assert keys[n + 1] == Quad(rk[p + 4], rk[p + 5], rk[p + 6], rk[p + 7]);
      p, r := p + 8, r - 1;
      if r == 0 {
        return;
      }
      x := round(t, Quad(rk[p], rk[p + 1], rk[p + 2], rk[p + 3]));
      assert keys[n + 2] == Quad(rk[p], rk[p + 1], rk[p + 2], rk[p + 3]);
      n := n + 2;
    }
  }

  method RunAll<W>(first: Step<Quad<W>>, round: Step<Quad<W>>, last: Step<Quad<W>>, s: Quad<W>, rk: array<W>, rounds: nat)
    returns (t: Quad<W>)
    requires rounds >= 2 && rounds % 2 == 0 && 4 * rounds + 4 <= rk.Length
    ensures t == Run(first, round, last, QuadsOf(rk[..], rounds), s)
  {
    var x, p := RunRounds(round, first(s, Quad(rk[0], rk[1], rk[2], rk[3])), rk, rounds);
    t := last(x, Quad(rk[p], rk[p + 1], rk[p + 2], rk[p + 3]));
  }

  // ----- bytes in, bytes out -----

  ghost predicate Written<T>(before: seq<T>, after: seq<T>, o: nat, v: seq<T>) {
    && o + |v| <= |before| == |after|
    && forall k | 0 <= k < |before| :: after[k] == if o <= k < o + |v| then v[k - o] else before[k]
  }

  lemma WrittenTwice<T>(s: seq<T>, t: seq<T>, u: seq<T>, o: nat, v: seq<T>, w: seq<T>)
    requires Written(s, t, o, v) && Written(t, u, o + |v|, w)
    ensures Written(s, u, o, v + w)
  {
  }

  method Put4<T>(out: array<T>, o: nat, a: T, b: T, c: T, d: T)
    requires o + 4 <= out.Length
    modifies out
    ensures Written(old(out[..]), out[..], o, [a, b, c, d])
  {
    out[o], out[o + 1], out[o + 2], out[o + 3] := a, b, c, d;
  }

  function WordBytes(w: bv32): (b: seq<bv8>)
    ensures |b| == 4
  {
    [B0(w), B1(w), B2(w), B3(w)]
  }

  lemma StateBytes(s: Quad<bv32>)
    ensures WordBytes(s.w0) + WordBytes(s.w1) + WordBytes(s.w2) + WordBytes(s.w3) == FromState(QuadState(s))
  {
  }

  method LoadQuad(inp: array<bv8>, i: nat) returns (q: Quad<bv32>)
    requires i + 16 <= inp.Length
    ensures QuadState(q) == ToState(inp[i..i + 16])
  {
    q := Quad(Pack(inp[i], inp[i + 1], inp[i + 2], inp[i + 3]), Pack(inp[i + 4], inp[i + 5], inp[i + 6], inp[i + 7]),
              Pack(inp[i + 8], inp[i + 9], inp[i + 10], inp[i + 11]), Pack(inp[i + 12], inp[i + 13], inp[i + 14], inp[i + 15]));
    BytesPack(inp[i], inp[i + 1], inp[i + 2], inp[i + 3]);
    BytesPack(inp[i + 4], inp[i + 5], inp[i + 6], inp[i + 7]);
    BytesPack(inp[i + 8], inp[i + 9], inp[i + 10], inp[i + 11]);
    BytesPack(inp[i + 12], inp[i + 13], inp[i + 14], inp[i + 15]);
  }

  method StoreQuad(out: array<bv8>, o: nat, s: Quad<bv32>)
    requires o + 16 <= out.Length
    modifies out
    ensures Written(old(out[..]), out[..], o, FromState(QuadState(s)))
  {
    ghost var a := out[..];
    Put4(out, o, B0(s.w0), B1(s.w0), B2(s.w0), B3(s.w0));
    ghost var b := out[..];
    Put4(out, o + 4, B0(s.w1), B1(s.w1), B2(s.w1), B3(s.w1));
    ghost var c := out[..];
    Put4(out, o + 8, B0(s.w2), B1(s.w2), B2(s.w2), B3(s.w2));
    ghost var d := out[..];
    Put4(out, o + 12, B0(s.w3), B1(s.w3), B2(s.w3), B3(s.w3));
    WrittenTwice(a, b, c, o, WordBytes(s.w0), WordBytes(s.w1));
    WrittenTwice(a, c, d, o, WordBytes(s.w0) + WordBytes(s.w1), WordBytes(s.w2));
    WrittenTwice(a, d, out[..], o, WordBytes(s.w0) + WordBytes(s.w1) + WordBytes(s.w2), WordBytes(s.w3));
    StateBytes(s);
  }

  // ----- the two entry points; in and out may be the same block -----

  // A block function as a value, looked into only where the block function is named.
  ghost predicate IsEncryptor(e: Block -> Block, keys: seq<State>) {
    |keys| >= 2 && forall b: Block {:trigger EncryptBlock(keys, b)} :: e(b) == EncryptBlock(keys, b)
  }
  ghost predicate IsDecryptor(d: Block -> Block, keys: seq<State>) {
    |keys| >= 2 && forall b: Block {:trigger DecryptBlock(keys, b)} :: d(b) == DecryptBlock(keys, b)
  }

  // On the quads of any block, a run of the code computes the block function f.
  ghost predicate Computes(first: Step<Quad<bv32>>, round: Step<Quad<bv32>>, last: Step<Quad<bv32>>,
                           ks: seq<Quad<bv32>>, f: Block -> Block) {
    |ks| >= 2 && forall q {:trigger Run(first, round, last, ks, q)} ::
      FromState(QuadState(Run(first, round, last, ks, q))) == f(FromState(QuadState(q)))
  }

  method CryptBlock(first: Step<Quad<bv32>>, round: Step<Quad<bv32>>, last: Step<Quad<bv32>>,
                    inp: array<bv8>, i: nat, out: array<bv8>, o: nat, key: AesKey, ghost f: Block -> Block)
    requires key.Ready() && i + 16 <= inp.Length && o + 16 <= out.Length
    requires Computes(first, round, last, QuadsOf(key.rdKey[..], key.rounds), f)
    modifies out
    ensures Written(old(out[..]), out[..], o, f(old(inp[i..i + 16])))
  {
    var q := LoadQuad(inp, i);
    FromToState(inp[i..i + 16]);
    var t := RunAll(first, round, last, q, key.rdKey, key.rounds);
    StoreQuad(out, o, t);
  }

  lemma EncryptComputes(w: seq<bv32>, r: nat, e: Block -> Block)
    requires r >= 1 && |w| >= 4 * r + 4 && IsEncryptor(e, KeysOf(w, r))
    ensures Computes(XorQuad, EncryptQuad, LastEncryptQuad, QuadsOf(w, r), e)
  {
    forall q ensures FromState(QuadState(Run(XorQuad, EncryptQuad, LastEncryptQuad, QuadsOf(w, r), q))) == e(FromState(QuadState(q))) {
      EncryptRunMeans(w, r, q);
      assert e(FromState(QuadState(q))) == EncryptBlock(KeysOf(w, r), FromState(QuadState(q)));
    }
  }

  lemma DecryptComputes(w: seq<bv32>, r: nat, d: Block -> Block)
    requires r >= 1 && |w| >= 4 * r + 4 && IsDecryptor(d, KeysOf(w, r))
    ensures Computes(XorQuad, DecryptQuad, LastDecryptQuad, QuadsOf(w, r), d)
  {
    forall q ensures FromState(QuadState(Run(XorQuad, DecryptQuad, LastDecryptQuad, QuadsOf(w, r), q))) == d(FromState(QuadState(q))) {
      DecryptRunMeans(w, r, q);
      assert d(FromState(QuadState(q))) == DecryptBlock(KeysOf(w, r), FromState(QuadState(q)));
    }
  }

  method AesEncrypt(inp: array<bv8>, i: nat, out: array<bv8>, o: nat, key: AesKey, ghost e: Block -> Block)
    requires key.Ready() && i + 16 <= inp.Length && o + 16 <= out.Length
    requires IsEncryptor(e, key.Keys())
    modifies out
    ensures Written(old(out[..]), out[..], o, e(old(inp[i..i + 16])))
  {
    EncryptComputes(key.rdKey[..], key.rounds, e);
    CryptBlock(XorQuad, EncryptQuad, LastEncryptQuad, inp, i, out, o, key, e);
  }

  method AesDecrypt(inp: array<bv8>, i: nat, out: array<bv8>, o: nat, key: AesKey, ghost d: Block -> Block)
    requires key.Ready() && i + 16 <= inp.Length && o + 16 <= out.Length
    requires IsDecryptor(d, key.Keys())
    modifies out
    ensures Written(old(out[..]), out[..], o, d(old(inp[i..i + 16])))
  {
    DecryptComputes(key.rdKey[..], key.rounds, d);
    CryptBlock(XorQuad, DecryptQuad, LastDecryptQuad, inp, i, out, o, key, d);
  }
}
