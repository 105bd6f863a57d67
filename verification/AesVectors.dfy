// The vectors that cipher block chaining leaves behind under AES: when the encrypting and the decrypting
// side can go on from theirs.
module AesVectors {
  import opened AesField
  import opened AesSpec
  import opened AesKeys
  import opened AesBlock
  import opened AesCbc
  import opened AesKnown

  // A caller that passes whole blocks, except in the last call, can rely on the vectors.
  lemma InStepAfterBlocks(keys: seq<State>, p: seq<bv8>, iv: Block)
    requires |keys| >= 2 && |p| % 16 == 0
    ensures |Encrypted(Encryptor(keys), p, iv).0| == |p|
    ensures Decrypted(Decryptor(DecryptionKeys(keys)), Encrypted(Encryptor(keys), p, iv).0, |p|, iv).1
         == Encrypted(Encryptor(keys), p, iv).1
  {
    var e, d := Encryptor(keys), Decryptor(DecryptionKeys(keys));
    forall b: Block ensures d(e(b)) == b {
      BlockRoundTrip(keys, b);
    }
    VectorsInStep(e, d, p, iv);
  }

  // Whether the vectors are in step after an encryption and its decryption.
  predicate InStep(keys: seq<State>, p: seq<bv8>, iv: Block)
    requires |keys| >= 2
  {
    EncryptedLength(Encryptor(keys), p, iv);
    Decrypted(Decryptor(DecryptionKeys(keys)), Encrypted(Encryptor(keys), p, iv).0, |p|, iv).1 == Encrypted(Encryptor(keys), p, iv).1
  }

  lemma InStepExactly(keys: seq<State>, p: seq<bv8>, iv: Block)
    requires |keys| >= 2
    ensures InStep(keys, p, iv)
       <==> |p| % 16 == 0 || EncryptBlock(keys, LastInput(Encryptor(keys), p, iv)) == LastInput(Encryptor(keys), p, iv)
  {
    var e, d := Encryptor(keys), Decryptor(DecryptionKeys(keys));
    forall b: Block ensures d(e(b)) == b {
      BlockRoundTrip(keys, b);
    }
    VectorsInStep(e, d, p, iv);
  }

  // Whatever the vector, the byte and the schedule: of two schedules with different last round keys,
  // and no other difference, one at least is out of step after one byte.
  lemma OneOutOfStep(keys: seq<State>, last: State, byte: bv8, iv: Block)
    requires |keys| >= 2 && last != keys[|keys| - 1]
    ensures !InStep(keys, [byte], iv) || !InStep(keys[|keys| - 1 := last], [byte], iv)
  {
    var keys' := keys[|keys| - 1 := last];
    InStepExactly(keys, [byte], iv);
    InStepExactly(keys', [byte], iv);
    var x := XorBlock(Padded([byte]), iv);
    LastKeyMatters(keys, last, x);
  }

  lemma LastKeyMatters(keys: seq<State>, last: State, x: Block)
    requires |keys| >= 2 && last != keys[|keys| - 1]
    ensures EncryptBlock(keys, x) != EncryptBlock(keys[|keys| - 1 := last], x)
  {
    forall y: State, a: State, b: State | a != b ensures LastEncryptStep(y, a) != LastEncryptStep(y, b) {
      KeysDiffer(ShiftRows(SubBytes(y)), a, b);
    }
    LastMatters(AddRoundKey, EncryptStep, LastEncryptStep, keys, last, ToState(x));
    StatesDiffer(Cipher(keys, ToState(x)), Cipher(keys[|keys| - 1 := last], ToState(x)));
  }

  lemma StatesDiffer(s: State, t: State)
    requires s != t
    ensures FromState(s) != FromState(t)
  {
    assert ToState(FromState(s)) == s && ToState(FromState(t)) == t;
  }

  lemma KeysDiffer(s: State, a: State, b: State)
    requires a != b
    ensures AddRoundKey(s, a) != AddRoundKey(s, b)
  {
    AddRoundKeySwap(s, a);
    AddRoundKeySwap(s, b);
    AddRoundKeyCancels(a, s);
    AddRoundKeyCancels(b, s);
  }

  lemma AddRoundKeySwap(s: State, k: State)
    ensures AddRoundKey(s, k) == AddRoundKey(k, s)
  {
    XorColSwap(s.c0, k.c0);
    XorColSwap(s.c1, k.c1);
    XorColSwap(s.c2, k.c2);
    XorColSwap(s.c3, k.c3);
  }

  lemma XorColSwap(c: Column, k: Column)
    ensures XorCol(c, k) == XorCol(k, c)
  {
    AddSwap(c.b0, k.b0);
    AddSwap(c.b1, k.b1);
    AddSwap(c.b2, k.b2);
    AddSwap(c.b3, k.b3);
  }

  lemma AddSwap(a: bv8, b: bv8)
    ensures Add(a, b) == Add(b, a)
  {
    assert a ^ b == b ^ a;
  }

  // If the last step tells its keys apart, so does a whole run.
  lemma LastMatters<X(!new)>(first: Step<X>, step: Step<X>, last: Step<X>, keys: seq<X>, k: X, s: X)
    requires |keys| >= 2 && k != keys[|keys| - 1] && forall y, a, b :: a != b ==> last(y, a) != last(y, b)
    ensures Run(first, step, last, keys, s) != Run(first, step, last, keys[|keys| - 1 := k], s)
  {
    SameRounds(step, keys, keys[|keys| - 1 := k], first(s, keys[0]), |keys| - 2);
  }

  lemma {:induction false} SameRounds<X>(step: Step<X>, keys: seq<X>, keys': seq<X>, s: X, i: nat)
    requires i < |keys| == |keys'| && forall q | 0 <= q <= i :: keys[q] == keys'[q]
    ensures Rounds(step, keys, s, i) == Rounds(step, keys', s, i)
  {
    if i > 0 {
      SameRounds(step, keys, keys', s, i - 1);
    }
  }

  // One byte is enough: under the key and with the block of FIPS 197, appendix C.1, as the vector, the
  // two sides are out of step.
  lemma OutOfStep(ek: AesKey)
    requires ek.Ready() && ek.rounds == 10 && Holds(ek.rdKey, ScheduleOf(UserKey()), 44)
    ensures !InStep(ek.Keys(), [0], PlainBlock())
  {
    var keys, e := ek.Keys(), ScheduleOf(UserKey());
    KeyWords(ek, e);
    KnownAnswer(e, keys);
    InStepExactly(keys, [0], PlainBlock());
    FirstInput(Encryptor(keys));
    BlocksDiffer();
  }

  lemma KeyWords(ek: AesKey, e: nat -> bv32)
    requires ek.Ready() && ek.rounds == 10 && Holds(ek.rdKey, e, 44)
    ensures forall q | 0 <= q <= 10 :: ek.Keys()[q] == StateOf(e(4 * q), e(4 * q + 1), e(4 * q + 2), e(4 * q + 3))
  {
    var w := ek.rdKey[..];
    assert forall k: nat | k < 44 :: w[k] == ek.rdKey[k] == e(k);
  }

  lemma FirstInput(e: Block -> Block)
    ensures LastInput(e, [0], PlainBlock()) == PlainBlock()
  {
    ZeroPadded();
  }

  lemma BlocksDiffer()
    ensures CipherBlock() != PlainBlock()
  {
    assert CipherBlock()[0] == 0x69 && PlainBlock()[0] == 0x00;
  }

  lemma ZeroPadded()
    ensures XorBlock(Padded([0]), PlainBlock()) == PlainBlock()
  {
    forall i | 0 <= i < 16 ensures XorBlock(Padded([0]), PlainBlock())[i] == PlainBlock()[i] {
      AddZero(PlainBlock()[i]);
    }
  }

  lemma AddZero(a: bv8)
    ensures Add(0, a) == a
  {
    assert 0 as bv8 ^ a == a;
  }
}
