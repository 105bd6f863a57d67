// FIPS 197 on whole states: the transformations of a round, the cipher (section 5.1), the
// equivalent inverse cipher (section 5.3.5), and the proof that the second undoes the first
// for every sequence of at least two round keys.
module AesSpec {
  import opened AesField

  datatype State = State(c0: Column, c1: Column, c2: Column, c3: Column)

  function SubCol(c: Column): Column { Column(S(c.b0), S(c.b1), S(c.b2), S(c.b3)) }
  function InvSubCol(c: Column): Column { Column(Si(c.b0), Si(c.b1), Si(c.b2), Si(c.b3)) }

  function SubBytes(s: State): State { State(SubCol(s.c0), SubCol(s.c1), SubCol(s.c2), SubCol(s.c3)) }
  function InvSubBytes(s: State): State {
    State(InvSubCol(s.c0), InvSubCol(s.c1), InvSubCol(s.c2), InvSubCol(s.c3))
  }

  // Row r of the state moves r columns to the left, and back.
  function ShiftRows(s: State): State {
    State(Column(s.c0.b0, s.c1.b1, s.c2.b2, s.c3.b3),
          Column(s.c1.b0, s.c2.b1, s.c3.b2, s.c0.b3),
          Column(s.c2.b0, s.c3.b1, s.c0.b2, s.c1.b3),
          Column(s.c3.b0, s.c0.b1, s.c1.b2, s.c2.b3))
  }
  function InvShiftRows(s: State): State {
    State(Column(s.c0.b0, s.c3.b1, s.c2.b2, s.c1.b3),
          Column(s.c1.b0, s.c0.b1, s.c3.b2, s.c2.b3),
          Column(s.c2.b0, s.c1.b1, s.c0.b2, s.c3.b3),
          Column(s.c3.b0, s.c2.b1, s.c1.b2, s.c0.b3))
  }

  function MixColumns(s: State): State {
    State(MixColumn(s.c0), MixColumn(s.c1), MixColumn(s.c2), MixColumn(s.c3))
  }
  function InvMixColumns(s: State): State {
    State(InvMixColumn(s.c0), InvMixColumn(s.c1), InvMixColumn(s.c2), InvMixColumn(s.c3))
  }

  function AddRoundKey(s: State, k: State): State {
    State(XorCol(s.c0, k.c0), XorCol(s.c1, k.c1), XorCol(s.c2, k.c2), XorCol(s.c3, k.c3))
  }

  // ----- each step has an inverse -----

  lemma SubColInverse(c: Column)
    ensures InvSubCol(SubCol(c)) == c
  {
    SboxInverse(c.b0);
    SboxInverse(c.b1);
    SboxInverse(c.b2);
    SboxInverse(c.b3);
  }

  lemma SubShiftInverse(s: State)
    ensures InvShiftRows(InvSubBytes(ShiftRows(SubBytes(s)))) == s
  {
    SubColInverse(s.c0);
    SubColInverse(s.c1);
    SubColInverse(s.c2);
    SubColInverse(s.c3);
  }

  lemma MixColumnsInverse(s: State)
    ensures InvMixColumns(MixColumns(s)) == s
  {
    MixInverse(s.c0);
    MixInverse(s.c1);
    MixInverse(s.c2);
    MixInverse(s.c3);
  }

  lemma InvMixColumnsLinear(s: State, k: State)
    ensures InvMixColumns(AddRoundKey(s, k)) == AddRoundKey(InvMixColumns(s), InvMixColumns(k))
  {
    InvMixLinear(s.c0, k.c0);
    InvMixLinear(s.c1, k.c1);
    InvMixLinear(s.c2, k.c2);
    InvMixLinear(s.c3, k.c3);
  }

  lemma XorColCancels(c: Column, k: Column)
    ensures XorCol(XorCol(c, k), k) == c
  {
    AddCancels(c.b0, k.b0);
    AddCancels(c.b1, k.b1);
    AddCancels(c.b2, k.b2);
    AddCancels(c.b3, k.b3);
  }

  lemma AddRoundKeyCancels(s: State, k: State)
    ensures AddRoundKey(AddRoundKey(s, k), k) == s
  {
    XorColCancels(s.c0, k.c0);
    XorColCancels(s.c1, k.c1);
    XorColCancels(s.c2, k.c2);
    XorColCancels(s.c3, k.c3);
  }

  // ----- the cipher and the equivalent inverse cipher -----

  // The round without its key, in both directions.
  function Round(s: State): State { MixColumns(ShiftRows(SubBytes(s))) }
  function InvRound(s: State): State { InvMixColumns(InvShiftRows(InvSubBytes(s))) }

  function EncryptStep(s: State, k: State): State { AddRoundKey(Round(s), k) }
  function DecryptStep(s: State, k: State): State { AddRoundKey(InvRound(s), k) }
  function LastEncryptStep(s: State, k: State): State { AddRoundKey(ShiftRows(SubBytes(s)), k) }
  function LastDecryptStep(s: State, k: State): State { AddRoundKey(InvShiftRows(InvSubBytes(s)), k) }

  type Step<!X> = (X, X) -> X

  // The state after i full rounds, whatever a round is.
  function Rounds<X>(step: Step<X>, keys: seq<X>, s: X, i: nat): X
    requires i < |keys|
  {
    if i == 0 then s else step(Rounds(step, keys, s, i - 1), keys[i])
  }

  // A whole run: the first key, the full rounds, the last round.
  function Run<X>(first: Step<X>, step: Step<X>, last: Step<X>, keys: seq<X>, s: X): X
    requires |keys| >= 2
  {
    last(Rounds(step, keys, first(s, keys[0]), |keys| - 2), keys[|keys| - 1])
  }

  function Cipher(keys: seq<State>, s: State): State
    requires |keys| >= 2
  {
    Run(AddRoundKey, EncryptStep, LastEncryptStep, keys, s)
  }

  function EqInvCipher(keys: seq<State>, s: State): State
    requires |keys| >= 2
  {
    Run(AddRoundKey, DecryptStep, LastDecryptStep, keys, s)
  }

  // The schedule of the equivalent inverse cipher: reversed, and all keys but the first and the
  // last passed through InvMixColumns.
  function DecryptionKeys(keys: seq<State>): (dk: seq<State>)
    ensures |dk| == |keys|
  {
    seq(|keys|, i requires 0 <= i < |keys| =>
      var k := keys[|keys| - 1 - i]; if i == 0 || i == |keys| - 1 then k else InvMixColumns(k))
  }

  // ----- how one step answers another -----

  function View(x: State): State { ShiftRows(SubBytes(x)) }

  lemma FirstAnswersLast(x: State, k: State)
    ensures AddRoundKey(LastEncryptStep(x, k), k) == View(x)
  {
    AddRoundKeyCancels(View(x), k);
  }

  // One inverse round under the transformed key undoes one round under the key.
  lemma StepAnswersStep(x: State, k: State)
    ensures DecryptStep(View(EncryptStep(x, k)), InvMixColumns(k)) == View(x)
  {
    SubShiftInverse(EncryptStep(x, k));
    InvMixColumnsLinear(Round(x), k);
    MixColumnsInverse(View(x));
    AddRoundKeyCancels(View(x), InvMixColumns(k));
  }

  lemma LastAnswersFirst(s: State, k: State)
    ensures LastDecryptStep(View(AddRoundKey(s, k)), k) == s
  {
    SubShiftInverse(AddRoundKey(s, k));
    AddRoundKeyCancels(s, k);
  }

  // Steps that answer each other across a common view undo each other over whole runs. Here the
  // steps are parameters: the argument needs only how one step answers another.
  lemma {:induction false} RoundsUndone(enc: Step<State>, dec: Step<State>, view: State -> State, tr: State -> State,
                                        keys: seq<State>, dk: seq<State>, s: State, i: nat)
    requires |keys| == |dk| >= 2 && i <= |keys| - 2
    requires forall k | 0 < k < |keys| - 1 :: dk[k] == tr(keys[|keys| - 1 - k])
    requires forall x, k :: dec(view(enc(x, k)), tr(k)) == view(x)
    ensures Rounds(dec, dk, view(Rounds(enc, keys, s, |keys| - 2)), i) == view(Rounds(enc, keys, s, |keys| - 2 - i))
  {
    if i > 0 {
      RoundsUndone(enc, dec, view, tr, keys, dk, s, i - 1);
    }
  }

  lemma RunUndone(first: Step<State>, enc: Step<State>, lastEnc: Step<State>, dec: Step<State>, lastDec: Step<State>,
                  view: State -> State, tr: State -> State,
                  keys: seq<State>, dk: seq<State>, s: State)
    requires |keys| == |dk| >= 2
    requires dk[0] == keys[|keys| - 1] && dk[|keys| - 1] == keys[0]
    requires forall k | 0 < k < |keys| - 1 :: dk[k] == tr(keys[|keys| - 1 - k])
    requires forall x, k :: first(lastEnc(x, k), k) == view(x)
    requires forall x, k :: dec(view(enc(x, k)), tr(k)) == view(x)
    requires forall x, k :: lastDec(view(first(x, k)), k) == x
    ensures Run(first, dec, lastDec, dk, Run(first, enc, lastEnc, keys, s)) == s
  {
    RoundsUndone(enc, dec, view, tr, keys, dk, first(s, keys[0]), |keys| - 2);
  }

  lemma DecryptUndoesEncrypt(keys: seq<State>, s: State)
    requires |keys| >= 2
    ensures EqInvCipher(DecryptionKeys(keys), Cipher(keys, s)) == s
  {
    forall x, k
      ensures AddRoundKey(LastEncryptStep(x, k), k) == View(x)
      ensures DecryptStep(View(EncryptStep(x, k)), InvMixColumns(k)) == View(x)
      ensures LastDecryptStep(View(AddRoundKey(x, k)), k) == x
    {
      FirstAnswersLast(x, k);
      StepAnswersStep(x, k);
      LastAnswersFirst(x, k);
    }
    RunUndone(AddRoundKey, EncryptStep, LastEncryptStep, DecryptStep, LastDecryptStep, View, InvMixColumns,
              keys, DecryptionKeys(keys), s);
  }

  // ----- runs seen through a view -----

  // If each step commutes with a view, so does a whole run.
  lemma {:induction false} RoundsViewed<X, Y>(view: X -> Y, step: Step<X>, step': Step<Y>, keys: seq<X>, keys': seq<Y>, s: X, i: nat)
    requires i < |keys| == |keys'|
    requires forall k | 0 <= k < |keys| :: keys'[k] == view(keys[k])
    requires forall x, k :: view(step(x, k)) == step'(view(x), view(k))
    ensures view(Rounds(step, keys, s, i)) == Rounds(step', keys', view(s), i)
  {
    if i > 0 {
      RoundsViewed(view, step, step', keys, keys', s, i - 1);
    }
  }

  lemma RunViewed<X, Y>(view: X -> Y, first: Step<X>, step: Step<X>, last: Step<X>,
                        first': Step<Y>, step': Step<Y>, last': Step<Y>, keys: seq<X>, keys': seq<Y>, s: X)
    requires |keys| == |keys'| >= 2
    requires forall k | 0 <= k < |keys| :: keys'[k] == view(keys[k])
    requires forall x, k :: view(first(x, k)) == first'(view(x), view(k))
    requires forall x, k :: view(step(x, k)) == step'(view(x), view(k))
    requires forall x, k :: view(last(x, k)) == last'(view(x), view(k))
    ensures view(Run(first, step, last, keys, s)) == Run(first', step', last', keys', view(s))
  {
    var n := |keys| - 1;
    var x := first(s, keys[0]);
    RoundsViewed(view, step, step', keys, keys', x, n - 1);
    assert view(x) == first'(view(s), keys'[0]);
    assert view(last(Rounds(step, keys, x, n - 1), keys[n])) == last'(view(Rounds(step, keys, x, n - 1)), keys'[n]);
  }
}
