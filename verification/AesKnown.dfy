// Examples of FIPS 197: appendix C.1, computed through the key expansion and the rounds of the
// specification, with a key of 128 bits, a block, and the block it is encrypted to; and the words that
// follow longer keys, of appendices A.2 and A.3.
module AesKnown {
  import opened AesField
  import opened AesSpec
  import opened AesWords
  import opened AesKeys
  import opened AesBlock

  function UserKey(): Block {
    [0x00, 0x01, 0x02, 0x03, 0x04, 0x05, 0x06, 0x07, 0x08, 0x09, 0x0a, 0x0b, 0x0c, 0x0d, 0x0e, 0x0f]
  }

  function PlainBlock(): Block {
    [0x00, 0x11, 0x22, 0x33, 0x44, 0x55, 0x66, 0x77, 0x88, 0x99, 0xaa, 0xbb, 0xcc, 0xdd, 0xee, 0xff]
  }

  function CipherBlock(): Block {
    [0x69, 0xc4, 0xe0, 0xd8, 0x6a, 0x7b, 0x04, 0x30, 0xd8, 0xcd, 0xb7, 0x80, 0x70, 0xb4, 0xc5, 0x5a]
  }

  // ----- the schedule -----

  datatype Words = Words(w0: bv32, w1: bv32, w2: bv32, w3: bv32)

  // The j-th round key of a schedule, word by word.
  function RoundWords(e: nat -> bv32, j: nat): Words { Words(e(4 * j), e(4 * j + 1), e(4 * j + 2), e(4 * j + 3)) }

  function NextWords(w: Words, j: nat): Words
    requires 1 <= j <= 10
  {
    var w0 := HeadWord(w.w0, w.w3, Rcon(j - 1));
    var w1 := Xor(w.w1, w0);
    var w2 := Xor(w.w2, w1);
    Words(w0, w1, w2, Xor(w.w3, w2))
  }

  lemma Quarter(j: nat)
    ensures 4 * j % 4 == 0 && 4 * j / 4 == j
    ensures (4 * j + 1) % 4 == 1 && (4 * j + 2) % 4 == 2 && (4 * j + 3) % 4 == 3
  {}

  lemma HeadFollows(e: nat -> bv32, key: seq<bv32>, i: nat, j: nat)
    requires IsSchedule(e, key) && |key| == 4 <= i && i % 4 == 0 && i / 4 == j && 1 <= j <= 10
    ensures e(i) == HeadWord(e(i - 4), e(i - 1), Rcon(j - 1))
  {
    HeadOf(e, key, i);
    FourWords(e, |key|, i, j);
  }

  lemma HeadOf(e: nat -> bv32, key: seq<bv32>, i: nat)
    requires IsSchedule(e, key) && |key| <= i && i % |key| == 0 && i / |key| <= 10
    ensures i / |key| >= 1 && e(i) == HeadWord(e(i - |key|), e(i - 1), Rcon(i / |key| - 1))
  {
    ExpandHead(key, i);
  }

  lemma FourWords(e: nat -> bv32, n: nat, i: nat, j: nat)
    requires n == 4 <= i && 1 <= j <= 10 && i / n == j && e(i) == HeadWord(e(i - n), e(i - 1), Rcon(i / n - 1))
    ensures e(i) == HeadWord(e(i - 4), e(i - 1), Rcon(j - 1))
  {}

  lemma TailFollows(e: nat -> bv32, key: seq<bv32>, i: nat)
    requires IsSchedule(e, key) && |key| == 4 <= i && i % 4 != 0
    ensures e(i) == Xor(e(i - 4), e(i - 1))
  {
    ExpandTail(key, i);
  }

  lemma WordsAt(e: nat -> bv32, key: seq<bv32>, i: nat, j: nat)
    requires IsSchedule(e, key) && |key| == 4 <= i && i % 4 == 0 && i / 4 == j && 1 <= j <= 10
    requires (i + 1) % 4 != 0 && (i + 2) % 4 != 0 && (i + 3) % 4 != 0
    ensures Words(e(i), e(i + 1), e(i + 2), e(i + 3)) == NextWords(Words(e(i - 4), e(i - 3), e(i - 2), e(i - 1)), j)
  {
    HeadFollows(e, key, i, j);
    TailFollows(e, key, i + 1);
    TailFollows(e, key, i + 2);
    TailFollows(e, key, i + 3);
  }

  lemma WordsFollow(e: nat -> bv32, key: seq<bv32>, j: nat)
    requires IsSchedule(e, key) && |key| == 4 && 1 <= j <= 10
    ensures RoundWords(e, j) == NextWords(RoundWords(e, j - 1), j)
  {
    Quarter(j);
    assert 4 * (j - 1) == 4 * j - 4;
    WordsAt(e, key, 4 * j, j);
  }

  lemma Schedule1()
    ensures NextWords(Words(0x00010203, 0x04050607, 0x08090a0b, 0x0c0d0e0f), 1)
         == Words(0xd6aa74fd, 0xd2af72fa, 0xdaa678f1, 0xd6ab76fe)
  {}

  lemma Schedule2()
    ensures NextWords(Words(0xd6aa74fd, 0xd2af72fa, 0xdaa678f1, 0xd6ab76fe), 2)
         == Words(0xb692cf0b, 0x643dbdf1, 0xbe9bc500, 0x6830b3fe)
  {}

  lemma Schedule3()
    ensures NextWords(Words(0xb692cf0b, 0x643dbdf1, 0xbe9bc500, 0x6830b3fe), 3)
         == Words(0xb6ff744e, 0xd2c2c9bf, 0x6c590cbf, 0x0469bf41)
  {}

  lemma Schedule4()
    ensures NextWords(Words(0xb6ff744e, 0xd2c2c9bf, 0x6c590cbf, 0x0469bf41), 4)
         == Words(0x47f7f7bc, 0x95353e03, 0xf96c32bc, 0xfd058dfd)
  {}

  lemma Schedule5()
    ensures NextWords(Words(0x47f7f7bc, 0x95353e03, 0xf96c32bc, 0xfd058dfd), 5)
         == Words(0x3caaa3e8, 0xa99f9deb, 0x50f3af57, 0xadf622aa)
  {}

  lemma Schedule6()
    ensures NextWords(Words(0x3caaa3e8, 0xa99f9deb, 0x50f3af57, 0xadf622aa), 6)
         == Words(0x5e390f7d, 0xf7a69296, 0xa7553dc1, 0x0aa31f6b)
  {}

  lemma Schedule7()
    ensures NextWords(Words(0x5e390f7d, 0xf7a69296, 0xa7553dc1, 0x0aa31f6b), 7)
         == Words(0x14f9701a, 0xe35fe28c, 0x440adf4d, 0x4ea9c026)
  {}

  lemma Schedule8()
    ensures NextWords(Words(0x14f9701a, 0xe35fe28c, 0x440adf4d, 0x4ea9c026), 8)
         == Words(0x47438735, 0xa41c65b9, 0xe016baf4, 0xaebf7ad2)
  {}

  lemma Schedule9()
    ensures NextWords(Words(0x47438735, 0xa41c65b9, 0xe016baf4, 0xaebf7ad2), 9)
         == Words(0x549932d1, 0xf0855768, 0x1093ed9c, 0xbe2c974e)
  {}

  lemma Schedule10()
    ensures NextWords(Words(0x549932d1, 0xf0855768, 0x1093ed9c, 0xbe2c974e), 10)
         == Words(0x13111d7f, 0xe3944a17, 0xf307a78b, 0x4d2b30c5)
  {}

  // The words of all round keys.
  function Known(j: nat): Words
    requires j <= 10
  {
    if j == 0 then Words(0x00010203, 0x04050607, 0x08090a0b, 0x0c0d0e0f)
    else if j == 1 then Words(0xd6aa74fd, 0xd2af72fa, 0xdaa678f1, 0xd6ab76fe)
    else if j == 2 then Words(0xb692cf0b, 0x643dbdf1, 0xbe9bc500, 0x6830b3fe)
    else if j == 3 then Words(0xb6ff744e, 0xd2c2c9bf, 0x6c590cbf, 0x0469bf41)
    else if j == 4 then Words(0x47f7f7bc, 0x95353e03, 0xf96c32bc, 0xfd058dfd)
    else if j == 5 then Words(0x3caaa3e8, 0xa99f9deb, 0x50f3af57, 0xadf622aa)
    else if j == 6 then Words(0x5e390f7d, 0xf7a69296, 0xa7553dc1, 0x0aa31f6b)
    else if j == 7 then Words(0x14f9701a, 0xe35fe28c, 0x440adf4d, 0x4ea9c026)
    else if j == 8 then Words(0x47438735, 0xa41c65b9, 0xe016baf4, 0xaebf7ad2)
    else if j == 9 then Words(0x549932d1, 0xf0855768, 0x1093ed9c, 0xbe2c974e)
    else Words(0x13111d7f, 0xe3944a17, 0xf307a78b, 0x4d2b30c5)
  }

  lemma {:induction false} KnownSchedule(e: nat -> bv32, j: nat)
    requires IsSchedule(e, WordsOf(UserKey())) && j <= 10
    ensures RoundWords(e, j) == Known(j)
  {
    if j == 0 {
      FirstWords(e);
    } else {
      KnownSchedule(e, j - 1);
      WordsFollow(e, WordsOf(UserKey()), j);
      KnownNext(j);
    }
  }

  lemma FirstWords(e: nat -> bv32)
    requires IsSchedule(e, WordsOf(UserKey()))
    ensures RoundWords(e, 0) == Known(0)
  {
    var key := WordsOf(UserKey());
    KeyWords(key);
    assert Expand(key, 0) == key[0] && Expand(key, 1) == key[1] && Expand(key, 2) == key[2] && Expand(key, 3) == key[3];
  }

  lemma KeyWords(key: seq<bv32>)
    requires key == WordsOf(UserKey())
    ensures key == [0x00010203, 0x04050607, 0x08090a0b, 0x0c0d0e0f]
  {}

  lemma KnownNext(j: nat)
    requires 1 <= j <= 10
    ensures NextWords(Known(j - 1), j) == Known(j)
  {
    match j
    case 1 => Schedule1();
    case 2 => Schedule2();
    case 3 => Schedule3();
    case 4 => Schedule4();
    case 5 => Schedule5();
    case 6 => Schedule6();
    case 7 => Schedule7();
    case 8 => Schedule8();
    case 9 => Schedule9();
    case 10 => Schedule10();
  }

  // ----- the rounds -----

  // The round keys as states.
  function KnownKey(j: nat): State
    requires j <= 10
  {
    var w := Known(j);
    StateOf(w.w0, w.w1, w.w2, w.w3)
  }

  // The state before each round.
  function KnownState(i: nat): State
    requires i <= 9
  {
    if i == 0 then
      State(Column(0x00, 0x10, 0x20, 0x30), Column(0x40, 0x50, 0x60, 0x70),
            Column(0x80, 0x90, 0xa0, 0xb0), Column(0xc0, 0xd0, 0xe0, 0xf0))
    else if i == 1 then
      State(Column(0x89, 0xd8, 0x10, 0xe8), Column(0x85, 0x5a, 0xce, 0x68),
            Column(0x2d, 0x18, 0x43, 0xd8), Column(0xcb, 0x12, 0x8f, 0xe4))
    else if i == 2 then
      State(Column(0x49, 0x15, 0x59, 0x8f), Column(0x55, 0xe5, 0xd7, 0xa0),
            Column(0xda, 0xca, 0x94, 0xfa), Column(0x1f, 0x0a, 0x63, 0xf7))
    else if i == 3 then
      State(Column(0xfa, 0x63, 0x6a, 0x28), Column(0x25, 0xb3, 0x39, 0xc9),
            Column(0x40, 0x66, 0x8a, 0x31), Column(0x57, 0x24, 0x4d, 0x17))
    else if i == 4 then
      State(Column(0x24, 0x72, 0x40, 0x23), Column(0x69, 0x66, 0xb3, 0xfa),
            Column(0x6e, 0xd2, 0x75, 0x32), Column(0x88, 0x42, 0x5b, 0x6c))
    else if i == 5 then
      State(Column(0xc8, 0x16, 0x77, 0xbc), Column(0x9b, 0x7a, 0xc9, 0x3b),
            Column(0x25, 0x02, 0x79, 0x92), Column(0xb0, 0x26, 0x19, 0x96))
    else if i == 6 then
      State(Column(0xc6, 0x2f, 0xe1, 0x09), Column(0xf7, 0x5e, 0xed, 0xc3),
            Column(0xcc, 0x79, 0x39, 0x5d), Column(0x84, 0xf9, 0xcf, 0x5d))
    else if i == 7 then
      State(Column(0xd1, 0x87, 0x6c, 0x0f), Column(0x79, 0xc4, 0x30, 0x0a),
            Column(0xb4, 0x55, 0x94, 0xad), Column(0xd6, 0x6f, 0xf4, 0x1f))
    else if i == 8 then
      State(Column(0xfd, 0xe3, 0xba, 0xd2), Column(0x05, 0xe5, 0xd0, 0xd7),
            Column(0x35, 0x47, 0x96, 0x4e), Column(0xf1, 0xfe, 0x37, 0xf1))
    else
      State(Column(0xbd, 0x6e, 0x7c, 0x3d), Column(0xf2, 0xb5, 0x77, 0x9e),
            Column(0x0b, 0x61, 0x21, 0x6e), Column(0x8b, 0x10, 0xb6, 0x89))
  }

  lemma Key0()
    ensures KnownKey(0)
         == State(Column(0x00, 0x01, 0x02, 0x03), Column(0x04, 0x05, 0x06, 0x07),
                  Column(0x08, 0x09, 0x0a, 0x0b), Column(0x0c, 0x0d, 0x0e, 0x0f))
  {}

  lemma Key1()
    ensures KnownKey(1)
         == State(Column(0xd6, 0xaa, 0x74, 0xfd), Column(0xd2, 0xaf, 0x72, 0xfa),
                  Column(0xda, 0xa6, 0x78, 0xf1), Column(0xd6, 0xab, 0x76, 0xfe))
  {}

  lemma Key2()
    ensures KnownKey(2)
         == State(Column(0xb6, 0x92, 0xcf, 0x0b), Column(0x64, 0x3d, 0xbd, 0xf1),
                  Column(0xbe, 0x9b, 0xc5, 0x00), Column(0x68, 0x30, 0xb3, 0xfe))
  {}

  lemma Key3()
    ensures KnownKey(3)
         == State(Column(0xb6, 0xff, 0x74, 0x4e), Column(0xd2, 0xc2, 0xc9, 0xbf),
                  Column(0x6c, 0x59, 0x0c, 0xbf), Column(0x04, 0x69, 0xbf, 0x41))
  {}

  lemma Key4()
    ensures KnownKey(4)
         == State(Column(0x47, 0xf7, 0xf7, 0xbc), Column(0x95, 0x35, 0x3e, 0x03),
                  Column(0xf9, 0x6c, 0x32, 0xbc), Column(0xfd, 0x05, 0x8d, 0xfd))
  {}

  lemma Key5()
    ensures KnownKey(5)
         == State(Column(0x3c, 0xaa, 0xa3, 0xe8), Column(0xa9, 0x9f, 0x9d, 0xeb),
                  Column(0x50, 0xf3, 0xaf, 0x57), Column(0xad, 0xf6, 0x22, 0xaa))
  {}

  lemma Key6()
    ensures KnownKey(6)
         == State(Column(0x5e, 0x39, 0x0f, 0x7d), Column(0xf7, 0xa6, 0x92, 0x96),
                  Column(0xa7, 0x55, 0x3d, 0xc1), Column(0x0a, 0xa3, 0x1f, 0x6b))
  {}

  lemma Key7()
    ensures KnownKey(7)
         == State(Column(0x14, 0xf9, 0x70, 0x1a), Column(0xe3, 0x5f, 0xe2, 0x8c),
                  Column(0x44, 0x0a, 0xdf, 0x4d), Column(0x4e, 0xa9, 0xc0, 0x26))
  {}

  lemma Key8()
    ensures KnownKey(8)
         == State(Column(0x47, 0x43, 0x87, 0x35), Column(0xa4, 0x1c, 0x65, 0xb9),
                  Column(0xe0, 0x16, 0xba, 0xf4), Column(0xae, 0xbf, 0x7a, 0xd2))
  {}

  lemma Key9()
    ensures KnownKey(9)
         == State(Column(0x54, 0x99, 0x32, 0xd1), Column(0xf0, 0x85, 0x57, 0x68),
                  Column(0x10, 0x93, 0xed, 0x9c), Column(0xbe, 0x2c, 0x97, 0x4e))
  {}

  lemma Key10()
    ensures KnownKey(10)
         == State(Column(0x13, 0x11, 0x1d, 0x7f), Column(0xe3, 0x94, 0x4a, 0x17),
                  Column(0xf3, 0x07, 0xa7, 0x8b), Column(0x4d, 0x2b, 0x30, 0xc5))
  {}

  lemma Round1()
    ensures EncryptStep(State(Column(0x00, 0x10, 0x20, 0x30), Column(0x40, 0x50, 0x60, 0x70),
                              Column(0x80, 0x90, 0xa0, 0xb0), Column(0xc0, 0xd0, 0xe0, 0xf0)),
                        State(Column(0xd6, 0xaa, 0x74, 0xfd), Column(0xd2, 0xaf, 0x72, 0xfa),
                              Column(0xda, 0xa6, 0x78, 0xf1), Column(0xd6, 0xab, 0x76, 0xfe)))
         == State(Column(0x89, 0xd8, 0x10, 0xe8), Column(0x85, 0x5a, 0xce, 0x68),
                  Column(0x2d, 0x18, 0x43, 0xd8), Column(0xcb, 0x12, 0x8f, 0xe4))
  {}

  lemma Round2()
    ensures EncryptStep(State(Column(0x89, 0xd8, 0x10, 0xe8), Column(0x85, 0x5a, 0xce, 0x68),
                              Column(0x2d, 0x18, 0x43, 0xd8), Column(0xcb, 0x12, 0x8f, 0xe4)),
                        State(Column(0xb6, 0x92, 0xcf, 0x0b), Column(0x64, 0x3d, 0xbd, 0xf1),
                              Column(0xbe, 0x9b, 0xc5, 0x00), Column(0x68, 0x30, 0xb3, 0xfe)))
         == State(Column(0x49, 0x15, 0x59, 0x8f), Column(0x55, 0xe5, 0xd7, 0xa0),
                  Column(0xda, 0xca, 0x94, 0xfa), Column(0x1f, 0x0a, 0x63, 0xf7))
  {}

  lemma Round3()
    ensures EncryptStep(State(Column(0x49, 0x15, 0x59, 0x8f), Column(0x55, 0xe5, 0xd7, 0xa0),
                              Column(0xda, 0xca, 0x94, 0xfa), Column(0x1f, 0x0a, 0x63, 0xf7)),
                        State(Column(0xb6, 0xff, 0x74, 0x4e), Column(0xd2, 0xc2, 0xc9, 0xbf),
                              Column(0x6c, 0x59, 0x0c, 0xbf), Column(0x04, 0x69, 0xbf, 0x41)))
         == State(Column(0xfa, 0x63, 0x6a, 0x28), Column(0x25, 0xb3, 0x39, 0xc9),
                  Column(0x40, 0x66, 0x8a, 0x31), Column(0x57, 0x24, 0x4d, 0x17))
  {}

  lemma Round4()
    ensures EncryptStep(State(Column(0xfa, 0x63, 0x6a, 0x28), Column(0x25, 0xb3, 0x39, 0xc9),
                              Column(0x40, 0x66, 0x8a, 0x31), Column(0x57, 0x24, 0x4d, 0x17)),
                        State(Column(0x47, 0xf7, 0xf7, 0xbc), Column(0x95, 0x35, 0x3e, 0x03),
                              Column(0xf9, 0x6c, 0x32, 0xbc), Column(0xfd, 0x05, 0x8d, 0xfd)))
         == State(Column(0x24, 0x72, 0x40, 0x23), Column(0x69, 0x66, 0xb3, 0xfa),
                  Column(0x6e, 0xd2, 0x75, 0x32), Column(0x88, 0x42, 0x5b, 0x6c))
  {}

  lemma Round5()
    ensures EncryptStep(State(Column(0x24, 0x72, 0x40, 0x23), Column(0x69, 0x66, 0xb3, 0xfa),
                              Column(0x6e, 0xd2, 0x75, 0x32), Column(0x88, 0x42, 0x5b, 0x6c)),
                        State(Column(0x3c, 0xaa, 0xa3, 0xe8), Column(0xa9, 0x9f, 0x9d, 0xeb),
                              Column(0x50, 0xf3, 0xaf, 0x57), Column(0xad, 0xf6, 0x22, 0xaa)))
         == State(Column(0xc8, 0x16, 0x77, 0xbc), Column(0x9b, 0x7a, 0xc9, 0x3b),
                  Column(0x25, 0x02, 0x79, 0x92), Column(0xb0, 0x26, 0x19, 0x96))
  {}

  lemma Round6()
    ensures EncryptStep(State(Column(0xc8, 0x16, 0x77, 0xbc), Column(0x9b, 0x7a, 0xc9, 0x3b),
                              Column(0x25, 0x02, 0x79, 0x92), Column(0xb0, 0x26, 0x19, 0x96)),
                        State(Column(0x5e, 0x39, 0x0f, 0x7d), Column(0xf7, 0xa6, 0x92, 0x96),
                              Column(0xa7, 0x55, 0x3d, 0xc1), Column(0x0a, 0xa3, 0x1f, 0x6b)))
         == State(Column(0xc6, 0x2f, 0xe1, 0x09), Column(0xf7, 0x5e, 0xed, 0xc3),
                  Column(0xcc, 0x79, 0x39, 0x5d), Column(0x84, 0xf9, 0xcf, 0x5d))
  {}

  lemma Round7()
    ensures EncryptStep(State(Column(0xc6, 0x2f, 0xe1, 0x09), Column(0xf7, 0x5e, 0xed, 0xc3),
                              Column(0xcc, 0x79, 0x39, 0x5d), Column(0x84, 0xf9, 0xcf, 0x5d)),
                        State(Column(0x14, 0xf9, 0x70, 0x1a), Column(0xe3, 0x5f, 0xe2, 0x8c),
                              Column(0x44, 0x0a, 0xdf, 0x4d), Column(0x4e, 0xa9, 0xc0, 0x26)))
         == State(Column(0xd1, 0x87, 0x6c, 0x0f), Column(0x79, 0xc4, 0x30, 0x0a),
                  Column(0xb4, 0x55, 0x94, 0xad), Column(0xd6, 0x6f, 0xf4, 0x1f))
  {}

  lemma Round8()
    ensures EncryptStep(State(Column(0xd1, 0x87, 0x6c, 0x0f), Column(0x79, 0xc4, 0x30, 0x0a),
                              Column(0xb4, 0x55, 0x94, 0xad), Column(0xd6, 0x6f, 0xf4, 0x1f)),
                        State(Column(0x47, 0x43, 0x87, 0x35), Column(0xa4, 0x1c, 0x65, 0xb9),
                              Column(0xe0, 0x16, 0xba, 0xf4), Column(0xae, 0xbf, 0x7a, 0xd2)))
         == State(Column(0xfd, 0xe3, 0xba, 0xd2), Column(0x05, 0xe5, 0xd0, 0xd7),
                  Column(0x35, 0x47, 0x96, 0x4e), Column(0xf1, 0xfe, 0x37, 0xf1))
  {}

  lemma Round9()
    ensures EncryptStep(State(Column(0xfd, 0xe3, 0xba, 0xd2), Column(0x05, 0xe5, 0xd0, 0xd7),
                              Column(0x35, 0x47, 0x96, 0x4e), Column(0xf1, 0xfe, 0x37, 0xf1)),
                        State(Column(0x54, 0x99, 0x32, 0xd1), Column(0xf0, 0x85, 0x57, 0x68),
                              Column(0x10, 0x93, 0xed, 0x9c), Column(0xbe, 0x2c, 0x97, 0x4e)))
         == State(Column(0xbd, 0x6e, 0x7c, 0x3d), Column(0xf2, 0xb5, 0x77, 0x9e),
                  Column(0x0b, 0x61, 0x21, 0x6e), Column(0x8b, 0x10, 0xb6, 0x89))
  {}

  lemma Round10()
    ensures LastEncryptStep(State(Column(0xbd, 0x6e, 0x7c, 0x3d), Column(0xf2, 0xb5, 0x77, 0x9e),
                                  Column(0x0b, 0x61, 0x21, 0x6e), Column(0x8b, 0x10, 0xb6, 0x89)),
                            State(Column(0x13, 0x11, 0x1d, 0x7f), Column(0xe3, 0x94, 0x4a, 0x17),
                                  Column(0xf3, 0x07, 0xa7, 0x8b), Column(0x4d, 0x2b, 0x30, 0xc5)))
         == State(Column(0x69, 0xc4, 0xe0, 0xd8), Column(0x6a, 0x7b, 0x04, 0x30),
                  Column(0xd8, 0xcd, 0xb7, 0x80), Column(0x70, 0xb4, 0xc5, 0x5a))
  {}

  lemma State9()
    ensures KnownState(9)
         == State(Column(0xbd, 0x6e, 0x7c, 0x3d), Column(0xf2, 0xb5, 0x77, 0x9e),
                  Column(0x0b, 0x61, 0x21, 0x6e), Column(0x8b, 0x10, 0xb6, 0x89))
  {}

  lemma LastBytes()
    ensures FromState(State(Column(0x69, 0xc4, 0xe0, 0xd8), Column(0x6a, 0x7b, 0x04, 0x30),
                            Column(0xd8, 0xcd, 0xb7, 0x80), Column(0x70, 0xb4, 0xc5, 0x5a)))
         == CipherBlock()
  {}

  lemma KnownRound(i: nat)
    requires 1 <= i <= 9
    ensures EncryptStep(KnownState(i - 1), KnownKey(i)) == KnownState(i)
  {
    match i
    case 1 =>
      Key1();
      Round1();
    case 2 =>
      Key2();
      Round2();
    case 3 =>
      Key3();
      Round3();
    case 4 =>
      Key4();
      Round4();
    case 5 =>
      Key5();
      Round5();
    case 6 =>
      Key6();
      Round6();
    case 7 =>
      Key7();
      Round7();
    case 8 =>
      Key8();
      Round8();
    case 9 =>
      Key9();
      Round9();
  }

  lemma {:induction false} KnownRounds(keys: seq<State>, i: nat)
    requires |keys| == 11 && (forall q | 0 <= q <= 10 :: keys[q] == KnownKey(q)) && i <= 9
    ensures Rounds(EncryptStep, keys, KnownState(0), i) == KnownState(i)
  {
    if i > 0 {
      KnownRounds(keys, i - 1);
      KnownRound(i);
    }
  }

  // The schedule of the key encrypts the block as the standard says.
  lemma KnownAnswer(e: nat -> bv32, keys: seq<State>)
    requires IsSchedule(e, WordsOf(UserKey())) && |keys| == 11
    requires forall q | 0 <= q <= 10 :: keys[q] == StateOf(e(4 * q), e(4 * q + 1), e(4 * q + 2), e(4 * q + 3))
    ensures EncryptBlock(keys, PlainBlock()) == CipherBlock()
  {
    forall q | 0 <= q <= 10 ensures keys[q] == KnownKey(q) {
      KnownSchedule(e, q);
    }
    FirstState();
    KnownRounds(keys, 9);
    LastState();
  }

  lemma FirstState()
    ensures AddRoundKey(ToState(PlainBlock()), KnownKey(0)) == KnownState(0)
  {
    Key0();
  }

  lemma LastState()
    ensures FromState(LastEncryptStep(KnownState(9), KnownKey(10))) == CipherBlock()
  {
    Key10();
    State9();
    Round10();
    LastBytes();
  }

  // ----- longer keys, appendices A.2 and A.3 -----

  lemma TailOf(e: nat -> bv32, key: seq<bv32>, i: nat)
    requires IsSchedule(e, key) && |key| <= i && i % |key| != 0 && (|key| > 6 ==> i % |key| != 4)
    ensures e(i) == Xor(e(i - |key|), e(i - 1))
  {
    ExpandTail(key, i);
  }

  lemma MiddleOf(e: nat -> bv32, key: seq<bv32>, i: nat)
    requires IsSchedule(e, key) && 6 < |key| <= i && i % |key| == 4
    ensures e(i) == MiddleWord(e(i - |key|), e(i - 1))
  {
    ExpandMiddle(key, i);
  }

  lemma KeyOf(e: nat -> bv32, key: seq<bv32>, i: nat)
    requires IsSchedule(e, key) && i < |key|
    ensures e(i) == key[i]
  {
    assert Expand(key, i) == key[i];
  }

  function LongKey(): seq<bv32> { [0x8e73b0f7, 0xda0e6452, 0xc810f32b, 0x809079e5, 0x62f8ead2, 0x522c6b7b] }

  lemma LongHead()
    ensures HeadWord(0x8e73b0f7, 0x522c6b7b, 0x01000000) == 0xfe0c91f7
  {}

  // The words that follow the key of 192 bits of appendix A.2.
  lemma Known192(e: nat -> bv32)
    requires IsSchedule(e, LongKey())
    ensures e(6) == 0xfe0c91f7 && e(7) == 0x2402f5a5 && e(8) == 0xec12068e
    ensures e(9) == 0x6c827f6b && e(10) == 0x0e7a95b9 && e(11) == 0x5c56fec2
  {
    var key := LongKey();
    for i := 0 to 6
      invariant forall k | 0 <= k < i :: e(k) == key[k]
    {
      KeyOf(e, key, i);
    }
    HeadOf(e, key, 6);
    LongHead();
    TailOf(e, key, 7);
    TailOf(e, key, 8);
    TailOf(e, key, 9);
    TailOf(e, key, 10);
    TailOf(e, key, 11);
  }

  function LongestKey(): seq<bv32> {
    [0x603deb10, 0x15ca71be, 0x2b73aef0, 0x857d7781, 0x1f352c07, 0x3b6108d7, 0x2d9810a3, 0x0914dff4]
  }

  lemma LongestHead()
    ensures HeadWord(0x603deb10, 0x0914dff4, 0x01000000) == 0x9ba35411
  {}

  lemma LongestMiddle()
    ensures MiddleWord(0x1f352c07, 0x2067fcde) == 0xa8b09c1a
  {}

  // The words that follow the key of 256 bits of appendix A.3.
  lemma Known256(e: nat -> bv32)
    requires IsSchedule(e, LongestKey())
    ensures e(8) == 0x9ba35411 && e(9) == 0x8e6925af && e(10) == 0xa51a8b5f && e(11) == 0x2067fcde
    ensures e(12) == 0xa8b09c1a && e(13) == 0x93d194cd && e(14) == 0xbe49846e && e(15) == 0xb75d5b9a
  {
    var key := LongestKey();
    for i := 0 to 8
      invariant forall k | 0 <= k < i :: e(k) == key[k]
    {
      KeyOf(e, key, i);
    }
    HeadOf(e, key, 8);
    LongestHead();
    TailOf(e, key, 9);
    TailOf(e, key, 10);
    TailOf(e, key, 11);
    MiddleOf(e, key, 12);
    LongestMiddle();
    TailOf(e, key, 13);
    TailOf(e, key, 14);
    TailOf(e, key, 15);
  }
}
