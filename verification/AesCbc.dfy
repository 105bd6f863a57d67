// Cipher block chaining (section 6.2 of NIST SP 800-38A) as the code runs it, with its treatment
// of a last partial block and the update of the initialisation vector, in place or from one
// buffer to another.
module AesCbc {
  import opened AesField
  import opened AesSpec
  import opened AesBlock

  // ----- the mode on sequences, over any block function -----

  function XorBlock(a: Block, b: Block): Block {
    seq(16, i requires 0 <= i < 16 => Add(a[i], b[i]))
  }

  // A partial block is completed with zeros.
  function Padded(p: seq<bv8>): Block
    requires |p| <= 16
  {
    seq(16, i requires 0 <= i < 16 => if i < |p| then p[i] else 0)
  }

  function RoundUp(n: nat): nat { if n % 16 == 0 then n else n - n % 16 + 16 }

  // Ciphertext, always whole blocks, and the vector for the next call.
  function Encrypted(e: Block -> Block, p: seq<bv8>, iv: Block): (seq<bv8>, Block)
    decreases |p|
  {
    if |p| == 0 then ([], iv)
    else
      var n := if |p| < 16 then |p| else 16;
      var c := e(XorBlock(Padded(p[..n]), iv));
      var (rest, iv') := Encrypted(e, p[n..], c);
      (c + rest, iv')
  }

  // n bytes of plaintext out of whole blocks of ciphertext, and the vector for the next call. After
  // a partial block the code keeps the deciphered block there, not the ciphertext block.
  function Decrypted(d: Block -> Block, c: seq<bv8>, n: nat, iv: Block): (seq<bv8>, Block)
    requires |c| >= RoundUp(n)
    decreases n
  {
    if n == 0 then ([], iv)
    else
      var p: seq<bv8> := XorBlock(d(c[..16]), iv);
      if n < 16 then (p[..n], d(c[..16]))
      else
        var (rest, iv') := Decrypted(d, c[16..], n - 16, c[..16]);
        (p + rest, iv')
  }

  lemma XorBlockCancels(a: Block, k: Block)
    ensures XorBlock(XorBlock(a, k), k) == a
  {
    forall i | 0 <= i < 16 ensures XorBlock(XorBlock(a, k), k)[i] == a[i] {
      AddCancels(a[i], k[i]);
    }
  }

  lemma RoundUpStep(n: nat)
    requires n > 0
    ensures RoundUp(n) == 16 + RoundUp(if n < 16 then 0 else n - 16)
  {
  }

  lemma EncryptedStep(e: Block -> Block, p: seq<bv8>, iv: Block)
    requires |p| > 0
    ensures var n := if |p| < 16 then |p| else 16;
            var c := e(XorBlock(Padded(p[..n]), iv));
            Encrypted(e, p, iv) == (c + Encrypted(e, p[n..], c).0, Encrypted(e, p[n..], c).1)
  {
  }

  lemma {:induction false} EncryptedLength(e: Block -> Block, p: seq<bv8>, iv: Block)
    ensures |Encrypted(e, p, iv).0| == RoundUp(|p|)
    decreases |p|
  {
    if |p| > 0 {
      var n := if |p| < 16 then |p| else 16;
      var c := e(XorBlock(Padded(p[..n]), iv));
      var q := p[n..];
      EncryptedStep(e, p, iv);
      EncryptedLength(e, q, c);
      assert RoundUp(|p|) == 16 + RoundUp(|q|) by {
        RoundUpStep(|p|);
      }
    }
  }

  // The block that the last, partial step of a run passes to the block function.
  function LastInput(e: Block -> Block, p: seq<bv8>, iv: Block): Block
    decreases |p|
  {
    if |p| < 16 then XorBlock(Padded(p), iv) else LastInput(e, p[16..], e(XorBlock(Padded(p[..16]), iv)))
  }

  // Decrypting what was encrypted gives the plaintext back, whatever its length. The vectors left
  // behind agree after whole blocks; after a partial block the decrypting side keeps the
  // input of the block function instead of its output.
  lemma {:induction false} StreamRoundTrip(e: Block -> Block, d: Block -> Block, p: seq<bv8>, iv: Block)
    requires forall b: Block :: d(e(b)) == b
    ensures |Encrypted(e, p, iv).0| == RoundUp(|p|)
    ensures Decrypted(d, Encrypted(e, p, iv).0, |p|, iv).0 == p
    ensures |p| % 16 == 0 ==> Decrypted(d, Encrypted(e, p, iv).0, |p|, iv).1 == Encrypted(e, p, iv).1
    ensures |p| % 16 != 0 ==> Encrypted(e, p, iv).1 == e(LastInput(e, p, iv))
    ensures |p| % 16 != 0 ==> Decrypted(d, Encrypted(e, p, iv).0, |p|, iv).1 == LastInput(e, p, iv)
    decreases |p|
  {
    EncryptedLength(e, p, iv);
    if |p| > 0 {
      var n := if |p| < 16 then |p| else 16;
      var x := XorBlock(Padded(p[..n]), iv);
      var c := e(x);
      var (rest, iv') := Encrypted(e, p[n..], c);
      EncryptedStep(e, p, iv);
      assert (c + rest)[..16] == c && (c + rest)[16..] == rest;
      assert XorBlock(d(c), iv) == Padded(p[..n]) by {
        XorBlockCancels(Padded(p[..n]), iv);
      }
      assert Padded(p[..n])[..n] == p[..n];
      if |p| < 16 {
        assert p[n..] == [] && p[..n] == p;
      } else {
        StreamRoundTrip(e, d, p[n..], c);
        assert (|p| - 16) % 16 == |p| % 16;
        assert Padded(p[..n]) == p[..n] && p == p[..n] + p[n..];
      }
    }
  }

  // So two streams stay in step over further calls exactly when the length is a multiple of the
  // block size, or the block function happens to map the last block to itself.
  lemma VectorsInStep(e: Block -> Block, d: Block -> Block, p: seq<bv8>, iv: Block)
    requires forall b: Block :: d(e(b)) == b
    ensures |Encrypted(e, p, iv).0| == RoundUp(|p|)
    ensures Decrypted(d, Encrypted(e, p, iv).0, |p|, iv).1 == Encrypted(e, p, iv).1
       <==> |p| % 16 == 0 || e(LastInput(e, p, iv)) == LastInput(e, p, iv)
  {
    StreamRoundTrip(e, d, p, iv);
  }

  // Encrypting in pieces, the earlier of them whole blocks, is encrypting at once.
  lemma {:induction false} EncryptedInPieces(e: Block -> Block, p: seq<bv8>, q: seq<bv8>, iv: Block, blocks: nat)
    requires |p| == 16 * blocks
    ensures Encrypted(e, p + q, iv)
         == (Encrypted(e, p, iv).0 + Encrypted(e, q, Encrypted(e, p, iv).1).0, Encrypted(e, q, Encrypted(e, p, iv).1).1)
    decreases blocks
  {
    if blocks == 0 {
      assert p + q == q && Encrypted(e, p, iv) == ([], iv);
      assert [] + Encrypted(e, q, iv).0 == Encrypted(e, q, iv).0;
    } else {
      var c := e(XorBlock(Padded(p[..16]), iv));
      var rest := p[16..];
      assert (p + q)[..16] == p[..16] && (p + q)[16..] == rest + q;
      EncryptedStep(e, p, iv);
      EncryptedStep(e, p + q, iv);
      EncryptedInPieces(e, rest, q, c, blocks - 1);
      var c1, c2 := Encrypted(e, rest, c).0, Encrypted(e, q, Encrypted(e, rest, c).1).0;
      assert c + (c1 + c2) == (c + c1) + c2;
    }
  }

  // ----- the code -----

  // The block functions of a key.
  function Encryptor(keys: seq<State>): Block -> Block
    requires |keys| >= 2
  {
    (b: Block) => EncryptBlock(keys, b)
  }
  function Decryptor(keys: seq<State>): Block -> Block
    requires |keys| >= 2
  {
    (b: Block) => DecryptBlock(keys, b)
  }

  // The mode over AES: what is encrypted under a key's schedule is recovered under the schedule of
  // the equivalent inverse cipher, for every length.
  lemma CbcRoundTrip(keys: seq<State>, p: seq<bv8>, iv: Block)
    requires |keys| >= 2
    ensures |Encrypted(Encryptor(keys), p, iv).0| == RoundUp(|p|)
    ensures Decrypted(Decryptor(DecryptionKeys(keys)), Encrypted(Encryptor(keys), p, iv).0, |p|, iv).0 == p
  {
    var e, d := Encryptor(keys), Decryptor(DecryptionKeys(keys));
    forall b: Block ensures d(e(b)) == b {
      BlockRoundTrip(keys, b);
    }
    StreamRoundTrip(e, d, p, iv);
  }

  method XorInto(tmp: array<bv8>, inp: array<bv8>, i: nat, len: nat, ivec: array<bv8>)
    requires tmp.Length == 16 == ivec.Length && len <= 16 && i + len <= inp.Length
    requires tmp != inp && tmp != ivec
    modifies tmp
    ensures tmp[..] == XorBlock(Padded(inp[i..i + len]), ivec[..])
  {
    for n := 0 to len
      invariant forall k | 0 <= k < n :: tmp[k] == Add(inp[i + k], ivec[k])
    {
      tmp[n] := Add(inp[i + n], ivec[n]);
    }
    for n := len to 16
      invariant forall k | 0 <= k < len :: tmp[k] == Add(inp[i + k], ivec[k])
      invariant forall k | len <= k < n :: tmp[k] == Add(0, ivec[k])
    {
      tmp[n] := ivec[n];
      assert 0 ^ ivec[n] == ivec[n];
    }
  }

  method Copy<T>(dst: array<T>, o: nat, src: array<T>, i: nat, len: nat)
    requires o + len <= dst.Length && i + len <= src.Length && dst != src
    modifies dst
    ensures Written(old(dst[..]), dst[..], o, src[i..i + len])
  {
    for n := 0 to len
      invariant forall k | 0 <= k < dst.Length :: dst[k] == if o <= k < o + n then src[i + k - o] else old(dst[k])
    {
      dst[o + n] := src[i + n];
    }
  }

  // One whole block, and the last partial block, which passes through tmp.
  method EncryptWhole(tmp: array<bv8>, inp: array<bv8>, out: array<bv8>, pos: nat, key: AesKey, ivec: array<bv8>, ghost e: Block -> Block,
                        ghost before: seq<bv8>, ghost done: seq<bv8>)
    requires key.Ready() && IsEncryptor(e, key.Keys())
    requires Written(before, out[..], 0, done) && |done| == pos
    requires tmp.Length == 16 == ivec.Length && pos + 16 <= inp.Length && pos + 16 <= out.Length
    requires tmp != inp && tmp != out && tmp != ivec && ivec != out
    modifies tmp, out, ivec
    ensures ivec[..] == e(XorBlock(Padded(old(inp[pos..pos + 16])), old(ivec[..])))
    ensures Written(before, out[..], 0, done + ivec[..])
  {
    ghost var now := out[..];
    XorInto(tmp, inp, pos, 16, ivec);
    assert tmp[0..0 + 16] == tmp[..];
    AesEncrypt(tmp, 0, out, pos, key, e);
    Copy(ivec, 0, out, pos, 16);
    WrittenTwice(before, now, out[..], 0, done, ivec[..]);
  }

  method EncryptPartial(tmp: array<bv8>, inp: array<bv8>, out: array<bv8>, pos: nat, len: nat, key: AesKey, ivec: array<bv8>,
                        ghost e: Block -> Block,
                        ghost before: seq<bv8>, ghost done: seq<bv8>)
    requires key.Ready() && IsEncryptor(e, key.Keys()) && len < 16
    requires Written(before, out[..], 0, done) && |done| == pos
    requires tmp.Length == 16 == ivec.Length && pos + len <= inp.Length && pos + 16 <= out.Length
    requires tmp != inp && tmp != out && tmp != ivec && ivec != out
    modifies tmp, out, ivec
    ensures ivec[..] == e(XorBlock(Padded(old(inp[pos..pos + len])), old(ivec[..])))
    ensures Written(before, out[..], 0, done + ivec[..])
  {
    ghost var now := out[..];
    XorInto(tmp, inp, pos, len, ivec);
    assert tmp[0..0 + 16] == tmp[..];
    AesEncrypt(tmp, 0, tmp, 0, key, e);
    Copy(out, pos, tmp, 0, 16);
    Copy(ivec, 0, tmp, 0, 16);
    WrittenTwice(before, now, out[..], 0, done, ivec[..]);
  }

  // With done already out and now the current vector, rest remains to be encrypted.
  ghost predicate Remaining(e: Block -> Block, p: seq<bv8>, iv: Block, done: seq<bv8>, rest: seq<bv8>, now: Block) {
    Encrypted(e, p, iv) == (done + Encrypted(e, rest, now).0, Encrypted(e, rest, now).1)
  }

  lemma RemainingStart(e: Block -> Block, p: seq<bv8>, iv: Block)
    ensures Remaining(e, p, iv, [], p, iv)
  {
    assert [] + Encrypted(e, p, iv).0 == Encrypted(e, p, iv).0;
  }

  lemma RemainingStep(e: Block -> Block, p: seq<bv8>, iv: Block, done: seq<bv8>, rest: seq<bv8>, now: Block, n: nat)
    requires Remaining(e, p, iv, done, rest, now) && |rest| > 0 && n == if |rest| < 16 then |rest| else 16
    ensures var c := e(XorBlock(Padded(rest[..n]), now)); Remaining(e, p, iv, done + c, rest[n..], c)
  {
    EncryptedStep(e, rest, now);
    var c := e(XorBlock(Padded(rest[..n]), now));
    var x := Encrypted(e, rest[n..], c).0;
    assert done + (c + x) == (done + c) + x;
  }

  lemma RemainingNone(e: Block -> Block, p: seq<bv8>, iv: Block, done: seq<bv8>, now: Block)
    requires Remaining(e, p, iv, done, [], now)
    ensures Encrypted(e, p, iv) == (done, now)
  {
    assert done + [] == done;
  }

  method EncryptStream(inp: array<bv8>, out: array<bv8>, length: nat, key: AesKey, ivec: array<bv8>, ghost e: Block -> Block)
    requires key.Ready() && IsEncryptor(e, key.Keys())
    requires ivec.Length == 16 && ivec != inp && ivec != out && length <= inp.Length && RoundUp(length) <= out.Length
    modifies out, ivec
    ensures Written(old(out[..]), out[..], 0, Encrypted(e, old(inp[..length]), old(ivec[..])).0)
    ensures ivec[..] == Encrypted(e, old(inp[..length]), old(ivec[..])).1
  {
    ghost var p, iv, before := inp[..length], ivec[..], out[..];
    ghost var done: seq<bv8>, rest := [], p;
    var pos, len := 0, length;
    var tmp := new bv8[16];
    RemainingStart(e, p, iv);
    while len >= 16
      invariant pos + len == length && |done| == pos && pos + RoundUp(len) <= out.Length
      invariant rest == inp[pos..length]
      invariant Written(before, out[..], 0, done)
      invariant Remaining(e, p, iv, done, rest, ivec[..])
    {
      RemainingStep(e, p, iv, done, rest, ivec[..], 16);
      RoundUpStep(len);
      assert rest[..16] == inp[pos..pos + 16] && rest[16..] == inp[pos + 16..length];
      EncryptWhole(tmp, inp, out, pos, key, ivec, e, before, done);
      done, rest := done + ivec[..], rest[16..];
      pos, len := pos + 16, len - 16;
    }
    if len > 0 {
      RemainingStep(e, p, iv, done, rest, ivec[..], len);
      RoundUpStep(len);
      assert rest[..len] == inp[pos..pos + len];
      EncryptPartial(tmp, inp, out, pos, len, key, ivec, e, before, done);
      done, rest := done + ivec[..], rest[len..];
    }
    assert rest == [];
    RemainingNone(e, p, iv, done, ivec[..]);
  }

  method XorOver(out: array<bv8>, pos: nat, ivec: array<bv8>)
    requires ivec.Length == 16 && pos + 16 <= out.Length && out != ivec
    modifies out
    ensures Written(old(out[..]), out[..], pos, XorBlock(old(out[pos..pos + 16]), ivec[..]))
  {
    for n := 0 to 16
      invariant forall k | 0 <= k < out.Length ::
        out[k] == if pos <= k < pos + n then Add(old(out[k]), ivec[k - pos]) else old(out[k])
    {
      out[pos + n] := Add(out[pos + n], ivec[n]);
    }
  }

  method XorFrom(out: array<bv8>, pos: nat, tmp: array<bv8>, ivec: array<bv8>, len: nat)
    requires tmp.Length == 16 == ivec.Length && len <= 16 && pos + len <= out.Length && out != ivec && out != tmp
    modifies out
    ensures Written(old(out[..]), out[..], pos, XorBlock(tmp[..], ivec[..])[..len])
  {
    for n := 0 to len
      invariant forall k | 0 <= k < out.Length ::
        out[k] == if pos <= k < pos + n then Add(tmp[k - pos], ivec[k - pos]) else old(out[k])
    {
      out[pos + n] := Add(tmp[n], ivec[n]);
    }
  }

  lemma WrittenOver<T>(s: seq<T>, t: seq<T>, u: seq<T>, o: nat, v: seq<T>, w: seq<T>)
    requires Written(s, t, o, v) && Written(t, u, o, w) && |v| == |w|
    ensures Written(s, u, o, w) && t[o..o + |v|] == v
  {
  }

  method DecryptWhole(tmp: array<bv8>, inp: array<bv8>, out: array<bv8>, pos: nat, key: AesKey, ivec: array<bv8>, ghost d: Block -> Block)
    requires key.Ready() && IsDecryptor(d, key.Keys())
    requires tmp.Length == 16 == ivec.Length && pos + 16 <= inp.Length && pos + 16 <= out.Length
    requires tmp != inp && tmp != out && tmp != ivec && ivec != out && ivec != inp
    modifies tmp, out, ivec
    ensures ivec[..] == old(inp[pos..pos + 16])
    ensures Written(old(out[..]), out[..], pos, XorBlock(d(old(inp[pos..pos + 16])), old(ivec[..])))
  {
    ghost var before, c, iv := out[..], inp[pos..pos + 16], ivec[..];
    Copy(tmp, 0, inp, pos, 16);
    AesDecrypt(inp, pos, out, pos, key, d);
    ghost var now := out[..];
    XorOver(out, pos, ivec);
    WrittenOver(before, now, out[..], pos, d(c), XorBlock(now[pos..pos + 16], iv));
    Copy(ivec, 0, tmp, 0, 16);
  }

  method DecryptPartial(tmp: array<bv8>, inp: array<bv8>, out: array<bv8>, pos: nat, len: nat, key: AesKey, ivec: array<bv8>,
                        ghost d: Block -> Block)
    requires key.Ready() && IsDecryptor(d, key.Keys()) && len < 16
    requires tmp.Length == 16 == ivec.Length && pos + 16 <= inp.Length && pos + len <= out.Length
    requires tmp != inp && tmp != out && tmp != ivec && ivec != out && ivec != inp
    modifies tmp, out, ivec
    ensures ivec[..] == d(old(inp[pos..pos + 16]))
    ensures Written(old(out[..]), out[..], pos, XorBlock(d(old(inp[pos..pos + 16])), old(ivec[..]))[..len])
  {
    ghost var c := inp[pos..pos + 16];
    Copy(tmp, 0, inp, pos, 16);
    assert tmp[0..0 + 16] == c;
    AesDecrypt(tmp, 0, tmp, 0, key, d);
    assert tmp[..] == d(c);
    XorFrom(out, pos, tmp, ivec, len);
    Copy(ivec, 0, tmp, 0, 16);
  }

  // With done already out and now the current vector, m bytes of rest remain to be decrypted.
  ghost predicate RemainingD(d: Block -> Block, c: seq<bv8>, n: nat, iv: Block, done: seq<bv8>, rest: seq<bv8>, m: nat, now: Block)
    requires |c| >= RoundUp(n) && |rest| >= RoundUp(m)
  {
    Decrypted(d, c, n, iv) == (done + Decrypted(d, rest, m, now).0, Decrypted(d, rest, m, now).1)
  }

  lemma RemainingDStart(d: Block -> Block, c: seq<bv8>, n: nat, iv: Block)
    requires |c| >= RoundUp(n)
    ensures RemainingD(d, c, n, iv, [], c, n, iv)
  {
    assert [] + Decrypted(d, c, n, iv).0 == Decrypted(d, c, n, iv).0;
  }

  lemma RemainingDStep(d: Block -> Block, c: seq<bv8>, n: nat, iv: Block, done: seq<bv8>, rest: seq<bv8>, m: nat, now: Block)
    requires |c| >= RoundUp(n) && |rest| >= RoundUp(m) && m >= 16
    requires RemainingD(d, c, n, iv, done, rest, m, now)
    ensures |rest[16..]| >= RoundUp(m - 16)
    ensures RemainingD(d, c, n, iv, done + XorBlock(d(rest[..16]), now), rest[16..], m - 16, rest[..16])
  {
    RoundUpStep(m);
    var p: seq<bv8> := XorBlock(d(rest[..16]), now);
    var x := Decrypted(d, rest[16..], m - 16, rest[..16]).0;
    assert done + (p + x) == (done + p) + x;
  }

  lemma RemainingDEnd(d: Block -> Block, c: seq<bv8>, n: nat, iv: Block, done: seq<bv8>, rest: seq<bv8>, m: nat, now: Block)
    requires |c| >= RoundUp(n) && |rest| >= RoundUp(m) && m < 16
    requires RemainingD(d, c, n, iv, done, rest, m, now)
    ensures Decrypted(d, c, n, iv)
         == if m == 0 then (done, now) else (done + XorBlock(d(rest[..16]), now)[..m], d(rest[..16]))
  {
    if m == 0 {
      assert done + [] == done;
    }
  }

  method DecryptStream(inp: array<bv8>, out: array<bv8>, length: nat, key: AesKey, ivec: array<bv8>, ghost d: Block -> Block)
    requires key.Ready() && IsDecryptor(d, key.Keys())
    requires ivec.Length == 16 && ivec != inp && ivec != out && RoundUp(length) <= inp.Length && length <= out.Length
    modifies out, ivec
    ensures Written(old(out[..]), out[..], 0, Decrypted(d, old(inp[..]), length, old(ivec[..])).0)
    ensures ivec[..] == Decrypted(d, old(inp[..]), length, old(ivec[..])).1
  {
    ghost var c, iv, before := inp[..], ivec[..], out[..];
    ghost var done: seq<bv8>, rest := [], c;
    var pos, len := 0, length;
    var tmp := new bv8[16];
    RemainingDStart(d, c, length, iv);
    while len >= 16
      invariant pos + len == length && 0 <= len && |done| == pos && pos <= inp.Length
      invariant rest == inp[pos..] && |rest| >= RoundUp(len)
      invariant Written(before, out[..], 0, done)
      invariant RemainingD(d, c, length, iv, done, rest, len, ivec[..])
    {
      ghost var now, p := out[..], XorBlock(d(rest[..16]), ivec[..]);
      RemainingDStep(d, c, length, iv, done, rest, len, ivec[..]);
      assert rest[..16] == inp[pos..pos + 16] && rest[16..] == inp[pos + 16..];
      DecryptWhole(tmp, inp, out, pos, key, ivec, d);
      WrittenTwice(before, now, out[..], 0, done, p);
      done, rest := done + p, rest[16..];
      pos, len := pos + 16, len - 16;
    }
    DecryptRest(tmp, inp, out, length, pos, len, key, ivec, d, before, iv, done, rest);
  }

  // What is left is less than a block.
  method DecryptRest(tmp: array<bv8>, inp: array<bv8>, out: array<bv8>, length: nat, pos: nat, len: nat, key: AesKey,
                     ivec: array<bv8>, ghost d: Block -> Block, ghost before: seq<bv8>, ghost iv: Block,
                     ghost done: seq<bv8>, ghost rest: seq<bv8>)
    requires key.Ready() && IsDecryptor(d, key.Keys()) && len < 16
    requires tmp.Length == 16 == ivec.Length && RoundUp(length) <= inp.Length && length == pos + len <= out.Length
    requires tmp != inp && tmp != out && tmp != ivec && ivec != out && ivec != inp
    requires |done| == pos <= inp.Length && rest == inp[pos..] && |rest| >= RoundUp(len) && Written(before, out[..], 0, done)
    modifies tmp, out, ivec
    ensures forall c: seq<bv8> | |c| >= RoundUp(length) && RemainingD(d, c, length, iv, done, rest, len, old(ivec[..])) ::
              Written(before, out[..], 0, Decrypted(d, c, length, iv).0) && ivec[..] == Decrypted(d, c, length, iv).1
  {
    ghost var last := ivec[..];
    if len > 0 {
      ghost var now, p := out[..], XorBlock(d(rest[..16]), ivec[..])[..len];
      assert rest[..16] == inp[pos..pos + 16];
      DecryptPartial(tmp, inp, out, pos, len, key, ivec, d);
      WrittenTwice(before, now, out[..], 0, done, p);
    }
    forall c: seq<bv8> | |c| >= RoundUp(length) && RemainingD(d, c, length, iv, done, rest, len, last)
      ensures Written(before, out[..], 0, Decrypted(d, c, length, iv).0) && ivec[..] == Decrypted(d, c, length, iv).1
    {
      RemainingDEnd(d, c, length, iv, done, rest, len, last);
    }
  }

  // The one entry point, in both directions; in and out may be the same buffer.
  method AesCbcEncrypt(inp: array<bv8>, out: array<bv8>, length: nat, key: AesKey, ivec: array<bv8>, enc: bool,
                       ghost e: Block -> Block, ghost d: Block -> Block)
    requires key.Ready() && ivec.Length == 16 && ivec != inp && ivec != out
    requires enc ==> IsEncryptor(e, key.Keys()) && length <= inp.Length && RoundUp(length) <= out.Length
    requires !enc ==> IsDecryptor(d, key.Keys()) && RoundUp(length) <= inp.Length && length <= out.Length
    modifies out, ivec
    ensures enc ==> Written(old(out[..]), out[..], 0, Encrypted(e, old(inp[..length]), old(ivec[..])).0)
    ensures enc ==> ivec[..] == Encrypted(e, old(inp[..length]), old(ivec[..])).1
    ensures !enc ==> Written(old(out[..]), out[..], 0, Decrypted(d, old(inp[..]), length, old(ivec[..])).0)
    ensures !enc ==> ivec[..] == Decrypted(d, old(inp[..]), length, old(ivec[..])).1
  {
    if enc {
      EncryptStream(inp, out, length, key, ivec, e);
    } else {
      DecryptStream(inp, out, length, key, ivec, d);
    }
  }
}
