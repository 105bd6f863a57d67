// The image of the U-Boot environment (src/host/envedit/env.c): a checksum, and NUL-terminated
// entries of the form name=value up to an empty one.
module EnvImage {
  import opened Wrappers
  import opened Folding
  import opened EnvVars

  const EQ: Byte := 61

  // ----- entries as bytes -----

  datatype Entry = Entry(name: Text, value: Text)

  function Zeros(n: nat): (z: seq<Byte>)
    ensures |z| == n && forall i | 0 <= i < n :: z[i] == 0
  {
    seq(n, i => 0)
  }

  function EntryBytes(e: Entry): seq<Byte> { e.name + [EQ] + e.value + [0] }

  function EntriesBytes(es: seq<Entry>): seq<Byte> {
    if es == [] then [] else EntriesBytes(es[..|es| - 1]) + EntryBytes(es[|es| - 1])
  }

  // ----- reading entries -----

  // Where the string at the start of s ends, or |s|; where c is first in s, or |s|.
  function Find(s: seq<Byte>, c: Byte): (n: nat)
    ensures n <= |s| && (forall i | 0 <= i < n :: s[i] != c) && (n < |s| ==> s[n] == c)
  {
    if s == [] || s[0] == c then 0 else 1 + Find(s[1..], c)
  }

  // What one string says: an assignment, unless there is no '=' or no value.
  function ParseEntry(s: seq<Byte>): seq<Entry> {
    var eq := Find(s, EQ);
    if eq == |s| || eq + 1 == |s| then [] else [Entry(s[..eq], s[eq + 1..])]
  }

  // The assignments up to an empty string, or to one without an end.
  function ParseBody(b: seq<Byte>): seq<Entry> {
    var next := Find(b, 0);
    if next == 0 || next == |b| then [] else ParseEntry(b[..next]) + ParseBody(b[next + 1..])
  }

  function Assigned(m: map<Text, Text>, es: seq<Entry>): map<Text, Text>
    decreases es
  {
    if es == [] then m else Assigned(m[es[0].name := es[0].value], es[1..])
  }

  lemma AssignedOne(m: map<Text, Text>, e: Entry)
    ensures Assigned(m, [e]) == m[e.name := e.value]
  {
    assert [e][1..] == [];
  }

  lemma {:induction false} AssignedConcat(m: map<Text, Text>, a: seq<Entry>, b: seq<Entry>)
    ensures Assigned(m, a + b) == Assigned(Assigned(m, a), b)
    decreases a
  {
    if a == [] {
      assert a + b == b;
    } else {
      AssignedConcat(m[a[0].name := a[0].value], a[1..], b);
      assert (a + b)[1..] == a[1..] + b;
    }
  }

  // ----- the round trip of entries -----

  predicate NoNul(t: Text) { 0 !in t }

  predicate Storable(e: Entry) { NoNul(e.name) && NoNul(e.value) }

  lemma {:induction false} FindIn(s: seq<Byte>, c: Byte, rest: seq<Byte>)
    requires c !in s
    ensures Find(s + [c] + rest, c) == |s|
  {
    var t := s + [c] + rest;
    if s != [] {
      assert t[1..] == s[1..] + [c] + rest;
      FindIn(s[1..], c, rest);
    }
  }

  // What reading makes of an entry: it is split at the first '=', and dropped without a value.
  function ReadBack(e: Entry): seq<Entry> { ParseEntry(e.name + [EQ] + e.value) }

  function ReadAllBack(es: seq<Entry>): seq<Entry> {
    if es == [] then [] else ReadAllBack(es[..|es| - 1]) + ReadBack(es[|es| - 1])
  }

  lemma ParseOne(e: Entry, rest: seq<Byte>)
    requires Storable(e)
    ensures ParseBody(EntryBytes(e) + rest) == ReadBack(e) + ParseBody(rest)
  {
    var s := e.name + [EQ] + e.value;
    FindIn(s, 0, rest);
    var b := s + [0] + rest;
    assert EntryBytes(e) + rest == b;
    assert b[..|s|] == s && b[|s| + 1..] == rest;
  }

  lemma Associates<T>(a: seq<T>, b: seq<T>, c: seq<T>)
    ensures a + b + c == a + (b + c)
  {}

  lemma {:induction false} ParseAll(es: seq<Entry>, rest: seq<Byte>)
    requires forall i | 0 <= i < |es| :: Storable(es[i])
    ensures ParseBody(EntriesBytes(es) + rest) == ReadAllBack(es) + ParseBody(rest)
  {
    if es == [] {
      assert EntriesBytes(es) + rest == rest;
    } else {
      var n := |es| - 1;
      var e := es[n];
      ParseAll(es[..n], EntryBytes(e) + rest);
      ParseOne(e, rest);
      Associates(EntriesBytes(es[..n]), EntryBytes(e), rest);
      Associates(ReadAllBack(es[..n]), ReadBack(e), ParseBody(rest));
    }
  }

  // Entries that come back as they are.
  predicate Plain(e: Entry) { EQ !in e.name && e.value != [] }

  lemma ReadBackPlain(e: Entry)
    ensures Plain(e) ==> ReadBack(e) == [e]
    ensures |ReadBack(e)| <= 1 && forall f | f in ReadBack(e) :: Plain(f)
    ensures !Plain(e) ==> forall f | f in ReadBack(e) :: EQ in e.name
  {
    var s := e.name + [EQ] + e.value;
    if EQ !in e.name {
      FindIn(e.name, EQ, e.value);
      assert s[..|e.name|] == e.name && s[|e.name| + 1..] == e.value;
    }
  }

  lemma {:induction false} ReadAllPlain(es: seq<Entry>)
    ensures (forall i | 0 <= i < |es| :: Plain(es[i])) ==> ReadAllBack(es) == es
    ensures forall f | f in ReadAllBack(es) :: Plain(f)
  {
    if es != [] {
      var n := |es| - 1;
      ReadAllPlain(es[..n]);
      ReadBackPlain(es[n]);
      assert es == es[..n] + [es[n]];
    }
  }

  // ----- slots and entries -----

  // The entries next_var goes through.
  function EntriesOf(vars: seq<Slot>): seq<Entry> {
    if vars == [] then []
    else
      var s := vars[|vars| - 1];
      EntriesOf(vars[..|vars| - 1]) + if s.Used? then [Entry(s.name, s.value)] else []
  }

  lemma {:induction false} AssignedEntries(vars: seq<Slot>)
    ensures Assigned(map[], EntriesOf(vars)) == MapOf(vars)
  {
    if vars != [] {
      var n := |vars| - 1;
      AssignedEntries(vars[..n]);
      if vars[n].Used? {
        AssignedConcat(map[], EntriesOf(vars[..n]), [Entry(vars[n].name, vars[n].value)]);
      } else {
        assert EntriesOf(vars) == EntriesOf(vars[..n]);
      }
    }
  }

  lemma {:induction false} EntriesFrom(vars: seq<Slot>, i: nat)
    requires i < |vars|
    ensures forall s | s in EntriesOf(vars) :: Used(s.name, s.value) in vars
    ensures vars[i].Used? ==> Entry(vars[i].name, vars[i].value) in EntriesOf(vars)
  {
    var n := |vars| - 1;
    if n > 0 {
      EntriesFrom(vars[..n], if i < n then i else 0);
      forall s | s in EntriesOf(vars[..n]) ensures Used(s.name, s.value) in vars {
        assert Used(s.name, s.value) in vars[..n];
      }
    } else {
      assert EntriesOf(vars[..n]) == [];
    }
  }

  lemma {:induction false} AssignedOnly(m: map<Text, Text>, es: seq<Entry>, name: Text)
    requires forall f | f in es :: Plain(f)
    ensures name in Assigned(m, es) ==> name in m || EQ !in name
    ensures name in Assigned(m, es) && Assigned(m, es)[name] == [] ==> name in m && m[name] == []
    decreases es
  {
    if es != [] {
      assert Plain(es[0]);
      AssignedOnly(m[es[0].name := es[0].value], es[1..], name);
    }
  }

  // An environment can be stored and read back.
  ghost predicate Keeps(m: map<Text, Text>) { forall n | n in m :: EQ !in n && m[n] != [] }

  // Names without a '=' and values that are not empty, and both without a NUL.
  ghost predicate Proper(m: map<Text, Text>) {
    Keeps(m) && forall n | n in m :: NoNul(n) && NoNul(m[n])
  }

  // Reading back what was written gives the same map exactly if no name has a '=' and no value is
  // empty.
  lemma RoundTripExactly(vars: seq<Slot>)
    requires Unique(vars)
    ensures Assigned(map[], ReadAllBack(EntriesOf(vars))) == MapOf(vars) <==> Keeps(MapOf(vars))
  {
    var es, m := EntriesOf(vars), MapOf(vars);
    AssignedEntries(vars);
    ReadAllPlain(es);
    if Keeps(m) {
      forall i | 0 <= i < |es| ensures Plain(es[i]) {
        assert es[i] in es;
        if vars != [] {
          EntriesFrom(vars, 0);
          var k :| 0 <= k < |vars| && vars[k] == Used(es[i].name, es[i].value);
          MapHas(vars, es[i].name);
        }
      }
    } else {
      var n :| n in m && (EQ in n || m[n] == []);
      AssignedOnly(map[], ReadAllBack(es), n);
    }
  }

  // ----- the checksum -----

  // env[0..3]
  function CrcBytes(c: int): seq<Byte> {
    [c % 256, c / 256 % 256, c / 256 / 256 % 256, c / 256 / 256 / 256 % 256]
  }

  function CrcOf(b: seq<Byte>): int
    requires |b| == 4
  {
    (b[0] as int) + (b[1] as int) * 256 + (b[2] as int) * 65536 + (b[3] as int) * 16777216
  }

  lemma CrcRoundTrip(c: int)
    requires 0 <= c < 0x1_0000_0000
    ensures CrcOf(CrcBytes(c)) == c
  {}

  // crc32, which may be any function, as an unsigned number of 32 bits
  function Checksum(crc: seq<Byte> -> int, b: seq<Byte>): (c: int)
    ensures 0 <= c < 0x1_0000_0000
  {
    crc(b) % 0x1_0000_0000
  }

  // The whole image, for entries that fit.
  function Image(es: seq<Entry>, size: nat, crc: seq<Byte> -> int): seq<Byte>
    requires |EntriesBytes(es)| + 5 <= size
  {
    var body := EntriesBytes(es) + Zeros(size - 4 - |EntriesBytes(es)|);
    CrcBytes(Checksum(crc, body)) + body
  }

  lemma ParseZeros(n: nat)
    ensures ParseBody(Zeros(n)) == []
  {}

  // What was written passes the checksum, and holds the same map exactly if no name has a '=' and no
  // value is empty.
  lemma ImageRoundTrip(vars: seq<Slot>, size: nat, crc: seq<Byte> -> int)
    requires Unique(vars) && |EntriesBytes(EntriesOf(vars))| + 5 <= size
    requires forall i | 0 <= i < |EntriesOf(vars)| :: Storable(EntriesOf(vars)[i])
    ensures var img := Image(EntriesOf(vars), size, crc);
            && |img| == size && CrcOf(img[..4]) == Checksum(crc, img[4..])
            && (Assigned(map[], ParseBody(img[4..])) == MapOf(vars) <==> Keeps(MapOf(vars)))
  {
    var es := EntriesOf(vars);
    var zeros := Zeros(size - 4 - |EntriesBytes(es)|);
    var body := EntriesBytes(es) + zeros;
    var img := Image(es, size, crc);
    CrcRoundTrip(Checksum(crc, body));
    assert img[..4] == CrcBytes(Checksum(crc, body)) && img[4..] == body;
    ParseAll(es, zeros);
    ParseZeros(|zeros|);
    assert ReadAllBack(es) + [] == ReadAllBack(es);
    RoundTripExactly(vars);
  }

  // The image byte by byte: the checksum from its low end, the entries one behind the other as name, '=',
  // value and NUL, and NULs up to the end.
  lemma ImageBytes(es: seq<Entry>, e: Entry, size: nat, crc: seq<Byte> -> int)
    requires |EntriesBytes(es + [e])| + 5 <= size
    ensures var img, n, k := Image(es + [e], size, crc), |EntriesBytes(es)|, |e.name|;
            && |img| == size && n + k + 6 + |e.value| <= size
            && img[4..4 + n] == EntriesBytes(es)
            && img[4 + n..4 + n + k] == e.name && img[4 + n + k] == 61
            && img[4 + n + k + 1..4 + n + k + 1 + |e.value|] == e.value
            && (forall i | 4 + n + k + 1 + |e.value| <= i < size :: img[i] == 0)
            && img[0] as int + 256 * (img[1] as int) + 65536 * (img[2] as int) + 16777216 * (img[3] as int)
               == crc(img[4..]) % 0x1_0000_0000
  {
    var all := es + [e];
    assert all[..|all| - 1] == es;
    assert EntriesBytes(all) == EntriesBytes(es) + EntryBytes(e);
    var body := EntriesBytes(all) + Zeros(size - 4 - |EntriesBytes(all)|);
    CrcRoundTrip(Checksum(crc, body));
    ImageParts(Image(all, size, crc), CrcBytes(Checksum(crc, body)), body, EntriesBytes(es), e);
  }

  lemma ImageParts(img: seq<Byte>, sum: seq<Byte>, body: seq<Byte>, before: seq<Byte>, e: Entry)
    requires |sum| == 4 && img == sum + body && before + EntryBytes(e) <= body
    requires forall i | |before + EntryBytes(e)| <= i < |body| :: body[i] == 0
    ensures var n, k := |before|, |e.name|;
            && n + k + 6 + |e.value| <= |img| && img[..4] == sum && img[4..] == body && img[4..4 + n] == before
            && img[4 + n..4 + n + k] == e.name && img[4 + n + k] == 61
            && img[4 + n + k + 1..4 + n + k + 1 + |e.value|] == e.value
            && forall i | 4 + n + k + 1 + |e.value| <= i < |img| :: img[i] == 0
  {
    var t := before + EntryBytes(e);
    assert body[..|t|] == t;
    assert forall i | 0 <= i < |t| :: img[4 + i] == t[i];
  }

  // ----- the editor -----

  datatype Outcome = Done | TooSmall | CrcError | TooBig | Invalid

  // A file as it comes to be in the buffer: cut off, or filled up with zeroes.
  function Fitted(file: seq<Byte>, size: nat): (r: seq<Byte>)
    ensures |r| == size
  {
    if |file| >= size then file[..size] else file + Zeros(size - |file|)
  }

  class Env {
    const size: nat               // env_size
    const env: array<Byte>        // one byte more, to make sure that parsing stops
    const crc: seq<Byte> -> int   // crc32
    const store: Store

    ghost predicate Valid()
      reads this, env, store
    {
      size >= 6 && env.Length == size + 1 && env[size] == 0 && store.Valid()
    }

    constructor (size: nat, crc: seq<Byte> -> int)
      requires size >= 6
      ensures Valid() && this.size == size && this.crc == crc && store.Contents() == map[] && fresh(env) && fresh(store)
    {
      this.size, this.crc := size, crc;
      env := new Byte[size + 1](_ => 0);
      store := new Store();
    }

    // read_env
    method ReadEnv(file: seq<Byte>, warnCrc: bool) returns (r: Outcome)
      requires Valid()
      modifies env
      ensures Valid() && r in {Done, TooSmall, CrcError}
      ensures r == TooSmall <==> |file| < 6
      ensures r != TooSmall ==> env[..size] == Fitted(file, size)
      ensures r == CrcError <==> |file| >= 6 && !warnCrc && CrcOf(Fitted(file, size)[..4]) != Checksum(crc, Fitted(file, size)[4..])
    {
      var got := if |file| < size then |file| else size;
      for i := 0 to got
        invariant env[size] == 0 && forall j | 0 <= j < i :: env[j] == file[j]
      {
        env[i] := file[i];
      }
      if got < 6 {
        return TooSmall;
      }
      for i := got to size
        invariant env[size] == 0 && (forall j | 0 <= j < got :: env[j] == file[j]) && forall j | got <= j < i :: env[j] == 0
      {
        env[i] := 0;
      }
      assert env[..size] == Fitted(file, size);
      assert env[..4] == env[..size][..4] && env[4..size] == env[..size][4..];
      var orig := CrcOf(env[..4]);
      var c := Checksum(crc, env[4..size]);
      if c != orig && !warnCrc {
        return CrcError;
      }
      return Done;
    }

    // strchr: the first c in the string at p, or its end
    function StrChr(p: nat, c: Byte): (n: nat)
      requires env.Length == size + 1 && env[size] == 0 && p <= size
      reads env
      ensures p <= n <= size && (forall i | p <= i < n :: env[i] != c && env[i] != 0)
      ensures env[n] == c || env[n] == 0
      decreases size - p
    {
      if env[p] == c || env[p] == 0 then p else StrChr(p + 1, c)
    }

    // parse_env: the assignments are made that the body of the image spells out
    method ParseEnv()
      requires Valid()
      modifies env, store
      ensures Valid() && store.Contents() == Assigned(old(store.Contents()), ParseBody(old(env[4..size])))
    {
      ghost var was, m := env[..], store.Contents();
      ghost var goal := Assigned(m, ParseBody(env[4..size]));
      assert was[4..size] == env[4..size];
      ghost var end;
      m, end := ParseStrings(was, m, goal);
      assert Unfold(0);
    }

    // The loop of parse_env.
    method ParseStrings(ghost was: seq<Byte>, ghost m: map<Text, Text>, ghost goal: map<Text, Text>)
      returns (ghost m': map<Text, Text>, ghost end: nat)
      requires size >= 6 && Parsing(4, was, m) && LeadsTo(m, was, 4, size, goal)
      modifies env, store
      ensures Parsing(end, was, m') && m' == goal
    {
      var p := 4;
      m', end := m, 4;
      while p != size
        invariant 4 <= p <= size && Parsing(p, was, m') && LeadsTo(m', was, p, size, goal)
        decreases size - p
      {
        var q;
        q, m' := ParseNext(p, was, m', goal);
        if q == p {
          end := p;
          return;
        }
        p := q;
      }
      AtEnd(m', was, size, goal);
      end := size;
    }

    // The buffer from p on is as it was, and the variables are as in m; folded up.
    ghost predicate Parsing(p: nat, was: seq<Byte>, m: map<Text, Text>)
      reads this, env, store
    {
      forall k {:trigger Unfold(k)} :: Unfold(k) ==> ParsingNow(p, was, m)
    }

    ghost predicate ParsingNow(p: nat, was: seq<Byte>, m: map<Text, Text>)
      reads this, env, store
    {
      && Valid() && 4 <= p <= size && |was| == size + 1 && (forall i | p <= i <= size :: env[i] == was[i])
      && store.Contents() == m
    }

    // The next string; it may be the last.
    method ParseNext(p: nat, ghost was: seq<Byte>, ghost m: map<Text, Text>, ghost goal: map<Text, Text>)
      returns (q: nat, ghost m': map<Text, Text>)
      requires Parsing(p, was, m) && LeadsTo(m, was, p, size, goal) && p < size
      modifies env, store
      ensures p <= q <= size && Parsing(q, was, m')
      ensures if q == p then m' == goal else LeadsTo(m', was, q, size, goal)
    {
      q, m' := NextString(p, was, m, goal);
      if q != p {
        ParseString(p, q, was, m, m');
      }
    }

    // Where to go on behind the string at p, and what it makes of the variables; p itself at the end.
    method NextString(p: nat, ghost was: seq<Byte>, ghost m: map<Text, Text>, ghost goal: map<Text, Text>)
      returns (q: nat, ghost m': map<Text, Text>)
      requires Parsing(p, was, m) && LeadsTo(m, was, p, size, goal) && p < size
      ensures p <= q <= size && Parsing(p, was, m)
      ensures if q == p then m' == m == goal
              else EndsAt(was, p, q, size) && Makes(m, was, p, q, m') && LeadsTo(m', was, q, size, goal)
    {
      assert Unfold(0);
      var next := StrChr(p, 0);
      if next == p || next == size {
        q := p;
        LastString(m, was, p, size, next, goal);
        m' := m;
      } else {
        q := next + 1;
        m' := ParseStep(m, was, p, size, q, goal);
      }
    }

    // One string of parse_env, from p to the NUL before q.
    method ParseString(p: nat, q: nat, ghost was: seq<Byte>, ghost m: map<Text, Text>, ghost m': map<Text, Text>)
      requires Parsing(p, was, m) && EndsAt(was, p, q, size) && Makes(m, was, p, q, m')
      modifies env, store
      ensures Parsing(q, was, m')
    {
      assert Unfold(0) && Look(0);
      var next := q - 1;
      var eq := StrChr(p, EQ);
      EntryAt(was, p, next, eq);
      if env[eq] != EQ {
        return;
      }
      if next == eq + 1 {
        return;
      }
      var name, value := env[p..eq], env[eq + 1..next];
      SameBytes(env[..], was, p, eq);
      SameBytes(env[..], was, eq + 1, next);
      assert name == env[..][p..eq] && value == env[..][eq + 1..next];
      env[eq] := 0;
      AssignedOne(store.Contents(), Entry(name, value));
      store.Set(name, value);
    }

    // write_env, with what qsort makes of the variables
    method WriteEnv(sorted: seq<Slot>) returns (r: Outcome, file: seq<Byte>)
      requires Valid() && SortOf(sorted, store.vars)
      modifies env, store
      ensures Valid() && store.Contents() == old(store.Contents()) && r in {Done, TooBig}
      ensures r == Done <==> |EntriesBytes(EntriesOf(sorted))| + 5 <= size
      ensures r == Done ==> file == Image(EntriesOf(sorted), size, crc)
    {
      Clear();
      store.Reset(sorted);
      assert BytesUpTo(sorted, 0) == [] && env[4..4] == [];
      var p := 4;
      r := Done;
      var more := true;
      while more
        invariant Writing(p, sorted)
        invariant more || store.curr == |sorted|
        decreases more, |sorted| - store.curr
      {
        r, more, p := PutNext(p, sorted);
        if r == TooBig {
          return TooBig, [];
        }
      }
      assert sorted[..|sorted|] == sorted;
      PutCrc(EntriesOf(sorted), p);
      return Done, env[..size];
    }

    // These bytes are in the buffer, up to p, and nothing else; this is left folded up until an Unfold
    // is in sight.
    ghost predicate Has(p: nat, bytes: seq<Byte>)
      reads env
    {
      forall k {:trigger Unfold(k)} :: Unfold(k) ==>
        && env.Length == size + 1 && p == 4 + |bytes| < size && env[4..p] == bytes && forall j | p <= j <= size :: env[j] == 0
    }

    // The entries of the slots so far are in the buffer.
    ghost predicate Writing(p: nat, sorted: seq<Slot>)
      reads this, env, store
    {
      && Valid() && store.vars == sorted && store.curr <= |sorted| && Has(p, BytesUpTo(sorted, store.curr))
    }

    // The next entry, if there is one and it fits.
    method PutNext(p: nat, ghost sorted: seq<Slot>) returns (r: Outcome, more: bool, q: nat)
      requires Writing(p, sorted)
      modifies env, store`curr
      ensures store.vars == sorted && r in {Done, TooBig}
      ensures r == Done ==> Writing(q, sorted) && (if more then old(store.curr) < store.curr else store.curr == |sorted|)
      ensures r == TooBig ==> Valid() && |EntriesBytes(EntriesOf(sorted))| + 5 > size
    {
      ghost var start := store.curr;
      var v := store.Next();
      ghost var k := store.curr - 1;
      if v.None? {
        FreeRun(sorted, start, |sorted|);
        return Done, false, p;
      }
      var name, value := v.value.0, v.value.1;
      NextEntry(sorted, start, k);
      TooLong(p, sorted, start, k);
      if p + |name| + |value| + 3 > size {
        return TooBig, false, p;
      }
      q := PutEntry(p, name, value, BytesUpTo(sorted, start));
      r, more := Done, true;
    }

    lemma TooLong(p: nat, sorted: seq<Slot>, start: nat, k: nat)
      requires start <= k < |sorted| && sorted[k].Used? && Has(p, BytesUpTo(sorted, start))
      requires BytesUpTo(sorted, k + 1) == BytesUpTo(sorted, start) + EntryBytes(Entry(sorted[k].name, sorted[k].value))
      ensures p + |sorted[k].name| + |sorted[k].value| + 3 > size ==> |EntriesBytes(EntriesOf(sorted))| + 5 > size
    {
      assert Unfold(0);
      BytesGrow(sorted, k + 1);
    }

    method PutEntry(p: nat, name: Text, value: Text, ghost bytes: seq<Byte>) returns (q: nat)
      requires Valid() && Has(p, bytes) && p + |name| + |value| + 3 <= size
      modifies env
      ensures Valid() && Has(q, bytes + EntryBytes(Entry(name, value)))
    {
      assert Unfold(0);
      var text := name + [EQ] + value;
      Print(p, text);
      q := p + |name| + |value| + 2;
      assert env[4..p] == env[..p][4..];
      assert env[4..q] == env[4..p] + (env[p..p + |text|] + [env[p + |text|]]);
    }

    method Clear()
      requires Valid()
      modifies env
      ensures Valid() && forall j | 0 <= j <= size :: env[j] == 0
    {
      for i := 0 to size
        invariant env[size] == 0 && forall j | 0 <= j < i :: env[j] == 0
      {
        env[i] := 0;
      }
    }

    // sprintf
    method Print(p: nat, s: Text)
      requires Valid() && 4 <= p && p + |s| < size
      modifies env
      ensures Valid() && env[..p] == old(env[..p]) && env[p..p + |s|] == s && env[p + |s|] == 0
      ensures forall j | p + |s| < j <= size :: env[j] == old(env[j])
    {
      for i := 0 to |s|
        invariant env[..p] == old(env[..p]) && forall j | 0 <= j < i :: env[p + j] == s[j]
        invariant forall j | p + i <= j <= size :: env[j] == old(env[j])
      {
        env[p + i] := s[i];
      }
      env[p + |s|] := 0;
    }

    // the checksum of the finished body
    method PutCrc(ghost es: seq<Entry>, ghost p: nat)
      requires Valid() && Has(p, EntriesBytes(es))
      modifies env
      ensures Valid() && |EntriesBytes(es)| + 5 <= size && env[..size] == Image(es, size, crc)
    {
      assert Unfold(0);
      assert env[4..size] == EntriesBytes(es) + Zeros(size - p);
      ghost var body := env[4..size];
      var c := Checksum(crc, env[4..size]);
      var b := CrcBytes(c);
      env[0], env[1], env[2], env[3] := b[0], b[1], b[2], b[3];
      assert env[..size] == env[..4] + env[4..size];
      assert env[4..size] == body && env[..4] == b;
    }

    // set_env: an assignment without a value deletes the variable
    method SetEnv(assignment: Text) returns (r: Outcome)
      requires Valid() && NoNul(assignment)
      modifies store
      ensures Valid() && r in {Done, Invalid} && (r == Invalid <==> EQ !in assignment)
      ensures store.Contents() == AfterSet(old(store.Contents()), assignment)
    {
      var eq := Find(assignment, EQ);
      if eq == |assignment| {
        return Invalid;
      }
      if eq + 1 < |assignment| {
        store.Set(assignment[..eq], assignment[eq + 1..]);
      } else {
        store.Delete(assignment[..eq]);
      }
      return Done;
    }
  }

  // What an assignment does.
  function AfterSet(m: map<Text, Text>, assignment: Text): map<Text, Text> {
    var eq := Find(assignment, EQ);
    if eq == |assignment| then m
    else if eq + 1 == |assignment| then m - {assignment[..eq]}
    else m[assignment[..eq] := assignment[eq + 1..]]
  }

  function BytesUpTo(vars: seq<Slot>, k: nat): seq<Byte> {
    if k <= |vars| then EntriesBytes(EntriesOf(vars[..k])) else []
  }

  // ----- strings in the buffer -----

  lemma {:induction false} FindAt(s: seq<Byte>, c: Byte, n: nat)
    requires n <= |s| && (forall i | 0 <= i < n :: s[i] != c) && (n < |s| ==> s[n] == c)
    ensures Find(s, c) == n
  {
    if n > 0 {
      FindAt(s[1..], c, n - 1);
    }
  }

  lemma StringAt(was: seq<Byte>, p: nat, size: nat, next: nat)
    requires p <= next <= size < |was| && (forall i | p <= i < next :: was[i] != 0) && was[next] == 0
    ensures ParseBody(was[p..size])
         == if next == p || next == size then [] else ParseEntry(was[p..next]) + ParseBody(was[next + 1..size])
  {
    var b := was[p..size];
    FindAt(b, 0, next - p);
    if next < size {
      assert b[..next - p] == was[p..next] && b[next - p + 1..] == was[next + 1..size];
    }
  }

  // Parsing from p on leads from m to goal; this is left folded up until a Look is in sight.
  ghost predicate LeadsTo(m: map<Text, Text>, was: seq<Byte>, p: nat, size: nat, goal: map<Text, Text>) {
    forall k {:trigger Look(k)} :: Look(k) ==>
      p <= size < |was| && Assigned(m, ParseBody(was[p..size])) == goal
  }

  lemma AtEnd(m: map<Text, Text>, was: seq<Byte>, size: nat, goal: map<Text, Text>)
    requires LeadsTo(m, was, size, size, goal)
    ensures m == goal
  {
    assert Look(0);
  }

  // The string at p ends right before q; folded up like the other.
  ghost predicate EndsAt(was: seq<Byte>, p: nat, q: nat, size: nat) {
    forall k {:trigger Look(k)} :: Look(k) ==>
      p + 1 < q <= size < |was| && was[q - 1] == 0 && forall i | p <= i < q - 1 :: was[i] != 0
  }

  // The string at p, which ends before q, makes m' of m; folded up like the other.
  ghost predicate Makes(m: map<Text, Text>, was: seq<Byte>, p: nat, q: nat, m': map<Text, Text>) {
    forall k {:trigger Look(k)} :: Look(k) ==>
      p < q <= |was| && m' == Assigned(m, ParseEntry(was[p..q - 1]))
  }

  lemma ParseStep(m: map<Text, Text>, was: seq<Byte>, p: nat, size: nat, q: nat, goal: map<Text, Text>)
    returns (m': map<Text, Text>)
    requires p + 1 < q <= size < |was| && (forall i | p <= i < q - 1 :: was[i] != 0) && was[q - 1] == 0
    requires LeadsTo(m, was, p, size, goal)
    ensures EndsAt(was, p, q, size) && Makes(m, was, p, q, m') && LeadsTo(m', was, q, size, goal)
  {
    assert Look(0);
    var s, rest := was[p..q - 1], was[q..size];
    StringBefore(was, p, size, q, s, rest);
    m' := Assigned(m, ParseEntry(s));
    AssignedConcat(m, ParseEntry(s), ParseBody(rest));
  }

  lemma StringBefore(was: seq<Byte>, p: nat, size: nat, q: nat, s: seq<Byte>, rest: seq<Byte>)
    requires p + 1 < q <= size < |was| && (forall i | p <= i < q - 1 :: was[i] != 0) && was[q - 1] == 0
    requires s == was[p..q - 1] && rest == was[q..size]
    ensures ParseBody(was[p..size]) == ParseEntry(s) + ParseBody(rest)
  {
    var next := q - 1;
    StringAt(was, p, size, next);
    assert was[next + 1..size] == rest;
  }

  lemma LastString(m: map<Text, Text>, was: seq<Byte>, p: nat, size: nat, next: nat, goal: map<Text, Text>)
    requires p <= next <= size < |was| && (forall i | p <= i < next :: was[i] != 0) && was[next] == 0
    requires LeadsTo(m, was, p, size, goal) && (next == p || next == size)
    ensures m == goal
  {
    assert Look(0);
    StringAt(was, p, size, next);
  }

  lemma SameBytes(s: seq<Byte>, t: seq<Byte>, a: nat, b: nat)
    requires a <= b <= |s| == |t| && forall i | a <= i < b :: s[i] == t[i]
    ensures s[a..b] == t[a..b]
  {}

  lemma EntryAt(was: seq<Byte>, p: nat, next: nat, eq: nat)
    requires p <= next < |was| && was[next] == 0 && (forall i | p <= i < next :: was[i] != 0)
    requires p <= eq < |was| && (forall i | p <= i < eq :: was[i] != EQ && was[i] != 0) && (was[eq] == EQ || was[eq] == 0)
    ensures eq <= next && (was[eq] == EQ <==> eq < next)
    ensures ParseEntry(was[p..next])
         == if was[eq] != EQ || eq + 1 == next then [] else [Entry(was[p..eq], was[eq + 1..next])]
  {
    var s := was[p..next];
    FindAt(s, EQ, eq - p);
    if eq < next {
      assert s[..eq - p] == was[p..eq] && s[eq - p + 1..] == was[eq + 1..next];
    }
  }

  lemma {:induction false} FreeRun(vars: seq<Slot>, a: nat, b: nat)
    requires a <= b <= |vars| && forall i | a <= i < b :: vars[i].Free?
    ensures EntriesOf(vars[..b]) == EntriesOf(vars[..a])
    decreases b
  {
    if a < b {
      FreeRun(vars, a, b - 1);
      assert vars[..b][..b - 1] == vars[..b - 1];
    }
  }

  lemma UsedNext(vars: seq<Slot>, k: nat)
    requires k < |vars| && vars[k].Used?
    ensures EntriesOf(vars[..k + 1]) == EntriesOf(vars[..k]) + [Entry(vars[k].name, vars[k].value)]
    ensures EntriesBytes(EntriesOf(vars[..k + 1])) == EntriesBytes(EntriesOf(vars[..k])) + EntryBytes(Entry(vars[k].name, vars[k].value))
  {
    assert vars[..k + 1][..k] == vars[..k];
    var es, e := EntriesOf(vars[..k]), Entry(vars[k].name, vars[k].value);
    assert (es + [e])[..|es|] == es;
  }

  lemma NextEntry(vars: seq<Slot>, start: nat, k: nat)
    requires start <= k < |vars| && vars[k].Used? && forall i | start <= i < k :: vars[i].Free?
    ensures BytesUpTo(vars, k + 1) == BytesUpTo(vars, start) + EntryBytes(Entry(vars[k].name, vars[k].value))
  {
    FreeRun(vars, start, k);
    UsedNext(vars, k);
  }

  lemma {:induction false} BytesGrow(vars: seq<Slot>, n: nat)
    requires n <= |vars|
    ensures |EntriesBytes(EntriesOf(vars[..n]))| <= |EntriesBytes(EntriesOf(vars))|
    decreases |vars| - n
  {
    if n < |vars| {
      BytesGrow(vars, n + 1);
      if vars[n].Used? {
        UsedNext(vars, n);
      } else {
        FreeRun(vars, n, n + 1);
      }
    } else {
      assert vars[..n] == vars;
    }
  }
}
