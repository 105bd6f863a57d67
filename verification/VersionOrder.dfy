// The order of package versions (src/host/opkg-utils/opkg-compare-versions.c).
module VersionOrder {
  import opened Wrappers

  // ----- characters -----

  predicate IsDigit(c: char) { '0' <= c <= '9' }
  predicate IsAlpha(c: char) { 'a' <= c <= 'z' || 'A' <= c <= 'Z' }

  // ASCII text without the terminator of a C string.
  predicate Ascii(s: string) { forall i | 0 <= i < |s| :: 0 < s[i] as int < 128 }

  // The rank of a character outside numbers: letters come before all others.
  function Weight(c: char): int { if IsAlpha(c) then c as int else c as int + 256 }

  // How far the text goes before the first digit, and how far digits go.
  function Prefix(s: string): (n: nat)
    ensures n <= |s| && (forall i | 0 <= i < n :: !IsDigit(s[i])) && (n < |s| ==> IsDigit(s[n]))
  {
    if s == "" || IsDigit(s[0]) then 0 else 1 + Prefix(s[1..])
  }

  function Digits(s: string): (n: nat)
    ensures n <= |s| && (forall i | 0 <= i < n :: IsDigit(s[i])) && (n < |s| ==> !IsDigit(s[n]))
  {
    if s == "" || !IsDigit(s[0]) then 0 else 1 + Digits(s[1..])
  }

  // ----- numbers -----

  const LONG_MAX := 0x7fff_ffff_ffff_ffff

  function Decimal(s: string): nat
    requires forall i | 0 <= i < |s| :: IsDigit(s[i])
  {
    if s == "" then 0
    else
      assert IsDigit(s[|s| - 1]);
      Decimal(s[..|s| - 1]) * 10 + (s[|s| - 1] as int - '0' as int)
  }

  // strtol of digits, which does not go beyond the range of a long; no digits at all count as zero
  function Number(s: string): nat {
    var d := Decimal(s[..Digits(s)]);
    if d > LONG_MAX then LONG_MAX else d
  }

  // A long as an int.
  function Wrap32(x: int): int {
    var m := x % 0x1_0000_0000;
    if m >= 0x8000_0000 then m - 0x1_0000_0000 else m
  }

  // ----- comparison, round by round -----

  // The first difference between texts without digits; an end comes before everything.
  function ComparePrefixes(a: string, b: string): int {
    var v, r := if a == "" then 0 else Weight(a[0]), if b == "" then 0 else Weight(b[0]);
    if a == "" && b == "" then 0
    else if v != r then v - r
    else ComparePrefixes(if a == "" then a else a[1..], if b == "" then b else b[1..])
  }

  // strchr(".-", c), for which the terminator is in the string too
  predicate IsSeparator(s: string) { s == "" || s[0] == '.' || s[0] == '-' }

  // What is left after a text without digits and a number.
  function Rest(s: string): (r: string)
    ensures |r| <= |s| && (s != "" ==> |r| < |s|)
    ensures Ascii(s) ==> Ascii(r)
  {
    var t := s[Prefix(s)..];
    t[Digits(t)..]
  }

  // The text and the number a string starts with.
  function TextOf(s: string): (t: string)
    ensures Ascii(s) ==> Ascii(t)
  {
    s[..Prefix(s)]
  }

  function NumberOf(s: string): nat { Number(s[Prefix(s)..]) }

  // The difference in one round.
  function Round(a: string, b: string): int {
    var c := ComparePrefixes(TextOf(a), TextOf(b));
    if c != 0 then c
    else
      var v, r := NumberOf(a), NumberOf(b);
      if v != r then Wrap32(v - r) else 0
  }

  // Whether a round decides.
  predicate Decides(a: string, b: string) {
    ComparePrefixes(TextOf(a), TextOf(b)) != 0 || NumberOf(a) != NumberOf(b)
  }

  function VerRev(a: string, b: string): int {
    if Decides(a, b) then Round(a, b)
    else
      var v, r := Rest(a), Rest(b);
      if IsSeparator(v) && !IsSeparator(r) then -1
      else if !IsSeparator(v) && IsSeparator(r) then 1
      else if v == "" && r == "" then 0
      else if v == "" then -1
      else if r == "" then 1
      else VerRev(v, r)
  }

  // verrevcmp: a missing string counts as empty
  method VerRevCmp(val: Option<string>, ref: Option<string>) returns (d: int)
    requires (val.Some? ==> Ascii(val.value)) && (ref.Some? ==> Ascii(ref.value))
    ensures d == VerRev(if val.Some? then val.value else "", if ref.Some? then ref.value else "")
  {
    var v := if val.Some? then val.value else "";
    var r := if ref.Some? then ref.value else "";
    ghost var a, b := v, r;
    while true
      invariant Ascii(v) && Ascii(r) && VerRev(a, b) == VerRev(v, r)
      decreases |v|
    {
      ghost var v0, r0 := v, r;
      var decided;
      decided, d, v, r := CompareRound(v, r);
      if decided {
        return;
      }
      var vsep, rsep := IsSeparator(v), IsSeparator(r);
      if vsep && !rsep {
        return -1;
      }
      if !vsep && rsep {
        return 1;
      }
      if v == "" && r == "" {
        return 0;
      }
      if v == "" {
        return -1;
      }
      if r == "" {
        return 1;
      }
    }
  }

  // The text and the number of one round.
  method CompareRound(v: string, r: string) returns (decided: bool, d: int, v': string, r': string)
    requires Ascii(v) && Ascii(r)
    ensures decided <==> Decides(v, r)
    ensures decided ==> d == Round(v, r)
    ensures !decided ==> v' == Rest(v) && r' == Rest(r)
  {
    decided, v', r' := true, v, r;
    var vp := SkipText(v);
    var rp := SkipText(r);
    d := CompareText(v[..vp], r[..rp]);
    if d != 0 {
      return;
    }
    v', r' := v[vp..], r[rp..];
    var vn, vd := StrToL(v');
    var rn, rd := StrToL(r');
    if vn != rn {
      var diff := (vn as int) - (rn as int);
      d := Wrap32(diff);
      return;
    }
    decided, v', r' := false, v'[vd..], r'[rd..];
  }

  method SkipText(s: string) returns (n: nat)
    ensures n == Prefix(s)
  {
    n := 0;
    while n < |s| && !IsDigit(s[n])
      invariant n <= |s| && n + Prefix(s[n..]) == Prefix(s)
    {
      assert s[n..][1..] == s[n + 1..];
      n := n + 1;
    }
  }

  method CompareText(a: string, b: string) returns (c: int)
    ensures c == ComparePrefixes(a, b)
  {
    var i, j := 0, 0;
    while true
      invariant 0 <= i <= |a| && 0 <= j <= |b| && ComparePrefixes(a[i..], b[j..]) == ComparePrefixes(a, b)
      decreases |a| - i + |b| - j
    {
      if i == |a| && j == |b| {
        return 0;
      }
      var v, r := 0, 0;
      assert i < |a| ==> a[i..][1..] == a[i + 1..];
      assert j < |b| ==> b[j..][1..] == b[j + 1..];
      if i < |a| {
        v := Weight(a[i]);
        i := i + 1;
      }
      if j < |b| {
        r := Weight(b[j]);
        j := j + 1;
      }
      if v != r {
        return v - r;
      }
    }
  }

  method StrToL(s: string) returns (n: nat, end: nat)
    ensures end == Digits(s) && n == Number(s)
  {
    end := 0;
    var d := 0;
    while end < |s| && IsDigit(s[end])
      invariant end <= |s| && (forall i | 0 <= i < end :: IsDigit(s[i])) && d == Decimal(s[..end])
      invariant end + Digits(s[end..]) == Digits(s)
    {
      assert s[end..][1..] == s[end + 1..] && s[..end + 1][..end] == s[..end];
      d := d * 10 + (s[end] as int - '0' as int);
      end := end + 1;
    }
    n := if d > LONG_MAX then LONG_MAX else d;
  }

  // ----- the order it stands for -----

  // Each round as numbers: the ranks of the text, a zero, the number, and whether then comes the end,
  // a separator, or something else.
  function Weights(s: string): seq<int> { if s == "" then [] else [Weight(s[0])] + Weights(s[1..]) }

  function Class(s: string): int { if s == "" then 0 else if IsSeparator(s) then 1 else 2 }

  function Joined(text: string, number: int, cls: int, more: seq<int>): seq<int> {
    Weights(text) + [0] + ([number] + ([cls] + more))
  }

  function Key(s: string): seq<int>
    decreases |s|, 1
  {
    Joined(TextOf(s), NumberOf(s), Class(Rest(s)), More(s))
  }

  function More(s: string): seq<int>
    decreases |s|, 0
  {
    if Rest(s) == "" then [] else Key(Rest(s))
  }

  function Sign(x: int): int { if x < 0 then -1 else if x > 0 then 1 else 0 }

  // Lexicographic comparison.
  function Lex(a: seq<int>, b: seq<int>): int {
    if a == [] && b == [] then 0
    else if a == [] then -1
    else if b == [] then 1
    else if a[0] != b[0] then Sign(a[0] - b[0])
    else Lex(a[1..], b[1..])
  }

  lemma {:induction false} LexCommon(u: seq<int>, a: seq<int>, b: seq<int>)
    ensures Lex(u + a, u + b) == Lex(a, b)
  {
    if u == [] {
      assert u + a == a && u + b == b;
    } else {
      LexCommon(u[1..], a, b);
      assert (u + a)[1..] == u[1..] + a && (u + b)[1..] == u[1..] + b;
    }
  }

  // Texts, followed by a zero, are compared by their ranks.
  lemma {:induction false} LexPrefixes(a: string, b: string, x: seq<int>, y: seq<int>)
    requires Ascii(a) && Ascii(b)
    ensures var c := ComparePrefixes(a, b);
            Lex(Weights(a) + [0] + x, Weights(b) + [0] + y) == if c != 0 then Sign(c) else Lex(x, y)
    decreases |a| + |b|
  {
    var u, w := Weights(a) + [0] + x, Weights(b) + [0] + y;
    if a == "" && b == "" {
      assert u == [0] + x && w == [0] + y;
      LexCommon([0], x, y);
    } else if a != "" && b != "" && Weight(a[0]) == Weight(b[0]) {
      LexPrefixes(a[1..], b[1..], x, y);
      assert u == [Weight(a[0])] + (Weights(a[1..]) + [0] + x);
      assert w == [Weight(b[0])] + (Weights(b[1..]) + [0] + y);
    } else {
      assert u[0] == (if a == "" then 0 else Weight(a[0])) && w[0] == if b == "" then 0 else Weight(b[0]);
    }
  }

  lemma LexHead(p: int, q: int, a: seq<int>, b: seq<int>)
    ensures Lex([p] + a, [q] + b) == if p != q then Sign(p - q) else Lex(a, b)
  {
    assert ([p] + a)[1..] == a && ([q] + b)[1..] == b;
  }

  // One round of two keys.
  lemma LexRound(a: string, b: string, v: int, r: int, c: int, d: int, x: seq<int>, y: seq<int>)
    requires Ascii(a) && Ascii(b)
    ensures Lex(Joined(a, v, c, x), Joined(b, r, d, y))
         == if ComparePrefixes(a, b) != 0 then Sign(ComparePrefixes(a, b))
            else if v != r then Sign(v - r)
            else if c != d then Sign(c - d)
            else Lex(x, y)
  {
    LexPrefixes(a, b, [v] + ([c] + x), [r] + ([d] + y));
    LexHead(v, r, [c] + x, [d] + y);
    LexHead(c, d, x, y);
  }

  lemma LexKeys(a: string, b: string)
    requires Ascii(a) && Ascii(b)
    ensures Lex(Key(a), Key(b))
         == if ComparePrefixes(TextOf(a), TextOf(b)) != 0 then Sign(ComparePrefixes(TextOf(a), TextOf(b)))
            else if NumberOf(a) != NumberOf(b) then Sign(NumberOf(a) - NumberOf(b))
            else if Class(Rest(a)) != Class(Rest(b)) then Sign(Class(Rest(a)) - Class(Rest(b)))
            else Lex(More(a), More(b))
  {
    LexRound(TextOf(a), TextOf(b), NumberOf(a), NumberOf(b), Class(Rest(a)), Class(Rest(b)), More(a), More(b));
  }

  // The numbers at which the comparison is decided, if it is decided by numbers.
  function Deciding(a: string, b: string): Option<(nat, nat)> {
    if ComparePrefixes(TextOf(a), TextOf(b)) != 0 then None
    else
      var v, r := NumberOf(a), NumberOf(b);
      if v != r then Some((v, r))
      else if Rest(a) == "" || Rest(b) == "" || IsSeparator(Rest(a)) != IsSeparator(Rest(b)) then None
      else Deciding(Rest(a), Rest(b))
  }

  // An int has the sign of the difference: the difference, or what is left of it modulo 2^32, is less
  // than 2^31 away from zero on the right side.
  predicate Fits(v: nat, r: nat) {
    if v > r then 0 < (v - r) % 0x1_0000_0000 < 0x8000_0000 else (r - v) % 0x1_0000_0000 <= 0x8000_0000 && (r - v) % 0x1_0000_0000 != 0
  }

  lemma WrapSign(v: nat, r: nat)
    requires v != r
    ensures Sign(Wrap32(v - r)) == Sign(v - r) <==> Fits(v, r)
  {
    if v < r {
      var d := r - v;
      assert (-d) % 0x1_0000_0000 == (if d % 0x1_0000_0000 == 0 then 0 else 0x1_0000_0000 - d % 0x1_0000_0000);
    }
  }

  // The result has the sign of the lexicographic order exactly if the numbers that decide fit.
  lemma {:induction false} VerRevExactly(a: string, b: string)
    requires Ascii(a) && Ascii(b)
    ensures Sign(VerRev(a, b)) == Lex(Key(a), Key(b))
       <==> (Deciding(a, b).Some? ==> Fits(Deciding(a, b).value.0, Deciding(a, b).value.1))
    decreases |a| + |b|
  {
    if Decides(a, b) {
      DecidedExactly(a, b);
    } else {
      UndecidedExactly(a, b);
      if Rest(a) != "" && Rest(b) != "" {
        VerRevExactly(Rest(a), Rest(b));
      }
    }
  }

  lemma DecidedExactly(a: string, b: string)
    requires Ascii(a) && Ascii(b) && Decides(a, b)
    ensures Sign(VerRev(a, b)) == Lex(Key(a), Key(b))
       <==> (Deciding(a, b).Some? ==> Fits(Deciding(a, b).value.0, Deciding(a, b).value.1))
  {
    LexKeys(a, b);
    if NumberOf(a) != NumberOf(b) {
      WrapSign(NumberOf(a), NumberOf(b));
    }
  }

  // Without a decision, what is left decides, by its class or by itself.
  lemma UndecidedExactly(a: string, b: string)
    requires Ascii(a) && Ascii(b) && !Decides(a, b)
    ensures Class(Rest(a)) != Class(Rest(b)) || Rest(a) == "" ==>
      Sign(VerRev(a, b)) == Lex(Key(a), Key(b)) && Deciding(a, b).None?
    ensures Class(Rest(a)) == Class(Rest(b)) && Rest(a) != "" ==>
      && VerRev(a, b) == VerRev(Rest(a), Rest(b)) && Lex(Key(a), Key(b)) == Lex(Key(Rest(a)), Key(Rest(b)))
      && Deciding(a, b) == Deciding(Rest(a), Rest(b))
  {
    LexKeys(a, b);
  }

  // All numbers in the text fit 31 bits.
  predicate Small(s: string) {
    NumberOf(s) < 0x8000_0000 && (Rest(s) == "" || Small(Rest(s)))
  }

  lemma {:induction false} SmallDecides(a: string, b: string)
    requires Small(a) && Small(b) && Deciding(a, b).Some?
    ensures Fits(Deciding(a, b).value.0, Deciding(a, b).value.1)
  {
    if NumberOf(a) == NumberOf(b) {
      SmallDecides(Rest(a), Rest(b));
    } else {
      SmallFits(NumberOf(a), NumberOf(b));
    }
  }

  lemma SmallFits(v: nat, r: nat)
    requires v < 0x8000_0000 && r < 0x8000_0000 && v != r
    ensures Fits(v, r)
  {}

  // With numbers of 31 bits, versions are in the lexicographic order of their keys.
  lemma VerRevIsLex(a: string, b: string)
    requires Ascii(a) && Ascii(b) && Small(a) && Small(b)
    ensures Sign(VerRev(a, b)) == Lex(Key(a), Key(b))
  {
    VerRevExactly(a, b);
    if Deciding(a, b).Some? {
      SmallDecides(a, b);
    }
  }

  lemma {:induction false} AllDigits(s: string)
    requires s != "" && forall i | 0 <= i < |s| :: IsDigit(s[i])
    ensures Prefix(s) == 0 && Digits(s) == |s| && Ascii(s)
  {
    if |s| > 1 {
      AllDigits(s[1..]);
    }
  }

  // The decimal digits of n.
  function DecString(n: nat): (s: string)
    ensures s != "" && (forall i | 0 <= i < |s| :: IsDigit(s[i])) && Decimal(s) == n
  {
    if n < 10 then
      var s := [('0' as int + n) as char];
      assert s[..0] == "";
      s
    else
      var t := DecString(n / 10);
      var s := t + [('0' as int + n % 10) as char];
      assert s[..|t|] == t;
      s
  }

  lemma JustNumber(n: nat)
    requires n <= LONG_MAX
    ensures var s := DecString(n); Ascii(s) && TextOf(s) == "" && NumberOf(s) == n && Rest(s) == "" && More(s) == []
  {
    var s := DecString(n);
    AllDigits(s);
    assert s[0..] == s && s[..|s|] == s;
  }

  // Strings that are just numbers.
  lemma JustNumbers(n: nat, k: nat)
    requires n <= LONG_MAX && k <= LONG_MAX && n != k
    ensures VerRev(DecString(n), DecString(k)) == Wrap32(n - k)
    ensures Lex(Key(DecString(n)), Key(DecString(k))) == Sign(n - k)
  {
    JustNumber(n);
    JustNumber(k);
    LexKeys(DecString(n), DecString(k));
  }

  // A number that is larger by 2^31 comes out as smaller, and one that is larger by 2^32 as equal.
  lemma LargeNumbers(k: nat, n: nat)
    requires k <= 0x1_0000_0000
    ensures n == k + 0x8000_0000 ==> VerRev(DecString(n), DecString(k)) < 0 && Lex(Key(DecString(n)), Key(DecString(k))) > 0
    ensures n == k + 0x1_0000_0000 ==> VerRev(DecString(n), DecString(k)) == 0 && Lex(Key(DecString(n)), Key(DecString(k))) > 0
  {
    if n == k + 0x8000_0000 || n == k + 0x1_0000_0000 {
      JustNumbers(n, k);
    }
  }

  // ----- the order by characters -----

  // The text before a number has one more character.
  lemma TextBehind(c: char, x: string)
    requires !('0' <= c <= '9')
    ensures TextOf([c] + x) == [c] + TextOf(x) && NumberOf([c] + x) == NumberOf(x) && Rest([c] + x) == Rest(x)
  {
    assert ([c] + x)[1..] == x;
    assert ([c] + x)[..1 + Prefix(x)] == [c] + x[..Prefix(x)];
    assert ([c] + x)[1 + Prefix(x)..] == x[Prefix(x)..];
  }

  // A string that has ended, or goes on with a digit, has no text.
  lemma NoText(x: string)
    requires x == "" || '0' <= x[0] <= '9'
    ensures TextOf(x) == ""
  {}

  // Texts that start with different characters.
  lemma FirstCharacters(a: string, b: string)
    requires (a == "" || !('0' <= a[0] <= '9')) && (b == "" || !('0' <= b[0] <= '9'))
    ensures a == "" && b != "" ==> ComparePrefixes(a, b) < 0
    ensures b == "" && a != "" ==> ComparePrefixes(a, b) > 0
    ensures a != "" && b != "" && a[0] as int < 128 && b[0] as int < 128 && a[0] != b[0] ==>
      var c, d := a[0], b[0];
      var cl, dl := 'A' <= c <= 'Z' || 'a' <= c <= 'z', 'A' <= d <= 'Z' || 'a' <= d <= 'z';
      var diff := c as int - d as int;
      ComparePrefixes(a, b) == if cl == dl then diff else if cl then diff - 256 else diff + 256
  {}

  lemma TextDecides(a: string, b: string)
    requires ComparePrefixes(TextOf(a), TextOf(b)) != 0
    ensures VerRev(a, b) == ComparePrefixes(TextOf(a), TextOf(b))
  {
    assert Decides(a, b);
  }

  lemma FirstDecides(c: char, d: char, x: string, y: string, g: int)
    requires !('0' <= c <= '9') && !('0' <= d <= '9') && g == ComparePrefixes([c] + TextOf(x), [d] + TextOf(y)) != 0
    ensures VerRev([c] + x, [d] + y) == g
  {
    TextBehind(c, x);
    TextBehind(d, y);
    TextDecides([c] + x, [d] + y);
  }

  // Letters come before all other characters, and either kind comes in the order of ASCII.
  lemma CharacterOrder(c: char, d: char, x: string, y: string)
    requires Ascii([c] + x) && Ascii([d] + y) && !('0' <= c <= '9') && !('0' <= d <= '9') && c != d
    ensures var cl, dl := 'A' <= c <= 'Z' || 'a' <= c <= 'z', 'A' <= d <= 'Z' || 'a' <= d <= 'z';
            var diff := c as int - d as int;
            && VerRev([c] + x, [d] + y) == (if cl == dl then diff else if cl then diff - 256 else diff + 256)
            && (VerRev([c] + x, [d] + y) < 0 <==> (cl && !dl) || (cl == dl && c < d))
  {
    assert ([c] + x)[0] == c && ([d] + y)[0] == d;
    var a, b := [c] + TextOf(x), [d] + TextOf(y);
    assert a[0] == c && b[0] == d;
    FirstCharacters(a, b);
    FirstDecides(c, d, x, y, ComparePrefixes(a, b));
  }

  // An end, or a digit, comes before any character of a text.
  lemma EndsFirst(x: string, d: char, y: string)
    requires Ascii([d] + y) && (x == "" || '0' <= x[0] <= '9') && !('0' <= d <= '9')
    ensures VerRev(x, [d] + y) < 0 && VerRev([d] + y, x) > 0
  {
    var w := [d] + y;
    NoText(x);
    TextBehind(d, y);
    var t := TextOf(w);
    assert t[0] == d;
    FirstCharacters("", t);
    FirstCharacters(t, "");
    TextDecides(x, w);
    TextDecides(w, x);
  }

  // Behind the same text, what follows decides.
  lemma {:induction false} SameText(t: string, x: string, y: string)
    requires forall i | 0 <= i < |t| :: !('0' <= t[i] <= '9')
    ensures VerRev(t + x, t + y) == VerRev(x, y)
  {
    if t == "" {
      assert t + x == x && t + y == y;
    } else {
      var c, u := t[0], t[1..];
      assert forall i | 0 <= i < |u| :: u[i] == t[i + 1];
      SameText(u, x, y);
      assert t + x == [c] + (u + x) && t + y == [c] + (u + y);
      SameCharacter(c, u + x, u + y);
    }
  }

  lemma SameCharacter(c: char, x: string, y: string)
    requires !('0' <= c <= '9')
    ensures VerRev([c] + x, [c] + y) == VerRev(x, y)
  {
    TextBehind(c, x);
    TextBehind(c, y);
    assert ([c] + TextOf(x))[1..] == TextOf(x) && ([c] + TextOf(y))[1..] == TextOf(y);
    assert ([c] + TextOf(x))[0] == c && ([c] + TextOf(y))[0] == c;
    SameParts([c] + x, [c] + y, x, y);
  }

  // One round, from the parts of the two strings and what is found for the rest.
  function FromParts(c: int, v: nat, r: nat, x: string, y: string, more: int): int {
    if c != 0 then c
    else if v != r then Wrap32(v - r)
    else if IsSeparator(x) && !IsSeparator(y) then -1
    else if !IsSeparator(x) && IsSeparator(y) then 1
    else if x == "" && y == "" then 0
    else if x == "" then -1
    else if y == "" then 1
    else more
  }

  lemma VerRevParts(a: string, b: string)
    ensures VerRev(a, b)
         == FromParts(ComparePrefixes(TextOf(a), TextOf(b)), NumberOf(a), NumberOf(b), Rest(a), Rest(b), VerRev(Rest(a), Rest(b)))
  {}

  lemma SameParts(a: string, b: string, x: string, y: string)
    requires ComparePrefixes(TextOf(a), TextOf(b)) == ComparePrefixes(TextOf(x), TextOf(y))
    requires NumberOf(a) == NumberOf(x) && Rest(a) == Rest(x) && NumberOf(b) == NumberOf(y) && Rest(b) == Rest(y)
    ensures VerRev(a, b) == VerRev(x, y)
  {
    VerRevParts(a, b);
    VerRevParts(x, y);
  }

  // What a string is made of that starts with the digits of n.
  lemma NumberBefore(n: nat, x: string, s: string, v: nat)
    requires s == DecString(n) + x && (x == "" || !('0' <= x[0] <= '9'))
    requires v == if n > 0x7fff_ffff_ffff_ffff then 0x7fff_ffff_ffff_ffff else n
    ensures TextOf(s) == "" && Rest(s) == x && NumberOf(s) == v
  {
    var t := DecString(n);
    assert s[0] == t[0] && s[0..] == s;
    DigitsBefore(t, x);
    assert s[..|t|] == t && s[|t|..] == x;
  }

  lemma {:induction false} DigitsBefore(t: string, x: string)
    requires (forall i | 0 <= i < |t| :: IsDigit(t[i])) && (x == "" || !IsDigit(x[0]))
    ensures Digits(t + x) == |t|
  {
    if t == "" {
      assert t + x == x;
    } else {
      assert (t + x)[0] == t[0] && (t + x)[1..] == t[1..] + x;
      DigitsBefore(t[1..], x);
    }
  }

  // Numbers of 31 bits are compared as numbers.
  lemma NumberOrder(n: nat, k: nat, x: string, y: string)
    requires (x == "" || !('0' <= x[0] <= '9')) && (y == "" || !('0' <= y[0] <= '9')) && n < k < 0x8000_0000
    ensures VerRev(DecString(n) + x, DecString(k) + y) < 0 && VerRev(DecString(k) + y, DecString(n) + x) > 0
  {
    var a, b := DecString(n) + x, DecString(k) + y;
    NumberBefore(n, x, a, n);
    NumberBefore(k, y, b, k);
    NumbersDecide(a, b);
    NumbersDecide(b, a);
  }

  lemma NumbersDecide(a: string, b: string)
    requires TextOf(a) == TextOf(b) == "" && NumberOf(a) < 0x8000_0000 && NumberOf(b) < 0x8000_0000
    ensures NumberOf(a) < NumberOf(b) ==> VerRev(a, b) < 0
    ensures NumberOf(a) > NumberOf(b) ==> VerRev(a, b) > 0
  {
    VerRevParts(a, b);
  }

  // Behind the same number, or two beyond the greatest long, an end, '.' or '-' comes before everything
  // else, and an end before these two; otherwise what follows decides.
  lemma BehindNumbers(n: nat, k: nat, x: string, y: string)
    requires (x == "" || !('0' <= x[0] <= '9')) && (y == "" || !('0' <= y[0] <= '9'))
    requires n == k || (n >= 0x7fff_ffff_ffff_ffff && k >= 0x7fff_ffff_ffff_ffff)
    ensures var d := VerRev(DecString(n) + x, DecString(k) + y);
            var xs, ys := x == "" || x[0] in ".-", y == "" || y[0] in ".-";
            if xs && !ys then d < 0
            else if ys && !xs then d > 0
            else if x == "" then if y == "" then d == 0 else d < 0
            else if y == "" then d > 0
            else d == VerRev(x, y)
  {
    var a, b := DecString(n) + x, DecString(k) + y;
    var v := if n > LONG_MAX then LONG_MAX else n;
    NumberBefore(n, x, a, v);
    NumberBefore(k, y, b, v);
    RestDecides(a, b, v);
  }

  lemma RestDecides(a: string, b: string, v: nat)
    requires TextOf(a) == TextOf(b) == "" && NumberOf(a) == v && NumberOf(b) == v
    ensures var x, y, d := Rest(a), Rest(b), VerRev(a, b);
            var xs, ys := x == "" || x[0] in ".-", y == "" || y[0] in ".-";
            if xs && !ys then d < 0
            else if ys && !xs then d > 0
            else if x == "" then if y == "" then d == 0 else d < 0
            else if y == "" then d > 0
            else d == VerRev(x, y)
  {}

  // ----- a total preorder -----

  lemma {:induction false} LexAntisymmetric(a: seq<int>, b: seq<int>)
    ensures Lex(a, b) == -Lex(b, a) && (Lex(a, b) == 0 <==> a == b)
  {
    if a != [] && b != [] {
      LexAntisymmetric(a[1..], b[1..]);
      assert a == [a[0]] + a[1..] && b == [b[0]] + b[1..];
    }
  }

  lemma {:induction false} LexTransitive(a: seq<int>, b: seq<int>, c: seq<int>)
    requires Lex(a, b) <= 0 && Lex(b, c) <= 0
    ensures Lex(a, c) <= 0
  {
    if a != [] && b != [] && c != [] && a[0] == b[0] == c[0] {
      LexTransitive(a[1..], b[1..], c[1..]);
    }
  }

  ghost predicate Proper(s: string) { Ascii(s) && Small(s) }

  lemma VerRevOrder(a: string, b: string, c: string)
    requires Proper(a) && Proper(b) && Proper(c)
    ensures Sign(VerRev(a, b)) == -Sign(VerRev(b, a)) && VerRev(a, a) == 0
    ensures VerRev(a, b) <= 0 && VerRev(b, c) <= 0 ==> VerRev(a, c) <= 0
    ensures VerRev(a, b) == 0 <==> Key(a) == Key(b)
  {
    VerRevSigns(a, b);
    VerRevSigns(a, a);
    VerRevIsLex(a, b);
    VerRevIsLex(b, c);
    VerRevIsLex(a, c);
    SignsTransitive(VerRev(a, b), VerRev(b, c), VerRev(a, c), Key(a), Key(b), Key(c));
  }

  lemma VerRevSigns(a: string, b: string)
    requires Proper(a) && Proper(b)
    ensures Sign(VerRev(a, b)) == -Sign(VerRev(b, a)) && (VerRev(a, b) == 0 <==> Key(a) == Key(b))
  {
    VerRevIsLex(a, b);
    VerRevIsLex(b, a);
    LexAntisymmetric(Key(a), Key(b));
  }

  lemma SignsTransitive(p: int, q: int, r: int, a: seq<int>, b: seq<int>, c: seq<int>)
    requires Sign(p) == Lex(a, b) && Sign(q) == Lex(b, c) && Sign(r) == Lex(a, c)
    ensures p <= 0 && q <= 0 ==> r <= 0
  {
    if p <= 0 && q <= 0 {
      LexTransitive(a, b, c);
    }
  }

  // ----- versions -----

  datatype Version = Version(epoch: nat, version: string, revision: string)

  // versioncompare
  method VersionCompare(v: Version, r: Version) returns (d: int)
    requires Ascii(v.version) && Ascii(r.version) && Ascii(v.revision) && Ascii(r.revision)
    ensures d == Compare(v, r)
  {
    if v.epoch > r.epoch {
      return 1;
    }
    if v.epoch < r.epoch {
      return -1;
    }
    d := VerRevCmp(Some(v.version), Some(r.version));
    if d != 0 {
      return;
    }
    d := VerRevCmp(Some(v.revision), Some(r.revision));
  }

  function Compare(v: Version, r: Version): int {
    if v.epoch > r.epoch then 1
    else if v.epoch < r.epoch then -1
    else if VerRev(v.version, r.version) != 0 then VerRev(v.version, r.version)
    else VerRev(v.revision, r.revision)
  }

  ghost predicate ProperVersion(v: Version) { Proper(v.version) && Proper(v.revision) }

  function FullKey(v: Version): seq<int> { [v.epoch] + (Key(v.version) + Key(v.revision)) }

  // Versions are ordered by epoch, then by version, then by revision.
  lemma CompareIsLex(v: Version, r: Version)
    requires ProperVersion(v) && ProperVersion(r)
    ensures Sign(Compare(v, r)) == Lex(FullKey(v), FullKey(r))
  {
    var a, b, x, y := Key(v.version), Key(r.version), Key(v.revision), Key(r.revision);
    LexHead(v.epoch, r.epoch, a + x, b + y);
    VerRevIsLex(v.version, r.version);
    VerRevIsLex(v.revision, r.revision);
    KeysApart(v.version, r.version, x, y);
    InTurn(v.epoch, r.epoch, VerRev(v.version, r.version), VerRev(v.revision, r.revision), a, b, x, y);
  }

  lemma InTurn(e: nat, f: nat, p: int, q: int, a: seq<int>, b: seq<int>, x: seq<int>, y: seq<int>)
    requires Sign(p) == Lex(a, b) && Sign(q) == Lex(x, y)
    requires Lex(a + x, b + y) == if Lex(a, b) != 0 then Lex(a, b) else Lex(x, y)
    ensures Lex([e] + (a + x), [f] + (b + y)) == if e > f then 1 else if e < f then -1 else if p != 0 then Sign(p) else Sign(q)
  {
    LexHead(e, f, a + x, b + y);
  }

  // No key is the beginning of another, so what follows matters only behind equal keys.
  lemma {:induction false} KeysApart(a: string, b: string, x: seq<int>, y: seq<int>)
    requires Ascii(a) && Ascii(b)
    ensures Lex(Key(a) + x, Key(b) + y) == if Lex(Key(a), Key(b)) != 0 then Lex(Key(a), Key(b)) else Lex(x, y)
    decreases |a| + |b|, 1
  {
    var pa, pb := TextOf(a), TextOf(b);
    var v, r := NumberOf(a), NumberOf(b);
    var c, d := Class(Rest(a)), Class(Rest(b));
    JoinedMore(pa, v, c, More(a), x);
    JoinedMore(pb, r, d, More(b), y);
    LexKeys(a, b);
    LexRound(pa, pb, v, r, c, d, More(a) + x, More(b) + y);
    if Class(Rest(a)) == Class(Rest(b)) {
      MoreApart(a, b, x, y);
    }
  }

  lemma {:induction false} MoreApart(a: string, b: string, x: seq<int>, y: seq<int>)
    requires Ascii(a) && Ascii(b) && Class(Rest(a)) == Class(Rest(b))
    ensures Lex(More(a) + x, More(b) + y) == if Lex(More(a), More(b)) != 0 then Lex(More(a), More(b)) else Lex(x, y)
    decreases |a| + |b|, 0
  {
    if Rest(a) != "" && Rest(b) != "" {
      KeysApart(Rest(a), Rest(b), x, y);
    } else if Rest(a) == "" && Rest(b) == "" {
      assert More(a) + x == x && More(b) + y == y;
    }
  }

  lemma JoinedMore(text: string, number: int, cls: int, more: seq<int>, x: seq<int>)
    ensures Joined(text, number, cls, more) + x == Joined(text, number, cls, more + x)
  {}

  // versioncompare is a total preorder, and equal are versions that are equal part by part.
  lemma CompareOrder(v: Version, r: Version, t: Version)
    requires ProperVersion(v) && ProperVersion(r) && ProperVersion(t)
    ensures Sign(Compare(v, r)) == -Sign(Compare(r, v)) && Compare(v, v) == 0
    ensures Compare(v, r) <= 0 && Compare(r, t) <= 0 ==> Compare(v, t) <= 0
    ensures Compare(v, r) == 0 <==> v.epoch == r.epoch && Key(v.version) == Key(r.version) && Key(v.revision) == Key(r.revision)
  {
    CompareSigns(v, r);
    CompareSigns(v, v);
    CompareTransitive(v, r, t);
  }

  lemma CompareSigns(v: Version, r: Version)
    requires ProperVersion(v) && ProperVersion(r)
    ensures Sign(Compare(v, r)) == -Sign(Compare(r, v))
    ensures Compare(v, r) == 0 <==> v.epoch == r.epoch && Key(v.version) == Key(r.version) && Key(v.revision) == Key(r.revision)
  {
    VerRevSigns(v.version, r.version);
    VerRevSigns(v.revision, r.revision);
  }

  lemma CompareTransitive(v: Version, r: Version, t: Version)
    requires ProperVersion(v) && ProperVersion(r) && ProperVersion(t)
    ensures Compare(v, r) <= 0 && Compare(r, t) <= 0 ==> Compare(v, t) <= 0
  {
    CompareIsLex(v, r);
    CompareIsLex(r, t);
    CompareIsLex(v, t);
    SignsTransitive(Compare(v, r), Compare(r, t), Compare(v, t), FullKey(v), FullKey(r), FullKey(t));
  }

  // versionsatisfied3; an unknown operator ends the program
  function Satisfied(v: Version, r: Version, op: string): Option<bool> {
    var d := Compare(v, r);
    if op == "<=" || op == "<" then Some(d <= 0)
    else if op == ">=" || op == ">" then Some(d >= 0)
    else if op == "<<" then Some(d < 0)
    else if op == ">>" then Some(d > 0)
    else if op == "=" then Some(d == 0)
    else None
  }

  // The strict and the weak operators exclude each other, and "<" and ">" are weak.
  lemma Operators(v: Version, r: Version)
    requires ProperVersion(v) && ProperVersion(r)
    ensures Satisfied(v, r, "<<") == Some(!Satisfied(v, r, ">=").value)
    ensures Satisfied(v, r, ">>") == Some(!Satisfied(v, r, "<=").value)
    ensures Satisfied(v, r, "=") == Some(Satisfied(v, r, "<=").value && Satisfied(v, r, ">=").value)
    ensures Satisfied(v, r, "<") == Some(Satisfied(v, r, "<<").value || Satisfied(v, r, "=").value)
    ensures Satisfied(v, r, ">") == Some(Satisfied(v, r, ">>").value || Satisfied(v, r, "=").value)
    ensures Satisfied(v, r, "<=") == Satisfied(r, v, ">=")
  {
    CompareSigns(v, r);
  }

  // The operators in terms of the lexicographic order.
  lemma OperatorsMean(v: Version, r: Version, op: string)
    requires ProperVersion(v) && ProperVersion(r)
    ensures var d := Lex(FullKey(v), FullKey(r));
            Satisfied(v, r, op) == match op
            case "<" => Some(d != 1)
            case "<=" => Some(d != 1)
            case ">" => Some(d != -1)
            case ">=" => Some(d != -1)
            case "<<" => Some(d == -1)
            case ">>" => Some(d == 1)
            case "=" => Some(d == 0)
            case _ => None
  {
    CompareIsLex(v, r);
  }
}
