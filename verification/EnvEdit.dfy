// Edit files of the U-Boot environment editor (src/host/envedit/parse.c): lines of the form name = value,
// which go on in lines that begin with whitespace.
module EnvEdit {
  import opened Wrappers
  import opened EnvVars
  import opened EnvImage

  // ----- characters, in the C locale -----

  const SPACE: Byte := 32
  const NEWLINE: Byte := 10
  const HASH: Byte := 35

  predicate IsSpace(c: Byte) { c == 32 || 9 <= c <= 13 }
  predicate IsAlpha(c: Byte) { c == 95 || 65 <= c <= 90 || 97 <= c <= 122 }
  predicate IsAlnum(c: Byte) { 48 <= c <= 57 || IsAlpha(c) }

  // add_char: a string ends at a NUL, so adding one leaves it as it was, but present
  function AddChar(base: Option<Text>, c: Byte): Option<Text> {
    var s := if base.Some? then base.value else [];
    Some(if c == 0 then s else s + [c])
  }

  // trim
  function Trim(s: Text): Text {
    if s != [] && IsSpace(s[|s| - 1]) then Trim(s[..|s| - 1]) else s
  }

  // ----- the state machine -----

  // The state st_spc_val_add of the code is never entered.
  datatype State = St0 | StVar | StSpcVar | StVal | StSpcVal

  // How far reading has come, and what has become of the variables; or a syntax error, which ends the program.
  datatype Scan =
    | Scan(state: State, name: Option<Text>, value: Option<Text>, comment: bool, nl: bool, m: map<Text, Text>)
    | Syntax

  // There is a name unless one is waited for, and a value where one has begun.
  ghost predicate Going(s: Scan) {
    s.Scan? ==>
      && (s.state == St0 <==> s.name.None?) && (s.state == StVal ==> s.value.Some?)
      && (s.state in {St0, StVar, StSpcVar} ==> s.value.None?) && (!s.nl ==> s.state != St0)
  }

  function Flushed(s: Scan): (r: Scan)
    requires s.Scan? && s.name.Some?
    ensures r.Scan?
  {
    var m := if s.value.None? then s.m - {s.name.value} else s.m[s.name.value := Trim(s.value.value)];
    Scan(St0, None, None, s.comment, s.nl, m)
  }

  function InLine(s: Scan, c: Byte): Scan
    requires s.Scan? && s.state != St0
  {
    match s.state
    case StVar =>
      if IsSpace(c) then s.(state := StSpcVar)
      else if c == EQ then s.(state := StSpcVal)
      else if IsAlnum(c) then s.(name := AddChar(s.name, c)) else Syntax
    case StSpcVar => if IsSpace(c) then s else if c == EQ then s.(state := StSpcVal) else Syntax
    case StSpcVal => if IsSpace(c) then s else s.(value := AddChar(s.value, c), state := StVal)
    case StVal => s.(value := AddChar(s.value, if IsSpace(c) then SPACE else c))
    case St0 => Syntax
  }

  function StartName(s: Scan, c: Byte): Scan
    requires s.Scan?
  {
    if IsAlpha(c) then s.(name := AddChar(s.name, c), state := StVar) else Syntax
  }

  // Past a value, a line that does not begin with whitespace begins with a name.
  function PastValue(s: Scan, c: Byte): Scan
    requires s.Scan? && s.name.Some?
  {
    if IsSpace(c) then s else StartName(Flushed(s), c)
  }

  // newline
  function LineStart(s: Scan, c: Byte): Scan
    requires s.Scan? && Going(s)
  {
    match s.state
    case St0 => StartName(s, c)
    case StVar => if IsSpace(c) then InLine(s.(state := StSpcVar), c) else Syntax
    case StSpcVar => InLine(s, c)
    case StVal => PastValue(s.(value := AddChar(Some(Trim(s.value.value)), SPACE), state := StSpcVal), c)
    case StSpcVal => PastValue(s, c)
  }

  // double_newline
  function EmptyLine(s: Scan): Scan
    requires s.Scan? && Going(s)
  {
    if s.state == St0 then s else if s.state in {StVar, StSpcVar} then Syntax else Flushed(s)
  }

  function WithState(s: Scan, state: State): Scan { if s.Scan? then s.(state := state) else s }

  function WithNl(s: Scan, nl: bool): Scan { if s.Scan? then s.(nl := nl) else s }

  // One character of parse_edit.
  function Next(s: Scan, c: Byte): Scan
    requires Going(s)
  {
    if s.Syntax? then Syntax
    else if s.comment || c == HASH then
      if c == NEWLINE then s.(comment := false, nl := true) else s.(comment := true)
    else if c == NEWLINE then WithNl(if s.nl then EmptyLine(s) else s, true)
    else WithNl(if s.nl then LineStart(s, c) else InLine(s, c), false)
  }

  lemma NextGoes(s: Scan, c: Byte)
    requires Going(s)
    ensures Going(Next(s, c))
  {}

  function Start(m: map<Text, Text>): (s: Scan)
    ensures Going(s)
  {
    Scan(St0, None, None, false, true, m)
  }

  function ScanAll(s: Scan, text: seq<Byte>): (r: Scan)
    requires Going(s)
    ensures Going(r)
    decreases |text|
  {
    if text == [] then s
    else
      NextGoes(s, text[0]);
      ScanAll(Next(s, text[0]), text[1..])
  }

  // The end of parse_edit.
  function Finish(s: Scan): Option<map<Text, Text>>
    requires Going(s)
  {
    if s.Syntax? || s.state in {StVar, StSpcVar} then None
    else if s.state == St0 then Some(s.m) else Some(Flushed(s).m)
  }

  // What an edit file makes of the variables.
  function Edited(m: map<Text, Text>, text: seq<Byte>): Option<map<Text, Text>> { Finish(ScanAll(Start(m), text)) }

  lemma {:induction false} ScanConcat(s: Scan, a: seq<Byte>, b: seq<Byte>)
    requires Going(s)
    ensures ScanAll(s, a + b) == ScanAll(ScanAll(s, a), b)
    decreases |a|
  {
    if a == [] {
      assert a + b == b;
    } else {
      NextGoes(s, a[0]);
      assert (a + b)[0] == a[0] && (a + b)[1..] == a[1..] + b;
      ScanConcat(Next(s, a[0]), a[1..], b);
    }
  }

  // ----- what edit files can do to the store -----

  lemma {:induction false} TrimKeepsFirst(s: Text)
    requires s != [] && !IsSpace(s[0])
    ensures Trim(s) != [] && Trim(s)[0] == s[0] && (NoNul(s) ==> NoNul(Trim(s)))
    decreases |s|
  {
    if IsSpace(s[|s| - 1]) {
      TrimKeepsFirst(s[..|s| - 1]);
    }
  }

  // A name of letters and digits, and a value that begins with something else than whitespace.
  ghost predicate GoodName(t: Text) { t != [] && forall c | c in t :: IsAlnum(c) }

  ghost predicate GoodValue(t: Text) { t != [] && !IsSpace(t[0]) && NoNul(t) }

  ghost predicate Good(s: Scan) {
    s.Scan? ==>
      && Proper(s.m) && (s.name.Some? ==> GoodName(s.name.value)) && (s.value.Some? ==> GoodValue(s.value.value))
  }

  lemma FlushedGood(s: Scan)
    requires s.Scan? && s.name.Some? && Good(s)
    ensures Good(Flushed(s))
  {
    if s.value.Some? {
      TrimKeepsFirst(s.value.value);
    }
  }

  lemma PastValueGood(s: Scan, c: Byte)
    requires s.Scan? && s.name.Some? && Good(s)
    ensures Good(PastValue(s, c))
  {
    FlushedGood(s);
  }

  lemma LineStartGood(s: Scan, c: Byte)
    requires s.Scan? && Going(s) && Good(s)
    ensures Good(LineStart(s, c))
  {
    if s.state == StVal {
      TrimKeepsFirst(s.value.value);
      PastValueGood(s.(value := AddChar(Some(Trim(s.value.value)), SPACE), state := StSpcVal), c);
    } else if s.state == StSpcVal {
      PastValueGood(s, c);
    }
  }

  lemma NextGood(s: Scan, c: Byte)
    requires Going(s) && Good(s) && c != 0
    ensures Good(Next(s, c))
  {
    if s.Scan? {
      LineStartGood(s, c);
      if s.name.Some? {
        FlushedGood(s);
      }
    }
  }

  lemma {:induction false} ScanGood(s: Scan, text: seq<Byte>)
    requires Going(s) && Good(s) && NoNul(text)
    ensures Good(ScanAll(s, text))
    decreases |text|
  {
    if text != [] {
      NextGoes(s, text[0]);
      NextGood(s, text[0]);
      ScanGood(Next(s, text[0]), text[1..]);
    }
  }

  // A text without NULs leaves names and values that can be kept.
  lemma EditKeeps(m: map<Text, Text>, text: seq<Byte>)
    requires Proper(m) && NoNul(text)
    ensures Edited(m, text).Some? ==> Proper(Edited(m, text).value)
  {
    ScanGood(Start(m), text);
    var s := ScanAll(Start(m), text);
    if s.Scan? && s.name.Some? {
      FlushedGood(s);
    }
  }

  // ----- exactly when a line leaves an empty value -----

  // What is left of the text behind the '=': whitespace in front is skipped, other whitespace becomes
  // spaces, NULs get lost, and what is at the end is trimmed.
  function Skipped(body: seq<Byte>): seq<Byte> { if body != [] && IsSpace(body[0]) then Skipped(body[1..]) else body }

  function Cleaned(body: seq<Byte>): Text {
    if body == [] then [] else CleanedOne(body[0]) + Cleaned(body[1..])
  }

  function CleanedOne(c: Byte): Text { if c == 0 then [] else if IsSpace(c) then [SPACE] else [c] }

  // No line ends and no comment begins.
  ghost predicate InOneLine(body: seq<Byte>) { NEWLINE !in body && HASH !in body }

  lemma {:induction false} NameScanned(s: Scan, name: Text)
    requires s.Scan? && Going(s) && s.state == StVar && !s.comment && !s.nl && forall c | c in name :: IsAlnum(c)
    ensures ScanAll(s, name) == s.(name := Some(s.name.value + name))
    decreases |name|
  {
    if name == [] {
      assert s.name.value + name == s.name.value;
    } else {
      var t := Next(s, name[0]);
      assert name[0] in name;
      assert t == s.(name := Some(s.name.value + [name[0]]));
      NameScanned(t, name[1..]);
      assert s.name.value + [name[0]] + name[1..] == s.name.value + name;
    }
  }

  lemma ValueNext(s: Scan, c: Byte)
    requires s.Scan? && Going(s) && s.state == StVal && !s.comment && !s.nl && c != NEWLINE && c != HASH
    ensures Next(s, c) == s.(value := Some(s.value.value + CleanedOne(c)))
  {
    assert s.value.value + [] == s.value.value;
  }

  lemma {:induction false} ValueScanned(s: Scan, body: seq<Byte>)
    requires s.Scan? && Going(s) && s.state == StVal && !s.comment && !s.nl && InOneLine(body)
    ensures ScanAll(s, body) == s.(value := Some(s.value.value + Cleaned(body)))
    decreases |body|
  {
    if body == [] {
      assert s.value.value + Cleaned(body) == s.value.value;
    } else {
      assert body[0] in body;
      ValueNext(s, body[0]);
      ValueScanned(Next(s, body[0]), body[1..]);
      Associates(s.value.value, CleanedOne(body[0]), Cleaned(body[1..]));
    }
  }

  lemma {:induction false} BodyScanned(s: Scan, body: seq<Byte>)
    requires s.Scan? && Going(s) && s.state == StSpcVal && s.value.None? && !s.comment && !s.nl && InOneLine(body)
    ensures ScanAll(s, body) == if Skipped(body) == [] then s else s.(state := StVal, value := Some(Cleaned(Skipped(body))))
    decreases |body|
  {
    if body != [] {
      assert body[0] in body;
      if IsSpace(body[0]) {
        BodyScanned(s, body[1..]);
      } else {
        var t := Next(s, body[0]);
        ValueScanned(t, body[1..]);
        assert t.value.value + Cleaned(body[1..]) == Cleaned(body);
      }
    }
  }

  // A name and the '=' behind it have been read.
  lemma HeadScanned(m: map<Text, Text>, name: Text)
    requires GoodName(name) && IsAlpha(name[0])
    ensures ScanAll(Start(m), name + [EQ]) == Scan(StSpcVal, Some(name), None, false, false, m)
  {
    var s1 := Next(Start(m), name[0]);
    var text := name + [EQ];
    assert text[0] == name[0] && text[1..] == name[1..] + [EQ];
    assert name[0] in name && [] + [name[0]] == [name[0]];
    ScanConcat(s1, name[1..], [EQ]);
    NameScanned(s1, name[1..]);
    assert [name[0]] + name[1..] == name && [EQ][1..] == [];
  }

  // A line for a variable has been read up to its end.
  lemma LineScanned(m: map<Text, Text>, name: Text, body: seq<Byte>)
    requires GoodName(name) && IsAlpha(name[0]) && InOneLine(body)
    ensures ScanAll(Start(m), name + [EQ] + body)
         == if Skipped(body) == [] then Scan(StSpcVal, Some(name), None, false, false, m)
            else Scan(StVal, Some(name), Some(Cleaned(Skipped(body))), false, false, m)
  {
    HeadScanned(m, name);
    ScanConcat(Start(m), name + [EQ], body);
    BodyScanned(Scan(StSpcVal, Some(name), None, false, false, m), body);
  }

  // A whole file of one line: the variable is deleted if there is nothing but whitespace, and else set.
  lemma OneLine(m: map<Text, Text>, name: Text, body: seq<Byte>)
    requires GoodName(name) && IsAlpha(name[0]) && InOneLine(body)
    ensures Edited(m, name + [EQ] + body)
         == Some(if Skipped(body) == [] then m - {name} else m[name := Trim(Cleaned(Skipped(body)))])
  {
    LineScanned(m, name, body);
  }

  ghost predicate Blank(s: seq<Byte>) { forall c | c in s :: c == 0 || IsSpace(c) }

  lemma {:induction false} TrimBlank(s: Text)
    ensures Trim(s) == [] <==> forall c | c in s :: IsSpace(c)
    decreases |s|
  {
    if s != [] {
      TrimBlank(s[..|s| - 1]);
      assert s == s[..|s| - 1] + [s[|s| - 1]];
    }
  }

  lemma {:induction false} CleanedBlank(body: seq<Byte>)
    ensures (forall c | c in Cleaned(body) :: IsSpace(c)) <==> Blank(body)
    decreases |body|
  {
    if body != [] {
      CleanedBlank(body[1..]);
      assert body == [body[0]] + body[1..];
    }
  }

  lemma {:induction false} SkippedBlank(body: seq<Byte>)
    ensures Blank(Skipped(body)) <==> Blank(body)
    ensures Blank(body) ==> (Skipped(body) == [] <==> 0 !in body)
    decreases |body|
  {
    if body != [] {
      SkippedBlank(body[1..]);
      assert body == [body[0]] + body[1..];
    }
  }

  // The value is empty exactly if there is a NUL behind the '=', and nothing else but whitespace. Such a
  // variable does not survive writing and reading.
  lemma EmptyExactly(m: map<Text, Text>, name: Text, body: seq<Byte>)
    requires GoodName(name) && IsAlpha(name[0]) && InOneLine(body)
    ensures var r := Edited(m, name + [EQ] + body);
            r.Some? && ((name in r.value && r.value[name] == []) <==> Blank(body) && 0 in body)
  {
    OneLine(m, name, body);
    SkippedBlank(body);
    CleanedBlank(Skipped(body));
    TrimBlank(Cleaned(Skipped(body)));
  }

  // A file that shows it: the letter A, a '=', and a NUL.
  lemma EmptyValue()
    ensures Edited(map[], [65, EQ, 0]) == Some(map[[65 as Byte] := []])
  {
    var name: Text, body: seq<Byte> := [65], [0];
    OneLine(map[], name, body);
    assert name + [EQ] + body == [65, EQ, 0];
    NulValue(body);
  }

  lemma NulValue(body: seq<Byte>)
    requires body == [0]
    ensures Skipped(body) == body && Trim(Cleaned(Skipped(body))) == []
  {
    assert CleanedOne(body[0]) == [] && Cleaned(body[1..]) == [];
  }

  // What has come of it is lost when it is written and read again.
  lemma EmptyLost(vars: seq<Slot>, size: nat, crc: seq<Byte> -> int)
    requires Unique(vars) && MapOf(vars) == map[[65 as Byte] := []] && |EntriesBytes(EntriesOf(vars))| + 5 <= size
    requires forall i | 0 <= i < |EntriesOf(vars)| :: Storable(EntriesOf(vars)[i])
    ensures Assigned(map[], ParseBody(Image(EntriesOf(vars), size, crc)[4..])) != MapOf(vars)
  {
    ImageRoundTrip(vars, size, crc);
    assert [65 as Byte] in MapOf(vars) && !Keeps(MapOf(vars));
  }

  // ----- files of more than one line -----

  lemma {:induction false} TrimTwice(s: Text)
    ensures Trim(Trim(s) + [SPACE]) == Trim(s) && Trim(Trim(s)) == Trim(s)
    decreases |s|
  {
    assert (Trim(s) + [SPACE])[..|Trim(s)|] == Trim(s);
    if s != [] && IsSpace(s[|s| - 1]) {
      TrimTwice(s[..|s| - 1]);
    }
  }

  // A line that begins with a name ends the value before it: the file goes on as if it began there.
  lemma NextName(m: map<Text, Text>, name: Text, body: seq<Byte>, rest: seq<Byte>)
    requires GoodName(name) && IsAlpha(name[0]) && InOneLine(body) && rest != [] && IsAlpha(rest[0])
    ensures Edited(m, name + [EQ] + body + [NEWLINE] + rest)
         == Edited(if Skipped(body) == [] then m - {name} else m[name := Trim(Cleaned(Skipped(body)))], rest)
  {
    var line := name + [EQ] + body;
    LineScanned(m, name, body);
    TrimTwice(Cleaned(Skipped(body)));
    ScanConcat(Start(m), line, [NEWLINE] + rest);
    assert line + [NEWLINE] + rest == line + ([NEWLINE] + rest);
    assert ([NEWLINE] + rest)[1..] == rest;
  }

  lemma {:induction false} MoreScanned(s: Scan, body: seq<Byte>)
    requires s.Scan? && Going(s) && s.state == StSpcVal && s.value.Some? && !s.comment && !s.nl && InOneLine(body)
    ensures ScanAll(s, body)
         == if Skipped(body) == [] then s
            else s.(state := StVal, value := Some(s.value.value + Cleaned(Skipped(body))))
    decreases |body|
  {
    if body != [] {
      assert body[0] in body;
      if IsSpace(body[0]) {
        MoreScanned(s, body[1..]);
      } else {
        var t := Next(s, body[0]);
        assert s.value.value + [] == s.value.value;
        ValueScanned(t, body[1..]);
        Associates(s.value.value, CleanedOne(body[0]), Cleaned(body[1..]));
      }
    }
  }

  // A line that begins with whitespace goes on with the value before it, after one space.
  lemma Continued(m: map<Text, Text>, name: Text, body: seq<Byte>, c: Byte, more: seq<Byte>)
    requires GoodName(name) && IsAlpha(name[0]) && InOneLine(body) && InOneLine([c] + more) && IsSpace(c)
    requires Skipped(body) != [] && Skipped(more) != []
    ensures Edited(m, name + [EQ] + body + [NEWLINE, c] + more)
         == Some(m[name := Trim(Trim(Cleaned(Skipped(body))) + [SPACE] + Cleaned(Skipped(more)))])
  {
    var line := name + [EQ] + body;
    LineScanned(m, name, body);
    ScanConcat(Start(m), line, [NEWLINE, c] + more);
    assert line + [NEWLINE, c] + more == line + ([NEWLINE, c] + more);
    assert c == ([c] + more)[0] && forall x | x in more :: x in [c] + more;
    var v := Trim(Cleaned(Skipped(body))) + [SPACE];
    var s := Scan(StSpcVal, Some(name), Some(v), false, false, m);
    assert ([NEWLINE, c] + more)[1..] == [c] + more && ([c] + more)[1..] == more;
    AfterLine(Scan(StVal, Some(name), Some(Cleaned(Skipped(body))), false, false, m), c);
    MoreScanned(s, more);
  }

  lemma AfterLine(s: Scan, c: Byte)
    requires s.Scan? && Going(s) && s.state == StVal && !s.comment && !s.nl && IsSpace(c) && c != NEWLINE
    ensures Next(Next(s, NEWLINE), c) == s.(state := StSpcVal, value := Some(Trim(s.value.value) + [SPACE]))
  {}

  // A comment goes up to the end of its line.
  lemma Comment(m: map<Text, Text>, text: seq<Byte>, rest: seq<Byte>)
    requires NEWLINE !in text
    ensures Edited(m, [HASH] + text + [NEWLINE] + rest) == Edited(m, rest)
  {
    assert [HASH] + text + [NEWLINE] + rest == [HASH] + (text + ([NEWLINE] + rest));
    ScanConcat(Start(m), [HASH], text + ([NEWLINE] + rest));
    assert [HASH][1..] == [];
    var s := Start(m).(comment := true);
    CommentScanned(s, text);
    ScanConcat(s, text, [NEWLINE] + rest);
    assert ([NEWLINE] + rest)[1..] == rest;
  }

  lemma {:induction false} CommentScanned(s: Scan, text: seq<Byte>)
    requires s.Scan? && Going(s) && s.comment && NEWLINE !in text
    ensures ScanAll(s, text) == s
    decreases |text|
  {
    if text != [] {
      assert text[0] in text;
      CommentScanned(s, text[1..]);
    }
  }

  // ----- characters by their codes -----

  // A name begins with a letter or '_'.
  lemma FirstCharacter(m: map<Text, Text>, c: Byte)
    requires c != 35
    ensures Edited(m, [c, 61]).Some? <==> 65 <= c <= 90 || 97 <= c <= 122 || c == 95
  {
    TwoScanned(Start(m), c, 61);
  }

  lemma TwoScanned(s: Scan, c: Byte, d: Byte)
    requires Going(s)
    ensures Going(Next(s, c)) && ScanAll(s, [c, d]) == Next(Next(s, c), d)
  {
    NextGoes(s, c);
    NextGoes(Next(s, c), d);
    assert [c, d][1..] == [d] && [d][1..] == [];
    assert ScanAll(Next(s, c), [d]) == ScanAll(Next(Next(s, c), d), []);
  }

  // It goes on with these and digits.
  lemma NameCharacter(m: map<Text, Text>, c: Byte)
    requires c !in {35, 61}
    ensures Edited(m, [65, c, 61])
         == if 65 <= c <= 90 || 97 <= c <= 122 || c == 95 || 48 <= c <= 57 then Some(m - {[65, c]})
            else if c == 32 || c == 9 || 11 <= c <= 13 then Some(m - {[65]}) else None
  {
    var s := Next(Start(m), 65);
    NextGoes(Start(m), 65);
    assert [65, c, 61][1..] == [c, 61] && [] + [65 as Byte] == [65] && [65 as Byte] + [c] == [65, c];
    TwoScanned(s, c, 61);
    if c == 10 {
      assert Next(Next(s, c), 61) == Syntax;
    }
  }

  // A value of one character: whitespace is none, and a NUL gets lost.
  lemma ValueCharacter(m: map<Text, Text>, c: Byte)
    requires c !in {10, 35}
    ensures Edited(m, [65, 61, c])
         == Some(if c == 32 || 9 <= c <= 13 then m - {[65]} else m[[65] := if c == 0 then [] else [c]])
  {
    var name: Text, body: seq<Byte> := [65], [c];
    OneLine(m, name, body);
    assert name + [61] + body == [65, 61, c] && body[1..] == [];
    if !IsSpace(c) {
      assert Cleaned([c]) == CleanedOne(c) + Cleaned([]);
      assert Cleaned([c]) == if c == 0 then [] else [c];
    }
  }

  // Behind the first character of a value, whitespace becomes a space.
  lemma InnerCharacter(m: map<Text, Text>, c: Byte)
    requires c !in {10, 35}
    ensures Edited(m, [65, 61, 66, c, 67])
         == Some(m[[65] := if c == 0 then [66, 67] else if c == 32 || 9 <= c <= 13 then [66, 32, 67] else [66, c, 67]])
  {
    var name: Text, body: seq<Byte> := [65], [66, c, 67];
    OneLine(m, name, body);
    assert name + [61] + body == [65, 61, 66, c, 67];
    ThreeCleaned(c);
    var v: Text := if c == 0 then [66, 67] else if c == 32 || 9 <= c <= 13 then [66, 32, 67] else [66, c, 67];
    assert [66] + CleanedOne(c) + [67] == v;
  }

  lemma ThreeCleaned(c: Byte)
    ensures Skipped([66, c, 67]) == [66, c, 67]
    ensures Cleaned([66, c, 67]) == [66] + CleanedOne(c) + [67] && Trim(Cleaned([66, c, 67])) == Cleaned([66, c, 67])
  {
    assert [66, c, 67][1..] == [c, 67] && [c, 67][1..] == [67] && [67 as Byte][1..] == [];
    assert Cleaned([67]) == CleanedOne(67) + Cleaned([]) == [67];
    assert Cleaned([c, 67]) == CleanedOne(c) + [67];
    assert Cleaned([66, c, 67]) == [66] + (CleanedOne(c) + [67]);
  }

  // ----- the code -----

  class Parser {
    var state: State
    var name: Option<Text>
    var value: Option<Text>
    const store: Store

    constructor (store: Store)
      ensures this.store == store && state == St0 && name == None && value == None
    {
      this.store, state, name, value := store, St0, None, None;
    }

    ghost predicate Valid()
      reads this, store
    {
      store.Valid()
    }

    ghost function Now(comment: bool, nl: bool): Scan
      reads this, store
    {
      Scan(state, name, value, comment, nl, store.Contents())
    }

    // flush; that there is a variable is asserted in the code
    method Flush(ghost comment: bool, ghost nl: bool)
      requires Valid() && name.Some?
      modifies this, store
      ensures Valid() && Now(comment, nl) == WithState(Flushed(old(Now(comment, nl))), old(state))
    {
      assert name.Some?;
      if value.None? {
        store.Delete(name.value);
      } else {
        store.Set(name.value, Trim(value.value));
      }
      name, value := None, None;
    }

    method Character(c: Byte, ghost comment: bool, ghost nl: bool) returns (ok: bool)
      requires Valid() && Going(Now(comment, nl)) && state != St0
      modifies this
      ensures Valid() && store.Contents() == old(store.Contents())
      ensures InLine(old(Now(comment, nl)), c) == if ok then Now(comment, nl) else Syntax
    {
      match state {
        case StVar =>
          if IsSpace(c) {
            state := StSpcVar;
          } else if c == EQ {
            state := StSpcVal;
          } else if IsAlnum(c) {
            name := AddChar(name, c);
          } else {
            return false;
          }
        case StSpcVar =>
          if c == EQ {
            state := StSpcVal;
          } else if !IsSpace(c) {
            return false;
          }
        case StSpcVal =>
          if !IsSpace(c) {
            value, state := AddChar(value, c), StVal;
          }
        case StVal =>
          value := AddChar(value, if IsSpace(c) then SPACE else c);
      }
      return true;
    }

    method NewLine(c: Byte, ghost comment: bool) returns (ok: bool)
      requires Valid() && Going(Now(comment, true))
      modifies this, store
      ensures Valid()
      ensures LineStart(old(Now(comment, true)), c) == if ok then Now(comment, true) else Syntax
    {
      if state == StVar || state == StSpcVar {
        if state == StVar {
          if !IsSpace(c) {
            return false;
          }
          state := StSpcVar;
        }
        ok := Character(c, comment, true);
        return;
      }
      if state == StVal {
        value, state := AddChar(Some(Trim(value.value)), SPACE), StSpcVal;
      }
      if state == StSpcVal {
        if IsSpace(c) {
          return true;
        }
        Flush(comment, true);
        state := St0;
      }
      if !IsAlpha(c) {
        return false;
      }
      name, state := AddChar(name, c), StVar;
      return true;
    }

    method DoubleNewLine(ghost comment: bool) returns (ok: bool)
      requires Valid() && Going(Now(comment, true))
      modifies this, store
      ensures Valid()
      ensures EmptyLine(old(Now(comment, true))) == if ok then Now(comment, true) else Syntax
    {
      match state {
        case St0 =>
        case StVar => return false;
        case StSpcVar => return false;
        case _ =>
          Flush(comment, true);
          state := St0;
      }
      return true;
    }

    // parse_edit
    method ParseEdit(file: seq<Byte>) returns (ok: bool)
      requires Valid() && state == St0 && name == None && value == None
      modifies this, store
      ensures Valid()
      ensures Edited(old(store.Contents()), file) == if ok then Some(store.Contents()) else None
    {
      var comment, nl := false, true;
      ghost var start := Now(comment, nl);
      assert start == Start(store.Contents());
      for i := 0 to |file|
        invariant Valid() && Going(Now(comment, nl)) && Now(comment, nl) == ScanAll(start, file[..i])
      {
        ScanNext(start, file, i);
        ok, comment, nl := Read(file[i], comment, nl);
        if !ok {
          SyntaxStays(file[i + 1..]);
          ScanConcat(start, file[..i + 1], file[i + 1..]);
          assert file[..i + 1] + file[i + 1..] == file;
          return;
        }
      }
      assert file[..|file|] == file;
      match state {
        case St0 =>
        case StVar => return false;
        case StSpcVar => return false;
        case _ => Flush(comment, nl);
      }
      return true;
    }

    // One character of the loop.
    method Read(c: Byte, comment: bool, nl: bool) returns (ok: bool, comment': bool, nl': bool)
      requires Valid() && Going(Now(comment, nl))
      modifies this, store
      ensures Valid() && Next(old(Now(comment, nl)), c) == if ok then Now(comment', nl') else Syntax
      ensures ok ==> Going(Now(comment', nl'))
    {
      NextGoes(Now(comment, nl), c);
      ok, comment', nl' := true, comment, nl;
      if c == HASH {
        comment' := true;
      }
      if comment' {
        if c != NEWLINE {
          return;
        }
        comment', nl' := false, false;
      }
      if c == NEWLINE {
        if nl' {
          ok := DoubleNewLine(comment');
        }
        nl' := true;
        return;
      }
      if nl' {
        ok := NewLine(c, comment');
      } else {
        ok := Character(c, comment', nl');
      }
      nl' := false;
    }
  }

  lemma ScanNext(s: Scan, text: seq<Byte>, i: nat)
    requires Going(s) && i < |text|
    ensures ScanAll(s, text[..i + 1]) == Next(ScanAll(s, text[..i]), text[i])
  {
    assert text[..i + 1] == text[..i] + [text[i]];
    ScanConcat(s, text[..i], [text[i]]);
    NextGoes(ScanAll(s, text[..i]), text[i]);
    assert [text[i]][1..] == [];
  }

  lemma {:induction false} SyntaxStays(text: seq<Byte>)
    ensures ScanAll(Syntax, text) == Syntax
    decreases |text|
  {
    if text != [] {
      SyntaxStays(text[1..]);
    }
  }
}
