// Over the runs of the U-Boot environment editor: what can come to be in the store can be written and read
// back as it is (src/host/envedit/env.c).
module EnvRuns {
  import opened Folding
  import opened EnvVars
  import opened EnvImage
  import opened EnvEdit

  // An assignment from the command line, an image, or an edit file; a syntax error in it ends the program.
  datatype Step = Assign(assignment: Text) | Load(body: seq<Byte>) | Edit(text: seq<Byte>)

  // Arguments are strings; that an edit file has no NUL is up to the user.
  ghost predicate StepOk(s: Step) { (s.Assign? ==> NoNul(s.assignment)) && (s.Edit? ==> NoNul(s.text)) }

  function After(m: map<Text, Text>, s: Step): map<Text, Text> {
    match s
    case Assign(assignment) => AfterSet(m, assignment)
    case Load(body) => Assigned(m, ParseBody(body))
    case Edit(text) => if Edited(m, text).Some? then Edited(m, text).value else m
  }

  function AfterAll(m: map<Text, Text>, steps: seq<Step>): map<Text, Text> {
    if steps == [] then m else After(AfterAll(m, steps[..|steps| - 1]), steps[|steps| - 1])
  }

  lemma AssignKeeps(m: map<Text, Text>, assignment: Text)
    requires Proper(m) && NoNul(assignment)
    ensures Proper(AfterSet(m, assignment))
  {
    var eq := Find(assignment, EQ);
    if eq + 1 < |assignment| {
      assert EQ !in assignment[..eq] && NoNul(assignment[..eq]) && NoNul(assignment[eq + 1..]);
      assert assignment[eq + 1..] != [];
    }
  }

  lemma EntryProper(s: seq<Byte>)
    requires NoNul(s)
    ensures forall e | e in ParseEntry(s) :: Plain(e) && Storable(e)
  {
    var eq := Find(s, EQ);
    if eq + 1 < |s| {
      assert EQ !in s[..eq] && NoNul(s[..eq]) && NoNul(s[eq + 1..]) && s[eq + 1..] != [];
    }
  }

  lemma {:induction false} BodyProper(b: seq<Byte>)
    ensures forall e | e in ParseBody(b) :: Plain(e) && Storable(e)
    decreases |b|
  {
    var next := Find(b, 0);
    if next != 0 && next != |b| {
      assert NoNul(b[..next]);
      EntryProper(b[..next]);
      BodyProper(b[next + 1..]);
    }
  }

  lemma {:induction false} AssignedKeeps(m: map<Text, Text>, es: seq<Entry>)
    requires Proper(m) && forall e | e in es :: Plain(e) && Storable(e)
    ensures Proper(Assigned(m, es))
    decreases |es|
  {
    if es != [] {
      assert Plain(es[0]) && Storable(es[0]);
      AssignedKeeps(m[es[0].name := es[0].value], es[1..]);
    }
  }

  // Whatever is assigned, whatever is read, be it an image or not, and whatever edit files without a NUL
  // say: the store stays proper.
  lemma {:induction false} RunsKeep(m: map<Text, Text>, steps: seq<Step>)
    requires Proper(m) && forall k | 0 <= k < |steps| :: StepOk(steps[k])
    ensures Proper(AfterAll(m, steps))
  {
    if steps != [] {
      var n := |steps| - 1;
      RunsKeep(m, steps[..n]);
      match steps[n]
      case Assign(assignment) =>
        assert StepOk(steps[n]);
        AssignKeeps(AfterAll(m, steps[..n]), assignment);
      case Load(body) =>
        BodyProper(body);
        AssignedKeeps(AfterAll(m, steps[..n]), ParseBody(body));
      case Edit(text) =>
        assert StepOk(steps[n]);
        EditKeeps(AfterAll(m, steps[..n]), text);
    }
  }

  ghost predicate Strings(m: map<Text, Text>) { forall n | n in m :: NoNul(n) && NoNul(m[n]) }

  lemma StringsStorable(vars: seq<Slot>)
    requires Unique(vars) && Strings(MapOf(vars))
    ensures forall i | 0 <= i < |EntriesOf(vars)| :: Storable(EntriesOf(vars)[i])
  {
    var es := EntriesOf(vars);
    forall i | 0 <= i < |es| ensures Storable(es[i]) {
      assert es[i] in es;
      if vars != [] {
        EntriesFrom(vars, 0);
        var k :| 0 <= k < |vars| && vars[k] == Used(es[i].name, es[i].value);
        MapHas(vars, es[i].name);
      }
    }
  }

  // So after any run that starts with nothing, what is written reads back as the same map.
  lemma ReachedRoundTrip(steps: seq<Step>, vars: seq<Slot>, size: nat, crc: seq<Byte> -> int)
    requires forall k | 0 <= k < |steps| :: StepOk(steps[k])
    requires Unique(vars) && MapOf(vars) == AfterAll(map[], steps) && |EntriesBytes(EntriesOf(vars))| + 5 <= size
    ensures var img := Image(EntriesOf(vars), size, crc);
            |img| == size && CrcOf(img[..4]) == Checksum(crc, img[4..]) && Assigned(map[], ParseBody(img[4..])) == MapOf(vars)
  {
    RunsKeep(map[], steps);
    StringsStorable(vars);
    ImageRoundTrip(vars, size, crc);
  }

  // One run of the program writes, the next one reads: it has the same variables exactly if no name has a
  // '=' and no value is empty.
  method SaveAndLoad(first: Env, sorted: seq<Slot>, second: Env) returns (saved: Outcome, loaded: Outcome)
    requires first.Valid() && second.Valid() && first.size == second.size && first.crc == second.crc
    requires {first, first.env, first.store} !! {second, second.env, second.store}
    requires SortOf(sorted, first.store.vars) && Strings(first.store.Contents()) && second.store.Contents() == map[]
    modifies first.env, first.store, second.env, second.store
    ensures saved == Done || saved == TooBig
    ensures saved == Done ==> loaded == Done
    ensures saved == Done ==> (second.store.Contents() == old(first.store.Contents()) <==> Keeps(old(first.store.Contents())))
  {
    ghost var m := first.store.Contents();
    Sorts(first.store, sorted);
    var file;
    saved, file := first.WriteEnv(sorted);
    loaded := Done;
    if saved == Done {
      StringsStorable(sorted);
      ImageRoundTrip(sorted, first.size, first.crc);
      assert file[..second.size] == file;
      loaded := second.ReadEnv(file, false);
      assert second.env[4..second.size] == second.env[..second.size][4..];
      second.ParseEnv();
    }
  }

  lemma Sorts(store: Store, sorted: seq<Slot>)
    requires store.Valid() && SortOf(sorted, store.vars)
    ensures Unique(sorted) && MapOf(sorted) == store.Contents()
  {
    assert Unfold(0);
    Sorted(sorted, store.vars);
  }
}
