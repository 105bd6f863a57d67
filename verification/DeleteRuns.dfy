// What every delete function of fped keeps (eda/fped/delete.c), so that any one of them may follow any
// other.
module DeleteRuns {
  import opened Wrappers
  import opened Folding
  import opened SeqMinus
  import opened DeleteLog
  import opened DeleteColumns
  import opened DeleteUndo
  import opened DeleteCascade
  import opened DeleteActions
  import opened DeleteSound

  // Items are on lists of their kind, without repetition, and the vectors of each frame have their bases
  // before them: what the delete functions rely on.
  ghost predicate Whole(ls: Lists, frames: Anchor) {
    forall k {:trigger Look(k)} :: Look(k) ==> WholeNow(ls, frames)
  }

  ghost predicate WholeNow(ls: Lists, frames: Anchor) {
    && Typed(ls) && NoDups(ls) && frames in ls && frames.kind == Frames
    && forall a, v | a in ls && v in ls[a] && v.item.VecItem? :: SceneOk(Scene(ls, frames, v.item.frame))
  }

  datatype Action =
    | DelVec(vec: Node)
    | DelNode(node: Node)  // an object, row, table or loop
    | DelFrame(frame: Node)
    | DelColumn(table: Node, n: nat)

  ghost predicate CanAct(ls: Lists, frames: Anchor, act: Action) {
    match act
    case DelVec(v) => v.item.VecItem? && IsOn(ls, v)
    case DelNode(x) => !x.item.VecItem? && !x.item.FrameItem? && IsOn(ls, x)
    case DelFrame(f) => frames in ls && f in ls[frames]
    case DelColumn(table, n) => IsOn(ls, table) && HasColumn(ls, table, n)
  }

  // What each delete function leaves.
  ghost function After(ls: Lists, frames: Anchor, act: Action): Lists {
    match act
    case DelVec(v) =>
      if v.item.VecItem? then AfterVec(Scene(ls, frames, v.item.frame), v) else ls
    case DelNode(x) => MinusAll(ls, {x})
    case DelFrame(f) => if frames in ls then AfterFrame(ls, frames, f) else ls
    case DelColumn(table, n) => WithoutColumn(ls, table, n)
  }

  method Delete(doc: Document, act: Action)
    requires doc.Valid() && Whole(doc.Lists(), doc.frames) && CanAct(doc.Lists(), doc.frames, act)
    modifies doc, doc.anchors, doc.nodes
    ensures doc.Valid() && Whole(doc.Lists(), doc.frames)
    ensures doc.Lists() == After(old(doc.Lists()), doc.frames, act)
    ensures Deletes(old(Past(doc)), Past(doc)) && doc.groups == old(doc.groups) + 1
    ensures old(NothingDangles(doc.Lists(), doc.frames)) ==> NothingDangles(doc.Lists(), doc.frames)
  {
    ActionKeeps(doc.Lists(), doc.frames, act);
    ActionSound(doc.Lists(), doc.frames, act);
    WholeHas(doc.Lists(), doc.frames, act);
    match act {
      case DelVec(v) => DeleteVec(doc, v);
      case DelNode(x) => DeleteNode(doc, x);
      case DelFrame(f) => DeleteFrame(doc, f);
      case DelColumn(table, n) => doc.DeleteColumn(table, n);
    }
  }

  lemma WholeHas(ls: Lists, frames: Anchor, act: Action)
    requires Whole(ls, frames) && CanAct(ls, frames, act)
    ensures Typed(ls) && (act.DelVec? ==> SceneOk(Scene(ls, frames, act.vec.item.frame)))
  {
    assert Look(0);
  }

  // ----- what is kept -----

  // Fewer elements, but the same vectors.
  lemma SameVecsWhole(ls: Lists, frames: Anchor, ls': Lists)
    requires Whole(ls, frames) && Sublists(ls', ls) && NoDups(ls') && forall a | a in ls && a.kind == Vecs :: ls'[a] == ls[a]
    ensures Whole(ls', frames)
  {
    assert Look(0);
    forall a, x | a in ls' && x in ls'[a] ensures x.home == a && ItemOk(ls', x) {
      assert ItemOk(ls, x);
    }
    forall a, v | a in ls' && v in ls'[a] && v.item.VecItem? ensures SceneOk(Scene(ls', frames, v.item.frame)) {
      assert SceneOk(Scene(ls, frames, v.item.frame)) && ItemOk(ls, v);
      assert VecsOf(Scene(ls', frames, v.item.frame)) == VecsOf(Scene(ls, frames, v.item.frame));
    }
  }

  lemma MinusAllSub(ls: Lists, d: set<Node>)
    requires NoDups(ls)
    ensures Sublists(MinusAll(ls, d), ls) && NoDups(MinusAll(ls, d))
  {
    forall a | a in ls ensures NoDup(Minus(ls[a], d)) && forall x | x in Minus(ls[a], d) :: x in ls[a] {
      MinusNoDup(ls[a], d);
      forall x | x in Minus(ls[a], d) ensures x in ls[a] {
        MinusIn(ls[a], d, x);
      }
    }
  }

  lemma NoVecKeeps(ls: Lists, frames: Anchor, d: set<Node>)
    requires Whole(ls, frames) && forall x | x in d :: !x.item.VecItem?
    ensures Whole(MinusAll(ls, d), frames)
  {
    assert Look(0);
    MinusAllSub(ls, d);
    forall a | a in ls && a.kind == Vecs ensures Minus(ls[a], d) == ls[a] {
      forall x | x in ls[a] ensures x.item.VecItem? {
        assert ItemOk(ls, x);
      }
      MinusNothing(ls[a], d);
    }
    SameVecsWhole(ls, frames, MinusAll(ls, d));
  }

  lemma ColumnKeeps(ls: Lists, frames: Anchor, table: Node, n: nat)
    requires Whole(ls, frames) && IsOn(ls, table) && HasColumn(ls, table, n)
    ensures Whole(WithoutColumn(ls, table, n), frames)
  {
    assert Look(0);
    var cells := Cells(ls, table);
    var end := |cells|;
    CutSub(ls, cells, n);
    forall a | a in ls ensures NoDup(Cut(ls, cells, 0, end, n)[a]) {
      if Among(cells, 0, end, a) && n < |ls[a]| {
        MinusOne(ls[a], n);
        MinusNoDup(ls[a], {ls[a][n]});
      }
    }
    forall a | a in ls && a.kind == Vecs ensures Cut(ls, cells, 0, end, n)[a] == ls[a] {
      if a in cells {
        CellKinds(ls, table, n, a);
      }
      assert !Among(cells, 0, end, a);
    }
    SameVecsWhole(ls, frames, WithoutColumn(ls, table, n));
  }

  lemma CellKinds(ls: Lists, table: Node, n: nat, a: Anchor)
    requires Typed(ls) && IsOn(ls, table) && HasColumn(ls, table, n) && a in Cells(ls, table)
    ensures a.kind in {Vars, Values}
  {
    var k: nat :| k < |Cells(ls, table)| && Cells(ls, table)[k] == a;
    CellAt(ls, table, n, 0);
    CellAt(ls, table, n, k);
    assert ItemOk(ls, table);
    if k > 0 {
      assert ItemOk(ls, ls[table.item.rows][k - 1]);
    }
  }

  lemma VecKeeps(ls: Lists, frames: Anchor, v: Node)
    requires Whole(ls, frames) && v.item.VecItem? && IsOn(ls, v)
    ensures Whole(After(ls, frames, DelVec(v)), frames)
  {
    assert Look(0);
    var c := Scene(ls, frames, v.item.frame);
    var d := Doomed(c, Subtree(VecsOf(c), v));
    var ls' := MinusAll(ls, d);
    MinusAllSub(ls, d);
    TypedMinus(ls, d);
    assert SceneOk(c);
    forall a, x: Node | a in ls' && x in ls'[a] && x.item.VecItem? ensures SceneOk(Scene(ls', frames, x.item.frame)) {
      assert x in ls[a] && ItemOk(ls, x) && SceneOk(Scene(ls, frames, x.item.frame));
      SceneKept(c, v, d, x.item.frame, a);
    }
  }

  // The vectors of a frame, after those of one frame that depend on v have gone.
  lemma SceneKept(c: Scene, v: Node, d: set<Node>, frame: Node, a: Anchor)
    requires SceneOk(c) && SceneOk(Scene(c.ls, c.frames, frame)) && d == Doomed(c, Subtree(VecsOf(c), v))
    requires frame.item.vecs == a
    ensures SceneOk(Scene(MinusAll(c.ls, d), c.frames, frame))
  {
    var s := c.ls[a];
    MinusAllSub(c.ls, d);
    TypedMinus(c.ls, d);
    forall x | x in s ensures x in d <==> x in VecsOf(c) && DependsOn(x, v) {
      assert x.item.VecItem?;
      if x in VecsOf(c) {
        DoomedVecs(c, Subtree(VecsOf(c), v), x);
      }
    }
    if frame == c.frame {
      BasesFirstAfter(s, v, d);
    } else {
      forall x | x in s ensures x !in d {
        assert x.item.frame == frame;
      }
      MinusNothing(s, d);
    }
  }

  lemma ActionKeeps(ls: Lists, frames: Anchor, act: Action)
    requires Whole(ls, frames) && CanAct(ls, frames, act)
    ensures Whole(After(ls, frames, act), frames)
  {
    match act
    case DelVec(v) => VecKeeps(ls, frames, v);
    case DelNode(x) => NoVecKeeps(ls, frames, {x});
    case DelFrame(f) =>
      assert Look(0);
      assert ItemOk(ls, f);
      NoVecKeeps(ls, frames, {f} + FrameHits(ls, ls[frames], f, |ls[frames]|));
    case DelColumn(table, n) => ColumnKeeps(ls, frames, table, n);
  }

  // Where nothing dangles, nothing dangles afterwards.
  lemma ActionSound(ls: Lists, frames: Anchor, act: Action)
    requires Whole(ls, frames) && CanAct(ls, frames, act)
    ensures NothingDangles(ls, frames) ==> NothingDangles(After(ls, frames, act), frames)
  {
    if NothingDangles(ls, frames) {
      assert Look(0);
      match act
      case DelVec(v) =>
        assert ItemOk(ls, v) && SceneOk(Scene(ls, frames, v.item.frame));
        VecSound(Scene(ls, frames, v.item.frame), v);
      case DelNode(x) => NodeSound(ls, frames, x);
      case DelFrame(f) => FrameSound(ls, frames, f);
      case DelColumn(table, n) => ColumnSound(ls, frames, table, n);
    }
  }

  lemma NodeSound(ls: Lists, frames: Anchor, x: Node)
    requires Whole(ls, frames) && NothingDangles(ls, frames) && CanAct(ls, frames, DelNode(x))
    ensures NothingDangles(MinusAll(ls, {x}), frames)
  {
    assert Look(0);
    MinusAllSub(ls, {x});
    assert ItemOk(ls, x);
    forall a | a in ls && a.kind in {Vecs, Frames} ensures Minus(ls[a], {x}) == ls[a] {
      MinusNothing(ls[a], {x});
    }
    OthersSound(ls, frames, MinusAll(ls, {x}));
  }

  lemma ColumnSound(ls: Lists, frames: Anchor, table: Node, n: nat)
    requires Whole(ls, frames) && NothingDangles(ls, frames) && CanAct(ls, frames, DelColumn(table, n))
    ensures NothingDangles(WithoutColumn(ls, table, n), frames)
  {
    assert Look(0);
    var cells := Cells(ls, table);
    CutSub(ls, cells, n);
    forall a | a in ls && a.kind in {Vecs, Frames} ensures WithoutColumn(ls, table, n)[a] == ls[a] {
      if a in cells {
        CellKinds(ls, table, n, a);
      }
      assert !Among(cells, 0, |cells|, a);
    }
    OthersSound(ls, frames, WithoutColumn(ls, table, n));
  }

  // ----- runs -----

  ghost function AfterAll(ls: Lists, frames: Anchor, acts: seq<Action>): Lists
    decreases |acts|
  {
    if acts == [] then ls else AfterAll(After(ls, frames, acts[0]), frames, acts[1..])
  }

  ghost predicate CanActAll(ls: Lists, frames: Anchor, acts: seq<Action>)
    decreases |acts|
  {
    acts != [] ==> CanAct(ls, frames, acts[0]) && CanActAll(After(ls, frames, acts[0]), frames, acts[1..])
  }

  // Over any run of deletes, what they rely on stays, and nothing comes to dangle.
  lemma {:induction false} RunKeepsWhole(ls: Lists, frames: Anchor, acts: seq<Action>)
    requires Whole(ls, frames) && CanActAll(ls, frames, acts)
    ensures Whole(AfterAll(ls, frames, acts), frames)
    ensures NothingDangles(ls, frames) ==> NothingDangles(AfterAll(ls, frames, acts), frames)
    decreases |acts|
  {
    if acts != [] {
      ActionKeeps(ls, frames, acts[0]);
      ActionSound(ls, frames, acts[0]);
      RunKeepsWhole(After(ls, frames, acts[0]), frames, acts[1..]);
    }
  }

  lemma {:induction false} AfterNext(ls: Lists, frames: Anchor, acts: seq<Action>, i: nat)
    requires i < |acts|
    ensures AfterAll(ls, frames, acts[..i + 1]) == After(AfterAll(ls, frames, acts[..i]), frames, acts[i])
    ensures CanActAll(ls, frames, acts) ==> CanAct(AfterAll(ls, frames, acts[..i]), frames, acts[i])
    decreases i
  {
    if i == 0 {
      assert acts[..1] == [acts[0]] && [acts[0]][1..] == [] && acts[..0] == [];
    } else {
      AfterNext(After(ls, frames, acts[0]), frames, acts[1..], i - 1);
      assert acts[..i][1..] == acts[1..][..i - 1] && acts[..i + 1][1..] == acts[1..][..i];
    }
  }

  // ----- runs, and undoing them -----

  // The lists at the end of a history.
  ghost function Now(h: History): Option<Lists> {
    if h.stages == [] then None else Some(h.stages[|h.stages| - 1])
  }

  // The histories before and after each of the first actions, which all were possible.
  ghost predicate Passed(ls: Lists, frames: Anchor, acts: seq<Action>, run: seq<History>) {
    forall k {:trigger Unfold(k)} :: Unfold(k) ==>
      && Whole(ls, frames) && CanActAll(ls, frames, acts) && 0 < |run| <= |acts| + 1
      && AllDelete(run) && AllAfter(ls, frames, acts, run)
  }

  ghost predicate AllDelete(run: seq<History>) {
    forall j: nat {:trigger DeletesAt(run, j)} | j + 1 < |run| :: DeletesAt(run, j)
  }

  ghost predicate DeletesAt(run: seq<History>, j: nat)
    requires j + 1 < |run|
  {
    Deletes(run[j], run[j + 1])
  }

  ghost predicate AllAfter(ls: Lists, frames: Anchor, acts: seq<Action>, run: seq<History>)
    requires |run| <= |acts| + 1
  {
    forall j | 0 <= j < |run| :: Now(run[j]) == Some(AfterAll(ls, frames, acts[..j]))
  }

  lemma AllDeleteNext(run: seq<History>, h: History)
    requires AllDelete(run) && run != [] && Deletes(run[|run| - 1], h)
    ensures AllDelete(run + [h])
  {
    forall j: nat | j + 1 < |run| + 1 ensures DeletesAt(run + [h], j) {
      if j + 1 < |run| {
        assert DeletesAt(run, j);
      }
    }
  }

  lemma PassedNone(ls: Lists, frames: Anchor, acts: seq<Action>, h: History)
    requires Whole(ls, frames) && CanActAll(ls, frames, acts) && Now(h) == Some(ls)
    ensures Passed(ls, frames, acts, [h])
  {
    assert AfterAll(ls, frames, acts[..0]) == ls;
  }

  // Before one more action: it is possible.
  lemma CanGoOn(ls: Lists, frames: Anchor, acts: seq<Action>, run: seq<History>, i: nat)
    requires Passed(ls, frames, acts, run) && |run| == i + 1 && i < |acts|
    ensures Now(run[i]).Some? && Whole(Now(run[i]).value, frames) && CanAct(Now(run[i]).value, frames, acts[i])
  {
    assert Unfold(0);
    AfterNext(ls, frames, acts, i);
    CanActFirst(ls, frames, acts, i);
    RunKeepsWhole(ls, frames, acts[..i]);
  }

  lemma {:induction false} CanActFirst(ls: Lists, frames: Anchor, acts: seq<Action>, i: nat)
    requires CanActAll(ls, frames, acts) && i <= |acts|
    ensures CanActAll(ls, frames, acts[..i])
    decreases i
  {
    if i > 0 {
      CanActFirst(After(ls, frames, acts[0]), frames, acts[1..], i - 1);
      assert acts[..i][1..] == acts[1..][..i - 1];
    }
  }

  lemma AllAfterNext(ls: Lists, frames: Anchor, acts: seq<Action>, run: seq<History>, h: History)
    requires 0 < |run| <= |acts| && AllAfter(ls, frames, acts, run)
    requires var i := |run| - 1;
             Now(run[i]).Some? && Now(h) == Some(After(Now(run[i]).value, frames, acts[i]))
    ensures AllAfter(ls, frames, acts, run + [h])
  {
    AfterNext(ls, frames, acts, |run| - 1);
  }

  lemma PassedNext(ls: Lists, frames: Anchor, acts: seq<Action>, run: seq<History>, i: nat, h: History)
    requires Passed(ls, frames, acts, run) && |run| == i + 1 && i < |acts| && Deletes(run[i], h)
    requires Now(run[i]).Some? && Now(h) == Some(After(Now(run[i]).value, frames, acts[i]))
    ensures Passed(ls, frames, acts, run + [h])
  {
    assert Unfold(0);
    AllDeleteNext(run, h);
    AllAfterNext(ls, frames, acts, run, h);
  }

  // The document has come to the end of a history.
  ghost predicate At(doc: Document, h: History)
    reads doc, doc.anchors, doc.nodes
  {
    forall k {:trigger Unfold(k)} :: Unfold(k) ==> doc.Valid() && Past(doc) == h
  }

  lemma AtEnd(doc: Document, h: History)
    requires At(doc, h)
    ensures doc.Valid() && Past(doc) == h && Now(h) == Some(doc.Lists())
  {
    assert Unfold(0);
  }

  method DeleteFrom(doc: Document, act: Action, ghost h: History, ghost ls: Lists) returns (ghost h': History)
    requires At(doc, h) && Now(h) == Some(ls) && Whole(ls, doc.frames) && CanAct(ls, doc.frames, act)
    modifies doc, doc.anchors, doc.nodes
    ensures At(doc, h') && Deletes(h, h') && Now(h') == Some(After(ls, doc.frames, act))
  {
    AtEnd(doc, h);
    Delete(doc, act);
    h' := Past(doc);
  }

  method DeleteNext(doc: Document, acts: seq<Action>, i: nat, ghost ls: Lists, ghost run: seq<History>)
    returns (ghost run': seq<History>)
    requires |run| == i + 1 && i < |acts| && At(doc, run[i]) && Passed(ls, doc.frames, acts, run)
    modifies doc, doc.anchors, doc.nodes
    ensures |run'| == i + 2 && run'[0] == run[0] && At(doc, run'[i + 1]) && Passed(ls, doc.frames, acts, run')
  {
    CanGoOn(ls, doc.frames, acts, run, i);
    ghost var h := DeleteFrom(doc, acts[i], run[i], Now(run[i]).value);
    PassedNext(ls, doc.frames, acts, run, i, h);
    run' := run + [h];
  }

  method UndeleteLast(doc: Document, ghost before: History, ghost now: History)
    requires At(doc, now) && Deletes(before, now)
    modifies doc, doc.anchors, doc.nodes
    ensures At(doc, before)
  {
    AtEnd(doc, now);
    UndeleteUndoesDelete(before, now);
    var any := doc.Undelete();
  }

  // Any run of deletes, and then any number of undeletes: what is left is the run without its end, in the
  // lists and in the log.
  method DeleteAndUndelete(doc: Document, acts: seq<Action>, times: nat)
    requires doc.Valid() && Whole(doc.Lists(), doc.frames) && CanActAll(doc.Lists(), doc.frames, acts) && times <= |acts|
    modifies doc, doc.anchors, doc.nodes
    ensures doc.Valid() && doc.Lists() == AfterAll(old(doc.Lists()), doc.frames, acts[..|acts| - times])
    ensures times == |acts| ==> Past(doc) == old(Past(doc))
  {
    Begins(doc, acts);
    GoAndReturn(doc, acts, times, doc.Lists(), Past(doc));
  }

  method GoAndReturn(doc: Document, acts: seq<Action>, times: nat, ghost ls: Lists, ghost start: History)
    requires At(doc, start) && Passed(ls, doc.frames, acts, [start]) && times <= |acts|
    modifies doc, doc.anchors, doc.nodes
    ensures doc.Valid() && doc.Lists() == AfterAll(ls, doc.frames, acts[..|acts| - times])
    ensures times == |acts| ==> Past(doc) == start
  {
    ghost var run := DeleteAll(doc, acts, ls, start);
    UndeleteTimes(doc, acts, times, ls, run);
    AtEnd(doc, run[|acts| - times]);
    PassedUpTo(ls, doc.frames, acts, run, |acts| - times);
  }

  lemma Begins(doc: Document, acts: seq<Action>)
    requires doc.Valid() && Whole(doc.Lists(), doc.frames) && CanActAll(doc.Lists(), doc.frames, acts)
    ensures At(doc, Past(doc)) && Passed(doc.Lists(), doc.frames, acts, [Past(doc)])
  {
    PassedNone(doc.Lists(), doc.frames, acts, Past(doc));
  }

  method DeleteAll(doc: Document, acts: seq<Action>, ghost ls: Lists, ghost start: History) returns (ghost run: seq<History>)
    requires At(doc, start) && Passed(ls, doc.frames, acts, [start])
    modifies doc, doc.anchors, doc.nodes
    ensures |run| == |acts| + 1 && run[0] == start && At(doc, run[|acts|]) && Passed(ls, doc.frames, acts, run)
  {
    run := [start];
    for i := 0 to |acts|
      invariant |run| == i + 1 && run[0] == start && At(doc, run[i]) && Passed(ls, doc.frames, acts, run)
    {
      run := DeleteNext(doc, acts, i, ls, run);
    }
  }

  method UndeleteTimes(doc: Document, acts: seq<Action>, times: nat, ghost ls: Lists, ghost run: seq<History>)
    requires |run| == |acts| + 1 && At(doc, run[|acts|]) && Passed(ls, doc.frames, acts, run) && times <= |acts|
    modifies doc, doc.anchors, doc.nodes
    ensures At(doc, run[|acts| - times])
  {
    ghost var n := |acts|;
    for j := 0 to times
      invariant n == |acts| - j && At(doc, run[n])
    {
      PassedAt(ls, doc.frames, acts, run, n - 1);
      UndeleteLast(doc, run[n - 1], run[n]);
      n := n - 1;
    }
  }

  lemma PassedAt(ls: Lists, frames: Anchor, acts: seq<Action>, run: seq<History>, j: nat)
    requires Passed(ls, frames, acts, run) && j + 1 < |run|
    ensures Deletes(run[j], run[j + 1])
  {
    assert Unfold(0);
    assert DeletesAt(run, j);
  }

  lemma PassedUpTo(ls: Lists, frames: Anchor, acts: seq<Action>, run: seq<History>, j: nat)
    requires Passed(ls, frames, acts, run) && j < |run|
    ensures j <= |acts| && Now(run[j]) == Some(AfterAll(ls, frames, acts[..j]))
  {
    assert Unfold(0);
  }
}
