// The delete functions of fped (eda/fped/delete.c): what each takes off which list.
module DeleteActions {
  import opened Folding
  import opened SeqMinus
  import opened DeleteLog
  import opened DeleteUndo
  import opened DeleteCascade

  // ----- documents -----

  // An item is on a list of its kind, and the lists it names exist.
  ghost predicate ItemOk(ls: Lists, x: Node) {
    match x.item
    case FrameItem(vecs, objs, tables, loops) =>
      && x.home.kind == Frames
      && vecs in ls && vecs.kind == Vecs && objs in ls && objs.kind == Objs
    case VecItem(frame, base) =>
      && x.home.kind == Vecs
      && frame.item.FrameItem? && frame.item.vecs == x.home
      && frame.item.objs in ls && frame.item.objs.kind == Objs
      && (base != null ==> base.item.VecItem?)
    case ObjItem(owner, anchor, shape) =>
      && x.home.kind == Objs
      && owner.item.FrameItem? && owner.item.objs == x.home
      && (shape.Meas? ==> anchor != null && anchor.item.VecItem? && shape.high.item.VecItem?)
    case TableItem(vars, rows) => x.home.kind == Tables && vars.kind == Vars && rows.kind == Rows
    case RowItem(values) => x.home.kind == Rows && values.kind == Values
    case _ => x.home.kind in {Vars, Values, Loops}
  }

  ghost predicate Typed(ls: Lists) {
    forall a | a in ls :: forall x | x in ls[a] :: x.home == a && ItemOk(ls, x)
  }

  lemma TypedMinus(ls: Lists, d: set<Node>)
    requires Typed(ls)
    ensures Typed(MinusAll(ls, d))
  {
    forall a, x | a in ls && x in Minus(ls[a], d) ensures x.home == a && ItemOk(MinusAll(ls, d), x) {
      MinusIn(ls[a], d, x);
      assert ItemOk(ls, x);
    }
  }

  // ----- a deletion under way -----

  // From lists ls, the nodes in dead have been taken away.
  ghost predicate Working(doc: Document, ls: Lists, dead: set<Node>)
    reads doc, doc.anchors, doc.nodes
  {
    && doc.Valid() && Typed(ls) && NoDups(ls) && doc.frames in ls
    && doc.Lists() == MinusAll(ls, dead) && AllSkip(doc.memory, ls, dead)
  }

  ghost function Past(doc: Document): History
    reads doc
  {
    History(doc.stages, doc.deletions)
  }

  // From h to h', deletions were added, all of group g.
  ghost predicate Grown(h: History, h': History, g: nat) {
    && |h.log| <= |h'.log| && h'.log[..|h.log|] == h.log
    && |h.stages| <= |h'.stages| && h'.stages[..|h.stages|] == h.stages
    && forall k | |h.log| <= k < |h'.log| :: h'.log[k].group == g
  }

  lemma GrownTwice(h: History, h': History, h'': History, g: nat)
    requires Grown(h, h', g) && Grown(h', h'', g)
    ensures Grown(h, h'', g)
  {
    assert h''.log[..|h.log|] == h''.log[..|h'.log|][..|h.log|];
    assert h''.stages[..|h.stages|] == h''.stages[..|h'.stages|][..|h.stages|];
    forall k | |h.log| <= k < |h''.log| ensures h''.log[k].group == g {
      if k < |h'.log| {
        assert h''.log[k] == h''.log[..|h'.log|][k];
      }
    }
  }

  lemma WorkingStarts(doc: Document)
    requires doc.Valid() && Typed(doc.Lists())
    ensures Working(doc, doc.Lists(), {})
  {
    var ls := doc.Lists();
    MinusAllNothing(ls);
    forall a | a in ls ensures NoDup(ls[a]) && SkipsIn(doc.memory, ls, {}, a) {
      assert ListOk(doc.memory, ls, a);
    }
  }

  // Taking one node away.
  method Remove(doc: Document, x: Node, ghost ls: Lists, ghost dead: set<Node>) returns (ghost dead': set<Node>)
    requires Working(doc, ls, dead) && x.home in ls && x in ls[x.home] && x !in dead
    modifies doc, doc.anchors, doc.nodes
    ensures dead' == dead + {x} && Working(doc, ls, dead') && doc.groups == old(doc.groups)
    ensures x.next == old(x.next)
    ensures Grown(old(Past(doc)), Past(doc), doc.groups) && |doc.deletions| == |old(doc.deletions)| + 1
  {
    MinusIn(ls[x.home], dead, x);
    AllSkipUnlinked(doc.memory, ls, dead, x);
    MinusAllOne(ls, dead, x);
    ghost var t := Minus(ls[x.home], dead);
    MinusNoDup(ls[x.home], dead);
    if IndexOf(t, x) > 0 {
      NoDupAt(t, IndexOf(t, x) - 1, IndexOf(t, x));
    }
    doc.Unlink(x);
    dead' := dead + {x};
  }

  // ----- objects -----

  predicate HasRef(o: Node, r: Node) {
    o.item.ObjItem? && (o.item.anchor == r || ShapeHasRef(o.item.shape, r))
  }

  predicate ShapeHasRef(shape: Shape, r: Node) {
    match shape
    case FrameRef(ref) => false
    case Line(other) => other == r
    case Rect(other) => other == r
    case Pad(other) => other == r
    case Hole(other) => other == r
    case Arc(start, end) => start == r || end == r
    case Meas(high, _, _) => high == r
  }

  predicate QualRef(quals: seq<Node>, f: Node) { f in quals }

  // The test in delete_references.
  predicate HasFrameRef(o: Node, f: Node) {
    && o.item.ObjItem?
    && match o.item.shape
       case FrameRef(ref) => ref == f
       case Meas(high, low, highQual) =>
         FrameOf(o.item.anchor) == f || FrameOf(high) == f || QualRef(low, f) || QualRef(highQual, f)
       case _ => false
  }

  function FrameOf(x: Node?): Node? { if x != null && x.item.VecItem? then x.item.frame else null }

  // What the objects to be deleted refer to.
  datatype Target = ToVec(vec: Node) | ToFrame(frame: Node)

  predicate Hit(o: Node, t: Target) {
    match t
    case ToVec(vec) => HasRef(o, vec)
    case ToFrame(frame) => HasFrameRef(o, frame)
  }

  ghost function Hits(s: seq<Node>, t: Target): set<Node> { set o | o in s && Hit(o, t) }

  // The objects of a list that refer to one of the vectors in vs.
  ghost function Users(s: seq<Node>, vs: set<Node>): set<Node> {
    set o | o in s && exists r :: r in vs && HasRef(o, r)
  }

  lemma UsersUnion(s: seq<Node>, vs: set<Node>, ws: set<Node>)
    ensures Users(s, vs + ws) == Users(s, vs) + Users(s, ws)
  {}

  // Pointer p leads to position j of s: from position i on, it passes over dead nodes only.
  ghost predicate Lands(s: seq<Node>, p: Node?, dead: set<Node>, i: nat, j: nat) {
    && i <= j <= |s| && (if p == null then j == |s| else j < |s| && p == s[j])
    && forall k | i <= k < j :: s[k] in dead
  }

  lemma FirstLands(doc: Document, a: Anchor, ls: Lists, dead: set<Node>) returns (j: nat)
    requires Working(doc, ls, dead) && a in ls
    ensures Lands(ls[a], a.first, dead, 0, j) && (a.first != null ==> a.first !in dead)
  {
    assert ListOk(doc.memory, doc.Lists(), a);
    SkipToHead(ls[a], dead);
    j := SkipLands(ls[a], a.first, dead);
    if a.first != null {
      var first: Node := a.first;
      assert first in Minus(ls[a], dead);
      MinusIn(ls[a], dead, first);
    }
  }

  lemma NextLands(doc: Document, a: Anchor, ls: Lists, dead: set<Node>, i: nat) returns (j: nat)
    requires Working(doc, ls, dead) && a in ls && i < |ls[a]|
    ensures var next := ls[a][i].next;
            Lands(ls[a], next, dead, i + 1, j) && (ls[a][i] !in dead && next != null ==> next !in dead)
  {
    var s := ls[a];
    var x := s[i];
    if x in dead {
      assert SkipsIn(doc.memory, ls, dead, a) && SkipOk(doc.memory, s, i, dead);
    } else {
      SkipToAfter(s, dead, i);
      var t := Minus(s, dead);
      assert ListOk(doc.memory, doc.Lists(), a) && Leads(doc.memory, t, IndexOf(t, x));
      if x.next != null {
        var y: Node := x.next;
        assert y in t;
        MinusIn(s, dead, y);
      }
    }
    j := SkipLands(s[i + 1..], x.next, dead);
    assert forall k | i < k < i + 1 + j :: s[k] == s[i + 1..][k - i - 1];
    j := i + 1 + j;
  }

  ghost predicate HitsTaken(s: seq<Node>, t: Target, dead: set<Node>, dead': set<Node>, i: nat)
    requires i <= |s|
  {
    && dead <= dead' <= dead + Hits(s, t)
    && forall k | 0 <= k < i && Hit(s[k], t) :: s[k] in dead'
  }

  lemma HitsUpTo(s: seq<Node>, t: Target, dead: set<Node>, was: set<Node>, now: set<Node>, i: nat, j: nat)
    requires i < j <= |s| && HitsTaken(s, t, dead, was, i)
    requires now == if Hit(s[i], t) then was + {s[i]} else was
    requires forall k | i < k < j :: s[k] in was
    ensures HitsTaken(s, t, dead, now, j)
  {}

  // delete_objs_by_ref, and the inner loop of delete_references
  method DeleteObjs(doc: Document, a: Anchor, t: Target, ghost ls: Lists, ghost dead: set<Node>)
    returns (ghost dead': set<Node>)
    requires Working(doc, ls, dead) && a in ls
    modifies doc, doc.anchors, doc.nodes
    ensures Working(doc, ls, dead') && dead' == dead + Hits(ls[a], t)
    ensures Grown(old(Past(doc)), Past(doc), doc.groups) && doc.groups == old(doc.groups)
  {
    dead' := dead;
    ghost var s := ls[a];
    var obj := a.first;
    ghost var i := FirstLands(doc, a, ls, dead);
    while obj != null
      invariant Working(doc, ls, dead') && doc.groups == old(doc.groups)
      invariant Grown(old(Past(doc)), Past(doc), doc.groups)
      invariant Lands(s, obj, dead', i, i) && (obj != null ==> obj !in dead')
      invariant HitsTaken(s, t, dead, dead', i)
      decreases |s| - i
    {
      ghost var j := NextLands(doc, a, ls, dead', i);
      ghost var was := dead';
      dead' := DeleteIfHit(doc, obj, t, ls, dead', old(Past(doc)));
      if j < |s| {
        NoDupAt(s, i, j);
      }
      HitsUpTo(s, t, dead, was, dead', i, j);
      obj, i := obj.next, j;
    }
  }

  method DeleteIfHit(doc: Document, obj: Node, t: Target, ghost ls: Lists, ghost dead: set<Node>, ghost past: History)
    returns (ghost dead': set<Node>)
    requires Working(doc, ls, dead) && obj.home in ls && obj in ls[obj.home] && obj !in dead
    requires Grown(past, Past(doc), doc.groups)
    modifies doc, doc.anchors, doc.nodes
    ensures Working(doc, ls, dead') && dead' == (if Hit(obj, t) then dead + {obj} else dead)
    ensures Grown(past, Past(doc), doc.groups) && doc.groups == old(doc.groups) && obj.next == old(obj.next)
  {
    dead' := dead;
    if Hit(obj, t) {
      dead' := Remove(doc, obj, ls, dead);
      GrownTwice(past, old(Past(doc)), Past(doc), doc.groups);
    }
  }

  // ----- vectors -----

  // The lists a vector's deletion can reach: the vectors and objects of its frame, and the objects
  // of the root frame, which may measure it.
  datatype Scene = Scene(ls: Lists, frames: Anchor, frame: Node)

  ghost function VecsOf(c: Scene): seq<Node> {
    if c.frame.item.FrameItem? && c.frame.item.vecs in c.ls then c.ls[c.frame.item.vecs] else []
  }

  ghost function ObjsOf(ls: Lists, f: Node): seq<Node> {
    if f.item.FrameItem? && f.item.objs in ls then ls[f.item.objs] else []
  }

  ghost function RootObjs(ls: Lists, frames: Anchor): seq<Node> {
    if frames !in ls || ls[frames] == [] then [] else ObjsOf(ls, ls[frames][0])
  }

  ghost predicate SceneOk(c: Scene) {
    && Typed(c.ls) && NoDups(c.ls) && c.frames in c.ls && c.frames.kind == Frames
    && c.frame.item.FrameItem? && c.frame.item.vecs in c.ls && c.frame.item.objs in c.ls
    && c.frame.item.vecs.kind == Vecs && c.frame.item.objs.kind == Objs
    && BasesFirst(VecsOf(c))
    && forall x | x in VecsOf(c) :: x.item.VecItem? && x.item.frame == c.frame
  }

  // What goes away with the vectors in vs.
  ghost function Doomed(c: Scene, vs: set<Node>): set<Node> {
    vs + Users(ObjsOf(c.ls, c.frame), vs) + Users(RootObjs(c.ls, c.frames), vs)
  }

  lemma DoomedUnion(c: Scene, vs: set<Node>, ws: set<Node>)
    ensures Doomed(c, vs + ws) == Doomed(c, vs) + Doomed(c, ws)
  {
    UsersUnion(ObjsOf(c.ls, c.frame), vs, ws);
    UsersUnion(RootObjs(c.ls, c.frames), vs, ws);
  }

  // The vectors among the doomed are those meant.
  lemma DoomedVecs(c: Scene, vs: set<Node>, x: Node)
    requires SceneOk(c) && x in VecsOf(c)
    ensures x in Doomed(c, vs) <==> x in vs
  {
  }

  ghost predicate CascadingNow(doc: Document, c: Scene, dead: set<Node>)
    reads doc, doc.anchors, doc.nodes
  {
    && SceneOk(c) && doc.frames == c.frames && Working(doc, c.ls, dead)
    && forall x | x in dead :: x.home.kind != Frames
  }

  // Scene, document and the dead so far fit together; no frame is dead. What this means in detail
  // is left folded up until an Unfold is in sight.
  ghost predicate Cascading(doc: Document, c: Scene, dead: set<Node>)
    reads doc, doc.anchors, doc.nodes
  {
    forall k {:trigger Unfold(k)} :: Unfold(k) ==> CascadingNow(doc, c, dead)
  }

  // The history since past is all of the current group.
  ghost predicate Ongoing(doc: Document, past: History)
    reads doc
  {
    Grown(past, Past(doc), doc.groups)
  }

  // delete_objs_by_ref for the frame of the vectors
  method DropUsers(doc: Document, a: Anchor, r: Node, ghost c: Scene, ghost dead: set<Node>, ghost past: History)
    returns (ghost dead': set<Node>)
    requires Cascading(doc, c, dead) && Ongoing(doc, past)
    requires c.frame.item.FrameItem? && a == c.frame.item.objs
    modifies doc, doc.anchors, doc.nodes
    ensures Cascading(doc, c, dead') && dead' == dead + Users(ObjsOf(c.ls, c.frame), {r})
    ensures Ongoing(doc, past) && doc.groups == old(doc.groups) && |doc.deletions| >= old(|doc.deletions|)
  {
    assert Unfold(0);
    dead' := DeleteObjs(doc, a, ToVec(r), c.ls, dead);
    assert Users(ObjsOf(c.ls, c.frame), {r}) == Hits(c.ls[a], ToVec(r));
    GrownTwice(past, old(Past(doc)), Past(doc), doc.groups);
  }

  // the test for frames at the end of do_delete_vec: the objects of the root frame
  method DropRootUsers(doc: Document, r: Node, ghost c: Scene, ghost dead: set<Node>, ghost past: History)
    returns (ghost dead': set<Node>)
    requires Cascading(doc, c, dead) && Ongoing(doc, past)
    modifies doc, doc.anchors, doc.nodes
    ensures Cascading(doc, c, dead') && dead' == dead + Users(RootObjs(c.ls, c.frames), {r})
    ensures Ongoing(doc, past) && doc.groups == old(doc.groups) && |doc.deletions| >= old(|doc.deletions|)
  {
    dead' := dead;
    RootSeen(doc, c, dead, r);
    if doc.frames.first != null {
      assert Unfold(0);
      dead' := DeleteObjs(doc, doc.frames.first.item.objs, ToVec(r), c.ls, dead);
      GrownTwice(past, old(Past(doc)), Past(doc), doc.groups);
    }
  }

  // The root frame is never taken off, so it is first on the list of frames.
  lemma RootSeen(doc: Document, c: Scene, dead: set<Node>, r: Node)
    requires Cascading(doc, c, dead)
    ensures var f := doc.frames.first;
            if f == null then RootObjs(c.ls, c.frames) == []
            else
              && f.item.FrameItem? && f.item.objs in c.ls && f.item.objs.kind == Objs
              && Users(RootObjs(c.ls, c.frames), {r}) == Hits(c.ls[f.item.objs], ToVec(r))
  {
    assert Unfold(0);
    MinusNothing(c.ls[c.frames], dead);
    assert ListOk(doc.memory, doc.Lists(), doc.frames);
    if c.ls[c.frames] != [] {
      assert ItemOk(c.ls, c.ls[c.frames][0]);
      assert Users(RootObjs(c.ls, c.frames), {r}) == Hits(RootObjs(c.ls, c.frames), ToVec(r));
    }
  }

  method RemoveVec(doc: Document, v: Node, ghost c: Scene, ghost dead: set<Node>, ghost past: History)
    returns (ghost dead': set<Node>)
    requires Cascading(doc, c, dead) && Ongoing(doc, past)
    requires v in VecsOf(c) && Subtree(VecsOf(c), v) !! dead
    modifies doc, doc.anchors, doc.nodes
    ensures Cascading(doc, c, dead') && dead' == dead + {v}
    ensures Ongoing(doc, past) && doc.groups == old(doc.groups) && |doc.deletions| > old(|doc.deletions|)
    ensures v.item.VecItem? && v.item.frame == c.frame && c.frame.item.FrameItem?
    ensures |Minus(VecsOf(c), dead')| < |Minus(VecsOf(c), dead)|
    ensures Subtree(VecsOf(c), v) == {v} + Branches(VecsOf(c), v, |VecsOf(c)|)
    ensures Branches(VecsOf(c), v, |VecsOf(c)|) !! dead'
  {
    assert Unfold(0);
    ghost var s := VecsOf(c);
    BranchesAll(s, v);
    BranchesNotSelf(s, v);
    DependsStep(v, v);
    MinusShrinks(s, dead, dead + {v});
    dead' := Remove(doc, v, c.ls, dead);
    GrownTwice(past, old(Past(doc)), Past(doc), doc.groups);
  }

  // do_delete_vec
  method DoDeleteVec(doc: Document, v: Node, ghost c: Scene, ghost dead: set<Node>, ghost past: History)
    returns (ghost dead': set<Node>)
    requires Cascading(doc, c, dead) && Ongoing(doc, past)
    requires v in VecsOf(c) && Subtree(VecsOf(c), v) !! dead
    modifies doc, doc.anchors, doc.nodes
    ensures Cascading(doc, c, dead') && dead' == dead + Doomed(c, Subtree(VecsOf(c), v))
    ensures Ongoing(doc, past) && doc.groups == old(doc.groups) && |doc.deletions| > old(|doc.deletions|)
    decreases |Minus(VecsOf(c), dead)|, 0
  {
    dead' := RemoveVec(doc, v, c, dead, past);
    dead' := DeleteVecsByRef(doc, v.item.frame.item.vecs.first, v, c, dead', past);
    dead' := DropUsers(doc, v.item.frame.item.objs, v, c, dead', past);
    dead' := DropRootUsers(doc, v, c, dead', past);
    DoomedUnion(c, {v}, Branches(VecsOf(c), v, |VecsOf(c)|));
  }

  // delete_vecs_by_ref: the walk goes on from vectors that are no longer on the list
  method DeleteVecsByRef(doc: Document, vecs: Node?, v: Node, ghost c: Scene, ghost dead: set<Node>, ghost past: History)
    returns (ghost dead': set<Node>)
    requires Cascading(doc, c, dead) && Ongoing(doc, past)
    requires Branches(VecsOf(c), v, |VecsOf(c)|) !! dead
    requires c.frame.item.FrameItem? && vecs == c.frame.item.vecs.first
    modifies doc, doc.anchors, doc.nodes
    ensures Cascading(doc, c, dead') && dead' == dead + Doomed(c, Branches(VecsOf(c), v, |VecsOf(c)|))
    ensures Ongoing(doc, past) && doc.groups == old(doc.groups) && |doc.deletions| >= old(|doc.deletions|)
    decreases |Minus(VecsOf(c), dead)|, 2
  {
    var vec := vecs;
    dead' := dead;
    ghost var i := FirstVec(doc, c, v, dead);
    while vec != null
      invariant Cascading(doc, c, dead')
      invariant Ongoing(doc, past) && doc.groups == old(doc.groups) && |doc.deletions| >= old(|doc.deletions|)
      invariant i <= |VecsOf(c)| && (if vec == null then i == |VecsOf(c)| else i < |VecsOf(c)| && VecsOf(c)[i] == vec)
      invariant dead' == dead + Doomed(c, Branches(VecsOf(c), v, i))
      decreases |VecsOf(c)| - i
    {
      dead' := DeleteVecIfOn(doc, vec, v, c, dead, dead', past, i);
      ghost var j := NextVec(doc, c, v, dead, dead', i);
      vec, i := vec.next, j;
    }
  }

  // one step of the walk
  method DeleteVecIfOn(doc: Document, vec: Node, v: Node, ghost c: Scene,
                       ghost dead: set<Node>, ghost now: set<Node>, ghost past: History, ghost i: nat)
    returns (ghost now': set<Node>)
    requires Cascading(doc, c, now) && Ongoing(doc, past)
    requires i < |VecsOf(c)| && VecsOf(c)[i] == vec
    requires Branches(VecsOf(c), v, |VecsOf(c)|) !! dead && now == dead + Doomed(c, Branches(VecsOf(c), v, i))
    modifies doc, doc.anchors, doc.nodes
    ensures Cascading(doc, c, now') && now' == dead + Doomed(c, Branches(VecsOf(c), v, i + 1))
    ensures Ongoing(doc, past) && doc.groups == old(doc.groups) && |doc.deletions| >= old(|doc.deletions|)
    decreases |Minus(VecsOf(c), dead)|, 1
  {
    now' := now;
    BranchAlive(doc, c, v, dead, now, i);
    if Base(vec) == v {
      MinusShrinks(VecsOf(c), dead, now);
      DoomedUnion(c, Branches(VecsOf(c), v, i), Subtree(VecsOf(c), vec));
      now' := DoDeleteVec(doc, vec, c, now, past);
    }
  }

  // The vector that is at the head of the list, and none before it sits on v.
  lemma FirstVec(doc: Document, c: Scene, v: Node, dead: set<Node>) returns (j: nat)
    requires Cascading(doc, c, dead) && Branches(VecsOf(c), v, |VecsOf(c)|) !! dead && c.frame.item.FrameItem?
    ensures var p, s := c.frame.item.vecs.first, VecsOf(c);
            && j <= |s| && (if p == null then j == |s| else j < |s| && s[j] == p)
            && dead == dead + Doomed(c, Branches(s, v, j))
  {
    assert Unfold(0);
    j := FirstLands(doc, c.frame.item.vecs, c.ls, dead);
    BranchesDead(c, v, dead, dead, 0, j);
  }

  // The vector the walk goes on to.
  lemma NextVec(doc: Document, c: Scene, v: Node, dead: set<Node>, now: set<Node>, i: nat) returns (j: nat)
    requires Cascading(doc, c, now) && Branches(VecsOf(c), v, |VecsOf(c)|) !! dead
    requires i < |VecsOf(c)| && now == dead + Doomed(c, Branches(VecsOf(c), v, i + 1))
    ensures var s := VecsOf(c); var p := s[i].next;
            && i < j <= |s| && (if p == null then j == |s| else j < |s| && s[j] == p)
            && now == dead + Doomed(c, Branches(s, v, j))
  {
    j := NextVecLands(doc, c, now, i);
    SameBranches(doc, c, v, dead, now, i + 1, j);
  }

  lemma SameBranches(doc: Document, c: Scene, v: Node, dead: set<Node>, now: set<Node>, i: nat, j: nat)
    requires Cascading(doc, c, now) && Branches(VecsOf(c), v, |VecsOf(c)|) !! dead
    requires i <= j <= |VecsOf(c)| && now == dead + Doomed(c, Branches(VecsOf(c), v, i))
    requires forall k | i <= k < j :: VecsOf(c)[k] in now
    ensures Branches(VecsOf(c), v, j) == Branches(VecsOf(c), v, i)
  {
    assert Unfold(0);
    BranchesDead(c, v, dead, now, i, j);
  }

  lemma NextVecLands(doc: Document, c: Scene, dead: set<Node>, i: nat) returns (j: nat)
    requires Cascading(doc, c, dead) && i < |VecsOf(c)|
    ensures var s := VecsOf(c); var p := s[i].next;
            && i < j <= |s| && (if p == null then j == |s| else j < |s| && s[j] == p)
            && forall k | i < k < j :: s[k] in dead
  {
    assert Unfold(0);
    j := NextLands(doc, c.frame.item.vecs, c.ls, dead, i);
  }

  lemma BranchesNotSelf(s: seq<Node>, v: Node)
    requires BasesFirst(s) && NoDup(s)
    ensures v !in Branches(s, v, |s|)
  {
    if v in Branches(s, v, |s|) {
      var j :| 0 <= j < |s| && Base(s[j]) == v && DependsOn(v, s[j]);
      NotBelow(s, j);
    }
  }

  // None of the subtree about to be deleted is dead yet.
  lemma BranchAlive(doc: Document, c: Scene, v: Node, dead: set<Node>, now: set<Node>, i: nat)
    requires Cascading(doc, c, now) && i < |VecsOf(c)|
    requires Branches(VecsOf(c), v, |VecsOf(c)|) !! dead && now == dead + Doomed(c, Branches(VecsOf(c), v, i))
    ensures var s := VecsOf(c);
            if Base(s[i]) == v
            then Subtree(s, s[i]) !! now && Branches(s, v, i + 1) == Branches(s, v, i) + Subtree(s, s[i])
            else Branches(s, v, i + 1) == Branches(s, v, i)
  {
    assert Unfold(0);
    BranchNext(VecsOf(c), v, i);
    if Base(VecsOf(c)[i]) == v {
      SubtreeAlive(c, v, dead, i);
    }
  }

  lemma SubtreeAlive(c: Scene, v: Node, dead: set<Node>, i: nat)
    requires SceneOk(c) && i < |VecsOf(c)| && Base(VecsOf(c)[i]) == v
    requires Branches(VecsOf(c), v, |VecsOf(c)|) !! dead
    ensures Subtree(VecsOf(c), VecsOf(c)[i]) !! dead + Doomed(c, Branches(VecsOf(c), v, i))
  {
    var s := VecsOf(c);
    BranchNext(s, v, i);
    forall x | x in Subtree(s, s[i]) ensures x !in dead + Doomed(c, Branches(s, v, i)) {
      DoomedVecs(c, Branches(s, v, i), x);
      assert x in Branches(s, v, |s|);
    }
  }

  // A vector that the walk passes over does not sit on v: it is dead, and not from this walk.
  lemma BranchesDead(c: Scene, v: Node, dead: set<Node>, now: set<Node>, i: nat, j: nat)
    requires SceneOk(c) && i <= j <= |VecsOf(c)|
    requires Branches(VecsOf(c), v, |VecsOf(c)|) !! dead && now == dead + Doomed(c, Branches(VecsOf(c), v, i))
    requires forall k | i <= k < j :: VecsOf(c)[k] in now
    ensures Branches(VecsOf(c), v, j) == Branches(VecsOf(c), v, i)
  {
    var s := VecsOf(c);
    forall k | i <= k < j ensures s[k] in dead || s[k] in Branches(s, v, i) {
      DoomedVecs(c, Branches(s, v, i), s[k]);
    }
    BranchesPassed(s, v, dead, i, j);
  }

  lemma BranchesPassed(s: seq<Node>, v: Node, dead: set<Node>, i: nat, j: nat)
    requires BasesFirst(s) && NoDup(s) && i <= j <= |s| && Branches(s, v, |s|) !! dead
    requires forall k | i <= k < j :: s[k] in dead || s[k] in Branches(s, v, i)
    ensures Branches(s, v, j) == Branches(s, v, i)
  {
    forall k | i <= k < j ensures Base(s[k]) != v {
      if Base(s[k]) == v {
        NotPassed(s, v, i, k);
        assert false;
      }
    }
  }

  // A vector that sits on v is in its own branch, and in none before.
  lemma NotPassed(s: seq<Node>, v: Node, i: nat, k: nat)
    requires BasesFirst(s) && NoDup(s) && i <= k < |s| && Base(s[k]) == v
    ensures s[k] in Branches(s, v, |s|) && s[k] !in Branches(s, v, i)
  {
    DependsStep(s[k], s[k]);
    BranchNext(s, v, k);
    assert s[k] in Subtree(s, s[k]);
    assert Branches(s, v, i) <= Branches(s, v, k);
  }

  // ----- the entry points -----

  // delete_vec: all that depends on v goes, and nothing else; what stays keeps its order
  method DeleteVec(doc: Document, v: Node)
    requires doc.Valid() && Typed(doc.Lists()) && v.home in doc.Lists() && v in doc.Lists()[v.home]
    requires v.item.VecItem? && SceneOk(Scene(doc.Lists(), doc.frames, v.item.frame))
    modifies doc, doc.anchors, doc.nodes
    ensures doc.Valid() && Typed(doc.Lists())
    ensures var c := Scene(old(doc.Lists()), doc.frames, v.item.frame);
            doc.Lists() == MinusAll(c.ls, Doomed(c, Subtree(VecsOf(c), v)))
    ensures SceneOk(Scene(doc.Lists(), doc.frames, v.item.frame))
    ensures Deletes(old(Past(doc)), Past(doc)) && doc.groups == old(doc.groups) + 1
  {
    ghost var ls, past := doc.Lists(), Past(doc);
    ghost var c := Scene(ls, doc.frames, v.item.frame);
    NewGroup(doc);
    WorkingStarts(doc);
    assert ItemOk(ls, v);
    ghost var dead := DoDeleteVec(doc, v, c, {}, past);
    assert Unfold(0);
    SceneAfter(doc, c, v, dead);
    assert dead == Doomed(c, Subtree(VecsOf(c), v));
  }

  // groups++
  method NewGroup(doc: Document)
    requires doc.Valid()
    modifies doc`groups
    ensures doc.Valid() && doc.groups == old(doc.groups) + 1 && Past(doc) == old(Past(doc))
    ensures Ongoing(doc, old(Past(doc)))
    ensures forall k | 0 <= k < |doc.deletions| :: doc.deletions[k].group < doc.groups
  {
    doc.groups := doc.groups + 1;
  }

  lemma SceneAfter(doc: Document, c: Scene, v: Node, dead: set<Node>)
    requires Working(doc, c.ls, dead) && SceneOk(c) && doc.frames == c.frames
    requires dead == Doomed(c, Subtree(VecsOf(c), v))
    ensures SceneOk(Scene(doc.Lists(), doc.frames, c.frame))
  {
    TypedMinus(c.ls, dead);
    forall x | x in VecsOf(c) ensures x in dead <==> DependsOn(x, v) {
      DoomedVecs(c, Subtree(VecsOf(c), v), x);
    }
    BasesFirstAfter(VecsOf(c), v, dead);
    forall a | a in c.ls ensures NoDup(MinusAll(c.ls, dead)[a]) {
      MinusNoDup(c.ls[a], dead);
    }
    forall x | x in Minus(VecsOf(c), dead) ensures x in VecsOf(c) {
      MinusIn(VecsOf(c), dead, x);
    }
  }

  // The survivors among the vectors keep their bases before them.
  lemma BasesFirstAfter(s: seq<Node>, v: Node, d: set<Node>)
    requires BasesFirst(s) && forall x | x in s :: x in d <==> DependsOn(x, v)
    ensures BasesFirst(Minus(s, d))
  {
    BasesKept(s, v, d);
    BasesFirstMinus(s, d, |s|);
    assert s[..|s|] == s;
  }

  lemma BasesKept(s: seq<Node>, v: Node, d: set<Node>)
    requires BasesFirst(s) && forall x | x in s :: x in d <==> DependsOn(x, v)
    ensures forall x | x in s && x !in d && Base(x) != null :: Base(x) !in d
  {
    forall x | x in s && x !in d && Base(x) != null ensures Base(x) !in d {
      var i :| 0 <= i < |s| && s[i] == x;
      assert Base(s[i]) in s;
      DependsStep(x, v);
    }
  }

  lemma {:induction false} BasesFirstMinus(s: seq<Node>, d: set<Node>, n: nat)
    requires n <= |s| && BasesFirst(s)
    requires forall x | x in s && x !in d && Base(x) != null :: Base(x) !in d
    ensures BasesFirst(Minus(s[..n], d))
  {
    if n > 0 {
      BasesFirstMinus(s, d, n - 1);
      var x := s[n - 1];
      assert s[..n] == s[..n - 1] + [x];
      MinusConcat(s[..n - 1], [x], d);
      var t := Minus(s[..n - 1], d);
      if x !in d {
        assert Minus([x], d) == [x];
        if Base(x) != null {
          var b: Node := Base(x);
          MinusIn(s[..n - 1], d, b);
        }
        BasesFirstPushed(t, x);
      } else {
        assert Minus(s[..n], d) == t + [] == t;
      }
    }
  }

  lemma BasesFirstPushed(t: seq<Node>, x: Node)
    requires BasesFirst(t) && (Base(x) != null ==> Base(x) in t)
    ensures BasesFirst(t + [x])
  {
    var r := t + [x];
    forall i | 0 <= i < |r| && Base(r[i]) != null ensures Base(r[i]) in r[..i] {
      if i < |t| {
        assert r[..i] == t[..i];
      } else {
        assert r[..i] == t;
      }
    }
  }

  // delete_obj, delete_row, delete_table and delete_loop: one node goes
  method DeleteNode(doc: Document, x: Node)
    requires doc.Valid() && Typed(doc.Lists()) && x.home in doc.Lists() && x in doc.Lists()[x.home]
    modifies doc, doc.anchors, doc.nodes
    ensures doc.Valid() && Typed(doc.Lists()) && doc.Lists() == MinusAll(old(doc.Lists()), {x})
    ensures Deletes(old(Past(doc)), Past(doc)) && doc.groups == old(doc.groups) + 1
  {
    ghost var ls := doc.Lists();
    NewGroup(doc);
    WorkingStarts(doc);
    ghost var dead := Remove(doc, x, ls, {});
    assert dead == {x};
    TypedMinus(ls, dead);
  }

  // ----- frames -----

  // The objects of the first n frames of s, but not of f itself, that refer to f.
  ghost function FrameHits(ls: Lists, s: seq<Node>, f: Node, n: nat): (r: set<Node>)
    requires n <= |s|
    ensures forall o | o in r :: HasFrameRef(o, f)
  {
    if n == 0 then {}
    else FrameHits(ls, s, f, n - 1) + if s[n - 1] == f then {} else Hits(ObjsOf(ls, s[n - 1]), ToFrame(f))
  }

  lemma {:induction false} FrameHitsIn(ls: Lists, s: seq<Node>, f: Node, n: nat, o: Node)
    requires n <= |s|
    ensures o in FrameHits(ls, s, f, n)
       <==> HasFrameRef(o, f) && exists k | 0 <= k < n :: s[k] != f && o in ObjsOf(ls, s[k])
  {
    if n > 0 {
      FrameHitsIn(ls, s, f, n - 1, o);
    }
  }

  lemma FrameHitsPassed(ls: Lists, s: seq<Node>, f: Node, i: nat, j: nat)
    requires i <= j <= |s| && forall k | i <= k < j :: s[k] == f
    ensures FrameHits(ls, s, f, i) == FrameHits(ls, s, f, j)
    decreases j - i
  {
    if i < j {
      FrameHitsPassed(ls, s, f, i, j - 1);
    }
  }

  // delete_references
  method DeleteReferences(doc: Document, f: Node, ghost ls: Lists, ghost dead: set<Node>)
    returns (ghost dead': set<Node>)
    requires Working(doc, ls, dead) && dead == {f} && f in ls[doc.frames]
    modifies doc, doc.anchors, doc.nodes
    ensures Working(doc, ls, dead') && dead' == dead + FrameHits(ls, ls[doc.frames], f, |ls[doc.frames]|)
    ensures Grown(old(Past(doc)), Past(doc), doc.groups) && doc.groups == old(doc.groups)
  {
    ghost var s := ls[doc.frames];
    dead' := dead;
    var frame := doc.frames.first;
    ghost var i := FirstLands(doc, doc.frames, ls, dead);
    FrameHitsPassed(ls, s, f, 0, i);
    while frame != null
      invariant Working(doc, ls, dead') && doc.groups == old(doc.groups)
      invariant Grown(old(Past(doc)), Past(doc), doc.groups)
      invariant Lands(s, frame, dead', i, i) && frame != f
      invariant dead' == dead + FrameHits(ls, s, f, i)
      decreases |s| - i
    {
      dead' := DeleteFrameRefs(doc, frame, f, ls, dead, dead', old(Past(doc)), i);
      ghost var j := NextFrame(doc, f, ls, dead', i);
      frame, i := frame.next, j;
    }
  }

  method DeleteFrameRefs(doc: Document, frame: Node, f: Node, ghost ls: Lists, ghost dead: set<Node>,
                         ghost now: set<Node>, ghost past: History, ghost i: nat)
    returns (ghost now': set<Node>)
    requires Working(doc, ls, now) && i < |ls[doc.frames]| && ls[doc.frames][i] == frame != f
    requires Grown(past, Past(doc), doc.groups) && now == dead + FrameHits(ls, ls[doc.frames], f, i)
    modifies doc, doc.anchors, doc.nodes
    ensures Working(doc, ls, now') && now' == dead + FrameHits(ls, ls[doc.frames], f, i + 1)
    ensures Grown(past, Past(doc), doc.groups) && doc.groups == old(doc.groups)
  {
    assert ItemOk(ls, frame);
    now' := DeleteObjs(doc, frame.item.objs, ToFrame(f), ls, now);
    GrownTwice(past, old(Past(doc)), Past(doc), doc.groups);
  }

  lemma NextFrame(doc: Document, f: Node, ls: Lists, now: set<Node>, i: nat) returns (j: nat)
    requires Working(doc, ls, now) && i < |ls[doc.frames]|
    requires now == {f} + FrameHits(ls, ls[doc.frames], f, i + 1) && ls[doc.frames][i] != f
    ensures var s := ls[doc.frames];
            Lands(s, s[i].next, now, i + 1, j) && i < j && s[i].next != f
            && FrameHits(ls, s, f, j) == FrameHits(ls, s, f, i + 1)
  {
    var s := ls[doc.frames];
    forall x | x in s ensures x in now ==> x == f {
      assert ItemOk(ls, x);
    }
    j := NextLands(doc, doc.frames, ls, now, i);
    FrameHitsPassed(ls, s, f, i + 1, j);
  }

  // delete_frame: the frame goes, and the objects of other frames that refer to it
  method DeleteFrame(doc: Document, f: Node)
    requires doc.Valid() && Typed(doc.Lists()) && f in doc.Lists()[doc.frames]
    modifies doc, doc.anchors, doc.nodes
    ensures doc.Valid() && Typed(doc.Lists())
    ensures var ls := old(doc.Lists()); var s := ls[doc.frames];
            doc.Lists() == MinusAll(ls, {f} + FrameHits(ls, s, f, |s|))
    ensures Deletes(old(Past(doc)), Past(doc)) && doc.groups == old(doc.groups) + 1
  {
    ghost var ls, past := doc.Lists(), Past(doc);
    NewGroup(doc);
    WorkingStarts(doc);
    ghost var dead := Remove(doc, f, ls, {});
    ghost var was := Past(doc);
    dead := DeleteReferences(doc, f, ls, dead);
    GrownTwice(past, was, Past(doc), doc.groups);
    TypedMinus(ls, dead);
  }
}
