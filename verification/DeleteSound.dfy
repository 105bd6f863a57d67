// What the delete functions of fped leave behind (eda/fped/delete.c), told from the fields of what they
// delete: nothing on a list refers to something that has gone.
module DeleteSound {
  import opened SeqMinus
  import opened DeleteLog
  import opened DeleteCascade
  import opened DeleteActions

  ghost predicate IsOn(ls: Lists, x: Node) { x.home in ls && x in ls[x.home] }

  // A vector of frame f, or none.
  ghost predicate VecOf(ls: Lists, r: Node?, f: Node) {
    r == null || (r.item.VecItem? && r.item.frame == f && IsOn(ls, r))
  }

  // A vector of any frame.
  ghost predicate Measured(ls: Lists, frames: Anchor, r: Node?) {
    r != null && r.item.VecItem? && frames in ls && r.item.frame in ls[frames] && IsOn(ls, r)
  }

  // Everything x names is on its list: the base of a vector, and in a frame that is there the vectors and
  // frames of an object. Objects use vectors of their frame, measurements belong to the root frame, and no
  // two frames share their objects.
  ghost predicate Sound(ls: Lists, frames: Anchor, x: Node)
    requires frames in ls
  {
    match x.item
    case FrameItem(_, objs, _, _) => forall g | g in ls[frames] && g.item.FrameItem? && g.item.objs == objs :: g == x
    case VecItem(_, base) => base != null ==> base.home == x.home && IsOn(ls, base)
    case ObjItem(owner, anchor, shape) =>
      owner in ls[frames] ==> (
        match shape
        case FrameRef(ref) => VecOf(ls, anchor, owner) && ref in ls[frames]
        case Line(other) => VecOf(ls, anchor, owner) && VecOf(ls, other, owner)
        case Rect(other) => VecOf(ls, anchor, owner) && VecOf(ls, other, owner)
        case Pad(other) => VecOf(ls, anchor, owner) && VecOf(ls, other, owner)
        case Hole(other) => VecOf(ls, anchor, owner) && VecOf(ls, other, owner)
        case Arc(start, end) => VecOf(ls, anchor, owner) && VecOf(ls, start, owner) && VecOf(ls, end, owner)
        case Meas(high, low, highQual) =>
          && owner == ls[frames][0] && Measured(ls, frames, anchor) && Measured(ls, frames, high)
          && forall q | q in low + highQual :: q in ls[frames])
    case _ => true
  }

  ghost predicate NothingDangles(ls: Lists, frames: Anchor) {
    frames in ls && forall a, x | a in ls && x in ls[a] :: Sound(ls, frames, x)
  }

  // r was on its list and is no longer.
  ghost predicate Taken(ls: Lists, ls': Lists, r: Node?) { r != null && IsOn(ls, r) && !IsOn(ls', r) }

  // ----- deleting a vector -----

  ghost function AfterVec(c: Scene, v: Node): Lists { MinusAll(c.ls, Doomed(c, Subtree(VecsOf(c), v))) }

  ghost predicate CanDelete(c: Scene, v: Node) {
    SceneOk(c) && NothingDangles(c.ls, c.frames) && v.item.VecItem? && v.item.frame == c.frame && IsOn(c.ls, v)
  }

  // An object of a frame that is there.
  ghost predicate Living(ls: Lists, frames: Anchor, x: Node) {
    x.item.ObjItem? && frames in ls && x.item.owner in ls[frames]
  }

  lemma TakenIs(ls: Lists, d: set<Node>, x: Node)
    requires IsOn(ls, x)
    ensures Taken(ls, MinusAll(ls, d), x) <==> x in d
  {
    MinusIn(ls[x.home], d, x);
  }

  lemma VecOnScene(c: Scene, v: Node, r: Node)
    requires CanDelete(c, v) && IsOn(c.ls, r) && r.item.VecItem?
    ensures r in Doomed(c, Subtree(VecsOf(c), v)) <==> r in VecsOf(c) && DependsOn(r, v)
    ensures r in VecsOf(c) <==> r.home == c.frame.item.vecs
  {
    assert ItemOk(c.ls, r);
  }

  // A vector goes if it is v or its base goes.
  lemma VecGoes(c: Scene, v: Node, x: Node)
    requires CanDelete(c, v) && IsOn(c.ls, x) && x.item.VecItem?
    ensures Taken(c.ls, AfterVec(c, v), x) <==> x == v || Taken(c.ls, AfterVec(c, v), x.item.base)
  {
    var d := Doomed(c, Subtree(VecsOf(c), v));
    assert Sound(c.ls, c.frames, x) && ItemOk(c.ls, x) && ItemOk(c.ls, v);
    TakenIs(c.ls, d, x);
    VecOnScene(c, v, x);
    VecOnScene(c, v, v);
    DependsStep(x, v);
    if x.item.base != null {
      var b: Node := x.item.base;
      TakenIs(c.ls, d, b);
      VecOnScene(c, v, b);
    }
  }

  // Where the vectors are that an object names.
  lemma NamesLocal(c: Scene, o: Node, r: Node)
    requires SceneOk(c) && NothingDangles(c.ls, c.frames) && IsOn(c.ls, o) && Living(c.ls, c.frames, o) && HasRef(o, r)
    ensures r.item.VecItem?
    ensures o.item.shape.Meas? ==> o.item.owner == c.ls[c.frames][0]
    ensures !o.item.shape.Meas? ==> o.item.owner == r.item.frame
  {
    assert Sound(c.ls, c.frames, o);
  }

  // An object goes with every vector it names.
  lemma ObjGoes(c: Scene, v: Node, o: Node, r: Node)
    requires CanDelete(c, v) && IsOn(c.ls, o) && Living(c.ls, c.frames, o) && HasRef(o, r) && IsOn(c.ls, r)
    ensures Taken(c.ls, AfterVec(c, v), r) ==> Taken(c.ls, AfterVec(c, v), o)
  {
    var d := Doomed(c, Subtree(VecsOf(c), v));
    NamesLocal(c, o, r);
    TakenIs(c.ls, d, o);
    TakenIs(c.ls, d, r);
    VecOnScene(c, v, r);
    if r in d {
      OwnList(c, o, r);
    }
  }

  lemma OwnList(c: Scene, o: Node, r: Node)
    requires SceneOk(c) && IsOn(c.ls, o) && Living(c.ls, c.frames, o) && r in VecsOf(c)
    requires o.item.shape.Meas? ==> o.item.owner == c.ls[c.frames][0]
    requires !o.item.shape.Meas? ==> r.item.VecItem? && o.item.owner == r.item.frame
    ensures o in ObjsOf(c.ls, c.frame) || o in RootObjs(c.ls, c.frames)
  {
    assert ItemOk(c.ls, o);
  }

  // An object that goes names a vector that goes.
  lemma ObjGone(c: Scene, v: Node, o: Node) returns (r: Node)
    requires CanDelete(c, v) && IsOn(c.ls, o) && o.item.ObjItem? && Taken(c.ls, AfterVec(c, v), o)
    ensures HasRef(o, r) && Taken(c.ls, AfterVec(c, v), r)
  {
    var d := Doomed(c, Subtree(VecsOf(c), v));
    TakenIs(c.ls, d, o);
    r :| r in Subtree(VecsOf(c), v) && HasRef(o, r);
    assert ItemOk(c.ls, r);
    TakenIs(c.ls, d, r);
  }

  // What goes with vector v: v itself, each vector whose base goes, and each object that names one that
  // goes in one of its fields. Nothing else does.
  lemma VecTakes(c: Scene, v: Node, x: Node)
    requires CanDelete(c, v) && IsOn(c.ls, x) && (x.item.ObjItem? ==> Living(c.ls, c.frames, x))
    ensures var ls, ls' := c.ls, AfterVec(c, v);
            Taken(ls, ls', x) <==>
            match x.item
            case VecItem(_, base) => x == v || Taken(ls, ls', base)
            case ObjItem(_, anchor, shape) =>
              || Taken(ls, ls', anchor)
              || (match shape
                  case FrameRef(_) => false
                  case Line(other) => Taken(ls, ls', other)
                  case Rect(other) => Taken(ls, ls', other)
                  case Pad(other) => Taken(ls, ls', other)
                  case Hole(other) => Taken(ls, ls', other)
                  case Arc(start, end) => Taken(ls, ls', start) || Taken(ls, ls', end)
                  case Meas(high, _, _) => Taken(ls, ls', high))
            case _ => false
  {
    var ls' := AfterVec(c, v);
    match x.item
    case VecItem(_, base) => VecGoes(c, v, x);
    case ObjItem(_, anchor, shape) =>
      forall r: Node | HasRef(x, r) && Taken(c.ls, ls', r) ensures Taken(c.ls, ls', x) {
        ObjGoes(c, v, x, r);
      }
      if Taken(c.ls, ls', x) {
        var r := ObjGone(c, v, x);
      }
    case _ =>
      TakenIs(c.ls, Doomed(c, Subtree(VecsOf(c), v)), x);
  }

  lemma FramesStay(c: Scene, vs: set<Node>)
    requires SceneOk(c) && vs <= set x | x in VecsOf(c)
    ensures MinusAll(c.ls, Doomed(c, vs))[c.frames] == c.ls[c.frames]
  {
    forall x | x in c.ls[c.frames] ensures x !in Doomed(c, vs) {
      assert ItemOk(c.ls, x);
    }
    MinusNothing(c.ls[c.frames], Doomed(c, vs));
  }

  lemma SubtreeOn(s: seq<Node>, v: Node)
    ensures Subtree(s, v) <= set x | x in s
  {}

  // After a vector has been deleted, still nothing dangles.
  lemma VecSound(c: Scene, v: Node)
    requires CanDelete(c, v)
    ensures NothingDangles(AfterVec(c, v), c.frames)
  {
    var ls' := AfterVec(c, v);
    SubtreeOn(VecsOf(c), v);
    FramesStay(c, Subtree(VecsOf(c), v));
    forall a, x | a in ls' && x in ls'[a] ensures Sound(ls', c.frames, x) {
      MinusIn(c.ls[a], Doomed(c, Subtree(VecsOf(c), v)), x);
      assert ItemOk(c.ls, x) && Sound(c.ls, c.frames, x);
      if x.item.VecItem? || Living(c.ls, c.frames, x) {
        VecTakes(c, v, x);
      }
    }
  }

  // ----- deleting a frame -----

  ghost function AfterFrame(ls: Lists, frames: Anchor, f: Node): Lists
    requires frames in ls
  {
    MinusAll(ls, {f} + FrameHits(ls, ls[frames], f, |ls[frames]|))
  }

  lemma FrameTakenIs(ls: Lists, frames: Anchor, f: Node, x: Node)
    requires Typed(ls) && frames in ls && IsOn(ls, x)
    ensures Taken(ls, AfterFrame(ls, frames, f), x)
       <==> x == f || (HasFrameRef(x, f) && exists k | 0 <= k < |ls[frames]| :: ls[frames][k] != f && x in ObjsOf(ls, ls[frames][k]))
  {
    var d := {f} + FrameHits(ls, ls[frames], f, |ls[frames]|);
    TakenIs(ls, d, x);
    FrameHitsIn(ls, ls[frames], f, |ls[frames]|, x);
  }

  // What goes with frame f: f itself, and each object of another frame that names f in one of its fields,
  // or measures a vector of f.
  lemma FrameTakes(ls: Lists, frames: Anchor, f: Node, x: Node)
    requires Typed(ls) && NothingDangles(ls, frames) && frames.kind == Frames && f in ls[frames] && IsOn(ls, x)
    requires x.item.ObjItem? ==> Living(ls, frames, x)
    ensures Taken(ls, AfterFrame(ls, frames, f), x) <==>
            match x.item
            case FrameItem(_, _, _, _) => x == f
            case ObjItem(owner, anchor, shape) =>
              && owner != f
              && (match shape
                  case FrameRef(ref) => ref == f
                  case Meas(high, low, highQual) =>
                    anchor.item.frame == f || high.item.frame == f || f in low || f in highQual
                  case _ => false)
            case _ => false
  {
    FrameTakenIs(ls, frames, f, x);
    assert ItemOk(ls, x) && ItemOk(ls, f);
    if x.item.ObjItem? {
      var owner := x.item.owner;
      assert Sound(ls, frames, owner) && ItemOk(ls, owner);
      var k :| 0 <= k < |ls[frames]| && ls[frames][k] == owner;
      forall j | 0 <= j < |ls[frames]| && x in ObjsOf(ls, ls[frames][j]) ensures ls[frames][j] == owner {
        assert ItemOk(ls, ls[frames][j]);
      }
    }
  }

  // After a frame has been deleted, still nothing dangles.
  lemma FrameSound(ls: Lists, frames: Anchor, f: Node)
    requires Typed(ls) && NothingDangles(ls, frames) && frames.kind == Frames && f in ls[frames]
    ensures NothingDangles(AfterFrame(ls, frames, f), frames)
  {
    var ls' := AfterFrame(ls, frames, f);
    var d := {f} + FrameHits(ls, ls[frames], f, |ls[frames]|);
    forall a, x | a in ls' && x in ls'[a] ensures Sound(ls', frames, x) {
      MinusIn(ls[a], d, x);
      StillSound(ls, frames, f, x);
    }
  }

  lemma FrameStays(ls: Lists, frames: Anchor, f: Node, g: Node)
    requires Typed(ls) && frames in ls && frames.kind == Frames && g in ls[frames] && g != f
    ensures g in AfterFrame(ls, frames, f)[frames]
    ensures g == ls[frames][0] ==> g == AfterFrame(ls, frames, f)[frames][0]
  {
    var d := {f} + FrameHits(ls, ls[frames], f, |ls[frames]|);
    assert ItemOk(ls, g);
    MinusIn(ls[frames], d, g);
  }

  lemma VecStays(ls: Lists, frames: Anchor, f: Node, r: Node)
    requires Typed(ls) && frames in ls && frames.kind == Frames && f in ls[frames] && IsOn(ls, r) && r.item.VecItem?
    ensures IsOn(AfterFrame(ls, frames, f), r)
  {
    assert ItemOk(ls, r) && ItemOk(ls, f);
    FrameTakenIs(ls, frames, f, r);
  }

  lemma StillSound(ls: Lists, frames: Anchor, f: Node, x: Node)
    requires Typed(ls) && NothingDangles(ls, frames) && frames.kind == Frames && f in ls[frames]
    requires IsOn(ls, x) && IsOn(AfterFrame(ls, frames, f), x)
    ensures Sound(AfterFrame(ls, frames, f), frames, x)
  {
    var ls' := AfterFrame(ls, frames, f);
    assert Sound(ls, frames, x) && ItemOk(ls, x);
    forall g | g in ls[frames] && g != f ensures g in ls'[frames] && (g == ls[frames][0] ==> g == ls'[frames][0]) {
      FrameStays(ls, frames, f, g);
    }
    forall r: Node | IsOn(ls, r) && r.item.VecItem? ensures IsOn(ls', r) {
      VecStays(ls, frames, f, r);
    }
    forall g | g in ls'[frames] ensures g in ls[frames] && g != f {
      MinusIn(ls[frames], {f} + FrameHits(ls, ls[frames], f, |ls[frames]|), g);
    }
    if Living(ls', frames, x) {
      FrameTakes(ls, frames, f, x);
    }
  }

  // ----- deleting anything else -----

  // With the same frames and vectors, nothing dangles.
  lemma OthersSound(ls: Lists, frames: Anchor, ls': Lists)
    requires NothingDangles(ls, frames) && Typed(ls) && Sublists(ls', ls) && ls'[frames] == ls[frames]
    requires forall a | a in ls && a.kind == Vecs :: ls'[a] == ls[a]
    ensures NothingDangles(ls', frames)
  {
    forall r: Node | IsOn(ls, r) && r.item.VecItem? ensures IsOn(ls', r) {
      assert ItemOk(ls, r);
    }
    forall a, x | a in ls' && x in ls'[a] ensures Sound(ls', frames, x) {
      assert Sound(ls, frames, x) && ItemOk(ls, x);
    }
  }
}
