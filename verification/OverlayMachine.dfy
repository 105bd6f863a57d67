// The overlay of fped's canvas (eda/fped/gui_over.c): what is drawn around the pointer, and how it
// is taken away again.
module OverlayMachine {
  import opened Wrappers
  import opened Coords

  // A picture: the color of each pixel.
  type Pixels = map<Coord, int>

  // Something to draw: the area it saves, and what it then draws there, which may depend on what is
  // there already.
  datatype Stroke = Stroke(area: set<Coord>, ink: Pixels -> Pixels)

  function Drawn(c: Pixels, s: Stroke): Pixels {
    map p | p in c :: if p in s.area && p in s.ink(c) then s.ink(c)[p] else c[p]
  }

  // save_pix_buf: a copy of the area, as far as it is on the canvas
  function Saved(c: Pixels, area: set<Coord>): Pixels { map p | p in c && p in area :: c[p] }

  // restore_pix_buf
  function Restored(c: Pixels, buf: Pixels): Pixels { map p | p in c :: if p in buf then buf[p] else c[p] }

  // Restoring what was saved undoes a drawing.
  lemma RestoreUndoes(c: Pixels, s: Stroke)
    ensures Restored(Drawn(c, s), Saved(c, s.area)) == c
  {}

  // ----- what the overlay shows -----

  datatype States = NOTHING | HOVER | DRAG | BOTH

  // What is dragged draws itself at a position.
  datatype Drag = Drag(draw: Coord -> Stroke, pos: Coord)

  // The picture without overlay, what is hovered, and what is dragged.
  datatype Scene = Scene(base: Pixels, hover: Option<Stroke>, drag: Option<Drag>)

  function WithHover(s: Scene): Pixels { if s.hover.Some? then Drawn(s.base, s.hover.value) else s.base }

  // The base, then the hover on top, then the drag on top of both.
  function Picture(s: Scene): Pixels {
    if s.drag.Some? then Drawn(WithHover(s), s.drag.value.draw(s.drag.value.pos)) else WithHover(s)
  }

  // What a pixel shows: the base, under what the hover paints in its area, under what the drag paints in
  // the area at its position.
  lemma PixelShows(s: Scene, p: Coord)
    requires p in s.base
    ensures p in Picture(s)
    ensures s.drag.None? && s.hover.None? ==> Picture(s)[p] == s.base[p]
    ensures s.drag.None? && s.hover.Some? ==>
      var h := s.hover.value;
      Picture(s)[p] == if p in h.area && p in h.ink(s.base) then h.ink(s.base)[p] else s.base[p]
    ensures s.drag.Some? ==>
      var d, below := s.drag.value.draw(s.drag.value.pos), Picture(s.(drag := None));
      && p in below
      && Picture(s)[p] == if p in d.area && p in d.ink(below) then d.ink(below)[p] else below[p]
  {
    assert WithHover(s) == Picture(s.(drag := None));
  }

  function StateOf(s: Scene): States {
    if s.hover.None? then (if s.drag.None? then NOTHING else DRAG) else if s.drag.None? then HOVER else BOTH
  }

  // ----- events -----

  datatype Event =
    | Enter(hover: Stroke)
    | Leave
    | Begin(draw: Coord -> Stroke, at: Coord)
    | Move(to: Coord)
    | End
    | Reset(shown: Pixels)  // after the canvas has been drawn anew

  // In other cases the code aborts.
  predicate Permitted(s: States, e: Event) {
    match e
    case Enter(_) => s == NOTHING || s == DRAG
    case Leave => s == HOVER || s == BOTH
    case Begin(_, _) => s == NOTHING || s == HOVER
    case Move(_) => true
    case End => s == DRAG || s == BOTH
    case Reset(_) => true
  }

  // It aborts only on a second hover or drag, and on the end of one that has not begun.
  lemma PermittedMeans(s: Scene, h: Stroke, draw: Coord -> Stroke, p: Coord, shown: Pixels)
    ensures Permitted(StateOf(s), Enter(h)) <==> s.hover.None?
    ensures Permitted(StateOf(s), Leave) <==> s.hover.Some?
    ensures Permitted(StateOf(s), Begin(draw, p)) <==> s.drag.None?
    ensures Permitted(StateOf(s), End) <==> s.drag.Some?
    ensures Permitted(StateOf(s), Move(p)) && Permitted(StateOf(s), Reset(shown))
  {}

  function Step(s: Scene, e: Event): Scene {
    match e
    case Enter(h) => s.(hover := Some(h))
    case Leave => s.(hover := None)
    case Begin(d, at) => s.(drag := Some(Drag(d, at)))
    case Move(to) => if s.drag.Some? then s.(drag := Some(Drag(s.drag.value.draw, to))) else s
    case End => s.(drag := None)
    case Reset(shown) => Scene(shown, None, None)
  }

  function Run(s: Scene, es: seq<Event>): Scene {
    if es == [] then s else Step(Run(s, es[..|es| - 1]), es[|es| - 1])
  }

  // Events that are permitted in their turn.
  ghost predicate PermittedRun(s: Scene, es: seq<Event>) {
    forall k: nat | k < |es| :: Permitted(StateOf(Run(s, es[..k])), es[k])
  }

  // However hovering and dragging begin, move and end: back where neither is left, the canvas shows
  // the base, unless it was drawn anew in between.
  lemma {:induction false} BackToBase(s: Scene, es: seq<Event>)
    requires StateOf(Run(s, es)) == NOTHING && forall k | 0 <= k < |es| :: !es[k].Reset?
    ensures Picture(Run(s, es)) == s.base
  {
    BaseStays(s, es);
  }

  lemma {:induction false} BaseStays(s: Scene, es: seq<Event>)
    requires forall k | 0 <= k < |es| :: !es[k].Reset?
    ensures Run(s, es).base == s.base
  {
    if es != [] {
      var n := |es| - 1;
      BaseStays(s, es[..n]);
      assert !es[n].Reset?;
    }
  }

  // Events alternate: between two of a kind that start something, it has ended.
  lemma {:induction false} EntersBalance(s: Scene, es: seq<Event>)
    requires PermittedRun(s, es) && forall k | 0 <= k < |es| :: !es[k].Reset?
    ensures Count(es, true) == (if Run(s, es).hover.Some? then 1 else 0) - if s.hover.Some? then 1 else 0
    ensures Count(es, false) == (if Run(s, es).drag.Some? then 1 else 0) - if s.drag.Some? then 1 else 0
  {
    if es != [] {
      var n := |es| - 1;
      forall k: nat | k < n ensures Permitted(StateOf(Run(s, es[..n][..k])), es[..n][k]) {
        assert es[..n][..k] == es[..k];
      }
      EntersBalance(s, es[..n]);
      assert Permitted(StateOf(Run(s, es[..n])), es[n]) && !es[n].Reset?;
      OneEvent(Run(s, es[..n]), es[n]);
    }
  }

  // What an event starts, or ends.
  function Change(e: Event, hover: bool): int {
    if hover then (if e.Enter? then 1 else if e.Leave? then -1 else 0)
    else if e.Begin? then 1 else if e.End? then -1 else 0
  }

  lemma OneEvent(s: Scene, e: Event)
    requires Permitted(StateOf(s), e) && !e.Reset?
    ensures Change(e, true) == (if Step(s, e).hover.Some? then 1 else 0) - if s.hover.Some? then 1 else 0
    ensures Change(e, false) == (if Step(s, e).drag.Some? then 1 else 0) - if s.drag.Some? then 1 else 0
  {}

  // How many more hovers, or drags, have started than ended.
  function Count(es: seq<Event>, hover: bool): int {
    if es == [] then 0 else Count(es[..|es| - 1], hover) + Change(es[|es| - 1], hover)
  }

  // ----- the state machine -----

  class Overlay {
    var canvas: Pixels
    var state: States
    var bufD: Pixels
    var bufH: Pixels
    var overD: Coord -> Stroke
    var overH: Stroke
    var overPos: Coord
    ghost var scene: Scene

    // The canvas shows the scene, and the buffers hold what is below.
    ghost predicate Valid()
      reads this
    {
      && state == StateOf(scene) && canvas == Picture(scene)
      && (scene.hover.Some? ==> overH == scene.hover.value && bufH == Saved(scene.base, overH.area))
      && (scene.drag.Some? ==>
        && scene.drag.value == Drag(overD, overPos)
        && bufD == Saved(WithHover(scene), overD(overPos).area))
    }

    constructor (canvas: Pixels)
      ensures Valid() && scene == Scene(canvas, None, None)
    {
      this.canvas, state := canvas, NOTHING;
      bufD, bufH, overPos := map[], map[], Coord(0, 0);
      overH := Stroke({}, c => map[]);
      overD := at => Stroke({}, c => map[]);
      scene := Scene(canvas, None, None);
    }

    method DrawD()
      modifies this`bufD, this`canvas
      ensures bufD == Saved(old(canvas), overD(overPos).area) && canvas == Drawn(old(canvas), overD(overPos))
    {
      bufD := Saved(canvas, overD(overPos).area);
      canvas := Drawn(canvas, overD(overPos));
    }

    method DrawH()
      modifies this`bufH, this`canvas
      ensures bufH == Saved(old(canvas), overH.area) && canvas == Drawn(old(canvas), overH)
    {
      bufH := Saved(canvas, overH.area);
      canvas := Drawn(canvas, overH);
    }

    method RestoreD()
      modifies this`canvas
      ensures canvas == Restored(old(canvas), bufD)
    {
      canvas := Restored(canvas, bufD);
    }

    method RestoreH()
      modifies this`canvas
      ensures canvas == Restored(old(canvas), bufH)
    {
      canvas := Restored(canvas, bufH);
    }

    // over_enter
    method OverEnter(hover: Stroke)
      requires Valid() && Permitted(state, Enter(hover))
      modifies this
      ensures Valid() && scene == Step(old(scene), Enter(hover))
    {
      overH := hover;
      if state == NOTHING {
        DrawH();
        state := HOVER;
      } else {
        RestoreUndoes(WithHover(scene), overD(overPos));
        RestoreD();
        DrawH();
        DrawD();
        state := BOTH;
      }
      scene := Step(scene, Enter(hover));
    }

    // over_leave
    method OverLeave()
      requires Valid() && Permitted(state, Leave)
      modifies this
      ensures Valid() && scene == Step(old(scene), Leave)
    {
      RestoreUndoes(scene.base, overH);
      if state == HOVER {
        RestoreH();
        state := NOTHING;
      } else {
        RestoreUndoes(WithHover(scene), overD(overPos));
        RestoreD();
        RestoreH();
        DrawD();
        state := DRAG;
      }
      scene := Step(scene, Leave);
    }

    // over_begin
    method OverBegin(draw: Coord -> Stroke, pos: Coord)
      requires Valid() && Permitted(state, Begin(draw, pos))
      modifies this
      ensures Valid() && scene == Step(old(scene), Begin(draw, pos))
    {
      overPos, overD := pos, draw;
      DrawD();
      state := if state == NOTHING then DRAG else BOTH;
      scene := Step(scene, Begin(draw, pos));
    }

    // over_move
    method OverMove(pos: Coord)
      requires Valid()
      modifies this
      ensures Valid() && scene == Step(old(scene), Move(pos))
    {
      if state == DRAG || state == BOTH {
        RestoreUndoes(WithHover(scene), overD(overPos));
      }
      overPos := pos;
      if state == DRAG || state == BOTH {
        RestoreD();
        DrawD();
      }
      scene := Step(scene, Move(pos));
    }

    // over_end
    method OverEnd()
      requires Valid() && Permitted(state, End)
      modifies this
      ensures Valid() && scene == Step(old(scene), End)
    {
      RestoreUndoes(WithHover(scene), overD(overPos));
      RestoreD();
      state := if state == DRAG then NOTHING else HOVER;
      scene := Step(scene, End);
    }

    // over_reset, after the canvas has been drawn anew; the buffers are dropped
    method OverReset(shown: Pixels)
      requires Valid()
      modifies this
      ensures Valid() && scene == Step(old(scene), Reset(shown))
      ensures bufH == if old(scene.hover).Some? then map[] else old(bufH)
      ensures bufD == if old(scene.drag).Some? then map[] else old(bufD)
    {
      canvas := shown;
      if state == HOVER || state == BOTH {
        bufH := map[];
      }
      if state == DRAG || state == BOTH {
        bufD := map[];
      }
      state := NOTHING;
      scene := Step(scene, Reset(shown));
    }
  }
}
