// The order in which fped writes the vectors and objects of a frame (eda/fped/dump.c).
module DumpOrder {
  import opened SeqMinus
  import opened Vecs

  datatype Shape =
    | FrameRef
    | Line(other: Vec?)
    | Rect(other: Vec?)
    | Pad(other: Vec?)
    | Hole(other: Vec?)
    | Arc(start: Vec?, end: Vec?)
    | Meas(high: Vec?)

  class Obj {
    const base: Vec?
    const shape: Shape
    var dumped: bool
    constructor (base: Vec?, shape: Shape)
      ensures this.base == base && this.shape == shape && !dumped
    {
      this.base, this.shape, dumped := base, shape, false;
    }
  }

  // A vector alone, or an object with the vector that "." stands for.
  datatype Entry = Entry(vec: Vec?, obj: Obj?)

  // ----- what the order must be -----

  function Points(s: Shape): seq<Vec?> {
    match s
    case FrameRef => []
    case Line(other) => [other]
    case Rect(other) => [other]
    case Pad(other) => [other]
    case Hole(other) => [other]
    case Arc(start, end) => [start, end]
    case Meas(high) => [high]
  }

  // r is one of the vectors o refers to.
  predicate Refers(o: Obj, r: Vec) { r in Refs(o) }

  function Refs(o: Obj): seq<Vec?> { [o.base] + Points(o.shape) }

  // The object refers to no vector at all.
  predicate Floats(o: Obj) { forall r | r in Refs(o) :: r == null }

  ghost predicate HasVec(out: seq<Entry>, v: Vec) { Entry(v, null) in out }

  ghost predicate HasObj(out: seq<Entry>, o: Obj) { exists e :: e in out && e.obj == o }

  // The vector output most recently.
  function Latest(out: seq<Entry>): Vec? {
    if out == [] then null
    else if out[|out| - 1].obj == null then out[|out| - 1].vec
    else Latest(out[..|out| - 1])
  }

  ghost predicate RefsOut(out: seq<Entry>, o: Obj) {
    forall r: Vec | r in Refs(o) :: HasVec(out, r)
  }

  // Entry e may follow out: a vector comes once and after its base, an object comes once, after all
  // vectors it refers to, and with the most recent vector unless it refers to none at all.
  ghost predicate Fits(b: Bases, out: seq<Entry>, e: Entry) {
    if e.obj == null then
      e.vec != null && !HasVec(out, e.vec) && (BaseOf(b, e.vec) == null || HasVec(out, BaseOf(b, e.vec)))
    else
      && !e.obj.shape.Meas? && !HasObj(out, e.obj) && RefsOut(out, e.obj)
      && (if e.vec == null then Floats(e.obj) else e.vec == Latest(out) && Refers(e.obj, e.vec))
  }

  ghost predicate FitsAt(b: Bases, out: seq<Entry>, k: nat)
    requires k < |out|
  {
    Fits(b, out[..k], out[k])
  }

  ghost predicate Sound(b: Bases, out: seq<Entry>) {
    forall k: nat {:trigger FitsAt(b, out, k)} | k < |out| :: FitsAt(b, out, k)
  }

  // Everything is there.
  ghost predicate Complete(vecs: seq<Vec>, objs: seq<Obj>, out: seq<Entry>) {
    && (forall v | v in vecs :: HasVec(out, v))
    && (forall o | o in objs && !o.shape.Meas? :: HasObj(out, o))
  }

  // Nothing else is there.
  ghost predicate Drawn(vecs: seq<Vec>, objs: seq<Obj>, out: seq<Entry>) {
    forall e | e in out :: if e.obj == null then e.vec in vecs else e.obj in objs
  }

  // r has come, if there is one.
  ghost predicate Come(out: seq<Entry>, r: Vec?) { r == null || HasVec(out, r) }

  // All vectors of an object come before it, and the one it is output with is one of them, or there is none.
  lemma VectorsBefore(b: Bases, out: seq<Entry>, k: nat)
    requires Sound(b, out) && k < |out| && out[k].obj != null
    ensures var base, v := out[k].obj.base, out[k].vec;
            && Come(out[..k], base)
            && match out[k].obj.shape
               case FrameRef => v == base
               case Line(other) => Come(out[..k], other) && v in [base, other] && (v == null ==> base == other)
               case Rect(other) => Come(out[..k], other) && v in [base, other] && (v == null ==> base == other)
               case Pad(other) => Come(out[..k], other) && v in [base, other] && (v == null ==> base == other)
               case Hole(other) => Come(out[..k], other) && v in [base, other] && (v == null ==> base == other)
               case Arc(start, end) =>
                 && Come(out[..k], start) && Come(out[..k], end)
                 && v in [base, start, end] && (v == null ==> base == start == end)
               case Meas(_) => false
  {
    assert FitsAt(b, out, k);
    var o: Obj := out[k].obj;
    assert Refs(o)[0] == o.base && o.base in Refs(o);
    match o.shape
    case FrameRef => assert Refs(o) == [o.base];
    case Line(other) => assert Refs(o) == [o.base, other] && other in Refs(o);
    case Rect(other) => assert Refs(o) == [o.base, other] && other in Refs(o);
    case Pad(other) => assert Refs(o) == [o.base, other] && other in Refs(o);
    case Hole(other) => assert Refs(o) == [o.base, other] && other in Refs(o);
    case Arc(start, end) => assert Refs(o) == [o.base, start, end] && start in Refs(o) && end in Refs(o);
    case Meas(_) =>
  }

  lemma SoundNext(b: Bases, out: seq<Entry>, e: Entry)
    requires Sound(b, out) && Fits(b, out, e)
    ensures Sound(b, out + [e])
  {
    var out' := out + [e];
    forall k: nat | k < |out'| ensures FitsAt(b, out', k) {
      if k < |out| {
        assert FitsAt(b, out, k) && out'[..k] == out[..k];
      } else {
        assert out'[..k] == out;
      }
    }
  }

  lemma LatestNext(out: seq<Entry>, e: Entry)
    ensures Latest(out + [e]) == if e.obj == null then e.vec else Latest(out)
  {
    assert (out + [e])[..|out|] == out;
  }

  // ----- how many entries there are -----

  datatype Key = VecKey(vec: Vec?) | ObjKey(obj: Obj?)

  function KeyOf(e: Entry): Key { if e.obj == null then VecKey(e.vec) else ObjKey(e.obj) }

  function Keys(out: seq<Entry>): set<Key> { set e | e in out :: KeyOf(e) }

  function AllKeys(vecs: seq<Vec>, objs: seq<Obj>): set<Key> {
    VecKeys(vecs) + ObjKeys(objs)
  }

  function VecKeys(vecs: seq<Vec>): set<Key> { set v | v in vecs :: VecKey(v) }

  function ObjKeys(objs: seq<Obj>): set<Key> { set o | o in objs && !o.shape.Meas? :: ObjKey(o) }

  function Plain(objs: seq<Obj>): nat {
    if objs == [] then 0 else (if objs[0].shape.Meas? then 0 else 1) + Plain(objs[1..])
  }

  lemma {:induction false} KeysCount(b: Bases, out: seq<Entry>)
    requires Sound(b, out)
    ensures |Keys(out)| == |out|
  {
    if out != [] {
      var n := |out| - 1;
      assert out == out[..n] + [out[n]];
      forall k: nat | k < n ensures FitsAt(b, out[..n], k) {
        assert FitsAt(b, out, k) && out[..n][..k] == out[..k];
      }
      KeysCount(b, out[..n]);
      assert FitsAt(b, out, n);
      assert Keys(out) == Keys(out[..n]) + {KeyOf(out[n])};
    }
  }

  lemma {:induction false} VecKeysCount(vecs: seq<Vec>)
    requires NoDup(vecs)
    ensures |VecKeys(vecs)| == |vecs|
  {
    if vecs != [] {
      VecKeysCount(vecs[1..]);
      assert vecs == [vecs[0]] + vecs[1..];
      assert VecKeys(vecs) == VecKeys(vecs[1..]) + {VecKey(vecs[0])};
      assert VecKey(vecs[0]) !in VecKeys(vecs[1..]);
    }
  }

  lemma {:induction false} ObjKeysCount(objs: seq<Obj>)
    requires NoDup(objs)
    ensures |ObjKeys(objs)| == Plain(objs)
  {
    if objs != [] {
      ObjKeysCount(objs[1..]);
      assert objs == [objs[0]] + objs[1..];
      assert ObjKeys(objs) == ObjKeys(objs[1..]) + if objs[0].shape.Meas? then {} else {ObjKey(objs[0])};
      assert ObjKey(objs[0]) !in ObjKeys(objs[1..]);
    }
  }

  // There is room for everything, and with everything there, the room is used up.
  lemma EntryCount(b: Bases, vecs: seq<Vec>, objs: seq<Obj>, out: seq<Entry>)
    requires NoDup(vecs) && NoDup(objs) && Sound(b, out) && Drawn(vecs, objs, out)
    ensures |out| <= |vecs| + Plain(objs)
    ensures Complete(vecs, objs, out) <==> |out| == |vecs| + Plain(objs)
  {
    KeysCount(b, out);
    VecKeysCount(vecs);
    ObjKeysCount(objs);
    assert VecKeys(vecs) !! ObjKeys(objs);
    forall e | e in out ensures KeyOf(e) in AllKeys(vecs, objs) {
      var k :| 0 <= k < |out| && out[k] == e;
      assert FitsAt(b, out, k);
    }
    var all := AllKeys(vecs, objs);
    assert Keys(out) <= all;
    Within(Keys(out), all);
    assert Complete(vecs, objs, out) <==> all <= Keys(out) by {
      CompleteKeys(vecs, objs, out);
    }
  }

  lemma CompleteKeys(vecs: seq<Vec>, objs: seq<Obj>, out: seq<Entry>)
    ensures Complete(vecs, objs, out) <==> AllKeys(vecs, objs) <= Keys(out)
  {
    forall v: Vec ensures HasVec(out, v) <==> VecKey(v) in Keys(out) {
      if HasVec(out, v) {
        assert KeyOf(Entry(v, null)) == VecKey(v);
      }
    }
    forall o: Obj ensures HasObj(out, o) <==> ObjKey(o) in Keys(out) {}
    if AllKeys(vecs, objs) <= Keys(out) {
      forall v | v in vecs ensures HasVec(out, v) {
        assert VecKey(v) in AllKeys(vecs, objs);
      }
      forall o | o in objs && !o.shape.Meas? ensures HasObj(out, o) {
        assert ObjKey(o) in AllKeys(vecs, objs);
      }
    }
  }

  lemma Within<T>(a: set<T>, b: set<T>)
    requires a <= b
    ensures |a| <= |b| && (|a| == |b| <==> a == b)
  {
    assert b == a + (b - a);
  }

  // ----- followers -----

  // How many vectors of s are based on v.
  function UserCount(b: Bases, s: seq<Vec>, v: Vec): nat {
    if s == [] then 0 else (if BaseOf(b, s[0]) == v then 1 else 0) + UserCount(b, s[1..], v)
  }

  // x is the only vector based on its base, so it is output right after it.
  predicate Follows(b: Bases, s: seq<Vec>, x: Vec) {
    BaseOf(b, x) != null && UserCount(b, s, BaseOf(b, x)) == 1
  }

  lemma {:induction false} UserCountNone(b: Bases, s: seq<Vec>, v: Vec)
    ensures UserCount(b, s, v) == 0 <==> forall x | x in s :: BaseOf(b, x) != v
  {
    if s != [] {
      UserCountNone(b, s[1..], v);
      assert s == [s[0]] + s[1..];
    }
  }

  // One user, and no other.
  lemma {:induction false} OnlyUser(b: Bases, s: seq<Vec>, v: Vec) returns (i: nat)
    requires UserCount(b, s, v) == 1
    ensures i < |s| && BaseOf(b, s[i]) == v && forall j | 0 <= j < |s| && j != i :: BaseOf(b, s[j]) != v
  {
    if BaseOf(b, s[0]) == v {
      i := 0;
      UserCountNone(b, s[1..], v);
      forall j | 0 < j < |s| ensures BaseOf(b, s[j]) != v {
        assert s[1..][j - 1] == s[j];
      }
    } else {
      i := OnlyUser(b, s[1..], v);
      i := i + 1;
    }
  }

  // Whose base is out is out too, if it follows its base; except for a base that is being dealt with.
  ghost predicate Followed(b: Bases, s: seq<Vec>, out: seq<Entry>, except: Vec?) {
    forall x | x in s && Follows(b, s, x) && BaseOf(b, x) != except :: HasVec(out, BaseOf(b, x)) ==> HasVec(out, x)
  }

  // An object whose last reference is out is out too.
  ghost predicate Flushed(objs: seq<Obj>, out: seq<Entry>) {
    forall o | o in objs && !o.shape.Meas? && !Floats(o) && RefsOut(out, o) :: HasObj(out, o)
  }

  // From out to out', only objects have come.
  ghost predicate SameVecs(out: seq<Entry>, out': seq<Entry>) {
    out <= out' && forall k | |out| <= k < |out'| :: out'[k].obj != null
  }

  lemma SameVecsHas(out: seq<Entry>, out': seq<Entry>, v: Vec)
    requires SameVecs(out, out')
    ensures HasVec(out, v) <==> HasVec(out', v)
  {
    if HasVec(out', v) {
      var k :| 0 <= k < |out'| && out'[k] == Entry(v, null);
    }
  }

  lemma SameVecsRefs(out: seq<Entry>, out': seq<Entry>, o: Obj)
    requires SameVecs(out, out')
    ensures RefsOut(out, o) <==> RefsOut(out', o)
    ensures HasObj(out, o) ==> HasObj(out', o)
  {
    forall r: Vec | r in Refs(o) ensures HasVec(out, r) <==> HasVec(out', r) {
      SameVecsHas(out, out', r);
    }
  }

  // With v just output, objects that do not refer to it have not been waiting for it.
  lemma NotWaiting(before: seq<Entry>, v: Vec, out: seq<Entry>, o: Obj)
    requires SameVecs(before + [Entry(v, null)], out) && !Refers(o, v) && RefsOut(out, o)
    ensures RefsOut(before, o)
  {
    forall r: Vec | r in Refs(o) ensures HasVec(before, r) {
      SameVecsHas(before + [Entry(v, null)], out, r);
    }
  }

  // ----- a frame and its order -----

  class Frame {
    const vecs: seq<Vec>
    const objs: seq<Obj>
    ghost const bases: Bases
    var order: array<Entry>
    var curr: nat
    ghost var out: seq<Entry>

    constructor (vecs: seq<Vec>, objs: seq<Obj>, ghost bases: Bases)
      ensures this.vecs == vecs && this.objs == objs && this.bases == bases
    {
      this.vecs, this.objs, this.bases := vecs, objs, bases;
      order, curr, out := new Entry[0], 0, [];
    }

    // Each list has its elements once, and bases come before their users.
    ghost predicate WellMade()
      reads vecs
    {
      && NoDup(vecs) && NoDup(objs) && BasesFirst(bases, vecs)
      && (forall v | v in vecs :: v.base == BaseOf(bases, v))
      && forall o | o in objs && !o.shape.Meas? :: forall r: Vec | r in Refs(o) :: r in vecs
    }

    function Size(): nat { |vecs| + Plain(objs) }

    // The flags say what has been output.
    ghost predicate Valid()
      reads this, order, vecs, objs
    {
      && WellMade() && Sound(bases, out) && Drawn(vecs, objs, out)
      && order.Length == Size() + 1 && curr == |out| <= Size() && order[..curr] == out
      && (forall v | v in vecs :: v.dumped <==> HasVec(out, v))
      && forall o | o in objs :: o.dumped <==> HasObj(out, o)
    }

    // n_vec_refs
    method VecRefs(vec: Vec) returns (n: nat)
      requires WellMade()
      ensures n == UserCount(bases, vecs, vec)
    {
      n := 0;
      for i := 0 to |vecs|
        invariant n + UserCount(bases, vecs[i..], vec) == UserCount(bases, vecs, vec)
      {
        assert vecs[i] in vecs && vecs[i..][1..] == vecs[i + 1..];
        if vecs[i].base == vec {
          n := n + 1;
        }
      }
    }

    // need: with a current vector, only what refers to it is to be put there
    predicate Need(base: Vec?, prev: Vec?) { base != null && (prev == null || base == prev) }

    // later
    predicate Later(base: Vec?)
      reads base
    {
      base != null && !base.dumped
    }

    // may_put_obj_now
    method MayPutNow(obj: Obj, prev: Vec) returns (now: bool)
      requires Valid() && obj in objs
      ensures now <==> !obj.shape.Meas? && Refers(obj, prev) && RefsOut(out, obj)
    {
      var n := Need(obj.base, prev);
      var l := Later(obj.base);
      match obj.shape {
        case FrameRef =>
        case Line(other) => n, l := n || Need(other, prev), l || Later(other);
        case Rect(other) => n, l := n || Need(other, prev), l || Later(other);
        case Pad(other) => n, l := n || Need(other, prev), l || Later(other);
        case Hole(other) => n, l := n || Need(other, prev), l || Later(other);
        case Arc(start, end) =>
          n := n || Need(start, prev) || Need(end, prev);
          l := l || Later(start) || Later(end);
        case Meas(high) => return false;
      }
      now := n && !l;
      forall r: Vec | r in Refs(obj) ensures r in vecs {}
      assert n <==> Refers(obj, prev);
      assert l <==> exists r: Vec :: r in Refs(obj) && !r.dumped;
    }

    // put_obj and add_item
    method PutObj(obj: Obj, prev: Vec?)
      requires Valid() && obj in objs && (!obj.dumped ==> Fits(bases, out, Entry(prev, obj)))
      modifies this`curr, this`out, order, obj`dumped
      ensures Valid() && HasObj(out, obj)
      ensures out == if old(obj.dumped) then old(out) else old(out) + [Entry(prev, obj)]
    {
      if obj.dumped {
        return;
      }
      AddItem(Entry(prev, obj));
      obj.dumped := true;
    }

    method AddItem(e: Entry)
      requires WellMade() && Sound(bases, out) && Drawn(vecs, objs, out) && Fits(bases, out, e)
      requires if e.obj == null then e.vec in vecs else e.obj in objs
      requires order.Length == Size() + 1 && curr == |out| <= Size() && order[..curr] == out
      modifies this`curr, this`out, order
      ensures Sound(bases, out) && Drawn(vecs, objs, out) && curr == |out| <= Size() && order[..curr] == out
      ensures out == old(out) + [e]
    {
      SoundNext(bases, out, e);
      EntryCount(bases, vecs, objs, out + [e]);
      order[curr] := e;
      curr := curr + 1;
      out := out + [e];
    }

    method PutVec(vec: Vec)
      requires Valid() && vec in vecs && Fits(bases, out, Entry(vec, null))
      modifies this`curr, this`out, order, vec`dumped
      ensures Valid() && out == old(out) + [Entry(vec, null)]
    {
      vec.dumped := true;
      AddItem(Entry(vec, null));
    }

    method PutIfPossible(obj: Obj, vec: Vec, ghost start: seq<Entry>)
      requires Valid() && obj in objs && Latest(out) == vec && SameVecs(start, out)
      modifies this`curr, this`out, order, obj`dumped
      ensures Valid() && Latest(out) == vec && SameVecs(start, out) && SameVecs(old(out), out)
      ensures !obj.shape.Meas? && Refers(obj, vec) && RefsOut(old(out), obj) ==> HasObj(out, obj)
    {
      var now := MayPutNow(obj, vec);
      if now {
        LatestNext(out, Entry(vec, obj));
        PutObj(obj, vec);
      }
    }

    // The objects that can go after vector vec, just output, and not before.
    method PutObjs(vec: Vec, ghost before: seq<Entry>)
      requires Valid() && out == before + [Entry(vec, null)] && Flushed(objs, before)
      modifies this`curr, this`out, order, objs`dumped
      ensures Valid() && Flushed(objs, out) && SameVecs(old(out), out)
    {
      LatestNext(before, Entry(vec, null));
      ghost var start := out;
      for i := 0 to |objs|
        invariant Valid() && Latest(out) == vec && SameVecs(start, out)
        invariant Flushed(objs[..i], out)
      {
        ghost var was := out;
        PutIfPossible(objs[i], vec, start);
        FlushedNext(objs, i, before, vec, was, out);
      }
      assert objs[..|objs|] == objs;
    }

    // recurse_vec: a vector, the objects that can go now, and what follows the vector
    method RecurseVec(i: nat)
      requires Valid() && i < |vecs| && Fits(bases, out, Entry(vecs[i], null)) && Flushed(objs, out)
      requires Followed(bases, vecs, out, BaseOf(bases, vecs[i]))
      modifies this`curr, this`out, order, vecs`dumped, objs`dumped
      ensures Valid() && Flushed(objs, out) && Followed(bases, vecs, out, null)
      ensures HasVec(out, vecs[i]) && Extends(vecs, old(out), out)
      ensures OnlyFollowers(bases, vecs, old(out), out, vecs[i])
      decreases |vecs| - i
    {
      var vec := vecs[i];
      ghost var before := out;
      PutVec(vec);
      PutObjs(vec, before);
      FollowedNext(bases, vecs, before, vec, out);
      PutChain(before, out, vecs, bases, vec);
      var n := VecRefs(vec);
      if n == 1 {
        ghost var k := OnlyUser(bases, vecs, vec);
        UserBehind(bases, vecs, i, k);
        var next := FindUser(vec, i, k);
        NextFits(bases, before, out, vec, vecs[next]);
        RecurseVec(next);
      } else {
        FollowedAll(bases, vecs, out, vec);
      }
    }

    // order_vecs: every vector that does not follow its base, in the order of the list
    method OrderVecs()
      requires Valid() && out == []
      modifies this`curr, this`out, order, vecs`dumped, objs`dumped
      ensures Valid() && Flushed(objs, out) && forall v | v in vecs :: HasVec(out, v)
    {
      assert forall o | o in objs && !Floats(o) :: !RefsOut(out, o) by {
        NothingOut(objs);
      }
      for i := 0 to |vecs|
        invariant Valid() && Flushed(objs, out) && Followed(bases, vecs, out, null)
        invariant UpTo(bases, vecs, out, i)
      {
        assert vecs[i] in vecs;
        ghost var was := out;
        var head := vecs[i].base == null;
        if !head {
          var n := VecRefs(vecs[i].base);
          head := n != 1;
        }
        HeadFits(bases, vecs, out, i);
        if head {
          RecurseVec(i);
        }
        UpToNext(bases, vecs, was, out, i);
      }
    }

    // order_frame: with the flags cleared, the vectors, and then the objects that float
    method OrderFrame()
      requires WellMade()
      modifies this`curr, this`out, this`order, vecs`dumped, objs`dumped
      ensures Sound(bases, out) && Complete(vecs, objs, out) && Drawn(vecs, objs, out)
      ensures |out| == Size() && order.Length == curr == Size() + 1
      ensures order[..Size()] == out && order[Size()] == Entry(null, null)
    {
      ClearFlags();
      var n := CountItems();
      order, curr, out := new Entry[n + 1], 0, [];
      OrderVecs();
      PutFloating();
      EntryCount(bases, vecs, objs, out);
      assert curr == Size();
      order[curr] := Entry(null, null);
      curr := curr + 1;
    }

    method CountItems() returns (n: nat)
      ensures n == Size()
    {
      n := 0;
      for i := 0 to |vecs|
        invariant n == i
      {
        n := n + 1;
      }
      for i := 0 to |objs|
        invariant n + Plain(objs[i..]) == Size()
      {
        assert objs[i..][1..] == objs[i + 1..];
        if !objs[i].shape.Meas? {
          n := n + 1;
        }
      }
    }

    method ClearFlags()
      modifies vecs`dumped, objs`dumped
      ensures (forall v | v in vecs :: !v.dumped) && forall o | o in objs :: !o.dumped
    {
      for i := 0 to |vecs|
        invariant forall j | 0 <= j < i :: !vecs[j].dumped
      {
        vecs[i].dumped := false;
      }
      for i := 0 to |objs|
        invariant forall j | 0 <= j < i :: !objs[j].dumped
        invariant forall j | 0 <= j < |vecs| :: !vecs[j].dumped
      {
        objs[i].dumped := false;
      }
    }

    // The last loop: what has not been output by now refers to no vector.
    method PutFloating()
      requires Valid() && Flushed(objs, out) && forall v | v in vecs :: HasVec(out, v)
      modifies this`curr, this`out, order, objs`dumped
      ensures Valid() && Complete(vecs, objs, out)
    {
      for i := 0 to |objs|
        invariant Valid() && Flushed(objs, out) && forall v | v in vecs :: HasVec(out, v)
        invariant forall o | o in objs[..i] && !o.shape.Meas? :: HasObj(out, o)
      {
        PutIfFloating(objs[i]);
        assert objs[..i + 1] == objs[..i] + [objs[i]];
      }
      assert objs[..|objs|] == objs;
    }

    method PutIfFloating(obj: Obj)
      requires Valid() && obj in objs && Flushed(objs, out) && forall v | v in vecs :: HasVec(out, v)
      modifies this`curr, this`out, order, obj`dumped
      ensures Valid() && Flushed(objs, out) && SameVecs(old(out), out)
      ensures (forall v | v in vecs :: HasVec(out, v)) && (!obj.shape.Meas? ==> HasObj(out, obj))
      ensures forall o | o in objs && HasObj(old(out), o) :: HasObj(out, o)
    {
      if !obj.shape.Meas? {
        assert RefsOut(out, obj);
        PutObj(obj, null);
      }
      forall o | o in objs ensures RefsOut(old(out), o) <==> RefsOut(out, o) {
        SameVecsRefs(old(out), out, o);
      }
    }

    // The search for the only user of a vector.
    method FindUser(vec: Vec, i: nat, ghost k: nat) returns (next: nat)
      requires WellMade() && i < k < |vecs| && BaseOf(bases, vecs[k]) == vec
      requires forall j | 0 <= j < |vecs| && j != k :: BaseOf(bases, vecs[j]) != vec
      ensures next == k
    {
      next := i + 1;
      assert vecs[next] in vecs;
      while vecs[next].base != vec
        invariant i < next <= k
        decreases k - next
      {
        assert vecs[next + 1] in vecs;
        next := next + 1;
      }
    }
  }

  // ----- chains of followers -----

  lemma BaseIsOut(b: Bases, out: seq<Entry>, x: Vec)
    requires Sound(b, out) && HasVec(out, x) && BaseOf(b, x) != null
    ensures HasVec(out, BaseOf(b, x))
  {
    var k :| 0 <= k < |out| && out[k] == Entry(x, null);
    assert FitsAt(b, out, k);
  }

  // What is based on v is behind it.
  lemma UserBehind(b: Bases, s: seq<Vec>, i: nat, k: nat)
    requires BasesFirst(b, s) && NoDup(s) && i < |s| && k < |s| && BaseOf(b, s[k]) == s[i]
    ensures i < k
  {
    assert BaseBefore(b, s, k);
    var j :| 0 <= j < k && s[j] == s[i];
    if j != i {
      NoDupAt(s, i, j);
    }
  }

  // x has come, with objects behind it: what follows it is now the exception.
  lemma FollowedNext(b: Bases, s: seq<Vec>, was: seq<Entry>, x: Vec, out: seq<Entry>)
    requires x in s && Followed(b, s, was, BaseOf(b, x)) && SameVecs(was + [Entry(x, null)], out)
    ensures Followed(b, s, out, x)
  {
    forall y | y in s && Follows(b, s, y) && BaseOf(b, y) != x && HasVec(out, BaseOf(b, y)) ensures HasVec(out, y) {
      var base: Vec := BaseOf(b, y);
      SameVecsHas(was + [Entry(x, null)], out, base);
      SameVecsHas(was + [Entry(x, null)], out, y);
      assert HasVec(was, base);
      if base == BaseOf(b, x) {
        OneFollower(b, s, x, y);
      }
    }
  }

  lemma OneFollower(b: Bases, s: seq<Vec>, x: Vec, y: Vec)
    requires x in s && y in s && Follows(b, s, y) && BaseOf(b, x) == BaseOf(b, y)
    ensures x == y
  {
    var i := OnlyUser(b, s, BaseOf(b, y));
  }

  // Nothing follows x, or what does has come.
  lemma FollowedAll(b: Bases, s: seq<Vec>, out: seq<Entry>, x: Vec)
    requires Followed(b, s, out, x)
    requires forall y | y in s && Follows(b, s, y) && BaseOf(b, y) == x :: HasVec(out, y)
    ensures Followed(b, s, out, null)
  {
    forall y | y in s && Follows(b, s, y) && HasVec(out, BaseOf(b, y)) ensures HasVec(out, y) {}
  }

  // Vectors that came between out and out', except x, follow their bases.
  ghost predicate OnlyFollowers(b: Bases, s: seq<Vec>, out: seq<Entry>, out': seq<Entry>, x: Vec) {
    forall y | y in s && HasVec(out', y) && !HasVec(out, y) && y != x :: Follows(b, s, y)
  }

  ghost predicate Extends(s: seq<Vec>, out: seq<Entry>, out': seq<Entry>) {
    forall y | y in s && HasVec(out, y) :: HasVec(out', y)
  }

  lemma NothingOut(objs: seq<Obj>)
    ensures Flushed(objs, [])
  {
    forall o | o in objs && !Floats(o) ensures !RefsOut([], o) {
      var r: Vec :| r in Refs(o);
      assert !HasVec([], r);
    }
  }

  // The first n vectors are out, and of the others, only such that follow their bases.
  ghost predicate UpTo(b: Bases, s: seq<Vec>, out: seq<Entry>, n: nat)
    requires n <= |s|
  {
    && (forall v | v in s[..n] :: HasVec(out, v))
    && forall v | v in s && HasVec(out, v) && v !in s[..n] :: Follows(b, s, v)
  }

  // A vector whose turn it is can come if it does not follow its base, and has come if it does.
  lemma HeadFits(b: Bases, s: seq<Vec>, out: seq<Entry>, i: nat)
    requires BasesFirst(b, s) && NoDup(s) && i < |s| && UpTo(b, s, out, i) && Followed(b, s, out, null)
    ensures Follows(b, s, s[i]) ==> HasVec(out, s[i])
    ensures !Follows(b, s, s[i]) ==> Fits(b, out, Entry(s[i], null)) && Followed(b, s, out, BaseOf(b, s[i]))
  {
    assert BaseBefore(b, s, i);
    if s[i] in s[..i] {
      var j :| 0 <= j < i && s[j] == s[i];
      NoDupAt(s, j, i);
    }
  }

  lemma UpToNext(b: Bases, s: seq<Vec>, was: seq<Entry>, out: seq<Entry>, i: nat)
    requires i < |s| && UpTo(b, s, was, i) && HasVec(out, s[i])
    requires Extends(s, was, out) && OnlyFollowers(b, s, was, out, s[i])
    ensures UpTo(b, s, out, i + 1)
  {
    assert s[..i + 1] == s[..i] + [s[i]];
  }

  lemma PutChain(before: seq<Entry>, out: seq<Entry>, s: seq<Vec>, b: Bases, v: Vec)
    requires SameVecs(before + [Entry(v, null)], out)
    ensures HasVec(out, v) && Extends(s, before, out) && OnlyFollowers(b, s, before, out, v)
  {
    forall y: Vec ensures HasVec(out, y) <==> HasVec(before, y) || y == v {
      SameVecsHas(before + [Entry(v, null)], out, y);
    }
  }

  // The follower can come next.
  lemma NextFits(b: Bases, before: seq<Entry>, out: seq<Entry>, v: Vec, x: Vec)
    requires Sound(b, before) && SameVecs(before + [Entry(v, null)], out) && !HasVec(before, v)
    requires BaseOf(b, x) == v && x != v
    ensures Fits(b, out, Entry(x, null))
  {
    SameVecsHas(before + [Entry(v, null)], out, x);
    SameVecsHas(before + [Entry(v, null)], out, v);
    if HasVec(before, x) {
      BaseIsOut(b, before, x);
    }
  }

  lemma FlushedNext(objs: seq<Obj>, i: nat, before: seq<Entry>, v: Vec, was: seq<Entry>, out: seq<Entry>)
    requires i < |objs| && Flushed(objs[..i], was) && Flushed(objs, before)
    requires SameVecs(before + [Entry(v, null)], was) && SameVecs(was, out)
    requires !objs[i].shape.Meas? && Refers(objs[i], v) && RefsOut(was, objs[i]) ==> HasObj(out, objs[i])
    ensures Flushed(objs[..i + 1], out) && SameVecs(before + [Entry(v, null)], out)
  {
    forall o | o in objs[..i + 1] && !o.shape.Meas? && !Floats(o) && RefsOut(out, o) ensures HasObj(out, o) {
      SameVecsRefs(was, out, o);
      if o !in objs[..i] && !Refers(o, v) {
        NotWaiting(before, v, was, o);
        var e :| e in before && e.obj == o;
        assert e in before + [Entry(v, null)] && e in was && e in out;
      }
    }
  }
}
