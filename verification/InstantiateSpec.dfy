// The instantiation of fped (eda/fped/obj.c): all combinations of table rows and loop values of a
// frame, and of the frames it refers to.
module InstantiateSpec {
  import opened Wrappers
  import opened Folding
  import opened SeqMinus

  const MAX_ITERATIONS := 1000

  // The result of evaluating an expression.
  datatype Num = Undef | Num(n: real, dimensionless: bool)

  class Row {
    constructor () {}
  }

  class Table {
    const rows: seq<Row>
    const activeRow: Row?  // selected by the user; generation does not change it
    var currRow: Row?      // during generation
    constructor (rows: seq<Row>, activeRow: Row?)
      ensures this.rows == rows && this.activeRow == activeRow && currRow == null
    {
      this.rows, this.activeRow, currRow := rows, activeRow, null;
    }
  }

  class Loop {
    const active: int            // selected by the user; generation does not change it
    var currValue: Option<real>  // during generation
    var initialized: bool
    constructor (active: int)
      ensures this.active == active && currValue == None && !initialized
    {
      this.active, currValue, initialized := active, None, false;
    }
  }

  class Vec {
    constructor () {}
  }

  datatype Kind = FrameRef(ref: Frame) | Meas | Plain

  class Obj {
    const kind: Kind
    constructor (kind: Kind)
      ensures this.kind == kind
    {
      this.kind := kind;
    }
  }

  class Frame {
    const tables: seq<Table>
    const loops: seq<Loop>
    const vecs: seq<Vec>
    const objs: seq<Obj>
    ghost const rank: nat   // frames refer to frames of lower rank
    var n: nat              // index into frame sets
    var currParent: Frame?  // during generation
    var activeRef: Obj?     // selected by the user

    constructor (tables: seq<Table>, loops: seq<Loop>, vecs: seq<Vec>, objs: seq<Obj>, ghost rank: nat)
      ensures this.tables == tables && this.loops == loops && this.vecs == vecs && this.objs == objs && this.rank == rank
      ensures currParent == null && activeRef == null
    {
      this.tables, this.loops, this.vecs, this.objs, this.rank := tables, loops, vecs, objs, rank;
      n, currParent, activeRef := 0, null, null;
    }
  }

  // ----- what is remembered during generation -----

  datatype Mem = Mem(
    row: map<Table, Row?>, value: map<Loop, Option<real>>, init: map<Loop, bool>,
    parent: map<Frame, Frame?>, frames: set<nat>)

  ghost predicate SameKeys(m: Mem, m': Mem) {
    m'.row.Keys == m.row.Keys && m'.value.Keys == m.value.Keys && m'.parent.Keys == m.parent.Keys
  }

  // What generation may leave behind: it has changed the rows of tables in ts, the values of loops in
  // ls and the parents of frames in fs, and if all went well, it has reset what it changed. The frame
  // set and the initialization of loops are in any case as they were.
  ghost predicate Ran(m: Mem, m': Mem, ts: set<Table>, ls: set<Loop>, fs: set<Frame>, ok: bool) {
    && m'.init == m.init && m'.frames == m.frames
    && RowsChanged(m.row, m'.row, ts, ok) && ValuesChanged(m.value, m'.value, ls, ok) && ParentsChanged(m.parent, m'.parent, fs)
  }

  ghost predicate RowsChanged(m: map<Table, Row?>, m': map<Table, Row?>, ts: set<Table>, ok: bool) {
    m'.Keys == m.Keys && forall t | t in m :: m'[t] == m[t] || (t in ts && (ok ==> m'[t] == null))
  }

  ghost predicate ValuesChanged(m: map<Loop, Option<real>>, m': map<Loop, Option<real>>, ls: set<Loop>, ok: bool) {
    m'.Keys == m.Keys && forall l | l in m :: m'[l] == m[l] || (l in ls && (ok ==> m'[l] == None))
  }

  ghost predicate ParentsChanged(m: map<Frame, Frame?>, m': map<Frame, Frame?>, fs: set<Frame>) {
    m'.Keys == m.Keys && forall f | f in m :: m'[f] == m[f] || (f in fs && m'[f] == null)
  }

  // ----- what happens during generation -----

  datatype Event =
    | Call(frame: Frame, active: bool)                         // generate_frame
    | Items(frame: Frame, active: bool)                        // generate_items
    | Posted(vec: Vec, frames: set<nat>)                       // meas_post

  function Numbers(num: map<Frame, nat>, chain: seq<Frame>): set<nat> {
    set f | f in chain && f in num :: num[f]
  }

  // Only frames below a rank are involved.
  ghost predicate RanksBelow(tr: seq<Event>, r: nat) {
    forall e | e in tr && !e.Posted? :: e.frame.rank < r
  }

  // The frame with the object that the user selected as the way to h.
  ghost predicate Owns(chosen: map<Frame, Obj?>, f: Frame, h: Frame) {
    h in chosen && chosen[h] != null && chosen[h] in f.objs && chosen[h].kind == FrameRef(h)
  }

  ghost function Owner(fs: set<Frame>, chosen: map<Frame, Obj?>, h: Frame): (p: Frame?)
    ensures p != null ==> p in fs && Owns(chosen, p, h)
    ensures p == null ==> forall f | f in fs :: !Owns(chosen, f, h)
  {
    if exists f :: f in fs && Owns(chosen, f, h) then
      var f :| f in fs && Owns(chosen, f, h); f
    else null
  }

  function Times(tr: seq<Event>, e: Event): nat { multiset(tr)[e] }

  // How often h's items were generated with its selected way's frame active.
  ghost function OwnerItems(fs: set<Frame>, chosen: map<Frame, Obj?>, tr: seq<Event>, h: Frame): nat {
    var p := Owner(fs, chosen, h);
    if p == null then 0 else Times(tr, Items(p, true))
  }

  ghost predicate BoundedAt(fs: set<Frame>, chosen: map<Frame, Obj?>, tr: seq<Event>,
                            calls: multiset<Frame>, items: multiset<Frame>, h: Frame) {
    && Times(tr, Items(h, true)) <= Times(tr, Call(h, true)) + items[h]
    && Times(tr, Call(h, true)) <= OwnerItems(fs, chosen, tr, h) + calls[h]
  }

  // Active items come from active calls, active calls from active items of the frame that owns the
  // selected way, except for what is granted in items and calls.
  ghost predicate Bounded(fs: set<Frame>, chosen: map<Frame, Obj?>, tr: seq<Event>,
                          calls: multiset<Frame>, items: multiset<Frame>) {
    forall h {:trigger BoundedAt(fs, chosen, tr, calls, items, h)} | h in fs :: BoundedAt(fs, chosen, tr, calls, items, h)
  }

  lemma BoundedConcat(fs: set<Frame>, chosen: map<Frame, Obj?>, tr: seq<Event>, calls: multiset<Frame>, items: multiset<Frame>,
                      tr': seq<Event>, calls': multiset<Frame>, items': multiset<Frame>)
    requires Bounded(fs, chosen, tr, calls, items) && Bounded(fs, chosen, tr', calls', items')
    ensures Bounded(fs, chosen, tr + tr', calls + calls', items + items')
  {
    forall h | h in fs ensures BoundedAt(fs, chosen, tr + tr', calls + calls', items + items', h) {
      assert BoundedAt(fs, chosen, tr, calls, items, h) && BoundedAt(fs, chosen, tr', calls', items', h);
    }
  }

  lemma BoundedNothing(fs: set<Frame>, chosen: map<Frame, Obj?>, tr: seq<Event>)
    requires forall e | e in tr :: e.Posted?
    ensures Bounded(fs, chosen, tr, multiset{}, multiset{})
  {
    forall h | h in fs ensures BoundedAt(fs, chosen, tr, multiset{}, multiset{}, h) {
      assert Items(h, true) !in tr && Call(h, true) !in tr;
    }
  }

  function Grant(f: Frame, active: bool): multiset<Frame> { if active then multiset{f} else multiset{} }

  // A call of f is granted, and it grants items.
  lemma BoundedCall(fs: set<Frame>, chosen: map<Frame, Obj?>, f: Frame, active: bool, tr: seq<Event>)
    requires Bounded(fs, chosen, tr, multiset{}, Grant(f, active))
    ensures Bounded(fs, chosen, [Call(f, active)] + tr, Grant(f, active), multiset{})
  {
    var tr' := [Call(f, active)] + tr;
    forall h | h in fs ensures BoundedAt(fs, chosen, tr', Grant(f, active), multiset{}, h) {
      assert BoundedAt(fs, chosen, tr, multiset{}, Grant(f, active), h);
      assert multiset(tr') == multiset{Call(f, active)} + multiset(tr);
    }
  }

  // The calls that active items of a frame with these objects grant.
  ghost function CallsOf(chosen: map<Frame, Obj?>, objs: seq<Obj>, active: bool): multiset<Frame> {
    if objs == [] || !active then multiset{}
    else CallsOf(chosen, objs[..|objs| - 1], active) + GrantBy(chosen, objs[|objs| - 1], active)
  }

  // active && obj->u.frame.ref->active_ref == obj
  ghost function GrantBy(chosen: map<Frame, Obj?>, o: Obj, active: bool): multiset<Frame> {
    if active && o.kind.FrameRef? && o.kind.ref in chosen && chosen[o.kind.ref] == o then multiset{o.kind.ref} else multiset{}
  }

  lemma {:induction false} CallsOfOnce(chosen: map<Frame, Obj?>, objs: seq<Obj>, active: bool, h: Frame)
    requires NoDup(objs)
    ensures CallsOf(chosen, objs, active)[h] <= 1
    ensures CallsOf(chosen, objs, active)[h] > 0 ==>
      active && h in chosen && chosen[h] != null && chosen[h] in objs && chosen[h].kind == FrameRef(h)
  {
    if objs != [] && active {
      var n := |objs| - 1;
      NoDupPrefix(objs, n);
      assert objs == objs[..n] + [objs[n]];
      CallsOfOnce(chosen, objs[..n], active, h);
      if objs[n] in objs[..n] {
        var k :| 0 <= k < n && objs[k] == objs[n];
        NoDupAt(objs, k, n);
      }
    }
  }

  lemma {:induction false} NoDupPrefix<T>(s: seq<T>, n: nat)
    requires NoDup(s) && n <= |s|
    ensures NoDup(s[..n])
  {
    if n > 0 {
      NoDupPrefix(s[1..], n - 1);
      assert s[..n][1..] == s[1..][..n - 1];
    }
  }

  // Items are granted, and they grant the calls of the objects.
  lemma BoundedItems(fs: set<Frame>, chosen: map<Frame, Obj?>, f: Frame, active: bool, tr: seq<Event>)
    requires Bounded(fs, chosen, tr, CallsOf(chosen, f.objs, active), multiset{}) && NoDup(f.objs) && f in fs
    requires forall g, h | g in fs && Owns(chosen, f, h) && Owns(chosen, g, h) :: f == g
    ensures Bounded(fs, chosen, [Items(f, active)] + tr, multiset{}, Grant(f, active))
  {
    forall h | h in fs ensures BoundedAt(fs, chosen, [Items(f, active)] + tr, multiset{}, Grant(f, active), h) {
      assert BoundedAt(fs, chosen, tr, CallsOf(chosen, f.objs, active), multiset{}, h);
      BoundedItemsAt(fs, chosen, f, active, tr, h);
    }
  }

  lemma BoundedItemsAt(fs: set<Frame>, chosen: map<Frame, Obj?>, f: Frame, active: bool, tr: seq<Event>, h: Frame)
    requires BoundedAt(fs, chosen, tr, CallsOf(chosen, f.objs, active), multiset{}, h) && NoDup(f.objs) && f in fs
    requires forall g, h | g in fs && Owns(chosen, f, h) && Owns(chosen, g, h) :: f == g
    ensures BoundedAt(fs, chosen, [Items(f, active)] + tr, multiset{}, Grant(f, active), h)
  {
    var tr' := [Items(f, active)] + tr;
    assert multiset(tr') == multiset{Items(f, active)} + multiset(tr);
    CallsOfOnce(chosen, f.objs, active, h);
  }

  // From a single active call of the root, no frame's items are generated actively more than once.
  lemma {:induction false} AtMostOnce(fs: set<Frame>, chosen: map<Frame, Obj?>, tr: seq<Event>, root: Frame, h: Frame)
    requires Bounded(fs, chosen, tr, multiset{root}, multiset{}) && RanksBelow(tr, root.rank + 1) && h in fs
    requires forall f, g | f in fs && g in fs && Owns(chosen, f, g) :: g.rank < f.rank
    ensures Times(tr, Call(h, true)) <= 1 && Times(tr, Items(h, true)) <= 1
    decreases root.rank + 1 - h.rank
  {
    assert BoundedAt(fs, chosen, tr, multiset{root}, multiset{}, h);
    if h.rank > root.rank {
      assert Call(h, true) !in tr;
    } else {
      var p := Owner(fs, chosen, h);
      if p != null {
        AtMostOnce(fs, chosen, tr, root, p);
        if h == root {
          assert Items(p, true) !in tr;
        }
      }
    }
  }

  // ----- what does not change during generation -----

  datatype Setup = Setup(
    fs: set<Frame>, tables: set<Table>, loops: set<Loop>, root: Frame,
    tableOwner: map<Table, Frame>, loopOwner: map<Loop, Frame>, objOwner: map<Obj, Frame>,
    num: map<Frame, nat>, chosen: map<Frame, Obj?>)

  ghost predicate FrameOk(g: Setup, f: Frame) {
    && f in g.chosen && NoDup(f.tables) && NoDup(f.loops) && NoDup(f.objs)
    && (forall t | t in f.tables :: t in g.tables && t in g.tableOwner && g.tableOwner[t] == f)
    && (forall l | l in f.loops :: l in g.loops && l in g.loopOwner && g.loopOwner[l] == f)
    && (forall o | o in f.objs :: o in g.objOwner && g.objOwner[o] == f && (o.kind.Meas? ==> f == g.root))
    && forall o | o in f.objs && o.kind.FrameRef? :: o.kind.ref in g.fs && o.kind.ref.rank < f.rank
  }

  // Tables, loops and objects have one frame each, frames have different numbers, and do not recurse.
  ghost predicate WellMade(g: Setup) {
    forall k {:trigger Unfold(k)} :: Unfold(k) ==> WellMadeNow(g)
  }

  ghost predicate WellMadeNow(g: Setup) { Structured(g) && Numbered(g) }

  ghost predicate Structured(g: Setup) {
    && (forall t | t in g.tables :: NoDup(t.rows))
    && g.root in g.fs && (forall f | f in g.fs :: FrameOk(g, f))
    && (forall t | t in g.tables :: t in g.tableOwner && g.tableOwner[t] in g.fs)
    && (forall l | l in g.loops :: l in g.loopOwner && g.loopOwner[l] in g.fs)
  }

  ghost predicate Numbered(g: Setup) {
    && (forall f | f in g.fs :: f in g.num)
    && forall f, h | f in g.fs && h in g.fs && f != h :: g.num[f] != g.num[h]
  }

  lemma OwnsOne(g: Setup, f: Frame)
    requires WellMade(g) && f in g.fs
    ensures forall h, k | k in g.fs && Owns(g.chosen, f, h) && Owns(g.chosen, k, h) :: f == k
    ensures forall h | Owns(g.chosen, f, h) :: h.rank < f.rank
  {
    assert Unfold(0);
  }

  // The tables from the i-th of f on, and those of lower frames.
  ghost function TablesFrom(g: Setup, f: Frame, i: nat): set<Table>
  {
    set t | t in g.tables && t in g.tableOwner && ((i <= |f.tables| && t in f.tables[i..]) || g.tableOwner[t].rank < f.rank)
  }

  ghost function LoopsFrom(g: Setup, f: Frame, i: nat): set<Loop>
  {
    set l | l in g.loops && l in g.loopOwner && ((i <= |f.loops| && l in f.loops[i..]) || g.loopOwner[l].rank < f.rank)
  }

  ghost function FramesBelow(g: Setup, r: nat): set<Frame> { set f | f in g.fs && f.rank < r }

  // The loops in ls are not running.
  ghost predicate Idle(m: Mem, ls: set<Loop>) { forall l | l in ls :: l in m.init && !m.init[l] }

  // The frame that calls from the end of a chain.
  function Last(chain: seq<Frame>): Frame? { if chain == [] then null else chain[|chain| - 1] }

  // Each frame on the chain of calls has the one before it as its parent, and the first one has none.
  ghost predicate Nested(parent: map<Frame, Frame?>, chain: seq<Frame>) {
    && (forall f | f in chain :: f in parent)
    && (chain != [] ==> parent[chain[0]] == null)
    && forall j, k | 0 <= j < k < |chain| && k == j + 1 :: parent[chain[k]] == chain[j]
  }

  // The frames on the chain of calls have their numbers in the frame set and their parents, and ranks go
  // down.
  ghost predicate ChainOk(g: Setup, m: Mem, chain: seq<Frame>, r: nat) {
    && (forall f | f in chain :: f in g.fs && f.rank >= r)
    && m.frames == Numbers(g.num, chain) && Nested(m.parent, chain)
  }

  // f can be called from chain.
  ghost predicate Callable(g: Setup, f: Frame, m: Mem, chain: seq<Frame>) {
    forall k {:trigger Unfold(k)} :: Unfold(k) ==> ChainOk(g, m, chain, f.rank + 1) && Idle(m, LoopsFrom(g, f, 0))
  }

  // f is the last on the chain of calls, and its loops from the i-th on are not running.
  ghost predicate Entered(g: Setup, f: Frame, i: nat, m: Mem, chain: seq<Frame>) {
    forall k {:trigger Unfold(k)} :: Unfold(k) ==>
      ChainOk(g, m, chain, f.rank) && |chain| > 0 && chain[|chain| - 1] == f && Idle(m, LoopsFrom(g, f, i))
  }

  ghost predicate TraceOk(g: Setup, tr: seq<Event>, r: nat, calls: multiset<Frame>, items: multiset<Frame>) {
    forall k {:trigger Unfold(k)} :: Unfold(k) ==> TraceOkNow(g, tr, r, calls, items)
  }

  ghost predicate TraceOkNow(g: Setup, tr: seq<Event>, r: nat, calls: multiset<Frame>, items: multiset<Frame>) {
    RanksBelow(tr, r) && Bounded(g.fs, g.chosen, tr, calls, items)
  }

  lemma TraceConcat(g: Setup, tr: seq<Event>, tr': seq<Event>, r: nat, calls: multiset<Frame>, items: multiset<Frame>,
                    calls': multiset<Frame>, items': multiset<Frame>)
    requires TraceOk(g, tr, r, calls, items) && TraceOk(g, tr', r, calls', items')
    ensures TraceOk(g, tr + tr', r, calls + calls', items + items')
  {
    assert Unfold(0);
    BoundedConcat(g.fs, g.chosen, tr, calls, items, tr', calls', items');
  }

  lemma TraceThen(g: Setup, tr: seq<Event>, tr': seq<Event>, r: nat, calls: multiset<Frame>, items: multiset<Frame>)
    requires TraceOk(g, tr, r, calls, items) && TraceOk(g, tr', r, multiset{}, multiset{})
    ensures TraceOk(g, tr + tr', r, calls, items)
  {
    TraceConcat(g, tr, tr', r, calls, items, multiset{}, multiset{});
    assert calls + multiset{} == calls && items + multiset{} == items;
  }

  lemma TraceNothing(g: Setup, r: nat)
    ensures TraceOk(g, [], r, multiset{}, multiset{})
  {
    assert Unfold(0);
    BoundedNothing(g.fs, g.chosen, []);
  }

  // What may be granted but is not used.
  lemma TraceGrant(g: Setup, tr: seq<Event>, r: nat, calls: multiset<Frame>, items: multiset<Frame>,
                   calls': multiset<Frame>, items': multiset<Frame>)
    requires TraceOk(g, tr, r, calls, items) && calls <= calls' && items <= items'
    ensures TraceOk(g, tr, r, calls', items')
  {
    assert Unfold(0);
    forall h | h in g.fs ensures BoundedAt(g.fs, g.chosen, tr, calls', items', h) {
      assert BoundedAt(g.fs, g.chosen, tr, calls, items, h);
    }
  }

  // ----- what the levels of generation do -----

  // Run with tables from the i-th and loops from the j-th of f on, and with lower frames; and with f
  // itself, for the call as a whole.
  ghost predicate RanAt(g: Setup, f: Frame, i: nat, j: nat, self: bool, m: Mem, m': Mem, ok: bool) {
    forall k {:trigger Unfold(k)} :: Unfold(k) ==>
      Ran(m, m', TablesFrom(g, f, i), LoopsFrom(g, f, j), FramesBelow(g, f.rank) + if self then {f} else {}, ok)
  }

  // Run of the items of f alone, and of its loops from the i-th on.
  ghost predicate RanItems(g: Setup, f: Frame, m: Mem, m': Mem, ok: bool) {
    RanAt(g, f, |f.tables|, |f.loops|, false, m, m', ok)
  }

  ghost predicate RanLoops(g: Setup, f: Frame, i: nat, m: Mem, m': Mem, ok: bool) {
    RanAt(g, f, |f.tables|, i, false, m, m', ok)
  }

  // All loops of f are running or done, its items can be generated.
  ghost predicate AtItems(g: Setup, f: Frame, m: Mem, chain: seq<Frame>) { Entered(g, f, |f.loops|, m, chain) }

  lemma ItemsStay(g: Setup, f: Frame, m: Mem, ok: bool)
    ensures RanItems(g, f, m, m, ok)
  {}

  lemma LoopsFail(g: Setup, f: Frame, i: nat, m: Mem)
    ensures RanLoops(g, f, i, m, m, false)
  {}

  lemma RanThen(g: Setup, f: Frame, i: nat, j: nat, m: Mem, m': Mem, m'': Mem, ok: bool)
    requires RanAt(g, f, i, j, false, m, m', true) && RanAt(g, f, i, j, false, m', m'', ok)
    ensures RanAt(g, f, i, j, false, m, m'', ok)
  {
    assert Unfold(0);
  }

  lemma StillEntered(g: Setup, f: Frame, i: nat, m: Mem, m': Mem, chain: seq<Frame>)
    requires Entered(g, f, i, m, chain) && m'.init == m.init && m'.frames == m.frames
    requires ParentsChanged(m.parent, m'.parent, FramesBelow(g, f.rank))
    ensures Entered(g, f, i, m', chain)
  {
    assert Unfold(0);
  }

  lemma RanKeeps(g: Setup, f: Frame, i: nat, j: nat, self: bool, m: Mem, m': Mem, ok: bool)
    requires RanAt(g, f, i, j, self, m, m', ok)
    ensures m'.init == m.init && m'.frames == m.frames && SameKeys(m, m')
    ensures !self ==> ParentsChanged(m.parent, m'.parent, FramesBelow(g, f.rank))
  {
    assert Unfold(0);
  }

  // A call of f.
  lemma CallEnters(g: Setup, f: Frame, parent: Frame?, m: Mem, m1: Mem, chain: seq<Frame>)
    requires WellMade(g) && f in g.fs && f in g.num && Callable(g, f, m, chain) && parent == Last(chain)
    requires m1 == m.(parent := m.parent[f := parent], frames := m.frames + {g.num[f]})
    ensures Entered(g, f, 0, m1, chain + [f]) && m1.frames - {g.num[f]} == m.frames
  {
    assert Unfold(0);
    ChainPushed(g, m, m1, chain, f);
  }

  lemma ChainPushed(g: Setup, m: Mem, m': Mem, chain: seq<Frame>, f: Frame)
    requires WellMade(g) && f in g.fs && f in g.num && ChainOk(g, m, chain, f.rank + 1)
    requires m'.frames == m.frames + {g.num[f]} && m'.parent == m.parent[f := Last(chain)]
    ensures ChainOk(g, m', chain + [f], f.rank) && m'.frames - {g.num[f]} == m.frames
  {
    assert Unfold(0);
    var c := chain + [f];
    assert f in c;
    forall k | k in Numbers(g.num, c) ensures k in m'.frames {
      var h :| h in c && h in g.num && g.num[h] == k;
    }
    forall k | k in m'.frames ensures k in Numbers(g.num, c) {
      if k in m.frames {
        var h :| h in chain && h in g.num && g.num[h] == k;
        assert h in c;
      }
    }
    forall h | h in chain ensures h in g.num && g.num[h] != g.num[f] {
      assert h in g.fs && h != f;
    }
    NestedPushed(m.parent, chain, f);
  }

  lemma NestedPushed(parent: map<Frame, Frame?>, chain: seq<Frame>, f: Frame)
    requires Nested(parent, chain) && f !in chain
    ensures Nested(parent[f := Last(chain)], chain + [f])
  {
    var p, c := parent[f := Last(chain)], chain + [f];
    forall j, k | 0 <= j < k < |c| && k == j + 1 ensures p[c[k]] == c[j] {
      assert c[j] == chain[j] && (k < |chain| ==> c[k] == chain[k] && chain[k] in chain);
    }
  }

  lemma CallRan(g: Setup, f: Frame, parent: Frame?, m: Mem, m1: Mem, m2: Mem, m3: Mem, ok: bool)
    requires f in m.parent && f in g.num && m1 == m.(parent := m.parent[f := parent], frames := m.frames + {g.num[f]})
    requires RanAt(g, f, 0, 0, false, m1, m2, ok) && m1.frames - {g.num[f]} == m.frames
    requires m3 == m2.(parent := m2.parent[f := null], frames := m2.frames - {g.num[f]})
    ensures RanAt(g, f, 0, 0, true, m, m3, ok)
  {
    RanMeans(g, f, m1, m2, ok);
    ParentsCalled(m.parent, f, parent, m2.parent, FramesBelow(g, f.rank));
    assert Ran(m, m3, TablesFrom(g, f, 0), LoopsFrom(g, f, 0), FramesBelow(g, f.rank) + {f}, ok);
  }

  lemma RanMeans(g: Setup, f: Frame, m: Mem, m': Mem, ok: bool)
    requires RanAt(g, f, 0, 0, false, m, m', ok)
    ensures Ran(m, m', TablesFrom(g, f, 0), LoopsFrom(g, f, 0), FramesBelow(g, f.rank), ok)
  {
    assert Unfold(0);
    assert FramesBelow(g, f.rank) + {} == FramesBelow(g, f.rank);
  }

  lemma ParentsCalled(p: map<Frame, Frame?>, f: Frame, parent: Frame?, p': map<Frame, Frame?>, fs: set<Frame>)
    requires f in p && ParentsChanged(p[f := parent], p', fs)
    ensures ParentsChanged(p, p'[f := null], fs + {f})
  {}

  // A call of h from f.
  lemma CallLower(g: Setup, f: Frame, h: Frame, m: Mem, chain: seq<Frame>)
    requires WellMade(g) && f in g.fs && h in g.fs && h.rank < f.rank && AtItems(g, f, m, chain)
    ensures Callable(g, h, m, chain)
  {
    LowerFrame(g, f, h);
    assert Unfold(0);
  }

  // Before a call of h from f, and after it.
  lemma RefStarts(g: Setup, f: Frame, h: Frame, start: Mem, m: Mem, chain: seq<Frame>)
    requires WellMade(g) && f in g.fs && h in g.fs && h.rank < f.rank
    requires AtItems(g, f, start, chain) && RanItems(g, f, start, m, true)
    ensures Callable(g, h, m, chain) && Last(chain) == f
  {
    RanKeeps(g, f, |f.tables|, |f.loops|, false, start, m, true);
    StillEntered(g, f, |f.loops|, start, m, chain);
    CallLower(g, f, h, m, chain);
    assert Unfold(0);
  }

  lemma RefRan(g: Setup, f: Frame, h: Frame, start: Mem, m: Mem, m': Mem, ok: bool)
    requires WellMade(g) && f in g.fs && h in g.fs && h.rank < f.rank
    requires RanItems(g, f, start, m, true) && RanAt(g, h, 0, 0, true, m, m', ok)
    ensures RanItems(g, f, start, m', ok)
  {
    RanLower(g, f, h, m, m', ok);
    RanThen(g, f, |f.tables|, |f.loops|, start, m, m', ok);
  }

  lemma RanLower(g: Setup, f: Frame, h: Frame, m: Mem, m': Mem, ok: bool)
    requires WellMade(g) && f in g.fs && h in g.fs && h.rank < f.rank && RanAt(g, h, 0, 0, true, m, m', ok)
    ensures RanItems(g, f, m, m', ok)
  {
    LowerFrame(g, f, h);
    assert Unfold(0);
  }

  function RowReset(m: Mem, t: Table): Mem { m.(row := m.row[t := null]) }

  // The i-th table of f has a current row, and nothing else has changed for good since m.
  ghost predicate InTable(g: Setup, f: Frame, i: nat, m: Mem, m': Mem)
    requires i < |f.tables|
  {
    && f.tables[i] in m.row && f.tables[i] in m'.row
    && RanAt(g, f, i, 0, false, m, RowReset(m', f.tables[i]), true)
  }

  lemma TableStart(g: Setup, f: Frame, i: nat, m: Mem)
    requires WellMade(g) && f in g.fs && i < |f.tables| && f.tables[i] in m.row
    ensures InTable(g, f, i, m, m)
  {
    TablesFromNext(g, f, i);
  }

  lemma RowRan(g: Setup, f: Frame, i: nat, m: Mem, m0: Mem, m1: Mem, m2: Mem, r: Row?, ok: bool)
    requires WellMade(g) && f in g.fs && i < |f.tables| && InTable(g, f, i, m, m0)
    requires m1 == m0.(row := m0.row[f.tables[i] := r]) && RanAt(g, f, i + 1, 0, false, m1, m2, ok)
    ensures RanAt(g, f, i, 0, false, m, m2, false)
    ensures ok ==> InTable(g, f, i, m, m2)
  {
    TablesFromNext(g, f, i);
    RowRanIn(g, f, i, m, m0, m1, m2, r, ok);
  }

  lemma RowRanIn(g: Setup, f: Frame, i: nat, m: Mem, m0: Mem, m1: Mem, m2: Mem, r: Row?, ok: bool)
    requires i < |f.tables| && InTable(g, f, i, m, m0)
    requires f.tables[i] in TablesFrom(g, f, i) && TablesFrom(g, f, i + 1) <= TablesFrom(g, f, i)
    requires m1 == m0.(row := m0.row[f.tables[i] := r]) && RanAt(g, f, i + 1, 0, false, m1, m2, ok)
    ensures RanAt(g, f, i, 0, false, m, m2, false)
    ensures ok ==> InTable(g, f, i, m, m2)
  {
    assert Unfold(0);
  }

  lemma TableEnd(g: Setup, f: Frame, i: nat, m: Mem, m': Mem)
    requires i < |f.tables| && InTable(g, f, i, m, m')
    ensures RanAt(g, f, i, 0, false, m, RowReset(m', f.tables[i]), true)
    ensures m'.init == m.init && m'.frames == m.frames && ParentsChanged(m.parent, m'.parent, FramesBelow(g, f.rank))
  {
    RanKeeps(g, f, i, 0, false, m, RowReset(m', f.tables[i]), true);
  }

  function LoopReset(m: Mem, l: Loop): Mem { m.(value := m.value[l := None], init := m.init[l := false]) }

  // The i-th loop of f is running, and nothing else has changed for good since m.
  ghost predicate Looping(g: Setup, f: Frame, i: nat, m: Mem, m': Mem, value: Option<real>)
    requires i < |f.loops|
  {
    forall k {:trigger Unfold(k)} :: Unfold(k) ==> LoopingNow(g, f, i, m, m', value)
  }

  ghost predicate LoopingNow(g: Setup, f: Frame, i: nat, m: Mem, m': Mem, value: Option<real>)
    requires i < |f.loops|
  {
    var l := f.loops[i];
    && l in m.value && l in m.init && !m.init[l]
    && l in m'.value && l in m'.init && m'.value[l] == value && m'.init[l]
    && Ran(m, LoopReset(m', l), TablesFrom(g, f, |f.tables|), LoopsFrom(g, f, i), FramesBelow(g, f.rank), true)
  }

  lemma LoopStart(g: Setup, f: Frame, i: nat, m: Mem, m': Mem, v: Option<real>, chain: seq<Frame>)
    requires WellMade(g) && f in g.fs && i < |f.loops| && f.loops[i] in m.value && Entered(g, f, i, m, chain)
    requires m' == m.(value := m.value[f.loops[i] := v], init := m.init[f.loops[i] := true])
    ensures Looping(g, f, i, m, m', v)
  {
    LoopsFromNext(g, f, i);
    assert Unfold(0);
  }

  lemma LoopingEntered(g: Setup, f: Frame, i: nat, m: Mem, m': Mem, v: Option<real>, chain: seq<Frame>)
    requires WellMade(g) && f in g.fs && i < |f.loops| && Looping(g, f, i, m, m', v) && Entered(g, f, i, m, chain)
    ensures Entered(g, f, i + 1, m', chain)
  {
    LoopsFromNext(g, f, i);
    assert Unfold(0);
  }

  // One iteration, with what follows in it.
  lemma LoopRan(g: Setup, f: Frame, i: nat, m: Mem, m0: Mem, m1: Mem, v: Option<real>, ok: bool)
    requires WellMade(g) && f in g.fs && i < |f.loops| && Looping(g, f, i, m, m0, v)
    requires RanLoops(g, f, i + 1, m0, m1, ok)
    ensures f.loops[i] in m1.init && f.loops[i] in m1.value
    ensures RanLoops(g, f, i, m, m1.(init := m1.init[f.loops[i] := false]), false)
    ensures ok ==> Looping(g, f, i, m, m1, v)
  {
    LoopsFromNext(g, f, i);
    LoopRanIn(g, f, i, m, m0, m1, v, ok);
  }

  lemma LoopRanIn(g: Setup, f: Frame, i: nat, m: Mem, m0: Mem, m1: Mem, v: Option<real>, ok: bool)
    requires i < |f.loops| && Looping(g, f, i, m, m0, v) && RanLoops(g, f, i + 1, m0, m1, ok)
    requires f.loops[i] in LoopsFrom(g, f, i) && f.loops[i] !in LoopsFrom(g, f, i + 1)
    requires LoopsFrom(g, f, i + 1) <= LoopsFrom(g, f, i)
    ensures f.loops[i] in m1.init && f.loops[i] in m1.value
    ensures RanLoops(g, f, i, m, m1.(init := m1.init[f.loops[i] := false]), false)
    ensures ok ==> Looping(g, f, i, m, m1, v)
  {
    assert Unfold(0);
  }

  lemma LoopNext(g: Setup, f: Frame, i: nat, m: Mem, m': Mem, v: Option<real>, w: Option<real>)
    requires i < |f.loops| && Looping(g, f, i, m, m', v)
    ensures f.loops[i] in m'.value && Looping(g, f, i, m, m'.(value := m'.value[f.loops[i] := w]), w)
  {
    assert Unfold(0);
  }

  lemma LoopEnd(g: Setup, f: Frame, i: nat, m: Mem, m': Mem, v: Option<real>)
    requires WellMade(g) && f in g.fs && i < |f.loops| && Looping(g, f, i, m, m', v)
    ensures f.loops[i] in m'.init && f.loops[i] in m'.value
    ensures RanLoops(g, f, i, m, m'.(init := m'.init[f.loops[i] := false]), false)
    ensures RanLoops(g, f, i, m, LoopReset(m', f.loops[i]), true)
  {
    LoopsFromNext(g, f, i);
    assert Unfold(0);
  }

  lemma LoopsFromNext(g: Setup, f: Frame, i: nat)
    requires WellMade(g) && f in g.fs && i < |f.loops|
    ensures f.loops[i] in LoopsFrom(g, f, i) && f.loops[i] !in LoopsFrom(g, f, i + 1)
    ensures LoopsFrom(g, f, i + 1) <= LoopsFrom(g, f, i) && f.loops[i] in g.loops
  {
    assert Unfold(0);
    var l := f.loops[i];
    assert l in f.loops && l in f.loops[i..];
    forall j | i + 1 <= j < |f.loops| ensures f.loops[j] != l {
      NoDupAt(f.loops, i, j);
    }
    forall x | x in f.loops[i + 1..] ensures x in f.loops[i..] && x != l {
      var j :| 0 <= j < |f.loops[i + 1..]| && f.loops[i + 1..][j] == x;
      assert x == f.loops[i..][j + 1] == f.loops[i + 1 + j];
    }
  }

  lemma TablesFromNext(g: Setup, f: Frame, i: nat)
    requires WellMade(g) && f in g.fs && i < |f.tables|
    ensures f.tables[i] in TablesFrom(g, f, i) && TablesFrom(g, f, i + 1) <= TablesFrom(g, f, i)
    ensures f.tables[i] in g.tables && NoDup(f.tables[i].rows)
  {
    assert Unfold(0);
    assert f.tables[i] in f.tables && f.tables[i] in f.tables[i..];
    forall x | x in f.tables[i + 1..] ensures x in f.tables[i..] {
      var j :| 0 <= j < |f.tables[i + 1..]| && f.tables[i + 1..][j] == x;
      assert x == f.tables[i..][j + 1];
    }
  }

  // What a lower frame may touch, a higher one may touch through it.
  lemma LowerFrame(g: Setup, f: Frame, h: Frame)
    requires WellMade(g) && f in g.fs && h in g.fs && h.rank < f.rank
    ensures TablesFrom(g, h, 0) <= TablesFrom(g, f, |f.tables|)
    ensures LoopsFrom(g, h, 0) <= LoopsFrom(g, f, |f.loops|)
    ensures FramesBelow(g, h.rank) + {h} <= FramesBelow(g, f.rank)
  {
    assert Unfold(0);
    forall t | t in TablesFrom(g, h, 0) ensures t in TablesFrom(g, f, |f.tables|) {
      if t in h.tables[0..] {
        assert t in h.tables;
      }
    }
    forall l | l in LoopsFrom(g, h, 0) ensures l in LoopsFrom(g, f, |f.loops|) {
      if l in h.loops[0..] {
        assert l in h.loops;
      }
    }
  }

  // Calls of lower frames.
  lemma TraceWider(g: Setup, tr: seq<Event>, r: nat, r': nat, calls: multiset<Frame>, items: multiset<Frame>)
    requires TraceOk(g, tr, r, calls, items) && r <= r'
    ensures TraceOk(g, tr, r', calls, items)
  {
    assert Unfold(0);
  }

  lemma TraceCall(g: Setup, tr: seq<Event>, f: Frame, active: bool)
    requires TraceOk(g, tr, f.rank + 1, multiset{}, Grant(f, active))
    ensures TraceOk(g, [Call(f, active)] + tr, f.rank + 1, Grant(f, active), multiset{})
  {
    assert Unfold(0);
    BoundedCall(g.fs, g.chosen, f, active, tr);
  }

  lemma TraceItems(g: Setup, tr: seq<Event>, f: Frame, active: bool)
    requires WellMade(g) && f in g.fs
    requires TraceOk(g, tr, f.rank, CallsOf(g.chosen, f.objs, active), multiset{})
    ensures TraceOk(g, [Items(f, active)] + tr, f.rank + 1, multiset{}, Grant(f, active))
  {
    OwnsOne(g, f);
    assert Unfold(0);
    BoundedItems(g.fs, g.chosen, f, active, tr);
  }

  // One more row, or iteration: no two of them are the active one.
  lemma TraceOneOf(g: Setup, tr: seq<Event>, tr': seq<Event>, f: Frame, was: bool, now: bool, all: bool)
    requires TraceOk(g, tr, f.rank + 1, multiset{}, Grant(f, was))
    requires TraceOk(g, tr', f.rank + 1, multiset{}, Grant(f, now))
    requires !(was && now) && (was || now ==> all)
    ensures TraceOk(g, tr + tr', f.rank + 1, multiset{}, Grant(f, all))
    ensures TraceOk(g, tr + tr', f.rank + 1, multiset{}, Grant(f, was || now))
  {
    TraceConcat(g, tr, tr', f.rank + 1, multiset{}, Grant(f, was), multiset{}, Grant(f, now));
    TraceGrant(g, tr + tr', f.rank + 1, multiset{} + multiset{}, Grant(f, was) + Grant(f, now), multiset{}, Grant(f, all));
    TraceGrant(g, tr + tr', f.rank + 1, multiset{} + multiset{}, Grant(f, was) + Grant(f, now), multiset{}, Grant(f,
        was || now));
  }

  lemma ObjOk(g: Setup, f: Frame, i: nat)
    requires WellMade(g) && f in g.fs && i < |f.objs|
    ensures f.objs[i].kind.Meas? ==> f == g.root
    ensures f.objs[i].kind.FrameRef? ==> f.objs[i].kind.ref in g.fs && f.objs[i].kind.ref.rank < f.rank
  {
    assert Unfold(0);
    assert f.objs[i] in f.objs;
  }

  lemma TraceUnused(g: Setup, r: nat, calls: multiset<Frame>, items: multiset<Frame>)
    ensures TraceOk(g, [], r, calls, items)
  {
    TraceNothing(g, r);
    TraceGrant(g, [], r, multiset{}, multiset{}, calls, items);
  }

  lemma NoRef(g: Setup, f: Frame, obj: Obj, active: bool, m: Mem, m': Mem, ok: bool)
    requires !obj.kind.FrameRef? && RanItems(g, f, m, m', true)
    ensures TraceOk(g, [], f.rank, GrantBy(g.chosen, obj, active), multiset{})
    ensures RanItems(g, f, m, m', ok)
  {
    TraceUnused(g, f.rank, GrantBy(g.chosen, obj, active), multiset{});
    assert Unfold(0);
  }

  lemma TraceFull(g: Setup, tr: seq<Event>, f: Frame, some: bool, all: bool)
    requires TraceOk(g, tr, f.rank + 1, multiset{}, Grant(f, some)) && (some ==> all)
    ensures TraceOk(g, tr, f.rank + 1, multiset{}, Grant(f, all))
  {
    TraceGrant(g, tr, f.rank + 1, multiset{}, Grant(f, some), multiset{}, Grant(f, all));
  }

  lemma NotRunning(g: Setup, f: Frame, i: nat, m: Mem, chain: seq<Frame>)
    requires WellMade(g) && f in g.fs && i < |f.loops| && Entered(g, f, i, m, chain)
    ensures f.loops[i] in m.init && !m.init[f.loops[i]]
  {
    LoopsFromNext(g, f, i);
    assert Unfold(0);
  }

  lemma RootCallable(g: Setup, m: Mem)
    requires m.frames == {} && forall l | l in g.loops :: l in m.init && !m.init[l]
    ensures Callable(g, g.root, m, [])
  {}

  lemma RootRan(g: Setup, m: Mem, m': Mem, ok: bool, tr: seq<Event>)
    requires WellMade(g) && RanAt(g, g.root, 0, 0, true, m, m', ok)
    requires TraceOk(g, tr, g.root.rank + 1, Grant(g.root, true), multiset{})
    ensures m'.frames == m.frames && m'.init == m.init && SameKeys(m, m')
    ensures forall h | h in g.fs :: Times(tr, Items(h, true)) <= 1
    ensures ok ==> (forall t | t in m.row :: m'.row[t] == null || m'.row[t] == m.row[t])
    ensures ok ==> (forall l | l in m.value :: m'.value[l] == None || m'.value[l] == m.value[l])
    ensures forall f | f in m.parent :: m'.parent[f] == null || m'.parent[f] == m.parent[f]
  {
    assert Unfold(0);
    forall h | h in g.fs ensures Times(tr, Items(h, true)) <= 1 {
      forall f, k | f in g.fs && k in g.fs && Owns(g.chosen, f, k) ensures k.rank < f.rank {
        OwnsOne(g, f);
      }
      AtMostOnce(g.fs, g.chosen, tr, g.root, h);
    }
  }

  lemma TraceRef(g: Setup, tr: seq<Event>, f: Frame, ref: Frame, obj: Obj, active: bool, now: bool)
    requires obj.kind == FrameRef(ref) && ref.rank < f.rank && ref in g.chosen && now == (active && g.chosen[ref] == obj)
    requires TraceOk(g, tr, ref.rank + 1, Grant(ref, now), multiset{})
    ensures TraceOk(g, tr, f.rank, GrantBy(g.chosen, obj, active), multiset{})
  {
    TraceWider(g, tr, ref.rank + 1, f.rank, Grant(ref, now), multiset{});
  }

  lemma RootIn(g: Setup)
    requires WellMade(g)
    ensures g.root in g.fs
  {
    assert Unfold(0);
  }

  lemma TraceObj(g: Setup, tr: seq<Event>, tr': seq<Event>, f: Frame, i: nat, active: bool)
    requires i < |f.objs| && TraceOk(g, tr, f.rank, CallsOf(g.chosen, f.objs[..i], active), multiset{})
    requires TraceOk(g, tr', f.rank, GrantBy(g.chosen, f.objs[i], active), multiset{})
    ensures TraceOk(g, tr + tr', f.rank, CallsOf(g.chosen, f.objs[..i + 1], active), multiset{})
    ensures TraceOk(g, tr + tr', f.rank, CallsOf(g.chosen, f.objs, active), multiset{})
  {
    var were, are := CallsOf(g.chosen, f.objs[..i], active), GrantBy(g.chosen, f.objs[i], active);
    TraceConcat(g, tr, tr', f.rank, were, multiset{}, are, multiset{});
    assert f.objs[..i + 1][..i] == f.objs[..i];
    CallsOfMore(g.chosen, f.objs, i + 1, active);
    TraceGrant(g, tr + tr', f.rank, were + are, multiset{} + multiset{}, CallsOf(g.chosen, f.objs[..i + 1], active),
        multiset{});
    TraceGrant(g, tr + tr', f.rank, were + are, multiset{} + multiset{}, CallsOf(g.chosen, f.objs, active), multiset{});
  }

  lemma TraceItemsOf(g: Setup, vecs: seq<Event>, objs: seq<Event>, f: Frame, active: bool)
    requires TraceOk(g, vecs, f.rank, multiset{}, multiset{})
    requires TraceOk(g, objs, f.rank, CallsOf(g.chosen, f.objs, active), multiset{})
    ensures TraceOk(g, vecs + objs, f.rank, CallsOf(g.chosen, f.objs, active), multiset{})
  {
    var calls := CallsOf(g.chosen, f.objs, active);
    TraceConcat(g, vecs, objs, f.rank, multiset{}, multiset{}, calls, multiset{});
    TraceGrant(g, vecs + objs, f.rank, multiset{} + calls, multiset{} + multiset{}, calls, multiset{});
  }

  // A row is the active one only once.
  lemma RowOnce(rows: seq<Row>, r: nat, row: Row?)
    requires r < |rows| && NoDup(rows)
    ensures row == rows[r] ==> row !in rows[..r]
    ensures row in rows[..r + 1] <==> row in rows[..r] || row == rows[r]
  {
    assert rows[..r + 1] == rows[..r] + [rows[r]];
    if row == rows[r] && row in rows[..r] {
      var k :| 0 <= k < r && rows[k] == row;
      NoDupAt(rows, k, r);
    }
  }

  // One more row of a table: it is the active one at most once.
  lemma TraceRow(g: Setup, tr: seq<Event>, tr': seq<Event>, f: Frame, rows: seq<Row>, r: nat, row: Row?, was: bool,
                 now: bool, all: bool)
    requires r < |rows| && NoDup(rows) && now == (all && row == rows[r]) && (was ==> all && row in rows[..r])
    requires TraceOk(g, tr, f.rank + 1, multiset{}, Grant(f, was))
    requires TraceOk(g, tr', f.rank + 1, multiset{}, Grant(f, now))
    ensures TraceOk(g, tr + tr', f.rank + 1, multiset{}, Grant(f, all))
    ensures TraceOk(g, tr + tr', f.rank + 1, multiset{}, Grant(f, was || now))
    ensures was || now ==> all && row in rows[..r + 1]
  {
    RowOnce(rows, r, row);
    TraceOneOf(g, tr, tr', f, was, now, all);
  }

  lemma {:induction false} CallsOfMore(chosen: map<Frame, Obj?>, objs: seq<Obj>, n: nat, active: bool)
    requires n <= |objs|
    ensures CallsOf(chosen, objs[..n], active) <= CallsOf(chosen, objs, active)
    decreases |objs|
  {
    if n < |objs| && active {
      var k := |objs| - 1;
      CallsOfMore(chosen, objs[..k], n, active);
      assert objs[..k][..n] == objs[..n];
    } else {
      assert n == |objs| ==> objs[..n] == objs;
    }
  }

  lemma TracePosted(g: Setup, e: Event, r: nat)
    requires e.Posted?
    ensures TraceOk(g, [e], r, multiset{}, multiset{})
  {
    assert Unfold(0);
    BoundedNothing(g.fs, g.chosen, [e]);
  }
}
