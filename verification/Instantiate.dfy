// The instantiation of fped (eda/fped/obj.c): the recursion over tables, loops and frames.
module Instantiate {
  import opened Wrappers
  import opened Folding
  import opened SeqMinus
  import opened Bitset
  import opened InstantiateSpec
  import opened InstantiateRuns

  // ----- the engine -----

  class Engine {
    const frames: seq<Frame>  // root frame first
    const frameSet: Bitset
    ghost const g: Setup
    ghost var mem: Mem

    constructor (frames: seq<Frame>, frameSet: Bitset, ghost g: Setup, ghost mem: Mem)
      ensures this.frames == frames && this.frameSet == frameSet && this.g == g && this.mem == mem
    {
      this.frames, this.frameSet := frames, frameSet;
      this.g, this.mem := g, mem;
    }

    // The memory is what the fields say.
    ghost predicate Loaded()
      reads this`mem, g.tables`currRow, g.loops`currValue, g.loops`initialized, g.fs`currParent, frameSet.v
      reads g.fs`n, g.fs`activeRef
    {
      forall k {:trigger Unfold(k)} :: Unfold(k) ==> LoadedNow()
    }

    ghost predicate LoadedNow()
      reads this`mem, g.tables`currRow, g.loops`currValue, g.loops`initialized, g.fs`currParent, frameSet.v
      reads g.fs`n, g.fs`activeRef
    {
      && RowsLoaded(mem.row) && ValuesLoaded(mem.value) && InitLoaded(mem.init) && ParentsLoaded(mem.parent)
      && NumbersLoaded() && SetLoaded(mem.frames)
    }

    ghost predicate SetLoaded(frames: set<nat>)
      reads frameSet.v
    {
      frameSet.Contents() == frames
    }

    ghost predicate RowsLoaded(row: map<Table, Row?>)
      reads g.tables`currRow
    {
      row.Keys == g.tables && forall t | t in g.tables :: t.currRow == row[t]
    }

    ghost predicate ValuesLoaded(value: map<Loop, Option<real>>)
      reads g.loops`currValue
    {
      value.Keys == g.loops && forall l | l in g.loops :: l.currValue == value[l]
    }

    ghost predicate InitLoaded(init: map<Loop, bool>)
      reads g.loops`initialized
    {
      init.Keys == g.loops && forall l | l in g.loops :: l.initialized == init[l]
    }

    ghost predicate ParentsLoaded(parent: map<Frame, Frame?>)
      reads g.fs`currParent
    {
      parent.Keys == g.fs && forall f | f in g.fs :: f.currParent == parent[f]
    }

    // What does not change: the numbers of the frames, and what is selected.
    ghost predicate NumbersLoaded()
      reads g.fs`n, g.fs`activeRef
    {
      forall f | f in g.fs ::
        f in g.num && f in g.chosen && f.n == g.num[f] && f.activeRef == g.chosen[f] && f.n < frameSet.Capacity()
    }

    method SetRow(t: Table, r: Row?)
      requires Loaded() && t in g.tables
      modifies t`currRow, this`mem
      ensures Loaded() && mem == old(mem).(row := old(mem).row[t := r])
    {
      assert Unfold(0);
      t.currRow := r;
      mem := mem.(row := mem.row[t := r]);
      assert RowsLoaded(mem.row);
      assert ValuesLoaded(mem.value) && InitLoaded(mem.init);
      assert ParentsLoaded(mem.parent) && NumbersLoaded();
      assert SetLoaded(mem.frames);
    }

    method SetValue(l: Loop, v: Option<real>)
      requires Loaded() && l in g.loops
      modifies l`currValue, this`mem
      ensures Loaded() && mem == old(mem).(value := old(mem).value[l := v])
    {
      assert Unfold(0);
      l.currValue := v;
      mem := mem.(value := mem.value[l := v]);
      assert RowsLoaded(mem.row);
      assert ValuesLoaded(mem.value) && InitLoaded(mem.init);
      assert ParentsLoaded(mem.parent) && NumbersLoaded();
      assert SetLoaded(mem.frames);
    }

    method SetInitialized(l: Loop, b: bool)
      requires Loaded() && l in g.loops
      modifies l`initialized, this`mem
      ensures Loaded() && mem == old(mem).(init := old(mem).init[l := b])
    {
      assert Unfold(0);
      l.initialized := b;
      mem := mem.(init := mem.init[l := b]);
      assert RowsLoaded(mem.row);
      assert ValuesLoaded(mem.value) && InitLoaded(mem.init);
      assert ParentsLoaded(mem.parent) && NumbersLoaded();
      assert SetLoaded(mem.frames);
    }

    method Enter(f: Frame, parent: Frame?)
      requires Loaded() && f in g.fs && f in g.num
      modifies f`currParent, frameSet.v, this`mem
      ensures Loaded()
      ensures mem == old(mem).(parent := old(mem).parent[f := parent], frames := old(mem).frames + {g.num[f]})
    {
      assert Unfold(0);
      frameSet.Set(f.n);
      f.currParent := parent;
      mem := mem.(parent := mem.parent[f := parent], frames := mem.frames + {g.num[f]});
      assert RowsLoaded(mem.row);
      assert ValuesLoaded(mem.value) && InitLoaded(mem.init);
      assert ParentsLoaded(mem.parent) && NumbersLoaded();
      assert SetLoaded(mem.frames);
    }

    method Leave(f: Frame)
      requires Loaded() && f in g.fs && f in g.num
      modifies f`currParent, frameSet.v, this`mem
      ensures Loaded()
      ensures mem == old(mem).(parent := old(mem).parent[f := null], frames := old(mem).frames - {g.num[f]})
    {
      assert Unfold(0);
      frameSet.Clear(f.n);
      f.currParent := null;
      mem := mem.(parent := mem.parent[f := null], frames := mem.frames - {g.num[f]});
      assert RowsLoaded(mem.row);
      assert ValuesLoaded(mem.value) && InitLoaded(mem.init);
      assert ParentsLoaded(mem.parent) && NumbersLoaded();
      assert SetLoaded(mem.frames);
    }

    // generate_frame, for the root frame
    method GenerateAll() returns (ok: bool, ghost tr: seq<Event>, ghost run: Run)
      requires WellMade(g) && Rooted() && Loaded() && mem == MemOf(g)
      requires forall l | l in g.loops :: l in mem.init && !mem.init[l]
      modifies this`mem, g.tables`currRow, g.loops`currValue, g.loops`initialized, g.fs`currParent, frameSet.v
      ensures ToldCall(g, [], g.root, true, ok, tr, run)
      ensures forall h | h in g.fs :: Times(tr, Items(h, true)) <= 1
      ensures mem == MemOf(g) && Reset(old(mem), mem, ok)
    {
      ghost var start := mem;
      RootCallable(g, mem);
      RootIn(g);
      ok, tr, run := GenerateFrame(frames[0], null, true, []);
      RootRan(g, start, mem, ok, tr);
      FieldsAre();
    }

    lemma LoadedAtFirst()
      requires Numbering(frames, g) && mem == MemOf(g) && frameSet.Contents() == {} && frameSet.Capacity() >= |frames|
      requires forall f | f in frames :: f.n == IndexOf(frames, f)
      ensures Loaded()
    {
      assert RowsLoaded(mem.row) && ValuesLoaded(mem.value) && InitLoaded(mem.init) && ParentsLoaded(mem.parent);
      assert NumbersLoaded() && SetLoaded(mem.frames);
    }

    lemma FieldsAre()
      requires Loaded() && mem.frames == {}
      ensures mem == MemOf(g)
    {
      assert Unfold(0);
    }

    ghost predicate Rooted() { frames != [] && frames[0] == g.root }

    // meas_post, as far as it is told with which frames; these are the frames on the chain of calls
    ghost method MeasPost(vec: Vec, f: Frame, chain: seq<Frame>) returns (e: Event)
      requires Loaded() && AtItems(g, f, mem, chain)
      ensures e == Posted(vec, frameSet.Contents()) && frameSet.Contents() == Numbers(g.num, chain)
      ensures TraceOk(g, [e], f.rank, multiset{}, multiset{})
    {
      assert Unfold(0);
      e := Posted(vec, frameSet.Contents());
      TracePosted(g, e, f.rank);
    }

    // generate_vecs; what comes out of expressions, and whether an item can be instantiated, is not
    // part of this model
    method GenerateVecs(f: Frame, ghost chain: seq<Frame>) returns (ok: bool, ghost tr: seq<Event>)
      requires Loaded() && AtItems(g, f, mem, chain)
      ensures TraceOk(g, tr, f.rank, multiset{}, multiset{})
      ensures FirstPosted(f.vecs, Numbers(g.num, chain), tr) && (ok <==> |tr| == |f.vecs|)
    {
      tr := [];
      TraceNothing(g, f.rank);
      for i := 0 to |f.vecs|
        invariant TraceOk(g, tr, f.rank, multiset{}, multiset{}) && |tr| == i && FirstPosted(f.vecs, Numbers(g.num, chain), tr)
      {
        var x: Num := *;
        if x.Undef? {
          return false, tr;
        }
        var y: Num := *;
        if y.Undef? {
          return false, tr;
        }
        var ok: bool := *;
        if !ok {
          return false, tr;
        }
        ghost var post := MeasPost(f.vecs[i], f, chain);
        TraceThen(g, tr, [post], f.rank, multiset{}, multiset{});
        tr := tr + [post];
      }
      return true, tr;
    }

    // generate_objs
    method GenerateObjs(f: Frame, active: bool, ghost chain: seq<Frame>)
      returns (ok: bool, ghost tr: seq<Event>, ghost refs: seq<Run>)
      requires WellMade(g) && Rooted() && f in g.fs && Loaded() && AtItems(g, f, mem, chain)
      modifies this`mem, g.tables`currRow, g.loops`currValue, g.loops`initialized, g.fs`currParent, frameSet.v
      ensures Loaded() && TraceOk(g, tr, f.rank, CallsOf(g.chosen, f.objs, active), multiset{})
      ensures RanItems(g, f, old(mem), mem, ok) && ToldRefs(g, chain, f.objs, active, ok, tr, refs)
      decreases f.rank, 2
    {
      ghost var start := mem;
      tr, refs := [], [];
      TraceNothing(g, f.rank);
      ItemsStay(g, f, mem, true);
      NoRefs(g, chain, f.objs[..0], active);
      for i := 0 to |f.objs|
        invariant Loaded() && TraceOk(g, tr, f.rank, CallsOf(g.chosen, f.objs[..i], active), multiset{})
        invariant RanItems(g, f, start, mem, true) && ToldRefs(g, chain, f.objs[..i], active, true, tr, refs)
      {
        ghost var t, more;
        ok, t, more := GenerateObj(f, i, active, chain, start);
        TraceObj(g, tr, t, f, i, active);
        RefsNext(g, chain, f.objs, active, i, tr, refs, ok, t, more);
        tr, refs := tr + t, refs + more;
        if !ok {
          return false, tr, refs;
        }
      }
      assert f.objs[..|f.objs|] == f.objs;
      return true, tr, refs;
    }

    // one object
    method GenerateObj(f: Frame, i: nat, active: bool, ghost chain: seq<Frame>, ghost start: Mem)
      returns (ok: bool, ghost tr: seq<Event>, ghost refs: seq<Run>)
      requires WellMade(g) && Rooted() && f in g.fs && i < |f.objs| && Loaded() && AtItems(g, f, start, chain)
      requires RanItems(g, f, start, mem, true)
      modifies this`mem, g.tables`currRow, g.loops`currValue, g.loops`initialized, g.fs`currParent, frameSet.v
      ensures Loaded() && TraceOk(g, tr, f.rank, GrantBy(g.chosen, f.objs[i], active), multiset{})
      ensures RanItems(g, f, start, mem, ok) && ToldRefs(g, chain, [f.objs[i]], active, ok, tr, refs)
      decreases f.rank, 1
    {
      var obj := f.objs[i];
      ObjOk(g, f, i);
      match obj.kind {
        case FrameRef(ref) =>
          ok, tr, refs := GenerateRef(f, ref, obj, active, chain, start);
        case Meas =>
          assert f == frames[0];
          var offset: Num := *;
          ok := offset.Num?;
        case Plain =>
          ok := *;
      }
      if !obj.kind.FrameRef? {
        tr, refs := [], [];
        NoRef(g, f, obj, active, start, mem, ok);
        NoRefDone(g, chain, obj, active, ok);
      }
    }

    // a reference to a frame
    method GenerateRef(f: Frame, ref: Frame, obj: Obj, active: bool, ghost chain: seq<Frame>, ghost start: Mem)
      returns (ok: bool, ghost tr: seq<Event>, ghost refs: seq<Run>)
      requires WellMade(g) && Rooted() && f in g.fs && Loaded() && AtItems(g, f, start, chain)
      requires obj.kind == FrameRef(ref) && ref in g.fs && ref.rank < f.rank
      requires RanItems(g, f, start, mem, true)
      modifies this`mem, g.tables`currRow, g.loops`currValue, g.loops`initialized, g.fs`currParent, frameSet.v
      ensures Loaded() && TraceOk(g, tr, f.rank, GrantBy(g.chosen, obj, active), multiset{})
      ensures RanItems(g, f, start, mem, ok) && ToldRefs(g, chain, [obj], active, ok, tr, refs)
      decreases f.rank, 0
    {
      RefStarts(g, f, ref, start, mem, chain);
      ActiveKnown(ref);
      ghost var m := mem;
      var now := active && ref.activeRef == obj;
      ghost var run;
      ok, tr, run := GenerateFrame(ref, f, now, chain);
      RefRan(g, f, ref, start, m, mem, ok);
      TraceRef(g, tr, f, ref, obj, active, now);
      RefDone(g, chain, obj, active, now, ok, tr, run);
      refs := [run];
    }

    lemma ActiveKnown(f: Frame)
      requires Loaded() && f in g.fs
      ensures f in g.chosen && f.activeRef == g.chosen[f]
    {
      assert Unfold(0);
    }

    // generate_items
    method GenerateItems(f: Frame, active: bool, ghost chain: seq<Frame>, ghost rows: seq<Row>, ghost values: seq<real>)
      returns (ok: bool, ghost tr: seq<Event>, ghost run: Run)
      requires WellMade(g) && Rooted() && f in g.fs && Loaded() && AtItems(g, f, mem, chain)
      requires |rows| == |f.tables| && |values| == |f.loops| && Here(f, rows, values, mem)
      modifies this`mem, g.tables`currRow, g.loops`currValue, g.loops`initialized, g.fs`currParent, frameSet.v
      ensures Loaded() && TraceOk(g, tr, f.rank + 1, multiset{}, Grant(f, active))
      ensures RanItems(g, f, old(mem), mem, ok) && Told(g, chain, f, active, rows, values, ok, tr, run)
      decreases f.rank, 3
    {
      ghost var vecs, objs, refs, m := [], [], [], mem;
      ok, vecs := GenerateVecs(f, chain);
      ItemsStay(g, f, mem, false);
      TraceUnused(g, f.rank, CallsOf(g.chosen, f.objs, active), multiset{});
      if ok {
        ok, objs, refs := GenerateObjs(f, active, chain);
      }
      run := OfItems(f, active, RowsNow(f, m), ValuesNow(f, m), ParentsNow(chain, m), vecs, refs);
      ItemsDone(g, chain, f, active, rows, values, m, vecs, ok, objs, refs, run);
      TraceItemsOf(g, vecs, objs, f, active);
      TraceItems(g, vecs + objs, f, active);
      tr := [Items(f, active)] + (vecs + objs);
    }

    // generate_frame
    method GenerateFrame(f: Frame, parent: Frame?, active: bool, ghost chain: seq<Frame>)
      returns (ok: bool, ghost tr: seq<Event>, ghost run: Run)
      requires WellMade(g) && Rooted() && f in g.fs && Loaded() && Callable(g, f, mem, chain) && parent == Last(chain)
      modifies this`mem, g.tables`currRow, g.loops`currValue, g.loops`initialized, g.fs`currParent, frameSet.v
      ensures Loaded() && TraceOk(g, tr, f.rank + 1, Grant(f, active), multiset{})
      ensures RanAt(g, f, 0, 0, true, old(mem), mem, ok) && ToldCall(g, chain, f, active, ok, tr, run)
      decreases f.rank, 11 + 4 * |f.loops| + 3 * |f.tables|
    {
      FrameKnown(f);
      ghost var m := mem;
      Enter(f, parent);
      ghost var m1 := mem;
      CallEnters(g, f, parent, m, m1, chain);
      HereAtFirst(f, m1);
      ok, tr, run := IterateTables(f, 0, active, chain + [f], []);
      ghost var m2 := mem;
      Leave(f);
      CallRan(g, f, parent, m, m1, m2, mem, ok);
      TraceCall(g, tr, f, active);
      CallDone(g, chain, f, active, ok, tr, run);
      tr, run := [Call(f, active)] + tr, OfCall(f, active, run);
    }

    lemma FrameKnown(f: Frame)
      requires Loaded() && f in g.fs
      ensures f in mem.parent && f in g.num
    {
      assert Unfold(0);
    }

    lemma TableKnown(t: Table)
      requires Loaded() && t in g.tables
      ensures t in mem.row
    {
      assert Unfold(0);
    }

    lemma LoopKnown(l: Loop)
      requires Loaded() && l in g.loops
      ensures l in mem.value && l in mem.init && l.initialized == mem.init[l] && l.currValue == mem.value[l]
    {
      assert Unfold(0);
    }

    // iterate_tables
    method IterateTables(f: Frame, i: nat, active: bool, ghost chain: seq<Frame>, ghost rows: seq<Row>)
      returns (ok: bool, ghost tr: seq<Event>, ghost run: Run)
      requires WellMade(g) && Rooted() && f in g.fs && i <= |f.tables| && Loaded() && Entered(g, f, 0, mem, chain)
      requires |rows| == i && Here(f, rows, [], mem)
      modifies this`mem, g.tables`currRow, g.loops`currValue, g.loops`initialized, g.fs`currParent, frameSet.v
      ensures Loaded() && TraceOk(g, tr, f.rank + 1, multiset{}, Grant(f, active))
      ensures RanAt(g, f, i, 0, false, old(mem), mem, ok) && Told(g, chain, f, active, rows, [], ok, tr, run)
      decreases f.rank, 10 + 4 * |f.loops| + 3 * (|f.tables| - i)
    {
      if i == |f.tables| {
        ok, tr, run := RunLoops(f, 0, active, chain, rows, []);
        return;
      }
      ghost var start := mem;
      var table := f.tables[i];
      TablesFromNext(g, f, i);
      TableKnown(table);
      TableStart(g, f, i, mem);
      ok, tr, run := IterateRows(f, i, active, chain, start, rows);
      if ok {
        TableEnd(g, f, i, start, mem);
        SetRow(table, null);
      }
    }

    // the rows of a table
    method IterateRows(f: Frame, i: nat, active: bool, ghost chain: seq<Frame>, ghost start: Mem, ghost rows: seq<Row>)
      returns (ok: bool, ghost tr: seq<Event>, ghost run: Run)
      requires WellMade(g) && Rooted() && f in g.fs && i < |f.tables| && f.tables[i] in g.tables && NoDup(f.tables[i].rows)
      requires Loaded() && Entered(g, f, 0, start, chain) && InTable(g, f, i, start, mem)
      requires |rows| == i && Here(f, rows, [], start)
      modifies this`mem, g.tables`currRow, g.loops`currValue, g.loops`initialized, g.fs`currParent, frameSet.v
      ensures Loaded() && TraceOk(g, tr, f.rank + 1, multiset{}, Grant(f, active))
      ensures if ok then InTable(g, f, i, start, mem) else RanAt(g, f, i, 0, false, start, mem, false)
      ensures Told(g, chain, f, active, rows, [], ok, tr, run)
      decreases f.rank, 9 + 4 * |f.loops| + 3 * (|f.tables| - i)
    {
      var table := f.tables[i];
      tr, run := [], OfRows([]);
      RowsDoingStart(g, chain, f, active, rows);
      for r := 0 to |table.rows|
        invariant Loaded() && InTable(g, f, i, start, mem)
        invariant RowsDoing(g, chain, f, active, rows, r, tr, run)
      {
        ghost var t, next;
        var now := active && table.activeRow == table.rows[r];
        ok, t, next := IterateRow(f, i, r, now, chain, start, rows);
        RowsDoingNext(g, chain, f, active, now, rows, r, table.rows[r], tr, run, ok, t, next);
        tr, run := tr + t, RowAdded(run, next);
        if !ok {
          return false, tr, run;
        }
      }
      RowsDoingDone(g, chain, f, active, rows, |table.rows|, tr, run);
      return true, tr, run;
    }

    // one row of a table
    method IterateRow(f: Frame, i: nat, r: nat, now: bool, ghost chain: seq<Frame>, ghost start: Mem, ghost rows: seq<Row>)
      returns (ok: bool, ghost tr: seq<Event>, ghost run: Run)
      requires WellMade(g) && Rooted() && f in g.fs && i < |f.tables| && r < |f.tables[i].rows| && f.tables[i] in g.tables
      requires Loaded() && Entered(g, f, 0, start, chain) && InTable(g, f, i, start, mem)
      requires |rows| == i && Here(f, rows, [], start)
      modifies this`mem, g.tables`currRow, g.loops`currValue, g.loops`initialized, g.fs`currParent, frameSet.v
      ensures TraceOk(g, tr, f.rank + 1, multiset{}, Grant(f, now))
      ensures Told(g, chain, f, now, rows + [f.tables[i].rows[r]], [], ok, tr, run)
      ensures Loaded() && RanAt(g, f, i, 0, false, start, mem, false) && (ok ==> InTable(g, f, i, start, mem))
      decreases f.rank, 8 + 4 * |f.loops| + 3 * (|f.tables| - i)
    {
      var table := f.tables[i];
      ghost var m0 := mem;
      TableEnd(g, f, i, start, m0);
      SetRow(table, table.rows[r]);
      ghost var m1 := mem;
      StillEntered(g, f, 0, start, m1, chain);
      HereInRow(g, f, i, rows, start, m0, m1, table.rows[r]);
      ok, tr, run := IterateTables(f, i + 1, now, chain, rows + [table.rows[r]]);
      RowRan(g, f, i, start, m0, m1, mem, table.rows[r], ok);
    }

    // run_loops
    method RunLoops(f: Frame, i: nat, active: bool, ghost chain: seq<Frame>, ghost rows: seq<Row>, ghost values: seq<real>)
      returns (ok: bool, ghost tr: seq<Event>, ghost run: Run)
      requires WellMade(g) && Rooted() && f in g.fs && i <= |f.loops| && Loaded() && Entered(g, f, i, mem, chain)
      requires |rows| == |f.tables| && |values| == i && Here(f, rows, values, mem)
      modifies this`mem, g.tables`currRow, g.loops`currValue, g.loops`initialized, g.fs`currParent, frameSet.v
      ensures Loaded() && TraceOk(g, tr, f.rank + 1, multiset{}, Grant(f, active))
      ensures RanLoops(g, f, i, old(mem), mem, ok) && Told(g, chain, f, active, rows, values, ok, tr, run)
      decreases f.rank, 7 + 4 * (|f.loops| - i)
    {
      if i == |f.loops| {
        ok, tr, run := GenerateItems(f, active, chain, rows, values);
        return;
      }
      TraceUnused(g, f.rank + 1, multiset{}, Grant(f, active));
      LoopsFail(g, f, i, mem);
      var from: Num, to: Num := *, *;
      match (from, to) {
        case (Num(_, true), Num(_, true)) => ok, tr, run := RunLoop(f, i, from, to, active, chain, rows, values);
        case _ =>
          BoundsMissing(g, chain, f, active, rows, values, from, to);
          return false, [], NoBounds(from, to);
      }
    }

    // the loop itself, with its bounds known
    method RunLoop(f: Frame, i: nat, from: Num, to: Num, active: bool, ghost chain: seq<Frame>,
                   ghost rows: seq<Row>, ghost values: seq<real>)
      returns (ok: bool, ghost tr: seq<Event>, ghost run: Run)
      requires from.Num? && from.dimensionless && to.Num? && to.dimensionless
      requires WellMade(g) && Rooted() && f in g.fs && i < |f.loops| && Loaded() && Entered(g, f, i, mem, chain)
      requires |rows| == |f.tables| && |values| == i && Here(f, rows, values, mem)
      modifies this`mem, g.tables`currRow, g.loops`currValue, g.loops`initialized, g.fs`currParent, frameSet.v
      ensures Loaded() && TraceOk(g, tr, f.rank + 1, multiset{}, Grant(f, active))
      ensures RanLoops(g, f, i, old(mem), mem, ok) && Told(g, chain, f, active, rows, values, ok, tr, run)
      decreases f.rank, 6 + 4 * (|f.loops| - i)
    {
      ghost var start := mem;
      var loop := f.loops[i];
      LoopsFromNext(g, f, i);
      LoopKnown(loop);
      NotRunning(g, f, i, mem, chain);
      assert !loop.initialized;
      SetValue(loop, Some(from.n));
      SetInitialized(loop, true);
      LoopStart(g, f, i, start, mem, Some(from.n), chain);
      ok, tr, run := Iterate(f, i, from.n, to.n, active, chain, start, rows, values);
      LoopKnown(loop);
      SetInitialized(loop, false);
      if ok {
        SetValue(loop, None);
      }
    }

    // the iterations of a loop
    method Iterate(f: Frame, i: nat, from: real, to: real, active: bool, ghost chain: seq<Frame>, ghost start: Mem,
                   ghost rows: seq<Row>, ghost values: seq<real>)
      returns (ok: bool, ghost tr: seq<Event>, ghost run: Run)
      requires WellMade(g) && Rooted() && f in g.fs && i < |f.loops| && f.loops[i] in g.loops
      requires |rows| == |f.tables| && |values| == i && Here(f, rows, values, start)
      requires Loaded() && Entered(g, f, i, start, chain) && Looping(g, f, i, start, mem, Some(from))
      modifies this`mem, g.tables`currRow, g.loops`currValue, g.loops`initialized, g.fs`currParent, frameSet.v
      ensures Loaded() && TraceOk(g, tr, f.rank + 1, multiset{}, Grant(f, active))
      ensures f.loops[i] in mem.init && f.loops[i] in mem.value
      ensures RanLoops(g, f, i, start, mem.(init := mem.init[f.loops[i] := false]), false)
      ensures ok ==> RanLoops(g, f, i, start, LoopReset(mem, f.loops[i]), true)
      ensures Told(g, chain, f, active, rows, values, ok, tr, run)
      decreases f.rank, 5 + 4 * (|f.loops| - i)
    {
      var loop := f.loops[i];
      var value := from;
      var n := 0;
      tr, run := [], OfValues(from, to, []);
      ValuesDoingStart(g, chain, f, active, rows, values, from, to);
      while value <= to
        invariant Loaded() && 0 <= n <= MAX_ITERATIONS && value == from + n as real
        invariant Looping(g, f, i, start, mem, Some(value))
        invariant ValuesDoing(g, chain, f, active, rows, values, from, to, n, tr, run)
        decreases MAX_ITERATIONS - n
      {
        if n >= MAX_ITERATIONS {
          LoopEnd(g, f, i, start, mem, Some(value));
          ValuesDoingDone(g, chain, f, active, rows, values, from, to, n, value, tr, run);
          return false, tr, run;
        }
        ghost var t, next;
        var now := active && loop.active == n;
        ok, t, next := IterateOnce(f, i, value, now, chain, start, rows, values);
        ValuesDoingNext(g, chain, f, active, now, rows, values, from, to, n, value, tr, run, ok, t, next);
        tr, run := tr + t, ValueAdded(run, next);
        if !ok {
          return false, tr, run;
        }
        n := n + 1;
        value := value + 1.0;
      }
      LoopEnd(g, f, i, start, mem, Some(value));
      ValuesDoingDone(g, chain, f, active, rows, values, from, to, n, value, tr, run);
      return true, tr, run;
    }

    // one iteration
    method IterateOnce(f: Frame, i: nat, value: real, now: bool, ghost chain: seq<Frame>, ghost start: Mem,
                       ghost rows: seq<Row>, ghost values: seq<real>)
      returns (ok: bool, ghost tr: seq<Event>, ghost run: Run)
      requires WellMade(g) && Rooted() && f in g.fs && i < |f.loops| && f.loops[i] in g.loops
      requires |rows| == |f.tables| && |values| == i && Here(f, rows, values, start)
      requires Loaded() && Entered(g, f, i, start, chain) && Looping(g, f, i, start, mem, Some(value))
      modifies this`mem, g.tables`currRow, g.loops`currValue, g.loops`initialized, g.fs`currParent, frameSet.v
      ensures Loaded() && TraceOk(g, tr, f.rank + 1, multiset{}, Grant(f, now))
      ensures f.loops[i] in mem.init && f.loops[i] in mem.value
      ensures !ok ==> RanLoops(g, f, i, start, mem.(init := mem.init[f.loops[i] := false]), false)
      ensures ok ==> Looping(g, f, i, start, mem, Some(value + 1.0))
      ensures Told(g, chain, f, now, rows, values + [value], ok, tr, run)
      decreases f.rank, 4 + 4 * (|f.loops| - i)
    {
      var loop := f.loops[i];
      ghost var m := mem;
      LoopingEntered(g, f, i, start, m, Some(value), chain);
      HereInLoop(g, f, i, rows, values, start, m, value);
      ok, tr, run := RunLoops(f, i + 1, now, chain, rows, values + [value]);
      LoopRan(g, f, i, start, m, mem, Some(value), ok);
      if ok {
        LoopNext(g, f, i, start, mem, Some(value), Some(value + 1.0));
        SetValue(loop, Some(value + 1.0));
      }
    }
  }

  // No loop has begun to run or ended and no frame has got a parent, and if all went well, no table or loop
  // has got to a row or value; what is not reset has not been touched.
  ghost predicate Reset(m: Mem, m': Mem, ok: bool) {
    && SameKeys(m, m') && m'.init == m.init && (forall f | f in m.parent :: m'.parent[f] == null || m'.parent[f] == m.parent[f])
    && (ok ==> forall t | t in m.row :: m'.row[t] == null || m'.row[t] == m.row[t])
    && (ok ==> forall l | l in m.value :: m'.value[l] == None || m'.value[l] == m.value[l])
  }

  // What the fields are.
  ghost function MemOf(g: Setup): (m: Mem)
    reads g.tables`currRow, g.loops`currValue, g.loops`initialized, g.fs`currParent
    ensures m.row.Keys == g.tables && forall t | t in g.tables :: m.row[t] == t.currRow
    ensures m.value.Keys == g.loops && forall l | l in g.loops :: m.value[l] == l.currValue
    ensures m.init.Keys == g.loops && forall l | l in g.loops :: m.init[l] == l.initialized
    ensures m.parent.Keys == g.fs && (forall f | f in g.fs :: m.parent[f] == f.currParent) && m.frames == {}
  {
    Mem(map t | t in g.tables :: t.currRow, map l | l in g.loops :: l.currValue, map l | l in g.loops :: l.initialized,
        map f | f in g.fs :: f.currParent, {})
  }

  // The frames numbered, and an empty frame set that is large enough for them.
  method NumberFrames(frames: seq<Frame>, ghost g: Setup) returns (frameSet: Bitset)
    requires NoDup(frames)
    modifies frames`n
    ensures fresh(frameSet.v) && frameSet.Contents() == {} && frameSet.Capacity() >= |frames|
    ensures (forall f | f in frames :: f.n == IndexOf(frames, f)) && MemOf(g) == old(MemOf(g))
  {
    var n := EnumerateFrames(frames);
    frameSet := new Bitset(n);
    forall f | f in frames ensures f.n == IndexOf(frames, f) {
      IndexOfUnique(frames, IndexOf(frames, f));
    }
  }

  // enumerate_frames: every frame gets a number of its own, below the capacity of the frame set
  method EnumerateFrames(frames: seq<Frame>) returns (n: nat)
    requires NoDup(frames)
    modifies frames`n
    ensures n == |frames| && forall i | 0 <= i < n :: frames[i].n == i
  {
    n := 0;
    while n < |frames|
      invariant n <= |frames| && forall i | 0 <= i < n :: frames[i].n == i
    {
      frames[n].n := n;
      forall i | 0 <= i < n ensures frames[i] != frames[n] {
        NoDupAt(frames, i, n);
      }
      n := n + 1;
    }
  }

  // ----- the whole of it -----

  // g is how the frames hang together, with the numbers they are about to get.
  ghost predicate SetupOf(frames: seq<Frame>, g: Setup)
    reads frames`activeRef
  {
    frames != [] && NoDup(frames) && g.root == frames[0] && Structured(g) && Numbering(frames, g)
  }

  ghost predicate Numbering(frames: seq<Frame>, g: Setup)
    reads frames`activeRef
  {
    && g.fs == (set f | f in frames)
    && forall f | f in frames :: f in g.chosen && f.activeRef == g.chosen[f] && f in g.num && g.num[f] == IndexOf(frames, f)
  }

  lemma SetupWellMade(frames: seq<Frame>, g: Setup)
    requires SetupOf(frames, g)
    ensures WellMade(g)
  {
    assert Numbered(g);
  }

  // What instantiate begins with.
  method Begin(frames: seq<Frame>, ghost g: Setup) returns (engine: Engine)
    requires SetupOf(frames, g)
    modifies frames`n
    ensures fresh(engine) && fresh(engine.frameSet.v) && engine.frames == frames && engine.g == g
    ensures engine.mem == MemOf(g) == old(MemOf(g)) && engine.Loaded()
  {
    ghost var start := MemOf(g);
    var frameSet := NumberFrames(frames, g);
    engine := new Engine(frames, frameSet, g, start);
    assert MemOf(g) == start;
    engine.LoadedAtFirst();
  }

  // instantiate: the calls of generate_frame are complete, or have failed, and the events are all of theirs.
  // Every vector is posted with the frames on the chain of calls, items are active at most once for each
  // frame, and what is current during generation is reset.
  method Instantiate(frames: seq<Frame>, ghost g: Setup) returns (ok: bool, ghost tr: seq<Event>, ghost run: Run)
    requires SetupOf(frames, g) && forall l | l in g.loops :: !l.initialized
    modifies g.tables`currRow, g.loops`currValue, g.loops`initialized, g.fs`currParent, frames`n
    ensures tr == Events(run)
    ensures if ok then CompleteCall(g, [], frames[0], true, run) else BrokenCall(g, [], frames[0], true, run)
    ensures forall f | f in g.fs :: Times(tr, Items(f, true)) <= 1
    ensures Reset(old(MemOf(g)), MemOf(g), ok)
  {
    var engine := Begin(frames, g);
    SetupWellMade(frames, g);
    ok, tr, run := engine.GenerateAll();
    assert Look(0);
  }
}
