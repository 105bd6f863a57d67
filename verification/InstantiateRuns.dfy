// What a complete instantiation of fped comes to (eda/fped/obj.c): for each combination of table rows
// and loop values of a frame, all its vectors, and all frames that it refers to.
module InstantiateRuns {
  import opened Wrappers
  import opened Folding
  import opened SeqMinus
  import opened InstantiateSpec

  // ----- runs -----

  // What was done for a frame, level by level: one run for each row of a table, one for each value of
  // a loop unless its bounds have no value or a dimension, and with all tables and loops set, the items.
  datatype Run =
    | OfRows(each: seq<Run>)
    | NoBounds(low: Num, high: Num)
    | OfValues(from: real, to: real, each: seq<Run>)
    | OfItems(frame: Frame, active: bool, rows: seq<Row?>, values: seq<Option<real>>, parents: seq<Frame?>,
              posts: seq<Event>, refs: seq<Run>)
    | OfCall(frame: Frame, active: bool, run: Run)

  // The events of a run, in their order.
  function Events(r: Run): seq<Event> {
    match r
    case OfRows(rs) => AllEvents(rs)
    case NoBounds(_, _) => []
    case OfValues(_, _, rs) => AllEvents(rs)
    case OfItems(f, active, _, _, _, posts, refs) => [Items(f, active)] + (posts + AllEvents(refs))
    case OfCall(f, active, run) => [Call(f, active)] + Events(run)
  }

  function AllEvents(rs: seq<Run>): seq<Event> {
    if rs == [] then [] else Events(rs[0]) + AllEvents(rs[1..])
  }

  lemma {:induction false} EventsConcat(a: seq<Run>, b: seq<Run>)
    ensures AllEvents(a + b) == AllEvents(a) + AllEvents(b)
  {
    if a == [] {
      assert a + b == b;
    } else {
      EventsConcat(a[1..], b);
      assert (a + b)[1..] == a[1..] + b && (a + b)[0] == a[0];
      Associates(Events(a[0]), AllEvents(a[1..]), AllEvents(b));
    }
  }

  lemma Associates<T>(a: seq<T>, b: seq<T>, c: seq<T>)
    ensures a + b + c == a + (b + c)
  {}

  lemma EventsNext(rs: seq<Run>, r: Run)
    ensures AllEvents(rs + [r]) == AllEvents(rs) + Events(r)
  {
    EventsConcat(rs, [r]);
    assert AllEvents([r]) == Events(r) + AllEvents([]);
  }

  // ----- complete runs -----

  // The first vectors have been posted, as many as there are events, with the numbers of these frames.
  ghost predicate FirstPosted(vecs: seq<Vec>, frames: set<nat>, tr: seq<Event>) {
    |tr| <= |vecs| && forall k | 0 <= k < |tr| :: tr[k] == Posted(vecs[k], frames)
  }

  ghost predicate Current(rows: seq<Row>, values: seq<real>, rows': seq<Row?>, values': seq<Option<real>>) {
    && |rows'| == |rows| && (forall k | 0 <= k < |rows| :: rows'[k] == rows[k])
    && |values'| == |values| && (forall k | 0 <= k < |values| :: values'[k] == Some(values[k]))
  }

  // The first frame on the chain has no parent, and each other one has the one before it.
  ghost predicate Parents(chain: seq<Frame>, parents: seq<Frame?>) {
    && |parents| == |chain| && (chain != [] ==> parents[0] == null)
    && forall j, k | 0 <= j < k < |chain| && k == j + 1 :: parents[k] == chain[j]
  }

  // What the user selected.
  ghost predicate RefChosen(g: Setup, f: Frame, obj: Obj) { f in g.chosen && g.chosen[f] == obj }

  // A run of f is complete, with these rows and values set before: nothing is left out or done twice,
  // with the items exactly the rows and values are current that lead there, the parents are the chain of
  // calls, what is active is what the user selected, and vectors are posted with the numbers of all frames
  // on the chain of calls, f being the last of them.
  ghost predicate Complete(g: Setup, chain: seq<Frame>, f: Frame, active: bool, rows: seq<Row>, values: seq<real>, r: Run)
    decreases r, 0
  {
    match r
    case OfRows(rs) =>
      && |rows| < |f.tables| && values == [] && |rs| == |f.tables[|rows|].rows|
      && forall k | 0 <= k < |rs| :: CompleteRow(g, chain, f, active, rows, f.tables[|rows|].rows[k], rs[k])
    case NoBounds(_, _) => false
    case OfValues(from, to, rs) =>
      && |rows| == |f.tables| && |values| < |f.loops| && from + |rs| as real > to && UpTo(from, to, |rs|)
      && forall k | 0 <= k < |rs| :: CompleteValue(g, chain, f, active, rows, values, from, k, rs[k])
    case OfItems(h, b, rows', values', parents, posts, refs) =>
      && h == f && b == active && |rows| == |f.tables| && |values| == |f.loops| && Current(rows, values, rows', values')
      && Parents(chain, parents)
      && FirstPosted(f.vecs, Numbers(g.num, chain), posts) && |posts| == |f.vecs| && AllRefs(g, chain, f.objs, active, refs)
    case OfCall(_, _, _) => false
  }

  ghost predicate CompleteRow(g: Setup, chain: seq<Frame>, f: Frame, active: bool, rows: seq<Row>, row: Row, r: Run)
    requires |rows| < |f.tables|
    decreases r, 1
  {
    Complete(g, chain, f, active && f.tables[|rows|].activeRow == row, rows + [row], [], r)
  }

  ghost predicate CompleteValue(g: Setup, chain: seq<Frame>, f: Frame, active: bool, rows: seq<Row>, values: seq<real>,
                                from: real, n: int, r: Run)
    requires |values| < |f.loops|
    decreases r, 1
  {
    Complete(g, chain, f, active && f.loops[|values|].active == n, rows, values + [from + n as real], r)
  }

  // The first n values from one number on are not above another.
  predicate UpTo(from: real, to: real, n: int) { n > 0 ==> from + (n - 1) as real <= to }

  // A complete call of f from the last frame of the chain.
  ghost predicate CompleteCall(g: Setup, chain: seq<Frame>, f: Frame, active: bool, r: Run)
    decreases r, 0
  {
    match r
    case OfCall(h, b, run) => h == f && b == active && Complete(g, chain + [f], f, active, [], [], run)
    case _ => false
  }

  // One complete call for each object that refers to a frame, in the order of the objects.
  ghost predicate AllRefs(g: Setup, chain: seq<Frame>, objs: seq<Obj>, active: bool, refs: seq<Run>)
    decreases refs, |objs|
  {
    if objs == [] then refs == []
    else if objs[0].kind.FrameRef? then
      var f := objs[0].kind.ref;
      && refs != [] && CompleteCall(g, chain, f, active && RefChosen(g, f, objs[0]), refs[0])
      && AllRefs(g, chain, objs[1..], active, refs[1..])
    else AllRefs(g, chain, objs[1..], active, refs)
  }

  // ----- runs that come to an early end -----

  // A run of f that has failed: it is complete up to the row, value, vector or object it failed at,
  // and that has failed.
  ghost predicate Broken(g: Setup, chain: seq<Frame>, f: Frame, active: bool, rows: seq<Row>, values: seq<real>, r: Run)
    decreases r, 0
  {
    match r
    case OfRows(rs) =>
      && |rows| < |f.tables| && values == [] && 0 < |rs| <= |f.tables[|rows|].rows|
      && (forall k | 0 <= k < |rs| - 1 :: CompleteRow(g, chain, f, active, rows, f.tables[|rows|].rows[k], rs[k]))
      && var row := f.tables[|rows|].rows[|rs| - 1];
      Broken(g, chain, f, active && f.tables[|rows|].activeRow == row, rows + [row], [], rs[|rs| - 1])
    case NoBounds(low, high) =>
      && |rows| == |f.tables| && |values| < |f.loops|
      && !(low.Num? && low.dimensionless && high.Num? && high.dimensionless)
    case OfValues(from, to, rs) =>
      && |rows| == |f.tables| && |values| < |f.loops| && UpTo(from, to, |rs|) && rs != []
      && (forall k | 0 <= k < |rs| - 1 :: CompleteValue(g, chain, f, active, rows, values, from, k, rs[k]))
      && var n, value := |rs| - 1, from + (|rs| - 1) as real;
      || (|rs| == 1000 && UpTo(from, to, |rs| + 1)
          && CompleteValue(g, chain, f, active, rows, values, from, n, rs[n]))
      || Broken(g, chain, f, active && f.loops[|values|].active == n, rows, values + [value], rs[n])
    case OfItems(h, b, rows', values', parents, posts, refs) =>
      && h == f && b == active && |rows| == |f.tables| && |values| == |f.loops| && Current(rows, values, rows', values')
      && Parents(chain, parents)
      && FirstPosted(f.vecs, Numbers(g.num, chain), posts)
      && if |posts| == |f.vecs| then BrokenRefs(g, chain, f.objs, active, refs) else refs == []
    case OfCall(_, _, _) => false
  }

  ghost predicate BrokenCall(g: Setup, chain: seq<Frame>, f: Frame, active: bool, r: Run)
    decreases r, 0
  {
    match r
    case OfCall(h, b, run) => h == f && b == active && Broken(g, chain + [f], f, active, [], [], run)
    case _ => false
  }

  ghost predicate BrokenRefs(g: Setup, chain: seq<Frame>, objs: seq<Obj>, active: bool, refs: seq<Run>)
    decreases refs, |objs|
  {
    if objs == [] then false
    else if objs[0].kind.FrameRef? then
      var f := objs[0].kind.ref;
      var now := active && RefChosen(g, f, objs[0]);
      && refs != []
      && ((|refs| == 1 && BrokenCall(g, chain, f, now, refs[0]))
          || (CompleteCall(g, chain, f, now, refs[0]) && BrokenRefs(g, chain, objs[1..], active, refs[1..])))
    else refs == [] || BrokenRefs(g, chain, objs[1..], active, refs)
  }

  lemma {:induction false} AllRefsConcat(g: Setup, chain: seq<Frame>, a: seq<Obj>, b: seq<Obj>, active: bool, x: seq<Run>,
                                         y: seq<Run>)
    requires AllRefs(g, chain, a, active, x)
    ensures AllRefs(g, chain, b, active, y) ==> AllRefs(g, chain, a + b, active, x + y)
    ensures BrokenRefs(g, chain, b, active, y) ==> BrokenRefs(g, chain, a + b, active, x + y)
    decreases |a|
  {
    if a == [] {
      assert a + b == b && x + y == y;
    } else {
      assert (a + b)[1..] == a[1..] + b && (a + b)[0] == a[0];
      if a[0].kind.FrameRef? {
        assert (x + y)[1..] == x[1..] + y && (x + y)[0] == x[0];
        AllRefsConcat(g, chain, a[1..], b, active, x[1..], y);
      } else {
        AllRefsConcat(g, chain, a[1..], b, active, x, y);
      }
    }
  }

  lemma {:induction false} BrokenRefsConcat(g: Setup, chain: seq<Frame>, a: seq<Obj>, b: seq<Obj>, active: bool, x: seq<Run>)
    requires BrokenRefs(g, chain, a, active, x)
    ensures BrokenRefs(g, chain, a + b, active, x)
    decreases |a|
  {
    assert (a + b)[1..] == a[1..] + b && (a + b)[0] == a[0];
    if a[0].kind.FrameRef? {
      if BrokenRefs(g, chain, a[1..], active, x[1..]) {
        BrokenRefsConcat(g, chain, a[1..], b, active, x[1..]);
      }
    } else if BrokenRefs(g, chain, a[1..], active, x) {
      BrokenRefsConcat(g, chain, a[1..], b, active, x);
    }
  }

  // ----- what was posted, in the flat list of events -----

  ghost predicate Refers(f: Frame, h: Frame) { exists k :: 0 <= k < |f.objs| && f.objs[k].kind == FrameRef(h) }

  // A chain of calls goes on: from its n-th frame on, each refers to the next.
  ghost predicate Linked(path: seq<Frame>, n: int) { forall k | n <= k < |path| - 1 && 0 <= k :: Refers(path[k], path[k + 1]) }

  // The vector was posted at the end of the path, which goes on from the chain, with the numbers of all
  // frames on the path.
  ghost predicate PostedAt(g: Setup, chain: seq<Frame>, path: seq<Frame>, e: Event) {
    e.Posted? ==>
      && chain <= path && Linked(path, |chain| - 1)
      && path != [] && e.vec in path[|path| - 1].vecs && e.frames == Numbers(g.num, path)
  }

  // What there is of the rows of a run, complete or not, is complete or not in turn.
  lemma RowEnded(g: Setup, chain: seq<Frame>, f: Frame, active: bool, rows: seq<Row>, values: seq<real>, rs: seq<Run>, k: nat)
    requires k < |rs|
    requires Complete(g, chain, f, active, rows, values, OfRows(rs)) || Broken(g, chain, f, active, rows, values, OfRows(rs))
    ensures |rows| < |f.tables| && |rs| <= |f.tables[|rows|].rows|
    ensures var row := f.tables[|rows|].rows[k];
            var now := active && f.tables[|rows|].activeRow == row;
            Complete(g, chain, f, now, rows + [row], [], rs[k]) || Broken(g, chain, f, now, rows + [row], [], rs[k])
  {
    if Complete(g, chain, f, active, rows, values, OfRows(rs)) || k < |rs| - 1 {
      assert CompleteRow(g, chain, f, active, rows, f.tables[|rows|].rows[k], rs[k]);
    }
  }

  lemma ValueEnded(g: Setup, chain: seq<Frame>, f: Frame, active: bool, rows: seq<Row>, values: seq<real>, r: Run, k: nat)
    requires r.OfValues? && k < |r.each|
    requires Complete(g, chain, f, active, rows, values, r) || Broken(g, chain, f, active, rows, values, r)
    ensures |values| < |f.loops|
    ensures var now := active && f.loops[|values|].active == k;
            var vs := values + [r.from + k as real];
            Complete(g, chain, f, now, rows, vs, r.each[k]) || Broken(g, chain, f, now, rows, vs, r.each[k])
  {
    if Complete(g, chain, f, active, rows, values, r) || k < |r.each| - 1 {
      assert CompleteValue(g, chain, f, active, rows, values, r.from, k, r.each[k]);
    }
  }

  lemma {:induction false} RunPosts(g: Setup, chain: seq<Frame>, f: Frame, active: bool, rows: seq<Row>, values: seq<real>,
                                    r: Run, e: Event) returns (path: seq<Frame>)
    requires Complete(g, chain, f, active, rows, values, r) || Broken(g, chain, f, active, rows, values, r)
    requires chain != [] && chain[|chain| - 1] == f && e in Events(r)
    ensures PostedAt(g, chain, path, e)
    decreases r, 0
  {
    path := chain;
    match r
    case OfRows(rs) =>
      var k := EventOf(rs, e);
      RowEnded(g, chain, f, active, rows, values, rs, k);
      var row := f.tables[|rows|].rows[k];
      path := RunPosts(g, chain, f, active && f.tables[|rows|].activeRow == row, rows + [row], [], rs[k], e);
    case NoBounds(_, _) =>
    case OfValues(from, _, rs) =>
      var k := EventOf(rs, e);
      ValueEnded(g, chain, f, active, rows, values, r, k);
      path := RunPosts(g, chain, f, active && f.loops[|values|].active == k, rows, values + [from + k as real], rs[k], e);
    case OfItems(_, _, _, _, _, posts, refs) =>
      if e !in posts && e in AllEvents(refs) {
        path := RefsPost(g, chain, f, f.objs, active, refs, e);
      }
    case OfCall(_, _, _) =>
  }

  lemma {:induction false} CallPosts(g: Setup, chain: seq<Frame>, f: Frame, active: bool, r: Run,
                                     e: Event) returns (path: seq<Frame>)
    requires CompleteCall(g, chain, f, active, r) || BrokenCall(g, chain, f, active, r)
    requires e in Events(r)
    ensures PostedAt(g, chain + [f], path, e)
    decreases r, 0
  {
    path := chain + [f];
    match r
    case OfCall(_, _, run) =>
      if e in Events(run) {
        path := RunPosts(g, chain + [f], f, active, [], [], run, e);
      }
    case _ =>
  }

  lemma {:induction false} RefsPost(g: Setup, chain: seq<Frame>, h: Frame, objs: seq<Obj>, active: bool, refs: seq<Run>,
                                    e: Event) returns (path: seq<Frame>)
    requires AllRefs(g, chain, objs, active, refs) || BrokenRefs(g, chain, objs, active, refs)
    requires chain != [] && chain[|chain| - 1] == h && (forall o | o in objs :: o in h.objs) && e in AllEvents(refs)
    ensures PostedAt(g, chain, path, e)
    decreases refs, |objs|
  {
    path := chain;
    if objs != [] && refs != [] {
      if objs[0].kind.FrameRef? {
        var f := objs[0].kind.ref;
        if e in Events(refs[0]) {
          path := CallPosts(g, chain, f, active && RefChosen(g, f, objs[0]), refs[0], e);
          assert objs[0] in h.objs;
          OneBack(g, chain, h, f, path, e);
        } else {
          path := RefsPost(g, chain, h, objs[1..], active, refs[1..], e);
        }
      } else {
        path := RefsPost(g, chain, h, objs[1..], active, refs, e);
      }
    }
  }

  lemma OneBack(g: Setup, chain: seq<Frame>, h: Frame, f: Frame, path: seq<Frame>, e: Event)
    requires chain != [] && chain[|chain| - 1] == h && Refers(h, f) && PostedAt(g, chain + [f], path, e)
    ensures PostedAt(g, chain, path, e)
  {
    if e.Posted? {
      assert path[|chain|] == f && path[|chain| - 1] == h;
    }
  }

  lemma {:induction false} EventOf(rs: seq<Run>, e: Event) returns (k: nat)
    requires e in AllEvents(rs)
    ensures k < |rs| && e in Events(rs[k])
  {
    if e in Events(rs[0]) {
      k := 0;
    } else {
      k := EventOf(rs[1..], e);
      k := k + 1;
    }
  }

  // ----- events that are those of complete or broken runs -----

  ghost predicate Ended(g: Setup, chain: seq<Frame>, f: Frame, active: bool, rows: seq<Row>, values: seq<real>, r: Run,
                        ok: bool) {
    if ok then Complete(g, chain, f, active, rows, values, r) else Broken(g, chain, f, active, rows, values, r)
  }

  ghost predicate Told(g: Setup, chain: seq<Frame>, f: Frame, active: bool, rows: seq<Row>, values: seq<real>, ok: bool,
                       tr: seq<Event>, r: Run) {
    forall k {:trigger Look(k)} :: Look(k) ==> tr == Events(r) && Ended(g, chain, f, active, rows, values, r, ok)
  }

  // A call of f has told all it did: it is complete, or it has failed.
  ghost predicate ToldCall(g: Setup, chain: seq<Frame>, f: Frame, active: bool, ok: bool, tr: seq<Event>, r: Run) {
    forall k {:trigger Look(k)} :: Look(k) ==>
      tr == Events(r) && if ok then CompleteCall(g, chain, f, active, r) else BrokenCall(g, chain, f, active, r)
  }

  ghost predicate ToldRefs(g: Setup, chain: seq<Frame>, objs: seq<Obj>, active: bool, ok: bool, tr: seq<Event>,
                           refs: seq<Run>) {
    forall k {:trigger Look(k)} :: Look(k) ==>
      tr == AllEvents(refs) && if ok then AllRefs(g, chain, objs, active, refs) else BrokenRefs(g, chain, objs, active, refs)
  }

  // The first n rows of the next table are done.
  ghost predicate ToldRows(g: Setup, chain: seq<Frame>, f: Frame, active: bool, rows: seq<Row>, n: int, tr: seq<Event>,
                           r: Run) {
    forall k {:trigger Look(k)} :: Look(k) ==>
      && |rows| < |f.tables| && r.OfRows? && |r.each| == n <= |f.tables[|rows|].rows| && tr == AllEvents(r.each)
      && forall j | 0 <= j < n :: CompleteRow(g, chain, f, active, rows, f.tables[|rows|].rows[j], r.each[j])
  }

  // The first n values of the next loop are done.
  ghost predicate ToldValues(g: Setup, chain: seq<Frame>, f: Frame, active: bool, rows: seq<Row>, values: seq<real>,
                             from: real, to: real, n: int, tr: seq<Event>, r: Run) {
    forall k {:trigger Look(k)} :: Look(k) ==>
      && |rows| == |f.tables| && |values| < |f.loops| && r.OfValues? && r.from == from && r.to == to && |r.each| == n
      && tr == AllEvents(r.each) && UpTo(from, to, n)
      && forall j | 0 <= j < n :: CompleteValue(g, chain, f, active, rows, values, from, j, r.each[j])
  }

  lemma RowsStart(g: Setup, chain: seq<Frame>, f: Frame, active: bool, rows: seq<Row>)
    requires |rows| < |f.tables|
    ensures ToldRows(g, chain, f, active, rows, 0, [], OfRows([]))
  {}

  // One more row.
  function RowAdded(r: Run, next: Run): Run {
    match r
    case OfRows(rs) => OfRows(rs + [next])
    case _ => r
  }

  lemma RowsNext(g: Setup, chain: seq<Frame>, f: Frame, active: bool, now: bool, rows: seq<Row>, n: nat, row: Row,
                 tr: seq<Event>, r: Run, ok: bool, tr': seq<Event>, next: Run)
    requires ToldRows(g, chain, f, active, rows, n, tr, r) && |rows| < |f.tables| && n < |f.tables[|rows|].rows|
    requires row == f.tables[|rows|].rows[n] && now == (active && f.tables[|rows|].activeRow == row)
    requires Told(g, chain, f, now, rows + [row], [], ok, tr', next)
    ensures ok ==> ToldRows(g, chain, f, active, rows, n + 1, tr + tr', RowAdded(r, next))
    ensures !ok ==> Told(g, chain, f, active, rows, [], false, tr + tr', RowAdded(r, next))
  {
    assert Look(0);
    EventsNext(r.each, next);
  }

  lemma RowsDone(g: Setup, chain: seq<Frame>, f: Frame, active: bool, rows: seq<Row>, n: nat, tr: seq<Event>, r: Run)
    requires |rows| < |f.tables| && n == |f.tables[|rows|].rows| && ToldRows(g, chain, f, active, rows, n, tr, r)
    ensures Told(g, chain, f, active, rows, [], true, tr, r)
  {
    assert Look(0);
  }

  lemma ValuesStart(g: Setup, chain: seq<Frame>, f: Frame, active: bool, rows: seq<Row>, values: seq<real>, from: real,
                    to: real)
    requires |rows| == |f.tables| && |values| < |f.loops|
    ensures ToldValues(g, chain, f, active, rows, values, from, to, 0, [], OfValues(from, to, []))
  {}

  lemma BoundsMissing(g: Setup, chain: seq<Frame>, f: Frame, active: bool, rows: seq<Row>, values: seq<real>, low: Num, high: Num)
    requires |rows| == |f.tables| && |values| < |f.loops|
    requires !(low.Num? && low.dimensionless && high.Num? && high.dimensionless)
    ensures Told(g, chain, f, active, rows, values, false, [], NoBounds(low, high))
  {}

  // One more value.
  function ValueAdded(r: Run, next: Run): Run {
    match r
    case OfValues(from, to, rs) => OfValues(from, to, rs + [next])
    case _ => r
  }

  lemma ValuesNext(g: Setup, chain: seq<Frame>, f: Frame, active: bool, now: bool, rows: seq<Row>, values: seq<real>,
                   from: real, to: real, n: nat, value: real, tr: seq<Event>, r: Run, ok: bool, tr': seq<Event>, next: Run)
    requires ToldValues(g, chain, f, active, rows, values, from, to, n, tr, r) && value == from + n as real <= to
    requires |values| < |f.loops| && now == (active && f.loops[|values|].active == n)
    requires Told(g, chain, f, now, rows, values + [value], ok, tr', next)
    ensures ok ==> ToldValues(g, chain, f, active, rows, values, from, to, n + 1, tr + tr', ValueAdded(r, next))
    ensures !ok ==> Told(g, chain, f, active, rows, values, false, tr + tr', ValueAdded(r, next))
  {
    if ok {
      ValuesGoOn(g, chain, f, active, now, rows, values, from, to, n, value, tr, r, tr', next);
    } else {
      ValuesBreak(g, chain, f, active, now, rows, values, from, to, n, value, tr, r, tr', next);
    }
  }

  lemma ValuesGoOn(g: Setup, chain: seq<Frame>, f: Frame, active: bool, now: bool, rows: seq<Row>, values: seq<real>,
                   from: real, to: real, n: nat, value: real, tr: seq<Event>, r: Run, tr': seq<Event>, next: Run)
    requires ToldValues(g, chain, f, active, rows, values, from, to, n, tr, r) && value == from + n as real <= to
    requires |values| < |f.loops| && now == (active && f.loops[|values|].active == n)
    requires Told(g, chain, f, now, rows, values + [value], true, tr', next)
    ensures ToldValues(g, chain, f, active, rows, values, from, to, n + 1, tr + tr', ValueAdded(r, next))
  {
    assert Look(0);
    EventsNext(r.each, next);
    CompleteValues(g, chain, f, active, rows, values, from, n, r.each, next);
  }

  lemma ValuesBreak(g: Setup, chain: seq<Frame>, f: Frame, active: bool, now: bool, rows: seq<Row>, values: seq<real>,
                   from: real, to: real, n: nat, value: real, tr: seq<Event>, r: Run, tr': seq<Event>, next: Run)
    requires ToldValues(g, chain, f, active, rows, values, from, to, n, tr, r) && value == from + n as real <= to
    requires |values| < |f.loops| && now == (active && f.loops[|values|].active == n)
    requires Told(g, chain, f, now, rows, values + [value], false, tr', next)
    ensures Told(g, chain, f, active, rows, values, false, tr + tr', ValueAdded(r, next))
  {
    assert Look(0);
    EventsNext(r.each, next);
    BrokenValues(g, chain, f, active, now, rows, values, from, to, n, value, r.each, next);
  }

  lemma BrokenValues(g: Setup, chain: seq<Frame>, f: Frame, active: bool, now: bool, rows: seq<Row>, values: seq<real>,
                     from: real, to: real, n: nat, value: real, rs: seq<Run>, next: Run)
    requires |rows| == |f.tables| && |values| < |f.loops| && now == (active && f.loops[|values|].active == n)
    requires |rs| == n && value == from + n as real <= to
    requires forall j | 0 <= j < n :: CompleteValue(g, chain, f, active, rows, values, from, j, rs[j])
    requires Broken(g, chain, f, now, rows, values + [value], next)
    ensures Broken(g, chain, f, active, rows, values, OfValues(from, to, rs + [next]))
  {
    var all := rs + [next];
    assert all[n] == next && forall j | 0 <= j < n :: all[j] == rs[j];
  }

  lemma CompleteValues(g: Setup, chain: seq<Frame>, f: Frame, active: bool, rows: seq<Row>, values: seq<real>, from: real,
                       n: nat, rs: seq<Run>, next: Run)
    requires |values| < |f.loops| && |rs| == n && forall j | 0 <= j < n :: CompleteValue(g, chain, f, active, rows, values,
        from, j, rs[j])
    requires CompleteValue(g, chain, f, active, rows, values, from, n, next)
    ensures forall j | 0 <= j < n + 1 :: CompleteValue(g, chain, f, active, rows, values, from, j, (rs + [next])[j])
  {}

  lemma ValuesDone(g: Setup, chain: seq<Frame>, f: Frame, active: bool, rows: seq<Row>, values: seq<real>, from: real,
                   to: real, n: nat, tr: seq<Event>, r: Run)
    requires ToldValues(g, chain, f, active, rows, values, from, to, n, tr, r)
    ensures from + n as real > to ==> Told(g, chain, f, active, rows, values, true, tr, r)
    ensures from + n as real <= to && n == MAX_ITERATIONS ==> Told(g, chain, f, active, rows, values, false, tr, r)
  {
    assert Look(0);
  }

  lemma NoRefs(g: Setup, chain: seq<Frame>, objs: seq<Obj>, active: bool)
    requires objs == []
    ensures ToldRefs(g, chain, objs, active, true, [], [])
  {}

  lemma RefsNext(g: Setup, chain: seq<Frame>, objs: seq<Obj>, active: bool, i: nat, tr: seq<Event>, refs: seq<Run>,
                 ok: bool, tr': seq<Event>, more: seq<Run>)
    requires i < |objs| && ToldRefs(g, chain, objs[..i], active, true, tr, refs) && ToldRefs(g, chain, [objs[i]], active,
        ok, tr', more)
    ensures ok ==> ToldRefs(g, chain, objs[..i + 1], active, true, tr + tr', refs + more)
    ensures !ok ==> ToldRefs(g, chain, objs, active, false, tr + tr', refs + more)
  {
    assert Look(0);
    AllRefsConcat(g, chain, objs[..i], [objs[i]], active, refs, more);
    EventsConcat(refs, more);
    assert objs[..i + 1] == objs[..i] + [objs[i]];
    if !ok {
      BrokenRefsConcat(g, chain, objs[..i + 1], objs[i + 1..], active, refs + more);
      assert objs == objs[..i + 1] + objs[i + 1..];
    }
  }

  lemma RefDone(g: Setup, chain: seq<Frame>, obj: Obj, active: bool, now: bool, ok: bool, tr: seq<Event>, r: Run)
    requires obj.kind.FrameRef? && now == (active && RefChosen(g, obj.kind.ref, obj))
    requires ToldCall(g, chain, obj.kind.ref, now, ok, tr, r)
    ensures ToldRefs(g, chain, [obj], active, ok, tr, [r])
  {
    assert Look(0);
    assert AllEvents([r]) == Events(r) + AllEvents([]);
    assert AllRefs(g, chain, [obj][1..], active, [r][1..]);
  }

  lemma NoRefDone(g: Setup, chain: seq<Frame>, obj: Obj, active: bool, ok: bool)
    requires !obj.kind.FrameRef?
    ensures ToldRefs(g, chain, [obj], active, ok, [], [])
  {
    assert AllRefs(g, chain, [obj][1..], active, []);
  }

  lemma CallDone(g: Setup, chain: seq<Frame>, f: Frame, active: bool, ok: bool, tr: seq<Event>, r: Run)
    requires Told(g, chain + [f], f, active, [], [], ok, tr, r)
    ensures ToldCall(g, chain, f, active, ok, [Call(f, active)] + tr, OfCall(f, active, r))
  {
    assert Look(0);
  }

  // ----- rows and values under way -----

  // The first n rows of the next table are done, and at most one of them was the active one.
  ghost predicate RowsDoing(g: Setup, chain: seq<Frame>, f: Frame, active: bool, rows: seq<Row>,
                            n: int, tr: seq<Event>, r: Run) {
    forall k {:trigger Look(k)} :: Look(k) ==>
      && |rows| < |f.tables| && 0 <= n <= |f.tables[|rows|].rows| && ToldRows(g, chain, f, active, rows, n, tr, r)
      && TraceOk(g, tr, f.rank + 1, multiset{}, Grant(f, active && f.tables[|rows|].activeRow in f.tables[|rows|].rows[..n]))
  }

  lemma RowsDoingStart(g: Setup, chain: seq<Frame>, f: Frame, active: bool, rows: seq<Row>)
    requires |rows| < |f.tables|
    ensures RowsDoing(g, chain, f, active, rows, 0, [], OfRows([]))
  {
    RowsStart(g, chain, f, active, rows);
    TraceUnused(g, f.rank + 1, multiset{}, Grant(f, active && f.tables[|rows|].activeRow in f.tables[|rows|].rows[..0]));
  }

  lemma RowsDoingNext(g: Setup, chain: seq<Frame>, f: Frame, active: bool, now: bool, rows: seq<Row>,
                      n: nat, row: Row, tr: seq<Event>, r: Run, ok: bool, tr': seq<Event>, next: Run)
    requires RowsDoing(g, chain, f, active, rows, n, tr, r)
    requires |rows| < |f.tables| && n < |f.tables[|rows|].rows| && row == f.tables[|rows|].rows[n]
    requires NoDup(f.tables[|rows|].rows)
    requires now == (active && f.tables[|rows|].activeRow == row) && TraceOk(g, tr', f.rank + 1, multiset{}, Grant(f, now))
    requires Told(g, chain, f, now, rows + [row], [], ok, tr', next)
    ensures ok ==> RowsDoing(g, chain, f, active, rows, n + 1, tr + tr', RowAdded(r, next))
    ensures !ok ==> TraceOk(g, tr + tr', f.rank + 1, multiset{}, Grant(f, active))
    ensures !ok ==> Told(g, chain, f, active, rows, [], false, tr + tr', RowAdded(r, next))
  {
    RowsSoFar(g, chain, f, active, rows, n, tr, r);
    var all, activeRow := f.tables[|rows|].rows, f.tables[|rows|].activeRow;
    TraceRow(g, tr, tr', f, all, n, activeRow, active && activeRow in all[..n], now, active);
    RowOnce(all, n, activeRow);
    assert (active && activeRow in all[..n]) || now <==> active && activeRow in all[..n + 1];
    RowsNext(g, chain, f, active, now, rows, n, row, tr, r, ok, tr', next);
  }

  lemma RowsSoFar(g: Setup, chain: seq<Frame>, f: Frame, active: bool, rows: seq<Row>,
                  n: nat, tr: seq<Event>, r: Run)
    requires RowsDoing(g, chain, f, active, rows, n, tr, r)
    ensures |rows| < |f.tables| && n <= |f.tables[|rows|].rows| && ToldRows(g, chain, f, active, rows, n, tr, r)
    ensures TraceOk(g, tr, f.rank + 1, multiset{}, Grant(f, active && f.tables[|rows|].activeRow in f.tables[|rows|].rows[..n]))
  {
    assert Look(0);
  }

  lemma RowsDoingDone(g: Setup, chain: seq<Frame>, f: Frame, active: bool, rows: seq<Row>,
                      n: nat, tr: seq<Event>, r: Run)
    requires RowsDoing(g, chain, f, active, rows, n, tr, r)
    requires |rows| < |f.tables| && n == |f.tables[|rows|].rows|
    ensures Told(g, chain, f, active, rows, [], true, tr, r)
    ensures TraceOk(g, tr, f.rank + 1, multiset{}, Grant(f, active))
  {
    RowsSoFar(g, chain, f, active, rows, n, tr, r);
    TraceFull(g, tr, f, active && f.tables[|rows|].activeRow in f.tables[|rows|].rows[..n], active);
    RowsDone(g, chain, f, active, rows, n, tr, r);
  }

  // Which iteration of the next loop is the active one.
  function ActiveIndex(f: Frame, values: seq<real>): int { if |values| < |f.loops| then f.loops[|values|].active else -1 }

  // The first n values of the next loop are done, and at most one of them was the active one.
  ghost predicate ValuesDoing(g: Setup, chain: seq<Frame>, f: Frame, active: bool, rows: seq<Row>, values: seq<real>,
                              from: real, to: real, n: int, tr: seq<Event>, r: Run) {
    forall k {:trigger Look(k)} :: Look(k) ==>
      && ToldValues(g, chain, f, active, rows, values, from, to, n, tr, r)
      && TraceOk(g, tr, f.rank + 1, multiset{}, Grant(f, active && 0 <= ActiveIndex(f, values) < n))
  }

  lemma ValuesDoingStart(g: Setup, chain: seq<Frame>, f: Frame, active: bool, rows: seq<Row>, values: seq<real>,
                         from: real, to: real)
    requires |rows| == |f.tables| && |values| < |f.loops|
    ensures ValuesDoing(g, chain, f, active, rows, values, from, to, 0, [], OfValues(from, to, []))
  {
    ValuesStart(g, chain, f, active, rows, values, from, to);
    TraceUnused(g, f.rank + 1, multiset{}, Grant(f, active && 0 <= ActiveIndex(f, values) < 0));
  }

  lemma ValuesSoFar(g: Setup, chain: seq<Frame>, f: Frame, active: bool, rows: seq<Row>, values: seq<real>,
                    from: real, to: real, n: int, tr: seq<Event>, r: Run)
    requires ValuesDoing(g, chain, f, active, rows, values, from, to, n, tr, r)
    ensures ToldValues(g, chain, f, active, rows, values, from, to, n, tr, r)
    ensures TraceOk(g, tr, f.rank + 1, multiset{}, Grant(f, active && 0 <= ActiveIndex(f, values) < n))
  {
    assert Look(0);
  }

  lemma ValuesDoingNext(g: Setup, chain: seq<Frame>, f: Frame, active: bool, now: bool, rows: seq<Row>, values: seq<real>,
                        from: real, to: real, n: nat, value: real, tr: seq<Event>, r: Run,
                        ok: bool, tr': seq<Event>, next: Run)
    requires ValuesDoing(g, chain, f, active, rows, values, from, to, n, tr, r) && value == from + n as real <= to
    requires |values| < |f.loops|
    requires now == (active && f.loops[|values|].active == n) && TraceOk(g, tr', f.rank + 1, multiset{}, Grant(f, now))
    requires Told(g, chain, f, now, rows, values + [value], ok, tr', next)
    ensures ok ==> ValuesDoing(g, chain, f, active, rows, values, from, to, n + 1, tr + tr', ValueAdded(r, next))
    ensures !ok ==> TraceOk(g, tr + tr', f.rank + 1, multiset{}, Grant(f, active))
    ensures !ok ==> Told(g, chain, f, active, rows, values, false, tr + tr', ValueAdded(r, next))
  {
    ValuesSoFar(g, chain, f, active, rows, values, from, to, n, tr, r);
    TraceOneOf(g, tr, tr', f, active && 0 <= ActiveIndex(f, values) < n, now, active && 0 <= ActiveIndex(f, values) < n + 1);
    TraceFull(g, tr + tr', f, active && 0 <= ActiveIndex(f, values) < n + 1, active);
    ValuesNext(g, chain, f, active, now, rows, values, from, to, n, value, tr, r, ok, tr', next);
  }

  lemma ValuesDoingDone(g: Setup, chain: seq<Frame>, f: Frame, active: bool, rows: seq<Row>, values: seq<real>,
                        from: real, to: real, n: nat, value: real, tr: seq<Event>, r: Run)
    requires ValuesDoing(g, chain, f, active, rows, values, from, to, n, tr, r) && value == from + n as real
    ensures TraceOk(g, tr, f.rank + 1, multiset{}, Grant(f, active))
    ensures value > to ==> Told(g, chain, f, active, rows, values, true, tr, r)
    ensures value <= to && n == MAX_ITERATIONS ==> Told(g, chain, f, active, rows, values, false, tr, r)
  {
    ValuesSoFar(g, chain, f, active, rows, values, from, to, n, tr, r);
    TraceFull(g, tr, f, active && 0 <= ActiveIndex(f, values) < n, active);
    ValuesDone(g, chain, f, active, rows, values, from, to, n, tr, r);
  }

  // ----- what is current -----

  // The current rows of the first tables, and the current values of the first loops.
  ghost predicate Here(f: Frame, rows: seq<Row>, values: seq<real>, m: Mem) {
    forall k {:trigger Look(k)} :: Look(k) ==> HereNow(f, rows, values, m)
  }

  ghost predicate HereNow(f: Frame, rows: seq<Row>, values: seq<real>, m: Mem) {
    && |rows| <= |f.tables| && (forall k | 0 <= k < |rows| :: f.tables[k] in m.row && m.row[f.tables[k]] == rows[k])
    && |values| <= |f.loops| && (forall k | 0 <= k < |values| ::
        f.loops[k] in m.value && m.value[f.loops[k]] == Some(values[k]))
  }

  lemma HereAtFirst(f: Frame, m: Mem)
    ensures Here(f, [], [], m)
  {}

  lemma NotFrom(g: Setup, f: Frame, i: nat, k: nat)
    requires WellMade(g) && f in g.fs && k < i
    ensures i <= |f.tables| ==> f.tables[k] !in TablesFrom(g, f, i)
    ensures i <= |f.loops| ==> f.loops[k] !in LoopsFrom(g, f, i)
  {
    assert Unfold(0);
    if i <= |f.tables| {
      forall j | i <= j < |f.tables| ensures f.tables[j] != f.tables[k] {
        NoDupAt(f.tables, j, k);
      }
      assert f.tables[k] in f.tables;
    }
    if i <= |f.loops| {
      forall j | i <= j < |f.loops| ensures f.loops[j] != f.loops[k] {
        NoDupAt(f.loops, j, k);
      }
      assert f.loops[k] in f.loops;
    }
  }

  // In a row of the next table.
  lemma HereInRow(g: Setup, f: Frame, i: nat, rows: seq<Row>, m: Mem, m0: Mem, m1: Mem, row: Row)
    requires WellMade(g) && f in g.fs && |rows| == i < |f.tables| && Here(f, rows, [], m)
    requires InTable(g, f, i, m, m0) && m1 == m0.(row := m0.row[f.tables[i] := row])
    ensures Here(f, rows + [row], [], m1)
  {
    assert Look(0) && Unfold(0);
    forall k | 0 <= k < i ensures f.tables[k] in m1.row && m1.row[f.tables[k]] == rows[k] {
      NotFrom(g, f, i, k);
      NotFrom(g, f, k + 1, k);
      assert Unfold(0);
      SameTable(g, f, k, i);
    }
  }

  lemma SameTable(g: Setup, f: Frame, k: nat, i: nat)
    requires WellMade(g) && f in g.fs && k < i < |f.tables|
    ensures f.tables[k] != f.tables[i]
  {
    assert Unfold(0);
    NoDupAt(f.tables, k, i);
  }

  lemma SameLoop(g: Setup, f: Frame, k: nat, i: nat)
    requires WellMade(g) && f in g.fs && k < i < |f.loops|
    ensures f.loops[k] != f.loops[i]
  {
    assert Unfold(0);
    NoDupAt(f.loops, k, i);
  }

  // In an iteration of the next loop.
  lemma HereInLoop(g: Setup, f: Frame, i: nat, rows: seq<Row>, values: seq<real>, m: Mem, m': Mem, value: real)
    requires WellMade(g) && f in g.fs && |rows| == |f.tables| && |values| == i < |f.loops| && Here(f, rows, values, m)
    requires Looping(g, f, i, m, m', Some(value))
    ensures Here(f, rows, values + [value], m')
  {
    assert Look(0) && Unfold(0);
    forall k | 0 <= k < |rows| ensures f.tables[k] in m'.row && m'.row[f.tables[k]] == rows[k] {
      NotFrom(g, f, |f.tables|, k);
    }
    forall k | 0 <= k < i ensures f.loops[k] in m'.value && m'.value[f.loops[k]] == Some(values[k]) {
      NotFrom(g, f, i, k);
      SameLoop(g, f, k, i);
    }
  }

  // The current rows and values of a frame.
  ghost function RowsNow(f: Frame, m: Mem): seq<Row?> {
    seq(|f.tables|, k requires 0 <= k < |f.tables| => if f.tables[k] in m.row then m.row[f.tables[k]] else null)
  }

  ghost function ValuesNow(f: Frame, m: Mem): seq<Option<real>> {
    seq(|f.loops|, k requires 0 <= k < |f.loops| => if f.loops[k] in m.value then m.value[f.loops[k]] else None)
  }

  // The parents of the frames on a chain.
  ghost function ParentsNow(chain: seq<Frame>, m: Mem): seq<Frame?> {
    seq(|chain|, k requires 0 <= k < |chain| => if chain[k] in m.parent then m.parent[chain[k]] else null)
  }

  lemma ParentsAre(g: Setup, f: Frame, m: Mem, chain: seq<Frame>)
    requires AtItems(g, f, m, chain)
    ensures Parents(chain, ParentsNow(chain, m))
  {
    assert Unfold(0);
  }

  lemma HereCurrent(f: Frame, rows: seq<Row>, values: seq<real>, m: Mem)
    requires |rows| == |f.tables| && |values| == |f.loops| && Here(f, rows, values, m)
    ensures Current(rows, values, RowsNow(f, m), ValuesNow(f, m))
  {
    assert Look(0);
  }

  lemma ItemsDone(g: Setup, chain: seq<Frame>, f: Frame, active: bool, rows: seq<Row>, values: seq<real>, m: Mem,
                  posts: seq<Event>, ok: bool, tr: seq<Event>, refs: seq<Run>, r: Run)
    requires |rows| == |f.tables| && |values| == |f.loops| && Here(f, rows, values, m) && AtItems(g, f, m, chain)
    requires FirstPosted(f.vecs, Numbers(g.num, chain), posts)
    requires if |posts| == |f.vecs| then ToldRefs(g, chain, f.objs, active, ok, tr, refs) else !ok && tr == [] && refs == []
    requires r == OfItems(f, active, RowsNow(f, m), ValuesNow(f, m), ParentsNow(chain, m), posts, refs)
    ensures Told(g, chain, f, active, rows, values, ok, [Items(f, active)] + (posts + tr), r)
  {
    HereCurrent(f, rows, values, m);
    ParentsAre(g, f, m, chain);
    assert Look(0);
    assert Events(r) == [Items(f, active)] + (posts + tr);
    if |posts| == |f.vecs| && ok {
      assert Complete(g, chain, f, active, rows, values, r);
    } else {
      assert Broken(g, chain, f, active, rows, values, r);
    }
  }
}
