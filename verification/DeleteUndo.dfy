// The deletion log of fped at work (eda/fped/delete.c): what is deleted can be put back, newest first.
module DeleteUndo {
  import opened SeqMinus
  import opened DeleteLog
  import opened DeleteColumns

  // ----- the document -----

  class Document {
    const frames: Anchor
    var deletions: seq<Deletion>
    var groups: nat

    ghost const anchors: set<Anchor>
    ghost const nodes: set<Node>
    ghost var memory: Memory
    ghost var stages: seq<Lists>  // the lists before each deletion in the log, and now

    // Take over the lists of a document just loaded: nothing has been deleted yet.
    constructor (frames: Anchor, ghost lists: Lists, ghost memory: Memory)
      requires frames in lists && frames.kind == Frames && ListsOk(memory, lists)
      requires forall a | a in memory.first :: a.first == memory.first[a]
      requires forall x | x in memory.next :: x.next == memory.next[x]
      ensures Valid() && this.frames == frames && Lists() == lists && deletions == [] && groups == 0
    {
      this.frames, this.stages, this.memory := frames, [lists], memory;
      this.anchors, this.nodes := memory.first.Keys, memory.next.Keys;
      deletions, groups := [], 0;
    }

    ghost function Lists(): Lists
      requires stages != []
      reads this
    {
      stages[|stages| - 1]
    }

    // The memory is what the pointers say.
    ghost predicate Loaded()
      reads this, anchors, nodes
    {
      && memory.first.Keys == anchors && memory.next.Keys == nodes
      && (forall a | a in anchors :: a.first == memory.first[a])
      && (forall x | x in nodes :: x.next == memory.next[x])
    }

    ghost predicate Valid()
      reads this, anchors, nodes
    {
      && Loaded() && LogOk(memory, stages, deletions)
      && ListsOk(memory, Lists()) && frames in Lists() && frames.kind == Frames
      && forall k | 0 <= k < |deletions| :: deletions[k].group <= groups
    }

    // The walk of every delete function to the predecessor.
    method FindPrev(node: Node) returns (prev: Node?)
      requires Valid() && node.home in Lists() && node in Lists()[node.home]
      ensures var s := Lists()[node.home]; prev == Before(s, IndexOf(s, node))
    {
      ghost var s := Lists()[node.home];
      assert ListOk(memory, Lists(), node.home);
      prev := null;
      ghost var i := 0;
      var walk := node.home.first;
      while walk != node
        invariant 0 <= i < |s| && walk == s[i] && node in s[i..] && node !in s[..i]
        invariant prev == Before(s, i)
        decreases |s| - i
      {
        assert Leads(memory, s, i);
        prev := walk;
        walk := walk.next;
        i := i + 1;
      }
      IndexOfFirst(s, i);
    }

    method Bend(a: Anchor, prev: Node?, to: Node?)
      requires Loaded() && a in anchors && (prev == null || prev in nodes)
      modifies this`memory, anchors, nodes
      ensures Loaded() && memory == Bent(old(memory), a, prev, to)
    {
      if prev != null {
        prev.next := to;
      } else {
        a.first := to;
      }
      memory := Bent(memory, a, prev, to);
    }

    // new_deletion, and the unlinking that every delete function starts with
    method Unlink(node: Node)
      requires Valid() && node.home in Lists() && node in Lists()[node.home]
      modifies this, anchors, nodes
      ensures Valid() && groups == old(groups)
      ensures stages == old(stages) + [old(Lists())[node.home := Minus(old(Lists()[node.home]), {node})]]
      ensures var s := old(Lists()[node.home]); var i := IndexOf(s, node);
              && deletions == old(deletions) + [Unlinked(node, Before(s, i), groups)]
              && memory == Bent(old(memory), node.home, Before(s, i), After(s, i)) && Leads(old(memory), s, i)
    {
      var prev := FindPrev(node);
      ghost var s, d := Lists()[node.home], Unlinked(node, prev, groups);
      Unlinks(memory, stages, deletions, d);
      assert ListOk(memory, Lists(), node.home);
      Bend(node.home, prev, node.next);
      Log(Unlinked(node, prev, groups), Lists()[node.home := Minus(s, {node})]);
    }

    // The end of new_deletion
    method Log(d: Deletion, ghost ls: Lists)
      requires Loaded() && LogOk(memory, stages + [ls], deletions + [d]) && ListsOk(memory, ls)
      requires frames in ls && frames.kind == Frames && d.group <= groups
      requires forall k | 0 <= k < |deletions| :: deletions[k].group <= groups
      modifies this`deletions, this`stages
      ensures Valid() && deletions == old(deletions) + [d] && stages == old(stages) + [ls]
    {
      deletions := deletions + [d];
      stages := stages + [ls];
    }

    // What ends an undelete
    method Unlog()
      requires Loaded() && deletions != [] && |stages| == |deletions| + 1
      requires LogOk(memory, stages[..|deletions|], deletions[..|deletions| - 1])
      requires ListsOk(memory, stages[|deletions| - 1])
      requires frames in stages[|deletions| - 1] && frames.kind == Frames
      requires forall k | 0 <= k < |deletions| :: deletions[k].group <= groups
      modifies this`deletions, this`stages
      ensures Valid() && deletions == old(deletions)[..|old(deletions)| - 1] && stages == old(stages)[..|old(stages)| - 1]
    {
      deletions := deletions[..|deletions| - 1];
      stages := stages[..|stages| - 1];
    }

    // undelete_one: put back what was deleted last
    method UndeleteOne()
      requires Valid() && deletions != []
      modifies this, anchors, nodes
      ensures Valid() && groups == old(groups)
      ensures deletions == old(deletions)[..|old(deletions)| - 1]
      ensures stages == old(stages)[..|old(stages)| - 1]
    {
      if deletions[|deletions| - 1].Unlinked? {
        Relink();
      } else {
        UndeleteColumn();
      }
    }

    // undelete_vec and the like: the assertions of the code hold
    method Relink()
      requires Valid() && deletions != [] && deletions[|deletions| - 1].Unlinked?
      modifies this, anchors, nodes
      ensures Valid() && groups == old(groups)
      ensures deletions == old(deletions)[..|old(deletions)| - 1]
      ensures stages == old(stages)[..|old(stages)| - 1]
    {
      var d := deletions[|deletions| - 1];
      var node, prev := d.node, d.prev;
      Relinks(memory, stages, deletions);
      if prev != null {
        assert node.next == prev.next;
      } else {
        assert node.next == node.home.first;
      }
      Bend(node.home, prev, node);
      Unlog();
    }

    // undelete: put back the newest group, newest first
    method Undelete() returns (any: bool)
      requires Valid()
      modifies this, anchors, nodes
      ensures Valid() && groups == old(groups) && any == (old(deletions) != [])
      ensures deletions == old(deletions[..GroupStart(deletions)])
      ensures stages == old(stages[..GroupStart(deletions) + 1])
    {
      if deletions == [] {
        return false;
      }
      var group := deletions[|deletions| - 1].group;
      ghost var log, all := deletions, stages;
      while deletions != [] && deletions[|deletions| - 1].group == group
        invariant Valid() && groups == old(groups) && |deletions| <= |log|
        invariant deletions == log[..|deletions|] && stages == all[..|deletions| + 1]
        invariant forall k | |deletions| <= k < |log| :: log[k].group == group
        decreases |deletions|
      {
        UndeleteOne();
      }
      GroupStartAt(log, |deletions|);
      return true;
    }

    // ----- columns -----

    method SetNext(x: Node, to: Node?)
      requires Loaded() && x in nodes
      modifies this`memory, nodes
      ensures Loaded() && memory == WithNext(old(memory), x, to)
    {
      x.next := to;
      memory := WithNext(memory, x, to);
    }

    // The walk to position n of a list: where the pointer to it is stored.
    method WalkTo(a: Anchor, n: nat, ghost ls: Lists) returns (slot: Node?)
      requires Loaded() && ListsOk(memory, ls) && a in ls && n <= |ls[a]|
      ensures slot == Slot(ls[a], n)
    {
      assert ListOk(memory, ls, a);
      slot := null;
      for i := 0 to n
        invariant slot == Slot(ls[a], i)
      {
        if i > 0 {
          assert Leads(memory, ls[a], i - 1);
        }
        slot := if slot == null then a.first else slot.next;
      }
    }

    // Element n of a list is taken out.
    method CutCell(a: Anchor, n: nat, ghost ls: Lists) returns (x: Node)
      requires Loaded() && ListsOk(memory, ls) && a in ls && n < |ls[a]|
      modifies this`memory, anchors, nodes
      ensures Loaded() && x == ls[a][n] && memory == Bent(old(memory), a, Slot(ls[a], n), At(ls[a], n + 1))
    {
      CutOne(memory, ls, a, n);
      var slot := WalkTo(a, n, ls);
      if n > 0 {
        assert ListOk(memory, ls, a) && Leads(memory, ls[a], n - 1);
      } else {
        assert ListOk(memory, ls, a);
      }
      x := if slot == null then a.first else slot.next;
      Bend(a, slot, x.next);
    }

    // A node is put in as element n of a list.
    method PasteCell(a: Anchor, n: nat, x: Node, ghost ls: Lists)
      requires Loaded() && ListsOk(memory, ls) && a in ls && n <= |ls[a]| && x !in ls[a] && x.home == a && x in nodes
      modifies this`memory, anchors, nodes
      ensures Loaded() && memory == Bent(WithNext(old(memory), x, At(ls[a], n)), a, Slot(ls[a], n), x)
    {
      PasteOne(memory, ls, a, n, x);
      var slot := WalkTo(a, n, ls);
      SetNext(x, if slot == null then a.first else slot.next);
      Bend(a, slot, x);
    }

    // One more row of delete_column: its value is taken out, and chained to the one before.
    method CutRow(row: Node, n: nat, last: Node?, ghost ls: Lists, ghost table: Node, ghost k: nat, ghost m0: Memory)
      returns (value: Node)
      requires Loaded() && CutUpTo(m0, ls, table, n, k, memory) && 0 < k && row == RowNode(ls, table, k)
      requires last == if k > 1 then CellNode(ls, table, n, k - 1) else null
      modifies this`memory, anchors, nodes
      ensures Loaded() && CutUpTo(m0, ls, table, n, k + 1, memory) && value == CellNode(ls, table, n, k)
    {
      CutStep(m0, ls, table, n, k, memory);
      value := CutCell(row.item.values, n, CutLists(ls, table, n, k));
      if last != null {
        SetNext(last, value);
      }
    }

    // What delete_column does to the lists.
    method CutColumn(table: Node, n: nat, ghost ls: Lists) returns (variable: Node, values: Node?)
      requires Loaded() && ListsOk(memory, ls) && HasColumn(ls, table, n)
      modifies this`memory, anchors, nodes
      ensures Loaded() && ColumnCut(old(memory), memory, ls, table, n, variable, values)
    {
      ghost var m0 := memory;
      CutStart(memory, ls, table, n);
      variable := CutCell(table.item.vars, n, ls);
      var last: Node?;
      values, last := CutRows(table, n, ls, m0);
      CutEnd(m0, ls, table, n, RowCount(ls, table) + 1, memory);
      if last != null {
        SetNext(last, null);
      }
    }

    method CutRows(table: Node, n: nat, ghost ls: Lists, ghost m0: Memory) returns (values: Node?, last: Node?)
      requires Loaded() && CutUpTo(m0, ls, table, n, 1, memory)
      modifies this`memory, anchors, nodes
      ensures var k := RowCount(ls, table) + 1;
              && Loaded() && CutUpTo(m0, ls, table, n, k, memory)
              && last == (if k > 1 then CellNode(ls, table, n, k - 1) else null)
              && values == (if k > 1 then CellNode(ls, table, n, 1) else null)
    {
      values, last := null, null;
      ghost var k := 1;
      CutSeen(m0, ls, table, n, k, memory);
      var row := table.item.rows.first;
      while row != null
        invariant Loaded() && 1 <= k <= RowCount(ls, table) + 1 && CutUpTo(m0, ls, table, n, k, memory)
        invariant row == RowNode(ls, table, k) && last == if k > 1 then CellNode(ls, table, n, k - 1) else null
        invariant values == (if k > 1 then CellNode(ls, table, n, 1) else null) && (k > 1 ==> values != null)
        decreases RowCount(ls, table) + 1 - k
      {
        last := CutRow(row, n, last, ls, table, k, m0);
        if values == null {
          values := last;
        }
        k := k + 1;
        CutSeen(m0, ls, table, n, k, memory);
        row := row.next;
      }
    }

    // delete_column
    method DeleteColumn(table: Node, n: nat)
      requires Valid() && HasColumn(Lists(), table, n)
      modifies this, anchors, nodes
      ensures Valid() && Lists() == WithoutColumn(old(Lists()), table, n) && groups == old(groups) + 1
      ensures Deletes(old(History(stages, deletions)), History(stages, deletions))
    {
      groups := groups + 1;
      ghost var ls, m0 := Lists(), memory;
      var variable, values := CutColumn(table, n, ls);
      ColumnLogged(m0, memory, stages, deletions, Column(table, n, variable, values, groups));
      Log(Column(table, n, variable, values, groups), WithoutColumn(ls, table, n));
    }

    // One more row of undelete_column: the next value of the chain is put back.
    method PasteRow(a: Anchor, n: nat, value: Node, ghost ls: Lists, ghost table: Node, ghost k: nat, ghost m0: Memory)
      returns (next: Node?)
      requires Loaded() && PasteUpTo(m0, ls, table, n, k, memory) && k <= RowCount(ls, table)
      requires a == CellAnchor(ls, table, k) && value == CellNode(ls, table, n, k)
      modifies this`memory, anchors, nodes
      ensures Loaded() && PasteUpTo(m0, ls, table, n, k + 1, memory) && (k > 0 ==> next == CellNode(ls, table, n, k + 1))
    {
      PasteStep(m0, ls, table, n, k, memory);
      next := value.next;
      PasteCell(a, n, value, PasteLists(ls, table, n, k));
    }

    // What undelete_column does to the lists.
    method PasteColumn(table: Node, n: nat, variable: Node, values: Node?, ghost ls: Lists)
      requires Loaded() && PasteUpTo(memory, ls, table, n, 0, memory)
      requires variable == CellNode(ls, table, n, 0) && values == CellNode(ls, table, n, 1)
      modifies this`memory, anchors, nodes
      ensures Loaded() && PasteUpTo(old(memory), ls, table, n, RowCount(ls, table) + 1, memory)
    {
      ghost var m0 := memory;
      PasteSeen(m0, ls, table, n, 0, memory);
      var next := PasteRow(table.item.vars, n, variable, ls, table, 0, m0);
      var value := values;
      ghost var k := 1;
      PasteSeen(m0, ls, table, n, k, memory);
      var row := table.item.rows.first;
      while row != null
        invariant Loaded() && 1 <= k <= RowCount(ls, table) + 1 && PasteUpTo(m0, ls, table, n, k, memory)
        invariant row == RowNode(ls, table, k) && value == CellNode(ls, table, n, k)
        decreases RowCount(ls, table) + 1 - k
      {
        PasteSeen(m0, ls, table, n, k, memory);
        value := PasteRow(row.item.values, n, value, ls, table, k, m0);
        k := k + 1;
        PasteSeen(m0, ls, table, n, k, memory);
        row := row.next;
      }
    }

    // undelete_column
    method UndeleteColumn()
      requires Valid() && deletions != [] && deletions[|deletions| - 1].Column?
      modifies this, anchors, nodes
      ensures Valid() && groups == old(groups)
      ensures deletions == old(deletions)[..|old(deletions)| - 1]
      ensures stages == old(stages)[..|old(stages)| - 1]
    {
      var d := deletions[|deletions| - 1];
      ghost var m0 := memory;
      ColumnBack(memory, stages, deletions);
      PasteColumn(d.table, d.n, d.variable, d.values, stages[|deletions| - 1]);
      ColumnUnlogged(m0, memory, stages, deletions);
      Unlog();
    }
  }

  // ----- groups -----

  // Where the newest group starts.
  function GroupStart(log: seq<Deletion>): (n: nat)
    ensures n <= |log|
  {
    if |log| <= 1 || log[|log| - 2].group != log[|log| - 1].group then (if log == [] then 0 else |log| - 1)
    else GroupStart(log[..|log| - 1])
  }

  lemma {:induction false} GroupStartAt(log: seq<Deletion>, n: nat)
    requires n < |log| && forall k | n <= k < |log| :: log[k].group == log[|log| - 1].group
    requires n > 0 ==> log[n - 1].group != log[|log| - 1].group
    ensures GroupStart(log) == n
    decreases |log|
  {
    if n < |log| - 1 {
      GroupStartAt(log[..|log| - 1], n);
    }
  }

  // The lists now and before every deletion that can still be undone.
  datatype History = History(stages: seq<Lists>, log: seq<Deletion>)

  // What every delete function does to the history: it adds one group.
  ghost predicate Deletes(h: History, h': History) {
    && |h.stages| == |h.log| + 1 && |h'.stages| == |h'.log| + 1
    && |h.log| < |h'.log| && h.log == h'.log[..|h.log|] && h.stages == h'.stages[..|h.stages|]
    && (forall k | |h.log| <= k < |h'.log| :: h'.log[k].group == h'.log[|h'.log| - 1].group)
    && (h.log != [] ==> h.log[|h.log| - 1].group != h'.log[|h'.log| - 1].group)
  }

  // What undelete does.
  function Undeleted(h: History): (r: History)
    requires |h.stages| == |h.log| + 1
    ensures |r.stages| == |r.log| + 1
  {
    var n := GroupStart(h.log);
    History(h.stages[..n + 1], h.log[..n])
  }

  function UndeletedTimes(h: History, k: nat): (r: History)
    requires |h.stages| == |h.log| + 1
    ensures |r.stages| == |r.log| + 1
    decreases k
  {
    if k == 0 then h else UndeletedTimes(Undeleted(h), k - 1)
  }

  lemma UndeleteUndoesDelete(h: History, h': History)
    requires Deletes(h, h')
    ensures Undeleted(h') == h
  {
    GroupStartAt(h'.log, |h.log|);
  }

  // After any run of delete calls, k undelete calls lead back to the state before the last k.
  lemma {:induction false} UndeleteUndoesRun(run: seq<History>, k: nat)
    requires k < |run| && forall i | 0 <= i < |run| - 1 :: Deletes(run[i], run[i + 1])
    requires |run[0].stages| == |run[0].log| + 1
    ensures |run[|run| - 1].stages| == |run[|run| - 1].log| + 1
    ensures UndeletedTimes(run[|run| - 1], k) == run[|run| - 1 - k]
    decreases k
  {
    if k > 0 {
      var n := |run| - 1;
      assert Deletes(run[n - 1], run[n]);
      UndeleteUndoesDelete(run[n - 1], run[n]);
      UndeleteUndoesRun(run[..n], k - 1);
    } else if |run| > 1 {
      assert Deletes(run[|run| - 2], run[|run| - 1]);
    }
  }
}
