// Taking a column out of a table of fped, and putting it back (eda/fped/delete.c), step by step.
module DeleteColumns {
  import opened Folding
  import opened SeqMinus
  import opened DeleteLog

  function At(s: seq<Node>, n: nat): Node? { if n < |s| then s[n] else null }

  // Where a pointer to position n of a list is stored: in a node, or in the anchor.
  function Slot(s: seq<Node>, n: nat): Node?
    requires n <= |s|
  {
    if n == 0 then null else s[n - 1]
  }

  function WithNext(m: Memory, x: Node, to: Node?): Memory { m.(next := m.next[x := to]) }

  // ----- one list -----

  lemma CutOne(m: Memory, ls: Lists, a: Anchor, n: nat)
    requires ListsOk(m, ls) && a in ls && n < |ls[a]|
    ensures var s := ls[a];
            var m' := Bent(m, a, Slot(s, n), At(s, n + 1));
            && Leads(m, s, n) && (n > 0 ==> s[n - 1] in m.next && s[n - 1].home == a) && s[n].home == a && a in m.first
            && NoDup(s) && s[n] !in Shortened(s, n)
            && ListsOk(m', ls[a := Shortened(s, n)])
  {
    var s := ls[a];
    assert ListOk(m, ls, a) && Leads(m, s, n);
    if n > 0 {
      assert Leads(m, s, n - 1);
    }
    ChainedBypassed(m, a, s, n);
    MinusOne(s, n);
    MinusNoDup(s, {s[n]});
    MinusIn(s, {s[n]}, s[n]);
    ListsOkChanged(m, ls, a, Slot(s, n), At(s, n + 1), Shortened(s, n));
  }

  // The pointer of a node that is on no list may be anything.
  lemma OffNext(m: Memory, ls: Lists, x: Node, to: Node?)
    requires ListsOk(m, ls) && IsOff(ls, x)
    ensures ListsOk(WithNext(m, x, to), ls)
  {
    var m' := WithNext(m, x, to);
    forall b | b in ls ensures ListOk(m', ls, b) {
      assert ListOk(m, ls, b);
      forall i: nat | i < |ls[b]| ensures Leads(m', ls[b], i) {
        assert Leads(m, ls[b], i) && ls[b][i] in ls[b];
      }
    }
  }

  lemma PasteOne(m: Memory, ls: Lists, a: Anchor, n: nat, x: Node)
    requires ListsOk(m, ls) && a in ls && n <= |ls[a]| && x !in ls[a] && x.home == a && x in m.next
    ensures var t := ls[a];
            var m' := Bent(WithNext(m, x, At(t, n)), a, Slot(t, n), x);
            && (n > 0 ==> t[n - 1] in m.next && t[n - 1].home == a) && a in m.first
            && (n > 0 ==> m.next[t[n - 1]] == At(t, n)) && (n == 0 ==> m.first[a] == At(t, n))
            && ListsOk(m', ls[a := t[..n] + [x] + t[n..]])
  {
    var t := ls[a];
    var s := t[..n] + [x] + t[n..];
    assert ListOk(m, ls, a);
    if n > 0 {
      assert Leads(m, t, n - 1);
    }
    var m1 := WithNext(m, x, At(t, n));
    OffNext(m, ls, x, At(t, n));
    assert ListOk(m1, ls, a);
    NoDupInsert(t, n, x);
    assert s[..n] == t[..n] && s[n + 1..] == t[n..] && s[n] == x;
    MinusOne(s, n);
    assert Minus(s, {s[n]}) == t;
    assert Leads(m1, s, n);
    ChainedRelinked(m1, a, s, n);
    ListsOkChanged(m1, ls, a, Slot(t, n), x, s);
  }

  // ----- the lists, cell by cell -----

  lemma CutNothing(ls: Lists, cells: seq<Anchor>, i: nat, n: nat)
    requires i <= |cells|
    ensures Cut(ls, cells, i, i, n) == ls
  {}

  lemma AmongUpTo(cells: seq<Anchor>, k: nat, a: Anchor)
    requires k < |cells| && NoDup(cells)
    ensures Among(cells, 0, k + 1, a) <==> Among(cells, 0, k, a) || a == cells[k]
    ensures !Among(cells, 0, k, cells[k])
  {
    if j :| 0 <= j < k && cells[j] == cells[k] {
      NoDupAt(cells, j, k);
    }
  }

  lemma AmongFrom(cells: seq<Anchor>, k: nat, a: Anchor)
    requires k < |cells| && NoDup(cells)
    ensures Among(cells, k, |cells|, a) <==> Among(cells, k + 1, |cells|, a) || a == cells[k]
    ensures !Among(cells, k + 1, |cells|, cells[k])
  {
    if j :| k + 1 <= j < |cells| && cells[j] == cells[k] {
      NoDupAt(cells, j, k);
    }
  }

  lemma CutNext(ls: Lists, cells: seq<Anchor>, n: nat, k: nat)
    requires NoDup(cells) && k < |cells| && cells[k] in ls
    ensures var a := cells[k];
            && Cut(ls, cells, 0, k, n)[a] == ls[a]
            && Cut(ls, cells, 0, k + 1, n) == Cut(ls, cells, 0, k, n)[a := Shortened(ls[a], n)]
  {
    forall a | a in ls
      ensures Cut(ls, cells, 0, k + 1, n)[a] == Cut(ls, cells, 0, k, n)[cells[k] := Shortened(ls[cells[k]], n)][a]
    {
      AmongUpTo(cells, k, a);
    }
    AmongUpTo(cells, k, cells[k]);
  }

  lemma UncutNext(ls: Lists, cells: seq<Anchor>, n: nat, k: nat)
    requires NoDup(cells) && k < |cells| && cells[k] in ls
    ensures var a := cells[k];
            && Cut(ls, cells, k, |cells|, n)[a] == Shortened(ls[a], n)
            && Cut(ls, cells, k + 1, |cells|, n) == Cut(ls, cells, k, |cells|, n)[a := ls[a]]
  {
    var end := |cells|;
    forall a | a in ls
      ensures Cut(ls, cells, k + 1, end, n)[a] == if a == cells[k] then ls[a] else Cut(ls, cells, k, end, n)[a]
    {
      AmongFrom(cells, k, a);
    }
    AmongFrom(cells, k, cells[k]);
  }

  lemma CutSub(ls: Lists, cells: seq<Anchor>, n: nat)
    ensures Sublists(Cut(ls, cells, 0, |cells|, n), ls)
  {}

  // ----- taking out -----

  // The grid that a column runs through.
  ghost predicate GridOk(ls: Lists, cells: seq<Anchor>, n: nat) {
    && cells != [] && NoDup(cells)
    && forall a | a in cells :: a in ls && n < |ls[a]| && NoDup(ls[a]) && forall x | x in ls[a] :: x.home == a
  }

  // With the first k cells cut, and the values among what was taken chained, but for the last one.
  ghost predicate Cutting(m0: Memory, ls: Lists, cells: seq<Anchor>, n: nat, k: nat, m: Memory)
    requires GridOk(ls, cells, n)
  {
    && 1 <= k <= |cells| && ListsOk(m, Cut(ls, cells, 0, k, n)) && ChangesOnly(m0, m, ls)
    && m.first.Keys == m0.first.Keys
    && forall j: nat {:trigger Leads(m, Taken(ls, cells, n), j)} | 1 <= j < k - 1 :: Leads(m, Taken(ls, cells, n), j)
  }

  lemma GridAt(ls: Lists, cells: seq<Anchor>, n: nat, k: nat)
    requires GridOk(ls, cells, n) && k < |cells|
    ensures cells[k] in cells && cells[k] in ls && n < |ls[cells[k]]| && Taken(ls, cells, n)[k] == ls[cells[k]][n]
    ensures Taken(ls, cells, n)[k].home == cells[k]
  {
    assert cells[k] in cells;
    assert ls[cells[k]][n] in ls[cells[k]];
  }

  // What is taken is off its list, once that is cut.
  lemma TakenOff(ls: Lists, cells: seq<Anchor>, n: nat, i: nat, j: nat, k: nat)
    requires GridOk(ls, cells, n) && i <= k < j <= |cells|
    ensures IsOff(Cut(ls, cells, i, j, n), Taken(ls, cells, n)[k])
  {
    GridAt(ls, cells, n, k);
    var s := ls[cells[k]];
    assert Among(cells, i, j, cells[k]);
    MinusOne(s, n);
    MinusIn(s, {s[n]}, s[n]);
  }

  lemma CutFirst(m: Memory, ls: Lists, cells: seq<Anchor>, n: nat)
    requires GridOk(ls, cells, n) && ListsOk(m, ls)
    ensures var s := ls[cells[0]]; Cutting(m, ls, cells, n, 1, Bent(m, cells[0], Slot(s, n), At(s, n + 1)))
  {
    GridAt(ls, cells, n, 0);
    CutNothing(ls, cells, 0, n);
    CutNext(ls, cells, n, 0);
    CutOne(m, ls, cells[0], n);
    if n > 0 {
      assert ls[cells[0]][n - 1] in ls[cells[0]];
    }
  }

  // The memory after one more cell, of a row: the value taken before it, if there is one, is chained
  // to the new one.
  ghost function AfterCut(ls: Lists, cells: seq<Anchor>, n: nat, k: nat, m: Memory): Memory
    requires GridOk(ls, cells, n) && 0 < k < |cells|
  {
    GridAt(ls, cells, n, k);
    var s, taken := ls[cells[k]], Taken(ls, cells, n);
    var m1 := Bent(m, cells[k], Slot(s, n), At(s, n + 1));
    if k > 1 then WithNext(m1, taken[k - 1], taken[k]) else m1
  }

  lemma CutMoreLists(m: Memory, ls: Lists, cells: seq<Anchor>, n: nat, k: nat)
    requires GridOk(ls, cells, n) && 0 < k < |cells| && ListsOk(m, Cut(ls, cells, 0, k, n))
    ensures ListsOk(AfterCut(ls, cells, n, k, m), Cut(ls, cells, 0, k + 1, n))
    ensures cells[k] in m.first && (n > 0 ==> ls[cells[k]][n - 1] in m.next)
    ensures Leads(m, ls[cells[k]], n)
  {
    GridAt(ls, cells, n, k);
    CutNext(ls, cells, n, k);
    CutOne(m, Cut(ls, cells, 0, k, n), cells[k], n);
    if k > 1 {
      var s, taken := ls[cells[k]], Taken(ls, cells, n);
      TakenOff(ls, cells, n, 0, k + 1, k - 1);
      OffNext(Bent(m, cells[k], Slot(s, n), At(s, n + 1)), Cut(ls, cells, 0, k + 1, n), taken[k - 1], taken[k]);
    }
  }

  lemma CutMoreChanges(m0: Memory, m: Memory, ls: Lists, cells: seq<Anchor>, n: nat, k: nat)
    requires GridOk(ls, cells, n) && 0 < k < |cells| && ChangesOnly(m0, m, ls)
    requires (forall a | a in ls :: forall x | x in ls[a] :: x in m0.next) && cells[k] in m.first
    ensures ChangesOnly(m0, AfterCut(ls, cells, n, k, m), ls)
    ensures AfterCut(ls, cells, n, k, m).first.Keys == m.first.Keys
  {
    GridAt(ls, cells, n, k);
    GridAt(ls, cells, n, k - 1);
    var s, taken := ls[cells[k]], Taken(ls, cells, n);
    if n > 0 {
      assert s[n - 1] in s;
    }
    assert taken[k - 1] in ls[cells[k - 1]];
  }

  lemma CutMoreChain(m: Memory, ls: Lists, cells: seq<Anchor>, n: nat, k: nat, j: nat)
    requires GridOk(ls, cells, n) && 1 <= j < k < |cells|
    requires j < k - 1 ==> Leads(m, Taken(ls, cells, n), j)
    ensures Leads(AfterCut(ls, cells, n, k, m), Taken(ls, cells, n), j)
  {
    GridAt(ls, cells, n, k);
    GridAt(ls, cells, n, k - 1);
    GridAt(ls, cells, n, j);
    NoDupAt(cells, j, k);
    if n > 0 {
      assert ls[cells[k]][n - 1] in ls[cells[k]];
    }
    if j < k - 1 {
      NoDupAt(cells, j, k - 1);
    }
  }

  lemma CutMore(m0: Memory, ls: Lists, cells: seq<Anchor>, n: nat, k: nat, m: Memory)
    requires GridOk(ls, cells, n) && Cutting(m0, ls, cells, n, k, m) && k < |cells|
    requires forall a | a in ls :: forall x | x in ls[a] :: x in m0.next
    ensures Cutting(m0, ls, cells, n, k + 1, AfterCut(ls, cells, n, k, m))
    ensures cells[k] in m.first && (n > 0 ==> ls[cells[k]][n - 1] in m.next) && Leads(m, ls[cells[k]], n)
  {
    CutMoreLists(m, ls, cells, n, k);
    CutMoreChanges(m0, m, ls, cells, n, k);
    forall j: nat | 1 <= j < k ensures Leads(AfterCut(ls, cells, n, k, m), Taken(ls, cells, n), j) {
      if j < k - 1 {
        assert Leads(m, Taken(ls, cells, n), j);
      }
      CutMoreChain(m, ls, cells, n, k, j);
    }
  }

  // At the end, the last value is chained to null.
  ghost function AfterLast(ls: Lists, cells: seq<Anchor>, n: nat, m: Memory): Memory
    requires GridOk(ls, cells, n)
  {
    if |cells| > 1 then WithNext(m, Taken(ls, cells, n)[|cells| - 1], null) else m
  }

  lemma CutDone(m0: Memory, ls: Lists, cells: seq<Anchor>, n: nat, m: Memory)
    requires GridOk(ls, cells, n) && Cutting(m0, ls, cells, n, |cells|, m)
    requires forall a | a in ls :: forall x | x in ls[a] :: x in m0.next
    ensures var m' := AfterLast(ls, cells, n, m);
            && ListsOk(m', Cut(ls, cells, 0, |cells|, n)) && ChangesOnly(m0, m', ls) && ChainedFrom(m', Taken(ls, cells, n), 1)
            && Taken(ls, cells, n)[0] in m'.next && m'.first.Keys == m0.first.Keys
  {
    var taken, k := Taken(ls, cells, n), |cells|;
    GridAt(ls, cells, n, 0);
    GridAt(ls, cells, n, k - 1);
    TakenOff(ls, cells, n, 0, k, k - 1);
    assert taken[k - 1] in ls[cells[k - 1]] && taken[0] in ls[cells[0]];
    if k > 1 {
      OffNext(m, Cut(ls, cells, 0, |cells|, n), taken[k - 1], null);
    }
    forall j: nat | 1 <= j < |taken| ensures Leads(AfterLast(ls, cells, n, m), taken, j) {
      if j < k - 1 {
        assert Leads(m, taken, j);
        GridAt(ls, cells, n, j);
        NoDupAt(cells, j, k - 1);
      }
    }
  }

  lemma AllOff(ls: Lists, cells: seq<Anchor>, n: nat)
    requires GridOk(ls, cells, n)
    ensures forall x | x in Taken(ls, cells, n) :: IsOff(Cut(ls, cells, 0, |cells|, n), x)
  {
    var taken := Taken(ls, cells, n);
    forall x | x in taken ensures IsOff(Cut(ls, cells, 0, |cells|, n), x) {
      var j :| 0 <= j < |taken| && taken[j] == x;
      TakenOff(ls, cells, n, 0, |cells|, j);
    }
  }

  // ----- putting back -----

  // With the first k cells back, and the values among the others still chained.
  ghost predicate Pasting(m0: Memory, ls: Lists, cells: seq<Anchor>, n: nat, k: nat, m: Memory)
    requires GridOk(ls, cells, n)
  {
    && k <= |cells| && ListsOk(m, Cut(ls, cells, k, |cells|, n)) && ChangesOnly(m0, m, ls) && m.first.Keys == m0.first.Keys
    && (forall j | k <= j < |cells| :: Taken(ls, cells, n)[j] in m.next)
    && forall j: nat {:trigger Leads(m, Taken(ls, cells, n), j)} | 1 <= j < |cells| && k <= j :: Leads(m, Taken(ls, cells, n), j)
  }

  lemma PasteStart(m: Memory, ls: Lists, cells: seq<Anchor>, n: nat)
    requires GridOk(ls, cells, n) && ListsOk(m, Cut(ls, cells, 0, |cells|, n))
    requires ChainedFrom(m, Taken(ls, cells, n), 1) && Taken(ls, cells, n)[0] in m.next
    ensures Pasting(m, ls, cells, n, 0, m)
  {
    var taken := Taken(ls, cells, n);
    forall j: nat | j < |cells| ensures taken[j] in m.next {
      if j > 0 {
        assert Leads(m, taken, j);
      }
    }
  }

  // The memory after one more cell is back.
  ghost function AfterPaste(ls: Lists, cells: seq<Anchor>, n: nat, k: nat, m: Memory): Memory
    requires GridOk(ls, cells, n) && k < |cells|
  {
    GridAt(ls, cells, n, k);
    var t, x := Shortened(ls[cells[k]], n), Taken(ls, cells, n)[k];
    Bent(WithNext(m, x, At(t, n)), cells[k], Slot(t, n), x)
  }

  lemma PasteMoreLists(m: Memory, ls: Lists, cells: seq<Anchor>, n: nat, k: nat)
    requires GridOk(ls, cells, n) && k < |cells| && ListsOk(m, Cut(ls, cells, k, |cells|, n)) && Taken(ls, cells, n)[k] in m.next
    ensures ListsOk(AfterPaste(ls, cells, n, k, m), Cut(ls, cells, k + 1, |cells|, n))
    ensures cells[k] in ls && n < |ls[cells[k]]| && Cut(ls, cells, k, |cells|, n)[cells[k]] == Shortened(ls[cells[k]], n)
    ensures n > 0 ==> ls[cells[k]][n - 1] in m.next
    ensures var t := Shortened(ls[cells[k]], n);
            && (n > 0 ==> t[n - 1] in m.next && t[n - 1].home == cells[k] && m.next[t[n - 1]] == At(t, n))
            && cells[k] in m.first && (n == 0 ==> m.first[cells[k]] == At(t, n))
  {
    GridAt(ls, cells, n, k);
    UncutNext(ls, cells, n, k);
    TakenOff(ls, cells, n, k, |cells|, k);
    var lk, a, x := Cut(ls, cells, k, |cells|, n), cells[k], Taken(ls, cells, n)[k];
    PasteOne(m, lk, a, n, x);
    Lengthened(ls[a], n);
  }

  lemma Lengthened(s: seq<Node>, n: nat)
    requires n < |s|
    ensures var t := Shortened(s, n); t[..n] + [s[n]] + t[n..] == s && |t| == |s| - 1 && (n > 0 ==> t[n - 1] == s[n - 1])
  {}

  lemma PasteMore(m0: Memory, ls: Lists, cells: seq<Anchor>, n: nat, k: nat, m: Memory)
    requires GridOk(ls, cells, n) && Pasting(m0, ls, cells, n, k, m) && k < |cells|
    ensures Pasting(m0, ls, cells, n, k + 1, AfterPaste(ls, cells, n, k, m))
    ensures k > 0 ==> Leads(m, Taken(ls, cells, n), k)
  {
    PasteMoreLists(m, ls, cells, n, k);
    PasteMoreChanges(m0, m, ls, cells, n, k);
    var m', taken := AfterPaste(ls, cells, n, k, m), Taken(ls, cells, n);
    forall j: nat | k < j < |cells| ensures taken[j] in m'.next && Leads(m', taken, j) {
      assert Leads(m, taken, j);
      PasteMoreChain(m, ls, cells, n, k, j);
    }
    if k > 0 {
      assert Leads(m, taken, k);
    }
  }

  lemma PasteMoreChanges(m0: Memory, m: Memory, ls: Lists, cells: seq<Anchor>, n: nat, k: nat)
    requires GridOk(ls, cells, n) && k < |cells| && ChangesOnly(m0, m, ls) && cells[k] in m.first
    requires Taken(ls, cells, n)[k] in m.next && (n > 0 ==> ls[cells[k]][n - 1] in m.next)
    ensures ChangesOnly(m0, AfterPaste(ls, cells, n, k, m), ls)
    ensures AfterPaste(ls, cells, n, k, m).first.Keys == m.first.Keys
  {
    GridAt(ls, cells, n, k);
    Lengthened(ls[cells[k]], n);
    assert Taken(ls, cells, n)[k] in ls[cells[k]];
    if n > 0 {
      assert ls[cells[k]][n - 1] in ls[cells[k]];
    }
  }

  lemma PasteMoreChain(m: Memory, ls: Lists, cells: seq<Anchor>, n: nat, k: nat, j: nat)
    requires GridOk(ls, cells, n) && k < j < |cells| && Leads(m, Taken(ls, cells, n), j)
    ensures Leads(AfterPaste(ls, cells, n, k, m), Taken(ls, cells, n), j)
  {
    GridAt(ls, cells, n, k);
    GridAt(ls, cells, n, j);
    NoDupAt(cells, j, k);
    Lengthened(ls[cells[k]], n);
    if n > 0 {
      assert ls[cells[k]][n - 1] in ls[cells[k]];
    }
  }

  // ----- tables -----

  lemma {:induction false} RowCellAt(rows: seq<Node>, k: nat)
    requires k < |rows| && forall r | r in rows :: r.item.RowItem?
    ensures |RowCells(rows)| == |rows| && RowCells(rows)[k] == rows[k].item.values
  {
    if k > 0 {
      RowCellAt(rows[1..], k - 1);
    } else if |rows| > 1 {
      RowCellAt(rows[1..], 0);
    }
  }

  lemma CellAt(ls: Lists, table: Node, n: nat, k: nat)
    requires HasColumn(ls, table, n) && k <= |ls[table.item.rows]|
    ensures var rows := ls[table.item.rows];
            && |Cells(ls, table)| == |rows| + 1
            && Cells(ls, table)[k] == if k == 0 then table.item.vars else rows[k - 1].item.values
  {
    if ls[table.item.rows] != [] {
      RowCellAt(ls[table.item.rows], if k == 0 then 0 else k - 1);
    }
  }

  lemma ColumnGrid(m: Memory, ls: Lists, table: Node, n: nat)
    requires ListsOk(m, ls) && HasColumn(ls, table, n)
    ensures GridOk(ls, Cells(ls, table), n) && |Cells(ls, table)| == |ls[table.item.rows]| + 1
    ensures Cells(ls, table)[0] == table.item.vars
    ensures forall b | b in ls :: forall x | x in ls[b] :: x in m.next
  {
    CellAt(ls, table, n, 0);
    forall a | a in Cells(ls, table) ensures a in ls && NoDup(ls[a]) && forall x | x in ls[a] :: x.home == a {
      assert ListOk(m, ls, a);
    }
    forall b, x | b in ls && x in ls[b] ensures x in m.next {
      assert ListOk(m, ls, b);
      var i: nat :| i < |ls[b]| && ls[b][i] == x;
      assert Leads(m, ls[b], i);
    }
  }

  // From the record of a column: the grid it was taken from.
  lemma ColumnGridBack(m: Memory, ls: Lists, table: Node, n: nat, variable: Node, values: Node?)
    requires ListsOk(m, Cut(ls, Cells(ls, table), 0, |Cells(ls, table)|, n))
    requires ColumnOk(m, ls, Cut(ls, Cells(ls, table), 0, |Cells(ls, table)|, n), table, n, variable, values)
    ensures GridOk(ls, Cells(ls, table), n) && |Cells(ls, table)| == |ls[table.item.rows]| + 1
    ensures Cells(ls, table)[0] == table.item.vars && values == At(Taken(ls, Cells(ls, table), n), 1)
  {
    var cells := Cells(ls, table);
    var end := |cells|;
    CellAt(ls, table, n, 0);
    forall a | a in cells ensures NoDup(ls[a]) && forall x | x in ls[a] :: x.home == a {
      var k :| 0 <= k < |cells| && cells[k] == a;
      assert Taken(ls, cells, n)[k].home == a && Among(cells, 0, end, a);
      assert ListOk(m, Cut(ls, cells, 0, end, n), a);
      HomesBack(ls[a], n, a);
    }
  }

  lemma HomesBack(s: seq<Node>, n: nat, a: Anchor)
    requires n < |s| && s[n].home == a && forall x | x in Shortened(s, n) :: x.home == a
    ensures forall x | x in s :: x.home == a
  {
    var t := Shortened(s, n);
    forall i: nat | i < |s| ensures s[i].home == a {
      if i < n {
        assert t[i] == s[i];
      } else if i > n {
        assert t[i - 1] == s[i];
      }
    }
  }

  // The list of rows is not changed with the columns.
  lemma RowsKept(m: Memory, ls: Lists, table: Node, n: nat, i: nat, j: nat)
    requires HasColumn(ls, table, n) && i <= j <= |Cells(ls, table)| && ListsOk(m, Cut(ls, Cells(ls, table), i, j, n))
    ensures var rows := ls[table.item.rows]; m.first.Keys >= {table.item.rows} && m.first[table.item.rows] == At(rows, 0)
    ensures forall k: nat | k < |ls[table.item.rows]| :: Leads(m, ls[table.item.rows], k)
  {
    var cells, a := Cells(ls, table), table.item.rows;
    assert !Among(cells, i, j, a);
    assert ListOk(m, Cut(ls, cells, i, j, n), a);
  }

  lemma TakenKnown(m: Memory, ls: Lists, cells: seq<Anchor>, n: nat, k: nat)
    requires GridOk(ls, cells, n) && k < |cells| && forall b | b in ls :: forall x | x in ls[b] :: x in m.next
    ensures Taken(ls, cells, n)[k] in m.next
  {
    GridAt(ls, cells, n, k);
    assert Taken(ls, cells, n)[k] in ls[cells[k]];
  }

  lemma TakenHomes(ls: Lists, cells: seq<Anchor>, n: nat)
    requires GridOk(ls, cells, n)
    ensures forall k | 0 <= k < |cells| :: Taken(ls, cells, n)[k].home == cells[k] && NoDup(ls[cells[k]])
  {
    forall k: nat | k < |cells| ensures Taken(ls, cells, n)[k].home == cells[k] && NoDup(ls[cells[k]]) {
      GridAt(ls, cells, n, k);
    }
  }

  // ----- the steps on a table, with what is known about them folded away -----

  ghost function WithoutColumn(ls: Lists, table: Node, n: nat): Lists {
    Cut(ls, Cells(ls, table), 0, |Cells(ls, table)|, n)
  }

  function RowCount(ls: Lists, table: Node): nat {
    if table.item.TableItem? && table.item.rows in ls then |ls[table.item.rows]| else 0
  }

  // Row k of a table, from 1 on; position 0 is that of the variable.
  function RowNode(ls: Lists, table: Node, k: nat): Node? {
    if 1 <= k <= RowCount(ls, table) then ls[table.item.rows][k - 1] else null
  }

  function CellAnchor(ls: Lists, table: Node, k: nat): Anchor? {
    if k < |Cells(ls, table)| then Cells(ls, table)[k] else null
  }

  function CellNode(ls: Lists, table: Node, n: nat, k: nat): Node? {
    var a := CellAnchor(ls, table, k);
    if a != null && a in ls && n < |ls[a]| then ls[a][n] else null
  }

  ghost function CutLists(ls: Lists, table: Node, n: nat, k: nat): Lists {
    if k <= |Cells(ls, table)| then Cut(ls, Cells(ls, table), 0, k, n) else ls
  }

  ghost function PasteLists(ls: Lists, table: Node, n: nat, k: nat): Lists {
    if k <= |Cells(ls, table)| then Cut(ls, Cells(ls, table), k, |Cells(ls, table)|, n) else ls
  }

  // The table of lists ls as it was in memory m0.
  ghost predicate TableOk(m0: Memory, ls: Lists, table: Node, n: nat) {
    && HasColumn(ls, table, n) && GridOk(ls, Cells(ls, table), n) && |Cells(ls, table)| == RowCount(ls, table) + 1
    && forall b | b in ls :: forall x | x in ls[b] :: x in m0.next
  }

  ghost predicate CutUpTo(m0: Memory, ls: Lists, table: Node, n: nat, k: nat, m: Memory) {
    match table.item
    case TableItem(_, _) =>
      forall i {:trigger Unfold(i)} :: Unfold(i) ==> TableOk(m0, ls, table, n) && Cutting(m0, ls, Cells(ls, table), n, k, m)
    case _ => false
  }

  ghost predicate ColumnCut(m0: Memory, m: Memory, ls: Lists, table: Node, n: nat, variable: Node, values: Node?) {
    match table.item
    case TableItem(_, _) =>
      forall i {:trigger Unfold(i)} :: Unfold(i) ==>
        && ListsOk(m, WithoutColumn(ls, table, n)) && ChangesOnly(m0, m, ls) && TableOk(m0, ls, table, n)
        && ColumnOk(m, ls, WithoutColumn(ls, table, n), table, n, variable, values)
    case _ => false
  }

  lemma NodeAt(ls: Lists, table: Node, n: nat, k: nat)
    requires GridOk(ls, Cells(ls, table), n) && k < |Cells(ls, table)|
    ensures CellNode(ls, table, n, k) == Taken(ls, Cells(ls, table), n)[k]
  {
    GridAt(ls, Cells(ls, table), n, k);
  }

  lemma CutStart(m: Memory, ls: Lists, table: Node, n: nat)
    requires ListsOk(m, ls) && HasColumn(ls, table, n)
    ensures var s := ls[table.item.vars];
            && CutUpTo(m, ls, table, n, 1, Bent(m, table.item.vars, Slot(s, n), At(s, n + 1)))
            && s[n] == CellNode(ls, table, n, 0)
  {
    ColumnGrid(m, ls, table, n);
    CutFirst(m, ls, Cells(ls, table), n);
    NodeAt(ls, table, n, 0);
  }

  // The list of rows can be walked.
  lemma CutSeen(m0: Memory, ls: Lists, table: Node, n: nat, k: nat, m: Memory)
    requires CutUpTo(m0, ls, table, n, k, m)
    ensures table.item.TableItem? && table.item.rows in m.first && m.first[table.item.rows] == RowNode(ls, table, 1)
    ensures forall j: nat {:trigger RowNode(ls, table, j)} | 1 <= j <= RowCount(ls, table) ::
              RowNode(ls, table, j) in m.next && m.next[RowNode(ls, table, j)] == RowNode(ls, table, j + 1)
  {
    assert Unfold(0);
    RowsKept(m, ls, table, n, 0, k);
    RowsWalked(m, ls, table);
  }

  lemma RowsWalked(m: Memory, ls: Lists, table: Node)
    requires table.item.TableItem? && table.item.rows in ls
    requires forall k: nat | k < |ls[table.item.rows]| :: Leads(m, ls[table.item.rows], k)
    ensures forall j: nat {:trigger RowNode(ls, table, j)} | 1 <= j <= RowCount(ls, table) ::
              RowNode(ls, table, j) in m.next && m.next[RowNode(ls, table, j)] == RowNode(ls, table, j + 1)
  {
    forall j: nat | 1 <= j <= RowCount(ls, table)
      ensures RowNode(ls, table, j) in m.next && m.next[RowNode(ls, table, j)] == RowNode(ls, table, j + 1)
    {
      assert Leads(m, ls[table.item.rows], j - 1);
    }
  }

  lemma CutStep(m0: Memory, ls: Lists, table: Node, n: nat, k: nat, m: Memory)
    requires CutUpTo(m0, ls, table, n, k, m) && 1 <= k <= RowCount(ls, table)
    ensures RowNode(ls, table, k).item.RowItem? && RowNode(ls, table, k).item.values in CutLists(ls, table, n, k)
    ensures ListsOk(m, CutLists(ls, table, n, k))
    ensures var s := CutLists(ls, table, n, k)[RowNode(ls, table, k).item.values];
            && n < |s| && s[n] == CellNode(ls, table, n, k)
            && var m1 := Bent(m, RowNode(ls, table, k).item.values, Slot(s, n), At(s, n + 1));
            if k > 1 then
              && CellNode(ls, table, n, k - 1) in m.next
              && CutUpTo(m0, ls, table, n, k + 1, WithNext(m1, CellNode(ls, table, n, k - 1), CellNode(ls, table, n, k)))
            else
              CutUpTo(m0, ls, table, n, k + 1, m1)
  {
    assert Unfold(0);
    var cells := Cells(ls, table);
    CellAt(ls, table, n, k);
    GridAt(ls, cells, n, k);
    CutNext(ls, cells, n, k);
    CutMore(m0, ls, cells, n, k, m);
    NodeAt(ls, table, n, k);
    NodeAt(ls, table, n, k - 1);
    TakenKnown(m0, ls, cells, n, k - 1);
    assert RowNode(ls, table, k) in ls[table.item.rows];
  }

  lemma CutEnd(m0: Memory, ls: Lists, table: Node, n: nat, k: nat, m: Memory)
    requires k == RowCount(ls, table) + 1 && CutUpTo(m0, ls, table, n, k, m)
    ensures && CellNode(ls, table, n, 0) != null
            && if k > 1 then
              && CellNode(ls, table, n, k - 1) != null && CellNode(ls, table, n, k - 1) in m.next
              && ColumnCut(m0, WithNext(m, CellNode(ls, table, n, k - 1), null), ls, table, n,
                           CellNode(ls, table, n, 0), CellNode(ls, table, n, 1))
            else
              CellNode(ls, table, n, 1) == null && ColumnCut(m0, m, ls, table, n, CellNode(ls, table, n, 0), null)
  {
    assert Unfold(0);
    var cells := Cells(ls, table);
    CutDone(m0, ls, cells, n, m);
    NodeAt(ls, table, n, 0);
    if k > 1 {
      NodeAt(ls, table, n, k - 1);
      TakenKnown(m0, ls, cells, n, k - 1);
      ColumnIsCut(m0, WithNext(m, CellNode(ls, table, n, k - 1), null), ls, table, n);
    } else {
      ColumnIsCut(m0, m, ls, table, n);
    }
  }

  lemma ColumnIsCut(m0: Memory, m: Memory, ls: Lists, table: Node, n: nat)
    requires TableOk(m0, ls, table, n) && ListsOk(m, WithoutColumn(ls, table, n)) && ChangesOnly(m0, m, ls)
    requires ChainedFrom(m, Taken(ls, Cells(ls, table), n), 1) && Taken(ls, Cells(ls, table), n)[0] in m.next
    ensures ColumnCut(m0, m, ls, table, n, CellNode(ls, table, n, 0), CellNode(ls, table, n, 1))
  {
    var cells := Cells(ls, table);
    NodeAt(ls, table, n, 0);
    TakenHomes(ls, cells, n);
    if |cells| > 1 {
      NodeAt(ls, table, n, 1);
    }
    assert ColumnOk(m, ls, WithoutColumn(ls, table, n), table, n, CellNode(ls, table, n, 0), CellNode(ls, table, n, 1));
  }

  lemma ColumnLogged(m0: Memory, m: Memory, stages: seq<Lists>, log: seq<Deletion>, d: Deletion)
    requires LogOk(m0, stages, log) && d.Column? && ColumnCut(m0, m, stages[|log|], d.table, d.n, d.variable, d.values)
    ensures var ls := WithoutColumn(stages[|log|], d.table, d.n);
            LogOk(m, stages + [ls], log + [d]) && ListsOk(m, ls) && ls.Keys == stages[|log|].Keys
  {
    assert Unfold(0);
    var ls := stages[|log|];
    CutSub(ls, Cells(ls, d.table), d.n);
    AllOff(ls, Cells(ls, d.table), d.n);
    LogPushed(m0, stages, log, d, m, WithoutColumn(ls, d.table, d.n));
  }

  ghost predicate PasteUpTo(m0: Memory, ls: Lists, table: Node, n: nat, k: nat, m: Memory) {
    match table.item
    case TableItem(_, _) =>
      forall i {:trigger Unfold(i)} :: Unfold(i) ==>
        && HasColumn(ls, table, n) && GridOk(ls, Cells(ls, table), n) && |Cells(ls, table)| == RowCount(ls, table) + 1
        && Pasting(m0, ls, Cells(ls, table), n, k, m)
    case _ => false
  }

  // What the log says about the column deleted last: the assumptions of undelete_column hold.
  lemma ColumnBack(m: Memory, stages: seq<Lists>, log: seq<Deletion>)
    requires LogOk(m, stages, log) && log != [] && log[|log| - 1].Column? && ListsOk(m, stages[|log|])
    ensures var ls, d := stages[|log| - 1], log[|log| - 1];
            && PasteUpTo(m, ls, d.table, d.n, 0, m)
            && d.variable == CellNode(ls, d.table, d.n, 0) && d.values == CellNode(ls, d.table, d.n, 1)
  {
    var ls, d := stages[|log| - 1], log[|log| - 1];
    assert EntryOk(m, stages, log, |log| - 1);
    var cells := Cells(ls, d.table);
    ColumnGridBack(m, ls, d.table, d.n, d.variable, d.values);
    PasteStart(m, ls, cells, d.n);
    NodeAt(ls, d.table, d.n, 0);
    if |cells| > 1 {
      NodeAt(ls, d.table, d.n, 1);
    }
  }

  lemma PasteSeen(m0: Memory, ls: Lists, table: Node, n: nat, k: nat, m: Memory)
    requires PasteUpTo(m0, ls, table, n, k, m)
    ensures table.item.TableItem? && table.item.rows in m.first && m.first[table.item.rows] == RowNode(ls, table, 1)
    ensures CellAnchor(ls, table, 0) == table.item.vars
    ensures 1 <= k <= RowCount(ls, table) ==>
              RowNode(ls, table, k).item.RowItem? && CellAnchor(ls, table, k) == RowNode(ls, table, k).item.values
    ensures k <= RowCount(ls, table) ==> CellNode(ls, table, n, k) != null
    ensures forall j: nat {:trigger RowNode(ls, table, j)} | 1 <= j <= RowCount(ls, table) ::
              RowNode(ls, table, j) in m.next && m.next[RowNode(ls, table, j)] == RowNode(ls, table, j + 1)
  {
    assert Unfold(0);
    CellAt(ls, table, n, 0);
    RowsKept(m, ls, table, n, k, |Cells(ls, table)|);
    RowsWalked(m, ls, table);
    if 1 <= k <= RowCount(ls, table) {
      CellAt(ls, table, n, k);
      assert RowNode(ls, table, k) in ls[table.item.rows];
    }
    if k <= RowCount(ls, table) {
      NodeAt(ls, table, n, k);
    }
  }

  lemma PasteStep(m0: Memory, ls: Lists, table: Node, n: nat, k: nat, m: Memory)
    requires PasteUpTo(m0, ls, table, n, k, m) && k <= RowCount(ls, table)
    ensures CellAnchor(ls, table, k) != null && CellNode(ls, table, n, k) != null
    ensures var ls', a, x := PasteLists(ls, table, n, k), CellAnchor(ls, table, k), CellNode(ls, table, n, k);
            && ListsOk(m, ls') && a in ls' && n <= |ls'[a]| && x !in ls'[a] && x.home == a && x in m.next
            && PasteUpTo(m0, ls, table, n, k + 1, Bent(WithNext(m, x, At(ls'[a], n)), a, Slot(ls'[a], n), x))
            && (k > 0 ==> m.next[x] == CellNode(ls, table, n, k + 1))
  {
    assert Unfold(0);
    var cells := Cells(ls, table);
    GridAt(ls, cells, n, k);
    NodeAt(ls, table, n, k);
    PasteMoreLists(m, ls, cells, n, k);
    PasteMore(m0, ls, cells, n, k, m);
    TakenOff(ls, cells, n, k, |cells|, k);
    if k + 1 < |cells| {
      NodeAt(ls, table, n, k + 1);
    }
  }

  lemma ColumnUnlogged(m0: Memory, m: Memory, stages: seq<Lists>, log: seq<Deletion>)
    requires LogOk(m0, stages, log) && log != [] && log[|log| - 1].Column?
    requires var ls, d := stages[|log| - 1], log[|log| - 1];
             PasteUpTo(m0, ls, d.table, d.n, RowCount(ls, d.table) + 1, m)
    ensures LogOk(m, stages[..|log|], log[..|log| - 1]) && ListsOk(m, stages[|log| - 1])
    ensures stages[|log|].Keys == stages[|log| - 1].Keys
  {
    assert Unfold(0);
    var ls, d := stages[|log| - 1], log[|log| - 1];
    assert EntryOk(m0, stages, log, |log| - 1);
    CutNothing(ls, Cells(ls, d.table), |Cells(ls, d.table)|, d.n);
    LogPopped(m0, stages, log, m);
  }
}
