// The lists of fped (eda/fped/obj.h) and the deletion log (eda/fped/delete.c): nodes are unlinked
// from singly linked lists in place, remembered, and relinked in reverse order.
module DeleteLog {
  import opened SeqMinus

  // ----- the linked structures -----

  datatype Kind = Frames | Tables | Vars | Rows | Values | Loops | Vecs | Objs

  // The head of a list of nodes of one kind.
  class Anchor {
    var first: Node?
    const kind: Kind
    constructor (kind: Kind)
      ensures first == null && this.kind == kind
    {
      first, this.kind := null, kind;
    }
  }

  // Everything that lives on a list: what it is never changes, what follows it does.
  class Node {
    var next: Node?
    const home: Anchor
    const item: Item
    constructor (home: Anchor, item: Item)
      ensures next == null && this.home == home && this.item == item
    {
      next, this.home, this.item := null, home, item;
    }
  }

  datatype Item =
    | FrameItem(vecs: Anchor, objs: Anchor, tables: Anchor, loops: Anchor)
    | TableItem(vars: Anchor, rows: Anchor)
    | RowItem(values: Anchor)
    | VarItem
    | ValueItem
    | LoopItem
    | VecItem(frame: Node, base: Node?)
    | ObjItem(owner: Node, anchor: Node?, shape: Shape)

  datatype Shape =
    | FrameRef(ref: Node)
    | Line(other: Node?)
    | Rect(other: Node?)
    | Pad(other: Node?)
    | Hole(other: Node?)
    | Arc(start: Node?, end: Node?)
    | Meas(high: Node, lowQual: seq<Node>, highQual: seq<Node>)

  // A node and its predecessor; or column n of a table: a variable, and a chain of the values.
  datatype Deletion =
    | Unlinked(node: Node, prev: Node?, group: nat)
    | Column(table: Node, n: nat, variable: Node, values: Node?, group: nat)

  type Lists = map<Anchor, seq<Node>>

  // ----- the links in memory -----

  // What the pointers of all anchors and nodes are.
  datatype Memory = Memory(first: map<Anchor, Node?>, next: map<Node, Node?>)

  function Head(s: seq<Node>): Node? { if s == [] then null else s[0] }
  function After(s: seq<Node>, i: nat): Node? { if i + 1 < |s| then s[i + 1] else null }
  function Before(s: seq<Node>, i: nat): Node?
    requires i < |s|
  {
    if i == 0 then null else s[i - 1]
  }

  // The pointer at position i of s leads to the next position.
  ghost predicate Leads(m: Memory, s: seq<Node>, i: nat)
    requires i < |s|
  {
    s[i] in m.next && m.next[s[i]] == After(s, i)
  }

  // The pointers from anchor a run through s and stop.
  ghost predicate Chained(m: Memory, a: Anchor, s: seq<Node>) {
    && a in m.first && m.first[a] == Head(s)
    && (forall x | x in s :: x.home == a)
    && forall i: nat | i < |s| :: Leads(m, s, i)
  }

  // List a is in memory, without repetition.
  ghost predicate ListOk(m: Memory, lists: Lists, a: Anchor)
    requires a in lists
  {
    NoDup(lists[a]) && Chained(m, a, lists[a])
  }

  ghost predicate ListsOk(m: Memory, lists: Lists) {
    forall a {:trigger ListOk(m, lists, a)} | a in lists :: ListOk(m, lists, a)
  }

  // Storing one pointer: the anchor's if there is no predecessor, else the predecessor's.
  function Bent(m: Memory, a: Anchor, prev: Node?, to: Node?): Memory {
    if prev == null then m.(first := m.first[a := to]) else m.(next := m.next[prev := to])
  }

  lemma ChainedBypassed(m: Memory, a: Anchor, s: seq<Node>, i: nat)
    requires Chained(m, a, s) && NoDup(s) && i < |s|
    ensures Chained(Bent(m, a, Before(s, i), After(s, i)), a, Minus(s, {s[i]}))
  {
    MinusOne(s, i);
    var t := s[..i] + s[i + 1..];
    var m' := Bent(m, a, Before(s, i), After(s, i));
    forall x | x in t ensures x in s {
      MinusIn(s, {s[i]}, x);
    }
    forall k: nat | k < |t| ensures Leads(m', t, k) {
      var k' := if k < i then k else k + 1;
      assert t[k] == s[k'] && Leads(m, s, k') && Leads(m, s, i);
      if i > 0 && k != i - 1 {
        NoDupAt(s, k', i - 1);
      }
    }
  }

  // Relinking is the inverse: the node still points to what followed it.
  lemma ChainedRelinked(m: Memory, a: Anchor, s: seq<Node>, i: nat)
    requires NoDup(s) && i < |s| && s[i].home == a && Chained(m, a, Minus(s, {s[i]})) && Leads(m, s, i)
    ensures Chained(Bent(m, a, Before(s, i), s[i]), a, s)
  {
    MinusOne(s, i);
    forall x | x in s ensures x.home == a {
      MinusIn(s, {s[i]}, x);
    }
    forall k: nat | k < |s| ensures Leads(Bent(m, a, Before(s, i), s[i]), s, k) {
      RelinkedLeads(m, a, s, i, k);
    }
  }

  lemma RelinkedLeads(m: Memory, a: Anchor, s: seq<Node>, i: nat, k: nat)
    requires NoDup(s) && i < |s| && k < |s| && Leads(m, s, i) && Chained(m, a, s[..i] + s[i + 1..])
    ensures Leads(Bent(m, a, Before(s, i), s[i]), s, k)
  {
    var t := s[..i] + s[i + 1..];
    assert |t| == |s| - 1;
    if k == i {
      if i > 0 {
        NoDupAt(s, i, i - 1);
      }
    } else if k + 1 == i {
      assert t[k] == s[k] && Leads(m, t, k);
    } else if k < i {
      LeadsBefore(m, s, i, k);
      NoDupAt(s, k, i - 1);
    } else {
      LeadsBehind(m, s, i, k);
      if i > 0 {
        NoDupAt(s, k, i - 1);
      }
    }
  }

  // Away from the gap, the links are those of the whole list.
  lemma LeadsBefore(m: Memory, s: seq<Node>, i: nat, k: nat)
    requires k + 1 < i < |s| && Leads(m, s[..i] + s[i + 1..], k)
    ensures Leads(m, s, k)
  {
    var t := s[..i] + s[i + 1..];
    assert t[k] == s[k] && t[k + 1] == s[k + 1];
  }

  lemma LeadsBehind(m: Memory, s: seq<Node>, i: nat, k: nat)
    requires i < k < |s| && Leads(m, s[..i] + s[i + 1..], k - 1)
    ensures Leads(m, s, k)
  {
    var t := s[..i] + s[i + 1..];
    assert |t| == |s| - 1 && t[k - 1] == s[k];
    if k + 1 < |s| {
      assert t[k] == s[k + 1];
    }
  }

  // Other lists do not see a pointer of list a change.
  lemma ChainedElsewhere(m: Memory, a: Anchor, prev: Node?, to: Node?, b: Anchor, s: seq<Node>)
    requires Chained(m, b, s) && a != b && (prev == null || prev.home == a)
    ensures Chained(Bent(m, a, prev, to), b, s)
  {
    forall i: nat | i < |s| ensures Leads(Bent(m, a, prev, to), s, i) {
      assert Leads(m, s, i) && s[i] in s;
    }
  }

  // Replacing one list by what its pointers now say.
  lemma ListsOkChanged(m: Memory, lists: Lists, a: Anchor, prev: Node?, to: Node?, t: seq<Node>)
    requires ListsOk(m, lists) && (prev == null || prev.home == a)
    requires NoDup(t) && Chained(Bent(m, a, prev, to), a, t)
    ensures ListsOk(Bent(m, a, prev, to), lists[a := t])
  {
    var m', lists' := Bent(m, a, prev, to), lists[a := t];
    forall b | b in lists' ensures ListOk(m', lists', b) {
      if b != a {
        assert ListOk(m, lists, b);
        ChainedElsewhere(m, a, prev, to, b, lists[b]);
      }
    }
  }

  // ----- columns of tables -----

  // The lists that column n runs through: the variables, and the values of each row.
  function Cells(ls: Lists, table: Node): seq<Anchor> {
    if table.item.TableItem? && table.item.rows in ls then [table.item.vars] + RowCells(ls[table.item.rows]) else []
  }

  function RowCells(rows: seq<Node>): seq<Anchor> {
    if rows == [] then []
    else (if rows[0].item.RowItem? then [rows[0].item.values] else []) + RowCells(rows[1..])
  }

  // The table has a column n: every list does, and no list occurs twice.
  ghost predicate HasColumn(ls: Lists, table: Node, n: nat) {
    && table.item.TableItem? && table.item.rows in ls && table.item.vars in ls
    && (forall r | r in ls[table.item.rows] :: r.item.RowItem?)
    && NoDup(Cells(ls, table)) && table.item.rows !in Cells(ls, table)
    && forall a | a in Cells(ls, table) :: a in ls && n < |ls[a]|
  }

  // a is one of the cells from i on and before j.
  ghost predicate Among(cells: seq<Anchor>, i: nat, j: nat, a: Anchor)
    requires i <= j <= |cells|
  {
    exists k :: i <= k < j && cells[k] == a
  }

  function Shortened(s: seq<Node>, n: nat): seq<Node> { if n < |s| then s[..n] + s[n + 1..] else s }

  // The lists without element n of those among the cells.
  ghost function Cut(ls: Lists, cells: seq<Anchor>, i: nat, j: nat, n: nat): Lists
    requires i <= j <= |cells|
  {
    map a | a in ls :: if Among(cells, i, j, a) then Shortened(ls[a], n) else ls[a]
  }

  // Element n of each list in cells.
  function Taken(ls: Lists, cells: seq<Anchor>, n: nat): seq<Node>
    requires forall a | a in cells :: a in ls && n < |ls[a]|
  {
    seq(|cells|, k requires 0 <= k < |cells| => assert cells[k] in cells; ls[cells[k]][n])
  }

  // From position i on, the nodes of s are chained to each other and to null.
  ghost predicate ChainedFrom(m: Memory, s: seq<Node>, i: nat) {
    forall k: nat {:trigger Leads(m, s, k)} | i <= k < |s| :: Leads(m, s, k)
  }

  // ----- the log and the stages it leads back through -----

  // Entry i took its node off stage i and led to stage i + 1; it still points to what followed it.
  ghost predicate UnlinkedOk(m: Memory, st: Lists, st': Lists, node: Node, prev: Node?) {
    var a := node.home;
    && a in st
    && var s := st[a];
    && NoDup(s) && node in s
    && var k := IndexOf(s, node);
    && prev == Before(s, k) && st' == st[a := Minus(s, {node})] && Leads(m, s, k)
  }

  // Entry i took a column out of stage i; the values are chained to each other.
  ghost predicate ColumnOk(m: Memory, st: Lists, st': Lists, table: Node, n: nat, variable: Node, values: Node?) {
    && HasColumn(st, table, n)
    && var cells := Cells(st, table);
    && var taken := Taken(st, cells, n);
    && (forall k | 0 <= k < |cells| :: taken[k].home == cells[k] && NoDup(st[cells[k]]))
    && st' == Cut(st, cells, 0, |cells|, n) && variable == taken[0] && variable in m.next
    && values == Head(taken[1..]) && ChainedFrom(m, taken, 1)
  }

  ghost predicate Records(m: Memory, st: Lists, st': Lists, d: Deletion) {
    match d
    case Unlinked(node, prev, _) => UnlinkedOk(m, st, st', node, prev)
    case Column(table, n, variable, values, _) => ColumnOk(m, st, st', table, n, variable, values)
  }

  // The nodes that a deletion took off their lists.
  ghost function Gone(st: Lists, d: Deletion): set<Node> {
    match d
    case Unlinked(node, _, _) => {node}
    case Column(table, n, _, _, _) => if HasColumn(st, table, n) then set x | x in Taken(st, Cells(st, table), n) else {}
  }

  ghost predicate IsOff(ls: Lists, x: Node) { x.home in ls && x !in ls[x.home] }

  // What entry i has taken off has been off the lists since.
  ghost predicate EntryOk(m: Memory, stages: seq<Lists>, log: seq<Deletion>, i: nat)
    requires i < |log| && |stages| == |log| + 1
  {
    && Records(m, stages[i], stages[i + 1], log[i])
    && forall j, x | i < j <= |log| && x in Gone(stages[i], log[i]) :: IsOff(stages[j], x)
  }

  ghost predicate LogOk(m: Memory, stages: seq<Lists>, log: seq<Deletion>) {
    && |stages| == |log| + 1
    && forall i: nat {:trigger EntryOk(m, stages, log, i)} | i < |log| :: EntryOk(m, stages, log, i)
  }

  // Between m and m', only pointers of nodes on the lists changed.
  ghost predicate ChangesOnly(m: Memory, m': Memory, ls: Lists) {
    m'.next.Keys == m.next.Keys && forall y | y in m.next && IsOff(ls, y) :: m'.next[y] == m.next[y]
  }

  // All lists of ls' have elements of those of ls only.
  ghost predicate Sublists(ls': Lists, ls: Lists) {
    ls'.Keys == ls.Keys && forall a | a in ls :: forall x | x in ls'[a] :: x in ls[a]
  }

  lemma EntryKept(m: Memory, stages: seq<Lists>, log: seq<Deletion>, i: nat, m': Memory, stages': seq<Lists>, log': seq<Deletion>)
    requires i < |log| && |stages| == |log| + 1 && i < |log'| && |stages'| == |log'| + 1
    requires EntryOk(m, stages, log, i) && log'[i] == log[i] && stages'[i] == stages[i] && stages'[i + 1] == stages[i + 1]
    requires m'.next.Keys == m.next.Keys
    requires forall x | x in Gone(stages[i], log[i]) && x in m.next :: m'.next[x] == m.next[x]
    requires forall j, x | i < j <= |log'| && x in Gone(stages[i], log[i]) :: IsOff(stages'[j], x)
    ensures EntryOk(m', stages', log', i)
  {
    var st := stages[i];
    match log[i]
    case Unlinked(node, prev, _) =>
      var s := st[node.home];
      assert s[IndexOf(s, node)] == node && Leads(m, s, IndexOf(s, node));
    case Column(table, n, _, _, _) =>
      var taken := Taken(st, Cells(st, table), n);
      forall k: nat | 1 <= k < |taken| ensures Leads(m', taken, k) {
        assert Leads(m, taken, k) && taken[k] in taken && taken[k] in Gone(st, log[i]);
      }
  }

  // The entries before n stay as they are, while pointers on the lists of stage n change and the later
  // stages have no more than stage n.
  lemma PrefixKept(m: Memory, stages: seq<Lists>, log: seq<Deletion>, n: nat, m': Memory, stages': seq<Lists>, log': seq<Deletion>)
    requires LogOk(m, stages, log) && n <= |log| && n <= |log'| && |stages'| == |log'| + 1
    requires log'[..n] == log[..n] && stages'[..n + 1] == stages[..n + 1] && ChangesOnly(m, m', stages[n])
    requires forall j | n < j <= |log'| :: Sublists(stages'[j], stages[n])
    ensures forall i: nat | i < n :: EntryOk(m', stages', log', i)
  {
    forall i: nat | i < n ensures EntryOk(m', stages', log', i) {
      assert EntryOk(m, stages, log, i);
      assert log'[i] == log'[..n][i] && log[i] == log[..n][i];
      forall k: nat | k <= n ensures stages'[k] == stages[k] {
        assert stages'[k] == stages'[..n + 1][k] && stages[k] == stages[..n + 1][k];
      }
      forall j, x | i < j <= |log'| && x in Gone(stages[i], log[i]) ensures IsOff(stages'[j], x) {
        assert IsOff(stages[n], x);
        if j <= n {
          assert IsOff(stages[j], x);
        }
      }
      EntryKept(m, stages, log, i, m', stages', log');
    }
  }

  lemma LogPushed(m: Memory, stages: seq<Lists>, log: seq<Deletion>, d: Deletion, m': Memory, ls': Lists)
    requires LogOk(m, stages, log) && ChangesOnly(m, m', stages[|log|]) && Sublists(ls', stages[|log|])
    requires Records(m', stages[|log|], ls', d)
    requires forall x | x in Gone(stages[|log|], d) :: IsOff(ls', x)
    ensures LogOk(m', stages + [ls'], log + [d])
  {
    var stages', log' := stages + [ls'], log + [d];
    PrefixKept(m, stages, log, |log|, m', stages', log');
    assert stages'[|log|] == stages[|log|] && stages'[|log| + 1] == ls' && log'[|log|] == d;
    assert EntryOk(m', stages', log', |log|);
  }

  lemma LogPopped(m: Memory, stages: seq<Lists>, log: seq<Deletion>, m': Memory)
    requires LogOk(m, stages, log) && log != [] && ChangesOnly(m, m', stages[|log| - 1])
    ensures LogOk(m', stages[..|log|], log[..|log| - 1])
  {
    PrefixKept(m, stages, log, |log| - 1, m', stages[..|log|], log[..|log| - 1]);
  }

  lemma MinusSub(ls: Lists, a: Anchor, x: Node)
    requires a in ls
    ensures Sublists(ls[a := Minus(ls[a], {x})], ls)
  {
    forall y | y in Minus(ls[a], {x}) ensures y in ls[a] {
      MinusIn(ls[a], {x}, y);
    }
  }

  // What unlinking and relinking do to memory, lists and log together.
  lemma Unlinks(m: Memory, stages: seq<Lists>, log: seq<Deletion>, d: Deletion)
    requires LogOk(m, stages, log) && ListsOk(m, stages[|log|]) && d.Unlinked? && d.node.home in stages[|log|]
    requires var s := stages[|log|][d.node.home]; d.node in s && d.prev == Before(s, IndexOf(s, d.node))
    ensures var a := d.node.home;
            var s := stages[|log|][a];
            var m' := Bent(m, a, d.prev, After(s, IndexOf(s, d.node)));
            var lists' := stages[|log|][a := Minus(s, {d.node})];
            Leads(m, s, IndexOf(s, d.node)) && ListsOk(m', lists') && LogOk(m', stages + [lists'], log + [d])
    ensures d.prev == null || d.prev in m.next
  {
    var lists, a := stages[|log|], d.node.home;
    var s := lists[a];
    var i := IndexOf(s, d.node);
    assert ListOk(m, lists, a) && Leads(m, s, i);
    if i > 0 {
      assert Leads(m, s, i - 1);
      NoDupAt(s, i, i - 1);
    }
    ChainedBypassed(m, a, s, i);
    MinusNoDup(s, {d.node});
    MinusIn(s, {d.node}, d.node);
    ListsOkChanged(m, lists, a, d.prev, After(s, i), Minus(s, {d.node}));
    MinusSub(lists, a, d.node);
    LogPushed(m, stages, log, d, Bent(m, a, d.prev, After(s, i)), lists[a := Minus(s, {d.node})]);
  }

  lemma Relinks(m: Memory, stages: seq<Lists>, log: seq<Deletion>)
    requires LogOk(m, stages, log) && ListsOk(m, stages[|log|]) && log != [] && log[|log| - 1].Unlinked?
    ensures var n := |log| - 1;
            var d := log[n];
            var a := d.node.home;
            var m' := Bent(m, a, d.prev, d.node);
            && a in m.first && d.node in m.next && (d.prev == null || d.prev in m.next)
            && m.next[d.node] == (if d.prev == null then m.first[a] else m.next[d.prev])
            && stages[n].Keys == stages[n + 1].Keys
            && ListsOk(m', stages[n]) && LogOk(m', stages[..n + 1], log[..n])
  {
    var n := |log| - 1;
    var d := log[n];
    var a := d.node.home;
    assert EntryOk(m, stages, log, n);
    var s := stages[n][a];
    var i := IndexOf(s, d.node);
    var t := Minus(s, {d.node});
    MinusOne(s, i);
    assert ListOk(m, stages[n + 1], a);
    if i > 0 {
      assert t[i - 1] == s[i - 1] && Leads(m, t, i - 1);
      assert m.next[d.node] == m.next[d.prev] == After(s, i);
      MinusIn(s, {d.node}, s[i - 1]);
      assert s[i - 1] in t && s[i - 1].home == a;
    } else {
      assert m.next[d.node] == m.first[a] == After(s, i);
    }
    ChainedRelinked(m, a, s, i);
    ListsOkChanged(m, stages[n + 1], a, d.prev, d.node, s);
    LogPopped(m, stages, log, Bent(m, a, d.prev, d.node));
    assert stages[n] == stages[n + 1][a := s];
  }
}
