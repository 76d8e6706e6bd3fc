/**
  Architecture diagrams: nodes are bucketed by role, laid out row by row on a grid,
  and joined by a spine of edges between neighbouring cells.

  Node ids are the sanitized ids the diagram is written with.
 */
module GridLayout {

  datatype Role = External | Data | Service | Api | Frontend | AnyOther
  datatype Node = Node(id: string, role: Role)
  datatype Component = Component(id: string, row: nat, col: nat)
  datatype Edge = Edge(from: string, to: string)
  datatype Diagram =
    | NoNodes
    | Diagram(components: seq<Component>, connections: seq<Edge>, cols: nat, width: int, height: int)

  const LAYERS := 5
  const SERVICE_LAYER := 2
  const CELL_W := 132
  const CELL_H := 58
  const GAP_X := 40
  const GAP_Y := 64
  const ORIGIN_X := 40
  const ORIGIN_Y := 72

  // ---- the shape of a layout

  /** Each cell is right of the one before it, or starts the next row. */
  predicate Follows(c: Component, d: Component) {
    (d.row == c.row && d.col == c.col + 1) || (d.row == c.row + 1 && d.col == 0)
  }

  predicate Stairs(cs: seq<Component>) {
    && (|cs| > 0 ==> cs[0].row == 0 && cs[0].col == 0)
    && forall k :: 0 < k < |cs| ==> Follows(cs[k - 1], cs[k])
  }

  predicate DistinctIds(cs: seq<Component>) {
    forall i, j :: 0 <= i < j < |cs| ==> cs[i].id != cs[j].id
  }

  predicate Precedes(c: Component, d: Component) {
    c.row < d.row || (c.row == d.row && c.col < d.col)
  }

  /** Later cells lie further on, so no cell is used twice. */
  lemma {:induction false} StairsAscend(cs: seq<Component>, i: nat, j: nat)
    requires Stairs(cs) && i < j < |cs|
    ensures Precedes(cs[i], cs[j])
    decreases j
  {
    assert Follows(cs[j - 1], cs[j]);
    if i < j - 1 { StairsAscend(cs, i, j - 1); }
  }

  /** Left of every cell is another, up to column zero. */
  lemma {:induction false} NoColumnGaps(cs: seq<Component>, k: nat, col: nat)
    requires Stairs(cs) && k < |cs| && col <= cs[k].col
    ensures exists j :: 0 <= j <= k && cs[j].row == cs[k].row && cs[j].col == col
  {
    if col < cs[k].col {
      assert k > 0 && Follows(cs[k - 1], cs[k]);
      NoColumnGaps(cs, k - 1, col);
    }
  }

  /** Above every cell is a row, up to row zero. */
  lemma {:induction false} NoRowGaps(cs: seq<Component>, k: nat, row: nat)
    requires Stairs(cs) && k < |cs| && row <= cs[k].row
    ensures exists j :: 0 <= j <= k && cs[j].row == row
  {
    if row < cs[k].row {
      assert k > 0 && Follows(cs[k - 1], cs[k]);
      NoRowGaps(cs, k - 1, row);
    }
  }

  // ---- the spine

  function RowItems(cs: seq<Component>, row: nat): seq<Component> {
    if |cs| == 0 then []
    else RowItems(cs[..|cs| - 1], row) + if cs[|cs| - 1].row == row then [cs[|cs| - 1]] else []
  }

  function InsertByCol(c: Component, s: seq<Component>): seq<Component> {
    if |s| == 0 then [c]
    else if s[|s| - 1].col <= c.col then s + [c]
    else InsertByCol(c, s[..|s| - 1]) + [s[|s| - 1]]
  }

  /** A stable sort by column. */
  function ByCol(s: seq<Component>): seq<Component> {
    if |s| == 0 then [] else InsertByCol(s[|s| - 1], ByCol(s[..|s| - 1]))
  }

  function InsertRow(row: nat, rows: seq<nat>): seq<nat> {
    if |rows| == 0 then [row]
    else if rows[|rows| - 1] == row then rows
    else if rows[|rows| - 1] < row then rows + [row]
    else InsertRow(row, rows[..|rows| - 1]) + [rows[|rows| - 1]]
  }

  /** The rows in use, in order. */
  function RowsOf(cs: seq<Component>): seq<nat> {
    if |cs| == 0 then [] else InsertRow(cs[|cs| - 1].row, RowsOf(cs[..|cs| - 1]))
  }

  function Items(cs: seq<Component>, row: nat): seq<Component> {
    ByCol(RowItems(cs, row))
  }

  /** The cells row by row, each row in column order. */
  function Groups(cs: seq<Component>, rows: seq<nat>): seq<seq<Component>> {
    seq(|rows|, k requires 0 <= k < |rows| => Items(cs, rows[k]))
  }

  /** Edges between neighbours in a row. */
  function Links(s: seq<Component>): seq<Edge> {
    if |s| < 2 then [] else Links(s[..|s| - 1]) + [Edge(s[|s| - 2].id, s[|s| - 1].id)]
  }

  /** The edge between the first cells of two rows. */
  function Riser(upper: seq<Component>, lower: seq<Component>): seq<Edge> {
    if |upper| == 0 || |lower| == 0 || upper[0].id == lower[0].id then [] else [Edge(upper[0].id, lower[0].id)]
  }

  function Across(groups: seq<seq<Component>>): seq<Edge> {
    if |groups| == 0 then [] else Across(groups[..|groups| - 1]) + Links(groups[|groups| - 1])
  }

  function Risers(groups: seq<seq<Component>>): seq<Edge> {
    if |groups| < 2 then []
    else Risers(groups[..|groups| - 1]) + Riser(groups[|groups| - 2], groups[|groups| - 1])
  }

  function Spine(cs: seq<Component>): seq<Edge> {
    Across(Groups(cs, RowsOf(cs))) + Risers(Groups(cs, RowsOf(cs)))
  }

  method LinkRow(items: seq<Component>, connections: seq<Edge>) returns (more: seq<Edge>)
    ensures more == connections + Links(items)
  {
    more := connections;
    for k := 0 to |items|
      invariant more == connections + Links(items[..k])
    {
      assert items[..k + 1][..k] == items[..k];
      if k > 0 {
        more := more + [Edge(items[k - 1].id, items[k].id)];
      }
    }
    assert items[..|items|] == items;
  }

  method GroupByRow(cs: seq<Component>) returns (groups: seq<seq<Component>>)
    ensures groups == Groups(cs, RowsOf(cs))
  {
    var rows := RowsOf(cs);
    groups := [];
    for k := 0 to |rows|
      invariant groups == Groups(cs, rows[..k])
    {
      assert rows[..k + 1][..k] == rows[..k];
      groups := groups + [Items(cs, rows[k])];
    }
    assert rows[..|rows|] == rows;
  }

  method Connect(groups: seq<seq<Component>>) returns (connections: seq<Edge>)
    ensures connections == Across(groups) + Risers(groups)
  {
    connections := [];
    for k := 0 to |groups|
      invariant connections == Across(groups[..k])
    {
      assert groups[..k + 1][..k] == groups[..k];
      connections := LinkRow(groups[k], connections);
    }
    assert groups[..|groups|] == groups;
    for k := 0 to |groups|
      invariant connections == Across(groups) + Risers(groups[..k])
    {
      assert groups[..k + 1][..k] == groups[..k];
      if k > 0 {
        connections := connections + Riser(groups[k - 1], groups[k]);
      }
    }
  }

  method GridSpine(cs: seq<Component>) returns (connections: seq<Edge>)
    ensures connections == Spine(cs)
  {
    var groups := GroupByRow(cs);
    connections := Connect(groups);
  }

  // ---- what a further cell adds to the spine

  function UpTo(n: nat): seq<nat> {
    if n == 0 then [] else UpTo(n - 1) + [n - 1]
  }

  lemma {:induction false} UpToLength(n: nat)
    ensures |UpTo(n)| == n && forall k :: 0 <= k < n ==> UpTo(n)[k] == k
  {
    if n > 0 { UpToLength(n - 1); }
  }

  /** On a staircase each row holds columns 0, 1, 2, ... in order, and the last row ends the list. */
  predicate RowIs(items: seq<Component>, row: nat) {
    |items| > 0 && forall k :: 0 <= k < |items| ==> items[k].row == row && items[k].col == k
  }

  lemma {:induction false} StairsRows(cs: seq<Component>, row: nat)
    requires Stairs(cs) && |cs| > 0
    ensures var last := cs[|cs| - 1];
      && (row <= last.row ==> RowIs(RowItems(cs, row), row))
      && (row > last.row ==> RowItems(cs, row) == [])
      && (row == last.row ==> RowItems(cs, row)[|RowItems(cs, row)| - 1] == last)
  {
    if |cs| > 1 {
      StairsRows(cs[..|cs| - 1], row);
      assert Follows(cs[|cs| - 2], cs[|cs| - 1]);
    } else {
      assert RowItems(cs[..0], row) == [];
    }
  }

  lemma {:induction false} SortedStays(items: seq<Component>)
    requires forall i, j :: 0 <= i < j < |items| ==> items[i].col <= items[j].col
    ensures ByCol(items) == items
  {
    if |items| > 0 { SortedStays(items[..|items| - 1]); }
  }

  lemma {:induction false} ItemsAre(cs: seq<Component>, row: nat)
    requires Stairs(cs) && |cs| > 0
    ensures Items(cs, row) == RowItems(cs, row)
  {
    StairsRows(cs, row);
    if row <= cs[|cs| - 1].row {
      SortedStays(RowItems(cs, row));
    }
  }

  lemma {:induction false} StairsRowsOf(cs: seq<Component>)
    requires Stairs(cs) && |cs| > 0
    ensures RowsOf(cs) == UpTo(cs[|cs| - 1].row + 1)
  {
    if |cs| > 1 {
      StairsRowsOf(cs[..|cs| - 1]);
      assert Follows(cs[|cs| - 2], cs[|cs| - 1]);
      UpToLength(cs[|cs| - 2].row + 1);
    } else {
      assert RowsOf(cs[..0]) == [];
      assert UpTo(0) == [];
    }
  }

  lemma {:induction false} ItemsElsewhere(cs: seq<Component>, row: nat)
    requires |cs| > 0 && row != cs[|cs| - 1].row
    ensures Items(cs, row) == Items(cs[..|cs| - 1], row)
  {
    assert RowItems(cs, row) == RowItems(cs[..|cs| - 1], row);
  }

  lemma {:induction false} LinksGrow(items: seq<Component>, c: Component)
    requires |items| > 0
    ensures Links(items + [c]) == Links(items) + [Edge(items[|items| - 1].id, c.id)]
  {
    assert (items + [c])[..|items|] == items;
  }

  lemma {:induction false} RowItemsFromCs(cs: seq<Component>, row: nat)
    ensures forall c :: c in RowItems(cs, row) ==> c in cs
  {
    if |cs| > 0 {
      RowItemsFromCs(cs[..|cs| - 1], row);
      assert forall c :: c in cs[..|cs| - 1] ==> c in cs;
    }
  }

  /** Rows that gained no cell keep their groups. */
  lemma {:induction false} OldGroups(cs: seq<Component>, n: nat)
    requires |cs| > 0 && n <= cs[|cs| - 1].row
    ensures Groups(cs, UpTo(n)) == Groups(cs[..|cs| - 1], UpTo(n))
  {
    UpToLength(n);
    forall k | 0 <= k < n ensures Items(cs, k) == Items(cs[..|cs| - 1], k) {
      ItemsElsewhere(cs, k);
    }
  }

  lemma {:induction false} GroupsSplit(cs: seq<Component>, n: nat)
    ensures Groups(cs, UpTo(n + 1)) == Groups(cs, UpTo(n)) + [Items(cs, n)]
  {
    UpToLength(n);
    UpToLength(n + 1);
  }

  /** A cell right of the one before it ends its row. */
  lemma {:induction false} RowGains(cs: seq<Component>)
    requires Stairs(cs) && |cs| > 1 && cs[|cs| - 1].col > 0
    ensures var items := Items(cs[..|cs| - 1], cs[|cs| - 1].row);
      && |items| > 0 && items[|items| - 1] == cs[|cs| - 2]
      && Items(cs, cs[|cs| - 1].row) == items + [cs[|cs| - 1]]
  {
    var init := cs[..|cs| - 1];
    var r := cs[|cs| - 1].row;
    assert Follows(cs[|cs| - 2], cs[|cs| - 1]);
    ItemsAre(cs, r);
    ItemsAre(init, r);
    StairsRows(init, r);
  }

  lemma {:induction false} AcrossAdds(groups: seq<seq<Component>>, row: seq<Component>)
    ensures Across(groups + [row]) == Across(groups) + Links(row)
  {
    assert (groups + [row])[..|groups|] == groups;
  }

  lemma {:induction false} RisersAdd(groups: seq<seq<Component>>, row: seq<Component>)
    ensures Risers(groups + [row]) == if groups == [] then [] else Risers(groups) + Riser(groups[|groups| - 1], row)
  {
    assert (groups + [row])[..|groups|] == groups;
  }

  /** A cell at the end of the last row adds one link. */
  lemma {:induction false} LongerRow(groups: seq<seq<Component>>, row: seq<Component>, c: Component)
    requires |row| > 0
    ensures Across(groups + [row + [c]]) == Across(groups + [row]) + [Edge(row[|row| - 1].id, c.id)]
    ensures Risers(groups + [row + [c]]) == Risers(groups + [row])
  {
    AcrossAdds(groups, row);
    AcrossAdds(groups, row + [c]);
    LinksGrow(row, c);
    Associates(Across(groups), Links(row), [Edge(row[|row| - 1].id, c.id)]);
    RisersAdd(groups, row);
    RisersAdd(groups, row + [c]);
    assert (row + [c])[0] == row[0];
  }

  lemma {:induction false} Associates(a: seq<Edge>, b: seq<Edge>, c: seq<Edge>)
    ensures a + (b + c) == (a + b) + c
  {
  }

  /** A cell in a row of its own adds one riser. */
  lemma {:induction false} NewRow(groups: seq<seq<Component>>, upper: seq<Component>, c: Component)
    requires |upper| > 0 && upper[0].id != c.id
    ensures Across(groups + [upper] + [[c]]) == Across(groups + [upper])
    ensures Risers(groups + [upper] + [[c]]) == Risers(groups + [upper]) + [Edge(upper[0].id, c.id)]
  {
    AcrossAdds(groups + [upper], [c]);
    RisersAdd(groups + [upper], [c]);
    assert Links([c]) == [];
  }

  /** The first cell of a row. */
  function FirstOf(cs: seq<Component>, row: nat): Component
    requires |Items(cs, row)| > 0
  {
    Items(cs, row)[0]
  }

  lemma {:induction false} FirstIsThere(cs: seq<Component>, row: nat)
    requires Stairs(cs) && |cs| > 0 && row <= cs[|cs| - 1].row
    ensures |Items(cs, row)| > 0
    ensures FirstOf(cs, row) in cs && FirstOf(cs, row).row == row && FirstOf(cs, row).col == 0
  {
    ItemsAre(cs, row);
    StairsRows(cs, row);
    RowItemsFromCs(cs, row);
  }

  /** A cell that starts a row is alone in it. */
  lemma {:induction false} RowStarts(cs: seq<Component>)
    requires Stairs(cs) && |cs| > 1 && cs[|cs| - 1].col == 0
    ensures cs[|cs| - 1].row == cs[|cs| - 2].row + 1
    ensures Items(cs, cs[|cs| - 1].row) == [cs[|cs| - 1]]
  {
    assert Follows(cs[|cs| - 2], cs[|cs| - 1]);
    ItemsAre(cs, cs[|cs| - 1].row);
    StairsRows(cs[..|cs| - 1], cs[|cs| - 1].row);
  }

  /** The cell a further cell is joined to: its left neighbour, or the first of the row above. */
  function Parent(cs: seq<Component>): Component
    requires Stairs(cs) && |cs| > 1
  {
    if cs[|cs| - 1].col > 0 then cs[|cs| - 2]
    else
      RowStarts(cs);
      FirstIsThere(cs[..|cs| - 1], cs[|cs| - 1].row - 1);
      FirstOf(cs[..|cs| - 1], cs[|cs| - 1].row - 1)
  }

  lemma {:induction false} SpineGrowsAcross(cs: seq<Component>)
    requires Stairs(cs) && |cs| > 1 && cs[|cs| - 1].col > 0
    ensures multiset(Spine(cs)) == multiset(Spine(cs[..|cs| - 1])) + multiset{Edge(cs[|cs| - 2].id, cs[|cs| - 1].id)}
  {
    var init := cs[..|cs| - 1];
    var c := cs[|cs| - 1];
    assert Follows(cs[|cs| - 2], c);
    StairsRowsOf(cs);
    StairsRowsOf(init);
    GroupsSplit(cs, c.row);
    GroupsSplit(init, c.row);
    OldGroups(cs, c.row);
    RowGains(cs);
    var above := Groups(init, UpTo(c.row));
    var row := Items(init, c.row);
    LongerRow(above, row, c);
    GrowsByOne(Across(above + [row]), Risers(above + [row]), Edge(cs[|cs| - 2].id, c.id));
  }

  /** The groups of a layout that has just started a row, in terms of the groups before. */
  lemma {:induction false} GroupsGrowDown(cs: seq<Component>)
    requires Stairs(cs) && |cs| > 1 && cs[|cs| - 1].col == 0
    ensures var init := cs[..|cs| - 1];
      var r := cs[|cs| - 1].row;
      && r > 0
      && Groups(init, RowsOf(init)) == Groups(init, UpTo(r - 1)) + [Items(init, r - 1)]
      && Groups(cs, RowsOf(cs)) == Groups(init, UpTo(r - 1)) + [Items(init, r - 1)] + [[cs[|cs| - 1]]]
  {
    var init := cs[..|cs| - 1];
    RowStarts(cs);
    var r := cs[|cs| - 1].row;
    var m := r - 1;
    GroupsAbove(init, m, r);
    GroupsBelow(cs, init, r);
  }

  lemma {:induction false} GroupsAbove(init: seq<Component>, m: nat, r: nat)
    requires Stairs(init) && |init| > 0 && init[|init| - 1].row == m && r == m + 1
    ensures Groups(init, RowsOf(init)) == Groups(init, UpTo(m)) + [Items(init, m)]
    ensures Groups(init, UpTo(r)) == Groups(init, UpTo(m)) + [Items(init, m)]
  {
    SplitAtEnd(init, m);
    GroupsSplit(init, m);
  }

  lemma {:induction false} GroupsBelow(cs: seq<Component>, init: seq<Component>, r: nat)
    requires Stairs(cs) && |cs| > 1 && cs[|cs| - 1].col == 0 && cs[|cs| - 1].row == r && init == cs[..|cs| - 1]
    ensures Groups(cs, RowsOf(cs)) == Groups(init, UpTo(r)) + [[cs[|cs| - 1]]]
  {
    RowStarts(cs);
    SplitAtEnd(cs, r);
    OldGroups(cs, r);
  }

  /** The groups of a layout are those of the rows above and its last row. */
  lemma {:induction false} SplitAtEnd(cs: seq<Component>, r: nat)
    requires Stairs(cs) && |cs| > 0 && cs[|cs| - 1].row == r
    ensures Groups(cs, RowsOf(cs)) == Groups(cs, UpTo(r)) + [Items(cs, r)]
  {
    StairsRowsOf(cs);
    GroupsSplit(cs, r);
  }

  lemma {:induction false} ParentAbove(cs: seq<Component>)
    requires Stairs(cs) && DistinctIds(cs) && |cs| > 1 && cs[|cs| - 1].col == 0
    ensures var r := cs[|cs| - 1].row;
      && r > 0
      && |Items(cs[..|cs| - 1], r - 1)| > 0
      && Items(cs[..|cs| - 1], r - 1)[0] == Parent(cs)
      && Parent(cs).id != cs[|cs| - 1].id
  {
    var init := cs[..|cs| - 1];
    RowStarts(cs);
    FirstIsThere(init, cs[|cs| - 1].row - 1);
    var k :| 0 <= k < |init| && init[k] == FirstOf(init, cs[|cs| - 1].row - 1);
    assert cs[k].id != cs[|cs| - 1].id;
  }

  lemma {:induction false} SpineGrowsDown(cs: seq<Component>)
    requires Stairs(cs) && DistinctIds(cs) && |cs| > 1 && cs[|cs| - 1].col == 0
    ensures multiset(Spine(cs)) == multiset(Spine(cs[..|cs| - 1])) + multiset{Edge(Parent(cs).id, cs[|cs| - 1].id)}
  {
    ParentAbove(cs);
    GroupsGrowDown(cs);
    var r := cs[|cs| - 1].row;
    NewRow(Groups(cs[..|cs| - 1], UpTo(r - 1)), Items(cs[..|cs| - 1], r - 1), cs[|cs| - 1]);
  }

  /** Each further cell adds one edge, from its parent. */
  lemma {:induction false} SpineGrows(cs: seq<Component>)
    requires Stairs(cs) && DistinctIds(cs) && |cs| > 1
    ensures multiset(Spine(cs)) == multiset(Spine(cs[..|cs| - 1])) + multiset{Edge(Parent(cs).id, cs[|cs| - 1].id)}
    ensures |Spine(cs)| == |Spine(cs[..|cs| - 1])| + 1
  {
    if cs[|cs| - 1].col > 0 {
      SpineGrowsAcross(cs);
    } else {
      SpineGrowsDown(cs);
    }
    assert |multiset(Spine(cs))| == |multiset(Spine(cs[..|cs| - 1]))| + 1;
  }

  lemma {:induction false} GrowsByOne(s: seq<Edge>, t: seq<Edge>, e: Edge)
    ensures multiset(s + [e] + t) == multiset(s + t) + multiset{e}
  {
  }

  lemma {:induction false} ParentIsNeighbour(cs: seq<Component>)
    requires Stairs(cs) && |cs| > 1
    ensures Parent(cs) in cs[..|cs| - 1]
    ensures Neighbours(Parent(cs), cs[|cs| - 1])
  {
    if cs[|cs| - 1].col == 0 {
      RowStarts(cs);
      FirstIsThere(cs[..|cs| - 1], cs[|cs| - 1].row - 1);
    } else {
      LeftIsNeighbour(cs);
    }
  }

  lemma {:induction false} LeftIsNeighbour(cs: seq<Component>)
    requires Stairs(cs) && |cs| > 1 && cs[|cs| - 1].col > 0
    ensures cs[|cs| - 2] in cs[..|cs| - 1]
    ensures Neighbours(cs[|cs| - 2], cs[|cs| - 1])
  {
    assert Follows(cs[|cs| - 2], cs[|cs| - 1]);
    assert cs[..|cs| - 1][|cs| - 2] == cs[|cs| - 2];
  }

  // ---- the spine is a spanning tree of neighbours

  /** Adjacent in a row, or first cells of adjacent rows. */
  predicate Neighbours(c: Component, d: Component) {
    (d.row == c.row && d.col == c.col + 1) || (d.row == c.row + 1 && c.col == 0 && d.col == 0)
  }

  predicate Linked(edges: seq<Edge>, a: string, b: string) {
    Edge(a, b) in edges || Edge(b, a) in edges
  }

  predicate Path(edges: seq<Edge>, p: seq<string>) {
    |p| > 0 && forall k :: 0 <= k < |p| - 1 ==> Linked(edges, p[k], p[k + 1])
  }

  ghost predicate Connected(edges: seq<Edge>, a: string, b: string) {
    exists p :: Path(edges, p) && p[0] == a && p[|p| - 1] == b
  }

  lemma {:induction false} ConnectedGrows(edges: seq<Edge>, more: seq<Edge>, a: string, b: string)
    requires Connected(edges, a, b) && forall e <- edges :: e in more
    ensures Connected(more, a, b)
  {
    var p :| Path(edges, p) && p[0] == a && p[|p| - 1] == b;
    assert Path(more, p);
  }

  lemma {:induction false} ConnectedStep(edges: seq<Edge>, a: string, b: string, c: string)
    requires Connected(edges, a, b) && Linked(edges, b, c)
    ensures Connected(edges, a, c)
  {
    var p :| Path(edges, p) && p[0] == a && p[|p| - 1] == b;
    assert Path(edges, p + [c]);
  }

  /** Every edge joins two cells that are neighbours on the grid. */
  ghost predicate JoinsNeighbours(edges: seq<Edge>, cs: seq<Component>) {
    forall e <- edges :: exists c, d :: c in cs && d in cs && e == Edge(c.id, d.id) && Neighbours(c, d)
  }

  lemma {:induction false} SpineSize(cs: seq<Component>)
    requires Stairs(cs) && DistinctIds(cs) && |cs| > 0
    ensures |Spine(cs)| == |cs| - 1
  {
    if |cs| == 1 {
      OneCell(cs);
    } else {
      SpineSize(cs[..|cs| - 1]);
      SpineGrows(cs);
    }
  }

  lemma {:induction false} SpineMembers(cs: seq<Component>, e: Edge)
    requires Stairs(cs) && DistinctIds(cs) && |cs| > 1
    ensures e in Spine(cs) <==> e in Spine(cs[..|cs| - 1]) || e == Edge(Parent(cs).id, cs[|cs| - 1].id)
  {
    SpineGrows(cs);
    assert e in Spine(cs) <==> e in multiset(Spine(cs));
    assert e in Spine(cs[..|cs| - 1]) <==> e in multiset(Spine(cs[..|cs| - 1]));
  }

  lemma {:induction false} SpineIncludes(cs: seq<Component>)
    requires Stairs(cs) && DistinctIds(cs) && |cs| > 1
    ensures forall e <- Spine(cs[..|cs| - 1]) :: e in Spine(cs)
    ensures Linked(Spine(cs), Parent(cs).id, cs[|cs| - 1].id)
  {
    forall e <- Spine(cs[..|cs| - 1]) ensures e in Spine(cs) { SpineMembers(cs, e); }
    SpineMembers(cs, Edge(Parent(cs).id, cs[|cs| - 1].id));
  }

  lemma {:induction false} SpineJoins(cs: seq<Component>, e: Edge) returns (c: Component, d: Component)
    requires Stairs(cs) && DistinctIds(cs) && |cs| > 0 && e in Spine(cs)
    ensures c in cs && d in cs && e == Edge(c.id, d.id) && Neighbours(c, d)
  {
    c, d := cs[0], cs[0];
    if |cs| == 1 {
      OneCell(cs);
    } else {
      SpineMembers(cs, e);
      ParentIsNeighbour(cs);
      c, d := Parent(cs), cs[|cs| - 1];
      if e in Spine(cs[..|cs| - 1]) { c, d := SpineJoins(cs[..|cs| - 1], e); }
    }
  }

  lemma {:induction false} SpineReaches(cs: seq<Component>, k: nat)
    requires Stairs(cs) && DistinctIds(cs) && k < |cs|
    ensures Connected(Spine(cs), cs[0].id, cs[k].id)
    decreases |cs|
  {
    if |cs| == 1 {
      OneCell(cs);
    } else {
      var init := cs[..|cs| - 1];
      SpineIncludes(cs);
      if k < |init| {
        SpineReaches(init, k);
        ConnectedGrows(Spine(init), Spine(cs), cs[0].id, cs[k].id);
      } else {
        ParentIsNeighbour(cs);
        var j :| 0 <= j < |init| && init[j] == Parent(cs);
        SpineReaches(init, j);
        ConnectedGrows(Spine(init), Spine(cs), cs[0].id, Parent(cs).id);
        ConnectedStep(Spine(cs), cs[0].id, Parent(cs).id, cs[k].id);
      }
    }
  }

  /** A spanning tree: one edge fewer than cells, every cell reached from the first; and neighbours only. */
  lemma {:induction false} SpineSpans(cs: seq<Component>)
    requires Stairs(cs) && DistinctIds(cs) && |cs| > 0
    ensures |Spine(cs)| == |cs| - 1
    ensures forall c <- cs :: Connected(Spine(cs), cs[0].id, c.id)
    ensures JoinsNeighbours(Spine(cs), cs)
  {
    SpineSize(cs);
    forall c <- cs ensures Connected(Spine(cs), cs[0].id, c.id) {
      var k :| 0 <= k < |cs| && cs[k] == c;
      SpineReaches(cs, k);
    }
    forall e <- Spine(cs) ensures exists c, d :: c in cs && d in cs && e == Edge(c.id, d.id) && Neighbours(c, d) {
      var c, d := SpineJoins(cs, e);
    }
  }

  lemma {:induction false} OneCell(cs: seq<Component>)
    requires Stairs(cs) && |cs| == 1
    ensures Spine(cs) == [] && Connected([], cs[0].id, cs[0].id)
  {
    StairsRowsOf(cs);
    UpToLength(1);
    OneGroup(Groups(cs, UpTo(1)), cs[0]) by {
      ItemsAre(cs, 0);
      assert cs[..0] == [] && RowItems(cs[..0], 0) == [];
    }
    assert Path([], [cs[0].id]);
  }

  lemma {:induction false} OneGroup(groups: seq<seq<Component>>, c: Component)
    requires groups == [[c]]
    ensures Across(groups) + Risers(groups) == []
  {
    assert groups[..0] == [] && Links([c]) == [];
  }

  // ---- placing the nodes

  /** The layer of a role, from the top; an unknown role is a service. */
  function Layer(role: Role): (k: nat)
    ensures k < LAYERS
  {
    match role
    case External => 0
    case Data => 1
    case Service => SERVICE_LAYER
    case Api => 3
    case Frontend => 4
    case AnyOther => SERVICE_LAYER
  }

  function Bucket(nodes: seq<Node>, layer: nat): seq<Node> {
    if |nodes| == 0 then []
    else Bucket(nodes[..|nodes| - 1], layer) + if Layer(nodes[|nodes| - 1].role) == layer
        then [nodes[|nodes| - 1]] else []
  }

  /** The nodes layer by layer, each layer in the order given. */
  function ByLayer(nodes: seq<Node>, n: nat): seq<Node> {
    if n == 0 then [] else ByLayer(nodes, n - 1) + Bucket(nodes, n - 1)
  }

  /** Cells hold nodes one for one, in order. */
  predicate Holds(cs: seq<Component>, nodes: seq<Node>) {
    |cs| == |nodes| && forall i :: 0 <= i < |cs| ==> cs[i].id == nodes[i].id
  }

  /** A bucket holds each node of its layer as often as it was given, and no other. */
  lemma {:induction false} BucketCounts(nodes: seq<Node>, layer: nat, x: Node)
    ensures multiset(Bucket(nodes, layer))[x] == if Layer(x.role) == layer then multiset(nodes)[x] else 0
  {
    if |nodes| > 0 {
      BucketCounts(nodes[..|nodes| - 1], layer, x);
      assert nodes == nodes[..|nodes| - 1] + [nodes[|nodes| - 1]];
    }
  }

  lemma {:induction false} FiveLayers(nodes: seq<Node>)
    ensures ByLayer(nodes, LAYERS)
            == Bucket(nodes, 0) + Bucket(nodes, 1) + Bucket(nodes, 2) + Bucket(nodes, 3) + Bucket(nodes, 4)
  {
    assert ByLayer(nodes, 1) == Bucket(nodes, 0);
    assert ByLayer(nodes, 3) == Bucket(nodes, 0) + Bucket(nodes, 1) + Bucket(nodes, 2);
  }

  lemma {:induction false} FiveCounts(a: seq<Node>, b: seq<Node>, c: seq<Node>, d: seq<Node>, e: seq<Node>, x: Node)
    ensures multiset(a + b + c + d + e)[x]
            == multiset(a)[x] + multiset(b)[x] + multiset(c)[x] + multiset(d)[x] + multiset(e)[x]
  {
  }

  /** Layer by layer, the nodes are the ones given, each as often. */
  lemma {:induction false} EachPlacedOnce(nodes: seq<Node>)
    ensures multiset(ByLayer(nodes, LAYERS)) == multiset(nodes)
  {
    FiveLayers(nodes);
    forall x ensures multiset(ByLayer(nodes, LAYERS))[x] == multiset(nodes)[x] {
      FiveCounts(Bucket(nodes, 0), Bucket(nodes, 1), Bucket(nodes, 2), Bucket(nodes, 3), Bucket(nodes, 4), x);
      BucketCounts(nodes, 0, x);
      BucketCounts(nodes, 1, x);
      BucketCounts(nodes, 2, x);
      BucketCounts(nodes, 3, x);
      BucketCounts(nodes, 4, x);
    }
  }

  /** Counting cells off: right by one, or to the start of the next row. */
  function CellCol(i: nat, cols: nat): nat {
    if i == 0 then 0 else if CellCol(i - 1, cols) + 1 == cols then 0 else CellCol(i - 1, cols) + 1
  }

  function CellRow(i: nat, cols: nat): nat {
    if i == 0 then 0 else CellRow(i - 1, cols) + if CellCol(i, cols) == 0 then 1 else 0
  }

  /** Which is division with remainder. */
  lemma {:induction false} CellIsDivision(i: nat, cols: nat)
    requires 3 <= cols <= 6
    ensures CellRow(i, cols) == i / cols && CellCol(i, cols) == i % cols
  {
    if i > 0 {
      CellIsDivision(i - 1, cols);
      NextCell(i - 1, cols);
    }
  }

  lemma {:induction false} NextCell(i: nat, cols: nat)
    requires 3 <= cols <= 6
    ensures (i + 1) / cols == i / cols + (if (i + 1) % cols == 0 then 1 else 0)
    ensures (i + 1) % cols == if i % cols == cols - 1 then 0 else i % cols + 1
  {
    if cols == 3 {
    } else if cols == 4 {
    } else if cols == 5 {
    } else {
      assert cols == 6;
    }
  }

  lemma {:induction false} CellWithin(i: nat, cols: nat)
    requires cols > 0
    ensures CellCol(i, cols) < cols
  {
    if i > 0 { CellWithin(i - 1, cols); }
  }

  /** How many rows n cells take, rounded up. */
  function RowsTaken(n: nat, cols: nat): nat {
    if n == 0 then 0 else CellRow(n - 1, cols) + 1
  }

  lemma {:induction false} RowsAreCeiling(n: nat, cols: nat)
    requires 3 <= cols <= 6
    ensures RowsTaken(n, cols) == (n + cols - 1) / cols
  {
    if n > 0 { CellIsDivision(n - 1, cols); }
    if cols == 3 {
    } else if cols == 4 {
    } else if cols == 5 {
    } else {
      assert cols == 6;
    }
  }

  /** The row a layer starts at: every layer above it takes whole rows. */
  function StartRow(nodes: seq<Node>, layer: nat, cols: nat): nat {
    if layer == 0 then 0
    else StartRow(nodes, layer - 1, cols) + RowsTaken(|Bucket(nodes, layer - 1)|, cols)
  }

  /** Layers run from the outside in, unknown roles among the services. */
  lemma {:induction false} LayersAre()
    ensures Layer(External) < Layer(Data) < Layer(Service) < Layer(Api) < Layer(Frontend) == 4
    ensures Layer(AnyOther) == Layer(Service) == 2
  {
  }

  /** A bucket holds its layer's nodes in the order given. */
  lemma {:induction false} BucketIs(nodes: seq<Node>, layer: nat)
    ensures forall n <- Bucket(nodes, layer) :: Layer(n.role) == layer
    ensures forall n :: Bucket(nodes + [n], layer)
                        == Bucket(nodes, layer) + (if Layer(n.role) == layer then [n] else [])
  {
    forall n ensures (nodes + [n])[..|nodes|] == nodes {
    }
    if |nodes| > 0 { BucketIs(nodes[..|nodes| - 1], layer); }
  }

  /** The cells of one bucket, counted off from the start of a row. */
  function BucketCells(items: seq<Node>, row: nat, cols: nat): (cs: seq<Component>)
    ensures |cs| == |items|
  {
    if |items| == 0 then []
    else
      var last := |items| - 1;
      BucketCells(items[..last], row, cols)
      + [Component(items[last].id, row + CellRow(last, cols), CellCol(last, cols))]
  }

  /** The cells of the first layers, each from the start of a row. */
  function Cells(nodes: seq<Node>, layers: nat, cols: nat): seq<Component> {
    if layers == 0 then []
    else
      var above := layers - 1;
      Cells(nodes, above, cols) + BucketCells(Bucket(nodes, above), StartRow(nodes, above, cols), cols)
  }

  lemma {:induction false} CellOfBucket(items: seq<Node>, row: nat, cols: nat, i: nat)
    requires 3 <= cols <= 6 && i < |items|
    ensures BucketCells(items, row, cols)[i] == Component(items[i].id, row + i / cols, i % cols)
  {
    var last := |items| - 1;
    if i < last { CellOfBucket(items[..last], row, cols, i); } else { CellIsDivision(last, cols); }
  }

  lemma {:induction false} StartAdds(nodes: seq<Node>, k: nat, n: nat, cols: nat)
    requires n == k + 1
    ensures StartRow(nodes, n, cols) == StartRow(nodes, k, cols) + RowsTaken(|Bucket(nodes, k)|, cols)
  {
  }

  lemma {:induction false} LayerAdds(nodes: seq<Node>, k: nat, n: nat, cols: nat, items: seq<Node>, row: nat)
    requires n == k + 1 && items == Bucket(nodes, k) && row == StartRow(nodes, k, cols)
    ensures Cells(nodes, n, cols) == Cells(nodes, k, cols) + BucketCells(items, row, cols)
  {
  }

  lemma {:induction false} CellsLength(nodes: seq<Node>, k: nat, cols: nat, cs: seq<Component>)
    requires cs == Cells(nodes, k, cols)
    ensures |cs| == |ByLayer(nodes, k)|
    decreases k
  {
    if k > 0 {
      var m := k - 1;
      var above := Cells(nodes, m, cols);
      LayerAdds(nodes, m, k, cols, Bucket(nodes, m), StartRow(nodes, m, cols));
      CellsLength(nodes, m, cols, above);
    }
  }

  lemma {:induction false} CellsPrefix(nodes: seq<Node>, k: nat, layers: nat, cols: nat, some: seq<Component>,
                                       all: seq<Component>)
    requires k <= layers && some == Cells(nodes, k, cols) && all == Cells(nodes, layers, cols)
    ensures some <= all
    decreases layers
  {
    if k < layers {
      var m := layers - 1;
      var most := Cells(nodes, m, cols);
      LayerAdds(nodes, m, layers, cols, Bucket(nodes, m), StartRow(nodes, m, cols));
      CellsPrefix(nodes, k, m, cols, some, most);
    }
  }

  /**
    The cell of every node: the i-th of its layer is in column i mod cols, i div cols
    rows below the row its layer starts at.
   */
  lemma {:induction false} CellOfNode(nodes: seq<Node>, layers: nat, cols: nat, k: nat, i: nat, at: nat,
                                      cs: seq<Component>)
    requires 3 <= cols <= 6 && k < layers && i < |Bucket(nodes, k)|
    requires at == |ByLayer(nodes, k)| + i && cs == Cells(nodes, layers, cols)
    ensures at < |cs|
    ensures cs[at] == Component(Bucket(nodes, k)[i].id, StartRow(nodes, k, cols) + i / cols, i % cols)
  {
    var n := k + 1;
    CellsLength(nodes, k, cols, Cells(nodes, k, cols));
    CellsPrefix(nodes, n, layers, cols, Cells(nodes, n, cols), cs);
    LayerAdds(nodes, k, n, cols, Bucket(nodes, k), StartRow(nodes, k, cols));
    CellOfBucket(Bucket(nodes, k), StartRow(nodes, k, cols), cols, i);
    LayerCell(Cells(nodes, k, cols), BucketCells(Bucket(nodes, k), StartRow(nodes, k, cols), cols),
              Cells(nodes, n, cols), cs, i);
  }

  lemma {:induction false} LayerCell(above: seq<Component>, layer: seq<Component>, some: seq<Component>,
                                     all: seq<Component>, i: nat)
    requires some == above + layer && some <= all && i < |layer|
    ensures |above| + i < |all| && all[|above| + i] == layer[i]
  {
  }

  predicate EndsAtRow(cs: seq<Component>, row: nat) {
    if |cs| == 0 then row == 0 else row == cs[|cs| - 1].row + 1
  }

  lemma {:induction false} StairsGrow(cs: seq<Component>, c: Component)
    requires Stairs(cs) && if |cs| == 0 then c.row == 0 && c.col == 0 else Follows(cs[|cs| - 1], c)
    ensures Stairs(cs + [c])
  {
  }

  lemma {:induction false} HoldsGrows(cs: seq<Component>, above: seq<Node>, items: seq<Node>, i: nat, c: Component)
    requires i < |items| && Holds(cs, above + items[..i]) && c.id == items[i].id
    ensures Holds(cs + [c], above + items[..i + 1])
  {
    assert above + items[..i + 1] == above + items[..i] + [items[i]];
  }

  predicate WithinCols(cs: seq<Component>, cols: nat) {
    forall c <- cs :: c.col < cols
  }

  /** The next cell of a bucket continues the stairs. */
  lemma {:induction false} NextIsStep(placed: seq<Component>, cs: seq<Component>, row: nat, i: nat, cols: nat,
                                      c: Component)
    requires cols > 0 && EndsAtRow(placed, row)
    requires if i == 0 then cs == placed
             else |cs| > 0 && cs[|cs| - 1].row == row + CellRow(i - 1, cols) && cs[|cs| - 1].col == CellCol(i - 1, cols)
    requires c.row == row + CellRow(i, cols) && c.col == CellCol(i, cols)
    ensures if |cs| == 0 then c.row == 0 && c.col == 0 else Follows(cs[|cs| - 1], c)
  {
  }

  lemma {:induction false} BucketGrows(items: seq<Node>, row: nat, cols: nat, last: nat)
    requires |items| == last + 1
    ensures BucketCells(items, row, cols)
            == BucketCells(items[..last], row, cols)
             + [Component(items[last].id, row + CellRow(last, cols), CellCol(last, cols))]
  {
  }

  lemma {:induction false} WithinGrows(cs: seq<Component>, cols: nat, c: Component)
    requires WithinCols(cs, cols) && c.col < cols
    ensures WithinCols(cs + [c], cols)
  {
  }

  /** A bucket placed from the start of a row continues the stairs above it. */
  lemma {:induction false} BucketClimbs(placed: seq<Component>, above: seq<Node>, items: seq<Node>, row: nat, cols: nat,
                                        cs: seq<Component>)
    requires cols > 0 && Stairs(placed) && EndsAtRow(placed, row) && WithinCols(placed, cols) && Holds(placed, above)
    requires cs == placed + BucketCells(items, row, cols)
    ensures Stairs(cs) && WithinCols(cs, cols) && Holds(cs, above + items)
    ensures |items| > 0 ==> |cs| > 0 && cs[|cs| - 1].row == row + CellRow(|items| - 1, cols)
                            && cs[|cs| - 1].col == CellCol(|items| - 1, cols)
    decreases |items|
  {
    if |items| == 0 {
      assert cs == placed && above + items == above;
    } else {
      var last := |items| - 1;
      var init := items[..last];
      var before := placed + BucketCells(init, row, cols);
      BucketClimbs(placed, above, init, row, cols, before);
      var c := Component(items[last].id, row + CellRow(last, cols), CellCol(last, cols));
      BucketGrows(items, row, cols, last);
      assert cs == before + [c];
      CellWithin(last, cols);
      NextIsStep(placed, before, row, last, cols, c);
      StairsGrow(before, c);
      WithinGrows(before, cols, c);
      assert items[..last + 1] == items;
      HoldsGrows(before, above, items, last, c);
    }
  }

  /** The cells of all layers form stairs from the top left corner and hold the nodes layer by layer. */
  lemma {:induction false} CellsClimb(nodes: seq<Node>, layers: nat, cols: nat, cs: seq<Component>, row: nat)
    requires cols > 0 && cs == Cells(nodes, layers, cols) && row == StartRow(nodes, layers, cols)
    ensures Stairs(cs) && EndsAtRow(cs, row) && WithinCols(cs, cols) && Holds(cs, ByLayer(nodes, layers))
    decreases layers
  {
    if layers > 0 {
      var k := layers - 1;
      var (placed, start) := (Cells(nodes, k, cols), StartRow(nodes, k, cols));
      CellsClimb(nodes, k, cols, placed, start);
      BucketClimbs(placed, ByLayer(nodes, k), Bucket(nodes, k), start, cols, cs);
      if Bucket(nodes, k) == [] { assert cs == placed && row == start; }
    }
  }

  /** One bucket, from the start of a row. */
  method PlaceBucket(items: seq<Node>, row: nat, cols: nat, placed: seq<Component>) returns (cs: seq<Component>)
    requires 3 <= cols <= 6
    ensures cs == placed + BucketCells(items, row, cols)
  {
    cs := placed;
    for i := 0 to |items|
      invariant cs == placed + BucketCells(items[..i], row, cols)
    {
      CellIsDivision(i, cols);
      BucketGrows(items[..i + 1], row, cols, i);
      assert items[..i + 1][..i] == items[..i];
      cs := cs + [Component(items[i].id, row + i / cols, i % cols)];
    }
    assert items[..|items|] == items;
  }

  method Widest(nodes: seq<Node>) returns (widest: nat)
    ensures forall k :: 0 <= k < LAYERS ==> |Bucket(nodes, k)| <= widest
    ensures widest > 0 ==> exists k :: 0 <= k < LAYERS && |Bucket(nodes, k)| == widest
  {
    widest := 0;
    for k := 0 to LAYERS
      invariant widest > 0 ==> exists j :: 0 <= j < k && |Bucket(nodes, j)| == widest
      invariant forall j :: 0 <= j < k ==> |Bucket(nodes, j)| <= widest
    {
      if |Bucket(nodes, k)| > widest {
        widest := |Bucket(nodes, k)|;
      }
    }
  }

  /**
    What a compiled diagram promises: every node once, layer by layer, in a cell of its own inside
    the view box, rows and columns without gaps, and a spine that spans them.
   */
  ghost predicate IsLayout(nodes: seq<Node>, d: Diagram)
    requires d.Diagram?
  {
    var cs := d.components;
    && Holds(cs, ByLayer(nodes, LAYERS)) && multiset(ByLayer(nodes, LAYERS)) == multiset(nodes)
    && (forall i, j :: 0 <= i < j < |cs| ==> Precedes(cs[i], cs[j]))
    && (forall c <- cs :: InViewBox(c, d))
    && (forall k, col :: 0 <= k < |cs| && 0 <= col <= cs[k].col ==> HasCell(cs, cs[k].row, col))
    && (forall k, row :: 0 <= k < |cs| && 0 <= row <= cs[k].row ==> HasCell(cs, row, 0))
    && (DistinctIds(cs) ==>
          && |d.connections| == |cs| - 1
          && (forall c <- cs :: Connected(d.connections, cs[0].id, c.id))
          && JoinsNeighbours(d.connections, cs))
  }

  predicate InViewBox(c: Component, d: Diagram)
    requires d.Diagram?
  {
    && c.col < d.cols
    && ORIGIN_X + c.col * (CELL_W + GAP_X) + CELL_W <= d.width
    && ORIGIN_Y + c.row * (CELL_H + GAP_Y) + CELL_H <= d.height
  }

  ghost predicate HasCell(cs: seq<Component>, row: nat, col: nat) {
    exists c :: c in cs && c.row == row && c.col == col
  }

  lemma {:induction false} StairsHaveCells(cs: seq<Component>)
    requires Stairs(cs)
    ensures forall i, j :: 0 <= i < j < |cs| ==> Precedes(cs[i], cs[j])
    ensures forall k, col :: 0 <= k < |cs| && 0 <= col <= cs[k].col ==> HasCell(cs, cs[k].row, col)
    ensures forall k, row :: 0 <= k < |cs| && 0 <= row <= cs[k].row ==> HasCell(cs, row, 0)
  {
    forall i, j | 0 <= i < j < |cs| ensures Precedes(cs[i], cs[j]) {
      StairsAscend(cs, i, j);
    }
    forall k, col: nat | 0 <= k < |cs| && col <= cs[k].col ensures HasCell(cs, cs[k].row, col) {
      NoColumnGaps(cs, k, col);
    }
    forall k, row: nat | 0 <= k < |cs| && row <= cs[k].row ensures HasCell(cs, row, 0) {
      NoRowGaps(cs, k, row);
      var j :| 0 <= j <= k && cs[j].row == row;
      NoColumnGaps(cs, j, 0);
    }
  }

  /** The view box, large enough for every row and column in use. */
  function Width(cols: nat): int {
    var width := ORIGIN_X + cols * (CELL_W + GAP_X) - GAP_X + 72;
    if width > 320 then width else 320
  }

  function Height(rows: nat): int {
    var height := ORIGIN_Y + (if rows > 1 then rows else 1) * (CELL_H + GAP_Y) - GAP_Y + 88;
    if height > 240 then height else 240
  }

  /** In pixels: columns are 172 apart from 40 on and rows 122 from 72 on, and cells are 132 by 58. */
  lemma {:induction false} ViewBoxInPixels(c: Component, d: Diagram)
    requires d.Diagram? && InViewBox(c, d)
    ensures c.col < d.cols && 40 + 172 * c.col + 132 <= d.width && 72 + 122 * c.row + 58 <= d.height
  {
  }

  lemma {:induction false} StairsFit(cs: seq<Component>, rows: nat)
    requires Stairs(cs) && EndsAtRow(cs, rows)
    ensures forall c <- cs :: c.row < rows
  {
    forall c <- cs ensures c.row < rows {
      var k :| 0 <= k < |cs| && cs[k] == c;
      if k < |cs| - 1 { StairsAscend(cs, k, |cs| - 1); }
    }
  }

  lemma {:induction false} StairsAreLayout(nodes: seq<Node>, cs: seq<Component>, rows: nat, cols: nat)
    requires Stairs(cs) && EndsAtRow(cs, rows) && WithinCols(cs, cols)
    requires nodes != [] && Holds(cs, ByLayer(nodes, LAYERS))
    ensures IsLayout(nodes, Diagram(cs, Spine(cs), cols, Width(cols), Height(rows)))
  {
    EachPlacedOnce(nodes);
    SomethingPlaced(nodes, cs);
    StairsHaveCells(cs);
    StairsFit(cs, rows);
    if DistinctIds(cs) { SpineSpans(cs); }
  }

  /** The layers from the top, each from the start of a row. */
  method PlaceLayers(nodes: seq<Node>, cols: nat) returns (cs: seq<Component>, row: nat)
    requires 3 <= cols <= 6
    ensures cs == Cells(nodes, LAYERS, cols) && row == StartRow(nodes, LAYERS, cols)
  {
    cs, row := [], 0;
    for k := 0 to LAYERS
      invariant cs == Cells(nodes, k, cols) && row == StartRow(nodes, k, cols)
    {
      var items := Bucket(nodes, k);
      LayerAdds(nodes, k, k + 1, cols, items, row);
      StartAdds(nodes, k, k + 1, cols);
      if items != [] {
        cs := PlaceBucket(items, row, cols, cs);
        row := row + RowsTaken(|items|, cols);
      }
    }
  }

  method CompileArchitecture(nodes: seq<Node>) returns (d: Diagram)
    ensures d == NoNodes <==> nodes == []
    ensures d.Diagram? ==> IsLayout(nodes, d)
    ensures d.Diagram? ==> 3 <= d.cols <= 6 && d.components == Cells(nodes, LAYERS, d.cols)
    ensures d.Diagram? ==>
              && (d.cols < 6 ==> forall k :: 0 <= k < LAYERS ==> |Bucket(nodes, k)| <= d.cols)
              && (d.cols > 3 ==> exists k :: 0 <= k < LAYERS && |Bucket(nodes, k)| >= d.cols)
    ensures d.Diagram? ==>
              var rows := StartRow(nodes, LAYERS, d.cols);
              d.width == 172 * d.cols + 72 && d.height == if rows <= 1 then 240 else 122 * rows + 96
    ensures d.Diagram? ==> d.connections == Spine(d.components)
  {
    if nodes == [] {
      return NoNodes;
    }
    var widest := Widest(nodes);
    var cols := if widest < 3 then 3 else if widest > 6 then 6 else widest;
    var components, row := PlaceLayers(nodes, cols);
    var connections := GridSpine(components);
    d := Diagram(components, connections, cols, Width(cols), Height(row));
    CellsClimb(nodes, LAYERS, cols, components, row);
    StairsAreLayout(nodes, components, row, cols);
  }

  lemma {:induction false} SomethingPlaced(nodes: seq<Node>, cs: seq<Component>)
    requires nodes != [] && |cs| == |ByLayer(nodes, LAYERS)| && multiset(ByLayer(nodes, LAYERS)) == multiset(nodes)
    ensures |cs| > 0
  {
    assert |multiset(ByLayer(nodes, LAYERS))| == |multiset(nodes)|;
  }
}
