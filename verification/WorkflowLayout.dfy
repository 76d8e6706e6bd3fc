/**
  Workflow diagrams: each node takes a slot in its lane, six to a lane; every
  further node of a lane gets a lane of its own, appended to the list of lanes
  that is being walked.
 */
module WorkflowLayout {
  import opened Collections
  import opened SanitizedIds

  /** A node as written; an empty lane or role is a missing one. */
  datatype Node = Node(lane: string, role: string)

  datatype Slot = Slot(lane: string, col: nat)

  /** The slot given to the node at an index. */
  datatype Placed = Placed(node: nat, slot: Slot)

  const LANE_SIZE := 6

  // ---- lanes

  /** The lane a node declares when no author did. */
  function Declares(n: Node): string {
    Sid(if n.lane != "" then n.lane else if n.role != "" then n.role else "signal")
  }

  function AddLane(lanes: seq<string>, lane: string): seq<string> {
    if lane in lanes then lanes else lanes + [lane]
  }

  function AuthoredLanes(authored: seq<string>): seq<string> {
    if |authored| == 0 then []
    else AddLane(AuthoredLanes(authored[..|authored| - 1]), Sid(authored[|authored| - 1]))
  }

  function DeclaredLanes(lanes: seq<string>, nodes: seq<Node>): seq<string> {
    if |nodes| == 0 then lanes
    else AddLane(DeclaredLanes(lanes, nodes[..|nodes| - 1]), Declares(nodes[|nodes| - 1]))
  }

  /** The lanes before any overflow. */
  function Lanes(authored: seq<string>, nodes: seq<Node>): seq<string> {
    DeclaredLanes(AuthoredLanes(authored), nodes)
  }

  /** A node without a lane goes to the first one. */
  function Home(n: Node, lanes: seq<string>): string
    requires |lanes| > 0
  {
    var lane := Sid(if n.lane != "" then n.lane else lanes[0]);
    if lane in lanes then lane else lanes[0]
  }

  /** The lane of each node. */
  function Homes(nodes: seq<Node>, lanes: seq<string>): seq<string>
    requires |lanes| > 0
  {
    seq(|nodes|, i requires 0 <= i < |nodes| => Home(nodes[i], lanes))
  }

  /** The nodes of a lane, in order. */
  function Members(homes: seq<string>, lane: string): seq<nat> {
    if |homes| == 0 then []
    else Members(homes[..|homes| - 1], lane) + if homes[|homes| - 1] == lane then [|homes| - 1] else []
  }

  // ---- slots

  function Decimal(k: nat): string {
    if k < 10 then [Digit(k)] else Decimal(k / 10) + [Digit(k % 10)]
  }

  function Digit(d: nat): (c: char)
    requires d < 10
    ensures '0' <= c <= '9'
  {
    "0123456789"[d]
  }

  /** How the k-th overflow lane is named, given the lane that overflows. */
  type Naming = (string, nat) -> string

  function Overflow(): Naming {
    (lane: string, k: nat) => Sid(lane + "_x" + Decimal(k))
  }

  /** The slot of the i-th node of a lane, after `before` overflows in earlier lanes. */
  function SlotAt(name: Naming, lane: string, i: nat, before: nat): Slot {
    if i < LANE_SIZE then Slot(lane, i) else Slot(name(lane, before + i - LANE_SIZE + 1), 0)
  }

  /** Columns 0 to 5 of the lane first; whatever comes after them has a lane of its own, numbered on. */
  lemma {:induction false} SixToALane(name: Naming, lane: string, i: nat, before: nat)
    ensures i <= 5 ==> SlotAt(name, lane, i, before) == Slot(lane, i)
    ensures i > 5 ==> SlotAt(name, lane, i, before) == Slot(name(lane, before + (i - 5)), 0)
  {
  }

  function Fill(name: Naming, lane: string, members: seq<nat>, before: nat): seq<Placed> {
    if |members| == 0 then []
    else
      var last := |members| - 1;
      Fill(name, lane, members[..last], before) + [Placed(members[last], SlotAt(name, lane, last, before))]
  }

  /** The overflow lanes named for one lane. */
  function Spill(name: Naming, lane: string, size: nat, before: nat): (r: seq<string>)
    ensures |r| == Excess(size)
  {
    if size <= LANE_SIZE then [] else Spill(name, lane, size - 1, before) + [name(lane, before + size - LANE_SIZE)]
  }

  function Excess(size: nat): nat {
    if size <= LANE_SIZE then 0 else size - LANE_SIZE
  }

  /** How many nodes overflowed in the first k lanes. */
  function Before(homes: seq<string>, lanes: seq<string>, k: nat): nat
    requires k <= |lanes|
  {
    if k == 0 then 0 else Before(homes, lanes, k - 1) + Excess(|Members(homes, lanes[k - 1])|)
  }

  function Row(name: Naming, homes: seq<string>, lanes: seq<string>, k: nat): seq<Placed>
    requires k < |lanes|
  {
    Fill(name, lanes[k], Members(homes, lanes[k]), Before(homes, lanes, k))
  }

  function SpillRow(name: Naming, homes: seq<string>, lanes: seq<string>, k: nat): seq<string>
    requires k < |lanes|
  {
    Spill(name, lanes[k], |Members(homes, lanes[k])|, Before(homes, lanes, k))
  }

  function Rows(name: Naming, homes: seq<string>, lanes: seq<string>): seq<seq<Placed>> {
    seq(|lanes|, k requires 0 <= k < |lanes| => Row(name, homes, lanes, k))
  }

  function SpillRows(name: Naming, homes: seq<string>, lanes: seq<string>): seq<seq<string>> {
    seq(|lanes|, k requires 0 <= k < |lanes| => SpillRow(name, homes, lanes, k))
  }

  function Concat<T>(rows: seq<seq<T>>): seq<T> {
    if |rows| == 0 then [] else Concat(rows[..|rows| - 1]) + rows[|rows| - 1]
  }

  /** All slots given, and all overflow lanes named, lane by lane. */
  function FillAll(name: Naming, homes: seq<string>, lanes: seq<string>): seq<Placed> {
    Concat(Rows(name, homes, lanes))
  }

  function Spills(name: Naming, homes: seq<string>, lanes: seq<string>): seq<string> {
    Concat(SpillRows(name, homes, lanes))
  }

  /** The lanes once those that slots mention are appended. */
  function WithSlots(lanes: seq<string>, placed: seq<Placed>): seq<string> {
    if |placed| == 0 then lanes
    else AddLane(WithSlots(lanes, placed[..|placed| - 1]), placed[|placed| - 1].slot.lane)
  }

  /** How often a node is placed, and how often a slot is used. */
  function Places(placed: seq<Placed>, i: nat): nat {
    if |placed| == 0 then 0 else Places(placed[..|placed| - 1], i) + if placed[|placed| - 1].node == i then 1 else 0
  }

  function Uses(placed: seq<Placed>, x: Slot): nat {
    if |placed| == 0 then 0 else Uses(placed[..|placed| - 1], x) + if placed[|placed| - 1].slot == x then 1 else 0
  }

  predicate DistinctSlots(placed: seq<Placed>) {
    forall i, j :: 0 <= i < j < |placed| ==> placed[i].slot != placed[j].slot
  }

  // ---- the lists of lanes

  lemma {:induction false} AddKeeps(lanes: seq<string>, lane: string)
    requires Distinct(lanes)
    ensures Distinct(AddLane(lanes, lane)) && lane in AddLane(lanes, lane) && lanes <= AddLane(lanes, lane)
  {
    if lane !in lanes { assert AddLane(lanes, lane)[|lanes|] == lane; }
  }

  lemma {:induction false} AuthoredDistinct(authored: seq<string>)
    ensures Distinct(AuthoredLanes(authored))
  {
    if |authored| > 0 {
      AuthoredDistinct(authored[..|authored| - 1]);
      AddKeeps(AuthoredLanes(authored[..|authored| - 1]), Sid(authored[|authored| - 1]));
    }
  }

  lemma {:induction false} DeclaredKeeps(lanes: seq<string>, nodes: seq<Node>)
    requires Distinct(lanes)
    ensures Distinct(DeclaredLanes(lanes, nodes)) && lanes <= DeclaredLanes(lanes, nodes)
    ensures forall n <- nodes :: Declares(n) in DeclaredLanes(lanes, nodes)
  {
    if |nodes| > 0 {
      var init := nodes[..|nodes| - 1];
      var last := nodes[|nodes| - 1];
      DeclaredKeeps(lanes, init);
      AddKeeps(DeclaredLanes(lanes, init), Declares(last));
      forall n <- nodes ensures Declares(n) in DeclaredLanes(lanes, nodes) {
        assert n == last || n in init;
      }
    }
  }

  lemma {:induction false} AuthoredAreIds(authored: seq<string>)
    ensures forall l <- AuthoredLanes(authored) :: IsId(l)
  {
    if |authored| > 0 {
      AuthoredAreIds(authored[..|authored| - 1]);
      SidIsId(authored[|authored| - 1]);
    }
  }

  lemma {:induction false} DeclaredAreIds(lanes: seq<string>, nodes: seq<Node>)
    requires forall l <- lanes :: IsId(l)
    ensures forall l <- DeclaredLanes(lanes, nodes) :: IsId(l)
  {
    if |nodes| > 0 {
      DeclaredAreIds(lanes, nodes[..|nodes| - 1]);
      var n := nodes[|nodes| - 1];
      SidIsId(if n.lane != "" then n.lane else if n.role != "" then n.role else "signal");
    }
  }

  /** Lanes are distinct ids, at least one, and a node that names its lane finds it there. */
  lemma {:induction false} LanesHold(authored: seq<string>, nodes: seq<Node>)
    requires |nodes| > 0
    ensures var lanes := Lanes(authored, nodes);
      && |lanes| > 0 && Distinct(lanes)
      && (forall l <- lanes :: IsId(l))
      && (forall n <- nodes :: n.lane != "" ==> Sid(n.lane) in lanes && Home(n, lanes) == Sid(n.lane))
  {
    AuthoredDistinct(authored);
    AuthoredAreIds(authored);
    DeclaredKeeps(AuthoredLanes(authored), nodes);
    DeclaredAreIds(AuthoredLanes(authored), nodes);
    assert Declares(nodes[0]) in Lanes(authored, nodes);
  }

  /** A node's own lane is made of its lane, else of its role, else of "signal". */
  predicate Gives(n: Node, l: string) {
    if n.lane != "" then l == Sid(n.lane) else if n.role != "" then l == Sid(n.role) else l == Sid("signal")
  }

  lemma {:induction false} AddIff(lanes: seq<string>, x: string, l: string)
    ensures l in AddLane(lanes, x) <==> l in lanes || l == x
  {
  }

  predicate Among(texts: seq<string>, l: string) {
    exists k :: 0 <= k < |texts| && Sid(texts[k]) == l
  }

  lemma {:induction false} AmongGrows(init: seq<string>, last: string, x: string, l: string)
    requires x == Sid(last)
    ensures Among(init + [last], l) <==> Among(init, l) || l == x
  {
    var texts := init + [last];
    if Among(init, l) {
      var k :| 0 <= k < |init| && Sid(init[k]) == l;
      assert texts[k] == init[k];
    }
    if Among(texts, l) {
      var k :| 0 <= k < |texts| && Sid(texts[k]) == l;
      if k < |init| { assert texts[k] == init[k]; }
    }
    assert texts[|init|] == last;
  }

  lemma {:induction false} AuthoredAre(authored: seq<string>, l: string)
    ensures l in AuthoredLanes(authored) <==> Among(authored, l)
  {
    if |authored| > 0 {
      var init := authored[..|authored| - 1];
      var last := authored[|authored| - 1];
      AuthoredAre(init, l);
      assert authored == init + [last];
      AddIff(AuthoredLanes(init), Sid(last), l);
      AmongGrows(init, last, Sid(last), l);
    }
  }

  predicate Given(nodes: seq<Node>, l: string) {
    exists k :: 0 <= k < |nodes| && Gives(nodes[k], l)
  }

  lemma {:induction false} GivenGrows(init: seq<Node>, last: Node, l: string)
    ensures Given(init + [last], l) <==> Given(init, l) || Gives(last, l)
  {
    var nodes := init + [last];
    if Given(init, l) {
      var k :| 0 <= k < |init| && Gives(init[k], l);
      assert nodes[k] == init[k];
    }
    if Given(nodes, l) {
      var k :| 0 <= k < |nodes| && Gives(nodes[k], l);
      if k < |init| { assert nodes[k] == init[k]; }
    }
    assert nodes[|init|] == last;
  }

  lemma {:induction false} DeclaredNext(lanes: seq<string>, init: seq<Node>, last: Node, l: string)
    ensures l in DeclaredLanes(lanes, init + [last]) <==> l in DeclaredLanes(lanes, init) || Gives(last, l)
  {
    assert (init + [last])[..|init|] == init;
    AddIff(DeclaredLanes(lanes, init), Declares(last), l);
    GivesIs(last, l);
  }

  lemma {:induction false} DeclaredAre(lanes: seq<string>, nodes: seq<Node>, l: string)
    ensures l in DeclaredLanes(lanes, nodes) <==> l in lanes || Given(nodes, l)
  {
    if |nodes| > 0 {
      var init := nodes[..|nodes| - 1];
      var last := nodes[|nodes| - 1];
      assert nodes == init + [last];
      DeclaredAre(lanes, init, l);
      DeclaredNext(lanes, init, last, l);
      GivenGrows(init, last, l);
    }
  }

  lemma {:induction false} DeclaredExtends(lanes: seq<string>, nodes: seq<Node>)
    ensures lanes <= DeclaredLanes(lanes, nodes)
  {
    if |nodes| > 0 { DeclaredExtends(lanes, nodes[..|nodes| - 1]); }
  }

  lemma {:induction false} GivesIs(n: Node, l: string)
    ensures Gives(n, l) <==> l == Declares(n)
  {
  }

  /** The lanes are those authored, first, and those of the nodes; a node without a lane goes to the first of them. */
  lemma {:induction false} LanesAre(authored: seq<string>, nodes: seq<Node>, l: string)
    ensures l in Lanes(authored, nodes) <==> Among(authored, l) || Given(nodes, l)
    ensures AuthoredLanes(authored) <= Lanes(authored, nodes)
    ensures var lanes := Lanes(authored, nodes);
      |lanes| > 0 && Sid(lanes[0]) == lanes[0] ==> forall n <- nodes :: n.lane == "" ==> Home(n, lanes) == lanes[0]
  {
    AuthoredAre(authored, l);
    DeclaredAre(AuthoredLanes(authored), nodes, l);
    DeclaredExtends(AuthoredLanes(authored), nodes);
  }

  /** Appending overflow lanes keeps them distinct, keeps the first ones first, and misses none. */
  lemma {:induction false} WithSlotsKeeps(lanes: seq<string>, placed: seq<Placed>)
    requires Distinct(lanes)
    ensures Distinct(WithSlots(lanes, placed)) && lanes <= WithSlots(lanes, placed)
    ensures forall p <- placed :: p.slot.lane in WithSlots(lanes, placed)
  {
    if |placed| > 0 {
      var init := placed[..|placed| - 1];
      var last := placed[|placed| - 1];
      WithSlotsKeeps(lanes, init);
      AddKeeps(WithSlots(lanes, init), last.slot.lane);
      forall p <- placed ensures p.slot.lane in WithSlots(lanes, placed) {
        assert p == last || p in init;
      }
    }
  }

  // ---- every node once

  lemma {:induction false} CountOne<T>(y: T, x: T)
    ensures Count([y], x) == if y == x then 1 else 0
  {
    assert [y][..0] == [];
    assert Count([y][..0], x) == 0;
  }

  lemma {:induction false} PlacesAdd(s: seq<Placed>, t: seq<Placed>, i: nat)
    ensures Places(s + t, i) == Places(s, i) + Places(t, i)
  {
    if |t| == 0 {
      assert s + t == s;
    } else {
      assert (s + t)[..|s + t| - 1] == s + t[..|t| - 1];
      PlacesAdd(s, t[..|t| - 1], i);
    }
  }

  lemma {:induction false} UsesAdd(s: seq<Placed>, t: seq<Placed>, x: Slot)
    ensures Uses(s + t, x) == Uses(s, x) + Uses(t, x)
  {
    if |t| == 0 {
      assert s + t == s;
    } else {
      assert (s + t)[..|s + t| - 1] == s + t[..|t| - 1];
      UsesAdd(s, t[..|t| - 1], x);
    }
  }

  lemma {:induction false} FillPlaces(name: Naming, lane: string, members: seq<nat>, before: nat, i: nat)
    ensures Places(Fill(name, lane, members, before), i) == Count(members, i)
  {
    if |members| > 0 {
      var last := |members| - 1;
      var init := Fill(name, lane, members[..last], before);
      FillPlaces(name, lane, members[..last], before, i);
      assert (init + [Placed(members[last], SlotAt(name, lane, last, before))])[..|init|] == init;
    }
  }

  lemma {:induction false} MembersHold(homes: seq<string>, lane: string, i: nat)
    ensures Count(Members(homes, lane), i) == if i < |homes| && homes[i] == lane then 1 else 0
  {
    if |homes| > 0 {
      var last := |homes| - 1;
      MembersHold(homes[..last], lane, i);
      CountAdds(Members(homes[..last], lane), [last], i);
      CountOne(last, i);
      assert Members(homes[..last], lane) + [] == Members(homes[..last], lane);
    }
  }

  lemma {:induction false} ConcatPlaces(rows: seq<seq<Placed>>, counts: seq<nat>, i: nat)
    requires |rows| == |counts| && forall k :: 0 <= k < |rows| ==> Places(rows[k], i) == counts[k]
    ensures Places(Concat(rows), i) == Sum(counts)
  {
    if |rows| > 0 {
      var last := |rows| - 1;
      ConcatPlaces(rows[..last], counts[..last], i);
      PlacesAdd(Concat(rows[..last]), rows[last], i);
    }
  }

  lemma {:induction false} ConcatUses(rows: seq<seq<Placed>>, a: seq<nat>, b: seq<nat>, x: Slot)
    requires |rows| == |a| == |b| && forall k :: 0 <= k < |rows| ==> Uses(rows[k], x) == a[k] + b[k]
    ensures Uses(Concat(rows), x) == Sum(a) + Sum(b)
  {
    if |rows| > 0 {
      var last := |rows| - 1;
      ConcatUses(rows[..last], a[..last], b[..last], x);
      UsesAdd(Concat(rows[..last]), rows[last], x);
    }
  }

  lemma {:induction false} ConcatCounts(rows: seq<seq<string>>, counts: seq<nat>, x: string)
    requires |rows| == |counts| && forall k :: 0 <= k < |rows| ==> Count(rows[k], x) == counts[k]
    ensures Count(Concat(rows), x) == Sum(counts)
  {
    if |rows| > 0 {
      var last := |rows| - 1;
      ConcatCounts(rows[..last], counts[..last], x);
      CountAdds(Concat(rows[..last]), rows[last], x);
    }
  }

  /** For each lane, one if it is the given one and the condition holds. */
  function Marks(lanes: seq<string>, lane: string, holds: bool): seq<nat> {
    seq(|lanes|, k requires 0 <= k < |lanes| => if lanes[k] == lane && holds then 1 else 0)
  }

  lemma {:induction false} MarkedOnce(lanes: seq<string>, lane: string, holds: bool)
    requires Distinct(lanes)
    ensures Sum(Marks(lanes, lane, holds)) == if lane in lanes && holds then 1 else 0
  {
    if |lanes| > 0 {
      var init := lanes[..|lanes| - 1];
      MarkedOnce(init, lane, holds);
      assert Marks(lanes, lane, holds)[..|init|] == Marks(init, lane, holds);
      assert lanes == init + [lanes[|lanes| - 1]];
    }
  }

  lemma {:induction false} RowPlaces(name: Naming, homes: seq<string>, lanes: seq<string>, k: nat, i: nat)
    requires k < |lanes|
    ensures Places(Row(name, homes, lanes, k), i) == Marks(lanes, if i < |homes| then homes[i] else "", i < |homes|)[k]
  {
    FillPlaces(name, lanes[k], Members(homes, lanes[k]), Before(homes, lanes, k), i);
    MembersHold(homes, lanes[k], i);
  }

  /** Every node is placed exactly once, and nothing else is. */
  lemma {:induction false} EachNodeOnce(name: Naming, homes: seq<string>, lanes: seq<string>, i: nat)
    requires Distinct(lanes) && forall h <- homes :: h in lanes
    ensures Places(FillAll(name, homes, lanes), i) == if i < |homes| then 1 else 0
  {
    var rows := Rows(name, homes, lanes);
    var home := if i < |homes| then homes[i] else "";
    forall k | 0 <= k < |rows| ensures Places(rows[k], i) == Marks(lanes, home, i < |homes|)[k] {
      RowPlaces(name, homes, lanes, k, i);
    }
    ConcatPlaces(rows, Marks(lanes, home, i < |homes|), i);
    MarkedOnce(lanes, home, i < |homes|);
  }

  /** How many earlier nodes share a node's lane. */
  function Rank(homes: seq<string>, i: nat): nat
    requires i < |homes|
  {
    |Members(homes[..i], homes[i])|
  }

  lemma {:induction false} MemberRank(homes: seq<string>, lane: string, j: nat)
    requires j < |Members(homes, lane)|
    ensures var i := Members(homes, lane)[j];
      i < |homes| && homes[i] == lane && Rank(homes, i) == j
  {
    var init := homes[..|homes| - 1];
    if j < |Members(init, lane)| {
      MemberRank(init, lane, j);
      var i := Members(init, lane)[j];
      assert init[..i] == homes[..i];
    }
  }

  /** A slot by rank: the node's own lane and column, or the first column of an overflow lane. */
  ghost predicate ByRank(name: Naming, homes: seq<string>, p: Placed) {
    && p.node < |homes|
    && if Rank(homes, p.node) < LANE_SIZE then p.slot == Slot(homes[p.node], Rank(homes, p.node))
       else p.slot.col == 0 && exists k :: p.slot.lane == name(homes[p.node], k)
  }

  lemma {:induction false} FillAt(name: Naming, lane: string, members: seq<nat>, before: nat, j: nat)
    requires j < |members|
    ensures |Fill(name, lane, members, before)| == |members|
    ensures Fill(name, lane, members, before)[j] == Placed(members[j], SlotAt(name, lane, j, before))
  {
    var last := |members| - 1;
    if last > 0 { FillAt(name, lane, members[..last], before, if j < last then j else 0); }
  }

  lemma {:induction false} InConcat<T>(rows: seq<seq<T>>, x: T) returns (k: nat)
    requires x in Concat(rows)
    ensures k < |rows| && x in rows[k]
  {
    k := |rows| - 1;
    if x !in rows[k] { k := InConcat(rows[..k], x); }
  }

  lemma {:induction false} FillEmpty(name: Naming, lane: string, members: seq<nat>, before: nat)
    ensures |Fill(name, lane, members, before)| == |members|
  {
    if |members| > 0 { FillEmpty(name, lane, members[..|members| - 1], before); }
  }

  /** The first six nodes of a lane stay in it, in order; later ones leave it. */
  lemma {:induction false} PlacedByRank(name: Naming, homes: seq<string>, lanes: seq<string>, p: Placed)
    requires p in FillAll(name, homes, lanes)
    ensures ByRank(name, homes, p)
  {
    var k := InConcat(Rows(name, homes, lanes), p);
    var members := Members(homes, lanes[k]);
    var before := Before(homes, lanes, k);
    FillEmpty(name, lanes[k], members, before);
    var j :| 0 <= j < |members| && Fill(name, lanes[k], members, before)[j] == p;
    FillAt(name, lanes[k], members, before, j);
    MemberRank(homes, lanes[k], j);
  }

  // ---- when slots are distinct

  function AtFront(names: seq<string>, x: Slot): nat {
    if x.col == 0 then Count(names, x.lane) else 0
  }

  lemma {:induction false} AtFrontAdds(s: seq<string>, t: seq<string>, x: Slot)
    ensures AtFront(s + t, x) == AtFront(s, x) + AtFront(t, x)
  {
    CountAdds(s, t, x.lane);
  }

  lemma {:induction false} SpillGrows(name: Naming, lane: string, i: nat, before: nat, x: Slot)
    ensures AtFront(Spill(name, lane, i + 1, before), x) ==
      AtFront(Spill(name, lane, i, before), x)
      + if i >= LANE_SIZE && SlotAt(name, lane, i, before) == x then 1 else 0
  {
    if i >= LANE_SIZE {
      var extra := SlotAt(name, lane, i, before).lane;
      AtFrontAdds(Spill(name, lane, i, before), [extra], x);
      CountOne(extra, x.lane);
    }
  }

  lemma {:induction false} FillSlots(name: Naming, lane: string, members: seq<nat>, before: nat, x: Slot)
    ensures Uses(Fill(name, lane, members, before), x) ==
      (if x.lane == lane && x.col < LANE_SIZE && x.col < |members| then 1 else 0)
      + AtFront(Spill(name, lane, |members|, before), x)
  {
    if |members| > 0 {
      var last := |members| - 1;
      var slot := SlotAt(name, lane, last, before);
      var init := Fill(name, lane, members[..last], before);
      FillSlots(name, lane, members[..last], before, x);
      assert (init + [Placed(members[last], slot)])[..|init|] == init;
      SpillGrows(name, lane, last, before, x);
    }
  }

  /** Whether a slot is among the first six columns that its lane uses. */
  predicate InGrid(homes: seq<string>, x: Slot) {
    x.col < LANE_SIZE && x.col < |Members(homes, x.lane)|
  }

  /** How often each lane's overflow names a slot's lane. */
  function Fronts(rows: seq<seq<string>>, x: Slot): seq<nat> {
    seq(|rows|, k requires 0 <= k < |rows| => AtFront(rows[k], x))
  }

  lemma {:induction false} FrontsSum(rows: seq<seq<string>>, x: Slot)
    ensures Sum(Fronts(rows, x)) == AtFront(Concat(rows), x)
  {
    if x.col == 0 {
      ConcatCounts(rows, Fronts(rows, x), x.lane);
    } else {
      ZeroSum(Fronts(rows, x));
    }
  }

  lemma {:induction false} ZeroSum(s: seq<nat>)
    requires forall k :: 0 <= k < |s| ==> s[k] == 0
    ensures Sum(s) == 0
  {
    if |s| > 0 { ZeroSum(s[..|s| - 1]); }
  }

  lemma {:induction false} RowUses(name: Naming, homes: seq<string>, lanes: seq<string>, k: nat, x: Slot)
    requires k < |lanes|
    ensures Uses(Row(name, homes, lanes, k), x) ==
      Marks(lanes, x.lane, InGrid(homes, x))[k] + AtFront(SpillRow(name, homes, lanes, k), x)
  {
    FillSlots(name, lanes[k], Members(homes, lanes[k]), Before(homes, lanes, k), x);
  }

  /** A slot is used once in the grid, if it is there, and once for each time its lane is an overflow name. */
  lemma {:induction false} FillAllSlots(name: Naming, homes: seq<string>, lanes: seq<string>, x: Slot)
    requires Distinct(lanes)
    ensures Uses(FillAll(name, homes, lanes), x) ==
      (if x.lane in lanes && InGrid(homes, x) then 1 else 0) + AtFront(Spills(name, homes, lanes), x)
  {
    var rows := Rows(name, homes, lanes);
    var marks := Marks(lanes, x.lane, InGrid(homes, x));
    var fronts := Fronts(SpillRows(name, homes, lanes), x);
    forall k | 0 <= k < |rows| ensures Uses(rows[k], x) == marks[k] + fronts[k] {
      RowUses(name, homes, lanes, k, x);
    }
    ConcatUses(rows, marks, fronts, x);
    MarkedOnce(lanes, x.lane, InGrid(homes, x));
    FrontsSum(SpillRows(name, homes, lanes), x);
  }

  /** No overflow lane is named twice, and none is named like a lane that holds nodes. */
  predicate NamesClear(name: Naming, homes: seq<string>, lanes: seq<string>) {
    var names := Spills(name, homes, lanes);
    Distinct(names) && forall l <- names :: l in lanes ==> Members(homes, l) == []
  }

  lemma {:induction false} CountMembers<T>(s: seq<T>, x: T)
    ensures Count(s, x) > 0 <==> x in s
  {
    if |s| > 0 {
      CountMembers(s[..|s| - 1], x);
      assert s == s[..|s| - 1] + [s[|s| - 1]];
    }
  }

  lemma {:induction false} DistinctCounts<T>(s: seq<T>, x: T)
    requires Distinct(s)
    ensures Count(s, x) <= 1
  {
    if |s| > 0 {
      DistinctCounts(s[..|s| - 1], x);
      CountMembers(s[..|s| - 1], x);
    }
  }

  lemma {:induction false} CountsDistinct<T>(s: seq<T>)
    requires forall x :: Count(s, x) <= 1
    ensures Distinct(s)
  {
    forall i, j | 0 <= i < j < |s| ensures s[i] != s[j] {
      assert s == s[..j] + s[j..];
      CountAdds(s[..j], s[j..], s[j]);
      CountMembers(s[..j], s[j]);
      CountMembers(s[j..], s[j]);
      assert s[j..][0] == s[j];
      assert s[..j][i] == s[i];
    }
  }

  lemma {:induction false} UsesMembers(placed: seq<Placed>, i: nat)
    requires i < |placed|
    ensures Uses(placed, placed[i].slot) > 0
  {
    if i < |placed| - 1 { UsesMembers(placed[..|placed| - 1], i); }
  }

  lemma {:induction false} UsedSomewhere(placed: seq<Placed>, x: Slot) returns (i: nat)
    requires Uses(placed, x) > 0
    ensures i < |placed| && placed[i].slot == x
  {
    i := |placed| - 1;
    if placed[i].slot != x { i := UsedSomewhere(placed[..i], x); }
  }

  lemma {:induction false} DistinctUses(placed: seq<Placed>, x: Slot)
    requires DistinctSlots(placed)
    ensures Uses(placed, x) <= 1
  {
    if |placed| > 0 {
      var init := placed[..|placed| - 1];
      DistinctUses(init, x);
      if Uses(init, x) > 0 {
        var i := UsedSomewhere(init, x);
        assert placed[i].slot != placed[|placed| - 1].slot;
      }
    }
  }

  lemma {:induction false} UsesDistinct(placed: seq<Placed>)
    requires forall x :: Uses(placed, x) <= 1
    ensures DistinctSlots(placed)
  {
    forall i, j | 0 <= i < j < |placed| ensures placed[i].slot != placed[j].slot {
      var x := placed[i].slot;
      assert placed == placed[..j] + placed[j..];
      UsesAdd(placed[..j], placed[j..], x);
      UsesMembers(placed[..j], i);
      assert placed[j..][0] == placed[j];
      UsesMembers(placed[j..], 0);
    }
  }

  /** For all input: slots are distinct exactly when the overflow names are clear. */
  lemma {:induction false} SlotsDistinctIff(name: Naming, homes: seq<string>, lanes: seq<string>)
    requires Distinct(lanes)
    ensures DistinctSlots(FillAll(name, homes, lanes)) <==> NamesClear(name, homes, lanes)
  {
    var names := Spills(name, homes, lanes);
    var placed := FillAll(name, homes, lanes);
    if DistinctSlots(placed) {
      forall l ensures Count(names, l) <= 1 && (l in names && l in lanes ==> Members(homes, l) == []) {
        FillAllSlots(name, homes, lanes, Slot(l, 0));
        DistinctUses(placed, Slot(l, 0));
        CountMembers(names, l);
      }
      CountsDistinct(names);
    }
    if NamesClear(name, homes, lanes) {
      forall x ensures Uses(placed, x) <= 1 {
        FillAllSlots(name, homes, lanes, x);
        DistinctCounts(names, x.lane);
        CountMembers(names, x.lane);
      }
      UsesDistinct(placed);
    }
  }

  // ---- when overflow names are clear

  lemma {:induction false} SpillAt(name: Naming, lane: string, size: nat, before: nat, j: nat)
    requires j < Excess(size)
    ensures Spill(name, lane, size, before)[j] == name(lane, before + j + 1)
  {
    if j < Excess(size) - 1 { SpillAt(name, lane, size - 1, before, j); }
  }

  /** The p-th overflow lane is named after some lane and the number p. */
  ghost predicate Numbered(name: Naming, lanes: seq<string>, names: seq<string>) {
    forall p :: 0 <= p < |names| ==> NamedFor(name, lanes, names[p], p + 1)
  }

  ghost predicate NamedFor(name: Naming, lanes: seq<string>, overflow: string, k: nat) {
    exists l :: l in lanes && overflow == name(l, k)
  }

  lemma {:induction false} SpillsNumbered(name: Naming, homes: seq<string>, lanes: seq<string>, k: nat)
    requires k <= |lanes|
    ensures var names := Concat(SpillRows(name, homes, lanes)[..k]);
      |names| == Before(homes, lanes, k) && Numbered(name, lanes, names)
  {
    if k > 0 {
      var m := k - 1;
      var rows := SpillRows(name, homes, lanes);
      SpillsNumbered(name, homes, lanes, m);
      assert rows[..k][..m] == rows[..m];
      var size := |Members(homes, lanes[m])|;
      var more := rows[m];
      forall j | 0 <= j < |more| ensures more[j] == name(lanes[m], Before(homes, lanes, m) + j + 1) {
        SpillAt(name, lanes[m], size, Before(homes, lanes, m), j);
      }
      NumberedGrows(name, lanes, Concat(rows[..m]), more, lanes[m]);
    }
  }

  lemma {:induction false} NumberedGrows(name: Naming, lanes: seq<string>, names: seq<string>, more: seq<string>,
                                         lane: string)
    requires Numbered(name, lanes, names) && lane in lanes
    requires forall j :: 0 <= j < |more| ==> more[j] == name(lane, |names| + j + 1)
    ensures Numbered(name, lanes, names + more)
  {
    forall p | 0 <= p < |names + more| ensures NamedFor(name, lanes, (names + more)[p], p + 1) {
      if p >= |names| {
        assert (names + more)[p] == more[p - |names|] == name(lane, p + 1);
      } else {
        assert NamedFor(name, lanes, names[p], p + 1);
      }
    }
  }

  lemma {:induction false} DecimalDigits(k: nat)
    ensures |Decimal(k)| > 0 && forall c <- Decimal(k) :: '0' <= c <= '9'
    ensures k >= 10 ==> |Decimal(k)| > 1
  {
    if k >= 10 { DecimalDigits(k / 10); }
  }

  lemma {:induction false} DecimalInjective(a: nat, b: nat)
    requires Decimal(a) == Decimal(b)
    ensures a == b
  {
    DecimalDigits(a);
    DecimalDigits(b);
    var s := Decimal(a);
    assert s[|s| - 1] == Digit(a % 10) == Digit(b % 10);
    if a >= 10 {
      assert Decimal(a / 10) == s[..|s| - 1] == Decimal(b / 10);
      DecimalInjective(a / 10, b / 10);
    }
  }

  function Plain(lane: string, k: nat): string {
    lane + "_x" + Decimal(k)
  }

  lemma {:induction false} CharsOfSuffix(s: string, e: string)
    requires |e| <= |s| && s[|s| - |e|..] == e
    ensures forall j :: |s| - |e| <= j < |s| ==> s[j] in e
  {
    forall j | |s| - |e| <= j < |s| ensures s[j] in e {
      assert e[j - (|s| - |e|)] == s[j];
    }
  }

  /** Only digits follow the last x. */
  lemma {:induction false} SameDigits(s: string, d: string, e: string)
    requires |s| >= |d| + 1 && |s| >= |e| + 1
    requires s[|s| - |d|..] == d && s[|s| - |e|..] == e
    requires s[|s| - |d| - 1] == 'x' && s[|s| - |e| - 1] == 'x'
    requires 'x' !in d && 'x' !in e
    ensures d == e
  {
    CharsOfSuffix(s, d);
    CharsOfSuffix(s, e);
  }

  /** Names that are not cut determine their lane and number. */
  lemma {:induction false} PlainDetermines(l: string, j: nat, m: string, k: nat)
    requires Plain(l, j) == Plain(m, k)
    ensures j == k && l == m
  {
    DecimalDigits(j);
    DecimalDigits(k);
    SameDigits(Plain(l, j), Decimal(j), Decimal(k));
    DecimalInjective(j, k);
    assert l == Plain(l, j)[..|l|] && m == Plain(m, k)[..|m|];
  }

  lemma {:induction false} OverflowIsPlain(lane: string, k: nat)
    requires IsId(lane) && |Plain(lane, k)| <= LIMIT
    ensures Overflow()(lane, k) == Plain(lane, k)
  {
    DecimalDigits(k);
    var s := Plain(lane, k);
    forall c <- s ensures IsIdChar(c) {
      assert c in lane || c in "_x" || c in Decimal(k);
    }
    assert s[|s| - 1] == Decimal(k)[|Decimal(k)| - 1];
    SidFixesIff(s);
  }

  /** Lane ids are short enough not to be cut, and none looks like an overflow of another. */
  ghost predicate Unambiguous(lanes: seq<string>, overflows: nat) {
    forall l, k :: l in lanes && 1 <= k <= overflows ==> |Plain(l, k)| <= LIMIT && Plain(l, k) !in lanes
  }

  /** The p-th name is a lane followed by its number. */
  ghost predicate PlainlyNumbered(lanes: seq<string>, names: seq<string>) {
    forall p :: 0 <= p < |names| ==> PlainFor(lanes, names[p], p + 1)
  }

  ghost predicate PlainFor(lanes: seq<string>, overflow: string, k: nat) {
    exists l :: l in lanes && overflow == Plain(l, k)
  }

  lemma {:induction false} PlainNamesDistinct(lanes: seq<string>, names: seq<string>)
    requires PlainlyNumbered(lanes, names)
    ensures Distinct(names)
  {
    forall p, q | 0 <= p < q < |names| ensures names[p] != names[q] {
      assert PlainFor(lanes, names[p], p + 1) && PlainFor(lanes, names[q], q + 1);
      var l :| l in lanes && names[p] == Plain(l, p + 1);
      var m :| m in lanes && names[q] == Plain(m, q + 1);
      if names[p] == names[q] { PlainDetermines(l, p + 1, m, q + 1); }
    }
  }

  lemma {:induction false} SpillsPlain(name: Naming, homes: seq<string>, lanes: seq<string>)
    requires forall l, k :: l in lanes && 1 <= k <= Before(homes, lanes, |lanes|) ==> name(l, k) == Plain(l, k)
    ensures |Spills(name, homes, lanes)| == Before(homes, lanes, |lanes|)
        && PlainlyNumbered(lanes, Spills(name, homes, lanes))
  {
    var names := Spills(name, homes, lanes);
    var rows := SpillRows(name, homes, lanes);
    SpillsNumbered(name, homes, lanes, |lanes|);
    assert rows[..|lanes|] == rows;
    NumberedPlainly(name, lanes, names);
  }

  lemma {:induction false} NumberedPlainly(name: Naming, lanes: seq<string>, names: seq<string>)
    requires Numbered(name, lanes, names)
    requires forall l, k :: l in lanes && 1 <= k <= |names| ==> name(l, k) == Plain(l, k)
    ensures PlainlyNumbered(lanes, names)
  {
    forall p | 0 <= p < |names| ensures PlainFor(lanes, names[p], p + 1) {
      assert NamedFor(name, lanes, names[p], p + 1);
      var l :| l in lanes && names[p] == name(l, p + 1);
      assert names[p] == Plain(l, p + 1);
    }
  }

  lemma {:induction false} PlainNotLanes(lanes: seq<string>, names: seq<string>)
    requires PlainlyNumbered(lanes, names) && Unambiguous(lanes, |names|)
    ensures forall n <- names :: n !in lanes
  {
    forall n <- names ensures n !in lanes {
      var p :| 0 <= p < |names| && names[p] == n;
      assert PlainFor(lanes, names[p], p + 1);
      var l :| l in lanes && names[p] == Plain(l, p + 1);
    }
  }

  /** For short, unambiguous lane ids all slots are distinct. */
  lemma {:induction false} UnambiguousIsClear(homes: seq<string>, lanes: seq<string>)
    requires forall l <- lanes :: IsId(l)
    requires Distinct(lanes) && Unambiguous(lanes, Before(homes, lanes, |lanes|))
    ensures DistinctSlots(FillAll(Overflow(), homes, lanes))
  {
    var name := Overflow();
    var names := Spills(name, homes, lanes);
    forall l, k | l in lanes && 1 <= k <= Before(homes, lanes, |lanes|) ensures name(l, k) == Plain(l, k) {
      OverflowIsPlain(l, k);
    }
    SpillsPlain(name, homes, lanes);
    PlainNamesDistinct(lanes, names);
    PlainNotLanes(lanes, names);
    SlotsDistinctIff(name, homes, lanes);
  }

  lemma {:induction false} ConcatHead<T>(rows: seq<seq<T>>)
    requires |rows| > 0 && |rows[0]| > 0
    ensures |Concat(rows)| > 0 && Concat(rows)[0] == rows[0][0]
  {
    if |rows| > 1 {
      ConcatHead(rows[..|rows| - 1]);
    } else {
      assert Concat(rows[..0]) == [];
    }
  }

  lemma {:induction false} FirstSpill(name: Naming, homes: seq<string>, lanes: seq<string>)
    requires |lanes| > 0 && |Members(homes, lanes[0])| > LANE_SIZE
    ensures |Spills(name, homes, lanes)| > 0 && Spills(name, homes, lanes)[0] == name(lanes[0], 1)
  {
    SpillAt(name, lanes[0], |Members(homes, lanes[0])|, 0, 0);
    ConcatHead(SpillRows(name, homes, lanes));
  }

  /** A first overflow named like a lane that holds nodes is not clear. */
  lemma {:induction false} FirstNameTaken(name: Naming, homes: seq<string>, lanes: seq<string>)
    requires |lanes| > 0 && |Members(homes, lanes[0])| > LANE_SIZE
    requires name(lanes[0], 1) in lanes && Members(homes, name(lanes[0], 1)) != []
    ensures !NamesClear(name, homes, lanes)
  {
    FirstSpill(name, homes, lanes);
    assert Spills(name, homes, lanes)[0] in Spills(name, homes, lanes);
  }

  /** Two nodes share a slot whenever the first lane overflows next to a lane in use named like its overflow. */
  lemma {:induction false} OverflowCollides(homes: seq<string>, lanes: seq<string>)
    requires Distinct(lanes) && |lanes| > 0 && IsId(lanes[0]) && |Plain(lanes[0], 1)| <= LIMIT
    requires |Members(homes, lanes[0])| > LANE_SIZE
    requires Plain(lanes[0], 1) in lanes && Members(homes, Plain(lanes[0], 1)) != []
    ensures !DistinctSlots(FillAll(Overflow(), homes, lanes))
  {
    var name := Overflow();
    OverflowIsPlain(lanes[0], 1);
    FirstNameTaken(name, homes, lanes);
    SlotsDistinctIff(name, homes, lanes);
  }

  // ---- the compiler

  datatype Workflow = NoNodes | Workflow(lanes: seq<string>, placed: seq<Placed>)

  /**
    What a compiled workflow promises: each node in one slot, the first six of a
    lane in it and in order, all slots in declared lanes; and no slot shared exactly
    when overflow names are clear.
   */
  ghost predicate IsWorkflow(name: Naming, homes: seq<string>, first: seq<string>, lanes: seq<string>,
                             placed: seq<Placed>) {
    && first <= lanes && Distinct(lanes)
    && (forall i: nat :: Places(placed, i) == if i < |homes| then 1 else 0)
    && (forall p <- placed :: p.slot.lane in lanes && p.slot.col < LANE_SIZE && ByRank(name, homes, p))
    && (DistinctSlots(placed) <==> NamesClear(name, homes, first))
  }

  lemma {:induction false} FilledIsWorkflow(name: Naming, homes: seq<string>, first: seq<string>)
    requires Distinct(first) && forall h <- homes :: h in first
    ensures var placed := FillAll(name, homes, first);
      IsWorkflow(name, homes, first, WithSlots(first, placed), placed)
  {
    var placed := FillAll(name, homes, first);
    WithSlotsKeeps(first, placed);
    forall i: nat ensures Places(placed, i) == if i < |homes| then 1 else 0 {
      EachNodeOnce(name, homes, first, i);
    }
    forall p <- placed ensures ByRank(name, homes, p) {
      PlacedByRank(name, homes, first, p);
    }
    SlotsDistinctIff(name, homes, first);
  }

  method DeclareLanes(authored: seq<string>, nodes: seq<Node>) returns (lanes: seq<string>)
    ensures lanes == Lanes(authored, nodes)
  {
    lanes := [];
    for k := 0 to |authored|
      invariant lanes == AuthoredLanes(authored[..k])
    {
      assert authored[..k + 1][..k] == authored[..k];
      var lane := Sid(authored[k]);
      if lane !in lanes {
        lanes := lanes + [lane];
      }
    }
    assert authored[..|authored|] == authored;
    for k := 0 to |nodes|
      invariant lanes == DeclaredLanes(AuthoredLanes(authored), nodes[..k])
    {
      assert nodes[..k + 1][..k] == nodes[..k];
      var lane := Declares(nodes[k]);
      if lane !in lanes {
        lanes := lanes + [lane];
      }
    }
    assert nodes[..|nodes|] == nodes;
  }

  method FillBuckets(homes: seq<string>, lanes: seq<string>) returns (byLane: map<string, seq<nat>>)
    requires forall h <- homes :: h in lanes
    ensures forall l :: l in byLane <==> l in lanes
    ensures forall l <- lanes :: byLane[l] == Members(homes, l)
  {
    byLane := map l | l in lanes :: [];
    for k := 0 to |homes|
      invariant forall l :: l in byLane <==> l in lanes
      invariant forall l <- lanes :: byLane[l] == Members(homes[..k], l)
    {
      assert homes[..k + 1][..k] == homes[..k];
      byLane := byLane[homes[k] := byLane[homes[k]] + [k]];
    }
    assert homes[..|homes|] == homes;
  }

  /** Gives the nodes of one lane their slots, appending overflow lanes to the list being walked. */
  method PlaceLane(name: Naming, lane: string, members: seq<nat>, lanes: seq<string>, overflows: nat,
                   placed: seq<Placed>,
                   ghost first: seq<string>)
    returns (grown: seq<string>, count: nat, all: seq<Placed>)
    requires lane in lanes && lanes == WithSlots(first, placed)
    ensures all == placed + Fill(name, lane, members, overflows)
    ensures grown == WithSlots(first, all) && lanes <= grown
    ensures count == overflows + Excess(|members|)
    ensures members == [] ==> grown == lanes
  {
    grown, count, all := lanes, overflows, placed;
    for i := 0 to |members|
      invariant all == placed + Fill(name, lane, members[..i], overflows)
      invariant grown == WithSlots(first, all) && lanes <= grown
      invariant count == overflows + Excess(i)
      invariant i == 0 ==> grown == lanes
    {
      var use, col := lane, i;
      if col > LANE_SIZE - 1 {
        count := count + 1;
        use := name(lane, count);
        if use !in grown {
          grown := grown + [use];
        }
        col := 0;
      }
      ghost var was := all;
      all := all + [Placed(members[i], Slot(use, if col < LANE_SIZE - 1 then col else LANE_SIZE - 1))];
      assert all[..|all| - 1] == was;
      assert members[..i + 1][..i] == members[..i];
      assert lane in lanes && lanes <= grown;
    }
    assert members[..|members|] == members;
  }

  function Least(a: nat, b: nat): nat {
    if a <= b then a else b
  }

  /** Where the walk stands after k lanes of a list that may have grown. */
  ghost predicate Walked(name: Naming, homes: seq<string>, first: seq<string>, k: nat, lanes: seq<string>,
                         overflows: nat, placed: seq<Placed>) {
    && k <= |lanes| && first <= lanes && Distinct(lanes)
    && lanes == WithSlots(first, placed)
    && placed == Concat(Rows(name, homes, first)[..Least(k, |first|)])
    && (k <= |first| ==> overflows == Before(homes, first, k))
  }

  lemma {:induction false} WalkStep(name: Naming, homes: seq<string>, first: seq<string>, k: nat, lanes: seq<string>,
                                    overflows: nat, placed: seq<Placed>, members: seq<nat>, grown: seq<string>,
                                    all: seq<Placed>)
    requires Distinct(first) && Walked(name, homes, first, k, lanes, overflows, placed) && k < |lanes|
    requires members == if lanes[k] in first then Members(homes, lanes[k]) else []
    requires all == placed + Fill(name, lanes[k], members, overflows)
    requires grown == WithSlots(first, all) && lanes <= grown
    ensures Walked(name, homes, first, k + 1, grown, overflows + Excess(|members|), all)
    ensures k >= |first| ==> members == []
  {
    WithSlotsKeeps(first, all);
    if k < |first| {
      assert lanes[k] == first[k];
      RowsGrow(Rows(name, homes, first), k, placed);
    } else {
      assert lanes[k] !in first;
    }
  }

  lemma {:induction false} RowsGrow<T>(rows: seq<seq<T>>, k: nat, placed: seq<T>)
    requires k < |rows| && placed == Concat(rows[..k])
    ensures Concat(rows[..k + 1]) == placed + rows[k]
  {
    assert rows[..k + 1][..k] == rows[..k];
  }

  /** Walks a list that grows: the lanes appended have no nodes of their own, so the walk ends. */
  method PlaceAll(name: Naming, homes: seq<string>, first: seq<string>) returns (lanes: seq<string>,
                  placed: seq<Placed>)
    requires Distinct(first) && forall h <- homes :: h in first
    ensures IsWorkflow(name, homes, first, lanes, placed)
  {
    var byLane := FillBuckets(homes, first);
    lanes, placed := first, [];
    var overflows, k := 0, 0;
    while k < |lanes|
      invariant Walked(name, homes, first, k, lanes, overflows, placed)
      decreases |first| - Least(k, |first|), |lanes| - k
    {
      var lane := lanes[k];
      var members := if lane in byLane then byLane[lane] else [];
      var grown, count, all := PlaceLane(name, lane, members, lanes, overflows, placed, first);
      WalkStep(name, homes, first, k, lanes, overflows, placed, members, grown, all);
      lanes, overflows, placed := grown, count, all;
      k := k + 1;
    }
    assert Rows(name, homes, first)[..|first|] == Rows(name, homes, first);
    FilledIsWorkflow(name, homes, first);
  }

  method CompileWorkflow(authored: seq<string>, nodes: seq<Node>) returns (w: Workflow)
    ensures w == NoNodes <==> nodes == []
    ensures w.Workflow? ==>
      var first := Lanes(authored, nodes);
      |first| > 0 && IsWorkflow(Overflow(), Homes(nodes, first), first, w.lanes, w.placed)
  {
    if nodes == [] {
      return NoNodes;
    }
    var first := DeclareLanes(authored, nodes);
    LanesHold(authored, nodes);
    var lanes, placed := PlaceAll(Overflow(), Homes(nodes, first), first);
    w := Workflow(lanes, placed);
  }
}
