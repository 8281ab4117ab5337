/** The plugin panes of a tab: a tree of panes docked on each edge, and one that floats. */
module DockLayout {
  import opened Options
  import opened Lists

  datatype Direction = Row | Column

  datatype Edge = LeftEdge | RightEdge | TopEdge | BottomEdge

  /** Which half of an existing pane a new one is dropped onto. */
  datatype Zone = LeftHalf | RightHalf | TopHalf | BottomHalf

  datatype Node =
    | Leaf(id: string)
    | Split(direction: Direction, ratio: real, a: Node, b: Node)

  /** A requested number, which the caller may have computed into something that is none. */
  datatype Number = Finite(value: real) | NonFinite

  /** The whole layout: a tree per edge, the floating pane, and how far each dock extends. */
  datatype Layout = Layout(
    left: Option<Node>,
    right: Option<Node>,
    top: Option<Node>,
    bottom: Option<Node>,
    overlay: Option<Node>,
    leftWidth: real,
    rightWidth: real,
    topHeight: real,
    bottomHeight: real)

  const EDGES := [LeftEdge, RightEdge, TopEdge, BottomEdge]

  const DOCK_DEFAULT_WIDTH: real := 300.0
  const DOCK_DEFAULT_HEIGHT: real := 160.0
  const MIN_DOCK_SIZE: real := 200.0
  const SPLITTER_SIZE: real := 4.0
  const DOCK_GROW_STEP: real := 160.0

  const EMPTY := Layout(None, None, None, None, None,
                        DOCK_DEFAULT_WIDTH, DOCK_DEFAULT_WIDTH, DOCK_DEFAULT_HEIGHT, DOCK_DEFAULT_HEIGHT)

  // ---------------------------------------------------------------- ratios

  function Clamp(x: real, low: real, high: real): real {
    if x < low then low else if x > high then high else x
  }

  function ClampSplitRatio(ratio: Number, total: real, minPx: real): real
    requires minPx >= 0.0
  {
    if ratio.NonFinite? then 0.5
    else if total > 2.0 * minPx + SPLITTER_SIZE then Clamp(ratio.value, minPx / total, 1.0 - minPx / total)
    else Clamp(ratio.value, 0.01, 0.99)
  }

  predicate LeavesRoom(ratio: real, total: real, minPx: real) {
    ratio * total >= minPx && (1.0 - ratio) * total >= minPx
  }

  /** Where there is room for both panes, both keep their minimum, and a request that leaves them
      that much is honoured; elsewhere both keep a hundredth. */
  lemma ClampKeepsBothPanes(ratio: Number, total: real, minPx: real)
    requires minPx >= 0.0
    ensures var r := ClampSplitRatio(ratio, total, minPx);
      && (total > 2.0 * minPx + SPLITTER_SIZE ==> LeavesRoom(r, total, minPx))
      && (total > 2.0 * minPx + SPLITTER_SIZE && ratio.Finite? && LeavesRoom(ratio.value, total, minPx) ==>
            r == ratio.value)
      && (!(total > 2.0 * minPx + SPLITTER_SIZE) ==> 0.01 <= r <= 0.99)
      && (!(total > 2.0 * minPx + SPLITTER_SIZE) && ratio.Finite? ==>
            r == if ratio.value < 0.01 then 0.01 else if ratio.value > 0.99 then 0.99 else ratio.value)
      && (ratio.NonFinite? ==> r == 0.5)
  {
    if total > 2.0 * minPx + SPLITTER_SIZE {
      RoomIsAShare(ClampSplitRatio(ratio, total, minPx), total, minPx);
      RoomIsAShare(0.5, total, minPx);
      if ratio.Finite? {
        RoomIsAShare(ratio.value, total, minPx);
      }
    }
    hide LeavesRoom;
  }

  lemma RoomIsAShare(ratio: real, total: real, minPx: real)
    requires total > 0.0
    ensures LeavesRoom(ratio, total, minPx) <==> minPx / total <= ratio <= 1.0 - minPx / total
    ensures total > 2.0 * minPx ==> minPx / total < 0.5
  {
    var least := minPx / total;
    assert least * total == minPx;
    Complement(ratio, total);
    Complement(least, total);
    TimesKeepsOrder(least, ratio, total);
    TimesKeepsOrder(ratio, 1.0 - least, total);
    TimesKeepsOrder(0.5, least, total);
  }

  lemma Complement(x: real, total: real)
    ensures (1.0 - x) * total == total - x * total
  {
  }

  lemma TimesKeepsOrder(x: real, y: real, total: real)
    requires total > 0.0
    ensures x <= y <==> x * total <= y * total
  {
    var difference := y - x;
    assert y * total == x * total + difference * total;
    if difference >= 0.0 {
      assert difference * total >= 0.0;
    } else {
      assert difference * total < 0.0;
    }
  }

  // ---------------------------------------------------------------- one tree

  function DirectionOf(zone: Zone): Direction {
    if zone.LeftHalf? || zone.RightHalf? then Row else Column
  }

  /** A drop onto the left or top half puts the new pane first. */
  predicate IsFirst(zone: Zone) {
    zone.LeftHalf? || zone.TopHalf?
  }

  /** The panes of a tree, left to right. */
  function Ids(node: Node): seq<string> {
    match node
    case Leaf(id) => [id]
    case Split(_, _, a, b) => Ids(a) + Ids(b)
  }

  method Collect(node: Node, into: seq<string>) returns (ids: seq<string>)
    ensures ids == into + Ids(node)
    decreases node
  {
    match node
    case Leaf(id) => ids := into + [id];
    case Split(_, _, a, b) =>
      ids := Collect(a, into);
      ids := Collect(b, ids);
      assert into + Ids(a) + Ids(b) == into + (Ids(a) + Ids(b));
  }

  /** Take a pane out; a split that loses a side collapses. */
  function Removed(node: Node, id: string): Option<Node> {
    match node
    case Leaf(own) => if own != id then Some(node) else None
    case Split(direction, ratio, a, b) =>
      match (Removed(a, id), Removed(b, id))
      case (None, None) => None
      case (None, Some(only)) => Some(only)
      case (Some(only), None) => Some(only)
      case (Some(left), Some(right)) => Some(Split(direction, ratio, left, right))
  }

  /** Put `incoming` on one side of `existing`. */
  function Wrapped(existing: Node, incoming: Node, zone: Zone): Node {
    if IsFirst(zone) then Split(DirectionOf(zone), 0.5, incoming, existing)
    else Split(DirectionOf(zone), 0.5, existing, incoming)
  }

  /** A drop onto the left or right half makes a row and one onto the top or bottom a column, in equal halves,
      with the new pane where it was dropped. */
  lemma DropsSplit(existing: Node, incoming: Node)
    ensures Wrapped(existing, incoming, LeftHalf) == Split(Row, 0.5, incoming, existing)
    ensures Wrapped(existing, incoming, RightHalf) == Split(Row, 0.5, existing, incoming)
    ensures Wrapped(existing, incoming, TopHalf) == Split(Column, 0.5, incoming, existing)
    ensures Wrapped(existing, incoming, BottomHalf) == Split(Column, 0.5, existing, incoming)
  {
  }

  function MapLeaf(node: Node, target: string, mapper: string -> Node): Node {
    match node
    case Leaf(own) => if own == target then mapper(own) else node
    case Split(direction, ratio, a, b) =>
      Split(direction, ratio, MapLeaf(a, target, mapper), MapLeaf(b, target, mapper))
  }

  /** Drop `id` onto the pane `target`. */
  function SplitAt(node: Node, target: string, id: string, zone: Zone): Node {
    MapLeaf(node, target, own => Wrapped(Leaf(target), Leaf(id), zone))
  }

  /** So for the pane it is dropped onto. */
  lemma DropsSplitThePane(target: string, id: string)
    ensures SplitAt(Leaf(target), target, id, LeftHalf) == Split(Row, 0.5, Leaf(id), Leaf(target))
    ensures SplitAt(Leaf(target), target, id, RightHalf) == Split(Row, 0.5, Leaf(target), Leaf(id))
    ensures SplitAt(Leaf(target), target, id, TopHalf) == Split(Column, 0.5, Leaf(id), Leaf(target))
    ensures SplitAt(Leaf(target), target, id, BottomHalf) == Split(Column, 0.5, Leaf(target), Leaf(id))
  {
  }

  /** The splits above it keep their directions and ratios. */
  lemma SplitsAboveStay(node: Node, target: string, id: string, zone: Zone)
    requires node.Split?
    ensures SplitAt(node, target, id, zone)
         == Split(node.direction, node.ratio, SplitAt(node.a, target, id, zone), SplitAt(node.b, target, id, zone))
  {
  }

  /** The tree with another ratio at `path`; a step of 0 goes to the first child, any other to the second. */
  function WithRatio(node: Node, path: seq<nat>, ratio: Number): Node {
    match node
    case Leaf(_) => node
    case Split(direction, current, a, b) =>
      if path == [] then Split(direction, ClampSplitRatio(ratio, 0.0, MIN_DOCK_SIZE), a, b)
      else if path[0] == 0 then Split(direction, current, WithRatio(a, path[1..], ratio), b)
      else Split(direction, current, a, WithRatio(b, path[1..], ratio))
  }

  // ---------------------------------------------------------------- what taking out and putting in do

  function SlotIds(slot: Option<Node>): seq<string> {
    if slot.Some? then Ids(slot.value) else []
  }

  lemma {:induction false} WithoutCounts(ids: seq<string>, id: string, x: string)
    ensures multiset(Without(ids, id))[x] == if x == id then 0 else multiset(ids)[x]
  {
    if ids != [] {
      WithoutCounts(ids[1..], id, x);
      assert ids == [ids[0]] + ids[1..];
    }
  }

  lemma {:induction false} TreesHoldPanes(node: Node)
    ensures Ids(node) != []
  {
    if node.Split? {
      TreesHoldPanes(node.a);
    }
  }

  /** Taking a pane out leaves the others as they were, in their order. */
  lemma {:induction false} RemoveKeepsOrder(node: Node, id: string)
    ensures SlotIds(Removed(node, id)) == Without(Ids(node), id)
  {
    if node.Split? {
      RemoveKeepsOrder(node.a, id);
      RemoveKeepsOrder(node.b, id);
      WithoutSplits(Ids(node.a), Ids(node.b), id);
    }
  }

  lemma WrapPutsAtEnd(existing: Node, id: string, zone: Zone)
    ensures Ids(Wrapped(existing, Leaf(id), zone))
         == if IsFirst(zone) then [id] + Ids(existing) else Ids(existing) + [id]
  {
  }

  lemma {:induction false} RemoveAbsent(node: Node, id: string)
    requires id !in Ids(node)
    ensures Removed(node, id) == Some(node)
  {
    if node.Split? {
      RemoveAbsent(node.a, id);
      RemoveAbsent(node.b, id);
    }
  }

  /** Taking out a pane that was just docked gives back the tree it was docked to. */
  lemma RemoveUndoesWrap(node: Node, id: string, zone: Zone)
    requires id !in Ids(node)
    ensures Removed(Wrapped(node, Leaf(id), zone), id) == Some(node)
  {
    RemoveAbsent(node, id);
  }

  /** Taking out a pane that was just dropped onto another undoes the drop. */
  lemma {:induction false} RemoveUndoesSplit(node: Node, target: string, id: string, zone: Zone)
    requires id !in Ids(node) && target != id
    ensures Removed(SplitAt(node, target, id, zone), id) == Some(node)
  {
    if node.Split? {
      RemoveUndoesSplit(node.a, target, id, zone);
      RemoveUndoesSplit(node.b, target, id, zone);
    }
  }

  function BesideOne(own: string, target: string, id: string, first: bool): seq<string> {
    if own != target then [own] else if first then [id, target] else [target, id]
  }

  /** `id` put next to every `target`. */
  function Beside(ids: seq<string>, target: string, id: string, first: bool): seq<string> {
    if ids == [] then []
    else
      BesideOne(ids[0], target, id, first) + Beside(ids[1..], target, id, first)
  }

  lemma {:induction false} BesideSplits(ids: seq<string>, more: seq<string>, target: string, id: string, first: bool)
    ensures Beside(ids + more, target, id, first) == Beside(ids, target, id, first) + Beside(more, target, id, first)
  {
    hide BesideOne;
    var last := Beside(more, target, id, first);
    if ids == [] {
      assert ids + more == more && [] + last == last;
    } else {
      BesideSplits(ids[1..], more, target, id, first);
      assert (ids + more)[1..] == ids[1..] + more && (ids + more)[0] == ids[0];
      var one, rest := BesideOne(ids[0], target, id, first), Beside(ids[1..], target, id, first);
      assert one + (rest + last) == one + rest + last;
    }
  }

  lemma {:induction false} BesideAbsent(ids: seq<string>, target: string, id: string, first: bool)
    requires target !in ids
    ensures Beside(ids, target, id, first) == ids
  {
    if ids != [] {
      BesideAbsent(ids[1..], target, id, first);
      assert ids == [ids[0]] + ids[1..];
    }
  }

  /** Where a target is there once, the new pane lands right next to it and nothing else moves. */
  lemma BesideOnce(before: seq<string>, after: seq<string>, target: string, id: string, first: bool)
    requires target !in before && target !in after
    ensures Beside(before + [target] + after, target, id, first)
         == before + (if first then [id, target] else [target, id]) + after
  {
    BesideAbsent(before, target, id, first);
    BesideAbsent(after, target, id, first);
    BesideSplits(before + [target], after, target, id, first);
    BesideSplits(before, [target], target, id, first);
    assert Beside([target], target, id, first) == if first then [id, target] else [target, id];
  }

  lemma CountsAdd(ids: seq<string>, more: seq<string>, x: string)
    ensures multiset(ids + more)[x] == multiset(ids)[x] + multiset(more)[x]
  {
  }

  lemma OneCounts(own: string, target: string, id: string, first: bool, x: string)
    ensures multiset(BesideOne(own, target, id, first))[x]
         == multiset([own])[x] + if x == id && own == target then 1 else 0
  {
  }

  lemma {:induction false} BesideCounts(ids: seq<string>, target: string, id: string, first: bool, x: string)
    ensures multiset(Beside(ids, target, id, first))[x]
         == multiset(ids)[x] + if x == id then multiset(ids)[target] else 0
  {
    hide BesideOne;
    if ids != [] {
      var tail := ids[1..];
      BesideCounts(tail, target, id, first, x);
      assert ids == [ids[0]] + tail;
      CountsAdd([ids[0]], tail, x);
      CountsAdd([ids[0]], tail, target);
      CountsAdd(BesideOne(ids[0], target, id, first), Beside(tail, target, id, first), x);
      OneCounts(ids[0], target, id, first, x);
    }
  }

  lemma {:induction false} SplitInserts(node: Node, target: string, id: string, zone: Zone)
    ensures Ids(SplitAt(node, target, id, zone)) == Beside(Ids(node), target, id, IsFirst(zone))
  {
    if node.Split? {
      SplitInserts(node.a, target, id, zone);
      SplitInserts(node.b, target, id, zone);
      BesideSplits(Ids(node.a), Ids(node.b), target, id, IsFirst(zone));
    } else {
      assert Ids(node)[1..] == [];
    }
  }

  // ---------------------------------------------------------------- ratios in a tree

  predicate RatiosOk(node: Node) {
    node.Split? ==> 0.01 <= node.ratio <= 0.99 && RatiosOk(node.a) && RatiosOk(node.b)
  }

  lemma {:induction false} RemoveKeepsRatios(node: Node, id: string)
    requires RatiosOk(node)
    ensures Removed(node, id).Some? ==> RatiosOk(Removed(node, id).value)
  {
    if node.Split? {
      RemoveKeepsRatios(node.a, id);
      RemoveKeepsRatios(node.b, id);
    }
  }

  lemma {:induction false} SplitKeepsRatios(node: Node, target: string, id: string, zone: Zone)
    requires RatiosOk(node)
    ensures RatiosOk(SplitAt(node, target, id, zone))
  {
    if node.Split? {
      SplitKeepsRatios(node.a, target, id, zone);
      SplitKeepsRatios(node.b, target, id, zone);
    }
  }

  lemma {:induction false} RatioKeepsRatios(node: Node, path: seq<nat>, ratio: Number)
    requires RatiosOk(node)
    ensures RatiosOk(WithRatio(node, path, ratio))
    decreases node
  {
    if node.Split? && path != [] {
      RatioKeepsRatios(node.a, path[1..], ratio);
      RatioKeepsRatios(node.b, path[1..], ratio);
    }
  }

  function RatioAt(node: Node, path: seq<nat>): Option<real>
    decreases node
  {
    if node.Leaf? then None
    else if path == [] then Some(node.ratio)
    else RatioAt(if path[0] == 0 then node.a else node.b, path[1..])
  }

  /** Two paths that lead to the same place: any step but 0 goes to the second child. */
  predicate SamePlace(path: seq<nat>, other: seq<nat>) {
    |path| == |other| && forall i :: 0 <= i < |path| ==> (path[i] == 0 <==> other[i] == 0)
  }

  /** The tree with its ratios left out. */
  function Shape(node: Node): Node {
    match node
    case Leaf(_) => node
    case Split(direction, _, a, b) => Split(direction, 0.0, Shape(a), Shape(b))
  }

  /** A change of ratio changes just that one ratio: the tree keeps its shape, and every ratio but
      the one at the path stays as it was. */
  lemma {:induction false} RatioChangesOne(node: Node, path: seq<nat>, ratio: Number, other: seq<nat>)
    ensures Shape(WithRatio(node, path, ratio)) == Shape(node)
    ensures RatioAt(WithRatio(node, path, ratio), other)
         == if RatioAt(node, other).Some? && SamePlace(path, other)
            then Some(ClampSplitRatio(ratio, 0.0, MIN_DOCK_SIZE)) else RatioAt(node, other)
    decreases node
  {
    if node.Split? {
      if path == [] {
      } else if other == [] {
        RatioChangesOne(if path[0] == 0 then node.a else node.b, path[1..], ratio, other);
      } else {
        RatioChangesOne(if path[0] == 0 then node.a else node.b, path[1..], ratio, other[1..]);
        PlacesAgree(path, other);
      }
    }
  }

  lemma PlacesAgree(path: seq<nat>, other: seq<nat>)
    requires path != [] && other != []
    ensures SamePlace(path, other) <==> (path[0] == 0 <==> other[0] == 0) && SamePlace(path[1..], other[1..])
  {
    if (path[0] == 0 <==> other[0] == 0) && SamePlace(path[1..], other[1..]) {
      forall i | 0 <= i < |path|
        ensures path[i] == 0 <==> other[i] == 0
      {
        if i > 0 {
          assert path[i] == path[1..][i - 1] && other[i] == other[1..][i - 1];
        }
      }
    }
  }

  lemma {:induction false} ShapeKeepsIds(node: Node)
    ensures Ids(Shape(node)) == Ids(node)
  {
    if node.Split? {
      ShapeKeepsIds(node.a);
      ShapeKeepsIds(node.b);
    }
  }

  // ---------------------------------------------------------------- the whole layout

  function Dock(l: Layout, edge: Edge): Option<Node> {
    match edge
    case LeftEdge => l.left
    case RightEdge => l.right
    case TopEdge => l.top
    case BottomEdge => l.bottom
  }

  function WithDock(l: Layout, edge: Edge, slot: Option<Node>): Layout {
    match edge
    case LeftEdge => l.(left := slot)
    case RightEdge => l.(right := slot)
    case TopEdge => l.(top := slot)
    case BottomEdge => l.(bottom := slot)
  }

  function Size(l: Layout, edge: Edge): real {
    match edge
    case LeftEdge => l.leftWidth
    case RightEdge => l.rightWidth
    case TopEdge => l.topHeight
    case BottomEdge => l.bottomHeight
  }

  function WithSize(l: Layout, edge: Edge, px: real): Layout {
    var value := if px < 0.0 then 0.0 else px;
    match edge
    case LeftEdge => l.(leftWidth := value)
    case RightEdge => l.(rightWidth := value)
    case TopEdge => l.(topHeight := value)
    case BottomEdge => l.(bottomHeight := value)
  }

  function SlotWithout(slot: Option<Node>, id: string): Option<Node> {
    if slot.Some? then Removed(slot.value, id) else None
  }

  function AllIds(l: Layout): seq<string> {
    SlotIds(l.left) + SlotIds(l.right) + SlotIds(l.top) + SlotIds(l.bottom) + SlotIds(l.overlay)
  }

  /** The panes of the first `n` docks. */
  function IdsOn(l: Layout, n: nat): seq<string>
    requires n <= |EDGES|
  {
    if n == 0 then [] else IdsOn(l, n - 1) + SlotIds(Dock(l, EDGES[n - 1]))
  }

  lemma IdsOnAll(l: Layout)
    ensures AllIds(l) == IdsOn(l, |EDGES|) + SlotIds(l.overlay)
  {
    hide SlotIds;
    assert IdsOn(l, 1) == SlotIds(l.left);
    assert IdsOn(l, 2) == IdsOn(l, 1) + SlotIds(l.right);
    assert IdsOn(l, 3) == IdsOn(l, 2) + SlotIds(l.top);
    assert IdsOn(l, 4) == IdsOn(l, 3) + SlotIds(l.bottom);
  }

  function PluginRemoved(l: Layout, id: string): Layout {
    l.(left := SlotWithout(l.left, id), right := SlotWithout(l.right, id),
       top := SlotWithout(l.top, id), bottom := SlotWithout(l.bottom, id),
       overlay := SlotWithout(l.overlay, id))
  }

  function OuterZone(edge: Edge): Zone {
    match edge
    case LeftEdge => LeftHalf
    case RightEdge => RightHalf
    case TopEdge => TopHalf
    case BottomEdge => BottomHalf
  }

  function ZoneOn(edge: Edge, zone: Option<Zone>): Zone {
    if zone.Some? then zone.value else OuterZone(edge)
  }

  /** A plugin docked without a zone goes to the outer side of the edge's panes, in a row at the left and
      right and in a column at the top and bottom. */
  lemma OuterDocks(existing: Node, id: string)
    ensures Wrapped(existing, Leaf(id), ZoneOn(LeftEdge, None)) == Split(Row, 0.5, Leaf(id), existing)
    ensures Wrapped(existing, Leaf(id), ZoneOn(RightEdge, None)) == Split(Row, 0.5, existing, Leaf(id))
    ensures Wrapped(existing, Leaf(id), ZoneOn(TopEdge, None)) == Split(Column, 0.5, Leaf(id), existing)
    ensures Wrapped(existing, Leaf(id), ZoneOn(BottomEdge, None)) == Split(Column, 0.5, existing, Leaf(id))
    ensures forall edge, zone :: ZoneOn(edge, Some(zone)) == zone
  {
  }

  /** One dock is resized, never below zero, and nothing else changes. */
  lemma SizeChangesOne(l: Layout, edge: Edge, px: real)
    ensures var next := WithSize(l, edge, px);
      && Size(next, edge) >= 0.0 && (px >= 0.0 ==> Size(next, edge) == px) && (px < 0.0 ==> Size(next, edge) == 0.0)
      && (forall e :: Dock(next, e) == Dock(l, e) && (e != edge ==> Size(next, e) == Size(l, e)))
      && next.overlay == l.overlay
  {
  }

  /** The ratio is set in the one dock, and nothing else changes. */
  lemma RatioSetsOne(l: Layout, edge: Edge, path: seq<nat>, ratio: Number)
    ensures var next := RatioSet(l, edge, path, ratio);
      && Dock(next, edge) == (if Dock(l, edge).Some? then Some(WithRatio(Dock(l, edge).value, path, ratio)) else None)
      && (forall e :: Size(next, e) == Size(l, e) && (e != edge ==> Dock(next, e) == Dock(l, e)))
      && next.overlay == l.overlay
  {
    hide WithRatio;
  }

  function DockedOn(l: Layout, id: string, edge: Edge, zone: Option<Zone>): Layout {
    var rest := PluginRemoved(l, id);
    match Dock(rest, edge)
    case None => WithDock(rest, edge, Some(Leaf(id)))
    case Some(existing) =>
      var next := WithDock(rest, edge, Some(Wrapped(existing, Leaf(id), ZoneOn(edge, zone))));
      WithSize(next, edge, Size(next, edge) + DOCK_GROW_STEP)
  }

  predicate Shows(slot: Option<Node>, id: string) {
    id in SlotIds(slot)
  }

  /** Split the first of `edges` that shows the target, or else the floating pane. */
  function SplitIn(l: Layout, edges: seq<Edge>, target: string, zone: Zone, id: string): Layout {
    if edges == [] then
      if Shows(l.overlay, target) then l.(overlay := Some(SplitAt(l.overlay.value, target, id, zone))) else l
    else if Shows(Dock(l, edges[0]), target) then
      WithDock(l, edges[0], Some(SplitAt(Dock(l, edges[0]).value, target, id, zone)))
    else SplitIn(l, edges[1..], target, zone, id)
  }

  function LeafSplit(l: Layout, target: string, zone: Zone, id: string): Layout {
    if target == id then l else SplitIn(PluginRemoved(l, id), EDGES, target, zone, id)
  }

  function RatioSet(l: Layout, edge: Edge, path: seq<nat>, ratio: Number): Layout {
    match Dock(l, edge)
    case None => l
    case Some(node) => WithDock(l, edge, Some(WithRatio(node, path, ratio)))
  }

  function Floated(l: Layout, id: string): Layout {
    PluginRemoved(l, id).(overlay := Some(Leaf(id)))
  }

  // ---------------------------------------------------------------- what the operations promise

  function CountIn(slot: Option<Node>, x: string): nat {
    multiset(SlotIds(slot))[x]
  }

  /** How many panes of the layout show plugin `x`. */
  function Count(l: Layout, x: string): nat {
    CountIn(l.left, x) + CountIn(l.right, x) + CountIn(l.top, x) + CountIn(l.bottom, x) + CountIn(l.overlay, x)
  }

  lemma CountsAllIds(l: Layout, x: string)
    ensures Count(l, x) == multiset(AllIds(l))[x]
  {
  }

  lemma SlotLosesOne(slot: Option<Node>, id: string, x: string)
    ensures SlotIds(SlotWithout(slot, id)) == Without(SlotIds(slot), id)
    ensures CountIn(SlotWithout(slot, id), x) == if x == id then 0 else CountIn(slot, x)
  {
    if slot.Some? {
      RemoveKeepsOrder(slot.value, id);
    }
    WithoutCounts(SlotIds(slot), id, x);
  }

  lemma RemoveCounts(l: Layout, id: string, x: string)
    ensures Count(PluginRemoved(l, id), x) == if x == id then 0 else Count(l, x)
  {
    hide CountIn, SlotWithout;
    SlotLosesOne(l.left, id, x);
    SlotLosesOne(l.right, id, x);
    SlotLosesOne(l.top, id, x);
    SlotLosesOne(l.bottom, id, x);
    SlotLosesOne(l.overlay, id, x);
  }

  /** Removing a plugin takes it, and nothing else, out of every dock and the floating pane. */
  lemma RemoveTakesOut(l: Layout, id: string)
    ensures AllIds(PluginRemoved(l, id)) == Without(AllIds(l), id)
    ensures forall e :: Dock(PluginRemoved(l, id), e) == SlotWithout(Dock(l, e), id)
  {
    hide CountIn, SlotWithout, SlotIds, Without;
    SlotLosesOne(l.left, id, id);
    SlotLosesOne(l.right, id, id);
    SlotLosesOne(l.top, id, id);
    SlotLosesOne(l.bottom, id, id);
    SlotLosesOne(l.overlay, id, id);
    var left, right, top := SlotIds(l.left), SlotIds(l.right), SlotIds(l.top);
    var bottom, overlay := SlotIds(l.bottom), SlotIds(l.overlay);
    WithoutSplits(left, right, id);
    WithoutSplits(left + right, top, id);
    WithoutSplits(left + right + top, bottom, id);
    WithoutSplits(left + right + top + bottom, overlay, id);
  }

  /** Two layouts that differ in one dock differ in count by what that dock does. */
  lemma DockCounts(l: Layout, next: Layout, edge: Edge, x: string)
    requires forall e :: e != edge ==> Dock(next, e) == Dock(l, e)
    requires next.overlay == l.overlay
    ensures Count(next, x) - Count(l, x) == CountIn(Dock(next, edge), x) - CountIn(Dock(l, edge), x)
  {
    hide CountIn;
    assert Dock(l, LeftEdge) == l.left && Dock(next, LeftEdge) == next.left;
    assert Dock(l, RightEdge) == l.right && Dock(next, RightEdge) == next.right;
    assert Dock(l, TopEdge) == l.top && Dock(next, TopEdge) == next.top;
    assert Dock(l, BottomEdge) == l.bottom && Dock(next, BottomEdge) == next.bottom;
  }

  /** Docking takes the plugin from wherever it was and puts it at the zone's end of the edge's
      panes; the dock grows by a step when another pane is there. */
  lemma DockPutsAtEnd(l: Layout, id: string, edge: Edge, zone: Option<Zone>)
    ensures var next, others := DockedOn(l, id, edge, zone), Without(SlotIds(Dock(l, edge)), id);
      && SlotIds(Dock(next, edge)) == (if IsFirst(ZoneOn(edge, zone)) then [id] + others else others + [id])
      && (forall e :: e != edge ==> Dock(next, e) == SlotWithout(Dock(l, e), id) && Size(next, e) == Size(l, e))
      && next.overlay == SlotWithout(l.overlay, id)
      && (Size(l, edge) >= 0.0 ==>
            Size(next, edge) == Size(l, edge) + if others == [] then 0.0 else DOCK_GROW_STEP)
  {
    hide CountIn, SlotWithout, Without, ZoneOn;
    SlotLosesOne(Dock(l, edge), id, id);
    var slot := SlotWithout(Dock(l, edge), id);
    assert Dock(PluginRemoved(l, id), edge) == slot;
    if slot.Some? {
      TreesHoldPanes(slot.value);
      WrapPutsAtEnd(slot.value, id, ZoneOn(edge, zone));
    } else {
      assert SlotIds(slot) == [] && SlotIds(Some(Leaf(id))) == [id];
    }
  }

  /** How a pane is docked beside others that stay, and onto an empty edge. */
  lemma DockWraps(l: Layout, id: string, edge: Edge, zone: Option<Zone>)
    ensures var slot, next := SlotWithout(Dock(l, edge), id), DockedOn(l, id, edge, zone);
      Dock(next, edge) == Some(if slot.Some? then Wrapped(slot.value, Leaf(id), ZoneOn(edge, zone)) else Leaf(id))
  {
    hide SlotWithout, Wrapped, ZoneOn;
    assert Dock(PluginRemoved(l, id), edge) == SlotWithout(Dock(l, edge), id);
  }

  lemma EndAddsOne(slot: Option<Node>, id: string, zone: Zone, x: string)
    ensures var next := if slot.Some? then Wrapped(slot.value, Leaf(id), zone) else Leaf(id);
      CountIn(Some(next), x) == CountIn(slot, x) + if x == id then 1 else 0
  {
    if slot.Some? {
      WrapPutsAtEnd(slot.value, id, zone);
    }
  }

  lemma DockedCounts(l: Layout, id: string, edge: Edge, zone: Option<Zone>, x: string)
    ensures Count(DockedOn(l, id, edge, zone), x) == if x == id then 1 else Count(l, x)
  {
    hide CountIn, SlotWithout, Count, PluginRemoved, ZoneOn, Wrapped;
    var rest, next := PluginRemoved(l, id), DockedOn(l, id, edge, zone);
    EndAddsOne(Dock(rest, edge), id, ZoneOn(edge, zone), x);
    RemoveCounts(l, id, x);
    DockCounts(rest, next, edge, x);
  }

  /** A drop onto a pane that is there puts the plugin right beside it, in its tree, and leaves the
      other trees alone; a drop onto one that is not only takes the plugin away. */
  lemma SplitInPuts(l: Layout, edges: seq<Edge>, target: string, zone: Zone, id: string) returns (at: Option<Edge>)
    ensures var next := SplitIn(l, edges, target, zone, id);
      && (at.Some? ==>
            && at.value in edges && Shows(Dock(l, at.value), target)
            && next == WithDock(l, at.value, Some(SplitAt(Dock(l, at.value).value, target, id, zone))))
      && (at.None? ==>
            && (forall e :: e in edges ==> !Shows(Dock(l, e), target))
            && next == if Shows(l.overlay, target)
                       then l.(overlay := Some(SplitAt(l.overlay.value, target, id, zone))) else l)
  {
    if edges == [] {
      at := None;
    } else if Shows(Dock(l, edges[0]), target) {
      at := Some(edges[0]);
    } else {
      at := SplitInPuts(l, edges[1..], target, zone, id);
    }
  }

  /** No plugin has two panes. */
  ghost predicate AreDistinct(l: Layout) {
    forall x :: Count(l, x) <= 1
  }

  lemma CountMeansShows(slot: Option<Node>, x: string)
    ensures CountIn(slot, x) > 0 <==> Shows(slot, x)
  {
  }

  lemma BesideAll(a: seq<string>, b: seq<string>, c: seq<string>, d: seq<string>, e: seq<string>,
                  target: string, id: string, first: bool)
    ensures Beside(a + b + c + d + e, target, id, first)
         == Beside(a, target, id, first) + Beside(b, target, id, first) + Beside(c, target, id, first)
          + Beside(d, target, id, first) + Beside(e, target, id, first)
  {
    BesideSplits(a, b, target, id, first);
    BesideSplits(a + b, c, target, id, first);
    BesideSplits(a + b + c, d, target, id, first);
    BesideSplits(a + b + c + d, e, target, id, first);
  }

  /** The slot that shows the target, or none does. */
  lemma SlotBeside(slot: Option<Node>, target: string, zone: Zone, id: string)
    ensures !Shows(slot, target) ==> Beside(SlotIds(slot), target, id, IsFirst(zone)) == SlotIds(slot)
    ensures Shows(slot, target) ==>
      SlotIds(Some(SplitAt(slot.value, target, id, zone))) == Beside(SlotIds(slot), target, id, IsFirst(zone))
  {
    if Shows(slot, target) {
      SplitInserts(slot.value, target, id, zone);
    } else {
      BesideAbsent(SlotIds(slot), target, id, IsFirst(zone));
    }
  }

  lemma OneSlotShows(l: Layout, edge: Edge, target: string)
    requires Count(l, target) <= 1 && Shows(Dock(l, edge), target)
    ensures !Shows(l.overlay, target) && forall e :: e != edge ==> !Shows(Dock(l, e), target)
  {
    hide CountIn, Shows;
    CountMeansShows(l.left, target);
    CountMeansShows(l.right, target);
    CountMeansShows(l.top, target);
    CountMeansShows(l.bottom, target);
    CountMeansShows(l.overlay, target);
  }

  /** What a drop does to one dock: the one that shows the target gets the pane beside it. */
  lemma SplitInSlot(l: Layout, target: string, zone: Zone, id: string, edge: Edge)
    requires Count(l, target) <= 1
    ensures var slot, next := Dock(l, edge), Dock(SplitIn(l, EDGES, target, zone, id), edge);
      && SlotIds(next) == Beside(SlotIds(slot), target, id, IsFirst(zone))
      && (!Shows(slot, target) ==> next == slot)
  {
    var at := SplitInPuts(l, EDGES, target, zone, id);
    hide SplitIn, Beside, SlotIds, SplitAt, Shows, Count;
    assert LeftEdge in EDGES && RightEdge in EDGES && TopEdge in EDGES && BottomEdge in EDGES;
    if at.Some? {
      OneSlotShows(l, at.value, target);
    }
    SlotBeside(Dock(l, edge), target, zone, id);
  }

  lemma SplitInOverlay(l: Layout, target: string, zone: Zone, id: string)
    requires Count(l, target) <= 1
    ensures var next := SplitIn(l, EDGES, target, zone, id);
      && SlotIds(next.overlay) == Beside(SlotIds(l.overlay), target, id, IsFirst(zone))
      && (!Shows(l.overlay, target) ==> next.overlay == l.overlay)
      && forall e :: Size(next, e) == Size(l, e)
  {
    var at := SplitInPuts(l, EDGES, target, zone, id);
    hide SplitIn, Beside, SlotIds, SplitAt, Shows, Count;
    if at.Some? {
      OneSlotShows(l, at.value, target);
    }
    SlotBeside(l.overlay, target, zone, id);
  }

  lemma SplitInPutsBeside(l: Layout, target: string, zone: Zone, id: string)
    requires Count(l, target) <= 1
    ensures AllIds(SplitIn(l, EDGES, target, zone, id)) == Beside(AllIds(l), target, id, IsFirst(zone))
  {
    hide SplitIn, Beside, SlotIds, Shows, Count;
    BesideAll(SlotIds(l.left), SlotIds(l.right), SlotIds(l.top), SlotIds(l.bottom), SlotIds(l.overlay),
              target, id, IsFirst(zone));
    SplitInSlot(l, target, zone, id, LeftEdge);
    SplitInSlot(l, target, zone, id, RightEdge);
    SplitInSlot(l, target, zone, id, TopEdge);
    SplitInSlot(l, target, zone, id, BottomEdge);
    SplitInOverlay(l, target, zone, id);
  }

  /** What a drop does to the slot that was `slot`: the plugin goes from it, and comes beside the
      target if that is there; a slot without the target only loses the plugin. */
  predicate LandsIn(slot: Option<Node>, next: Option<Node>, target: string, zone: Zone, id: string) {
    && SlotIds(next) == Beside(Without(SlotIds(slot), id), target, id, IsFirst(zone))
    && (!Shows(SlotWithout(slot, id), target) ==> next == SlotWithout(slot, id))
  }

  /** Dropping a plugin onto another's pane moves it right beside that pane, in the tree that shows it,
      and moves nothing else in any tree; when the other has no pane, the plugin is just taken away. */
  lemma SplitLandsBeside(l: Layout, target: string, zone: Zone, id: string)
    requires AreDistinct(l) && target != id
    ensures var next := LeafSplit(l, target, zone, id);
      && (forall e :: LandsIn(Dock(l, e), Dock(next, e), target, zone, id) && Size(next, e) == Size(l, e))
      && LandsIn(l.overlay, next.overlay, target, zone, id)
      && AllIds(next) == Beside(Without(AllIds(l), id), target, id, IsFirst(zone))
  {
    hide SplitIn, Beside, SlotIds, Shows, Count, SlotWithout, AllIds;
    var rest := PluginRemoved(l, id);
    RemoveTakesOut(l, id);
    RemoveCounts(l, id, target);
    assert Count(l, target) <= 1;
    SplitInPutsBeside(rest, target, zone, id);
    forall e
      ensures LandsIn(Dock(l, e), Dock(LeafSplit(l, target, zone, id), e), target, zone, id)
    {
      SplitInSlot(rest, target, zone, id, e);
      SlotLosesOne(Dock(l, e), id, id);
    }
    SplitInOverlay(rest, target, zone, id);
    SlotLosesOne(l.overlay, id, id);
  }

  lemma SplitCounts(l: Layout, target: string, zone: Zone, id: string, x: string)
    requires AreDistinct(l) && target != id
    ensures Count(LeafSplit(l, target, zone, id), x)
         == if x == id then Count(l, target) else Count(l, x)
  {
    hide Beside, Without, LeafSplit;
    var next, rest := LeafSplit(l, target, zone, id), Without(AllIds(l), id);
    SplitLandsBeside(l, target, zone, id);
    CountsAllIds(next, x);
    BesideCounts(rest, target, id, IsFirst(zone), x);
    WithoutCounts(AllIds(l), id, x);
    WithoutCounts(AllIds(l), id, target);
    CountsAllIds(l, x);
    CountsAllIds(l, target);
  }

  /** Floating is removing from the docks, and then having nothing but the plugin float. */
  lemma FloatIsRemoval(l: Layout, id: string)
    ensures PluginRemoved(l.(overlay := None), id).overlay == None
    ensures Floated(l, id) == PluginRemoved(l.(overlay := None), id).(overlay := Some(Leaf(id)))
  {
    hide Removed;
  }

  lemma FloatPlaces(l: Layout, id: string)
    ensures AllIds(Floated(l, id)) == Without(AllIds(l.(overlay := None)), id) + [id]
  {
    hide Without, PluginRemoved, Floated;
    var rest := PluginRemoved(l.(overlay := None), id);
    RemoveTakesOut(l.(overlay := None), id);
    FloatIsRemoval(l, id);
    assert SlotIds(None) == [] && SlotIds(Some(Leaf(id))) == [id];
    hide SlotIds;
    assert AllIds(rest) + [id] == AllIds(Floated(l, id));
  }

  lemma FloatCounts(l: Layout, id: string, x: string)
    ensures Count(Floated(l, id), x) == if x == id then 1 else Count(l, x) - CountIn(l.overlay, x)
  {
    hide PluginRemoved, Floated;
    RemoveCounts(l.(overlay := None), id, x);
    FloatIsRemoval(l, id);
    assert CountIn(None, x) == 0 && CountIn(Some(Leaf(id)), x) == if x == id then 1 else 0;
    hide CountIn;
  }

  /** Floating a plugin takes it from wherever it was, and closes what was floating. */
  lemma FloatReplaces(l: Layout, id: string, x: string)
    ensures AllIds(Floated(l, id)) == Without(AllIds(l.(overlay := None)), id) + [id]
    ensures Count(Floated(l, id), x) == if x == id then 1 else Count(l, x) - CountIn(l.overlay, x)
  {
    hide AllIds, Floated, Without, Count, CountIn;
    FloatPlaces(l, id);
    FloatCounts(l, id, x);
  }

  lemma RatioKeepsIds(l: Layout, edge: Edge, path: seq<nat>, ratio: Number)
    ensures forall e :: SlotIds(Dock(RatioSet(l, edge, path, ratio), e)) == SlotIds(Dock(l, e))
    ensures AllIds(RatioSet(l, edge, path, ratio)) == AllIds(l)
  {
    hide WithRatio, Ids;
    if Dock(l, edge).Some? {
      var node := Dock(l, edge).value;
      RatioChangesOne(node, path, ratio, []);
      ShapeKeepsIds(node);
      ShapeKeepsIds(WithRatio(node, path, ratio));
    }
  }

  // ---------------------------------------------------------------- whole runs

  datatype Step =
    | DockOn(id: string, edge: Edge, zone: Option<Zone>)
    | SplitOnto(target: string, half: Zone, id: string)
    | FloatPane(id: string)
    | Remove(id: string)
    | SetRatio(edge: Edge, path: seq<nat>, ratio: Number)
    | SetSize(edge: Edge, px: real)

  function After(l: Layout, step: Step): Layout {
    match step
    case DockOn(id, edge, zone) => DockedOn(l, id, edge, zone)
    case SplitOnto(target, zone, id) => LeafSplit(l, target, zone, id)
    case FloatPane(id) => Floated(l, id)
    case Remove(id) => PluginRemoved(l, id)
    case SetRatio(edge, path, ratio) => RatioSet(l, edge, path, ratio)
    case SetSize(edge, px) => WithSize(l, edge, px)
  }

  function Run(steps: seq<Step>): Layout {
    if steps == [] then EMPTY else After(Run(steps[..|steps| - 1]), steps[|steps| - 1])
  }

  /** How many panes show `x` after a step, told without looking at the trees. */
  function CountAfter(l: Layout, step: Step, x: string): int {
    match step
    case DockOn(id, _, _) => if x == id then 1 else Count(l, x)
    case SplitOnto(target, _, id) => if x == id && target != id then Count(l, target) else Count(l, x)
    case FloatPane(id) => if x == id then 1 else Count(l, x) - CountIn(l.overlay, x)
    case Remove(id) => if x == id then 0 else Count(l, x)
    case _ => Count(l, x)
  }

  lemma StepCounts(l: Layout, step: Step, x: string)
    requires AreDistinct(l)
    ensures Count(After(l, step), x) == CountAfter(l, step, x)
  {
    hide Count, DockedOn, PluginRemoved, Floated, LeafSplit, RatioSet, WithSize, CountIn;
    match step {
      case DockOn(id, edge, zone) => DockedCounts(l, id, edge, zone, x);
      case SplitOnto(target, zone, id) =>
        if target != id {
          SplitCounts(l, target, zone, id, x);
        } else {
          SplitOntoItself(l, zone, id);
        }
      case FloatPane(id) => FloatReplaces(l, id, x);
      case Remove(id) => RemoveCounts(l, id, x);
      case SetRatio(edge, path, ratio) => RatioCounts(l, edge, path, ratio, x);
      case SetSize(edge, px) => SizeCounts(l, edge, px, x);
    }
  }

  /** A plugin dropped onto one that has no pane is gone. */
  lemma MissingTargetTakesAway(id: string, edge: Edge, target: string, zone: Zone)
    requires target != id
    ensures var docked := Run([DockOn(id, edge, None)]); Count(docked, id) == 1
    ensures var dropped := Run([DockOn(id, edge, None), SplitOnto(target, zone, id)]);
      forall x :: Count(dropped, x) == 0
  {
    hide Count, After;
    var dock, drop := DockOn(id, edge, None), SplitOnto(target, zone, id);
    var one, two := [dock], [dock, drop];
    assert one[..0] == [] && two[..1] == one;
    assert Run([]) == EMPTY && Run(one) == After(EMPTY, dock) && Run(two) == After(Run(one), drop);
    forall x
      ensures Count(EMPTY, x) == 0
    {
      NothingIsShown(x);
    }
    forall x
      ensures Count(Run(one), x) == if x == id then 1 else 0
    {
      StepCounts(EMPTY, dock, x);
    }
    forall x
      ensures Count(Run(two), x) == 0
    {
      StepCounts(Run(one), drop, x);
    }
  }

  lemma NothingIsShown(x: string)
    ensures Count(EMPTY, x) == 0
  {
  }

  lemma RatioCounts(l: Layout, edge: Edge, path: seq<nat>, ratio: Number, x: string)
    ensures Count(RatioSet(l, edge, path, ratio), x) == Count(l, x)
  {
    RatioKeepsIds(l, edge, path, ratio);
    CountsAllIds(l, x);
    CountsAllIds(RatioSet(l, edge, path, ratio), x);
  }

  lemma SizeCounts(l: Layout, edge: Edge, px: real, x: string)
    ensures Count(WithSize(l, edge, px), x) == Count(l, x)
  {
    hide CountIn;
  }

  lemma SplitOntoItself(l: Layout, zone: Zone, id: string)
    ensures LeafSplit(l, id, zone, id) == l
  {
  }

  predicate SlotOk(slot: Option<Node>) {
    slot.Some? ==> RatiosOk(slot.value)
  }

  predicate AllRatiosOk(l: Layout) {
    SlotOk(l.left) && SlotOk(l.right) && SlotOk(l.top) && SlotOk(l.bottom) && SlotOk(l.overlay)
  }

  predicate SizesOk(l: Layout) {
    l.leftWidth >= 0.0 && l.rightWidth >= 0.0 && l.topHeight >= 0.0 && l.bottomHeight >= 0.0
  }

  lemma RemovedSlotOk(slot: Option<Node>, id: string)
    requires SlotOk(slot)
    ensures SlotOk(SlotWithout(slot, id))
  {
    if slot.Some? {
      RemoveKeepsRatios(slot.value, id);
    }
  }

  lemma RemoveKeepsAllRatios(l: Layout, id: string)
    requires AllRatiosOk(l)
    ensures AllRatiosOk(PluginRemoved(l, id))
  {
    hide SlotOk, SlotWithout;
    RemovedSlotOk(l.left, id);
    RemovedSlotOk(l.right, id);
    RemovedSlotOk(l.top, id);
    RemovedSlotOk(l.bottom, id);
    RemovedSlotOk(l.overlay, id);
  }

  lemma SlotChangeKeepsRatios(l: Layout, edge: Edge, node: Node)
    requires AllRatiosOk(l) && RatiosOk(node)
    ensures AllRatiosOk(WithDock(l, edge, Some(node)))
  {
    hide RatiosOk;
  }

  lemma SplitInKeepsRatios(l: Layout, target: string, zone: Zone, id: string)
    requires AllRatiosOk(l)
    ensures AllRatiosOk(SplitIn(l, EDGES, target, zone, id))
    ensures SizesOk(SplitIn(l, EDGES, target, zone, id)) == SizesOk(l)
  {
    var at := SplitInPuts(l, EDGES, target, zone, id);
    hide SplitIn, RatiosOk, SplitAt, Ids;
    if at.Some? {
      assert SlotOk(Dock(l, at.value));
      SplitKeepsRatios(Dock(l, at.value).value, target, id, zone);
      SlotChangeKeepsRatios(l, at.value, SplitAt(Dock(l, at.value).value, target, id, zone));
    } else if Shows(l.overlay, target) {
      SplitKeepsRatios(l.overlay.value, target, id, zone);
    }
  }

  predicate FitsOk(l: Layout) {
    AllRatiosOk(l) && SizesOk(l)
  }

  lemma RemoveKeepsFit(l: Layout, id: string)
    requires FitsOk(l)
    ensures FitsOk(PluginRemoved(l, id))
  {
    hide AllRatiosOk;
    RemoveKeepsAllRatios(l, id);
  }

  lemma DockKeepsFit(l: Layout, id: string, edge: Edge, zone: Option<Zone>)
    requires FitsOk(l)
    ensures FitsOk(DockedOn(l, id, edge, zone))
  {
    var rest := PluginRemoved(l, id);
    RemoveKeepsFit(l, id);
    var slot := Dock(rest, edge);
    assert SlotOk(slot);
    hide PluginRemoved, Wrapped, SlotOk, SlotWithout;
    assert slot.Some? ==> RatiosOk(slot.value);
    if slot.Some? {
      WrapKeepsRatios(slot.value, id, ZoneOn(edge, zone));
      SlotChangeKeepsRatios(rest, edge, Wrapped(slot.value, Leaf(id), ZoneOn(edge, zone)));
      SizeKeepsFit(WithDock(rest, edge, Some(Wrapped(slot.value, Leaf(id), ZoneOn(edge, zone)))), edge,
                   Size(rest, edge) + DOCK_GROW_STEP);
    } else {
      SlotChangeKeepsRatios(rest, edge, Leaf(id));
    }
  }

  lemma SizeKeepsFit(l: Layout, edge: Edge, px: real)
    requires AllRatiosOk(l) && SizesOk(l)
    ensures FitsOk(WithSize(l, edge, px))
  {
    hide SlotOk;
  }

  lemma RatioKeepsFit(l: Layout, edge: Edge, path: seq<nat>, ratio: Number)
    requires FitsOk(l)
    ensures FitsOk(RatioSet(l, edge, path, ratio))
  {
    hide WithRatio;
    if Dock(l, edge).Some? {
      assert SlotOk(Dock(l, edge));
      RatioKeepsRatios(Dock(l, edge).value, path, ratio);
      SlotChangeKeepsRatios(l, edge, WithRatio(Dock(l, edge).value, path, ratio));
    }
  }

  lemma FloatKeepsFit(l: Layout, id: string)
    requires FitsOk(l)
    ensures FitsOk(Floated(l, id))
  {
    hide PluginRemoved;
    RemoveKeepsFit(l, id);
  }

  lemma StepKeepsFit(l: Layout, step: Step)
    requires FitsOk(l)
    ensures FitsOk(After(l, step))
  {
    match step {
      case DockOn(id, edge, zone) => DockKeepsFit(l, id, edge, zone);
      case SplitOnto(target, zone, id) =>
        RemoveKeepsFit(l, id);
        SplitInKeepsRatios(PluginRemoved(l, id), target, zone, id);
      case FloatPane(id) => FloatKeepsFit(l, id);
      case Remove(id) => RemoveKeepsFit(l, id);
      case SetRatio(edge, path, ratio) => RatioKeepsFit(l, edge, path, ratio);
      case SetSize(edge, px) => SizeKeepsFit(l, edge, px);
    }
    hide AllRatiosOk, SizesOk, DockedOn, PluginRemoved, Floated, RatioSet, WithSize, SplitIn;
  }

  lemma WrapKeepsRatios(existing: Node, id: string, zone: Zone)
    requires RatiosOk(existing)
    ensures RatiosOk(Wrapped(existing, Leaf(id), zone))
  {
  }

  lemma MemberCounts(ids: seq<string>, x: string)
    requires x in ids
    ensures multiset(ids)[x] >= 1
  {
  }

  lemma DistinctMeansNoRepeats(l: Layout, i: nat, j: nat)
    requires AreDistinct(l) && i < j < |AllIds(l)|
    ensures AllIds(l)[i] != AllIds(l)[j]
  {
    hide AllIds, Count;
    var ids := AllIds(l);
    var x := ids[j];
    assert Count(l, x) <= 1;
    CountsAllIds(l, x);
    assert ids == ids[..j] + ids[j..];
    CountsAdd(ids[..j], ids[j..], x);
    assert ids[j..][0] == x;
    MemberCounts(ids[j..], x);
    if x in ids[..j] {
      MemberCounts(ids[..j], x);
    }
    assert ids[i] == ids[..j][i];
  }

  /** From an empty tab, whatever is docked, dropped, floated, removed or resized, no plugin ever
      has two panes, every split leaves both sides a hundredth, and no dock has a negative size. */
  lemma {:induction false} RunsStaySound(steps: seq<Step>)
    ensures AreDistinct(Run(steps)) && AllRatiosOk(Run(steps)) && SizesOk(Run(steps))
    ensures var ids := AllIds(Run(steps)); forall i, j :: 0 <= i < j < |ids| ==> ids[i] != ids[j]
    decreases |steps|
  {
    if steps != [] {
      var l, step := Run(steps[..|steps| - 1]), steps[|steps| - 1];
      RunsStaySound(steps[..|steps| - 1]);
      StepKeepsFit(l, step);
      forall x
        ensures Count(After(l, step), x) <= 1
      {
        StepCounts(l, step, x);
        assert Count(l, x) <= 1;
        if step.SplitOnto? {
          assert Count(l, step.target) <= 1;
        }
      }
    }
    forall i, j | 0 <= i < j < |AllIds(Run(steps))|
      ensures AllIds(Run(steps))[i] != AllIds(Run(steps))[j]
    {
      DistinctMeansNoRepeats(Run(steps), i, j);
    }
  }

  // ---------------------------------------------------------------- the object

  class TabPluginLayout {
    var left: Option<Node>
    var right: Option<Node>
    var top: Option<Node>
    var bottom: Option<Node>
    var overlay: Option<Node>
    var leftWidth: real
    var rightWidth: real
    var topHeight: real
    var bottomHeight: real

    constructor ()
      ensures Now() == EMPTY
    {
      left, right, top, bottom, overlay := None, None, None, None, None;
      leftWidth, rightWidth := DOCK_DEFAULT_WIDTH, DOCK_DEFAULT_WIDTH;
      topHeight, bottomHeight := DOCK_DEFAULT_HEIGHT, DOCK_DEFAULT_HEIGHT;
    }

    ghost function Now(): Layout
      reads this
    {
      Layout(left, right, top, bottom, overlay, leftWidth, rightWidth, topHeight, bottomHeight)
    }

    function DockAt(edge: Edge): (slot: Option<Node>)
      reads this
      ensures slot == Dock(Now(), edge)
    {
      match edge
      case LeftEdge => left
      case RightEdge => right
      case TopEdge => top
      case BottomEdge => bottom
    }

    method PutDock(edge: Edge, slot: Option<Node>)
      modifies this
      ensures Now() == WithDock(old(Now()), edge, slot)
    {
      match edge
      case LeftEdge => left := slot;
      case RightEdge => right := slot;
      case TopEdge => top := slot;
      case BottomEdge => bottom := slot;
    }

    method PutSize(edge: Edge, px: real)
      modifies this
      ensures Now() == WithSize(old(Now()), edge, px)
    {
      var value := if px < 0.0 then 0.0 else px;
      match edge
      case LeftEdge => leftWidth := value;
      case RightEdge => rightWidth := value;
      case TopEdge => topHeight := value;
      case BottomEdge => bottomHeight := value;
    }

    method PluginIds() returns (ids: seq<string>)
      ensures ids == AllIds(Now())
    {
      ids := [];
      for i := 0 to |EDGES|
        invariant ids == IdsOn(Now(), i)
      {
        var slot := DockAt(EDGES[i]);
        if slot.Some? {
          ids := Collect(slot.value, ids);
        }
      }
      IdsOnAll(Now());
      if overlay.Some? {
        ids := Collect(overlay.value, ids);
      }
    }

    method RemovePlugin(id: string)
      modifies this
      ensures Now() == PluginRemoved(old(Now()), id)
    {
      hide Removed;
      for i := 0 to |EDGES|
        invariant forall k :: 0 <= k < i ==> Dock(Now(), EDGES[k]) == SlotWithout(old(Dock(Now(), EDGES[k])), id)
        invariant forall k :: i <= k < |EDGES| ==> Dock(Now(), EDGES[k]) == old(Dock(Now(), EDGES[k]))
        invariant Now() == old(Now()).(left := left, right := right, top := top, bottom := bottom)
      {
        var slot := DockAt(EDGES[i]);
        if slot.Some? {
          PutDock(EDGES[i], Removed(slot.value, id));
        }
      }
      assert Dock(Now(), EDGES[0]) == left && Dock(Now(), EDGES[1]) == right;
      assert Dock(Now(), EDGES[2]) == top && Dock(Now(), EDGES[3]) == bottom;
      if overlay.Some? {
        overlay := Removed(overlay.value, id);
      }
    }

    method DockOnEdge(id: string, edge: Edge, zone: Option<Zone>)
      modifies this
      ensures Now() == DockedOn(old(Now()), id, edge, zone)
    {
      hide PluginRemoved, Wrapped;
      RemovePlugin(id);
      var slot := DockAt(edge);
      var incoming := Leaf(id);
      PutDock(edge, Some(if slot.None? then incoming else Wrapped(slot.value, incoming, ZoneOn(edge, zone))));
      if slot.Some? {
        PutSize(edge, SizeAt(edge) + DOCK_GROW_STEP);
      }
    }

    function SizeAt(edge: Edge): (px: real)
      reads this
      ensures px == Size(Now(), edge)
    {
      match edge
      case LeftEdge => leftWidth
      case RightEdge => rightWidth
      case TopEdge => topHeight
      case BottomEdge => bottomHeight
    }

    method SplitLeaf(target: string, zone: Zone, id: string)
      modifies this
      ensures Now() == LeafSplit(old(Now()), target, zone, id)
    {
      hide PluginRemoved, SplitAt;
      if target == id {
        return;
      }
      RemovePlugin(id);
      ghost var rest := Now();
      for i := 0 to |EDGES|
        invariant Now() == rest
        invariant SplitIn(rest, EDGES, target, zone, id) == SplitIn(rest, EDGES[i..], target, zone, id)
      {
        assert EDGES[i..][1..] == EDGES[i + 1..];
        var slot := DockAt(EDGES[i]);
        if slot.Some? {
          var ids := Collect(slot.value, []);
          if target in ids {
            PutDock(EDGES[i], Some(SplitAt(slot.value, target, id, zone)));
            return;
          }
        }
      }
      if overlay.Some? {
        var ids := Collect(overlay.value, []);
        if target in ids {
          overlay := Some(SplitAt(overlay.value, target, id, zone));
        }
      }
    }

    method SetSplitRatio(edge: Edge, path: seq<nat>, ratio: Number)
      modifies this
      ensures Now() == RatioSet(old(Now()), edge, path, ratio)
    {
      var slot := DockAt(edge);
      if slot.Some? {
        PutDock(edge, Some(WithRatio(slot.value, path, ratio)));
      }
    }

    method MoveToOverlay(id: string)
      modifies this
      ensures Now() == Floated(old(Now()), id)
    {
      hide PluginRemoved;
      RemovePlugin(id);
      overlay := Some(Leaf(id));
    }
  }
}
