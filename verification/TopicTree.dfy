/** The topic tree of the MQTT pane: topics flattened into rows, with counts rolled up. */
module TopicTree {
  import opened Options
  import opened Decimals
  import Orders

  type Path = string

  datatype Message = Message(atMs: nat, text: string)

  /** What is known about one topic. */
  datatype TopicEntry = TopicEntry(received: nat, history: seq<Message>)

  type Topics = map<Path, TopicEntry>

  datatype TreeLine = TreeLine(
    path: Path,
    segment: string,
    depth: nat,
    expandable: bool,
    expanded: bool,
    count: nat,
    received: nat,
    subTopics: nat,
    meta: Option<string>)

  // ---------------------------------------------------------------- paths

  /** `path` hangs somewhere below `ancestor`. */
  predicate IsAncestor(ancestor: Path, path: Path) {
    && |ancestor| < |path|
    && path[..|ancestor|] == ancestor
    && path[|ancestor|] == '/'
  }

  predicate AtOrUnder(path: Path, top: Path) {
    path == top || IsAncestor(top, path)
  }

  /** The path up to its last slash. */
  function ParentOf(path: Path): Option<Path> {
    if path == [] then None
    else if path[|path| - 1] == '/' then Some(path[..|path| - 1])
    else ParentOf(path[..|path| - 1])
  }

  /** The parent is the nearest ancestor, and the other ancestors are its ancestors. */
  lemma {:induction false} ParentIsNearest(path: Path)
    ensures ParentOf(path) == None <==> forall a :: !IsAncestor(a, path)
    ensures ParentOf(path).Some? ==>
      && IsAncestor(ParentOf(path).value, path)
      && forall a :: IsAncestor(a, path) <==> AtOrUnder(ParentOf(path).value, a)
    decreases |path|
  {
    if path != [] {
      var front := path[..|path| - 1];
      if path[|path| - 1] == '/' {
        forall a
          ensures IsAncestor(a, path) <==> AtOrUnder(front, a)
        {
          if |a| < |front| {
            assert path[..|a|] == front[..|a|];
          }
        }
        assert IsAncestor(front, path);
      } else {
        ParentIsNearest(front);
        forall a
          ensures IsAncestor(a, path) <==> IsAncestor(a, front)
        {
          if |a| < |front| {
            assert path[..|a|] == front[..|a|];
          }
        }
      }
    }
  }

  lemma AncestorsNest(a: Path, b: Path, path: Path)
    requires AtOrUnder(b, a) && AtOrUnder(path, b)
    ensures AtOrUnder(path, a)
    ensures IsAncestor(a, b) || IsAncestor(b, path) ==> IsAncestor(a, path)
  {
    if a != b && b != path {
      assert path[..|a|] == path[..|b|][..|a|];
    }
  }

  // ---------------------------------------------------------------- key order

  /** Lexicographic order of the characters, which for UTF-8 is the order of the bytes. */
  predicate Less(a: Path, b: Path) {
    && b != []
    && (a == [] || a[0] < b[0] || (a[0] == b[0] && Less(a[1..], b[1..])))
  }

  lemma {:induction false} LessIsAsymmetric(a: Path, b: Path)
    requires Less(a, b)
    ensures !Less(b, a) && a != b
  {
    if a != [] && a[0] == b[0] {
      LessIsAsymmetric(a[1..], b[1..]);
    }
  }

  lemma {:induction false} LessIsTransitive(a: Path, b: Path, c: Path)
    requires Less(a, b) && Less(b, c)
    ensures Less(a, c)
  {
    if a != [] && a[0] == b[0] == c[0] {
      LessIsTransitive(a[1..], b[1..], c[1..]);
    }
  }

  lemma {:induction false} LessIsTotal(a: Path, b: Path)
    ensures Less(a, b) || a == b || Less(b, a)
  {
    if a != [] && b != [] && a[0] == b[0] {
      LessIsTotal(a[1..], b[1..]);
      assert a == [a[0]] + a[1..] && b == [b[0]] + b[1..];
    }
  }

  /** An ancestor sorts before what hangs below it. */
  lemma {:induction false} AncestorIsLess(a: Path, path: Path)
    requires |a| < |path| && path[..|a|] == a
    ensures Less(a, path)
  {
    if a != [] {
      assert path[1..][..|a| - 1] == path[..|a|][1..];
      AncestorIsLess(a[1..], path[1..]);
    }
  }

  /** `order` lists `keys` the way the sorted map walks them. */
  ghost predicate IsKeyOrder(order: seq<Path>, keys: set<Path>) {
    && Orders.Ascending(Less, order)
    && forall k :: k in order <==> k in keys
  }

  lemma KeyOrderIsUnique(order: seq<Path>, other: seq<Path>, keys: set<Path>)
    requires IsKeyOrder(order, keys) && IsKeyOrder(other, keys)
    ensures order == other
  {
    forall a, b | Less(a, b)
      ensures !Less(b, a)
    {
      LessIsAsymmetric(a, b);
    }
    Orders.AscendingIsUnique(Less, order, other);
  }

  function Inserted(order: seq<Path>, key: Path): seq<Path> {
    if order == [] || Less(key, order[0]) then [key] + order
    else [order[0]] + Inserted(order[1..], key)
  }

  lemma {:induction false} InsertedKeepsOrder(order: seq<Path>, key: Path)
    requires Orders.Ascending(Less, order) && key !in order
    ensures Orders.Ascending(Less, Inserted(order, key))
    ensures forall k :: k in Inserted(order, key) <==> k == key || k in order
  {
    if order != [] {
      LessIsTotal(key, order[0]);
      if Less(key, order[0]) {
        forall j | 0 <= j < |order|
          ensures Less(key, order[j])
        {
          if j > 0 {
            LessIsTransitive(key, order[0], order[j]);
          }
        }
      } else {
        InsertedKeepsOrder(order[1..], key);
        assert order == [order[0]] + order[1..];
        var rest := Inserted(order[1..], key);
        forall j | 0 <= j < |rest|
          ensures Less(order[0], rest[j])
        {
          assert rest[j] in rest;
        }
      }
    }
  }

  /** The keys of a map as its iteration visits them. */
  method KeysInOrder(keys: set<Path>) returns (order: seq<Path>)
    ensures IsKeyOrder(order, keys)
  {
    order := [];
    var left := keys;
    while left != {}
      invariant left <= keys
      invariant IsKeyOrder(order, keys - left)
      decreases left
    {
      var key :| key in left;
      InsertedKeepsOrder(order, key);
      order := Inserted(order, key);
      left := left - {key};
    }
  }

  lemma {:induction false} KeyOrderExists(keys: set<Path>)
    ensures exists order :: IsKeyOrder(order, keys)
  {
    if keys == {} {
      assert IsKeyOrder([], keys);
    } else {
      var key :| key in keys;
      KeyOrderExists(keys - {key});
      var order :| IsKeyOrder(order, keys - {key});
      InsertedKeepsOrder(order, key);
      assert IsKeyOrder(Inserted(order, key), keys);
    }
  }

  ghost function KeyOrder(keys: set<Path>): (order: seq<Path>)
    ensures IsKeyOrder(order, keys)
  {
    KeyOrderExists(keys);
    var order :| IsKeyOrder(order, keys);
    order
  }

  // ---------------------------------------------------------------- the naive tree

  /** Every topic and every slash-prefix of one. */
  ghost predicate IsNode(topics: Topics, path: Path) {
    exists topic :: topic in topics && AtOrUnder(topic, path)
  }

  ghost predicate HasChildren(topics: Topics, path: Path) {
    exists topic :: topic in topics && IsAncestor(path, topic)
  }

  ghost predicate IsVisible(expanded: set<Path>, path: Path) {
    forall a :: IsAncestor(a, path) ==> a in expanded
  }

  /** Messages heard at or under `path`, over some of the topics. */
  ghost function HeardUnder(topics: Topics, order: seq<Path>, path: Path): nat
    requires forall t :: t in order ==> t in topics
  {
    if order == [] then 0
    else
      var last := order[|order| - 1];
      HeardUnder(topics, order[..|order| - 1], path)
      + (if AtOrUnder(last, path) then topics[last].received else 0)
  }

  /** How many of the topics strictly under `path` heard something. */
  ghost function TopicsUnder(topics: Topics, order: seq<Path>, path: Path): nat
    requires forall t :: t in order ==> t in topics
  {
    if order == [] then 0
    else
      var last := order[|order| - 1];
      TopicsUnder(topics, order[..|order| - 1], path)
      + (if IsAncestor(path, last) && topics[last].received > 0 then 1 else 0)
  }

  function Received(topics: Topics, path: Path): nat {
    if path in topics then topics[path].received else 0
  }

  function Slashes(path: Path): nat {
    if path == [] then 0 else Slashes(path[..|path| - 1]) + (if path[|path| - 1] == '/' then 1 else 0)
  }

  /** What follows the last slash. */
  function Segment(path: Path): string {
    match ParentOf(path)
    case None => path
    case Some(parent) => if |parent| < |path| then path[|parent| + 1..] else []
  }

  function Plural(count: nat): string {
    if count == 1 then "" else "s"
  }

  /** The row's trailing badge: what a collapsed branch holds, else what the topic itself heard. */
  function RowMeta(collapsedBranch: bool, subTopics: nat, under: nat, own: nat): Option<string> {
    if collapsedBranch then
      Some(Decimal(subTopics) + " topic" + Plural(subTopics) + ", "
           + Decimal(under) + " msg" + Plural(under))
    else if own > 0 then Some(Decimal(own))
    else None
  }

  function Row(path: Path, expandable: bool, open: bool, under: nat, own: nat, subTopics: nat): TreeLine {
    TreeLine(path, Segment(path), Slashes(path) % 0x1_0000, expandable, open, under, own, subTopics,
             RowMeta(expandable && !open, subTopics, under, own))
  }

  /** The row of one node, read off the whole topic map. */
  ghost function NodeRow(topics: Topics, expanded: set<Path>, path: Path): TreeLine {
    var order := KeyOrder(topics.Keys);
    Row(path, HasChildren(topics, path), path in expanded,
        HeardUnder(topics, order, path), Received(topics, path), TopicsUnder(topics, order, path))
  }

  ghost function NodeRows(topics: Topics, expanded: set<Path>, nodes: seq<Path>): seq<TreeLine> {
    if nodes == [] then []
    else
      var last := nodes[|nodes| - 1];
      NodeRows(topics, expanded, nodes[..|nodes| - 1])
      + (if IsVisible(expanded, last) then [NodeRow(topics, expanded, last)] else [])
  }

  ghost function Nodes(topics: Topics): set<Path> {
    set topic, k | topic in topics && 0 <= k <= |topic| && (k == |topic| || topic[k] == '/') :: topic[..k]
  }

  lemma NodesAreNodes(topics: Topics, path: Path)
    ensures path in Nodes(topics) <==> IsNode(topics, path)
  {
    if IsNode(topics, path) {
      var topic :| topic in topics && AtOrUnder(topic, path);
      var k := |path|;
      assert topic[..k] == path;
    }
  }

  /** The rows the pane shows: visible nodes in key order. */
  ghost function Rows(topics: Topics, expanded: set<Path>): seq<TreeLine> {
    NodeRows(topics, expanded, KeyOrder(Nodes(topics)))
  }

  // ---------------------------------------------------------------- the one-pass roll-up

  /** Running totals of one node. */
  datatype NodeTotals = NodeTotals(under: nat, own: nat, subTopics: nat, hasChildren: bool)

  const NOTHING := NodeTotals(0, 0, 0, false)

  function TotalsOf(totals: map<Path, NodeTotals>, path: Path): NodeTotals {
    if path in totals then totals[path] else NOTHING
  }

  /** Create the node of a topic and of everything above it. */
  method Register(totals: map<Path, NodeTotals>, topic: Path) returns (next: map<Path, NodeTotals>)
    ensures forall p :: p in next <==> p in totals || AtOrUnder(topic, p)
    ensures forall p :: p in next ==>
      next[p] == TotalsOf(totals, p).(hasChildren := TotalsOf(totals, p).hasChildren || IsAncestor(p, topic))
  {
    next := totals[topic := TotalsOf(totals, topic)];
    var node := topic;
    while true
      invariant AtOrUnder(topic, node)
      invariant forall p :: p in next <==> p in totals || p == topic || (IsAncestor(p, topic) && !IsAncestor(p, node))
      invariant forall p :: p in next ==>
        next[p] == TotalsOf(totals, p).(hasChildren := TotalsOf(totals, p).hasChildren
                                                       || (IsAncestor(p, topic) && !IsAncestor(p, node)))
      decreases |node|
    {
      ParentIsNearest(node);
      match ParentOf(node) {
        case None => break;
        case Some(parent) =>
          AncestorsNest(parent, node, topic);
          next := next[parent := TotalsOf(next, parent).(hasChildren := true)];
          node := parent;
      }
    }
  }

  /** Add what a topic heard to its node and to everything above it. */
  method RollUp(totals: map<Path, NodeTotals>, topic: Path, heard: nat) returns (next: map<Path, NodeTotals>)
    requires forall p :: AtOrUnder(topic, p) ==> p in totals
    ensures next.Keys == totals.Keys
    ensures forall p :: p in next ==> next[p] == Rolled(totals[p], topic, p, heard)
  {
    var own := totals[topic];
    next := totals[topic := own.(own := own.own + heard, under := own.under + heard)];
    if heard == 0 {
      return;
    }
    var node := topic;
    while true
      invariant AtOrUnder(topic, node)
      invariant next.Keys == totals.Keys
      invariant forall p :: p in next ==>
        next[p] == if IsAncestor(p, node) then totals[p] else Rolled(totals[p], topic, p, heard)
      decreases |node|
    {
      ParentIsNearest(node);
      match ParentOf(node) {
        case None => break;
        case Some(parent) =>
          AncestorsNest(parent, node, topic);
          var above := next[parent];
          next := next[parent := above.(under := above.under + heard, subTopics := above.subTopics + 1)];
          node := parent;
      }
    }
  }

  function Rolled(totals: NodeTotals, topic: Path, path: Path, heard: nat): NodeTotals {
    if path == topic then totals.(own := totals.own + heard, under := totals.under + heard)
    else if IsAncestor(path, topic) && heard > 0
    then totals.(under := totals.under + heard, subTopics := totals.subTopics + 1)
    else totals
  }

  /** Decides `IsVisible` without the quantifier, one parent at a time. */
  method Visible(expanded: set<Path>, path: Path) returns (visible: bool)
    ensures visible <==> IsVisible(expanded, path)
  {
    var node := path;
    while true
      invariant IsVisible(expanded, path) <==> IsVisible(expanded, node)
      decreases |node|
    {
      ParentIsNearest(node);
      match ParentOf(node) {
        case None => return true;
        case Some(parent) =>
          if parent !in expanded {
            return false;
          }
          node := parent;
      }
    }
  }

  /** The node's totals once the first pass is done and the second has reached `order`. */
  ghost function NodeTotalsAfter(topics: Topics, order: seq<Path>, path: Path): NodeTotals
    requires forall t :: t in order ==> t in topics
  {
    NodeTotals(HeardUnder(topics, order, path),
               if path in order then topics[path].received else 0,
               TopicsUnder(topics, order, path),
               HasChildren(topics, path))
  }

  /** The second pass advances by one topic. */
  lemma TotalsAdvance(topics: Topics, order: seq<Path>, topic: Path, path: Path)
    requires topic in topics && topic !in order && forall t :: t in order ==> t in topics
    ensures NodeTotalsAfter(topics, order + [topic], path)
         == Rolled(NodeTotalsAfter(topics, order, path), topic, path, topics[topic].received)
  {
    var next := order + [topic];
    assert next[..|order|] == order;
    assert path in next <==> path in order || path == topic;
  }

  method GatherNodes(topics: Topics, order: seq<Path>) returns (totals: map<Path, NodeTotals>)
    requires IsKeyOrder(order, topics.Keys)
    ensures forall p :: p in totals <==> IsNode(topics, p)
    ensures forall p :: p in totals ==> totals[p] == NodeTotalsAfter(topics, [], p)
  {
    hide IsAncestor, Less;
    totals := map[];
    ghost var done: set<Path> := {};
    for i := 0 to |order|
      invariant forall t :: t in done <==> t in order[..i]
      invariant forall p :: p in totals <==> exists t :: t in done && AtOrUnder(t, p)
      invariant forall p :: p in totals ==>
        totals[p] == NOTHING.(hasChildren := exists t :: t in done && IsAncestor(p, t))
    {
      ghost var before := totals;
      totals := Register(totals, order[i]);
      done := done + {order[i]};
      forall p | p in totals
        ensures totals[p] == NOTHING.(hasChildren := exists t :: t in done && IsAncestor(p, t))
      {
        if IsAncestor(p, order[i]) {
          assert order[i] in done;
        } else if p in before && before[p].hasChildren {
          var t :| t in done - {order[i]} && IsAncestor(p, t);
          assert t in done;
        } else if p !in before {
          assert forall t :: t in done && IsAncestor(p, t) ==> t == order[i];
        }
      }
    }
    assert done == topics.Keys;
  }

  lemma KeyOrderIsDistinct(order: seq<Path>, keys: set<Path>, i: nat)
    requires IsKeyOrder(order, keys) && i < |order|
    ensures order[i] !in order[..i]
  {
    forall j | 0 <= j < i
      ensures order[j] != order[i]
    {
      LessIsAsymmetric(order[j], order[i]);
    }
  }

  method SumUp(topics: Topics, order: seq<Path>) returns (totals: map<Path, NodeTotals>)
    requires IsKeyOrder(order, topics.Keys)
    ensures forall p :: p in totals <==> IsNode(topics, p)
    ensures forall p :: p in totals ==> totals[p] == NodeTotalsAfter(topics, order, p)
  {
    hide Less, Rolled, NodeTotalsAfter, IsAncestor;
    totals := GatherNodes(topics, order);
    for i := 0 to |order|
      invariant forall p :: p in totals <==> IsNode(topics, p)
      invariant forall p :: p in totals ==> totals[p] == NodeTotalsAfter(topics, order[..i], p)
    {
      assert order[..i + 1] == order[..i] + [order[i]];
      KeyOrderIsDistinct(order, topics.Keys, i);
      forall p {
        TotalsAdvance(topics, order[..i], order[i], p);
      }
      totals := RollUp(totals, order[i], topics[order[i]].received);
    }
    assert order[..|order|] == order;
  }

  method ListRows(topics: Topics, expanded: set<Path>, totals: map<Path, NodeTotals>, nodes: seq<Path>)
    returns (lines: seq<TreeLine>)
    requires forall p :: p in nodes ==> p in totals
    requires forall p :: p in totals ==> totals[p] == NodeTotalsAfter(topics, KeyOrder(topics.Keys), p)
    ensures lines == NodeRows(topics, expanded, nodes)
  {
    hide Less, IsAncestor, IsVisible, Row, HeardUnder, TopicsUnder;
    lines := [];
    for i := 0 to |nodes|
      invariant lines == NodeRows(topics, expanded, nodes[..i])
    {
      var path := nodes[i];
      assert nodes[..i + 1][..i] == nodes[..i];
      var visible := Visible(expanded, path);
      if visible {
        var total := totals[path];
        lines := lines + [Row(path, total.hasChildren, path in expanded, total.under, total.own, total.subTopics)];
      }
    }
    assert nodes[..|nodes|] == nodes;
  }

  /** The rows by two passes over the topics and one over the nodes, equal to `Rows`. */
  method TreeLines(topics: Topics, expanded: set<Path>) returns (lines: seq<TreeLine>)
    ensures lines == Rows(topics, expanded)
  {
    hide Less, IsAncestor, NodeTotalsAfter, NodeRows, Nodes, IsNode;
    var order := KeysInOrder(topics.Keys);
    KeyOrderIsUnique(order, KeyOrder(topics.Keys), topics.Keys);
    var totals := SumUp(topics, order);
    var nodes := KeysInOrder(totals.Keys);
    forall p
      ensures p in totals.Keys <==> p in Nodes(topics)
    {
      NodesAreNodes(topics, p);
    }
    assert totals.Keys == Nodes(topics);
    KeyOrderIsUnique(nodes, KeyOrder(Nodes(topics)), Nodes(topics));
    lines := ListRows(topics, expanded, totals, nodes);
  }

  // ---------------------------------------------------------------- what the rows say

  /** The rows are those of the visible ones among `nodes`. */
  lemma {:induction false} RowsOfVisibleNodes(topics: Topics, expanded: set<Path>, nodes: seq<Path>)
    ensures forall row :: row in NodeRows(topics, expanded, nodes) ==>
      row.path in nodes && IsVisible(expanded, row.path) && row == NodeRow(topics, expanded, row.path)
    ensures forall p :: p in nodes && IsVisible(expanded, p) ==>
      NodeRow(topics, expanded, p) in NodeRows(topics, expanded, nodes)
    decreases |nodes|
  {
    hide IsVisible;
    if nodes != [] {
      var front, last := nodes[..|nodes| - 1], nodes[|nodes| - 1];
      RowsOfVisibleNodes(topics, expanded, front);
      assert nodes == front + [last];
    }
  }

  ghost predicate RowsAscend(rows: seq<TreeLine>) {
    forall i, j :: 0 <= i < j < |rows| ==> Less(rows[i].path, rows[j].path)
  }

  lemma {:induction false} NodeRowsAscend(topics: Topics, expanded: set<Path>, nodes: seq<Path>)
    requires Orders.Ascending(Less, nodes)
    ensures RowsAscend(NodeRows(topics, expanded, nodes))
    decreases |nodes|
  {
    hide IsVisible, NodeRow;
    if nodes != [] {
      var front, last := nodes[..|nodes| - 1], nodes[|nodes| - 1];
      NodeRowsAscend(topics, expanded, front);
      RowsOfVisibleNodes(topics, expanded, front);
      var before := NodeRows(topics, expanded, front);
      forall i | 0 <= i < |before|
        ensures Less(before[i].path, last)
      {
        assert before[i] in before;
        var k :| 0 <= k < |front| && front[k] == before[i].path;
        assert Less(nodes[k], nodes[|front|]);
      }
      NodeRowPath(topics, expanded, last);
    }
  }

  lemma NodeRowPath(topics: Topics, expanded: set<Path>, path: Path)
    ensures NodeRow(topics, expanded, path).path == path
  {
  }

  /** The pane's rows against the naive tree: exactly the topics and ancestors of topics whose every
      ancestor is open, each once, in key order, each with the counts of everything under it. */
  lemma RowsAreTheTree(topics: Topics, expanded: set<Path>)
    ensures RowsAscend(Rows(topics, expanded))
    ensures forall row :: row in Rows(topics, expanded) <==>
      && IsNode(topics, row.path) && IsVisible(expanded, row.path)
      && row == NodeRow(topics, expanded, row.path)
  {
    hide IsVisible, IsNode, NodeRow, Nodes;
    var nodes := KeyOrder(Nodes(topics));
    NodeRowsAscend(topics, expanded, nodes);
    RowsOfVisibleNodes(topics, expanded, nodes);
    forall row: TreeLine
      ensures row.path in nodes <==> IsNode(topics, row.path)
    {
      NodesAreNodes(topics, row.path);
    }
  }

  /** A row's parent is shown too, above it, and counts at least as much. */
  lemma ParentRowIsShownAbove(topics: Topics, expanded: set<Path>, row: TreeLine)
    requires row in Rows(topics, expanded) && ParentOf(row.path).Some?
    ensures var parent := NodeRow(topics, expanded, ParentOf(row.path).value);
      && parent in Rows(topics, expanded)
      && Less(parent.path, row.path)
      && parent.expandable && parent.expanded
      && parent.count >= row.count
  {
    var path, above := row.path, ParentOf(row.path).value;
    RowsAreTheTree(topics, expanded);
    ParentIsNearest(path);
    AncestorIsLess(above, path);
    var topic :| topic in topics && AtOrUnder(topic, path);
    AncestorsNest(above, path, topic);
    forall a | IsAncestor(a, above)
      ensures IsAncestor(a, path)
    {
      AncestorsNest(a, above, path);
    }
    HeardUnderGrows(topics, KeyOrder(topics.Keys), path, above);
  }

  lemma {:induction false} HeardUnderGrows(topics: Topics, order: seq<Path>, path: Path, above: Path)
    requires IsAncestor(above, path) && forall t :: t in order ==> t in topics
    ensures HeardUnder(topics, order, above) >= HeardUnder(topics, order, path)
    decreases |order|
  {
    if order != [] {
      var last := order[|order| - 1];
      HeardUnderGrows(topics, order[..|order| - 1], path, above);
      if AtOrUnder(last, path) {
        AncestorsNest(above, path, last);
      }
    }
  }

  // ---------------------------------------------------------------- the fields of a row

  /** A path is its parent, a slash, and a segment without slashes; the depth counts the parents. */
  lemma {:induction false} SegmentIs(path: Path)
    ensures ParentOf(path) == None ==> Segment(path) == path && HasNoSlash(path) && Slashes(path) == 0
    ensures ParentOf(path).Some? ==>
      && path == ParentOf(path).value + "/" + Segment(path) && HasNoSlash(Segment(path))
      && Slashes(path) == Slashes(ParentOf(path).value) + 1
    decreases |path|
  {
    if path != [] {
      var front, last := path[..|path| - 1], path[|path| - 1];
      assert path == front + [last];
      if last == '/' {
        assert Segment(path) == [];
        assert path == front + "/" + [];
      } else {
        SegmentIs(front);
        SegmentGrows(front, last);
      }
    }
  }

  lemma SegmentGrows(front: Path, last: char)
    requires last != '/'
    requires ParentOf(front) == None ==> HasNoSlash(front)
    requires ParentOf(front).Some? ==>
      front == ParentOf(front).value + "/" + Segment(front) && HasNoSlash(Segment(front))
    ensures ParentOf(front + [last]) == ParentOf(front)
    ensures Segment(front + [last]) == Segment(front) + [last]
    ensures ParentOf(front) == None ==> HasNoSlash(front + [last])
    ensures ParentOf(front).Some? ==>
      && front + [last] == ParentOf(front).value + "/" + Segment(front + [last])
      && HasNoSlash(Segment(front + [last]))
  {
    hide ParentOf, HasNoSlash;
    ParentStays(front, last);
    NoSlashOn(front, last);
    match ParentOf(front) {
      case None =>
      case Some(parent) =>
        NoSlashOn(Segment(front), last);
        SegmentBehind(parent, Segment(front), last);
        assert front + [last] == parent + "/" + (Segment(front) + [last]);
    }
  }

  lemma NoSlashOn(path: Path, last: char)
    requires last != '/'
    ensures HasNoSlash(path) ==> HasNoSlash(path + [last])
  {
  }

  lemma ParentStays(front: Path, last: char)
    requires last != '/'
    ensures ParentOf(front + [last]) == ParentOf(front)
  {
    assert (front + [last])[..|front|] == front;
  }

  lemma SegmentBehind(parent: Path, segment: Path, last: char)
    ensures (parent + "/" + segment + [last])[|parent| + 1..] == segment + [last]
    ensures (parent + "/" + segment)[|parent| + 1..] == segment
  {
  }

  /** What a row shows of its node. A closed branch shows how many topics below it heard something, and how
      much was heard; any other node what it heard itself, if it did. */
  lemma RowSays(topics: Topics, expanded: set<Path>, row: TreeLine)
    requires row in Rows(topics, expanded)
    ensures row.expandable <==> exists t :: t in topics && IsAncestor(row.path, t)
    ensures row.expanded <==> row.path in expanded
    ensures row.received == if row.path in topics then topics[row.path].received else 0
    ensures row.segment == Segment(row.path) && row.depth == Slashes(row.path) % 65536
    ensures row.expandable && !row.expanded ==>
      row.meta == Some(Decimal(row.subTopics) + (if row.subTopics == 1 then " topic, " else " topics, ")
                       + Decimal(row.count) + (if row.count == 1 then " msg" else " msgs"))
    ensures !(row.expandable && !row.expanded) ==>
      row.meta == if row.received == 0 then None else Some(Decimal(row.received))
  {
    hide Rows, IsVisible, IsNode, HeardUnder, TopicsUnder, Decimal, IsAncestor;
    RowsAreTheTree(topics, expanded);
    var n, m := row.subTopics, row.count;
    PluralIs(Decimal(n), Decimal(m), n == 1, m == 1);
  }

  lemma PluralIs(n: string, m: string, one: bool, single: bool)
    ensures n + " topic" + (if one then "" else "s") + ", " + m + " msg" + (if single then "" else "s")
         == n + (if one then " topic, " else " topics, ") + m + (if single then " msg" else " msgs")
  {
    assert " topic" + "" + ", " == " topic, " && " topic" + "s" + ", " == " topics, ";
    assert " msg" + "" == " msg" && " msg" + "s" == " msgs";
    var topic := if one then "" else "s";
    assert n + " topic" + topic + ", " == n + (" topic" + topic + ", ");
    var msg := if single then "" else "s";
    assert n + " topic" + topic + ", " + m + " msg" + msg == n + (" topic" + topic + ", ") + m + (" msg" + msg);
  }

  /** One more message on a topic counts once for the topic and for each of its ancestors, and for no other
      node; a branch has one more heard topic below it if that was the first one. */
  lemma MessageCounts(topics: Topics, topic: Path, entry: TopicEntry, path: Path)
    requires topic in topics && entry.received == topics[topic].received + 1
    ensures var next := topics[topic := entry];
      var order := KeyOrder(topics.Keys);
      && KeyOrder(next.Keys) == order
      && HeardUnder(next, order, path) == HeardUnder(topics, order, path)
           + (if topic == path || IsAncestor(path, topic) then 1 else 0)
      && TopicsUnder(next, order, path) == TopicsUnder(topics, order, path)
           + (if IsAncestor(path, topic) && topics[topic].received == 0 then 1 else 0)
  {
    var next, order := topics[topic := entry], KeyOrder(topics.Keys);
    assert next.Keys == topics.Keys;
    OrderHasOnce(order, topics.Keys, topic);
    MessageCountsIn(topics, topic, entry, path, order);
  }

  /** Topics that heard nothing count for nothing. */
  lemma {:induction false} SilenceCountsNothing(topics: Topics, order: seq<Path>, path: Path)
    requires forall t :: t in order ==> t in topics && topics[t].received == 0
    ensures HeardUnder(topics, order, path) == 0 && TopicsUnder(topics, order, path) == 0
  {
    if order != [] {
      SilenceCountsNothing(topics, order[..|order| - 1], path);
      assert order[|order| - 1] in order;
    }
  }

  lemma OrderHasOnce(order: seq<Path>, keys: set<Path>, topic: Path)
    requires IsKeyOrder(order, keys) && topic in keys
    ensures multiset(order)[topic] == 1
  {
    hide Less;
    var i :| 0 <= i < |order| && order[i] == topic;
    forall j | 0 <= j < |order| && j != i
      ensures order[j] != topic
    {
      if j < i {
        LessIsAsymmetric(order[j], order[i]);
      } else {
        LessIsAsymmetric(order[i], order[j]);
      }
    }
    OnceMeansOne(order, i);
  }

  lemma OnceMeansOne(order: seq<Path>, i: nat)
    requires i < |order| && forall j :: 0 <= j < |order| && j != i ==> order[j] != order[i]
    ensures multiset(order)[order[i]] == 1
  {
    var before, after := order[..i], order[i + 1..];
    assert order == before + [order[i]] + after;
    assert order[i] !in before && order[i] !in after;
  }

  lemma {:induction false} MessageCountsIn(topics: Topics, topic: Path, entry: TopicEntry, path: Path, order: seq<Path>)
    requires topic in topics && entry.received == topics[topic].received + 1
    requires forall t :: t in order ==> t in topics
    requires multiset(order)[topic] <= 1
    ensures var next, once := topics[topic := entry], multiset(order)[topic];
      && HeardUnder(next, order, path) == HeardUnder(topics, order, path)
           + (if topic == path || IsAncestor(path, topic) then once else 0)
      && TopicsUnder(next, order, path) == TopicsUnder(topics, order, path)
           + (if IsAncestor(path, topic) && topics[topic].received == 0 then once else 0)
    decreases |order|
  {
    hide IsAncestor;
    if order != [] {
      var front, last := order[..|order| - 1], order[|order| - 1];
      assert order == front + [last];
      MessageCountsIn(topics, topic, entry, path, front);
    }
  }

  lemma LessAfter(c: char, a: Path, b: Path)
    requires Less(a, b)
    ensures Less([c] + a, [c] + b)
  {
    assert ([c] + a)[1..] == a && ([c] + b)[1..] == b;
  }

  lemma {:induction false} LessBehind(branch: Path, a: Path, b: Path)
    requires Less(a, b)
    ensures Less(branch + a, branch + b)
  {
    hide Less;
    if branch == [] {
      assert branch + a == a && branch + b == b;
    } else {
      var tail := branch[1..];
      LessBehind(tail, a, b);
      LessAfter(branch[0], tail + a, tail + b);
      assert branch + a == [branch[0]] + (tail + a) && branch + b == [branch[0]] + (tail + b);
    }
  }

  /** Key order is not a walk of the tree: a sibling whose name goes on with a character below the
      slash stands between a branch and what hangs below it. */
  lemma SiblingComesBetween(branch: Path, ending: Path, below: Path)
    requires ending != [] && ending[0] < '/'
    ensures Less(branch, branch + ending) && Less(branch + ending, branch + ("/" + below))
    ensures IsAncestor(branch, branch + ("/" + below)) && !AtOrUnder(branch + ending, branch)
  {
    assert Less([], ending) && Less(ending, "/" + below);
    LessBehind(branch, [], ending);
    LessBehind(branch, ending, "/" + below);
    hide Less;
    assert branch + [] == branch;
    assert (branch + ending)[|branch|] == ending[0];
    assert (branch + ("/" + below))[..|branch|] == branch && (branch + ("/" + below))[|branch|] == '/';
  }

  /** What is shown under a row follows it without a foreign row in between. */
  predicate RowsAreAWalk(rows: seq<TreeLine>) {
    forall i, j, k :: 0 <= i < j < k < |rows| && IsAncestor(rows[i].path, rows[k].path) ==>
      IsAncestor(rows[i].path, rows[j].path)
  }

  /** `sibling` goes on where the name of `branch` ends, with a character below the slash, and `below`
      hangs below `branch`. */
  predicate StandsBetween(branch: Path, sibling: Path, below: Path) {
    && IsAncestor(branch, below)
    && |branch| < |sibling| && sibling[..|branch|] == branch && sibling[|branch|] < '/'
  }

  predicate Intrudes(rows: seq<TreeLine>, i: nat, j: nat, k: nat)
    requires i < |rows| && j < |rows| && k < |rows|
  {
    StandsBetween(rows[i].path, rows[j].path, rows[k].path)
  }

  predicate HasIntruder(rows: seq<TreeLine>) {
    exists i: nat, j: nat, k: nat :: i < |rows| && j < |rows| && k < |rows| && Intrudes(rows, i, j, k)
  }

  /** Between a branch and what hangs below it stand only paths that go on from the branch. */
  lemma {:induction false} BetweenGoesOn(branch: Path, path: Path, below: Path)
    requires Less(branch, path) && Less(path, branch + ("/" + below))
    ensures |branch| < |path| && path[..|branch|] == branch && path[|branch|] <= '/'
  {
    if branch != [] {
      assert (branch + ("/" + below))[1..] == branch[1..] + ("/" + below);
      BetweenGoesOn(branch[1..], path[1..], below);
      assert path[..|branch|] == [path[0]] + path[1..][..|branch| - 1];
      assert branch == [branch[0]] + branch[1..];
    } else {
      assert branch + ("/" + below) == "/" + below;
    }
  }

  /** Such a sibling stands between the branch and what hangs below it, and hangs below neither. */
  lemma IntruderStandsBetween(branch: Path, sibling: Path, below: Path)
    requires StandsBetween(branch, sibling, below)
    ensures Less(branch, sibling) && Less(sibling, below) && !IsAncestor(branch, sibling)
  {
    hide Less;
    var ending, rest := sibling[|branch|..], below[|branch| + 1..];
    SiblingComesBetween(branch, ending, rest);
    assert branch + ending == sibling[..|branch|] + ending == sibling;
    assert branch + ("/" + rest) == below[..|branch|] + [below[|branch|]] + rest == below;
  }

  lemma AscendingOrder(rows: seq<TreeLine>, i: nat, j: nat)
    requires RowsAscend(rows) && i < |rows| && j < |rows| && Less(rows[i].path, rows[j].path)
    ensures i < j
  {
    if i == j {
      LessIsAsymmetric(rows[i].path, rows[j].path);
    } else if j < i {
      LessIsAsymmetric(rows[j].path, rows[i].path);
    }
  }

  lemma IntruderBreaksTheWalk(rows: seq<TreeLine>, i: nat, j: nat, k: nat)
    requires RowsAscend(rows) && i < |rows| && j < |rows| && k < |rows| && Intrudes(rows, i, j, k)
    ensures !RowsAreAWalk(rows)
  {
    hide Less, IsAncestor, RowsAscend;
    IntruderStandsBetween(rows[i].path, rows[j].path, rows[k].path);
    AscendingOrder(rows, i, j);
    AscendingOrder(rows, j, k);
  }

  lemma PathBetween(branch: Path, sibling: Path, below: Path)
    requires Less(branch, sibling) && Less(sibling, below) && IsAncestor(branch, below)
    ensures IsAncestor(branch, sibling) || StandsBetween(branch, sibling, below)
  {
    hide Less;
    var rest := below[|branch| + 1..];
    assert below == branch + ("/" + rest) by {
      assert below == below[..|branch|] + [below[|branch|]] + rest;
    }
    BetweenGoesOn(branch, sibling, rest);
  }

  lemma WalkOrIntruder(rows: seq<TreeLine>, i: nat, j: nat, k: nat)
    requires RowsAscend(rows) && i < j < k < |rows| && IsAncestor(rows[i].path, rows[k].path)
    ensures IsAncestor(rows[i].path, rows[j].path) || Intrudes(rows, i, j, k)
  {
    hide Less, IsAncestor, StandsBetween;
    PathBetween(rows[i].path, rows[j].path, rows[k].path);
  }

  lemma AscendingAreAWalkExactly(rows: seq<TreeLine>)
    requires RowsAscend(rows)
    ensures RowsAreAWalk(rows) <==> !HasIntruder(rows)
  {
    hide Less, RowsAscend, Intrudes, IsAncestor;
    if HasIntruder(rows) {
      var i: nat, j: nat, k: nat :| i < |rows| && j < |rows| && k < |rows| && Intrudes(rows, i, j, k);
      IntruderBreaksTheWalk(rows, i, j, k);
    } else {
      forall i, j, k | 0 <= i < j < k < |rows| && IsAncestor(rows[i].path, rows[k].path)
        ensures IsAncestor(rows[i].path, rows[j].path)
      {
        WalkOrIntruder(rows, i, j, k);
        assert !Intrudes(rows, i, j, k);
      }
    }
  }

  ghost predicate IsShown(topics: Topics, expanded: set<Path>, path: Path) {
    IsNode(topics, path) && IsVisible(expanded, path)
  }

  /** Some shown path stands between a shown branch and something shown below that branch. */
  ghost predicate HasShownIntruder(topics: Topics, expanded: set<Path>) {
    exists branch, sibling, below ::
      && IsShown(topics, expanded, branch) && IsShown(topics, expanded, sibling)
      && IsShown(topics, expanded, below) && StandsBetween(branch, sibling, below)
  }

  lemma ShownPath(topics: Topics, expanded: set<Path>, path: Path) returns (i: nat)
    requires IsShown(topics, expanded, path)
    ensures i < |Rows(topics, expanded)| && Rows(topics, expanded)[i].path == path
  {
    RowsAreTheTree(topics, expanded);
    NodeRowPath(topics, expanded, path);
    var rows, row := Rows(topics, expanded), NodeRow(topics, expanded, path);
    hide Rows, NodeRow, IsNode, IsVisible;
    assert row in rows;
    i :| i < |rows| && rows[i] == row;
  }

  lemma RowIsShown(topics: Topics, expanded: set<Path>, i: nat)
    requires i < |Rows(topics, expanded)|
    ensures IsShown(topics, expanded, Rows(topics, expanded)[i].path)
  {
    hide Rows, NodeRow, IsNode, IsVisible, RowsAscend;
    RowsAreTheTree(topics, expanded);
    assert Rows(topics, expanded)[i] in Rows(topics, expanded);
  }

  lemma IntrudersAreShown(topics: Topics, expanded: set<Path>)
    ensures HasIntruder(Rows(topics, expanded)) <==> HasShownIntruder(topics, expanded)
  {
    hide Rows, IsShown, StandsBetween;
    var rows := Rows(topics, expanded);
    if HasIntruder(rows) {
      var i: nat, j: nat, k: nat :| i < |rows| && j < |rows| && k < |rows| && Intrudes(rows, i, j, k);
      RowIsShown(topics, expanded, i);
      RowIsShown(topics, expanded, j);
      RowIsShown(topics, expanded, k);
    }
    if HasShownIntruder(topics, expanded) {
      var branch, sibling, below :|
        && IsShown(topics, expanded, branch) && IsShown(topics, expanded, sibling)
        && IsShown(topics, expanded, below) && StandsBetween(branch, sibling, below);
      var i := ShownPath(topics, expanded, branch);
      var j := ShownPath(topics, expanded, sibling);
      var k := ShownPath(topics, expanded, below);
      assert Intrudes(rows, i, j, k);
    }
  }

  /** The rows of a topic map are a walk of the tree exactly when nothing shown stands so between a
      branch and what is shown below it. */
  lemma RowsAreAWalkExactly(topics: Topics, expanded: set<Path>)
    ensures RowsAreAWalk(Rows(topics, expanded)) <==> !HasShownIntruder(topics, expanded)
  {
    hide Rows, RowsAscend, IsNode, IsVisible, NodeRow, RowsAreAWalk, HasIntruder, HasShownIntruder;
    RowsAreTheTree(topics, expanded);
    AscendingAreAWalkExactly(Rows(topics, expanded));
    IntrudersAreShown(topics, expanded);
  }

  predicate HasNoSlash(path: Path) {
    forall i :: 0 <= i < |path| ==> path[i] != '/'
  }

  /** Without a slash in them, names have no ancestors, and a name below a branch has just that. */
  lemma AncestorsOfTwo(branch: Path, below: Path)
    requires HasNoSlash(branch) && HasNoSlash(below)
    ensures forall a :: !IsAncestor(a, branch)
    ensures forall a :: IsAncestor(a, branch + ("/" + below)) <==> a == branch
  {
    var path := branch + ("/" + below);
    assert path[..|branch|] == branch && path[|branch|] == '/';
    assert forall i :: |branch| < i < |path| ==> path[i] == below[i - |branch| - 1];
    assert forall i :: 0 <= i < |branch| ==> path[i] == branch[i];
    forall a | IsAncestor(a, path)
      ensures a == branch
    {
      assert path[|a|] == '/';
    }
  }

  /** Two topics are enough: one below an open branch, and a sibling that goes on where the branch's
      name ends, as `a/x` and `a-b` do. */
  lemma TwoTopicsAreNoWalk(topics: Topics, branch: Path, ending: Path, below: Path)
    requires HasNoSlash(branch) && HasNoSlash(ending) && HasNoSlash(below)
    requires ending != [] && ending[0] < '/'
    requires topics.Keys == {branch + ("/" + below), branch + ending}
    ensures !RowsAreAWalk(Rows(topics, {branch}))
  {
    var path, sibling, expanded := branch + ("/" + below), branch + ending, {branch};
    AncestorsOfTwo(branch, below);
    assert HasNoSlash(sibling);
    AncestorsOfTwo(sibling, below);
    assert path in topics && sibling in topics;
    assert IsNode(topics, path) && IsNode(topics, sibling) && IsNode(topics, branch);
    assert IsVisible(expanded, path) && IsVisible(expanded, sibling) && IsVisible(expanded, branch);
    assert sibling[..|branch|] == branch && sibling[|branch|] == ending[0];
    assert IsShown(topics, expanded, branch) && IsShown(topics, expanded, sibling) && IsShown(topics, expanded, path);
    assert StandsBetween(branch, sibling, path);
    hide Rows, IsShown, StandsBetween, HasNoSlash, RowsAreAWalk;
    assert HasShownIntruder(topics, expanded);
    RowsAreAWalkExactly(topics, expanded);
  }

  lemma AxAndAb(topics: Topics)
    requires topics.Keys == {"a/x", "a-b"}
    ensures !RowsAreAWalk(Rows(topics, {"a"}))
  {
    hide Rows, RowsAreAWalk;
    assert "a" + ("/" + "x") == "a/x" && "a" + "-b" == "a-b";
    TwoTopicsAreNoWalk(topics, "a", "-b", "x");
  }
}
