/** The MQTT pane's state: topics heard, branches opened, and the cached rows of the tree. */
module TopicPane {
  import opened Decimals
  import opened Options
  import opened TopicTree
  import Orders

  const HISTORY_LIMIT := 100
  const MAX_TOPICS := 500

  /** What the pane hears from its client; a message without payload takes its topic away. */
  datatype Event =
    | Opened
    | Heard(topic: Path, payload: string, nowMs: nat)
    | Lost

  datatype Pane = Pane(
    topics: Topics,
    expanded: set<Path>,
    selected: Option<Path>,
    lines: seq<TreeLine>,
    treeDirty: bool,
    session: bool)

  const EMPTY_PANE := Pane(map[], {}, None, [], false, false)
  const EMPTY_ENTRY := TopicEntry(0, [])

  /** The cached rows are current, or known not to be. */
  ghost predicate Agrees(pane: Pane) {
    !pane.treeDirty ==> pane.lines == Rows(pane.topics, pane.expanded)
  }

  // ---------------------------------------------------------------- the steps

  predicate HasTopics(topics: Topics, node: Path) {
    exists t :: t in topics && AtOrUnder(t, node)
  }

  function Toggled(pane: Pane, path: Path): Pane {
    pane.(expanded := if path in pane.expanded then pane.expanded - {path} else pane.expanded + {path},
          treeDirty := true)
  }

  ghost function Refreshed(pane: Pane): Pane {
    if pane.treeDirty || (pane.lines == [] && pane.topics != map[])
    then pane.(lines := Rows(pane.topics, pane.expanded), treeDirty := false)
    else pane
  }

  /** Forget a whole subtree, the selection in it, and the branches left without topics. */
  function Cleared(pane: Pane, path: Path): Pane {
    if !pane.session then pane
    else
      var topics := map t | t in pane.topics && !AtOrUnder(t, path) :: pane.topics[t];
      pane.(topics := topics,
            selected := if pane.selected.Some? && AtOrUnder(pane.selected.value, path) then None else pane.selected,
            expanded := set node | node in pane.expanded && HasTopics(topics, node) :: node,
            treeDirty := true)
  }

  function Reconnected(pane: Pane): Pane {
    Pane(map[], {}, None, [], false, false)
  }

  /** The newest `HISTORY_LIMIT` messages. */
  function Bounded(history: seq<Message>): seq<Message> {
    if |history| <= HISTORY_LIMIT then history else history[|history| - HISTORY_LIMIT..]
  }

  function Entry(topics: Topics, path: Path): TopicEntry {
    if path in topics then topics[path] else EMPTY_ENTRY
  }

  function Pushed(entry: TopicEntry, message: Message): TopicEntry {
    TopicEntry(entry.received + 1, Bounded(entry.history + [message]))
  }

  /** When a topic was last heard. */
  function LastAt(entry: TopicEntry): nat {
    if entry.history == [] then 0 else entry.history[|entry.history| - 1].atMs
  }

  /** The least recently updated of `order`, the first one among equals. */
  function Oldest(topics: Topics, order: seq<Path>): Path
    requires order != [] && forall t :: t in order ==> t in topics
    ensures Oldest(topics, order) in order
  {
    var last := order[|order| - 1];
    if |order| == 1 then last
    else
      var best := Oldest(topics, order[..|order| - 1]);
      if LastAt(topics[last]) < LastAt(topics[best]) then last else best
  }

  predicate Older(topics: Topics, a: Path, b: Path)
    requires a in topics && b in topics
  {
    LastAt(topics[a]) < LastAt(topics[b]) || (LastAt(topics[a]) == LastAt(topics[b]) && Less(a, b))
  }

  /** Nothing that stays was updated less recently than what goes. */
  lemma {:induction false} OldestIsOldest(topics: Topics, order: seq<Path>)
    requires order != [] && Orders.Ascending(Less, order) && forall t :: t in order ==> t in topics
    ensures forall t :: t in order && t != Oldest(topics, order) ==> Older(topics, Oldest(topics, order), t)
    decreases |order|
  {
    hide LastAt, Less, Older;
    var front, last := order[..|order| - 1], order[|order| - 1];
    assert order == front + [last];
    if front != [] {
      OldestIsOldest(topics, front);
      OldestOfOneMore(topics, front, last);
    }
  }

  lemma OldestOfOneMore(topics: Topics, front: seq<Path>, last: Path)
    requires front != [] && Orders.Ascending(Less, front + [last])
    requires last in topics && forall t :: t in front ==> t in topics
    requires forall t :: t in front && t != Oldest(topics, front) ==> Older(topics, Oldest(topics, front), t)
    ensures var order := front + [last];
      forall t :: t in order && t != Oldest(topics, order) ==> Older(topics, Oldest(topics, order), t)
  {
    var order, best := front + [last], Oldest(topics, front);
    var k :| 0 <= k < |front| && front[k] == best;
    assert Less(order[k], order[|front|]);
    assert order[..|front|] == front;
    assert Oldest(topics, order) == if LastAt(topics[last]) < LastAt(topics[best]) then last else best;
    hide LastAt, Less, Oldest;
    forall t | t in order && t != Oldest(topics, order)
      ensures Older(topics, Oldest(topics, order), t)
    {
      assert t in front || t == last;
      assert t in front && t != best ==> Older(topics, best, t);
    }
  }

  /** Drop the oldest topics until the rest fits. */
  ghost function Evicted(topics: Topics): Topics
    decreases |topics|
  {
    if |topics| <= MAX_TOPICS then topics
    else
      var order := KeyOrder(topics.Keys);
      SomeKey(topics, order);
      Evicted(Without(topics, Oldest(topics, order)))
  }

  function Without(topics: Topics, path: Path): (rest: Topics)
    ensures path in topics ==> |rest| == |topics| - 1
  {
    assert path in topics ==> (topics - {path}).Keys == topics.Keys - {path};
    topics - {path}
  }

  /** Whatever went was updated less recently than everything that is left. */
  predicate KeepsNewest(topics: Topics, left: Topics) {
    forall gone, kept :: gone in topics && gone !in left && kept in left && kept in topics ==>
      Older(topics, gone, kept)
  }

  lemma OneMoreGoes(topics: Topics, oldest: Path, left: Topics)
    requires oldest in topics && forall t :: t in topics && t != oldest ==> Older(topics, oldest, t)
    requires forall t :: t in left ==> t in Without(topics, oldest)
    requires KeepsNewest(Without(topics, oldest), left)
    ensures KeepsNewest(topics, left)
  {
    hide Less, LastAt;
    forall gone, kept | gone in topics && gone !in left && kept in left && kept in topics
      ensures Older(topics, gone, kept)
    {
      if gone != oldest {
        assert Older(Without(topics, oldest), gone, kept);
      }
    }
  }

  /** Eviction leaves as many topics as the limit allows, untouched, and whatever it drops was updated
      less recently than everything it leaves. */
  lemma {:induction false} EvictionKeepsNewest(topics: Topics)
    ensures |Evicted(topics)| == if |topics| <= MAX_TOPICS then |topics| else MAX_TOPICS
    ensures forall t :: t in Evicted(topics) ==> t in topics && Evicted(topics)[t] == topics[t]
    ensures KeepsNewest(topics, Evicted(topics))
    decreases |topics|
  {
    hide Less, LastAt, Oldest, Older, KeepsNewest;
    if |topics| > MAX_TOPICS {
      var order := KeyOrder(topics.Keys);
      SomeKey(topics, order);
      var oldest := Oldest(topics, order);
      OldestIsOldest(topics, order);
      EvictionKeepsNewest(Without(topics, oldest));
      OneMoreGoes(topics, oldest, Evicted(Without(topics, oldest)));
    } else {
      NothingGoes(topics);
    }
  }

  /** A dropped topic was never heard, or last heard no later than every one that stays; and none is dropped
      for one that was never heard unless it was not either, or only at the start of time. */
  lemma DroppedAreOldest(topics: Topics, gone: Path, kept: Path)
    requires gone in topics && gone !in Evicted(topics) && kept in Evicted(topics)
    ensures kept in topics
    ensures topics[gone].history != [] && topics[kept].history != [] ==>
      topics[gone].history[|topics[gone].history| - 1].atMs <= topics[kept].history[|topics[kept].history| - 1].atMs
    ensures topics[gone].history != [] && topics[kept].history == [] ==>
      topics[gone].history[|topics[gone].history| - 1].atMs == 0
  {
    EvictionKeepsNewest(topics);
    assert Older(topics, gone, kept);
    hide Evicted, Less;
  }

  lemma NothingGoes(topics: Topics)
    ensures KeepsNewest(topics, topics)
  {
  }

  function PushedAll(messages: seq<Message>): TopicEntry {
    if messages == [] then EMPTY_ENTRY
    else Pushed(PushedAll(messages[..|messages| - 1]), messages[|messages| - 1])
  }

  /** A topic counts everything it heard and remembers the newest messages, oldest first. */
  lemma {:induction false} HistoryIsNewest(messages: seq<Message>)
    ensures PushedAll(messages) == TopicEntry(|messages|, Bounded(messages))
    decreases |messages|
  {
    if messages != [] {
      var front, last := messages[..|messages| - 1], messages[|messages| - 1];
      HistoryIsNewest(front);
      assert messages == front + [last];
      BoundedTwice(front, last);
    }
  }

  lemma BoundedTwice(history: seq<Message>, last: Message)
    ensures Bounded(Bounded(history) + [last]) == Bounded(history + [last])
  {
  }

  ghost function Heeded(pane: Pane, event: Event): Pane {
    match event
    case Opened => pane
    case Lost => pane.(session := false)
    case Heard(topic, payload, nowMs) =>
      if payload == "" then
        pane.(topics := Without(pane.topics, topic),
              selected := if pane.selected == Some(topic) then None else pane.selected,
              treeDirty := true)
      else
        var entry := Pushed(Entry(pane.topics, topic), Message(nowMs, payload));
        pane.(topics := Evicted(pane.topics[topic := entry]), treeDirty := true)
  }

  ghost function HeededAll(pane: Pane, events: seq<Event>): Pane {
    if events == [] then pane
    else Heeded(HeededAll(pane, events[..|events| - 1]), events[|events| - 1])
  }

  /** Without a client there is nobody to report; a client lost on the way still reports the rest. */
  ghost function Drained(pane: Pane, events: seq<Event>): Pane {
    if pane.session then HeededAll(pane, events) else pane
  }

  /** Drawing the details lends the selected entry out and puts it back, making one up for a branch
      that has none, and deletes the subtree if that was asked for. */
  function Drawn(pane: Pane, delete: bool): Pane {
    match pane.selected
    case None => pane
    case Some(path) =>
      var back := pane.(topics := pane.topics[path := Entry(pane.topics, path)]);
      if delete then Cleared(back, path) else back
  }

  datatype Step =
    | Connect
    | Toggle(path: Path)
    | Select(path: Path)
    | Refresh
    | Clear(path: Path)
    | Drain(events: seq<Event>)
    | Reconnect
    | Draw(delete: bool)

  ghost function Apply(pane: Pane, step: Step): Pane {
    match step
    case Connect => pane.(session := true)
    case Toggle(path) => Toggled(pane, path)
    case Select(path) => pane.(selected := Some(path))
    case Refresh => Refreshed(pane)
    case Clear(path) => Cleared(pane, path)
    case Drain(events) => Drained(pane, events)
    case Reconnect => Reconnected(pane)
    case Draw(delete) => Drawn(pane, delete)
  }

  ghost function Run(pane: Pane, steps: seq<Step>): Pane {
    if steps == [] then pane
    else Apply(Run(pane, steps[..|steps| - 1]), steps[|steps| - 1])
  }

  // ---------------------------------------------------------------- what an entry holds

  /** A message on a topic that stays: one more is counted, and the history is the newest of what it was and
      the message. Every other topic that stays is as it was. */
  lemma MessageIsAdded(pane: Pane, topic: Path, payload: string, nowMs: nat)
    requires payload != ""
    ensures var next := Heeded(pane, Heard(topic, payload, nowMs));
      && (topic in next.topics ==>
            var known := if topic in pane.topics then pane.topics[topic] else TopicEntry(0, []);
            var all := known.history + [Message(nowMs, payload)];
            && next.topics[topic].received == known.received + 1
            && next.topics[topic].history == if |all| > 100 then all[|all| - 100..] else all)
      && (forall t :: t in next.topics && t != topic ==> t in pane.topics && next.topics[t] == pane.topics[t])
      && next.expanded == pane.expanded && next.selected == pane.selected && next.session == pane.session
  {
    var entry := Pushed(Entry(pane.topics, topic), Message(nowMs, payload));
    var heard := pane.topics[topic := entry];
    hide Evicted, Older;
    EvictionKeepsNewest(heard);
    assert forall t :: t in heard && t != topic ==> t in pane.topics && heard[t] == pane.topics[t];
  }

  /** A message without payload takes its topic away, and the selection if it was that, and nothing else. */
  lemma EmptyMessageClears(pane: Pane, topic: Path, nowMs: nat)
    ensures var next := Heeded(pane, Heard(topic, "", nowMs));
      && topic !in next.topics
      && (forall t :: t != topic ==> (t in next.topics <==> t in pane.topics))
      && (forall t :: t in next.topics ==> next.topics[t] == pane.topics[t])
      && next.selected == (if pane.selected == Some(topic) then None else pane.selected)
      && next.expanded == pane.expanded && next.session == pane.session
  {
  }

  /** The messages heard on `topic` since it was last absent, told over the events of a frame. */
  ghost function HeardOn(pane: Pane, events: seq<Event>, topic: Path, known: seq<Message>): seq<Message> {
    if events == [] then known
    else
      var front, last := events[..|events| - 1], events[|events| - 1];
      var before := HeardOn(pane, front, topic, known);
      if topic !in HeededAll(pane, events).topics then []
      else if last.Heard? && last.topic == topic then before + [Message(last.nowMs, last.payload)]
      else before
  }

  /** ... and over a run from a new pane. */
  ghost function MessagesOn(steps: seq<Step>, topic: Path): seq<Message> {
    if steps == [] then []
    else
      var before, last := steps[..|steps| - 1], steps[|steps| - 1];
      var pane := Run(EMPTY_PANE, before);
      if last.Drain? && pane.session then HeardOn(pane, last.events, topic, MessagesOn(before, topic))
      else if topic in Run(EMPTY_PANE, steps).topics then MessagesOn(before, topic)
      else []
  }

  /** The entry of `topic`, if it has one, holds `messages`. */
  ghost predicate Holds(topics: Topics, topic: Path, messages: seq<Message>) {
    if topic in topics then topics[topic] == PushedAll(messages) else messages == []
  }

  lemma PushedOneMore(messages: seq<Message>, message: Message)
    ensures PushedAll(messages + [message]) == Pushed(PushedAll(messages), message)
    ensures PushedAll([]) == EMPTY_ENTRY
  {
    assert (messages + [message])[..|messages|] == messages;
  }

  lemma HoldsAfterMessage(pane: Pane, topic: Path, messages: seq<Message>, event: Event)
    requires Holds(pane.topics, topic, messages)
    ensures var next := Heeded(pane, event).topics;
      Holds(next, topic,
            if topic !in next then []
            else if event.Heard? && event.topic == topic then messages + [Message(event.nowMs, event.payload)]
            else messages)
  {
    if event.Heard? {
      if event.payload == "" {
        EmptyMessageClears(pane, event.topic, event.nowMs);
      } else {
        var message := Message(event.nowMs, event.payload);
        PushedOneMore(messages, message);
        hide Evicted, Older, Pushed, PushedAll;
        EvictionKeepsNewest(pane.topics[event.topic := Pushed(Entry(pane.topics, event.topic), message)]);
      }
    }
  }

  lemma {:induction false} HoldsAfterEvents(pane: Pane, topic: Path, messages: seq<Message>, events: seq<Event>)
    requires Holds(pane.topics, topic, messages)
    ensures Holds(HeededAll(pane, events).topics, topic, HeardOn(pane, events, topic, messages))
    decreases |events|
  {
    hide Heeded, Holds;
    if events != [] {
      var front := events[..|events| - 1];
      HoldsAfterEvents(pane, topic, messages, front);
      HoldsAfterMessage(HeededAll(pane, front), topic, HeardOn(pane, front, topic, messages), events[|events| - 1]);
    }
  }

  /** Steps other than the events leave an entry as it is, or take it away, or make an empty one up. */
  lemma OtherStepsHold(pane: Pane, step: Step, topic: Path, messages: seq<Message>)
    requires Holds(pane.topics, topic, messages) && !(step.Drain? && pane.session)
    ensures var next := Apply(pane, step).topics; Holds(next, topic, if topic in next then messages else [])
  {
    hide Rows;
  }

  lemma {:induction false} TopicsHold(steps: seq<Step>, topic: Path)
    ensures Holds(Run(EMPTY_PANE, steps).topics, topic, MessagesOn(steps, topic))
    decreases |steps|
  {
    hide Holds, HeardOn, HeededAll, Rows, Cleared, Drawn, Refreshed;
    if steps == [] {
      NoneHolds(topic);
    } else {
      var before, last := steps[..|steps| - 1], steps[|steps| - 1];
      var pane := Run(EMPTY_PANE, before);
      TopicsHold(before, topic);
      if last.Drain? && pane.session {
        HoldsAfterEvents(pane, topic, MessagesOn(before, topic), last.events);
      } else {
        OtherStepsHold(pane, last, topic, MessagesOn(before, topic));
      }
    }
  }

  lemma NoneHolds(topic: Path)
    ensures Holds(EMPTY_PANE.topics, topic, [])
  {
  }

  /** In every run a topic's entry counts the messages heard on it since it was last absent, and holds the
      newest hundred of them, oldest first. */
  lemma TopicsHoldTheirMessages(steps: seq<Step>, topic: Path)
    requires topic in Run(EMPTY_PANE, steps).topics
    ensures var entry, messages := Run(EMPTY_PANE, steps).topics[topic], MessagesOn(steps, topic);
      && entry.received == |messages|
      && entry.history == if |messages| > 100 then messages[|messages| - 100..] else messages
  {
    hide Run, MessagesOn, PushedAll;
    TopicsHold(steps, topic);
    HistoryIsNewest(MessagesOn(steps, topic));
  }

  /** The client's coming and going leaves all that was heard; a reconnect forgets it. */
  lemma SessionsComeAndGo(pane: Pane)
    ensures Heeded(pane, Opened) == pane
    ensures Heeded(pane, Lost) == pane.(session := false)
    ensures var next := Reconnected(pane);
      && next.topics == map[] && next.expanded == {} && next.selected == None
      && next.lines == [] && !next.treeDirty && !next.session
  {
  }

  // ---------------------------------------------------------------- what the user's steps do

  /** The rows are rebuilt when they are marked, or when there are none although there are topics, and then
      only they and the mark change. */
  lemma RefreshedIs(pane: Pane)
    ensures var next := Refreshed(pane);
      && next.(lines := pane.lines, treeDirty := pane.treeDirty) == pane
      && (if pane.treeDirty || (pane.lines == [] && pane.topics != map[])
          then next.lines == Rows(pane.topics, pane.expanded) && !next.treeDirty
          else next == pane)
  {
    hide Rows;
  }

  /** A branch that is toggled is open when it was not, twice is as if never, and the rows are rebuilt. */
  lemma ToggledIs(pane: Pane, path: Path)
    ensures var next := Toggled(pane, path);
      && (path in next.expanded <==> path !in pane.expanded)
      && (forall p :: p != path ==> (p in next.expanded <==> p in pane.expanded))
      && next.topics == pane.topics && next.selected == pane.selected && next.session == pane.session
      && next.treeDirty && next.lines == pane.lines
      && Toggled(next, path).expanded == pane.expanded
  {
  }

  /** With a client, clearing takes away a topic and all below it, the selection if it was there, and the open
      branches left without a topic; without one nothing happens. */
  lemma ClearedIs(pane: Pane, path: Path)
    ensures var next := Cleared(pane, path);
      && (!pane.session ==> next == pane)
      && (pane.session ==>
            && (forall t :: t in next.topics <==> t in pane.topics && t != path && !IsAncestor(path, t))
            && (forall t :: t in next.topics ==> next.topics[t] == pane.topics[t])
            && (forall node :: node in next.expanded <==>
                  node in pane.expanded && exists t :: t in next.topics && (t == node || IsAncestor(node, t)))
            && next.selected == (if pane.selected.Some?
                                    && (pane.selected.value == path || IsAncestor(path, pane.selected.value))
                                 then None else pane.selected)
            && next.treeDirty && next.session)
  {
    hide IsAncestor;
    if pane.session {
      var next := Cleared(pane, path);
      forall node | node in pane.expanded
        ensures node in next.expanded <==> exists t :: t in next.topics && (t == node || IsAncestor(node, t))
      {
        assert node in next.expanded <==> HasTopics(next.topics, node);
      }
    }
  }

  // ---------------------------------------------------------------- two topic maps, one tree

  lemma {:induction false} HeardUnderAppend(topics: Topics, a: seq<Path>, b: seq<Path>, path: Path)
    requires forall t :: t in a + b ==> t in topics
    ensures HeardUnder(topics, a + b, path) == HeardUnder(topics, a, path) + HeardUnder(topics, b, path)
    ensures TopicsUnder(topics, a + b, path) == TopicsUnder(topics, a, path) + TopicsUnder(topics, b, path)
    decreases |b|
  {
    if b == [] {
      assert a + b == a;
    } else {
      HeardUnderAppend(topics, a, b[..|b| - 1], path);
      assert (a + b)[..|a + b| - 1] == a + b[..|b| - 1];
    }
  }

  /** Counts look only at what the listed topics heard. */
  lemma {:induction false} CountsAgree(topics: Topics, other: Topics, order: seq<Path>, path: Path)
    requires forall t :: t in order ==> t in topics && t in other && topics[t] == other[t]
    ensures HeardUnder(topics, order, path) == HeardUnder(other, order, path)
    ensures TopicsUnder(topics, order, path) == TopicsUnder(other, order, path)
    decreases |order|
  {
    if order != [] {
      CountsAgree(topics, other, order[..|order| - 1], path);
    }
  }

  lemma {:induction false} InsertedSplits(order: seq<Path>, key: Path) returns (k: nat)
    ensures k <= |order|
    ensures Inserted(order, key) == order[..k] + [key] + order[k..]
  {
    if order == [] || Less(key, order[0]) {
      k := 0;
    } else {
      var j := InsertedSplits(order[1..], key);
      k := j + 1;
      assert order[..k] == [order[0]] + order[1..][..j];
      assert order[k..] == order[1..][j..];
    }
  }

  /** An entry that heard nothing changes no count. */
  lemma SilentEntryCountsNothing(topics: Topics, path: Path, p: Path)
    requires path !in topics
    ensures var next := topics[path := EMPTY_ENTRY];
      && HeardUnder(next, KeyOrder(next.Keys), p) == HeardUnder(topics, KeyOrder(topics.Keys), p)
      && TopicsUnder(next, KeyOrder(next.Keys), p) == TopicsUnder(topics, KeyOrder(topics.Keys), p)
  {
    hide Less, IsAncestor, HeardUnder, TopicsUnder, Inserted;
    var next, order := topics[path := EMPTY_ENTRY], KeyOrder(topics.Keys);
    InsertedKeepsOrder(order, path);
    KeyOrderIsUnique(Inserted(order, path), KeyOrder(next.Keys), next.Keys);
    var k := InsertedSplits(order, path);
    assert order == order[..k] + order[k..];
    SilentTopicCountsNothing(next, order[..k], path, order[k..], p);
    CountsAgree(topics, next, order, p);
  }

  lemma SilentTopicCountsNothing(topics: Topics, a: seq<Path>, path: Path, b: seq<Path>, p: Path)
    requires path in topics && topics[path].received == 0
    requires forall t :: t in a + b ==> t in topics
    ensures HeardUnder(topics, a + [path] + b, p) == HeardUnder(topics, a + b, p)
    ensures TopicsUnder(topics, a + [path] + b, p) == TopicsUnder(topics, a + b, p)
  {
    HeardUnderAppend(topics, a, [path], p);
    HeardUnderAppend(topics, a + [path], b, p);
    HeardUnderAppend(topics, a, b, p);
    CountsOfOne(topics, path, p);
  }

  lemma CountsOfOne(topics: Topics, path: Path, p: Path)
    requires path in topics && topics[path].received == 0
    ensures HeardUnder(topics, [path], p) == 0 && TopicsUnder(topics, [path], p) == 0
  {
    assert [path][..0] == [];
  }

  /** Rows are determined by which rows there are. */
  lemma RowsAreDetermined(topics: Topics, other: Topics, expanded: set<Path>)
    requires forall row :: row in Rows(topics, expanded) <==> row in Rows(other, expanded)
    ensures Rows(topics, expanded) == Rows(other, expanded)
  {
    hide Rows;
    RowsAreTheTree(topics, expanded);
    RowsAreTheTree(other, expanded);
    var less := (a: TreeLine, b: TreeLine) => Less(a.path, b.path);
    forall a, b | less(a, b)
      ensures !less(b, a)
    {
      LessIsAsymmetric(a.path, b.path);
    }
    Orders.AscendingIsUnique(less, Rows(topics, expanded), Rows(other, expanded));
  }

  lemma AncestorsOfOneNest(a: Path, b: Path, path: Path)
    requires AtOrUnder(path, a) && AtOrUnder(path, b) && |a| <= |b|
    ensures AtOrUnder(b, a)
  {
    assert path[..|a|] == path[..|b|][..|a|];
  }

  /** With an entry made up for `path`, the tree gains the missing nodes down to `path`, and the
      nodes above `path` certainly have children. Nothing else changes. */
  lemma MadeUpEntryChanges(topics: Topics, path: Path, expanded: set<Path>, p: Path)
    requires path !in topics
    ensures var next := topics[path := EMPTY_ENTRY];
      && (IsNode(next, p) <==> IsNode(topics, p) || AtOrUnder(path, p))
      && (HasChildren(next, p) <==> HasChildren(topics, p) || IsAncestor(p, path))
      && (HasChildren(topics, p) == HasChildren(next, p) ==>
            NodeRow(next, expanded, p) == NodeRow(topics, expanded, p))
      && (HasChildren(topics, p) != HasChildren(next, p) ==>
            NodeRow(next, expanded, p) != NodeRow(topics, expanded, p))
  {
    SilentEntryCountsNothing(topics, path, p);
    var next := topics[path := EMPTY_ENTRY];
    assert forall t :: t in topics ==> t in next;
    assert path in next;
  }

  // ---------------------------------------------------------------- when drawing is harmless

  /** `path` hangs below a node whose subtree is out of sight and would stay so. */
  ghost predicate HangsHidden(topics: Topics, expanded: set<Path>, path: Path) {
    exists h :: IsAncestor(h, path) && IsNode(topics, h)
      && (!IsVisible(expanded, h) || (h !in expanded && HasChildren(topics, h)))
  }

  lemma NothingShowsBelow(expanded: set<Path>, h: Path, p: Path)
    requires IsAncestor(h, p) && (!IsVisible(expanded, h) || h !in expanded)
    ensures !IsVisible(expanded, p)
  {
    if h in expanded {
      var a :| IsAncestor(a, h) && a !in expanded;
      AncestorsNest(a, h, p);
    }
  }

  /** Lending out a path that is a node, or hangs hidden, leaves the rows as they are. */
  lemma HarmlessKeepsRows(topics: Topics, expanded: set<Path>, path: Path)
    requires IsNode(topics, path) || HangsHidden(topics, expanded, path)
    ensures Rows(topics[path := Entry(topics, path)], expanded) == Rows(topics, expanded)
  {
    var next := topics[path := Entry(topics, path)];
    if path in topics {
      assert next == topics;
      return;
    }
    hide Rows, NodeRow;
    RowsAreTheTree(topics, expanded);
    RowsAreTheTree(next, expanded);
    forall row: TreeLine
      ensures row in Rows(next, expanded) <==> row in Rows(topics, expanded)
    {
      var p := row.path;
      MadeUpEntryChanges(topics, path, expanded, p);
      if IsVisible(expanded, p) && AtOrUnder(path, p) {
        VisiblePrefixIsOld(topics, expanded, path, p);
      }
    }
    RowsAreDetermined(next, topics, expanded);
  }

  lemma VisiblePrefixIsOld(topics: Topics, expanded: set<Path>, path: Path, p: Path)
    requires path !in topics && (IsNode(topics, path) || HangsHidden(topics, expanded, path))
    requires IsVisible(expanded, p) && AtOrUnder(path, p)
    ensures IsNode(topics, p)
    ensures IsAncestor(p, path) ==> HasChildren(topics, p)
  {
    if IsNode(topics, path) {
      var t :| t in topics && AtOrUnder(t, path);
      AncestorsNest(p, path, t);
    } else {
      var h :| IsAncestor(h, path) && IsNode(topics, h)
        && (!IsVisible(expanded, h) || (h !in expanded && HasChildren(topics, h)));
      if |h| < |p| {
        AncestorsOfOneNest(h, p, path);
        NothingShowsBelow(expanded, h, p);
        assert false;
      }
      AncestorsOfOneNest(p, h, path);
      var t :| t in topics && AtOrUnder(t, h);
      AncestorsNest(p, h, t);
    }
  }

  /** The topmost node the made-up entry would add. */
  lemma {:induction false} TopmostNew(topics: Topics, path: Path) returns (top: Path)
    requires !IsNode(topics, path)
    ensures AtOrUnder(path, top) && !IsNode(topics, top)
    ensures forall a :: IsAncestor(a, top) ==> IsNode(topics, a)
    decreases |path|
  {
    ParentIsNearest(path);
    if ParentOf(path).Some? && !IsNode(topics, ParentOf(path).value) {
      var parent := ParentOf(path).value;
      top := TopmostNew(topics, parent);
      AncestorsNest(top, parent, path);
    } else {
      top := path;
      if ParentOf(path).Some? {
        var parent := ParentOf(path).value;
        var t :| t in topics && AtOrUnder(t, parent);
        forall a | IsAncestor(a, path)
          ensures IsNode(topics, a)
        {
          AncestorsNest(a, parent, t);
        }
      }
    }
  }

  /** Any other path that is lent out shows a row that was not there, or turns a leaf into a branch. */
  lemma OtherwiseRowsChange(topics: Topics, expanded: set<Path>, path: Path)
    requires !IsNode(topics, path) && !HangsHidden(topics, expanded, path)
    ensures Rows(topics[path := Entry(topics, path)], expanded) != Rows(topics, expanded)
  {
    assert path !in topics;
    var next := topics[path := EMPTY_ENTRY];
    var top := TopmostNew(topics, path);
    ParentIsNearest(top);
    hide Rows, NodeRow;
    var p := top;
    if ParentOf(top).Some? {
      var parent := ParentOf(top).value;
      AncestorsNest(parent, top, path);
      assert IsNode(topics, parent);
      if parent !in expanded {
        p := parent;
      }
    }
    assert IsVisible(expanded, p);
    MadeUpEntryChanges(topics, path, expanded, p);
    RowsAreTheTree(topics, expanded);
    RowsAreTheTree(next, expanded);
    NodeRowPath(next, expanded, p);
    assert NodeRow(next, expanded, p) in Rows(next, expanded);
    assert NodeRow(next, expanded, p) !in Rows(topics, expanded);
  }

  // ---------------------------------------------------------------- the cache over whole runs

  /** A draw that cannot leave the cached rows behind the tree. */
  ghost predicate DrawIsHarmless(pane: Pane, delete: bool) {
    || pane.treeDirty
    || pane.selected == None
    || (delete && pane.session)
    || IsNode(pane.topics, pane.selected.value)
    || HangsHidden(pane.topics, pane.expanded, pane.selected.value)
  }

  /** Drawing keeps the cache current exactly when the selected path is still a node of the tree,
      or its made-up entry stays out of sight, or the tree is marked for a rebuild anyway. */
  lemma DrawKeepsAgreement(pane: Pane, delete: bool)
    requires Agrees(pane)
    ensures Agrees(Drawn(pane, delete)) <==> DrawIsHarmless(pane, delete)
  {
    hide Rows;
    if pane.selected.Some? {
      var path := pane.selected.value;
      if IsNode(pane.topics, path) || HangsHidden(pane.topics, pane.expanded, path) {
        HarmlessKeepsRows(pane.topics, pane.expanded, path);
      } else {
        OtherwiseRowsChange(pane.topics, pane.expanded, path);
      }
    }
  }

  lemma {:induction false} EventsMarkTheTree(pane: Pane, events: seq<Event>)
    requires Agrees(pane)
    ensures Agrees(HeededAll(pane, events))
    decreases |events|
  {
    if events != [] {
      EventsMarkTheTree(pane, events[..|events| - 1]);
    }
  }

  /** Every other step keeps the cache current, whatever the state. */
  lemma StepKeepsAgreement(pane: Pane, step: Step)
    requires Agrees(pane)
    ensures Agrees(Apply(pane, step)) <==> (step.Draw? ==> DrawIsHarmless(pane, step.delete))
  {
    hide Rows, DrawIsHarmless;
    match step {
      case Draw(delete) => DrawKeepsAgreement(pane, delete);
      case Drain(events) => EventsMarkTheTree(pane, events);
      case Reconnect => NoRows();
      case _ =>
    }
  }

  lemma NoRows()
    ensures Rows(map[], {}) == []
  {
    hide Rows;
    var rows := Rows(map[], {});
    assert rows == [] || exists row :: row in rows by {
      if rows != [] {
        assert rows[0] in rows;
      }
    }
    RowsAreTheTree(map[], {});
  }

  /** The cache agrees at every moment of the run. */
  ghost predicate AgreesThroughout(steps: seq<Step>) {
    && Agrees(Run(EMPTY_PANE, steps))
    && (steps != [] ==> AgreesThroughout(steps[..|steps| - 1]))
  }

  ghost predicate DrawsAreHarmless(steps: seq<Step>) {
    steps != [] ==>
      var before, last := steps[..|steps| - 1], steps[|steps| - 1];
      && DrawsAreHarmless(before)
      && (last.Draw? ==> DrawIsHarmless(Run(EMPTY_PANE, before), last.delete))
  }

  /** In a run from a fresh pane the cache agrees with the tree at every moment exactly when every
      draw of the run was harmless: messages, toggles, deletes, reconnects and refreshes, in any
      order, never break it. */
  lemma {:induction false} CacheAgreesInRuns(steps: seq<Step>)
    ensures AgreesThroughout(steps) <==> DrawsAreHarmless(steps)
    decreases |steps|
  {
    hide Agrees, DrawIsHarmless, Apply;
    if steps == [] {
      FreshPaneAgrees();
    } else {
      var before, last := steps[..|steps| - 1], steps[|steps| - 1];
      CacheAgreesInRuns(before);
      if AgreesThroughout(before) {
        StepKeepsAgreement(Run(EMPTY_PANE, before), last);
      }
    }
  }

  lemma FreshPaneAgrees()
    ensures Agrees(EMPTY_PANE)
  {
    NoRows();
  }

  // ---------------------------------------------------------------- how many topics there are

  lemma FewerTopics(topics: Topics, more: Topics)
    requires topics.Keys <= more.Keys
    ensures |topics| <= |more|
  {
    assert more.Keys == topics.Keys + (more.Keys - topics.Keys);
    assert |topics| == |topics.Keys| && |more| == |more.Keys|;
  }

  /** What is drawn is put back where there is room, or known already, or deleted at once. */
  predicate DrawFits(pane: Pane, delete: bool) {
    || pane.selected == None
    || pane.selected.value in pane.topics
    || |pane.topics| < MAX_TOPICS
    || (delete && pane.session)
  }

  lemma DrawnSize(pane: Pane, delete: bool)
    ensures var back := Drawn(pane, delete).topics;
      && |back| <= |pane.topics| + 1
      && (pane.selected == None || pane.selected.value in pane.topics || (delete && pane.session) ==>
            |back| <= |pane.topics|)
      && (pane.selected.Some? && pane.selected.value !in pane.topics && !(delete && pane.session) ==>
            |back| == |pane.topics| + 1)
  {
    if pane.selected.Some? {
      var path, back := pane.selected.value, Drawn(pane, delete).topics;
      var lent := pane.topics[path := Entry(pane.topics, path)];
      assert lent.Keys == pane.topics.Keys + {path};
      assert |lent| == |lent.Keys| && |pane.topics| == |pane.topics.Keys|;
      if delete && pane.session {
        assert back.Keys <= pane.topics.Keys;
        FewerTopics(back, pane.topics);
      }
    }
  }

  predicate HearsAny(events: seq<Event>) {
    exists i :: 0 <= i < |events| && events[i].Heard? && events[i].payload != ""
  }

  lemma HeededSize(pane: Pane, event: Event)
    ensures event.Heard? && event.payload != "" ==> |Heeded(pane, event).topics| <= MAX_TOPICS
    ensures !(event.Heard? && event.payload != "") ==> |Heeded(pane, event).topics| <= |pane.topics|
  {
    hide Evicted, Pushed, Entry;
    if event.Heard? && event.payload != "" {
      var entry := Pushed(Entry(pane.topics, event.topic), Message(event.nowMs, event.payload));
      EvictionKeepsNewest(pane.topics[event.topic := entry]);
    } else {
      FewerTopics(Heeded(pane, event).topics, pane.topics);
    }
  }

  lemma {:induction false} EventsSize(pane: Pane, events: seq<Event>)
    ensures |HeededAll(pane, events).topics| <= if HearsAny(events) then MAX_TOPICS else |pane.topics|
    ensures |pane.topics| <= MAX_TOPICS ==> |HeededAll(pane, events).topics| <= MAX_TOPICS
    decreases |events|
  {
    hide Heeded;
    if events != [] {
      var before, last := events[..|events| - 1], events[|events| - 1];
      EventsSize(pane, before);
      HeededSize(HeededAll(pane, before), last);
      assert HearsAny(events) <==> HearsAny(before) || (last.Heard? && last.payload != "") by {
        assert forall i :: 0 <= i < |before| ==> before[i] == events[i];
      }
    }
  }

  lemma ClearedSize(pane: Pane, path: Path)
    ensures |Cleared(pane, path).topics| <= |pane.topics|
  {
    FewerTopics(Cleared(pane, path).topics, pane.topics);
  }

  /** Every step keeps within the limit, but for a draw that puts back a topic for which there is no room. */
  lemma StepKeepsSizeExactly(pane: Pane, step: Step)
    requires |pane.topics| <= MAX_TOPICS
    ensures |Apply(pane, step).topics| <= MAX_TOPICS <==> (step.Draw? ==> DrawFits(pane, step.delete))
  {
    hide Cleared, HeededAll, Drawn, Rows;
    match step {
      case Draw(delete) => DrawnSize(pane, delete);
      case Drain(events) => EventsSize(pane, events);
      case Clear(path) => ClearedSize(pane, path);
      case _ =>
    }
  }

  ghost predicate FitsThroughout(steps: seq<Step>) {
    && |Run(EMPTY_PANE, steps).topics| <= MAX_TOPICS
    && (steps != [] ==> FitsThroughout(steps[..|steps| - 1]))
  }

  ghost predicate DrawsFit(steps: seq<Step>) {
    steps != [] ==>
      var before, last := steps[..|steps| - 1], steps[|steps| - 1];
      && DrawsFit(before)
      && (last.Draw? ==> DrawFits(Run(EMPTY_PANE, before), last.delete))
  }

  /** The pane holds at most `MAX_TOPICS` at every moment of a run exactly when every draw fits. */
  lemma {:induction false} SizeHoldsInRuns(steps: seq<Step>)
    ensures FitsThroughout(steps) <==> DrawsFit(steps)
    decreases |steps|
  {
    hide DrawFits, Apply;
    if steps != [] {
      var before, last := steps[..|steps| - 1], steps[|steps| - 1];
      SizeHoldsInRuns(before);
      if FitsThroughout(before) {
        StepKeepsSizeExactly(Run(EMPTY_PANE, before), last);
      }
    }
  }

  /** How often something was drawn that did not fit, since a message was last taken in. */
  ghost function MisfitsSinceHeard(steps: seq<Step>): nat {
    if steps == [] then 0
    else
      var before, last := steps[..|steps| - 1], steps[|steps| - 1];
      var pane := Run(EMPTY_PANE, before);
      if last.Draw? then MisfitsSinceHeard(before) + if DrawFits(pane, last.delete) then 0 else 1
      else if last.Drain? && pane.session && HearsAny(last.events) then 0
      else MisfitsSinceHeard(before)
  }

  /** How far a run may go over the limit: by one topic for each such draw. */
  lemma {:induction false} SizeIsBounded(steps: seq<Step>)
    ensures |Run(EMPTY_PANE, steps).topics| <= MAX_TOPICS + MisfitsSinceHeard(steps)
    decreases |steps|
  {
    hide Cleared, HeededAll, Drawn, Rows, HearsAny;
    if steps != [] {
      var before, last := steps[..|steps| - 1], steps[|steps| - 1];
      SizeIsBounded(before);
      var pane := Run(EMPTY_PANE, before);
      match last {
        case Draw(delete) => DrawnSize(pane, delete);
        case Drain(events) => EventsSize(pane, events);
        case Clear(path) => ClearedSize(pane, path);
        case _ =>
      }
    }
  }

  predicate IsLeastRecent(topics: Topics, path: Path) {
    path in topics && forall t :: t in topics && t != path ==> Older(topics, path, t)
  }

  lemma OldestIsLeastRecent(topics: Topics, order: seq<Path>, path: Path)
    requires order != [] && IsKeyOrder(order, topics.Keys) && IsLeastRecent(topics, path)
    ensures Oldest(topics, order) == path
  {
    hide Less, LastAt, Oldest, Older, IsLeastRecent;
    OldestIsOldest(topics, order);
    if Oldest(topics, order) != path {
      IsOlderThan(topics, path, Oldest(topics, order));
      OlderIsAsymmetric(topics, Oldest(topics, order), path);
    }
  }

  lemma IsOlderThan(topics: Topics, path: Path, other: Path)
    requires IsLeastRecent(topics, path) && other in topics && other != path
    ensures path in topics && Older(topics, path, other)
  {
    hide Older;
  }

  lemma OlderIsAsymmetric(topics: Topics, a: Path, b: Path)
    requires a in topics && b in topics && Older(topics, a, b)
    ensures !Older(topics, b, a)
  {
    if Less(a, b) {
      LessIsAsymmetric(a, b);
    }
  }

  lemma EvictsTheLeastRecent(topics: Topics, path: Path)
    requires |topics| == MAX_TOPICS + 1 && IsLeastRecent(topics, path)
    ensures Evicted(topics) == Without(topics, path) && |Evicted(topics)| == MAX_TOPICS
  {
    hide Oldest, IsLeastRecent, IsKeyOrder;
    var order := KeyOrder(topics.Keys);
    SomeKey(topics, order);
    KeysOnly(order, topics.Keys);
    OldestIsLeastRecent(topics, order, path);
    FewTopicsStay(Without(topics, path));
  }

  /** A topic that is heard later leaves the least recent one where it is. */
  lemma StillLeastRecent(topics: Topics, path: Path, topic: Path, message: Message)
    requires IsLeastRecent(topics, path) && topic !in topics && LastAt(topics[path]) < message.atMs
    ensures IsLeastRecent(topics[topic := Pushed(EMPTY_ENTRY, message)], path)
  {
    var next := topics[topic := Pushed(EMPTY_ENTRY, message)];
    assert LastAt(next[topic]) == message.atMs;
    hide LastAt, Pushed, Less;
    forall t | t in next && t != path
      ensures Older(next, path, t)
    {
      assert t != topic ==> Older(topics, path, t);
    }
  }

  /** Eviction leaves the selection alone: when the selected topic is the one that makes room, the next
      draw puts it back, and there is one topic too many. */
  lemma EvictedSelectionComesBack(pane: Pane, path: Path, topic: Path, payload: string, nowMs: nat, delete: bool)
    requires |pane.topics| == MAX_TOPICS && topic !in pane.topics && payload != ""
    requires pane.selected == Some(path) && !(delete && pane.session)
    requires IsLeastRecent(pane.topics, path) && LastAt(pane.topics[path]) < nowMs
    ensures var heard := Heeded(pane, Heard(topic, payload, nowMs));
      && heard.selected == Some(path) && path !in heard.topics
      && |heard.topics| == MAX_TOPICS && |Drawn(heard, delete).topics| == MAX_TOPICS + 1
  {
    hide Evicted, Pushed, Drawn, IsLeastRecent, LastAt;
    var message := Message(nowMs, payload);
    var next := pane.topics[topic := Pushed(EMPTY_ENTRY, message)];
    StillLeastRecent(pane.topics, path, topic, message);
    EvictsTheLeastRecent(next, path);
    DrawnSize(Heeded(pane, Heard(topic, payload, nowMs)), delete);
  }

  /** Messages on as many topics, one each, each a moment after the last. */
  function Hearings(count: nat): seq<Event> {
    seq(count, (i: nat) => Heard(Decimal(i), "x", i))
  }

  function Names(count: nat): set<Path> {
    set i: nat | 0 <= i < count :: Decimal(i)
  }

  /** The topics are those, each last heard at its own number. */
  predicate AreNumbered(topics: Topics, count: nat) {
    && topics.Keys == Names(count) && |topics| == count
    && forall i: nat :: i < count ==> Decimal(i) in topics && LastAt(topics[Decimal(i)]) == i
  }

  lemma NewName(count: nat)
    ensures Decimal(count) !in Names(count) && Names(count + 1) == Names(count) + {Decimal(count)}
  {
    forall i: nat | i < count && Decimal(i) == Decimal(count)
      ensures false
    {
      DecimalIsInjective(i, count);
    }
    hide Decimal;
  }

  lemma OneMoreNumbered(topics: Topics, count: nat)
    requires AreNumbered(topics, count)
    ensures Decimal(count) !in topics
    ensures AreNumbered(topics[Decimal(count) := Pushed(EMPTY_ENTRY, Message(count, "x"))], count + 1)
  {
    hide Decimal, Names, LastAt;
    NewName(count);
    PutsOne(topics, Decimal(count), Pushed(EMPTY_ENTRY, Message(count, "x")));
    HeardLast(count);
    NumbersGoOn(topics, count, Pushed(EMPTY_ENTRY, Message(count, "x")));
  }

  lemma PutsOne(topics: Topics, path: Path, entry: TopicEntry)
    requires path !in topics
    ensures var next := topics[path := entry]; next.Keys == topics.Keys + {path} && |next| == |topics| + 1
  {
    var next := topics[path := entry];
    assert next.Keys == topics.Keys + {path};
    assert |next| == |next.Keys| && |topics| == |topics.Keys|;
  }

  lemma HeardLast(atMs: nat)
    ensures LastAt(Pushed(EMPTY_ENTRY, Message(atMs, "x"))) == atMs
  {
  }

  lemma NumbersGoOn(topics: Topics, count: nat, entry: TopicEntry)
    requires Decimal(count) !in topics && LastAt(entry) == count
    requires forall i: nat :: i < count ==> Decimal(i) in topics && LastAt(topics[Decimal(i)]) == i
    ensures var next := topics[Decimal(count) := entry];
      forall i: nat :: i < count + 1 ==> Decimal(i) in next && LastAt(next[Decimal(i)]) == i
  {
    hide Decimal, LastAt;
  }

  lemma {:induction false} ManyAreHeard(pane: Pane, count: nat)
    requires pane.topics == map[] && count <= MAX_TOPICS
    ensures var next := HeededAll(pane, Hearings(count));
      AreNumbered(next.topics, count) && next.selected == pane.selected && next.session == pane.session
  {
    hide Evicted, Pushed, Decimal, AreNumbered;
    if count == 0 {
      assert AreNumbered(map[], 0) by { NoneNumbered(); }
    } else {
      ManyAreHeard(pane, count - 1);
      var before := HeededAll(pane, Hearings(count - 1));
      assert Hearings(count)[..count - 1] == Hearings(count - 1);
      OneMoreNumbered(before.topics, count - 1);
      FewNumbered(before.topics[Decimal(count - 1) := Pushed(EMPTY_ENTRY, Message(count - 1, "x"))], count);
    }
  }

  lemma NoneNumbered()
    ensures AreNumbered(map[], 0)
  {
  }

  lemma FewNumbered(topics: Topics, count: nat)
    requires AreNumbered(topics, count) && count <= MAX_TOPICS
    ensures Evicted(topics) == topics
  {
    FewTopicsStay(topics);
  }

  lemma FirstIsLeastRecent(topics: Topics, count: nat)
    requires AreNumbered(topics, count) && count > 0
    ensures IsLeastRecent(topics, Decimal(0)) && LastAt(topics[Decimal(0)]) == 0
  {
    hide Decimal, LastAt, Less;
    forall t | t in topics && t != Decimal(0)
      ensures Older(topics, Decimal(0), t)
    {
      assert t in Names(count);
      var i: nat :| 0 <= i < count && Decimal(i) == t;
    }
  }

  /** A run that goes over the limit: the pane fills up, its first topic is selected, one more topic is
      heard, and the details are drawn. */
  lemma FullPaneGoesOver()
    ensures var fill := [Connect, Drain(Hearings(MAX_TOPICS)), Select(Decimal(0))];
      var over := fill + [Drain([Heard(Decimal(MAX_TOPICS), "x", MAX_TOPICS)])] + [Draw(false)];
      |Run(EMPTY_PANE, over).topics| == MAX_TOPICS + 1 == 501
  {
    hide Run, HeededAll, Evicted, AreNumbered, Decimal, Hearings, IsLeastRecent, LastAt, Pushed;
    var connected := EMPTY_PANE.(session := true);
    var full := HeededAll(connected, Hearings(MAX_TOPICS));
    ManyAreHeard(connected, MAX_TOPICS);
    NumberedIsFull(full.topics, MAX_TOPICS);
    FirstIsLeastRecent(full.topics, MAX_TOPICS);
    var event, path := Heard(Decimal(MAX_TOPICS), "x", MAX_TOPICS), Decimal(0);
    EvictedSelectionComesBack(full.(selected := Some(path)), path, Decimal(MAX_TOPICS), "x", MAX_TOPICS, false);
    HeededTwo(full.(selected := Some(path)), event, event);
    RunNothing(EMPTY_PANE);
    RunSnoc(EMPTY_PANE, [], Connect);
    RunSnoc(EMPTY_PANE, [Connect], Drain(Hearings(MAX_TOPICS)));
    var two: seq<Step> := [Connect, Drain(Hearings(MAX_TOPICS))];
    RunSnoc(EMPTY_PANE, two, Select(path));
    var fill := two + [Select(path)];
    RunSnoc(EMPTY_PANE, fill, Drain([event]));
    RunSnoc(EMPTY_PANE, fill + [Drain([event])], Draw(false));
    assert [] + [Connect] == [Connect] && [Connect] + [Drain(Hearings(MAX_TOPICS))] == two;
    assert fill == [Connect, Drain(Hearings(MAX_TOPICS)), Select(path)];
  }

  lemma NumberedIsFull(topics: Topics, count: nat)
    requires AreNumbered(topics, count)
    ensures |topics| == count && Decimal(count) !in topics && (count > 0 ==> Decimal(0) in topics)
  {
    OneMoreNumbered(topics, count);
  }

  lemma FewTopicsStay(topics: Topics)
    requires |topics| <= MAX_TOPICS
    ensures Evicted(topics) == topics
  {
  }

  lemma HeededTwo(pane: Pane, first: Event, second: Event)
    ensures HeededAll(pane, [first, second]) == Heeded(Heeded(pane, first), second)
    ensures HeededAll(pane, [first]) == Heeded(pane, first)
  {
    var both := [first, second];
    assert both[..|both| - 1] == [first];
    assert [first][..0] == [];
    assert HeededAll(pane, [first]) == Heeded(HeededAll(pane, []), first);
  }

  /** Two topics arrive, the branch of one is selected, and that topic is cleared on the broker. */
  lemma BranchIsCleared() returns (pane: Pane)
    ensures pane == Run(EMPTY_PANE, [Connect, Drain([Heard("a/b", "x", 0), Heard("c", "x", 0)]), Select("a"),
                                     Drain([Heard("a/b", "", 0)])])
    ensures pane.topics.Keys == {"c"} && pane.selected == Some("a") && pane.expanded == {} && pane.treeDirty
  {
    hide Evicted, Run;
    var x, y, z := Heard("a/b", "x", 0), Heard("c", "x", 0), Heard("a/b", "", 0);
    var s1: seq<Step> := [Connect];
    var s2 := s1 + [Drain([x, y])];
    var s3 := s2 + [Select("a")];
    RunNothing(EMPTY_PANE);
    RunSnoc(EMPTY_PANE, [], Connect);
    assert [] + [Connect] == s1;
    RunSnoc(EMPTY_PANE, s1, Drain([x, y]));
    RunSnoc(EMPTY_PANE, s2, Select("a"));
    RunSnoc(EMPTY_PANE, s3, Drain([z]));
    var p2 := TwoTopicsHeard();
    HeededTwo(p2.(selected := Some("a")), z, z);
    pane := Heeded(p2.(selected := Some("a")), z);
    assert s3 + [Drain([z])] == [Connect, Drain([x, y]), Select("a"), Drain([z])];
  }

  lemma TwoTopicsHeard() returns (pane: Pane)
    ensures pane == Drained(EMPTY_PANE.(session := true), [Heard("a/b", "x", 0), Heard("c", "x", 0)])
    ensures pane.topics.Keys == {"a/b", "c"} && pane.expanded == {} && pane.session
  {
    hide Evicted;
    var entry := Pushed(EMPTY_ENTRY, Message(0, "x"));
    HeededTwo(EMPTY_PANE.(session := true), Heard("a/b", "x", 0), Heard("c", "x", 0));
    FewTopicsStay(map["a/b" := entry]);
    FewTopicsStay(map["a/b" := entry]["c" := entry]);
    pane := Drained(EMPTY_PANE.(session := true), [Heard("a/b", "x", 0), Heard("c", "x", 0)]);
  }

  lemma RunNothing(pane: Pane)
    ensures Run(pane, []) == pane
  {
  }

  /** A run that breaks the cache: the next draw puts the cleared branch back as a topic, which the
      cached rows do not show. */
  lemma ClearedBranchComesBack()
    ensures var before := [Connect, Drain([Heard("a/b", "x", 0), Heard("c", "x", 0)]), Select("a"),
                           Drain([Heard("a/b", "", 0)]), Refresh];
      && Agrees(Run(EMPTY_PANE, before))
      && !Agrees(Run(EMPTY_PANE, before + [Draw(false)]))
  {
    hide Rows, Agrees, Run, Evicted;
    var cleared := BranchIsCleared();
    var before := [Connect, Drain([Heard("a/b", "x", 0), Heard("c", "x", 0)]), Select("a"),
                   Drain([Heard("a/b", "", 0)])];
    RunSnoc(EMPTY_PANE, before, Refresh);
    assert before + [Refresh] == [Connect, Drain([Heard("a/b", "x", 0), Heard("c", "x", 0)]), Select("a"),
                                  Drain([Heard("a/b", "", 0)]), Refresh];
    RunSnoc(EMPTY_PANE, before + [Refresh], Draw(false));
    RefreshAgrees(cleared);
    StepKeepsAgreement(Refreshed(cleared), Draw(false));
  }

  lemma RefreshAgrees(pane: Pane)
    requires pane.treeDirty
    ensures Agrees(Refreshed(pane))
  {
  }

  lemma RunSnoc(pane: Pane, steps: seq<Step>, step: Step)
    ensures Run(pane, steps + [step]) == Apply(Run(pane, steps), step)
  {
    assert (steps + [step])[..|steps|] == steps;
  }

  // ---------------------------------------------------------------- the pane as an object

  /** Keep a topic's message list bounded. */
  method PushHistory(entry: TopicEntry, message: Message) returns (next: TopicEntry)
    ensures next == Pushed(entry, message)
  {
    var history := entry.history + [message];
    ghost var all := history;
    while |history| > HISTORY_LIMIT
      invariant |history| <= |all| && history == all[|all| - |history|..]
      invariant |history| >= HISTORY_LIMIT || history == all
    {
      history := history[1..];
    }
    next := TopicEntry(entry.received + 1, history);
  }

  method RemoveSubtree(topics: Topics, path: Path) returns (rest: Topics)
    ensures rest == map t | t in topics && !AtOrUnder(t, path) :: topics[t]
  {
    var paths := set t | t in topics && AtOrUnder(t, path);
    rest := topics - paths;
  }

  lemma SomeKey(topics: Topics, order: seq<Path>)
    requires topics != map[] && IsKeyOrder(order, topics.Keys)
    ensures order != []
  {
    var t :| t in topics;
    assert t in order;
  }

  lemma KeysOnly(order: seq<Path>, keys: set<Path>)
    requires IsKeyOrder(order, keys)
    ensures forall t :: t in order ==> t in keys
  {
  }

  method FindOldest(topics: Topics, order: seq<Path>) returns (oldest: Path)
    requires order != [] && forall t :: t in order ==> t in topics
    ensures oldest == Oldest(topics, order)
  {
    hide LastAt;
    oldest := order[0];
    assert order[..1] == [order[0]];
    for i := 1 to |order|
      invariant oldest == Oldest(topics, order[..i])
    {
      assert order[..i + 1][..i] == order[..i];
      if LastAt(topics[order[i]]) < LastAt(topics[oldest]) {
        oldest := order[i];
      }
    }
    assert order[..|order|] == order;
  }

  class MqttAnalyser {
    var topics: Topics
    var expanded: set<Path>
    var selected: Option<Path>
    var lines: seq<TreeLine>
    var treeDirty: bool
    var session: bool

    function State(): Pane
      reads this
    {
      Pane(topics, expanded, selected, lines, treeDirty, session)
    }

    constructor ()
      ensures State() == EMPTY_PANE
    {
      topics, expanded, selected, lines, treeDirty, session := map[], {}, None, [], false, false;
    }

    method Toggle(path: Path)
      modifies this
      ensures State() == Apply(old(State()), Step.Toggle(path))
    {
      if path in expanded {
        expanded := expanded - {path};
      } else {
        expanded := expanded + {path};
      }
      treeDirty := true;
    }

    method Select(path: Path)
      modifies this
      ensures State() == Apply(old(State()), Step.Select(path))
    {
      selected := Some(path);
    }

    /** The rows are computed anew only when the cache may be stale. */
    method RefreshLines()
      modifies this
      ensures State() == Apply(old(State()), Refresh)
    {
      var stale := treeDirty || (lines == [] && topics != map[]);
      if !stale {
        return;
      }
      lines := TreeLines(topics, expanded);
      treeDirty := false;
    }

    method ClearTopic(path: Path)
      modifies this
      ensures State() == Apply(old(State()), Clear(path))
    {
      if !session {
        return;
      }
      topics := RemoveSubtree(topics, path);
      if selected.Some? && AtOrUnder(selected.value, path) {
        selected := None;
      }
      expanded := set node | node in expanded && HasTopics(topics, node) :: node;
      treeDirty := true;
    }

    /** Start over: drop the client and everything heard. */
    method Reconnect()
      modifies this
      ensures State() == Apply(old(State()), Step.Reconnect)
    {
      session := false;
      topics := map[];
      selected := None;
      expanded := {};
      lines := [];
      treeDirty := false;
    }

    /** Heeds the events one by one, as `HeededAll` does. */
    method DrainEvents(events: seq<Event>)
      modifies this
      ensures State() == Apply(old(State()), Drain(events))
    {
      hide Heeded;
      if !session {
        return;
      }
      for i := 0 to |events|
        invariant State() == HeededAll(old(State()), events[..i])
      {
        assert events[..i + 1][..i] == events[..i];
        Heed(events[i]);
      }
      assert events[..|events|] == events;
    }

    method Heed(event: Event)
      modifies this
      ensures State() == Heeded(old(State()), event)
    {
      hide Evicted, Pushed, Entry, Without;
      match event {
        case Opened =>
        case Lost => session := false;
        case Heard(topic, payload, nowMs) =>
          treeDirty := true;
          if payload == "" {
            topics := Without(topics, topic);
            if selected == Some(topic) {
              selected := None;
            }
          } else {
            var entry := PushHistory(Entry(topics, topic), Message(nowMs, payload));
            topics := topics[topic := entry];
            Evict();
          }
      }
    }

    /** Drop the least recently updated topics beyond the limit. */
    method Evict()
      modifies this`topics
      ensures topics == Evicted(old(topics))
    {
      hide Oldest, Less, IsKeyOrder;
      while |topics| > MAX_TOPICS
        invariant Evicted(topics) == Evicted(old(topics))
        decreases |topics|
      {
        var order := KeysInOrder(topics.Keys);
        KeyOrderIsUnique(order, KeyOrder(topics.Keys), topics.Keys);
        SomeKey(topics, order);
        KeysOnly(order, topics.Keys);
        var oldest := FindOldest(topics, order);
        topics := Without(topics, oldest);
      }
    }

    /** Draw the details of the selected topic. */
    method DrawDetailBody(delete: bool)
      modifies this
      ensures State() == Apply(old(State()), Draw(delete))
    {
      if selected == None {
        return;
      }
      var path := selected.value;
      var entry := Entry(topics, path);
      topics := topics - {path};
      // The entry is drawn while it is out of the map.
      topics := topics[path := entry];
      assert topics == old(topics)[path := entry];
      if delete {
        ClearTopic(path);
      }
    }
  }
}
