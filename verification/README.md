# Models of the terminal client's core, in Dafny

This project models the parts of the application that keep state or do arithmetic apart from its
user interface, and proves what they are for. `dafny verify dfyconfig.toml` checks all of it.

Each module follows one source file, or one concern of it. Where the source changes a structure in
place there is a class, or a method over an array, proved against a function of the state; the
lemmas are about those functions. Where the source computes a value there are functions and lemmas.

| module | models |
|---|---|
| `SampleHistory`, `ChartValues` | the monitor's history: rings of averaged buckets that stand in for every sample, and what they chart |
| `TopicTree`, `TopicPane` | the MQTT pane: the topic tree's roll-up, and the rows cached behind a dirty flag |
| `MqttCodec`, `MqttClient` | MQTT 3.1.1 packets, and the client thread that reassembles them from a stream |
| `Base64` | the base64 of binary payloads |
| `Calendar` | civil dates from day numbers |
| `NameOrder`, `ZipDirectory` | the file pane: natural order of names and sorting, ZIP listings |
| `DockerPane` | the Docker pane's commands: pulls, and updates by inspect and recreate |
| `ConnectionLog`, `Uptime` | the connection logger: the capped log over restarts, and the time it accounts for |
| `DockLayout` | the dock trees of a tab |
| `HostsDocument` | the saved hosts and their order |
| `MacroPad` | the macro list and its ids |
| `Options`, `Orders`, `Lists`, `Arithmetic`, `Decimals`, `Bytes` | what several of them share |

A run is a sequence of steps, and what holds "in every run" is proved for all of them. Real numbers
stand for floating point. Lower-casing, lossy UTF-8, CRC-32, the blank test on tags and the Docker
command builders are parameters, so the results hold for whatever they do.

Where the code falls short of what one would expect, the code is modelled as it is, with the exact
condition under which the expectation does hold and inputs for which it does not:

- the details pane of the MQTT analyser puts the selected topic back into the map even after the
  broker cleared it, so a refreshed tree can miss a row (`TopicPane.CacheAgreesInRuns`,
  `TopicPane.ClearedBranchComesBack`);
- eviction does not clear the selection either, so the next draw can leave more topics than the
  maximum (`TopicPane.SizeHoldsInRuns`, `TopicPane.FullPaneGoesOver`);
- the rows of the topic tree are in the byte order of the whole path, which is not a walk of the
  tree (`TopicTree.RowsAreAWalkExactly`, `TopicTree.AxAndAb`);
- a row's Update and the Pull button of the Docker pane replace a queue whose command is in flight,
  and its answer is then credited to another container or image
  (`DockerPane.SafeNeverMiscreditsExactly`, `DockerPane.ReplacedQueueMiscredits`,
  `DockerPane.ReplacedPullMiscredits`, `DockerPane.SecondRowGetsFirstAnswer`);
- an inspect that was answered before the transport went leads to a recreate that is refused at
  once, and the refusals are credited to the wrong containers (`DockerPane.SafeNeverMiscreditsExactly`,
  `DockerPane.RefusedRecreateMiscredits`, `DockerPane.LostTransportMiscredits`);
- a session offers its whole record of status changes with every frame, and the log compares each
  of them with its newest entry only, so from the second change on every frame appends entries
  again, out of order unless the cap leaves no more than the record; the comment at that comparison
  expects repeats after a restart only (`ConnectionLog.IdleFrameAddsExactly`,
  `ConnectionLog.OrderHoldsInRuns`, `ConnectionLog.IdleFrameKeepsOrderExactly`,
  `ConnectionLog.ThirdFrameRepeatsTheLog`);
- a log out of time order can count time twice (`Uptime.CardsShowTheLog`, `Uptime.CardsAddUp`,
  `Uptime.DisorderCountsTwice`);
- a bucket's value is weighed by the samples of the bucket, not by those that carried the series
  (`ChartValues.WhenChartsAreMeans`, `ChartValues.MissesMean`);
- a saved order that lists a host before and after a host that does not stay in the list needs a
  second normalisation (`HostsDocument.NormalizeSettlesExactly`, `HostsDocument.LocalBetween`);
- the comment of the normalisation promises to remove dangling references, but a jump reference to a
  host that is not there stays (`HostsDocument.JumpsHoldInRuns`, `HostsDocument.UnknownJumpStays`);
- a length field with four continuation bytes is waited on for ever
  (`MqttCodec.NeverDecodesExactly`, `MqttClient.StaysSilentExactly`), and a PUBLISH too long for the
  field is such a packet (`MqttCodec.PublishRoundTrip`, `MqttCodec.PublishDecodes`);
- an archive whose end record spells its own signature once more cannot be listed
  (`ZipDirectory.ArchiveReadsBack`, `ZipDirectory.OneFileListsNothing`);
- splitting a pane that is not there loses the plugin that was to go beside it: afterwards it is
  shown exactly if the pane is (`DockLayout.StepCounts`, `DockLayout.MissingTargetTakesAway`); only
  a unit test calls that operation, with a pane that is there.

## Model

| member | source | states |
|---|---|---|
| `SampleHistory.LadderIsTight` | crates/wassh-plugins/src/monitor.rs:584-615 | A window of `s` seconds is answered in full by its ring, for every run, exactly when `s` is at most seven days; the rings of the 1 h, 24 h and 7 d windows would fail with one bucket less; every range offered is within the limit |
| `SampleHistory.RingsReach` | crates/wassh-plugins/src/monitor.rs:584-615 | The ring of one-second buckets answers up to five minutes and no more, those of 15 s, 60 s and 10 min an hour, a day and a week; and each window offered is cut into 60, 40, 120, 240, 120, 360, 1440, 288 and 1008 buckets |
| `SampleHistory.RingLengthIsTight` | crates/wassh-plugins/src/monitor.rs:713-753 | A ring answers a window in full, whatever is pushed by a clock that never steps back into an earlier bucket, and whenever it is asked, exactly when capacity times width covers the window |
| `SampleHistory.RingAnswers` | crates/wassh-plugins/src/monitor.rs:713-753 | What a long enough ring returns is the series of the whole unbounded sample list: one point for each aligned bucket in the window, in order, folded from exactly the samples of that bucket |
| `SampleHistory.RingFallsShort` | crates/wassh-plugins/src/monitor.rs:713-753 | A ring shorter than its window has a run it answers short: one sample a bucket |
| `SampleHistory.SeriesIsUnique` | crates/wassh-plugins/src/monitor.rs:741-753 | The reference series is determined by the samples, so "equals the unbounded series" has one meaning |
| `SampleHistory.TierIsRuns` | crates/wassh-plugins/src/monitor.rs:713-738 | A bounded tier is its unbounded ring cut to the open bucket and the last `capacity` closed ones |
| `SampleHistory.RunsAreGroups` | crates/wassh-plugins/src/monitor.rs:713-738 | If no sample falls into an earlier bucket than the one before it, the buckets are the groups of samples by aligned start, each start once and ascending |
| `SampleHistory.RunsAreGroupsExactly` | crates/wassh-plugins/src/monitor.rs:713-738 | The buckets are those groups exactly when no sample falls into an earlier bucket than the one before it: a clock may step back within a bucket, and not further |
| `SampleHistory.TierStaysInShape` | crates/wassh-plugins/src/monitor.rs:667-738 | In every such run the starts of a tier are aligned to its width and strictly ascending, every bucket is the fold of the samples of its start, and no more than `capacity` closed buckets are kept |
| `SampleHistory.CountsAddUp` | crates/wassh-plugins/src/monitor.rs:713-738 | Counts are conserved: evicted, retained and open buckets together count every push once |
| `ChartValues.FoldedBlendsSeries` | crates/wassh-plugins/src/monitor.rs:641-655 | Folding a bucket blends each of the four series on its own |
| `ChartValues.BlendStaysBetween` | crates/wassh-plugins/src/monitor.rs:641-655 | A charted value lies between the least and greatest present sample, and is missing exactly when no sample carried it |
| `ChartValues.WhenChartsAreMeans` | crates/wassh-plugins/src/monitor.rs:641-655 | For a pattern of present and missing samples, the charted value is the mean of the present ones for all values exactly when at most one is present or none comes after a missing one |
| `ChartValues.PresentFirstChartsMean` | crates/wassh-plugins/src/monitor.rs:641-655 | The exact mean, in particular when every sample of the bucket carries the series |
| `ChartValues.MissesMean` | crates/wassh-plugins/src/monitor.rs:641-655 | For every other pattern there are values whose chart is not their mean |
| `SampleHistory.FoldInto` | crates/wassh-plugins/src/monitor.rs:713-738 | One sample folded into one tier: the open bucket is merged into, or closed with the oldest closed buckets making room |
| `SampleHistory.History.constructor` | crates/wassh-plugins/src/monitor.rs:692-709 | A new ladder holds the history of no samples |
| `SampleHistory.History.Push` | crates/wassh-plugins/src/monitor.rs:713-738 | After a push every tier is what its whole push sequence makes it |
| `SampleHistory.History.SeriesAnswersInFull` | crates/wassh-plugins/src/monitor.rs:741-753 | The object as built: while the clock never steps back into an earlier bucket, any window up to seven days reads as the unbounded history would |
| `SampleHistory.History.LenCoversTheWindow` | crates/wassh-plugins/src/monitor.rs:755-764 | The count given for a window is that of its ring: bounded by the capacity and the open bucket, never less than the points the window shows, and more exactly when the ring still holds a bucket that ended before the window |
| `TopicTree.TreeLines` | crates/wassh-plugins/src/mqtt.rs:409-474 | The one-pass roll-up over a mutable totals map returns the rows of the naive tree, in key order |
| `TopicTree.RowsAreTheTree` | crates/wassh-plugins/src/mqtt.rs:409-474 | The rows are exactly the topics and slash-prefix ancestors of topics whose every ancestor is open, each once, in key order; each counts what was heard at or under it, the heard topics strictly under it, and is expandable exactly when a topic is strictly under it |
| `TopicTree.ParentRowIsShownAbove` | crates/wassh-plugins/src/mqtt.rs:454-474 | A shown row has its parent shown above it, open, and counting at least as much |
| `TopicTree.RowSays` | crates/wassh-plugins/src/mqtt.rs:454-474 | What a row shows: whether topics hang below it, whether it is open, what it heard itself, its segment and depth, and its badge: on a closed branch the heard topics below it and all they heard, each in the right number, else what it heard itself, if anything |
| `TopicTree.SegmentIs` | crates/wassh-plugins/src/mqtt.rs:454-474 | A path is its parent, a slash and a segment without slashes, and is one level deeper than its parent |
| `TopicTree.SilenceCountsNothing` | crates/wassh-plugins/src/mqtt.rs:422-439 | Topics that heard nothing count for no node |
| `TopicTree.MessageCounts` | crates/wassh-plugins/src/mqtt.rs:422-439 | One more message on a topic counts once for the topic and each of its ancestors and for no other node, and makes one more heard topic below each ancestor if it was the first |
| `TopicTree.SiblingComesBetween` | crates/wassh-plugins/src/mqtt.rs:454-474 | In byte order a sibling that goes on with a character below the slash where a branch's name ends, as `a-b` does behind `a`, stands after the branch and before everything below it, and is not below it |
| `TopicTree.RowsAreAWalkExactly` | crates/wassh-plugins/src/mqtt.rs:454-474 | For any topics and open nodes, in the rows everything shown below a row follows it without a foreign row in between, exactly when no shown path goes on, with a character below the slash, where the name of a shown branch with something shown below it ends |
| `TopicTree.TwoTopicsAreNoWalk` | crates/wassh-plugins/src/mqtt.rs:454-474 | Two topics are enough for rows that are no walk: one below an open branch, and such a sibling of the branch |
| `TopicTree.AxAndAb` | crates/wassh-plugins/src/mqtt.rs:454-474 | The topics `a/x` and `a-b` with `a` open |
| `TopicTree.ParentIsNearest` | crates/wassh-plugins/src/mqtt.rs:399-402 | `parent_of` is the nearest proper slash-prefix, and the other ancestors are those of the parent |
| `TopicTree.Register` | crates/wassh-plugins/src/mqtt.rs:413-421 | Adds the node of a topic and of all its ancestors, and marks exactly the ancestors as having children |
| `TopicTree.RollUp` | crates/wassh-plugins/src/mqtt.rs:422-439 | Adds what one topic heard to itself and to all its ancestors and to nothing else |
| `TopicTree.Visible` | crates/wassh-plugins/src/mqtt.rs:441-453 | The walk up the parents finds whether every ancestor is open |
| `TopicTree.KeysInOrder` | crates/wassh-plugins/src/mqtt.rs:409-416 | Map iteration visits the keys in byte order |
| `TopicTree.KeyOrderIsUnique` | crates/wassh-plugins/src/mqtt.rs:409-416 | Only one order of the keys is ascending |
| `TopicPane.CacheAgreesInRuns` | crates/wassh-plugins/src/mqtt.rs:916-1026 | Over every interleaving of messages, toggles, selections, clears, reconnects, refreshes and draws, the cached rows agree with the tree at every moment while the dirty flag is off, exactly when every draw was harmless |
| `TopicPane.StepKeepsAgreement` | crates/wassh-plugins/src/mqtt.rs:916-1026 | One step keeps that agreement, unless it is a harmful draw |
| `TopicPane.DrawKeepsAgreement` | crates/wassh-plugins/src/mqtt.rs:1503-1629 | Lending the selected entry out and putting it back keeps the agreement exactly when nothing is selected, the tree is dirty anyway or is cleared, the path is still a node, or it hangs under a closed one |
| `TopicPane.HarmlessKeepsRows` | crates/wassh-plugins/src/mqtt.rs:1503-1629 | Putting back an entry for a node, or out of sight, leaves every row as it was, even when the entry is made up for a branch |
| `TopicPane.OtherwiseRowsChange` | crates/wassh-plugins/src/mqtt.rs:1503-1629 | Putting back any other entry changes the rows |
| `TopicPane.ClearedBranchComesBack` | crates/wassh-plugins/src/mqtt.rs:1503-1629 | A run that breaks the agreement: the selected branch is cleared by the broker, the rows are refreshed, and the next draw brings the path back into the map |
| `TopicPane.EvictionKeepsNewest` | crates/wassh-plugins/src/mqtt.rs:1193-1206 | Eviction leaves as many topics as the maximum allows, changes none of them, and every topic it drops was heard from longer ago than every topic it keeps |
| `TopicPane.SizeHoldsInRuns` | crates/wassh-plugins/src/mqtt.rs:1150-1206 | The pane holds at most the maximum of topics at every moment of a run exactly when every draw fits: nothing is selected, the selected topic is still there or there is room for it, or it is deleted at once |
| `TopicPane.StepKeepsSizeExactly` | crates/wassh-plugins/src/mqtt.rs:1150-1206 | One step keeps within the maximum exactly when it is not a draw that does not fit |
| `TopicPane.SizeIsBounded` | crates/wassh-plugins/src/mqtt.rs:1503-1629 | A run goes over the maximum by at most one topic for each draw that did not fit since a message was last taken in |
| `TopicPane.EvictedSelectionComesBack` | crates/wassh-plugins/src/mqtt.rs:1193-1206 | Eviction leaves the selection alone: when a new topic drives out the selected one from a full pane, the next draw puts it back and there is one topic too many |
| `TopicPane.FullPaneGoesOver` | crates/wassh-plugins/src/mqtt.rs:1503-1629 | A run from a new pane that does: it fills up, its first topic is selected, one more topic is heard and the details are drawn |
| `TopicPane.DroppedAreOldest` | crates/wassh-plugins/src/mqtt.rs:1193-1206 | The same told from the histories: what is dropped was last heard no later than what stays, and was never heard at all before a topic that was never heard is kept, but for the start of time |
| `TopicPane.HistoryIsNewest` | crates/wassh-plugins/src/mqtt.rs:484-490 | Pushing messages onto an empty entry leaves the newest of them, in order, up to the bound, and counts all |
| `TopicPane.MessageIsAdded` | crates/wassh-plugins/src/mqtt.rs:1174-1206 | After a message on a topic that stays, one more is counted than before, the history is the newest hundred of the old one and the message, and every other topic kept is unchanged |
| `TopicPane.EmptyMessageClears` | crates/wassh-plugins/src/mqtt.rs:1163-1173 | A message without payload takes its topic away, and the selection if it was that, and nothing else |
| `TopicPane.TopicsHoldTheirMessages` | crates/wassh-plugins/src/mqtt.rs:1150-1218 | In every run the entry of a topic counts the messages heard on it since it was last absent, and holds the newest hundred of them, oldest first |
| `TopicPane.PushHistory` | crates/wassh-plugins/src/mqtt.rs:484-490 | One message enters the history and the oldest leave |
| `TopicPane.RemoveSubtree` | crates/wassh-plugins/src/mqtt.rs:997-1026 | Clearing takes out a topic and everything under it, and nothing else |
| `TopicPane.FindOldest` | crates/wassh-plugins/src/mqtt.rs:1195-1204 | The search finds the topic heard from longest ago, the first in key order of several |
| `TopicPane.MqttAnalyser.Toggle` | crates/wassh-plugins/src/mqtt.rs:965-971 | The new state of the pane after opening or closing a node |
| `TopicPane.ToggledIs` | crates/wassh-plugins/src/mqtt.rs:965-971 | A toggled branch is open exactly when it was not, no other branch, topic or selection changes, and the rows are marked |
| `TopicPane.MqttAnalyser.RefreshLines` | crates/wassh-plugins/src/mqtt.rs:973-980 | The rows are rebuilt only when dirty, and then agree |
| `TopicPane.RefreshedIs` | crates/wassh-plugins/src/mqtt.rs:973-980 | The rows are rebuilt when marked stale, or when there are none although there are topics, and nothing else changes |
| `TopicPane.MqttAnalyser.ClearTopic` | crates/wassh-plugins/src/mqtt.rs:997-1026 | The new state after a subtree is cleared |
| `TopicPane.ClearedIs` | crates/wassh-plugins/src/mqtt.rs:997-1026 | With a client, clearing leaves exactly the topics that are neither the path nor below it, each as it was, exactly the open branches with a topic left at or below them, and the selection unless it was cleared; without one it does nothing |
| `TopicPane.MqttAnalyser.Reconnect` | crates/wassh-plugins/src/mqtt.rs:916-926 | The new state after a reconnect: nothing heard, nothing shown |
| `TopicPane.SessionsComeAndGo` | crates/wassh-plugins/src/mqtt.rs:916-926 | A lost client only loses the session; a reconnect forgets all that was heard, opened, selected and drawn |
| `TopicPane.MqttAnalyser.DrainEvents` | crates/wassh-plugins/src/mqtt.rs:1150-1218 | The new state after the events of a frame, in order, each as the lemmas on messages say |
| `TopicPane.MqttAnalyser.DrawDetailBody` | crates/wassh-plugins/src/mqtt.rs:1503-1629 | The new state after the details pane lent the selected entry out, put it back, and perhaps deleted the subtree |
| `MqttCodec.EncodeRemainingLength` | crates/wassh-mqtt/src/codec.rs:65-79 | The loop writes the remaining-length field (section 2.2.3 of MQTT 3.1.1) |
| `MqttCodec.DecodeRemainingLength` | crates/wassh-mqtt/src/codec.rs:82-93 | The loop reads the field, or nothing when it is not complete within four bytes |
| `MqttCodec.LengthRoundTrip` | crates/wassh-mqtt/src/codec.rs:65-93 | Reading a written length, whatever follows, gives the length and the size of the field exactly when the length is under 128^4; longer ones are never read |
| `MqttCodec.LengthFieldMinimal` | crates/wassh-mqtt/src/codec.rs:65-93 | No field that is read as some length is shorter than the written one, and one as short is the written one |
| `MqttCodec.LengthFieldStable` | crates/wassh-mqtt/src/codec.rs:82-93 | A field that was read reads the same with more bytes behind it, and not at all with any byte missing |
| `MqttCodec.PutString` | crates/wassh-mqtt/src/codec.rs:56-62 | A string is appended with its length, cut at 65535 bytes |
| `MqttCodec.EncodePublishWith` | crates/wassh-mqtt/src/codec.rs:159-174 | The bytes of a PUBLISH (section 3.3 of MQTT 3.1.1) |
| `MqttCodec.FrameDecodes` | crates/wassh-mqtt/src/codec.rs:96-102 | A frame of any header and body, whatever follows it, decodes to what its body holds, as the rows below say kind by kind, and its exact length, or waits when the body does not fit the length field |
| `MqttCodec.ConnAckDecodes` | crates/wassh-mqtt/src/codec.rs:224-232 | A CONNACK with any flags and anything behind its two bytes: the session is present by the lowest bit of the first, and the second is the return code |
| `MqttCodec.SubAckDecodes` | crates/wassh-mqtt/src/codec.rs:262-269 | A SUBACK: the packet id is its first two bytes, the most significant first |
| `MqttCodec.PubAckDecodes` | crates/wassh-mqtt/src/codec.rs:256-261 | A PUBACK of at least two bytes is taken and its id is not looked at |
| `MqttCodec.OtherKindsDecode` | crates/wassh-mqtt/src/codec.rs:270-271 | PINGRESP, and every kind the client has no use for, with any flags and body |
| `MqttCodec.ShortBodiesAreBad` | crates/wassh-mqtt/src/codec.rs:224-269 | A CONNACK, PUBACK or SUBACK of fewer than two bytes is an error that names its kind |
| `MqttCodec.ReceivedPublishDecodes` | crates/wassh-mqtt/src/codec.rs:233-255 | A received PUBLISH byte by byte: QoS and retain from the flags, the topic behind its two-byte length, above QoS 0 the two bytes of the id, and the rest as payload |
| `MqttCodec.ShortPublishIsBad` | crates/wassh-mqtt/src/codec.rs:192-255 | A PUBLISH that ends within its topic's length, within its topic or within its id is the error of that |
| `MqttCodec.PubAckBytes` | crates/wassh-mqtt/src/codec.rs:176-179 | The four bytes of a PUBACK |
| `MqttCodec.SubscribeReadsBack` | crates/wassh-mqtt/src/codec.rs:139-144 | A SUBSCRIBE has header 0x82, and a reader finds its id, its filter, and QoS 0 |
| `MqttCodec.UnsubscribeReadsBack` | crates/wassh-mqtt/src/codec.rs:147-151 | An UNSUBSCRIBE has header 0xA2, and a reader finds its id and its filter |
| `MqttCodec.LengthFieldDigits` | crates/wassh-mqtt/src/codec.rs:65-79 | The bytes of a length field are the digits of the length in base 128, the least significant first, each but the last with the high bit |
| `MqttCodec.PublishDecodes` | crates/wassh-mqtt/src/codec.rs:159-274 | What the decoding of an encoded PUBLISH gives, for every topic, payload, QoS, flag and id and any bytes behind it |
| `MqttCodec.PublishRoundTrip` | crates/wassh-mqtt/src/codec.rs:159-274 | All fields and the exact length come back exactly when the body is under 128^4 bytes, the QoS fits its two bits, the id is 0 at QoS 0, and cutting the topic at 65535 bytes loses nothing of its text |
| `MqttCodec.PublishPrefixWaits` | crates/wassh-mqtt/src/codec.rs:159-274 | Every strict prefix of an encoded PUBLISH decodes to "need more" |
| `MqttCodec.DecodeIsSettled` | crates/wassh-mqtt/src/codec.rs:209-274 | A decoded packet or error never changes when bytes are appended; it appears at one point, at least two bytes in, and every shorter prefix decodes to "need more" |
| `MqttCodec.NeverDecodesExactly` | crates/wassh-mqtt/src/codec.rs:82-93 | No bytes whatever complete the packet at the front of a buffer exactly when the first byte is followed by four with the continuation bit |
| `MqttClient.ReassemblyIgnoresInterleaving` | crates/wassh-mqtt/src/client.rs:188-329 | In every run, with commands and keep-alives in between, the events and PUBACKs the broker caused are those of draining all received bytes at once, and the buffer is what is left of them |
| `MqttClient.ChunkingDoesNotMatter` | crates/wassh-mqtt/src/client.rs:243-271 | Reading a stream in any chunks leaves the thread in the very state one read of the whole leaves it in |
| `MqttClient.DrainSplits` | crates/wassh-mqtt/src/client.rs:250-270 | Draining a stream is draining its front and then the left-over with the rest |
| `MqttClient.PublishCauses` | crates/wassh-mqtt/src/client.rs:308-325 | A decoded PUBLISH tells its message, behind a PUBACK of its id exactly when the QoS is 1, and the stream goes on behind it |
| `MqttClient.PublishedIsAcknowledged` | crates/wassh-mqtt/src/client.rs:309-326 | So for the bytes of any published message, whatever follows them |
| `MqttClient.ConnAckCauses` | crates/wassh-mqtt/src/client.rs:298-307 | A CONNACK of code 0 tells that the client is connected and goes on; any other tells the reason for its code, then the end, and nothing after it is looked at |
| `MqttClient.OthersCauseNothing` | crates/wassh-mqtt/src/client.rs:326-326 | No other packet has any effect |
| `MqttClient.BadPacketEnds` | crates/wassh-mqtt/src/client.rs:263-267 | What cannot be decoded tells the reason, then the end |
| `MqttClient.DrainAcknowledges` | crates/wassh-mqtt/src/client.rs:250-329 | What draining a stream writes is one PUBACK for each QoS 1 message in it, under its id and in order, and what it tells as messages is each of its messages in order |
| `MqttClient.RunAcknowledges` | crates/wassh-mqtt/src/client.rs:188-329 | The same of every run and all the bytes it received |
| `MqttClient.ClosedIsToldOnce` | crates/wassh-mqtt/src/client.rs:188-291 | In every run the end is told exactly when the client ended, once, as the last thing |
| `MqttClient.DecodeTakes` | crates/wassh-mqtt/src/client.rs:252-257 | Every packet the loop takes consumes at least two bytes, so the loop ends |
| `MqttClient.NothingDrainsExactly` | crates/wassh-mqtt/src/client.rs:250-270 | A stream drains to nothing whatever follows it, staying open and kept whole, exactly when it starts so |
| `MqttClient.StaysSilentExactly` | crates/wassh-mqtt/src/client.rs:243-271 | In no run does anything a connected client is sent have an effect, and all of it is kept while the client is open, exactly when its buffer is such a one |
| `MqttClient.IdCycle` | crates/wassh-mqtt/src/client.rs:192-223 | Packet ids run through 1 to 65535 and start over |
| `MqttClient.IdsAreFresh` | crates/wassh-mqtt/src/client.rs:192-223 | Ids are never 0, and any 65535 in a row are different |
| `MqttClient.RunTakesIdsInOrder` | crates/wassh-mqtt/src/client.rs:188-241 | In every run the next id tells how many requests took one: a QoS 0 publish takes none |
| `MqttClient.Client.constructor` | crates/wassh-mqtt/src/client.rs:182-186 | A thread that just connected |
| `MqttClient.Client.Execute` | crates/wassh-mqtt/src/client.rs:190-233 | The new state after one command, with its packet written and its id taken |
| `MqttClient.RequestsAre` | crates/wassh-mqtt/src/client.rs:190-233 | Which requests use up an id, which end the client, and what a failed write tells |
| `MqttClient.SubscriptionIsRead` | crates/wassh-mqtt/src/client.rs:190-207 | What a reader finds in the packet of a subscription: its id and its filter |
| `MqttClient.MessageIsRead` | crates/wassh-mqtt/src/client.rs:208-228 | What it finds in the packet of a message: topic, payload, QoS, retain flag and, above QoS 0, the id |
| `MqttClient.Client.HangUp` | crates/wassh-mqtt/src/client.rs:235-239 | The new state after the commands' sender is gone |
| `MqttClient.Client.AllocateId` | crates/wassh-mqtt/src/client.rs:193-194 | Gives the next id and moves on |
| `MqttClient.Client.Read` | crates/wassh-mqtt/src/client.rs:243-271 | The new state after a read: an end of stream, or bytes to decode |
| `MqttClient.Client.DecodeBuffer` | crates/wassh-mqtt/src/client.rs:250-270 | The loop takes every complete packet from the buffer, with the effects the rows above state packet by packet, keeps the rest, and stops for good at a bad packet or a refusal |
| `MqttClient.Client.LoseConnection` | crates/wassh-mqtt/src/client.rs:277-281 | The new state after a read error |
| `MqttClient.Client.KeepAlive` | crates/wassh-mqtt/src/client.rs:284-291 | The new state after a ping |
| `MqttClient.ClientEndsExactly` | crates/wassh-mqtt/src/client.rs:188-291 | When a client ends, and what each turn of its own writes and tells |
| `Calendar.CivilFollowsTheCalendar` | crates/wassh-core/src/time.rs:8-19 | For every day number, negative ones too, the result is a date and the next day number gives the next date of the Gregorian calendar |
| `Calendar.CivilStartsAtTheEpoch` | crates/wassh-core/src/time.rs:8-19 | Day 0 is 1970-01-01 |
| `Calendar.CivilIsTheOnlyCalendar` | crates/wassh-core/src/time.rs:8-19 | Anything that dates day 0 so and goes on day by day is this function |
| `Calendar.CivilPreservesOrder` | crates/wassh-core/src/time.rs:8-19 | Later days have later dates, so no two share one |
| `Calendar.CivilCountsDays` | crates/wassh-core/src/time.rs:8-19 | `n` days on is `n` calendar steps on |
| `Calendar.CivilSkipsNoDate` | crates/wassh-core/src/time.rs:8-19 | Every date between two dates it gives is the date of a day in between |
| `NameOrder.CompareNames` | crates/wassh-plugins/src/files.rs:723-770 | The loop over two character iterators compares the names' tokens lexicographically: runs of digits by number, other lower-cased characters by code point |
| `NameOrder.CompareMeans` | crates/wassh-plugins/src/files.rs:723-770 | A name comes first exactly when, both lowered, at their first difference it has the smaller number or character, or none left; names are equal exactly when they are of the same characters and numbers |
| `NameOrder.DigitsCompareAsNumbers` | crates/wassh-plugins/src/files.rs:739-752 | Comparing zero-stripped runs by length and then text is comparing the numbers |
| `NameOrder.NumberOfDecimal` | crates/wassh-plugins/src/files.rs:739-752 | The number of a run of digits is the one they denote in base ten |
| `NameOrder.CompareSwaps` | crates/wassh-plugins/src/files.rs:723-770 | Swapping the names reverses the result |
| `NameOrder.CompareEqualMeansSame` | crates/wassh-plugins/src/files.rs:723-770 | Equal means the same tokens |
| `NameOrder.CompareIsTransitive` | crates/wassh-plugins/src/files.rs:723-770 | Less-or-equal chains |
| `NameOrder.SortEntries` | crates/wassh-plugins/src/files.rs:708-720 | The indices are permuted in place until every folder stands before every file, names ascend within each, and equal names keep their places |
| `NameOrder.TableOrderIsUnique` | crates/wassh-plugins/src/files.rs:708-720 | Only one order of the indices is such |
| `NameOrder.PermutationHasAll` | crates/wassh-plugins/src/files.rs:708-720 | Every entry is in the table exactly once |
| `NameOrder.Sink` | crates/wassh-plugins/src/files.rs:708-720 | One entry moves to its place among those sorted before it |
| `ZipDirectory.ZipEntries` | crates/wassh-plugins/src/files.rs:242-288 | The loop searches the end record from the back and lists the central directory (sections 4.3.12 and 4.3.16 of the PKWARE APPNOTE), or gives up where a read falls outside the file |
| `ZipDirectory.ListHeaders` | crates/wassh-plugins/src/files.rs:256-286 | One header after the other, each as long as its name, extra and comment fields say |
| `ZipDirectory.HeaderLists` | crates/wassh-plugins/src/files.rs:271-286 | A header lists its name and size, and the next one stands behind the name, the extra field and the comment, however long they are |
| `ZipDirectory.ListingEnds` | crates/wassh-plugins/src/files.rs:271-287 | Where the list ends: a truncated header gives everything up, and anything else than a header ends it |
| `ZipDirectory.NoEndRecordNoListing` | crates/wassh-plugins/src/files.rs:242-253 | A file without an end record in its last 65557 bytes is not listed |
| `ZipDirectory.LastRecordDecides` | crates/wassh-plugins/src/files.rs:248-267 | For every file, the last end record in the last 65557 bytes decides, whatever comment stands behind it: its count of headers is listed from where it says the directory starts |
| `ZipDirectory.CutRecordListsNothing` | crates/wassh-plugins/src/files.rs:248-263 | A signature with fewer than sixteen bytes behind it makes a file list nothing, whatever stands before |
| `ZipDirectory.ArchiveReadsBack` | crates/wassh-plugins/src/files.rs:4359-4409 | Reading what the store-only writer made of any entries that fit the format gives their names, sizes and directory flags in order, exactly when the end record's own signature is the last in the file, and nothing otherwise |
| `ZipDirectory.ListedIs` | crates/wassh-plugins/src/files.rs:275-286 | Each entry of that list has the item's name as text and its size, and is a directory exactly when the name ends with a slash |
| `ZipDirectory.UnluckyStartHides` | crates/wassh-plugins/src/files.rs:242-255 | Entries that fit the format, with a directory that starts at 0x06054b50, make an archive that lists nothing: the offset in the end record spells its signature |
| `ZipDirectory.OneFileListsNothing` | crates/wassh-plugins/src/files.rs:4359-4409 | One file of the right size is such an archive |
| `ZipDirectory.DirectoryReadsBack` | crates/wassh-plugins/src/files.rs:242-288 | The central directory of any entries, wherever it stands and whatever follows, lists them in order |
| `ZipDirectory.EndRecordIsFound` | crates/wassh-plugins/src/files.rs:242-255 | Where the search from the back stops in a file that ends with an end record |
| `ZipDirectory.LastSignatureFinds` | crates/wassh-plugins/src/files.rs:243-250 | The search finds the last signature in its window, or none is there |
| `Base64.Encode` | crates/wassh-plugins/src/mqtt.rs:658-681 | The loop writes base64 (section 4 of RFC 4648) |
| `Base64.DecodeUndoesEncode` | crates/wassh-plugins/src/mqtt.rs:658-681 | Decoding the text of any bytes gives them back |
| `Base64.EncodedIsQuanta` | crates/wassh-plugins/src/mqtt.rs:662-679 | The text is one quantum of four characters for every three bytes, in order, and one for what is left |
| `Base64.QuantumSays` | crates/wassh-plugins/src/mqtt.rs:663-678 | The characters of a quantum: six bits each from the most significant on, a missing byte counting as 0, `=` for a character that would hold nothing of what is there |
| `Base64.SymbolIs` | crates/wassh-plugins/src/mqtt.rs:659-660 | The alphabet |
| `Base64.EncodedShape` | crates/wassh-plugins/src/mqtt.rs:658-681 | The text has 4 characters for every 3 bytes or part of them, and `=` in exactly the last 0, 1 or 2 places |
| `DockerPane.ProtocolHoldsInRuns` | crates/wassh-plugins/src/docker.rs:449-814 | In every run, with commands ending at any time, between polls and within them, and the transport going and coming, an invariant holds at every moment exactly when every step was safe. The invariant: each request is out or answered once; inspect and recreate are never both in flight; what is in flight is for the head of its queue; every answer was credited to the container or image its request was for; the queue drains from its front, each place recreated at most once. Unsafe are a row's Update and the Pull button while something is in flight for another head, and a poll that finds an inspect's answer yielding a recreate while there is no transport |
| `DockerPane.StepKeepsExactly` | crates/wassh-plugins/src/docker.rs:449-814 | One step keeps that invariant exactly when it is safe |
| `DockerPane.SafeNeverMiscreditsExactly` | crates/wassh-plugins/src/docker.rs:449-814 | Told by the record of requests and answers alone: after a step from such a state, no continuation by safe steps ever credits an answer to another container or image than it is for, exactly when the step was safe |
| `DockerPane.RunsNeverMiscreditExactly` | crates/wassh-plugins/src/docker.rs:449-814 | The same of whole runs from a new pane: at every moment no such continuation credits an answer wrongly, exactly when every step was safe |
| `DockerPane.JobsRunTheirCommands` | crates/wassh-plugins/src/docker.rs:449-814 | In every run, safe or not, a command in flight is the one for what it is in flight for: the pull of that image, the inspect of that container, or the recreate script made of an inspect output that was read for that container without error |
| `DockerPane.CommandsHoldInRuns` | crates/wassh-plugins/src/docker.rs:449-814 | ... because every command sent is such a one when it is sent, no two are in flight under one key, and no recreate is in flight while an inspect is open |
| `DockerPane.QueueKeepsExactly` | crates/wassh-plugins/src/docker.rs:1009-1023 | Replacing the update queue keeps it exactly when no inspect or recreate is out or the new queue starts with the container it is for |
| `DockerPane.PullKeepsExactly` | crates/wassh-plugins/src/docker.rs:1296-1298 | Replacing the pull queue keeps it exactly when no pull is out or the new queue starts with the image it is for |
| `DockerPane.ReplacedQueueMiscredits` | crates/wassh-plugins/src/docker.rs:993-1023 | Otherwise the harm is done: when a queue is replaced by one with another head while an inspect or a recreate is out, or its answer was not read yet, the next poll with the answer there reads it and credits it to another container or to none |
| `DockerPane.ReplacedPullMiscredits` | crates/wassh-plugins/src/docker.rs:711-738 | Likewise a pull's answer, out or not read yet, when the pull queue was replaced by one with another head |
| `DockerPane.SecondRowGetsFirstAnswer` | crates/wassh-plugins/src/docker.rs:1009-1023 | A run from a new pane: two containers are listed, Update is pressed on the first and polled, then on the second, and the answer to the first's inspect is credited to the second |
| `DockerPane.RefusedRecreateMiscredits` | crates/wassh-plugins/src/docker.rs:763-813 | Nor does the poll expect a refusal: it hands out the recreate, and when the session refuses that for want of a transport it asks the same container's inspect again at once; the poll after it credits the second refusal to whatever comes next in the queue |
| `DockerPane.LostTransportMiscredits` | crates/wassh/src/app/session.rs:1652-1670 | A run from a new pane that ends so: the inspect of one container is answered, the session goes back to its login prompt, and two frames are polled |
| `DockerPane.PolledUpdateKeeps` | crates/wassh-plugins/src/docker.rs:740-814 | A poll of the updates keeps the protocol in every other state, whatever ends in the middle of it |
| `DockerPane.AnswersAreCredited` | crates/wassh-plugins/src/docker.rs:467-504 | In a record that passes, every answer read belongs to the last request under its key and is credited to what that request was for |
| `DockerPane.AnsweredAtMostOnce` | crates/wassh-plugins/src/docker.rs:467-504 | In such a record there are as many answers as requests, but for one still out |
| `DockerPane.RemoteCommands.Exec` | crates/wassh/src/app/session.rs:1175-1211 | A new request first takes in every answer that has arrived and forgets the last one under its own key; without a transport it fails at once |
| `DockerPane.ExecutedIs` | crates/wassh/src/app/session.rs:1175-1207 | What sending changes under its key and not under any other, with a transport and without |
| `DockerPane.RemoteCommands.Collect` | crates/wassh/src/app/session.rs:1820-1836 | The answers that have arrived are taken in and their jobs leave the list |
| `DockerPane.RemoteCommands.SetTransport` | crates/wassh/src/app/session.rs:1652-1670 | The transport is lost or there again, and nothing else about the commands changes |
| `DockerPane.CollectedIs` | crates/wassh/src/app/session.rs:1820-1836 | Under each key, what is in flight and what is answered after that |
| `DockerPane.RemoteCommands.IsBusy` | crates/wassh-plugins/src/docker.rs:467-470 | Whether a job is in flight under the key |
| `DockerPane.DockerManager.Run` | crates/wassh-plugins/src/docker.rs:449-453 | The new state after a request |
| `DockerPane.DockerManager.Take` | crates/wassh-plugins/src/docker.rs:467-504 | The outcome under a key, once for each request, and the state after |
| `DockerPane.OutcomeIs` | crates/wassh-plugins/src/docker.rs:475-504 | What is read in an answer: the output, and an error exactly when the command exited with another code than 0 or was not run |
| `DockerPane.DockerManager.MarkStale` | crates/wassh-plugins/src/docker.rs:817-823 | The containers of an image are noted once each |
| `DockerPane.DockerManager.PollPull` | crates/wassh-plugins/src/docker.rs:711-738 | The new state after a poll of the pulls |
| `DockerPane.PullAnswered` | crates/wassh-plugins/src/docker.rs:711-730 | A pull's error gives the whole queue up; otherwise its image leaves the queue, and exactly the containers that run it join the stale ones if it was newer |
| `DockerPane.DockerManager.TakeUpdate` | crates/wassh-plugins/src/docker.rs:740-762 | The new state after the recreate's answer |
| `DockerPane.RecreateAnswered` | crates/wassh-plugins/src/docker.rs:740-762 | A recreate's answer takes the head off the queue, and off the stale ones exactly when it went well |
| `DockerPane.DockerManager.TakeInspect` | crates/wassh-plugins/src/docker.rs:763-799 | The new state after the inspect's answer |
| `DockerPane.InspectAnswered` | crates/wassh-plugins/src/docker.rs:763-799 | An inspect's answer sends the head's recreate when it went well and makes a script, and takes the head off the queue when not |
| `DockerPane.DockerManager.StartNext` | crates/wassh-plugins/src/docker.rs:800-813 | The new state after the next inspect went out |
| `DockerPane.PollSends` | crates/wassh-plugins/src/docker.rs:731-814 | What polls send of their own: the pull of the queue's head when none is in flight, and the inspect of the first container that waits when neither an inspect nor a recreate is |
| `DockerPane.DockerManager.PollUpdate` | crates/wassh-plugins/src/docker.rs:740-814 | The new state after a poll of the updates |
| `DockerPane.DockerManager.QueueUpdates` | crates/wassh-plugins/src/docker.rs:1009-1023 | The queue is the listed containers among the ids, in the ids' order |
| `DockerPane.QueueKeepsOrder` | crates/wassh-plugins/src/docker.rs:1009-1023 | The queue is the ids that are listed, in the order they were given |
| `DockerPane.QueueIs` | crates/wassh-plugins/src/docker.rs:1009-1023 | ... each waiting, under its container's name, and none left out |
| `ConnectionLog.RestartsGoUnnoticed` | crates/wassh-plugins/src/connection_logger.rs:453-519 | For any stored log and any life of the pane, what is shown and stored is what it would be had the application never been restarted; a coherent log stays so |
| `ConnectionLog.MergeKeepsTrackExactly` | crates/wassh-plugins/src/connection_logger.rs:458-492 | The start of the current connection stays the last entry's time if that entry is Connected and none otherwise, exactly unless a cap of zero drops a connection just logged |
| `ConnectionLog.ReofferChangesNothing` | crates/wassh-plugins/src/connection_logger.rs:465-473 | Offering just the newest event again, with a restart in between or not, changes nothing |
| `ConnectionLog.HistoryAddsAgainExactly` | crates/wassh-plugins/src/connection_logger.rs:458-519 | Offering a whole history again, as every frame does, adds entries once more exactly when two of its events worth an entry differ in time or kind |
| `ConnectionLog.HistoryAgainIsSortedExactly` | crates/wassh-plugins/src/connection_logger.rs:458-519 | Under any cap, a session's history that comes twice leaves the log in time order exactly when all its events share one time, or the cap leaves no more than a part of it that is in order; for a history in order, when the cap is no longer than the history |
| `ConnectionLog.AbsorbKeepsOrderExactly` | crates/wassh-plugins/src/connection_logger.rs:458-519 | A log in time order stays so under a whole history exactly when the part of the history that the cap leaves is in order and, where the cap leaves more than the history, the history begins no earlier than the log ends |
| `ConnectionLog.OrderHoldsInRuns` | crates/wassh/src/app/session.rs:909-934 | Over every run of frames, whatever the clock, the settings, the clearing and the stored log: the log is in time order at every moment exactly when it was so in storage and each frame meets that condition |
| `ConnectionLog.IdleFrameKeepsOrderExactly` | crates/wassh/src/app/session.rs:909-934 | A frame without a change, after one that brought the log up to date, keeps its order exactly when the history can come again in order |
| `ConnectionLog.IdleFrameAddsExactly` | crates/wassh/src/app/session.rs:909-934 | In every run of frames over a session that notes its status changes: a frame without a change, after one that brought the log up to date, adds entries exactly when the session has noted two changes or more |
| `ConnectionLog.ThirdFrameRepeatsTheLog` | crates/wassh/src/app/session.rs:1478-1478 | A session that connects, loses its connection and is looked at once more has both entries twice, out of order |
| `ConnectionLog.StatusRecord.RecordStatus` | crates/wassh/src/app/session.rs:909-934 | The session's record after a frame: the status is noted when it is worth it and not the last one noted, and the oldest are forgotten; neighbours in a record always differ |
| `ConnectionLog.RecordedIs` | crates/wassh/src/app/session.rs:909-934 | A loggable status other than the last noted is noted last, and of more than two hundred the oldest go |
| `ConnectionLog.MergeRespectsCap` | crates/wassh-plugins/src/connection_logger.rs:486-490 | An added entry leaves one more than before but never more than the cap, and an event that adds nothing leaves the entries alone |
| `ConnectionLog.EntriesSay` | crates/wassh-plugins/src/connection_logger.rs:458-485 | Which status makes which entry, or none, with the event's time and message; the duration of what ends a session; and the start of the connection that is then known |
| `ConnectionLog.CapOnlyForgets` | crates/wassh-plugins/src/connection_logger.rs:458-492 | Under a constant cap the log is the newest entries of the log that was never capped, durations and current connection included |
| `ConnectionLog.MergeKeepsCoherence` | crates/wassh-plugins/src/connection_logger.rs:474-485 | Neighbouring entries never repeat each other, and each duration is the time since the entry before when that was Connected and this ends a session, else none |
| `ConnectionLog.MergeKeepsOrder` | crates/wassh-plugins/src/connection_logger.rs:458-492 | An event no older than the newest entry leaves a log in time order so |
| `ConnectionLog.ConnectionLogger.Merge` | crates/wassh-plugins/src/connection_logger.rs:458-492 | The new log and whether an entry was added |
| `ConnectionLog.ConnectionLogger.Load` | crates/wassh-plugins/src/connection_logger.rs:501-509 | The log read back, with the start of the current connection rebuilt |
| `ConnectionLog.ConnectionLogger.Clear` | crates/wassh-plugins/src/connection_logger.rs:495-498 | An empty log |
| `ConnectionLog.ConnectionLogger.Absorb` | crates/wassh-plugins/src/connection_logger.rs:512-518 | The new log after all events, and whether any was added |
| `ConnectionLog.ConnectionLogger.ShowFrame` | crates/wassh-plugins/src/connection_logger.rs:526-553 | The new log and what storage holds after one frame that offers any list of events, be it all of the session's so far |
| `ConnectionLog.FramesShow` | crates/wassh-plugins/src/connection_logger.rs:526-553 | A frame that clears leaves nothing shown or stored, one with the log switched off changes nothing, and any other shows, and if anything was added stores, the log with its events |
| `ConnectionLog.SettingsMean` | crates/wassh-plugins/src/connection_logger.rs:536-541 | A maximum of zero or none stands for 500 |
| `Uptime.HoursAddUp` | crates/wassh-plugins/src/connection_logger.rs:298-429 | For any log, in order or not, and any window, the connected time of the hour buckets adds up to the summary's |
| `Uptime.HoursTile` | crates/wassh-plugins/src/connection_logger.rs:397-429 | The hour buckets tile a proper window exactly, each within one hour of the clock |
| `Uptime.CardsShowTheLog` | crates/wassh-plugins/src/connection_logger.rs:298-377 | For any log with an entry, in order or not, connected and disconnected time are never less than the milliseconds of the window at which the last entry by then is Connected, or is not, and both are exactly that if and only if the log has no dip in the window: no three entries, in log order, of which the outer two come before the middle one does, within the window; the percentage is then that of the window and needs no clamp |
| `Uptime.HoursShowTheLog` | crates/wassh-plugins/src/connection_logger.rs:397-429 | ... and so for every hour bucket: its connected time is that of the log exactly when no stretch of connection is returned to in that hour, and then it is never up for longer than it lasts |
| `Uptime.SpansShowTheLogExactly` | crates/wassh-plugins/src/connection_logger.rs:298-377 | The stretches cover each moment at least as often as the log says, and in total exactly so when no moment is returned to |
| `Uptime.ReturnIsADip` | crates/wassh-plugins/src/connection_logger.rs:298-329 | Some moment of a window is returned to, connected or not, exactly when three entries dip there: the latest of the outer two times and the start is before the earlier of the middle time and the end |
| `Uptime.OrderHasNoDips` | crates/wassh-plugins/src/connection_logger.rs:298-377 | A log in time order has none |
| `Uptime.CardsAddUp` | crates/wassh-plugins/src/connection_logger.rs:298-377 | Connected and disconnected time together are the time since the later of the window's start and the first entry, plus every step back in time between neighbouring entries within the window; so they are just that time exactly when neighbouring times, cut to the window, never fall |
| `Uptime.CardsCount` | crates/wassh-plugins/src/connection_logger.rs:349-377 | The disconnects are the shown losses and failures, but not the retries; the average is the connected time over the shown connections, rounded down; the current duration is the time since the newest entry |
| `Uptime.EmptyLogShows` | crates/wassh-plugins/src/connection_logger.rs:298-312 | An empty log shows the whole window in the session's state, as one disconnect if it is not connected |
| `Uptime.HourCountsChanges` | crates/wassh-plugins/src/connection_logger.rs:397-429 | An hour's changes are the losses, failures and retries that show in it |
| `Uptime.DisorderCountsTwice` | crates/wassh-plugins/src/connection_logger.rs:298-377 | A family of logs out of order: up for twice the window |
| `Uptime.WindowsAreProper` | crates/wassh-plugins/src/connection_logger.rs:259-273 | Every window ends now and is proper unless the clock is at zero; the widest reaches every entry and never covers less than an hour |
| `Uptime.WindowsAre` | crates/wassh-plugins/src/connection_logger.rs:222-273 | Each window, as far as the clock goes back: an hour, six, a day, a week; or a minute more than the oldest entry takes, but no less than an hour |
| `Uptime.BuildSpans` | crates/wassh-plugins/src/connection_logger.rs:298-329 | The loop gives the stretches of the log that show in the window |
| `Uptime.Summarise` | crates/wassh-plugins/src/connection_logger.rs:349-377 | The loop sums the stretches up |
| `Uptime.HourlyBuckets` | crates/wassh-plugins/src/connection_logger.rs:397-429 | The nested loops give one bucket for each hour of the clock in the window |
| `DockLayout.RunsStaySound` | crates/wassh-core/src/layout.rs:351-513 | From an empty tab, after any docking, splitting, floating, removing and resizing, no plugin has two panes, every ratio is within 0.01 and 0.99, and no dock size is negative |
| `DockLayout.StepCounts` | crates/wassh-core/src/layout.rs:433-512 | How often any plugin is shown after each operation, told from the counts before |
| `DockLayout.RemoveTakesOut` | crates/wassh-core/src/layout.rs:433-443 | Removing a plugin takes it out of every dock and the floating pane and keeps all others in order |
| `DockLayout.RemoveKeepsOrder` | crates/wassh-core/src/layout.rs:242-265 | In one tree too, where splits that lose a side collapse |
| `DockLayout.DockPutsAtEnd` | crates/wassh-core/src/layout.rs:449-465 | Docking puts the plugin at the zone's end of the edge's list, leaves the other docks but for losing it, and grows the dock by a step exactly when another pane is there |
| `DockLayout.OuterDocks` | crates/wassh-core/src/layout.rs:449-463 | Without a zone a pane goes to the outer side of its edge: a row at the left and right, a column at the top and bottom, in halves |
| `DockLayout.DockWraps` | crates/wassh-core/src/layout.rs:449-463 | The dock after docking: the pane split from what stays there, or alone |
| `DockLayout.SplitLandsBeside` | crates/wassh-core/src/layout.rs:466-499 | In a layout without repeats, dropping a plugin onto another's pane puts it right beside that pane in the very dock, or the floating slot, that shows it; every dock without the target only loses the plugin, sizes stay, and if the other has no pane at all, the plugin is only taken away |
| `DockLayout.MissingTargetTakesAway` | crates/wassh-core/src/layout.rs:466-499 | A run: a plugin docked on an empty layout and dropped onto one that is not there is gone, and nothing is shown |
| `DockLayout.BesideOnce` | crates/wassh-core/src/layout.rs:268-298 | Right beside: before or after the target as the zone says, everything else in place |
| `DockLayout.DropsSplitThePane` | crates/wassh-core/src/layout.rs:268-298 | A drop onto a half splits that pane in halves, in a row at the left or right and a column at the top or bottom, the new pane where it was dropped |
| `DockLayout.SplitsAboveStay` | crates/wassh-core/src/layout.rs:268-298 | ... and the splits above keep their directions and ratios |
| `DockLayout.FloatReplaces` | crates/wassh-core/src/layout.rs:509-512 | Floating a plugin closes what was floating |
| `DockLayout.RemoveUndoesWrap` | crates/wassh-core/src/layout.rs:242-279 | Removing what was just docked gives the tree back |
| `DockLayout.RemoveUndoesSplit` | crates/wassh-core/src/layout.rs:242-298 | Removing what was just dropped onto a pane gives the tree back |
| `DockLayout.RatioChangesOne` | crates/wassh-core/src/layout.rs:301-327 | A ratio change leaves the shape and every ratio but the one at the path, where any index but 0 leads to the second child; a path past a leaf changes nothing |
| `DockLayout.ClampKeepsBothPanes` | crates/wassh-core/src/layout.rs:83-98 | With room for both panes each keeps its minimum and a request that leaves it is honoured; otherwise a request is cut to between one and ninety-nine hundredths; no number stands for a half |
| `DockLayout.Collect` | crates/wassh-core/src/layout.rs:225-239 | The panes of a tree are appended left to right |
| `DockLayout.TabPluginLayout.constructor` | crates/wassh-core/src/layout.rs:353-365 | An empty layout with the default sizes |
| `DockLayout.TabPluginLayout.PluginIds` | crates/wassh-core/src/layout.rs:409-421 | All panes in render order |
| `DockLayout.TabPluginLayout.RemovePlugin` | crates/wassh-core/src/layout.rs:433-443 | The new layout after a plugin was removed |
| `DockLayout.TabPluginLayout.DockOnEdge` | crates/wassh-core/src/layout.rs:449-465 | The new layout after a plugin was docked |
| `DockLayout.TabPluginLayout.SplitLeaf` | crates/wassh-core/src/layout.rs:466-499 | The new layout after a plugin was dropped onto a pane |
| `DockLayout.TabPluginLayout.SetSplitRatio` | crates/wassh-core/src/layout.rs:502-506 | The new layout after a ratio was dragged |
| `DockLayout.RatioSetsOne` | crates/wassh-core/src/layout.rs:502-506 | A ratio is set in the one dock and nothing else changes |
| `DockLayout.TabPluginLayout.MoveToOverlay` | crates/wassh-core/src/layout.rs:509-512 | The new layout after a plugin was floated |
| `DockLayout.TabPluginLayout.PutSize` | crates/wassh-core/src/layout.rs:398-406 | The new layout after a dock was resized, never below zero |
| `DockLayout.SizeChangesOne` | crates/wassh-core/src/layout.rs:398-406 | One dock is resized, never below zero, and nothing else changes |
| `HostsDocument.NormalizeSettlesExactly` | crates/wassh-core/src/hosts.rs:103-158 | Normalising twice is normalising once exactly when, in the document as it is read, no host that will be ungrouped is listed again with a grouped or the built-in host, and no other ungrouped one, in between |
| `HostsDocument.NormalizedIsConsistentExactly` | crates/wassh-core/src/hosts.rs:103-158 | The normalised document has unique ids, no dangling groups, the built-in host first and each ungrouped host listed once, exactly when, as it is read, the entries of every host that will be ungrouped stand together in the order; an order without repeats gives that and settles at once |
| `HostsDocument.NormalizedNames` | crates/wassh-core/src/hosts.rs:103-133 | Which hosts there will be and which will be ungrouped can be told from what is read: the ids read and the built-in one; those whose first entry names no group that is read |
| `HostsDocument.HostsAreKept` | crates/wassh-core/src/hosts.rs:103-132 | The hosts that stay are the first of each id that is one, in the order read, each put in shape, and the built-in one comes in front if it was not among them |
| `HostsDocument.GroupsAreKept` | crates/wassh-core/src/hosts.rs:110-112 | The groups that stay are the first of each id that is one, in the order read, as they are |
| `HostsDocument.OrderIsKept` | crates/wassh-core/src/hosts.rs:135-156 | A saved order without repeats is kept behind the built-in host, but for the hosts that do not stay in it, and the ungrouped ones it misses come last, in the order of the hosts |
| `HostsDocument.TwoPassesSettle` | crates/wassh-core/src/hosts.rs:103-158 | A third pass never changes anything |
| `HostsDocument.LocalBetween` | crates/wassh-core/src/hosts.rs:137-156 | The order host, local, host becomes local, host, host, and only a second pass shortens it |
| `HostsDocument.UpsertKeepsExactly` | crates/wassh-core/src/hosts.rs:185-203 | Adding or replacing a host keeps a consistent document so exactly when its group exists and the built-in host stays an ungrouped local terminal |
| `HostsDocument.UpsertedInPlace` | crates/wassh-core/src/hosts.rs:185-189 | The host with the id is replaced in its place, every other stays in its own, and a new one comes last |
| `HostsDocument.UpsertPlaces` | crates/wassh-core/src/hosts.rs:185-203 | A newly ungrouped host goes last in the order, one that joined a group leaves it, and everything else stays |
| `HostsDocument.JumpsAreCleared` | crates/wassh-core/src/hosts.rs:216-220 | A jump reference to the host is cleared, and nothing else of any host |
| `HostsDocument.RemoveKeeps` | crates/wassh-core/src/hosts.rs:209-222 | Removing keeps the document consistent and takes out just that host, its place in the order and every jump reference to it, the other hosts staying as they are and in their order; the built-in host and an unknown one are left alone |
| `HostsDocument.RemoveUndoesUpsert` | crates/wassh-core/src/hosts.rs:185-222 | Removing a host that was just added, and nothing refers to, gives the document back |
| `HostsDocument.RunsStayConsistent` | crates/wassh-core/src/hosts.rs:103-222 | A document is consistent from its reading on, through every run of upserts and removals, exactly when the entries of its order stand together as it is read and every host added was welcome |
| `HostsDocument.JumpsHoldInRuns` | crates/wassh-core/src/hosts.rs:103-222 | From the reading of a document on, through every run of upserts and removals, every jump reference names a host of the document exactly when those of the SSH hosts that are read did and every host added refers to one there by then |
| `HostsDocument.NormalizedJumpsExactly` | crates/wassh-core/src/hosts.rs:103-133 | Normalising keeps the jump reference of an SSH host, known or not: all are known afterwards exactly when they were as the document is read |
| `HostsDocument.UnknownJumpStays` | crates/wassh-core/src/hosts.rs:103-133 | A document of one host with such a reference |
| `HostsDocument.UpsertKeepsJumpsExactly` | crates/wassh-core/src/hosts.rs:185-203 | An upsert keeps all jump references known exactly when that of the host is |
| `HostsDocument.RemoveKeepsJumps` | crates/wassh-core/src/hosts.rs:209-222 | A removal keeps them so |
| `HostsDocument.ConnectionSettles` | crates/wassh-core/src/connection.rs:397-427 | Normalising a connection twice is normalising it once |
| `HostsDocument.NormalConnectionIs` | crates/wassh-core/src/connection.rs:397-427 | What is left of a connection field by field and kind by kind: a saved port stays, a missing one becomes the usual one of SSH or Telnet; a local terminal keeps nothing of an address or sign-in; only SSH keeps tunnels, X11, a remote session and a jump host |
| `HostsDocument.HostsFile.Normalize` | crates/wassh-core/src/hosts.rs:103-158 | The new document after normalising |
| `HostsDocument.HostsFile.NormalizeHosts` | crates/wassh-core/src/hosts.rs:116-133 | Every host put in shape in place |
| `HostsDocument.PlainTagsSplit` | crates/wassh-core/src/hosts.rs:130-130 | The tags that stay keep their order: those of two lists are those of the one, then those of the other |
| `HostsDocument.NormalHostIs` | crates/wassh-core/src/hosts.rs:116-133 | What is left of a host: its group if it exists, but none for the built-in one, its tags but for blank ones, and its connection put in shape |
| `HostsDocument.HostsFile.UpsertHost` | crates/wassh-core/src/hosts.rs:185-203 | The new document after an upsert |
| `HostsDocument.HostsFile.RemoveHost` | crates/wassh-core/src/hosts.rs:209-222 | The new document after a removal, and the host removed |
| `MacroPad.MacroList.NextId` | crates/wassh-plugins/src/macro_pad.rs:126-135 | The loop ends within one more try than there are macros, with the free name of the smallest number past the length |
| `MacroPad.NextIsNear` | crates/wassh-plugins/src/macro_pad.rs:126-135 | The first free number is at most twice the length plus one |
| `MacroPad.Pigeonhole` | crates/wassh-plugins/src/macro_pad.rs:126-135 | Names that are all taken cannot outnumber the macros |
| `MacroPad.NextGrows` | crates/wassh-plugins/src/macro_pad.rs:113-135 | Adding a macro under the next id grows the list and keeps ids unique |
| `MacroPad.NewGoesLast` | crates/wassh-plugins/src/macro_pad.rs:113-123 | A macro with a new id goes last, and dropping it gives the list back |
| `MacroPad.PlacedInPlace` | crates/wassh-plugins/src/macro_pad.rs:113-118 | Every macro keeps its place: the first with the id is replaced there, and only a new id goes behind the others |
| `MacroPad.PlacedKeeps` | crates/wassh-plugins/src/macro_pad.rs:113-118 | Adding or replacing keeps ids unique and touches no other macro |
| `MacroPad.DroppedKeeps` | crates/wassh-plugins/src/macro_pad.rs:121-123 | Dropping takes out exactly the macros with the id |
| `MacroPad.MacroList.Upsert` | crates/wassh-plugins/src/macro_pad.rs:113-118 | The new list after an upsert |
| `MacroPad.MacroList.Remove` | crates/wassh-plugins/src/macro_pad.rs:121-123 | The new list after a removal |
| `Decimals.DecimalIsInjective` | crates/wassh-plugins/src/macro_pad.rs:129-129 | Different numbers make different names |

## Left out

- The user interface: drawing, widgets, pointer and keyboard handling, dialogs, blinking and timing.
- Sockets, threads, channels, SSH, clocks and files: they appear as steps of a run or as arguments.
- Serialisation: a stored connection log or hosts document is what was stored.
- Rounding, infinities and NaN, except where the source tests for a finite number; sizes of docks are finite.
- Machine integers: counters, times and lengths are unbounded, except the packet id, the length fields and the ZIP fields, whose widths are modelled; the samples counted in a bucket, times near the end of 64 bits and day numbers near the end of 64 bits do not wrap around.
- MqttCodec: CONNECT is not modelled, and SUBSCRIBE and UNSUBSCRIBE are encoded but have no decoder in the source.
- MqttClient: the connection set-up is not modelled; a run starts with the broker connected.
- SampleHistory: how a point is taken from a snapshot is not modelled; a sample carries its four values.
- TopicPane: publishing the empty retained messages that clear a subtree on the broker, the connection status, payload formatting and the composer are not modelled.
- NameOrder: the standard library's sort is modelled as an insertion sort over the index array; both are stable, and only one order is possible.
- ZipDirectory: the ZIP64 extension is not read by the source; extraction and compression are not modelled.
- DockerPane: listing, statistics, logs, the run form and the sudo retry use keys of their own and are not modelled, nor is the wording of notices; an inspect's JSON is read by the parameter that builds the script.
- HostsDocument: private keys, serial settings, session styles, per-plugin settings and collapsed flags are not modelled.
- DockLayout: clamping a dock's drawn extent against the window and the placement names are not modelled.
- MacroPad: the text sent for a macro is not modelled.
- The time-zone reader, text scraping of system tools, human formatting, settings, palettes and back-off: little structure to prove.
