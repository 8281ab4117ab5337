/** The broker client's thread: commands out, a reassembled byte stream in. */
module MqttClient {
  import opened Bytes
  import opened MqttCodec
  import opened Options

  datatype Event =
    | Connected
    | Message(topic: string, payload: bytes, qos: byte, retain: bool)
    | Error(reason: string)
    | Closed

  datatype Command =
    | Subscribe(filter: bytes)
    | Unsubscribe(filter: bytes)
    | SendMessage(topic: bytes, payload: bytes, qos: byte, retain: bool)
    | Disconnect

  /** What leaves the thread: an event for the pane, or a packet handed to the socket. Whether the
      socket took the packet is known only where the thread looks at the answer. */
  datatype Effect = Tell(event: Event) | Write(packet: bytes)

  /** An effect, and whether a decoded packet or the thread's own business caused it. */
  datatype Act = Act(effect: Effect, fromBroker: bool)

  // ---------------------------------------------------------------- packets

  datatype Handled = Handled(effects: seq<Effect>, carryOn: bool)

  function RefusalReason(code: byte): string {
    match code
    case 1 => "unacceptable protocol version"
    case 2 => "client id rejected"
    case 3 => "server unavailable"
    case 4 => "bad username or password"
    case 5 => "not authorised"
    case _ => "unknown reason"
  }

  function Handle(packet: Packet): Handled {
    match packet
    case ConnAck(_, code) =>
      if code != 0
      then Handled([Tell(Error("broker refused the connection: " + RefusalReason(code)))], false)
      else Handled([Tell(Connected)], true)
    case Publish(topic, payload, qos, retain, packetId) =>
      Handled((if qos == 1 then [Write(PubAckPacket(packetId))] else [])
              + [Tell(Message(topic, payload, qos, retain))], true)
    case _ => Handled([], true)
  }

  /** What a stretch of the stream comes to: its effects, the bytes of an unfinished packet, and
      whether the connection survives it. */
  datatype Drained = Drained(effects: seq<Effect>, rest: bytes, open: bool)

  lemma DecodeTakes(text: Text, stream: bytes)
    ensures Decode(text, stream).Whole? ==> 2 <= Decode(text, stream).used <= |stream|
  {
    hide Decode;
    if Decode(text, stream).Whole? {
      DecodeIsSettled(text, stream, []);
    }
  }

  /** The whole stream, one packet after another. */
  function Drain(text: Text, stream: bytes): Drained
    decreases |stream|
  {
    DecodeTakes(text, stream);
    match Decode(text, stream)
    case NeedMore => Drained([], stream, true)
    case Bad(reason) => Drained([Tell(Error("bad packet: " + reason)), Tell(Closed)], [], false)
    case Whole(packet, used) =>
      var handled := Handle(packet);
      if handled.carryOn then After(handled.effects, Drain(text, stream[used..]))
      else Drained(handled.effects + [Tell(Closed)], [], false)
  }

  function After(effects: seq<Effect>, later: Drained): Drained {
    later.(effects := effects + later.effects)
  }

  /** One turn of the decode loop, with `done` already out. */
  lemma DrainOnce(text: Text, done: seq<Effect>, stream: bytes)
    ensures Decode(text, stream).Whole? ==> 2 <= Decode(text, stream).used <= |stream|
    ensures Decode(text, stream).NeedMore? ==>
      After(done, Drain(text, stream)) == Drained(done, stream, true)
    ensures Decode(text, stream).Bad? ==>
      var last := [Tell(Error("bad packet: " + Decode(text, stream).reason)), Tell(Closed)];
      After(done, Drain(text, stream)) == Drained(done + last, [], false)
    ensures Decode(text, stream).Whole? ==>
      var handled := Handle(Decode(text, stream).packet);
      After(done, Drain(text, stream)) ==
        if handled.carryOn
        then After(done + handled.effects, Drain(text, stream[Decode(text, stream).used..]))
        else Drained(done + handled.effects + [Tell(Closed)], [], false)
  {
    hide Decode, Handle;
    DecodeTakes(text, stream);
    if Decode(text, stream).Whole? {
      var packet, used := Decode(text, stream).packet, Decode(text, stream).used;
      AfterTwice(done, Handle(packet).effects, Drain(text, stream[used..]));
      assert done + (Handle(packet).effects + [Tell(Closed)]) == done + Handle(packet).effects + [Tell(Closed)];
    } else if Decode(text, stream).NeedMore? {
      assert done + [] == done;
    }
  }

  lemma AfterTwice(first: seq<Effect>, second: seq<Effect>, later: Drained)
    ensures After(first, After(second, later)) == After(first + second, later)
  {
    assert first + (second + later.effects) == first + second + later.effects;
  }

  lemma DrainUnfolds(text: Text, stream: bytes)
    ensures Decode(text, stream).NeedMore? ==> Drain(text, stream) == Drained([], stream, true)
    ensures Decode(text, stream).Bad? ==>
      var last := [Tell(Error("bad packet: " + Decode(text, stream).reason)), Tell(Closed)];
      Drain(text, stream) == Drained(last, [], false)
    ensures Decode(text, stream).Whole? ==> 2 <= Decode(text, stream).used <= |stream|
    ensures Decode(text, stream).Whole? ==>
      var handled := Handle(Decode(text, stream).packet);
      Drain(text, stream) == if handled.carryOn
                             then After(handled.effects, Drain(text, stream[Decode(text, stream).used..]))
                             else Drained(handled.effects + [Tell(Closed)], [], false)
  {
    hide Decode, Handle;
    DecodeTakes(text, stream);
  }

  /** A stream may be drained in two pieces, the unfinished packet being carried over. */
  lemma {:induction false} DrainSplits(text: Text, front: bytes, back: bytes)
    ensures Drain(text, front + back)
         == if Drain(text, front).open
            then After(Drain(text, front).effects, Drain(text, Drain(text, front).rest + back))
            else Drain(text, front)
    decreases |front|
  {
    hide Decode, Handle, Drain;
    DrainUnfolds(text, front);
    DrainUnfolds(text, front + back);
    if Decode(text, front) != NeedMore {
      DecodeIsSettled(text, front, back);
    }
    if Decode(text, front).Whole? {
      var used := Decode(text, front).used;
      DrainSplits(text, front[used..], back);
      assert (front + back)[used..] == front[used..] + back;
      var later := Drain(text, front[used..]);
      AfterTwice(Handle(Decode(text, front).packet).effects, later.effects, Drain(text, later.rest + back));
    }
  }

  // ---------------------------------------------------------------- the thread as a state machine

  datatype Thread = Thread(buffer: bytes, nextId: u16, acts: seq<Act>, open: bool)

  const START := Thread([], 1, [], true)

  /** One turn of the thread's loop: a queued command, a read, or the keep-alive timer. A write
      to the socket may fail, and so may a read. */
  datatype Step =
    | Issue(command: Command, failure: Option<string>)
    | HangUp
    | Receive(chunk: bytes)
    | ReadTimesOut
    | ReadFails(reason: string)
    | Ping(delivered: bool)

  /** The id after `id`: a wrapping increment that skips 0. */
  function NextId(id: u16): u16 {
    if id == 0xFFFF then 1 else id + 1
  }

  function Acts(effects: seq<Effect>, fromBroker: bool): seq<Act> {
    seq(|effects|, i requires 0 <= i < |effects| => Act(effects[i], fromBroker))
  }

  lemma ActsAppend(acts: seq<Act>, first: seq<Effect>, second: seq<Effect>, fromBroker: bool)
    ensures acts + Acts(first, fromBroker) + Acts(second, fromBroker)
         == acts + Acts(first + second, fromBroker)
    ensures acts + Acts([], fromBroker) == acts
  {
  }

  /** A turn the thread takes of its own accord: what it does, whether that uses up a packet id,
      and whether the thread ends with it. */
  datatype Turn = Turn(effects: seq<Effect>, takesId: bool, ends: bool)

  function IssueTurn(id: u16, command: Command, failure: Option<string>): Turn {
    match command
    case Subscribe(filter) =>
      Turn([Write(SubscribePacket(id, filter))]
           + (if failure.None? then [] else [Tell(Error("sending SUBSCRIBE failed")), Tell(Closed)]),
           true, failure.Some?)
    case Unsubscribe(filter) => Turn([Write(UnsubscribePacket(id, filter))], true, false)
    case SendMessage(topic, payload, qos, retain) =>
      Turn([Write(PublishPacket(topic, payload, qos, retain, id))]
           + (if failure.None? then [] else [Tell(Error("publishing: " + failure.value))]),
           qos > 0, false)
    case Disconnect => Turn([Write(DISCONNECT), Tell(Closed)], false, true)
  }

  function OwnTurn(id: u16, step: Step): Turn
    requires step.Receive? ==> step.chunk == []
  {
    match step
    case Issue(command, failure) => IssueTurn(id, command, failure)
    case HangUp => Turn([Write(DISCONNECT), Tell(Closed)], false, true)
    case Receive(_) => Turn([Tell(Closed)], false, true)
    case ReadTimesOut => Turn([], false, false)
    case ReadFails(reason) =>
      Turn([Tell(Error("reading from the broker: " + reason)), Tell(Closed)], false, true)
    case Ping(delivered) =>
      Turn([Write(PING_REQUEST)]
           + (if delivered then [] else [Tell(Error("keep-alive failed")), Tell(Closed)]),
           false, !delivered)
  }

  function TakeTurn(thread: Thread, turn: Turn): Thread {
    Thread(if turn.ends then [] else thread.buffer,
           if turn.takesId then NextId(thread.nextId) else thread.nextId,
           thread.acts + Acts(turn.effects, false),
           !turn.ends)
  }

  function Apply(text: Text, thread: Thread, step: Step): Thread {
    if !thread.open then thread
    else if step.Receive? && step.chunk != [] then
      var drained := Drain(text, thread.buffer + step.chunk);
      Thread(drained.rest, thread.nextId, thread.acts + Acts(drained.effects, true), drained.open)
    else TakeTurn(thread, OwnTurn(thread.nextId, step))
  }

  function Run(text: Text, thread: Thread, steps: seq<Step>): Thread {
    if steps == [] then thread
    else Apply(text, Run(text, thread, steps[..|steps| - 1]), steps[|steps| - 1])
  }

  // ---------------------------------------------------------------- reassembly

  /** The effects among `acts` that decoded packets caused, in order. */
  function BrokerEffects(acts: seq<Act>): seq<Effect> {
    if acts == [] then []
    else
      var last := acts[|acts| - 1];
      BrokerEffects(acts[..|acts| - 1]) + (if last.fromBroker then [last.effect] else [])
  }

  /** The bytes the thread read in a run before it ended. */
  function BytesRead(text: Text, thread: Thread, steps: seq<Step>): bytes {
    if steps == [] then []
    else
      var before := steps[..|steps| - 1];
      var last := steps[|steps| - 1];
      BytesRead(text, thread, before)
      + (if Run(text, thread, before).open && last.Receive? then last.chunk else [])
  }

  lemma BrokerEffectsSnoc(acts: seq<Act>, act: Act)
    ensures BrokerEffects(acts + [act]) == BrokerEffects(acts) + (if act.fromBroker then [act.effect] else [])
  {
    assert (acts + [act])[..|acts|] == acts;
  }

  lemma {:induction false} BrokerEffectsAppend(acts: seq<Act>, effects: seq<Effect>, fromBroker: bool)
    ensures BrokerEffects(acts + Acts(effects, fromBroker))
         == BrokerEffects(acts) + (if fromBroker then effects else [])
    decreases |effects|
  {
    hide BrokerEffects;
    if effects == [] {
      assert acts + Acts(effects, fromBroker) == acts;
    } else {
      var front, last := effects[..|effects| - 1], effects[|effects| - 1];
      BrokerEffectsAppend(acts, front, fromBroker);
      BrokerEffectsSnoc(acts + Acts(front, fromBroker), Act(last, fromBroker));
      assert acts + Acts(effects, fromBroker) == acts + Acts(front, fromBroker) + [Act(last, fromBroker)];
      assert effects == front + [last];
    }
  }

  /** However commands, pings, timeouts and reads interleave, and however the stream was cut into
      reads, the packets' effects and the bytes kept are those of draining the stream in one go. */
  lemma {:induction false} ReassemblyIgnoresInterleaving(text: Text, steps: seq<Step>)
    ensures var run := Run(text, START, steps);
      && var whole := Drain(text, BytesRead(text, START, steps));
      && BrokerEffects(run.acts) == whole.effects
      && (run.open ==> whole.open && run.buffer == whole.rest)
    decreases |steps|
  {
    hide Decode;
    if steps == [] {
      NothingToDrain(text);
    } else {
      var before, last := steps[..|steps| - 1], steps[|steps| - 1];
      ReassemblyIgnoresInterleaving(text, before);
      var thread, read := Run(text, START, before), BytesRead(text, START, before);
      assert read + [] == read;
      if thread.open {
        StepEffects(text, thread, last);
        if last.Receive? {
          DrainSplits(text, read, last.chunk);
        }
      }
    }
  }

  lemma NothingToDrain(text: Text)
    ensures Drain(text, []) == Drained([], [], true)
  {
  }

  /** What one step adds to the packets' effects. */
  lemma StepEffects(text: Text, thread: Thread, step: Step)
    requires thread.open
    ensures var next := Apply(text, thread, step);
      if step.Receive? && step.chunk != [] then
        var drained := Drain(text, thread.buffer + step.chunk);
        && BrokerEffects(next.acts) == BrokerEffects(thread.acts) + drained.effects
        && next.open == drained.open && next.buffer == drained.rest
      else
        && BrokerEffects(next.acts) == BrokerEffects(thread.acts)
        && (next.open ==> next.buffer == thread.buffer)
  {
    hide Drain, BrokerEffects, OwnTurn, Acts;
    if step.Receive? && step.chunk != [] {
      BrokerEffectsAppend(thread.acts, Drain(text, thread.buffer + step.chunk).effects, true);
    } else {
      BrokerEffectsAppend(thread.acts, OwnTurn(thread.nextId, step).effects, false);
    }
  }

  // ---------------------------------------------------------------- a stream that never decodes

  lemma {:induction false} DrainShrinks(text: Text, stream: bytes)
    ensures |Drain(text, stream).rest| <= |stream|
    ensures Drain(text, stream) == Drained([], stream, true) <==> Decode(text, stream) == NeedMore
    decreases |stream|
  {
    hide Decode, Handle, Drain;
    DrainUnfolds(text, stream);
    if Decode(text, stream).Whole? {
      DrainShrinks(text, stream[Decode(text, stream).used..]);
    }
  }

  ghost predicate NothingDrains(text: Text, stream: bytes) {
    forall more :: Drain(text, stream + more) == Drained([], stream + more, true)
  }

  /** A stream stays open and silent, whatever follows it, exactly when it is stuck at its front. */
  lemma NothingDrainsExactly(text: Text, stream: bytes)
    ensures NothingDrains(text, stream) <==> IsStuck(stream)
  {
    hide Decode, Drain, IsStuck;
    if IsStuck(stream) {
      forall more
        ensures Drain(text, stream + more) == Drained([], stream + more, true)
      {
        StuckNeedsMore(text, stream, more);
        DrainShrinks(text, stream + more);
      }
    } else {
      var more := CanDecode(text, stream);
      DrainShrinks(text, stream + more);
    }
  }

  /** Nothing the broker sends has any effect any more, and all of it is kept. */
  ghost predicate StaysSilent(text: Text, thread: Thread) {
    forall steps ::
      var run := Run(text, thread, steps);
      && BrokerEffects(run.acts) == BrokerEffects(thread.acts)
      && (run.open ==> run.buffer == thread.buffer + BytesRead(text, thread, steps))
  }

  lemma {:induction false} StuckRuns(text: Text, thread: Thread, steps: seq<Step>)
    requires thread.open && IsStuck(thread.buffer)
    ensures var run := Run(text, thread, steps);
      && BrokerEffects(run.acts) == BrokerEffects(thread.acts)
      && (run.open ==> run.buffer == thread.buffer + BytesRead(text, thread, steps))
    decreases |steps|
  {
    hide Decode, Drain, BrokerEffects, Apply, IsStuck;
    if steps == [] {
      assert thread.buffer + [] == thread.buffer;
    } else {
      var before, last := steps[..|steps| - 1], steps[|steps| - 1];
      StuckRuns(text, thread, before);
      var run, read := Run(text, thread, before), BytesRead(text, thread, before);
      if run.open {
        StepEffects(text, run, last);
        assert read + [] == read;
        if last.Receive? {
          StuckNeedsMore(text, thread.buffer, read + last.chunk);
          assert thread.buffer + (read + last.chunk) == run.buffer + last.chunk;
          DrainShrinks(text, run.buffer + last.chunk);
        }
      } else {
        ClosedStays(text, run, last);
      }
    }
  }

  lemma ClosedStays(text: Text, thread: Thread, step: Step)
    requires !thread.open
    ensures Apply(text, thread, step) == thread
  {
  }

  lemma DecodedIsNoticed(text: Text, thread: Thread, chunk: bytes)
    requires thread.open && chunk != [] && Decode(text, thread.buffer + chunk) != NeedMore
    ensures !StaysSilent(text, thread)
  {
    hide Decode, Drain, BrokerEffects, Apply;
    var step := Receive(chunk);
    var steps := [step];
    assert steps[..0] == [];
    assert Run(text, thread, []) == thread && BytesRead(text, thread, []) == [];
    assert Run(text, thread, steps) == Apply(text, thread, step);
    assert BytesRead(text, thread, steps) == [] + chunk == chunk;
    StepEffects(text, thread, step);
    DrainShrinks(text, thread.buffer + chunk);
    var drained := Drain(text, thread.buffer + chunk);
    if drained.effects == [] {
      EffectlessStaysOpen(text, thread.buffer + chunk);
    }
  }

  lemma {:induction false} EffectlessStaysOpen(text: Text, stream: bytes)
    requires Drain(text, stream).effects == []
    ensures Drain(text, stream).open
    decreases |stream|
  {
    hide Decode, Handle, Drain;
    DrainUnfolds(text, stream);
    if Decode(text, stream).Whole? && Handle(Decode(text, stream).packet).carryOn {
      EffectlessStaysOpen(text, stream[Decode(text, stream).used..]);
    }
  }

  /** A connected client falls silent for good, keeping all it is sent, exactly when four continuation
      bytes follow the first byte it holds. */
  lemma StaysSilentExactly(text: Text, thread: Thread)
    requires thread.open
    ensures StaysSilent(text, thread) <==> IsStuck(thread.buffer)
  {
    hide Decode, Run, BytesRead, BrokerEffects, IsStuck;
    if IsStuck(thread.buffer) {
      forall steps
        ensures var run := Run(text, thread, steps);
          && BrokerEffects(run.acts) == BrokerEffects(thread.acts)
          && (run.open ==> run.buffer == thread.buffer + BytesRead(text, thread, steps))
      {
        StuckRuns(text, thread, steps);
      }
    } else {
      var more := CanDecode(text, thread.buffer);
      DecodedIsNoticed(text, thread, more);
    }
  }

  function Flatten(chunks: seq<bytes>): bytes {
    if chunks == [] then [] else Flatten(chunks[..|chunks| - 1]) + chunks[|chunks| - 1]
  }

  function Receives(chunks: seq<bytes>): seq<Step> {
    seq(|chunks|, i requires 0 <= i < |chunks| => Receive(chunks[i]))
  }

  /** Reading a stream in pieces leaves the thread exactly as reading it whole. */
  lemma {:induction false} ChunkingDoesNotMatter(text: Text, thread: Thread, chunks: seq<bytes>)
    requires chunks != [] && forall i :: 0 <= i < |chunks| ==> chunks[i] != []
    ensures Run(text, thread, Receives(chunks)) == Apply(text, thread, Receive(Flatten(chunks)))
    decreases |chunks|
  {
    hide Drain;
    var last := |chunks| - 1;
    var front := chunks[..last];
    assert Receives(chunks)[..last] == Receives(front);
    if front == [] {
      assert Flatten(chunks) == chunks[last];
      assert Run(text, thread, []) == thread;
    } else {
      ChunkingDoesNotMatter(text, thread, front);
      var read := thread.buffer + Flatten(front);
      assert read + chunks[last] == thread.buffer + Flatten(chunks);
      DrainSplits(text, read, chunks[last]);
      var first, later := Drain(text, read), Drain(text, Drain(text, read).rest + chunks[last]);
      ActsAppend(thread.acts, first.effects, later.effects, true);
    }
  }

  // ---------------------------------------------------------------- what a packet causes

  /** A message is told, and acknowledged first exactly when its QoS is 1. */
  lemma PublishCauses(text: Text, stream: bytes, topic: string, payload: bytes, qos: byte, retain: bool,
                      packetId: u16, used: nat)
    requires Decode(text, stream) == Whole(Publish(topic, payload, qos, retain, packetId), used)
    ensures used <= |stream|
    ensures var acks: seq<Effect> := if qos == 1 then [Write([0x40, 2, packetId / 256, packetId % 256])] else [];
      Drain(text, stream)
        == After(acks + [Tell(Message(topic, payload, qos, retain))], Drain(text, stream[used..]))
  {
    hide Decode, PubAckPacket;
    DrainUnfolds(text, stream);
    PubAckBytes(packetId);
  }

  /** So for any message as it was published, and whatever follows it. */
  lemma PublishedIsAcknowledged(text: Text, topic: bytes, payload: bytes, qos: byte, retain: bool, packetId: u16,
                                rest: bytes)
    requires qos < 3 && |PublishBody(topic, payload, qos, packetId)| < LENGTH_LIMIT
    ensures var acks: seq<Effect> := if qos == 1 then [Write([0x40, 2, packetId / 256, packetId % 256])] else [];
      Drain(text, PublishPacket(topic, payload, qos, retain, packetId) + rest)
        == After(acks + [Tell(Message(text(Cut(topic)), payload, qos, retain))], Drain(text, rest))
  {
    hide Decode, Drain, PublishPacket, PublishBody;
    var packet := PublishPacket(topic, payload, qos, retain, packetId);
    PublishDecodes(text, topic, payload, qos, retain, packetId, rest);
    PublishCauses(text, packet + rest, text(Cut(topic)), payload, qos, retain,
                  if qos > 0 then packetId else 0, |packet|);
    assert (packet + rest)[|packet|..] == rest;
  }

  /** A CONNACK of code 0 tells that the client is connected; any other ends the connection with the
      reason for its code (section 3.2.2.3 of MQTT 3.1.1). */
  lemma ConnAckCauses(text: Text, stream: bytes, sessionPresent: bool, code: byte, used: nat)
    requires Decode(text, stream) == Whole(ConnAck(sessionPresent, code), used)
    ensures used <= |stream|
    ensures code == 0 ==> Drain(text, stream) == After([Tell(Connected)], Drain(text, stream[used..]))
    ensures code > 0 ==> exists reason ::
      && Drain(text, stream)
         == Drained([Tell(Error("broker refused the connection: " + reason)), Tell(Closed)], [], false)
      && (code == 1 ==> reason == "unacceptable protocol version")
      && (code == 2 ==> reason == "client id rejected")
      && (code == 3 ==> reason == "server unavailable")
      && (code == 4 ==> reason == "bad username or password")
      && (code == 5 ==> reason == "not authorised")
      && (code > 5 ==> reason == "unknown reason")
  {
    hide Decode;
    DrainUnfolds(text, stream);
    if code > 0 {
      var reason := RefusalReason(code);
      assert [Tell(Error("broker refused the connection: " + reason))] + [Tell(Closed)]
          == [Tell(Error("broker refused the connection: " + reason)), Tell(Closed)];
    }
  }

  /** Nothing else that decodes has any effect. */
  lemma OthersCauseNothing(text: Text, stream: bytes)
    requires Decode(text, stream).Whole?
    requires !Decode(text, stream).packet.Publish? && !Decode(text, stream).packet.ConnAck?
    ensures Decode(text, stream).used <= |stream|
    ensures Drain(text, stream) == Drain(text, stream[Decode(text, stream).used..])
  {
    hide Decode;
    DrainUnfolds(text, stream);
    var later := Drain(text, stream[Decode(text, stream).used..]);
    assert [] + later.effects == later.effects;
  }

  /** What does not decode ends the connection with the reason. */
  lemma BadPacketEnds(text: Text, stream: bytes, reason: string)
    requires Decode(text, stream) == Bad(reason)
    ensures Drain(text, stream) == Drained([Tell(Error("bad packet: " + reason)), Tell(Closed)], [], false)
  {
    hide Decode;
    DrainUnfolds(text, stream);
  }

  /** The packets of a stream, up to a refused connection. */
  function PacketsIn(text: Text, stream: bytes): seq<Packet>
    decreases |stream|
  {
    DecodeTakes(text, stream);
    match Decode(text, stream)
    case Whole(packet, used) =>
      [packet] + if packet.ConnAck? && packet.code != 0 then [] else PacketsIn(text, stream[used..])
    case _ => []
  }

  /** The ids of the QoS 1 messages. */
  function AckIds(packets: seq<Packet>): seq<u16> {
    if packets == [] then []
    else (if packets[0].Publish? && packets[0].qos == 1 then [packets[0].packetId] else []) + AckIds(packets[1..])
  }

  function AckPackets(ids: seq<u16>): seq<bytes> {
    seq(|ids|, i requires 0 <= i < |ids| => [0x40, 2, ids[i] / 256, ids[i] % 256])
  }

  /** The messages, as they are told. */
  function MessagesIn(packets: seq<Packet>): seq<Event> {
    if packets == [] then []
    else
      (match packets[0]
       case Publish(topic, payload, qos, retain, _) => [Message(topic, payload, qos, retain)]
       case _ => [])
      + MessagesIn(packets[1..])
  }

  function Writes(effects: seq<Effect>): seq<bytes> {
    if effects == [] then [] else Written(effects[0]) + Writes(effects[1..])
  }

  function Written(effect: Effect): seq<bytes> {
    if effect.Write? then [effect.packet] else []
  }

  function Messages(effects: seq<Effect>): seq<Event> {
    if effects == [] then [] else MessageOf(effects[0]) + Messages(effects[1..])
  }

  function MessageOf(effect: Effect): seq<Event> {
    if effect.Tell? && effect.event.Message? then [effect.event] else []
  }

  lemma OneMore(effect: Effect, later: seq<Effect>)
    ensures Writes([effect] + later) == Written(effect) + Writes(later)
    ensures Messages([effect] + later) == MessageOf(effect) + Messages(later)
  {
    hide Written, MessageOf;
    assert ([effect] + later)[1..] == later;
  }

  /** The effects write an acknowledgement for each QoS 1 message of the packets, and tell each message. */
  predicate Acknowledge(effects: seq<Effect>, packets: seq<Packet>) {
    Writes(effects) == AckPackets(AckIds(packets)) && Messages(effects) == MessagesIn(packets)
  }

  lemma NothingAcknowledges()
    ensures Acknowledge([], [])
  {
  }

  /** What writes nothing and tells no message may stand in front, before any other packet. */
  lemma SilentInFront(effect: Effect, later: seq<Effect>, packets: seq<Packet>)
    requires Acknowledge(later, packets) && Written(effect) == [] && MessageOf(effect) == []
    ensures Acknowledge([effect] + later, packets)
  {
    OneMore(effect, later);
    hide Writes, Messages, AckPackets, AckIds, MessagesIn;
    assert [] + Writes(later) == Writes(later) && [] + Messages(later) == Messages(later);
  }

  lemma OtherInFront(effects: seq<Effect>, packet: Packet, packets: seq<Packet>)
    requires Acknowledge(effects, packets) && !packet.Publish?
    ensures Acknowledge(effects, [packet] + packets)
  {
    hide Writes, Messages, AckPackets;
    assert ([packet] + packets)[1..] == packets;
    assert [] + AckIds(packets) == AckIds(packets) && [] + MessagesIn(packets) == MessagesIn(packets);
  }

  lemma PublishInFront(packet: Packet, packets: seq<Packet>, later: seq<Effect>)
    requires Acknowledge(later, packets) && packet.Publish?
    ensures var ack: bytes := [0x40, 2, packet.packetId / 256, packet.packetId % 256];
      var message := Message(packet.topic, packet.payload, packet.qos, packet.retain);
      Acknowledge((if packet.qos == 1 then [Write(ack)] else []) + [Tell(message)] + later, [packet] + packets)
  {
    hide Writes, Messages, AckPackets, AckIds, MessagesIn;
    var ack: bytes := [0x40, 2, packet.packetId / 256, packet.packetId % 256];
    var message := Message(packet.topic, packet.payload, packet.qos, packet.retain);
    PublishProjects(packet, packets);
    if packet.qos == 1 {
      AckThenMessage(ack, message, later);
    } else {
      OneMore(Tell(message), later);
      assert [] + [Tell(message)] + later == [Tell(message)] + later;
      assert [] + Writes(later) == Writes(later) && [] + AckPackets(AckIds(packets)) == AckPackets(AckIds(packets));
    }
  }

  lemma AckThenMessage(ack: bytes, message: Event, later: seq<Effect>)
    requires message.Message?
    ensures Writes([Write(ack)] + [Tell(message)] + later) == [ack] + Writes(later)
    ensures Messages([Write(ack)] + [Tell(message)] + later) == [message] + Messages(later)
  {
    hide Writes, Messages;
    OneMore(Tell(message), later);
    OneMore(Write(ack), [Tell(message)] + later);
    assert [Write(ack)] + ([Tell(message)] + later) == [Write(ack)] + [Tell(message)] + later;
    assert [] + Writes(later) == Writes(later) && [] + ([message] + Messages(later)) == [message] + Messages(later);
  }

  lemma PublishProjects(packet: Packet, packets: seq<Packet>)
    requires packet.Publish?
    ensures AckPackets(AckIds([packet] + packets))
         == (if packet.qos == 1 then [[0x40, 2, packet.packetId / 256, packet.packetId % 256]] else [])
            + AckPackets(AckIds(packets))
    ensures MessagesIn([packet] + packets)
         == [Message(packet.topic, packet.payload, packet.qos, packet.retain)] + MessagesIn(packets)
  {
    assert ([packet] + packets)[1..] == packets;
    assert [] + AckIds(packets) == AckIds(packets);
  }

  /** What a stream writes and tells: an acknowledgement for each of its QoS 1 messages, under its id, and
      each of its messages, in order. */
  lemma {:induction false} DrainAcknowledges(text: Text, stream: bytes)
    ensures Acknowledge(Drain(text, stream).effects, PacketsIn(text, stream))
    decreases |stream|
  {
    hide Decode, Drain, Handle, Acknowledge;
    DecodeTakes(text, stream);
    NothingAcknowledges();
    match Decode(text, stream) {
      case NeedMore => DrainUnfolds(text, stream);
      case Bad(reason) =>
        BadPacketEnds(text, stream, reason);
        EndAcknowledges(Error("bad packet: " + reason), []);
      case Whole(packet, used) =>
        DrainAcknowledges(text, stream[used..]);
        FirstAcknowledges(text, stream);
    }
  }

  lemma EndAcknowledges(event: Event, packets: seq<Packet>)
    requires !event.Message? && Acknowledge([], packets)
    ensures Acknowledge([Tell(event), Tell(Closed)], packets)
  {
    hide Acknowledge;
    SilentInFront(Tell(Closed), [], packets);
    assert [Tell(Closed)] + [] == [Tell(Closed)] && [Tell(event)] + [Tell(Closed)] == [Tell(event), Tell(Closed)];
    SilentInFront(Tell(event), [Tell(Closed)], packets);
  }

  lemma FirstAcknowledges(text: Text, stream: bytes)
    requires Decode(text, stream).Whole?
    requires 2 <= Decode(text, stream).used <= |stream|
    requires var rest := stream[Decode(text, stream).used..];
      Acknowledge(Drain(text, rest).effects, PacketsIn(text, rest))
    ensures Acknowledge(Drain(text, stream).effects, PacketsIn(text, stream))
  {
    PacketsUnfold(text, stream);
    hide Decode, Drain, Handle, Acknowledge, PacketsIn;
    var packet, rest := Decode(text, stream).packet, stream[Decode(text, stream).used..];
    var packets, later := PacketsIn(text, rest), Drain(text, rest).effects;
    match packet {
      case Publish(topic, payload, qos, retain, id) =>
        PublishCauses(text, stream, topic, payload, qos, retain, id, Decode(text, stream).used);
        PublishInFront(packet, packets, later);
      case ConnAck(sessionPresent, code) =>
        ConnAckCauses(text, stream, sessionPresent, code, Decode(text, stream).used);
        if code == 0 {
          SilentInFront(Tell(Connected), later, packets);
          OtherInFront([Tell(Connected)] + later, packet, packets);
        } else {
          var reason :| Drain(text, stream)
            == Drained([Tell(Error("broker refused the connection: " + reason)), Tell(Closed)], [], false);
          NothingAcknowledges();
          OtherInFront([], packet, []);
          assert [packet] + [] == [packet];
          EndAcknowledges(Error("broker refused the connection: " + reason), [packet]);
        }
      case _ =>
        OthersCauseNothing(text, stream);
        OtherInFront(later, packet, packets);
    }
  }

  lemma PacketsUnfold(text: Text, stream: bytes)
    requires Decode(text, stream).Whole?
    ensures Decode(text, stream).used <= |stream|
    ensures var packet, rest := Decode(text, stream).packet, stream[Decode(text, stream).used..];
      PacketsIn(text, stream)
        == if packet.ConnAck? && packet.code != 0 then [packet] else [packet] + PacketsIn(text, rest)
  {
    hide Decode;
    DecodeTakes(text, stream);
    var packet := Decode(text, stream).packet;
    assert [packet] + [] == [packet];
  }

  /** In every run, what was written and told on the broker's behalf is that of all it sent. */
  lemma RunAcknowledges(text: Text, steps: seq<Step>)
    ensures var effects := BrokerEffects(Run(text, START, steps).acts);
      var packets := PacketsIn(text, BytesRead(text, START, steps));
      Writes(effects) == AckPackets(AckIds(packets)) && Messages(effects) == MessagesIn(packets)
  {
    hide Writes, Messages, AckIds, AckPackets, MessagesIn, Drain, Run, BytesRead, BrokerEffects, PacketsIn;
    ReassemblyIgnoresInterleaving(text, steps);
    DrainAcknowledges(text, BytesRead(text, START, steps));
  }

  // ---------------------------------------------------------------- what the client does of its own accord

  /** The packet of a request goes out under the next id, which it uses up unless it is a QoS 0 message;
      a failure is told, and ends the client only for a SUBSCRIBE. */
  lemma RequestsAre(id: u16, command: Command, failure: Option<string>)
    ensures var turn := IssueTurn(id, command, failure);
      && turn.effects != [] && turn.effects[0].Write?
      && (turn.takesId <==> command.Subscribe? || command.Unsubscribe? || (command.SendMessage? && command.qos > 0))
      && (turn.ends <==> command.Disconnect? || (command.Subscribe? && failure.Some?))
      && turn.effects[1..] ==
           match command
           case Subscribe(_) => (if failure.Some? then [Tell(Error("sending SUBSCRIBE failed")), Tell(Closed)] else [])
           case Unsubscribe(_) => []
           case SendMessage(_, _, _, _) =>
             (if failure.Some? then [Tell(Error("publishing: " + failure.value))] else [])
           case Disconnect => [Tell(Closed)]
  {
  }

  /** What a broker reads in the packet of a subscription. */
  lemma SubscriptionIsRead(text: Text, id: u16, filter: bytes, failure: Option<string>)
    ensures var packet := IssueTurn(id, Command.Subscribe(filter), failure).effects[0].packet;
      packet[0] == 0x82
      && exists start :: PacketEnd(packet) == Some((start, |packet|)) && start + 2 <= |packet|
           && ReadU16(packet[start..]) == id
           && ReadString(text, packet[start + 2..]) == Read(text(Cut(filter)), [0])
    ensures var packet := IssueTurn(id, Command.Unsubscribe(filter), failure).effects[0].packet;
      packet[0] == 0xA2
      && exists start :: PacketEnd(packet) == Some((start, |packet|)) && start + 2 <= |packet|
           && ReadU16(packet[start..]) == id
           && ReadString(text, packet[start + 2..]) == Read(text(Cut(filter)), [])
  {
    SubscribeReadsBack(text, id, filter);
    UnsubscribeReadsBack(text, id, filter);
    hide SubscribePacket, UnsubscribePacket, PacketEnd, ReadU16, ReadString;
  }

  /** What it reads in the packet of a message. */
  lemma MessageIsRead(text: Text, id: u16, topic: bytes, payload: bytes, qos: byte, retain: bool,
                      failure: Option<string>)
    requires qos < 4 && |PublishBody(topic, payload, qos, id)| < LENGTH_LIMIT
    ensures var packet := IssueTurn(id, SendMessage(topic, payload, qos, retain), failure).effects[0].packet;
      Decode(text, packet)
        == Whole(Publish(text(Cut(topic)), payload, qos, retain, if qos > 0 then id else 0), |packet|)
  {
    PublishDecodes(text, topic, payload, qos, retain, id, []);
    hide Decode, PublishPacket, PublishBody;
    var packet := PublishPacket(topic, payload, qos, retain, id);
    assert packet + [] == packet;
  }

  /** When a connected client ends, and what it tells of it. */
  lemma ClientEndsExactly(text: Text, thread: Thread, step: Step)
    requires thread.open
    ensures !Apply(text, thread, step).open <==>
      || step.HangUp? || step.ReadFails? || (step.Ping? && !step.delivered)
      || (step.Issue? && (step.command.Disconnect? || (step.command.Subscribe? && step.failure.Some?)))
      || (step.Receive? && (step.chunk == [] || !Drain(text, thread.buffer + step.chunk).open))
    ensures step.HangUp? ==>
      Apply(text, thread, step).acts == thread.acts + Acts([Write([0xE0, 0]), Tell(Closed)], false)
    ensures step.Receive? && step.chunk == [] ==>
      Apply(text, thread, step).acts == thread.acts + Acts([Tell(Closed)], false)
    ensures step.ReadTimesOut? ==> Apply(text, thread, step).acts == thread.acts
    ensures step.ReadFails? ==>
      Apply(text, thread, step).acts
        == thread.acts + Acts([Tell(Error("reading from the broker: " + step.reason)), Tell(Closed)], false)
    ensures step.Ping? ==>
      Apply(text, thread, step).acts
        == thread.acts + Acts([Write([0xC0, 0])] + (if step.delivered then []
                              else [Tell(Error("keep-alive failed")), Tell(Closed)]), false)
  {
    hide Drain, Acts;
    if step.Issue? {
      RequestsAre(thread.nextId, step.command, step.failure);
    }
    ActsAppend(thread.acts, [], [], false);
  }

  // ---------------------------------------------------------------- the end is told once, and last

  /** `Closed` stands at the end of an ended run's effects and nowhere else. */
  predicate EndsClosed(effects: seq<Effect>, open: bool) {
    && (forall i :: 0 <= i < |effects| && effects[i] == Tell(Closed) ==> !open && i == |effects| - 1)
    && (!open ==> effects != [] && effects[|effects| - 1] == Tell(Closed))
  }

  lemma EndsClosedBehind(effects: seq<Effect>, more: seq<Effect>, open: bool)
    requires EndsClosed(effects, true) && EndsClosed(more, open)
    ensures EndsClosed(effects + more, open)
  {
  }

  lemma {:induction false} DrainEndsClosed(text: Text, stream: bytes)
    ensures EndsClosed(Drain(text, stream).effects, Drain(text, stream).open)
    decreases |stream|
  {
    hide Decode, Drain;
    DrainUnfolds(text, stream);
    if Decode(text, stream).Whole? {
      var handled := Handle(Decode(text, stream).packet);
      assert EndsClosed(handled.effects, true) && EndsClosed([Tell(Closed)], false);
      if handled.carryOn {
        DrainEndsClosed(text, stream[Decode(text, stream).used..]);
        var later := Drain(text, stream[Decode(text, stream).used..]);
        hide Handle;
        EndsClosedBehind(handled.effects, later.effects, later.open);
      } else {
        hide Handle;
        EndsClosedBehind(handled.effects, [Tell(Closed)], false);
      }
    }
  }

  lemma TurnEndsClosed(id: u16, step: Step)
    requires step.Receive? ==> step.chunk == []
    ensures EndsClosed(OwnTurn(id, step).effects, !OwnTurn(id, step).ends)
  {
    hide SubscribePacket, UnsubscribePacket, PublishPacket;
  }

  function EffectsOf(acts: seq<Act>): seq<Effect> {
    seq(|acts|, i requires 0 <= i < |acts| => acts[i].effect)
  }

  lemma EffectsOfActs(acts: seq<Act>, effects: seq<Effect>, fromBroker: bool)
    ensures EffectsOf(acts + Acts(effects, fromBroker)) == EffectsOf(acts) + effects
  {
  }

  /** In every run the pane is told of the end once, as the last thing, and exactly when the client ended. */
  lemma {:induction false} ClosedIsToldOnce(text: Text, steps: seq<Step>)
    ensures var run := Run(text, START, steps); EndsClosed(EffectsOf(run.acts), run.open)
    decreases |steps|
  {
    hide Drain, OwnTurn, Acts, EndsClosed, EffectsOf;
    if steps == [] {
      NothingEndsClosed();
    } else {
      var before, step := steps[..|steps| - 1], steps[|steps| - 1];
      ClosedIsToldOnce(text, before);
      var thread := Run(text, START, before);
      if thread.open {
        if step.Receive? && step.chunk != [] {
          var drained := Drain(text, thread.buffer + step.chunk);
          DrainEndsClosed(text, thread.buffer + step.chunk);
          EffectsOfActs(thread.acts, drained.effects, true);
          EndsClosedBehind(EffectsOf(thread.acts), drained.effects, drained.open);
        } else {
          var turn := OwnTurn(thread.nextId, step);
          TurnEndsClosed(thread.nextId, step);
          EffectsOfActs(thread.acts, turn.effects, false);
          EndsClosedBehind(EffectsOf(thread.acts), turn.effects, !turn.ends);
        }
      }
    }
  }

  lemma NothingEndsClosed()
    ensures EndsClosed(EffectsOf(START.acts), true) && START.open
  {
  }

  // ---------------------------------------------------------------- packet ids

  /** The id handed out after `count` others. */
  function IdAfter(count: nat): u16 {
    if count == 0 then START.nextId else NextId(IdAfter(count - 1))
  }

  lemma {:induction false} IdCycle(count: nat)
    ensures IdAfter(count) == 1 + count % 0xFFFF
  {
    if count > 0 {
      IdCycle(count - 1);
    }
  }

  /** No id is 0, and one comes back only after all the others. */
  lemma IdsAreFresh(i: nat, j: nat)
    requires i < j
    ensures IdAfter(i) != 0
    ensures j < i + 0xFFFF ==> IdAfter(i) != IdAfter(j)
  {
    IdCycle(i);
    IdCycle(j);
  }

  /** How many packet ids a run uses up. */
  function IdsTaken(text: Text, steps: seq<Step>): nat {
    if steps == [] then 0
    else
      var before := steps[..|steps| - 1];
      var thread, last := Run(text, START, before), steps[|steps| - 1];
      IdsTaken(text, before)
      + (if thread.open && !last.Receive? && OwnTurn(thread.nextId, last).takesId then 1 else 0)
  }

  /** In every run the ids are handed out in that cycle, whatever the broker sends. */
  lemma {:induction false} RunTakesIdsInOrder(text: Text, steps: seq<Step>)
    ensures Run(text, START, steps).nextId == IdAfter(IdsTaken(text, steps))
    decreases |steps|
  {
    hide Drain, Acts;
    if steps != [] {
      RunTakesIdsInOrder(text, steps[..|steps| - 1]);
    }
  }

  // ---------------------------------------------------------------- the thread as an object

  class Client {
    const text: Text
    var buffer: bytes
    var nextId: u16
    var acts: seq<Act>
    var open: bool

    function State(): Thread
      reads this
    {
      Thread(buffer, nextId, acts, open)
    }

    constructor (text: Text)
      ensures this.text == text && State() == START
    {
      this.text := text;
      buffer, nextId, acts, open := [], 1, [], true;
    }

    method Note(effects: seq<Effect>, fromBroker: bool)
      modifies this`acts
      ensures acts == old(acts) + Acts(effects, fromBroker)
    {
      acts := acts + Acts(effects, fromBroker);
    }

    method End()
      modifies this`buffer, this`open
      ensures buffer == [] && !open
    {
      buffer, open := [], false;
    }

    method AllocateId() returns (id: u16)
      modifies this`nextId
      ensures id == old(nextId) && nextId == NextId(id)
    {
      id := nextId;
      var sum := (nextId as int + 1) % 0x1_0000;
      nextId := if sum < 1 then 1 else sum;
    }

    method Execute(command: Command, failure: Option<string>)
      requires open
      modifies this
      ensures State() == Apply(text, old(State()), Issue(command, failure))
    {
      hide Acts, SubscribePacket, UnsubscribePacket, PublishPacket;
      match command {
        case Subscribe(filter) =>
          var id := AllocateId();
          var sent := [Write(SubscribePacket(id, filter))];
          Note(sent, false);
          ActsAppend(old(acts), sent, [Tell(Error("sending SUBSCRIBE failed")), Tell(Closed)], false);
          assert sent + [] == sent;
          if failure.Some? {
            Note([Tell(Error("sending SUBSCRIBE failed")), Tell(Closed)], false);
            End();
          }
        case Unsubscribe(filter) =>
          var id := AllocateId();
          Note([Write(UnsubscribePacket(id, filter))], false);
        case SendMessage(topic, payload, qos, retain) =>
          var packet := EncodePublishWith(topic, payload, qos, retain, nextId);
          if qos > 0 {
            var _ := AllocateId();
          }
          Note([Write(packet)], false);
          assert [Write(packet)] + [] == [Write(packet)];
          if failure.Some? {
            ActsAppend(old(acts), [Write(packet)], [Tell(Error("publishing: " + failure.value))], false);
            Note([Tell(Error("publishing: " + failure.value))], false);
          }
        case Disconnect =>
          HangUp();
      }
    }

    method HangUp()
      requires open
      modifies this
      ensures State() == Apply(text, old(State()), Step.HangUp)
    {
      Note([Write(DISCONNECT), Tell(Closed)], false);
      End();
    }

    method KeepAlive(delivered: bool)
      requires open
      modifies this
      ensures State() == Apply(text, old(State()), Ping(delivered))
    {
      Note([Write(PING_REQUEST)], false);
      if !delivered {
        Note([Tell(Error("keep-alive failed")), Tell(Closed)], false);
        End();
      }
    }

    method LoseConnection(reason: string)
      requires open
      modifies this
      ensures State() == Apply(text, old(State()), ReadFails(reason))
    {
      Note([Tell(Error("reading from the broker: " + reason)), Tell(Closed)], false);
      End();
    }

    /** One successful read of the socket. An empty read is the broker closing the connection. */
    method Read(chunk: bytes)
      requires open
      modifies this
      ensures State() == Apply(text, old(State()), Receive(chunk))
    {
      if chunk == [] {
        Note([Tell(Closed)], false);
        End();
      } else {
        buffer := buffer + chunk;
        DecodeBuffer();
      }
    }

    /** Everything complete is decoded and handled, the rest stays in the buffer. */
    method DecodeBuffer()
      requires open
      modifies this
      ensures var drained := Drain(text, old(buffer));
        && buffer == drained.rest && open == drained.open && nextId == old(nextId)
        && acts == old(acts) + Acts(drained.effects, true)
    {
      hide Drain, Decode, Handle, Acts;
      var consumed := 0;
      ghost var whole := Drain(text, buffer);
      ghost var done: seq<Effect> := [];
      assert buffer[0..] == buffer;
      ActsAppend(acts, [], [], true);
      while true
        invariant open && nextId == old(nextId)
        invariant buffer == old(buffer) && consumed <= |buffer|
        invariant acts == old(acts) + Acts(done, true)
        invariant whole == After(done, Drain(text, buffer[consumed..]))
        decreases |buffer| - consumed
      {
        DrainOnce(text, done, buffer[consumed..]);
        match Decode(text, buffer[consumed..]) {
          case Whole(packet, used) =>
            var handled := Handle(packet);
            assert buffer[consumed..][used..] == buffer[consumed + used..];
            consumed := consumed + used;
            ActsAppend(old(acts), done, handled.effects, true);
            Note(handled.effects, true);
            done := done + handled.effects;
            if !handled.carryOn {
              ActsAppend(old(acts), done, [Tell(Closed)], true);
              Note([Tell(Closed)], true);
              End();
              return;
            }
          case NeedMore =>
            break;
          case Bad(reason) =>
            var last := [Tell(Error("bad packet: " + reason)), Tell(Closed)];
            ActsAppend(old(acts), done, last, true);
            Note(last, true);
            End();
            return;
        }
      }
      buffer := buffer[consumed..];
    }
  }
}
