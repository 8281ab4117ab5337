/** The Docker pane's command protocol: commands run under a key, each answer is read once, and
    containers are updated one at a time by an inspect followed by a recreate. */
module DockerPane {
  import opened Lists
  import opened Options

  /** The three kinds of command: an inspect, the recreate that follows it, and a pull. */
  datatype Key = Inspecting | Updating | Pulling

  datatype Output = Output(stdout: string, errorLine: Option<string>, code: Option<nat>)

  /** What is kept of a finished command: what it printed, or why it did not run. */
  datatype Result = Result(output: Option<Output>, failure: Option<string>)

  /** How a command ends: with what it printed, or with the reason it did not run to its end. */
  datatype Answer = Ended(output: Output) | NotRun(reason: string)

  datatype Job = Job(key: Key, command: string)

  /** The session's side: jobs in flight, and the last result under each key. While the session has
      no command transport it refuses every command at once; it may lose and regain one at any time,
      and keeps its jobs and results over that. */
  datatype Access = Access(pending: seq<Job>, results: map<Key, Result>, transport: bool)

  datatype Container = Container(id: string, name: string, image: string)

  datatype Update = Update(id: string, name: string, inspecting: bool)

  datatype Pane = Pane(
    attempts: map<Key, nat>,
    handled: map<Key, nat>,
    updating: seq<Update>,
    pullQueue: seq<string>,
    stale: seq<string>,
    containers: seq<Container>)

  /** The command builders and parsers of the Docker command line. */
  datatype Tools = Tools(
    inspectCommand: string -> Option<string>,
    recreateScript: string -> Option<string>,
    pullCommand: string -> string,
    pulledNewer: string -> bool)

  /** What the protocol did: sent a command on behalf of a container or image, or took an answer,
      credited it to one, and read an outcome in it. */
  datatype Act =
    | Asked(key: Key, about: string, command: string)
    | Took(key: Key, about: string, credited: Option<string>, outcome: Outcome)

  /** The record the claims below are about: on whose behalf each key was last asked, everything
      asked and taken, the queue as it was filled, and the places in it that were recreated. */
  datatype Trace = Trace(about: map<Key, string>, acts: seq<Act>, queued: seq<string>, recreated: seq<nat>)

  datatype State = State(access: Access, pane: Pane, trace: Trace)

  const TRANSPORT_ERROR := "commands need a command transport"

  // ---------------------------------------------------------------- the session

  predicate IsRunning(access: Access, key: Key) {
    exists i :: 0 <= i < |access.pending| && access.pending[i].key == key
  }

  function ResultOf(answer: Answer): Result {
    match answer
    case Ended(output) => Result(Some(output), None)
    case NotRun(reason) => Result(None, Some(reason))
  }

  /** The jobs that no answer has arrived for. */
  function StillOut(pending: seq<Job>, arrived: map<Key, Answer>): seq<Job> {
    if pending == [] then []
    else
      var rest, last := StillOut(pending[..|pending| - 1], arrived), pending[|pending| - 1];
      if last.key in arrived then rest else rest + [last]
  }

  function Landed(pending: seq<Job>, arrived: map<Key, Answer>, results: map<Key, Result>): map<Key, Result> {
    if pending == [] then results
    else
      var rest, last := Landed(pending[..|pending| - 1], arrived, results), pending[|pending| - 1];
      if last.key in arrived then rest[last.key := ResultOf(arrived[last.key])] else rest
  }

  /** The jobs named in `arrived` become results; the others stay in flight. */
  function Collected(access: Access, arrived: map<Key, Answer>): Access {
    access.(pending := StillOut(access.pending, arrived), results := Landed(access.pending, arrived, access.results))
  }

  /** Start a command, with the answers so far collected. */
  function Executed(access: Access, key: Key, command: string): Access {
    if access.transport
    then access.(results := access.results - {key}, pending := access.pending + [Job(key, command)])
    else access.(results := access.results[key := Result(None, Some(TRANSPORT_ERROR))])
  }

  predicate IsAnswer(answer: Result) {
    answer.output.Some? != answer.failure.Some?
  }

  // ---------------------------------------------------------------- asking and taking

  function Count(counts: map<Key, nat>, key: Key): nat {
    if key in counts then counts[key] else 0
  }

  /** Run `command` under `key` on behalf of `about`. */
  function Ran(s: State, key: Key, about: string, command: string): State {
    State(Executed(s.access, key, command),
          s.pane.(attempts := s.pane.attempts[key := Count(s.pane.attempts, key) + 1]),
          s.trace.(about := s.trace.about[key := about], acts := s.trace.acts + [Asked(key, about, command)]))
  }

  /** A moment later, when some answers have arrived and been collected. */
  function Waited(s: State, arrived: map<Key, Answer>): State {
    s.(access := Collected(s.access, arrived))
  }

  datatype Outcome = Outcome(stdout: string, error: Option<string>)

  /** Whether there is an answer under `key` that was not read yet. */
  predicate CanTake(access: Access, pane: Pane, key: Key) {
    var attempt := Count(pane.attempts, key);
    && !IsRunning(access, key)
    && attempt != 0 && Count(pane.handled, key) != attempt
    && key in access.results
    && (access.results[key].output.Some? || access.results[key].failure.Some?)
  }

  function OutcomeOf(result: Result): Outcome {
    match result.output
    case None => Outcome("", result.failure)
    case Some(output) =>
      Outcome(output.stdout,
              if result.failure.Some? then result.failure
              else if output.code.None? || output.code == Some(0) then None
              else if output.errorLine.Some? then output.errorLine
              else Some("docker exited with an error"))
  }

  function Handled(pane: Pane, key: Key): Pane {
    pane.(handled := pane.handled[key := Count(pane.attempts, key)])
  }

  function AboutOf(s: State, key: Key): string {
    if key in s.trace.about then s.trace.about[key] else ""
  }

  /** Read the answer under `key`, which the pane credits to `credited`. */
  function TakenFor(s: State, key: Key, credited: Option<string>): State {
    s.(pane := Handled(s.pane, key),
       trace := s.trace.(acts := s.trace.acts + [Took(key, AboutOf(s, key), credited, ReadUnder(s, key))]))
  }

  function ReadUnder(s: State, key: Key): Outcome {
    if key in s.access.results then OutcomeOf(s.access.results[key]) else Outcome("", None)
  }

  // ---------------------------------------------------------------- updating containers

  function Head(updating: seq<Update>): Option<string> {
    if updating == [] then None else Some(updating[0].id)
  }

  function WithUpdating(s: State, updating: seq<Update>): State {
    s.(pane := s.pane.(updating := updating))
  }

  function WithoutUpdate(updating: seq<Update>, id: string): seq<Update> {
    if updating == [] then []
    else (if updating[0].id == id then [] else [updating[0]]) + WithoutUpdate(updating[1..], id)
  }

  /** If the recreate was answered, the head leaves the queue. */
  function TookUpdate(s: State): State {
    if !CanTake(s.access, s.pane, Updating) then s
    else
      var t := TakenFor(s, Updating, Head(s.pane.updating));
      if t.pane.updating == [] then t
      else if OutcomeOf(s.access.results[Updating]).error.Some? then WithUpdating(t, t.pane.updating[1..])
      else
        var id := t.pane.updating[0].id;
        t.(pane := t.pane.(stale := Without(t.pane.stale, id), updating := t.pane.updating[1..]))
  }

  /** The head's recreate script goes out. */
  function RecreateAsked(t: State, script: string): State
    requires t.pane.updating != []
  {
    var head := t.pane.updating[0];
    var u := WithUpdating(t, [head.(inspecting := false)] + t.pane.updating[1..]);
    var asked := Ran(u, Updating, head.id, script);
    asked.(trace := asked.trace.(recreated := asked.trace.recreated + [Place(asked)]))
  }

  /** If the inspect was answered, its recreate goes out, collecting what `arrived`, or the head leaves the queue. */
  function TookInspect(tools: Tools, s: State, arrived: map<Key, Answer>): State {
    if !CanTake(s.access, s.pane, Inspecting) then s
    else
      var t := TakenFor(s, Inspecting, Head(s.pane.updating));
      if t.pane.updating == [] then t
      else
        var outcome := OutcomeOf(s.access.results[Inspecting]);
        if outcome.error.Some? then WithUpdating(t, t.pane.updating[1..])
        else
          match tools.recreateScript(outcome.stdout)
          case None => WithUpdating(t, t.pane.updating[1..])
          case Some(script) => RecreateAsked(Waited(t, arrived), script)
  }

  /** How far the queue has come. */
  function Place(s: State): nat {
    if |s.pane.updating| <= |s.trace.queued| then |s.trace.queued| - |s.pane.updating| else 0
  }

  function FirstWaiting(updating: seq<Update>): nat {
    if updating == [] || !updating[0].inspecting then 0 else 1 + FirstWaiting(updating[1..])
  }

  /** If no command is in flight, the first waiting container is inspected. */
  function StartedNext(tools: Tools, s: State, arrived: map<Key, Answer>): State {
    var k := FirstWaiting(s.pane.updating);
    if IsRunning(s.access, Inspecting) || IsRunning(s.access, Updating) || k >= |s.pane.updating| then s
    else
      var next := s.pane.updating[k];
      var t := WithUpdating(s, s.pane.updating[k := next.(inspecting := true)]);
      match tools.inspectCommand(next.id)
      case Some(command) => Ran(Waited(t, arrived), Inspecting, next.id, command)
      case None => WithUpdating(t, WithoutUpdate(t.pane.updating, next.id))
  }

  function PolledUpdate(tools: Tools, s: State, atRecreate: map<Key, Answer>, atInspect: map<Key, Answer>): State {
    StartedNext(tools, TookInspect(tools, TookUpdate(s), atRecreate), atInspect)
  }

  // ---------------------------------------------------------------- pulling images

  function MarkedStale(containers: seq<Container>, image: string, stale: seq<string>): seq<string> {
    if containers == [] then stale
    else
      var last := containers[|containers| - 1];
      var before := MarkedStale(containers[..|containers| - 1], image, stale);
      if last.image == image && last.id !in before then before + [last.id] else before
  }

  function PullHead(queue: seq<string>): Option<string> {
    if queue == [] then None else Some(queue[0])
  }

  function TookPull(tools: Tools, s: State): State {
    if !CanTake(s.access, s.pane, Pulling) then s
    else
      var queue := s.pane.pullQueue;
      var t := TakenFor(s, Pulling, PullHead(queue));
      var outcome := OutcomeOf(s.access.results[Pulling]);
      if outcome.error.Some? then t.(pane := t.pane.(pullQueue := []))
      else if queue == [] then t
      else
        var stale := if tools.pulledNewer(outcome.stdout)
                     then MarkedStale(t.pane.containers, queue[0], t.pane.stale) else t.pane.stale;
        t.(pane := t.pane.(stale := stale, pullQueue := queue[1..]))
  }

  function PolledPull(tools: Tools, s: State, arrived: map<Key, Answer>): State {
    var t := TookPull(tools, s);
    if t.pane.pullQueue == [] || IsRunning(t.access, Pulling) then t
    else Ran(Waited(t, arrived), Pulling, t.pane.pullQueue[0], tools.pullCommand(t.pane.pullQueue[0]))
  }

  // ---------------------------------------------------------------- what the user does

  function Named(containers: seq<Container>, id: string): Option<Update> {
    if containers == [] then None
    else if containers[0].id == id then Some(Update(id, containers[0].name, false))
    else Named(containers[1..], id)
  }

  function Queue(containers: seq<Container>, ids: seq<string>): seq<Update> {
    if ids == [] then []
    else
      match Named(containers, ids[0])
      case None => Queue(containers, ids[1..])
      case Some(update) => [update] + Queue(containers, ids[1..])
  }

  function Ids(updating: seq<Update>): seq<string> {
    seq(|updating|, i requires 0 <= i < |updating| => updating[i].id)
  }

  function Queued(s: State, ids: seq<string>): State {
    var updating := Queue(s.pane.containers, ids);
    s.(pane := s.pane.(updating := updating),
       trace := s.trace.(queued := Ids(updating), recreated := []))
  }

  function PullQueued(s: State, images: seq<string>): State {
    s.(pane := s.pane.(pullQueue := images))
  }

  /** A frame collects, then polls the pulls, then the updates; a command that goes out in a poll
      collects too. Between frames the transport may go and come back. */
  datatype Step =
    | Collect(arrived: map<Key, Answer>)
    | PollPull(arrived: map<Key, Answer>)
    | PollUpdate(atRecreate: map<Key, Answer>, atInspect: map<Key, Answer>)
    | Transport(on: bool)
    | List(containers: seq<Container>)
    | UpdateAll
    | UpdateRow(id: string)
    | CheckUpdates(images: seq<string>)
    | PullButton(image: string)

  function Apply(tools: Tools, s: State, step: Step): State {
    match step
    case Collect(arrived) => Waited(s, arrived)
    case PollPull(arrived) => PolledPull(tools, s, arrived)
    case PollUpdate(atRecreate, atInspect) => PolledUpdate(tools, s, atRecreate, atInspect)
    case Transport(on) => s.(access := s.access.(transport := on))
    case List(containers) => s.(pane := s.pane.(containers := containers))
    case UpdateAll => if s.pane.stale != [] && s.pane.updating == [] then Queued(s, s.pane.stale) else s
    case UpdateRow(id) => Queued(s, [id])
    case CheckUpdates(images) => if s.pane.pullQueue == [] then PullQueued(s, images) else s
    case PullButton(image) => PullQueued(s, [image])
  }

  function Run(tools: Tools, s: State, steps: seq<Step>): State {
    if steps == [] then s
    else Apply(tools, Run(tools, s, steps[..|steps| - 1]), steps[|steps| - 1])
  }

  function Fresh(transport: bool): State {
    State(Access([], map[], transport), Pane(map[], map[], [], [], [], []), Trace(map[], [], [], []))
  }

  // ---------------------------------------------------------------- what every run keeps

  predicate Open(s: State, key: Key) {
    Count(s.pane.attempts, key) != Count(s.pane.handled, key)
  }

  /** Every request under `key` is answered at most once, and the next one waits for that. */
  predicate KeyOk(s: State, key: Key) {
    && Count(s.pane.handled, key) <= Count(s.pane.attempts, key) <= Count(s.pane.handled, key) + 1
    && (IsRunning(s.access, key) ==> Open(s, key) && key !in s.access.results)
    && (Open(s, key) && !IsRunning(s.access, key) ==> key in s.access.results && IsAnswer(s.access.results[key]))
  }

  /** No two jobs are in flight under one key. */
  predicate AreApart(pending: seq<Job>) {
    forall i, j :: 0 <= i < j < |pending| ==> pending[i].key != pending[j].key
  }

  predicate KeysOk(s: State) {
    && AreApart(s.access.pending)
    && KeyOk(s, Inspecting) && KeyOk(s, Updating) && KeyOk(s, Pulling)
  }

  /** An inspect or a recreate in flight, never both, is for the head of the queue, and the
      containers behind it wait. */
  predicate QueueOk(s: State) {
    var updating := s.pane.updating;
    && !(Open(s, Inspecting) && Open(s, Updating))
    && (Open(s, Inspecting) ==> Head(updating) == Some(AboutOf(s, Inspecting)))
    && (Open(s, Updating) ==> Head(updating) == Some(AboutOf(s, Updating)))
    && (forall i :: 0 <= i < |updating| && updating[i].inspecting ==> i == 0 && Open(s, Inspecting))
  }

  /** A pull in flight is for the head of the pull queue. */
  predicate PullOk(s: State) {
    Open(s, Pulling) ==> PullHead(s.pane.pullQueue) == Some(AboutOf(s, Pulling))
  }

  /** The queue drains from its front, and its places are recreated in order, each at most once. */
  predicate FifoOk(s: State) {
    FifoOkIf(s, Open(s, Updating))
  }

  /** ... where the head's place may be recreated already only if it is `busy`. */
  predicate FifoOkIf(s: State, busy: bool) {
    var trace, place := s.trace, Place(s);
    && |s.pane.updating| <= |trace.queued|
    && Ids(s.pane.updating) == trace.queued[place..]
    && NoRepeats(trace.queued)
    && (forall i, j :: 0 <= i < j < |trace.recreated| ==> trace.recreated[i] < trace.recreated[j])
    && (forall i :: 0 <= i < |trace.recreated| ==>
          trace.recreated[i] < place || (trace.recreated[i] == place && busy))
    && NoRepeats(s.pane.stale)
  }

  /** On whose behalf a request under `key` is out, as the record tells. */
  function Asking(acts: seq<Act>, key: Key): Option<string> {
    if acts == [] then None
    else
      var last := acts[|acts| - 1];
      if last.key != key then Asking(acts[..|acts| - 1], key)
      else if last.Asked? then Some(last.about) else None
  }

  /** A request goes out only when none is out under its key, and every answer that is read is the
      one to the request that is out, credited to what that request was for. */
  predicate IsHonest(acts: seq<Act>) {
    acts != [] ==>
      var before, last := acts[..|acts| - 1], acts[|acts| - 1];
      && IsHonest(before)
      && match last {
           case Asked(key, _, _) => Asking(before, key) == None
           case Took(key, about, credited, _) => Asking(before, key) == Some(about) && credited == Some(about)
         }
  }

  ghost predicate HonestOk(s: State) {
    && IsHonest(s.trace.acts)
    && forall key :: AsksOk(s, key)
  }

  predicate AsksOk(s: State, key: Key) {
    Asking(s.trace.acts, key) == if Open(s, key) then Some(AboutOf(s, key)) else None
  }

  ghost predicate Inv(s: State) {
    KeysOk(s) && QueueOk(s) && PullOk(s) && FifoOk(s) && HonestOk(s)
  }

  /** An open request whose job has ended has been read. */
  predicate Settled(s: State, key: Key) {
    Open(s, key) ==> IsRunning(s.access, key)
  }

  lemma ExecutedRuns(access: Access, key: Key, command: string, k: Key)
    ensures IsRunning(Executed(access, key, command), k) <==> IsRunning(access, k) || (access.transport && k == key)
  {
    var next := Executed(access, key, command);
    if access.transport {
      assert next.pending[|access.pending|].key == key;
      assert forall i :: 0 <= i < |access.pending| ==> next.pending[i] == access.pending[i];
    }
  }

  lemma {:induction false} StillOutIs(pending: seq<Job>, arrived: map<Key, Answer>)
    requires AreApart(pending)
    ensures AreApart(StillOut(pending, arrived))
    ensures forall job :: job in StillOut(pending, arrived) <==> job in pending && job.key !in arrived
  {
    if pending != [] {
      var before, last := pending[..|pending| - 1], pending[|pending| - 1];
      StillOutIs(before, arrived);
      var rest := StillOut(before, arrived);
      assert pending == before + [last];
      forall i | 0 <= i < |rest|
        ensures rest[i].key != last.key
      {
        assert rest[i] in rest;
        var k :| 0 <= k < |before| && before[k] == rest[i];
        assert pending[k].key != pending[|pending| - 1].key;
      }
    }
  }

  lemma {:induction false} LandedIs(pending: seq<Job>, arrived: map<Key, Answer>, results: map<Key, Result>, key: Key)
    ensures var landed := Landed(pending, arrived, results);
      if key in arrived && exists i :: 0 <= i < |pending| && pending[i].key == key
      then key in landed && landed[key] == ResultOf(arrived[key])
      else (key in landed <==> key in results) && (key in results ==> landed[key] == results[key])
  {
    if pending != [] {
      var before := pending[..|pending| - 1];
      LandedIs(before, arrived, results, key);
      assert forall i :: 0 <= i < |before| ==> before[i] == pending[i];
    }
  }

  /** Collecting takes the answered jobs, and only those, out of flight and keeps their answers. */
  lemma CollectedIs(access: Access, arrived: map<Key, Answer>, key: Key)
    requires AreApart(access.pending)
    ensures var next := Collected(access, arrived);
      && AreApart(next.pending) && next.transport == access.transport
      && (IsRunning(next, key) <==> IsRunning(access, key) && key !in arrived)
      && (if IsRunning(access, key) && key in arrived
          then key in next.results && next.results[key] == ResultOf(arrived[key])
          else (key in next.results <==> key in access.results)
               && (key in access.results ==> next.results[key] == access.results[key]))
  {
    StillOutIs(access.pending, arrived);
    LandedIs(access.pending, arrived, access.results, key);
    var next := Collected(access, arrived);
    if IsRunning(access, key) && key !in arrived {
      var i :| 0 <= i < |access.pending| && access.pending[i].key == key;
      assert access.pending[i] in next.pending;
    }
    if IsRunning(next, key) {
      var i :| 0 <= i < |next.pending| && next.pending[i].key == key;
      assert next.pending[i] in access.pending;
    }
  }

  lemma WaitedKeepsKeys(s: State, arrived: map<Key, Answer>)
    requires KeysOk(s)
    ensures KeysOk(Waited(s, arrived))
  {
    hide IsRunning, Collected, AreApart;
    CollectedIs(s.access, arrived, Inspecting);
    CollectedIs(s.access, arrived, Updating);
    CollectedIs(s.access, arrived, Pulling);
  }

  /** Nothing but the answers depends on when they are collected. */
  lemma WaitedKeeps(s: State, arrived: map<Key, Answer>)
    requires KeysOk(s)
    ensures var t := Waited(s, arrived);
      && KeysOk(t) && (QueueOk(s) ==> QueueOk(t)) && (PullOk(s) ==> PullOk(t)) && (HonestOk(s) ==> HonestOk(t))
      && (FifoOkIf(s, true) ==> FifoOkIf(t, true)) && (FifoOkIf(s, false) ==> FifoOkIf(t, false))
      && (Inv(s) ==> Inv(t))
  {
    WaitedKeepsKeys(s, arrived);
    hide KeysOk, Collected;
    if HonestOk(s) {
      HonestIgnoresQueue(s, Waited(s, arrived));
    }
    hide HonestOk, NoRepeats;
  }

  lemma RanKeepsKey(s: State, key: Key, about: string, command: string, k: Key)
    requires KeysOk(s) && !Open(s, key)
    ensures var t := Ran(s, key, about, command);
      && KeyOk(t, k)
      && (k == key ==> Open(t, k) && AboutOf(t, k) == about && (t.access.transport ==> IsRunning(t.access, k)))
      && (k != key ==> Open(t, k) == Open(s, k) && AboutOf(t, k) == AboutOf(s, k)
                       && IsRunning(t.access, k) == IsRunning(s.access, k))
  {
    assert KeyOk(s, k) && KeyOk(s, key);
    ExecutedRuns(s.access, key, command, k);
    hide IsRunning, AreApart;
  }

  lemma ExecutedKeepsAccess(access: Access, key: Key, command: string)
    requires AreApart(access.pending) && !IsRunning(access, key)
    ensures AreApart(Executed(access, key, command).pending)
  {
    assert forall i :: 0 <= i < |access.pending| ==> access.pending[i].key != key;
  }

  lemma RanKeepsKeys(s: State, key: Key, about: string, command: string)
    requires KeysOk(s) && !Open(s, key)
    ensures var t := Ran(s, key, about, command);
      && KeysOk(t) && Open(t, key) && AboutOf(t, key) == about
      && (t.access.transport ==> Settled(t, key))
      && forall k :: k != key ==>
           Open(t, k) == Open(s, k) && AboutOf(t, k) == AboutOf(s, k)
           && IsRunning(t.access, k) == IsRunning(s.access, k)
  {
    assert !IsRunning(s.access, key) by {
      assert KeyOk(s, key);
    }
    ExecutedKeepsAccess(s.access, key, command);
    hide KeyOk, IsRunning, AreApart, Executed, Open, AboutOf;
    forall k
      ensures var t := Ran(s, key, about, command);
        && KeyOk(t, k)
        && (k == key ==> Open(t, k) && AboutOf(t, k) == about && (t.access.transport ==> IsRunning(t.access, k)))
        && (k != key ==> Open(t, k) == Open(s, k) && AboutOf(t, k) == AboutOf(s, k)
                         && IsRunning(t.access, k) == IsRunning(s.access, k))
    {
      RanKeepsKey(s, key, about, command, k);
    }
  }

  lemma TakenKeepsKeys(s: State, key: Key, credited: Option<string>)
    requires KeysOk(s) && CanTake(s.access, s.pane, key)
    ensures var t := TakenFor(s, key, credited);
      && KeysOk(t) && !Open(t, key) && Open(s, key)
      && forall k :: k != key ==> Open(t, k) == Open(s, k)
  {
    var t := TakenFor(s, key, credited);
    assert forall k :: k != key ==> Count(t.pane.handled, k) == Count(s.pane.handled, k);
  }

  lemma OpenCanBeTaken(s: State, key: Key)
    requires KeysOk(s)
    ensures CanTake(s.access, s.pane, key) || Settled(s, key)
  {
    assert KeyOk(s, key);
  }

  // ---------------------------------------------------------------- pulls keep it

  lemma {:induction false} MarkedStaleIsDistinct(containers: seq<Container>, image: string, stale: seq<string>)
    requires NoRepeats(stale)
    ensures NoRepeats(MarkedStale(containers, image, stale))
    decreases |containers|
  {
    if containers != [] {
      MarkedStaleIsDistinct(containers[..|containers| - 1], image, stale);
    }
  }

  lemma TakenPullKeeps(s: State)
    requires Inv(s) && CanTake(s.access, s.pane, Pulling)
    ensures var t := TakenFor(s, Pulling, PullHead(s.pane.pullQueue));
      KeysOk(t) && QueueOk(t) && FifoOk(t) && HonestOk(t) && !Open(t, Pulling)
  {
    var credited := PullHead(s.pane.pullQueue);
    TakenKeepsKeys(s, Pulling, credited);
    hide KeysOk, CanTake, HonestOk;
    TakenIsHonest(s, Pulling, credited);
  }

  /** With no pull in flight, the pull queue and the outdated containers may change. */
  lemma PullChangeKeeps(t: State, queue: seq<string>, stale: seq<string>)
    requires KeysOk(t) && QueueOk(t) && FifoOk(t) && HonestOk(t) && !Open(t, Pulling)
    requires NoRepeats(stale)
    ensures var next := t.(pane := t.pane.(pullQueue := queue, stale := stale));
      Inv(next) && Settled(next, Pulling)
  {
    HonestIgnoresQueue(t, t.(pane := t.pane.(pullQueue := queue, stale := stale)));
    hide IsRunning, AreApart, NoRepeats, HonestOk;
  }

  lemma TookPullKeeps(tools: Tools, s: State)
    requires Inv(s)
    ensures Inv(TookPull(tools, s)) && Settled(TookPull(tools, s), Pulling)
  {
    OpenCanBeTaken(s, Pulling);
    if CanTake(s.access, s.pane, Pulling) {
      var queue := s.pane.pullQueue;
      TakenPullKeeps(s);
      var t := TakenFor(s, Pulling, PullHead(queue));
      PullChangeKeeps(t, [], t.pane.stale);
      if queue != [] {
        PullChangeKeeps(t, queue[1..], t.pane.stale);
        MarkedStaleIsDistinct(t.pane.containers, queue[0], t.pane.stale);
        PullChangeKeeps(t, queue[1..], MarkedStale(t.pane.containers, queue[0], t.pane.stale));
      } else {
        PullChangeKeeps(t, queue, t.pane.stale);
      }
      hide Inv, Settled, KeysOk, QueueOk, FifoOk, HonestOk, OutcomeOf, MarkedStale, CanTake;
    }
  }

  lemma TakenIsHonest(s: State, key: Key, credited: Option<string>)
    requires HonestOk(s) && Open(s, key) && credited == Some(AboutOf(s, key))
    ensures HonestOk(TakenFor(s, key, credited))
  {
    var t := TakenFor(s, key, credited);
    assert t.trace.acts[..|s.trace.acts|] == s.trace.acts;
    assert AsksOk(s, key);
    forall k
      ensures AsksOk(t, k)
    {
      assert AsksOk(s, k);
    }
  }

  lemma RanIsHonest(s: State, key: Key, about: string, command: string)
    requires HonestOk(s) && !Open(s, key)
    ensures HonestOk(Ran(s, key, about, command))
  {
    hide Executed;
    var t := Ran(s, key, about, command);
    assert t.trace.acts[..|s.trace.acts|] == s.trace.acts;
    assert AsksOk(s, key);
    forall k
      ensures AsksOk(t, k)
    {
      assert AsksOk(s, k);
    }
  }

  /** The record is not touched by what happens to the queues. */
  lemma HonestIgnoresQueue(s: State, t: State)
    requires HonestOk(s) && t.trace.acts == s.trace.acts && t.trace.about == s.trace.about
    requires t.pane.attempts == s.pane.attempts && t.pane.handled == s.pane.handled
    ensures HonestOk(t)
  {
    forall k
      ensures AsksOk(t, k)
    {
      assert AsksOk(s, k);
    }
  }

  lemma PolledPullKeeps(tools: Tools, s: State, arrived: map<Key, Answer>)
    requires Inv(s)
    ensures Inv(PolledPull(tools, s, arrived))
  {
    TookPullKeeps(tools, s);
    var t := TookPull(tools, s);
    if t.pane.pullQueue != [] && !IsRunning(t.access, Pulling) {
      WaitedKeeps(t, arrived);
      RanPullKeeps(Waited(t, arrived), t.pane.pullQueue[0], tools.pullCommand(t.pane.pullQueue[0]));
    }
    hide Inv, TookPull, IsRunning, Collected;
  }

  lemma RanPullKeeps(t: State, image: string, command: string)
    requires Inv(t) && !Open(t, Pulling) && t.pane.pullQueue != [] && t.pane.pullQueue[0] == image
    ensures Inv(Ran(t, Pulling, image, command))
  {
    RanKeepsKeys(t, Pulling, image, command);
    RanIsHonest(t, Pulling, image, command);
    hide KeysOk, NoRepeats, HonestOk;
  }

  // ---------------------------------------------------------------- updates keep it

  /** No inspect and no recreate is in flight. */
  predicate UpdatesIdle(s: State) {
    !Open(s, Inspecting) && !Open(s, Updating)
  }

  /** The head of the queue is done with. */
  lemma PopKeeps(t: State, stale: seq<string>)
    requires KeysOk(t) && PullOk(t) && FifoOkIf(t, true) && HonestOk(t)
    requires !Open(t, Inspecting) && !Open(t, Updating) && t.pane.updating != []
    requires forall i :: 1 <= i < |t.pane.updating| ==> !t.pane.updating[i].inspecting
    requires NoRepeats(stale)
    ensures Inv(t.(pane := t.pane.(updating := t.pane.updating[1..], stale := stale)))
  {
    hide IsRunning, AreApart, NoRepeats, HonestOk;
    var next := t.(pane := t.pane.(updating := t.pane.updating[1..], stale := stale));
    HonestIgnoresQueue(t, next);
    assert Place(next) == Place(t) + 1;
    assert Ids(next.pane.updating) == Ids(t.pane.updating)[1..];
    assert next.trace.queued[Place(next)..] == t.trace.queued[Place(t)..][1..];
  }

  /** Reading an answer that belongs to the head of the update queue. */
  lemma TakenUpdateKeeps(s: State, key: Key)
    requires Inv(s) && CanTake(s.access, s.pane, key) && key != Pulling
    ensures var t := TakenFor(s, key, Head(s.pane.updating));
      && KeysOk(t) && PullOk(t) && FifoOkIf(t, true) && HonestOk(t)
      && (key == Inspecting ==> FifoOkIf(t, false))
      && !Open(t, Inspecting) && !Open(t, Updating) && t.pane.updating != []
      && forall i :: 1 <= i < |t.pane.updating| ==> !t.pane.updating[i].inspecting
  {
    TakenKeepsKeys(s, key, Head(s.pane.updating));
    hide KeysOk, CanTake, HonestOk, NoRepeats;
    TakenIsHonest(s, key, Head(s.pane.updating));
  }

  lemma TookUpdateKeeps(s: State)
    requires Inv(s)
    ensures Inv(TookUpdate(s)) && Settled(TookUpdate(s), Updating)
  {
    OpenCanBeTaken(s, Updating);
    if CanTake(s.access, s.pane, Updating) {
      TakenUpdateKeeps(s, Updating);
      var t := TakenFor(s, Updating, Head(s.pane.updating));
      PopKeeps(t, t.pane.stale);
      WithoutIs(t.pane.stale, t.pane.updating[0].id);
      PopKeeps(t, Without(t.pane.stale, t.pane.updating[0].id));
      hide Inv, KeysOk, PullOk, FifoOkIf, HonestOk, OutcomeOf, Without, CanTake;
    }
  }

  lemma RecreateKeepsFifo(t: State, script: string)
    requires FifoOkIf(t, false) && t.pane.updating != []
    ensures FifoOkIf(RecreateAsked(t, script), true)
  {
    hide Executed, NoRepeats;
    var next := RecreateAsked(t, script);
    var asked := next.(trace := next.trace.(recreated := t.trace.recreated));
    assert Ids(next.pane.updating) == Ids(t.pane.updating);
    FifoIgnoresFlags(t, asked, false);
    hide Ids;
  }

  lemma RecreateKeepsRest(t: State, script: string)
    requires KeysOk(t) && PullOk(t) && HonestOk(t) && t.access.transport
    requires !Open(t, Inspecting) && !Open(t, Updating) && t.pane.updating != []
    ensures var next := RecreateAsked(t, script);
      && KeysOk(next) && PullOk(next) && HonestOk(next) && Settled(next, Updating)
      && Open(next, Updating) && AboutOf(next, Updating) == t.pane.updating[0].id && !Open(next, Inspecting)
  {
    assert Executed(t.access, Updating, script).transport;
    hide KeysOk, HonestOk, PullOk, Executed, Place, IsRunning;
    var head := t.pane.updating[0];
    var u := WithUpdating(t, [head.(inspecting := false)] + t.pane.updating[1..]);
    KeysIgnoreQueue(t, u);
    RanKeepsKeys(u, Updating, head.id, script);
    HonestIgnoresQueue(t, u);
    RanIsHonest(u, Updating, head.id, script);
    PullIgnoresUpdates(t, u);
    RanKeepsPull(u, Updating, head.id, script);
    var asked := Ran(u, Updating, head.id, script);
    KeysIgnoreQueue(asked, RecreateAsked(t, script));
    HonestIgnoresQueue(asked, RecreateAsked(t, script));
    PullIgnoresUpdates(asked, RecreateAsked(t, script));
  }

  lemma RecreateKeeps(t: State, script: string)
    requires KeysOk(t) && PullOk(t) && FifoOkIf(t, false) && HonestOk(t) && t.access.transport
    requires !Open(t, Inspecting) && !Open(t, Updating) && t.pane.updating != []
    requires forall i :: 1 <= i < |t.pane.updating| ==> !t.pane.updating[i].inspecting
    ensures var next := RecreateAsked(t, script);
      && Inv(next) && Settled(next, Updating) && Settled(next, Inspecting)
  {
    hide KeysOk, PullOk, HonestOk, FifoOkIf, Executed, Place, IsRunning, Open, AboutOf;
    RecreateKeepsRest(t, script);
    RecreateKeepsFifo(t, script);
  }

  lemma KeysIgnoreQueue(s: State, t: State)
    requires KeysOk(s) && t.access == s.access
    requires t.pane.attempts == s.pane.attempts && t.pane.handled == s.pane.handled
    ensures KeysOk(t)
  {
  }

  /** The inspect's answer can be read and yields a script, but the session would refuse it. */
  predicate IsRefused(tools: Tools, s: State) {
    && CanTake(s.access, s.pane, Inspecting)
    && !s.access.transport
    && var outcome := OutcomeOf(s.access.results[Inspecting]);
       outcome.error.None? && tools.recreateScript(outcome.stdout).Some?
  }

  lemma TookInspectKeeps(tools: Tools, s: State, arrived: map<Key, Answer>)
    requires Inv(s) && Settled(s, Updating) && !IsRefused(tools, s)
    ensures var next := TookInspect(tools, s, arrived);
      Inv(next) && Settled(next, Updating) && Settled(next, Inspecting)
  {
    OpenCanBeTaken(s, Inspecting);
    if CanTake(s.access, s.pane, Inspecting) {
      TakenUpdateKeeps(s, Inspecting);
      var t := TakenFor(s, Inspecting, Head(s.pane.updating));
      PopKeeps(t, t.pane.stale);
      var outcome := OutcomeOf(s.access.results[Inspecting]);
      if outcome.error.None? && tools.recreateScript(outcome.stdout).Some? {
        WaitedKeeps(t, arrived);
        RecreateKeeps(Waited(t, arrived), tools.recreateScript(outcome.stdout).value);
      }
      hide Inv, KeysOk, PullOk, FifoOkIf, HonestOk, OutcomeOf, CanTake, Ran, IsRunning, Place, Collected;
    }
  }

  /** A request under another key leaves the pull in flight as it was. */
  lemma RanKeepsPull(s: State, key: Key, about: string, command: string)
    requires PullOk(s) && key != Pulling
    ensures PullOk(Ran(s, key, about, command))
  {
    hide Executed;
  }

  lemma InspectQueue(s: State, command: string)
    requires QueueOk(s) && UpdatesIdle(s) && s.pane.updating != []
    ensures Open(InspectAsked(s, command), Inspecting) ==> QueueOk(InspectAsked(s, command))
  {
    hide Executed;
  }

  function InspectAsked(s: State, command: string): State
    requires s.pane.updating != []
  {
    var head := s.pane.updating[0];
    Ran(WithUpdating(s, s.pane.updating[0 := head.(inspecting := true)]), Inspecting, head.id, command)
  }

  lemma InspectKeepsFifo(s: State, command: string)
    requires FifoOk(s) && UpdatesIdle(s) && s.pane.updating != []
    ensures FifoOk(InspectAsked(s, command))
  {
    hide Executed, NoRepeats, Place;
    var next := InspectAsked(s, command);
    assert Ids(next.pane.updating) == Ids(s.pane.updating);
    FifoIgnoresFlags(s, next, false);
  }

  lemma InspectKeepsRest(s: State, command: string)
    requires KeysOk(s) && HonestOk(s) && PullOk(s) && UpdatesIdle(s) && s.pane.updating != []
    ensures var next := InspectAsked(s, command);
      KeysOk(next) && HonestOk(next) && PullOk(next) && Open(next, Inspecting)
  {
    hide KeysOk, HonestOk, PullOk, Executed;
    var head := s.pane.updating[0];
    var u := WithUpdating(s, s.pane.updating[0 := head.(inspecting := true)]);
    KeysIgnoreQueue(s, u);
    RanKeepsKeys(u, Inspecting, head.id, command);
    HonestIgnoresQueue(s, u);
    RanIsHonest(u, Inspecting, head.id, command);
    PullIgnoresUpdates(s, u);
    RanKeepsPull(u, Inspecting, head.id, command);
  }

  lemma PullIgnoresUpdates(s: State, u: State)
    requires PullOk(s) && u.trace.about == s.trace.about && u.pane.pullQueue == s.pane.pullQueue
    requires u.pane.attempts == s.pane.attempts && u.pane.handled == s.pane.handled
    ensures PullOk(u)
  {
  }

  lemma InspectKeeps(s: State, command: string)
    requires Inv(s) && UpdatesIdle(s) && s.pane.updating != []
    ensures Inv(InspectAsked(s, command))
  {
    hide KeysOk, HonestOk, FifoOkIf, PullOk, QueueOk, Ran, InspectAsked, Open;
    InspectKeepsRest(s, command);
    InspectKeepsFifo(s, command);
    InspectQueue(s, command);
  }

  lemma FifoIgnoresFlags(s: State, t: State, busy: bool)
    requires FifoOkIf(s, busy) && Ids(t.pane.updating) == Ids(s.pane.updating) && t.pane.stale == s.pane.stale
    requires t.trace.queued == s.trace.queued && t.trace.recreated == s.trace.recreated
    ensures FifoOkIf(t, busy) && Place(t) == Place(s)
  {
    assert |Ids(t.pane.updating)| == |Ids(s.pane.updating)|;
  }

  /** Dropping a container by id drops just the head, for the ids in the queue are distinct. */
  lemma {:induction false} WithoutUpdateAbsent(updating: seq<Update>, id: string)
    requires forall i :: 0 <= i < |updating| ==> updating[i].id != id
    ensures WithoutUpdate(updating, id) == updating
  {
    if updating != [] {
      WithoutUpdateAbsent(updating[1..], id);
      assert updating == [updating[0]] + updating[1..];
    }
  }

  lemma HeadIsAlone(s: State, i: nat)
    requires FifoOk(s) && 1 <= i < |s.pane.updating|
    ensures s.pane.updating[i].id != s.pane.updating[0].id
  {
    assert s.pane.updating[i].id == Ids(s.pane.updating)[i] == s.trace.queued[Place(s) + i];
    assert s.pane.updating[0].id == Ids(s.pane.updating)[0] == s.trace.queued[Place(s)];
  }

  lemma HeadIsWaiting(s: State)
    requires QueueOk(s) && !Open(s, Inspecting)
    ensures FirstWaiting(s.pane.updating) == 0
  {
  }

  /** A container whose inspect cannot be asked for leaves the queue. */
  lemma SkipKeeps(s: State)
    requires Inv(s) && UpdatesIdle(s) && s.pane.updating != []
    ensures var head := s.pane.updating[0];
      Inv(WithUpdating(s, WithoutUpdate(s.pane.updating[0 := head.(inspecting := true)], head.id)))
  {
    var updating, head := s.pane.updating, s.pane.updating[0];
    var marked := updating[0 := head.(inspecting := true)];
    forall i | 1 <= i < |updating|
      ensures updating[i].id != head.id
    {
      HeadIsAlone(s, i);
    }
    assert marked[1..] == updating[1..];
    WithoutUpdateAbsent(updating[1..], head.id);
    PopKeeps(s, s.pane.stale);
    assert WithoutUpdate(marked, head.id) == updating[1..];
    hide Inv, KeysOk, QueueOk, PullOk, FifoOkIf, HonestOk;
  }

  lemma StartedNextKeeps(tools: Tools, s: State, arrived: map<Key, Answer>)
    requires Inv(s) && Settled(s, Updating) && Settled(s, Inspecting)
    ensures Inv(StartedNext(tools, s, arrived))
  {
    if !IsRunning(s.access, Inspecting) && !IsRunning(s.access, Updating) {
      HeadIsWaiting(s);
      if s.pane.updating != [] {
        SkipKeeps(s);
        match tools.inspectCommand(s.pane.updating[0].id) {
          case Some(command) =>
            WaitedKeeps(s, arrived);
            InspectKeeps(Waited(s, arrived), command);
          case None =>
        }
      }
    }
    hide Inv, Ran, IsRunning, WithoutUpdate, FirstWaiting, Collected;
  }

  lemma OnlyOneToTake(tools: Tools, s: State)
    requires Inv(s)
    ensures IsRefused(tools, TookUpdate(s)) == IsRefused(tools, s)
    ensures IsRefused(tools, s) ==> TookUpdate(s) == s
  {
    hide KeysOk, PullOk, FifoOkIf, HonestOk, OutcomeOf, IsRunning;
  }

  lemma PolledUpdateKeeps(tools: Tools, s: State, atRecreate: map<Key, Answer>, atInspect: map<Key, Answer>)
    requires Inv(s) && !IsRefused(tools, s)
    ensures Inv(PolledUpdate(tools, s, atRecreate, atInspect))
  {
    OnlyOneToTake(tools, s);
    hide Inv, TookUpdate, TookInspect, StartedNext, Settled, IsRefused;
    TookUpdateKeeps(s);
    TookInspectKeeps(tools, TookUpdate(s), atRecreate);
    StartedNextKeeps(tools, TookInspect(tools, TookUpdate(s), atRecreate), atInspect);
  }

  // ---------------------------------------------------------------- a refused recreate

  /** The recreate is refused at once, so the pane asks the same container's inspect again. */
  lemma RefusedRecreate(tools: Tools, s: State, arrived: map<Key, Answer>)
    requires Inv(s) && IsRefused(tools, s)
    ensures s.pane.updating != []
    ensures var next, head := TookInspect(tools, s, arrived), s.pane.updating[0];
      && next.pane.updating == [head.(inspecting := false)] + s.pane.updating[1..]
      && Open(next, Updating) && AboutOf(next, Updating) == head.id && !Open(next, Inspecting)
      && KeysOk(next) && !next.access.transport
      && !IsRunning(next.access, Updating) && !IsRunning(next.access, Inspecting)
      && s.trace.acts <= next.trace.acts
  {
    var t := TakenFor(s, Inspecting, Head(s.pane.updating));
    TakenUpdateKeeps(s, Inspecting);
    var u := Waited(t, arrived);
    WaitedKeepsKeys(t, arrived);
    assert !IsRunning(u.access, Updating) && !IsRunning(u.access, Inspecting) by {
      assert KeyOk(u, Updating) && KeyOk(u, Inspecting);
    }
    assert u.access.transport == s.access.transport;
    hide KeysOk, Collected, OutcomeOf, CanTake, Place, IsRunning, FifoOkIf, HonestOk, PullOk;
    var script := tools.recreateScript(OutcomeOf(s.access.results[Inspecting]).stdout).value;
    RecreateRefused(u, script);
    assert TookInspect(tools, s, arrived) == RecreateAsked(u, script);
  }

  lemma RecreateRefused(u: State, script: string)
    requires KeysOk(u) && u.pane.updating != [] && !u.access.transport
    requires !Open(u, Updating) && !Open(u, Inspecting)
    ensures var next, head := RecreateAsked(u, script), u.pane.updating[0];
      && next.pane.updating == [head.(inspecting := false)] + u.pane.updating[1..]
      && Open(next, Updating) && AboutOf(next, Updating) == head.id && !Open(next, Inspecting)
      && KeysOk(next) && !next.access.transport
      && IsRunning(next.access, Updating) == IsRunning(u.access, Updating)
      && IsRunning(next.access, Inspecting) == IsRunning(u.access, Inspecting)
      && u.trace.acts <= next.trace.acts
  {
    var head := u.pane.updating[0];
    var v := WithUpdating(u, [head.(inspecting := false)] + u.pane.updating[1..]);
    KeysIgnoreQueue(u, v);
    RanKeepsKeys(v, Updating, head.id, script);
    ExecutedRuns(v.access, Updating, script, Updating);
    ExecutedRuns(v.access, Updating, script, Inspecting);
    hide KeysOk, IsRunning, Place;
    KeysIgnoreQueue(Ran(v, Updating, head.id, script), RecreateAsked(u, script));
  }

  lemma {:induction false} WithoutUpdateIs(updating: seq<Update>, id: string)
    ensures forall i :: 0 <= i < |WithoutUpdate(updating, id)| ==> WithoutUpdate(updating, id)[i].id != id
  {
    if updating != [] {
      WithoutUpdateIs(updating[1..], id);
    }
  }

  /** Where a refused recreate leaves the pane: with an inspect out beside it, or without the
      container it was for. */
  lemma AfterRefusal(tools: Tools, v: State, arrived: map<Key, Answer>)
    requires KeysOk(v) && v.pane.updating != [] && !v.pane.updating[0].inspecting && !Open(v, Inspecting)
    requires Open(v, Updating) && AboutOf(v, Updating) == v.pane.updating[0].id
    requires !IsRunning(v.access, Updating) && !IsRunning(v.access, Inspecting) && !v.access.transport
    ensures var next, id := StartedNext(tools, v, arrived), v.pane.updating[0].id;
      && CanTake(next.access, next.pane, Updating) && AboutOf(next, Updating) == id && Open(next, Updating)
      && v.trace.acts <= next.trace.acts
      && if tools.inspectCommand(id).Some?
         then && CanTake(next.access, next.pane, Inspecting) && AboutOf(next, Inspecting) == id
              && Open(next, Inspecting)
              && next.pane.updating == v.pane.updating[0 := v.pane.updating[0].(inspecting := true)]
         else Head(next.pane.updating) != Some(id)
  {
    var head := v.pane.updating[0];
    var marked := WithUpdating(v, v.pane.updating[0 := head.(inspecting := true)]);
    KeysIgnoreQueue(v, marked);
    match tools.inspectCommand(head.id) {
      case Some(command) =>
        RefusedInspect(marked, arrived, head.id, command);
        assert StartedNext(tools, v, arrived) == Ran(Waited(marked, arrived), Inspecting, head.id, command) by {
          hide Ran, IsRunning, Collected;
        }
      case None =>
        hide IsRunning;
        assert KeyOk(v, Updating);
        WithoutUpdateIs(marked.pane.updating, head.id);
    }
    hide Ran, StartedNext, KeysOk, CanTake, Waited;
  }

  /** A second command refused while the answer to the first waits to be read. */
  lemma RefusedInspect(v: State, arrived: map<Key, Answer>, id: string, command: string)
    requires KeysOk(v) && Open(v, Updating) && !Open(v, Inspecting) && !v.access.transport
    requires !IsRunning(v.access, Updating)
    ensures var next := Ran(Waited(v, arrived), Inspecting, id, command);
      && CanTake(next.access, next.pane, Updating) && AboutOf(next, Updating) == AboutOf(v, Updating)
      && Open(next, Updating)
      && CanTake(next.access, next.pane, Inspecting) && AboutOf(next, Inspecting) == id && Open(next, Inspecting)
      && next.pane.updating == v.pane.updating && v.trace.acts <= next.trace.acts
  {
    var w := Waited(v, arrived);
    WaitedKeepsKeys(v, arrived);
    CollectedIs(v.access, arrived, Updating);
    assert w.access.transport == v.access.transport && Open(w, Updating) && !Open(w, Inspecting);
    assert !IsRunning(w.access, Inspecting) by {
      assert KeyOk(w, Inspecting);
    }
    assert AboutOf(w, Updating) == AboutOf(v, Updating);
    var next := Ran(w, Inspecting, id, command);
    assert next.pane.updating == v.pane.updating && v.trace.acts <= next.trace.acts;
    ExecutedRuns(w.access, Inspecting, command, Inspecting);
    assert !IsRunning(next.access, Inspecting);
    RanKeepsKeys(w, Inspecting, id, command);
    hide Ran, Waited, Collected, AreApart, IsRunning, AboutOf;
    TakableWhenOpen(next, Inspecting);
    TakableWhenOpen(next, Updating);
  }

  lemma TakableWhenOpen(s: State, key: Key)
    requires KeysOk(s) && Open(s, key) && !IsRunning(s.access, key)
    ensures CanTake(s.access, s.pane, key)
  {
    assert KeyOk(s, key);
    hide IsRunning;
  }

  /** The first poll after the transport went with an inspect's answer unread. */
  lemma PolledRefusal(tools: Tools, s: State, atRecreate: map<Key, Answer>, atInspect: map<Key, Answer>)
    requires Inv(s) && IsRefused(tools, s)
    ensures s.pane.updating != []
    ensures var next, id := PolledUpdate(tools, s, atRecreate, atInspect), s.pane.updating[0].id;
      && CanTake(next.access, next.pane, Updating) && AboutOf(next, Updating) == id && Open(next, Updating)
      && if tools.inspectCommand(id).Some?
         then && CanTake(next.access, next.pane, Inspecting) && AboutOf(next, Inspecting) == id
              && Open(next, Inspecting)
              && next.pane.updating != [] && next.pane.updating[0].id == id
              && Head(next.pane.updating[1..]) != Some(id)
         else Head(next.pane.updating) != Some(id)
  {
    OnlyOneToTake(tools, s);
    RefusedRecreate(tools, s, atRecreate);
    var v := TookInspect(tools, s, atRecreate);
    AfterRefusal(tools, v, atInspect);
    if |s.pane.updating| > 1 {
      HeadIsAlone(s, 1);
    }
    hide Inv, IsRefused, TookUpdate, TookInspect, StartedNext, CanTake, AboutOf, Open, KeysOk, IsRunning;
  }

  lemma RefusalBreaks(tools: Tools, s: State, atRecreate: map<Key, Answer>, atInspect: map<Key, Answer>)
    requires Inv(s) && IsRefused(tools, s)
    ensures !Inv(PolledUpdate(tools, s, atRecreate, atInspect))
  {
    PolledRefusal(tools, s, atRecreate, atInspect);
    hide PolledUpdate, KeysOk, PullOk, FifoOk, HonestOk, IsRefused, CanTake, AboutOf, Open;
  }

  // ---------------------------------------------------------------- whole runs

  lemma {:induction false} QueueIsFromIds(containers: seq<Container>, ids: seq<string>)
    requires NoRepeats(ids)
    ensures NoRepeats(Ids(Queue(containers, ids)))
    ensures forall i :: 0 <= i < |Queue(containers, ids)| ==>
      Queue(containers, ids)[i].id in ids && !Queue(containers, ids)[i].inspecting
  {
    if ids != [] {
      var rest := Queue(containers, ids[1..]);
      QueueIsFromIds(containers, ids[1..]);
      NamedIs(containers, ids[0]);
      assert ids == [ids[0]] + ids[1..];
      forall i | 0 <= i < |rest|
        ensures Ids(rest)[i] != ids[0]
      {
        var k :| 0 <= k < |ids[1..]| && ids[1..][k] == rest[i].id;
        assert ids[k + 1] == rest[i].id;
      }
      if Named(containers, ids[0]).Some? {
        assert Ids(Queue(containers, ids)) == [ids[0]] + Ids(rest);
      }
    }
  }

  lemma {:induction false} NamedIs(containers: seq<Container>, id: string)
    ensures Named(containers, id).Some? ==>
      Named(containers, id).value.id == id && !Named(containers, id).value.inspecting
  {
    if containers != [] {
      NamedIs(containers[1..], id);
    }
  }

  lemma NewQueueIsFifo(s: State, ids: seq<string>)
    requires NoRepeats(s.pane.stale) && NoRepeats(Ids(Queue(s.pane.containers, ids)))
    ensures FifoOk(Queued(s, ids))
  {
    hide Queue, NoRepeats;
    var t := Queued(s, ids);
    assert t.trace.queued[0..] == t.trace.queued;
  }

  lemma NewQueueIsForHead(s: State, ids: seq<string>)
    requires QueueOk(s)
    requires forall i :: 0 <= i < |Queue(s.pane.containers, ids)| ==> !Queue(s.pane.containers, ids)[i].inspecting
    ensures QueueOk(Queued(s, ids))
       <==> UpdatesIdle(s) || Head(Queue(s.pane.containers, ids)) == Head(s.pane.updating)
  {
    hide Queue, Ids;
  }

  /** Filling the update queue keeps the protocol exactly when nothing is in flight, or the new
      queue starts with the container the flying command is for. */
  lemma QueueKeepsExactly(s: State, ids: seq<string>)
    requires Inv(s) && NoRepeats(ids)
    ensures Inv(Queued(s, ids))
       <==> UpdatesIdle(s) || Head(Queue(s.pane.containers, ids)) == Head(s.pane.updating)
  {
    assert NoRepeats(s.pane.stale);
    hide KeysOk, QueueOk, HonestOk, PullOk, FifoOkIf, Queue, Ids, NoRepeats, UpdatesIdle, Head;
    QueueIsFromIds(s.pane.containers, ids);
    var t := Queued(s, ids);
    KeysIgnoreQueue(s, t);
    HonestIgnoresQueue(s, t);
    NewQueueIsFifo(s, ids);
    NewQueueIsForHead(s, ids);
    assert PullOk(t) by {
      PullKeptByQueue(s, ids);
    }
  }

  lemma PullKeptByQueue(s: State, ids: seq<string>)
    requires PullOk(s)
    ensures PullOk(Queued(s, ids))
  {
    hide Queue, Ids;
  }

  /** Filling the pull queue, likewise. */
  lemma PullKeepsExactly(s: State, images: seq<string>)
    requires Inv(s)
    ensures Inv(PullQueued(s, images))
       <==> !Open(s, Pulling) || PullHead(images) == PullHead(s.pane.pullQueue)
  {
    var t := PullQueued(s, images);
    KeysIgnoreQueue(s, t);
    HonestIgnoresQueue(s, t);
    hide KeysOk, HonestOk;
  }

  /** What must not happen: the row's Update and the Pull button do not look whether a command is in
      flight, and the poll of the updates does not expect a recreate to be refused at once. */
  predicate IsSafe(tools: Tools, s: State, step: Step) {
    match step
    case UpdateRow(id) => UpdatesIdle(s) || Head(Queue(s.pane.containers, [id])) == Head(s.pane.updating)
    case PullButton(image) => !Open(s, Pulling) || PullHead([image]) == PullHead(s.pane.pullQueue)
    case PollUpdate(_, _) => !IsRefused(tools, s)
    case _ => true
  }

  lemma CollectKeeps(s: State, arrived: map<Key, Answer>)
    requires Inv(s)
    ensures Inv(Waited(s, arrived))
  {
    hide KeysOk, QueueOk, PullOk, FifoOk, HonestOk, Collected;
    WaitedKeeps(s, arrived);
  }

  lemma TransportKeeps(s: State, on: bool)
    requires Inv(s)
    ensures Inv(s.(access := s.access.(transport := on)))
  {
    var t := s.(access := s.access.(transport := on));
    assert forall key :: IsRunning(t.access, key) == IsRunning(s.access, key);
    HonestIgnoresQueue(s, t);
    hide IsRunning, HonestOk, NoRepeats, AreApart;
  }

  lemma ListKeeps(s: State, containers: seq<Container>)
    requires Inv(s)
    ensures Inv(s.(pane := s.pane.(containers := containers)))
  {
    KeysIgnoreQueue(s, s.(pane := s.pane.(containers := containers)));
    HonestIgnoresQueue(s, s.(pane := s.pane.(containers := containers)));
    hide KeysOk, HonestOk, NoRepeats;
  }

  lemma UpdateAllKeeps(tools: Tools, s: State)
    requires Inv(s)
    ensures Inv(Apply(tools, s, UpdateAll))
  {
    hide KeysOk, PullOk, HonestOk, Queued;
    if s.pane.stale != [] && s.pane.updating == [] {
      QueueKeepsExactly(s, s.pane.stale);
    }
  }

  lemma CheckUpdatesKeeps(tools: Tools, s: State, images: seq<string>)
    requires Inv(s)
    ensures Inv(Apply(tools, s, CheckUpdates(images)))
  {
    hide KeysOk, QueueOk, FifoOkIf, HonestOk, PullQueued;
    if s.pane.pullQueue == [] {
      PullKeepsExactly(s, images);
    }
  }

  /** One step keeps the protocol exactly when it is safe. */
  lemma StepKeepsExactly(tools: Tools, s: State, step: Step)
    requires Inv(s)
    ensures Inv(Apply(tools, s, step)) <==> IsSafe(tools, s, step)
  {
    hide Inv, PolledPull, PolledUpdate, Collected, IsRefused, Queued, PullQueued, Queue, UpdatesIdle, Open, Head;
    match step {
      case Collect(arrived) => CollectKeeps(s, arrived);
      case PollPull(arrived) => PolledPullKeeps(tools, s, arrived);
      case PollUpdate(atRecreate, atInspect) =>
        if IsRefused(tools, s) {
          RefusalBreaks(tools, s, atRecreate, atInspect);
        } else {
          PolledUpdateKeeps(tools, s, atRecreate, atInspect);
        }
      case Transport(on) => TransportKeeps(s, on);
      case List(containers) => ListKeeps(s, containers);
      case UpdateAll => UpdateAllKeeps(tools, s);
      case UpdateRow(id) => QueueKeepsExactly(s, [id]);
      case CheckUpdates(images) => CheckUpdatesKeeps(tools, s, images);
      case PullButton(image) => PullKeepsExactly(s, [image]);
    }
  }

  ghost predicate KeptThroughout(tools: Tools, transport: bool, steps: seq<Step>) {
    && Inv(Run(tools, Fresh(transport), steps))
    && (steps != [] ==> KeptThroughout(tools, transport, steps[..|steps| - 1]))
  }

  /** Every step from `s` on is safe where it is taken. */
  predicate SafeFrom(tools: Tools, s: State, steps: seq<Step>) {
    steps != [] ==>
      var before := steps[..|steps| - 1];
      SafeFrom(tools, s, before) && IsSafe(tools, Run(tools, s, before), steps[|steps| - 1])
  }

  /** In every run, with commands ending at any time, within polls and between them, and the transport
      going and coming, the invariant holds at every moment, what is in flight being for the head of its
      queue, exactly when every step was safe. */
  lemma {:induction false} ProtocolHoldsInRuns(tools: Tools, transport: bool, steps: seq<Step>)
    ensures KeptThroughout(tools, transport, steps) <==> SafeFrom(tools, Fresh(transport), steps)
    decreases |steps|
  {
    hide Inv, Apply, IsSafe;
    if steps == [] {
      FreshKeeps(transport);
    } else {
      var before := steps[..|steps| - 1];
      ProtocolHoldsInRuns(tools, transport, before);
      if KeptThroughout(tools, transport, before) {
        StepKeepsExactly(tools, Run(tools, Fresh(transport), before), steps[|steps| - 1]);
      }
    }
  }

  lemma FreshKeeps(transport: bool)
    ensures Inv(Fresh(transport))
  {
  }

  // ---------------------------------------------------------------- what an honest record says

  function Acts(acts: seq<Act>, key: Key, asked: bool): nat {
    if acts == [] then 0
    else
      var last := acts[|acts| - 1];
      Acts(acts[..|acts| - 1], key, asked) + if last.key == key && last.Asked? == asked then 1 else 0
  }

  /** As many answers are read as requests went out, but for the one that may still be out. */
  lemma {:induction false} AnsweredAtMostOnce(acts: seq<Act>, key: Key)
    requires IsHonest(acts)
    ensures Acts(acts, key, true) == Acts(acts, key, false) + if Asking(acts, key).Some? then 1 else 0
  {
    if acts != [] {
      AnsweredAtMostOnce(acts[..|acts| - 1], key);
    }
  }

  lemma {:induction false} AskedSince(acts: seq<Act>, key: Key) returns (i: nat)
    requires Asking(acts, key).Some?
    ensures i < |acts| && acts[i].Asked? && acts[i].key == key && acts[i].about == Asking(acts, key).value
    ensures forall k :: i < k < |acts| ==> acts[k].key != key
  {
    var before, last := acts[..|acts| - 1], acts[|acts| - 1];
    if last.key != key {
      i := AskedSince(before, key);
      assert before[i] == acts[i];
      forall k | i < k < |acts|
        ensures acts[k].key != key
      {
        assert k < |before| ==> acts[k] == before[k];
      }
    } else {
      i := |acts| - 1;
    }
  }

  /** Every answer that is read belongs to the last request under its key, and is credited to the
      container or image that request was for. */
  lemma {:induction false} AnswersAreCredited(acts: seq<Act>, j: nat) returns (i: nat)
    requires IsHonest(acts) && j < |acts| && acts[j].Took?
    ensures i < j && acts[i].Asked? && acts[i].key == acts[j].key && acts[i].about == acts[j].about
    ensures acts[j].credited == Some(acts[j].about)
    ensures forall k :: i < k < j ==> acts[k].key != acts[j].key
    decreases |acts|
  {
    var before := acts[..|acts| - 1];
    if j < |acts| - 1 {
      assert before[j] == acts[j];
      i := AnswersAreCredited(before, j);
      assert forall k :: 0 <= k < |before| ==> before[k] == acts[k];
    } else {
      i := AskedSince(before, acts[j].key);
      assert forall k :: 0 <= k < |before| ==> before[k] == acts[k];
    }
  }

  lemma {:induction false} HonestBefore(acts: seq<Act>, more: seq<Act>)
    requires IsHonest(acts + more)
    ensures IsHonest(acts)
    decreases |more|
  {
    if more == [] {
      assert acts + more == acts;
    } else {
      assert (acts + more)[..|acts + more| - 1] == acts + more[..|more| - 1];
      HonestBefore(acts, more[..|more| - 1]);
    }
  }

  lemma StaysDishonest(acts: seq<Act>, later: seq<Act>)
    requires acts <= later && !IsHonest(acts)
    ensures !IsHonest(later)
  {
    assert acts + later[|acts|..] == later;
    if IsHonest(later) {
      HonestBefore(acts, later[|acts|..]);
    }
  }

  /** What `t` did since `s` has nothing to do with `k`. */
  predicate LeavesAlone(s: State, t: State, k: Key) {
    && s.trace.acts <= t.trace.acts && t.pane.updating == s.pane.updating
    && Open(t, k) == Open(s, k) && AboutOf(t, k) == AboutOf(s, k)
    && CanTake(t.access, t.pane, k) == CanTake(s.access, s.pane, k)
    && AreApart(t.access.pending) && !IsRunning(t.access, k)
  }

  lemma TookPullLeavesUpdates(tools: Tools, s: State, k: Key)
    requires k != Pulling && AreApart(s.access.pending) && !IsRunning(s.access, k)
    ensures LeavesAlone(s, TookPull(tools, s), k)
  {
    hide OutcomeOf, MarkedStale, IsRunning, AreApart;
  }

  lemma WaitedLeavesAnswered(s: State, arrived: map<Key, Answer>, k: Key)
    requires AreApart(s.access.pending) && !IsRunning(s.access, k)
    ensures LeavesAlone(s, Waited(s, arrived), k)
  {
    CollectedIs(s.access, arrived, k);
    hide IsRunning, Collected, AreApart;
  }

  lemma RanLeavesOthers(s: State, key: Key, about: string, command: string, k: Key)
    requires k != key && AreApart(s.access.pending) && !IsRunning(s.access, k) && !IsRunning(s.access, key)
    ensures LeavesAlone(s, Ran(s, key, about, command), k)
  {
    ExecutedKeepsAccess(s.access, key, command);
    ExecutedRuns(s.access, key, command, k);
    ExecutedAnswers(s.access, key, command, k);
    hide IsRunning, Executed, AreApart;
  }

  lemma PullLeavesUpdates(tools: Tools, s: State, arrived: map<Key, Answer>, k: Key)
    requires k != Pulling && AreApart(s.access.pending) && !IsRunning(s.access, k)
    ensures LeavesAlone(s, PolledPull(tools, s, arrived), k)
  {
    hide TookPull, Ran, IsRunning, CanTake, Open, AboutOf, AreApart, Collected;
    TookPullLeavesUpdates(tools, s, k);
    var u := TookPull(tools, s);
    if u.pane.pullQueue != [] && !IsRunning(u.access, Pulling) {
      WaitedLeavesAnswered(u, arrived, k);
      WaitedLeavesAnswered(u, arrived, Pulling);
      RanLeavesOthers(Waited(u, arrived), Pulling, u.pane.pullQueue[0], tools.pullCommand(u.pane.pullQueue[0]), k);
    }
  }

  lemma ExecutedAnswers(access: Access, key: Key, command: string, k: Key)
    ensures var next := Executed(access, key, command);
      k != key ==>
        && (k in next.results <==> k in access.results)
        && (k in access.results ==> next.results[k] == access.results[k])
  {
  }

  lemma TakenWrongly(s: State, key: Key, credited: Option<string>, later: seq<Act>)
    requires credited != Some(AboutOf(s, key)) && TakenFor(s, key, credited).trace.acts <= later
    ensures !IsHonest(later)
  {
    var acts := TakenFor(s, key, credited).trace.acts;
    assert !IsHonest(acts);
    StaysDishonest(acts, later);
  }

  lemma TookInspectCredits(tools: Tools, s: State, arrived: map<Key, Answer>)
    requires CanTake(s.access, s.pane, Inspecting) && Head(s.pane.updating) != Some(AboutOf(s, Inspecting))
    ensures !IsHonest(TookInspect(tools, s, arrived).trace.acts)
  {
    hide OutcomeOf, CanTake, Executed, IsHonest, Place, Collected, AboutOf;
    TakenWrongly(s, Inspecting, Head(s.pane.updating), TookInspect(tools, s, arrived).trace.acts);
  }

  lemma TookUpdateCredits(s: State)
    requires CanTake(s.access, s.pane, Updating) && Head(s.pane.updating) != Some(AboutOf(s, Updating))
    ensures !IsHonest(TookUpdate(s).trace.acts)
  {
    hide OutcomeOf, CanTake, IsHonest, AboutOf;
    TakenWrongly(s, Updating, Head(s.pane.updating), TookUpdate(s).trace.acts);
  }

  lemma TookInspectAppends(tools: Tools, s: State, arrived: map<Key, Answer>)
    ensures s.trace.acts <= TookInspect(tools, s, arrived).trace.acts
  {
    hide OutcomeOf, CanTake, Executed, Place, Collected, AboutOf;
  }

  lemma StartedNextAppends(tools: Tools, s: State, arrived: map<Key, Answer>)
    ensures s.trace.acts <= StartedNext(tools, s, arrived).trace.acts
  {
    hide Executed, IsRunning, FirstWaiting, WithoutUpdate, Collected;
  }

  /** An answer that is read for the head of the update queue but was asked for another container. */
  lemma PolledUpdateCredits(tools: Tools, s: State, atRecreate: map<Key, Answer>, atInspect: map<Key, Answer>)
    requires
      || (CanTake(s.access, s.pane, Updating) && Head(s.pane.updating) != Some(AboutOf(s, Updating)))
      || (var u := TookUpdate(s);
          CanTake(u.access, u.pane, Inspecting) && Head(u.pane.updating) != Some(AboutOf(u, Inspecting)))
    ensures !IsHonest(PolledUpdate(tools, s, atRecreate, atInspect).trace.acts)
  {
    hide CanTake, AboutOf, TookUpdate, TookInspect, StartedNext, IsHonest;
    var u := TookUpdate(s);
    var v := TookInspect(tools, u, atRecreate);
    TookInspectAppends(tools, u, atRecreate);
    StartedNextAppends(tools, v, atInspect);
    if CanTake(s.access, s.pane, Updating) && Head(s.pane.updating) != Some(AboutOf(s, Updating)) {
      TookUpdateCredits(s);
      StaysDishonest(u.trace.acts, v.trace.acts);
    } else {
      TookInspectCredits(tools, u, atRecreate);
    }
    StaysDishonest(v.trace.acts, StartedNext(tools, v, atInspect).trace.acts);
  }

  lemma TookUpdateShifts(s: State)
    requires CanTake(s.access, s.pane, Updating) && s.pane.updating != []
    ensures var u := TookUpdate(s);
      && u.pane.updating == s.pane.updating[1..] && AboutOf(u, Inspecting) == AboutOf(s, Inspecting)
      && CanTake(u.access, u.pane, Inspecting) == CanTake(s.access, s.pane, Inspecting)
  {
    hide OutcomeOf, IsRunning;
  }

  /** What a refused recreate leads to: the next poll reads both refusals, the first takes the
      container off the queue, and the second is credited to whatever came next. */
  lemma RefusedRecreateMiscredits(tools: Tools, s: State, first: Step, pull: Step, second: Step)
    requires Inv(s) && IsRefused(tools, s) && first.PollUpdate? && pull.PollPull? && second.PollUpdate?
    ensures !IsHonest(Apply(tools, Apply(tools, Apply(tools, s, first), pull), second).trace.acts)
  {
    PolledRefusal(tools, s, first.atRecreate, first.atInspect);
    RefusalKeepsKeys(tools, s, first.atRecreate, first.atInspect);
    hide Inv, IsRefused, CanTake, AboutOf, Open, TookUpdate, IsHonest, PolledUpdate, PolledPull, KeysOk, IsRunning;
    var w := PolledUpdate(tools, s, first.atRecreate, first.atInspect);
    var id := s.pane.updating[0].id;
    PullLeavesUpdates(tools, w, pull.arrived, Updating);
    PullLeavesUpdates(tools, w, pull.arrived, Inspecting);
    var x := PolledPull(tools, w, pull.arrived);
    if tools.inspectCommand(id).Some? {
      TookUpdateShifts(x);
    }
    PolledUpdateCredits(tools, x, second.atRecreate, second.atInspect);
  }

  /** An answer can be read for a head that it is not for. */
  predicate IsForAnother(s: State, key: Key) {
    CanTake(s.access, s.pane, key) && Head(s.pane.updating) != Some(AboutOf(s, key))
  }

  lemma ReadForAnother(tools: Tools, s: State, key: Key, atRecreate: map<Key, Answer>, atInspect: map<Key, Answer>)
    requires key != Pulling && IsForAnother(s, key)
    requires !CanTake(s.access, s.pane, if key == Updating then Inspecting else Updating)
    ensures !IsHonest(PolledUpdate(tools, s, atRecreate, atInspect).trace.acts)
  {
    hide CanTake, AboutOf, PolledUpdate, IsHonest, Head;
    if key == Inspecting {
      assert TookUpdate(s) == s;
    }
    PolledUpdateCredits(tools, s, atRecreate, atInspect);
  }

  /** What a replaced queue leads to: the answer that is out, or waits to be read, is credited to another
      container. */
  lemma ReplacedQueueMiscredits(tools: Tools, s: State, ids: seq<string>, key: Key, answer: Answer,
                                pull: Step, update: Step)
    requires Inv(s) && Open(s, key) && key != Pulling && pull.PollPull? && update.PollUpdate?
    requires Head(Queue(s.pane.containers, ids)) != Head(s.pane.updating)
    ensures var t := Apply(tools, Queued(s, ids), Collect(map[key := answer]));
      !IsHonest(Apply(tools, Apply(tools, t, pull), update).trace.acts)
  {
    var t := Waited(Queued(s, ids), map[key := answer]);
    var other := if key == Updating then Inspecting else Updating;
    ReplacedIsForAnother(s, ids, key, s.access.transport, answer);
    assert s.access.(transport := s.access.transport) == s.access;
    hide Inv, CanTake, Open, AboutOf, Queue, Queued, Collected, IsHonest, IsRunning, PolledUpdate, PolledPull, AreApart;
    PullLeavesUpdates(tools, t, pull.arrived, key);
    PullLeavesUpdates(tools, t, pull.arrived, other);
    ReadForAnother(tools, PolledPull(tools, t, pull.arrived), key, update.atRecreate, update.atInspect);
  }

  lemma ReplacedIsForAnother(s: State, ids: seq<string>, key: Key, on: bool, answer: Answer)
    requires Inv(s) && Open(s, key) && key != Pulling
    requires Head(Queue(s.pane.containers, ids)) != Head(s.pane.updating)
    ensures var u := Queued(s, ids);
      var t, other := Waited(u.(access := u.access.(transport := on)), map[key := answer]),
                      if key == Updating then Inspecting else Updating;
      && IsForAnother(t, key) && !CanTake(t.access, t.pane, other) && AreApart(t.access.pending)
      && !IsRunning(t.access, key) && !IsRunning(t.access, other)
  {
    var other := if key == Updating then Inspecting else Updating;
    assert KeyOk(s, key) && KeyOk(s, other) && !Open(s, other);
    AnsweredCanBeTaken(s, key, on, answer);
    assert forall k :: IsRunning(s.access.(transport := on), k) == IsRunning(s.access, k);
    CollectedIs(s.access.(transport := on), map[key := answer], other);
    hide KeysOk, FifoOkIf, HonestOk, PullOk, Queue, Collected, IsRunning, AreApart;
  }

  lemma AnsweredCanBeTaken(s: State, key: Key, on: bool, answer: Answer)
    requires KeysOk(s) && Open(s, key)
    ensures var access := Collected(s.access.(transport := on), map[key := answer]);
      CanTake(access, s.pane, key) && !IsRunning(access, key) && AreApart(access.pending)
  {
    assert KeyOk(s, key);
    assert IsRunning(s.access.(transport := on), key) == IsRunning(s.access, key);
    CollectedIs(s.access.(transport := on), map[key := answer], key);
    hide Collected, IsRunning, AreApart;
  }

  /** Likewise for a pull: its answer is credited to the image that took the head's place. */
  lemma ReplacedPullMiscredits(tools: Tools, s: State, images: seq<string>, answer: Answer, pull: Step)
    requires Inv(s) && Open(s, Pulling) && pull.PollPull?
    requires PullHead(images) != PullHead(s.pane.pullQueue)
    ensures var t := Apply(tools, PullQueued(s, images), Collect(map[Pulling := answer]));
      !IsHonest(Apply(tools, t, pull).trace.acts)
  {
    AnsweredCanBeTaken(s, Pulling, s.access.transport, answer);
    var t := Apply(tools, PullQueued(s, images), Collect(map[Pulling := answer]));
    assert AboutOf(t, Pulling) == AboutOf(s, Pulling);
    hide KeysOk, FifoOkIf, HonestOk, QueueOk, IsHonest, IsRunning, AboutOf, Collected;
    PolledPullAppends(tools, t, pull.arrived);
    TakenWrongly(t, Pulling, PullHead(t.pane.pullQueue), PolledPull(tools, t, pull.arrived).trace.acts);
  }

  lemma PolledPullAppends(tools: Tools, s: State, arrived: map<Key, Answer>)
    requires CanTake(s.access, s.pane, Pulling)
    ensures TakenFor(s, Pulling, PullHead(s.pane.pullQueue)).trace.acts <= PolledPull(tools, s, arrived).trace.acts
  {
    hide OutcomeOf, CanTake, Executed, Collected, MarkedStale, IsRunning, AboutOf;
  }

  lemma RefusalKeepsKeys(tools: Tools, s: State, atRecreate: map<Key, Answer>, atInspect: map<Key, Answer>)
    requires Inv(s) && IsRefused(tools, s)
    ensures var next := PolledUpdate(tools, s, atRecreate, atInspect);
      AreApart(next.access.pending) && !IsRunning(next.access, Updating) && !IsRunning(next.access, Inspecting)
  {
    OnlyOneToTake(tools, s);
    RefusedRecreate(tools, s, atRecreate);
    var v := TookInspect(tools, s, atRecreate);
    hide Inv, TookUpdate, TookInspect, IsRefused;
    CollectedIs(v.access, atInspect, Updating);
    CollectedIs(v.access, atInspect, Inspecting);
    hide IsRunning, Collected, KeyOk;
    RefusedStart(tools, v, atInspect);
  }

  lemma RefusedStart(tools: Tools, v: State, arrived: map<Key, Answer>)
    requires !v.access.transport && v.pane.updating != []
    ensures var next, pending := StartedNext(tools, v, arrived).access.pending, v.access.pending;
      next == pending || next == Collected(v.access, arrived).pending
  {
    hide IsRunning;
  }

  // ---------------------------------------------------------------- what can still come to the record

  /** Whatever safe steps follow, no answer is ever credited to another than it is for. */
  ghost predicate NeverMiscredits(tools: Tools, s: State) {
    forall steps :: SafeFrom(tools, s, steps) ==> IsHonest(Run(tools, s, steps).trace.acts)
  }

  lemma {:induction false} SafeStepsKeep(tools: Tools, s: State, steps: seq<Step>)
    requires Inv(s) && SafeFrom(tools, s, steps)
    ensures Inv(Run(tools, s, steps))
    decreases |steps|
  {
    hide Inv, Apply, IsSafe;
    if steps != [] {
      SafeStepsKeep(tools, s, steps[..|steps| - 1]);
      StepKeepsExactly(tools, Run(tools, s, steps[..|steps| - 1]), steps[|steps| - 1]);
    }
  }

  lemma KeptNeverMiscredits(tools: Tools, s: State)
    requires Inv(s)
    ensures NeverMiscredits(tools, s)
  {
    forall steps | SafeFrom(tools, s, steps)
      ensures IsHonest(Run(tools, s, steps).trace.acts)
    {
      SafeStepsKeep(tools, s, steps);
      hide KeysOk, QueueOk, PullOk, FifoOk, IsHonest, Run;
    }
  }

  /** Three safe steps after which the record is wrong are enough. */
  lemma ThreeStepsMiscredit(tools: Tools, s: State, a: Step, b: Step, c: Step)
    requires var t := Apply(tools, Apply(tools, s, a), b);
      IsSafe(tools, s, a) && IsSafe(tools, Apply(tools, s, a), b) && IsSafe(tools, t, c)
      && !IsHonest(Apply(tools, t, c).trace.acts)
    ensures !NeverMiscredits(tools, s)
  {
    var steps := [a, b, c];
    assert SafeFrom(tools, s, steps) by {
      RunNone(tools, s);
      hide Apply, IsSafe, IsHonest;
      RunSnoc(tools, s, [], a);
      RunSnoc(tools, s, [a], b);
      assert [a, b, c][..2] == [a] + [b] && ([a] + [b])[..1] == [] + [a] && ([] + [a])[..0] == [];
      assert [] + [a] == [a] && [a] + [b] == [a, b];
      assert SafeFrom(tools, s, []) && SafeFrom(tools, s, [a]) && SafeFrom(tools, s, [a, b]);
    }
    hide SafeFrom, Apply, IsSafe, IsHonest, Run;
    RunThree(tools, s, a, b, c);
  }

  lemma RunNone(tools: Tools, s: State)
    ensures Run(tools, s, []) == s
  {
  }

  const REFUSED := NotRun("")
  const POLL := PollUpdate(NOTHING, NOTHING)

  lemma SafeWithTransport(tools: Tools, s: State)
    requires s.access.transport
    ensures IsSafe(tools, s, POLL)
  {
  }

  /** The transport comes back, the command in flight is refused, and the updates are polled. */
  lemma UnsafeQueueMiscredits(tools: Tools, s: State, id: string)
    requires Inv(s) && !IsSafe(tools, s, UpdateRow(id))
    ensures !NeverMiscredits(tools, Queued(s, [id]))
  {
    var key := if Open(s, Updating) then Updating else Inspecting;
    var u, collect := Queued(s, [id]), Collect(map[key := REFUSED]);
    var back := u.(access := u.access.(transport := true));
    var t := Waited(back, map[key := REFUSED]);
    ReplacedIsForAnother(s, [id], key, true, REFUSED);
    hide Inv, IsForAnother, CanTake, Queue, IsHonest, PolledUpdate, Open, NeverMiscredits, IsRunning, IsRefused,
      AboutOf;
    ReadForAnother(tools, t, key, NOTHING, NOTHING);
    SafeWithTransport(tools, t);
    ThreeStepsMiscredit(tools, u, Transport(true), collect, POLL);
  }

  lemma UnsafePullMiscredits(tools: Tools, s: State, image: string)
    requires Inv(s) && !IsSafe(tools, s, PullButton(image))
    ensures !NeverMiscredits(tools, PullQueued(s, [image]))
  {
    var u, collect := PullQueued(s, [image]), Collect(map[Pulling := REFUSED]);
    hide Inv, IsHonest, PolledPull, Open, NeverMiscredits, Collected;
    ReplacedPullMiscredits(tools, s, [image], REFUSED, PollPull(NOTHING));
    ThreeStepsMiscredit(tools, u, Collect(map[Pulling := REFUSED]), PollPull(NOTHING), Collect(NOTHING));
  }

  lemma RunningIsOpen(s: State, key: Key)
    requires Inv(s) && IsRunning(s.access, key)
    ensures Open(s, key)
  {
    assert KeyOk(s, key);
    hide IsRunning;
  }

  /** What decides which answer a poll reads does not depend on the transport. */
  lemma TransportIsIgnored(s: State, on: bool, key: Key)
    ensures var t := s.(access := s.access.(transport := on));
      && CanTake(t.access, t.pane, key) == CanTake(s.access, s.pane, key)
      && AboutOf(t, key) == AboutOf(s, key)
  {
    assert IsRunning(s.access.(transport := on), key) == IsRunning(s.access, key);
    hide IsRunning;
  }

  /** After a refused recreate, a poll with the transport back credits one of the refusals wrongly. */
  lemma RefusalReadWrongly(tools: Tools, s: State, poll: Step)
    requires Inv(s) && poll.PollUpdate? && IsRefused(tools, s)
    ensures var w := PolledUpdate(tools, s, poll.atRecreate, poll.atInspect);
      !IsHonest(PolledUpdate(tools, w.(access := w.access.(transport := true)), NOTHING, NOTHING).trace.acts)
  {
    PolledRefusal(tools, s, poll.atRecreate, poll.atInspect);
    hide Inv, IsRefused, CanTake, AboutOf, Open, TookUpdate, IsHonest, PolledUpdate, Head;
    var w := PolledUpdate(tools, s, poll.atRecreate, poll.atInspect);
    var id, x := s.pane.updating[0].id, w.(access := w.access.(transport := true));
    TransportIsIgnored(w, true, Updating);
    TransportIsIgnored(w, true, Inspecting);
    if tools.inspectCommand(id).Some? {
      TookUpdateShifts(x);
    }
    PolledUpdateCredits(tools, x, NOTHING, NOTHING);
  }

  lemma RefusedPollMiscredits(tools: Tools, s: State, poll: Step)
    requires Inv(s) && poll.PollUpdate? && IsRefused(tools, s)
    ensures !NeverMiscredits(tools, PolledUpdate(tools, s, poll.atRecreate, poll.atInspect))
  {
    hide Inv, IsRefused, IsHonest, PolledUpdate, NeverMiscredits, Collected;
    RefusalReadWrongly(tools, s, poll);
    var w := PolledUpdate(tools, s, poll.atRecreate, poll.atInspect);
    SafeWithTransport(tools, Apply(tools, w, Transport(true)));
    ThreeStepsMiscredit(tools, w, Transport(true), POLL, Collect(NOTHING));
  }

  /** A step is safe exactly when, whatever safe steps follow it, no answer is ever credited wrongly. */
  lemma SafeNeverMiscreditsExactly(tools: Tools, s: State, step: Step)
    requires Inv(s)
    ensures NeverMiscredits(tools, Apply(tools, s, step)) <==> IsSafe(tools, s, step)
  {
    hide Inv, NeverMiscredits, PolledPull, PolledUpdate, Collected, Queued, PullQueued, IsRefused;
    if IsSafe(tools, s, step) {
      StepKeepsExactly(tools, s, step);
      KeptNeverMiscredits(tools, Apply(tools, s, step));
    } else {
      match step {
        case UpdateRow(id) => UnsafeQueueMiscredits(tools, s, id);
        case PullButton(image) => UnsafePullMiscredits(tools, s, image);
        case PollUpdate(_, _) => RefusedPollMiscredits(tools, s, step);
      }
    }
  }

  ghost predicate NeverMiscreditsThroughout(tools: Tools, transport: bool, steps: seq<Step>) {
    && NeverMiscredits(tools, Run(tools, Fresh(transport), steps))
    && (steps != [] ==> NeverMiscreditsThroughout(tools, transport, steps[..|steps| - 1]))
  }

  /** The same of whole runs, told by the record alone: at every moment no safe continuation credits an
      answer wrongly, exactly when every step was safe. */
  lemma {:induction false} RunsNeverMiscreditExactly(tools: Tools, transport: bool, steps: seq<Step>)
    ensures NeverMiscreditsThroughout(tools, transport, steps) <==> SafeFrom(tools, Fresh(transport), steps)
    decreases |steps|
  {
    hide Inv, Apply, IsSafe, NeverMiscredits, Fresh;
    if steps == [] {
      FreshKeeps(transport);
      KeptNeverMiscredits(tools, Fresh(transport));
    } else {
      var before := steps[..|steps| - 1];
      RunsNeverMiscreditExactly(tools, transport, before);
      if SafeFrom(tools, Fresh(transport), before) {
        FreshKeeps(transport);
        SafeStepsKeep(tools, Fresh(transport), before);
        SafeNeverMiscreditsExactly(tools, Run(tools, Fresh(transport), before), steps[|steps| - 1]);
      }
    }
  }

  // ---------------------------------------------------------------- whose command runs

  /** What was last sent under `key`. */
  function LastAsked(acts: seq<Act>, key: Key): Option<Act> {
    if acts == [] then None
    else
      var last := acts[|acts| - 1];
      if last.Asked? && last.key == key then Some(last) else LastAsked(acts[..|acts| - 1], key)
  }

  /** The recreate sent for `about` is the script for the inspect's output that was just read for it. */
  predicate FollowsInspect(tools: Tools, before: seq<Act>, about: string, command: string) {
    before != [] &&
      var read := before[|before| - 1];
      && read.Took? && read.key == Inspecting && read.credited == Some(about)
      && read.outcome.error == None && tools.recreateScript(read.outcome.stdout) == Some(command)
  }

  /** Every command that was sent is the one for the container or image it was sent for. */
  predicate IsFaithful(tools: Tools, acts: seq<Act>) {
    acts != [] ==>
      var before, last := acts[..|acts| - 1], acts[|acts| - 1];
      && IsFaithful(tools, before)
      && match last {
           case Asked(Pulling, image, command) => command == tools.pullCommand(image)
           case Asked(Inspecting, id, command) => tools.inspectCommand(id) == Some(command)
           case Asked(Updating, id, command) => FollowsInspect(tools, before, id, command)
           case Took(_, _, _, _) => true
         }
  }

  /** The jobs in flight run what was last sent under their keys. */
  predicate JobsOk(s: State) {
    forall job :: job in s.access.pending ==>
      LastAsked(s.trace.acts, job.key) == Some(Asked(job.key, AboutOf(s, job.key), job.command))
  }

  predicate IsCommanded(tools: Tools, s: State) {
    && IsFaithful(tools, s.trace.acts) && AreApart(s.access.pending) && JobsOk(s)
    && (Open(s, Inspecting) ==> !IsRunning(s.access, Updating))
  }

  lemma LastAskedNext(acts: seq<Act>, act: Act, key: Key)
    ensures LastAsked(acts + [act], key) == if act.Asked? && act.key == key then Some(act) else LastAsked(acts, key)
  {
    assert (acts + [act])[..|acts|] == acts;
  }

  lemma WaitedIsCommanded(tools: Tools, s: State, arrived: map<Key, Answer>)
    requires IsCommanded(tools, s)
    ensures IsCommanded(tools, Waited(s, arrived))
  {
    StillOutIs(s.access.pending, arrived);
    CollectedIs(s.access, arrived, Updating);
    hide IsRunning, IsFaithful, LastAsked, AreApart;
  }

  lemma TakenIsCommanded(tools: Tools, s: State, key: Key, credited: Option<string>)
    requires IsCommanded(tools, s)
    ensures IsCommanded(tools, TakenFor(s, key, credited))
  {
    hide IsRunning, OutcomeOf, AreApart, LastAsked, FollowsInspect;
    var act := Took(key, AboutOf(s, key), credited, ReadUnder(s, key));
    forall k
      ensures LastAsked(s.trace.acts + [act], k) == LastAsked(s.trace.acts, k)
    {
      LastAskedNext(s.trace.acts, act, k);
    }
    assert (s.trace.acts + [act])[..|s.trace.acts|] == s.trace.acts;
    assert Open(TakenFor(s, key, credited), Inspecting) ==> Open(s, Inspecting);
  }

  lemma RanIsCommanded(tools: Tools, s: State, key: Key, about: string, command: string)
    requires IsCommanded(tools, s) && !IsRunning(s.access, key)
    requires key == Inspecting ==> !IsRunning(s.access, Updating)
    requires key == Updating ==> !Open(s, Inspecting)
    requires IsFaithful(tools, s.trace.acts + [Asked(key, about, command)])
    ensures IsCommanded(tools, Ran(s, key, about, command))
  {
    ExecutedKeepsAccess(s.access, key, command);
    ExecutedRuns(s.access, key, command, Updating);
    RanJobs(s, key, about, command);
    hide IsRunning, IsFaithful, AreApart, JobsOk, Executed;
  }

  lemma RanJobs(s: State, key: Key, about: string, command: string)
    requires JobsOk(s) && !IsRunning(s.access, key)
    ensures JobsOk(Ran(s, key, about, command))
  {
    var t := Ran(s, key, about, command);
    forall job | job in t.access.pending
      ensures LastAsked(t.trace.acts, job.key) == Some(Asked(job.key, AboutOf(t, job.key), job.command))
    {
      LastAskedNext(s.trace.acts, Asked(key, about, command), job.key);
      if job in s.access.pending {
        var i :| 0 <= i < |s.access.pending| && s.access.pending[i] == job;
        assert s.access.pending[i].key != key;
      }
    }
  }

  /** Nothing else of the state matters to it. */
  lemma CommandedAlike(tools: Tools, s: State, t: State)
    requires IsCommanded(tools, s)
    requires t.access.pending == s.access.pending && t.trace.acts == s.trace.acts && t.trace.about == s.trace.about
    requires t.pane.attempts == s.pane.attempts && t.pane.handled == s.pane.handled
    ensures IsCommanded(tools, t)
  {
    hide IsFaithful, AreApart, LastAsked;
    assert forall key :: AboutOf(t, key) == AboutOf(s, key);
    assert IsRunning(t.access, Updating) == IsRunning(s.access, Updating);
    hide IsRunning;
  }

  lemma TookUpdateIsCommanded(tools: Tools, s: State)
    requires IsCommanded(tools, s)
    ensures IsCommanded(tools, TookUpdate(s))
  {
    hide IsCommanded, CanTake, OutcomeOf;
    if CanTake(s.access, s.pane, Updating) {
      var t := TakenFor(s, Updating, Head(s.pane.updating));
      TakenIsCommanded(tools, s, Updating, Head(s.pane.updating));
      CommandedAlike(tools, t, TookUpdate(s));
    }
  }

  lemma TookPullIsCommanded(tools: Tools, s: State)
    requires IsCommanded(tools, s)
    ensures IsCommanded(tools, TookPull(tools, s))
  {
    hide IsCommanded, CanTake, OutcomeOf, MarkedStale;
    if CanTake(s.access, s.pane, Pulling) {
      var t := TakenFor(s, Pulling, PullHead(s.pane.pullQueue));
      TakenIsCommanded(tools, s, Pulling, PullHead(s.pane.pullQueue));
      CommandedAlike(tools, t, TookPull(tools, s));
    }
  }

  lemma FaithfulNext(tools: Tools, acts: seq<Act>, key: Key, about: string, command: string)
    requires IsFaithful(tools, acts)
    requires match key
      case Pulling => command == tools.pullCommand(about)
      case Inspecting => tools.inspectCommand(about) == Some(command)
      case Updating => FollowsInspect(tools, acts, about, command)
    ensures IsFaithful(tools, acts + [Asked(key, about, command)])
  {
    assert (acts + [Asked(key, about, command)])[..|acts|] == acts;
  }

  lemma PolledPullIsCommanded(tools: Tools, s: State, arrived: map<Key, Answer>)
    requires IsCommanded(tools, s)
    ensures IsCommanded(tools, PolledPull(tools, s, arrived))
  {
    hide TookPull, IsRunning, IsFaithful, JobsOk, AreApart, Open;
    TookPullIsCommanded(tools, s);
    var t := TookPull(tools, s);
    if t.pane.pullQueue != [] && !IsRunning(t.access, Pulling) {
      var image := t.pane.pullQueue[0];
      WaitedIsCommanded(tools, t, arrived);
      CollectedIs(t.access, arrived, Pulling);
      FaithfulNext(tools, t.trace.acts, Pulling, image, tools.pullCommand(image));
      RanIsCommanded(tools, Waited(t, arrived), Pulling, image, tools.pullCommand(image));
    }
  }

  lemma TakenIsClosed(s: State, key: Key, credited: Option<string>)
    ensures !Open(TakenFor(s, key, credited), key)
  {
    hide OutcomeOf;
  }

  lemma TookInspectIsCommanded(tools: Tools, s: State, arrived: map<Key, Answer>)
    requires IsCommanded(tools, s)
    ensures IsCommanded(tools, TookInspect(tools, s, arrived))
  {
    if CanTake(s.access, s.pane, Inspecting) {
      var t := TakenFor(s, Inspecting, Head(s.pane.updating));
      TakenIsCommanded(tools, s, Inspecting, Head(s.pane.updating));
      hide CanTake, OutcomeOf, IsCommanded;
      var outcome := OutcomeOf(s.access.results[Inspecting]);
      if s.pane.updating != [] && outcome.error == None && tools.recreateScript(outcome.stdout).Some? {
        ReadIsCommanded(tools, s, arrived, tools.recreateScript(outcome.stdout).value);
      } else {
        CommandedAlike(tools, t, TookInspect(tools, s, arrived));
      }
    }
  }

  lemma ReadIsCommanded(tools: Tools, s: State, arrived: map<Key, Answer>, script: string)
    requires IsCommanded(tools, s) && CanTake(s.access, s.pane, Inspecting) && s.pane.updating != []
    requires var outcome := OutcomeOf(s.access.results[Inspecting]);
      outcome.error == None && tools.recreateScript(outcome.stdout) == Some(script)
    ensures IsCommanded(tools, RecreateAsked(Waited(TakenFor(s, Inspecting, Head(s.pane.updating)), arrived), script))
  {
    assert Open(s, Inspecting);
    var t := TakenFor(s, Inspecting, Head(s.pane.updating));
    TakenIsCommanded(tools, s, Inspecting, Head(s.pane.updating));
    TakenIsClosed(s, Inspecting, Head(s.pane.updating));
    hide CanTake, OutcomeOf, IsRunning, IsFaithful, JobsOk, AreApart, Open, Collected;
    CollectedIs(t.access, arrived, Updating);
    WaitedIsCommanded(tools, t, arrived);
    RecreateIsCommanded(tools, Waited(t, arrived), script);
  }

  lemma RecreateIsCommanded(tools: Tools, t: State, script: string)
    requires IsCommanded(tools, t) && !Open(t, Inspecting) && t.pane.updating != []
    requires !IsRunning(t.access, Updating)
    requires FollowsInspect(tools, t.trace.acts, t.pane.updating[0].id, script)
    ensures IsCommanded(tools, RecreateAsked(t, script))
  {
    hide IsRunning, IsFaithful, JobsOk, AreApart, FollowsInspect;
    var head := t.pane.updating[0];
    var u := WithUpdating(t, [head.(inspecting := false)] + t.pane.updating[1..]);
    CommandedAlike(tools, t, u);
    FaithfulNext(tools, u.trace.acts, Updating, head.id, script);
    RanIsCommanded(tools, u, Updating, head.id, script);
    CommandedAlike(tools, Ran(u, Updating, head.id, script), RecreateAsked(t, script));
  }

  lemma StartedNextIsCommanded(tools: Tools, s: State, arrived: map<Key, Answer>)
    requires IsCommanded(tools, s)
    ensures IsCommanded(tools, StartedNext(tools, s, arrived))
  {
    hide IsRunning, IsFaithful, JobsOk, AreApart, Open;
    var k := FirstWaiting(s.pane.updating);
    if !IsRunning(s.access, Inspecting) && !IsRunning(s.access, Updating) && k < |s.pane.updating| {
      var next := s.pane.updating[k];
      var t := WithUpdating(s, s.pane.updating[k := next.(inspecting := true)]);
      CommandedAlike(tools, s, t);
      match tools.inspectCommand(next.id) {
        case Some(command) =>
          WaitedIsCommanded(tools, t, arrived);
          CollectedIs(t.access, arrived, Inspecting);
          CollectedIs(t.access, arrived, Updating);
          FaithfulNext(tools, t.trace.acts, Inspecting, next.id, command);
          RanIsCommanded(tools, Waited(t, arrived), Inspecting, next.id, command);
        case None =>
          CommandedAlike(tools, t, StartedNext(tools, s, arrived));
      }
    }
  }

  lemma StepIsCommanded(tools: Tools, s: State, step: Step)
    requires IsCommanded(tools, s)
    ensures IsCommanded(tools, Apply(tools, s, step))
  {
    hide IsCommanded, TookUpdate, TookInspect, StartedNext, PolledPull, Queue, Ids;
    match step {
      case Collect(arrived) => WaitedIsCommanded(tools, s, arrived);
      case PollPull(arrived) => PolledPullIsCommanded(tools, s, arrived);
      case PollUpdate(atRecreate, atInspect) =>
        TookUpdateIsCommanded(tools, s);
        TookInspectIsCommanded(tools, TookUpdate(s), atRecreate);
        StartedNextIsCommanded(tools, TookInspect(tools, TookUpdate(s), atRecreate), atInspect);
      case _ => CommandedAlike(tools, s, Apply(tools, s, step));
    }
  }

  lemma {:induction false} CommandsHoldInRuns(tools: Tools, transport: bool, steps: seq<Step>)
    ensures IsCommanded(tools, Run(tools, Fresh(transport), steps))
    decreases |steps|
  {
    hide IsCommanded, Apply;
    if steps == [] {
      FreshIsCommanded(tools, transport);
    } else {
      CommandsHoldInRuns(tools, transport, steps[..|steps| - 1]);
      StepIsCommanded(tools, Run(tools, Fresh(transport), steps[..|steps| - 1]), steps[|steps| - 1]);
    }
  }

  lemma FreshIsCommanded(tools: Tools, transport: bool)
    ensures IsCommanded(tools, Fresh(transport))
  {
  }

  /** Where in a faithful record a recreate was sent, its inspect was read right before. */
  lemma {:induction false} RecreateWasRead(tools: Tools, acts: seq<Act>, id: string, command: string) returns (k: nat)
    requires IsFaithful(tools, acts) && LastAsked(acts, Updating) == Some(Asked(Updating, id, command))
    ensures k + 1 < |acts| && acts[k + 1] == Asked(Updating, id, command)
    ensures acts[k].Took? && acts[k].key == Inspecting && acts[k].credited == Some(id)
    ensures acts[k].outcome.error == None && tools.recreateScript(acts[k].outcome.stdout) == Some(command)
    decreases |acts|
  {
    var before, last := acts[..|acts| - 1], acts[|acts| - 1];
    if last.Asked? && last.key == Updating {
      assert before != [] && before[|before| - 1] == acts[|acts| - 2];
      k := |acts| - 2;
    } else {
      k := RecreateWasRead(tools, before, id, command);
      assert before[k] == acts[k] && before[k + 1] == acts[k + 1];
    }
  }

  lemma {:induction false} FaithfulAsked(tools: Tools, acts: seq<Act>, key: Key)
    requires IsFaithful(tools, acts) && LastAsked(acts, key).Some?
    ensures var asked := LastAsked(acts, key).value;
      && asked.Asked? && asked.key == key
      && (key == Pulling ==> asked.command == tools.pullCommand(asked.about))
      && (key == Inspecting ==> tools.inspectCommand(asked.about) == Some(asked.command))
    decreases |acts|
  {
    var last := acts[|acts| - 1];
    if !(last.Asked? && last.key == key) {
      FaithfulAsked(tools, acts[..|acts| - 1], key);
    }
  }

  /** In every run, safe or not, a command in flight is the one for the container or image it is in flight
      for: its pull, its inspect, or the script for what its inspect was read to say. */
  lemma JobsRunTheirCommands(tools: Tools, transport: bool, steps: seq<Step>, job: Job)
    requires job in Run(tools, Fresh(transport), steps).access.pending
    ensures var s := Run(tools, Fresh(transport), steps);
      && (job.key == Pulling ==> job.command == tools.pullCommand(AboutOf(s, Pulling)))
      && (job.key == Inspecting ==> tools.inspectCommand(AboutOf(s, Inspecting)) == Some(job.command))
      && (job.key == Updating ==>
            exists k :: 0 <= k < |s.trace.acts| && WasReadAt(tools, s.trace.acts, k, AboutOf(s, Updating), job.command))
  {
    hide Run;
    CommandsHoldInRuns(tools, transport, steps);
    var s := Run(tools, Fresh(transport), steps);
    hide IsFaithful, AboutOf;
    FaithfulAsked(tools, s.trace.acts, job.key);
    if job.key == Updating {
      var k := RecreateWasRead(tools, s.trace.acts, AboutOf(s, Updating), job.command);
      assert WasReadAt(tools, s.trace.acts, k, AboutOf(s, Updating), job.command);
    }
  }

  /** An inspect's output was read for `id`, without error, and it makes `command`. */
  predicate WasReadAt(tools: Tools, acts: seq<Act>, k: nat, id: string, command: string)
    requires k < |acts|
  {
    && acts[k].Took? && acts[k].key == Inspecting && acts[k].credited == Some(id)
    && acts[k].outcome.error == None && tools.recreateScript(acts[k].outcome.stdout) == Some(command)
  }

  // ---------------------------------------------------------------- what an answer does

  /** What is read in a command's output: its text, and an error unless it exited with 0 or without a code;
      what was not run is an error and no text. */
  lemma OutcomeIs(answer: Answer)
    ensures var outcome := OutcomeOf(ResultOf(answer));
      match answer
      case NotRun(reason) => outcome == Outcome("", Some(reason))
      case Ended(output) =>
        && outcome.stdout == output.stdout
        && (outcome.error == None <==> output.code == None || output.code == Some(0))
        && (outcome.error.Some? && output.errorLine.Some? ==> outcome.error == output.errorLine)
  {
  }

  /** A recreate's answer takes the head off the queue, and off the stale ones if it went well. */
  lemma RecreateAnswered(s: State)
    requires CanTake(s.access, s.pane, Updating) && s.pane.updating != []
    ensures var next, outcome := TookUpdate(s), OutcomeOf(s.access.results[Updating]);
      && next.pane.updating == s.pane.updating[1..]
      && (outcome.error.Some? ==> next.pane.stale == s.pane.stale)
      && (outcome.error.None? ==>
            forall id :: id in next.pane.stale <==> id in s.pane.stale && id != s.pane.updating[0].id)
      && next.access == s.access && next.pane.pullQueue == s.pane.pullQueue
  {
    hide OutcomeOf;
    WithoutIs(s.pane.stale, s.pane.updating[0].id);
  }

  /** An inspect's answer sends the head's recreate if it went well and makes a script, and takes the head off
      the queue if not. */
  lemma InspectAnswered(tools: Tools, s: State, arrived: map<Key, Answer>)
    requires CanTake(s.access, s.pane, Inspecting) && s.pane.updating != []
    ensures var next, outcome := TookInspect(tools, s, arrived), OutcomeOf(s.access.results[Inspecting]);
      var head, rest := s.pane.updating[0], s.pane.updating[1..];
      var script := tools.recreateScript(outcome.stdout);
      if outcome.error == None && script.Some? then
        && next.pane.updating == [Update(head.id, head.name, false)] + rest
        && next.access == Executed(Collected(s.access, arrived), Updating, script.value)
        && next.trace.acts != [] && next.trace.acts[|next.trace.acts| - 1] == Asked(Updating, head.id, script.value)
      else next.pane.updating == rest && next.access == s.access
  {
    hide OutcomeOf, Executed, Collected;
  }

  /** A pull's answer: an error gives the whole queue up; otherwise the head leaves it, and if its image was
      newer the containers that run it are stale. */
  lemma PullAnswered(tools: Tools, s: State)
    requires CanTake(s.access, s.pane, Pulling) && s.pane.pullQueue != []
    ensures var next, outcome := TookPull(tools, s), OutcomeOf(s.access.results[Pulling]);
      && next.pane.pullQueue == (if outcome.error.Some? then [] else s.pane.pullQueue[1..])
      && next.pane.updating == s.pane.updating && next.access == s.access
      && forall id :: id in next.pane.stale <==>
           || id in s.pane.stale
           || (outcome.error.None? && tools.pulledNewer(outcome.stdout)
               && exists i :: 0 <= i < |s.pane.containers| && s.pane.containers[i].id == id
                              && s.pane.containers[i].image == s.pane.pullQueue[0])
  {
    hide OutcomeOf, MarkedStale;
    MarkedStaleIs(s.pane.containers, s.pane.pullQueue[0], s.pane.stale);
  }

  lemma {:induction false} MarkedStaleIs(containers: seq<Container>, image: string, stale: seq<string>)
    ensures forall id :: id in MarkedStale(containers, image, stale) <==>
      || id in stale
      || exists i :: 0 <= i < |containers| && containers[i].id == id && containers[i].image == image
  {
    if containers != [] {
      var before := containers[..|containers| - 1];
      MarkedStaleIs(before, image, stale);
      assert forall i :: 0 <= i < |before| ==> before[i] == containers[i];
    }
  }

  predicate IsFirstWaiting(updating: seq<Update>, k: int) {
    && 0 <= k < |updating| && !updating[k].inspecting
    && forall j :: 0 <= j < k ==> updating[j].inspecting
  }

  /** What a poll sends of its own: the pull of the queue's head if none is in flight, and, if neither an
      inspect nor a recreate is, the inspect of the first container that waits. */
  lemma PollSends(tools: Tools, s: State, arrived: map<Key, Answer>)
    ensures var t := TookPull(tools, s);
      t.pane.pullQueue != [] && !IsRunning(t.access, Pulling) ==>
        PolledPull(tools, s, arrived).access
          == Executed(Collected(t.access, arrived), Pulling, tools.pullCommand(t.pane.pullQueue[0]))
    ensures !IsRunning(s.access, Inspecting) && !IsRunning(s.access, Updating) ==>
      forall k :: IsFirstWaiting(s.pane.updating, k) ==>
        var id, next := s.pane.updating[k].id, StartedNext(tools, s, arrived);
        if tools.inspectCommand(id).Some?
        then next.access == Executed(Collected(s.access, arrived), Inspecting, tools.inspectCommand(id).value)
        else next.access == s.access && forall update :: update in next.pane.updating ==> update.id != id
  {
    hide TookPull, IsRunning, Executed, Collected;
    forall k | IsFirstWaiting(s.pane.updating, k)
      ensures FirstWaiting(s.pane.updating) == k
    {
      FirstWaitingIs(s.pane.updating, k);
    }
    var k := FirstWaiting(s.pane.updating);
    if k < |s.pane.updating| {
      var next := s.pane.updating[k];
      WithoutUpdateDrops(s.pane.updating[k := next.(inspecting := true)], next.id);
    }
  }

  lemma {:induction false} FirstWaitingIs(updating: seq<Update>, k: nat)
    requires IsFirstWaiting(updating, k)
    ensures FirstWaiting(updating) == k
  {
    if k > 0 {
      FirstWaitingIs(updating[1..], k - 1);
    }
  }

  lemma {:induction false} WithoutUpdateDrops(updating: seq<Update>, id: string)
    ensures forall update :: update in WithoutUpdate(updating, id) <==> update in updating && update.id != id
  {
    if updating != [] {
      WithoutUpdateDrops(updating[1..], id);
      assert updating == [updating[0]] + updating[1..];
    }
  }

  /** The queue is made of the ids that are listed, in their order, each with its container's name, and each
      waiting. */
  lemma {:induction false} QueueIs(containers: seq<Container>, ids: seq<string>)
    ensures forall update :: update in Queue(containers, ids) ==>
      && !update.inspecting && update.id in ids
      && exists i :: 0 <= i < |containers| && containers[i].id == update.id && containers[i].name == update.name
    ensures forall id :: id in ids && (exists i :: 0 <= i < |containers| && containers[i].id == id) ==>
      exists update :: update in Queue(containers, ids) && update.id == id
  {
    if ids != [] {
      QueueIs(containers, ids[1..]);
      NamedFirst(containers, ids[0]);
      assert ids == [ids[0]] + ids[1..];
      forall id | id in ids && exists i :: 0 <= i < |containers| && containers[i].id == id
        ensures exists update :: update in Queue(containers, ids) && update.id == id
      {
        if id in ids[1..] {
          var update :| update in Queue(containers, ids[1..]) && update.id == id;
          assert update in Queue(containers, ids);
        } else {
          assert Named(containers, ids[0]).value in Queue(containers, ids);
        }
      }
    }
  }

  function ContainerIds(containers: seq<Container>): set<string> {
    set container | container in containers :: container.id
  }

  /** ... and no other order: the listed ids as they were given. */
  lemma {:induction false} QueueKeepsOrder(containers: seq<Container>, ids: seq<string>)
    ensures Ids(Queue(containers, ids)) == Selected(ids, ContainerIds(containers))
  {
    if ids != [] {
      QueueKeepsOrder(containers, ids[1..]);
      NamedFirst(containers, ids[0]);
      ListedIsNamed(containers, ids[0]);
      hide ContainerIds;
      match Named(containers, ids[0]) {
        case None =>
        case Some(update) =>
          assert Ids([update] + Queue(containers, ids[1..])) == [update.id] + Ids(Queue(containers, ids[1..]));
      }
    }
  }

  lemma ListedIsNamed(containers: seq<Container>, id: string)
    ensures id in ContainerIds(containers) <==> exists i :: 0 <= i < |containers| && containers[i].id == id
  {
    forall i | 0 <= i < |containers| && containers[i].id == id
      ensures id in ContainerIds(containers)
    {
      assert containers[i] in containers;
    }
  }

  /** A command that is sent joins those in flight, and what its key answered before is forgotten; without a
      transport it is answered at once, with that reason. The other keys do not notice. */
  lemma ExecutedIs(access: Access, key: Key, command: string)
    ensures var next := Executed(access, key, command);
      && next.transport == access.transport
      && (access.transport ==> next.pending == access.pending + [Job(key, command)] && key !in next.results)
      && (!access.transport ==>
            && next.pending == access.pending && key in next.results
            && next.results[key] == Result(None, Some("commands need a command transport")))
      && forall k :: k != key ==>
           && (k in next.results <==> k in access.results)
           && (k in access.results ==> next.results[k] == access.results[k])
  {
  }

  lemma {:induction false} NamedFirst(containers: seq<Container>, id: string)
    ensures Named(containers, id).Some? <==> exists i :: 0 <= i < |containers| && containers[i].id == id
    ensures Named(containers, id).Some? ==>
      var update := Named(containers, id).value;
      && update.id == id && !update.inspecting
      && exists i :: 0 <= i < |containers| && containers[i].id == id && containers[i].name == update.name
  {
    if containers != [] && containers[0].id != id {
      NamedFirst(containers[1..], id);
      assert forall i :: 0 <= i < |containers[1..]| ==> containers[1..][i] == containers[i + 1];
      assert forall i :: 1 <= i < |containers| ==> containers[i] == containers[1..][i - 1];
    }
  }

  // ---------------------------------------------------------------- two such runs

  lemma RunSnoc(tools: Tools, s: State, steps: seq<Step>, step: Step)
    ensures Run(tools, s, steps + [step]) == Apply(tools, Run(tools, s, steps), step)
  {
    assert (steps + [step])[..|steps|] == steps;
  }

  const NOTHING: map<Key, Answer> := map[]

  function InspectSent(containers: seq<Container>, id: string): seq<Step> {
    [List(containers), UpdateRow(id), PollUpdate(NOTHING, NOTHING)]
  }

  lemma RunThree(tools: Tools, s: State, a: Step, b: Step, c: Step)
    ensures Run(tools, s, [a, b, c]) == Apply(tools, Apply(tools, Apply(tools, s, a), b), c)
  {
    assert Run(tools, s, []) == s;
    hide Apply;
    RunSnoc(tools, s, [], a);
    RunSnoc(tools, s, [a], b);
    RunSnoc(tools, s, [a, b], c);
    assert [] + [a] == [a] && [a] + [b] == [a, b] && [a, b] + [c] == [a, b, c];
  }

  lemma QueueOfOne(containers: seq<Container>)
    requires containers != []
    ensures var first := containers[0];
      Queue(containers, [first.id]) == [Update(first.id, first.name, false)] && NoRepeats([first.id])
  {
    var ids := [containers[0].id];
    assert ids[1..] == [];
    assert Queue(containers, ids[1..]) == [];
    hide Queue;
    QueueStep(containers, ids);
  }

  lemma QueueStep(containers: seq<Container>, ids: seq<string>)
    requires ids != []
    ensures Queue(containers, ids) == match Named(containers, ids[0])
                                      case None => Queue(containers, ids[1..])
                                      case Some(update) => [update] + Queue(containers, ids[1..])
  {
  }

  lemma RowIsQueued(tools: Tools, s: State, containers: seq<Container>)
    requires Inv(s) && UpdatesIdle(s) && containers != []
    ensures var id := containers[0].id;
      var t := Apply(tools, Apply(tools, s, List(containers)), UpdateRow(id));
      && Inv(t) && t.access == s.access && t.pane.attempts == s.pane.attempts && t.pane.containers == containers
      && t.pane.updating == [Update(id, containers[0].name, false)]
  {
    hide PolledPull, PolledUpdate, Collected, Named, PullQueued;
    var id := containers[0].id;
    var listed := Apply(tools, s, List(containers));
    assert Apply(tools, listed, UpdateRow(id)) == Queued(listed, [id]);
    QueueOfOne(containers);
    assert UpdatesIdle(listed);
    hide Inv, Queue, UpdatesIdle, Ids, NoRepeats, Head, Apply;
    ListKeeps(s, containers);
    QueueKeepsExactly(listed, [id]);
  }

  /** A row's Update, and the poll that sends its inspect. */
  lemma InspectIsSent(tools: Tools, containers: seq<Container>)
    requires containers != [] && tools.inspectCommand(containers[0].id).Some?
    ensures var s := Run(tools, Fresh(true), InspectSent(containers, containers[0].id));
      && Inv(s) && IsRunning(s.access, Inspecting) && s.pane.containers == containers && s.access.transport
      && Head(s.pane.updating) == Some(containers[0].id)
  {
    var id, start := containers[0].id, Fresh(true);
    FreshKeeps(true);
    assert UpdatesIdle(start) && start.access == Access([], map[], true) && start.pane.attempts == map[];
    hide Fresh;
    var s := Apply(tools, Apply(tools, start, List(containers)), UpdateRow(id));
    RowIsQueued(tools, start, containers);
    FirstPoll(tools, s, Update(id, containers[0].name, false));
    RunThree(tools, start, List(containers), UpdateRow(id), PollUpdate(NOTHING, NOTHING));
    assert !IsRefused(tools, s) by {
      hide Inv, Queue, OutcomeOf;
    }
    hide Inv, Run, PolledUpdate, IsRefused, Queued, IsRunning;
    StepKeepsExactly(tools, s, PollUpdate(NOTHING, NOTHING));
  }

  lemma FirstPoll(tools: Tools, s: State, update: Update)
    requires s.access == Access([], map[], true) && s.pane.attempts == map[] && s.pane.updating == [update]
    requires tools.inspectCommand(update.id).Some? && !update.inspecting
    ensures var t := PolledUpdate(tools, s, NOTHING, NOTHING);
      && IsRunning(t.access, Inspecting) && t.access.transport && t.pane.containers == s.pane.containers
      && Head(t.pane.updating) == Some(update.id)
  {
    var t := PolledUpdate(tools, s, NOTHING, NOTHING);
    assert TookInspect(tools, TookUpdate(s), NOTHING) == s;
    assert FirstWaiting(s.pane.updating) == 0;
    hide TookInspect, TookUpdate, FirstWaiting;
    assert t.access.pending == [Job(Inspecting, tools.inspectCommand(update.id).value)];
    assert t.access.pending[0].key == Inspecting;
  }

  lemma OtherRow(first: Container, second: Container)
    requires first.id != second.id
    ensures Head(Queue([first, second], [second.id])) == Some(second.id)
  {
    assert [first, second][1..] == [second];
    assert Named([first, second], second.id) == Some(Update(second.id, second.name, false));
  }

  /** Update pressed on another row while the first row's inspect is in flight. */
  lemma SecondRowGetsFirstAnswer(tools: Tools, first: Container, second: Container, answer: Answer)
    requires first.id != second.id && tools.inspectCommand(first.id).Some?
    ensures var steps := InspectSent([first, second], first.id)
        + [UpdateRow(second.id)] + [Collect(map[Inspecting := answer])] + [PollPull(NOTHING)]
        + [PollUpdate(NOTHING, NOTHING)];
      !IsHonest(Run(tools, Fresh(true), steps).trace.acts)
  {
    hide Run, IsHonest, Inv, IsRunning, InspectSent, Queue, PolledPull, PolledUpdate, Collected;
    var containers := [first, second];
    var steps := InspectSent(containers, first.id);
    InspectIsSent(tools, containers);
    OtherRow(first, second);
    var s := Run(tools, Fresh(true), steps);
    var update, collect, pull := UpdateRow(second.id), Collect(map[Inspecting := answer]), PollPull(NOTHING);
    RunningIsOpen(s, Inspecting);
    ReplacedQueueMiscredits(tools, s, [second.id], Inspecting, answer, pull, PollUpdate(NOTHING, NOTHING));
    assert Apply(tools, s, update) == Queued(s, [second.id]);
    hide Queued, Apply;
    RunSnoc(tools, Fresh(true), steps, update);
    RunSnoc(tools, Fresh(true), steps + [update], collect);
    RunSnoc(tools, Fresh(true), steps + [update] + [collect], pull);
    RunSnoc(tools, Fresh(true), steps + [update] + [collect] + [pull], PollUpdate(NOTHING, NOTHING));
  }

  /** The transport lost after an inspect ended and before the pane read its answer. */
  lemma LostTransportMiscredits(tools: Tools, container: Container, output: Output)
    requires tools.inspectCommand(container.id).Some? && tools.recreateScript(output.stdout).Some?
    requires output.code == Some(0)
    ensures var steps := InspectSent([container], container.id)
        + [Collect(map[Inspecting := Ended(output)])] + [Transport(false)]
        + [PollUpdate(NOTHING, NOTHING)] + [PollPull(NOTHING)] + [PollUpdate(NOTHING, NOTHING)];
      !IsHonest(Run(tools, Fresh(true), steps).trace.acts)
  {
    var steps, answer := InspectSent([container], container.id), Ended(output);
    InspectIsSent(tools, [container]);
    var s := Run(tools, Fresh(true), steps);
    var t := Apply(tools, s, Collect(map[Inspecting := answer]));
    var u := Apply(tools, t, Transport(false));
    StepKeepsExactly(tools, s, Collect(map[Inspecting := answer]));
    StepKeepsExactly(tools, t, Transport(false));
    AnsweredCanBeTaken(s, Inspecting, s.access.transport, answer);
    CollectedIs(s.access, map[Inspecting := answer], Inspecting);
    assert IsRefused(tools, u) by {
      assert forall key :: IsRunning(u.access, key) == IsRunning(t.access, key);
      hide IsRunning, Collected, Run;
    }
    var poll, pull := PollUpdate(NOTHING, NOTHING), PollPull(NOTHING);
    RefusedRecreateMiscredits(tools, u, poll, pull, poll);
    hide Run, IsHonest, Inv, IsRunning, InspectSent, IsRefused, Apply;
    var collect, lose := Collect(map[Inspecting := answer]), Transport(false);
    RunSnoc(tools, Fresh(true), steps, collect);
    RunSnoc(tools, Fresh(true), steps + [collect], lose);
    RunSnoc(tools, Fresh(true), steps + [collect] + [lose], poll);
    RunSnoc(tools, Fresh(true), steps + [collect] + [lose] + [poll], pull);
    RunSnoc(tools, Fresh(true), steps + [collect] + [lose] + [poll] + [pull], poll);
  }

  // ---------------------------------------------------------------- the objects

  /** The session's side of the commands. */
  class RemoteCommands {
    var pending: seq<Job>
    var results: map<Key, Result>
    var transport: bool

    constructor (transport: bool)
      ensures Now() == Access([], map[], transport)
    {
      pending := [];
      results := map[];
      this.transport := transport;
    }

    ghost function Now(): Access
      reads this
    {
      Access(pending, results, transport)
    }

    /** The session lost its transport, or has one again. */
    method SetTransport(on: bool)
      modifies this`transport
      ensures transport == on
    {
      transport := on;
    }

    /** One pass over the jobs in flight, as `Collected` says. */
    method Collect(arrived: map<Key, Answer>)
      modifies this`pending, this`results
      ensures Now() == Collected(old(Now()), arrived)
    {
      var kept: seq<Job> := [];
      for i := 0 to |pending|
        invariant pending == old(pending)
        invariant kept == StillOut(pending[..i], arrived)
        invariant results == Landed(pending[..i], arrived, old(results))
      {
        assert pending[..i + 1][..i] == pending[..i];
        if pending[i].key in arrived {
          results := results[pending[i].key := ResultOf(arrived[pending[i].key])];
        } else {
          kept := kept + [pending[i]];
        }
      }
      assert pending[..|pending|] == pending;
      pending := kept;
    }

    /** Start a command, once every answer that has arrived is collected. A new command forgets what
        its key answered before. */
    method Exec(key: Key, command: string, arrived: map<Key, Answer>)
      modifies this`pending, this`results
      ensures Now() == Executed(Collected(old(Now()), arrived), key, command)
    {
      Collect(arrived);
      results := results - {key};
      if !transport {
        results := results[key := Result(None, Some(TRANSPORT_ERROR))];
        return;
      }
      pending := pending + [Job(key, command)];
    }

    method IsBusy(key: Key) returns (busy: bool)
      ensures busy == IsRunning(Now(), key)
    {
      var i := 0;
      while i < |pending|
        invariant 0 <= i <= |pending|
        invariant forall j :: 0 <= j < i ==> pending[j].key != key
      {
        if pending[i].key == key {
          return true;
        }
        i := i + 1;
      }
      return false;
    }
  }

  class DockerManager {
    const tools: Tools
    var attempts: map<Key, nat>
    var handled: map<Key, nat>
    var updating: seq<Update>
    var pullQueue: seq<string>
    var stale: seq<string>
    var containers: seq<Container>
    ghost var trace: Trace

    constructor (tools: Tools)
      ensures Here() == Fresh(true).pane && trace == Fresh(true).trace && this.tools == tools
    {
      this.tools := tools;
      attempts, handled := map[], map[];
      updating, pullQueue, stale, containers := [], [], [], [];
      trace := Trace(map[], [], [], []);
    }

    ghost function Here(): Pane
      reads this
    {
      Pane(attempts, handled, updating, pullQueue, stale, containers)
    }

    ghost function Now(access: RemoteCommands): State
      reads this, access
    {
      State(access.Now(), Here(), trace)
    }

    method Run(access: RemoteCommands, key: Key, ghost about: string, command: string, arrived: map<Key, Answer>)
      modifies this, access
      ensures Now(access) == Ran(Waited(old(Now(access)), arrived), key, about, command)
    {
      attempts := attempts[key := Count(attempts, key) + 1];
      access.Exec(key, command, arrived);
      trace := trace.(about := trace.about[key := about], acts := trace.acts + [Asked(key, about, command)]);
    }

    /** The outcome under `key`, once for each request. */
    method Take(access: RemoteCommands, key: Key, ghost credited: Option<string>) returns (outcome: Option<Outcome>)
      modifies this
      ensures outcome == if old(CanTake(access.Now(), Here(), key)) then Some(OutcomeOf(access.results[key])) else None
      ensures Now(access) == if outcome.Some? then TakenFor(old(Now(access)), key, credited) else old(Now(access))
    {
      var busy := access.IsBusy(key);
      if busy {
        return None;
      }
      var attempt := Count(attempts, key);
      if attempt == 0 || Count(handled, key) == attempt {
        return None;
      }
      if key !in access.results {
        return None;
      }
      var result := access.results[key];
      if result.output.None? && result.failure.None? {
        return None;
      }
      trace := trace.(acts := trace.acts + [Took(key, AboutOf(Now(access), key), credited, OutcomeOf(result))]);
      handled := handled[key := attempt];
      if result.output.None? {
        return Some(Outcome("", result.failure));
      }
      var error := result.failure;
      if error.None? && result.output.value.code.Some? && result.output.value.code != Some(0) {
        error := if result.output.value.errorLine.Some? then result.output.value.errorLine
                 else Some("docker exited with an error");
      }
      return Some(Outcome(result.output.value.stdout, error));
    }

    method MarkStale(image: string)
      modifies this`stale
      ensures stale == MarkedStale(containers, image, old(stale))
    {
      var i := 0;
      while i < |containers|
        invariant 0 <= i <= |containers|
        invariant stale == MarkedStale(containers[..i], image, old(stale))
      {
        assert containers[..i + 1][..i] == containers[..i];
        if containers[i].image == image && containers[i].id !in stale {
          stale := stale + [containers[i].id];
        }
        i := i + 1;
      }
      assert containers[..i] == containers;
    }

    method PollPull(access: RemoteCommands, arrived: map<Key, Answer>)
      modifies this, access
      ensures Now(access) == PolledPull(tools, old(Now(access)), arrived)
    {
      hide IsRunning, CanTake, OutcomeOf, Executed, MarkedStale, Count, Collected;
      var outcome := Take(access, Pulling, PullHead(pullQueue));
      if outcome.Some? {
        if outcome.value.error.Some? {
          pullQueue := [];
        } else if pullQueue != [] {
          if tools.pulledNewer(outcome.value.stdout) {
            MarkStale(pullQueue[0]);
          }
          pullQueue := pullQueue[1..];
        }
      }
      assert Now(access) == TookPull(tools, old(Now(access)));
      hide TookPull;
      var busy := access.IsBusy(Pulling);
      if pullQueue == [] || busy {
        return;
      }
      Run(access, Pulling, pullQueue[0], tools.pullCommand(pullQueue[0]), arrived);
    }

    /** The first part of an update poll, proved against `TookUpdate`. */
    method TakeUpdate(access: RemoteCommands)
      modifies this
      ensures Now(access) == TookUpdate(old(Now(access)))
    {
      hide IsRunning, CanTake, OutcomeOf, Count;
      var outcome := Take(access, Updating, Head(updating));
      if outcome.Some? && updating != [] {
        if outcome.value.error.None? {
          stale := Without(stale, updating[0].id);
        }
        updating := updating[1..];
      }
    }

    /** The second: the inspect that feeds it. */
    method TakeInspect(access: RemoteCommands, arrived: map<Key, Answer>)
      modifies this, access
      ensures Now(access) == TookInspect(tools, old(Now(access)), arrived)
    {
      hide IsRunning, CanTake, OutcomeOf, Executed, Count, Collected;
      var outcome := Take(access, Inspecting, Head(updating));
      if outcome.Some? && updating != [] {
        var script := tools.recreateScript(outcome.value.stdout);
        if outcome.value.error.None? && script.Some? {
          var id := updating[0].id;
          updating := [updating[0].(inspecting := false)] + updating[1..];
          Run(access, Updating, id, script.value, arrived);
          trace := trace.(recreated := trace.recreated + [Place(Now(access))]);
        } else {
          updating := updating[1..];
        }
      }
    }

    /** The third: the next container's inspect. */
    method StartNext(access: RemoteCommands, arrived: map<Key, Answer>)
      modifies this, access
      ensures Now(access) == StartedNext(tools, old(Now(access)), arrived)
    {
      hide IsRunning, Executed, Count, Collected;
      var inspecting := access.IsBusy(Inspecting);
      var recreating := access.IsBusy(Updating);
      if inspecting || recreating {
        return;
      }
      var k := 0;
      while k < |updating| && updating[k].inspecting
        invariant 0 <= k <= |updating|
        invariant FirstWaiting(updating) == k + FirstWaiting(updating[k..])
      {
        assert updating[k..][1..] == updating[k + 1..];
        k := k + 1;
      }
      assert k == FirstWaiting(updating);
      if k == |updating| {
        return;
      }
      var id := updating[k].id;
      updating := updating[k := updating[k].(inspecting := true)];
      var command := tools.inspectCommand(id);
      if command.Some? {
        Run(access, Inspecting, id, command.value, arrived);
      } else {
        updating := WithoutUpdate(updating, id);
      }
    }

    method PollUpdate(access: RemoteCommands, atRecreate: map<Key, Answer>, atInspect: map<Key, Answer>)
      modifies this, access
      ensures Now(access) == PolledUpdate(tools, old(Now(access)), atRecreate, atInspect)
    {
      hide TookUpdate, TookInspect, StartedNext;
      TakeUpdate(access);
      TakeInspect(access, atRecreate);
      StartNext(access, atInspect);
    }

    method QueueUpdates(ids: seq<string>)
      modifies this
      ensures forall access :: State(access, Here(), trace) == Queued(State(access, old(Here()), old(trace)), ids)
    {
      var queue := [];
      var i := 0;
      while i < |ids|
        invariant 0 <= i <= |ids|
        invariant Queue(containers, ids) == queue + Queue(containers, ids[i..])
      {
        assert ids[i..][1..] == ids[i + 1..];
        var found := Named(containers, ids[i]);
        if found.Some? {
          queue := queue + [found.value];
        }
        i := i + 1;
      }
      updating := queue;
      trace := trace.(queued := Ids(queue), recreated := []);
    }
  }
}
