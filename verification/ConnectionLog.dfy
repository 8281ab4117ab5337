/** The Connection Logger pane: a capped log of what happened to a host's session, kept in storage
    and folded from the session's events. */
module ConnectionLog {
  import opened Options

  datatype Status =
    | IdleStatus | ConnectingStatus | AwaitingHostKeyStatus | AuthenticatingStatus | ConnectedStatus
    | ReconnectingStatus | DisconnectedStatus | ClosedStatus | FailedStatus

  datatype Kind = Connected | Reconnecting | Disconnected | Failed

  datatype Event = Event(atMs: nat, status: Status, message: Option<string>)

  datatype Entry = Entry(atMs: nat, kind: Kind, message: Option<string>, durationMs: Option<nat>)

  /** The log and when the current connection started. */
  datatype Log = Log(entries: seq<Entry>, connectedSince: Option<nat>)

  const DEFAULT_MAX_ENTRIES: nat := 500
  const EMPTY := Log([], None)

  function KindOf(status: Status): Option<Kind> {
    match status
    case ConnectedStatus => Some(Connected)
    case ReconnectingStatus => Some(Reconnecting)
    case DisconnectedStatus => Some(Disconnected)
    case FailedStatus => Some(Failed)
    case _ => None
  }

  predicate EndsASession(kind: Kind) {
    kind.Disconnected? || kind.Failed? || kind.Reconnecting?
  }

  function Since(end: nat, start: nat): nat {
    if start <= end then end - start else 0
  }

  // ---------------------------------------------------------------- folding one event

  /** The newest entry says what `event` says. */
  predicate IsRepeat(entries: seq<Entry>, event: Event) {
    && entries != []
    && entries[|entries| - 1].atMs == event.atMs
    && Some(entries[|entries| - 1].kind) == KindOf(event.status)
  }

  predicate IsAdded(entries: seq<Entry>, event: Event) {
    KindOf(event.status).Some? && !IsRepeat(entries, event)
  }

  /** What an event does to a log without a cap. */
  function Appended(log: Log, event: Event): Log {
    match KindOf(event.status)
    case None => log
    case Some(kind) =>
      var since := if kind.Connected? then Some(event.atMs) else log.connectedSince;
      if IsRepeat(log.entries, event) then log.(connectedSince := since)
      else if EndsASession(kind) then
        var duration := if since.Some? then Some(Since(event.atMs, since.value)) else None;
        Log(log.entries + [Entry(event.atMs, kind, event.message, duration)], None)
      else
        Log(log.entries + [Entry(event.atMs, kind, event.message, None)], since)
  }

  function Newest(entries: seq<Entry>, max: nat): seq<Entry> {
    if |entries| > max then entries[|entries| - max..] else entries
  }

  function Merged(log: Log, event: Event, max: nat): Log {
    var next := Appended(log, event);
    if IsAdded(log.entries, event) then next.(entries := Newest(next.entries, max)) else next
  }

  function Absorbed(log: Log, events: seq<Event>, max: nat): Log {
    if events == [] then log
    else Merged(Absorbed(log, events[..|events| - 1], max), events[|events| - 1], max)
  }

  predicate AddsAny(log: Log, events: seq<Event>, max: nat) {
    events != [] &&
      var before := events[..|events| - 1];
      AddsAny(log, before, max) || IsAdded(Absorbed(log, before, max).entries, events[|events| - 1])
  }

  /** The log read back from storage. */
  function Loaded(stored: seq<Entry>): Log {
    if stored != [] && stored[|stored| - 1].kind.Connected? then Log(stored, Some(stored[|stored| - 1].atMs))
    else Log(stored, None)
  }

  /** Storage would give the log back as it is. */
  predicate IsTracked(log: Log) {
    log == Loaded(log.entries)
  }

  /** The cap applies whenever an entry is added, and only then. */
  lemma MergeRespectsCap(log: Log, event: Event, max: nat)
    ensures var next := Merged(log, event, max);
      && (IsAdded(log.entries, event) ==>
            |next.entries| == if |log.entries| < max then |log.entries| + 1 else max)
      && (!IsAdded(log.entries, event) ==> next.entries == log.entries)
  {
  }

  /** The start of the current connection stays what a restart would read back from the log, unless
      the log may keep no entry at all and a connection was just dropped from it. */
  lemma MergeKeepsTrackExactly(log: Log, event: Event, max: nat)
    requires IsTracked(log)
    ensures IsTracked(Merged(log, event, max))
       <==> max > 0 || !IsAdded(log.entries, event) || KindOf(event.status) != Some(Connected)
  {
    if IsAdded(log.entries, event) && max > 0 {
      var next := Appended(log, event).entries;
      assert Newest(next, max)[|Newest(next, max)| - 1] == next[|next| - 1];
    }
  }

  lemma UnaddedChangesNothing(log: Log, event: Event, max: nat)
    requires IsTracked(log) && !IsAdded(log.entries, event)
    ensures Merged(log, event, max) == log
  {
  }

  /** Offering the newest event again, after a restart or not, changes nothing. */
  lemma ReofferChangesNothing(log: Log, event: Event, max: nat, again: nat)
    requires max > 0
    ensures Merged(Merged(log, event, max), event, again) == Merged(log, event, max)
    ensures IsTracked(log) ==>
      Merged(Loaded(Merged(log, event, max).entries), event, again) == Merged(log, event, max)
  {
    var next := Merged(log, event, max);
    if IsTracked(log) {
      MergeKeepsTrackExactly(log, event, max);
    }
    if IsAdded(log.entries, event) {
      var all := Appended(log, event).entries;
      assert next.entries[|next.entries| - 1] == all[|all| - 1];
    }
  }

  /** Which changes make an entry, and what it says: a connection has no duration and starts one; the end of a
      session, lost, failed or retried, lasts from the start that was known, and forgets it. */
  lemma EntriesSay(log: Log, event: Event, max: nat)
    requires max > 0
    ensures event.status in {IdleStatus, ConnectingStatus, AwaitingHostKeyStatus} ==> Merged(log, event, max) == log
    ensures event.status in {AuthenticatingStatus, ClosedStatus} ==> Merged(log, event, max) == log
    ensures event.status.ConnectedStatus? ==> Adds(log, event, max, Connected, None, Some(event.atMs))
    ensures event.status.ReconnectingStatus? ==> Adds(log, event, max, Reconnecting, LastedUntil(log, event.atMs), None)
    ensures event.status.DisconnectedStatus? ==> Adds(log, event, max, Disconnected, LastedUntil(log, event.atMs), None)
    ensures event.status.FailedStatus? ==> Adds(log, event, max, Failed, LastedUntil(log, event.atMs), None)
  {
    hide Adds, LastedUntil;
    if KindOf(event.status).Some? {
      EntrySays(log, event, max, KindOf(event.status).value);
    }
  }

  lemma EntrySays(log: Log, event: Event, max: nat, kind: Kind)
    requires max > 0 && KindOf(event.status) == Some(kind)
    ensures kind.Connected? ==> Adds(log, event, max, kind, None, Some(event.atMs))
    ensures !kind.Connected? ==> Adds(log, event, max, kind, LastedUntil(log, event.atMs), None)
  {
    var next := Appended(log, event).entries;
    if IsAdded(log.entries, event) {
      NewestKeepsLast(next, max);
    }
    hide KindOf, Newest;
  }

  function LastedUntil(log: Log, atMs: nat): Option<nat> {
    match log.connectedSince
    case None => None
    case Some(since) => Some(if atMs >= since then atMs - since else 0)
  }

  /** The event is added as such an entry, unless the newest entry is of the same time and kind: then all
      that may move is the start of the connection. */
  predicate Adds(log: Log, event: Event, max: nat, kind: Kind, duration: Option<nat>, since: Option<nat>) {
    var next, n := Merged(log, event, max), |log.entries|;
    if n > 0 && log.entries[n - 1].atMs == event.atMs && log.entries[n - 1].kind == kind then
      next == Log(log.entries, if kind.Connected? then since else log.connectedSince)
    else
      && next.entries != []
      && next.entries[|next.entries| - 1] == Entry(event.atMs, kind, event.message, duration)
      && next.connectedSince == since
  }

  // ---------------------------------------------------------------- what the log says

  /** What an entry must say after `before`: the time since `before`, when that opened a connection. */
  function DurationAfter(before: Entry, atMs: nat, kind: Kind): Option<nat> {
    if EndsASession(kind) && before.kind.Connected? then Some(Since(atMs, before.atMs)) else None
  }

  predicate Follows(before: Entry, entry: Entry) {
    && entry.durationMs == DurationAfter(before, entry.atMs, entry.kind)
    && !(before.atMs == entry.atMs && before.kind == entry.kind)
  }

  /** Neighbours never repeat each other, and the durations follow from the neighbours. */
  predicate IsCoherent(entries: seq<Entry>) {
    forall i :: 1 <= i < |entries| ==> Follows(entries[i - 1], entries[i])
  }

  predicate IsSorted(entries: seq<Entry>) {
    forall i, j :: 0 <= i < j < |entries| ==> entries[i].atMs <= entries[j].atMs
  }

  lemma MergeKeepsCoherence(log: Log, event: Event, max: nat)
    requires IsTracked(log) && IsCoherent(log.entries)
    ensures IsCoherent(Merged(log, event, max).entries)
  {
    var next := Appended(log, event).entries;
    assert IsCoherent(next) by {
      forall i | 1 <= i < |next|
        ensures Follows(next[i - 1], next[i])
      {
        if i < |log.entries| {
          assert Follows(log.entries[i - 1], log.entries[i]);
        }
      }
    }
    forall i | 1 <= i < |Newest(next, max)|
      ensures Follows(Newest(next, max)[i - 1], Newest(next, max)[i])
    {
      var k := |next| - |Newest(next, max)| + i;
      assert Newest(next, max)[i] == next[k] && Newest(next, max)[i - 1] == next[k - 1];
    }
  }

  lemma NewestIsSorted(entries: seq<Entry>, max: nat)
    requires IsSorted(entries)
    ensures IsSorted(Newest(entries, max))
  {
    var newest := Newest(entries, max);
    forall i, j | 0 <= i < j < |newest|
      ensures newest[i].atMs <= newest[j].atMs
    {
      assert newest[i] == entries[|entries| - |newest| + i] && newest[j] == entries[|entries| - |newest| + j];
    }
  }

  /** Events that come in order make a log in order. */
  lemma MergeKeepsOrder(log: Log, event: Event, max: nat)
    requires IsSorted(log.entries)
    requires log.entries != [] ==> log.entries[|log.entries| - 1].atMs <= event.atMs
    ensures IsSorted(Merged(log, event, max).entries)
  {
    hide IsRepeat, EndsASession, Newest;
    var next := Appended(log, event).entries;
    assert next == log.entries || (|next| == |log.entries| + 1 && next[..|log.entries|] == log.entries
                                   && next[|log.entries|].atMs == event.atMs);
    hide Appended;
    forall i, j | 0 <= i < j < |next|
      ensures next[i].atMs <= next[j].atMs
    {
      assert i < |log.entries| && next[i] == log.entries[i];
      assert next[i].atMs <= log.entries[|log.entries| - 1].atMs;
    }
    NewestIsSorted(next, max);
  }

  // ---------------------------------------------------------------- the cap against no cap

  function AppendedAll(log: Log, events: seq<Event>): Log {
    if events == [] then log
    else Appended(AppendedAll(log, events[..|events| - 1]), events[|events| - 1])
  }

  /** `log` is what is left of `full` when only its newest entries are kept. */
  predicate IsEndOf(log: Log, full: Log) {
    && log.connectedSince == full.connectedSince
    && |log.entries| <= |full.entries|
    && log.entries == full.entries[|full.entries| - |log.entries|..]
    && (log.entries == [] ==> full.entries == [])
  }

  lemma LastIsShared(log: Log, full: Log)
    requires IsEndOf(log, full) && log.entries != []
    ensures log.entries[|log.entries| - 1] == full.entries[|full.entries| - 1]
  {
  }

  /** The same event adds the same entry to two logs that agree on the current connection. */
  lemma AppendAddsSame(log: Log, full: Log, event: Event) returns (entry: Entry)
    requires log.connectedSince == full.connectedSince
    requires IsAdded(log.entries, event) && IsAdded(full.entries, event)
    ensures Appended(log, event).entries == log.entries + [entry]
    ensures Appended(full, event).entries == full.entries + [entry]
    ensures Appended(log, event).connectedSince == Appended(full, event).connectedSince
  {
    hide IsRepeat, EndsASession, KindOf, Since;
    entry := Appended(log, event).entries[|log.entries|];
  }

  lemma AppendSkipsSame(log: Log, full: Log, event: Event)
    requires log.connectedSince == full.connectedSince
    requires !IsAdded(log.entries, event) && !IsAdded(full.entries, event)
    ensures Appended(log, event).entries == log.entries && Appended(full, event).entries == full.entries
    ensures Appended(log, event).connectedSince == Appended(full, event).connectedSince
  {
    hide IsRepeat, EndsASession, KindOf, Since;
  }

  lemma RepeatsAlike(log: Log, full: Log, event: Event)
    requires IsEndOf(log, full)
    ensures IsAdded(log.entries, event) <==> IsAdded(full.entries, event)
  {
    hide KindOf;
    if log.entries != [] {
      LastIsShared(log, full);
    }
  }

  lemma AppendKeepsEnd(log: Log, full: Log, event: Event)
    requires IsEndOf(log, full)
    ensures IsEndOf(Appended(log, event), Appended(full, event))
    ensures IsAdded(log.entries, event) <==> IsAdded(full.entries, event)
  {
    hide Appended, IsAdded;
    RepeatsAlike(log, full, event);
    if IsAdded(log.entries, event) {
      var entry := AppendAddsSame(log, full, event);
      var d := |full.entries| - |log.entries|;
      assert (full.entries + [entry])[d..] == full.entries[d..] + [entry];
    } else {
      AppendSkipsSame(log, full, event);
    }
  }

  lemma CapKeepsEnd(log: Log, full: Log, max: nat)
    requires IsEndOf(log, full) && max > 0
    ensures IsEndOf(log.(entries := Newest(log.entries, max)), full)
  {
    var n, m := |log.entries|, |full.entries|;
    if n > max {
      assert log.entries[n - max..] == full.entries[m - n..][n - max..] == full.entries[m - max..];
    }
  }

  lemma MergeKeepsNewest(log: Log, full: Log, event: Event, max: nat)
    requires IsEndOf(log, full) && max > 0
    ensures IsEndOf(Merged(log, event, max), Appended(full, event))
    ensures IsAdded(log.entries, event) <==> IsAdded(full.entries, event)
  {
    hide Appended, IsAdded, Newest, IsEndOf;
    AppendKeepsEnd(log, full, event);
    CapKeepsEnd(Appended(log, event), Appended(full, event), max);
  }

  /** The cap only forgets: whatever is offered, the log is the end of the log that was never
      capped, as long as the cap allows, and knows as much about the current connection. */
  lemma {:induction false} CapOnlyForgets(events: seq<Event>, max: nat)
    requires max > 0
    ensures IsEndOf(Absorbed(EMPTY, events, max), AppendedAll(EMPTY, events))
    ensures Absorbed(EMPTY, events, max).entries == Newest(AppendedAll(EMPTY, events).entries, max)
    decreases |events|
  {
    if events != [] {
      var before, event := events[..|events| - 1], events[|events| - 1];
      CapOnlyForgets(before, max);
      var log, full := Absorbed(EMPTY, before, max), AppendedAll(EMPTY, before);
      MergeKeepsNewest(log, full, event, max);
      MergeRespectsCap(log, event, max);
    }
  }

  // ---------------------------------------------------------------- the same history again

  predicate IsLogged(event: Event) {
    KindOf(event.status).Some?
  }

  predicate SameChange(event: Event, other: Event) {
    event.atMs == other.atMs && KindOf(event.status) == KindOf(other.status)
  }

  /** Two of the events are worth an entry and say different things. */
  predicate HasTwoChanges(events: seq<Event>) {
    exists i, j :: 0 <= i < |events| && 0 <= j < |events|
      && IsLogged(events[i]) && IsLogged(events[j]) && !SameChange(events[i], events[j])
  }

  /** Events add nothing exactly when the newest entry already says what each of them says. */
  lemma {:induction false} AddsNothingExactly(log: Log, events: seq<Event>, max: nat)
    ensures !AddsAny(log, events, max) <==> forall i :: 0 <= i < |events| ==> !IsAdded(log.entries, events[i])
    ensures !AddsAny(log, events, max) ==> Absorbed(log, events, max).entries == log.entries
    decreases |events|
  {
    hide IsAdded, Appended, Newest;
    if events != [] {
      var before, event := events[..|events| - 1], events[|events| - 1];
      AddsNothingExactly(log, before, max);
      assert forall i :: 0 <= i < |before| ==> before[i] == events[i];
      assert events[|before|] == event;
      MergeRespectsCap(Absorbed(log, before, max), event, max);
    }
  }

  lemma MergedIsNewest(log: Log, event: Event, max: nat)
    requires max > 0 && IsLogged(event)
    ensures IsRepeat(Merged(log, event, max).entries, event)
  {
    if IsAdded(log.entries, event) {
      var all := Appended(log, event).entries;
      assert Newest(all, max)[|Newest(all, max)| - 1] == all[|all| - 1];
    }
  }

  lemma RepeatsAgree(entries: seq<Entry>, event: Event, other: Event)
    requires IsRepeat(entries, event) && IsLogged(event) && IsLogged(other)
    ensures IsRepeat(entries, other) <==> SameChange(event, other)
  {
  }

  /** The newest entry says what the last event worth an entry says. */
  lemma {:induction false} LastChangeIsNewest(log: Log, events: seq<Event>, max: nat) returns (k: int)
    requires max > 0
    ensures -1 <= k < |events|
    ensures k >= 0 ==> IsLogged(events[k]) && IsRepeat(Absorbed(log, events, max).entries, events[k])
    ensures forall i :: k < i < |events| ==> !IsLogged(events[i])
    decreases |events|
  {
    hide IsLogged, IsRepeat, Appended, Newest;
    k := -1;
    if events != [] {
      var before, event := events[..|events| - 1], events[|events| - 1];
      if IsLogged(event) {
        MergedIsNewest(Absorbed(log, before, max), event, max);
        k := |events| - 1;
      } else {
        k := LastChangeIsNewest(log, before, max);
        UnloggedIsIgnored(Absorbed(log, before, max), event, max);
        assert forall i :: 0 <= i < |before| ==> before[i] == events[i];
      }
    }
  }

  lemma UnloggedIsIgnored(log: Log, event: Event, max: nat)
    requires !IsLogged(event)
    ensures Merged(log, event, max) == log
  {
  }

  /** The session offers its whole history with every frame, so the events of one frame come again with
      the next. Then entries are added once more exactly when the history holds two different changes. */
  lemma HistoryAddsAgainExactly(log: Log, history: seq<Event>, max: nat, again: nat)
    requires max > 0
    ensures AddsAny(Absorbed(log, history, max), history, again) <==> HasTwoChanges(history)
  {
    hide IsRepeat, SameChange, Absorbed, AddsAny, Appended, Newest;
    var after := Absorbed(log, history, max);
    AddsNothingExactly(after, history, again);
    var k := LastChangeIsNewest(log, history, max);
    if k >= 0 {
      forall i | 0 <= i < |history| && IsLogged(history[i])
        ensures IsAdded(after.entries, history[i]) <==> !SameChange(history[k], history[i])
      {
        RepeatsAgree(after.entries, history[k], history[i]);
      }
      ChangesAgree(history, k);
    }
  }

  lemma ChangesAgree(events: seq<Event>, k: nat)
    requires k < |events| && IsLogged(events[k])
    ensures HasTwoChanges(events)
       <==> exists i :: 0 <= i < |events| && IsLogged(events[i]) && !SameChange(events[k], events[i])
  {
  }

  predicate AreAtOnce(events: seq<Event>) {
    forall i, j :: 0 <= i < |events| && 0 <= j < |events| && IsLogged(events[i]) && IsLogged(events[j]) ==>
      events[i].atMs == events[j].atMs
  }

  // ---------------------------------------------------------------- the pane over its life

  /** The pane with what it keeps in storage; it loads the log when it is first shown. */
  datatype Pane = Pane(store: seq<Entry>, log: Log, loaded: bool)

  /** A frame may offer any events; a session offers its whole record of them each time. */
  datatype Step =
    | Show(enabled: bool, events: seq<Event>, setting: Option<nat>, cleared: bool)
    | Restart

  function MaxEntries(setting: Option<nat>): (max: nat)
    ensures max > 0
  {
    if setting.Some? && setting.value > 0 then setting.value else DEFAULT_MAX_ENTRIES
  }

  /** A setting of zero, or none, stands for 500. */
  lemma SettingsMean(setting: Option<nat>)
    ensures setting == None || setting == Some(0) ==> MaxEntries(setting) == 500
    ensures setting.Some? && setting.value > 0 ==> MaxEntries(setting) == setting.value
  {
  }

  function View(pane: Pane): Log {
    if pane.loaded then pane.log else Loaded(pane.store)
  }

  function Shown(pane: Pane, enabled: bool, events: seq<Event>, max: nat, cleared: bool): Pane {
    var log := View(pane);
    var absorbed := if enabled then Absorbed(log, events, max) else log;
    var store := if enabled && AddsAny(log, events, max) then absorbed.entries else pane.store;
    if cleared then Pane([], EMPTY, true) else Pane(store, absorbed, true)
  }

  /** A frame in which the log is cleared leaves nothing, shown or stored; otherwise a frame in which the log
      is switched off changes neither, and any other shows the log with the events folded in. */
  lemma FramesShow(pane: Pane, enabled: bool, events: seq<Event>, max: nat, cleared: bool)
    ensures var next := Shown(pane, enabled, events, max, cleared);
      && next.loaded
      && (cleared ==> next.store == [] && View(next) == Log([], None))
      && (!cleared && !enabled ==> next.store == pane.store && View(next) == View(pane))
      && (!cleared && enabled ==> View(next) == Absorbed(View(pane), events, max))
      && (!cleared && enabled && AddsAny(View(pane), events, max) ==> next.store == View(next).entries)
  {
    hide Absorbed, AddsAny, Loaded;
  }

  function After(pane: Pane, step: Step): Pane {
    match step
    case Show(enabled, events, setting, cleared) => Shown(pane, enabled, events, MaxEntries(setting), cleared)
    case Restart => Pane(pane.store, EMPTY, false)
  }

  function Run(pane: Pane, steps: seq<Step>): Pane {
    if steps == [] then pane else After(Run(pane, steps[..|steps| - 1]), steps[|steps| - 1])
  }

  function WithoutRestarts(steps: seq<Step>): seq<Step> {
    if steps == [] then []
    else WithoutRestarts(steps[..|steps| - 1]) + if steps[|steps| - 1].Restart? then [] else [steps[|steps| - 1]]
  }

  lemma {:induction false} AbsorbKeepsTrack(log: Log, events: seq<Event>, max: nat)
    requires IsTracked(log) && max > 0
    ensures IsTracked(Absorbed(log, events, max))
    ensures !AddsAny(log, events, max) ==> Absorbed(log, events, max) == log
    ensures IsCoherent(log.entries) ==> IsCoherent(Absorbed(log, events, max).entries)
    decreases |events|
  {
    if events != [] {
      var before, event := events[..|events| - 1], events[|events| - 1];
      AbsorbKeepsTrack(log, before, max);
      MergeKeepsTrackExactly(Absorbed(log, before, max), event, max);
      if IsCoherent(log.entries) {
        MergeKeepsCoherence(Absorbed(log, before, max), event, max);
      }
      if !IsAdded(Absorbed(log, before, max).entries, event) {
        UnaddedChangesNothing(Absorbed(log, before, max), event, max);
      }
    }
  }

  /** What the pane shows is what storage holds. */
  predicate IsStored(pane: Pane) {
    View(pane) == Loaded(pane.store)
  }

  lemma StepKeepsStored(pane: Pane, step: Step)
    requires IsStored(pane)
    ensures IsStored(After(pane, step))
    ensures IsCoherent(pane.store) ==> IsCoherent(After(pane, step).store)
  {
    if step.Show? {
      AbsorbKeepsTrack(View(pane), step.events, MaxEntries(step.setting));
    }
  }

  /** Storage alone decides what a step leads to. */
  lemma StoreDecides(pane: Pane, same: Pane, step: Step)
    requires IsStored(pane) && IsStored(same) && pane.store == same.store
    ensures After(pane, step).store == After(same, step).store
  {
    hide Absorbed, AddsAny, Loaded;
  }

  lemma {:induction false} DroppedRestarts(steps: seq<Step>)
    requires steps != []
    ensures var before, last := WithoutRestarts(steps[..|steps| - 1]), steps[|steps| - 1];
      WithoutRestarts(steps) == if last.Restart? then before else before + [last]
  {
  }

  /** A restart at any point of the pane's life goes unnoticed: what is shown and what is stored
      afterwards is what they would be had it never happened. */
  lemma {:induction false} RestartsGoUnnoticed(store: seq<Entry>, steps: seq<Step>)
    ensures var pane, same := Run(Pane(store, EMPTY, false), steps),
                              Run(Pane(store, EMPTY, false), WithoutRestarts(steps));
      && IsStored(pane) && IsStored(same) && pane.store == same.store && View(pane) == View(same)
      && (IsCoherent(store) ==> IsCoherent(pane.store))
    decreases |steps|
  {
    if steps != [] {
      hide After, IsCoherent, WithoutRestarts, Loaded;
      var start, before, last := Pane(store, EMPTY, false), steps[..|steps| - 1], steps[|steps| - 1];
      RestartsGoUnnoticed(store, before);
      DroppedRestarts(steps);
      var pane, same := Run(start, before), Run(start, WithoutRestarts(before));
      StepKeepsStored(pane, last);
      if last.Show? {
        StepKeepsStored(same, last);
        StoreDecides(pane, same, last);
        assert (WithoutRestarts(before) + [last])[..|WithoutRestarts(before)|] == WithoutRestarts(before);
      } else {
        RestartKeepsStore(pane);
      }
    } else {
      assert WithoutRestarts(steps) == [];
    }
  }

  lemma RestartKeepsStore(pane: Pane)
    ensures After(pane, Restart).store == pane.store
  {
  }

  // ---------------------------------------------------------------- the pane beside its session

  const MAX_STATUS_HISTORY: nat := 200

  /** The session's own record of its status changes. */
  function Recorded(history: seq<Event>, now: Event): seq<Event> {
    if !IsLogged(now) || (history != [] && history[|history| - 1].status == now.status) then history
    else if |history| < MAX_STATUS_HISTORY then history + [now]
    else (history + [now])[|history| + 1 - MAX_STATUS_HISTORY..]
  }

  /** One frame of a tab: what the session is at, and how its pane is shown. */
  datatype Frame = Frame(now: Event, enabled: bool, setting: Option<nat>, cleared: bool)

  datatype Tab = Tab(history: seq<Event>, pane: Pane)

  /** A new tab, with what storage holds from before. */
  function Opened(store: seq<Entry>): Tab {
    Tab([], Pane(store, EMPTY, false))
  }

  function Framed(tab: Tab, frame: Frame): Tab {
    var history := Recorded(tab.history, frame.now);
    Tab(history, After(tab.pane, Show(frame.enabled, history, frame.setting, frame.cleared)))
  }

  function Frames(tab: Tab, frames: seq<Frame>): Tab {
    if frames == [] then tab else Framed(Frames(tab, frames[..|frames| - 1]), frames[|frames| - 1])
  }

  predicate IsHistory(history: seq<Event>) {
    && |history| <= MAX_STATUS_HISTORY
    && (forall i :: 0 <= i < |history| ==> IsLogged(history[i]))
    && forall i :: 1 <= i < |history| ==> history[i - 1].status != history[i].status
  }

  lemma RecordKeepsHistory(history: seq<Event>, now: Event)
    requires IsHistory(history)
    ensures IsHistory(Recorded(history, now))
  {
    hide IsLogged;
  }

  /** A status worth an entry that is not the last one noted is noted last, and of more than two hundred the
      oldest go; any other changes nothing. */
  lemma RecordedIs(history: seq<Event>, now: Event)
    requires |history| <= 200
    ensures var next, all := Recorded(history, now), history + [now];
      if now.status in {ConnectedStatus, ReconnectingStatus, DisconnectedStatus, FailedStatus}
         && (history == [] || history[|history| - 1].status != now.status)
      then next == if |all| > 200 then all[|all| - 200..] else all
      else next == history
  {
  }

  lemma {:induction false} FramesKeepHistory(tab: Tab, frames: seq<Frame>)
    requires IsHistory(tab.history)
    ensures IsHistory(Frames(tab, frames).history)
    decreases |frames|
  {
    hide IsHistory, Recorded, After;
    if frames != [] {
      FramesKeepHistory(tab, frames[..|frames| - 1]);
      RecordKeepsHistory(Frames(tab, frames[..|frames| - 1]).history, frames[|frames| - 1].now);
    }
  }

  lemma LongHistoryHasTwo(history: seq<Event>)
    requires IsHistory(history)
    ensures HasTwoChanges(history) <==> |history| >= 2
  {
    if |history| >= 2 {
      assert IsLogged(history[0]) && IsLogged(history[1]) && !SameChange(history[0], history[1]);
    } else {
      hide IsLogged;
    }
  }

  /** A frame in which the status did not change adds to a log that a frame has just brought up to date
      exactly when the session has seen more than one change: from then on every frame adds again. */
  lemma IdleFrameAddsExactly(store: seq<Entry>, frames: seq<Frame>, idle: Frame)
    requires frames != [] && frames[|frames| - 1].enabled && !frames[|frames| - 1].cleared
    ensures var tab := Frames(Opened(store), frames);
      Recorded(tab.history, idle.now) == tab.history ==>
        (AddsAny(View(tab.pane), Recorded(tab.history, idle.now), MaxEntries(idle.setting)) <==> |tab.history| >= 2)
  {
    hide Absorbed, AddsAny, HasTwoChanges, IsHistory, Recorded, MaxEntries, Loaded;
    var start := Opened(store);
    assert IsHistory(start.history) by { EmptyIsHistory(); }
    FramesKeepHistory(start, frames);
    var before, last := Frames(start, frames[..|frames| - 1]), frames[|frames| - 1];
    var tab := Frames(start, frames);
    HistoryAddsAgainExactly(View(before.pane), tab.history, MaxEntries(last.setting), MaxEntries(idle.setting));
    LongHistoryHasTwo(tab.history);
  }

  lemma EmptyIsHistory()
    ensures IsHistory([])
  {
  }

  // ---------------------------------------------------------------- a whole history behind a log

  predicate InOrder(events: seq<Event>) {
    forall i, j :: 0 <= i < j < |events| ==> events[i].atMs <= events[j].atMs
  }

  predicate Says(entry: Entry, event: Event) {
    entry.atMs == event.atMs && Some(entry.kind) == KindOf(event.status)
  }

  predicate EndsWith(entries: seq<Entry>, history: seq<Event>) {
    && |history| <= |entries|
    && forall i :: 0 <= i < |history| ==> Says(entries[|entries| - |history| + i], history[i])
  }

  lemma OtherStatusIsAdded(entries: seq<Entry>, event: Event, next: Event)
    requires entries != [] && Says(entries[|entries| - 1], event)
    requires IsLogged(event) && IsLogged(next) && event.status != next.status
    ensures IsAdded(entries, next)
  {
  }

  lemma AddedIsNewest(log: Log, event: Event, max: nat) returns (entry: Entry)
    requires IsAdded(log.entries, event)
    ensures Says(entry, event) && Merged(log, event, max).entries == Newest(log.entries + [entry], max)
  {
    hide IsRepeat, Newest, EndsASession, Since;
    var all := Appended(log, event).entries;
    entry := all[|log.entries|];
    assert all == log.entries + [entry];
  }

  lemma NewestOfMore(entries: seq<Entry>, entry: Entry, max: nat)
    requires max > 0
    ensures Newest(Newest(entries, max) + [entry], max) == Newest(entries + [entry], max)
  {
  }

  lemma NewestKeepsLast(entries: seq<Entry>, max: nat)
    requires max > 0 && entries != []
    ensures var newest := Newest(entries, max); newest != [] && newest[|newest| - 1] == entries[|entries| - 1]
  {
  }

  /** What a log becomes when a whole history is offered: every change is added behind what was there,
      but for a first one that the log ends with, and the newest entries stay. */
  lemma {:induction false} HistoryIsAppended(log: Log, history: seq<Event>, max: nat) returns (all: seq<Entry>)
    requires IsHistory(history) && history != [] && max > 0
    ensures EndsWith(all, history) && log.entries <= all
    ensures |all| == |log.entries| + |history| - if IsRepeat(log.entries, history[0]) then 1 else 0
    ensures Absorbed(log, history, max).entries == if |all| == |log.entries| then all else Newest(all, max)
    decreases |history|
  {
    hide IsAdded, Newest, Merged, Says, IsLogged;
    var before, event := history[..|history| - 1], history[|history| - 1];
    if before == [] {
      assert history == [event];
      assert Absorbed(log, before, max) == log;
      all := FirstIsAppended(log, event, max);
    } else {
      assert IsHistory(before) by {
        assert forall i :: 0 <= i < |before| ==> before[i] == history[i];
      }
      var most := HistoryIsAppended(log, before, max);
      var entry := NextIsAppended(Absorbed(log, before, max), most, before, event, max);
      all := most + [entry];
      NextEndsWith(most, before, entry, event);
      assert before + [event] == history;
    }
  }

  lemma FirstIsAppended(log: Log, event: Event, max: nat) returns (all: seq<Entry>)
    requires IsLogged(event) && max > 0
    ensures EndsWith(all, [event]) && log.entries <= all
    ensures |all| == |log.entries| + 1 - if IsRepeat(log.entries, event) then 1 else 0
    ensures Merged(log, event, max).entries == if |all| == |log.entries| then all else Newest(all, max)
  {
    hide Newest;
    if IsRepeat(log.entries, event) {
      all := log.entries;
      MergeRespectsCap(log, event, max);
    } else {
      var entry := AddedIsNewest(log, event, max);
      all := log.entries + [entry];
    }
  }

  lemma NextIsAppended(log: Log, most: seq<Entry>, before: seq<Event>, event: Event, max: nat) returns (entry: Entry)
    requires max > 0 && before != [] && EndsWith(most, before)
    requires log.entries == most || log.entries == Newest(most, max)
    requires IsLogged(before[|before| - 1]) && IsLogged(event) && before[|before| - 1].status != event.status
    ensures Says(entry, event) && Merged(log, event, max).entries == Newest(most + [entry], max)
  {
    hide Says, IsLogged, IsAdded, Merged, Newest;
    NewestKeepsLast(most, max);
    assert Says(most[|most| - |before| + (|before| - 1)], before[|before| - 1]);
    OtherStatusIsAdded(log.entries, before[|before| - 1], event);
    entry := AddedIsNewest(log, event, max);
    NewestOfMore(most, entry, max);
  }

  lemma NextEndsWith(most: seq<Entry>, before: seq<Event>, entry: Entry, event: Event)
    requires EndsWith(most, before) && Says(entry, event)
    ensures EndsWith(most + [entry], before + [event])
  {
    hide Says;
    var all, history := most + [entry], before + [event];
    forall i | 0 <= i < |history|
      ensures Says(all[|all| - |history| + i], history[i])
    {
      if i < |before| {
        assert Says(most[|most| - |before| + i], before[i]);
      }
    }
  }

  // ---------------------------------------------------------------- when the log stays in time order

  /** What the cap leaves of a history. */
  function NewestEvents(history: seq<Event>, max: nat): seq<Event> {
    if max <= |history| then history[|history| - max..] else history
  }

  /** The part of the history that the cap leaves is in order, and where it leaves more than that, the
      history begins no earlier than the log ends. */
  predicate StaysInOrder(log: Log, history: seq<Event>, max: nat) {
    && InOrder(NewestEvents(history, max))
    && (max > |history| && log.entries != [] && history != [] ==>
          log.entries[|log.entries| - 1].atMs <= history[0].atMs)
  }

  lemma EndInOrder(entries: seq<Entry>, history: seq<Event>, max: nat)
    requires EndsWith(entries, history) && max <= |history|
    ensures IsSorted(Newest(entries, max)) <==> InOrder(history[|history| - max..])
  {
    var newest, end := Newest(entries, max), history[|history| - max..];
    assert |newest| == |end|;
    forall i | 0 <= i < |end|
      ensures newest[i].atMs == end[i].atMs
    {
      assert Says(entries[|entries| - |history| + (|history| - max + i)], history[|history| - max + i]);
    }
    hide EndsWith, Newest;
  }

  /** With room for the history and more, the newest entries are a part of the log and the history. */
  lemma BothInOrder(entries: seq<Entry>, history: seq<Event>, max: nat, n: nat)
    requires EndsWith(entries, history) && history != [] && max > |history| && n == |entries| - |history|
    requires IsSorted(entries[..n])
    ensures IsSorted(Newest(entries, max))
       <==> InOrder(history) && (n > 0 ==> entries[n - 1].atMs <= history[0].atMs)
  {
    hide EndsWith, Newest, IsSorted, InOrder;
    var newest := Newest(entries, max);
    var cut := CutBehindHistory(entries, history, max, n);
    if IsSorted(newest) {
      SortedPart(newest, history, n - cut);
    } else if InOrder(history) && (n > 0 ==> entries[n - 1].atMs <= history[0].atMs) {
      SortedJoin(newest, entries[..n], history, cut);
    }
  }

  /** Where the cap cuts: in front of the last entry before the history, if there is one. */
  lemma CutBehindHistory(entries: seq<Entry>, history: seq<Event>, max: nat, n: nat) returns (cut: nat)
    requires EndsWith(entries, history) && max > |history| && n == |entries| - |history|
    ensures cut <= n && (n > 0 ==> cut < n)
    ensures var newest := Newest(entries, max);
      && |newest| == n - cut + |history|
      && (forall i :: cut <= i < n ==> newest[i - cut] == entries[i])
      && (forall i :: 0 <= i < |history| ==> newest[n - cut + i].atMs == history[i].atMs)
  {
    var newest := Newest(entries, max);
    cut := |entries| - |newest|;
    assert newest == entries[cut..];
    hide Newest;
    forall i | 0 <= i < |history|
      ensures newest[n - cut + i].atMs == history[i].atMs
    {
      assert Says(entries[|entries| - |history| + i], history[i]);
    }
  }

  lemma SortedPart(entries: seq<Entry>, history: seq<Event>, at: nat)
    requires IsSorted(entries) && history != [] && at + |history| == |entries|
    requires forall i :: 0 <= i < |history| ==> entries[at + i].atMs == history[i].atMs
    ensures InOrder(history) && (at > 0 ==> entries[at - 1].atMs <= history[0].atMs)
  {
    assert entries[at + 0].atMs == history[0].atMs;
    forall i, j | 0 <= i < j < |history|
      ensures history[i].atMs <= history[j].atMs
    {
      assert entries[at + i].atMs <= entries[at + j].atMs;
    }
  }

  lemma SortedJoin(entries: seq<Entry>, before: seq<Entry>, history: seq<Event>, cut: nat)
    requires IsSorted(before) && InOrder(history) && history != [] && cut <= |before|
    requires |entries| == |before| - cut + |history|
    requires before != [] ==> before[|before| - 1].atMs <= history[0].atMs
    requires forall i :: cut <= i < |before| ==> entries[i - cut] == before[i]
    requires forall i :: 0 <= i < |history| ==> entries[|before| - cut + i].atMs == history[i].atMs
    ensures IsSorted(entries)
  {
    var n := |before| - cut;
    forall i, j | 0 <= i < j < |entries|
      ensures entries[i].atMs <= entries[j].atMs
    {
      if i < n {
        assert entries[i] == entries[i + cut - cut] == before[i + cut];
      } else {
        assert entries[n + (i - n)].atMs == history[i - n].atMs;
      }
      if j < n {
        assert entries[j] == entries[j + cut - cut] == before[j + cut];
      } else {
        assert entries[n + (j - n)].atMs == history[j - n].atMs;
      }
    }
  }

  /** A log in time order stays so exactly under this condition, whatever the clock did meanwhile. */
  lemma AbsorbKeepsOrderExactly(log: Log, history: seq<Event>, max: nat)
    requires IsSorted(log.entries) && IsHistory(history) && max > 0
    ensures IsSorted(Absorbed(log, history, max).entries) <==> StaysInOrder(log, history, max)
  {
    if history != [] {
      var all := HistoryIsAppended(log, history, max);
      hide Absorbed, IsHistory;
      if |all| == |log.entries| {
        assert |history| == 1;
      } else if max <= |history| {
        EndInOrder(all, history, max);
      } else {
        BehindInOrder(log, all, history, max);
      }
    }
  }

  lemma BehindInOrder(log: Log, all: seq<Entry>, history: seq<Event>, max: nat)
    requires IsSorted(log.entries) && history != [] && max > |history|
    requires EndsWith(all, history) && log.entries <= all
    requires |all| == |log.entries| + |history| - if IsRepeat(log.entries, history[0]) then 1 else 0
    ensures IsSorted(Newest(all, max)) <==> StaysInOrder(log, history, max)
  {
    var n := |all| - |history|;
    hide KindOf, Newest, EndsWith;
    assert all[..n] == log.entries[..n];
    BothInOrder(all, history, max, n);
  }

  lemma EndMustBeInOrder(all: seq<Entry>, history: seq<Event>, max: nat)
    requires EndsWith(all, history) && history != [] && max > 0 && IsSorted(Newest(all, max))
    ensures InOrder(NewestEvents(history, max))
  {
    hide InOrder, IsSorted, EndsWith, Newest;
    if max <= |history| {
      EndInOrder(all, history, max);
    } else {
      assert |all| >= |history| by { EndIsWithin(all, history); }
      var cut := CutBehindHistory(all, history, max, |all| - |history|);
      SortedPart(Newest(all, max), history, |all| - |history| - cut);
    }
  }

  lemma EndIsWithin(all: seq<Entry>, history: seq<Event>)
    requires EndsWith(all, history)
    ensures |all| >= |history|
  {
  }

  /** It must be in order even behind a log that is not. */
  lemma OrderNeedsTheEnd(log: Log, history: seq<Event>, max: nat)
    requires IsHistory(history) && max > 0 && IsSorted(Absorbed(log, history, max).entries)
    ensures InOrder(NewestEvents(history, max))
  {
    if |history| > 1 {
      var all := HistoryIsAppended(log, history, max);
      hide Absorbed, IsHistory, InOrder, IsSorted, EndsWith, Newest;
      EndMustBeInOrder(all, history, max);
    }
  }

  /** A log that ends with its history stays in order under that history exactly when all its changes
      share one time, or the cap leaves no more than a part of it that is in order. */
  predicate ComesAgainInOrder(history: seq<Event>, max: nat) {
    AreAtOnce(history) || (max <= |history| && InOrder(NewestEvents(history, max)))
  }

  lemma AgainInOrder(log: Log, history: seq<Event>, max: nat)
    requires IsHistory(history) && (history != [] ==> IsRepeat(log.entries, history[|history| - 1]))
    ensures StaysInOrder(log, history, max) <==> ComesAgainInOrder(history, max)
  {
    hide IsLogged, KindOf;
    if AreAtOnce(history) {
      assert InOrder(history);
    } else if history != [] && InOrder(history) && history[|history| - 1].atMs <= history[0].atMs {
      forall i, j | 0 <= i < |history| && 0 <= j < |history|
        ensures history[i].atMs == history[j].atMs
      {
        assert history[0].atMs <= history[i].atMs <= history[|history| - 1].atMs;
        assert history[0].atMs <= history[j].atMs <= history[|history| - 1].atMs;
      }
    }
  }

  lemma HistoryIsNewest(log: Log, history: seq<Event>, max: nat)
    requires IsHistory(history) && history != [] && max > 0
    ensures IsRepeat(Absorbed(log, history, max).entries, history[|history| - 1])
  {
    hide IsRepeat;
    var k := LastChangeIsNewest(log, history, max);
    assert IsLogged(history[|history| - 1]);
    hide IsLogged, Absorbed;
    assert k == |history| - 1;
  }

  lemma NothingIsSorted()
    ensures IsSorted([])
  {
  }

  lemma FirstOutOfOrder(history: seq<Event>, max: nat)
    requires IsHistory(history) && max > 0 && !StaysInOrder(EMPTY, history, max)
    ensures !InOrder(NewestEvents(history, max))
    ensures !ComesAgainInOrder(history, max)
  {
    hide IsLogged, InOrder, AreAtOnce;
    AtOnceIsInOrder(history);
  }

  lemma AtOnceIsInOrder(history: seq<Event>)
    requires IsHistory(history)
    ensures AreAtOnce(history) ==> InOrder(history)
    ensures AreAtOnce(history) ==> forall k :: 0 <= k <= |history| ==> InOrder(history[k..])
  {
    hide IsLogged;
  }

  /** A history that comes twice, under any cap. */
  lemma HistoryAgainIsSortedExactly(history: seq<Event>, max: nat)
    requires IsHistory(history) && max > 0
    ensures IsSorted(Absorbed(Absorbed(EMPTY, history, max), history, max).entries)
       <==> ComesAgainInOrder(history, max)
  {
    hide IsLogged, IsSorted, InOrder, Absorbed, IsRepeat, StaysInOrder;
    var once := Absorbed(EMPTY, history, max);
    assert IsSorted(EMPTY.entries) by { NothingIsSorted(); }
    AbsorbKeepsOrderExactly(EMPTY, history, max);
    if history != [] {
      HistoryIsNewest(EMPTY, history, max);
    }
    if IsSorted(once.entries) {
      AbsorbKeepsOrderExactly(once, history, max);
      AgainInOrder(once, history, max);
    } else {
      FirstOutOfOrder(history, max);
      if IsSorted(Absorbed(once, history, max).entries) {
        OrderNeedsTheEnd(once, history, max);
      }
    }
  }

  lemma FrameShows(tab: Tab, frame: Frame)
    requires frame.enabled && !frame.cleared
    ensures var next := Framed(tab, frame);
      && next.history == Recorded(tab.history, frame.now) && next.pane.loaded
      && next.pane.log == Absorbed(View(tab.pane), next.history, MaxEntries(frame.setting))
  {
    hide Absorbed, AddsAny, Recorded, MaxEntries, Loaded;
  }

  // ---------------------------------------------------------------- the order of the log over the frames

  predicate FrameFits(tab: Tab, frame: Frame) {
    || frame.cleared || !frame.enabled
    || StaysInOrder(View(tab.pane), Recorded(tab.history, frame.now), MaxEntries(frame.setting))
  }

  lemma FrameKeepsOrderExactly(tab: Tab, frame: Frame)
    requires IsHistory(tab.history) && IsSorted(View(tab.pane).entries)
    ensures IsSorted(View(Framed(tab, frame).pane).entries) <==> FrameFits(tab, frame)
  {
    hide StaysInOrder, IsSorted, Absorbed, AddsAny, Recorded, MaxEntries, IsHistory, Loaded;
    RecordKeepsHistory(tab.history, frame.now);
    AbsorbKeepsOrderExactly(View(tab.pane), Recorded(tab.history, frame.now), MaxEntries(frame.setting));
    NothingIsSorted();
  }

  ghost predicate SortedThroughout(store: seq<Entry>, frames: seq<Frame>) {
    && IsSorted(View(Frames(Opened(store), frames).pane).entries)
    && (frames != [] ==> SortedThroughout(store, frames[..|frames| - 1]))
  }

  predicate FramesFit(store: seq<Entry>, frames: seq<Frame>) {
    frames != [] ==>
      var before := frames[..|frames| - 1];
      FramesFit(store, before) && FrameFits(Frames(Opened(store), before), frames[|frames| - 1])
  }

  /** Over any run of frames, whatever the clock, the settings and the stored log: the log is in time
      order at every moment exactly when it was so in storage and every frame fits. */
  lemma {:induction false} OrderHoldsInRuns(store: seq<Entry>, frames: seq<Frame>)
    ensures SortedThroughout(store, frames) <==> IsSorted(store) && FramesFit(store, frames)
    decreases |frames|
  {
    hide IsSorted, FrameFits, Framed, IsHistory;
    if frames == [] {
      LoadsTheStore(store);
    } else {
      var before := frames[..|frames| - 1];
      OrderHoldsInRuns(store, before);
      EmptyIsHistory();
      FramesKeepHistory(Opened(store), before);
      if SortedThroughout(store, before) {
        FrameKeepsOrderExactly(Frames(Opened(store), before), frames[|frames| - 1]);
      }
    }
  }

  lemma LoadsTheStore(store: seq<Entry>)
    ensures View(Opened(store).pane).entries == store
  {
  }

  /** A frame in which the status did not change keeps a log in order that a frame has just brought up
      to date exactly when the history can come again in order. */
  lemma IdleFrameKeepsOrderExactly(store: seq<Entry>, frames: seq<Frame>, idle: Frame)
    requires frames != [] && frames[|frames| - 1].enabled && !frames[|frames| - 1].cleared
    requires idle.enabled && !idle.cleared
    ensures var tab := Frames(Opened(store), frames);
      Recorded(tab.history, idle.now) == tab.history && IsSorted(View(tab.pane).entries) ==>
        (IsSorted(View(Framed(tab, idle).pane).entries)
         <==> ComesAgainInOrder(tab.history, MaxEntries(idle.setting)))
  {
    hide StaysInOrder, IsSorted, Framed, ComesAgainInOrder, IsHistory, Recorded, MaxEntries, IsRepeat;
    EmptyIsHistory();
    FramesKeepHistory(Opened(store), frames);
    var before, last := Frames(Opened(store), frames[..|frames| - 1]), frames[|frames| - 1];
    var tab := Frames(Opened(store), frames);
    FrameShows(before, last);
    assert View(tab.pane) == Absorbed(View(before.pane), tab.history, MaxEntries(last.setting));
    if tab.history != [] {
      HistoryIsNewest(View(before.pane), tab.history, MaxEntries(last.setting));
    }
    if Recorded(tab.history, idle.now) == tab.history && IsSorted(View(tab.pane).entries) {
      FrameKeepsOrderExactly(tab, idle);
      AgainInOrder(View(tab.pane), tab.history, MaxEntries(idle.setting));
    }
  }

  lemma AbsorbsOne(log: Log, event: Event, max: nat)
    ensures Absorbed(log, [event], max) == Merged(log, event, max)
  {
    assert [event][..0] == [];
  }

  lemma AbsorbsTwo(log: Log, event: Event, later: Event, max: nat)
    ensures Absorbed(log, [event, later], max) == Merged(Merged(log, event, max), later, max)
  {
    hide Merged;
    AbsorbsOne(log, event, max);
    assert [event, later][..1] == [event];
  }

  lemma ConnectionAdds(log: Log, up: Event, max: nat)
    requires up.status.ConnectedStatus? && max > |log.entries|
    requires log.entries != [] ==> log.entries[|log.entries| - 1].kind == Disconnected
    ensures Merged(log, up, max)
         == Log(log.entries + [Entry(up.atMs, Connected, up.message, None)], Some(up.atMs))
  {
  }

  lemma LossAdds(log: Log, down: Event, max: nat)
    requires down.status.DisconnectedStatus? && max > |log.entries| && log.connectedSince.Some?
    requires log.entries != [] && log.entries[|log.entries| - 1].kind == Connected
    ensures var since := Since(down.atMs, log.connectedSince.value);
      Merged(log, down, max) == Log(log.entries + [Entry(down.atMs, Disconnected, down.message, Some(since))], None)
  {
    hide Since;
  }

  /** A connection and its loss, folded into a log that already ends with both: they come once more. */
  lemma RepeatsBoth(log: Log, up: Event, down: Event, max: nat)
    requires up.status.ConnectedStatus? && down.status.DisconnectedStatus? && max > |log.entries| + 1
    requires log.entries != [] ==> log.entries[|log.entries| - 1].kind == Disconnected
    ensures var since := Since(down.atMs, up.atMs);
      Absorbed(log, [up, down], max)
      == Log(log.entries + [Entry(up.atMs, Connected, up.message, None)]
             + [Entry(down.atMs, Disconnected, down.message, Some(since))], None)
  {
    hide Merged, Absorbed, Since;
    AbsorbsTwo(log, up, down, max);
    ConnectionAdds(log, up, max);
    LossAdds(Merged(log, up, max), down, max);
  }

  /** A tab that connected and lost its connection, looked at once more. */
  lemma ThirdFrameRepeatsTheLog(up: Frame, down: Frame)
    requires up.enabled && down.enabled && !up.cleared && !down.cleared && up.setting == down.setting == None
    requires up.now.status == ConnectedStatus && down.now.status == DisconnectedStatus
    requires up.now.atMs < down.now.atMs
    ensures var entries := Frames(Opened([]), [up, down, down]).pane.log.entries;
      |entries| == 4 && entries[..2] == entries[2..] && !IsSorted(entries)
  {
    hide MaxEntries, IsSorted, Merged, Absorbed, Framed;
    var start := Opened([]);
    assert [up][..0] == [] && [up, down][..1] == [up] && [up, down, down][..2] == [up, down];
    var first, second, third := Frames(start, [up]), Frames(start, [up, down]), Frames(start, [up, down, down]);
    FrameShows(start, up);
    FrameShows(first, down);
    FrameShows(second, down);
    var history := [up.now, down.now];
    assert Frames(start, []) == start;
    assert first == Framed(start, up) && second == Framed(first, down) && third == Framed(second, down);
    assert first.history == [up.now] && second.history == third.history == history;
    FirstTwoFrames(up.now, down.now, DEFAULT_MAX_ENTRIES);
    assert MaxEntries(None) == DEFAULT_MAX_ENTRIES by { DefaultSetting(); }
    RepeatsBoth(second.pane.log, up.now, down.now, DEFAULT_MAX_ENTRIES);
    OutOfOrder(third.pane.log.entries);
  }

  lemma DefaultSetting()
    ensures MaxEntries(None) == DEFAULT_MAX_ENTRIES
  {
  }

  lemma FirstTwoFrames(up: Event, down: Event, max: nat)
    requires up.status.ConnectedStatus? && down.status.DisconnectedStatus? && max > 1
    ensures Absorbed(Absorbed(EMPTY, [up], max), [up, down], max)
         == Log([Entry(up.atMs, Connected, up.message, None),
                 Entry(down.atMs, Disconnected, down.message, Some(Since(down.atMs, up.atMs)))], None)
  {
    hide Merged, Absorbed, Since;
    AbsorbsOne(EMPTY, up, max);
    ConnectionAdds(EMPTY, up, max);
    var log := Merged(EMPTY, up, max);
    AbsorbsTwo(log, up, down, max);
    ConnectedAgain(log, up, max);
    LossAdds(log, down, max);
  }

  lemma ConnectedAgain(log: Log, up: Event, max: nat)
    requires up.status.ConnectedStatus? && IsRepeat(log.entries, up)
    ensures Merged(log, up, max) == log.(connectedSince := Some(up.atMs))
  {
  }

  lemma OutOfOrder(entries: seq<Entry>)
    requires |entries| > 2 && entries[1].atMs > entries[2].atMs
    ensures !IsSorted(entries)
  {
  }

  // ---------------------------------------------------------------- the object

  /** The part of a session that notes its status changes. */
  class StatusRecord {
    var history: seq<Event>

    constructor ()
      ensures history == []
    {
      history := [];
    }

    /** Once per frame: note the status unless it is the one noted last, and forget the oldest. */
    method RecordStatus(now: Event)
      modifies this
      ensures history == Recorded(old(history), now)
      ensures IsHistory(old(history)) ==> IsHistory(history)
    {
      hide IsHistory;
      if IsHistory(history) {
        RecordKeepsHistory(history, now);
      }
      if KindOf(now.status).None? {
        return;
      }
      if history != [] && history[|history| - 1].status == now.status {
        return;
      }
      history := history + [now];
      if |history| > MAX_STATUS_HISTORY {
        var excess := |history| - MAX_STATUS_HISTORY;
        history := history[excess..];
      }
    }
  }

  class ConnectionLogger {
    var entries: seq<Entry>
    var loaded: bool
    var connectedSince: Option<nat>

    constructor ()
      ensures Now() == EMPTY && !loaded
    {
      entries, loaded, connectedSince := [], false, None;
    }

    ghost function Now(): Log
      reads this
    {
      Log(entries, connectedSince)
    }

    method NoteConnected(atMs: nat)
      modifies this`connectedSince
      ensures connectedSince == Some(atMs)
    {
      connectedSince := Some(atMs);
    }

    /** The log after one more event; the answer tells whether it gained an entry. */
    method Merge(event: Event, max: nat) returns (added: bool)
      modifies this`entries, this`connectedSince
      ensures Now() == Merged(old(Now()), event, max)
      ensures added == IsAdded(old(entries), event)
    {
      var kind := KindOf(event.status);
      if kind.None? {
        return false;
      }
      if kind.value.Connected? {
        NoteConnected(event.atMs);
      }
      if entries != [] {
        var last := entries[|entries| - 1];
        if last.atMs == event.atMs && last.kind == kind.value {
          return false;
        }
      }
      var duration: Option<nat> := None;
      if EndsASession(kind.value) {
        if connectedSince.Some? {
          duration := Some(Since(event.atMs, connectedSince.value));
        }
        connectedSince := None;
      }
      entries := entries + [Entry(event.atMs, kind.value, event.message, duration)];
      if |entries| > max {
        var excess := |entries| - max;
        entries := entries[excess..];
      }
      return true;
    }

    method Clear()
      modifies this`entries, this`connectedSince
      ensures Now() == EMPTY
    {
      entries, connectedSince := [], None;
    }

    method Load(stored: seq<Entry>)
      modifies this
      ensures Now() == Loaded(stored) && loaded
    {
      entries := stored;
      connectedSince := None;
      if entries != [] && entries[|entries| - 1].kind.Connected? {
        connectedSince := Some(entries[|entries| - 1].atMs);
      }
      loaded := true;
    }

    /** The log after a list of events, one by one; the answer tells whether any added an entry. */
    method Absorb(events: seq<Event>, max: nat) returns (changed: bool)
      modifies this`entries, this`connectedSince
      ensures Now() == Absorbed(old(Now()), events, max)
      ensures changed == AddsAny(old(Now()), events, max)
    {
      changed := false;
      var i := 0;
      while i < |events|
        invariant 0 <= i <= |events|
        invariant Now() == Absorbed(old(Now()), events[..i], max)
        invariant changed == AddsAny(old(Now()), events[..i], max)
      {
        assert events[..i + 1][..i] == events[..i];
        var added := Merge(events[i], max);
        changed := changed || added;
        i := i + 1;
      }
      assert events[..i] == events;
    }

    /** One frame: load the log if need be, fold in the events, and clear it when asked to. */
    method ShowFrame(store: seq<Entry>, enabled: bool, events: seq<Event>, setting: Option<nat>, cleared: bool)
      returns (stored: seq<Entry>)
      modifies this
      ensures Pane(stored, Now(), loaded)
           == Shown(Pane(store, old(Now()), old(loaded)), enabled, events, MaxEntries(setting), cleared)
    {
      stored := store;
      if !loaded {
        Load(store);
      }
      if enabled {
        var changed := Absorb(events, MaxEntries(setting));
        if changed {
          stored := entries;
        }
      }
      if cleared {
        Clear();
        stored := entries;
      }
    }
  }
}
