/** What the Connection Logger's graphs say about a window of time. */
module Uptime {
  // The stretches the log divides the window into, the cards above the graph, and the heatmap's
  // hours.

  import opened Options
  import opened ConnectionLog

  datatype Range = Range(startMs: nat, endMs: nat)

  datatype Span = Span(startMs: nat, endMs: nat, kind: Kind, message: Option<string>)

  datatype Summary = Summary(
    uptimePct: real,
    connectedMs: nat,
    disconnectedMs: nat,
    disconnects: nat,
    averageConnectedMs: nat,
    currentDurationMs: nat)

  datatype HourBucket = HourBucket(
    startMs: nat,
    endMs: nat,
    uptimePct: real,
    connectedMs: nat,
    totalMs: nat,
    changes: nat)

  datatype TimeWindow = Hour | SixHours | Day | Week | All

  const HOUR: nat := 3_600_000

  function Max(a: nat, b: nat): nat {
    if a < b then b else a
  }

  function Min(a: nat, b: nat): nat {
    if a < b then a else b
  }

  function Lasts(span: Span): nat {
    Since(span.endMs, span.startMs)
  }

  function RangeLasts(range: Range): (ms: nat)
    ensures ms > 0
  {
    Max(Since(range.endMs, range.startMs), 1)
  }

  function Percent(part: nat, whole: nat): (pct: real)
    requires whole > 0
    ensures 0.0 <= pct <= 100.0
    ensures part <= whole ==> pct == part as real / whole as real * 100.0
    ensures part > whole ==> pct == 100.0
  {
    var pct := part as real / whole as real * 100.0;
    assert part <= whole ==> part as real / whole as real <= 1.0;
    assert part > whole ==> part as real / whole as real > 1.0;
    if pct > 100.0 then 100.0 else pct
  }

  // ---------------------------------------------------------------- the window

  function FixedDuration(window: TimeWindow): Option<nat> {
    match window
    case Hour => Some(HOUR)
    case SixHours => Some(6 * HOUR)
    case Day => Some(24 * HOUR)
    case Week => Some(7 * 24 * HOUR)
    case All => None
  }

  function Earliest(entries: seq<Entry>): Option<nat> {
    if entries == [] then None
    else
      match Earliest(entries[1..])
      case None => Some(entries[0].atMs)
      case Some(rest) => Some(Min(entries[0].atMs, rest))
  }

  function WindowRange(window: TimeWindow, entries: seq<Entry>, now: nat): Range {
    var duration :=
      match FixedDuration(window)
      case Some(fixed) => fixed
      case None =>
        var earliest := if Earliest(entries).Some? then Earliest(entries).value else now;
        Max(Since(now, earliest) + 60_000, HOUR);
    Range(Since(now, duration), now)
  }

  lemma {:induction false} EarliestIsLeast(entries: seq<Entry>, i: nat)
    requires i < |entries|
    ensures Earliest(entries).Some? && Earliest(entries).value <= entries[i].atMs
  {
    if i > 0 {
      EarliestIsLeast(entries[1..], i - 1);
    }
  }

  /** Every window is a proper one, unless the clock stands at zero; a fresh host still gets an
      hour, and the widest window reaches back to every entry. */
  lemma WindowsAreProper(window: TimeWindow, entries: seq<Entry>, now: nat)
    ensures var range := WindowRange(window, entries, now);
      && range.endMs == now
      && (range.startMs < range.endMs <==> now > 0)
      && (now >= HOUR ==> range.endMs - range.startMs >= HOUR)
      && (window.All? ==> forall i :: 0 <= i < |entries| && entries[i].atMs <= now ==> range.startMs <= entries[i].atMs)
  {
    forall i | 0 <= i < |entries|
      ensures Earliest(entries).Some? && Earliest(entries).value <= entries[i].atMs
    {
      EarliestIsLeast(entries, i);
    }
  }

  // ---------------------------------------------------------------- spans

  /** When the state an entry brought ends: with the next entry, or with the window. */
  function NextAt(entries: seq<Entry>, range: Range, i: nat): nat {
    if i + 1 < |entries| then entries[i + 1].atMs else range.endMs
  }

  function EntrySpan(entries: seq<Entry>, range: Range, i: nat): Span
    requires i < |entries|
  {
    Span(Max(entries[i].atMs, range.startMs), Min(NextAt(entries, range, i), range.endMs),
         entries[i].kind, entries[i].message)
  }

  /** The spans of the first `n` entries that show in the window. */
  function SpansOf(entries: seq<Entry>, range: Range, n: nat): seq<Span>
    requires n <= |entries|
  {
    if n == 0 then []
    else
      var span := EntrySpan(entries, range, n - 1);
      SpansOf(entries, range, n - 1) + if span.endMs > span.startMs then [span] else []
  }

  function Spans(entries: seq<Entry>, range: Range, status: Status): seq<Span> {
    if entries == [] then
      [Span(range.startMs, range.endMs, if status.ConnectedStatus? then Connected else Disconnected, None)]
    else SpansOf(entries, range, |entries|)
  }

  method BuildSpans(entries: seq<Entry>, range: Range, status: Status) returns (spans: seq<Span>)
    ensures spans == Spans(entries, range, status)
  {
    if entries == [] {
      var kind := if status == ConnectedStatus then Connected else Disconnected;
      return [Span(range.startMs, range.endMs, kind, None)];
    }
    spans := [];
    for i := 0 to |entries|
      invariant spans == SpansOf(entries, range, i)
    {
      var end := if i + 1 < |entries| then entries[i + 1].atMs else range.endMs;
      var start := Max(entries[i].atMs, range.startMs);
      end := Min(end, range.endMs);
      if end > start {
        spans := spans + [Span(start, end, entries[i].kind, entries[i].message)];
      }
    }
  }

  /** Nothing shown lies outside the window. */
  predicate AreWithin(spans: seq<Span>, range: Range) {
    forall i :: 0 <= i < |spans| ==> range.startMs <= spans[i].startMs && spans[i].endMs <= range.endMs
  }

  lemma {:induction false} SpansAreWithin(entries: seq<Entry>, range: Range, n: nat)
    requires n <= |entries|
    ensures AreWithin(SpansOf(entries, range, n), range)
  {
    if n > 0 {
      SpansAreWithin(entries, range, n - 1);
    }
  }

  // ---------------------------------------------------------------- the cards

  /** How long the spans last that are up, or those that are not. */
  function Lasting(spans: seq<Span>, up: bool): nat {
    if spans == [] then 0
    else
      var last := spans[|spans| - 1];
      Lasting(spans[..|spans| - 1], up) + if last.kind.Connected? == up then Lasts(last) else 0
  }

  function Sessions(spans: seq<Span>): nat {
    if spans == [] then 0
    else Sessions(spans[..|spans| - 1]) + if spans[|spans| - 1].kind.Connected? then 1 else 0
  }

  function Drops(spans: seq<Span>): nat {
    if spans == [] then 0
    else
      var kind := spans[|spans| - 1].kind;
      Drops(spans[..|spans| - 1]) + if kind.Disconnected? || kind.Failed? then 1 else 0
  }

  function SummaryOf(spans: seq<Span>, range: Range, entries: seq<Entry>, now: nat): Summary {
    var connected := Lasting(spans, true);
    Summary(Percent(connected, RangeLasts(range)),
            connected,
            Lasting(spans, false),
            Drops(spans),
            if Sessions(spans) == 0 then 0 else connected / Sessions(spans),
            if entries == [] then 0 else Since(now, entries[|entries| - 1].atMs))
  }

  method Summarise(spans: seq<Span>, range: Range, entries: seq<Entry>, now: nat) returns (summary: Summary)
    ensures summary == SummaryOf(spans, range, entries, now)
  {
    var connected: nat, disconnected: nat, disconnects: nat, sessions: nat := 0, 0, 0, 0;
    for i := 0 to |spans|
      invariant connected == Lasting(spans[..i], true) && disconnected == Lasting(spans[..i], false)
      invariant disconnects == Drops(spans[..i]) && sessions == Sessions(spans[..i])
    {
      assert spans[..i + 1][..i] == spans[..i];
      var duration := Lasts(spans[i]);
      if spans[i].kind == Connected {
        connected := connected + duration;
        sessions := sessions + 1;
      } else {
        disconnected := disconnected + duration;
        if spans[i].kind == Disconnected || spans[i].kind == Failed {
          disconnects := disconnects + 1;
        }
      }
    }
    assert spans[..|spans|] == spans;
    var current := if entries == [] then 0 else Since(now, entries[|entries| - 1].atMs);
    var average := if sessions == 0 then 0 else connected / sessions;
    summary := Summary(Percent(connected, RangeLasts(range)), connected, disconnected, disconnects, average, current);
  }

  // ---------------------------------------------------------------- the hours

  function Overlap(span: Span, from: nat, until: nat): nat {
    Since(Min(until, span.endMs), Max(from, span.startMs))
  }

  /** How much of `[from, until)` the spans cover that are up, or those that are not. */
  function TimeIn(spans: seq<Span>, from: nat, until: nat, up: bool): nat {
    if spans == [] then 0
    else
      var last := spans[|spans| - 1];
      TimeIn(spans[..|spans| - 1], from, until, up)
      + if last.kind.Connected? == up then Overlap(last, from, until) else 0
  }

  function ChangesIn(spans: seq<Span>, from: nat, until: nat): nat {
    if spans == [] then 0
    else
      var last := spans[|spans| - 1];
      ChangesIn(spans[..|spans| - 1], from, until)
      + if !last.kind.Connected? && Overlap(last, from, until) != 0 then 1 else 0
  }

  /** The bucket of one clock hour. */
  function BucketOf(range: Range, spans: seq<Span>, hour: nat): HourBucket {
    var start, end := Max(hour * HOUR, range.startMs), Min((hour + 1) * HOUR, range.endMs);
    var total := Max(Since(end, start), 1);
    var connected := TimeIn(spans, start, end, true);
    HourBucket(start, end, Percent(connected, total), connected, total, ChangesIn(spans, start, end))
  }

  function FirstHour(range: Range): nat {
    range.startMs / HOUR
  }

  function HourCount(range: Range): nat {
    if range.endMs <= FirstHour(range) * HOUR then 0 else (range.endMs - 1) / HOUR - FirstHour(range) + 1
  }

  function Buckets(range: Range, spans: seq<Span>): seq<HourBucket> {
    seq(HourCount(range), k requires 0 <= k < HourCount(range) => BucketOf(range, spans, FirstHour(range) + k))
  }

  method HourlyBuckets(range: Range, spans: seq<Span>) returns (buckets: seq<HourBucket>)
    ensures buckets == Buckets(range, spans)
  {
    buckets := [];
    var start := range.startMs / HOUR * HOUR;
    while start < range.endMs
      invariant start == (FirstHour(range) + |buckets|) * HOUR
      invariant |buckets| <= HourCount(range)
      invariant forall k :: 0 <= k < |buckets| ==> buckets[k] == BucketOf(range, spans, FirstHour(range) + k)
      decreases range.endMs - start
    {
      var bucketStart, bucketEnd := Max(start, range.startMs), Min(start + HOUR, range.endMs);
      var total := Max(Since(bucketEnd, bucketStart), 1);
      var connected: nat, changes: nat := 0, 0;
      for i := 0 to |spans|
        invariant connected == TimeIn(spans[..i], bucketStart, bucketEnd, true)
        invariant changes == ChangesIn(spans[..i], bucketStart, bucketEnd)
      {
        assert spans[..i + 1][..i] == spans[..i];
        var overlap := Since(Min(bucketEnd, spans[i].endMs), Max(bucketStart, spans[i].startMs));
        if overlap != 0 {
          if spans[i].kind == Connected {
            connected := connected + overlap;
          } else {
            changes := changes + 1;
          }
        }
      }
      assert spans[..|spans|] == spans;
      buckets := buckets + [HourBucket(bucketStart, bucketEnd, Percent(connected, total), connected, total, changes)];
      start := start + HOUR;
    }
  }

  lemma HourAt(range: Range, spans: seq<Span>, k: nat)
    requires k < |Buckets(range, spans)|
    ensures var hour := Buckets(range, spans)[k];
      && hour == BucketOf(range, spans, FirstHour(range) + k)
      && range.startMs <= hour.startMs && hour.endMs <= range.endMs && hour.totalMs > 0
      && hour.connectedMs == TimeIn(spans, hour.startMs, hour.endMs, true)
      && hour.uptimePct == Percent(hour.connectedMs, hour.totalMs)
  {
    hide TimeIn, ChangesIn, Percent;
    assert Buckets(range, spans)[k] == BucketOf(range, spans, FirstHour(range) + k);
  }

  lemma HourLiesWithin(range: Range, spans: seq<Span>, k: nat)
    requires range.startMs < range.endMs && k < HourCount(range)
    ensures var hour := BucketOf(range, spans, FirstHour(range) + k);
      && hour.startMs == (if k == 0 then range.startMs else (FirstHour(range) + k) * HOUR)
      && hour.endMs == (if k + 1 == HourCount(range) then range.endMs else (FirstHour(range) + k + 1) * HOUR)
      && hour.startMs < hour.endMs && hour.totalMs == hour.endMs - hour.startMs
      && hour.startMs / HOUR == (hour.endMs - 1) / HOUR
  {
    hide TimeIn, ChangesIn, Percent;
  }

  /** The hours tile the window: they start and end with it, each begins where the one before it
      ended, and each lies within one hour of the clock. */
  lemma HoursTile(range: Range, spans: seq<Span>)
    requires range.startMs < range.endMs
    ensures var hours := Buckets(range, spans);
      && |hours| > 0 && hours[0].startMs == range.startMs && hours[|hours| - 1].endMs == range.endMs
      && (forall k :: 0 <= k < |hours| - 1 ==> hours[k].endMs == hours[k + 1].startMs)
      && (forall k :: 0 <= k < |hours| ==>
            && hours[k].startMs < hours[k].endMs && hours[k].totalMs == hours[k].endMs - hours[k].startMs
            && hours[k].startMs / HOUR == (hours[k].endMs - 1) / HOUR)
  {
    var hours := Buckets(range, spans);
    assert |hours| == HourCount(range) > 0;
    hide BucketOf, HourCount;
    forall k | 0 <= k < |hours|
      ensures hours[k] == BucketOf(range, spans, FirstHour(range) + k)
    {
      HourLiesWithin(range, spans, k);
    }
    forall k | 0 <= k < |hours| - 1
      ensures hours[k].endMs == hours[k + 1].startMs
    {
      HourLiesWithin(range, spans, k);
      HourLiesWithin(range, spans, k + 1);
    }
    HourLiesWithin(range, spans, 0);
    HourLiesWithin(range, spans, |hours| - 1);
    forall k | 0 <= k < |hours|
      ensures hours[k].startMs < hours[k].endMs && hours[k].totalMs == hours[k].endMs - hours[k].startMs
      ensures hours[k].startMs / HOUR == (hours[k].endMs - 1) / HOUR
    {
      HourLiesWithin(range, spans, k);
    }
  }

  lemma {:induction false} TimeSplits(spans: seq<Span>, from: nat, mid: nat, until: nat, up: bool)
    requires from <= mid <= until
    ensures TimeIn(spans, from, until, up) == TimeIn(spans, from, mid, up) + TimeIn(spans, mid, until, up)
  {
    if spans != [] {
      TimeSplits(spans[..|spans| - 1], from, mid, until, up);
    }
  }

  lemma {:induction false} NoTimeInNothing(spans: seq<Span>, from: nat, until: nat, up: bool)
    requires until <= from
    ensures TimeIn(spans, from, until, up) == 0
  {
    if spans != [] {
      NoTimeInNothing(spans[..|spans| - 1], from, until, up);
    }
  }

  lemma {:induction false} AllTimeIsWithin(spans: seq<Span>, range: Range, up: bool)
    requires AreWithin(spans, range)
    ensures TimeIn(spans, range.startMs, range.endMs, up) == Lasting(spans, up)
  {
    if spans != [] {
      AllTimeIsWithin(spans[..|spans| - 1], range, up);
    }
  }

  function Connecteds(buckets: seq<HourBucket>): nat {
    if buckets == [] then 0
    else Connecteds(buckets[..|buckets| - 1]) + buckets[|buckets| - 1].connectedMs
  }

  lemma {:induction false} HoursSumUp(range: Range, spans: seq<Span>, k: nat)
    requires range.startMs < range.endMs && 0 < k <= |Buckets(range, spans)|
    ensures Connecteds(Buckets(range, spans)[..k])
         == TimeIn(spans, range.startMs, Buckets(range, spans)[k - 1].endMs, true)
  {
    var hours := Buckets(range, spans);
    HoursTile(range, spans);
    assert hours[..k][..k - 1] == hours[..k - 1];
    HourAt(range, spans, k - 1);
    hide Buckets, TimeIn;
    if k > 1 {
      HoursSumUp(range, spans, k - 1);
      TimeSplits(spans, range.startMs, hours[k - 1].startMs, hours[k - 1].endMs, true);
    } else {
      assert hours[..0] == [];
    }
  }

  lemma {:induction false} NoHours(buckets: seq<HourBucket>)
    requires forall k :: 0 <= k < |buckets| ==> buckets[k].connectedMs == 0
    ensures Connecteds(buckets) == 0
  {
    if buckets != [] {
      NoHours(buckets[..|buckets| - 1]);
    }
  }

  /** No time is lost or made up between the two displays: over any log, in order or not, the
      hours of the heatmap add up to the card's connected time. */
  lemma HoursAddUp(entries: seq<Entry>, range: Range, status: Status, now: nat)
    ensures var spans := Spans(entries, range, status);
      Connecteds(Buckets(range, spans)) == SummaryOf(spans, range, entries, now).connectedMs
  {
    var spans := Spans(entries, range, status);
    var hours := Buckets(range, spans);
    SpansAreWithin(entries, range, |entries|);
    AllTimeIsWithin(spans, range, true);
    if range.startMs < range.endMs {
      HoursTile(range, spans);
      HoursSumUp(range, spans, |hours|);
      assert hours[..|hours|] == hours;
    } else {
      forall k | 0 <= k < |hours|
        ensures hours[k].connectedMs == 0
      {
        HourAt(range, spans, k);
        NoTimeInNothing(spans, hours[k].startMs, hours[k].endMs, true);
      }
      NoHours(hours);
      NoTimeInNothing(spans, range.startMs, range.endMs, true);
    }
  }

  // ---------------------------------------------------------------- against the log itself

  /** What the log says about the moment `at`: the kind of its last entry by then. */
  function StateAt(entries: seq<Entry>, at: nat): Option<Kind> {
    if entries == [] then None
    else
      var last := entries[|entries| - 1];
      if last.atMs <= at then Some(last.kind) else StateAt(entries[..|entries| - 1], at)
  }

  /** How many milliseconds of `[from, until)` the log says were up, or were not. */
  function MomentsIn(entries: seq<Entry>, from: nat, until: nat, up: bool): nat
    decreases until
  {
    if until <= from then 0
    else
      var state := StateAt(entries, until - 1);
      MomentsIn(entries, from, until - 1, up) + if state.Some? && state.value.Connected? == up then 1 else 0
  }

  function Moment(entries: seq<Entry>, at: nat, up: bool): nat {
    var state := StateAt(entries, at);
    if state.Some? && state.value.Connected? == up then 1 else 0
  }

  function Gain(kind: Kind, up: bool): nat {
    if kind.Connected? == up then 1 else 0
  }

  /** The span of entry `n` covers the moment, when it is the entry's. */
  predicate Holds(entries: seq<Entry>, range: Range, n: nat, at: nat)
    requires n < |entries|
  {
    entries[n].atMs <= at < NextAt(entries, range, n)
  }

  lemma SpanCoversTheMoment(entries: seq<Entry>, range: Range, n: nat, at: nat)
    requires n < |entries| && range.startMs <= at < range.endMs
    ensures var span := EntrySpan(entries, range, n);
      && Overlap(span, at, at + 1) == (if Holds(entries, range, n, at) then 1 else 0)
      && (span.endMs <= span.startMs ==> !Holds(entries, range, n, at))
  {
    hide NextAt;
  }

  /** What the span of entry `n` adds at one moment. */
  lemma SpanAddsTheMoment(entries: seq<Entry>, range: Range, n: nat, at: nat, up: bool)
    requires n < |entries| && range.startMs <= at < range.endMs
    ensures TimeIn(SpansOf(entries, range, n + 1), at, at + 1, up)
         == TimeIn(SpansOf(entries, range, n), at, at + 1, up)
          + if Holds(entries, range, n, at) then Gain(entries[n].kind, up) else 0
  {
    var before, span := SpansOf(entries, range, n), EntrySpan(entries, range, n);
    assert SpansOf(entries, range, n + 1) == before + if span.endMs > span.startMs then [span] else [];
    assert before + [] == before;
    assert span.kind == entries[n].kind;
    hide TimeIn, SpansOf, Overlap, Holds, EntrySpan;
    SpanAdds(before, span, at, at + 1, up);
    SpanCoversTheMoment(entries, range, n, at);
  }

  /** How many of the spans of the first `n` entries show the moment, among those that are up, or
      those that are not. */
  function Shown(entries: seq<Entry>, range: Range, n: nat, at: nat, up: bool): nat
    requires n <= |entries|
  {
    if n == 0 then 0
    else
      Shown(entries, range, n - 1, at, up)
      + if Holds(entries, range, n - 1, at) then Gain(entries[n - 1].kind, up) else 0
  }

  lemma {:induction false} SpansShow(entries: seq<Entry>, range: Range, n: nat, at: nat, up: bool)
    requires n <= |entries| && range.startMs <= at < range.endMs
    ensures TimeIn(SpansOf(entries, range, n), at, at + 1, up) == Shown(entries, range, n, at, up)
  {
    if n > 0 {
      SpansShow(entries, range, n - 1, at, up);
      hide TimeIn, SpansOf, Holds, Gain;
      SpanAddsTheMoment(entries, range, n - 1, at, up);
    } else {
      assert SpansOf(entries, range, 0) == [];
    }
  }

  /** The last entry by `at`, if there is one; it is what the log says of the moment. */
  lemma {:induction false} LastBy(entries: seq<Entry>, at: nat, up: bool) returns (last: int)
    ensures -1 <= last < |entries|
    ensures last >= 0 ==> entries[last].atMs <= at && Moment(entries, at, up) == Gain(entries[last].kind, up)
    ensures forall k :: last < k < |entries| ==> entries[k].atMs > at
    ensures last == -1 ==> Moment(entries, at, up) == 0
  {
    if entries == [] {
      last := -1;
    } else if entries[|entries| - 1].atMs <= at {
      last := |entries| - 1;
    } else {
      var before := entries[..|entries| - 1];
      last := LastBy(before, at, up);
      assert forall k :: 0 <= k < |before| ==> before[k] == entries[k];
    }
  }

  /** Entries after the moment show nothing of it. */
  lemma {:induction false} ShownUpTo(entries: seq<Entry>, range: Range, m: nat, n: nat, at: nat, up: bool)
    requires m <= n <= |entries| && forall k :: m <= k < n ==> entries[k].atMs > at
    ensures Shown(entries, range, n, at, up) == Shown(entries, range, m, at, up)
    decreases n
  {
    if m < n {
      ShownUpTo(entries, range, m, n - 1, at, up);
    }
  }

  /** Entry `i` is over by the moment, but a later one than its successor has begun: the state of `i`
      is shown again. */
  predicate ReturnsAt(entries: seq<Entry>, at: nat, up: bool, i: nat, k: nat)
    requires i + 1 < k < |entries|
  {
    && entries[i].kind.Connected? == up
    && entries[i].atMs <= at < entries[i + 1].atMs && entries[k].atMs <= at
  }

  predicate ReturnsTo(entries: seq<Entry>, at: nat, up: bool) {
    exists i: nat, k: nat :: i + 1 < k < |entries| && ReturnsAt(entries, at, up, i, k)
  }

  /** Earlier entries show the moment exactly when the state of one of them is over. */
  lemma {:induction false} ShownBefore(entries: seq<Entry>, range: Range, n: nat, last: nat, at: nat, up: bool)
    requires n <= last < |entries| && entries[last].atMs <= at
    ensures Shown(entries, range, n, at, up) == 0
       <==> forall i :: 0 <= i < n && i + 1 < last ==> !ReturnsAt(entries, at, up, i, last)
  {
    if n > 0 {
      ShownBefore(entries, range, n - 1, last, at, up);
      assert Holds(entries, range, n - 1, at) && Gain(entries[n - 1].kind, up) > 0
        <==> n < last && ReturnsAt(entries, at, up, n - 1, last);
    }
  }

  /** The spans show a moment as the log has it, unless the state of an earlier entry returns. */
  lemma MomentShownOnce(entries: seq<Entry>, range: Range, at: nat, up: bool)
    requires range.startMs <= at < range.endMs
    ensures Shown(entries, range, |entries|, at, up) >= Moment(entries, at, up)
    ensures Shown(entries, range, |entries|, at, up) == Moment(entries, at, up) <==> !ReturnsTo(entries, at, up)
  {
    var last := LastBy(entries, at, up);
    if last == -1 {
      ShownUpTo(entries, range, 0, |entries|, at, up);
    } else {
      ShownUpTo(entries, range, last + 1, |entries|, at, up);
      assert Holds(entries, range, last, at);
      hide Moment;
      ShownBefore(entries, range, last, last, at, up);
      if ReturnsTo(entries, at, up) {
        var i: nat, k: nat :| i + 1 < k < |entries| && ReturnsAt(entries, at, up, i, k);
        assert k <= last && ReturnsAt(entries, at, up, i, last);
      }
    }
  }

  /** The state of entry `i` is over before `[from, until)` is, and comes back in it: at a moment when
      the entry after it is not yet due, but a still later one is. */
  predicate ReturnsWithin(entries: seq<Entry>, from: nat, until: nat, up: bool, i: nat, k: nat)
    requires i + 1 < k < |entries|
  {
    && entries[i].kind.Connected? == up
    && Max(Max(entries[i].atMs, entries[k].atMs), from) < Min(entries[i + 1].atMs, until)
  }

  /** What makes time be counted twice, and can be told from the entries' times alone. */
  predicate Returns(entries: seq<Entry>, from: nat, until: nat, up: bool) {
    exists i: nat, k: nat :: i + 1 < k < |entries| && ReturnsWithin(entries, from, until, up, i, k)
  }

  lemma ReturnsAtSomeMoment(entries: seq<Entry>, from: nat, until: nat, up: bool)
    ensures Returns(entries, from, until, up) <==> exists at: nat :: from <= at < until && ReturnsTo(entries, at, up)
  {
    if Returns(entries, from, until, up) {
      var i: nat, k: nat :| i + 1 < k < |entries| && ReturnsWithin(entries, from, until, up, i, k);
      var at := Max(Max(entries[i].atMs, entries[k].atMs), from);
      assert ReturnsAt(entries, at, up, i, k);
      assert ReturnsTo(entries, at, up);
    }
    if at: nat :| from <= at < until && ReturnsTo(entries, at, up) {
      var i: nat, k: nat :| i + 1 < k < |entries| && ReturnsAt(entries, at, up, i, k);
      assert ReturnsWithin(entries, from, until, up, i, k);
    }
  }

  lemma {:induction false} MomentsShownOnce(entries: seq<Entry>, range: Range, from: nat, until: nat, up: bool)
    requires range.startMs <= from <= until <= range.endMs
    ensures var time := TimeIn(SpansOf(entries, range, |entries|), from, until, up);
      && time >= MomentsIn(entries, from, until, up)
      && (time == MomentsIn(entries, from, until, up)
          <==> forall at: nat :: from <= at < until ==> !ReturnsTo(entries, at, up))
    decreases until
  {
    var spans := SpansOf(entries, range, |entries|);
    if from == until {
      NoTimeInNothing(spans, from, until, up);
    } else {
      var at := until - 1;
      assert MomentsIn(entries, from, until, up) == MomentsIn(entries, from, at, up) + Moment(entries, at, up);
      hide SpansOf, TimeIn, StateAt, MomentsIn, Moment, ReturnsTo;
      MomentsShownOnce(entries, range, from, at, up);
      TimeSplits(spans, from, at, until, up);
      SpansShow(entries, range, |entries|, at, up);
      MomentShownOnce(entries, range, at, up);
    }
  }

  /** The spans count a stretch of the window exactly as the log has it, if and only if no state
      returns in it; otherwise they count more. */
  lemma SpansShowTheLogExactly(entries: seq<Entry>, range: Range, from: nat, until: nat, up: bool)
    requires range.startMs <= from <= until <= range.endMs
    ensures var time := TimeIn(SpansOf(entries, range, |entries|), from, until, up);
      && time >= MomentsIn(entries, from, until, up)
      && (time == MomentsIn(entries, from, until, up) <==> !Returns(entries, from, until, up))
  {
    hide TimeIn, SpansOf, MomentsIn, Returns, ReturnsTo;
    MomentsShownOnce(entries, range, from, until, up);
    ReturnsAtSomeMoment(entries, from, until, up);
  }

  predicate DipsAt(entries: seq<Entry>, from: nat, until: nat, i: nat, j: nat, k: nat)
    requires i < j < k < |entries|
  {
    Max(Max(entries[i].atMs, entries[k].atMs), from) < Min(entries[j].atMs, until)
  }

  /** An entry is later than one before it and one after it, at some moment of `[from, until)`. */
  predicate Dips(entries: seq<Entry>, from: nat, until: nat) {
    exists i: nat, j: nat, k: nat :: i < j < k < |entries| && DipsAt(entries, from, until, i, j, k)
  }

  lemma ReturnIsADip(entries: seq<Entry>, from: nat, until: nat)
    ensures Dips(entries, from, until) <==> Returns(entries, from, until, true) || Returns(entries, from, until, false)
  {
    if up: bool :| Returns(entries, from, until, up) {
      var i: nat, k: nat :| i + 1 < k < |entries| && ReturnsWithin(entries, from, until, up, i, k);
      assert DipsAt(entries, from, until, i, i + 1, k);
    }
    if Dips(entries, from, until) {
      var i: nat, j: nat, k: nat :| i < j < k < |entries| && DipsAt(entries, from, until, i, j, k);
      var at := Max(Max(entries[i].atMs, entries[k].atMs), from);
      var m := i;
      while entries[m + 1].atMs <= at
        invariant i <= m < j && entries[m].atMs <= at
        decreases j - m
      {
        m := m + 1;
      }
      assert ReturnsWithin(entries, from, until, entries[m].kind.Connected?, m, k);
    }
  }

  /** A log in order has no dips. */
  lemma OrderHasNoDips(entries: seq<Entry>, from: nat, until: nat)
    requires IsSorted(entries)
    ensures !Dips(entries, from, until)
  {
    forall i: nat, j: nat, k: nat | i < j < k < |entries|
      ensures !DipsAt(entries, from, until, i, j, k)
    {
      assert entries[j].atMs <= entries[k].atMs;
    }
  }

  lemma SpanAdds(spans: seq<Span>, span: Span, from: nat, until: nat, up: bool)
    ensures TimeIn(spans + [span], from, until, up)
         == TimeIn(spans, from, until, up) + if span.kind.Connected? == up then Overlap(span, from, until) else 0
    ensures span.endMs <= span.startMs ==> Overlap(span, from, until) == 0
  {
    assert (spans + [span])[..|spans|] == spans;
  }

  lemma {:induction false} MomentsAreNoMore(entries: seq<Entry>, from: nat, until: nat)
    requires from <= until
    ensures MomentsIn(entries, from, until, true) + MomentsIn(entries, from, until, false) <= until - from
    decreases until
  {
    if from < until {
      MomentsAreNoMore(entries, from, until - 1);
    }
  }

  /** The cards count exactly the milliseconds of the window the log says were up, and those it says
      were not, if and only if the times of the log do not dip inside the window; they never count
      less. Then the percentage needs no clamp. */
  lemma CardsShowTheLog(entries: seq<Entry>, range: Range, status: Status, now: nat)
    requires entries != [] && range.startMs < range.endMs
    ensures var summary := SummaryOf(Spans(entries, range, status), range, entries, now);
      var up, down := MomentsIn(entries, range.startMs, range.endMs, true),
                      MomentsIn(entries, range.startMs, range.endMs, false);
      && summary.connectedMs >= up && summary.disconnectedMs >= down
      && (summary.connectedMs == up && summary.disconnectedMs == down
          <==> !Dips(entries, range.startMs, range.endMs))
      && (summary.connectedMs == up <==> !Returns(entries, range.startMs, range.endMs, true))
      && (summary.connectedMs == up ==>
            summary.uptimePct == up as real / (range.endMs - range.startMs) as real * 100.0)
  {
    var spans := SpansOf(entries, range, |entries|);
    SpansAreWithin(entries, range, |entries|);
    AllTimeIsWithin(spans, range, true);
    AllTimeIsWithin(spans, range, false);
    hide SpansOf, TimeIn, MomentsIn, Lasting, Percent, Dips, Returns;
    SpansShowTheLogExactly(entries, range, range.startMs, range.endMs, true);
    SpansShowTheLogExactly(entries, range, range.startMs, range.endMs, false);
    ReturnIsADip(entries, range.startMs, range.endMs);
    MomentsAreNoMore(entries, range.startMs, range.endMs);
  }

  /** ... and an hour of the heatmap counts exactly the milliseconds it was up, if and only if no up
      state returns in that hour; then it is never up for longer than it lasts. */
  lemma HoursShowTheLog(entries: seq<Entry>, range: Range, status: Status, k: nat)
    requires entries != [] && range.startMs < range.endMs
    requires k < |Buckets(range, Spans(entries, range, status))|
    ensures var hour := Buckets(range, Spans(entries, range, status))[k];
      var up := MomentsIn(entries, hour.startMs, hour.endMs, true);
      && hour.connectedMs >= up && hour.totalMs > 0
      && (hour.connectedMs == up <==> !Returns(entries, hour.startMs, hour.endMs, true))
      && (hour.connectedMs == up ==>
            hour.connectedMs <= hour.totalMs && hour.uptimePct == up as real / hour.totalMs as real * 100.0)
  {
    var spans := Spans(entries, range, status);
    var hour := Buckets(range, spans)[k];
    HoursTile(range, spans);
    HourAt(range, spans, k);
    hide Buckets, SpansOf, TimeIn, MomentsIn, Percent, ChangesIn, Returns;
    SpansShowTheLogExactly(entries, range, hour.startMs, hour.endMs, true);
    MomentsAreNoMore(entries, hour.startMs, hour.endMs);
  }

  // ---------------------------------------------------------------- all the time since the first entry

  function Clamped(range: Range, at: nat): nat {
    Min(Max(at, range.startMs), range.endMs)
  }

  /** How far the entries' times fall back inside the window, over the first `n` of them. */
  function Falls(entries: seq<Entry>, range: Range, n: nat): nat
    requires n < |entries|
  {
    if n == 0 then 0
    else
      Falls(entries, range, n - 1)
      + Since(Clamped(range, entries[n - 1].atMs), Clamped(range, entries[n].atMs))
  }

  lemma SpanLasts(entries: seq<Entry>, range: Range, i: nat)
    requires i < |entries| && range.startMs < range.endMs
    ensures Lasts(EntrySpan(entries, range, i))
         == Since(Clamped(range, NextAt(entries, range, i)), Clamped(range, entries[i].atMs))
  {
  }

  lemma SpanAddsUp(entries: seq<Entry>, range: Range, n: nat)
    requires n < |entries|
    ensures var before, next := SpansOf(entries, range, n), SpansOf(entries, range, n + 1);
      Lasting(next, true) + Lasting(next, false)
        == Lasting(before, true) + Lasting(before, false) + Lasts(EntrySpan(entries, range, n))
  {
    var before, span := SpansOf(entries, range, n), EntrySpan(entries, range, n);
    assert (before + [span])[..|before|] == before && before + [] == before;
    hide EntrySpan;
  }

  /** What the spans of the first `n` entries last, and how far their times got. */
  predicate AddUp(entries: seq<Entry>, range: Range, n: nat)
    requires n < |entries|
  {
    var spans := SpansOf(entries, range, n);
    Lasting(spans, true) + Lasting(spans, false) + Clamped(range, entries[0].atMs)
      == Clamped(range, entries[n].atMs) + Falls(entries, range, n)
  }

  lemma NextAddsUp(entries: seq<Entry>, range: Range, n: nat)
    requires n + 1 < |entries| && range.startMs < range.endMs && AddUp(entries, range, n)
    ensures AddUp(entries, range, n + 1)
  {
    hide SpansOf, Lasting, EntrySpan, Clamped;
    SpanAddsUp(entries, range, n);
    SpanLasts(entries, range, n);
  }

  lemma {:induction false} SpansAddUp(entries: seq<Entry>, range: Range, n: nat)
    requires n < |entries| && range.startMs < range.endMs
    ensures AddUp(entries, range, n)
  {
    if n > 0 {
      SpansAddUp(entries, range, n - 1);
      NextAddsUp(entries, range, n - 1);
    }
  }

  /** The entries' times, seen through the window, never fall back. */
  predicate NeverFalls(entries: seq<Entry>, range: Range) {
    forall i :: 0 < i < |entries| ==> Clamped(range, entries[i - 1].atMs) <= Clamped(range, entries[i].atMs)
  }

  lemma {:induction false} FallsAreNone(entries: seq<Entry>, range: Range, n: nat)
    requires n < |entries|
    ensures Falls(entries, range, n) == 0
       <==> forall i :: 0 < i <= n ==> Clamped(range, entries[i - 1].atMs) <= Clamped(range, entries[i].atMs)
  {
    if n > 0 {
      FallsAreNone(entries, range, n - 1);
    }
  }

  /** Connected and disconnected time together are all the time of the window since the first entry,
      and as much more as the entries' times fall back inside the window: nothing more exactly when
      they never do. */
  lemma CardsAddUp(entries: seq<Entry>, range: Range, status: Status, now: nat)
    requires entries != [] && range.startMs < range.endMs
    ensures var summary := SummaryOf(Spans(entries, range, status), range, entries, now);
      var known := Since(range.endMs, Max(range.startMs, entries[0].atMs));
      && summary.connectedMs + summary.disconnectedMs == known + Falls(entries, range, |entries| - 1)
      && (summary.connectedMs + summary.disconnectedMs == known <==> NeverFalls(entries, range))
  {
    var n := |entries| - 1;
    SpansAddUp(entries, range, n);
    SpanAddsUp(entries, range, n);
    SpanLasts(entries, range, n);
    FallsAreNone(entries, range, n);
    assert Clamped(range, range.endMs) == range.endMs && Clamped(range, entries[n].atMs) <= range.endMs;
    hide SpansOf, Lasting, EntrySpan, Percent;
  }

  /** Out of order, a log can count the same time twice: here a window is up for twice as long as
      it lasts. */
  lemma DisorderCountsTwice(ms: nat)
    requires ms > 0
    ensures var entries := [Entry(0, Connected, None, None), Entry(ms, Connected, None, None),
                            Entry(0, Connected, None, None)];
      Lasting(Spans(entries, Range(0, ms), ConnectedStatus), true) == 2 * RangeLasts(Range(0, ms))
  {
    var entries := [Entry(0, Connected, None, None), Entry(ms, Connected, None, None),
                    Entry(0, Connected, None, None)];
    var range, whole := Range(0, ms), Span(0, ms, Connected, None);
    assert EntrySpan(entries, range, 0) == whole && EntrySpan(entries, range, 2) == whole;
    assert EntrySpan(entries, range, 1).endMs <= EntrySpan(entries, range, 1).startMs;
    hide EntrySpan;
    assert SpansOf(entries, range, 0) == [];
    assert SpansOf(entries, range, 1) == [whole];
    assert SpansOf(entries, range, 2) == [whole];
    assert SpansOf(entries, range, 3) == [whole, whole];
    hide SpansOf;
    assert Lasting([whole], true) == ms;
    assert [whole, whole][..1] == [whole];
  }

  // ---------------------------------------------------------------- what is counted

  /** Some of the window shows the state that entry `i` brought. */
  predicate IsShown(entries: seq<Entry>, range: Range, i: nat)
    requires i < |entries|
  {
    var next := if i + 1 < |entries| then entries[i + 1].atMs else range.endMs;
    && entries[i].atMs < next && entries[i].atMs < range.endMs
    && range.startMs < next && range.startMs < range.endMs
  }

  /** The shown entries among the first `n` that are of such kinds. */
  function ShownAs(entries: seq<Entry>, range: Range, n: nat, kinds: set<Kind>): set<nat>
    requires n <= |entries|
  {
    set i: nat | 0 <= i < n && IsShown(entries, range, i) && entries[i].kind in kinds
  }

  lemma ShownAsNext(entries: seq<Entry>, range: Range, n: nat, kinds: set<Kind>)
    requires n < |entries|
    ensures |ShownAs(entries, range, n + 1, kinds)|
         == |ShownAs(entries, range, n, kinds)|
            + if IsShown(entries, range, n) && entries[n].kind in kinds then 1 else 0
  {
    hide IsShown;
    var rest, all := ShownAs(entries, range, n, kinds), ShownAs(entries, range, n + 1, kinds);
    if IsShown(entries, range, n) && entries[n].kind in kinds {
      assert all == rest + {n};
    } else {
      assert all == rest;
    }
  }

  lemma SpanIsShown(entries: seq<Entry>, range: Range, i: nat)
    requires i < |entries|
    ensures EntrySpan(entries, range, i).endMs > EntrySpan(entries, range, i).startMs <==> IsShown(entries, range, i)
    ensures EntrySpan(entries, range, i).kind == entries[i].kind
    ensures EntrySpan(entries, range, i).message == entries[i].message
  {
  }

  lemma {:induction false} CountsAreShown(entries: seq<Entry>, range: Range, n: nat)
    requires n <= |entries|
    ensures Sessions(SpansOf(entries, range, n)) == |ShownAs(entries, range, n, {Connected})|
    ensures Drops(SpansOf(entries, range, n)) == |ShownAs(entries, range, n, {Disconnected, Failed})|
  {
    hide IsShown, EntrySpan, Sessions, Drops, ShownAs;
    if n == 0 {
      NothingIsCounted(entries, range);
    } else {
      CountsAreShown(entries, range, n - 1);
      ShownAsNext(entries, range, n - 1, {Connected});
      ShownAsNext(entries, range, n - 1, {Disconnected, Failed});
      SpanIsShown(entries, range, n - 1);
      LastSpanCounts(SpansOf(entries, range, n - 1), EntrySpan(entries, range, n - 1));
    }
  }

  lemma NothingIsCounted(entries: seq<Entry>, range: Range)
    ensures Sessions([]) == Drops([]) == 0
    ensures forall kinds :: ShownAs(entries, range, 0, kinds) == {}
  {
  }

  lemma LastSpanCounts(spans: seq<Span>, span: Span)
    ensures Sessions(spans + [span]) == Sessions(spans) + if span.kind.Connected? then 1 else 0
    ensures Drops(spans + [span]) == Drops(spans) + if span.kind.Disconnected? || span.kind.Failed? then 1 else 0
    ensures Sessions(spans + []) == Sessions(spans) && Drops(spans + []) == Drops(spans)
  {
    assert (spans + [span])[..|spans|] == spans && spans + [] == spans;
  }

  /** The cards' counts: the shown losses and failures, but not the retries; how long a shown connection lasts
      on average, rounded down; and how long ago the newest entry was. */
  lemma CardsCount(entries: seq<Entry>, range: Range, status: Status, now: nat)
    requires entries != []
    ensures var summary := SummaryOf(Spans(entries, range, status), range, entries, now);
      var sessions, newest := |ShownAs(entries, range, |entries|, {Connected})|, entries[|entries| - 1].atMs;
      && summary.disconnects == |ShownAs(entries, range, |entries|, {Disconnected, Failed})|
      && (sessions == 0 ==> summary.averageConnectedMs == 0)
      && (sessions > 0 ==>
            summary.averageConnectedMs * sessions <= summary.connectedMs < (summary.averageConnectedMs + 1) * sessions)
      && summary.currentDurationMs == if now >= newest then now - newest else 0
  {
    CountsAreShown(entries, range, |entries|);
    hide ShownAs, SpansOf, Lasting, Sessions, Drops, Percent;
    var spans := SpansOf(entries, range, |entries|);
    if Sessions(spans) > 0 {
      AverageIs(Lasting(spans, true), Sessions(spans));
    }
  }

  lemma AverageIs(total: nat, parts: nat)
    requires parts > 0
    ensures total / parts * parts <= total < (total / parts + 1) * parts
  {
    var q := total / parts;
    assert total == q * parts + total % parts;
    assert (q + 1) * parts == q * parts + parts;
  }

  lemma PercentOfAll(all: nat)
    requires all > 0
    ensures Percent(all, all) == 100.0 && Percent(0, all) == 0.0
  {
    var whole := all as real;
    assert whole / whole == 1.0;
  }

  /** An empty log shows the window in the state the session is in, as one loss if that is not connected. */
  lemma EmptyLogShows(range: Range, status: Status, now: nat)
    requires range.startMs < range.endMs
    ensures var summary, all := SummaryOf(Spans([], range, status), range, [], now), range.endMs - range.startMs;
      && summary.averageConnectedMs == summary.connectedMs && summary.currentDurationMs == 0
      && (status.ConnectedStatus? ==>
            summary.connectedMs == all && summary.disconnectedMs == 0 && summary.disconnects == 0
            && summary.uptimePct == 100.0)
      && (!status.ConnectedStatus? ==>
            summary.connectedMs == 0 && summary.disconnectedMs == all && summary.disconnects == 1
            && summary.uptimePct == 0.0)
  {
    hide Percent;
    PercentOfAll(range.endMs - range.startMs);
    var spans := Spans([], range, status);
    assert |spans| == 1 && spans[..0] == [];
    assert Lasting([], true) == Lasting([], false) == 0 && Sessions([]) == Drops([]) == 0;
  }

  /** The shown entries among the first `n` that were no connection and show in part of the window. */
  function ChangedIn(entries: seq<Entry>, range: Range, n: nat, from: nat, until: nat): set<nat>
    requires n <= |entries|
  {
    set i: nat | 0 <= i < n && IsShown(entries, range, i) && IsShown(entries, Range(from, until), i)
      && !entries[i].kind.Connected?
  }

  lemma ChangedInNext(entries: seq<Entry>, range: Range, n: nat, from: nat, until: nat)
    requires n < |entries|
    ensures |ChangedIn(entries, range, n + 1, from, until)|
         == |ChangedIn(entries, range, n, from, until)|
            + if IsShown(entries, range, n) && IsShown(entries, Range(from, until), n) && !entries[n].kind.Connected?
              then 1 else 0
  {
    hide IsShown;
    var rest, all := ChangedIn(entries, range, n, from, until), ChangedIn(entries, range, n + 1, from, until);
    if IsShown(entries, range, n) && IsShown(entries, Range(from, until), n) && !entries[n].kind.Connected? {
      assert all == rest + {n};
    } else {
      assert all == rest;
    }
  }

  lemma {:induction false} ChangesAreShown(entries: seq<Entry>, range: Range, n: nat, from: nat, until: nat)
    requires n <= |entries| && range.startMs <= from < until <= range.endMs
    ensures ChangesIn(SpansOf(entries, range, n), from, until) == |ChangedIn(entries, range, n, from, until)|
  {
    hide ChangedIn, IsShown, EntrySpan, Overlap, ChangesIn;
    if n == 0 {
      NothingChanged(entries, range, from, until);
    } else {
      ChangesAreShown(entries, range, n - 1, from, until);
      ChangedInNext(entries, range, n - 1, from, until);
      SpanIsShown(entries, range, n - 1);
      SpanOverlaps(entries, range, n - 1, from, until);
      LastSpanChanges(SpansOf(entries, range, n - 1), EntrySpan(entries, range, n - 1), from, until);
    }
  }

  lemma NothingChanged(entries: seq<Entry>, range: Range, from: nat, until: nat)
    ensures ChangesIn([], from, until) == 0 && ChangedIn(entries, range, 0, from, until) == {}
  {
  }

  lemma SpanOverlaps(entries: seq<Entry>, range: Range, i: nat, from: nat, until: nat)
    requires i < |entries| && range.startMs <= from < until <= range.endMs
    ensures IsShown(entries, range, i) ==>
      (Overlap(EntrySpan(entries, range, i), from, until) != 0 <==> IsShown(entries, Range(from, until), i))
  {
  }

  lemma LastSpanChanges(spans: seq<Span>, span: Span, from: nat, until: nat)
    ensures ChangesIn(spans + [span], from, until)
         == ChangesIn(spans, from, until)
            + if !span.kind.Connected? && Overlap(span, from, until) != 0 then 1 else 0
    ensures ChangesIn(spans + [], from, until) == ChangesIn(spans, from, until)
  {
    hide Overlap;
    assert (spans + [span])[..|spans|] == spans && spans + [] == spans;
  }

  /** An hour's changes: the losses, failures and retries that show in it. */
  lemma HourCountsChanges(entries: seq<Entry>, range: Range, status: Status, k: nat)
    requires entries != [] && range.startMs < range.endMs
    requires k < |Buckets(range, Spans(entries, range, status))|
    ensures var hour := Buckets(range, Spans(entries, range, status))[k];
      hour.changes == |ChangedIn(entries, range, |entries|, hour.startMs, hour.endMs)|
  {
    hide SpansOf, ChangesIn, ChangedIn;
    var spans := Spans(entries, range, status);
    HourLiesWithin(range, spans, k);
    HourAt(range, spans, k);
    var hour := Buckets(range, spans)[k];
    ChangesAreShown(entries, range, |entries|, hour.startMs, hour.endMs);
  }

  predicate IsOldest(entries: seq<Entry>, i: nat) {
    i < |entries| && forall j :: 0 <= j < |entries| ==> entries[i].atMs <= entries[j].atMs
  }

  /** The windows on offer, as far as the clock goes back: an hour, six, a day, a week; or a minute more than
      the oldest entry takes, but no less than an hour. */
  lemma WindowsAre(entries: seq<Entry>, now: nat)
    ensures WindowRange(Hour, entries, now) == Range(Since(now, 3_600_000), now)
    ensures WindowRange(SixHours, entries, now) == Range(Since(now, 6 * 3_600_000), now)
    ensures WindowRange(Day, entries, now) == Range(Since(now, 24 * 3_600_000), now)
    ensures WindowRange(Week, entries, now) == Range(Since(now, 7 * 24 * 3_600_000), now)
    ensures entries == [] ==> WindowRange(All, entries, now) == Range(Since(now, 3_600_000), now)
    ensures forall i: nat :: IsOldest(entries, i) ==>
      var reach := Since(now, entries[i].atMs) + 60_000;
      WindowRange(All, entries, now) == Range(Since(now, if reach > 3_600_000 then reach else 3_600_000), now)
  {
    forall i: nat | IsOldest(entries, i)
      ensures Earliest(entries) == Some(entries[i].atMs)
    {
      EarliestIsAnEntry(entries);
      EarliestIsLeast(entries, i);
    }
  }

  lemma {:induction false} EarliestIsAnEntry(entries: seq<Entry>)
    requires entries != []
    ensures Earliest(entries).Some?
    ensures exists i :: 0 <= i < |entries| && entries[i].atMs == Earliest(entries).value
  {
    if |entries| > 1 {
      EarliestIsAnEntry(entries[1..]);
      var i :| 0 <= i < |entries[1..]| && entries[1..][i].atMs == Earliest(entries[1..]).value;
      assert entries[i + 1].atMs == Earliest(entries[1..]).value && entries[0].atMs == entries[0].atMs;
    } else {
      assert entries[1..] == [];
    }
  }
}
