/** The monitor's history ladder, in place of an unbounded list of samples. */
module SampleHistory {
  // Every sample is folded into a few rings of averaged buckets, one ring per bucket width, and a
  // chart window is read from the ring of its width.

  import opened Arithmetic
  import opened Options
  import Orders

  /** One value per charted series; a sample may lack any of them. */
  datatype Point = Point(cpu: Option<real>, mem: Option<real>, read: Option<real>, write: Option<real>)

  /** What the history sees of one poll of the host. */
  datatype Sample = Sample(atMs: nat, point: Point)

  datatype Bucket = Bucket(atMs: nat, point: Point, count: nat)

  datatype Tier = Tier(bucketMs: nat, capacity: nat, buckets: seq<Bucket>, open: Option<Bucket>)

  /** The windows the pane offers, in seconds. */
  const TIME_RANGES: seq<nat> := [60, 600, 1800, 3600, 7200, 21_600, 86_400, 172_800, 604_800]

  function BucketSeconds(rangeS: nat): nat {
    if rangeS <= 60 then 1
    else if rangeS <= 3600 then 15
    else if rangeS <= 86_400 then 60
    else 600
  }

  function TierCapacity(bucketS: nat): nat {
    if bucketS == 1 then 300
    else if bucketS == 15 then 240
    else if bucketS == 60 then 1440
    else 1008
  }

  // ---------------------------------------------------------------- folding one sample

  /** Fold `value` into a slot of a bucket that already holds `samples` samples. */
  function Blend(slot: Option<real>, value: Option<real>, samples: nat): Option<real> {
    match (slot, value)
    case (_, None) => slot
    case (None, Some(_)) => value
    case (Some(current), Some(v)) => Some(Weighted(current, samples as real, v))
  }

  /** The mean of `weight` copies of `current` and one `v`. */
  function Weighted(current: real, weight: real, v: real): real
    requires weight >= 0.0
  {
    (current * weight + v) / (weight + 1.0)
  }

  function Merge(point: Point, other: Point, samples: nat): Point {
    Point(Blend(point.cpu, other.cpu, samples),
          Blend(point.mem, other.mem, samples),
          Blend(point.read, other.read, samples),
          Blend(point.write, other.write, samples))
  }

  /** The start of the bucket of width `width` that holds `at`. */
  function Start(width: nat, at: nat): (start: nat)
    requires width > 0
    ensures start <= at < start + width
  {
    at - at % width
  }

  /** The last `capacity` of `buckets`. */
  function Keep(buckets: seq<Bucket>, capacity: nat): seq<Bucket> {
    if |buckets| <= capacity then buckets else buckets[|buckets| - capacity..]
  }

  function TierPush(tier: Tier, sample: Sample): Tier
    requires tier.bucketMs > 0
  {
    var start := Start(tier.bucketMs, sample.atMs);
    match tier.open
    case None => tier.(open := Some(Bucket(start, sample.point, 1)))
    case Some(open) =>
      if open.atMs == start then
        tier.(open := Some(Bucket(start, Merge(open.point, sample.point, open.count), open.count + 1)))
      else
        tier.(buckets := Keep(tier.buckets + [open], tier.capacity),
              open := Some(Bucket(start, sample.point, 1)))
  }

  /** The tier after all of `samples`. */
  function TierAfter(width: nat, capacity: nat, samples: seq<Sample>): Tier
    requires width > 0
    ensures TierAfter(width, capacity, samples).bucketMs == width
    ensures TierAfter(width, capacity, samples).capacity == capacity
  {
    if samples == [] then Tier(width, capacity, [], None)
    else TierPush(TierAfter(width, capacity, samples[..|samples| - 1]), samples[|samples| - 1])
  }

  // ---------------------------------------------------------------- reading a window

  function AllBuckets(tier: Tier): seq<Bucket> {
    tier.buckets + (if tier.open.Some? then [tier.open.value] else [])
  }

  function InWindow(buckets: seq<Bucket>, width: nat, from: nat): seq<Bucket> {
    if buckets == [] then []
    else (if buckets[0].atMs + width > from then [buckets[0]] else []) + InWindow(buckets[1..], width, from)
  }

  function Points(buckets: seq<Bucket>): seq<Point> {
    seq(|buckets|, i requires 0 <= i < |buckets| => buckets[i].point)
  }

  function From(rangeMs: nat, nowMs: nat): nat {
    if nowMs < rangeMs then 0 else nowMs - rangeMs
  }

  function TierSeries(tier: Tier, from: nat): seq<Point> {
    Points(InWindow(AllBuckets(tier), tier.bucketMs, from))
  }

  // ---------------------------------------------------------------- the reference

  predicate InOrder(samples: seq<Sample>) {
    forall i, j :: 0 <= i < j < |samples| ==> samples[i].atMs <= samples[j].atMs
  }

  /** The clock may step back, but not into an earlier bucket. */
  predicate StartsNeverFall(width: nat, samples: seq<Sample>)
    requires width > 0
  {
    forall i, j :: 0 <= i < j < |samples| ==> Start(width, samples[i].atMs) <= Start(width, samples[j].atMs)
  }

  lemma InOrderNeverFalls(width: nat, samples: seq<Sample>)
    requires width > 0 && InOrder(samples)
    ensures StartsNeverFall(width, samples)
  {
    hide Start;
    forall i, j | 0 <= i < j < |samples|
      ensures Start(width, samples[i].atMs) <= Start(width, samples[j].atMs)
    {
      StartOrder(width, samples[i].atMs, samples[j].atMs);
    }
  }

  /** The samples of one bucket, out of all that were ever pushed. */
  function Members(width: nat, start: nat, samples: seq<Sample>): seq<Sample>
    requires width > 0
  {
    if samples == [] then []
    else
      var last := samples[|samples| - 1];
      var before := Members(width, start, samples[..|samples| - 1]);
      if Start(width, last.atMs) == start then before + [last] else before
  }

  /** Samples folded together, in the order they came. */
  function Folded(members: seq<Sample>): Point
    requires members != []
  {
    var front, last := members[..|members| - 1], members[|members| - 1];
    if front == [] then last.point else Merge(Folded(front), last.point, |front|)
  }

  /** The window of an unbounded history: the buckets that end after `from` and hold some sample,
      oldest first, each the fold of all its samples. */
  ghost predicate IsWindow(width: nat, from: nat, samples: seq<Sample>, starts: seq<nat>, points: seq<Point>)
    requires width > 0
  {
    && |starts| == |points|
    && Orders.Ascending((a: nat, b: nat) => a < b, starts)
    && (forall x: nat :: x in starts <==> Members(width, x, samples) != [] && x + width > from)
    && (forall k :: 0 <= k < |starts| ==> points[k] == Folded(Members(width, starts[k], samples)))
  }

  ghost predicate IsSeries(width: nat, from: nat, samples: seq<Sample>, points: seq<Point>)
    requires width > 0
  {
    exists starts :: IsWindow(width, from, samples, starts, points)
  }

  /** The reference determines the series. */
  lemma SeriesIsUnique(width: nat, from: nat, samples: seq<Sample>, p: seq<Point>, q: seq<Point>)
    requires width > 0
    requires IsSeries(width, from, samples, p) && IsSeries(width, from, samples, q)
    ensures p == q
  {
    var s :| IsWindow(width, from, samples, s, p);
    var t :| IsWindow(width, from, samples, t, q);
    Orders.AscendingIsUnique((a: nat, b: nat) => a < b, s, t);
  }

  // ---------------------------------------------------------------- rings against runs

  /** The buckets an unbounded ring would hold: runs of samples with the same bucket start. */
  function Runs(width: nat, samples: seq<Sample>): seq<Bucket>
    requires width > 0
  {
    if samples == [] then []
    else Extend(width, Runs(width, samples[..|samples| - 1]), samples[|samples| - 1])
  }

  function Extend(width: nat, runs: seq<Bucket>, sample: Sample): seq<Bucket>
    requires width > 0
  {
    var start := Start(width, sample.atMs);
    if runs != [] && runs[|runs| - 1].atMs == start then
      var open := runs[|runs| - 1];
      runs[..|runs| - 1] + [Bucket(start, Merge(open.point, sample.point, open.count), open.count + 1)]
    else runs + [Bucket(start, sample.point, 1)]
  }

  lemma KeepTwice(buckets: seq<Bucket>, next: Bucket, capacity: nat)
    ensures Keep(Keep(buckets, capacity) + [next], capacity) == Keep(buckets + [next], capacity)
  {
  }

  /** A tier is its unbounded ring cut to the open bucket and the last `capacity` closed ones. */
  lemma {:induction false} TierIsRuns(width: nat, capacity: nat, samples: seq<Sample>)
    requires width > 0
    ensures var runs, tier := Runs(width, samples), TierAfter(width, capacity, samples);
      if samples == [] then tier.buckets == [] && tier.open == None && runs == []
      else
        && runs != []
        && tier.open == Some(runs[|runs| - 1])
        && tier.buckets == Keep(runs[..|runs| - 1], capacity)
    decreases |samples|
  {
    if samples != [] {
      var front := samples[..|samples| - 1];
      TierIsRuns(width, capacity, front);
      var runs, next := Runs(width, front), Runs(width, samples);
      if runs != [] {
        assert runs == runs[..|runs| - 1] + [runs[|runs| - 1]];
        if |next| == |runs| {
          assert next[..|next| - 1] == runs[..|runs| - 1];
        } else {
          assert next[..|next| - 1] == runs;
          KeepTwice(runs[..|runs| - 1], runs[|runs| - 1], capacity);
        }
      }
    }
  }

  /** How many of `total` runs a ring of `capacity` closed buckets has dropped. */
  function Dropped(total: nat, capacity: nat): nat {
    if total <= capacity + 1 then 0 else total - 1 - capacity
  }

  lemma TierIsTailOfRuns(width: nat, capacity: nat, samples: seq<Sample>)
    requires width > 0
    ensures Dropped(|Runs(width, samples)|, capacity) <= |Runs(width, samples)|
    ensures AllBuckets(TierAfter(width, capacity, samples))
         == Runs(width, samples)[Dropped(|Runs(width, samples)|, capacity)..]
  {
    TierIsRuns(width, capacity, samples);
    hide Runs, TierAfter, Keep, Dropped;
    var runs := Runs(width, samples);
    if runs == [] {
      KeepIsTail([], [], capacity);
    } else {
      KeepIsTail(runs[..|runs| - 1], [runs[|runs| - 1]], capacity);
      assert runs == runs[..|runs| - 1] + [runs[|runs| - 1]];
    }
  }

  lemma KeepIsTail(closed: seq<Bucket>, open: seq<Bucket>, capacity: nat)
    requires |open| == 1 || closed == open == []
    ensures Dropped(|closed + open|, capacity) <= |closed + open|
    ensures Keep(closed, capacity) + open == (closed + open)[Dropped(|closed + open|, capacity)..]
  {
  }

  function TotalCount(buckets: seq<Bucket>): nat {
    if buckets == [] then 0 else TotalCount(buckets[..|buckets| - 1]) + buckets[|buckets| - 1].count
  }

  lemma {:induction false} TotalCountAppend(a: seq<Bucket>, b: seq<Bucket>)
    ensures TotalCount(a + b) == TotalCount(a) + TotalCount(b)
    decreases |b|
  {
    if b == [] {
      assert a + b == a;
    } else {
      TotalCountAppend(a, b[..|b| - 1]);
      assert (a + b)[..|a + b| - 1] == a + b[..|b| - 1];
    }
  }

  lemma {:induction false} RunsCountSamples(width: nat, samples: seq<Sample>)
    requires width > 0
    ensures TotalCount(Runs(width, samples)) == |samples|
    decreases |samples|
  {
    if samples != [] {
      RunsCountSamples(width, samples[..|samples| - 1]);
      var runs, next := Runs(width, samples[..|samples| - 1]), Runs(width, samples);
      if |next| == |runs| {
        assert next[..|next| - 1] == runs[..|runs| - 1];
      } else {
        assert next[..|next| - 1] == runs;
      }
    }
  }

  /** No sample is lost from the counts: evicted, retained and open buckets add up to the pushes. */
  lemma CountsAddUp(width: nat, capacity: nat, samples: seq<Sample>) returns (evicted: seq<Bucket>)
    requires width > 0
    ensures Runs(width, samples) == evicted + AllBuckets(TierAfter(width, capacity, samples))
    ensures TotalCount(evicted) + TotalCount(AllBuckets(TierAfter(width, capacity, samples))) == |samples|
  {
    RunsCountSamples(width, samples);
    TierIsTailOfRuns(width, capacity, samples);
    hide Runs, TierAfter, TotalCount, AllBuckets, Dropped;
    var runs := Runs(width, samples);
    var d := Dropped(|runs|, capacity);
    evicted := runs[..d];
    TotalCountAppend(evicted, runs[d..]);
    assert runs == evicted + runs[d..];
  }

  // ---------------------------------------------------------------- runs are buckets

  lemma MembersSnoc(width: nat, start: nat, front: seq<Sample>, last: Sample)
    requires width > 0
    ensures Members(width, start, front + [last])
         == if Start(width, last.atMs) == start then Members(width, start, front) + [last]
            else Members(width, start, front)
  {
    assert (front + [last])[..|front|] == front;
  }

  /** A bucket starts at a multiple of its width, and time order is start order. */
  lemma StartOrder(width: nat, a: nat, b: nat)
    requires width > 0 && a <= b
    ensures Start(width, a) == a / width * width
    ensures a / width <= b / width
    ensures Start(width, a) <= Start(width, b) <= b
  {
    if a / width > b / width {
      MulOrder(b / width + 1, a / width, width);
      assert false;
    }
    MulOrder(a / width, b / width, width);
  }

  predicate IsBucketOf(width: nat, samples: seq<Sample>, bucket: Bucket)
    requires width > 0
  {
    var members := Members(width, bucket.atMs, samples);
    && members != []
    && bucket.point == Folded(members)
    && bucket.count == |members|
  }

  /** `runs` lists the bucket starts that occur in `samples`, ascending, each with its members folded. */
  ghost predicate AreGroups(width: nat, samples: seq<Sample>, runs: seq<Bucket>)
    requires width > 0
  {
    && (forall k :: 0 <= k < |runs| ==> IsBucketOf(width, samples, runs[k]))
    && (forall i, j :: 0 <= i < j < |runs| ==> runs[i].atMs < runs[j].atMs)
    && (forall start: nat :: Members(width, start, samples) != [] ==>
         exists k :: 0 <= k < |runs| && runs[k].atMs == start)
  }

  lemma BucketExtends(width: nat, front: seq<Sample>, last: Sample, runs: seq<Bucket>, k: nat)
    requires width > 0 && AreGroups(width, front, runs)
    requires runs != [] ==> runs[|runs| - 1].atMs <= Start(width, last.atMs)
    requires k < |Extend(width, runs, last)|
    ensures IsBucketOf(width, front + [last], Extend(width, runs, last)[k])
  {
    hide Members, Merge;
    var next, start := Extend(width, runs, last), Start(width, last.atMs);
    MembersSnoc(width, next[k].atMs, front, last);
    var members := Members(width, start, front);
    FoldedSnoc(members, last);
    if k < |runs| {
      assert IsBucketOf(width, front, runs[k]);
      if k < |runs| - 1 {
        assert runs[k].atMs < runs[|runs| - 1].atMs;
      }
    }
  }

  lemma FoldedSnoc(members: seq<Sample>, last: Sample)
    ensures Folded(members + [last])
         == if members == [] then last.point else Merge(Folded(members), last.point, |members|)
  {
    var all := members + [last];
    assert all[..|all| - 1] == members;
  }

  lemma GroupsExtend(width: nat, front: seq<Sample>, last: Sample, runs: seq<Bucket>)
    requires width > 0 && AreGroups(width, front, runs)
    requires runs != [] ==> runs[|runs| - 1].atMs <= Start(width, last.atMs)
    ensures AreGroups(width, front + [last], Extend(width, runs, last))
  {
    hide Members, IsBucketOf;
    var next, start := Extend(width, runs, last), Start(width, last.atMs);
    forall k | 0 <= k < |next|
      ensures IsBucketOf(width, front + [last], next[k])
    {
      BucketExtends(width, front, last, runs, k);
    }
    forall x: nat | Members(width, x, front + [last]) != []
      ensures exists k :: 0 <= k < |next| && next[k].atMs == x
    {
      MembersSnoc(width, x, front, last);
      if x == start {
        assert next[|next| - 1].atMs == x;
      } else {
        var k :| 0 <= k < |runs| && runs[k].atMs == x;
        assert next[k].atMs == x;
      }
    }
  }

  lemma {:induction false} RunsAreGroups(width: nat, samples: seq<Sample>)
    requires width > 0 && StartsNeverFall(width, samples)
    ensures AreGroups(width, samples, Runs(width, samples))
    decreases |samples|
  {
    hide Members, AreGroups, Merge, Start;
    if samples == [] {
      NoGroups(width);
    } else {
      var front, last := samples[..|samples| - 1], samples[|samples| - 1];
      RunsAreGroups(width, front);
      LastRunIsLast(width, front);
      assert samples == front + [last];
      GroupsExtend(width, front, last, Runs(width, front));
    }
  }

  /** The newest run is that of the last sample. */
  lemma LastRunIsLast(width: nat, samples: seq<Sample>)
    requires width > 0
    ensures Runs(width, samples) == [] <==> samples == []
    ensures samples != [] ==>
      Runs(width, samples)[|Runs(width, samples)| - 1].atMs == Start(width, samples[|samples| - 1].atMs)
  {
    hide Merge, Start;
  }

  predicate StartsAscend(runs: seq<Bucket>) {
    forall i, j :: 0 <= i < j < |runs| ==> runs[i].atMs < runs[j].atMs
  }

  /** Runs that ascend come from starts that never fall. */
  lemma {:induction false} AscendingNeverFell(width: nat, samples: seq<Sample>)
    requires width > 0 && StartsAscend(Runs(width, samples))
    ensures StartsNeverFall(width, samples)
    decreases |samples|
  {
    hide Merge, Start, Runs, StartsNeverFall, StartsAscend;
    if samples != [] {
      var front, last := samples[..|samples| - 1], samples[|samples| - 1];
      var runs := Runs(width, front);
      assert Runs(width, samples) == Extend(width, runs, last) by { RunsExtend(width, samples); }
      ExtendedAscended(width, runs, last);
      AscendingNeverFell(width, front);
      LastRunIsLast(width, front);
      NeverFallsOn(width, front, last);
      assert samples == front + [last];
    } else {
      NothingFalls(width);
    }
  }

  lemma RunsExtend(width: nat, samples: seq<Sample>)
    requires width > 0 && samples != []
    ensures Runs(width, samples) == Extend(width, Runs(width, samples[..|samples| - 1]), samples[|samples| - 1])
  {
    hide Extend;
  }

  lemma ExtendedAscended(width: nat, runs: seq<Bucket>, last: Sample)
    requires width > 0 && StartsAscend(Extend(width, runs, last))
    ensures StartsAscend(runs)
    ensures runs != [] ==> runs[|runs| - 1].atMs <= Start(width, last.atMs)
  {
    hide Merge, Start;
    var next := Extend(width, runs, last);
    assert forall i :: 0 <= i < |runs| ==> next[i].atMs == runs[i].atMs;
    assert next[|next| - 1].atMs == Start(width, last.atMs);
    if runs != [] && |next| > |runs| {
      assert next[|runs| - 1].atMs < next[|runs|].atMs;
    }
  }

  lemma NeverFallsOn(width: nat, front: seq<Sample>, last: Sample)
    requires width > 0 && StartsNeverFall(width, front)
    requires front != [] ==> Start(width, front[|front| - 1].atMs) <= Start(width, last.atMs)
    ensures StartsNeverFall(width, front + [last])
  {
    hide Start;
    var samples := front + [last];
    forall i, j | 0 <= i < j < |samples|
      ensures Start(width, samples[i].atMs) <= Start(width, samples[j].atMs)
    {
      assert i < |front| - 1 ==> Start(width, front[i].atMs) <= Start(width, front[|front| - 1].atMs);
      assert j < |front| ==> Start(width, front[i].atMs) <= Start(width, front[j].atMs);
    }
  }

  lemma NothingFalls(width: nat)
    requires width > 0
    ensures StartsNeverFall(width, [])
  {
  }

  /** The runs are the buckets, each start once and ascending, exactly when no sample falls into an
      earlier bucket than the sample before it. */
  lemma RunsAreGroupsExactly(width: nat, samples: seq<Sample>)
    requires width > 0
    ensures AreGroups(width, samples, Runs(width, samples)) <==> StartsNeverFall(width, samples)
  {
    hide Runs, StartsNeverFall;
    if StartsNeverFall(width, samples) {
      RunsAreGroups(width, samples);
    }
    if AreGroups(width, samples, Runs(width, samples)) {
      GroupsAscend(width, samples, Runs(width, samples));
      AscendingNeverFell(width, samples);
    }
  }

  lemma GroupsAscend(width: nat, samples: seq<Sample>, runs: seq<Bucket>)
    requires width > 0 && AreGroups(width, samples, runs)
    ensures StartsAscend(runs)
  {
    hide Members, Folded;
  }

  lemma NoGroups(width: nat)
    requires width > 0
    ensures AreGroups(width, [], [])
  {
  }

  // ---------------------------------------------------------------- windows of runs

  /** Buckets that ended before the window do not change it. */
  lemma {:induction false} WindowSkips(buckets: seq<Bucket>, width: nat, from: nat, past: nat)
    requires past <= |buckets|
    requires forall k :: 0 <= k < past ==> buckets[k].atMs + width <= from
    ensures InWindow(buckets, width, from) == InWindow(buckets[past..], width, from)
  {
    if past > 0 {
      WindowSkips(buckets[1..], width, from, past - 1);
      assert buckets[1..][past - 1..] == buckets[past..];
    }
  }

  lemma {:induction false} AllShown(buckets: seq<Bucket>, width: nat, from: nat)
    requires forall k :: 0 <= k < |buckets| ==> buckets[k].atMs + width > from
    ensures InWindow(buckets, width, from) == buckets
  {
    if buckets != [] {
      AllShown(buckets[1..], width, from);
      assert buckets == [buckets[0]] + buckets[1..];
    }
  }

  /** A window of ascending buckets is a tail of them. */
  lemma WindowIsTail(buckets: seq<Bucket>, width: nat, from: nat) returns (d: nat)
    requires forall i, j :: 0 <= i < j < |buckets| ==> buckets[i].atMs < buckets[j].atMs
    ensures d <= |buckets| && InWindow(buckets, width, from) == buckets[d..]
    ensures forall k :: 0 <= k < |buckets| ==> (k >= d <==> buckets[k].atMs + width > from)
  {
    d := 0;
    while d < |buckets| && buckets[d].atMs + width <= from
      invariant d <= |buckets|
      invariant forall k :: 0 <= k < d ==> buckets[k].atMs + width <= from
    {
      d := d + 1;
    }
    hide InWindow;
    forall k | 0 <= k < |buckets|
      ensures k >= d <==> buckets[k].atMs + width > from
    {
      assert k > d ==> buckets[d].atMs < buckets[k].atMs;
    }
    WindowSkips(buckets, width, from, d);
    AllShown(buckets[d..], width, from);
  }

  /** The window of all buckets is the reference series. */
  lemma GroupsGiveSeries(width: nat, from: nat, samples: seq<Sample>, runs: seq<Bucket>)
    requires width > 0 && AreGroups(width, samples, runs)
    ensures IsSeries(width, from, samples, Points(InWindow(runs, width, from)))
  {
    hide Members, Folded, InWindow;
    var d := WindowIsTail(runs, width, from);
    var shown := runs[d..];
    var starts := seq(|shown|, i requires 0 <= i < |shown| => shown[i].atMs);
    forall k | 0 <= k < |starts|
      ensures starts[k] == runs[k + d].atMs && IsBucketOf(width, samples, runs[k + d])
    {
    }
    forall x: nat
      ensures x in starts <==> Members(width, x, samples) != [] && x + width > from
    {
      if Members(width, x, samples) != [] && x + width > from {
        var k :| 0 <= k < |runs| && runs[k].atMs == x;
        assert starts[k - d] == x;
      }
    }
    assert IsWindow(width, from, samples, starts, Points(shown));
  }

  /** Ascending bucket starts are at least a width apart. */
  lemma {:induction false} StartsAreSpaced(width: nat, samples: seq<Sample>, runs: seq<Bucket>, i: nat, j: nat)
    requires width > 0 && AreGroups(width, samples, runs)
    requires i <= j < |runs|
    ensures runs[i].atMs + (j - i) * width <= runs[j].atMs
    decreases j
  {
    hide Members, Folded;
    if i < j {
      StartsAreSpaced(width, samples, runs, i, j - 1);
      assert IsBucketOf(width, samples, runs[j - 1]) && IsBucketOf(width, samples, runs[j]);
      BucketStart(width, samples, runs[j - 1].atMs);
      BucketStart(width, samples, runs[j].atMs);
      MultiplesAreSpaced(width, runs[j - 1].atMs, runs[j].atMs);
      assert (j - i) * width == (j - 1 - i) * width + width;
    }
  }

  lemma MultiplesAreSpaced(width: nat, a: nat, b: nat)
    requires width > 0 && a < b
    requires a == a / width * width && b == b / width * width
    ensures a + width <= b
  {
    if b / width <= a / width {
      MulOrder(b / width, a / width, width);
      assert false;
    }
    MulOrder(a / width + 1, b / width, width);
  }

  /** A start that has members is a multiple of the width. */
  lemma {:induction false} BucketStart(width: nat, samples: seq<Sample>, start: nat)
    requires width > 0 && Members(width, start, samples) != []
    ensures start == start / width * width
    decreases |samples|
  {
    var last := samples[|samples| - 1];
    if Start(width, last.atMs) == start {
      StartOrder(width, last.atMs, last.atMs);
      QuotientOfMultiple(last.atMs / width, width);
    } else {
      BucketStart(width, samples[..|samples| - 1], start);
    }
  }

  lemma QuotientOfMultiple(q: nat, width: nat)
    requires width > 0
    ensures q * width / width == q
  {
    var p := q * width / width;
    if p < q {
      MulOrder(p + 1, q, width);
    } else if q < p {
      MulOrder(q + 1, p, width);
    }
  }

  /** What the ring dropped ended before the window, if the ring is as long as the window. */
  lemma EvictedAreOld(width: nat, capacity: nat, samples: seq<Sample>, rangeMs: nat, nowMs: nat, k: nat)
    requires width > 0 && samples != [] && StartsNeverFall(width, samples)
    requires samples[|samples| - 1].atMs <= nowMs
    requires rangeMs <= capacity * width
    requires k + capacity + 1 < |Runs(width, samples)|
    ensures Runs(width, samples)[k].atMs + width <= From(rangeMs, nowMs)
  {
    hide Runs, AreGroups, Start;
    RunsAreGroups(width, samples);
    LastRunIsLast(width, samples);
    var runs := Runs(width, samples);
    StartsAreSpaced(width, samples, runs, k, |runs| - 1);
    hide StartsNeverFall;
    StartOrder(width, samples[|samples| - 1].atMs, samples[|samples| - 1].atMs);
    SpanCovers(width, capacity, |runs| - 1 - k);
  }

  /** So many buckets are longer than the ring and one bucket more. */
  lemma SpanCovers(width: nat, capacity: nat, steps: nat)
    requires steps >= capacity + 1
    ensures steps * width >= capacity * width + width
  {
    MulOrder(capacity + 1, steps, width);
    assert (capacity + 1) * width == capacity * width + width;
  }

  // ---------------------------------------------------------------- when a ring is long enough

  /** The ring answers the window as an unbounded history would, in every run and at every time
      from the last sample on. */
  ghost predicate AnswersInFull(width: nat, capacity: nat, rangeMs: nat)
    requires width > 0
  {
    forall samples: seq<Sample>, nowMs: nat | StartsNeverFall(width, samples) && NotLater(samples, nowMs) ::
      IsSeries(width, From(rangeMs, nowMs), samples,
               TierSeries(TierAfter(width, capacity, samples), From(rangeMs, nowMs)))
  }

  /** The last sample is not after `nowMs`. */
  predicate NotLater(samples: seq<Sample>, nowMs: nat) {
    samples == [] || samples[|samples| - 1].atMs <= nowMs
  }

  lemma RingAnswers(width: nat, capacity: nat, rangeMs: nat, samples: seq<Sample>, nowMs: nat)
    requires width > 0 && StartsNeverFall(width, samples) && NotLater(samples, nowMs)
    requires rangeMs <= capacity * width
    ensures IsSeries(width, From(rangeMs, nowMs), samples,
                     TierSeries(TierAfter(width, capacity, samples), From(rangeMs, nowMs)))
  {
    var runs, from := Runs(width, samples), From(rangeMs, nowMs);
    RunsAreGroups(width, samples);
    TierIsTailOfRuns(width, capacity, samples);
    GroupsGiveSeries(width, from, samples, runs);
    hide Runs, TierAfter, IsSeries;
    forall k | 0 <= k < Dropped(|runs|, capacity)
      ensures runs[k].atMs + width <= from
    {
      EvictedAreOld(width, capacity, samples, rangeMs, nowMs, k);
    }
    WindowSkips(runs, width, from, Dropped(|runs|, capacity));
  }

  /** One sample at the start of each of `count` successive buckets. */
  function OnePerBucket(width: nat, count: nat): seq<Sample> {
    seq(count, (i: nat) => Sample(i * width, Point(None, None, None, None)))
  }

  lemma {:induction false} OnePerBucketRuns(width: nat, count: nat)
    requires width > 0
    ensures |Runs(width, OnePerBucket(width, count))| == count
    ensures forall k :: 0 <= k < count ==> Runs(width, OnePerBucket(width, count))[k].atMs == k * width
  {
    if count > 0 {
      OnePerBucketRuns(width, count - 1);
      var samples := OnePerBucket(width, count);
      assert samples[..count - 1] == OnePerBucket(width, count - 1);
      QuotientOfMultiple(count - 1, width);
      StartOrder(width, (count - 1) * width, (count - 1) * width);
      if count > 1 {
        assert (count - 1) * width == (count - 2) * width + width;
      }
    }
  }

  lemma OnePerBucketInOrder(width: nat, count: nat)
    ensures InOrder(OnePerBucket(width, count))
  {
    forall i, j | 0 <= i < j < count
      ensures i * width <= j * width
    {
      MulOrder(i, j, width);
    }
  }

  lemma {:induction false} WindowIsPart(buckets: seq<Bucket>, width: nat, from: nat)
    ensures |InWindow(buckets, width, from)| <= |buckets|
    ensures |InWindow(buckets, width, from)| == |buckets|
       <==> forall i :: 0 <= i < |buckets| ==> buckets[i].atMs + width > from
  {
    if buckets != [] {
      var rest := buckets[1..];
      WindowIsPart(rest, width, from);
      assert forall i :: 1 <= i < |buckets| ==> buckets[i] == rest[i - 1];
      assert forall i :: 0 <= i < |rest| ==> rest[i] == buckets[i + 1];
    }
  }

  /** A ring never answers with more than its closed buckets and the open one. */
  lemma AnswerIsShort(width: nat, capacity: nat, samples: seq<Sample>, from: nat)
    requires width > 0
    ensures |TierSeries(TierAfter(width, capacity, samples), from)| <= capacity + 1
  {
    TierIsTailOfRuns(width, capacity, samples);
    WindowIsPart(AllBuckets(TierAfter(width, capacity, samples)), width, from);
  }

  lemma OnePerBucketNotLater(width: nat, capacity: nat)
    ensures InOrder(OnePerBucket(width, capacity + 2))
    ensures NotLater(OnePerBucket(width, capacity + 2), (capacity + 1) * width)
  {
    OnePerBucketInOrder(width, capacity + 2);
    hide InOrder;
  }

  /** A window that reaches into the first bucket shows them all. */
  lemma SeriesOfAll(width: nat, from: nat, samples: seq<Sample>)
    requires width > 0 && StartsNeverFall(width, samples)
    requires Runs(width, samples) != [] && Runs(width, samples)[0].atMs + width > from
    ensures exists points :: IsSeries(width, from, samples, points) && |points| == |Runs(width, samples)|
  {
    hide Runs, StartsNeverFall, InWindow, AreGroups, IsSeries;
    var runs := Runs(width, samples);
    RunsAreGroups(width, samples);
    GroupsGiveSeries(width, from, samples, runs);
    GroupsAscend(width, samples, runs);
    var d := WindowIsTail(runs, width, from);
    assert |Points(InWindow(runs, width, from))| == |runs|;
  }

  /** A window longer than the ring has a run it answers short. */
  lemma RingFallsShort(width: nat, capacity: nat, rangeMs: nat)
    requires width > 0 && rangeMs > capacity * width
    ensures var samples := OnePerBucket(width, capacity + 2);
      var from := From(rangeMs, (capacity + 1) * width);
      && InOrder(samples) && NotLater(samples, (capacity + 1) * width)
      && !IsSeries(width, from, samples, TierSeries(TierAfter(width, capacity, samples), from))
  {
    hide Runs, TierAfter, IsSeries, TierSeries, OnePerBucket, NotLater, InOrder, StartsNeverFall;
    var samples := OnePerBucket(width, capacity + 2);
    var from := From(rangeMs, (capacity + 1) * width);
    assert (capacity + 1) * width == capacity * width + width;
    OnePerBucketNotLater(width, capacity);
    OnePerBucketRuns(width, capacity + 2);
    assert Runs(width, samples)[0].atMs == 0 * width;
    InOrderNeverFalls(width, samples);
    SeriesOfAll(width, from, samples);
    var points :| IsSeries(width, from, samples, points) && |points| == capacity + 2;
    AnswerIsShort(width, capacity, samples, from);
    var answer := TierSeries(TierAfter(width, capacity, samples), from);
    if IsSeries(width, from, samples, answer) {
      SeriesIsUnique(width, from, samples, answer, points);
    }
  }

  /** A ring is long enough exactly when its closed buckets span the window: its capacity is tight. */
  lemma RingLengthIsTight(width: nat, capacity: nat, rangeMs: nat)
    requires width > 0
    ensures AnswersInFull(width, capacity, rangeMs) <==> rangeMs <= capacity * width
  {
    hide TierAfter, IsSeries, StartsNeverFall, InOrder;
    if rangeMs <= capacity * width {
      forall samples: seq<Sample>, nowMs: nat | StartsNeverFall(width, samples) && NotLater(samples, nowMs)
        ensures IsSeries(width, From(rangeMs, nowMs), samples,
                         TierSeries(TierAfter(width, capacity, samples), From(rangeMs, nowMs)))
      {
        RingAnswers(width, capacity, rangeMs, samples, nowMs);
      }
    } else {
      RingFallsShort(width, capacity, rangeMs);
      InOrderNeverFalls(width, OnePerBucket(width, capacity + 2));
    }
  }

  /** The ladder answers every window up to seven days in full, and none beyond; every range the
      pane offers is one of those, and 1 h, 24 h and 7 d use up their ring to the last bucket. */
  lemma LadderIsTight(rangeS: nat)
    ensures var bucketS := BucketSeconds(rangeS);
      && (AnswersInFull(bucketS * 1000, TierCapacity(bucketS), rangeS * 1000) <==> rangeS <= 604_800)
      && (rangeS in {3600, 86_400, 604_800} ==>
            !AnswersInFull(bucketS * 1000, TierCapacity(bucketS) - 1, rangeS * 1000))
    ensures forall range :: range in TIME_RANGES ==> range <= 604_800
  {
    hide AnswersInFull;
    var bucketS := BucketSeconds(rangeS);
    RingLengthIsTight(bucketS * 1000, TierCapacity(bucketS), rangeS * 1000);
    RingLengthIsTight(bucketS * 1000, TierCapacity(bucketS) - 1, rangeS * 1000);
  }

  /** The ring of one-second buckets reaches back five minutes, those of a quarter minute, a minute and ten
      minutes an hour, a day and a week; each window offered is cut into this many buckets. */
  lemma RingsReach(rangeS: nat)
    ensures AnswersInFull(1_000, TierCapacity(1), rangeS * 1000) <==> rangeS <= 5 * 60
    ensures AnswersInFull(15_000, TierCapacity(15), rangeS * 1000) <==> rangeS <= 60 * 60
    ensures AnswersInFull(60_000, TierCapacity(60), rangeS * 1000) <==> rangeS <= 24 * 60 * 60
    ensures AnswersInFull(600_000, TierCapacity(600), rangeS * 1000) <==> rangeS <= 7 * 24 * 60 * 60
    ensures forall i :: 0 <= i < |TIME_RANGES| ==>
      TIME_RANGES[i] == BucketSeconds(TIME_RANGES[i]) * [60, 40, 120, 240, 120, 360, 1440, 288, 1008][i]
  {
    hide AnswersInFull;
    RingLengthIsTight(1_000, TierCapacity(1), rangeS * 1000);
    RingLengthIsTight(15_000, TierCapacity(15), rangeS * 1000);
    RingLengthIsTight(60_000, TierCapacity(60), rangeS * 1000);
    RingLengthIsTight(600_000, TierCapacity(600), rangeS * 1000);
  }

  /** Aligned starts in ascending order, each bucket holding the fold of all its samples. */
  ghost predicate InShape(width: nat, samples: seq<Sample>, buckets: seq<Bucket>)
    requires width > 0
  {
    && (forall i, j :: 0 <= i < j < |buckets| ==> buckets[i].atMs < buckets[j].atMs)
    && (forall k :: 0 <= k < |buckets| ==> buckets[k].atMs == buckets[k].atMs / width * width)
    && (forall k :: 0 <= k < |buckets| ==> IsBucketOf(width, samples, buckets[k]))
  }

  lemma TailInShape(width: nat, samples: seq<Sample>, runs: seq<Bucket>, d: nat)
    requires width > 0 && AreGroups(width, samples, runs) && d <= |runs|
    ensures InShape(width, samples, runs[d..])
  {
    hide Members, Folded;
    forall k | d <= k < |runs|
      ensures IsBucketOf(width, samples, runs[k]) && runs[k].atMs == runs[k].atMs / width * width
    {
      BucketStart(width, samples, runs[k].atMs);
    }
  }

  /** What every tier keeps, in every run. */
  lemma TierStaysInShape(width: nat, capacity: nat, samples: seq<Sample>)
    requires width > 0 && StartsNeverFall(width, samples)
    ensures |TierAfter(width, capacity, samples).buckets| <= capacity
    ensures InShape(width, samples, AllBuckets(TierAfter(width, capacity, samples)))
  {
    RunsAreGroups(width, samples);
    TierIsRuns(width, capacity, samples);
    TierIsTailOfRuns(width, capacity, samples);
    hide Runs, TierAfter, InShape, AreGroups, AllBuckets, StartsNeverFall;
    TailInShape(width, samples, Runs(width, samples), Dropped(|Runs(width, samples)|, capacity));
  }

  // ---------------------------------------------------------------- the ladder as an object

  /** The bucket widths the offered ranges need, in seconds. */
  const WIDTHS: seq<nat> := [1, 15, 60, 600]

  function EmptyTier(width: nat): Tier {
    Tier(width * 1000, TierCapacity(width), [], None)
  }

  function FindTier(tiers: seq<Tier>, bucketMs: nat): Option<Tier> {
    if tiers == [] then None
    else if tiers[0].bucketMs == bucketMs then Some(tiers[0])
    else FindTier(tiers[1..], bucketMs)
  }

  lemma {:induction false} FindFirst(tiers: seq<Tier>, bucketMs: nat, k: nat)
    requires k < |tiers| && tiers[k].bucketMs == bucketMs
    requires forall i :: 0 <= i < k ==> tiers[i].bucketMs != bucketMs
    ensures FindTier(tiers, bucketMs) == Some(tiers[k])
  {
    if k > 0 {
      FindFirst(tiers[1..], bucketMs, k - 1);
    }
  }

  lemma {:induction false} FindNone(tiers: seq<Tier>, bucketMs: nat)
    requires forall i :: 0 <= i < |tiers| ==> tiers[i].bucketMs != bucketMs
    ensures FindTier(tiers, bucketMs) == None
  {
    if tiers != [] {
      FindNone(tiers[1..], bucketMs);
    }
  }

  /** Where the tier for a range stands in the ladder. */
  function TierIndex(rangeS: nat): nat {
    if rangeS <= 60 then 0 else if rangeS <= 3600 then 1 else if rangeS <= 86_400 then 2 else 3
  }

  class History {
    var tiers: seq<Tier>
    /** Everything that was ever pushed. */
    ghost var samples: seq<Sample>

    /** Every tier holds what its width and capacity leave of all samples. */
    ghost predicate Valid()
      reads this
    {
      && |tiers| == 4
      && forall i :: 0 <= i < 4 ==>
           tiers[i] == TierAfter(WIDTHS[i] * 1000, TierCapacity(WIDTHS[i]), samples)
    }

    constructor ()
      ensures Valid() && samples == []
    {
      var ladder: seq<Tier> := [];
      for i := 0 to |TIME_RANGES|
        invariant |ladder| == if i == 0 then 0 else TierIndex(TIME_RANGES[i - 1]) + 1
        invariant forall k :: 0 <= k < |ladder| ==> ladder[k] == EmptyTier(WIDTHS[k])
      {
        var width := BucketSeconds(TIME_RANGES[i]);
        if TierIndex(TIME_RANGES[i]) < |ladder| {
          FindFirst(ladder, width * 1000, TierIndex(TIME_RANGES[i]));
        } else {
          FindNone(ladder, width * 1000);
        }
        if FindTier(ladder, width * 1000).None? {
          ladder := ladder + [EmptyTier(width)];
        }
      }
      tiers := ladder;
      samples := [];
    }

    /** Each tier takes the sample in turn, in place. */
    method Push(sample: Sample)
      requires Valid()
      modifies this
      ensures Valid() && samples == old(samples) + [sample]
    {
      hide TierAfter, TierPush;
      var i := 0;
      while i < |tiers|
        invariant 0 <= i <= |tiers| == 4 && samples == old(samples)
        invariant forall k :: 0 <= k < i ==> tiers[k] == TierPush(old(tiers)[k], sample)
        invariant forall k :: i <= k < 4 ==> tiers[k] == old(tiers)[k]
      {
        AfterKeepsWidth(i, samples);
        var tier := FoldInto(tiers[i], sample);
        tiers := tiers[i := tier];
        i := i + 1;
      }
      samples := samples + [sample];
      forall k | 0 <= k < 4
        ensures tiers[k] == TierAfter(WIDTHS[k] * 1000, TierCapacity(WIDTHS[k]), samples)
      {
        AfterOneMore(WIDTHS[k] * 1000, TierCapacity(WIDTHS[k]), old(samples), sample);
      }
    }

    /** Points covering the last `rangeS` seconds, oldest first. */
    function Series(rangeS: nat, nowMs: nat): seq<Point>
      reads this
    {
      match FindTier(tiers, BucketSeconds(rangeS) * 1000)
      case None => []
      case Some(tier) => TierSeries(tier, From(rangeS * 1000, nowMs))
    }

    /** How many points the ring of a window holds. */
    function Len(rangeS: nat): nat
      reads this
    {
      match FindTier(tiers, BucketSeconds(rangeS) * 1000)
      case None => 0
      case Some(tier) => |AllBuckets(tier)|
    }

    ghost function RingOf(rangeS: nat): Tier
      requires Valid()
      reads this
    {
      tiers[TierIndex(rangeS)]
    }

    lemma RingIsFound(rangeS: nat)
      requires Valid()
      ensures FindTier(tiers, BucketSeconds(rangeS) * 1000) == Some(RingOf(rangeS))
    {
      hide TierAfter;
      FindFirst(tiers, BucketSeconds(rangeS) * 1000, TierIndex(rangeS));
    }

    /** The count of a window's ring is bounded, is never less than what the window shows, and is more
        exactly when the ring still holds a bucket that ended before the window. */
    lemma LenCoversTheWindow(rangeS: nat, nowMs: nat)
      requires Valid()
      ensures Len(rangeS) <= TierCapacity(BucketSeconds(rangeS)) + 1
      ensures |Series(rangeS, nowMs)| <= Len(rangeS)
      ensures var ring, start := RingOf(rangeS), From(rangeS * 1000, nowMs);
        (|Series(rangeS, nowMs)| == Len(rangeS))
          == forall i :: 0 <= i < |AllBuckets(ring)| ==> AllBuckets(ring)[i].atMs + ring.bucketMs > start
    {
      hide TierAfter, AllBuckets, InWindow, FindTier, Runs;
      RingIsFound(rangeS);
      var ring := RingOf(rangeS);
      TierIsTailOfRuns(ring.bucketMs, ring.capacity, samples);
      WindowIsPart(AllBuckets(ring), ring.bucketMs, From(rangeS * 1000, nowMs));
    }

    /** Bounded rings stand in for everything that was pushed: while the clock never steps back into an
        earlier bucket, any window of up to seven days reads as the unbounded history would. */
    lemma SeriesAnswersInFull(rangeS: nat, nowMs: nat)
      requires Valid() && StartsNeverFall(BucketSeconds(rangeS) * 1000, samples)
      requires NotLater(samples, nowMs) && rangeS <= 604_800
      ensures IsSeries(BucketSeconds(rangeS) * 1000, From(rangeS * 1000, nowMs), samples, Series(rangeS, nowMs))
    {
      var bucketS := BucketSeconds(rangeS);
      FindFirst(tiers, bucketS * 1000, TierIndex(rangeS));
      RingAnswers(bucketS * 1000, TierCapacity(bucketS), rangeS * 1000, samples, nowMs);
    }
  }

  lemma AfterKeepsWidth(i: nat, samples: seq<Sample>)
    requires i < 4
    ensures TierAfter(WIDTHS[i] * 1000, TierCapacity(WIDTHS[i]), samples).bucketMs == WIDTHS[i] * 1000
  {
  }

  lemma AfterOneMore(width: nat, capacity: nat, samples: seq<Sample>, sample: Sample)
    requires width > 0
    ensures TierAfter(width, capacity, samples + [sample]) == TierPush(TierAfter(width, capacity, samples), sample)
  {
    assert (samples + [sample])[..|samples|] == samples;
  }

  /** Fold one sample into one tier: into the open bucket, or into a new one after the open bucket
      has closed and the oldest closed buckets have made room. */
  method FoldInto(tier: Tier, sample: Sample) returns (next: Tier)
    requires tier.bucketMs > 0
    ensures next == TierPush(tier, sample)
  {
    var start := Start(tier.bucketMs, sample.atMs);
    if tier.open.Some? && tier.open.value.atMs == start {
      var open := tier.open.value;
      return tier.(open := Some(Bucket(start, Merge(open.point, sample.point, open.count), open.count + 1)));
    }
    var buckets := tier.buckets;
    if tier.open.Some? {
      buckets := buckets + [tier.open.value];
      ghost var all := buckets;
      while |buckets| > tier.capacity
        invariant |buckets| <= |all| && buckets == all[|all| - |buckets|..]
        invariant |buckets| >= tier.capacity || buckets == all
      {
        buckets := buckets[1..];
      }
    }
    next := tier.(buckets := buckets, open := Some(Bucket(start, sample.point, 1)));
  }
}
