/** The values of the monitor's buckets: what a chart shows for the samples folded into one. */
module ChartValues {
  import opened Options
  import opened SampleHistory

  // One series of a bucket, as the bucket's samples present or lack it.

  /** The slot of a bucket after `values`; the first sample fills it, the others are blended in. */
  function BlendAll(values: seq<Option<real>>): Option<real>
    requires values != []
  {
    var front, last := values[..|values| - 1], values[|values| - 1];
    if front == [] then last else Blend(BlendAll(front), last, |front|)
  }

  function Present(values: seq<Option<real>>): seq<real> {
    if values == [] then []
    else
      var before := Present(values[..|values| - 1]);
      match values[|values| - 1]
      case None => before
      case Some(v) => before + [v]
  }

  function Sum(values: seq<real>): real {
    if values == [] then 0.0 else Sum(values[..|values| - 1]) + values[|values| - 1]
  }

  function Mean(values: seq<real>): real
    requires values != []
  {
    Sum(values) / |values| as real
  }

  function SeriesOf(samples: seq<Sample>, pick: Point -> Option<real>): seq<Option<real>> {
    seq(|samples|, i requires 0 <= i < |samples| => pick(samples[i].point))
  }

  /** `pick` reads one of the slots a merge blends. */
  ghost predicate PicksSlot(pick: Point -> Option<real>) {
    forall p, q, n: nat :: pick(Merge(p, q, n)) == Blend(pick(p), pick(q), n)
  }

  lemma FoldedSlotSnoc(front: seq<Sample>, last: Sample, pick: Point -> Option<real>)
    requires front != [] && PicksSlot(pick)
    ensures pick(Folded(front + [last])) == Blend(pick(Folded(front)), pick(last.point), |front|)
  {
    FoldedSnoc(front, last);
  }

  lemma BlendAllSnoc(front: seq<Option<real>>, last: Option<real>)
    ensures BlendAll(front + [last]) == if front == [] then last else Blend(BlendAll(front), last, |front|)
  {
    assert (front + [last])[..|front|] == front;
  }

  lemma {:induction false} FoldedBlendsPick(members: seq<Sample>, pick: Point -> Option<real>)
    requires members != [] && PicksSlot(pick)
    ensures pick(Folded(members)) == BlendAll(SeriesOf(members, pick))
    decreases |members|
  {
    hide PicksSlot, Blend, BlendAll, Merge;
    var front, last := members[..|members| - 1], members[|members| - 1];
    assert SeriesOf(members, pick) == SeriesOf(front, pick) + [pick(last.point)];
    assert members == front + [last];
    BlendAllSnoc(SeriesOf(front, pick), pick(last.point));
    if front != [] {
      FoldedBlendsPick(front, pick);
      FoldedSlotSnoc(front, last, pick);
    }
  }

  /** Folding samples blends each of the four series on its own. */
  lemma FoldedBlendsSeries(members: seq<Sample>)
    requires members != []
    ensures Folded(members)
         == Point(BlendAll(SeriesOf(members, (p: Point) => p.cpu)),
                  BlendAll(SeriesOf(members, (p: Point) => p.mem)),
                  BlendAll(SeriesOf(members, (p: Point) => p.read)),
                  BlendAll(SeriesOf(members, (p: Point) => p.write)))
  {
    hide Folded, BlendAll, Blend;
    FoldedBlendsPick(members, (p: Point) => p.cpu);
    FoldedBlendsPick(members, (p: Point) => p.mem);
    FoldedBlendsPick(members, (p: Point) => p.read);
    FoldedBlendsPick(members, (p: Point) => p.write);
  }

  lemma WeightedBalances(current: real, weight: real, v: real)
    requires weight >= 0.0
    ensures Weighted(current, weight, v) * weight + Weighted(current, weight, v) == current * weight + v
  {
  }

  lemma Scale(a: real, b: real, k: real)
    requires a <= b && k >= 0.0
    ensures a * k <= b * k
  {
    assert (b - a) * k >= 0.0;
  }

  lemma WeightedIsBetween(current: real, weight: real, v: real, lo: real, hi: real)
    requires weight >= 0.0 && lo <= current <= hi && lo <= v <= hi
    ensures lo <= Weighted(current, weight, v) <= hi
  {
    hide Weighted;
    WeightedBalances(current, weight, v);
    var q := Weighted(current, weight, v);
    var lw, cw, hw, qw := lo * weight, current * weight, hi * weight, q * weight;
    Scale(lo, current, weight);
    Scale(current, hi, weight);
    if q < lo {
      Scale(q, lo, weight);
      Squeezed(qw, lw, cw, q, lo, v);
    } else if q > hi {
      Scale(hi, q, weight);
      Squeezed(-qw, -hw, -cw, -q, -hi, -v);
    }
  }

  /** The weighted mean cannot fall below both of its arguments. */
  lemma Squeezed(qw: real, lw: real, cw: real, q: real, lo: real, v: real)
    requires qw <= lw <= cw && lo <= v && qw + q == cw + v
    ensures lo <= q
  {
  }

  /** A charted value lies between the least and greatest of the samples behind it. */
  lemma {:induction false} BlendStaysBetween(values: seq<Option<real>>, lo: real, hi: real)
    requires values != []
    requires forall v :: v in Present(values) ==> lo <= v <= hi
    ensures BlendAll(values) == None <==> Present(values) == []
    ensures BlendAll(values).Some? ==> lo <= BlendAll(values).value <= hi
    decreases |values|
  {
    hide Weighted;
    var front, last := values[..|values| - 1], values[|values| - 1];
    assert last.Some? ==> last.value in Present(values);
    if front != [] {
      assert forall v :: v in Present(front) ==> v in Present(values);
      BlendStaysBetween(front, lo, hi);
      if BlendAll(front).Some? && last.Some? {
        WeightedIsBetween(BlendAll(front).value, |front| as real, last.value, lo, hi);
      }
    }
  }

  /** Which samples carry the series. */
  function Shape(values: seq<Option<real>>): seq<bool> {
    seq(|values|, i requires 0 <= i < |values| => values[i].Some?)
  }

  /** No sample carries the series after one that lacks it. */
  predicate PresentFirst(shape: seq<bool>) {
    forall i, j :: 0 <= i < j < |shape| && shape[j] ==> shape[i]
  }

  function CountTrue(shape: seq<bool>): nat {
    if shape == [] then 0 else CountTrue(shape[..|shape| - 1]) + (if shape[|shape| - 1] then 1 else 0)
  }

  /** Whatever the values, a bucket with this pattern of samples charts their mean. */
  ghost predicate ChartsMean(shape: seq<bool>) {
    forall values | Shape(values) == shape && Present(values) != [] ::
      BlendAll(values) == Some(Mean(Present(values)))
  }

  lemma {:induction false} PresentCount(values: seq<Option<real>>)
    ensures |Present(values)| == CountTrue(Shape(values))
    decreases |values|
  {
    if values != [] {
      PresentCount(values[..|values| - 1]);
      assert Shape(values)[..|values| - 1] == Shape(values[..|values| - 1]);
    }
  }

  lemma {:induction false} CountTrueBounds(shape: seq<bool>)
    ensures CountTrue(shape) <= |shape|
    ensures CountTrue(shape) == |shape| <==> forall i :: 0 <= i < |shape| ==> shape[i]
    ensures CountTrue(shape) == 0 <==> forall i :: 0 <= i < |shape| ==> !shape[i]
    decreases |shape|
  {
    if shape != [] {
      CountTrueBounds(shape[..|shape| - 1]);
    }
  }

  /** Adding a value to a mean of `k` values. */
  lemma MeanSnoc(before: seq<real>, v: real)
    requires before != []
    ensures Blend(Some(Mean(before)), Some(v), |before|) == Some(Mean(before + [v]))
  {
    hide Weighted;
    var all, k := before + [v], |before| as real;
    assert all[..|before|] == before;
    WeightedBalances(Mean(before), k, v);
    assert Mean(before) * k == Sum(before);
    assert |all| as real == k + 1.0;
    assert Mean(all) * k + Mean(all) == Sum(all);
    SameMultiple(Weighted(Mean(before), k, v), Mean(all), k);
  }

  lemma SameMultiple(a: real, b: real, k: real)
    requires k >= 0.0 && a * k + a == b * k + b
    ensures a == b
  {
    assert (a - b) * (k + 1.0) == 0.0;
  }

  /** The charted value is the mean of the samples that carry the series, if no sample that lacks
      it came before one that carries it. */
  lemma {:induction false} PresentFirstChartsMean(values: seq<Option<real>>)
    requires PresentFirst(Shape(values)) && Present(values) != []
    ensures BlendAll(values) == Some(Mean(Present(values)))
    decreases |values|
  {
    hide Blend, Mean;
    var front, last := values[..|values| - 1], values[|values| - 1];
    assert Shape(values)[..|front|] == Shape(front);
    PresentCount(front);
    CountTrueBounds(Shape(front));
    if last.Some? {
      assert Shape(values)[|front|];
      assert forall i :: 0 <= i < |front| ==> Shape(values)[i];
      if front == [] {
        SingleMean(last.value);
      } else {
        PresentFirstChartsMean(front);
        MeanSnoc(Present(front), last.value);
      }
    } else {
      PresentFirstChartsMean(front);
      BlendNothing(BlendAll(front), |front|);
    }
  }

  lemma BlendNothing(slot: Option<real>, samples: nat)
    ensures Blend(slot, None, samples) == slot
  {
  }

  lemma SingleMean(v: real)
    ensures Mean([v]) == v
    ensures Present([Some(v)]) == [v]
  {
    assert [v][..0] == [];
    assert Sum([v]) == v;
    assert [Some(v)][..0] == [];
  }

  /** One sample alone is its own mean, wherever it stands. */
  lemma {:induction false} SingleChartsMean(values: seq<Option<real>>)
    requires |Present(values)| == 1
    ensures BlendAll(values) == Some(Present(values)[0])
    decreases |values|
  {
    var front, last := values[..|values| - 1], values[|values| - 1];
    if last.None? {
      SingleChartsMean(front);
    } else if front != [] {
      BlendStaysBetween(front, 0.0, 0.0);
    }
  }

  /** Every carried value is 0. */
  function Zeros(shape: seq<bool>): seq<Option<real>> {
    seq(|shape|, i requires 0 <= i < |shape| => if shape[i] then Some(0.0) else None)
  }

  lemma PresentSnoc(front: seq<Option<real>>, last: Option<real>)
    ensures Present(front + [last]) == if last.Some? then Present(front) + [last.value] else Present(front)
  {
    assert (front + [last])[..|front|] == front;
  }

  lemma SumSnoc(front: seq<real>, last: real)
    ensures Sum(front + [last]) == Sum(front) + last
  {
    assert (front + [last])[..|front|] == front;
  }

  lemma ZerosShape(shape: seq<bool>)
    ensures Shape(Zeros(shape)) == shape
  {
  }

  lemma {:induction false} ZerosSum(shape: seq<bool>)
    ensures Sum(Present(Zeros(shape))) == 0.0
    ensures forall v :: v in Present(Zeros(shape)) ==> v == 0.0
    decreases |shape|
  {
    if shape != [] {
      var front, last := shape[..|shape| - 1], shape[|shape| - 1];
      ZerosSum(front);
      var slot := if last then Some(0.0) else None;
      assert Zeros(shape) == Zeros(front) + [slot];
      hide Zeros, Present, Sum;
      PresentSnoc(Zeros(front), slot);
      if last {
        SumSnoc(Present(Zeros(front)), 0.0);
      }
    } else {
      assert Zeros(shape) == [];
    }
  }

  lemma WeightedUnit(k: real, m: real)
    requires 0.0 <= m < k
    ensures Weighted(0.0, k, 1.0) != 1.0 / (m + 1.0)
  {
    var a, b := Weighted(0.0, k, 1.0), 1.0 / (m + 1.0);
    assert a * (k + 1.0) == 1.0 && b * (m + 1.0) == 1.0;
    assert a == b ==> a * (k - m) == 0.0;
  }

  /** All zeros but a 1 at the end: the blend weighs it by the samples before it, the mean by the
      values before it. */
  lemma LateValueMisses(front: seq<bool>)
    requires 0 < CountTrue(front) < |front|
    ensures var values := Zeros(front) + [Some(1.0)];
      && Shape(values) == front + [true]
      && Present(values) != []
      && BlendAll(values) != Some(Mean(Present(values)))
  {
    hide Weighted, Blend, BlendAll, Mean, Sum, Present, CountTrue, Zeros;
    var zeros := Zeros(front);
    ZerosShape(front);
    ZerosSum(front);
    PresentCount(zeros);
    BlendStaysBetween(zeros, 0.0, 0.0);
    BlendAllSnoc(zeros, Some(1.0));
    PresentSnoc(zeros, Some(1.0));
    var present, k, m := Present(zeros), |zeros| as real, CountTrue(front) as real;
    SumSnoc(present, 1.0);
    WeightedUnit(k, m);
    BlendTwo(0.0, 1.0, |zeros|);
    MeanIs(present + [1.0], 1.0, m + 1.0);
  }

  lemma BlendTwo(current: real, v: real, samples: nat)
    ensures Blend(Some(current), Some(v), samples) == Some(Weighted(current, samples as real, v))
  {
  }

  lemma MeanIs(values: seq<real>, sum: real, count: real)
    requires values != [] && Sum(values) == sum && |values| as real == count
    ensures Mean(values) == sum / count
  {
  }

  lemma {:induction false} MissesMean(shape: seq<bool>) returns (values: seq<Option<real>>)
    requires !PresentFirst(shape) && CountTrue(shape) > 1
    ensures Shape(values) == shape && Present(values) != []
    ensures BlendAll(values) != Some(Mean(Present(values)))
    decreases |shape|
  {
    hide Blend, Mean;
    var front := shape[..|shape| - 1];
    assert shape == front + [shape[|shape| - 1]];
    if shape[|shape| - 1] {
      CountTrueBounds(front);
      LateValueMisses(front);
      values := Zeros(front) + [Some(1.0)];
    } else {
      var before := MissesMean(front);
      values := before + [None];
      BlendAllSnoc(before, None);
      PresentSnoc(before, None);
      BlendNothing(BlendAll(before), |before|);
    }
  }

  /** A bucket's chart is the mean of the values it was given, for every choice of them, exactly
      when at most one of its samples carries the series or none carries it after one that lacks
      it. In particular when every sample does. */
  lemma WhenChartsAreMeans(shape: seq<bool>)
    ensures ChartsMean(shape) <==> PresentFirst(shape) || CountTrue(shape) <= 1
  {
    hide BlendAll, Mean;
    if PresentFirst(shape) || CountTrue(shape) <= 1 {
      forall values | Shape(values) == shape && Present(values) != []
        ensures BlendAll(values) == Some(Mean(Present(values)))
      {
        PresentCount(values);
        if PresentFirst(shape) {
          PresentFirstChartsMean(values);
        } else {
          SingleChartsMean(values);
          SingleMean(Present(values)[0]);
          assert Present(values) == [Present(values)[0]];
        }
      }
    } else {
      var values := MissesMean(shape);
    }
  }
}
