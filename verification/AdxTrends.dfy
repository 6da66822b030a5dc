/** What the index says in figures: the weights of the smoothing, single bars, and pure trends. */
module AdxTrends {
  import opened Arithmetic
  import opened Adx

  function Pow(x: real, n: nat): real {
    if n == 0 then 1.0 else x * Pow(x, n - 1)
  }

  // The part of an average that the next one keeps.
  function Kept(period: nat): real
    requires period >= 1
  {
    ((period - 1) as real) / (period as real)
  }

  // ----- smoothing, in closed form -----

  // How long ago, seen from bar `i`, datum `j` entered: the first `period` did so together.
  function Age(period: nat, i: nat, j: nat): nat
    requires period >= 1 && j <= i && period - 1 <= i
  {
    if j < period then i - (period - 1) else i - j
  }

  function Weight(period: nat, age: nat): real
    requires period >= 1
  {
    Pow(Kept(period), age) / (period as real)
  }

  // The first `k` data, weighted by their age seen from bar `i`.
  function WeightedSum(data: seq<real>, period: nat, i: nat, k: nat): real
    requires 1 <= period <= i + 1 && k <= i + 1 <= |data|
  {
    if k == 0 then 0.0
    else WeightedSum(data, period, i, k - 1) + Times(Weight(period, Age(period, i, k - 1)), data[k - 1])
  }

  lemma WeightShrinks(period: nat, age: nat)
    requires period >= 1
    ensures Weight(period, age + 1) == Times(Kept(period), Weight(period, age))
  {
    ProductOfQuotient(Kept(period), Pow(Kept(period), age), period as real);
  }

  lemma ProductOfQuotient(k: real, x: real, d: real)
    requires d > 0.0
    ensures k * x / d == Times(k, x / d)
  {
    QuotientTimes(k * x, d);
    QuotientTimes(x, d);
    TimesTimes(k, x / d, d);
    TimesCancels(k * x / d, Times(k, x / d), d);
    TimesCancels(Times(k, x / d), k * x / d, d);
  }

  lemma TimesTimes(x: real, y: real, z: real)
    ensures Times(Times(x, y), z) == Times(x, Times(y, z))
  {}

  // One bar later every weight is the part of it that is kept.
  lemma {:induction false} SumShrinks(data: seq<real>, period: nat, i: nat, k: nat)
    requires 1 <= period <= i && k <= i < |data|
    ensures WeightedSum(data, period, i, k) == Times(Kept(period), WeightedSum(data, period, i - 1, k))
  {
    if k > 0 {
      SumShrinks(data, period, i, k - 1);
      var age := Age(period, i - 1, k - 1);
      assert Age(period, i, k - 1) == age + 1;
      WeightShrinks(period, age);
      TimesTimes(Kept(period), Weight(period, age), data[k - 1]);
      TimesSum(Kept(period), WeightedSum(data, period, i - 1, k - 1), Times(Weight(period, age), data[k - 1]));
    }
  }

  lemma BlendIsKept(before: real, datum: real, period: nat)
    requires period >= 1
    ensures Blend(before, datum, period) == Times(Kept(period), before) + Times(Weight(period, 0), datum)
  {
    var w, d := (period - 1) as real, period as real;
    assert (Times(w / d, before) + Times(1.0 / d, datum)) * d == before * w + datum;
    QuotientTimes(before * w + datum, d);
  }

  lemma {:induction false} FirstWeights(data: seq<real>, period: nat, k: nat)
    requires 1 <= period <= |data| && k <= period
    ensures WeightedSum(data, period, period - 1, k) == Times(Weight(period, 0), Sum(data[..k]))
  {
    if k > 0 {
      FirstWeights(data, period, k - 1);
      assert data[..k][..k - 1] == data[..k - 1];
      assert Age(period, period - 1, k - 1) == 0;
      TimesSum(Weight(period, 0), Sum(data[..k - 1]), data[k - 1]);
    }
  }

  // Smoothing weighs a datum that entered `age` bars ago by ((period - 1) / period)^age / period.
  lemma {:induction false} SmoothIsWeighted(data: seq<real>, period: nat, i: nat)
    requires 1 <= period <= i + 1 <= |data|
    ensures SmoothAt(data, period, i) == WeightedSum(data, period, i, i + 1)
  {
    if i == period - 1 {
      FirstWeights(data, period, period);
      MeanIsWeighted(Sum(data[..period]), period);
    } else {
      SmoothIsWeighted(data, period, i - 1);
      SumShrinks(data, period, i, i);
      BlendIsKept(SmoothAt(data, period, i - 1), data[i], period);
      assert Age(period, i, i) == 0;
    }
  }

  lemma MeanIsWeighted(sum: real, period: nat)
    requires period >= 1
    ensures Mean(sum, period) == Times(Weight(period, 0), sum)
  {
    var d := period as real;
    assert Weight(period, 0) == 1.0 / d;
    QuotientTimes(sum, d);
    assert Times(1.0 / d, sum) * d == sum;
  }

  // ----- single bars -----

  // At most one movement of a bar counts: the larger, in full, if it is in its own direction.
  lemma OneMovementCounts(b: Bars, i: nat)
    requires b.Valid() && 0 < i < |b.close|
    ensures
      var up, down := b.high[i] - b.high[i - 1], b.low[i - 1] - b.low[i];
      && (up > down && up > 0.0 ==> PlusAt(b, i) == up && MinusAt(b, i) == 0.0)
      && (down > up && down > 0.0 ==> PlusAt(b, i) == 0.0 && MinusAt(b, i) == down)
      && (up == down || (up <= 0.0 && down <= 0.0) ==> PlusAt(b, i) == 0.0 && MinusAt(b, i) == 0.0)
  {}

  // The true range of a bar reaches from the least to the greatest of its prices and the last close.
  lemma TrueRangeIsExtent(b: Bars, i: nat)
    requires b.Valid() && 0 < i < |b.close| && b.low[i] <= b.high[i]
    ensures
      var last := b.close[i - 1];
      var top, bottom := if b.high[i] < last then last else b.high[i], if last < b.low[i] then last else b.low[i];
      RangeAt(b, i) == top - bottom
  {}

  // The index of a bar is a hundred times the part of the smoothed movements that does not cancel.
  lemma IndexIsRatio(b: Bars, period: nat, i: nat)
    requires b.Valid() && period >= 1 && period <= i < |b.close| && SmoothAt(Ranges(b), period, i) != 0.0
    ensures
      var p, m := SmoothAt(Pluses(b), period, i), SmoothAt(Minuses(b), period, i);
      Times(DirectionalIndices(b, period)[i], p + m) == 100.0 * (if p < m then m - p else p - m)
  {
    SmoothNonNegative(Pluses(b), period, i);
    SmoothNonNegative(Minuses(b), period, i);
    SmoothNonNegative(Ranges(b), period, i);
    RatioOfParts(SmoothAt(Pluses(b), period, i), SmoothAt(Minuses(b), period, i), SmoothAt(Ranges(b), period, i));
  }

  lemma RatioOfParts(p: real, m: real, range: real)
    requires p >= 0.0 && m >= 0.0 && range > 0.0
    ensures Times(DX(DI(p, range), DI(m, range)), p + m) == 100.0 * (if p < m then m - p else p - m)
  {
    QuotientTimes(100.0 * p, range);
    QuotientTimes(100.0 * m, range);
    if p + m > 0.0 {
      if p < m {
        LargerAndSmaller(DI(m, range), DI(p, range), m, p, range);
      } else {
        LargerAndSmaller(DI(p, range), DI(m, range), p, m, range);
      }
    } else {
      assert Times(DX(DI(p, range), DI(m, range)), 0.0) == 0.0;
    }
  }

  // Two quantities stand in the same ratio as the two that they are times `range`.
  lemma LargerAndSmaller(x: real, y: real, p: real, m: real, range: real)
    requires p >= m >= 0.0 && p > 0.0 && range > 0.0
    requires Times(x, range) == 100.0 * p && Times(y, range) == 100.0 * m
    ensures DX(x, y) == DX(y, x) && Times(DX(x, y), p + m) == 100.0 * (p - m)
  {
    assert Times(y, range) <= Times(x, range) && Times(0.0, range) == 0.0;
    TimesCancels(y, x, range);
    TimesCancels(0.0, y, range);
    assert x > 0.0;
    SumTimes(x, y, range);
    var sum, gap := x + y, x - y;
    QuotientTimes(100.0 * gap, sum);
    RatioScales(DX(x, y), sum, 100.0 * gap, range, p + m, p - m);
  }

  lemma SumTimes(x: real, y: real, factor: real)
    ensures Times(x + y, factor) == Times(x, factor) + Times(y, factor)
    ensures Times(100.0 * (x - y), factor) == 100.0 * (Times(x, factor) - Times(y, factor))
  {}

  lemma RatioScales(ratio: real, sum: real, gap: real, range: real, sum': real, gap': real)
    requires Times(ratio, sum) == gap && Times(sum, range) == 100.0 * sum' && Times(gap, range) == 10000.0 * gap'
    ensures Times(ratio, sum') == 100.0 * gap'
  {
    TimesTimes(ratio, sum, range);
    assert Times(ratio, 100.0 * sum') == 10000.0 * gap';
  }

  // ----- pure trends -----

  // No bar has a lower low than the one before, and one of the first has a higher high.
  predicate Rising(b: Bars, period: nat)
    requires b.Valid()
  {
    && (forall i :: 0 < i < |b.close| ==> b.low[i] >= b.low[i - 1])
    && (exists i :: 0 < i < |b.close| && i <= period && b.high[i] > b.high[i - 1])
  }

  predicate Falling(b: Bars, period: nat)
    requires b.Valid()
  {
    && (forall i :: 0 < i < |b.close| ==> b.high[i] <= b.high[i - 1])
    && (exists i :: 0 < i < |b.close| && i <= period && b.low[i] < b.low[i - 1])
  }

  lemma RisingIndex(b: Bars, period: nat, i: nat)
    requires b.Valid() && Proper(b) && Rising(b, period) && 2 <= period <= i < |b.close|
    ensures DirectionalIndices(b, period)[i] == 100.0
  {
    forall k | 0 <= k < |b.close|
      ensures Minuses(b)[k] == 0.0 && Pluses(b)[k] >= 0.0
    {
      assert k > 0 ==> b.low[k] >= b.low[k - 1];
    }
    var k :| 0 < k < |b.close| && k <= period && b.high[k] > b.high[k - 1];
    assert b.low[k] >= b.low[k - 1] && Pluses(b)[k] > 0.0;
    SmoothIsZero(Minuses(b), period, i);
    SmoothIsZero(Pluses(b), period, i);
    SmoothNonNegative(Pluses(b), period, i);
    RangeCovers(b, period, i);
    OneSided(SmoothAt(Pluses(b), period, i), SmoothAt(Ranges(b), period, i));
  }

  lemma RangeCovers(b: Bars, period: nat, i: nat)
    requires b.Valid() && Proper(b) && period >= 1 && i < |b.close|
    ensures SmoothAt(Pluses(b), period, i) + SmoothAt(Minuses(b), period, i) <= SmoothAt(Ranges(b), period, i)
  {
    forall k | 0 <= k < |b.close|
      ensures Pluses(b)[k] + Minuses(b)[k] <= Ranges(b)[k]
    {
      MovementsFitRange(b, k);
    }
    SmoothAdds(Pluses(b), Minuses(b), Ranges(b), period, i);
  }

  lemma OneSided(p: real, range: real)
    requires 0.0 < p <= range
    ensures DX(DI(p, range), DI(0.0, range)) == 100.0
  {
    RatioOfParts(p, 0.0, range);
    TimesCancels(DX(DI(p, range), DI(0.0, range)), 100.0, p);
    TimesCancels(100.0, DX(DI(p, range), DI(0.0, range)), p);
  }

  // The average of a series that is 0 before bar `period` and 100 from then on.
  lemma {:induction false} SmoothOfStep(dx: seq<real>, period: nat, i: nat)
    requires 1 <= period <= i + 1 <= |dx|
    requires forall k :: 0 <= k < |dx| ==> dx[k] == if k < period then 0.0 else 100.0
    ensures SmoothAt(dx, period, i) == 100.0 * (1.0 - Pow(Kept(period), i + 1 - period))
  {
    if i == period - 1 {
      SumIsZero(dx[..period]);
    } else {
      SmoothOfStep(dx, period, i - 1);
      SmoothStep(dx, period, i);
      var power := Pow(Kept(period), i - period);
      BlendIsKept(100.0 * (1.0 - power), 100.0, period);
      KeptAndAdded(period, power);
    }
  }

  lemma KeptAndAdded(period: nat, power: real)
    requires period >= 1
    ensures Times(Kept(period), 100.0 * (1.0 - power)) + Times(Weight(period, 0), 100.0) ==
      100.0 * (1.0 - Kept(period) * power)
  {
    var d := period as real;
    assert Weight(period, 0) == 1.0 / d;
    assert Kept(period) + Weight(period, 0) == 1.0 by {
      QuotientAdds((period - 1) as real, 1.0, d);
    }
  }

  // A pure rise: every index from bar number `period` on is 100, and the ADX after `n` bars is
  // 100 (1 - ((period - 1) / period)^(n - period)).
  lemma RisingADX(b: Bars, period: nat)
    requires b.Valid() && Proper(b) && Rising(b, period) && 2 <= period && period * 2 <= |b.close|
    ensures forall i :: period <= i < |b.close| ==> DirectionalIndices(b, period)[i] == 100.0
    ensures ADX(b, period) == 100.0 * (1.0 - Pow(Kept(period), |b.close| - period))
  {
    forall i | period <= i < |b.close|
      ensures DirectionalIndices(b, period)[i] == 100.0
    {
      RisingIndex(b, period, i);
    }
    SmoothOfStep(DirectionalIndices(b, period), period, |b.close| - 1);
  }

  // A pure fall is a rise upside down.
  lemma FallingADX(b: Bars, period: nat)
    requires b.Valid() && Proper(b) && Falling(b, period) && 2 <= period && period * 2 <= |b.close|
    ensures ADX(b, period) == 100.0 * (1.0 - Pow(Kept(period), |b.close| - period))
  {
    ReflectionRises(b, period);
    RisingADX(Reflect(b), period);
    ADXIgnoresReflection(b, period);
  }

  lemma ReflectionRises(b: Bars, period: nat)
    requires b.Valid() && Proper(b) && Falling(b, period)
    ensures Reflect(b).Valid() && |Reflect(b).close| == |b.close| && Proper(Reflect(b)) && Rising(Reflect(b), period)
  {
    var high, low := Reflect(b).high, Reflect(b).low;
    forall i | 0 < i < |b.close|
      ensures low[i] >= low[i - 1]
    {
      assert b.high[i] <= b.high[i - 1];
    }
    var k :| 0 < k < |b.close| && k <= period && b.low[k] < b.low[k - 1];
    assert high[k] > high[k - 1];
  }

  // With a period of 1 nothing is averaged: the ADX is the last index.
  lemma ADXOfOne(b: Bars)
    requires b.Valid() && |b.close| >= 2
    ensures ADX(b, 1) == DirectionalIndices(b, 1)[|b.close| - 1]
  {
    var dx := DirectionalIndices(b, 1);
    SmoothStep(dx, 1, |b.close| - 1);
  }
}
