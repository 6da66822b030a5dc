/** The average directional index: Wilder smoothing, directional indices and their laws. */
module Adx {
  import opened Arithmetic

  function Abs(x: real): real {
    if x < 0.0 then -x else x
  }

  // High, low and closing prices, bar by bar.
  datatype Bars = Bars(high: seq<real>, low: seq<real>, close: seq<real>) {
    predicate Valid() {
      |high| == |low| == |close|
    }
  }

  // ----- one bar -----

  function TrueRange(high: real, low: real, prevClose: real): real {
    Max(high - low, Max(Abs(high - prevClose), Abs(low - prevClose)))
  }

  // A move that counts: upwards, and larger than the move the other way.
  function Directional(move: real, against: real): real {
    if move > against && move > 0.0 then move else 0.0
  }

  function RangeAt(b: Bars, i: nat): real
    requires b.Valid() && i < |b.close|
  {
    if i == 0 then 0.0 else TrueRange(b.high[i], b.low[i], b.close[i - 1])
  }

  function PlusAt(b: Bars, i: nat): real
    requires b.Valid() && i < |b.close|
  {
    if i == 0 then 0.0 else Directional(b.high[i] - b.high[i - 1], b.low[i - 1] - b.low[i])
  }

  function MinusAt(b: Bars, i: nat): real
    requires b.Valid() && i < |b.close|
  {
    if i == 0 then 0.0 else Directional(b.low[i - 1] - b.low[i], b.high[i] - b.high[i - 1])
  }

  function Ranges(b: Bars): seq<real>
    requires b.Valid()
  {
    seq(|b.close|, i requires 0 <= i < |b.close| => RangeAt(b, i))
  }

  function Pluses(b: Bars): seq<real>
    requires b.Valid()
  {
    seq(|b.close|, i requires 0 <= i < |b.close| => PlusAt(b, i))
  }

  function Minuses(b: Bars): seq<real>
    requires b.Valid()
  {
    seq(|b.close|, i requires 0 <= i < |b.close| => MinusAt(b, i))
  }

  // ----- smoothing -----

  function Sum(data: seq<real>): real {
    if data == [] then 0.0 else Sum(data[..|data| - 1]) + data[|data| - 1]
  }

  function Mean(sum: real, period: nat): real
    requires period >= 1
  {
    sum / (period as real)
  }

  // The new average, with one datum weighing one part in `period`.
  function Blend(before: real, datum: real, period: nat): real
    requires period >= 1
  {
    (before * ((period - 1) as real) + datum) / (period as real)
  }

  function SmoothAt(data: seq<real>, period: nat, i: nat): real
    requires period >= 1 && i < |data|
  {
    if |data| < period || i < period - 1 then 0.0
    else if i == period - 1 then Mean(Sum(data[..period]), period)
    else Blend(SmoothAt(data, period, i - 1), data[i], period)
  }

  function Smooth(data: seq<real>, period: nat): (r: seq<real>)
    requires period >= 1
    ensures |r| == |data|
  {
    seq(|data|, i requires 0 <= i < |data| => SmoothAt(data, period, i))
  }

  // ----- indices -----

  function DI(movement: real, range: real): real {
    if range != 0.0 then 100.0 * movement / range else 0.0
  }

  function DX(plusDI: real, minusDI: real): real {
    if plusDI + minusDI != 0.0 then 100.0 * Abs(plusDI - minusDI) / (plusDI + minusDI) else 0.0
  }

  // The directional index of every bar, from smoothed movements and ranges.
  function DXs(plus: seq<real>, minus: seq<real>, range: seq<real>, period: nat): (r: seq<real>)
    requires |plus| == |minus| == |range|
    ensures |r| == |range|
  {
    seq(|range|, i requires 0 <= i < |range| =>
      if i < period then 0.0 else DX(DI(plus[i], range[i]), DI(minus[i], range[i])))
  }

  function DirectionalIndices(b: Bars, period: nat): seq<real>
    requires b.Valid() && period >= 1
  {
    DXs(Smooth(Pluses(b), period), Smooth(Minuses(b), period), Smooth(Ranges(b), period), period)
  }

  function ADX(b: Bars, period: nat): real
    requires b.Valid() && period >= 1
  {
    var n := |b.close|;
    if n < period * 2 then 0.0 else SmoothAt(DirectionalIndices(b, period), period, n - 1)
  }

  // ----- smoothing is monotone and linear -----

  lemma {:induction false} SumOfSums(a: seq<real>, b: seq<real>, c: seq<real>)
    requires |a| == |b| == |c| && forall i :: 0 <= i < |a| ==> a[i] + b[i] <= c[i]
    ensures Sum(a) + Sum(b) <= Sum(c)
  {
    if a != [] {
      SumOfSums(a[..|a| - 1], b[..|b| - 1], c[..|c| - 1]);
    }
  }

  lemma BlendAdds(a: real, b: real, c: real, x: real, y: real, z: real, period: nat)
    requires period >= 1 && a + b <= c && x + y <= z
    ensures Blend(a, x, period) + Blend(b, y, period) <= Blend(c, z, period)
  {
    var w, d := (period - 1) as real, period as real;
    assert a * w + b * w <= c * w by {
      assert a * w + b * w == (a + b) * w;
    }
    QuotientAdds(a * w + x, b * w + y, d);
    QuotientMonotone(a * w + x + (b * w + y), c * w + z, d);
  }

  // Two series that add up to at most a third stay so when smoothed.
  lemma {:induction false} SmoothAdds(a: seq<real>, b: seq<real>, c: seq<real>, period: nat, i: nat)
    requires period >= 1 && |a| == |b| == |c| && i < |a|
    requires forall k :: 0 <= k < |a| ==> a[k] + b[k] <= c[k]
    ensures SmoothAt(a, period, i) + SmoothAt(b, period, i) <= SmoothAt(c, period, i)
  {
    if |a| < period || i < period - 1 {
    } else if i == period - 1 {
      SumOfSums(a[..period], b[..period], c[..period]);
    } else {
      SmoothAdds(a, b, c, period, i - 1);
      var (a0, b0, c0) := (SmoothAt(a, period, i - 1), SmoothAt(b, period, i - 1), SmoothAt(c, period, i - 1));
      BlendAdds(a0, b0, c0, a[i], b[i], c[i], period);
    }
  }

  lemma {:induction false} SumWithin(data: seq<real>, hi: real)
    requires forall i :: 0 <= i < |data| ==> 0.0 <= data[i] <= hi
    ensures 0.0 <= Sum(data) <= hi * (|data| as real)
  {
    if data != [] {
      var n := |data| - 1;
      SumWithin(data[..n], hi);
      assert hi * ((n + 1) as real) == hi * (n as real) + hi;
    }
  }

  lemma BlendWithin(before: real, datum: real, period: nat, hi: real)
    requires period >= 1 && 0.0 <= before <= hi && 0.0 <= datum <= hi
    ensures 0.0 <= Blend(before, datum, period) <= hi
  {
    var w := (period - 1) as real;
    assert 0.0 <= before * w <= hi * w;
    assert hi * w + hi == hi * (period as real);
    QuotientWithin(before * w + datum, period as real, 0.0, hi);
  }

  lemma MeanScales(sum: real, scaled: real, period: nat, k: real)
    requires period >= 1 && scaled == Times(k, sum)
    ensures Mean(scaled, period) == Times(k, Mean(sum, period))
  {}

  lemma {:induction false} SmoothWithin(data: seq<real>, period: nat, i: nat, hi: real)
    requires period >= 1 && i < |data| && hi >= 0.0
    requires forall k :: 0 <= k < |data| ==> 0.0 <= data[k] <= hi
    ensures 0.0 <= SmoothAt(data, period, i) <= hi
  {
    if |data| < period || i < period - 1 {
    } else if i == period - 1 {
      SumWithin(data[..period], hi);
      QuotientWithin(Sum(data[..period]), period as real, 0.0, hi);
    } else {
      SmoothWithin(data, period, i - 1, hi);
      BlendWithin(SmoothAt(data, period, i - 1), data[i], period, hi);
    }
  }

  predicate Scaled(a: seq<real>, b: seq<real>, k: real) {
    |a| == |b| && forall i :: 0 <= i < |a| ==> b[i] == Times(k, a[i])
  }

  lemma {:induction false} SumScales(a: seq<real>, b: seq<real>, k: real)
    requires Scaled(a, b, k)
    ensures Sum(b) == Times(k, Sum(a))
  {
    if a != [] {
      SumScales(a[..|a| - 1], b[..|b| - 1], k);
    }
  }

  lemma BlendScales(before: real, datum: real, before': real, datum': real, period: nat, k: real)
    requires period >= 1 && before' == Times(k, before) && datum' == Times(k, datum)
    ensures Blend(before', datum', period) == Times(k, Blend(before, datum, period))
  {
    var w := (period - 1) as real;
    assert before' * w + datum' == Times(k, before * w + datum);
    MeanScales(before * w + datum, before' * w + datum', period, k);
  }

  lemma {:induction false} SmoothScales(a: seq<real>, b: seq<real>, period: nat, i: nat, k: real)
    requires period >= 1 && i < |a| && Scaled(a, b, k)
    ensures SmoothAt(b, period, i) == Times(k, SmoothAt(a, period, i))
  {
    if |a| < period || i < period - 1 {
    } else if i == period - 1 {
      SumScales(a[..period], b[..period], k);
      MeanScales(Sum(a[..period]), Sum(b[..period]), period, k);
    } else {
      SmoothScales(a, b, period, i - 1, k);
      BlendScales(SmoothAt(a, period, i - 1), a[i], SmoothAt(b, period, i - 1), b[i], period, k);
    }
  }

  // ----- bounds -----

  // Low, high and close of every bar are in order.
  predicate Proper(b: Bars)
    requires b.Valid()
  {
    forall i :: 0 <= i < |b.close| ==> b.low[i] <= b.close[i] <= b.high[i]
  }

  lemma MovementsFitRange(b: Bars, i: nat)
    requires b.Valid() && Proper(b) && i < |b.close|
    ensures PlusAt(b, i) + MinusAt(b, i) <= RangeAt(b, i)
  {
    if i > 0 {
      assert b.low[i - 1] <= b.close[i - 1] <= b.high[i - 1] && b.low[i] <= b.close[i] <= b.high[i];
    }
  }

  lemma PartsOfHundred(p: real, m: real, range: real)
    requires p >= 0.0 && m >= 0.0 && p + m <= range
    ensures DI(p, range) >= 0.0 && DI(m, range) >= 0.0 && DI(p, range) + DI(m, range) <= 100.0
  {
    if range != 0.0 {
      QuotientWithin(100.0 * p, range, 0.0, 100.0);
      QuotientWithin(100.0 * m, range, 0.0, 100.0);
      QuotientWithin(100.0 * p + 100.0 * m, range, 0.0, 100.0);
      QuotientAdds(100.0 * p, 100.0 * m, range);
    }
  }

  // At every bar of a proper series the two directional indicators are non-negative and add up
  // to at most 100.
  lemma IndicatorsShareHundred(b: Bars, period: nat, i: nat)
    requires b.Valid() && Proper(b) && period >= 1 && i < |b.close|
    ensures
      var plusDI := DI(SmoothAt(Pluses(b), period, i), SmoothAt(Ranges(b), period, i));
      var minusDI := DI(SmoothAt(Minuses(b), period, i), SmoothAt(Ranges(b), period, i));
      plusDI >= 0.0 && minusDI >= 0.0 && plusDI + minusDI <= 100.0
  {
    forall k | 0 <= k < |b.close|
      ensures Pluses(b)[k] + Minuses(b)[k] <= Ranges(b)[k]
    {
      MovementsFitRange(b, k);
    }
    SmoothAdds(Pluses(b), Minuses(b), Ranges(b), period, i);
    SmoothNonNegative(Pluses(b), period, i);
    SmoothNonNegative(Minuses(b), period, i);
    PartsOfHundred(SmoothAt(Pluses(b), period, i), SmoothAt(Minuses(b), period, i), SmoothAt(Ranges(b), period, i));
  }

  lemma {:induction false} Bounded(data: seq<real>) returns (hi: real)
    ensures hi >= 0.0 && forall i :: 0 <= i < |data| ==> data[i] <= hi
  {
    hi := 0.0;
    if data != [] {
      hi := Bounded(data[..|data| - 1]);
      hi := Max(hi, data[|data| - 1]);
    }
  }

  lemma SmoothNonNegative(data: seq<real>, period: nat, i: nat)
    requires period >= 1 && i < |data| && forall k :: 0 <= k < |data| ==> data[k] >= 0.0
    ensures SmoothAt(data, period, i) >= 0.0
  {
    var hi := Bounded(data);
    SmoothWithin(data, period, i, hi);
  }

  lemma DXWithin(plusDI: real, minusDI: real)
    requires plusDI >= 0.0 && minusDI >= 0.0
    ensures 0.0 <= DX(plusDI, minusDI) <= 100.0
    ensures DX(plusDI, minusDI) == 0.0 <==> plusDI == minusDI
  {
    var sum := plusDI + minusDI;
    if sum != 0.0 {
      var gap := 100.0 * Abs(plusDI - minusDI);
      QuotientWithin(gap, sum, 0.0, 100.0);
      assert gap / sum * sum == gap;
    }
  }

  lemma DINonNegative(movement: real, range: real)
    requires movement >= 0.0 && range >= 0.0
    ensures DI(movement, range) >= 0.0
  {
    if range != 0.0 {
      assert 100.0 * movement / range * range == 100.0 * movement;
    }
  }

  lemma IndexWithin(b: Bars, period: nat, i: nat)
    requires b.Valid() && period >= 1 && i < |b.close|
    ensures 0.0 <= DirectionalIndices(b, period)[i] <= 100.0
  {
    SmoothNonNegative(Pluses(b), period, i);
    SmoothNonNegative(Minuses(b), period, i);
    SmoothNonNegative(Ranges(b), period, i);
    var p, m, r := SmoothAt(Pluses(b), period, i), SmoothAt(Minuses(b), period, i), SmoothAt(Ranges(b), period, i);
    DINonNegative(p, r);
    DINonNegative(m, r);
    DXWithin(DI(p, r), DI(m, r));
  }

  // Whatever the prices, every directional index and the ADX lie between 0 and 100.
  lemma ADXWithin(b: Bars, period: nat)
    requires b.Valid() && period >= 1
    ensures forall i :: 0 <= i < |b.close| ==> 0.0 <= DirectionalIndices(b, period)[i] <= 100.0
    ensures 0.0 <= ADX(b, period) <= 100.0
  {
    forall i | 0 <= i < |b.close|
      ensures 0.0 <= DirectionalIndices(b, period)[i] <= 100.0
    {
      IndexWithin(b, period, i);
    }
    if |b.close| >= period * 2 {
      SmoothWithin(DirectionalIndices(b, period), period, |b.close| - 1, 100.0);
    }
  }

  // ----- when there is no index -----

  lemma {:induction false} SumIsZero(data: seq<real>)
    requires forall i :: 0 <= i < |data| ==> data[i] >= 0.0
    ensures Sum(data) >= 0.0
    ensures Sum(data) == 0.0 <==> forall i :: 0 <= i < |data| ==> data[i] == 0.0
  {
    if data != [] {
      var n := |data| - 1;
      SumIsZero(data[..n]);
      if Sum(data) == 0.0 {
        assert forall i :: 0 <= i < n ==> data[i] == data[..n][i];
      }
    }
  }

  lemma BlendIsZero(before: real, datum: real, period: nat)
    requires period >= 2 && before >= 0.0 && datum >= 0.0
    ensures Blend(before, datum, period) == 0.0 <==> before == 0.0 && datum == 0.0
  {
    var w, d := (period - 1) as real, period as real;
    assert Blend(before, datum, period) * d == before * w + datum;
    assert before > 0.0 ==> before * w > 0.0;
  }

  lemma {:induction false} SmoothIsZero(data: seq<real>, period: nat, i: nat)
    requires 2 <= period <= i + 1 <= |data|
    requires forall k :: 0 <= k < |data| ==> data[k] >= 0.0
    ensures SmoothAt(data, period, i) == 0.0 <==> forall k :: 0 <= k <= i ==> data[k] == 0.0
  {
    if i == period - 1 {
      SumIsZero(data[..period]);
      assert SmoothAt(data, period, i) * (period as real) == Sum(data[..period]);
      assert forall k :: 0 <= k < period ==> data[..period][k] == data[k];
    } else {
      SmoothIsZero(data, period, i - 1);
      SmoothNonNegative(data, period, i - 1);
      BlendIsZero(SmoothAt(data, period, i - 1), data[i], period);
    }
  }

  // The two smoothed movements of bar `i` cancel, or nothing has moved at all.
  predicate Balanced(b: Bars, period: nat, i: nat)
    requires b.Valid() && period >= 1 && i < |b.close|
  {
    SmoothAt(Ranges(b), period, i) == 0.0 || SmoothAt(Pluses(b), period, i) == SmoothAt(Minuses(b), period, i)
  }

  lemma IndexIsZero(b: Bars, period: nat, i: nat)
    requires b.Valid() && period >= 1 && period <= i < |b.close|
    ensures DirectionalIndices(b, period)[i] == 0.0 <==> Balanced(b, period, i)
  {
    SmoothNonNegative(Pluses(b), period, i);
    SmoothNonNegative(Minuses(b), period, i);
    SmoothNonNegative(Ranges(b), period, i);
    var p, m, r := SmoothAt(Pluses(b), period, i), SmoothAt(Minuses(b), period, i), SmoothAt(Ranges(b), period, i);
    DINonNegative(p, r);
    DINonNegative(m, r);
    DXWithin(DI(p, r), DI(m, r));
    if r != 0.0 {
      assert 100.0 * p / r * r == 100.0 * p && 100.0 * m / r * r == 100.0 * m;
    }
  }

  // The first bar that weighs in the last average: with a period of 1 nothing is averaged.
  function FirstBar(bars: nat, period: nat): int {
    if period == 1 then bars - 1 else period
  }

  // With enough data the ADX is 0, which the caller reports as a failed calculation, exactly
  // when the movements balance at every bar that weighs in.
  lemma ADXFailsOnBalance(b: Bars, period: nat)
    requires b.Valid() && 1 <= period && period * 2 <= |b.close|
    ensures ADX(b, period) == 0.0 <==>
      forall i :: FirstBar(|b.close|, period) <= i < |b.close| ==> Balanced(b, period, i)
  {
    var dx, n := DirectionalIndices(b, period), |b.close|;
    ADXWithin(b, period);
    if period == 1 {
      SmoothStep(dx, period, n - 1);
      assert ADX(b, period) == dx[n - 1];
    } else {
      SmoothIsZero(dx, period, n - 1);
    }
    forall i | period <= i < n
      ensures dx[i] == 0.0 <==> Balanced(b, period, i)
    {
      IndexIsZero(b, period, i);
    }
  }

  // Bar `i` moves neither up nor down.
  predicate Still(b: Bars, i: nat)
    requires b.Valid() && i < |b.close|
  {
    PlusAt(b, i) == 0.0 && MinusAt(b, i) == 0.0
  }

  // The two smoothed movements of bar `i` are equal.
  predicate Even(b: Bars, period: nat, i: nat)
    requires b.Valid() && period >= 1 && i < |b.close|
  {
    SmoothAt(Pluses(b), period, i) == SmoothAt(Minuses(b), period, i)
  }

  lemma BalancedIsEven(b: Bars, period: nat, i: nat)
    requires b.Valid() && Proper(b) && period >= 1 && i < |b.close|
    ensures Balanced(b, period, i) <==> Even(b, period, i)
  {
    forall k | 0 <= k < |b.close|
      ensures Pluses(b)[k] + Minuses(b)[k] <= Ranges(b)[k]
    {
      MovementsFitRange(b, k);
    }
    SmoothAdds(Pluses(b), Minuses(b), Ranges(b), period, i);
    SmoothNonNegative(Pluses(b), period, i);
    SmoothNonNegative(Minuses(b), period, i);
  }

  lemma BlendIsEqual(before: real, x: real, y: real, period: nat)
    requires period >= 1
    ensures Blend(before, x, period) == Blend(before, y, period) <==> x == y
  {
    var w, d := (period - 1) as real, period as real;
    assert Blend(before, x, period) * d == before * w + x;
    assert Blend(before, y, period) * d == before * w + y;
  }

  lemma StillKeepsEven(b: Bars, period: nat, i: nat)
    requires b.Valid() && 1 <= period <= i < |b.close| && Even(b, period, i - 1)
    ensures Even(b, period, i) <==> Still(b, i)
  {
    SmoothStep(Pluses(b), period, i);
    SmoothStep(Minuses(b), period, i);
    BlendIsEqual(SmoothAt(Pluses(b), period, i - 1), Pluses(b)[i], Minuses(b)[i], period);
  }

  lemma {:induction false} EvenUpTo(b: Bars, period: nat, last: nat)
    requires b.Valid() && 1 <= period <= last < |b.close|
    ensures (forall i :: period <= i <= last ==> Even(b, period, i)) <==>
      Even(b, period, period) && forall i :: period < i <= last ==> Still(b, i)
  {
    if period < last {
      EvenUpTo(b, period, last - 1);
      if Even(b, period, last - 1) {
        StillKeepsEven(b, period, last);
      }
    }
  }

  // In terms of the bars themselves, for proper ones and a period of at least 2: the movements
  // up to bar number `period` even out, and from then on no bar moves either way.
  lemma ADXFailsOnStillness(b: Bars, period: nat)
    requires b.Valid() && Proper(b) && 2 <= period && period * 2 <= |b.close|
    ensures ADX(b, period) == 0.0 <==>
      Even(b, period, period) && forall i :: period < i < |b.close| ==> Still(b, i)
  {
    var n := |b.close|;
    ADXFailsOnBalance(b, period);
    forall i | period <= i < n
      ensures Balanced(b, period, i) <==> Even(b, period, i)
    {
      BalancedIsEven(b, period, i);
    }
    EvenUpTo(b, period, n - 1);
  }

  function Flat(price: real, n: nat): Bars {
    var prices := seq(n, _ => price);
    Bars(prices, prices, prices)
  }

  // Flat prices are an input that fails, whatever their number.
  lemma FlatPricesFail(price: real, n: nat, period: nat)
    requires 1 <= period && period * 2 <= n
    ensures Flat(price, n).Valid() && ADX(Flat(price, n), period) == 0.0
  {
    var b := Flat(price, n);
    assert Pluses(b) == Minuses(b);
    ADXFailsOnBalance(b, period);
  }

  // ----- symmetries -----

  function Map(f: real -> real, s: seq<real>): (r: seq<real>)
    ensures |r| == |s| && forall i :: 0 <= i < |s| ==> r[i] == f(s[i])
  {
    seq(|s|, i requires 0 <= i < |s| => f(s[i]))
  }

  function Shift(b: Bars, k: real): Bars {
    Bars(Map(x => x + k, b.high), Map(x => x + k, b.low), Map(x => x + k, b.close))
  }

  function Scale(b: Bars, k: real): Bars {
    Bars(Map(x => Times(k, x), b.high), Map(x => Times(k, x), b.low), Map(x => Times(k, x), b.close))
  }

  // Prices upside down: highs become lows.
  function Reflect(b: Bars): Bars {
    Bars(Map(x => -x, b.low), Map(x => -x, b.high), Map(x => -x, b.close))
  }

  // Adding a constant to all prices changes nothing.
  lemma ADXIgnoresShift(b: Bars, period: nat, k: real)
    requires b.Valid() && period >= 1
    ensures ADX(Shift(b, k), period) == ADX(b, period)
  {
    assert Pluses(Shift(b, k)) == Pluses(b);
    assert Minuses(Shift(b, k)) == Minuses(b);
    assert Ranges(Shift(b, k)) == Ranges(b);
  }

  // Turning prices upside down swaps the two movements and changes nothing else.
  lemma ADXIgnoresReflection(b: Bars, period: nat)
    requires b.Valid() && period >= 1
    ensures Pluses(Reflect(b)) == Minuses(b) && Minuses(Reflect(b)) == Pluses(b)
    ensures ADX(Reflect(b), period) == ADX(b, period)
  {
    assert Pluses(Reflect(b)) == Minuses(b);
    assert Minuses(Reflect(b)) == Pluses(b);
    assert Ranges(Reflect(b)) == Ranges(b);
    assert DirectionalIndices(Reflect(b), period) == DirectionalIndices(b, period);
  }

  lemma DifferenceScales(x: real, y: real, k: real)
    ensures Times(k, x) - Times(k, y) == Times(k, x - y)
  {}

  lemma RangeScales(high: real, low: real, prev: real, high': real, low': real, prev': real, k: real)
    requires k > 0.0 && high' == Times(k, high) && low' == Times(k, low) && prev' == Times(k, prev)
    ensures TrueRange(high', low', prev') == Times(k, TrueRange(high, low, prev))
  {
    DifferenceScales(high, low, k);
    DifferenceScales(high, prev, k);
    DifferenceScales(low, prev, k);
    AbsScales(high - prev, high' - prev', k);
    AbsScales(low - prev, low' - prev', k);
    MaxScales(Abs(high - prev), Abs(low - prev), Abs(high' - prev'), Abs(low' - prev'), k);
    var wick, wick' := Max(Abs(high - prev), Abs(low - prev)), Max(Abs(high' - prev'), Abs(low' - prev'));
    MaxScales(high - low, wick, high' - low', wick', k);
  }

  lemma AbsScales(x: real, x': real, k: real)
    requires k > 0.0 && x' == Times(k, x)
    ensures Abs(x') == Times(k, Abs(x))
  {}

  lemma MaxScales(a: real, b: real, a': real, b': real, k: real)
    requires k > 0.0 && a' == Times(k, a) && b' == Times(k, b)
    ensures Max(a', b') == Times(k, Max(a, b))
  {}

  lemma DirectionalScales(move: real, against: real, move': real, against': real, k: real)
    requires k > 0.0 && move' == Times(k, move) && against' == Times(k, against)
    ensures Directional(move', against') == Times(k, Directional(move, against))
  {
    MaxScales(move, against, move', against', k);
  }

  lemma BarScales(b: Bars, b': Bars, i: nat, k: real)
    requires b.Valid() && b'.Valid() && k > 0.0 && i < |b.close|
    requires Scaled(b.high, b'.high, k) && Scaled(b.low, b'.low, k) && Scaled(b.close, b'.close, k)
    ensures PlusAt(b', i) == Times(k, PlusAt(b, i)) && MinusAt(b', i) == Times(k, MinusAt(b, i))
    ensures RangeAt(b', i) == Times(k, RangeAt(b, i))
  {
    if i > 0 {
      var up, down := b.high[i] - b.high[i - 1], b.low[i - 1] - b.low[i];
      var up', down' := b'.high[i] - b'.high[i - 1], b'.low[i - 1] - b'.low[i];
      DifferenceScales(b.high[i], b.high[i - 1], k);
      DifferenceScales(b.low[i - 1], b.low[i], k);
      DirectionalScales(up, down, up', down', k);
      DirectionalScales(down, up, down', up', k);
      RangeScales(b.high[i], b.low[i], b.close[i - 1], b'.high[i], b'.low[i], b'.close[i - 1], k);
    }
  }

  lemma MovementsScale(b: Bars, k: real)
    requires b.Valid() && k > 0.0
    ensures Scaled(Pluses(b), Pluses(Scale(b, k)), k)
    ensures Scaled(Minuses(b), Minuses(Scale(b, k)), k)
    ensures Scaled(Ranges(b), Ranges(Scale(b, k)), k)
  {
    forall i | 0 <= i < |b.close|
      ensures Pluses(Scale(b, k))[i] == Times(k, Pluses(b)[i])
      ensures Minuses(Scale(b, k))[i] == Times(k, Minuses(b)[i])
      ensures Ranges(Scale(b, k))[i] == Times(k, Ranges(b)[i])
    {
      BarScales(b, Scale(b, k), i, k);
    }
  }

  lemma QuotientIgnoresScale(x: real, d: real, k: real)
    requires d != 0.0 && k > 0.0
    ensures k * d != 0.0 && (k * x) / (k * d) == x / d
  {
    assert x / d * (k * d) == k * (x / d * d);
  }

  lemma DIIgnoresScale(movement: real, range: real, movement': real, range': real, k: real)
    requires k > 0.0 && movement' == Times(k, movement) && range' == Times(k, range)
    ensures DI(movement', range') == DI(movement, range)
  {
    if range != 0.0 {
      QuotientIgnoresScale(100.0 * movement, range, k);
      assert k * (100.0 * movement) == 100.0 * movement';
    }
  }

  lemma IndexIgnoresScale(b: Bars, period: nat, i: nat, k: real)
    requires b.Valid() && period >= 1 && k > 0.0 && i < |b.close|
    requires Scaled(Pluses(b), Pluses(Scale(b, k)), k)
    requires Scaled(Minuses(b), Minuses(Scale(b, k)), k)
    requires Scaled(Ranges(b), Ranges(Scale(b, k)), k)
    ensures DirectionalIndices(Scale(b, k), period)[i] == DirectionalIndices(b, period)[i]
  {
    SmoothScales(Pluses(b), Pluses(Scale(b, k)), period, i, k);
    SmoothScales(Minuses(b), Minuses(Scale(b, k)), period, i, k);
    SmoothScales(Ranges(b), Ranges(Scale(b, k)), period, i, k);
    var range, range' := SmoothAt(Ranges(b), period, i), SmoothAt(Ranges(Scale(b, k)), period, i);
    DIIgnoresScale(SmoothAt(Pluses(b), period, i), range, SmoothAt(Pluses(Scale(b, k)), period, i), range', k);
    DIIgnoresScale(SmoothAt(Minuses(b), period, i), range, SmoothAt(Minuses(Scale(b, k)), period, i), range', k);
  }

  // Neither does a change of currency: scaling all prices by a positive factor.
  lemma ADXIgnoresScale(b: Bars, period: nat, k: real)
    requires b.Valid() && period >= 1 && k > 0.0
    ensures ADX(Scale(b, k), period) == ADX(b, period)
  {
    MovementsScale(b, k);
    forall i | 0 <= i < |b.close|
      ensures DirectionalIndices(Scale(b, k), period)[i] == DirectionalIndices(b, period)[i]
    {
      IndexIgnoresScale(b, period, i, k);
    }
    assert DirectionalIndices(Scale(b, k), period) == DirectionalIndices(b, period);
  }

  // ----- the loops -----

  lemma SmoothStep(data: seq<real>, period: nat, i: nat)
    requires 1 <= period <= i < |data|
    ensures SmoothAt(data, period, i) == Blend(SmoothAt(data, period, i - 1), data[i], period)
  {}

  method SumOfFirst(data: array<real>, n: nat) returns (sum: real)
    requires n <= data.Length
    ensures sum == Sum(data[..n])
  {
    sum := 0.0;
    for i := 0 to n
      invariant sum == Sum(data[..i])
    {
      assert data[..i + 1][..i] == data[..i];
      sum := sum + data[i];
    }
  }

  method SmoothWilder(data: array<real>, period: nat) returns (result: array<real>)
    requires period >= 1
    ensures fresh(result) && result[..] == Smooth(data[..], period)
  {
    var n := data.Length;
    result := new real[n](_ => 0.0);
    ghost var d := data[..];
    if n < period {
      return;
    }
    var sum := SumOfFirst(data, period);
    assert data[..period] == d[..period];
    result[period - 1] := Mean(sum, period);
    for i := period to n
      invariant data[..] == d
      invariant forall k :: 0 <= k < i ==> result[k] == SmoothAt(d, period, k)
    {
      SmoothStep(d, period, i);
      assert d[i] == data[i];
      result[i] := Blend(result[i - 1], data[i], period);
    }
  }

  method TrueRanges(b: Bars) returns (tr: array<real>, plusDM: array<real>, minusDM: array<real>)
    requires b.Valid()
    ensures fresh(tr) && fresh(plusDM) && fresh(minusDM)
    ensures tr[..] == Ranges(b) && plusDM[..] == Pluses(b) && minusDM[..] == Minuses(b)
  {
    var n := |b.close|;
    tr, plusDM, minusDM := new real[n](_ => 0.0), new real[n](_ => 0.0), new real[n](_ => 0.0);
    var i := 1;
    while i < n
      invariant 1 <= i
      invariant forall k :: 0 <= k < n ==> tr[k] == if k < i then RangeAt(b, k) else 0.0
      invariant forall k :: 0 <= k < n ==> plusDM[k] == if k < i then PlusAt(b, k) else 0.0
      invariant forall k :: 0 <= k < n ==> minusDM[k] == if k < i then MinusAt(b, k) else 0.0
    {
      tr[i] := TrueRange(b.high[i], b.low[i], b.close[i - 1]);
      var upMove, downMove := b.high[i] - b.high[i - 1], b.low[i - 1] - b.low[i];
      if upMove > downMove && upMove > 0.0 {
        plusDM[i] := upMove;
      }
      if downMove > upMove && downMove > 0.0 {
        minusDM[i] := downMove;
      }
      i := i + 1;
    }
  }

  method DirectionalIndex(plus: real, minus: real, range: real) returns (dx: real)
    ensures dx == DX(DI(plus, range), DI(minus, range))
  {
    dx := 0.0;
    if range != 0.0 {
      var plusDI := 100.0 * plus / range;
      var minusDI := 100.0 * minus / range;
      var diSum := plusDI + minusDI;
      if diSum != 0.0 {
        dx := 100.0 * Abs(plusDI - minusDI) / diSum;
      }
    }
  }

  method CalculateADXManual(b: Bars, period: nat) returns (adx: real)
    requires b.Valid() && period >= 1
    ensures adx == ADX(b, period)
  {
    var n := |b.close|;
    if n < period * 2 {
      return 0.0;
    }
    var tr, plusDM, minusDM := TrueRanges(b);
    var smoothTR := SmoothWilder(tr, period);
    var smoothPlusDM := SmoothWilder(plusDM, period);
    var smoothMinusDM := SmoothWilder(minusDM, period);
    ghost var p, m, r := smoothPlusDM[..], smoothMinusDM[..], smoothTR[..];
    var dx := new real[n](_ => 0.0);
    for i := period to n
      invariant smoothPlusDM[..] == p && smoothMinusDM[..] == m && smoothTR[..] == r
      invariant forall k :: 0 <= k < i ==> dx[k] == DXs(p, m, r, period)[k]
      invariant forall k :: i <= k < n ==> dx[k] == 0.0
    {
      assert r[i] == smoothTR[i] && p[i] == smoothPlusDM[i] && m[i] == smoothMinusDM[i];
      dx[i] := DirectionalIndex(smoothPlusDM[i], smoothMinusDM[i], smoothTR[i]);
    }
    assert dx[..] == DirectionalIndices(b, period);
    var adxValues := SmoothWilder(dx, period);
    assert adxValues[n - 1] == adxValues[..][n - 1];
    adx := adxValues[n - 1];
  }

  datatype Strength = Weak | Strong | VeryStrong

  datatype Problem = UnequalLengths | InvalidPeriod | InsufficientData | CalculationFailed
  datatype Outcome = Calculated(value: real, strength: Strength) | Failed(problem: Problem)

  // Of prices that pass the checks the ADX is calculated, and an ADX of 0 taken for a failure.
  method CalculateADX(b: Bars, period: int) returns (outcome: Outcome)
    ensures outcome == Failed(UnequalLengths) <==> !b.Valid()
    ensures outcome == Failed(InvalidPeriod) <==> b.Valid() && period < 1
    ensures outcome == Failed(InsufficientData) <==> b.Valid() && period >= 1 && |b.close| < period * 2
    ensures outcome == Failed(CalculationFailed) <==>
      b.Valid() && period >= 1 && |b.close| >= period * 2 && ADX(b, period) == 0.0
    ensures outcome.Calculated? ==> outcome.value == ADX(b, period) && 0.0 < outcome.value <= 100.0
    ensures outcome.Calculated? ==>
      && (outcome.strength == Weak <==> outcome.value < 25.0)
      && (outcome.strength == Strong <==> 25.0 <= outcome.value < 50.0)
      && (outcome.strength == VeryStrong <==> 50.0 <= outcome.value)
  {
    if |b.high| != |b.low| || |b.high| != |b.close| {
      return Failed(UnequalLengths);
    }
    if period < 1 {
      return Failed(InvalidPeriod);
    }
    if |b.close| < period * 2 {
      return Failed(InsufficientData);
    }
    var adx := CalculateADXManual(b, period);
    ADXWithin(b, period);
    if adx == 0.0 {
      return Failed(CalculationFailed);
    }
    var strength := Weak;
    if adx >= 25.0 && adx < 50.0 {
      strength := Strong;
    } else if adx >= 50.0 {
      strength := VeryStrong;
    }
    outcome := Calculated(adx, strength);
  }
}
