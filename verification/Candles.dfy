/** Candlesticks from a price series: one pass that keeps the candle being built. */
module Candles {
  import opened Arithmetic

  const NANOS_PER_MINUTE := 60_000_000_000

  datatype Point = Point(timestamp: int, value: real)
  datatype MarketChart = MarketChart(prices: seq<Point>, totalVolumes: seq<Point>)
  datatype Candle = Candle(timestamp: int, open: real, high: real, low: real, close: real, volume: real)

  // Times are nanoseconds since the zero time; rounding down to a duration that is not positive
  // leaves them alone.
  function Truncate(t: int, d: int): int {
    if d <= 0 then t else t - t % d
  }

  // What tells the interval of a time, bin its start. The code below works for any such function;
  // the one it is used with rounds down to multiples of a duration.
  type Intervals = int -> int

  function Multiples(d: int): Intervals {
    t => Truncate(t, d)
  }

  ghost predicate Monotone(bin: Intervals) {
    forall s, t :: s <= t ==> bin(s) <= bin(t)
  }

  // The intervals of `coarse` are made of those of `fine`.
  ghost predicate Nested(fine: Intervals, coarse: Intervals) {
    forall t :: coarse(fine(t)) == coarse(t)
  }

  // A price with the volume at its index, nothing if there is none.
  datatype Tick = Tick(at: int, price: real, volume: real)

  function TickAt(m: MarketChart, i: nat): Tick
    requires i < |m.prices|
  {
    Tick(m.prices[i].timestamp, m.prices[i].value, if i < |m.totalVolumes| then m.totalVolumes[i].value else 0.0)
  }

  function Ticks(m: MarketChart): seq<Tick> {
    seq(|m.prices|, i requires 0 <= i < |m.prices| => TickAt(m, i))
  }

  function Start(t: Tick, bin: Intervals): Candle {
    Candle(bin(t.at), t.price, t.price, t.price, t.price, t.volume)
  }

  function Extend(c: Candle, t: Tick): Candle {
    c.(high := if t.price > c.high then t.price else c.high,
       low := if t.price < c.low then t.price else c.low,
       close := t.price, volume := c.volume + t.volume)
  }

  // The candles after one more tick: it extends the last one if it falls in its interval.
  function Take(candles: seq<Candle>, t: Tick, bin: Intervals): seq<Candle> {
    var n := |candles| - 1;
    if n >= 0 && candles[n].timestamp == bin(t.at)
    then candles[..n] + [Extend(candles[n], t)]
    else candles + [Start(t, bin)]
  }

  function Candlesticks(ticks: seq<Tick>, bin: Intervals): seq<Candle> {
    if ticks == [] then []
    else Take(Candlesticks(ticks[..|ticks| - 1], bin), ticks[|ticks| - 1], bin)
  }

  // ----- candles are the maximal runs of one interval -----

  function VolumeOf(ticks: seq<Tick>): real {
    if ticks == [] then 0.0 else VolumeOf(ticks[..|ticks| - 1]) + ticks[|ticks| - 1].volume
  }

  // `c` summarises `run`: its interval, first, last, greatest and least price, and total volume.
  ghost predicate Summarises(c: Candle, run: seq<Tick>, bin: Intervals) {
    && run != []
    && (forall i :: 0 <= i < |run| ==> bin(run[i].at) == c.timestamp)
    && c.open == run[0].price && c.close == run[|run| - 1].price
    && (forall i :: 0 <= i < |run| ==> c.low <= run[i].price <= c.high)
    && (exists i :: 0 <= i < |run| && c.high == run[i].price)
    && (exists i :: 0 <= i < |run| && c.low == run[i].price)
    && c.volume == VolumeOf(run)
  }

  ghost predicate RunOf(ticks: seq<Tick>, c: Candle, from: nat, to: nat, bin: Intervals) {
    from < to <= |ticks| && Summarises(c, ticks[from..to], bin)
  }

  // `cuts` splits the ticks into one run for every candle, in order; no run could be longer.
  ghost predicate SplitsInto(ticks: seq<Tick>, candles: seq<Candle>, bin: Intervals, cuts: seq<nat>) {
    && |cuts| == |candles| + 1 && cuts[0] == 0 && cuts[|candles|] == |ticks|
    && (forall k :: 0 <= k < |candles| ==> RunOf(ticks, candles[k], cuts[k], cuts[k + 1], bin))
    && (forall k :: 0 < k < |candles| ==> candles[k - 1].timestamp != candles[k].timestamp)
  }

  lemma StartSummarises(t: Tick, bin: Intervals)
    ensures Summarises(Start(t, bin), [t], bin)
  {
    assert VolumeOf([t]) == VolumeOf([t][..0]) + t.volume;
    assert [t][0].price == t.price;
  }

  lemma ExtendSummarises(c: Candle, run: seq<Tick>, t: Tick, bin: Intervals)
    requires Summarises(c, run, bin) && bin(t.at) == c.timestamp
    ensures Summarises(Extend(c, t), run + [t], bin)
  {
    var longer, c' := run + [t], Extend(c, t);
    assert longer[..|run|] == run && longer[|run|] == t;
    assert forall i :: 0 <= i < |run| ==> longer[i] == run[i];
    var hi :| 0 <= hi < |run| && run[hi].price == c.high;
    var lo :| 0 <= lo < |run| && run[lo].price == c.low;
    assert longer[if t.price > c.high then |run| else hi].price == c'.high;
    assert longer[if t.price < c.low then |run| else lo].price == c'.low;
  }

  // A run is the same run after one more tick.
  lemma RunStays(init: seq<Tick>, t: Tick, c: Candle, from: nat, to: nat, bin: Intervals)
    requires RunOf(init, c, from, to, bin)
    ensures RunOf(init + [t], c, from, to, bin)
  {
    assert (init + [t])[from..to] == init[from..to];
  }

  lemma RunGrows(init: seq<Tick>, t: Tick, c: Candle, from: nat, bin: Intervals)
    requires RunOf(init, c, from, |init|, bin) && bin(t.at) == c.timestamp
    ensures RunOf(init + [t], Extend(c, t), from, |init| + 1, bin)
  {
    var run := init[from..|init|];
    ExtendSummarises(c, run, t, bin);
    assert (init + [t])[from..|init| + 1] == run + [t];
  }

  lemma RunStarts(init: seq<Tick>, t: Tick, bin: Intervals)
    ensures RunOf(init + [t], Start(t, bin), |init|, |init| + 1, bin)
  {
    StartSummarises(t, bin);
    assert (init + [t])[|init|..|init| + 1] == [t];
  }

  // Where the candles end after one more tick.
  function CutsAfter(init: seq<Tick>, t: Tick, candles: seq<Candle>, bin: Intervals, cuts: seq<nat>): seq<nat>
    requires |cuts| == |candles| + 1
  {
    var last := |candles| - 1;
    if last >= 0 && candles[last].timestamp == bin(t.at) then cuts[last + 1 := |init| + 1] else cuts + [|init| + 1]
  }

  lemma SplitStep(init: seq<Tick>, t: Tick, candles: seq<Candle>, bin: Intervals, cuts: seq<nat>, k: nat)
    requires SplitsInto(init, candles, bin, cuts) && k < |Take(candles, t, bin)|
    ensures var after, cuts' := Take(candles, t, bin), CutsAfter(init, t, candles, bin, cuts);
      |cuts'| == |after| + 1 && RunOf(init + [t], after[k], cuts'[k], cuts'[k + 1], bin)
  {
    var last := |candles| - 1;
    if k == last + 1 {
      RunStarts(init, t, bin);
    } else {
      assert RunOf(init, candles[k], cuts[k], cuts[k + 1], bin);
      if k == last && candles[last].timestamp == bin(t.at) {
        RunGrows(init, t, candles[last], cuts[last], bin);
      } else {
        RunStays(init, t, candles[k], cuts[k], cuts[k + 1], bin);
      }
    }
  }

  lemma TakeChanges(candles: seq<Candle>, t: Tick, bin: Intervals, k: nat)
    requires 0 < k < |Take(candles, t, bin)|
    requires k < |candles| ==> candles[k - 1].timestamp != candles[k].timestamp
    ensures Take(candles, t, bin)[k - 1].timestamp != Take(candles, t, bin)[k].timestamp
  {}

  lemma SplitSteps(init: seq<Tick>, t: Tick, candles: seq<Candle>, bin: Intervals, cuts: seq<nat>)
    requires SplitsInto(init, candles, bin, cuts)
    ensures SplitsInto(init + [t], Take(candles, t, bin), bin, CutsAfter(init, t, candles, bin, cuts))
  {
    var after := Take(candles, t, bin);
    forall k | 0 <= k < |after|
      ensures var cuts' := CutsAfter(init, t, candles, bin, cuts);
        |cuts'| == |after| + 1 && RunOf(init + [t], after[k], cuts'[k], cuts'[k + 1], bin)
    {
      SplitStep(init, t, candles, bin, cuts, k);
    }
    forall k | 0 < k < |after|
      ensures after[k - 1].timestamp != after[k].timestamp
    {
      TakeChanges(candles, t, bin, k);
    }
  }

  // The candles are exactly the maximal runs of ticks in one interval, each candle the summary
  // of its run.
  lemma {:induction false} CandlesAreRuns(ticks: seq<Tick>, bin: Intervals)
    ensures exists cuts :: SplitsInto(ticks, Candlesticks(ticks, bin), bin, cuts)
  {
    if ticks == [] {
      var cuts: seq<nat> := [0];
      assert SplitsInto(ticks, Candlesticks(ticks, bin), bin, cuts);
    } else {
      var init, t := ticks[..|ticks| - 1], ticks[|ticks| - 1];
      assert ticks == init + [t];
      CandlesAreRuns(init, bin);
      var candles := Candlesticks(init, bin);
      var before :| SplitsInto(init, candles, bin, before);
      SplitSteps(init, t, candles, bin, before);
      assert SplitsInto(ticks, Candlesticks(ticks, bin), bin, CutsAfter(init, t, candles, bin, before));
    }
  }

  // ----- what follows for each candle and for all of them -----

  function TotalVolume(candles: seq<Candle>): real {
    if candles == [] then 0.0 else TotalVolume(candles[..|candles| - 1]) + candles[|candles| - 1].volume
  }

  // No volume is lost or counted twice.
  lemma {:induction false} VolumeConserved(ticks: seq<Tick>, bin: Intervals)
    ensures TotalVolume(Candlesticks(ticks, bin)) == VolumeOf(ticks)
  {
    if ticks != [] {
      var n := |ticks| - 1;
      VolumeConserved(ticks[..n], bin);
      var candles := Candlesticks(ticks[..n], bin);
      TotalVolumeOfTake(candles, ticks[n], bin);
    }
  }

  lemma TotalVolumeOfTake(candles: seq<Candle>, t: Tick, bin: Intervals)
    ensures TotalVolume(Take(candles, t, bin)) == TotalVolume(candles) + t.volume
  {
    var n := |candles| - 1;
    if n >= 0 && candles[n].timestamp == bin(t.at) {
      assert Take(candles, t, bin)[..n] == candles[..n];
    } else {
      assert Take(candles, t, bin)[..|candles|] == candles;
    }
  }

  predicate Aligned(candles: seq<Candle>, bin: Intervals) {
    && (forall i :: 0 <= i < |candles| ==> bin(candles[i].timestamp) == candles[i].timestamp)
    && (forall i, j :: 0 <= i < j < |candles| ==> candles[i].timestamp < candles[j].timestamp)
  }

  lemma TakeAligned(candles: seq<Candle>, t: Tick, bin: Intervals)
    requires Nested(bin, bin) && Aligned(candles, bin)
    requires candles != [] ==> candles[|candles| - 1].timestamp <= bin(t.at)
    ensures Aligned(Take(candles, t, bin), bin)
    ensures Take(candles, t, bin) != [] && Take(candles, t, bin)[|Take(candles, t, bin)| - 1].timestamp == bin(t.at)
  {
    assert bin(bin(t.at)) == bin(t.at);
  }

  ghost predicate TimeOrdered(ticks: seq<Tick>) {
    forall i, j :: 0 <= i < j < |ticks| ==> ticks[i].at <= ticks[j].at
  }

  lemma LastTwoOrdered(ticks: seq<Tick>)
    requires TimeOrdered(ticks) && |ticks| >= 2
    ensures ticks[|ticks| - 2].at <= ticks[|ticks| - 1].at
  {}

  lemma InitOrdered(ticks: seq<Tick>)
    requires TimeOrdered(ticks) && ticks != []
    ensures TimeOrdered(ticks[..|ticks| - 1])
  {}

  lemma {:induction false} TimestampsIncreaseBy(ticks: seq<Tick>, bin: Intervals)
    requires TimeOrdered(ticks) && Monotone(bin) && Nested(bin, bin)
    ensures var candles := Candlesticks(ticks, bin);
      && Aligned(candles, bin)
      && (ticks != [] ==> candles != [] && candles[|candles| - 1].timestamp == bin(ticks[|ticks| - 1].at))
  {
    if ticks != [] {
      var n := |ticks| - 1;
      var candles := Candlesticks(ticks[..n], bin);
      InitOrdered(ticks);
      TimestampsIncreaseBy(ticks[..n], bin);
      if n > 0 {
        LastTwoOrdered(ticks);
        assert bin(ticks[n - 1].at) <= bin(ticks[n].at);
      }
      TakeAligned(candles, ticks[n], bin);
    }
  }

  lemma LessByProduct(a: int, b: int, d: int)
    requires a * d < b * d && d > 0
    ensures a < b
  {
    if a >= b {
      TimesMonotoneInt(b, a, d);
    }
  }

  lemma QuotientBounds(t: int, d: int)
    requires d > 0
    ensures t / d * d <= t < (t / d + 1) * d
    ensures Truncate(t, d) == t / d * d
  {
    assert (t / d + 1) * d == t / d * d + d;
  }

  lemma TruncateMonotone(s: int, t: int, d: int)
    requires s <= t
    ensures Truncate(s, d) <= Truncate(t, d)
  {
    if d > 0 {
      QuotientBounds(s, d);
      QuotientBounds(t, d);
      LessByProduct(s / d, t / d + 1, d);
      TimesMonotoneInt(s / d, t / d, d);
    }
  }

  // What is left of a time in an interval of `k` times `d`: whole intervals of `d`, and the rest.
  lemma RemainderOfMultiple(t: int, d: int, k: int)
    requires d > 0 && k >= 1
    ensures k * d > 0 && t % (k * d) == (t / d % k) * d + t % d
  {
    var q := t / d;
    var q1, r1 := q / k, q % k;
    TimesMonotoneInt(1, k, d);
    assert q1 * k * d == q1 * (k * d);
    assert t == (q1 * k + r1) * d + t % d;
    assert (q1 * k + r1) * d == q1 * (k * d) + r1 * d;
    TimesMonotoneInt(r1, k - 1, d);
    assert (k - 1) * d == k * d - d;
    DivisionIsUnique(t, k * d, q1, r1 * d + t % d);
  }

  // Rounding to a multiple of `d` can be done by way of `d`.
  lemma TruncateTwice(t: int, d: int, k: int)
    requires k >= 1
    ensures Truncate(Truncate(t, d), k * d) == Truncate(t, k * d)
  {
    if d > 0 {
      var s := t - t % d;
      QuotientBounds(t, d);
      DivisionIsUnique(s, d, t / d, 0);
      assert s / d == t / d by {
        QuotientBounds(s, d);
        LessByProduct(s / d, t / d + 1, d);
        LessByProduct(t / d, s / d + 1, d);
      }
      RemainderOfMultiple(t, d, k);
      RemainderOfMultiple(s, d, k);
    } else {
      assert k * d <= 0 by {
        TimesMonotoneInt(d, 0, k);
        assert d * k == k * d;
      }
    }
  }

  lemma DivisionIsUnique(t: int, d: int, q: int, r: int)
    requires d > 0 && 0 <= r < d && t == q * d + r
    ensures t % d == r
  {
    QuotientBounds(t, d);
    assert (q + 1) * d == q * d + d;
    LessByProduct(q, t / d + 1, d);
    LessByProduct(t / d, q + 1, d);
  }

  lemma MultiplesMonotone(d: int)
    ensures Monotone(Multiples(d))
  {
    forall s, t | s <= t
      ensures Multiples(d)(s) <= Multiples(d)(t)
    {
      TruncateMonotone(s, t, d);
    }
  }

  lemma MultiplesNested(d: int, k: int)
    requires k >= 1
    ensures Nested(Multiples(d), Multiples(k * d))
  {
    forall t
      ensures Multiples(k * d)(Multiples(d)(t)) == Multiples(k * d)(t)
    {
      TruncateTwice(t, d, k);
    }
  }

  // Time-ordered prices give aligned, strictly increasing timestamps.
  lemma TimestampsIncrease(ticks: seq<Tick>, d: int)
    requires TimeOrdered(ticks)
    ensures Aligned(Candlesticks(ticks, Multiples(d)), Multiples(d))
  {
    MultiplesMonotone(d);
    MultiplesNested(d, 1);
    assert 1 * d == d;
    TimestampsIncreaseBy(ticks, Multiples(d));
  }

  // ----- coarsening -----

  // Adjacent candles that fall in one interval become one.
  function Join(a: Candle, b: Candle): Candle {
    Candle(a.timestamp, a.open, if b.high > a.high then b.high else a.high, if b.low < a.low then b.low else a.low,
           b.close, a.volume + b.volume)
  }

  function Rebase(c: Candle, bin: Intervals): Candle {
    c.(timestamp := bin(c.timestamp))
  }

  function MergeOne(merged: seq<Candle>, c: Candle, bin: Intervals): seq<Candle> {
    var n := |merged| - 1;
    if n >= 0 && merged[n].timestamp == bin(c.timestamp)
    then merged[..n] + [Join(merged[n], c)]
    else merged + [Rebase(c, bin)]
  }

  function Merge(candles: seq<Candle>, bin: Intervals): seq<Candle> {
    if candles == [] then [] else MergeOne(Merge(candles[..|candles| - 1], bin), candles[|candles| - 1], bin)
  }

  lemma MergeLast(candles: seq<Candle>, c: Candle, bin: Intervals)
    ensures Merge(candles + [c], bin) == MergeOne(Merge(candles, bin), c, bin)
  {
    assert (candles + [c])[..|candles|] == candles;
  }

  // Extending the last small candle extends the last large one.
  lemma MergeExtends(candles: seq<Candle>, c: Candle, t: Tick, bin: Intervals)
    requires bin(t.at) == bin(c.timestamp)
    ensures Merge(candles + [Extend(c, t)], bin) == Take(Merge(candles + [c], bin), t, bin)
  {
    var merged := Merge(candles, bin);
    MergeLast(candles, c, bin);
    MergeLast(candles, Extend(c, t), bin);
    var n := |merged| - 1;
    if n >= 0 && merged[n].timestamp == bin(c.timestamp) {
      assert MergeOne(merged, c, bin)[..n] == merged[..n];
      assert Extend(Join(merged[n], c), t) == Join(merged[n], Extend(c, t));
    } else {
      assert MergeOne(merged, c, bin)[..|merged|] == merged;
    }
  }

  // A new small candle either extends the last large one or starts one.
  lemma MergeStarts(candles: seq<Candle>, t: Tick, fine: Intervals, bin: Intervals)
    requires bin(fine(t.at)) == bin(t.at)
    ensures Merge(candles + [Start(t, fine)], bin) == Take(Merge(candles, bin), t, bin)
  {
    var merged := Merge(candles, bin);
    MergeLast(candles, Start(t, fine), bin);
    assert Rebase(Start(t, fine), bin) == Start(t, bin);
    var n := |merged| - 1;
    if n >= 0 && merged[n].timestamp == bin(t.at) {
      assert Join(merged[n], Start(t, fine)) == Extend(merged[n], t);
    }
  }

  lemma {:induction false} NestedIsMerging(ticks: seq<Tick>, fine: Intervals, coarse: Intervals)
    requires Nested(fine, coarse)
    ensures Candlesticks(ticks, coarse) == Merge(Candlesticks(ticks, fine), coarse)
  {
    if ticks != [] {
      var n := |ticks| - 1;
      var init, t := ticks[..n], ticks[n];
      NestedIsMerging(init, fine, coarse);
      var candles := Candlesticks(init, fine);
      var last := |candles| - 1;
      assert coarse(fine(t.at)) == coarse(t.at);
      if last >= 0 && candles[last].timestamp == fine(t.at) {
        assert candles == candles[..last] + [candles[last]];
        MergeExtends(candles[..last], candles[last], t, coarse);
      } else {
        MergeStarts(candles, t, fine, coarse);
      }
    }
  }

  // Coarsening. Candles of `k` intervals are what merging adjacent candles of one interval
  // gives, for any price and volume series, in time order or not.
  lemma CoarseningIsMerging(ticks: seq<Tick>, d: int, k: int)
    requires k >= 1
    ensures Candlesticks(ticks, Multiples(k * d)) == Merge(Candlesticks(ticks, Multiples(d)), Multiples(k * d))
  {
    MultiplesNested(d, k);
    NestedIsMerging(ticks, Multiples(d), Multiples(k * d));
  }

  // ----- the loop -----

  method ToCandlesticks(m: MarketChart, intervalMinutes: int) returns (candlesticks: seq<Candle>)
    ensures candlesticks == Candlesticks(Ticks(m), Multiples(intervalMinutes * 60_000_000_000))
  {
    candlesticks := GroupPrices(m, Multiples(intervalMinutes * NANOS_PER_MINUTE));
  }

  method GroupPrices(m: MarketChart, bin: Intervals) returns (candlesticks: seq<Candle>)
    ensures candlesticks == Candlesticks(Ticks(m), bin)
  {
    candlesticks := [];
    if |m.prices| == 0 {
      return;
    }
    ghost var ticks := Ticks(m);
    var hasCandle, currentCandle := false, Candle(0, 0.0, 0.0, 0.0, 0.0, 0.0);
    for i := 0 to |m.prices|
      invariant hasCandle <==> i > 0
      invariant Candlesticks(ticks[..i], bin) == if hasCandle then candlesticks + [currentCandle] else candlesticks
    {
      CandlesticksStep(ticks, i, bin);
      var volume := if i < |m.totalVolumes| then m.totalVolumes[i].value else 0.0;
      candlesticks, currentCandle := AddPoint(candlesticks, hasCandle, currentCandle, m.prices[i], volume, bin);
      hasCandle := true;
    }
    assert ticks[..|m.prices|] == ticks;
    candlesticks := candlesticks + [currentCandle];
  }

  // One turn of the loop: the point starts a new candle when it moves to a new interval.
  method AddPoint(candles: seq<Candle>, hasCandle: bool, current: Candle, point: Point, volume: real, bin: Intervals)
    returns (candlesticks: seq<Candle>, currentCandle: Candle)
    requires !hasCandle ==> candles == []
    ensures
      var t := Tick(point.timestamp, point.value, volume);
      candlesticks + [currentCandle] == Take(if hasCandle then candles + [current] else candles, t, bin)
  {
    candlesticks, currentCandle := candles, current;
    ghost var t := Tick(point.timestamp, point.value, volume);
    var pointIntervalStart := bin(point.timestamp);
    if !hasCandle || pointIntervalStart != current.timestamp {
      if hasCandle {
        candlesticks := candlesticks + [current];
      }
      TakeStarts(candlesticks, t, bin);
      currentCandle := Candle(pointIntervalStart, point.value, point.value, point.value, point.value, 0.0);
    } else {
      TakeExtends(candles, current, t, bin);
      if point.value > currentCandle.high {
        currentCandle := currentCandle.(high := point.value);
      }
      if point.value < currentCandle.low {
        currentCandle := currentCandle.(low := point.value);
      }
      currentCandle := currentCandle.(close := point.value);
    }
    currentCandle := currentCandle.(volume := currentCandle.volume + volume);
  }

  lemma CandlesticksStep(ticks: seq<Tick>, i: nat, bin: Intervals)
    requires i < |ticks|
    ensures Candlesticks(ticks[..i + 1], bin) == Take(Candlesticks(ticks[..i], bin), ticks[i], bin)
  {
    assert ticks[..i + 1][..i] == ticks[..i];
  }

  lemma TakeStarts(candles: seq<Candle>, t: Tick, bin: Intervals)
    requires candles != [] ==> candles[|candles| - 1].timestamp != bin(t.at)
    ensures Take(candles, t, bin) == candles + [Start(t, bin)]
  {}

  lemma TakeExtends(candles: seq<Candle>, c: Candle, t: Tick, bin: Intervals)
    requires c.timestamp == bin(t.at)
    ensures Take(candles + [c], t, bin) == candles + [Extend(c, t)]
  {}
}
