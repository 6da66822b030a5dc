/** The candles of a chart, in terms of its prices and volumes. */
module CandleCharts {
  import opened Candles

  // The volumes at the indices from `from` on and before `to`, as far as there are any.
  function VolumesBetween(m: MarketChart, from: nat, to: nat): real
    requires from <= to
  {
    if from == to then 0.0
    else VolumesBetween(m, from, to - 1) + if to - 1 < |m.totalVolumes| then m.totalVolumes[to - 1].value else 0.0
  }

  // Time `t` is in the interval of so many minutes that starts at `start`; intervals start at
  // multiples of their length. An interval that is not positive holds nothing but its start.
  predicate InInterval(start: int, t: int, minutes: int) {
    if minutes > 0 then
      var nanos := minutes * 60_000_000_000;
      start % nanos == 0 && start <= t < start + nanos
    else t == start
  }

  // The candle is that of the prices from number `from` on and before number `to`.
  ghost predicate CandleOf(m: MarketChart, c: Candle, from: nat, to: nat, minutes: int) {
    && from < to <= |m.prices|
    && (forall i :: from <= i < to ==> InInterval(c.timestamp, m.prices[i].timestamp, minutes))
    && c.open == m.prices[from].value && c.close == m.prices[to - 1].value
    && (forall i :: from <= i < to ==> c.low <= m.prices[i].value <= c.high)
    && (exists i :: from <= i < to && m.prices[i].value == c.high)
    && (exists i :: from <= i < to && m.prices[i].value == c.low)
    && c.volume == VolumesBetween(m, from, to)
  }

  ghost predicate ChartSplits(m: MarketChart, candles: seq<Candle>, minutes: int, cuts: seq<nat>) {
    && |cuts| == |candles| + 1 && cuts[0] == 0 && cuts[|candles|] == |m.prices|
    && (forall k :: 0 <= k < |candles| ==> CandleOf(m, candles[k], cuts[k], cuts[k + 1], minutes))
    && (forall k :: 0 < k < |candles| ==> candles[k - 1].timestamp != candles[k].timestamp)
  }

  lemma {:induction false} VolumeOfTicks(m: MarketChart, from: nat, to: nat)
    requires from <= to <= |m.prices|
    ensures VolumeOf(Ticks(m)[from..to]) == VolumesBetween(m, from, to)
  {
    if from < to {
      var run := Ticks(m)[from..to];
      assert run[..|run| - 1] == Ticks(m)[from..to - 1];
      VolumeOfTicks(m, from, to - 1);
    }
  }

  lemma TruncatedInInterval(t: int, minutes: int)
    ensures InInterval(Truncate(t, minutes * 60_000_000_000), t, minutes)
  {
    var nanos := minutes * 60_000_000_000;
    if nanos > 0 {
      QuotientBounds(t, nanos);
      DivisionIsUnique(t / nanos * nanos, nanos, t / nanos, 0);
    }
  }

  lemma CandleOfRun(m: MarketChart, c: Candle, from: nat, to: nat, minutes: int)
    requires RunOf(Ticks(m), c, from, to, Multiples(minutes * 60_000_000_000))
    ensures CandleOf(m, c, from, to, minutes)
  {
    var run := Ticks(m)[from..to];
    forall i | from <= i < to
      ensures run[i - from] == TickAt(m, i) && InInterval(c.timestamp, m.prices[i].timestamp, minutes)
    {
      assert run[i - from] == Ticks(m)[i];
      TruncatedInInterval(m.prices[i].timestamp, minutes);
    }
    assert run[0] == TickAt(m, from) && run[|run| - 1] == TickAt(m, to - 1);
    var hi :| 0 <= hi < |run| && c.high == run[hi].price;
    var lo :| 0 <= lo < |run| && c.low == run[lo].price;
    assert run[hi] == TickAt(m, from + hi) && run[lo] == TickAt(m, from + lo);
    assert m.prices[from + hi].value == c.high && m.prices[from + lo].value == c.low;
    VolumeOfTicks(m, from, to);
  }

  // The candles of a chart split its prices into the maximal runs that fall in one interval; each
  // has the first, last, greatest and least price of its run and the volumes at its indices.
  lemma ChartCandles(m: MarketChart, minutes: int)
    ensures exists cuts ::
      ChartSplits(m, Candlesticks(Ticks(m), Multiples(minutes * 60_000_000_000)), minutes, cuts)
  {
    var bin := Multiples(minutes * 60_000_000_000);
    var candles := Candlesticks(Ticks(m), bin);
    CandlesAreRuns(Ticks(m), bin);
    var cuts :| SplitsInto(Ticks(m), candles, bin, cuts);
    forall k | 0 <= k < |candles|
      ensures CandleOf(m, candles[k], cuts[k], cuts[k + 1], minutes)
    {
      CandleOfRun(m, candles[k], cuts[k], cuts[k + 1], minutes);
    }
    assert ChartSplits(m, candles, minutes, cuts);
  }

  // Together they have the volumes at all indices that have a price.
  lemma ChartVolume(m: MarketChart, minutes: int)
    ensures TotalVolume(Candlesticks(Ticks(m), Multiples(minutes * 60_000_000_000))) ==
      VolumesBetween(m, 0, |m.prices|)
  {
    VolumeConserved(Ticks(m), Multiples(minutes * 60_000_000_000));
    VolumeOfTicks(m, 0, |m.prices|);
    assert Ticks(m)[0..|m.prices|] == Ticks(m);
  }
}
