/** The circuit breaker of one model, as functions over its state, and its history. */
module Breaker {
  import opened Options
  import opened SlidingWindow

  datatype CircuitState = Closed | Opened | HalfOpen

  datatype Config = Config(failureThreshold: int, successThreshold: int, timeout: int, timeWindow: int)

  // `failures` is the sliding window of failure times.
  datatype Circuit = Circuit(state: CircuitState, consecutiveFails: int, consecutiveSuccesses: int,
                             lastFailure: Option<int>, lastSuccess: Option<int>, openedAt: int, failures: seq<int>)

  const FRESH := Circuit(Closed, 0, 0, None, None, 0, [])

  // Whether a request may go ahead now; an open circuit whose timeout has passed turns half-open.
  function Probe(cfg: Config, c: Circuit, now: int): (Circuit, bool) {
    if c.state != Opened then (c, true)
    else if now - c.openedAt >= cfg.timeout then (c.(state := HalfOpen), true)
    else (c, false)
  }

  function Succeed(cfg: Config, c: Circuit, now: int): Circuit {
    var c1 := c.(consecutiveSuccesses := c.consecutiveSuccesses + 1, consecutiveFails := 0, lastSuccess := Some(now));
    if c.state == HalfOpen && c1.consecutiveSuccesses >= cfg.successThreshold
    then c1.(state := Closed, consecutiveSuccesses := 0)
    else c1
  }

  function Fail(cfg: Config, c: Circuit, now: int): Circuit {
    var c1 := c.(consecutiveFails := c.consecutiveFails + 1, consecutiveSuccesses := 0, lastFailure := Some(now),
                 failures := After(c.failures + [now], now - cfg.timeWindow));
    if c.state == HalfOpen || (c.state == Closed && c1.consecutiveFails >= cfg.failureThreshold)
    then c1.(state := Opened, openedAt := now)
    else c1
  }

  function Reset(c: Circuit): Circuit {
    c.(state := Closed, consecutiveFails := 0, consecutiveSuccesses := 0, failures := [])
  }

  // ----- history -----

  // The atomic steps that any interleaving of requests and resets is made of. A probe that finds
  // the timeout passed gives up its lock before it turns the circuit half-open; when other steps
  // come between the two, that second half is a late write of its own.
  datatype Op = DoProbe(at: int) | DoSucceed(at: int) | DoFail(at: int) | DoReset(at: int) | DoLateWrite(at: int)

  function Step(cfg: Config, c: Circuit, op: Op): Circuit {
    match op
    case DoProbe(now) => Probe(cfg, c, now).0
    case DoSucceed(now) => Succeed(cfg, c, now)
    case DoFail(now) => Fail(cfg, c, now)
    case DoReset(_) => Reset(c)
    case DoLateWrite(_) => c.(state := HalfOpen)
  }

  function Run(cfg: Config, ops: seq<Op>): Circuit {
    if ops == [] then FRESH else Step(cfg, Run(cfg, ops[..|ops| - 1]), ops[|ops| - 1])
  }

  // Failures since the last success or reset.
  function FailStreak(ops: seq<Op>): nat {
    if ops == [] then 0
    else match ops[|ops| - 1]
      case DoProbe(_) | DoLateWrite(_) => FailStreak(ops[..|ops| - 1])
      case DoFail(_) => FailStreak(ops[..|ops| - 1]) + 1
      case _ => 0
  }

  // Successes since the last failure or reset.
  function SuccessStreak(ops: seq<Op>): nat {
    if ops == [] then 0
    else match ops[|ops| - 1]
      case DoProbe(_) | DoLateWrite(_) => SuccessStreak(ops[..|ops| - 1])
      case DoSucceed(_) => SuccessStreak(ops[..|ops| - 1]) + 1
      case _ => 0
  }

  // The last step of `ops` closes the circuit after a recovery.
  predicate Recovers(cfg: Config, ops: seq<Op>)
    requires ops != []
  {
    Run(cfg, ops[..|ops| - 1]).state == HalfOpen && Run(cfg, ops).state == Closed && ops[|ops| - 1].DoSucceed?
  }

  // Successes since the last failure, reset or recovery.
  function CountedSuccesses(cfg: Config, ops: seq<Op>): nat {
    if ops == [] || Recovers(cfg, ops) then 0
    else match ops[|ops| - 1]
      case DoProbe(_) | DoLateWrite(_) => CountedSuccesses(cfg, ops[..|ops| - 1])
      case DoSucceed(_) => CountedSuccesses(cfg, ops[..|ops| - 1]) + 1
      case _ => 0
  }

  // The full log of failure times since the last reset.
  function FailureLog(ops: seq<Op>): seq<int> {
    if ops == [] then []
    else match ops[|ops| - 1]
      case DoFail(now) => FailureLog(ops[..|ops| - 1]) + [now]
      case DoReset(_) => []
      case _ => FailureLog(ops[..|ops| - 1])
  }

  ghost predicate Ordered(ops: seq<Op>) {
    forall i, j :: 0 <= i < j < |ops| ==> ops[i].at <= ops[j].at
  }

  // No other step ever comes between the two halves of a probe.
  ghost predicate Undisturbed(ops: seq<Op>) {
    forall i :: 0 <= i < |ops| ==> !ops[i].DoLateWrite?
  }

  // The counters are what they are called. When no probe is disturbed, an open circuit was
  // opened by a failure since which every success still counts.
  lemma {:induction false} CountersAreStreaks(cfg: Config, ops: seq<Op>)
    ensures var c := Run(cfg, ops);
      && c.consecutiveFails == FailStreak(ops)
      && c.consecutiveSuccesses == CountedSuccesses(cfg, ops) <= SuccessStreak(ops)
      && (c.state != Closed && Undisturbed(ops) ==> c.consecutiveSuccesses == SuccessStreak(ops))
  {
    if ops != [] {
      CountersAreStreaks(cfg, ops[..|ops| - 1]);
    }
  }

  // A success closes a half-open circuit only if it completes a streak of at least
  // SuccessThreshold successes with no failure between; when no probe was disturbed, also if.
  lemma RecoveryNeedsStreak(cfg: Config, ops: seq<Op>, now: int)
    requires Run(cfg, ops).state == HalfOpen
    ensures var after := ops + [DoSucceed(now)];
      && (Run(cfg, after).state == Closed ==> SuccessStreak(after) >= cfg.successThreshold)
      && (Undisturbed(ops) && SuccessStreak(after) >= cfg.successThreshold ==> Run(cfg, after).state == Closed)
  {
    CountersAreStreaks(cfg, ops);
    assert (ops + [DoSucceed(now)])[..|ops|] == ops;
  }

  predicate TimedOut(cfg: Config, c: Circuit, now: int) {
    now - c.openedAt >= cfg.timeout
  }

  // If step `k` leaves the circuit half-open, a timeout has passed since the failure that opened it.
  predicate RestsAt(cfg: Config, ops: seq<Op>, k: nat)
    requires k < |ops|
  {
    var c := Run(cfg, ops[..k + 1]);
    c.state == HalfOpen ==> TimedOut(cfg, c, ops[k].at)
  }

  ghost predicate AlwaysRests(cfg: Config, ops: seq<Op>) {
    forall k :: 0 <= k < |ops| ==> RestsAt(cfg, ops, k)
  }

  // If step `k` is a late write, it would pass the probe's test if that were made again now.
  predicate InTimeAt(cfg: Config, ops: seq<Op>, k: nat)
    requires k < |ops|
  {
    ops[k].DoLateWrite? ==> TimedOut(cfg, Run(cfg, ops[..k]), ops[k].at)
  }

  ghost predicate LateWritesInTime(cfg: Config, ops: seq<Op>) {
    forall k :: 0 <= k < |ops| ==> InTimeAt(cfg, ops, k)
  }

  lemma StepsOfPrefix(cfg: Config, ops: seq<Op>, n: nat, k: nat)
    requires k < n <= |ops|
    ensures RestsAt(cfg, ops[..n], k) <==> RestsAt(cfg, ops, k)
    ensures InTimeAt(cfg, ops[..n], k) <==> InTimeAt(cfg, ops, k)
  {
    assert ops[..n][..k + 1] == ops[..k + 1] && ops[..n][..k] == ops[..k];
  }

  lemma RestsWhenInTime(cfg: Config, ops: seq<Op>, n: nat)
    requires Ordered(ops) && n < |ops| && (n > 0 ==> RestsAt(cfg, ops, n - 1))
    ensures RestsAt(cfg, ops, n) <==> InTimeAt(cfg, ops, n)
  {
    assert ops[..n + 1][..n] == ops[..n];
    assert Run(cfg, ops[..n + 1]) == Step(cfg, Run(cfg, ops[..n]), ops[n]);
    if n == 0 {
      assert Run(cfg, ops[..0]) == FRESH;
    } else {
      assert ops[..n - 1 + 1] == ops[..n] && ops[n - 1].at <= ops[n].at;
    }
  }

  // At every point of a run a half-open circuit has had a timeout since the failure that opened
  // it, exactly when no late write comes where the probe's test would fail.
  lemma {:induction false} HalfOpenAfterTimeout(cfg: Config, ops: seq<Op>)
    requires Ordered(ops)
    ensures AlwaysRests(cfg, ops) <==> LateWritesInTime(cfg, ops)
  {
    var n := |ops| - 1;
    if n >= 0 {
      HalfOpenAfterTimeout(cfg, ops[..n]);
      forall k | 0 <= k < n
        ensures RestsAt(cfg, ops[..n], k) <==> RestsAt(cfg, ops, k)
        ensures InTimeAt(cfg, ops[..n], k) <==> InTimeAt(cfg, ops, k)
      {
        StepsOfPrefix(cfg, ops, n, k);
      }
      assert AlwaysRests(cfg, ops) <==> AlwaysRests(cfg, ops[..n]) && RestsAt(cfg, ops, n);
      assert LateWritesInTime(cfg, ops) <==> LateWritesInTime(cfg, ops[..n]) && InTimeAt(cfg, ops, n);
      if n == 0 || RestsAt(cfg, ops, n - 1) {
        RestsWhenInTime(cfg, ops, n);
      }
    }
  }

  // Such a late write is possible whenever a circuit is open and its timeout has passed: two
  // requests find it so, the first of them fails and opens the circuit again, then the write of
  // the second makes it half-open at once.
  lemma LateWriteSkipsTimeout(cfg: Config, ops: seq<Op>, now: int)
    requires Run(cfg, ops).state == Opened && TimedOut(cfg, Run(cfg, ops), now) && cfg.timeout > 0
    ensures var after := ops + [DoProbe(now), DoFail(now), DoLateWrite(now)];
      Run(cfg, after).state == HalfOpen && !TimedOut(cfg, Run(cfg, after), now)
  {
    var one, two := ops + [DoProbe(now)], ops + [DoProbe(now), DoFail(now)];
    var after := ops + [DoProbe(now), DoFail(now), DoLateWrite(now)];
    assert one[..|ops|] == ops && two[..|one|] == one && after[..|two|] == two;
    assert Run(cfg, one).state == HalfOpen;
    assert Run(cfg, two).openedAt == now;
  }

  // `n` failures at time 0.
  function Failures(n: nat): seq<Op> {
    seq(n, _ => DoFail(0))
  }

  // Failures alone open a circuit once there are FailureThreshold of them, and at least one.
  lemma {:induction false} FailuresOpen(cfg: Config, n: nat)
    ensures Run(cfg, Failures(n)).state == (if n >= 1 && n >= cfg.failureThreshold then Opened else Closed)
    ensures Run(cfg, Failures(n)).consecutiveFails == n
  {
    if n > 0 {
      FailuresOpen(cfg, n - 1);
      assert Failures(n)[..n - 1] == Failures(n - 1);
    }
  }

  lemma {:induction false} ClosedBelowThreshold(cfg: Config, ops: seq<Op>)
    requires cfg.failureThreshold >= 1
    ensures Run(cfg, ops).state == Closed ==> Run(cfg, ops).consecutiveFails < cfg.failureThreshold
  {
    if ops != [] {
      ClosedBelowThreshold(cfg, ops[..|ops| - 1]);
    }
  }

  ghost predicate AlwaysBelowThreshold(cfg: Config) {
    forall ops :: Run(cfg, ops).state == Closed ==> FailStreak(ops) < cfg.failureThreshold
  }

  // In every interleaving a closed circuit has seen fewer than FailureThreshold failures in a
  // row; this is so exactly for thresholds of at least 1.
  lemma ClosedMeansFewFailures(cfg: Config)
    ensures AlwaysBelowThreshold(cfg) <==> cfg.failureThreshold >= 1
  {
    if cfg.failureThreshold >= 1 {
      forall ops | Run(cfg, ops).state == Closed
        ensures FailStreak(ops) < cfg.failureThreshold
      {
        CountersAreStreaks(cfg, ops);
        ClosedBelowThreshold(cfg, ops);
      }
    } else {
      assert Run(cfg, []).state == Closed && FailStreak([]) == 0;
    }
  }

  // ----- the sliding window -----

  lemma {:induction false} LastFailureInPast(cfg: Config, ops: seq<Op>, now: int)
    requires forall i :: 0 <= i < |ops| ==> ops[i].at <= now
    ensures Run(cfg, ops).lastFailure.Some? ==> Run(cfg, ops).lastFailure.value <= now
  {
    if ops != [] {
      LastFailureInPast(cfg, ops[..|ops| - 1], now);
    }
  }

  // The window of `c` is `log` cut off a time window before the last failure.
  predicate Windowed(cfg: Config, c: Circuit, log: seq<int>) {
    if c.lastFailure.None? then c.failures == log == []
    else c.failures == After(log, c.lastFailure.value - cfg.timeWindow)
  }

  lemma FailKeepsWindow(cfg: Config, c: Circuit, log: seq<int>, now: int)
    requires Windowed(cfg, c, log) && (c.lastFailure.Some? ==> c.lastFailure.value <= now)
    ensures Windowed(cfg, Fail(cfg, c, now), log + [now])
  {
    var cutoff := now - cfg.timeWindow;
    assert After(c.failures + [now], cutoff) == After(log + [now], cutoff) by {
      if c.lastFailure.Some? {
        PruningKeepsLog(log, c.lastFailure.value - cfg.timeWindow, now, cutoff);
      }
    }
  }

  // Pruning the window at every failure loses nothing: it is the full log of failures since the
  // last reset, cut off a time window before the last failure.
  lemma {:induction false} WindowIsPrunedLog(cfg: Config, ops: seq<Op>)
    requires Ordered(ops)
    ensures Windowed(cfg, Run(cfg, ops), FailureLog(ops))
  {
    var n := |ops| - 1;
    if n >= 0 {
      WindowIsPrunedLog(cfg, ops[..n]);
      LastFailureInPast(cfg, ops[..n], ops[n].at);
      match ops[n] {
        case DoFail(now) => FailKeepsWindow(cfg, Run(cfg, ops[..n]), FailureLog(ops[..n]), now);
        case _ =>
      }
    }
  }

  // ----- resets, and the times of the last events -----

  // The two circuits behave alike from now on.
  predicate BehaveAlike(c: Circuit, d: Circuit) {
    && c.state == d.state && (c.state == Opened ==> c.openedAt == d.openedAt)
    && c.consecutiveFails == d.consecutiveFails && c.consecutiveSuccesses == d.consecutiveSuccesses
    && c.failures == d.failures
  }

  // After a reset a circuit is closed and behaves as one that is new, whatever comes.
  lemma {:induction false} ResetIsFresh(cfg: Config, ops: seq<Op>, at: int, more: seq<Op>)
    ensures Run(cfg, ops + [DoReset(at)]).state == Closed
    ensures BehaveAlike(Run(cfg, ops + [DoReset(at)] + more), Run(cfg, more))
  {
    var reset := ops + [DoReset(at)];
    assert reset[..|ops|] == ops;
    if more == [] {
      assert reset + more == reset;
    } else {
      var n := |more| - 1;
      assert (reset + more)[..|reset + more| - 1] == reset + more[..n];
      ResetIsFresh(cfg, ops, at, more[..n]);
    }
  }

  // When the last of the failures, and of the successes, was recorded.
  function LastFailureOf(ops: seq<Op>): Option<int> {
    if ops == [] then None
    else if ops[|ops| - 1].DoFail? then Some(ops[|ops| - 1].at)
    else LastFailureOf(ops[..|ops| - 1])
  }

  function LastSuccessOf(ops: seq<Op>): Option<int> {
    if ops == [] then None
    else if ops[|ops| - 1].DoSucceed? then Some(ops[|ops| - 1].at)
    else LastSuccessOf(ops[..|ops| - 1])
  }

  lemma {:induction false} LastTimesAreKept(cfg: Config, ops: seq<Op>)
    ensures Run(cfg, ops).lastFailure == LastFailureOf(ops) && Run(cfg, ops).lastSuccess == LastSuccessOf(ops)
  {
    if ops != [] {
      LastTimesAreKept(cfg, ops[..|ops| - 1]);
    }
  }
}
