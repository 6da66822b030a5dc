/** The breakers of several models, and the client that falls back from one to the next. */
module Fallback {
  import opened Arithmetic
  import opened Options
  import opened Breaker
  import opened SlidingWindow

  // ----- routing, as functions over the circuits -----

  datatype Reply = Answer | Error(retryable: bool)

  // One model's part in a request: when its circuit is asked, when its call returns and how.
  datatype Call = Call(asked: int, done: int, reply: Reply)

  // The circuit of a model after its turn, and whether it was called.
  function Turn(cfg: Config, c: Circuit, call: Call): (Circuit, bool) {
    var (c1, admitted) := Probe(cfg, c, call.asked);
    if !admitted then (c1, false)
    else if call.reply.Answer? then (Succeed(cfg, c1, call.done), true)
    else (Fail(cfg, c1, call.done), true)
  }

  // The models from number `i` on are tried in order until one answers: the circuits after it,
  // and the model that answered.
  function CompleteFrom(cfg: Config, circuits: seq<Circuit>, calls: seq<Call>, i: nat): (r: (seq<Circuit>, Option<nat>))
    requires |calls| == |circuits| && i <= |calls|
    ensures |r.0| == |circuits|
    decreases |calls| - i
  {
    if i == |calls| then (circuits, None)
    else
      var (c, called) := Turn(cfg, circuits[i], calls[i]);
      if called && calls[i].reply.Answer? then (circuits[i := c], Some(i))
      else CompleteFrom(cfg, circuits[i := c], calls, i + 1)
  }

  function Admitted(cfg: Config, circuits: seq<Circuit>, calls: seq<Call>, i: nat): bool
    requires |calls| == |circuits| && i < |calls|
  {
    Probe(cfg, circuits[i], calls[i].asked).1
  }

  function Answers(cfg: Config, circuits: seq<Circuit>, calls: seq<Call>, i: nat): bool
    requires |calls| == |circuits| && i < |calls|
  {
    Admitted(cfg, circuits, calls, i) && calls[i].reply.Answer?
  }

  // The request is answered by the first model, in order of preference, whose circuit admits it
  // and whose call succeeds, and by none if there is no such model. Every model up to the
  // answering one has had exactly its turn; those after it are not touched.
  lemma {:induction false} FirstWillingModelAnswers(cfg: Config, circuits: seq<Circuit>, calls: seq<Call>, from: nat)
    requires |calls| == |circuits| && from <= |calls|
    ensures var (after, winner) := CompleteFrom(cfg, circuits, calls, from);
      && |after| == |circuits|
      && (winner.Some? ==> from <= winner.value < |calls| && Answers(cfg, circuits, calls, winner.value))
      && (forall i :: from <= i < |calls| && (winner.Some? ==> i < winner.value) ==> !Answers(cfg, circuits, calls, i))
      && (forall i :: 0 <= i < |calls| ==>
            if from <= i && (winner.Some? ==> i <= winner.value)
            then after[i] == Turn(cfg, circuits[i], calls[i]).0 else after[i] == circuits[i])
    decreases |calls| - from
  {
    if from < |calls| {
      var (c, called) := Turn(cfg, circuits[from], calls[from]);
      if !(called && calls[from].reply.Answer?) {
        FirstWillingModelAnswers(cfg, circuits[from := c], calls, from + 1);
        assert forall i :: from < i < |calls| ==>
          Answers(cfg, circuits[from := c], calls, i) == Answers(cfg, circuits, calls, i);
      }
    }
  }

  // ----- how often a failing model is called -----

  // The rounds are requests, made one after the other.
  predicate WellFormed(models: nat, rounds: seq<seq<Call>>) {
    forall r :: 0 <= r < |rounds| ==> |rounds[r]| == models
  }

  function Circuits(cfg: Config, models: nat, rounds: seq<seq<Call>>): (cs: seq<Circuit>)
    requires WellFormed(models, rounds)
    ensures |cs| == models
  {
    if rounds == [] then seq(models, _ => FRESH)
    else CompleteFrom(cfg, Circuits(cfg, models, rounds[..|rounds| - 1]), rounds[|rounds| - 1], 0).0
  }

  // Whether the request with the given circuits and calls gets as far as calling model `i`.
  function Calls(cfg: Config, circuits: seq<Circuit>, calls: seq<Call>, i: nat): bool
    requires |calls| == |circuits| && i < |calls|
  {
    var winner := CompleteFrom(cfg, circuits, calls, 0).1;
    (winner.Some? ==> i <= winner.value) && Admitted(cfg, circuits, calls, i)
  }

  // How often model `i` is called in all.
  function CallCount(cfg: Config, models: nat, rounds: seq<seq<Call>>, i: nat): nat
    requires WellFormed(models, rounds) && i < models
  {
    if rounds == [] then 0
    else
      var n := |rounds| - 1;
      var circuits := Circuits(cfg, models, rounds[..n]);
      CallCount(cfg, models, rounds[..n], i) + if Calls(cfg, circuits, rounds[n], i) then 1 else 0
  }

  // Model `i` fails every time it is called, and all its turns are within the given period.
  ghost predicate FailsWithin(models: nat, rounds: seq<seq<Call>>, i: nat, start: int, end: int)
    requires WellFormed(models, rounds) && i < models
  {
    forall r :: 0 <= r < |rounds| ==>
      rounds[r][i].reply.Error? && start <= rounds[r][i].asked <= rounds[r][i].done && rounds[r][i].asked <= end
  }

  // Besides, each of its turns comes after the one before it.
  ghost predicate KeepsFailing(models: nat, rounds: seq<seq<Call>>, i: nat, start: int, end: int)
    requires WellFormed(models, rounds) && i < models
  {
    && FailsWithin(models, rounds, i, start, end)
    && (forall q, r :: 0 <= q < r < |rounds| ==> rounds[q][i].done <= rounds[r][i].asked)
  }

  // How many failures in a row open a circuit: a threshold below 1 does no less than 1.
  function Threshold(cfg: Config): nat {
    MaxInt(1, cfg.failureThreshold)
  }

  // How long `n` timeouts last.
  function Span(n: int, timeout: int): int {
    n * timeout
  }

  lemma SpanStep(n: int, timeout: int)
    ensures Span(n + 1, timeout) == Span(n, timeout) + timeout && Span(0, timeout) == 0
  {}

  lemma SpanMonotone(m: int, n: int, timeout: int)
    requires m <= n && timeout >= 0
    ensures Span(m, timeout) <= Span(n, timeout)
  {}

  // Between rounds a failing model's circuit is closed, with all calls counted, or open, with
  // one timeout behind it for every call past the threshold.
  predicate FailingCircuit(cfg: Config, c: Circuit, calls: nat, start: int) {
    var threshold := Threshold(cfg);
    && c.state != HalfOpen
    && (c.state == Closed ==> calls == c.consecutiveFails < threshold)
    && (c.state == Opened ==> calls >= threshold && c.openedAt >= start + Span(calls - threshold, cfg.timeout))
  }

  lemma FailingTurn(cfg: Config, c: Circuit, call: Call, calls: nat, start: int)
    requires FailingCircuit(cfg, c, calls, start)
    requires call.reply.Error? && start <= call.asked <= call.done
    ensures var (c1, called) := Turn(cfg, c, call);
      if called then FailingCircuit(cfg, c1, calls + 1, start) else c1 == c
    ensures Turn(cfg, c, call).1 && c.state == Opened ==>
      call.asked >= start + Span(calls + 1 - Threshold(cfg), cfg.timeout)
  {
    SpanStep(calls - Threshold(cfg), cfg.timeout);
    SpanStep(0, cfg.timeout);
  }

  lemma CallReached(cfg: Config, circuits: seq<Circuit>, round: seq<Call>, i: nat)
    requires |round| == |circuits| && i < |round| && round[i].reply.Error?
    ensures CompleteFrom(cfg, circuits, round, 0).0[i] ==
      if Calls(cfg, circuits, round, i) then Turn(cfg, circuits[i], round[i]).0 else circuits[i]
  {
    FirstWillingModelAnswers(cfg, circuits, round, 0);
  }

  lemma {:induction false} FailingRuns(cfg: Config, models: nat, rounds: seq<seq<Call>>, i: nat, start: int, end: int)
    requires WellFormed(models, rounds) && i < models && FailsWithin(models, rounds, i, start, end)
    requires start <= end
    ensures var (c, calls) := (Circuits(cfg, models, rounds)[i], CallCount(cfg, models, rounds, i));
      && FailingCircuit(cfg, c, calls, start)
      && (calls <= Threshold(cfg) || start + Span(calls - Threshold(cfg), cfg.timeout) <= end)
  {
    var n := |rounds| - 1;
    if n >= 0 {
      var (before, round) := (rounds[..n], rounds[n]);
      FailingRuns(cfg, models, before, i, start, end);
      var circuits, calls := Circuits(cfg, models, before), CallCount(cfg, models, before, i);
      RoundStep(cfg, models, rounds, i);
      FailingTurn(cfg, circuits[i], round[i], calls, start);
    }
  }

  // What one more round does to the circuit of a failing model.
  lemma RoundStep(cfg: Config, models: nat, rounds: seq<seq<Call>>, i: nat)
    requires WellFormed(models, rounds) && i < models && rounds != [] && rounds[|rounds| - 1][i].reply.Error?
    ensures
      var n := |rounds| - 1;
      var circuits, calls := Circuits(cfg, models, rounds[..n]), CallCount(cfg, models, rounds[..n], i);
      if Calls(cfg, circuits, rounds[n], i)
      then Turn(cfg, circuits[i], rounds[n][i]) == (Circuits(cfg, models, rounds)[i], true)
           && CallCount(cfg, models, rounds, i) == calls + 1
      else Circuits(cfg, models, rounds)[i] == circuits[i] && CallCount(cfg, models, rounds, i) == calls
  {
    var n := |rounds| - 1;
    CallReached(cfg, Circuits(cfg, models, rounds[..n]), rounds[n], i);
  }

  // How many timeouts fit into a period.
  function Periods(period: int, timeout: int): int
    requires timeout > 0
  {
    period / timeout
  }

  lemma FloorBound(extra: int, timeout: int, period: int)
    requires timeout > 0 && period >= 0 && (extra <= 0 || Span(extra, timeout) <= period)
    ensures extra <= Periods(period, timeout)
  {
    var most := Periods(period, timeout);
    SpanStep(most, timeout);
    if extra > most {
      SpanMonotone(most + 1, extra, timeout);
    }
  }

  // A model that fails every time is called at most FailureThreshold times, and once more for
  // every full timeout the run lasts, however many requests are made meanwhile.
  lemma FailingModelIsSpared(cfg: Config, models: nat, rounds: seq<seq<Call>>, i: nat, start: int, end: int)
    requires WellFormed(models, rounds) && i < models && FailsWithin(models, rounds, i, start, end)
    requires start <= end && cfg.timeout > 0
    ensures CallCount(cfg, models, rounds, i) <= Threshold(cfg) + Periods(end - start, cfg.timeout)
  {
    FailingRuns(cfg, models, rounds, i, start, end);
    FloorBound(CallCount(cfg, models, rounds, i) - Threshold(cfg), cfg.timeout, end - start);
  }

  // ----- the bound is reached -----

  // One model, asked and failing at once: as often as opens its circuit at the start, then once per timeout.
  function WorstRound(cfg: Config, start: int, k: nat): seq<Call> {
    var at := start + Span(MaxInt(0, k + 1 - Threshold(cfg)), cfg.timeout);
    [Call(at, at, Error(true))]
  }

  function WorstRun(cfg: Config, start: int, rounds: nat): seq<seq<Call>> {
    seq(rounds, k requires 0 <= k < rounds => WorstRound(cfg, start, k))
  }

  lemma BoundIsReached(cfg: Config, start: int, extra: nat)
    requires cfg.timeout > 0
    ensures var rounds: seq<seq<Call>> := WorstRun(cfg, start, Threshold(cfg) + extra);
      && WellFormed(1, rounds)
      && KeepsFailing(1, rounds, 0, start, start + Span(extra, cfg.timeout))
      && CallCount(cfg, 1, rounds, 0) == Threshold(cfg) + extra
  {
    var rounds: seq<seq<Call>> := WorstRun(cfg, start, Threshold(cfg) + extra);
    forall q, r | 0 <= q <= r < |rounds|
      ensures rounds[q][0].done <= rounds[r][0].asked
    {
      SpanMonotone(MaxInt(0, q + 1 - Threshold(cfg)), MaxInt(0, r + 1 - Threshold(cfg)), cfg.timeout);
    }
    forall r | 0 <= r < |rounds|
      ensures start <= rounds[r][0].asked <= start + Span(extra, cfg.timeout)
    {
      SpanStep(0, cfg.timeout);
      SpanMonotone(0, MaxInt(0, r + 1 - Threshold(cfg)), cfg.timeout);
      SpanMonotone(MaxInt(0, r + 1 - Threshold(cfg)), extra, cfg.timeout);
    }
    WorstRunCalls(cfg, start, |rounds|);
  }

  lemma {:induction false} WorstRunCalls(cfg: Config, start: int, rounds: nat)
    requires cfg.timeout > 0
    ensures var run := WorstRun(cfg, start, rounds);
      && WellFormed(1, run) && CallCount(cfg, 1, run, 0) == rounds
      && var c := Circuits(cfg, 1, run)[0];
        if rounds < Threshold(cfg) then c.state == Closed && c.consecutiveFails == rounds
        else c.state == Opened && c.openedAt == start + Span(rounds - Threshold(cfg), cfg.timeout)
  {
    if rounds > 0 {
      var run, n := WorstRun(cfg, start, rounds), rounds - 1;
      WorstRunCalls(cfg, start, n);
      assert run[..n] == WorstRun(cfg, start, n);
      SpanStep(n - Threshold(cfg), cfg.timeout);
      var circuits := Circuits(cfg, 1, run[..n]);
      FirstWillingModelAnswers(cfg, circuits, run[n], 0);
    }
  }

  // ----- the objects -----

  class CircuitBreaker {
    const config: Config
    const models: array<Circuit>

    constructor (numModels: nat, config: Config)
      ensures fresh(models) && models.Length == numModels && this.config == config
      ensures models[..] == seq(numModels, _ => FRESH)
    {
      this.config := config;
      models := new Circuit[numModels](_ => FRESH);
    }

    // A model that does not exist is never admitted.
    method IsOpen(i: int, now: int) returns (open: bool)
      modifies models
      ensures 0 <= i < models.Length ==>
        var (c, admitted) := Probe(config, old(models[i]), now);
        models[..] == old(models[..])[i := c] && open == !admitted
      ensures !(0 <= i < models.Length) ==> open && models[..] == old(models[..])
    {
      if i < 0 || i >= models.Length {
        return true;
      }
      match models[i].state {
        case Opened =>
          if now - models[i].openedAt >= config.timeout {
            models[i] := models[i].(state := HalfOpen);
            open := false;
          } else {
            open := true;
          }
        case HalfOpen => open := false;
        case Closed => open := false;
      }
    }

    method RecordSuccess(i: int, now: int)
      modifies models
      ensures models[..] == if 0 <= i < models.Length
        then old(models[..])[i := Succeed(config, old(models[i]), now)] else old(models[..])
    {
      if i < 0 || i >= models.Length {
        return;
      }
      models[i] := models[i].(consecutiveSuccesses := models[i].consecutiveSuccesses + 1, consecutiveFails := 0,
                              lastSuccess := Some(now));
      if models[i].state == HalfOpen && models[i].consecutiveSuccesses >= config.successThreshold {
        models[i] := models[i].(state := Closed, consecutiveSuccesses := 0);
      }
    }

    method RecordFailure(i: int, now: int)
      modifies models
      ensures models[..] == if 0 <= i < models.Length
        then old(models[..])[i := Fail(config, old(models[i]), now)] else old(models[..])
    {
      if i < 0 || i >= models.Length {
        return;
      }
      var c := models[i];
      c := c.(consecutiveFails := c.consecutiveFails + 1, consecutiveSuccesses := 0, lastFailure := Some(now));
      var failures := c.failures + [now];
      var validFailures := KeepAfter(failures, now - config.timeWindow);
      c := c.(failures := validFailures);
      match c.state {
        case Closed =>
          if c.consecutiveFails >= config.failureThreshold {
            c := c.(state := Opened, openedAt := now);
          }
        case HalfOpen => c := c.(state := Opened, openedAt := now);
        case Opened =>
      }
      models[i] := c;
    }

    method Reset(i: int)
      modifies models
      ensures models[..] == if 0 <= i < models.Length
        then old(models[..])[i := Breaker.Reset(old(models[i]))] else old(models[..])
    {
      if 0 <= i < models.Length {
        models[i] := models[i].(state := Closed, consecutiveFails := 0, consecutiveSuccesses := 0, failures := []);
      }
    }
  }

  class FallbackClient {
    const breaker: CircuitBreaker

    constructor (numModels: nat, config: Config)
      ensures fresh(breaker) && fresh(breaker.models) && breaker.models.Length == numModels
      ensures breaker.models[..] == seq(numModels, _ => FRESH)
      ensures breaker.config ==
        if config.failureThreshold == 0 then Config(5, 2, 60_000_000_000, 300_000_000_000) else config
    {
      breaker := new CircuitBreaker(numModels, if config.failureThreshold == 0 then DEFAULT_CONFIG else config);
    }

    // Makes the request with what will happen at each model; `winner` is the model that answers.
    method Complete(calls: seq<Call>) returns (winner: Option<nat>)
      requires |calls| == breaker.models.Length
      modifies breaker.models
      ensures (breaker.models[..], winner) == CompleteFrom(breaker.config, old(breaker.models[..]), calls, 0)
    {
      for i := 0 to |calls|
        invariant CompleteFrom(breaker.config, breaker.models[..], calls, i)
          == CompleteFrom(breaker.config, old(breaker.models[..]), calls, 0)
      {
        ghost var before := breaker.models[..];
        var open := breaker.IsOpen(i, calls[i].asked);
        if open {
          assert before[i := breaker.models[i]] == breaker.models[..];
          continue;
        }
        if calls[i].reply.Answer? {
          breaker.RecordSuccess(i, calls[i].done);
          assert before[i := breaker.models[i]] == breaker.models[..];
          return Some(i);
        }
        breaker.RecordFailure(i, calls[i].done);
        assert before[i := breaker.models[i]] == breaker.models[..];
      }
      winner := None;
    }
  }

  const DEFAULT_CONFIG := Config(5, 2, 60_000_000_000, 300_000_000_000)
}
