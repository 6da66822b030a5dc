/** Which models a request is refused by: decided by the calls that were made before, and nothing else. */
module FallbackHistory {
  import opened Arithmetic
  import opened Options
  import opened Breaker
  import opened Fallback

  // ----- the calls of one model -----

  // A call that was made: when it ended, and whether it succeeded.
  datatype Outcome = Outcome(done: int, ok: bool)

  // How many of the last calls failed, and how many succeeded.
  function Fails(log: seq<Outcome>): nat {
    if log == [] || log[|log| - 1].ok then 0 else Fails(log[..|log| - 1]) + 1
  }

  function Successes(log: seq<Outcome>): nat {
    if log == [] || !log[|log| - 1].ok then 0 else Successes(log[..|log| - 1]) + 1
  }

  // The model is under suspicion: FailureThreshold calls in a row have failed, and since the last
  // failure fewer than SuccessThreshold have succeeded.
  predicate Suspect(cfg: Config, log: seq<Outcome>) {
    && log != []
    && if log[|log| - 1].ok
       then Suspect(cfg, log[..|log| - 1]) && Successes(log) < cfg.successThreshold
       else Suspect(cfg, log[..|log| - 1]) || Fails(log) >= cfg.failureThreshold
  }

  // And its last call failed, less than a timeout ago.
  predicate Blocked(cfg: Config, log: seq<Outcome>, now: int) {
    Suspect(cfg, log) && !log[|log| - 1].ok && now < log[|log| - 1].done + cfg.timeout
  }

  // The circuit shows what the calls say.
  predicate Shows(cfg: Config, c: Circuit, log: seq<Outcome>) {
    && c.consecutiveFails == Fails(log)
    && (Suspect(cfg, log) ==> c.consecutiveSuccesses == Successes(log))
    && if !Suspect(cfg, log) then c.state == Closed
       else if log[|log| - 1].ok then c.state == HalfOpen
       else c.state == Opened && c.openedAt == log[|log| - 1].done
  }

  function OutcomeOf(call: Call): Outcome {
    Outcome(call.done, call.reply.Answer?)
  }

  // A turn calls the model unless it is blocked, and the circuit shows the call.
  lemma TurnShows(cfg: Config, c: Circuit, log: seq<Outcome>, call: Call)
    requires Shows(cfg, c, log)
    ensures
      var (c1, called) := Turn(cfg, c, call);
      && (called <==> !Blocked(cfg, log, call.asked))
      && if called then Shows(cfg, c1, log + [OutcomeOf(call)]) else c1 == c
  {
    assert (log + [OutcomeOf(call)])[..|log|] == log;
  }

  // ----- runs -----

  // The request gets as far as asking for model `i`.
  predicate Reaches(cfg: Config, circuits: seq<Circuit>, round: seq<Call>, i: nat)
    requires |round| == |circuits| && i < |round|
  {
    var winner := CompleteFrom(cfg, circuits, round, 0).1;
    winner.Some? ==> i <= winner.value
  }

  // The calls made to model `i`.
  function CallLog(cfg: Config, models: nat, rounds: seq<seq<Call>>, i: nat): seq<Outcome>
    requires WellFormed(models, rounds) && i < models
  {
    if rounds == [] then []
    else
      var n := |rounds| - 1;
      var log, circuits := CallLog(cfg, models, rounds[..n], i), Circuits(cfg, models, rounds[..n]);
      if Calls(cfg, circuits, rounds[n], i) then log + [OutcomeOf(rounds[n][i])] else log
  }

  lemma {:induction false} CircuitsShowCalls(cfg: Config, models: nat, rounds: seq<seq<Call>>, i: nat)
    requires WellFormed(models, rounds) && i < models
    ensures Shows(cfg, Circuits(cfg, models, rounds)[i], CallLog(cfg, models, rounds, i))
  {
    var n := |rounds| - 1;
    if n >= 0 {
      CircuitsShowCalls(cfg, models, rounds[..n], i);
      var circuits := Circuits(cfg, models, rounds[..n]);
      FirstWillingModelAnswers(cfg, circuits, rounds[n], 0);
      TurnShows(cfg, circuits[i], CallLog(cfg, models, rounds[..n], i), rounds[n][i]);
    }
  }

  // A model is refused exactly when it is blocked: its last call failed less than a timeout ago,
  // and it is under suspicion.
  lemma RefusedIfBlocked(cfg: Config, models: nat, rounds: seq<seq<Call>>, round: seq<Call>, i: nat)
    requires WellFormed(models, rounds) && |round| == models && i < models
    ensures Admitted(cfg, Circuits(cfg, models, rounds), round, i) <==>
      !Blocked(cfg, CallLog(cfg, models, rounds, i), round[i].asked)
  {
    CircuitsShowCalls(cfg, models, rounds, i);
    TurnShows(cfg, Circuits(cfg, models, rounds)[i], CallLog(cfg, models, rounds, i), round[i]);
  }

  // A model would answer the next request.
  predicate Willing(cfg: Config, models: nat, rounds: seq<seq<Call>>, round: seq<Call>, i: nat)
    requires WellFormed(models, rounds) && |round| == models && i < models
  {
    round[i].reply.Answer? && !Blocked(cfg, CallLog(cfg, models, rounds, i), round[i].asked)
  }

  // After any requests the next one is answered by the first model, in order of preference, that
  // is not blocked and succeeds, and by none if there is no such model.
  lemma FirstUnblockedModelAnswers(cfg: Config, models: nat, rounds: seq<seq<Call>>, round: seq<Call>)
    requires WellFormed(models, rounds) && |round| == models
    ensures
      var winner := CompleteFrom(cfg, Circuits(cfg, models, rounds), round, 0).1;
      && (winner.Some? ==> winner.value < models && Willing(cfg, models, rounds, round, winner.value))
      && (forall i :: 0 <= i < models && (winner.Some? ==> i < winner.value) ==>
            !Willing(cfg, models, rounds, round, i))
  {
    FirstWillingModelAnswers(cfg, Circuits(cfg, models, rounds), round, 0);
    forall i | 0 <= i < models
      ensures Willing(cfg, models, rounds, round, i) <==> Answers(cfg, Circuits(cfg, models, rounds), round, i)
    {
      RefusedIfBlocked(cfg, models, rounds, round, i);
    }
  }

  // ----- recovery -----

  predicate AllOk(log: seq<Outcome>) {
    forall k :: 0 <= k < |log| ==> log[k].ok
  }

  lemma {:induction false} SuccessesAddUp(log: seq<Outcome>, more: seq<Outcome>)
    requires AllOk(more)
    ensures Successes(log + more) == Successes(log) + |more|
  {
    if more == [] {
      assert log + more == log;
    } else {
      var n := |more| - 1;
      assert (log + more)[..|log + more| - 1] == log + more[..n];
      SuccessesAddUp(log, more[..n]);
    }
  }

  // SuccessThreshold successes clear a model, whatever came before.
  lemma SuccessesClear(cfg: Config, log: seq<Outcome>, more: seq<Outcome>)
    requires AllOk(more) && |more| >= 1 && |more| >= cfg.successThreshold
    ensures !Suspect(cfg, log + more)
  {
    SuccessesAddUp(log, more);
    assert (log + more)[|log + more| - 1] == more[|more| - 1];
  }

  // How many of the later requests get as far as asking for model `i`.
  function ReachCount(cfg: Config, models: nat, before: seq<seq<Call>>, later: seq<seq<Call>>, i: nat): nat
    requires WellFormed(models, before) && WellFormed(models, later) && i < models
  {
    if later == [] then 0
    else
      var n := |later| - 1;
      ReachCount(cfg, models, before, later[..n], i)
      + if Reaches(cfg, Circuits(cfg, models, before + later[..n]), later[n], i) then 1 else 0
  }

  // From now on the model succeeds when it is called, and its timeout is over.
  ghost predicate HasRecovered(cfg: Config, models: nat, before: seq<seq<Call>>, later: seq<seq<Call>>, i: nat)
    requires WellFormed(models, before) && WellFormed(models, later) && i < models
  {
    var log := CallLog(cfg, models, before, i);
    forall r :: 0 <= r < |later| ==>
      later[r][i].reply.Answer?
      && (log != [] && !log[|log| - 1].ok ==> later[r][i].asked >= log[|log| - 1].done + cfg.timeout)
  }

  lemma {:induction false} RecoveredCalls(cfg: Config, models: nat, before: seq<seq<Call>>, later: seq<seq<Call>>,
                                          i: nat) returns (more: seq<Outcome>)
    requires WellFormed(models, before) && WellFormed(models, later) && i < models
    requires HasRecovered(cfg, models, before, later, i)
    ensures AllOk(more) && |more| == ReachCount(cfg, models, before, later, i)
    ensures CallLog(cfg, models, before + later, i) == CallLog(cfg, models, before, i) + more
  {
    var n := |later| - 1;
    if n < 0 {
      assert before + later == before;
      more := [];
    } else {
      more := RecoveredCalls(cfg, models, before, later[..n], i);
      var rounds := before + later[..n];
      assert (before + later)[..|before + later| - 1] == rounds && (before + later)[|before + later| - 1] == later[n];
      RefusedIfBlocked(cfg, models, rounds, later[n], i);
      var log := CallLog(cfg, models, before, i);
      NotBlockedAfter(cfg, log, more, later[n][i].asked);
      if Calls(cfg, Circuits(cfg, models, rounds), later[n], i) {
        var last := OutcomeOf(later[n][i]);
        AppendOne(log, more, last);
        more := more + [last];
      }
    }
  }

  lemma AppendOne<T>(s: seq<T>, t: seq<T>, x: T)
    ensures s + t + [x] == s + (t + [x])
  {}

  // Successes block nobody, and a failure no longer than a timeout.
  lemma NotBlockedAfter(cfg: Config, log: seq<Outcome>, more: seq<Outcome>, now: int)
    requires AllOk(more) && (log != [] && !log[|log| - 1].ok ==> now >= log[|log| - 1].done + cfg.timeout)
    ensures !Blocked(cfg, log + more, now)
  {
    if more == [] {
      assert log + more == log;
    } else {
      assert (log + more)[|log + more| - 1] == more[|more| - 1];
    }
  }

  // A model that succeeds from some request on, its timeout over, is called by every request that
  // reaches it, and after SuccessThreshold of them (at least one) its circuit is closed.
  lemma RecoveredModelIsCalled(cfg: Config, models: nat, before: seq<seq<Call>>, later: seq<seq<Call>>,
                               round: seq<Call>, i: nat)
    requires WellFormed(models, before) && WellFormed(models, later) && |round| == models && i < models
    requires HasRecovered(cfg, models, before, later + [round], i)
    ensures Calls(cfg, Circuits(cfg, models, before + later), round, i) <==>
      Reaches(cfg, Circuits(cfg, models, before + later), round, i)
    ensures
      var reached := ReachCount(cfg, models, before, later, i);
      reached >= 1 && reached >= cfg.successThreshold ==>
        Circuits(cfg, models, before + later)[i].state == Closed
  {
    assert forall r :: 0 <= r < |later| ==> later[r] == (later + [round])[r];
    assert (later + [round])[|later|] == round;
    var log := CallLog(cfg, models, before, i);
    var more := RecoveredCalls(cfg, models, before, later, i);
    RefusedIfBlocked(cfg, models, before + later, round, i);
    NotBlockedAfter(cfg, log, more, round[i].asked);
    CircuitsShowCalls(cfg, models, before + later, i);
    if |more| >= 1 && |more| >= cfg.successThreshold {
      SuccessesClear(cfg, log, more);
    }
  }

  // ----- the steps of the circuits -----

  // What a turn does to the circuit: a probe, and the record of the call if there is one.
  function OpsOfTurn(cfg: Config, c: Circuit, call: Call): seq<Op> {
    if !Probe(cfg, c, call.asked).1 then [DoProbe(call.asked)]
    else [DoProbe(call.asked), if call.reply.Answer? then DoSucceed(call.done) else DoFail(call.done)]
  }

  function OpsOf(cfg: Config, models: nat, rounds: seq<seq<Call>>, i: nat): seq<Op>
    requires WellFormed(models, rounds) && i < models
  {
    if rounds == [] then []
    else
      var n := |rounds| - 1;
      var circuits := Circuits(cfg, models, rounds[..n]);
      OpsOf(cfg, models, rounds[..n], i)
      + if Reaches(cfg, circuits, rounds[n], i) then OpsOfTurn(cfg, circuits[i], rounds[n][i]) else []
  }

  lemma RunOneMore(cfg: Config, ops: seq<Op>, op: Op)
    ensures Breaker.Run(cfg, ops + [op]) == Step(cfg, Breaker.Run(cfg, ops), op)
  {
    assert (ops + [op])[..|ops|] == ops;
  }

  lemma RunTwoMore(cfg: Config, ops: seq<Op>, first: Op, second: Op)
    ensures Breaker.Run(cfg, ops + [first, second]) == Step(cfg, Step(cfg, Breaker.Run(cfg, ops), first), second)
  {
    RunOneMore(cfg, ops, first);
    RunOneMore(cfg, ops + [first], second);
    AppendTwo(ops, first, second);
  }

  lemma AppendTwo<T>(s: seq<T>, x: T, y: T)
    ensures s + [x, y] == s + [x] + [y]
  {}

  lemma TurnIsOps(cfg: Config, ops: seq<Op>, call: Call)
    ensures var c := Breaker.Run(cfg, ops);
      Breaker.Run(cfg, ops + OpsOfTurn(cfg, c, call)) == Turn(cfg, c, call).0
  {
    if Probe(cfg, Breaker.Run(cfg, ops), call.asked).1 {
      RunTwoMore(cfg, ops, DoProbe(call.asked), if call.reply.Answer? then DoSucceed(call.done) else DoFail(call.done));
    } else {
      RunOneMore(cfg, ops, DoProbe(call.asked));
    }
  }

  // The circuits of the client are those of the breaker's histories, made of the probes, successes
  // and failures of the turns, so that all that is proved of the histories holds of them.
  lemma {:induction false} CircuitsHaveHistories(cfg: Config, models: nat, rounds: seq<seq<Call>>, i: nat)
    requires WellFormed(models, rounds) && i < models
    ensures Circuits(cfg, models, rounds)[i] == Breaker.Run(cfg, OpsOf(cfg, models, rounds, i))
  {
    var n := |rounds| - 1;
    if n >= 0 {
      CircuitsHaveHistories(cfg, models, rounds[..n], i);
      var circuits, ops := Circuits(cfg, models, rounds[..n]), OpsOf(cfg, models, rounds[..n], i);
      FirstWillingModelAnswers(cfg, circuits, rounds[n], 0);
      if Reaches(cfg, circuits, rounds[n], i) {
        TurnIsOps(cfg, ops, rounds[n][i]);
      } else {
        assert ops + [] == ops;
      }
    }
  }
}
