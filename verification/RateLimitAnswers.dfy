/** What the answers of the rate limiter tell a caller: what is left, and until when. */
module RateLimitAnswers {
  import opened SlidingWindow
  import opened RateLimiter

  // ----- one answer -----

  // In every run that no late deletion harms, an answer is about the requests of the IP that were
  // let through in the last window: whether there is room for one more, how much is left then,
  // and when the oldest of them, this one included, leaves the window.
  lemma AnswerIsExact(cfg: Config, run: seq<Event>, ip: string, now: int)
    requires Ordered(run) && UpTo(run, now) && Harmless(cfg, run)
    ensures
      var counted := Between(LetThrough(cfg, run, ip), now - cfg.window, now);
      var answer := Answer(cfg, run, ip, now);
      && answer.limit == cfg.maxRequests
      && (answer.allowed <==> |counted| < cfg.maxRequests)
      && answer.remaining == (if |counted| < cfg.maxRequests then cfg.maxRequests - |counted| - 1 else 0)
      && if counted == [] then answer.resetAt == now + cfg.window
         else answer.resetAt - cfg.window in counted && forall c :: c in counted ==> answer.resetAt <= c + cfg.window
  {
    var log := FullLog(cfg, run, ip);
    LetThroughIsFullLog(cfg, run, ip);
    RefinesFullLog(cfg, run, ip, now);
    FullLogUpTo(cfg, run, ip, now);
    BetweenIsAfter(log, now - cfg.window, now - cfg.window, now);
    OldestIfAny(After(log, now - cfg.window));
  }

  lemma OldestIfAny(times: seq<int>)
    ensures times != [] ==> Oldest(times) in times && forall t :: t in times ==> Oldest(times) <= t
  {
    if times != [] {
      OldestOfIsLeast(times, |times|);
    }
  }

  // ----- until ResetAt -----

  // The log after an admitted check at `t`.
  predicate Admits(cfg: Config, log: seq<int>, t: int) {
    |After(log, t - cfg.window)| < cfg.maxRequests && forall i :: 0 <= i < |log| ==> log[i] <= t
  }

  lemma OldestWithLast(times: seq<int>, t: int)
    requires forall i :: 0 <= i < |times| ==> times[i] <= t
    ensures Oldest(times + [t]) == if times == [] then t else Oldest(times)
  {
    if times != [] {
      SameOldest(times + [t], times, |times|);
      OldestOfIsLeast(times, |times|);
    }
  }

  // What counts of the log and the request admitted at `t` counts until ResetAt; then less does.
  lemma CountsUntilReset(cfg: Config, log: seq<int>, t: int, now: int)
    requires Admits(cfg, log, t) && t <= now && cfg.window > 0
    ensures
      var resetAt, longer := Decide(cfg, log, t).resetAt, log + [t];
      && |After(longer, t - cfg.window)| == |After(log, t - cfg.window)| + 1
      && (now < resetAt ==> After(longer, now - cfg.window) == After(longer, t - cfg.window))
      && (now >= resetAt ==> |After(longer, now - cfg.window)| < |After(longer, t - cfg.window)|)
  {
    var valid := After(log, t - cfg.window);
    AfterAppend(log, t, t - cfg.window);
    AfterElements(log, t - cfg.window);
    forall i | 0 <= i < |valid|
      ensures valid[i] <= t
    {
      assert valid[i] in valid;
    }
    OldestWithLast(valid, t);
    WindowMoves(log + [t], t - cfg.window, now - cfg.window);
  }

  // ----- what remains -----

  // How many of the events are checks of `ip`.
  function ChecksOf(events: seq<Event>, ip: string): nat {
    if events == [] then 0
    else
      var last := events[|events| - 1];
      ChecksOf(events[..|events| - 1], ip) + if last.DoCheck? && last.ip == ip then 1 else 0
  }

  function Min(x: nat, y: nat): nat {
    if x < y then x else y
  }

  // Requests added between `t` and `now` all count at `now` if the window is not over.
  lemma {:induction false} AddedCount(log: seq<int>, added: seq<int>, cutoff: int)
    requires forall i :: 0 <= i < |added| ==> added[i] > cutoff
    ensures |After(log + added, cutoff)| == |After(log, cutoff)| + |added|
  {
    if added == [] {
      assert log + added == log;
    } else {
      var n := |added| - 1;
      assert log + added == log + added[..n] + [added[n]];
      AfterAppend(log + added[..n], added[n], cutoff);
      AddedCount(log, added[..n], cutoff);
    }
  }

  // While nothing leaves the window, each check adds a request as long as there is room.
  lemma StepUntilReset(cfg: Config, log: seq<int>, t: int, added: seq<int>, ip: string, event: Event)
    requires Admits(cfg, log, t) && cfg.window > 0 && t <= event.at
    requires event.DoCheck? && event.ip == ip ==> event.at < Decide(cfg, log, t).resetAt
    requires forall i :: 0 <= i < |added| ==> t <= added[i]
    ensures LogAfter(cfg, log + [t] + added, ip, event) ==
      if event.DoCheck? && event.ip == ip && |added| < Decide(cfg, log, t).remaining then log + [t] + added + [event.at]
      else log + [t] + added
  {
    if event.DoCheck? && event.ip == ip {
      CountsUntilReset(cfg, log, t, event.at);
      ResetWithinWindow(cfg, log, t);
      AddedCount(log + [t], added, event.at - cfg.window);
    }
  }

  lemma ResetWithinWindow(cfg: Config, log: seq<int>, t: int)
    requires Admits(cfg, log, t)
    ensures Decide(cfg, log, t).resetAt <= t + cfg.window
    ensures Decide(cfg, log, t).remaining == cfg.maxRequests - |After(log, t - cfg.window)| - 1
  {
    var valid := After(log, t - cfg.window);
    AfterElements(log, t - cfg.window);
    OldestIfAny(valid);
  }

  lemma {:induction false} AddedUntilReset(cfg: Config, before: seq<Event>, ip: string, t: int, events: seq<Event>)
    returns (added: seq<int>)
    requires Admits(cfg, FullLog(cfg, before, ip), t) && cfg.window > 0
    requires ChecksBefore(events, ip, Decide(cfg, FullLog(cfg, before, ip), t).resetAt)
    requires forall i :: 0 <= i < |events| ==> t <= events[i].at
    ensures forall i :: 0 <= i < |added| ==> t <= added[i]
    ensures |added| == Min(ChecksOf(events, ip), Decide(cfg, FullLog(cfg, before, ip), t).remaining)
    ensures FullLog(cfg, before + [DoCheck(ip, t)] + events, ip) == FullLog(cfg, before, ip) + [t] + added
  {
    var log, checked := FullLog(cfg, before, ip), before + [DoCheck(ip, t)];
    var n := |events| - 1;
    if n < 0 {
      OneMoreEvent(cfg, before, ip, DoCheck(ip, t));
      assert checked + events == checked && log + [t] + [] == log + [t];
      added := [];
    } else {
      var some := AddedUntilReset(cfg, before, ip, t, events[..n]);
      assert checked + events == checked + events[..n] + [events[n]];
      OneMoreEvent(cfg, checked + events[..n], ip, events[n]);
      added := AddedByOne(cfg, log, t, some, ip, events[n]);
    }
  }

  lemma AddedByOne(cfg: Config, log: seq<int>, t: int, some: seq<int>, ip: string, event: Event)
    returns (added: seq<int>)
    requires Admits(cfg, log, t) && cfg.window > 0 && t <= event.at
    requires event.DoCheck? && event.ip == ip ==> event.at < Decide(cfg, log, t).resetAt
    requires |some| <= Decide(cfg, log, t).remaining && forall i :: 0 <= i < |some| ==> t <= some[i]
    ensures forall i :: 0 <= i < |added| ==> t <= added[i]
    ensures LogAfter(cfg, log + [t] + some, ip, event) == log + [t] + added
    ensures |added| == Min(|some| + if event.DoCheck? && event.ip == ip then 1 else 0, Decide(cfg, log, t).remaining)
  {
    StepUntilReset(cfg, log, t, some, ip, event);
    var room := |some| < Decide(cfg, log, t).remaining;
    added := AddIf(log + [t], some, event.at, event.DoCheck? && event.ip == ip && room);
  }

  lemma OneMoreEvent(cfg: Config, run: seq<Event>, ip: string, event: Event)
    ensures FullLog(cfg, run + [event], ip) == LogAfter(cfg, FullLog(cfg, run, ip), ip, event)
  {
    assert (run + [event])[..|run|] == run;
  }

  lemma AddIf(log: seq<int>, some: seq<int>, at: int, more: bool) returns (added: seq<int>)
    ensures added == if more then some + [at] else some
    ensures log + added == if more then log + some + [at] else log + some
  {
    added := if more then some + [at] else some;
    assert log + (some + [at]) == log + some + [at];
  }

  // What remains is exact. When a check of `ip` at `t` is admitted, the next `remaining` checks of
  // it that come before the time given are admitted and the ones after those, still before that
  // time, are refused, whatever checks of other IPs and cleanups happen meanwhile.
  lemma RemainingIsExact(cfg: Config, before: seq<Event>, ip: string, t: int, events: seq<Event>, now: int)
    requires Ordered(before + [DoCheck(ip, t)] + events + [DoCheck(ip, now)])
    requires Harmless(cfg, before + [DoCheck(ip, t)] + events)
    requires Answer(cfg, before, ip, t).allowed
    requires ChecksBefore(events, ip, Answer(cfg, before, ip, t).resetAt) && now < Answer(cfg, before, ip, t).resetAt
    ensures Answer(cfg, before + [DoCheck(ip, t)] + events, ip, now).allowed <==>
      ChecksOf(events, ip) < Answer(cfg, before, ip, t).remaining
  {
    var all, log := before + [DoCheck(ip, t)] + events, FullLog(cfg, before, ip);
    RunParts(cfg, before, ip, t, events, now);
    RefinesFullLog(cfg, before, ip, t);
    FullLogUpTo(cfg, before, ip, t);
    ResetWithinWindow(cfg, log, t);
    var added := AddedUntilReset(cfg, before, ip, t, events);
    RefinesFullLog(cfg, all, ip, now);
    RoomUntilReset(cfg, log, t, added, now);
  }

  lemma RoomUntilReset(cfg: Config, log: seq<int>, t: int, added: seq<int>, now: int)
    requires Admits(cfg, log, t) && cfg.window > 0 && t <= now < Decide(cfg, log, t).resetAt
    requires forall i :: 0 <= i < |added| ==> t <= added[i]
    ensures Decide(cfg, log + [t] + added, now).allowed <==> |added| < Decide(cfg, log, t).remaining
  {
    CountsUntilReset(cfg, log, t, now);
    ResetWithinWindow(cfg, log, t);
    AddedCount(log + [t], added, now - cfg.window);
  }

  lemma RunParts(cfg: Config, before: seq<Event>, ip: string, t: int, events: seq<Event>, now: int)
    requires Ordered(before + [DoCheck(ip, t)] + events + [DoCheck(ip, now)])
    requires Harmless(cfg, before + [DoCheck(ip, t)] + events)
    ensures Ordered(before) && UpTo(before, t) && Harmless(cfg, before) && t <= now
    ensures Ordered(before + [DoCheck(ip, t)] + events) && UpTo(before + [DoCheck(ip, t)] + events, now)
    ensures forall i :: 0 <= i < |events| ==> t <= events[i].at
  {
    var run := [DoCheck(ip, t)] + events;
    assert before + run == before + [DoCheck(ip, t)] + events;
    PartsOrdered(before, run, DoCheck(ip, now));
    PartHarmless(cfg, before, run);
    forall i | 0 <= i < |events|
      ensures t <= events[i].at
    {
      assert run[i + 1] == events[i];
    }
    assert run[0].at <= run[0].at <= now;
  }

  lemma PartHarmless(cfg: Config, before: seq<Event>, run: seq<Event>)
    requires Harmless(cfg, before + run)
    ensures Harmless(cfg, before)
  {
    HarmlessPrefix(cfg, before + run, |before|);
    assert (before + run)[..|before|] == before;
  }

  // And then ResetAt is when this changes: before it everything that counted at `t` still counts,
  // from then on less does.
  lemma ResetAtAfterAdmission(cfg: Config, before: seq<Event>, ip: string, t: int, now: int)
    requires Ordered(before) && UpTo(before, t) && Harmless(cfg, before) && cfg.window > 0 && t <= now
    requires Answer(cfg, before, ip, t).allowed
    ensures
      var log, resetAt := LetThrough(cfg, before + [DoCheck(ip, t)], ip), Answer(cfg, before, ip, t).resetAt;
      && t < resetAt <= t + cfg.window
      && (now < resetAt ==> After(log, now - cfg.window) == After(log, t - cfg.window))
      && (now >= resetAt ==> |After(log, now - cfg.window)| < |After(log, t - cfg.window)|)
  {
    var log := FullLog(cfg, before, ip);
    OneMoreLetThrough(cfg, before, ip, t);
    RefinesFullLog(cfg, before, ip, t);
    FullLogUpTo(cfg, before, ip, t);
    AdmittedIsAdmits(cfg, log, t);
    CountsUntilReset(cfg, log, t, now);
    ResetAhead(cfg, log, t);
  }

  lemma OneMoreLetThrough(cfg: Config, before: seq<Event>, ip: string, t: int)
    requires Ordered(before) && Harmless(cfg, before) && Answer(cfg, before, ip, t).allowed
    ensures LetThrough(cfg, before + [DoCheck(ip, t)], ip) == FullLog(cfg, before, ip) + [t]
  {
    assert (before + [DoCheck(ip, t)])[..|before|] == before;
    LetThroughIsFullLog(cfg, before, ip);
  }

  lemma AdmittedIsAdmits(cfg: Config, log: seq<int>, t: int)
    requires Decide(cfg, log, t).allowed && forall i :: 0 <= i < |log| ==> log[i] <= t
    ensures Admits(cfg, log, t)
  {}

  lemma ResetAhead(cfg: Config, log: seq<int>, t: int)
    requires Admits(cfg, log, t) && cfg.window > 0
    ensures t < Decide(cfg, log, t).resetAt <= t + cfg.window
  {
    CountsUntilReset(cfg, log, t, t);
    ResetWithinWindow(cfg, log, t);
  }
}
