/** The per-IP rate limiter: pruned logs and background eviction against a full log. */
module RateLimiter {
  import opened SlidingWindow

  datatype Config = Config(maxRequests: nat, window: int)
  datatype Info = Info(allowed: bool, limit: int, remaining: int, resetAt: int)

  // The recent request times of every IP that has an entry.
  type Entries = map<string, seq<int>>

  function Requests(entries: Entries, ip: string): seq<int> {
    if ip in entries then entries[ip] else []
  }

  function Oldest(times: seq<int>): int
    requires times != []
  {
    OldestOf(times, |times|)
  }

  // The oldest of the first `n` times.
  function OldestOf(times: seq<int>, n: nat): int
    requires 0 < n <= |times|
  {
    if n == 1 then times[0]
    else
      var rest := OldestOf(times, n - 1);
      if times[n - 1] < rest then times[n - 1] else rest
  }

  lemma {:induction false} SameOldest(a: seq<int>, b: seq<int>, n: nat)
    requires 0 < n <= |a| && n <= |b| && forall i :: 0 <= i < n ==> a[i] == b[i]
    ensures OldestOf(a, n) == OldestOf(b, n)
  {
    if n > 1 {
      SameOldest(a, b, n - 1);
    }
  }

  // The answer to a check at `now`, given the requests of that IP that were let through.
  function Decide(cfg: Config, requests: seq<int>, now: int): Info {
    var valid := After(requests, now - cfg.window);
    var resetAt := if valid == [] then now + cfg.window else Oldest(valid) + cfg.window;
    if |valid| >= cfg.maxRequests then Info(false, cfg.maxRequests, 0, resetAt)
    else Info(true, cfg.maxRequests, cfg.maxRequests - |valid| - 1, resetAt)
  }

  function Checked(cfg: Config, entries: Entries, ip: string, now: int): (Entries, Info) {
    var requests := Requests(entries, ip);
    var valid, info := After(requests, now - cfg.window), Decide(cfg, requests, now);
    (entries[ip := if info.allowed then valid + [now] else valid], info)
  }

  // Drops the entries without a request in the last two windows.
  function CleanedUp(cfg: Config, entries: Entries, now: int): Entries {
    map ip | ip in entries && After(entries[ip], now - cfg.window * 2) != [] :: entries[ip]
  }

  // ----- runs -----

  // The atomic steps of a run. A cleanup that finds an entry stale gives up its lock before it
  // deletes the entry; when other steps come between the two, that is a late deletion.
  datatype Event = DoCheck(ip: string, at: int) | DoCleanup(at: int) | DoLateDelete(ip: string, at: int)

  // The clock does not go back.
  predicate Ordered(run: seq<Event>) {
    forall i, j :: 0 <= i < j < |run| ==> run[i].at <= run[j].at
  }

  // Nothing in the run is later than `now`.
  predicate UpTo(run: seq<Event>, now: int) {
    forall i :: 0 <= i < |run| ==> run[i].at <= now
  }

  lemma OrderedPrefix(run: seq<Event>, n: nat)
    requires Ordered(run) && n <= |run|
    ensures Ordered(run[..n]) && (n < |run| ==> UpTo(run[..n], run[n].at))
  {}

  // The reference limiter's log of `ip` after one event: it never forgets a request it let
  // through and never evicts.
  function LogAfter(cfg: Config, log: seq<int>, ip: string, event: Event): seq<int> {
    if event.DoCheck? && event.ip == ip && |After(log, event.at - cfg.window)| < cfg.maxRequests
    then log + [event.at]
    else log
  }

  function EntriesAfter(cfg: Config, entries: Entries, event: Event): Entries {
    match event
    case DoCheck(ip, now) => Checked(cfg, entries, ip, now).0
    case DoCleanup(now) => CleanedUp(cfg, entries, now)
    case DoLateDelete(ip, _) => entries - {ip}
  }

  function State(cfg: Config, run: seq<Event>): Entries {
    if run == [] then map[] else EntriesAfter(cfg, State(cfg, run[..|run| - 1]), run[|run| - 1])
  }

  // The answer to a check of `ip` at `now` after `run`.
  function Answer(cfg: Config, run: seq<Event>, ip: string, now: int): Info {
    Checked(cfg, State(cfg, run), ip, now).1
  }

  function FullLog(cfg: Config, run: seq<Event>, ip: string): seq<int> {
    if run == [] then [] else LogAfter(cfg, FullLog(cfg, run[..|run| - 1], ip), ip, run[|run| - 1])
  }

  lemma {:induction false} FullLogUpTo(cfg: Config, run: seq<Event>, ip: string, now: int)
    requires UpTo(run, now)
    ensures forall i :: 0 <= i < |FullLog(cfg, run, ip)| ==> FullLog(cfg, run, ip)[i] <= now
  {
    if run != [] {
      FullLogUpTo(cfg, run[..|run| - 1], ip, now);
    }
  }

  // The entry of `ip` tells as much as its full log from `cutoff` on.
  predicate Same(requests: seq<int>, log: seq<int>, cutoff: int) {
    After(requests, cutoff) == After(log, cutoff)
  }

  // If the last event is a late deletion, the entry holds no request that still counts.
  predicate HarmlessLast(cfg: Config, run: seq<Event>)
    requires run != []
  {
    var n := |run| - 1;
    run[n].DoLateDelete? ==> After(Requests(State(cfg, run[..n]), run[n].ip), run[n].at - cfg.window) == []
  }

  // No late deletion takes a request that still counts.
  predicate Harmless(cfg: Config, run: seq<Event>) {
    run != [] ==> Harmless(cfg, run[..|run| - 1]) && HarmlessLast(cfg, run)
  }

  lemma {:induction false} HarmlessPrefix(cfg: Config, run: seq<Event>, n: nat)
    requires Harmless(cfg, run) && n <= |run|
    ensures Harmless(cfg, run[..n])
  {
    if n < |run| {
      var init := run[..|run| - 1];
      HarmlessPrefix(cfg, init, n);
      assert init[..n] == run[..n];
    } else {
      assert run[..n] == run;
    }
  }

  lemma CheckKeepsSame(cfg: Config, requests: seq<int>, log: seq<int>, now: int, cutoff: int)
    requires cutoff >= now - cfg.window && Same(requests, log, now - cfg.window) && Same(requests, log, cutoff)
    ensures var early := now - cfg.window;
      && Same(After(requests, early), log, cutoff)
      && Same(After(requests, early) + [now], log + [now], cutoff)
  {
    var kept := After(requests, now - cfg.window);
    AfterTwice(requests, now - cfg.window, cutoff);
    AfterAppend(kept, now, cutoff);
    AfterAppend(log, now, cutoff);
  }

  lemma CleanupKeepsSame(cfg: Config, requests: seq<int>, log: seq<int>, now: int, cutoff: int)
    requires cutoff >= now - cfg.window && Same(requests, log, cutoff)
    requires After(requests, now - cfg.window * 2) == []
    requires forall i :: 0 <= i < |log| ==> log[i] <= now
    ensures Same([], log, cutoff)
  {
    if cfg.window >= 0 {
      AfterTwice(requests, now - cfg.window * 2, cutoff);
    } else {
      AfterNothing(log, cutoff);
    }
  }

  // What one event makes of the entry of `ip`.
  function NextRequests(cfg: Config, requests: seq<int>, ip: string, event: Event): seq<int> {
    match event
    case DoCheck(checked, now) =>
      var valid := After(requests, now - cfg.window);
      if checked != ip then requests else if |valid| < cfg.maxRequests then valid + [now] else valid
    case DoCleanup(now) => if After(requests, now - cfg.window * 2) == [] then [] else requests
    case DoLateDelete(deleted, _) => if deleted == ip then [] else requests
  }

  lemma NextRequestsAre(cfg: Config, entries: Entries, ip: string, event: Event)
    ensures Requests(EntriesAfter(cfg, entries, event), ip) == NextRequests(cfg, Requests(entries, ip), ip, event)
  {}

  lemma EventKeepsSame(cfg: Config, requests: seq<int>, log: seq<int>, ip: string, event: Event, cutoff: int)
    requires cutoff >= event.at - cfg.window
    requires Same(requests, log, event.at - cfg.window) && Same(requests, log, cutoff)
    requires forall i :: 0 <= i < |log| ==> log[i] <= event.at
    requires event.DoLateDelete? && event.ip == ip ==> After(requests, event.at - cfg.window) == []
    ensures Same(NextRequests(cfg, requests, ip, event), LogAfter(cfg, log, ip, event), cutoff)
  {
    var at := event.at;
    match event {
      case DoCheck(checked, _) =>
        if checked == ip {
          CheckKeepsSame(cfg, requests, log, at, cutoff);
        }
      case DoCleanup(_) =>
        if After(requests, at - cfg.window * 2) == [] {
          CleanupKeepsSame(cfg, requests, log, at, cutoff);
        }
      case DoLateDelete(deleted, _) =>
        if deleted == ip {
          AfterTwice(requests, at - cfg.window, cutoff);
        }
    }
  }

  lemma {:induction false} EntriesMatchLogs(cfg: Config, run: seq<Event>, ip: string, now: int, cutoff: int)
    requires Ordered(run) && UpTo(run, now) && cutoff >= now - cfg.window && Harmless(cfg, run)
    ensures Same(Requests(State(cfg, run), ip), FullLog(cfg, run, ip), cutoff)
  {
    var n := |run| - 1;
    if n >= 0 {
      var before, at := run[..n], run[n].at;
      EntriesMatchLogs(cfg, before, ip, at, cutoff);
      EntriesMatchLogs(cfg, before, ip, at, at - cfg.window);
      FullLogUpTo(cfg, before, ip, at);
      assert State(cfg, run) == EntriesAfter(cfg, State(cfg, before), run[n]);
      NextRequestsAre(cfg, State(cfg, before), ip, run[n]);
      EventKeepsSame(cfg, Requests(State(cfg, before), ip), FullLog(cfg, before, ip), ip, run[n], cutoff);
    }
  }

  // Every part of every answer is the one computed from all requests ever let through, as long
  // as no late deletion takes one that counts: pruning and eviction never show.
  lemma RefinesFullLog(cfg: Config, run: seq<Event>, ip: string, now: int)
    requires Ordered(run) && UpTo(run, now) && Harmless(cfg, run)
    ensures Answer(cfg, run, ip, now) == Decide(cfg, FullLog(cfg, run, ip), now)
  {
    EntriesMatchLogs(cfg, run, ip, now, now - cfg.window);
  }

  // What every part of the run could answer from then on is what the full log answers.
  ghost predicate AnswersFromLog(cfg: Config, run: seq<Event>) {
    forall k, ip, now :: 0 <= k <= |run| && UpTo(run[..k], now) ==> AnswersAt(cfg, run[..k], ip, now)
  }

  predicate AnswersAt(cfg: Config, run: seq<Event>, ip: string, now: int) {
    Answer(cfg, run, ip, now) == Decide(cfg, FullLog(cfg, run, ip), now)
  }

  lemma {:induction false} NothingLetThrough(cfg: Config, run: seq<Event>, ip: string)
    requires cfg.maxRequests == 0
    ensures FullLog(cfg, run, ip) == []
  {
    if run != [] {
      NothingLetThrough(cfg, run[..|run| - 1], ip);
    }
  }

  // If an entry holds a request that still counts, so does the full log.
  lemma LogCounts(cfg: Config, run: seq<Event>, ip: string, now: int)
    requires Ordered(run) && UpTo(run, now) && Harmless(cfg, run)
    requires After(Requests(State(cfg, run), ip), now - cfg.window) != []
    ensures After(FullLog(cfg, run, ip), now - cfg.window) != [] && cfg.maxRequests >= 1
  {
    EntriesMatchLogs(cfg, run, ip, now, now - cfg.window);
    NothingLetThroughUnless(cfg, run, ip, now - cfg.window);
  }

  lemma AfterDeletion(cfg: Config, before: seq<Event>, ip: string, at: int)
    ensures var run := before + [DoLateDelete(ip, at)];
      Requests(State(cfg, run), ip) == [] && FullLog(cfg, run, ip) == FullLog(cfg, before, ip)
  {
    assert (before + [DoLateDelete(ip, at)])[..|before|] == before;
  }

  // The first late deletion that takes a request that counts shows in the next answer.
  lemma HarmShows(cfg: Config, before: seq<Event>, ip: string, at: int)
    requires Ordered(before) && UpTo(before, at) && Harmless(cfg, before)
    requires After(Requests(State(cfg, before), ip), at - cfg.window) != []
    ensures !AnswersAt(cfg, before + [DoLateDelete(ip, at)], ip, at)
  {
    LogCounts(cfg, before, ip, at);
    AfterDeletion(cfg, before, ip, at);
    EmptyDecides(cfg, FullLog(cfg, before, ip), at);
  }

  lemma EmptyDecides(cfg: Config, log: seq<int>, now: int)
    requires After(log, now - cfg.window) != [] && cfg.maxRequests >= 1
    ensures Decide(cfg, [], now) != Decide(cfg, log, now)
  {}

  lemma NothingLetThroughUnless(cfg: Config, run: seq<Event>, ip: string, cutoff: int)
    ensures After(FullLog(cfg, run, ip), cutoff) != [] ==> cfg.maxRequests >= 1
  {
    if cfg.maxRequests == 0 {
      NothingLetThrough(cfg, run, ip);
    }
  }

  lemma HarmlessAnswers(cfg: Config, run: seq<Event>, k: nat, ip: string, now: int)
    requires Ordered(run) && Harmless(cfg, run) && k <= |run| && UpTo(run[..k], now)
    ensures AnswersAt(cfg, run[..k], ip, now)
  {
    HarmlessPrefix(cfg, run, k);
    OrderedPrefix(run, k);
    RefinesFullLog(cfg, run[..k], ip, now);
  }

  lemma HarmAnswers(cfg: Config, run: seq<Event>)
    requires Ordered(run) && !Harmless(cfg, run)
    ensures !AnswersFromLog(cfg, run)
  {
    var k := FirstHarm(cfg, run);
    var ip, at := run[k].ip, run[k].at;
    assert run[..k + 1] == run[..k] + [DoLateDelete(ip, at)];
    OrderedPrefix(run, k);
    HarmShows(cfg, run[..k], ip, at);
    assert UpTo(run[..k + 1], at) && !AnswersAt(cfg, run[..k + 1], ip, at);
  }

  // The limiter refines the full-log limiter. Over a run of checks, cleanups and late deletions
  // with a clock that does not go back, all answers are those of the full log exactly when no
  // late deletion takes a request that still counts.
  lemma RefinesUnlessHarmed(cfg: Config, run: seq<Event>)
    requires Ordered(run)
    ensures AnswersFromLog(cfg, run) <==> Harmless(cfg, run)
  {
    if Harmless(cfg, run) {
      forall k, ip, now | 0 <= k <= |run| && UpTo(run[..k], now)
        ensures AnswersAt(cfg, run[..k], ip, now)
      {
        HarmlessAnswers(cfg, run, k, ip, now);
      }
    } else {
      HarmAnswers(cfg, run);
    }
  }

  lemma {:induction false} FirstHarm(cfg: Config, run: seq<Event>) returns (k: nat)
    requires !Harmless(cfg, run)
    ensures k < |run| && Harmless(cfg, run[..k]) && run[k].DoLateDelete?
    ensures After(Requests(State(cfg, run[..k]), run[k].ip), run[k].at - cfg.window) != []
  {
    var n := |run| - 1;
    var init := run[..n];
    if Harmless(cfg, init) {
      assert !HarmlessLast(cfg, run);
      k := n;
    } else {
      k := FirstHarm(cfg, init);
      assert init[..k] == run[..k] && init[k] == run[k];
    }
  }

  // ----- how much is let through -----

  // The requests in (lo, hi].
  function Between(times: seq<int>, lo: int, hi: int): seq<int> {
    FirstBetween(times, lo, hi, |times|)
  }

  function FirstBetween(times: seq<int>, lo: int, hi: int, n: nat): seq<int>
    requires n <= |times|
  {
    if n == 0 then []
    else
      var before := FirstBetween(times, lo, hi, n - 1);
      if lo < times[n - 1] <= hi then before + [times[n - 1]] else before
  }

  lemma {:induction false} SameBetween(a: seq<int>, b: seq<int>, lo: int, hi: int, n: nat)
    requires n <= |a| && n <= |b| && forall i :: 0 <= i < n ==> a[i] == b[i]
    ensures FirstBetween(a, lo, hi, n) == FirstBetween(b, lo, hi, n)
  {
    if n > 0 {
      SameBetween(a, b, lo, hi, n - 1);
    }
  }

  lemma {:induction false} FirstBetweenIsAfter(times: seq<int>, early: int, lo: int, hi: int, n: nat)
    requires early <= lo && n <= |times|
    ensures |FirstBetween(times, lo, hi, n)| <= |FirstAfter(times, early, n)|
    ensures (forall i :: 0 <= i < n ==> times[i] <= hi) ==> FirstBetween(times, lo, hi, n) == FirstAfter(times, lo, n)
  {
    if n > 0 {
      FirstBetweenIsAfter(times, early, lo, hi, n - 1);
    }
  }

  lemma BetweenIsAfter(times: seq<int>, early: int, lo: int, hi: int)
    requires early <= lo
    ensures |Between(times, lo, hi)| <= |After(times, early)|
    ensures (forall i :: 0 <= i < |times| ==> times[i] <= hi) ==> Between(times, lo, hi) == After(times, lo)
  {
    FirstBetweenIsAfter(times, early, lo, hi, |times|);
  }

  lemma {:induction false} FullLogIsBounded(cfg: Config, run: seq<Event>, ip: string, start: int)
    ensures |Between(FullLog(cfg, run, ip), start, start + cfg.window)| <= cfg.maxRequests
  {
    var n := |run| - 1;
    if n >= 0 {
      FullLogIsBounded(cfg, run[..n], ip, start);
      var log, at := FullLog(cfg, run[..n], ip), run[n].at;
      if FullLog(cfg, run, ip) != log {
        SameBetween(log + [at], log, start, start + cfg.window, |log|);
        if start < at <= start + cfg.window {
          BetweenIsAfter(log, at - cfg.window, start, start + cfg.window);
        }
      }
    }
  }

  // The times at which the limiter let a request of `ip` through.
  function LetThrough(cfg: Config, run: seq<Event>, ip: string): seq<int> {
    if run == [] then []
    else
      var n := |run| - 1;
      var before := LetThrough(cfg, run[..n], ip);
      if run[n].DoCheck? && run[n].ip == ip && Answer(cfg, run[..n], ip, run[n].at).allowed
      then before + [run[n].at]
      else before
  }

  lemma {:induction false} LetThroughIsFullLog(cfg: Config, run: seq<Event>, ip: string)
    requires Ordered(run) && Harmless(cfg, run)
    ensures LetThrough(cfg, run, ip) == FullLog(cfg, run, ip)
  {
    var n := |run| - 1;
    if n >= 0 {
      LetThroughIsFullLog(cfg, run[..n], ip);
      RefinesFullLog(cfg, run[..n], ip, run[n].at);
    }
  }

  // No window, wherever it starts, sees more than maxRequests requests of an IP let through.
  lemma EveryWindowIsBounded(cfg: Config, run: seq<Event>, ip: string, start: int)
    requires Ordered(run) && Harmless(cfg, run)
    ensures |Between(LetThrough(cfg, run, ip), start, start + cfg.window)| <= cfg.maxRequests
  {
    LetThroughIsFullLog(cfg, run, ip);
    FullLogIsBounded(cfg, run, ip, start);
  }

  // A cleanup that found the entry stale, and deletes it after the next check was let through,
  // does harm.
  lemma LateDeletionHarms(cfg: Config, run: seq<Event>, ip: string, now: int)
    requires cfg.window > 0 && Answer(cfg, run, ip, now).allowed
    ensures !Harmless(cfg, run + [DoCheck(ip, now), DoLateDelete(ip, now)])
  {
    var checked := run + [DoCheck(ip, now)];
    var after := run + [DoCheck(ip, now), DoLateDelete(ip, now)];
    assert checked[..|run|] == run && after[..|checked|] == checked;
    AfterAppend(After(Requests(State(cfg, run), ip), now - cfg.window), now, now - cfg.window);
    assert !HarmlessLast(cfg, after);
  }

  // ----- ResetAt -----

  lemma {:induction false} OldestOfIsLeast(times: seq<int>, n: nat)
    requires 0 < n <= |times|
    ensures OldestOf(times, n) in times && forall i :: 0 <= i < n ==> OldestOf(times, n) <= times[i]
  {
    if n > 1 {
      OldestOfIsLeast(times, n - 1);
    }
  }

  // The oldest request of a window leaves it one window after it was made, and with it the
  // window holds fewer requests; until then it holds the same ones.
  lemma WindowMoves(log: seq<int>, early: int, late: int)
    requires early <= late && After(log, early) != []
    ensures early < Oldest(After(log, early))
    ensures late < Oldest(After(log, early)) ==> After(log, late) == After(log, early)
    ensures late >= Oldest(After(log, early)) ==> |After(log, late)| < |After(log, early)|
  {
    var valid := After(log, early);
    AfterElements(log, early);
    OldestOfIsLeast(valid, |valid|);
    AfterShrinks(log, early, late);
    var k :| 0 <= k < |valid| && valid[k] == Oldest(valid);
    assert valid[k] in log;
  }

  // A log that fills the window at `t` blocks until its oldest request there leaves the window.
  lemma FullWindow(cfg: Config, log: seq<int>, t: int, now: int)
    requires t <= now && cfg.maxRequests >= 1 && |After(log, t - cfg.window)| == cfg.maxRequests
    ensures var resetAt := Decide(cfg, log, t).resetAt;
      t < resetAt && (Decide(cfg, log, now).allowed <==> now >= resetAt)
  {
    var early, late := After(log, t - cfg.window), After(log, now - cfg.window);
    WindowMoves(log, t - cfg.window, now - cfg.window);
    assert Decide(cfg, log, t).resetAt == Oldest(early) + cfg.window;
    assert Decide(cfg, log, now).allowed <==> |late| < |early|;
  }

  // Every check of `ip` in `events` comes before `resetAt`.
  predicate ChecksBefore(events: seq<Event>, ip: string, resetAt: int) {
    forall i :: 0 <= i < |events| && events[i].DoCheck? && events[i].ip == ip ==> events[i].at < resetAt
  }

  // The full log of `before` fills the window at `t`, and lets the next request in at `resetAt`.
  predicate Blocks(cfg: Config, log: seq<int>, t: int, resetAt: int) {
    |After(log, t - cfg.window)| == cfg.maxRequests >= 1 && resetAt == Decide(cfg, log, t).resetAt
  }

  lemma BlockedLogStep(cfg: Config, log: seq<int>, ip: string, t: int, resetAt: int, event: Event)
    requires Blocks(cfg, log, t, resetAt) && t <= event.at && (event.DoCheck? && event.ip == ip ==> event.at < resetAt)
    ensures LogAfter(cfg, log, ip, event) == log
  {
    FullWindow(cfg, log, t, event.at);
  }

  lemma {:induction false} BlockedLogStays(cfg: Config, before: seq<Event>, ip: string, t: int, events: seq<Event>,
                                           resetAt: int)
    requires Blocks(cfg, FullLog(cfg, before, ip), t, resetAt)
    requires ChecksBefore(events, ip, resetAt) && forall i :: 0 <= i < |events| ==> t <= events[i].at
    ensures FullLog(cfg, before + events, ip) == FullLog(cfg, before, ip)
  {
    var n := |events| - 1;
    if n < 0 {
      assert before + events == before;
    } else {
      assert (before + events)[..|before + events| - 1] == before + events[..n];
      BlockedLogStays(cfg, before, ip, t, events[..n], resetAt);
      BlockedLogStep(cfg, FullLog(cfg, before, ip), ip, t, resetAt, events[n]);
    }
  }

  // A refusal means that the window is full, and no fuller.
  lemma RefusalBlocks(cfg: Config, before: seq<Event>, ip: string, t: int)
    requires Ordered(before) && UpTo(before, t) && Harmless(cfg, before)
    requires cfg.maxRequests >= 1 && !Answer(cfg, before, ip, t).allowed
    ensures Blocks(cfg, FullLog(cfg, before, ip), t, Answer(cfg, before, ip, t).resetAt)
  {
    var log := FullLog(cfg, before, ip);
    RefinesFullLog(cfg, before, ip, t);
    assert !Decide(cfg, log, t).allowed;
    assert |After(log, t - cfg.window)| >= cfg.maxRequests;
    WindowAtMostFull(cfg, before, ip, t);
  }

  lemma WindowAtMostFull(cfg: Config, before: seq<Event>, ip: string, t: int)
    requires UpTo(before, t)
    ensures |After(FullLog(cfg, before, ip), t - cfg.window)| <= cfg.maxRequests
  {
    FullLogUpTo(cfg, before, ip, t);
    BetweenIsAfter(FullLog(cfg, before, ip), t - cfg.window, t - cfg.window, t);
    FullLogIsBounded(cfg, before, ip, t - cfg.window);
  }

  lemma PartsOrdered(before: seq<Event>, events: seq<Event>, last: Event)
    requires Ordered(before + events + [last]) && events != []
    ensures Ordered(before) && UpTo(before, events[0].at)
    ensures Ordered(before + events) && UpTo(before + events, last.at)
    ensures forall i :: 0 <= i < |events| ==> events[0].at <= events[i].at <= last.at
  {
    var all := before + events + [last];
    assert forall i :: 0 <= i < |before| ==> all[i] == before[i];
    assert forall i :: 0 <= i < |before + events| ==> all[i] == (before + events)[i];
    assert forall i :: 0 <= i < |events| ==> all[|before| + i] == events[i];
    assert all[|before| + |events|] == last;
  }

  // ResetAt is exact. When a check of `ip` at `t` is refused, the time it gives is in the future,
  // and whatever checks of other IPs and cleanups happen meanwhile, the next checks of `ip` are
  // refused before that time and admitted from then on. (`events` starts with the refused check.)
  lemma ResetAtIsExact(cfg: Config, before: seq<Event>, ip: string, t: int, events: seq<Event>, now: int)
    requires cfg.maxRequests >= 1 && events != [] && events[0] == DoCheck(ip, t)
    requires Ordered(before + events + [DoCheck(ip, now)]) && Harmless(cfg, before + events)
    requires !Answer(cfg, before, ip, t).allowed
    requires ChecksBefore(events[1..], ip, Answer(cfg, before, ip, t).resetAt)
    ensures var resetAt := Answer(cfg, before, ip, t).resetAt;
      && t < resetAt
      && (Answer(cfg, before + events, ip, now).allowed <==> now >= resetAt)
  {
    var log, resetAt := FullLog(cfg, before, ip), Answer(cfg, before, ip, t).resetAt;
    PartsOrdered(before, events, DoCheck(ip, now));
    HarmlessPrefix(cfg, before + events, |before|);
    assert (before + events)[..|before|] == before;
    RefusalBlocks(cfg, before, ip, t);
    FullWindow(cfg, log, t, t);
    assert ChecksBefore(events, ip, resetAt) by {
      assert forall i :: 0 < i < |events| ==> events[i] == events[1..][i - 1];
    }
    BlockedLogStays(cfg, before, ip, t, events, resetAt);
    RefinesFullLog(cfg, before + events, ip, now);
    FullWindow(cfg, log, t, now);
  }

  // ----- the object -----

  class RateLimiter {
    const config: Config
    var entries: Entries

    constructor (maxRequests: nat, window: int)
      ensures entries == map[] && config == Config(maxRequests, window)
    {
      entries, config := map[], Config(maxRequests, window);
    }

    method Check(ip: string, now: int) returns (info: Info)
      modifies this
      ensures (entries, info) == Checked(config, old(entries), ip, now)
    {
      if ip !in entries {
        entries := entries[ip := []];
      }
      var cutoff := now - config.window;
      var validRequests, hasOldest, oldestRequest := Prune(entries[ip], cutoff);
      entries := entries[ip := validRequests];
      var resetAt := now + config.window;
      if hasOldest {
        resetAt := oldestRequest + config.window;
      }
      assert entries == old(entries)[ip := After(Requests(old(entries), ip), cutoff)];
      if |entries[ip]| >= config.maxRequests {
        return Info(false, config.maxRequests, 0, resetAt);
      }
      entries := entries[ip := entries[ip] + [now]];
      assert entries == old(entries)[ip := After(Requests(old(entries), ip), cutoff) + [now]];
      info := Info(true, config.maxRequests, config.maxRequests - |entries[ip]|, resetAt);
    }

    // What is left after the cutoff, and the oldest of it if there is any.
    static method Prune(requests: seq<int>, cutoff: int)
      returns (validRequests: seq<int>, hasOldest: bool, oldestRequest: int)
      ensures validRequests == After(requests, cutoff) && hasOldest == (validRequests != [])
      ensures hasOldest ==> oldestRequest == Oldest(validRequests)
    {
      validRequests, hasOldest, oldestRequest := [], false, 0;
      for i := 0 to |requests|
        invariant validRequests == FirstAfter(requests, cutoff, i) && hasOldest == (validRequests != [])
        invariant hasOldest ==> oldestRequest == Oldest(validRequests)
      {
        if requests[i] > cutoff {
          if hasOldest {
            SameOldest(validRequests + [requests[i]], validRequests, |validRequests|);
          }
          validRequests := validRequests + [requests[i]];
          if !hasOldest || requests[i] < oldestRequest {
            hasOldest, oldestRequest := true, requests[i];
          }
        }
      }
    }

    method CleanupOldEntries(now: int)
      modifies this
      ensures entries == CleanedUp(config, old(entries), now)
      ensures forall ip :: ip in entries <==>
        ip in old(entries) && exists k :: 0 <= k < |old(entries)[ip]| && old(entries)[ip][k] > now - 2 * config.window
    {
      var todo := entries.Keys;
      var cutoff := now - config.window * 2;
      while todo != {}
        invariant todo <= entries.Keys <= old(entries).Keys
        invariant forall ip :: ip in entries ==> entries[ip] == old(entries)[ip]
        invariant forall ip :: ip in old(entries) && ip !in todo ==>
          (ip in entries <==> After(old(entries)[ip], cutoff) != [])
      {
        var ip :| ip in todo;
        todo := todo - {ip};
        var hasValidRequests := HasAfter(entries[ip], cutoff);
        if !hasValidRequests {
          entries := entries - {ip};
        }
      }
      forall ip | ip in old(entries)
        ensures ip in entries <==>
          exists k :: 0 <= k < |old(entries)[ip]| && old(entries)[ip][k] > now - 2 * config.window
      {
        AfterSome(old(entries)[ip], cutoff);
      }
    }
  }

  method HasAfter(times: seq<int>, cutoff: int) returns (found: bool)
    ensures found <==> After(times, cutoff) != []
  {
    found := false;
    AfterElements(times, cutoff);
    for i := 0 to |times|
      invariant forall j :: 0 <= j < i ==> times[j] <= cutoff
    {
      if times[i] > cutoff {
        return true;
      }
    }
    AfterNothing(times, cutoff);
  }
}
