/** Logs of times, and what is left of them when the times that are too old are dropped. */
module SlidingWindow {
  function After(times: seq<int>, cutoff: int): seq<int> {
    FirstAfter(times, cutoff, |times|)
  }

  // Of the first `n` times, those after the cutoff.
  function FirstAfter(times: seq<int>, cutoff: int, n: nat): seq<int>
    requires n <= |times|
  {
    if n == 0 then []
    else
      var before := FirstAfter(times, cutoff, n - 1);
      if times[n - 1] > cutoff then before + [times[n - 1]] else before
  }

  method KeepAfter(times: seq<int>, cutoff: int) returns (kept: seq<int>)
    ensures kept == After(times, cutoff)
  {
    kept := [];
    for k := 0 to |times|
      invariant kept == FirstAfter(times, cutoff, k)
    {
      if times[k] > cutoff {
        kept := kept + [times[k]];
      }
    }
  }

  lemma {:induction false} SameFirst(a: seq<int>, b: seq<int>, cutoff: int, n: nat)
    requires n <= |a| && n <= |b| && forall i :: 0 <= i < n ==> a[i] == b[i]
    ensures FirstAfter(a, cutoff, n) == FirstAfter(b, cutoff, n)
  {
    if n > 0 {
      SameFirst(a, b, cutoff, n - 1);
    }
  }

  lemma AfterAppend(a: seq<int>, t: int, cutoff: int)
    ensures After(a + [t], cutoff) == if t > cutoff then After(a, cutoff) + [t] else After(a, cutoff)
  {
    SameFirst(a + [t], a, cutoff, |a|);
  }

  lemma {:induction false} FirstAfterTwice(a: seq<int>, early: int, late: int, n: nat)
    requires early <= late && n <= |a|
    ensures After(FirstAfter(a, early, n), late) == FirstAfter(a, late, n)
  {
    if n > 0 {
      FirstAfterTwice(a, early, late, n - 1);
      if a[n - 1] > early {
        AfterAppend(FirstAfter(a, early, n - 1), a[n - 1], late);
      }
    }
  }

  // Pruning twice is pruning once at the later cutoff.
  lemma AfterTwice(a: seq<int>, early: int, late: int)
    requires early <= late
    ensures After(After(a, early), late) == After(a, late)
  {
    FirstAfterTwice(a, early, late, |a|);
  }

  lemma PruningKeepsLog(log: seq<int>, early: int, now: int, late: int)
    requires early <= late
    ensures After(After(log, early) + [now], late) == After(log + [now], late)
  {
    AfterTwice(log, early, late);
    AfterAppend(After(log, early), now, late);
    AfterAppend(log, now, late);
  }

  lemma {:induction false} FirstAfterShrinks(times: seq<int>, early: int, late: int, n: nat)
    requires early <= late && n <= |times|
    ensures |FirstAfter(times, late, n)| <= |FirstAfter(times, early, n)|
    ensures (exists i :: 0 <= i < n && early < times[i] <= late) ==>
      |FirstAfter(times, late, n)| < |FirstAfter(times, early, n)|
    ensures (forall i :: 0 <= i < n && times[i] > early ==> times[i] > late) ==>
      FirstAfter(times, late, n) == FirstAfter(times, early, n)
  {
    if n > 0 {
      FirstAfterShrinks(times, early, late, n - 1);
    }
  }

  lemma AfterShrinks(times: seq<int>, early: int, late: int)
    requires early <= late
    ensures |After(times, late)| <= |After(times, early)|
    ensures (exists i :: 0 <= i < |times| && early < times[i] <= late) ==> |After(times, late)| < |After(times, early)|
    ensures (forall i :: 0 <= i < |times| && times[i] > early ==> times[i] > late) ==>
      After(times, late) == After(times, early)
  {
    FirstAfterShrinks(times, early, late, |times|);
  }

  lemma {:induction false} FirstAfterElements(times: seq<int>, cutoff: int, n: nat)
    requires n <= |times|
    ensures forall t :: t in FirstAfter(times, cutoff, n) ==> t > cutoff && t in times
    ensures forall i :: 0 <= i < n && times[i] > cutoff ==> times[i] in FirstAfter(times, cutoff, n)
  {
    if n > 0 {
      FirstAfterElements(times, cutoff, n - 1);
    }
  }

  lemma AfterElements(times: seq<int>, cutoff: int)
    ensures forall t :: t in After(times, cutoff) ==> t > cutoff && t in times
    ensures forall i :: 0 <= i < |times| && times[i] > cutoff ==> times[i] in After(times, cutoff)
  {
    FirstAfterElements(times, cutoff, |times|);
  }

  lemma {:induction false} FirstAfterNothing(times: seq<int>, cutoff: int, n: nat)
    requires n <= |times| && forall i :: 0 <= i < n ==> times[i] <= cutoff
    ensures FirstAfter(times, cutoff, n) == []
  {
    if n > 0 {
      FirstAfterNothing(times, cutoff, n - 1);
    }
  }

  lemma AfterNothing(times: seq<int>, cutoff: int)
    requires forall i :: 0 <= i < |times| ==> times[i] <= cutoff
    ensures After(times, cutoff) == []
  {
    FirstAfterNothing(times, cutoff, |times|);
  }

  lemma AfterSome(times: seq<int>, cutoff: int)
    ensures After(times, cutoff) != [] <==> exists k :: 0 <= k < |times| && times[k] > cutoff
  {
    AfterElements(times, cutoff);
    if After(times, cutoff) != [] {
      var t := After(times, cutoff)[0];
      assert t in After(times, cutoff);
      assert t > cutoff && t in times;
    } else {
      assert forall k :: 0 <= k < |times| && times[k] > cutoff ==> times[k] in After(times, cutoff);
    }
  }
}
