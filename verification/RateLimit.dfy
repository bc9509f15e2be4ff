/** The in-memory limiter: a pruned list per identifier against the full log of admitted hits. */
module RateLimit {
  import opened Wrappers

  // ---------------------------------------------------------------- logs

  /** The entries later than `cutoff`, in order. */
  function Recent(log: seq<real>, cutoff: real): seq<real> {
    if log == [] then []
    else
      var last := |log| - 1;
      Recent(log[..last], cutoff) + (if log[last] > cutoff then [log[last]] else [])
  }

  /** How many entries lie in the half-open window `(lo, hi]`. */
  function CountWithin(log: seq<real>, lo: real, hi: real): nat {
    if log == [] then 0
    else
      var last := |log| - 1;
      CountWithin(log[..last], lo, hi) + (if lo < log[last] <= hi then 1 else 0)
  }

  ghost predicate Sorted(log: seq<real>) {
    forall i, j :: 0 <= i <= j < |log| ==> log[i] <= log[j]
  }

  /** Any entry comes at least a window after the one `max` places before it. */
  ghost predicate Spaced(log: seq<real>, max: nat, window: real) {
    forall i, j :: 0 <= i && j == i + max && j < |log| ==> log[j] - log[i] >= window
  }

  /** A log the limiter can have admitted by `clock`. */
  ghost predicate LogOk(log: seq<real>, max: nat, window: real, clock: real) {
    Sorted(log) && Spaced(log, max, window) && (log != [] ==> log[|log| - 1] <= clock)
  }

  /** The limiter that keeps everything: fewer than `max` admitted hits in the last window. */
  predicate Admits(log: seq<real>, max: nat, window: real, now: real) {
    |Recent(log, now - window)| < max
  }

  /** What is left of the window that the oldest recent hit opened. */
  function Remaining(window: nat, now: real, oldest: real): real {
    window as real - (now - oldest)
  }

  /** The advertised delay: the remaining wait in whole seconds, rounded down, but at least one. */
  predicate IsRetryAfter(r: int, remaining: real) {
    && r >= 1
    && (r as real <= remaining || r == 1)
    && remaining < r as real + 1.0
  }

  /** `max(1, int(remaining))` */
  method RetryAfter(remaining: real) returns (r: int)
    requires remaining > 0.0
    ensures IsRetryAfter(r, remaining)
  {
    r := remaining.Floor;
    if r < 1 {
      r := 1;
    }
  }

  /** For a positive wait there is exactly one such delay. */
  lemma RetryAfterIsFloor(r: int, remaining: real)
    requires remaining > 0.0
    ensures IsRetryAfter(r, remaining) <==> r == if remaining.Floor < 1 then 1 else remaining.Floor
  {
  }

  // ---------------------------------------------------------------- facts about logs

  lemma RecentAppend(log: seq<real>, x: real, cutoff: real)
    ensures Recent(log + [x], cutoff) == Recent(log, cutoff) + (if x > cutoff then [x] else [])
  {
    assert (log + [x])[..|log|] == log;
  }

  lemma {:induction false} RecentOfRecent(log: seq<real>, a: real, b: real)
    requires a <= b
    ensures Recent(Recent(log, a), b) == Recent(log, b)
  {
    if log != [] {
      var last := |log| - 1;
      var before := Recent(log[..last], a);
      RecentOfRecent(log[..last], a, b);
      RecentAppend(log[..last], log[last], a);
      RecentAppend(log[..last], log[last], b);
      assert log == log[..last] + [log[last]];
      if log[last] > a {
        RecentAppend(before, log[last], b);
        assert Recent(log, a) == before + [log[last]];
      } else {
        assert Recent(log, a) == before;
      }
    }
  }

  lemma {:induction false} AllOld(log: seq<real>, cutoff: real)
    requires forall i :: 0 <= i < |log| ==> log[i] <= cutoff
    ensures Recent(log, cutoff) == []
  {
    if log != [] {
      AllOld(log[..|log| - 1], cutoff);
    }
  }

  lemma {:induction false} AllRecent(log: seq<real>, cutoff: real)
    requires forall i :: 0 <= i < |log| ==> log[i] > cutoff
    ensures Recent(log, cutoff) == log
  {
    if log != [] {
      AllRecent(log[..|log| - 1], cutoff);
    }
  }

  /** The recent entries of a sorted log are its last ones. */
  lemma {:induction false} RecentShape(log: seq<real>, cutoff: real)
    requires Sorted(log)
    ensures |Recent(log, cutoff)| <= |log|
    ensures forall i :: 0 <= i < |Recent(log, cutoff)| ==>
        Recent(log, cutoff)[i] == log[|log| - |Recent(log, cutoff)| + i]
    ensures forall i :: 0 <= i < |Recent(log, cutoff)| ==> Recent(log, cutoff)[i] > cutoff
  {
    if log != [] {
      var last := |log| - 1;
      if log[last] > cutoff {
        RecentShape(log[..last], cutoff);
      } else {
        AllOld(log, cutoff);
      }
    }
  }

  lemma {:induction false} RecentLength(log: seq<real>, cutoff: real)
    ensures |Recent(log, cutoff)| <= |log|
  {
    if log != [] {
      RecentLength(log[..|log| - 1], cutoff);
    }
  }

  lemma {:induction false} RecentAtLeast(log: seq<real>, cutoff: real, i: nat)
    requires Sorted(log) && i < |log| && log[i] > cutoff
    ensures |Recent(log, cutoff)| >= |log| - i
  {
    var last := |log| - 1;
    assert log[i] <= log[last];
    if i < last {
      RecentAtLeast(log[..last], cutoff, i);
    }
  }

  lemma {:induction false} OldAreDropped(log: seq<real>, cutoff: real, i: nat)
    requires Sorted(log) && i < |log| && log[i] <= cutoff
    ensures |Recent(log, cutoff)| <= |log| - 1 - i
  {
    var last := |log| - 1;
    if i == last {
      AllOld(log, cutoff);
    } else {
      OldAreDropped(log[..last], cutoff, i);
    }
  }

  /** A log spaced by windows never has more than `max` recent entries. */
  lemma SpacedIsBounded(log: seq<real>, max: nat, window: real, cutoff: real)
    requires Sorted(log) && Spaced(log, max, window)
    requires log != [] ==> log[|log| - 1] <= cutoff + window
    ensures |Recent(log, cutoff)| <= max
  {
    RecentLength(log, cutoff);
    var last := |log| - 1;
    if last >= max {
      assert log[last] - log[last - max] >= window;
      OldAreDropped(log, cutoff, last - max);
    }
  }

  /** Admitting a hit that the full log admits keeps the spacing. */
  lemma AdmissionKeepsSpacing(log: seq<real>, max: nat, window: real, now: real)
    requires LogOk(log, max, window, now) && max >= 1
    requires Admits(log, max, window, now)
    ensures LogOk(log + [now], max, window, now)
  {
    if |log| >= max {
      var i := |log| - max;
      if log[i] > now - window {
        RecentAtLeast(log, now - window, i);
        assert false;
      }
    }
  }

  lemma {:induction false} CountIsRecent(log: seq<real>, lo: real, hi: real)
    requires Sorted(log) && (log != [] ==> log[|log| - 1] <= hi)
    ensures CountWithin(log, lo, hi) == |Recent(log, lo)|
  {
    if log != [] {
      CountIsRecent(log[..|log| - 1], lo, hi);
    }
  }

  // ---------------------------------------------------------------- main results

  /** At most `max` hits are admitted in any window `(t - window, t]` between resets. */
  lemma {:induction false} WindowBound(log: seq<real>, max: nat, window: real, t: real)
    requires Sorted(log) && Spaced(log, max, window)
    ensures CountWithin(log, t - window, t) <= max
  {
    if log != [] {
      var last := |log| - 1;
      if log[last] > t {
        WindowBound(log[..last], max, window, t);
      } else {
        CountIsRecent(log, t - window, t);
        SpacedIsBounded(log, max, window, t - window);
      }
    }
  }

  /**
   After a refusal, and with no hit admitted meanwhile, the next hit is admitted exactly from
   the moment the oldest recent hit leaves the window.
   */
  lemma AdmittedFrom(log: seq<real>, max: nat, window: real, now: real, t: real)
    requires LogOk(log, max, window, now) && max >= 1
    requires !Admits(log, max, window, now) && now <= t && window > 0.0
    ensures |Recent(log, now - window)| == max
    ensures Admits(log, max, window, t) <==> t >= Recent(log, now - window)[0] + window
  {
    SpacedIsBounded(log, max, window, now - window);
    LaterRecent(log, now - window, t - window);
  }

  /** Moving the cutoff on loses recent entries exactly when it loses the oldest of them. */
  lemma LaterRecent(log: seq<real>, a: real, b: real)
    requires Sorted(log) && Recent(log, a) != [] && a <= b
    ensures |Recent(log, b)| < |Recent(log, a)| <==> Recent(log, a)[0] <= b
  {
    RecentOfRecent(log, a, b);
    RecentSorted(log, a);
    OldestDecides(Recent(log, a), b);
  }

  lemma RecentSorted(log: seq<real>, cutoff: real)
    requires Sorted(log)
    ensures Sorted(Recent(log, cutoff))
    ensures forall i :: 0 <= i < |Recent(log, cutoff)| ==>
        Recent(log, cutoff)[i] > cutoff && Recent(log, cutoff)[i] in log
  {
    RecentShape(log, cutoff);
  }

  lemma OldestDecides(active: seq<real>, cutoff: real)
    requires Sorted(active) && active != []
    ensures |Recent(active, cutoff)| < |active| <==> active[0] <= cutoff
  {
    if active[0] <= cutoff {
      OldAreDropped(active, cutoff, 0);
    } else {
      AllRecent(active, cutoff);
    }
  }

  /** A refusal finds exactly `max` recent hits, the oldest of them within the window. */
  lemma RefusalFacts(log: seq<real>, max: nat, window: nat, now: real)
    requires LogOk(log, max, window as real, now) && max >= 1 && window >= 1
    requires !Admits(log, max, window as real, now)
    ensures |Recent(log, now - window as real)| == max
    ensures var oldest := Recent(log, now - window as real)[0];
            oldest in log && 0.0 < Remaining(window, now, oldest) <= window as real
  {
    SpacedIsBounded(log, max, window as real, now - window as real);
    OldestRecent(log, now - window as real, now);
  }

  lemma OldestRecent(log: seq<real>, cutoff: real, now: real)
    requires Sorted(log) && Recent(log, cutoff) != []
    requires log != [] ==> log[|log| - 1] <= now
    ensures Recent(log, cutoff)[0] in log && cutoff < Recent(log, cutoff)[0] <= now
  {
    RecentShape(log, cutoff);
  }

  /** The advertised delay lies between one second and the window. */
  lemma RetryAfterRange(window: nat, remaining: real, retry: int)
    requires window >= 1 && remaining <= window as real && IsRetryAfter(retry, remaining)
    ensures 1 <= retry <= window
  {
  }

  /**
   Waiting the advertised delay is enough exactly when the remaining wait is that whole number
   of seconds or below a second; one second more always is.
   */
  lemma RetryAfterSuffices(log: seq<real>, max: nat, window: nat, now: real, retry: int)
    requires LogOk(log, max, window as real, now) && max >= 1 && window >= 1
    requires !Admits(log, max, window as real, now)
    requires |Recent(log, now - window as real)| == max
    requires IsRetryAfter(retry, Remaining(window, now, Recent(log, now - window as real)[0]))
    ensures var remaining := Remaining(window, now, Recent(log, now - window as real)[0]);
            && (Admits(log, max, window as real, now + retry as real) <==>
                remaining <= 1.0 || remaining == retry as real)
            && Admits(log, max, window as real, now + retry as real + 1.0)
  {
    AdmittedFrom(log, max, window as real, now, now + retry as real);
    AdmittedFrom(log, max, window as real, now, now + retry as real + 1.0);
  }

  predicate Whole(x: real) {
    x == x.Floor as real
  }

  /** On a clock of whole seconds the advertised delay is the exact one. */
  lemma RetryAfterExactOnIntegers(log: seq<real>, max: nat, window: nat, now: real, retry: int, t: real)
    requires LogOk(log, max, window as real, now) && max >= 1 && window >= 1
    requires (forall x :: x in log ==> Whole(x)) && Whole(now)
    requires !Admits(log, max, window as real, now) && now <= t
    requires |Recent(log, now - window as real)| == max
    requires IsRetryAfter(retry, Remaining(window, now, Recent(log, now - window as real)[0]))
    ensures Admits(log, max, window as real, t) <==> t >= now + retry as real
  {
    RefusalFacts(log, max, window, now);
    var oldest := Recent(log, now - window as real)[0];
    WholeWait(window, now.Floor, oldest.Floor, retry);
    AdmittedFrom(log, max, window as real, now, t);
  }

  lemma WholeWait(window: nat, now: int, oldest: int, retry: int)
    requires Remaining(window, now as real, oldest as real) > 0.0
    requires IsRetryAfter(retry, Remaining(window, now as real, oldest as real))
    ensures retry as real == Remaining(window, now as real, oldest as real)
  {
    WholeDelay(window - now + oldest, retry);
  }

  lemma WholeDelay(wait: int, retry: int)
    requires wait as real > 0.0 && IsRetryAfter(retry, wait as real)
    ensures retry == wait
  {
  }

  // ---------------------------------------------------------------- the limiter

  lemma LogOkLater(log: seq<real>, max: nat, window: real, clock: real, now: real)
    requires LogOk(log, max, window, clock) && clock <= now
    ensures LogOk(log, max, window, now)
  {
  }

  /** The pruned list answers every question from `start` on as the log does. */
  ghost predicate SameFrom(list: seq<real>, log: seq<real>, start: real) {
    forall cutoff :: cutoff >= start ==> Recent(list, cutoff) == Recent(log, cutoff)
  }

  lemma PrunedIsSame(list: seq<real>, log: seq<real>, start: real, later: real)
    requires SameFrom(list, log, start) && start <= later
    ensures SameFrom(Recent(list, later), log, later)
  {
    forall cutoff | cutoff >= later ensures Recent(Recent(list, later), cutoff) == Recent(log, cutoff) {
      RecentOfRecent(list, later, cutoff);
    }
  }

  lemma AppendedIsSame(list: seq<real>, log: seq<real>, start: real, x: real)
    requires SameFrom(list, log, start)
    ensures SameFrom(list + [x], log + [x], start)
  {
    forall cutoff | cutoff >= start ensures Recent(list + [x], cutoff) == Recent(log + [x], cutoff) {
      RecentAppend(list, x, cutoff);
      RecentAppend(log, x, cutoff);
    }
  }

  /** What one hit does to a list and its log, refused or admitted. */
  lemma Decide(list: seq<real>, log: seq<real>, max: nat, window: nat, clock: real, now: real)
    requires LogOk(log, max, window as real, clock) && SameFrom(list, log, clock - window as real)
    requires clock <= now && max >= 1 && window >= 1
    ensures var active := Recent(list, now - window as real);
            && active == Recent(log, now - window as real)
            && SameFrom(active, log, now - window as real) && LogOk(log, max, window as real, now)
            && (|active| >= max ==> |active| == max && 0.0 < Remaining(window, now, active[0]) <= window as real)
            && (|active| < max ==>
                  LogOk(log + [now], max, window as real, now) &&
                      SameFrom(active + [now], log + [now], now - window as real))
  {
    PrunedIsSame(list, log, clock - window as real, now - window as real);
    LogOkLater(log, max, window as real, clock, now);
    DecideLog(log, max, window, now);
    AppendedIsSame(Recent(list, now - window as real), log, now - window as real, now);
  }

  lemma DecideLog(log: seq<real>, max: nat, window: nat, now: real)
    requires LogOk(log, max, window as real, now) && max >= 1 && window >= 1
    ensures var active := Recent(log, now - window as real);
            && (|active| >= max ==> |active| == max && 0.0 < Remaining(window, now, active[0]) <= window as real)
            && (|active| < max ==> LogOk(log + [now], max, window as real, now))
  {
    if |Recent(log, now - window as real)| >= max {
      RefusalFacts(log, max, window, now);
    } else {
      AdmissionKeepsSpacing(log, max, window as real, now);
    }
  }

  /**
   The limiter that keeps the whole log: it admits fewer than `max` hits per window, records
   exactly what it admits, and a refusal names the delay until the oldest recent hit is old.
   */
  ghost predicate HitSpec(log: seq<real>, log': seq<real>, retryAfter: Option<int>, max: nat, window: nat, now: real) {
    && (retryAfter.None? <==> Admits(log, max, window as real, now))
    && log' == (if retryAfter.None? then log + [now] else log)
    && (retryAfter.Some? ==>
          && |Recent(log, now - window as real)| == max && max >= 1
          && IsRetryAfter(retryAfter.value, Remaining(window, now, Recent(log, now - window as real)[0]))
          && 1 <= retryAfter.value <= window)
  }

  lemma RefusalMeetsSpec(log: seq<real>, max: nat, window: nat, now: real, wait: int)
    requires max >= 1 && |Recent(log, now - window as real)| == max && 1 <= wait <= window
    requires IsRetryAfter(wait, Remaining(window, now, Recent(log, now - window as real)[0]))
    ensures HitSpec(log, log, Some(wait), max, window, now)
  {
  }

  lemma AdmissionMeetsSpec(log: seq<real>, max: nat, window: nat, now: real)
    requires Admits(log, max, window as real, now)
    ensures HitSpec(log, log + [now], None, max, window, now)
  {
  }

  class MemoryAuthRateLimiter {
    const maxAttempts: nat
    const windowSeconds: nat
    var attempts: map<string, seq<real>>
    // every admitted hit since the identifier's last reset, and the latest clock reading
    ghost var admitted: map<string, seq<real>>
    ghost var clock: real

    function Listed(identifier: string): seq<real>
      reads this
    {
      if identifier in attempts then attempts[identifier] else []
    }

    ghost function Log(identifier: string): seq<real>
      reads this
    {
      if identifier in admitted then admitted[identifier] else []
    }

    ghost predicate Valid()
      reads this
    {
      && maxAttempts >= 1 && windowSeconds >= 1
      && (forall identifier :: LogOk(Log(identifier), maxAttempts, windowSeconds as real, clock))
      && (forall identifier :: SameFrom(Listed(identifier), Log(identifier), clock - windowSeconds as real))
    }

    /** In every state, whatever was hit and reset before. */
    lemma AtMostMax(identifier: string, t: real)
      requires Valid()
      ensures CountWithin(Log(identifier), t - windowSeconds as real, t) <= maxAttempts
    {
      assert LogOk(Log(identifier), maxAttempts, windowSeconds as real, clock);
      WindowBound(Log(identifier), maxAttempts, windowSeconds as real, t);
    }

    constructor (maxAttempts: nat, windowSeconds: nat, ghost start: real)
      requires maxAttempts >= 1 && windowSeconds >= 1
      ensures Valid() && clock == start && forall identifier :: Log(identifier) == []
    {
      this.maxAttempts := maxAttempts;
      this.windowSeconds := windowSeconds;
      attempts := map[];
      admitted := map[];
      clock := start;
    }

    /**
     Admits and refuses exactly as the full log does, records what it admits, and names a
     delay when it refuses.
     */
    method Hit(identifier: string, now: real) returns (retryAfter: Option<int>)
      requires Valid() && clock <= now
      modifies this
      ensures Valid() && clock == now
      ensures HitSpec(old(Log(identifier)), Log(identifier), retryAfter, maxAttempts, windowSeconds, now)
      ensures forall other :: other != identifier ==> Log(other) == old(Log(other))
    {
      var list := Listed(identifier);
      var active := Recent(list, now - windowSeconds as real);
      ghost var log := Log(identifier);
      Decide(list, log, maxAttempts, windowSeconds, clock, now);
      if |active| >= maxAttempts {
        retryAfter := Refuse(identifier, active, now);
      } else {
        Admit(identifier, active, now);
        retryAfter := None;
      }
    }

    /** Keep the pruned list and name the delay. */
    method Refuse(identifier: string, active: seq<real>, now: real) returns (retryAfter: Option<int>)
      requires Valid() && clock <= now
      requires active == Recent(Log(identifier), now - windowSeconds as real) && |active| == maxAttempts
      requires LogOk(Log(identifier), maxAttempts, windowSeconds as real, now)
      requires SameFrom(active, Log(identifier), now - windowSeconds as real)
      requires 0.0 < Remaining(windowSeconds, now, active[0]) <= windowSeconds as real
      modifies this
      ensures Valid() && clock == now
      ensures HitSpec(old(Log(identifier)), Log(identifier), retryAfter, maxAttempts, windowSeconds, now)
      ensures forall other :: other != identifier ==> Log(other) == old(Log(other))
    {
      ghost var log := Log(identifier);
      var wait := Delay(active[0], now);
      RefusalMeetsSpec(log, maxAttempts, windowSeconds, now, wait);
      Record(identifier, active, log, now);
      retryAfter := Some(wait);
    }

    /** Add the hit to the pruned list. */
    method Admit(identifier: string, active: seq<real>, now: real)
      requires Valid() && clock <= now
      requires active == Recent(Log(identifier), now - windowSeconds as real) && |active| < maxAttempts
      requires LogOk(Log(identifier) + [now], maxAttempts, windowSeconds as real, now)
      requires SameFrom(active + [now], Log(identifier) + [now], now - windowSeconds as real)
      modifies this
      ensures Valid() && clock == now
      ensures HitSpec(old(Log(identifier)), Log(identifier), None, maxAttempts, windowSeconds, now)
      ensures forall other :: other != identifier ==> Log(other) == old(Log(other))
    {
      ghost var log := Log(identifier);
      AdmissionMeetsSpec(log, maxAttempts, windowSeconds, now);
      Record(identifier, active + [now], log + [now], now);
    }

    method Delay(oldest: real, now: real) returns (wait: int)
      requires windowSeconds >= 1 && 0.0 < Remaining(windowSeconds, now, oldest) <= windowSeconds as real
      ensures IsRetryAfter(wait, Remaining(windowSeconds, now, oldest)) && 1 <= wait <= windowSeconds
    {
      wait := RetryAfter(Remaining(windowSeconds, now, oldest));
      RetryAfterRange(windowSeconds, Remaining(windowSeconds, now, oldest), wait);
    }

    /** Store one identifier's list and log; every other entry only sees the clock move on. */
    method Record(identifier: string, list: seq<real>, ghost log: seq<real>, ghost now: real)
      requires Valid() && clock <= now
      requires LogOk(log, maxAttempts, windowSeconds as real, now)
      requires SameFrom(list, log, now - windowSeconds as real)
      modifies this
      ensures Valid() && clock == now && Log(identifier) == log
      ensures forall other :: other != identifier ==> Log(other) == old(Log(other))
    {
      attempts := attempts[identifier := list];
      admitted := admitted[identifier := log];
      ghost var before := clock;
      clock := now;
      assert forall other :: other != identifier ==>
          Listed(other) == old(Listed(other)) && Log(other) == old(Log(other));
      forall other ensures LogOk(Log(other), maxAttempts, windowSeconds as real, clock) {
        if other != identifier {
          assert LogOk(old(Log(other)), maxAttempts, windowSeconds as real, before);
          LogOkLater(old(Log(other)), maxAttempts, windowSeconds as real, before, now);
        }
      }
      forall other ensures SameFrom(Listed(other), Log(other), clock - windowSeconds as real) {
        if other != identifier {
          assert SameFrom(old(Listed(other)), old(Log(other)), before - windowSeconds as real);
        }
      }
    }

    method Reset(identifier: string)
      requires Valid()
      modifies this`attempts, this`admitted
      ensures Valid() && clock == old(clock)
      ensures Log(identifier) == [] && Listed(identifier) == []
      ensures forall other :: other != identifier ==> Log(other) == old(Log(other))
    {
      attempts := attempts - {identifier};
      admitted := admitted - {identifier};
      assert forall other :: other != identifier ==>
          Listed(other) == old(Listed(other)) && Log(other) == old(Log(other));
      forall other
        ensures LogOk(Log(other), maxAttempts, windowSeconds as real, clock)
        ensures SameFrom(Listed(other), Log(other), clock - windowSeconds as real)
      {
        if other != identifier {
          assert LogOk(old(Log(other)), maxAttempts, windowSeconds as real, clock);
          assert SameFrom(old(Listed(other)), old(Log(other)), clock - windowSeconds as real);
        }
      }
    }
  }
}
