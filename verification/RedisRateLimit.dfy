/**
 The Redis limiter: one counter with an expiry per identifier.  The increment and the expiry
 are separate commands, so any client may die or be delayed between them.
 */
module RedisRateLimit {
  import opened Wrappers

  datatype Counter = Counter(count: nat, expiresAt: Option<real>)

  /** An admitted hit: when, and in which lifetime of the key. */
  datatype Hit = Hit(time: real, life: nat)

  function CountLife(hits: seq<Hit>, life: nat): nat {
    if hits == [] then 0
    else
      var last := |hits| - 1;
      CountLife(hits[..last], life) + (if hits[last].life == life then 1 else 0)
  }

  /** Admitted hits in the half-open window `(lo, hi]`. */
  function CountWithin(hits: seq<Hit>, lo: real, hi: real): nat {
    if hits == [] then 0
    else
      var last := |hits| - 1;
      CountWithin(hits[..last], lo, hi) + (if lo < hits[last].time <= hi then 1 else 0)
  }

  /** Successive lifetimes start at least a window apart. */
  ghost predicate StartsApart(starts: seq<real>, window: real) {
    forall i: nat, j: nat :: Apart(starts, window, i, j)
  }

  ghost predicate Apart(starts: seq<real>, window: real, i: nat, j: nat) {
    i < j < |starts| ==> starts[i] + window <= starts[j]
  }

  /** Every hit falls between the start of its lifetime and the start of the next. */
  ghost predicate HitsPlaced(hits: seq<Hit>, starts: seq<real>) {
    forall k :: 0 <= k < |hits| ==> Placed(hits[k], starts)
  }

  /** No lifetime has admitted more than `max` hits. */
  ghost predicate LivesWithin(hits: seq<Hit>, max: nat) {
    forall life :: CountLife(hits, life) <= max
  }

  ghost predicate Placed(h: Hit, starts: seq<real>) {
    && h.life < |starts| && starts[h.life] <= h.time
    && (h.life + 1 < |starts| ==> h.time <= starts[h.life + 1])
  }

  lemma {:induction false} CountLifeAppend(hits: seq<Hit>, h: Hit, life: nat)
    ensures CountLife(hits + [h], life) == CountLife(hits, life) + (if h.life == life then 1 else 0)
  {
    assert (hits + [h])[..|hits|] == hits;
  }

  lemma {:induction false} WindowWithinLives(hits: seq<Hit>, lo: real, hi: real, a: nat, b: nat)
    requires forall k :: 0 <= k < |hits| && lo < hits[k].time <= hi ==> hits[k].life == a || hits[k].life == b
    ensures CountWithin(hits, lo, hi) <= CountLife(hits, a) + CountLife(hits, b)
  {
    if hits != [] {
      WindowWithinLives(hits[..|hits| - 1], lo, hi, a, b);
    }
  }

  lemma {:induction false} NoneWithin(hits: seq<Hit>, lo: real, hi: real)
    requires forall k :: 0 <= k < |hits| ==> !(lo < hits[k].time <= hi)
    ensures CountWithin(hits, lo, hi) == 0
  {
    if hits != [] {
      NoneWithin(hits[..|hits| - 1], lo, hi);
    }
  }

  /** Hits two lifetimes apart are at least a window apart. */
  lemma TwoLives(hits: seq<Hit>, starts: seq<real>, window: real, j: nat, k: nat)
    requires StartsApart(starts, window) && HitsPlaced(hits, starts)
    requires j < |hits| && k < |hits| && hits[k].life > hits[j].life + 1
    ensures hits[k].time - hits[j].time >= window
  {
    assert Apart(starts, window, hits[j].life + 1, hits[k].life);
  }

  ghost predicate Latest(hits: seq<Hit>, lo: real, hi: real, k: nat) {
    && k < |hits| && lo < hits[k].time <= hi
    && forall j :: 0 <= j < |hits| && lo < hits[j].time <= hi ==> hits[j].life <= hits[k].life
  }

  /** A window is empty of hits, or has a hit of its latest lifetime. */
  lemma {:induction false} LatestOrNone(hits: seq<Hit>, lo: real, hi: real) returns (k: nat)
    ensures Latest(hits, lo, hi, k) || (forall j :: 0 <= j < |hits| ==> !(lo < hits[j].time <= hi))
  {
    k := 0;
    if hits != [] {
      var last := |hits| - 1;
      var rest := hits[..last];
      k := LatestOrNone(rest, lo, hi);
      assert forall j :: 0 <= j < last ==> rest[j] == hits[j];
      if lo < hits[last].time <= hi && (Latest(rest, lo, hi, k) ==> hits[k].life < hits[last].life) {
        k := last;
      }
    }
  }

  /** At most `max` hits per lifetime, so at most twice that in any window between resets. */
  lemma WindowBound(hits: seq<Hit>, starts: seq<real>, max: nat, window: real, t: real)
    requires StartsApart(starts, window) && HitsPlaced(hits, starts)
    requires LivesWithin(hits, max)
    ensures CountWithin(hits, t - window, t) <= 2 * max
  {
    var k := LatestOrNone(hits, t - window, t);
    if Latest(hits, t - window, t, k) {
      var b := hits[k].life;
      var a := if b == 0 then 0 else b - 1;
      forall j | 0 <= j < |hits| && t - window < hits[j].time <= t ensures hits[j].life == a || hits[j].life == b {
        if b > hits[j].life + 1 { TwoLives(hits, starts, window, j, k); }
      }
      WindowWithinLives(hits, t - window, t, a, b);
    } else {
      NoneWithin(hits, t - window, t);
    }
  }

  // ---------------------------------------------------------------- the history of one key

  ghost predicate HistoryOk(hits: seq<Hit>, starts: seq<real>, max: nat, window: real, clock: real) {
    && StartsApart(starts, window)
    && HitsPlaced(hits, starts)
    && (forall k :: 0 <= k < |starts| ==> starts[k] <= clock)
    && (forall k :: 0 <= k < |hits| ==> hits[k].time <= clock)
    && LivesWithin(hits, max)
  }

  lemma TimePasses(hits: seq<Hit>, starts: seq<real>, max: nat, window: real, clock: real, now: real)
    requires HistoryOk(hits, starts, max, window, clock) && clock <= now
    ensures HistoryOk(hits, starts, max, window, now)
  {}

  /** The counter covers the current lifetime and outlives it by no less than a window. */
  ghost predicate CounterOk(stored: Option<Counter>, hits: seq<Hit>, starts: seq<real>, window: real) {
    match stored
    case None => starts == []
    case Some(counter) =>
      && starts != []
      && (counter.expiresAt.Some? ==> counter.expiresAt.value >= starts[|starts| - 1] + window)
      && CountLife(hits, |starts| - 1) <= counter.count
  }

  lemma {:induction false} NoHitsIn(hits: seq<Hit>, life: nat)
    requires forall k :: 0 <= k < |hits| ==> hits[k].life < life
    ensures CountLife(hits, life) == 0
  {
    if hits != [] {
      NoHitsIn(hits[..|hits| - 1], life);
    }
  }

  /** An admission below the limit keeps the history in order. */
  lemma Admit(hits: seq<Hit>, starts: seq<real>, max: nat, window: real, now: real)
    requires HistoryOk(hits, starts, max, window, now) && starts != []
    requires CountLife(hits, |starts| - 1) < max
    ensures HistoryOk(hits + [Hit(now, |starts| - 1)], starts, max, window, now)
    ensures CountLife(hits + [Hit(now, |starts| - 1)], |starts| - 1) == CountLife(hits, |starts| - 1) + 1
  {
    var h := Hit(now, |starts| - 1);
    forall life ensures CountLife(hits + [h], life) <= max {
      CountLifeAppend(hits, h, life);
    }
    CountLifeAppend(hits, h, |starts| - 1);
  }

  /** A lifetime begun after the previous one expired. */
  lemma Begin(hits: seq<Hit>, starts: seq<real>, max: nat, window: real, now: real)
    requires HistoryOk(hits, starts, max, window, now) && window > 0.0
    requires starts != [] ==> now >= starts[|starts| - 1] + window
    ensures HistoryOk(hits, starts + [now], max, window, now)
    ensures CountLife(hits, |starts|) == 0
  {
    NoHitsIn(hits, |starts|);
    forall i: nat, j: nat ensures Apart(starts + [now], window, i, j) {
      assert Apart(starts, window, i, j);
      assert starts != [] ==> Apart(starts, window, i, |starts| - 1);
    }
  }

  // ---------------------------------------------------------------- the key

  /** What is left of the key's life. */
  function Left(counter: Counter, now: real): real
    requires counter.expiresAt.Some?
  {
    counter.expiresAt.value - now
  }

  /** `TTL` in whole seconds, rounded to the nearest; -1 for a key without expiry. */
  predicate IsTtl(ttl: int, counter: Counter, now: real) {
    if counter.expiresAt.None? then ttl == -1
    else ttl as real <= Left(counter, now) + 0.5 < ttl as real + 1.0
  }

  method Ttl(counter: Counter, now: real) returns (ttl: int)
    ensures IsTtl(ttl, counter, now)
  {
    ttl := if counter.expiresAt.None? then -1 else (Left(counter, now) + 0.5).Floor;
  }

  /** The advertised wait: the rounded time left, but at least a second. */
  predicate IsWait(wait: int, counter: Counter, now: real) {
    && counter.expiresAt.Some? && wait >= 1
    && (IsTtl(wait, counter, now) || (wait == 1 && Left(counter, now) < 0.5))
  }

  lemma RoundedUp(x: real, wait: int)
    requires wait >= 1 && wait as real <= x + 0.5 < wait as real + 1.0
    ensures wait as real < x <==> 0.0 < x - x.Floor as real < 0.5
  {
    assert wait as real <= x ==> x.Floor == wait;
    assert x < wait as real ==> x.Floor == wait - 1;
  }

  /**
   After the advertised wait the key can still be there: exactly when more than a second is left of
   it and the fraction is less than a half, so that rounding cut it off.  One second more always
   outlasts it.
   */
  lemma WaitEnds(counter: Counter, now: real, wait: int)
    requires IsWait(wait, counter, now)
    ensures var x := Left(counter, now);
            Present(Some(counter), now + wait as real) <==> x > 1.0 && 0.0 < x - x.Floor as real < 0.5
    ensures !Present(Some(counter), now + wait as real + 1.0)
  {
    var x := Left(counter, now);
    if IsTtl(wait, counter, now) {
      RoundedUp(x, wait);
    }
  }

  /** With the expiry within a window so is the wait. */
  lemma WaitRange(counter: Counter, now: real, wait: int, windowSeconds: nat)
    requires IsWait(wait, counter, now) && windowSeconds >= 1
    requires Left(counter, now) <= windowSeconds as real
    ensures 1 <= wait <= windowSeconds
  {
  }

  predicate Present(stored: Option<Counter>, now: real) {
    stored.Some? && (stored.value.expiresAt.Some? ==> stored.value.expiresAt.value > now)
  }

  /** `INCR`: an absent or expired key starts over at 1 with no expiry. */
  function Incremented(stored: Option<Counter>, now: real): (r: Counter) {
    if Present(stored, now) then stored.value.(count := stored.value.count + 1) else Counter(1, None)
  }

  /** The lifetimes so far, once a hit has arrived at `now`. */
  ghost function StartsAfter(stored: Option<Counter>, starts: seq<real>, now: real): seq<real> {
    if Present(stored, now) then starts else starts + [now]
  }

  /** The hits admitted so far, once one has been counted as number `count`. */
  ghost function HitsAfter(hits: seq<Hit>, starts: seq<real>, count: nat, max: nat, now: real): seq<Hit>
    requires starts != []
  {
    if count <= max then hits + [Hit(now, |starts| - 1)] else hits
  }

  /** Whether this hit finds the lifetime's limit used up. */
  predicate UsedUp(stored: Option<Counter>, max: nat, now: real) {
    Present(stored, now) && stored.value.count >= max
  }

  lemma Refused(stored: Option<Counter>, hits: seq<Hit>, starts: seq<real>, max: nat, now: real)
    requires max >= 1 && starts != [] && Incremented(stored, now).count > max
    ensures UsedUp(stored, max, now)
    ensures HitsAfter(hits, starts, Incremented(stored, now).count, max, now) == hits
  {
  }

  lemma Admitted(stored: Option<Counter>, hits: seq<Hit>, starts: seq<real>, max: nat, now: real)
    requires max >= 1 && starts != [] && Incremented(stored, now).count <= max
    ensures !UsedUp(stored, max, now)
    ensures HitsAfter(hits, starts, Incremented(stored, now).count, max, now) == hits + [Hit(now, |starts| - 1)]
  {
  }

  /** The history and the counter fit together. */
  ghost predicate KeyOk(stored: Option<Counter>, hits: seq<Hit>, starts: seq<real>, max: nat, window: real,
          clock: real)
  {
    HistoryOk(hits, starts, max, window, clock) && CounterOk(stored, hits, starts, window) &&
        ExpiryNear(stored, window, clock)
  }

  /** No expiry lies further ahead than a window. */
  predicate ExpiryNear(stored: Option<Counter>, window: real, clock: real) {
    stored.Some? && stored.value.expiresAt.Some? ==> stored.value.expiresAt.value <= clock + window
  }

  lemma NothingYet(max: nat, window: real, clock: real)
    ensures KeyOk(None, [], [], max, window, clock)
  {}

  lemma ArriveKeeps(stored: Option<Counter>, hits: seq<Hit>, starts: seq<real>, max: nat, window: real, clock: real,
          now: real)
    requires KeyOk(stored, hits, starts, max, window, clock) && clock <= now && window > 0.0
    ensures StartsAfter(stored, starts, now) != []
    ensures KeyOk(Some(Incremented(stored, now)), hits, StartsAfter(stored, starts, now), max, window, now)
    ensures CountLife(hits, |StartsAfter(stored, starts, now)| - 1) < Incremented(stored, now).count
  {
    TimePasses(hits, starts, max, window, clock, now);
    if !Present(stored, now) {
      Begin(hits, starts, max, window, now);
    }
  }

  lemma CountKeeps(counter: Counter, hits: seq<Hit>, starts: seq<real>, max: nat, window: real, now: real)
    requires KeyOk(Some(counter), hits, starts, max, window, now)
    requires starts != [] && CountLife(hits, |starts| - 1) < counter.count
    ensures KeyOk(Some(counter), HitsAfter(hits, starts, counter.count, max, now), starts, max, window, now)
  {
    if counter.count <= max {
      Admit(hits, starts, max, window, now);
    }
  }

  lemma IncrementKeeps(stored: Option<Counter>, hits: seq<Hit>, starts: seq<real>, max: nat, window: real,
          clock: real, now: real)
    requires KeyOk(stored, hits, starts, max, window, clock) && clock <= now && window > 0.0
    ensures StartsAfter(stored, starts, now) != []
    ensures KeyOk(Some(Incremented(stored, now)),
        HitsAfter(hits, StartsAfter(stored, starts, now), Incremented(stored, now).count, max, now),
                  StartsAfter(stored, starts, now), max, window, now)
  {
    ArriveKeeps(stored, hits, starts, max, window, clock, now);
    CountKeeps(Incremented(stored, now), hits, StartsAfter(stored, starts, now), max, window, now);
  }

  /** One identifier's key, with the history since its last reset. */
  class RateKey {
    const maxAttempts: nat
    const windowSeconds: nat
    var stored: Option<Counter>
    ghost var hits: seq<Hit>
    ghost var starts: seq<real>
    ghost var clock: real

    ghost predicate Valid()
      reads this
    {
      && maxAttempts >= 1 && windowSeconds >= 1
      && KeyOk(stored, hits, starts, maxAttempts, windowSeconds as real, clock)
    }

    constructor (maxAttempts: nat, windowSeconds: nat, ghost start: real)
      requires maxAttempts >= 1 && windowSeconds >= 1
      ensures Valid() && stored.None? && hits == [] && clock == start
    {
      this.maxAttempts := maxAttempts;
      this.windowSeconds := windowSeconds;
      stored := None;
      hits, starts := [], [];
      clock := start;
      NothingYet(maxAttempts, windowSeconds as real, start);
    }

    /** The pipelined `INCR` and `TTL`: a count within the limit is an admission. */
    method Increment(now: real) returns (count: nat, ttl: int)
      requires Valid() && clock <= now
      modifies this`stored, this`hits, this`starts, this`clock
      ensures Valid() && clock == now
      ensures stored == Some(Incremented(old(stored), now))
      ensures starts == StartsAfter(old(stored), old(starts), now) && starts != []
      ensures count == stored.value.count && IsTtl(ttl, stored.value, now)
      ensures hits == HitsAfter(old(hits), starts, count, maxAttempts, now)
    {
      IncrementKeeps(stored, hits, starts, maxAttempts, windowSeconds as real, clock, now);
      starts := StartsAfter(stored, starts, now);
      stored := Some(Incremented(stored, now));
      count := stored.value.count;
      ttl := Ttl(stored.value, now);
      hits := HitsAfter(hits, starts, count, maxAttempts, now);
      clock := now;
    }

    /** `EXPIRE`, whenever it arrives: without a key it does nothing. */
    method Expire(now: real)
      requires Valid() && clock <= now
      modifies this`stored, this`clock
      ensures Valid() && clock == now
      ensures stored ==
              if !Present(old(stored), now) then old(stored)
              else Some(old(stored).value.(expiresAt := Some(now + windowSeconds as real)))
    {
      TimePasses(hits, starts, maxAttempts, windowSeconds as real, clock, now);
      clock := now;
      if Present(stored, now) {
        stored := Some(stored.value.(expiresAt := Some(now + windowSeconds as real)));
      }
    }

    /** The expiry a first hit sets, and a later one repairs. */
    method EnsureExpiry(count: nat, ttl: int, now: real) returns (left: int)
      requires Valid() && clock == now && stored.Some? && IsTtl(ttl, stored.value, now)
      modifies this`stored
      ensures Valid() && stored.Some? && stored.value.count == old(stored).value.count
      ensures stored.value.expiresAt.Some? && IsTtl(left, stored.value, now)
    {
      left := ttl;
      if count == 1 || ttl < 0 {
        stored := Some(stored.value.(expiresAt := Some(now + windowSeconds as real)));
        left := windowSeconds;
      }
    }

    /** The three commands in a row: count, and see to the expiry. */
    method Arrive(now: real) returns (count: nat, left: int)
      requires Valid() && clock <= now
      modifies this`stored, this`hits, this`starts, this`clock
      ensures Valid() && clock == now
      ensures count == Incremented(old(stored), now).count
      ensures starts == StartsAfter(old(stored), old(starts), now) && starts != []
      ensures hits == HitsAfter(old(hits), starts, count, maxAttempts, now)
      ensures stored.Some? && stored.value.expiresAt.Some? && IsTtl(left, stored.value, now)
    {
      var ttl;
      count, ttl := Increment(now);
      left := EnsureExpiry(count, ttl, now);
    }

    /** The answer to a hit that made the counter `count`. */
    method Answer(count: nat, left: int, now: real) returns (retryAfter: Option<int>)
      requires Valid() && clock == now && stored.Some? && stored.value.expiresAt.Some?
      requires IsTtl(left, stored.value, now)
      ensures retryAfter.Some? <==> count > maxAttempts
      ensures retryAfter.Some? ==> IsWait(retryAfter.value, stored.value, now) && 1 <= retryAfter.value <= windowSeconds
    {
      retryAfter := None;
      if count > maxAttempts {
        var wait := if left < 1 then 1 else left;
        WaitRange(stored.value, now, wait, windowSeconds);
        retryAfter := Some(wait);
      }
    }

    /**
     One undisturbed hit: refused exactly when this lifetime has used up the limit, and the key
     always has an expiry afterwards.  The wait offered lies between a second and the window.
     */
    method HitOnce(now: real) returns (retryAfter: Option<int>)
      requires Valid() && clock <= now
      modifies this`stored, this`hits, this`starts, this`clock
      ensures Valid() && clock == now
      ensures retryAfter.Some? <==> UsedUp(old(stored), maxAttempts, now)
      ensures starts == StartsAfter(old(stored), old(starts), now) && starts != []
      ensures hits == if retryAfter.None? then old(hits) + [Hit(now, |starts| - 1)] else old(hits)
      ensures stored.Some? && stored.value.expiresAt.Some?
      ensures retryAfter.Some? ==> IsWait(retryAfter.value, stored.value, now) && 1 <= retryAfter.value <= windowSeconds
    {
      var count, left := Arrive(now);
      retryAfter := Answer(count, left, now);
      if retryAfter.Some? {
        Refused(old(stored), old(hits), starts, maxAttempts, now);
      } else {
        Admitted(old(stored), old(hits), starts, maxAttempts, now);
      }
    }

    /** `DEL`: the history starts over. */
    method Reset(now: real)
      requires Valid() && clock <= now
      modifies this`stored, this`hits, this`starts, this`clock
      ensures Valid() && clock == now && stored.None? && hits == []
    {
      stored := None;
      hits, starts := [], [];
      clock := now;
      NothingYet(maxAttempts, windowSeconds as real, now);
    }

    /** In every state the history obeys the bound. */
    lemma AtMostTwiceMax(t: real)
      requires Valid()
      ensures CountWithin(hits, t - windowSeconds as real, t) <= 2 * maxAttempts
    {
      WindowBound(hits, starts, maxAttempts, windowSeconds as real, t);
    }
  }
}
