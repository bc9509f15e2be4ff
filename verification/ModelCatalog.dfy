/**
 The bounded, expiring cache of provider model lists.  Beside it runs the unbounded log of every
 store; the cache may forget entries, but never disagrees with the log.
 */
module ModelCatalog {
  import opened Wrappers

  type Key = string

  datatype Source = Provider | Litellm | Manual

  datatype Catalog = Catalog(models: seq<string>, source: Source, cached: bool, refreshedAt: int)

  datatype Cached = Cached(result: Catalog, expiresAt: real)

  /** One store as the log keeps it: the clock is the one read when the request began. */
  datatype Stored = Stored(key: Key, result: Catalog, now: real)

  type Entries = map<Key, Cached>

  // ---------------------------------------------------------------- the unbounded log

  /** The position of the last store under `key`, if there is one. */
  ghost function LastStore(log: seq<Stored>, key: Key): (r: Option<nat>)
    ensures r.None? ==> forall i :: 0 <= i < |log| ==> log[i].key != key
    ensures r.Some? ==> r.value < |log| && log[r.value].key == key
    ensures r.Some? ==> forall i :: r.value < i < |log| ==> log[i].key != key
  {
    if log == [] then None
    else
      var last := |log| - 1;
      if log[last].key == key then Some(last) else LastStore(log[..last], key)
  }

  /** `entry` is what the last store under `key` wrote. */
  ghost predicate Agrees(log: seq<Stored>, ttl: int, key: Key, entry: Cached) {
    var i := LastStore(log, key);
    i.Some? && entry == Cached(log[i.value].result, log[i.value].now + ttl as real)
  }

  ghost predicate AllAgree(log: seq<Stored>, ttl: int, entries: Entries) {
    forall key :: key in entries ==> Agrees(log, ttl, key, entries[key])
  }

  /** Every store so far read the clock no later than `now`: what sequential calls guarantee. */
  ghost predicate NoneLater(log: seq<Stored>, now: real) {
    forall i :: 0 <= i < |log| ==> log[i].now <= now
  }

  // ---------------------------------------------------------------- what eviction keeps

  function Live(entries: Entries, now: real): Entries {
    map key | key in entries && entries[key].expiresAt > now :: entries[key]
  }

  ghost predicate PartOf(part: Entries, whole: Entries) {
    forall key :: key in part ==> key in whole && part[key] == whole[key]
  }

  /** No entry of `whole` outside `part` expires later than one inside it. */
  ghost predicate LatestExpiring(part: Entries, whole: Entries) {
    forall dropped, kept :: dropped in whole && dropped !in part && kept in part && kept in whole ==>
      whole[dropped].expiresAt <= whole[kept].expiresAt
  }

  /** `kept` is `whole` cut down to its `room` latest-expiring entries. */
  ghost predicate Trimmed(kept: Entries, whole: Entries, room: nat) {
    && PartOf(kept, whole)
    && LatestExpiring(kept, whole)
    && |kept| == (if |whole| <= room then |whole| else room)
  }

  /** What a store at `now` leaves of the old entries. */
  ghost predicate Survivors(kept: Entries, before: Entries, now: real, room: nat) {
    Trimmed(kept, Live(before, now), room)
  }

  lemma RemoveOne(entries: Entries, key: Key)
    requires key in entries
    ensures |entries - {key}| == |entries| - 1
  {
    assert (entries - {key}).Keys == entries.Keys - {key};
  }

  lemma {:induction false} OldestExists(entries: Entries)
    requires entries != map[]
    ensures exists key :: IsOldest(entries, key)
    decreases |entries|
  {
    var some :| some in entries;
    var rest := entries - {some};
    RemoveOne(entries, some);
    if rest == map[] {
      assert forall key :: key in entries ==> key == some || key in rest;
      assert IsOldest(entries, some);
    } else {
      OldestExists(rest);
      var oldest :| IsOldest(rest, oldest);
      assert forall key :: key in entries ==> key == some || key in rest;
      assert IsOldest(entries, if entries[some].expiresAt < entries[oldest].expiresAt then some else oldest);
    }
  }

  predicate IsOldest(entries: Entries, key: Key) {
    key in entries && forall other :: other in entries ==> entries[key].expiresAt <= entries[other].expiresAt
  }

  /** Taking the oldest out keeps what is left the latest-expiring part. */
  lemma EvictKeepsLatest(part: Entries, whole: Entries, oldest: Key)
    requires PartOf(part, whole) && LatestExpiring(part, whole) && IsOldest(part, oldest)
    ensures PartOf(part - {oldest}, whole) && LatestExpiring(part - {oldest}, whole)
  {
  }

  /** The entries once the new one is written. */
  function After(kept: Entries, ttl: int, stored: Stored): Entries {
    kept[stored.key := Cached(stored.result, stored.now + ttl as real)]
  }

  lemma StoreAgrees(log: seq<Stored>, ttl: int, entries: Entries, stored: Stored)
    requires AllAgree(log, ttl, entries)
    ensures AllAgree(log + [stored], ttl, After(entries, ttl, stored))
  {
    assert (log + [stored])[..|log|] == log;
  }

  /** Overwriting or adding one key of what survived. */
  lemma StoreKeeps(log: seq<Stored>, ttl: int, before: Entries, kept: Entries, stored: Stored, room: nat)
    requires AllAgree(log, ttl, before) && Survivors(kept, before, stored.now, room)
    ensures AllAgree(log + [stored], ttl, After(kept, ttl, stored))
    ensures |After(kept, ttl, stored)| <= room + 1
  {
    SurvivorsAgree(log, ttl, before, kept, stored.now, room);
    StoreAgrees(log, ttl, kept, stored);
    assert After(kept, ttl, stored).Keys == kept.Keys + {stored.key};
  }

  lemma SurvivorsAgree(log: seq<Stored>, ttl: int, before: Entries, kept: Entries, now: real, room: nat)
    requires AllAgree(log, ttl, before) && Survivors(kept, before, now, room)
    ensures AllAgree(log, ttl, kept)
  {
    forall key | key in kept ensures Agrees(log, ttl, key, kept[key]) {
      assert key in Live(before, now);
    }
  }

  /** Fewer live entries than the maximum: nothing that could still be served is dropped. */
  lemma NothingLiveDropped(kept: Entries, before: Entries, now: real, room: nat)
    requires Survivors(kept, before, now, room) && |Live(before, now)| <= room
    ensures kept == Live(before, now)
  {
    var live := Live(before, now);
    assert kept.Keys <= live.Keys;
    assert live.Keys == kept.Keys + (live.Keys - kept.Keys);
  }

  predicate Dropped(kept: Entries, before: Entries, now: real, key: Key) {
    key in Live(before, now) && key !in kept
  }

  /** No dropped live entry outlives anything left in the cache, the new entry included. */
  ghost predicate EvictionOrder(kept: Entries, before: Entries, ttl: int, stored: Stored) {
    forall dropped, left :: Dropped(kept, before, stored.now, dropped) && left in After(kept, ttl, stored) ==>
      before[dropped].expiresAt <= After(kept, ttl, stored)[left].expiresAt
  }

  /** The clock that the last store under `key` had read, if there was one, was no later than `now`. */
  ghost predicate StoredBy(log: seq<Stored>, key: Key, now: real) {
    var i := LastStore(log, key);
    i.Some? ==> log[i.value].now <= now
  }

  /**
   The order holds exactly when every dropped entry was stored on a clock no later than the new
   one's, which overlapping requests need not keep.
   */
  lemma EvictionOrderIff(kept: Entries, before: Entries, log: seq<Stored>, ttl: int, stored: Stored, room: nat)
    requires Survivors(kept, before, stored.now, room) && AllAgree(log, ttl, before)
    ensures EvictionOrder(kept, before, ttl, stored)
       <==> forall dropped :: Dropped(kept, before, stored.now, dropped) ==> StoredBy(log, dropped, stored.now)
  {
    var after := After(kept, ttl, stored);
    if EvictionOrder(kept, before, ttl, stored) {
      forall dropped | Dropped(kept, before, stored.now, dropped) ensures StoredBy(log, dropped, stored.now) {
        BeforeTheNew(before, log, ttl, stored, dropped);
        assert stored.key in after && before[dropped].expiresAt <= after[stored.key].expiresAt;
      }
    }
    if forall dropped :: Dropped(kept, before, stored.now, dropped) ==> StoredBy(log, dropped, stored.now) {
      forall dropped, left | Dropped(kept, before, stored.now, dropped) && left in after
        ensures before[dropped].expiresAt <= after[left].expiresAt
      {
        BeforeTheNew(before, log, ttl, stored, dropped);
        if left != stored.key {
          BeforeTheKept(kept, before, stored.now, room, dropped, left);
        }
      }
    }
  }

  /** Against the new entry expiries compare as the clocks of the stores do. */
  lemma BeforeTheNew(before: Entries, log: seq<Stored>, ttl: int, stored: Stored, dropped: Key)
    requires AllAgree(log, ttl, before) && dropped in before
    ensures before[dropped].expiresAt <= stored.now + ttl as real <==> StoredBy(log, dropped, stored.now)
  {
    assert Agrees(log, ttl, dropped, before[dropped]);
  }

  /** Against the kept entries every dropped one expires first. */
  lemma BeforeTheKept(kept: Entries, before: Entries, now: real, room: nat, dropped: Key, left: Key)
    requires Survivors(kept, before, now, room) && Dropped(kept, before, now, dropped) && left in kept
    ensures before[dropped].expiresAt <= kept[left].expiresAt
  {
    assert left in Live(before, now) && kept[left] == Live(before, now)[left];
    assert Live(before, now)[dropped] == before[dropped];
  }

  /** Sequential calls always keep it. */
  lemma SequentialEvictionOrder(kept: Entries, before: Entries, log: seq<Stored>, ttl: int, stored: Stored, room: nat)
    requires Survivors(kept, before, stored.now, room) && AllAgree(log, ttl, before)
    requires NoneLater(log, stored.now)
    ensures EvictionOrder(kept, before, ttl, stored)
  {
    EvictionOrderIff(kept, before, log, ttl, stored, room);
  }

  // ---------------------------------------------------------------- the catalog service

  class ProviderModelCatalog {
    const ttl: int
    const maximumEntries: int
    const normalize: seq<string> -> seq<string>
    var cache: Entries
    ghost var log: seq<Stored>

    ghost predicate Valid()
      reads this
    {
      && AllAgree(log, ttl, cache)
      && |cache| <= (if maximumEntries > 0 then maximumEntries else 0)
      && (ttl <= 0 ==> log == [])
    }

    constructor (ttl: int, maximumEntries: int, normalize: seq<string> -> seq<string>)
      ensures Valid() && cache == map[] && log == []
      ensures this.ttl == ttl && this.maximumEntries == maximumEntries && this.normalize == normalize
    {
      this.ttl := ttl;
      this.maximumEntries := maximumEntries;
      this.normalize := normalize;
      cache := map[];
      log := [];
    }

    /**
     A hit is the last result stored under this very key, younger than the lifetime.  There is one
     whenever it is wanted and the entry is there and live.
     */
    method Lookup(key: Key, force: bool, now: real) returns (hit: Option<Catalog>)
      requires Valid()
      ensures hit.Some? ==>
        && !force && LastStore(log, key).Some?
        && hit.value == log[LastStore(log, key).value].result.(cached := true)
        && now < log[LastStore(log, key).value].now + ttl as real
      ensures hit.Some? <==> !force && key in cache && now < cache[key].expiresAt
    {
      if !force && key in cache && cache[key].expiresAt > now {
        assert Agrees(log, ttl, key, cache[key]);
        hit := Some(cache[key].result.(cached := true));
      } else {
        hit := None;
      }
    }

    /** Expired entries are removed one by one. */
    method Purge(now: real)
      modifies this`cache
      ensures cache == Live(old(cache), now)
      ensures forall k :: k in cache <==> k in old(cache) && old(cache)[k].expiresAt > now
      ensures forall k :: k in cache ==> cache[k] == old(cache)[k]
    {
      var expired := set k | k in cache && cache[k].expiresAt <= now;
      while expired != {}
        invariant expired <= old(cache).Keys
        invariant forall k :: k in old(cache) && old(cache)[k].expiresAt <= now ==> k in expired || k !in cache
        invariant forall k :: k in expired ==> old(cache)[k].expiresAt <= now
        invariant PartOf(cache, old(cache))
        invariant forall k :: k in old(cache) && old(cache)[k].expiresAt > now ==> k in cache
        decreases |expired|
      {
        var gone :| gone in expired;
        cache := cache - {gone};
        expired := expired - {gone};
      }
    }

    /** Evicts the oldest until one more fits; with no room at all, there is nothing to take the minimum of. */
    method Evict() returns (ok: bool)
      modifies this`cache
      ensures ok <==> maximumEntries >= 1
      ensures ok ==> Trimmed(cache, old(cache), maximumEntries - 1)
      ensures !ok ==> cache == map[]
    {
      ok := true;
      while |cache| >= maximumEntries
        invariant PartOf(cache, old(cache)) && LatestExpiring(cache, old(cache))
        invariant |cache| == |old(cache)| || (|cache| < |old(cache)| && |cache| >= maximumEntries - 1)
        decreases |cache|
      {
        if cache == map[] {
          return false;
        }
        OldestExists(cache);
        var oldest :| IsOldest(cache, oldest);
        EvictKeepsLatest(cache, old(cache), oldest);
        RemoveOne(cache, oldest);
        cache := cache - {oldest};
      }
    }

    method MakeRoom(now: real) returns (ok: bool)
      modifies this`cache
      ensures ok <==> maximumEntries >= 1
      ensures ok ==> Survivors(cache, old(cache), now, maximumEntries - 1)
      ensures !ok ==> cache == map[]
    {
      Purge(now);
      ok := Evict();
    }

    /**
     `ok` is false when the eviction loop runs out of entries to evict and raises.  `kept` is what
     is left of the old entries before the new one is written.
     */
    method Store(key: Key, result: Catalog, now: real) returns (ok: bool, ghost kept: Entries)
      requires Valid()
      modifies this
      ensures Valid()
      ensures ok <==> ttl <= 0 || maximumEntries >= 1
      ensures ttl <= 0 ==> cache == old(cache) && log == old(log)
      ensures !ok ==> cache == map[] && log == old(log)
      ensures ok && ttl > 0 ==> Survivors(kept, old(cache), now, maximumEntries - 1)
      ensures ok && ttl > 0 ==> cache == After(kept, ttl, Stored(key, result, now))
      ensures ok && ttl > 0 ==> log == old(log) + [Stored(key, result, now)]
    {
      kept := cache;
      if ttl <= 0 {
        return true, kept;
      }
      ok := MakeRoom(now);
      kept := cache;
      if !ok {
        return;
      }
      StoreKeeps(log, ttl, old(cache), kept, Stored(key, result, now), maximumEntries - 1);
      cache := After(cache, ttl, Stored(key, result, now));
      log := log + [Stored(key, result, now)];
    }

    /**
     One undisturbed request; a loader that failed or timed out has loaded nothing.  `None` is the
     raised error.  What is answered afresh is what the next request for the key is served.
     */
    method Discover(key: Key, force: bool, now: real, live: Option<seq<string>>, fallback: Option<seq<string>>,
            refreshedAt: int)
      returns (answer: Option<Catalog>)
      requires Valid()
      modifies this
      ensures Valid()
      ensures answer.None? ==> ttl > 0 && maximumEntries <= 0
      ensures var wanted := !force && key in old(cache) && old(cache)[key].expiresAt > now;
              && (wanted ==> answer == Some(old(cache)[key].result.(cached := true)))
              && (!wanted && answer.Some? ==> !answer.value.cached && answer.value.refreshedAt == refreshedAt)
              && (answer.None? <==> !wanted && ttl > 0 && maximumEntries <= 0)
      ensures answer.Some? && answer.value.cached ==>
        && cache == old(cache) && log == old(log) && !force && LastStore(log, key).Some?
        && answer.value == log[LastStore(log, key).value].result.(cached := true)
      ensures answer.Some? && !answer.value.cached ==> Fresh(answer.value, live, fallback, normalize)
      ensures answer.Some? && !answer.value.cached && ttl > 0 ==>
        && log == old(log) + [Stored(key, answer.value, now)]
        && key in cache && cache[key].result == answer.value && cache[key].expiresAt > now
    {
      answer := Lookup(key, force, now);
      if answer.Some? {
        return;
      }
      var result;
      if Loaded(live) != [] {
        result := Catalog(normalize(Loaded(live)), Provider, false, refreshedAt);
      } else {
        var found := Loaded(fallback);
        result := Catalog(normalize(found), if found != [] then Litellm else Manual, false, refreshedAt);
      }
      var ok, kept := Store(key, result, now);
      answer := if ok then Some(result) else None;
    }
  }

  /**
   Two overlapping requests: the one that began first stores last and evicts the other's entry,
   which is then missed while it would still be served, and would outlive what is left.
   */
  method OverlappingRequests(a: Key, b: Key, mine: Catalog, other: Catalog, ttl: int, first: real, second: real,
          later: real)
    returns (early: Option<Catalog>, late: Option<Catalog>, again: Option<Catalog>, left: Entries)
    requires a != b && ttl > 0 && first < second && second <= later < second + ttl as real
    ensures early.None? && late.None?
    ensures again.None? && later < second + ttl as real
    ensures left == map[a := Cached(mine, first + ttl as real)] && left[a].expiresAt < second + ttl as real
  {
    var catalog := new ProviderModelCatalog(ttl, 1, models => models);
    early := catalog.Lookup(a, false, first);
    late := catalog.Lookup(b, false, second);
    left := StoreLast(catalog, b, other, second);
    left := StoreLast(catalog, a, mine, first);
    again := catalog.Lookup(b, false, later);
  }

  /** In a cache of one entry a store leaves only the new one. */
  method StoreLast(catalog: ProviderModelCatalog, key: Key, result: Catalog, now: real) returns (left: Entries)
    requires catalog.Valid() && catalog.maximumEntries == 1 && catalog.ttl > 0
    modifies catalog
    ensures catalog.Valid() && catalog.cache == left == map[key := Cached(result, now + catalog.ttl as real)]
  {
    var ok, kept := catalog.Store(key, result, now);
    assert kept == map[] by { assert |kept| == 0; }
    left := catalog.cache;
  }

  function Loaded(attempt: Option<seq<string>>): seq<string> {
    if attempt.Some? then attempt.value else []
  }

  /** The provider's own list wins when it is not empty; the source names where the list is from. */
  ghost predicate Fresh(answer: Catalog, live: Option<seq<string>>, fallback: Option<seq<string>>,
          normalize: seq<string> -> seq<string>)
  {
    && (answer.source == Provider <==> live.Some? && live.value != [])
    && (answer.source == Litellm <==>
          (live.None? || live.value == []) && fallback.Some? && fallback.value != [])
    && (answer.source == Provider ==> answer.models == normalize(live.value))
    && (answer.source == Litellm ==> answer.models == normalize(fallback.value))
    && (answer.source == Manual ==> answer.models == normalize([]))
  }
}
