/**
 * One fixed-window policy, twice: in memory (src/admin/rateLimiter.ts) and over Redis
 * (src/redisFixedWindowLimiter.ts).
 */
module RateLimiters {
  import opened Prelude

  datatype RateLimitResult = RateLimitResult(allowed: bool, retryAfterSeconds: int)

  datatype Policy = Policy(max: int, windowMs: int)

  datatype Bucket = Bucket(count: int, windowStartMs: int)

  function Max(a: int, b: int): int { if a > b then a else b }

  /** `Math.ceil(ms / 1000)` for any integer. */
  function CeilSeconds(ms: int): int { -((-ms) / 1000) }

  const ALLOWED := RateLimitResult(true, 0)

  // ---------------------------------------------------------------- in memory, one key

  predicate Live(p: Policy, b: Option<Bucket>, now: int) {
    b.Some? && now - b.value.windowStartMs < p.windowMs
  }

  function RetryAfter(p: Policy, b: Bucket, now: int): int {
    Max(1, CeilSeconds(b.windowStartMs + p.windowMs - now))
  }

  /** One try against the bucket of a key. */
  function ConsumeBucket(p: Policy, b: Option<Bucket>, now: int): (Option<Bucket>, RateLimitResult) {
    if !Live(p, b, now) then (Some(Bucket(1, now)), ALLOWED)
    else if b.value.count >= p.max then (b, RateLimitResult(false, RetryAfter(p, b.value, now)))
    else (Some(b.value.(count := b.value.count + 1)), ALLOWED)
  }

  class InMemoryLoginRateLimiter {
    const policy: Policy
    var buckets: map<string, Bucket>

    constructor (policy: Policy)
      ensures this.policy == policy && buckets == map[]
    {
      this.policy := policy;
      buckets := map[];
    }

    ghost function BucketOf(key: string): Option<Bucket>
      reads this
    {
      if key in buckets then Some(buckets[key]) else None
    }

    method Consume(key: string, now: int) returns (r: RateLimitResult)
      modifies this
      ensures (BucketOf(key), r) == ConsumeBucket(policy, old(BucketOf(key)), now)
      ensures forall k :: k != key ==> BucketOf(k) == old(BucketOf(k))
    {
      if key !in buckets || now - buckets[key].windowStartMs >= policy.windowMs {
        buckets := buckets[key := Bucket(1, now)];
        return RateLimitResult(true, 0);
      }
      var bucket := buckets[key];
      if bucket.count >= policy.max {
        var retryAfterSeconds := Max(1, CeilSeconds(bucket.windowStartMs + policy.windowMs - now));
        return RateLimitResult(false, retryAfterSeconds);
      }
      buckets := buckets[key := bucket.(count := bucket.count + 1)];
      return RateLimitResult(true, 0);
    }

    method Reset(key: string)
      modifies this
      ensures BucketOf(key) == None
      ensures forall k :: k != key ==> BucketOf(k) == old(BucketOf(k))
    {
      buckets := buckets - {key};
    }
  }

  // ---------------------------------------------------------------- over Redis, one key

  /** A stored counter and the moment it is gone, if one was set. */
  datatype Stored = Stored(count: int, goneAt: Option<int>)

  /** What the server still holds of a key: nothing from the moment its time to live has run out. */
  function Held(e: Option<Stored>, now: int): Option<Stored> {
    if e.Some? && e.value.goneAt.Some? && e.value.goneAt.value <= now then None else e
  }

  function Incr(e: Option<Stored>): Stored {
    if e.None? then Stored(1, None) else e.value.(count := e.value.count + 1)
  }

  function PexpireNx(e: Stored, now: int, windowMs: int): Stored {
    if e.goneAt.None? then e.(goneAt := Some(now + windowMs)) else e
  }

  /** Remaining time, -1 without a time to live, -2 without the key. */
  function Pttl(e: Option<Stored>, now: int): int {
    if Held(e, now).None? then -2
    else if e.value.goneAt.None? then -1
    else e.value.goneAt.value - now
  }

  function RedisConsume(p: Policy, e: Option<Stored>, now: int): (Option<Stored>, RateLimitResult) {
    var stored := PexpireNx(Incr(Held(e, now)), now, p.windowMs);
    if stored.count > p.max then
      var ttl := Pttl(Some(stored), now);
      (Some(stored), RateLimitResult(false, Max(1, CeilSeconds(if ttl > 0 then ttl else p.windowMs))))
    else (Some(stored), ALLOWED)
  }

  /** An ideal server: a keyed counter with an expiry, each command acting at once. */
  class IdealRedis {
    var store: map<string, Stored>

    constructor ()
      ensures store == map[]
    {
      store := map[];
    }

    ghost function At(key: string): Option<Stored>
      reads this
    {
      if key in store then Some(store[key]) else None
    }

    /** MULTI: INCR key, PEXPIRE key windowMs NX, EXEC. */
    method IncrAndExpire(key: string, windowMs: int, now: int) returns (count: int)
      modifies this
      ensures At(key) == Some(PexpireNx(Incr(Held(old(At(key)), now)), now, windowMs)) && count == At(key).value.count
      ensures forall k :: k != key ==> At(k) == old(At(k))
    {
      if key in store && store[key].goneAt.Some? && store[key].goneAt.value <= now { store := store - {key}; }
      count := if key in store then store[key].count + 1 else 1;
      store := store[key := Stored(count, if key in store then store[key].goneAt else None)];
      if store[key].goneAt.None? { store := store[key := store[key].(goneAt := Some(now + windowMs))]; }
    }

    method PttlOf(key: string, now: int) returns (ttl: int)
      ensures ttl == Pttl(At(key), now)
    {
      if key !in store || (store[key].goneAt.Some? && store[key].goneAt.value <= now) { return -2; }
      if store[key].goneAt.None? { return -1; }
      return store[key].goneAt.value - now;
    }

    method Del(key: string)
      modifies this
      ensures At(key) == None
      ensures forall k :: k != key ==> At(k) == old(At(k))
    {
      store := store - {key};
    }
  }

  class RedisFixedWindowLimiter {
    const redis: IdealRedis
    const keyPrefix: string
    const policy: Policy

    constructor (redis: IdealRedis, keyPrefix: string, policy: Policy)
      ensures this.redis == redis && this.keyPrefix == keyPrefix && this.policy == policy
    {
      this.redis := redis;
      this.keyPrefix := keyPrefix;
      this.policy := policy;
    }

    function BuildKey(key: string): string { keyPrefix + ":" + key }

    method Consume(key: string, now: int) returns (r: RateLimitResult)
      modifies redis
      ensures (redis.At(BuildKey(key)), r) == RedisConsume(policy, old(redis.At(BuildKey(key))), now)
      ensures forall k :: k != BuildKey(key) ==> redis.At(k) == old(redis.At(k))
    {
      var redisKey := BuildKey(key);
      var count := redis.IncrAndExpire(redisKey, policy.windowMs, now);
      if count > policy.max {
        var ttlMs := redis.PttlOf(redisKey, now);
        var retryAfterSeconds := Max(1, CeilSeconds(if ttlMs > 0 then ttlMs else policy.windowMs));
        return RateLimitResult(false, retryAfterSeconds);
      }
      return RateLimitResult(true, 0);
    }

    method Reset(key: string)
      modifies redis
      ensures redis.At(BuildKey(key)) == None
      ensures forall k :: k != BuildKey(key) ==> redis.At(k) == old(redis.At(k))
    {
      redis.Del(BuildKey(key));
    }
  }

  // ---------------------------------------------------------------- timed runs over any keys

  datatype Event = Try(key: string, at: int) | Clear(key: string, at: int)

  predicate InOrder(events: seq<Event>) {
    forall i, j :: 0 <= i < j < |events| ==> events[i].at <= events[j].at
  }

  function Get<T>(m: map<string, T>, key: string): Option<T> { if key in m then Some(m[key]) else None }

  /** The replies of the in-memory limiter to a run of events. */
  function MemoryRun(p: Policy, buckets: map<string, Bucket>, events: seq<Event>): seq<RateLimitResult>
    decreases |events|
  {
    if events == [] then []
    else match events[0]
      case Try(key, at) =>
        var (b, r) := ConsumeBucket(p, Get(buckets, key), at);
        [r] + MemoryRun(p, buckets[key := b.value], events[1..])
      case Clear(key, _) => MemoryRun(p, buckets - {key}, events[1..])
  }

  /** The replies of the Redis limiter to the same events. */
  function RedisRun(p: Policy, store: map<string, Stored>, events: seq<Event>): seq<RateLimitResult>
    decreases |events|
  {
    if events == [] then []
    else match events[0]
      case Try(key, at) =>
        var (e, r) := RedisConsume(p, Get(store, key), at);
        [r] + RedisRun(p, store[key := e.value], events[1..])
      case Clear(key, _) => RedisRun(p, store - {key}, events[1..])
  }

  /** Both hold the same live window at a time; of the counts only what is below the maximum has to agree. */
  predicate Match(p: Policy, b: Option<Bucket>, e: Option<Stored>, now: int) {
    && (Live(p, b, now) <==> Held(e, now).Some?)
    && (Live(p, b, now) ==>
          && e.value.goneAt == Some(b.value.windowStartMs + p.windowMs)
          && 1 <= b.value.count <= p.max && b.value.count <= e.value.count
          && (e.value.count <= p.max ==> b.value.count == e.value.count)
          && (e.value.count > p.max ==> b.value.count == p.max))
  }

  lemma MatchLasts(p: Policy, b: Option<Bucket>, e: Option<Stored>, now: int, later: int)
    requires now <= later && Match(p, b, e, now)
    ensures Match(p, b, e, later)
  {
  }

  lemma ConsumeMatches(p: Policy, b: Option<Bucket>, e: Option<Stored>, now: int)
    requires p.max >= 1 && Match(p, b, e, now)
    ensures ConsumeBucket(p, b, now).1 == RedisConsume(p, e, now).1
    ensures Match(p, ConsumeBucket(p, b, now).0, RedisConsume(p, e, now).0, now)
  {
  }

  lemma {:induction false} RunsAgree(
      p: Policy, buckets: map<string, Bucket>, store: map<string, Stored>, events: seq<Event>, now: int)
    requires p.max >= 1 && InOrder(events) && (events != [] ==> now <= events[0].at)
    requires forall k: string :: Match(p, Get(buckets, k), Get(store, k), now)
    ensures MemoryRun(p, buckets, events) == RedisRun(p, store, events)
    decreases |events|
  {
    if events != [] {
      var at := events[0].at;
      var key := events[0].key;
      forall k: string ensures Match(p, Get(buckets, k), Get(store, k), at) {
        MatchLasts(p, Get(buckets, k), Get(store, k), now, at);
      }
      if events[0].Try? {
        ConsumeMatches(p, Get(buckets, key), Get(store, key), at);
        var b := ConsumeBucket(p, Get(buckets, key), at).0.value;
        var e := RedisConsume(p, Get(store, key), at).0.value;
        var nextBuckets, nextStore := buckets[key := b], store[key := e];
        forall k: string ensures Match(p, Get(nextBuckets, k), Get(nextStore, k), at) {
          assert Match(p, Get(buckets, k), Get(store, k), at);
        }
        RunsAgree(p, nextBuckets, nextStore, events[1..], at);
      } else {
        var nextBuckets, nextStore := buckets - {key}, store - {key};
        forall k: string ensures Match(p, Get(nextBuckets, k), Get(nextStore, k), at) {
          assert Match(p, Get(buckets, k), Get(store, k), at);
        }
        RunsAgree(p, nextBuckets, nextStore, events[1..], at);
      }
    }
  }

  /**
   * With a maximum of at least one, both limiters answer every timed run alike, although only one of them counts
   * refused tries.
   */
  lemma LimitersAgree(p: Policy, events: seq<Event>)
    requires p.max >= 1 && InOrder(events)
    ensures MemoryRun(p, map[], events) == RedisRun(p, map[], events)
  {
    if events != [] { RunsAgree(p, map[], map[], events, events[0].at); }
  }

  /** Exactly then: below one, the very first try already tells them apart. */
  lemma LimitersAgreeExactlyWhen(p: Policy)
    ensures (forall events :: InOrder(events) ==> MemoryRun(p, map[], events) == RedisRun(p, map[], events)) <==>
      p.max >= 1
  {
    if p.max >= 1 {
      forall events | InOrder(events) ensures MemoryRun(p, map[], events) == RedisRun(p, map[], events) {
        LimitersAgree(p, events);
      }
    } else {
      var events := [Try("", 0)];
      assert InOrder(events);
      assert MemoryRun(p, map[], events)[0].allowed;
      assert !RedisRun(p, map[], events)[0].allowed;
    }
  }

  // ---------------------------------------------------------------- how many tries get through

  predicate BucketOk(p: Policy, b: Option<Bucket>) { b.Some? ==> 1 <= b.value.count <= p.max }

  /** Allowed tries at times from `lo` up to but not including `hi`, of a run of tries of one key. */
  function AllowedWithin(p: Policy, b: Option<Bucket>, times: seq<int>, lo: int, hi: int): nat
    decreases |times|
  {
    if times == [] then 0
    else
      var (c, r) := ConsumeBucket(p, b, times[0]);
      (if r.allowed && lo <= times[0] < hi then 1 else 0) + AllowedWithin(p, c, times[1..], lo, hi)
  }

  predicate Ascending(times: seq<int>) { forall i, j :: 0 <= i < j < |times| ==> times[i] <= times[j] }

  /** One bucket never lets more than the maximum through. */
  lemma {:induction false} OneBucket(p: Policy, b: Bucket, times: seq<int>, lo: int, hi: int)
    requires p.max >= 1 && 1 <= b.count <= p.max && Ascending(times)
    requires hi <= b.windowStartMs + p.windowMs
    ensures AllowedWithin(p, Some(b), times, lo, hi) <= p.max - b.count
    decreases |times|
  {
    if times != [] {
      if times[0] < hi {
        var (c, r) := ConsumeBucket(p, Some(b), times[0]);
        OneBucket(p, c.value, times[1..], lo, hi);
      } else {
        NoneAfter(p, Some(b), times, lo, hi);
      }
    }
  }

  lemma {:induction false} NoneAfter(p: Policy, b: Option<Bucket>, times: seq<int>, lo: int, hi: int)
    requires Ascending(times) && (times != [] ==> hi <= times[0])
    ensures AllowedWithin(p, b, times, lo, hi) == 0
    decreases |times|
  {
    if times != [] { NoneAfter(p, ConsumeBucket(p, b, times[0]).0, times[1..], lo, hi); }
  }

  /** What is left of a bucket at a time. */
  function Left(p: Policy, b: Option<Bucket>, now: int): int {
    if Live(p, b, now) then p.max - b.value.count else 0
  }

  /** A window-long interval touches at most the rest of one bucket and one new bucket. */
  lemma {:induction false} RestAndOneMore(p: Policy, b: Option<Bucket>, times: seq<int>, lo: int, hi: int)
    requires p.max >= 1 && BucketOk(p, b) && Ascending(times) && hi <= lo + p.windowMs
    requires times != [] ==> lo <= times[0]
    ensures AllowedWithin(p, b, times, lo, hi) <= Left(p, b, lo) + p.max
    decreases |times|
  {
    if times != [] {
      var at := times[0];
      var (c, r) := ConsumeBucket(p, b, at);
      if at >= hi {
        NoneAfter(p, b, times, lo, hi);
      } else if !Live(p, b, at) {
        OneBucket(p, c.value, times[1..], lo, hi);
      } else {
        RestAndOneMore(p, c, times[1..], lo, hi);
      }
    }
  }

  /** Between resets, no interval as long as the window lets twice the maximum through, wherever it starts. */
  lemma {:induction false} BelowTwiceTheMaximum(p: Policy, b: Option<Bucket>, times: seq<int>, lo: int)
    requires p.max >= 1 && BucketOk(p, b) && Ascending(times)
    ensures AllowedWithin(p, b, times, lo, lo + p.windowMs) <= 2 * p.max - 1
    decreases |times|
  {
    if times != [] {
      if times[0] < lo {
        BelowTwiceTheMaximum(p, ConsumeBucket(p, b, times[0]).0, times[1..], lo);
      } else {
        RestAndOneMore(p, b, times, lo, lo + p.windowMs);
      }
    }
  }

  /** Allowed tries of one key among a whole run, at times from `lo` up to but not including `hi`. */
  function AllowedOfKey(p: Policy, buckets: map<string, Bucket>, events: seq<Event>, key: string, lo: int, hi: int): nat
    decreases |events|
  {
    if events == [] then 0
    else match events[0]
      case Try(k, at) =>
        var (b, r) := ConsumeBucket(p, Get(buckets, k), at);
        (if k == key && r.allowed && lo <= at < hi then 1 else 0)
          + AllowedOfKey(p, buckets[k := b.value], events[1..], key, lo, hi)
      case Clear(k, _) => AllowedOfKey(p, buckets - {k}, events[1..], key, lo, hi)
  }

  function TimesOf(events: seq<Event>, key: string): (times: seq<int>)
    ensures forall t :: t in times ==> exists e :: e in events && e.at == t
    decreases |events|
  {
    if events == [] then []
    else
      assert forall e :: e in events[1..] ==> e in events;
      assert events[0] in events;
      if events[0].Try? && events[0].key == key then [events[0].at] + TimesOf(events[1..], key)
      else TimesOf(events[1..], key)
  }

  lemma {:induction false} TimesAscend(events: seq<Event>, key: string)
    requires InOrder(events)
    ensures Ascending(TimesOf(events, key))
    decreases |events|
  {
    if events != [] {
      TimesAscend(events[1..], key);
      var rest := TimesOf(events[1..], key);
      forall j | 0 <= j < |rest| ensures events[0].at <= rest[j] {
        assert rest[j] in rest;
        var e :| e in events[1..] && e.at == rest[j];
        var i :| 0 <= i < |events[1..]| && events[1..][i] == e;
        assert events[i + 1] == e;
      }
    }
  }

  lemma {:induction false} OtherKeysDoNotMatter(
      p: Policy, buckets: map<string, Bucket>, events: seq<Event>, key: string, lo: int, hi: int)
    requires forall e :: e in events ==> !(e.Clear? && e.key == key)
    ensures AllowedOfKey(p, buckets, events, key, lo, hi) ==
      AllowedWithin(p, Get(buckets, key), TimesOf(events, key), lo, hi)
    decreases |events|
  {
    if events != [] {
      assert events[0] in events;
      var k := events[0].key;
      if events[0].Try? {
        var (b, r) := ConsumeBucket(p, Get(buckets, k), events[0].at);
        OtherKeysDoNotMatter(p, buckets[k := b.value], events[1..], key, lo, hi);
      } else {
        OtherKeysDoNotMatter(p, buckets - {k}, events[1..], key, lo, hi);
      }
    }
  }

  /**
   * In any run over any keys without a reset of this one, a window-long interval lets fewer than twice the maximum
   * through.
   */
  lemma BelowTwiceTheMaximumInEveryRun(
      p: Policy, buckets: map<string, Bucket>, events: seq<Event>, key: string, lo: int)
    requires p.max >= 1 && InOrder(events) && BucketOk(p, Get(buckets, key))
    requires forall e :: e in events ==> !(e.Clear? && e.key == key)
    ensures AllowedOfKey(p, buckets, events, key, lo, lo + p.windowMs) < 2 * p.max
  {
    OtherKeysDoNotMatter(p, buckets, events, key, lo, lo + p.windowMs);
    TimesAscend(events, key);
    BelowTwiceTheMaximum(p, Get(buckets, key), TimesOf(events, key), lo);
  }

  function Repeat(t: int, n: nat): seq<int> { seq(n, _ => t) }

  lemma {:induction false} RepeatsGetThrough(p: Policy, b: Bucket, t: int, n: nat, rest: seq<int>, lo: int, hi: int)
    requires Live(p, Some(b), t) && b.count + n <= p.max && lo <= t < hi
    ensures AllowedWithin(p, Some(b), Repeat(t, n) + rest, lo, hi) ==
      n + AllowedWithin(p, Some(b.(count := b.count + n)), rest, lo, hi)
    decreases n
  {
    if n == 0 {
      assert Repeat(t, 0) + rest == rest;
    } else {
      assert (Repeat(t, n) + rest)[0] == t && (Repeat(t, n) + rest)[1..] == Repeat(t, n - 1) + rest;
      RepeatsGetThrough(p, b.(count := b.count + 1), t, n - 1, rest, lo, hi);
    }
  }

  /** The bound is met for every policy: the rest of one bucket just before its end, and all of the next one. */
  lemma {:induction false} TheBoundIsMet(p: Policy)
    requires p.max >= 1 && p.windowMs >= 2
    ensures var w := p.windowMs;
      var times := [0] + (Repeat(w - 1, p.max - 1) + ([w] + (Repeat(w, p.max - 1) + [])));
      Ascending(times) && AllowedWithin(p, None, times, w - 1, w - 1 + w) == 2 * p.max - 1
  {
    var w, n := p.windowMs, p.max - 1;
    var second := [w] + (Repeat(w, n) + []);
    var first := Repeat(w - 1, n) + second;
    assert ([0] + first)[1..] == first;
    RepeatsGetThrough(p, Bucket(1, 0), w - 1, n, second, w - 1, w - 1 + w);
    NextBucketFills(p);
  }

  lemma NextBucketFills(p: Policy)
    requires p.max >= 1 && p.windowMs >= 2
    ensures var w := p.windowMs;
      AllowedWithin(p, Some(Bucket(p.max, 0)), [w] + (Repeat(w, p.max - 1) + []), w - 1, w - 1 + w) == p.max
  {
    var w, n := p.windowMs, p.max - 1;
    assert ([w] + (Repeat(w, n) + []))[1..] == Repeat(w, n) + [];
    RepeatsGetThrough(p, Bucket(1, w), w, n, [], w - 1, w - 1 + w);
  }

  /**
   * Waiting the stated time, with no other tries of the key, gets through, and overshoots the end of the bucket by
   * under a second.
   */
  lemma WaitingIsEnough(p: Policy, b: Option<Bucket>, now: int, later: int)
    requires !ConsumeBucket(p, b, now).1.allowed
    requires later >= now + 1000 * ConsumeBucket(p, b, now).1.retryAfterSeconds
    ensures ConsumeBucket(p, b, now).0 == b && ConsumeBucket(p, b, later).1.allowed
    ensures var wait := 1000 * ConsumeBucket(p, b, now).1.retryAfterSeconds;
      b.value.windowStartMs + p.windowMs <= now + wait < b.value.windowStartMs + p.windowMs + 1000
  {
  }
}
