/**
 * Fixed-window rate limiting: the shared Redis counter, the per-replica fallback and the failover
 * between them. Clocks are milliseconds since the epoch; `clock` is what the replica's
 * Instant.now() reads and `now` is the Redis server's own time.
 */
module RateLimiter {
  import opened Strings

  const MILLIS: nat := 1000

  function WindowSeconds(window: int): (w: nat)
    ensures w >= 1
  {
    if window < 1 then 1 else window
  }

  /** One counter: a caller's key in one aligned window. */
  datatype Slot = Slot(key: string, bucket: nat)

  function SlotAt(key: string, window: int, clock: nat): Slot {
    Slot(key, clock / MILLIS / WindowSeconds(window))
  }

  function LocalKey(slot: Slot): string {
    slot.key + [':'] + Decimal(slot.bucket)
  }

  function RedisKey(slot: Slot): string {
    "ratelimit:" + LocalKey(slot)
  }

  /** Distinct slots never share a counter, whatever characters the caller's key contains. */
  lemma KeysAreInjective(a: Slot, b: Slot)
    ensures LocalKey(a) == LocalKey(b) ==> a == b
    ensures RedisKey(a) == RedisKey(b) ==> a == b
  {
    if RedisKey(a) == RedisKey(b) {
      assert LocalKey(a) == RedisKey(a)[10..] == RedisKey(b)[10..] == LocalKey(b);
    }
    if LocalKey(a) == LocalKey(b) {
      SeparatedNamesAreInjective(a.key, a.bucket, b.key, b.bucket, ':');
    }
  }

  // ---- Counters as values -----------------------------------------------------------------

  type Buckets = map<string, nat>

  function Tally(buckets: Buckets, k: string): nat {
    if k in buckets then buckets[k] else 0
  }

  function LocalIncrement(buckets: Buckets, slot: Slot): (Buckets, nat) {
    var count := Tally(buckets, LocalKey(slot)) + 1;
    (buckets[LocalKey(slot) := count], count)
  }

  datatype Counter = Counter(count: nat, expiresAt: nat)
  type RedisKeys = map<string, Counter>

  /** The value Redis sees under k: a key is gone once its deadline has passed. */
  function LiveCount(keys: RedisKeys, k: string, now: nat): nat {
    if k in keys && now <= keys[k].expiresAt then keys[k].count else 0
  }

  /** The Lua script: INCR, and EXPIRE only when the counter was just created. */
  function IncrWithTtl(keys: RedisKeys, k: string, ttlSeconds: nat, now: nat): (RedisKeys, nat) {
    var count := LiveCount(keys, k, now) + 1;
    var expiresAt := if count == 1 then now + MILLIS * ttlSeconds else keys[k].expiresAt;
    (keys[k := Counter(count, expiresAt)], count)
  }

  /** What became of the request to Redis: an error may strike before or after the increment. */
  datatype Reply = Answered | Refused | Lost

  datatype RateLimitResult = RateLimitResult(allowed: bool, count: nat, limit: int, remaining: nat)

  function Judge(count: nat, limit: int): RateLimitResult {
    RateLimitResult(count <= limit, count, limit, if limit - count > 0 then limit - count else 0)
  }

  // ---- The backends -----------------------------------------------------------------------

  class Redis {
    var keys: RedisKeys

    constructor ()
      ensures keys == map[]
    {
      keys := map[];
    }
  }

  class LocalRateLimiterBackend {
    var buckets: Buckets

    constructor ()
      ensures buckets == map[]
    {
      buckets := map[];
    }

    method IncrementAndGet(key: string, window: int, clock: nat) returns (count: nat)
      modifies this
      ensures (buckets, count) == LocalIncrement(old(buckets), SlotAt(key, window, clock))
    {
      var windowSeconds := WindowSeconds(window);
      var bucket := clock / MILLIS / windowSeconds;
      var bucketKey := key + [':'] + Decimal(bucket);
      if bucketKey !in buckets {
        buckets := buckets[bucketKey := 0];
      }
      buckets := buckets[bucketKey := buckets[bucketKey] + 1];
      count := buckets[bucketKey];
      assert buckets == old(buckets)[bucketKey := count];
    }
  }

  class RedisRateLimiterBackend {
    const redis: Redis

    constructor (redis: Redis)
      ensures this.redis == redis
    {
      this.redis := redis;
    }

    /** `failed` stands for the exception; the count is meaningful only without it. */
    method IncrementAndGet(key: string, window: int, clock: nat, now: nat, reply: Reply)
      returns (failed: bool, count: nat)
      modifies redis
      ensures failed <==> reply != Answered
      ensures reply == Refused ==> redis.keys == old(redis.keys)
      ensures reply != Refused ==>
        var slot := SlotAt(key, window, clock);
        (redis.keys, count) == IncrWithTtl(old(redis.keys), RedisKey(slot), 2 * WindowSeconds(window), now)
    {
      var windowSeconds := WindowSeconds(window);
      var redisKey := RedisKey(Slot(key, clock / MILLIS / windowSeconds));
      failed, count := reply != Answered, 0;
      if reply != Refused {
        if redisKey in redis.keys && redis.keys[redisKey].expiresAt < now {
          redis.keys := redis.keys - {redisKey};
        }
        count := 1 + if redisKey in redis.keys then redis.keys[redisKey].count else 0;
        var expiresAt := if count == 1 then now + MILLIS * (windowSeconds * 2) else redis.keys[redisKey].expiresAt;
        redis.keys := redis.keys[redisKey := Counter(count, expiresAt)];
        assert redis.keys == old(redis.keys)[redisKey := Counter(count, expiresAt)];
      }
    }
  }

  class FailoverRateLimiterBackend {
    const primary: RedisRateLimiterBackend
    const localBackend: LocalRateLimiterBackend
    var usingFallback: bool

    constructor (primary: RedisRateLimiterBackend)
      ensures this.primary == primary && fresh(localBackend) && localBackend.buckets == map[] && !usingFallback
    {
      this.primary := primary;
      localBackend := new LocalRateLimiterBackend();
      usingFallback := false;
    }

    method IncrementAndGet(key: string, window: int, clock: nat, now: nat, reply: Reply) returns (count: nat)
      modifies this, primary.redis, localBackend
      ensures (primary.redis.keys, localBackend.buckets, count) ==
        Failover(old(primary.redis.keys), old(localBackend.buckets), key, window, clock, now, reply)
      ensures usingFallback <==> reply != Answered
    {
      var failed;
      failed, count := primary.IncrementAndGet(key, window, clock, now, reply);
      if failed {
        usingFallback := true;
        count := localBackend.IncrementAndGet(key, window, clock);
      } else {
        usingFallback := false;
      }
    }
  }

  function Failover(keys: RedisKeys, buckets: Buckets, key: string, window: int, clock: nat, now: nat, reply: Reply)
    : (RedisKeys, Buckets, nat)
  {
    var slot := SlotAt(key, window, clock);
    var (keys', shared) :=
      if reply == Refused then (keys, 0) else IncrWithTtl(keys, RedisKey(slot), 2 * WindowSeconds(window), now);
    if reply == Answered then
      (keys', buckets, shared)
    else
      var (buckets', count) := LocalIncrement(buckets, slot);
      (keys', buckets', count)
  }

  class RateLimiterService {
    const backend: FailoverRateLimiterBackend

    constructor (backend: FailoverRateLimiterBackend)
      ensures this.backend == backend
    {
      this.backend := backend;
    }

    method TryAcquire(key: string, limit: int, window: int, clock: nat, now: nat, reply: Reply)
      returns (result: RateLimitResult)
      modifies backend, backend.primary.redis, backend.localBackend
      ensures
        var (keys, buckets, count) := Failover(old(backend.primary.redis.keys), old(backend.localBackend.buckets),
                                               key, window, clock, now, reply);
        && backend.primary.redis.keys == keys
        && backend.localBackend.buckets == buckets
        && result == Judge(count, limit)
        && result.count == count && result.limit == limit && (result.allowed <==> count <= limit)
    {
      var count := backend.IncrementAndGet(key, window, clock, now, reply);
      var allowed := count <= limit;
      var remaining := if 0 < limit - count then limit - count else 0;
      result := RateLimitResult(allowed, count, limit, remaining);
    }
  }
}
