/**
 The Redis-backed fixed-window rate limiter.  Buckets are aligned to the clock; the
 store counts a bucket with INCR and drops it when its expiry time has come.  The
 store and the limiter share one clock, and each check happens at one instant.
 */
module RedisRateLimiter {
  import opened RateLimiter

  /** The counter of one key in one bucket. */
  datatype BucketKey = BucketKey(key: Key, bucket: int)

  /** A stored counter and the time at which the store drops it, if one is set. */
  datatype Counter = Counter(count: nat, expiry: Expiry)

  datatype Expiry = Never | At(time: int)

  type Store = map<BucketKey, Counter>

  /** The bucket of time `t`: the k with k * windowMs <= t < (k + 1) * windowMs. */
  function Bucket(cfg: Config, t: int): int
    requires cfg.windowMs > 0
  {
    t / cfg.windowMs
  }

  function BucketStart(cfg: Config, b: int): int {
    b * cfg.windowMs
  }

  lemma BucketBounds(cfg: Config, t: int)
    requires cfg.windowMs > 0
    ensures BucketStart(cfg, Bucket(cfg, t)) <= t < BucketStart(cfg, Bucket(cfg, t)) + cfg.windowMs
  {
  }

  lemma BucketsInOrder(cfg: Config, b: int, c: int)
    requires b < c
    ensures BucketStart(cfg, b) + cfg.windowMs <= BucketStart(cfg, c)
  {
    var w := cfg.windowMs;
    assert 0 <= (c - b - 1) * w by {
      MulNonNegative(c - b - 1, w);
    }
    Distribute(c, b, w);
  }

  lemma MulNonNegative(x: nat, w: nat)
    ensures 0 <= x * w
  {
  }

  lemma Distribute(c: int, b: int, w: int)
    ensures c * w == b * w + w + (c - b - 1) * w
  {
  }

  // ---- one step

  /** A counter is visible until its expiry time. */
  ghost predicate Live(store: Store, k: BucketKey, t: int) {
    k in store && (store[k].expiry.At? ==> store[k].expiry.time > t)
  }

  ghost function CountAfter(cfg: Config, store: Store, key: Key, t: int): nat
    requires cfg.windowMs > 0
  {
    var k := BucketKey(key, Bucket(cfg, t));
    if Live(store, k, t) then store[k].count + 1 else 1
  }

  ghost function CheckStep(cfg: Config, store: Store, key: Key, t: int): Store
    requires cfg.windowMs > 0
  {
    var k := BucketKey(key, Bucket(cfg, t));
    store[k := Counter(CountAfter(cfg, store, key, t),
                       if Live(store, k, t) && store[k].expiry.At? then store[k].expiry else At(t + cfg.windowMs))]
  }

  /** Whole seconds to wait until `resetAt`, at least one. */
  function RetryAfter(resetAt: int, t: int): int {
    if CeilSeconds(resetAt - t) > 1 then CeilSeconds(resetAt - t) else 1
  }

  /** The advice is the least whole seconds until the reset, but at least one. */
  lemma AdviceIs(resetAt: int, t: int)
    ensures var n := RetryAfter(resetAt, t);
            n >= 1 && resetAt <= t + 1000 * n && (n > 1 ==> t + 1000 * (n - 1) < resetAt)
  {
  }

  /** A counter is gone from its expiry time on, and the next request counts as the first. */
  lemma GoneAtExpiry(cfg: Config, store: Store, key: Key, t: int)
    requires cfg.windowMs > 0
    ensures var k := BucketKey(key, Bucket(cfg, t));
            k in store && store[k].expiry.At? ==>
              CountAfter(cfg, store, key, t) == if store[k].expiry.time <= t then 1 else store[k].count + 1
  {
  }

  /** The store the limiter talks to: INCR, PEXPIRE and PTTL with lazy expiry. */
  class Redis {
    var counters: map<BucketKey, nat>
    var expiry: map<BucketKey, int>

    constructor ()
      ensures counters == map[] && expiry == map[]
    {
      counters, expiry := map[], map[];
    }

    /** Drops a counter whose expiry time has come. */
    method Expire(k: BucketKey, t: int)
      modifies this
      ensures if k in old(expiry) && old(expiry)[k] <= t
              then counters == old(counters) - {k} && expiry == old(expiry) - {k}
              else counters == old(counters) && expiry == old(expiry)
    {
      if k in expiry && expiry[k] <= t {
        counters, expiry := counters - {k}, expiry - {k};
      }
    }

    method Incr(k: BucketKey, t: int) returns (count: nat)
      modifies this
      ensures var dead := k in old(expiry) && old(expiry)[k] <= t;
              && count == (if k in old(counters) && !dead then old(counters)[k] + 1 else 1)
              && counters == old(counters)[k := count]
              && expiry == if dead then old(expiry) - {k} else old(expiry)
    {
      Expire(k, t);
      count := if k in counters then counters[k] + 1 else 1;
      counters := counters[k := count];
    }

    method PExpire(k: BucketKey, ms: nat, t: int)
      modifies this
      ensures counters == old(counters)
      ensures expiry == if k in counters then old(expiry)[k := t + ms] else old(expiry)
    {
      if k in counters {
        expiry := expiry[k := t + ms];
      }
    }

    /** Time to live in milliseconds, or -1 without expiry, or -2 without counter. */
    method PTtl(k: BucketKey, t: int) returns (ttl: int)
      ensures ttl == if k !in counters then -2 else if k !in expiry then -1 else expiry[k] - t
    {
      ttl := if k !in counters then -2 else if k !in expiry then -1 else expiry[k] - t;
    }

    /** Every counter has counted something, and only counters have expiry times. */
    ghost predicate Valid()
      reads this
    {
      expiry.Keys <= counters.Keys && forall k :: k in counters ==> counters[k] >= 1
    }

    ghost function Contents(): Store
      requires Valid()
      reads this
    {
      map k | k in counters :: Counter(counters[k], if k in expiry then At(expiry[k]) else Never)
    }
  }

  /** Counts a request in the bucket of time `t`; also says how long the counter lives. */
  method Count(redis: Redis, cfg: Config, key: Key, t: int) returns (count: nat, ttl: int)
    requires redis.Valid() && cfg.windowMs > 0
    modifies redis
    ensures redis.Valid() && redis.Contents() == CheckStep(cfg, old(redis.Contents()), key, t)
    ensures count == CountAfter(cfg, old(redis.Contents()), key, t)
    ensures At(t + ttl) == redis.Contents()[BucketKey(key, Bucket(cfg, t))].expiry
  {
    hide Bucket;
    var k := BucketKey(key, Bucket(cfg, t));
    count := redis.Incr(k, t);
    if count == 1 {
      redis.PExpire(k, cfg.windowMs, t);
    }
    ttl := redis.PTtl(k, t);
    if ttl < 0 {
      ttl := cfg.windowMs;
      redis.PExpire(k, cfg.windowMs, t);
    }
  }

  /** Counts a request in the bucket of time `t` and decides whether it is allowed. */
  method Check(redis: Redis, cfg: Config, key: Key, t: int) returns (d: Decision)
    requires redis.Valid() && cfg.windowMs > 0
    modifies redis
    ensures redis.Valid() && redis.Contents() == CheckStep(cfg, old(redis.Contents()), key, t)
    ensures d.allowed == (CountAfter(cfg, old(redis.Contents()), key, t) <= cfg.max) && d.limit == cfg.max
    ensures d.remaining == var n := CountAfter(cfg, old(redis.Contents()), key, t); if n < cfg.max then cfg.max - n else 0
    ensures At(d.resetAt) == redis.Contents()[BucketKey(key, Bucket(cfg, t))].expiry
    ensures d.retryAfterSec == RetryAfter(d.resetAt, t)
  {
    hide Bucket, CeilSeconds, CountAfter;
    var count, ttl := Count(redis, cfg, key, t);
    var remaining := if cfg.max - count > 0 then cfg.max - count else 0;
    var seconds := CeilSeconds(ttl);
    d := Decision(count <= cfg.max, cfg.max, remaining, t + ttl, if seconds > 1 then seconds else 1);
  }

  // ---- traces

  datatype Request = Hit(key: Key, at: int)

  ghost function Final(cfg: Config, events: seq<Request>): Store
    requires cfg.windowMs > 0
  {
    if events == [] then map[] else
      var e := events[|events| - 1];
      CheckStep(cfg, Final(cfg, events[..|events| - 1]), e.key, e.at)
  }

  ghost function CountAllowed(cfg: Config, events: seq<Request>, key: Key, from: int, to: int): nat
    requires cfg.windowMs > 0
  {
    if events == [] then 0 else
      var (before, e) := (events[..|events| - 1], events[|events| - 1]);
      CountAllowed(cfg, before, key, from, to) +
      if e.key == key && from <= e.at < to && CountAfter(cfg, Final(cfg, before), key, e.at) <= cfg.max then 1 else 0
  }

  /** Counters outlive their bucket, and every counter has counted something. */
  ghost predicate Outlives(cfg: Config, store: Store) {
    forall k :: k in store ==>
      store[k].count >= 1 && store[k].expiry.At? && store[k].expiry.time >= BucketStart(cfg, k.bucket) + cfg.windowMs
  }

  lemma OutlivesStep(cfg: Config, store: Store, key: Key, t: int)
    requires cfg.windowMs > 0 && Outlives(cfg, store)
    ensures Outlives(cfg, CheckStep(cfg, store, key, t))
  {
    hide Bucket, BucketStart;
    BucketBounds(cfg, t);
  }

  lemma {:induction false} OutlivesAlways(cfg: Config, events: seq<Request>)
    requires cfg.windowMs > 0
    ensures Outlives(cfg, Final(cfg, events))
  {
    if events != [] {
      var n := |events| - 1;
      OutlivesAlways(cfg, events[..n]);
      OutlivesStep(cfg, Final(cfg, events[..n]), events[n].key, events[n].at);
    }
  }

  /** A counter never expires while its bucket is current. */
  lemma NeverExpiresWhileCurrent(cfg: Config, events: seq<Request>, key: Key, t: int)
    requires cfg.windowMs > 0
    ensures var k := BucketKey(key, Bucket(cfg, t)); k in Final(cfg, events) ==> Live(Final(cfg, events), k, t)
  {
    hide Bucket, BucketStart, Final;
    OutlivesAlways(cfg, events);
    BucketBounds(cfg, t);
  }

  // ---- how many requests get through

  ghost function Counted(cfg: Config, store: Store, key: Key, b: int): int {
    var k := BucketKey(key, b);
    if k in store then Min(store[k].count, cfg.max) else 0
  }

  /** An interval of one window length meets only the bucket of its start and the next one. */
  lemma TwoBuckets(cfg: Config, from: int, t: int)
    requires cfg.windowMs > 0 && from <= t < from + cfg.windowMs
    ensures Bucket(cfg, t) == Bucket(cfg, from) || Bucket(cfg, t) == Bucket(cfg, from) + 1
  {
    hide Bucket, BucketStart;
    var (b, c) := (Bucket(cfg, from), Bucket(cfg, t));
    BucketBounds(cfg, from);
    BucketBounds(cfg, t);
    if c < b {
      BucketsInOrder(cfg, c, b);
    } else if c > b + 1 {
      BucketsInOrder(cfg, b + 1, c);
      BucketsInOrder(cfg, b, b + 1);
    }
  }

  lemma {:induction false} CountedBound(cfg: Config, events: seq<Request>, key: Key, from: int)
    requires cfg.windowMs > 0
    ensures var b := Bucket(cfg, from); var store := Final(cfg, events);
            CountAllowed(cfg, events, key, from, from + cfg.windowMs) <=
            Counted(cfg, store, key, b) + Counted(cfg, store, key, b + 1)
  {
    hide Bucket, BucketStart;
    if events != [] {
      var n := |events| - 1;
      var (before, e) := (events[..n], events[n]);
      CountedBound(cfg, before, key, from);
      NeverExpiresWhileCurrent(cfg, before, e.key, e.at);
      if e.key == key && from <= e.at < from + cfg.windowMs {
        TwoBuckets(cfg, from, e.at);
      }
    }
  }

  /** An interval of one millisecond meets one bucket of that length. */
  lemma {:induction false} MilliCountedBound(cfg: Config, events: seq<Request>, key: Key, from: int)
    requires cfg.windowMs == 1
    ensures CountAllowed(cfg, events, key, from, from + 1) <= Counted(cfg, Final(cfg, events), key, Bucket(cfg, from))
  {
    hide Bucket, BucketStart;
    if events != [] {
      var n := |events| - 1;
      MilliCountedBound(cfg, events[..n], key, from);
      NeverExpiresWhileCurrent(cfg, events[..n], events[n].key, events[n].at);
    }
  }

  /** The most that an interval of the window's length lets through. */
  function MostAllowed(cfg: Config): nat {
    if cfg.windowMs == 1 then cfg.max else 2 * cfg.max
  }

  /**
   In every trace, any half-open interval of the window's length lets at most 2 * max
   requests of a key through, and at most max if it is one millisecond.
   */
  lemma AtMostTwoBuckets(cfg: Config, events: seq<Request>, key: Key, from: int)
    requires cfg.windowMs > 0
    ensures CountAllowed(cfg, events, key, from, from + cfg.windowMs) <= MostAllowed(cfg)
  {
    hide Final, CountAllowed, Bucket;
    if cfg.windowMs == 1 {
      MilliCountedBound(cfg, events, key, from);
    } else {
      CountedBound(cfg, events, key, from);
    }
  }

  /** Whoever waits as long as advised comes to a new bucket. */
  lemma RetryAfterSuffices(cfg: Config, events: seq<Request>, key: Key, t: int, later: int)
    requires cfg.windowMs > 0
    requires var expiry := CheckStep(cfg, Final(cfg, events), key, t)[BucketKey(key, Bucket(cfg, t))].expiry;
             expiry.At? ==> later >= t + 1000 * RetryAfter(expiry.time, t)
    ensures Bucket(cfg, later) > Bucket(cfg, t)
  {
    hide Bucket, BucketStart, Final;
    OutlivesAlways(cfg, events);
    OutlivesStep(cfg, Final(cfg, events), key, t);
    BucketBounds(cfg, t);
    BucketBounds(cfg, later);
    if Bucket(cfg, later) < Bucket(cfg, t) {
      BucketsInOrder(cfg, Bucket(cfg, later), Bucket(cfg, t));
    }
  }

  // ---- the bound is reached

  function Burst(key: Key, t: int, n: nat): seq<Request> {
    seq(n, i => Hit(key, t))
  }

  lemma Unfold(cfg: Config, before: seq<Request>, e: Request, key: Key, from: int, to: int)
    requires cfg.windowMs > 0
    ensures Final(cfg, before + [e]) == CheckStep(cfg, Final(cfg, before), e.key, e.at)
    ensures CountAllowed(cfg, before + [e], key, from, to) ==
            CountAllowed(cfg, before, key, from, to) +
            if e.key == key && from <= e.at < to && CountAfter(cfg, Final(cfg, before), key, e.at) <= cfg.max then 1 else 0
  {
    assert (before + [e])[..|before|] == before;
  }

  /** A burst in a bucket is let through as long as the bucket has room, and touches no other bucket. */
  lemma {:induction false} BurstAllowed(cfg: Config, events: seq<Request>, key: Key, t: int, n: nat, from: int, to: int)
    requires cfg.windowMs > 0 && from <= t < to
    requires CountAfter(cfg, Final(cfg, events), key, t) + n <= cfg.max + 1
    ensures var after := events + Burst(key, t, n);
            && CountAllowed(cfg, after, key, from, to) == CountAllowed(cfg, events, key, from, to) + n
            && CountAfter(cfg, Final(cfg, after), key, t) == CountAfter(cfg, Final(cfg, events), key, t) + n
            && forall k :: k != BucketKey(key, Bucket(cfg, t)) ==> (k in Final(cfg, after) <==> k in Final(cfg, events))
  {
    hide Final, CountAllowed, Bucket;
    if n == 0 {
      assert events + Burst(key, t, n) == events;
    } else {
      var before := events + Burst(key, t, n - 1);
      BurstAllowed(cfg, events, key, t, n - 1, from, to);
      assert events + Burst(key, t, n) == before + [Hit(key, t)];
      Unfold(cfg, before, Hit(key, t), key, from, to);
      CountsOn(cfg, before, key, t);
    }
  }

  /** A request leaves its counter live, with one more counted. */
  lemma CountsOn(cfg: Config, events: seq<Request>, key: Key, t: int)
    requires cfg.windowMs > 0
    ensures CountAfter(cfg, CheckStep(cfg, Final(cfg, events), key, t), key, t) == CountAfter(cfg, Final(cfg, events), key, t) + 1
  {
    hide Final, Bucket;
  }

  /** The last instant of a bucket and, if the interval is long enough, the first of the next, each with a full burst. */
  function WorstTrace(cfg: Config, key: Key): seq<Request> {
    if cfg.windowMs <= 1 then Burst(key, cfg.windowMs - 1, cfg.max)
    else Burst(key, cfg.windowMs - 1, cfg.max) + Burst(key, cfg.windowMs, cfg.max)
  }

  lemma FirstBuckets(cfg: Config)
    requires cfg.windowMs > 0
    ensures Bucket(cfg, cfg.windowMs - 1) == 0 && Bucket(cfg, cfg.windowMs) == 1
  {
  }

  lemma FreshBucket(cfg: Config, store: Store, key: Key, t: int)
    requires cfg.windowMs > 0 && BucketKey(key, Bucket(cfg, t)) !in store
    ensures CountAfter(cfg, store, key, t) == 1
  {
  }

  lemma FirstBurst(cfg: Config, key: Key, from: int, to: int)
    requires cfg.windowMs > 0 && from <= cfg.windowMs - 1 < to
    ensures var first := Burst(key, cfg.windowMs - 1, cfg.max);
            CountAllowed(cfg, first, key, from, to) == cfg.max && BucketKey(key, 1) !in Final(cfg, first)
  {
    hide Bucket, Burst, CountAfter;
    FirstBuckets(cfg);
    FreshBucket(cfg, map[], key, cfg.windowMs - 1);
    BurstAllowed(cfg, [], key, cfg.windowMs - 1, cfg.max, from, to);
    assert [] + Burst(key, cfg.windowMs - 1, cfg.max) == Burst(key, cfg.windowMs - 1, cfg.max);
  }

  /** For every limiter there is a trace that reaches the bound. */
  lemma BoundIsReached(cfg: Config, key: Key)
    requires cfg.windowMs > 0
    ensures var from := cfg.windowMs - 1;
            CountAllowed(cfg, WorstTrace(cfg, key), key, from, from + cfg.windowMs) == MostAllowed(cfg)
  {
    hide Bucket, Burst, CountAfter, CountAllowed, Final;
    var w := cfg.windowMs;
    var first := Burst(key, w - 1, cfg.max);
    FirstBuckets(cfg);
    FirstBurst(cfg, key, w - 1, w - 1 + w);
    if w > 1 {
      FreshBucket(cfg, Final(cfg, first), key, w);
      BurstAllowed(cfg, first, key, w, cfg.max, w - 1, w - 1 + w);
    }
  }
}
