/** The token bucket limiter (src/rate_limit.rs): machine arithmetic, nested floor
    divisions, and buckets of idle keys pruned on any key's call. */
module RateLimit {
  import opened Base

  datatype Bucket = Bucket(tokens: u32, lastRefill: Time, lastSeen: Time)

  datatype LimiterParams = LimiterParams(capacity: u32, refill: u32, interval: Duration)

  /** One call of `allow`. */
  datatype Call<K> = Call(key: K, time: Time)

  function Saturate(x: nat): u32 {
    if x <= U32_MAX then x else U32_MAX
  }

  function Min(a: u32, b: u32): u32 {
    if a <= b then a else b
  }

  function Max(a: nat, b: nat): nat {
    if a <= b then b else a
  }

  /** `Duration::as_secs`. */
  function WholeSeconds(d: Duration): nat {
    d / SECOND
  }

  /** `idle_ttl`: twice the interval, or the longest duration if that overflows. */
  function IdleTtl(p: LimiterParams): Duration {
    if 2 * p.interval <= DURATION_MAX then 2 * p.interval else DURATION_MAX
  }

  /** The refill as the code computes it: whole intervals of whole seconds, then
      saturating 32-bit arithmetic, then the cap. */
  function RefilledTokens(p: LimiterParams, tokens: u32, elapsed: Duration): u32 {
    var intervals := WholeSeconds(elapsed) / Max(WholeSeconds(p.interval), 1);
    var add := Saturate(p.refill * Saturate(intervals));
    Min(p.capacity, Saturate(tokens + add))
  }

  function Least(a: int, b: int): int {
    if a <= b then a else b
  }

  lemma {:induction false} SaturatedProduct(a: u32, n: nat)
    ensures Saturate(a * Saturate(n)) == Saturate(a * n)
  {
    if n > U32_MAX && a >= 1 {
      assert a * n >= n;
      assert a * U32_MAX >= U32_MAX;
    }
  }

  /** The intervals that have passed, in whole seconds; an interval below one second counts as one. */
  function Passed(p: LimiterParams, elapsed: Duration): nat {
    (elapsed / SECOND) / (if p.interval < SECOND then 1 else p.interval / SECOND)
  }

  /** The saturating 32-bit refill is the ideal one over unbounded integers: so many times
      the refill as there are whole intervals of whole seconds, up to the capacity. */
  lemma {:induction false} RefillIdeal(p: LimiterParams, tokens: u32, elapsed: Duration)
    ensures RefilledTokens(p, tokens, elapsed) == Least(p.capacity, tokens + p.refill * Passed(p, elapsed))
  {
    SaturatedProduct(p.refill, Passed(p, elapsed));
    assert p.refill * Passed(p, elapsed) >= 0;
  }

  function FullBucket(p: LimiterParams, now: Time): Bucket {
    Bucket(p.capacity, now, now)
  }

  function Refresh(p: LimiterParams, b: Bucket, now: Time): Bucket {
    var elapsed := Since(now, b.lastRefill);
    if elapsed >= p.interval then Bucket(RefilledTokens(p, b.tokens, elapsed), now, now)
    else b.(lastSeen := now)
  }

  /** What a call answers, and the bucket it leaves. */
  datatype Answer = Answer(granted: bool, bucket: Bucket)

  function Take(b: Bucket): Answer {
    if b.tokens == 0 then Answer(false, b) else Answer(true, b.(tokens := b.tokens - 1))
  }

  /** One call on a key whose bucket is `b`, if it has one. */
  function KeyStep(p: LimiterParams, b: Option<Bucket>, now: Time): Answer {
    Take(Refresh(p, if b.Some? then b.value else FullBucket(p, now), now))
  }

  /** Idle time after which a bucket is dropped; `None` for a limiter that never prunes. */
  type Ttl = Option<Duration>

  predicate Kept(ttl: Ttl, b: Bucket, now: Time) {
    ttl.Some? ==> Since(now, b.lastSeen) < ttl.value
  }

  function Pruned<K>(ttl: Ttl, m: map<K, Bucket>, now: Time): map<K, Bucket> {
    map k | k in m && Kept(ttl, m[k], now) :: m[k]
  }

  function AllowStep<K>(p: LimiterParams, ttl: Ttl, m: map<K, Bucket>, c: Call<K>): Answer {
    KeyStep(p, Lookup(Pruned(ttl, m, c.time), c.key), c.time)
  }

  /** The buckets after a whole run of calls, starting from none. */
  function Buckets<K>(p: LimiterParams, ttl: Ttl, calls: seq<Call<K>>): map<K, Bucket> {
    if calls == [] then map[]
    else
      var before, c := Buckets(p, ttl, calls[..|calls| - 1]), calls[|calls| - 1];
      Pruned(ttl, before, c.time)[c.key := AllowStep(p, ttl, before, c).bucket]
  }

  lemma {:induction false} BucketsSnoc<K>(p: LimiterParams, ttl: Ttl, calls: seq<Call<K>>, c: Call<K>)
    ensures Buckets(p, ttl, calls + [c]) ==
            var before := Buckets(p, ttl, calls);
            Pruned(ttl, before, c.time)[c.key := AllowStep(p, ttl, before, c).bucket]
  {
    assert (calls + [c])[..|calls|] == calls;
  }

  class TokenBucketLimiter<K(==)> {
    const params: LimiterParams
    var buckets: map<K, Bucket>
    /** Every call so far, in order. */
    ghost var calls: seq<Call<K>>

    ghost predicate Valid()
      reads this
    {
      buckets == Buckets(params, Some(IdleTtl(params)), calls)
    }

    constructor (params: LimiterParams)
      ensures Valid() && this.params == params && calls == [] && buckets == map[]
    {
      this.params := params;
      buckets := map[];
      calls := [];
    }

    method Allow(key: K, now: Time) returns (granted: bool)
      requires Valid()
      modifies this
      ensures Valid()
      ensures calls == old(calls) + [Call(key, now)]
      ensures granted == AllowStep(params, Some(IdleTtl(params)), old(buckets), Call(key, now)).granted
    {
      PruneIdle(now);
      var bucket := if key in buckets then buckets[key] else Bucket(params.capacity, now, now);
      granted, bucket := Spend(bucket, now);
      buckets := buckets[key := bucket];
      calls := calls + [Call(key, now)];
      BucketsSnoc(params, Some(IdleTtl(params)), old(calls), Call(key, now));
    }

    /** The part of `allow` that works on the key's own bucket. */
    method Spend(found: Bucket, now: Time) returns (granted: bool, bucket: Bucket)
      ensures Answer(granted, bucket) == Take(Refresh(params, found, now))
      // That is, the token is taken from what was left and, once an interval has passed, a
      // refill for each of them, up to the capacity.
      ensures var elapsed := Since(now, found.lastRefill);
              var tokens := if elapsed < params.interval then found.tokens
                            else Least(params.capacity, found.tokens + params.refill * Passed(params, elapsed));
              && (granted <==> 0 < tokens)
              && bucket == Bucket(if 0 < tokens then tokens - 1 else 0,
                                  if elapsed < params.interval then found.lastRefill else now, now)
    {
      RefillIdeal(params, found.tokens, Since(now, found.lastRefill));
      bucket := found.(lastSeen := now);
      var elapsed := Since(now, bucket.lastRefill);
      if elapsed >= params.interval {
        bucket := bucket.(tokens := RefilledTokens(params, bucket.tokens, elapsed), lastRefill := now);
      }
      if bucket.tokens == 0 {
        granted := false;
      } else {
        bucket := bucket.(tokens := bucket.tokens - 1);
        granted := true;
      }
    }

    method PruneIdle(now: Time)
      modifies this`buckets
      ensures buckets == Pruned(Some(IdleTtl(params)), old(buckets), now)
      ensures forall key :: key in buckets <==>
                && key in old(buckets)
                && Since(now, old(buckets)[key].lastSeen) < 2 * params.interval
                && Since(now, old(buckets)[key].lastSeen) < DURATION_MAX
      ensures forall key | key in buckets :: buckets[key] == old(buckets)[key]
    {
      var ttl := IdleTtl(params);
      buckets := map k | k in buckets && Since(now, buckets[k].lastSeen) < ttl :: buckets[k];
    }
  }
}
