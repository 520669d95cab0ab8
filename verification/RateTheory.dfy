/** What the limiter promises over whole runs: exact refills, independence of keys,
    when pruning can be seen, and how many grants a stretch of time can hold. */
module RateTheory {
  import opened Base
  import opened RateLimit

  // ---------------------------------------------------------------------------
  // Refill arithmetic
  // ---------------------------------------------------------------------------

  /** The interval is a whole, nonzero number of seconds, and twice it is a duration. */
  predicate WholeInterval(p: LimiterParams) {
    p.interval > 0 && p.interval % SECOND == 0 && 2 * p.interval <= DURATION_MAX
  }

  lemma {:induction false} MulMonotone(x: int, y: int, d: int)
    requires x <= y && 0 <= d
    ensures x * d <= y * d
  {
    assert (y - x) * d >= 0;
    assert y * d == x * d + (y - x) * d;
  }

  lemma {:induction false} DivUnique(a: int, d: int, q: int, r: int)
    requires 0 < d && a == q * d + r && 0 <= r < d
    ensures a / d == q
  {
    var k := a / d;
    assert k * d <= a < k * d + d;
    assert (q - 1) * d == q * d - d && (q + 1) * d == q * d + d;
    if k <= q - 1 {
      MulMonotone(k, q - 1, d);
    } else if q + 1 <= k {
      MulMonotone(q + 1, k, d);
    }
  }

  /** Flooring to whole seconds first loses nothing. */
  lemma {:induction false} NestedFloor(a: nat, d: nat, s: nat)
    requires 0 < d && 0 < s
    ensures d * s > 0 && (a / d) / s == a / (d * s)
  {
    var q, r := a / d, a % d;
    var t, u := q / s, q % s;
    var rest := u * d + r;
    MulMonotone(1, s, d);
    MulMonotone(u, s - 1, d);
    MulMonotone(0, u, d);
    assert (s - 1) * d == s * d - d && s * d == d * s;
    assert a == t * (d * s) + rest by {
      assert q == t * s + u && a == q * d + r;
      assert (t * s + u) * d == (t * s) * d + u * d;
      assert (t * s) * d == t * (d * s);
    }
    DivUnique(a, d * s, t, rest);
  }

  /** For whole-second intervals these are the whole intervals that have passed. */
  lemma {:induction false} RefillExact(p: LimiterParams, tokens: u32, elapsed: Duration)
    requires WholeInterval(p)
    ensures RefilledTokens(p, tokens, elapsed) == Least(p.capacity, tokens + p.refill * (elapsed / p.interval))
  {
    var s := p.interval / SECOND;
    assert p.interval == SECOND * s && s >= 1;
    NestedFloor(elapsed, SECOND, s);
    RefillIdeal(p, tokens, elapsed);
  }

  // ---------------------------------------------------------------------------
  // One key on its own
  // ---------------------------------------------------------------------------

  ghost predicate Rising(times: seq<Time>) {
    |times| >= 2 ==> Rising(times[..|times| - 1]) && times[|times| - 2] <= times[|times| - 1]
  }

  /** The bucket as seen at `now`: one that was idle too long is as good as none. */
  function Visible(ttl: Ttl, b: Option<Bucket>, now: Time): Option<Bucket> {
    if b.Some? && Kept(ttl, b.value, now) then b else None
  }

  function KeyRun(p: LimiterParams, ttl: Ttl, times: seq<Time>): Option<Bucket>
    decreases |times|, 1
  {
    if times == [] then None else Some(KeyAnswer(p, ttl, times).bucket)
  }

  /** The answer to the last of a key's calls. */
  function KeyAnswer(p: LimiterParams, ttl: Ttl, times: seq<Time>): Answer
    requires times != []
    decreases |times|, 0
  {
    var now := times[|times| - 1];
    KeyStep(p, Visible(ttl, KeyRun(p, ttl, times[..|times| - 1]), now), now)
  }

  lemma {:induction false} KeySnoc(p: LimiterParams, ttl: Ttl, times: seq<Time>, now: Time)
    ensures KeyAnswer(p, ttl, times + [now]) == KeyStep(p, Visible(ttl, KeyRun(p, ttl, times), now), now)
    ensures KeyRun(p, ttl, times + [now]) == Some(KeyAnswer(p, ttl, times + [now]).bucket)
  {
    assert (times + [now])[..|times|] == times;
  }

  // ---------------------------------------------------------------------------
  // From the shared map to one key
  // ---------------------------------------------------------------------------

  ghost predicate InOrder<K>(calls: seq<Call<K>>) {
    |calls| >= 2 ==> InOrder(calls[..|calls| - 1]) && calls[|calls| - 2].time <= calls[|calls| - 1].time
  }

  lemma {:induction false} InOrderSnoc<K>(calls: seq<Call<K>>, c: Call<K>)
    ensures InOrder(calls + [c]) <==> InOrder(calls) && (calls != [] ==> calls[|calls| - 1].time <= c.time)
  {
    assert (calls + [c])[..|calls|] == calls;
  }

  function TimesOf<K(==)>(calls: seq<Call<K>>, key: K): seq<Time> {
    if calls == [] then []
    else TimesOf(calls[..|calls| - 1], key)
         + if calls[|calls| - 1].key == key then [calls[|calls| - 1].time] else []
  }

  lemma {:induction false} TimesSnoc<K>(calls: seq<Call<K>>, c: Call<K>, key: K)
    ensures TimesOf(calls + [c], key) == TimesOf(calls, key) + if c.key == key then [c.time] else []
  {
    assert (calls + [c])[..|calls|] == calls;
  }

  lemma {:induction false} TimesRise<K>(calls: seq<Call<K>>, key: K)
    requires InOrder(calls)
    ensures var ts := TimesOf(calls, key);
            Rising(ts) && (ts != [] ==> ts[|ts| - 1] <= calls[|calls| - 1].time)
    decreases |calls|
  {
    if calls != [] {
      var before, c := calls[..|calls| - 1], calls[|calls| - 1];
      var ts := TimesOf(before, key);
      TimesRise(before, key);
      assert if before == [] then ts == [] else before[|before| - 1].time <= c.time;
      assert (ts + [c.time])[..|ts|] == ts;
      if c.key != key {
        assert TimesOf(calls, key) == ts;
      }
    }
  }

  lemma {:induction false} PruneStep<K>(p: LimiterParams, ttl: Ttl, calls: seq<Call<K>>, c: Call<K>, key: K, now: Time)
    requires c.time <= now
    requires Visible(ttl, Lookup(Buckets(p, ttl, calls), key), c.time)
             == Visible(ttl, KeyRun(p, ttl, TimesOf(calls, key)), c.time)
    requires Visible(ttl, Lookup(Buckets(p, ttl, calls), key), now)
             == Visible(ttl, KeyRun(p, ttl, TimesOf(calls, key)), now)
    ensures Visible(ttl, Lookup(Buckets(p, ttl, calls + [c]), key), now)
            == Visible(ttl, KeyRun(p, ttl, TimesOf(calls + [c], key)), now)
  {
    var m := Buckets(p, ttl, calls);
    BucketsSnoc(p, ttl, calls, c);
    TimesSnoc(calls, c, key);
    assert Lookup(Pruned(ttl, m, c.time), key) == Visible(ttl, Lookup(m, key), c.time);
    if c.key == key {
      KeySnoc(p, ttl, TimesOf(calls, key), c.time);
    } else {
      assert TimesOf(calls + [c], key) == TimesOf(calls, key);
    }
  }

  /** Pruning on other keys' calls is unobservable to a key. */
  lemma {:induction false} PruningIsLocal<K>(p: LimiterParams, ttl: Ttl, calls: seq<Call<K>>, key: K, now: Time)
    requires InOrder(calls) && (calls != [] ==> calls[|calls| - 1].time <= now)
    ensures Visible(ttl, Lookup(Buckets(p, ttl, calls), key), now)
            == Visible(ttl, KeyRun(p, ttl, TimesOf(calls, key)), now)
    decreases |calls|
  {
    if calls != [] {
      var before, c := calls[..|calls| - 1], calls[|calls| - 1];
      assert calls == before + [c];
      PruningIsLocal(p, ttl, before, key, c.time);
      PruningIsLocal(p, ttl, before, key, now);
      PruneStep(p, ttl, before, c, key, now);
    }
  }

  /** Non-interference: a key is answered from the times of its own calls alone. */
  lemma {:induction false} NonInterference<K>(p: LimiterParams, ttl: Ttl, calls: seq<Call<K>>, c: Call<K>)
    requires InOrder(calls + [c])
    ensures var ts := TimesOf(calls + [c], c.key);
            ts != [] && AllowStep(p, ttl, Buckets(p, ttl, calls), c) == KeyAnswer(p, ttl, ts)
  {
    var m := Buckets(p, ttl, calls);
    InOrderSnoc(calls, c);
    TimesSnoc(calls, c, c.key);
    PruningIsLocal(p, ttl, calls, c.key, c.time);
    KeySnoc(p, ttl, TimesOf(calls, c.key), c.time);
    assert Lookup(Pruned(ttl, m, c.time), c.key) == Visible(ttl, Lookup(m, c.key), c.time);
  }

  // ---------------------------------------------------------------------------
  // When pruning can be seen
  // ---------------------------------------------------------------------------

  /** What every bucket of a key satisfies once its last call is over. */
  ghost predicate Sound(p: LimiterParams, b: Option<Bucket>, now: Time) {
    b.Some? ==> b.value.tokens <= p.capacity && b.value.lastRefill <= b.value.lastSeen <= now
                && b.value.lastSeen - b.value.lastRefill < p.interval
  }

  lemma {:induction false} StepIsSound(p: LimiterParams, b: Option<Bucket>, now: Time)
    requires WholeInterval(p) && Sound(p, b, now)
    ensures var r := KeyStep(p, b, now); Sound(p, Some(r.bucket), now) && r.bucket.lastSeen == now
  {
    if b.Some? {
      RefillExact(p, b.value.tokens, Since(now, b.value.lastRefill));
    }
  }

  /** What a call finds: a full bucket if there is none, and otherwise what was left and a
      refill for each whole interval since the last one, up to the capacity. */
  function Found(p: LimiterParams, b: Option<Bucket>, now: Time): nat
    requires 0 < p.interval && (b.Some? ==> b.value.lastRefill <= now)
  {
    if b.None? then p.capacity
    else Ideal(p, b.value.tokens, now - b.value.lastRefill)
  }

  function Ideal(p: LimiterParams, tokens: nat, elapsed: nat): nat
    requires 0 < p.interval
  {
    MulMonotone(0, elapsed / p.interval, p.refill);
    Least(p.capacity, tokens + p.refill * (elapsed / p.interval))
  }

  lemma {:induction false} SmallQuotient(a: nat, d: nat)
    requires a < d
    ensures a / d == 0
  {
  }

  lemma {:induction false} NothingRefilled(p: LimiterParams, tokens: nat, elapsed: nat)
    requires 0 < p.interval
    ensures elapsed < p.interval && tokens <= p.capacity ==> Ideal(p, tokens, elapsed) == tokens
  {
    if elapsed < p.interval {
      SmallQuotient(elapsed, p.interval);
    }
  }

  /** A call is granted exactly if it finds a token, and takes it; the instant of the last
      refill moves exactly if an interval has passed since. */
  lemma {:induction false} CallExact(p: LimiterParams, b: Option<Bucket>, now: Time)
    requires WholeInterval(p) && Sound(p, b, now)
    ensures var r, found := KeyStep(p, b, now), Found(p, b, now);
            && (r.granted <==> 0 < found)
            && r.bucket.tokens == (if 0 < found then found - 1 else 0)
            && r.bucket.lastSeen == now
            && r.bucket.lastRefill ==
                 if b.Some? && now - b.value.lastRefill < p.interval then b.value.lastRefill else now
  {
    if b.Some? {
      var elapsed := now - b.value.lastRefill;
      RefillExact(p, b.value.tokens, elapsed);
      NothingRefilled(p, b.value.tokens, elapsed);
    }
  }

  /** The same over a run: a key's answer is read off its last bucket, unless that was idle
      for two intervals. */
  lemma {:induction false} AnswerExact(p: LimiterParams, times: seq<Time>, now: Time)
    requires WholeInterval(p) && Rising(times + [now])
    ensures var b := KeyRun(p, Some(IdleTtl(p)), times);
            Sound(p, b, now)
    ensures var b := KeyRun(p, Some(IdleTtl(p)), times);
            var left := if b.Some? && now - b.value.lastSeen < 2 * p.interval then b else None;
            KeyAnswer(p, Some(IdleTtl(p)), times + [now]).granted <==> 0 < Found(p, left, now)
  {
    var ttl := Some(IdleTtl(p));
    RisingSnoc(times, now);
    RunIsSound(p, ttl, times);
    KeySnoc(p, ttl, times, now);
    CallExact(p, Visible(ttl, KeyRun(p, ttl, times), now), now);
  }

  lemma {:induction false} RunIsSound(p: LimiterParams, ttl: Ttl, times: seq<Time>)
    requires WholeInterval(p) && Rising(times)
    ensures times != [] ==>
              var b := KeyRun(p, ttl, times); var now := times[|times| - 1];
              Sound(p, b, now) && b.value.lastSeen == now
    decreases |times|
  {
    if times != [] {
      var before, now := times[..|times| - 1], times[|times| - 1];
      assert times == before + [now];
      RisingSnoc(before, now);
      var b := KeyRun(p, ttl, before);
      RunIsSound(p, ttl, before);
      assert Sound(p, b, now);
      KeySnoc(p, ttl, before, now);
      StepIsSound(p, Visible(ttl, b, now), now);
    }
  }

  lemma {:induction false} TwoIntervals(p: LimiterParams, elapsed: Duration)
    requires WholeInterval(p) && 2 * p.interval <= elapsed
    ensures elapsed / p.interval >= 2
  {
    var q := elapsed / p.interval;
    assert q * p.interval + p.interval > elapsed;
    if q <= 1 {
      MulMonotone(q, 1, p.interval);
    }
  }

  /** If two intervals refill a bucket, a pruned bucket and the one it replaces are the same. */
  lemma {:induction false} PrunedBucketWasFull(p: LimiterParams, b: Bucket, now: Time)
    requires WholeInterval(p) && Sound(p, Some(b), now) && p.capacity <= 2 * p.refill
    requires Since(now, b.lastSeen) >= 2 * p.interval
    ensures KeyStep(p, Some(b), now) == KeyStep(p, None, now)
  {
    var elapsed := Since(now, b.lastRefill);
    TwoIntervals(p, elapsed);
    MulMonotone(2, elapsed / p.interval, p.refill);
    RefillExact(p, b.tokens, elapsed);
  }

  lemma {:induction false} PruningUnseen(p: LimiterParams, times: seq<Time>)
    requires WholeInterval(p) && Rising(times) && p.capacity <= 2 * p.refill
    ensures KeyRun(p, Some(IdleTtl(p)), times) == KeyRun(p, None, times)
    ensures times != [] ==> KeyAnswer(p, Some(IdleTtl(p)), times) == KeyAnswer(p, None, times)
    decreases |times|
  {
    if times != [] {
      var before, now := times[..|times| - 1], times[|times| - 1];
      PruningUnseen(p, before);
      RunIsSound(p, None, before);
      assert before != [] ==> before[|before| - 1] <= now;
      var b := KeyRun(p, None, before);
      if b.Some? && !Kept(Some(IdleTtl(p)), b.value, now) {
        PrunedBucketWasFull(p, b.value, now);
      }
    }
  }

  /** `n` more calls, all at `t`. */
  function Then(times: seq<Time>, t: Time, n: nat): seq<Time> {
    if n == 0 then times else Then(times, t, n - 1) + [t]
  }

  lemma {:induction false} RisingSnoc(times: seq<Time>, t: Time)
    ensures Rising(times + [t]) <==> Rising(times) && (times != [] ==> times[|times| - 1] <= t)
  {
    assert (times + [t])[..|times|] == times;
  }

  /** Rising, and none later than `t`. */
  ghost predicate RisingUpTo(times: seq<Time>, t: Time) {
    Rising(times) && (times != [] ==> times[|times| - 1] <= t)
  }

  lemma {:induction false} RisesOn(times: seq<Time>, t: Time)
    requires RisingUpTo(times, t)
    ensures RisingUpTo(times + [t], t)
  {
    RisingSnoc(times, t);
  }

  lemma {:induction false} ThenRises(times: seq<Time>, t: Time, n: nat)
    requires RisingUpTo(times, t)
    ensures RisingUpTo(Then(times, t, n), t)
    decreases n
  {
    if n > 0 {
      ThenRises(times, t, n - 1);
      RisesOn(Then(times, t, n - 1), t);
    }
  }

  /** The tokens a call at `t` finds. */
  function TokensFound(p: LimiterParams, b: Option<Bucket>, t: Time): u32 {
    Refresh(p, if b.Some? then b.value else FullBucket(p, t), t).tokens
  }

  /** `n` more calls in one instant: they take a token each, as long as there is one. */
  lemma {:induction false} Burst(p: LimiterParams, ttl: Ttl, times: seq<Time>, t: Time, n: nat)
    requires p.interval > 0 && (ttl.Some? ==> ttl.value > 0)
    requires 0 < n <= TokensFound(p, Visible(ttl, KeyRun(p, ttl, times), t), t)
    ensures Then(times, t, n) != [] && KeyAnswer(p, ttl, Then(times, t, n)).granted
    ensures var b := KeyRun(p, ttl, Then(times, t, n)).value;
            && b.tokens == TokensFound(p, Visible(ttl, KeyRun(p, ttl, times), t), t) - n
            && b.lastSeen == t && Since(t, b.lastRefill) < p.interval
    decreases n
  {
    var prev := Then(times, t, n - 1);
    KeySnoc(p, ttl, prev, t);
    if n > 1 {
      Burst(p, ttl, times, t, n - 1);
      assert KeyRun(p, ttl, prev).Some?;
    }
  }

  /** The run that shows pruning: spend the whole bucket, wait two intervals, call on. */
  function Telltale(p: LimiterParams, n: nat): seq<Time> {
    Then(Then([], 0, p.capacity), 2 * p.interval, n)
  }

  lemma {:induction false} TelltaleRises(p: LimiterParams, n: nat)
    ensures Rising(Telltale(p, n))
  {
    ThenRises([], 0, p.capacity);
    ThenRises(Then([], 0, p.capacity), 2 * p.interval, n);
  }

  lemma {:induction false} Spent(p: LimiterParams, ttl: Ttl)
    requires WholeInterval(p) && p.capacity > 0 && ttl in {None, Some(IdleTtl(p))}
    ensures var b := KeyRun(p, ttl, Then([], 0, p.capacity));
            b.Some? && b.value.tokens == 0 && b.value.lastSeen == 0 && b.value.lastRefill == 0
  {
    var times := Then([], 0, p.capacity);
    ThenRises([], 0, p.capacity);
    RunIsSound(p, ttl, times);
    Burst(p, ttl, [], 0, p.capacity);
  }

  lemma {:induction false} RefillAfterTwo(p: LimiterParams)
    requires WholeInterval(p) && p.capacity > 2 * p.refill
    ensures RefilledTokens(p, 0, 2 * p.interval) == 2 * p.refill
  {
    DivUnique(2 * p.interval, p.interval, 2, 0);
    RefillExact(p, 0, 2 * p.interval);
  }

  /** After the pause the pruning limiter has a full bucket again, the other one only two refills. */
  lemma {:induction false} TelltaleTokens(p: LimiterParams)
    requires WholeInterval(p) && p.capacity > 2 * p.refill
    ensures var t := 2 * p.interval; var spent := Then([], 0, p.capacity);
            && TokensFound(p, Visible(Some(IdleTtl(p)), KeyRun(p, Some(IdleTtl(p)), spent), t), t) == p.capacity
            && TokensFound(p, Visible(None, KeyRun(p, None, spent), t), t) == 2 * p.refill
  {
    Spent(p, None);
    Spent(p, Some(IdleTtl(p)));
    RefillAfterTwo(p);
  }

  lemma {:induction false} PruningSeen(p: LimiterParams)
    requires WholeInterval(p) && p.capacity > 2 * p.refill
    ensures var ts := Telltale(p, 2 * p.refill + 1);
            ts != [] && KeyAnswer(p, Some(IdleTtl(p)), ts).granted && !KeyAnswer(p, None, ts).granted
  {
    TelltaleTokens(p);
    Burst(p, Some(IdleTtl(p)), Then([], 0, p.capacity), 2 * p.interval, 2 * p.refill + 1);
    DeniedAtLast(p, None, Then([], 0, p.capacity), 2 * p.interval, 2 * p.refill);
  }

  lemma {:induction false} DeniedAtLast(p: LimiterParams, ttl: Ttl, times: seq<Time>, t: Time, n: nat)
    requires p.interval > 0 && (ttl.Some? ==> ttl.value > 0)
    requires TokensFound(p, Visible(ttl, KeyRun(p, ttl, times), t), t) == n
    ensures Then(times, t, n + 1) != [] && !KeyAnswer(p, ttl, Then(times, t, n + 1)).granted
  {
    KeySnoc(p, ttl, Then(times, t, n), t);
    if n > 0 {
      Burst(p, ttl, times, t, n);
    }
  }

  /** On every run of calls, over every set of keys, each answer is the one that a
      limiter without pruning gives. */
  ghost predicate PruningInvisible<K(!new)>(p: LimiterParams, key: K) {
    forall calls: seq<Call<K>>, c: Call<K> | InOrder(calls + [c]) ::
      AllowStep(p, Some(IdleTtl(p)), Buckets(p, Some(IdleTtl(p)), calls), c).granted
      == AllowStep(p, None, Buckets(p, None, calls), c).granted
  }

  function CallsOf<K>(key: K, times: seq<Time>): seq<Call<K>> {
    if times == [] then [] else CallsOf(key, times[..|times| - 1]) + [Call(key, times[|times| - 1])]
  }

  lemma {:induction false} CallsOfTimes<K>(key: K, times: seq<Time>)
    requires Rising(times)
    ensures TimesOf(CallsOf(key, times), key) == times && InOrder(CallsOf(key, times))
    ensures times != [] ==> CallsOf(key, times)[|CallsOf(key, times)| - 1].time == times[|times| - 1]
    decreases |times|
  {
    if times != [] {
      var before, t := times[..|times| - 1], times[|times| - 1];
      var calls, c := CallsOf(key, before), Call(key, t);
      assert times == before + [t];
      RisingSnoc(before, t);
      CallsOfTimes(key, before);
      TimesSnoc(calls, c, key);
      InOrderSnoc(calls, c);
      assert CallsOf(key, times) == calls + [c];
      assert before == [] ==> calls == [];
    }
  }

  lemma {:induction false} AnswersAgree<K>(p: LimiterParams, calls: seq<Call<K>>, c: Call<K>)
    requires WholeInterval(p) && p.capacity <= 2 * p.refill && InOrder(calls + [c])
    ensures AllowStep(p, Some(IdleTtl(p)), Buckets(p, Some(IdleTtl(p)), calls), c).granted
            == AllowStep(p, None, Buckets(p, None, calls), c).granted
  {
    var times := TimesOf(calls + [c], c.key);
    NonInterference(p, Some(IdleTtl(p)), calls, c);
    NonInterference(p, None, calls, c);
    TimesRise(calls + [c], c.key);
    PruningUnseen(p, times);
  }

  lemma {:induction false} AnswersDiffer<K>(p: LimiterParams, key: K) returns (calls: seq<Call<K>>, c: Call<K>)
    requires WholeInterval(p) && p.capacity > 2 * p.refill
    ensures InOrder(calls + [c])
    ensures AllowStep(p, Some(IdleTtl(p)), Buckets(p, Some(IdleTtl(p)), calls), c).granted
    ensures !AllowStep(p, None, Buckets(p, None, calls), c).granted
  {
    var ts := Telltale(p, 2 * p.refill + 1);
    PruningSeen(p);
    TelltaleRises(p, 2 * p.refill + 1);
    CallsOfTimes(key, ts);
    calls, c := CallsOf(key, ts[..|ts| - 1]), Call(key, ts[|ts| - 1]);
    assert CallsOf(key, ts) == calls + [c];
    NonInterference(p, Some(IdleTtl(p)), calls, c);
    NonInterference(p, None, calls, c);
  }

  /** Pruning is a memory optimisation that nobody can see if and only if two refills
      fill a bucket. */
  lemma {:induction false} PruningInvisibleIffAffordable<K(!new)>(p: LimiterParams, key: K)
    requires WholeInterval(p)
    ensures PruningInvisible(p, key) <==> p.capacity <= 2 * p.refill
  {
    if p.capacity <= 2 * p.refill {
      forall calls: seq<Call<K>>, c: Call<K> | InOrder(calls + [c])
        ensures AllowStep(p, Some(IdleTtl(p)), Buckets(p, Some(IdleTtl(p)), calls), c).granted
                == AllowStep(p, None, Buckets(p, None, calls), c).granted
      {
        AnswersAgree(p, calls, c);
      }
    } else {
      var calls, c := AnswersDiffer(p, key);
    }
  }

  // ---------------------------------------------------------------------------
  // How many grants a stretch of time can hold
  // ---------------------------------------------------------------------------

  /** Calls granted among `times[from..]`. */
  function Grants(p: LimiterParams, times: seq<Time>, from: nat): nat {
    if |times| <= from then 0
    else Grants(p, times[..|times| - 1], from) + if KeyAnswer(p, Some(IdleTtl(p)), times).granted then 1 else 0
  }

  /** The most that one interval can bring: a refill, or half of what pruning restores. */
  function Rate(p: LimiterParams): nat {
    Max(p.refill, (p.capacity + 1) / 2)
  }

  /** Floors of consecutive stretches add up to no more than the floor of both. */
  lemma {:induction false} FloorsAdd(a: nat, b: nat, d: nat)
    requires 0 < d
    ensures a / d + b / d <= (a + b) / d
  {
    var k := a / d + b / d;
    assert k * d <= a + b by {
      assert (a / d) * d <= a && (b / d) * d <= b;
      assert k * d == (a / d) * d + (b / d) * d;
    }
    assert ((a + b) / d) * d + d > a + b;
    if (a + b) / d + 1 <= k {
      MulMonotone((a + b) / d + 1, k, d);
    }
  }

  /** What the rate brings in a stretch of the given length. */
  function Allowance(p: LimiterParams, d: nat): nat
    requires 0 < p.interval
  {
    Rate(p) * (d / p.interval)
  }

  lemma {:induction false} AllowanceAdds(p: LimiterParams, a: nat, b: nat)
    requires 0 < p.interval
    ensures Allowance(p, a) + Allowance(p, b) <= Allowance(p, a + b)
  {
    var r, x, y, z := Rate(p), a / p.interval, b / p.interval, (a + b) / p.interval;
    FloorsAdd(a, b, p.interval);
    MulMonotone(x + y, z, r);
    assert (x + y) * r == r * x + r * y;
  }

  lemma {:induction false} AllowanceGrows(p: LimiterParams, a: nat, b: nat)
    requires 0 < p.interval && a <= b
    ensures Allowance(p, a) <= Allowance(p, b)
  {
    AllowanceAdds(p, a, b - a);
  }

  /** The allowance covers a refill, and it covers what pruning restores. */
  lemma {:induction false} AllowanceCoversRefill(p: LimiterParams, elapsed: nat)
    requires 0 < p.interval
    ensures p.refill * (elapsed / p.interval) <= Allowance(p, elapsed)
  {
    var r, q := Rate(p), elapsed / p.interval;
    MulMonotone(p.refill, r, q);
  }

  lemma {:induction false} AllowanceCoversPruning(p: LimiterParams, elapsed: nat)
    requires WholeInterval(p) && 2 * p.interval <= elapsed
    ensures p.capacity <= Allowance(p, elapsed)
  {
    var r, q := Rate(p), elapsed / p.interval;
    assert p.capacity <= 2 * r;
    TwoIntervals(p, elapsed);
    MulMonotone(2, q, r);
  }

  lemma {:induction false} RefillWithin(p: LimiterParams, tokens: u32, elapsed: nat)
    requires WholeInterval(p)
    ensures RefilledTokens(p, tokens, elapsed) <= tokens + Allowance(p, elapsed)
    ensures RefilledTokens(p, tokens, elapsed) <= p.capacity
  {
    RefillExact(p, tokens, elapsed);
    AllowanceCoversRefill(p, elapsed);
  }

  /** What a call finds is what was left, or at most that and the allowance since the
      last refill. */
  lemma {:induction false} Gain(p: LimiterParams, b: Bucket, now: Time)
    requires WholeInterval(p) && Sound(p, Some(b), now)
    ensures var found := Visible(Some(IdleTtl(p)), Some(b), now);
            var r := Refresh(p, if found.Some? then b else FullBucket(p, now), now);
            if r.lastRefill == b.lastRefill && b.lastRefill != now then r.tokens == b.tokens
            else r.lastRefill == now && r.tokens <= b.tokens + Allowance(p, now - b.lastRefill)
  {
    var elapsed := now - b.lastRefill;
    RefillWithin(p, b.tokens, elapsed);
    if 2 * p.interval <= elapsed {
      AllowanceCoversPruning(p, elapsed);
    }
  }

  /** The potential: grants and tokens together never outgrow a full bucket and the
      allowance since `origin`. */
  ghost predicate Bounded(p: LimiterParams, grants: nat, b: Bucket, origin: int)
    requires 0 < p.interval
  {
    origin <= b.lastRefill && grants + b.tokens <= p.capacity + Allowance(p, b.lastRefill - origin)
  }

  /** The potential after the last of the given calls, counting from the one at `from`. */
  ghost predicate PotentialAt(p: LimiterParams, times: seq<Time>, from: nat, origin: int)
    requires 0 < p.interval
  {
    times != [] && Bounded(p, Grants(p, times, from), KeyRun(p, Some(IdleTtl(p)), times).value, origin)
  }

  lemma {:induction false} GrantsSnoc(p: LimiterParams, times: seq<Time>, now: Time, from: nat)
    requires from <= |times|
    ensures Grants(p, times + [now], from)
            == Grants(p, times, from) + if KeyAnswer(p, Some(IdleTtl(p)), times + [now]).granted then 1 else 0
  {
    assert (times + [now])[..|times|] == times;
  }

  lemma {:induction false} PotentialFirst(p: LimiterParams, before: seq<Time>, now: Time, origin: int)
    requires WholeInterval(p) && Rising(before + [now])
    requires origin == now - p.interval || (before == [] && origin == now)
    ensures PotentialAt(p, before + [now], |before|, origin)
  {
    var ttl := Some(IdleTtl(p));
    RisingSnoc(before, now);
    RunIsSound(p, ttl, before);
    KeySnoc(p, ttl, before, now);
    GrantsSnoc(p, before, now, |before|);
    PotentialStart(p, Visible(ttl, KeyRun(p, ttl, before), now), now, origin);
  }

  lemma {:induction false} PotentialNext(p: LimiterParams, before: seq<Time>, now: Time, from: nat, origin: int)
    requires WholeInterval(p) && Rising(before + [now]) && from < |before|
    requires PotentialAt(p, before, from, origin)
    ensures PotentialAt(p, before + [now], from, origin)
  {
    var ttl := Some(IdleTtl(p));
    RisingSnoc(before, now);
    RunIsSound(p, ttl, before);
    KeySnoc(p, ttl, before, now);
    GrantsSnoc(p, before, now, from);
    PotentialStep(p, KeyRun(p, ttl, before).value, now, origin, Grants(p, before, from));
  }

  lemma {:induction false} Potential(p: LimiterParams, times: seq<Time>, from: nat, origin: int)
    requires WholeInterval(p) && Rising(times) && from < |times|
    requires origin == times[from] - p.interval || (from == 0 && origin == times[0])
    ensures PotentialAt(p, times, from, origin)
    decreases |times|
  {
    var before, now := times[..|times| - 1], times[|times| - 1];
    assert times == before + [now];
    RisingSnoc(before, now);
    if |before| == from {
      PotentialFirst(p, before, now, origin);
    } else {
      assert before[from] == times[from] && before[0] == times[0];
      Potential(p, before, from, origin);
      PotentialNext(p, before, now, from, origin);
    }
  }

  lemma {:induction false} PotentialStart(p: LimiterParams, b: Option<Bucket>, now: Time, origin: int)
    requires WholeInterval(p) && Sound(p, b, now)
    requires origin == now - p.interval || (b.None? && origin == now)
    ensures var r := KeyStep(p, b, now); Bounded(p, if r.granted then 1 else 0, r.bucket, origin)
  {
    if b.Some? {
      RefillWithin(p, b.value.tokens, Since(now, b.value.lastRefill));
    }
  }

  lemma {:induction false} PotentialStep(p: LimiterParams, b: Bucket, now: Time, origin: int, grants: nat)
    requires WholeInterval(p) && Sound(p, Some(b), now) && Bounded(p, grants, b, origin)
    ensures var r := KeyStep(p, Visible(Some(IdleTtl(p)), Some(b), now), now);
            Bounded(p, grants + if r.granted then 1 else 0, r.bucket, origin)
  {
    Gain(p, b, now);
    AllowanceAdds(p, b.lastRefill - origin, now - b.lastRefill);
  }

  /** A full bucket and the rate for each interval begun in a stretch of `span`. */
  function StretchBound(p: LimiterParams, span: Duration): (n: nat)
    requires 0 < p.interval
    ensures p.capacity <= n
  {
    MulMonotone(0, span / p.interval + 1, Rate(p));
    p.capacity + Rate(p) * (span / p.interval + 1)
  }

  /** The rate bound: in any stretch of `span`, wherever it lies in the run, a key is
      granted at most a full bucket and the rate for each interval begun. Counted from
      the key's first call, for each interval completed. */
  lemma {:induction false} RateBound(p: LimiterParams, times: seq<Time>, from: nat, span: Duration)
    requires WholeInterval(p) && Rising(times) && from < |times| && times[|times| - 1] - times[from] <= span
    ensures Grants(p, times, from) <= StretchBound(p, span)
    ensures from == 0 ==> Grants(p, times, from) <= p.capacity + Rate(p) * (span / p.interval)
  {
    GrantsWithin(p, times, from, times[from] - p.interval, span + p.interval);
    OneMoreInterval(p, span);
    if from == 0 {
      GrantsWithin(p, times, 0, times[0], span);
    }
  }

  lemma {:induction false} OneMoreInterval(p: LimiterParams, span: Duration)
    requires 0 < p.interval
    ensures p.capacity + Allowance(p, span + p.interval) == StretchBound(p, span)
  {
    DivUnique(span + p.interval, p.interval, span / p.interval + 1, span % p.interval);
  }

  lemma {:induction false} GrantsWithin(p: LimiterParams, times: seq<Time>, from: nat, origin: int, d: nat)
    requires WholeInterval(p) && Rising(times) && from < |times| && times[|times| - 1] - origin <= d
    requires origin == times[from] - p.interval || (from == 0 && origin == times[0])
    ensures Grants(p, times, from) <= p.capacity + Allowance(p, d)
  {
    RunIsSound(p, Some(IdleTtl(p)), times);
    Potential(p, times, from, origin);
    BoundedBy(p, Grants(p, times, from), KeyRun(p, Some(IdleTtl(p)), times).value, origin, d);
  }

  lemma {:induction false} BoundedBy(p: LimiterParams, grants: nat, b: Bucket, origin: int, d: nat)
    requires 0 < p.interval && Bounded(p, grants, b, origin) && b.lastRefill - origin <= d
    ensures grants <= p.capacity + Allowance(p, d)
  {
    AllowanceGrows(p, b.lastRefill - origin, d);
  }

  lemma {:induction false} BurstGrants(p: LimiterParams, times: seq<Time>, t: Time, n: nat)
    requires WholeInterval(p)
    requires var ttl := Some(IdleTtl(p)); n <= TokensFound(p, Visible(ttl, KeyRun(p, ttl, times), t), t)
    ensures Grants(p, Then(times, t, n), 0) == Grants(p, times, 0) + n
    decreases n
  {
    if n > 0 {
      var prev := Then(times, t, n - 1);
      BurstGrants(p, times, t, n - 1);
      Burst(p, Some(IdleTtl(p)), times, t, n);
      assert Then(times, t, n)[..|prev|] == prev;
    }
  }

  /** From a key's first call on: a full bucket and one refill for each whole interval. */
  ghost predicate DocumentedBound(p: LimiterParams)
    requires 0 < p.interval
  {
    forall times | Rising(times) && times != [] ::
      Grants(p, times, 0) <= p.capacity + p.refill * ((times[|times| - 1] - times[0]) / p.interval)
  }

  lemma {:induction false} TelltaleGrants(p: LimiterParams)
    requires WholeInterval(p) && p.capacity > 2 * p.refill
    ensures var ts := Telltale(p, p.capacity);
            ts != [] && ts[0] == 0 && ts[|ts| - 1] == 2 * p.interval && Grants(p, ts, 0) == 2 * p.capacity
  {
    var spent := Then([], 0, p.capacity);
    TelltaleTokens(p);
    BurstGrants(p, [], 0, p.capacity);
    BurstGrants(p, spent, 2 * p.interval, p.capacity);
    ThenStarts([], 0, p.capacity);
    ThenStarts(spent, 2 * p.interval, p.capacity);
  }

  lemma {:induction false} ThenStarts(times: seq<Time>, t: Time, n: nat)
    requires n > 0
    ensures var all := Then(times, t, n);
            all != [] && all[|all| - 1] == t && all[0] == if times == [] then t else times[0]
    decreases n
  {
    if n > 1 {
      ThenStarts(times, t, n - 1);
    }
  }

  lemma {:induction false} DocumentedBoundHolds(p: LimiterParams, times: seq<Time>)
    requires WholeInterval(p) && p.capacity <= 2 * p.refill && Rising(times) && times != []
    ensures times[0] <= times[|times| - 1]
    ensures Grants(p, times, 0) <= p.capacity + p.refill * ((times[|times| - 1] - times[0]) / p.interval)
  {
    assert Rate(p) == p.refill;
    FirstIsLeast(times);
    RateBound(p, times, 0, times[|times| - 1] - times[0]);
  }

  lemma {:induction false} DocumentedBoundFails(p: LimiterParams)
    requires WholeInterval(p) && p.capacity > 2 * p.refill
    ensures !DocumentedBound(p)
  {
    var ts := Telltale(p, p.capacity);
    TelltaleGrants(p);
    TelltaleRises(p, p.capacity);
    DivUnique(2 * p.interval, p.interval, 2, 0);
  }

  /** The documented allowance, a burst and a refill per interval, is a true bound on
      every run if and only if the burst is at most two refills. */
  lemma {:induction false} DocumentedBoundIffAffordable(p: LimiterParams)
    requires WholeInterval(p)
    ensures DocumentedBound(p) <==> p.capacity <= 2 * p.refill
  {
    if p.capacity <= 2 * p.refill {
      forall times | Rising(times) && times != []
        ensures Grants(p, times, 0) <= p.capacity + p.refill * ((times[|times| - 1] - times[0]) / p.interval)
      {
        DocumentedBoundHolds(p, times);
      }
    } else {
      DocumentedBoundFails(p);
    }
  }

  lemma {:induction false} FirstIsLeast(times: seq<Time>)
    requires Rising(times) && times != []
    ensures times[0] <= times[|times| - 1]
    decreases |times|
  {
    if |times| > 1 {
      FirstIsLeast(times[..|times| - 1]);
    }
  }

  /** A call is denied only after a burst: at least `capacity` earlier calls of the key,
      no two neighbours among them, up to the denied one, as far apart as the idle time. */
  lemma {:induction false} DenialNeedsBurst(p: LimiterParams, times: seq<Time>)
    requires WholeInterval(p) && Rising(times) && times != []
    requires !KeyAnswer(p, Some(IdleTtl(p)), times).granted
    ensures p.capacity < |times| && Crowded(p, times, p.capacity + 1)
  {
    var ttl := Some(IdleTtl(p));
    var before, now := times[..|times| - 1], times[|times| - 1];
    assert times == before + [now];
    RisingSnoc(before, now);
    RunIsSound(p, ttl, before);
    SpentTokens(p, before);
    var b := KeyRun(p, ttl, before);
    if b.Some? && Kept(ttl, b.value, now) {
      RefillExact(p, b.value.tokens, Since(now, b.value.lastRefill));
      CrowdedSnoc(p, before, now, p.capacity);
    }
  }

  /** Among the last `n` calls no two neighbours are as far apart as the idle time. */
  ghost predicate Crowded(p: LimiterParams, times: seq<Time>, n: nat) {
    n <= |times| && forall i | |times| - n < i < |times| :: times[i] - times[i - 1] < IdleTtl(p)
  }

  lemma {:induction false} CrowdedSnoc(p: LimiterParams, times: seq<Time>, now: Time, n: nat)
    requires Crowded(p, times, n) && (times != [] ==> now - times[|times| - 1] < IdleTtl(p))
    ensures Crowded(p, times + [now], n + 1)
  {
  }

  /** At least the tokens that are gone were taken by the last calls, with no idle gap. */
  ghost predicate SpentBy(p: LimiterParams, times: seq<Time>, b: Bucket) {
    b.tokens <= p.capacity && Crowded(p, times, p.capacity - b.tokens)
  }

  lemma {:induction false} SpentStep(p: LimiterParams, before: seq<Time>, b: Option<Bucket>, now: Time)
    requires WholeInterval(p) && Sound(p, b, now)
    requires if before == [] then b.None?
             else b.Some? && SpentBy(p, before, b.value) && b.value.lastSeen == before[|before| - 1]
    ensures SpentBy(p, before + [now], KeyStep(p, Visible(Some(IdleTtl(p)), b, now), now).bucket)
  {
    if b.Some? && Kept(Some(IdleTtl(p)), b.value, now) {
      RefillExact(p, b.value.tokens, Since(now, b.value.lastRefill));
      CrowdedSnoc(p, before, now, p.capacity - b.value.tokens);
    }
  }

  lemma {:induction false} SpentTokens(p: LimiterParams, times: seq<Time>)
    requires WholeInterval(p) && Rising(times)
    ensures times != [] ==> SpentBy(p, times, KeyRun(p, Some(IdleTtl(p)), times).value)
    decreases |times|
  {
    var ttl := Some(IdleTtl(p));
    if times != [] {
      var before, now := times[..|times| - 1], times[|times| - 1];
      assert times == before + [now];
      RisingSnoc(before, now);
      RunIsSound(p, ttl, before);
      SpentTokens(p, before);
      KeySnoc(p, ttl, before, now);
      SpentStep(p, before, KeyRun(p, ttl, before), now);
    }
  }

  // ---------------------------------------------------------------------------
  // What a key is sure of
  // ---------------------------------------------------------------------------

  /** What a full bucket or one refill gives for sure. */
  function Sure(p: LimiterParams): nat {
    Least(p.capacity, p.refill)
  }

  /** Of what is sure, all that is gone was taken by the last calls, since the last refill. */
  ghost predicate TakenSince(p: LimiterParams, times: seq<Time>, b: Bucket) {
    var gone := Sure(p) - b.tokens;
    gone <= |times| && forall i | |times| - gone <= i < |times| :: 0 <= i ==> b.lastRefill <= times[i]
  }

  lemma {:induction false} FoundIsSure(p: LimiterParams, b: Option<Bucket>, now: Time)
    requires WholeInterval(p) && Sound(p, b, now)
    requires b.Some? ==> p.interval <= now - b.value.lastRefill
    ensures Sure(p) <= Found(p, b, now)
  {
    if b.Some? {
      var q := (now - b.value.lastRefill) / p.interval;
      assert q >= 1 by {
        assert q * p.interval + p.interval > now - b.value.lastRefill;
        if q <= 0 {
          MulMonotone(q, 0, p.interval);
        }
      }
      MulMonotone(1, q, p.refill);
    }
  }

  lemma {:induction false} TakenStep(p: LimiterParams, before: seq<Time>, b: Option<Bucket>, now: Time)
    requires WholeInterval(p) && Sound(p, b, now) && (b.Some? ==> TakenSince(p, before, b.value))
    ensures TakenSince(p, before + [now], KeyStep(p, b, now).bucket)
  {
    CallExact(p, b, now);
    if b.Some? && now - b.value.lastRefill < p.interval {
      NothingRefilled(p, b.value.tokens, now - b.value.lastRefill);
    } else {
      FoundIsSure(p, b, now);
    }
  }

  lemma {:induction false} TakenInRun(p: LimiterParams, times: seq<Time>)
    requires WholeInterval(p) && Rising(times)
    ensures times != [] ==> TakenSince(p, times, KeyRun(p, Some(IdleTtl(p)), times).value)
    decreases |times|
  {
    var ttl := Some(IdleTtl(p));
    if times != [] {
      var before, now := times[..|times| - 1], times[|times| - 1];
      assert times == before + [now];
      RisingSnoc(before, now);
      RunIsSound(p, ttl, before);
      TakenInRun(p, before);
      KeySnoc(p, ttl, before, now);
      TakenStep(p, before, Visible(ttl, KeyRun(p, ttl, before), now), now);
    }
  }

  /** The last call and the `n` before it lie within less than `d`. */
  ghost predicate Crammed(times: seq<Time>, n: int, d: Duration) {
    0 <= n < |times| && times[|times| - 1] - times[|times| - 1 - n] < d
  }

  lemma {:induction false} CrammedBefore(times: seq<Time>, now: Time, n: int, d: Duration) returns (t: Time)
    requires Crammed(times + [now], n, d) && 0 < n
    ensures t in times && now - t < d
  {
    t := times[|times| - n];
    assert (times + [now])[|times| - n] == t;
  }

  /** A call is denied only in a crowd: within less than one interval up to it there were as
      many calls of the key before it as the capacity or one refill allows, whichever is less. */
  lemma {:induction false} DenialNeedsCrowd(p: LimiterParams, times: seq<Time>)
    requires WholeInterval(p) && Rising(times) && times != []
    requires !KeyAnswer(p, Some(IdleTtl(p)), times).granted
    ensures Crammed(times, Least(p.capacity, p.refill), p.interval)
  {
    var ttl := Some(IdleTtl(p));
    var before, now := times[..|times| - 1], times[|times| - 1];
    assert times == before + [now];
    RisingSnoc(before, now);
    RunIsSound(p, ttl, before);
    TakenInRun(p, before);
    KeySnoc(p, ttl, before, now);
    var b := Visible(ttl, KeyRun(p, ttl, before), now);
    CallExact(p, b, now);
    if b.Some? && now - b.value.lastRefill < p.interval {
      NothingRefilled(p, b.value.tokens, now - b.value.lastRefill);
    } else {
      FoundIsSure(p, b, now);
    }
  }

  /** Whoever pauses for an interval before each call is never denied. */
  lemma {:induction false} SteadyIsGranted(p: LimiterParams, times: seq<Time>)
    requires WholeInterval(p) && Rising(times) && times != [] && 0 < p.capacity && 0 < p.refill
    requires |times| > 1 ==> p.interval <= times[|times| - 1] - times[|times| - 2]
    ensures KeyAnswer(p, Some(IdleTtl(p)), times).granted
  {
    if !KeyAnswer(p, Some(IdleTtl(p)), times).granted {
      DenialNeedsCrowd(p, times);
      RisesTo(times, |times| - 1 - Sure(p), |times| - 2);
    }
  }

  lemma {:induction false} RisesTo(times: seq<Time>, i: nat, j: nat)
    requires Rising(times) && i <= j < |times|
    ensures times[i] <= times[j]
    decreases |times|
  {
    if j + 1 < |times| {
      RisesTo(times[..|times| - 1], i, j);
    } else if i < j {
      RisesTo(times[..|times| - 1], i, j - 1);
    }
  }
}
