/** Values shared by every part of the daemon's model: optional values, machine
    integers, addresses and the clock. */
module Base {

  datatype Option<+T> = None | Some(value: T)

  type u16 = x: int | 0 <= x < 0x1_0000
  type u32 = x: int | 0 <= x < U32_LIMIT
  const U32_LIMIT := 0x1_0000_0000
  const U32_MAX: u32 := U32_LIMIT - 1

  datatype IpAddr = V4(bits: nat) | V6(bits: nat)

  /** An instant of the monotonic clock, in nanoseconds. */
  type Time = nat

  /** A duration in nanoseconds. */
  type Duration = nat

  const SECOND: Duration := 1_000_000_000

  /** `Duration::MAX`: the largest u64 number of seconds and 999_999_999 ns. */
  const DURATION_MAX: Duration := 0x1_0000_0000_0000_0000 * SECOND - 1

  function Seconds(n: nat): Duration {
    n * SECOND
  }

  /** The instant that many seconds after `now`. */
  function After(now: Time, seconds: nat): Time {
    now + Seconds(seconds)
  }

  /** `now.duration_since(earlier)`, which saturates at zero. */
  function Since(now: Time, earlier: Time): Duration {
    if earlier <= now then now - earlier else 0
  }

  function Lookup<K, V>(m: map<K, V>, k: K): Option<V> {
    if k in m then Some(m[k]) else None
  }

  /** Binds `k` to the given value, or unbinds it. */
  function Put<K, V>(m: map<K, V>, k: K, v: Option<V>): map<K, V> {
    if v.Some? then m[k := v.value] else m - {k}
  }

  lemma {:induction false} SplitLast<T>(s: seq<T>)
    requires s != []
    ensures s == s[..|s| - 1] + [s[|s| - 1]]
  {
  }

  lemma {:induction false} SplitLastAfter<T>(s: seq<T>, more: seq<T>)
    requires more != []
    ensures s + more == (s + more[..|more| - 1]) + [more[|more| - 1]]
  {
  }
}
