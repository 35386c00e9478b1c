/** Time and the small shared types. An instant is a count of nanoseconds on the monotonic clock. */
module Clock {
  type Instant = nat
  type Duration = nat

  const MILLISECOND: Duration := 1_000_000
  const SECOND: Duration := 1_000 * MILLISECOND

  datatype Option<+T> = None | Some(value: T)

  /** The duration from `earlier` to `later`; zero when `later` is the smaller of the two. */
  function SaturatingSince(later: Instant, earlier: Instant): Duration {
    if earlier <= later then later - earlier else 0
  }

  /** A 64-bit unsigned integer. */
  const TWO_TO_THE_64: nat := 0x1_0000_0000_0000_0000

  type U64 = n: int | 0 <= n < TWO_TO_THE_64

  function WrappingIncrement(n: U64): U64 {
    if n + 1 == TWO_TO_THE_64 then 0 else n + 1
  }

  /** The unbounded count behind a wrapping counter, reduced to what the counter shows. */
  function Wrapped(n: nat): U64 {
    n % TWO_TO_THE_64
  }

  lemma WrappedIncrement(n: nat)
    ensures Wrapped(n + 1) == WrappingIncrement(Wrapped(n))
  {
  }

  /** Two counts look alike after wrapping exactly when a whole number of wraps separates them. */
  lemma WrappedEqual(m: nat, n: nat)
    requires m <= n
    ensures Wrapped(m) == Wrapped(n) <==> (n - m) % TWO_TO_THE_64 == 0
  {
  }
}
