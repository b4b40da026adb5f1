/** Integer time: instants are nanoseconds since the Unix epoch, unbounded in both directions. */
module Clock {

  type Time = int

  const SECOND: int := 1_000_000_000
  const DAY: int := 86_400_000_000_000

  /** Go's zero time.Time: midnight, 1 January of year 1. */
  const ZERO_TIME: Time := -62_135_596_800_000_000_000

  function Max(a: int, b: int): int {
    if a < b then b else a
  }

  function Min(a: int, b: int): int {
    if a < b then a else b
  }

  /** Division rounded up, for a positive divisor. */
  function CeilDiv(a: int, b: int): int
    requires 0 < b
  {
    -((-a) / b)
  }

  /** Whole seconds since the epoch, rounded down. */
  function Unix(t: Time): int {
    t / 1_000_000_000
  }

  /** The number of the UTC day holding t. */
  function DayOf(t: Time): int {
    t / 86_400_000_000_000
  }

  function DayStart(d: int): Time {
    d * 86_400_000_000_000
  }

  /** Go's remainder takes the sign of the dividend. */
  function GoRem(a: int, b: int): int
    requires 0 < b
  {
    if a >= 0 then a % b else -((-a) % b)
  }

  /** The 900-second bucket of t: its seconds less Go's remainder modulo 900. */
  function BucketStart(t: Time): int {
    Unix(t) - GoRem(Unix(t), 900)
  }

  /** The index of t's bucket: seconds over 900, rounded toward zero. */
  function BucketIndex(t: Time): int {
    if Unix(t) >= 0 then Unix(t) / 900 else -((-Unix(t)) / 900)
  }

  lemma BucketIsIndexed(t: Time)
    ensures BucketStart(t) == 900 * BucketIndex(t)
  {
  }

  lemma DayOfUnix(t: Time)
    ensures DayOf(t) == Unix(t) / 86_400
  {
  }

  lemma DayBounds(t: Time, d: int)
    ensures DayOf(t) == d <==> DayStart(d) <= t < DayStart(d + 1)
  {
  }

  /** Two instants of one bucket lie in different days exactly when the earlier one is before
      the epoch and the later one is in the first second of a day or past the epoch: rounding
      toward zero makes bucket 0 twice as wide and shifts the older buckets by one second. */
  lemma SameBucketSpansDays(t1: Time, t2: Time)
    requires t1 <= t2
    requires BucketStart(t1) == BucketStart(t2)
    ensures DayOf(t1) != DayOf(t2) <==>
            t1 < 0 && (0 <= t2 || (Unix(t1) < Unix(t2) && Unix(t2) % 86_400 == 0))
  {
    var u1, u2 := Unix(t1), Unix(t2);
    BucketIsIndexed(t1);
    BucketIsIndexed(t2);
    DayOfUnix(t1);
    DayOfUnix(t2);
    if 0 <= u1 {
      BucketsOfDay(u1);
      BucketsOfDay(u2);
    } else if u2 < 0 {
      BucketsOfEarlyDay(-u1);
      BucketsOfEarlyDay(-u2);
    }
  }

  lemma BucketsOfDay(u: nat)
    ensures u / 86_400 == (u / 900) / 96
  {
  }

  /** v seconds before the epoch. */
  lemma BucketsOfEarlyDay(v: int)
    requires 0 <= v
    ensures (-v) / 86_400 == -((v / 900) / 96) - if v % 86_400 == 0 then 0 else 1
    ensures (-v) % 86_400 == 0 <==> v % 86_400 == 0
  {
    BucketsOfDay(v);
    var m, r := v / 86_400, v % 86_400;
    assert v == 86_400 * m + r;
  }

  /** A bucket that does span two days. */
  lemma EpochBucketSpansDays()
    ensures BucketStart(-1) == BucketStart(0) && DayOf(-1) != DayOf(0)
  {
  }

  /** Instants at most w seconds apart fall into at most ceil(w/900) + 1 consecutive buckets. */
  lemma BucketSpread(t0: Time, t: Time, w: nat)
    requires t0 <= t <= t0 + w * SECOND
    ensures BucketIndex(t0) <= BucketIndex(t) <= BucketIndex(t0) + CeilDiv(w, 900)
  {
    assert Unix(t0) <= Unix(t) <= Unix(t0) + w;
  }
}
