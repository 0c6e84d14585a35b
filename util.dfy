/** util.c: conversion of a clock reading to milliseconds.

    The clock itself is an input: `None` stands for a failed
    clock_gettime(), `Some(ts)` for the timespec it filled in. */
module Util {
  import opened Text
  import opened Limits

  datatype Timespec = Timespec(sec: int, nsec: int)

  const NSEC_PER_MSEC: nat := 1_000_000
  const MSEC_PER_SEC: nat := 1000

  /** Largest tv_sec whose millisecond count, sub-second part included,
      still fits in 64 bits. */
  const MAX_EXACT_SEC: nat := 18_446_744_073_709_550

  /** A timespec as the kernel hands it out: nanoseconds below one second. */
  predicate Valid(ts: Timespec)
  {
    0 <= ts.sec && 0 <= ts.nsec < 1_000_000_000
  }

  /** get_time_ms: 0 when the clock cannot be read; otherwise
      `(uint64_t)tv_sec * 1000 + (uint64_t)tv_nsec / 1000000`, computed in
      uint64_t and therefore modulo 2^64. */
  function GetTimeMs(clock: Option<Timespec>): (ms: nat)
    ensures ms < TWO_64
    ensures clock.None? ==> ms == 0
  {
    match clock
    case None => 0
    case Some(ts) => WrapU64(WrapU64(ts.sec) * MSEC_PER_SEC + WrapU64(ts.nsec) / NSEC_PER_MSEC)
  }

  /** Without wrap-around the result is the whole number of milliseconds
      in the reading: sub-millisecond parts are discarded, never rounded up. */
  lemma GetTimeMsExact(ts: Timespec)
    requires Valid(ts) && ts.sec <= MAX_EXACT_SEC
    ensures GetTimeMs(Some(ts)) == ts.sec * 1000 + ts.nsec / 1_000_000
    ensures GetTimeMs(Some(ts)) * 1_000_000 <= ts.sec * 1_000_000_000 + ts.nsec
    ensures ts.sec * 1_000_000_000 + ts.nsec < (GetTimeMs(Some(ts)) + 1) * 1_000_000
  {
    var q := ts.nsec / 1_000_000;
    assert q * 1_000_000 <= ts.nsec < (q + 1) * 1_000_000;
    assert 0 <= q <= 999;
    assert ts.sec * 1000 + q < TWO_64;
    assert WrapU64(ts.sec) == ts.sec && WrapU64(ts.nsec) == ts.nsec;
    assert (ts.sec * 1000 + q) * 1_000_000 == ts.sec * 1_000_000_000 + q * 1_000_000;
  }

  /** For valid readings below the wrap-around point, a later reading
      never gives a smaller millisecond count. */
  lemma GetTimeMsMonotone(a: Timespec, b: Timespec)
    requires Valid(a) && Valid(b) && a.sec <= MAX_EXACT_SEC && b.sec <= MAX_EXACT_SEC
    requires a.sec < b.sec || (a.sec == b.sec && a.nsec <= b.nsec)
    ensures GetTimeMs(Some(a)) <= GetTimeMs(Some(b))
  {
    GetTimeMsExact(a);
    GetTimeMsExact(b);
    if a.sec < b.sec {
      assert a.sec * 1000 + 1000 <= b.sec * 1000;
    } else {
      assert a.nsec / 1_000_000 <= b.nsec / 1_000_000;
    }
  }

  /** The uint64_t arithmetic wraps: one second past the wrap-around point
      the count drops from about 1.8e19 to 384. */
  lemma GetTimeMsWrapsAround()
    ensures GetTimeMs(Some(Timespec(18_446_744_073_709_551, 0))) == 18_446_744_073_709_551_000
    ensures GetTimeMs(Some(Timespec(18_446_744_073_709_552, 0))) == 384
  {
  }
}
