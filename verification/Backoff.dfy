/**
 Capped doubling backoff in 64-bit durations, and Retry-After (section 10.2.3 of RFC 9110).
 */
module Backoff {
  import opened Domain

  newtype Duration = x: int | -0x8000_0000_0000_0000 <= x < 0x8000_0000_0000_0000

  const SECOND: Duration := 1_000_000_000

  function Min(a: int, b: int): int { if a < b then a else b }

  function Max(a: int, b: int): int { if a < b then b else a }

  // initial * 2^n
  function Doubled(initial: int, n: nat): int {
    if n == 0 then initial else 2 * Doubled(initial, n - 1)
  }

  function Ideal(initial: int, max: int, attempt: int): int {
    if attempt <= 1 then initial else Min(Doubled(initial, attempt - 1), max)
  }

  // What the code returns: it compares with a truncated max/2, so one below an odd maximum
  // counts as having reached it.
  function Scheduled(initial: int, max: int, attempt: int): int {
    if attempt > 1 && Doubled(initial, attempt - 1) == max - 1 then max else Ideal(initial, max, attempt)
  }

  // The backoff of an attempt: doubled at each attempt up to the maximum, which also replaces a
  // doubling that is one short of it.
  predicate WaitsFor(backoff: int, initial: int, max: int, attempt: nat) {
    var ideal := if attempt <= 1 then initial else Min(Doubled(initial, attempt - 1), max);
    backoff == if attempt > 1 && ideal == max - 1 then max else ideal
  }

  lemma {:induction false} DoubledGrows(initial: int, m: nat, n: nat)
    requires 0 < initial && m <= n
    ensures 0 < Doubled(initial, m) <= Doubled(initial, n)
    ensures m < n ==> 2 * Doubled(initial, m) <= Doubled(initial, n)
    decreases n
  {
    if m < n {
      DoubledGrows(initial, m, n - 1);
    } else if n > 0 {
      DoubledGrows(initial, n - 1, n - 1);
    }
  }

  lemma ScheduledBounds(initial: int, max: int, attempt: int)
    requires 0 < initial <= max
    ensures 0 < initial <= Scheduled(initial, max, attempt) <= max
    ensures Ideal(initial, max, attempt) <= Scheduled(initial, max, attempt) <= Ideal(initial, max, attempt) + 1
  {
    if attempt > 1 { DoubledGrows(initial, 0, attempt - 1); }
  }

  // The schedule is the ideal one exactly when no doubling lands one below the maximum,
  // which an even maximum rules out.
  lemma IdealIff(initial: int, max: int, attempt: int)
    requires 0 < initial <= max
    ensures Scheduled(initial, max, attempt) == Ideal(initial, max, attempt)
       <==> !(attempt > 1 && Doubled(initial, attempt - 1) == max - 1)
    ensures max % 2 == 0 ==> Scheduled(initial, max, attempt) == Ideal(initial, max, attempt)
  {
    if attempt > 1 {
      assert Doubled(initial, attempt - 1) % 2 == 0;
    }
  }

  // An odd maximum that a doubling comes one short of.
  lemma OffByOne()
    ensures Ideal(1, 3, 2) == 2 && Scheduled(1, 3, 2) == 3
  {
    assert Doubled(1, 1) == 2;
  }

  lemma NonDecreasing(initial: int, max: int, a: int, b: int)
    requires 0 < initial <= max && a <= b
    ensures Scheduled(initial, max, a) <= Scheduled(initial, max, b)
  {
    ScheduledBounds(initial, max, b);
    if a > 1 { DoubledGrows(initial, a - 1, b - 1); }
  }

  method BackoffFor(initial: Duration, max: Duration, attempt: int) returns (delay: Duration)
    requires 0 < initial <= max
    ensures delay as int == Scheduled(initial as int, max as int, attempt)
    ensures Ideal(initial as int, max as int, attempt) <= delay as int <= Ideal(initial as int, max as int, attempt) + 1
    ensures delay as int == Ideal(initial as int, max as int, attempt)
       <==> !(attempt > 1 && Doubled(initial as int, attempt - 1) == max as int - 1)
  {
    ScheduledBounds(initial as int, max as int, attempt);
    delay := initial;
    var n := 1;
    while n < attempt
      invariant 1 <= n && (n == 1 || n <= attempt)
      invariant delay as int == Doubled(initial as int, n - 1)
      invariant 0 < delay <= max && (n > 1 ==> delay as int <= max as int - 2)
    {
      if delay >= max / 2 {
        DoubledGrows(initial as int, n - 1, attempt - 1);
        return max;
      }
      delay := delay * 2;
      n := n + 1;
    }
    if delay > max { return max; }
  }

  /** Retry-After */

  datatype Header = Absent | Seconds(seconds: Duration) | At(time: Time) | Unreadable

  function Requested(h: Header, now: Time, maximum: int): int {
    match h
    case Seconds(n) => if n > 0 then Min(n as int * SECOND as int, maximum) else 0
    case At(t) => if t > now then Min(t - now, maximum) else 0
    case _ => 0
  }

  // time.Time.Sub saturates.
  function Between(a: Time, b: Time): Duration {
    if a - b > 0x7fff_ffff_ffff_ffff then 0x7fff_ffff_ffff_ffff
    else if a - b < -0x8000_0000_0000_0000 then -0x8000_0000_0000_0000
    else (a - b) as Duration
  }

  method ParseRetryAfter(h: Header, now: Time, maximum: Duration) returns (delay: Duration)
    requires maximum > 0
    ensures delay as int == Requested(h, now, maximum as int)
    ensures 0 <= delay <= maximum
    ensures delay > 0 <==> (h.Seconds? && h.seconds > 0) || (h.At? && h.time > now)
    ensures h.Seconds? && 0 < h.seconds as int * 1_000_000_000 <= maximum as int ==>
      delay as int == h.seconds as int * 1_000_000_000
    ensures h.At? && now < h.time <= now + maximum as int ==> now + delay as int == h.time
    ensures h.Seconds? && h.seconds as int * 1_000_000_000 > maximum as int ==> delay == maximum
    ensures h.At? && h.time > now + maximum as int ==> delay == maximum
  {
    delay := 0;
    match h {
      case Absent => return 0;
      case Unreadable =>
      case Seconds(seconds) =>
        if seconds > 0 {
          if seconds > maximum / SECOND {
            return maximum;
          }
          delay := seconds * SECOND;
        }
      case At(time) =>
        if time > now {
          delay := Between(time, now);
        }
    }
    if delay > maximum { return maximum; }
  }

  // The delay a failed delivery is rescheduled with.
  function Delay(initial: int, max: int, attempt: int, retryAfter: int): int {
    var base := Scheduled(initial, max, attempt);
    if retryAfter > base then Min(retryAfter, max) else base
  }

  lemma DelayIsClamped(initial: int, max: int, attempt: int, retryAfter: int)
    requires 0 < initial <= max
    ensures Delay(initial, max, attempt, retryAfter) == Max(Scheduled(initial, max, attempt), Min(retryAfter, max))
    ensures 0 < Scheduled(initial, max, attempt) <= Delay(initial, max, attempt, retryAfter) <= max
  {
    ScheduledBounds(initial, max, attempt);
  }
}
