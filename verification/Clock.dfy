/**
 The two time scales of the service.

 The clock handed to an operation has nanosecond resolution; every instant written to a
 table is cut down to whole seconds first. `Seconds` is that cut, `Instant` reads a stored
 value back.
 */
module Clock {
  const NANOS := 1_000_000_000

  /** The whole second that is stored for the instant `now`. */
  function Seconds(now: int): int {
    now / NANOS
  }

  /** The instant a stored second stands for. */
  function Instant(second: int): int {
    second * NANOS
  }

  /** A duration in seconds, on the fine scale. */
  function Span(seconds: int): int {
    seconds * NANOS
  }

  /** Comparing a stored second with the fine clock, or with the stored form of that clock, is the same test. */
  lemma StoredComparison(second: int, now: int)
    ensures Instant(second) <= now <==> second <= Seconds(now)
  {
  }

  /** Adding whole seconds before or after the cut gives the same stored value. */
  lemma CutCommutesWithSpan(now: int, seconds: int)
    ensures Seconds(now + Span(seconds)) == Seconds(now) + seconds
  {
  }
}
