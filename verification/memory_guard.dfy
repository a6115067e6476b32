/**
 * The memory guard `check_memory_usage`: the resident set size sampled from
 * the operating system, in bytes, is divided by 1024 and compared with a limit
 * that the code calls gigabytes. The sampling itself is an input here.
 */
module MemoryGuard {

  /** `MEMORY_LIMIT_GB`, the limit every chunk of the splitter is checked against. */
  const MEMORY_LIMIT_GB: real := 1.0

  /** The default `limit_gb` of `check_memory_usage`. */
  const DEFAULT_LIMIT_GB: real := 1.5

  /**
   * True when `check_memory_usage(limitGb)` stops the script: `rss / 1024**1 > limitGb`.
   * Python's `/` on two integers is true division, so the quotient is exact here.
   * The guard trips exactly when the sample is more than `limitGb * 1024` bytes:
   * the unit compared with the limit is the kibibyte, not the gigabyte.
   */
  function Exceeded(rss: nat, limitGb: real): (tripped: bool)
    ensures tripped <==> rss as real > limitGb * 1024.0
  {
    (rss as real) / 1024.0 > limitGb
  }

  /**
   * With the limit the splitter passes, any process whose resident set is
   * larger than 1024 bytes is stopped; a 50 MiB process is.
   */
  lemma SplitterLimitTripsAboveOneKiB(rss: nat)
    ensures Exceeded(rss, MEMORY_LIMIT_GB) <==> rss > 1024
    ensures Exceeded(50 * 1024 * 1024, MEMORY_LIMIT_GB)
  {
  }

  /**
   * Called with its default limit, the guard would stop any process larger
   * than 1536 bytes: the default is 1.5 kibibytes, not 1.5 gigabytes.
   */
  lemma DefaultLimitTripsAbove1536Bytes(rss: nat)
    ensures Exceeded(rss, DEFAULT_LIMIT_GB) <==> rss > 1536
  {
  }

  /** The guard is monotone: a larger sample trips whenever a smaller one does. */
  lemma ExceededMonotone(rss1: nat, rss2: nat, limitGb: real)
    requires rss1 <= rss2 && Exceeded(rss1, limitGb)
    ensures Exceeded(rss2, limitGb)
  {
  }
}
