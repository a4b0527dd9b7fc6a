/** src/lib/scheduler/aging.ts: when a job runs again, and when a cached row goes stale. */
module Aging {
  const FIVE_MIN_MS := 5 * 60_000
  const FIFTEEN_MIN_MS := 15 * 60_000
  const ONE_HOUR_MS := 60 * 60_000
  const SIX_HOURS_MS := 6 * 60 * 60_000
  const TWENTY_FOUR_HOURS_MS := 24 * 60 * 60_000
  const SEVEN_DAYS_MS := 7 * 24 * 60 * 60_000
  const MAX_ATTEMPTS := 5

  /** `failure` is the flag the source sets only on the last rung of the failure ladder. */
  datatype Delay = Delay(ms: int, failure: bool)

  function SuccessDelay(refreshCount: int, recentQueryCount24h: int): Delay {
    if recentQueryCount24h > 10 then Delay(ONE_HOUR_MS, false)
    else
      var count := if refreshCount < 0 then 0 else refreshCount;
      if count == 0 then Delay(ONE_HOUR_MS, false)
      else if count == 1 then Delay(SIX_HOURS_MS, false)
      else Delay(SEVEN_DAYS_MS, false)
  }

  function FailureDelay(attempts: int): Delay {
    if attempts <= 0 then Delay(FIVE_MIN_MS, false)
    else if attempts == 1 then Delay(FIVE_MIN_MS, false)
    else if attempts == 2 then Delay(FIFTEEN_MIN_MS, false)
    else if attempts == 3 then Delay(ONE_HOUR_MS, false)
    else if attempts == 4 then Delay(SIX_HOURS_MS, false)
    else Delay(TWENTY_FOUR_HOURS_MS, true)
  }

  /** A negative query count is the sentinel for failure mode. */
  function NextDelay(refreshCount: int, recentQueryCount24h: int): Delay {
    if recentQueryCount24h < 0 then FailureDelay(refreshCount)
    else SuccessDelay(refreshCount, recentQueryCount24h)
  }

  /** The two ladders in minutes, for every count and attempt; only the last rung of the failure ladder raises the flag. */
  lemma LaddersInMinutes(count: int, queries: int)
    ensures var delay := NextDelay(count, queries);
            && (queries > 10 || (0 <= queries && count <= 0) ==> delay == Delay(60 * 60_000, false))
            && (0 <= queries <= 10 && count == 1 ==> delay == Delay(360 * 60_000, false))
            && (0 <= queries <= 10 && count >= 2 ==> delay == Delay(10_080 * 60_000, false))
            && (queries < 0 && count <= 1 ==> delay == Delay(5 * 60_000, false))
            && (queries < 0 && count == 2 ==> delay == Delay(15 * 60_000, false))
            && (queries < 0 && count == 3 ==> delay == Delay(60 * 60_000, false))
            && (queries < 0 && count == 4 ==> delay == Delay(360 * 60_000, false))
            && (queries < 0 && count >= 5 ==> delay == Delay(1440 * 60_000, true))
  {
  }
}
