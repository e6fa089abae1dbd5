/**
 * The redraw timer rule of the engine: when the once-per-second update message should be
 * pending, and how long to wait before the next one so that it lands on a whole second.
 */
module Scheduler {

  /** `INTERACTIVE_UPDATE_RATE_MS`: one second. */
  const InteractiveUpdateRateMs: int := 1000

  /** The timer runs only while the face is visible and in interactive (non-ambient) mode. */
  predicate ShouldTimerBeRunning(visible: bool, ambient: bool)
    ensures ShouldTimerBeRunning(visible, ambient) ==> visible
    ensures ambient ==> !ShouldTimerBeRunning(visible, ambient)
    ensures visible && !ambient ==> ShouldTimerBeRunning(visible, ambient)
  {
    visible && !ambient
  }

  /**
   * Java's `timeMs % INTERACTIVE_UPDATE_RATE_MS` on `long`: the remainder of division
   * truncated toward zero, so it takes the sign of the dividend (Dafny's own `%` never goes
   * negative).
   */
  function JavaRem(a: int): (r: int)
    ensures -InteractiveUpdateRateMs < r < InteractiveUpdateRateMs
    ensures (a - r) % InteractiveUpdateRateMs == 0
    ensures a >= 0 ==> r >= 0
    ensures a < 0 ==> r <= 0
  {
    if a >= 0 then
      MultipleOfRate(a / InteractiveUpdateRateMs);
      a % InteractiveUpdateRateMs
    else
      MultipleOfRate(-((-a) / InteractiveUpdateRateMs));
      -((-a) % InteractiveUpdateRateMs)
  }

  /** A whole number of periods is a whole-second offset. */
  lemma MultipleOfRate(k: int)
    ensures (k * InteractiveUpdateRateMs) % InteractiveUpdateRateMs == 0
  {
  }

  /** A whole-second instant. */
  predicate OnBoundary(t: int) {
    t % InteractiveUpdateRateMs == 0
  }

  /**
   * The re-arm delay `INTERACTIVE_UPDATE_RATE_MS - (timeMs % INTERACTIVE_UPDATE_RATE_MS)`.
   * It is always positive and always lands on a whole second. For a clock at or after the
   * epoch it is at most one second; before the epoch Java's remainder is negative and the
   * delay grows to between one and two seconds.
   */
  function Delay(now: int): (d: int)
    ensures d >= 1
    ensures OnBoundary(now + d)
    ensures now >= 0 ==> d <= InteractiveUpdateRateMs
    ensures now < 0 ==> InteractiveUpdateRateMs <= d < 2 * InteractiveUpdateRateMs
  {
    InteractiveUpdateRateMs - JavaRem(now)
  }

  /** From a clock at or after the epoch, the delay reaches the very next whole second. */
  lemma DelayReachesNextBoundary(now: int)
    requires now >= 0
    ensures forall t :: now < t < now + Delay(now) ==> !OnBoundary(t)
  {
  }

  /**
   * Before the epoch, and off a whole second, the delay passes one whole second without
   * stopping there and lands on the one after it.
   */
  lemma DelaySkipsBoundaryBeforeEpoch(now: int)
    requires now < 0 && !OnBoundary(now)
    ensures now < now + Delay(now) - InteractiveUpdateRateMs
    ensures OnBoundary(now + Delay(now) - InteractiveUpdateRateMs)
  {
  }

  /** Before the epoch the delay is not what the re-arm means: -1 ms waits 1001 ms. */
  lemma DelayOneBeforeEpoch()
    ensures Delay(-1) == 1001
  {
  }
}
