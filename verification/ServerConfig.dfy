/** src/server/config.py: the ratio the sweeper's safety rests on. */
module ServerConfig {
  import opened CheckpointFactory

  /** `_validate_sweep_threshold` lets the settings through. */
  predicate Accepts(turnTimeout: int, sweepThreshold: int) {
    sweepThreshold >= 5 * turnTimeout
  }

  /** Whether a thread touched at one time is stale when scanned at another. */
  predicate StaleAt(touch: real, scan: real, threshold: int) {
    Trunc(touch) < Trunc(scan) - threshold
  }

  lemma FloorShift(x: real, n: int)
    ensures (x + n as real).Floor == x.Floor + n
  {}

  lemma FloorMonotone(x: real, y: real)
    requires x <= y
    ensures x.Floor <= y.Floor
  {}

  /** Truncating both clock reads never makes a gap longer than its bound in whole seconds. */
  lemma TruncGap(a: real, b: real, n: int)
    requires a <= b <= a + n as real
    ensures Trunc(a) <= Trunc(b) <= Trunc(a) + n
  {
    FloorMonotone(a, b);
    FloorMonotone(-b, -a);
    FloorMonotone(b, a + n as real);
    FloorShift(a, n);
    FloorShift(-b, n);
    FloorMonotone(-a, -b + n as real);
  }

  /** A thread touched at most `threshold` seconds ago is not stale. */
  lemma RecentIsNotStale(touch: real, scan: real, threshold: int)
    requires touch <= scan <= touch + threshold as real
    ensures !StaleAt(touch, scan, threshold)
  {
    hide Trunc;
    TruncGap(touch, scan, threshold);
  }

  /** The bound is sharp: one whole second more and the thread is stale. */
  lemma OlderIsStale(touch: nat, threshold: int)
    requires touch + threshold + 1 >= 0
    ensures StaleAt(touch as real, (touch + threshold + 1) as real, threshold)
  {}

  /** No thread is stale within n seconds of its touch. */
  ghost predicate SafeFor(n: nat, threshold: int) {
    forall touch: real, scan: real :: 0.0 <= touch <= scan <= touch + n as real ==> !StaleAt(touch, scan, threshold)
  }

  /** How long a touch protects a thread: exactly as long as the threshold. */
  lemma SafeForExactly(n: nat, threshold: int)
    ensures SafeFor(n, threshold) <==> n <= threshold
  {
    hide StaleAt;
    if n <= threshold {
      forall touch: real, scan: real | 0.0 <= touch <= scan <= touch + n as real
        ensures !StaleAt(touch, scan, threshold)
      {
        RecentIsNotStale(touch, scan, threshold);
      }
    } else if threshold >= 0 {
      OlderIsStale(0, threshold);
      assert 0.0 <= 0 as real <= (0 + threshold + 1) as real <= 0 as real + n as real;
    } else {
      JustTouchedIsStale(threshold);
      assert 0.0 <= (-threshold) as real <= (-threshold) as real + n as real;
    }
  }

  function Positive(n: int): nat {
    if n < 0 then 0 else n
  }

  /** For timeouts that are not negative the validator accepts exactly the thresholds under which no thread touched
      within five timeouts is stale. */
  lemma AcceptsExactly(turnTimeout: nat, threshold: int)
    ensures Accepts(turnTimeout, threshold) <==> SafeFor(turnTimeout + 4 * turnTimeout, threshold)
  {
    hide SafeFor;
    SafeForExactly(5 * turnTimeout, threshold);
  }

  /** Under settings the validator accepts, no thread touched within five timeouts is ever stale,
      exactly when the threshold is not negative. A positive timeout implies that; a negative one does not. */
  lemma ThresholdSafeExactly(turnTimeout: int, threshold: int)
    requires Accepts(turnTimeout, threshold)
    ensures SafeFor(5 * Positive(turnTimeout), threshold) <==> threshold >= 0
  {
    hide SafeFor;
    SafeForExactly(5 * Positive(turnTimeout), threshold);
  }

  /** With a negative threshold a thread is stale the moment it is touched. */
  lemma JustTouchedIsStale(threshold: int)
    requires threshold < 0
    ensures StaleAt((-threshold) as real, (-threshold) as real, threshold)
  {}
}
