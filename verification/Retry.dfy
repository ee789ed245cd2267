/**
 * The retry delay: exponential backoff with jitter, computed with a saturating
 * 64-bit product and a clamped shift. The random draw is a parameter.
 */
module Retry {
  import opened Common

  const MAX_SHIFT := 62

  function SaturatingMul(a: nat, b: nat): nat {
    Min(a * b, U64_MAX)
  }

  function Ceiling(attempt: u32, initialDelayMs: u32, capMs: u32): nat {
    Min(capMs, SaturatingMul(initialDelayMs, Pow2(Min(attempt, MAX_SHIFT))))
  }

  function Floor(attempt: u32, initialDelayMs: u32, capMs: u32): nat {
    Min(initialDelayMs, Ceiling(attempt, initialDelayMs, capMs))
  }

  /** `gen_range(floor..=ceiling)` on a given draw. */
  function Pick(floor: nat, ceiling: nat, draw: nat): nat
    requires floor <= ceiling
  {
    floor + draw % (ceiling - floor + 1)
  }

  function NextDelay(attempt: u32, initialDelayMs: u32, capMs: u32, draw: nat): nat {
    Pick(Floor(attempt, initialDelayMs, capMs), Ceiling(attempt, initialDelayMs, capMs), draw)
  }

  /** The formula the code documents, over unbounded integers. */
  function IdealCeiling(attempt: nat, initialDelayMs: nat, capMs: nat): nat {
    Min(capMs, initialDelayMs * Pow2(attempt))
  }

  /** Saturation and the shift clamp never show: the 64-bit ceiling is the ideal one on every u32 input. */
  lemma CeilingIsIdeal(attempt: u32, initialDelayMs: u32, capMs: u32)
    ensures Ceiling(attempt, initialDelayMs, capMs) == IdealCeiling(attempt, initialDelayMs, capMs)
    ensures Pow2(Min(attempt, MAX_SHIFT)) <= U64_MAX
  {
    Pow2Values();
    Pow2Monotone(Min(attempt, MAX_SHIFT), MAX_SHIFT);
    if attempt > MAX_SHIFT && initialDelayMs > 0 {
      Pow2Monotone(MAX_SHIFT, attempt);
      ProductAtLeast(initialDelayMs, Pow2(MAX_SHIFT));
      ProductAtLeast(initialDelayMs, Pow2(attempt));
    }
  }

  lemma ProductAtLeast(a: nat, b: nat)
    requires a >= 1
    ensures a * b >= b
  {
    assert a * b == b + (a - 1) * b;
  }

  lemma ProductMonotone(a: nat, b: nat, c: nat)
    requires b <= c
    ensures a * b <= a * c
  {
  }

  /** Waiting ceilings never shrink from one attempt to a later one. */
  lemma CeilingMonotone(earlier: u32, later: u32, initialDelayMs: u32, capMs: u32)
    requires earlier <= later
    ensures Ceiling(earlier, initialDelayMs, capMs) <= Ceiling(later, initialDelayMs, capMs)
  {
    CeilingIsIdeal(earlier, initialDelayMs, capMs);
    CeilingIsIdeal(later, initialDelayMs, capMs);
    Pow2Monotone(earlier, later);
    ProductMonotone(initialDelayMs, Pow2(earlier), Pow2(later));
  }

  lemma RangeBounds(attempt: u32, initialDelayMs: u32, capMs: u32)
    ensures Floor(attempt, initialDelayMs, capMs) == Min(initialDelayMs, capMs)
    ensures Floor(attempt, initialDelayMs, capMs) <= Ceiling(attempt, initialDelayMs, capMs)
  {
    CeilingIsIdeal(attempt, initialDelayMs, capMs);
    Pow2Monotone(0, attempt);
    ProductMonotone(initialDelayMs, 1, Pow2(attempt));
  }

  lemma PickRange(floor: nat, ceiling: nat, value: nat)
    requires floor <= ceiling
    ensures (exists draw: nat :: Pick(floor, ceiling, draw) == value) <==> floor <= value <= ceiling
  {
    if floor <= value <= ceiling {
      assert Pick(floor, ceiling, value - floor) == value;
    }
  }

  /**
   * A delay is possible exactly when it lies between min(initial delay, cap) and
   * min(cap, initial delay * 2^attempt); that range is never empty.
   */
  lemma DelayRange(attempt: u32, initialDelayMs: u32, capMs: u32, delay: nat)
    ensures Min(initialDelayMs, capMs) <= IdealCeiling(attempt, initialDelayMs, capMs)
    ensures (exists draw: nat :: NextDelay(attempt, initialDelayMs, capMs, draw) == delay)
       <==> Min(initialDelayMs, capMs) <= delay <= IdealCeiling(attempt, initialDelayMs, capMs)
  {
    RangeBounds(attempt, initialDelayMs, capMs);
    CeilingIsIdeal(attempt, initialDelayMs, capMs);
    var floor, ceiling := Floor(attempt, initialDelayMs, capMs), Ceiling(attempt, initialDelayMs, capMs);
    PickRange(floor, ceiling, delay);
    if draw: nat :| NextDelay(attempt, initialDelayMs, capMs, draw) == delay {
      assert Pick(floor, ceiling, draw) == delay;
    }
    if draw: nat :| Pick(floor, ceiling, draw) == delay {
      assert NextDelay(attempt, initialDelayMs, capMs, draw) == delay;
    }
  }
}
