/**
 * How long an endpoint's circuit stays open after its f-th consecutive failure,
 * as each of the two backends computes it. Lengths are in minutes.
 */
module Circuit {
  import opened Common

  const THRESHOLD := 5
  const MAX_MINUTES := 320

  /** The largest exponent for which POWER(2, n) over double precision does not overflow. */
  const MAX_DOUBLE_EXPONENT := 1023

  datatype Backend = Postgres | Sqlite

  /** LEAST(POWER(2, f - 5), 64) times five minutes; an overflowing POWER is an error. */
  function PostgresWindow(failures: int): Option<int>
    requires failures >= THRESHOLD
  {
    if failures - THRESHOLD > MAX_DOUBLE_EXPONENT then None
    else Some(Min(Pow2(failures - THRESHOLD), 64) * 5)
  }

  /** The u64 product of the SQLite backend, wrapping as it does without overflow checks. */
  function SqliteWindow(failures: int): int
    requires failures >= THRESHOLD
  {
    var power := Pow2(failures - THRESHOLD) % (U64_MAX + 1);
    Min((5 * power) % (U64_MAX + 1), MAX_MINUTES)
  }

  function Window(backend: Backend, failures: int): Option<int>
    requires failures >= THRESHOLD
  {
    match backend
    case Postgres => PostgresWindow(failures)
    case Sqlite => Some(SqliteWindow(failures))
  }

  /** The documented schedule: five minutes at the fifth failure, doubling, never above 320. */
  function IdealWindow(failures: int): int
    requires failures >= THRESHOLD
  {
    Min(5 * Pow2(failures - THRESHOLD), MAX_MINUTES)
  }

  predicate ProductOverflows(failures: int)
    requires failures >= THRESHOLD
  {
    5 * Pow2(failures - THRESHOLD) > U64_MAX
  }

  lemma MultipleOfRange(q: nat)
    ensures (q * (U64_MAX + 1)) % (U64_MAX + 1) == 0
  {
  }

  lemma LargePowersWrapToZero(exponent: nat)
    requires exponent >= 64
    ensures Pow2(exponent) % (U64_MAX + 1) == 0
  {
    Pow2Values();
    Pow2Sum(exponent - 64, 64);
    var q := Pow2(exponent - 64);
    assert Pow2(exponent) == q * (U64_MAX + 1);
    MultipleOfRange(q);
  }

  /** The SQLite product stays inside a u64 exactly up to the 66th failure. */
  lemma OverflowExactly(failures: int)
    requires failures >= THRESHOLD
    ensures ProductOverflows(failures) <==> failures > 66
  {
    Pow2Values();
    assert Pow2(61) * 2 == Pow2(62);
    if failures <= 66 {
      Pow2Monotone(failures - THRESHOLD, 61);
    } else {
      Pow2Monotone(62, failures - THRESHOLD);
    }
  }

  /** The Postgres expression is the documented schedule until its POWER overflows. */
  lemma PostgresFollowsSchedule(failures: int)
    requires failures >= THRESHOLD
    ensures PostgresWindow(failures) == Some(IdealWindow(failures)) <==> failures <= 1028
  {
    Pow2Values();
    if failures - THRESHOLD >= 6 {
      Pow2Monotone(6, failures - THRESHOLD);
    } else {
      Pow2Monotone(failures - THRESHOLD, 6);
    }
  }

  lemma FittingProduct(power: nat)
    requires 5 * power <= U64_MAX
    ensures (5 * (power % (U64_MAX + 1))) % (U64_MAX + 1) == 5 * power
  {
  }

  /** At the 67th and 68th failure the product wraps, to something large. */
  lemma WrappedProducts()
    ensures (5 * (0x4000_0000_0000_0000 % (U64_MAX + 1))) % (U64_MAX + 1) == 0x4000_0000_0000_0000
    ensures (5 * (0x8000_0000_0000_0000 % (U64_MAX + 1))) % (U64_MAX + 1) == 0x8000_0000_0000_0000
  {
  }

  /** Up to the 68th failure the product, wrapped or not, still exceeds the cap once it should. */
  lemma SqliteWindowInRange(failures: int)
    requires THRESHOLD <= failures <= 68
    ensures SqliteWindow(failures) == IdealWindow(failures)
  {
    if failures <= 66 {
      OverflowExactly(failures);
      FittingProduct(Pow2(failures - THRESHOLD));
    } else {
      Pow2Values();
      assert Pow2(63) == 2 * Pow2(62);
      assert Pow2(failures - THRESHOLD) == Pow2(62) || Pow2(failures - THRESHOLD) == Pow2(63);
      WrappedProducts();
    }
  }

  /**
   * The SQLite expression is the documented schedule exactly up to the 68th
   * consecutive failure; from the 69th on the power wraps to zero.
   */
  lemma SqliteFollowsSchedule(failures: int)
    requires failures >= THRESHOLD
    ensures SqliteWindow(failures) == IdealWindow(failures) <==> failures <= 68
    ensures failures > 68 ==> SqliteWindow(failures) == 0
  {
    if failures <= 68 {
      SqliteWindowInRange(failures);
    } else {
      Pow2Values();
      Pow2Monotone(6, failures - THRESHOLD);
      LargePowersWrapToZero(failures - THRESHOLD);
    }
  }

  /** The two backends open a circuit for the same time exactly up to the 68th consecutive failure. */
  lemma WindowsAgreeExactly(failures: int)
    requires failures >= THRESHOLD
    ensures Window(Postgres, failures) == Window(Sqlite, failures) <==> failures <= 68
  {
    PostgresFollowsSchedule(failures);
    SqliteFollowsSchedule(failures);
    Pow2Values();
    if failures > 68 {
      Pow2Monotone(6, failures - THRESHOLD);
    }
  }

  /** The schedule doubles until it reaches its cap and then stays there. */
  lemma ScheduleDoubles(failures: int)
    requires failures >= THRESHOLD
    ensures IdealWindow(THRESHOLD) == 5
    ensures IdealWindow(failures + 1) == Min(2 * IdealWindow(failures), MAX_MINUTES)
    ensures IdealWindow(failures) == MAX_MINUTES <==> failures >= 11
  {
    Pow2Values();
    if failures >= 11 {
      Pow2Monotone(6, failures - THRESHOLD);
    } else {
      Pow2Monotone(failures - THRESHOLD, 5);
      assert Pow2(6) == 2 * Pow2(5);
    }
  }

  lemma ScheduleMonotone(earlier: int, later: int)
    requires THRESHOLD <= earlier <= later
    ensures 5 <= IdealWindow(earlier) <= IdealWindow(later) <= MAX_MINUTES
  {
    Pow2Monotone(earlier - THRESHOLD, later - THRESHOLD);
  }
}
