/**
 The validators of stored messages read JSON numbers as doubles.  Rounding to the
 nearest double never makes them refuse a number that is acceptable as written.
 */
module Doubles {
  import opened Types
  import opened Json
  import opened ChannelEvents

  function Pow2(k: nat): (r: nat)
    ensures r >= 1
  {
    if k == 0 then 1 else 2 * Pow2(k - 1)
  }

  const TWO53: int := 0x20_0000_0000_0000

  /** A 53-bit integer scaled by a power of two, up or down. */
  predicate ScalesTo(m: int, k: nat, y: real) {
    0 - TWO53 < m < TWO53 && (y == (m * Pow2(k)) as real || y * (Pow2(k) as real) == m as real)
  }

  ghost predicate IsDouble(y: real) {
    exists m: int, k: nat :: ScalesTo(m, k, y)
  }

  function Distance(x: real, y: real): real {
    if x <= y then y - x else x - y
  }

  /** No double is closer to `x` than `y`; ties may go either way. */
  ghost predicate Nearest(x: real, y: real) {
    IsDouble(y) && forall d: real :: IsDouble(d) ==> Distance(x, y) <= Distance(x, d)
  }

  lemma {:induction false} FourMore(k: nat)
    ensures Pow2(k + 4) == 16 * Pow2(k)
  {
    assert Pow2(k + 4) == 2 * Pow2(k + 3) && Pow2(k + 3) == 2 * Pow2(k + 2);
    assert Pow2(k + 2) == 2 * Pow2(k + 1) && Pow2(k + 1) == 2 * Pow2(k);
  }

  lemma {:induction false} SixteenMore(k: nat)
    ensures Pow2(k + 16) == 65536 * Pow2(k)
  {
    hide Pow2;
    FourMore(k);
    FourMore(k + 4);
    FourMore(k + 8);
    FourMore(k + 12);
  }

  lemma {:induction false} PowSteps(k: nat)
    ensures Pow2(0) == 1 && Pow2(k + 1) == 2 * Pow2(k)
  {
  }

  lemma {:induction false} Powers()
    ensures Pow2(53) == TWO53 && Pow2(64) == TWO64
  {
    hide Pow2;
    PowSteps(52);
    SixteenMore(0);
    SixteenMore(16);
    SixteenMore(32);
    SixteenMore(48);
    FourMore(48);
  }

  lemma {:induction false} SmallIntegers(n: int)
    requires 0 - TWO53 < n < TWO53
    ensures IsDouble(n as real)
  {
    assert n * Pow2(0) == n;
    assert ScalesTo(n, 0, n as real);
  }

  lemma {:induction false} PowersAreDoubles()
    ensures IsDouble(TWO53 as real) && IsDouble(TWO64 as real)
  {
    Powers();
    assert 1 * Pow2(53) == TWO53 && 1 * Pow2(64) == TWO64;
    assert ScalesTo(1, 53, TWO53 as real) && ScalesTo(1, 64, TWO64 as real);
  }

  lemma {:induction false} GrowsBy(y: real, p: real)
    requires y >= 0.0 && p >= 1.0
    ensures y * p >= y
  {
    assert y * (p - 1.0) >= 0.0;
  }

  /** From 2^53 on every double is an integer. */
  lemma {:induction false} LargeIsInteger(y: real)
    requires IsDouble(y) && y >= TWO53 as real
    ensures y.Floor as real == y
  {
    var m: int, k: nat :| ScalesTo(m, k, y);
    if y != (m * Pow2(k)) as real {
      GrowsBy(y, Pow2(k) as real);
      assert false;
    }
  }

  /** Rounding keeps an acceptable principal acceptable, and keeps integers below 2^53 exactly. */
  lemma {:induction false} RoundedPrincipal(v: real, y: real)
    requires PrincipalValue(v) && Nearest(v, y)
    ensures PrincipalValue(y)
    ensures v < TWO53 as real ==> y == v
  {
    hide IsDouble;
    SmallIntegers(1);
    PowersAreDoubles();
    assert Distance(v, y) <= Distance(v, 1.0) && Distance(v, y) <= Distance(v, TWO64 as real);
    if v < TWO53 as real {
      SmallIntegers(v.Floor);
      assert Distance(v, y) <= Distance(v, v);
    } else {
      assert Distance(v, y) <= Distance(v, TWO53 as real);
      LargeIsInteger(y);
    }
  }

  /** Whatever number the validators accept as written they accept as a double. */
  lemma {:induction false} AcceptedAsDouble(j: Json, y: real)
    requires j.JNumber? && ValidNumber(j.lexeme) && Nearest(NumberValue(j.lexeme), y)
    ensures IsPrincipal(j) ==> PrincipalValue(y)
    ensures IsOne(Some(j)) ==> y == 1.0
  {
    hide Nearest;
    hide NumberValue;
    if IsPrincipal(j) {
      RoundedPrincipal(NumberValue(j.lexeme), y);
    }
    if IsOne(Some(j)) {
      RoundedPrincipal(1.0, y);
    }
  }
}
