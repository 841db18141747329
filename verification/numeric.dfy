/**
 The C++ conversion `int(d)` from a double to an int discards the fractional
 part, rounding toward zero. Dafny's `.Floor` rounds toward negative infinity,
 so the two disagree on every negative non-integer: this module writes the
 truncating conversion out explicitly.
 */
module Numeric {

  /** Truncation toward zero, the semantics of a C++ floating-to-integral conversion. */
  function Trunc(r: real): (n: int)
    ensures 0.0 <= r ==> 0 <= n && n as real <= r < n as real + 1.0
    ensures r < 0.0 ==> n <= 0 && n as real - 1.0 < r <= n as real
  {
    if r >= 0.0 then r.Floor else -((-r).Floor)
  }

  /** Truncation and floor agree exactly on non-negative values and on integers. */
  lemma TruncIsFloorWhenNonNegativeOrIntegral(r: real)
    ensures (0.0 <= r || r == r.Floor as real) <==> Trunc(r) == r.Floor
  {
    if r < 0.0 && r != r.Floor as real {
      assert r.Floor as real < r;
      assert Trunc(r) as real >= r;
    }
  }

  /**
   A truncated value is a valid index below `n` exactly when there is some
   index at all and the value lies strictly between -1 and `n`.
   */
  lemma TruncIndexRange(r: real, n: nat)
    ensures 0 <= Trunc(r) < n <==> 0 < n && -1.0 < r < n as real
  {
    var t := Trunc(r);
    if 0.0 <= r {
      if r < n as real {
        assert t as real < n as real;
      } else {
        assert t as real > n as real - 1.0;
        assert t >= n;
      }
    } else if -1.0 < r {
      assert t as real > -2.0 && t <= 0;
      assert t == 0;
    } else {
      assert t as real < 0.0;
    }
  }
}
