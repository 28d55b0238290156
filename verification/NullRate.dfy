/**
 Null rates are kept as floating point and turned back into counts at every append. Doubles are
 modelled by what IEEE 754 (section 4.3) promises of each operation: a relative error of at most
 2^-53.
 */
module NullRate {
  const ROWS_LIMIT: nat := 0x4_0000_0000_0000

  function Abs(x: real): real {
    if x < 0.0 then -x else x
  }

  /** `y` is `x` to within a relative 2^-53. */
  predicate Within(y: real, x: real) {
    Abs(y - x) * 9007199254740992.0 <= Abs(x)
  }

  /** `fl` rounds to within a relative 2^-53. */
  ghost predicate Rounds(fl: real -> real) {
    forall x :: Within(fl(x), x)
  }

  /** To the nearest whole number, halves away from zero. */
  function Nearest(x: real): int {
    if x < 0.0 then -((0.5 - x).Floor) else (x + 0.5).Floor
  }

  /** The rate of `n` in `rows`, as it is computed. */
  function Rate(fl: real -> real, n: nat, rows: nat): real {
    if rows > 0 then fl(n as real / rows as real) else 0.0
  }

  function Times(a: real, b: real): real {
    a * b
  }

  /** The count a rate stands for, as it is computed. */
  function CountOf(fl: real -> real, rate: real, rows: nat): int {
    Nearest(fl(Times(rate, rows as real)))
  }

  lemma Scaled(a: real, q: real, r: real, m: real)
    requires q >= 0.0 && r > 0.0 && Within(a, q) && q * r == m
    ensures Within(Times(a, r), m) && Times(a, r) >= 0.0
  {
    var d := Abs(a - q);
    assert a >= 0.0;
    assert Abs(a * r - m) == d * r by {
      assert a * r - m == (a - q) * r;
    }
    assert d * 9007199254740992.0 * r <= q * r;
    assert d * 9007199254740992.0 * r == d * r * 9007199254740992.0;
  }

  lemma Quotient(n: nat, rows: nat)
    requires rows > 0
    ensures var r, m := rows as real, n as real; m / r >= 0.0 && (m / r) * r == m
  {
  }

  lemma Close(b: real, p: real, m: real)
    requires 0.0 <= m <= ROWS_LIMIT as real && 0.0 <= p && Within(p, m) && Within(b, p)
    ensures -0.5 < b - m < 0.5
  {
  }

  lemma Recovered(fl: real -> real, q: real, r: real, m: real)
    requires Rounds(fl) && q >= 0.0 && r > 0.0 && q * r == m && 0.0 <= m <= ROWS_LIMIT as real
    ensures -0.5 < fl(Times(fl(q), r)) - m < 0.5
  {
    assert Within(fl(q), q);
    Scaled(fl(q), q, r, m);
    RoundedClose(fl, Times(fl(q), r), m);
  }

  lemma RoundedClose(fl: real -> real, p: real, m: real)
    requires Rounds(fl) && 0.0 <= p && 0.0 <= m <= ROWS_LIMIT as real && Within(p, m)
    ensures -0.5 < fl(p) - m < 0.5
  {
    assert Within(fl(p), p);
    Close(fl(p), p, m);
  }

  lemma NearestIs(x: real, n: nat)
    requires -0.5 < x - n as real < 0.5
    ensures Nearest(x) == n
  {
  }

  /** The exact count comes back from the rate, for every number of rows below 2^50. */
  lemma CountRecovered(fl: real -> real, n: nat, rows: nat)
    requires Rounds(fl) && n <= rows < ROWS_LIMIT
    ensures CountOf(fl, Rate(fl, n, rows), rows) == n
  {
    if rows == 0 {
      assert Within(fl(0.0), 0.0);
      NearestIs(fl(0.0), 0);
    } else {
      Quotient(n, rows);
      var r, m := rows as real, n as real;
      var q := m / r;
      Recovered(fl, q, r, m);
      assert Rate(fl, n, rows) == fl(q);
      NearestIs(fl(Times(fl(q), r)), n);
    }
  }
}
