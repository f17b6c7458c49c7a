/**
 * The C++ arithmetic the source relies on, written out over unbounded integers:
 * `/` and `%` on `int` truncate toward zero (Dafny's are Euclidean), a `double`
 * converted to `int` is truncated toward zero, and `round` rounds halves away
 * from zero.
 */
module CppArith {

  function Abs(x: int): nat
  {
    if x < 0 then -x else x
  }

  /** Dividing naturals gives a natural. */
  lemma DivNonNegative(x: nat, y: nat)
    requires y > 0
    ensures x / y >= 0
  {
  }

  /** C++ `a / b` on `int`: the quotient truncated toward zero. */
  function Quot(a: int, b: int): (q: int)
    requires b != 0
    ensures q == 0 || ((q > 0) <==> ((a > 0) == (b > 0)))
  {
    DivNonNegative(Abs(a), Abs(b));
    var m := Abs(a) / Abs(b);
    if (a < 0) == (b < 0) then m else -m
  }

  /** The quotient's magnitude is the magnitudes' quotient, so with its sign it truncates toward zero. */
  lemma QuotMagnitude(a: int, b: int)
    requires b != 0
    ensures Abs(Quot(a, b)) == Abs(a) / Abs(b)
  {
    var m := Abs(a) / Abs(b);
    assert m >= 0;
    assert Quot(a, b) == m || Quot(a, b) == -m;
  }

  /** C++ `a % b` on `int`: what truncating division leaves over. */
  function Rem(a: int, b: int): (r: int)
    requires b != 0
    ensures Abs(r) < Abs(b)
    ensures Abs(r) == Abs(a) % Abs(b)
    ensures r == 0 || ((r > 0) <==> (a > 0))
  {
    var r := a - b * Quot(a, b);
    RemMagnitude(a, b);
    r
  }

  lemma RemMagnitude(a: int, b: int)
    requires b != 0
    ensures Abs(a - b * Quot(a, b)) == Abs(a) % Abs(b)
    ensures a >= 0 ==> a - b * Quot(a, b) >= 0
    ensures a <= 0 ==> a - b * Quot(a, b) <= 0
  {
    RemBySign(a, b, Abs(a) / Abs(b), Abs(a) % Abs(b));
  }

  /** The remainder of truncating division, given |a| = |b| * m + s. */
  lemma RemBySign(a: int, b: int, m: int, s: int)
    requires b != 0 && m >= 0 && s >= 0 && Abs(a) == Abs(b) * m + s
    ensures a - b * (if (a < 0) == (b < 0) then m else -m) == if a < 0 then -s else s
  {
    var p := Abs(b) * m;
    if b < 0 {
      assert b * m == -p;
      assert b * -m == p;
    } else {
      assert b * -m == -p;
    }
  }

  /** Conversion of a `double` to `int`: the fractional part is dropped. */
  function Trunc(x: real): (n: int)
    ensures Abs(n) as real <= (if x < 0.0 then -x else x) < Abs(n) as real + 1.0
    ensures n == 0 || ((n > 0) <==> (x > 0.0))
  {
    if x >= 0.0 then x.Floor else -((-x).Floor)
  }

  /**
   * C's `round`: the nearest integer, with halves rounded away from zero.
   */
  function Round(x: real): (n: int)
    ensures x - 0.5 <= n as real <= x + 0.5
    ensures n as real - x == 0.5 ==> x > 0.0
    ensures x - n as real == 0.5 ==> x < 0.0
  {
    if x >= 0.0 then (x + 0.5).Floor else -((-x + 0.5).Floor)
  }

  /** The two contract clauses of Round pin its result down. */
  lemma RoundUnique(x: real, n: int)
    requires x - 0.5 <= n as real <= x + 0.5
    requires n as real - x == 0.5 ==> x > 0.0
    requires x - n as real == 0.5 ==> x < 0.0
    ensures n == Round(x)
  {
  }
}
