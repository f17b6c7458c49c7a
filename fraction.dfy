/**
 * Fraction.cpp: a numerator/denominator pair of C++ `int`s with its delegating
 * constructors, the Euclid loop that finds a greatest common divisor under the
 * truncating `%`, in-place reduction, the reciprocal and rounding to an integer.
 */
module Fractions {
  import opened CppArith

  // ---------------------------------------------------------------------------
  // Divisibility and the greatest common divisor, stated independently of Euclid

  /** d divides x (only 0 is a multiple of 0). */
  predicate Divides(d: int, x: int)
  {
    if d == 0 then x == 0 else x % Abs(d) == 0
  }

  /** g is a greatest common divisor of a and b: a common divisor that every common divisor divides. */
  ghost predicate IsGcd(g: int, a: int, b: int)
  {
    Divides(g, a) && Divides(g, b) &&
    forall c :: Divides(c, a) && Divides(c, b) ==> Divides(c, g)
  }

  /** The only common divisors of a and b are 1 and -1. */
  ghost predicate Coprime(a: int, b: int)
  {
    forall c :: Divides(c, a) && Divides(c, b) ==> c == 1 || c == -1
  }

  lemma MultipleDivMod(c: int, k: int)
    requires c > 0
    ensures (c * k) / c == k && (c * k) % c == 0
  {
    var q, r := (c * k) / c, (c * k) % c;
    assert c * k == c * q + r;
    var t := k - q;
    assert c * t == r by { assert c * t == c * k - c * q; }
    if t > 0 {
      MulAtLeast(c, t);
    } else if t < 0 {
      MulAtLeast(c, -t);
    }
  }

  lemma MulAtLeast(c: int, t: int)
    requires c > 0 && t > 0
    ensures c * t >= c
  {
    assert c * t == c + c * (t - 1);
  }

  /** A multiple of d is divisible by d. */
  lemma DividesMultiple(d: int, k: int)
    ensures Divides(d, d * k)
  {
    if d != 0 {
      if d > 0 {
        MultipleDivMod(d, k);
      } else {
        assert d * k == Abs(d) * -k;
        MultipleDivMod(Abs(d), -k);
      }
    }
  }

  /** d divides x exactly when x is d times some integer, here x / |d| signed by d. */
  lemma DividesWitness(d: int, x: int)
    requires d != 0 && Divides(d, x)
    ensures x == d * (if d > 0 then x / Abs(d) else -(x / Abs(d)))
  {
    assert x == Abs(d) * (x / Abs(d)) + x % Abs(d);
  }

  /** Divisibility is closed under integer linear combinations. */
  lemma {:induction false} DividesLinear(c: int, x: int, y: int, m: int)
    requires Divides(c, x) && Divides(c, y)
    ensures Divides(c, x + y * m)
  {
    if c != 0 {
      var C := Abs(c);
      var i, j := x / C, y / C;
      assert x == C * i by { DividesWitness(C, x); }
      assert y == C * j by { DividesWitness(C, y); }
      assert y * m == C * (j * m);
      assert x + y * m == C * (i + j * m);
      DividesMultiple(C, i + j * m);
    }
  }

  /** A nonzero multiple of c is at least as large as c in magnitude. */
  lemma DividesBound(c: int, x: int)
    requires Divides(c, x) && x != 0
    ensures Abs(c) <= Abs(x)
  {
    var C: int := Abs(c);
    var k := x / C;
    DividesWitness(C, x);
    assert x == C * k;
    if k >= 1 {
      assert C * k >= C;
    } else {
      assert k <= -1;
      assert C * k <= -C;
    }
  }

  /** Two greatest common divisors of the same pair agree up to sign. */
  lemma GcdUnique(g: int, h: int, a: int, b: int)
    requires IsGcd(g, a, b) && IsGcd(h, a, b)
    ensures Abs(g) == Abs(h)
  {
    assert Divides(g, h) && Divides(h, g);
    if g != 0 && h != 0 {
      DividesBound(g, h);
      DividesBound(h, g);
    }
  }

  // ---------------------------------------------------------------------------
  // Euclid's algorithm as GreatestCommonDenominator runs it

  /**
   * The value the loop of GreatestCommonDenominator returns for (first, second):
   * while second != 0, (first, second) becomes (second, first % second) with the
   * truncating C++ remainder, so the result may be negative.
   */
  function EuclidGcd(first: int, second: int): int
    decreases Abs(second)
  {
    if second == 0 then first else EuclidGcd(second, Rem(first, second))
  }

  /** The loop's result is a greatest common divisor of its inputs. */
  lemma {:induction false} EuclidGcdIsGcd(a: int, b: int)
    ensures IsGcd(EuclidGcd(a, b), a, b)
    decreases Abs(b)
  {
    if b == 0 {
      DividesMultiple(a, 1);
      DividesMultiple(a, 0);
    } else {
      var q, r := Quot(a, b), Rem(a, b);
      var g := EuclidGcd(b, r);
      EuclidGcdIsGcd(b, r);
      assert a == r + b * q;
      DividesLinear(g, r, b, q);
      forall c | Divides(c, a) && Divides(c, b)
        ensures Divides(c, g)
      {
        DividesLinear(c, a, b, -q);
        assert a + b * -q == r;
      }
    }
  }

  /** The result is 0 exactly when both inputs are 0. */
  lemma EuclidGcdZero(a: int, b: int)
    ensures EuclidGcd(a, b) == 0 <==> a == 0 && b == 0
  {
    EuclidGcdIsGcd(a, b);
  }

  /**
   * The result divides both inputs, is a largest common divisor in magnitude,
   * and is the first input unchanged when the second is 0.
   */
  lemma EuclidGcdGreatest(a: int, b: int)
    requires a != 0 || b != 0
    ensures var g := EuclidGcd(a, b);
      g != 0 && Divides(g, a) && Divides(g, b) &&
      forall c :: Divides(c, a) && Divides(c, b) ==> Abs(c) <= Abs(g)
  {
    var g := EuclidGcd(a, b);
    EuclidGcdIsGcd(a, b);
    EuclidGcdZero(a, b);
    forall c | Divides(c, a) && Divides(c, b)
      ensures Abs(c) <= Abs(g)
    {
      DividesBound(c, g);
    }
  }

  /** Dividing by a divisor with the C++ `/` is exact. */
  lemma QuotExact(x: int, d: int)
    requires d != 0 && Divides(d, x)
    ensures Quot(x, d) * d == x
  {
    var r := Rem(x, d);
    assert Abs(r) == Abs(x) % Abs(d);
    DividesLinear(d, x, x, -2);
    assert x + x * -2 == -x;
    assert Abs(x) % Abs(d) == 0;
  }

  // ---------------------------------------------------------------------------
  // The Fraction value

  /**
   * A Fraction holds its numerator and denominator as plain ints; it is copied by
   * value wherever it is stored, as in the fps and ratio fields of ReaderInfo.
   */
  datatype Fraction = Fraction(num: int, den: int)
  {
    /** The value of the fraction as an exact rational (ToFloat and ToDouble round it). */
    function Value(): real
      requires den != 0
    {
      num as real / den as real
    }

    /** GreatestCommonDenominator: Euclid's loop on (num, den). */
    method GreatestCommonDenominator() returns (g: int)
      ensures g == EuclidGcd(num, den)
      ensures IsGcd(g, num, den)
      ensures den == 0 ==> g == num
      ensures forall h :: IsGcd(h, num, den) ==> Abs(h) == Abs(g)
    {
      var first, second := num, den;
      while second != 0
        invariant EuclidGcd(first, second) == EuclidGcd(num, den)
        decreases Abs(second)
      {
        var t := second;
        second := Rem(first, second);
        first := t;
      }
      g := first;
      EuclidGcdIsGcd(num, den);
      forall h | IsGcd(h, num, den)
        ensures Abs(h) == Abs(g)
      {
        GcdUnique(h, g, num, den);
      }
    }

    /**
     * The fraction Reduce leaves behind: num and den each divided (C++ `/`) by the
     * value of GreatestCommonDenominator. It has the same value and is in lowest
     * terms. Both being 0 would make that divisor 0.
     */
    function Reduced(): (r: Fraction)
      requires num != 0 || den != 0
      ensures r.num * den == num * r.den
      ensures Coprime(r.num, r.den)
      ensures r.den == 0 <==> den == 0
    {
      ReducedProperties(num, den);
      var g := EuclidGcd(num, den);
      Fraction(Quot(num, g), Quot(den, g))
    }

    /** Reduce: replaces num and den by those of Reduced(). */
    method Reduce() returns (r: Fraction)
      requires num != 0 || den != 0
      ensures r == Reduced()
    {
      var g := GreatestCommonDenominator();
      EuclidGcdZero(num, den);
      r := Fraction(Quot(num, g), Quot(den, g));
    }

    /** Reciprocal: den/num as a new fraction; flipping twice gives back the original. */
    function Reciprocal(): (r: Fraction)
      ensures r.num == den && r.den == num
      ensures den != 0 && num != 0 ==> r.Value() * Value() == 1.0
    {
      Fraction(den, num)
    }

    /**
     * ToInt: num/den rounded to the nearest integer, halves away from zero
     * (30000/1001 gives 30).
     */
    function ToInt(): (n: int)
      requires den != 0
      ensures Value() - 0.5 <= n as real <= Value() + 0.5
      ensures n as real - Value() == 0.5 ==> Value() > 0.0
      ensures Value() - n as real == 0.5 ==> Value() < 0.0
    {
      Round(Value())
    }
  }

  lemma ReducedProperties(n: int, d: int)
    requires n != 0 || d != 0
    ensures var g := EuclidGcd(n, d);
      g != 0 &&
      Quot(n, g) * d == n * Quot(d, g) &&
      Coprime(Quot(n, g), Quot(d, g)) &&
      (Quot(d, g) == 0 <==> d == 0)
  {
    var g := EuclidGcd(n, d);
    EuclidGcdZero(n, d);
    EuclidGcdIsGcd(n, d);
    var n', d' := Quot(n, g), Quot(d, g);
    QuotExact(n, g);
    QuotExact(d, g);
    CrossMultiply(n', d', g);
    CofactorsCoprime(n', d', g);
  }

  lemma CrossMultiply(x: int, y: int, g: int)
    ensures x * (y * g) == (x * g) * y
  {
  }

  /** Dividing a pair by its greatest common divisor leaves a coprime pair. */
  lemma CofactorsCoprime(n': int, d': int, g: int)
    requires g != 0 && (n' * g != 0 || d' * g != 0)
    requires IsGcd(g, n' * g, d' * g)
    ensures Coprime(n', d')
  {
    forall c | Divides(c, n') && Divides(c, d')
      ensures c == 1 || c == -1
    {
      CofactorUnit(c, n', d', g);
    }
  }

  lemma CofactorUnit(c: int, n': int, d': int, g: int)
    requires Divides(c, n') && Divides(c, d')
    requires g != 0 && (n' * g != 0 || d' * g != 0)
    requires IsGcd(g, n' * g, d' * g)
    ensures c == 1 || c == -1
  {
    ScaleDivides(c, n', g);
    ScaleDivides(c, d', g);
    assert Divides(c * g, g);
    if c == 0 {
      assert false;
    }
    DividesBound(c * g, g);
    AbsMul(c, g);
    if Abs(c) >= 2 {
      MulAtLeast(Abs(g), Abs(c));
      assert Abs(c) * Abs(g) == Abs(g) + Abs(g) * (Abs(c) - 1);
      MulAtLeast(Abs(g), Abs(c) - 1);
      assert false;
    }
  }

  lemma AbsMul(x: int, y: int)
    ensures Abs(x * y) == Abs(x) * Abs(y)
  {
    if x < 0 && y >= 0 { assert x * y == -(Abs(x) * y); }
    else if x >= 0 && y < 0 { assert x * y == -(x * Abs(y)); }
    else if x < 0 && y < 0 { assert x * y == Abs(x) * Abs(y); }
  }

  lemma ScaleDivides(c: int, x: int, g: int)
    requires Divides(c, x)
    ensures Divides(c * g, x * g)
  {
    if c == 0 {
    } else {
      var k := if c > 0 then x / Abs(c) else -(x / Abs(c));
      DividesWitness(c, x);
      assert x * g == (c * g) * k;
      DividesMultiple(c * g, k);
    }
  }

  /** Flipping a fraction twice gives it back. */
  lemma ReciprocalInvolution(f: Fraction)
    ensures f.Reciprocal().Reciprocal() == f
  {
  }

  // ---------------------------------------------------------------------------
  // The delegating constructors

  /** Fraction(): the default fraction 1/1. */
  function DefaultFraction(): (f: Fraction)
    ensures f.num == 1 && f.den == 1
    ensures f.Value() == 1.0
  {
    Fraction(1, 1)
  }

  /** Fraction(std::pair<int, int>): first over second. */
  function FromPair(p: (int, int)): (f: Fraction)
    ensures f.num == p.0 && f.den == p.1
  {
    Fraction(p.0, p.1)
  }

  /**
   * Fraction(std::map<std::string, int>): mapping["num"] over mapping["den"];
   * `operator[]` on a missing key yields 0.
   */
  function FromMap(mapping: map<string, int>): (f: Fraction)
    ensures "num" in mapping ==> f.num == mapping["num"]
    ensures "den" in mapping ==> f.den == mapping["den"]
    ensures "num" !in mapping ==> f.num == 0
    ensures "den" !in mapping ==> f.den == 0
  {
    Fraction(if "num" in mapping then mapping["num"] else 0,
             if "den" in mapping then mapping["den"] else 0)
  }

  /** Fraction(std::vector<int>): v[0] over v[1]; a shorter vector is out of bounds. */
  function FromVector(v: seq<int>): (f: Fraction)
    requires |v| >= 2
    ensures f == FromPair((v[0], v[1]))
  {
    Fraction(v[0], v[1])
  }

  // ---------------------------------------------------------------------------
  // Worked examples

  /** The remainder keeps the dividend's sign, so 4/-6 reduces to -2/3 with a divisor of -2. */
  lemma ReduceNegativeExample()
    ensures EuclidGcd(4, -6) == -2
    ensures Fraction(4, -6).Reduced() == Fraction(-2, 3)
  {
    assert Rem(4, -6) == 4;
    assert Rem(-6, 4) == -2;
    assert Rem(4, -2) == 0;
    assert EuclidGcd(4, -2) == -2;
    assert EuclidGcd(-6, 4) == -2;
  }

  /** 30000/1001 frames per second rounds to 30; halves go away from zero. */
  lemma ToIntExamples()
    ensures Fraction(30000, 1001).ToInt() == 30
    ensures Fraction(1, 2).ToInt() == 1 && Fraction(-1, 2).ToInt() == -1
  {
  }
}
