/** Exact rationals in lowest terms, as the reciprocal-rank scores use them. */
module Fractions {

  datatype Fraction = Fraction(num: int, den: int)

  function Gcd(a: nat, b: nat): (g: nat)
    ensures a > 0 || b > 0 ==> g > 0
    decreases b
  {
    if b == 0 then a else Gcd(b, a % b)
  }

  ghost predicate Divides(d: int, n: int) {
    exists q :: n == q * d
  }

  lemma {:induction false} DividesWitness(d: int, n: int, q: int)
    requires n == q * d
    ensures Divides(d, n)
  {
  }

  lemma {:induction false} GcdDivides(a: nat, b: nat)
    ensures Divides(Gcd(a, b), a) && Divides(Gcd(a, b), b)
    decreases b
  {
    var g := Gcd(a, b);
    if b == 0 {
      DividesWitness(g, a, 1);
      DividesWitness(g, b, 0);
    } else {
      GcdDivides(b, a % b);
      var p :| b == p * g;
      var q :| a % b == q * g;
      Combine(a / b, p, q, g);
      DividesWitness(g, a, (a / b) * p + q);
    }
  }

  lemma {:induction false} Combine(m: int, p: int, q: int, g: int)
    ensures m * (p * g) + q * g == (m * p + q) * g
  {
  }

  /** Integers with `x * a + y * b == Gcd(a, b)`. */
  lemma {:induction false} Bezout(a: nat, b: nat) returns (x: int, y: int)
    ensures x * a + y * b == Gcd(a, b)
    decreases b
  {
    if b == 0 {
      x, y := 1, 0;
    } else {
      var u, v := Bezout(b, a % b);
      x, y := v, u - v * (a / b);
      BezoutStep(a, b, u, v, a / b, a % b);
    }
  }

  lemma {:induction false} BezoutStep(a: int, b: int, u: int, v: int, q: int, r: int)
    requires a == q * b + r
    ensures v * a + (u - v * q) * b == u * b + v * r
  {
    assert v * a == v * (q * b) + v * r;
    assert (u - v * q) * b == u * b - v * (q * b);
  }

  /** A divisor of `a * d` that is coprime to `a` divides `d`. */
  lemma {:induction false} EuclidsLemma(a: nat, b: nat, d: int)
    requires Gcd(a, b) == 1 && Divides(b, a * d)
    ensures Divides(b, d)
  {
    var x, y := Bezout(a, b);
    var q :| a * d == q * b;
    calc {
      d;
      (x * a + y * b) * d;
      { Expand(x, a, y, b, d); }
      x * (a * d) + y * (b * d);
      x * (q * b) + y * (b * d);
      { Collect(x, q, y, d, b); }
      (x * q + y * d) * b;
    }
    DividesWitness(b, d, x * q + y * d);
  }

  lemma {:induction false} Expand(x: int, a: int, y: int, b: int, d: int)
    ensures (x * a + y * b) * d == x * (a * d) + y * (b * d)
  {
  }

  lemma {:induction false} Collect(x: int, q: int, y: int, d: int, b: int)
    ensures x * (q * b) + y * (b * d) == (x * q + y * d) * b
  {
  }

  lemma {:induction false} DivisorIsSmaller(d: int, n: int)
    requires Divides(d, n) && d > 0 && n > 0
    ensures d <= n
  {
    var q :| n == q * d;
    if q <= 0 {
      NotPositive(q, d);
    } else {
      AtLeastOne(q, d);
    }
  }

  lemma {:induction false} NotPositive(q: int, d: int)
    requires q <= 0 && d > 0
    ensures q * d <= 0
  {
  }

  lemma {:induction false} AtLeastOne(q: int, d: int)
    requires q >= 1 && d > 0
    ensures q * d >= d
  {
  }

  // ---------------------------------------------------------------- lowest terms

  predicate Lowest(f: Fraction) {
    f.num >= 0 && f.den > 0 && Gcd(f.num, f.den) == 1
  }

  lemma {:induction false} GcdScales(a: nat, b: nat, g: nat)
    requires g > 0
    ensures Gcd(a * g, b * g) == Gcd(a, b) * g
    decreases b
  {
    if b > 0 {
      ModScales(a, b, g);
      GcdScales(b, a % b, g);
      AtLeastOne(b, g);
    }
  }

  lemma {:induction false} ModScales(a: nat, b: nat, g: nat)
    requires b > 0 && g > 0
    ensures b * g > 0 && (a * g) % (b * g) == (a % b) * g
  {
    var q, r := a / b, a % b;
    AtLeastOne(b, g);
    assert a * g == q * (b * g) + r * g by {
      Combine(q, b, r, g);
    }
    assert r * g < b * g by {
      assert (b - r) * g == b * g - r * g;
      AtLeastOne(b - r, g);
    }
    ModUnique(a * g, q, r * g, b * g);
  }

  lemma {:induction false} ModUnique(n: int, q: int, r: int, d: int)
    requires 0 <= r < d && n == q * d + r
    ensures n % d == r
  {
    var p, s := n / d, n % d;
    assert (p - q) * d == p * d - q * d;
    if p > q {
      AtLeastOne(p - q, d);
    } else if p < q {
      assert (q - p) * d == q * d - p * d;
      AtLeastOne(q - p, d);
    }
  }

  /** `Fraction(n, d)`: the quotient in lowest terms. */
  function Reduce(n: nat, d: nat): Fraction
    requires d > 0
  {
    Fraction(n / Gcd(n, d), d / Gcd(n, d))
  }

  lemma {:induction false} Cofactor(n: nat, g: nat) returns (p: nat)
    requires g > 0 && Divides(g, n)
    ensures n == p * g && n / g == p && (n > 0 ==> p > 0)
  {
    var q :| n == q * g;
    if q < 0 {
      NotPositive(q + 1, g);
      assert (q + 1) * g == q * g + g;
    }
    ExactQuotient(q, g);
    p := q;
  }

  lemma {:induction false} CoprimeCofactors(p: nat, q: nat, g: nat)
    requires g > 0 && Gcd(p * g, q * g) == g
    ensures Gcd(p, q) == 1
  {
    GcdScales(p, q, g);
    var c := Gcd(p, q);
    assert (c - 1) * g == c * g - g;
    if c > 1 {
      AtLeastOne(c - 1, g);
    } else if c < 1 {
      NotPositive(c, g);
    }
  }

  lemma {:induction false} ReduceIsLowest(n: nat, d: nat)
    requires d > 0
    ensures Lowest(Reduce(n, d)) && Reduce(n, d).num * d == n * Reduce(n, d).den
  {
    var g := Gcd(n, d);
    GcdDivides(n, d);
    var p := Cofactor(n, g);
    var q := Cofactor(d, g);
    CoprimeCofactors(p, q, g);
    Swap(p, q, g);
  }

  lemma {:induction false} Swap(p: int, q: int, g: int)
    ensures p * (q * g) == (p * g) * q
  {
  }

  lemma {:induction false} ExactQuotient(p: int, g: int)
    requires g > 0
    ensures (p * g) / g == p
  {
    var q, r := (p * g) / g, (p * g) % g;
    ModUnique(p * g, p, 0, g);
    assert (q - p) * g == q * g - p * g;
    if q > p {
      AtLeastOne(q - p, g);
    } else if q < p {
      assert (p - q) * g == p * g - q * g;
      AtLeastOne(p - q, g);
    }
  }

  /** Equal quotients in lowest terms are the same fraction. */
  lemma {:induction false} LowestIsUnique(f: Fraction, g: Fraction)
    requires Lowest(f) && Lowest(g) && f.num * g.den == g.num * f.den
    ensures f == g
  {
    DividesWitness(f.den, f.num * g.den, g.num);
    EuclidsLemma(f.num, f.den, g.den);
    DividesWitness(g.den, g.num * f.den, f.num);
    EuclidsLemma(g.num, g.den, f.den);
    DivisorIsSmaller(f.den, g.den);
    DivisorIsSmaller(g.den, f.den);
    assert (f.num - g.num) * f.den == f.num * f.den - g.num * f.den;
    if f.num > g.num {
      AtLeastOne(f.num - g.num, f.den);
    } else if f.num < g.num {
      assert (g.num - f.num) * f.den == g.num * f.den - f.num * f.den;
      AtLeastOne(g.num - f.num, f.den);
    }
  }

  // ---------------------------------------------------------------- values and order

  ghost function Value(f: Fraction): real
    requires f.den > 0
  {
    f.num as real / f.den as real
  }

  /** `f < g`, by cross multiplication. */
  predicate Less(f: Fraction, g: Fraction) {
    f.num * g.den < g.num * f.den
  }

  function Add(f: Fraction, g: Fraction): (sum: Fraction)
    requires Lowest(f) && Lowest(g)
    ensures Lowest(sum)
  {
    AddPositive(f, g);
    ReduceIsLowest(f.num * g.den + g.num * f.den, f.den * g.den);
    Reduce(f.num * g.den + g.num * f.den, f.den * g.den)
  }

  lemma {:induction false} AddPositive(f: Fraction, g: Fraction)
    requires Lowest(f) && Lowest(g)
    ensures f.num * g.den + g.num * f.den >= 0 && f.den * g.den > 0
  {
    AtLeastOne(f.den, g.den);
    Product(f.num, g.den);
    Product(g.num, f.den);
  }

  lemma {:induction false} Product(a: int, b: int)
    requires a >= 0 && b >= 0
    ensures a * b >= 0
  {
  }

  /** Cross multiplication compares the quotients. */
  lemma {:induction false} LessIsLess(f: Fraction, g: Fraction)
    requires f.den > 0 && g.den > 0
    ensures Less(f, g) <==> Value(f) < Value(g)
    ensures f.num * g.den == g.num * f.den <==> Value(f) == Value(g)
  {
    var a, b, c, d := f.num as real, f.den as real, g.num as real, g.den as real;
    assert (f.num * g.den) as real == a * d && (g.num * f.den) as real == c * b;
    QuotientOrder(a, b, c, d);
  }

  lemma {:induction false} QuotientOrder(a: real, b: real, c: real, d: real)
    requires b > 0.0 && d > 0.0
    ensures a * d < c * b <==> a / b < c / d
    ensures a * d == c * b <==> a / b == c / d
  {
    var x, y := a / b, c / d;
    assert a == x * b && c == y * d;
    assert a * d == x * (b * d) && c * b == y * (b * d);
    var m := b * d;
    assert m > 0.0;
    Scale(x, y, m);
  }

  lemma {:induction false} Scale(x: real, y: real, m: real)
    requires m > 0.0
    ensures x * m < y * m <==> x < y
    ensures x * m == y * m <==> x == y
  {
    if x < y {
      assert (y - x) * m > 0.0;
    } else if y < x {
      assert (x - y) * m > 0.0;
    }
  }

  lemma {:induction false} ReduceKeepsValue(n: nat, d: nat)
    requires d > 0
    ensures Lowest(Reduce(n, d)) && Value(Reduce(n, d)) == n as real / d as real
  {
    ReduceIsLowest(n, d);
    LessIsLess(Reduce(n, d), Fraction(n, d));
  }

  lemma {:induction false} ValueOfSum(f: Fraction, g: Fraction, n: int, d: int)
    requires f.den > 0 && g.den > 0 && n == f.num * g.den + g.num * f.den && d == f.den * g.den && d > 0
    ensures n as real / d as real == Value(f) + Value(g)
  {
    var a, b, c, e := f.num as real, f.den as real, g.num as real, g.den as real;
    CastSum(f, g);
    assert n as real == a * e + c * b && d as real == b * e;
    SumOfQuotients(a, b, c, e);
  }

  /** Addition is exact. */
  lemma {:induction false} AddIsExact(f: Fraction, g: Fraction)
    requires Lowest(f) && Lowest(g)
    ensures Lowest(Add(f, g)) && Value(Add(f, g)) == Value(f) + Value(g)
  {
    AddPositive(f, g);
    var n, d := f.num * g.den + g.num * f.den, f.den * g.den;
    ReduceKeepsValue(n, d);
    ValueOfSum(f, g, n, d);
  }

  lemma {:induction false} CastSum(f: Fraction, g: Fraction)
    ensures (f.num * g.den + g.num * f.den) as real == f.num as real * g.den as real + g.num as real * f.den as real
    ensures (f.den * g.den) as real == f.den as real * g.den as real
  {
    CastProduct(f.num, g.den);
    CastProduct(g.num, f.den);
    CastProduct(f.den, g.den);
  }

  lemma {:induction false} CastProduct(a: int, b: int)
    ensures (a * b) as real == a as real * b as real
  {
  }

  lemma {:induction false} SumOfQuotients(a: real, b: real, c: real, d: real)
    requires b > 0.0 && d > 0.0
    ensures b * d > 0.0 && (a * d + c * b) / (b * d) == a / b + c / d
  {
    var x, y, m := a / b, c / d, b * d;
    assert a == x * b && c == y * d;
    assert a * d == x * m && c * b == y * m;
    assert a * d + c * b == (x + y) * m;
    var z := (a * d + c * b) / m;
    assert z * m == (x + y) * m;
    Scale(z, x + y, m);
  }
}
