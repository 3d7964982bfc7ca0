/** The arithmetic behind the rational class: greatest common divisors through Bezout's identity. */
module NumberTheory {
  import opened Arith

  function Abs(x: int): nat {
    if x < 0 then -x else x
  }

  /** Euclid's algorithm; the library's integer::gcd returns this, taken of absolute values. */
  function Euclid(a: nat, b: nat): (g: nat)
    ensures g == 0 <==> a == 0 && b == 0
    decreases b
  {
    if b == 0 then a else Euclid(b, a % b)
  }

  function Gcd(a: int, b: int): (g: nat)
    ensures g == 0 <==> a == 0 && b == 0
  {
    Euclid(Abs(a), Abs(b))
  }

  predicate Coprime(a: int, b: int) {
    Gcd(a, b) == 1
  }

  predicate Divides(g: int, n: int)
    requires g > 0
  {
    n % g == 0
  }

  lemma MultipleOf(k: int, g: int)
    requires g > 0
    ensures Divides(g, k * g) && (k * g) / g == k
  {
    QuotientOf(k * g, g, k, 0);
  }

  lemma DivisorAtMost(g: int, n: int)
    requires g > 0 && n > 0 && Divides(g, n)
    ensures g <= n
  {
    assert n == (n / g) * g;
    MulAtLeast(n / g, g);
  }

  lemma FactorOut(p: int, q: int, g: int, x: int, y: int)
    ensures (p * g) * x + (q * g) * y == (p * x + q * y) * g
  {
    assert (p * g) * x == (p * x) * g && (q * g) * y == (q * y) * g;
    assert (p * x + q * y) * g == (p * x) * g + (q * y) * g;
  }

  lemma DividesSum(g: int, m: int, n: int, x: int, y: int)
    requires g > 0 && Divides(g, m) && Divides(g, n)
    ensures Divides(g, m * x + n * y)
  {
    var p, q := m / g, n / g;
    assert m == p * g && n == q * g;
    FactorOut(p, q, g, x, y);
    MultipleOf(p * x + q * y, g);
  }

  lemma {:induction false} EuclidDivides(a: nat, b: nat)
    requires a > 0 || b > 0
    ensures Divides(Euclid(a, b), a) && Divides(Euclid(a, b), b)
    decreases b
  {
    var g := Euclid(a, b);
    if b == 0 {
      MultipleOf(1, a);
      MultipleOf(0, a);
    } else {
      EuclidDivides(b, a % b);
      assert a == b * (a / b) + (a % b) * 1;
      DividesSum(g, b, a % b, a / b, 1);
    }
  }

  lemma GcdDivides(a: int, b: int)
    requires a != 0 || b != 0
    ensures Divides(Gcd(a, b), a) && Divides(Gcd(a, b), b)
  {
    var g := Gcd(a, b);
    EuclidDivides(Abs(a), Abs(b));
    DividesSum(g, Abs(a), Abs(a), -1, 0);
    DividesSum(g, Abs(b), Abs(b), -1, 0);
  }

  lemma {:induction false} EuclidBezout(a: nat, b: nat) returns (x: int, y: int)
    ensures a * x + b * y == Euclid(a, b)
    decreases b
  {
    if b == 0 {
      x, y := 1, 0;
    } else {
      var u, v := EuclidBezout(b, a % b);
      x, y := v, u - (a / b) * v;
      assert a % b == a - b * (a / b);
      assert b * u + (a % b) * v == a * v + b * (u - (a / b) * v) by {
        assert (a % b) * v == a * v - (b * (a / b)) * v;
        assert (b * (a / b)) * v == b * ((a / b) * v);
      }
    }
  }

  lemma Bezout(a: int, b: int) returns (x: int, y: int)
    ensures a * x + b * y == Gcd(a, b)
  {
    var u, v := EuclidBezout(Abs(a), Abs(b));
    x, y := if a < 0 then -u else u, if b < 0 then -v else v;
    assert a * x == Abs(a) * u && b * y == Abs(b) * v;
  }

  lemma CoprimeFrom(a: int, b: int, x: int, y: int)
    requires a * x + b * y == 1
    ensures Coprime(a, b)
  {
    var g := Gcd(a, b);
    assert a != 0 || b != 0;
    GcdDivides(a, b);
    DividesSum(g, a, b, x, y);
    DivisorAtMost(g, 1);
  }

  lemma BezoutOne(a: int, b: int) returns (x: int, y: int)
    requires Coprime(a, b)
    ensures a * x + b * y == 1
  {
    x, y := Bezout(a, b);
  }

  // ---------- closure properties ----------

  lemma CoprimeSymmetric(a: int, b: int)
    requires Coprime(a, b)
    ensures Coprime(b, a)
  {
    var x, y := BezoutOne(a, b);
    CoprimeFrom(b, a, y, x);
  }

  lemma CoprimeProduct(a: int, b: int, c: int)
    requires Coprime(a, b) && Coprime(a, c)
    ensures Coprime(a, b * c)
  {
    hide Coprime;
    var x, y := BezoutOne(a, b);
    var u, v := BezoutOne(a, c);
    ProductIdentity(a, b, c, x, y, u, v);
    CoprimeFrom(a, b * c, x * a * u + x * c * v + b * y * u, y * v);
  }

  lemma ProductIdentity(a: int, b: int, c: int, x: int, y: int, u: int, v: int)
    ensures a * (x * a * u + x * c * v + b * y * u) + (b * c) * (y * v) == (a * x + b * y) * (a * u + c * v)
  {
    var p, q, r, s := a * x, b * y, a * u, c * v;
    assert (p + q) * (r + s) == p * r + p * s + q * r + q * s;
    assert a * (x * a * u) == p * r;
    assert a * (x * c * v) == p * s;
    assert a * (b * y * u) == q * r;
    assert (b * c) * (y * v) == q * s;
    assert a * (x * a * u + x * c * v + b * y * u) == a * (x * a * u) + a * (x * c * v) + a * (b * y * u);
  }

  /** A divisor of one side stays coprime to the other. */
  lemma CoprimeDivisor(a: int, k: int, b: int)
    requires Coprime(a * k, b)
    ensures Coprime(a, b)
  {
    var x, y := BezoutOne(a * k, b);
    assert (a * k) * x == a * (k * x);
    CoprimeFrom(a, b, k * x, y);
  }

  /** Adding a multiple of one side to the other changes nothing. */
  lemma CoprimeShift(a: int, b: int, m: int)
    requires Coprime(a, b)
    ensures Coprime(a + m * b, b)
  {
    var x, y := BezoutOne(a, b);
    assert (a + m * b) * x + b * (y - m * x) == a * x + b * y by {
      assert (a + m * b) * x == a * x + (m * b) * x;
      assert (m * b) * x == b * (m * x);
      assert b * (y - m * x) == b * y - b * (m * x);
    }
    CoprimeFrom(a + m * b, b, x, y - m * x);
  }

  lemma QuotientsCoprime(a: int, b: int)
    requires a != 0 || b != 0
    ensures var g := Gcd(a, b); Coprime(a / g, b / g)
  {
    var g := Gcd(a, b);
    GcdDivides(a, b);
    var x, y := Bezout(a, b);
    var p, q := a / g, b / g;
    assert a == p * g && b == q * g;
    hide Gcd, Coprime;
    FactorOut(p, q, g, x, y);
    QuotientUnique(g, p * x + q * y, 0, 1, 0);
    CoprimeFrom(p, q, x, y);
  }

  /** Gauss: a factor coprime to the first part of a product divides the second. */
  lemma Gauss(b: int, a: int, d: int)
    requires b > 0 && Coprime(a, b) && Divides(b, a * d)
    ensures Divides(b, d)
  {
    var x, y := BezoutOne(a, b);
    assert d == (a * d) * x + b * (d * y) by {
      assert (a * x + b * y) * d == (a * x) * d + (b * y) * d;
      assert (a * x) * d == (a * d) * x && (b * y) * d == b * (d * y);
    }
    MultipleOf(1, b);
    DividesSum(b, a * d, b, x, d * y);
  }

  /** Two fractions in lowest terms with positive denominators are equal only if they are the same pair. */
  lemma LowestTermsUnique(a: int, b: int, c: int, d: int)
    requires b > 0 && d > 0 && Coprime(a, b) && Coprime(c, d) && a * d == c * b
    ensures a == c && b == d
  {
    hide Coprime, Divides;
    MultipleOf(c, b);
    Gauss(b, a, d);
    MultipleOf(a, d);
    Gauss(d, c, b);
    DivisorAtMost(b, d);
    DivisorAtMost(d, b);
    QuotientUnique(b, a, 0, c, 0);
  }
}
