/**
 boost::rational over unbounded integers: the gcd-minimising arithmetic is exact and keeps lowest terms without
 a final normalisation, and the continued-fraction comparison decides the order.
 */
module Rational {
  import opened Arith
  import opened NumberTheory

  /** C++ integer division and remainder: towards zero. */
  function Quot(a: int, b: int): int
    requires b > 0
  {
    if a >= 0 then a / b else -((-a) / b)
  }

  function Rem(a: int, b: int): int
    requires b > 0
  {
    a - Quot(a, b) * b
  }

  lemma QuotExact(a: int, g: int)
    requires g > 0 && Divides(g, a)
    ensures Quot(a, g) == a / g && a == Quot(a, g) * g
  {
    var k := a / g;
    assert -a == (-k) * g;
    MultipleOf(-k, g);
  }

  predicate Normalized(num: int, den: int) {
    den > 0 && Coprime(num, den)
  }

  /** num/den equals p/q as a fraction. */
  predicate Same(num: int, den: int, p: int, q: int) {
    num * q == p * den
  }

  lemma CoprimePart(a: int, b: int, k: int)
    requires Coprime(a, b * k)
    ensures Coprime(a, b)
  {
    CoprimeSymmetric(a, b * k);
    CoprimeDivisor(b, k, a);
    CoprimeSymmetric(b, a);
  }

  /** n = a*d1 + c*b1 shares no factor with b1 when a/b1 is in lowest terms and b1, d1 are coprime. */
  lemma CrossSumCoprime(a: int, b1: int, c: int, d1: int)
    requires Coprime(a, b1) && Coprime(d1, b1)
    ensures Coprime(a * d1 + c * b1, b1)
  {
    CoprimeSymmetric(a, b1);
    CoprimeSymmetric(d1, b1);
    CoprimeProduct(b1, a, d1);
    CoprimeSymmetric(b1, a * d1);
    CoprimeShift(a * d1, b1, c);
  }

  lemma SumIdentity(a: int, c: int, b1: int, d1: int, g2: int, h: int, num: int)
    requires num * g2 == a * d1 + c * b1
    ensures num * ((b1 * (h * g2)) * (d1 * (h * g2))) == (a * (d1 * (h * g2)) + c * (b1 * (h * g2))) * (b1 * (d1 * h))
  {
    var g, e := h * g2, b1 * (d1 * h);
    assert a * (d1 * g) + c * (b1 * g) == (num * g2) * g by {
      assert a * (d1 * g) == (a * d1) * g && c * (b1 * g) == (c * b1) * g;
    }
    assert (b1 * g) * (d1 * g) == (g2 * g) * e by {
      assert (b1 * g) * (d1 * g) == ((b1 * d1) * g) * g;
      assert g2 * e == (b1 * d1) * g;
    }
    assert num * ((g2 * g) * e) == ((num * g2) * g) * e;
  }

  /** The sum as the source computes it: exact, with a positive denominator and in lowest terms. */
  lemma SumInLowestTerms(a: int, b: int, c: int, d: int)
    requires Normalized(a, b) && Normalized(c, d)
    ensures var g := Gcd(b, d);
      var n := a * (d / g) + c * (b / g);
      var g2 := Gcd(n, g);
      && Divides(g, b) && Divides(g, d) && Divides(g2, n) && Divides(g2, d)
      && Normalized(n / g2, (b / g) * (d / g2))
      && Same(n / g2, (b / g) * (d / g2), a * d + c * b, b * d)
  {
    hide Coprime, Gcd;
    var g := Gcd(b, d);
    GcdDivides(b, d);
    QuotientsCoprime(b, d);
    var b1, d1 := b / g, d / g;
    assert b == b1 * g && d == d1 * g;
    var n := a * d1 + c * b1;
    CoprimePart(a, b1, g);
    CoprimePart(c, d1, g);
    CoprimeSymmetric(b1, d1);
    CrossSumCoprime(a, b1, c, d1);
    CrossSumCoprime(c, d1, a, b1);
    assert c * b1 + a * d1 == n;
    var g2 := Gcd(n, g);
    GcdDivides(n, g);
    QuotientsCoprime(n, g);
    var num, h := n / g2, g / g2;
    assert n == num * g2 && g == h * g2;
    CoprimeDivisor(num, g2, b1);
    CoprimeDivisor(num, g2, d1);
    CoprimeProduct(num, d1, h);
    CoprimeProduct(num, b1, d1 * h);
    assert d == (d1 * h) * g2;
    MultipleOf(d1 * h, g2);
    PositiveParts(b, d, b1, d1, g, h, g2);
    SumIdentity(a, c, b1, d1, g2, h, num);
  }

  lemma DifferenceInLowestTerms(a: int, b: int, c: int, d: int)
    requires Normalized(a, b) && Normalized(c, d)
    ensures var g := Gcd(b, d);
      var n := a * (d / g) - c * (b / g);
      var g2 := Gcd(n, g);
      && Divides(g, b) && Divides(g, d) && Divides(g2, n) && Divides(g2, d)
      && Normalized(n / g2, (b / g) * (d / g2))
      && Same(n / g2, (b / g) * (d / g2), a * d - c * b, b * d)
  {
    NegatedCoprime(c, d);
    hide Coprime, Gcd, Divides;
    SumInLowestTerms(a, b, -c, d);
    var b1 := b / Gcd(b, d);
    assert (-c) * b1 == -(c * b1) && (-c) * b == -(c * b);
  }

  lemma PositiveParts(b: int, d: int, b1: int, d1: int, g: int, h: int, g2: int)
    requires b > 0 && d > 0 && g > 0 && g2 > 0 && b == b1 * g && d == d1 * g && g == h * g2
    ensures b1 * (d1 * h) > 0
  {
    assert b1 > 0 && d1 > 0 && h > 0;
  }

  lemma ProductIdentity4(a1: int, g1: int, c1: int, g2: int, b2: int, d1: int)
    ensures (a1 * c1) * ((b2 * g2) * (d1 * g1)) == ((a1 * g1) * (c1 * g2)) * (b2 * d1)
  {
    assert (b2 * g2) * (d1 * g1) == (b2 * d1) * (g1 * g2);
    assert (a1 * g1) * (c1 * g2) == (a1 * c1) * (g1 * g2);
  }

  /** The product with cross-cancelled factors: exact and in lowest terms, whatever the signs. */
  lemma ProductInLowestTerms(a: int, b: int, c: int, d: int)
    requires b != 0 && d != 0 && Coprime(a, b) && Coprime(c, d)
    ensures var g1, g2 := Gcd(a, d), Gcd(c, b);
      && Divides(g1, a) && Divides(g1, d) && Divides(g2, c) && Divides(g2, b)
      && Coprime((a / g1) * (c / g2), (b / g2) * (d / g1))
      && Same((a / g1) * (c / g2), (b / g2) * (d / g1), a * c, b * d)
      && b / g2 != 0 && d / g1 != 0 && (b > 0 ==> b / g2 > 0) && (d > 0 ==> d / g1 > 0)
  {
    hide Coprime, Gcd;
    var g1, g2 := Gcd(a, d), Gcd(c, b);
    GcdDivides(a, d);
    GcdDivides(c, b);
    QuotientsCoprime(a, d);
    QuotientsCoprime(c, b);
    var a1, d1, c1, b2 := a / g1, d / g1, c / g2, b / g2;
    assert a == a1 * g1 && d == d1 * g1 && c == c1 * g2 && b == b2 * g2;
    CoprimePart(a, b2, g2);
    CoprimeDivisor(a1, g1, b2);
    CoprimePart(c, d1, g1);
    CoprimeDivisor(c1, g2, d1);
    CoprimeProduct(a1, b2, d1);
    CoprimeProduct(c1, b2, d1);
    CoprimeSymmetric(a1, b2 * d1);
    CoprimeSymmetric(c1, b2 * d1);
    CoprimeProduct(b2 * d1, a1, c1);
    CoprimeSymmetric(b2 * d1, a1 * c1);
    ProductIdentity4(a1, g1, c1, g2, b2, d1);
  }

  lemma NegatedCoprime(a: int, b: int)
    requires Coprime(a, b)
    ensures Coprime(-a, -b) && Coprime(-a, b)
  {
  }

  lemma CoprimeOne(a: int)
    ensures Gcd(a, 1) == 1 && Gcd(1, a) == 1
  {
    GcdDivides(a, 1);
    GcdDivides(1, a);
    DivisorAtMost(Gcd(a, 1), 1);
    DivisorAtMost(Gcd(1, a), 1);
  }

  /** inner_gcd: Euclid on signed operands with the remainder of C++, which takes the dividend's sign. */
  function InnerGcd(a: int, b: int): int
    decreases Abs(b)
  {
    if b == 0 then a else InnerGcd(b, if a >= 0 then a % Abs(b) else -((-a) % Abs(b)))
  }

  lemma {:induction false} InnerGcdIsGcd(a: int, b: int)
    ensures Abs(InnerGcd(a, b)) == Gcd(a, b)
    decreases Abs(b)
  {
    if b != 0 {
      InnerGcdIsGcd(b, if a >= 0 then a % Abs(b) else -((-a) % Abs(b)));
    }
  }

  predicate IsNormalized(n: int, d: int) {
    d > 0 && (n != 0 || d == 1) && Abs(InnerGcd(n, d)) == 1
  }

  /** The converting constructor's test accepts exactly the pairs every operation maintains. */
  lemma IsNormalizedExact(n: int, d: int)
    ensures IsNormalized(n, d) <==> Normalized(n, d)
  {
    InnerGcdIsGcd(n, d);
  }

  /** Field-wise equality decides equality of values. */
  lemma EqualityDecides(a: int, b: int, c: int, d: int)
    requires Normalized(a, b) && Normalized(c, d)
    ensures Same(a, b, c, d) <==> a == c && b == d
  {
    if Same(a, b, c, d) {
      LowestTermsUnique(a, b, c, d);
    }
  }

  /** A fraction with an integer part added stays in lowest terms. */
  lemma ShiftInLowestTerms(a: int, b: int, i: int)
    requires Normalized(a, b)
    ensures Normalized(a + i * b, b)
  {
    CoprimeShift(a, b, i);
  }

  lemma NormalizeIdentity(n: int, d: int)
    requires n != 0 && d != 0
    ensures var g := Gcd(n, d);
      Divides(g, n) && Divides(g, d) && Coprime(n / g, d / g) && d / g != 0 && (n / g) * d == n * (d / g)
  {
    hide Coprime, Gcd;
    var g := Gcd(n, d);
    GcdDivides(n, d);
    QuotientsCoprime(n, d);
    var p, q := n / g, d / g;
    assert n == p * g && d == q * g;
    assert p * (q * g) == (p * g) * q;
  }

  // ---------- continued fractions ----------

  /** One cycle of the expansion: n/d with quotient q and remainder r. */
  datatype Cycle = Cycle(n: int, d: int, q: int, r: int)

  predicate Floor(c: Cycle) {
    c.d > 0 && 0 <= c.r < c.d && c.n == c.q * c.d + c.r
  }

  predicate Below(s: Cycle, t: Cycle) {
    s.n * t.d < t.n * s.d
  }

  /** The first cycle: C++ division, then the remainder made non-negative by moving the quotient down. */
  method Expand(n: int, d: int) returns (c: Cycle)
    requires d > 0
    ensures c.n == n && c.d == d && Floor(c)
  {
    var q, r := Quot(n, d), Rem(n, d);
    assert -d < r && n == q * d + r;
    while r < 0
      invariant n == q * d + r && -d < r < d
      decreases -r
    {
      r, q := r + d, q - 1;
    }
    c := Cycle(n, d, q, r);
  }

  /** Equal quotients: the order is that of the remainders, and the reciprocals of those are ordered the other way. */
  lemma NextCycle(s: Cycle, t: Cycle)
    requires Floor(s) && Floor(t) && s.q == t.q && s.r > 0 && t.r > 0
    ensures var s', t' := Cycle(s.d, s.r, s.d / s.r, s.d % s.r), Cycle(t.d, t.r, t.d / t.r, t.d % t.r);
      Floor(s') && Floor(t') && Below(s, t) == Below(t', s')
  {
    CommonQuotient(s, t);
  }

  lemma CommonQuotient(s: Cycle, t: Cycle)
    requires Floor(s) && Floor(t) && s.q == t.q
    ensures Below(s, t) <==> s.r * t.d < t.r * s.d
  {
    assert s.n * t.d == s.q * (s.d * t.d) + s.r * t.d;
    assert t.n * s.d == s.q * (s.d * t.d) + t.r * s.d;
  }

  /** The end of the comparison: different quotients decide, else the variable whose expansion ended is smaller. */
  lemma Decide(s: Cycle, t: Cycle)
    requires Floor(s) && Floor(t) && (s.q != t.q || s.r == 0 || t.r == 0)
    ensures s.q < t.q ==> Below(s, t)
    ensures s.q > t.q ==> !Below(s, t)
    ensures s.q == t.q ==> (Below(s, t) <==> s.r == 0 && t.r != 0)
  {
    if s.q < t.q {
      SmallerQuotient(s, t);
    } else if s.q > t.q {
      SmallerQuotient(t, s);
    } else {
      CommonQuotient(s, t);
      if s.r == 0 && t.r != 0 {
        MulAtLeast(t.r, s.d);
      } else if t.r == 0 && s.r != 0 {
        MulAtLeast(s.r, t.d);
      }
    }
  }

  lemma FloorDecides(c: Cycle, i: int)
    requires Floor(c)
    ensures c.q < i <==> c.n < i * c.d
  {
    assert i * c.d == c.q * c.d + (i - c.q) * c.d;
    if c.q < i {
      MulAtLeast(i - c.q, c.d);
    } else {
      assert (i - c.q) * c.d <= 0;
    }
  }

  lemma SmallerQuotient(s: Cycle, t: Cycle)
    requires Floor(s) && Floor(t) && s.q < t.q
    ensures Below(s, t)
  {
    var m := s.d * t.d;
    Cleared(s, t.d);
    Cleared(t, s.d);
    assert s.q * s.d * t.d == s.q * m && t.q * t.d * s.d == t.q * m;
    assert t.q * m == s.q * m + (t.q - s.q) * m;
    MulAtLeast(t.q - s.q, m);
  }

  /** The numerator over a common denominator: the quotient's share, and a remainder short of one more. */
  lemma Cleared(s: Cycle, k: int)
    requires Floor(s) && k > 0
    ensures s.n * k == s.q * s.d * k + s.r * k && 0 <= s.r * k < s.d * k
  {
    assert s.n * k == (s.q * s.d + s.r) * k;
    MulOrdered(s.r, s.d, k);
  }

  lemma MulOrdered(x: int, y: int, k: int)
    requires 0 <= x < y && k > 0
    ensures 0 <= x * k < y * k
  {
    assert y * k == x * k + (y - x) * k;
    MulAtLeast(y - x, k);
  }

  class RationalNumber {
    var num: int
    var den: int

    ghost predicate Valid()
      reads this
    {
      Normalized(num, den)
    }

    constructor Zero()
      ensures Valid() && num == 0 && den == 1
    {
      num, den := 0, 1;
      new;
      CoprimeOne(0);
    }

    /** The constructor's normalize(); false stands for the bad_rational exception on a zero denominator. */
    method Normalize() returns (ok: bool)
      modifies this
      ensures ok == (old(den) != 0)
      ensures ok ==> Valid() && Same(num, den, old(num), old(den))
      ensures !ok ==> num == old(num) && den == old(den)
    {
      hide Coprime, Gcd;
      if den == 0 {
        return false;
      }
      if num == 0 {
        den := 1;
        CoprimeOne(0);
        CoprimeFrom(0, 1, 0, 1);
        return true;
      }
      NormalizeIdentity(num, den);
      var g := Gcd(num, den);
      QuotExact(num, g);
      QuotExact(den, g);
      num, den := Quot(num, g), Quot(den, g);
      if den < 0 {
        NegatedCoprime(num, den);
        num, den := -num, -den;
      }
      return true;
    }

    /** assign(n, d): a bad denominator throws before anything is stored. */
    method Assign(n: int, d: int) returns (ok: bool)
      requires Valid()
      modifies this
      ensures Valid() && ok == (d != 0)
      ensures if ok then Same(num, den, n, d) else num == old(num) && den == old(den)
    {
      var fresh_ := new RationalNumber.Zero();
      fresh_.num, fresh_.den := n, d;
      ok := fresh_.Normalize();
      if ok {
        num, den := fresh_.num, fresh_.den;
      }
    }

    /** operator+=; the right-hand side may be this very object. */
    method AddAssign(r: RationalNumber)
      requires Valid() && r.Valid()
      modifies this
      ensures Valid()
      ensures Same(num, den, old(num) * old(r.den) + old(r.num) * old(den), old(den) * old(r.den))
    {
      hide Coprime, Gcd;
      SumInLowestTerms(num, den, r.num, r.den);
      var rNum, rDen := r.num, r.den;
      var g := Gcd(den, rDen);
      den := Quot(den, g);
      num := num * Quot(rDen, g) + rNum * den;
      g := Gcd(num, g);
      QuotExact(num, g);
      num := Quot(num, g);
      den := den * Quot(rDen, g);
    }

    method SubAssign(r: RationalNumber)
      requires Valid() && r.Valid()
      modifies this
      ensures Valid()
      ensures Same(num, den, old(num) * old(r.den) - old(r.num) * old(den), old(den) * old(r.den))
    {
      hide Coprime, Gcd;
      DifferenceInLowestTerms(num, den, r.num, r.den);
      var rNum, rDen := r.num, r.den;
      var g := Gcd(den, rDen);
      den := Quot(den, g);
      num := num * Quot(rDen, g) - rNum * den;
      g := Gcd(num, g);
      QuotExact(num, g);
      num := Quot(num, g);
      den := den * Quot(rDen, g);
    }

    method MulAssign(r: RationalNumber)
      requires Valid() && r.Valid()
      modifies this
      ensures Valid()
      ensures Same(num, den, old(num) * old(r.num), old(den) * old(r.den))
    {
      hide Coprime, Gcd;
      ProductInLowestTerms(num, den, r.num, r.den);
      var rNum, rDen := r.num, r.den;
      var gcd1, gcd2 := Gcd(num, rDen), Gcd(rNum, den);
      QuotExact(num, gcd1);
      QuotExact(rNum, gcd2);
      num := Quot(num, gcd1) * Quot(rNum, gcd2);
      den := Quot(den, gcd2) * Quot(rDen, gcd1);
    }

    /** operator/=; false stands for the exception on a zero divisor, which leaves the object alone. */
    method DivAssign(r: RationalNumber) returns (ok: bool)
      requires Valid() && r.Valid()
      modifies this
      ensures Valid() && ok == (old(r.num) != 0)
      ensures ok ==> Same(num, den, old(num) * old(r.den), old(den) * old(r.num))
      ensures !ok ==> num == old(num) && den == old(den)
    {
      hide Coprime, Gcd;
      var rNum, rDen := r.num, r.den;
      if rNum == 0 {
        return false;
      }
      ok := true;
      if num == 0 {
        return;
      }
      CoprimeSymmetric(rNum, rDen);
      ProductInLowestTerms(num, den, rDen, rNum);
      var gcd1, gcd2 := Gcd(num, rNum), Gcd(rDen, den);
      QuotExact(num, gcd1);
      QuotExact(rNum, gcd1);
      num := Quot(num, gcd1) * Quot(rDen, gcd2);
      den := Quot(den, gcd2) * Quot(rNum, gcd1);
      if den < 0 {
        NegatedCoprime(num, den);
        num, den := -num, -den;
      }
    }

    method AddInt(i: int)
      requires Valid()
      modifies this
      ensures Valid() && den == old(den) && num == old(num) + i * den
    {
      ShiftInLowestTerms(num, den, i);
      num := num + i * den;
    }

    method SubInt(i: int)
      requires Valid()
      modifies this
      ensures Valid() && den == old(den) && num == old(num) - i * den
    {
      ShiftInLowestTerms(num, den, -i);
      assert (-i) * den == -(i * den);
      num := num - i * den;
    }

    method MulInt(i: int)
      requires Valid()
      modifies this
      ensures Valid() && Same(num, den, old(num) * i, old(den))
    {
      hide Coprime, Gcd;
      CoprimeOne(num);
      CoprimeFrom(i, 1, 0, 1);
      ProductInLowestTerms(num, den, i, 1);
      var gcd := Gcd(i, den);
      QuotExact(i, gcd);
      num := num * Quot(i, gcd);
      den := Quot(den, gcd);
    }

    method DivInt(i: int) returns (ok: bool)
      requires Valid()
      modifies this
      ensures Valid() && ok == (i != 0)
      ensures ok ==> Same(num, den, old(num), old(den) * i)
      ensures !ok ==> num == old(num) && den == old(den)
    {
      hide Coprime, Gcd;
      if i == 0 {
        return false;
      }
      ok := true;
      if num == 0 {
        return;
      }
      CoprimeOne(den);
      CoprimeFrom(1, i, 1, 0);
      ProductInLowestTerms(num, den, 1, i);
      var gcd := Gcd(num, i);
      QuotExact(num, gcd);
      QuotExact(i, gcd);
      num := Quot(num, gcd);
      den := den * Quot(i, gcd);
      if den < 0 {
        NegatedCoprime(num, den);
        num, den := -num, -den;
      }
    }

    /** operator==: field by field, and yet exactly equality of values. */
    method Equals(r: RationalNumber) returns (b: bool)
      requires Valid() && r.Valid()
      ensures b <==> Same(num, den, r.num, r.den)
    {
      EqualityDecides(num, den, r.num, r.den);
      b := num == r.num && den == r.den;
    }

    /** operator< on two rationals: compares continued-fraction components until they differ or run out. */
    method Less(o: RationalNumber) returns (b: bool)
      requires Valid() && o.Valid()
      ensures b <==> num * o.den < o.num * den
    {
      var ts := Expand(num, den);
      var rs := Expand(o.num, o.den);
      var reverse := false;
      while true
        invariant Floor(ts) && Floor(rs)
        invariant (num * o.den < o.num * den) == if reverse then Below(rs, ts) else Below(ts, rs)
        decreases ts.d
      {
        if ts.q != rs.q {
          Decide(ts, rs);
          Decide(rs, ts);
          return if reverse then ts.q > rs.q else ts.q < rs.q;
        }
        reverse := !reverse;
        if ts.r == 0 || rs.r == 0 {
          break;
        }
        NextCycle(ts, rs);
        NextCycle(rs, ts);
        ts := Cycle(ts.d, ts.r, ts.d / ts.r, ts.d % ts.r);
        rs := Cycle(rs.d, rs.r, rs.d / rs.r, rs.d % rs.r);
      }
      Decide(ts, rs);
      Decide(rs, ts);
      if ts.r == rs.r {
        return false;
      } else {
        return (ts.r != 0) != reverse;
      }
    }

    /** operator< against an integer: the floor decides. */
    method LessInt(i: int) returns (b: bool)
      requires Valid()
      ensures b <==> num < i * den
    {
      var c := Expand(num, den);
      FloorDecides(c, i);
      b := c.q < i;
    }

    method EqualsInt(i: int) returns (b: bool)
      requires Valid()
      ensures b <==> num == i * den
    {
      CoprimeFrom(i, 1, 0, 1);
      EqualityDecides(num, den, i, 1);
      b := den == 1 && num == i;
    }

    method GreaterInt(i: int) returns (b: bool)
      requires Valid()
      ensures b <==> num > i * den
    {
      var e := EqualsInt(i);
      var l := LessInt(i);
      b := if e then false else !l;
    }
  }
}
