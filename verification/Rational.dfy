/** Fractions in lowest terms, as the rational number library keeps them. */
module Rational {

  datatype Fraction = Fraction(num: int, den: int)

  type Rational = q: Fraction | q.den > 0 && Gcd(Abs(q.num), q.den) == 1
    witness Fraction(0, 1)

  function Abs(n: int): nat {
    if n < 0 then -n else n
  }

  function Gcd(a: nat, b: nat): (g: nat)
    ensures a > 0 || b > 0 ==> g > 0
    decreases b
  {
    if b == 0 then a else Gcd(b, a % b)
  }

  function Real(q: Rational): real {
    Quotient(q.num, q.den)
  }

  lemma MulMod(k: int, x: int)
    requires k > 0
    ensures (k * x) % k == 0 && (k * x) / k == x
  {
    var d := x - (k * x) / k;
    assert k * d == (k * x) % k;
    assert (d > 0 ==> k * d >= k) && (d < 0 ==> k * d <= -k);
  }

  lemma LinearMod(k: int, x: int, m: int, y: int)
    requires k > 0 && x % k == 0 && y % k == 0
    ensures (x * m + y) % k == 0
  {
    var z := (x / k) * m + y / k;
    assert x * m == k * (x / k) * m;
    assert x * m + y == k * z;
    MulMod(k, z);
  }

  lemma DivMod(g: int, a: int, b: int)
    requires g > 0 && b > 0 && b % g == 0 && (a % b) % g == 0
    ensures a % g == 0
  {
    LinearMod(g, b, a / b, a % b);
    assert b * (a / b) + a % b == a;
  }

  lemma {:induction false} GcdDivides(a: nat, b: nat)
    requires a > 0 || b > 0
    ensures a % Gcd(a, b) == 0 && b % Gcd(a, b) == 0
    decreases b
  {
    if b == 0 {
      MulMod(a, 1);
    } else {
      GcdDivides(b, a % b);
      DivMod(Gcd(a, b), a, b);
    }
  }

  lemma ModDivides(k: int, a: int, b: int)
    requires k > 0 && b > 0 && a % k == 0 && b % k == 0
    ensures (a % b) % k == 0
  {
    LinearMod(k, b, -(a / b), a);
    assert b * -(a / b) + a == a % b;
  }

  lemma {:induction false} GcdGreatest(k: nat, a: nat, b: nat)
    requires k > 0 && a % k == 0 && b % k == 0
    ensures Gcd(a, b) % k == 0
    decreases b
  {
    if b > 0 {
      ModDivides(k, a, b);
      GcdGreatest(k, b, a % b);
    }
  }

  lemma NestedDivisor(a: int, g: int, h: int)
    requires g > 0 && h > 0 && a % g == 0 && (a / g) % h == 0
    ensures g * h > 0 && a % (g * h) == 0
  {
    var x := (a / g) / h;
    assert a == g * (a / g) && a / g == h * x;
    assert a == (g * h) * x;
    MulMod(g * h, x);
  }

  lemma SmallMultiple(g: int, h: int)
    requires g > 0 && h > 0 && g * h > 0
    ensures g % (g * h) == 0 ==> h == 1
  {
    if h > 1 {
      assert g < g * h;
    }
  }

  /** Dividing out the greatest common divisor leaves none but one. */
  lemma Coprime(a: nat, b: nat)
    requires b > 0
    ensures var g := Gcd(a, b);
      b / g > 0 && Gcd(a / g, b / g) == 1
  {
    var g := Gcd(a, b);
    GcdDivides(a, b);
    assert b == g * (b / g);
    var h := Gcd(a / g, b / g);
    GcdDivides(a / g, b / g);
    NestedDivisor(a, g, h);
    NestedDivisor(b, g, h);
    OnlyUnitNests(a, b, h);
  }

  lemma OnlyUnitNests(a: nat, b: nat, h: nat)
    requires b > 0 && h > 0
    requires var k := Gcd(a, b) * h; k > 0 && a % k == 0 && b % k == 0
    ensures h == 1
  {
    GcdGreatest(Gcd(a, b) * h, a, b);
    SmallMultiple(Gcd(a, b), h);
  }

  lemma DivideSign(n: int, g: int)
    requires g > 0 && Abs(n) % g == 0
    ensures n == g * (n / g) && Abs(n / g) == Abs(n) / g
  {
    var m := Abs(n) / g;
    assert Abs(n) == g * m;
    MulMod(g, if n < 0 then -m else m);
    assert n == g * (if n < 0 then -m else m);
  }

  /** Reduction keeps the value and reaches lowest terms. */
  function Reduce(n: int, d: int): (q: Rational)
    requires d > 0
    ensures Real(q) == Quotient(n, d)
    ensures q.den == 1 <==> n % d == 0
  {
    var g := Gcd(Abs(n), d);
    GcdDivides(Abs(n), d);
    Coprime(Abs(n), d);
    DivideSign(n, g);
    ReducedValue(n, d, g);
    ReducedWhole(n, d);
    Fraction(n / g, d / g)
  }

  lemma ReducedValue(n: int, d: int, g: int)
    requires g > 0 && d > 0 && n == g * (n / g) && d % g == 0 && d / g > 0
    ensures (n / g) as real / (d / g) as real == n as real / d as real
  {
    var a, b := n / g, d / g;
    assert n as real == g as real * a as real && d as real == g as real * b as real;
    Cancel(g as real, a as real, b as real);
  }

  lemma Cancel(g: real, a: real, b: real)
    requires g != 0.0 && b != 0.0 && g * b != 0.0
    ensures (g * a) / (g * b) == a / b
  {
    var x, y := a / b, (g * a) / (g * b);
    assert x * b == a && y * (g * b) == g * a;
    assert (y - x) * (g * b) == 0.0;
  }

  lemma ReducedWhole(n: int, d: int)
    requires d > 0
    ensures var g := Gcd(Abs(n), d);
      d / g == 1 <==> n % d == 0
  {
    var g := Gcd(Abs(n), d);
    GcdDivides(Abs(n), d);
    AbsMod(n, d);
    if n % d == 0 {
      assert Gcd(d, 0) == d;
      assert g == d;
    }
    assert d == g * (d / g);
  }

  lemma AbsMod(n: int, d: int)
    requires d > 0
    ensures n % d == 0 <==> Abs(n) % d == 0
  {
    if n < 0 {
      if n % d == 0 {
        assert -n == d * -(n / d);
        MulMod(d, -(n / d));
      }
      if -n % d == 0 {
        assert n == d * -(-n / d);
        MulMod(d, -(-n / d));
      }
    }
  }

  function Whole(n: int): (q: Rational)
    ensures Real(q) == n as real
  {
    assert Gcd(1, Abs(n) % 1) == 1 by {
      assert Abs(n) % 1 == 0;
    }
    Fraction(n, 1)
  }

  function Neg(q: Rational): (r: Rational)
    ensures Real(r) == -Real(q)
    ensures r.den == q.den && r.num == -q.num
  {
    NegValue(q.num as real, q.den as real);
    Fraction(-q.num, q.den)
  }

  lemma NegValue(n: real, d: real)
    requires d != 0.0
    ensures (-n) / d == -(n / d)
  {
    assert (n / d) * d == n;
    assert (-(n / d)) * d == -n;
  }

  function Quotient(n: int, d: int): real
    requires d > 0
  {
    n as real / d as real
  }

  lemma AddValue(a: real, b: real, c: real, d: real)
    requires b > 0.0 && d > 0.0
    ensures b * d > 0.0 && (a * d + c * b) / (b * d) == a / b + c / d
  {
    var x, y := a / b, c / d;
    assert x * b == a && y * d == c;
    assert (x + y) * (b * d) == a * d + c * b;
  }

  lemma AddQuotients(a: int, b: int, c: int, d: int)
    requires b > 0 && d > 0
    ensures b * d > 0 && Quotient(a * d + c * b, b * d) == Quotient(a, b) + Quotient(c, d)
  {
    AddValue(a as real, b as real, c as real, d as real);
    assert (b * d) as real == b as real * d as real;
    assert (a * d) as real == a as real * d as real;
    assert (c * b) as real == c as real * b as real;
  }

  function Add(p: Rational, q: Rational): (r: Rational)
    ensures Real(r) == Real(p) + Real(q)
  {
    AddQuotients(p.num, p.den, q.num, q.den);
    Reduce(p.num * q.den + q.num * p.den, p.den * q.den)
  }

  lemma MulValue(a: real, b: real, c: real, d: real)
    requires b > 0.0 && d > 0.0
    ensures b * d > 0.0 && (a * c) / (b * d) == (a / b) * (c / d)
  {
    var x, y := a / b, c / d;
    assert x * b == a && y * d == c;
    assert (x * y) * (b * d) == a * c;
  }

  lemma MulQuotients(a: int, b: int, c: int, d: int)
    requires b > 0 && d > 0
    ensures b * d > 0 && Quotient(a * c, b * d) == Quotient(a, b) * Quotient(c, d)
  {
    MulValue(a as real, b as real, c as real, d as real);
    assert (b * d) as real == b as real * d as real;
    assert (a * c) as real == a as real * c as real;
  }

  function Mul(p: Rational, q: Rational): (r: Rational)
    ensures Real(r) == Real(p) * Real(q)
  {
    MulQuotients(p.num, p.den, q.num, q.den);
    Reduce(p.num * q.num, p.den * q.den)
  }

  /** A fraction in lowest terms is an integer exactly when its denominator is one. */
  lemma IntegerValue(q: Rational, n: int)
    requires Real(q) == n as real
    ensures q.den == 1 && q.num == n
  {
    assert q.num as real == n as real * q.den as real;
    assert q.num == n * q.den;
    MulMod(q.den, n);
    ReducedWhole(q.num, q.den);
  }
}
