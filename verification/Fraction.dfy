/** Simple fractions, always reduced, with the sign in the numerator. */
module Fractions {

  datatype Fraction = Fraction(num: int, denom: int)

  function Abs(x: int): nat {
    if x < 0 then -x else x
  }

  function Sign(x: int): int {
    if x < 0 then -1 else 1
  }

  // ---- greatest common divisors (std::gcd) ----------------------------------

  function Gcd(a: nat, b: nat): (g: nat)
    ensures a > 0 || b > 0 ==> g > 0
    decreases b
  {
    if b == 0 then a else Gcd(b, a % b)
  }

  lemma {:induction false} GcdDivides(a: nat, b: nat) returns (x: nat, y: nat)
    ensures a == Gcd(a, b) * x && b == Gcd(a, b) * y
    decreases b
  {
    if b == 0 {
      x, y := 1, 0;
    } else {
      var p, r := GcdDivides(b, a % b);
      Recombine(a, b, a / b, a % b, Gcd(a, b), p, r);
      x, y := p * (a / b) + r, p;
    }
  }

  lemma Recombine(a: nat, b: nat, q: nat, m: nat, g: nat, p: nat, r: nat)
    requires b == g * p && m == g * r && a == b * q + m
    ensures a == g * (p * q + r) && p * q >= 0
  {
    assert (g * p) * q == g * (p * q);
  }

  lemma {:induction false} Bezout(a: nat, b: nat) returns (u: int, v: int)
    ensures a * u + b * v == Gcd(a, b)
    decreases b
  {
    if b == 0 {
      u, v := 1, 0;
    } else {
      var u', v' := Bezout(b, a % b);
      var q := a / b;
      u, v := v', u' - q * v';
      assert a % b == a - b * q;
      assert (a - b * q) * v' == a * v' - b * q * v';
      assert b * (u' - q * v') == b * u' - b * q * v';
    }
  }

  predicate Coprime(x: int, y: int) {
    Gcd(Abs(x), Abs(y)) == 1
  }

  lemma SignedBezout(x: int, y: int) returns (u: int, v: int)
    ensures x * u + y * v == Gcd(Abs(x), Abs(y))
  {
    u, v := Bezout(Abs(x), Abs(y));
    u, v := if x < 0 then -u else u, if y < 0 then -v else v;
  }

  lemma CoprimeFromBezout(x: int, y: int, u: int, v: int)
    requires x * u + y * v == 1
    ensures Coprime(x, y)
  {
    var g := Gcd(Abs(x), Abs(y));
    var a, b := GcdDivides(Abs(x), Abs(y));
    var c, d := Sign(x) * a, Sign(y) * b;
    assert g * c == x && g * d == y;
    Distribute(g, c, u, d, v);
    UnitFactor(g, c * u + d * v);
  }

  lemma Distribute(g: int, c: int, u: int, d: int, v: int)
    ensures (g * c) * u + (g * d) * v == g * (c * u + d * v)
  {
  }

  lemma Signs(g: nat, k: int)
    ensures k >= 1 ==> g * k >= g
    ensures k <= 0 ==> g * k <= 0
    ensures k <= -1 ==> g * k <= -1 * g
  {
  }

  lemma UnitFactor(g: nat, k: int)
    requires g * k == 1
    ensures g == 1
  {
    Signs(g, k);
  }

  // ---- construction ---------------------------------------------------------

  /** What the class promises of every value. */
  predicate Canonical(f: Fraction) {
    f.denom > 0 && Coprime(f.num, f.denom)
  }

  /** Division truncates toward zero, as in the source. */
  function TruncDiv(x: int, y: nat): int
    requires y > 0
  {
    if x < 0 then -(-x / y) else x / y
  }

  /** The normalising constructor. */
  function Make(n: int, d: int): (r: Fraction)
    requires d != 0
    ensures Canonical(r)
    ensures r.num * d == n * r.denom
  {
    if n == 0 then Fraction(0, 1)
    else
      var g := Gcd(Abs(n), Abs(d));
      var num, denom := TruncDiv(n, g), TruncDiv(d, g);
      Reduced(n, d, num, denom);
      if denom < 0 then Fraction(-num, -denom) else Fraction(num, denom)
  }

  /** The constructor as the source runs it, reducing its two members in place. */
  method Construct(n: int, d: int) returns (f: Fraction)
    requires d != 0
    ensures f == Make(n, d)
    ensures Canonical(f) && f.num * d == n * f.denom
  {
    var num, denom := n, d;
    if n == 0 {
      denom := 1;
    } else {
      var gcd := Gcd(Abs(num), Abs(denom));
      num := TruncDiv(num, gcd);
      denom := TruncDiv(denom, gcd);
      if denom < 0 {
        num := -num;
        denom := -denom;
      }
    }
    f := Fraction(num, denom);
  }

  lemma Reduced(n: int, d: int, num: int, denom: int)
    requires n != 0 && d != 0
    requires num == TruncDiv(n, Gcd(Abs(n), Abs(d))) && denom == TruncDiv(d, Gcd(Abs(n), Abs(d)))
    ensures denom != 0 && Abs(num) <= Abs(n) && Abs(denom) <= Abs(d)
    ensures num * d == n * denom && -num * d == n * -denom
    ensures Coprime(num, denom) && Coprime(-num, -denom)
  {
    var x, y := GcdDivides(Abs(n), Abs(d));
    TruncExact(n, Gcd(Abs(n), Abs(d)), x);
    TruncExact(d, Gcd(Abs(n), Abs(d)), y);
    ReducedParts(n, d, num, denom);
  }

  lemma TruncExact(x: int, g: nat, k: nat)
    requires g > 0 && Abs(x) == g * k
    ensures x == g * TruncDiv(x, g) && Abs(TruncDiv(x, g)) <= Abs(x)
  {
    ExactQuotient(g, k);
    Grows(g, k);
    if x < 0 {
      assert -x / g == k && x == -1 * (g * k);
    }
  }

  lemma Grows(g: int, k: int)
    requires g > 0 && k >= 0
    ensures k <= g * k && g * -k == -1 * (g * k)
  {
  }

  lemma ReducedParts(n: int, d: int, num: int, denom: int)
    requires d != 0 && n == Gcd(Abs(n), Abs(d)) * num && d == Gcd(Abs(n), Abs(d)) * denom
    ensures num * d == n * denom && -num * d == n * -denom
    ensures Coprime(num, denom) && Coprime(-num, -denom)
  {
    var g := Gcd(Abs(n), Abs(d));
    Exchange(num, g, denom);
    var u, v := SignedBezout(n, d);
    Distribute(g, num, u, denom, v);
    Cancel(g, num * u + denom * v, 1);
    CoprimeFromBezout(num, denom, u, v);
  }

  lemma Exchange(x: int, g: int, y: int)
    ensures x * (g * y) == (g * x) * y
  {
  }

  lemma ExactQuotient(g: nat, x: nat)
    requires g > 0
    ensures (g * x) / g == x
  {
    var q := (g * x) / g;
    assert g * x == g * q + (g * x) % g;
    assert g * (x - q) == (g * x) % g;
    Signs(g, x - q);
  }

  lemma Cancel(g: int, x: int, y: int)
    requires g != 0 && g * x == g * y
    ensures x == y
  {
    assert g * (x - y) == 0;
  }

  // ---- equality -------------------------------------------------------------

  /** The rational number a fraction stands for. */
  ghost function Val(f: Fraction): real
    requires f.denom != 0
  {
    f.num as real / f.denom as real
  }

  lemma Quotients(a: int, b: int, c: int, d: int)
    requires b != 0 && d != 0
    ensures a as real / b as real == c as real / d as real <==> a * d == c * b
  {
    var p, q := a as real / b as real, c as real / d as real;
    assert p * b as real == a as real && q * d as real == c as real;
    assert (a * d) as real == a as real * d as real && (c * b) as real == c as real * b as real;
    assert a as real * d as real == p * (b as real * d as real);
    assert c as real * b as real == q * (b as real * d as real);
    assert b as real * d as real != 0.0;
    if p != q {
      assert (p - q) * (b as real * d as real) != 0.0;
    }
  }

  lemma DividesDenominator(f: Fraction, g: Fraction) returns (k: int)
    requires Canonical(f) && g.denom > 0 && f.num * g.denom == g.num * f.denom
    ensures g.denom == f.denom * k && k >= 1
  {
    var u, v := SignedBezout(f.num, f.denom);
    k := g.num * u + g.denom * v;
    Combination(f.num, f.denom, g.num, g.denom, u, v);
    Signs(f.denom, k);
  }

  lemma Combination(a: int, b: int, c: int, d: int, u: int, v: int)
    requires a * d == c * b && a * u + b * v == 1
    ensures d == b * (c * u + d * v)
  {
    assert d == d * (a * u + b * v);
    assert d * (a * u + b * v) == (a * d) * u + b * (d * v);
    assert (c * b) * u + b * (d * v) == b * (c * u + d * v);
  }

  /** Structural equality is equality of rationals. */
  lemma EqualIffSameValue(f: Fraction, g: Fraction)
    requires Canonical(f) && Canonical(g)
    ensures f == g <==> Val(f) == Val(g)
  {
    Quotients(f.num, f.denom, g.num, g.denom);
    if Val(f) == Val(g) {
      var k := DividesDenominator(f, g);
      var l := DividesDenominator(g, f);
      assert k > 1 ==> f.denom * k > f.denom;
      assert l > 1 ==> g.denom * l > g.denom;
      assert f.denom == g.denom;
      Cancel(f.denom, f.num, g.num);
    }
  }

  // ---- operators ------------------------------------------------------------

  function Add(x: Fraction, y: Fraction): (r: Fraction)
    requires x.denom != 0 && y.denom != 0
    ensures Canonical(r)
  {
    NonZeroProduct(x.denom, y.denom);
    Make(x.num * y.denom + y.num * x.denom, x.denom * y.denom)
  }

  function Sub(x: Fraction, y: Fraction): (r: Fraction)
    requires x.denom != 0 && y.denom != 0
    ensures Canonical(r)
  {
    NonZeroProduct(x.denom, y.denom);
    Make(x.num * y.denom - y.num * x.denom, x.denom * y.denom)
  }

  function Mul(x: Fraction, y: Fraction): (r: Fraction)
    requires x.denom != 0 && y.denom != 0
    ensures Canonical(r)
  {
    NonZeroProduct(x.denom, y.denom);
    Make(x.num * y.num, x.denom * y.denom)
  }

  /** The constructor asserts a nonzero denominator, so the divisor must not be zero. */
  function Div(x: Fraction, y: Fraction): (r: Fraction)
    requires x.denom != 0 && y.num != 0
    ensures Canonical(r)
  {
    NonZeroProduct(x.denom, y.num);
    Make(x.num * y.denom, x.denom * y.num)
  }

  function Scale(x: Fraction, s: int): (r: Fraction)
    requires x.denom != 0
    ensures Canonical(r)
  {
    Make(x.num * s, x.denom)
  }

  function Shrink(x: Fraction, s: int): (r: Fraction)
    requires x.denom != 0 && s != 0
    ensures Canonical(r)
  {
    NonZeroProduct(x.denom, s);
    Make(x.num, x.denom * s)
  }

  function Inverse(x: Fraction): (r: Fraction)
    requires x.num != 0
    ensures Canonical(r)
  {
    Make(x.denom, x.num)
  }

  lemma NonZeroProduct(x: int, y: int)
    requires x != 0 && y != 0
    ensures x * y != 0
  {
  }

  lemma Undo(p: real, w: real)
    requires w != 0.0
    ensures p * w / w == p
  {
  }

  /** Sum, difference and product of two quotients over the product of their denominators. */
  lemma CommonDenominator(a: int, b: int, c: int, d: int)
    requires b * d != 0
    ensures (a * d + c * b) as real / (b * d) as real == a as real / b as real + c as real / d as real
    ensures (a * d - c * b) as real / (b * d) as real == a as real / b as real - c as real / d as real
    ensures (a * c) as real / (b * d) as real == (a as real / b as real) * (c as real / d as real)
  {
    var p, q, w := a as real / b as real, c as real / d as real, (b * d) as real;
    assert a as real == p * b as real && c as real == q * d as real;
    Casts(a, d);
    Casts(c, b);
    Casts(a, c);
    Casts(b, d);
    Spread(p, b as real, d as real, q);
    Undo(p + q, w);
    Undo(p - q, w);
    Undo(p * q, w);
  }

  lemma Casts(x: int, y: int)
    ensures (x * y) as real == x as real * y as real
  {
  }

  lemma Spread(p: real, b: real, d: real, q: real)
    ensures (p * b) * d + (q * d) * b == (p + q) * (b * d)
    ensures (p * b) * d - (q * d) * b == (p - q) * (b * d)
    ensures (p * b) * (q * d) == (p * q) * (b * d)
  {
  }

  /** A fraction is the quotient it was made from. */
  lemma ValOf(r: Fraction, n: int, d: int)
    requires r.denom != 0 && d != 0 && r.num * d == n * r.denom
    ensures Val(r) == n as real / d as real
  {
    Quotients(r.num, r.denom, n, d);
  }

  lemma SumValue(x: Fraction, y: Fraction, r: Fraction, sign: int)
    requires x.denom != 0 && y.denom != 0 && r.denom != 0 && (sign == 1 || sign == -1)
    requires r.num * (x.denom * y.denom) == (x.num * y.denom + sign * (y.num * x.denom)) * r.denom
    ensures Val(r) == Val(x) + sign as real * Val(y)
  {
    NonZeroProduct(x.denom, y.denom);
    ValOf(r, x.num * y.denom + sign * (y.num * x.denom), x.denom * y.denom);
    CommonDenominator(x.num, x.denom, y.num, y.denom);
  }

  lemma ProductValue(x: Fraction, y: Fraction, r: Fraction)
    requires x.denom != 0 && y.denom != 0 && r.denom != 0
    requires r.num * (x.denom * y.denom) == (x.num * y.num) * r.denom
    ensures Val(r) == Val(x) * Val(y)
  {
    NonZeroProduct(x.denom, y.denom);
    ValOf(r, x.num * y.num, x.denom * y.denom);
    CommonDenominator(x.num, x.denom, y.num, y.denom);
  }

  lemma QuotientValue(x: Fraction, y: Fraction, r: Fraction)
    requires x.denom != 0 && y.denom != 0 && y.num != 0 && r.denom != 0
    requires r.num * (x.denom * y.num) == (x.num * y.denom) * r.denom
    ensures Val(y) != 0.0 && Val(r) * Val(y) == Val(x)
  {
    NonZeroProduct(x.denom, y.num);
    ValOf(r, x.num * y.denom, x.denom * y.num);
    QuotientOfQuotients(x.num, x.denom, y.num, y.denom);
  }

  /** Every operator computes the rational operation, with a reduced result. */
  lemma AddExact(x: Fraction, y: Fraction, r: Fraction)
    requires Canonical(x) && Canonical(y) && r == Add(x, y)
    ensures Canonical(r) && Val(r) == Val(x) + Val(y)
  {
    SumValue(x, y, r, 1);
  }

  lemma SubExact(x: Fraction, y: Fraction, r: Fraction)
    requires Canonical(x) && Canonical(y) && r == Sub(x, y)
    ensures Canonical(r) && Val(r) == Val(x) - Val(y)
  {
    SumValue(x, y, r, -1);
  }

  lemma MulExact(x: Fraction, y: Fraction, r: Fraction)
    requires Canonical(x) && Canonical(y) && r == Mul(x, y)
    ensures Canonical(r) && Val(r) == Val(x) * Val(y)
  {
    ProductValue(x, y, r);
  }

  lemma DivExact(x: Fraction, y: Fraction, r: Fraction)
    requires Canonical(x) && Canonical(y) && y.num != 0 && r == Div(x, y)
    ensures Canonical(r) && Val(y) != 0.0 && Val(r) * Val(y) == Val(x)
  {
    QuotientValue(x, y, r);
  }

  lemma InverseExact(y: Fraction, r: Fraction)
    requires Canonical(y) && y.num != 0 && r == Inverse(y)
    ensures Canonical(r) && r.num != 0 && Val(y) != 0.0 && Val(r) * Val(y) == 1.0
  {
    NonZeroProduct(y.denom, r.denom);
    QuotientValue(Fraction(1, 1), y, r);
  }

  lemma QuotientOfQuotients(a: int, b: int, c: int, d: int)
    requires b * c != 0 && d != 0
    ensures c as real / d as real != 0.0
    ensures ((a * d) as real / (b * c) as real) * (c as real / d as real) == a as real / b as real
  {
    var p, q := a as real / b as real, c as real / d as real;
    var r, w := p / q, (b * c) as real;
    assert a as real == p * b as real && c as real == q * d as real && p == r * q;
    Casts(a, d);
    Casts(b, c);
    FactorsRegroup(r, q, b as real, d as real);
    Undo(r, w);
  }

  lemma FactorsRegroup(r: real, q: real, b: real, d: real)
    ensures ((r * q) * b) * d == r * (b * (q * d))
  {
  }

  // ---- laws, for the structural equality of the class -------------------------

  /** Two reduced fractions with a value in common are the same. */
  lemma Same(f: Fraction, g: Fraction, v: real)
    requires Canonical(f) && Canonical(g) && Val(f) == v && Val(g) == v
    ensures f == g
  {
    EqualIffSameValue(f, g);
  }

  lemma Commutative(x: Fraction, y: Fraction)
    requires Canonical(x) && Canonical(y)
    ensures Add(x, y) == Add(y, x) && Mul(x, y) == Mul(y, x)
  {
  }

  lemma AddAssociative(x: Fraction, y: Fraction, z: Fraction)
    requires Canonical(x) && Canonical(y) && Canonical(z)
    ensures Add(Add(x, y), z) == Add(x, Add(y, z))
  {
    var xy, yz := Add(x, y), Add(y, z);
    var l, r := Add(xy, z), Add(x, yz);
    AddExact(x, y, xy);
    AddExact(y, z, yz);
    AddExact(xy, z, l);
    AddExact(x, yz, r);
    Same(l, r, Val(x) + Val(y) + Val(z));
  }

  lemma MulAssociative(x: Fraction, y: Fraction, z: Fraction)
    requires Canonical(x) && Canonical(y) && Canonical(z)
    ensures Mul(Mul(x, y), z) == Mul(x, Mul(y, z))
  {
    var xy, yz := Mul(x, y), Mul(y, z);
    var l, r := Mul(xy, z), Mul(x, yz);
    MulExact(x, y, xy);
    MulExact(y, z, yz);
    MulExact(xy, z, l);
    MulExact(x, yz, r);
    ProductTree(x, y, z, xy, yz, l, r);
  }

  lemma ProductTree(x: Fraction, y: Fraction, z: Fraction, xy: Fraction, yz: Fraction, l: Fraction, r: Fraction)
    requires x.denom > 0 && y.denom > 0 && z.denom > 0 && xy.denom > 0 && yz.denom > 0
    requires Canonical(l) && Canonical(r)
    requires Val(xy) == Val(x) * Val(y) && Val(yz) == Val(y) * Val(z)
    requires Val(l) == Val(xy) * Val(z) && Val(r) == Val(x) * Val(yz)
    ensures l == r
  {
    RealRing(Val(x), Val(y), Val(z));
    Same(l, r, Val(l));
  }

  lemma Distributive(x: Fraction, y: Fraction, z: Fraction)
    requires Canonical(x) && Canonical(y) && Canonical(z)
    ensures Mul(x, Add(y, z)) == Add(Mul(x, y), Mul(x, z))
  {
    var yz, xy, xz := Add(y, z), Mul(x, y), Mul(x, z);
    var l, r := Mul(x, yz), Add(xy, xz);
    AddExact(y, z, yz);
    MulExact(x, y, xy);
    MulExact(x, z, xz);
    MulExact(x, yz, l);
    AddExact(xy, xz, r);
    SumTree(x, y, z, yz, xy, xz, l, r);
  }

  lemma SumTree(x: Fraction, y: Fraction, z: Fraction, yz: Fraction, xy: Fraction, xz: Fraction,
                l: Fraction, r: Fraction)
    requires x.denom > 0 && y.denom > 0 && z.denom > 0 && yz.denom > 0 && xy.denom > 0 && xz.denom > 0
    requires Canonical(l) && Canonical(r)
    requires Val(yz) == Val(y) + Val(z) && Val(xy) == Val(x) * Val(y) && Val(xz) == Val(x) * Val(z)
    requires Val(l) == Val(x) * Val(yz) && Val(r) == Val(xy) + Val(xz)
    ensures l == r
  {
    RealRing(Val(x), Val(y), Val(z));
    Same(l, r, Val(l));
  }

  lemma RealRing(a: real, b: real, c: real)
    ensures (a * b) * c == a * (b * c) && a * (b + c) == a * b + a * c
  {
  }

  /** Subtraction undoes addition; division and the inverse undo multiplication. */
  lemma SubUndoesAdd(x: Fraction, y: Fraction)
    requires Canonical(x) && Canonical(y)
    ensures Sub(Add(x, y), y) == x
  {
    var s := Add(x, y);
    AddExact(x, y, s);
    SubExact(s, y, Sub(s, y));
    Same(Sub(s, y), x, Val(x));
  }

  lemma DivUndoesMul(x: Fraction, y: Fraction)
    requires Canonical(x) && Canonical(y) && y.num != 0
    ensures Div(Mul(x, y), y) == x
  {
    var p := Mul(x, y);
    var q := Div(p, y);
    MulExact(x, y, p);
    DivExact(p, y, q);
    ByFactor(x, y, p, q);
  }

  lemma ByFactor(x: Fraction, y: Fraction, p: Fraction, q: Fraction)
    requires Canonical(x) && y.denom > 0 && p.denom > 0 && Canonical(q)
    requires Val(y) != 0.0 && Val(p) == Val(x) * Val(y) && Val(q) * Val(y) == Val(p)
    ensures q == x
  {
    SameProduct(q, x, Val(y));
  }

  /** Reduced fractions whose values agree after multiplication by a nonzero number. */
  lemma SameProduct(f: Fraction, g: Fraction, b: real)
    requires Canonical(f) && Canonical(g) && b != 0.0 && Val(f) * b == Val(g) * b
    ensures f == g
  {
    var u, v := Val(f), Val(g);
    assert (u - v) * b == 0.0;
    Same(f, g, u);
  }

  lemma DivIsMulByInverse(x: Fraction, y: Fraction)
    requires Canonical(x) && Canonical(y) && y.num != 0
    ensures Div(x, y) == Mul(x, Inverse(y))
  {
    var i := Inverse(y);
    var q, p := Div(x, y), Mul(x, i);
    InverseExact(y, i);
    DivExact(x, y, q);
    MulExact(x, i, p);
    ByInverse(x, y, i, q, p);
  }

  lemma ByInverse(x: Fraction, y: Fraction, i: Fraction, q: Fraction, p: Fraction)
    requires x.denom > 0 && y.denom > 0 && i.denom > 0 && Canonical(q) && Canonical(p)
    requires Val(y) != 0.0 && Val(i) * Val(y) == 1.0
    requires Val(q) * Val(y) == Val(x) && Val(p) == Val(x) * Val(i)
    ensures q == p
  {
    RealRing(Val(x), Val(i), Val(y));
    SameProduct(q, p, Val(y));
  }

  lemma InverseTwice(y: Fraction)
    requires Canonical(y) && y.num != 0
    ensures Inverse(y).num != 0 && Inverse(Inverse(y)) == y
  {
    var i := Inverse(y);
    InverseExact(y, i);
    var j := Inverse(i);
    InverseExact(i, j);
    SameProduct(j, y, Val(i));
  }

  /** The operators that take an integer agree with the fraction made from it. */
  lemma ScalarOperators(x: Fraction, s: int)
    requires Canonical(x)
    ensures Scale(x, s) == Mul(x, Fraction(s, 1))
    ensures s != 0 ==> Shrink(x, s) == Div(x, Fraction(s, 1))
  {
  }

  // ---- machine range --------------------------------------------------------

  /** `x` and its negation are int64_t values. */
  predicate Int64(x: int) {
    Abs(x) < 0x8000_0000_0000_0000
  }

  /** The parts are below 2^31 in magnitude. */
  predicate Small(f: Fraction) {
    Abs(f.num) < 0x8000_0000 && Abs(f.denom) < 0x8000_0000
  }

  lemma ProductRange(a: int, b: int)
    requires Abs(a) < 0x8000_0000 && Abs(b) < 0x8000_0000
    ensures Abs(a * b) <= 0x7fff_ffff * 0x7fff_ffff
  {
    assert Abs(a * b) == Abs(a) * Abs(b);
    assert Abs(a) * Abs(b) <= 0x7fff_ffff * Abs(b);
  }

  /** On such operands no intermediate of any operator leaves int64_t, and neither does anything the
      constructor then computes, its sign change included. */
  lemma NoOverflow(x: Fraction, y: Fraction)
    requires Small(x) && Small(y)
    ensures Int64(x.num * y.denom) && Int64(y.num * x.denom) && Int64(x.denom * y.denom) && Int64(x.num * y.num)
    ensures Int64(x.num * y.denom + y.num * x.denom) && Int64(x.num * y.denom - y.num * x.denom)
    ensures forall n, d :: Int64(n) && Int64(d) && d != 0 ==>
                             Int64(Make(n, d).num) && Int64(Make(n, d).denom)
  {
    ProductRange(x.num, y.denom);
    ProductRange(y.num, x.denom);
    ProductRange(x.denom, y.denom);
    ProductRange(x.num, y.num);
    forall n, d | Int64(n) && Int64(d) && d != 0
      ensures Int64(Make(n, d).num) && Int64(Make(n, d).denom)
    {
      if n != 0 {
        var g := Gcd(Abs(n), Abs(d));
        Reduced(n, d, TruncDiv(n, g), TruncDiv(d, g));
      }
    }
  }
}
