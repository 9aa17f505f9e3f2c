/**
 The modular inverse of pem_extract_pubkey.py: the extended Euclidean algorithm over Python's integers.
 */
module ModInverse {

  ghost predicate Divides(d: int, n: int) { exists k: int :: n == d * k }

  /** No number above 1 divides both: their greatest common divisor is 1. */
  ghost predicate Coprime(a: int, m: int) {
    forall d: int :: d > 0 && Divides(d, a) && Divides(d, m) ==> d == 1
  }

  /** a * b is 1 modulo m. */
  ghost predicate IsInverse(a: int, b: int, m: int) { Divides(m, a * b - 1) }

  /** The value, ValueError, or ZeroDivisionError. */
  datatype Outcome = Inverse(b: int) | NotInvertible | ZeroModulus

  function Abs(n: int): nat { if n < 0 then -n else n }

  /** Python's %, whose result has the sign of the divisor. */
  function PyMod(x: int, m: int): int
    requires m != 0
  {
    if m > 0 then x % m else -((-x) % (-m))
  }

  ghost predicate SameDivisors(a: int, b: int, c: int, d: int) {
    forall n: int :: n > 0 ==> ((Divides(n, a) && Divides(n, b)) <==> (Divides(n, c) && Divides(n, d)))
  }

  lemma DividesCombination(d: int, a: int, b: int, s: int, t: int)
    requires Divides(d, a) && Divides(d, b)
    ensures Divides(d, a * s + b * t)
  {
    var i :| a == d * i;
    var j :| b == d * j;
    assert a * s + b * t == d * (i * s + j * t) by {
      assert (d * i) * s == d * (i * s) && (d * j) * t == d * (j * t);
    }
  }

  lemma DividesAbs(d: int, a: int)
    ensures Divides(d, a) <==> Divides(d, Abs(a))
  {
    if Divides(d, a) { var k :| a == d * k; assert -a == d * (-k); }
    if Divides(d, -a) { var k :| -a == d * k; assert a == d * (-k); }
  }

  /** One Euclidean step keeps the common divisors. */
  lemma EuclidStep(a: nat, b: nat)
    requires b > 0
    ensures SameDivisors(b, a % b, a, b)
  {
    var q := a / b;
    assert a % b == a * 1 + b * (-q);
    assert a == b * q + (a % b) * 1;
    forall n: int | n > 0
      ensures (Divides(n, b) && Divides(n, a % b)) <==> (Divides(n, a) && Divides(n, b))
    {
      if Divides(n, a) && Divides(n, b) { DividesCombination(n, a, b, 1, -q); }
      if Divides(n, b) && Divides(n, a % b) { DividesCombination(n, b, a % b, q, 1); }
    }
  }

  lemma BezoutStep(last: int, rem: int, a: int, m: int, lastx: int, lasty: int, x: int, y: int, q: int)
    requires last == a * lastx + m * lasty && rem == a * x + m * y
    ensures last - q * rem == a * (lastx - q * x) + m * (lasty - q * y)
  {
    assert a * (lastx - q * x) == a * lastx - q * (a * x);
    assert m * (lasty - q * y) == m * lasty - q * (m * y);
    assert q * rem == q * (a * x) + q * (m * y);
  }

  lemma FactorOfOne(d: int, k: int)
    requires d > 0 && 1 == d * k
    ensures d == 1
  {
    if k >= 2 { assert d * k >= 1 * k; }
  }

  /** What the end of the loop says about coprimality. */
  lemma LastRemainder(g: nat, a: int, m: int, lastx: int, lasty: int)
    requires SameDivisors(g, 0, Abs(a), Abs(m)) && g == Abs(a) * lastx + Abs(m) * lasty
    ensures g == 1 <==> Coprime(a, m)
  {
    if g == 1 {
      forall d: int | d > 0 && Divides(d, a) && Divides(d, m)
        ensures d == 1
      {
        DividesAbs(d, a);
        DividesAbs(d, m);
        DividesCombination(d, Abs(a), Abs(m), lastx, lasty);
        var k :| 1 == d * k;
        FactorOfOne(d, k);
      }
    } else {
      var d := if g == 0 then 2 else g;
      assert g == d * (if g == 0 then 0 else 1) && 0 == d * 0;
      assert Divides(d, g) && Divides(d, 0);
      DividesAbs(d, a);
      DividesAbs(d, m);
    }
  }

  lemma Reduced(a: int, n: int, q: int, b: int, x: int, y: int)
    requires b == x - n * q && a * x == 1 - n * y
    ensures a * b - 1 == n * (-y - a * q)
  {
    assert a * b == a * x - a * (n * q);
    assert a * (n * q) == n * (a * q);
    assert n * (-y - a * q) == -(n * y) - n * (a * q);
  }

  lemma InverseOf(a: int, m: int, lastx: int, lasty: int, b: int)
    requires 1 == Abs(a) * lastx + Abs(m) * lasty && m != 0
    requires b == PyMod(if a < 0 then -lastx else lastx, m)
    ensures IsInverse(a, b, m) && (m > 0 ==> 0 <= b < m) && (m < 0 ==> m < b <= 0)
  {
    var x := if a < 0 then -lastx else lastx;
    var n := Abs(m);
    var q := if m > 0 then x / m else -((-x) / n);
    assert a * x == Abs(a) * lastx;
    assert b == x - n * q;
    Reduced(a, n, q, b, x, lasty);
    var k := -lasty - a * q;
    assert n * k == m * (if m > 0 then k else -k);
  }

  /**
   modinv. Raises ValueError exactly when a and m are not coprime, divides by zero exactly when m is 0 and
   they are, and otherwise returns an inverse reduced the way Python's % reduces.
   */
  method ModInv(a: int, m: int) returns (r: Outcome)
    ensures r.NotInvertible? <==> !Coprime(a, m)
    ensures r.ZeroModulus? <==> m == 0 && Coprime(a, m)
    ensures r.Inverse? ==> IsInverse(a, r.b, m) && (m > 0 ==> 0 <= r.b < m) && (m < 0 ==> m < r.b <= 0)
  {
    var lastrem, rem := Abs(a), Abs(m);
    var x: int, lastx: int, y: int, lasty: int := 0, 1, 1, 0;
    while rem != 0
      invariant lastrem >= 0 && rem >= 0
      invariant lastrem == Abs(a) * lastx + Abs(m) * lasty
      invariant rem == Abs(a) * x + Abs(m) * y
      invariant SameDivisors(lastrem, rem, Abs(a), Abs(m))
      decreases rem
    {
      var quotient := lastrem / rem;
      EuclidStep(lastrem, rem);
      BezoutStep(lastrem, rem, Abs(a), Abs(m), lastx, lasty, x, y, quotient);
      lastrem, rem := rem, lastrem % rem;
      x, lastx := lastx - quotient * x, x;
      y, lasty := lasty - quotient * y, y;
    }
    LastRemainder(lastrem, a, m, lastx, lasty);
    if lastrem != 1 { return NotInvertible; }
    x := lastx * (if a < 0 then -1 else 1);
    if m == 0 { return ZeroModulus; }
    InverseOf(a, m, lastx, lasty, PyMod(x, m));
    r := Inverse(PyMod(x, m));
  }

  /** A reduced inverse is the only one. */
  lemma InverseUnique(a: int, m: int, b: int, c: int)
    requires m > 0 && 0 <= b < m && 0 <= c < m && IsInverse(a, b, m) && IsInverse(a, c, m)
    ensures b == c
  {
    var i :| a * b - 1 == m * i;
    var j :| a * c - 1 == m * j;
    CrossMultiply(a, m, b, c, i, j);
    SmallMultiple(b - c, m, c * i - b * j);
  }

  lemma SmallMultiple(d: int, m: int, t: int)
    requires d == m * t && -m < d < m
    ensures d == 0
  {
    MultipleGrows(m, t);
  }

  lemma MultipleGrows(m: int, t: int)
    requires m > 0
    ensures (t > 0 ==> m * t >= m) && (t < 0 ==> m * t <= -m)
  {
    if t > 0 { AtLeast(m, t - 1); }
    if t < 0 { AtLeast(m, -t - 1); assert m * -t == -(m * t); }
  }

  lemma AtLeast(m: int, k: nat)
    requires m > 0
    ensures m * (k + 1) == m * k + m >= m
  {
  }

  lemma CrossMultiply(a: int, m: int, b: int, c: int, i: int, j: int)
    requires a * b - 1 == m * i && a * c - 1 == m * j
    ensures b - c == m * (c * i - b * j)
  {
    assert b * (a * c) == b * (m * j + 1) == m * (b * j) + b;
    assert c * (a * b) == c * (m * i + 1) == m * (c * i) + c;
    assert b * (a * c) == c * (a * b);
    assert m * (c * i - b * j) == m * (c * i) - m * (b * j);
  }
}
