/** Points of secp256k1 (section 2.4.1 of SEC 2) and the addition rules of section 2.2.1 of SEC 1,
    over an arbitrary odd prime p. */
module Curve {
  import opened Modular

  datatype Point = Infinity | Affine(x: int, y: int)

  ghost predicate Canonical(a: Point, p: int)
  {
    a.Affine? ==> 0 <= a.x < p && 0 <= a.y < p
  }

  /** y^2 = x^3 + 7 modulo p, in reduced coordinates. */
  ghost predicate OnCurve(a: Point, p: int)
    requires p > 0
  {
    Canonical(a, p) && (a.Affine? ==> Cong(a.y * a.y, a.x * a.x * a.x + 7, p))
  }

  function Neg(a: Point, p: int): Point
    requires p > 0
  {
    if a.Affine? then Affine(a.x, (-a.y) % p) else a
  }

  // ----- The rules -----

  /** l is the slope of the chord through a and b, or of the tangent when they coincide. */
  ghost predicate Slope(a: Point, b: Point, l: int, p: int)
    requires p > 0 && a.Affine? && b.Affine?
  {
    if a.x == b.x then Cong(l * (2 * a.y), 3 * (a.x * a.x), p)
    else Cong(l * (b.x - a.x), b.y - a.y, p)
  }

  /** c is the reflection of the third point on the line of slope l through a and b. */
  ghost predicate Reflected(a: Point, b: Point, c: Point, l: int, p: int)
    requires p > 0 && a.Affine? && b.Affine?
  {
    c.Affine? && Cong(c.x, l * l - a.x - b.x, p) && Cong(c.y, l * (a.x - c.x) - a.y, p)
  }

  /** The code's test for equal abscissas; on the curve it is b = -a (`OppositeIsNegative`). */
  predicate Opposite(a: Point, b: Point)
    requires a.Affine? && b.Affine?
  {
    a.x == b.x && (a.y != b.y || a.y == 0)
  }

  /** The five rules of section 2.2.1 of SEC 1: c is the sum of a and b. */
  ghost predicate IsSum(a: Point, b: Point, c: Point, p: int)
    requires p > 0
  {
    if a.Infinity? then c == b
    else if b.Infinity? then c == a
    else if Opposite(a, b) then c == Infinity
    else Canonical(c, p) && exists l :: Slope(a, b, l, p) && Reflected(a, b, c, l, p)
  }

  // ----- Algebra of the line -----

  function Cubic(x: int, x1: int, y1: int, l: int): int
  {
    x * x * x + 7 - (y1 + l * (x - x1)) * (y1 + l * (x - x1))
  }

  /** The cubic of the line, divided by x - x1. */
  function Quotient(x: int, x1: int, y1: int, l: int): int
  {
    x * x + x * x1 + x1 * x1 - l * l * (x - x1) - 2 * (l * y1)
  }

  lemma CubicFactors(x: int, x1: int, y1: int, l: int)
    ensures Cubic(x, x1, y1, l) == (x - x1) * Quotient(x, x1, y1, l) + (x1 * x1 * x1 + 7 - y1 * y1)
  {
    var d := x - x1;
    SquareOfSum(y1, l * d);
    assert (l * d) * (l * d) == d * (l * l * d) && 2 * (y1 * (l * d)) == d * (2 * (l * y1));
    CubeDifference(x, x1);
    assert d * (x * x + x * x1 + x1 * x1 - l * l * d - 2 * (l * y1))
        == d * (x * x + x * x1 + x1 * x1) - d * (l * l * d) - d * (2 * (l * y1));
  }

  lemma SquareOfSum(u: int, v: int)
    ensures (u + v) * (u + v) == u * u + 2 * (u * v) + v * v
  {
  }

  lemma CubeDifference(x: int, z: int)
    ensures (x - z) * (x * x + x * z + z * z) == x * x * x - z * z * z
  {
    assert x * (x * x + x * z + z * z) == x * x * x + x * x * z + x * z * z;
    assert z * (x * x + x * z + z * z) == x * x * z + x * z * z + z * z * z;
  }

  lemma QuotientDifference(x: int, z: int, x1: int, y1: int, l: int)
    ensures Quotient(x, x1, y1, l) - Quotient(z, x1, y1, l) == (x - z) * (x + z + x1 - l * l)
  {
  }

  /** Where the third root lies: if the line meets the cubic at x1 and its quotient vanishes at z,
      the reflection of the point over l^2 - x1 - z is on the curve. */
  lemma ThirdPoint(x1: int, y1: int, z: int, l: int, x3: int, y3: int, p: int)
    requires p > 0 && Cong(y1 * y1, x1 * x1 * x1 + 7, p)
    requires Divides(p, Quotient(z, x1, y1, l))
    requires Cong(x3, l * l - x1 - z, p) && Cong(y3, l * (x1 - x3) - y1, p)
    ensures Cong(y3 * y3, x3 * x3 * x3 + 7, p)
  {
    var g := Quotient(x3, x1, y1, l);
    var v := l * (x1 - x3) - y1;
    QuotientDifference(x3, z, x1, y1, l);
    assert x3 - (l * l - x1 - z) == x3 + z + x1 - l * l;
    DividesProduct(p, x3 + z + x1 - l * l, x3 - z);
    DividesSum(p, (x3 - z) * (x3 + z + x1 - l * l), Quotient(z, x1, y1, l));
    assert Divides(p, g);
    CubicFactors(x3, x1, y1, l);
    DividesProduct(p, g, x3 - x1);
    CongSym(y1 * y1, x1 * x1 * x1 + 7, p);
    DividesSum(p, (x3 - x1) * g, x1 * x1 * x1 + 7 - y1 * y1);
    LineValue(x3, x1, y1, l);
    assert Cong(x3 * x3 * x3 + 7, v * v, p);
    CongSym(x3 * x3 * x3 + 7, v * v, p);
    CongMul(y3, v, y3, v, p);
    CongTrans(y3 * y3, v * v, x3 * x3 * x3 + 7, p);
  }

  lemma LineValue(x3: int, x1: int, y1: int, l: int)
    ensures var v := l * (x1 - x3) - y1; Cubic(x3, x1, y1, l) == x3 * x3 * x3 + 7 - v * v
  {
    var v := l * (x1 - x3) - y1;
    assert y1 + l * (x3 - x1) == -v;
    assert (-v) * (-v) == v * v;
  }

  /** On a chord the quotient vanishes at the second point. */
  lemma ChordQuotient(a: Point, b: Point, l: int, p: int)
    requires IsPrime(p) && a.Affine? && b.Affine? && OnCurve(a, p) && OnCurve(b, p)
    requires a.x != b.x && Slope(a, b, l, p)
    ensures Divides(p, Quotient(b.x, a.x, a.y, l))
  {
    var d := b.x - a.x;
    var u := a.y + l * d;
    CongRefl(a.y, p);
    CongAdd(a.y, a.y, l * d, b.y - a.y, p);
    assert Cong(u, b.y, p);
    CongMul(u, b.y, u, b.y, p);
    CongTrans(u * u, b.y * b.y, b.x * b.x * b.x + 7, p);
    CongSym(u * u, b.x * b.x * b.x + 7, p);
    CubicFactors(b.x, a.x, a.y, l);
    CongSym(a.y * a.y, a.x * a.x * a.x + 7, p);
    DividesSum(p, Cubic(b.x, a.x, a.y, l), a.x * a.x * a.x + 7 - a.y * a.y);
    PrimeDividesProduct(p, d, Quotient(b.x, a.x, a.y, l));
    NotMultiple(b.x, a.x, p);
  }

  lemma NotMultiple(x: int, y: int, p: int)
    requires p > 0 && 0 <= x < p && 0 <= y < p
    ensures Divides(p, x - y) <==> x == y
  {
    if Divides(p, x - y) { CongReduced(x, y, p); }
    if x == y { DividesMultiple(p, 0); }
  }

  /** Closure: the sum of two curve points is a curve point or infinity. */
  lemma SumOnCurve(a: Point, b: Point, c: Point, p: int)
    requires IsPrime(p) && OnCurve(a, p) && OnCurve(b, p) && IsSum(a, b, c, p)
    ensures OnCurve(c, p)
  {
    if a.Affine? && b.Affine? && !Opposite(a, b) {
      var l :| Slope(a, b, l, p) && Reflected(a, b, c, l, p);
      if a.x == b.x {
        assert Quotient(a.x, a.x, a.y, l) == -(l * (2 * a.y) - 3 * (a.x * a.x));
        DividesProduct(p, l * (2 * a.y) - 3 * (a.x * a.x), -1);
      } else {
        ChordQuotient(a, b, l, p);
      }
      ThirdPoint(a.x, a.y, b.x, l, c.x, c.y, p);
    }
  }

  /** The denominator of a slope is invertible whenever the points are not opposite. */
  lemma DenominatorNonzero(a: Point, b: Point, p: int)
    requires IsPrime(p) && p > 2 && a.Affine? && b.Affine? && Canonical(a, p) && Canonical(b, p)
    requires !Opposite(a, b)
    ensures var d := if a.x == b.x then 2 * a.y else b.x - a.x; !Divides(p, d)
  {
    if a.x == b.x {
      if Divides(p, 2 * a.y) {
        PrimeDividesProduct(p, 2, a.y);
        RemainderUnique(2, 0, p, 2);
        NotMultiple(a.y, 0, p);
      }
    } else {
      NotMultiple(b.x, a.x, p);
    }
  }

  lemma SlopeUnique(a: Point, b: Point, l: int, m: int, p: int)
    requires IsPrime(p) && p > 2 && a.Affine? && b.Affine? && Canonical(a, p) && Canonical(b, p)
    requires !Opposite(a, b) && Slope(a, b, l, p) && Slope(a, b, m, p)
    ensures Cong(l, m, p)
  {
    var d := if a.x == b.x then 2 * a.y else b.x - a.x;
    var n := if a.x == b.x then 3 * (a.x * a.x) else b.y - a.y;
    CongSym(m * d, n, p);
    CongTrans(l * d, n, m * d, p);
    assert l * d - m * d == (l - m) * d;
    DenominatorNonzero(a, b, p);
    PrimeDividesProduct(p, l - m, d);
  }

  /** The rules determine the sum. */
  lemma SumUnique(a: Point, b: Point, c: Point, d: Point, p: int)
    requires IsPrime(p) && p > 2 && Canonical(a, p) && Canonical(b, p)
    requires IsSum(a, b, c, p) && IsSum(a, b, d, p)
    ensures c == d
  {
    if a.Affine? && b.Affine? && !Opposite(a, b) {
      var l :| Slope(a, b, l, p) && Reflected(a, b, c, l, p);
      var m :| Slope(a, b, m, p) && Reflected(a, b, d, m, p);
      SlopeUnique(a, b, l, m, p);
      ReflectedUnique(a, b, c, d, l, m, p);
    }
  }

  lemma ReflectedUnique(a: Point, b: Point, c: Point, d: Point, l: int, m: int, p: int)
    requires p > 0 && a.Affine? && b.Affine? && Canonical(c, p) && Canonical(d, p)
    requires Cong(l, m, p) && Reflected(a, b, c, l, p) && Reflected(a, b, d, m, p)
    ensures c == d
  {
    CongRefl(a.x, p);
    CongRefl(b.x, p);
    CongRefl(a.y, p);
    CongMul(l, m, l, m, p);
    CongAdd(l * l, m * m, a.x, a.x, p);
    CongAdd(l * l - a.x, m * m - a.x, b.x, b.x, p);
    CongTrans(c.x, l * l - a.x - b.x, m * m - a.x - b.x, p);
    CongSym(d.x, m * m - a.x - b.x, p);
    CongTrans(c.x, m * m - a.x - b.x, d.x, p);
    CongReduced(c.x, d.x, p);
    CongRefl(a.x - c.x, p);
    CongMul(l, m, a.x - c.x, a.x - c.x, p);
    CongAdd(l * (a.x - c.x), m * (a.x - c.x), a.y, a.y, p);
    CongTrans(c.y, l * (a.x - c.x) - a.y, m * (a.x - c.x) - a.y, p);
    CongSym(d.y, m * (a.x - d.x) - a.y, p);
    CongTrans(c.y, m * (a.x - c.x) - a.y, d.y, p);
    CongReduced(c.y, d.y, p);
  }

  /** The order of the summands does not matter. */
  lemma SumCommutes(a: Point, b: Point, c: Point, p: int)
    requires IsPrime(p) && OnCurve(a, p) && OnCurve(b, p) && IsSum(a, b, c, p)
    ensures IsSum(b, a, c, p)
  {
    if a.Affine? && b.Affine? && !Opposite(a, b) && a.x != b.x {
      var l :| Slope(a, b, l, p) && Reflected(a, b, c, l, p);
      var u, v := l * (b.x - a.x), b.y - a.y;
      assert l * (a.x - b.x) - (a.y - b.y) == (-1) * (u - v);
      DividesProduct(p, u - v, -1);
      assert Slope(b, a, l, p);
      OtherEnd(l, a.x, a.y, b.x, b.y, c.x, c.y, p);
      assert Reflected(b, a, c, l, p);
    }
  }

  /** The line through both points gives the same ordinate measured from either. */
  lemma OtherEnd(l: int, x1: int, y1: int, x2: int, y2: int, x3: int, y3: int, p: int)
    requires p > 0 && Cong(l * (x2 - x1), y2 - y1, p) && Cong(y3, l * (x1 - x3) - y1, p)
    ensures Cong(y3, l * (x2 - x3) - y2, p)
  {
    assert l * (x2 - x3) - y2 - (l * (x1 - x3) - y1) == l * (x2 - x1) - (y2 - y1);
    DividesSum(p, y3 - (l * (x1 - x3) - y1), l * (x2 - x1) - (y2 - y1));
  }

  /** On the curve, the branch the code takes for equal abscissas is the rule for negatives. */
  lemma OppositeIsNegative(a: Point, b: Point, p: int)
    requires IsPrime(p) && p > 2 && OnCurve(a, p) && OnCurve(b, p) && a.Affine? && b.Affine?
    ensures Opposite(a, b) <==> b == Neg(a, p)
  {
    if b == Neg(a, p) && b.y == a.y {
      CongMod(-a.y, p);
      assert 2 * a.y == a.y - (-a.y);
      PrimeDividesProduct(p, 2, a.y);
      RemainderUnique(2, 0, p, 2);
      NotMultiple(a.y, 0, p);
    }
    if Opposite(a, b) {
      CongSym(b.y * b.y, b.x * b.x * b.x + 7, p);
      CongTrans(a.y * a.y, a.x * a.x * a.x + 7, b.y * b.y, p);
      assert a.y * a.y - b.y * b.y == (a.y - b.y) * (a.y + b.y);
      PrimeDividesProduct(p, a.y - b.y, a.y + b.y);
      NotMultiple(a.y, b.y, p);
      if a.y == b.y { DividesMultiple(p, 0); }
      assert b.y - (-a.y) == a.y + b.y;
      CongIffSameRemainder(b.y, -a.y, p);
      RemainderUnique(b.y, 0, p, b.y);
    }
  }

  /** A point and its negative sum to infinity. */
  lemma SumWithNegative(a: Point, p: int)
    requires IsPrime(p) && p > 2 && OnCurve(a, p)
    ensures OnCurve(Neg(a, p), p) && IsSum(a, Neg(a, p), Infinity, p)
  {
    if a.Affine? {
      var y := (-a.y) % p;
      CongMod(-a.y, p);
      CongMul(y, -a.y, y, -a.y, p);
      assert (-a.y) * (-a.y) == a.y * a.y;
      CongTrans(y * y, a.y * a.y, a.x * a.x * a.x + 7, p);
      if y == a.y {
        assert 2 * a.y == a.y - (-a.y);
        PrimeDividesProduct(p, 2, a.y);
        RemainderUnique(2, 0, p, 2);
        NotMultiple(a.y, 0, p);
      }
    }
  }

  // ----- The sum as a computation -----

  /** The slope with the denominator inverted by Fermat's power, as the code computes it. */
  function Lambda(a: Point, b: Point, p: int): int
    requires p > 2 && a.Affine? && b.Affine?
  {
    if a.x == b.x then ((3 * ((a.x * a.x) % p)) % p * (Pow((2 * a.y) % p, p - 2) % p)) % p
    else (((b.y - a.y) % p) * (Pow((b.x - a.x) % p, p - 2) % p)) % p
  }

  function Add(a: Point, b: Point, p: int): Point
    requires p > 2
  {
    if a.Infinity? then b
    else if b.Infinity? then a
    else if Opposite(a, b) then Infinity
    else
      var l := Lambda(a, b, p);
      var x := if a.x == b.x then ((l * l) % p - (2 * a.x) % p) % p else (((l * l) % p - a.x) % p - b.x) % p;
      Affine(x, ((l * ((a.x - x) % p)) % p - a.y) % p)
  }

  lemma LambdaIsSlope(a: Point, b: Point, p: int)
    requires IsPrime(p) && p > 2 && a.Affine? && b.Affine? && Canonical(a, p) && Canonical(b, p)
    requires !Opposite(a, b)
    ensures Slope(a, b, Lambda(a, b, p), p)
  {
    var d := if a.x == b.x then 2 * a.y else b.x - a.x;
    var n := if a.x == b.x then 3 * (a.x * a.x) else b.y - a.y;
    var n' := if a.x == b.x then (3 * ((a.x * a.x) % p)) % p else (b.y - a.y) % p;
    DenominatorNonzero(a, b, p);
    MulMod(3, a.x * a.x, p);
    assert n' == n % p;
    QuotientTimesDenominator(n, d, p);
  }

  lemma QuotientTimesDenominator(n: int, d: int, p: int)
    requires IsPrime(p) && d % p != 0
    ensures Cong((n % p * (Pow(d % p, p - 2) % p)) % p * d, n, p)
  {
    var i := Pow(d, p - 2);
    PowMod(d, p - 2, p);
    MulMod(n, i, p);
    PowerInverse(p, d);
    CongMod(n * i, p);
    CongRefl(d, p);
    CongMul((n * i) % p, n * i, d, d, p);
    RemainderUnique(1, 0, p, 1);
    CongIffSameRemainder(d * i, 1, p);
    CongRefl(n, p);
    CongMul(n, n, d * i, 1, p);
    assert n * (d * i) == (n * i) * d;
    CongTrans((n * i) % p * d, (n * i) * d, n * 1, p);
  }

  /** The computation obeys the rules, so by SumUnique it is the sum. */
  lemma AddIsSum(a: Point, b: Point, p: int)
    requires IsPrime(p) && p > 2 && OnCurve(a, p) && OnCurve(b, p)
    ensures IsSum(a, b, Add(a, b, p), p) && OnCurve(Add(a, b, p), p)
  {
    if a.Affine? && b.Affine? && !Opposite(a, b) {
      var l, c := Lambda(a, b, p), Add(a, b, p);
      LambdaIsSlope(a, b, p);
      ReducedAbscissa(l, a.x, b.x, p);
      ReducedOrdinate(l, a.x, c.x, a.y, p);
      assert Reflected(a, b, c, l, p);
    }
    SumOnCurve(a, b, Add(a, b, p), p);
  }

  lemma ReducedAbscissa(l: int, x: int, z: int, p: int)
    requires p > 0
    ensures Cong((((l * l) % p - x) % p - z) % p, l * l - x - z, p)
    ensures x == z ==> Cong(((l * l) % p - (2 * x) % p) % p, l * l - x - z, p)
  {
    var s := (l * l) % p;
    CongMod(l * l, p);
    CongRefl(x, p);
    CongRefl(z, p);
    CongAdd(s, l * l, x, x, p);
    CongMod(s - x, p);
    CongTrans((s - x) % p, s - x, l * l - x, p);
    CongAdd((s - x) % p, l * l - x, z, z, p);
    CongMod((s - x) % p - z, p);
    CongTrans(((s - x) % p - z) % p, (s - x) % p - z, l * l - x - z, p);
    CongMod(2 * x, p);
    CongAdd(s, l * l, (2 * x) % p, 2 * x, p);
    CongMod(s - (2 * x) % p, p);
    CongTrans((s - (2 * x) % p) % p, s - (2 * x) % p, l * l - 2 * x, p);
  }

  lemma ReducedOrdinate(l: int, x: int, z: int, y: int, p: int)
    requires p > 0
    ensures Cong(((l * ((x - z) % p)) % p - y) % p, l * (x - z) - y, p)
  {
    var d := (x - z) % p;
    CongMod(x - z, p);
    CongRefl(l, p);
    CongRefl(y, p);
    CongMul(l, l, d, x - z, p);
    CongMod(l * d, p);
    CongTrans((l * d) % p, l * d, l * (x - z), p);
    CongAdd((l * d) % p, l * (x - z), y, y, p);
    CongMod((l * d) % p - y, p);
    CongTrans(((l * d) % p - y) % p, (l * d) % p - y, l * (x - z) - y, p);
  }

  // ----- Multiples -----

  /** The sum of k copies of a. */
  function Multiple(k: nat, a: Point, p: int): Point
    requires p > 2
  {
    if k == 0 then Infinity else Add(Multiple(k - 1, a, p), a, p)
  }

  ghost predicate AssociativeAt(a: Point, b: Point, c: Point, p: int)
    requires p > 2
  {
    OnCurve(a, p) && OnCurve(b, p) && OnCurve(c, p) ==>
      Add(Add(a, b, p), c, p) == Add(a, Add(b, c, p), p)
  }

  /** The group law's associativity on curve points, taken as a hypothesis. */
  ghost predicate Associative(p: int)
    requires p > 2
  {
    forall a, b, c :: AssociativeAt(a, b, c, p)
  }

  lemma {:induction false} MultipleOnCurve(k: nat, a: Point, p: int)
    requires IsPrime(p) && p > 2 && OnCurve(a, p)
    ensures OnCurve(Multiple(k, a, p), p)
  {
    if k > 0 {
      MultipleOnCurve(k - 1, a, p);
      AddIsSum(Multiple(k - 1, a, p), a, p);
    }
  }

  lemma {:induction false} MultipleAdd(m: nat, n: nat, a: Point, p: int)
    requires IsPrime(p) && p > 2 && OnCurve(a, p) && Associative(p)
    ensures Multiple(m + n, a, p) == Add(Multiple(m, a, p), Multiple(n, a, p), p)
  {
    if n > 0 {
      var u, v := Multiple(m, a, p), Multiple(n - 1, a, p);
      MultipleAdd(m, n - 1, a, p);
      MultipleOnCurve(m, a, p);
      MultipleOnCurve(n - 1, a, p);
      assert AssociativeAt(u, v, a, p);
    } else {
      AddInfinity(Multiple(m, a, p), p);
    }
  }

  lemma AddInfinity(a: Point, p: int)
    requires p > 2
    ensures Add(a, Infinity, p) == a && Add(Infinity, a, p) == a
  {
  }
}
