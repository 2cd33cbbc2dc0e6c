/** Integer congruences, powers and Fermat's little theorem, for an arbitrary modulus. */
module Modular {

  // ----- Remainders -----

  /** A number written as a multiple of m plus a small rest has that rest as remainder. */
  lemma RemainderUnique(x: int, k: int, m: int, r: int)
    requires 0 <= r < m
    requires x == k * m + r
    ensures x % m == r && x / m == k
  {
    var q, s := x / m, x % m;
    assert x == m * q + s;
    assert m * (k - q) == s - r;
    if k - q >= 1 {
      assert m * (k - q) >= m by { MulAtLeast(m, k - q); }
    } else if k - q <= -1 {
      assert m * (q - k) >= m by { MulAtLeast(m, q - k); }
    }
  }

  lemma MulAtLeast(m: int, k: int)
    requires m >= 0 && k >= 1
    ensures m * k >= m
  {
    assert m * k == m * (k - 1) + m;
  }

  /** m divides n. */
  predicate Divides(m: int, n: int)
    requires m > 0
  {
    n % m == 0
  }

  lemma DividesMultiple(m: int, k: int)
    requires m > 0
    ensures Divides(m, k * m) && Divides(m, m * k)
  {
    RemainderUnique(k * m, k, m, 0);
  }

  lemma DividesSum(m: int, a: int, b: int)
    requires m > 0 && Divides(m, a) && Divides(m, b)
    ensures Divides(m, a + b) && Divides(m, a - b)
  {
    var x, y := a / m, b / m;
    assert a + b == (x + y) * m;
    assert a - b == (x - y) * m;
    DividesMultiple(m, x + y);
    DividesMultiple(m, x - y);
  }

  lemma DividesProduct(m: int, a: int, b: int)
    requires m > 0 && Divides(m, a)
    ensures Divides(m, a * b) && Divides(m, b * a)
  {
    var x := a / m;
    assert a * b == (x * b) * m by {
      assert a == m * x;
      assert (m * x) * b == (x * b) * m;
    }
    DividesMultiple(m, x * b);
  }

  /** a and b leave the same remainder modulo m. */
  predicate Cong(a: int, b: int, m: int)
    requires m > 0
  {
    Divides(m, a - b)
  }

  lemma CongIffSameRemainder(a: int, b: int, m: int)
    requires m > 0
    ensures Cong(a, b, m) <==> a % m == b % m
  {
    if Cong(a, b, m) {
      var k := (a - b) / m;
      assert a == (k + b / m) * m + b % m;
      RemainderUnique(a, k + b / m, m, b % m);
    }
    if a % m == b % m {
      assert a - b == (a / m - b / m) * m;
      DividesMultiple(m, a / m - b / m);
    }
  }

  lemma CongMod(a: int, m: int)
    requires m > 0
    ensures Cong(a % m, a, m) && Cong(a, a % m, m)
  {
    assert a % m - a == (-(a / m)) * m;
    DividesMultiple(m, -(a / m));
    assert a - a % m == (a / m) * m;
    DividesMultiple(m, a / m);
  }

  lemma CongRefl(a: int, m: int)
    requires m > 0
    ensures Cong(a, a, m)
  {
    DividesMultiple(m, 0);
  }

  lemma CongSym(a: int, b: int, m: int)
    requires m > 0 && Cong(a, b, m)
    ensures Cong(b, a, m)
  {
    CongIffSameRemainder(a, b, m);
    CongIffSameRemainder(b, a, m);
  }

  lemma CongTrans(a: int, b: int, c: int, m: int)
    requires m > 0 && Cong(a, b, m) && Cong(b, c, m)
    ensures Cong(a, c, m)
  {
    DividesSum(m, a - b, b - c);
  }

  lemma CongAdd(a: int, b: int, c: int, d: int, m: int)
    requires m > 0 && Cong(a, b, m) && Cong(c, d, m)
    ensures Cong(a + c, b + d, m) && Cong(a - c, b - d, m)
  {
    DividesSum(m, a - b, c - d);
    assert (a + c) - (b + d) == (a - b) + (c - d);
    assert (a - c) - (b - d) == (a - b) - (c - d);
  }

  lemma CongMul(a: int, b: int, c: int, d: int, m: int)
    requires m > 0 && Cong(a, b, m) && Cong(c, d, m)
    ensures Cong(a * c, b * d, m)
  {
    DividesProduct(m, a - b, c);
    DividesProduct(m, c - d, b);
    assert a * c - b * d == (a - b) * c + b * (c - d);
    DividesSum(m, (a - b) * c, b * (c - d));
  }

  /** Two numbers already reduced modulo m are congruent only when equal. */
  lemma CongReduced(a: int, b: int, m: int)
    requires 0 <= a < m && 0 <= b < m && Cong(a, b, m)
    ensures a == b
  {
    CongIffSameRemainder(a, b, m);
    RemainderUnique(a, 0, m, a);
    RemainderUnique(b, 0, m, b);
  }

  lemma MulMod(a: int, b: int, m: int)
    requires m > 0
    ensures ((a % m) * (b % m)) % m == (a * b) % m
    ensures ((a % m) * b) % m == (a * b) % m
    ensures (a * (b % m)) % m == (a * b) % m
  {
    CongMod(a, m);
    CongMod(b, m);
    CongRefl(a, m);
    CongRefl(b, m);
    CongMul(a % m, a, b % m, b, m);
    CongMul(a % m, a, b, b, m);
    CongMul(a, a, b % m, b, m);
    CongIffSameRemainder((a % m) * (b % m), a * b, m);
    CongIffSameRemainder((a % m) * b, a * b, m);
    CongIffSameRemainder(a * (b % m), a * b, m);
  }

  lemma ModShift(x: int, k: int, m: int)
    requires m > 0
    ensures (x + k * m) % m == x % m
  {
    assert x + k * m == (x / m + k) * m + x % m;
    RemainderUnique(x + k * m, x / m + k, m, x % m);
  }

  // ----- Powers -----

  function Pow(b: int, e: nat): int
  {
    if e == 0 then 1 else b * Pow(b, e - 1)
  }

  lemma {:induction false} PowPositive(b: int, n: nat)
    requires b > 0
    ensures Pow(b, n) > 0
  {
    if n > 0 { PowPositive(b, n - 1); }
  }

  lemma {:induction false} PowAdd(b: int, e: nat, f: nat)
    ensures Pow(b, e + f) == Pow(b, e) * Pow(b, f)
  {
    if e > 0 {
      PowAdd(b, e - 1, f);
      assert b * (Pow(b, e - 1) * Pow(b, f)) == (b * Pow(b, e - 1)) * Pow(b, f);
    }
  }

  lemma {:induction false} PowOfProduct(a: int, b: int, e: nat)
    ensures Pow(a * b, e) == Pow(a, e) * Pow(b, e)
  {
    if e > 0 {
      PowOfProduct(a, b, e - 1);
      Interchange(a, b, Pow(a, e - 1), Pow(b, e - 1));
    }
  }

  lemma Interchange(a: int, b: int, x: int, y: int)
    ensures (a * b) * (x * y) == (a * x) * (b * y)
  {
    assert (a * b) * (x * y) == a * (b * (x * y));
    assert b * (x * y) == x * (b * y);
    assert a * (x * (b * y)) == (a * x) * (b * y);
  }

  lemma {:induction false} PowMod(b: int, e: nat, m: int)
    requires m > 0
    ensures Pow(b % m, e) % m == Pow(b, e) % m
  {
    if e > 0 {
      PowMod(b, e - 1, m);
      MulMod(b % m, Pow(b % m, e - 1), m);
      MulMod(b % m, Pow(b, e - 1), m);
      MulMod(b, Pow(b, e - 1), m);
    }
  }

  // ----- Primes -----

  ghost predicate IsPrime(p: int)
  {
    p >= 2 && forall d :: 1 < d < p ==> p % d != 0
  }

  /** Euclid's lemma, by descent on the remainder of p by a. */
  lemma {:induction false} Euclid(p: int, a: int, b: int)
    requires IsPrime(p) && 0 < a < p && Divides(p, a * b)
    ensures Divides(p, b)
    decreases a
  {
    if a != 1 {
      var q, r := p / a, p % a;
      assert r != 0;
      assert r * b == b * p - q * (a * b) by {
        assert p == a * q + r;
        assert (a * q + r) * b == q * (a * b) + r * b;
      }
      DividesMultiple(p, b);
      DividesProduct(p, a * b, q);
      DividesSum(p, b * p, q * (a * b));
      Euclid(p, r, b);
    }
  }

  /** A prime divides a product only when it divides a factor. */
  lemma PrimeDividesProduct(p: int, a: int, b: int)
    requires IsPrime(p) && Divides(p, a * b)
    ensures Divides(p, a) || Divides(p, b)
  {
    if a % p != 0 {
      MulMod(a, b, p);
      Euclid(p, a % p, b);
    }
  }

  // ----- Fermat's little theorem -----

  function Choose(n: nat, k: nat): nat
  {
    if k == 0 then 1 else if n == 0 then 0 else Choose(n - 1, k - 1) + Choose(n - 1, k)
  }

  lemma {:induction false} ChooseBeyond(n: nat, k: nat)
    requires k > n
    ensures Choose(n, k) == 0
  {
    if n > 0 {
      ChooseBeyond(n - 1, k - 1);
      ChooseBeyond(n - 1, k);
    }
  }

  lemma {:induction false} ChooseAll(n: nat)
    ensures Choose(n, n) == 1
  {
    if n > 0 {
      ChooseAll(n - 1);
      ChooseBeyond(n - 1, n);
    }
  }

  lemma {:induction false} Absorption(n: nat, k: nat)
    requires 0 < k && 0 < n
    ensures k * Choose(n, k) == n * Choose(n - 1, k - 1)
  {
    if n == 1 {
      if k > 1 { ChooseBeyond(0, k - 1); ChooseBeyond(1, k); }
    } else if k == 1 {
      Absorption(n - 1, 1);
    } else {
      Absorption(n - 1, k - 1);
      Absorption(n - 1, k);
      AbsorptionArith(n, k, Choose(n - 1, k), Choose(n - 2, k - 2), Choose(n - 2, k - 1));
    }
  }

  lemma AbsorptionArith(n: int, k: int, y: int, u: int, v: int)
    requires (k - 1) * (u + v) == (n - 1) * u
    requires k * y == (n - 1) * v
    ensures k * ((u + v) + y) == n * (u + v)
  {
    assert k * ((u + v) + y) == (k - 1) * (u + v) + (u + v) + k * y;
    assert (n - 1) * u + (n - 1) * v == (n - 1) * (u + v);
    assert n * (u + v) == (n - 1) * (u + v) + (u + v);
  }

  lemma PrimeDividesChoose(p: int, k: nat)
    requires IsPrime(p) && 0 < k < p
    ensures Divides(p, Choose(p, k))
  {
    Absorption(p, k);
    DividesMultiple(p, Choose(p - 1, k - 1));
    Euclid(p, k, Choose(p, k));
  }

  /** The sum of the binomial terms of (a + 1) to the n, up to exponent k. */
  function BinomialSum(n: nat, a: int, k: nat): int
  {
    Choose(n, k) * Pow(a, k) + if k == 0 then 0 else BinomialSum(n, a, k - 1)
  }

  lemma {:induction false} BinomialStep(n: nat, a: int, k: nat)
    requires k > 0
    ensures BinomialSum(n + 1, a, k) == BinomialSum(n, a, k) + a * BinomialSum(n, a, k - 1)
  {
    var c, d, w := Choose(n, k - 1), Choose(n, k), Pow(a, k - 1);
    BinomialTerm(a, c, d, w);
    if k == 1 {
      assert BinomialSum(n, a, 0) == 1 == BinomialSum(n + 1, a, 0);
    } else {
      BinomialStep(n, a, k - 1);
      Distribute(a, c * w, BinomialSum(n, a, k - 2));
    }
  }

  lemma Distribute(a: int, x: int, y: int)
    ensures a * (x + y) == a * x + a * y
  {
  }

  lemma BinomialTerm(a: int, c: int, d: int, w: int)
    ensures (c + d) * (a * w) == a * (c * w) + d * (a * w)
  {
    assert (c + d) * (a * w) == c * (a * w) + d * (a * w);
    assert c * (a * w) == a * (c * w);
  }

  lemma BinomialLast(n: nat, a: int)
    requires n > 0
    ensures BinomialSum(n - 1, a, n) == BinomialSum(n - 1, a, n - 1)
  {
    ChooseBeyond(n - 1, n);
  }

  lemma {:induction false} BinomialTheorem(n: nat, a: int)
    ensures Pow(a + 1, n) == BinomialSum(n, a, n)
  {
    if n > 0 {
      BinomialTheorem(n - 1, a);
      BinomialStep(n - 1, a, n);
      BinomialLast(n, a);
      var s := BinomialSum(n - 1, a, n - 1);
      assert (a + 1) * s == a * s + s;
    }
  }

  lemma {:induction false} BinomialSumMod(p: int, a: int, k: nat)
    requires IsPrime(p) && k < p
    ensures Cong(BinomialSum(p, a, k), 1, p)
  {
    if k == 0 {
      CongRefl(1, p);
    } else {
      var t := Choose(p, k) * Pow(a, k);
      BinomialSumMod(p, a, k - 1);
      PrimeDividesChoose(p, k);
      DividesProduct(p, Choose(p, k), Pow(a, k));
      DividesSum(p, t, BinomialSum(p, a, k - 1) - 1);
      assert BinomialSum(p, a, k) - 1 == t + (BinomialSum(p, a, k - 1) - 1);
    }
  }

  /** Fermat's little theorem for natural numbers: a to the p is congruent to a. */
  lemma {:induction false} FermatNat(p: int, a: nat)
    requires IsPrime(p)
    ensures Cong(Pow(a, p), a, p)
  {
    if a == 0 {
      CongRefl(0, p);
    } else {
      FermatNat(p, a - 1);
      FermatStep(p, a - 1);
    }
  }

  lemma FermatStep(p: int, b: nat)
    requires IsPrime(p) && Cong(Pow(b, p), b, p)
    ensures Cong(Pow(b + 1, p), b + 1, p)
  {
    BinomialTheorem(p, b);
    BinomialSumMod(p, b, p - 1);
    ChooseAll(p);
    CongAdd(Pow(b, p), b, BinomialSum(p, b, p - 1), 1, p);
  }

  lemma Fermat(p: int, a: int)
    requires IsPrime(p)
    ensures Pow(a, p) % p == a % p
    ensures a % p != 0 ==> Pow(a, p - 1) % p == 1
  {
    FermatNat(p, a % p);
    PowMod(a, p, p);
    CongIffSameRemainder(Pow(a % p, p), a % p, p);
    RemainderUnique(a % p, 0, p, a % p);
    if a % p != 0 {
      var w := Pow(a, p - 1);
      assert a * (w - 1) == Pow(a, p) - a;
      CongIffSameRemainder(Pow(a, p), a, p);
      PrimeDividesProduct(p, a, w - 1);
      CongIffSameRemainder(w, 1, p);
      RemainderUnique(1, 0, p, 1);
    }
  }

  /** Modulo a prime, the power a^(p-2) inverts a exactly when a is not a multiple of p. */
  lemma PowerInverse(p: int, a: int)
    requires IsPrime(p)
    ensures (a * Pow(a, p - 2)) % p == 1 <==> a % p != 0
  {
    Fermat(p, a);
    assert Pow(a, p - 1) == a * Pow(a, p - 2);
    if a % p == 0 {
      DividesProduct(p, a, Pow(a, p - 2));
    }
  }

  /** For a prime p = 3 (mod 4), w = a^((p+1)/4) squares to a exactly when a is a square. */
  lemma SquareRootPower(p: int, a: int)
    requires IsPrime(p) && p % 4 == 3
    ensures var w := Pow(a, (p + 1) / 4);
            (w * w) % p == a % p <==> exists x :: (x * x) % p == a % p
  {
    var e := (p + 1) / 4;
    var w := Pow(a, e);
    forall x | (x * x) % p == a % p
      ensures (w * w) % p == a % p
    {
      SquareRootOfSquare(p, a, x);
    }
    if (w * w) % p == a % p {
      assert exists x :: (x * x) % p == a % p;
    }
  }

  lemma SquareRootOfSquare(p: int, a: int, x: int)
    requires IsPrime(p) && p % 4 == 3 && (x * x) % p == a % p
    ensures var w := Pow(a, (p + 1) / 4); (w * w) % p == a % p
  {
    var e := (p + 1) / 4;
    assert 4 * e == p + 1;
    var w, u := Pow(a, e), Pow(x * x, e);
    PowMod(a, e, p);
    PowMod(x * x, e, p);
    assert w % p == u % p;
    MulMod(w, w, p);
    MulMod(u, u, p);
    PowOfProduct(x, x, e);
    PowAdd(x, e, e);
    PowAdd(x, 2 * e, 2 * e);
    assert u * u == Pow(x, p + 1);
    Fermat(p, x);
    assert Pow(x, p + 1) == x * Pow(x, p);
    MulMod(x, Pow(x, p), p);
    MulMod(x, x, p);
  }
}
