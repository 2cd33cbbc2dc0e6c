/** Affine point arithmetic on limbs: doubling, addition and the double-and-add loop. */
module Secp256k1 {
  import opened Modular
  import opened Words
  import opened FieldElement
  import opened Curve

  datatype Pt = Pt(x: Fe, y: Fe, inf: bool)

  const ZERO_PT := Pt([0, 0, 0, 0], [0, 0, 0, 0], true)

  ghost function Value(a: Pt): Point
  {
    if a.inf then Infinity else Affine(Num(a.x), Num(a.y))
  }

  /** The field steps of doubling, once 2y is known to be nonzero. */
  method DoubleFinite(a: Pt, twoY: Fe) returns (r: Pt)
    requires Canonical(Value(a), P) && !a.inf && Num(a.y) != 0
    requires Num(twoY) == (2 * Num(a.y)) % P
    ensures Value(r) == Add(Value(a), Value(a), P)
  {
    ConstantValues();
    var three: Fe := [3, 0, 0, 0];
    SingleLimb(three);
    var x2 := FeSqr(a.x);
    var num := FeMul(three, x2);
    var inv := FeInv(twoY);
    var lambda := FeMul(num, inv);
    assert Num(lambda) == Lambda(Value(a), Value(a), P);
    var twoX := FeAdd(a.x, a.x);
    r := FinishDouble(a, lambda, twoX);
  }

  method FinishDouble(a: Pt, lambda: Fe, twoX: Fe) returns (r: Pt)
    requires Canonical(Value(a), P) && !a.inf && Num(twoX) == (2 * Num(a.x)) % P
    ensures !r.inf && Num(r.x) == ((Num(lambda) * Num(lambda)) % P - (2 * Num(a.x)) % P) % P
    ensures Num(r.y) == ((Num(lambda) * ((Num(a.x) - Num(r.x)) % P)) % P - Num(a.y)) % P
  {
    NumRange(twoX);
    NumRange(a.y);
    var lx := FeSqr(lambda);
    var nx := FeSub(lx, twoX);
    var ny := Ordinate(a, lambda, nx);
    r := Pt(nx, ny, false);
  }

  /** The ordinate, the same in both formulas. */
  method Ordinate(a: Pt, lambda: Fe, nx: Fe) returns (ny: Fe)
    requires Canonical(Value(a), P) && !a.inf && Num(nx) < P
    ensures Num(ny) == ((Num(lambda) * ((Num(a.x) - Num(nx)) % P)) % P - Num(a.y)) % P
  {
    NumRange(nx);
    var dx := FeSub(a.x, nx);
    var my := FeMul(lambda, dx);
    ny := FeSub(my, a.y);
  }

  method PointDouble(a: Pt) returns (r: Pt)
    requires Canonical(Value(a), P)
    ensures Value(r) == Add(Value(a), Value(a), P)
    ensures IsPrime(P) && OnCurve(Value(a), P) ==> IsSum(Value(a), Value(a), Value(r), P) && OnCurve(Value(r), P)
  {
    NumRange(a.y);
    AddIsSumAlways(Value(a), Value(a));
    if a.inf { return ZERO_PT; }
    var twoY := FeAdd(a.y, a.y);
    DoubleZero(Num(a.y));
    if IsZero(twoY) { return ZERO_PT; }
    r := DoubleFinite(a, twoY);
  }

  lemma AddIsSumAlways(a: Point, b: Point)
    ensures IsPrime(P) && OnCurve(a, P) && OnCurve(b, P) ==> IsSum(a, b, Add(a, b, P), P) && OnCurve(Add(a, b, P), P)
    ensures IsPrime(P) && OnCurve(a, P) && OnCurve(b, P) ==> (Add(a, b, P) == Infinity <==> b == Neg(a, P))
  {
    if IsPrime(P) && OnCurve(a, P) && OnCurve(b, P) {
      AddIsSum(a, b, P);
      if a.Affine? && b.Affine? { OppositeIsNegative(a, b, P); }
    }
  }

  lemma DoubleZero(y: int)
    requires 0 <= y < P
    ensures (2 * y) % P == 0 <==> y == 0
  {
    ConstantValues();
    SumReduction(2 * y);
  }

  /** The field steps of adding two points with different abscissas. */
  method AddDistinct(a: Pt, b: Pt) returns (r: Pt)
    requires Canonical(Value(a), P) && Canonical(Value(b), P) && !a.inf && !b.inf && Num(a.x) != Num(b.x)
    ensures Value(r) == Add(Value(a), Value(b), P)
  {
    hide Lambda, Pow, Num;
    var lambda := ChordSlope(a, b);
    var nx := ChordAbscissa(a.x, b.x, lambda);
    var ny := Ordinate(a, lambda, nx);
    r := Pt(nx, ny, false);
  }

  method ChordSlope(a: Pt, b: Pt) returns (lambda: Fe)
    requires Canonical(Value(a), P) && Canonical(Value(b), P) && !a.inf && !b.inf && Num(a.x) != Num(b.x)
    ensures Num(lambda) == Lambda(Value(a), Value(b), P)
  {
    var dy := FeSub(b.y, a.y);
    var dx := FeSub(b.x, a.x);
    var inv := FeInv(dx);
    lambda := FeMul(dy, inv);
  }

  method ChordAbscissa(x1: Fe, x2: Fe, lambda: Fe) returns (nx: Fe)
    requires 0 <= Num(x1) < P && 0 <= Num(x2) < P
    ensures Num(nx) == (((Num(lambda) * Num(lambda)) % P - Num(x1)) % P - Num(x2)) % P && 0 <= Num(nx) < P
  {
    var lx := FeSqr(lambda);
    var s := FeSub(lx, x1);
    nx := FeSub(s, x2);
  }

  method PointAdd(a: Pt, b: Pt) returns (r: Pt)
    requires Canonical(Value(a), P) && Canonical(Value(b), P)
    ensures Value(r) == Add(Value(a), Value(b), P)
    ensures IsPrime(P) && OnCurve(Value(a), P) && OnCurve(Value(b), P) ==>
              IsSum(Value(a), Value(b), Value(r), P) && OnCurve(Value(r), P)
    ensures IsPrime(P) && OnCurve(Value(a), P) && OnCurve(Value(b), P) ==>
              (Value(r) == Infinity <==> Value(b) == Neg(Value(a), P))
  {
    AddIsSumAlways(Value(a), Value(b));
    if a.inf { return b; }
    if b.inf { return a; }
    SameLimbs(a.x, b.x);
    SameLimbs(a.y, b.y);
    if a.x == b.x {
      if a.y == b.y {
        r := PointDouble(a);
        return;
      }
      return ZERO_PT;
    }
    r := AddDistinct(a, b);
  }

  lemma SameLimbs(a: Fe, b: Fe)
    ensures a == b <==> Num(a) == Num(b)
  {
    if Num(a) == Num(b) { NumInjective(a, b); }
  }

  // ----- Double and add -----

  /** What the bit loop knows after t bits of a word: `seen` are the bits consumed so far. */
  ghost predicate ScanState(word: int, seen: nat, bits: u64, t: nat)
  {
    word == seen + bits as int * Pow(2, t) && seen < Pow(2, t)
  }

  lemma ScanStep(word: int, seen: nat, bits: u64, t: nat)
    requires ScanState(word, seen, bits, t)
    ensures ScanState(word, seen + (bits as int % 2) * Pow(2, t), bits / 2, t + 1)
  {
    ScanArith(bits as int, Pow(2, t));
    assert Pow(2, t + 1) == 2 * Pow(2, t);
  }

  lemma ScanArith(bits: int, q: int)
    ensures bits * q == (bits % 2) * q + (bits / 2) * (2 * q)
    ensures bits % 2 == 0 || bits % 2 == 1
  {
    assert bits == 2 * (bits / 2) + bits % 2;
    assert (2 * (bits / 2) + bits % 2) * q == (bits / 2) * (2 * q) + (bits % 2) * q;
  }

  /** The accumulator and the doubling point, in terms of the scalar bits consumed. */
  ghost predicate Ladder(r: Pt, q: Pt, base: Point, done: nat, weight: nat)
  {
    && OnCurve(Value(r), P) && OnCurve(Value(q), P)
    && Value(r) == Multiple(done, base, P)
    && Value(q) == Multiple(weight, base, P)
  }

  /** The ladder's claim, under the hypotheses on P. */
  ghost predicate Reached(r: Pt, q: Pt, base: Point, done: nat, weight: nat)
  {
    && Canonical(Value(r), P) && Canonical(Value(q), P)
    && (IsPrime(P) && Associative(P) && OnCurve(base, P) ==> Ladder(r, q, base, done, weight))
  }

  method LadderStep(r: Pt, q: Pt, bit: bool, ghost base: Point, ghost done: nat, ghost weight: nat)
    returns (r': Pt, q': Pt)
    requires Reached(r, q, base, done, weight)
    ensures Reached(r', q', base, done + (if bit then weight else 0), 2 * weight)
  {
    r' := r;
    if bit {
      r' := PointAdd(r, q);
    }
    q' := PointDouble(q);
    AddCanonical(Value(r), Value(q), P);
    AddCanonical(Value(q), Value(q), P);
    if IsPrime(P) && Associative(P) && OnCurve(base, P) {
      MultipleAdd(done, weight, base, P);
      MultipleAdd(weight, weight, base, P);
    }
  }

  lemma AddCanonical(a: Point, b: Point, p: int)
    requires p > 2 && Canonical(a, p) && Canonical(b, p)
    ensures Canonical(Add(a, b, p), p)
  {
  }

  /** `count` and `mark` are what the accumulator and the doubling point stand at after t bits. */
  ghost predicate LadderMarks(done: nat, seen: nat, weight: nat, t: nat, count: int, mark: int)
  {
    count == done + seen * weight && mark == Pow(2, t) * weight
  }

  lemma MarksStep(done: nat, seen: nat, weight: nat, t: nat, count: int, mark: int, bit: int)
    requires LadderMarks(done, seen, weight, t, count, mark) && (bit == 0 || bit == 1)
    ensures seen + bit * Pow(2, t) >= 0
    ensures LadderMarks(done, seen + bit * Pow(2, t), weight, t + 1, count + (if bit == 1 then mark else 0), 2 * mark)
  {
    PowPositive(2, t);
    assert Pow(2, t + 1) == 2 * Pow(2, t);
    MarksArith(seen, bit, Pow(2, t), weight);
  }

  lemma MarksArith(seen: int, bit: int, q: int, weight: int)
    requires bit == 0 || bit == 1
    ensures (seen + bit * q) * weight == seen * weight + (if bit == 1 then q * weight else 0)
    ensures 2 * (q * weight) == (2 * q) * weight
  {
  }

  /** The 64 steps of one scalar word. */
  method LadderWord(r0: Pt, q0: Pt, word: u64, ghost b: Point, ghost done: nat, ghost weight: nat)
    returns (r: Pt, q: Pt)
    requires Reached(r0, q0, b, done, weight)
    ensures done + word as int * weight >= 0 && W * weight >= 0
    ensures Reached(r, q, b, done + word as int * weight, W * weight)
  {
    hide Reached;
    r, q := r0, q0;
    var bits := word;
    ghost var seen: nat, count: nat, mark: nat := 0, done, weight;
    for t := 0 to 64
      invariant ScanState(word as int, seen, bits, t)
      invariant LadderMarks(done, seen, weight, t, count, mark)
      invariant Reached(r, q, b, count, mark)
    {
      ghost var bit := bits as int % 2;
      r, q := LadderStep(r, q, bits % 2 != 0, b, count, mark);
      ScanStep(word as int, seen, bits, t);
      MarksStep(done, seen, weight, t, count, mark, bit);
      count, mark := count + (if bit == 1 then mark else 0), 2 * mark;
      seen := seen + bit * Pow(2, t);
      bits := bits / 2;
    }
    AllBitsSeen(word, seen, bits);
  }

  lemma AllBitsSeen(word: u64, seen: nat, bits: u64)
    requires ScanState(word as int, seen, bits, 64)
    ensures seen == word as int && Pow(2, 64) == W
  {
    TwoTo64();
  }

  /** The double-and-add loop returns the k-fold sum of the base point, given the primality of P
      and the associativity of the group law. */
  method ScalarMul(k: Fe, base: Pt) returns (r: Pt)
    requires Canonical(Value(base), P)
    ensures Canonical(Value(r), P) && Num(k) >= 0
    ensures IsPrime(P) && Associative(P) && OnCurve(Value(base), P) ==> Value(r) == Multiple(Num(k), Value(base), P)
  {
    hide *;
    r := ZERO_PT;
    var q := base;
    StartLadder(base);
    Prefixes(k, 0);
    for w := 0 to 4
      invariant Base(w) >= 0 && Num(k[..w]) >= 0
      invariant Reached(r, q, Value(base), Num(k[..w]), Base(w))
    {
      Prefixes(k, w);
      r, q := LadderWord(r, q, k[w], Value(base), Num(k[..w]), Base(w));
    }
    assert k[..4] == k;
    LadderEnd(r, q, Value(base), Num(k), Base(4));
  }

  lemma Prefixes(k: Fe, w: nat)
    requires w < 4
    ensures Num(k[..w + 1]) == Num(k[..w]) + k[w] as int * Base(w) && Num(k[..w]) >= 0 && Num(k[..w + 1]) >= 0
    ensures Base(w) >= 0 && Base(w + 1) == W * Base(w)
    ensures w == 0 ==> Num(k[..w]) == 0 && Base(w) == 1
  {
    Extend(k, w);
    NumBounds(k[..w]);
    NumBounds(k[..w + 1]);
    BasePositive(w);
  }

  lemma LadderEnd(r: Pt, q: Pt, base: Point, done: nat, weight: nat)
    requires Reached(r, q, base, done, weight)
    ensures Canonical(Value(r), P)
    ensures IsPrime(P) && Associative(P) && OnCurve(base, P) ==> Value(r) == Multiple(done, base, P)
  {
  }

  lemma StartLadder(base: Pt)
    requires Canonical(Value(base), P)
    ensures Reached(ZERO_PT, base, Value(base), 0, 1)
  {
    assert Multiple(1, Value(base), P) == Add(Multiple(0, Value(base), P), Value(base), P);
  }
}
