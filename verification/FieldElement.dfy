/** The four-limb field arithmetic of secp256k1: carries, borrows, schoolbook multiplication
    with folded reduction, and the square-and-multiply inverse and root. */
module FieldElement {
  import opened Modular
  import opened Words

  type Fe = s: seq<u64> | |s| == 4 witness [0, 0, 0, 0]

  const TWO256: int := 0x1_0000000000000000_0000000000000000_0000000000000000_0000000000000000
  const DELTA: u64 := 0x1000003D1
  const P: int := 0xFFFFFFFFFFFFFFFF_FFFFFFFFFFFFFFFF_FFFFFFFFFFFFFFFF_FFFFFFFEFFFFFC2F
  const N: int := 0xFFFFFFFFFFFFFFFF_FFFFFFFFFFFFFFFE_BAAEDCE6AF48A03B_BFD25E8CD0364141

  const P_LIMBS: Fe := [0xFFFFFFFEFFFFFC2F, 0xFFFFFFFFFFFFFFFF, 0xFFFFFFFFFFFFFFFF, 0xFFFFFFFFFFFFFFFF]
  const N_LIMBS: Fe := [0xBFD25E8CD0364141, 0xBAAEDCE6AF48A03B, 0xFFFFFFFFFFFFFFFE, 0xFFFFFFFFFFFFFFFF]
  const INV_EXP: Fe := [0xFFFFFFFEFFFFFC2D, 0xFFFFFFFFFFFFFFFF, 0xFFFFFFFFFFFFFFFF, 0xFFFFFFFFFFFFFFFF]
  const SQRT_EXP: Fe := [0xFFFFFFFFBFFFFF0C, 0xFFFFFFFFFFFFFFFF, 0xFFFFFFFFFFFFFFFF, 0x3FFFFFFFFFFFFFFF]

  // ----- Constants -----

  lemma BaseFour()
    ensures Base(0) == 1 && Base(1) == W && Base(2) == W * W && Base(3) == W * W * W && Base(4) == TWO256
  {
    assert Pow(W, 1) == W * Pow(W, 0);
    assert Pow(W, 2) == W * Pow(W, 1);
    assert Pow(W, 3) == W * Pow(W, 2);
    assert Pow(W, 4) == W * Pow(W, 3);
  }

  /** The value of four limbs, written out. */
  lemma NumFour(a: Fe)
    ensures Num(a) == a[0] as int + a[1] as int * W + a[2] as int * (W * W) + a[3] as int * (W * W * W)
    ensures 0 <= Num(a) < TWO256
  {
    BaseFour();
    NumBounds(a);
    assert a[..3][..2] == a[..2] && a[..2][..1] == a[..1] && a[..1][..0] == [];
    assert Num(a[..1]) == a[0] as int;
    assert Num(a[..2]) == Num(a[..1]) + a[1] as int * W;
    assert Num(a[..3]) == Num(a[..2]) + a[2] as int * (W * W);
  }

  lemma NumRange(a: Fe)
    ensures 0 <= Num(a) < TWO256
  {
    NumFour(a);
  }

  /** The field of section 2.4.1 of SEC 2, and its group order, which is within Hasse's bound of the field's size. */
  lemma CurveConstants()
    ensures P == Pow(2, 256) - Pow(2, 32) - 977
    ensures (P + 1 - N) * (P + 1 - N) <= 4 * P
    ensures N == 115792089237316195423570985008687907852837564279074904382605163141518161494337
  {
    TwoToTheEight();
    hide Pow;
    PowAdd(2, 8, 8);
    PowAdd(2, 16, 16);
    PowAdd(2, 32, 32);
    PowAdd(2, 64, 64);
    PowAdd(2, 128, 128);
  }

  lemma TwoToTheEight()
    ensures Pow(2, 8) == 256
  {
    assert Pow(2, 4) == 16;
    PowAdd(2, 4, 4);
  }

  lemma ConstantValues()
    ensures Num(P_LIMBS) == P && P == TWO256 - DELTA as int
    ensures Num(N_LIMBS) == N
    ensures Num(INV_EXP) == P - 2
    ensures Num(SQRT_EXP) == (P + 1) / 4 && P % 4 == 3
  {
    NumFour(P_LIMBS);
    NumFour(N_LIMBS);
    NumFour(INV_EXP);
    NumFour(SQRT_EXP);
  }

  predicate IsZero(a: Fe)
    ensures IsZero(a) <==> Num(a) == 0
  {
    NumFour(a);
    a[0] == 0 && a[1] == 0 && a[2] == 0 && a[3] == 0
  }

  lemma BelowPrime(d: int)
    requires 0 <= d < P
    ensures d % P == d
  {
    RemainderUnique(d, 0, P, d);
  }

  // ----- Carry and borrow chains -----

  /** 256-bit addition: the limbs and the carry out give the exact sum. */
  method Add256(a: Fe, b: Fe) returns (r: Fe, c: u64)
    ensures c <= 1
    ensures Num(r) + c as int * TWO256 == Num(a) + Num(b)
  {
    var out := new u64[4](_ => 0);
    c := 0;
    for i := 0 to 4
      invariant c <= 1
      invariant Num(out[..i]) + c as int * Base(i) == Num(a[..i]) + Num(b[..i])
    {
      ghost var c0 := c;
      var (s1, c1) := OverflowingAdd(a[i], b[i]);
      var (s2, c2) := OverflowingAdd(s1, c);
      out[i] := s2;
      c := (if c1 then 1 else 0) + (if c2 then 1 else 0);
      CarryStep(Base(i), a[i] as int, b[i] as int, c0 as int, s2 as int, c as int);
      Extend(a, i);
      Extend(b, i);
      NumAppend(out[..i], out[i]);
      assert out[..i + 1] == out[..i] + [out[i]];
    }
    BaseFour();
    assert a[..4] == a && b[..4] == b && out[..4] == out[..];
    r := out[..];
  }

  lemma CarryStep(base: int, x: int, y: int, c: int, s: int, d: int)
    requires s + d * W == x + y + c
    ensures s * base + d * (W * base) == x * base + y * base + c * base
  {
    assert (s + d * W) * base == s * base + d * (W * base);
    assert (x + y + c) * base == x * base + y * base + c * base;
  }

  lemma Extend(a: seq<u64>, i: nat)
    requires i < |a|
    ensures Num(a[..i + 1]) == Num(a[..i]) + a[i] as int * Base(i)
  {
    assert a[..i + 1] == a[..i] + [a[i]];
    NumAppend(a[..i], a[i]);
  }

  /** One limb of the borrow chain: the borrow is first added to the subtrahend, and an overflow
      of that addition is itself a borrow. */
  function BorrowLimb(x: u64, y: u64, borrow: u64): (r: (u64, u64))
    requires borrow <= 1
    ensures r.1 <= 1
    ensures r.0 as int == x as int - y as int - borrow as int + r.1 as int * W
  {
    var yb := OverflowingAdd(y, borrow).0;
    (WrappingSub(x, yb), if yb < borrow then 1 else if x < yb then 1 else 0)
  }

  /** 256-bit subtraction: the borrow is set exactly when a < b. */
  method Sub256(a: Fe, b: Fe) returns (r: Fe, borrow: u64)
    ensures borrow == if Num(a) < Num(b) then 1 else 0
    ensures Num(r) == Num(a) - Num(b) + borrow as int * TWO256
  {
    var out := new u64[4](_ => 0);
    borrow := 0;
    for i := 0 to 4
      invariant borrow <= 1
      invariant Num(out[..i]) == Num(a[..i]) - Num(b[..i]) + borrow as int * Base(i)
    {
      ghost var c0 := borrow;
      var (limb, next) := BorrowLimb(a[i], b[i], borrow);
      out[i] := limb;
      borrow := next;
      BorrowStep(Base(i), a[i] as int, b[i] as int, c0 as int, limb as int, next as int);
      Extend(a, i);
      Extend(b, i);
      NumAppend(out[..i], limb);
      assert out[..i + 1] == out[..i] + [limb];
    }
    BaseFour();
    assert a[..4] == a && b[..4] == b && out[..4] == out[..];
    r := out[..];
    NumRange(r);
    NumRange(a);
    NumRange(b);
  }

  lemma BorrowStep(base: int, x: int, y: int, c: int, s: int, d: int)
    requires s == x - y - c + d * W
    ensures s * base == x * base - y * base - c * base + d * (W * base)
  {
    assert (x - y - c + d * W) * base == x * base - y * base - c * base + (d * W) * base;
    assert (d * W) * base == d * (W * base);
  }

  // ----- Conditional subtraction, addition, subtraction -----

  lemma SingleLimb(d: Fe)
    requires d[1] == 0 && d[2] == 0 && d[3] == 0
    ensures Num(d) == d[0] as int
  {
    NumFour(d);
  }

  /** One conditional subtraction of P: reduces every value below 2P. */
  method CondSubP(a: Fe) returns (r: Fe)
    ensures Num(r) == if Num(a) < P then Num(a) else Num(a) - P
    ensures Num(a) < 2 * P ==> Num(r) == Num(a) % P
  {
    ConstantValues();
    NumRange(a);
    var s, b := Sub256(a, P_LIMBS);
    if b == 0 { r := s; } else { r := a; }
    if Num(a) < 2 * P {
      RemainderUnique(Num(a), if Num(a) < P then 0 else 1, P, Num(r));
    }
  }

  /** Field addition is exact precisely when the sum stays below 2^256 + P, which one reduced
      operand is enough for; past that bound the second carry is lost and the result is DELTA short. */
  method FeAdd(a: Fe, b: Fe) returns (r: Fe)
    ensures Num(r) == (Num(a) + Num(b)) % P <==> Num(a) + Num(b) < TWO256 + P
    ensures Num(a) + Num(b) >= TWO256 + P ==> Num(r) == (Num(a) + Num(b)) % P - DELTA as int
  {
    hide Num;
    NumRange(a);
    NumRange(b);
    var sum, c := Add256(a, b);
    NumRange(sum);
    r := AddCarry(sum, c);
    SumFolded(Num(a) + Num(b), Num(sum), c as int, Num(r));
  }

  /** The remainder of a sum of two 256-bit numbers, by counting how many times P fits. */
  lemma SumReduction(s: int)
    requires 0 <= s < 2 * TWO256
    ensures s % P == if s < P then s else if s < 2 * P then s - P else s - 2 * P
  {
    RemainderUnique(s, if s < P then 0 else if s < 2 * P then 1 else 2, P,
                    if s < P then s else if s < 2 * P then s - P else s - 2 * P);
  }

  /** What one folded carry makes of a 257-bit sum. */
  lemma SumFolded(s: int, low: int, c: int, r: int)
    requires 0 <= s < 2 * TWO256 && 0 <= low < TWO256 && 0 <= c <= 1 && s == low + c * TWO256
    requires low + c * DELTA as int < TWO256 ==> r == (low + c * DELTA as int) % P
    requires low + c * DELTA as int >= TWO256 ==> r == low + DELTA as int - TWO256
    ensures r == s % P <==> s < TWO256 + P
    ensures s >= TWO256 + P ==> r == s % P - DELTA as int
  {
    ConstantValues();
    SumReduction(s);
    SumReduction(low + c * DELTA as int);
  }

  /** Field subtraction is congruent to a - b for all inputs; the result is reduced exactly when
      a - b is below P, since a difference without borrow is returned as it is. */
  method FeSub(a: Fe, b: Fe) returns (r: Fe)
    ensures Num(r) % P == (Num(a) - Num(b)) % P
    ensures Num(r) == (Num(a) - Num(b)) % P <==> Num(a) - Num(b) < P
  {
    hide Num;
    ConstantValues();
    NumRange(a);
    NumRange(b);
    var d, borrow := Sub256(a, b);
    NumRange(d);
    r := d;
    if borrow > 0 {
      var delta: Fe := [DELTA, 0, 0, 0];
      SingleLimb(delta);
      var s, b2 := Sub256(d, delta);
      NumRange(s);
      if b2 > 0 {
        var wrapped, _ := Add256(s, P_LIMBS);
        NumRange(wrapped);
        s := wrapped;
      }
      r := CondSubP(s);
      assert Num(r) == Num(a) - Num(b) + P || Num(r) == Num(a) - Num(b) + 2 * P;
    }
    DifferenceFolded(Num(a) - Num(b), Num(r));
  }

  lemma DifferenceFolded(x: int, r: int)
    requires r == x || (x < 0 && 0 <= r < P && (r == x + P || r == x + 2 * P))
    requires r >= 0
    ensures r % P == x % P && (r == x % P <==> x < P)
  {
    ModShift(x, 1, P);
    ModShift(x, 2, P);
    if r < P { BelowPrime(r); }
  }

  // ----- Multiplication -----

  /** The number held by 128-bit cells, least significant first. */
  function NumWide(s: seq<u128>): int
  {
    if s == [] then 0 else NumWide(s[..|s| - 1]) + s[|s| - 1] as int * Base(|s| - 1)
  }

  lemma {:induction false} NumWideUpdate(s: seq<u128>, k: nat, v: u128)
    requires k < |s|
    ensures NumWide(s[k := v]) == NumWide(s) + (v as int - s[k] as int) * Base(k)
  {
    var n := |s| - 1;
    if k == n {
      assert s[k := v][..n] == s[..n];
      UpdateArith(Base(k), s[k] as int, v as int);
    } else {
      NumWideUpdate(s[..n], k, v);
      assert s[k := v][..n] == s[..n][k := v];
    }
  }

  lemma {:induction false} NumWideZero(s: seq<u128>)
    requires forall k :: 0 <= k < |s| ==> s[k] == 0
    ensures NumWide(s) == 0
  {
    if s != [] { NumWideZero(s[..|s| - 1]); }
  }

  lemma {:induction false} NumWideNarrow(s: seq<u128>, t: seq<u64>)
    requires |s| == |t| && forall k :: 0 <= k < |s| ==> s[k] as int == t[k] as int
    ensures NumWide(s) == Num(t)
  {
    if s != [] { NumWideNarrow(s[..|s| - 1], t[..|t| - 1]); }
  }

  lemma ProductBounds(x: int, y: int)
    requires 0 <= x < W && 0 <= y < W
    ensures 0 <= x * y <= (W - 1) * (W - 1)
  {
    MulLe(x, W - 1, y);
    MulLe(y, W - 1, W - 1);
    MulLe(0, x, y);
  }

  /** One cell of a row: the 128-bit accumulation never overflows and splits into a limb and a carry. */
  method MulCell(cell: u128, x: u64, y: u64, carry: u128) returns (lo: u128, next: u128)
    requires cell as int < W && carry as int < W
    ensures lo as int < W && next as int < W
    ensures lo as int + next as int * W == cell as int + x as int * y as int + carry as int
  {
    ProductBounds(x as int, y as int);
    var prod := x as u128 * y as u128;
    var (s, o1) := OverflowingAdd128(cell, prod);
    var (s2, o2) := OverflowingAdd128(s, carry);
    lo := Lo(s2) as u128;
    next := CarryOut(o1, o2, Hi(s2));
  }

  /** `((o1 as u128 + o2 as u128) << 64) + (s2 >> 64)` */
  function CarryOut(o1: bool, o2: bool, hi: u64): (c: u128)
    ensures !o1 && !o2 ==> c as int == hi as int
  {
    ((if o1 then 1 else 0) + (if o2 then 1 else 0)) * 0x1_0000_0000_0000_0000 + hi as u128
  }

  predicate Narrow(s: seq<u128>)
  {
    forall k :: 0 <= k < |s| ==> s[k] as int < W
  }

  /** The row's account after j cells: the cells and the pending carry hold the start value plus
      x times the first j limbs of b, shifted by i limbs. */
  ghost predicate RowSum(cells: seq<u128>, carry: int, start: int, x: int, b: Fe, i: nat, j: nat)
    requires j <= 4
  {
    NumWide(cells) + carry * Base(i + j) == start + x * Num(b[..j]) * Base(i)
  }

  lemma RowBegin(cells: seq<u128>, x: int, b: Fe, i: nat)
    ensures RowSum(cells, 0, NumWide(cells), x, b, i, 0)
  {
    assert b[..0] == [];
    assert x * Num([]) * Base(i) == 0;
  }

  lemma RowNext(cells: seq<u128>, carry: int, start: int, x: int, b: Fe, i: nat, j: nat, lo: u128, next: int)
    requires |cells| == 8 && i < 4 && j < 4 && RowSum(cells, carry, start, x, b, i, j)
    requires lo as int + next * W == cells[i + j] as int + x * b[j] as int + carry
    ensures RowSum(cells[i + j := lo], next, start, x, b, i, j + 1)
  {
    RowStep(Base(i), Base(j), x, b[j] as int, Num(b[..j]), cells[i + j] as int, carry, lo as int, next);
    PowAdd(W, i, j);
    Extend(b, j);
    NumWideUpdate(cells, i + j, lo);
    BaseStep(i + j);
  }

  lemma RowFinish(cells: seq<u128>, carry: u128, start: int, x: int, b: Fe, i: nat)
    requires |cells| == 8 && i < 4 && cells[i + 4] == 0 && RowSum(cells, carry as int, start, x, b, i, 4)
    ensures NumWide(cells[i + 4 := carry]) == start + x * Num(b) * Base(i)
  {
    NumWideUpdate(cells, i + 4, carry);
    assert b[..4] == b;
  }

  /** One row of the schoolbook product: adds x * b, shifted by i limbs, to the cells. */
  method AddRow(r: array<u128>, i: nat, x: u64, b: Fe)
    requires r.Length == 8 && i < 4 && Narrow(r[..])
    requires forall k :: i + 4 <= k < 8 ==> r[k] == 0
    modifies r
    ensures Narrow(r[..]) && forall k :: i + 5 <= k < 8 ==> r[k] == 0
    ensures NumWide(r[..]) == old(NumWide(r[..])) + x as int * Num(b) * Base(i)
  {
    hide RowSum, NumWide, Num, Base;
    ghost var start := NumWide(r[..]);
    var carry: u128 := 0;
    RowBegin(r[..], x as int, b, i);
    for j := 0 to 4
      invariant carry as int < W && Narrow(r[..])
      invariant forall k :: i + 4 <= k < 8 ==> r[k] == 0
      invariant RowSum(r[..], carry as int, start, x as int, b, i, j)
    {
      ghost var before := r[..];
      assert before[i + j] as int < W;
      var lo, next := MulCell(r[i + j], x, b[j], carry);
      RowNext(before, carry as int, start, x as int, b, i, j, lo, next as int);
      r[i + j] := lo;
      carry := next;
      assert r[..] == before[i + j := lo];
    }
    RowFinish(r[..], carry, start, x as int, b, i);
    ghost var before := r[..];
    r[i + 4] := r[i + 4] + carry;
    assert r[..] == before[i + 4 := carry];
  }

  lemma RowStep(bi: int, bj: int, x: int, y: int, nb: int, cell: int, c: int, lo: int, d: int)
    requires lo + d * W == cell + x * y + c
    ensures (lo - cell) * (bi * bj) + d * (W * (bi * bj)) - c * (bi * bj)
         == x * (nb + y * bj) * bi - x * nb * bi
  {
    var z := bi * bj;
    RowLeft(z, lo, cell, d, c, x * y);
    RowRight(bi, bj, x, y, nb);
  }

  lemma RowLeft(z: int, lo: int, cell: int, d: int, c: int, xy: int)
    requires lo + d * W == cell + xy + c
    ensures (lo - cell) * z + d * (W * z) - c * z == xy * z
  {
    assert (lo - cell + d * W - c) * z == (lo - cell) * z + (d * W) * z - c * z;
    assert (d * W) * z == d * (W * z);
  }

  lemma RowRight(bi: int, bj: int, x: int, y: int, nb: int)
    ensures x * (nb + y * bj) * bi - x * nb * bi == (x * y) * (bi * bj)
  {
    assert x * (nb + y * bj) == x * nb + x * (y * bj);
    assert (x * nb + x * (y * bj)) * bi == x * nb * bi + x * (y * bj) * bi;
    assert x * (y * bj) * bi == (x * y) * (bi * bj) by {
      assert x * (y * bj) == (x * y) * bj;
      assert (x * y) * bj * bi == (x * y) * (bi * bj);
    }
  }

  /** The schoolbook product of two four-limb numbers, carried into eight limbs. */
  method MulWide(a: Fe, b: Fe) returns (out: seq<u64>)
    ensures |out| == 8
    ensures Num(out) == Num(a) * Num(b)
  {
    hide Num, Base, Pow, NumWide;
    var r := new u128[8](_ => 0);
    NumWideZero(r[..]);
    NothingMultiplied(Num(b));
    assert a[..0] == [];
    for i := 0 to 4
      invariant r.Length == 8 && Narrow(r[..])
      invariant forall k :: i + 4 <= k < 8 ==> r[k] == 0
      invariant NumWide(r[..]) == Num(a[..i]) * Num(b)
    {
      AddRow(r, i, a[i], b);
      Extend(a, i);
      RowEnd(Num(a[..i]), a[i] as int, Num(b), Base(i));
    }
    assert a[..4] == a;
    NormalizeCells(r);
    out := LowLimbs(r);
  }

  method LowLimbs(r: array<u128>) returns (out: seq<u64>)
    requires r.Length == 8 && Narrow(r[..])
    ensures |out| == 8 && Num(out) == NumWide(r[..])
  {
    hide Num, NumWide;
    out := [Lo(r[0]), Lo(r[1]), Lo(r[2]), Lo(r[3]), Lo(r[4]), Lo(r[5]), Lo(r[6]), Lo(r[7])];
    assert forall k :: 0 <= k < 8 ==> r[..][k] as int < W;
    NumWideNarrow(r[..], out);
  }

  /** The carry pass after the rows: every cell already holds a single limb, so it moves nothing. */
  method NormalizeCells(r: array<u128>)
    requires r.Length == 8 && Narrow(r[..])
    modifies r
    ensures r[..] == old(r[..])
  {
    for k := 0 to 7
      invariant r[..] == old(r[..])
    {
      assert r[k] as int < W && r[k + 1] as int < W;
      r[k + 1] := r[k + 1] + Hi(r[k]) as u128;
      r[k] := Lo(r[k]) as u128;
    }
  }

  lemma NothingMultiplied(n: int)
    ensures Num([]) * n == 0 && n * Num([]) == 0
  {
  }

  lemma RowEnd(na: int, x: int, nb: int, base: int)
    ensures na * nb + x * nb * base == (na + x * base) * nb
  {
    assert x * nb * base == (x * base) * nb;
  }

  /** Folding the high half: adds high * DELTA to the low half, leaving a carry of at most DELTA. */
  method FoldHigh(low: Fe, high: Fe) returns (r: Fe, carry: u128)
    ensures carry as int <= DELTA as int
    ensures Num(r) + carry as int * TWO256 == Num(low) + Num(high) * DELTA as int
  {
    var out := new u64[4](k requires 0 <= k < 4 => low[k]);
    carry := 0;
    for i := 0 to 4
      invariant carry as int <= DELTA as int
      invariant forall k :: i <= k < 4 ==> out[k] == low[k]
      invariant Num(out[..i]) + carry as int * Base(i) == Num(low[..i]) + Num(high[..i]) * DELTA as int
    {
      ghost var c0 := carry;
      var prod: u128 := high[i] as u128 * DELTA as u128 + out[i] as u128 + carry;
      out[i] := Lo(prod);
      carry := Hi(prod) as u128;
      FoldStep(Base(i), low[i] as int, high[i] as int, DELTA as int, c0 as int, out[i] as int, carry as int);
      Extend(low, i);
      Extend(high, i);
      RowEnd(Num(high[..i]), high[i] as int, DELTA as int, Base(i));
      NumAppend(out[..i], out[i]);
      assert out[..i + 1] == out[..i] + [out[i]];
    }
    BaseFour();
    assert low[..4] == low && high[..4] == high && out[..4] == out[..];
    r := out[..];
  }

  lemma FoldStep(base: int, x: int, h: int, delta: int, c: int, s: int, d: int)
    requires s + d * W == h * delta + x + c
    ensures s * base + d * (W * base) == x * base + h * delta * base + c * base
  {
    assert (s + d * W) * base == s * base + (d * W) * base;
    assert (d * W) * base == d * (W * base);
    assert (h * delta + x + c) * base == h * delta * base + x * base + c * base;
  }

  /** 2^256 and DELTA agree modulo P, so each fold keeps the value modulo P. */
  lemma FoldValue(ab: int, low: int, high: int, s: int, carry: int, t: int, c: int)
    requires ab == low + TWO256 * high
    requires s + carry * TWO256 == low + high * DELTA as int
    requires t + c * TWO256 == s + carry * DELTA as int
    ensures (t + c * DELTA as int) % P == ab % P
  {
    ConstantValues();
    assert ab == (t + c * DELTA as int) + (high + carry + c) * P;
    ModShift(t + c * DELTA as int, high + carry + c, P);
  }

  /** The second fold and the final reduction, from the first fold's limbs and its carry. */
  method FoldCarry(folded: Fe, carry: u128, ghost low: int, ghost high: int) returns (r: Fe)
    requires carry as int <= DELTA as int
    requires Num(folded) + carry as int * TWO256 == low + high * DELTA as int
    ensures Num(r) == (low + TWO256 * high) % P
  {
    ConstantValues();
    NumRange(folded);
    var cd: u128 := carry * DELTA as u128;
    var fold2: Fe := [Lo(cd), Hi(cd), 0, 0];
    TwoLimbs(fold2);
    var s, c := Add256(folded, fold2);
    NumRange(s);
    FoldValue(low + TWO256 * high, low, high, Num(folded), carry as int, Num(s), c as int);
    r := AddCarry(s, c);
  }

  /** A carry out of 256 bits is worth DELTA; a carry out of that second
      addition is dropped. */
  method AddCarry(s: Fe, c: u64) returns (r: Fe)
    requires c <= 1
    ensures Num(s) + c as int * DELTA as int < TWO256 ==> Num(r) == (Num(s) + c as int * DELTA as int) % P
    ensures Num(s) + c as int * DELTA as int >= TWO256 ==> Num(r) == Num(s) + DELTA as int - TWO256
  {
    ConstantValues();
    NumRange(s);
    if c > 0 {
      var delta: Fe := [DELTA, 0, 0, 0];
      SingleLimb(delta);
      var s2, _ := Add256(s, delta);
      NumRange(s2);
      r := CondSubP(s2);
    } else {
      r := CondSubP(s);
    }
  }

  lemma TwoLimbs(d: Fe)
    requires d[2] == 0 && d[3] == 0
    ensures Num(d) == d[0] as int + W * d[1] as int
  {
    NumFour(d);
  }

  lemma SplitHalves(wide: seq<u64>)
    requires |wide| == 8
    ensures Num(wide) == Num(wide[..4]) + TWO256 * Num(wide[4..])
  {
    BaseFour();
    NumConcat(wide[..4], wide[4..]);
    assert wide == wide[..4] + wide[4..];
  }

  /** Field multiplication returns the reduced product for all 256-bit inputs. */
  method FeMul(a: Fe, b: Fe) returns (r: Fe)
    ensures Num(r) == (Num(a) * Num(b)) % P
  {
    var wide := MulWide(a, b);
    SplitHalves(wide);
    var low, high: Fe := wide[..4], wide[4..];
    var folded, carry := FoldHigh(low, high);
    r := FoldCarry(folded, carry, Num(low), Num(high));
  }

  method FeSqr(a: Fe) returns (r: Fe)
    ensures Num(r) == (Num(a) * Num(a)) % P
  {
    r := FeMul(a, a);
  }

  // ----- Square and multiply -----

  /** `bits >> 63 != 0` */
  predicate TopBit(bits: u64) { bits as int >= 0x8000_0000_0000_0000 }

  /** `bits <<= 1`, which drops the top bit. */
  function ShiftLeft(bits: u64): (r: u64)
    ensures r as int == 2 * bits as int - if TopBit(bits) then W else 0
  {
    ((2 * bits as int) % W) as u64
  }

  lemma TwoTo64()
    ensures Pow(2, 64) == W && Pow(2, 0) == 1
  {
    PowAdd(2, 8, 8);
    PowAdd(2, 16, 16);
    PowAdd(2, 32, 32);
    assert Pow(2, 8) == 256;
  }

  /** What the bit loop knows after t bits of a word: e are the exponent bits consumed so far and
      rest the ones still to come, which `bits` holds shifted to the top. */
  ghost predicate BitState(e: nat, rest: nat, bits: u64, t: nat, goal: nat)
    requires t <= 64
  {
    && bits as int == rest * Pow(2, t)
    && rest < Pow(2, 64 - t)
    && e * Pow(2, 64 - t) + rest == goal
  }

  /** The powers of two that one shift moves between. */
  lemma BitPowers(t: nat)
    requires t < 64
    ensures Pow(2, 63 - t) > 0 && Pow(2, t) > 0
    ensures Pow(2, 64 - t) == 2 * Pow(2, 63 - t) && Pow(2, t + 1) == 2 * Pow(2, t)
    ensures Pow(2, 63 - t) * Pow(2, t) == 0x8000_0000_0000_0000
  {
    TwoTo64();
    PowAdd(2, 63 - t, t);
    PowAdd(2, 1, 63);
    assert Pow(2, 1) == 2 * Pow(2, 0);
    PowPositive(2, t);
    PowPositive(2, 63 - t);
  }

  lemma BitStep(e: nat, rest: nat, bits: u64, t: nat, goal: nat) returns (rest': nat)
    requires t < 64 && BitState(e, rest, bits, t, goal)
    ensures BitState(2 * e + if TopBit(bits) then 1 else 0, rest', ShiftLeft(bits), t + 1, goal)
  {
    var half, low := Pow(2, 63 - t), Pow(2, t);
    BitPowers(t);
    assert TopBit(bits) <==> rest >= half by {
      if rest >= half { MulLe(half, rest, low); } else { MulLe(rest + 1, half, low); }
    }
    rest' := if rest >= half then rest - half else rest;
    BitArith(e, rest, rest', half, low, if rest >= half then 1 else 0);
  }

  lemma BitArith(e: int, rest: int, rest': int, half: int, low: int, top: int)
    requires rest == rest' + top * half
    ensures (2 * e + top) * half + rest' == e * (2 * half) + rest
    ensures rest' * (2 * low) == 2 * (rest * low) - top * (2 * (half * low))
  {
    assert (2 * e + top) * half == e * (2 * half) + top * half;
    assert (rest' + top * half) * low == rest' * low + top * (half * low) by {
      assert (rest' + top * half) * low == rest' * low + (top * half) * low;
      assert (top * half) * low == top * (half * low);
    }
    assert rest' * (2 * low) == 2 * (rest' * low);
    assert top * (2 * (half * low)) == 2 * (top * (half * low));
  }

  lemma SquareStep(a: int, e: nat, r: int, s: int)
    requires r == Pow(a, e) % P && s == (r * r) % P
    ensures s == Pow(a, 2 * e) % P
    ensures (s * a) % P == Pow(a, 2 * e + 1) % P
  {
    PowAdd(a, e, e);
    MulMod(Pow(a, e), Pow(a, e), P);
    MulMod(Pow(a, 2 * e), a, P);
    assert Pow(a, 2 * e + 1) == a * Pow(a, 2 * e);
  }

  /** The square-and-multiply loop shared by the inverse and the root: from the most significant
      bit of the exponent down, 64 bits of each of the four words. */
  method FePow(a: Fe, exp: Fe) returns (r: Fe)
    ensures Num(exp) >= 0
    ensures Num(r) == Pow(Num(a), Num(exp)) % P
  {
    NumRange(exp);
    r := [1, 0, 0, 0];
    SingleLimb(r);
    ghost var e: nat := 0;
    assert exp[4..] == [];
    BelowPrime(1);
    for w := 0 to 4
      invariant e == Num(exp[4 - w..])
      invariant Num(r) == Pow(Num(a), e) % P
    {
      var bits := exp[3 - w];
      ghost var goal := e * W + bits as int;
      ghost var rest: nat := bits as int;
      TwoTo64();
      for t := 0 to 64
        invariant BitState(e, rest, bits, t, goal)
        invariant Num(r) == Pow(Num(a), e) % P
      {
        var sq := FeSqr(r);
        SquareStep(Num(a), e, Num(r), Num(sq));
        rest := BitStep(e, rest, bits, t, goal);
        e := 2 * e + if TopBit(bits) then 1 else 0;
        r := sq;
        if TopBit(bits) {
          r := FeMul(r, a);
        }
        bits := ShiftLeft(bits);
      }
      assert Pow(2, 0) == 1;
      assert exp[3 - w..] == [exp[3 - w]] + exp[4 - w..];
      NumConcat([exp[3 - w]], exp[4 - w..]);
      assert [exp[3 - w]][..0] == [];
    }
    assert exp[0..] == exp;
  }

  /** The inverse: the power a^(P-2) of Fermat's little theorem. */
  method FeInv(a: Fe) returns (r: Fe)
    ensures Num(r) == Pow(Num(a), P - 2) % P
    ensures IsPrime(P) ==> ((Num(a) * Num(r)) % P == 1 <==> Num(a) % P != 0)
  {
    ConstantValues();
    r := FePow(a, INV_EXP);
    InversePower(P, Num(a), Num(r));
  }

  lemma InversePower(p: int, a: int, r: int)
    requires p > 2 && r == Pow(a, p - 2) % p
    ensures IsPrime(p) ==> ((a * r) % p == 1 <==> a % p != 0)
  {
    if IsPrime(p) {
      PowerInverse(p, a);
      MulMod(a, Pow(a, p - 2), p);
    }
  }

  /** The root: the power a^((P+1)/4), which squares to a exactly when a is a reduced square. */
  method FeSqrt(a: Fe) returns (r: Fe)
    ensures Num(r) == Pow(Num(a), (P + 1) / 4) % P
    ensures IsPrime(P) ==> ((Num(r) * Num(r)) % P == Num(a) <==> Num(a) < P && exists x :: (x * x) % P == Num(a))
  {
    ConstantValues();
    NumRange(a);
    r := FePow(a, SQRT_EXP);
    RootPower(P, Num(a), Num(r));
  }

  lemma RootPower(p: int, a: int, r: int)
    requires p % 4 == 3 && p > 0 && a >= 0 && r == Pow(a, (p + 1) / 4) % p
    ensures IsPrime(p) ==> ((r * r) % p == a <==> a < p && exists x :: (x * x) % p == a)
  {
    if IsPrime(p) {
      SquareRootPower(p, a);
      MulMod(Pow(a, (p + 1) / 4), Pow(a, (p + 1) / 4), p);
      if a < p { RemainderUnique(a, 0, p, a); }
    }
  }

  /** Reduction modulo the group order, by one conditional subtraction. */
  method FeModN(a: Fe) returns (r: Fe)
    ensures Num(r) == Num(a) % N
  {
    ConstantValues();
    NumRange(a);
    var s, b := Sub256(a, N_LIMBS);
    if b == 0 { r := s; } else { r := a; }
    NumRange(r);
    RemainderUnique(Num(a), if Num(a) < N then 0 else 1, N, Num(r));
  }

  // ----- Byte codecs -----

  /** The 32 bytes of a field element, most significant first. */
  method FeToBeBytes(a: Fe) returns (be: seq<u8>)
    ensures |be| == 32 && BeVal(be) == Num(a)
  {
    var le := LimbsToBytes(a);
    LimbsToBytesValue(a);
    var out := new u8[32](_ => 0);
    for i := 0 to 32
      invariant forall k :: 0 <= k < i ==> out[k] == le[31 - k]
    {
      out[i] := le[31 - i];
    }
    be := out[..];
    BeIsReversedLe(be, le);
  }

  /** `to_le_bytes` of one limb. */
  function LimbBytes(x: u64): (s: seq<u8>)
    ensures |s| == 8 && LeVal(s) == x as int
  {
    BytesPerLimb();
    LeBytesValue(x as int, 8);
    LeBytes(x as int, 8)
  }

  /** `from_le_bytes` of one limb. */
  function LimbFromBytes(s: seq<u8>): (x: u64)
    requires |s| == 8
    ensures x as int == LeVal(s)
  {
    BytesPerLimb();
    LeBounds(s);
    LeVal(s) as u64
  }

  lemma BytesPerLimb()
    ensures Pow(256, 8) == W
  {
    assert Pow(256, 4) == 0x1_0000_0000;
    PowAdd(256, 4, 4);
  }

  lemma LimbThenRest(p: seq<u8>, t: seq<u8>)
    requires |p| == 8
    ensures LeVal(p + t) == LeVal(p) + W * LeVal(t)
  {
    BytesPerLimb();
    LeConcat(p, t);
  }

  /** Limbs written out as little-endian bytes, and read back. */
  function LimbsToBytes(s: seq<u64>): (b: seq<u8>)
    ensures |b| == 8 * |s|
  {
    if s == [] then [] else LimbBytes(s[0]) + LimbsToBytes(s[1..])
  }

  function BytesToLimbs(b: seq<u8>): (s: seq<u64>)
    requires |b| % 8 == 0
    ensures 8 * |s| == |b|
  {
    if b == [] then [] else [LimbFromBytes(b[..8])] + BytesToLimbs(b[8..])
  }

  lemma NumHead(x: u64, s: seq<u64>)
    ensures Num([x] + s) == x as int + W * Num(s)
  {
    NumConcat([x], s);
    assert Pow(W, 1) == W * Pow(W, 0);
    assert [x][..0] == [];
  }

  lemma {:induction false} LimbsToBytesValue(s: seq<u64>)
    ensures LeVal(LimbsToBytes(s)) == Num(s)
  {
    if s != [] {
      LimbThenRest(LimbBytes(s[0]), LimbsToBytes(s[1..]));
      LimbsToBytesValue(s[1..]);
      NumHead(s[0], s[1..]);
      assert s == [s[0]] + s[1..];
    }
  }

  lemma {:induction false} BytesToLimbsValue(b: seq<u8>)
    requires |b| % 8 == 0
    ensures Num(BytesToLimbs(b)) == LeVal(b)
  {
    if b != [] {
      LimbThenRest(b[..8], b[8..]);
      BytesToLimbsValue(b[8..]);
      NumHead(LimbFromBytes(b[..8]), BytesToLimbs(b[8..]));
      assert b == b[..8] + b[8..];
    }
  }

  /** The four limbs of 32 big-endian bytes. */
  method BeBytesToFe(b: seq<u8>) returns (r: Fe)
    requires |b| == 32
    ensures Num(r) == BeVal(b)
  {
    var rb := new u8[32](_ => 0);
    for i := 0 to 32
      invariant forall k :: 0 <= k < i ==> rb[k] == b[31 - k]
    {
      rb[i] := b[31 - i];
    }
    BeIsReversedLe(b, rb[..]);
    BytesToLimbsValue(rb[..]);
    r := BytesToLimbs(rb[..]);
  }

  /** Two elements with the same bytes are equal, and two byte strings of the same element are equal,
      so each codec undoes the other. */
  lemma CodecRoundTrip(a: Fe, b: seq<u8>, a': Fe, b': seq<u8>)
    requires |b| == |b'| == 32
    requires BeVal(b) == Num(a) && Num(a') == BeVal(b')
    ensures a == a' <==> b == b'
  {
    if b == b' { NumInjective(a, a'); }
    if a == a' { BeInjective(b, b'); }
  }
}
