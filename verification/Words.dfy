/** Machine words and little-endian limb sequences. */
module Words {
  import opened Modular

  const W: int := 0x1_0000_0000_0000_0000

  newtype u8 = x: int | 0 <= x < 0x100
  newtype u32 = x: int | 0 <= x < 0x1_0000_0000
  newtype u64 = x: int | 0 <= x < 0x1_0000_0000_0000_0000
  newtype u128 = x: int | 0 <= x < 0x1_0000_0000_0000_0000_0000_0000_0000_0000

  /** `overflowing_add` on 64 bits. */
  function OverflowingAdd(a: u64, b: u64): (r: (u64, bool))
    ensures r.0 as int + (if r.1 then W else 0) == a as int + b as int
  {
    var s := a as int + b as int;
    if s >= W then ((s - W) as u64, true) else (s as u64, false)
  }

  /** `wrapping_sub` on 64 bits. */
  function WrappingSub(a: u64, b: u64): (r: u64)
    ensures r as int == if a < b then a as int - b as int + W else a as int - b as int
  {
    var s := a as int - b as int;
    if s < 0 then (s + W) as u64 else s as u64
  }

  /** `overflowing_add` on 128 bits. */
  function OverflowingAdd128(a: u128, b: u128): (r: (u128, bool))
    ensures r.0 as int + (if r.1 then W * W else 0) == a as int + b as int
  {
    var s := a as int + b as int;
    if s >= W * W then ((s - W * W) as u128, true) else (s as u128, false)
  }

  /** The low 64 bits: `x & mask`, and the truncating cast `x as u64`. */
  function Lo(x: u128): (r: u64)
    ensures r as int + W * Hi(x) as int == x as int
  {
    (x as int % W) as u64
  }

  /** The high 64 bits: `x >> 64`. */
  function Hi(x: u128): (r: u64)
  {
    (x as int / W) as u64
  }

  function Base(n: nat): int { Pow(W, n) }

  lemma BaseStep(n: nat)
    ensures Base(n + 1) == W * Base(n) && Base(0) == 1
  {
  }

  lemma BasePositive(n: nat)
    ensures Base(n) > 0
  {
    PowPositive(W, n);
  }

  /** The number written by a sequence of 64-bit limbs, least significant first. */
  function Num(s: seq<u64>): int
  {
    if s == [] then 0 else Num(s[..|s| - 1]) + s[|s| - 1] as int * Base(|s| - 1)
  }

  lemma NumAppend(s: seq<u64>, x: u64)
    ensures Num(s + [x]) == Num(s) + x as int * Base(|s|)
  {
    assert (s + [x])[..|s|] == s;
  }

  lemma {:induction false} NumConcat(s: seq<u64>, t: seq<u64>)
    ensures Num(s + t) == Num(s) + Base(|s|) * Num(t)
  {
    if t == [] {
      assert s + t == s;
    } else {
      var n := |t| - 1;
      NumConcat(s, t[..n]);
      assert (s + t)[..|s| + n] == s + t[..n];
      PowAdd(W, |s|, n);
      ConcatArith(Base(|s|), Num(t[..n]), t[n] as int, Base(n));
    }
  }

  lemma ConcatArith(b: int, x: int, d: int, c: int)
    ensures b * (x + d * c) == b * x + d * (b * c)
  {
    assert b * (d * c) == d * (b * c);
  }

  lemma {:induction false} NumBounds(s: seq<u64>)
    ensures 0 <= Num(s) < Base(|s|)
  {
    if s != [] {
      var n := |s| - 1;
      NumBounds(s[..n]);
      TopLimbBounds(s[n] as int, Base(n));
    }
  }

  lemma TopLimbBounds(d: int, b: int)
    requires 0 <= d < W && b > 0
    ensures 0 <= d * b && d * b + b <= W * b
  {
    MulLe(0, d, b);
    MulLe(d + 1, W, b);
  }

  lemma MulLe(x: int, y: int, b: int)
    requires x <= y && b >= 0
    ensures x * b <= y * b
  {
  }

  lemma UpdateArith(b: int, x: int, v: int)
    ensures v * b == x * b + (v - x) * b
  {
  }

  /** Limb sequences of the same length that write the same number are the same. */
  lemma {:induction false} NumInjective(s: seq<u64>, t: seq<u64>)
    requires |s| == |t| && Num(s) == Num(t)
    ensures s == t
  {
    if s != [] {
      var n := |s| - 1;
      NumBounds(s[..n]);
      NumBounds(t[..n]);
      RemainderUnique(Num(s), s[n] as int, Base(n), Num(s[..n]));
      RemainderUnique(Num(t), t[n] as int, Base(n), Num(t[..n]));
      NumInjective(s[..n], t[..n]);
      assert s == s[..n] + [s[n]] && t == t[..n] + [t[n]];
    }
  }

  // ----- Bytes -----

  /** The number written by bytes, least significant first. */
  function LeVal(s: seq<u8>): nat
  {
    if s == [] then 0 else s[0] as int + 256 * LeVal(s[1..])
  }

  /** The number written by bytes, most significant first. */
  function BeVal(s: seq<u8>): nat
  {
    if s == [] then 0 else 256 * BeVal(s[..|s| - 1]) + s[|s| - 1] as int
  }

  /** The low n bytes of x, least significant first (`to_le_bytes`). */
  function LeBytes(x: nat, n: nat): (s: seq<u8>)
    ensures |s| == n
  {
    if n == 0 then [] else [(x % 256) as u8] + LeBytes(x / 256, n - 1)
  }

  lemma {:induction false} LeBytesValue(x: nat, n: nat)
    requires x < Pow(256, n)
    ensures LeVal(LeBytes(x, n)) == x
  {
    if n > 0 {
      assert x / 256 < Pow(256, n - 1);
      LeBytesValue(x / 256, n - 1);
      assert LeBytes(x, n)[1..] == LeBytes(x / 256, n - 1);
    }
  }

  lemma {:induction false} LeConcat(s: seq<u8>, t: seq<u8>)
    ensures LeVal(s + t) == LeVal(s) + Pow(256, |s|) * LeVal(t)
  {
    if s == [] {
      assert s + t == t;
    } else {
      LeConcat(s[1..], t);
      assert (s + t)[1..] == s[1..] + t;
      assert 256 * (Pow(256, |s| - 1) * LeVal(t)) == (256 * Pow(256, |s| - 1)) * LeVal(t);
    }
  }

  lemma {:induction false} LeBounds(s: seq<u8>)
    ensures LeVal(s) < Pow(256, |s|)
  {
    if s != [] { LeBounds(s[1..]); }
  }

  lemma {:induction false} BeIsReversedLe(be: seq<u8>, le: seq<u8>)
    requires |be| == |le| && forall k :: 0 <= k < |be| ==> be[k] == le[|le| - 1 - k]
    ensures BeVal(be) == LeVal(le)
  {
    if be != [] {
      BeIsReversedLe(be[..|be| - 1], le[1..]);
    }
  }

  lemma {:induction false} BeInjective(s: seq<u8>, t: seq<u8>)
    requires |s| == |t| && BeVal(s) == BeVal(t)
    ensures s == t
  {
    if s != [] {
      BeInjective(s[..|s| - 1], t[..|t| - 1]);
      assert s == s[..|s| - 1] + [s[|s| - 1]] && t == t[..|t| - 1] + [t[|t| - 1]];
    }
  }
}
