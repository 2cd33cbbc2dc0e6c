/** SHA-256: the streaming implementation against the pad-then-chunk definition of FIPS 180-4. */
module Sha256 {
  import opened Modular
  import opened Words
  import opened Bits

  const K: seq<Word> :=
    [0x428A2F98, 0x71374491, 0xB5C0FBCF, 0xE9B5DBA5, 0x3956C25B, 0x59F111F1, 0x923F82A4, 0xAB1C5ED5] +
    [0xD807AA98, 0x12835B01, 0x243185BE, 0x550C7DC3, 0x72BE5D74, 0x80DEB1FE, 0x9BDC06A7, 0xC19BF174] +
    [0xE49B69C1, 0xEFBE4786, 0x0FC19DC6, 0x240CA1CC, 0x2DE92C6F, 0x4A7484AA, 0x5CB0A9DC, 0x76F988DA] +
    [0x983E5152, 0xA831C66D, 0xB00327C8, 0xBF597FC7, 0xC6E00BF3, 0xD5A79147, 0x06CA6351, 0x14292967] +
    [0x27B70A85, 0x2E1B2138, 0x4D2C6DFC, 0x53380D13, 0x650A7354, 0x766A0ABB, 0x81C2C92E, 0x92722C85] +
    [0xA2BFE8A1, 0xA81A664B, 0xC24B8B70, 0xC76C51A3, 0xD192E819, 0xD6990624, 0xF40E3585, 0x106AA070] +
    [0x19A4C116, 0x1E376C08, 0x2748774C, 0x34B0BCB5, 0x391C0CB3, 0x4ED8AA4A, 0x5B9CCA4F, 0x682E6FF3] +
    [0x748F82EE, 0x78A5636F, 0x84C87814, 0x8CC70208, 0x90BEFFFA, 0xA4506CEB, 0xBEF9A3F7, 0xC67178F2]

  const H0: seq<Word> := [
    0x6A09E667, 0xBB67AE85, 0x3C6EF372, 0xA54FF53A, 0x510E527F, 0x9B05688C, 0x1F83D9AB, 0x5BE0CD19
  ]

  type Block = b: seq<u8> | |b| == 64 witness seq(64, _ => 0)
  type Digest = h: seq<Word> | |h| == 8 witness seq(8, _ => 0)

  // ----- FIPS 180-4 -----

  function Reverse(s: seq<u8>): seq<u8>
  {
    seq(|s|, i requires 0 <= i < |s| => s[|s| - 1 - i])
  }

  /** The low n bytes of x, most significant first. */
  function BeBytes(x: nat, n: nat): (b: seq<u8>)
    ensures |b| == n
  {
    Reverse(LeBytes(x, n))
  }

  lemma BeBytesValue(x: nat, n: nat)
    requires x < Pow(256, n)
    ensures BeVal(BeBytes(x, n)) == x
  {
    LeBytesValue(x, n);
    BeIsReversedLe(BeBytes(x, n), LeBytes(x, n));
  }

  lemma {:induction false} BeBounds(s: seq<u8>)
    ensures BeVal(s) < Pow(256, |s|)
  {
    if s != [] { BeBounds(s[..|s| - 1]); }
  }

  /** `u32::from_be_bytes` */
  function WordOf(b: seq<u8>): Word
    requires |b| == 4
  {
    BeBounds(b);
    assert Pow(256, 4) == 0x1_0000_0000;
    BeVal(b) as Word
  }

  /** `u32::to_be_bytes` */
  function BytesOf(w: Word): (b: seq<u8>)
    ensures |b| == 4 && BeVal(b) == w as int
  {
    assert Pow(256, 4) == 0x1_0000_0000;
    BeBytesValue(w as int, 4);
    BeBytes(w as int, 4)
  }

  /** Reading the bytes of a word gives it back. */
  lemma WordOfBytes(w: Word)
    ensures WordOf(BytesOf(w)) == w
  {
    WordIs(BytesOf(w), w as nat, w);
  }

  lemma WordIs(b: seq<u8>, v: nat, w: Word)
    requires |b| == 4 && BeVal(b) == v < 0x1_0000_0000 && v as Word == w
    ensures WordOf(b) == w
  {}

  /** The message schedule, section 6.2.2 step 1, the sum taken in the order of the code. */
  function Schedule(m: Block, t: nat): Word
    requires t < 64
  {
    if t < 16 then WordOf(m[4 * t..4 * t + 4])
    else
      Plus(Plus(Plus(Schedule(m, t - 16), SmallSigma0(Schedule(m, t - 15))), Schedule(m, t - 7)),
           SmallSigma1(Schedule(m, t - 2)))
  }

  datatype Working = Working(a: Word, b: Word, c: Word, d: Word, e: Word, f: Word, g: Word, h: Word)

  /** One round, section 6.2.2 step 3. */
  function Round(v: Working, k: Word, w: Word): Working
  {
    var t1 := Plus(Plus(Plus(Plus(v.h, BigSigma1(v.e)), Ch(v.e, v.f, v.g)), k), w);
    var t2 := Plus(BigSigma0(v.a), Maj(v.a, v.b, v.c));
    Working(Plus(t1, t2), v.a, v.b, v.c, Plus(v.d, t1), v.e, v.f, v.g)
  }

  function Start(h: Digest): Working { Working(h[0], h[1], h[2], h[3], h[4], h[5], h[6], h[7]) }

  /** The working variables after t rounds. */
  function Rounds(h: Digest, m: Block, t: nat): Working
    requires t <= 64
  {
    if t == 0 then Start(h) else Round(Rounds(h, m, t - 1), K[t - 1], Schedule(m, t - 1))
  }

  /** The next hash value, section 6.2.2 step 4. */
  function Final(h: Digest, v: Working): Digest
  {
    [Plus(h[0], v.a), Plus(h[1], v.b), Plus(h[2], v.c), Plus(h[3], v.d),
     Plus(h[4], v.e), Plus(h[5], v.f), Plus(h[6], v.g), Plus(h[7], v.h)]
  }

  function Compress(h: Digest, m: Block): Digest { Final(h, Rounds(h, m, 64)) }

  /** The number of zero bytes between the 0x80 byte and the length field: the smallest that makes
      the length 56 modulo 64 (section 5.1.1, on whole bytes). */
  function ZeroCount(n: nat): nat { (55 - n) % 64 }

  lemma ZeroCountIsLeast(n: nat, z: nat)
    ensures (n + 1 + ZeroCount(n)) % 64 == 56
    ensures (n + 1 + z) % 64 == 56 ==> ZeroCount(n) <= z
  {
  }

  function Zeros(n: nat): seq<u8> { seq(n, _ => 0) }

  /** The 64-bit big-endian bit length. */
  function LengthField(n: nat): (b: seq<u8>)
    requires n < 0x2000_0000_0000_0000
    ensures |b| == 8 && BeVal(b) == 8 * n
  {
    assert Pow(256, 4) == 0x1_0000_0000;
    PowAdd(256, 4, 4);
    BeBytesValue(8 * n, 8);
    BeBytes(8 * n, 8)
  }

  lemma PaddedLength(n: nat)
    ensures (n + 1 + ZeroCount(n) + 8) % 64 == 0
  {
  }

  function Pad(m: seq<u8>): (p: seq<u8>)
    requires |m| < 0x2000_0000_0000_0000
    ensures |p| % 64 == 0
  {
    PaddedLength(|m|);
    m + [0x80] + Zeros(ZeroCount(|m|)) + LengthField(|m|)
  }

  /** A block function folded over the chunks of a padded message, section 6.2.2. */
  function Chain(f: (Digest, Block) -> Digest, h: Digest, p: seq<u8>): Digest
    decreases |p|
  {
    if |p| < 64 then h else Chain(f, f(h, p[..64]), p[64..])
  }

  function Serialize(h: seq<Word>): (b: seq<u8>)
    ensures |b| == 4 * |h|
  {
    if h == [] then [] else Serialize(h[..|h| - 1]) + BytesOf(h[|h| - 1])
  }

  function Hash(m: seq<u8>): seq<u8>
    requires |m| < 0x2000_0000_0000_0000
  {
    Serialize(Chain(Compress, H0, Pad(m)))
  }

  // ----- The implementation -----

  lemma ScheduleStart(m: Block, t: nat)
    requires t < 16
    ensures Schedule(m, t) == WordOf([m[4 * t], m[4 * t + 1], m[4 * t + 2], m[4 * t + 3]])
  {
    assert m[4 * t..4 * t + 4] == [m[4 * t], m[4 * t + 1], m[4 * t + 2], m[4 * t + 3]];
  }

  lemma ScheduleNext(m: Block, t: nat)
    requires 16 <= t < 64
    ensures Schedule(m, t) ==
            Plus(Plus(Plus(Schedule(m, t - 16), SmallSigma0(Schedule(m, t - 15))), Schedule(m, t - 7)),
                 SmallSigma1(Schedule(m, t - 2)))
  {
    hide Plus, SmallSigma0, SmallSigma1;
  }

  /** The schedule array: 16 words of the block, then 48 words of the recurrence. */
  method BuildSchedule(block: Block) returns (w: array<Word>)
    ensures fresh(w) && w.Length == 64
    ensures forall t :: 0 <= t < 64 ==> w[t] == Schedule(block, t)
  {
    hide *;
    w := new Word[64](_ => 0);
    for i := 0 to 16
      invariant forall t :: 0 <= t < i ==> w[t] == Schedule(block, t)
    {
      w[i] := WordOf([block[4 * i], block[4 * i + 1], block[4 * i + 2], block[4 * i + 3]]);
      ScheduleStart(block, i);
    }
    for i := 16 to 64
      invariant forall t :: 0 <= t < i ==> w[t] == Schedule(block, t)
    {
      var s0 := SmallSigma0(w[i - 15]);
      var s1 := SmallSigma1(w[i - 2]);
      w[i] := Plus(Plus(Plus(w[i - 16], s0), w[i - 7]), s1);
      ScheduleNext(block, i);
    }
  }

  lemma RoundsStep(h: Digest, m: Block, t: nat)
    requires t < 64
    ensures Rounds(h, m, t + 1) == Round(Rounds(h, m, t), K[t], Schedule(m, t)) && Rounds(h, m, 0) == Start(h)
  {
    hide Round, Schedule;
  }

  /** The 64 rounds. */
  method Mix(h: Digest, ghost block: Block, w: array<Word>) returns (v: Working)
    requires w.Length == 64 && forall t :: 0 <= t < 64 ==> w[t] == Schedule(block, t)
    ensures v == Rounds(h, block, 64)
  {
    hide Plus, Ch, Maj, BigSigma0, BigSigma1, Schedule, Rounds;
    var a, b, c, d, e, f, g, hh := h[0], h[1], h[2], h[3], h[4], h[5], h[6], h[7];
    RoundsStep(h, block, 0);
    for i := 0 to 64
      invariant Working(a, b, c, d, e, f, g, hh) == Rounds(h, block, i)
    {
      RoundsStep(h, block, i);
      var s1 := BigSigma1(e);
      var ch := Ch(e, f, g);
      var t1 := Plus(Plus(Plus(Plus(hh, s1), ch), K[i]), w[i]);
      var s0 := BigSigma0(a);
      var maj := Maj(a, b, c);
      var t2 := Plus(s0, maj);
      hh := g;
      g := f;
      f := e;
      e := Plus(d, t1);
      d := c;
      c := b;
      b := a;
      a := Plus(t1, t2);
    }
    v := Working(a, b, c, d, e, f, g, hh);
  }

  method Sha256Block(h: array<Word>, block: Block)
    requires h.Length == 8
    modifies h
    ensures h[..] == Compress(old(h[..]), block)
  {
    hide Plus, Rounds, Schedule;
    ghost var h0: Digest := h[..];
    var w := BuildSchedule(block);
    assert h[..] == h0;
    var v := Mix(h[..], block, w);
    AddInto(h, v);
  }

  /** Adds the working variables into the hash value, word by word. */
  method AddInto(h: array<Word>, v: Working)
    requires h.Length == 8
    modifies h
    ensures h[..] == Final(old(h[..]), v)
  {
    hide Plus;
    ghost var was: Digest := h[..];
    AddFour(h, 0, v.a, v.b, v.c, v.d);
    AddFour(h, 4, v.e, v.f, v.g, v.h);
  }

  method AddFour(h: array<Word>, i: nat, a: Word, b: Word, c: Word, d: Word)
    requires i + 4 <= h.Length
    modifies h
    ensures h[i] == Plus(old(h[i]), a) && h[i + 1] == Plus(old(h[i + 1]), b)
    ensures h[i + 2] == Plus(old(h[i + 2]), c) && h[i + 3] == Plus(old(h[i + 3]), d)
    ensures forall j :: 0 <= j < h.Length && !(i <= j < i + 4) ==> h[j] == old(h[j])
  {
    hide Plus;
    h[i] := Plus(h[i], a);
    h[i + 1] := Plus(h[i + 1], b);
    h[i + 2] := Plus(h[i + 2], c);
    h[i + 3] := Plus(h[i + 3], d);
  }

  lemma ChainStep(f: (Digest, Block) -> Digest, h: Digest, p: seq<u8>, off: nat)
    requires off + 64 <= |p|
    ensures Chain(f, h, p[off..]) == Chain(f, f(h, p[off..off + 64]), p[off + 64..])
  {
    assert p[off..][..64] == p[off..off + 64] && p[off..][64..] == p[off + 64..];
  }

  /** The fold over one chunk, for the block function itself. */
  lemma ChainBlock(h: Digest, p: seq<u8>, off: nat)
    requires off + 64 <= |p|
    ensures Chain(Compress, h, p[off..]) == Chain(Compress, Compress(h, p[off..off + 64]), p[off + 64..])
  {
    ChainStep(Compress, h, p, off);
  }

  lemma ChainNothing(h: Digest, p: seq<u8>)
    requires |p| < 64
    ensures Chain(Compress, h, p) == h
  {
  }

  /** What is left of the padded message after the whole blocks of the message itself. */
  function Tail(rest: seq<u8>, total: nat): (t: seq<u8>)
    requires |rest| < 64 && total < 0x2000_0000_0000_0000 && total % 64 == |rest|
    ensures |t| == if |rest| < 56 then 64 else 128
  {
    rest + [0x80] + Zeros(ZeroCount(total)) + LengthField(total)
  }

  /** The last one or two blocks, depending on whether the length still fits after the 0x80 byte. */
  method FinishTail(h: array<Word>, rest: seq<u8>, total: nat)
    requires h.Length == 8 && |rest| < 64 && total < 0x2000_0000_0000_0000 && total % 64 == |rest|
    modifies h
    ensures h[..] == Chain(Compress, old(h[..]), Tail(rest, total))
  {
    hide Compress, LengthField, Chain, ZeroCount;
    ghost var tail, h0 := Tail(rest, total), h[..];
    assert tail[0..] == tail;
    var rem := |rest|;
    var buf := new u8[64](_ => 0);
    forall i | 0 <= i < rem { buf[i] := rest[i]; }
    buf[rem] := 0x80;
    assert h[..] == h0;
    ghost var done := 0;
    if rem >= 56 {
      assert buf[..] == tail[0..64];
      ChainBlock(h0, tail, 0);
      Sha256Block(h, buf[..]);
      buf := new u8[64](_ => 0);
      done := 64;
    }
    ghost var h1 := h[..];
    assert Chain(Compress, h0, tail) == Chain(Compress, h1, tail[done..]);
    var field := LengthField(total);
    forall i | 0 <= i < 8 { buf[56 + i] := field[i]; }
    assert buf[..] == tail[done..done + 64] && h[..] == h1;
    ChainBlock(h1, tail, done);
    ChainNothing(Compress(h1, buf[..]), tail[done + 64..]);
    Sha256Block(h, buf[..]);
  }

  /** Once the first `off` bytes are absorbed, the rest of the padded message is still to come. */
  ghost predicate Absorbed(h0: Digest, h: Digest, p: seq<u8>, off: nat) {
    off <= |p| && Chain(Compress, h0, p) == Chain(Compress, h, p[off..])
  }

  lemma AbsorbNothing(h: Digest, p: seq<u8>)
    ensures Absorbed(h, h, p, 0)
  {
    hide Compress, Chain;
    assert p[0..] == p;
  }

  lemma AbsorbBlock(h0: Digest, h: Digest, p: seq<u8>, off: nat, block: Block)
    requires off + 64 <= |p| && block == p[off..off + 64] && Absorbed(h0, h, p, off)
    ensures Absorbed(h0, Compress(h, block), p, off + 64)
  {
    hide Compress, Chain;
    ChainBlock(h, p, off);
  }

  /** The whole blocks of the message, absorbed in place; what is left is shorter than a block. */
  method WholeBlocks(h: array<Word>, data: seq<u8>) returns (off: nat)
    requires h.Length == 8 && |data| < 0x2000_0000_0000_0000
    modifies h
    ensures off <= |data| < off + 64 && off % 64 == 0 && Absorbed(old(h[..]), h[..], Pad(data), off)
  {
    hide *;
    ghost var h0, p := h[..], Pad(data);
    AbsorbNothing(h0, p);
    off := 0;
    while off + 64 <= |data|
      invariant off % 64 == 0 && off <= |data| && Absorbed(h0, h[..], p, off)
    {
      PadPrefix(data, off);
      AbsorbBlock(h0, h[..], p, off, data[off..off + 64]);
      Sha256Block(h, data[off..off + 64]);
      off := off + 64;
    }
  }

  /** `sha256_impl` computes the FIPS digest of every message shorter than 2^61 bytes. */
  method Sha256(data: seq<u8>) returns (out: seq<u8>)
    requires |data| < 0x2000_0000_0000_0000
    ensures out == Hash(data)
  {
    hide *;
    HashUnfold(data);
    var h := InitialDigest();
    var off := WholeBlocks(h, data);
    PadTail(data, off);
    AbsorbedUnfold(H0, h[..], Pad(data), off);
    FinishTail(h, data[off..], |data|);
    out := WriteDigest(h);
  }

  method InitialDigest() returns (h: array<Word>)
    ensures fresh(h) && h.Length == 8 && h[..] == H0
  {
    h := new Word[8](i requires 0 <= i < 8 => H0[i]);
  }

  lemma AbsorbedUnfold(h0: Digest, h: Digest, p: seq<u8>, off: nat)
    requires Absorbed(h0, h, p, off)
    ensures off <= |p| && Chain(Compress, h0, p) == Chain(Compress, h, p[off..])
  {
    hide Compress, Chain;
  }

  lemma HashUnfold(m: seq<u8>)
    requires |m| < 0x2000_0000_0000_0000
    ensures Hash(m) == Serialize(Chain(Compress, H0, Pad(m)))
  {
    hide Compress, Chain, Pad, Serialize;
  }

  lemma PadPrefix(m: seq<u8>, off: nat)
    requires |m| < 0x2000_0000_0000_0000 && off + 64 <= |m|
    ensures |Pad(m)| > off + 64 && Pad(m)[off..off + 64] == m[off..off + 64]
  {
  }

  lemma PadTail(m: seq<u8>, off: nat)
    requires |m| < 0x2000_0000_0000_0000 && off <= |m| < off + 64 && off % 64 == 0
    ensures |Pad(m)| > off && |m| % 64 == |m[off..]| && Pad(m)[off..] == Tail(m[off..], |m|)
  {
    hide LengthField, ZeroCount;
    RemainderUnique(|m|, off / 64, 64, |m| - off);
    DropPrefix(m, [0x80], Zeros(ZeroCount(|m|)), LengthField(|m|), off);
  }

  lemma DropPrefix(m: seq<u8>, x: seq<u8>, y: seq<u8>, z: seq<u8>, off: nat)
    requires off <= |m|
    ensures (m + x + y + z)[off..] == m[off..] + x + y + z
  {
  }

  method WriteDigest(h: array<Word>) returns (out: seq<u8>)
    ensures out == Serialize(h[..])
  {
    out := [];
    for i := 0 to h.Length
      invariant out == Serialize(h[..i])
    {
      out := out + BytesOf(h[i]);
      assert h[..i + 1][..i] == h[..i];
    }
    assert h[..h.Length] == h[..];
  }
}
