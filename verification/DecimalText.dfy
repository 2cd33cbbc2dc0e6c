/** What balances look like in the store: the digits of a number, what parses as one, and the key it stands under. */
module DecimalText {
  import opened Modular
  import opened Words
  import opened Wrappers
  import opened Decimal
  import opened Storage

  // ----- Printing -----

  /** Digit by digit from the last: the i-th counts tens to the i, and the first is a zero only if it stands alone. */
  lemma {:induction false} DecDigits(n: nat, i: nat)
    ensures var s := ToDec(n);
      && n < Pow(10, |s|) && (|s| > 1 ==> Pow(10, |s| - 1) <= n)
      && Pow(10, i) > 0 && (i < |s| ==> s[|s| - 1 - i] as int == 48 + n / Pow(10, i) % 10)
  {
    PowPositive(10, i);
    if n >= 10 {
      DecDigits(n / 10, if i == 0 then 0 else i - 1);
      if i > 0 { DivideTwice(n, Pow(10, i - 1)); }
    } else {
      assert Pow(10, 1) == 10 && Pow(10, 0) == 1;
    }
  }

  lemma DivideTwice(n: nat, p: nat)
    requires p > 0
    ensures n / 10 / p == n / (10 * p)
  {
    var (q, r, low) := (n / 10 / p, n / 10 % p, n % 10);
    assert n / 10 == q * p + r;
    assert n == 10 * (q * p + r) + low;
    Spread(q, p, r, low);
    RemainderUnique(n, q, 10 * p, 10 * r + low);
  }

  lemma Spread(q: nat, p: nat, r: nat, low: nat)
    ensures 10 * (q * p + r) + low == q * (10 * p) + (10 * r + low)
  {}

  // ----- Parsing -----

  function Zeros(k: nat): seq<u8> { seq(k, _ => 48) }

  lemma {:induction false} LeadingZeros(k: nat, d: seq<u8>)
    ensures DigitsValue(Zeros(k) + d) == DigitsValue(d)
    decreases k + |d|
  {
    var s := Zeros(k) + d;
    if d != [] {
      assert s[..|s| - 1] == Zeros(k) + d[..|d| - 1];
      LeadingZeros(k, d[..|d| - 1]);
    } else if k > 0 {
      assert s[..k - 1] == Zeros(k - 1) + [];
      LeadingZeros(k - 1, []);
    }
  }

  /** Digits are zeros and then the notation of their value. */
  lemma {:induction false} DigitsAre(d: seq<u8>) returns (k: nat)
    requires d != [] && AllDigits(d)
    ensures DigitsValue(d) >= 0 && d == Zeros(k) + ToDec(DigitsValue(d))
  {
    var (front, last) := (d[..|d| - 1], d[|d| - 1]);
    assert d == front + [last] && IsDigit(last);
    if front == [] {
      assert d == [last] && d[..0] == [];
      k := 0;
    } else {
      assert AllDigits(front) by { assert forall j :: 0 <= j < |front| ==> front[j] == d[j]; }
      k := DigitsAre(front);
      if DigitsValue(front) == 0 {
        assert ToDec(0) == [48];
        assert Zeros(k) + [48] == Zeros(k + 1);
        k := k + 1;
      }
    }
  }

  /** A plus sign or none, k zeros, and the notation of v. */
  ghost predicate Denotes(s: seq<u8>, k: nat, v: nat)
  {
    s == Zeros(k) + ToDec(v) || s == [43] + (Zeros(k) + ToDec(v))
  }

  /** A text denotes a 128-bit number. */
  ghost predicate IsNumber(s: seq<u8>, v: nat)
  {
    v < 0x1_0000_0000_0000_0000_0000_0000_0000_0000 && exists k: nat :: Denotes(s, k, v)
  }

  /** Exactly the texts that denote v parse as v. */
  lemma ParseExact(s: seq<u8>, v: nat)
    ensures Parse(s) == Some(v) <==> IsNumber(s, v)
  {
    hide ToDec, DigitsValue;
    if Parse(s) == Some(v) {
      var d := WithoutPlus(s);
      var k := DigitsAre(d);
      if s[0] == 43 { assert s == [43] + d; }
      assert Denotes(s, k, v);
    }
    if k :| v < U128 && Denotes(s, k, v) {
      var d := Zeros(k) + ToDec(v);
      assert d != [] && AllDigits(d) && d[0] != 43;
      LeadingZeros(k, ToDec(v));
      DecValue(v);
      if s != d { assert s[1..] == d; }
    }
  }

  // ----- Trimming -----

  predicate White(b: u8) { b == 9 || b == 10 || b == 11 || b == 12 || b == 13 || b == 32 }

  predicate AllSpaces(s: seq<u8>) { forall i :: 0 <= i < |s| ==> White(s[i]) }

  predicate Bare(s: seq<u8>) { s == [] || (!White(s[0]) && !White(s[|s| - 1])) }

  /** Trimming takes off the white space at both ends and nothing else. */
  lemma {:induction false} TrimExact(s: seq<u8>) returns (before: seq<u8>, after: seq<u8>)
    ensures s == before + Trim(s) + after && AllSpaces(before) && AllSpaces(after) && Bare(Trim(s))
    decreases |s|
  {
    before, after := [], [];
    TrimStep(s);
    hide Trim, White;
    if s != [] && White(s[0]) {
      before, after := TrimExact(s[1..]);
      Front(s, before, Trim(s[1..]), after);
      before := [s[0]] + before;
    } else if s != [] && White(s[|s| - 1]) {
      before, after := TrimExact(s[..|s| - 1]);
      Back(s, before, Trim(s[..|s| - 1]), after);
      after := after + [s[|s| - 1]];
    } else {
      assert [] + s + [] == s;
    }
  }

  lemma TrimStep(s: seq<u8>)
    ensures Trim(s) ==
      if s != [] && White(s[0]) then Trim(s[1..])
      else if s != [] && White(s[|s| - 1]) then Trim(s[..|s| - 1])
      else s
  {
    assert forall b :: IsSpace(b) <==> White(b);
    hide IsSpace, White;
  }

  lemma Front(s: seq<u8>, before: seq<u8>, t: seq<u8>, after: seq<u8>)
    requires s != [] && s[1..] == before + t + after
    ensures s == ([s[0]] + before) + t + after
  {}

  lemma Back(s: seq<u8>, before: seq<u8>, t: seq<u8>, after: seq<u8>)
    requires s != [] && s[..|s| - 1] == before + t + after
    ensures s == before + t + (after + [s[|s| - 1]])
  {}

  // ----- Keys -----

  /** The bytes of an ASCII text. */
  function Ascii(text: string): seq<u8>
    requires forall i :: 0 <= i < |text| ==> text[i] < 128 as char
  {
    seq(|text|, i requires 0 <= i < |text| => text[i] as int as u8)
  }

  /** The key of a balance: the account, a one byte, a zero byte and `near-bal`. */
  lemma BalanceKey(acct: Account)
    ensures BalKey(acct) == acct + [1, 0] + Ascii("near-bal")
  {
    assert BALANCE == [0] + Ascii("near-bal");
  }

  /** A balance is the number its key holds, white space not trimmed; without a key or a number it is zero. */
  lemma BalanceReads(st: Store, acct: Account, v: nat)
    ensures BalKey(acct) !in st ==> Balance(st, acct) == 0
    ensures BalKey(acct) in st && IsNumber(st[BalKey(acct)], v) ==> Balance(st, acct) == v
    ensures BalKey(acct) in st && (forall n: nat :: !IsNumber(st[BalKey(acct)], n)) ==> Balance(st, acct) == 0
  {
    hide Parse, Denotes;
    if BalKey(acct) in st {
      var text := st[BalKey(acct)];
      ParseExact(text, v);
      if Parse(text).Some? {
        ParseExact(text, Parse(text).value);
        assert IsNumber(text, Parse(text).value);
      }
    }
  }

  /** The register limits, in numbers. */
  lemma RegisterLimits(regs: Registers, rid: u64, data: Bytes)
    ensures Accepted(regs, rid, data) <==>
      && |data| <= 100 * 1024 * 1024 && TotalBytes(regs[rid := data]) <= 1024 * 1024 * 1024
      && (rid as int == 0xFFFF_FFFF_FFFF_FFFF || rid in regs || |regs| < 100)
    ensures RegistersBounded(regs) <==>
      && |regs.Keys - {0xFFFF_FFFF_FFFF_FFFF}| <= 100 && TotalBytes(regs) <= 1024 * 1024 * 1024
      && forall r :: r in regs ==> |regs[r]| <= 100 * 1024 * 1024
  {
    hide TotalBytes;
  }
}
