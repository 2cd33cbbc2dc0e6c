/** Balances as decimal strings: `u128::to_string`, `str::parse::<u128>` and `trim`. */
module Decimal {
  import opened Words
  import opened Wrappers

  const U128: int := 0x1_0000_0000_0000_0000_0000_0000_0000_0000

  predicate IsDigit(b: u8) { 48 <= b <= 57 }

  /** `to_string`: the shortest decimal notation. */
  function ToDec(n: nat): (s: seq<u8>)
    ensures |s| > 0 && forall k :: 0 <= k < |s| ==> IsDigit(s[k])
  {
    var d := (48 + n % 10) as u8;
    if n < 10 then [d] else ToDec(n / 10) + [d]
  }

  /** The number written by digits, most significant first. */
  function DigitsValue(s: seq<u8>): int
  {
    if s == [] then 0 else 10 * DigitsValue(s[..|s| - 1]) + (s[|s| - 1] as int - 48)
  }

  predicate AllDigits(s: seq<u8>) { forall k :: 0 <= k < |s| ==> IsDigit(s[k]) }

  function WithoutPlus(s: seq<u8>): seq<u8> { if |s| > 0 && s[0] == 43 then s[1..] else s }

  /** `parse::<u128>`: an optional plus sign, at least one digit, and no overflow. */
  function Parse(s: seq<u8>): Option<nat>
  {
    var digits := WithoutPlus(s);
    if digits == [] || !AllDigits(digits) then None
    else if 0 <= DigitsValue(digits) < U128 then Some(DigitsValue(digits)) else None
  }

  lemma {:induction false} DecValue(n: nat)
    ensures DigitsValue(ToDec(n)) == n
  {
    var s := ToDec(n);
    if n < 10 {
      assert s[..0] == [];
    } else {
      DecValue(n / 10);
      assert s[..|s| - 1] == ToDec(n / 10);
    }
  }

  /** Parsing undoes printing. */
  lemma ParsePrint(n: nat)
    requires n < U128
    ensures Parse(ToDec(n)) == Some(n)
  {
    DecValue(n);
    assert IsDigit(ToDec(n)[0]);
  }

  predicate IsSpace(b: u8) { 9 <= b <= 13 || b == 32 }

  /** `trim` on ASCII white space. */
  function Trim(s: seq<u8>): seq<u8>
    decreases |s|
  {
    if s == [] then []
    else if IsSpace(s[0]) then Trim(s[1..])
    else if IsSpace(s[|s| - 1]) then Trim(s[..|s| - 1])
    else s
  }

  lemma TrimDigits(n: nat)
    ensures Trim(ToDec(n)) == ToDec(n)
  {
    var s := ToDec(n);
    assert IsDigit(s[0]) && IsDigit(s[|s| - 1]);
  }
}
