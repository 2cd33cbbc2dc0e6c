/** The wasm `name` section (sections 5.2.2 and 7.4.1 of the WebAssembly Core Specification): encode, decode, remap. */
module NameMap {
  import opened Modular
  import opened Words
  import opened Wrappers

  type Bytes = seq<u8>

  const U32: int := 0x1_0000_0000

  /** A function index and its name, as the bytes of the name's UTF-8 text. */
  datatype Name = Name(idx: nat, text: Bytes)
  datatype Section = Section(id: u8, payload: Bytes)

  /** The custom section name `name`. */
  const NAME: Bytes := [110, 97, 109, 101]

  // ---- Slices ----

  lemma DropDrop(s: Bytes, i: nat, j: nat)
    requires i + j <= |s|
    ensures s[i..][j..] == s[i + j..]
  {}

  lemma DropTake(s: Bytes, i: nat, j: nat)
    requires i <= j <= |s|
    ensures s[i..][..j - i] == s[i..j]
  {}

  lemma Cut(a: Bytes, b: Bytes)
    ensures (a + b)[..|a|] == a && (a + b)[|a|..] == b
  {}

  // ---- LEB128 ----

  /** A number and what is left behind it. */
  datatype Read = Read(value: nat, rest: Bytes)

  /** Up to six groups of seven bits, least significant first, from the k-th group on. */
  function Groups(s: Bytes, k: nat): (r: Option<Read>)
    requires k <= 5
    ensures r.Some? ==> |r.value.rest| < |s|
    decreases 5 - k
  {
    if s == [] then None
    else if s[0] < 128 then Some(Read(s[0] as nat, s[1..]))
    else if k == 5 then None
    else
      var more := Groups(s[1..], k + 1);
      if more.None? then None
      else Some(Read(s[0] as nat - 128 + 128 * more.value.value, more.value.rest))
  }

  /** An unsigned integer truncated to 32 bits. */
  function ReadLeb(s: Bytes): (r: Option<Read>)
    ensures r.Some? ==> |r.value.rest| < |s| && r.value.value < U32
  {
    var g := Groups(s, 0);
    if g.None? then None else Some(Read(g.value.value % U32, g.value.rest))
  }

  /** The shortest encoding. */
  function Leb(n: nat): (s: Bytes)
    ensures |s| > 0
  {
    if n < 128 then [n as u8] else [(128 + n % 128) as u8] + Leb(n / 128)
  }

  /** 128^k. */
  function Scale(k: nat): nat {
    PowPositive(128, k);
    Pow(128, k)
  }

  lemma ScaleStep(k: nat)
    ensures Scale(k + 1) == 128 * Scale(k) && Scale(0) == 1
  {}

  lemma ScaleFive()
    ensures Scale(5) == 0x8_0000_0000 && Scale(1) == 128
  {
    ScaleStep(0);
    ScaleStep(1);
    ScaleStep(2);
    ScaleStep(3);
    ScaleStep(4);
  }

  lemma {:induction false} GroupsOfLeb(n: nat, k: nat, tail: Bytes)
    requires k <= 4 && n < Scale(5 - k)
    ensures Groups(Leb(n) + tail, k) == Some(Read(n, tail))
    decreases n
  {
    var s := Leb(n) + tail;
    ScaleFive();
    ScaleStep(4 - k);
    if n < 128 {
      assert s[1..] == tail;
    } else if k < 4 {
      assert s[1..] == Leb(n / 128) + tail;
      GroupsOfLeb(n / 128, k + 1, tail);
    }
  }

  /** Decoding an encoded 32-bit number gives the number back and stops right behind it. */
  lemma LebRoundTrip(n: nat, tail: Bytes)
    requires n < U32
    ensures ReadLeb(Leb(n) + tail) == Some(Read(n, tail))
  {
    ScaleFive();
    GroupsOfLeb(n, 0, tail);
  }

  /** Seven bits moved up by k groups. */
  function Shifted(low: nat, k: nat): nat { Scale(k) * low }

  /** After k groups from `start` on, worth `result`, the rest of the number counts 128^k fold. */
  ghost predicate Reading(d: Bytes, start: nat, k: nat, result: nat) {
    && k <= 5 && start + k <= |d| && result < Scale(k)
    && var more := Groups(d[start + k..], k);
       Groups(d[start..], 0) ==
         if more.None? then None else Some(Read(result + Scale(k) * more.value.value, more.value.rest))
  }

  lemma ReadingStart(d: Bytes, start: nat)
    requires start <= |d|
    ensures Reading(d, start, 0, 0)
  {
    assert d[start + 0..] == d[start..];
  }

  /** A byte without the continuation bit ends the number. */
  lemma LastGroup(d: Bytes, start: nat, k: nat, result: nat)
    requires Reading(d, start, k, result) && start + k < |d| && d[start + k] < 128
    ensures ReadLeb(d[start..]) == Some(Read((result + Shifted(d[start + k] as nat, k)) % U32, d[start + k + 1..]))
  {
    hide Scale, Groups;
    UnfoldGroups(d, start + k, k);
  }

  /** A sixth continuation bit is refused. */
  lemma TooLong(d: Bytes, start: nat, k: nat, result: nat)
    requires Reading(d, start, k, result) && start + k < |d| && d[start + k] >= 128 && k == 5
    ensures ReadLeb(d[start..]) == None
  {
    hide Scale, Groups;
    UnfoldGroups(d, start + k, k);
  }

  lemma NextGroup(d: Bytes, start: nat, k: nat, result: nat, low: nat)
    requires Reading(d, start, k, result) && start + k < |d| && d[start + k] >= 128 && k < 5
    requires low == d[start + k] as nat - 128
    ensures Reading(d, start, k + 1, result + Shifted(low, k))
  {
    var scale := Scale(k);
    ScaleStep(k);
    hide Scale, Groups;
    UnfoldGroups(d, start + k, k);
    Bounded(scale, result, low);
    assert start + (k + 1) == start + k + 1;
    var more := Groups(d[start + k + 1..], k + 1);
    if more.Some? {
      Regroup(scale, low, more.value.value);
    }
  }

  lemma UnfoldGroups(d: Bytes, p: nat, k: nat)
    requires p < |d| && k <= 5
    ensures Groups(d[p..], k) ==
      if d[p] < 128 then Some(Read(d[p] as nat, d[p + 1..]))
      else if k == 5 then None
      else var more := Groups(d[p + 1..], k + 1);
        if more.None? then None else Some(Read(d[p] as nat - 128 + 128 * more.value.value, more.value.rest))
  {
    assert d[p..][0] == d[p] && d[p..][1..] == d[p + 1..];
  }

  lemma Bounded(scale: nat, result: nat, b: nat)
    requires result < scale && b < 128
    ensures result + scale * b < 128 * scale
  {
    assert scale * b <= scale * 127;
  }

  lemma AtEnd(d: Bytes, start: nat, k: nat, result: nat)
    requires Reading(d, start, k, result) && start + k == |d|
    ensures ReadLeb(d[start..]) == None
  {
    assert d[start + k..] == [];
  }

  /** No step loses a bit: the accumulator stays below 2^42. */
  lemma Fits(d: Bytes, start: nat, k: nat, result: nat, low: nat)
    requires Reading(d, start, k, result) && low < 128
    ensures k <= 5 && start + k <= |d| && result + Shifted(low, k) < 0x400_0000_0000
  {
    Below42Bits(k);
    Bounded(Scale(k), result, low);
  }

  lemma Below42Bits(k: nat)
    requires k <= 5
    ensures 128 * Scale(k) <= 0x400_0000_0000
  {
    ScaleFive();
    PowGrows(k, 5);
  }

  lemma {:induction false} PowGrows(j: nat, k: nat)
    requires j <= k
    ensures Scale(j) <= Scale(k)
  {
    if j < k {
      ScaleStep(k - 1);
      PowGrows(j, k - 1);
    }
  }

  lemma Regroup(scale: nat, b: nat, v: nat)
    ensures scale * (b + 128 * v) == scale * b + scale * 128 * v
  {}

  /** Bitwise or. */
  function Or(a: nat, b: nat): nat {
    if a == 0 && b == 0 then 0
    else 2 * Or(a / 2, b / 2) + if a % 2 == 1 || b % 2 == 1 then 1 else 0
  }

  lemma {:induction false} OrNothing(b: nat)
    ensures Or(0, b) == b
  {
    if b != 0 { OrNothing(b / 2); }
  }

  /** Bits that lie above all those already there are added. */
  lemma {:induction false} OrAdds(a: nat, n: nat, x: nat)
    requires a < Pow(2, n)
    ensures Pow(2, n) * x >= 0 && Or(a, Pow(2, n) * x) == a + Pow(2, n) * x
  {
    PowPositive(2, n);
    if n == 0 {
      OrNothing(x);
    } else {
      var b := Pow(2, n - 1) * x;
      Doubled(Pow(2, n - 1), x);
      OrAdds(a / 2, n - 1, x);
    }
  }

  lemma Doubled(p: nat, x: nat)
    ensures 0 <= 2 * p * x == 2 * (p * x)
  {}

  lemma {:induction false} ScaleBits(k: nat)
    ensures Scale(k) == Pow(2, 7 * k)
  {
    if k > 0 {
      ScaleBits(k - 1);
      ScaleStep(k - 1);
      SevenBits(7 * (k - 1));
    }
  }

  lemma SevenBits(n: nat)
    ensures Pow(2, n + 7) == 128 * Pow(2, n)
  {
    assert Pow(2, n + 3) == 2 * Pow(2, n + 2) == 4 * Pow(2, n + 1) == 8 * Pow(2, n);
    assert Pow(2, n + 6) == 2 * Pow(2, n + 5) == 4 * Pow(2, n + 4) == 8 * Pow(2, n + 3);
  }

  /** The group or-ed in is above the groups read so far. */
  lemma OrGroup(d: Bytes, start: nat, k: nat, result: nat, low: nat)
    requires Reading(d, start, k, result)
    ensures Or(result, Shifted(low, k)) == result + Shifted(low, k)
  {
    ScaleBits(k);
    OrAdds(result, 7 * k, low);
  }

  function LowBits(b: u8): (low: nat)
    ensures low < 128 && low == if b < 128 then b as nat else b as nat - 128
  {
    (b % 128) as nat
  }

  /** One turn of the loop: the number is finished, refused, or one group further. */
  lemma ReadGroup(d: Bytes, start: nat, k: nat, result: nat)
    requires Reading(d, start, k, result) && start + k < |d|
    ensures var b := d[start + k];
      var next := Or(result, Shifted(LowBits(b), k));
      && next < 0x1_0000_0000_0000_0000
      && (b < 128 ==> ReadLeb(d[start..]) == Some(Read(next % U32, d[start + k + 1..])))
      && (b >= 128 && k == 5 ==> ReadLeb(d[start..]) == None)
      && (b >= 128 && k < 5 ==> Reading(d, start, k + 1, next))
  {
    var b := d[start + k];
    var low := LowBits(b);
    hide *;
    Fits(d, start, k, result, low);
    OrGroup(d, start, k, result, low);
    ghost var next := Or(result, Shifted(low, k));
    assert next == result + Shifted(low, k) < 0x1_0000_0000_0000_0000;
    if b < 128 {
      LastGroup(d, start, k, result);
    } else if k == 5 {
      TooLong(d, start, k, result);
    } else {
      NextGroup(d, start, k, result, low);
    }
  }

  /** `read_leb_u32`: the cursor loop, giving the number and the next offset. */
  method ReadLebU32(d: Bytes, start: nat) returns (r: Option<(nat, nat)>)
    requires start <= |d|
    ensures r.None? ==> ReadLeb(d[start..]) == None
    ensures r.Some? ==> start < r.value.1 <= |d| && ReadLeb(d[start..]) == Some(Read(r.value.0, d[r.value.1..]))
  {
    var p, k := start, 0; // the shift is seven times k
    var result: nat := 0;
    ReadingStart(d, start);
    hide *;
    while true
      invariant p == start + k <= |d| && k <= 5
      invariant Reading(d, start, k, result)
      decreases 5 - k
    {
      if p >= |d| {
        AtEnd(d, start, k, result);
        return None;
      }
      var b := d[p];
      p := p + 1;
      ReadGroup(d, start, k, result);
      result := Or(result, Shifted(LowBits(b), k));
      assert result < 0x1_0000_0000_0000_0000;
      if b < 128 {
        return Some((result % U32, p));
      }
      if 7 * (k + 1) > 35 {
        return None;
      }
      k := k + 1;
    }
  }

  // ---- What the decoder computes ----

  function Min(a: nat, b: nat): nat { if a < b then a else b }

  /** The section walk: a size running past the end is cut there, an unreadable size stops the walk. */
  function Split(s: Bytes): seq<Section>
    decreases |s|
  {
    if s == [] then [] else
      var size := ReadLeb(s[1..]);
      if size.None? then [] else
        var end := Min(size.value.value, |size.value.rest|);
        [Section(s[0], size.value.rest[..end])] + Split(size.value.rest[end..])
  }

  datatype Found<T> = Absent | Malformed | Present(value: T)

  /** An index, a length and as many bytes of text. */
  function ReadName(s: Bytes): (r: Option<(Name, Bytes)>)
    ensures r.Some? ==> |r.value.1| < |s|
  {
    var idx := ReadLeb(s);
    if idx.None? then None else
      var len := ReadLeb(idx.value.rest);
      if len.None? || len.value.value > |len.value.rest| then None
      else Some((Name(idx.value.value, len.value.rest[..len.value.value]), len.value.rest[len.value.value..]))
  }

  /** A counted run of names. */
  function ReadNames(s: Bytes, count: nat): Option<seq<Name>>
    decreases count
  {
    if count == 0 then Some([]) else
      var one := ReadName(s);
      if one.None? then None else
        var more := ReadNames(one.value.1, count - 1);
        if more.None? then None else Some([one.value.0] + more.value)
  }

  /** A count and as many names. */
  function FunctionNamesAt(s: Bytes): Found<seq<Name>> {
    var count := ReadLeb(s);
    if count.None? then Malformed else
      var names := ReadNames(count.value.rest, count.value.value);
      if names.None? then Malformed else Present(names.value)
  }

  /** The subsections of a name section: others are skipped, the first of id 1 decides. */
  function ReadSubsections(s: Bytes): Found<seq<Name>>
    decreases |s|
  {
    if s == [] then Absent else
      var size := ReadLeb(s[1..]);
      if size.None? then Malformed else
        if s[0] == 1 then FunctionNamesAt(size.value.rest)
        else ReadSubsections(size.value.rest[Min(size.value.value, |size.value.rest|)..])
  }

  /** One section: anything but a custom section called `name` is passed over. */
  function ReadSection(sec: Section): Found<seq<Name>> {
    if sec.id != 0 then Absent else
      var len := ReadLeb(sec.payload);
      if len.None? || len.value.value > |len.value.rest| then Malformed
      else if len.value.rest[..len.value.value] != NAME then Absent
      else ReadSubsections(len.value.rest[len.value.value..])
  }

  function FirstNames(secs: seq<Section>): Option<seq<Name>> {
    if secs == [] then None else
      match ReadSection(secs[0])
      case Absent => FirstNames(secs[1..])
      case Malformed => None
      case Present(names) => Some(names)
  }

  /** The whole decoder on a module: eight bytes of magic and version, then sections. */
  function Decoded(wasm: Bytes): Option<seq<Name>> {
    FirstNames(if |wasm| < 8 then [] else Split(wasm[8..]))
  }

  // ---- The decoder's cursor loops ----

  /** One step of the section walk in terms of cursors. */
  lemma SplitStep(d: Bytes, p: nat, value: nat, np: nat)
    requires p < np <= |d| && ReadLeb(d[p + 1..]) == Some(Read(value, d[np..]))
    ensures var end := Min(np + value, |d|);
      Split(d[p..]) == [Section(d[p], d[np..end])] + Split(d[end..])
  {
    hide ReadLeb;
    var end := Min(np + value, |d|);
    DropDrop(d, p, 1);
    DropTake(d, np, end);
    DropDrop(d, np, end - np);
    assert end - np == Min(value, |d[np..]|);
  }

  lemma SplitEnd(d: Bytes, p: nat)
    requires p <= |d| && (p < |d| ==> ReadLeb(d[p + 1..]) == None)
    ensures Split(d[p..]) == []
  {
    hide ReadLeb;
    if p < |d| { DropDrop(d, p, 1); }
  }

  method Sections(data: Bytes) returns (out: seq<Section>)
    ensures out == if |data| < 8 then [] else Split(data[8..])
  {
    hide *;
    out := [];
    var p := 8;
    while p < |data|
      invariant p >= 8 && (|data| < 8 ==> out == [])
      invariant |data| >= 8 ==> p <= |data| && Split(data[8..]) == out + Split(data[p..])
      decreases |data| - p
    {
      var size := ReadLebU32(data, p + 1);
      if size.None? { break; }
      var np := size.value.1;
      var end := if np + size.value.0 < |data| then np + size.value.0 else |data|;
      ReadSize(data, p, size.value.0, np, end);
      out := out + [Section(data[p], data[np..end])];
      p := end;
    }
    if |data| >= 8 { SplitEnd(data, p); }
  }

  lemma ReadSize(d: Bytes, p: nat, value: nat, np: nat, end: nat)
    requires p < np <= |d| && ReadLeb(d[p + 1..]) == Some(Read(value,
        d[np..])) && end == (if np + value < |d| then np + value else |d|)
    ensures forall out: seq<Section> :: out + Split(d[p..]) == out + [Section(d[p], d[np..end])] + Split(d[end..])
  {
    hide ReadLeb, Split;
    SplitStep(d, p, value, np);
  }

  /** `payload.get(..)` on one name: an index, a length, a slice in range. */
  method DecodeName(payload: Bytes, q: nat) returns (r: Option<(Name, nat)>)
    requires q <= |payload|
    ensures r.None? ==> ReadName(payload[q..]) == None
    ensures r.Some? ==> r.value.1 <= |payload| && ReadName(payload[q..]) == Some((r.value.0, payload[r.value.1..]))
  {
    hide ReadLeb;
    var idx := ReadLebU32(payload, q);
    if idx.None? { return None; }
    var nlen := ReadLebU32(payload, idx.value.1);
    if nlen.None? { return None; }
    var q3 := nlen.value.1;
    var q4 := q3 + nlen.value.0;
    if q4 > |payload| { return None; }
    DropTake(payload, q3, q4);
    DropDrop(payload, q3, nlen.value.0);
    return Some((Name(idx.value.0, payload[q3..q4]), q4));
  }

  /** So far `out`, the rest still to be read at q. */
  ghost predicate NamesSoFar(payload: Bytes, start: nat, count: nat, out: seq<Name>, q: nat, left: nat)
    requires start <= |payload| && q <= |payload|
  {
    var rest := ReadNames(payload[q..], left);
    ReadNames(payload[start..], count) == if rest.None? then None else Some(out + rest.value)
  }

  lemma NamesBegin(payload: Bytes, start: nat, count: nat)
    requires start <= |payload|
    ensures NamesSoFar(payload, start, count, [], start, count)
  {
    hide ReadNames;
    assert forall rest: seq<Name> :: [] + rest == rest;
  }

  lemma NamesEnd(payload: Bytes, start: nat, count: nat, out: seq<Name>, q: nat)
    requires start <= |payload| && q <= |payload| && NamesSoFar(payload, start, count, out, q, 0)
    ensures ReadNames(payload[start..], count) == Some(out)
  {
    assert out + [] == out;
  }

  lemma NamesStep(payload: Bytes, start: nat, count: nat, out: seq<Name>, q: nat, left: nat)
    requires start <= |payload| && q <= |payload| && NamesSoFar(payload, start, count, out, q, left) && left > 0
    ensures ReadName(payload[q..]).None? ==> ReadNames(payload[start..], count) == None
    ensures forall name, q4: nat :: q4 <= |payload| && ReadName(payload[q..]) == Some((name, payload[q4..]))
              ==> NamesSoFar(payload, start, count, out + [name], q4, left - 1)
  {
    hide ReadName;
    var one := ReadName(payload[q..]);
    if one.Some? {
      var more := ReadNames(one.value.1, left - 1);
      if more.Some? { assert out + ([one.value.0] + more.value) == out + [one.value.0] + more.value; }
    }
  }

  method DecodeNames(payload: Bytes, start: nat, count: nat) returns (r: Option<seq<Name>>)
    requires start <= |payload|
    ensures r == ReadNames(payload[start..], count)
  {
    hide *;
    var out: seq<Name> := [];
    var q: nat := start;
    NamesBegin(payload, start, count);
    for i := 0 to count
      invariant q <= |payload| && NamesSoFar(payload, start, count, out, q, count - i)
    {
      NamesStep(payload, start, count, out, q, count - i);
      var name := DecodeName(payload, q);
      if name.None? { return None; }
      out := out + [name.value.0];
      q := name.value.1;
    }
    NamesEnd(payload, start, count, out, q);
    return Some(out);
  }

  lemma SubsectionStep(d: Bytes, p: nat, value: nat, np: nat)
    requires p < np <= |d| && ReadLeb(d[p + 1..]) == Some(Read(value, d[np..]))
    ensures d[p] == 1 ==> ReadSubsections(d[p..]) == FunctionNamesAt(d[np..])
    ensures d[p] != 1 ==> ReadSubsections(d[p..]) == ReadSubsections(d[Min(np + value, |d|)..])
  {
    hide ReadLeb, ReadNames;
    var end := Min(np + value, |d|);
    DropDrop(d, p, 1);
    DropDrop(d, np, end - np);
    assert end - np == Min(value, |d[np..]|);
  }

  lemma SubsectionStops(d: Bytes, p: nat)
    requires p < |d| && ReadLeb(d[p + 1..]) == None
    ensures ReadSubsections(d[p..]) == Malformed
  {
    hide ReadLeb, ReadNames;
    DropDrop(d, p, 1);
  }

  method DecodeSubsections(payload: Bytes, start: nat) returns (r: Found<seq<Name>>)
    requires start <= |payload|
    ensures r == ReadSubsections(payload[start..])
  {
    EmptySubsections();
    hide ReadLeb, ReadNames, ReadSubsections;
    var p: nat := start;
    while p < |payload|
      invariant p <= |payload| && ReadSubsections(payload[start..]) == ReadSubsections(payload[p..])
      decreases |payload| - p
    {
      var size := ReadLebU32(payload, p + 1);
      if size.None? {
        SubsectionStops(payload, p);
        return Malformed;
      }
      var p2 := size.value.1;
      SubsectionStep(payload, p, size.value.0, p2);
      if payload[p] == 1 {
        var count := ReadLebU32(payload, p2);
        if count.None? { return Malformed; }
        var names := DecodeNames(payload, count.value.1, count.value.0);
        return if names.None? then Malformed else Present(names.value);
      }
      p := Min(p2 + size.value.0, |payload|);
    }
    return Absent;
  }

  lemma EmptySubsections()
    ensures forall s :: s == [] ==> ReadSubsections(s) == Absent
  {}

  /**
   * `decode_function_names`: on any bytes at all the loops end and every access is in range; the result is that of the
   * decoder function above.
   */
  method DecodeFunctionNames(wasm: Bytes) returns (r: Option<seq<Name>>)
    ensures r == Decoded(wasm)
  {
    hide ReadLeb, Split, ReadSubsections;
    var secs := Sections(wasm);
    for i := 0 to |secs|
      invariant FirstNames(secs) == FirstNames(secs[i..])
    {
      var sec := secs[i];
      assert secs[i..][0] == sec && secs[i..][1..] == secs[i + 1..];
      if sec.id != 0 { continue; }
      var payload := sec.payload;
      assert payload[0..] == payload;
      var len := ReadLebU32(payload, 0);
      if len.None? { return None; }
      var p := len.value.1;
      if p + len.value.0 > |payload| { return None; }
      DropTake(payload, p, p + len.value.0);
      DropDrop(payload, p, len.value.0);
      if payload[p..p + len.value.0] != NAME { continue; }
      var found := DecodeSubsections(payload, p + len.value.0);
      if found.Malformed? { return None; }
      if found.Present? { return Some(found.value); }
    }
    return None;
  }

  // ---- The encoder ----

  function EncodedName(n: Name): Bytes { Leb(n.idx) + Leb(|n.text|) + n.text }

  function EncodedNames(names: seq<Name>): Bytes {
    if names == [] then [] else EncodedName(names[0]) + EncodedNames(names[1..])
  }

  /** An id, a size and as many bytes: the shape of sections and of subsections. */
  function Framed(id: u8, body: Bytes): Bytes { [id] + Leb(|body|) + body }

  /** The function-name subsection. */
  function FunctionNames(names: seq<Name>): Bytes { Framed(1, Leb(|names|) + EncodedNames(names)) }

  /** The payload of a name section, other subsections around the function names included. */
  function NamePayload(before: Bytes, names: seq<Name>, after: Bytes): Bytes {
    Leb(|NAME|) + NAME + (before + FunctionNames(names) + after)
  }

  function Concat(frames: seq<Section>): Bytes {
    if frames == [] then [] else Framed(frames[0].id, frames[0].payload) + Concat(frames[1..])
  }

  /** Indices, lengths and sizes are 32-bit. */
  predicate Encodable(names: seq<Name>) {
    && |names| < U32
    && (forall n :: n in names ==> n.idx < U32 && |n.text| < U32)
    && |Leb(|names|) + EncodedNames(names)| < U32
  }

  /** `name_section` then `encode_function_names`: the names are appended one by one, then framed. */
  method EncodeFunctionNames(names: seq<Name>) returns (out: Bytes)
    ensures var payload := NamePayload([], names, []); out == Leb(|payload|) + payload
  {
    var bytes: Bytes := [];
    for i := 0 to |names|
      invariant EncodedNames(names) == bytes + EncodedNames(names[i..])
    {
      assert names[i..][0] == names[i] && names[i..][1..] == names[i + 1..];
      assert bytes + (EncodedName(names[i]) + EncodedNames(names[i + 1..]))
        == bytes + EncodedName(names[i]) + EncodedNames(names[i + 1..]);
      bytes := bytes + (Leb(names[i].idx) + Leb(|names[i].text|) + names[i].text);
    }
    assert bytes + [] == bytes;
    var body := Leb(|names|) + bytes;
    var data := [1] + Leb(|body|) + body;
    assert [] + data + [] == data;
    var payload := Leb(|NAME|) + NAME + data;
    out := Leb(|payload|) + payload;
  }

  // ---- Round trip ----

  /** Reading a frame gives its body and leaves what follows. */
  lemma ReadFrame(id: u8, body: Bytes, tail: Bytes)
    requires |body| < U32
    ensures var s := Framed(id, body) + tail;
      && s != [] && s[0] == id && ReadLeb(s[1..]) == Some(Read(|body|, body + tail))
      && (body + tail)[..|body|] == body && (body + tail)[|body|..] == tail
  {
    hide ReadLeb, Leb;
    var s := Framed(id, body) + tail;
    assert s == [id] + (Leb(|body|) + (body + tail));
    Cut([id], Leb(|body|) + (body + tail));
    LebRoundTrip(|body|, body + tail);
    Cut(body, tail);
  }

  lemma {:induction false} ReadEncodedNames(names: seq<Name>, tail: Bytes)
    requires forall n :: n in names ==> n.idx < U32 && |n.text| < U32
    ensures ReadNames(EncodedNames(names) + tail, |names|) == Some(names)
  {
    hide ReadLeb, Leb, EncodedName, ReadName;
    if names != [] {
      var n := names[0];
      assert n in names && forall m :: m in names[1..] ==> m in names;
      var rest := EncodedNames(names[1..]) + tail;
      ReadEncodedNames(names[1..], tail);
      ReadOneName(n, rest, names[1..]);
      Assoc(EncodedName(n), EncodedNames(names[1..]), tail);
      hide ReadNames;
      assert [n] + names[1..] == names;
    }
  }

  lemma ReadOneName(n: Name, rest: Bytes, more: seq<Name>)
    requires n.idx < U32 && |n.text| < U32 && ReadNames(rest, |more|) == Some(more)
    ensures ReadNames(EncodedName(n) + rest, |more| + 1) == Some([n] + more)
  {
    hide ReadLeb, Leb;
    var text := n.text + rest;
    var len := Leb(|n.text|) + text;
    assert EncodedName(n) + rest == Leb(n.idx) + len;
    LebRoundTrip(n.idx, len);
    LebRoundTrip(|n.text|, text);
    Cut(n.text, rest);
  }

  /** Subsections with other ids are skipped. */
  lemma {:induction false} SkipSubsections(subs: seq<Section>, tail: Bytes)
    requires forall f :: f in subs ==> f.id != 1 && |f.payload| < U32
    ensures ReadSubsections(Concat(subs) + tail) == ReadSubsections(tail)
  {
    hide ReadLeb, Leb, ReadNames;
    if subs == [] {
      assert Concat(subs) + tail == tail;
    } else {
      var f := subs[0];
      assert f in subs && forall g :: g in subs[1..] ==> g in subs;
      var rest := Concat(subs[1..]) + tail;
      assert Concat(subs) + tail == Framed(f.id, f.payload) + rest;
      ReadFrame(f.id, f.payload, rest);
      SkipSubsections(subs[1..], tail);
    }
  }

  lemma SplitFrame(id: u8, body: Bytes, tail: Bytes)
    requires |body| < U32
    ensures Split(Framed(id, body) + tail) == [Section(id, body)] + Split(tail)
  {
    hide ReadLeb, Leb;
    ReadFrame(id, body, tail);
  }

  lemma {:induction false} SplitConcat(frames: seq<Section>, tail: Bytes)
    requires forall f :: f in frames ==> |f.payload| < U32
    ensures Split(Concat(frames) + tail) == frames + Split(tail)
  {
    hide Split, Framed;
    if frames == [] {
      assert Concat(frames) + tail == tail;
    } else {
      var f := frames[0];
      assert f in frames && forall g :: g in frames[1..] ==> g in frames;
      var rest := Concat(frames[1..]) + tail;
      assert Concat(frames) + tail == Framed(f.id, f.payload) + rest;
      SplitFrame(f.id, f.payload, rest);
      SplitConcat(frames[1..], tail);
      assert [f] + (frames[1..] + Split(tail)) == frames + Split(tail);
    }
  }

  lemma {:induction false} SkipSections(secs: seq<Section>, more: seq<Section>)
    requires forall f :: f in secs ==> ReadSection(f) == Absent
    ensures FirstNames(secs + more) == FirstNames(more)
  {
    hide ReadSection;
    if secs == [] {
      assert secs + more == more;
    } else {
      assert secs[0] in secs && forall g :: g in secs[1..] ==> g in secs;
      assert (secs + more)[1..] == secs[1..] + more;
      SkipSections(secs[1..], more);
    }
  }

  /** A section that is not custom, or a custom section with a readable name other than `name`. */
  predicate OtherSection(f: Section) {
    f.id != 0 ||
    var len := ReadLeb(f.payload);
    len.Some? && len.value.value <= |len.value.rest| && len.value.rest[..len.value.value] != NAME
  }

  lemma NamePayloadReads(before: seq<Section>, names: seq<Name>, after: Bytes)
    requires (forall f :: f in before ==> f.id != 1 && |f.payload| < U32) && Encodable(names)
    ensures ReadSection(Section(0, NamePayload(Concat(before), names, after))) == Present(names)
  {
    hide ReadLeb, Leb, Concat, ReadNames, ReadSubsections, FunctionNames;
    var subs := Concat(before) + FunctionNames(names) + after;
    assert NamePayload(Concat(before), names, after) == Leb(|NAME|) + (NAME + subs);
    LebRoundTrip(|NAME|, NAME + subs);
    Cut(NAME, subs);
    assert subs == Concat(before) + (FunctionNames(names) + after);
    SkipSubsections(before, FunctionNames(names) + after);
    FunctionNamesRead(names, after);
  }

  lemma FunctionNamesRead(names: seq<Name>, after: Bytes)
    requires Encodable(names)
    ensures ReadSubsections(FunctionNames(names) + after) == Present(names)
  {
    hide ReadLeb, Leb, ReadNames, Framed;
    var body := Leb(|names|) + EncodedNames(names);
    ReadFrame(1, body, after);
    assert body + after == Leb(|names|) + (EncodedNames(names) + after);
    LebRoundTrip(|names|, EncodedNames(names) + after);
    ReadEncodedNames(names, after);
  }

  /**
   * Round trip: a module with any other sections before the name section, any other subsections before the function
   * names, and arbitrary bytes behind both, decodes to exactly the encoded names.
   */
  lemma RoundTrip(header: Bytes, before: seq<Section>, subsBefore: seq<Section>, names: seq<Name>, subsAfter: Bytes,
                  tail: Bytes)
    requires |header| == 8 && Encodable(names)
    requires forall f :: f in before ==> OtherSection(f) && |f.payload| < U32
    requires forall f :: f in subsBefore ==> f.id != 1 && |f.payload| < U32
    requires |NamePayload(Concat(subsBefore), names, subsAfter)| < U32
    ensures var payload := NamePayload(Concat(subsBefore), names, subsAfter);
      Decoded(header + Concat(before) + Framed(0, payload) + tail) == Some(names)
  {
    hide ReadLeb, Leb, Concat, NamePayload, Framed, ReadSubsections;
    var payload := NamePayload(Concat(subsBefore), names, subsAfter);
    var wasm := header + Concat(before) + Framed(0, payload) + tail;
    assert wasm[8..] == Concat(before) + (Framed(0, payload) + tail);
    SplitConcat(before, Framed(0, payload) + tail);
    ConcatOne(Section(0, payload), tail);
    SplitConcat([Section(0, payload)], tail);
    SkipSections(before, [Section(0, payload)] + Split(tail));
    NamePayloadReads(subsBefore, names, subsAfter);
  }

  lemma ConcatOne(f: Section, tail: Bytes)
    ensures Concat([f]) + tail == Framed(f.id, f.payload) + tail
  {
    assert [f][1..] == [];
    assert Concat([f]) == Framed(f.id, f.payload);
  }

  /** The encoder's own output, as the only section of a module, decodes to the names it was given. */
  lemma EncodeDecode(header: Bytes, names: seq<Name>)
    requires |header| == 8 && Encodable(names) && |NamePayload([], names, [])| < U32
    ensures var payload := NamePayload([], names, []);
      Decoded(header + ([0] + (Leb(|payload|) + payload))) == Some(names)
  {
    hide *;
    NothingBefore();
    RoundTrip(header, [], [], names, [], []);
    OnlySection(header, NamePayload([], names, []));
  }

  lemma NothingBefore()
    ensures Concat([]) == []
  {}

  lemma OnlySection(header: Bytes, payload: Bytes)
    ensures header + Concat([]) + Framed(0, payload) + [] == header + ([0] + (Leb(|payload|) + payload))
  {
    NothingBefore();
    hide Leb, Concat;
    var framed := Framed(0, payload);
    assert framed == [0] + (Leb(|payload|) + payload) by { Assoc([0], Leb(|payload|), payload); }
    NoEnds(header, framed);
  }

  lemma Assoc(a: Bytes, b: Bytes, c: Bytes)
    ensures a + b + c == a + (b + c)
  {}

  lemma NoEnds(a: Bytes, b: Bytes)
    ensures a + [] + b + [] == a + b
  {}

  // ---- Remapping ----

  /** `remap_function_names`: entries without a new index are dropped, the others keep their names and order. */
  function Remapped(names: seq<Name>, f: nat -> Option<nat>): seq<Name> {
    if names == [] then [] else
      var to := f(names[0].idx);
      (if to.Some? then [Name(to.value, names[0].text)] else []) + Remapped(names[1..], f)
  }

  function Then(f: nat -> Option<nat>, g: nat -> Option<nat>): nat -> Option<nat> {
    i => var j := f(i); if j.None? then None else g(j.value)
  }

  /** Remapping twice is remapping once through both tables: a name survives exactly when both keep it. */
  lemma {:induction false} RemapTwice(names: seq<Name>, f: nat -> Option<nat>, g: nat -> Option<nat>)
    ensures Remapped(Remapped(names, f), g) == Remapped(names, Then(f, g))
  {
    if names != [] {
      RemapTwice(names[1..], f, g);
      var to := f(names[0].idx);
      if to.Some? {
        var first := Name(to.value, names[0].text);
        assert Remapped(names, f) == [first] + Remapped(names[1..], f);
        assert ([first] + Remapped(names[1..], f))[1..] == Remapped(names[1..], f);
      } else {
        assert Remapped(names, f) == Remapped(names[1..], f);
      }
    }
  }
}
