/** What the name decoder makes of missing, malformed and cut-off data, and what a remapping keeps. */
module NameCases {
  import opened Modular
  import opened Words
  import opened Wrappers
  import opened Drawn
  import opened NameMap

  // ----- Numbers -----

  /** The value of the first groups of seven bits, the lowest first. */
  function Value(s: Bytes, n: nat): nat
    requires n <= |s|
  {
    if n == 0 then 0 else (s[0] % 128) as nat + 128 * Value(s[1..], n - 1)
  }

  /** The n-th byte is the first without a continuation bit. */
  predicate EndsAt(s: Bytes, n: nat) {
    n < |s| && s[n] < 128 && forall i :: 0 <= i < n ==> s[i] >= 128
  }

  lemma {:induction false} GroupsEnd(s: Bytes, k: nat, n: nat)
    requires k <= 5 && EndsAt(s, n)
    ensures Groups(s, k) == if k + n <= 5 then Some(Read(Value(s, n + 1), s[n + 1..])) else None
    decreases n
  {
    if n == 0 {
      assert Value(s, 1) == s[0] as nat by { assert Value(s[1..], 0) == 0; }
    } else if k < 5 {
      assert s[1..][n..] == s[n + 1..];
      GroupsEnd(s[1..], k + 1, n - 1);
    }
  }

  lemma {:induction false} GroupsNeverEnd(s: Bytes, k: nat)
    requires k <= 5 && forall i :: 0 <= i < |s| ==> s[i] >= 128
    ensures Groups(s, k) == None
    decreases |s|
  {
    if s != [] && k < 5 { GroupsNeverEnd(s[1..], k + 1); }
  }

  /** A number is at most six groups long, and keeps its low 32 bits; without an end it is refused. */
  lemma ReadLebExact(s: Bytes, n: nat)
    ensures EndsAt(s, n) ==>
      ReadLeb(s) == if n <= 5 then Some(Read(Value(s, n + 1) % 0x1_0000_0000, s[n + 1..])) else None
    ensures (forall i :: 0 <= i < |s| ==> s[i] >= 128) ==> ReadLeb(s) == None
  {
    if EndsAt(s, n) { GroupsEnd(s, 0, n); }
    if forall i :: 0 <= i < |s| ==> s[i] >= 128 { GroupsNeverEnd(s, 0); }
  }

  /** Encoded numbers are as short as they can be. */
  lemma {:induction false} LebShortest(n: nat)
    ensures n < Pow(128, |Leb(n)|) && (|Leb(n)| > 1 ==> Pow(128, |Leb(n)| - 1) <= n)
    ensures EndsAt(Leb(n), |Leb(n)| - 1)
  {
    if n >= 128 {
      LebShortest(n / 128);
      hide Pow;
      var (s, rest) := (Leb(n), Leb(n / 128));
      assert s[1..] == rest && forall i :: 0 < i < |s| ==> s[i] == rest[i - 1];
      PowStep(|rest|);
      if |rest| > 1 { PowStep(|rest| - 1); }
    } else {
      PowStep(0);
    }
  }

  lemma PowStep(k: nat)
    ensures Pow(128, 0) == 1 && Pow(128, k + 1) == 128 * Pow(128, k) && (k > 0 ==> Pow(128, k) == 128 * Pow(128, k - 1))
  {}

  // ----- Sections -----

  /** A module of other sections only has no names. */
  lemma NoNames(header: Bytes, secs: seq<Section>)
    requires |header| == 8 && forall f :: f in secs ==> OtherSection(f) && |f.payload| < U32
    ensures Decoded(header + Concat(secs)) == None
  {
    hide ReadLeb, Concat, OtherSection, Split;
    assert (header + Concat(secs))[8..] == Concat(secs) + [];
    SplitConcat(secs, []);
    assert Split([]) == [] by { NothingToSplit(); }
    forall f | f in secs ensures ReadSection(f) == Absent { OtherIsAbsent(f); }
    SkipSections(secs, []);
  }

  lemma NothingToSplit()
    ensures Split([]) == []
  {}

  lemma OtherIsAbsent(f: Section)
    requires OtherSection(f)
    ensures ReadSection(f) == Absent
  {
    hide ReadLeb, ReadSubsections;
  }

  /** A custom section whose own name cannot be read. */
  predicate Unreadable(f: Section) {
    f.id == 0 && var len := ReadLeb(f.payload); len.None? || len.value.value > |len.value.rest|
  }

  /** An unreadable custom section ends the search, whatever follows it. */
  lemma UnreadableStops(header: Bytes, before: seq<Section>, bad: Section, tail: Bytes)
    requires |header| == 8 && Unreadable(bad) && |bad.payload| < U32
    requires forall f :: f in before ==> OtherSection(f) && |f.payload| < U32
    ensures Decoded(header + Concat(before) + Framed(0, bad.payload) + tail) == None
  {
    hide ReadLeb, Concat, OtherSection, Split, ReadSubsections, Framed;
    var rest := Framed(0, bad.payload) + tail;
    assert (header + Concat(before) + Framed(0, bad.payload) + tail)[8..] == Concat(before) + rest;
    SplitConcat(before, rest);
    SplitFrame(0, bad.payload, tail);
    forall f | f in before ensures ReadSection(f) == Absent { OtherIsAbsent(f); }
    SkipSections(before, [Section(0, bad.payload)] + Split(tail));
  }

  /** A last section that promises more bytes than there are is read as far as they go. */
  lemma CutSection(id: u8, size: nat, body: Bytes)
    requires |body| <= size < U32
    ensures Split([id] + Leb(size) + body) == [Section(id, body)]
  {
    hide ReadLeb, Leb;
    var s := [id] + Leb(size) + body;
    assert s[1..] == Leb(size) + body;
    LebRoundTrip(size, body);
    assert body[..|body|] == body && body[|body|..] == [];
    NothingToSplit();
  }

  /** Names before the point where a name section is cut off behind its function names are still found. */
  lemma CutNames(header: Bytes, before: seq<Section>, names: seq<Name>, size: nat)
    requires |header| == 8 && Encodable(names) && |NamePayload([], names, [])| <= size < U32
    requires forall f :: f in before ==> OtherSection(f) && |f.payload| < U32
    ensures Decoded(header + Concat(before) + ([0] + Leb(size) + NamePayload([], names, []))) == Some(names)
  {
    hide ReadLeb, Leb, Concat, OtherSection, Split, NamePayload, ReadSubsections;
    var payload := NamePayload([], names, []);
    var rest := [0] + Leb(size) + payload;
    assert (header + Concat(before) + rest)[8..] == Concat(before) + rest;
    SplitConcat(before, rest);
    CutSection(0, size, payload);
    forall f | f in before ensures ReadSection(f) == Absent { OtherIsAbsent(f); }
    SkipSections(before, [Section(0, payload)]);
    NothingBefore();
    NamePayloadReads([], names, []);
  }

  /** Names that promise one more than there are decode to nothing. */
  lemma {:induction false} TooFewNames(names: seq<Name>, count: nat)
    requires (forall n :: n in names ==> n.idx < U32 && |n.text| < U32) && count > |names|
    ensures ReadNames(EncodedNames(names), count) == None
  {
    hide *;
    if names == [] {
      NoName(count);
    } else {
      var (n, more) := (names[0], EncodedNames(names[1..]));
      assert n in names && forall m :: m in names[1..] ==> m in names;
      TooFewNames(names[1..], count - 1);
      OneName(n, more);
      FirstName(names, count);
    }
  }

  lemma FirstName(names: seq<Name>, count: nat)
    requires names != [] && count > 0
    ensures EncodedNames(names) == EncodedName(names[0]) + EncodedNames(names[1..])
    ensures var one := ReadName(EncodedNames(names));
      one.Some? && ReadNames(one.value.1, count - 1) == None ==> ReadNames(EncodedNames(names), count) == None
  {
    hide ReadName, EncodedName;
  }

  lemma OneName(n: Name, rest: Bytes)
    requires n.idx < U32 && |n.text| < U32
    ensures ReadName(EncodedName(n) + rest) == Some((n, rest))
  {
    hide ReadLeb, Leb;
    var text := n.text + rest;
    var len := Leb(|n.text|) + text;
    assert EncodedName(n) + rest == Leb(n.idx) + len;
    LebRoundTrip(n.idx, len);
    LebRoundTrip(|n.text|, text);
    Cut(n.text, rest);
  }

  lemma NoName(count: nat)
    requires count > 0
    ensures ReadNames(EncodedNames([]), count) == None
  {
    NoNumber();
    hide ReadLeb;
  }

  lemma NoNumber()
    ensures ReadLeb([]) == None
  {}

  /** What the encoder writes: a custom section called `name`, and in it the one subsection of function names. */
  lemma WireFormat(names: seq<Name>)
    ensures var body := Leb(|names|) + EncodedNames(names);
      NamePayload([], names, []) == [4, 110, 97, 109, 101, 1] + Leb(|body|) + body
  {
    hide EncodedNames;
    var body := Leb(|names|) + EncodedNames(names);
    assert Leb(|NAME|) == [4];
    hide Leb;
    assert [4] + NAME + ([] + ([1] + Leb(|body|) + body) + []) == [4, 110, 97, 109, 101, 1] + Leb(|body|) + body;
  }

  // ----- Remapping -----

  /** The k-th name under its new index, if it keeps one. */
  function Moved(names: seq<Name>, f: nat -> Option<nat>): nat -> Option<Name> {
    (k: nat) =>
      if k < |names| && f(names[k].idx).Some? then Some(Name(f(names[k].idx).value, names[k].text)) else None
  }

  lemma {:induction false} RemappedConcat(a: seq<Name>, b: seq<Name>, f: nat -> Option<nat>)
    ensures Remapped(a + b, f) == Remapped(a, f) + Remapped(b, f)
  {
    hide *;
    if a == [] {
      assert a + b == b;
      NothingMoved(f);
    } else {
      assert (a + b)[1..] == a[1..] + b;
      RemappedConcat(a[1..], b, f);
      FirstRemapped(a, f);
      FirstRemapped(a + b, f);
    }
  }

  lemma FirstRemapped(names: seq<Name>, f: nat -> Option<nat>)
    requires names != []
    ensures var to := f(names[0].idx);
      Remapped(names, f) == (if to.Some? then [Name(to.value, names[0].text)] else []) + Remapped(names[1..], f)
  {}

  /** Remapping keeps exactly the names that have a new index, under it, in their order. */
  lemma {:induction false} RemapKeeps(names: seq<Name>, f: nat -> Option<nat>)
    ensures exists at :: FromRow(Moved(names, f), Remapped(names, f), at)
  {
    hide *;
    if names == [] {
      NothingMoved(f);
    } else {
      var (front, n) := (names[..|names| - 1], |names| - 1);
      var x := if f(names[n].idx).Some? then Some(Name(f(names[n].idx).value, names[n].text)) else None;
      RemapKeeps(front, f);
      LastRemapped(names, f, x);
      LastMoved(names, f, x);
      var at :| FromRow(Moved(front, f), Remapped(front, f), at);
      RowGrows(Moved(front, f), Remapped(front, f), at, Moved(names, f), n, x, Remapped(names, f));
    }
  }

  lemma NothingMoved(f: nat -> Option<nat>)
    ensures Remapped([], f) == [] && FromRow(Moved([], f), Remapped([], f), [])
  {}

  lemma LastRemapped(names: seq<Name>, f: nat -> Option<nat>, x: Option<Name>)
    requires names != []
    requires var to := f(names[|names| - 1].idx);
      x == if to.Some? then Some(Name(to.value, names[|names| - 1].text)) else None
    ensures Remapped(names, f) == Remapped(names[..|names| - 1], f) + (if x.Some? then [x.value] else [])
  {
    var n := |names| - 1;
    assert names[..n] + [names[n]] == names;
    RemappedConcat(names[..n], [names[n]], f);
    OneRemapped(names[n], f);
  }

  lemma OneRemapped(n: Name, f: nat -> Option<nat>)
    ensures Remapped([n], f) == if f(n.idx).Some? then [Name(f(n.idx).value, n.text)] else []
  {
    assert [n][1..] == [];
  }

  lemma LastMoved(names: seq<Name>, f: nat -> Option<nat>, x: Option<Name>)
    requires names != []
    requires var to := f(names[|names| - 1].idx);
      x == if to.Some? then Some(Name(to.value, names[|names| - 1].text)) else None
    ensures var n := |names| - 1;
      && (forall k: nat :: Moved(names[..n], f)(k).Some? ==> k < n)
      && forall k: nat :: Moved(names, f)(k) == if k == n then x else Moved(names[..n], f)(k)
  {}
}
