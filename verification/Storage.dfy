/** The key/value store, account partitions, balances and registers of `state.rs`. */
module Storage {
  import opened Words
  import opened Wrappers
  import opened Decimal

  type Bytes = seq<u8>
  type Account = seq<u8>
  type Store = map<Bytes, Bytes>
  type Amount = n: nat | n < U128 witness 0

  // ---- Keys and partitions ----

  function PrefixedKey(acct: Account, key: Bytes): Bytes { acct + [1] + key }

  /** The filter of `snapshot_partition`: strictly longer than the prefix, so the bare prefix is skipped. */
  predicate InPartition(acct: Account, k: Bytes) {
    |k| > |acct| + 1 && PrefixedKey(acct, []) <= k
  }

  /** A key is in the partition exactly when a contract writes it under a non-empty raw key. */
  lemma InPartitionIff(acct: Account, raw: Bytes)
    ensures InPartition(acct, PrefixedKey(acct, raw)) <==> raw != []
  {
    assert PrefixedKey(acct, raw) == PrefixedKey(acct, []) + raw;
  }

  /** No two accounts free of the separator byte share a partition key. */
  lemma PartitionsDisjoint(a: Account, b: Account, k: Bytes)
    requires 1 !in a && 1 !in b
    requires InPartition(a, k) && InPartition(b, k)
    ensures a == b
  {
    var pa, pb := PrefixedKey(a, []), PrefixedKey(b, []);
    assert pa[|a|] == 1 && pb[|b|] == 1;
    assert k[|a|] == 1 && k[|b|] == 1;
    assert forall i :: 0 <= i < |b| ==> k[i] == pb[i] == b[i];
    assert forall i :: 0 <= i < |a| ==> k[i] == pa[i] == a[i];
    if |a| == |b| {
      assert a == k[..|a|] == b;
    } else {
      assert false;
    }
  }

  /** Exactly when two partitions share a key: one account's prefix starts the other's. */
  lemma PartitionsOverlapIff(a: Account, b: Account)
    ensures (exists k :: InPartition(a, k) && InPartition(b, k)) <==>
      (PrefixedKey(a, []) <= PrefixedKey(b, []) || PrefixedKey(b, []) <= PrefixedKey(a, []))
  {
    var pa, pb := PrefixedKey(a, []), PrefixedKey(b, []);
    if k :| InPartition(a, k) && InPartition(b, k) {
      assert pa == k[..|pa|] && pb == k[..|pb|];
      if |pa| <= |pb| { assert pa <= pb; } else { assert pb <= pa; }
    }
    if pa <= pb {
      assert InPartition(a, pb + [0]) && InPartition(b, pb + [0]);
    }
    if pb <= pa {
      assert InPartition(a, pa + [0]) && InPartition(b, pa + [0]);
    }
  }

  /** An account id that continues another one behind the separator: its balance lies in the other's partition. */
  lemma InnerBalanceOverlaps(a: Account, rest: Account)
    ensures var inner := a + [1] + rest;
      && inner != a && InPartition(a, BalKey(inner)) && InPartition(inner, BalKey(inner))
      && PrefixedKey(a, []) <= PrefixedKey(inner, [])
  {
    var inner := a + [1] + rest;
    assert BalKey(inner) == PrefixedKey(a, []) + (rest + [1] + BALANCE);
    assert PrefixedKey(inner, []) == PrefixedKey(a, []) + (rest + [1]);
    InPartitionIff(inner, BALANCE);
    assert |inner| > |a|;
  }

  /** Prefixes of one key are prefixes of each other. */
  lemma PrefixesCompare(p: Bytes, q: Bytes, k: Bytes)
    ensures p <= k && q <= k ==> p <= q || q <= p
  {
    if p <= k && q <= k {
      assert p == k[..|p|] && q == k[..|q|];
    }
  }

  /** A map is what its keys read as. */
  lemma SameStore(a: Store, b: Store)
    requires forall k :: Get(a, k) == Get(b, k)
    ensures a == b
  {
    forall k ensures k in a <==> k in b { assert Get(a, k) == Get(b, k); }
    forall k | k in a ensures a[k] == b[k] { assert Get(a, k) == Get(b, k); }
  }

  lemma SameReading(a: Store, b: Store, acct: Account)
    requires Get(a, BalKey(acct)) == Get(b, BalKey(acct))
    ensures Balance(a, acct) == Balance(b, acct)
  {}

  function Partition(st: Store, acct: Account): Store {
    map k | k in st && InPartition(acct, k) :: st[k]
  }

  function Outside(st: Store, acct: Account): Store {
    map k | k in st && !InPartition(acct, k) :: st[k]
  }

  /** `restore_partition`: everything now in the partition goes, the snapshot comes back. */
  function Restored(st: Store, snap: Store, acct: Account): Store {
    Outside(st, acct) + snap
  }

  /** Restoring gives back the snapshot's store exactly when nothing outside the partition moved. */
  lemma RestoreUndoes(before: Store, after: Store, acct: Account)
    ensures Restored(after, Partition(before, acct), acct) == before <==> Outside(after, acct) == Outside(before, acct)
  {
    var back := Restored(after, Partition(before, acct), acct);
    if back == before {
      forall k ensures k in Outside(after, acct) <==> k in Outside(before, acct) {
        assert k in back <==> k in before;
      }
      forall k | k in Outside(after, acct) ensures Outside(after, acct)[k] == Outside(before, acct)[k] {
        assert back[k] == before[k];
      }
    }
    if Outside(after, acct) == Outside(before, acct) {
      forall k ensures k in back <==> k in before {
        assert k in Outside(after, acct) <==> k in Outside(before, acct);
      }
      forall k | k in back ensures back[k] == before[k] {
        if !InPartition(acct, k) {
          assert Outside(after, acct)[k] == Outside(before, acct)[k];
        }
      }
    }
  }

  // ---- What a contract may write ----

  datatype StoreOp = Write(key: Bytes, value: Bytes) | Remove(key: Bytes)

  /** The bodies of `storage_write` and `storage_remove`: the raw key always gets the running contract's prefix. */
  function ApplyOp(st: Store, acct: Account, op: StoreOp): Store {
    var k := PrefixedKey(acct, op.key);
    if op.Write? then st[k := op.value] else st - {k}
  }

  function ApplyOps(st: Store, acct: Account, ops: seq<StoreOp>): Store
    decreases |ops|
  {
    if ops == [] then st else ApplyOps(ApplyOp(st, acct, ops[0]), acct, ops[1..])
  }

  /** What a key reads as. */
  function Get(st: Store, k: Bytes): Option<Bytes> { if k in st then Some(st[k]) else None }

  /** The last operation on a raw key, if any. */
  function LastOn(ops: seq<StoreOp>, raw: Bytes): Option<StoreOp> {
    if ops == [] then None
    else if ops[|ops| - 1].key == raw then Some(ops[|ops| - 1])
    else LastOn(ops[..|ops| - 1], raw)
  }

  /** Key confinement: operations leave every key without the contract's prefix alone. */
  lemma {:induction false} OpsConfined(st: Store, acct: Account, ops: seq<StoreOp>, k: Bytes)
    requires !(PrefixedKey(acct, []) <= k)
    ensures Get(ApplyOps(st, acct, ops), k) == Get(st, k)
    decreases |ops|
  {
    if ops != [] {
      assert PrefixedKey(acct, ops[0].key) == PrefixedKey(acct, []) + ops[0].key;
      OpsConfined(ApplyOp(st, acct, ops[0]), acct, ops[1..], k);
    }
  }

  lemma {:induction false} ApplyOpsSplit(st: Store, acct: Account, ops: seq<StoreOp>, op: StoreOp)
    ensures ApplyOps(st, acct, ops + [op]) == ApplyOp(ApplyOps(st, acct, ops), acct, op)
    decreases |ops|
  {
    if ops == [] {
      assert ops + [op] == [op];
      assert [op][1..] == [];
    } else {
      assert (ops + [op])[1..] == ops[1..] + [op];
      ApplyOpsSplit(ApplyOp(st, acct, ops[0]), acct, ops[1..], op);
    }
  }

  /** Under the prefix, a key reads as the last operation on its raw key left it. */
  lemma {:induction false} OpsLastWins(st: Store, acct: Account, ops: seq<StoreOp>, raw: Bytes)
    ensures Get(ApplyOps(st, acct, ops), PrefixedKey(acct, raw)) ==
      (var last := LastOn(ops, raw);
       if last.None? then Get(st, PrefixedKey(acct, raw))
       else if last.value.Write? then Some(last.value.value) else None)
    decreases |ops|
  {
    if ops != [] {
      var front, op := ops[..|ops| - 1], ops[|ops| - 1];
      assert ops == front + [op];
      ApplyOpsSplit(st, acct, front, op);
      OpsLastWins(st, acct, front, raw);
      if op.key != raw {
        assert PrefixedKey(acct, op.key)[|acct| + 1..] == op.key;
        assert PrefixedKey(acct, raw)[|acct| + 1..] == raw;
      }
    }
  }

  /** Outside the partition only the bare prefix key can move. */
  lemma OpsOutside(st: Store, acct: Account, ops: seq<StoreOp>)
    ensures Outside(ApplyOps(st, acct, ops), acct) == Outside(st, acct)
       <==> Get(ApplyOps(st, acct, ops), PrefixedKey(acct, [])) == Get(st, PrefixedKey(acct, []))
  {
    var after, bare := ApplyOps(st, acct, ops), PrefixedKey(acct, []);
    assert !InPartition(acct, bare);
    if Outside(after, acct) == Outside(st, acct) {
      assert bare in after <==> bare in Outside(after, acct);
      assert bare in st <==> bare in Outside(st, acct);
      if bare in after { assert Outside(after, acct)[bare] == after[bare]; assert Outside(st, acct)[bare] == st[bare]; }
    }
    if Get(after, bare) == Get(st, bare) {
      forall k | !InPartition(acct, k) ensures Get(after, k) == Get(st, k) {
        if bare <= k { assert k == bare; } else { OpsConfined(st, acct, ops, k); }
      }
      forall k ensures k in Outside(after, acct) <==> k in Outside(st, acct) {
        if !InPartition(acct, k) { assert Get(after, k) == Get(st, k); }
      }
      forall k | k in Outside(after, acct) ensures Outside(after, acct)[k] == Outside(st, acct)[k] {
        assert Get(after, k) == Get(st, k);
      }
    }
  }

  // ---- Balances ----

  /** The raw key of a balance: a zero byte, then `near-bal`. */
  const BALANCE: Bytes := [0, 110, 101, 97, 114, 45, 98, 97, 108]

  function BalKey(acct: Account): Bytes { PrefixedKey(acct, BALANCE) }

  /** Absent and unparsable both read as zero. */
  function Balance(st: Store, acct: Account): Amount {
    if BalKey(acct) !in st then 0 else
    var p := Parse(st[BalKey(acct)]);
    if p.Some? then p.value else 0
  }

  function SetBalance(st: Store, acct: Account, n: Amount): Store { st[BalKey(acct) := ToDec(n)] }

  function WrapAdd(a: Amount, b: Amount): Amount { (a + b) % U128 }

  function SatSub(a: Amount, b: Amount): Amount { if a < b then 0 else a - b }

  lemma BalKeyInjective(a: Account, b: Account)
    requires BalKey(a) == BalKey(b)
    ensures a == b
  {
    assert |BalKey(a)| == |a| + 10 && |BalKey(b)| == |b| + 10;
    assert a == BalKey(a)[..|a|];
    assert b == BalKey(b)[..|b|];
  }

  /** A written balance reads back; every other key and balance is unchanged. */
  lemma SetThenRead(st: Store, acct: Account, n: Amount)
    ensures Balance(SetBalance(st, acct, n), acct) == n
    ensures forall b :: b != acct ==> BalKey(b) != BalKey(acct) && Balance(SetBalance(st, acct, n), b) == Balance(st, b)
    ensures forall k :: k != BalKey(acct) ==> Get(SetBalance(st, acct, n), k) == Get(st, k)
  {
    ParsePrint(n);
    forall b | b != acct ensures BalKey(b) != BalKey(acct) {
      if BalKey(b) == BalKey(acct) { BalKeyInjective(b, acct); }
    }
  }

  // ---- Registers ----

  const MAX_REGS := 100
  const MAX_REG_SIZE := 104_857_600
  const REGISTERS_MEMORY_LIMIT := 1_073_741_824
  const NO_REGISTER: u64 := 0xFFFF_FFFF_FFFF_FFFF

  type Registers = map<u64, Bytes>

  /** Bytes held by all registers, summed in any order. */
  ghost function TotalBytes(regs: Registers): nat
    decreases |regs.Keys|
  {
    if regs == map[] then 0 else
    assert regs.Keys != {};
    var k :| k in regs.Keys;
    assert (regs - {k}).Keys == regs.Keys - {k};
    |regs[k]| + TotalBytes(regs - {k})
  }

  lemma {:induction false} TotalBytesRemove(regs: Registers, x: u64)
    requires x in regs
    ensures TotalBytes(regs) == |regs[x]| + TotalBytes(regs - {x})
    decreases |regs.Keys|
  {
    assert exists k :: k in regs;
    var k :| k in regs && TotalBytes(regs) == |regs[k]| + TotalBytes(regs - {k});
    if k != x {
      assert (regs - {k}).Keys == regs.Keys - {k};
      TotalBytesRemove(regs - {k}, x);
      assert (regs - {x}).Keys == regs.Keys - {x};
      TotalBytesRemove(regs - {x}, k);
      assert regs - {k} - {x} == regs - {x} - {k};
    }
  }

  lemma TotalBytesUpdate(regs: Registers, x: u64, data: Bytes)
    ensures TotalBytes(regs[x := data]) == TotalBytes(regs) + |data| - (if x in regs then |regs[x]| else 0)
  {
    TotalBytesRemove(regs[x := data], x);
    assert regs[x := data] - {x} == regs - {x};
    if x in regs { TotalBytesRemove(regs, x); } else { assert regs - {x} == regs; }
  }

  /** What `write_reg_checked` maintains: at most 100 registers besides the no-register id, and the byte limit. */
  ghost predicate RegistersBounded(regs: Registers) {
    && |regs.Keys - {NO_REGISTER}| <= MAX_REGS
    && (forall r :: r in regs ==> |regs[r]| <= MAX_REG_SIZE)
    && TotalBytes(regs) <= REGISTERS_MEMORY_LIMIT
  }

  lemma SizeOfAdd<T>(before: set<T>, after: set<T>, x: T)
    requires x !in before && forall k :: k in after <==> k in before || k == x
    ensures |after| == |before| + 1
  {
    assert after == before + {x};
  }

  lemma KeysAfterWrite(regs: Registers, rid: u64, data: Bytes)
    ensures |regs[rid := data].Keys - {NO_REGISTER}| ==
      |regs.Keys - {NO_REGISTER}| + (if rid == NO_REGISTER || rid in regs then 0 else 1)
  {
    var before, after := regs.Keys - {NO_REGISTER}, regs[rid := data].Keys - {NO_REGISTER};
    if rid == NO_REGISTER || rid in regs {
      assert forall k :: k in after <==> k in before;
      assert after == before;
    } else {
      assert forall k :: k in after <==> k in before || k == rid;
      SizeOfAdd(before, after, rid);
    }
  }

  lemma SubsetSize<T>(a: set<T>, b: set<T>)
    requires a <= b
    ensures |a| <= |b|
  {
    assert b == a + (b - a);
  }

  lemma WithoutPartition(st: Store, acct: Account)
    ensures st - (set k | k in st && InPartition(acct, k)) == Outside(st, acct)
  {
    hide InPartition;
  }

  /** The acceptance test of `write_reg_checked`. */
  ghost predicate Accepted(regs: Registers, rid: u64, data: Bytes) {
    && |data| <= MAX_REG_SIZE
    && (rid == NO_REGISTER || rid in regs || |regs| < MAX_REGS)
    && TotalBytes(regs[rid := data]) <= REGISTERS_MEMORY_LIMIT
  }

  /**
   * An accepted write passes the limit of a hundred registers exactly when it is the first to the no-register id with
   * the table full; after that no accepted write adds another.
   */
  lemma NoRegisterIdEscapesTheCount(regs: Registers, rid: u64, data: Bytes)
    requires RegistersBounded(regs) && Accepted(regs, rid, data)
    ensures |regs| <= MAX_REGS ==>
      (|regs[rid := data]| > MAX_REGS <==> rid == NO_REGISTER && rid !in regs && |regs| == MAX_REGS)
    ensures |regs| > MAX_REGS ==> |regs| == MAX_REGS + 1 && NO_REGISTER in regs && regs[rid := data].Keys == regs.Keys
  {
    hide TotalBytes;
    CountKeys(regs);
    var after := regs[rid := data];
    if rid in regs {
      assert after.Keys == regs.Keys;
    } else {
      SizeOfAdd(regs.Keys, after.Keys, rid);
    }
  }

  lemma CountKeys(regs: Registers)
    ensures |regs| == |regs.Keys - {NO_REGISTER}| + (if NO_REGISTER in regs then 1 else 0)
  {
    if NO_REGISTER in regs {
      SizeOfAdd(regs.Keys - {NO_REGISTER}, regs.Keys, NO_REGISTER);
    } else {
      assert regs.Keys == regs.Keys - {NO_REGISTER};
    }
  }

  datatype Entry = Entry(key: Bytes, value: Option<Bytes>)

  /** The map a list of entries stands for: entries without a value are ignored. */
  function EntryMap(es: seq<Entry>): Store {
    if es == [] then map[]
    else
      var front, e := EntryMap(es[..|es| - 1]), es[|es| - 1];
      if e.value.Some? then front[e.key := e.value.value] else front
  }

  /** The store and registers behind every host function. */
  class MockState {
    var storage: Store
    var registers: Registers
    var returnData: Option<Bytes>

    constructor ()
      ensures storage == map[] && registers == map[] && returnData == None
    {
      storage, registers, returnData := map[], map[], None;
    }

    /** The entries of one account, in whatever order the hash map yields them. */
    method SnapshotPartition(acct: Account) returns (snap: seq<Entry>)
      ensures EntryMap(snap) == Partition(storage, acct)
    {
      snap := [];
      var keys := storage.Keys;
      while keys != {}
        invariant keys <= storage.Keys
        invariant EntryMap(snap) == map k | k in storage && k !in keys && InPartition(acct, k) :: storage[k]
        decreases |keys|
      {
        var k :| k in keys;
        if InPartition(acct, k) {
          snap := snap + [Entry(k, Some(storage[k]))];
        }
        keys := keys - {k};
      }
    }

    method RestorePartition(snap: seq<Entry>, acct: Account)
      modifies this`storage
      ensures storage == Restored(old(storage), EntryMap(snap), acct)
    {
      var keys := set k | k in storage && InPartition(acct, k);
      var todo := keys;
      while todo != {}
        invariant todo <= keys
        invariant storage == old(storage) - (keys - todo)
        decreases |todo|
      {
        var k :| k in todo;
        storage := storage - {k};
        todo := todo - {k};
      }
      assert keys - todo == keys;
      WithoutPartition(old(storage), acct);
      for i := 0 to |snap|
        invariant storage == Outside(old(storage), acct) + EntryMap(snap[..i])
      {
        assert snap[..i + 1][..i] == snap[..i];
        if snap[i].value.Some? {
          storage := storage[snap[i].key := snap[i].value.value];
        }
      }
      assert snap[..|snap|] == snap;
    }

    /** Writes a register within the limits: refused exactly when a limit would be passed, and then nothing changes. */
    method WriteRegChecked(rid: u64, data: Bytes) returns (ok: bool)
      modifies this`registers
      ensures ok <==> Accepted(old(registers), rid, data)
      ensures registers == if ok then old(registers)[rid := data] else old(registers)
      ensures RegistersBounded(old(registers)) ==> RegistersBounded(registers)
    {
      TotalBytesUpdate(registers, rid, data);
      if |data| > MAX_REG_SIZE { return false; }
      if rid != NO_REGISTER && rid !in registers && |registers| >= MAX_REGS { return false; }
      var freed := if rid in registers then |registers[rid]| else 0;
      var total := SumRegisters();
      var newTotal := (if total < freed then 0 else total - freed) + |data|;
      if rid in registers { TotalBytesRemove(registers, rid); }
      if newTotal > REGISTERS_MEMORY_LIMIT { return false; }
      KeysAfterWrite(registers, rid, data);
      SubsetSize(registers.Keys - {NO_REGISTER}, registers.Keys);
      registers := registers[rid := data];
      return true;
    }

    method SumRegisters() returns (total: nat)
      ensures total == TotalBytes(registers)
    {
      total := 0;
      var todo := registers;
      while todo != map[]
        invariant total + TotalBytes(todo) == TotalBytes(registers)
        decreases |todo.Keys|
      {
        assert todo.Keys != {};
        var k :| k in todo.Keys;
        TotalBytesRemove(todo, k);
        assert (todo - {k}).Keys == todo.Keys - {k};
        total := total + |todo[k]|;
        todo := todo - {k};
      }
    }
  }
}
