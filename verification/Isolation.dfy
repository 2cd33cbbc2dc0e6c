/** What a trapped call undoes, what it cannot, and what no call can touch. */
module Isolation {
  import opened Wrappers
  import opened Decimal
  import opened Storage
  import opened Receipts

  /** The call failed its receipt: a trap, or no such method. */
  predicate Failed(out: CallOut) { out.NoMethod? || (out.Ran? && out.trapped) }

  function Max(a: nat, b: nat): nat { if a < b then b else a }

  function OpsOf(out: CallOut): seq<StoreOp> { if out.Ran? then out.ops else [] }

  /** After a restore, every key but the bare prefix reads as in the snapshot's store. */
  lemma RestoredReads(paid: Store, acct: Account, ops: seq<StoreOp>, k: Bytes)
    requires k != PrefixedKey(acct, [])
    ensures Get(Restored(ApplyOps(paid, acct, ops), Partition(paid, acct), acct), k) == Get(paid, k)
  {
    if !InPartition(acct, k) {
      var bare := PrefixedKey(acct, []);
      assert |k| <= |bare| ==> !(bare <= k) by { assert bare <= k && |k| <= |bare| ==> k == bare; }
      OpsConfined(paid, acct, ops, k);
    }
  }

  lemma BalKeyNotBare(a: Account, b: Account)
    ensures BalKey(a) != PrefixedKey(b, [])
  {
    var k := BalKey(a);
    assert k[|k| - 1] == BALANCE[8] == 108;
    assert PrefixedKey(b, [])[|b|] == 1;
  }

  /** Balances after the deposit has moved, the credit wrapping at 2^128. */
  lemma PaidBalances(st: Store, account: Account, predecessor: Account, deposit: Amount)
    ensures var paid := PayDeposit(st, account, predecessor, deposit);
      var credited := WrapAdd(Balance(st, account), deposit);
      && Balance(paid, account) == (if account == predecessor then SatSub(credited, deposit) else credited)
      && (account != predecessor ==> Balance(paid, predecessor) == SatSub(Balance(st, predecessor), deposit))
      && forall k :: k != BalKey(account) && k != BalKey(predecessor) ==> Get(paid, k) == Get(st, k)
  {
    hide ToDec, Parse;
    if deposit > 0 {
      var credited := SetBalance(st, account, WrapAdd(Balance(st, account), deposit));
      SetThenRead(st, account, WrapAdd(Balance(st, account), deposit));
      SetThenRead(credited, predecessor, SatSub(Balance(credited, predecessor), deposit));
    }
  }

  /** What the callee of a failed call ends with, from its balance and the deposit. */
  function CalleeAfterFailure(bal: Amount, deposit: Amount, toSelf: bool): Amount {
    if toSelf && bal + deposit >= U128 then deposit else WrapAdd(bal, deposit)
  }

  /**
   * A failed call with a deposit does not give the callee's credit back: the snapshot was taken after it. The callee
   * ends with the deposit added; a distinct sender is refunded in full, and a sender short of it ends with the deposit.
   */
  lemma FailedCallBalances(s: State, c: CallIn, out: CallOut)
    requires Failed(out)
    ensures var final := StoreAfter(PayDeposit(s.store, c.account, c.predecessor, c.deposit), c, out);
      && Balance(final, c.account) ==
           CalleeAfterFailure(Balance(s.store, c.account), c.deposit, c.account == c.predecessor)
      && (c.predecessor != c.account ==>
            Balance(final, c.predecessor) == Max(Balance(s.store, c.predecessor), c.deposit))
      && (forall k :: k != BalKey(c.account) && k != BalKey(c.predecessor) && k != PrefixedKey(c.account, []) ==>
            Get(final, k) == Get(s.store, k))
  {
    hide ApplyOps, Restored, Partition, PayDeposit, ToDec, Parse, SetBalance, Balance;
    var paid := PayDeposit(s.store, c.account, c.predecessor, c.deposit);
    PaidBalances(s.store, c.account, c.predecessor, c.deposit);
    var back := Restored(ApplyOps(paid, c.account, OpsOf(out)), Partition(paid, c.account), c.account);
    NoOps(paid, c.account);
    RestoredBalances(paid, c.account, OpsOf(out), c.predecessor);
    SetThenRead(back, c.predecessor, WrapAdd(Balance(back, c.predecessor), c.deposit));
  }

  /** A restore brings back every key but the bare prefix, balances with them. */
  lemma RestoredBalances(paid: Store, acct: Account, ops: seq<StoreOp>, sender: Account)
    ensures var back := Restored(ApplyOps(paid, acct, ops), Partition(paid, acct), acct);
      && (forall k :: k != PrefixedKey(acct, []) ==> Get(back, k) == Get(paid, k))
      && Balance(back, acct) == Balance(paid, acct) && Balance(back, sender) == Balance(paid, sender)
  {
    hide ApplyOps, Restored, Partition, Balance;
    var back := Restored(ApplyOps(paid, acct, ops), Partition(paid, acct), acct);
    BalKeyNotBare(acct, acct);
    BalKeyNotBare(sender, acct);
    forall k | k != PrefixedKey(acct, []) ensures Get(back, k) == Get(paid, k) {
      RestoredReads(paid, acct, ops, k);
    }
    SameReading(back, paid, acct);
    SameReading(back, paid, sender);
  }

  lemma NoOps(st: Store, acct: Account)
    ensures ApplyOps(st, acct, []) == st
  {}

  /** The last operation on the empty raw key, if any, leaves the bare prefix as it was. */
  predicate BareKept(st: Store, acct: Account, ops: seq<StoreOp>) {
    var last := LastOn(ops, []);
    last.None? || Get(st, PrefixedKey(acct, [])) == (if last.value.Write? then Some(last.value.value) else None)
  }

  /**
   * The one deposit a failed call does give back: to oneself, of exactly the balance, in canonical text, when twice
   * that amount wraps.
   */
  predicate GivenBack(st: Store, account: Account, predecessor: Account, deposit: Amount) {
    account == predecessor && 2 * deposit >= U128 && Get(st, BalKey(account)) == Some(ToDec(deposit))
  }

  /**
   * A failed call restores the entire storage map exactly when it carried no deposit (but for the wrapping case above)
   * and did not change the value under the empty raw key, which the snapshot skips.
   */
  lemma FailedCallRestoresIff(env: Env, s: State, node: nat, account: Account, m: Bytes, args: Bytes,
                              predecessor: Account, deposit: Amount, results: Results)
    requires Ready(env, s) && account in env.deployed
    requires Failed(env.run(Call(s, account, m, args, predecessor, deposit, results)))
    ensures var out := env.run(Call(s, account, m, args, predecessor, deposit, results));
      (SubExecute(env, s, node, account, m, args, predecessor, deposit, results).0.store == s.store) <==>
        ((deposit == 0 || GivenBack(s.store, account, predecessor, deposit))
          && BareKept(s.store, account, OpsOf(out)))
  {
    hide WellFormed, HandlesOk, DepsBelow, Parse, ToDec, Own;
    var c := Call(s, account, m, args, predecessor, deposit, results);
    var out := env.run(c);
    var ops := OpsOf(out);
    if deposit > 0 {
      RestoresWithDeposit(s, c, out);
    } else {
      var wrote := ApplyOps(s.store, account, ops);
      RestoreUndoes(s.store, wrote, account);
      OpsOutside(s.store, account, ops);
      OpsLastWins(s.store, account, ops, []);
    }
  }

  lemma RestoresWithDeposit(s: State, c: CallIn, out: CallOut)
    requires Failed(out) && c.deposit > 0
    ensures StoreAfter(PayDeposit(s.store, c.account, c.predecessor, c.deposit), c, out) == s.store <==>
      GivenBack(s.store, c.account, c.predecessor, c.deposit) && BareKept(s.store, c.account, OpsOf(out))
  {
    hide ApplyOps, Parse, ToDec, PayDeposit, Partition, Restored, Balance, SetBalance;
    var final := StoreAfter(PayDeposit(s.store, c.account, c.predecessor, c.deposit), c, out);
    FailedCallBalances(s, c, out);
    BareAfterFailure(s, c, out);
    if c.account == c.predecessor {
      SelfBalanceText(s, c, out);
      if GivenBack(s.store, c.account, c.predecessor, c.deposit) {
        CanonicalReads(s.store, c.account, c.deposit);
        if BareKept(s.store, c.account, OpsOf(out)) {
          SameStore(final, s.store);
        }
      }
    }
  }

  lemma CanonicalReads(st: Store, acct: Account, n: Amount)
    requires Get(st, BalKey(acct)) == Some(ToDec(n))
    ensures Balance(st, acct) == n
  {
    ParsePrint(n);
  }

  /** The value under the bare prefix after a failed call is the one the call left. */
  lemma BareAfterFailure(s: State, c: CallIn, out: CallOut)
    requires Failed(out)
    ensures var final := StoreAfter(PayDeposit(s.store, c.account, c.predecessor, c.deposit), c, out);
      var bare := PrefixedKey(c.account, []);
      Get(final, bare) == Get(s.store, bare) <==> BareKept(s.store, c.account, OpsOf(out))
  {
    hide Parse, ToDec, PayDeposit, Balance, ApplyOps;
    var paid := PayDeposit(s.store, c.account, c.predecessor, c.deposit);
    PaidBalances(s.store, c.account, c.predecessor, c.deposit);
    NoOps(paid, c.account);
    BalKeyNotBare(c.account, c.account);
    BalKeyNotBare(c.predecessor, c.account);
    OpsLastWins(paid, c.account, OpsOf(out), []);
  }

  /** A refund to oneself is the last thing written, in canonical text. */
  lemma SelfBalanceText(s: State, c: CallIn, out: CallOut)
    requires Failed(out) && c.account == c.predecessor && c.deposit > 0
    ensures var final := StoreAfter(PayDeposit(s.store, c.account, c.predecessor, c.deposit), c, out);
      Get(final, BalKey(c.account)) ==
        Some(ToDec(CalleeAfterFailure(Balance(s.store, c.account), c.deposit, true)))
  {
    hide ApplyOps, Restored, Partition, PayDeposit, ToDec, Parse;
    var paid := PayDeposit(s.store, c.account, c.predecessor, c.deposit);
    var back := Restored(ApplyOps(paid, c.account, OpsOf(out)), Partition(paid, c.account), c.account);
    PaidBalances(s.store, c.account, c.predecessor, c.deposit);
    NoOps(paid, c.account);
    BalKeyNotBare(c.account, c.account);
    RestoredReads(paid, c.account, OpsOf(out), BalKey(c.account));
    SameReading(back, paid, c.account);
  }

  /** With no deposit and only non-empty raw keys, as contracts write them, a failed call changes nothing at all. */
  lemma FailedCallRestores(env: Env, s: State, node: nat, account: Account, m: Bytes, args: Bytes, predecessor: Account,
                           results: Results)
    requires Ready(env, s)
    requires account in env.deployed ==>
      var out := env.run(Call(s, account, m, args, predecessor, 0, results));
      Failed(out) && forall op :: op in OpsOf(out) ==> op.key != []
    ensures SubExecute(env, s, node, account, m, args, predecessor, 0, results).0.store == s.store
  {
    if account in env.deployed {
      NoBareOp(OpsOf(env.run(Call(s, account, m, args, predecessor, 0, results))));
      FailedCallRestoresIff(env, s, node, account, m, args, predecessor, 0, results);
    }
  }

  lemma {:induction false} NoBareOp(ops: seq<StoreOp>)
    requires forall op :: op in ops ==> op.key != []
    ensures LastOn(ops, []) == None
  {
    if ops != [] {
      assert ops[|ops| - 1] in ops;
      NoBareOp(ops[..|ops| - 1]);
    }
  }

  /**
   * A call that returns leaves every own key as its last operation on it did, and otherwise as the deposit left it; its
   * result is its data, empty when it returned none.
   */
  lemma ReturnedCallWrites(env: Env, s: State, node: nat, account: Account, m: Bytes, args: Bytes, predecessor: Account,
                           deposit: Amount, results: Results, raw: Bytes)
    requires Ready(env, s) && account in env.deployed
    requires var out := env.run(Call(s, account, m, args, predecessor, deposit, results)); out.Ran? && !out.trapped
    ensures var out := env.run(Call(s, account, m, args, predecessor, deposit, results));
      var (t, res) := SubExecute(env, s, node, account, m, args, predecessor, deposit, results);
      var last := LastOn(out.ops, raw);
      && Get(t.store, PrefixedKey(account, raw)) ==
           (if last.None? then Get(PayDeposit(s.store, account, predecessor, deposit), PrefixedKey(account, raw))
            else if last.value.Write? then Some(last.value.value) else None)
      && res == Finished(if out.data.None? then Some([]) else out.data, out.ret)
  {
    var out := env.run(Call(s, account, m, args, predecessor, deposit, results));
    OpsLastWins(PayDeposit(s.store, account, predecessor, deposit), account, out.ops, raw);
  }

  /**
   * Batches queued by a failed call stay: the graph is the old one exactly when the call queued nothing. Each one is
   * stamped with the callee as creator and, like every node of the final graph, runs (`OnceOnly.OnceAndInOrder`).
   */
  lemma FailedCallKeepsBatches(env: Env, s: State, node: nat, account: Account, m: Bytes, args: Bytes,
                               predecessor: Account, deposit: Amount, results: Results)
    requires Ready(env, s) && account in env.deployed
    requires Failed(env.run(Call(s, account, m, args, predecessor, deposit, results)))
    ensures var out := env.run(Call(s, account, m, args, predecessor, deposit, results));
      var t := SubExecute(env, s, node, account, m, args, predecessor, deposit, results).0;
      && (t.dag == s.dag <==> out.NoMethod? || out.appended == [])
      && (out.Ran? ==> t.dag == s.dag + Stamped(out.appended, account))
      && forall j :: |s.dag| <= j < |t.dag| ==> t.dag[j].creator == account
  {
    hide WellFormed, DepsBelow, StoreAfter, PayDeposit, Own;
    var out := env.run(Call(s, account, m, args, predecessor, deposit, results));
    if out.Ran? {
      var t := SubExecute(env, s, node, account, m, args, predecessor, deposit, results).0;
      assert |t.dag| == |s.dag| + |out.appended|;
    }
  }

  /**
   * However a call ends, a partition that does not overlap the callee's is untouched, except that a deposit moves the
   * sender's balance. Accounts without the separator byte never overlap.
   */
  lemma CallConfined(env: Env, s: State, node: nat, account: Account, m: Bytes, args: Bytes, predecessor: Account,
                     deposit: Amount, results: Results, other: Account, k: Bytes)
    requires Ready(env, s) && !Overlap(account, other)
    requires InPartition(other, k) && (deposit > 0 ==> k != BalKey(predecessor))
    ensures Get(SubExecute(env, s, node, account, m, args, predecessor, deposit, results).0.store, k) == Get(s.store, k)
  {
    hide WellFormed, DepsBelow, Own, ToDec, Parse, Balance, ApplyOps;
    PrefixesCompare(PrefixedKey(account, []), PrefixedKey(other, []), k);
    if account in env.deployed {
      var out := env.run(Call(s, account, m, args, predecessor, deposit, results));
      var paid := PayDeposit(s.store, account, predecessor, deposit);
      InPartitionIff(account, BALANCE);
      PaidBalances(s.store, account, predecessor, deposit);
      hide PayDeposit;
      OpsConfined(paid, account, OpsOf(out), k);
      NoOps(paid, account);
    }
  }

  /** The exact condition of `Storage.PartitionsOverlapIff`. */
  predicate Overlap(a: Account, b: Account) {
    PrefixedKey(a, []) <= PrefixedKey(b, []) || PrefixedKey(b, []) <= PrefixedKey(a, [])
  }

  /** Between overlapping partitions a call can always reach: some write of one lands in the other's partition. */
  lemma OverlapReached(st: Store, a: Account, b: Account)
    requires Overlap(a, b)
    ensures exists raw, k :: InPartition(b, k) && Get(ApplyOps(st, a, [Write(raw, [])]), k) == Some([])
  {
    PartitionsOverlapIff(a, b);
    var k :| InPartition(a, k) && InPartition(b, k);
    var raw := k[|a| + 1..];
    assert PrefixedKey(a, raw) == k;
    assert [Write(raw, [])][1..] == [];
    assert Get(ApplyOps(st, a, [Write(raw, [])]), k) == Some([]);
  }
}
