/** Batches of transfers: conservation, no underflow, and what a failed transfer really undoes. */
module Transfers {
  import opened Wrappers
  import opened Decimal
  import opened Modular
  import opened Storage
  import opened Receipts

  /** A batch made of transfers only; `TransferToGasKey` is settled by the same code. */
  function Transfers(amounts: seq<Amount>): seq<Action> {
    seq(|amounts|, k requires 0 <= k < |amounts| => Transfer(amounts[k]))
  }

  /** The store once the first n transfers have gone through. */
  function After(st: Store, from: Account, to: Account, amounts: seq<Amount>, n: nat): Store
    requires n <= |amounts|
  {
    if n == 0 then st else Transferred(After(st, from, to, amounts, n - 1), from, to, amounts[n - 1])
  }

  /** How many transfers go through from the n-th on before one is insufficient. */
  function Successes(st: Store, from: Account, to: Account, amounts: seq<Amount>, n: nat): (m: nat)
    requires n <= |amounts|
    ensures n <= m <= |amounts|
    decreases |amounts| - n
  {
    if n < |amounts| && Balance(After(st, from, to, amounts, n), from) >= amounts[n]
    then Successes(st, from, to, amounts, n + 1) else n
  }

  /** Exactly the transfers counted find enough balance, and the next one, if any, does not. */
  lemma {:induction false} SuccessesExact(st: Store, from: Account, to: Account, amounts: seq<Amount>, n: nat)
    requires n <= |amounts|
    ensures var m := Successes(st, from, to, amounts, n);
      && (forall k :: n <= k < m ==> Balance(After(st, from, to, amounts, k), from) >= amounts[k])
      && (m < |amounts| ==> Balance(After(st, from, to, amounts, m), from) < amounts[m])
    decreases |amounts| - n
  {
    hide After, Balance;
    if n < |amounts| && Balance(After(st, from, to, amounts, n), from) >= amounts[n] {
      SuccessesExact(st, from, to, amounts, n + 1);
    }
  }

  function Sum(amounts: seq<Amount>, n: nat): nat
    requires n <= |amounts|
  {
    if n == 0 then 0 else Sum(amounts, n - 1) + amounts[n - 1]
  }

  /** One transfer between different accounts. */
  lemma TransferMoves(st: Store, from: Account, to: Account, amount: Amount)
    requires from != to && Balance(st, from) >= amount
    ensures var t := Transferred(st, from, to, amount);
      && Balance(t, from) == Balance(st, from) - amount
      && Balance(t, to) == WrapAdd(Balance(st, to), amount)
      && forall k :: k != BalKey(from) && k != BalKey(to) ==> Get(t, k) == Get(st, k)
  {
    hide ToDec, Parse;
    var debited := Debited(st, from, amount);
    SetThenRead(st, from, SatSub(Balance(st, from), amount));
    SetThenRead(debited, to, WrapAdd(Balance(debited, to), amount));
  }

  /** A transfer to oneself moves nothing. */
  lemma SelfTransfer(st: Store, acct: Account, amount: Amount)
    requires Balance(st, acct) >= amount
    ensures Balance(Transferred(st, acct, acct, amount), acct) == Balance(st, acct)
    ensures Balance(Debited(st, acct, amount), acct) == Balance(st, acct) - amount
    ensures forall k :: k != BalKey(acct) ==> Get(Transferred(st, acct, acct, amount), k) == Get(st, k)
    ensures forall k :: k != BalKey(acct) ==> Get(Debited(st, acct, amount), k) == Get(st, k)
  {
    hide ToDec, Parse;
    var debited := Debited(st, acct, amount);
    SetThenRead(st, acct, SatSub(Balance(st, acct), amount));
    SetThenRead(debited, acct, WrapAdd(Balance(debited, acct), amount));
  }

  /** From st to t an amount has moved and nothing else has; to oneself nothing moves. */
  ghost predicate Moved(st: Store, t: Store, from: Account, to: Account, moved: nat) {
    && (from != to ==> moved <= Balance(st, from) && Balance(t, from) == Balance(st, from) - moved)
    && (from != to ==> Balance(t, to) == (Balance(st, to) + moved) % U128)
    && (from == to ==> Balance(t, from) == Balance(st, from))
    && forall k :: k != BalKey(from) && k != BalKey(to) ==> Get(t, k) == Get(st, k)
  }

  lemma MovedMore(st: Store, t: Store, from: Account, to: Account, moved: nat, amount: Amount)
    requires Moved(st, t, from, to, moved) && amount <= Balance(t, from)
    ensures Moved(st, Transferred(t, from, to, amount), from, to, moved + amount)
  {
    hide Transferred, Balance, WrapAdd, Debited;
    if from == to {
      SelfTransfer(t, from, amount);
    } else {
      TransferMoves(t, from, to, amount);
      WrapTwice(Balance(st, to), moved, amount, Balance(t, to));
    }
  }

  /** After n successful transfers the sum of the amounts has moved, nothing else has, and no balance went negative. */
  lemma {:induction false} AfterMoves(st: Store, from: Account, to: Account, amounts: seq<Amount>, n: nat)
    requires n <= Successes(st, from, to, amounts, 0)
    ensures Moved(st, After(st, from, to, amounts, n), from, to, Sum(amounts, n))
  {
    hide Transferred, Successes, Balance, Moved;
    SuccessesExact(st, from, to, amounts, 0);
    if n == 0 {
      MovedNothing(st, from, to);
    } else {
      AfterMoves(st, from, to, amounts, n - 1);
      MovedMore(st, After(st, from, to, amounts, n - 1), from, to, Sum(amounts, n - 1), amounts[n - 1]);
    }
  }

  lemma MovedNothing(st: Store, from: Account, to: Account)
    ensures Moved(st, st, from, to, 0)
  {
    hide Balance;
    WrapNothing(Balance(st, to));
  }

  lemma WrapNothing(a: Amount)
    ensures (a + 0) % U128 == a
  {}

  lemma WrapTwice(a: nat, b: nat, c: Amount, x: Amount)
    requires x == (a + b) % U128
    ensures WrapAdd(x, c) == (a + (b + c)) % U128
  {
    var q := (a + b) / U128;
    assert a + (b + c) == x + c + q * U128;
    ModShift(x + c, q, U128);
  }

  lemma {:induction false} SumGrows(amounts: seq<Amount>, j: nat, k: nat)
    requires j <= k <= |amounts|
    ensures Sum(amounts, j) <= Sum(amounts, k)
  {
    if j < k { SumGrows(amounts, j, k - 1); }
  }

  lemma SumNone(amounts: seq<Amount>)
    ensures Sum(amounts, 0) == 0
  {}

  /** Between different accounts the transfers that go through are the longest affordable prefix. */
  lemma AffordablePrefix(st: Store, from: Account, to: Account, amounts: seq<Amount>, n: nat)
    requires from != to && n <= |amounts|
    ensures n <= Successes(st, from, to, amounts, 0) <==> Sum(amounts, n) <= Balance(st, from)
  {
    hide Balance, After, Successes;
    var m := Successes(st, from, to, amounts, 0);
    AfterMoves(st, from, to, amounts, m);
    if n <= m {
      SumGrows(amounts, n, m);
    } else {
      SuccessesExact(st, from, to, amounts, 0);
      SumGrows(amounts, m + 1, n);
    }
  }

  /** To oneself they are the transfers before the first amount above the balance. */
  lemma AffordableToSelf(st: Store, acct: Account, amounts: seq<Amount>, n: nat)
    requires n <= |amounts|
    ensures n <= Successes(st, acct, acct, amounts, 0) <==> forall k :: 0 <= k < n ==> amounts[k] <= Balance(st, acct)
  {
    hide Balance, After, Successes;
    var m := Successes(st, acct, acct, amounts, 0);
    SuccessesExact(st, acct, acct, amounts, 0);
    forall k | 0 <= k <= m ensures Balance(After(st, acct, acct, amounts, k), acct) == Balance(st, acct) {
      AfterMoves(st, acct, acct, amounts, k);
    }
    if n > m {
      assert amounts[m] > Balance(st, acct);
    }
  }

  // ---- The forward replay ----

  lemma {:induction false} ReplaySplit(st: Store, front: seq<Undo>, back: seq<Undo>)
    ensures Replay(st, front + back) == Replay(Replay(st, front), back)
    decreases |front|
  {
    if front == [] {
      assert front + back == back;
    } else {
      assert (front + back)[1..] == front[1..] + back;
      var u := front[0];
      ReplaySplit(if u.was.Some? then st[u.key := u.was.value] else st - {u.key}, front[1..], back);
    }
  }

  lemma {:induction false} ReplayOnly(st: Store, touched: seq<Undo>, k: Bytes)
    requires forall u :: u in touched ==> u.key != k
    ensures Get(Replay(st, touched), k) == Get(st, k)
    decreases |touched|
  {
    if touched != [] {
      var u := touched[0];
      assert u in touched;
      ReplayOnly(if u.was.Some? then st[u.key := u.was.value] else st - {u.key}, touched[1..], k);
    }
  }

  lemma ReplayNone(st: Store)
    ensures Replay(st, []) == st
  {}

  /** What undoing one transfer gives: nothing of the debit comes back when the sender is the receiver. */
  function Undone(prev: Store, from: Account, to: Account, amount: Amount): Store {
    if from == to then Debited(prev, from, amount) else prev
  }

  /** Replaying first to last ends on the entries of the last transfer: only that one is undone. */
  lemma ReplayUndoesLast(prev: Store, from: Account, to: Account, amount: Amount, earlier: seq<Undo>)
    requires forall u :: u in earlier ==> u.key == BalKey(from) || u.key == BalKey(to)
    ensures Replay(Transferred(prev, from, to, amount), earlier + UndoOf(prev, from, to, amount))
         == Undone(prev, from, to, amount)
  {
    hide Balance, WrapAdd, SatSub, ToDec;
    var st := Transferred(prev, from, to, amount);
    var last := UndoOf(prev, from, to, amount);
    ReplaySplit(st, earlier, last);
    var mid := Replay(st, earlier);
    var mid' := if last[0].was.Some? then mid[last[0].key := last[0].was.value] else mid - {last[0].key};
    var end := if last[1].was.Some? then mid'[last[1].key := last[1].was.value] else mid' - {last[1].key};
    assert last[1..][1..] == [];
    assert Replay(mid, last) == Replay(mid', last[1..]) == end;
    var want := Undone(prev, from, to, amount);
    forall k ensures Get(end, k) == Get(want, k) {
      if k != BalKey(from) && k != BalKey(to) {
        ReplayOnly(st, earlier, k);
      } else if from != to && BalKey(from) == BalKey(to) {
        BalKeyInjective(from, to);
      }
    }
    SameStore(end, want);
  }

  function Log(st: Store, from: Account, to: Account, amounts: seq<Amount>, n: nat): (l: seq<Undo>)
    requires n <= |amounts|
    ensures forall u :: u in l ==> u.key == BalKey(from) || u.key == BalKey(to)
  {
    if n == 0 then [] else
      Log(st, from, to, amounts, n - 1) + UndoOf(After(st, from, to, amounts, n - 1), from, to, amounts[n - 1])
  }

  /** The store a batch of transfers leaves: all of them, or all but the last that went through. */
  function Settled(st: Store, from: Account, to: Account, amounts: seq<Amount>): Store {
    var n := Successes(st, from, to, amounts, 0);
    if n == |amounts| then After(st, from, to, amounts, n)
    else if n == 0 then st
    else Undone(After(st, from, to, amounts, n - 1), from, to, amounts[n - 1])
  }

  function Slots(n: nat): (r: Results)
    ensures |r| == n
  {
    seq(n, _ => Some([]))
  }

  lemma OneMore(st: Store, from: Account, to: Account, amounts: seq<Amount>, n: nat)
    requires n < |amounts|
    ensures After(st, from, to, amounts, n + 1) == Transferred(After(st, from, to, amounts, n), from, to, amounts[n])
    ensures Log(st, from, to, amounts, n + 1)
      == Log(st, from, to, amounts, n) + UndoOf(After(st, from, to, amounts, n), from, to, amounts[n])
  {
    hide Transferred, UndoOf;
  }

  lemma NoneYet(st: Store, from: Account, to: Account, amounts: seq<Amount>)
    ensures After(st, from, to, amounts, 0) == st && Log(st, from, to, amounts, 0) == []
  {}

  lemma StopStep(env: Env, s: State, idx: nat, b: Batch, actions: seq<Action>, results: Results, touched: seq<Undo>)
    requires Ready(env, s) && idx < |s.dag| && actions != [] && actions[0].Transfer?
    requires Balance(s.store, b.creator) < actions[0].amount
    ensures ExecActions(env, s, idx, b, actions, results, touched) ==
            (s.(store := Replay(s.store, touched)), Some([None]))
  {
    hide Balance, WellFormed, Replay;
  }

  lemma PayStep(env: Env, s: State, idx: nat, b: Batch, actions: seq<Action>, results: Results, touched: seq<Undo>,
                t: State, rest: Results)
    requires Ready(env, s) && idx < |s.dag| && actions != [] && actions[0].Transfer?
    requires Balance(s.store, b.creator) >= actions[0].amount
    requires
      var paid := s.(store := Transferred(s.store, b.creator, b.account, actions[0].amount));
      var log := touched + UndoOf(s.store, b.creator, b.account, actions[0].amount);
      ExecActions(env, paid, idx, b, actions[1..], results, log) == (t, Some(rest))
    ensures ExecActions(env, s, idx, b, actions, results, touched) == (t, Some([Some([])] + rest))
  {
    hide Balance, WellFormed, Transferred, UndoOf;
  }

  lemma {:induction false} BatchFrom(env: Env, s: State, idx: nat, b: Batch, amounts: seq<Amount>, results: Results,
                                     start: Store, n: nat)
    requires Ready(env, s) && idx < |s.dag|
    requires n <= Successes(start, b.creator, b.account, amounts, 0)
    requires s.store == After(start, b.creator, b.account, amounts, n)
    ensures var m := Successes(start, b.creator, b.account, amounts, 0);
      ExecActions(env, s, idx, b, Transfers(amounts)[n..], results, Log(start, b.creator, b.account, amounts, n))
      == (s.(store := Settled(start, b.creator, b.account, amounts)),
          Some(Slots(m - n) + (if m == |amounts| then [] else [None])))
    decreases |amounts| - n
  {
    hide Balance, Transferred, UndoOf, WellFormed, Replay, SubExecute, Successes, After, Log, Settled;
    SuccessesExact(start, b.creator, b.account, amounts, 0);
    var m := Successes(start, b.creator, b.account, amounts, 0);
    var actions := Transfers(amounts)[n..];
    var touched := Log(start, b.creator, b.account, amounts, n);
    if n == |amounts| {
      assert actions == [];
      assert Slots(0) + [] == [];
      AllSettled(start, b.creator, b.account, amounts);
    } else {
      hide ExecActions;
      OneMore(start, b.creator, b.account, amounts, n);
      assert actions[0] == Transfer(amounts[n]);
      assert actions[1..] == Transfers(amounts)[n + 1..];
      if n < m {
        var t := s.(store := After(start, b.creator, b.account, amounts, n + 1));
        BatchFrom(env, t, idx, b, amounts, results, start, n + 1);
        var tail: Results := if m == |amounts| then [] else [None];
        PayStep(env, s, idx, b, actions, results, touched,
          s.(store := Settled(start, b.creator, b.account, amounts)), Slots(m - n - 1) + tail);
        assert [Some([])] + (Slots(m - n - 1) + tail) == Slots(m - n) + tail;
      } else {
        StopStep(env, s, idx, b, actions, results, touched);
        assert Slots(0) + [None] == [None];
        StoppedStore(start, b.creator, b.account, amounts);
      }
    }
  }

  lemma AllSettled(start: Store, from: Account, to: Account, amounts: seq<Amount>)
    requires Successes(start, from, to, amounts, 0) == |amounts|
    ensures Settled(start, from, to, amounts) == After(start, from, to, amounts, |amounts|)
  {}

  /** Replaying the whole log after the transfers that went through gives the settled store. */
  lemma StoppedStore(start: Store, from: Account, to: Account, amounts: seq<Amount>)
    requires Successes(start, from, to, amounts, 0) < |amounts|
    ensures var n := Successes(start, from, to, amounts, 0);
      Replay(After(start, from, to, amounts, n), Log(start, from, to, amounts, n)) == Settled(start, from, to, amounts)
  {
    var n := Successes(start, from, to, amounts, 0);
    hide Transferred, UndoOf, Successes, After, Log, Replay, Undone;
    if n == 0 {
      NoneYet(start, from, to, amounts);
      ReplayNone(start);
    } else {
      OneMore(start, from, to, amounts, n - 1);
      ReplayUndoesLast(After(start, from, to, amounts, n - 1), from, to, amounts[n - 1],
        Log(start, from, to, amounts, n - 1));
    }
  }

  /** What running a batch of transfers does to the state, and the results it gives. */
  lemma TransferBatch(env: Env, s: State, idx: nat, b: Batch, amounts: seq<Amount>, results: Results)
    requires Ready(env, s) && idx < |s.dag|
    ensures var m := Successes(s.store, b.creator, b.account, amounts, 0);
      ExecActions(env, s, idx, b, Transfers(amounts), results, [])
      == (s.(store := Settled(s.store, b.creator, b.account, amounts)),
          Some(Slots(m) + (if m == |amounts| then [] else [None])))
  {
    assert Transfers(amounts)[0..] == Transfers(amounts);
    NoneYet(s.store, b.creator, b.account, amounts);
    assert s.(store := s.store) == s;
    hide *;
    BatchFrom(env, s, idx, b, amounts, results, s.store, 0);
  }

  // ---- Conservation ----

  /** The balances of a set of accounts, summed in any order. */
  ghost function Total(st: Store, accounts: set<Account>): nat
    decreases |accounts|
  {
    if accounts == {} then 0 else
      var a :| a in accounts;
      Balance(st, a) + Total(st, accounts - {a})
  }

  lemma {:induction false} TotalWithout(st: Store, accounts: set<Account>, x: Account)
    requires x in accounts
    ensures Total(st, accounts) == Balance(st, x) + Total(st, accounts - {x})
    decreases |accounts|
  {
    hide Balance;
    var a :| a in accounts && Total(st, accounts) == Balance(st, a) + Total(st, accounts - {a});
    if a != x {
      TotalWithout(st, accounts - {a}, x);
      TotalWithout(st, accounts - {x}, a);
      assert accounts - {a} - {x} == accounts - {x} - {a};
    }
  }

  lemma {:induction false} TotalSame(a: Store, b: Store, accounts: set<Account>)
    requires forall x :: x in accounts ==> Balance(a, x) == Balance(b, x)
    ensures Total(a, accounts) == Total(b, accounts)
    decreases |accounts|
  {
    hide Balance;
    if accounts != {} {
      var x :| x in accounts;
      TotalWithout(a, accounts, x);
      TotalWithout(b, accounts, x);
      TotalSame(a, b, accounts - {x});
    }
  }

  /** How many transfers of a batch are still in force once it has settled. */
  function Kept(st: Store, from: Account, to: Account, amounts: seq<Amount>): (n: nat)
    ensures n <= |amounts|
  {
    var m := Successes(st, from, to, amounts, 0);
    if m == |amounts| || m == 0 then m else m - 1
  }

  /**
   * Transfers between different accounts, whatever the amounts, completed or stopped: no key but the two balances
   * changes, the sender never underflows, and the sum of all balances is conserved exactly when the receiver's balance
   * has room for what was kept.
   */
  lemma TransfersConserve(st: Store, from: Account, to: Account, amounts: seq<Amount>, accounts: set<Account>)
    requires from != to && from in accounts && to in accounts
    ensures var t := Settled(st, from, to, amounts);
      var moved := Sum(amounts, Kept(st, from, to, amounts));
      && moved <= Balance(st, from) && Balance(t, from) == Balance(st, from) - moved
      && (Total(t, accounts) == Total(st, accounts) <==> Balance(st, to) + moved < U128)
      && (Balance(st, to) + moved < U128 ==> Balance(t, to) == Balance(st, to) + moved)
      && forall k :: k != BalKey(from) && k != BalKey(to) ==> Get(t, k) == Get(st, k)
  {
    hide Balance, After, Successes, Total;
    var n := Kept(st, from, to, amounts);
    AfterMoves(st, from, to, amounts, n);
    NoneYet(st, from, to, amounts);
    var t := Settled(st, from, to, amounts);
    assert t == After(st, from, to, amounts, n);
    forall x | x in accounts - {from} - {to} ensures Balance(t, x) == Balance(st, x) {
      if BalKey(x) == BalKey(from) { BalKeyInjective(x, from); }
      if BalKey(x) == BalKey(to) { BalKeyInjective(x, to); }
      SameReading(t, st, x);
    }
    TotalWithout(t, accounts, from);
    TotalWithout(t, accounts - {from}, to);
    TotalWithout(st, accounts, from);
    TotalWithout(st, accounts - {from}, to);
    TotalSame(t, st, accounts - {from} - {to});
  }

  /**
   * A batch that stops at an insufficient transfer reverts to the initial balances exactly when, of the transfers the
   * sender could afford, all but the last had amount zero.
   */
  lemma FailedBatchAtomicIff(st: Store, from: Account, to: Account, amounts: seq<Amount>)
    requires from != to && Sum(amounts, |amounts|) > Balance(st, from)
    ensures var t := Settled(st, from, to, amounts);
      (Balance(t, from) == Balance(st, from) && Balance(t, to) == Balance(st, to)) <==>
        (forall n :: 0 < n <= |amounts| && Sum(amounts, n) <= Balance(st, from) ==> Sum(amounts, n - 1) == 0)
  {
    hide Balance, After, Successes, Sum;
    SumNone(amounts);
    var m := Successes(st, from, to, amounts, 0);
    AffordablePrefix(st, from, to, amounts, |amounts|);
    AfterMoves(st, from, to, amounts, if m == 0 then 0 else m - 1);
    forall n | 0 < n <= |amounts| && Sum(amounts, n) <= Balance(st, from)
      ensures 0 < m && Sum(amounts, n - 1) <= Sum(amounts, m - 1)
    {
      AffordablePrefix(st, from, to, amounts, n);
      SumGrows(amounts, n - 1, m - 1);
    }
    AffordablePrefix(st, from, to, amounts, m);
    if m > 0 { AtRoom(st, to, Sum(amounts, m - 1)); } else { AtRoom(st, to, 0); }
  }

  lemma AtRoom(st: Store, to: Account, moved: nat)
    ensures moved == 0 ==> (Balance(st, to) + moved) % U128 == Balance(st, to)
  {
    hide Balance;
  }

  /** A batch of transfers to oneself that stops loses exactly the amount of the last that went through. */
  lemma FailedSelfBatchLoses(st: Store, acct: Account, amounts: seq<Amount>)
    requires 0 < Successes(st, acct, acct, amounts, 0) < |amounts|
    ensures var n := Successes(st, acct, acct, amounts, 0);
      Balance(Settled(st, acct, acct, amounts), acct) == Balance(st, acct) - amounts[n - 1]
  {
    hide After, Balance, Transferred, Successes, Debited;
    var n := Successes(st, acct, acct, amounts, 0);
    SuccessesExact(st, acct, acct, amounts, 0);
    AfterMoves(st, acct, acct, amounts, n - 1);
    var prev := After(st, acct, acct, amounts, n - 1);
    SelfTransfer(prev, acct, amounts[n - 1]);
  }
}
