/** Why eager and deferred delivery need the numbering: two transfers that compete for one balance. */
module DeliveryOrder {
  import opened Wrappers
  import opened Decimal
  import opened Storage
  import opened Receipts
  import opened OnceOnly
  import opened Delivery
  import opened Transfers

  function Pay(from: Account, to: Account): Batch { Batch([], to, from, [Transfer(1)]) }

  /** Node 0 pays y and is returned to nobody; node 1 pays z and is the returned root. */
  function Competing(x: Account, y: Account, z: Account): seq<Batch> { [Pay(x, y), Pay(x, z)] }

  /** The store after a one-unit payment that finds its balance, or does not. */
  function Paid(st: Store, from: Account, to: Account): Store {
    if Balance(st, from) < 1 then st else Transferred(st, from, to, 1)
  }

  lemma RunPay(env: Env, s: State, i: nat, from: Account, to: Account)
    requires Ready(env, s) && i < |s.dag| && s.dag[i] == Pay(from, to) && to != []
    requires i !in s.memo && i !in env.forced
    ensures var (t, out) := Execute(env, s, i);
      && out.Some? && t.dag == s.dag && t.executed == s.executed + {i} && t.memo.Keys == s.memo.Keys + {i}
      && t.store == Paid(s.store, from, to)
  {
    hide WellFormed, Balance, Transferred, UndoOf;
    ReplayNone(s.store);
    var running := s.(executed := s.executed + {i}, log := s.log + [Run(i)]);
    assert ExecDeps(env, s.(executed := s.executed + {i}), i, []) == (s.(executed := s.executed + {i}), Some([]));
    var b := s.dag[i];
    assert b.actions[1..] == [];
    if Balance(s.store, from) < 1 {
      StopStep(env, running, i, b, b.actions, [], []);
    } else {
      var next := running.(store := Transferred(s.store, from, to, 1));
      assert ExecActions(env, next, i, b, [], [], [] + UndoOf(s.store, from, to, 1)) == (next, Some([]));
      PayStep(env, running, i, b, b.actions, [], [], next, []);
    }
  }

  lemma DrainOne(env: Env, s: State, i: nat)
    requires Ready(env, s) && NextOrphan(s.dag, s.executed, 0) == Some(i)
    ensures Drain(env, s).0 == Drain(env, Execute(env, s, i).0).0
  {
    hide WellFormed, Execute;
  }

  /** With one unit between two payments, whichever runs first gets it. */
  lemma FirstPaid(x: Account, first: Account, second: Account)
    requires x != first && x != second && first != second
    ensures var st := Paid(Paid(SetBalance(map[], x, 1), x, first), x, second);
      Balance(st, first) == 1 && Balance(st, second) == 0
  {
    hide ToDec, Parse;
    var st := SetBalance(map[], x, 1);
    SetThenRead(map[], x, 1);
    TransferMoves(st, x, first, 1);
    assert Balance(Transferred(st, x, first, 1), second) == Balance(st, second) by {
      if BalKey(second) == BalKey(x) { BalKeyInjective(second, x); }
      if BalKey(second) == BalKey(first) { BalKeyInjective(second, first); }
      SameReading(Transferred(st, x, first, 1), st, second);
    }
  }

  /** Out of post-order the two deliveries end differently: eagerly z is paid, deferred it is not. */
  lemma OutOfOrderDiffers(env: Env, x: Account, y: Account, z: Account)
    requires WellFormed(env) && env.bound >= 2 && env.forced == {}
    requires x != y && x != z && y != z && y != [] && z != []
    ensures var s := Fresh(Competing(x, y, z), SetBalance(map[], x, 1));
      && Ready(env, s) && !PostOrder(s.dag, 1) && Execute(env, s, 1).1.Some?
      && Balance(Drain(env, Execute(env, s, 1).0).0.store, z) == 1
      && Balance(Deliver(env, s, Report(0, [])).0.store, z) == 0
  {
    hide WellFormed, Execute, Drain, Deliver, Paid, SetBalance, Balance;
    var s := Fresh(Competing(x, y, z), SetBalance(map[], x, 1));
    FirstPaid(x, z, y);
    FirstPaid(x, y, z);
    RunPay(env, s, 1, x, z);
    var eager := Execute(env, s, 1).0;
    RunPay(env, eager, 0, x, y);
    DrainOne(env, eager, 0);
    DrainNone(env, Execute(env, eager, 0).0);
    DeliverIsDrain(env, s, Report(0, []));
    RunPay(env, s, 0, x, y);
    DrainOne(env, s, 0);
    var deferred := Execute(env, s, 0).0;
    RunPay(env, deferred, 1, x, z);
    DrainOne(env, deferred, 1);
    DrainNone(env, Execute(env, deferred, 1).0);
  }
}
