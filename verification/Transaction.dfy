/** `execute_tx`: one transaction from attach to drain, and the transaction-level theorems. */
module Transaction {
  import opened Wrappers
  import opened Decimal
  import opened Storage
  import opened Receipts
  import opened OnceOnly
  import opened Delivery

  /** Refused transactions return an error before the entry runs. */
  datatype Outcome =
    | Refused
    | Settled(ok: bool, trapped: bool, returnData: Option<Bytes>, results: Results, orphanFailures: nat)

  datatype Tx = Tx(s: State, queue: seq<Batch>, outcome: Outcome)

  /** `credit_attach`, skipped for a zero deposit. */
  function Credited(st: Store, callee: Account, attach: Amount): Store {
    if attach == 0 then st else SetBalance(st, callee, WrapAdd(Balance(st, callee), attach))
  }

  /** The snapshot without the attached deposit: the balance is trimmed, parsed, reduced, and dropped at zero. */
  function Uncredited(snap: Store, callee: Account, attach: Amount): Store {
    var key := BalKey(callee);
    if attach == 0 || key !in snap then snap else
      var p := Parse(Trim(snap[key]));
      var before := SatSub(if p.Some? then p.value else 0, attach);
      if before > 0 then snap[key := ToDec(before)] else snap - {key}
  }

  function EntryCall(store: Store, callee: Account, m: Bytes, args: Bytes, signer: Account, attach: Amount): CallIn {
    CallIn(callee, m, args, signer, attach, [], Own(Credited(store, callee, attach), callee), 0)
  }

  function LastSome(results: Results): Option<Bytes> {
    if results == [] then None
    else if results[|results| - 1].Some? then results[|results| - 1]
    else LastSome(results[..|results| - 1])
  }

  function NonEmpty(data: Option<Bytes>): Option<Bytes> { if data == Some([]) then None else data }

  /** The graph the entry leaves: its batches were created by the callee. */
  ghost function EntryState(env: Env, store: Store, callee: Account, out: CallOut): (s: State)
    requires WellFormed(env) && out.Ran? && HandlesOk(0, out, env.bound)
    ensures Ready(env, s)
  {
    Fresh(Stamped(out.appended, callee), ApplyOps(store, callee, out.ops))
  }

  /** Resolve the returned promise, roll everything back on an infrastructure error, then drain. */
  ghost function Resolve(env: Env, s: State, ret: Option<nat>, data: Option<Bytes>, snapshot: Store)
      : (r: (State, Outcome))
    requires Ready(env, s) && (ret.Some? ==> ret.value < |s.dag|)
  {
    if ret.None? then
      var (u, failures) := Drain(env, s);
      (u, Settled(true, false, NonEmpty(data), [], failures))
    else
      var (t, out) := Execute(env, s, ret.value);
      var (u, failures) := Drain(env, if out.None? then t.(store := snapshot) else t);
      if out.None? then (u, Settled(false, false, None, [], failures))
      else (u, Settled(out.value == [] || out.value[|out.value| - 1].Some?, false, NonEmpty(LastSome(out.value)),
          out.value, failures))
  }

  ghost function Transact(env: Env, store: Store, queue: seq<Batch>, callee: Account, m: Bytes, args: Bytes,
                    signer: Account, attach: Amount, defer: bool): (tx: Tx)
    requires WellFormed(env)
  {
    if callee !in env.deployed then Tx(Fresh([], store), queue, Refused) else
      var credited := Credited(store, callee, attach);
      var out := env.run(EntryCall(store, callee, m, args, signer, attach));
      assert HandlesOk(0, out, env.bound);
      if !out.Ran? then Tx(Fresh([], credited), queue, Refused)
      else if out.trapped then
        Tx(Fresh(Stamped(out.appended, callee), Uncredited(credited, callee, attach)), queue,
           Settled(false, true, None, [], 0))
      else
        var s := EntryState(env, credited, callee, out);
        if defer then
          Tx(Fresh([], s.store), queue + s.dag,
             Settled(true, false, if out.ret.Some? then None else NonEmpty(out.data), [], 0))
        else
          var (t, outcome) := Resolve(env, s, out.ret, out.data, credited);
          Tx(t, queue, outcome)
  }

  /** `settle_receipts` on a loaded queue. */
  ghost function Settle(env: Env, queue: seq<Batch>, store: Store): (r: (State, Report))
    requires Ready(env, Fresh(queue, store))
  {
    if queue == [] then (Fresh([], store), Report(0, [])) else Deliver(env, Fresh(queue, store), Report(0, []))
  }

  // ---- A trapped entry ----

  /**
   * A trapped entry is atomic: every key but the callee's balance is byte-identical, no batch was queued or run, and
   * every balance reads the same exactly when the credit did not wrap; a wrapped balance is lost.
   */
  lemma EntryTrapAtomic(env: Env, store: Store, queue: seq<Batch>, callee: Account, m: Bytes, args: Bytes,
                        signer: Account, attach: Amount, defer: bool)
    requires WellFormed(env)
    requires var tx := Transact(env, store, queue, callee, m, args, signer, attach, defer);
      tx.outcome.Settled? && tx.outcome.trapped
    ensures var tx := Transact(env, store, queue, callee, m, args, signer, attach, defer);
      && (forall k :: k != BalKey(callee) ==> Get(tx.s.store, k) == Get(store, k))
      && (forall a :: a != callee ==> Balance(tx.s.store, a) == Balance(store, a))
      && (Balance(tx.s.store, callee) == Balance(store, callee) <==> Balance(store, callee) + attach < U128)
      && tx.s.executed == {} && tx.s.log == [] && tx.queue == queue
  {
    hide Drain, Execute, Parse, ToDec, Trim;
    var tx := Transact(env, store, queue, callee, m, args, signer, attach, defer);
    CreditThenUncredit(store, callee, attach);
    forall a | a != callee ensures Balance(tx.s.store, a) == Balance(store, a) {
      if BalKey(a) == BalKey(callee) { BalKeyInjective(a, callee); }
      SameReading(tx.s.store, store, a);
    }
  }

  /**
   * The callee's balance key comes back byte for byte exactly when nothing was attached, or the credit did not wrap and
   * the balance was absent at zero, or stored in canonical form and positive.
   */
  lemma EntryTrapIdentityIff(env: Env, store: Store, queue: seq<Batch>, callee: Account, m: Bytes, args: Bytes,
                             signer: Account, attach: Amount, defer: bool)
    requires WellFormed(env)
    requires var tx := Transact(env, store, queue, callee, m, args, signer, attach, defer);
      tx.outcome.Settled? && tx.outcome.trapped
    ensures var bal := Balance(store, callee);
      (Transact(env, store, queue, callee, m, args, signer, attach, defer).s.store == store) <==>
      (attach == 0 ||
        (bal + attach < U128 && Get(store, BalKey(callee)) == (if bal > 0 then Some(ToDec(bal)) else None)))
  {
    hide Drain, Execute, Parse, ToDec, Trim;
    CreditThenUncredit(store, callee, attach);
    var back := Uncredited(Credited(store, callee, attach), callee, attach);
    if attach > 0 && Get(store, BalKey(callee)) == Get(back, BalKey(callee)) {
      SameStore(back, store);
    }
  }

  lemma CreditThenUncredit(store: Store, callee: Account, attach: Amount)
    ensures var back := Uncredited(Credited(store, callee, attach), callee, attach);
      var bal := Balance(store, callee);
      && (forall k :: k != BalKey(callee) ==> Get(back, k) == Get(store, k))
      && Balance(back, callee) == (if bal + attach < U128 then bal else 0)
      && (attach == 0 ==> back == store)
      && (attach > 0 ==>
           Get(back, BalKey(callee)) == if 0 < bal < U128 - attach then Some(ToDec(bal)) else None)
  {
    hide Parse, ToDec, Trim;
    var bal := Balance(store, callee);
    if attach > 0 {
      var credited := Credited(store, callee, attach);
      SetThenRead(store, callee, WrapAdd(bal, attach));
      var sum := WrapAdd(bal, attach);
      assert sum == if bal + attach < U128 then bal + attach else bal + attach - U128;
      assert credited[BalKey(callee)] == ToDec(sum);
      TrimDigits(sum);
      ParsePrint(sum);
      if bal > 0 { SetThenRead(credited, callee, bal); }
    }
  }

  // ---- A refused transaction ----

  /**
   * A transaction refused before its entry runs keeps the attached deposit whenever the callee is deployed: the store
   * is unchanged exactly when the callee is unknown or nothing was attached. Nothing is queued or run.
   */
  lemma RefusedKeepsCredit(env: Env, store: Store, queue: seq<Batch>, callee: Account, m: Bytes, args: Bytes,
                           signer: Account, attach: Amount, defer: bool)
    requires WellFormed(env)
    requires Transact(env, store, queue, callee, m, args, signer, attach, defer).outcome.Refused?
    ensures var tx := Transact(env, store, queue, callee, m, args, signer, attach, defer);
      && (tx.s.store == store <==> callee !in env.deployed || attach == 0)
      && (callee in env.deployed ==> tx.s.store == Credited(store, callee, attach))
      && (callee in env.deployed ==> Balance(tx.s.store, callee) == WrapAdd(Balance(store, callee), attach))
      && (callee !in env.deployed ==> tx.s.store == store)
      && tx.s.dag == [] && tx.s.executed == {} && tx.s.log == [] && tx.queue == queue
  {
    hide Drain, Execute, Parse, ToDec, Trim, Own, EntryState, Uncredited;
    SetThenRead(store, callee, WrapAdd(Balance(store, callee), attach));
  }

  // ---- An infrastructure error in the returned chain ----

  /**
   * An infrastructure error in the chain the entry returned puts the store back to where the entry started, the
   * attached deposit included, and the drain goes on from there with the nodes the chain had not marked. When it had
   * marked them all, the store is the old one exactly when nothing was attached.
   */
  lemma ChainErrorKeepsCredit(env: Env, store: Store, queue: seq<Batch>, callee: Account, m: Bytes, args: Bytes,
                              signer: Account, attach: Amount)
    requires WellFormed(env) && callee in env.deployed
    requires var out := env.run(EntryCall(store, callee, m, args, signer, attach));
      out.Ran? && !out.trapped && HandlesOk(0, out, env.bound) && out.ret.Some?
        && Execute(env, EntryState(env, Credited(store, callee, attach), callee, out), out.ret.value).1.None?
    ensures var out := env.run(EntryCall(store, callee, m, args, signer, attach));
      var credited := Credited(store, callee, attach);
      var t := Execute(env, EntryState(env, credited, callee, out), out.ret.value).0;
      var tx := Transact(env, store, queue, callee, m, args, signer, attach, false);
      && !tx.outcome.ok && !tx.outcome.trapped && tx.outcome.results == [] && tx.outcome.returnData == None
      && tx.queue == queue
      && tx.s == Drain(env, t.(store := credited)).0
      && t.executed <= tx.s.executed && t.log <= tx.s.log
      && ((forall i :: 0 <= i < |t.dag| ==> i in t.executed) ==>
            && tx.s == t.(store := credited) && tx.outcome.orphanFailures == 0
            && (tx.s.store == store <==> attach == 0))
  {
    hide Execute, Own, ApplyOps, WellFormed, Parse, ToDec, Trim, Uncredited;
    SetThenRead(store, callee, WrapAdd(Balance(store, callee), attach));
    var out := env.run(EntryCall(store, callee, m, args, signer, attach));
    var t := Execute(env, EntryState(env, Credited(store, callee, attach), callee, out), out.ret.value).0;
    DrainNone(env, t.(store := Credited(store, callee, attach)));
  }

  // ---- A whole transaction ----

  /**
   * In a transaction whose entry succeeds and which meets no infrastructure error, every node of the final graph ran
   * exactly once, in causal order, unless forced to fail.
   */
  lemma TransactionRunsOnce(env: Env, store: Store, queue: seq<Batch>, callee: Account, m: Bytes, args: Bytes,
                            signer: Account, attach: Amount)
    requires WellFormed(env) && callee in env.deployed
    requires var out := env.run(EntryCall(store, callee, m, args, signer, attach));
      out.Ran? && !out.trapped && HandlesOk(0, out, env.bound)
        && (out.ret.Some? ==>
              Execute(env, EntryState(env, Credited(store, callee, attach), callee, out), out.ret.value).1.Some?)
    requires Transact(env, store, queue, callee, m, args, signer, attach, false).outcome.orphanFailures == 0
    ensures var t := Transact(env, store, queue, callee, m, args, signer, attach, false).s;
      && (forall i :: 0 <= i < |t.dag| ==> i in t.executed)
      && (forall i :: 0 <= i < |t.dag| ==>
            multiset(t.log)[Run(i)] == (if Runs(env, t.dag, i) then 1 else 0) && multiset(t.log)[Done(i)] == 1)
      && (forall p :: 0 <= p < |t.log| ==> t.log[p].idx < |t.dag| && DepsDone(t.log[..p], t.dag[t.log[p].idx].deps))
  {
    var out := env.run(EntryCall(store, callee, m, args, signer, attach));
    assert HandlesOk(0, out, env.bound);
    var s := EntryState(env, Credited(store, callee, attach), callee, out);
    hide Drain, Execute, Own, Credited, ApplyOps;
    OnceAndInOrder(env, s.dag, s.store, out.ret);
  }

  /**
   * Firing equals firing deferred and settling with nothing in between: when the queue was empty and the returned graph
   * is numbered in post-order (or nothing is returned), the same storage, results and event order.
   */
  lemma FireIsDeferThenSettle(env: Env, store: Store, callee: Account, m: Bytes, args: Bytes, signer: Account,
                              attach: Amount)
    requires WellFormed(env) && callee in env.deployed
    requires var out := env.run(EntryCall(store, callee, m, args, signer, attach));
      out.Ran? && !out.trapped && HandlesOk(0, out, env.bound)
        && (out.ret.Some? ==>
              var s := EntryState(env, Credited(store, callee, attach), callee, out);
              PostOrder(s.dag, out.ret.value) && Execute(env, s, out.ret.value).1.Some?)
    ensures var deferred := Transact(env, store, [], callee, m, args, signer, attach, true);
      && Ready(env, Fresh(deferred.queue, deferred.s.store))
      && Transact(env, store, [], callee, m, args, signer, attach, false).s
           == Settle(env, deferred.queue, deferred.s.store).0
  {
    var out := env.run(EntryCall(store, callee, m, args, signer, attach));
    assert HandlesOk(0, out, env.bound);
    var s := EntryState(env, Credited(store, callee, attach), callee, out);
    assert [] + s.dag == s.dag;
    DeliverIsDrain(env, s, Report(0, []));
    if s.dag == [] {
      assert Drain(env, s).0 == s;
    }
    hide Drain, Execute, Deliver, Own, Credited, ApplyOps;
    if out.ret.Some? {
      EagerIsDeferred(env, s.dag, s.store, out.ret.value);
    }
  }
}
