/**
 * The promise engine itself, on the thread-local state it mutates. Each method computes the function of the same name
 * on the state it finds, and gives back the per-call context it borrowed.
 */
module Engine {
  import opened Wrappers
  import opened Decimal
  import opened Storage
  import opened Receipts
  import opened OnceOnly
  import opened Transaction

  datatype ExecCtx = ExecCtx(input: Bytes, signer: Account, predecessor: Account, contract: Account)

  /** The context a contract call borrows and must give back. */
  datatype Borrowed = Borrowed(
    execCtx: Option<ExecCtx>, registers: Registers, returnData: Option<Bytes>, currentDeposit: Option<Amount>,
    promiseResults: Results)

  datatype SubResult = Broken | Finished(result: Option<Bytes>)

  function Prepend(acc: Results, r: (State, Option<Results>)): (State, Option<Results>) {
    (r.0, if r.1.None? then None else Some(acc + r.1.value))
  }

  /** One dep taken off the front. */
  lemma NextDep(env: Env, s: State, idx: nat, deps: seq<nat>, acc: Results)
    requires Ready(env, s) && idx < |s.dag| && deps != [] && forall d :: d in deps ==> d < idx
    ensures deps[0] in deps && forall d :: d in deps[1..] ==> d in deps
    ensures var (t, one) := Execute(env, s, deps[0]);
      Prepend(acc, ExecDeps(env, s, idx, deps)) ==
        if one.None? then (t, None) else Prepend(acc + one.value, ExecDeps(env, t, idx, deps[1..]))
  {
    hide Execute;
    assert deps[0] in deps && forall d :: d in deps[1..] ==> d in deps;
    var (t, one) := Execute(env, s, deps[0]);
    if one.Some? {
      assert forall rest: Results :: acc + (one.value + rest) == acc + one.value + rest;
    }
  }

  lemma NoMoreDeps(env: Env, s: State, idx: nat, acc: Results)
    requires Ready(env, s) && idx < |s.dag|
    ensures Prepend(acc, ExecDeps(env, s, idx, [])) == (s, Some(acc))
  {
    assert acc + [] == acc;
  }

  /** What the entry call may create and return. */
  lemma EntryHandles(env: Env, c: CallIn)
    requires WellFormed(env) && c.base == 0
    ensures HandlesOk(0, env.run(c), env.bound)
    ensures env.run(c).Ran? && env.run(c).ret.Some? ==> env.run(c).ret.value < |Stamped(env.run(c).appended, c.account)|
  {}

  /** A function-call action: the call, then the promise it returned. */
  ghost function CallAndResolve(env: Env, s: State, idx: nat, b: Batch, a: Action, results: Results)
      : (r: (State, Option<Results>))
    requires Ready(env, s) && a.FnCall?
    ensures Grows(env, s, r.0)
  {
    var (t, res) := Receipts.SubExecute(env, s, idx, b.account, a.method_, a.args, b.creator, a.deposit, results);
    if res.Broken? then (t, None) else
      var (u, child) := if res.handle.Some? then Execute(env, t, res.handle.value) else (t, Some([]));
      (u, if child.None? then None else Some([res.result] + child.value))
  }

  lemma CallThenRest(env: Env, s: State, idx: nat, b: Batch, actions: seq<Action>, results: Results, touched: seq<Undo>,
                     out: Results)
    requires Ready(env, s) && idx < |s.dag| && actions != [] && actions[0].FnCall?
    ensures var (u, one) := CallAndResolve(env, s, idx, b, actions[0], results);
      Prepend(out, ExecActions(env, s, idx, b, actions, results, touched))
      == if one.None? then (u, None)
         else Prepend(out + one.value, ExecActions(env, u, idx, b, actions[1..], results, touched))
  {
    hide WellFormed, HandlesOk, Execute, Receipts.SubExecute;
    var (u, one) := CallAndResolve(env, s, idx, b, actions[0], results);
    if one.Some? {
      assert forall rest: Results :: out + (one.value + rest) == out + one.value + rest;
    }
  }

  lemma TransferThenRest(env: Env, s: State, idx: nat, b: Batch, actions: seq<Action>, results: Results,
                         touched: seq<Undo>, out: Results)
    requires Ready(env, s) && idx < |s.dag| && actions != [] && actions[0].Transfer?
    ensures var amount := actions[0].amount;
      Prepend(out, ExecActions(env, s, idx, b, actions, results, touched))
      == if Balance(s.store, b.creator) < amount then (s.(store := Replay(s.store, touched)), Some(out + [None]))
         else Prepend(out + [Some([])],
                ExecActions(env, s.(store := Transferred(s.store, b.creator, b.account, amount)), idx, b, actions[1..],
                            results, touched + UndoOf(s.store, b.creator, b.account, amount)))
  {
    hide WellFormed, Balance, Replay, Transferred, UndoOf;
    assert forall rest: Results :: out + ([Some([])] + rest) == out + [Some([])] + rest;
  }

  class Engine {
    const env: Env
    const mock: MockState
    var dag: seq<Batch>
    var executed: set<nat>
    var memo: map<nat, Results>
    var promiseResults: Results
    var pendingReturn: Option<nat>
    var execCtx: Option<ExecCtx>
    var currentDeposit: Option<Amount>
    var receiptQueue: seq<Batch>
    var deferReceipts: bool
    ghost var log: seq<Event>
    ghost var calls: seq<Called>

    constructor (env: Env)
      ensures this.env == env && fresh(mock) && St() == Fresh([], map[])
      ensures receiptQueue == [] && !deferReceipts
    {
      this.env := env;
      mock := new MockState();
      dag, executed, memo, log, calls := [], {}, map[], [], [];
      promiseResults, pendingReturn, execCtx, currentDeposit := [], None, None, None;
      receiptQueue, deferReceipts := [], false;
    }

    ghost function St(): State
      reads this, mock
    {
      State(dag, executed, memo, mock.storage, log, calls)
    }

    ghost function Context(): Borrowed
      reads this, mock
    {
      Borrowed(execCtx, mock.registers, mock.returnData, currentDeposit, promiseResults)
    }

    method DagPush(deps: seq<nat>, account: Account, actions: seq<Action>) returns (idx: nat)
      modifies this`dag
      ensures idx == old(|dag|)
      ensures dag == old(dag) + [Batch(deps, account, if execCtx.Some? then execCtx.value.contract else [], actions)]
    {
      var creator := if execCtx.Some? then execCtx.value.contract else [];
      dag := dag + [Batch(deps, account, creator, actions)];
      idx := |dag| - 1;
    }

    /**
     * One contract call as the hosts see it: storage operations, then promise hosts, then the return value. What the
     * call depends on is what the hosts read: the execution context, the deposit, the published results, the contract's
     * keys and the next free handle.
     */
    method RunGuest(c: CallIn) returns (out: CallOut)
      requires execCtx == Some(ExecCtx(c.args, c.predecessor, c.predecessor, c.account))
      requires currentDeposit == Some(c.deposit) && promiseResults == c.results
      requires Own(mock.storage, c.account) == c.own && |dag| == c.base
      modifies this`dag, this`pendingReturn, mock
      ensures out == env.run(c)
      ensures !out.Ran? ==> mock.storage == old(mock.storage) && dag == old(dag) && pendingReturn == old(pendingReturn)
      ensures out.Ran? ==>
        && mock.storage == ApplyOps(old(mock.storage), c.account, out.ops)
        && dag == old(dag) + Stamped(out.appended, c.account)
        && pendingReturn == (if out.ret.Some? then out.ret else old(pendingReturn))
        && mock.returnData == out.data
    {
      out := env.run(c);
      if out.Ran? {
        for i := 0 to |out.ops|
          invariant mock.storage == ApplyOps(old(mock.storage), c.account, out.ops[..i])
          invariant dag == old(dag) && pendingReturn == old(pendingReturn)
        {
          var op := out.ops[i];
          var k := PrefixedKey(execCtx.value.contract, op.key);
          mock.storage := if op.Write? then mock.storage[k := op.value] else mock.storage - {k};
          assert out.ops[..i + 1] == out.ops[..i] + [op];
          ApplyOpsSplit(old(mock.storage), c.account, out.ops[..i], op);
        }
        assert out.ops[..|out.ops|] == out.ops;
        for i := 0 to |out.appended|
          invariant mock.storage == ApplyOps(old(mock.storage), c.account, out.ops)
          invariant dag == old(dag) + Stamped(out.appended, c.account)[..i]
          invariant pendingReturn == old(pendingReturn)
        {
          var idx := DagPush(out.appended[i].deps, out.appended[i].account, out.appended[i].actions);
        }
        if out.ret.Some? { pendingReturn := out.ret; }
        mock.registers, mock.returnData := out.registers, out.data;
      }
    }

    method MoveDeposit(account: Account, predecessor: Account, deposit: Amount)
      modifies mock`storage
      ensures mock.storage == PayDeposit(old(mock.storage), account, predecessor, deposit)
    {
      if deposit > 0 {
        var bal := Balance(mock.storage, account);
        mock.storage := mock.storage[BalKey(account) := ToDec(WrapAdd(bal, deposit))];
        var sbal := Balance(mock.storage, predecessor);
        mock.storage := mock.storage[BalKey(predecessor) := ToDec(SatSub(sbal, deposit))];
      }
    }

    method GiveBack(predecessor: Account, deposit: Amount)
      modifies mock`storage
      ensures mock.storage == RefundDeposit(old(mock.storage), predecessor, deposit)
    {
      if deposit > 0 {
        var b := Balance(mock.storage, predecessor);
        mock.storage := mock.storage[BalKey(predecessor) := ToDec(WrapAdd(b, deposit))];
      }
    }

    /**
     * `sub_execute`, with the pending return cleared by the caller. Registers, return data, execution context and
     * current deposit come back whether or not the call traps; the handle the child returned is left pending.
     */
    method SubExecute(ghost node: nat, account: Account, m: Bytes, args: Bytes, predecessor: Account, deposit: Amount)
      returns (res: SubResult)
      requires Ready(env, St()) && pendingReturn == None
      modifies this`dag, this`pendingReturn, this`execCtx, this`currentDeposit, this`calls, mock
      ensures var (t, r) :=
          Receipts.SubExecute(env, old(St()), node, account, m, args, predecessor, deposit, promiseResults);
        && St() == t
        && (res.Broken? <==> r.Broken?)
        && (res.Finished? ==> res.result == r.result && pendingReturn == r.handle)
      ensures res.Finished? ==> Context() == old(Context())
    {
      hide ApplyOps, Restored, Partition, ToDec, Balance, WellFormed, HandlesOk, Own, Stamped, DepsBelow, PayDeposit,
           RefundDeposit;
      if account !in env.deployed {
        return SubResult.Finished(None);
      }
      var oldCtx, oldRegs, oldRet := execCtx, mock.registers, mock.returnData;
      mock.registers, mock.returnData := map[], None;
      execCtx := Some(ExecCtx(args, predecessor, predecessor, account));
      MoveDeposit(account, predecessor, deposit);
      var savedDeposit := currentDeposit;
      currentDeposit := Some(deposit);
      var snap := mock.SnapshotPartition(account);
      ghost var paid := mock.storage;
      var c := CallIn(account, m, args, predecessor, deposit, promiseResults, Own(mock.storage, account), |dag|);
      calls := calls + [Called(node, c)];
      var out := RunGuest(c);
      if out.Infra? {
        return SubResult.Broken;
      }
      var trap := out.NoMethod? || out.trapped;
      var ret := mock.returnData;
      if trap {
        mock.RestorePartition(snap, account);
        GiveBack(predecessor, deposit);
      }
      currentDeposit := savedDeposit;
      execCtx := oldCtx;
      mock.registers, mock.returnData := oldRegs, oldRet;
      res := SubResult.Finished(if trap then None else Some(if ret.Some? then ret.value else []));
      assert mock.storage == StoreAfter(paid, c, out);
    }

    /** `execute_promise`. On success the whole borrowed context and the pending return are as before. */
    method ExecutePromise(idx: nat) returns (r: Option<Results>)
      requires Ready(env, St()) && idx < |dag|
      modifies this`dag, this`executed, this`memo, this`promiseResults, this`pendingReturn, this`execCtx,
               this`currentDeposit, this`log, this`calls, mock
      ensures (St(), r) == Execute(env, old(St()), idx)
      ensures r.Some? ==> Context() == old(Context()) && pendingReturn == old(pendingReturn)
      decreases env.bound - |dag|, idx, 3, 0
    {
      if idx in memo {
        executed := executed + {idx};
        return Some(memo[idx]);
      }
      r := ExecutePromiseUncached(idx);
      if r.Some? {
        memo := memo[idx := r.value];
        log := log + [Done(idx)];
      } else {
        log := log + [Aborted(idx)];
      }
    }

    /** `execute_promise_uncached`: the dep results are published while the actions run and withdrawn after. */
    method ExecutePromiseUncached(idx: nat) returns (r: Option<Results>)
      requires Ready(env, St()) && idx < |dag|
      modifies this`dag, this`executed, this`memo, this`promiseResults, this`pendingReturn, this`execCtx,
               this`currentDeposit, this`log, this`calls, mock
      ensures (St(), r) == Uncached(env, old(St()), idx)
      ensures r.Some? ==> Context() == old(Context()) && pendingReturn == old(pendingReturn)
      decreases env.bound - |dag|, idx, 2, 0
    {
      var batch := dag[idx];
      executed := executed + {idx};
      var forced := idx in env.forced;
      var depResults := ResolveDeps(idx, batch.deps);
      if depResults.None? { return None; }
      if forced { return Some([]); }
      var saved := promiseResults;
      promiseResults := depResults.value;
      if batch.account == [] {
        promiseResults := saved;
        return depResults;
      }
      log := log + [Run(idx)];
      r := RunActions(idx, batch);
      if r.Some? { promiseResults := saved; }
    }

    /** The loop over the dependencies, shared by forced and ordinary receipts. */
    method ResolveDeps(idx: nat, deps: seq<nat>) returns (r: Option<Results>)
      requires Ready(env, St()) && idx < |dag| && forall d :: d in deps ==> d < idx
      modifies this`dag, this`executed, this`memo, this`promiseResults, this`pendingReturn, this`execCtx,
               this`currentDeposit, this`log, this`calls, mock
      ensures (St(), r) == ExecDeps(env, old(St()), idx, deps)
      ensures r.Some? ==> Context() == old(Context()) && pendingReturn == old(pendingReturn)
      decreases env.bound - |dag|, idx, 1, 0
    {
      var out: Results := [];
      ghost var start := St();
      assert deps[0..] == deps && forall rest: Results :: [] + rest == rest;
      hide WellFormed, ExecDeps, Execute;
      for k := 0 to |deps|
        invariant Ready(env, St()) && start.dag <= dag
        invariant forall d :: d in deps[k..] ==> d in deps
        invariant ExecDeps(env, start, idx, deps) == Prepend(out, ExecDeps(env, St(), idx, deps[k..]))
        invariant Context() == old(Context()) && pendingReturn == old(pendingReturn)
      {
        assert deps[k] in deps && deps[k..][0] == deps[k] && deps[k..][1..] == deps[k + 1..];
        NextDep(env, St(), idx, deps[k..], out);
        var one := ExecutePromise(deps[k]);
        if one.None? { return None; }
        out := out + one.value;
      }
      NoMoreDeps(env, St(), idx, out);
      return Some(out);
    }

    /** The undo log put back, first entry first. */
    method Revert(touched: seq<Undo>)
      modifies mock`storage
      ensures mock.storage == Replay(old(mock.storage), touched)
    {
      for i := 0 to |touched|
        invariant Replay(mock.storage, touched[i..]) == Replay(old(mock.storage), touched)
      {
        assert touched[i..][1..] == touched[i + 1..];
        mock.storage := if touched[i].was.Some? then mock.storage[touched[i].key := touched[i].was.value]
                        else mock.storage - {touched[i].key};
      }
    }

    /** Clear the pending return, call, restore it, and resolve the promise the child returned. */
    method RunCall(ghost idx: nat, batch: Batch, action: Action) returns (r: Option<Results>)
      requires Ready(env, St()) && action.FnCall?
      modifies this`dag, this`executed, this`memo, this`promiseResults, this`pendingReturn, this`execCtx,
               this`currentDeposit, this`log, this`calls, mock
      ensures (St(), r) == CallAndResolve(env, old(St()), idx, batch, action, old(promiseResults))
      ensures r.Some? ==> Context() == old(Context()) && pendingReturn == old(pendingReturn)
      decreases env.bound - |dag|, 0, 0, 0
    {
      hide WellFormed, HandlesOk, Execute, Receipts.SubExecute;
      var outerRet := pendingReturn;
      pendingReturn := None;
      var res := SubExecute(idx, batch.account, action.method_, action.args, batch.creator, action.deposit);
      if res.Broken? { return None; }
      var childRet := pendingReturn;
      pendingReturn := outerRet;
      assert [res.result] + [] == [res.result];
      r := Some([res.result]);
      if childRet.Some? {
        var child := ExecutePromise(childRet.value);
        r := if child.None? then None else Some([res.result] + child.value);
      }
    }

    /** One transfer: move the amount and note what was overwritten, or put everything noted back. */
    method MakeTransfer(batch: Batch, amount: Amount, touched: seq<Undo>) returns (ok: bool, more: seq<Undo>)
      modifies mock`storage
      ensures ok <==> amount <= Balance(old(mock.storage), batch.creator)
      ensures ok ==> mock.storage == Transferred(old(mock.storage), batch.creator, batch.account, amount)
      ensures ok ==> more == touched + UndoOf(old(mock.storage), batch.creator, batch.account, amount)
      ensures !ok ==> mock.storage == Replay(old(mock.storage), touched)
    {
      hide Balance, Replay;
      var bal := Balance(mock.storage, batch.creator);
      if bal < amount {
        Revert(touched);
        return false, touched;
      }
      var debitKey, creditKey := BalKey(batch.creator), BalKey(batch.account);
      more := touched + [Undo(debitKey, Get(mock.storage, debitKey))];
      mock.storage := mock.storage[debitKey := ToDec(SatSub(bal, amount))];
      more := more + [Undo(creditKey, Get(mock.storage, creditKey))];
      var rbal := Balance(mock.storage, batch.account);
      mock.storage := mock.storage[creditKey := ToDec(WrapAdd(rbal, amount))];
      ok := true;
    }

    /** The loop over a batch's actions. */
    method RunActions(idx: nat, batch: Batch) returns (r: Option<Results>)
      requires Ready(env, St()) && idx < |dag|
      modifies this`dag, this`executed, this`memo, this`promiseResults, this`pendingReturn, this`execCtx,
               this`currentDeposit, this`log, this`calls, mock
      ensures (St(), r) == ExecActions(env, old(St()), idx, batch, batch.actions, old(promiseResults), [])
      ensures r.Some? ==> Context() == old(Context()) && pendingReturn == old(pendingReturn)
      decreases env.bound - |dag|, idx, 0, 1
    {
      hide WellFormed, HandlesOk, Execute, CallAndResolve, Balance, Replay, Transferred, UndoOf, DepsBelow;
      var out: Results := [];
      var touched: seq<Undo> := [];
      ghost var start := St();
      ghost var results := promiseResults;
      assert batch.actions[0..] == batch.actions && forall rest: Results :: [] + rest == rest;
      for k := 0 to |batch.actions|
        invariant Ready(env, St()) && start.dag <= dag
        invariant ExecActions(env, start, idx, batch, batch.actions, results, [])
          == Prepend(out, ExecActions(env, St(), idx, batch, batch.actions[k..], results, touched))
        invariant Context() == old(Context()) && pendingReturn == old(pendingReturn)
      {
        var action := batch.actions[k];
        assert batch.actions[k..][0] == action && batch.actions[k..][1..] == batch.actions[k + 1..];
        match action
        case FnCall(_, _, _) =>
          CallThenRest(env, St(), idx, batch, batch.actions[k..], results, touched, out);
          var one := RunCall(idx, batch, action);
          if one.None? { return None; }
          out := out + one.value;
        case Transfer(amount) =>
          TransferThenRest(env, St(), idx, batch, batch.actions[k..], results, touched, out);
          var ok;
          ok, touched := MakeTransfer(batch, amount, touched);
          if !ok { return Some(out + [None]); }
          out := out + [Some([])];
      }
      assert out + [] == out;
      return Some(out);
    }

    /** `fresh_tx_state`. */
    method FreshTxState()
      modifies this, mock
      ensures St() == Fresh([], old(mock.storage))
      ensures promiseResults == [] && pendingReturn == None && mock.registers == map[] && mock.returnData == None
      ensures receiptQueue == old(receiptQueue) && deferReceipts == old(deferReceipts)
    {
      mock.returnData, mock.registers := None, map[];
      dag, executed, memo, promiseResults, pendingReturn := [], {}, map[], [], None;
      log, calls := [], [];
    }

    /** Nodes created but in no returned graph still run, least index first; errors are only counted. */
    method DrainOrphans() returns (failures: nat)
      requires Ready(env, St())
      modifies this`dag, this`executed, this`memo, this`promiseResults, this`pendingReturn, this`execCtx,
               this`currentDeposit, this`log, this`calls, mock
      ensures (St(), failures) == Drain(env, old(St()))
    {
      failures := 0;
      ghost var start := St();
      hide WellFormed, DepsBelow, Execute;
      while true
        invariant Ready(env, St())
        invariant Drain(env, start) == (Drain(env, St()).0, failures + Drain(env, St()).1)
        decreases |Pending(env, St())|
      {
        var next := NextOrphan(dag, executed, 0);
        if next.None? { break; }
        ghost var before := St();
        var r := ExecutePromise(next.value);
        PendingShrinks(env, before, St(), next.value);
        if r.None? { failures := failures + 1; }
      }
    }

    /** After a successful entry: queue everything, or resolve the returned promise and drain. */
    method Commit(snapshot: Store) returns (outcome: Outcome)
      requires Ready(env, St()) && (pendingReturn.Some? ==> pendingReturn.value < |dag|)
      requires executed == {} && memo == map[] && log == [] && calls == []
      modifies this, mock
      ensures !deferReceipts
      ensures old(deferReceipts) ==>
        && St() == Fresh([], old(mock.storage))
        && receiptQueue == old(receiptQueue) + old(dag)
        && outcome ==
           Settled(true, false, if old(pendingReturn).Some? then None else NonEmpty(old(mock.returnData)), [], 0)
      ensures !old(deferReceipts) ==>
        && receiptQueue == old(receiptQueue)
        && (St(), outcome) == Resolve(env, old(St()), old(pendingReturn), old(mock.returnData), snapshot)
    {
      var pending := pendingReturn;
      var ok, returnData := true, None;
      if pending.None? && mock.returnData != Some([]) { returnData := mock.returnData; }
      var deferred := deferReceipts;
      deferReceipts := false;
      if deferred {
        receiptQueue := receiptQueue + dag;
        dag := [];
        pendingReturn := None;
        return Settled(true, false, returnData, [], 0);
      }
      var results: Results := [];
      if pending.Some? {
        var r := ExecutePromise(pending.value);
        if r.None? {
          ok := false;
          mock.storage := snapshot;
        } else {
          results := r.value;
          if results != [] && results[|results| - 1].None? { ok := false; }
          var last := LastSome(results);
          if last.Some? && last.value != [] { returnData := last; }
        }
      }
      var failures := DrainOrphans();
      return Settled(ok, false, returnData, results, failures);
    }

    /** `execute_tx`: a snapshot, the entry, the returned chain, the drain; or the refund and full rollback. */
    method ExecuteTx(callee: Account, m: Bytes, args: Bytes, signer: Account, attach: Amount) returns (outcome: Outcome)
      requires WellFormed(env)
      modifies this, mock
      ensures Tx(St(), receiptQueue, outcome)
        == Transact(env, old(mock.storage), old(receiptQueue), callee, m, args, signer, attach, old(deferReceipts))
      ensures outcome.Settled? ==> currentDeposit == None
      ensures deferReceipts == (old(deferReceipts) && !(outcome.Settled? && !outcome.trapped))
    {
      hide WellFormed, HandlesOk, ApplyOps, Own, Stamped, DepsBelow, Resolve, Credited, Uncredited;
      FreshTxState();
      currentDeposit := Some(attach);
      execCtx := Some(ExecCtx(args, signer, signer, callee));
      if callee !in env.deployed { return Refused; }
      CreditAttach(callee, attach);
      var snapshot := mock.storage;
      var out := RunGuest(CallIn(callee, m, args, signer, attach, promiseResults, Own(mock.storage, callee), |dag|));
      EntryHandles(env, EntryCall(old(mock.storage), callee, m, args, signer, attach));
      if !out.Ran? { return Refused; }
      if out.trapped {
        mock.storage := WithoutAttach(snapshot, callee, attach);
        currentDeposit := None;
        return Settled(false, true, None, [], 0);
      }
      assert St() == EntryState(env, snapshot, callee, out);
      outcome := Commit(snapshot);
      currentDeposit := None;
    }

    method CreditAttach(callee: Account, attach: Amount)
      modifies mock`storage
      ensures mock.storage == Credited(old(mock.storage), callee, attach)
    {
      if attach > 0 {
        mock.storage := mock.storage[BalKey(callee) := ToDec(WrapAdd(Balance(mock.storage, callee), attach))];
      }
    }

    method WithoutAttach(snapshot: Store, callee: Account, attach: Amount) returns (snap: Store)
      ensures snap == Uncredited(snapshot, callee, attach)
    {
      snap := snapshot;
      var key := BalKey(callee);
      if attach > 0 && key in snapshot {
        var p := Parse(Trim(snapshot[key]));
        var before := SatSub(if p.Some? then p.value else 0, attach);
        if before > 0 { snap := snap[key := ToDec(before)]; } else { snap := snap - {key}; }
      }
    }

    /**
     * `settle_receipts`: the queue is loaded back through the table of new indices, then delivered, ready nodes first
     * to last, until none is ready.
     */
    method SettleReceipts() returns (report: Report)
      requires WellFormed(env) && DepsBelow(receiptQueue) && |receiptQueue| <= env.bound
      modifies this, mock
      ensures receiptQueue == []
      ensures old(receiptQueue) == [] ==> St() == old(St()) && report == Report(0, [])
      ensures old(receiptQueue) != [] ==> (St(), report) == Settle(env, old(receiptQueue), old(mock.storage))
    {
      var queue := receiptQueue;
      receiptQueue := [];
      if queue == [] { return Report(0, []); }
      LoadQueue(queue);
      report := DeliverReady();
    }

    /** The queue as a fresh graph: each dep goes through the table of new indices. */
    method LoadQueue(queue: seq<Batch>)
      requires DepsBelow(queue)
      modifies this`dag, this`executed, this`memo, this`log, this`calls
      ensures St() == Fresh(queue, old(mock.storage))
    {
      dag, executed, memo := [], {}, map[];
      log, calls := [], [];
      var remap: seq<nat> := [];
      for i := 0 to |queue|
        invariant dag == queue[..i] && |remap| == i && forall j :: 0 <= j < i ==> remap[j] == j
        invariant executed == {} && memo == map[] && log == [] && calls == []
      {
        var deps: seq<nat> := [];
        for k := 0 to |queue[i].deps|
          invariant deps == queue[i].deps[..k]
        {
          assert queue[i].deps[k] in queue[i].deps;
          deps := deps + [remap[queue[i].deps[k]]];
        }
        assert deps == queue[i].deps && queue[..i + 1] == queue[..i] + [queue[i]];
        remap := remap + [|dag|];
        dag := dag + [queue[i].(deps := deps)];
      }
      assert dag == queue;
    }

    /** Ready nodes first to last, until none is ready. */
    method DeliverReady() returns (report: Report)
      requires Ready(env, St())
      modifies this`dag, this`executed, this`memo, this`promiseResults, this`pendingReturn, this`execCtx,
               this`currentDeposit, this`log, this`calls, mock
      ensures (St(), report) == Deliver(env, old(St()), Report(0, []))
    {
      report := Report(0, []);
      ghost var start := St();
      while true
        invariant Ready(env, St())
        invariant Deliver(env, start, Report(0, [])) == Deliver(env, St(), report)
        decreases |Pending(env, St())|
      {
        var next := NextReady(dag, executed, 0);
        if next.None? { break; }
        ghost var before := St();
        var r := ExecutePromise(next.value);
        PendingShrinks(env, before, St(), next.value);
        report := Report(report.delivered + 1, report.results + (if r.Some? then r.value else [None]));
      }
    }
  }
}
