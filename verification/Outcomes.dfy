/** What a transaction and a settlement report: status, data, results and counts, from the final state and the calls. */
module Outcomes {
  import opened Wrappers
  import opened Decimal
  import opened Storage
  import opened Receipts
  import opened OnceOnly
  import opened Delivery
  import opened Transaction
  import opened Retries
  import opened Calls

  // ---- The entry ----

  /**
   * The entry call is given its arguments and the attached deposit, no promise results, and of the credited store
   * exactly the keys that start with the callee's prefix.
   */
  lemma EntryGiven(store: Store, callee: Account, m: Bytes, args: Bytes, signer: Account, attach: Amount)
    ensures var c := EntryCall(store, callee, m, args, signer, attach);
      && c.account == callee && c.predecessor == signer && c.method_ == m && c.args == args && c.deposit == attach
      && c.results == [] && c.base == 0
      && forall k :: Get(c.own, k) ==
           if !(PrefixedKey(callee, []) <= k) then None
           else if k == BalKey(callee) && attach > 0 then Some(ToDec(WrapAdd(Balance(store, callee), attach)))
           else Get(store, k)
  {
    hide ToDec, Parse;
  }

  /** An own key reads as the last operation on it left it, or as before. */
  predicate LeftByOps(before: Store, after: Store, acct: Account, ops: seq<StoreOp>, raw: Bytes) {
    var last := LastOn(ops, raw);
    Get(after, PrefixedKey(acct, raw)) ==
      if last.None? then Get(before, PrefixedKey(acct, raw))
      else if last.value.Write? then Some(last.value.value) else None
  }

  lemma OpsLeave(before: Store, acct: Account, ops: seq<StoreOp>, raw: Bytes)
    ensures LeftByOps(before, ApplyOps(before, acct, ops), acct, ops, raw)
  {
    OpsLastWins(before, acct, ops, raw);
  }

  /** What the entry leaves: its batches, created by the callee, and each own key as its last operation left it. */
  ghost predicate EntryLeaves(store: Store, callee: Account, attach: Amount, out: CallOut, dag: seq<Batch>,
                              after: Store)
    requires out.Ran?
  {
    && |dag| == |out.appended|
    && (forall k :: 0 <= k < |dag| ==>
          dag[k].deps == out.appended[k].deps && dag[k].account == out.appended[k].account
            && dag[k].actions == out.appended[k].actions && dag[k].creator == callee)
    && (forall raw :: LeftByOps(Credited(store, callee, attach), after, callee, out.ops, raw))
    && (forall k :: !(PrefixedKey(callee, []) <= k) ==> Get(after, k) == Get(store, k))
  }

  lemma EntryStateLeaves(env: Env, store: Store, callee: Account, attach: Amount, out: CallOut)
    requires WellFormed(env) && out.Ran? && HandlesOk(0, out, env.bound)
    ensures var s := EntryState(env, Credited(store, callee, attach), callee, out);
      EntryLeaves(store, callee, attach, out, s.dag, s.store) && s == Fresh(s.dag, s.store)
  {
    hide WellFormed, ApplyOps, LeftByOps, Credited, Get, PrefixedKey;
    var credited := Credited(store, callee, attach);
    var after := ApplyOps(credited, callee, out.ops);
    forall raw ensures LeftByOps(credited, after, callee, out.ops, raw) { OpsLeave(credited, callee, out.ops, raw); }
    forall k | !(PrefixedKey(callee, []) <= k) ensures Get(after, k) == Get(store, k) {
      OthersUntouched(store, callee, attach, out.ops, k);
    }
  }

  lemma OthersUntouched(store: Store, callee: Account, attach: Amount, ops: seq<StoreOp>, k: Bytes)
    requires !(PrefixedKey(callee, []) <= k)
    ensures Get(ApplyOps(Credited(store, callee, attach), callee, ops), k) == Get(store, k)
  {
    hide ToDec, Parse, ApplyOps;
    OpsConfined(Credited(store, callee, attach), callee, ops, k);
    assert BalKey(callee) == PrefixedKey(callee, []) + BALANCE;
  }

  /**
   * A transaction is refused exactly when its callee is unknown, cannot be started or has no such method. It is trapped
   * exactly when its entry traps, and then nothing but the failure is reported.
   */
  lemma OutcomeKinds(env: Env, store: Store, queue: seq<Batch>, callee: Account, m: Bytes, args: Bytes,
                     signer: Account, attach: Amount, defer: bool)
    requires WellFormed(env)
    ensures var out := env.run(EntryCall(store, callee, m, args, signer, attach));
      var o := Transact(env, store, queue, callee, m, args, signer, attach, defer).outcome;
      && (o.Refused? <==> callee !in env.deployed || out.Infra? || out.NoMethod?)
      && (o.Settled? && o.trapped <==> callee in env.deployed && out.Ran? && out.trapped)
      && (o.Settled? && o.trapped ==> !o.ok && o.returnData == None && o.results == [] && o.orphanFailures == 0)
  {
    hide Execute, Drain, Own, Uncredited, Credited, EntryState, Stamped;
  }

  /**
   * Deferred, the entry's effects are committed and its batches queued behind those already there; nothing runs. The
   * transaction succeeds, with the entry's data unless it returned a promise.
   */
  lemma DeferredOutcome(env: Env, store: Store, queue: seq<Batch>, callee: Account, m: Bytes, args: Bytes,
                        signer: Account, attach: Amount)
    requires WellFormed(env) && callee in env.deployed
    requires var out := env.run(EntryCall(store, callee, m, args, signer, attach)); out.Ran? && !out.trapped
    ensures var out := env.run(EntryCall(store, callee, m, args, signer, attach));
      var tx := Transact(env, store, queue, callee, m, args, signer, attach, true);
      && tx.s == Fresh([], tx.s.store) && queue <= tx.queue
      && EntryLeaves(store, callee, attach, out, tx.queue[|queue|..], tx.s.store)
      && tx.outcome.Settled? && tx.outcome.ok && !tx.outcome.trapped
      && tx.outcome.results == [] && tx.outcome.orphanFailures == 0
      && forall d :: tx.outcome.returnData == Some(d) <==> out.ret.None? && out.data == Some(d) && d != []
  {
    hide Own, Credited, ApplyOps, EntryLeaves;
    var out := env.run(EntryCall(store, callee, m, args, signer, attach));
    assert HandlesOk(0, out, env.bound);
    EntryStateLeaves(env, store, callee, attach, out);
    var s := EntryState(env, Credited(store, callee, attach), callee, out);
    assert (queue + s.dag)[|queue|..] == s.dag;
  }

  /** Without a promise the transaction succeeds with the entry's data, and everything queued still runs. */
  lemma PlainOutcome(env: Env, store: Store, queue: seq<Batch>, callee: Account, m: Bytes, args: Bytes,
                     signer: Account, attach: Amount)
    requires WellFormed(env) && callee in env.deployed
    requires var out := env.run(EntryCall(store, callee, m, args, signer, attach));
      out.Ran? && !out.trapped && out.ret.None?
    ensures var out := env.run(EntryCall(store, callee, m, args, signer, attach));
      var tx := Transact(env, store, queue, callee, m, args, signer, attach, false);
      && tx.queue == queue && tx.outcome.Settled? && tx.outcome.ok && !tx.outcome.trapped && tx.outcome.results == []
      && (forall d :: tx.outcome.returnData == Some(d) <==> out.data == Some(d) && d != [])
      && exists s :: Ready(env, s) && s == Fresh(s.dag, s.store)
           && EntryLeaves(store, callee, attach, out, s.dag, s.store)
           && (tx.s, tx.outcome.orphanFailures) == Drain(env, s)
    ensures var tx := Transact(env, store, queue, callee, m, args, signer, attach, false);
      tx.outcome.Settled? && (tx.outcome.orphanFailures == 0 <==> forall i :: Aborted(i) !in tx.s.log)
  {
    hide Own, Credited, ApplyOps, EntryLeaves, Drain, Sound;
    var out := env.run(EntryCall(store, callee, m, args, signer, attach));
    assert HandlesOk(0, out, env.bound);
    EntryStateLeaves(env, store, callee, attach, out);
    var s := EntryState(env, Credited(store, callee, attach), callee, out);
    FreshSound(env, s.dag, s.store);
    DrainReport(env, s);
    NoErrorsAtAll(s, Drain(env, s).0);
  }

  // ---- The returned chain ----

  /** d is what the last slot with data holds. */
  ghost predicate LastData(results: Results, d: Bytes) {
    exists k :: 0 <= k < |results| && results[k] == Some(d) && forall j :: k < j < |results| ==> results[j] == None
  }

  lemma {:induction false} LastSomeIsLast(results: Results, d: Bytes)
    ensures LastSome(results) == Some(d) <==> LastData(results, d)
  {
    if results != [] {
      var n := |results| - 1;
      if results[n].None? {
        LastSomeIsLast(results[..n], d);
        if LastData(results[..n], d) {
          var k :| 0 <= k < n && results[..n][k] == Some(d) && forall j :: k < j < n ==> results[..n][j] == None;
          assert forall j :: k < j < |results| ==> results[j] == if j < n then results[..n][j] else None;
        }
        if LastData(results, d) {
          var k :| 0 <= k < |results| && results[k] == Some(d) && forall j :: k < j < |results| ==> results[j] == None;
          assert results[..n][k] == Some(d);
          assert forall j :: k < j < n ==> results[..n][j] == results[j];
        }
      }
    }
  }

  /** A transaction whose entry returned a promise, and whose chain met no infrastructure error. */
  ghost predicate ChainEnds(env: Env, store: Store, callee: Account, m: Bytes, args: Bytes, signer: Account,
                            attach: Amount)
    requires WellFormed(env)
  {
    && callee in env.deployed
    && var out := env.run(EntryCall(store, callee, m, args, signer, attach));
       && out.Ran? && !out.trapped && HandlesOk(0, out, env.bound) && out.ret.Some?
       && Execute(env, EntryState(env, Credited(store, callee, attach), callee, out), out.ret.value).1.Some?
  }

  /**
   * The results of such a transaction are those recorded for the returned node. It succeeds exactly when there are none
   * or the last one succeeded, and returns the data of the last success, unless that is empty.
   */
  lemma ChainOutcome(env: Env, store: Store, queue: seq<Batch>, callee: Account, m: Bytes, args: Bytes,
                     signer: Account, attach: Amount)
    requires WellFormed(env) && ChainEnds(env, store, callee, m, args, signer, attach)
    ensures var root := env.run(EntryCall(store, callee, m, args, signer, attach)).ret.value;
      var tx := Transact(env, store, queue, callee, m, args, signer, attach, false);
      && tx.queue == queue && root < |tx.s.dag| && root in tx.s.memo
      && tx.outcome.Settled? && !tx.outcome.trapped && tx.outcome.results == tx.s.memo[root]
      && var results := tx.s.memo[root];
         && (tx.outcome.ok <==> results == [] || results[|results| - 1].Some?)
         && forall d :: tx.outcome.returnData == Some(d) <==> d != [] && LastData(results, d)
    ensures var tx := Transact(env, store, queue, callee, m, args, signer, attach, false);
      tx.outcome.orphanFailures == 0 <==> forall i :: Aborted(i) !in tx.s.log
  {
    hide Drain, Execute, Own, Credited, ApplyOps, Sound, LastData, LastSome, Uncredited, NoErrors;
    var out := env.run(EntryCall(store, callee, m, args, signer, attach));
    var s := EntryState(env, Credited(store, callee, attach), callee, out);
    var root := out.ret.value;
    FreshSound(env, s.dag, s.store);
    RootRecorded(env, s, root);
    var results := Execute(env, s, root).1.value;
    forall d ensures LastSome(results) == Some(d) <==> LastData(results, d) { LastSomeIsLast(results, d); }
    var t := Execute(env, s, root).0;
    TurnTraced(env, s, root);
    DrainReport(env, t);
    ErrorsBehind(s, t, Drain(env, t).0);
    NoErrorsAtAll(s, Drain(env, t).0);
  }

  lemma RootRecorded(env: Env, s: State, root: nat)
    requires Sound(env, s, {}) && root < |s.dag|
    ensures Ready(env, s)
    ensures var (t, out) := Execute(env, s, root);
      out.Some? ==>
        && root in t.memo && t.memo[root] == out.value
        && var u := Drain(env, t).0; s.dag <= u.dag && root in u.memo && u.memo[root] == out.value
  {
    SoundReady(env, s, {});
    hide WellFormed, Sound, Execute, Drain;
    ClearFresh(s.dag, root, {}, 0);
    ExecuteKeeps(env, s, root, {});
    DrainKeeps(env, Execute(env, s, root).0);
  }

  /**
   * When the returned node is a single call: its results are the call's own and then those of the promise the call
   * returned. A failing call without a promise fails the transaction, one that returns data succeeds with it.
   */
  lemma SingleCallOutcome(env: Env, store: Store, queue: seq<Batch>, callee: Account, m: Bytes, args: Bytes,
                          signer: Account, attach: Amount)
    requires WellFormed(env) && ChainEnds(env, store, callee, m, args, signer, attach)
    requires var out := env.run(EntryCall(store, callee, m, args, signer, attach));
      var b := out.appended[out.ret.value];
      && out.ret.value !in env.forced && b.account != [] && b.account in env.deployed
      && |b.actions| == 1 && b.actions[0].FnCall?
    ensures var entry := env.run(EntryCall(store, callee, m, args, signer, attach));
      var (root, b) := (entry.ret.value, entry.appended[entry.ret.value]);
      var tx := Transact(env, store, queue, callee, m, args, signer, attach, false);
      var calls := CallsOf(tx.s.calls, root);
      && calls != [] && tx.outcome.Settled?
      && var c := calls[|calls| - 1];
         var out := env.run(c);
         && b.actions[0] == FnCall(c.method_, c.args, c.deposit) && !out.Infra?
         && (Isolation.Failed(out) && (out.Ran? ==> out.ret.None?) ==>
               tx.outcome.results == [None] && !tx.outcome.ok && tx.outcome.returnData == None)
         && (!Isolation.Failed(out) && out.ret.None? ==>
               var data := if out.data.Some? then out.data.value else [];
               && tx.outcome.results == [Some(data)] && tx.outcome.ok
               && tx.outcome.returnData == if data == [] then None else Some(data))
  {
    hide Drain, Execute, Own, Credited, ApplyOps, Uncredited, CallsOf, Made, Resolve;
    var entry := env.run(EntryCall(store, callee, m, args, signer, attach));
    assert HandlesOk(0, entry, env.bound);
    var root := entry.ret.value;
    ChainOutcome(env, store, queue, callee, m, args, signer, attach);
    TransactionCalls(env, store, queue, callee, m, args, signer, attach);
    var tx := Transact(env, store, queue, callee, m, args, signer, attach, false);
    RootBatch(env, store, queue, callee, m, args, signer, attach);
    var n: nat :| MadeFrom(env, tx.s, root, tx.s.memo[root], n);
    var calls := CallsOf(tx.s.calls, root);
    OneCall(env, tx.s.memo, tx.s.dag[root].account, tx.s.dag[root].actions, calls[n..], tx.s.memo[root]);
  }

  lemma RootBatch(env: Env, store: Store, queue: seq<Batch>, callee: Account, m: Bytes, args: Bytes,
                  signer: Account, attach: Amount)
    requires WellFormed(env) && ChainEnds(env, store, callee, m, args, signer, attach)
    ensures var entry := env.run(EntryCall(store, callee, m, args, signer, attach));
      var (root, b) := (entry.ret.value, entry.appended[entry.ret.value]);
      var s := Transact(env, store, queue, callee, m, args, signer, attach, false).s;
      root < |s.dag| && s.dag[root].account == b.account && s.dag[root].actions == b.actions
  {
    hide Drain, Execute, Own, Credited, ApplyOps, Uncredited;
    var out := env.run(EntryCall(store, callee, m, args, signer, attach));
    var s := EntryState(env, Credited(store, callee, attach), callee, out);
    assert s.dag <= Execute(env, s, out.ret.value).0.dag;
  }

  /** Results made of one call. */
  lemma OneCall(env: Env, memo: map<nat, Results>, account: Account, actions: seq<Action>, calls: seq<CallIn>,
                r: Results)
    requires Made(env, memo, account, actions, calls, r)
    requires |actions| == 1 && actions[0].FnCall? && account in env.deployed
    ensures |calls| == 1 && actions[0] == FnCall(calls[0].method_, calls[0].args, calls[0].deposit)
    ensures var out := env.run(calls[0]);
      && !out.Infra?
      && ((out.Ran? ==> out.ret.None?) ==>
            r == [if Isolation.Failed(out) then None else Some(if out.data.Some? then out.data.value else [])])
  {
    var out := env.run(calls[0]);
    var ret := if out.Ran? then out.ret else None;
    var child := if ret.Some? then memo[ret.value] else [];
    assert Made(env, memo, account, [], calls[1..], r[1 + |child|..]);
    assert calls[1..] == [];
  }

  // ---- Draining and delivering ----

  /** The events a run adds hold no error. */
  predicate NoErrors(s: State, t: State) {
    forall p :: |s.log| <= p < |t.log| ==> !t.log[p].Aborted?
  }

  lemma NoErrorsAtAll(s: State, t: State)
    requires s.log == []
    ensures NoErrors(s, t) <==> forall i :: Aborted(i) !in t.log
  {
    if !NoErrors(s, t) {
      var p :| 0 <= p < |t.log| && t.log[p].Aborted?;
      assert Aborted(t.log[p].idx) in t.log;
    }
  }

  lemma ErrorsBehind(s: State, t: State, u: State)
    requires s.log <= t.log <= u.log && NoErrors(s, t)
    ensures NoErrors(s, u) <==> NoErrors(t, u)
  {
    if NoErrors(t, u) { NoErrorsTrans(s, t, u); }
  }

  lemma NoErrorsTrans(s: State, t: State, u: State)
    requires s.log <= t.log <= u.log && NoErrors(s, t) && NoErrors(t, u)
    ensures NoErrors(s, u)
  {
    assert forall p :: |s.log| <= p < |t.log| ==> u.log[p] == t.log[p];
  }

  /** An execution adds no error event, or ends in one of its own. */
  lemma {:induction false} ExecuteErrors(env: Env, s: State, idx: nat)
    requires Ready(env, s) && idx < |s.dag|
    ensures var (t, out) := Execute(env, s, idx);
      if out.Some? then NoErrors(s, t) else |t.log| > |s.log| && t.log[|t.log| - 1] == Aborted(idx)
    decreases env.bound - |s.dag|, idx, 3, 0
  {
    hide WellFormed, DepsBelow, Uncached;
    if idx !in s.memo {
      UncachedErrors(env, s, idx);
    }
  }

  lemma {:induction false} UncachedErrors(env: Env, s: State, idx: nat)
    requires Ready(env, s) && idx < |s.dag|
    ensures Uncached(env, s, idx).1.Some? ==> NoErrors(s, Uncached(env, s, idx).0)
    decreases env.bound - |s.dag|, idx, 2, 0
  {
    hide WellFormed, HandlesOk, ExecDeps, ExecActions;
    var b := s.dag[idx];
    var marked := s.(executed := s.executed + {idx});
    DepsErrors(env, marked, idx, b.deps);
    var (t, deps) := ExecDeps(env, marked, idx, b.deps);
    if deps.Some? && idx !in env.forced && b.account != [] {
      var running := t.(log := t.log + [Run(idx)]);
      ActionsErrors(env, running, idx, b, b.actions, deps.value, []);
      NoErrorsTrans(marked, t, running);
      if Uncached(env, s, idx).1.Some? {
        NoErrorsTrans(marked, running, Uncached(env, s, idx).0);
      }
    }
  }

  lemma {:induction false} DepsErrors(env: Env, s: State, idx: nat, deps: seq<nat>)
    requires Ready(env, s) && idx < |s.dag| && forall d :: d in deps ==> d < idx
    ensures ExecDeps(env, s, idx, deps).1.Some? ==> NoErrors(s, ExecDeps(env, s, idx, deps).0)
    decreases env.bound - |s.dag|, idx, 1, |deps|
  {
    hide WellFormed, DepsBelow, Execute;
    if deps != [] {
      assert deps[0] in deps && forall d :: d in deps[1..] ==> d in deps;
      ExecuteErrors(env, s, deps[0]);
      var (t, first) := Execute(env, s, deps[0]);
      if first.Some? {
        DepsErrors(env, t, idx, deps[1..]);
        if ExecDeps(env, t, idx, deps[1..]).1.Some? {
          NoErrorsTrans(s, t, ExecDeps(env, t, idx, deps[1..]).0);
        }
      }
    }
  }

  lemma {:induction false} ActionsErrors(env: Env, s: State, idx: nat, b: Batch, actions: seq<Action>,
                                         results: Results, touched: seq<Undo>)
    requires Ready(env, s) && idx < |s.dag|
    ensures var (t, out) := ExecActions(env, s, idx, b, actions, results, touched);
      out.Some? ==> NoErrors(s, t)
    decreases env.bound - |s.dag|, idx, 0, |actions|
  {
    hide WellFormed, HandlesOk, Execute, SubExecute, DepsBelow, Balance, Transferred, UndoOf, Replay;
    if actions == [] {
    } else if actions[0].FnCall? {
      var a := actions[0];
      var (t, res) := SubExecute(env, s, idx, b.account, a.method_, a.args, b.creator, a.deposit, results);
      if res.Finished? {
        var (u, child) := if res.handle.Some? then Execute(env, t, res.handle.value) else (t, Some([]));
        if res.handle.Some? { ExecuteErrors(env, t, res.handle.value); }
        if child.Some? {
          ActionsErrors(env, u, idx, b, actions[1..], results, touched);
          var (v, rest) := ExecActions(env, u, idx, b, actions[1..], results, touched);
          if rest.Some? { NoErrorsTrans(t, u, v); }
        }
      }
    } else if Balance(s.store, b.creator) >= actions[0].amount {
      var t := s.(store := Transferred(s.store, b.creator, b.account, actions[0].amount));
      ActionsErrors(env, t, idx, b, actions[1..], results,
        touched + UndoOf(s.store, b.creator, b.account, actions[0].amount));
    }
  }

  /** One turn of a delivery loop: a node, and its results unless an error ended it. */
  datatype Turn = Turn(node: nat, results: Option<Results>)

  /**
   * The turns of a loop that leads from s to t: the nodes rise and were not marked; each has its recorded results, or
   * an error of its own in the log; without a failed turn there is no error at all.
   */
  ghost predicate Turns(s: State, t: State, turns: seq<Turn>) {
    && (forall i, j :: 0 <= i < j < |turns| ==> turns[i].node < turns[j].node)
    && (forall k :: 0 <= k < |turns| ==> TurnTaken(s, t, turns[k]))
    && ((forall k :: 0 <= k < |turns| ==> turns[k].results.Some?) ==> NoErrors(s, t))
  }

  predicate TurnTaken(s: State, t: State, turn: Turn) {
    && turn.node !in s.executed && turn.node < |t.dag|
    && if turn.results.Some? then turn.node in t.memo && t.memo[turn.node] == turn.results.value
       else exists p :: |s.log| <= p < |t.log| && t.log[p] == Aborted(turn.node)
  }

  /** How many turns failed. */
  function FailedTurns(turns: seq<Turn>): nat {
    if turns == [] then 0 else (if turns[0].results.None? then 1 else 0) + FailedTurns(turns[1..])
  }

  /** The results of all turns in order, a failed one counting as one failed receipt. */
  function TurnResults(turns: seq<Turn>): Results {
    if turns == [] then []
    else (if turns[0].results.Some? then turns[0].results.value else [None]) + TurnResults(turns[1..])
  }

  predicate LeastUnmarked(s: State, i: nat) {
    i !in s.executed && forall j :: 0 <= j < i ==> j in s.executed
  }

  lemma FirstTurn(env: Env, s: State, u: State, t: State, turn: Turn, rest: seq<Turn>)
    requires Grows(env, s, u) && Grows(env, u, t) && MemoKept(u, t) && Turns(u, t, rest)
    requires LeastUnmarked(s, turn.node) && turn.node in u.executed && turn.node < |u.dag|
    requires if turn.results.Some? then NoErrors(s, u) && turn.node in u.memo && u.memo[turn.node] == turn.results.value
             else |u.log| > |s.log| && u.log[|u.log| - 1] == Aborted(turn.node)
    ensures Turns(s, t, [turn] + rest)
  {
    hide Ready;
    var turns := [turn] + rest;
    if turn.results.None? {
      assert t.log[|u.log| - 1] == u.log[|u.log| - 1] == Aborted(turn.node);
    }
    forall k | 0 <= k < |turns| ensures TurnTaken(s, t, turns[k]) {
      if k > 0 { assert TurnTaken(u, t, rest[k - 1]); }
    }
    forall i, j | 0 <= i < j < |turns| ensures turns[i].node < turns[j].node {
      assert TurnTaken(u, t, rest[j - 1]);
      assert i > 0 ==> rest[i - 1].node < rest[j - 1].node;
    }
    if forall k :: 0 <= k < |turns| ==> turns[k].results.Some? {
      assert turns[0] == turn;
      forall k | 0 <= k < |rest| ensures rest[k].results.Some? { assert turns[k + 1] == rest[k]; }
      NoErrorsTrans(s, u, t);
    }
  }

  lemma OneMoreTurn(turn: Turn, rest: seq<Turn>)
    ensures FailedTurns([turn] + rest) == FailedTurns(rest) + if turn.results.None? then 1 else 0
    ensures TurnResults([turn] + rest) ==
              (if turn.results.Some? then turn.results.value else [None]) + TurnResults(rest)
  {
    assert ([turn] + rest)[1..] == rest;
  }

  /** A node executed in its turn. */
  lemma TurnTraced(env: Env, s: State, i: nat)
    requires Sound(env, s, {}) && i < |s.dag|
    ensures Ready(env, s)
    ensures var (t, out) := Execute(env, s, i);
      && Sound(env, t, {}) && Grows(env, s, t) && i in t.executed && i < |t.dag|
      && if out.Some? then NoErrors(s, t) && i in t.memo && t.memo[i] == out.value
         else |t.log| > |s.log| && t.log[|t.log| - 1] == Aborted(i)
  {
    SoundReady(env, s, {});
    hide WellFormed, Sound, Execute;
    ClearFresh(s.dag, i, {}, 0);
    ExecuteKeeps(env, s, i, {});
    ExecuteErrors(env, s, i);
  }

  lemma DrainUnfold(env: Env, s: State)
    requires Ready(env, s)
    ensures match NextOrphan(s.dag, s.executed, 0)
      case None => Drain(env, s) == (s, 0)
      case Some(i) =>
        var (t, out) := Execute(env, s, i);
        var (u, failures) := Drain(env, t);
        && i < |s.dag| && LeastUnmarked(s, i) && |Pending(env, t)| < |Pending(env, s)|
        && Drain(env, s) == (u, failures + if out.None? then 1 else 0)
  {
    hide WellFormed, Execute, DepsBelow, Pending;
    var next := NextOrphan(s.dag, s.executed, 0);
    if next.Some? {
      PendingShrinks(env, s, Execute(env, s, next.value).0, next.value);
    }
  }

  /** The drain counts its failed turns. */
  lemma {:induction false} DrainTurns(env: Env, s: State) returns (turns: seq<Turn>)
    requires Sound(env, s, {})
    ensures Ready(env, s) && Turns(s, Drain(env, s).0, turns) && Drain(env, s).1 == FailedTurns(turns)
    decreases |Pending(env, s)|
  {
    SoundReady(env, s, {});
    hide *;
    turns := [];
    DrainUnfold(env, s);
    NoTurnsTaken(s);
    var next := NextOrphan(s.dag, s.executed, 0);
    if next.Some? {
      var i := next.value;
      TurnTraced(env, s, i);
      var rest := DrainTurns(env, Execute(env, s, i).0);
      DrainTurn(env, s, i, rest);
      turns := [Turn(i, Execute(env, s, i).1)] + rest;
    }
  }

  lemma DrainMemo(env: Env, s: State)
    requires Sound(env, s, {})
    ensures Ready(env, s) && MemoKept(s, Drain(env, s).0)
  {
    SoundReady(env, s, {});
    hide Sound;
    DrainKeeps(env, s);
  }

  lemma DrainTurn(env: Env, s: State, i: nat, rest: seq<Turn>)
    requires Sound(env, s, {}) && i < |s.dag| && LeastUnmarked(s, i) && Ready(env, s)
    requires var t := Execute(env, s, i).0;
      Turns(t, Drain(env, t).0, rest) && Drain(env, t).1 == FailedTurns(rest)
    ensures var (t, out) := Execute(env, s, i);
      var turns := [Turn(i, out)] + rest;
      Turns(s, Drain(env, t).0, turns) && FailedTurns(turns) == FailedTurns(rest) + if out.None? then 1 else 0
  {
    hide *;
    TurnTraced(env, s, i);
    var (t, out) := Execute(env, s, i);
    DrainMemo(env, t);
    FirstTurn(env, s, t, Drain(env, t).0, Turn(i, out), rest);
    OneMoreTurn(Turn(i, out), rest);
  }

  lemma NoTurnsTaken(s: State)
    ensures Turns(s, s, []) && FailedTurns([]) == 0 && TurnResults([]) == []
  {}

  lemma DeliverUnfold(env: Env, s: State, report: Report)
    requires Ready(env, s)
    ensures match NextOrphan(s.dag, s.executed, 0)
      case None => Deliver(env, s, report) == (s, report)
      case Some(i) =>
        var (t, out) := Execute(env, s, i);
        && i < |s.dag| && LeastUnmarked(s, i) && |Pending(env, t)| < |Pending(env, s)|
        && Deliver(env, s, report) == Deliver(env, t, Report(
             report.delivered + 1, report.results + (if out.Some? then out.value else [None])))
  {
    hide WellFormed, Execute, Pending;
    NextReadyIsNextOrphan(s, 0);
    var next := NextReady(s.dag, s.executed, 0);
    if next.Some? {
      PendingShrinks(env, s, Execute(env, s, next.value).0, next.value);
    }
  }

  /** The least unmarked node is next: k of the first n, when exactly those below k are marked. */
  predicate MarkedBelow(s: State, k: nat, n: nat) {
    k <= n <= |s.dag| && forall i :: 0 <= i < n ==> (i in s.executed <==> i < k)
  }

  /**
   * The delivery reports one more receipt for each turn and the results of all turns in order; of a queue of n batches
   * of which the first k have been delivered, the others are delivered one after the other before anything else.
   */
  lemma {:induction false} DeliverTurns(env: Env, s: State, report: Report, k: nat, n: nat) returns (turns: seq<Turn>)
    requires Sound(env, s, {}) && MarkedBelow(s, k, n)
    ensures Ready(env, s)
    ensures var (t, r) := Deliver(env, s, report);
      && Turns(s, t, turns) && r.delivered == report.delivered + |turns|
      && r.results == report.results + TurnResults(turns)
    ensures |turns| >= n - k && forall j :: 0 <= j < n - k ==> turns[j].node == k + j
    decreases |Pending(env, s)|
  {
    SoundReady(env, s, {});
    hide *;
    turns := [];
    DeliverUnfold(env, s, report);
    NoTurnsTaken(s);
    NextInQueue(s, k, n);
    var next := NextOrphan(s.dag, s.executed, 0);
    if next.Some? {
      var i := next.value;
      TurnTraced(env, s, i);
      OneMarked(env, s, i, k, n);
      var (t, out) := Execute(env, s, i);
      var more := Report(report.delivered + 1, report.results + (if out.Some? then out.value else [None]));
      var rest := DeliverTurns(env, t, more, if k < n then k + 1 else k, n);
      DeliverTurn(env, s, i, more, rest);
      TurnAdded(report, Turn(i, out), rest, Deliver(env, t, more).1, k, n);
      turns := [Turn(i, out)] + rest;
    }
  }

  lemma DeliverTurn(env: Env, s: State, i: nat, more: Report, rest: seq<Turn>)
    requires Sound(env, s, {}) && i < |s.dag| && LeastUnmarked(s, i) && Ready(env, s)
    requires var t := Execute(env, s, i).0; Turns(t, Deliver(env, t, more).0, rest)
    ensures var (t, out) := Execute(env, s, i); Turns(s, Deliver(env, t, more).0, [Turn(i, out)] + rest)
  {
    hide *;
    TurnTraced(env, s, i);
    var (t, out) := Execute(env, s, i);
    SoundReady(env, t, {});
    DeliverKeeps(env, t, more);
    FirstTurn(env, s, t, Deliver(env, t, more).0, Turn(i, out), rest);
  }

  /** A further turn in front of the others. */
  lemma TurnAdded(report: Report, turn: Turn, rest: seq<Turn>, end: Report, k: nat, n: nat)
    requires end.delivered == report.delivered + 1 + |rest|
    requires end.results ==
      report.results + (if turn.results.Some? then turn.results.value else [None]) + TurnResults(rest)
    requires var k' := if k < n then k + 1 else k;
      k <= n && |rest| >= n - k' && forall j :: 0 <= j < n - k' ==> rest[j].node == k' + j
    requires k < n ==> turn.node == k
    ensures var turns := [turn] + rest;
      && end.delivered == report.delivered + |turns| && end.results == report.results + TurnResults(turns)
      && |turns| >= n - k && forall j :: 0 <= j < n - k ==> turns[j].node == k + j
  {
    OneMoreTurn(turn, rest);
    var turns := [turn] + rest;
    forall j | 0 <= j < n - k ensures turns[j].node == k + j {
      assert j > 0 ==> turns[j] == rest[j - 1];
    }
  }

  lemma NextInQueue(s: State, k: nat, n: nat)
    requires MarkedBelow(s, k, n)
    ensures k <= n && match NextOrphan(s.dag, s.executed, 0)
      case None => k == n
      case Some(i) => k < n ==> i == k
  {
    assert k < n ==> k !in s.executed;
  }

  lemma DeliverKeeps(env: Env, s: State, report: Report)
    requires Sound(env, s, {}) && Ready(env, s)
    ensures MemoKept(s, Deliver(env, s, report).0)
  {
    hide *;
    DeliverIsDrain(env, s, report);
    DrainMemo(env, s);
  }

  /** Delivering the least unmarked node of the queue marks no other one. */
  lemma OneMarked(env: Env, s: State, i: nat, k: nat, n: nat)
    requires Ready(env, s) && MarkedBelow(s, k, n) && NextOrphan(s.dag, s.executed, 0) == Some(i)
    ensures k < n ==> i == k
    ensures MarkedBelow(Execute(env, s, i).0, if k < n then k + 1 else k, n)
  {
    hide WellFormed, Execute;
    if k < n {
      assert k !in s.executed;
      assert i == k;
    }
    ExecuteMarks(env, s, 0, i);
    var t := Execute(env, s, i).0;
    assert i in t.executed && s.executed <= t.executed;
  }

  /**
   * What settling a queue reports: its batches are delivered in their order, then whatever else their calls queued; one
   * receipt is counted for each, with the results recorded for it, or a failed one for an error.
   */
  lemma SettleReport(env: Env, queue: seq<Batch>, store: Store)
    requires Ready(env, Fresh(queue, store))
    ensures var (t, report) := Settle(env, queue, store);
      exists turns: seq<Turn> ::
        && Turns(Fresh(queue, store), t, turns)
        && report.delivered == |turns| && report.results == TurnResults(turns)
        && |turns| >= |queue| && forall k :: 0 <= k < |queue| ==> turns[k].node == k
  {
    hide WellFormed, Sound, Turns, Deliver, DepsBelow;
    var s := Fresh(queue, store);
    FreshSound(env, queue, store);
    if queue == [] {
      NoTurnsTaken(s);
    } else {
      var turns := DeliverTurns(env, s, Report(0, []), 0, |queue|);
      assert [] + TurnResults(turns) == TurnResults(turns);
    }
  }

  /**
   * What the drain counts: the nodes the returned chain left are executed in rising order, and those whose execution
   * ended in an error are counted. None is counted exactly when no error at all was met.
   */
  lemma DrainReport(env: Env, s: State)
    requires Sound(env, s, {})
    ensures Ready(env, s)
    ensures var (t, failures) := Drain(env, s);
      && (exists turns: seq<Turn> :: Turns(s, t, turns) && failures == FailedTurns(turns))
      && (failures == 0 <==> NoErrors(s, t))
  {
    var turns := DrainTurns(env, s);
    hide Drain, Sound;
    FailedSome(turns);
    var t := Drain(env, s).0;
    forall k | 0 <= k < |turns| ensures TurnTaken(s, t, turns[k]) {}
  }

  lemma {:induction false} FailedSome(turns: seq<Turn>)
    ensures FailedTurns(turns) == 0 <==> forall k :: 0 <= k < |turns| ==> turns[k].results.Some?
  {
    if turns != [] {
      FailedSome(turns[1..]);
      assert forall k :: 0 < k < |turns| ==> turns[k] == turns[1..][k - 1];
      assert forall k :: 0 <= k < |turns| - 1 ==> turns[1..][k] == turns[k + 1];
    }
  }
}
