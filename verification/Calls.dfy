/**
 * What each contract call of a run is given, and what a node's results are made of: the calls are recorded as they are
 * made, whatever fails around them.
 */
module Calls {
  import opened Wrappers
  import opened Storage
  import opened Receipts
  import opened OnceOnly
  import opened Delivery
  import opened Transaction
  import opened Retries
  import Isolation

  // ---- One call ----

  /**
   * A call to a deployed contract is recorded with its node; it is given its own arguments, the published results, the
   * next free handle, and of the store with the deposit paid exactly the keys that start with its prefix.
   */
  lemma CallGiven(env: Env, s: State, node: nat, account: Account, m: Bytes, args: Bytes, predecessor: Account,
                  deposit: Amount, results: Results)
    requires Ready(env, s) && account in env.deployed
    ensures var t := SubExecute(env, s, node, account, m, args, predecessor, deposit, results).0;
      && |t.calls| == |s.calls| + 1 && s.calls <= t.calls
      && var (i, c) := (t.calls[|s.calls|].node, t.calls[|s.calls|].call);
         && i == node && c.account == account && c.method_ == m && c.args == args && c.predecessor == predecessor
         && c.deposit == deposit && c.results == results && c.base == |s.dag|
         && forall k :: Get(c.own, k) ==
              if PrefixedKey(account, []) <= k then Get(PayDeposit(s.store, account, predecessor, deposit), k) else None
  {
    hide WellFormed, PayDeposit, StoreAfter;
  }

  /**
   * What a call queues follows the graph batch by batch, with the callee as creator. It fails by a trap or a missing
   * method; otherwise its result is its data. Only a contract that cannot be started breaks the node, and then the
   * deposit has already moved.
   */
  lemma CallAnswers(env: Env, s: State, node: nat, account: Account, m: Bytes, args: Bytes, predecessor: Account,
                    deposit: Amount, results: Results)
    requires Ready(env, s)
    ensures var (t, res) := SubExecute(env, s, node, account, m, args, predecessor, deposit, results);
      if account !in env.deployed then t == s && res == Finished(None, None)
      else
        |t.calls| > |s.calls| &&
        var out := env.run(t.calls[|s.calls|].call);
        && (res.Broken? <==> out.Infra?)
        && (out.Infra? ==> t.dag == s.dag && t.store == PayDeposit(s.store, account, predecessor, deposit))
        && (out.NoMethod? ==> t.dag == s.dag && res == Finished(None, None))
        && (out.Ran? ==>
              && |t.dag| == |s.dag| + |out.appended| && s.dag <= t.dag
              && (forall k :: 0 <= k < |out.appended| ==>
                    var b := t.dag[|s.dag| + k];
                    b.deps == out.appended[k].deps && b.account == out.appended[k].account
                      && b.actions == out.appended[k].actions && b.creator == account)
              && res.Finished? && res.handle == out.ret
              && (res.result.None? <==> out.trapped)
              && (!out.trapped ==> res.result.value == if out.data.Some? then out.data.value else []))
  {
    hide WellFormed, PayDeposit, Own, ApplyOps, Restored, Partition, RefundDeposit;
  }

  // ---- Flattened results ----

  /** The slots of one dep stand behind those of the deps before it, in its own order, and nothing else is there. */
  lemma {:induction false} FlatSlots(memo: map<nat, Results>, deps: seq<nat>, i: nat, j: nat)
    requires (forall d :: d in deps ==> d in memo) && i < |deps|
    ensures Flat(memo, []) == [] && forall d :: d in deps[..i] + deps[i + 1..] ==> d in memo
    ensures deps[i] in memo
      && |Flat(memo, deps)| == |Flat(memo, deps[..i])| + |memo[deps[i]]| + |Flat(memo, deps[i + 1..])|
      && (j < |memo[deps[i]]| ==> Flat(memo, deps)[|Flat(memo, deps[..i])| + j] == memo[deps[i]][j])
  {
    assert deps[0] in deps && deps[i] in deps && forall d :: d in deps[1..] ==> d in deps;
    if i == 0 {
      assert deps[..0] == [];
    } else {
      FlatSlots(memo, deps[1..], i - 1, j);
      assert deps[1..][i - 1] == deps[i] && deps[1..][i..] == deps[i + 1..] && deps[..i][1..] == deps[1..][..i - 1];
    }
  }

  // ---- All calls of a run ----

  /** The calls of one node, in order. */
  function CallsOf(calls: seq<Called>, i: nat): seq<CallIn> {
    if calls == [] then [] else
      var front, last := calls[..|calls| - 1], calls[|calls| - 1];
      CallsOf(front, i) + if last.node == i then [last.call] else []
  }

  lemma CallsAdd(calls: seq<Called>, e: Called, i: nat)
    ensures CallsOf(calls + [e], i) == CallsOf(calls, i) + if e.node == i then [e.call] else []
  {
    assert (calls + [e])[..|calls|] == calls;
  }

  /** A call is one of its batch's actions, made for the batch's creator, with its deps' results in order. */
  ghost predicate FromAction(dag: seq<Batch>, memo: map<nat, Results>, e: Called) {
    && e.node < |dag|
    && var b := dag[e.node];
       && e.call.account == b.account && e.call.predecessor == b.creator
       && (forall d :: d in b.deps ==> d in memo) && e.call.results == Flat(memo, b.deps)
       && FnCall(e.call.method_, e.call.args, e.call.deposit) in b.actions
  }

  /**
   * How results are made of a batch's actions: a transfer succeeds with empty data, or fails and is the last; a call to
   * an unknown account fails; any other call is made, in order, and contributes its own result, then those recorded for
   * the promise it returned.
   */
  ghost predicate Made(env: Env, memo: map<nat, Results>, account: Account, actions: seq<Action>, calls: seq<CallIn>,
                       r: Results)
    decreases |actions|
  {
    if actions == [] then calls == [] && r == []
    else if actions[0].Transfer? then
      (r == [None] && calls == []) ||
      (r != [] && r[0] == Some([]) && Made(env, memo, account, actions[1..], calls, r[1..]))
    else if account !in env.deployed then
      r != [] && r[0] == None && Made(env, memo, account, actions[1..], calls, r[1..])
    else
      && calls != [] && FnCall(calls[0].method_, calls[0].args, calls[0].deposit) == actions[0]
      && var out := env.run(calls[0]);
         var ret := if out.Ran? then out.ret else None;
         && !out.Infra? && (ret.Some? ==> ret.value in memo)
         && var own := if Isolation.Failed(out) then None else Some(if out.data.Some? then out.data.value else []);
            var child := if ret.Some? then memo[ret.value] else [];
            [own] + child <= r && Made(env, memo, account, actions[1..], calls[1..], r[1 + |child|..])
  }

  lemma {:induction false} MadeKept(env: Env, memo: map<nat, Results>, more: map<nat, Results>, account: Account,
                                    actions: seq<Action>, calls: seq<CallIn>, r: Results)
    requires Made(env, memo, account, actions, calls, r)
    requires forall i :: i in memo ==> i in more && more[i] == memo[i]
    ensures Made(env, more, account, actions, calls, r)
    decreases |actions|
  {
    if actions == [] {
    } else if actions[0].Transfer? {
      if !(r == [None] && calls == []) { MadeKept(env, memo, more, account, actions[1..], calls, r[1..]); }
    } else if account !in env.deployed {
      MadeKept(env, memo, more, account, actions[1..], calls, r[1..]);
    } else {
      var out := env.run(calls[0]);
      var ret := if out.Ran? then out.ret else None;
      var child := if ret.Some? then memo[ret.value] else [];
      MadeKept(env, memo, more, account, actions[1..], calls[1..], r[1 + |child|..]);
    }
  }

  /** The results r of a node are made of its latest calls, and of all its calls unless it met an error. */
  ghost predicate MadeUp(env: Env, s: State, i: nat, r: Results)
    requires i < |s.dag|
  {
    exists n: nat :: MadeFrom(env, s, i, r, n) && (Aborted(i) !in s.log ==> n == 0)
  }

  ghost predicate MadeFrom(env: Env, s: State, i: nat, r: Results, n: nat)
    requires i < |s.dag|
  {
    var calls := CallsOf(s.calls, i);
    n <= |calls| && Made(env, s.memo, s.dag[i].account, s.dag[i].actions, calls[n..], r)
  }

  ghost predicate Traced(env: Env, s: State) {
    && (forall q :: 0 <= q < |s.calls| ==> FromAction(s.dag, s.memo, s.calls[q]))
    && (forall q :: 0 <= q < |s.calls| ==> Run(s.calls[q].node) in s.log)
    && (forall i :: i in s.memo && i < |s.dag| && Runs(env, s.dag, i) ==> MadeUp(env, s, i, s.memo[i]))
  }

  /** No new calls by these nodes, nor by any with a result. */
  ghost predicate CallsKept(s: State, t: State, callers: set<nat>) {
    forall i :: i in callers || i in s.memo ==> CallsOf(t.calls, i) == CallsOf(s.calls, i)
  }

  lemma {:induction false} NoCalls(calls: seq<Called>, i: nat)
    requires forall q :: 0 <= q < |calls| ==> calls[q].node != i
    ensures CallsOf(calls, i) == []
  {
    if calls != [] { NoCalls(calls[..|calls| - 1], i); }
  }

  lemma FlatSame(memo: map<nat, Results>, more: map<nat, Results>, deps: seq<nat>)
    requires forall d :: d in deps ==> d in memo
    requires forall i :: i in memo ==> i in more && more[i] == memo[i]
    ensures (forall d :: d in deps ==> d in more) && Flat(more, deps) == Flat(memo, deps)
  {
    FlatKept(memo, more, deps);
  }

  /** With more nodes, results, marks and events, but the same calls, everything said so far still holds. */
  lemma TracedGrows(env: Env, s: State, t: State)
    requires Traced(env, s) && s.dag <= t.dag && s.log <= t.log && MemoKept(s, t) && t.calls == s.calls
    requires forall i :: i in s.memo ==> i < |s.dag| && Aborted(i) !in t.log[|s.log|..]
    requires forall i :: i in t.memo && i !in s.memo && i < |t.dag| && Runs(env, t.dag, i) ==>
               MadeUp(env, t, i, t.memo[i])
    ensures Traced(env, t)
  {
    hide Made, Flat, MadeUp;
    assert t.log == s.log + t.log[|s.log|..];
    forall q | 0 <= q < |t.calls| ensures FromAction(t.dag, t.memo, t.calls[q]) {
      assert FromAction(s.dag, s.memo, s.calls[q]);
      FlatSame(s.memo, t.memo, s.dag[s.calls[q].node].deps);
    }
    forall i | i in s.memo && i < |t.dag| && Runs(env, t.dag, i) ensures MadeUp(env, t, i, t.memo[i]) {
      assert t.dag[i] == s.dag[i];
      MadeUpKept(env, s, t, i, s.memo[i]);
    }
  }

  lemma MadeUpKept(env: Env, s: State, t: State, i: nat, r: Results)
    requires i < |s.dag| && MadeUp(env, s, i, r) && s.dag <= t.dag && MemoKept(s, t)
    requires CallsOf(t.calls, i) == CallsOf(s.calls, i) && (Aborted(i) in t.log ==> Aborted(i) in s.log)
    requires s.log <= t.log
    ensures MadeUp(env, t, i, r)
  {
    hide Made;
    var n: nat :| MadeFrom(env, s, i, r, n) && (Aborted(i) !in s.log ==> n == 0);
    assert t.dag[i] == s.dag[i];
    MadeKept(env, s.memo, t.memo, s.dag[i].account, s.dag[i].actions, CallsOf(s.calls, i)[n..], r);
    assert MadeFrom(env, t, i, r, n);
    assert Aborted(i) !in t.log ==> Aborted(i) !in s.log by {
      assert forall e :: e in s.log ==> e in t.log[..|s.log|] && e in t.log;
    }
  }

  // ---- The executor keeps it ----

  lemma {:induction false} ExecuteTraced(env: Env, s: State, idx: nat, callers: set<nat>)
    requires Sound(env, s, callers) && idx < |s.dag| && Clear(s.dag, idx, callers) && Traced(env, s)
    ensures var t := Execute(env, s, idx).0; Traced(env, t) && CallsKept(s, t, callers)
    decreases env.bound - |s.dag|, idx, 3, 0
  {
    hide Sound, Traced, CallsKept, Uncached, MadeUp, WellFormed, DepsBelow;
    SoundReady(env, s, callers);
    if idx in s.memo {
      MarkTraced(env, s, idx, callers);
    } else {
      UncachedTraced(env, s, idx, callers);
      UncachedKeeps(env, s, idx, callers);
      var (t, out) := Uncached(env, s, idx);
      if out.None? {
        AbortTraced(env, s, t, idx, callers);
      } else {
        CompleteTraced(env, s, t, idx, callers, out.value);
      }
    }
  }

  lemma MarkTraced(env: Env, s: State, idx: nat, callers: set<nat>)
    requires Traced(env, s) && Sound(env, s, callers)
    ensures var t := s.(executed := s.executed + {idx}); Traced(env, t) && CallsKept(s, t, callers)
  {
    MemoInside(env, s, callers);
    TracedGrows(env, s, s.(executed := s.executed + {idx}));
  }

  lemma MemoInside(env: Env, s: State, callers: set<nat>)
    requires Sound(env, s, callers)
    ensures forall i :: i in s.memo ==> i < |s.dag|
  {
    hide WellFormed, DepsBelow, Regular, Last, NodeResultOk;
  }

  lemma AbortTraced(env: Env, s: State, t: State, idx: nat, callers: set<nat>)
    requires Inside(env, s, t, idx, callers) && Traced(env, t) && CallsKept(s, t, callers)
    ensures var u := t.(log := t.log + [Aborted(idx)]); Traced(env, u) && CallsKept(s, u, callers)
  {
    MemoInside(env, t, callers + {idx});
    hide Traced, Sound, CallsOf;
    TracedGrows(env, t, t.(log := t.log + [Aborted(idx)]));
  }

  lemma CompleteTraced(env: Env, s: State, t: State, idx: nat, callers: set<nat>, r: Results)
    requires Inside(env, s, t, idx, callers) && Traced(env, t) && CallsKept(s, t, callers)
    requires Runs(env, t.dag, idx) ==> MadeUp(env, t, idx, r)
    ensures var u := t.(memo := t.memo[idx := r], log := t.log + [Done(idx)]);
      Traced(env, u) && CallsKept(s, u, callers)
  {
    MemoInside(env, t, callers + {idx});
    hide Traced, Sound, CallsOf, MadeUp;
    var u := t.(memo := t.memo[idx := r], log := t.log + [Done(idx)]);
    if Runs(env, t.dag, idx) { MadeUpKept(env, t, u, idx, r); }
    TracedGrows(env, t, u);
  }

  lemma {:induction false} UncachedTraced(env: Env, s: State, idx: nat, callers: set<nat>)
    requires Sound(env, s, callers) && idx < |s.dag| && Clear(s.dag, idx, callers) && idx !in s.memo
    requires Traced(env, s)
    ensures var (t, out) := Uncached(env, s, idx);
      && Traced(env, t) && CallsKept(s, t, callers) && idx < |t.dag|
      && (out.Some? && Runs(env, t.dag, idx) ==> MadeUp(env, t, idx, out.value))
    decreases env.bound - |s.dag|, idx, 2, 0
  {
    hide WellFormed, HandlesOk, Execute, ExecDeps, ExecActions, Sound, Traced, CallsKept, MadeUp, Last, Flat;
    var b := s.dag[idx];
    var marked := s.(executed := s.executed + {idx});
    var stack := callers + {idx};
    Enter(env, s, idx, callers);
    SoundReady(env, s, callers);
    MarkTraced(env, s, idx, callers);
    forall d | d in b.deps ensures Clear(s.dag, d, stack) {
      ClearAbove(s.dag, d, callers, idx);
    }
    DepsTraced(env, marked, idx, b.deps, stack);
    DepsKeep(env, marked, idx, b.deps, stack);
    var (t, deps) := ExecDeps(env, marked, idx, b.deps);
    KeptFewer(s, marked, t, callers, stack);
    if deps.Some? {
      assert t.dag[idx] == b;
      if idx !in env.forced && b.account != [] {
        NotDone(env, t, stack, idx);
        DepsReady(env, t, stack, idx);
        RunTraced(env, t, idx, deps.value, stack);
        KeptThrough(s, t, Uncached(env, s, idx).0, callers, idx);
      }
    }
  }

  lemma KeptFewer(s: State, marked: State, t: State, callers: set<nat>, stack: set<nat>)
    requires marked.calls == s.calls && marked.memo == s.memo && callers <= stack && CallsKept(marked, t, stack)
    ensures CallsKept(s, t, callers)
  {}

  lemma KeptThrough(s: State, t: State, u: State, callers: set<nat>, idx: nat)
    requires CallsKept(s, t, callers) && MemoKept(s, t) && idx !in callers && idx !in s.memo
    requires forall i :: i != idx && (i in callers || i in t.memo) ==> CallsOf(u.calls, i) == CallsOf(t.calls, i)
    ensures CallsKept(s, u, callers)
  {}

  /** One run of a node's actions: its new calls make up its results. */
  lemma {:induction false} RunTraced(env: Env, t: State, idx: nat, results: Results, stack: set<nat>)
    requires Sound(env, t, stack) && Traced(env, t) && idx in stack && idx < |t.dag| && idx in t.executed
    requires Last(t.log, idx) != Some(Run(idx)) && idx !in t.memo
    requires Runs(env, t.dag, idx) && DepsDone(t.log, t.dag[idx].deps)
    requires (forall d :: d in t.dag[idx].deps ==> d in t.memo) && results == Flat(t.memo, t.dag[idx].deps)
    ensures var b := t.dag[idx];
      var (u, out) := ExecActions(env, t.(log := t.log + [Run(idx)]), idx, b, b.actions, results, []);
      && Traced(env, u) && t.dag <= u.dag
      && (forall i :: i != idx && (i in stack || i in t.memo) ==> CallsOf(u.calls, i) == CallsOf(t.calls, i))
      && (out.Some? ==> MadeUp(env, u, idx, out.value))
    decreases env.bound - |t.dag|, idx, 1, 0
  {
    hide WellFormed, HandlesOk, ExecActions, Sound, Traced, Made, Flat, Last, Clear, CallsOf, Regular;
    var b := t.dag[idx];
    var running := t.(log := t.log + [Run(idx)]);
    FirstRun(env, t, idx, stack);
    MemoInside(env, t, stack);
    DoneNotLast(env, t, stack, idx);
    Log(env, t, stack, Run(idx));
    TracedGrows(env, t, running);
    ActionsTraced(env, running, idx, b, b.actions, results, [], stack);
    ActionsKeep(env, running, idx, b, b.actions, results, [], stack);
    var (u, out) := ExecActions(env, running, idx, b, b.actions, results, []);
    if out.Some? {
      var n := |CallsOf(t.calls, idx)|;
      assert MadeFrom(env, u, idx, out.value, n);
      if Aborted(idx) !in u.log {
        assert forall e :: e in t.log ==> e in running.log && e in u.log by { PrefixMembers(t.log, u.log); }
      }
    }
  }

  lemma PrefixMembers(a: seq<Event>, b: seq<Event>)
    requires a <= b
    ensures forall e :: e in a ==> e in b
  {
    assert forall e :: e in a ==> e in b[..|a|];
  }

  lemma DoneNotLast(env: Env, t: State, stack: set<nat>, idx: nat)
    requires Sound(env, t, stack) && idx !in t.memo
    ensures Last(t.log, idx) != Some(Done(idx))
  {
    hide WellFormed, DepsBelow, ResultsOk, Regular;
    hide Last;
  }

  /** A node that has met no error yet has made no calls before its run. */
  lemma FirstRun(env: Env, t: State, idx: nat, stack: set<nat>)
    requires Sound(env, t, stack) && Traced(env, t)
    requires Last(t.log, idx) != Some(Run(idx)) && idx !in t.memo
    ensures Aborted(idx) !in t.log ==> CallsOf(t.calls, idx) == []
  {
    hide WellFormed, DepsBelow, ResultsOk, Regular, FromAction, MadeUp, Last;
    if Aborted(idx) !in t.log {
      assert Run(idx) !in t.log;
      NoCalls(t.calls, idx);
    }
  }

  lemma {:induction false} DepsTraced(env: Env, s: State, idx: nat, deps: seq<nat>, callers: set<nat>)
    requires Sound(env, s, callers) && idx < |s.dag| && (forall d :: d in deps ==> d < idx)
    requires (forall d :: d in deps ==> Clear(s.dag, d, callers)) && Traced(env, s)
    ensures var t := ExecDeps(env, s, idx, deps).0; Traced(env, t) && CallsKept(s, t, callers)
    decreases env.bound - |s.dag|, idx, 1, |deps|
  {
    hide WellFormed, DepsBelow, Sound, Traced, Execute, CallsOf;
    SoundReady(env, s, callers);
    if deps != [] {
      assert deps[0] in deps && forall d :: d in deps[1..] ==> d in deps;
      ExecuteTraced(env, s, deps[0], callers);
      ExecuteKeeps(env, s, deps[0], callers);
      var (t, first) := Execute(env, s, deps[0]);
      if first.Some? {
        forall d | d in deps[1..] ensures Clear(t.dag, d, callers) {
          SoundReady(env, t, callers);
          ClearExtend(s.dag, t.dag, d, callers);
        }
        DepsTraced(env, t, idx, deps[1..], callers);
      }
    }
  }

  /** A call recorded by the running node. */
  lemma RecordTraced(env: Env, s: State, t: State, e: Called)
    requires Traced(env, s) && t == s.(dag := t.dag, store := t.store, calls := s.calls + [e]) && s.dag <= t.dag
    requires FromAction(s.dag, s.memo, e) && Run(e.node) in s.log && e.node !in s.memo
    requires forall i :: i in s.memo ==> i < |s.dag|
    ensures Traced(env, t)
    ensures forall i :: CallsOf(t.calls, i) == CallsOf(s.calls, i) + if e.node == i then [e.call] else []
  {
    hide Made, Flat, MadeUp, CallsOf;
    forall i ensures CallsOf(t.calls, i) == CallsOf(s.calls, i) + if e.node == i then [e.call] else [] {
      CallsAdd(s.calls, e, i);
    }
    forall q | 0 <= q < |t.calls| ensures FromAction(t.dag, t.memo, t.calls[q]) && Run(t.calls[q].node) in t.log {
      assert q < |s.calls| ==> FromAction(s.dag, s.memo, s.calls[q]) && Run(s.calls[q].node) in s.log;
    }
    forall i | i in t.memo && i < |t.dag| && Runs(env, t.dag, i) ensures MadeUp(env, t, i, t.memo[i]) {
      assert t.dag[i] == s.dag[i];
      MadeUpKept(env, s, t, i, s.memo[i]);
    }
  }

  /** What ActionsTraced keeps: only the running node calls, and its calls make up its results. */
  ghost predicate Acted(env: Env, s: State, t: State, idx: nat, b: Batch, actions: seq<Action>, callers: set<nat>,
                        out: Option<Results>)
  {
    && Traced(env, t)
    && (forall i :: i != idx && (i in callers || i in s.memo) ==> CallsOf(t.calls, i) == CallsOf(s.calls, i))
    && CallsOf(s.calls, idx) <= CallsOf(t.calls, idx)
    && (out.Some? ==>
          Made(env, t.memo, b.account, actions, CallsOf(t.calls, idx)[|CallsOf(s.calls, idx)|..], out.value))
  }

  /** The running node, with its deps' results published. */
  ghost predicate Acting(env: Env, s: State, idx: nat, b: Batch, results: Results, callers: set<nat>) {
    && Sound(env, s, callers) && Traced(env, s) && idx in callers && idx < |s.dag| && s.dag[idx] == b
    && idx !in s.memo && Run(idx) in s.log && Last(s.log, idx) == Some(Run(idx))
    && (forall d :: d in b.deps ==> d in s.memo) && results == Flat(s.memo, b.deps)
  }

  lemma StillActing(env: Env, s: State, t: State, idx: nat, b: Batch, results: Results, callers: set<nat>)
    requires Acting(env, s, idx, b, results, callers) && Keeps(env, s, t, callers) && Traced(env, t)
    ensures Acting(env, t, idx, b, results, callers)
  {
    hide Traced, Last, Flat;
    NotDone(env, t, callers, idx);
    hide Sound;
    FlatSame(s.memo, t.memo, b.deps);
    PrefixMembers(s.log, t.log);
  }

  /** The call of one action, recorded. */
  lemma CallTraced(env: Env, s: State, idx: nat, b: Batch, a: Action, results: Results, callers: set<nat>)
    requires Ready(env, s) && Acting(env, s, idx, b, results, callers) && a.FnCall? && a in b.actions
    requires b.account in env.deployed
    ensures var (t, res) := SubExecute(env, s, idx, b.account, a.method_, a.args, b.creator, a.deposit, results);
      && Traced(env, t) && s.calls <= t.calls && |t.calls| > |s.calls| && t.memo == s.memo
      && var c := t.calls[|s.calls|].call;
         var out := env.run(c);
         && FnCall(c.method_, c.args, c.deposit) == a
         && (forall i :: CallsOf(t.calls, i) == CallsOf(s.calls, i) + if idx == i then [c] else [])
         && (res.Broken? <==> out.Infra?)
         && (res.Finished? ==>
               && res.handle == (if out.Ran? then out.ret else None)
               && res.result ==
                    if Isolation.Failed(out) then None else Some(if out.data.Some? then out.data.value else []))
  {
    hide WellFormed, Sound, Traced, CallsOf, Flat, Last, SubExecute, DepsBelow, Own;
    CallGiven(env, s, idx, b.account, a.method_, a.args, b.creator, a.deposit, results);
    CallAnswers(env, s, idx, b.account, a.method_, a.args, b.creator, a.deposit, results);
    var (t, res) := SubExecute(env, s, idx, b.account, a.method_, a.args, b.creator, a.deposit, results);
    assert t == s.(dag := t.dag, store := t.store, calls := t.calls) by { OnlyCalls(env, s, idx, b, a, results); }
    MemoInside(env, s, callers);
    var e := t.calls[|s.calls|];
    assert t.calls == s.calls + [e];
    RecordTraced(env, s, t, e);
  }

  lemma OnlyCalls(env: Env, s: State, idx: nat, b: Batch, a: Action, results: Results)
    requires Ready(env, s) && a.FnCall?
    ensures var t := SubExecute(env, s, idx, b.account, a.method_, a.args, b.creator, a.deposit, results).0;
      t == s.(dag := t.dag, store := t.store, calls := t.calls)
  {
    hide WellFormed, StoreAfter, PayDeposit, Own;
  }

  /** A call, the nodes it leads to, then the other actions. */
  lemma ActedCall(env: Env, s: State, t: State, u: State, v: State, idx: nat, b: Batch, actions: seq<Action>,
                  callers: set<nat>, c: CallIn, own: Option<Bytes>, child: Results, rest: Option<Results>)
    requires actions != [] && actions[0].FnCall? && b.account in env.deployed && idx in callers && MemoKept(s, t)
    requires FnCall(c.method_, c.args, c.deposit) == actions[0] && MemoKept(t, u) && MemoKept(u, v)
    requires forall i :: CallsOf(t.calls, i) == CallsOf(s.calls, i) + if idx == i then [c] else []
    requires CallsKept(t, u, callers) && Acted(env, u, v, idx, b, actions[1..], callers, rest)
    requires var out := env.run(c);
      && !out.Infra?
      && own == (if Isolation.Failed(out) then None else Some(if out.data.Some? then out.data.value else []))
      && var ret := if out.Ran? then out.ret else None;
         if ret.Some? then ret.value in u.memo && u.memo[ret.value] == child else child == []
    ensures Acted(env, s, v, idx, b, actions, callers, if rest.None? then None else Some([own] + child + rest.value))
  {
    hide Traced, CallsOf;
    var k := |CallsOf(s.calls, idx)|;
    assert CallsOf(v.calls, idx)[k..][1..] == CallsOf(v.calls, idx)[k + 1..];
    assert CallsOf(v.calls, idx)[..k + 1] == CallsOf(s.calls, idx) + [c];
    assert CallsOf(v.calls, idx)[k] == CallsOf(v.calls, idx)[..k + 1][k] == c;
    if rest.Some? {
      assert ([own] + child + rest.value)[1 + |child|..] == rest.value;
      assert [own] + child <= [own] + child + rest.value;
    }
  }

  /** An action that makes no call, then the others. */
  lemma ActedNoCall(env: Env, s: State, u: State, v: State, idx: nat, b: Batch, actions: seq<Action>,
                    callers: set<nat>, own: Option<Bytes>, rest: Option<Results>)
    requires actions != [] && u.calls == s.calls && u.memo == s.memo
    requires if actions[0].FnCall? then b.account !in env.deployed && own == None else own == Some([])
    requires Acted(env, u, v, idx, b, actions[1..], callers, rest)
    ensures Acted(env, s, v, idx, b, actions, callers, if rest.None? then None else Some([own] + rest.value))
  {
    hide Traced, CallsOf;
    if rest.Some? {
      assert ([own] + rest.value)[1..] == rest.value;
    }
  }

  lemma ActedNothing(env: Env, s: State, store: Store, idx: nat, b: Batch, actions: seq<Action>, callers: set<nat>)
    requires (forall d :: d in b.deps ==> d in s.memo) && Acting(env, s, idx, b, Flat(s.memo, b.deps), callers)
    ensures actions == [] ==> Acted(env, s, s, idx, b, actions, callers, Some([]))
    ensures actions != [] && actions[0].Transfer? ==>
              Acted(env, s, s.(store := store), idx, b, actions, callers, Some([None]))
    ensures Traced(env, s.(store := store)) && Acted(env, s, s, idx, b, actions, callers, None)
  {
    MemoInside(env, s, callers);
    hide Sound, CallsOf, Traced;
    TracedGrows(env, s, s.(store := store));
  }

  lemma {:induction false} ActionsTraced(env: Env, s: State, idx: nat, b: Batch, actions: seq<Action>,
                                         results: Results, touched: seq<Undo>, callers: set<nat>)
    requires Acting(env, s, idx, b, results, callers) && forall a :: a in actions ==> a in b.actions
    ensures var (t, out) := ExecActions(env, s, idx, b, actions, results, touched);
      Acted(env, s, t, idx, b, actions, callers, out)
    decreases env.bound - |s.dag|, idx, 0, |actions|, 0
  {
    hide WellFormed, HandlesOk, Execute, SubExecute, DepsBelow, Sound, Acting, Acted, Traced, Balance, Transferred,
         UndoOf, Replay, Flat;
    ActingReady(env, s, idx, b, results, callers);
    forall st { ActedNothing(env, s, st, idx, b, actions, callers); }
    if actions == [] {
    } else if actions[0].FnCall? {
      CallActed(env, s, idx, b, actions, results, touched, callers);
    } else if Balance(s.store, b.creator) >= actions[0].amount {
      var t := s.(store := Transferred(s.store, b.creator, b.account, actions[0].amount));
      var more := touched + UndoOf(s.store, b.creator, b.account, actions[0].amount);
      KeepsStore(env, s, t.store, callers);
      StillActing(env, s, t, idx, b, results, callers);
      ActionsTraced(env, t, idx, b, actions[1..], results, more, callers);
      var (v, rest) := ExecActions(env, t, idx, b, actions[1..], results, more);
      ActedNoCall(env, s, t, v, idx, b, actions, callers, Some([]), rest);
    }
  }

  lemma ActingReady(env: Env, s: State, idx: nat, b: Batch, results: Results, callers: set<nat>)
    requires Acting(env, s, idx, b, results, callers)
    ensures Ready(env, s) && idx < |s.dag| && Sound(env, s, callers) && Traced(env, s) && idx in callers
    ensures (forall d :: d in b.deps ==> d in s.memo) && results == Flat(s.memo, b.deps)
  {
    hide Sound, Traced, Flat, Last;
    SoundReady(env, s, callers);
  }

  lemma {:induction false} CallActed(env: Env, s: State, idx: nat, b: Batch, actions: seq<Action>,
                                     results: Results, touched: seq<Undo>, callers: set<nat>)
    requires Ready(env, s) && idx < |s.dag|
    requires Acting(env, s, idx, b, results, callers) && forall a :: a in actions ==> a in b.actions
    requires actions != [] && actions[0].FnCall?
    ensures var (t, out) := ExecActions(env, s, idx, b, actions, results, touched);
      Acted(env, s, t, idx, b, actions, callers, out)
    decreases env.bound - |s.dag|, idx, 0, |actions| - 1, 1
  {
    hide WellFormed, HandlesOk, Execute, SubExecute, DepsBelow, Sound, Acting, Acted, Traced, Balance, Transferred,
         UndoOf, Replay, Flat;
    ActingReady(env, s, idx, b, results, callers);
    var a := actions[0];
    assert a in actions;
    CallKeeps(env, s, idx, b.account, a.method_, a.args, b.creator, a.deposit, results, callers);
    var (t, res) := SubExecute(env, s, idx, b.account, a.method_, a.args, b.creator, a.deposit, results);
    if b.account !in env.deployed {
      CallAnswers(env, s, idx, b.account, a.method_, a.args, b.creator, a.deposit, results);
      ActionsTraced(env, s, idx, b, actions[1..], results, touched, callers);
      var (v, rest) := ExecActions(env, s, idx, b, actions[1..], results, touched);
      ActedNoCall(env, s, s, v, idx, b, actions, callers, None, rest);
      assert rest.Some? ==> [res.result] + [] + rest.value == [res.result] + rest.value;
    } else {
      CallTraced(env, s, idx, b, a, results, callers);
      StillActing(env, s, t, idx, b, results, callers);
      var c := t.calls[|s.calls|].call;
      if res.Broken? {
        ActedBroken(env, s, t, idx, b, actions, callers, c);
      } else {
        var h := res.handle;
        var (u, child) := if h.Some? then Execute(env, t, h.value) else (t, Some([]));
        if h.Some? {
          ExecuteTraced(env, t, h.value, callers);
          ExecuteKeeps(env, t, h.value, callers);
        } else {
          NoChild(env, t, callers);
        }
        if child.None? {
          ActedBroken(env, s, u, idx, b, actions, callers, c);
        } else {
          ActedKept(env, s, t);
          StillActing(env, t, u, idx, b, results, callers);
          ActionsTraced(env, u, idx, b, actions[1..], results, touched, callers);
          var (v, rest) := ExecActions(env, u, idx, b, actions[1..], results, touched);
          MemoFollows(env, u, idx, b, actions[1..], results, touched, callers);
          ActedCall(env, s, t, u, v, idx, b, actions, callers, c, res.result, child.value, rest);
        }
      }
    }
  }

  lemma ActedKept(env: Env, s: State, t: State)
    requires s.memo == t.memo
    ensures MemoKept(s, t)
  {}

  lemma MemoFollows(env: Env, u: State, idx: nat, b: Batch, actions: seq<Action>, results: Results,
                    touched: seq<Undo>, callers: set<nat>)
    requires Sound(env, u, callers) && Ready(env, u) && idx < |u.dag|
    ensures MemoKept(u, ExecActions(env, u, idx, b, actions, results, touched).0)
  {
    ActionsKeep(env, u, idx, b, actions, results, touched, callers);
  }

  lemma NoChild(env: Env, t: State, callers: set<nat>)
    requires Sound(env, t, callers)
    ensures Keeps(env, t, t, callers) && CallsKept(t, t, callers)
  {
    hide Sound;
    KeepsStore(env, t, t.store, callers);
    assert t.(store := t.store) == t;
  }

  lemma ActedBroken(env: Env, s: State, u: State, idx: nat, b: Batch, actions: seq<Action>,
                    callers: set<nat>, c: CallIn)
    requires Traced(env, u) && idx in callers
    requires forall i :: i in callers || i in s.memo ==>
               CallsOf(u.calls, i) == CallsOf(s.calls, i) + if idx == i then [c] else []
    ensures Acted(env, s, u, idx, b, actions, callers, None)
  {
    hide Traced, CallsOf;
  }

  lemma {:induction false} DrainTraced(env: Env, s: State)
    requires Sound(env, s, {}) && Traced(env, s)
    ensures Ready(env, s) && Traced(env, Drain(env, s).0)
    decreases |Pending(env, s)|
  {
    SoundReady(env, s, {});
    hide WellFormed, Sound, Traced, Execute;
    var next := NextOrphan(s.dag, s.executed, 0);
    if next.Some? {
      var (t, out) := Execute(env, s, next.value);
      PendingShrinks(env, s, t, next.value);
      ClearFresh(s.dag, next.value, {}, 0);
      ExecuteKeeps(env, s, next.value, {});
      ExecuteTraced(env, s, next.value, {});
      DrainTraced(env, t);
    }
  }

  // ---- Whole runs, with or without errors ----

  /**
   * At the end of a run every call was an action of its node's batch, given the results recorded for that batch's deps,
   * flattened in order; and every node with actions and a result is made up by its calls.
   */
  ghost predicate CallsAccounted(env: Env, t: State) {
    && (forall q :: 0 <= q < |t.calls| ==> FromAction(t.dag, t.memo, t.calls[q]))
    && (forall i :: 0 <= i < |t.dag| && i in t.memo && Runs(env, t.dag, i) ==> MadeUp(env, t, i, t.memo[i]))
  }

  lemma TracedAccounted(env: Env, t: State)
    requires Traced(env, t)
    ensures CallsAccounted(env, t)
  {
    hide FromAction, MadeUp;
  }

  lemma FreshTraced(env: Env, dag: seq<Batch>, store: Store)
    ensures Traced(env, Fresh(dag, store))
  {}

  lemma OtherStore(env: Env, s: State, store: Store)
    requires Traced(env, s)
    ensures Traced(env, s.(store := store))
  {
    var t := s.(store := store);
    forall i | i in t.memo && i < |t.dag| && Runs(env, t.dag, i) ensures MadeUp(env, t, i, t.memo[i]) {
      var n: nat :| MadeFrom(env, s, i, s.memo[i], n) && (Aborted(i) !in s.log ==> n == 0);
      assert MadeFrom(env, t, i, t.memo[i], n);
    }
  }

  /** A transaction that is not deferred, whatever fails in it, a rollback of the store included. */
  lemma TransactionCalls(env: Env, store: Store, queue: seq<Batch>, callee: Account, m: Bytes, args: Bytes,
                         signer: Account, attach: Amount)
    requires WellFormed(env)
    requires var tx := Transact(env, store, queue, callee, m, args, signer, attach, false);
      tx.outcome.Settled? && !tx.outcome.trapped
    ensures CallsAccounted(env, Transact(env, store, queue, callee, m, args, signer, attach, false).s)
  {
    hide Drain, Execute, Own, Credited, ApplyOps, Sound, Traced, CallsAccounted, Uncredited, NonEmpty, LastSome;
    var out := env.run(EntryCall(store, callee, m, args, signer, attach));
    assert HandlesOk(0, out, env.bound);
    var credited := Credited(store, callee, attach);
    var s := EntryState(env, credited, callee, out);
    FreshSound(env, s.dag, s.store);
    FreshTraced(env, s.dag, s.store);
    if out.ret.None? {
      DrainTraced(env, s);
    } else {
      ReturnedSound(env, s, out.ret.value, credited);
      ReturnedTraced(env, s, out.ret.value);
      var (t, res) := Execute(env, s, out.ret.value);
      OtherStore(env, t, credited);
      DrainTraced(env, if res.None? then t.(store := credited) else t);
    }
    TracedAccounted(env, Transact(env, store, queue, callee, m, args, signer, attach, false).s);
  }

  lemma ReturnedTraced(env: Env, s: State, root: nat)
    requires Sound(env, s, {}) && Traced(env, s) && root < |s.dag|
    ensures Ready(env, s) && Traced(env, Execute(env, s, root).0)
  {
    SoundReady(env, s, {});
    hide WellFormed, Sound, Traced, Execute;
    ClearFresh(s.dag, root, {}, 0);
    ExecuteTraced(env, s, root, {});
  }

  /** The same for a settled queue. */
  lemma SettleCalls(env: Env, queue: seq<Batch>, store: Store)
    requires Ready(env, Fresh(queue, store))
    ensures CallsAccounted(env, Settle(env, queue, store).0)
  {
    hide WellFormed, DepsBelow, Deliver, Drain, CallsAccounted, Sound, Traced;
    FreshSound(env, queue, store);
    FreshTraced(env, queue, store);
    DrainTraced(env, Fresh(queue, store));
    DeliverIsDrain(env, Fresh(queue, store), Report(0, []));
    if queue == [] { DrainNone(env, Fresh([], store)); }
    TracedAccounted(env, Settle(env, queue, store).0);
  }
}
