/** Every node's actions run exactly once, after its dependencies, however the graph is reached or grown. */
module OnceOnly {
  import opened Wrappers
  import opened Storage
  import opened Receipts

  /** Nodes marked but not yet memoised: the callers now on the stack. */
  function InProgress(s: State): set<nat> { s.executed - s.memo.Keys }

  /** Combinators have no actions and forced failures run none. */
  predicate Runs(env: Env, dag: seq<Batch>, i: nat)
    requires i < |dag|
  {
    i !in env.forced && dag[i].account != []
  }

  predicate DepsDone(log: seq<Event>, deps: seq<nat>) { forall d :: d in deps ==> Done(d) in log }

  /** An event may follow a log: it is new, its node's deps are done, and a node that runs is done after running. */
  predicate Allowed(env: Env, dag: seq<Batch>, log: seq<Event>, e: Event) {
    && e !in log
    && !e.Aborted?
    && e.idx < |dag|
    && DepsDone(log, dag[e.idx].deps)
    && (e.Run? ==> Runs(env, dag, e.idx))
    && (e.Done? && Runs(env, dag, e.idx) ==> Run(e.idx) in log)
  }

  predicate Ordered(env: Env, dag: seq<Batch>, log: seq<Event>) {
    log == [] || (Ordered(env, dag, log[..|log| - 1]) && Allowed(env, dag, log[..|log| - 1], log[|log| - 1]))
  }

  // ---- What the results are ----

  /** The results of nodes already in the memo table. */
  function Flat(memo: map<nat, Results>, deps: seq<nat>): Results
    requires forall d :: d in deps ==> d in memo
  {
    if deps == [] then [] else
      assert deps[0] in deps && forall d :: d in deps[1..] ==> d in deps;
      memo[deps[0]] + Flat(memo, deps[1..])
  }

  lemma {:induction false} FlatKept(old_: map<nat, Results>, new_: map<nat, Results>, deps: seq<nat>)
    requires forall d :: d in deps ==> d in old_ && d in new_ && old_[d] == new_[d]
    ensures Flat(old_, deps) == Flat(new_, deps)
  {
    if deps != [] {
      assert deps[0] in deps && forall d :: d in deps[1..] ==> d in deps;
      FlatKept(old_, new_, deps[1..]);
    }
  }

  /** A forced failure has no results; a combinator's are those of its deps, flattened in order. */
  ghost predicate NodeResultOk(env: Env, dag: seq<Batch>, memo: map<nat, Results>, i: nat, r: Results)
    requires i < |dag|
  {
    && (i in env.forced ==> r == [])
    && (i !in env.forced && dag[i].account == [] ==>
          (forall d :: d in dag[i].deps ==> d in memo) && r == Flat(memo, dag[i].deps))
  }

  ghost predicate ResultsOk(env: Env, dag: seq<Batch>, memo: map<nat, Results>) {
    forall i :: i in memo ==> i < |dag| && NodeResultOk(env, dag, memo, i, memo[i])
  }

  lemma ResultsExtend(env: Env, dag: seq<Batch>, more: seq<Batch>, memo: map<nat, Results>)
    requires ResultsOk(env, dag, memo) && dag <= more
    ensures ResultsOk(env, more, memo)
  {
    forall i | i in memo ensures i < |more| && NodeResultOk(env, more, memo, i, memo[i]) {
      assert NodeResultOk(env, dag, memo, i, memo[i]) && dag[i] == more[i];
    }
  }

  lemma ResultsAdd(env: Env, dag: seq<Batch>, memo: map<nat, Results>, idx: nat, r: Results)
    requires ResultsOk(env, dag, memo) && idx < |dag| && idx !in memo && NodeResultOk(env, dag, memo, idx, r)
    ensures ResultsOk(env, dag, memo[idx := r])
  {
    var after := memo[idx := r];
    forall i | i in after ensures i < |dag| && NodeResultOk(env, dag, after, i, after[i]) {
      assert i in memo ==> NodeResultOk(env, dag, memo, i, memo[i]);
      if i !in env.forced && dag[i].account == [] {
        FlatKept(memo, after, dag[i].deps);
      }
    }
  }

  ghost predicate Inv(env: Env, s: State) {
    && Ready(env, s)
    && s.memo.Keys <= s.executed
    && (forall i :: i in s.executed ==> i < |s.dag|)
    && Ordered(env, s.dag, s.log)
    && (forall i :: Done(i) in s.log <==> i in s.memo)
    && (forall i :: Run(i) in s.log ==> i in s.executed)
    && ResultsOk(env, s.dag, s.memo)
  }

  /** Memoised results are never replaced. */
  ghost predicate MemoKept(s: State, t: State) {
    forall i :: i in s.memo ==> i in t.memo && t.memo[i] == s.memo[i]
  }

  /** From s to t: the invariant, the same callers in progress, and events only for nodes s had not marked. */
  ghost predicate Effect(env: Env, s: State, t: State) {
    && Inv(env, t)
    && Grows(env, s, t)
    && MemoKept(s, t)
    && InProgress(t) == InProgress(s)
    && (forall e :: e in t.log && e !in s.log ==> e.idx !in s.executed)
  }

  lemma EffectTrans(env: Env, s: State, t: State, u: State)
    requires Effect(env, s, t) && Effect(env, t, u)
    ensures Effect(env, s, u)
  {}

  lemma {:induction false} OrderedExtend(env: Env, dag: seq<Batch>, more: seq<Batch>, log: seq<Event>)
    requires Ordered(env, dag, log) && dag <= more
    ensures Ordered(env, more, log)
  {
    if log != [] {
      OrderedExtend(env, dag, more, log[..|log| - 1]);
    }
  }

  lemma OrderedAdd(env: Env, dag: seq<Batch>, log: seq<Event>, e: Event)
    requires Ordered(env, dag, log) && Allowed(env, dag, log, e)
    ensures Ordered(env, dag, log + [e])
  {
    assert (log + [e])[..|log|] == log;
  }

  // ---- Which nodes an execution can reach ----

  /** Neither a node nor anything below it is in progress. */
  ghost predicate Clear(dag: seq<Batch>, i: nat, ip: set<nat>)
    requires i < |dag| && DepsBelow(dag)
    decreases i
  {
    i !in ip && forall d :: d in dag[i].deps ==> Clear(dag, d, ip)
  }

  lemma {:induction false} ClearExtend(dag: seq<Batch>, more: seq<Batch>, i: nat, ip: set<nat>)
    requires i < |dag| && DepsBelow(dag) && DepsBelow(more) && dag <= more && Clear(dag, i, ip)
    ensures Clear(more, i, ip)
    decreases i
  {
    forall d | d in more[i].deps ensures Clear(more, d, ip) {
      assert dag[i] == more[i];
      ClearExtend(dag, more, d, ip);
    }
  }

  lemma {:induction false} ClearAbove(dag: seq<Batch>, i: nat, ip: set<nat>, top: nat)
    requires i < |dag| && DepsBelow(dag) && Clear(dag, i, ip) && i < top
    ensures Clear(dag, i, ip + {top})
    decreases i
  {
    forall d | d in dag[i].deps ensures Clear(dag, d, ip + {top}) {
      ClearAbove(dag, d, ip, top);
    }
  }

  /** Nodes a call has just created depend on each other only, so no caller is below them. */
  lemma {:induction false} ClearFresh(dag: seq<Batch>, i: nat, ip: set<nat>, base: nat)
    requires base <= i < |dag| && DepsBelow(dag)
    requires forall j :: j in ip ==> j < base
    requires forall j, d :: base <= j < |dag| && d in dag[j].deps ==> base <= d
    ensures Clear(dag, i, ip)
    decreases i
  {
    forall d | d in dag[i].deps ensures Clear(dag, d, ip) {
      ClearFresh(dag, d, ip, base);
    }
  }

  // ---- The executor keeps the invariant ----

  lemma {:induction false} ExecuteOnce(env: Env, s: State, idx: nat)
    requires Inv(env, s) && idx < |s.dag| && Clear(s.dag, idx, InProgress(s))
    requires Execute(env, s, idx).1.Some?
    ensures Effect(env, s, Execute(env, s, idx).0)
    ensures idx in Execute(env, s, idx).0.memo
    ensures Execute(env, s, idx).0.memo[idx] == Execute(env, s, idx).1.value
    decreases env.bound - |s.dag|, idx, 3, 0
  {
    if idx in s.memo {
      assert s.executed + {idx} == s.executed;
    } else {
      hide WellFormed, Inv, ReadyToComplete, Uncached;
      NotMarked(env, s, idx);
      UncachedOnce(env, s, idx);
      var (t, out) := Uncached(env, s, idx);
      CompleteNode(env, s, t, idx, out.value);
    }
  }

  lemma NotMarked(env: Env, s: State, idx: nat)
    requires Inv(env, s) && idx < |s.dag| && Clear(s.dag, idx, InProgress(s)) && idx !in s.memo
    ensures idx !in s.executed
  {}

  /** What Uncached leaves: the node marked, in progress and ready to be recorded as done. */
  ghost predicate ReadyToComplete(env: Env, s: State, t: State, idx: nat, r: Results)
    requires idx < |s.dag|
  {
    && Inv(env, t) && Grows(env, s, t) && MemoKept(s, t)
    && InProgress(t) == InProgress(s) + {idx}
    && (forall e :: e in t.log && e !in s.log ==> e.idx !in s.executed)
    && Allowed(env, t.dag, t.log, Done(idx))
    && NodeResultOk(env, t.dag, t.memo, idx, r)
  }

  lemma CompleteNode(env: Env, s: State, t: State, idx: nat, r: Results)
    requires Inv(env, s) && idx < |s.dag| && idx !in s.executed && ReadyToComplete(env, s, t, idx, r)
    ensures Effect(env, s, t.(memo := t.memo[idx := r], log := t.log + [Done(idx)]))
  {
    hide ResultsOk, Ordered, WellFormed, NodeResultOk, DepsBelow, Inv, Allowed;
    CompleteInv(env, t, idx, r);
    var u := t.(memo := t.memo[idx := r], log := t.log + [Done(idx)]);
    assert InProgress(u) == InProgress(s) by { InvKeys(env, s); }
    InvKeys(env, t);
  }

  lemma InvKeys(env: Env, s: State)
    requires Inv(env, s)
    ensures Ready(env, s) && s.memo.Keys <= s.executed
  {
    hide ResultsOk, Ordered, WellFormed, DepsBelow;
  }

  lemma CompleteInv(env: Env, t: State, idx: nat, r: Results)
    requires Inv(env, t) && idx in InProgress(t) && idx < |t.dag|
    requires Allowed(env, t.dag, t.log, Done(idx)) && NodeResultOk(env, t.dag, t.memo, idx, r)
    ensures Inv(env, t.(memo := t.memo[idx := r], log := t.log + [Done(idx)]))
  {
    hide ResultsOk, Ordered, WellFormed, NodeResultOk, DepsBelow, Allowed;
    OrderedAdd(env, t.dag, t.log, Done(idx));
    ResultsAdd(env, t.dag, t.memo, idx, r);
  }

  lemma {:induction false} UncachedOnce(env: Env, s: State, idx: nat)
    requires Inv(env, s) && idx < |s.dag| && Clear(s.dag, idx, InProgress(s)) && idx !in s.memo
    requires Uncached(env, s, idx).1.Some?
    ensures ReadyToComplete(env, s, Uncached(env, s, idx).0, idx, Uncached(env, s, idx).1.value)
    decreases env.bound - |s.dag|, idx, 2, 0
  {
    hide WellFormed, HandlesOk, Execute, ExecDeps, ExecActions, SubExecute, Inv, ReadyToComplete, Flat;
    var b := s.dag[idx];
    var marked := s.(executed := s.executed + {idx});
    MarkNode(env, s, idx);
    forall d | d in b.deps ensures Clear(s.dag, d, InProgress(marked)) {
      ClearAbove(s.dag, d, InProgress(s), idx);
    }
    DepsOnce(env, marked, idx, b.deps);
    var (t, deps) := ExecDeps(env, marked, idx, b.deps);
    assert t.dag[idx] == b;
    DepsDoneNow(env, s, t, idx);
    if idx in env.forced {
      NothingToRun(env, s, t, idx, []);
    } else if b.account == [] {
      NothingToRun(env, s, t, idx, deps.value);
    } else {
      RunOnce(env, marked, t, idx, deps.value);
      RanOnce(env, s, t, Uncached(env, s, idx).0, idx, Uncached(env, s, idx).1.value);
    }
  }

  lemma MarkNode(env: Env, s: State, idx: nat)
    requires Inv(env, s) && idx < |s.dag| && Clear(s.dag, idx, InProgress(s)) && idx !in s.memo
    ensures var marked := s.(executed := s.executed + {idx});
      && Inv(env, marked) && InProgress(marked) == InProgress(s) + {idx}
      && idx in InProgress(marked) && idx !in s.executed && Run(idx) !in s.log
  {
    hide WellFormed, DepsBelow, Ordered, ResultsOk;
  }

  lemma DepsDoneNow(env: Env, s: State, t: State, idx: nat)
    requires idx < |s.dag| && Effect(env, s.(executed := s.executed + {idx}), t)
    requires forall d :: d in s.dag[idx].deps ==> d in t.memo
    ensures idx < |t.dag| && t.dag[idx] == s.dag[idx] && DepsDone(t.log, t.dag[idx].deps)
  {
    hide WellFormed, DepsBelow, Ordered, ResultsOk;
  }

  lemma NothingToRun(env: Env, s: State, t: State, idx: nat, r: Results)
    requires Inv(env, s) && idx < |s.dag| && idx !in s.memo && idx !in s.executed
    requires Effect(env, s.(executed := s.executed + {idx}), t) && idx < |t.dag|
    requires InProgress(t) == InProgress(s) + {idx}
    requires DepsDone(t.log, t.dag[idx].deps) && !Runs(env, t.dag, idx)
    requires NodeResultOk(env, t.dag, t.memo, idx, r)
    ensures ReadyToComplete(env, s, t, idx, r)
  {
    hide WellFormed, DepsBelow, Ordered, ResultsOk, NodeResultOk;
  }

  lemma RanOnce(env: Env, s: State, t: State, u: State, idx: nat, r: Results)
    requires Inv(env, s) && idx < |s.dag| && idx !in s.executed && idx !in s.memo
    requires var marked := s.(executed := s.executed + {idx});
      && Effect(env, marked, t) && idx < |t.dag| && Runs(env, t.dag, idx)
      && Inv(env, u) && Grows(env, t, u) && MemoKept(t, u) && InProgress(u) == InProgress(marked)
      && (forall e :: e in u.log && e !in marked.log ==> e.idx !in marked.executed || e == Run(idx))
      && Allowed(env, u.dag, u.log, Done(idx))
    ensures ReadyToComplete(env, s, u, idx, r)
  {
    hide WellFormed, DepsBelow, Ordered, ResultsOk;
    assert t.dag[idx] == u.dag[idx];
    var marked := s.(executed := s.executed + {idx});
    assert InProgress(marked) == InProgress(s) + {idx};
  }

  lemma StartRun(env: Env, marked: State, t: State, idx: nat)
    requires Effect(env, marked, t) && idx < |t.dag| && idx in InProgress(marked) && Run(idx) !in marked.log
    requires Runs(env, t.dag, idx) && DepsDone(t.log, t.dag[idx].deps)
    ensures Inv(env, t.(log := t.log + [Run(idx)])) && Run(idx) !in t.log
  {
    hide WellFormed, HandlesOk, Ordered, ResultsOk;
    OrderedAdd(env, t.dag, t.log, Run(idx));
  }

  /** With the deps done and the node marked but never run, its actions run once. */
  lemma {:induction false} RunOnce(env: Env, marked: State, t: State, idx: nat, results: Results)
    requires Effect(env, marked, t) && idx < |t.dag| && idx in InProgress(marked) && Run(idx) !in marked.log
    requires Runs(env, t.dag, idx) && DepsDone(t.log, t.dag[idx].deps)
    requires var b := t.dag[idx];
      ExecActions(env, t.(log := t.log + [Run(idx)]), idx, b, b.actions, results, []).1.Some?
    ensures var b := t.dag[idx];
      var u := ExecActions(env, t.(log := t.log + [Run(idx)]), idx, b, b.actions, results, []).0;
      && Inv(env, u) && Grows(env, t, u) && MemoKept(t, u) && InProgress(u) == InProgress(marked)
      && (forall e :: e in u.log && e !in marked.log ==> e.idx !in marked.executed || e == Run(idx))
      && Allowed(env, u.dag, u.log, Done(idx))
    decreases env.bound - |t.dag|, idx, 1, 0
  {
    hide WellFormed, HandlesOk, ExecActions, Ordered, Clear, ResultsOk;
    var b := t.dag[idx];
    var running := t.(log := t.log + [Run(idx)]);
    StartRun(env, marked, t, idx);
    assert running.log[|t.log|] == Run(idx);
    ActionsOnce(env, running, idx, b, b.actions, results, []);
  }

  lemma {:induction false} DepsOnce(env: Env, s: State, idx: nat, deps: seq<nat>)
    requires Inv(env, s) && idx < |s.dag| && (forall d :: d in deps ==> d < idx)
    requires forall d :: d in deps ==> Clear(s.dag, d, InProgress(s))
    requires ExecDeps(env, s, idx, deps).1.Some?
    ensures var t := ExecDeps(env, s, idx, deps).0;
      && Effect(env, s, t) && (forall d :: d in deps ==> d in t.memo)
      && ExecDeps(env, s, idx, deps).1.value == Flat(t.memo, deps)
    decreases env.bound - |s.dag|, idx, 1, |deps|
  {
    if deps != [] {
      assert deps[0] in deps && forall d :: d in deps[1..] ==> d in deps;
      ExecuteOnce(env, s, deps[0]);
      var t := Execute(env, s, deps[0]).0;
      forall d | d in deps[1..] ensures Clear(t.dag, d, InProgress(t)) {
        ClearExtend(s.dag, t.dag, d, InProgress(s));
      }
      DepsOnce(env, t, idx, deps[1..]);
      EffectTrans(env, s, t, ExecDeps(env, t, idx, deps[1..]).0);
    }
  }

  lemma CallOnce(env: Env, s: State, node: nat, account: Account, m: Bytes, args: Bytes, predecessor: Account,
                 deposit: Amount, results: Results)
    requires Inv(env, s)
    ensures var (t, res) := SubExecute(env, s, node, account, m, args, predecessor, deposit, results);
      && Effect(env, s, t)
      && (res.Finished? && res.handle.Some? ==> Clear(t.dag, res.handle.value, InProgress(t)))
  {
    var (t, res) := SubExecute(env, s, node, account, m, args, predecessor, deposit, results);
    OrderedExtend(env, s.dag, t.dag, s.log);
    ResultsExtend(env, s.dag, t.dag, s.memo);
    hide ResultsOk, NodeResultOk;
    if res.Finished? && res.handle.Some? {
      ClearFresh(t.dag, res.handle.value, InProgress(t), |s.dag|);
    }
  }

  lemma {:induction false} ActionsOnce(env: Env, s: State, idx: nat, b: Batch, actions: seq<Action>,
                                       results: Results, touched: seq<Undo>)
    requires Inv(env, s) && idx < |s.dag|
    requires ExecActions(env, s, idx, b, actions, results, touched).1.Some?
    ensures Effect(env, s, ExecActions(env, s, idx, b, actions, results, touched).0)
    decreases env.bound - |s.dag|, idx, 0, |actions|
  {
    if actions == [] {
    } else if actions[0].FnCall? {
      var a := actions[0];
      CallOnce(env, s, idx, b.account, a.method_, a.args, b.creator, a.deposit, results);
      var (t, res) := SubExecute(env, s, idx, b.account, a.method_, a.args, b.creator, a.deposit, results);
      var u := t;
      if res.handle.Some? {
        ExecuteOnce(env, t, res.handle.value);
        u := Execute(env, t, res.handle.value).0;
        EffectTrans(env, s, t, u);
      }
      ActionsOnce(env, u, idx, b, actions[1..], results, touched);
      EffectTrans(env, s, u, ExecActions(env, u, idx, b, actions[1..], results, touched).0);
    } else if Balance(s.store, b.creator) >= actions[0].amount {
      var t := s.(store := Transferred(s.store, b.creator, b.account, actions[0].amount));
      var more := touched + UndoOf(s.store, b.creator, b.account, actions[0].amount);
      ActionsOnce(env, t, idx, b, actions[1..], results, more);
      EffectTrans(env, s, t, ExecActions(env, t, idx, b, actions[1..], results, more).0);
    }
  }

  // ---- Whole runs ----

  /** Draining from a quiet state keeps the invariant. */
  lemma {:induction false} DrainOnce(env: Env, s: State)
    requires Inv(env, s) && InProgress(s) == {}
    requires Drain(env, s).1 == 0
    ensures Effect(env, s, Drain(env, s).0)
    decreases |Pending(env, s)|
  {
    var next := NextOrphan(s.dag, s.executed, 0);
    if next.Some? {
      var (t, out) := Execute(env, s, next.value);
      PendingShrinks(env, s, t, next.value);
      ClearFresh(s.dag, next.value, InProgress(s), 0);
      ExecuteOnce(env, s, next.value);
      DrainOnce(env, t);
      EffectTrans(env, s, t, Drain(env, t).0);
    }
  }

  lemma {:induction false} OrderedDistinct(env: Env, dag: seq<Batch>, log: seq<Event>, e: Event)
    requires Ordered(env, dag, log)
    ensures multiset(log)[e] == if e in log then 1 else 0
  {
    if log != [] {
      var front, last := log[..|log| - 1], log[|log| - 1];
      assert log == front + [last];
      OrderedDistinct(env, dag, front, e);
    }
  }

  lemma {:induction false} OrderedAt(env: Env, dag: seq<Batch>, log: seq<Event>, p: nat)
    requires Ordered(env, dag, log) && p < |log|
    ensures Allowed(env, dag, log[..p], log[p])
  {
    if p < |log| - 1 {
      OrderedAt(env, dag, log[..|log| - 1], p);
      assert log[..|log| - 1][..p] == log[..p];
    }
  }

  /** The state in which the receipts of an entry call start. */
  function Fresh(dag: seq<Batch>, store: Store): State { State(dag, {}, map[], store, [], []) }

  /**
   * A whole transaction without infrastructure error, whether or not the entry returned a promise: at the end every
   * node, also those appended by children, is marked and memoised, its actions ran exactly once (never, when forced to
   * fail or a combinator), every run and completion came after the completion of all its deps, a combinator's results
   * are its deps' results flattened in order, and a forced failure has none.
   */
  lemma OnceAndInOrder(env: Env, dag: seq<Batch>, store: Store, returned: Option<nat>)
    requires Ready(env, Fresh(dag, store))
    requires returned.Some? ==> returned.value < |dag| && Execute(env, Fresh(dag, store), returned.value).1.Some?
    requires Drain(env, AfterReturned(env, Fresh(dag, store), returned)).1 == 0
    ensures var t := Drain(env, AfterReturned(env, Fresh(dag, store), returned)).0;
      && dag <= t.dag
      && (forall i :: 0 <= i < |t.dag| ==> i in t.executed && i in t.memo)
      && (forall i :: 0 <= i < |t.dag| ==>
            && multiset(t.log)[Run(i)] == (if Runs(env, t.dag, i) then 1 else 0)
            && multiset(t.log)[Done(i)] == 1
            && NodeResultOk(env, t.dag, t.memo, i, t.memo[i]))
      && (forall p :: 0 <= p < |t.log| ==>
            && t.log[p].idx < |t.dag|
            && DepsDone(t.log[..p], t.dag[t.log[p].idx].deps)
            && (t.log[p].Done? && Runs(env, t.dag, t.log[p].idx) ==> Run(t.log[p].idx) in t.log[..p]))
  {
    var s := Fresh(dag, store);
    assert Inv(env, s) && InProgress(s) == {};
    hide WellFormed, DepsBelow, Execute, Drain, Ordered, Clear, NodeResultOk;
    var mid := AfterReturned(env, s, returned);
    if returned.Some? {
      ClearFresh(dag, returned.value, {}, 0);
      ExecuteOnce(env, s, returned.value);
    }
    DrainOnce(env, mid);
    var t := Drain(env, mid).0;
    forall i | 0 <= i < |t.dag| ensures i in t.executed && i in t.memo
        && multiset(t.log)[Run(i)] == (if Runs(env, t.dag, i) then 1 else 0) && multiset(t.log)[Done(i)] == 1 {
      assert i !in InProgress(t);
      RanBeforeDone(env, t.dag, t.log, i);
      OrderedDistinct(env, t.dag, t.log, Run(i));
      OrderedDistinct(env, t.dag, t.log, Done(i));
    }
    forall p | 0 <= p < |t.log| ensures Allowed(env, t.dag, t.log[..p], t.log[p]) {
      OrderedAt(env, t.dag, t.log, p);
    }
  }

  /** The promise the entry returned, if any, is resolved before the drain. */
  ghost function AfterReturned(env: Env, s: State, returned: Option<nat>): (t: State)
    requires Ready(env, s) && (returned.Some? ==> returned.value < |s.dag|)
    ensures Grows(env, s, t)
  {
    if returned.Some? then Execute(env, s, returned.value).0 else s
  }

  lemma RanBeforeDone(env: Env, dag: seq<Batch>, log: seq<Event>, i: nat)
    requires Ordered(env, dag, log) && i < |dag| && Done(i) in log
    ensures Run(i) in log <==> Runs(env, dag, i)
  {
    var p :| 0 <= p < |log| && log[p] == Done(i);
    OrderedAt(env, dag, log, p);
    if Run(i) in log {
      var q :| 0 <= q < |log| && log[q] == Run(i);
      OrderedAt(env, dag, log, q);
    }
  }
}
