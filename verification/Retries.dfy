/**
 * Runs in which nodes may end in an infrastructure error. Such a node is marked but not memoised, so a second parent
 * starts it again: a node runs again only after an error ended its earlier run, and never after it has a result.
 */
module Retries {
  import opened Wrappers
  import opened Storage
  import opened Receipts
  import opened OnceOnly
  import opened Delivery
  import opened DeliveryOrder
  import opened Transfers
  import opened Transaction

  /** The latest event about a node. */
  function Last(log: seq<Event>, i: nat): (r: Option<Event>)
    ensures r.Some? ==> r.value.idx == i && r.value in log
    ensures forall e :: e in log && e.idx == i ==> r.Some?
  {
    if log == [] then None
    else if log[|log| - 1].idx == i then Some(log[|log| - 1])
    else Last(log[..|log| - 1], i)
  }

  lemma LastAfter(log: seq<Event>, e: Event, i: nat)
    ensures Last(log + [e], i) == if e.idx == i then Some(e) else Last(log, i)
  {
    assert (log + [e])[..|log|] == log;
  }

  /**
   * What may come next about a node: nothing once it has a result; a run when its deps have theirs and no run is open;
   * a result when its deps have theirs and, if it has actions to run, a run is open.
   */
  predicate MayFollow(env: Env, dag: seq<Batch>, log: seq<Event>, e: Event) {
    && e.idx < |dag|
    && var last := Last(log, e.idx);
       && last != Some(Done(e.idx))
       && (e.Run? ==> Runs(env, dag, e.idx) && DepsDone(log, dag[e.idx].deps) && last != Some(Run(e.idx)))
       && (e.Done? ==> DepsDone(log, dag[e.idx].deps) && (Runs(env, dag, e.idx) <==> last == Some(Run(e.idx))))
  }

  predicate Regular(env: Env, dag: seq<Batch>, log: seq<Event>) {
    log == [] || (Regular(env, dag, log[..|log| - 1]) && MayFollow(env, dag, log[..|log| - 1], log[|log| - 1]))
  }

  lemma {:induction false} RegularExtend(env: Env, dag: seq<Batch>, more: seq<Batch>, log: seq<Event>)
    requires Regular(env, dag, log) && dag <= more
    ensures Regular(env, more, log)
  {
    if log != [] {
      RegularExtend(env, dag, more, log[..|log| - 1]);
    }
  }

  lemma RegularAdd(env: Env, dag: seq<Batch>, log: seq<Event>, e: Event)
    requires Regular(env, dag, log) && MayFollow(env, dag, log, e)
    ensures Regular(env, dag, log + [e])
  {
    assert (log + [e])[..|log|] == log;
  }

  lemma {:induction false} RegularAt(env: Env, dag: seq<Batch>, log: seq<Event>, p: nat)
    requires Regular(env, dag, log) && p < |log|
    ensures MayFollow(env, dag, log[..p], log[p])
  {
    if p < |log| - 1 {
      RegularAt(env, dag, log[..|log| - 1], p);
      assert log[..|log| - 1][..p] == log[..p];
    }
  }

  /** Nothing follows a result. */
  lemma {:induction false} DoneIsLast(env: Env, dag: seq<Batch>, log: seq<Event>, i: nat)
    requires Regular(env, dag, log)
    ensures Done(i) in log <==> Last(log, i) == Some(Done(i))
  {
    if log != [] {
      var front, e := log[..|log| - 1], log[|log| - 1];
      assert log == front + [e];
      DoneIsLast(env, dag, front, i);
    }
  }

  /** A node's latest event ends it. */
  predicate Ended(log: seq<Event>, i: nat) {
    Last(log, i).Some? && !Last(log, i).value.Run?
  }

  // ---- The invariant ----

  /** A state reached with or without errors, with the callers now on the stack. */
  ghost predicate Sound(env: Env, s: State, callers: set<nat>) {
    && Ready(env, s)
    && Regular(env, s.dag, s.log)
    && ResultsOk(env, s.dag, s.memo)
    && (forall i :: i in callers ==> i < |s.dag|)
    && (forall i :: Done(i) in s.log <==> i in s.memo)
    && (forall i :: i in s.executed && i !in callers ==> Ended(s.log, i))
    && (forall e :: e in s.log ==> e.idx in s.executed)
  }

  /** What execution under these callers keeps: soundness, results, and every event about the callers. */
  ghost predicate Keeps(env: Env, s: State, t: State, callers: set<nat>) {
    && Sound(env, t, callers)
    && Grows(env, s, t)
    && MemoKept(s, t)
    && forall i :: i in callers ==> Last(t.log, i) == Last(s.log, i)
  }

  lemma KeepsTrans(env: Env, s: State, t: State, u: State, callers: set<nat>)
    requires Keeps(env, s, t, callers) && Keeps(env, t, u, callers)
    ensures Keeps(env, s, u, callers)
  {
    hide Sound, Ready;
  }

  lemma KeepsSound(env: Env, s: State, t: State, callers: set<nat>)
    requires Keeps(env, s, t, callers)
    ensures Sound(env, t, callers) && Grows(env, s, t)
  {
    hide Sound, Ready;
  }

  /** What the store holds does not matter. */
  lemma KeepsStore(env: Env, s: State, store: Store, callers: set<nat>)
    requires Sound(env, s, callers)
    ensures Keeps(env, s, s.(store := store), callers)
  {
    hide WellFormed, DepsBelow, ResultsOk, Regular, Last;
  }

  /** Another event, about a caller. */
  lemma Log(env: Env, s: State, callers: set<nat>, e: Event)
    requires Sound(env, s, callers) && e.idx in callers && e.idx in s.executed && !e.Done?
    requires MayFollow(env, s.dag, s.log, e)
    ensures var t := s.(log := s.log + [e]);
      Sound(env, t, callers) && Last(t.log, e.idx) == Some(e)
        && forall i :: i != e.idx ==> Last(t.log, i) == Last(s.log, i)
  {
    hide WellFormed, DepsBelow, ResultsOk, Regular, MayFollow, Last;
    RegularAdd(env, s.dag, s.log, e);
    forall i ensures Last(s.log + [e], i) == if e.idx == i then Some(e) else Last(s.log, i) {
      LastAfter(s.log, e, i);
    }
  }

  /** From s to t, the node idx has been on the stack above the callers, and has no result yet. */
  ghost predicate Inside(env: Env, s: State, t: State, idx: nat, callers: set<nat>) {
    && Sound(env, t, callers + {idx}) && Grows(env, s, t) && MemoKept(s, t)
    && idx in t.executed && idx < |t.dag| && idx !in callers && idx !in t.memo
    && forall i :: i in callers ==> Last(t.log, i) == Last(s.log, i)
  }

  /** It leaves with an error. */
  lemma Abort(env: Env, s: State, t: State, idx: nat, callers: set<nat>)
    requires Inside(env, s, t, idx, callers)
    ensures Keeps(env, s, t.(log := t.log + [Aborted(idx)]), callers)
  {
    hide WellFormed, DepsBelow, ResultsOk, Regular, Last;
    DoneIsLast(env, t.dag, t.log, idx);
    Log(env, t, callers + {idx}, Aborted(idx));
  }

  /** It leaves with a result. */
  lemma Complete(env: Env, s: State, t: State, idx: nat, callers: set<nat>, r: Results)
    requires Inside(env, s, t, idx, callers)
    requires MayFollow(env, t.dag, t.log, Done(idx)) && NodeResultOk(env, t.dag, t.memo, idx, r)
    ensures Keeps(env, s, t.(memo := t.memo[idx := r], log := t.log + [Done(idx)]), callers)
  {
    hide WellFormed, DepsBelow, ResultsOk, NodeResultOk, Regular, MayFollow, Last;
    RegularAdd(env, t.dag, t.log, Done(idx));
    ResultsAdd(env, t.dag, t.memo, idx, r);
    forall i ensures Last(t.log + [Done(idx)], i) == if idx == i then Some(Done(idx)) else Last(t.log, i) {
      LastAfter(t.log, Done(idx), i);
    }
  }

  lemma KeepsMarked(env: Env, s: State, idx: nat, callers: set<nat>)
    requires Sound(env, s, callers) && idx in s.memo
    ensures Keeps(env, s, s.(executed := s.executed + {idx}), callers)
  {
    hide WellFormed, DepsBelow, ResultsOk, Regular, Last;
    assert Done(idx).idx in s.executed;
    assert s.executed + {idx} == s.executed;
  }

  // ---- The executor keeps it ----

  lemma {:induction false} ExecuteKeeps(env: Env, s: State, idx: nat, callers: set<nat>)
    requires Sound(env, s, callers) && idx < |s.dag| && Clear(s.dag, idx, callers)
    ensures Keeps(env, s, Execute(env, s, idx).0, callers)
    ensures Execute(env, s, idx).1.Some? ==>
      var t := Execute(env, s, idx).0; idx in t.memo && t.memo[idx] == Execute(env, s, idx).1.value
    decreases env.bound - |s.dag|, idx, 3, 0
  {
    hide WellFormed, DepsBelow, Uncached, MayFollow, NodeResultOk, Sound, Keeps, Inside;
    SoundReady(env, s, callers);
    if idx in s.memo {
      KeepsMarked(env, s, idx, callers);
    } else {
      UncachedKeeps(env, s, idx, callers);
      var (t, out) := Uncached(env, s, idx);
      if out.None? {
        Abort(env, s, t, idx, callers);
      } else {
        Complete(env, s, t, idx, callers, out.value);
      }
    }
  }

  /** The node is on the stack and without a result until the very end. */
  lemma {:induction false} UncachedKeeps(env: Env, s: State, idx: nat, callers: set<nat>)
    requires Sound(env, s, callers) && idx < |s.dag| && Clear(s.dag, idx, callers) && idx !in s.memo
    ensures var (t, out) := Uncached(env, s, idx);
      && Inside(env, s, t, idx, callers)
      && (out.Some? ==> MayFollow(env, t.dag, t.log, Done(idx)) && NodeResultOk(env, t.dag, t.memo, idx, out.value))
    decreases env.bound - |s.dag|, idx, 2, 0
  {
    hide WellFormed, HandlesOk, Execute, ExecDeps, ExecActions, Sound, Last, Flat, Regular;
    var b := s.dag[idx];
    var marked := s.(executed := s.executed + {idx});
    var stack := callers + {idx};
    Enter(env, s, idx, callers);
    SoundReady(env, s, callers);
    forall d | d in b.deps ensures Clear(s.dag, d, stack) {
      ClearAbove(s.dag, d, callers, idx);
    }
    DepsKeep(env, marked, idx, b.deps, stack);
    var (t, deps) := ExecDeps(env, marked, idx, b.deps);
    NotDone(env, t, stack, idx);
    if deps.Some? {
      assert t.dag[idx] == b;
      DepsReady(env, t, stack, idx);
      if idx !in env.forced && b.account != [] {
        RunKeeps(env, marked, t, idx, deps.value, stack);
      }
    }
  }

  lemma SoundReady(env: Env, s: State, callers: set<nat>)
    requires Sound(env, s, callers)
    ensures Ready(env, s)
  {
    hide WellFormed, DepsBelow, ResultsOk, Regular;
  }

  lemma Enter(env: Env, s: State, idx: nat, callers: set<nat>)
    requires Sound(env, s, callers) && idx < |s.dag| && idx !in callers && idx !in s.memo
    ensures var marked := s.(executed := s.executed + {idx});
      && Sound(env, marked, callers + {idx})
      && Last(s.log, idx) != Some(Run(idx)) && Last(s.log, idx) != Some(Done(idx))
  {
    hide WellFormed, DepsBelow, ResultsOk, Regular;
    hide Last;
  }

  lemma NotDone(env: Env, t: State, stack: set<nat>, idx: nat)
    requires Sound(env, t, stack) && Last(t.log, idx) != Some(Done(idx))
    ensures idx !in t.memo
  {
    hide WellFormed, DepsBelow, ResultsOk, Regular, Last;
    DoneIsLast(env, t.dag, t.log, idx);
  }

  lemma DepsReady(env: Env, t: State, stack: set<nat>, idx: nat)
    requires Sound(env, t, stack) && idx < |t.dag| && forall d :: d in t.dag[idx].deps ==> d in t.memo
    ensures DepsDone(t.log, t.dag[idx].deps)
  {
    hide WellFormed, DepsBelow, ResultsOk, Regular, Last;
  }

  /** With the deps done and no run open, the actions run; the run stays open until the node leaves. */
  lemma {:induction false} RunKeeps(env: Env, marked: State, t: State, idx: nat, results: Results, stack: set<nat>)
    requires Keeps(env, marked, t, stack) && idx in stack && idx < |t.dag| && idx in t.executed
    requires Last(t.log, idx) != Some(Run(idx)) && Last(t.log, idx) != Some(Done(idx))
    requires Runs(env, t.dag, idx) && DepsDone(t.log, t.dag[idx].deps)
    ensures var b := t.dag[idx];
      var (u, out) := ExecActions(env, t.(log := t.log + [Run(idx)]), idx, b, b.actions, results, []);
      && Sound(env, u, stack) && Grows(env, t, u) && MemoKept(t, u) && idx !in u.memo
      && (forall i :: i in stack && i != idx ==> Last(u.log, i) == Last(t.log, i))
      && MayFollow(env, u.dag, u.log, Done(idx))
    decreases env.bound - |t.dag|, idx, 1, 0
  {
    hide WellFormed, HandlesOk, ExecActions, Sound, Last, Clear, Regular;
    var b := t.dag[idx];
    var running := t.(log := t.log + [Run(idx)]);
    Log(env, t, stack, Run(idx));
    ActionsKeep(env, running, idx, b, b.actions, results, [], stack);
    var u := ExecActions(env, running, idx, b, b.actions, results, []).0;
    NotDone(env, u, stack, idx);
    assert u.log[..|t.log|] == t.log;
    assert forall e :: e in t.log ==> e in u.log[..|t.log|] && e in u.log;
  }

  lemma {:induction false} DepsKeep(env: Env, s: State, idx: nat, deps: seq<nat>, callers: set<nat>)
    requires Sound(env, s, callers) && idx < |s.dag| && (forall d :: d in deps ==> d < idx)
    requires forall d :: d in deps ==> Clear(s.dag, d, callers)
    ensures var (t, out) := ExecDeps(env, s, idx, deps);
      && Keeps(env, s, t, callers)
      && (out.Some? ==> (forall d :: d in deps ==> d in t.memo) && out.value == Flat(t.memo, deps))
    decreases env.bound - |s.dag|, idx, 1, |deps|
  {
    hide WellFormed, DepsBelow, ResultsOk, Regular, Execute, Last;
    if deps != [] {
      assert deps[0] in deps && forall d :: d in deps[1..] ==> d in deps;
      ExecuteKeeps(env, s, deps[0], callers);
      var (t, first) := Execute(env, s, deps[0]);
      if first.Some? {
        forall d | d in deps[1..] ensures Clear(t.dag, d, callers) {
          ClearExtend(s.dag, t.dag, d, callers);
        }
        DepsKeep(env, t, idx, deps[1..], callers);
        KeepsTrans(env, s, t, ExecDeps(env, t, idx, deps[1..]).0, callers);
      }
    }
  }

  lemma CallKeeps(env: Env, s: State, node: nat, account: Account, m: Bytes, args: Bytes, predecessor: Account,
                  deposit: Amount, results: Results, callers: set<nat>)
    requires Sound(env, s, callers)
    ensures var (t, res) := SubExecute(env, s, node, account, m, args, predecessor, deposit, results);
      && Keeps(env, s, t, callers)
      && (res.Finished? && res.handle.Some? ==> Clear(t.dag, res.handle.value, callers))
  {
    hide WellFormed, Regular, ResultsOk, Last, SubExecute;
    var (t, res) := SubExecute(env, s, node, account, m, args, predecessor, deposit, results);
    RegularExtend(env, s.dag, t.dag, s.log);
    ResultsExtend(env, s.dag, t.dag, s.memo);
    if res.Finished? && res.handle.Some? {
      ClearFresh(t.dag, res.handle.value, callers, |s.dag|);
    }
  }

  lemma {:induction false} ActionsKeep(env: Env, s: State, idx: nat, b: Batch, actions: seq<Action>,
                                       results: Results, touched: seq<Undo>, callers: set<nat>)
    requires Sound(env, s, callers) && idx < |s.dag|
    ensures Keeps(env, s, ExecActions(env, s, idx, b, actions, results, touched).0, callers)
    decreases env.bound - |s.dag|, idx, 0, |actions|
  {
    hide WellFormed, HandlesOk, Execute, SubExecute, DepsBelow, Sound, Keeps, Balance, Transferred, UndoOf;
    SoundReady(env, s, callers);
    forall st ensures Keeps(env, s, s.(store := st), callers) { KeepsStore(env, s, st, callers); }
    if actions == [] {
      assert s.(store := s.store) == s;
    } else if actions[0].FnCall? {
      var a := actions[0];
      CallKeeps(env, s, idx, b.account, a.method_, a.args, b.creator, a.deposit, results, callers);
      var (t, res) := SubExecute(env, s, idx, b.account, a.method_, a.args, b.creator, a.deposit, results);
      if res.Finished? {
        var (u, child) := if res.handle.Some? then Execute(env, t, res.handle.value) else (t, Some([]));
        KeepsSound(env, s, t, callers);
        if res.handle.Some? {
          ExecuteKeeps(env, t, res.handle.value, callers);
          KeepsTrans(env, s, t, u, callers);
        }
        if child.Some? {
          KeepsSound(env, s, u, callers);
          ActionsKeep(env, u, idx, b, actions[1..], results, touched, callers);
          KeepsTrans(env, s, u, ExecActions(env, u, idx, b, actions[1..], results, touched).0, callers);
        }
      }
    } else if Balance(s.store, b.creator) >= actions[0].amount {
      var t := s.(store := Transferred(s.store, b.creator, b.account, actions[0].amount));
      var more := touched + UndoOf(s.store, b.creator, b.account, actions[0].amount);
      KeepsSound(env, s, t, callers);
      ActionsKeep(env, t, idx, b, actions[1..], results, more, callers);
      KeepsTrans(env, s, t, ExecActions(env, t, idx, b, actions[1..], results, more).0, callers);
    }
  }

  lemma {:induction false} DrainKeeps(env: Env, s: State)
    requires Sound(env, s, {})
    ensures Keeps(env, s, Drain(env, s).0, {})
    decreases |Pending(env, s)|
  {
    hide WellFormed, Regular, ResultsOk, Execute, Last;
    var next := NextOrphan(s.dag, s.executed, 0);
    if next.Some? {
      var (t, out) := Execute(env, s, next.value);
      PendingShrinks(env, s, t, next.value);
      ClearFresh(s.dag, next.value, {}, 0);
      ExecuteKeeps(env, s, next.value, {});
      DrainKeeps(env, t);
      KeepsTrans(env, s, t, Drain(env, t).0, {});
    }
  }

  // ---- What a regular log says ----

  lemma {:induction false} LastAt(log: seq<Event>, i: nat)
    requires Last(log, i).Some?
    ensures exists r :: 0 <= r < |log| && Some(log[r]) == Last(log, i) && forall k :: r < k < |log| ==> log[k].idx != i
  {
    var n := |log| - 1;
    if log[n].idx != i {
      LastAt(log[..n], i);
      var r :| 0 <= r < n && Some(log[r]) == Last(log, i) && forall k :: r < k < n ==> log[..n][k].idx != i;
      forall k | r < k < |log| ensures log[k].idx != i { assert k < n ==> log[k] == log[..n][k]; }
    }
  }

  /** Between two runs of a node an error ended the first. */
  lemma ErrorBetween(env: Env, dag: seq<Batch>, log: seq<Event>, i: nat, p: nat, q: nat)
    requires Regular(env, dag, log) && p < q < |log| && log[p] == log[q] == Run(i)
    ensures exists r :: p < r < q && log[r] == Aborted(i)
  {
    RegularAt(env, dag, log, q);
    var front := log[..q];
    assert front[p].idx == i && front[p] in front;
    LastAt(front, i);
    var r :| 0 <= r < q && Some(front[r]) == Last(front, i) && forall k :: r < k < q ==> front[k].idx != i;
    assert log[r] == front[r];
  }

  /** After its result there is no event about a node. */
  lemma NothingAfterDone(env: Env, dag: seq<Batch>, log: seq<Event>, p: nat, q: nat)
    requires Regular(env, dag, log) && p < q < |log| && log[p].Done?
    ensures log[q].idx != log[p].idx
  {
    RegularAt(env, dag, log, q);
    var i := log[p].idx;
    assert log[..q][p] == Done(i) && Done(i) in log[..q];
    RegularPrefix(env, dag, log, q);
    DoneIsLast(env, dag, log[..q], i);
  }

  lemma {:induction false} RegularPrefix(env: Env, dag: seq<Batch>, log: seq<Event>, q: nat)
    requires Regular(env, dag, log) && q <= |log|
    ensures Regular(env, dag, log[..q])
  {
    if q < |log| {
      RegularPrefix(env, dag, log[..|log| - 1], q);
      assert log[..|log| - 1][..q] == log[..q];
    } else {
      assert log[..q] == log;
    }
  }

  function Count(log: seq<Event>, e: Event): nat { multiset(log)[e] }

  lemma CountAdd(log: seq<Event>, e: Event, x: Event)
    ensures Count(log + [e], x) == Count(log, x) + if e == x then 1 else 0
  {}

  /** Every run but an open one has ended, in a result or in an error; a node has at most one result. */
  lemma {:induction false} RunsAreEnded(env: Env, dag: seq<Batch>, log: seq<Event>, i: nat)
    requires Regular(env, dag, log)
    ensures Count(log, Done(i)) == if Done(i) in log then 1 else 0
    ensures Count(log, Run(i)) <=
              Count(log, Done(i)) + Count(log, Aborted(i)) + if Last(log, i) == Some(Run(i)) then 1 else 0
  {
    hide MayFollow, Count, Last;
    if log != [] {
      var front, e := log[..|log| - 1], log[|log| - 1];
      assert log == front + [e];
      RunsAreEnded(env, dag, front, i);
      LastAfter(front, e, i);
      CountAdd(front, e, Run(i));
      CountAdd(front, e, Done(i));
      CountAdd(front, e, Aborted(i));
      DoneIsLast(env, dag, front, i);
      NotAfterDone(env, dag, front, e);
    } else {
      CountNothing(i);
    }
  }

  lemma NotAfterDone(env: Env, dag: seq<Batch>, log: seq<Event>, e: Event)
    requires MayFollow(env, dag, log, e)
    ensures Last(log, e.idx) != Some(Done(e.idx)) && (e.Run? ==> Last(log, e.idx) != Some(Run(e.idx)))
  {}

  lemma CountNothing(i: nat)
    ensures Count([], Run(i)) == Count([], Done(i)) == 0
  {}

  /** A result of a node with actions comes after a run. */
  lemma RanFirst(env: Env, dag: seq<Batch>, log: seq<Event>, i: nat)
    requires Regular(env, dag, log) && Done(i) in log
    ensures i < |dag| && (Run(i) in log <==> Runs(env, dag, i))
  {
    var p :| 0 <= p < |log| && log[p] == Done(i);
    RegularAt(env, dag, log, p);
    assert forall e :: e in log[..p] ==> e in log;
    if Run(i) in log {
      var q :| 0 <= q < |log| && log[q] == Run(i);
      RegularAt(env, dag, log, q);
    }
  }

  // ---- Whole runs, with or without errors ----

  /**
   * How a node stands at the end: it has ended; its result is recorded exactly when it completed, at most once; each of
   * its runs has ended, in a result or an error; and unless it met an error it ran exactly once.
   */
  ghost predicate NodeAccounted(env: Env, t: State, i: nat)
    requires i < |t.dag|
  {
    && i in t.executed && Ended(t.log, i)
    && (i in t.memo <==> Done(i) in t.log)
    && (i in t.memo ==> NodeResultOk(env, t.dag, t.memo, i, t.memo[i]))
    && Count(t.log, Done(i)) <= 1
    && Count(t.log, Run(i)) <= Count(t.log, Done(i)) + Count(t.log, Aborted(i))
    && (Aborted(i) !in t.log ==> i in t.memo && Count(t.log, Run(i)) == if Runs(env, t.dag, i) then 1 else 0)
  }

  /** An event is about a known node, and a node starts and completes only after all its deps have completed. */
  predicate EventAccounted(env: Env, t: State, p: nat)
    requires p < |t.log|
  {
    var e := t.log[p];
    && e.idx < |t.dag|
    && (e.Run? ==> Runs(env, t.dag, e.idx))
    && (!e.Aborted? ==> DepsDone(t.log[..p], t.dag[e.idx].deps))
  }

  /** Of two events the later one is not about a node that had completed, and two runs have an error in between. */
  ghost predicate PairAccounted(log: seq<Event>, p: nat, q: nat)
    requires p < q < |log|
  {
    && (log[p].Done? ==> log[q].idx != log[p].idx)
    && (log[p].Run? && log[q] == log[p] ==> exists r :: p < r < q && log[r] == Aborted(log[p].idx))
  }

  ghost predicate Accounted(env: Env, t: State) {
    && (forall i :: 0 <= i < |t.dag| ==> NodeAccounted(env, t, i))
    && (forall p :: 0 <= p < |t.log| ==> EventAccounted(env, t, p))
    && (forall p, q :: 0 <= p < q < |t.log| ==> PairAccounted(t.log, p, q))
  }

  lemma SoundIsAccounted(env: Env, t: State)
    requires Sound(env, t, {}) && forall i :: 0 <= i < |t.dag| ==> i in t.executed
    ensures Accounted(env, t)
  {
    forall i | 0 <= i < |t.dag| ensures NodeAccounted(env, t, i) {
      SoundNode(env, t, i);
    }
    SoundLog(env, t, {});
    hide Sound, NodeAccounted, EventAccounted, PairAccounted, Regular;
    forall p | 0 <= p < |t.log| ensures EventAccounted(env, t, p) {
      SoundEvent(env, t, p);
    }
    forall p, q | 0 <= p < q < |t.log| ensures PairAccounted(t.log, p, q) {
      SoundPair(env, t, p, q);
    }
  }

  lemma SoundLog(env: Env, t: State, callers: set<nat>)
    requires Sound(env, t, callers)
    ensures Regular(env, t.dag, t.log)
  {}

  lemma SoundNode(env: Env, t: State, i: nat)
    requires Sound(env, t, {}) && i < |t.dag| && i in t.executed
    ensures NodeAccounted(env, t, i)
  {
    hide WellFormed, DepsBelow, Regular, Last, NodeResultOk, Runs, Count;
    RunsAreEnded(env, t.dag, t.log, i);
    DoneIsLast(env, t.dag, t.log, i);
    if Done(i) in t.log {
      RanFirst(env, t.dag, t.log, i);
      InLog(t.log, Run(i));
    }
  }

  lemma InLog(log: seq<Event>, e: Event)
    ensures e in log <==> Count(log, e) > 0
    ensures forall x :: x !in log ==> Count(log, x) == 0
  {}

  lemma SoundEvent(env: Env, t: State, p: nat)
    requires Regular(env, t.dag, t.log) && p < |t.log|
    ensures EventAccounted(env, t, p)
  {
    RegularAt(env, t.dag, t.log, p);
    hide Regular;
  }

  lemma SoundPair(env: Env, t: State, p: nat, q: nat)
    requires Regular(env, t.dag, t.log) && p < q < |t.log|
    ensures PairAccounted(t.log, p, q)
  {
    hide Regular;
    if t.log[p].Done? {
      NothingAfterDone(env, t.dag, t.log, p, q);
    } else if t.log[p].Run? && t.log[q] == t.log[p] {
      ErrorBetween(env, t.dag, t.log, t.log[p].idx, p, q);
    }
  }

  lemma FreshSound(env: Env, dag: seq<Batch>, store: Store)
    requires Ready(env, Fresh(dag, store))
    ensures Sound(env, Fresh(dag, store), {})
  {
    hide WellFormed, DepsBelow;
  }

  /** A transaction that is not deferred, whatever fails in it, a rollback of the store included. */
  lemma TransactionAccounted(env: Env, store: Store, queue: seq<Batch>, callee: Account, m: Bytes, args: Bytes,
                             signer: Account, attach: Amount)
    requires WellFormed(env)
    requires var tx := Transact(env, store, queue, callee, m, args, signer, attach, false);
      tx.outcome.Settled? && !tx.outcome.trapped
    ensures Accounted(env, Transact(env, store, queue, callee, m, args, signer, attach, false).s)
  {
    hide Drain, Execute, Own, Credited, ApplyOps, Sound, Accounted, Uncredited, NonEmpty, LastSome;
    var out := env.run(EntryCall(store, callee, m, args, signer, attach));
    assert HandlesOk(0, out, env.bound);
    var credited := Credited(store, callee, attach);
    var s := EntryState(env, credited, callee, out);
    FreshSound(env, s.dag, s.store);
    if out.ret.None? {
      DrainAccounted(env, s);
    } else {
      ReturnedSound(env, s, out.ret.value, credited);
      var (t, res) := Execute(env, s, out.ret.value);
      DrainAccounted(env, if res.None? then t.(store := credited) else t);
    }
  }

  lemma DrainAccounted(env: Env, s: State)
    requires Sound(env, s, {})
    ensures Ready(env, s) && Accounted(env, Drain(env, s).0)
  {
    SoundReady(env, s, {});
    DrainKeeps(env, s);
    hide Drain, Sound, Accounted;
    SoundIsAccounted(env, Drain(env, s).0);
  }

  lemma ReturnedSound(env: Env, s: State, root: nat, snapshot: Store)
    requires Sound(env, s, {}) && root < |s.dag|
    ensures Ready(env, s)
    ensures var t := Execute(env, s, root).0; Sound(env, t, {}) && Sound(env, t.(store := snapshot), {})
  {
    hide WellFormed, Regular, ResultsOk, Execute, Last;
    ClearFresh(s.dag, root, {}, 0);
    ExecuteKeeps(env, s, root, {});
  }

  /** The same for a settled queue. */
  lemma SettleAccounted(env: Env, queue: seq<Batch>, store: Store)
    requires Ready(env, Fresh(queue, store))
    ensures Accounted(env, Settle(env, queue, store).0)
  {
    hide WellFormed, DepsBelow, Deliver, Drain, Accounted, Sound;
    FreshSound(env, queue, store);
    DrainAccounted(env, Fresh(queue, store));
    DeliverIsDrain(env, Fresh(queue, store), Report(0, []));
    if queue == [] { DrainNone(env, Fresh([], store)); }
  }

  // ---- Runs do repeat ----

  /** Node 0 pays one unit and then calls a contract that cannot be started; node 1 joins node 0. */
  function PaysThenBreaks(x: Account, y: Account): seq<Batch> {
    [Batch([], y, x, [Transfer(1), FnCall([], [], 0)]), Batch([0], [], x, [])]
  }

  /** One run of node 0: the payment stays, and the error leaves nothing in the memo table. */
  lemma OneBrokenRun(env: Env, s: State, x: Account, y: Account)
    requires Ready(env, s) && s.dag == PaysThenBreaks(x, y) && s.memo == map[] && 0 !in env.forced
    requires y != [] && y in env.deployed && forall c: CallIn :: env.run(c).Infra?
    requires Balance(s.store, x) >= 1
    ensures var (t, out) := Execute(env, s, 0);
      out.None? && t == s.(executed := s.executed + {0}, store := Transferred(s.store, x, y, 1),
                           log := s.log + [Run(0), Aborted(0)], calls := t.calls)
  {
    hide WellFormed, Balance, Transferred, UndoOf;
    var b := s.dag[0];
    var running := s.(executed := s.executed + {0}, log := s.log + [Run(0)]);
    var paid := running.(store := Transferred(s.store, x, y, 1));
    assert ExecDeps(env, s.(executed := s.executed + {0}), 0, []) == (s.(executed := s.executed + {0}), Some([]));
    assert b.actions[1..] == [FnCall([], [], 0)];
    var touched := [] + UndoOf(s.store, x, y, 1);
    var broken := paid.(calls := paid.calls + [Called(0, Call(paid, y, [], [], x, 0, []))]);
    assert SubExecute(env, paid, 0, y, [], [], x, 0, []) == (broken, Broken);
    assert ExecActions(env, paid, 0, b, [FnCall([], [], 0)], [], touched) == (broken, None);
    assert ExecActions(env, running, 0, b, b.actions, [], []) == (broken, None);
    assert s.log + [Run(0)] + [Aborted(0)] == s.log + [Run(0), Aborted(0)];
  }

  /** Drained, node 0 runs twice, once for each visit, and its payment is made twice. */
  lemma RunsAgain(env: Env, x: Account, y: Account, store: Store)
    requires WellFormed(env) && env.bound >= 2 && 0 !in env.forced
    requires y != [] && y in env.deployed && forall c: CallIn :: env.run(c).Infra?
    requires x != y && Balance(store, x) >= 2
    ensures var t := Drain(env, Fresh(PaysThenBreaks(x, y), store)).0;
      && t.log == [Run(0), Aborted(0), Run(0), Aborted(0), Aborted(1)]
      && Balance(t.store, x) == Balance(store, x) - 2
  {
    hide WellFormed, Balance, Transferred, Execute, Drain;
    var s := Fresh(PaysThenBreaks(x, y), store);
    OneBrokenRun(env, s, x, y);
    TransferMoves(store, x, y, 1);
    var t := Execute(env, s, 0).0;
    DrainOne(env, s, 0);
    OneBrokenRun(env, t.(executed := t.executed + {1}), x, y);
    TransferMoves(t.store, x, y, 1);
    var v := Execute(env, t.(executed := t.executed + {1}), 0).0;
    BrokenDep(env, t);
    var u := Execute(env, t, 1).0;
    assert u.log == [Run(0), Aborted(0), Run(0), Aborted(0), Aborted(1)];
    assert u.executed == {0, 1};
    DrainOne(env, t, 1);
    DrainNone(env, u);
  }

  /** The join meets the error of its dep. */
  lemma BrokenDep(env: Env, t: State)
    requires Ready(env, t) && |t.dag| == 2 && t.dag[1].deps == [0] && t.memo == map[]
    requires Execute(env, t.(executed := t.executed + {1}), 0).1.None?
    ensures var v := Execute(env, t.(executed := t.executed + {1}), 0).0;
      Execute(env, t, 1) == (v.(log := v.log + [Aborted(1)]), None)
  {
    hide WellFormed;
    BrokenUncached(env, t);
    hide Uncached, ExecDeps;
  }

  lemma BrokenUncached(env: Env, t: State)
    requires Ready(env, t) && |t.dag| == 2 && t.dag[1].deps == [0]
    requires Execute(env, t.(executed := t.executed + {1}), 0).1.None?
    ensures Uncached(env, t, 1) == (Execute(env, t.(executed := t.executed + {1}), 0).0, None)
  {
    hide WellFormed, Execute;
  }
}
