/** `settle_receipts` never sticks, and deferred delivery reaches the same state as eager execution. */
module Delivery {
  import opened Wrappers
  import opened Storage
  import opened Receipts
  import opened OnceOnly

  // ---- Settling is draining ----

  lemma DrainNone(env: Env, s: State)
    requires Ready(env, s)
    ensures (forall i :: 0 <= i < |s.dag| ==> i in s.executed) ==> Drain(env, s) == (s, 0)
  {
    hide WellFormed, Execute;
  }

  /** Deps point down, so the least unexecuted node is the first ready one. */
  lemma {:induction false} NextReadyIsNextOrphan(s: State, from: nat)
    requires DepsBelow(s.dag) && from <= |s.dag|
    requires forall i :: 0 <= i < from ==> i in s.executed
    ensures NextReady(s.dag, s.executed, from) == NextOrphan(s.dag, s.executed, from)
    decreases |s.dag| - from
  {
    if from < |s.dag| && from in s.executed {
      NextReadyIsNextOrphan(s, from + 1);
    }
  }

  /** `settle_receipts` never sticks: whatever the marks and the memo table, it delivers until every node is marked. */
  lemma {:induction false} DeliverIsDrain(env: Env, s: State, report: Report)
    requires Ready(env, s)
    ensures Deliver(env, s, report).0 == Drain(env, s).0
    ensures forall i :: 0 <= i < |Deliver(env, s, report).0.dag| ==> i in Deliver(env, s, report).0.executed
    decreases |Pending(env, s)|
  {
    hide WellFormed, Execute;
    NextReadyIsNextOrphan(s, 0);
    var next := NextReady(s.dag, s.executed, 0);
    if next.Some? {
      var (t, out) := Execute(env, s, next.value);
      PendingShrinks(env, s, t, next.value);
      DeliverIsDrain(env, t, Report(report.delivered + 1, report.results + (if out.Some? then out.value else [None])));
    }
  }

  // ---- The queue ----

  /** A queue with a second deferral behind it, its deps meant as positions in its own graph. */
  function Rebased(q: seq<Batch>, offset: nat): seq<Batch> {
    seq(|q|, k requires 0 <= k < |q| =>
      q[k].(deps := seq(|q[k].deps|, j requires 0 <= j < |q[k].deps| => q[k].deps[j] + offset)))
  }

  /**
   * The reload maps the d-th dep to the d-th batch of the whole queue, so two deferrals are rebuilt as intended exactly
   * when the first is empty or the second has no deps at all.
   */
  lemma SecondDeferralRebuilt(first: seq<Batch>, second: seq<Batch>)
    ensures first + second == first + Rebased(second, |first|)
       <==> first == [] || forall k :: 0 <= k < |second| ==> second[k].deps == []
  {
    var moved := Rebased(second, |first|);
    if first + second == first + moved {
      if exists k :: 0 <= k < |second| && second[k].deps != [] {
        var k :| 0 <= k < |second| && second[k].deps != [];
        assert (first + second)[|first| + k] == (first + moved)[|first| + k];
        assert second[k].deps[0] == moved[k].deps[0] == second[k].deps[0] + |first|;
      }
    } else {
      assert second != moved;
      var k :| 0 <= k < |second| && second[k] != moved[k];
      assert second[k].deps != moved[k].deps;
    }
  }

  // ---- The executed set is never read ----

  function Also(s: State, extra: set<nat>): State { s.(executed := s.executed + extra) }

  lemma {:induction false} ExecuteIgnoresMarks(env: Env, s: State, idx: nat, extra: set<nat>)
    requires Ready(env, s) && idx < |s.dag|
    ensures var (t, out) := Execute(env, s, idx);
      Execute(env, Also(s, extra), idx) == (Also(t, extra), out)
    decreases env.bound - |s.dag|, idx, 3, 0
  {
    if idx in s.memo {
      assert s.executed + extra + {idx} == s.executed + {idx} + extra;
    } else {
      UncachedIgnoresMarks(env, s, idx, extra);
    }
  }

  lemma {:induction false} UncachedIgnoresMarks(env: Env, s: State, idx: nat, extra: set<nat>)
    requires Ready(env, s) && idx < |s.dag|
    ensures var (t, out) := Uncached(env, s, idx);
      Uncached(env, Also(s, extra), idx) == (Also(t, extra), out)
    decreases env.bound - |s.dag|, idx, 2, 0
  {
    var b := s.dag[idx];
    var marked := s.(executed := s.executed + {idx});
    assert Also(s, extra).(executed := Also(s, extra).executed + {idx}) == Also(marked, extra) by {
      assert s.executed + extra + {idx} == s.executed + {idx} + extra;
    }
    DepsIgnoreMarks(env, marked, idx, b.deps, extra);
    var (t, deps) := ExecDeps(env, marked, idx, b.deps);
    if deps.Some? && idx !in env.forced && b.account != [] {
      ActionsIgnoreMarks(env, t.(log := t.log + [Run(idx)]), idx, b, b.actions, deps.value, [], extra);
    }
  }

  lemma {:induction false} DepsIgnoreMarks(env: Env, s: State, idx: nat, deps: seq<nat>, extra: set<nat>)
    requires Ready(env, s) && idx < |s.dag| && forall d :: d in deps ==> d < idx
    ensures var (t, out) := ExecDeps(env, s, idx, deps);
      ExecDeps(env, Also(s, extra), idx, deps) == (Also(t, extra), out)
    decreases env.bound - |s.dag|, idx, 1, |deps|
  {
    if deps != [] {
      assert deps[0] in deps && forall d :: d in deps[1..] ==> d in deps;
      ExecuteIgnoresMarks(env, s, deps[0], extra);
      var (t, first) := Execute(env, s, deps[0]);
      if first.Some? {
        DepsIgnoreMarks(env, t, idx, deps[1..], extra);
      }
    }
  }

  lemma {:induction false} ActionsIgnoreMarks(env: Env, s: State, idx: nat, b: Batch, actions: seq<Action>,
                                              results: Results, touched: seq<Undo>, extra: set<nat>)
    requires Ready(env, s) && idx < |s.dag|
    ensures var (t, out) := ExecActions(env, s, idx, b, actions, results, touched);
      ExecActions(env, Also(s, extra), idx, b, actions, results, touched) == (Also(t, extra), out)
    decreases env.bound - |s.dag|, idx, 0, |actions|
  {
    hide WellFormed, HandlesOk, Execute, DepsBelow, StoreAfter, PayDeposit, Balance;
    if actions == [] {
    } else if actions[0].FnCall? {
      var a := actions[0];
      var (t, res) := SubExecute(env, s, idx, b.account, a.method_, a.args, b.creator, a.deposit, results);
      assert SubExecute(env, Also(s, extra), idx, b.account, a.method_, a.args, b.creator, a.deposit, results)
          == (Also(t, extra), res);
      if res.Finished? {
        var (u, child) := if res.handle.Some? then Execute(env, t, res.handle.value) else (t, Some([]));
        if res.handle.Some? { ExecuteIgnoresMarks(env, t, res.handle.value, extra); }
        if child.Some? {
          ActionsIgnoreMarks(env, u, idx, b, actions[1..], results, touched, extra);
        }
      }
    } else if Balance(s.store, b.creator) >= actions[0].amount {
      var t := s.(store := Transferred(s.store, b.creator, b.account, actions[0].amount));
      ActionsIgnoreMarks(env, t, idx, b, actions[1..], results,
        touched + UndoOf(s.store, b.creator, b.account, actions[0].amount), extra);
    }
  }

  // ---- Which nodes one execution marks ----

  /** Nothing from `lo` on depends on anything below it. */
  predicate Closed(dag: seq<Batch>, lo: nat) {
    forall i, d :: lo <= i < |dag| && d in dag[i].deps ==> lo <= d
  }

  /** Executing i marks i, nodes between lo and i, and nodes created meanwhile: nothing else. */
  ghost predicate MarksWithin(s: State, t: State, lo: nat, i: nat) {
    && Closed(t.dag, lo)
    && forall j :: j in t.executed ==> j in s.executed || lo <= j <= i || j >= |s.dag|
  }

  lemma {:induction false} ExecuteMarks(env: Env, s: State, lo: nat, idx: nat)
    requires Ready(env, s) && lo <= idx < |s.dag| && Closed(s.dag, lo)
    ensures MarksWithin(s, Execute(env, s, idx).0, lo, idx)
    decreases env.bound - |s.dag|, idx, 3, 0
  {
    if idx !in s.memo { UncachedMarks(env, s, lo, idx); }
  }

  lemma {:induction false} UncachedMarks(env: Env, s: State, lo: nat, idx: nat)
    requires Ready(env, s) && lo <= idx < |s.dag| && Closed(s.dag, lo)
    ensures MarksWithin(s, Uncached(env, s, idx).0, lo, idx)
    decreases env.bound - |s.dag|, idx, 2, 0
  {
    var b := s.dag[idx];
    var marked := s.(executed := s.executed + {idx});
    DepsMark(env, marked, lo, idx, b.deps);
    var (t, deps) := ExecDeps(env, marked, idx, b.deps);
    if deps.Some? && idx !in env.forced && b.account != [] {
      ActionsMark(env, t.(log := t.log + [Run(idx)]), lo, idx, b, b.actions, deps.value, []);
    }
  }

  lemma {:induction false} DepsMark(env: Env, s: State, lo: nat, idx: nat, deps: seq<nat>)
    requires Ready(env, s) && lo <= idx < |s.dag| && Closed(s.dag, lo) && forall d :: d in deps ==> lo <= d < idx
    ensures MarksWithin(s, ExecDeps(env, s, idx, deps).0, lo, idx)
    decreases env.bound - |s.dag|, idx, 1, |deps|
  {
    if deps != [] {
      assert deps[0] in deps && forall d :: d in deps[1..] ==> d in deps;
      ExecuteMarks(env, s, lo, deps[0]);
      var (t, first) := Execute(env, s, deps[0]);
      if first.Some? { DepsMark(env, t, lo, idx, deps[1..]); }
    }
  }

  lemma {:induction false} ActionsMark(env: Env, s: State, lo: nat, idx: nat, b: Batch, actions: seq<Action>,
                                       results: Results, touched: seq<Undo>)
    requires Ready(env, s) && lo <= idx < |s.dag| && Closed(s.dag, lo)
    ensures MarksWithin(s, ExecActions(env, s, idx, b, actions, results, touched).0, lo, idx)
    ensures forall j :: j in ExecActions(env, s, idx, b, actions, results, touched).0.executed ==>
              j in s.executed || j >= |s.dag|
    decreases env.bound - |s.dag|, idx, 0, |actions|
  {
    hide WellFormed, HandlesOk, Execute, SubExecute, StoreAfter, PayDeposit, Balance;
    if actions == [] {
    } else if actions[0].FnCall? {
      var a := actions[0];
      var (t, res) := SubExecute(env, s, idx, b.account, a.method_, a.args, b.creator, a.deposit, results);
      if res.Finished? {
        var (u, child) := if res.handle.Some? then Execute(env, t, res.handle.value) else (t, Some([]));
        if res.handle.Some? {
          ExecuteMarks(env, t, |s.dag|, res.handle.value);
          assert Closed(u.dag, lo) by {
            forall i, d | lo <= i < |u.dag| && d in u.dag[i].deps ensures lo <= d {
              if i < |s.dag| { assert u.dag[i] == s.dag[i]; }
            }
          }
        }
        if child.Some? { ActionsMark(env, u, lo, idx, b, actions[1..], results, touched); }
      }
    } else if Balance(s.store, b.creator) >= actions[0].amount {
      var t := s.(store := Transferred(s.store, b.creator, b.account, actions[0].amount));
      ActionsMark(env, t, lo, idx, b, actions[1..], results,
        touched + UndoOf(s.store, b.creator, b.account, actions[0].amount));
    }
  }

  // ---- Eager against deferred ----

  /**
   * A depth-first visit of the returned graph that has already finished 0 .. n - 1: the number finished afterwards,
   * or nothing when some node would finish out of index order.
   */
  function Visit(dag: seq<Batch>, i: nat, n: nat): (m: Option<nat>)
    requires i < |dag| && DepsBelow(dag)
    requires n <= |dag|
    ensures m.Some? ==> n <= m.value <= |dag| && i < m.value
    decreases i, 1, 0
  {
    if i < n then Some(n) else
      var m := VisitDeps(dag, i, dag[i].deps, n);
      if m == Some(i) then Some(i + 1) else None
  }

  function VisitDeps(dag: seq<Batch>, i: nat, deps: seq<nat>, n: nat): (m: Option<nat>)
    requires i < |dag| && DepsBelow(dag) && n <= |dag| && forall d :: d in deps ==> d < i
    ensures m.Some? ==> n <= m.value <= |dag|
    decreases i, 0, |deps|
  {
    if deps == [] then Some(n) else
      assert deps[0] in deps && forall d :: d in deps[1..] ==> d in deps;
      var m := Visit(dag, deps[0], n);
      if m.None? then None else VisitDeps(dag, i, deps[1..], m.value)
  }

  /** The returned graph's nodes are 0 .. root, numbered in the order they finish. */
  predicate PostOrder(dag: seq<Batch>, root: nat)
    requires root < |dag| && DepsBelow(dag)
  {
    Visit(dag, root, 0) == Some(root + 1)
  }

  /** Nodes 0 .. n - 1 executed one after the other. */
  ghost function InTurn(env: Env, s: State, n: nat): (t: State)
    requires Ready(env, s) && n <= |s.dag|
    ensures Grows(env, s, t) && forall i :: 0 <= i < n ==> i in t.executed
  {
    if n == 0 then s else Execute(env, InTurn(env, s, n - 1), n - 1).0
  }

  /** Executed in turn, exactly the nodes below n and nodes created meanwhile are marked. */
  lemma {:induction false} TurnMarks(env: Env, s: State, n: nat)
    requires Ready(env, s) && n <= |s.dag| && s.executed == {}
    ensures forall j :: j in InTurn(env, s, n).executed ==> j < n || j >= |s.dag|
  {
    if n > 0 {
      TurnMarks(env, s, n - 1);
      ExecuteMarks(env, InTurn(env, s, n - 1), 0, n - 1);
    }
  }

  /** After n turns without error: a quiet state in which every node below n has its result. */
  ghost predicate TurnsOk(env: Env, s: State, n: nat)
    requires Ready(env, s) && n <= |s.dag|
  {
    var t := InTurn(env, s, n);
    Inv(env, t) && InProgress(t) == {} && forall i :: 0 <= i < n ==> i in t.memo
  }

  /** Dependencies all memoised are replayed and change nothing. */
  lemma {:induction false} DepsHit(env: Env, s: State, idx: nat, deps: seq<nat>)
    requires Ready(env, s) && idx < |s.dag| && (forall d :: d in deps ==> d < idx)
    requires forall d :: d in deps ==> d in s.memo && d in s.executed
    ensures ExecDeps(env, s, idx, deps) == (s, Some(Flat(s.memo, deps)))
    decreases |deps|
  {
    if deps != [] {
      assert deps[0] in deps && forall d :: d in deps[1..] ==> d in deps;
      assert s.executed + {deps[0]} == s.executed;
      assert Execute(env, s, deps[0]) == (s, Some(s.memo[deps[0]]));
      DepsHit(env, s, idx, deps[1..]);
    }
  }

  /** Once marked, an unmemoised node's execution depends only on what its dependencies leave. */
  lemma SameAfterDeps(env: Env, a: State, b: State, i: nat)
    requires Ready(env, a) && Ready(env, b) && i < |a.dag| && i < |b.dag| && a.dag[i] == b.dag[i]
    requires i !in a.memo && i !in b.memo
    requires ExecDeps(env, Also(a, {i}), i, a.dag[i].deps) == ExecDeps(env, Also(b, {i}), i, a.dag[i].deps)
    ensures Execute(env, a, i) == Execute(env, b, i)
  {
    hide WellFormed, HandlesOk, ExecDeps, ExecActions;
  }

  /** An error among the dependencies is the node's error. */
  lemma DepsSucceed(env: Env, s: State, i: nat)
    requires Ready(env, s) && i < |s.dag| && i !in s.memo && Execute(env, s, i).1.Some?
    ensures ExecDeps(env, Also(s, {i}), i, s.dag[i].deps).1.Some?
  {
    hide WellFormed, HandlesOk, ExecDeps, ExecActions;
  }

  /** One more turn. */
  lemma NextTurn(env: Env, s: State, i: nat)
    requires Ready(env, s) && i < |s.dag| && TurnsOk(env, s, i)
    requires Execute(env, InTurn(env, s, i), i).1.Some?
    ensures TurnsOk(env, s, i + 1)
    ensures MemoKept(InTurn(env, s, i), InTurn(env, s, i + 1))
    ensures Execute(env, InTurn(env, s, i), i) == (InTurn(env, s, i + 1), Some(InTurn(env, s, i + 1).memo[i]))
  {
    hide WellFormed, HandlesOk, Execute, Ordered, Clear;
    var before, after := InTurn(env, s, i), InTurn(env, s, i + 1);
    ClearFresh(before.dag, i, {}, 0);
    assert Clear(before.dag, i, InProgress(before));
    ExecuteOnce(env, before, i);
    assert after == Execute(env, before, i).0;
    forall j | 0 <= j < i + 1 ensures j in after.memo {
      if j < i { assert j in before.memo; }
    }
  }

  lemma MarksCommute(s: State, callers: set<nat>, i: nat)
    ensures Also(Also(s, callers), {i}) == Also(s, callers + {i})
  {
    assert s.executed + callers + {i} == s.executed + (callers + {i});
  }

  /** A recursive execution, under any callers in progress, does what the turns up to its visit number do. */
  lemma {:induction false} VisitRuns(env: Env, s: State, i: nat, n: nat, callers: set<nat>)
    requires Ready(env, s) && s.executed == {} && i < |s.dag| && n <= |s.dag|
    requires Visit(s.dag, i, n).Some? && TurnsOk(env, s, n)
    requires Execute(env, Also(InTurn(env, s, n), callers), i).1.Some?
    ensures var m := Visit(s.dag, i, n).value;
      && TurnsOk(env, s, m)
      && MemoKept(InTurn(env, s, n), InTurn(env, s, m))
      && Execute(env, Also(InTurn(env, s, n), callers), i)
           == (Also(InTurn(env, s, m), callers), Some(InTurn(env, s, m).memo[i]))
    decreases i, 1, 0
  {
    hide WellFormed, HandlesOk, Uncached, ExecDeps, InTurn, Inv, VisitDeps, Flat;
    var start := InTurn(env, s, n);
    if i < n {
      assert Also(start, callers).executed + {i} == Also(start, callers).executed;
    } else {
      hide Execute;
      UnmarkedAfterTurns(env, s, i, n);
      var deps := s.dag[i].deps;
      MarksCommute(start, callers, i);
      DepsSucceed(env, Also(start, callers), i);
      VisitDepsRun(env, s, i, deps, n, callers + {i});
      var before := InTurn(env, s, i);
      UnmarkedAfterTurns(env, s, i, i);
      MarksCommute(before, callers, i);
      DepsHit(env, Also(before, callers + {i}), i, deps);
      SameAfterDeps(env, Also(start, callers), Also(before, callers), i);
      ExecuteIgnoresMarks(env, before, i, callers);
      NextTurn(env, s, i);
    }
  }

  lemma UnmarkedAfterTurns(env: Env, s: State, i: nat, n: nat)
    requires Ready(env, s) && s.executed == {} && n <= i < |s.dag| && TurnsOk(env, s, n)
    ensures i !in InTurn(env, s, n).memo && InTurn(env, s, n).dag[i] == s.dag[i]
  {
    TurnMarks(env, s, n);
    hide Ordered, WellFormed, InTurn;
  }

  lemma {:induction false} VisitDepsRun(env: Env, s: State, i: nat, deps: seq<nat>, n: nat, callers: set<nat>)
    requires Ready(env, s) && s.executed == {} && i < |s.dag| && n <= |s.dag| && (forall d :: d in deps ==> d < i)
    requires VisitDeps(s.dag, i, deps, n).Some? && TurnsOk(env, s, n)
    requires ExecDeps(env, Also(InTurn(env, s, n), callers), i, deps).1.Some?
    ensures var m := VisitDeps(s.dag, i, deps, n).value;
      && TurnsOk(env, s, m)
      && MemoKept(InTurn(env, s, n), InTurn(env, s, m))
      && (forall d :: d in deps ==> d < m)
      && ExecDeps(env, Also(InTurn(env, s, n), callers), i, deps)
           == (Also(InTurn(env, s, m), callers), Some(Flat(InTurn(env, s, m).memo, deps)))
    decreases i, 0, |deps|
  {
    if deps != [] {
      assert deps[0] in deps && forall d :: d in deps[1..] ==> d in deps;
      VisitRuns(env, s, deps[0], n, callers);
      var mid := Visit(s.dag, deps[0], n).value;
      VisitDepsRun(env, s, i, deps[1..], mid, callers);
      forall d | d in deps ensures d < VisitDeps(s.dag, i, deps, n).value {
        if d != deps[0] { assert d in deps[1..]; }
      }
    }
  }

  /** The drain takes the same turns. */
  lemma {:induction false} DrainTakesTurns(env: Env, s: State, n: nat)
    requires Ready(env, s) && n <= |s.dag| && s.executed == {}
    ensures Drain(env, s).0 == Drain(env, InTurn(env, s, n)).0
  {
    hide WellFormed, DepsBelow, Execute;
    if n > 0 {
      DrainTakesTurns(env, s, n - 1);
      var before := InTurn(env, s, n - 1);
      TurnMarks(env, s, n - 1);
      assert NextOrphan(before.dag, before.executed, 0) == Some(n - 1) by {
        var next := NextOrphan(before.dag, before.executed, 0);
        assert n - 1 !in before.executed && n - 1 < |before.dag|;
        assert next.Some?;
      }
    }
  }

  /**
   * Eager and deferred delivery agree. When the nodes of the returned graph are numbered in post-order and the eager
   * chain meets no infrastructure error, executing the root and draining reaches the same state as delivering the queue
   * from a single deferral: the same storage, results of every node, nodes appended by children, and order of events.
   */
  lemma EagerIsDeferred(env: Env, dag: seq<Batch>, store: Store, root: nat)
    requires Ready(env, Fresh(dag, store)) && root < |dag| && PostOrder(dag, root)
    requires Execute(env, Fresh(dag, store), root).1.Some?
    ensures Drain(env, Execute(env, Fresh(dag, store), root).0).0 == Deliver(env, Fresh(dag, store), Report(0, [])).0
  {
    var s := Fresh(dag, store);
    EagerTakesTurns(env, s, root);
    hide *;
    DrainTakesTurns(env, s, root + 1);
    DeliverIsDrain(env, s, Report(0, []));
  }

  lemma NoMarks(s: State)
    ensures Also(s, {}) == s
  {
    assert s.executed + {} == s.executed;
  }

  lemma NoTurns(env: Env, s: State)
    requires Ready(env, s) && s.executed == {} && s.memo == map[] && s.log == []
    ensures InTurn(env, s, 0) == s && TurnsOk(env, s, 0)
  {
    hide WellFormed, DepsBelow, Execute;
  }

  /** Executing a root numbered in post-order takes the turns 0 .. root. */
  lemma EagerTakesTurns(env: Env, s: State, root: nat)
    requires Ready(env, s) && s.executed == {} && s.memo == map[] && s.log == []
    requires root < |s.dag| && PostOrder(s.dag, root) && Execute(env, s, root).1.Some?
    ensures Execute(env, s, root).0 == InTurn(env, s, root + 1)
  {
    hide WellFormed, DepsBelow, Execute, InTurn, TurnsOk, Visit, Also, MemoKept;
    NoTurns(env, s);
    NoMarks(s);
    VisitRuns(env, s, root, 0, {});
    NoMarks(InTurn(env, s, root + 1));
  }
}
