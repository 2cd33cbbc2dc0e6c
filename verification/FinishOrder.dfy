/** The order in which the entry's nodes finish, and the converse of eager and deferred agreement. */
module FinishOrder {
  import opened Wrappers
  import opened Storage
  import opened Receipts
  import opened OnceOnly
  import opened Delivery

  /** The nodes below n that a log records as done, in order. */
  function Finished(log: seq<Event>, n: nat): seq<nat> {
    if log == [] then [] else
      var e := log[|log| - 1];
      Finished(log[..|log| - 1], n) + (if e.Done? && e.idx < n then [e.idx] else [])
  }

  /** 0, 1, 2 and so on. */
  predicate Counting(s: seq<nat>) { forall k :: 0 <= k < |s| ==> s[k] == k }

  lemma {:induction false} FinishedAppend(a: seq<Event>, b: seq<Event>, n: nat)
    ensures Finished(a + b, n) == Finished(a, n) + Finished(b, n)
    decreases |b|
  {
    if b == [] {
      assert a + b == a;
    } else {
      FinishedAppend(a, b[..|b| - 1], n);
      assert (a + b)[..|a + b| - 1] == a + b[..|b| - 1];
    }
  }

  lemma FinishedOne(log: seq<Event>, e: Event, n: nat)
    ensures Finished(log + [e], n) == Finished(log, n) + (if e.Done? && e.idx < n then [e.idx] else [])
  {
    assert (log + [e])[..|log|] == log;
  }

  lemma FinishedPrefix(a: seq<Event>, b: seq<Event>, n: nat)
    requires a <= b && Counting(Finished(b, n))
    ensures Counting(Finished(a, n)) && |Finished(a, n)| <= |Finished(b, n)|
  {
    FinishedAppend(a, b[|a|..], n);
    assert a + b[|a|..] == b;
    assert forall k :: 0 <= k < |Finished(a, n)| ==> Finished(a, n)[k] == Finished(b, n)[k];
  }

  lemma {:induction false} FinishedMember(log: seq<Event>, n: nat, i: nat)
    ensures i in Finished(log, n) <==> i < n && Done(i) in log
  {
    if log != [] {
      assert log == log[..|log| - 1] + [log[|log| - 1]];
      FinishedMember(log[..|log| - 1], n, i);
    }
  }

  /** A counting list of nodes below n is no longer than n. */
  lemma CountingBelow(log: seq<Event>, n: nat)
    requires Counting(Finished(log, n))
    ensures |Finished(log, n)| <= n
  {
    var f := Finished(log, n);
    if |f| > 0 {
      assert f[|f| - 1] in f;
      FinishedMember(log, n, |f| - 1);
    }
  }

  /** New events about no node below n leave the finished list as it was. */
  lemma {:induction false} NothingFinished(a: seq<Event>, b: seq<Event>, n: nat)
    requires a <= b && forall p :: |a| <= p < |b| ==> b[p].idx >= n
    ensures Finished(b, n) == Finished(a, n)
    decreases |b|
  {
    if |a| < |b| {
      NothingFinished(a, b[..|b| - 1], n);
    } else {
      assert a == b;
    }
  }

  /** With distinct events, what is new in position is new altogether. */
  lemma {:induction false} NewEvents(env: Env, dag: seq<Batch>, a: seq<Event>, b: seq<Event>, p: nat)
    requires Ordered(env, dag, b) && a <= b && |a| <= p < |b|
    ensures b[p] !in a && !b[p].Aborted?
  {
    OrderedAt(env, dag, b, p);
    assert forall e :: e in a ==> e in b[..p];
  }

  // ---- What finishes during one execution ----

  /** Running a node's actions finishes no node that existed before. */
  lemma ActionsFinishNothing(env: Env, s: State, idx: nat, b: Batch, results: Results, n: nat)
    requires Inv(env, s) && idx < |s.dag| && n <= |s.dag|
    requires ExecActions(env, s, idx, b, b.actions, results, []).1.Some?
    ensures Finished(ExecActions(env, s, idx, b, b.actions, results, []).0.log, n) == Finished(s.log, n)
  {
    hide WellFormed, ExecActions, Ordered, ResultsOk;
    var t := ExecActions(env, s, idx, b, b.actions, results, []).0;
    ActionsOnce(env, s, idx, b, b.actions, results, []);
    assert Closed(s.dag, 0);
    ActionsMark(env, s, 0, idx, b, b.actions, results, []);
    forall p | |s.log| <= p < |t.log| ensures t.log[p].idx >= n {
      NewEvents(env, t.dag, s.log, t.log, p);
      var e := t.log[p];
      assert e in t.log && e !in s.log;
      assert e.idx in t.executed;
    }
    NothingFinished(s.log, t.log, n);
  }

  /** While the entry's nodes finish in counting order, the memoised ones are those counted. */
  lemma DoneIffCounted(env: Env, s: State, n: nat, i: nat)
    requires Inv(env, s) && Counting(Finished(s.log, n)) && i < n
    ensures i in s.memo <==> i < |Finished(s.log, n)|
  {
    hide WellFormed, DepsBelow, Ordered, ResultsOk;
    FinishedMember(s.log, n, i);
    var f := Finished(s.log, n);
    if i < |f| { assert f[i] == i; }
  }

  lemma ClearDeps(dag: seq<Batch>, i: nat, d: nat, ip: set<nat>)
    requires i < |dag| && DepsBelow(dag) && Clear(dag, i, ip) && d in dag[i].deps
    ensures d < i && Clear(dag, d, ip + {i})
  {
    ClearAbove(dag, d, ip, i);
  }

  /** A node's own finishing comes right after what its dependencies finish. */
  lemma NodeFinishes(env: Env, s: State, i: nat, n: nat)
    requires Inv(env, s) && i < n <= |s.dag| && i !in s.memo && Clear(s.dag, i, InProgress(s))
    requires Execute(env, s, i).1.Some?
    ensures var (u, deps) := ExecDeps(env, Also(s, {i}), i, s.dag[i].deps);
      var t := Execute(env, s, i).0;
      && deps.Some? && u.log <= t.log && Finished(t.log, n) == Finished(u.log, n) + [i]
  {
    hide WellFormed, HandlesOk, ExecDeps, ExecActions, Inv, Ordered, Effect, Flat;
    DepsSucceed(env, s, i);
    var b := s.dag[i];
    MarkNode(env, s, i);
    var marked := Also(s, {i});
    forall d | d in b.deps ensures Clear(s.dag, d, InProgress(marked)) { ClearDeps(s.dag, i, d, InProgress(s)); }
    DepsOnce(env, marked, i, b.deps);
    var (u, deps) := ExecDeps(env, marked, i, b.deps);
    DepsDoneNow(env, s, u, i);
    var t := Execute(env, s, i).0;
    if i in env.forced || b.account == [] {
      assert t.log == u.log + [Done(i)];
      FinishedOne(u.log, Done(i), n);
    } else {
      StartRun(env, marked, u, i);
      var running := u.(log := u.log + [Run(i)]);
      FinishedOne(u.log, Run(i), n);
      EffectGrows(env, marked, u);
      ActionsFinishNothing(env, running, i, b, deps.value, n);
      var v := ExecActions(env, running, i, b, b.actions, deps.value, []).0;
      assert t.log == v.log + [Done(i)];
      FinishedOne(v.log, Done(i), n);
    }
  }

  lemma EffectGrows(env: Env, s: State, t: State)
    requires Effect(env, s, t)
    ensures Inv(env, t) && s.dag <= t.dag && s.log <= t.log && |s.dag| <= |t.dag|
    ensures InProgress(t) == InProgress(s)
  {
    hide Inv;
  }

  /**
   * A recursive execution after which the entry's nodes are still finished in counting order makes the depth-first
   * visit: the visit succeeds and counts as many nodes as have finished.
   */
  lemma {:induction false} ExecuteVisits(env: Env, s: State, dag: seq<Batch>, i: nat)
    requires Inv(env, s) && dag <= s.dag && DepsBelow(dag) && i < |dag| && Clear(s.dag, i, InProgress(s))
    requires Execute(env, s, i).1.Some?
    requires Counting(Finished(Execute(env, s, i).0.log, |dag|))
    ensures |Finished(s.log, |dag|)| <= |dag| && Counting(Finished(s.log, |dag|))
    ensures Visit(dag, i, |Finished(s.log, |dag|)|) == Some(|Finished(Execute(env, s, i).0.log, |dag|)|)
    decreases i, 1, 0
  {
    hide WellFormed, HandlesOk, Ordered, ResultsOk, Clear, ExecDeps, ExecActions, Uncached, Inv, Finished, VisitDeps;
    var n := |dag|;
    var (t, out) := Execute(env, s, i);
    FinishedPrefix(s.log, t.log, n);
    CountingBelow(s.log, n);
    DoneIffCounted(env, s, n, i);
    if i !in s.memo {
      hide Execute;
      assert s.dag[i] == dag[i];
      NodeFinishes(env, s, i, n);
      var u := ExecDeps(env, Also(s, {i}), i, dag[i].deps).0;
      FinishedPrefix(u.log, t.log, n);
      MarkNode(env, s, i);
      forall d | d in dag[i].deps ensures Clear(s.dag, d, InProgress(Also(s, {i}))) {
        ClearDeps(s.dag, i, d, InProgress(s));
      }
      DepsVisit(env, Also(s, {i}), dag, i, dag[i].deps);
      assert Finished(t.log, n)[|Finished(u.log, n)|] == i;
    }
  }

  lemma {:induction false} DepsVisit(env: Env, s: State, dag: seq<Batch>, i: nat, deps: seq<nat>)
    requires Inv(env, s) && dag <= s.dag && DepsBelow(dag) && i < |dag| && (forall d :: d in deps ==> d < i)
    requires forall d :: d in deps ==> Clear(s.dag, d, InProgress(s))
    requires ExecDeps(env, s, i, deps).1.Some?
    requires Counting(Finished(ExecDeps(env, s, i, deps).0.log, |dag|))
    ensures |Finished(s.log, |dag|)| <= |dag| && Counting(Finished(s.log, |dag|))
    ensures VisitDeps(dag, i, deps, |Finished(s.log, |dag|)|) ==
            Some(|Finished(ExecDeps(env, s, i, deps).0.log, |dag|)|)
    decreases i, 0, |deps|
  {
    hide WellFormed, HandlesOk, Ordered, ResultsOk, Clear, Execute, Inv, Finished, Visit;
    var n := |dag|;
    var (u, out) := ExecDeps(env, s, i, deps);
    FinishedPrefix(s.log, u.log, n);
    CountingBelow(s.log, n);
    if deps != [] {
      assert deps[0] in deps && forall d :: d in deps[1..] ==> d in deps;
      var t := Execute(env, s, deps[0]).0;
      FinishedPrefix(t.log, u.log, n);
      ExecuteVisits(env, s, dag, deps[0]);
      ExecuteOnce(env, s, deps[0]);
      EffectGrows(env, s, t);
      forall d | d in deps[1..] ensures Clear(t.dag, d, InProgress(t)) {
        ClearExtend(s.dag, t.dag, d, InProgress(s));
      }
      DepsVisit(env, t, dag, i, deps[1..]);
    }
  }

  // ---- Delivery finishes in counting order ----

  lemma NextTurnDrains(env: Env, s: State, n: nat)
    requires Ready(env, s) && s.executed == {} && n < |s.dag| && Drain(env, InTurn(env, s, n)).1 == 0
    ensures Execute(env, InTurn(env, s, n), n).1.Some? && Drain(env, InTurn(env, s, n + 1)).1 == 0
  {
    hide WellFormed, DepsBelow, Execute;
    var before := InTurn(env, s, n);
    TurnMarks(env, s, n);
    var next := NextOrphan(before.dag, before.executed, 0);
    assert n !in before.executed && n < |before.dag|;
    assert next == Some(n);
  }

  lemma {:induction false} TurnsFinish(env: Env, s: State, n: nat)
    requires Ready(env, s) && s.executed == {} && s.memo == map[] && s.log == [] && n <= |s.dag|
    requires Drain(env, s).1 == 0
    ensures TurnsOk(env, s, n) && Drain(env, InTurn(env, s, n)).1 == 0
    ensures Finished(InTurn(env, s, n).log, |s.dag|) == seq(n, k => k)
  {
    hide WellFormed, DepsBelow, Execute, Drain, ExecDeps, TurnsOk, Finished, Clear, InTurn;
    if n == 0 {
      NoTurns(env, s);
      NoneFinished(s, |s.dag|);
    } else {
      var i := n - 1;
      TurnsFinish(env, s, i);
      NextTurnDrains(env, s, i);
      NextTurn(env, s, i);
      TurnFinishes(env, s, i);
    }
  }

  lemma NoneFinished(s: State, n: nat)
    requires s.log == []
    ensures Finished(s.log, n) == seq(0, k => k)
  {}

  lemma TurnFinishes(env: Env, s: State, i: nat)
    requires Ready(env, s) && s.executed == {} && i < |s.dag| && TurnsOk(env, s, i)
    requires Execute(env, InTurn(env, s, i), i).1.Some?
    requires Finished(InTurn(env, s, i).log, |s.dag|) == seq(i, k => k)
    ensures Finished(InTurn(env, s, i + 1).log, |s.dag|) == seq(i + 1, k => k)
  {
    hide WellFormed, Execute, ExecDeps, Ordered, ResultsOk, Finished, Clear;
    var before := InTurn(env, s, i);
    UnmarkedAfterTurns(env, s, i, i);
    ClearFresh(before.dag, i, InProgress(before), 0);
    NodeFinishes(env, before, i, |s.dag|);
    DepsHit(env, Also(before, {i}), i, s.dag[i].deps);
  }

  /** Without an error the entry's nodes are delivered, and so finish, in counting order. */
  lemma DeliveryCounts(env: Env, s: State)
    requires Ready(env, s) && s.executed == {} && s.memo == map[] && s.log == []
    requires Drain(env, s).1 == 0
    ensures Counting(Finished(Drain(env, s).0.log, |s.dag|))
  {
    hide WellFormed, DepsBelow, Execute, Drain, Finished, Ordered, ResultsOk, InTurn;
    var n := |s.dag|;
    TurnsFinish(env, s, n);
    DrainTakesTurns(env, s, n);
    var mid := InTurn(env, s, n);
    DrainOnce(env, mid);
    var t := Drain(env, mid).0;
    forall p | |mid.log| <= p < |t.log| ensures t.log[p].idx >= n {
      NewEvents(env, t.dag, mid.log, t.log, p);
      assert t.log[p] in t.log && t.log[p] !in mid.log;
    }
    NothingFinished(mid.log, t.log, n);
  }

  /**
   * Eager and deferred delivery agree exactly under post-order numbering. In runs without infrastructure error,
   * executing the root and draining reaches the same state (storage, results, appended nodes, event order) as
   * delivering the queue if and only if the returned graph's nodes are numbered in the order a depth-first visit
   * finishes them.
   */
  lemma EagerIsDeferredIff(env: Env, dag: seq<Batch>, store: Store, root: nat)
    requires Ready(env, Fresh(dag, store)) && root < |dag|
    requires Execute(env, Fresh(dag, store), root).1.Some?
    requires Drain(env, Fresh(dag, store)).1 == 0
    ensures Drain(env, Execute(env, Fresh(dag, store), root).0).0 == Deliver(env, Fresh(dag, store), Report(0, [])).0
       <==> PostOrder(dag, root)
  {
    hide WellFormed, Execute, Drain, Deliver, Finished, Visit;
    var s := Fresh(dag, store);
    DeliverIsDrain(env, s, Report(0, []));
    if PostOrder(dag, root) {
      EagerIsDeferred(env, dag, store, root);
    }
    if Drain(env, Execute(env, s, root).0).0 == Deliver(env, s, Report(0, [])).0 {
      DeliveryCounts(env, s);
      var t := Execute(env, s, root).0;
      FinishedPrefix(t.log, Drain(env, t).0.log, |dag|);
      FreshInv(env, s);
      ClearFresh(dag, root, {}, 0);
      ExecuteVisits(env, s, dag, root);
      NoneFinished(s, |dag|);
      VisitEndsAtRoot(dag, root);
    }
  }

  lemma FreshInv(env: Env, s: State)
    requires Ready(env, s) && s.executed == {} && s.memo == map[] && s.log == []
    ensures Inv(env, s) && InProgress(s) == {}
  {}

  lemma VisitEndsAtRoot(dag: seq<Batch>, root: nat)
    requires root < |dag| && DepsBelow(dag) && Visit(dag, root, 0).Some?
    ensures PostOrder(dag, root)
  {}
}
