/**
 * What the promise engine computes, as functions on its state: `execute_promise`,
 * `execute_promise_uncached`, `sub_execute`, the orphan drain and `settle_receipts`.
 */
module Receipts {
  import opened Wrappers
  import opened Storage

  /** One slot per action: `None` is a failed receipt. */
  type Results = seq<Option<Bytes>>

  datatype Action =
    | FnCall(method_: Bytes, args: Bytes, deposit: Amount)
    | Transfer(amount: Amount)

  /** A node of the promise graph; an empty account is a pure combinator. */
  datatype Batch = Batch(deps: seq<nat>, account: Account, creator: Account, actions: seq<Action>)

  /** A batch as a contract asks for it: the engine fills in the creator. */
  datatype NewBatch = NewBatch(deps: seq<nat>, account: Account, actions: seq<Action>)

  /** All that a contract call can depend on. `base` is the first handle the call can create. */
  datatype CallIn = CallIn(
    account: Account, method_: Bytes, args: Bytes, predecessor: Account, deposit: Amount,
    results: Results, own: Store, base: nat)

  /** How a contract call ends: it never starts, has no such method, returns or traps. */
  datatype CallOut =
    | Infra
    | NoMethod
    | Ran(ops: seq<StoreOp>, appended: seq<NewBatch>, ret: Option<nat>, registers: Registers,
          data: Option<Bytes>, trapped: bool)

  /** Deployed code, its behaviour, the receipts forced to fail, and the number of nodes gas can pay for. */
  datatype Env = Env(deployed: set<Account>, run: CallIn -> CallOut, forced: set<nat>, bound: nat)

  /** A node's actions start; its result is recorded; or an infrastructure error ends it without one. */
  datatype Event = Run(idx: nat) | Done(idx: nat) | Aborted(idx: nat)

  /** A contract call, and the node whose action made it. */
  datatype Called = Called(node: nat, call: CallIn)

  /** The thread-local engine state, with a log of action runs and how they end, and the calls made. */
  datatype State = State(
    dag: seq<Batch>, executed: set<nat>, memo: map<nat, Results>, store: Store, log: seq<Event>, calls: seq<Called>)

  // ---- Well-formed handles ----

  /** A call only names handles it created itself, in order, and gas bounds how many there are. */
  predicate HandlesOk(base: nat, out: CallOut, bound: nat) {
    out.Ran? ==>
      && base + |out.appended| <= bound
      && (forall k, d :: 0 <= k < |out.appended| && d in out.appended[k].deps ==> base <= d < base + k)
      && (out.ret.Some? ==> base <= out.ret.value < base + |out.appended|)
  }

  ghost predicate WellFormed(env: Env) {
    forall c: CallIn :: c.base <= env.bound ==> HandlesOk(c.base, env.run(c), env.bound)
  }

  /** Every batch depends on earlier nodes only. */
  predicate DepsBelow(dag: seq<Batch>) {
    forall i, d :: 0 <= i < |dag| && d in dag[i].deps ==> d < i
  }

  ghost predicate Ready(env: Env, s: State) {
    WellFormed(env) && DepsBelow(s.dag) && |s.dag| <= env.bound
  }

  /** What any execution keeps: nodes are only appended, marks only added, the log and the calls only grow. */
  ghost predicate Grows(env: Env, s: State, t: State) {
    && Ready(env, t)
    && s.dag <= t.dag
    && s.executed <= t.executed
    && s.log <= t.log
    && s.calls <= t.calls
  }

  // ---- One contract call ----

  /** What a contract can read: every key with its own prefix, the bare prefix included. */
  function Own(st: Store, acct: Account): Store {
    map k | k in st && PrefixedKey(acct, []) <= k :: st[k]
  }

  /** The deposit moves first: the callee is credited, then the sender debited, saturating at zero. */
  function PayDeposit(st: Store, account: Account, predecessor: Account, deposit: Amount): Store {
    if deposit == 0 then st else
      var credited := SetBalance(st, account, WrapAdd(Balance(st, account), deposit));
      SetBalance(credited, predecessor, SatSub(Balance(credited, predecessor), deposit))
  }

  function RefundDeposit(st: Store, predecessor: Account, deposit: Amount): Store {
    if deposit == 0 then st
    else SetBalance(st, predecessor, WrapAdd(Balance(st, predecessor), deposit))
  }

  function Stamped(bs: seq<NewBatch>, creator: Account): seq<Batch> {
    seq(|bs|, k requires 0 <= k < |bs| => Batch(bs[k].deps, bs[k].account, creator, bs[k].actions))
  }

  datatype CallResult = Broken | Finished(result: Option<Bytes>, handle: Option<nat>)

  function Call(s: State, account: Account, method_: Bytes, args: Bytes, predecessor: Account,
                deposit: Amount, results: Results): CallIn
  {
    CallIn(account, method_, args, predecessor, deposit, results,
           Own(PayDeposit(s.store, account, predecessor, deposit), account), |s.dag|)
  }

  /** The store after a call: the snapshot a trap returns to was taken after the deposit moved. */
  function StoreAfter(paid: Store, c: CallIn, out: CallOut): Store
  {
    match out
    case Infra => paid
    case NoMethod => RefundDeposit(Restored(paid, Partition(paid, c.account), c.account), c.predecessor, c.deposit)
    case Ran(ops, _, _, _, _, trapped) =>
      var wrote := ApplyOps(paid, c.account, ops);
      if trapped then RefundDeposit(Restored(wrote, Partition(paid, c.account), c.account), c.predecessor, c.deposit)
      else wrote
  }

  function ResultOf(out: CallOut): CallResult {
    match out
    case Infra => Broken
    case NoMethod => Finished(None, None)
    case Ran(_, _, ret, _, data, trapped) =>
      Finished(if trapped then None else Some(if data.Some? then data.value else []), ret)
  }

  /** `sub_execute`: an unknown account fails the receipt and changes nothing. */
  ghost function SubExecute(env: Env, s: State, node: nat, account: Account, method_: Bytes, args: Bytes,
                      predecessor: Account, deposit: Amount, results: Results): (r: (State, CallResult))
    requires Ready(env, s)
    ensures Grows(env, s, r.0) && r.0.executed == s.executed && r.0.memo == s.memo && r.0.log == s.log
    ensures r.1.Finished? && r.1.handle.Some? ==> |s.dag| <= r.1.handle.value < |r.0.dag|
    ensures forall i, d :: |s.dag| <= i < |r.0.dag| && d in r.0.dag[i].deps ==> |s.dag| <= d
  {
    if account !in env.deployed then (s, Finished(None, None)) else
      var c := Call(s, account, method_, args, predecessor, deposit, results);
      var out := env.run(c);
      assert HandlesOk(c.base, out, env.bound);
      var dag := if out.Ran? then s.dag + Stamped(out.appended, account) else s.dag;
      (s.(dag := dag, store := StoreAfter(PayDeposit(s.store, account, predecessor, deposit), c, out),
          calls := s.calls + [Called(node, c)]),
       ResultOf(out))
  }

  // ---- Transfers ----

  /** What a receipt has overwritten so far, in order, with the value each key had then. */
  datatype Undo = Undo(key: Bytes, was: Option<Bytes>)

  /** An insufficient transfer puts the old values back, first to last. */
  function Replay(st: Store, touched: seq<Undo>): Store
    decreases |touched|
  {
    if touched == [] then st else
      var u := touched[0];
      Replay(if u.was.Some? then st[u.key := u.was.value] else st - {u.key}, touched[1..])
  }

  function Debited(st: Store, from: Account, amount: Amount): Store {
    SetBalance(st, from, SatSub(Balance(st, from), amount))
  }

  function Transferred(st: Store, from: Account, to: Account, amount: Amount): Store {
    var debited := Debited(st, from, amount);
    SetBalance(debited, to, WrapAdd(Balance(debited, to), amount))
  }

  function UndoOf(st: Store, from: Account, to: Account, amount: Amount): seq<Undo> {
    [Undo(BalKey(from), Get(st, BalKey(from))),
     Undo(BalKey(to), Get(Debited(st, from, amount), BalKey(to)))]
  }

  // ---- The recursive executor ----

  /** `execute_promise`: a memo hit replays the result and still marks the node; an error is not memoised. */
  ghost function Execute(env: Env, s: State, idx: nat): (r: (State, Option<Results>))
    requires Ready(env, s) && idx < |s.dag|
    ensures Grows(env, s, r.0) && idx in r.0.executed
    decreases env.bound - |s.dag|, idx, 3, 0
  {
    if idx in s.memo then (s.(executed := s.executed + {idx}), Some(s.memo[idx]))
    else
      var (t, out) := Uncached(env, s, idx);
      if out.None? then (t.(log := t.log + [Aborted(idx)]), None)
      else (t.(memo := t.memo[idx := out.value], log := t.log + [Done(idx)]), out)
  }

  /** `execute_promise_uncached`: mark, run the deps, then the actions unless forced to fail. */
  ghost function Uncached(env: Env, s: State, idx: nat): (r: (State, Option<Results>))
    requires Ready(env, s) && idx < |s.dag|
    ensures Grows(env, s, r.0) && idx in r.0.executed
    decreases env.bound - |s.dag|, idx, 2, 0
  {
    var b := s.dag[idx];
    var (t, deps) := ExecDeps(env, s.(executed := s.executed + {idx}), idx, b.deps);
    if deps.None? then (t, None)
    else if idx in env.forced then (t, Some([]))
    else if b.account == [] then (t, deps)
    else ExecActions(env, t.(log := t.log + [Run(idx)]), idx, b, b.actions, deps.value, [])
  }

  /** The dependencies in order, their results flattened. */
  ghost function ExecDeps(env: Env, s: State, idx: nat, deps: seq<nat>): (r: (State, Option<Results>))
    requires Ready(env, s) && idx < |s.dag| && forall d :: d in deps ==> d < idx
    ensures Grows(env, s, r.0)
    decreases env.bound - |s.dag|, idx, 1, |deps|
  {
    if deps == [] then (s, Some([])) else
      assert deps[0] in deps && forall d :: d in deps[1..] ==> d in deps;
      var (t, first) := Execute(env, s, deps[0]);
      if first.None? then (t, None) else
        var (u, rest) := ExecDeps(env, t, idx, deps[1..]);
        (u, if rest.None? then None else Some(first.value + rest.value))
  }

  /** The actions in order; a returned handle is resolved before the next action. */
  ghost function ExecActions(env: Env, s: State, idx: nat, b: Batch, actions: seq<Action>,
                       results: Results, touched: seq<Undo>): (r: (State, Option<Results>))
    requires Ready(env, s) && idx < |s.dag|
    ensures Grows(env, s, r.0)
    decreases env.bound - |s.dag|, idx, 0, |actions|
  {
    if actions == [] then (s, Some([])) else
    match actions[0]
    case FnCall(m, args, deposit) =>
      var (t, res) := SubExecute(env, s, idx, b.account, m, args, b.creator, deposit, results);
      if res.Broken? then (t, None) else
        var (u, child) := if res.handle.Some? then Execute(env, t, res.handle.value) else (t, Some([]));
        if child.None? then (u, None) else
          var (v, rest) := ExecActions(env, u, idx, b, actions[1..], results, touched);
          (v, if rest.None? then None else Some([res.result] + child.value + rest.value))
    case Transfer(amount) =>
      if Balance(s.store, b.creator) < amount then (s.(store := Replay(s.store, touched)), Some([None]))
      else
        var (v, rest) := ExecActions(env, s.(store := Transferred(s.store, b.creator, b.account, amount)), idx, b,
                                     actions[1..], results, touched + UndoOf(s.store, b.creator, b.account, amount));
        (v, if rest.None? then None else Some([Some([])] + rest.value))
  }

  // ---- The delivery loops ----

  /** The least index from `from` on that is not yet executed. */
  function NextOrphan(dag: seq<Batch>, executed: set<nat>, from: nat): (r: Option<nat>)
    requires from <= |dag|
    ensures r.None? ==> forall i :: from <= i < |dag| ==> i in executed
    ensures r.Some? ==> from <= r.value < |dag| && r.value !in executed
    ensures r.Some? ==> forall i :: from <= i < r.value ==> i in executed
    decreases |dag| - from
  {
    if from == |dag| then None
    else if from !in executed then Some(from)
    else NextOrphan(dag, executed, from + 1)
  }

  /** Indices gas could still pay for that are not yet executed. */
  ghost function Pending(env: Env, s: State): set<nat> {
    set i: nat | i < env.bound && i !in s.executed
  }

  lemma PendingShrinks(env: Env, s: State, t: State, idx: nat)
    requires s.executed <= t.executed && idx in t.executed
    requires idx < env.bound && idx !in s.executed
    ensures |Pending(env, t)| < |Pending(env, s)|
  {
    var a, b := Pending(env, t), Pending(env, s);
    assert a <= b - {idx};
    SubsetSize(a, b - {idx});
  }

  /** The orphan drain of `execute_tx`, from any state at all: it ends, with every node executed and no more failures
      than unmarked indices. */
  ghost function Drain(env: Env, s: State): (r: (State, nat))
    requires Ready(env, s)
    ensures Grows(env, s, r.0)
    ensures forall i :: 0 <= i < |r.0.dag| ==> i in r.0.executed
    ensures r.1 <= |Pending(env, s)|
    decreases |Pending(env, s)|
  {
    var next := NextOrphan(s.dag, s.executed, 0);
    if next.None? then (s, 0) else
      var (t, out) := Execute(env, s, next.value);
      PendingShrinks(env, s, t, next.value);
      var (u, failures) := Drain(env, t);
      (u, failures + (if out.None? then 1 else 0))
  }

  predicate AllIn(deps: seq<nat>, executed: set<nat>) { forall d :: d in deps ==> d in executed }

  /** The first index whose deps have all been executed and which has not. */
  function NextReady(dag: seq<Batch>, executed: set<nat>, from: nat): (r: Option<nat>)
    requires from <= |dag|
    ensures r.None? ==> forall i :: from <= i < |dag| ==> i in executed || !AllIn(dag[i].deps, executed)
    ensures r.Some? ==> from <= r.value < |dag| && r.value !in executed && AllIn(dag[r.value].deps, executed)
    ensures r.Some? ==> forall i :: from <= i < r.value ==> i in executed || !AllIn(dag[i].deps, executed)
    decreases |dag| - from
  {
    if from == |dag| then None
    else if from !in executed && AllIn(dag[from].deps, executed) then Some(from)
    else NextReady(dag, executed, from + 1)
  }

  datatype Report = Report(delivered: nat, results: Results)

  /** The delivery loop of `settle_receipts`: it stops when nothing is ready. */
  ghost function Deliver(env: Env, s: State, report: Report): (r: (State, Report))
    requires Ready(env, s)
    ensures Grows(env, s, r.0)
    decreases |Pending(env, s)|
  {
    var next := NextReady(s.dag, s.executed, 0);
    if next.None? then (s, report) else
      var (t, out) := Execute(env, s, next.value);
      PendingShrinks(env, s, t, next.value);
      Deliver(env, t, Report(report.delivered + 1, report.results + (if out.Some? then out.value else [None])))
  }
}
