/** The instrumented program, run by the ordinary interpreter, does what the metered semantics says. */
module Simulation {
  import opened Words
  import opened Wasm
  import opened Wrappers
  import opened Instrument
  import opened Metered
  import opened StraightLine

  // ----- Related states -----

  function Reading(gas: u64, budget: int): seq<Value>
    requires 0 <= budget < W
  {
    [I64(gas), I64(budget as u64)]
  }

  ghost predicate ReadingsFit(rs: seq<(u64, seq<nat>)>)
  {
    forall k :: 0 <= k < |rs| ==> Sum(rs[k].1) <= MAX_STACK_HEIGHT
  }

  /** The original log with the two injected globals added to every event. */
  function Extended(log: seq<Event>, rs: seq<(u64, seq<nat>)>): seq<Event>
    requires |log| == |rs| && ReadingsFit(rs)
  {
    seq(|log|, k requires 0 <= k < |log| => Event(log[k].mem, log[k].globals + Reading(rs[k].0,
        MAX_STACK_HEIGHT - Sum(rs[k].1))))
  }

  /** Same memory and log, and the two injected globals hold the gas left and the stack budget. */
  ghost predicate RelShared(t: State, s: MState, g: nat)
  {
    && |s.st.globals| == g
    && 0 <= Budget(s)
    && t.mem == s.st.mem
    && t.globals == s.st.globals + Reading(s.gas, Budget(s))
    && |s.st.log| == |s.readings| && ReadingsFit(s.readings)
    && t.log == Extended(s.st.log, s.readings)
  }

  /** The states of one frame: two scratch locals behind the original ones. */
  ghost predicate Rel(t: State, s: MState, g: nat, l: nat, frames: seq<nat>)
  {
    && RelShared(t, s, g)
    && t.stack == s.st.stack
    && |s.st.locals| == l && |t.locals| == l + 2 && t.locals[..l] == s.st.locals
    && s.frames == frames
  }

  /** Outcomes inside a frame whose charges are `frames`: on return and tail call the innermost
      charge has been released. Branches stay within the d labels in scope. */
  ghost predicate RelOut(o: Outcome<State>, r: Outcome<MState>, g: nat, l: nat, frames: seq<nat>, d: nat)
    requires frames != []
  {
    match (o, r)
    case (Next(t), Next(s)) => Rel(t, s, g, l, frames)
    case (Jump(k, t), Jump(k', s)) => k == k' && k < d && Rel(t, s, g, l, frames)
    case (Ret(t), Ret(s)) => Rel(t, s, g, l, frames[..|frames| - 1])
    case (Tail(a, t), Tail(b, s)) => a == b && a.Fn? && Rel(t, s, g, l, frames[..|frames| - 1])
    case (Trap(y, t), Trap(z, s)) => y == z && RelShared(t, s, g)
    case (Timeout(t), Timeout(s)) => RelShared(t, s, g)
    case _ => false
  }

  // ----- Validated code -----

  /** What module validation guarantees: locals, globals and labels are in range. */
  predicate ValidCode(c: Code, g: nat, l: nat, d: nat)
  {
    c.Cons? ==> ValidInstr(c.head, g, l, d) && ValidCode(c.tail, g, l, d)
  }

  predicate ValidInstr(i: Instr, g: nat, l: nat, d: nat)
  {
    match i
    case LocalGet(x) => x < l
    case LocalSet(x) => x < l
    case LocalTee(x) => x < l
    case GlobalGet(x) => x < g
    case GlobalSet(x) => x < g
    case Block(_, _, b) => ValidCode(b, g, l, d + 1)
    case Loop(_, _, b) => ValidCode(b, g, l, d + 1)
    case If(_, _, t, NoElse) => ValidCode(t, g, l, d + 1)
    case If(_, _, t, HasElse(e)) => ValidCode(t, g, l, d + 1) && ValidCode(e, g, l, d + 1)
    case Br(k) => k < d
    case BrIf(k) => k < d
    case BrTable(ks, k) => k < d && forall j :: 0 <= j < |ks| ==> ks[j] < d
    case _ => true
  }

  predicate ValidFunc(f: Func, g: nat)
  {
    f.Guest? ==> ValidCode(f.body, g, f.params + |f.locals|, 1)
  }

  ghost predicate ValidModule(m: Module, an: seq<Analysis>, g: nat)
  {
    && m.gas.None? && |an| == |m.funcs|
    && (forall k :: 0 <= k < |m.index| ==> m.index[k].Fn?)
    && (forall k :: 0 <= k < |m.funcs| ==> ValidFunc(m.funcs[k], g))
  }

  // ----- Charges -----

  ghost predicate Injected(m': Module, g: nat)
  {
    && m'.gas == Some(g) && |m'.index| >= 3
    && m'.index[STACK_EXHAUSTED_FN] == HookFn(StackExhausted)
    && m'.index[GAS_INSTRUMENTATION_FN] == HookFn(GasReport)
  }

  lemma GasGlobal(t: State, s: MState, g: nat)
    requires RelShared(t, s, g)
    ensures |t.globals| == g + 2 && t.globals[g] == I64(s.gas) && t.globals[g + 1] == I64(Budget(s) as u64)
  {
  }

  lemma GasUpdate(t: State, s: MState, g: nat, gas: u64)
    requires RelShared(t, s, g)
    ensures RelShared(t.(globals := t.globals[g := I64(gas)]), s.(gas := gas), g)
  {
    assert t.globals[g := I64(gas)] == s.st.globals + Reading(gas, Budget(s));
  }

  ghost predicate SameTrap(o: Outcome<State>, r: Outcome<MState>, g: nat)
  {
    o.Trap? && r.Trap? && o.why == r.why && RelShared(o.st, r.st, g)
  }

  /** A hook traps the same way on both sides. */
  lemma SimHook(m': Module, hook: Hook, t: State, s: MState, g: nat)
    requires RelShared(t, s, g) && m'.gas == Some(g)
    ensures SameTrap(RunHook(m', hook, t), Exhausted(s, hook), g)
  {
    GasGlobal(t, s, g);
    var c := ChargeGas(s.gas, HOST_CALL_BASE_GAS);
    if c.Some? { GasUpdate(t, s, g, c.value); }
  }

  lemma SimConstant(w: World, m': Module, c: u64, fuel: nat, t: State, s: MState,
      g: nat, l: nat, frames: seq<nat>, d: nat)
    requires frames != [] && Rel(t, s, g, l, frames) && Injected(m', g)
    ensures RelOut(ExecCode(w, m', ConstantCharge(g, c), fuel, t), PayConstant(s, c), g, l, frames, d)
  {
    hide ExecCode, ExecInstr, Guarded, RunHook, Exhausted, ReadingsFit, Extended;
    var rest := Cons(Call(GAS_INSTRUMENTATION_FN), Cons(Unreachable, Nil));
    var fail := Cons(I64Const(c), rest);
    var t0 := t.(stack := []);
    var t1 := Push(t0, I64(c));
    GasGlobal(t, s, g);
    DoConst(w, m', c, rest, fuel, t0);
    DoHook(w, m', GAS_INSTRUMENTATION_FN, Cons(Unreachable, Nil), fuel, t1);
    SimHook(m', GasReport, t1, s, g);
    RunGuarded(w, m', g, c, fail, fuel, t);
    if s.gas >= c { GasUpdate(t, s, g, s.gas - c); }
  }

  lemma SimLinear(w: World, m': Module, fee: Fee, fuel: nat, t: State, s: MState,
      g: nat, l: nat, frames: seq<nat>, d: nat)
    requires frames != [] && Rel(t, s, g, l, frames) && Injected(m', g)
    ensures RelOut(ExecCode(w, m', LinearCharge(g, l, fee), fuel, t), PayLinear(s, fee), g, l, frames, d)
  {
    hide ExecCode, ExecInstr, RunHook, Exhausted, ReadingsFit, Extended, LinearAmount, LinearTail;
    var n := |t.stack|;
    GasGlobal(t, s, g);
    if TopIsI32(t.stack) {
      var k := t.stack[n - 1].i;
      var t0 := t.(stack := t.stack[..n - 1]);
      assert t == Push(t0, I32(k)) by { assert t.stack == t0.stack + [I32(k)]; }
      RunLinear(w, m', g, l, fee, k, fuel, t0);
      var amount := LinearAmount(fee, k);
      var t' := SetLocal(SetLocal(t0, l + 1, I32(k)), l, I64(amount));
      SimHook(m', GasReport, t'.(stack := [I64(amount)]), s, g);
      if amount <= s.gas { GasUpdate(t, s, g, s.gas - amount); }
    } else {
      LinearStuck(w, m', fee, fuel, t, g, l);
    }
  }

  /** Without a 32-bit length on top the charge is stuck, as the bulk operation itself would be. */
  lemma LinearStuck(w: World, m': Module, fee: Fee, fuel: nat, t: State, g: nat, l: nat)
    requires !TopIsI32(t.stack) && |t.locals| == l + 2
    ensures var o := ExecCode(w, m', LinearCharge(g, l, fee), fuel, t);
            o.Trap? && o.why == Stuck && o.st.globals == t.globals && o.st.mem == t.mem && o.st.log == t.log
  {
    hide ExecCode, ExecInstr, LinearTail;
    var rest := Cons(I64Const(fee.linear), Cons(I64Bin(Mul), Cons(I64Const(fee.constant), Cons(I64Bin(Add),
        Cons(LocalTee(l), LinearTail(g, l))))));
    Unfold(w, m', LocalTee(l + 1), Cons(I64ExtendI32U, rest), fuel, t);
    RunSimple(w, m', LocalTee(l + 1), fuel, t);
    if |t.stack| > 0 {
      var t1 := SetLocal(t, l + 1, t.stack[|t.stack| - 1]);
      Unfold(w, m', I64ExtendI32U, rest, fuel, t1);
      RunSimple(w, m', I64ExtendI32U, fuel, t1);
    }
  }

  lemma SimPoint(w: World, m': Module, p: Point, fuel: nat, t: State, s: MState,
      g: nat, l: nat, frames: seq<nat>, d: nat)
    requires frames != [] && Rel(t, s, g, l, frames) && Injected(m', g)
    ensures RelOut(ExecCode(w, m', PointCode(g, l, p), fuel, t), PayPoint(s, p), g, l, frames, d)
  {
    hide ExecCode, PayConstant, PayLinear, ConstantCharge, LinearCharge;
    RunNil(w, m', fuel, t);
    SimConstant(w, m', p.fee.constant, fuel, t, s, g, l, frames, d);
    SimLinear(w, m', p.fee, fuel, t, s, g, l, frames, d);
  }

  lemma {:induction false} SimPoints(w: World, m': Module, ps: seq<Point>, fuel: nat, t: State, s: MState, g: nat,
      l: nat, frames: seq<nat>, d: nat)
    requires frames != [] && Rel(t, s, g, l, frames) && Injected(m', g)
    ensures RelOut(ExecCode(w, m', PointsCode(g, l, ps), fuel, t), PayPoints(s, ps), g, l, frames, d)
    decreases |ps|
  {
    hide ExecCode, PayPoint, PointCode, RelShared;
    if ps == [] {
      RunNil(w, m', fuel, t);
    } else {
      SimPoint(w, m', ps[0], fuel, t, s, g, l, frames, d);
      ExecAppend(w, m', PointCode(g, l, ps[0]), PointsCode(g, l, ps[1..]), fuel, t);
      var o := PayPoint(s, ps[0]);
      if o.Next? {
        SimPoints(w, m', ps[1..], fuel, ExecCode(w, m', PointCode(g, l, ps[0]), fuel, t).st, o.st, g, l, frames, d);
      }
    }
  }

  /** The release of a frame's charge. */
  lemma SimUnstack(w: World, m': Module, fuel: nat, t: State, s: MState, g: nat, l: nat, frames: seq<nat>, charge: u64)
    requires frames != [] && Rel(t, s, g, l, frames) && frames[|frames| - 1] == charge as int
    ensures var o := ExecCode(w, m', Unstack(g, charge), fuel, t);
            o.Next? && Rel(o.st, Release(s), g, l, frames[..|frames| - 1])
  {
    hide ExecCode, ReadingsFit, Extended;
    var b := Budget(Release(s));
    assert b == Budget(s) + charge as int;
    GasGlobal(t, s, g);
    RunUnstack(w, m', g, charge, fuel, t);
    assert t.globals[g + 1 := I64(b as u64)] == s.st.globals + Reading(s.gas, b);
  }

  /** The reservation of a frame's charge: refused exactly when the budget is below it. */
  lemma SimReserve(w: World, m': Module, fuel: nat, t: State, s: MState, g: nat, l: nat, frames: seq<nat>, charge: u64)
    requires Rel(t, s, g, l, frames) && Injected(m', g)
    ensures var o := ExecCode(w, m', Reserve(g, charge), fuel, t);
            if Budget(s) < charge as int then SameTrap(o, Exhausted(s, StackExhausted), g)
            else o.Next? && Rel(o.st, s.(frames := frames + [charge as nat]), g, l, frames + [charge as nat])
  {
    hide ExecCode, ExecInstr, Guarded, RunHook, Exhausted, ReadingsFit, Extended;
    var t0 := t.(stack := []);
    GasGlobal(t, s, g);
    DoHook(w, m', STACK_EXHAUSTED_FN, Cons(Unreachable, Nil), fuel, t0);
    SimHook(m', StackExhausted, t0, s, g);
    RunGuarded(w, m', g + 1, charge, Cons(Call(STACK_EXHAUSTED_FN), Cons(Unreachable, Nil)), fuel, t);
    if Budget(s) >= charge as int {
      var fs := frames + [charge as nat];
      assert fs[..|fs| - 1] == frames;
      var b := Budget(s) - charge as int;
      assert t.globals[g + 1 := I64(b as u64)] == s.st.globals + Reading(s.gas, b);
    }
  }

  // ----- Operators -----

  lemma ExtendedAppend(log: seq<Event>, rs: seq<(u64, seq<nat>)>, e: Event, gas: u64, frames: seq<nat>)
    requires |log| == |rs| && ReadingsFit(rs) && Sum(frames) <= MAX_STACK_HEIGHT
    ensures ReadingsFit(rs + [(gas, frames)])
    ensures Extended(log + [e], rs + [(gas, frames)]) ==
            Extended(log, rs) + [Event(e.mem, e.globals + Reading(gas, MAX_STACK_HEIGHT - Sum(frames)))]
  {
    hide Sum, Reading;
  }

  /** Logging the memory after an operator, with the current globals on both sides. */
  lemma SimLog(t: State, s: MState, g: nat, l: nat, frames: seq<nat>, stack: seq<Value>, mem: Mem)
    requires Rel(t, s, g, l, frames)
    ensures Rel(t.(stack := stack, mem := mem, log := t.log + [Event(mem, t.globals)]),
                With(s, s.st.(stack := stack, mem := mem, log := s.st.log + [Event(mem, s.st.globals)])), g, l, frames)
  {
    ExtendedAppend(s.st.log, s.readings, Event(mem, s.st.globals), s.gas, s.frames);
    hide Extended, ReadingsFit;
  }

  lemma SimPrim(w: World, op: nat, t: State, s: MState, g: nat, l: nat, frames: seq<nat>, d: nat)
    requires frames != [] && Rel(t, s, g, l, frames)
    ensures RelOut(RunPrim(w, op, t), Lift(s, RunPrim(w, op, s.st)), g, l, frames, d)
  {
    hide Extended, ReadingsFit;
    match w.prim(op, t.stack, t.mem)
    case PrimTrap =>
    case PrimOk(stack, mem) => SimLog(t, s, g, l, frames, stack, mem);
  }

  lemma SimLocals(i: Instr, w: World, t: State, s: MState, g: nat, l: nat, frames: seq<nat>, d: nat)
    requires frames != [] && Rel(t, s, g, l, frames) && ValidInstr(i, g, l, d)
    requires i.LocalGet? || i.LocalSet? || i.LocalTee?
    ensures RelOut(Simple(w, i, t), Lift(s, Simple(w, i, s.st)), g, l, frames, d)
  {
    hide Extended, ReadingsFit;
    assert t.locals[i.x] == s.st.locals[i.x];
    if |t.stack| > 0 {
      var v := t.stack[|t.stack| - 1];
      assert t.locals[i.x := v][..l] == s.st.locals[i.x := v];
    }
  }

  lemma SimGlobals(i: Instr, w: World, t: State, s: MState, g: nat, l: nat, frames: seq<nat>, d: nat)
    requires frames != [] && Rel(t, s, g, l, frames) && ValidInstr(i, g, l, d)
    requires i.GlobalGet? || i.GlobalSet?
    ensures RelOut(Simple(w, i, t), Lift(s, Simple(w, i, s.st)), g, l, frames, d)
  {
    hide Extended, ReadingsFit;
    if |t.stack| > 0 {
      var v := t.stack[|t.stack| - 1];
      assert t.globals[i.x := v] == s.st.globals[i.x := v] + Reading(s.gas, Budget(s));
    }
  }

  lemma SimStackOnly(i: Instr, w: World, t: State, s: MState, g: nat, l: nat, frames: seq<nat>, d: nat)
    requires frames != [] && Rel(t, s, g, l, frames)
    requires i.I64Const? || i.I64Bin? || i.I64ExtendI32U? || i.Drop? || i.Unreachable?
    ensures RelOut(Simple(w, i, t), Lift(s, Simple(w, i, s.st)), g, l, frames, d)
  {
    hide Extended, ReadingsFit, Apply64, Reading;
  }

  lemma SimSimple(i: Instr, w: World, t: State, s: MState, g: nat, l: nat, frames: seq<nat>, d: nat)
    requires frames != [] && Rel(t, s, g, l, frames) && ValidInstr(i, g, l, d) && IsSimple(i)
    ensures RelOut(Simple(w, i, t), Lift(s, Simple(w, i, s.st)), g, l, frames, d)
  {
    match i {
      case LocalGet(_) => SimLocals(i, w, t, s, g, l, frames, d);
      case LocalSet(_) => SimLocals(i, w, t, s, g, l, frames, d);
      case LocalTee(_) => SimLocals(i, w, t, s, g, l, frames, d);
      case GlobalGet(_) => SimGlobals(i, w, t, s, g, l, frames, d);
      case GlobalSet(_) => SimGlobals(i, w, t, s, g, l, frames, d);
      case Plain(op) => SimPrim(w, op, t, s, g, l, frames, d);
      case Bulk(op) => hide Extended, ReadingsFit, RunPrim; SimPrim(w, op, t, s, g, l, frames, d);
      case _ => SimStackOnly(i, w, t, s, g, l, frames, d);
    }
  }

  lemma SimBranch(i: Instr, t: State, s: MState, g: nat, l: nat, frames: seq<nat>, d: nat)
    requires frames != [] && Rel(t, s, g, l, frames) && ValidInstr(i, g, l, d)
    requires i.Br? || i.BrIf? || i.BrTable?
    ensures RelOut(Branch(i, t), Lift(s, Branch(i, s.st)), g, l, frames, d)
  {
    hide Extended, ReadingsFit;
  }

  lemma SimExit(o: Outcome<State>, r: Outcome<MState>, arity: nat, below: seq<Value>, g: nat, l: nat,
      frames: seq<nat>, d: nat)
    requires frames != [] && RelOut(o, r, g, l, frames, d + 1)
    ensures RelOut(ExitBlock(o, arity, below), MExitBlock(r, arity, below), g, l, frames, d)
  {
    hide Extended, ReadingsFit, Reading, Sum;
  }

  // ----- Calls -----

  /** Outcomes of a call, which leaves the caller's frame as it was. */
  ghost predicate RelCall(o: Outcome<State>, r: Outcome<MState>, g: nat, l: nat, frames: seq<nat>)
  {
    match (o, r)
    case (Next(t), Next(s)) => Rel(t, s, g, l, frames)
    case (Trap(y, t), Trap(z, s)) => y == z && RelShared(t, s, g)
    case (Timeout(t), Timeout(s)) => RelShared(t, s, g)
    case _ => false
  }

  lemma SimHost(w: World, m: Module, m': Module, f: Func, t: State, s: MState, g: nat, l: nat, frames: seq<nat>)
    requires f.Host? && m.gas.None? && m'.gas == Some(g) && Rel(t, s, g, l, frames)
    ensures RelCall(RunHost(w, m', f, t), MHost(w, m, f, s), g, l, frames)
  {
    hide Extended, ReadingsFit;
    GasGlobal(t, s, g);
    var args := Top(t.stack, f.params);
    if args.Some? {
      var cost := HOST_CALL_BASE_GAS + w.hostCost(f.h, args.value, t.mem);
      var c := ChargeGas(s.gas, cost);
      if c.Some? {
        GasUpdate(t, s, g, c.value);
        var t1 := t.(globals := t.globals[g := I64(c.value)]);
        var s1 := s.(gas := c.value, paid := s.paid + [cost]);
        assert RelShared(t1, s1, g);
        match w.host(f.h, args.value, t.mem)
        case HostTrap =>
        case HostOk(r, mem) => SimLog(t1, s1, g, l, frames, Below(t.stack, f.params) + r, mem);
      }
    }
  }

  /** Leaving a frame whose charge is already released. */
  lemma SimLeave(f: Func, f': Func, t0: State, s0: State, t: State, s: MState,
      g: nat, lf: nat, l: nat, frames: seq<nat>)
    requires f.Guest? && f'.Guest? && f'.params == f.params && f'.results == f.results
    requires Rel(t, s, g, lf, frames)
    requires t0.stack == s0.stack && |s0.locals| == l && |t0.locals| == l + 2 && t0.locals[..l] == s0.locals
    ensures RelCall(LeaveFrame(f', t0, t), MLeaveFrame(f, s0, s), g, l, frames)
  {
    hide Extended, ReadingsFit, Reading;
  }

  // ----- The simulation -----

  /** The context of a frame, its charge on top of the live ones. */
  ghost predicate InFrame(x: Context, g: nat, frames: seq<nat>)
  {
    x.globals == g && frames != [] && frames[|frames| - 1] == x.charge as int
  }

  ghost predicate Pair(m: Module, m': Module, an: seq<Analysis>, g: nat)
  {
    ValidModule(m, an, g) && m' == TModule(m, an, g)
  }

  lemma PairInjected(m: Module, m': Module, an: seq<Analysis>, g: nat)
    requires Pair(m, m', an, g)
    ensures Injected(m', g) && m.gas.None?
  {
  }

  lemma {:induction false} SimCode(w: World, m: Module, m': Module, an: seq<Analysis>, x: Context, c: Code, pos: nat,
                                   fuel: nat, t: State, s: MState, g: nat, frames: seq<nat>, d: nat)
    requires Pair(m, m', an, g) && InFrame(x, g, frames) && ValidCode(c, g, x.locals, d)
    requires Rel(t, s, g, x.locals, frames)
    ensures RelOut(ExecCode(w, m', TCode(x, c, pos), fuel, t), MCode(w, m, an, x, c, pos, fuel, s),
              g, x.locals, frames, d)
    decreases fuel, 1, c, 0
  {
    hide RelShared, ExecInstr, TInstr, MInstr, ExecCall, MCall, PayPoints, At, PointsCode, TModule, ValidModule,
         ValidInstr;
    if c.Nil? {
      RunNil(w, m', fuel, t);
    } else {
      var charges, i, rest := Charges(x, pos), TInstr(x, c.head, pos), TCode(x, c.tail, pos + InstrSize(c.head));
      PairInjected(m, m', an, g);
      SimPoints(w, m', At(x.points, pos), fuel, t, s, g, x.locals, frames, d);
      ExecAppend(w, m', charges, Append(i, rest), fuel, t);
      var o, r := ExecCode(w, m', charges, fuel, t), Pay(x, pos, s);
      if r.Next? {
        SimInstr(w, m, m', an, x, c.head, pos, fuel, o.st, r.st, g, frames, d);
        ExecAppend(w, m', i, rest, fuel, o.st);
        var o', r' := ExecCode(w, m', i, fuel, o.st), MInstr(w, m, an, x, c.head, pos, fuel, r.st);
        if r'.Next? {
          SimCode(w, m, m', an, x, c.tail, pos + InstrSize(c.head), fuel, o'.st, r'.st, g, frames, d);
        }
      }
    }
  }

  lemma {:induction false} SimBody(w: World, m: Module, m': Module, an: seq<Analysis>, x: Context, c: Code, pos: nat,
                                   fuel: nat, t: State, s: MState, g: nat, frames: seq<nat>, d: nat)
    requires Pair(m, m', an, g) && InFrame(x, g, frames) && ValidCode(c, g, x.locals, d)
    requires Rel(t, s, g, x.locals, frames)
    ensures RelOut(ExecCode(w, m', TBody(x, c, pos), fuel, t), MBody(w, m, an, x, c, pos, fuel, s),
              g, x.locals, frames, d)
    decreases fuel, 1, c, 1
  {
    hide RelShared, ExecCode, ExecInstr, TCode, MCode, PayPoints, At, PointsCode, TModule, ValidModule, ValidCode;
    PairInjected(m, m', an, g);
    SimCode(w, m, m', an, x, c, pos, fuel, t, s, g, frames, d);
    ExecAppend(w, m', TCode(x, c, pos), Charges(x, pos + Size(c)), fuel, t);
    var o, r := ExecCode(w, m', TCode(x, c, pos), fuel, t), MCode(w, m, an, x, c, pos, fuel, s);
    if r.Next? {
      SimPoints(w, m', At(x.points, pos + Size(c)), fuel, o.st, r.st, g, x.locals, frames, d);
    }
  }

  lemma {:induction false} SimInstr(w: World, m: Module, m': Module, an: seq<Analysis>, x: Context, i: Instr, pos: nat,
                                    fuel: nat, t: State, s: MState, g: nat, frames: seq<nat>, d: nat)
    requires Pair(m, m', an, g) && InFrame(x, g, frames) && ValidInstr(i, g, x.locals, d)
    requires Rel(t, s, g, x.locals, frames)
    ensures RelOut(ExecCode(w, m', TInstr(x, i, pos), fuel, t), MInstr(w, m, an, x, i, pos, fuel, s),
              g, x.locals, frames, d)
    decreases fuel, 1, i, 1
  {
    hide ExecCode, ExecInstr, MInstr, TInstr, RelOut, Rel, ValidInstr, Pair, InFrame;
    match i {
      case Block(_, _, _) => SimBlock(w, m, m', an, x, i, pos, fuel, t, s, g, frames, d);
      case Loop(_, _, _) => SimLoop(w, m, m', an, x, i, pos, fuel, t, s, g, frames, d);
      case If(_, _, _, _) => SimIf(w, m, m', an, x, i, pos, fuel, t, s, g, frames, d);
      case Call(_) => SimCallInstr(w, m, m', an, x, i, pos, fuel, t, s, g, frames, d);
      case CallIndirect(_) => SimCallInstr(w, m, m', an, x, i, pos, fuel, t, s, g, frames, d);
      case Return => SimExitInstr(w, m, m', an, x, i, pos, fuel, t, s, g, frames, d);
      case ReturnCall(_) => SimExitInstr(w, m, m', an, x, i, pos, fuel, t, s, g, frames, d);
      case ReturnCallIndirect(_) => SimExitInstr(w, m, m', an, x, i, pos, fuel, t, s, g, frames, d);
      case _ => SimFlat(w, m, m', an, x, i, pos, fuel, t, s, g, frames, d);
    }
  }

  lemma RunLast(w: World, m: Module, i: Instr, fuel: nat, t: State)
    ensures ExecCode(w, m, Cons(i, Nil), fuel, t) == ExecInstr(w, m, i, fuel, t)
  {
    Unfold(w, m, i, Nil, fuel, t);
    var o := ExecInstr(w, m, i, fuel, t);
    if o.Next? { RunNil(w, m, fuel, o.st); }
  }

  /** Operators without control, branches and function references. */
  lemma SimFlat(w: World, m: Module, m': Module, an: seq<Analysis>, x: Context, i: Instr, pos: nat,
                fuel: nat, t: State, s: MState, g: nat, frames: seq<nat>, d: nat)
    requires Pair(m, m', an, g) && InFrame(x, g, frames) && ValidInstr(i, g, x.locals, d)
    requires IsSimple(i) || i.Br? || i.BrIf? || i.BrTable? || i.RefFunc?
    requires Rel(t, s, g, x.locals, frames)
    ensures RelOut(ExecCode(w, m', TInstr(x, i, pos), fuel, t), MInstr(w, m, an, x, i, pos, fuel, s),
              g, x.locals, frames, d)
  {
    hide RelShared, ExecCode, ExecInstr, Simple, Branch, ValidInstr, Rel, RelOut, Lift, MInstr;
    if i.RefFunc? {
      RunLast(w, m', RefFunc(i.f + F), fuel, t);
      SimRefFunc(w, m, m', an, x, i, pos, fuel, t, s, g, frames, d);
    } else {
      RunLast(w, m', i, fuel, t);
      FlatUnfold(w, m, m', an, x, i, pos, fuel, t, s);
      if IsSimple(i) {
        SimSimple(i, w, t, s, g, x.locals, frames, d);
      } else {
        SimBranch(i, t, s, g, x.locals, frames, d);
      }
    }
  }

  lemma FlatUnfold(w: World, m: Module, m': Module, an: seq<Analysis>, x: Context, i: Instr, pos: nat, fuel: nat,
                   t: State, s: MState)
    requires IsSimple(i) || i.Br? || i.BrIf? || i.BrTable?
    ensures ExecInstr(w, m', i, fuel, t) == if IsSimple(i) then Simple(w, i, t) else Branch(i, t)
    ensures MInstr(w, m, an, x, i, pos, fuel, s) == Lift(s, if IsSimple(i) then Simple(w, i, s.st) else Branch(i, s.st))
  {
    hide Simple, Branch, Lift;
  }

  lemma SimRefFunc(w: World, m: Module, m': Module, an: seq<Analysis>, x: Context, i: Instr, pos: nat,
                   fuel: nat, t: State, s: MState, g: nat, frames: seq<nat>, d: nat)
    requires Pair(m, m', an, g) && frames != [] && i.RefFunc? && Rel(t, s, g, x.locals, frames)
    ensures RelOut(ExecInstr(w, m', RefFunc(i.f + F), fuel, t), MInstr(w, m, an, x, i, pos, fuel, s),
              g, x.locals, frames, d)
  {
    hide RelShared;
    ShiftedIndex(m, an, g, i.f);
    if i.f < |m.index| { RelStack(t, s, g, x.locals, frames, t.stack + [FuncRef(m.index[i.f].n)]); }
    StuckHere(t, s, g, x.locals, frames);
  }

  /** Related states stay related when both get the same operand stack. */
  lemma RelStack(t: State, s: MState, g: nat, l: nat, frames: seq<nat>, stack: seq<Value>)
    requires Rel(t, s, g, l, frames)
    ensures Rel(t.(stack := stack), OnStack(s, stack), g, l, frames)
  {
    hide Extended, ReadingsFit, Reading;
  }

  lemma SimBlock(w: World, m: Module, m': Module, an: seq<Analysis>, x: Context, i: Instr, pos: nat,
                 fuel: nat, t: State, s: MState, g: nat, frames: seq<nat>, d: nat)
    requires Pair(m, m', an, g) && InFrame(x, g, frames) && ValidInstr(i, g, x.locals, d) && i.Block?
    requires Rel(t, s, g, x.locals, frames)
    ensures RelOut(ExecCode(w, m', TInstr(x, i, pos), fuel, t), MInstr(w, m, an, x, i, pos, fuel, s),
              g, x.locals, frames, d)
    decreases fuel, 1, i, 0
  {
    hide RelShared, ExecCode, TBody, MBody, ExitBlock, MExitBlock, Pair;
    var body := TBody(x, i.body, pos + 1);
    RunLast(w, m', Block(i.params, i.results, body), fuel, t);
    if |t.stack| < i.params {
      StuckHere(t, s, g, x.locals, frames);
    } else {
      var top := Top(t.stack, i.params).value;
      RelStack(t, s, g, x.locals, frames, top);
      SimBody(w, m, m', an, x, i.body, pos + 1, fuel, t.(stack := top), OnStack(s, top), g, frames, d + 1);
      SimExit(ExecCode(w, m', body, fuel, t.(stack := top)), MBody(w, m, an, x, i.body, pos + 1, fuel, OnStack(s, top)),
              i.results, Below(t.stack, i.params), g, x.locals, frames, d);
    }
  }

  lemma StuckHere(t: State, s: MState, g: nat, l: nat, frames: seq<nat>)
    requires Rel(t, s, g, l, frames)
    ensures RelShared(t, s, g)
  {
  }

  /** How a loop goes on from the outcome of one iteration. */
  function Iterate(w: World, m: Module, i: Instr, fuel: nat, st: State, o: Outcome<State>): Outcome<State>
    requires i.Loop?
  {
    if !o.Jump? || o.depth != 0 then ExitBlock(o, i.results, Below(st.stack, i.params))
    else if |o.st.stack| < i.params then Trap(Stuck, o.st)
    else if fuel == 0 then Timeout(o.st)
    else ExecInstr(w, m, i, fuel - 1, o.st.(stack := Below(st.stack, i.params) + Top(o.st.stack, i.params).value))
  }

  function MIterate(w: World, m: Module, an: seq<Analysis>, x: Context, i: Instr, pos: nat, fuel: nat, s: MState,
                    o: Outcome<MState>): Outcome<MState>
    requires i.Loop?
  {
    if !o.Jump? || o.depth != 0 then MExitBlock(o, i.results, Below(s.st.stack, i.params))
    else if |o.st.st.stack| < i.params then Trap(Stuck, o.st)
    else if fuel == 0 then Timeout(o.st)
    else MInstr(w, m, an, x, i, pos, fuel - 1,
                OnStack(o.st, Below(s.st.stack, i.params) + Top(o.st.st.stack, i.params).value))
  }

  lemma LoopUnfold(w: World, m: Module, i: Instr, fuel: nat, st: State)
    requires i.Loop?
    ensures ExecInstr(w, m, i, fuel, st) ==
      if |st.stack| < i.params then Trap(Stuck, st)
      else Iterate(w, m, i, fuel, st, ExecCode(w, m, i.body, fuel, st.(stack := Top(st.stack, i.params).value)))
  {
    hide ExecCode, ExitBlock;
  }

  lemma MLoopUnfold(w: World, m: Module, an: seq<Analysis>, x: Context, i: Instr, pos: nat, fuel: nat, s: MState)
    requires i.Loop?
    ensures MInstr(w, m, an, x, i, pos, fuel, s) ==
      if |s.st.stack| < i.params then Trap(Stuck, s)
      else MIterate(w, m, an, x, i, pos, fuel, s,
                    MBody(w, m, an, x, i.body, pos + 1, fuel, OnStack(s, Top(s.st.stack, i.params).value)))
  {
    hide MBody, MExitBlock;
  }

  lemma SimLoop(w: World, m: Module, m': Module, an: seq<Analysis>, x: Context, i: Instr, pos: nat,
                fuel: nat, t: State, s: MState, g: nat, frames: seq<nat>, d: nat)
    requires Pair(m, m', an, g) && InFrame(x, g, frames) && ValidInstr(i, g, x.locals, d) && i.Loop?
    requires Rel(t, s, g, x.locals, frames)
    ensures RelOut(ExecCode(w, m', TInstr(x, i, pos), fuel, t), MInstr(w, m, an, x, i, pos, fuel, s),
              g, x.locals, frames, d)
    decreases fuel, 1, i, 0
  {
    hide RelShared, ExecCode, ExecInstr, MInstr, TBody, MBody, Pair, Iterate, MIterate;
    var (p, body) := (i.params, TBody(x, i.body, pos + 1));
    var i' := Loop(p, i.results, body);
    RunLast(w, m', i', fuel, t);
    LoopUnfold(w, m', i', fuel, t);
    MLoopUnfold(w, m, an, x, i, pos, fuel, s);
    if |t.stack| < p {
      StuckHere(t, s, g, x.locals, frames);
    } else {
      var top := Top(t.stack, p).value;
      RelStack(t, s, g, x.locals, frames, top);
      SimBody(w, m, m', an, x, i.body, pos + 1, fuel, t.(stack := top), OnStack(s, top), g, frames, d + 1);
      SimIterate(w, m, m', an, x, i, pos, fuel, t, s, g, frames, d, ExecCode(w, m', body, fuel, t.(stack := top)),
                 MBody(w, m, an, x, i.body, pos + 1, fuel, OnStack(s, top)));
    }
  }

  /** What follows one iteration of a loop. */
  lemma SimIterate(w: World, m: Module, m': Module, an: seq<Analysis>, x: Context, i: Instr, pos: nat, fuel: nat,
                   t: State, s: MState, g: nat, frames: seq<nat>, d: nat, o: Outcome<State>, q: Outcome<MState>)
    requires Pair(m, m', an, g) && InFrame(x, g, frames) && ValidInstr(i, g, x.locals, d) && i.Loop?
    requires Rel(t, s, g, x.locals, frames) && RelOut(o, q, g, x.locals, frames, d + 1)
    ensures var i' := Loop(i.params, i.results, TBody(x, i.body, pos + 1));
      RelOut(Iterate(w, m', i', fuel, t, o), MIterate(w, m, an, x, i, pos, fuel, s, q), g, x.locals, frames, d)
    decreases fuel, 0, i, 1
  {
    hide RelShared, ExecInstr, MInstr, TBody, ExitBlock, MExitBlock, Pair;
    var below := Below(t.stack, i.params);
    if !q.Jump? || q.depth != 0 {
      SimExit(o, q, i.results, below, g, x.locals, frames, d);
    } else {
      StuckHere(o.st, q.st, g, x.locals, frames);
      if |q.st.st.stack| >= i.params && fuel > 0 {
        var again := below + Top(q.st.st.stack, i.params).value;
        RelStack(o.st, q.st, g, x.locals, frames, again);
        SimLoop(w, m, m', an, x, i, pos, fuel - 1, o.st.(stack := again), OnStack(q.st, again), g, frames, d);
        RunLast(w, m', Loop(i.params, i.results, TBody(x, i.body, pos + 1)), fuel - 1, o.st.(stack := again));
      }
    }
  }

  lemma SimIf(w: World, m: Module, m': Module, an: seq<Analysis>, x: Context, i: Instr, pos: nat,
              fuel: nat, t: State, s: MState, g: nat, frames: seq<nat>, d: nat)
    requires Pair(m, m', an, g) && InFrame(x, g, frames) && ValidInstr(i, g, x.locals, d) && i.If?
    requires Rel(t, s, g, x.locals, frames)
    ensures RelOut(ExecCode(w, m', TInstr(x, i, pos), fuel, t), MInstr(w, m, an, x, i, pos, fuel, s),
              g, x.locals, frames, d)
    decreases fuel, 1, i, 0
  {
    hide RelShared, ExecCode, TBody, MBody, ExitBlock, MExitBlock, Pair;
    var els' := if i.els.HasElse? then HasElse(TBody(x, i.els.code, pos + 2 + Size(i.thn))) else NoElse;
    var i' := If(i.params, i.results, TBody(x, i.thn, pos + 1), els');
    assert TInstr(x, i, pos) == Cons(i', Nil);
    RunLast(w, m', i', fuel, t);
    if !TopIsI32(t.stack) || |t.stack| < i.params + 1 {
      StuckHere(t, s, g, x.locals, frames);
    } else {
      var below := Pop(t).stack;
      var top := Top(below, i.params).value;
      var (t1, s1) := (t.(stack := top), OnStack(s, top));
      RelStack(t, s, g, x.locals, frames, top);
      if t.stack[|t.stack| - 1].i != 0 {
        SimBody(w, m, m', an, x, i.thn, pos + 1, fuel, t1, s1, g, frames, d + 1);
        SimExit(ExecCode(w, m', i'.thn, fuel, t1), MBody(w, m, an, x, i.thn, pos + 1, fuel, s1),
                i.results, Below(below, i.params), g, x.locals, frames, d);
      } else if i.els.HasElse? {
        SimBody(w, m, m', an, x, i.els.code, pos + 2 + Size(i.thn), fuel, t1, s1, g, frames, d + 1);
        SimExit(ExecCode(w, m', els'.code, fuel, t1), MBody(w, m, an, x, i.els.code, pos + 2 + Size(i.thn), fuel, s1),
                i.results, Below(below, i.params), g, x.locals, frames, d);
      } else {
        SimExit(Next(t1), Next(s1), i.results, Below(below, i.params), g, x.locals, frames, d);
      }
    }
  }

  lemma SimCallInstr(w: World, m: Module, m': Module, an: seq<Analysis>, x: Context, i: Instr, pos: nat,
                     fuel: nat, t: State, s: MState, g: nat, frames: seq<nat>, d: nat)
    requires Pair(m, m', an, g) && InFrame(x, g, frames) && (i.Call? || i.CallIndirect?)
    requires Rel(t, s, g, x.locals, frames)
    ensures RelOut(ExecCode(w, m', TInstr(x, i, pos), fuel, t), MInstr(w, m, an, x, i, pos, fuel, s),
              g, x.locals, frames, d)
    decreases fuel, 1, i, 0
  {
    hide RelShared, ExecCode, ExecCall, MCall;
    var i' := if i.Call? then Call(i.f + F) else i;
    RunLast(w, m', i', fuel, t);
    StuckHere(t, s, g, x.locals, frames);
    if i.Call? {
      ShiftedIndex(m, an, g, i.f);
      if i.f < |m.index| {
        SimCall(w, m, m', an, m.index[i.f], fuel, t, s, g, x.locals, frames);
      }
    } else {
      SameResolve(w, m, m', an, g, i.ty, t, s.st);
      var callee := Resolve(w, m, i.ty, s.st);
      if callee.Some? {
        var st := Pop(s.st).stack;
        RelStack(t, s, g, x.locals, frames, st);
        SimCall(w, m, m', an, Fn(callee.value), fuel, t.(stack := st), OnStack(s, st), g, x.locals, frames);
      }
    }
  }

  /** An indirect call resolves to the same function. */
  lemma SameResolve(w: World, m: Module, m': Module, an: seq<Analysis>, g: nat, ty: nat, t: State, st: State)
    requires Pair(m, m', an, g) && t.stack == st.stack && t.mem == st.mem
    ensures Resolve(w, m', ty, t) == Resolve(w, m, ty, st)
  {
  }

  /** Returns and tail calls release the charge first. */
  lemma SimExitInstr(w: World, m: Module, m': Module, an: seq<Analysis>, x: Context, i: Instr, pos: nat,
                     fuel: nat, t: State, s: MState, g: nat, frames: seq<nat>, d: nat)
    requires Pair(m, m', an, g) && InFrame(x, g, frames) && (i.Return? || i.ReturnCall? || i.ReturnCallIndirect?)
    requires Rel(t, s, g, x.locals, frames)
    ensures RelOut(ExecCode(w, m', TInstr(x, i, pos), fuel, t), MInstr(w, m, an, x, i, pos, fuel, s),
              g, x.locals, frames, d)
  {
    hide RelShared, ExecCode, ExecInstr, MInstr, Unstack, Release, RelOut, Pair;
    var i' := if i.ReturnCall? then ReturnCall(i.f + F) else i;
    ExecAppend(w, m', Unstack(x.globals, x.charge), Cons(i', Nil), fuel, t);
    SimUnstack(w, m', fuel, t, s, g, x.locals, frames, x.charge);
    var t1 := ExecCode(w, m', Unstack(x.globals, x.charge), fuel, t).st;
    RunLast(w, m', i', fuel, t1);
    if i.Return? {
      SimReturn(w, m, m', an, x, i, pos, fuel, t1, s, g, frames, d);
    } else if i.ReturnCall? {
      SimReturnCall(w, m, m', an, x, i, pos, fuel, t1, s, g, frames, d);
    } else {
      SimReturnCallIndirect(w, m, m', an, x, i, pos, fuel, t1, s, g, frames, d);
    }
  }

  /** The operators that leave a frame, once its charge has been released. */
  lemma SimReturn(w: World, m: Module, m': Module, an: seq<Analysis>, x: Context, i: Instr, pos: nat,
                  fuel: nat, t1: State, s: MState, g: nat, frames: seq<nat>, d: nat)
    requires Pair(m, m', an, g) && frames != [] && s.frames == frames && i.Return?
    requires Rel(t1, Release(s), g, x.locals, frames[..|frames| - 1])
    ensures RelOut(ExecInstr(w, m', i, fuel, t1), MInstr(w, m, an, x, i, pos, fuel, s), g, x.locals, frames, d)
  {
    hide RelShared, Release;
  }

  lemma SimReturnCall(w: World, m: Module, m': Module, an: seq<Analysis>, x: Context, i: Instr, pos: nat,
                      fuel: nat, t1: State, s: MState, g: nat, frames: seq<nat>, d: nat)
    requires Pair(m, m', an, g) && frames != [] && s.frames == frames && i.ReturnCall?
    requires Rel(t1, Release(s), g, x.locals, frames[..|frames| - 1])
    ensures RelOut(ExecInstr(w, m', ReturnCall(i.f + F), fuel, t1), MInstr(w, m, an, x, i, pos, fuel, s),
              g, x.locals, frames, d)
  {
    hide RelShared, Release;
    StuckHere(t1, Release(s), g, x.locals, frames[..|frames| - 1]);
    ShiftedIndex(m, an, g, i.f);
  }

  lemma SimReturnCallIndirect(w: World, m: Module, m': Module, an: seq<Analysis>, x: Context, i: Instr, pos: nat,
                              fuel: nat, t1: State, s: MState, g: nat, frames: seq<nat>, d: nat)
    requires Pair(m, m', an, g) && frames != [] && s.frames == frames && i.ReturnCallIndirect?
    requires Rel(t1, Release(s), g, x.locals, frames[..|frames| - 1])
    ensures RelOut(ExecInstr(w, m', i, fuel, t1), MInstr(w, m, an, x, i, pos, fuel, s), g, x.locals, frames, d)
  {
    hide RelShared;
    var outer := frames[..|frames| - 1];
    StuckHere(t1, Release(s), g, x.locals, outer);
    SameResolve(w, m, m', an, g, i.ty, t1, s.st);
    if Resolve(w, m, i.ty, s.st).Some? {
      RelStack(t1, Release(s), g, x.locals, outer, Pop(s.st).stack);
    }
  }

  // ----- Whole calls -----

  /** The frame of a call, before its charge is reserved. */
  lemma SimEnter(f: Func, f': Func, t: State, s: MState, g: nat, l: nat, frames: seq<nat>)
    requires f.Guest? && f'.Guest? && f'.params == f.params && f'.locals == f.locals + [I64(0), I32(0)]
    requires Rel(t, s, g, l, frames) && Top(t.stack, f.params).Some?
    ensures Rel(EnterFrame(f', t), s.(st := EnterFrame(f, s.st)), g, f.params + |f.locals|, frames)
  {
    hide Extended, ReadingsFit, Reading;
    var args := Top(t.stack, f.params).value;
    assert args + f'.locals == (args + f.locals) + [I64(0), I32(0)];
  }

  /** The reservation, the entry fee and the original body, inside the wrapping block. */
  function Wrapped(x: Context, entryFee: u64, body: Code): Code
  {
    Append(Reserve(x.globals, x.charge),
           Append(PointCode(x.globals, x.locals, Point(0, Fee(0, entryFee), OtherKind)), TBody(x, body, 0)))
  }

  /** The metered counterpart of the wrapped body. */
  function MWrapped(w: World, m: Module, an: seq<Analysis>, x: Context, entryFee: u64, body: Code, fuel: nat,
      s: MState): Outcome<MState>
  {
    if Budget(s) < x.charge as int then Exhausted(s, StackExhausted)
    else
      var o := PayPoint(s.(frames := s.frames + [x.charge as nat]), Point(0, Fee(0, entryFee), OtherKind));
      if o.Next? then MBody(w, m, an, x, body, 0, fuel, o.st) else o
  }

  lemma SimWrapped(w: World, m: Module, m': Module, an: seq<Analysis>, x: Context, entryFee: u64, body: Code,
                   fuel: nat, t: State, s: MState, g: nat, frames: seq<nat>)
    requires Pair(m, m', an, g) && x.globals == g && ValidCode(body, g, x.locals, 1)
    requires Rel(t, s, g, x.locals, frames)
    ensures RelOut(ExecCode(w, m', Wrapped(x, entryFee, body), fuel, t), MWrapped(w, m, an, x, entryFee, body, fuel, s),
                   g, x.locals, frames + [x.charge as nat], 1)
    decreases fuel, 2
  {
    hide RelShared, ExecCode, Reserve, PointCode, PayPoint, TBody, MBody, Pair, Budget, Exhausted;
    var fee := Point(0, Fee(0, entryFee), OtherKind);
    var fs := frames + [x.charge as nat];
    var rest := Append(PointCode(g, x.locals, fee), TBody(x, body, 0));
    PairInjected(m, m', an, g);
    SimReserve(w, m', fuel, t, s, g, x.locals, frames, x.charge);
    ExecAppend(w, m', Reserve(g, x.charge), rest, fuel, t);
    if Budget(s) >= x.charge as int {
      var (t1, s1) := (ExecCode(w, m', Reserve(g, x.charge), fuel, t).st, s.(frames := fs));
      SimPoint(w, m', fee, fuel, t1, s1, g, x.locals, fs, 1);
      ExecAppend(w, m', PointCode(g, x.locals, fee), TBody(x, body, 0), fuel, t1);
      var o := PayPoint(s1, fee);
      if o.Next? {
        SimBody(w, m, m', an, x, body, 0, fuel, ExecCode(w, m', PointCode(g, x.locals, fee), fuel, t1).st, o.st,
            g, fs, 1);
      }
    }
  }

  /** How a metered call ends, from the outcome of its wrapped body. */
  function MFinish(w: World, m: Module, an: seq<Analysis>, f: Func, fuel: nat, s: MState,
      o: Outcome<MState>): Outcome<MState>
    requires f.Guest? && fuel > 0
  {
    match o
    case Next(t) => MLeaveFrame(f, s.st, Release(t))
    case Jump(d, t) =>
      if d == 0 && Top(t.st.stack, f.results).Some? then MLeaveFrame(f, s.st, Release(t)) else Trap(Stuck, t)
    case Ret(t) => MLeaveFrame(f, s.st, t)
    case Tail(b, t) =>
      if Top(t.st.stack, Params(m, b)).None? then Trap(Stuck, t)
      else MCall(w, m, an, b, fuel - 1, t.(st := ReplaceFrame(f, s.st, t.st, Top(t.st.stack, Params(m, b)).value)))
    case Trap(y, t) => Trap(y, t)
    case Timeout(t) => Timeout(t)
  }

  lemma MCallUnfold(w: World, m: Module, an: seq<Analysis>, n: nat, fuel: nat, s: MState)
    requires n < |m.funcs| && n < |an| && m.funcs[n].Guest? && Top(s.st.stack, m.funcs[n].params).Some? && fuel > 0
    ensures var f := m.funcs[n];
            var x := ContextOf(f, an[n], |s.st.globals|);
            MCall(w, m, an, Fn(n), fuel, s) ==
            MFinish(w, m, an, f, fuel, s, MWrapped(w, m, an, x, EntryFee(an[n]), f.body, fuel - 1,
                s.(st := EnterFrame(f, s.st))))
  {
    hide MBody, EntryFee, StackCharge;
  }

  /** How an instrumented call ends, from the outcome of its whole body. */
  function Finish(w: World, m: Module, f: Func, fuel: nat, st: State, o: Outcome<State>): Outcome<State>
    requires f.Guest? && fuel > 0
  {
    match o
    case Next(s) => LeaveFrame(f, st, s)
    case Ret(s) => LeaveFrame(f, st, s)
    case Jump(l, s) => if l == 0 then LeaveFrame(f, st, s) else Trap(Stuck, s)
    case Tail(b, s) =>
      if Top(s.stack, Params(m, b)).None? then Trap(Stuck, s)
      else ExecCall(w, m, b, fuel - 1, ReplaceFrame(f, st, s, Top(s.stack, Params(m, b)).value))
    case Trap(y, s) => Trap(y, s)
    case Timeout(s) => Timeout(s)
  }

  lemma CallUnfold(w: World, m: Module, n: nat, fuel: nat, st: State)
    requires n < |m.funcs| && m.funcs[n].Guest? && Top(st.stack, m.funcs[n].params).Some? && fuel > 0
    ensures var f := m.funcs[n];
            ExecCall(w, m, Fn(n), fuel, st) == Finish(w, m, f, fuel, st,
                ExecCode(w, m, f.body, fuel - 1, EnterFrame(f, st)))
  {
    hide ExecCode;
  }

  /** The whole instrumented body: the wrapping block, then the release. */
  lemma SimFunctionBody(w: World, m: Module, m': Module, an: seq<Analysis>, x: Context, results: nat, entryFee: u64,
                        body: Code, fuel: nat, t: State, s: MState, g: nat, frames: seq<nat>)
    requires Pair(m, m', an, g) && x.globals == g && ValidCode(body, g, x.locals, 1)
    requires Rel(t, s, g, x.locals, frames) && t.stack == []
    ensures var o := ExecCode(w, m', TFunctionBody(x, results, entryFee, body), fuel, t);
            match MWrapped(w, m, an, x, entryFee, body, fuel, s)
            case Next(s') => o.Next? && Rel(o.st, Release(s'), g, x.locals, frames)
            case Jump(d, s') =>
              if Top(s'.st.stack, results).Some?
              then d == 0 && o.Next? &&
                   Rel(o.st, OnStack(Release(s'), Top(s'.st.stack, results).value), g, x.locals, frames)
              else d == 0 && o.Trap? && o.why == Stuck && RelShared(o.st, s', g)
            case Ret(s') => o.Ret? && Rel(o.st, s', g, x.locals, frames)
            case Tail(a, s') => o.Tail? && o.callee == a && a.Fn? && Rel(o.st, s', g, x.locals, frames)
            case Trap(y, s') => o.Trap? && o.why == y && RelShared(o.st, s', g)
            case Timeout(s') => o.Timeout? && RelShared(o.st, s', g)
    decreases fuel, 3
  {
    hide RelShared, ExecCode, Unstack, Wrapped, MWrapped, Pair, TFunctionBody;
    var fs := frames + [x.charge as nat];
    assert fs[..|fs| - 1] == frames;
    SimWrapped(w, m, m', an, x, entryFee, body, fuel, t, s, g, frames);
    FunctionBodyUnfold(w, m', x, results, entryFee, body, fuel, t);
    var q := ExecCode(w, m', Wrapped(x, entryFee, body), fuel, t);
    var r := MWrapped(w, m, an, x, entryFee, body, fuel, s);
    if r.Next? {
      SimUnstack(w, m', fuel, q.st, r.st, g, x.locals, fs, x.charge);
    } else if r.Jump? {
      StuckHere(q.st, r.st, g, x.locals, fs);
      if Top(r.st.st.stack, results).Some? {
        var top := Top(r.st.st.stack, results).value;
        RelStack(q.st, r.st, g, x.locals, fs, top);
        SimUnstack(w, m', fuel, q.st.(stack := top), OnStack(r.st, top), g, x.locals, fs, x.charge);
        assert Release(OnStack(r.st, top)) == OnStack(Release(r.st), top);
      }
    }
  }

  /** What follows the wrapping block: the release, unless the frame is left another way. */
  function AfterBlock(w: World, m': Module, x: Context, results: nat, fuel: nat, q: Outcome<State>): Outcome<State>
  {
    if q.Next? then ExecCode(w, m', Unstack(x.globals, x.charge), fuel, q.st)
    else if q.Jump? && q.depth > 0 then Jump(q.depth - 1, q.st)
    else if q.Jump? && Top(q.st.stack, results).None? then Trap(Stuck, q.st)
    else if q.Jump? then
      ExecCode(w, m', Unstack(x.globals, x.charge), fuel, q.st.(stack := Top(q.st.stack, results).value))
    else q
  }

  lemma FunctionBodyUnfold(w: World, m': Module, x: Context, results: nat, entryFee: u64,
      body: Code, fuel: nat, t: State)
    requires t.stack == []
    ensures ExecCode(w, m', TFunctionBody(x, results, entryFee, body), fuel, t) ==
            AfterBlock(w, m', x, results, fuel, ExecCode(w, m', Wrapped(x, entryFee, body), fuel, t))
  {
    hide ExecCode, Unstack, TBody, Reserve, PointCode;
    var b := Block(0, results, Wrapped(x, entryFee, body));
    Unfold(w, m', b, Unstack(x.globals, x.charge), fuel, t);
    assert Top(t.stack, 0).value == [] == t.stack && Below(t.stack, 0) == [];
    assert t.(stack := []) == t;
    var q := ExecCode(w, m', Wrapped(x, entryFee, body), fuel, t);
    if q.Next? { assert [] + q.st.stack == q.st.stack; }
    if q.Jump? && q.depth == 0 && Top(q.st.stack, results).Some? {
      assert [] + Top(q.st.stack, results).value == Top(q.st.stack, results).value;
    }
  }

  lemma {:induction false} SimCall(w: World, m: Module, m': Module, an: seq<Analysis>, a: Addr, fuel: nat,
                                   t: State, s: MState, g: nat, l: nat, frames: seq<nat>)
    requires Pair(m, m', an, g) && a.Fn? && Rel(t, s, g, l, frames)
    ensures RelCall(ExecCall(w, m', a, fuel, t), MCall(w, m, an, a, fuel, s), g, l, frames)
    decreases fuel, 0, Nil
  {
    hide RelShared, ExecCode, MBody, PayPoint, TFunctionBody, ValidCode, LeaveFrame, MLeaveFrame, RunHost, MHost,
        EntryFee, StackCharge;
    StuckHere(t, s, g, l, frames);
    if a.n < |m.funcs| {
      var f, f' := m.funcs[a.n], m'.funcs[a.n];
      assert f' == TFunc(f, an[a.n], g);
      assert ValidFunc(f, g);
      if f.Host? {
        SimHost(w, m, m', f, t, s, g, l, frames);
      } else if Top(t.stack, f.params).Some? && fuel > 0 {
        SimGuest(w, m, m', an, a.n, fuel, t, s, g, l, frames);
      }
    }
  }

  lemma SimGuest(w: World, m: Module, m': Module, an: seq<Analysis>, n: nat, fuel: nat,
                 t: State, s: MState, g: nat, l: nat, frames: seq<nat>)
    requires Pair(m, m', an, g) && n < |m.funcs| && m.funcs[n].Guest? && fuel > 0
    requires Rel(t, s, g, l, frames) && Top(t.stack, m.funcs[n].params).Some?
    ensures RelCall(ExecCall(w, m', Fn(n), fuel, t), MCall(w, m, an, Fn(n), fuel, s), g, l, frames)
    decreases fuel - 1, 4
  {
    hide RelShared, ExecCode, ExecCall, MCall, MWrapped, TFunctionBody, ValidCode, LeaveFrame, MLeaveFrame, EntryFee,
        StackCharge, EnterFrame;
    var f, f' := m.funcs[n], m'.funcs[n];
    assert f' == TFunc(f, an[n], g) && ValidFunc(f, g) && |s.st.globals| == g by { GlobalsCount(t, s, g); }
    var x, fee := ContextOf(f, an[n], g), EntryFee(an[n]);
    var (t0, s0) := (EnterFrame(f', t), s.(st := EnterFrame(f, s.st)));
    SimEnter(f, f', t, s, g, l, frames);
    EmptyEntry(f', t);
    SimFunctionBody(w, m, m', an, x, f.results, fee, f.body, fuel - 1, t0, s0, g, frames);
    CallUnfold(w, m', n, fuel, t);
    MCallUnfold(w, m, an, n, fuel, s);
    var o := ExecCode(w, m', f'.body, fuel - 1, t0);
    var r := MWrapped(w, m, an, x, fee, f.body, fuel - 1, s0);
    match r {
      case Next(s1) => SimLeave(f, f', t, s.st, o.st, Release(s1), g, x.locals, l, frames);
      case Jump(d, s1) =>
        if Top(s1.st.stack, f.results).Some? {
          var top := Top(s1.st.stack, f.results).value;
          SimLeave(f, f', t, s.st, o.st, OnStack(Release(s1), top), g, x.locals, l, frames);
          LeaveTop(f, s.st, Release(s1), top);
        }
      case Ret(s1) => SimLeave(f, f', t, s.st, o.st, s1, g, x.locals, l, frames);
      case Tail(b, s1) => SimTail(w, m, m', an, f, f', b, fuel, t, s, o.st, s1, g, x.locals, l, frames);
      case _ =>
    }
  }

  lemma GlobalsCount(t: State, s: MState, g: nat)
    requires RelShared(t, s, g)
    ensures |s.st.globals| == g
  {
  }

  lemma EmptyEntry(f: Func, t: State)
    requires f.Guest? && Top(t.stack, f.params).Some?
    ensures EnterFrame(f, t).stack == []
  {
  }

  /** Leaving a frame looks only at the top results. */
  lemma LeaveTop(f: Func, caller: State, s: MState, top: seq<Value>)
    requires f.Guest? && Top(s.st.stack, f.results) == Some(top)
    ensures MLeaveFrame(f, caller, OnStack(s, top)) == MLeaveFrame(f, caller, s)
  {
    assert Top(top, f.results) == Some(top) by { assert top[|top| - f.results..] == top; }
  }

  lemma SameParams(m: Module, m': Module, an: seq<Analysis>, g: nat, b: Addr)
    requires Pair(m, m', an, g)
    ensures Params(m', b) == Params(m, b)
  {
  }

  /** A replaced frame's callee starts on the caller's stack and locals. */
  lemma SimReplace(f: Func, f': Func, t0: State, s0: State, t: State, s: MState, g: nat, lf: nat, l: nat,
      frames: seq<nat>, args: seq<Value>)
    requires f.Guest? && f'.Guest? && f'.params == f.params && Rel(t, s, g, lf, frames)
    requires t0.stack == s0.stack && |s0.locals| == l && |t0.locals| == l + 2 && t0.locals[..l] == s0.locals
    ensures Rel(ReplaceFrame(f', t0, t, args), s.(st := ReplaceFrame(f, s0, s.st, args)), g, l, frames)
  {
    hide Extended, ReadingsFit, Reading;
  }

  lemma SimTail(w: World, m: Module, m': Module, an: seq<Analysis>, f: Func, f': Func, b: Addr, fuel: nat,
                t0: State, s0: MState, t: State, s: MState, g: nat, lf: nat, l: nat, frames: seq<nat>)
    requires Pair(m, m', an, g) && b.Fn? && fuel > 0
    requires f.Guest? && f'.Guest? && f'.params == f.params
    requires Rel(t0, s0, g, l, frames) && Rel(t, s, g, lf, frames)
    ensures RelCall(Finish(w, m', f', fuel, t0, Tail(b, t)), MFinish(w, m, an, f, fuel, s0, Tail(b, s)), g, l, frames)
    decreases fuel - 1, 1, Nil
  {
    hide RelShared, ExecCall, MCall;
    SameParams(m, m', an, g, b);
    StuckHere(t, s, g, lf, frames);
    var args := Top(t.stack, Params(m, b));
    if args.Some? {
      SimReplace(f, f', t0, s0.st, t, s, g, lf, l, frames, args.value);
      SimCall(w, m, m', an, b, fuel - 1, ReplaceFrame(f', t0, t, args.value),
        s.(st := ReplaceFrame(f, s0.st, s.st, args.value)), g, l, frames);
    }
  }
}
