/**
 * The stack budget between any two operators of an instrumented run, in every function it calls: what is left and the
 * charges of the live frames are the whole stack height.
 */
module Boundaries {
  import opened Words
  import opened Wasm
  import opened Instrument
  import opened Metered
  import opened StraightLine
  import opened Simulation
  import opened InstrumentTheorem

  // ----- The states a run passes -----

  /** The state before an operator, and the functions live then, the running one last. */
  datatype Boundary = Boundary(live: seq<nat>, st: State)

  /** All boundaries of a piece of code, callees included, in the order the interpreter passes them. */
  function Trace(w: World, m: Module, c: Code, fuel: nat, st: State, live: seq<nat>): seq<Boundary>
    decreases fuel, 1, c
  {
    if c.Nil? then [] else
      var o := ExecInstr(w, m, c.head, fuel, st);
      [Boundary(live, st)] + InstrTrace(w, m, c.head, fuel, st, live)
        + (if o.Next? then Trace(w, m, c.tail, fuel, o.st, live) else [])
  }

  /** The boundaries inside one operator. */
  function InstrTrace(w: World, m: Module, i: Instr, fuel: nat, st: State, live: seq<nat>): seq<Boundary>
    decreases fuel, 1, i
  {
    match i
    case Block(p, _, body) =>
      if |st.stack| < p then [] else Trace(w, m, body, fuel, st.(stack := Top(st.stack, p).value), live)
    case Loop(p, _, body) =>
      if |st.stack| < p then [] else
        var s := st.(stack := Top(st.stack, p).value);
        var o := ExecCode(w, m, body, fuel, s);
        Trace(w, m, body, fuel, s, live)
          + (if o.Jump? && o.depth == 0 && |o.st.stack| >= p && fuel > 0
             then InstrTrace(w, m, i, fuel - 1, o.st.(stack := Below(st.stack, p) + Top(o.st.stack, p).value), live)
             else [])
    case If(p, _, thn, els) =>
      if !TopIsI32(st.stack) || |st.stack| < p + 1 then [] else
        var s := Pop(st).(stack := Top(Pop(st).stack, p).value);
        if st.stack[|st.stack| - 1].i != 0 then Trace(w, m, thn, fuel, s, live)
        else if els.HasElse? then Trace(w, m, els.code, fuel, s, live)
        else []
    case Call(f) => if f < |m.index| then CallTrace(w, m, m.index[f], fuel, st, live) else []
    case CallIndirect(ty) =>
      var callee := Resolve(w, m, ty, st);
      if callee.None? then [] else CallTrace(w, m, Fn(callee.value), fuel, Pop(st), live)
    case _ => []
  }

  /** The boundaries of a call; a tail call replaces the frame. */
  function CallTrace(w: World, m: Module, a: Addr, fuel: nat, st: State, live: seq<nat>): seq<Boundary>
    decreases fuel, 0, Nil
  {
    if a.HookFn? || a.n >= |m.funcs| || m.funcs[a.n].Host? then [] else
      var f := m.funcs[a.n];
      if Top(st.stack, f.params).None? || fuel == 0 then [] else
        var o := ExecCode(w, m, f.body, fuel - 1, EnterFrame(f, st));
        Trace(w, m, f.body, fuel - 1, EnterFrame(f, st), live + [a.n])
          + (if o.Tail? && Top(o.st.stack, Params(m, o.callee)).Some?
             then CallTrace(w, m, o.callee, fuel - 1,
                    ReplaceFrame(f, st, o.st, Top(o.st.stack, Params(m, o.callee)).value), live)
             else [])
  }

  lemma {:induction false} TraceAppend(w: World, m: Module, a: Code, b: Code, fuel: nat, st: State, live: seq<nat>)
    ensures var o := ExecCode(w, m, a, fuel, st);
      Trace(w, m, Append(a, b), fuel, st, live) ==
        Trace(w, m, a, fuel, st, live) + (if o.Next? then Trace(w, m, b, fuel, o.st, live) else [])
    decreases a
  {
    hide InstrTrace, ExecInstr;
    if a.Cons? {
      var o := ExecInstr(w, m, a.head, fuel, st);
      if o.Next? { TraceAppend(w, m, a.tail, b, fuel, o.st, live); }
    }
  }

  // ----- The budget at a boundary -----

  /** The charges of the live functions, innermost last. */
  function ChargesOf(an: seq<Analysis>, live: seq<nat>): seq<nat>
    requires forall k :: 0 <= k < |live| ==> live[k] < |an|
  {
    seq(|live|, k requires 0 <= k < |live| => StackCharge(an[live[k]]) as nat)
  }

  /**
   * The budget and the charges of all callers are the stack height, the running function's own charge included from
   * its reservation to its release.
   */
  ghost predicate Held(an: seq<Analysis>, g: nat, b: Boundary) {
    && b.live != [] && (forall k :: 0 <= k < |b.live| ==> b.live[k] < |an|)
    && |b.st.globals| == g + 2 && b.st.globals[g + 1].I64?
    && var callers := b.st.globals[g + 1].n as int + Sum(ChargesOf(an, b.live[..|b.live| - 1]));
       callers == 262_144 || callers + StackCharge(an[b.live[|b.live| - 1]]) as int == 262_144
  }

  ghost predicate AllHeld(an: seq<Analysis>, g: nat, bs: seq<Boundary>) {
    forall b :: b in bs ==> Held(an, g, b)
  }

  lemma BothHeld(an: seq<Analysis>, g: nat, a: seq<Boundary>, b: seq<Boundary>)
    requires AllHeld(an, g, a) && AllHeld(an, g, b)
    ensures AllHeld(an, g, a + b)
  {
    hide Held;
  }

  /** The running function, its charge held or not. */
  ghost predicate Running(an: seq<Analysis>, live: seq<nat>, frames: seq<nat>) {
    && live != [] && (forall k :: 0 <= k < |live| ==> live[k] < |an|)
    && (frames == ChargesOf(an, live) || frames == ChargesOf(an, live[..|live| - 1]))
  }

  lemma ChargesSplit(an: seq<Analysis>, live: seq<nat>)
    requires live != [] && forall k :: 0 <= k < |live| ==> live[k] < |an|
    ensures ChargesOf(an, live) ==
      ChargesOf(an, live[..|live| - 1]) + [StackCharge(an[live[|live| - 1]]) as nat]
    ensures Sum(ChargesOf(an, live)) ==
      Sum(ChargesOf(an, live[..|live| - 1])) + StackCharge(an[live[|live| - 1]]) as int
  {
    hide StackCharge;
    var outer := ChargesOf(an, live[..|live| - 1]);
    assert ChargesOf(an, live)[..|live| - 1] == outer;
  }

  lemma RelatedHeld(an: seq<Analysis>, g: nat, live: seq<nat>, t: State, s: MState, l: nat, frames: seq<nat>)
    requires Running(an, live, frames) && Rel(t, s, g, l, frames)
    ensures Held(an, g, Boundary(live, t))
  {
    hide StackCharge, Sum, ChargesOf, Extended, ReadingsFit;
    GasGlobal(t, s, g);
    ChargesSplit(an, live);
  }

  // ----- Injected code -----

  predicate NeutralSimple(i: Instr) {
    i.I64Const? || i.LocalGet? || i.LocalTee? || i.GlobalGet? || i.I64Bin? || i.I64ExtendI32U? || i.Unreachable?
  }

  /** Operators of injected code that leave the budget alone. */
  predicate Neutral(i: Instr, g: nat) {
    match i
    case If(_, _, t, NoElse) => NeutralCode(t, g)
    case If(_, _, t, HasElse(e)) => NeutralCode(t, g) && NeutralCode(e, g)
    case GlobalSet(x) => x != g + 1
    case Call(f) => f == STACK_EXHAUSTED_FN || f == GAS_INSTRUMENTATION_FN
    case _ => NeutralSimple(i)
  }

  predicate NeutralCode(c: Code, g: nat) {
    c.Cons? ==> Neutral(c.head, g) && NeutralCode(c.tail, g)
  }

  /** Code that changes the budget with its very last operator at most. */
  predicate Quiet(c: Code, g: nat) {
    c.Cons? ==>
      if c.tail.Cons? then Neutral(c.head, g) && Quiet(c.tail, g)
      else match c.head
        case If(_, _, t, HasElse(e)) => Quiet(t, g) && Quiet(e, g)
        case GlobalSet(_) => true
        case _ => Neutral(c.head, g)
  }

  lemma {:induction false} NeutralIsQuiet(c: Code, g: nat)
    requires NeutralCode(c, g)
    ensures Quiet(c, g)
  {
    if c.Cons? {
      NeutralIsQuiet(c.tail, g);
      if c.head.If? && c.head.els.HasElse? {
        NeutralIsQuiet(c.head.thn, g);
        NeutralIsQuiet(c.head.els.code, g);
      }
    }
  }

  lemma {:induction false} NeutralAppend(a: Code, b: Code, g: nat)
    requires NeutralCode(a, g) && NeutralCode(b, g)
    ensures NeutralCode(Append(a, b), g)
  {
    hide Neutral;
    if a.Cons? { NeutralAppend(a.tail, b, g); }
  }

  lemma {:induction false} ChargesNeutral(g: nat, l: nat, ps: seq<Point>)
    ensures NeutralCode(PointsCode(g, l, ps), g)
    decreases |ps|
  {
    if ps != [] {
      PointNeutral(g, l, ps[0]);
      ChargesNeutral(g, l, ps[1..]);
      NeutralAppend(PointCode(g, l, ps[0]), PointsCode(g, l, ps[1..]), g);
    }
  }

  lemma PointNeutral(g: nat, l: nat, p: Point)
    ensures NeutralCode(PointCode(g, l, p), g)
  {
    hide ConstantCharge, LinearCharge;
    GuardNeutral(g, p.fee.constant);
    LinearNeutral(g, l, p.fee);
  }

  lemma NeutralFour(a: Instr, b: Instr, c: Instr, d: Instr, rest: Code, g: nat)
    requires Neutral(a, g) && Neutral(b, g) && Neutral(c, g) && Neutral(d, g) && NeutralCode(rest, g)
    ensures NeutralCode(Cons(a, Cons(b, Cons(c, Cons(d, rest)))), g)
  {
    hide Neutral;
    assert NeutralCode(Cons(c, Cons(d, rest)), g);
  }

  lemma NeutralThree(a: Instr, b: Instr, c: Instr, rest: Code, g: nat)
    requires Neutral(a, g) && Neutral(b, g) && Neutral(c, g) && NeutralCode(rest, g)
    ensures NeutralCode(Cons(a, Cons(b, Cons(c, rest))), g)
  {
    hide Neutral;
    assert NeutralCode(Cons(c, rest), g);
  }

  lemma GuardNeutral(g: nat, c: u64)
    ensures NeutralCode(ConstantCharge(g, c), g)
  {
    NeutralFour(GlobalGet(g), I64Const(c), I64Bin(Sub), GlobalSet(g), Nil, g);
    NeutralThree(I64Const(c), Call(GAS_INSTRUMENTATION_FN), Unreachable, Nil, g);
    var pay := Cons(GlobalGet(g), Cons(I64Const(c), Cons(I64Bin(Sub), Cons(GlobalSet(g), Nil))));
    var fail := Cons(I64Const(c), Cons(Call(GAS_INSTRUMENTATION_FN), Cons(Unreachable, Nil)));
    NeutralFour(GlobalGet(g), I64Const(c), I64Bin(LtU), If(0, 0, fail, HasElse(pay)), Nil, g);
  }

  lemma TailNeutral(g: nat, l: nat)
    ensures NeutralCode(LinearTail(g, l), g)
  {
    NeutralFour(GlobalGet(g), LocalGet(l), I64Bin(Sub), GlobalSet(g), Nil, g);
    NeutralThree(LocalGet(l), Call(GAS_INSTRUMENTATION_FN), Unreachable, Nil, g);
    var pay := Cons(GlobalGet(g), Cons(LocalGet(l), Cons(I64Bin(Sub), Cons(GlobalSet(g), Nil))));
    var fail := Cons(LocalGet(l), Cons(Call(GAS_INSTRUMENTATION_FN), Cons(Unreachable, Nil)));
    NeutralFour(GlobalGet(g), I64Bin(GtU), If(0, 0, fail, HasElse(pay)), LocalGet(l + 1), Nil, g);
  }

  lemma LinearNeutral(g: nat, l: nat, fee: Fee)
    ensures NeutralCode(LinearCharge(g, l, fee), g)
  {
    hide LinearTail;
    TailNeutral(g, l);
    var add := Cons(I64Const(fee.constant), Cons(I64Bin(Add), Cons(LocalTee(l), LinearTail(g, l))));
    NeutralThree(I64Const(fee.constant), I64Bin(Add), LocalTee(l), LinearTail(g, l), g);
    NeutralFour(LocalTee(l + 1), I64ExtendI32U, I64Const(fee.linear), I64Bin(Mul), add, g);
  }

  lemma QuietFour(a: Instr, b: Instr, c: Instr, d: Instr, g: nat)
    requires Neutral(a, g) && Neutral(b, g) && Neutral(c, g) && Quiet(Cons(d, Nil), g)
    ensures Quiet(Cons(a, Cons(b, Cons(c, Cons(d, Nil)))), g)
  {
    hide Neutral;
    assert Quiet(Cons(c, Cons(d, Nil)), g);
  }

  lemma FramesQuiet(g: nat, charge: u64)
    ensures Quiet(Reserve(g, charge), g) && Quiet(Unstack(g, charge), g)
  {
    QuietFour(GlobalGet(g + 1), I64Const(charge), I64Bin(Add), GlobalSet(g + 1), g);
    QuietFour(GlobalGet(g + 1), I64Const(charge), I64Bin(Sub), GlobalSet(g + 1), g);
    var take := Cons(GlobalGet(g + 1), Cons(I64Const(charge), Cons(I64Bin(Sub), Cons(GlobalSet(g + 1), Nil))));
    var fail := Cons(Call(STACK_EXHAUSTED_FN), Cons(Unreachable, Nil));
    assert Quiet(Cons(If(0, 0, fail, HasElse(take)), Nil), g);
    QuietFour(GlobalGet(g + 1), I64Const(charge), I64Bin(LtU), If(0, 0, fail, HasElse(take)), g);
  }

  /** The budget global is the same. */
  predicate SameBudget(t: State, u: State, g: nat) {
    |t.globals| == |u.globals| == g + 2 && t.globals[g + 1] == u.globals[g + 1]
  }

  lemma {:induction false} NeutralKeeps(w: World, m': Module, c: Code, fuel: nat, t: State, g: nat)
    requires Injected(m', g) && NeutralCode(c, g) && |t.globals| == g + 2
    ensures var o := ExecCode(w, m', c, fuel, t); !o.Jump? && (o.Next? ==> SameBudget(t, o.st, g))
    decreases c
  {
    hide ExecInstr, Neutral;
    if c.Cons? {
      NeutralStep(w, m', c.head, fuel, t, g);
      var o := ExecInstr(w, m', c.head, fuel, t);
      if o.Next? { NeutralKeeps(w, m', c.tail, fuel, o.st, g); }
    }
  }

  lemma {:induction false} NeutralStep(w: World, m': Module, i: Instr, fuel: nat, t: State, g: nat)
    requires Injected(m', g) && Neutral(i, g) && |t.globals| == g + 2
    ensures var o := ExecInstr(w, m', i, fuel, t); !o.Jump? && (o.Next? ==> SameBudget(t, o.st, g))
    decreases i, 1
  {
    if i.If? {
      IfKeeps(w, m', i, fuel, t, g);
    } else if i.Call? {
      HookCall(w, m', i, fuel, t, g);
    } else {
      RunSimple(w, m', i, fuel, t);
      hide ExecInstr;
    }
  }

  lemma IfKeeps(w: World, m': Module, i: Instr, fuel: nat, t: State, g: nat)
    requires Injected(m', g) && Neutral(i, g) && |t.globals| == g + 2 && i.If?
    ensures var o := ExecInstr(w, m', i, fuel, t); !o.Jump? && (o.Next? ==> SameBudget(t, o.st, g))
    decreases i, 0
  {
    hide ExecCode, Injected, NeutralCode;
    if TopIsI32(t.stack) && |t.stack| >= i.params + 1 {
      var s := Pop(t).(stack := Top(Pop(t).stack, i.params).value);
      NeutralKeeps(w, m', i.thn, fuel, s, g);
      if i.els.HasElse? { NeutralKeeps(w, m', i.els.code, fuel, s, g); }
    }
  }

  /** Calling a hook never returns, and passes no boundary. */
  lemma HookCall(w: World, m': Module, i: Instr, fuel: nat, t: State, g: nat)
    requires Injected(m', g) && i.Call? && (i.f == STACK_EXHAUSTED_FN || i.f == GAS_INSTRUMENTATION_FN)
    ensures ExecInstr(w, m', i, fuel, t).Trap? && forall live :: InstrTrace(w, m', i, fuel, t, live) == []
  {}

  /** At every boundary of quiet code the budget is what it was before it. */
  lemma {:induction false} QuietTrace(w: World, m': Module, c: Code, fuel: nat, t: State, live: seq<nat>, g: nat)
    requires Injected(m', g) && Quiet(c, g) && |t.globals| == g + 2
    ensures forall b :: b in Trace(w, m', c, fuel, t, live) ==> b.live == live && SameBudget(t, b.st, g)
    decreases c, 1
  {
    hide ExecInstr, InstrTrace, Neutral;
    if c.Cons? {
      QuietInside(w, m', c, fuel, t, live, g);
      if c.tail.Cons? {
        NeutralStep(w, m', c.head, fuel, t, g);
        var o := ExecInstr(w, m', c.head, fuel, t);
        if o.Next? { QuietTrace(w, m', c.tail, fuel, o.st, live, g); }
      }
    }
  }

  lemma {:induction false} QuietInside(w: World, m': Module, c: Code, fuel: nat, t: State, live: seq<nat>, g: nat)
    requires Injected(m', g) && Quiet(c, g) && c.Cons? && |t.globals| == g + 2
    ensures forall b :: b in InstrTrace(w, m', c.head, fuel, t, live) ==> b.live == live && SameBudget(t, b.st, g)
    decreases c, 0
  {
    hide Trace;
    var i := c.head;
    if i.If? {
      if TopIsI32(t.stack) && |t.stack| >= i.params + 1 {
        var s := Pop(t).(stack := Top(Pop(t).stack, i.params).value);
        QuietBranches(c, g);
        QuietTrace(w, m', i.thn, fuel, s, live, g);
        if i.els.HasElse? { QuietTrace(w, m', i.els.code, fuel, s, live, g); }
      }
    } else if i.Call? {
      HookCall(w, m', i, fuel, t, g);
    }
  }

  lemma QuietBranches(c: Code, g: nat)
    requires Quiet(c, g) && c.Cons? && c.head.If?
    ensures Quiet(c.head.thn, g) && (c.head.els.HasElse? ==> Quiet(c.head.els.code, g))
  {
    if Neutral(c.head, g) {
      NeutralIsQuiet(c.head.thn, g);
      if c.head.els.HasElse? { NeutralIsQuiet(c.head.els.code, g); }
    }
  }

  /** Quiet code run from a state in which the budget is held. */
  lemma QuietHeld(w: World, m': Module, an: seq<Analysis>, c: Code, fuel: nat, t: State, live: seq<nat>, g: nat)
    requires Injected(m', g) && Quiet(c, g) && Held(an, g, Boundary(live, t))
    ensures AllHeld(an, g, Trace(w, m', c, fuel, t, live))
  {
    hide Trace, Quiet, StackCharge, Sum, ChargesOf;
    QuietTrace(w, m', c, fuel, t, live, g);
  }

  // ----- The run -----

  /** Related states in a frame whose charge is held. */
  ghost predicate Placed(an: seq<Analysis>, x: Context, g: nat, live: seq<nat>, t: State, s: MState) {
    && live != [] && (forall k :: 0 <= k < |live| ==> live[k] < |an|)
    && InFrame(x, g, ChargesOf(an, live)) && Rel(t, s, g, x.locals, ChargesOf(an, live))
  }

  lemma PlacedHeld(an: seq<Analysis>, x: Context, g: nat, live: seq<nat>, t: State, s: MState)
    requires Placed(an, x, g, live, t, s)
    ensures Held(an, g, Boundary(live, t)) && InFrame(x, g, ChargesOf(an, live))
    ensures Rel(t, s, g, x.locals, ChargesOf(an, live)) && ChargesOf(an, live) != []
  {
    hide Rel, Held;
    RelatedHeld(an, g, live, t, s, x.locals, ChargesOf(an, live));
  }

  lemma PointsHeld(w: World, m': Module, an: seq<Analysis>, x: Context, ps: seq<Point>, fuel: nat, t: State,
                   live: seq<nat>, g: nat)
    requires Injected(m', g) && Held(an, g, Boundary(live, t))
    ensures AllHeld(an, g, Trace(w, m', PointsCode(g, x.locals, ps), fuel, t, live))
  {
    hide *;
    ChargesNeutral(g, x.locals, ps);
    NeutralIsQuiet(PointsCode(g, x.locals, ps), g);
    QuietHeld(w, m', an, PointsCode(g, x.locals, ps), fuel, t, live, g);
  }

  lemma {:induction false} CodeHeld(w: World, m: Module, m': Module, an: seq<Analysis>, x: Context, c: Code, pos: nat,
                                    fuel: nat, t: State, s: MState, g: nat, live: seq<nat>, d: nat)
    requires Pair(m, m', an, g) && Placed(an, x, g, live, t, s) && ValidCode(c, g, x.locals, d)
    ensures AllHeld(an, g, Trace(w, m', TCode(x, c, pos), fuel, t, live))
    decreases fuel, 1, c, 0
  {
    hide RelShared, Rel, Trace, ExecCode, TInstr, MInstr, PayPoints, At, PointsCode, TModule, ValidModule, ValidInstr,
         AllHeld, Held, ChargesOf, Pair, Injected;
    if c.Nil? {
      NoTrace(w, m', an, fuel, t, live, g);
    } else {
      var charges, i, rest := Charges(x, pos), TInstr(x, c.head, pos), TCode(x, c.tail, pos + InstrSize(c.head));
      PairInjected(m, m', an, g);
      PlacedHeld(an, x, g, live, t, s);
      PointsHeld(w, m', an, x, At(x.points, pos), fuel, t, live, g);
      SimPoints(w, m', At(x.points, pos), fuel, t, s, g, x.locals, ChargesOf(an, live), d);
      TraceAppend(w, m', charges, Append(i, rest), fuel, t, live);
      var o, r := ExecCode(w, m', charges, fuel, t), Pay(x, pos, s);
      if o.Next? {
        InstrHeld(w, m, m', an, x, c.head, pos, fuel, o.st, r.st, g, live, d);
        SimInstr(w, m, m', an, x, c.head, pos, fuel, o.st, r.st, g, ChargesOf(an, live), d);
        TraceAppend(w, m', i, rest, fuel, o.st, live);
        var o', r' := ExecCode(w, m', i, fuel, o.st), MInstr(w, m, an, x, c.head, pos, fuel, r.st);
        if o'.Next? {
          CodeHeld(w, m, m', an, x, c.tail, pos + InstrSize(c.head), fuel, o'.st, r'.st, g, live, d);
          BothHeld(an, g, Trace(w, m', i, fuel, o.st, live), Trace(w, m', rest, fuel, o'.st, live));
        }
        NoneMore(an, g, Trace(w, m', i, fuel, o.st, live));
        BothHeld(an, g, Trace(w, m', charges, fuel, t, live), Trace(w, m', Append(i, rest), fuel, o.st, live));
      }
      NoneMore(an, g, Trace(w, m', charges, fuel, t, live));
    }
  }

  lemma NoTrace(w: World, m: Module, an: seq<Analysis>, fuel: nat, t: State, live: seq<nat>, g: nat)
    ensures AllHeld(an, g, Trace(w, m, Nil, fuel, t, live))
  {}

  lemma NoneMore(an: seq<Analysis>, g: nat, bs: seq<Boundary>)
    ensures bs + [] == bs && AllHeld(an, g, [])
  {}

  lemma {:induction false} BodyHeld(w: World, m: Module, m': Module, an: seq<Analysis>, x: Context, c: Code, pos: nat,
                                    fuel: nat, t: State, s: MState, g: nat, live: seq<nat>, d: nat)
    requires Pair(m, m', an, g) && Placed(an, x, g, live, t, s) && ValidCode(c, g, x.locals, d)
    ensures AllHeld(an, g, Trace(w, m', TBody(x, c, pos), fuel, t, live))
    decreases fuel, 1, c, 1
  {
    hide RelShared, Rel, Trace, ExecCode, TCode, MCode, PayPoints, At, PointsCode, TModule, ValidModule, ValidCode,
         AllHeld, Held, ChargesOf, Pair, Injected;
    PairInjected(m, m', an, g);
    CodeHeld(w, m, m', an, x, c, pos, fuel, t, s, g, live, d);
    PlacedHeld(an, x, g, live, t, s);
    SimCode(w, m, m', an, x, c, pos, fuel, t, s, g, ChargesOf(an, live), d);
    var code, charges := TCode(x, c, pos), Charges(x, pos + Size(c));
    TraceAppend(w, m', code, charges, fuel, t, live);
    var o, r := ExecCode(w, m', code, fuel, t), MCode(w, m, an, x, c, pos, fuel, s);
    if o.Next? {
      PlacedHeld(an, x, g, live, o.st, r.st);
      PointsHeld(w, m', an, x, At(x.points, pos + Size(c)), fuel, o.st, live, g);
      BothHeld(an, g, Trace(w, m', code, fuel, t, live), Trace(w, m', charges, fuel, o.st, live));
    }
    NoneMore(an, g, Trace(w, m', code, fuel, t, live));
  }

  /** One operator: the boundary before it, then those inside. */
  lemma OneHeld(w: World, m: Module, an: seq<Analysis>, i: Instr, fuel: nat, t: State, live: seq<nat>, g: nat)
    requires Held(an, g, Boundary(live, t)) && AllHeld(an, g, InstrTrace(w, m, i, fuel, t, live))
    ensures AllHeld(an, g, Trace(w, m, Cons(i, Nil), fuel, t, live))
  {
    hide InstrTrace, ExecInstr, Held;
    assert forall u :: Trace(w, m, Nil, fuel, u, live) == [];
  }

  lemma {:induction false} InstrHeld(w: World, m: Module, m': Module, an: seq<Analysis>, x: Context, i: Instr, pos: nat,
                                     fuel: nat, t: State, s: MState, g: nat, live: seq<nat>, d: nat)
    requires Pair(m, m', an, g) && Placed(an, x, g, live, t, s) && ValidInstr(i, g, x.locals, d)
    ensures AllHeld(an, g, Trace(w, m', TInstr(x, i, pos), fuel, t, live))
    decreases fuel, 1, i, 1
  {
    hide Trace, InstrTrace, ValidInstr, AllHeld, Held, Pair, Rel, ChargesOf;
    PlacedHeld(an, x, g, live, t, s);
    if i.Return? || i.ReturnCall? || i.ReturnCallIndirect? {
      ExitHeld(w, m, m', an, x, i, pos, fuel, t, s, g, live);
    } else {
      if i.Block? {
        BlockHeld(w, m, m', an, x, i, pos, fuel, t, s, g, live, d);
      } else if i.Loop? {
        LoopHeld(w, m, m', an, x, i, pos, fuel, t, s, g, live, d);
      } else if i.If? {
        IfHeld(w, m, m', an, x, i, pos, fuel, t, s, g, live, d);
      } else if i.Call? || i.CallIndirect? {
        CallInstrHeld(w, m, m', an, x, i, pos, fuel, t, s, g, live);
      } else {
        FlatHeld(w, m', an, x, i, pos, fuel, t, live, g);
      }
      OneHeld(w, m', an, TInstr(x, i, pos).head, fuel, t, live, g);
    }
  }

  lemma FlatHeld(w: World, m': Module, an: seq<Analysis>, x: Context, i: Instr, pos: nat, fuel: nat, t: State,
                 live: seq<nat>, g: nat)
    requires !i.Block? && !i.Loop? && !i.If? && !i.Call? && !i.CallIndirect?
    requires !i.Return? && !i.ReturnCall? && !i.ReturnCallIndirect?
    ensures TInstr(x, i, pos).Cons? && TInstr(x, i, pos).tail == Nil
    ensures AllHeld(an, g, InstrTrace(w, m', TInstr(x, i, pos).head, fuel, t, live))
  {}

  lemma BlockHeld(w: World, m: Module, m': Module, an: seq<Analysis>, x: Context, i: Instr, pos: nat,
                  fuel: nat, t: State, s: MState, g: nat, live: seq<nat>, d: nat)
    requires Pair(m, m', an, g) && Placed(an, x, g, live, t, s) && ValidInstr(i, g, x.locals, d) && i.Block?
    ensures TInstr(x, i, pos).Cons? && TInstr(x, i, pos).tail == Nil
    ensures AllHeld(an, g, InstrTrace(w, m', TInstr(x, i, pos).head, fuel, t, live))
    decreases fuel, 1, i, 0
  {
    hide Trace, TBody, AllHeld, Pair, ChargesOf, Rel;
    if |t.stack| >= i.params {
      var top := Top(t.stack, i.params).value;
      PlacedStack(an, x, g, live, t, s, top);
      BodyHeld(w, m, m', an, x, i.body, pos + 1, fuel, t.(stack := top), OnStack(s, top), g, live, d + 1);
    } else {
      NoneMore(an, g, []);
    }
  }

  lemma PlacedStack(an: seq<Analysis>, x: Context, g: nat, live: seq<nat>, t: State, s: MState, stack: seq<Value>)
    requires Placed(an, x, g, live, t, s)
    ensures Placed(an, x, g, live, t.(stack := stack), OnStack(s, stack)) && t.stack == s.st.stack
  {
    hide ChargesOf, RelShared;
    RelStack(t, s, g, x.locals, ChargesOf(an, live), stack);
  }

  lemma LoopHeld(w: World, m: Module, m': Module, an: seq<Analysis>, x: Context, i: Instr, pos: nat,
                 fuel: nat, t: State, s: MState, g: nat, live: seq<nat>, d: nat)
    requires Pair(m, m', an, g) && Placed(an, x, g, live, t, s) && ValidInstr(i, g, x.locals, d) && i.Loop?
    ensures TInstr(x, i, pos).Cons? && TInstr(x, i, pos).tail == Nil
    ensures AllHeld(an, g, InstrTrace(w, m', TInstr(x, i, pos).head, fuel, t, live))
    decreases fuel, 1, i, 0
  {
    hide Trace, ExecCode, TBody, MBody, AllHeld, Pair, ChargesOf, Rel;
    var p, body := i.params, TBody(x, i.body, pos + 1);
    if |t.stack| >= p {
      var top := Top(t.stack, p).value;
      var (t1, s1) := (t.(stack := top), OnStack(s, top));
      PlacedStack(an, x, g, live, t, s, top);
      BodyHeld(w, m, m', an, x, i.body, pos + 1, fuel, t1, s1, g, live, d + 1);
      PlacedHeld(an, x, g, live, t1, s1);
      SimBody(w, m, m', an, x, i.body, pos + 1, fuel, t1, s1, g, ChargesOf(an, live), d + 1);
      var o, q := ExecCode(w, m', body, fuel, t1), MBody(w, m, an, x, i.body, pos + 1, fuel, s1);
      NoneMore(an, g, Trace(w, m', body, fuel, t1, live));
      if o.Jump? && o.depth == 0 && |o.st.stack| >= p && fuel > 0 {
        var again := Below(t.stack, p) + Top(o.st.stack, p).value;
        PlacedStack(an, x, g, live, o.st, q.st, again);
        var t2 := o.st.(stack := again);
        LoopHeld(w, m, m', an, x, i, pos, fuel - 1, t2, OnStack(q.st, again), g, live, d);
        BothHeld(an, g, Trace(w, m', body, fuel, t1, live),
          InstrTrace(w, m', Loop(p, i.results, body), fuel - 1, t2, live));
      }
    } else {
      NoneMore(an, g, []);
    }
  }

  lemma IfHeld(w: World, m: Module, m': Module, an: seq<Analysis>, x: Context, i: Instr, pos: nat,
               fuel: nat, t: State, s: MState, g: nat, live: seq<nat>, d: nat)
    requires Pair(m, m', an, g) && Placed(an, x, g, live, t, s) && ValidInstr(i, g, x.locals, d) && i.If?
    ensures TInstr(x, i, pos).Cons? && TInstr(x, i, pos).tail == Nil
    ensures AllHeld(an, g, InstrTrace(w, m', TInstr(x, i, pos).head, fuel, t, live))
    decreases fuel, 1, i, 0
  {
    hide Trace, TBody, AllHeld, Pair, ChargesOf, Rel;
    NoneMore(an, g, []);
    if TopIsI32(t.stack) && |t.stack| >= i.params + 1 {
      var top := Top(Pop(t).stack, i.params).value;
      PlacedStack(an, x, g, live, t, s, top);
      var (t1, s1) := (t.(stack := top), OnStack(s, top));
      BodyHeld(w, m, m', an, x, i.thn, pos + 1, fuel, t1, s1, g, live, d + 1);
      if i.els.HasElse? {
        BodyHeld(w, m, m', an, x, i.els.code, pos + 2 + Size(i.thn), fuel, t1, s1, g, live, d + 1);
      }
    }
  }

  lemma CallInstrHeld(w: World, m: Module, m': Module, an: seq<Analysis>, x: Context, i: Instr, pos: nat,
                      fuel: nat, t: State, s: MState, g: nat, live: seq<nat>)
    requires Pair(m, m', an, g) && Placed(an, x, g, live, t, s) && (i.Call? || i.CallIndirect?)
    ensures TInstr(x, i, pos).Cons? && TInstr(x, i, pos).tail == Nil
    ensures AllHeld(an, g, InstrTrace(w, m', TInstr(x, i, pos).head, fuel, t, live))
    decreases fuel, 1, i, 0
  {
    hide Trace, CallTrace, AllHeld, ChargesOf, Held;
    NoneMore(an, g, []);
    PlacedHeld(an, x, g, live, t, s);
    if i.Call? {
      ShiftedIndex(m, an, g, i.f);
      if i.f < |m.index| {
        CallHeld(w, m, m', an, m.index[i.f], fuel, t, s, g, x.locals, live);
      }
    } else {
      SameResolve(w, m, m', an, g, i.ty, t, s.st);
      var callee := Resolve(w, m, i.ty, s.st);
      if callee.Some? {
        var st := Pop(s.st).stack;
        RelStack(t, s, g, x.locals, ChargesOf(an, live), st);
        CallHeld(w, m, m', an, Fn(callee.value), fuel, t.(stack := st), OnStack(s, st), g, x.locals, live);
      }
    }
  }

  /** The release before a return or a tail call, then the operator itself. */
  lemma ExitHeld(w: World, m: Module, m': Module, an: seq<Analysis>, x: Context, i: Instr, pos: nat,
                 fuel: nat, t: State, s: MState, g: nat, live: seq<nat>)
    requires Pair(m, m', an, g) && Placed(an, x, g, live, t, s)
    requires i.Return? || i.ReturnCall? || i.ReturnCallIndirect?
    ensures AllHeld(an, g, Trace(w, m', TInstr(x, i, pos), fuel, t, live))
  {
    hide Trace, ExecCode, Unstack, AllHeld, Held, ChargesOf, Rel, Pair, Injected, Release, StackCharge;
    var i' := if i.ReturnCall? then ReturnCall(i.f + F) else i;
    var unstack := Unstack(g, x.charge);
    var frames := ChargesOf(an, live);
    PairInjected(m, m', an, g);
    PlacedHeld(an, x, g, live, t, s);
    FramesQuiet(g, x.charge);
    QuietHeld(w, m', an, unstack, fuel, t, live, g);
    TraceAppend(w, m', unstack, Cons(i', Nil), fuel, t, live);
    SimUnstack(w, m', fuel, t, s, g, x.locals, frames, x.charge);
    var t1 := ExecCode(w, m', unstack, fuel, t).st;
    ChargesSplit(an, live);
    assert frames[..|frames| - 1] == ChargesOf(an, live[..|live| - 1]);
    RelatedHeld(an, g, live, t1, Release(s), x.locals, frames[..|frames| - 1]);
    NoneMore(an, g, []);
    OneHeld(w, m', an, i', fuel, t1, live, g);
    BothHeld(an, g, Trace(w, m', unstack, fuel, t, live), Trace(w, m', Cons(i', Nil), fuel, t1, live));
  }

  // ----- Calls -----

  lemma CallHeld(w: World, m: Module, m': Module, an: seq<Analysis>, a: Addr, fuel: nat, t: State, s: MState,
                 g: nat, l: nat, live: seq<nat>)
    requires Pair(m, m', an, g) && a.Fn? && (forall k :: 0 <= k < |live| ==> live[k] < |an|)
    requires Rel(t, s, g, l, ChargesOf(an, live))
    ensures AllHeld(an, g, CallTrace(w, m', a, fuel, t, live))
    decreases fuel, 0, Nil, 0
  {
    hide Trace, ExecCode, AllHeld, ChargesOf, Rel, TFunctionBody, ValidCode, StackCharge, EntryFee, CallTrace;
    NoneMore(an, g, []);
    if a.n < |m.funcs| {
      var f, f' := m.funcs[a.n], m'.funcs[a.n];
      assert f' == TFunc(f, an[a.n], g);
      if f.Guest? && Top(t.stack, f.params).Some? && fuel > 0 {
        GuestHeld(w, m, m', an, a.n, fuel, t, s, g, l, live);
      } else {
        NoCall(w, m', a, fuel, t, live);
      }
    } else {
      NoCall(w, m', a, fuel, t, live);
    }
  }

  lemma NoCall(w: World, m: Module, a: Addr, fuel: nat, t: State, live: seq<nat>)
    requires a.Fn? && (a.n < |m.funcs| && m.funcs[a.n].Guest? && fuel > 0 ==> Top(t.stack, m.funcs[a.n].params).None?)
    ensures CallTrace(w, m, a, fuel, t, live) == []
  {}

  lemma GuestHeld(w: World, m: Module, m': Module, an: seq<Analysis>, n: nat, fuel: nat, t: State, s: MState,
                  g: nat, l: nat, live: seq<nat>)
    requires Pair(m, m', an, g) && n < |m.funcs| && m.funcs[n].Guest? && fuel > 0
    requires forall k :: 0 <= k < |live| ==> live[k] < |an|
    requires Rel(t, s, g, l, ChargesOf(an, live)) && Top(t.stack, m.funcs[n].params).Some?
    ensures AllHeld(an, g, CallTrace(w, m', Fn(n), fuel, t, live))
    decreases fuel - 1, 4
  {
    hide RelShared, Trace, ExecCode, MWrapped, AllHeld, ChargesOf, TFunctionBody, ValidCode, StackCharge, EntryFee,
         EnterFrame, CallTrace;
    var f, f' := m.funcs[n], m'.funcs[n];
    var frames := ChargesOf(an, live);
    StuckHere(t, s, g, l, frames);
    GlobalsCount(t, s, g);
    assert f' == TFunc(f, an[n], g) && ValidFunc(f, g);
    var x, fee := ContextOf(f, an[n], g), EntryFee(an[n]);
    var (t0, s0) := (EnterFrame(f', t), s.(st := EnterFrame(f, s.st)));
    SimEnter(f, f', t, s, g, l, frames);
    EmptyEntry(f', t);
    FunctionHeld(w, m, m', an, x, f.results, fee, f.body, fuel - 1, t0, s0, g, live, n);
    SimFunctionBody(w, m, m', an, x, f.results, fee, f.body, fuel - 1, t0, s0, g, frames);
    CallTraceUnfold(w, m', n, fuel, t, live);
    var inside := Trace(w, m', f'.body, fuel - 1, t0, live + [n]);
    var o, r := ExecCode(w, m', f'.body, fuel - 1, t0), MWrapped(w, m, an, x, fee, f.body, fuel - 1, s0);
    NoneMore(an, g, inside);
    if o.Tail? && Top(o.st.stack, Params(m', o.callee)).Some? {
      var args := Top(o.st.stack, Params(m', o.callee)).value;
      SimReplace(f, f', t, s.st, o.st, r.st, g, x.locals, l, frames, args);
      var t1 := ReplaceFrame(f', t, o.st, args);
      CallHeld(w, m, m', an, o.callee, fuel - 1, t1, r.st.(st := ReplaceFrame(f, s.st, r.st.st, args)), g, l, live);
      BothHeld(an, g, inside, CallTrace(w, m', o.callee, fuel - 1, t1, live));
    }
  }

  lemma CallTraceUnfold(w: World, m: Module, n: nat, fuel: nat, st: State, live: seq<nat>)
    requires n < |m.funcs| && m.funcs[n].Guest? && Top(st.stack, m.funcs[n].params).Some? && fuel > 0
    ensures var f := m.funcs[n];
      var o := ExecCode(w, m, f.body, fuel - 1, EnterFrame(f, st));
      CallTrace(w, m, Fn(n), fuel, st, live) == Trace(w, m, f.body, fuel - 1, EnterFrame(f, st), live + [n])
        + (if o.Tail? && Top(o.st.stack, Params(m, o.callee)).Some?
           then CallTrace(w, m, o.callee, fuel - 1,
                  ReplaceFrame(f, st, o.st, Top(o.st.stack, Params(m, o.callee)).value), live)
           else [])
  {
    hide Trace, ExecCode, EnterFrame, ReplaceFrame;
  }

  /** The whole body of a function: reservation, fee, original code, release. */
  lemma FunctionHeld(w: World, m: Module, m': Module, an: seq<Analysis>, x: Context, results: nat, entryFee: u64,
                     body: Code, fuel: nat, t: State, s: MState, g: nat, outer: seq<nat>, n: nat)
    requires Pair(m, m', an, g) && x.globals == g && ValidCode(body, g, x.locals, 1)
    requires (forall k :: 0 <= k < |outer| ==> outer[k] < |an|) && n < |an| && x.charge == StackCharge(an[n])
    requires Rel(t, s, g, x.locals, ChargesOf(an, outer)) && t.stack == []
    ensures AllHeld(an, g, Trace(w, m', TFunctionBody(x, results, entryFee, body), fuel, t, outer + [n]))
    decreases fuel, 3
  {
    hide RelShared, Rel, Trace, InstrTrace, ExecCode, Unstack, Wrapped, MWrapped, AllHeld, Held, ChargesOf, Pair,
         StackCharge, Injected;
    var live, frames := outer + [n], ChargesOf(an, outer);
    assert live[..|live| - 1] == outer;
    var fs := frames + [x.charge as nat];
    ChargesSplit(an, live);
    assert fs == ChargesOf(an, live);
    RelatedHeld(an, g, live, t, s, x.locals, frames);
    WrappedHeld(w, m, m', an, x, entryFee, body, fuel, t, s, g, live);
    SimWrapped(w, m, m', an, x, entryFee, body, fuel, t, s, g, frames);
    FunctionTrace(w, m', x, results, entryFee, body, fuel, t, live);
    var q, r := ExecCode(w, m', Wrapped(x, entryFee, body), fuel, t), MWrapped(w, m, an, x, entryFee, body, fuel, s);
    var o := ExitBlock(q, results, []);
    var first, inside := [Boundary(live, t)], Trace(w, m', Wrapped(x, entryFee, body), fuel, t, live);
    OnlyHeld(an, g, Boundary(live, t));
    BothHeld(an, g, first, inside);
    if o.Next? {
      RelatedHeld(an, g, live, q.st, r.st, x.locals, fs);
      SameGlobals(an, g, live, q.st, o.st);
      PairInjected(m, m', an, g);
      FramesQuiet(g, x.charge);
      QuietHeld(w, m', an, Unstack(g, x.charge), fuel, o.st, live, g);
      BothHeld(an, g, first + inside, Trace(w, m', Unstack(g, x.charge), fuel, o.st, live));
    }
    NoneMore(an, g, first + inside);
  }

  lemma OnlyHeld(an: seq<Analysis>, g: nat, b: Boundary)
    requires Held(an, g, b)
    ensures AllHeld(an, g, [b])
  {}

  lemma SameGlobals(an: seq<Analysis>, g: nat, live: seq<nat>, t: State, u: State)
    requires Held(an, g, Boundary(live, t)) && u.globals == t.globals
    ensures Held(an, g, Boundary(live, u))
  {}

  lemma FunctionTrace(w: World, m': Module, x: Context, results: nat, entryFee: u64, body: Code, fuel: nat, t: State,
                      live: seq<nat>)
    requires t.stack == []
    ensures var o := ExitBlock(ExecCode(w, m', Wrapped(x, entryFee, body), fuel, t), results, []);
      Trace(w, m', TFunctionBody(x, results, entryFee, body), fuel, t, live) ==
        [Boundary(live, t)] + Trace(w, m', Wrapped(x, entryFee, body), fuel, t, live)
          + (if o.Next? then Trace(w, m', Unstack(x.globals, x.charge), fuel, o.st, live) else [])
  {
    hide Unstack, Reserve, PointCode, TBody;
    var b := Block(0, results, Wrapped(x, entryFee, body));
    assert t.(stack := Top(t.stack, 0).value) == t && Below(t.stack, 0) == [];
    assert InstrTrace(w, m', b, fuel, t, live) == Trace(w, m', Wrapped(x, entryFee, body), fuel, t, live);
    assert ExecInstr(w, m', b, fuel, t) ==
      ExitBlock(ExecCode(w, m', Wrapped(x, entryFee, body), fuel, t), results, []);
  }

  lemma WrappedHeld(w: World, m: Module, m': Module, an: seq<Analysis>, x: Context, entryFee: u64, body: Code,
                    fuel: nat, t: State, s: MState, g: nat, live: seq<nat>)
    requires Pair(m, m', an, g) && x.globals == g && ValidCode(body, g, x.locals, 1)
    requires live != [] && (forall k :: 0 <= k < |live| ==> live[k] < |an|)
    requires x.charge == StackCharge(an[live[|live| - 1]])
    requires Rel(t, s, g, x.locals, ChargesOf(an, live[..|live| - 1]))
    ensures AllHeld(an, g, Trace(w, m', Wrapped(x, entryFee, body), fuel, t, live))
    decreases fuel, 2
  {
    hide RelShared, Rel, Trace, ExecCode, Reserve, PointCode, PayPoint, TBody, Pair, Budget, Exhausted, AllHeld, Held,
         ChargesOf, StackCharge, Injected;
    var outer, fs := ChargesOf(an, live[..|live| - 1]), ChargesOf(an, live);
    var fee := Point(0, Fee(0, entryFee), OtherKind);
    var reserve, pay, code := Reserve(g, x.charge), PointCode(g, x.locals, fee), TBody(x, body, 0);
    var rest := Append(pay, code);
    ChargesSplit(an, live);
    PairInjected(m, m', an, g);
    FramesQuiet(g, x.charge);
    RelatedHeld(an, g, live, t, s, x.locals, outer);
    QuietHeld(w, m', an, reserve, fuel, t, live, g);
    SimReserve(w, m', fuel, t, s, g, x.locals, outer, x.charge);
    TraceAppend(w, m', reserve, rest, fuel, t, live);
    var o := ExecCode(w, m', reserve, fuel, t);
    if o.Next? {
      var (t1, s1) := (o.st, s.(frames := outer + [x.charge as nat]));
      RelatedHeld(an, g, live, t1, s1, x.locals, fs);
      PointNeutral(g, x.locals, fee);
      NeutralIsQuiet(pay, g);
      QuietHeld(w, m', an, pay, fuel, t1, live, g);
      SimPoint(w, m', fee, fuel, t1, s1, g, x.locals, fs, 1);
      TraceAppend(w, m', pay, code, fuel, t1, live);
      var o', r' := ExecCode(w, m', pay, fuel, t1), PayPoint(s1, fee);
      if o'.Next? {
        BodyHeld(w, m, m', an, x, body, 0, fuel, o'.st, r'.st, g, live, 1);
        BothHeld(an, g, Trace(w, m', pay, fuel, t1, live), Trace(w, m', code, fuel, o'.st, live));
      }
      NoneMore(an, g, Trace(w, m', pay, fuel, t1, live));
      BothHeld(an, g, Trace(w, m', reserve, fuel, t, live), Trace(w, m', rest, fuel, t1, live));
    }
    NoneMore(an, g, Trace(w, m', reserve, fuel, t, live));
  }

  /**
   * At every operator boundary of an instrumented run, the boundaries inside injected code and inside all the calls it
   * makes included, the budget global and the charges of all callers make up the stack height; so does, from its
   * reservation to its release, the charge of the running function.
   */
  lemma BudgetEverywhere(w: World, m: Module, an: seq<Analysis>, n: nat, fuel: nat,
                         args: seq<Value>, globals: seq<Value>, mem: Mem, gas: u64)
    requires ValidModule(m, an, |globals|) && PositiveCharges(m, an)
    ensures var g := |globals|;
      AllHeld(an, g, CallTrace(w, TModule(m, an, g), Fn(n), fuel, StartMetered(args, globals, mem, gas), []))
  {
    hide CallTrace, AllHeld, PositiveCharges, Rel, ValidFunc;
    StartsRelated(args, globals, mem, gas);
    assert ChargesOf(an, []) == [];
    CallHeld(w, m, TModule(m, an, |globals|), an, Fn(n), fuel, StartMetered(args, globals, mem, gas),
      Metering(args, globals, mem, gas), |globals|, 0, []);
  }
}
