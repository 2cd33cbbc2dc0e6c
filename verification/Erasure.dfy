/** The metered run follows the plain run of the original program: either it is the plain run with
    the fees passed subtracted from the gas, or it stops in a hook at a point of the plain run. */
module Erasure {
  import opened Words
  import opened Wasm
  import opened Instrument
  import opened Metered
  import opened StraightLine
  import opened Simulation

  /** Stopped for want of gas or stack. */
  predicate Spent(r: Outcome<MState>)
  {
    r.Trap? && (r.why == PrepaidGas || r.why == StackOverflow)
  }

  /** The gas left and the fees paid. */
  function Total(s: MState): int { s.gas as int + Sum(s.paid) }

  /** The same outcome of the plain program, or a stop in a hook somewhere along it. */
  ghost predicate Follows(o: Outcome<State>, r: Outcome<MState>)
  {
    if Spent(r) then r.st.st.log <= o.st.log
    else
      && r.st.st == o.st
      && match (o, r)
         case (Next(_), Next(_)) => true
         case (Jump(k, _), Jump(k', _)) => k == k'
         case (Ret(_), Ret(_)) => true
         case (Tail(a, _), Tail(b, _)) => a == b
         case (Trap(y, _), Trap(z, _)) => y == z
         case (Timeout(_), Timeout(_)) => true
         case _ => false
  }

  /** Gas is only ever turned into paid fees. */
  ghost predicate Accounted(s: MState, r: Outcome<MState>)
  {
    if Spent(r) then Total(r.st) <= Total(s) else Total(r.st) == Total(s)
  }

  // ----- What the analysis guarantees -----

  predicate Charged(p: Point) { !p.kind.UnreachableKind? && !(p.fee.linear == 0 && p.fee.constant == 0) }

  /** Linear fees sit on bulk operators. */
  ghost predicate ConstantAt(ps: seq<Point>, pos: nat)
  {
    forall p :: p in At(ps, pos) && Charged(p) ==> p.fee.linear == 0
  }

  ghost predicate FitsCode(ps: seq<Point>, c: Code, pos: nat)
    decreases c
  {
    c.Cons? ==>
      && (!c.head.Bulk? ==> ConstantAt(ps, pos))
      && FitsInstr(ps, c.head, pos)
      && FitsCode(ps, c.tail, pos + InstrSize(c.head))
  }

  ghost predicate FitsInstr(ps: seq<Point>, i: Instr, pos: nat)
    decreases i
  {
    match i
    case Block(_, _, b) => FitsCode(ps, b, pos + 1) && ConstantAt(ps, pos + 1 + Size(b))
    case Loop(_, _, b) => FitsCode(ps, b, pos + 1) && ConstantAt(ps, pos + 1 + Size(b))
    case If(_, _, t, NoElse) => FitsCode(ps, t, pos + 1) && ConstantAt(ps, pos + 1 + Size(t))
    case If(_, _, t, HasElse(e)) =>
      && FitsCode(ps, t, pos + 1) && ConstantAt(ps, pos + 1 + Size(t))
      && FitsCode(ps, e, pos + 2 + Size(t)) && ConstantAt(ps, pos + 2 + Size(t) + Size(e))
    case _ => true
  }

  /** A linear fee cannot wrap 64 bits for any 32-bit length. */
  predicate NoWrap(fee: Fee)
  {
    0xFFFF_FFFF * fee.linear as int + fee.constant as int < W
  }

  ghost predicate FitsAnalysis(a: Analysis, body: Code)
  {
    && FitsCode(a.points, body, 0) && ConstantAt(a.points, Size(body))
    && forall p :: p in a.points ==> NoWrap(p.fee)
  }

  ghost predicate FitsModule(m: Module, an: seq<Analysis>)
  {
    && m.gas.None? && |an| == |m.funcs|
    && (forall k :: 0 <= k < |m.index| ==> m.index[k].Fn?)
    && forall k :: 0 <= k < |m.funcs| && m.funcs[k].Guest? ==> FitsAnalysis(an[k], m.funcs[k].body)
  }

  lemma NoWrapAmount(fee: Fee, k: u32)
    requires NoWrap(fee)
    ensures LinearAmount(fee, k) as int == k as int * fee.linear as int + fee.constant as int
  {
    MulLe(k as int, 0xFFFF_FFFF, fee.linear as int);
    MulLe(0, k as int, fee.linear as int);
    InRange(k as int * fee.linear as int, fee.constant as int);
  }

  lemma InRange(x: nat, c: nat)
    requires x + c < W
    ensures (x % W + c) % W == x + c
  {
  }

  // ----- The log only grows, and the memory is that of its last event -----

  /** From one state to a later one: events are only added, and the memory changes only with an event. */
  ghost predicate Tracked(st: State, t: State)
  {
    st.log <= t.log && t.mem == (if |t.log| == |st.log| then st.mem else t.log[|t.log| - 1].mem)
  }

  lemma {:induction false} LogGrowsCode(w: World, m: Module, c: Code, fuel: nat, st: State)
    ensures Tracked(st, ExecCode(w, m, c, fuel, st).st)
    decreases fuel, 1, c, 0
  {
    hide ExecInstr;
    if c.Cons? {
      LogGrowsInstr(w, m, c.head, fuel, st);
      var o := ExecInstr(w, m, c.head, fuel, st);
      if o.Next? { LogGrowsCode(w, m, c.tail, fuel, o.st); }
    }
  }

  lemma {:induction false} LogGrowsInstr(w: World, m: Module, i: Instr, fuel: nat, st: State)
    ensures Tracked(st, ExecInstr(w, m, i, fuel, st).st)
    decreases fuel, 1, i, 1
  {
    hide ExecInstr;
    match i {
      case Block(_, _, _) => LogGrowsBlock(w, m, i, fuel, st);
      case Loop(_, _, _) => LogGrowsLoop(w, m, i, fuel, st);
      case If(_, _, _, _) => LogGrowsIf(w, m, i, fuel, st);
      case Call(_) => LogGrowsCallInstr(w, m, i, fuel, st);
      case CallIndirect(_) => LogGrowsCallInstr(w, m, i, fuel, st);
      case _ => LogGrowsFlat(w, m, i, fuel, st);
    }
  }

  lemma LogGrowsBlock(w: World, m: Module, i: Instr, fuel: nat, st: State)
    requires i.Block?
    ensures Tracked(st, ExecInstr(w, m, i, fuel, st).st)
    decreases fuel, 1, i, 0
  {
    hide ExecCode;
    if |st.stack| >= i.params { LogGrowsCode(w, m, i.body, fuel, st.(stack := Top(st.stack, i.params).value)); }
  }

  lemma LogGrowsIf(w: World, m: Module, i: Instr, fuel: nat, st: State)
    requires i.If?
    ensures Tracked(st, ExecInstr(w, m, i, fuel, st).st)
    decreases fuel, 1, i, 0
  {
    hide ExecCode;
    if TopIsI32(st.stack) && |st.stack| >= i.params + 1 {
      var s0 := Pop(st).(stack := Top(Pop(st).stack, i.params).value);
      LogGrowsCode(w, m, i.thn, fuel, s0);
      if i.els.HasElse? { LogGrowsCode(w, m, i.els.code, fuel, s0); }
    }
  }

  lemma LogGrowsCallInstr(w: World, m: Module, i: Instr, fuel: nat, st: State)
    requires i.Call? || i.CallIndirect?
    ensures Tracked(st, ExecInstr(w, m, i, fuel, st).st)
    decreases fuel, 1, i, 0
  {
    hide ExecCall;
    if i.Call? {
      if i.f < |m.index| { LogGrowsCall(w, m, m.index[i.f], fuel, st); }
    } else {
      var callee := Resolve(w, m, i.ty, st);
      if callee.Some? { LogGrowsCall(w, m, Fn(callee.value), fuel, Pop(st)); }
    }
  }

  lemma LogGrowsFlat(w: World, m: Module, i: Instr, fuel: nat, st: State)
    requires !i.Block? && !i.Loop? && !i.If? && !i.Call? && !i.CallIndirect?
    ensures Tracked(st, ExecInstr(w, m, i, fuel, st).st)
  {
    hide ExecCode, ExecCall, Simple;
    if IsSimple(i) {
      RunSimple(w, m, i, fuel, st);
      LogGrowsSimple(w, i, st);
    }
  }

  lemma LogGrowsSimple(w: World, i: Instr, st: State)
    requires IsSimple(i)
    ensures Tracked(st, Simple(w, i, st).st)
  {
  }

  lemma LogGrowsLoop(w: World, m: Module, i: Instr, fuel: nat, st: State)
    requires i.Loop?
    ensures Tracked(st, ExecInstr(w, m, i, fuel, st).st)
    decreases fuel, 1, i, 0
  {
    hide ExecCode, Tracked;
    if |st.stack| >= i.params {
      var s0 := st.(stack := Top(st.stack, i.params).value);
      LogGrowsCode(w, m, i.body, fuel, s0);
      var o := ExecCode(w, m, i.body, fuel, s0);
      OtherStack(st, s0, o.st, o.st);
      if o.Jump? && o.depth == 0 && |o.st.stack| >= i.params && fuel > 0 {
        var s1 := o.st.(stack := Below(st.stack, i.params) + Top(o.st.stack, i.params).value);
        LogGrowsLoop(w, m, i, fuel - 1, s1);
        OtherStack(st, s0, o.st, s1);
        TrackedOn(st, s1, ExecInstr(w, m, i, fuel - 1, s1).st);
      }
      forall stack ensures Tracked(st, o.st.(stack := stack)) { OtherStack(st, s0, o.st, o.st.(stack := stack)); }
    } else {
      OtherStack(st, st, st, st);
    }
  }

  lemma OtherStack(st: State, s0: State, t: State, t': State)
    requires st.log == s0.log && st.mem == s0.mem && t.log == t'.log && t.mem == t'.mem
    ensures Tracked(s0, t) ==> Tracked(st, t')
    ensures s0 == t ==> Tracked(st, t')
  {
  }

  lemma TrackedOn(a: State, b: State, c: State)
    requires Tracked(a, b) && Tracked(b, c)
    ensures Tracked(a, c)
  {
  }

  lemma {:induction false} LogGrowsCall(w: World, m: Module, a: Addr, fuel: nat, st: State)
    ensures Tracked(st, ExecCall(w, m, a, fuel, st).st)
    decreases fuel, 0, Nil, 0
  {
    hide ExecCode, EnterFrame;
    if a.Fn? && a.n < |m.funcs| && m.funcs[a.n].Guest? && Top(st.stack, m.funcs[a.n].params).Some? && fuel > 0 {
      hide ExecCall, Finish, Top;
      var f := m.funcs[a.n];
      var s0 := EnterFrame(f, st);
      EnterTracked(f, st);
      LogGrowsCode(w, m, f.body, fuel - 1, s0);
      CallUnfold(w, m, a.n, fuel, st);
      FinishTracked(w, m, f, fuel, st, ExecCode(w, m, f.body, fuel - 1, s0));
    }
  }

  lemma EnterTracked(f: Func, st: State)
    requires f.Guest? && Top(st.stack, f.params).Some?
    ensures EnterFrame(f, st).log == st.log && EnterFrame(f, st).mem == st.mem
  {
  }

  lemma FinishTracked(w: World, m: Module, f: Func, fuel: nat, st: State, o: Outcome<State>)
    requires f.Guest? && fuel > 0
    ensures Tracked(o.st, Finish(w, m, f, fuel, st, o).st)
    decreases fuel - 1, 1
  {
    hide ExecCall;
    if o.Tail? && Top(o.st.stack, Params(m, o.callee)).Some? {
      LogGrowsCall(w, m, o.callee, fuel - 1, ReplaceFrame(f, st, o.st, Top(o.st.stack, Params(m, o.callee)).value));
    }
  }

  // ----- Paying -----

  lemma SumAppend(s: seq<nat>, x: nat)
    ensures Sum(s + [x]) == Sum(s) + x
  {
    assert (s + [x])[..|s|] == s;
  }

  /** Paying changes nothing of the program's state. */
  lemma PointPaid(s: MState, p: Point)
    requires NoWrap(p.fee)
    ensures var r := PayPoint(s, p);
            && r.st.st == s.st && r.st.frames == s.frames && Accounted(s, r)
            && (r.Next? || Spent(r) ||
                (r.Trap? && r.why == Stuck && !TopIsI32(s.st.stack) && Charged(p) && p.fee.linear != 0))
  {
    SumAppend(s.paid, p.fee.constant as nat);
    if TopIsI32(s.st.stack) {
      var k := s.st.stack[|s.st.stack| - 1].i;
      NoWrapAmount(p.fee, k);
      SumAppend(s.paid, LinearAmount(p.fee, k) as nat);
    }
  }

  lemma {:induction false} PointsPaid(s: MState, ps: seq<Point>)
    requires forall p :: p in ps ==> NoWrap(p.fee)
    ensures var r := PayPoints(s, ps);
            && r.st.st == s.st && r.st.frames == s.frames && Accounted(s, r)
            && (r.Next? || Spent(r) ||
                (r.Trap? && r.why == Stuck && !TopIsI32(s.st.stack) &&
                 exists p :: p in ps && Charged(p) && p.fee.linear != 0))
    decreases |ps|
  {
    hide PayPoint, Total;
    if ps != [] {
      PointPaid(s, ps[0]);
      var o := PayPoint(s, ps[0]);
      if o.Next? {
        PointsPaid(o.st, ps[1..]);
      } else if !Spent(o) {
        assert ps[0] in ps;
      }
    }
  }

  /** At a position without linear fees, paying goes through or stops in a hook. */
  lemma ConstantPaid(x: Context, pos: nat, s: MState)
    requires ConstantAt(x.points, pos) && forall p :: p in x.points ==> NoWrap(p.fee)
    ensures var r := Pay(x, pos, s);
            && r.st.st == s.st && r.st.frames == s.frames && Accounted(s, r) && (r.Next? || Spent(r))
  {
    hide Total, PayPoints;
    PointsPaid(s, At(x.points, pos));
  }

  // ----- Following the plain run -----

  /** Within a frame the charges stay; a return or a tail call has released the innermost one. */
  ghost predicate Kept(frames: seq<nat>, r: Outcome<MState>)
    requires frames != []
  {
    match r
    case Next(s) => s.frames == frames
    case Jump(_, s) => s.frames == frames
    case Ret(s) => s.frames == frames[..|frames| - 1]
    case Tail(a, s) => a.Fn? && s.frames == frames[..|frames| - 1]
    case _ => true
  }

  ghost predicate Erased(o: Outcome<State>, r: Outcome<MState>, s: MState)
    requires s.frames != []
  {
    Follows(o, r) && Accounted(s, r) && Kept(s.frames, r)
  }

  ghost predicate ErasedCall(o: Outcome<State>, r: Outcome<MState>, s: MState)
  {
    Follows(o, r) && Accounted(s, r) && !r.Ret? && !r.Jump? && !r.Tail? && (r.Next? ==> r.st.frames == s.frames)
  }

  ghost predicate Fitting(x: Context)
  {
    forall p :: p in x.points ==> NoWrap(p.fee)
  }

  lemma LiftErased(s: MState, o: Outcome<State>)
    requires s.frames != [] && (o.Next? || o.Jump? || (o.Trap? && (o.why == GuestTrap || o.why == Stuck)))
    ensures Erased(o, Lift(s, o), s)
  {
    hide Sum;
  }

  lemma ExitErased(o: Outcome<State>, r: Outcome<MState>, s: MState, arity: nat, below: seq<Value>)
    requires s.frames != [] && Erased(o, r, s)
    ensures Erased(ExitBlock(o, arity, below), MExitBlock(r, arity, below), s)
  {
    hide Sum;
  }

  lemma SpentExit(r: Outcome<MState>, arity: nat, below: seq<Value>)
    ensures Spent(r) ==> MExitBlock(r, arity, below) == r
  {
  }

  /** A later stage that follows keeps the whole following, given where the first stage ended. */
  lemma Chained(s: MState, s1: MState, o: Outcome<State>, r: Outcome<MState>)
    requires s.frames != [] && s1.frames == s.frames && Total(s1) == Total(s) && Erased(o, r, s1)
    ensures Erased(o, r, s)
  {
  }

  lemma {:induction false} EraseCode(w: World, m: Module, an: seq<Analysis>, x: Context, c: Code, pos: nat,
      fuel: nat, s: MState)
    requires FitsModule(m, an) && Fitting(x) && FitsCode(x.points, c, pos) && s.frames != []
    ensures Erased(ExecCode(w, m, c, fuel, s.st), MCode(w, m, an, x, c, pos, fuel, s), s)
    decreases fuel, 1, c, 0
  {
    hide ExecInstr, MInstr, PayPoints, At, Total, FitsInstr, ConstantAt, FitsModule, InstrSize;
    if c.Cons? {
      PointsPaid(s, At(x.points, pos));
      var p := Pay(x, pos, s);
      if p.Next? {
        EraseInstr(w, m, an, x, c.head, pos, fuel, p.st);
        var o, r := ExecInstr(w, m, c.head, fuel, s.st), MInstr(w, m, an, x, c.head, pos, fuel, p.st);
        if r.Next? {
          EraseCode(w, m, an, x, c.tail, pos + InstrSize(c.head), fuel, r.st);
        } else if Spent(r) && o.Next? {
          LogGrowsCode(w, m, c.tail, fuel, o.st);
        }
      } else {
        LogGrowsCode(w, m, c, fuel, s.st);
        if !Spent(p) { NotPaid(w, m, x, c.head, pos, fuel, s); }
      }
    }
  }

  /** Where paying does not go through, the run is spent, or the operator itself is stuck. */
  lemma NotPaid(w: World, m: Module, x: Context, i: Instr, pos: nat, fuel: nat, s: MState)
    requires Fitting(x) && (!i.Bulk? ==> ConstantAt(x.points, pos)) && !Pay(x, pos, s).Next? && !Spent(Pay(x, pos, s))
    ensures Pay(x, pos, s).Trap? && Pay(x, pos, s).why == Stuck && ExecInstr(w, m, i, fuel, s.st) == Trap(Stuck, s.st)
  {
    hide PayPoints, At;
    PointsPaid(s, At(x.points, pos));
    assert i.Bulk?;
  }

  lemma {:induction false} EraseBody(w: World, m: Module, an: seq<Analysis>, x: Context, c: Code, pos: nat,
                                      fuel: nat, s: MState)
    requires FitsModule(m, an) && Fitting(x) && FitsCode(x.points, c, pos)
    requires ConstantAt(x.points, pos + Size(c)) && s.frames != []
    ensures Erased(ExecCode(w, m, c, fuel, s.st), MBody(w, m, an, x, c, pos, fuel, s), s)
    decreases fuel, 1, c, 1
  {
    hide ExecCode, MCode, PayPoints, At, Total, FitsCode, ConstantAt, FitsModule, Size;
    EraseCode(w, m, an, x, c, pos, fuel, s);
    var r := MCode(w, m, an, x, c, pos, fuel, s);
    if r.Next? { ConstantPaid(x, pos + Size(c), r.st); }
  }

  lemma {:induction false} EraseInstr(w: World, m: Module, an: seq<Analysis>, x: Context, i: Instr, pos: nat,
      fuel: nat, s: MState)
    requires FitsModule(m, an) && Fitting(x) && FitsInstr(x.points, i, pos) && s.frames != []
    ensures Erased(ExecInstr(w, m, i, fuel, s.st), MInstr(w, m, an, x, i, pos, fuel, s), s)
    decreases fuel, 1, i, 1
  {
    hide ExecInstr, MInstr, Erased, FitsInstr, FitsModule;
    match i {
      case Block(_, _, _) => EraseBlock(w, m, an, x, i, pos, fuel, s);
      case Loop(_, _, _) => EraseLoop(w, m, an, x, i, pos, fuel, s);
      case If(_, _, _, _) => EraseIf(w, m, an, x, i, pos, fuel, s);
      case Call(_) => EraseCallInstr(w, m, an, x, i, pos, fuel, s);
      case CallIndirect(_) => EraseCallInstr(w, m, an, x, i, pos, fuel, s);
      case _ => EraseFlat(w, m, an, x, i, pos, fuel, s);
    }
  }

  lemma EraseFlat(w: World, m: Module, an: seq<Analysis>, x: Context, i: Instr, pos: nat, fuel: nat, s: MState)
    requires s.frames != [] && !i.Block? && !i.Loop? && !i.If? && !i.Call? && !i.CallIndirect?
    requires FitsModule(m, an)
    ensures Erased(ExecInstr(w, m, i, fuel, s.st), MInstr(w, m, an, x, i, pos, fuel, s), s)
  {
    hide Sum, Simple, Branch;
    if IsSimple(i) {
      SimpleOutcomes(w, i, s.st);
      hide *;
      MFlat(w, m, an, x, i, pos, fuel, s);
      LiftErased(s, Simple(w, i, s.st));
    } else if i.Br? || i.BrIf? || i.BrTable? {
      BranchOutcomes(i, s.st);
      hide *;
      MFlat(w, m, an, x, i, pos, fuel, s);
      LiftErased(s, Branch(i, s.st));
    } else {
      EraseExit(w, m, an, x, i, pos, fuel, s);
    }
  }

  lemma EraseExit(w: World, m: Module, an: seq<Analysis>, x: Context, i: Instr, pos: nat, fuel: nat, s: MState)
    requires s.frames != [] && FitsModule(m, an)
    requires i.RefFunc? || i.Return? || i.ReturnCall? || i.ReturnCallIndirect?
    ensures Erased(ExecInstr(w, m, i, fuel, s.st), MInstr(w, m, an, x, i, pos, fuel, s), s)
  {
    hide Sum, Simple, Branch, Lift, MCall, MBody, ExecCall, ExecCode;
  }

  lemma MFlat(w: World, m: Module, an: seq<Analysis>, x: Context, i: Instr, pos: nat, fuel: nat, s: MState)
    requires IsSimple(i) || i.Br? || i.BrIf? || i.BrTable?
    ensures ExecInstr(w, m, i, fuel, s.st) == if IsSimple(i) then Simple(w, i, s.st) else Branch(i, s.st)
    ensures MInstr(w, m, an, x, i, pos, fuel, s) == Lift(s, ExecInstr(w, m, i, fuel, s.st))
  {
    hide Simple, Branch, Lift;
  }

  lemma SimpleOutcomes(w: World, i: Instr, st: State)
    requires IsSimple(i)
    ensures var o := Simple(w, i, st); o.Next? || (o.Trap? && (o.why == GuestTrap || o.why == Stuck))
  {
  }

  lemma BranchOutcomes(i: Instr, st: State)
    requires i.Br? || i.BrIf? || i.BrTable?
    ensures var o := Branch(i, st); o.Next? || o.Jump? || (o.Trap? && (o.why == GuestTrap || o.why == Stuck))
  {
  }

  lemma EraseBlock(w: World, m: Module, an: seq<Analysis>, x: Context, i: Instr, pos: nat, fuel: nat, s: MState)
    requires FitsModule(m, an) && Fitting(x) && FitsInstr(x.points, i, pos) && s.frames != [] && i.Block?
    ensures Erased(ExecInstr(w, m, i, fuel, s.st), MInstr(w, m, an, x, i, pos, fuel, s), s)
    decreases fuel, 1, i, 0
  {
    hide ExecCode, MBody, ExitBlock, MExitBlock, FitsCode, ConstantAt, FitsModule, Sum;
    if |s.st.stack| >= i.params {
      var s1 := OnStack(s, Top(s.st.stack, i.params).value);
      EraseBody(w, m, an, x, i.body, pos + 1, fuel, s1);
      ExitErased(ExecCode(w, m, i.body, fuel, s1.st), MBody(w, m, an, x, i.body, pos + 1, fuel, s1), s1, i.results,
          Below(s.st.stack, i.params));
    }
  }

  lemma EraseLoop(w: World, m: Module, an: seq<Analysis>, x: Context, i: Instr, pos: nat, fuel: nat, s: MState)
    requires FitsModule(m, an) && Fitting(x) && FitsInstr(x.points, i, pos) && s.frames != [] && i.Loop?
    ensures Erased(ExecInstr(w, m, i, fuel, s.st), MInstr(w, m, an, x, i, pos, fuel, s), s)
    decreases fuel, 1, i, 0
  {
    hide ExecInstr, MInstr, ExecCode, MBody, FitsCode, ConstantAt, FitsModule, Sum, Iterate, MIterate;
    LoopUnfold(w, m, i, fuel, s.st);
    MLoopUnfold(w, m, an, x, i, pos, fuel, s);
    if |s.st.stack| >= i.params {
      hide Erased;
      var s1 := OnStack(s, Top(s.st.stack, i.params).value);
      EraseBody(w, m, an, x, i.body, pos + 1, fuel, s1);
      var o, r := ExecCode(w, m, i.body, fuel, s1.st), MBody(w, m, an, x, i.body, pos + 1, fuel, s1);
      ErasedOnStack(o, r, s, s1.st.stack);
      EraseIterate(w, m, an, x, i, pos, fuel, s, o, r);
    }
  }

  lemma ErasedOnStack(o: Outcome<State>, r: Outcome<MState>, s: MState, stack: seq<Value>)
    requires s.frames != [] && Erased(o, r, OnStack(s, stack))
    ensures Erased(o, r, s)
  {
    hide Sum;
  }

  /** What follows one iteration of a loop, which has been paid for or has spent the run. */
  lemma EraseIterate(w: World, m: Module, an: seq<Analysis>, x: Context, i: Instr, pos: nat, fuel: nat, s: MState,
                     o: Outcome<State>, r: Outcome<MState>)
    requires FitsModule(m, an) && Fitting(x) && FitsInstr(x.points, i, pos) && s.frames != [] && i.Loop?
    requires Erased(o, r, s)
    ensures Erased(Iterate(w, m, i, fuel, s.st, o), MIterate(w, m, an, x, i, pos, fuel, s, r), s)
    decreases fuel, 0, i, 1
  {
    hide ExecInstr, MInstr, ExitBlock, MExitBlock, FitsModule, FitsInstr, Sum;
    var below := Below(s.st.stack, i.params);
    SpentExit(r, i.results, below);
    if !o.Jump? || o.depth != 0 {
      ExitErased(o, r, s, i.results, below);
    } else if |o.st.stack| >= i.params && fuel > 0 {
      var again := below + Top(o.st.stack, i.params).value;
      if Spent(r) {
        LogGrowsInstr(w, m, i, fuel - 1, o.st.(stack := again));
      } else {
        var s2 := OnStack(r.st, again);
        EraseLoop(w, m, an, x, i, pos, fuel - 1, s2);
        Chained(s, s2, ExecInstr(w, m, i, fuel - 1, s2.st), MInstr(w, m, an, x, i, pos, fuel - 1, s2));
      }
    }
  }

  lemma EraseIf(w: World, m: Module, an: seq<Analysis>, x: Context, i: Instr, pos: nat, fuel: nat, s: MState)
    requires FitsModule(m, an) && Fitting(x) && FitsInstr(x.points, i, pos) && s.frames != [] && i.If?
    ensures Erased(ExecInstr(w, m, i, fuel, s.st), MInstr(w, m, an, x, i, pos, fuel, s), s)
    decreases fuel, 1, i, 0
  {
    hide ExecCode, MBody, ExitBlock, MExitBlock, FitsCode, ConstantAt, FitsModule, Sum;
    if TopIsI32(s.st.stack) && |s.st.stack| >= i.params + 1 {
      var below := Pop(s.st).stack;
      var s1 := OnStack(s, Top(below, i.params).value);
      var rest := Below(below, i.params);
      if s.st.stack[|s.st.stack| - 1].i != 0 {
        EraseBody(w, m, an, x, i.thn, pos + 1, fuel, s1);
        ExitErased(ExecCode(w, m, i.thn, fuel, s1.st), MBody(w, m, an, x, i.thn, pos + 1, fuel, s1), s1,
            i.results, rest);
      } else if i.els.HasElse? {
        var p := pos + 2 + Size(i.thn);
        EraseBody(w, m, an, x, i.els.code, p, fuel, s1);
        ExitErased(ExecCode(w, m, i.els.code, fuel, s1.st), MBody(w, m, an, x, i.els.code, p, fuel, s1), s1,
            i.results, rest);
      } else {
        ExitErased(Next(s1.st), Next(s1), s1, i.results, rest);
      }
    }
  }

  lemma EraseCallInstr(w: World, m: Module, an: seq<Analysis>, x: Context, i: Instr, pos: nat, fuel: nat, s: MState)
    requires FitsModule(m, an) && s.frames != [] && (i.Call? || i.CallIndirect?)
    ensures Erased(ExecInstr(w, m, i, fuel, s.st), MInstr(w, m, an, x, i, pos, fuel, s), s)
    decreases fuel, 1, i, 0
  {
    hide ExecCall, MCall, Sum, FitsAnalysis;
    if i.Call? {
      if i.f < |m.index| { EraseCall(w, m, an, m.index[i.f], fuel, s); }
    } else {
      var callee := Resolve(w, m, i.ty, s.st);
      if callee.Some? { EraseCall(w, m, an, Fn(callee.value), fuel, OnStack(s, Pop(s.st).stack)); }
    }
  }

  lemma EraseHost(w: World, m: Module, f: Func, s: MState)
    requires m.gas.None? && f.Host?
    ensures ErasedCall(RunHost(w, m, f, s.st), MHost(w, m, f, s), s)
  {
    var args := Top(s.st.stack, f.params);
    if args.Some? {
      var cost := HOST_CALL_BASE_GAS + w.hostCost(f.h, args.value, s.st.mem);
      SumAppend(s.paid, cost);
      hide Sum;
    }
  }

  lemma {:induction false} EraseCall(w: World, m: Module, an: seq<Analysis>, a: Addr, fuel: nat, s: MState)
    requires FitsModule(m, an)
    requires a.Fn?
    ensures ErasedCall(ExecCall(w, m, a, fuel, s.st), MCall(w, m, an, a, fuel, s), s)
    decreases fuel, 0, Nil, 0
  {
    hide ExecCode, MBody, PayPoint, RunHost, MHost, Sum, FitsAnalysis;
    if a.n < |m.funcs| {
      var f := m.funcs[a.n];
      if f.Host? {
        EraseHost(w, m, f, s);
      } else if Top(s.st.stack, f.params).Some? && fuel > 0 {
        EraseGuest(w, m, an, a.n, fuel, s);
      }
    }
  }

  lemma EraseWrapped(w: World, m: Module, an: seq<Analysis>, x: Context, entryFee: u64,
      body: Code, fuel: nat, s: MState)
    requires FitsModule(m, an) && Fitting(x) && FitsCode(x.points, body, 0) && ConstantAt(x.points, Size(body))
    ensures var (o, r) := (ExecCode(w, m, body, fuel, s.st), MWrapped(w, m, an, x, entryFee, body, fuel, s));
            Follows(o, r) && Accounted(s, r) && Kept(s.frames + [x.charge as nat], r)
    decreases fuel, 2
  {
    hide ExecCode, MBody, PayPoint, FitsCode, ConstantAt, FitsModule, Sum, Size;
    LogGrowsCode(w, m, body, fuel, s.st);
    var fee := Point(0, Fee(0, entryFee), OtherKind);
    var s1 := s.(frames := s.frames + [x.charge as nat]);
    if Budget(s) >= x.charge as int {
      PointPaid(s1, fee);
      var o := PayPoint(s1, fee);
      if o.Next? { EraseBody(w, m, an, x, body, 0, fuel, o.st); }
    }
  }

  lemma EraseGuest(w: World, m: Module, an: seq<Analysis>, n: nat, fuel: nat, s: MState)
    requires FitsModule(m, an) && n < |m.funcs| && m.funcs[n].Guest? && fuel > 0
    requires Top(s.st.stack, m.funcs[n].params).Some?
    ensures ErasedCall(ExecCall(w, m, Fn(n), fuel, s.st), MCall(w, m, an, Fn(n), fuel, s), s)
    decreases fuel - 1, 4
  {
    hide ExecCode, ExecCall, MCall, MWrapped, FitsCode, ConstantAt, Sum, Size, EntryFee, StackCharge, EnterFrame,
         LeaveFrame;
    var f := m.funcs[n];
    var x, fee := ContextOf(f, an[n], |s.st.globals|), EntryFee(an[n]);
    var s0 := s.(st := EnterFrame(f, s.st));
    assert FitsAnalysis(an[n], f.body);
    EraseWrapped(w, m, an, x, fee, f.body, fuel - 1, s0);
    CallUnfold(w, m, n, fuel, s.st);
    MCallUnfold(w, m, an, n, fuel, s);
    var o, r := ExecCode(w, m, f.body, fuel - 1, s0.st), MWrapped(w, m, an, x, fee, f.body, fuel - 1, s0);
    var fs := s.frames + [x.charge as nat];
    assert fs[..|fs| - 1] == s.frames;
    if Spent(r) {
      FinishTracked(w, m, f, fuel, s.st, o);
    } else if r.Tail? {
      if Top(r.st.st.stack, Params(m, r.callee)).Some? {
        var s2 := r.st.(st := ReplaceFrame(f, s.st, r.st.st, Top(r.st.st.stack, Params(m, r.callee)).value));
        EraseCall(w, m, an, r.callee, fuel - 1, s2);
      }
    } else {
      EraseLeave(f, s, r, o);
    }
  }

  /** Leaving the frame without a tail call. */
  lemma EraseLeave(f: Func, s: MState, r: Outcome<MState>, o: Outcome<State>)
    requires f.Guest? && !r.Tail? && !Spent(r) && Follows(o, r)
    ensures r.Next? || r.Ret? ==>
      var s' := if r.Next? then Release(r.st) else r.st;
      var (p, q) := (LeaveFrame(f, s.st, o.st), MLeaveFrame(f, s.st, s'));
      Follows(p, q) && !Spent(q) && (q.Next? || q.Trap?) && Total(q.st) == Total(r.st) && q.st.frames == s'.frames
    ensures r.Jump? && r.depth == 0 && Top(r.st.st.stack, f.results).Some? ==>
      var (p, q) := (LeaveFrame(f, s.st, o.st), MLeaveFrame(f, s.st, Release(r.st)));
      Follows(p, q) && !Spent(q) && q.Next? && Total(q.st) == Total(r.st) && q.st.frames == Release(r.st).frames
    ensures r.Jump? && r.depth == 0 && Top(r.st.st.stack, f.results).None? ==>
      LeaveFrame(f, s.st, o.st) == Trap(Stuck, o.st)
  {
    hide Sum;
  }
}
