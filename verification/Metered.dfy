/** The metered reference semantics: the original code, run with gas and a stack budget accounted
    beside it. Fees are paid where the analysis places them; each live frame holds its charge. */
module Metered {
  import opened Words
  import opened Wasm
  import opened Instrument

  /** A run in progress: the original program's state, the gas left, the charges of the live frames,
      the fees paid so far, and the gas and live charges observed at each logged event. */
  datatype MState = MState(st: State, gas: u64, frames: seq<nat>, paid: seq<nat>, readings: seq<(u64, seq<nat>)>)

  function Sum(s: seq<nat>): nat
  {
    if s == [] then 0 else Sum(s[..|s| - 1]) + s[|s| - 1]
  }

  /** What is left of the stack height for further frames. */
  function Budget(s: MState): int { MAX_STACK_HEIGHT - Sum(s.frames) }

  /** Replaces the program state, observing gas and live charges when an event was logged. */
  function With(s: MState, st: State): MState
  {
    s.(st := st,
       readings := if |st.log| == |s.st.log| then s.readings else s.readings + [(s.gas, s.frames)])
  }

  function Lift(s: MState, o: Outcome<State>): Outcome<MState>
  {
    match o
    case Next(t) => Next(With(s, t))
    case Jump(d, t) => Jump(d, With(s, t))
    case Ret(t) => Ret(With(s, t))
    case Tail(a, t) => Tail(a, With(s, t))
    case Trap(y, t) => Trap(y, With(s, t))
    case Timeout(t) => Timeout(With(s, t))
  }

  // ----- Charging -----

  /** The trap of a hook, whose call is itself charged the base cost of a host call. */
  function Exhausted(s: MState, hook: Hook): Outcome<MState>
  {
    match ChargeGas(s.gas, HOST_CALL_BASE_GAS)
    case None => Trap(PrepaidGas, s)
    case Some(g) => Trap(if hook.StackExhausted? then StackOverflow else PrepaidGas, s.(gas := g))
  }

  function PayConstant(s: MState, c: u64): Outcome<MState>
  {
    if s.gas < c then Exhausted(s, GasReport) else Next(s.(gas := s.gas - c, paid := s.paid + [c as nat]))
  }

  function PayLinear(s: MState, fee: Fee): Outcome<MState>
  {
    if !TopIsI32(s.st.stack) then Trap(Stuck, s)
    else
      var k := s.st.stack[|s.st.stack| - 1].i;
      var amount := LinearAmount(fee, k);
      if amount > s.gas then Exhausted(s, GasReport)
      else Next(s.(gas := s.gas - amount, paid := s.paid + [k as int * fee.linear as int + fee.constant as int]))
  }

  function PayPoint(s: MState, p: Point): Outcome<MState>
  {
    if p.kind.UnreachableKind? || (p.fee.linear == 0 && p.fee.constant == 0) then Next(s)
    else if p.fee.linear == 0 then PayConstant(s, p.fee.constant)
    else PayLinear(s, p.fee)
  }

  function PayPoints(s: MState, ps: seq<Point>): Outcome<MState>
    decreases |ps|
  {
    if ps == [] then Next(s)
    else
      var o := PayPoint(s, ps[0]);
      if o.Next? then PayPoints(o.st, ps[1..]) else o
  }

  function Pay(x: Context, pos: nat, s: MState): Outcome<MState>
  {
    PayPoints(s, At(x.points, pos))
  }

  /** Releases the charge of the innermost frame. */
  function Release(s: MState): MState
  {
    if s.frames == [] then s else s.(frames := s.frames[..|s.frames| - 1])
  }

  // ----- Control -----

  function MExitBlock(o: Outcome<MState>, arity: nat, below: seq<Value>): Outcome<MState>
  {
    match o
    case Next(s) => Next(s.(st := s.st.(stack := below + s.st.stack)))
    case Jump(d, s) =>
      if d > 0 then Jump(d - 1, s)
      else if Top(s.st.stack, arity).None? then Trap(Stuck, s)
      else Next(s.(st := s.st.(stack := below + Top(s.st.stack, arity).value)))
    case _ => o
  }

  function MLeaveFrame(f: Func, caller: State, s: MState): Outcome<MState>
    requires f.Guest?
  {
    Lift(s, LeaveFrame(f, caller, s.st))
  }

  function MHost(w: World, m: Module, f: Func, s: MState): Outcome<MState>
    requires f.Host?
  {
    var args := Top(s.st.stack, f.params);
    if args.None? then Trap(Stuck, s)
    else
      var cost := HOST_CALL_BASE_GAS + w.hostCost(f.h, args.value, s.st.mem);
      match ChargeGas(s.gas, cost)
      case None => Trap(PrepaidGas, s)
      case Some(g) => var s' := s.(gas := g, paid := s.paid + [cost]); Lift(s', RunHost(w, m, f, s'.st))
  }

  function OnStack(s: MState, stack: seq<Value>): MState
  {
    s.(st := s.st.(stack := stack))
  }

  // ----- The interpreter -----

  function MCode(w: World, m: Module, an: seq<Analysis>, x: Context, c: Code, pos: nat, fuel: nat,
      s: MState): Outcome<MState>
    decreases fuel, 1, c, 0
  {
    if c.Nil? then Next(s)
    else
      var o := Pay(x, pos, s);
      if !o.Next? then o
      else
        var o' := MInstr(w, m, an, x, c.head, pos, fuel, o.st);
        if o'.Next? then MCode(w, m, an, x, c.tail, pos + InstrSize(c.head), fuel, o'.st) else o'
  }

  /** A body: its code, then the fees of its closing operator. */
  function MBody(w: World, m: Module, an: seq<Analysis>, x: Context, c: Code, pos: nat, fuel: nat,
      s: MState): Outcome<MState>
    decreases fuel, 1, c, 1
  {
    var o := MCode(w, m, an, x, c, pos, fuel, s);
    if o.Next? then Pay(x, pos + Size(c), o.st) else o
  }

  function MInstr(w: World, m: Module, an: seq<Analysis>, x: Context, i: Instr, pos: nat, fuel: nat,
      s: MState): Outcome<MState>
    decreases fuel, 1, i, 0
  {
    var st := s.st;
    match i
    case Block(p, r, body) =>
      if |st.stack| < p then Trap(Stuck, s)
      else MExitBlock(
             MBody(w, m, an, x, body, pos + 1, fuel, OnStack(s, Top(st.stack, p).value)), r, Below(st.stack, p))
    case Loop(p, r, body) =>
      if |st.stack| < p then Trap(Stuck, s)
      else
        var o := MBody(w, m, an, x, body, pos + 1, fuel, OnStack(s, Top(st.stack, p).value));
        if o.Jump? && o.depth == 0 then
          if |o.st.st.stack| < p then Trap(Stuck, o.st)
          else if fuel == 0 then Timeout(o.st)
          else MInstr(w, m, an, x, i, pos, fuel - 1, OnStack(o.st, Below(st.stack, p) + Top(o.st.st.stack, p).value))
        else MExitBlock(o, r, Below(st.stack, p))
    case If(p, r, thn, els) =>
      if !TopIsI32(st.stack) || |st.stack| < p + 1 then Trap(Stuck, s)
      else
        var below := Pop(st).stack;
        var s' := OnStack(s, Top(below, p).value);
        var o := if st.stack[|st.stack| - 1].i != 0 then MBody(w, m, an, x, thn, pos + 1, fuel, s')
                 else if els.HasElse? then MBody(w, m, an, x, els.code, pos + 2 + Size(thn), fuel, s')
                 else Next(s');
        MExitBlock(o, r, Below(below, p))
    case Br(_) => Lift(s, Branch(i, st))
    case BrIf(_) => Lift(s, Branch(i, st))
    case BrTable(_, _) => Lift(s, Branch(i, st))
    case Return => Ret(Release(s))
    case RefFunc(f) =>
      if f < |m.index| && m.index[f].Fn? then Next(OnStack(s, st.stack + [FuncRef(m.index[f].n)])) else Trap(Stuck, s)
    case Call(f) => if f < |m.index| then MCall(w, m, an, m.index[f], fuel, s) else Trap(Stuck, s)
    case CallIndirect(ty) =>
      var callee := Resolve(w, m, ty, st);
      if callee.None? then Trap(GuestTrap, s)
      else MCall(w, m, an, Fn(callee.value), fuel, OnStack(s, Pop(st).stack))
    case ReturnCall(f) => if f < |m.index| then Tail(m.index[f], Release(s)) else Trap(Stuck, Release(s))
    case ReturnCallIndirect(ty) =>
      var callee := Resolve(w, m, ty, st);
      if callee.None? then Trap(GuestTrap, Release(s))
      else Tail(Fn(callee.value), OnStack(Release(s), Pop(st).stack))
    case _ => Lift(s, Simple(w, i, st))
  }

  /** A call: refused when the budget is below the frame's charge, otherwise the charge is held
      until the frame falls through, branches out, returns or is replaced. */
  function MCall(w: World, m: Module, an: seq<Analysis>, a: Addr, fuel: nat, s: MState): Outcome<MState>
    decreases fuel, 0, Nil, 0
  {
    if a.HookFn? || a.n >= |m.funcs| || a.n >= |an| then Trap(Stuck, s)
    else
      var f := m.funcs[a.n];
      if f.Host? then MHost(w, m, f, s)
      else if Top(s.st.stack, f.params).None? then Trap(Stuck, s)
      else if fuel == 0 then Timeout(s)
      else
        var charge := StackCharge(an[a.n]);
        var s0 := s.(st := EnterFrame(f, s.st));
        if Budget(s0) < charge as int then Exhausted(s0, StackExhausted)
        else
          var o := PayPoint(s0.(frames := s0.frames + [charge as nat]), Point(0, Fee(0, EntryFee(an[a.n])), OtherKind));
          if !o.Next? then o
          else
            match MBody(w, m, an, ContextOf(f, an[a.n], |s.st.globals|), f.body, 0, fuel - 1, o.st)
            case Next(t) => MLeaveFrame(f, s.st, Release(t))
            case Jump(d, t) =>
              if d == 0 && Top(t.st.stack, f.results).Some? then MLeaveFrame(f, s.st, Release(t)) else Trap(Stuck, t)
            case Ret(t) => MLeaveFrame(f, s.st, t)
            case Tail(b, t) =>
              if Top(t.st.stack, Params(m, b)).None? then Trap(Stuck, t)
              else MCall(w, m, an, b, fuel - 1,
                     t.(st := ReplaceFrame(f, s.st, t.st, Top(t.st.stack, Params(m, b)).value)))
            case Trap(y, t) => Trap(y, t)
            case Timeout(t) => Timeout(t)
  }
}
