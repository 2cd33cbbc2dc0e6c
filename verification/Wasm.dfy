/** A structured wasm-like language with a fuelled interpreter (section 4.4 of the WebAssembly Core
    Specification): blocks, loops, branches, returns, calls, indirect calls and tail calls. Every
    other operator is `Plain` or `Bulk`: an arbitrary function of the operand stack and the memory. */
module Wasm {
  import opened Words
  import opened Wrappers

  datatype Value = I32(i: u32) | I64(n: u64) | FuncRef(addr: nat)

  type Mem = map<nat, nat>

  datatype Binop = Add | Sub | Mul | LtU | GtU

  datatype Code = Nil | Cons(head: Instr, tail: Code)

  datatype Else = NoElse | HasElse(code: Code)

  datatype Instr =
    | Plain(op: nat)
    | Bulk(op: nat)                 // memory/table fill, copy, init, grow: a 32-bit length on top
    | I64Const(n: u64)
    | LocalGet(x: nat) | LocalSet(x: nat) | LocalTee(x: nat)
    | GlobalGet(x: nat) | GlobalSet(x: nat)
    | I64Bin(bin: Binop)
    | I64ExtendI32U
    | Drop
    | Unreachable
    | RefFunc(f: nat)
    | Block(params: nat, results: nat, body: Code)
    | Loop(params: nat, results: nat, body: Code)
    | If(params: nat, results: nat, thn: Code, els: Else)
    | Br(depth: nat) | BrIf(depth: nat) | BrTable(depths: seq<nat>, depth: nat)
    | Return
    | Call(f: nat) | CallIndirect(ty: nat)
    | ReturnCall(f: nat) | ReturnCallIndirect(ty: nat)

  // ----- Modules -----

  datatype Hook = GasExhausted | StackExhausted | GasReport

  /** What a function index denotes: a function of the module, or one of the injected hooks. */
  datatype Addr = Fn(n: nat) | HookFn(hook: Hook)

  datatype Func =
    | Host(ty: nat, params: nat, results: nat, h: nat)
    | Guest(ty: nat, params: nat, results: nat, locals: seq<Value>, body: Code)

  /** `index` is the function index space; `gas` is the index of the remaining-gas global of an
      instrumented module, which host functions charge. */
  datatype Module = Module(index: seq<Addr>, funcs: seq<Func>, gas: Option<nat>)

  datatype PrimResult = PrimTrap | PrimOk(stack: seq<Value>, mem: Mem)
  datatype HostResult = HostTrap | HostOk(results: seq<Value>, mem: Mem)

  /** The meaning of the operators and host functions the pass does not look into. A host function
      has a gas cost besides the base cost of the call itself. */
  datatype World = World(
    prim: (nat, seq<Value>, Mem) -> PrimResult,
    hostCost: (nat, seq<Value>, Mem) -> nat,
    host: (nat, seq<Value>, Mem) -> HostResult,
    table: (u32, Mem) -> Option<nat>)

  // ----- States and outcomes -----

  /** One entry per operator or host call that may touch the memory: the memory and the globals after it. */
  datatype Event = Event(mem: Mem, globals: seq<Value>)

  datatype State = State(stack: seq<Value>, locals: seq<Value>, globals: seq<Value>, mem: Mem, log: seq<Event>)

  datatype Why = GuestTrap | Stuck | PrepaidGas | StackOverflow

  datatype Outcome<S> =
    | Next(st: S)
    | Jump(depth: nat, st: S)
    | Ret(st: S)
    | Tail(callee: Addr, st: S)
    | Trap(why: Why, st: S)
    | Timeout(st: S)

  const HOST_CALL_BASE_GAS: nat := 264_768_111

  // ----- Stacks -----

  /** The top k operands. */
  function Top(s: seq<Value>, k: nat): (r: Option<seq<Value>>)
    ensures r.Some? ==> |r.value| == k
  {
    if |s| < k then None else Some(s[|s| - k..])
  }

  function Below(s: seq<Value>, k: nat): seq<Value>
  {
    if |s| < k then [] else s[..|s| - k]
  }

  predicate TopIsI32(s: seq<Value>)
  {
    |s| > 0 && s[|s| - 1].I32?
  }

  function Apply64(b: Binop, x: u64, y: u64): Value
  {
    match b
    case Add => I64(((x as int + y as int) % W) as u64)
    case Sub => I64(((x as int - y as int) % W) as u64)
    case Mul => I64(((x as int * y as int) % W) as u64)
    case LtU => I32(if x < y then 1 else 0)
    case GtU => I32(if x > y then 1 else 0)
  }

  // ----- Operators without control -----

  predicate IsSimple(i: Instr)
  {
    !i.Block? && !i.Loop? && !i.If? && !i.Br? && !i.BrIf? && !i.BrTable? && !i.Return? &&
    !i.Call? && !i.CallIndirect? && !i.ReturnCall? && !i.ReturnCallIndirect? && !i.RefFunc?
  }

  function RunPrim(w: World, op: nat, st: State): Outcome<State>
  {
    match w.prim(op, st.stack, st.mem)
    case PrimTrap => Trap(GuestTrap, st)
    case PrimOk(s, m) => Next(st.(stack := s, mem := m, log := st.log + [Event(m, st.globals)]))
  }

  function Simple(w: World, i: Instr, st: State): Outcome<State>
    requires IsSimple(i)
  {
    var s := st.stack;
    var n := |s|;
    match i
    case Plain(op) => RunPrim(w, op, st)
    case Bulk(op) => if TopIsI32(s) then RunPrim(w, op, st) else Trap(Stuck, st)
    case I64Const(k) => Next(st.(stack := s + [I64(k)]))
    case LocalGet(x) => if x < |st.locals| then Next(st.(stack := s + [st.locals[x]])) else Trap(Stuck, st)
    case LocalSet(x) =>
      if x < |st.locals| && n > 0 then Next(st.(stack := s[..n - 1], locals := st.locals[x := s[n - 1]]))
      else Trap(Stuck, st)
    case LocalTee(x) =>
      if x < |st.locals| && n > 0 then Next(st.(locals := st.locals[x := s[n - 1]])) else Trap(Stuck, st)
    case GlobalGet(x) => if x < |st.globals| then Next(st.(stack := s + [st.globals[x]])) else Trap(Stuck, st)
    case GlobalSet(x) =>
      if x < |st.globals| && n > 0 then Next(st.(stack := s[..n - 1], globals := st.globals[x := s[n - 1]]))
      else Trap(Stuck, st)
    case I64Bin(b) =>
      if n >= 2 && s[n - 1].I64? && s[n - 2].I64?
      then Next(st.(stack := s[..n - 2] + [Apply64(b, s[n - 2].n, s[n - 1].n)]))
      else Trap(Stuck, st)
    case I64ExtendI32U =>
      if TopIsI32(s) then Next(st.(stack := s[..n - 1] + [I64(s[n - 1].i as u64)])) else Trap(Stuck, st)
    case Drop => if n > 0 then Next(st.(stack := s[..n - 1])) else Trap(Stuck, st)
    case Unreachable => Trap(GuestTrap, st)
  }

  // ----- Hooks and host functions -----

  /** `charge_gas`: reads the gas global as a signed number, so values from 2^63 on read as zero. */
  function ChargeGas(gas: u64, amount: nat): (r: Option<u64>)
    ensures r.Some? && amount > 0 ==> r.value as int == gas as int - amount
  {
    var cur := if gas as int < 0x8000_0000_0000_0000 then gas as int else 0;
    if cur < amount then None else Some((cur - amount) as u64)
  }

  /** Charges the gas global, when the module has one. */
  function ChargeGlobals(m: Module, globals: seq<Value>, amount: nat): Option<seq<Value>>
  {
    if m.gas.None? then Some(globals)
    else if m.gas.value < |globals| && globals[m.gas.value].I64? then
      var r := ChargeGas(globals[m.gas.value].n, amount);
      if r.None? then None else Some(globals[m.gas.value := I64(r.value)])
    else None
  }

  /** The injected hooks trap, after the base charge every host function makes. */
  function RunHook(m: Module, hook: Hook, st: State): Outcome<State>
  {
    match ChargeGlobals(m, st.globals, HOST_CALL_BASE_GAS)
    case None => Trap(PrepaidGas, st)
    case Some(g) => Trap(if hook.StackExhausted? then StackOverflow else PrepaidGas, st.(globals := g))
  }

  function RunHost(w: World, m: Module, f: Func, st: State): Outcome<State>
    requires f.Host?
  {
    var args := Top(st.stack, f.params);
    if args.None? then Trap(Stuck, st)
    else
      match ChargeGlobals(m, st.globals, HOST_CALL_BASE_GAS + w.hostCost(f.h, args.value, st.mem))
      case None => Trap(PrepaidGas, st)
      case Some(g) =>
        match w.host(f.h, args.value, st.mem)
        case HostTrap => Trap(GuestTrap, st.(globals := g))
        case HostOk(r, mem) =>
          Next(st.(stack := Below(st.stack, f.params) + r, globals := g, mem := mem, log := st.log + [Event(mem, g)]))
  }

  // ----- Labels -----

  /** Leaving a block: a branch to it keeps the top `arity` operands. */
  function ExitBlock(o: Outcome<State>, arity: nat, below: seq<Value>): Outcome<State>
  {
    match o
    case Next(s) => Next(s.(stack := below + s.stack))
    case Jump(l, s) =>
      if l > 0 then Jump(l - 1, s)
      else if Top(s.stack, arity).None? then Trap(Stuck, s)
      else Next(s.(stack := below + Top(s.stack, arity).value))
    case _ => o
  }

  /** Entering a function: its arguments become its first locals. */
  function EnterFrame(f: Func, st: State): State
    requires f.Guest? && Top(st.stack, f.params).Some?
  {
    st.(stack := [], locals := Top(st.stack, f.params).value + f.locals)
  }

  /** Leaving a function normally, by return or by a branch to its outermost label. */
  function LeaveFrame(f: Func, caller: State, s: State): Outcome<State>
    requires f.Guest?
  {
    if Top(s.stack, f.results).None? then Trap(Stuck, s)
    else Next(s.(stack := Below(caller.stack, f.params) + Top(s.stack, f.results).value, locals := caller.locals))
  }

  function Params(m: Module, a: Addr): nat
  {
    if a.HookFn? then (if a.hook.GasReport? then 1 else 0)
    else if a.n < |m.funcs| then m.funcs[a.n].params else 0
  }

  /** A tail call hands the callee's arguments over, on the caller's stack and locals. */
  function ReplaceFrame(f: Func, caller: State, s: State, args: seq<Value>): State
    requires f.Guest?
  {
    s.(stack := Below(caller.stack, f.params) + args, locals := caller.locals)
  }

  /** The callee of an indirect call: the table entry, when its type matches. */
  function Resolve(w: World, m: Module, ty: nat, st: State): Option<nat>
  {
    if !TopIsI32(st.stack) then None
    else
      match w.table(st.stack[|st.stack| - 1].i, st.mem)
      case None => None
      case Some(n) => if n < |m.funcs| && m.funcs[n].ty == ty then Some(n) else None
  }

  function Pop(st: State): State
    requires |st.stack| > 0
  {
    st.(stack := st.stack[..|st.stack| - 1])
  }

  function Target(labels: seq<nat>, default: nat, k: u32): nat
  {
    if k as int < |labels| then labels[k as int] else default
  }

  function Branch(i: Instr, st: State): Outcome<State>
    requires i.Br? || i.BrIf? || i.BrTable?
  {
    match i
    case Br(l) => Jump(l, st)
    case BrIf(l) =>
      if !TopIsI32(st.stack) then Trap(Stuck, st)
      else if st.stack[|st.stack| - 1].i != 0 then Jump(l, Pop(st))
      else Next(Pop(st))
    case BrTable(ls, l) =>
      if !TopIsI32(st.stack) then Trap(Stuck, st)
      else Jump(Target(ls, l, st.stack[|st.stack| - 1].i), Pop(st))
  }

  // ----- The interpreter -----

  /** Runs a code sequence. Fuel bounds the calls and loop iterations on any path. */
  function ExecCode(w: World, m: Module, c: Code, fuel: nat, st: State): Outcome<State>
    decreases fuel, 1, c
  {
    if c.Nil? then Next(st)
    else
      var o := ExecInstr(w, m, c.head, fuel, st);
      if o.Next? then ExecCode(w, m, c.tail, fuel, o.st) else o
  }

  function ExecInstr(w: World, m: Module, i: Instr, fuel: nat, st: State): Outcome<State>
    decreases fuel, 1, i
  {
    match i
    case Block(p, r, body) =>
      if |st.stack| < p then Trap(Stuck, st)
      else ExitBlock(ExecCode(w, m, body, fuel, st.(stack := Top(st.stack, p).value)), r, Below(st.stack, p))
    case Loop(p, r, body) =>
      if |st.stack| < p then Trap(Stuck, st)
      else
        var o := ExecCode(w, m, body, fuel, st.(stack := Top(st.stack, p).value));
        if o.Jump? && o.depth == 0 then
          if |o.st.stack| < p then Trap(Stuck, o.st)
          else if fuel == 0 then Timeout(o.st)
          else ExecInstr(w, m, i, fuel - 1, o.st.(stack := Below(st.stack, p) + Top(o.st.stack, p).value))
        else ExitBlock(o, r, Below(st.stack, p))
    case If(p, r, thn, els) =>
      if !TopIsI32(st.stack) || |st.stack| < p + 1 then Trap(Stuck, st)
      else
        var s := Pop(st);
        var s' := s.(stack := Top(s.stack, p).value);
        var o := if st.stack[|st.stack| - 1].i != 0 then ExecCode(w, m, thn, fuel, s')
                 else if els.HasElse? then ExecCode(w, m, els.code, fuel, s')
                 else Next(s');
        ExitBlock(o, r, Below(s.stack, p))
    case Br(_) => Branch(i, st)
    case BrIf(_) => Branch(i, st)
    case BrTable(_, _) => Branch(i, st)
    case Return => Ret(st)
    case RefFunc(f) =>
      if f < |m.index| && m.index[f].Fn?
      then Next(st.(stack := st.stack + [FuncRef(m.index[f].n)]))
      else Trap(Stuck, st)
    case Call(f) => if f < |m.index| then ExecCall(w, m, m.index[f], fuel, st) else Trap(Stuck, st)
    case CallIndirect(ty) =>
      var callee := Resolve(w, m, ty, st);
      if callee.None? then Trap(GuestTrap, st)
      else ExecCall(w, m, Fn(callee.value), fuel, Pop(st))
    case ReturnCall(f) => if f < |m.index| then Tail(m.index[f], st) else Trap(Stuck, st)
    case ReturnCallIndirect(ty) =>
      var callee := Resolve(w, m, ty, st);
      if callee.None? then Trap(GuestTrap, st) else Tail(Fn(callee.value), Pop(st))
    case _ => Simple(w, i, st)
  }

  /** Calls a function; the outcome is `Next`, `Trap` or `Timeout`. */
  function ExecCall(w: World, m: Module, a: Addr, fuel: nat, st: State): Outcome<State>
    decreases fuel, 0, Nil
  {
    if a.HookFn? then RunHook(m, a.hook, st)
    else if a.n >= |m.funcs| then Trap(Stuck, st)
    else
      var f := m.funcs[a.n];
      if f.Host? then RunHost(w, m, f, st)
      else if Top(st.stack, f.params).None? then Trap(Stuck, st)
      else if fuel == 0 then Timeout(st)
      else
        match ExecCode(w, m, f.body, fuel - 1, EnterFrame(f, st))
        case Next(s) => LeaveFrame(f, st, s)
        case Ret(s) => LeaveFrame(f, st, s)
        case Jump(l, s) => if l == 0 then LeaveFrame(f, st, s) else Trap(Stuck, s)
        case Tail(b, s) =>
          if Top(s.stack, Params(m, b)).None? then Trap(Stuck, s)
          else ExecCall(w, m, b, fuel - 1, ReplaceFrame(f, st, s, Top(s.stack, Params(m, b)).value))
        case Trap(y, s) => Trap(y, s)
        case Timeout(s) => Timeout(s)
  }

  // ----- Sequencing -----

  function Append(a: Code, b: Code): Code
  {
    if a.Nil? then b else Cons(a.head, Append(a.tail, b))
  }

  /** Running a concatenation is running its parts in order. */
  lemma {:induction false} ExecAppend(w: World, m: Module, a: Code, b: Code, fuel: nat, st: State)
    ensures ExecCode(w, m, Append(a, b), fuel, st) ==
            var o := ExecCode(w, m, a, fuel, st);
            if o.Next? then ExecCode(w, m, b, fuel, o.st) else o
    decreases a
  {
    if a.Cons? {
      var o := ExecInstr(w, m, a.head, fuel, st);
      if o.Next? { ExecAppend(w, m, a.tail, b, fuel, o.st); }
    }
  }
}
