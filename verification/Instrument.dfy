/** The gas and stack pass on structured code: what is inserted where, and the shifted function index. */
module Instrument {
  import opened Words
  import opened Wasm
  import opened Wrappers

  const MAX_STACK_HEIGHT: nat := 262_144
  const REGULAR_OP_COST: nat := 822_756
  const LINEAR_OP_BASE_COST: nat := 26_328_192
  const LINEAR_OP_UNIT_COST: nat := 822_756

  /** Indices of the injected imports, and their number. */
  const GAS_EXHAUSTED_FN: nat := 0
  const STACK_EXHAUSTED_FN: nat := 1
  const GAS_INSTRUMENTATION_FN: nat := 2
  const F: nat := 3

  // ----- The analysis result -----

  datatype Fee = Fee(linear: u64, constant: u64)
  datatype Kind = AggregateKind | UnreachableKind | OtherKind

  /** A fee to be charged before the operator at a position of the flat operator stream. */
  datatype Point = Point(offset: nat, fee: Fee, kind: Kind)

  datatype Analysis = Analysis(points: seq<Point>, operandStack: u64, frame: u64)

  /** The points of one position, in order. */
  function At(points: seq<Point>, pos: nat): (r: seq<Point>)
    ensures forall p :: p in r ==> p in points && p.offset == pos
  {
    if points == [] then []
    else (if points[0].offset == pos then [points[0]] else []) + At(points[1..], pos)
  }

  /** `stack_sz.checked_add(frame_sz).unwrap_or(0)` */
  function StackCharge(a: Analysis): u64
  {
    if a.operandStack as int + a.frame as int < W then (a.operandStack as int + a.frame as int) as u64 else 0
  }

  /** The entry fee: one regular operation per eight bytes of frame, saturating. */
  function EntryFee(a: Analysis): u64
  {
    if a.frame as int + 7 >= W then (W - 1) as u64
    else
      var c := (a.frame as int + 7) / 8 * REGULAR_OP_COST;
      if c < W then c as u64 else (W - 1) as u64
  }

  // ----- Positions -----

  /** The number of flat operators of a piece of code, block ends included. */
  function Size(c: Code): nat
  {
    if c.Nil? then 0 else InstrSize(c.head) + Size(c.tail)
  }

  function InstrSize(i: Instr): (n: nat)
    ensures n > 0
  {
    match i
    case Block(_, _, b) => 2 + Size(b)
    case Loop(_, _, b) => 2 + Size(b)
    case If(_, _, t, NoElse) => 2 + Size(t)
    case If(_, _, t, HasElse(e)) => 3 + Size(t) + Size(e)
    case _ => 1
  }

  // ----- Inserted code -----

  /** Compares a global with an amount: on shortage runs `fail`, otherwise subtracts the amount. */
  function Guarded(x: nat, c: u64, fail: Code): Code
  {
    Cons(GlobalGet(x), Cons(I64Const(c), Cons(I64Bin(LtU),
      Cons(If(0, 0, fail,
              HasElse(Cons(GlobalGet(x), Cons(I64Const(c), Cons(I64Bin(Sub), Cons(GlobalSet(x), Nil)))))),
           Nil))))
  }

  function ConstantCharge(g: nat, c: u64): Code
  {
    Guarded(g, c, Cons(I64Const(c), Cons(Call(GAS_INSTRUMENTATION_FN), Cons(Unreachable, Nil))))
  }

  /** Charges constant + length * linear, keeping the length operand on the stack. */
  function LinearCharge(g: nat, l: nat, fee: Fee): Code
  {
    Cons(LocalTee(l + 1), Cons(I64ExtendI32U, Cons(I64Const(fee.linear), Cons(I64Bin(Mul),
      Cons(I64Const(fee.constant), Cons(I64Bin(Add), Cons(LocalTee(l), LinearTail(g, l))))))))
  }

  /** The amount of a linear fee, as the emitted 64-bit arithmetic computes it. */
  function LinearAmount(fee: Fee, k: u32): u64
  {
    ((k as int * fee.linear as int % W + fee.constant as int) % W) as u64
  }

  function LinearTail(g: nat, l: nat): Code
  {
    Cons(GlobalGet(g), Cons(I64Bin(GtU),
      Cons(If(0, 0, Cons(LocalGet(l), Cons(Call(GAS_INSTRUMENTATION_FN), Cons(Unreachable, Nil))),
              HasElse(Cons(GlobalGet(g), Cons(LocalGet(l), Cons(I64Bin(Sub), Cons(GlobalSet(g), Nil)))))),
      Cons(LocalGet(l + 1), Nil))))
  }

  /** `call_gas_instrumentation` for one point; unreachable points and zero fees emit nothing. */
  function PointCode(g: nat, l: nat, p: Point): Code
  {
    if p.kind.UnreachableKind? || (p.fee.linear == 0 && p.fee.constant == 0) then Nil
    else if p.fee.linear == 0 then ConstantCharge(g, p.fee.constant)
    else LinearCharge(g, l, p.fee)
  }

  function PointsCode(g: nat, l: nat, ps: seq<Point>): Code
  {
    if ps == [] then Nil else Append(PointCode(g, l, ps[0]), PointsCode(g, l, ps[1..]))
  }

  function Reserve(g: nat, charge: u64): Code
  {
    Guarded(g + 1, charge, Cons(Call(STACK_EXHAUSTED_FN), Cons(Unreachable, Nil)))
  }

  function Unstack(g: nat, charge: u64): Code
  {
    Cons(GlobalGet(g + 1), Cons(I64Const(charge), Cons(I64Bin(Add), Cons(GlobalSet(g + 1), Nil))))
  }

  // ----- The pass -----

  /** What the pass knows while it walks one function: the number of globals and of locals of the
      original, the stack charge, and the analysis points. */
  datatype Context = Context(globals: nat, locals: nat, charge: u64, points: seq<Point>)

  function Charges(x: Context, pos: nat): Code
  {
    PointsCode(x.globals, x.locals, At(x.points, pos))
  }

  function TCode(x: Context, c: Code, pos: nat): Code
    decreases c, 0
  {
    if c.Nil? then Nil
    else Append(Charges(x, pos), Append(TInstr(x, c.head, pos), TCode(x, c.tail, pos + InstrSize(c.head))))
  }

  /** A body up to its closing operator, whose own charges come last. */
  function TBody(x: Context, c: Code, pos: nat): Code
    decreases c, 1
  {
    Append(TCode(x, c, pos), Charges(x, pos + Size(c)))
  }

  function TInstr(x: Context, i: Instr, pos: nat): Code
    decreases i, 0
  {
    match i
    case Block(p, r, b) => Cons(Block(p, r, TBody(x, b, pos + 1)), Nil)
    case Loop(p, r, b) => Cons(Loop(p, r, TBody(x, b, pos + 1)), Nil)
    case If(p, r, t, NoElse) => Cons(If(p, r, TBody(x, t, pos + 1), NoElse), Nil)
    case If(p, r, t, HasElse(e)) =>
      Cons(If(p, r, TBody(x, t, pos + 1), HasElse(TBody(x, e, pos + 2 + Size(t)))), Nil)
    case RefFunc(f) => Cons(RefFunc(f + F), Nil)
    case Call(f) => Cons(Call(f + F), Nil)
    case ReturnCall(f) => Append(Unstack(x.globals, x.charge), Cons(ReturnCall(f + F), Nil))
    case ReturnCallIndirect(ty) => Append(Unstack(x.globals, x.charge), Cons(i, Nil))
    case Return => Append(Unstack(x.globals, x.charge), Cons(i, Nil))
    case _ => Cons(i, Nil)
  }

  /** The body of an instrumented function: the original one wrapped in a block, behind the stack
      reservation and the entry fee, with the release after the block. */
  function TFunctionBody(x: Context, results: nat, entryFee: u64, body: Code): Code
  {
    Cons(Block(0, results,
               Append(Reserve(x.globals, x.charge),
                      Append(PointCode(x.globals, x.locals, Point(0, Fee(0, entryFee), OtherKind)),
                          TBody(x, body, 0)))),
         Unstack(x.globals, x.charge))
  }

  function ContextOf(f: Func, a: Analysis, globals: nat): Context
    requires f.Guest?
  {
    Context(globals, f.params + |f.locals|, StackCharge(a), a.points)
  }

  function TFunc(f: Func, a: Analysis, globals: nat): Func
  {
    match f
    case Host(_, _, _, _) => f
    case Guest(ty, p, r, ls, b) =>
      Guest(ty, p, r, ls + [I64(0), I32(0)], TFunctionBody(ContextOf(f, a, globals), r, EntryFee(a), b))
  }

  const HOOKS: seq<Addr> := [HookFn(GasExhausted), HookFn(StackExhausted), HookFn(GasReport)]

  /** The instrumented module: three hooks in front of the function index space, two globals behind
      the original ones. */
  function TModule(m: Module, analyses: seq<Analysis>, globals: nat): Module
    requires |analyses| == |m.funcs|
  {
    Module(HOOKS + m.index,
           seq(|m.funcs|, n requires 0 <= n < |m.funcs| => TFunc(m.funcs[n], analyses[n], globals)),
           Some(globals))
  }

  /** Every call through the shifted index reaches the same function. */
  lemma ShiftedIndex(m: Module, analyses: seq<Analysis>, globals: nat, f: nat)
    requires |analyses| == |m.funcs|
    ensures var m' := TModule(m, analyses, globals);
            && (f < |m.index| <==> f + F < |m'.index|)
            && (f < |m.index| ==> m'.index[f + F] == m.index[f])
            && m'.index[GAS_EXHAUSTED_FN] == HookFn(GasExhausted)
            && m'.index[STACK_EXHAUSTED_FN] == HookFn(StackExhausted)
            && m'.index[GAS_INSTRUMENTATION_FN] == HookFn(GasReport)
  {
  }
}
