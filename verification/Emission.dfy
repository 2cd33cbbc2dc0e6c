/** Flat operator streams: what the loop over a function's operators emits, and the structured code it spells. */
module Emission {
  import opened Words
  import opened Wasm
  import opened Wrappers
  import opened Instrument

  // ----- Flat operators -----

  datatype Op =
    | OpBlock(params: nat, results: nat)
    | OpLoop(params: nat, results: nat)
    | OpIf(params: nat, results: nat)
    | OpElse
    | OpEnd
    | OpFlat(i: Instr)

  function Flatten(c: Code): (s: seq<Op>)
    ensures |s| == Size(c)
    decreases c, 0
  {
    if c.Nil? then [] else FlattenInstr(c.head) + Flatten(c.tail)
  }

  function FlattenInstr(i: Instr): (s: seq<Op>)
    ensures |s| == InstrSize(i)
    decreases i, 0
  {
    match i
    case Block(p, r, b) => [OpBlock(p, r)] + Flatten(b) + [OpEnd]
    case Loop(p, r, b) => [OpLoop(p, r)] + Flatten(b) + [OpEnd]
    case If(p, r, t, NoElse) => [OpIf(p, r)] + Flatten(t) + [OpEnd]
    case If(p, r, t, HasElse(e)) => [OpIf(p, r)] + Flatten(t) + [OpElse] + Flatten(e) + [OpEnd]
    case _ => [OpFlat(i)]
  }

  lemma {:induction false} FlattenAppend(a: Code, b: Code)
    ensures Flatten(Append(a, b)) == Flatten(a) + Flatten(b)
  {
    if a.Cons? { FlattenAppend(a.tail, b); }
  }

  /** What one operator becomes, apart from the charges before it. */
  function EmitOp(x: Context, op: Op): seq<Op>
  {
    if op.OpFlat? then
      match op.i
      case RefFunc(f) => [OpFlat(RefFunc(f + F))]
      case Call(f) => [OpFlat(Call(f + F))]
      case ReturnCall(f) => Flatten(Unstack(x.globals, x.charge)) + [OpFlat(ReturnCall(f + F))]
      case ReturnCallIndirect(_) => Flatten(Unstack(x.globals, x.charge)) + [op]
      case Return => Flatten(Unstack(x.globals, x.charge)) + [op]
      case _ => [op]
    else [op]
  }

  /** The emission of a stretch of operators that starts at position pos. */
  function Emit(x: Context, ops: seq<Op>, pos: nat): seq<Op>
    decreases |ops|
  {
    if ops == [] then []
    else Flatten(Charges(x, pos)) + EmitOp(x, ops[0]) + Emit(x, ops[1..], pos + 1)
  }

  lemma {:induction false} EmitConcat(x: Context, a: seq<Op>, b: seq<Op>, pos: nat)
    ensures Emit(x, a + b, pos) == Emit(x, a, pos) + Emit(x, b, pos + |a|)
    decreases |a|
  {
    hide EmitOp, Charges, Flatten;
    if a == [] {
      assert a + b == b;
    } else {
      EmitConcat(x, a[1..], b, pos + 1);
      assert (a + b)[1..] == a[1..] + b;
    }
  }

  lemma EmitOne(x: Context, op: Op, pos: nat)
    ensures Emit(x, [op], pos) == Flatten(Charges(x, pos)) + EmitOp(x, op)
  {
    hide EmitOp, Charges;
    assert [op][1..] == [];
    assert Emit(x, [], pos + 1) == [];
  }

  /** The operator-by-operator emission is the structured transformation, written out flat. */
  lemma {:induction false} EmitIsTransform(x: Context, c: Code, pos: nat)
    ensures Emit(x, Flatten(c), pos) == Flatten(TCode(x, c, pos))
    decreases c, 1
  {
    hide *;
    if c.Nil? {
      NothingToEmit(x, pos);
    } else {
      var i, rest := TInstr(x, c.head, pos), TCode(x, c.tail, pos + InstrSize(c.head));
      ConsUnfold(x, c, pos);
      Regroup(Flatten(Charges(x, pos)), Flatten(i), Flatten(rest));
      EmitConcat(x, FlattenInstr(c.head), Flatten(c.tail), pos);
      EmitInstr(x, c.head, pos);
      EmitIsTransform(x, c.tail, pos + InstrSize(c.head));
      FlattenAppend(Charges(x, pos), Append(i, rest));
      FlattenAppend(i, rest);
    }
  }

  lemma NothingToEmit(x: Context, pos: nat)
    ensures Emit(x, Flatten(Nil), pos) == Flatten(TCode(x, Nil, pos))
  {
  }

  lemma ConsUnfold(x: Context, c: Code, pos: nat)
    requires c.Cons?
    ensures Flatten(c) == FlattenInstr(c.head) + Flatten(c.tail)
    ensures TCode(x, c, pos) == Append(Charges(x, pos),
              Append(TInstr(x, c.head, pos), TCode(x, c.tail, pos + InstrSize(c.head))))
  {
    hide FlattenInstr, Charges, TInstr, Append;
  }

  /** A body and its closing operator. */
  lemma EmitBody(x: Context, c: Code, last: Op, pos: nat)
    requires EmitOp(x, last) == [last]
    ensures Emit(x, Flatten(c) + [last], pos) == Flatten(TBody(x, c, pos)) + [last]
    decreases c, 2
  {
    hide *;
    EmitConcat(x, Flatten(c), [last], pos);
    EmitIsTransform(x, c, pos);
    EmitOne(x, last, pos + Size(c));
    BodyUnfold(x, c, pos);
    FlattenAppend(TCode(x, c, pos), Charges(x, pos + Size(c)));
    Regroup(Flatten(TCode(x, c, pos)), Flatten(Charges(x, pos + Size(c))), [last]);
  }

  lemma Regroup(a: seq<Op>, b: seq<Op>, c: seq<Op>)
    ensures a + (b + c) == a + b + c
  {
  }

  lemma FlattenOne(i: Instr)
    ensures Flatten(Cons(i, Nil)) == FlattenInstr(i)
  {
    hide FlattenInstr;
    assert Flatten(Nil) == [];
  }

  lemma {:induction false} EmitInstr(x: Context, i: Instr, pos: nat)
    ensures Emit(x, FlattenInstr(i), pos) == Flatten(Charges(x, pos)) + Flatten(TInstr(x, i, pos))
    decreases i, 1
  {
    hide Charges, TBody, Emit, Flatten, EmitOp;
    match i {
      case Block(p, r, b) => EmitOpened(x, OpBlock(p, r), b, pos); FlattenOne(Block(p, r, TBody(x, b, pos + 1)));
      case Loop(p, r, b) => EmitOpened(x, OpLoop(p, r), b, pos); FlattenOne(Loop(p, r, TBody(x, b, pos + 1)));
      case If(p, r, t, NoElse) => EmitOpened(x, OpIf(p, r), t, pos); FlattenOne(If(p, r, TBody(x, t, pos + 1), NoElse));
      case If(p, r, t, HasElse(e)) => EmitIfElse(x, i, pos);
      case _ =>
        EmitOne(x, OpFlat(i), pos);
        EmitFlat(x, i, pos);
    }
  }

  lemma EmitIfElse(x: Context, i: Instr, pos: nat)
    requires i.If? && i.els.HasElse?
    ensures Emit(x, FlattenInstr(i), pos) == Flatten(Charges(x, pos)) + Flatten(TInstr(x, i, pos))
    decreases i, 0
  {
    hide Charges, TBody, Emit, Flatten;
    var (p, r, t, e) := (i.params, i.results, i.thn, i.els.code);
    var head, tail := [OpIf(p, r)] + Flatten(t) + [OpElse], Flatten(e) + [OpEnd];
    assert FlattenInstr(i) == head + tail;
    EmitConcat(x, head, tail, pos);
    EmitThen(x, OpIf(p, r), t, OpElse, pos);
    EmitBody(x, e, OpEnd, pos + 2 + Size(t));
    var i' := If(p, r, TBody(x, t, pos + 1), HasElse(TBody(x, e, pos + 2 + Size(t))));
    FlattenOne(i');
    IfElseShape(Flatten(Charges(x, pos)), OpIf(p, r), Flatten(TBody(x, t, pos + 1)),
        Flatten(TBody(x, e, pos + 2 + Size(t))));
  }

  lemma IfElseShape(charges: seq<Op>, open: Op, t: seq<Op>, e: seq<Op>)
    ensures charges + ([open] + t + [OpElse]) + (e + [OpEnd]) == charges + ([open] + t + [OpElse] + e + [OpEnd])
  {
  }

  lemma EmitFlat(x: Context, i: Instr, pos: nat)
    requires !i.Block? && !i.Loop? && !i.If?
    ensures EmitOp(x, OpFlat(i)) == Flatten(TInstr(x, i, pos))
  {
    hide Unstack;
    FlattenOne(i);
    if i.RefFunc? { FlattenOne(RefFunc(i.f + F)); }
    if i.Call? { FlattenOne(Call(i.f + F)); }
    if i.ReturnCall? {
      FlattenOne(ReturnCall(i.f + F));
      FlattenAppend(Unstack(x.globals, x.charge), Cons(ReturnCall(i.f + F), Nil));
    }
    FlattenAppend(Unstack(x.globals, x.charge), Cons(i, Nil));
  }

  lemma EmitThen(x: Context, open: Op, c: Code, close: Op, pos: nat)
    requires !open.OpFlat? && !close.OpFlat?
    ensures Emit(x, [open] + Flatten(c) + [close], pos) ==
            Flatten(Charges(x, pos)) + ([open] + Flatten(TBody(x, c, pos + 1)) + [close])
    decreases c, 3
  {
    hide Charges, TBody, Flatten, Emit;
    var body := Flatten(c) + [close];
    assert [open] + Flatten(c) + [close] == [open] + body;
    EmitConcat(x, [open], body, pos);
    EmitOne(x, open, pos);
    EmitBody(x, c, close, pos + 1);
    assert Flatten(Charges(x, pos)) + [open] + (Flatten(TBody(x, c, pos + 1)) + [close])
        == Flatten(Charges(x, pos)) + ([open] + Flatten(TBody(x, c, pos + 1)) + [close]);
  }

  lemma EmitOpened(x: Context, open: Op, c: Code, pos: nat)
    requires !open.OpFlat?
    ensures Emit(x, [open] + Flatten(c) + [OpEnd], pos) ==
            Flatten(Charges(x, pos)) + ([open] + Flatten(TBody(x, c, pos + 1)) + [OpEnd])
    decreases c, 4
  {
    EmitThen(x, open, c, OpEnd, pos);
  }

  /** The closing operator of a whole function: it closes the wrapping block, then the charge is
      released and the function itself is closed. */
  function EmitLast(x: Context): seq<Op>
  {
    [OpEnd] + Flatten(Unstack(x.globals, x.charge)) + [OpEnd]
  }

  /** What is emitted before the operators of the body. */
  function Prologue(x: Context, results: nat, entryFee: u64): seq<Op>
  {
    if x.charge > 0 then
      [OpBlock(0, results)] + Flatten(Reserve(x.globals, x.charge))
      + Flatten(PointCode(x.globals, x.locals, Point(0, Fee(0, entryFee), OtherKind)))
    else
      [OpFlat(Call(STACK_EXHAUSTED_FN)), OpFlat(Unreachable), OpEnd]
  }

  /** The whole emitted stream for a body without its closing operator. */
  function Emitted(x: Context, results: nat, entryFee: u64, body: seq<Op>): seq<Op>
  {
    Prologue(x, results, entryFee) + Emit(x, body, 0) + Flatten(Charges(x, |body|)) + EmitLast(x)
  }

  /** With a charge, the emitted stream is the structured function body of the pass. */
  lemma EmittedIsFunctionBody(x: Context, results: nat, entryFee: u64, c: Code)
    requires x.charge > 0
    ensures Emitted(x, results, entryFee, Flatten(c)) == Flatten(TFunctionBody(x, results, entryFee, c)) + [OpEnd]
  {
    hide Charges, TBody, Emit, Flatten, Reserve, PointCode, Unstack;
    var fee := PointCode(x.globals, x.locals, Point(0, Fee(0, entryFee), OtherKind));
    var (reserve, body, unstack) := (Reserve(x.globals, x.charge), TBody(x, c, 0), Unstack(x.globals, x.charge));
    var block := Block(0, results, Append(reserve, Append(fee, body)));
    EmitIsTransform(x, c, 0);
    FlattenAppend(TCode(x, c, 0), Charges(x, Size(c)));
    FlattenAppend(fee, body);
    FlattenAppend(reserve, Append(fee, body));
    BodyUnfold(x, c, 0);
    FlattenCons(block, unstack);
    EmittedShape([OpBlock(0, results)], Flatten(reserve), Flatten(fee), Flatten(TCode(x, c, 0)),
        Flatten(Charges(x, Size(c))), Flatten(unstack));
  }

  lemma BodyUnfold(x: Context, c: Code, pos: nat)
    ensures TBody(x, c, pos) == Append(TCode(x, c, pos), Charges(x, pos + Size(c)))
  {
  }

  lemma FlattenCons(i: Instr, c: Code)
    ensures Flatten(Cons(i, c)) == FlattenInstr(i) + Flatten(c)
  {
  }

  lemma EmittedShape(open: seq<Op>, reserve: seq<Op>, fee: seq<Op>, body: seq<Op>, last: seq<Op>, unstack: seq<Op>)
    ensures (open + reserve + fee) + body + last + ([OpEnd] + unstack + [OpEnd])
         == (open + (reserve + (fee + (body + last))) + [OpEnd]) + unstack + [OpEnd]
  {
  }

  // ----- Well-nestedness -----

  /** How an operator changes the nesting depth. */
  function Nesting(op: Op): int
  {
    if op.OpBlock? || op.OpLoop? || op.OpIf? then 1 else if op.OpEnd? then -1 else 0
  }

  /** The depth after a stretch of operators that never falls below zero, or nothing. */
  function Depth(ops: seq<Op>, start: int): Option<int>
    decreases |ops|
  {
    if start < 0 then None
    else if ops == [] then Some(start)
    else Depth(ops[1..], start + Nesting(ops[0]))
  }

  lemma {:induction false} DepthConcat(a: seq<Op>, b: seq<Op>, start: int)
    ensures Depth(a + b, start) == if Depth(a, start).Some? then Depth(b, Depth(a, start).value) else None
    decreases |a|
  {
    if a == [] {
      assert a + b == b;
    } else if start >= 0 {
      DepthConcat(a[1..], b, start + Nesting(a[0]));
      assert (a + b)[1..] == a[1..] + b;
    }
  }

  lemma DepthOne(op: Op, start: nat)
    requires start + Nesting(op) >= 0
    ensures Depth([op], start) == Some(start + Nesting(op))
  {
    assert [op][1..] == [];
  }

  /** Flattened code is well nested. */
  lemma {:induction false} FlattenNested(c: Code, start: nat)
    ensures Depth(Flatten(c), start) == Some(start)
    decreases c, 1
  {
    hide FlattenInstr;
    if c.Cons? {
      FlattenInstrNested(c.head, start);
      FlattenNested(c.tail, start);
      DepthConcat(FlattenInstr(c.head), Flatten(c.tail), start);
    }
  }

  lemma Bracketed(open: Op, c: Code, close: Op, start: nat)
    requires Nesting(open) == 1 && (close.OpEnd? || close.OpElse?)
    ensures Depth([open] + Flatten(c) + [close], start) == Some(if close.OpEnd? then start else start + 1)
    decreases c, 2
  {
    hide Flatten;
    FlattenNested(c, start + 1);
    DepthOne(open, start);
    DepthConcat([open], Flatten(c), start);
    DepthConcat([open] + Flatten(c), [close], start);
    DepthOne(close, start + 1);
  }

  lemma {:induction false} FlattenInstrNested(i: Instr, start: nat)
    ensures Depth(FlattenInstr(i), start) == Some(start)
    decreases i, 0
  {
    hide Flatten, Depth;
    match i {
      case Block(p, r, b) => Bracketed(OpBlock(p, r), b, OpEnd, start);
      case Loop(p, r, b) => Bracketed(OpLoop(p, r), b, OpEnd, start);
      case If(p, r, t, NoElse) => Bracketed(OpIf(p, r), t, OpEnd, start);
      case If(p, r, t, HasElse(e)) =>
        var head := [OpIf(p, r)] + Flatten(t) + [OpElse];
        Bracketed(OpIf(p, r), t, OpElse, start);
        FlattenNested(e, start + 1);
        DepthConcat(head, Flatten(e), start);
        DepthConcat(head + Flatten(e), [OpEnd], start);
        DepthOne(OpEnd, start + 1);
      case _ => DepthOne(OpFlat(i), start);
    }
  }

  /** Without a charge (possible only when the two sizes overflow) the function is closed before its
      body, so the emitted stream is the stream of no structured body at all. */
  lemma ZeroChargeMalformed(x: Context, results: nat, entryFee: u64, body: seq<Op>, c: Code)
    requires x.charge == 0
    ensures Emitted(x, results, entryFee, body) != Flatten(c) + [OpEnd]
  {
    hide Emit, Flatten, Charges;
    var s := Emitted(x, results, entryFee, body);
    var p := Prologue(x, results, entryFee);
    if s == Flatten(c) + [OpEnd] {
      assert s[..|s| - 1] == Flatten(c);
      FlattenNested(c, 0);
      var rest := s[..|s| - 1][3..];
      assert |EmitLast(x)| >= 1 by { assert EmitLast(x) == [OpEnd] + Flatten(Unstack(x.globals, x.charge)) + [OpEnd]; }
      assert s[..|s| - 1] == p + rest;
      DepthConcat(p, rest, 0);
      PrologueCloses(p);
    }
  }

  lemma PrologueCloses(p: seq<Op>)
    requires p == [OpFlat(Call(STACK_EXHAUSTED_FN)), OpFlat(Unreachable), OpEnd]
    ensures Depth(p, 0) == None
  {
    assert p[1..][1..][1..] == [];
    assert p[1..][0] == OpFlat(Unreachable) && p[1..][1..][0] == OpEnd;
    assert Depth(p[1..][1..][1..], -1) == None;
    assert Depth(p[1..][1..], 0) == None;
    assert Depth(p[1..], 0) == None;
  }
}
