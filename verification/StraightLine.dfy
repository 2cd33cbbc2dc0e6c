/** Single steps of the interpreter, and the code patterns the pass inserts. */
module StraightLine {
  import opened Words
  import opened Wasm
  import opened Instrument

  function Push(t: State, v: Value): State { t.(stack := t.stack + [v]) }
  function SetGlobal(t: State, x: nat, v: Value): State
    requires x < |t.globals|
  {
    t.(globals := t.globals[x := v])
  }
  function SetLocal(t: State, x: nat, v: Value): State
    requires x < |t.locals|
  {
    t.(locals := t.locals[x := v])
  }

  // ----- Single steps -----

  lemma Unfold(w: World, m: Module, i: Instr, rest: Code, fuel: nat, t: State)
    ensures ExecCode(w, m, Cons(i, rest), fuel, t) ==
            var o := ExecInstr(w, m, i, fuel, t); if o.Next? then ExecCode(w, m, rest, fuel, o.st) else o
  {
  }

  lemma RunNil(w: World, m: Module, fuel: nat, t: State)
    ensures ExecCode(w, m, Nil, fuel, t) == Next(t)
  {
  }

  lemma RunSimple(w: World, m: Module, i: Instr, fuel: nat, t: State)
    requires IsSimple(i)
    ensures ExecInstr(w, m, i, fuel, t) == Simple(w, i, t)
  {
  }

  lemma DoSimple(w: World, m: Module, i: Instr, rest: Code, fuel: nat, t: State, t': State)
    requires IsSimple(i) && Simple(w, i, t) == Next(t')
    ensures ExecCode(w, m, Cons(i, rest), fuel, t) == ExecCode(w, m, rest, fuel, t')
  {
    Unfold(w, m, i, rest, fuel, t);
    RunSimple(w, m, i, fuel, t);
  }

  lemma DoGlobalGet(w: World, m: Module, x: nat, rest: Code, fuel: nat, t: State)
    requires x < |t.globals|
    ensures ExecCode(w, m, Cons(GlobalGet(x), rest), fuel, t) == ExecCode(w, m, rest, fuel, Push(t, t.globals[x]))
  {
    DoSimple(w, m, GlobalGet(x), rest, fuel, t, Push(t, t.globals[x]));
  }

  lemma DoLocalGet(w: World, m: Module, x: nat, rest: Code, fuel: nat, t: State)
    requires x < |t.locals|
    ensures ExecCode(w, m, Cons(LocalGet(x), rest), fuel, t) == ExecCode(w, m, rest, fuel, Push(t, t.locals[x]))
  {
    DoSimple(w, m, LocalGet(x), rest, fuel, t, Push(t, t.locals[x]));
  }

  lemma DoConst(w: World, m: Module, n: u64, rest: Code, fuel: nat, t: State)
    ensures ExecCode(w, m, Cons(I64Const(n), rest), fuel, t) == ExecCode(w, m, rest, fuel, Push(t, I64(n)))
  {
    DoSimple(w, m, I64Const(n), rest, fuel, t, Push(t, I64(n)));
  }

  lemma DoBin(w: World, m: Module, b: Binop, x: u64, y: u64, rest: Code, fuel: nat, t: State)
    ensures ExecCode(w, m, Cons(I64Bin(b), rest), fuel, Push(Push(t, I64(x)), I64(y))) ==
            ExecCode(w, m, rest, fuel, Push(t, Apply64(b, x, y)))
  {
    hide Apply64;
    var t2 := Push(Push(t, I64(x)), I64(y));
    assert t2.stack[..|t2.stack| - 2] == t.stack;
    DoSimple(w, m, I64Bin(b), rest, fuel, t2, Push(t, Apply64(b, x, y)));
  }

  lemma DoGlobalSet(w: World, m: Module, x: nat, v: Value, rest: Code, fuel: nat, t: State)
    requires x < |t.globals|
    ensures ExecCode(w, m, Cons(GlobalSet(x), rest), fuel, Push(t, v)) == ExecCode(w, m, rest, fuel, SetGlobal(t, x, v))
  {
    var t1 := Push(t, v);
    assert t1.stack[..|t1.stack| - 1] == t.stack;
    DoSimple(w, m, GlobalSet(x), rest, fuel, t1, SetGlobal(t, x, v));
  }

  lemma DoTee(w: World, m: Module, x: nat, v: Value, rest: Code, fuel: nat, t: State)
    requires x < |t.locals|
    ensures ExecCode(w, m, Cons(LocalTee(x), rest), fuel, Push(t, v)) ==
            ExecCode(w, m, rest, fuel, Push(SetLocal(t, x, v), v))
  {
    DoSimple(w, m, LocalTee(x), rest, fuel, Push(t, v), Push(SetLocal(t, x, v), v));
  }

  lemma DoExtend(w: World, m: Module, k: u32, rest: Code, fuel: nat, t: State)
    ensures ExecCode(w, m, Cons(I64ExtendI32U, rest), fuel, Push(t, I32(k))) ==
            ExecCode(w, m, rest, fuel, Push(t, I64(k as u64)))
  {
    var t1 := Push(t, I32(k));
    assert t1.stack[..|t1.stack| - 1] == t.stack;
    DoSimple(w, m, I64ExtendI32U, rest, fuel, t1, Push(t, I64(k as u64)));
  }

  /** An `if` without operands, on a boolean just pushed. */
  lemma DoIf(w: World, m: Module, b: bool, thn: Code, els: Code, rest: Code, fuel: nat, t: State)
    ensures var o := ExitBlock(ExecCode(w, m, if b then thn else els, fuel, t.(stack := [])), 0, t.stack);
            ExecCode(w, m, Cons(If(0, 0, thn, HasElse(els)), rest), fuel, Push(t, I32(if b then 1 else 0))) ==
            if o.Next? then ExecCode(w, m, rest, fuel, o.st) else o
  {
    var t1 := Push(t, I32(if b then 1 else 0));
    Unfold(w, m, If(0, 0, thn, HasElse(els)), rest, fuel, t1);
    assert Pop(t1) == t by { assert Pop(t1).stack == t.stack; }
    assert Top(t.stack, 0).value == [] && Below(t.stack, 0) == t.stack;
    RunIf(w, m, b, thn, els, fuel, t1, t);
  }

  lemma RunIf(w: World, m: Module, b: bool, thn: Code, els: Code, fuel: nat, t1: State, t: State)
    requires TopIsI32(t1.stack) && Pop(t1) == t && (t1.stack[|t1.stack| - 1].i != 0 <==> b)
    requires Top(t.stack, 0).value == [] && Below(t.stack, 0) == t.stack
    ensures ExecInstr(w, m, If(0, 0, thn, HasElse(els)), fuel, t1) ==
            ExitBlock(ExecCode(w, m, if b then thn else els, fuel, t.(stack := [])), 0, t.stack)
  {
  }

  /** A call of an injected hook. */
  lemma DoHook(w: World, m: Module, f: nat, rest: Code, fuel: nat, t: State)
    requires f < |m.index| && m.index[f].HookFn?
    ensures ExecCode(w, m, Cons(Call(f), rest), fuel, t) == RunHook(m, m.index[f].hook, t)
  {
    Unfold(w, m, Call(f), rest, fuel, t);
    assert ExecInstr(w, m, Call(f), fuel, t) == ExecCall(w, m, m.index[f], fuel, t);
  }

  // ----- Patterns -----

  lemma RunSubtract(w: World, m: Module, x: nat, c: u64, fuel: nat, t: State)
    requires x < |t.globals| && t.globals[x].I64? && t.globals[x].n >= c
    ensures ExecCode(w, m,
              Cons(GlobalGet(x), Cons(I64Const(c), Cons(I64Bin(Sub), Cons(GlobalSet(x), Nil)))), fuel, t) ==
            Next(SetGlobal(t, x, I64(t.globals[x].n - c)))
  {
    hide ExecCode, ExecInstr, Simple;
    var v := t.globals[x].n;
    DoGlobalGet(w, m, x, Cons(I64Const(c), Cons(I64Bin(Sub), Cons(GlobalSet(x), Nil))), fuel, t);
    DoConst(w, m, c, Cons(I64Bin(Sub), Cons(GlobalSet(x), Nil)), fuel, Push(t, I64(v)));
    DoBin(w, m, Sub, v, c, Cons(GlobalSet(x), Nil), fuel, t);
    DoGlobalSet(w, m, x, I64(v - c), Nil, fuel, t);
    RunNil(w, m, fuel, SetGlobal(t, x, I64(v - c)));
  }

  /** The compare-and-subtract pattern on a global. */
  lemma RunGuarded(w: World, m: Module, x: nat, c: u64, fail: Code, fuel: nat, t: State)
    requires x < |t.globals| && t.globals[x].I64?
    requires t.globals[x].n < c ==> ExecCode(w, m, fail, fuel, t.(stack := [])).Trap?
    ensures ExecCode(w, m, Guarded(x, c, fail), fuel, t) ==
            if t.globals[x].n < c then ExecCode(w, m, fail, fuel, t.(stack := []))
            else Next(SetGlobal(t, x, I64(t.globals[x].n - c)))
  {
    hide ExecCode, ExecInstr, Simple;
    var v := t.globals[x].n;
    var sub := Cons(GlobalGet(x), Cons(I64Const(c), Cons(I64Bin(Sub), Cons(GlobalSet(x), Nil))));
    var rest := Cons(If(0, 0, fail, HasElse(sub)), Nil);
    DoGlobalGet(w, m, x, Cons(I64Const(c), Cons(I64Bin(LtU), rest)), fuel, t);
    DoConst(w, m, c, Cons(I64Bin(LtU), rest), fuel, Push(t, I64(v)));
    DoBin(w, m, LtU, v, c, rest, fuel, t);
    DoIf(w, m, v < c, fail, sub, Nil, fuel, t);
    if v >= c {
      RunSubtract(w, m, x, c, fuel, t.(stack := []));
      assert t.stack + [] == t.stack;
      RunNil(w, m, fuel, SetGlobal(t, x, I64(v - c)));
    }
  }

  /** The linear charge: on shortage the failing branch, otherwise the gas global is lowered and the
      length operand is on top again; only the two scratch locals differ besides. */
  lemma RunLinear(w: World, m: Module, g: nat, l: nat, fee: Fee, k: u32, fuel: nat, t: State)
    requires g < |t.globals| && t.globals[g].I64? && |t.locals| == l + 2
    requires |m.index| >= 3 && m.index[GAS_INSTRUMENTATION_FN] == HookFn(GasReport)
    ensures var amount := LinearAmount(fee, k);
            var t' := SetLocal(SetLocal(t, l + 1, I32(k)), l, I64(amount));
            var o := ExecCode(w, m, LinearCharge(g, l, fee), fuel, Push(t, I32(k)));
            if amount > t.globals[g].n then o == RunHook(m, GasReport, t'.(stack := [I64(amount)]))
            else o == Next(Push(SetGlobal(t', g, I64(t.globals[g].n - amount)), I32(k)))
  {
    hide ExecCode, ExecInstr, Simple, LinearTail;
    var amount, product := LinearAmount(fee, k), ((k as int * fee.linear as int) % W) as u64;
    var t1 := SetLocal(t, l + 1, I32(k));
    var tail := LinearTail(g, l);
    DoTee(w, m, l + 1, I32(k), Cons(I64ExtendI32U, Cons(I64Const(fee.linear), Cons(I64Bin(Mul),
      Cons(I64Const(fee.constant), Cons(I64Bin(Add), Cons(LocalTee(l), tail)))))), fuel, t);
    DoExtend(w, m, k, Cons(I64Const(fee.linear), Cons(I64Bin(Mul),
      Cons(I64Const(fee.constant), Cons(I64Bin(Add), Cons(LocalTee(l), tail))))), fuel, t1);
    DoConst(w, m, fee.linear, Cons(I64Bin(Mul),
      Cons(I64Const(fee.constant), Cons(I64Bin(Add), Cons(LocalTee(l), tail)))), fuel, Push(t1, I64(k as u64)));
    DoBin(w, m, Mul, k as u64, fee.linear,
      Cons(I64Const(fee.constant), Cons(I64Bin(Add), Cons(LocalTee(l), tail))), fuel, t1);
    DoConst(w, m, fee.constant, Cons(I64Bin(Add), Cons(LocalTee(l), tail)), fuel, Push(t1, I64(product)));
    DoBin(w, m, Add, product, fee.constant, Cons(LocalTee(l), tail), fuel, t1);
    DoTee(w, m, l, I64(amount), tail, fuel, t1);
    RunLinearTail(w, m, g, l, amount, k, fuel, SetLocal(t1, l, I64(amount)));
  }

  lemma RunLinearTail(w: World, m: Module, g: nat, l: nat, amount: u64, k: u32, fuel: nat, t: State)
    requires g < |t.globals| && t.globals[g].I64?
    requires |t.locals| == l + 2 && t.locals[l] == I64(amount) && t.locals[l + 1] == I32(k)
    requires |m.index| >= 3 && m.index[GAS_INSTRUMENTATION_FN] == HookFn(GasReport)
    ensures var o := ExecCode(w, m, LinearTail(g, l), fuel, Push(t, I64(amount)));
            if amount > t.globals[g].n then o == RunHook(m, GasReport, t.(stack := [I64(amount)]))
            else o == Next(Push(SetGlobal(t, g, I64(t.globals[g].n - amount)), I32(k)))
  {
    hide ExecCode, ExecInstr, Simple, RunHook;
    var v := t.globals[g].n;
    var fail := Cons(LocalGet(l), Cons(Call(GAS_INSTRUMENTATION_FN), Cons(Unreachable, Nil)));
    var sub := Cons(GlobalGet(g), Cons(LocalGet(l), Cons(I64Bin(Sub), Cons(GlobalSet(g), Nil))));
    var last := Cons(LocalGet(l + 1), Nil);
    DoGlobalGet(w, m, g, Cons(I64Bin(GtU), Cons(If(0, 0, fail, HasElse(sub)), last)), fuel, Push(t, I64(amount)));
    DoBin(w, m, GtU, amount, v, Cons(If(0, 0, fail, HasElse(sub)), last), fuel, t);
    DoIf(w, m, amount > v, fail, sub, last, fuel, t);
    var t0 := t.(stack := []);
    if amount > v {
      DoLocalGet(w, m, l, Cons(Call(GAS_INSTRUMENTATION_FN), Cons(Unreachable, Nil)), fuel, t0);
      DoHook(w, m, GAS_INSTRUMENTATION_FN, Cons(Unreachable, Nil), fuel, Push(t0, I64(amount)));
      assert Push(t0, I64(amount)) == t.(stack := [I64(amount)]);
      HookTraps(m, GasReport, Push(t0, I64(amount)));
    } else {
      SubtractLocal(w, m, g, l, amount, fuel, t0);
      var t1 := SetGlobal(t, g, I64(v - amount));
      assert t.stack + [] == t.stack;
      DoLocalGet(w, m, l + 1, Nil, fuel, t1);
      RunNil(w, m, fuel, Push(t1, I32(k)));
    }
  }

  lemma SubtractLocal(w: World, m: Module, g: nat, l: nat, amount: u64, fuel: nat, t: State)
    requires g < |t.globals| && t.globals[g].I64? && t.globals[g].n >= amount
    requires l < |t.locals| && t.locals[l] == I64(amount)
    ensures ExecCode(w, m,
              Cons(GlobalGet(g), Cons(LocalGet(l), Cons(I64Bin(Sub), Cons(GlobalSet(g), Nil)))), fuel, t) ==
            Next(SetGlobal(t, g, I64(t.globals[g].n - amount)))
  {
    hide ExecCode, ExecInstr, Simple;
    var v := t.globals[g].n;
    DoGlobalGet(w, m, g, Cons(LocalGet(l), Cons(I64Bin(Sub), Cons(GlobalSet(g), Nil))), fuel, t);
    DoLocalGet(w, m, l, Cons(I64Bin(Sub), Cons(GlobalSet(g), Nil)), fuel, Push(t, I64(v)));
    DoBin(w, m, Sub, v, amount, Cons(GlobalSet(g), Nil), fuel, t);
    DoGlobalSet(w, m, g, I64(v - amount), Nil, fuel, t);
    RunNil(w, m, fuel, SetGlobal(t, g, I64(v - amount)));
  }

  lemma HookTraps(m: Module, hook: Hook, t: State)
    ensures RunHook(m, hook, t).Trap?
  {
  }

  /** The release of a charge. */
  lemma RunUnstack(w: World, m: Module, g: nat, charge: u64, fuel: nat, t: State)
    requires g + 1 < |t.globals| && t.globals[g + 1].I64?
    ensures ExecCode(w, m, Unstack(g, charge), fuel, t) ==
            Next(SetGlobal(t, g + 1, Apply64(Add, t.globals[g + 1].n, charge)))
  {
    hide ExecCode, ExecInstr, Simple, Apply64;
    var v := t.globals[g + 1].n;
    var t' := SetGlobal(t, g + 1, Apply64(Add, v, charge));
    DoGlobalGet(w, m, g + 1, Cons(I64Const(charge), Cons(I64Bin(Add), Cons(GlobalSet(g + 1), Nil))), fuel, t);
    DoConst(w, m, charge, Cons(I64Bin(Add), Cons(GlobalSet(g + 1), Nil)), fuel, Push(t, I64(v)));
    DoBin(w, m, Add, v, charge, Cons(GlobalSet(g + 1), Nil), fuel, t);
    DoGlobalSet(w, m, g + 1, Apply64(Add, v, charge), Nil, fuel, t);
    RunNil(w, m, fuel, t');
  }
}
