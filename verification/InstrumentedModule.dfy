/** The sections the pass finishes denote the transformed module, so running them preserves meaning. */
module InstrumentedModule {
  import opened Words
  import opened Wasm
  import opened Wrappers
  import opened Instrument
  import opened Emission
  import opened InstrumentContext
  import opened Erasure
  import opened Metered
  import opened Simulation
  import opened InstrumentTheorem

  // ----- One stream, one structure -----

  predicate Closes(op: Op) { op.OpEnd? || op.OpElse? }

  /** Two well-formed streams up to a closing operator are the same code. */
  lemma {:induction false} FlattenUnique(c: Code, x: Op, s: seq<Op>, d: Code, y: Op, t: seq<Op>)
    requires Closes(x) && Closes(y)
    requires Flatten(c) + ([x] + s) == Flatten(d) + ([y] + t)
    ensures c == d && x == y && s == t
    decreases c
  {
    var left, right := Flatten(c) + ([x] + s), Flatten(d) + ([y] + t);
    FirstOp(c, [x] + s);
    FirstOp(d, [y] + t);
    if c.Nil? || d.Nil? {
      assert left[0] == right[0];
      if c.Nil? && d.Nil? {
        assert [x] + s == [y] + t;
        assert s == left[1..] == right[1..] == t;
      }
    } else {
      InstrUnique(c.head, Flatten(c.tail) + ([x] + s), d.head, Flatten(d.tail) + ([y] + t));
      FlattenUnique(c.tail, x, s, d.tail, y, t);
    }
  }

  lemma FirstOp(c: Code, rest: seq<Op>)
    requires rest != [] && Closes(rest[0])
    ensures Flatten(c) + rest != []
    ensures c.Nil? ==> Flatten(c) + rest == rest
    ensures c.Cons? ==> !Closes((Flatten(c) + rest)[0])
    ensures c.Cons? ==> Flatten(c) + rest == FlattenInstr(c.head) + (Flatten(c.tail) + rest)
  {
    if c.Nil? {
      assert Flatten(c) == [];
    } else {
      FlattenCons(c.head, c.tail);
      hide Flatten, FlattenInstr;
      assert Cons(c.head, c.tail) == c;
      Emission.Regroup(FlattenInstr(c.head), Flatten(c.tail), rest);
      OpenedAs(c.head, Flatten(c.tail) + rest);
      assert !Closes(Opening(c.head));
    }
  }

  lemma {:induction false} InstrUnique(i: Instr, r: seq<Op>, j: Instr, q: seq<Op>)
    requires FlattenInstr(i) + r == FlattenInstr(j) + q
    ensures i == j && r == q
    decreases i
  {
    var left, right := FlattenInstr(i) + r, FlattenInstr(j) + q;
    OpenedAs(i, r);
    OpenedAs(j, q);
    assert left[0] == right[0] && left[1..] == right[1..];
    if i.Block? || i.Loop? {
      FlattenUnique(i.body, OpEnd, r, j.body, OpEnd, q);
    } else if i.If? {
      FlattenUnique(i.thn, AfterThen(i, r)[0], AfterThen(i, r)[1..], j.thn, AfterThen(j, q)[0], AfterThen(j, q)[1..]);
      if i.els.HasElse? {
        FlattenUnique(i.els.code, OpEnd, r, j.els.code, OpEnd, q);
      }
    }
  }

  /** What follows the first branch of an `if`. */
  function AfterThen(i: Instr, rest: seq<Op>): (s: seq<Op>)
    requires i.If?
    ensures s != [] && Closes(s[0]) && s == [s[0]] + s[1..]
    ensures s[0] == (if i.els.HasElse? then OpElse else OpEnd)
    ensures s[1..] == if i.els.HasElse? then Flatten(i.els.code) + ([OpEnd] + rest) else rest
  {
    if i.els.HasElse? then [OpElse] + (Flatten(i.els.code) + ([OpEnd] + rest)) else [OpEnd] + rest
  }

  function Opening(i: Instr): Op
  {
    match i
    case Block(p, r, _) => OpBlock(p, r)
    case Loop(p, r, _) => OpLoop(p, r)
    case If(p, r, _, _) => OpIf(p, r)
    case _ => OpFlat(i)
  }

  /** An instruction's stream by its first operator and what follows. */
  lemma OpenedAs(i: Instr, rest: seq<Op>)
    ensures var s := FlattenInstr(i) + rest;
      && s != [] && s[0] == Opening(i)
      && s[1..] ==
           if i.Block? || i.Loop? then Flatten(i.body) + ([OpEnd] + rest)
           else if i.If? then Flatten(i.thn) + AfterThen(i, rest)
           else rest
  {
    hide Flatten;
    if i.Block? || i.Loop? {
      Bracket(Opening(i), Flatten(i.body), OpEnd, rest);
    } else if i.If? {
      Bracket(Opening(i), Flatten(i.thn), OpEnd, rest);
      if i.els.HasElse? {
        IfElse(Opening(i), Flatten(i.thn), Flatten(i.els.code), rest);
      }
    }
  }

  lemma Bracket(open: Op, body: seq<Op>, close: Op, rest: seq<Op>)
    ensures [open] + body + [close] + rest == [open] + (body + ([close] + rest))
  {
  }

  lemma IfElse(open: Op, thn: seq<Op>, els: seq<Op>, rest: seq<Op>)
    ensures [open] + thn + [OpElse] + els + [OpEnd] + rest == [open] + (thn + ([OpElse] + (els + ([OpEnd] + rest))))
  {
  }

  /** A body's stream determines the body. */
  lemma BodyUnique(c: Code, d: Code)
    requires Flatten(c) + [OpEnd] == Flatten(d) + [OpEnd]
    ensures c == d
  {
    assert [OpEnd] + [] == [OpEnd];
    FlattenUnique(c, OpEnd, [], d, OpEnd, []);
  }

  // ----- What sections denote -----

  function FuncImports(ims: seq<Import>): nat
  {
    if ims == [] then 0 else (if ims[0].FuncImport? then 1 else 0) + FuncImports(ims[1..])
  }

  /** The defined functions, behind the imported ones. */
  function Defined(n: nat, imported: nat): (s: seq<Addr>)
    ensures |s| == n
  {
    seq(n, k requires 0 <= k < n => Fn(imported + k))
  }

  /** The module the input's sections denote, given the imported host functions and the structured bodies. */
  function Denoted(input: Input, an: seq<Analysis>, cs: seq<Code>, hosts: seq<Func>): Module
    requires forall k :: 0 <= k < |cs| ==> HasType(input, an, k)
  {
    Module(ImportSpace(Imports(input), 0) + Defined(|cs|, |hosts|), hosts + Guests(input, an, cs), None)
  }

  function GuestAt(input: Input, an: seq<Analysis>, cs: seq<Code>, k: nat): Func
    requires k < |cs| && HasType(input, an, k)
  {
    var ty := TypeOf(input, k);
    Guest(input.functions[k], ty.params, ty.results, Expanded(input.bodies[k].locals), cs[k])
  }

  function Guests(input: Input, an: seq<Analysis>, cs: seq<Code>): (s: seq<Func>)
    requires forall k :: 0 <= k < |cs| ==> HasType(input, an, k)
    ensures |s| == |cs|
  {
    seq(|cs|, k requires 0 <= k < |cs| => GuestAt(input, an, cs, k))
  }

  /** The analyses by function index; imported functions have none of their own. */
  function AnalysesFor(hosts: seq<Func>, an: seq<Analysis>, n: nat): (s: seq<Analysis>)
    requires n <= |an|
    ensures |s| == |hosts| + n
  {
    seq(|hosts|, _ => Analysis([], 0, 1)) + an[..n]
  }

  /**
   * A module is what the finished context's sections say: the index space of its imports and functions, its types, each
   * body the code whose stream is in the code section, and the gas global it exports.
   */
  ghost predicate Denotes(ctx: InstrumentContext.Context, hosts: seq<Func>, m: Module)
    reads ctx
  {
    && m.index == ImportSpace(ctx.imports, 0) + Defined(|ctx.functions|, |hosts|)
    && |ctx.code| == |ctx.functions| && |m.funcs| == |hosts| + |ctx.code| && m.funcs[..|hosts|] == hosts
    && (var guests := m.funcs[|hosts|..];
        forall k :: 0 <= k < |ctx.code| ==> EntryDenotes(ctx, k, guests[k]))
    && m.gas.Some? && GasExport(m.gas.value) in ctx.exports
  }

  ghost predicate EntryDenotes(ctx: InstrumentContext.Context, k: nat, f: Func)
    requires k < |ctx.code| == |ctx.functions|
    reads ctx
  {
    && ctx.functions[k] < |ctx.types|
    && f.Guest? && f.ty == ctx.functions[k]
    && f.params == ctx.types[f.ty].params && f.results == ctx.types[f.ty].results
    && f.locals == ctx.code[k].locals && Flatten(f.body) + [OpEnd] == ctx.code[k].ops
  }

  /** A validated input: as many bodies as functions, and a host for every imported function. */
  ghost predicate ValidInput(input: Input, cs: seq<Code>, hosts: seq<Func>)
  {
    && |cs| == |input.bodies| == |input.functions| && cs != []
    && |hosts| == FuncImports(Imports(input)) && (forall k :: 0 <= k < |hosts| ==> hosts[k].Host?)
  }

  /** One finished code entry is the flat stream of the transformed function, and only of it. */
  lemma EntryIsTransformed(ctx: InstrumentContext.Context, input: Input, cs: seq<Code>, k: nat, f: Func)
    requires ctx.Complete(input, cs) && k < |cs| && |ctx.functions| == |cs| && HasType(input, ctx.analysis, k)
    requires StackCharge(ctx.analysis[k]) > 0
    ensures EntryDenotes(ctx, k, f) <==> f == TFunc(GuestAt(input, ctx.analysis, cs, k), ctx.analysis[k], ctx.globals)
  {
    hide Flatten, TFunctionBody, StackCharge, EntryFee, Expanded, Emitted, GlobalImports, ShiftExports, ShiftElements,
         Originals, HOOK_IMPORTS;
    var ty, b, a := TypeOf(input, k), input.bodies[k], ctx.analysis[k];
    var x := ContextFor(ctx.globals, ty, b, a);
    assert ctx.code[k] == EntryAt(ctx.globals, input, ctx.analysis, cs, k);
    EmittedIsFunctionBody(x, ty.results, EntryFee(a), cs[k]);
    if EntryDenotes(ctx, k, f) { BodyUnique(f.body, TFunctionBody(x, ty.results, EntryFee(a), cs[k])); }
  }

  /** The finished sections denote the transformed module, and nothing else. */
  lemma FinishedIsTransformed(ctx: InstrumentContext.Context, input: Input, cs: seq<Code>, hosts: seq<Func>, m': Module)
    requires ctx.Complete(input, cs) && ValidInput(input, cs, hosts)
    requires |cs| <= |ctx.analysis| && forall k :: 0 <= k < |cs| ==> StackCharge(ctx.analysis[k]) > 0
    ensures forall k :: 0 <= k < |cs| ==> HasType(input, ctx.analysis, k)
    ensures var m := Denoted(input, ctx.analysis, cs, hosts);
      var an := AnalysesFor(hosts, ctx.analysis, |cs|);
      && |an| == |m.funcs| && PositiveCharges(m, an)
      && (Denotes(ctx, hosts, m') <==> m' == TModule(m, an, ctx.globals))
  {
    hide Flatten, TFunc, StackCharge, EmittedBodies, GlobalImports, ShiftExports, ShiftElements, Originals,
         EntryDenotes, GuestAt, ImportSpace, HOOK_IMPORTS;
    var m, an := Denoted(input, ctx.analysis, cs, hosts), AnalysesFor(hosts, ctx.analysis, |cs|);
    var t := TModule(m, an, ctx.globals);
    HooksInFront(Imports(input));
    assert t.index == ImportSpace(ctx.imports, 0) + Defined(|ctx.functions|, |hosts|);
    forall n | 0 <= n < |hosts| ensures t.funcs[n] == hosts[n] {
      assert m.funcs[n] == hosts[n];
      HostUnchanged(hosts[n], an[n], ctx.globals);
    }
    forall k | 0 <= k < |cs|
      ensures t.funcs[|hosts| + k] == TFunc(GuestAt(input, ctx.analysis, cs, k), ctx.analysis[k], ctx.globals)
    {
      assert m.funcs[|hosts| + k] == Guests(input, ctx.analysis, cs)[k];
      assert an[|hosts| + k] == ctx.analysis[k];
    }
    SameFunctions(ctx, input, cs, hosts, m', t);
    forall n | 0 <= n < |m.funcs| && m.funcs[n].Guest? ensures StackCharge(an[n]) > 0 {
      if n >= |hosts| { assert an[n] == ctx.analysis[n - |hosts|]; }
    }
  }

  lemma SameFunctions(ctx: InstrumentContext.Context, input: Input, cs: seq<Code>, hosts: seq<Func>, m': Module,
                      t: Module)
    requires ctx.Complete(input, cs) && ValidInput(input, cs, hosts)
    requires |cs| <= |ctx.analysis| && forall k :: 0 <= k < |cs| ==> StackCharge(ctx.analysis[k]) > 0
    requires t.index == ImportSpace(ctx.imports, 0) + Defined(|ctx.functions|, |hosts|) && t.gas == Some(ctx.globals)
    requires |t.funcs| == |hosts| + |cs| && forall n :: 0 <= n < |hosts| ==> t.funcs[n] == hosts[n]
    requires forall k :: 0 <= k < |cs| ==> HasType(input, ctx.analysis, k)
    requires forall n :: |hosts| <= n < |t.funcs| ==>
      t.funcs[n] == TFunc(GuestAt(input, ctx.analysis, cs, n - |hosts|), ctx.analysis[n - |hosts|], ctx.globals)
    ensures Denotes(ctx, hosts, m') <==> m' == t
  {
    hide Flatten, TFunc, StackCharge, EmittedBodies, GlobalImports, ShiftExports, ShiftElements, Originals,
         EntryDenotes, GuestAt, ImportSpace, HOOK_IMPORTS, Defined;
    assert GasExport(ctx.globals) in ctx.exports;
    if m' == t {
      var guests := t.funcs[|hosts|..];
      forall k | 0 <= k < |ctx.code| ensures EntryDenotes(ctx, k, guests[k]) {
        assert guests[k] == t.funcs[|hosts| + k];
        EntryIsTransformed(ctx, input, cs, k, guests[k]);
      }
      assert t.funcs[..|hosts|] == hosts;
    }
    if Denotes(ctx, hosts, m') {
      assert m'.gas == t.gas;
      var guests := m'.funcs[|hosts|..];
      forall n | 0 <= n < |m'.funcs| ensures m'.funcs[n] == t.funcs[n] {
        if n < |hosts| {
          assert m'.funcs[n] == m'.funcs[..|hosts|][n];
        } else {
          assert guests[n - |hosts|] == m'.funcs[n];
          EntryIsTransformed(ctx, input, cs, n - |hosts|, m'.funcs[n]);
        }
      }
      assert m'.funcs == t.funcs;
    }
  }

  lemma HostUnchanged(f: Func, a: Analysis, globals: nat)
    requires f.Host?
    ensures TFunc(f, a, globals) == f
  {
  }

  /**
   * What the pass outputs preserves the meaning of what it read: whatever module the finished sections denote, running
   * it against the module the input denotes, from the same arguments, globals and memory and with any gas, agrees or
   * stops in a hook on the way.
   */
  lemma OutputPreservesMeaning(ctx: InstrumentContext.Context, input: Input, cs: seq<Code>, hosts: seq<Func>,
                               m': Module, w: World, n: nat, fuel: nat, args: seq<Value>, globals: seq<Value>,
                               mem: Mem, gas: u64)
    requires ctx.Complete(input, cs) && ValidInput(input, cs, hosts) && Denotes(ctx, hosts, m')
    requires |cs| <= |ctx.analysis| && forall k :: 0 <= k < |cs| ==> StackCharge(ctx.analysis[k]) > 0
    requires |globals| == ctx.globals && forall k :: 0 <= k < |cs| ==> HasType(input, ctx.analysis, k)
    requires var m := Denoted(input, ctx.analysis, cs, hosts);
      var an := AnalysesFor(hosts, ctx.analysis, |cs|);
      ValidModule(m, an, ctx.globals) && FitsModule(m, an)
    ensures var m := Denoted(input, ctx.analysis, cs, hosts);
      var an := AnalysesFor(hosts, ctx.analysis, |cs|);
      var o := ExecCall(w, m, Fn(n), fuel, Start(args, globals, mem));
      var o' := ExecCall(w, m', Fn(n), fuel, StartMetered(args, globals, mem, gas));
      var r := MCall(w, m, an, Fn(n), fuel, Metering(args, globals, mem, gas));
      if Spent(r) then StoppedOnTheWay(o, o', mem) else Agrees(o, o', gas, Sum(r.st.paid))
  {
    FinishedIsTransformed(ctx, input, cs, hosts, m');
    hide *;
    PreservesMeaning(w, Denoted(input, ctx.analysis, cs, hosts), AnalysesFor(hosts, ctx.analysis, |cs|), n, fuel,
                     args, globals, mem, gas);
  }
}
