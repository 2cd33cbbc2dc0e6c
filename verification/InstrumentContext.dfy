/** The mutable context of the pass: sections under construction and the count of original globals. */
module InstrumentContext {
  import opened Words
  import opened Wasm
  import opened Wrappers
  import opened Instrument
  import opened Emission
  import opened OperatorLoop

  datatype Import = HookImport(hook: Hook) | FuncImport(id: nat) | GlobalImport | OtherImport
  /** The globals of the module, and the mutable 64-bit ones added behind them. */
  datatype GlobalDef = OriginalGlobal(id: nat) | AddedGlobal(init: u64)
  datatype ExportKind = FuncExport | GlobalExport | OtherExport
  datatype Export = Export(name: nat, kind: ExportKind, index: nat) | GasExport(index: nat) | StartExport(index: nat)

  datatype FuncType = FuncType(params: nat, results: nat)

  /** Locals as declared: how many of one initial value. */
  datatype Run = Run(count: nat, init: Value)

  /** A function body of the input: its declared locals and operators. */
  datatype Body = Body(locals: seq<Run>, ops: seq<Op>)

  const HOOK_IMPORTS: seq<Import> := [HookImport(GasExhausted), HookImport(StackExhausted), HookImport(GasReport)]

  /** The remaining gas, which the embedder sets, and the stack budget. */
  const ADDED_GLOBALS: seq<GlobalDef> := [AddedGlobal(0), AddedGlobal(MAX_STACK_HEIGHT as u64)]

  // ----- Input modules -----

  /** The sections the pass reads; imports and global definitions may be absent altogether. */
  datatype Input = Input(types: seq<FuncType>, imports: Option<seq<Import>>, functions: seq<nat>,
                         globalDefs: Option<seq<nat>>, exports: seq<Export>, start: Option<nat>,
                         elements: seq<seq<nat>>, bodies: seq<Body>)

  function Imports(input: Input): seq<Import> { if input.imports.Some? then input.imports.value else [] }

  function Defs(input: Input): seq<nat> { if input.globalDefs.Some? then input.globalDefs.value else [] }

  function GlobalImports(ims: seq<Import>): nat
  {
    if ims == [] then 0 else GlobalImports(ims[..|ims| - 1]) + if ims[|ims| - 1].GlobalImport? then 1 else 0
  }

  lemma GlobalImportsAppend(ims: seq<Import>, i: Import)
    ensures GlobalImports(ims + [i]) == GlobalImports(ims) + if i.GlobalImport? then 1 else 0
  {
    assert (ims + [i])[..|ims|] == ims;
  }

  lemma {:induction false} GlobalImportsGrow(ims: seq<Import>, k: nat)
    requires k <= |ims|
    ensures GlobalImports(ims[..k]) <= GlobalImports(ims)
  {
    if k == |ims| {
      assert ims[..k] == ims;
    } else {
      GlobalImportsGrow(ims[..|ims| - 1], k);
      assert ims[..|ims| - 1][..k] == ims[..k];
    }
  }

  function LocalCount(locals: seq<Run>): nat
  {
    if locals == [] then 0 else LocalCount(locals[..|locals| - 1]) + locals[|locals| - 1].count
  }

  lemma {:induction false} LocalCountGrows(locals: seq<Run>, k: nat)
    requires k <= |locals|
    ensures LocalCount(locals[..k]) <= LocalCount(locals)
  {
    if k == |locals| {
      assert locals[..k] == locals;
    } else {
      LocalCountGrows(locals[..|locals| - 1], k);
      assert locals[..|locals| - 1][..k] == locals[..k];
    }
  }

  function Copies(n: nat, v: Value): (s: seq<Value>)
    ensures |s| == n
  {
    seq(n, _ => v)
  }

  /** The locals one by one. */
  function Expanded(locals: seq<Run>): (s: seq<Value>)
    ensures |s| == LocalCount(locals)
  {
    if locals == [] then []
    else Expanded(locals[..|locals| - 1]) + Copies(locals[|locals| - 1].count, locals[|locals| - 1].init)
  }

  function Originals(defs: seq<nat>): seq<GlobalDef>
  {
    seq(|defs|, k requires 0 <= k < |defs| => OriginalGlobal(defs[k]))
  }

  predicate ExportFits(e: Export)
    requires e.Export?
  {
    e.kind.FuncExport? ==> e.index + F < U32_LIMIT
  }

  function ShiftExport(e: Export): Export
    requires e.Export?
  {
    if e.kind.FuncExport? then e.(index := e.index + F) else e
  }

  function ShiftExports(es: seq<Export>): (r: seq<Export>)
    requires forall k :: 0 <= k < |es| ==> es[k].Export?
    ensures forall e :: e in r ==> e.Export?
  {
    seq(|es|, k requires 0 <= k < |es| => ShiftExport(es[k]))
  }

  predicate ElementFits(e: seq<nat>)
  {
    forall j :: 0 <= j < |e| ==> e[j] + F < U32_LIMIT
  }

  function ShiftElement(e: seq<nat>): seq<nat>
  {
    seq(|e|, j requires 0 <= j < |e| => e[j] + F)
  }

  function ShiftElements(es: seq<seq<nat>>): seq<seq<nat>>
  {
    seq(|es|, k requires 0 <= k < |es| => ShiftElement(es[k]))
  }

  /** A validated body, closed by its last operator, with points in order inside it. */
  ghost predicate WellAnalysed(b: Body, a: Analysis, c: Code)
  {
    && b.ops == Flatten(c) + [OpEnd]
    && Sorted(a.points)
    && forall k :: 0 <= k < |a.points| ==> a.points[k].offset < |b.ops|
  }

  function ContextFor(globals: nat, ty: FuncType, b: Body, a: Analysis): Instrument.Context
  {
    Instrument.Context(globals, ty.params + LocalCount(b.locals), StackCharge(a), a.points)
  }

  /** One entry of the finished code section: the locals and the operators. */
  datatype CodeEntry = CodeEntry(locals: seq<Value>, ops: seq<Op>)

  function EmittedFor(globals: nat, ty: FuncType, b: Body, a: Analysis, c: Code): CodeEntry
  {
    CodeEntry(Expanded(b.locals) + [I64(0), I32(0)],
              Emitted(ContextFor(globals, ty, b, a), ty.results, EntryFee(a), Flatten(c)))
  }

  // ----- When the pass succeeds -----

  /** The k-th body has a type and an analysis. */
  predicate HasType(input: Input, an: seq<Analysis>, k: nat)
  {
    k < |input.bodies| && k < |an| && k < |input.functions| && input.functions[k] < |input.types|
  }

  function TypeOf(input: Input, k: nat): FuncType
    requires k < |input.functions| && input.functions[k] < |input.types|
  {
    input.types[input.functions[k]]
  }

  ghost predicate BodyFits(input: Input, an: seq<Analysis>, k: nat)
  {
    && HasType(input, an, k)
    && var locals := TypeOf(input, k).params + LocalCount(input.bodies[k].locals);
       locals < U32_LIMIT && Emittable(locals, an[k].points, input.bodies[k].ops)
  }

  function EntryAt(globals: nat, input: Input, an: seq<Analysis>, cs: seq<Code>, k: nat): CodeEntry
    requires k < |cs| && HasType(input, an, k)
  {
    EmittedFor(globals, TypeOf(input, k), input.bodies[k], an[k], cs[k])
  }

  function EmittedBodies(globals: nat, input: Input, an: seq<Analysis>, cs: seq<Code>, n: nat): (s: seq<CodeEntry>)
    requires n <= |cs| && forall k :: 0 <= k < n ==> HasType(input, an, k)
    ensures |s| == n
  {
    seq(n, k requires 0 <= k < n => EntryAt(globals, input, an, cs, k))
  }

  lemma EmittedBodiesAppend(globals: nat, input: Input, an: seq<Analysis>, cs: seq<Code>, n: nat)
    requires n < |cs| && forall k :: 0 <= k <= n ==> HasType(input, an, k)
    ensures EmittedBodies(globals, input, an, cs, n + 1) ==
      EmittedBodies(globals, input, an, cs, n) + [EntryAt(globals, input, an, cs, n)]
  {
    hide EntryAt;
  }

  predicate GlobalsFit(input: Input)
  {
    GlobalImports(Imports(input)) + (if input.globalDefs.Some? then |Defs(input)| + 2 else 0) < U32_LIMIT
  }

  ghost predicate InputFits(input: Input, an: seq<Analysis>)
    requires forall k :: 0 <= k < |input.exports| ==> input.exports[k].Export?
  {
    && GlobalsFit(input)
    && (forall k :: 0 <= k < |input.exports| ==> ExportFits(input.exports[k]))
    && (input.start.Some? ==> input.start.value + F < U32_LIMIT)
    && (forall k :: 0 <= k < |input.elements| ==> ElementFits(input.elements[k]))
    && (forall k :: 0 <= k < |input.bodies| ==> BodyFits(input, an, k))
  }

  /** What the function indices of a list of imports denote, numbering the functions from `next`. */
  function ImportSpace(ims: seq<Import>, next: nat): seq<Addr>
    decreases |ims|
  {
    if ims == [] then []
    else
      match ims[0]
      case HookImport(h) => [HookFn(h)] + ImportSpace(ims[1..], next)
      case FuncImport(_) => [Fn(next)] + ImportSpace(ims[1..], next + 1)
      case _ => ImportSpace(ims[1..], next)
  }

  /** The hooks come first, so every original function moves up by exactly three. */
  lemma HooksInFront(ims: seq<Import>)
    ensures ImportSpace(HOOK_IMPORTS + ims, 0) == HOOKS + ImportSpace(ims, 0)
  {
    var s := HOOK_IMPORTS + ims;
    assert s[1..][1..][1..] == ims;
    assert s[0] == HookImport(GasExhausted) && s[1..][0] == HookImport(StackExhausted);
    assert s[1..][1..][0] == HookImport(GasReport);
    assert ImportSpace(s[1..][1..], 0) == [HookFn(GasReport)] + ImportSpace(ims, 0);
    assert ImportSpace(s[1..], 0) == [HookFn(StackExhausted)] + ImportSpace(s[1..][1..], 0);
  }

  /** The type indices not yet matched with a body. */
  function RestOf(functions: seq<nat>, k: nat): seq<nat>
  {
    if k <= |functions| then functions[k..] else []
  }

  lemma AllOf(functions: seq<nat>)
    ensures RestOf(functions, 0) == functions
  {
  }

  lemma AbsentSections()
    ensures GlobalImports([]) == 0 && Originals([]) == []
  {
  }

  class Context {
    const analysis: seq<Analysis>
    var globals: nat                    // original globals seen so far
    var types: seq<FuncType>
    var imports: seq<Import>
    var functions: seq<nat>             // types of the defined functions
    var functionTypes: seq<nat>         // those not yet matched with a body
    var globalSection: seq<GlobalDef>
    var exports: seq<Export>
    var elements: seq<seq<nat>>
    var code: seq<CodeEntry>

    constructor (analysis: seq<Analysis>)
      ensures this.analysis == analysis && Empty()
    {
      this.analysis := analysis;
      globals, types, imports, functions, functionTypes, globalSection := 0, [], [], [], [], [];
      exports, elements, code := [], [], [];
    }

    predicate Empty()
      reads this
    {
      && globals == 0 && types == [] && imports == [] && functions == [] && functionTypes == [] && globalSection == []
      && exports == [] && elements == [] && code == []
    }

    /** Puts the three hooks in front, once. */
    method MaybeAddImports()
      modifies this`imports
      ensures imports == if old(imports) == [] then HOOK_IMPORTS else old(imports)
    {
      if imports == [] {
        imports := imports + [HookImport(GasExhausted)];
        imports := imports + [HookImport(StackExhausted)];
        imports := imports + [HookImport(GasReport)];
      }
    }

    method AddGlobals()
      modifies this`globalSection, this`exports
      ensures globalSection == old(globalSection) + ADDED_GLOBALS
      ensures exports == old(exports) + [GasExport(globals)]
    {
      globalSection := globalSection + [AddedGlobal(0)];
      globalSection := globalSection + [AddedGlobal(MAX_STACK_HEIGHT as u64)];
      exports := exports + [GasExport(globals)];
    }

    /** The index of the first scratch local, unless it does not fit 32 bits. */
    method CountLocals(params: nat, locals: seq<Run>) returns (next: Option<nat>)
      requires params < U32_LIMIT
      ensures next == if params + LocalCount(locals) < U32_LIMIT then Some(params + LocalCount(locals)) else None
    {
      var li := params;
      for k := 0 to |locals|
        invariant li == params + LocalCount(locals[..k]) < U32_LIMIT
      {
        assert locals[..k + 1][..k] == locals[..k];
        LocalCountGrows(locals, k + 1);
        if li + locals[k].count >= U32_LIMIT { return None; }
        li := li + locals[k].count;
      }
      assert locals[..|locals|] == locals;
      return Some(li);
    }

    /** `transform_code_section`: one function's body, emitted and appended to the code section. */
    method TransformCodeSection(b: Body, typeIndex: nat, ghost c: Code) returns (error: Option<Error>)
      requires forall k :: 0 <= k < |types| ==> types[k].params < U32_LIMIT
      requires |code| < |analysis| ==> WellAnalysed(b, analysis[|code|], c)
      modifies this`code
      ensures error.None? <==>
        && typeIndex < |types| && |old(code)| < |analysis|
        && var locals := types[typeIndex].params + LocalCount(b.locals);
           locals < U32_LIMIT && Emittable(locals, analysis[|old(code)|].points, b.ops)
      ensures error.Some? ==> code == old(code)
      ensures error.None? ==>
        code == old(code) + [EmittedFor(globals, types[typeIndex], b, analysis[|old(code)|], c)]
    {
      hide Flatten, Emit, EmitLast, Charges, Prologue, EntryFee, StackCharge, Emittable, Expanded, LocalCount;
      if typeIndex >= |types| { return Some(InvalidTypeIndex); }
      var ty := types[typeIndex];
      var next := CountLocals(ty.params, b.locals);
      if next.None? { return Some(TooManyLocals); }
      if |code| >= |analysis| { return Some(MissingAnalysis); }
      var a := analysis[|code|];
      var x := ContextFor(globals, ty, b, a);
      var sink := BuildPrologue(x, ty.results, EntryFee(a));
      sink, error := EmitOperators(x, b.ops, sink);
      if error.None? {
        assert b.ops[..|b.ops| - 1] == Flatten(c);
        code := code + [CodeEntry(Expanded(b.locals) + [I64(0), I32(0)], sink)];
      }
    }

    // ----- The payloads -----

    method ReadImports(ims: seq<Import>) returns (error: Option<Error>)
      requires globals < U32_LIMIT
      modifies this`imports, this`globals
      ensures error.None? <==> old(globals) + GlobalImports(ims) < U32_LIMIT
      ensures error.None? ==> imports == (if old(imports) == [] then HOOK_IMPORTS else old(imports)) + ims
      ensures error.None? ==> globals == old(globals) + GlobalImports(ims)
    {
      hide HOOK_IMPORTS;
      MaybeAddImports();
      ghost var base := imports;
      assert ims[..0] == [];
      for k := 0 to |ims|
        invariant imports == base + ims[..k] && globals == old(globals) + GlobalImports(ims[..k]) < U32_LIMIT
      {
        assert ims[..k + 1] == ims[..k] + [ims[k]];
        GlobalImportsAppend(ims[..k], ims[k]);
        GlobalImportsGrow(ims, k + 1);
        if ims[k].GlobalImport? {
          if globals + 1 >= U32_LIMIT { return Some(TooManyGlobals); }
          globals := globals + 1;
        }
        imports := imports + [ims[k]];
      }
      assert ims[..|ims|] == ims;
      error := None;
    }

    method ReadGlobals(defs: seq<nat>) returns (error: Option<Error>)
      requires globals < U32_LIMIT
      modifies this`globals, this`globalSection, this`exports
      ensures error.None? <==> old(globals) + |defs| + 2 < U32_LIMIT
      ensures error.None? ==> globals == old(globals) + |defs|
      ensures error.None? ==> globalSection == old(globalSection) + Originals(defs) + ADDED_GLOBALS
      ensures error.None? ==> exports == old(exports) + [GasExport(globals)]
    {
      for k := 0 to |defs|
        invariant globals == old(globals) + k < U32_LIMIT && exports == old(exports)
        invariant globalSection == old(globalSection) + Originals(defs[..k])
      {
        globalSection := globalSection + [OriginalGlobal(defs[k])];
        if globals + 1 >= U32_LIMIT { return Some(TooManyGlobals); }
        globals := globals + 1;
        assert Originals(defs[..k + 1]) == Originals(defs[..k]) + [OriginalGlobal(defs[k])];
      }
      assert defs[..|defs|] == defs;
      if globals + 2 >= U32_LIMIT { return Some(TooManyGlobals); }
      AddGlobals();
      error := None;
    }

    method ReadExports(es: seq<Export>) returns (error: Option<Error>)
      requires forall k :: 0 <= k < |es| ==> es[k].Export?
      modifies this`exports
      ensures error.None? <==> forall k :: 0 <= k < |es| ==> ExportFits(es[k])
      ensures error.None? ==> exports == old(exports) + ShiftExports(es)
    {
      for k := 0 to |es|
        invariant exports == old(exports) + ShiftExports(es[..k])
        invariant forall j :: 0 <= j < k ==> ExportFits(es[j])
      {
        if !ExportFits(es[k]) {
          return Some(IndexOverflow);
        }
        exports := exports + [ShiftExport(es[k])];
        assert ShiftExports(es[..k + 1]) == ShiftExports(es[..k]) + [ShiftExport(es[k])];
      }
      assert es[..|es|] == es;
      error := None;
    }

    method ReadElements(es: seq<seq<nat>>) returns (error: Option<Error>)
      modifies this`elements
      ensures error.None? <==> forall k :: 0 <= k < |es| ==> ElementFits(es[k])
      ensures error.None? ==> elements == old(elements) + ShiftElements(es)
    {
      for k := 0 to |es|
        invariant elements == old(elements) + ShiftElements(es[..k])
        invariant forall j :: 0 <= j < k ==> ElementFits(es[j])
      {
        if exists j :: 0 <= j < |es[k]| && es[k][j] + F >= U32_LIMIT {
          return Some(IndexOverflow);
        }
        elements := elements + [ShiftElement(es[k])];
        assert ShiftElements(es[..k + 1]) == ShiftElements(es[..k]) + [ShiftElement(es[k])];
      }
      assert es[..|es|] == es;
      error := None;
    }

    /** The code section: before each body the hooks and the globals are put in place, if they are not. */
    method ReadCode(input: Input, ghost cs: seq<Code>) returns (error: Option<Error>)
      requires types == input.types && functionTypes == input.functions && code == [] && |cs| == |input.bodies|
      requires forall k :: 0 <= k < |types| ==> types[k].params < U32_LIMIT
      requires forall k :: 0 <= k < |cs| && k < |analysis| ==> WellAnalysed(input.bodies[k], analysis[k], cs[k])
      modifies this`imports, this`globalSection, this`exports, this`functionTypes, this`code
      ensures error.None? <==> forall k :: 0 <= k < |input.bodies| ==> BodyFits(input, analysis, k)
      ensures error.None? ==> forall k :: 0 <= k < |cs| ==> HasType(input, analysis, k)
      ensures error.None? ==> code == EmittedBodies(globals, input, analysis, cs, |cs|)
      ensures error.None? ==> imports == if old(imports) == [] && cs != [] then HOOK_IMPORTS else old(imports)
      ensures error.None? ==>
        globalSection == if old(globalSection) == [] && cs != [] then ADDED_GLOBALS else old(globalSection)
      ensures error.None? ==>
        exports == old(exports) + (if old(globalSection) == [] && cs != [] then [GasExport(globals)] else [])
    {
      hide Emittable, EntryAt, WellAnalysed, HOOK_IMPORTS, LocalCount, BodyFits, HasType, RestOf;
      ghost var (gs, es, ims) := (globalSection, exports, imports);
      error := None;
      AllOf(input.functions);
      for k := 0 to |input.bodies|
        invariant functionTypes == RestOf(input.functions, k)
        invariant forall j :: 0 <= j < k ==> BodyFits(input, analysis, j)
        invariant forall j :: 0 <= j < k ==> HasType(input, analysis, j)
        invariant code == EmittedBodies(globals, input, analysis, cs, k)
        invariant imports == if ims == [] && k > 0 then HOOK_IMPORTS else ims
        invariant globalSection == if gs == [] && k > 0 then ADDED_GLOBALS else gs
        invariant exports == es + (if gs == [] && k > 0 then [GasExport(globals)] else [])
        invariant error.None?
      {
        MaybeAddImports();
        if globalSection == [] {
          AddGlobals();
        }
        error := NextBody(input, k, cs);
        if error.Some? { return; }
        EmittedBodiesAppend(globals, input, analysis, cs, k);
      }
    }

    /** One body: its type index is taken from those left, then it is transformed. */
    method NextBody(input: Input, k: nat, ghost cs: seq<Code>) returns (error: Option<Error>)
      requires types == input.types && k < |input.bodies| == |cs| && |code| == k
      requires functionTypes == RestOf(input.functions, k)
      requires forall j :: 0 <= j < |types| ==> types[j].params < U32_LIMIT
      requires k < |analysis| ==> WellAnalysed(input.bodies[k], analysis[k], cs[k])
      modifies this`functionTypes, this`code
      ensures error.None? <==> BodyFits(input, analysis, k)
      ensures error.None? ==> HasType(input, analysis, k)
      ensures error.None? ==> functionTypes == RestOf(input.functions, k + 1)
      ensures error.None? ==> code == old(code) + [EntryAt(globals, input, analysis, cs, k)]
    {
      hide Emittable, EmittedFor, WellAnalysed, LocalCount;
      if functionTypes == [] { return Some(InsufficientFunctionTypes); }
      var typeIndex := functionTypes[0];
      functionTypes := functionTypes[1..];
      error := TransformCodeSection(input.bodies[k], typeIndex, cs[k]);
    }

    /** The sections that fix the types and the function and global index spaces. */
    method ReadIndexSpaces(input: Input) returns (error: Option<Error>)
      requires Empty()
      modifies this
      ensures error.None? <==> GlobalsFit(input)
      ensures types == input.types
      ensures error.None? ==> functions == functionTypes == input.functions && elements == [] && code == []
      ensures error.None? ==> imports == if input.imports.Some? then HOOK_IMPORTS + Imports(input) else []
      ensures error.None? ==> globals == GlobalImports(Imports(input)) + |Defs(input)|
      ensures error.None? ==>
        globalSection == if input.globalDefs.Some? then Originals(Defs(input)) + ADDED_GLOBALS else []
      ensures error.None? ==> exports == if input.globalDefs.Some? then [GasExport(globals)] else []
    {
      hide Originals, GlobalImports, HOOK_IMPORTS;
      AbsentSections();
      types := input.types;
      if input.imports.Some? {
        error := ReadImports(input.imports.value);
        if error.Some? { return; }
      }
      functions, functionTypes := input.functions, input.functions;
      error := None;
      if input.globalDefs.Some? {
        error := ReadGlobals(input.globalDefs.value);
      }
    }

    /** `run`: the payloads in the order the binary format fixes. */
    method Run(input: Input, ghost cs: seq<Code>) returns (error: Option<Error>)
      requires Empty() && |cs| == |input.bodies|
      requires forall k :: 0 <= k < |input.types| ==> input.types[k].params < U32_LIMIT
      requires forall k :: 0 <= k < |cs| && k < |analysis| ==> WellAnalysed(input.bodies[k], analysis[k], cs[k])
      requires forall k :: 0 <= k < |input.exports| ==> input.exports[k].Export?
      modifies this
      ensures error.None? <==> InputFits(input, analysis)
      ensures error.None? ==> Complete(input, cs)
    {
      hide ShiftExports, ShiftElements, Originals, GlobalImports, WellAnalysed, ExportFits, ElementFits, BodyFits,
           HOOK_IMPORTS, GlobalsFit, EmittedFor;
      AbsentSections();
      error := ReadIndexSpaces(input);
      if error.Some? { return; }
      error := ReadExports(input.exports);
      if error.Some? { return; }
      if input.start.Some? {
        if input.start.value + F >= U32_LIMIT {
          return Some(IndexOverflow);
        }
        exports := exports + [StartExport(input.start.value + F)];
      }
      error := ReadElements(input.elements);
      if error.Some? { return; }
      error := ReadCode(input, cs);
    }

    /** What the finished context holds, in terms of the input module. */
    ghost predicate Complete(input: Input, cs: seq<Code>)
      reads this
    {
      && |cs| == |input.bodies|
      && (forall k :: 0 <= k < |input.exports| ==> input.exports[k].Export?)
      && (forall k :: 0 <= k < |input.bodies| ==> HasType(input, analysis, k))
      && types == input.types && functions == input.functions
      && globals == GlobalImports(Imports(input)) + |Defs(input)|
      && (input.imports.Some? || input.bodies != [] ==> imports == HOOK_IMPORTS + Imports(input))
      && (input.globalDefs.Some? || input.bodies != [] ==>
            globalSection == Originals(Defs(input)) + ADDED_GLOBALS)
      && exports == (if input.globalDefs.Some? then [GasExport(globals)] else [])
                    + ShiftExports(input.exports)
                    + (if input.start.Some? then [StartExport(input.start.value + F)] else [])
                    + (if input.globalDefs.None? && input.bodies != [] then [GasExport(globals)] else [])
      && elements == ShiftElements(input.elements)
      && code == EmittedBodies(globals, input, analysis, cs, |cs|)
    }
  }
}
