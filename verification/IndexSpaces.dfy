/** What the indices of the finished sections stand for: every name, start function and table entry still reaches the
    function it reached before the pass, and the two globals it adds lie behind the original ones. */
module IndexSpaces {
  import opened Wasm
  import opened Instrument
  import opened Emission
  import opened OperatorLoop
  import opened InstrumentContext
  import opened InstrumentedModule

  // ----- The function index space -----

  predicate NoHooks(ims: seq<Import>) { forall k :: 0 <= k < |ims| ==> !ims[k].HookImport? }

  function FuncImportsOf(ims: seq<Import>): set<nat> { set k: nat | k < |ims| && ims[k].FuncImport? }

  function GlobalImportsOf(ims: seq<Import>): set<nat> { set k: nat | k < |ims| && ims[k].GlobalImport? }

  lemma {:induction false} FuncImportsCount(ims: seq<Import>)
    ensures FuncImports(ims) == |FuncImportsOf(ims)|
  {
    if ims != [] {
      FuncImportsCount(ims[1..]);
      FirstImport(ims);
      hide FuncImportsOf;
      var up := FuncImportsOf(ims) - {0};
      SameSize(FuncImportsOf(ims[1..]), up);
      WithoutZero(FuncImportsOf(ims));
    } else {
      assert FuncImportsOf(ims) == {};
    }
  }

  lemma WithoutZero(s: set<nat>)
    ensures |s| == |s - {0}| + if 0 in s then 1 else 0
  {
    if 0 in s { assert s == s - {0} + {0}; } else { assert s == s - {0}; }
  }

  lemma FirstImport(ims: seq<Import>)
    requires ims != []
    ensures 0 in FuncImportsOf(ims) <==> ims[0].FuncImport?
    ensures forall k: nat :: k in FuncImportsOf(ims) - {0} <==> k > 0 && k - 1 in FuncImportsOf(ims[1..])
  {}

  lemma {:induction false} SameSize(s: set<nat>, up: set<nat>)
    requires forall k: nat :: k in up <==> k > 0 && k - 1 in s
    ensures |up| == |s|
  {
    if s == {} {
      assert up == {};
    } else {
      var x :| x in s;
      assert x + 1 in up;
      SameSize(s - {x}, up - {x + 1});
    }
  }

  lemma {:induction false} GlobalImportsCount(ims: seq<Import>)
    ensures GlobalImports(ims) == |GlobalImportsOf(ims)|
  {
    if ims == [] {
      assert GlobalImportsOf(ims) == {};
    } else {
      var (front, n) := (ims[..|ims| - 1], |ims| - 1);
      GlobalImportsCount(front);
      assert GlobalImportsOf(ims) == GlobalImportsOf(front) + if ims[n].GlobalImport? then {n as nat} else {};
    }
  }

  /** Imported functions are numbered as they come. */
  lemma {:induction false} ImportsInOrder(ims: seq<Import>, next: nat)
    requires NoHooks(ims)
    ensures |ImportSpace(ims, next)| == FuncImports(ims)
    ensures forall f :: 0 <= f < FuncImports(ims) ==> ImportSpace(ims, next)[f] == Fn(next + f)
    decreases |ims|
  {
    if ims != [] {
      ImportsInOrder(ims[1..], next + if ims[0].FuncImport? then 1 else 0);
    }
  }

  /** The n functions of a module, by number. */
  predicate Numbered(index: seq<Addr>, n: nat)
  {
    |index| == n && forall f :: 0 <= f < n ==> index[f] == Fn(f)
  }

  /** Before the pass an index is the number of its function; after it, the hooks come first. */
  lemma SpacesAre(ctx: InstrumentContext.Context, input: Input, cs: seq<Code>, hosts: seq<Func>)
    requires ctx.Complete(input, cs) && ValidInput(input, cs, hosts) && NoHooks(Imports(input))
    ensures |hosts| == |FuncImportsOf(Imports(input))|
    ensures Numbered(Denoted(input, ctx.analysis, cs, hosts).index, |hosts| + |cs|)
    ensures var space := ImportSpace(ctx.imports, 0) + Defined(|ctx.functions|, |hosts|);
      && |space| == 3 + |hosts| + |cs|
      && space[0] == HookFn(GasExhausted) && space[1] == HookFn(StackExhausted) && space[2] == HookFn(GasReport)
      && Numbered(space[3..], |hosts| + |cs|)
  {
    hide GlobalImports, ShiftExports, ShiftElements, EmittedBodies, Originals, Guests, HOOK_IMPORTS, ADDED_GLOBALS;
    FuncImportsCount(Imports(input));
    ImportsInOrder(Imports(input), 0);
    HooksInFront(Imports(input));
    var space := ImportSpace(ctx.imports, 0) + Defined(|ctx.functions|, |hosts|);
    assert space[3..] == ImportSpace(Imports(input), 0) + Defined(|cs|, |hosts|);
  }

  /** Index j of one space reaches what index i of another does, or neither reaches anything. */
  predicate Reaches(space: seq<Addr>, i: nat, space': seq<Addr>, j: nat)
  {
    (i < |space| <==> j < |space'|) && (i < |space| && j < |space'| ==> space[i] == space'[j])
  }

  lemma ThreeUp(space: seq<Addr>, space': seq<Addr>, i: nat)
    requires space' == HOOKS + space
    ensures Reaches(space, i, space', i + 3)
  {}

  lemma IndexBehindHooks(ctx: InstrumentContext.Context, input: Input, cs: seq<Code>, hosts: seq<Func>, m': Module)
    requires ctx.Complete(input, cs) && ValidInput(input, cs, hosts) && Denotes(ctx, hosts, m')
    ensures m'.index == HOOKS + Denoted(input, ctx.analysis, cs, hosts).index
  {
    hide ImportSpace, EntryDenotes, Guests, EmittedBodies, Originals, GlobalImports, ShiftExports, ShiftElements,
         HOOK_IMPORTS, ADDED_GLOBALS;
    HooksInFront(Imports(input));
  }

  // ----- Exports, the start function and the elements -----

  /** An export keeps its name and its kind; a function export reaches the function it named. */
  predicate SameExport(space: seq<Addr>, e: Export, space': seq<Addr>, e': Export)
  {
    && e.Export? && e'.Export? && e'.name == e.name && e'.kind == e.kind
    && if e.kind.FuncExport? then Reaches(space, e.index, space', e'.index) else e'.index == e.index
  }

  /**
   * The finished exports are the original ones in order, then the start function if there is one, with the export of
   * the gas global before or behind them. Whatever module the sections denote, each reaches what it reached.
   */
  lemma ExportsReach(ctx: InstrumentContext.Context, input: Input, cs: seq<Code>, hosts: seq<Func>, m': Module)
    requires ctx.Complete(input, cs) && ValidInput(input, cs, hosts) && Denotes(ctx, hosts, m')
    ensures var index := Denoted(input, ctx.analysis, cs, hosts).index;
      var (n, first) := (|input.exports|, if input.globalDefs.Some? then 1 else 0);
      && |ctx.exports| == n + (if input.start.Some? then 2 else 1)
      && ctx.exports[if input.globalDefs.Some? then 0 else |ctx.exports| - 1] == GasExport(ctx.globals)
      && (forall k :: 0 <= k < n ==> SameExport(index, input.exports[k], m'.index, ctx.exports[first + k]))
      && (input.start.Some? ==>
            ctx.exports[first + n].StartExport? &&
            Reaches(index, input.start.value, m'.index, ctx.exports[first + n].index))
  {
    hide *;
    TypesPresent(ctx, input, cs, hosts);
    var index := Denoted(input, ctx.analysis, cs, hosts).index;
    IndexBehindHooks(ctx, input, cs, hosts, m');
    ExportList(ctx, input, cs);
    var first := if input.globalDefs.Some? then 1 else 0;
    forall k | 0 <= k < |input.exports| ensures SameExport(index, input.exports[k], m'.index, ctx.exports[first + k]) {
      ExportKept(index, input.exports[k], m'.index);
    }
    if input.start.Some? { ThreeUp(index, m'.index, input.start.value); }
  }

  lemma TypesPresent(ctx: InstrumentContext.Context, input: Input, cs: seq<Code>, hosts: seq<Func>)
    requires ctx.Complete(input, cs) && ValidInput(input, cs, hosts)
    ensures cs != [] && forall k :: 0 <= k < |cs| ==> HasType(input, ctx.analysis, k)
  {
    hide HasType, ShiftExports, EmittedBodies, Originals, GlobalImports, ShiftElements, HOOK_IMPORTS, ADDED_GLOBALS;
  }

  lemma ExportList(ctx: InstrumentContext.Context, input: Input, cs: seq<Code>)
    requires ctx.Complete(input, cs)
    ensures var (n, first) := (|input.exports|, if input.globalDefs.Some? then 1 else 0);
      && |input.bodies| == |cs| && (forall k :: 0 <= k < n ==> input.exports[k].Export?)
      && (cs != [] ==>
        && |ctx.exports| == n + (if input.start.Some? then 2 else 1)
        && ctx.exports[if input.globalDefs.Some? then 0 else |ctx.exports| - 1] == GasExport(ctx.globals)
        && (forall k :: 0 <= k < n ==> ctx.exports[first + k] == ShiftExport(input.exports[k]))
        && (input.start.Some? ==> ctx.exports[first + n] == StartExport(input.start.value + 3)))
  {
    hide ShiftExport, EmittedBodies, Originals, GlobalImports, ShiftElements, HOOK_IMPORTS, ADDED_GLOBALS;
  }

  lemma ExportKept(space: seq<Addr>, e: Export, space': seq<Addr>)
    requires space' == HOOKS + space && e.Export?
    ensures SameExport(space, e, space', ShiftExport(e))
  {
    hide Reaches;
    ThreeUp(space, space', e.index);
  }

  /** Every table entry reaches the function it reached. */
  lemma ElementsReach(ctx: InstrumentContext.Context, input: Input, cs: seq<Code>, hosts: seq<Func>, m': Module)
    requires ctx.Complete(input, cs) && ValidInput(input, cs, hosts) && Denotes(ctx, hosts, m')
    ensures |ctx.elements| == |input.elements|
    ensures var index := Denoted(input, ctx.analysis, cs, hosts).index;
      forall k :: 0 <= k < |input.elements| ==>
        && |ctx.elements[k]| == |input.elements[k]|
        && forall j :: 0 <= j < |input.elements[k]| ==>
             Reaches(index, input.elements[k][j], m'.index, ctx.elements[k][j])
  {
    var index := Denoted(input, ctx.analysis, cs, hosts).index;
    IndexBehindHooks(ctx, input, cs, hosts, m');
    hide Denotes, Denoted, Reaches, EmittedBodies, Originals, GlobalImports, ShiftExports, HOOK_IMPORTS, ADDED_GLOBALS;
    forall k, j | 0 <= k < |input.elements| && 0 <= j < |input.elements[k]|
      ensures |ctx.elements[k]| == |input.elements[k]|
      ensures Reaches(index, input.elements[k][j], m'.index, ctx.elements[k][j])
    {
      ThreeUp(index, m'.index, input.elements[k][j]);
    }
  }

  // ----- Globals and locals -----

  /** The original globals keep their places; the exported gas global and the budget behind it are the added ones. */
  lemma GlobalsBehind(ctx: InstrumentContext.Context, input: Input, cs: seq<Code>)
    requires ctx.Complete(input, cs) && cs != []
    ensures var imported := |GlobalImportsOf(Imports(input))|;
      && |ctx.globalSection| == |Defs(input)| + 2 && ctx.globals == imported + |Defs(input)|
      && (forall k :: 0 <= k < |Defs(input)| ==> ctx.globalSection[k] == OriginalGlobal(Defs(input)[k]))
      && ctx.globalSection[ctx.globals - imported] == AddedGlobal(0)
      && ctx.globalSection[ctx.globals + 1 - imported] == AddedGlobal(262_144)
  {
    hide ShiftExports, ShiftElements, EmittedBodies;
    GlobalImportsCount(Imports(input));
  }

  /** Run by run, each local starts at the value its run declares. */
  lemma {:induction false} LocalsExpand(locals: seq<Run>, k: nat, i: nat)
    requires k < |locals| && i < locals[k].count
    ensures LocalCount(locals[..0]) == 0 && LocalCount(locals[..k + 1]) == LocalCount(locals[..k]) + locals[k].count
    ensures LocalCount(locals[..k]) + i < |Expanded(locals)| == LocalCount(locals)
    ensures Expanded(locals)[LocalCount(locals[..k]) + i] == locals[k].init
  {
    var front := locals[..|locals| - 1];
    assert locals[..k + 1][..k] == locals[..k];
    LocalCountGrows(locals, k + 1);
    if k < |front| {
      LocalsExpand(front, k, i);
      assert front[..k] == locals[..k];
    } else {
      assert front == locals[..k];
    }
  }

  // ----- When the pass succeeds -----

  predicate Fits32(x: nat) { x <= 0xFFFF_FFFF }

  /** An operator that names a function by its index. */
  predicate NamesFunction(op: Op) { op.OpFlat? && (op.i.RefFunc? || op.i.Call? || op.i.ReturnCall?) }

  /** The indices the pass may write down are exactly those that fit 32 bits. */
  lemma IndicesFit(x: Instrument.Context, e: Export, element: seq<nat>, op: Op)
    requires e.Export?
    ensures ExportFits(e) <==> (e.kind.FuncExport? ==> Fits32(ShiftExport(e).index))
    ensures ElementFits(element) <==> forall j :: 0 <= j < |element| ==> Fits32(ShiftElement(element)[j])
    ensures ShiftFits(op) <==> (NamesFunction(op) ==> Fits32(EmitOp(x, op)[|EmitOp(x, op)| - 1].i.f))
  {
    assert forall j :: 0 <= j < |element| ==> ShiftElement(element)[j] == element[j] + 3;
  }

  /** A linear fee is only ever emitted before an aggregate operation, with both scratch locals in range. */
  lemma ChargesFit(locals: nat, p: Point)
    ensures ChargeFits(locals, p) <==>
      (PointCode(0, locals, p).Cons? && p.fee.linear != 0 ==> p.kind == AggregateKind && Fits32(locals + 1))
  {}

  /** The pass succeeds exactly when everything it has to write down or look up is there. */
  lemma SucceedsIff(input: Input, an: seq<Analysis>)
    requires forall k :: 0 <= k < |input.exports| ==> input.exports[k].Export?
    ensures InputFits(input, an) <==>
      && Fits32(|GlobalImportsOf(Imports(input))| + (if input.globalDefs.Some? then |Defs(input)| + 2 else 0))
      && (forall k :: 0 <= k < |input.exports| ==> ExportFits(input.exports[k]))
      && (input.start.Some? ==> Fits32(input.start.value + 3))
      && (forall k :: 0 <= k < |input.elements| ==> ElementFits(input.elements[k]))
      && (forall k :: 0 <= k < |input.bodies| ==> BodyComplete(input, an, k))
  {
    hide ExportFits, ElementFits, BodyFits, Emittable, LocalCount, GlobalImports;
    GlobalImportsCount(Imports(input));
    forall k: nat | k < |input.bodies| ensures BodyFits(input, an, k) <==> BodyComplete(input, an, k) {
      BodyFitsIff(input, an, k);
    }
  }

  ghost predicate BodyComplete(input: Input, an: seq<Analysis>, k: nat)
  {
    && k < |an| && k < |input.bodies| && k < |input.functions| && input.functions[k] < |input.types|
    && var locals := input.types[input.functions[k]].params + LocalCount(input.bodies[k].locals);
       Fits32(locals) && Emittable(locals, an[k].points, input.bodies[k].ops)
  }

  lemma BodyFitsIff(input: Input, an: seq<Analysis>, k: nat)
    requires k < |input.bodies|
    ensures BodyFits(input, an, k) <==> BodyComplete(input, an, k)
  {
    hide Emittable, LocalCount;
  }
}
