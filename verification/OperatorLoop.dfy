/** The loop of the pass over one function's operators, and when it reports an error. */
module OperatorLoop {
  import opened Words
  import opened Wasm
  import opened Wrappers
  import opened Instrument
  import opened Emission

  const U32_LIMIT: nat := 0x1_0000_0000

  datatype Error =
    | IndexOverflow | Misconfigured | MissingAnalysis | InsufficientFunctionTypes | InvalidTypeIndex
    | TooManyGlobals | TooManyLocals

  // ----- The points of one position -----

  predicate Sorted(ps: seq<Point>)
  {
    forall i, j :: 0 <= i < j < |ps| ==> ps[i].offset <= ps[j].offset
  }

  lemma {:induction false} AtNothing(ps: seq<Point>, pos: nat)
    requires forall k :: 0 <= k < |ps| ==> ps[k].offset != pos
    ensures At(ps, pos) == []
  {
    if ps != [] { AtNothing(ps[1..], pos); }
  }

  /** Points already passed contribute nothing. */
  lemma {:induction false} AtSuffix(ps: seq<Point>, q: nat, pos: nat)
    requires q <= |ps| && forall k :: 0 <= k < q ==> ps[k].offset != pos
    ensures At(ps, pos) == At(ps[q..], pos)
  {
    if q > 0 {
      AtSuffix(ps[1..], q - 1, pos);
      assert ps[1..][q - 1..] == ps[q..];
    } else {
      assert ps[0..] == ps;
    }
  }

  // ----- What can be emitted -----

  /** A linear fee is allowed on aggregate operations only, and needs a second scratch local. */
  predicate ChargeFits(locals: nat, p: Point)
  {
    p.kind.UnreachableKind? || p.fee.linear == 0 || (p.kind.AggregateKind? && locals + 1 < U32_LIMIT)
  }

  /** The shifted function index still fits 32 bits. */
  predicate ShiftFits(op: Op)
  {
    op.OpFlat? && (op.i.RefFunc? || op.i.Call? || op.i.ReturnCall?) ==> op.i.f + F < U32_LIMIT
  }

  ghost predicate Emittable(locals: nat, points: seq<Point>, ops: seq<Op>)
  {
    && (forall k :: 0 <= k < |points| ==> ChargeFits(locals, points[k]))
    && (forall k :: 0 <= k < |ops| ==> ShiftFits(ops[k]))
  }

  // ----- The loops -----

  method BuildPrologue(x: Instrument.Context, results: nat, entryFee: u64) returns (sink: seq<Op>)
    ensures sink == Prologue(x, results, entryFee)
  {
    hide Flatten, PointCode, Reserve;
    if x.charge > 0 {
      sink := [OpBlock(0, results)];
      sink := sink + Flatten(Reserve(x.globals, x.charge));
      sink := sink + Flatten(PointCode(x.globals, x.locals, Point(0, Fee(0, entryFee), OtherKind)));
    } else {
      sink := [OpFlat(Call(STACK_EXHAUSTED_FN)), OpFlat(Unreachable), OpEnd];
    }
  }

  /** The charges before one position, from the points not yet passed. */
  method EmitCharges(x: Instrument.Context, q0: nat, pos: nat, sink0: seq<Op>)
    returns (q: nat, sink: seq<Op>, error: Option<Error>)
    requires q0 <= |x.points| && Sorted(x.points)
    requires forall k :: 0 <= k < q0 ==> x.points[k].offset < pos
    requires forall k :: q0 <= k < |x.points| ==> x.points[k].offset >= pos
    ensures q0 <= q <= |x.points|
    ensures error.None? ==> sink == sink0 + Flatten(Charges(x, pos))
    ensures error.None? ==> forall k :: 0 <= k < q ==> x.points[k].offset <= pos
    ensures error.None? ==> forall k :: q <= k < |x.points| ==> x.points[k].offset > pos
    ensures error.None? ==> forall k :: q0 <= k < q ==> ChargeFits(x.locals, x.points[k])
    ensures error.Some? ==> exists k :: 0 <= k < |x.points| && !ChargeFits(x.locals, x.points[k])
  {
    hide *;
    q, sink, error := q0, sink0, None;
    LeftAtStart(x, q, pos);
    while q < |x.points| && x.points[q].offset == pos
      invariant q0 <= q <= |x.points|
      invariant forall k :: q0 <= k < q ==> x.points[k].offset == pos && ChargeFits(x.locals, x.points[k])
      invariant sink + Left(x, q, pos) == sink0 + Flatten(Charges(x, pos))
    {
      var p := x.points[q];
      if !ChargeFits(x.locals, p) {
        return q, sink, Some(if p.kind.AggregateKind? then TooManyLocals else Misconfigured);
      }
      LeftStep(x, q, pos, sink);
      if !p.kind.UnreachableKind? {
        sink := sink + Flatten(PointCode(x.globals, x.locals, p));
      }
      q := q + 1;
    }
    LaterPoints(x, q, pos);
    LeftNothing(x, q, pos, sink);
  }

  /** The charges still to be emitted before a position, from the q-th point on. */
  function Left(x: Instrument.Context, q: nat, pos: nat): seq<Op>
    requires q <= |x.points|
  {
    Flatten(PointsCode(x.globals, x.locals, At(x.points[q..], pos)))
  }

  lemma LeftAtStart(x: Instrument.Context, q: nat, pos: nat)
    requires q <= |x.points| && forall k :: 0 <= k < q ==> x.points[k].offset < pos
    ensures Left(x, q, pos) == Flatten(Charges(x, pos))
  {
    hide Flatten, PointsCode, At;
    AtSuffix(x.points, q, pos);
  }

  lemma LeftStep(x: Instrument.Context, q: nat, pos: nat, sink: seq<Op>)
    requires q < |x.points| && x.points[q].offset == pos
    ensures var p := x.points[q];
      sink + Left(x, q, pos) ==
        sink + (if p.kind.UnreachableKind? then [] else Flatten(PointCode(x.globals, x.locals, p)))
             + Left(x, q + 1, pos)
  {
    hide Flatten, PointCode, PointsCode, At;
    PeelPoint(x.globals, x.locals, x.points[q..], pos);
    assert x.points[q..][1..] == x.points[q + 1..];
  }

  lemma LaterPoints(x: Instrument.Context, q: nat, pos: nat)
    requires Sorted(x.points) && q <= |x.points| && (q < |x.points| ==> x.points[q].offset > pos)
    ensures forall k :: q <= k < |x.points| ==> x.points[k].offset > pos
  {}

  lemma LeftNothing(x: Instrument.Context, q: nat, pos: nat, sink: seq<Op>)
    requires q <= |x.points| && forall k :: q <= k < |x.points| ==> x.points[k].offset > pos
    ensures sink + Left(x, q, pos) == sink
  {
    hide Flatten, PointsCode, At;
    AtNothing(x.points[q..], pos);
    NothingEmitted(x.globals, x.locals);
  }

  /** The loop over the operators: charges, then the operator, the last one closing the wrapping block. */
  method EmitOperators(x: Instrument.Context, ops: seq<Op>, start: seq<Op>)
    returns (sink: seq<Op>, error: Option<Error>)
    requires |ops| > 0 && Sorted(x.points) && forall k :: 0 <= k < |x.points| ==> x.points[k].offset < |ops|
    ensures error.None? <==> Emittable(x.locals, x.points, ops)
    ensures error.None? ==>
      sink == start + Emit(x, ops[..|ops| - 1], 0) + Flatten(Charges(x, |ops| - 1)) + EmitLast(x)
  {
    hide Flatten, Emit, EmitOp, EmitLast, Charges, ChargeFits, ShiftFits;
    var n := |ops| - 1;
    sink, error := start, None;
    var q, pos := 0, 0;
    NothingYet(x, ops, start);
    while pos < |ops|
      invariant pos <= |ops| && q <= |x.points|
      invariant forall k :: 0 <= k < q ==> x.points[k].offset < pos && ChargeFits(x.locals, x.points[k])
      invariant forall k :: q <= k < |x.points| ==> x.points[k].offset >= pos
      invariant forall k :: 0 <= k < pos ==> ShiftFits(ops[k])
      invariant sink == start + (if pos <= n then Emit(x, ops[..pos], 0)
                                 else Emit(x, ops[..n], 0) + Flatten(Charges(x, n)) + EmitLast(x))
    {
      var op := ops[pos];
      var q', sink', bad := EmitCharges(x, q, pos, sink);
      if bad.Some? {
        return sink, bad;
      }
      if !ShiftFits(op) {
        return sink, Some(IndexOverflow);
      }
      q := q';
      if pos == n {
        sink := sink' + EmitLast(x);
      } else {
        sink := sink' + EmitOp(x, op);
        EmitNext(x, ops, pos);
      }
      pos := pos + 1;
    }
  }

  lemma NothingYet(x: Instrument.Context, ops: seq<Op>, start: seq<Op>)
    ensures start == start + Emit(x, ops[..0], 0)
  {
    assert ops[..0] == [];
  }

  lemma EmitNext(x: Instrument.Context, ops: seq<Op>, pos: nat)
    requires pos < |ops|
    ensures Emit(x, ops[..pos + 1], 0) == Emit(x, ops[..pos], 0) + (Flatten(Charges(x, pos)) + EmitOp(x, ops[pos]))
  {
    hide Emit, EmitOp, Charges, Flatten;
    assert ops[..pos + 1] == ops[..pos] + [ops[pos]];
    EmitConcat(x, ops[..pos], [ops[pos]], 0);
    EmitOne(x, ops[pos], pos);
  }

  /** The first of the remaining points of a position; an unreachable one emits nothing. */
  lemma PeelPoint(g: nat, l: nat, ps: seq<Point>, pos: nat)
    requires ps != [] && ps[0].offset == pos
    ensures Flatten(PointsCode(g, l, At(ps, pos))) ==
            (if ps[0].kind.UnreachableKind? then [] else Flatten(PointCode(g, l, ps[0])))
              + Flatten(PointsCode(g, l, At(ps[1..], pos)))
  {
    var rest := At(ps[1..], pos);
    assert At(ps, pos)[1..] == rest;
    FlattenAppend(PointCode(g, l, ps[0]), PointsCode(g, l, rest));
    hide PointsCode;
  }

  lemma NothingEmitted(g: nat, l: nat)
    ensures Flatten(PointsCode(g, l, [])) == []
  {
  }
}
