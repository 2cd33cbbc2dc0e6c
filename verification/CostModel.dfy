/**
 * The cost configuration the pass hands to the analysis: operator fees and frame sizes. Under it no linear fee wraps,
 * and a stack charge can be zero only with an operand stack of almost 2^64 bytes.
 */
module CostModel {
  import opened Words
  import opened Instrument
  import opened Emission
  import opened Erasure

  // ----- Operator fees -----

  /** `GasCosts`: blocks, ends and elses are free, bulk operators pay by length, all others alike. */
  function OperatorFee(op: Op): Fee
  {
    match op
    case OpBlock(_, _) => Fee(0, 0)
    case OpEnd => Fee(0, 0)
    case OpElse => Fee(0, 0)
    case OpFlat(Bulk(_)) => Fee(LINEAR_OP_UNIT_COST as u64, LINEAR_OP_BASE_COST as u64)
    case _ => Fee(0, REGULAR_OP_COST as u64)
  }

  function LinearSum(ops: seq<Op>): nat
  {
    if ops == [] then 0 else LinearSum(ops[..|ops| - 1]) + OperatorFee(ops[|ops| - 1]).linear as nat
  }

  function ConstantSum(ops: seq<Op>): nat
  {
    if ops == [] then 0 else ConstantSum(ops[..|ops| - 1]) + OperatorFee(ops[|ops| - 1]).constant as nat
  }

  function BulkCount(ops: seq<Op>): nat
  {
    if ops == [] then 0
    else BulkCount(ops[..|ops| - 1]) + if ops[|ops| - 1].OpFlat? && ops[|ops| - 1].i.Bulk? then 1 else 0
  }

  lemma {:induction false} SumsBounded(ops: seq<Op>)
    ensures LinearSum(ops) == BulkCount(ops) * LINEAR_OP_UNIT_COST
    ensures ConstantSum(ops) <= |ops| * REGULAR_OP_COST + BulkCount(ops) * LINEAR_OP_BASE_COST
  {
    if ops != [] {
      SumsBounded(ops[..|ops| - 1]);
    }
  }

  /** A point charging for fewer than 2^40 operators, at most one of them a bulk one, cannot wrap for any length. */
  lemma CostModelNoWrap(ops: seq<Op>, fee: Fee)
    requires |ops| < 0x100_0000_0000 && BulkCount(ops) <= 1
    requires fee.linear as nat == LinearSum(ops) && fee.constant as nat == ConstantSum(ops)
    ensures NoWrap(fee)
  {
    SumsBounded(ops);
  }

  /** The sums of so few operators fit the 64-bit fields of a fee. */
  lemma SumsFit(ops: seq<Op>)
    requires |ops| < 0x100_0000_0000 && BulkCount(ops) <= 1
    ensures LinearSum(ops) < W && ConstantSum(ops) < W
  {
    SumsBounded(ops);
  }

  // ----- Frame sizes -----

  datatype ValType = I32Type | F32Type | I64Type | F64Type | V128Type | RefType

  function SizeOfValue(ty: ValType): nat
  {
    match ty
    case I32Type => 4
    case F32Type => 4
    case I64Type => 8
    case F64Type => 8
    case V128Type => 16
    case RefType => 8
  }

  /** Runs of locals: the index of the last local of each run, and the run's type. */
  type Runs = seq<(u32, ValType)>

  predicate Ascending(locals: Runs)
  {
    forall i, j :: 0 <= i < j < |locals| ==> locals[i].0 < locals[j].0
  }

  function LocalCount(locals: Runs): nat
  {
    if locals == [] then 0 else locals[|locals| - 1].0 as nat + 1
  }

  /** 64 bytes of activation record and the size of every local. */
  function FrameSize(locals: Runs): nat
    requires Ascending(locals)
  {
    if locals == [] then 64 else
      var front, last := locals[..|locals| - 1], locals[|locals| - 1];
      FrameSize(front) + (last.0 as nat + 1 - LocalCount(front)) * SizeOfValue(last.1)
  }

  /** A frame is never empty and has at most sixteen bytes per local. */
  lemma {:induction false} FrameBounds(locals: Runs)
    requires Ascending(locals)
    ensures 64 <= FrameSize(locals) <= 64 + 16 * LocalCount(locals)
  {
    if locals != [] {
      var front, last := locals[..|locals| - 1], locals[|locals| - 1];
      FrameBounds(front);
      SizeOfRun(last.0 as nat + 1 - LocalCount(front), SizeOfValue(last.1));
    }
  }

  lemma SizeOfRun(n: nat, size: nat)
    requires size <= 16
    ensures 0 <= n * size <= 16 * n
  {
  }

  /** `size_of_function_activation`: the loop over the runs; nothing saturates. */
  method SizeOfFunctionActivation(locals: Runs) returns (res: u64)
    requires Ascending(locals)
    ensures res as nat == FrameSize(locals)
  {
    res := 64;
    var last: u64 := 0;
    for k := 0 to |locals|
      invariant res as nat == FrameSize(locals[..k]) && last as nat == LocalCount(locals[..k])
    {
      var (idx, ty) := locals[k];
      assert locals[..k + 1][..k] == locals[..k];
      var count := idx as int - last as int + 1;
      SizeOfRun(count, SizeOfValue(ty));
      FrameBounds(locals[..k]);
      var added := Saturated(res as nat + Saturated(count * SizeOfValue(ty)) as nat);
      res := added;
      last := idx as u64 + 1;
    }
    assert locals[..|locals|] == locals;
  }

  /** `saturating_add` and `saturating_mul` on 64 bits. */
  function Saturated(x: nat): u64
  {
    if x < W then x as u64 else (W - 1) as u64
  }

  /** A stack charge is zero exactly when the operand stack alone is within a frame's size of 2^64 bytes. */
  lemma ChargeIsZero(a: Analysis, locals: Runs)
    requires Ascending(locals) && a.frame as nat == FrameSize(locals)
    ensures StackCharge(a) == 0 <==> a.operandStack as int >= W - FrameSize(locals)
    ensures a.operandStack as int < W - 64 - 16 * 0x1_0000_0000 ==> StackCharge(a) > 0
  {
    FrameBounds(locals);
  }

  // ----- Totals -----

  function BulkAt(ops: seq<Op>): set<nat> { set k: nat | k < |ops| && ops[k].OpFlat? && ops[k].i.Bulk? }

  function FreeAt(ops: seq<Op>): set<nat>
  {
    set k: nat | k < |ops| && (ops[k].OpBlock? || ops[k].OpEnd? || ops[k].OpElse?)
  }

  /** What a stretch of operators costs: bulk operators by length on a base, blocks and closings nothing. */
  lemma {:induction false} SumsExact(ops: seq<Op>)
    ensures var (bulk, free) := (|BulkAt(ops)|, |FreeAt(ops)|);
      && bulk + free <= |ops| && BulkCount(ops) == bulk
      && LinearSum(ops) == 822_756 * bulk
      && ConstantSum(ops) == 26_328_192 * bulk + 822_756 * (|ops| - bulk - free)
  {
    if ops == [] {
      assert BulkAt(ops) == {} && FreeAt(ops) == {};
    } else {
      var (front, n) := (ops[..|ops| - 1], |ops| - 1);
      SumsExact(front);
      PositionsGrow(ops);
      FeeIs(ops[n]);
      hide OperatorFee, BulkAt, FreeAt;
    }
  }

  lemma PositionsGrow(ops: seq<Op>)
    requires ops != []
    ensures var (front, op) := (ops[..|ops| - 1], ops[|ops| - 1]);
      && |BulkAt(ops)| == |BulkAt(front)| + (if op.OpFlat? && op.i.Bulk? then 1 else 0)
      && |FreeAt(ops)| == |FreeAt(front)| + (if op.OpBlock? || op.OpEnd? || op.OpElse? then 1 else 0)
  {
    var (front, n) := (ops[..|ops| - 1], |ops| - 1);
    LastPosition(ops);
    hide BulkAt, FreeAt;
    OneMore(BulkAt(front), BulkAt(ops), n, ops[n].OpFlat? && ops[n].i.Bulk?);
    OneMore(FreeAt(front), FreeAt(ops), n, ops[n].OpBlock? || ops[n].OpEnd? || ops[n].OpElse?);
  }

  lemma LastPosition(ops: seq<Op>)
    requires ops != []
    ensures var (front, n, op) := (ops[..|ops| - 1], |ops| - 1, ops[|ops| - 1]);
      && (forall k :: k in BulkAt(front) ==> k < n) && (forall k :: k in FreeAt(front) ==> k < n)
      && (forall k: nat :: k in BulkAt(ops) <==> k in BulkAt(front) || (k == n && op.OpFlat? && op.i.Bulk?))
      && forall k: nat ::
           k in FreeAt(ops) <==> k in FreeAt(front) || (k == n && (op.OpBlock? || op.OpEnd? || op.OpElse?))
  {}

  lemma OneMore(s: set<nat>, s': set<nat>, n: nat, here: bool)
    requires n !in s && forall k: nat :: k in s' <==> k in s || (k == n && here)
    ensures |s'| == |s| + if here then 1 else 0
  {
    if here { assert s' == s + {n}; } else { assert s' == s; }
  }

  lemma FeeIs(op: Op)
    ensures OperatorFee(op).linear as int == if op.OpFlat? && op.i.Bulk? then 822_756 else 0
    ensures OperatorFee(op).constant as int ==
      if op.OpFlat? && op.i.Bulk? then 26_328_192 else if op.OpBlock? || op.OpEnd? || op.OpElse? then 0 else 822_756
  {}

  /** The locals of a run: those above the last of the run before, up to its own last. */
  predicate InRun(locals: Runs, k: nat, i: nat)
  {
    k < |locals| && i <= locals[k].0 as nat && (k > 0 ==> locals[k - 1].0 as nat < i)
  }

  ghost predicate HasTypeIn(locals: Runs, types: set<ValType>, i: nat)
  {
    exists k: nat :: InRun(locals, k, i) && locals[k].1 in types
  }

  /** The locals of some types. */
  ghost function OfTypes(locals: Runs, types: set<ValType>): set<nat>
  {
    set i: nat | i < LocalCount(locals) && HasTypeIn(locals, types, i)
  }

  /** A frame: 64 bytes, and for every local the size of its type. */
  lemma {:induction false} FrameExact(locals: Runs)
    requires Ascending(locals)
    ensures FrameSize(locals) ==
      64 + 4 * |OfTypes(locals, {I32Type, F32Type})| + 8 * |OfTypes(locals, {I64Type, F64Type, RefType})|
         + 16 * |OfTypes(locals, {V128Type})|
  {
    var (small, middle, large) := ({I32Type, F32Type}, {I64Type, F64Type, RefType}, {V128Type});
    if locals == [] {
      assert OfTypes(locals, small) == {} && OfTypes(locals, middle) == {} && OfTypes(locals, large) == {};
    } else {
      FrameExact(locals[..|locals| - 1]);
      LastRun(locals, small);
      LastRun(locals, middle);
      LastRun(locals, large);
      SizeIs(locals[|locals| - 1].1);
      hide OfTypes, SizeOfValue, LocalCount;
    }
  }

  lemma SizeIs(ty: ValType)
    ensures SizeOfValue(ty) ==
      if ty in {I32Type, F32Type} then 4 else if ty in {I64Type, F64Type, RefType} then 8 else 16
    ensures ty in {I32Type, F32Type} || ty in {I64Type, F64Type, RefType} || ty in {V128Type}
  {}

  /** The last run adds its locals to those of its type, and to no others. */
  lemma LastRun(locals: Runs, types: set<ValType>)
    requires locals != [] && Ascending(locals)
    ensures var (front, last) := (locals[..|locals| - 1], locals[|locals| - 1]);
      |OfTypes(locals, types)| ==
        |OfTypes(front, types)| + if last.1 in types then last.0 as nat + 1 - LocalCount(front) else 0
  {
    hide InRun, HasTypeIn;
    var (front, n) := (locals[..|locals| - 1], |locals| - 1);
    var (lo, hi) := (LocalCount(front), LocalCount(locals));
    assert lo <= hi by { LastRunIs(locals, types, 0); }
    forall i: nat
      ensures HasTypeIn(front, types, i) ==> i < lo
      ensures HasTypeIn(locals, types, i) <==> HasTypeIn(front, types, i) || (locals[n].1 in types && lo <= i < hi)
    {
      LastRunIs(locals, types, i);
    }
    RangeSize(lo, hi);
    if locals[n].1 in types {
      assert OfTypes(locals, types) == OfTypes(front, types) + Range(lo, hi);
    } else {
      assert OfTypes(locals, types) == OfTypes(front, types);
    }
  }

  lemma LastRunIs(locals: Runs, types: set<ValType>, i: nat)
    requires locals != [] && Ascending(locals)
    ensures var (front, n) := (locals[..|locals| - 1], |locals| - 1);
      && LocalCount(front) <= LocalCount(locals) == locals[n].0 as nat + 1
      && (HasTypeIn(front, types, i) ==> i < LocalCount(front))
      && (HasTypeIn(locals, types, i) <==>
            (HasTypeIn(front, types, i) || (locals[n].1 in types && LocalCount(front) <= i < LocalCount(locals))))
  {
    var (front, n) := (locals[..|locals| - 1], |locals| - 1);
    if HasTypeIn(front, types, i) {
      var k: nat :| InRun(front, k, i) && front[k].1 in types;
      assert InRun(locals, k, i);
    }
    if locals[n].1 in types && LocalCount(front) <= i < LocalCount(locals) { assert InRun(locals, n, i); }
    if HasTypeIn(locals, types, i) {
      var k: nat :| InRun(locals, k, i) && locals[k].1 in types;
      if k < n { assert InRun(front, k, i); }
    }
  }

  predicate AtLeast(i: nat, lo: nat) { lo <= i }

  function Range(lo: nat, hi: nat): set<nat> { set i: nat | i < hi && AtLeast(i, lo) }

  lemma {:induction false} RangeSize(lo: nat, hi: nat)
    requires lo <= hi
    ensures |Range(lo, hi)| == hi - lo
    decreases hi - lo
  {
    if lo < hi {
      RangeSize(lo + 1, hi);
      assert Range(lo, hi) == {lo} + Range(lo + 1, hi);
    } else {
      assert Range(lo, hi) == {};
    }
  }
}
