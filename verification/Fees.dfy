/** What a run is charged: the amount of every fee, and the fee of its frame as the first a called function pays. */
module Fees {
  import opened Words
  import opened Wasm
  import opened Instrument
  import opened Metered
  import opened Simulation
  import opened Erasure
  import opened CostModel

  // ----- Amounts -----

  /** n words of eight bytes are the fewest that hold so many bytes. */
  predicate FewestWords(n: nat, bytes: nat) { 8 * (n as int - 1) < bytes <= 8 * n }

  /** The entry fee is one regular operation for every eight bytes of frame begun, or 2^64 - 1 if that does not fit. */
  lemma EntryFeeExact(a: Analysis, n: nat)
    requires FewestWords(n, a.frame as nat)
    ensures EntryFee(a) as nat ==
      if n * 822_756 <= 0xFFFF_FFFF_FFFF_FFFF then n * 822_756 else 0xFFFF_FFFF_FFFF_FFFF
  {
    assert n == (a.frame as int + 7) / 8;
  }

  /** No frame of locals saturates the fee. */
  lemma FrameFee(a: Analysis, locals: Runs)
    requires Ascending(locals) && a.frame as nat == FrameSize(locals)
    ensures exists n: nat :: FewestWords(n, FrameSize(locals)) && EntryFee(a) as nat == n * 822_756 > 0
  {
    FrameBounds(locals);
    var n := (FrameSize(locals) + 7) / 8;
    assert FewestWords(n, FrameSize(locals));
    EntryFeeExact(a, n);
  }

  /** A frame holds its operand stack and its locals, or nothing at all if their sum does not fit 64 bits. */
  lemma ChargeExact(a: Analysis)
    ensures var sum := a.operandStack as int + a.frame as int;
      StackCharge(a) as int == if sum <= 0xFFFF_FFFF_FFFF_FFFF then sum else 0
  {}

  /** A state with some gas taken and one more fee paid. */
  function Paying(s: MState, amount: nat, fee: nat): MState
    requires amount <= s.gas as nat
  {
    s.(gas := (s.gas as int - amount) as u64, paid := s.paid + [fee])
  }

  /** Out of gas: nothing is paid, though the call of the hook itself may have been charged. */
  ghost predicate OutOfGas(s: MState, r: Outcome<MState>)
  {
    && r.Trap? && r.why == PrepaidGas && r.st.(gas := s.gas) == s
    && (r.st.gas == s.gas || r.st.gas as int == s.gas as int - 264_768_111)
  }

  /** What a fee comes to for an operation of some length. */
  function Due(fee: Fee, length: u32): nat
  {
    MulLe(0, length as int, fee.linear as int);
    fee.constant as int + length as int * fee.linear as int
  }

  /**
   * A point takes constant + length * linear, modulo 2^64, from the gas; it takes nothing if nothing is due or nothing
   * reaches it, and the run ends where the gas does not cover it.
   */
  lemma PointPrice(s: MState, p: Point, length: u32)
    requires p.fee.linear != 0 ==> s.st.stack != [] && s.st.stack[|s.st.stack| - 1] == I32(length)
    ensures var due := Due(p.fee, length);
      var amount := due % 0x1_0000_0000_0000_0000;
      var r := PayPoint(s, p);
      if p.kind == UnreachableKind || (p.fee.constant == 0 && p.fee.linear == 0) then r == Next(s)
      else if s.gas as nat < amount then OutOfGas(s, r)
      else r == Next(Paying(s, amount, due))
  {
    hide PayConstant, PayLinear, OutOfGas;
    if p.fee.linear == 0 {
      assert Due(p.fee, length) == p.fee.constant as int;
      ConstantPrice(s, p.fee.constant);
    } else {
      LinearPrice(s, p.fee, length);
    }
  }

  lemma ConstantPrice(s: MState, c: u64)
    ensures var r := PayConstant(s, c);
      if s.gas < c then OutOfGas(s, r) else r == Next(Paying(s, c as nat, c as nat))
  {}

  lemma LinearPrice(s: MState, fee: Fee, length: u32)
    requires s.st.stack != [] && s.st.stack[|s.st.stack| - 1] == I32(length)
    ensures var due := Due(fee, length);
      var amount := due % 0x1_0000_0000_0000_0000;
      var r := PayLinear(s, fee);
      if s.gas as nat < amount then OutOfGas(s, r) else r == Next(Paying(s, amount, due))
  {
    hide LinearAmount;
    LinearDue(fee, length);
  }

  lemma LinearDue(fee: Fee, k: u32)
    ensures LinearAmount(fee, k) as int == Due(fee, k) % W
  {
    MulLe(0, k as int, fee.linear as int);
    RemainderSum(k as int * fee.linear as int, fee.constant as int);
  }

  lemma RemainderSum(x: nat, c: nat)
    ensures (x % W + c) % W == (c + x) % W
  {
    var q := x / W;
    assert x == q * W + x % W;
    DropMultiple(q, x % W + c);
  }

  lemma DropMultiple(q: nat, y: nat)
    ensures (q * W + y) % W == y % W
  {
  }

  /** A host call takes 264768111 gas and its own cost, or is refused. Gas of 2^63 or more reads as none. */
  lemma HostPrice(w: World, m: Module, f: Func, s: MState)
    requires f.Host? && Top(s.st.stack, f.params).Some?
    ensures var cost := 264_768_111 + w.hostCost(f.h, Top(s.st.stack, f.params).value, s.st.mem);
      var r := MHost(w, m, f, s);
      if s.gas as int < 0x8000_0000_0000_0000 && cost <= s.gas as int
      then r.st.gas as int == s.gas as int - cost && r.st.paid == s.paid + [cost]
      else r == Trap(PrepaidGas, s)
  {}

  // ----- The points of a position -----

  /** r lists, in order and each once, exactly the points that sit at a position. */
  ghost predicate Selects(points: seq<Point>, pos: nat, r: seq<Point>, at: seq<nat>)
  {
    && |r| == |at|
    && (forall i, j :: 0 <= i < j < |at| ==> at[i] < at[j])
    && (forall i :: 0 <= i < |at| ==> at[i] < |points| && points[at[i]].offset == pos && r[i] == points[at[i]])
    && (forall k :: 0 <= k < |points| && points[k].offset == pos ==> k in at)
  }

  lemma {:induction false} AtSelects(points: seq<Point>, pos: nat)
    ensures exists at :: Selects(points, pos, At(points, pos), at)
  {
    hide *;
    if points == [] {
      AtNowhere(pos);
    } else {
      AtFirst(points, pos);
      AtSelects(points[1..], pos);
      var at :| Selects(points[1..], pos, At(points[1..], pos), at);
      OneMore(points, pos, At(points[1..], pos), at, At(points, pos));
    }
  }

  lemma AtNowhere(pos: nat)
    ensures Selects([], pos, At([], pos), [])
  {}

  lemma OneMore(points: seq<Point>, pos: nat, r: seq<Point>, at: seq<nat>, r': seq<Point>)
    requires points != [] && Selects(points[1..], pos, r, at)
    requires r' == if points[0].offset == pos then [points[0]] + r else r
    ensures exists at' :: Selects(points, pos, r', at')
  {
    SelectsLength(points[1..], pos, r, at);
    hide *;
    var up := seq(|at|, i requires 0 <= i < |at| => at[i] + 1);
    if points[0].offset == pos {
      SelectedFirst(points, pos, r, at, r', [0] + up);
    } else {
      SkippedFirst(points, pos, r, at, up);
    }
  }

  lemma AtFirst(points: seq<Point>, pos: nat)
    requires points != []
    ensures At(points, pos) ==
      if points[0].offset == pos then [points[0]] + At(points[1..], pos) else At(points[1..], pos)
  {}

  lemma SelectsLength(points: seq<Point>, pos: nat, r: seq<Point>, at: seq<nat>)
    requires Selects(points, pos, r, at)
    ensures |r| == |at|
  {}

  lemma SkippedFirst(points: seq<Point>, pos: nat, r: seq<Point>, at: seq<nat>, up: seq<nat>)
    requires points != [] && Selects(points[1..], pos, r, at) && points[0].offset != pos
    requires |up| == |at| && forall i :: 0 <= i < |at| ==> up[i] == at[i] + 1
    ensures Selects(points, pos, r, up)
  {
    forall k | 0 <= k < |points| && points[k].offset == pos ensures k in up {
      assert points[1..][k - 1] == points[k];
      var i :| 0 <= i < |at| && at[i] == k - 1;
      assert up[i] == k;
    }
  }

  lemma SelectedFirst(points: seq<Point>, pos: nat, r: seq<Point>, at: seq<nat>, r': seq<Point>, at': seq<nat>)
    requires points != [] && Selects(points[1..], pos, r, at) && points[0].offset == pos
    requires |r'| == |at'| == |at| + 1 && r'[0] == points[0] && at'[0] == 0
    requires forall i :: 0 <= i < |at| ==> r'[i + 1] == r[i] && at'[i + 1] == at[i] + 1
    ensures Selects(points, pos, r', at')
  {
    forall k | 0 <= k < |points| && points[k].offset == pos ensures k in at' {
      if k > 0 {
        assert points[1..][k - 1] == points[k];
        var i :| 0 <= i < |at| && at[i] == k - 1;
        assert at'[i + 1] == k;
      } else {
        assert at'[0] == 0;
      }
    }
    forall i | 0 <= i < |at'|
      ensures at'[i] < |points| && points[at'[i]].offset == pos && r'[i] == points[at'[i]]
    {
      if i > 0 { assert r'[i - 1 + 1] == r[i - 1] && points[1..][at[i - 1]] == points[at'[i]]; }
    }
    forall i, j | 0 <= i < j < |at'| ensures at'[i] < at'[j] {
      assert at'[j - 1 + 1] == at[j - 1] + 1;
      if i > 0 { assert at'[i - 1 + 1] == at[i - 1] + 1; }
    }
  }

  // ----- Fees are only ever added -----

  lemma LiftPaid(s: MState, o: Outcome<State>)
    ensures Lift(s, o).st.paid == s.paid
  {}

  lemma ExitPaid(o: Outcome<MState>, arity: nat, below: seq<Value>)
    ensures MExitBlock(o, arity, below).st.paid == o.st.paid
  {}

  lemma PointGrows(s: MState, p: Point)
    ensures s.paid <= PayPoint(s, p).st.paid
  {}

  lemma {:induction false} PointsGrow(s: MState, ps: seq<Point>)
    ensures s.paid <= PayPoints(s, ps).st.paid
    decreases |ps|
  {
    hide PayPoint;
    if ps != [] {
      PointGrows(s, ps[0]);
      if PayPoint(s, ps[0]).Next? { PointsGrow(PayPoint(s, ps[0]).st, ps[1..]); }
    }
  }

  lemma {:induction false} CodeGrows(w: World, m: Module, an: seq<Analysis>, x: Context, c: Code, pos: nat, fuel: nat,
                                     s: MState)
    ensures s.paid <= MCode(w, m, an, x, c, pos, fuel, s).st.paid
    decreases fuel, 1, c, 0
  {
    hide MInstr, PayPoints, At, InstrSize;
    if c.Cons? {
      PointsGrow(s, At(x.points, pos));
      var p := Pay(x, pos, s);
      if p.Next? {
        InstrGrows(w, m, an, x, c.head, pos, fuel, p.st);
        var r := MInstr(w, m, an, x, c.head, pos, fuel, p.st);
        if r.Next? { CodeGrows(w, m, an, x, c.tail, pos + InstrSize(c.head), fuel, r.st); }
      }
    }
  }

  lemma {:induction false} BodyGrows(w: World, m: Module, an: seq<Analysis>, x: Context, c: Code, pos: nat, fuel: nat,
                                     s: MState)
    ensures s.paid <= MBody(w, m, an, x, c, pos, fuel, s).st.paid
    decreases fuel, 1, c, 1
  {
    hide MCode, PayPoints, At, Size;
    CodeGrows(w, m, an, x, c, pos, fuel, s);
    var o := MCode(w, m, an, x, c, pos, fuel, s);
    if o.Next? { PointsGrow(o.st, At(x.points, pos + Size(c))); }
  }

  lemma {:induction false} InstrGrows(w: World, m: Module, an: seq<Analysis>, x: Context, i: Instr, pos: nat, fuel: nat,
                                      s: MState)
    ensures s.paid <= MInstr(w, m, an, x, i, pos, fuel, s).st.paid
    decreases fuel, 1, i, 1
  {
    hide MInstr, Simple, Branch, Lift;
    match i {
      case Block(_, _, _) => BlockGrows(w, m, an, x, i, pos, fuel, s);
      case Loop(_, _, _) => LoopGrows(w, m, an, x, i, pos, fuel, s);
      case If(_, _, _, _) => IfGrows(w, m, an, x, i, pos, fuel, s);
      case Call(_) => CallInstrGrows(w, m, an, x, i, pos, fuel, s);
      case CallIndirect(_) => CallInstrGrows(w, m, an, x, i, pos, fuel, s);
      case RefFunc(_) => ExitGrows(w, m, an, x, i, pos, fuel, s);
      case Return => ExitGrows(w, m, an, x, i, pos, fuel, s);
      case ReturnCall(_) => ExitGrows(w, m, an, x, i, pos, fuel, s);
      case ReturnCallIndirect(_) => ExitGrows(w, m, an, x, i, pos, fuel, s);
      case _ => FlatGrows(w, m, an, x, i, pos, fuel, s);
    }
  }

  lemma FlatGrows(w: World, m: Module, an: seq<Analysis>, x: Context, i: Instr, pos: nat, fuel: nat, s: MState)
    requires IsSimple(i) || i.Br? || i.BrIf? || i.BrTable?
    ensures MInstr(w, m, an, x, i, pos, fuel, s).st.paid == s.paid
  {
    hide MInstr, Simple, Branch, Lift, ExecInstr;
    MFlat(w, m, an, x, i, pos, fuel, s);
    LiftPaid(s, ExecInstr(w, m, i, fuel, s.st));
  }

  lemma ExitGrows(w: World, m: Module, an: seq<Analysis>, x: Context, i: Instr, pos: nat, fuel: nat, s: MState)
    requires i.RefFunc? || i.Return? || i.ReturnCall? || i.ReturnCallIndirect?
    ensures MInstr(w, m, an, x, i, pos, fuel, s).st.paid == s.paid
  {
    hide Simple, Branch, Lift, MCall, MBody;
  }

  lemma BlockGrows(w: World, m: Module, an: seq<Analysis>, x: Context, i: Instr, pos: nat, fuel: nat, s: MState)
    requires i.Block?
    ensures s.paid <= MInstr(w, m, an, x, i, pos, fuel, s).st.paid
    decreases fuel, 1, i, 0
  {
    hide MBody, MExitBlock;
    if |s.st.stack| >= i.params {
      var s1 := OnStack(s, Top(s.st.stack, i.params).value);
      BodyGrows(w, m, an, x, i.body, pos + 1, fuel, s1);
      ExitPaid(MBody(w, m, an, x, i.body, pos + 1, fuel, s1), i.results, Below(s.st.stack, i.params));
    }
  }

  lemma IfGrows(w: World, m: Module, an: seq<Analysis>, x: Context, i: Instr, pos: nat, fuel: nat, s: MState)
    requires i.If?
    ensures s.paid <= MInstr(w, m, an, x, i, pos, fuel, s).st.paid
    decreases fuel, 1, i, 0
  {
    hide MBody, MExitBlock, Size;
    if TopIsI32(s.st.stack) && |s.st.stack| >= i.params + 1 {
      var below := Pop(s.st).stack;
      var s1 := OnStack(s, Top(below, i.params).value);
      var rest := Below(below, i.params);
      ExitPaid(Next(s1), i.results, rest);
      BodyGrows(w, m, an, x, i.thn, pos + 1, fuel, s1);
      ExitPaid(MBody(w, m, an, x, i.thn, pos + 1, fuel, s1), i.results, rest);
      if i.els.HasElse? {
        BodyGrows(w, m, an, x, i.els.code, pos + 2 + Size(i.thn), fuel, s1);
        ExitPaid(MBody(w, m, an, x, i.els.code, pos + 2 + Size(i.thn), fuel, s1), i.results, rest);
      }
    }
  }

  lemma LoopGrows(w: World, m: Module, an: seq<Analysis>, x: Context, i: Instr, pos: nat, fuel: nat, s: MState)
    requires i.Loop?
    ensures s.paid <= MInstr(w, m, an, x, i, pos, fuel, s).st.paid
    decreases fuel, 1, i, 0
  {
    hide MInstr, MBody, MExitBlock;
    MLoopUnfold(w, m, an, x, i, pos, fuel, s);
    if |s.st.stack| >= i.params {
      var s1 := OnStack(s, Top(s.st.stack, i.params).value);
      BodyGrows(w, m, an, x, i.body, pos + 1, fuel, s1);
      var o := MBody(w, m, an, x, i.body, pos + 1, fuel, s1);
      ExitPaid(o, i.results, Below(s.st.stack, i.params));
      if o.Jump? && o.depth == 0 && |o.st.st.stack| >= i.params && fuel > 0 {
        LoopGrows(w, m, an, x, i, pos, fuel - 1,
                  OnStack(o.st, Below(s.st.stack, i.params) + Top(o.st.st.stack, i.params).value));
      }
    }
  }

  lemma CallInstrGrows(w: World, m: Module, an: seq<Analysis>, x: Context, i: Instr, pos: nat, fuel: nat, s: MState)
    requires i.Call? || i.CallIndirect?
    ensures s.paid <= MInstr(w, m, an, x, i, pos, fuel, s).st.paid
    decreases fuel, 1, i, 0
  {
    hide MCall;
    if i.Call? {
      if i.f < |m.index| { CallGrows(w, m, an, m.index[i.f], fuel, s); }
    } else {
      var callee := Resolve(w, m, i.ty, s.st);
      if callee.Some? { CallGrows(w, m, an, Fn(callee.value), fuel, OnStack(s, Pop(s.st).stack)); }
    }
  }

  lemma {:induction false} CallGrows(w: World, m: Module, an: seq<Analysis>, a: Addr, fuel: nat, s: MState)
    ensures s.paid <= MCall(w, m, an, a, fuel, s).st.paid
    decreases fuel, 0, Nil, 0
  {
    hide MBody, PayPoint, Lift, Top, EntryFee, StackCharge, LeaveFrame, Budget;
    if a.Fn? && a.n < |m.funcs| && a.n < |an| && m.funcs[a.n].Guest? && Top(s.st.stack, m.funcs[a.n].params).Some?
       && fuel > 0 {
      hide MCall;
      var f := m.funcs[a.n];
      var x := ContextOf(f, an[a.n], |s.st.globals|);
      MCallUnfold(w, m, an, a.n, fuel, s);
      WrappedGrows(w, m, an, x, EntryFee(an[a.n]), f.body, fuel - 1, s.(st := EnterFrame(f, s.st)));
      FinishGrows(w, m, an, f, fuel, s,
                  MWrapped(w, m, an, x, EntryFee(an[a.n]), f.body, fuel - 1, s.(st := EnterFrame(f, s.st))));
    } else if a.Fn? && a.n < |m.funcs| && m.funcs[a.n].Host? {
      HostGrows(w, m, m.funcs[a.n], s);
    }
  }

  lemma HostGrows(w: World, m: Module, f: Func, s: MState)
    requires f.Host?
    ensures s.paid <= MHost(w, m, f, s).st.paid
  {
    hide RunHost;
  }

  lemma WrappedGrows(w: World, m: Module, an: seq<Analysis>, x: Context, entryFee: u64, body: Code, fuel: nat,
                     s: MState)
    ensures s.paid <= MWrapped(w, m, an, x, entryFee, body, fuel, s).st.paid
    decreases fuel, 2
  {
    hide MBody, PayPoint, Budget;
    var s1, p := s.(frames := s.frames + [x.charge as nat]), Point(0, Fee(0, entryFee), OtherKind);
    PointGrows(s1, p);
    var o := PayPoint(s1, p);
    if o.Next? { BodyGrows(w, m, an, x, body, 0, fuel, o.st); }
  }

  lemma FinishGrows(w: World, m: Module, an: seq<Analysis>, f: Func, fuel: nat, s: MState, o: Outcome<MState>)
    requires f.Guest? && fuel > 0
    ensures o.st.paid <= MFinish(w, m, an, f, fuel, s, o).st.paid
    decreases fuel - 1, 1
  {
    hide MCall, Lift, LeaveFrame;
    if o.Tail? {
      if Top(o.st.st.stack, Params(m, o.callee)).Some? {
        CallGrows(w, m, an, o.callee, fuel - 1,
          o.st.(st := ReplaceFrame(f, s.st, o.st.st, Top(o.st.st.stack, Params(m, o.callee)).value)));
      }
    } else {
      forall t: MState, q: Outcome<State> ensures Lift(t, q).st.paid == t.paid { LiftPaid(t, q); }
    }
  }

  // ----- What a call pays first -----

  /**
   * A called function of the module, with n words the fewest that hold its frame. It is refused, and pays nothing, if
   * its operand stack and frame exceed what the live frames leave of 262144 bytes: a stack overflow, unless the call
   * of the hook is itself out of gas. Otherwise it pays 822756 for each word before anything else, or ends for want of
   * that much gas.
   */
  lemma CallPrice(w: World, m: Module, an: seq<Analysis>, k: nat, fuel: nat, s: MState, n: nat)
    requires k < |m.funcs| && k < |an| && m.funcs[k].Guest? && Top(s.st.stack, m.funcs[k].params).Some? && fuel > 0
    requires an[k].operandStack as int + an[k].frame as int <= 0xFFFF_FFFF_FFFF_FFFF
    requires FewestWords(n, an[k].frame as nat) && 0 < n * 822_756 <= 0xFFFF_FFFF_FFFF_FFFF
    ensures var r := MCall(w, m, an, Fn(k), fuel, s);
      if 262_144 - Sum(s.frames) < an[k].operandStack as int + an[k].frame as int then
        && r.Trap? && r.st.paid == s.paid
        && r.why == if 264_768_111 <= s.gas as int < 0x8000_0000_0000_0000 then StackOverflow else PrepaidGas
      else if s.gas as nat < n * 822_756 then
        r.Trap? && r.why == PrepaidGas && r.st.paid == s.paid
      else
        s.paid + [n * 822_756] <= r.st.paid
  {
    hide MCall, MBody, EntryFee, StackCharge, Sum, PayPoint, Top;
    var f, x := m.funcs[k], ContextOf(m.funcs[k], an[k], |s.st.globals|);
    var (s0, fee) := (s.(st := EnterFrame(f, s.st)), EntryFee(an[k]));
    EntryFeeExact(an[k], n);
    ChargeExact(an[k]);
    MCallUnfold(w, m, an, k, fuel, s);
    var o := MWrapped(w, m, an, x, fee, f.body, fuel - 1, s0);
    if Budget(s0) >= x.charge as int {
      var s1 := s0.(frames := s0.frames + [x.charge as nat]);
      PointPrice(s1, Point(0, Fee(0, fee), OtherKind), 0);
      assert Due(Fee(0, fee), 0) == fee as int;
      if s.gas as nat >= n * 822_756 {
        BodyGrows(w, m, an, x, f.body, 0, fuel - 1, Paying(s1, n * 822_756, n * 822_756));
        FinishGrows(w, m, an, f, fuel, s, o);
      }
    }
  }
}
