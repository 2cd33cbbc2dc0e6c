/** The pass preserves meaning: the instrumented module against the original one, run from the same
    arguments, globals and memory with any amount of gas. */
module InstrumentTheorem {
  import opened Words
  import opened Wasm
  import opened Instrument
  import opened Metered
  import opened Simulation
  import opened Erasure

  /** The embedder's state before it calls an exported function. */
  function Start(args: seq<Value>, globals: seq<Value>, mem: Mem): State
  {
    State(args, [], globals, mem, [])
  }

  /** The same for the instrumented module, with the gas global set and the budget untouched. The two
      locals belong to the embedder's frame and are never read. */
  function StartMetered(args: seq<Value>, globals: seq<Value>, mem: Mem, gas: u64): State
  {
    State(args, [I64(0), I32(0)], globals + [I64(gas), I64(MAX_STACK_HEIGHT as u64)], mem, [])
  }

  function Metering(args: seq<Value>, globals: seq<Value>, mem: Mem, gas: u64): MState
  {
    MState(Start(args, globals, mem), gas, [], [], [])
  }

  /** Every body has a positive stack charge, so the pass emits it as `TModule` says (see `CostModel`). */
  predicate PositiveCharges(m: Module, an: seq<Analysis>)
    requires |an| == |m.funcs|
  {
    forall k :: 0 <= k < |m.funcs| && m.funcs[k].Guest? ==> StackCharge(an[k]) > 0
  }

  /** Event by event the same memory and the same original globals, two injected ones behind them. */
  ghost predicate SameEvents(log: seq<Event>, log': seq<Event>)
  {
    && |log'| == |log|
    && forall k :: 0 <= k < |log| ==>
         && log'[k].mem == log[k].mem
         && |log'[k].globals| == |log[k].globals| + 2
         && log'[k].globals[..|log[k].globals|] == log[k].globals
  }

  /** The instrumented outcome agrees with the plain one, the gas lowered by the fees paid. */
  ghost predicate Agrees(o: Outcome<State>, o': Outcome<State>, gas: u64, paid: nat)
  {
    && (o.Next? <==> o'.Next?) && (o.Timeout? <==> o'.Timeout?) && (o.Trap? <==> o'.Trap?)
    && (o.Trap? && o'.Trap? ==> o.why == o'.why)
    && (o.Next? ==> o'.st.stack == o.st.stack)
    && o'.st.mem == o.st.mem
    && SameEvents(o.st.log, o'.st.log)
    && |o'.st.globals| == |o.st.globals| + 2 && o'.st.globals[..|o.st.globals|] == o.st.globals
    && paid <= gas as int
    && o'.st.globals[|o.st.globals|] == I64((gas as int - paid) as u64)
    && (o.Next? ==> o'.st.globals[|o.st.globals| + 1] == I64(262_144))
  }

  /**
   * The instrumented run stopped in a hook at a point the plain run passes: the same events so far, and the memory is
   * that of the last one, or the memory it started from.
   */
  ghost predicate StoppedOnTheWay(o: Outcome<State>, o': Outcome<State>, mem: Mem)
  {
    var passed := |o'.st.log|;
    && o'.Trap? && (o'.why == PrepaidGas || o'.why == StackOverflow)
    && passed <= |o.st.log| && SameEvents(o.st.log[..passed], o'.st.log)
    && o'.st.mem == (if passed == 0 then mem else o.st.log[passed - 1].mem)
  }

  /** Preservation of meaning, for every program, input, gas and fuel. */
  lemma PreservesMeaning(w: World, m: Module, an: seq<Analysis>, n: nat, fuel: nat,
                         args: seq<Value>, globals: seq<Value>, mem: Mem, gas: u64)
    requires ValidModule(m, an, |globals|) && FitsModule(m, an) && PositiveCharges(m, an)
    ensures var o := ExecCall(w, m, Fn(n), fuel, Start(args, globals, mem));
            var o' := ExecCall(w, TModule(m, an, |globals|), Fn(n), fuel, StartMetered(args, globals, mem, gas));
            var r := MCall(w, m, an, Fn(n), fuel, Metering(args, globals, mem, gas));
            if Spent(r) then StoppedOnTheWay(o, o', mem) else Agrees(o, o', gas, Sum(r.st.paid))
  {
    hide ExecCall, MCall, Sum, Extended;
    var g, m' := |globals|, TModule(m, an, |globals|);
    var s, t, t' := Metering(args, globals, mem, gas), Start(args, globals, mem), StartMetered(args, globals, mem, gas);
    StartsRelated(args, globals, mem, gas);
    SimCall(w, m, m', an, Fn(n), fuel, t', s, g, 0, []);
    EraseCall(w, m, an, Fn(n), fuel, s);
    var o, o', r := ExecCall(w, m, Fn(n), fuel, t), ExecCall(w, m', Fn(n), fuel, t'), MCall(w, m, an, Fn(n), fuel, s);
    SharedEvents(o'.st, r.st, g);
    if Spent(r) {
      LogGrowsCall(w, m', Fn(n), fuel, t');
      assert o.st.log[..|r.st.st.log|] == r.st.st.log;
    }
    EmptySum();
  }

  lemma EmptySum()
    ensures Sum([]) == 0
  {
  }

  lemma StartsRelated(args: seq<Value>, globals: seq<Value>, mem: Mem, gas: u64)
    ensures Rel(StartMetered(args, globals, mem, gas), Metering(args, globals, mem, gas), |globals|, 0, [])
    ensures Total(Metering(args, globals, mem, gas)) == gas as int
  {
    assert StartMetered(args, globals, mem, gas).globals == globals + Reading(gas, MAX_STACK_HEIGHT);
  }

  lemma SharedEvents(t: State, s: MState, g: nat)
    requires RelShared(t, s, g)
    ensures SameEvents(s.st.log, t.log)
    ensures |t.globals| == g + 2 && t.globals[..g] == s.st.globals
    ensures t.globals[g] == I64(s.gas) && t.globals[g + 1] == I64(Budget(s) as u64)
  {
  }

  /** The stack budget: at every logged event the budget global and the charges of the frames then
      live add up to the whole stack height, and a completed call gives the whole budget back. */
  lemma BudgetInvariant(w: World, m: Module, an: seq<Analysis>, n: nat, fuel: nat,
                        args: seq<Value>, globals: seq<Value>, mem: Mem, gas: u64)
    requires ValidModule(m, an, |globals|) && PositiveCharges(m, an)
    ensures var g := |globals|;
            var o' := ExecCall(w, TModule(m, an, g), Fn(n), fuel, StartMetered(args, globals, mem, gas));
            var r := MCall(w, m, an, Fn(n), fuel, Metering(args, globals, mem, gas)).st;
            && |o'.st.log| == |r.readings|
            && (forall k :: 0 <= k < |r.readings| ==> BudgetAt(o'.st.log[k], r.readings[k].1))
            && BudgetAt(Event(o'.st.mem, o'.st.globals), r.frames)
            && (o'.Next? ==> r.frames == [])
  {
    hide ExecCall, MCall, Sum;
    var g := |globals|;
    StartsRelated(args, globals, mem, gas);
    SimCall(w, m, TModule(m, an, g), an, Fn(n), fuel, StartMetered(args, globals, mem, gas),
      Metering(args, globals, mem, gas), g, 0, []);
  }

  /** The budget global and the live charges add up to the stack height. */
  ghost predicate BudgetAt(e: Event, frames: seq<nat>)
  {
    && |e.globals| >= 2 && e.globals[|e.globals| - 1].I64?
    && e.globals[|e.globals| - 1].n as int + Sum(frames) == 262_144
  }
}
