/** The main results about the WebAssembly backend. */
module CompilerTheorems {
  import opened Wrappers
  import opened Bits
  import opened Leb128
  import opened Mir
  import opened MirEval
  import opened Wasm
  import opened Globals
  import opened Lowering
  import opened WellTyped
  import opened ModuleProofs
  import opened Simulation
  import opened Validation
  import opened Acceptance

  /** The cells of a slot table in memory. */
  function CellsIn(mem: seq<byte>, slots: map<string, nat>): (cells: map<string, seq<byte>>)
    requires forall name :: name in slots ==> slots[name] + SLOT_SIZE <= |mem|
  {
    map name | name in slots :: mem[slots[name]..slots[name] + SLOT_SIZE]
  }

  /** Memory reaches past every slot, as `ylc_wasm_ensure_memory` arranges. */
  predicate MemoryCovers(mem: seq<byte>, g: GlobalTable) {
    forall name :: name in g.slots ==> g.slots[name] + SLOT_SIZE <= |mem|
  }

  /** Memory of at least the session's pages covers every slot. */
  lemma PagesCover(mem: seq<byte>, g: GlobalTable)
    requires TableOk(g) && |mem| >= g.pages * PAGE_SIZE
    ensures MemoryCovers(mem, g)
  {
    forall name | name in g.slots ensures g.slots[name] + SLOT_SIZE <= |mem| {
      assert Globals.SlotOk(g, g.slots[name]);
    }
  }

  /** What a successful compilation returns. */
  lemma CompiledShape(ieee: Ieee, prog: Program, g: GlobalTable)
    requires ProgramOk(prog) && TableOk(g) && LowerProgram(ieee, prog, g).0.Some?
    ensures BuildCtx(prog).Some?
    ensures var (wm, h) := LowerProgram(ieee, prog, g);
            var m := BuildCtx(prog).value;
            && TableOk(h) && Extends(h, g) && CtxOk(m, prog) && ModuleFor(m, prog, wm.value)
            && Entry(m, prog) == Some(wm.value.entry)
            && forall k :: 0 <= k < |m.defs| ==>
                 (m.defs[k].fn < |prog.fns|
                  && BodyFor(ieee, m, prog, prog.fns[m.defs[k].fn], h.slots, wm.value.bodies[k]))
  {
    hide LowerFunctions;
    hide CtxOk;
    hide BuildCtx;
    hide BodyFor;
    hide Entry;
    hide TableOk;
    hide Extends;
    var m := BuildCtx(prog).value;
    var (bodies, h) := LowerFunctions(ieee, m, prog, m.defs, g);
    assert Submap(h.slots, h.slots);
    FunctionsLinked(ieee, m, prog, m.defs, g, h.slots);
    IndicesCorrect(prog);
  }

  lemma CompiledLinked(mc: Machine, prog: Program, g: GlobalTable)
    requires ProgramOk(prog) && TableOk(g) && LowerProgram(mc.ieee, prog, g).0.Some?
    requires WellTypedProgram(prog, BuildCtx(prog).value) && NoTruncation(prog, BuildCtx(prog).value)
    ensures var (wm, h) := LowerProgram(mc.ieee, prog, g);
            Linked(mc, prog, BuildCtx(prog).value, wm.value, h.slots)
  {
    hide LowerProgram;
    hide WellTypedProgram;
    hide NoTruncation;
    hide CtxOk;
    hide BuildCtx;
    hide BodyFor;
    hide ModuleFor;
    hide TableOk;
    CompiledShape(mc.ieee, prog, g);
    TableSlots(LowerProgram(mc.ieee, prog, g).1);
  }

  lemma TableSlots(g: GlobalTable)
    requires TableOk(g)
    ensures SlotsOk(g.slots)
  {
    forall name | name in g.slots ensures g.slots[name] + SLOT_SIZE <= GLOBAL_END {
      assert Globals.SlotOk(g, g.slots[name]);
    }
  }

  /** What the outside can tell about a run of MIR and a run of the module: the same value, the same prints and
      host calls in the same order, the same globals; stopped, or out of fuel, together. */
  ghost predicate SameRun(a: Answer, o: Outcome, slots: map<string, nat>) {
    match a
    case Answer(v, w) =>
      && o.Results? && o.vals == (match v case None => [] case Some(x) => [NumericProofs.Rep(x)])
      && SameWorld(w, o.store, slots)
    case HaltCall(w) => o.TrapOut? && SameWorld(w, o.store, slots)
    case NoFuelCall => o.ExhaustedOut?
    case WrongCall => false
  }

  ghost predicate SameWorld(w: World, st: Store, slots: map<string, nat>) {
    && st.trace == w.trace
    && forall name :: name in slots ==>
         && slots[name] + SLOT_SIZE <= |st.mem|
         && name in w.cells && w.cells[name] == st.mem[slots[name]..slots[name] + SLOT_SIZE]
  }

  lemma RelSame(w: World, st: Store, slots: map<string, nat>)
    requires WorldRel(w, st, slots)
    ensures SameWorld(w, st, slots)
  {
    forall name | name in slots
      ensures slots[name] + SLOT_SIZE <= |st.mem| && name in w.cells
              && w.cells[name] == st.mem[slots[name]..slots[name] + SLOT_SIZE]
    {
      assert CellAt(w, st, name, slots[name]);
    }
  }

  lemma CellsRel(mem: seq<byte>, trace: seq<Event>, slots: map<string, nat>)
    requires forall name :: name in slots ==> slots[name] + SLOT_SIZE <= |mem|
    ensures WorldRel(World(CellsIn(mem, slots), trace), Store(mem, trace), slots)
  {
    forall name | name in slots
      ensures CellAt(World(CellsIn(mem, slots), trace), Store(mem, trace), name, slots[name])
    {
    }
  }

  /** Compilation preserves meaning. For every well-typed program that compiles, every session, every memory
      and every function of the module, with any arguments of its parameter types and any amount of fuel: calling
      the function's index in the emitted module behaves as evaluating the function in MIR, through all nested
      calls, if no function in it truncates a 64-bit float to a 64-bit integer. Otherwise there is no such call: the
      module is not valid, and only valid modules are instantiated (section 4.5.4). */
  lemma CompilationPreservesMeaning(mc: Machine, prog: Program, g: GlobalTable, t: FnId, args: seq<Value>,
                                    mem: seq<byte>, trace: seq<Event>, fuel: nat)
    requires ProgramOk(prog) && TableOk(g) && LowerProgram(mc.ieee, prog, g).0.Some?
    requires WellTypedProgram(prog, BuildCtx(prog).value)
    requires t < |prog.fns| && LookupId(BuildCtx(prog).value, t).Some?
    requires ClassesOf(args) == ParamTypes(prog.fns[t].params)
    requires MemoryCovers(mem, LowerProgram(mc.ieee, prog, g).1)
    ensures var (wm, h) := LowerProgram(mc.ieee, prog, g);
            && (NoTruncation(prog, BuildCtx(prog).value) ==>
                  SameRun(EvalCall(mc, prog, fuel, t, args, World(CellsIn(mem, h.slots), trace)),
                          Invoke(mc, wm.value, fuel, LookupId(BuildCtx(prog).value, t).value.funcIndex, Reps(args),
                                 Store(mem, trace)),
                          h.slots))
            && (NoTruncation(prog, BuildCtx(prog).value) <==> ValidModule(wm.value))
  {
    hide WellTypedProgram;
    hide NoTruncation;
    hide ValidModule;
    hide LowerProgram;
    hide BuildCtx;
    hide LookupId;
    hide ParamTypes;
    hide Linked;
    hide WorldRel;
    hide SameWorld;
    hide EvalCall;
    hide Invoke;
    CompiledShape(mc.ieee, prog, g);
    var (wm, h) := LowerProgram(mc.ieee, prog, g);
    var m := BuildCtx(prog).value;
    var w, st := World(CellsIn(mem, h.slots), trace), Store(mem, trace);
    EmittedModuleValid(mc.ieee, prog, g);
    if NoTruncation(prog, m) {
      CompiledLinked(mc, prog, g);
      CellsRel(mem, trace, h.slots);
      SimCall(mc, prog, m, wm.value, fuel, t, args, w, st, h.slots);
      var a := EvalCall(mc, prog, fuel, t, args, w);
      var o := Invoke(mc, wm.value, fuel, LookupId(m, t).value.funcIndex, Reps(args), st);
      if a.Answer? || a.HaltCall? {
        RelSame(a.world, o.store, h.slots);
      }
    }
  }

  /** Without self-recursion, and with a top level that nothing calls, 34 nested calls are enough for every function
      of the module, the exported one included: running a valid module ends, with the answer or the trap that
      evaluating has, and the module is valid exactly without truncations to 64 bits. */
  lemma CompiledRunEnds(mc: Machine, prog: Program, g: GlobalTable, t: FnId, args: seq<Value>, mem: seq<byte>,
                        trace: seq<Event>, fuel: nat)
    requires ProgramOk(prog) && TableOk(g) && LowerProgram(mc.ieee, prog, g).0.Some?
    requires WellTypedProgram(prog, BuildCtx(prog).value) && NoSelfCalls(prog) && TopUncalled(prog)
    requires t < |prog.fns| && LookupId(BuildCtx(prog).value, t).Some?
    requires ClassesOf(args) == ParamTypes(prog.fns[t].params)
    requires MemoryCovers(mem, LowerProgram(mc.ieee, prog, g).1) && fuel >= 34
    ensures var (wm, h) := LowerProgram(mc.ieee, prog, g);
            var source := EvalCall(mc, prog, fuel, t, args, World(CellsIn(mem, h.slots), trace));
            var run := Invoke(mc, wm.value, fuel, LookupId(BuildCtx(prog).value, t).value.funcIndex, Reps(args),
                              Store(mem, trace));
            && (NoTruncation(prog, BuildCtx(prog).value) ==>
                  SameRun(source, run, h.slots) && (run.Results? || run.TrapOut?))
            && (NoTruncation(prog, BuildCtx(prog).value) <==> ValidModule(wm.value))
  {
    hide NoTruncation;
    hide ValidModule;
    hide LowerProgram;
    hide WellTypedProgram;
    hide NoSelfCalls;
    hide TopUncalled;
    hide BuildCtx;
    hide LookupId;
    hide EvalCall;
    hide Invoke;
    hide SameWorld;
    hide TableOk;
    hide ParamTypes;
    CompiledShape(mc.ieee, prog, g);
    CompilationPreservesMeaning(mc, prog, g, t, args, mem, trace, fuel);
    IndexedTerminates(mc, prog, t, args, World(CellsIn(mem, LowerProgram(mc.ieee, prog, g).1.slots), trace), fuel);
  }

  lemma {:induction false} NameThenId(defs: seq<FuncDef>, prog: Program, name: string)
    requires FindByName(defs, prog, name).Some?
    ensures FindById(defs, FindByName(defs, prog, name).value.fn) == FindByName(defs, prog, name)
    ensures FindByName(defs, prog, name).value.fn < |prog.fns|
    ensures prog.fns[FindByName(defs, prog, name).value.fn].name == name
  {
    if defs[0].fn < |prog.fns| && prog.fns[defs[0].fn].name == name {
    } else {
      NameThenId(defs[1..], prog, name);
    }
  }

  lemma {:induction false} IdHasName(defs: seq<FuncDef>, prog: Program, id: FnId)
    requires id < |prog.fns| && FindById(defs, id).Some?
    ensures FindByName(defs, prog, prog.fns[id].name).Some?
  {
    if defs[0].fn == id {
    } else {
      IdHasName(defs[1..], prog, id);
    }
  }

  /** The exported function of a program with a top level is the top level. */
  lemma EntryIsTop(prog: Program)
    requires ProgramOk(prog) && BuildCtx(prog).Some? && LookupName(BuildCtx(prog).value, prog, TOP).Some?
    ensures var m := BuildCtx(prog).value;
            var t := LookupName(m, prog, TOP).value.fn;
            && t < |prog.fns| && prog.fns[t].name == "$top"
            && LookupId(m, t).Some?
            && Entry(m, prog) == Some(LookupId(m, t).value.funcIndex)
  {
    hide BuildCtx;
    var m := BuildCtx(prog).value;
    var t := LookupName(m, prog, TOP).value.fn;
    if FindByName(m.imports, prog, TOP).Some? {
      NameThenId(m.imports, prog, TOP);
    } else {
      NameThenId(m.defs, prog, TOP);
      if FindById(m.imports, t).Some? {
        IdHasName(m.imports, prog, t);
        assert false;
      }
    }
  }

  /** Without a top level the exported function is the first one defined, right behind all imports. */
  lemma EntryElseFirst(prog: Program)
    requires ProgramOk(prog) && BuildCtx(prog).Some? && BuildCtx(prog).value.defs != []
    requires LookupName(BuildCtx(prog).value, prog, TOP).None?
    ensures Entry(BuildCtx(prog).value, prog) == Some(3 + |BuildCtx(prog).value.imports|)
  {
    hide BuildCtx;
    hide LookupName;
    hide TypeOfFunction;
    IndicesCorrect(prog);
    var m := BuildCtx(prog).value;
    assert DefOk(m, prog, m.defs[0], BUILTINS + |m.imports| + 0, false);
  }

  /** The indices in an emitted module name what is there. */
  lemma EmittedIndices(ieee: Ieee, prog: Program, g: GlobalTable)
    requires ProgramOk(prog) && TableOk(g) && LowerProgram(ieee, prog, g).0.Some?
    ensures ValidIndices(LowerProgram(ieee, prog, g).0.value)
  {
    hide LowerProgram;
    hide BuildCtx;
    hide BodyFor;
    hide Entry;
    hide Extends;
    hide TableOk;
    hide TypeOfFunction;
    hide CtxOk;
    CompiledShape(ieee, prog, g);
    var wm, m := LowerProgram(ieee, prog, g).0.value, BuildCtx(prog).value;
    EntryInRange(m, prog);
    ImportsValid(m, prog, wm);
    forall k | 0 <= k < |m.defs| ensures m.defs[k].typeIndex < |wm.types| {
      DefType(m, prog, k);
    }
  }

  /** A module the backend emits for well-typed MIR is valid if and only if no function in it truncates a 64-bit
      float to a 64-bit integer. */
  lemma EmittedModuleValid(ieee: Ieee, prog: Program, g: GlobalTable)
    requires ProgramOk(prog) && TableOk(g) && LowerProgram(ieee, prog, g).0.Some?
    requires WellTypedProgram(prog, BuildCtx(prog).value)
    ensures ValidModule(LowerProgram(ieee, prog, g).0.value) <==> NoTruncation(prog, BuildCtx(prog).value)
  {
    hide LowerProgram;
    hide Truncating;
    hide FunctionOk;
    hide BuildCtx;
    hide BodyFor;
    hide ValidBody;
    hide ValidIndices;
    hide Entry;
    hide Extends;
    hide TableOk;
    hide TypeOfFunction;
    hide CtxOk;
    CompiledShape(ieee, prog, g);
    EmittedIndices(ieee, prog, g);
    var (r, h) := LowerProgram(ieee, prog, g);
    var wm, m := r.value, BuildCtx(prog).value;
    forall k | 0 <= k < |m.defs|
      ensures m.defs[k].typeIndex < |wm.types| && m.defs[k].fn < |prog.fns|
      ensures ValidBody(wm, wm.types[m.defs[k].typeIndex], wm.bodies[k])
              <==> !Truncating(InstrsOf(prog.fns[m.defs[k].fn].blocks))
    {
      DefType(m, prog, k);
      BodyValid(m, prog, wm, ieee, prog.fns[m.defs[k].fn], h.slots, wm.bodies[k]);
    }
  }

  lemma DefType(m: ModuleCtx, prog: Program, k: nat)
    requires CtxOk(m, prog) && k < |m.defs|
    ensures m.defs[k].fn < |prog.fns| && m.defs[k].typeIndex < |m.types|
    ensures m.types[m.defs[k].typeIndex] == TypeOfFunction(prog.fns[m.defs[k].fn])
  {
    assert DefOk(m, prog, m.defs[k], BUILTINS + |m.imports| + k, false);
  }

  lemma ImportsValid(m: ModuleCtx, prog: Program, wm: Module)
    requires CtxOk(m, prog) && wm.types == m.types && wm.imports == BUILTIN_IMPORTS + ImportsOf(m.imports, prog)
    ensures forall k :: 0 <= k < |wm.imports| ==> wm.imports[k].typeIndex < |wm.types|
  {
    forall k | 0 <= k < |wm.imports| ensures wm.imports[k].typeIndex < |wm.types| {
      if k >= 3 {
        assert DefOk(m, prog, m.imports[k - 3], BUILTINS + (k - 3), true);
        assert wm.imports[k] == ImportsOf(m.imports, prog)[k - 3];
      } else {
        assert |INITIAL_TYPES| == 2;
      }
    }
  }
}
