/** Programs whose functions have names of their own: what the names of calls say decides which calls compile, so
    compiling is all that has to be asked of the functions called. */
module NamedCalls {
  import opened Wrappers
  import opened Bits
  import opened Leb128
  import opened Mir
  import opened MirEval
  import opened Wasm
  import opened Globals
  import opened Lowering
  import opened WellTyped
  import opened ModuleProofs
  import opened CallProofs
  import opened Simulation
  import opened Acceptance
  import opened CompilerTheorems

  /** A function that keeps type variables is not emitted, unless it is the top level. */
  predicate Generic(f: Function) {
    HasTypeVars(f.ty) && f.name != TOP
  }

  /** The names in a call to `t` are the functions' own: the specialised name is that of `t` or of no function, and the
      callee refers by its name to `t` or to a generic function that `t` is a specialisation of. */
  predicate OwnNames(prog: Program, f: Function, a: Action, t: FnId)
    requires a.Call? && t < |prog.fns|
  {
    && (a.specializedName.Some? ==>
          a.specializedName.value == prog.fns[t].name
          || forall u :: 0 <= u < |prog.fns| ==> prog.fns[u].name != a.specializedName.value)
    && (a.callee.Some? ==>
          match FindDef(InstrsOf(f.blocks), a.callee.value)
          case Some(Instr(FnRef(Some(u), name), _, _)) =>
            u < |prog.fns| && name == prog.fns[u].name && (u == t || Generic(prog.fns[u]))
          case _ => true)
  }

  predicate CallsOwnNames(prog: Program, f: Function) {
    forall i :: i in InstrsOf(f.blocks) && i.action.Call? ==>
                  var t := DirectTarget(f, i.action);
                  t.Some? && t.value < |prog.fns| ==> OwnNames(prog, f, i.action, t.value)
  }

  /** Types agree and names are distinct; whether the functions called are emitted is left to the compilation. */
  ghost predicate NamedProgram(prog: Program, m: ModuleCtx) {
    && DistinctNames(prog)
    && forall k :: 0 <= k < |m.defs| ==>
         m.defs[k].fn < |prog.fns| && FunctionTyped(prog, prog.fns[m.defs[k].fn])
         && CallsOwnNames(prog, prog.fns[m.defs[k].fn])
  }

  lemma {:induction false} NoSuchName(defs: seq<FuncDef>, prog: Program, name: string)
    requires forall u :: 0 <= u < |prog.fns| ==> prog.fns[u].name != name
    ensures FindByName(defs, prog, name).None?
    decreases |defs|
  {
    if defs != [] {
      NoSuchName(defs[1..], prog, name);
    }
  }

  lemma OwnNamesTarget(prog: Program, f: Function, a: Action, t: FnId)
    requires ProgramOk(prog) && BuildCtx(prog).Some? && DistinctNames(prog)
    requires a.Call? && t < |prog.fns| && OwnNames(prog, f, a, t)
    ensures NamesTarget(f, prog, BuildCtx(prog).value, a, t)
  {
    hide BuildCtx;
    hide DistinctNames;
    hide FindByName;
    hide FindById;
    hide HasTypeVars;
    hide InstrsOf;
    hide FindDef;
    hide AllWanted;
    var m := BuildCtx(prog).value;
    if a.specializedName.Some? && a.specializedName.value != prog.fns[t].name {
      NoSuchName(m.imports, prog, a.specializedName.value);
      NoSuchName(m.defs, prog, a.specializedName.value);
    }
    if a.callee.Some? {
      match FindDef(InstrsOf(f.blocks), a.callee.value)
      case Some(Instr(FnRef(Some(u), name), _, _)) =>
        if u != t {
          ContextInRange(prog);
          NameFinds(m.imports, prog, u);
          NameFinds(m.defs, prog, u);
          if LookupId(m, u).Some? {
            IndexedWanted(prog, u);
          }
        }
      case _ =>
    }
  }

  lemma ContextInRange(prog: Program)
    requires ProgramOk(prog) && BuildCtx(prog).Some?
    ensures var m := BuildCtx(prog).value;
            (forall d :: d in m.imports ==> d.fn < |prog.fns|) && forall d :: d in m.defs ==> d.fn < |prog.fns|
  {
    hide BuildCtx;
    hide DefWanted;
    ContextWanted(prog);
  }

  // ---- What compiled is known -----------------------------------------------------------------

  lemma {:induction false} InstrCompiled(ieee: Ieee, m: ModuleCtx, prog: Program, l: Layout, f: Function,
                                         instrs: seq<Instr>, slots: map<string, nat>, i: Instr)
    requires CodeOfInstrs(ieee, m, prog, l, f, instrs, slots).Some? && i in instrs && i.action.Call?
    ensures CallTarget(m, prog, f, i.action).Some?
    decreases |instrs|
  {
    hide EmitOperands;
    hide CallTarget;
    hide StoreResult;
    if i != instrs[0] {
      assert i in instrs[1..];
      InstrCompiled(ieee, m, prog, l, f, instrs[1..], slots, i);
    }
  }

  lemma {:induction false} CallCompiled(ieee: Ieee, m: ModuleCtx, prog: Program, l: Layout, f: Function,
                                        blocks: seq<Block>, slots: map<string, nat>, i: Instr)
    requires CodeOfBlocks(ieee, m, prog, l, f, blocks, slots).Some? && i in InstrsOf(blocks) && i.action.Call?
    ensures CallTarget(m, prog, f, i.action).Some?
    decreases |blocks|
  {
    hide CodeOfInstrs;
    hide CallTarget;
    hide LowerTerm;
    hide ResultType;
    if i in blocks[0].instrs {
      InstrCompiled(ieee, m, prog, l, f, blocks[0].instrs, slots, i);
    } else {
      CallCompiled(ieee, m, prog, l, f, blocks[1..], slots, i);
    }
  }

  lemma BodyKnown(ieee: Ieee, prog: Program, f: Function, slots: map<string, nat>, body: Body)
    requires ProgramOk(prog) && BuildCtx(prog).Some? && DistinctNames(prog)
    requires FunctionTyped(prog, f) && CallsOwnNames(prog, f)
    requires BodyFor(ieee, BuildCtx(prog).value, prog, f, slots, body)
    ensures FunctionOk(prog, BuildCtx(prog).value, f)
  {
    hide BuildCtx;
    hide DistinctNames;
    hide CodeOfBlocks;
    hide CallTarget;
    hide CallKnown;
    hide FlowOk;
    hide ResultOk;
    hide ActionTyped;
    hide LayoutOf;
    hide ResultType;
    hide OwnNames;
    hide LookupId;
    var m := BuildCtx(prog).value;
    var instrs := InstrsOf(f.blocks);
    forall k | 0 <= k < |instrs| ensures InstrOk(f, prog, m, instrs[k]) {
      var i := instrs[k];
      assert i in instrs && InstrTyped(f, prog, i);
      if i.action.Call? {
        TypedTarget(f, prog, i);
        CallCompiled(ieee, m, prog, LayoutOf(f).value, f, f.blocks, slots, i);
        ContextInRange(prog);
        OwnNamesTarget(prog, f, i.action, DirectTarget(f, i.action).value);
        NamesDecide(f, prog, m, i.action, DirectTarget(f, i.action).value);
      }
    }
  }

  lemma TypedTarget(f: Function, prog: Program, i: Instr)
    requires i.action.Call? && InstrTyped(f, prog, i)
    ensures DirectTarget(f, i.action).Some? && DirectTarget(f, i.action).value < |prog.fns|
  {
    hide DirectTarget;
  }

  /** With distinct names a program that is well typed function by function and compiles is a well-typed program: its
      calls go to functions of the module. */
  lemma NamedWellTyped(ieee: Ieee, prog: Program, g: GlobalTable)
    requires ProgramOk(prog) && TableOk(g) && LowerProgram(ieee, prog, g).0.Some?
    requires BuildCtx(prog).Some? && NamedProgram(prog, BuildCtx(prog).value)
    ensures WellTypedProgram(prog, BuildCtx(prog).value)
  {
    hide LowerProgram;
    hide BuildCtx;
    hide DistinctNames;
    hide FunctionTyped;
    hide FunctionOk;
    hide CallsOwnNames;
    hide BodyFor;
    hide TableOk;
    hide CtxOk;
    CompiledShape(ieee, prog, g);
    var (wm, h) := LowerProgram(ieee, prog, g);
    var m := BuildCtx(prog).value;
    forall k | 0 <= k < |m.defs| ensures m.defs[k].fn < |prog.fns| && FunctionOk(prog, m, prog.fns[m.defs[k].fn]) {
      BodyKnown(ieee, prog, prog.fns[m.defs[k].fn], h.slots, wm.value.bodies[k]);
    }
  }

  /** Compilation preserves the meaning of programs with distinct names whose types agree function by function. */
  lemma NamedCompilation(mc: Machine, prog: Program, g: GlobalTable, t: FnId, args: seq<Value>, mem: seq<byte>,
                         trace: seq<Event>, fuel: nat)
    requires ProgramOk(prog) && TableOk(g) && LowerProgram(mc.ieee, prog, g).0.Some?
    requires BuildCtx(prog).Some? && NamedProgram(prog, BuildCtx(prog).value)
    requires t < |prog.fns| && LookupId(BuildCtx(prog).value, t).Some?
    requires ClassesOf(args) == ParamTypes(prog.fns[t].params)
    requires MemoryCovers(mem, LowerProgram(mc.ieee, prog, g).1)
    ensures var (wm, h) := LowerProgram(mc.ieee, prog, g);
            && (NoTruncation(prog, BuildCtx(prog).value) ==>
                  SameRun(EvalCall(mc, prog, fuel, t, args, World(CellsIn(mem, h.slots), trace)),
                          Invoke(mc, wm.value, fuel, LookupId(BuildCtx(prog).value, t).value.funcIndex, Reps(args),
                                 Store(mem, trace)),
                          h.slots))
            && (NoTruncation(prog, BuildCtx(prog).value) <==> ValidModule(wm.value))
  {
    hide *;
    NamedWellTyped(mc.ieee, prog, g);
    CompilationPreservesMeaning(mc, prog, g, t, args, mem, trace, fuel);
  }
}
