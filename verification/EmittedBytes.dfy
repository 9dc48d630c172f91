/** The bytes of an emitted module, read back by the viewer. */
module EmittedBytes {
  import opened Wrappers
  import opened Mir
  import opened MirEval
  import opened Wasm
  import opened Globals
  import opened Lowering
  import opened WellTyped
  import opened LayoutProofs
  import opened ModuleProofs
  import opened Validation
  import opened ModuleBytes
  import opened ByteRoundTrip
  import opened CompilerTheorems

  // ---- The viewer has names for the opcodes used ---------------------------------------------

  lemma {:induction false} OperandsKnown(l: Layout, f: Function, params: seq<Param>, ops: seq<ValueId>)
    requires EmitOperands(l, f, params, ops).Some?
    ensures KnownCode(EmitOperands(l, f, params, ops).value)
    decreases |ops|
  {
    hide KnownNumeric;
    if ops != [] {
      OperandsKnown(l, f, if params == [] then [] else params[1..], ops[1..]);
    }
  }

  lemma OpcodeKnown(op: PrimOp, c: ValType)
    ensures Opcode(op, c).Some? ==> KnownNumeric(Opcode(op, c).value)
    ensures KnownNumeric(0x45) && KnownNumeric(0x50) && KnownNumeric(0xa7) && KnownNumeric(0xae)
  {
  }

  lemma CastOpcodeKnown(from: ValType, to: ValType)
    ensures CastOpcode(from, to).Some? ==> KnownNumeric(CastOpcode(from, to).value)
  {
  }

  /** Every numeric opcode in the code of an action has a name in the viewer. */
  lemma ActionKnown(ieee: Ieee, m: ModuleCtx, prog: Program, l: Layout, f: Function, i: Instr, at: Option<nat>)
    requires LowerAction(ieee, m, prog, l, f, i, at).Some?
    ensures KnownCode(LowerAction(ieee, m, prog, l, f, i, at).value)
  {
    hide KnownNumeric;
    hide Opcode;
    hide CastOpcode;
    hide EmitOperands;
    hide CallTarget;
    OpcodeKnown(LNOT, I32);
    match i.action
    case Primitive(op, ops) =>
      if op != LNOT {
        OpcodeKnown(op, ValueType(l, f, ops[0]).value);
      }
    case Cast(_, from, to) =>
      if TypeToVal(from).Some? && TypeToVal(to).Some? {
        CastOpcodeKnown(TypeToVal(from).value, TypeToVal(to).value);
      }
    case Call(_, _, _, _, ops) =>
      OperandsKnown(l, f, prog.fns[CallTarget(m, prog, f, i.action).value.fn].params, ops);
    case _ =>
  }

  // ---- The code can be written and read ------------------------------------------------------

  /** Locals and functions are counted in 32 bits. */
  predicate CountsSmall(wm: Module, l: Layout) {
    Small(|l.types|) && Small(|wm.imports| + |wm.funcs|)
  }

  lemma TruncationFits(wm: Module, f: Function, l: Layout, ops: seq<ValueId>)
    requires LayoutOk(f, l) && LowerCast(l, ops, Some(F64), Some(I64)).Some? && CountsSmall(wm, l)
    ensures CodeFits(LowerCast(l, ops, Some(F64), Some(I64)).value)
  {
    assert LayoutProofs.SlotOk(f, l, ops[0]);
  }

  lemma InstrWritten(m: ModuleCtx, prog: Program, wm: Module, ieee: Ieee, f: Function, l: Layout, i: Instr,
                     at: Option<nat>)
    requires CtxOk(m, prog) && ModuleFor(m, prog, wm) && LayoutOk(f, l) && CountsSmall(wm, l)
    requires InstrOk(f, prog, m, i) && LowerInstrAt(ieee, m, prog, l, f, i, at).Some?
    ensures CodeFits(LowerInstrAt(ieee, m, prog, l, f, i, at).value)
  {
    hide CtxOk;
    hide ModuleFor;
    hide LayoutOk;
    hide ActionOk;
    hide ResultOk;
    hide LowerAction;
    hide StoreResult;
    hide Check;
    hide KnownCode;
    hide CodeFits;
    hide ClassStack;
    var code, setter := LowerAction(ieee, m, prog, l, f, i, at).value, StoreResult(l, i).value;
    CodeJoins(code, setter);
    ResultCheck(wm, None, f, l, i, false);
    CheckedFits(wm, l.types, None, setter, Shape(ClassStack(TypeToVal(i.ty)), false));
    SetterKnown(l, i);
    ActionKnown(ieee, m, prog, l, f, i, at);
    ActionCheck(m, prog, wm, None, ieee, f, l, i, at, false);
    if Truncates(i) {
      CastIs(ieee, m, prog, l, f, i, at);
      TruncationFits(wm, f, l, i.action.operands);
    } else {
      CheckedFits(wm, l.types, None, code, Shape([], false));
    }
  }

  lemma SetterKnown(l: Layout, i: Instr)
    requires StoreResult(l, i).Some?
    ensures KnownCode(StoreResult(l, i).value)
  {
  }

  lemma CastIs(ieee: Ieee, m: ModuleCtx, prog: Program, l: Layout, f: Function, i: Instr, at: Option<nat>)
    requires Truncates(i)
    ensures LowerAction(ieee, m, prog, l, f, i, at) == LowerCast(l, i.action.operands, Some(F64), Some(I64))
  {
  }

  lemma {:induction false} InstrsWritten(m: ModuleCtx, prog: Program, wm: Module, ieee: Ieee, f: Function, l: Layout,
                                         instrs: seq<Instr>, slots: map<string, nat>)
    requires CtxOk(m, prog) && ModuleFor(m, prog, wm) && LayoutOk(f, l) && CountsSmall(wm, l)
    requires InstrsOk(f, prog, m, instrs) && CodeOfInstrs(ieee, m, prog, l, f, instrs, slots).Some?
    ensures CodeFits(CodeOfInstrs(ieee, m, prog, l, f, instrs, slots).value)
    decreases |instrs|
  {
    hide CtxOk;
    hide ModuleFor;
    hide LayoutOk;
    hide InstrOk;
    hide LowerInstrAt;
    hide InstrFits;
    if instrs != [] {
      var at := AddressIn(slots, instrs[0].action);
      InstrWritten(m, prog, wm, ieee, f, l, instrs[0], at);
      InstrsWritten(m, prog, wm, ieee, f, l, instrs[1..], slots);
      CodeJoins(LowerInstrAt(ieee, m, prog, l, f, instrs[0], at).value,
                CodeOfInstrs(ieee, m, prog, l, f, instrs[1..], slots).value);
    }
  }

  lemma TermWritten(wm: Module, f: Function, l: Layout, term: Terminator)
    requires LayoutOk(f, l) && LowerTerm(l, term, ResultType(f).Some?).Some? && CountsSmall(wm, l)
    ensures CodeFits(LowerTerm(l, term, ResultType(f).Some?).value)
  {
    if term.Return? && ResultType(f).Some? {
      assert LayoutProofs.SlotOk(f, l, term.value);
    }
  }

  lemma {:induction false} BlocksWritten(m: ModuleCtx, prog: Program, wm: Module, ieee: Ieee, f: Function, l: Layout,
                                         blocks: seq<Block>, slots: map<string, nat>)
    requires CtxOk(m, prog) && ModuleFor(m, prog, wm) && LayoutOk(f, l) && CountsSmall(wm, l)
    requires BlocksOk(f, prog, m, blocks) && CodeOfBlocks(ieee, m, prog, l, f, blocks, slots).Some?
    ensures CodeFits(CodeOfBlocks(ieee, m, prog, l, f, blocks, slots).value)
    decreases |blocks|
  {
    hide CtxOk;
    hide ModuleFor;
    hide LayoutOk;
    hide InstrsOk;
    hide TermOk;
    hide LowerTerm;
    hide CodeOfInstrs;
    hide ResultType;
    hide CodeFits;
    hide CountsSmall;
    if blocks == [] {
      assert CodeFits([]) by { NothingWritten(); }
    } else {
      var b := blocks[0];
      InstrsWritten(m, prog, wm, ieee, f, l, b.instrs, slots);
      TermWritten(wm, f, l, b.term);
      assert BlocksOk(f, prog, m, blocks[1..]);
      BlocksWritten(m, prog, wm, ieee, f, l, blocks[1..], slots);
      var instrs := CodeOfInstrs(ieee, m, prog, l, f, b.instrs, slots).value;
      var term := LowerTerm(l, b.term, ResultType(f).Some?).value;
      CodeJoins(instrs, term);
      CodeJoins(instrs + term, CodeOfBlocks(ieee, m, prog, l, f, blocks[1..], slots).value);
    }
  }

  lemma NothingWritten()
    ensures CodeFits([])
  {
  }

  /** The body of a well-typed function can be written and read back, whatever its casts. */
  lemma BodyWritten(m: ModuleCtx, prog: Program, wm: Module, ieee: Ieee, f: Function, slots: map<string, nat>,
                    body: Body)
    requires CtxOk(m, prog) && ModuleFor(m, prog, wm)
    requires FunctionOk(prog, m, f) && BodyFor(ieee, m, prog, f, slots, body)
    requires Small(|ParamTypes(f.params)| + |body.locals|) && Small(|wm.imports| + |wm.funcs|)
    ensures CodeFits(body.code)
  {
    hide CtxOk;
    hide ModuleFor;
    hide LayoutOk;
    hide LayoutOf;
    hide InstrsOk;
    hide TermOk;
    hide ParamTypes;
    hide ResultType;
    hide CodeOfBlocks;
    hide ParamsOk;
    hide DefinedBefore;
    hide Placed;
    hide CodeFits;
    LayoutCorrect(prog, m, f);
    var l := LayoutOf(f).value;
    assert ParamTypes(f.params) + body.locals == l.types;
    forall b | 0 <= b < |f.blocks| ensures InstrsOk(f, prog, m, f.blocks[b].instrs) && TermOk(f, f.blocks[b].term) {
      BlockOk(prog, m, f, b);
    }
    BlocksWritten(m, prog, wm, ieee, f, l, f.blocks, slots);
  }

  /** The viewer reads what the backend writes: for every well-typed program that compiles to a module whose parts
      fit 32 bits, valid or not, the bytes parse, and what is shown is the module that was lowered. */
  lemma EmittedReadsBack(ieee: Ieee, prog: Program, g: GlobalTable)
    requires ProgramOk(prog) && TableOk(g) && LowerProgram(ieee, prog, g).0.Some?
    requires WellTypedProgram(prog, BuildCtx(prog).value) && SizesSmall(LowerProgram(ieee, prog, g).0.value)
    ensures var m := LowerProgram(ieee, prog, g).0.value;
            ParseModule(EncodeModule(m)) == Some(ViewOf(m))
  {
    hide LowerProgram;
    hide TableOk;
    hide ModuleFits;
    hide ParseModule;
    hide EncodeModule;
    hide EncodeBody;
    hide ViewOf;
    hide FunctionOk;
    hide BuildCtx;
    hide BodyFor;
    hide CtxOk;
    hide CodeFits;
    hide TypesFit;
    hide ImportsFit;
    hide ParamTypes;
    hide ResultType;
    CompiledShape(ieee, prog, g);
    EmittedIndices(ieee, prog, g);
    var (r, h) := LowerProgram(ieee, prog, g);
    var wm, m := r.value, BuildCtx(prog).value;
    forall k | 0 <= k < |wm.bodies| ensures CodeFits(wm.bodies[k].code) {
      DefType(m, prog, k);
      BodyWritten(m, prog, wm, ieee, prog.fns[m.defs[k].fn], h.slots, wm.bodies[k]);
    }
    IndicesFitModule(wm);
    ModuleRoundTrip(wm);
  }

  // ---- What the host has to know --------------------------------------------------------------

  /** The names a module shares with its host: it imports `memory`, then `ylc_print_int` and `ylc_print_string` for one
      32-bit integer and `ylc_abort` for none, then the external functions by their names, all from `env`, and exports
      its entry as `ylc_entry`. */
  lemma HostNames(ieee: Ieee, prog: Program, g: GlobalTable)
    requires ProgramOk(prog) && TableOk(g) && LowerProgram(ieee, prog, g).0.Some?
    ensures var wm, m := LowerProgram(ieee, prog, g).0.value, BuildCtx(prog).value;
            && |wm.imports| == 3 + |m.imports| && |wm.types| >= 2
            && wm.types[0] == FuncType([I32], None) && wm.types[1] == FuncType([], None)
            && wm.imports[0] == FuncImport("ylc_print_int", 0)
            && wm.imports[1] == FuncImport("ylc_print_string", 0)
            && wm.imports[2] == FuncImport("ylc_abort", 1)
            && (forall k :: 0 <= k < |m.imports| ==>
                  m.imports[k].fn < |prog.fns| && wm.imports[3 + k].name == prog.fns[m.imports[k].fn].name)
            && ViewOf(wm).imports != [] && ViewOf(wm).exports != []
            && ViewOf(wm).imports[0] == ImportView(NameBytes("env"), NameBytes("memory"), Some(2), 0, Some(1))
            && ViewOf(wm).exports == [ExportView(NameBytes("ylc_entry"), 0, wm.entry)]
  {
    hide LowerProgram;
    hide TableOk;
    hide BuildCtx;
    hide BodyFor;
    hide TypeOfFunction;
    hide NameBytes;
    hide ViewImports;
    hide ViewTypes;
    hide ViewBodies;
    CompiledShape(ieee, prog, g);
    var wm, m := LowerProgram(ieee, prog, g).0.value, BuildCtx(prog).value;
    InitialTypes();
    assert INITIAL_TYPES <= wm.types;
    forall k | 0 <= k < |m.imports|
      ensures m.imports[k].fn < |prog.fns| && wm.imports[3 + k].name == prog.fns[m.imports[k].fn].name
    {
      assert DefOk(m, prog, m.imports[k], BUILTINS + k, true);
      assert wm.imports[3 + k] == ImportsOf(m.imports, prog)[k];
    }
  }

  lemma InitialTypes()
    ensures |INITIAL_TYPES| == 2 && |BUILTIN_IMPORTS| == 3
    ensures INITIAL_TYPES[0] == FuncType([I32], None) && INITIAL_TYPES[1] == FuncType([], None)
    ensures BUILTIN_IMPORTS[0] == FuncImport("ylc_print_int", 0)
    ensures BUILTIN_IMPORTS[1] == FuncImport("ylc_print_string", 0)
    ensures BUILTIN_IMPORTS[2] == FuncImport("ylc_abort", 1)
  {
  }
}
