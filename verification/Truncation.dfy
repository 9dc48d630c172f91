/** A program whose one cast the backend gets wrong: a 64-bit float truncated to a 64-bit integer. */
module Truncation {
  import opened Wrappers
  import opened Mir
  import opened MirEval
  import opened Wasm
  import opened Globals
  import opened Lowering
  import opened WellTyped
  import opened CompilerTheorems

  const NUM: Type := Type(KNum, "", None)
  const UINT64: Type := Type(KUint64, "", None)
  const CAST: Instr := Instr(Cast([0], NUM, UINT64), Some(1), UINT64)

  /** `$top` casts its `Num` to `Uint64` and returns it. */
  const CONVERT: Function :=
    Function(TOP, Type(KFn(NUM, UINT64), "", None), false, [Param(0, "x", NUM)], [Block([CAST], Return(1))],
             [NUM, UINT64])

  const PROGRAM: Program := Program([CONVERT], [0])

  const CONTEXT: ModuleCtx :=
    ModuleCtx(INITIAL_TYPES + [FuncType([F64], Some(I64))], [], [FuncDef(0, 2, 3, Some(I64))])

  const LAYOUT: Layout := Layout([InLocal(0), InLocal(1)], [F64, I64], 1)

  const CODE: Code := [LocalGet(0), Numeric(0xae), LocalSet(1), LocalGet(1), IReturn]

  lemma Signature()
    ensures ParamTypes(CONVERT.params) == [F64] && ReturnType(CONVERT) == UINT64
    ensures TypeOfFunction(CONVERT) == FuncType([F64], Some(I64)) && InstrsOf(CONVERT.blocks) == [CAST]
  {
    assert ParamTypes(CONVERT.params[1..]) == [];
    assert ReturnTypeFrom(CONVERT, 1, UINT64, false) == UINT64;
    assert InstrsOf(CONVERT.blocks[1..]) == [];
  }

  lemma Context()
    ensures ProgramOk(PROGRAM) && BuildCtx(PROGRAM) == Some(CONTEXT)
  {
    Signature();
    hide TypeOfFunction;
    hide ReturnType;
    hide Supported;
    var m0, t := ModuleCtx(INITIAL_TYPES, [], []), FuncType([F64], Some(I64));
    assert PROGRAM.listed[1..] == [];
    assert AddImports(m0, PROGRAM, PROGRAM.listed) == Some(m0);
    NewType(t);
    assert DefWanted(PROGRAM, 0);
    hide AddType;
    hide FindType;
    assert ResultType(CONVERT) == Some(I64) && PROGRAM.fns[0] == CONVERT;
    assert [] + [FuncDef(0, 2, 3, Some(I64))] == CONTEXT.defs;
    assert AddFuncDef(m0, PROGRAM, 0, false) == Some(CONTEXT);
    assert AddDefs(CONTEXT, PROGRAM, []) == Some(CONTEXT);
  }

  lemma {:induction false} NewType(t: FuncType)
    requires t == FuncType([F64], Some(I64))
    ensures FindType(INITIAL_TYPES, t) == 2 && AddType(INITIAL_TYPES, t) == INITIAL_TYPES + [t]
  {
    var rest := INITIAL_TYPES[1..];
    assert rest == [FuncType([], None)] && rest[1..] == [];
    assert FindType(rest[1..], t) == 0 && FindType(rest, t) == 1;
  }

  lemma Places()
    ensures LayoutOf(CONVERT) == Some(LAYOUT)
  {
    Signature();
    var empty := EmptyLayout(2);
    var one := Layout([InLocal(0), Pending], [F64], 1);
    assert empty.slots == [Pending, Pending] && [] + [F64] == [F64] && [F64] + [I64] == [F64, I64];
    assert LoweredParam(CONVERT.params[0]) == Some(F64);
    assert empty.slots[0 := InLocal(0)] == one.slots && one.slots[1 := InLocal(1)] == LAYOUT.slots;
    assert AddParam(empty, CONVERT.params[0]) == Some(one);
    assert CONVERT.params[1..] == [] && AddParams(one, []) == Some(one);
    assert DeclareInstr(one, CAST) == Some(LAYOUT);
    assert [CAST][1..] == [] && DeclareInstrs(LAYOUT, []) == Some(LAYOUT);
  }

  lemma {:induction false} Lowered(ieee: Ieee, g: GlobalTable)
    ensures LowerFunction(ieee, CONTEXT, PROGRAM, CONVERT, g) == (Some(Body([I64], CODE)), g)
  {
    Signature();
    Places();
    hide LayoutOf;
    hide ReturnType;
    hide TypeOfFunction;
    var cast := [LocalGet(0), Numeric(0xae), LocalSet(1)];
    assert LowerCast(LAYOUT, [0], Some(F64), Some(I64)) == Some([LocalGet(0)] + [Numeric(0xae)]);
    assert [LocalGet(0)] + [Numeric(0xae)] + [LocalSet(1)] == cast;
    assert LowerInstrAt(ieee, CONTEXT, PROGRAM, LAYOUT, CONVERT, CAST, None) == Some(cast);
    assert LowerInstrs(ieee, CONTEXT, PROGRAM, LAYOUT, CONVERT, [], g) == (Some([]), g);
    assert [CAST][1..] == [] && cast + [] == cast;
    assert LowerInstrs(ieee, CONTEXT, PROGRAM, LAYOUT, CONVERT, [CAST], g) == (Some(cast), g);
    assert LowerBlocks(ieee, CONTEXT, PROGRAM, LAYOUT, CONVERT, [], g) == (Some([]), g);
    assert CONVERT.blocks[1..] == [];
    assert [LocalGet(1)] + [IReturn] == [LocalGet(1), IReturn];
    assert LowerTerm(LAYOUT, Return(1), true) == Some([LocalGet(1), IReturn]);
    assert cast + [LocalGet(1), IReturn] + [] == CODE;
    assert LowerBlocks(ieee, CONTEXT, PROGRAM, LAYOUT, CONVERT, CONVERT.blocks, g) == (Some(CODE), g);
    assert LAYOUT.types[1..] == [I64];
  }

  lemma {:induction false} Compiled(ieee: Ieee, g: GlobalTable)
    ensures ProgramOk(PROGRAM)
    ensures var r := LowerProgram(ieee, PROGRAM, g).0; r.Some? && r.value.bodies == [Body([I64], CODE)]
  {
    Context();
    Lowered(ieee, g);
    hide LowerFunction;
    hide BuildCtx;
    assert CONTEXT.defs[1..] == [];
    assert LowerFunctions(ieee, CONTEXT, PROGRAM, [], g) == (Some([]), g);
    assert PROGRAM.fns[CONTEXT.defs[0].fn] == CONVERT && [Body([I64], CODE)] + [] == [Body([I64], CODE)];
    assert LowerFunctions(ieee, CONTEXT, PROGRAM, CONTEXT.defs, g).0 == Some([Body([I64], CODE)]);
  }

  lemma Typed()
    ensures WellTypedProgram(PROGRAM, CONTEXT)
  {
    Signature();
    hide ReturnType;
    hide TypeOfFunction;
    assert InstrOk(CONVERT, PROGRAM, CONTEXT, CAST);
    assert DefinedBefore(PROGRAM, CONVERT, [], Return(1), {0} + Defines(CAST));
    assert [CAST][1..] == [] && ParamValues(CONVERT.params) == {0} by { assert CONVERT.params[0] in CONVERT.params; }
    assert DefinedBefore(PROGRAM, CONVERT, [CAST], Return(1), {0});
  }

  /** The program is well typed and compiles, and the module is not valid. */
  lemma {:induction false} InvalidModule(ieee: Ieee, g: GlobalTable)
    requires TableOk(g)
    ensures ProgramOk(PROGRAM) && BuildCtx(PROGRAM).Some? && WellTypedProgram(PROGRAM, BuildCtx(PROGRAM).value)
    ensures var r := LowerProgram(ieee, PROGRAM, g).0;
            r.Some? && r.value.bodies == [Body([I64], CODE)] && !ValidModule(r.value)
  {
    hide LowerProgram;
    hide BuildCtx;
    hide ValidModule;
    hide WellTypedProgram;
    Context();
    Typed();
    Compiled(ieee, g);
    EmittedModuleValid(ieee, PROGRAM, g);
    assert InstrsOf(CONVERT.blocks) == [CAST] by { Signature(); }
    assert Truncates([CAST][0]);
    assert PROGRAM.fns[CONTEXT.defs[0].fn] == CONVERT;
  }
}
