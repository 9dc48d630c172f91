/** The module under construction: indices denote their functions, and the code of a body does not
    depend on when the addresses of its globals were assigned. */
module ModuleProofs {
  import opened Wrappers
  import opened Mir
  import opened MirEval
  import opened Wasm
  import opened Globals
  import opened Lowering

  // ---- Function indices ----------------------------------------------------------

  /** A definition names a function of the right kind, with its own index and its own type. */
  predicate DefOk(m: ModuleCtx, prog: Program, d: FuncDef, index: nat, extern_: bool) {
    && d.fn < |prog.fns|
    && prog.fns[d.fn].isExtern == extern_
    && d.funcIndex == index
    && d.typeIndex < |m.types|
    && m.types[d.typeIndex] == TypeOfFunction(prog.fns[d.fn])
  }

  ghost predicate CtxOk(m: ModuleCtx, prog: Program) {
    && INITIAL_TYPES <= m.types
    && (forall k :: 0 <= k < |m.imports| ==> DefOk(m, prog, m.imports[k], BUILTINS + k, true))
    && (forall k :: 0 <= k < |m.defs| ==> DefOk(m, prog, m.defs[k], BUILTINS + |m.imports| + k, false))
  }

  lemma AddFuncDefOk(m: ModuleCtx, prog: Program, id: FnId, asImport: bool)
    requires CtxOk(m, prog) && id < |prog.fns| && prog.fns[id].isExtern == asImport && (asImport ==> m.defs == [])
    requires AddFuncDef(m, prog, id, asImport).Some?
    ensures var r := AddFuncDef(m, prog, id, asImport).value;
            CtxOk(r, prog) && r.imports == (if asImport then m.imports + [r.imports[|m.imports|]] else m.imports)
            && (asImport ==> r.defs == [])
  {
    hide TypeOfFunction;
    hide FindType;
    var r := AddFuncDef(m, prog, id, asImport).value;
    assert m.types <= r.types;
    forall k | 0 <= k < |m.imports| ensures DefOk(r, prog, r.imports[k], BUILTINS + k, true) {
      assert DefOk(m, prog, m.imports[k], BUILTINS + k, true);
    }
    forall k | 0 <= k < |m.defs| ensures DefOk(r, prog, r.defs[k], BUILTINS + |m.imports| + k, false) {
      assert DefOk(m, prog, m.defs[k], BUILTINS + |m.imports| + k, false);
    }
  }

  lemma {:induction false} AddImportsOk(m: ModuleCtx, prog: Program, ids: seq<FnId>)
    requires CtxOk(m, prog) && m.defs == [] && IdsOk(prog, ids) && AddImports(m, prog, ids).Some?
    ensures CtxOk(AddImports(m, prog, ids).value, prog) && AddImports(m, prog, ids).value.defs == []
    decreases |ids|
  {
    hide AddFuncDef;
    hide CtxOk;
    if ids == [] {
    } else if !ImportWanted(prog.fns[ids[0]]) {
      AddImportsOk(m, prog, ids[1..]);
    } else {
      AddFuncDefOk(m, prog, ids[0], true);
      AddImportsOk(AddFuncDef(m, prog, ids[0], true).value, prog, ids[1..]);
    }
  }

  lemma {:induction false} AddDefsOk(m: ModuleCtx, prog: Program, ids: seq<FnId>)
    requires CtxOk(m, prog) && IdsOk(prog, ids) && AddDefs(m, prog, ids).Some?
    ensures CtxOk(AddDefs(m, prog, ids).value, prog)
    decreases |ids|
  {
    hide AddFuncDef;
    hide CtxOk;
    if ids == [] {
    } else if !DefWanted(prog, ids[0]) {
      AddDefsOk(m, prog, ids[1..]);
    } else {
      AddFuncDefOk(m, prog, ids[0], false);
      AddDefsOk(AddFuncDef(m, prog, ids[0], false).value, prog, ids[1..]);
    }
  }

  /** Function indices are the positions in the index space, imports first, and every definition has
      the type of its function. */
  lemma IndicesCorrect(prog: Program)
    requires ProgramOk(prog) && BuildCtx(prog).Some?
    ensures CtxOk(BuildCtx(prog).value, prog)
  {
    hide AddImports;
    hide AddDefs;
    var m0 := ModuleCtx(INITIAL_TYPES, [], []);
    AddImportsOk(m0, prog, prog.listed);
    AddDefsOk(AddImports(m0, prog, prog.listed).value, prog, prog.listed);
  }

  lemma {:induction false} FindByIdAt(defs: seq<FuncDef>, id: FnId) returns (k: nat)
    requires FindById(defs, id).Some?
    ensures k < |defs| && defs[k].fn == id && FindById(defs, id) == Some(defs[k])
  {
    if defs[0].fn == id {
      k := 0;
    } else {
      k := FindByIdAt(defs[1..], id);
      k := k + 1;
    }
  }

  /** The emitted module belongs to a context. */
  predicate ModuleFor(m: ModuleCtx, prog: Program, wm: Module) {
    && wm.types == m.types
    && wm.imports == BUILTIN_IMPORTS + ImportsOf(m.imports, prog)
    && wm.funcs == TypeIndices(m.defs)
    && |wm.bodies| == |m.defs|
  }

  /** The index of a call names its target: an import with the target's name, or the body of the target. */
  lemma IndexDenotes(m: ModuleCtx, prog: Program, wm: Module, id: FnId)
    requires CtxOk(m, prog) && ModuleFor(m, prog, wm) && LookupId(m, id).Some?
    ensures id < |prog.fns|
    ensures var d := LookupId(m, id).value;
            && d.fn == id
            && TypeOfFunc(wm, d.funcIndex) == Some(TypeOfFunction(prog.fns[id]))
            && d.typeIndex < |m.types| && m.types[d.typeIndex] == TypeOfFunction(prog.fns[id])
            && (prog.fns[id].isExtern ==>
                  BUILTINS <= d.funcIndex < |wm.imports| && wm.imports[d.funcIndex].name == prog.fns[id].name)
            && (!prog.fns[id].isExtern ==>
                  && |wm.imports| <= d.funcIndex < |wm.imports| + |wm.bodies|
                  && m.defs[d.funcIndex - |wm.imports|].fn == id)
  {
    hide TypeOfFunction;
    if FindById(m.imports, id).Some? {
      var k := FindByIdAt(m.imports, id);
      assert DefOk(m, prog, m.imports[k], BUILTINS + k, true);
      assert wm.imports[BUILTINS + k] == ImportsOf(m.imports, prog)[k];
    } else {
      var k := FindByIdAt(m.defs, id);
      assert DefOk(m, prog, m.defs[k], BUILTINS + |m.imports| + k, false);
      assert wm.funcs[k] == m.defs[k].typeIndex;
    }
  }

  // ---- Addresses -------------------------------------------------------------------

  /** The address of the global an instruction names, in a finished slot table. */
  function AddressIn(slots: map<string, nat>, a: Action): Option<nat> {
    match GlobalName(a)
    case None => None
    case Some(name) => if name in slots then Some(slots[name]) else None
  }

  function CodeOfInstrs(ieee: Ieee, m: ModuleCtx, prog: Program, l: Layout, f: Function, instrs: seq<Instr>,
                        slots: map<string, nat>): (code: Option<Code>)
  {
    if instrs == [] then Some([])
    else
      var first := LowerInstrAt(ieee, m, prog, l, f, instrs[0], AddressIn(slots, instrs[0].action));
      var rest := CodeOfInstrs(ieee, m, prog, l, f, instrs[1..], slots);
      if first.None? || rest.None? then None else Some(first.value + rest.value)
  }

  function CodeOfBlocks(ieee: Ieee, m: ModuleCtx, prog: Program, l: Layout, f: Function, blocks: seq<Block>,
                        slots: map<string, nat>): (code: Option<Code>)
  {
    if blocks == [] then Some([])
    else
      var instrs := CodeOfInstrs(ieee, m, prog, l, f, blocks[0].instrs, slots);
      var term := LowerTerm(l, blocks[0].term, ResultType(f).Some?);
      var rest := CodeOfBlocks(ieee, m, prog, l, f, blocks[1..], slots);
      if instrs.None? || term.None? || rest.None? then None else Some(instrs.value + term.value + rest.value)
  }

  /** A body is the code of a function with the addresses of a finished slot table. */
  predicate BodyFor(ieee: Ieee, m: ModuleCtx, prog: Program, f: Function, slots: map<string, nat>, body: Body) {
    var l := LayoutOf(f);
    && l.Some? && l.value.paramCount <= |l.value.types|
    && body.locals == l.value.types[l.value.paramCount..]
    && CodeOfBlocks(ieee, m, prog, l.value, f, f.blocks, slots) == Some(body.code)
    && (f.blocks == [] ==> ResultType(f).None?)
  }

  predicate Submap(a: map<string, nat>, b: map<string, nat>) {
    forall name :: name in a ==> name in b && b[name] == a[name]
  }

  lemma AddressForOk(g: GlobalTable, a: Action)
    requires TableOk(g)
    ensures var (at, h) := AddressFor(g, a);
            && TableOk(h) && Extends(h, g) && Submap(g.slots, h.slots)
            && (at.Some? ==> AddressIn(h.slots, a) == at)
            && (at.None? && GlobalName(a).None? ==> h == g)
  {
    if GlobalName(a).Some? {
      AddressCorrect(g, GlobalName(a).value);
    }
  }

  lemma NoAddress(ieee: Ieee, m: ModuleCtx, prog: Program, l: Layout, f: Function, i: Instr, at: Option<nat>)
    requires GlobalName(i.action).None?
    ensures LowerInstrAt(ieee, m, prog, l, f, i, at) == LowerInstrAt(ieee, m, prog, l, f, i, None)
  {
    hide LowerPrimitive;
    hide LowerConst;
    hide LowerCast;
    hide LowerPrint;
    hide LowerCall;
  }

  /** Lowering that fails without an address does not fail for another reason. */
  lemma NeedsAddress(ieee: Ieee, m: ModuleCtx, prog: Program, l: Layout, f: Function, i: Instr)
    requires GlobalName(i.action).Some?
    ensures LowerInstrAt(ieee, m, prog, l, f, i, None).None?
  {
  }

  lemma ExtendsTrans(a: GlobalTable, b: GlobalTable, c: GlobalTable)
    requires Extends(b, a) && Extends(c, b)
    ensures Extends(c, a) && Submap(a.slots, c.slots) && Submap(b.slots, c.slots)
  {
  }

  lemma {:induction false} InstrsLinked(ieee: Ieee, m: ModuleCtx, prog: Program, l: Layout, f: Function,
                                        instrs: seq<Instr>, g: GlobalTable, slots: map<string, nat>)
    requires TableOk(g)
    requires var (code, h) := LowerInstrs(ieee, m, prog, l, f, instrs, g); code.Some? ==> Submap(h.slots, slots)
    ensures var (code, h) := LowerInstrs(ieee, m, prog, l, f, instrs, g);
            && TableOk(h) && Extends(h, g)
            && (code.Some? ==> CodeOfInstrs(ieee, m, prog, l, f, instrs, slots) == code)
    decreases |instrs|
  {
    hide LowerInstrAt;
    hide AddressFor;
    hide AddressIn;
    hide TableOk;
    hide Extends;
    if instrs == [] {
      ExtendsRefl(g);
    } else {
      var i := instrs[0];
      AddressForOk(g, i.action);
      var (at, g') := AddressFor(g, i.action);
      var first := LowerInstrAt(ieee, m, prog, l, f, i, at);
      if first.Some? {
        InstrsLinked(ieee, m, prog, l, f, instrs[1..], g', slots);
        var (rest, h) := LowerInstrs(ieee, m, prog, l, f, instrs[1..], g');
        ExtendsTrans(g, g', h);
        if rest.Some? {
          SameAddress(ieee, m, prog, l, f, i, g, slots);
        }
      }
    }
  }

  lemma ExtendsRefl(g: GlobalTable)
    ensures Extends(g, g)
  {
  }

  lemma SameAddress(ieee: Ieee, m: ModuleCtx, prog: Program, l: Layout, f: Function, i: Instr, g: GlobalTable,
                    slots: map<string, nat>)
    requires TableOk(g)
    requires var (at, h) := AddressFor(g, i.action);
             LowerInstrAt(ieee, m, prog, l, f, i, at).Some? && Submap(h.slots, slots)
    ensures LowerInstrAt(ieee, m, prog, l, f, i, AddressIn(slots, i.action))
            == LowerInstrAt(ieee, m, prog, l, f, i, AddressFor(g, i.action).0)
  {
    hide LowerInstrAt;
    AddressForOk(g, i.action);
    var (at, h) := AddressFor(g, i.action);
    if GlobalName(i.action).None? {
      NoAddress(ieee, m, prog, l, f, i, at);
    } else if at.None? {
      NeedsAddress(ieee, m, prog, l, f, i);
    }
  }

  lemma {:induction false} BlocksLinked(ieee: Ieee, m: ModuleCtx, prog: Program, l: Layout, f: Function,
                                        blocks: seq<Block>, g: GlobalTable, slots: map<string, nat>)
    requires TableOk(g)
    requires var (code, h) := LowerBlocks(ieee, m, prog, l, f, blocks, g); code.Some? ==> Submap(h.slots, slots)
    ensures var (code, h) := LowerBlocks(ieee, m, prog, l, f, blocks, g);
            && TableOk(h) && Extends(h, g)
            && (code.Some? ==> CodeOfBlocks(ieee, m, prog, l, f, blocks, slots) == code)
    decreases |blocks|
  {
    hide LowerInstrs;
    hide LowerTerm;
    hide CodeOfInstrs;
    hide TableOk;
    hide Extends;
    hide Submap;
    if blocks == [] {
      ExtendsRefl(g);
    } else {
      var (code, g') := LowerInstrs(ieee, m, prog, l, f, blocks[0].instrs, g);
      InstrsValid(ieee, m, prog, l, f, blocks[0].instrs, g);
      if code.Some? && LowerTerm(l, blocks[0].term, ResultType(f).Some?).Some? {
        BlocksLinked(ieee, m, prog, l, f, blocks[1..], g', slots);
        var (rest, h) := LowerBlocks(ieee, m, prog, l, f, blocks[1..], g');
        ExtendsTrans(g, g', h);
        if rest.Some? {
          SubmapTrans(g'.slots, h.slots, slots);
          InstrsLinked(ieee, m, prog, l, f, blocks[0].instrs, g, slots);
        }
      }
    }
  }

  lemma SubmapTrans(a: map<string, nat>, b: map<string, nat>, c: map<string, nat>)
    requires Submap(a, b) && Submap(b, c)
    ensures Submap(a, c)
  {
  }

  lemma InstrsValid(ieee: Ieee, m: ModuleCtx, prog: Program, l: Layout, f: Function, instrs: seq<Instr>, g: GlobalTable)
    requires TableOk(g)
    ensures var (_, h) := LowerInstrs(ieee, m, prog, l, f, instrs, g); TableOk(h) && Extends(h, g)
  {
    hide LowerInstrs;
    var (_, h) := LowerInstrs(ieee, m, prog, l, f, instrs, g);
    InstrsLinked(ieee, m, prog, l, f, instrs, g, h.slots);
  }

  lemma FunctionLinked(ieee: Ieee, m: ModuleCtx, prog: Program, f: Function, g: GlobalTable, slots: map<string, nat>)
    requires TableOk(g)
    requires var (body, h) := LowerFunction(ieee, m, prog, f, g); body.Some? ==> Submap(h.slots, slots)
    ensures var (body, h) := LowerFunction(ieee, m, prog, f, g);
            && TableOk(h) && Extends(h, g)
            && (body.Some? ==> BodyFor(ieee, m, prog, f, slots, body.value))
  {
    hide LowerBlocks;
    hide CodeOfBlocks;
    hide LayoutOf;
    hide TableOk;
    hide Extends;
    ExtendsRefl(g);
    if LayoutOf(f).Some? {
      var l := LayoutOf(f).value;
      var (code, h) := LowerBlocks(ieee, m, prog, l, f, f.blocks, g);
      if code.Some? && !(f.blocks == [] && ResultType(f).Some?) && l.paramCount <= |l.types| {
        BlocksLinked(ieee, m, prog, l, f, f.blocks, g, slots);
      } else {
        BlocksLinked(ieee, m, prog, l, f, f.blocks, g, h.slots);
      }
    }
  }

  lemma {:induction false} FunctionsLinked(ieee: Ieee, m: ModuleCtx, prog: Program, defs: seq<FuncDef>, g: GlobalTable,
                                           slots: map<string, nat>)
    requires TableOk(g)
    requires var (bodies, h) := LowerFunctions(ieee, m, prog, defs, g); bodies.Some? ==> Submap(h.slots, slots)
    ensures var (bodies, h) := LowerFunctions(ieee, m, prog, defs, g);
            && TableOk(h) && Extends(h, g)
            && (bodies.Some? ==>
                  && |bodies.value| == |defs|
                  && forall k :: 0 <= k < |defs| ==>
                       (defs[k].fn < |prog.fns|
                        && BodyFor(ieee, m, prog, prog.fns[defs[k].fn], slots, bodies.value[k])))
    decreases |defs|
  {
    hide LowerFunction;
    hide BodyFor;
    hide TableOk;
    hide Extends;
    hide Submap;
    ExtendsRefl(g);
    if defs != [] && defs[0].fn < |prog.fns| {
      var f := prog.fns[defs[0].fn];
      var (body, g') := LowerFunction(ieee, m, prog, f, g);
      FunctionValid(ieee, m, prog, f, g);
      if body.Some? {
        FunctionsLinked(ieee, m, prog, defs[1..], g', slots);
        var (rest, h) := LowerFunctions(ieee, m, prog, defs[1..], g');
        ExtendsTrans(g, g', h);
        if rest.Some? {
          SubmapTrans(g'.slots, h.slots, slots);
          FunctionLinked(ieee, m, prog, f, g, slots);
        }
      }
    }
  }

  lemma FunctionValid(ieee: Ieee, m: ModuleCtx, prog: Program, f: Function, g: GlobalTable)
    requires TableOk(g)
    ensures var (_, h) := LowerFunction(ieee, m, prog, f, g); TableOk(h) && Extends(h, g)
  {
    hide LowerFunction;
    var (_, h) := LowerFunction(ieee, m, prog, f, g);
    FunctionLinked(ieee, m, prog, f, g, h.slots);
  }
}
