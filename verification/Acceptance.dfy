/** The functions the backend accepts: closed under direct calls, free of mutual recursion, and, without
    self-recursion, of bounded call depth. */
module Acceptance {
  import opened Wrappers
  import opened Mir
  import opened MirEval
  import opened Lowering
  import opened WellTyped

  /** Some instruction of `id` calls `t` directly. */
  ghost predicate Calls(prog: Program, id: FnId, t: FnId) {
    && id < |prog.fns| && t < |prog.fns|
    && exists i :: i in InstrsOf(prog.fns[id].blocks) && CallsTo(prog.fns[id], i.action, t)
  }

  predicate CallsTo(f: Function, a: Action, t: FnId) {
    a.Call? && DirectTarget(f, a) == Some(t)
  }

  predicate Defined(prog: Program, id: FnId) {
    id < |prog.fns| && !prog.fns[id].isExtern
  }

  /** The callee of an accepted function is accepted one level deeper. */
  lemma CalleeSupported(prog: Program, id: FnId, depth: nat, t: FnId)
    requires Supported(prog, id, depth) && Calls(prog, id, t) && Defined(prog, id) && Defined(prog, t) && t != id
    ensures depth <= 32 && Supported(prog, t, depth + 1)
  {
    hide InstrsOf;
    hide DirectTarget;
    hide HasTypeVars;
    var f := prog.fns[id];
    var instrs := InstrsOf(f.blocks);
    var i :| i in instrs && CallsTo(f, i.action, t);
    var k :| 0 <= k < |instrs| && instrs[k] == i;
    assert InstrSupported(prog, id, instrs[k].action, depth);
  }

  /** Acceptance is monotone in the depth that is left. */
  lemma {:induction false} SupportedMonotone(prog: Program, id: FnId, depth: nat, less: nat)
    requires Supported(prog, id, depth) && less <= depth
    ensures Supported(prog, id, less)
    decreases 33 - depth
  {
    hide InstrsOf;
    hide DirectTarget;
    hide HasTypeVars;
    var f := prog.fns[id];
    if !f.isExtern {
      var instrs := InstrsOf(f.blocks);
      forall k | 0 <= k < |instrs| ensures InstrSupported(prog, id, instrs[k].action, less) {
        assert InstrSupported(prog, id, instrs[k].action, depth);
        InstrMonotone(prog, id, instrs[k].action, depth, less);
      }
    }
  }

  lemma {:induction false} InstrMonotone(prog: Program, id: FnId, a: Action, depth: nat, less: nat)
    requires id < |prog.fns| && depth <= 32 && less <= depth && InstrSupported(prog, id, a, depth)
    ensures InstrSupported(prog, id, a, less)
    decreases 33 - depth, 0
  {
    hide DirectTarget;
    if a.Call? {
      var t := DirectTarget(prog.fns[id], a).value;
      if t != id && !prog.fns[t].isExtern {
        assert Supported(prog, t, depth + 1);
        SupportedMonotone(prog, t, depth + 1, less + 1);
      }
    }
  }

  /** Every function called by an accepted function is accepted on its own. */
  lemma AcceptedClosed(prog: Program, id: FnId, t: FnId)
    requires Supported(prog, id, 0) && Calls(prog, id, t) && Defined(prog, id) && Defined(prog, t)
    ensures Supported(prog, t, 0)
  {
    if t != id {
      CalleeSupported(prog, id, 0, t);
      SupportedMonotone(prog, t, 1, 0);
    }
  }

  /** A chain of calls between different defined functions, each calling the next. */
  ghost predicate CallChain(prog: Program, chain: seq<FnId>) {
    && (forall k :: 0 <= k < |chain| ==> Defined(prog, chain[k]))
    && (forall k :: 0 <= k < |chain| - 1 ==> chain[k] != chain[k + 1] && Calls(prog, chain[k], chain[k + 1]))
  }

  /** Chains from an accepted function are short. */
  lemma {:induction false} ChainBounded(prog: Program, chain: seq<FnId>, depth: nat)
    requires CallChain(prog, chain) && chain != [] && Supported(prog, chain[0], depth)
    ensures |chain| + depth <= 33
    decreases |chain|
  {
    hide Supported;
    hide Calls;
    assert Defined(prog, chain[0]);
    if |chain| == 1 {
      DepthBound(prog, chain[0], depth);
    } else {
      assert Calls(prog, chain[0], chain[1]) && Defined(prog, chain[1]);
      CalleeSupported(prog, chain[0], depth, chain[1]);
      forall k | 0 <= k < |chain[1..]| - 1
        ensures chain[1..][k] != chain[1..][k + 1] && Calls(prog, chain[1..][k], chain[1..][k + 1])
      {
        assert chain[k + 1] != chain[k + 2] && Calls(prog, chain[k + 1], chain[k + 2]);
      }
      ChainBounded(prog, chain[1..], depth + 1);
    }
  }

  lemma DepthBound(prog: Program, id: FnId, depth: nat)
    requires Supported(prog, id, depth) && Defined(prog, id)
    ensures depth <= 32
  {
  }

  /** What is asked of a function alone: no type variables, no instruction without lowering, direct calls only, and no
      branches. */
  predicate Fine(prog: Program, id: FnId) {
    id < |prog.fns| &&
    var f := prog.fns[id];
    && !HasTypeVars(f.ty)
    && (forall i :: i in InstrsOf(f.blocks) ==>
          !i.action.Unsupported?
          && (i.action.Call? ==> DirectTarget(f, i.action).Some? && DirectTarget(f, i.action).value < |prog.fns|))
    && forall b :: b in f.blocks ==> !b.term.Branching?
  }

  ghost predicate ChainFrom(prog: Program, id: FnId, chain: seq<FnId>) {
    CallChain(prog, chain) && chain != [] && chain[0] == id
  }

  ghost predicate ChainsFine(prog: Program, id: FnId, depth: nat) {
    forall chain: seq<FnId> :: ChainFrom(prog, id, chain) ==>
                                 |chain| + depth <= 33 && Fine(prog, chain[|chain| - 1])
  }

  /** A defined function is accepted if and only if every chain of calls from it is short enough and ends at a function
      that is fine. */
  lemma {:induction false} AcceptedExactly(prog: Program, id: FnId, depth: nat)
    requires Defined(prog, id)
    ensures Supported(prog, id, depth) <==> ChainsFine(prog, id, depth)
    decreases if depth <= 33 then 33 - depth else 0
  {
    hide Supported;
    hide CallChain;
    hide Calls;
    hide Fine;
    if Supported(prog, id, depth) {
      forall chain: seq<FnId> | ChainFrom(prog, id, chain)
        ensures |chain| + depth <= 33 && Fine(prog, chain[|chain| - 1])
      {
        ChainFromBounded(prog, id, chain, depth);
      }
    }
    if ChainsFine(prog, id, depth) {
      assert ChainFrom(prog, id, [id]) by { Alone(prog, id); }
      assert |[id]| + depth <= 33 && Fine(prog, [id][|[id]| - 1]);
      forall t | Calls(prog, id, t) && Defined(prog, t) && t != id
        ensures Supported(prog, t, depth + 1)
      {
        forall chain: seq<FnId> | ChainFrom(prog, t, chain)
          ensures |chain| + depth + 1 <= 33 && Fine(prog, chain[|chain| - 1])
        {
          LongerChain(prog, id, t, chain);
          assert ([id] + chain)[|chain|] == chain[|chain| - 1];
        }
        AcceptedExactly(prog, t, depth + 1);
      }
      FineSupported(prog, id, depth);
    }
  }

  lemma Alone(prog: Program, id: FnId)
    requires Defined(prog, id)
    ensures CallChain(prog, [id])
  {
  }

  lemma {:induction false} ChainFromBounded(prog: Program, id: FnId, chain: seq<FnId>, depth: nat)
    requires Supported(prog, id, depth) && ChainFrom(prog, id, chain)
    ensures |chain| + depth <= 33 && Fine(prog, chain[|chain| - 1])
    decreases |chain|
  {
    hide Supported;
    hide Fine;
    hide Calls;
    assert Defined(prog, chain[0]);
    DepthBound(prog, id, depth);
    if |chain| == 1 {
      SupportedFine(prog, id, depth);
    } else {
      var rest := chain[1..];
      assert Calls(prog, chain[0], chain[1]) && Defined(prog, chain[1]);
      CalleeSupported(prog, id, depth, chain[1]);
      forall k | 0 <= k < |rest| - 1 ensures rest[k] != rest[k + 1] && Calls(prog, rest[k], rest[k + 1]) {
        assert chain[k + 1] != chain[k + 2] && Calls(prog, chain[k + 1], chain[k + 2]);
      }
      ChainFromBounded(prog, chain[1], rest, depth + 1);
    }
  }

  lemma SupportedFine(prog: Program, id: FnId, depth: nat)
    requires Supported(prog, id, depth) && Defined(prog, id)
    ensures Fine(prog, id)
  {
    hide HasTypeVars;
    hide InstrsOf;
    hide DirectTarget;
    var f := prog.fns[id];
    var instrs := InstrsOf(f.blocks);
    forall i | i in instrs
      ensures !i.action.Unsupported?
      ensures i.action.Call? ==> DirectTarget(f, i.action).Some? && DirectTarget(f, i.action).value < |prog.fns|
    {
      var k :| 0 <= k < |instrs| && instrs[k] == i;
      assert InstrSupported(prog, id, instrs[k].action, depth);
    }
  }

  lemma FineSupported(prog: Program, id: FnId, depth: nat)
    requires Defined(prog, id) && Fine(prog, id) && depth <= 32
    requires forall t :: Calls(prog, id, t) && Defined(prog, t) && t != id ==> Supported(prog, t, depth + 1)
    ensures Supported(prog, id, depth)
  {
    hide HasTypeVars;
    hide InstrsOf;
    hide DirectTarget;
    var f := prog.fns[id];
    var instrs := InstrsOf(f.blocks);
    forall k | 0 <= k < |instrs| ensures InstrSupported(prog, id, instrs[k].action, depth) {
      var a := instrs[k].action;
      assert instrs[k] in instrs;
      if a.Call? {
        var t := DirectTarget(f, a).value;
        assert CallsTo(f, a, t);
        assert Calls(prog, id, t);
      }
    }
  }

  lemma LongerChain(prog: Program, id: FnId, t: FnId, chain: seq<FnId>)
    requires Defined(prog, id) && Calls(prog, id, t) && t != id && ChainFrom(prog, t, chain)
    ensures ChainFrom(prog, id, [id] + chain)
  {
    hide Calls;
    hide Defined;
    var longer := [id] + chain;
    forall k | 0 <= k < |longer| - 1 ensures longer[k] != longer[k + 1] && Calls(prog, longer[k], longer[k + 1]) {
      if k > 0 {
        assert chain[k - 1] != chain[k] && Calls(prog, chain[k - 1], chain[k]);
      }
    }
  }

  /** Going round a cycle once more. */
  lemma {:induction false} ExtendCycle(prog: Program, cycle: seq<FnId>, n: nat) returns (chain: seq<FnId>)
    requires CallChain(prog, cycle) && |cycle| >= 2 && cycle[0] == cycle[|cycle| - 1]
    ensures CallChain(prog, chain) && |chain| > n && chain[0] == cycle[0] && chain[|chain| - 1] == cycle[0]
    decreases n
  {
    hide Calls;
    hide Defined;
    if n == 0 {
      chain := cycle;
    } else {
      var shorter := ExtendCycle(prog, cycle, n - 1);
      var s := |shorter| - 1;
      chain := shorter[..s] + cycle;
      forall k | 0 <= k < |chain| - 1 ensures chain[k] != chain[k + 1] && Calls(prog, chain[k], chain[k + 1]) {
        if k < s {
          assert chain[k] == shorter[k] && chain[k + 1] == shorter[k + 1];
        } else {
          assert chain[k] == cycle[k - s] && chain[k + 1] == cycle[k - s + 1];
        }
      }
    }
  }

  /** No function on a cycle of calls through two or more functions is accepted. */
  lemma NoMutualRecursion(prog: Program, cycle: seq<FnId>)
    requires CallChain(prog, cycle) && |cycle| >= 2 && cycle[0] == cycle[|cycle| - 1]
    ensures !Supported(prog, cycle[0], 0)
  {
    var chain := ExtendCycle(prog, cycle, 33);
    if Supported(prog, cycle[0], 0) {
      ChainBounded(prog, chain, 0);
      assert false;
    }
  }

  lemma {:induction false} CollectDefs(prog: Program, m: ModuleCtx, ids: seq<FnId>, t: FnId)
    requires IdsOk(prog, ids) && t < |prog.fns| && AddDefs(m, prog, ids).Some?
    requires (t in ids && DefWanted(prog, t)) || FindById(m.defs, t).Some?
    ensures FindById(AddDefs(m, prog, ids).value.defs, t).Some?
    decreases |ids|
  {
    hide DefWanted;
    hide TypeOfFunction;
    hide ReturnType;
    hide AddType;
    if ids != [] {
      if !DefWanted(prog, ids[0]) {
        CollectDefs(prog, m, ids[1..], t);
      } else {
        var m' := AddFuncDef(m, prog, ids[0], false).value;
        FindAppend(m.defs, m'.defs[|m.defs|], t);
        assert m'.defs == m.defs + [m'.defs[|m.defs|]];
        CollectDefs(prog, m', ids[1..], t);
      }
    }
  }

  lemma {:induction false} FindAppend(defs: seq<FuncDef>, d: FuncDef, t: FnId)
    ensures FindById(defs + [d], t).Some? <==> FindById(defs, t).Some? || d.fn == t
    decreases |defs|
  {
    if defs == [] {
      assert FindById([d], t).Some? <==> d.fn == t;
      assert [] + [d] == [d];
    } else {
      assert (defs + [d])[1..] == defs[1..] + [d];
      FindAppend(defs[1..], d, t);
    }
  }

  lemma {:induction false} CollectImports(prog: Program, m: ModuleCtx, ids: seq<FnId>, t: FnId)
    requires IdsOk(prog, ids) && t < |prog.fns| && AddImports(m, prog, ids).Some?
    requires (t in ids && ImportWanted(prog.fns[t])) || FindById(m.imports, t).Some?
    ensures FindById(AddImports(m, prog, ids).value.imports, t).Some?
    decreases |ids|
  {
    hide TypeOfFunction;
    hide ReturnType;
    hide AddType;
    if ids != [] {
      if !ImportWanted(prog.fns[ids[0]]) {
        CollectImports(prog, m, ids[1..], t);
      } else {
        var m' := AddFuncDef(m, prog, ids[0], true).value;
        FindAppend(m.imports, m'.imports[|m.imports|], t);
        assert m'.imports == m.imports + [m'.imports[|m.imports|]];
        CollectImports(prog, m', ids[1..], t);
      }
    }
  }

  lemma {:induction false} DefsKeepImports(prog: Program, m: ModuleCtx, ids: seq<FnId>)
    requires IdsOk(prog, ids) && AddDefs(m, prog, ids).Some?
    ensures AddDefs(m, prog, ids).value.imports == m.imports
    decreases |ids|
  {
    if ids != [] {
      if DefWanted(prog, ids[0]) {
        DefsKeepImports(prog, AddFuncDef(m, prog, ids[0], false).value, ids[1..]);
      } else {
        DefsKeepImports(prog, m, ids[1..]);
      }
    }
  }

  /** A call between functions of the module is a call within the module: if an accepted function calls a listed
      function, the callee has an index, provided an external callee has a type without variables. */
  lemma CalleesHaveIndices(prog: Program, id: FnId, t: FnId)
    requires ProgramOk(prog) && BuildCtx(prog).Some?
    requires Supported(prog, id, 0) && Defined(prog, id) && Calls(prog, id, t) && t in prog.listed
    requires prog.fns[t].isExtern ==> !HasTypeVars(prog.fns[t].ty)
    ensures LookupId(BuildCtx(prog).value, t).Some?
  {
    hide AddImports;
    hide AddDefs;
    hide Calls;
    hide HasTypeVars;
    hide FindById;
    var m0 := ModuleCtx(INITIAL_TYPES, [], []);
    var m1 := AddImports(m0, prog, prog.listed).value;
    DefsKeepImports(prog, m1, prog.listed);
    if prog.fns[t].isExtern {
      CollectImports(prog, m0, prog.listed, t);
    } else {
      AcceptedClosed(prog, id, t);
      CollectDefs(prog, m1, prog.listed, t);
    }
  }

  // ---- Call depth ----------------------------------------------------------------

  ghost predicate NoSelfCalls(prog: Program) {
    forall id :: 0 <= id < |prog.fns| ==> !Calls(prog, id, id)
  }

  ghost predicate CallsSupported(prog: Program, id: FnId, instrs: seq<Instr>, depth: nat)
    requires id < |prog.fns|
  {
    forall i, t :: i in instrs && 0 <= t < |prog.fns| && CallsTo(prog.fns[id], i.action, t)
                   ==> prog.fns[t].isExtern || Supported(prog, t, depth)
  }

  lemma {:induction false} InstrsTerminate(mc: Machine, prog: Program, fuel: nat, id: FnId, instrs: seq<Instr>,
                                           env: Env, w: World, depth: nat)
    requires id < |prog.fns| && NoSelfCalls(prog) && CallsSupported(prog, id, instrs, depth)
    requires depth <= 33 && fuel + depth >= 33
    ensures EvalInstrs(mc, prog, fuel, prog.fns[id], instrs, env, w) != Step.NoFuel
    decreases fuel, |instrs| + 2
  {
    hide EvalAction;
    hide EvalCall;
    hide Supported;
    hide NoSelfCalls;
    hide SelectArgs;
    hide DirectTarget;
    if instrs != [] {
      var f, i := prog.fns[id], instrs[0];
      if i.action.Call? && DirectTarget(f, i.action).Some? && DirectTarget(f, i.action).value < |prog.fns| {
        var t := DirectTarget(f, i.action).value;
        assert CallsTo(f, i.action, t);
        var args := SelectArgs(prog.fns[t].params, i.action.operands, env);
        if args.Some? {
          CallTerminates(mc, prog, fuel, t, args.value, w, depth);
        }
      }
      ActionHasFuel(mc, f, i, env, w);
      var s := EvalInstr(mc, prog, fuel, f, i, env, w);
      if s.Go? {
        InstrsTerminate(mc, prog, fuel, id, instrs[1..], s.env, s.world, depth);
      }
    }
  }

  lemma ActionHasFuel(mc: Machine, f: Function, i: Instr, env: Env, w: World)
    ensures !i.action.Call? ==> EvalAction(mc, f, i, env, w) != Step.NoFuel
  {
    hide EvalPrint;
    hide EvalOp;
    hide EvalConst;
    hide EvalCast;
  }

  lemma {:induction false} CallTerminates(mc: Machine, prog: Program, fuel: nat, t: FnId, args: seq<Value>, w: World,
                                          depth: nat)
    requires t < |prog.fns| && NoSelfCalls(prog) && (prog.fns[t].isExtern || Supported(prog, t, depth))
    requires depth <= 33 && fuel + depth >= 33
    ensures EvalCall(mc, prog, fuel, t, args, w) != NoFuelCall
    decreases fuel, 0
  {
    hide Supported;
    hide BindParams;
    hide NoSelfCalls;
    hide CallsSupported;
    var f := prog.fns[t];
    if !f.isExtern {
      DepthBound(prog, t, depth);
      var env := BindParams(f.params, args);
      if f.blocks != [] && env.Some? {
        FirstBlockSupported(prog, t, depth);
        InstrsTerminate(mc, prog, fuel - 1, t, f.blocks[0].instrs, env.value, w, depth + 1);
        FinishHasFuel(f, f.blocks[0].term, EvalInstrs(mc, prog, fuel - 1, f, f.blocks[0].instrs, env.value, w));
      }
    }
  }

  lemma FinishHasFuel(f: Function, term: Terminator, s: Step)
    ensures s != Step.NoFuel ==> Finish(f, term, s) != NoFuelCall
  {
  }

  lemma FirstBlockSupported(prog: Program, id: FnId, depth: nat)
    requires Supported(prog, id, depth) && Defined(prog, id) && prog.fns[id].blocks != [] && NoSelfCalls(prog)
    ensures depth <= 32 && CallsSupported(prog, id, prog.fns[id].blocks[0].instrs, depth + 1)
  {
    hide DirectTarget;
    var f := prog.fns[id];
    DepthBound(prog, id, depth);
    FirstInstrsIn(f.blocks);
    forall i, t | i in f.blocks[0].instrs && 0 <= t < |prog.fns| && CallsTo(f, i.action, t)
      ensures prog.fns[t].isExtern || Supported(prog, t, depth + 1)
    {
      assert Calls(prog, id, t);
      if !prog.fns[t].isExtern {
        assert t != id;
        CalleeSupported(prog, id, depth, t);
      }
    }
  }

  lemma FirstInstrsIn(blocks: seq<Block>)
    requires blocks != []
    ensures forall i :: i in blocks[0].instrs ==> i in InstrsOf(blocks)
  {
  }

  /** Without self-recursion an accepted function never nests more than 33 calls: evaluating it with that much
      fuel always ends. */
  lemma AcceptedTerminates(mc: Machine, prog: Program, t: FnId, args: seq<Value>, w: World, fuel: nat)
    requires Supported(prog, t, 0) && NoSelfCalls(prog) && fuel >= 33
    ensures EvalCall(mc, prog, fuel, t, args, w) != NoFuelCall
  {
    CallTerminates(mc, prog, fuel, t, args, w, 0);
  }

  // ---- The entry ------------------------------------------------------------------

  ghost predicate AllWanted(prog: Program, m: ModuleCtx) {
    && (forall d :: d in m.imports ==> d.fn < |prog.fns| && ImportWanted(prog.fns[d.fn]))
    && (forall d :: d in m.defs ==> d.fn < |prog.fns| && DefWanted(prog, d.fn))
  }

  lemma {:induction false} ImportsAreWanted(prog: Program, m: ModuleCtx, ids: seq<FnId>)
    requires IdsOk(prog, ids) && AddImports(m, prog, ids).Some? && AllWanted(prog, m)
    ensures AllWanted(prog, AddImports(m, prog, ids).value)
    decreases |ids|
  {
    hide DefWanted;
    hide TypeOfFunction;
    hide ReturnType;
    hide AddType;
    if ids != [] {
      ImportsAreWanted(prog, if ImportWanted(prog.fns[ids[0]]) then AddFuncDef(m, prog, ids[0], true).value else m,
                       ids[1..]);
    }
  }

  lemma {:induction false} DefsAreWanted(prog: Program, m: ModuleCtx, ids: seq<FnId>)
    requires IdsOk(prog, ids) && AddDefs(m, prog, ids).Some? && AllWanted(prog, m)
    ensures AllWanted(prog, AddDefs(m, prog, ids).value)
    decreases |ids|
  {
    hide DefWanted;
    hide TypeOfFunction;
    hide ReturnType;
    hide AddType;
    if ids != [] {
      DefsAreWanted(prog, if DefWanted(prog, ids[0]) then AddFuncDef(m, prog, ids[0], false).value else m, ids[1..]);
    }
  }

  lemma {:induction false} FoundIsThere(defs: seq<FuncDef>, id: FnId)
    requires FindById(defs, id).Some?
    ensures FindById(defs, id).value in defs && FindById(defs, id).value.fn == id
    decreases |defs|
  {
    if defs[0].fn != id {
      FoundIsThere(defs[1..], id);
    }
  }

  lemma ContextWanted(prog: Program)
    requires ProgramOk(prog) && BuildCtx(prog).Some?
    ensures AllWanted(prog, BuildCtx(prog).value)
  {
    hide AddImports;
    hide AddDefs;
    hide DefWanted;
    var m0 := ModuleCtx(INITIAL_TYPES, [], []);
    ImportsAreWanted(prog, m0, prog.listed);
    DefsAreWanted(prog, AddImports(m0, prog, prog.listed).value, prog.listed);
  }

  /** A function with an index is external, accepted, or named as the top level, and generic only in the last case. */
  lemma IndexedWanted(prog: Program, id: FnId)
    requires ProgramOk(prog) && BuildCtx(prog).Some? && LookupId(BuildCtx(prog).value, id).Some?
    ensures id < |prog.fns|
    ensures prog.fns[id].isExtern || Supported(prog, id, 0) || prog.fns[id].name == TOP
    ensures !HasTypeVars(prog.fns[id].ty) || prog.fns[id].name == TOP
    ensures !prog.fns[id].isExtern ==> exists d :: d in BuildCtx(prog).value.defs && d.fn == id
  {
    hide BuildCtx;
    hide FindById;
    hide Supported;
    hide HasTypeVars;
    var m := BuildCtx(prog).value;
    ContextWanted(prog);
    if FindById(m.imports, id).Some? {
      FoundIsThere(m.imports, id);
    } else {
      FoundIsThere(m.defs, id);
    }
  }

  /** The top level is called by nothing. */
  ghost predicate TopUncalled(prog: Program) {
    forall id, t :: 0 <= id < |prog.fns| && 0 <= t < |prog.fns| && Calls(prog, id, t) ==> prog.fns[t].name != TOP
  }

  /** In a well-typed program without self-recursion, whose top level nothing calls, no function of the module nests
      more than 34 calls, the top level included, which is never checked itself: evaluating it always ends. */
  lemma IndexedTerminates(mc: Machine, prog: Program, t: FnId, args: seq<Value>, w: World, fuel: nat)
    requires ProgramOk(prog) && BuildCtx(prog).Some? && WellTypedProgram(prog, BuildCtx(prog).value)
    requires t < |prog.fns| && LookupId(BuildCtx(prog).value, t).Some?
    requires NoSelfCalls(prog) && TopUncalled(prog) && fuel >= 34
    ensures EvalCall(mc, prog, fuel, t, args, w) != NoFuelCall
  {
    hide Supported;
    hide BindParams;
    hide BuildCtx;
    hide NoSelfCalls;
    hide CallsSupported;
    hide WellTypedProgram;
    hide TopUncalled;
    hide LookupId;
    IndexedWanted(prog, t);
    var f := prog.fns[t];
    if f.isExtern || Supported(prog, t, 0) {
      CallTerminates(mc, prog, fuel, t, args, w, 0);
    } else {
      var env := BindParams(f.params, args);
      if f.blocks != [] && env.Some? {
        EntryCallsSupported(prog, t);
        InstrsTerminate(mc, prog, fuel - 1, t, f.blocks[0].instrs, env.value, w, 0);
        FinishHasFuel(f, f.blocks[0].term, EvalInstrs(mc, prog, fuel - 1, f, f.blocks[0].instrs, env.value, w));
      }
    }
  }

  lemma EntryCallsSupported(prog: Program, id: FnId)
    requires ProgramOk(prog) && BuildCtx(prog).Some? && WellTypedProgram(prog, BuildCtx(prog).value)
             && TopUncalled(prog)
    requires LookupId(BuildCtx(prog).value, id).Some? && id < |prog.fns| && !prog.fns[id].isExtern
             && prog.fns[id].blocks != []
    ensures CallsSupported(prog, id, prog.fns[id].blocks[0].instrs, 0)
  {
    hide DirectTarget;
    hide BuildCtx;
    hide Supported;
    hide LookupId;
    hide ParamsOk;
    hide TermOk;
    hide DefinedBefore;
    var f, m := prog.fns[id], BuildCtx(prog).value;
    IndexedWanted(prog, id);
    FirstInstrsIn(f.blocks);
    forall i, t | i in f.blocks[0].instrs && 0 <= t < |prog.fns| && CallsTo(f, i.action, t)
      ensures prog.fns[t].isExtern || Supported(prog, t, 0)
    {
      assert Calls(prog, id, t);
      var k :| 0 <= k < |InstrsOf(f.blocks)| && InstrsOf(f.blocks)[k] == i;
      assert InstrOk(f, prog, m, InstrsOf(f.blocks)[k]);
      IndexedWanted(prog, t);
    }
  }
}
