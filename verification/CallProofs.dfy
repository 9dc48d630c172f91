/** Calls: the lowering resolves them to the function they mean and passes the operands that have values. */
module CallProofs {
  import opened Wrappers
  import opened Mir
  import opened MirEval
  import opened Wasm
  import opened Lowering
  import opened WellTyped
  import opened ModuleProofs

  lemma RestArguments(f: Function, params: seq<Param>, ops: seq<ValueId>)
    requires ArgumentsOk(f, params, ops) && ops != []
    ensures ArgumentsOk(f, params[1..], ops[1..])
  {
    forall k | 0 <= k < |ops[1..]| ensures ArgumentOk(f, params[1..][k], ops[1..][k]) {
      assert ArgumentOk(f, params[k + 1], ops[k + 1]);
    }
  }

  lemma VoidClass(f: Function, v: ValueId)
    ensures v < |f.valueTypes| && f.valueTypes[v].kind == KVoid ==> ValueClass(f, v).None?
  {
  }

  lemma SkippedOperand(l: Layout, f: Function, params: seq<Param>, ops: seq<ValueId>)
    requires ops != [] && params != [] && EmitOperands(l, f, params, ops).Some?
    requires ArgumentOk(f, params[0], ops[0]) && LoweredParam(params[0]).None?
    ensures EmitOperands(l, f, params, ops) == EmitOperands(l, f, params[1..], ops[1..])
  {
  }

  lemma EmittedOperand(l: Layout, f: Function, params: seq<Param>, ops: seq<ValueId>)
    requires ops != [] && params != [] && EmitOperands(l, f, params, ops).Some?
    requires ArgumentOk(f, params[0], ops[0]) && LoweredParam(params[0]).Some?
    ensures EmitValue(l, ops[0]).Some? && EmitOperands(l, f, params[1..], ops[1..]).Some?
    ensures EmitOperands(l, f, params, ops).value
            == EmitValue(l, ops[0]).value + EmitOperands(l, f, params[1..], ops[1..]).value
    ensures ValueClass(f, ops[0]) == LoweredParam(params[0])
  {
    VoidClass(f, ops[0]);
  }

  /** The lowering resolves a well-typed call to the function the call means. */
  lemma CallTargetIs(f: Function, prog: Program, m: ModuleCtx, a: Action, c: Option<ValType>)
    requires a.Call? && CallOk(f, prog, m, a, c)
    ensures CallTarget(m, prog, f, a) == LookupId(m, DirectTarget(f, a).value)
  {
    hide LookupId;
    hide LookupName;
    hide FindDef;
    hide InstrsOf;
  }

  predicate DistinctNames(prog: Program) {
    forall i, j :: 0 <= i < |prog.fns| && 0 <= j < |prog.fns| && prog.fns[i].name == prog.fns[j].name ==> i == j
  }

  /** The names of a call are those of its target `t`; a specialised call may also have a name of nothing emitted,
      and refer to another function, if that one is not emitted. */
  predicate NamesTarget(f: Function, prog: Program, m: ModuleCtx, a: Action, t: FnId)
    requires a.Call? && t < |prog.fns|
  {
    && (a.specializedName.Some? ==>
          a.specializedName.value == prog.fns[t].name || LookupName(m, prog, a.specializedName.value).None?)
    && (a.callee.Some? ==>
          match FindDef(InstrsOf(f.blocks), a.callee.value)
          case Some(Instr(FnRef(Some(u), name), _, _)) =>
            (u == t && name == prog.fns[t].name) || (LookupId(m, u).None? && LookupName(m, prog, name).None?)
          case _ => true)
  }

  lemma {:induction false} NameFinds(defs: seq<FuncDef>, prog: Program, t: FnId)
    requires DistinctNames(prog) && t < |prog.fns| && forall d :: d in defs ==> d.fn < |prog.fns|
    ensures FindByName(defs, prog, prog.fns[t].name) == FindById(defs, t)
    ensures FindById(defs, t).Some? ==> FindById(defs, t).value.fn == t
    decreases |defs|
  {
    if defs != [] {
      assert defs[0] in defs;
      NameFinds(defs[1..], prog, t);
    }
  }

  /** The lookup by name never binds a call to a namesake when names are distinct: a call compiles if and only if
      its target has an index, and what it is bound to is the target. */
  lemma NamesDecide(f: Function, prog: Program, m: ModuleCtx, a: Action, t: FnId)
    requires a.Call? && DirectTarget(f, a) == Some(t) && t < |prog.fns|
    requires DistinctNames(prog) && NamesTarget(f, prog, m, a, t)
    requires (forall d :: d in m.imports ==> d.fn < |prog.fns|) && forall d :: d in m.defs ==> d.fn < |prog.fns|
    ensures CallTarget(m, prog, f, a) == LookupId(m, t)
    ensures LookupId(m, t).Some? ==> LookupId(m, t).value.fn == t && CallKnown(f, prog, m, a)
  {
    hide FindByName;
    hide FindById;
    hide DistinctNames;
    hide InstrsOf;
    hide FindDef;
    NameFinds(m.imports, prog, t);
    NameFinds(m.defs, prog, t);
  }

  /** The function index a call was lowered to, its callee and its arguments. */
  lemma CallLowered(f: Function, prog: Program, m: ModuleCtx, wm: Module, l: Layout, i: Instr)
    requires CtxOk(m, prog) && ModuleFor(m, prog, wm)
    requires i.action.Call? && CallOk(f, prog, m, i.action, TypeToVal(i.ty)) && LowerCall(m, prog, l, f, i.action).Some?
    ensures var t := DirectTarget(f, i.action).value;
            && t < |prog.fns| && LookupId(m, t).Some?
            && var ops := EmitOperands(l, f, prog.fns[t].params, i.action.operands);
            && ops.Some?
            && LowerCall(m, prog, l, f, i.action).value == ops.value + [ICall(LookupId(m, t).value.funcIndex)]
            && TypeOfFunc(wm, LookupId(m, t).value.funcIndex) == Some(TypeOfFunction(prog.fns[t]))
  {
    hide CtxOk;
    hide ModuleFor;
    hide LookupId;
    hide EmitOperands;
    hide TypeOfFunction;
    hide TypeOfFunc;
    hide CallTarget;
    hide DirectTarget;
    var t := DirectTarget(f, i.action).value;
    CallTargetIs(f, prog, m, i.action, TypeToVal(i.ty));
    IndexDenotes(m, prog, wm, t);
  }

  // ---- Lookup by name -------------------------------------------------------------------------

  /** The first entry whose function has the name. */
  predicate NamedFirst(defs: seq<FuncDef>, prog: Program, name: string, k: nat) {
    && k < |defs| && HasName(defs[k], prog, name)
    && forall i :: 0 <= i < k ==> !HasName(defs[i], prog, name)
  }

  predicate HasName(d: FuncDef, prog: Program, name: string) {
    d.fn < |prog.fns| && prog.fns[d.fn].name == name
  }

  lemma {:induction false} FirstByName(defs: seq<FuncDef>, prog: Program, name: string, k: nat)
    requires NamedFirst(defs, prog, name, k)
    ensures FindByName(defs, prog, name) == Some(defs[k])
    decreases k
  {
    if k > 0 {
      assert !HasName(defs[0], prog, name);
      assert forall i :: 0 <= i < k - 1 ==> defs[1..][i] == defs[i + 1];
      FirstByName(defs[1..], prog, name, k - 1);
    }
  }

  lemma {:induction false} NoneByName(defs: seq<FuncDef>, prog: Program, name: string)
    requires forall d :: d in defs ==> !HasName(d, prog, name)
    ensures FindByName(defs, prog, name).None?
    decreases |defs|
  {
    if defs != [] {
      assert defs[0] in defs;
      NoneByName(defs[1..], prog, name);
    }
  }

  /** A name is looked up among the external functions and then among the definitions: the first one that has it is
      found, and none exactly if none has it. */
  lemma LookupIsFirst(m: ModuleCtx, prog: Program, name: string, k: nat)
    ensures NamedFirst(m.imports + m.defs, prog, name, k) ==>
              LookupName(m, prog, name) == Some((m.imports + m.defs)[k])
    ensures (forall d :: d in m.imports + m.defs ==> !HasName(d, prog, name)) ==> LookupName(m, prog, name).None?
  {
    hide FindByName;
    hide NamedFirst;
    hide HasName;
    if NamedFirst(m.imports + m.defs, prog, name, k) {
      FirstOfBoth(m.imports, m.defs, prog, name, k);
    }
    if forall d :: d in m.imports + m.defs ==> !HasName(d, prog, name) {
      NoneByName(m.imports, prog, name);
      NoneByName(m.defs, prog, name);
    }
  }

  lemma FirstOfBoth(a: seq<FuncDef>, b: seq<FuncDef>, prog: Program, name: string, k: nat)
    requires NamedFirst(a + b, prog, name, k)
    ensures k < |a| ==> FindByName(a, prog, name) == Some((a + b)[k])
    ensures k >= |a| ==> FindByName(a, prog, name).None? && FindByName(b, prog, name) == Some((a + b)[k])
  {
    hide FindByName;
    hide NamedFirst;
    hide HasName;
    if k < |a| {
      FirstInFront(a, b, prog, name, k);
      FirstByName(a, prog, name, k);
    } else {
      FirstBehind(a, b, prog, name, k);
      NoneByName(a, prog, name);
      FirstByName(b, prog, name, k - |a|);
    }
  }

  lemma FirstInFront(a: seq<FuncDef>, b: seq<FuncDef>, prog: Program, name: string, k: nat)
    requires NamedFirst(a + b, prog, name, k) && k < |a|
    ensures NamedFirst(a, prog, name, k) && (a + b)[k] == a[k]
  {
    hide HasName;
    forall i | 0 <= i < k ensures !HasName(a[i], prog, name) {
      assert (a + b)[i] == a[i];
    }
  }

  lemma FirstBehind(a: seq<FuncDef>, b: seq<FuncDef>, prog: Program, name: string, k: nat)
    requires NamedFirst(a + b, prog, name, k) && k >= |a|
    ensures NamedFirst(b, prog, name, k - |a|) && (a + b)[k] == b[k - |a|]
    ensures forall d :: d in a ==> !HasName(d, prog, name)
  {
    hide HasName;
    forall d | d in a ensures !HasName(d, prog, name) {
      var i :| 0 <= i < |a| && a[i] == d;
      assert (a + b)[i] == d;
    }
    forall i | 0 <= i < k - |a| ensures !HasName(b[i], prog, name) {
      assert (a + b)[|a| + i] == b[i];
    }
  }
}
