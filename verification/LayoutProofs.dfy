/** Locals: every value has its own local of its own type, and parameters come first, in order. */
module LayoutProofs {
  import opened Wrappers
  import opened Mir
  import opened MirEval
  import opened Lowering
  import opened WellTyped

  /** The slot of one value agrees with the value's class. */
  predicate SlotOk(f: Function, l: Layout, v: ValueId)
    requires v < |l.slots|
  {
    match l.slots[v]
    case InLocal(n) => n < |l.types| && ValueClass(f, v) == Some(l.types[n])
    case Void => ValueClass(f, v).None?
    case Pending => true
  }

  ghost predicate LayoutOk(f: Function, l: Layout) {
    && |l.slots| == |f.valueTypes|
    && (forall v :: 0 <= v < |l.slots| ==> SlotOk(f, l, v))
    && DistinctLocals(l.slots)
  }

  /** No two values share a local. */
  predicate DistinctLocals(slots: seq<Slot>) {
    forall v, w :: 0 <= v < |slots| && 0 <= w < |slots| && v != w && slots[v].InLocal? && slots[w].InLocal?
                   ==> slots[v].local != slots[w].local
  }

  /** Parameters with a value sit in consecutive locals from `base`. */
  predicate Placed(l: Layout, params: seq<Param>, base: nat)
    decreases |params|
  {
    if params == [] then true
    else if LoweredParam(params[0]).None? then Placed(l, params[1..], base)
    else params[0].value < |l.slots| && l.slots[params[0].value] == InLocal(base) && Placed(l, params[1..], base + 1)
  }

  /** Slots once assigned stay, and locals keep their types. */
  ghost predicate Grows(l: Layout, l': Layout) {
    && |l'.slots| == |l.slots|
    && l.types <= l'.types
    && forall v :: 0 <= v < |l.slots| && l.slots[v] != Pending ==> l'.slots[v] == l.slots[v]
  }

  lemma {:induction false} PlacedGrows(l: Layout, l': Layout, params: seq<Param>, base: nat)
    requires Placed(l, params, base) && Grows(l, l')
    ensures Placed(l', params, base)
    decreases |params|
  {
    if params == [] {
    } else if LoweredParam(params[0]).None? {
      PlacedGrows(l, l', params[1..], base);
    } else {
      PlacedGrows(l, l', params[1..], base + 1);
    }
  }

  /** The class of a parameter's value is the type it is passed as. */
  lemma ParamClass(f: Function, p: Param)
    requires ParamsOk(f, f.params) && p in f.params && LoweredParam(p).Some?
    ensures ValueClass(f, p.value) == LoweredParam(p)
  {
    forall q | q in f.params && q.value == p.value ensures !IsEnv(q) {
      var j :| 0 <= j < |f.params| && f.params[j] == p;
      var k :| 0 <= k < |f.params| && f.params[k] == q;
    }
  }

  /** The type list a parameter adds to. */
  function ParamLocal(p: Param): seq<ValType> {
    if LoweredParam(p).Some? then [LoweredParam(p).value] else []
  }

  lemma AddParamOk(f: Function, l: Layout, p: Param)
    requires LayoutOk(f, l) && ParamsOk(f, f.params) && p in f.params
    ensures var r := AddParam(l, p);
            && r.Some? && LayoutOk(f, r.value)
            && r.value.types == l.types + ParamLocal(p)
            && r.value.paramCount == l.paramCount + |ParamLocal(p)|
            && (LoweredParam(p).Some? ==> r.value.slots[p.value] == InLocal(|l.types|))
            && |r.value.slots| == |l.slots|
            && forall v :: 0 <= v < |l.slots| && v != p.value ==> r.value.slots[v] == l.slots[v]
  {
    assert ParamOk(f, p);
    var r := AddParam(l, p).value;
    if LoweredParam(p).Some? {
      ParamClass(f, p);
    }
    forall v | 0 <= v < |r.slots| ensures SlotOk(f, r, v) {
      assert SlotOk(f, l, v);
    }
    forall v | 0 <= v < |l.slots| && l.slots[v].InLocal? ensures l.slots[v].local < |l.types| {
      assert SlotOk(f, l, v);
    }
  }

  lemma {:induction false} AddParamsOk(f: Function, l: Layout, params: seq<Param>)
    requires LayoutOk(f, l) && ParamsOk(f, f.params) && ParamsOk(f, params)
    ensures var r := AddParams(l, params);
            && r.Some? && LayoutOk(f, r.value)
            && r.value.types == l.types + ParamTypes(params)
            && r.value.paramCount == l.paramCount + |ParamTypes(params)|
            && |r.value.slots| == |l.slots|
            && (forall v :: 0 <= v < |l.slots| && (forall p :: p in params ==> p.value != v) ==>
                  r.value.slots[v] == l.slots[v])
            && Placed(r.value, params, |l.types|)
    decreases |params|
  {
    if params == [] {
    } else {
      var p, rest := params[0], params[1..];
      assert p in params && forall q :: q in rest ==> q in params;
      AddParamOk(f, l, p);
      var l1 := AddParam(l, p).value;
      RestParams(f, params);
      AddParamsOk(f, l1, rest);
      assert forall q :: q in rest ==> q.value != p.value;
    }
  }

  lemma RestParams(f: Function, params: seq<Param>)
    requires params != [] && ParamsOk(f, params)
    ensures ParamsOk(f, params[1..])
    ensures forall q :: q in params[1..] ==> q.value != params[0].value
  {
    var rest := params[1..];
    forall q | q in rest ensures q.value != params[0].value && q in params {
      var k :| 0 <= k < |rest| && rest[k] == q;
      assert params[k + 1] == q;
    }
  }

  /** A parameter that is not passed has no local. */
  predicate Unpassed(p: Param) {
    p.ty.kind == KVoid || p.name == "$env"
  }

  lemma {:induction false} UnpassedVoid(f: Function, l: Layout, params: seq<Param>, p: Param)
    requires LayoutOk(f, l) && ParamsOk(f, f.params) && ParamsOk(f, params) && p in params && Unpassed(p)
    ensures AddParams(l, params).Some? && p.value < |AddParams(l, params).value.slots|
    ensures AddParams(l, params).value.slots[p.value] == Void
    decreases |params|
  {
    hide LayoutOk;
    assert params[0] in params;
    AddParamOk(f, l, params[0]);
    var l1 := AddParam(l, params[0]).value;
    RestParams(f, params);
    if p == params[0] {
      assert ParamOk(f, p);
      AddParamsOk(f, l1, params[1..]);
      SlotsFor(f, l);
    } else {
      UnpassedVoid(f, l1, params[1..], p);
    }
  }

  lemma SlotsFor(f: Function, l: Layout)
    requires LayoutOk(f, l)
    ensures |l.slots| == |f.valueTypes|
  {
  }

  lemma DeclareInstrOk(f: Function, l: Layout, i: Instr)
    requires LayoutOk(f, l) && ResultOk(f, i)
    ensures var r := DeclareInstr(l, i);
            && r.Some? && LayoutOk(f, r.value) && Grows(l, r.value) && r.value.paramCount == l.paramCount
            && (i.result.Some? ==> r.value.slots[i.result.value] != Pending)
  {
    var r := DeclareInstr(l, i).value;
    forall v | 0 <= v < |r.slots| ensures SlotOk(f, r, v) {
      assert SlotOk(f, l, v);
    }
    forall v | 0 <= v < |l.slots| && l.slots[v].InLocal? ensures l.slots[v].local < |l.types| {
      assert SlotOk(f, l, v);
    }
  }

  lemma {:induction false} DeclareInstrsOk(f: Function, l: Layout, instrs: seq<Instr>)
    requires LayoutOk(f, l) && forall i :: i in instrs ==> ResultOk(f, i)
    ensures var r := DeclareInstrs(l, instrs);
            && r.Some? && LayoutOk(f, r.value) && Grows(l, r.value) && r.value.paramCount == l.paramCount
            && (forall i :: i in instrs && i.result.Some? ==>
                              i.result.value < |r.value.slots| && r.value.slots[i.result.value] != Pending)
    decreases |instrs|
  {
    if instrs != [] {
      DeclareInstrOk(f, l, instrs[0]);
      assert instrs[0] in instrs;
      DeclareInstrsOk(f, DeclareInstr(l, instrs[0]).value, instrs[1..]);
    }
  }

  /** In the layout of a well-typed function the environment and parameters of type Void have no local. */
  lemma UnpassedHaveNone(prog: Program, m: ModuleCtx, f: Function, p: Param)
    requires FunctionOk(prog, m, f) && p in f.params && Unpassed(p)
    ensures LayoutOf(f).Some? && p.value < |LayoutOf(f).value.slots| && LayoutOf(f).value.slots[p.value] == Void
  {
    hide AddParams;
    hide DeclareInstrs;
    hide InstrsOf;
    hide ValueClass;
    var l0 := EmptyLayout(|f.valueTypes|);
    UnpassedVoid(f, l0, f.params, p);
    AddParamsOk(f, l0, f.params);
    DeclareInstrsOk(f, AddParams(l0, f.params).value, InstrsOf(f.blocks));
  }

  /** The layout of a well-typed function: distinct values have distinct locals of their own types,
      the first locals are exactly the parameters of the signature in order, and every result has a
      place if it has a type. */
  lemma LayoutCorrect(prog: Program, m: ModuleCtx, f: Function)
    requires FunctionOk(prog, m, f)
    ensures LayoutOf(f).Some?
    ensures var l := LayoutOf(f).value;
            && LayoutOk(f, l)
            && l.paramCount == |ParamTypes(f.params)| <= |l.types|
            && l.types[..l.paramCount] == ParamTypes(f.params)
            && Placed(l, f.params, 0)
            && forall i :: i in InstrsOf(f.blocks) && i.result.Some? ==>
                             i.result.value < |l.slots| && l.slots[i.result.value] != Pending
  {
    hide AddParams;
    hide DeclareInstrs;
    hide Placed;
    hide ParamTypes;
    hide InstrsOf;
    hide ValueClass;
    var l0 := EmptyLayout(|f.valueTypes|);
    AddParamsOk(f, l0, f.params);
    var l1 := AddParams(l0, f.params).value;
    DeclareInstrsOk(f, l1, InstrsOf(f.blocks));
    var l := LayoutOf(f).value;
    PlacedGrows(l1, l, f.params, 0);
  }
}
