/** What the WebAssembly backend refuses: of well-typed MIR exactly the instructions it does not know or whose operands
    are miscounted, bodies that do not return, return types without a representation, programs without an entry, and
    globals that find no room. */
module Completeness {
  import opened Wrappers
  import opened Leb128
  import opened Mir
  import opened MirEval
  import opened Wasm
  import opened Globals
  import opened Lowering
  import opened WellTyped
  import opened LayoutProofs
  import opened ModuleProofs
  import opened CallProofs

  // ---- One instruction --------------------------------------------------------------------------

  /** The backend knows the instruction, and it has the operands it takes. */
  predicate Known(f: Function, a: Action) {
    match a
    case Primitive(op, ops) => |ops| == if op == LNOT then 1 else 2
    case GlobalStore(_, ops) => |ops| == 1
    case Cast(ops, _, _) => |ops| == 1
    case Dup(ops) => |ops| == 1
    case Drop(ops) => |ops| == 1
    case Print(ops) =>
      |ops| == 1 && ops[0] < |f.valueTypes|
      && (IsString(f.valueTypes[ops[0]]) || ValueClass(f, ops[0]) == Some(I32) || ValueClass(f, ops[0]) == Some(I64))
    case FnRef(fn, _) => fn.Some?
    case Call(_, _, _, _, ops) => forall k :: 0 <= k < |ops| ==> ops[k] < |f.valueTypes|
    case Unsupported => false
    case _ => true
  }

  /** Every value the instruction reads has a local. */
  ghost predicate InPlace(prog: Program, l: Layout, f: Function, a: Action) {
    forall v: nat :: Reads(prog, f, a, v) ==> v < |l.slots| && l.slots[v].InLocal?
  }

  lemma Emitted(f: Function, l: Layout, v: ValueId)
    requires LayoutOk(f, l) && v < |l.slots| && l.slots[v].InLocal?
    ensures EmitValue(l, v).Some? && |EmitValue(l, v).value| == 1
    ensures ValueClass(f, v).Some? && ValueType(l, f, v) == ValueClass(f, v)
  {
    assert LayoutProofs.SlotOk(f, l, v);
  }

  lemma ConstLowered(ieee: Ieee, prog: Program, l: Layout, f: Function, i: Instr, k: Constant)
    requires LayoutOk(f, l) && InstrTyped(f, prog, i) && i.action == Const(k)
    requires i.result.Some? ==> i.result.value < |l.slots| && l.slots[i.result.value] != Pending
    ensures LowerConst(ieee, l, i, k).Some?
  {
    hide ValueClass;
    if i.result.Some? {
      assert LayoutProofs.SlotOk(f, l, i.result.value);
    }
  }

  lemma PrimitiveLowered(prog: Program, l: Layout, f: Function, i: Instr, op: PrimOp, ops: seq<ValueId>)
    requires LayoutOk(f, l) && InstrTyped(f, prog, i) && i.action == Primitive(op, ops) && InPlace(prog, l, f, i.action)
    ensures LowerPrimitive(l, f, op, ops).Some? <==> Known(f, i.action)
  {
    hide ValueClass;
    hide LayoutOk;
    hide EmitValue;
    hide ValueType;
    forall v | v in ops
      ensures EmitValue(l, v).Some? && ValueClass(f, v).Some? && ValueType(l, f, v) == ValueClass(f, v)
    {
      assert Reads(prog, f, i.action, v);
      Emitted(f, l, v);
    }
  }

  lemma OneOperand(prog: Program, l: Layout, f: Function, a: Action, ops: seq<ValueId>)
    requires LayoutOk(f, l) && InPlace(prog, l, f, a) && |ops| == 1 && Reads(prog, f, a, ops[0])
    ensures EmitValue(l, ops[0]).Some? && ValueClass(f, ops[0]).Some?
    ensures ValueType(l, f, ops[0]) == ValueClass(f, ops[0]) && ops[0] < |f.valueTypes|
  {
    Emitted(f, l, ops[0]);
  }

  lemma {:induction false} OperandsLowered(l: Layout, f: Function, params: seq<Param>, ops: seq<ValueId>)
    requires LayoutOk(f, l) && ArgumentsOk(f, params, ops)
    requires forall k :: 0 <= k < |ops| && LoweredParam(params[k]).Some? ==>
                           ops[k] < |l.slots| && l.slots[ops[k]].InLocal?
    ensures EmitOperands(l, f, params, ops).Some? <==> forall k :: 0 <= k < |ops| ==> ops[k] < |f.valueTypes|
    ensures EmitOperands(l, f, params, ops).Some? ==> |EmitOperands(l, f, params, ops).value| == |ParamTypes(params)|
    decreases |ops|
  {
    hide LayoutOk;
    hide ValueClass;
    if ops != [] {
      assert ArgumentOk(f, params[0], ops[0]);
      RestArguments(f, params, ops);
      forall k | 0 <= k < |ops[1..]| && LoweredParam(params[1..][k]).Some?
        ensures ops[1..][k] < |l.slots| && l.slots[ops[1..][k]].InLocal?
      {
        assert params[1..][k] == params[k + 1] && ops[1..][k] == ops[k + 1];
      }
      OperandsLowered(l, f, params[1..], ops[1..]);
      VoidClass(f, ops[0]);
      if LoweredParam(params[0]).Some? {
        Emitted(f, l, ops[0]);
      }
      Sizes(f, l);
      assert (forall k :: 0 <= k < |ops| ==> ops[k] < |f.valueTypes|)
        <==> ops[0] < |f.valueTypes| && forall k :: 0 <= k < |ops[1..]| ==> ops[1..][k] < |f.valueTypes|;
    }
  }

  lemma Sizes(f: Function, l: Layout)
    requires LayoutOk(f, l)
    ensures |l.slots| == |f.valueTypes|
  {
  }

  /** A well-typed instruction whose operands have locals is lowered if and only if it is known and its global, if it
      names one, has an address. */
  lemma InstrLowered(ieee: Ieee, m: ModuleCtx, prog: Program, l: Layout, f: Function, i: Instr, at: Option<nat>)
    requires CtxOk(m, prog) && LayoutOk(f, l) && InstrOk(f, prog, m, i) && InPlace(prog, l, f, i.action)
    requires i.result.Some? ==> i.result.value < |l.slots| && l.slots[i.result.value] != Pending
    requires at.Some? ==> at.value < 0x8000_0000
    ensures LowerInstrAt(ieee, m, prog, l, f, i, at).Some?
       <==> Known(f, i.action) && (GlobalName(i.action).Some? ==> at.Some?)
  {
    hide ValueClass;
    hide LayoutOk;
    hide EmitValue;
    hide ValueType;
    hide CtxOk;
    hide ResultType;
    hide DirectTarget;
    hide CallTarget;
    hide LowerConst;
    hide LowerPrimitive;
    hide EmitOperands;
    hide Opcode;
    Sizes(f, l);
    match i.action
    case Const(k) => ConstLowered(ieee, prog, l, f, i, k);
    case Primitive(op, ops) => PrimitiveLowered(prog, l, f, i, op, ops);
    case GlobalStore(_, ops) =>
      if |ops| == 1 {
        OneOperand(prog, l, f, i.action, ops);
      }
    case Cast(ops, from, to) =>
      if |ops| == 1 {
        OneOperand(prog, l, f, i.action, ops);
      }
    case Dup(ops) =>
      if |ops| == 1 {
        OneOperand(prog, l, f, i.action, ops);
      }
    case Drop(ops) =>
      if |ops| == 1 {
        OneOperand(prog, l, f, i.action, ops);
      }
    case Print(ops) =>
      if |ops| == 1 {
        OneOperand(prog, l, f, i.action, ops);
      }
    case Call(_, _, _, _, _) => KnownCall(m, prog, l, f, i);
    case _ =>
  }

  lemma KnownCall(m: ModuleCtx, prog: Program, l: Layout, f: Function, i: Instr)
    requires CtxOk(m, prog) && LayoutOk(f, l) && i.action.Call? && InPlace(prog, l, f, i.action)
    requires CallOk(f, prog, m, i.action, TypeToVal(i.ty))
    ensures LowerCall(m, prog, l, f, i.action).Some? <==> Known(f, i.action)
  {
    hide LayoutOk;
    hide EmitOperands;
    hide ResultType;
    hide CallTarget;
    hide LookupId;
    hide CtxOk;
    var t, ops := DirectTarget(f, i.action).value, i.action.operands;
    CallTargetIs(f, prog, m, i.action, TypeToVal(i.ty));
    Indexed(m, prog, t);
    forall k | 0 <= k < |ops| && LoweredParam(prog.fns[t].params[k]).Some?
      ensures ops[k] < |l.slots| && l.slots[ops[k]].InLocal?
    {
      assert Reads(prog, f, i.action, ops[k]);
    }
    OperandsLowered(l, f, prog.fns[t].params, ops);
  }

  lemma Indexed(m: ModuleCtx, prog: Program, id: FnId)
    requires CtxOk(m, prog) && LookupId(m, id).Some?
    ensures id < |prog.fns| && LookupId(m, id).value.fn == id && LookupId(m, id).value.typeIndex < |m.types|
    ensures m.types[LookupId(m, id).value.typeIndex] == TypeOfFunction(prog.fns[id])
  {
    hide TypeOfFunction;
    if FindById(m.imports, id).Some? {
      var k := FindByIdAt(m.imports, id);
      assert DefOk(m, prog, m.imports[k], BUILTINS + k, true);
    } else {
      var k := FindByIdAt(m.defs, id);
      assert DefOk(m, prog, m.defs[k], BUILTINS + |m.imports| + k, false);
    }
  }

  // ---- Room for globals -----------------------------------------------------------------------------

  function GlobalsOf(instrs: seq<Instr>): set<string> {
    if instrs == [] then {}
    else
      (match instrs[0].action
       case GlobalLoad(name) => {name}
       case GlobalStore(name, _) => {name}
       case _ => {}) + GlobalsOf(instrs[1..])
  }

  /** The region has room for the names that have no slot yet, and memory can grow to hold them. */
  predicate Fits(g: GlobalTable, names: set<string>) {
    var missing := |names - g.slots.Keys|;
    var end := g.bump + missing * SLOT_SIZE;
    missing > 0 ==> end <= GLOBAL_END && (end <= g.pages * PAGE_SIZE || end <= g.maxPages * PAGE_SIZE)
  }

  lemma GrowsTo(g: GlobalTable, end: nat)
    ensures PagesFor(g, end).Some? <==> end <= g.pages * PAGE_SIZE || end <= g.maxPages * PAGE_SIZE
    ensures PagesFor(g, end).Some? ==> g.pages <= PagesFor(g, end).value
    ensures PagesFor(g, end).Some? ==> PagesFor(g, end).value == g.pages || PagesFor(g, end).value <= g.maxPages
  {
    var needed := (end + PAGE_SIZE - 1) / PAGE_SIZE;
    assert needed * PAGE_SIZE >= end > (needed - 1) * PAGE_SIZE;
    if end <= g.maxPages * PAGE_SIZE {
      assert needed <= g.maxPages;
    }
  }

  /** What a request for a new name does to the numbers that count. */
  lemma NewAddress(g: GlobalTable, name: string)
    requires name !in g.slots
    ensures var (at, h) := Address(g, name);
            var end := g.bump + SLOT_SIZE;
            && (at.Some? <==> end <= GLOBAL_END && (end <= g.pages * PAGE_SIZE || end <= g.maxPages * PAGE_SIZE))
            && (at.Some? ==>
                  && h.slots == g.slots[name := g.bump] && h.bump == end && h.maxPages == g.maxPages
                  && g.pages <= h.pages && (h.pages == g.pages || h.pages <= g.maxPages)
                  && end <= h.pages * PAGE_SIZE)
  {
    hide PagesFor;
    GrowsTo(g, g.bump + SLOT_SIZE);
    if PagesFor(g, g.bump + SLOT_SIZE).Some? {
      PagesEnough(g, g.bump + SLOT_SIZE);
    }
  }

  /** A request for one of the names succeeds as long as they all fit, and whether they fit stays the same. */
  lemma AddressFits(g: GlobalTable, name: string, names: set<string>)
    requires name in names
    ensures var (at, h) := Address(g, name);
            && (at.None? ==> !Fits(g, names))
            && (at.Some? ==> (Fits(h, names) <==> Fits(g, names)) && h.slots.Keys == g.slots.Keys + {name})
  {
    hide Fits;
    if name in g.slots {
      assert g.slots.Keys == g.slots.Keys + {name};
    } else {
      NewAddress(g, name);
      hide Address;
      var (at, h) := Address(g, name);
      OneLess(g.slots.Keys, name, names);
      if at.Some? {
        assert h.slots.Keys == g.slots.Keys + {name};
      }
      NewFits(g, h, |names - g.slots.Keys|, name, names);
    }
  }

  lemma OneLess(taken: set<string>, name: string, names: set<string>)
    requires name in names && name !in taken
    ensures |names - taken| > 0 && |names - (taken + {name})| == |names - taken| - 1
  {
    assert name in names - taken;
    assert names - (taken + {name}) == (names - taken) - {name};
  }

  lemma NewFits(g: GlobalTable, h: GlobalTable, missing: nat, name: string, names: set<string>)
    requires missing == |names - g.slots.Keys| > 0
    requires var end := g.bump + SLOT_SIZE;
             end > GLOBAL_END || !(end <= g.pages * PAGE_SIZE || end <= g.maxPages * PAGE_SIZE)
             || (&& |names - h.slots.Keys| == missing - 1 && h.bump == end && h.maxPages == g.maxPages
                 && g.pages <= h.pages && (h.pages == g.pages || h.pages <= g.maxPages) && end <= h.pages * PAGE_SIZE)
    ensures var end := g.bump + SLOT_SIZE;
            if end > GLOBAL_END || !(end <= g.pages * PAGE_SIZE || end <= g.maxPages * PAGE_SIZE) then !Fits(g, names)
            else Fits(h, names) <==> Fits(g, names)
  {
  }

  // ---- Bodies ----------------------------------------------------------------------------------------

  /** Lowering a part from the slot table `g` to `h`: it succeeds only if the part is acceptable, and then gives its own
      names slots and leaves it as it was whether all `names` fit; it fails only if the part is not acceptable or they
      do not fit. */
  ghost predicate Goes(g: GlobalTable, h: GlobalTable, names: set<string>, own: set<string>, ok: bool, done: bool) {
    && TableOk(h) && g.slots.Keys <= h.slots.Keys
    && (done ==> ok && (Fits(h, names) <==> Fits(g, names)) && own <= h.slots.Keys)
    && (!done ==> !ok || !Fits(g, names))
  }

  lemma GoesOn(g: GlobalTable, g': GlobalTable, h: GlobalTable, names: set<string>, own: set<string>,
               own': set<string>, ok: bool, ok': bool, done: bool)
    requires Goes(g, g', names, own, ok, true) && Goes(g', h, names, own', ok', done)
    ensures Goes(g, h, names, own + own', ok && ok', done)
  {
    hide Fits;
    hide TableOk;
  }

  lemma GoesNowhere(g: GlobalTable, names: set<string>, own: set<string>, done: bool)
    requires TableOk(g)
    ensures Goes(g, g, names, {}, true, true) && Goes(g, g, names, own, false, false)
  {
  }

  /** Every value an instruction reads or the function returns belongs to a parameter or is a result. */
  ghost predicate ReadsGiven(prog: Program, f: Function) {
    && (forall i, v: nat :: i in InstrsOf(f.blocks) && Reads(prog, f, i.action, v) ==> Given(f, v))
    && forall b :: 0 <= b < |f.blocks| && f.blocks[b].term.Return? && ResultType(f).Some? ==>
                     Given(f, f.blocks[b].term.value)
  }

  predicate Given(f: Function, v: ValueId) {
    v in ParamValues(f.params) || exists i :: i in InstrsOf(f.blocks) && v in Defines(i)
  }

  lemma {:induction false} PlacedIn(l: Layout, params: seq<Param>, base: nat, p: Param)
    requires Placed(l, params, base) && p in params && LoweredParam(p).Some?
    ensures p.value < |l.slots| && l.slots[p.value].InLocal?
    decreases |params|
  {
    if p != params[0] {
      PlacedIn(l, params[1..], if LoweredParam(params[0]).None? then base else base + 1, p);
    }
  }

  lemma GivenInLocal(prog: Program, m: ModuleCtx, f: Function, v: ValueId)
    requires FunctionOk(prog, m, f) && Given(f, v)
    ensures LayoutOf(f).Some? && v < |LayoutOf(f).value.slots| && LayoutOf(f).value.slots[v].InLocal?
  {
    hide LayoutOf;
    hide InstrsOf;
    hide FlowOk;
    hide ActionOk;
    LayoutCorrect(prog, m, f);
    var l := LayoutOf(f).value;
    if v in ParamValues(f.params) {
      var p :| p in f.params && LoweredParam(p).Some? && p.value == v;
      PlacedIn(l, f.params, 0, p);
    } else {
      var i :| i in InstrsOf(f.blocks) && v in Defines(i);
      var k :| 0 <= k < |InstrsOf(f.blocks)| && InstrsOf(f.blocks)[k] == i;
      assert InstrOk(f, prog, m, InstrsOf(f.blocks)[k]);
      assert LayoutProofs.SlotOk(f, l, v);
    }
  }

  /** Instructions ready to be lowered: well typed, their operands and results in place. */
  ghost predicate Ready(prog: Program, m: ModuleCtx, l: Layout, f: Function, instrs: seq<Instr>) {
    forall i :: i in instrs ==>
                  && InstrOk(f, prog, m, i) && InPlace(prog, l, f, i.action)
                  && (i.result.Some? ==> i.result.value < |l.slots| && l.slots[i.result.value] != Pending)
  }

  predicate AllKnown(f: Function, instrs: seq<Instr>) {
    forall i :: i in instrs ==> Known(f, i.action)
  }

  lemma InstrGoes(ieee: Ieee, m: ModuleCtx, prog: Program, l: Layout, f: Function, i: Instr, g: GlobalTable,
                  names: set<string>)
    requires TableOk(g) && CtxOk(m, prog) && LayoutOk(f, l) && Ready(prog, m, l, f, [i]) && GlobalsOf([i]) <= names
    ensures var (at, h) := AddressFor(g, i.action);
            Goes(g, h, names, GlobalsOf([i]), Known(f, i.action), LowerInstrAt(ieee, m, prog, l, f, i, at).Some?)
  {
    hide LowerInstrAt;
    hide CtxOk;
    hide LayoutOk;
    hide Fits;
    hide TableOk;
    hide Address;
    hide InstrOk;
    hide InPlace;
    var (at, h) := AddressFor(g, i.action);
    assert i in [i] && [i][1..] == [];
    AddressForOk(g, i.action);
    if GlobalName(i.action).Some? {
      AddressFits(g, GlobalName(i.action).value, names);
      InRegion(g, GlobalName(i.action).value);
    }
    InstrLowered(ieee, m, prog, l, f, i, at);
  }

  lemma InRegion(g: GlobalTable, name: string)
    requires TableOk(g)
    ensures Address(g, name).0.Some? ==> Address(g, name).0.value < 0x8000_0000
  {
    AddressCorrect(g, name);
  }

  lemma {:induction false} InstrsGo(ieee: Ieee, m: ModuleCtx, prog: Program, l: Layout, f: Function,
                                    instrs: seq<Instr>, g: GlobalTable, names: set<string>)
    requires TableOk(g) && CtxOk(m, prog) && LayoutOk(f, l) && Ready(prog, m, l, f, instrs)
    requires GlobalsOf(instrs) <= names
    ensures var (code, h) := LowerInstrs(ieee, m, prog, l, f, instrs, g);
            Goes(g, h, names, GlobalsOf(instrs), AllKnown(f, instrs), code.Some?)
    decreases |instrs|
  {
    hide LowerInstrAt;
    hide AddressFor;
    hide CtxOk;
    hide LayoutOk;
    hide TableOk;
    hide Fits;
    hide Known;
    hide InstrOk;
    hide InPlace;
    GoesNowhere(g, names, {}, true);
    if instrs != [] {
      var i := instrs[0];
      var (at, g') := AddressFor(g, i.action);
      assert GlobalsOf([i]) + GlobalsOf(instrs[1..]) == GlobalsOf(instrs) by { assert [i][1..] == []; }
      InstrGoes(ieee, m, prog, l, f, i, g, names);
      assert AllKnown(f, instrs) <==> Known(f, i.action) && AllKnown(f, instrs[1..]);
      if LowerInstrAt(ieee, m, prog, l, f, i, at).Some? {
        InstrsGo(ieee, m, prog, l, f, instrs[1..], g', names);
        var (rest, h) := LowerInstrs(ieee, m, prog, l, f, instrs[1..], g');
        GoesOn(g, g', h, names, GlobalsOf([i]), GlobalsOf(instrs[1..]), Known(f, i.action), AllKnown(f, instrs[1..]),
               rest.Some?);
      }
    }
  }

  function GlobalsIn(blocks: seq<Block>): set<string> {
    if blocks == [] then {} else GlobalsOf(blocks[0].instrs) + GlobalsIn(blocks[1..])
  }

  /** How a block may end: it returns, is never left, or runs off the end of a function without result. */
  predicate Ends(f: Function, term: Terminator) {
    match term
    case NoTerm => ResultType(f).None?
    case Branching => false
    case _ => true
  }

  ghost predicate BlocksKnown(f: Function, blocks: seq<Block>) {
    forall b :: b in blocks ==> AllKnown(f, b.instrs) && Ends(f, b.term)
  }

  /** The returned values are in place. */
  ghost predicate Returned(l: Layout, f: Function, blocks: seq<Block>) {
    forall b :: b in blocks && b.term.Return? && ResultType(f).Some? ==>
                  b.term.value < |l.slots| && l.slots[b.term.value].InLocal?
  }

  lemma {:induction false} BlocksGo(ieee: Ieee, m: ModuleCtx, prog: Program, l: Layout, f: Function,
                                    blocks: seq<Block>, g: GlobalTable, names: set<string>)
    requires TableOk(g) && CtxOk(m, prog) && LayoutOk(f, l) && Returned(l, f, blocks)
    requires forall b :: b in blocks ==> Ready(prog, m, l, f, b.instrs)
    requires GlobalsIn(blocks) <= names
    ensures var (code, h) := LowerBlocks(ieee, m, prog, l, f, blocks, g);
            Goes(g, h, names, GlobalsIn(blocks), BlocksKnown(f, blocks), code.Some?)
    decreases |blocks|
  {
    hide LowerInstrs;
    hide CtxOk;
    hide LayoutOk;
    hide TableOk;
    hide Fits;
    hide Ready;
    hide AllKnown;
    hide ResultType;
    hide GlobalsOf;
    GoesNowhere(g, names, {}, true);
    if blocks != [] {
      var b := blocks[0];
      var (code, g') := LowerInstrs(ieee, m, prog, l, f, b.instrs, g);
      InstrsGo(ieee, m, prog, l, f, b.instrs, g, names);
      assert BlocksKnown(f, blocks) <==> AllKnown(f, b.instrs) && Ends(f, b.term) && BlocksKnown(f, blocks[1..]);
      assert LowerTerm(l, b.term, ResultType(f).Some?).Some? <==> Ends(f, b.term);
      if code.Some? && Ends(f, b.term) {
        BlocksGo(ieee, m, prog, l, f, blocks[1..], g', names);
        var (rest, h) := LowerBlocks(ieee, m, prog, l, f, blocks[1..], g');
        GoesOn(g, g', h, names, GlobalsOf(b.instrs), GlobalsIn(blocks[1..]), AllKnown(f, b.instrs),
               BlocksKnown(f, blocks[1..]), rest.Some?);
      }
    }
  }

  /** The backend knows every instruction of the body, and the body ends as it may. */
  ghost predicate BodyKnown(f: Function) {
    BlocksKnown(f, f.blocks) && (f.blocks == [] ==> ResultType(f).None?)
  }

  lemma BlockReady(prog: Program, m: ModuleCtx, f: Function, b: nat)
    requires FunctionOk(prog, m, f) && ReadsGiven(prog, f) && b < |f.blocks| && LayoutOf(f).Some?
    ensures Ready(prog, m, LayoutOf(f).value, f, f.blocks[b].instrs)
  {
    hide LayoutOf;
    hide FlowOk;
    hide InstrOk;
    hide Reads;
    hide Given;
    var l := LayoutOf(f).value;
    LayoutCorrect(prog, m, f);
    InstrsOfBlock(f.blocks, b);
    forall i | i in f.blocks[b].instrs
      ensures InstrOk(f, prog, m, i) && InPlace(prog, l, f, i.action)
    {
      var k :| 0 <= k < |InstrsOf(f.blocks)| && InstrsOf(f.blocks)[k] == i;
      assert InstrOk(f, prog, m, InstrsOf(f.blocks)[k]);
      forall v: nat | Reads(prog, f, i.action, v) ensures v < |l.slots| && l.slots[v].InLocal? {
        GivenInLocal(prog, m, f, v);
      }
    }
  }

  lemma FunctionGoes(ieee: Ieee, m: ModuleCtx, prog: Program, f: Function, g: GlobalTable, names: set<string>)
    requires TableOk(g) && CtxOk(m, prog) && FunctionOk(prog, m, f) && ReadsGiven(prog, f)
    requires GlobalsIn(f.blocks) <= names
    ensures var (body, h) := LowerFunction(ieee, m, prog, f, g);
            Goes(g, h, names, GlobalsIn(f.blocks), BodyKnown(f), body.Some?)
  {
    hide LowerBlocks;
    hide CtxOk;
    hide LayoutOk;
    hide TableOk;
    hide Fits;
    hide Ready;
    hide LayoutOf;
    hide FunctionOk;
    hide ResultType;
    hide InstrsOf;
    hide Given;
    hide GlobalsIn;
    hide BlocksKnown;
    hide Reads;
    LayoutCorrect(prog, m, f);
    var l := LayoutOf(f).value;
    forall b | b in f.blocks
      ensures Ready(prog, m, l, f, b.instrs)
      ensures b.term.Return? && ResultType(f).Some? ==>
                b.term.value < |l.slots| && l.slots[b.term.value].InLocal?
    {
      var k :| 0 <= k < |f.blocks| && f.blocks[k] == b;
      BlockReady(prog, m, f, k);
      if b.term.Return? && ResultType(f).Some? {
        GivenInLocal(prog, m, f, f.blocks[k].term.value);
      }
    }
    BlocksGo(ieee, m, prog, l, f, f.blocks, g, names);
    assert l.paramCount <= |l.types|;
    var (code, h) := LowerBlocks(ieee, m, prog, l, f, f.blocks, g);
    assert LowerFunction(ieee, m, prog, f, g).1 == h;
    assert LowerFunction(ieee, m, prog, f, g).0.Some? <==> code.Some? && (f.blocks == [] ==> ResultType(f).None?);
  }

  // ---- Programs ---------------------------------------------------------------------------------------

  /** The globals that the functions name. */
  function GlobalsFor(prog: Program, defs: seq<FuncDef>): set<string> {
    if defs == [] then {}
    else (if defs[0].fn < |prog.fns| then GlobalsIn(prog.fns[defs[0].fn].blocks) else {}) + GlobalsFor(prog, defs[1..])
  }

  ghost predicate DefsReady(prog: Program, m: ModuleCtx, defs: seq<FuncDef>) {
    forall d :: d in defs ==>
                  d.fn < |prog.fns| && FunctionOk(prog, m, prog.fns[d.fn]) && ReadsGiven(prog, prog.fns[d.fn])
  }

  ghost predicate DefsKnown(prog: Program, defs: seq<FuncDef>) {
    forall d :: d in defs && d.fn < |prog.fns| ==> BodyKnown(prog.fns[d.fn])
  }

  lemma {:induction false} FunctionsGo(ieee: Ieee, m: ModuleCtx, prog: Program, defs: seq<FuncDef>, g: GlobalTable,
                                       names: set<string>)
    requires TableOk(g) && CtxOk(m, prog) && DefsReady(prog, m, defs) && GlobalsFor(prog, defs) <= names
    ensures var (bodies, h) := LowerFunctions(ieee, m, prog, defs, g);
            Goes(g, h, names, GlobalsFor(prog, defs), DefsKnown(prog, defs), bodies.Some?)
    decreases |defs|
  {
    hide LowerFunction;
    hide CtxOk;
    hide TableOk;
    hide Fits;
    hide FunctionOk;
    hide ReadsGiven;
    hide BodyKnown;
    hide GlobalsIn;
    GoesNowhere(g, names, {}, true);
    if defs != [] {
      assert defs[0] in defs;
      var f := prog.fns[defs[0].fn];
      var (body, g') := LowerFunction(ieee, m, prog, f, g);
      FunctionGoes(ieee, m, prog, f, g, names);
      assert DefsKnown(prog, defs) <==> BodyKnown(f) && DefsKnown(prog, defs[1..]);
      if body.Some? {
        FunctionsGo(ieee, m, prog, defs[1..], g', names);
        var (rest, h) := LowerFunctions(ieee, m, prog, defs[1..], g');
        GoesOn(g, g', h, names, GlobalsIn(f.blocks), GlobalsFor(prog, defs[1..]), BodyKnown(f),
               DefsKnown(prog, defs[1..]), rest.Some?);
      }
    }
  }

  /** A well-typed program compiles if and only if it has an entry, the backend knows every instruction of its
      functions and how they end, and all globals they name fit. */
  lemma CompilesExactly(ieee: Ieee, prog: Program, g: GlobalTable)
    requires ProgramOk(prog) && TableOk(g) && BuildCtx(prog).Some?
    requires DefsReady(prog, BuildCtx(prog).value, BuildCtx(prog).value.defs)
    ensures var m := BuildCtx(prog).value;
            LowerProgram(ieee, prog, g).0.Some?
            <==> && (LookupName(m, prog, TOP).Some? || m.defs != [])
                 && DefsKnown(prog, m.defs) && Fits(g, GlobalsFor(prog, m.defs))
  {
    hide BuildCtx;
    hide CtxOk;
    hide TableOk;
    hide LowerFunctions;
    hide DefsReady;
    hide DefsKnown;
    hide LookupName;
    hide GlobalsFor;
    var m := BuildCtx(prog).value;
    var names := GlobalsFor(prog, m.defs);
    IndicesCorrect(prog);
    FunctionsGo(ieee, m, prog, m.defs, g, names);
    var (bodies, h) := LowerFunctions(ieee, m, prog, m.defs, g);
    if bodies.Some? {
      assert names - h.slots.Keys == {};
    }
  }

  // ---- Functions of the module ---------------------------------------------------------------------------

  /** The result of the function is a value, nothing or a module. */
  predicate Represented(f: Function) {
    ReturnType(f).kind != KVar && ReturnType(f).kind != KOther
  }

  predicate Wanted(prog: Program, id: FnId)
    requires id < |prog.fns|
  {
    ImportWanted(prog.fns[id]) || DefWanted(prog, id)
  }

  /** The functions of the program are collected if and only if all that are wanted return something represented. */
  lemma ContextExactly(prog: Program)
    requires ProgramOk(prog)
    ensures BuildCtx(prog).Some?
       <==> forall k :: 0 <= k < |prog.listed| && Wanted(prog, prog.listed[k]) ==> Represented(prog.fns[prog.listed[k]])
  {
    hide AddImports;
    hide AddDefs;
    hide ImportWanted;
    hide DefWanted;
    hide Represented;
    ImportsExactly(prog, ModuleCtx(INITIAL_TYPES, [], []), prog.listed);
    match AddImports(ModuleCtx(INITIAL_TYPES, [], []), prog, prog.listed)
    case None =>
      var k :| 0 <= k < |prog.listed| && ImportWanted(prog.fns[prog.listed[k]])
               && !Represented(prog.fns[prog.listed[k]]);
      assert Wanted(prog, prog.listed[k]);
    case Some(m) =>
      DefsExactly(prog, m, prog.listed);
      assert forall k :: 0 <= k < |prog.listed| ==>
          (Wanted(prog, prog.listed[k])
           <==> ImportWanted(prog.fns[prog.listed[k]]) || DefWanted(prog, prog.listed[k]));
  }

  lemma {:induction false} ImportsExactly(prog: Program, m: ModuleCtx, ids: seq<FnId>)
    requires IdsOk(prog, ids)
    ensures AddImports(m, prog, ids).Some?
       <==> forall k :: 0 <= k < |ids| && ImportWanted(prog.fns[ids[k]]) ==> Represented(prog.fns[ids[k]])
    decreases |ids|
  {
    hide ImportWanted;
    hide Represented;
    hide AddFuncDef;
    if ids != [] {
      AddedExactly(m, prog, ids[0], true);
      assert forall k :: 0 <= k < |ids[1..]| ==> ids[1..][k] == ids[k + 1];
      var m' := if ImportWanted(prog.fns[ids[0]]) then AddFuncDef(m, prog, ids[0], true) else Some(m);
      if m'.Some? {
        ImportsExactly(prog, m'.value, ids[1..]);
        assert (forall k :: 0 <= k < |ids| && ImportWanted(prog.fns[ids[k]]) ==> Represented(prog.fns[ids[k]]))
          <==> forall k :: 0 <= k < |ids[1..]| && ImportWanted(prog.fns[ids[1..][k]]) ==>
                             Represented(prog.fns[ids[1..][k]]);
      }
    }
  }

  lemma {:induction false} DefsExactly(prog: Program, m: ModuleCtx, ids: seq<FnId>)
    requires IdsOk(prog, ids)
    ensures AddDefs(m, prog, ids).Some?
       <==> forall k :: 0 <= k < |ids| && DefWanted(prog, ids[k]) ==> Represented(prog.fns[ids[k]])
    decreases |ids|
  {
    hide DefWanted;
    hide Represented;
    hide AddFuncDef;
    if ids != [] {
      AddedExactly(m, prog, ids[0], false);
      assert forall k :: 0 <= k < |ids[1..]| ==> ids[1..][k] == ids[k + 1];
      var m' := if DefWanted(prog, ids[0]) then AddFuncDef(m, prog, ids[0], false) else Some(m);
      if m'.Some? {
        DefsExactly(prog, m'.value, ids[1..]);
        assert (forall k :: 0 <= k < |ids| && DefWanted(prog, ids[k]) ==> Represented(prog.fns[ids[k]]))
          <==> forall k :: 0 <= k < |ids[1..]| && DefWanted(prog, ids[1..][k]) ==> Represented(prog.fns[ids[1..][k]]);
      }
    }
  }

  lemma AddedExactly(m: ModuleCtx, prog: Program, id: FnId, asImport: bool)
    requires id < |prog.fns|
    ensures AddFuncDef(m, prog, id, asImport).Some? <==> Represented(prog.fns[id])
  {
    hide ReturnType;
    hide AddType;
    hide TypeOfFunction;
  }
}
