/** Well-typed MIR: what the builder of MIR promises to the backend. */
module WellTyped {
  import opened Wrappers
  import opened Leb128
  import opened Mir
  import opened MirEval
  import opened Lowering

  predicate ConstFits(k: Constant, c: ValType) {
    match k
    case CInt(_) | CBool(_) | CChar(_) => c == I32
    case CUint64(_) => c == I64 || c == I32
    case CFloat(_) | CDouble(_) => c == F64
    case CVoid | CUndef | CString => false
  }

  /** A parameter's value has the parameter's type. */
  predicate ParamOk(f: Function, p: Param) {
    p.value < |f.valueTypes| && (IsEnv(p) || TypeToVal(p.ty) == TypeToVal(f.valueTypes[p.value]))
  }

  predicate DistinctValues(params: seq<Param>) {
    forall j, k :: 0 <= j < k < |params| ==> params[j].value != params[k].value
  }

  ghost predicate ParamsOk(f: Function, params: seq<Param>) {
    DistinctValues(params) && forall p :: p in params ==> p in f.params && ParamOk(f, p)
  }

  /** The value an instruction defines has the instruction's type; without a value there is no type. */
  predicate ResultOk(f: Function, i: Instr) {
    match i.result
    case None => TypeToVal(i.ty).None?
    case Some(v) => v < |f.valueTypes| && ValueClass(f, v) == TypeToVal(i.ty)
  }

  /** An argument matches its parameter. */
  predicate ArgumentOk(f: Function, p: Param, v: ValueId) {
    match LoweredParam(p)
    case Some(c) => ValueClass(f, v) == Some(c)
    case None => IsEnv(p) || (v < |f.valueTypes| && f.valueTypes[v].kind == KVoid)
  }

  predicate ArgumentsOk(f: Function, params: seq<Param>, ops: seq<ValueId>) {
    |params| == |ops| && forall k :: 0 <= k < |ops| ==> ArgumentOk(f, params[k], ops[k])
  }

  /** A call fits the signature of its function. */
  predicate CallTyped(f: Function, prog: Program, a: Action, c: Option<ValType>)
    requires a.Call?
  {
    var t := DirectTarget(f, a);
    && t.Some? && t.value < |prog.fns|
    && ArgumentsOk(f, prog.fns[t.value].params, a.operands)
    && ResultType(prog.fns[t.value]) == c
  }

  /** The function called is in the module, and a specialised name that comes without its function does not find
      another one there. */
  predicate CallKnown(f: Function, prog: Program, m: ModuleCtx, a: Action)
    requires a.Call?
  {
    var t := DirectTarget(f, a);
    && t.Some? && LookupId(m, t.value).Some?
    && (a.specialized.Some? || a.specializedName.None? || LookupName(m, prog, a.specializedName.value).None?
        || LookupName(m, prog, a.specializedName.value) == LookupId(m, t.value))
  }

  /** A call goes to a function of the module whose signature fits. */
  predicate CallOk(f: Function, prog: Program, m: ModuleCtx, a: Action, c: Option<ValType>)
    requires a.Call?
  {
    CallTyped(f, prog, a, c) && CallKnown(f, prog, m, a)
  }

  predicate ActionTyped(f: Function, prog: Program, a: Action, hasResult: bool, c: Option<ValType>) {
    match a
    case Const(k) => if c.Some? then ConstFits(k, c.value) else hasResult || k == CVoid || k == CUndef
    case Primitive(LNOT, ops) =>
      c == Some(I32) && (|ops| == 1 ==> ValueClass(f, ops[0]) == Some(I32) || ValueClass(f, ops[0]) == Some(I64))
    case Primitive(op, ops) =>
      c.Some? && (|ops| == 2 ==> ValueClass(f, ops[0]).Some? && ValueClass(f, ops[1]) == ValueClass(f, ops[0])
                                 && OpResult(op, ValueClass(f, ops[0]).value) == c)
    case GlobalLoad(_) => true
    case GlobalStore(_, ops) => |ops| == 1 ==> c.None? || c == ValueClass(f, ops[0])
    case Cast(ops, from, to) =>
      c.Some? && (|ops| == 1 ==> ValueClass(f, ops[0]).Some?
                                 && CastResult(TypeToVal(from), TypeToVal(to), ValueClass(f, ops[0]).value) == c)
    case Dup(ops) => c.Some? && (|ops| == 1 ==> ValueClass(f, ops[0]) == c)
    case Drop(_) => c.None?
    case Print(ops) =>
      c.None? && (|ops| == 1 && ops[0] < |f.valueTypes| && IsString(f.valueTypes[ops[0]]) ==>
                    ValueClass(f, ops[0]) == Some(I32))
    case Flush => c.None?
    case FnRef(_, _) => c == Some(I32)
    case Call(_, _, _, _, _) => CallTyped(f, prog, a, c)
    case Unsupported => true
  }

  predicate ActionOk(f: Function, prog: Program, m: ModuleCtx, a: Action, hasResult: bool, c: Option<ValType>) {
    ActionTyped(f, prog, a, hasResult, c) && (a.Call? ==> CallKnown(f, prog, m, a))
  }

  predicate InstrTyped(f: Function, prog: Program, i: Instr) {
    ResultOk(f, i) && ActionTyped(f, prog, i.action, i.result.Some?, TypeToVal(i.ty))
  }

  /** Types agree; the number of operands is left to the lowering, which checks it. */
  predicate InstrOk(f: Function, prog: Program, m: ModuleCtx, i: Instr) {
    ResultOk(f, i) && ActionOk(f, prog, m, i.action, i.result.Some?, TypeToVal(i.ty))
  }

  predicate InstrsOk(f: Function, prog: Program, m: ModuleCtx, instrs: seq<Instr>) {
    forall k :: 0 <= k < |instrs| ==> InstrOk(f, prog, m, instrs[k])
  }

  predicate TermOk(f: Function, term: Terminator) {
    term.Return? && ResultType(f).Some? ==> ValueClass(f, term.value) == ResultType(f)
  }

  /** The values an instruction reads. */
  predicate Reads(prog: Program, f: Function, a: Action, v: ValueId) {
    match a
    case Primitive(_, ops) => v in ops
    case GlobalStore(_, ops) => v in ops
    case Cast(ops, _, _) => v in ops
    case Dup(ops) => v in ops
    case Drop(ops) => v in ops
    case Print(ops) => v in ops
    case Call(_, _, _, _, ops) =>
      var t := DirectTarget(f, a);
      t.Some? && t.value < |prog.fns|
      && exists k :: 0 <= k < |ops| && k < |prog.fns[t.value].params|
                     && LoweredParam(prog.fns[t.value].params[k]).Some? && ops[k] == v
    case _ => false
  }

  /** What is defined after an instruction. */
  function Defines(i: Instr): set<ValueId> {
    if i.result.Some? && TypeToVal(i.ty).Some? then {i.result.value} else {}
  }

  /** Values are defined before they are read; a function returns a defined value. */
  ghost predicate DefinedBefore(prog: Program, f: Function, instrs: seq<Instr>, term: Terminator, defined: set<ValueId>)
    decreases |instrs|
  {
    if instrs == [] then term.Return? && ResultType(f).Some? ==> term.value in defined
    else
      && (forall v :: Reads(prog, f, instrs[0].action, v) ==> v in defined)
      && DefinedBefore(prog, f, instrs[1..], term, defined + Defines(instrs[0]))
  }

  function ParamValues(params: seq<Param>): set<ValueId> {
    set p | p in params && LoweredParam(p).Some? :: p.value
  }

  /** A well-typed function. Its entry block is the first; it ends by returning or not returning at all,
      or, if it is the only block of a function without result, by running off its end. */
  ghost predicate FunctionOk(prog: Program, m: ModuleCtx, f: Function) {
    InstrsOk(f, prog, m, InstrsOf(f.blocks)) && FlowOk(prog, f)
  }

  ghost predicate FlowOk(prog: Program, f: Function) {
    && ParamsOk(f, f.params)
    && (forall b :: 0 <= b < |f.blocks| ==> TermOk(f, f.blocks[b].term))
    && (f.blocks != [] ==>
          && DefinedBefore(prog, f, f.blocks[0].instrs, f.blocks[0].term, ParamValues(f.params))
          && (f.blocks[0].term == NoTerm ==> |f.blocks| == 1))
  }

  /** The types of a function alone: whether the functions it calls are in the module is left open. */
  ghost predicate FunctionTyped(prog: Program, f: Function) {
    (forall i :: i in InstrsOf(f.blocks) ==> InstrTyped(f, prog, i)) && FlowOk(prog, f)
  }

  // ---- The truncation the backend gets wrong -----------------------------------------------

  /** A cast from 64-bit floats to 64-bit integers. */
  predicate LongTruncation(from: Option<ValType>, to: Option<ValType>) {
    from == Some(F64) && to == Some(I64)
  }

  predicate Truncates(i: Instr) {
    i.action.Cast? && LongTruncation(TypeToVal(i.action.from), TypeToVal(i.action.to))
  }

  predicate Truncating(instrs: seq<Instr>) {
    exists k :: 0 <= k < |instrs| && Truncates(instrs[k])
  }

  /** No function the backend emits has such a cast in any of its blocks. */
  predicate NoTruncation(prog: Program, m: ModuleCtx) {
    forall k :: 0 <= k < |m.defs| && m.defs[k].fn < |prog.fns| ==> !Truncating(InstrsOf(prog.fns[m.defs[k].fn].blocks))
  }

  lemma TruncatingJoin(a: seq<Instr>, b: seq<Instr>)
    ensures Truncating(a + b) <==> Truncating(a) || Truncating(b)
  {
    if Truncating(a) {
      var k :| 0 <= k < |a| && Truncates(a[k]);
      assert Truncates((a + b)[k]);
    }
    if Truncating(b) {
      var k :| 0 <= k < |b| && Truncates(b[k]);
      assert Truncates((a + b)[|a| + k]);
    }
  }

  /** A well-typed program, relative to the functions the backend will emit. */
  ghost predicate WellTypedProgram(prog: Program, m: ModuleCtx) {
    forall k :: 0 <= k < |m.defs| ==> m.defs[k].fn < |prog.fns| && FunctionOk(prog, m, prog.fns[m.defs[k].fn])
  }

  lemma {:induction false} InstrsOfBlock(blocks: seq<Block>, b: nat)
    requires b < |blocks|
    ensures forall i :: i in blocks[b].instrs ==> i in InstrsOf(blocks)
    decreases b
  {
    if b > 0 {
      InstrsOfBlock(blocks[1..], b - 1);
      assert blocks[1..][b - 1] == blocks[b];
    }
  }

  /** Every block of a well-typed function is well typed. */
  lemma BlockOk(prog: Program, m: ModuleCtx, f: Function, b: nat)
    requires FunctionOk(prog, m, f) && b < |f.blocks|
    ensures InstrsOk(f, prog, m, f.blocks[b].instrs) && TermOk(f, f.blocks[b].term)
  {
    InstrsOfBlock(f.blocks, b);
    forall k | 0 <= k < |f.blocks[b].instrs|
      ensures InstrOk(f, prog, m, f.blocks[b].instrs[k])
    {
      assert f.blocks[b].instrs[k] in InstrsOf(f.blocks);
    }
  }
}
