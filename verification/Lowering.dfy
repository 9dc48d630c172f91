/** The MIR to WebAssembly lowering, as functions: locals, instructions, bodies and modules.

    `Backend` holds the code that builds these in place and writes their bytes. */
module Lowering {
  import opened Wrappers
  import opened Bits
  import opened Leb128
  import opened Mir
  import opened MirEval
  import opened Wasm
  import opened Globals

  // ---- Locals of a function --------------------------------------------------------

  /** Where a MIR value lives (`YwValueSlot`). */
  datatype Slot = Pending | Void | InLocal(local: nat)

  /** `YwFnCtx`: the slot of every value, the types of all locals, and how many are parameters. */
  datatype Layout = Layout(slots: seq<Slot>, types: seq<ValType>, paramCount: nat)

  /** One parameter of `yw_fn_ctx_init`. */
  function AddParam(l: Layout, p: Param): (r: Option<Layout>) {
    match LoweredParam(p)
    case None =>
      Some(if p.value < |l.slots| && (p.ty.kind == KVoid || IsEnv(p)) then l.(slots := l.slots[p.value := Void]) else l)
    case Some(c) =>
      if p.value >= |l.slots| then None
      else Some(Layout(l.slots[p.value := InLocal(|l.types|)], l.types + [c], l.paramCount + 1))
  }

  function AddParams(l: Layout, params: seq<Param>): (r: Option<Layout>)
    decreases |params|
  {
    if params == [] then Some(l)
    else
      match AddParam(l, params[0])
      case None => None
      case Some(l') => AddParams(l', params[1..])
  }

  /** One instruction of `yw_declare_instr_locals`. */
  function DeclareInstr(l: Layout, i: Instr): (r: Option<Layout>) {
    if i.result.None? then Some(l)
    else if i.result.value >= |l.slots| then None
    else if l.slots[i.result.value] != Pending then Some(l)
    else
      match TypeToVal(i.ty)
      case None => Some(l.(slots := l.slots[i.result.value := Void]))
      case Some(c) => Some(l.(slots := l.slots[i.result.value := InLocal(|l.types|)], types := l.types + [c]))
  }

  function DeclareInstrs(l: Layout, instrs: seq<Instr>): (r: Option<Layout>)
    decreases |instrs|
  {
    if instrs == [] then Some(l)
    else
      match DeclareInstr(l, instrs[0])
      case None => None
      case Some(l') => DeclareInstrs(l', instrs[1..])
  }

  function EmptyLayout(n: nat): Layout {
    Layout(seq(n, _ => Pending), [], 0)
  }

  function LayoutOf(f: Function): (r: Option<Layout>) {
    match AddParams(EmptyLayout(|f.valueTypes|), f.params)
    case None => None
    case Some(l) => DeclareInstrs(l, InstrsOf(f.blocks))
  }

  // ---- Modules -----------------------------------------------------------------------

  const TOP: string := "$top"

  /** `YwFuncDef` and `YwModuleCtx`. */
  datatype FuncDef = FuncDef(fn: FnId, typeIndex: nat, funcIndex: nat, result: Option<ValType>)

  datatype ModuleCtx = ModuleCtx(types: seq<FuncType>, imports: seq<FuncDef>, defs: seq<FuncDef>)

  const PRINT_INT: nat := 0
  const PRINT_STRING: nat := 1
  const BUILTINS: nat := 3

  /** `yw_type_has_type_vars` */
  predicate HasTypeVars(t: Type) {
    match t.kind
    case KVar => true
    case KFn(from, to) => (t.closure.Some? && HasTypeVars(t.closure.value)) || HasTypeVars(from) || HasTypeVars(to)
    case KCons(args) => (t.closure.Some? && HasTypeVars(t.closure.value)) || exists a :: a in args && HasTypeVars(a)
    case KSum(args) => (t.closure.Some? && HasTypeVars(t.closure.value)) || exists a :: a in args && HasTypeVars(a)
    case _ => false
  }

  /** `yw_function_param_types` */
  function ParamTypes(params: seq<Param>): (ts: seq<ValType>) {
    if params == [] then []
    else
      match LoweredParam(params[0])
      case None => ParamTypes(params[1..])
      case Some(c) => [c] + ParamTypes(params[1..])
  }

  function TypeOfFunction(f: Function): FuncType {
    FuncType(ParamTypes(f.params), ResultType(f))
  }

  /** The first index of a type in the table, or the length of the table. */
  function FindType(types: seq<FuncType>, t: FuncType): (k: nat)
    ensures k <= |types|
    ensures k < |types| ==> types[k] == t
  {
    if types == [] then 0
    else if types[0] == t then 0
    else 1 + FindType(types[1..], t)
  }

  /** `yw_type_table_add`: a type already in the table is reused. */
  function AddType(types: seq<FuncType>, t: FuncType): (r: seq<FuncType>)
    ensures FindType(types, t) < |r| && r[FindType(types, t)] == t
    ensures types <= r
  {
    if FindType(types, t) < |types| then types else types + [t]
  }

  /** `yw_add_func_def`; `None` for a return type that has no representation. */
  function AddFuncDef(m: ModuleCtx, prog: Program, id: FnId, asImport: bool): (r: Option<ModuleCtx>)
    requires id < |prog.fns|
  {
    var f := prog.fns[id];
    var k := ReturnType(f).kind;
    if k != KVoid && k != KModule && ResultType(f).None? then None
    else
      var t := TypeOfFunction(f);
      var types := AddType(m.types, t);
      var index := BUILTINS + |m.imports| + if asImport then 0 else |m.defs|;
      var def := FuncDef(id, FindType(m.types, t), index, ResultType(f));
      Some(if asImport then ModuleCtx(types, m.imports + [def], m.defs)
           else ModuleCtx(types, m.imports, m.defs + [def]))
  }

  predicate IdsOk(prog: Program, ids: seq<FnId>) {
    forall k :: 0 <= k < |ids| ==> ids[k] < |prog.fns|
  }

  predicate ImportWanted(f: Function) {
    f.isExtern && !HasTypeVars(f.ty)
  }

  predicate DefWanted(prog: Program, id: FnId)
    requires id < |prog.fns|
  {
    var f := prog.fns[id];
    !f.isExtern && (!HasTypeVars(f.ty) || f.name == TOP) && (f.name == TOP || Supported(prog, id, 0))
  }

  function AddImports(m: ModuleCtx, prog: Program, ids: seq<FnId>): (r: Option<ModuleCtx>)
    requires IdsOk(prog, ids)
    decreases |ids|
  {
    if ids == [] then Some(m)
    else if !ImportWanted(prog.fns[ids[0]]) then AddImports(m, prog, ids[1..])
    else
      match AddFuncDef(m, prog, ids[0], true)
      case None => None
      case Some(m') => AddImports(m', prog, ids[1..])
  }

  function AddDefs(m: ModuleCtx, prog: Program, ids: seq<FnId>): (r: Option<ModuleCtx>)
    requires IdsOk(prog, ids)
    decreases |ids|
  {
    if ids == [] then Some(m)
    else if !DefWanted(prog, ids[0]) then AddDefs(m, prog, ids[1..])
    else
      match AddFuncDef(m, prog, ids[0], false)
      case None => None
      case Some(m') => AddDefs(m', prog, ids[1..])
  }

  /** The types of the built-in imports: one integer parameter twice, and no parameter. */
  const INITIAL_TYPES: seq<FuncType> := [FuncType([I32], None), FuncType([], None)]

  predicate ProgramOk(prog: Program) {
    IdsOk(prog, prog.listed)
  }

  /** `yw_module_ctx_init` */
  function BuildCtx(prog: Program): (r: Option<ModuleCtx>)
    requires ProgramOk(prog)
  {
    match AddImports(ModuleCtx(INITIAL_TYPES, [], []), prog, prog.listed)
    case None => None
    case Some(m) => AddDefs(m, prog, prog.listed)
  }

  /** `yw_module_find_func` and `yw_module_find_func_by_ptr` over one vector. */
  function FindByName(defs: seq<FuncDef>, prog: Program, name: string): (r: Option<FuncDef>) {
    if defs == [] then None
    else if defs[0].fn < |prog.fns| && prog.fns[defs[0].fn].name == name then Some(defs[0])
    else FindByName(defs[1..], prog, name)
  }

  function FindById(defs: seq<FuncDef>, id: FnId): (r: Option<FuncDef>) {
    if defs == [] then None
    else if defs[0].fn == id then Some(defs[0])
    else FindById(defs[1..], id)
  }

  function LookupName(m: ModuleCtx, prog: Program, name: string): Option<FuncDef> {
    var r := FindByName(m.imports, prog, name);
    if r.Some? then r else FindByName(m.defs, prog, name)
  }

  function LookupId(m: ModuleCtx, id: FnId): Option<FuncDef> {
    var r := FindById(m.imports, id);
    if r.Some? then r else FindById(m.defs, id)
  }

  // ---- Functions the backend accepts -------------------------------------------------

  /** `yw_function_body_supported_for_now_depth` */
  predicate Supported(prog: Program, id: FnId, depth: nat)
    decreases 33 - depth
  {
    id < |prog.fns| &&
    var f := prog.fns[id];
    f.isExtern
    || (depth <= 32
        && !HasTypeVars(f.ty)
        && (forall k :: 0 <= k < |InstrsOf(f.blocks)| ==>
              InstrSupported(prog, id, InstrsOf(f.blocks)[k].action, depth))
        && forall b :: 0 <= b < |f.blocks| ==> f.blocks[b].term != Branching)
  }

  predicate InstrSupported(prog: Program, id: FnId, a: Action, depth: nat)
    requires id < |prog.fns| && depth <= 32
    decreases 33 - depth, 0
  {
    match a
    case Unsupported => false
    case Call(_, _, _, _, _) =>
      var t := DirectTarget(prog.fns[id], a);
      t.Some? && t.value < |prog.fns|
      && (t.value == id || prog.fns[t.value].isExtern || Supported(prog, t.value, depth + 1))
    case _ => true
  }

  // ---- Instructions ------------------------------------------------------------------

  /** `yw_emit_value` */
  function EmitValue(l: Layout, v: ValueId): (code: Option<Code>) {
    if v < |l.slots| && l.slots[v].InLocal? then Some([LocalGet(l.slots[v].local)]) else None
  }

  /** `yw_value_type` */
  function ValueType(l: Layout, f: Function, v: ValueId): (c: Option<ValType>) {
    if v >= |l.slots| then None
    else if l.slots[v].InLocal? then
      (if l.slots[v].local < |l.types| then Some(l.types[l.slots[v].local]) else None)
    else if v < |f.valueTypes| then TypeToVal(f.valueTypes[v])
    else None
  }

  /** `yw_slot_for_result`, whose absence reads as `Pending`. */
  function ResultSlot(l: Layout, i: Instr): Slot {
    if i.result.Some? && i.result.value < |l.slots| then l.slots[i.result.value] else Pending
  }

  function LowerConst(ieee: Ieee, l: Layout, i: Instr, k: Constant): (code: Option<Code>) {
    var slot := ResultSlot(l, i);
    var c := if slot.InLocal? && slot.local < |l.types| then l.types[slot.local] else I32;
    if slot == Void then Some([])
    else
      match k
      case CInt(n) => Some([I32Const(n)])
      case CUint64(u) => Some([if c == I64 then I64Const(Signed64(u)) else I32Const(Signed32(u % 0x1_0000_0000))])
      case CFloat(b) => Some([if c == F32 then F32Const(b) else F64Const(ieee.promote(b))])
      case CDouble(b) => Some([F64Const(b)])
      case CBool(b) => Some([I32Const(if b then 1 else 0)])
      case CChar(ch) => Some([I32Const(ch)])
      case CVoid | CUndef => Some([])
      case CString => None
  }

  /** `yw_primitive_opcode` */
  function Opcode(op: PrimOp, c: ValType): (opcode: Option<byte>) {
    var long := c == I64;
    var single := c == F32;
    var float := c == F32 || c == F64;
    match op
    case IADD | UADD => Some(if long then 0x7c else 0x6a)
    case ISUB | USUB => Some(if long then 0x7d else 0x6b)
    case IMUL | UMUL => Some(if long then 0x7e else 0x6c)
    case IDIV => Some(if long then 0x7f else 0x6d)
    case UDIV => Some(if long then 0x80 else 0x6e)
    case IMOD => Some(if long then 0x81 else 0x6f)
    case UMOD => Some(if long then 0x82 else 0x70)
    case FADD => if float then Some(if single then 0x92 else 0xa0) else None
    case FSUB => if float then Some(if single then 0x93 else 0xa1) else None
    case FMUL => if float then Some(if single then 0x94 else 0xa2) else None
    case FDIV => if float then Some(if single then 0x95 else 0xa3) else None
    case IEQ | UEQ | CEQ | BEQ => Some(if long then 0x51 else 0x46)
    case FEQ => if float then Some(if single then 0x5b else 0x61) else None
    case IGT | CGT => Some(if long then 0x55 else 0x4a)
    case UGT => Some(if long then 0x56 else 0x4b)
    case FGT => if float then Some(if single then 0x5e else 0x64) else None
    case IGTE | CGTE => Some(if long then 0x59 else 0x4e)
    case UGTE => Some(if long then 0x5a else 0x4f)
    case FGTE => if float then Some(if single then 0x60 else 0x66) else None
    case ILT | CLT => Some(if long then 0x53 else 0x48)
    case ULT => Some(if long then 0x54 else 0x49)
    case FLT => if float then Some(if single then 0x5d else 0x63) else None
    case ILTE | CLTE => Some(if long then 0x57 else 0x4c)
    case ULTE => Some(if long then 0x58 else 0x4d)
    case FLTE => if float then Some(if single then 0x5f else 0x65) else None
    case LNOT | FMOD => None
  }

  function LowerPrimitive(l: Layout, f: Function, op: PrimOp, ops: seq<ValueId>): (code: Option<Code>) {
    if op == LNOT then
      if |ops| != 1 || ValueType(l, f, ops[0]).None? || EmitValue(l, ops[0]).None? then None
      else Some(EmitValue(l, ops[0]).value + [Numeric(if ValueType(l, f, ops[0]).value == I64 then 0x50 else 0x45)])
    else if |ops| != 2 || ValueType(l, f, ops[0]).None? || Opcode(op, ValueType(l, f, ops[0]).value).None?
            || EmitValue(l, ops[0]).None? || EmitValue(l, ops[1]).None? then None
    else Some(EmitValue(l, ops[0]).value + EmitValue(l, ops[1]).value
              + [Numeric(Opcode(op, ValueType(l, f, ops[0]).value).value)])
  }

  /** The alignment exponent `yw_memory_ops_for_val` gives. */
  function AlignOf(c: ValType): nat {
    if Width(c) == 4 then 2 else 3
  }

  function LowerGlobalLoad(at: Option<nat>, i: Instr): (code: Option<Code>) {
    if at.None? then None
    else
      match TypeToVal(i.ty)
      case None => Some([])
      case Some(c) => if at.value < 0x8000_0000 then Some([I32Const(at.value), ILoad(c, AlignOf(c), 0)]) else None
  }

  function LowerGlobalStore(at: Option<nat>, l: Layout, f: Function, i: Instr,
                            ops: seq<ValueId>): (code: Option<Code>) {
    if |ops| != 1 || at.None? || ValueType(l, f, ops[0]).None? || EmitValue(l, ops[0]).None? || at.value >= 0x8000_0000
    then None
    else
      var c := ValueType(l, f, ops[0]).value;
      var v := EmitValue(l, ops[0]).value;
      Some([I32Const(at.value)] + v + [IStore(c, AlignOf(c), 0)] + if TypeToVal(i.ty).Some? then v else [])
  }

  /** The conversion opcode of a cast; `None` for casts that are not supported. The last one is meant as the truncation
      of a 64-bit float, which is 0xb0. */
  function CastOpcode(from: ValType, to: ValType): (opcode: Option<byte>) {
    match (from, to)
    case (I64, I32) => Some(0xa7)
    case (I32, I64) => Some(0xac)
    case (I32, F64) => Some(0xb7)
    case (I64, F64) => Some(0xb9)
    case (F64, I32) => Some(0xaa)
    case (F64, I64) => Some(0xae)
    case _ => None
  }

  function LowerCast(l: Layout, ops: seq<ValueId>, from: Option<ValType>, to: Option<ValType>): (code: Option<Code>) {
    if |ops| != 1 || EmitValue(l, ops[0]).None? then None
    else if from.None? || to.None? || from == to then EmitValue(l, ops[0])
    else
      match CastOpcode(from.value, to.value)
      case None => None
      case Some(opcode) => Some(EmitValue(l, ops[0]).value + [Numeric(opcode)])
  }

  function LowerPrint(l: Layout, f: Function, ops: seq<ValueId>): (code: Option<Code>) {
    if |ops| != 1 || EmitValue(l, ops[0]).None? || ValueType(l, f, ops[0]).None? then None
    else
      var v, c := EmitValue(l, ops[0]).value, ValueType(l, f, ops[0]).value;
      if ops[0] < |f.valueTypes| && IsString(f.valueTypes[ops[0]]) then Some(v + [ICall(PRINT_STRING)])
      else if c == I64 then Some(v + [Numeric(0xa7), ICall(PRINT_INT)])
      else if c == I32 then Some(v + [ICall(PRINT_INT)])
      else None
  }

  /** `yw_call_target` */
  function CallTarget(m: ModuleCtx, prog: Program, f: Function, a: Action): (r: Option<FuncDef>)
    requires a.Call?
  {
    if a.specialized.Some? && LookupId(m, a.specialized.value).Some? then LookupId(m, a.specialized.value)
    else if a.specializedName.Some? && LookupName(m, prog, a.specializedName.value).Some? then
      LookupName(m, prog, a.specializedName.value)
    else if a.callee.None? then None
    else
      match FindDef(InstrsOf(f.blocks), a.callee.value)
      case Some(Instr(FnRef(Some(t), name), _, _)) =>
        if LookupId(m, t).Some? then LookupId(m, t) else LookupName(m, prog, name)
      case _ => None
  }

  /** `yw_emit_call_operands`: environment parameters and void operands are skipped. */
  function EmitOperands(l: Layout, f: Function, params: seq<Param>, ops: seq<ValueId>): (code: Option<Code>) {
    if ops == [] then Some([])
    else if ops[0] >= |l.slots| then None
    else
      var rest := EmitOperands(l, f, if params == [] then [] else params[1..], ops[1..]);
      if params != [] && IsEnv(params[0]) then rest
      else if ops[0] < |f.valueTypes| && f.valueTypes[ops[0]].kind == KVoid then rest
      else if rest.None? || EmitValue(l, ops[0]).None? then None
      else Some(EmitValue(l, ops[0]).value + rest.value)
  }

  function LowerCall(m: ModuleCtx, prog: Program, l: Layout, f: Function, a: Action): (code: Option<Code>)
    requires a.Call?
  {
    if a.builtin then None
    else
      match CallTarget(m, prog, f, a)
      case None => None
      case Some(d) =>
        if d.fn >= |prog.fns| || d.typeIndex >= |m.types| then None
        else
          match EmitOperands(l, f, prog.fns[d.fn].params, a.operands)
          case None => None
          case Some(args) =>
            if |args| == |m.types[d.typeIndex].params| then Some(args + [ICall(d.funcIndex)]) else None
  }

  /** What an instruction leaves on the stack, before it is stored. The address of the global it
      names, if any, has been looked up already. */
  function LowerAction(ieee: Ieee, m: ModuleCtx, prog: Program, l: Layout, f: Function, i: Instr, at: Option<nat>)
    : (code: Option<Code>)
  {
    match i.action
    case Const(k) => LowerConst(ieee, l, i, k)
    case Primitive(op, ops) => LowerPrimitive(l, f, op, ops)
    case GlobalLoad(_) => LowerGlobalLoad(at, i)
    case GlobalStore(_, ops) => LowerGlobalStore(at, l, f, i, ops)
    case Cast(ops, from, to) => LowerCast(l, ops, TypeToVal(from), TypeToVal(to))
    case Dup(ops) => if |ops| == 1 then EmitValue(l, ops[0]) else None
    case Drop(ops) => if |ops| == 1 && EmitValue(l, ops[0]).Some? then Some(EmitValue(l, ops[0]).value + [IDrop])
        else None
    case Print(ops) => LowerPrint(l, f, ops)
    case Flush => Some([])
    case FnRef(t, _) => if t.Some? then Some([I32Const(0)]) else None
    case Call(_, _, _, _, _) => LowerCall(m, prog, l, f, i.action)
    case Unsupported => None
  }

  /** The global an instruction names; a store with a wrong number of operands fails before the lookup. */
  function GlobalName(a: Action): Option<string> {
    match a
    case GlobalLoad(name) => Some(name)
    case GlobalStore(name, ops) => if |ops| == 1 then Some(name) else None
    case _ => None
  }

  function AddressFor(g: GlobalTable, a: Action): (r: (Option<nat>, GlobalTable)) {
    match GlobalName(a)
    case None => (None, g)
    case Some(name) => Address(g, name)
  }

  /** `yw_emit_result_store` */
  function StoreResult(l: Layout, i: Instr): (code: Option<Code>) {
    if i.result.None? || i.result.value >= |l.slots| then Some([])
    else
      match l.slots[i.result.value]
      case InLocal(n) => Some([LocalSet(n)])
      case Void => Some([])
      case Pending => None
  }

  /** `yw_lower_instr` with the address of its global */
  function LowerInstrAt(ieee: Ieee, m: ModuleCtx, prog: Program, l: Layout, f: Function, i: Instr, at: Option<nat>)
    : (code: Option<Code>)
  {
    match LowerAction(ieee, m, prog, l, f, i, at)
    case None => None
    case Some(code) =>
      match StoreResult(l, i)
      case None => None
      case Some(setter) => Some(code + setter)
  }

  function LowerInstrs(ieee: Ieee, m: ModuleCtx, prog: Program, l: Layout, f: Function, instrs: seq<Instr>,
                       g: GlobalTable)
    : (r: (Option<Code>, GlobalTable))
    decreases |instrs|
  {
    if instrs == [] then (Some([]), g)
    else
      var (at, g') := AddressFor(g, instrs[0].action);
      match LowerInstrAt(ieee, m, prog, l, f, instrs[0], at)
      case None => (None, g')
      case Some(code) =>
        var (rest, h) := LowerInstrs(ieee, m, prog, l, f, instrs[1..], g');
        (if rest.None? then None else Some(code + rest.value), h)
  }

  /** `yw_lower_terminator` */
  function LowerTerm(l: Layout, term: Terminator, hasResult: bool): (code: Option<Code>) {
    match term
    case NoTerm => if hasResult then None else Some([])
    case Return(v) =>
      if !hasResult then Some([IReturn])
      else if EmitValue(l, v).None? then None
      else Some(EmitValue(l, v).value + [IReturn])
    case Unreachable => Some([IUnreachable])
    case Branching => None
  }

  /** Blocks are written in order: no supported terminator names another block. */
  function LowerBlocks(ieee: Ieee, m: ModuleCtx, prog: Program, l: Layout, f: Function, blocks: seq<Block>,
                       g: GlobalTable)
    : (r: (Option<Code>, GlobalTable))
    decreases |blocks|
  {
    if blocks == [] then (Some([]), g)
    else
      var (code, g') := LowerInstrs(ieee, m, prog, l, f, blocks[0].instrs, g);
      if code.None? then (None, g')
      else
        match LowerTerm(l, blocks[0].term, ResultType(f).Some?)
        case None => (None, g')
        case Some(term) =>
          var (rest, h) := LowerBlocks(ieee, m, prog, l, f, blocks[1..], g');
          (if rest.None? then None else Some(code.value + term + rest.value), h)
  }

  /** `yw_build_function_body` */
  function LowerFunction(ieee: Ieee, m: ModuleCtx, prog: Program, f: Function,
                         g: GlobalTable): (r: (Option<Body>, GlobalTable)) {
    match LayoutOf(f)
    case None => (None, g)
    case Some(l) =>
      if |l.types| < l.paramCount then (None, g)
      else
        var (code, h) := LowerBlocks(ieee, m, prog, l, f, f.blocks, g);
        if code.None? || (f.blocks == [] && ResultType(f).Some?) then (None, h)
        else (Some(Body(l.types[l.paramCount..], code.value)), h)
  }

  /** `yw_build_code_section` */
  function LowerFunctions(ieee: Ieee, m: ModuleCtx, prog: Program, defs: seq<FuncDef>, g: GlobalTable)
    : (r: (Option<seq<Body>>, GlobalTable))
    decreases |defs|
  {
    if defs == [] then (Some([]), g)
    else if defs[0].fn >= |prog.fns| then (None, g)
    else
      var (body, g') := LowerFunction(ieee, m, prog, prog.fns[defs[0].fn], g);
      if body.None? then (None, g')
      else
        var (rest, h) := LowerFunctions(ieee, m, prog, defs[1..], g');
        (if rest.None? then None else Some([body.value] + rest.value), h)
  }

  /** The exported function: `$top` if there is one, else the first definition. */
  function Entry(m: ModuleCtx, prog: Program): (r: Option<nat>) {
    match LookupName(m, prog, TOP)
    case Some(d) => Some(d.funcIndex)
    case None => if m.defs != [] then Some(m.defs[0].funcIndex) else None
  }

  function ImportsOf(imports: seq<FuncDef>, prog: Program): (r: seq<FuncImport>)
    ensures |r| == |imports|
    ensures forall k :: 0 <= k < |imports| ==> r[k].typeIndex == imports[k].typeIndex
    ensures forall k :: 0 <= k < |imports| && imports[k].fn < |prog.fns| ==> r[k].name == prog.fns[imports[k].fn].name
  {
    seq(|imports|, k requires 0 <= k < |imports| =>
      FuncImport(if imports[k].fn < |prog.fns| then prog.fns[imports[k].fn].name else "<anonymous>",
                 imports[k].typeIndex))
  }

  function TypeIndices(defs: seq<FuncDef>): (r: seq<nat>)
    ensures |r| == |defs|
  {
    seq(|defs|, k requires 0 <= k < |defs| => defs[k].typeIndex)
  }

  const BUILTIN_IMPORTS: seq<FuncImport> :=
    [FuncImport("ylc_print_int", 0), FuncImport("ylc_print_string", 0), FuncImport("ylc_abort", 1)]

  /** The module of a context and its bodies. */
  function ModuleOf(m: ModuleCtx, prog: Program, entry: nat, bodies: seq<Body>): Module {
    Module(m.types, BUILTIN_IMPORTS + ImportsOf(m.imports, prog), TypeIndices(m.defs), entry, bodies)
  }

  /** `ylc_lower_mir_to_wasm` up to the bytes */
  function LowerProgram(ieee: Ieee, prog: Program, g: GlobalTable): (r: (Option<Module>, GlobalTable))
    requires ProgramOk(prog)
  {
    match BuildCtx(prog)
    case None => (None, g)
    case Some(m) =>
      match Entry(m, prog)
      case None => (None, g)
      case Some(entry) =>
        var (bodies, h) := LowerFunctions(ieee, m, prog, m.defs, g);
        (if bodies.None? then None else Some(ModuleOf(m, prog, entry, bodies.value)), h)
  }
}
