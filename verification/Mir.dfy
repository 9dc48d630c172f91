/** The mid-level representation handed to the WebAssembly backend, and what a program in it means. */
module Mir {
  import opened Wrappers
  import opened Bits
  import opened Leb128

  // ---- Types -------------------------------------------------------------------

  datatype Kind =
    | KInt | KBool | KChar | KUint64 | KNum | KString | KEmptyList
    | KFn(from: Type, to: Type)
    | KCons(args: seq<Type>)
    | KSum(args: seq<Type>)
    | KVoid | KModule | KVar | KOther

  datatype Type = Type(kind: Kind, alias: string, closure: Option<Type>)

  /** Types of WebAssembly values. */
  datatype ValType = I32 | I64 | F32 | F64

  /** `yw_type_to_val`, which `yw_type_has_value` only guards: void and modules have no value anyway. */
  function TypeToVal(t: Type): (v: Option<ValType>) {
    match t.kind
    case KInt | KBool | KChar => Some(I32)
    case KUint64 => Some(I64)
    case KNum => Some(F64)
    case KFn(_, _) | KCons(_) | KSum(_) | KString | KEmptyList => Some(I32)
    case KVoid | KModule | KVar | KOther => None
  }

  /** `yw_type_is_string` */
  predicate IsString(t: Type) {
    t.kind == KString || t.alias == "String"
  }

  // ---- Programs ----------------------------------------------------------------

  type ValueId = nat
  type FnId = nat

  datatype PrimOp =
    | IEQ | UEQ | FEQ | CEQ | BEQ
    | IGT | UGT | FGT | CGT
    | IGTE | UGTE | FGTE | CGTE
    | ILT | ULT | FLT | CLT
    | ILTE | ULTE | FLTE | CLTE
    | LNOT
    | IADD | UADD | FADD
    | ISUB | USUB | FSUB
    | IMUL | UMUL | FMUL
    | IDIV | UDIV | FDIV
    | IMOD | UMOD | FMOD

  /** Constants; floats are kept as their bits. */
  datatype Constant =
    | CInt(int32: s32)
    | CUint64(uint64: u64)
    | CFloat(bits32: u32)
    | CDouble(bits64: u64)
    | CBool(bool1: bool)
    | CChar(int8: s8)
    | CVoid
    | CUndef
    | CString

  type s8 = x: int | -128 <= x < 128

  datatype Action =
    | Const(k: Constant)
    | Primitive(op: PrimOp, operands: seq<ValueId>)
    | GlobalLoad(name: string)
    | GlobalStore(name: string, operands: seq<ValueId>)
    | Cast(operands: seq<ValueId>, from: Type, to: Type)
    | Dup(operands: seq<ValueId>)
    | Drop(operands: seq<ValueId>)
    | Print(operands: seq<ValueId>)
    | Flush
    | FnRef(fn: Option<FnId>, fnName: string)
    | Call(builtin: bool, specialized: Option<FnId>, specializedName: Option<string>,
           callee: Option<ValueId>, operands: seq<ValueId>)
    | Unsupported

  /** An instruction: what it does, the value it defines if any, and its type. */
  datatype Instr = Instr(action: Action, result: Option<ValueId>, ty: Type)

  /** Terminators; `Branching` stands for every one that names a successor block or a coroutine. */
  datatype Terminator = NoTerm | Return(value: ValueId) | Unreachable | Branching

  datatype Block = Block(instrs: seq<Instr>, term: Terminator)

  datatype Param = Param(value: ValueId, name: string, ty: Type)

  datatype Function = Function(name: string, ty: Type, isExtern: bool, params: seq<Param>,
                               blocks: seq<Block>, valueTypes: seq<Type>)

  /** All function objects, and those listed by the program, in order. */
  datatype Program = Program(fns: seq<Function>, listed: seq<FnId>)

  /** `yw_param_is_env` */
  predicate IsEnv(p: Param) {
    p.name == "$env"
  }

  /** The type a parameter has as a WebAssembly parameter (`yw_param_is_lowered`). */
  function LoweredParam(p: Param): (v: Option<ValType>) {
    if p.ty.kind != KVoid && !IsEnv(p) then TypeToVal(p.ty) else None
  }

  /** All instructions of the blocks, in order. */
  function InstrsOf(blocks: seq<Block>): (instrs: seq<Instr>) {
    if blocks == [] then [] else blocks[0].instrs + InstrsOf(blocks[1..])
  }

  /** `mir_function_find_def_instr`: the first instruction that defines a value. */
  function FindDef(instrs: seq<Instr>, v: ValueId): (i: Option<Instr>) {
    if instrs == [] then None
    else if instrs[0].result == Some(v) then Some(instrs[0])
    else FindDef(instrs[1..], v)
  }

  /** The function a call means: the specialised one, or the one its callee value refers to
      (`yw_instr_direct_call_target`). */
  function DirectTarget(f: Function, a: Action): (target: Option<FnId>)
    requires a.Call?
  {
    if a.builtin then None
    else if a.specialized.Some? then a.specialized
    else if a.callee.None? then None
    else
      match FindDef(InstrsOf(f.blocks), a.callee.value)
      case Some(Instr(FnRef(target, _), _, _)) => target
      case _ => None
  }

  /** `yw_function_return_type`, walking the parameters from `i` with `ty` the type left over. */
  function ReturnTypeFrom(f: Function, i: nat, ty: Type, hasEnv: bool): (r: Type)
    requires i <= |f.params|
    decreases |f.params| - i
  {
    if ty.kind.KFn? && i < |f.params| then
      var p := f.params[i];
      if IsEnv(p) && ty.kind.from != p.ty then ReturnTypeFrom(f, i + 1, ty, true)
      else ReturnTypeFrom(f, i + 1, ty.kind.to, hasEnv || IsEnv(p))
    else if ty.kind.KFn? && ty.kind.from.kind == KVoid && (hasEnv || ty.closure.None?) then ty.kind.to
    else ty
  }

  function ReturnType(f: Function): Type {
    ReturnTypeFrom(f, 0, f.ty, false)
  }

  /** The WebAssembly result of a function (`yw_function_result_type`). */
  function ResultType(f: Function): Option<ValType> {
    TypeToVal(ReturnType(f))
  }

  // ---- Values ------------------------------------------------------------------

  /** Values: a signed 32-bit word for `Int`, `Bool`, `Char` and references, an unsigned 64-bit number
      for `Uint64`, and the bits of floats. */
  datatype Value = Word(i: s32) | Long(u: u64) | Single(bits32: u32) | Double(bits64: u64)

  function ClassOf(v: Value): ValType {
    match v
    case Word(_) => I32
    case Long(_) => I64
    case Single(_) => F32
    case Double(_) => F64
  }

  function Signed64(x: u64): (r: s64)
    ensures r % 0x1_0000_0000_0000_0000 == x
  {
    if x < 0x8000_0000_0000_0000 then x else x - 0x1_0000_0000_0000_0000
  }

  /** The signed and the unsigned reading of an integer value. */
  function Sgn(v: Value): int
    requires v.Word? || v.Long?
  {
    if v.Word? then v.i else Signed64(v.u)
  }

  function Uns(v: Value): nat
    requires v.Word? || v.Long?
  {
    if v.Word? then v.i % 0x1_0000_0000 else v.u
  }

  /** The integer value of a class that an integer wraps to. */
  function Wrap(c: ValType, n: int): Value
    requires c == I32 || c == I64
  {
    if c == I32 then Word(Signed32(n % 0x1_0000_0000)) else Long(n % 0x1_0000_0000_0000_0000)
  }

  function Truth(b: bool): Value {
    Word(if b then 1 else 0)
  }

  /** Division and remainder toward zero, as C and WebAssembly have them. */
  function TruncDiv(a: int, b: int): int
    requires b != 0
  {
    var q := (if a < 0 then -a else a) / (if b < 0 then -b else b);
    if (a < 0) == (b < 0) then q else -q
  }

  function TruncRem(a: int, b: int): int
    requires b != 0
  {
    a - b * TruncDiv(a, b)
  }

  /** IEEE arithmetic, left open: any functions on the bits of floats. */
  datatype FloatArith = FAddOp | FSubOp | FMulOp | FDivOp
  datatype FloatOrder = FEqOp | FGtOp | FGeOp | FLtOp | FLeOp
  datatype Ieee = Ieee(arith: (FloatArith, u64, u64) -> u64,
                       order: (FloatOrder, u64, u64) -> bool,
                       fromS32: s32 -> u64,
                       fromS64: s64 -> u64,
                       toS32: u64 -> Option<s32>,
                       toS64: u64 -> Option<s64>,
                       promote: u32 -> u64)

  // ---- Meaning of operators ------------------------------------------------------

  /** Operand and result class of a binary operator; `None` where the operator does not apply. */
  function OpResult(op: PrimOp, c: ValType): (r: Option<ValType>) {
    match op
    case IADD | UADD | ISUB | USUB | IMUL | UMUL | IDIV | UDIV | IMOD | UMOD =>
      if c == I32 || c == I64 then Some(c) else None
    case IEQ | UEQ | CEQ | BEQ | IGT | UGT | CGT | IGTE | UGTE | CGTE | ILT | ULT | CLT | ILTE | ULTE | CLTE =>
      if c == I32 || c == I64 then Some(I32) else None
    case FADD | FSUB | FMUL | FDIV => if c == F64 then Some(F64) else None
    case FEQ | FGT | FGTE | FLT | FLTE => if c == F64 then Some(I32) else None
    case LNOT | FMOD => None
  }

  /** What a binary operator computes; `None` stops the program. */
  function EvalOp(ieee: Ieee, op: PrimOp, a: Value, b: Value): (r: Option<Value>)
    requires ClassOf(a) == ClassOf(b) && OpResult(op, ClassOf(a)).Some?
  {
    var c := ClassOf(a);
    match op
    case IADD => Some(Wrap(c, Sgn(a) + Sgn(b)))
    case UADD => Some(Wrap(c, Uns(a) + Uns(b)))
    case ISUB => Some(Wrap(c, Sgn(a) - Sgn(b)))
    case USUB => Some(Wrap(c, Uns(a) - Uns(b)))
    case IMUL => Some(Wrap(c, Sgn(a) * Sgn(b)))
    case UMUL => Some(Wrap(c, Uns(a) * Uns(b)))
    case IDIV =>
      if Sgn(b) == 0 || (Sgn(b) == -1 && Sgn(a) == (if c == I32 then -0x8000_0000 else -0x8000_0000_0000_0000))
      then None else Some(Wrap(c, TruncDiv(Sgn(a), Sgn(b))))
    case UDIV => if Uns(b) == 0 then None else Some(Wrap(c, Uns(a) / Uns(b)))
    case IMOD => if Sgn(b) == 0 then None else Some(Wrap(c, TruncRem(Sgn(a), Sgn(b))))
    case UMOD => if Uns(b) == 0 then None else Some(Wrap(c, Uns(a) % Uns(b)))
    case IEQ | CEQ | BEQ => Some(Truth(Sgn(a) == Sgn(b)))
    case UEQ => Some(Truth(Uns(a) == Uns(b)))
    case IGT | CGT => Some(Truth(Sgn(a) > Sgn(b)))
    case UGT => Some(Truth(Uns(a) > Uns(b)))
    case IGTE | CGTE => Some(Truth(Sgn(a) >= Sgn(b)))
    case UGTE => Some(Truth(Uns(a) >= Uns(b)))
    case ILT | CLT => Some(Truth(Sgn(a) < Sgn(b)))
    case ULT => Some(Truth(Uns(a) < Uns(b)))
    case ILTE | CLTE => Some(Truth(Sgn(a) <= Sgn(b)))
    case ULTE => Some(Truth(Uns(a) <= Uns(b)))
    case FADD => Some(Double(ieee.arith(FAddOp, a.bits64, b.bits64)))
    case FSUB => Some(Double(ieee.arith(FSubOp, a.bits64, b.bits64)))
    case FMUL => Some(Double(ieee.arith(FMulOp, a.bits64, b.bits64)))
    case FDIV => Some(Double(ieee.arith(FDivOp, a.bits64, b.bits64)))
    case FEQ => Some(Truth(ieee.order(FEqOp, a.bits64, b.bits64)))
    case FGT => Some(Truth(ieee.order(FGtOp, a.bits64, b.bits64)))
    case FGTE => Some(Truth(ieee.order(FGeOp, a.bits64, b.bits64)))
    case FLT => Some(Truth(ieee.order(FLtOp, a.bits64, b.bits64)))
    case FLTE => Some(Truth(ieee.order(FLeOp, a.bits64, b.bits64)))
  }

  /** The value of a constant at a class; `None` where the constant does not fit the class. */
  function EvalConst(ieee: Ieee, k: Constant, c: ValType): (r: Option<Value>) {
    match k
    case CInt(i) => if c == I32 then Some(Word(i)) else None
    case CUint64(u) => if c == I64 then Some(Long(u)) else if c == I32 then Some(Wrap(I32, u)) else None
    case CFloat(b) => if c == F64 then Some(Double(ieee.promote(b))) else None
    case CDouble(b) => if c == F64 then Some(Double(b)) else None
    case CBool(b) => if c == I32 then Some(Truth(b)) else None
    case CChar(ch) => if c == I32 then Some(Word(ch)) else None
    case CVoid | CUndef | CString => None
  }

  /** The class a value of class `from` has after a cast; `None` for casts the backend does not know. */
  function CastResult(from: Option<ValType>, to: Option<ValType>, c: ValType): (r: Option<ValType>) {
    if from.None? || to.None? || from == to then Some(c)
    else if from != Some(c) then None
    else match (from.value, to.value)
      case (I64, I32) | (I32, I64) | (I32, F64) | (I64, F64) | (F64, I32) | (F64, I64) => to
      case _ => None
  }

  /** What a cast computes: 64-bit numbers are read as signed. `None` stops the program. */
  function EvalCast(ieee: Ieee, from: Option<ValType>, to: Option<ValType>, v: Value): (r: Option<Value>)
    requires CastResult(from, to, ClassOf(v)).Some?
  {
    if from.None? || to.None? || from == to then Some(v)
    else match (from.value, to.value)
      case (I64, I32) => Some(Wrap(I32, v.u))
      case (I32, I64) => Some(Wrap(I64, v.i))
      case (I32, F64) => Some(Double(ieee.fromS32(v.i)))
      case (I64, F64) => Some(Double(ieee.fromS64(Signed64(v.u))))
      case (F64, I32) => (match ieee.toS32(v.bits64) case None => None case Some(n) => Some(Word(n)))
      case (F64, I64) => (match ieee.toS64(v.bits64) case None => None case Some(n) => Some(Wrap(I64, n)))
      case _ => Some(v)
  }
}
