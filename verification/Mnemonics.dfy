/** The keywords that docs/web/wasm.js shows for opcodes and types, against the names that the WebAssembly Core
    Specification 1.0 gives them (section 6.5). A keyword is kept as what stands before and behind its dot. */
module Mnemonics {
  import opened Wrappers
  import opened Bits
  import opened Mir
  import opened Wasm
  import opened ModuleBytes
  import opened ByteRoundTrip

  datatype Keyword = Keyword(before: string, behind: string)

  /** `ylcValType` */
  function TypeShown(b: byte): (name: Option<string>) {
    match b
    case 0x7f => Some("i32")
    case 0x7e => Some("i64")
    case 0x7d => Some("f32")
    case 0x7c => Some("f64")
    case 0x70 => Some("funcref")
    case 0x6f => Some("externref")
    case 0x40 => Some("")
    case _ => None
  }

  /** `YLC_MEMORY_WASM_OPS` */
  function MemoryShown(b: byte): (keyword: Option<Keyword>) {
    match b
    case 0x28 => Some(Keyword("i32", "load"))
    case 0x29 => Some(Keyword("i64", "load"))
    case 0x2a => Some(Keyword("f32", "load"))
    case 0x2b => Some(Keyword("f64", "load"))
    case 0x36 => Some(Keyword("i32", "store"))
    case 0x37 => Some(Keyword("i64", "store"))
    case 0x38 => Some(Keyword("f32", "store"))
    case 0x39 => Some(Keyword("f64", "store"))
    case _ => None
  }

  /** The comparisons and arithmetic of `YLC_SIMPLE_WASM_OPS`. */
  function NumericShown(b: byte): (keyword: Option<Keyword>) {
    match b
    case 0x45 => Some(Keyword("i32", "eqz"))
    case 0x46 => Some(Keyword("i32", "eq"))
    case 0x47 => Some(Keyword("i32", "ne"))
    case 0x48 => Some(Keyword("i32", "lt_s"))
    case 0x49 => Some(Keyword("i32", "lt_u"))
    case 0x4a => Some(Keyword("i32", "gt_s"))
    case 0x4b => Some(Keyword("i32", "gt_u"))
    case 0x4c => Some(Keyword("i32", "le_s"))
    case 0x4d => Some(Keyword("i32", "le_u"))
    case 0x4e => Some(Keyword("i32", "ge_s"))
    case 0x4f => Some(Keyword("i32", "ge_u"))
    case 0x50 => Some(Keyword("i64", "eqz"))
    case 0x51 => Some(Keyword("i64", "eq"))
    case 0x52 => Some(Keyword("i64", "ne"))
    case 0x53 => Some(Keyword("i64", "lt_s"))
    case 0x54 => Some(Keyword("i64", "lt_u"))
    case 0x55 => Some(Keyword("i64", "gt_s"))
    case 0x56 => Some(Keyword("i64", "gt_u"))
    case 0x57 => Some(Keyword("i64", "le_s"))
    case 0x58 => Some(Keyword("i64", "le_u"))
    case 0x59 => Some(Keyword("i64", "ge_s"))
    case 0x5a => Some(Keyword("i64", "ge_u"))
    case 0x5b => Some(Keyword("f32", "eq"))
    case 0x5c => Some(Keyword("f32", "ne"))
    case 0x5d => Some(Keyword("f32", "lt"))
    case 0x5e => Some(Keyword("f32", "gt"))
    case 0x5f => Some(Keyword("f32", "le"))
    case 0x60 => Some(Keyword("f32", "ge"))
    case 0x61 => Some(Keyword("f64", "eq"))
    case 0x62 => Some(Keyword("f64", "ne"))
    case 0x63 => Some(Keyword("f64", "lt"))
    case 0x64 => Some(Keyword("f64", "gt"))
    case 0x65 => Some(Keyword("f64", "le"))
    case 0x66 => Some(Keyword("f64", "ge"))
    case 0x6a => Some(Keyword("i32", "add"))
    case 0x6b => Some(Keyword("i32", "sub"))
    case 0x6c => Some(Keyword("i32", "mul"))
    case 0x6d => Some(Keyword("i32", "div_s"))
    case 0x6e => Some(Keyword("i32", "div_u"))
    case 0x6f => Some(Keyword("i32", "rem_s"))
    case 0x70 => Some(Keyword("i32", "rem_u"))
    case 0x7c => Some(Keyword("i64", "add"))
    case 0x7d => Some(Keyword("i64", "sub"))
    case 0x7e => Some(Keyword("i64", "mul"))
    case 0x7f => Some(Keyword("i64", "div_s"))
    case 0x80 => Some(Keyword("i64", "div_u"))
    case 0x81 => Some(Keyword("i64", "rem_s"))
    case 0x82 => Some(Keyword("i64", "rem_u"))
    case 0x92 => Some(Keyword("f32", "add"))
    case 0x93 => Some(Keyword("f32", "sub"))
    case 0x94 => Some(Keyword("f32", "mul"))
    case 0x95 => Some(Keyword("f32", "div"))
    case 0xa0 => Some(Keyword("f64", "add"))
    case 0xa1 => Some(Keyword("f64", "sub"))
    case 0xa2 => Some(Keyword("f64", "mul"))
    case 0xa3 => Some(Keyword("f64", "div"))
    case 0xa7 => Some(Keyword("i32", "wrap_i64"))
    case 0xaa => Some(Keyword("i32", "trunc_f64_s"))
    case 0xac => Some(Keyword("i64", "extend_i32_s"))
    case 0xae => Some(Keyword("i64", "trunc_f64_s"))
    case 0xb7 => Some(Keyword("f64", "convert_i32_s"))
    case 0xb9 => Some(Keyword("f64", "convert_i64_s"))
    case _ => None
  }

  /** The keyword of a line, where it is one with a type. */
  function LineShown(l: Line): (keyword: Option<Keyword>) {
    match l
    case LMemory(opcode, _, _) => MemoryShown(opcode)
    case LI32(_) => Some(Keyword("i32", "const"))
    case LI64(_) => Some(Keyword("i64", "const"))
    case LF32(_) => Some(Keyword("f32", "const"))
    case LF64(_) => Some(Keyword("f64", "const"))
    case LLocal(opcode, _) => LocalShown(opcode)
    case LSimple(opcode) => NumericShown(opcode)
    case _ => None
  }

  function LocalShown(b: byte): (keyword: Option<Keyword>) {
    match b
    case 0x20 => Some(Keyword("local", "get"))
    case 0x21 => Some(Keyword("local", "set"))
    case 0x22 => Some(Keyword("local", "tee"))
    case 0x23 => Some(Keyword("global", "get"))
    case 0x24 => Some(Keyword("global", "set"))
    case _ => None
  }

  // ---- The names of the specification -------------------------------------------------------------

  function TypeName(c: ValType): string {
    match c
    case I32 => "i32"
    case I64 => "i64"
    case F32 => "f32"
    case F64 => "f64"
  }

  function OperationName(op: IntOp): string {
    match op
    case AddOp => "add"
    case SubOp => "sub"
    case MulOp => "mul"
    case DivS => "div_s"
    case DivU => "div_u"
    case RemS => "rem_s"
    case RemU => "rem_u"
  }

  function RelationName(rel: IntRel): string {
    match rel
    case EqRel => "eq"
    case LtS => "lt_s"
    case LtU => "lt_u"
    case GtS => "gt_s"
    case GtU => "gt_u"
    case LeS => "le_s"
    case LeU => "le_u"
    case GeS => "ge_s"
    case GeU => "ge_u"
  }

  function ArithName(op: FloatArith): string {
    match op
    case FAddOp => "add"
    case FSubOp => "sub"
    case FMulOp => "mul"
    case FDivOp => "div"
  }

  function OrderName(op: FloatOrder): string {
    match op
    case FEqOp => "eq"
    case FGtOp => "gt"
    case FGeOp => "ge"
    case FLtOp => "lt"
    case FLeOp => "le"
  }

  function OperatorName(op: Operator): (keyword: Keyword) {
    match op
    case IntBinary(c, iop) => Keyword(TypeName(c), OperationName(iop))
    case IntCompare(c, rel) => Keyword(TypeName(c), RelationName(rel))
    case EqZero(c) => Keyword(TypeName(c), "eqz")
    case FloatBinary(fop) => Keyword("f64", ArithName(fop))
    case FloatCompare(frel) => Keyword("f64", OrderName(frel))
    case Wrap64 => Keyword("i32", "wrap_i64")
    case Extend32S => Keyword("i64", "extend_i32_s")
    case Convert32S => Keyword("f64", "convert_i32_s")
    case Convert64S => Keyword("f64", "convert_i64_s")
    case Trunc32S => Keyword("i32", "trunc_f64_s")
    case Trunc64S => Keyword("i64", "trunc_f64_s")
    case Trunc64SingleS => Keyword("i64", "trunc_f32_s")
  }

  /** The name of an instruction, where it is one with a type. */
  function InstructionName(i: Instruction): (keyword: Option<Keyword>) {
    match i
    case ILoad(c, _, _) => Some(Keyword(TypeName(c), "load"))
    case IStore(c, _, _) => Some(Keyword(TypeName(c), "store"))
    case I32Const(_) => Some(Keyword("i32", "const"))
    case I64Const(_) => Some(Keyword("i64", "const"))
    case F32Const(_) => Some(Keyword("f32", "const"))
    case F64Const(_) => Some(Keyword("f64", "const"))
    case LocalGet(_) => Some(Keyword("local", "get"))
    case LocalSet(_) => Some(Keyword("local", "set"))
    case Numeric(opcode) => if Decode(opcode).Some? then Some(OperatorName(Decode(opcode).value)) else None
    case _ => None
  }

  // ---- What is shown is what is meant --------------------------------------------------------------

  /** The byte of each value type is shown as the type. */
  lemma TypesShown(c: ValType)
    ensures TypeShown(TypeCode(c)) == Some(TypeName(c))
  {
  }

  /** The decoder takes for memory and for plain instructions exactly the opcodes that have a keyword. */
  lemma TablesAgree(b: byte)
    ensures IsMemoryOp(b) <==> MemoryShown(b).Some?
    ensures IsSimple(b) <==> NumericShown(b).Some? || b in {0x00, 0x01, 0x0f, 0x1a}
  {
  }

  lemma TruncationShown()
    ensures Keyword("i64", "trunc_f64_s") != Keyword("i64", "trunc_f32_s")
  {
    assert "trunc_f64_s"[7] != "trunc_f32_s"[7];
  }

  lemma IntegersShown(b: byte)
    requires Decode(b).Some? && b < 0x5b
    ensures NumericShown(b) == Some(OperatorName(Decode(b).value))
  {
  }

  lemma ArithmeticShown(b: byte)
    requires Decode(b).Some? && 0x5b <= b < 0xa4
    ensures NumericShown(b) == Some(OperatorName(Decode(b).value))
  {
  }

  lemma ConversionsShown(b: byte)
    requires Decode(b).Some? && 0xa4 <= b
    ensures NumericShown(b) == Some(OperatorName(Decode(b).value)) <==> b != 0xae && b != 0xb0
  {
    TruncationShown();
  }

  /** Every instruction of an emitted body is shown under its own name, but for the truncation 0xae, shown as that of a
      64-bit float. */
  lemma NamesShown(i: Instruction)
    requires i.Numeric? ==> Decode(i.opcode).Some? && i.opcode != 0xb0
    ensures LineShown(LineOf(i)) == InstructionName(i) <==> i != Numeric(0xae)
  {
    hide NumericShown;
    hide OperatorName;
    hide Decode;
    match i
    case Numeric(opcode) =>
      if opcode < 0x5b {
        IntegersShown(opcode);
      } else if opcode < 0xa4 {
        ArithmeticShown(opcode);
      } else {
        ConversionsShown(opcode);
      }
    case _ => PlainShown(i);
  }

  lemma PlainShown(i: Instruction)
    requires !i.Numeric?
    ensures LineShown(LineOf(i)) == InstructionName(i)
  {
  }
}
