/** WebAssembly modules as the backend emits them: syntax, execution and validation, after
    the WebAssembly Core Specification 1.0, for code without blocks.

    Numeric instructions are kept as their opcodes; the tables here are those of the specification. */
module Wasm {
  import opened Wrappers
  import opened Bits
  import opened Leb128
  import opened Mir
  import opened MirEval

  datatype Instruction =
    | IUnreachable
    | IReturn
    | ICall(func: nat)
    | IDrop
    | LocalGet(local: nat)
    | LocalSet(local: nat)
    | ILoad(c: ValType, align: nat, offset: u32)
    | IStore(c: ValType, align: nat, offset: u32)
    | I32Const(i: s32)
    | I64Const(l: s64)
    | F32Const(bits32: u32)
    | F64Const(bits64: u64)
    | Numeric(opcode: byte)

  type Code = seq<Instruction>

  datatype FuncType = FuncType(params: seq<ValType>, result: Option<ValType>)

  datatype FuncImport = FuncImport(name: string, typeIndex: nat)

  /** A body: the types of the locals after the parameters, and the code before the final `end`. */
  datatype Body = Body(locals: seq<ValType>, code: Code)

  /** The function index space is the imports followed by the defined functions (section 2.5.1). */
  datatype Module = Module(types: seq<FuncType>, imports: seq<FuncImport>,
                           funcs: seq<nat>, entry: nat, bodies: seq<Body>)

  /** The type of a function index. */
  function TypeOfFunc(m: Module, i: nat): (t: Option<FuncType>) {
    if i < |m.imports| then
      (if m.imports[i].typeIndex < |m.types| then Some(m.types[m.imports[i].typeIndex]) else None)
    else if i - |m.imports| < |m.funcs| && m.funcs[i - |m.imports|] < |m.types| then
      Some(m.types[m.funcs[i - |m.imports|]])
    else None
  }

  // ---- Numeric instructions (sections 4.3 and 5.4.5) -------------------------------

  datatype WVal = WI32(x: u32) | WI64(y: u64) | WF32(f: u32) | WF64(d: u64)

  function TypeOf(v: WVal): ValType {
    match v
    case WI32(_) => I32
    case WI64(_) => I64
    case WF32(_) => F32
    case WF64(_) => F64
  }

  datatype IntOp = AddOp | SubOp | MulOp | DivS | DivU | RemS | RemU
  datatype IntRel = EqRel | LtS | LtU | GtS | GtU | LeS | LeU | GeS | GeU

  datatype Operator =
    | IntBinary(c: ValType, iop: IntOp)
    | IntCompare(c: ValType, rel: IntRel)
    | EqZero(c: ValType)
    | FloatBinary(fop: FloatArith)
    | FloatCompare(frel: FloatOrder)
    | Wrap64 | Extend32S | Convert32S | Convert64S | Trunc32S | Trunc64S | Trunc64SingleS

  /** The instructions named by the opcodes that operate on integers and 64-bit floats, and the one that truncates
      a 32-bit float to a 64-bit integer. */
  function Decode(opcode: byte): (op: Option<Operator>) {
    match opcode
    case 0x45 => Some(EqZero(I32))
    case 0x46 => Some(IntCompare(I32, EqRel))
    case 0x48 => Some(IntCompare(I32, LtS))
    case 0x49 => Some(IntCompare(I32, LtU))
    case 0x4a => Some(IntCompare(I32, GtS))
    case 0x4b => Some(IntCompare(I32, GtU))
    case 0x4c => Some(IntCompare(I32, LeS))
    case 0x4d => Some(IntCompare(I32, LeU))
    case 0x4e => Some(IntCompare(I32, GeS))
    case 0x4f => Some(IntCompare(I32, GeU))
    case 0x50 => Some(EqZero(I64))
    case 0x51 => Some(IntCompare(I64, EqRel))
    case 0x53 => Some(IntCompare(I64, LtS))
    case 0x54 => Some(IntCompare(I64, LtU))
    case 0x55 => Some(IntCompare(I64, GtS))
    case 0x56 => Some(IntCompare(I64, GtU))
    case 0x57 => Some(IntCompare(I64, LeS))
    case 0x58 => Some(IntCompare(I64, LeU))
    case 0x59 => Some(IntCompare(I64, GeS))
    case 0x5a => Some(IntCompare(I64, GeU))
    case 0x61 => Some(FloatCompare(FEqOp))
    case 0x63 => Some(FloatCompare(FLtOp))
    case 0x64 => Some(FloatCompare(FGtOp))
    case 0x65 => Some(FloatCompare(FLeOp))
    case 0x66 => Some(FloatCompare(FGeOp))
    case 0x6a => Some(IntBinary(I32, AddOp))
    case 0x6b => Some(IntBinary(I32, SubOp))
    case 0x6c => Some(IntBinary(I32, MulOp))
    case 0x6d => Some(IntBinary(I32, DivS))
    case 0x6e => Some(IntBinary(I32, DivU))
    case 0x6f => Some(IntBinary(I32, RemS))
    case 0x70 => Some(IntBinary(I32, RemU))
    case 0x7c => Some(IntBinary(I64, AddOp))
    case 0x7d => Some(IntBinary(I64, SubOp))
    case 0x7e => Some(IntBinary(I64, MulOp))
    case 0x7f => Some(IntBinary(I64, DivS))
    case 0x80 => Some(IntBinary(I64, DivU))
    case 0x81 => Some(IntBinary(I64, RemS))
    case 0x82 => Some(IntBinary(I64, RemU))
    case 0xa0 => Some(FloatBinary(FAddOp))
    case 0xa1 => Some(FloatBinary(FSubOp))
    case 0xa2 => Some(FloatBinary(FMulOp))
    case 0xa3 => Some(FloatBinary(FDivOp))
    case 0xa7 => Some(Wrap64)
    case 0xaa => Some(Trunc32S)
    case 0xac => Some(Extend32S)
    case 0xae => Some(Trunc64SingleS)
    case 0xb0 => Some(Trunc64S)
    case 0xb7 => Some(Convert32S)
    case 0xb9 => Some(Convert64S)
    case _ => None
  }

  function Operands(op: Operator): (ts: seq<ValType>) {
    match op
    case IntBinary(c, _) => [c, c]
    case IntCompare(c, _) => [c, c]
    case EqZero(c) => [c]
    case FloatBinary(_) => [F64, F64]
    case FloatCompare(_) => [F64, F64]
    case Wrap64 => [I64]
    case Extend32S => [I32]
    case Convert32S => [I32]
    case Convert64S => [I64]
    case Trunc32S => [F64]
    case Trunc64S => [F64]
    case Trunc64SingleS => [F32]
  }

  function ResultOf(op: Operator): ValType {
    match op
    case IntBinary(c, _) => c
    case IntCompare(_, _) | EqZero(_) | FloatCompare(_) | Wrap64 | Trunc32S => I32
    case FloatBinary(_) | Convert32S | Convert64S => F64
    case Extend32S | Trunc64S | Trunc64SingleS => I64
  }

  /** 2^N for the integers of a class. */
  function Modulus(c: ValType): nat {
    if c == I32 then 0x1_0000_0000 else 0x1_0000_0000_0000_0000
  }

  /** `signed_N`: the two's-complement reading. */
  function SignedN(c: ValType, x: nat): (r: int)
    ensures x < Modulus(c) ==> (r == 0 <==> x == 0)
  {
    if 2 * x < Modulus(c) then x else x - Modulus(c)
  }

  /** The number below 2^N that an integer is congruent to. */
  function Reduce(c: ValType, n: int): (r: nat)
    ensures r < Modulus(c)
  {
    n % Modulus(c)
  }

  /** `idiv_s` and `irem_s` on the signed readings. */
  function DivSigned(c: ValType, x: int, y: int): Option<nat> {
    if y == 0 then None
    else
      var q := TruncDiv(x, y);
      if 2 * q == Modulus(c) then None else Some(Reduce(c, q))
  }

  function RemSigned(c: ValType, x: int, y: int): Option<nat> {
    if y == 0 then None else Some(Reduce(c, TruncRem(x, y)))
  }

  /** Integer operators on numbers below 2^N (section 4.3.2); `None` is a trap. */
  function IntBinaryOp(c: ValType, op: IntOp, x: nat, y: nat): (r: Option<nat>) {
    match op
    case AddOp => Some(Reduce(c, x + y))
    case SubOp => Some(Reduce(c, x - y + Modulus(c)))
    case MulOp => Some(Reduce(c, x * y))
    case DivU => if y == 0 then None else Some(x / y)
    case RemU => if y == 0 then None else Some(x % y)
    case DivS => DivSigned(c, SignedN(c, x), SignedN(c, y))
    case RemS => RemSigned(c, SignedN(c, x), SignedN(c, y))
  }

  predicate IntRelOp(c: ValType, rel: IntRel, x: nat, y: nat) {
    match rel
    case EqRel => x == y
    case LtS => SignedN(c, x) < SignedN(c, y)
    case LtU => x < y
    case GtS => SignedN(c, x) > SignedN(c, y)
    case GtU => x > y
    case LeS => SignedN(c, x) <= SignedN(c, y)
    case LeU => x <= y
    case GeS => SignedN(c, x) >= SignedN(c, y)
    case GeU => x >= y
  }

  function IntOf(c: ValType, n: nat): WVal
    requires n < Modulus(c)
  {
    if c == I32 then WI32(n) else WI64(n)
  }

  function NatOf(v: WVal): (n: nat)
    requires v.WI32? || v.WI64?
    ensures n < Modulus(TypeOf(v))
  {
    if v.WI32? then v.x else v.y
  }

  datatype NumResult = Computed(v: WVal) | Trapped | IllTyped

  /** A numeric instruction on its operands, in stack order. */
  function Compute(ieee: Ieee, op: Operator, args: seq<WVal>): (r: NumResult) {
    if |args| != |Operands(op)| || exists k :: 0 <= k < |args| && TypeOf(args[k]) != Operands(op)[k] then IllTyped
    else
      match op
      case IntBinary(c, iop) =>
        if c != I32 && c != I64 then IllTyped
        else (match IntBinaryOp(c, iop, NatOf(args[0]), NatOf(args[1]))
              case None => Trapped
              case Some(n) => if n < Modulus(c) then Computed(IntOf(c, n)) else IllTyped)
      case IntCompare(c, rel) =>
        if c != I32 && c != I64 then IllTyped
        else Computed(WI32(if IntRelOp(c, rel, NatOf(args[0]), NatOf(args[1])) then 1 else 0))
      case EqZero(c) =>
        if c != I32 && c != I64 then IllTyped else Computed(WI32(if NatOf(args[0]) == 0 then 1 else 0))
      case FloatBinary(f) => Computed(WF64(ieee.arith(f, args[0].d, args[1].d)))
      case FloatCompare(f) => Computed(WI32(if ieee.order(f, args[0].d, args[1].d) then 1 else 0))
      case Wrap64 => Computed(WI32(args[0].y % 0x1_0000_0000))
      case Extend32S => Computed(WI64(SignedN(I32, args[0].x) % 0x1_0000_0000_0000_0000))
      case Convert32S => Computed(WF64(ieee.fromS32(Signed32(args[0].x))))
      case Convert64S => Computed(WF64(ieee.fromS64(Signed64(args[0].y))))
      case Trunc32S =>
        (match ieee.toS32(args[0].d) case None => Trapped case Some(n) => Computed(WI32(n % 0x1_0000_0000)))
      case Trunc64S =>
        (match ieee.toS64(args[0].d) case None => Trapped case Some(n) => Computed(WI64(n % 0x1_0000_0000_0000_0000)))
      case Trunc64SingleS =>
        (match ieee.toS64(ieee.promote(args[0].f))
         case None => Trapped
         case Some(n) => Computed(WI64(n % 0x1_0000_0000_0000_0000)))
  }

  // ---- Execution (section 4.4) -----------------------------------------------------

  /** What outlives a call: linear memory and the calls made to the host. */
  datatype Store = Store(mem: seq<byte>, trace: seq<Event>)

  /** State of a function activation after some code: past its end, returned, or over. */
  datatype Run =
    | Fell(locals: seq<WVal>, stack: seq<WVal>, store: Store)
    | Returned(stack: seq<WVal>, store: Store)
    | Trap(store: Store)
    | Exhausted
    | Stuck

  /** Result of an invocation. */
  datatype Outcome = Results(vals: seq<WVal>, store: Store) | TrapOut(store: Store) | ExhaustedOut | StuckOut

  function NatBits(v: WVal): nat {
    match v
    case WI32(x) => x
    case WI64(y) => y
    case WF32(f) => f
    case WF64(d) => d
  }

  function FromBits(c: ValType, n: nat): WVal {
    match c
    case I32 => WI32(n % 0x1_0000_0000)
    case I64 => WI64(n % 0x1_0000_0000_0000_0000)
    case F32 => WF32(n % 0x1_0000_0000)
    case F64 => WF64(n % 0x1_0000_0000_0000_0000)
  }

  function Zero(c: ValType): WVal {
    FromBits(c, 0)
  }

  /** A WebAssembly value as the host sees it. */
  function HostView(v: WVal): Value {
    OfBits(TypeOf(v), NatBits(v))
  }

  function HostViews(vs: seq<WVal>): (r: seq<Value>)
    ensures |r| == |vs|
  {
    seq(|vs|, k requires 0 <= k < |vs| => HostView(vs[k]))
  }

  function Zeros(locals: seq<ValType>): (r: seq<WVal>)
    ensures |r| == |locals|
  {
    seq(|locals|, k requires 0 <= k < |locals| => Zero(locals[k]))
  }

  function Overwrite(mem: seq<byte>, at: nat, bytes: seq<byte>): (r: seq<byte>)
    requires at + |bytes| <= |mem|
    ensures |r| == |mem|
  {
    mem[..at] + bytes + mem[at + |bytes|..]
  }

  /** Instructions other than calls, on one activation. */
  function StepPlain(mc: Machine, i: Instruction, locals: seq<WVal>, stack: seq<WVal>, st: Store): (r: Run)
    requires !i.ICall?
  {
    var n := |stack|;
    match i
    case IUnreachable => Trap(st)
    case IReturn => Returned(stack, st)
    case IDrop => if n >= 1 then Fell(locals, stack[..n - 1], st) else Stuck
    case LocalGet(l) => if l < |locals| then Fell(locals, stack + [locals[l]], st) else Stuck
    case LocalSet(l) =>
      if l < |locals| && n >= 1 && TypeOf(stack[n - 1]) == TypeOf(locals[l]) then
        Fell(locals[l := stack[n - 1]], stack[..n - 1], st)
      else Stuck
    case ILoad(c, _, offset) =>
      if n < 1 || !stack[n - 1].WI32? then Stuck
      else
        var at := stack[n - 1].x + offset;
        if at + Width(c) > |st.mem| then Trap(st)
        else Fell(locals, stack[..n - 1] + [FromBits(c, FromLittleEndian(st.mem[at..at + Width(c)]))], st)
    case IStore(c, _, offset) =>
      if n < 2 || !stack[n - 2].WI32? || TypeOf(stack[n - 1]) != c then Stuck
      else
        var at := stack[n - 2].x + offset;
        if at + Width(c) > |st.mem| then Trap(st)
        else Fell(locals, stack[..n - 2],
                  st.(mem := Overwrite(st.mem, at, LittleEndian(NatBits(stack[n - 1]), Width(c)))))
    case I32Const(k) => Fell(locals, stack + [WI32(k % 0x1_0000_0000)], st)
    case I64Const(k) => Fell(locals, stack + [WI64(k % 0x1_0000_0000_0000_0000)], st)
    case F32Const(b) => Fell(locals, stack + [WF32(b)], st)
    case F64Const(b) => Fell(locals, stack + [WF64(b)], st)
    case Numeric(opcode) =>
      match Decode(opcode)
      case None => Stuck
      case Some(op) =>
        var k := |Operands(op)|;
        if n < k then Stuck
        else
          match Compute(mc.ieee, op, stack[n - k..])
          case Computed(v) => Fell(locals, stack[..n - k] + [v], st)
          case Trapped => Trap(st)
          case IllTyped => Stuck
  }

  function Step(mc: Machine, m: Module, fuel: nat, i: Instruction, locals: seq<WVal>, stack: seq<WVal>,
                st: Store): (r: Run)
    decreases fuel, 1
  {
    if !i.ICall? then StepPlain(mc, i, locals, stack, st)
    else
      match TypeOfFunc(m, i.func)
      case None => Stuck
      case Some(t) =>
        var n, k := |stack|, |t.params|;
        if n < k then Stuck
        else
          match Invoke(mc, m, fuel, i.func, stack[n - k..], st)
          case Results(vals, st') => Fell(locals, stack[..n - k] + vals, st')
          case TrapOut(st') => Trap(st')
          case ExhaustedOut => Exhausted
          case StuckOut => Stuck
  }

  function Exec(mc: Machine, m: Module, fuel: nat, code: Code, locals: seq<WVal>, stack: seq<WVal>, st: Store): (r: Run)
    decreases fuel, |code| + 2
  {
    if code == [] then Fell(locals, stack, st)
    else
      match Step(mc, m, fuel, code[0], locals, stack, st)
      case Fell(locals', stack', st') => Exec(mc, m, fuel, code[1..], locals', stack', st')
      case other => other
  }

  /** A call of an imported function: the first three are `ylc_print_int`, `ylc_print_string`
      and `ylc_abort`. */
  function InvokeHost(mc: Machine, m: Module, i: nat, args: seq<WVal>, st: Store): (o: Outcome)
    requires i < |m.imports|
  {
    if i == 0 then
      (if |args| == 1
       && args[0].WI32? then Results([], st.(trace := st.trace + [PrintInt(Signed32(args[0].x))])) else StuckOut)
    else if i == 1 then
      (if |args| == 1
       && args[0].WI32? then Results([], st.(trace := st.trace + [PrintString(Signed32(args[0].x))])) else StuckOut)
    else if i == 2 then TrapOut(st)
    else
      match TypeOfFunc(m, i)
      case None => StuckOut
      case Some(t) =>
        var st' := st.(trace := st.trace + [HostCall(m.imports[i].name, HostViews(args))]);
        Results(if t.result.Some? then [FromBits(t.result.value, mc.host(m.imports[i].name, HostViews(args), st.trace))]
                else [], st')
  }

  /** An invocation: arguments become the first locals, the others start at zero. */
  function Invoke(mc: Machine, m: Module, fuel: nat, i: nat, args: seq<WVal>, st: Store): (o: Outcome)
    decreases fuel, 0
  {
    if i < |m.imports| then InvokeHost(mc, m, i, args, st)
    else if i - |m.imports| >= |m.bodies| || TypeOfFunc(m, i).None? then StuckOut
    else if fuel == 0 then ExhaustedOut
    else
      var body := m.bodies[i - |m.imports|];
      var arity := if TypeOfFunc(m, i).value.result.Some? then 1 else 0;
      match Exec(mc, m, fuel - 1, body.code, args + Zeros(body.locals), [], st)
      case Fell(_, stack, st') => if |stack| == arity then Results(stack, st') else StuckOut
      case Returned(stack, st') => if |stack| >= arity then Results(stack[|stack| - arity..], st') else StuckOut
      case Trap(st') => TrapOut(st')
      case Exhausted => ExhaustedOut
      case Stuck => StuckOut
  }

  // ---- Validation (section 3.3) ------------------------------------------------------

  /** The operand stack of the validation algorithm: after an unconditional exit, missing operands may
      have any type. */
  datatype Shape = Shape(stack: seq<ValType>, exited: bool)

  /** Popping operands of given types, last first. */
  function Pop(s: Shape, ts: seq<ValType>): (r: Option<Shape>)
    decreases |ts|
  {
    if ts == [] then Some(s)
    else if s.stack == [] then (if s.exited then Some(s) else None)
    else if s.stack[|s.stack| - 1] == ts[|ts| - 1] then
      Pop(s.(stack := s.stack[..|s.stack| - 1]), ts[..|ts| - 1])
    else None
  }

  function PopPush(s: Shape, ts: seq<ValType>, us: seq<ValType>): (r: Option<Shape>) {
    match Pop(s, ts)
    case None => None
    case Some(s') => Some(s'.(stack := s'.stack + us))
  }

  function ResultSeq(r: Option<ValType>): seq<ValType> {
    if r.Some? then [r.value] else []
  }

  /** Memory instructions may not claim more alignment than the width they access. */
  predicate AlignOk(c: ValType, align: nat) {
    align <= (if Width(c) == 4 then 2 else 3)
  }

  function CheckInstr(m: Module, locals: seq<ValType>, result: Option<ValType>, i: Instruction,
                      s: Shape): (r: Option<Shape>) {
    match i
    case IUnreachable => Some(Shape([], true))
    case IReturn => if Pop(s, ResultSeq(result)).Some? then Some(Shape([], true)) else None
    case ICall(f) =>
      (match TypeOfFunc(m, f)
       case None => None
       case Some(t) => PopPush(s, t.params, ResultSeq(t.result)))
    case IDrop => if s.stack == [] then (if s.exited then Some(s) else None)
        else Some(s.(stack := s.stack[..|s.stack| - 1]))
    case LocalGet(l) => if l < |locals| then Some(s.(stack := s.stack + [locals[l]])) else None
    case LocalSet(l) => if l < |locals| then Pop(s, [locals[l]]) else None
    case ILoad(c, align, _) => if AlignOk(c, align) then PopPush(s, [I32], [c]) else None
    case IStore(c, align, _) => if AlignOk(c, align) then Pop(s, [I32, c]) else None
    case I32Const(_) => Some(s.(stack := s.stack + [I32]))
    case I64Const(_) => Some(s.(stack := s.stack + [I64]))
    case F32Const(_) => Some(s.(stack := s.stack + [F32]))
    case F64Const(_) => Some(s.(stack := s.stack + [F64]))
    case Numeric(opcode) =>
      match Decode(opcode)
      case None => None
      case Some(op) => PopPush(s, Operands(op), [ResultOf(op)])
  }

  function Check(m: Module, locals: seq<ValType>, result: Option<ValType>, code: Code, s: Shape): (r: Option<Shape>) {
    if code == [] then Some(s)
    else
      match CheckInstr(m, locals, result, code[0], s)
      case None => None
      case Some(s') => Check(m, locals, result, code[1..], s')
  }

  /** A function body is valid at a type: its code ends with exactly the results on the stack. */
  predicate ValidBody(m: Module, t: FuncType, body: Body) {
    match Check(m, t.params + body.locals, t.result, body.code, Shape([], false))
    case None => false
    case Some(s) =>
      match Pop(s, ResultSeq(t.result))
      case None => false
      case Some(s') => s'.stack == []
  }

  /** Indices name existing types and functions. */
  ghost predicate ValidIndices(m: Module) {
    && |m.funcs| == |m.bodies|
    && (forall k :: 0 <= k < |m.imports| ==> m.imports[k].typeIndex < |m.types|)
    && (forall k :: 0 <= k < |m.funcs| ==> m.funcs[k] < |m.types|)
    && m.entry < |m.imports| + |m.funcs|
  }

  /** A module is valid: indices name existing types and functions, and every body is valid. */
  ghost predicate ValidModule(m: Module) {
    && ValidIndices(m)
    && (forall k :: 0 <= k < |m.bodies| && k < |m.funcs| && m.funcs[k] < |m.types| ==>
          ValidBody(m, m.types[m.funcs[k]], m.bodies[k]))
  }
}
