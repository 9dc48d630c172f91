/** Every operator and conversion of MIR is computed by the opcode the backend picks for it. */
module NumericProofs {
  import opened Wrappers
  import opened Bits
  import opened Leb128
  import opened Mir
  import opened MirEval
  import opened Wasm
  import opened Lowering
  import opened WellTyped

  /** The WebAssembly value that stands for a MIR value. */
  function Rep(v: Value): (r: WVal)
    ensures TypeOf(r) == ClassOf(v)
  {
    match v
    case Word(i) => WI32(i % 0x1_0000_0000)
    case Long(u) => WI64(u)
    case Single(b) => WF32(b)
    case Double(b) => WF64(b)
  }

  /** Representation loses nothing. */
  lemma RepInjective(a: Value, b: Value)
    ensures Rep(a) == Rep(b) ==> a == b
  {
    if a.Word? && b.Word? && Rep(a) == Rep(b) {
      assert Signed32(a.i % 0x1_0000_0000) == a.i && Signed32(b.i % 0x1_0000_0000) == b.i;
    }
  }

  predicate IsInt(v: Value) {
    v.Word? || v.Long?
  }

  /** The two readings of an integer value, from its representation. */
  lemma Readings(v: Value)
    requires IsInt(v)
    ensures NatOf(Rep(v)) == Uns(v) < Modulus(ClassOf(v))
    ensures SignedN(ClassOf(v), NatOf(Rep(v))) == Sgn(v)
    ensures Sgn(v) % Modulus(ClassOf(v)) == Uns(v)
    ensures Sgn(v) == 0 <==> Uns(v) == 0
  {
  }

  lemma RepWrap(c: ValType, n: int)
    requires c == I32 || c == I64
    ensures Rep(Wrap(c, n)) == IntOf(c, Reduce(c, n))
  {
  }

  lemma ModAdd(a: int, b: int, c: ValType)
    ensures Reduce(c, a % Modulus(c) + b % Modulus(c)) == Reduce(c, a + b)
    ensures Reduce(c, a % Modulus(c) - b % Modulus(c) + Modulus(c)) == Reduce(c, a - b)
  {
    var n := Modulus(c);
    var qa, ra, qb, rb := a / n, a % n, b / n, b % n;
    ModShift(ra + rb, qa + qb, n);
    ModShift(ra - rb + n, qa - qb - 1, n);
    MulLinear(qa, qb, n);
  }

  lemma MulLinear(qa: int, qb: int, n: int)
    ensures (qa + qb) * n == qa * n + qb * n
    ensures (qa - qb - 1) * n == qa * n - qb * n - n
  {
  }

  lemma ModShift(x: int, k: int, n: nat)
    requires n > 0
    ensures (x + k * n) % n == x % n
  {
    var q, r := x / n, x % n;
    Distribute3(k, q, n);
    DivModUnique(x + k * n, n, k + q, r);
  }

  lemma ModMul(a: int, b: int, n: nat)
    requires n > 0
    ensures ((a % n) * (b % n)) % n == (a * b) % n
  {
    var qa, ra, qb, rb := a / n, a % n, b / n, b % n;
    var k := n * (qa * qb) + qa * rb + qb * ra;
    MulExpand(qa, ra, qb, rb, n);
    var q, r := (ra * rb) / n, (ra * rb) % n;
    assert a * b == k * n + (q * n + r);
    Distribute3(k, q, n);
    DivModUnique(a * b, n, k + q, r);
  }

  lemma MulExpand(qa: int, ra: int, qb: int, rb: int, n: int)
    ensures (qa * n + ra) * (qb * n + rb) == (n * (qa * qb) + qa * rb + qb * ra) * n + ra * rb
  {
    calc {
      (qa * n + ra) * (qb * n + rb);
      (qa * n) * (qb * n) + (qa * n) * rb + ra * (qb * n) + ra * rb;
      { assert (qa * n) * (qb * n) == (n * (qa * qb)) * n; }
      (n * (qa * qb)) * n + (qa * rb) * n + (qb * ra) * n + ra * rb;
      (n * (qa * qb) + qa * rb + qb * ra) * n + ra * rb;
    }
  }

  lemma Distribute3(k: int, q: int, n: int)
    ensures k * n + q * n == (k + q) * n
  {
  }

  // ---- Integer arithmetic --------------------------------------------------------

  /** The WebAssembly operator that computes a MIR operator on integers. */
  function ArithOf(op: PrimOp): Option<IntOp> {
    match op
    case IADD | UADD => Some(AddOp)
    case ISUB | USUB => Some(SubOp)
    case IMUL | UMUL => Some(MulOp)
    case IDIV => Some(DivS)
    case UDIV => Some(DivU)
    case IMOD => Some(RemS)
    case UMOD => Some(RemU)
    case _ => None
  }

  /** A MIR result and a WebAssembly number say the same. */
  predicate SameNumber(c: ValType, v: Option<Value>, n: Option<nat>) {
    match (v, n)
    case (None, None) => true
    case (Some(x), Some(k)) => k < Modulus(c) && Rep(x) == IntOf(c, k)
    case _ => false
  }

  lemma AddSubMul(ieee: Ieee, op: PrimOp, a: Value, b: Value)
    requires IsInt(a) && ClassOf(a) == ClassOf(b)
    requires op in {IADD, UADD, ISUB, USUB, IMUL, UMUL}
    ensures SameNumber(ClassOf(a), EvalOp(ieee, op, a, b),
                       IntBinaryOp(ClassOf(a), ArithOf(op).value, NatOf(Rep(a)), NatOf(Rep(b))))
  {
    hide EvalOp;
    hide IntBinaryOp;
    hide SameNumber;
    if op.IMUL? || op.UMUL? {
      Products(ieee, op, a, b);
    } else {
      Sums(ieee, op, a, b);
    }
  }

  lemma Sums(ieee: Ieee, op: PrimOp, a: Value, b: Value)
    requires IsInt(a) && ClassOf(a) == ClassOf(b) && (op.IADD? || op.UADD? || op.ISUB? || op.USUB?)
    ensures SameNumber(ClassOf(a), EvalOp(ieee, op, a, b),
                       IntBinaryOp(ClassOf(a), ArithOf(op).value, NatOf(Rep(a)), NatOf(Rep(b))))
  {
    hide Wrap;
    hide Reduce;
    hide Rep;
    hide Sgn;
    hide Uns;
    var c := ClassOf(a);
    Readings(a);
    Readings(b);
    match op
    case IADD => ModAdd(Sgn(a), Sgn(b), c); RepWrap(c, Sgn(a) + Sgn(b));
    case UADD => RepWrap(c, Uns(a) + Uns(b));
    case ISUB => ModAdd(Sgn(a), Sgn(b), c); RepWrap(c, Sgn(a) - Sgn(b));
    case USUB => ShiftModulus(c, Uns(a) - Uns(b)); RepWrap(c, Uns(a) - Uns(b));
  }

  lemma Products(ieee: Ieee, op: PrimOp, a: Value, b: Value)
    requires IsInt(a) && ClassOf(a) == ClassOf(b) && (op.IMUL? || op.UMUL?)
    ensures SameNumber(ClassOf(a), EvalOp(ieee, op, a, b),
                       IntBinaryOp(ClassOf(a), ArithOf(op).value, NatOf(Rep(a)), NatOf(Rep(b))))
  {
    hide Wrap;
    hide Reduce;
    hide Rep;
    hide Sgn;
    hide Uns;
    var c := ClassOf(a);
    Readings(a);
    Readings(b);
    match op
    case IMUL => ReduceMul(c, Sgn(a), Sgn(b)); RepWrap(c, Sgn(a) * Sgn(b));
    case UMUL => RepWrap(c, Uns(a) * Uns(b));
  }

  lemma ShiftModulus(c: ValType, n: int)
    ensures Reduce(c, n + Modulus(c)) == Reduce(c, n)
  {
  }

  lemma ReduceMul(c: ValType, a: int, b: int)
    ensures Reduce(c, (a % Modulus(c)) * (b % Modulus(c))) == Reduce(c, a * b)
  {
    ModMul(a, b, Modulus(c));
  }

  lemma DivAtMost(x: nat, y: nat)
    requires y >= 1
    ensures 0 <= x / y <= x && 0 <= x % y < y && x % y <= x
    ensures y >= 2 ==> 2 * (x / y) <= x
  {
    var q, r := x / y, x % y;
    assert x == y * q + r;
    MulAtLeast(q, y);
  }

  lemma MulAtLeast(q: nat, y: nat)
    requires y >= 1
    ensures y * q >= q
    ensures y >= 2 ==> y * q >= 2 * q
  {
    assert (y - 1) * q >= 0;
    if y >= 2 {
      assert (y - 2) * q >= 0;
    }
  }

  /** Signed division overflows in exactly one case. */
  lemma DivOverflow(half: int, x: int, y: int)
    requires half >= 1 && -half <= x < half && -half <= y < half && y != 0
    ensures TruncDiv(x, y) == half <==> x == -half && y == -1
    ensures -half <= TruncDiv(x, y) <= half
  {
    var ax, ay := if x < 0 then -x else x, if y < 0 then -y else y;
    DivAtMost(ax, ay);
    if ay == 1 {
      assert ax / 1 == ax;
    }
  }

  lemma SignedDivision(ieee: Ieee, a: Value, b: Value)
    requires IsInt(a) && ClassOf(a) == ClassOf(b)
    ensures SameNumber(ClassOf(a), EvalOp(ieee, IDIV, a, b),
                       IntBinaryOp(ClassOf(a), DivS, NatOf(Rep(a)), NatOf(Rep(b))))
    ensures SameNumber(ClassOf(a), EvalOp(ieee, IMOD, a, b),
                       IntBinaryOp(ClassOf(a), RemS, NatOf(Rep(a)), NatOf(Rep(b))))
  {
    hide Wrap;
    hide Reduce;
    hide Rep;
    hide TruncDiv;
    hide TruncRem;
    hide Uns;
    var c := ClassOf(a);
    Readings(a);
    Readings(b);
    if Sgn(b) != 0 {
      SignedRange(a);
      SignedRange(b);
      DivOverflow(Modulus(c) / 2, Sgn(a), Sgn(b));
      RepWrap(c, TruncDiv(Sgn(a), Sgn(b)));
      RepWrap(c, TruncRem(Sgn(a), Sgn(b)));
    }
  }

  lemma SignedRange(v: Value)
    requires IsInt(v)
    ensures -(Modulus(ClassOf(v)) / 2) <= Sgn(v) < Modulus(ClassOf(v)) / 2
    ensures 2 * (Modulus(ClassOf(v)) / 2) == Modulus(ClassOf(v))
  {
  }

  lemma ReduceSmall(c: ValType, n: nat)
    requires n < Modulus(c)
    ensures Reduce(c, n) == n
  {
  }

  lemma UnsignedDivision(ieee: Ieee, a: Value, b: Value)
    requires IsInt(a) && ClassOf(a) == ClassOf(b)
    ensures SameNumber(ClassOf(a), EvalOp(ieee, UDIV, a, b),
                       IntBinaryOp(ClassOf(a), DivU, NatOf(Rep(a)), NatOf(Rep(b))))
    ensures SameNumber(ClassOf(a), EvalOp(ieee, UMOD, a, b),
                       IntBinaryOp(ClassOf(a), RemU, NatOf(Rep(a)), NatOf(Rep(b))))
  {
    hide Wrap;
    hide Reduce;
    hide Rep;
    hide Sgn;
    var c := ClassOf(a);
    Readings(a);
    Readings(b);
    if Uns(b) != 0 {
      DivAtMost(Uns(a), Uns(b));
      ReduceSmall(c, Uns(a) / Uns(b));
      ReduceSmall(c, Uns(a) % Uns(b));
      RepWrap(c, Uns(a) / Uns(b));
      RepWrap(c, Uns(a) % Uns(b));
    }
  }

  lemma ArithCorrect(ieee: Ieee, op: PrimOp, a: Value, b: Value)
    requires IsInt(a) && ClassOf(a) == ClassOf(b) && ArithOf(op).Some?
    ensures SameNumber(ClassOf(a), EvalOp(ieee, op, a, b),
                       IntBinaryOp(ClassOf(a), ArithOf(op).value, NatOf(Rep(a)), NatOf(Rep(b))))
  {
    hide EvalOp;
    hide IntBinaryOp;
    hide SameNumber;
    match op
    case IDIV | IMOD => SignedDivision(ieee, a, b);
    case UDIV | UMOD => UnsignedDivision(ieee, a, b);
    case _ => AddSubMul(ieee, op, a, b);
  }

  // ---- Comparisons ---------------------------------------------------------------

  function RelOf(op: PrimOp): Option<IntRel> {
    match op
    case IEQ | UEQ | CEQ | BEQ => Some(EqRel)
    case IGT | CGT => Some(GtS)
    case UGT => Some(GtU)
    case IGTE | CGTE => Some(GeS)
    case UGTE => Some(GeU)
    case ILT | CLT => Some(LtS)
    case ULT => Some(LtU)
    case ILTE | CLTE => Some(LeS)
    case ULTE => Some(LeU)
    case _ => None
  }

  lemma CompareCorrect(ieee: Ieee, op: PrimOp, a: Value, b: Value)
    requires IsInt(a) && ClassOf(a) == ClassOf(b) && RelOf(op).Some?
    ensures EvalOp(ieee, op, a, b)
            == Some(Truth(IntRelOp(ClassOf(a), RelOf(op).value, NatOf(Rep(a)), NatOf(Rep(b)))))
  {
    hide Sgn;
    hide Uns;
    hide Rep;
    hide SignedN;
    Readings(a);
    Readings(b);
    SameReading(a, b);
  }

  lemma SameReading(a: Value, b: Value)
    requires IsInt(a) && IsInt(b) && ClassOf(a) == ClassOf(b)
    ensures Sgn(a) == Sgn(b) <==> Uns(a) == Uns(b)
  {
  }

  // ---- Opcodes -------------------------------------------------------------------

  /** What a computation of WebAssembly gives for a result of MIR. */
  function Expected(v: Option<Value>): NumResult {
    match v
    case None => Trapped
    case Some(x) => Computed(Rep(x))
  }

  /** The instruction an opcode was picked for. */
  function OperatorOf(op: PrimOp, c: ValType): Option<Operator> {
    if ArithOf(op).Some? then Some(IntBinary(c, ArithOf(op).value))
    else if RelOf(op).Some? then Some(IntCompare(c, RelOf(op).value))
    else
      match op
      case FADD => Some(FloatBinary(FAddOp))
      case FSUB => Some(FloatBinary(FSubOp))
      case FMUL => Some(FloatBinary(FMulOp))
      case FDIV => Some(FloatBinary(FDivOp))
      case FEQ => Some(FloatCompare(FEqOp))
      case FGT => Some(FloatCompare(FGtOp))
      case FGTE => Some(FloatCompare(FGeOp))
      case FLT => Some(FloatCompare(FLtOp))
      case FLTE => Some(FloatCompare(FLeOp))
      case _ => None
  }

  predicate NamesOperator(op: PrimOp, c: ValType) {
    && Opcode(op, c).Some? && OperatorOf(op, c).Some?
    && Decode(Opcode(op, c).value) == OperatorOf(op, c)
    && Operands(OperatorOf(op, c).value) == [c, c]
    && OpResult(op, c) == Some(ResultOf(OperatorOf(op, c).value))
  }

  lemma ArithNames(op: PrimOp, c: ValType)
    requires OpResult(op, c).Some? && ArithOf(op).Some?
    ensures NamesOperator(op, c)
  {
  }

  lemma RelNames(op: PrimOp, c: ValType)
    requires OpResult(op, c).Some? && RelOf(op).Some?
    ensures NamesOperator(op, c)
  {
    hide NamesOperator;
    match op
    case IEQ | UEQ | CEQ | BEQ => EqualityNames(op, c);
    case IGT | CGT | IGTE | CGTE | ILT | CLT | ILTE | CLTE => SignedNames(op, c);
    case _ => UnsignedNames(op, c);
  }

  lemma EqualityNames(op: PrimOp, c: ValType)
    requires (op.IEQ? || op.UEQ? || op.CEQ? || op.BEQ?) && (c.I32? || c.I64?)
    ensures NamesOperator(op, c)
  {
  }

  lemma SignedNames(op: PrimOp, c: ValType)
    requires (op.IGT? || op.CGT? || op.IGTE? || op.CGTE? || op.ILT? || op.CLT? || op.ILTE? || op.CLTE?)
             && (c.I32? || c.I64?)
    ensures NamesOperator(op, c)
  {
  }

  lemma UnsignedNames(op: PrimOp, c: ValType)
    requires (op.UGT? || op.UGTE? || op.ULT? || op.ULTE?) && (c.I32? || c.I64?)
    ensures NamesOperator(op, c)
  {
  }

  lemma FloatNames(op: PrimOp, c: ValType)
    requires OpResult(op, c).Some? && c == F64
    ensures NamesOperator(op, c)
  {
  }

  /** The opcode table names the right instruction for every operator and operand type. */
  lemma OpcodeNames(op: PrimOp, c: ValType)
    requires OpResult(op, c).Some?
    ensures Opcode(op, c).Some? && OperatorOf(op, c).Some?
    ensures Decode(Opcode(op, c).value) == OperatorOf(op, c)
    ensures Operands(OperatorOf(op, c).value) == [c, c]
    ensures OpResult(op, c) == Some(ResultOf(OperatorOf(op, c).value))
  {
    hide Opcode;
    hide OperatorOf;
    hide Decode;
    if c == F64 {
      FloatNames(op, c);
    } else if ArithOf(op).Some? {
      ArithNames(op, c);
    } else {
      RelNames(op, c);
    }
  }

  lemma ComputeArith(ieee: Ieee, op: PrimOp, a: Value, b: Value)
    requires IsInt(a) && ClassOf(a) == ClassOf(b) && ArithOf(op).Some?
    ensures Compute(ieee, IntBinary(ClassOf(a), ArithOf(op).value), [Rep(a), Rep(b)])
            == Expected(EvalOp(ieee, op, a, b))
  {
    hide EvalOp;
    hide IntBinaryOp;
    hide ArithOf;
    ArithCorrect(ieee, op, a, b);
  }

  lemma ComputeCompare(ieee: Ieee, op: PrimOp, a: Value, b: Value)
    requires IsInt(a) && ClassOf(a) == ClassOf(b) && RelOf(op).Some?
    ensures Compute(ieee, IntCompare(ClassOf(a), RelOf(op).value), [Rep(a), Rep(b)]) == Expected(EvalOp(ieee, op, a, b))
  {
    hide EvalOp;
    hide IntRelOp;
    hide RelOf;
    CompareCorrect(ieee, op, a, b);
  }

  lemma ComputeFloat(ieee: Ieee, op: PrimOp, a: Value, b: Value)
    requires a.Double? && b.Double? && OpResult(op, F64).Some?
    ensures OperatorOf(op, F64).Some?
    ensures Compute(ieee, OperatorOf(op, F64).value, [Rep(a), Rep(b)]) == Expected(EvalOp(ieee, op, a, b))
  {
    hide Compute;
    hide EvalOp;
    hide OpResult;
    FloatOperator(op);
    if op.FADD? || op.FSUB? || op.FMUL? || op.FDIV? {
      ComputeFloatArith(ieee, op, a, b);
    } else {
      ComputeFloatCompare(ieee, op, a, b);
    }
  }

  lemma FloatOperator(op: PrimOp)
    requires OpResult(op, F64).Some?
    ensures OperatorOf(op, F64).Some?
    ensures op.FADD? || op.FSUB? || op.FMUL? || op.FDIV? || op.FEQ? || op.FGT? || op.FGTE? || op.FLT? || op.FLTE?
  {
  }

  lemma ComputeFloatArith(ieee: Ieee, op: PrimOp, a: Value, b: Value)
    requires a.Double? && b.Double? && (op.FADD? || op.FSUB? || op.FMUL? || op.FDIV?) && OperatorOf(op, F64).Some?
    ensures Compute(ieee, OperatorOf(op, F64).value, [Rep(a), Rep(b)]) == Expected(EvalOp(ieee, op, a, b))
  {
  }

  lemma ComputeFloatCompare(ieee: Ieee, op: PrimOp, a: Value, b: Value)
    requires a.Double? && b.Double? && (op.FEQ? || op.FGT? || op.FGTE? || op.FLT? || op.FLTE?)
             && OperatorOf(op, F64).Some?
    ensures Compute(ieee, OperatorOf(op, F64).value, [Rep(a), Rep(b)]) == Expected(EvalOp(ieee, op, a, b))
  {
  }

  /** The opcode picked for a binary operator computes what the operator means, and traps where it stops. */
  lemma OperatorCorrect(ieee: Ieee, op: PrimOp, a: Value, b: Value)
    requires ClassOf(a) == ClassOf(b) && OpResult(op, ClassOf(a)).Some?
    ensures Opcode(op, ClassOf(a)).Some?
    ensures var d := Decode(Opcode(op, ClassOf(a)).value);
            && d.Some? && Operands(d.value) == [ClassOf(a), ClassOf(b)]
            && Compute(ieee, d.value, [Rep(a), Rep(b)]) == Expected(EvalOp(ieee, op, a, b))
  {
    hide Compute;
    hide EvalOp;
    hide Opcode;
    hide Decode;
    hide Expected;
    hide Rep;
    OpcodeNames(op, ClassOf(a));
    if ArithOf(op).Some? {
      ComputeArith(ieee, op, a, b);
    } else if RelOf(op).Some? {
      ComputeCompare(ieee, op, a, b);
    } else {
      ComputeFloat(ieee, op, a, b);
    }
  }

  /** `eqz` is the negation of a truth value, and of any integer read as one. */
  lemma NotCorrect(ieee: Ieee, v: Value)
    requires IsInt(v)
    ensures var d := Decode(if ClassOf(v) == I64 then 0x50 else 0x45);
            && d.Some? && Operands(d.value) == [ClassOf(v)]
            && Compute(ieee, d.value, [Rep(v)]) == Computed(Rep(Truth(Uns(v) == 0)))
  {
    Readings(v);
  }

  /** The conversion opcode picked for a cast computes the cast, and traps where it stops, unless the cast is from
      64-bit floats to 64-bit integers: that opcode names an instruction for 32-bit floats. */
  lemma CastCorrect(ieee: Ieee, from: ValType, to: ValType, v: Value)
    requires from != to && from == ClassOf(v) && CastResult(Some(from), Some(to), from).Some?
    ensures CastOpcode(from, to).Some?
    ensures var d := Decode(CastOpcode(from, to).value);
            && d.Some? && |Operands(d.value)| == 1 && ResultOf(d.value) == to
            && if LongTruncation(Some(from), Some(to)) then
                 Operands(d.value) == [F32] && Compute(ieee, d.value, [Rep(v)]) == IllTyped
               else
                 Operands(d.value) == [from]
                 && Compute(ieee, d.value, [Rep(v)]) == Expected(EvalCast(ieee, Some(from), Some(to), v))
  {
    match (from, to)
    case (I64, I32) =>
    case (I32, I64) => assert SignedN(I32, v.i % 0x1_0000_0000) == v.i;
    case (I32, F64) => assert Signed32(v.i % 0x1_0000_0000) == v.i;
    case (I64, F64) =>
    case (F64, I32) =>
    case (F64, I64) =>
  }

  // ---- Constants -----------------------------------------------------------------

  /** The instruction for a constant of a class. */
  function ConstInstr(ieee: Ieee, k: Constant, c: ValType): Instruction
    requires ConstFits(k, c)
  {
    match k
    case CInt(n) => I32Const(n)
    case CUint64(u) => if c == I64 then I64Const(Signed64(u)) else I32Const(Signed32(u % 0x1_0000_0000))
    case CFloat(b) => F64Const(ieee.promote(b))
    case CDouble(b) => F64Const(b)
    case CBool(b) => I32Const(if b then 1 else 0)
    case CChar(ch) => I32Const(ch)
  }

  lemma ConstCode(ieee: Ieee, l: Layout, i: Instr, k: Constant, c: ValType)
    requires ConstFits(k, c)
    requires ResultSlot(l, i).InLocal? && ResultSlot(l, i).local < |l.types| && l.types[ResultSlot(l, i).local] == c
    ensures LowerConst(ieee, l, i, k) == Some([ConstInstr(ieee, k, c)])
  {
    hide Signed32;
    hide Signed64;
    hide ResultSlot;
  }

  lemma NoConstCode(ieee: Ieee, l: Layout, i: Instr, k: Constant)
    requires ResultSlot(l, i) == Void || k == CVoid || k == CUndef
    ensures LowerConst(ieee, l, i, k) == Some([])
  {
  }
}
