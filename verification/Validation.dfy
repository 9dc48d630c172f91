/** What the backend emits for well-typed MIR passes WebAssembly validation, except one kind of cast. */
module Validation {
  import opened Wrappers
  import opened Bits
  import opened Leb128
  import opened Mir
  import opened MirEval
  import opened Wasm
  import opened Globals
  import opened Lowering
  import opened WellTyped
  import opened LayoutProofs
  import opened NumericProofs
  import opened ModuleProofs
  import opened CallProofs

  lemma Check1(m: Module, locals: seq<ValType>, result: Option<ValType>, i: Instruction, s: Shape)
    ensures Check(m, locals, result, [i], s) == CheckInstr(m, locals, result, i, s)
  {
  }

  function ThenCheck(m: Module, locals: seq<ValType>, result: Option<ValType>, s: Option<Shape>,
                     code: Code): Option<Shape> {
    match s
    case None => None
    case Some(x) => Check(m, locals, result, code, x)
  }

  lemma {:induction false} CheckAppend(m: Module, locals: seq<ValType>, result: Option<ValType>, a: Code, b: Code,
                                       s: Shape)
    ensures Check(m, locals, result, a + b, s) == ThenCheck(m, locals, result, Check(m, locals, result, a, s), b)
    decreases |a|
  {
    hide CheckInstr;
    if a == [] {
      assert a + b == b;
    } else {
      assert (a + b)[0] == a[0] && (a + b)[1..] == a[1..] + b;
      if CheckInstr(m, locals, result, a[0], s).Some? {
        CheckAppend(m, locals, result, a[1..], b, CheckInstr(m, locals, result, a[0], s).value);
      }
    }
  }

  /** Operands that were just pushed are popped. */
  lemma {:induction false} PopPushed(stack: seq<ValType>, ts: seq<ValType>, exited: bool)
    ensures Pop(Shape(stack + ts, exited), ts) == Some(Shape(stack, exited))
    decreases |ts|
  {
    if ts == [] {
      assert stack + ts == stack;
    } else {
      var n := |ts|;
      assert (stack + ts)[|stack + ts| - 1] == ts[n - 1];
      assert (stack + ts)[..|stack + ts| - 1] == stack + ts[..n - 1];
      PopPushed(stack, ts[..n - 1], exited);
    }
  }

  lemma EmitCheck(m: Module, result: Option<ValType>, f: Function, l: Layout, v: ValueId, stack: seq<ValType>,
                  exited: bool)
    requires LayoutOk(f, l) && EmitValue(l, v).Some?
    ensures ValueClass(f, v).Some? && ValueType(l, f, v) == ValueClass(f, v)
    ensures Check(m, l.types, result, EmitValue(l, v).value, Shape(stack, exited))
            == Some(Shape(stack + [ValueClass(f, v).value], exited))
  {
    hide ValueClass;
    assert LayoutProofs.SlotOk(f, l, v);
    Check1(m, l.types, result, LocalGet(l.slots[v].local), Shape(stack, exited));
  }

  lemma PushCheck(m: Module, locals: seq<ValType>, result: Option<ValType>, i: Instruction, ts: seq<ValType>,
                  us: seq<ValType>, exited: bool)
    requires forall s: Shape :: CheckInstr(m, locals, result, i, s) == PopPush(s, ts, us)
    ensures Check(m, locals, result, [i], Shape(ts, exited)) == Some(Shape(us, exited))
  {
    hide CheckInstr;
    Check1(m, locals, result, i, Shape(ts, exited));
    assert [] + ts == ts;
    PopPushed([], ts, exited);
    assert [] + us == us;
  }

  /** A numeric instruction on exactly its operands. */
  lemma NumericCheck(m: Module, locals: seq<ValType>, result: Option<ValType>, opcode: byte, op: Operator, exited: bool)
    requires Decode(opcode) == Some(op)
    ensures Check(m, locals, result, [Numeric(opcode)], Shape(Operands(op), exited))
            == Some(Shape([ResultOf(op)], exited))
  {
    hide Decode;
    PushCheck(m, locals, result, Numeric(opcode), Operands(op), [ResultOf(op)], exited);
  }

  /** The stack an action leaves: its class, if it has one. */
  function ClassStack(c: Option<ValType>): seq<ValType> {
    if c.Some? then [c.value] else []
  }

  lemma ConstCheck(m: Module, result: Option<ValType>, ieee: Ieee, f: Function, l: Layout, i: Instr, k: Constant,
                   exited: bool)
    requires LayoutOk(f, l) && i.action == Const(k) && ResultOk(f, i)
    requires if TypeToVal(i.ty).Some? then ConstFits(k, TypeToVal(i.ty).value)
             else i.result.Some? || k == CVoid || k == CUndef
    requires StoreResult(l, i).Some? && LowerConst(ieee, l, i, k).Some?
    ensures Check(m, l.types, result, LowerConst(ieee, l, i, k).value, Shape([], exited))
            == Some(Shape(ClassStack(TypeToVal(i.ty)), exited))
  {
    hide ValueClass;
    hide LowerConst;
    if i.result.Some? {
      assert LayoutProofs.SlotOk(f, l, i.result.value);
    }
    if TypeToVal(i.ty).Some? {
      var c := TypeToVal(i.ty).value;
      ConstCode(ieee, l, i, k, c);
      Check1(m, l.types, result, ConstInstr(ieee, k, c), Shape([], exited));
      assert [] + [c] == [c];
    } else {
      NoConstCode(ieee, l, i, k);
    }
  }

  lemma PrimitiveCheck(m: Module, result: Option<ValType>, f: Function, l: Layout, op: PrimOp, ops: seq<ValueId>,
                       c: ValType, exited: bool)
    requires LayoutOk(f, l) && LowerPrimitive(l, f, op, ops).Some?
    requires if op == LNOT then c == I32 && (ValueClass(f, ops[0]) == Some(I32) || ValueClass(f, ops[0]) == Some(I64))
             else ValueClass(f, ops[0]).Some? && ValueClass(f, ops[1]) == ValueClass(f, ops[0])
                  && OpResult(op, ValueClass(f, ops[0]).value) == Some(c)
    ensures Check(m, l.types, result, LowerPrimitive(l, f, op, ops).value, Shape([], exited))
            == Some(Shape([c], exited))
  {
    hide LayoutOk;
    hide ValueClass;
    hide Decode;
    hide Opcode;
    hide CheckInstr;
    hide OpResult;
    var v := ops[0];
    EmitCheck(m, result, f, l, v, [], exited);
    var x := ValueClass(f, v).value;
    var code := EmitValue(l, v).value;
    assert [] + [x] == [x];
    if op == LNOT {
      var opcode: byte := if x == I64 then 0x50 else 0x45;
      assert Decode(opcode) == Some(EqZero(x)) by { EqzOpcode(); }
      CheckAppend(m, l.types, result, code, [Numeric(opcode)], Shape([], exited));
      NumericCheck(m, l.types, result, opcode, EqZero(x), exited);
    } else {
      var w := ops[1];
      EmitCheck(m, result, f, l, w, [x], exited);
      OpcodeNames(op, x);
      var opcode := Opcode(op, x).value;
      assert [x] + [x] == [x, x];
      CheckAppend(m, l.types, result, code, EmitValue(l, w).value, Shape([], exited));
      CheckAppend(m, l.types, result, code + EmitValue(l, w).value, [Numeric(opcode)], Shape([], exited));
      NumericCheck(m, l.types, result, opcode, OperatorOf(op, x).value, exited);
    }
  }

  lemma EqzOpcode()
    ensures Decode(0x50) == Some(EqZero(I64)) && Decode(0x45) == Some(EqZero(I32))
  {
  }

  lemma CastCheck(m: Module, result: Option<ValType>, f: Function, l: Layout, ops: seq<ValueId>, from: Option<ValType>,
                  to: Option<ValType>, c: ValType, exited: bool)
    requires LayoutOk(f, l) && LowerCast(l, ops, from, to).Some?
    requires ValueClass(f, ops[0]).Some? && CastResult(from, to, ValueClass(f, ops[0]).value) == Some(c)
    ensures Check(m, l.types, result, LowerCast(l, ops, from, to).value, Shape([], exited))
            == if LongTruncation(from, to) then None else Some(Shape([c], exited))
  {
    hide LayoutOk;
    hide ValueClass;
    hide CheckInstr;
    var v := ops[0];
    EmitCheck(m, result, f, l, v, [], exited);
    var x := ValueClass(f, v).value;
    assert [] + [x] == [x];
    if !(from.None? || to.None? || from == to) {
      var opcode := CastOpcode(from.value, to.value).value;
      CastOpcodeNames(x, to.value);
      CheckAppend(m, l.types, result, EmitValue(l, v).value, [Numeric(opcode)], Shape([], exited));
      if LongTruncation(from, to) {
        WrongOperand(m, l.types, result, opcode, Decode(opcode).value, exited);
      } else {
        NumericCheck(m, l.types, result, opcode, Decode(opcode).value, exited);
      }
    }
  }

  /** An operand of another type is refused. */
  lemma WrongOperand(m: Module, locals: seq<ValType>, result: Option<ValType>, opcode: byte, op: Operator, exited: bool)
    requires Decode(opcode) == Some(op) && Operands(op) == [F32]
    ensures Check(m, locals, result, [Numeric(opcode)], Shape([F64], exited)) == None
  {
    hide Decode;
    Check1(m, locals, result, Numeric(opcode), Shape([F64], exited));
    assert Pop(Shape([F64], exited), [F32]) == None;
  }

  lemma CastOpcodeNames(from: ValType, to: ValType)
    requires from != to && CastResult(Some(from), Some(to), from).Some? && CastOpcode(from, to).Some?
    ensures CastResult(Some(from), Some(to), from) == Some(to)
    ensures var d := Decode(CastOpcode(from, to).value);
            && d.Some? && ResultOf(d.value) == to
            && Operands(d.value) == if LongTruncation(Some(from), Some(to)) then [F32] else [from]
  {
  }

  lemma NothingCheck(m: Module, locals: seq<ValType>, result: Option<ValType>, s: Shape)
    ensures Check(m, locals, result, [], s) == Some(s)
  {
  }

  lemma AddressCheck(m: Module, locals: seq<ValType>, result: Option<ValType>, at: nat, exited: bool)
    requires at < 0x8000_0000
    ensures CheckInstr(m, locals, result, I32Const(at), Shape([], exited)) == Some(Shape([I32], exited))
  {
    assert [] + [I32] == [I32];
  }

  lemma LoadIs(m: Module, locals: seq<ValType>, result: Option<ValType>, c: ValType)
    ensures forall s: Shape :: CheckInstr(m, locals, result, ILoad(c, AlignOf(c), 0), s) == PopPush(s, [I32], [c])
  {
  }

  lemma LoadCheck(m: Module, locals: seq<ValType>, result: Option<ValType>, i: Instr, at: Option<nat>, exited: bool)
    requires LowerGlobalLoad(at, i).Some?
    ensures Check(m, locals, result, LowerGlobalLoad(at, i).value, Shape([], exited))
            == Some(Shape(ClassStack(TypeToVal(i.ty)), exited))
  {
    hide CheckInstr;
    hide Check;
    if TypeToVal(i.ty).None? {
      NothingCheck(m, locals, result, Shape([], exited));
    } else {
      AddressCheck(m, locals, result, at.value, exited);
      LoadIs(m, locals, result, TypeToVal(i.ty).value);
      var c := TypeToVal(i.ty).value;
      var load := ILoad(c, AlignOf(c), 0);
      CheckAppend(m, locals, result, [I32Const(at.value)], [load], Shape([], exited));
      Check1(m, locals, result, I32Const(at.value), Shape([], exited));
      PushCheck(m, locals, result, load, [I32], [c], exited);
      assert [I32Const(at.value)] + [load] == [I32Const(at.value), load];
    }
  }

  lemma WriteCheck(m: Module, locals: seq<ValType>, result: Option<ValType>, c: ValType, exited: bool)
    ensures Check(m, locals, result, [IStore(c, AlignOf(c), 0)], Shape([I32, c], exited)) == Some(Shape([], exited))
  {
    Check1(m, locals, result, IStore(c, AlignOf(c), 0), Shape([I32, c], exited));
    assert [] + [I32, c] == [I32, c];
    PopPushed([], [I32, c], exited);
  }

  lemma StoreCheck(m: Module, result: Option<ValType>, f: Function, l: Layout, i: Instr, at: Option<nat>,
                   ops: seq<ValueId>, exited: bool)
    requires LayoutOk(f, l) && LowerGlobalStore(at, l, f, i, ops).Some?
    requires TypeToVal(i.ty).None? || TypeToVal(i.ty) == ValueClass(f, ops[0])
    ensures Check(m, l.types, result, LowerGlobalStore(at, l, f, i, ops).value, Shape([], exited))
            == Some(Shape(ClassStack(TypeToVal(i.ty)), exited))
  {
    hide LayoutOk;
    hide ValueClass;
    hide Check;
    hide CheckInstr;
    hide EmitValue;
    var v := ops[0];
    var code := EmitValue(l, v).value;
    EmitCheck(m, result, f, l, v, [I32], exited);
    EmitCheck(m, result, f, l, v, [], exited);
    var c := ValueClass(f, v).value;
    var address, store := I32Const(at.value), IStore(c, AlignOf(c), 0);
    AddressCheck(m, l.types, result, at.value, exited);
    Check1(m, l.types, result, address, Shape([], exited));
    CheckAppend(m, l.types, result, [address], code, Shape([], exited));
    CheckAppend(m, l.types, result, [address] + code, [store], Shape([], exited));
    WriteCheck(m, l.types, result, c, exited);
    assert [I32] + [c] == [I32, c];
    var all := [address] + code + [store];
    if TypeToVal(i.ty).Some? {
      CheckAppend(m, l.types, result, all, code, Shape([], exited));
      assert [] + [c] == [c];
    } else {
      assert all + [] == all;
    }
  }

  lemma BuiltinCheck(m: ModuleCtx, prog: Program, wm: Module, locals: seq<ValType>, result: Option<ValType>, index: nat,
                     exited: bool)
    requires CtxOk(m, prog) && ModuleFor(m, prog, wm) && (index == PRINT_INT || index == PRINT_STRING)
    ensures Check(wm, locals, result, [ICall(index)], Shape([I32], exited)) == Some(Shape([], exited))
  {
    assert wm.imports[index] == BUILTIN_IMPORTS[index];
    assert wm.types[0] == INITIAL_TYPES[0];
    assert TypeOfFunc(wm, index) == Some(FuncType([I32], None));
    PushCheck(wm, locals, result, ICall(index), [I32], [], exited);
  }

  lemma PrintCheck(m: ModuleCtx, prog: Program, wm: Module, result: Option<ValType>, f: Function, l: Layout,
                   ops: seq<ValueId>, exited: bool)
    requires CtxOk(m, prog) && ModuleFor(m, prog, wm) && LayoutOk(f, l) && LowerPrint(l, f, ops).Some?
    requires ops[0] < |f.valueTypes| && IsString(f.valueTypes[ops[0]]) ==> ValueClass(f, ops[0]) == Some(I32)
    ensures Check(wm, l.types, result, LowerPrint(l, f, ops).value, Shape([], exited)) == Some(Shape([], exited))
  {
    hide LayoutOk;
    hide ValueClass;
    hide CtxOk;
    hide ModuleFor;
    hide CheckInstr;
    hide EmitValue;
    var v := ops[0];
    EmitCheck(wm, result, f, l, v, [], exited);
    var c, code := ValueClass(f, v).value, EmitValue(l, v).value;
    assert [] + [c] == [c];
    BuiltinCheck(m, prog, wm, l.types, result, PRINT_INT, exited);
    BuiltinCheck(m, prog, wm, l.types, result, PRINT_STRING, exited);
    if ops[0] < |f.valueTypes| && IsString(f.valueTypes[ops[0]]) {
      CheckAppend(wm, l.types, result, code, [ICall(PRINT_STRING)], Shape([], exited));
    } else if c == I64 {
      assert Decode(0xa7) == Some(Wrap64);
      NumericCheck(wm, l.types, result, 0xa7, Wrap64, exited);
      CheckAppend(wm, l.types, result, code, [Numeric(0xa7)], Shape([], exited));
      CheckAppend(wm, l.types, result, code + [Numeric(0xa7)], [ICall(PRINT_INT)], Shape([], exited));
      assert code + [Numeric(0xa7), ICall(PRINT_INT)] == code + [Numeric(0xa7)] + [ICall(PRINT_INT)];
    } else {
      CheckAppend(wm, l.types, result, code, [ICall(PRINT_INT)], Shape([], exited));
    }
  }

  lemma {:induction false} ArgsCheck(wm: Module, result: Option<ValType>, f: Function, l: Layout, params: seq<Param>,
                                     ops: seq<ValueId>, stack: seq<ValType>, exited: bool)
    requires LayoutOk(f, l) && ArgumentsOk(f, params, ops) && EmitOperands(l, f, params, ops).Some?
    ensures Check(wm, l.types, result, EmitOperands(l, f, params, ops).value, Shape(stack, exited))
            == Some(Shape(stack + ParamTypes(params), exited))
    decreases |ops|
  {
    hide LayoutOk;
    hide ValueClass;
    hide EmitValue;
    hide Check;
    hide ParamTypes;
    hide ArgumentOk;
    if ops == [] {
      NoParams();
      Check0(wm, l.types, result, Shape(stack, exited));
      assert stack + [] == stack;
    } else {
      assert ArgumentOk(f, params[0], ops[0]);
      RestArguments(f, params, ops);
      if LoweredParam(params[0]).None? {
        SkippedOperand(l, f, params, ops);
        SkippedType(params);
        ArgsCheck(wm, result, f, l, params[1..], ops[1..], stack, exited);
      } else {
        EmittedOperand(l, f, params, ops);
        var c := LoweredParam(params[0]).value;
        EmitCheck(wm, result, f, l, ops[0], stack, exited);
        ArgsCheck(wm, result, f, l, params[1..], ops[1..], stack + [c], exited);
        CheckAppend(wm, l.types, result, EmitValue(l, ops[0]).value, EmitOperands(l, f, params[1..], ops[1..]).value,
                    Shape(stack, exited));
        Pushed(stack, c, params);
      }
    }
  }

  lemma SkippedType(params: seq<Param>)
    requires params != [] && LoweredParam(params[0]).None?
    ensures ParamTypes(params) == ParamTypes(params[1..])
  {
  }

  lemma NoParams()
    ensures ParamTypes([]) == []
  {
  }

  lemma Pushed(stack: seq<ValType>, c: ValType, params: seq<Param>)
    requires params != [] && LoweredParam(params[0]) == Some(c)
    ensures stack + [c] + ParamTypes(params[1..]) == stack + ParamTypes(params)
  {
    var rest := ParamTypes(params[1..]);
    assert ParamTypes(params) == [c] + rest;
    assert stack + [c] + rest == stack + ([c] + rest);
  }

  lemma CallCheck(m: ModuleCtx, prog: Program, wm: Module, result: Option<ValType>, f: Function, l: Layout, i: Instr,
                  exited: bool)
    requires CtxOk(m, prog) && ModuleFor(m, prog, wm) && LayoutOk(f, l)
    requires i.action.Call? && CallOk(f, prog, m, i.action, TypeToVal(i.ty)) && LowerCall(m, prog, l, f, i.action).Some?
    ensures Check(wm, l.types, result, LowerCall(m, prog, l, f, i.action).value, Shape([], exited))
            == Some(Shape(ClassStack(TypeToVal(i.ty)), exited))
  {
    hide CtxOk;
    hide ModuleFor;
    hide LayoutOk;
    hide LowerCall;
    hide LookupId;
    hide EmitOperands;
    hide ParamTypes;
    hide ResultType;
    hide ArgumentsOk;
    hide TypeOfFunc;
    CallLowered(f, prog, m, wm, l, i);
    var callee := prog.fns[DirectTarget(f, i.action).value];
    var index := LookupId(m, DirectTarget(f, i.action).value).value.funcIndex;
    var ts := ParamTypes(callee.params);
    ArgsCheck(wm, result, f, l, callee.params, i.action.operands, [], exited);
    CheckAppend(wm, l.types, result, EmitOperands(l, f, callee.params, i.action.operands).value, [ICall(index)],
                Shape([], exited));
    assert [] + ts == ts;
    PushCheck(wm, l.types, result, ICall(index), ts, ResultSeq(ResultType(callee)), exited);
  }

  lemma CopyCheck(m: Module, result: Option<ValType>, f: Function, l: Layout, v: ValueId, exited: bool)
    requires LayoutOk(f, l) && EmitValue(l, v).Some?
    ensures ValueClass(f, v).Some?
    ensures Check(m, l.types, result, EmitValue(l, v).value, Shape([], exited))
            == Some(Shape([ValueClass(f, v).value], exited))
    ensures Check(m, l.types, result, EmitValue(l, v).value + [IDrop], Shape([], exited)) == Some(Shape([], exited))
  {
    hide LayoutOk;
    hide ValueClass;
    hide EmitValue;
    EmitCheck(m, result, f, l, v, [], exited);
    var c := ValueClass(f, v).value;
    assert [] + [c] == [c];
    CheckAppend(m, l.types, result, EmitValue(l, v).value, [IDrop], Shape([], exited));
    Check1(m, l.types, result, IDrop, Shape([c], exited));
    assert [c][..0] == [];
  }

  lemma FnRefCheck(m: Module, locals: seq<ValType>, result: Option<ValType>, exited: bool)
    ensures Check(m, locals, result, [I32Const(0)], Shape([], exited)) == Some(Shape([I32], exited))
    ensures Check(m, locals, result, [], Shape([], exited)) == Some(Shape([], exited))
  {
    Check1(m, locals, result, I32Const(0), Shape([], exited));
    assert [] + [I32] == [I32];
  }

  /** Every action finds operands of the right types and leaves exactly its value, but for the truncation of a
      64-bit float to a 64-bit integer, which is refused. */
  lemma ActionCheck(m: ModuleCtx, prog: Program, wm: Module, result: Option<ValType>, ieee: Ieee, f: Function,
                    l: Layout, i: Instr, at: Option<nat>, exited: bool)
    requires CtxOk(m, prog) && ModuleFor(m, prog, wm) && LayoutOk(f, l)
    requires InstrOk(f, prog, m, i) && StoreResult(l, i).Some? && LowerAction(ieee, m, prog, l, f, i, at).Some?
    ensures Check(wm, l.types, result, LowerAction(ieee, m, prog, l, f, i, at).value, Shape([], exited))
            == if Truncates(i) then None else Some(Shape(ClassStack(TypeToVal(i.ty)), exited))
  {
    hide CtxOk;
    hide ModuleFor;
    hide LayoutOk;
    hide ValueClass;
    hide ResultOk;
    hide LowerConst;
    hide LowerPrimitive;
    hide LowerCast;
    hide LowerPrint;
    hide LowerGlobalLoad;
    hide LowerGlobalStore;
    hide LowerCall;
    hide EmitValue;
    hide Check;
    hide CallTyped;
    hide CallKnown;
    match i.action
    case Const(k) => ConstCheck(wm, result, ieee, f, l, i, k, exited);
    case Primitive(op, ops) =>
      OperandCounts(l, f, op, ops);
      PrimitiveCheck(wm, result, f, l, op, ops, TypeToVal(i.ty).value, exited);
    case GlobalLoad(_) => LoadCheck(wm, l.types, result, i, at, exited);
    case GlobalStore(_, ops) =>
      StoreCount(at, l, f, i, ops);
      StoreCheck(wm, result, f, l, i, at, ops, exited);
    case Cast(ops, from, to) =>
      CastCount(l, ops, TypeToVal(from), TypeToVal(to));
      CastCheck(wm, result, f, l, ops, TypeToVal(from), TypeToVal(to), TypeToVal(i.ty).value, exited);
    case Dup(ops) => CopyCheck(wm, result, f, l, ops[0], exited);
    case Drop(ops) => CopyCheck(wm, result, f, l, ops[0], exited);
    case Print(ops) =>
      PrintCount(l, f, ops);
      PrintCheck(m, prog, wm, result, f, l, ops, exited);
    case Flush => FnRefCheck(wm, l.types, result, exited);
    case FnRef(_, _) => FnRefCheck(wm, l.types, result, exited);
    case Call(_, _, _, _, _) => CallCheck(m, prog, wm, result, f, l, i, exited);
    case Unsupported =>
  }

  lemma OperandCounts(l: Layout, f: Function, op: PrimOp, ops: seq<ValueId>)
    requires LowerPrimitive(l, f, op, ops).Some?
    ensures |ops| == (if op == LNOT then 1 else 2)
  {
  }

  lemma StoreCount(at: Option<nat>, l: Layout, f: Function, i: Instr, ops: seq<ValueId>)
    requires LowerGlobalStore(at, l, f, i, ops).Some?
    ensures |ops| == 1
  {
  }

  lemma CastCount(l: Layout, ops: seq<ValueId>, from: Option<ValType>, to: Option<ValType>)
    requires LowerCast(l, ops, from, to).Some?
    ensures |ops| == 1
  {
  }

  lemma PrintCount(l: Layout, f: Function, ops: seq<ValueId>)
    requires LowerPrint(l, f, ops).Some?
    ensures |ops| == 1
  {
  }

  /** After the code of an instruction the stack is back to its height; a truncation to 64 bits is refused. */
  lemma InstrCheck(m: ModuleCtx, prog: Program, wm: Module, result: Option<ValType>, ieee: Ieee, f: Function, l: Layout,
                   i: Instr, at: Option<nat>, exited: bool)
    requires CtxOk(m, prog) && ModuleFor(m, prog, wm) && LayoutOk(f, l)
    requires InstrOk(f, prog, m, i) && LowerInstrAt(ieee, m, prog, l, f, i, at).Some?
    ensures Check(wm, l.types, result, LowerInstrAt(ieee, m, prog, l, f, i, at).value, Shape([], exited))
            == if Truncates(i) then None else Some(Shape([], exited))
  {
    hide CtxOk;
    hide ModuleFor;
    hide ActionOk;
    hide Truncates;
    hide LowerAction;
    hide StoreResult;
    hide Check;
    hide LayoutOk;
    hide ResultOk;
    hide ClassStack;
    ActionCheck(m, prog, wm, result, ieee, f, l, i, at, exited);
    var code, setter := LowerAction(ieee, m, prog, l, f, i, at).value, StoreResult(l, i).value;
    CheckAppend(wm, l.types, result, code, setter, Shape([], exited));
    ResultCheck(wm, result, f, l, i, exited);
  }

  /** The value of an instruction is taken off the stack. */
  lemma ResultCheck(wm: Module, result: Option<ValType>, f: Function, l: Layout, i: Instr, exited: bool)
    requires LayoutOk(f, l) && ResultOk(f, i) && StoreResult(l, i).Some?
    ensures Check(wm, l.types, result, StoreResult(l, i).value, Shape(ClassStack(TypeToVal(i.ty)), exited))
            == Some(Shape([], exited))
  {
    hide ValueClass;
    hide Pop;
    hide Check;
    Check0(wm, l.types, result, Shape([], exited));
    if i.result.Some? {
      assert LayoutProofs.SlotOk(f, l, i.result.value);
      if TypeToVal(i.ty).Some? {
        var n, c := l.slots[i.result.value].local, TypeToVal(i.ty).value;
        Check1(wm, l.types, result, LocalSet(n), Shape([c], exited));
        assert [] + [c] == [c];
        PopPushed([], [c], exited);
      }
    }
  }

  lemma Check0(m: Module, locals: seq<ValType>, result: Option<ValType>, s: Shape)
    ensures Check(m, locals, result, [], s) == Some(s)
  {
  }

  lemma {:induction false} InstrsCheck(m: ModuleCtx, prog: Program, wm: Module, result: Option<ValType>, ieee: Ieee,
                                       f: Function, l: Layout, instrs: seq<Instr>, slots: map<string, nat>,
                                       exited: bool)
    requires CtxOk(m, prog) && ModuleFor(m, prog, wm) && LayoutOk(f, l)
    requires InstrsOk(f, prog, m, instrs) && CodeOfInstrs(ieee, m, prog, l, f, instrs, slots).Some?
    ensures Check(wm, l.types, result, CodeOfInstrs(ieee, m, prog, l, f, instrs, slots).value, Shape([], exited))
            == if Truncating(instrs) then None else Some(Shape([], exited))
    decreases |instrs|
  {
    hide CtxOk;
    hide ModuleFor;
    hide LayoutOk;
    hide InstrOk;
    hide LowerInstrAt;
    hide Truncates;
    if instrs != [] {
      var i := instrs[0];
      assert instrs == [i] + instrs[1..];
      TruncatingJoin([i], instrs[1..]);
      assert Truncating([i]) == Truncates([i][0]);
      var at := AddressIn(slots, i.action);
      InstrCheck(m, prog, wm, result, ieee, f, l, i, at, exited);
      InstrsCheck(m, prog, wm, result, ieee, f, l, instrs[1..], slots, exited);
      CheckAppend(wm, l.types, result, LowerInstrAt(ieee, m, prog, l, f, i, at).value,
                  CodeOfInstrs(ieee, m, prog, l, f, instrs[1..], slots).value, Shape([], exited));
    }
  }

  /** A terminator finds the results; after it the stack is empty, and after a return anything may follow. */
  lemma TermCheck(wm: Module, f: Function, l: Layout, term: Terminator, exited: bool)
    requires LayoutOk(f, l) && TermOk(f, term) && LowerTerm(l, term, ResultType(f).Some?).Some?
    ensures Check(wm, l.types, ResultType(f), LowerTerm(l, term, ResultType(f).Some?).value, Shape([], exited))
            == Some(Shape([], exited || !term.NoTerm?))
    ensures term.NoTerm? ==> ResultType(f).None?
  {
    hide LayoutOk;
    hide ValueClass;
    hide ResultType;
    var r := ResultType(f);
    match term
    case NoTerm =>
    case Return(v) =>
      if r.Some? {
        EmitCheck(wm, r, f, l, v, [], exited);
        assert [] + [r.value] == [r.value];
        CheckAppend(wm, l.types, r, EmitValue(l, v).value, [IReturn], Shape([], exited));
        Check1(wm, l.types, r, IReturn, Shape([r.value], exited));
        PopPushed([], [r.value], exited);
      } else {
        Check1(wm, l.types, r, IReturn, Shape([], exited));
      }
    case Unreachable => Check1(wm, l.types, r, IUnreachable, Shape([], exited));
    case Branching =>
  }

  ghost predicate BlocksOk(f: Function, prog: Program, m: ModuleCtx, blocks: seq<Block>) {
    forall b :: 0 <= b < |blocks| ==> InstrsOk(f, prog, m, blocks[b].instrs) && TermOk(f, blocks[b].term)
  }

  lemma {:induction false} BlocksCheck(m: ModuleCtx, prog: Program, wm: Module, ieee: Ieee, f: Function, l: Layout,
                                       blocks: seq<Block>, slots: map<string, nat>, exited: bool) returns (end: bool)
    requires CtxOk(m, prog) && ModuleFor(m, prog, wm) && LayoutOk(f, l)
    requires BlocksOk(f, prog, m, blocks) && CodeOfBlocks(ieee, m, prog, l, f, blocks, slots).Some?
    ensures Check(wm, l.types, ResultType(f), CodeOfBlocks(ieee, m, prog, l, f, blocks, slots).value, Shape([], exited))
            == if Truncating(InstrsOf(blocks)) then None else Some(Shape([], end))
    ensures end || (ResultType(f).None? || (blocks == [] && !exited))
    decreases |blocks|
  {
    hide CtxOk;
    hide ModuleFor;
    hide LayoutOk;
    hide InstrsOk;
    hide TermOk;
    hide LowerTerm;
    hide CodeOfInstrs;
    hide ResultType;
    hide CheckInstr;
    hide Truncating;
    if blocks == [] {
      NothingTruncates();
      end := exited;
    } else {
      var r, b := ResultType(f), blocks[0];
      TruncatingJoin(b.instrs, InstrsOf(blocks[1..]));
      InstrsCheck(m, prog, wm, r, ieee, f, l, b.instrs, slots, exited);
      TermCheck(wm, f, l, b.term, exited);
      assert BlocksOk(f, prog, m, blocks[1..]);
      end := BlocksCheck(m, prog, wm, ieee, f, l, blocks[1..], slots, exited || !b.term.NoTerm?);
      var instrs := CodeOfInstrs(ieee, m, prog, l, f, b.instrs, slots).value;
      var term := LowerTerm(l, b.term, r.Some?).value;
      var rest := CodeOfBlocks(ieee, m, prog, l, f, blocks[1..], slots).value;
      CheckAppend(wm, l.types, r, instrs, term, Shape([], exited));
      CheckAppend(wm, l.types, r, instrs + term, rest, Shape([], exited));
    }
  }

  lemma NothingTruncates()
    ensures !Truncating([])
  {
  }

  /** The body emitted for a well-typed function validates at the function's type exactly if no block of the
      function truncates a 64-bit float to a 64-bit integer. */
  lemma BodyValid(m: ModuleCtx, prog: Program, wm: Module, ieee: Ieee, f: Function, slots: map<string, nat>, body: Body)
    requires CtxOk(m, prog) && ModuleFor(m, prog, wm)
    requires FunctionOk(prog, m, f) && BodyFor(ieee, m, prog, f, slots, body)
    ensures ValidBody(wm, TypeOfFunction(f), body) <==> !Truncating(InstrsOf(f.blocks))
  {
    hide Truncating;
    hide CtxOk;
    hide ModuleFor;
    hide LayoutOk;
    hide LayoutOf;
    hide InstrsOk;
    hide TermOk;
    hide ParamTypes;
    hide ResultType;
    hide CodeOfBlocks;
    hide Check;
    hide ParamsOk;
    hide DefinedBefore;
    hide Placed;
    LayoutCorrect(prog, m, f);
    var l := LayoutOf(f).value;
    forall b | 0 <= b < |f.blocks| ensures InstrsOk(f, prog, m, f.blocks[b].instrs) && TermOk(f, f.blocks[b].term) {
      BlockOk(prog, m, f, b);
    }
    var end := BlocksCheck(m, prog, wm, ieee, f, l, f.blocks, slots, false);
    assert ParamTypes(f.params) + body.locals == l.types;
    PopEnd(ResultType(f), end);
  }

  lemma PopEnd(r: Option<ValType>, end: bool)
    requires end || r.None?
    ensures Pop(Shape([], end), ResultSeq(r)).Some? && Pop(Shape([], end), ResultSeq(r)).value.stack == []
  {
  }

  lemma {:induction false} LookupNameIndex(defs: seq<FuncDef>, prog: Program, name: string) returns (k: nat)
    requires FindByName(defs, prog, name).Some?
    ensures k < |defs| && FindByName(defs, prog, name) == Some(defs[k])
  {
    if defs[0].fn < |prog.fns| && prog.fns[defs[0].fn].name == name {
      k := 0;
    } else {
      k := LookupNameIndex(defs[1..], prog, name);
      k := k + 1;
    }
  }

  /** The exported index names a function. */
  lemma EntryInRange(m: ModuleCtx, prog: Program)
    requires CtxOk(m, prog) && Entry(m, prog).Some?
    ensures Entry(m, prog).value < BUILTINS + |m.imports| + |m.defs|
  {
    if FindByName(m.imports, prog, TOP).Some? {
      var k := LookupNameIndex(m.imports, prog, TOP);
      assert DefOk(m, prog, m.imports[k], BUILTINS + k, true);
    } else if FindByName(m.defs, prog, TOP).Some? {
      var k := LookupNameIndex(m.defs, prog, TOP);
      assert DefOk(m, prog, m.defs[k], BUILTINS + |m.imports| + k, false);
    } else {
      assert DefOk(m, prog, m.defs[0], BUILTINS + |m.imports| + 0, false);
    }
  }
}
