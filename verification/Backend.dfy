/** The backend as it runs: function and module contexts updated in place, bytes pushed one by one.
    Each method is tied to the function of `Lowering` or `ModuleBytes` that says what it produces. */
module Backend {
  import opened Wrappers
  import opened Bits
  import opened Leb128
  import opened Mir
  import opened MirEval
  import opened Wasm
  import opened Globals
  import opened Lowering
  import opened WasmBuffer
  import opened ModuleBytes

  /** The bound of a `uint32_t`: counts and indices are 32-bit counters. */
  const LIMIT: nat := 0x1_0000_0000

  lemma {:induction false} EncodeAppend(a: Code, b: Code)
    ensures EncodeCode(a + b) == EncodeCode(a) + EncodeCode(b)
    decreases |a|
  {
    hide EncodeInstr;
    if a == [] {
      assert a + b == b;
    } else {
      assert (a + b)[0] == a[0] && (a + b)[1..] == a[1..] + b;
      EncodeAppend(a[1..], b);
    }
  }

  lemma EncodeOne(i: Instruction)
    ensures EncodeCode([i]) == EncodeInstr(i)
  {
    hide EncodeInstr;
    assert [i][1..] == [];
  }

  lemma {:induction false} InstrsOfSplit(blocks: seq<Block>)
    requires blocks != []
    ensures InstrsOf(blocks) == blocks[0].instrs + InstrsOf(blocks[1..])
  {
  }

  /** Indices and alignments of an instruction fit 32 bits. */
  predicate InRange(i: Instruction) {
    match i
    case ICall(n) => n < LIMIT
    case LocalGet(n) => n < LIMIT
    case LocalSet(n) => n < LIMIT
    case ILoad(_, align, _) => align < LIMIT
    case IStore(_, align, _) => align < LIMIT
    case _ => true
  }

  /** An opcode and its immediates. */
  method Emit(i: Instruction, code: WasmBuf)
    requires code.Valid() && InRange(i)
    modifies code, code.data
    ensures code.Valid() && (code.data == old(code.data) || fresh(code.data))
    ensures code.Contents() == old(code.Contents()) + EncodeCode([i])
  {
    hide EncodeU;
    hide EncodeS;
    hide LittleEndian;
    EncodeOne(i);
    ghost var was := code.Contents();
    match i {
      case IUnreachable => code.Push(0x00);
      case IReturn => code.Push(0x0f);
      case ICall(n) => EmitIndex(0x10, n, code);
      case IDrop => code.Push(0x1a);
      case LocalGet(n) => EmitIndex(0x20, n, code);
      case LocalSet(n) => EmitIndex(0x21, n, code);
      case ILoad(c, align, offset) => EmitMemory(LoadOpcode(c), align, offset, code);
      case IStore(c, align, offset) => EmitMemory(StoreOpcode(c), align, offset, code);
      case I32Const(k) => EmitConst(0x41, k, code);
      case I64Const(k) => EmitConst(0x42, k, code);
      case F32Const(b) => EmitBytes(0x43, LittleEndian(b, 4), code);
      case F64Const(b) => EmitBytes(0x44, LittleEndian(b, 8), code);
      case Numeric(opcode) => code.Push(opcode);
    }
  }

  method EmitIndex(opcode: byte, n: nat, code: WasmBuf)
    requires code.Valid() && n < LIMIT
    modifies code, code.data
    ensures code.Valid() && (code.data == old(code.data) || fresh(code.data))
    ensures code.Contents() == old(code.Contents()) + ([opcode] + EncodeU(n))
  {
    code.Push(opcode);
    code.LebU32(n);
    assert old(code.Contents()) + [opcode] + EncodeU(n) == old(code.Contents()) + ([opcode] + EncodeU(n));
  }

  method EmitConst(opcode: byte, k: int, code: WasmBuf)
    requires code.Valid()
    modifies code, code.data
    ensures code.Valid() && (code.data == old(code.data) || fresh(code.data))
    ensures code.Contents() == old(code.Contents()) + ([opcode] + EncodeS(k))
  {
    code.Push(opcode);
    code.LebS(k);
    assert old(code.Contents()) + [opcode] + EncodeS(k) == old(code.Contents()) + ([opcode] + EncodeS(k));
  }

  method EmitBytes(opcode: byte, bytes: seq<byte>, code: WasmBuf)
    requires code.Valid()
    modifies code, code.data
    ensures code.Valid() && (code.data == old(code.data) || fresh(code.data))
    ensures code.Contents() == old(code.Contents()) + ([opcode] + bytes)
  {
    code.Push(opcode);
    code.PushAll(bytes);
    assert old(code.Contents()) + [opcode] + bytes == old(code.Contents()) + ([opcode] + bytes);
  }

  method EmitMemory(opcode: byte, align: nat, offset: nat, code: WasmBuf)
    requires code.Valid() && align < LIMIT && offset < LIMIT
    modifies code, code.data
    ensures code.Valid() && (code.data == old(code.data) || fresh(code.data))
    ensures code.Contents() == old(code.Contents()) + ([opcode] + (EncodeU(align) + EncodeU(offset)))
  {
    code.Push(opcode);
    code.LebU32(align);
    code.LebU32(offset);
    assert old(code.Contents()) + [opcode] + EncodeU(align) + EncodeU(offset)
        == old(code.Contents()) + ([opcode] + (EncodeU(align) + EncodeU(offset)));
  }

  lemma NoCode()
    ensures EncodeCode([]) == []
  {
  }

  /** Bytes appended twice are the bytes of the code appended once. */
  lemma Appended(start: seq<byte>, a: Code, b: Code)
    ensures start + EncodeCode(a) + EncodeCode(b) == start + EncodeCode(a + b)
  {
    EncodeAppend(a, b);
    assert start + EncodeCode(a) + EncodeCode(b) == start + (EncodeCode(a) + EncodeCode(b));
  }

  /** `YwFnCtx` */
  class FnCtx {
    const fn: Function
    var slots: seq<Slot>
    var localTypes: seq<ValType>
    var paramCount: nat

    ghost function State(): Layout
      reads this
    {
      Layout(slots, localTypes, paramCount)
    }

    ghost predicate Valid()
      reads this
    {
      && |localTypes| < LIMIT
      && paramCount <= |localTypes|
      && forall v :: 0 <= v < |slots| && slots[v].InLocal? ==> slots[v].local < |localTypes|
    }

    constructor (f: Function)
      ensures Valid() && fn == f && State() == EmptyLayout(|f.valueTypes|)
    {
      fn := f;
      slots := seq(|f.valueTypes|, _ => Pending);
      localTypes := [];
      paramCount := 0;
    }

    /** `yw_fn_alloc_local` */
    method AllocLocal(c: ValType) returns (index: nat)
      requires Valid() && |localTypes| + 1 < LIMIT
      modifies this`localTypes
      ensures Valid() && index == |old(localTypes)| && localTypes == old(localTypes) + [c]
    {
      index := |localTypes|;
      localTypes := localTypes + [c];
    }

    /** The parameters of `yw_fn_ctx_init`. */
    method InitParams() returns (ok: bool)
      requires Valid() && |localTypes| + |fn.params| < LIMIT
      modifies this
      ensures Valid()
      ensures ok == AddParams(old(State()), fn.params).Some?
      ensures ok ==> State() == AddParams(old(State()), fn.params).value
      ensures |localTypes| <= |old(localTypes)| + |fn.params|
    {
      for i := 0 to |fn.params|
        invariant Valid() && |localTypes| <= |old(localTypes)| + i
        invariant AddParams(State(), fn.params[i..]) == AddParams(old(State()), fn.params)
      {
        var p := fn.params[i];
        assert fn.params[i..][0] == p && fn.params[i..][1..] == fn.params[i + 1..];
        var c := LoweredParam(p);
        if c.None? {
          if p.value < |slots| && (p.ty.kind == KVoid || IsEnv(p)) {
            slots := slots[p.value := Void];
          }
        } else {
          if p.value >= |slots| {
            return false;
          }
          var index := AllocLocal(c.value);
          slots := slots[p.value := InLocal(index)];
          paramCount := paramCount + 1;
        }
      }
      ok := true;
    }

    /** One instruction of `yw_declare_instr_locals`. */
    method DeclareInstrLocal(i: Instr) returns (ok: bool)
      requires Valid() && |localTypes| + 1 < LIMIT
      modifies this
      ensures Valid() && |localTypes| <= |old(localTypes)| + 1
      ensures ok == DeclareInstr(old(State()), i).Some?
      ensures ok ==> State() == DeclareInstr(old(State()), i).value
    {
      if i.result.None? {
        return true;
      }
      var v := i.result.value;
      if v >= |slots| {
        return false;
      }
      if slots[v] != Pending {
        return true;
      }
      var c := TypeToVal(i.ty);
      if c.None? {
        slots := slots[v := Void];
        return true;
      }
      var index := AllocLocal(c.value);
      slots := slots[v := InLocal(index)];
      return true;
    }

    /** `yw_declare_instr_locals` */
    method DeclareInstrLocals() returns (ok: bool)
      requires Valid() && |localTypes| + |InstrsOf(fn.blocks)| < LIMIT
      modifies this
      ensures Valid()
      ensures ok == DeclareInstrs(old(State()), InstrsOf(fn.blocks)).Some?
      ensures ok ==> State() == DeclareInstrs(old(State()), InstrsOf(fn.blocks)).value
    {
      hide DeclareInstr;
      hide InstrsOf;
      var b := 0;
      assert fn.blocks[0..] == fn.blocks;
      while b < |fn.blocks|
        invariant 0 <= b <= |fn.blocks| && Valid()
        invariant |localTypes| + |InstrsOf(fn.blocks[b..])| < LIMIT
        invariant DeclareInstrs(State(), InstrsOf(fn.blocks[b..])) == DeclareInstrs(old(State()), InstrsOf(fn.blocks))
      {
        var block := fn.blocks[b];
        ghost var later := InstrsOf(fn.blocks[b + 1..]);
        InstrsOfSplit(fn.blocks[b..]);
        assert fn.blocks[b..][1..] == fn.blocks[b + 1..];
        var i := 0;
        assert block.instrs[0..] == block.instrs;
        while i < |block.instrs|
          invariant 0 <= i <= |block.instrs| && Valid()
          invariant |localTypes| + |block.instrs[i..] + later| < LIMIT
          invariant DeclareInstrs(State(), block.instrs[i..] + later)
                    == DeclareInstrs(old(State()), InstrsOf(fn.blocks))
        {
          ghost var rest := block.instrs[i..] + later;
          assert rest[0] == block.instrs[i] && rest[1..] == block.instrs[i + 1..] + later;
          var declared := DeclareInstrLocal(block.instrs[i]);
          if !declared {
            return false;
          }
          i := i + 1;
        }
        assert block.instrs[i..] + later == later;
        b := b + 1;
      }
      NoInstrs();
      assert fn.blocks[b..] == [];
      ok := true;
    }

    /** `yw_emit_value` */
    method EmitValue(v: ValueId, code: WasmBuf) returns (ok: bool)
      requires Valid() && code.Valid()
      modifies code, code.data
      ensures code.Valid() && (code.data == old(code.data) || fresh(code.data))
      ensures ok == Lowering.EmitValue(State(), v).Some?
      ensures ok ==> code.Contents() == old(code.Contents()) + EncodeCode(Lowering.EmitValue(State(), v).value)
    {
      if v >= |slots| || !slots[v].InLocal? {
        return false;
      }
      Emit(LocalGet(slots[v].local), code);
      ok := true;
    }

    /** `yw_emit_result_store` */
    method EmitResultStore(i: Instr, code: WasmBuf) returns (ok: bool)
      requires Valid() && code.Valid()
      modifies code, code.data
      ensures code.Valid() && (code.data == old(code.data) || fresh(code.data))
      ensures ok == StoreResult(State(), i).Some?
      ensures ok ==> code.Contents() == old(code.Contents()) + EncodeCode(StoreResult(State(), i).value)
    {
      if i.result.None? || i.result.value >= |slots| {
        NoCode();
        return true;
      }
      match slots[i.result.value] {
        case InLocal(n) =>
          Emit(LocalSet(n), code);
          ok := true;
        case Void =>
          NoCode();
          ok := true;
        case Pending => ok := false;
      }
    }

    /** `yw_lower_const` */
    method LowerConst(ieee: Ieee, i: Instr, k: Constant, code: WasmBuf) returns (ok: bool)
      requires Valid() && code.Valid()
      modifies code, code.data
      ensures code.Valid() && (code.data == old(code.data) || fresh(code.data))
      ensures ok == Lowering.LowerConst(ieee, State(), i, k).Some?
      ensures ok ==>
             code.Contents() == old(code.Contents()) + EncodeCode(Lowering.LowerConst(ieee, State(), i, k).value)
    {
      hide EncodeCode;
      var slot := if i.result.Some? && i.result.value < |slots| then slots[i.result.value] else Pending;
      var c := if slot.InLocal? then localTypes[slot.local] else I32;
      NoCode();
      if slot == Void {
        return true;
      }
      match k {
        case CInt(n) => Emit(I32Const(n), code);
        case CUint64(u) =>
          if c == I64 {
            Emit(I64Const(Signed64(u)), code);
          } else {
            Emit(I32Const(Signed32(u % 0x1_0000_0000)), code);
          }
        case CFloat(b) =>
          if c == F32 {
            Emit(F32Const(b), code);
          } else {
            Emit(F64Const(ieee.promote(b)), code);
          }
        case CDouble(b) => Emit(F64Const(b), code);
        case CBool(b) => Emit(I32Const(if b then 1 else 0), code);
        case CChar(ch) => Emit(I32Const(ch), code);
        case CVoid =>
        case CUndef =>
        case CString => return false;
      }
      ok := true;
    }

    /** `yw_lower_primitive` */
    method LowerPrimitive(op: PrimOp, ops: seq<ValueId>, code: WasmBuf) returns (ok: bool)
      requires Valid() && code.Valid()
      modifies code, code.data
      ensures code.Valid() && (code.data == old(code.data) || fresh(code.data))
      ensures ok == Lowering.LowerPrimitive(State(), fn, op, ops).Some?
      ensures ok ==>
             code.Contents() == old(code.Contents()) + EncodeCode(Lowering.LowerPrimitive(State(), fn, op, ops).value)
    {
      hide EncodeCode;
      hide Opcode;
      hide Lowering.EmitValue;
      ghost var start := code.Contents();
      if op == LNOT {
        if |ops| != 1 {
          return false;
        }
        var c := ValueTypeOf(ops[0]);
        if c.None? {
          return false;
        }
        var emitted := EmitValue(ops[0], code);
        if !emitted {
          return false;
        }
        var eqz := Numeric(if c.value == I64 then 0x50 else 0x45);
        Emit(eqz, code);
        Appended(start, Lowering.EmitValue(State(), ops[0]).value, [eqz]);
        return true;
      }
      if |ops| != 2 {
        return false;
      }
      var c := ValueTypeOf(ops[0]);
      if c.None? {
        return false;
      }
      var opcode := Opcode(op, c.value);
      if opcode.None? {
        return false;
      }
      var left := EmitValue(ops[0], code);
      if !left {
        return false;
      }
      var right := EmitValue(ops[1], code);
      if !right {
        return false;
      }
      Emit(Numeric(opcode.value), code);
      ghost var a, b := Lowering.EmitValue(State(), ops[0]).value, Lowering.EmitValue(State(), ops[1]).value;
      Appended(start, a, b);
      Appended(start, a + b, [Numeric(opcode.value)]);
      ok := true;
    }

    /** `yw_value_type` */
    method ValueTypeOf(v: ValueId) returns (c: Option<ValType>)
      requires Valid()
      ensures c == ValueType(State(), fn, v)
    {
      if v >= |slots| {
        return None;
      }
      if slots[v].InLocal? {
        return Some(localTypes[slots[v].local]);
      }
      c := if v < |fn.valueTypes| then TypeToVal(fn.valueTypes[v]) else None;
    }

    /** `yw_lower_global_load` */
    method LowerGlobalLoad(session: GlobalSession, i: Instr, name: string, code: WasmBuf) returns (ok: bool)
      requires Valid() && code.Valid() && TableOk(session.State())
      modifies code, code.data, session
      ensures code.Valid() && (code.data == old(code.data) || fresh(code.data))
      ensures TableOk(session.State()) && session.State() == Address(old(session.State()), name).1
      ensures ok == Lowering.LowerGlobalLoad(Address(old(session.State()), name).0, i).Some?
      ensures ok ==> code.Contents() == old(code.Contents())
                       + EncodeCode(Lowering.LowerGlobalLoad(Address(old(session.State()), name).0, i).value)
    {
      hide EncodeCode;
      hide Address;
      hide TableOk;
      hide Extends;
      ghost var start := code.Contents();
      var at := session.AddressOf(name);
      NoCode();
      if at.None? {
        return false;
      }
      var c := TypeToVal(i.ty);
      if c.None? {
        return true;
      }
      Emit(I32Const(at.value), code);
      var load := ILoad(c.value, AlignOf(c.value), 0);
      Emit(load, code);
      Appended(start, [I32Const(at.value)], [load]);
      assert [I32Const(at.value)] + [load] == [I32Const(at.value), load];
      ok := true;
    }

    /** `yw_lower_global_store` */
    method LowerGlobalStore(session: GlobalSession, i: Instr, name: string, ops: seq<ValueId>, code: WasmBuf)
      returns (ok: bool)
      requires Valid() && code.Valid() && TableOk(session.State())
      modifies code, code.data, session
      ensures code.Valid() && (code.data == old(code.data) || fresh(code.data))
      ensures TableOk(session.State())
      ensures var (at, g) := if |ops| == 1 then Address(old(session.State()), name) else (None, old(session.State()));
              && session.State() == g
              && ok == Lowering.LowerGlobalStore(at, State(), fn, i, ops).Some?
              && (ok ==> code.Contents() == old(code.Contents())
                           + EncodeCode(Lowering.LowerGlobalStore(at, State(), fn, i, ops).value))
    {
      hide EncodeCode;
      hide Address;
      hide TableOk;
      hide Extends;
      hide Lowering.EmitValue;
      hide ValueType;
      ghost var start := code.Contents();
      if |ops| != 1 {
        return false;
      }
      var at := session.AddressOf(name);
      if at.None? {
        return false;
      }
      var c := ValueTypeOf(ops[0]);
      if c.None? {
        return false;
      }
      var address, store := I32Const(at.value), IStore(c.value, AlignOf(c.value), 0);
      Emit(address, code);
      var emitted := EmitValue(ops[0], code);
      if !emitted {
        return false;
      }
      Emit(store, code);
      ghost var v := Lowering.EmitValue(State(), ops[0]).value;
      Appended(start, [address], v);
      Appended(start, [address] + v, [store]);
      if TypeToVal(i.ty).Some? {
        var again := EmitValue(ops[0], code);
        Appended(start, [address] + v + [store], v);
      } else {
        assert [address] + v + [store] + [] == [address] + v + [store];
      }
      ok := true;
    }

    /** `yw_lower_cast` */
    method LowerCast(ops: seq<ValueId>, fromType: Type, toType: Type, code: WasmBuf) returns (ok: bool)
      requires Valid() && code.Valid()
      modifies code, code.data
      ensures code.Valid() && (code.data == old(code.data) || fresh(code.data))
      ensures ok == Lowering.LowerCast(State(), ops, TypeToVal(fromType), TypeToVal(toType)).Some?
      ensures ok ==> code.Contents() == old(code.Contents())
                       + EncodeCode(Lowering.LowerCast(State(), ops, TypeToVal(fromType), TypeToVal(toType)).value)
    {
      hide EncodeCode;
      hide CastOpcode;
      hide Lowering.EmitValue;
      ghost var start := code.Contents();
      if |ops| != 1 {
        return false;
      }
      var emitted := EmitValue(ops[0], code);
      if !emitted {
        return false;
      }
      var from, to := TypeToVal(fromType), TypeToVal(toType);
      if from.None? || to.None? || from == to {
        return true;
      }
      var opcode := CastOpcode(from.value, to.value);
      if opcode.None? {
        return false;
      }
      Emit(Numeric(opcode.value), code);
      Appended(start, Lowering.EmitValue(State(), ops[0]).value, [Numeric(opcode.value)]);
      ok := true;
    }

    /** The printing case of `yw_lower_op` */
    method LowerPrint(ops: seq<ValueId>, code: WasmBuf) returns (ok: bool)
      requires Valid() && code.Valid()
      modifies code, code.data
      ensures code.Valid() && (code.data == old(code.data) || fresh(code.data))
      ensures ok == Lowering.LowerPrint(State(), fn, ops).Some?
      ensures ok ==> code.Contents() == old(code.Contents()) + EncodeCode(Lowering.LowerPrint(State(), fn, ops).value)
    {
      hide EncodeCode;
      hide Lowering.EmitValue;
      hide ValueType;
      ghost var start := code.Contents();
      if |ops| != 1 {
        return false;
      }
      var emitted := EmitValue(ops[0], code);
      if !emitted {
        return false;
      }
      var c := ValueTypeOf(ops[0]);
      if c.None? {
        return false;
      }
      ghost var v := Lowering.EmitValue(State(), ops[0]).value;
      if ops[0] < |fn.valueTypes| && IsString(fn.valueTypes[ops[0]]) {
        Emit(ICall(PRINT_STRING), code);
        Appended(start, v, [ICall(PRINT_STRING)]);
        return true;
      }
      if c.value == I64 {
        Emit(Numeric(0xa7), code);
        Appended(start, v, [Numeric(0xa7)]);
        Emit(ICall(PRINT_INT), code);
        Appended(start, v + [Numeric(0xa7)], [ICall(PRINT_INT)]);
        assert v + [Numeric(0xa7)] + [ICall(PRINT_INT)] == v + [Numeric(0xa7), ICall(PRINT_INT)];
        return true;
      }
      if c.value != I32 {
        return false;
      }
      Emit(ICall(PRINT_INT), code);
      Appended(start, v, [ICall(PRINT_INT)]);
      ok := true;
    }

    /** `yw_emit_call_operands`, before the count of arguments is compared. */
    method EmitCallOperands(params: seq<Param>, ops: seq<ValueId>, code: WasmBuf) returns (ok: bool, emitted: nat)
      requires Valid() && code.Valid()
      modifies code, code.data
      ensures code.Valid() && (code.data == old(code.data) || fresh(code.data))
      ensures ok == EmitOperands(State(), fn, params, ops).Some?
      ensures ok ==> emitted == |EmitOperands(State(), fn, params, ops).value|
      ensures ok ==> code.Contents() == old(code.Contents()) + EncodeCode(EmitOperands(State(), fn, params, ops).value)
    {
      hide EncodeCode;
      hide Lowering.EmitValue;
      ghost var all := EmitOperands(State(), fn, params, ops);
      ghost var done: Code := [];
      emitted := 0;
      NoCode();
      assert ops[0..] == ops && ParamsFrom(params, 0) == params;
      JoinedEnds(all, done);
      for i := 0 to |ops|
        invariant Valid() && code.Valid() && (code.data == old(code.data) || fresh(code.data))
        invariant emitted == |done|
        invariant code.Contents() == old(code.Contents()) + EncodeCode(done)
        invariant all == Joined(done, EmitOperands(State(), fn, ParamsFrom(params, i), ops[i..]))
      {
        ghost var ps := ParamsFrom(params, i);
        assert ops[i..][0] == ops[i] && ops[i..][1..] == ops[i + 1..];
        NextParams(params, i);
        OperandStep(State(), fn, ps, ops[i..], done);
        var v := ops[i];
        if v >= |slots| {
          return false, emitted;
        }
        if i < |params| && IsEnv(params[i]) {
          continue;
        }
        if v < |fn.valueTypes| && fn.valueTypes[v].kind == KVoid {
          continue;
        }
        var pushed := EmitValue(v, code);
        if !pushed {
          return false, emitted;
        }
        EmitIsOne(State(), v);
        Appended(old(code.Contents()), done, Lowering.EmitValue(State(), v).value);
        done := done + Lowering.EmitValue(State(), v).value;
        emitted := emitted + 1;
      }
      assert ops[|ops|..] == [];
      JoinedEnds(all, done);
      ok := true;
    }

    /** `yw_lower_terminator` */
    method LowerTerminator(term: Terminator, hasResult: bool, code: WasmBuf) returns (ok: bool)
      requires Valid() && code.Valid()
      modifies code, code.data
      ensures code.Valid() && (code.data == old(code.data) || fresh(code.data))
      ensures ok == LowerTerm(State(), term, hasResult).Some?
      ensures ok ==> code.Contents() == old(code.Contents()) + EncodeCode(LowerTerm(State(), term, hasResult).value)
    {
      hide EncodeCode;
      hide Lowering.EmitValue;
      ghost var start := code.Contents();
      NoCode();
      match term {
        case NoTerm => return !hasResult;
        case Return(v) =>
          if hasResult {
            var emitted := EmitValue(v, code);
            if !emitted {
              return false;
            }
          }
          Emit(IReturn, code);
          if hasResult {
            Appended(start, Lowering.EmitValue(State(), v).value, [IReturn]);
          }
          ok := true;
        case Unreachable =>
          Emit(IUnreachable, code);
          ok := true;
        case Branching => ok := false;
      }
    }

    /** `yw_emit_local_decls`: one declaration for each local after the parameters. */
    method EmitLocalDecls(body: WasmBuf)
      requires Valid() && body.Valid()
      modifies body, body.data
      ensures body.Valid() && (body.data == old(body.data) || fresh(body.data))
      ensures var ts := localTypes[paramCount..];
              body.Contents() == old(body.Contents()) + (EncodeU(|ts|) + EncodeLocals(ts))
    {
      hide EncodeU;
      hide EncodeLocals;
      var ts := localTypes[paramCount..];
      body.LebU32(|localTypes| - paramCount);
      ghost var head, tail := EncodeU(|ts|), EncodeLocals(ts);
      ghost var done := head;
      assert ts[0..] == ts;
      for i := paramCount to |localTypes|
        invariant body.Valid() && (body.data == old(body.data) || fresh(body.data))
        invariant body.Contents() == old(body.Contents()) + done
        invariant done + EncodeLocals(ts[i - paramCount..]) == head + tail
      {
        body.LebU32(1);
        body.Push(TypeCode(localTypes[i]));
        LocalsFrom(ts, i - paramCount, done, old(body.Contents()));
        done := done + (EncodeU(1) + [TypeCode(localTypes[i])]);
      }
      assert ts[|ts|..] == [];
      NoLocals(done);
    }
  }

  lemma LocalsFrom(ts: seq<ValType>, k: nat, done: seq<byte>, was: seq<byte>)
    requires k < |ts|
    ensures var one := EncodeU(1) + [TypeCode(ts[k])];
            && done + EncodeLocals(ts[k..]) == (done + one) + EncodeLocals(ts[k + 1..])
            && was + done + EncodeU(1) + [TypeCode(ts[k])] == was + (done + one)
  {
    hide EncodeU;
    var one := EncodeU(1) + [TypeCode(ts[k])];
    assert ts[k..][0] == ts[k] && ts[k..][1..] == ts[k + 1..];
    assert done + (one + EncodeLocals(ts[k + 1..])) == (done + one) + EncodeLocals(ts[k + 1..]);
  }

  lemma NoLocals(done: seq<byte>)
    ensures done + EncodeLocals([]) == done
  {
  }

  // ---- Operand loops -------------------------------------------------------------

  /** The parameters still to be matched after `i` operands. */
  function ParamsFrom(params: seq<Param>, i: nat): seq<Param> {
    if i < |params| then params[i..] else []
  }

  function Joined(done: Code, rest: Option<Code>): Option<Code> {
    match rest
    case None => None
    case Some(code) => Some(done + code)
  }

  lemma JoinedEnds(rest: Option<Code>, done: Code)
    ensures Joined([], rest) == rest && Joined(done, Some([])) == Some(done)
  {
    if rest.Some? {
      assert [] + rest.value == rest.value;
    }
    assert done + [] == done;
  }

  lemma NextParams(params: seq<Param>, i: nat)
    ensures ParamsFrom(params, i + 1) == (if ParamsFrom(params, i) == [] then [] else ParamsFrom(params, i)[1..])
    ensures ParamsFrom(params, i) != [] <==> i < |params|
    ensures i < |params| ==> ParamsFrom(params, i)[0] == params[i]
  {
  }

  lemma EmitIsOne(l: Layout, v: ValueId)
    ensures Lowering.EmitValue(l, v).Some? ==> |Lowering.EmitValue(l, v).value| == 1
  {
  }

  lemma OperandStep(l: Layout, f: Function, params: seq<Param>, ops: seq<ValueId>, done: Code)
    requires ops != []
    ensures var next := EmitOperands(l, f, if params == [] then [] else params[1..], ops[1..]);
            Joined(done, EmitOperands(l, f, params, ops))
            == if ops[0] >= |l.slots| then None
               else if (params != [] && IsEnv(params[0]))
                       || (ops[0] < |f.valueTypes| && f.valueTypes[ops[0]].kind == KVoid) then Joined(done, next)
               else if Lowering.EmitValue(l, ops[0]).None? then None
               else Joined(done + Lowering.EmitValue(l, ops[0]).value, next)
  {
    hide Lowering.EmitValue;
    var next := EmitOperands(l, f, if params == [] then [] else params[1..], ops[1..]);
    if next.Some? && Lowering.EmitValue(l, ops[0]).Some? {
      var v := Lowering.EmitValue(l, ops[0]).value;
      assert done + (v + next.value) == done + v + next.value;
    }
  }

  lemma NoInstrs()
    ensures InstrsOf([]) == []
  {
  }

  // ---- Modules ---------------------------------------------------------------------

  /** `YwModuleCtx` */
  class ModuleContext {
    var types: seq<FuncType>
    var imports: seq<FuncDef>
    var defs: seq<FuncDef>

    ghost function State(): ModuleCtx
      reads this
    {
      ModuleCtx(types, imports, defs)
    }

    constructor ()
      ensures State() == ModuleCtx([], [], [])
    {
      types, imports, defs := [], [], [];
    }

    /** `yw_type_table_add` */
    method AddType(t: FuncType) returns (index: nat)
      modifies this`types
      ensures index == FindType(old(types), t) && types == Lowering.AddType(old(types), t)
    {
      hide FindType;
      assert types[0..] == types;
      for i := 0 to |types|
        invariant types == old(types)
        invariant FindType(types, t) == i + FindType(types[i..], t)
      {
        FindTypeStep(types[i..], t);
        assert types[i..][1..] == types[i + 1..];
        if types[i] == t {
          return i;
        }
      }
      FindTypeEnd(t);
      assert types[|types|..] == [];
      index := |types|;
      types := types + [t];
    }

    /** `yw_add_func_def` */
    method AddFuncDef(prog: Program, id: FnId, asImport: bool) returns (ok: bool)
      requires id < |prog.fns|
      modifies this
      ensures ok == Lowering.AddFuncDef(old(State()), prog, id, asImport).Some?
      ensures ok ==> State() == Lowering.AddFuncDef(old(State()), prog, id, asImport).value
    {
      hide FindType;
      hide Lowering.AddType;
      hide ReturnType;
      hide ParamTypes;
      var f := prog.fns[id];
      var kind := ReturnType(f).kind;
      if kind != KVoid && kind != KModule && ResultType(f).None? {
        return false;
      }
      var typeIndex := AddType(TypeOfFunction(f));
      var funcIndex := BUILTINS + |imports| + if asImport then 0 else |defs|;
      var def := FuncDef(id, typeIndex, funcIndex, ResultType(f));
      if asImport {
        imports := imports + [def];
      } else {
        defs := defs + [def];
      }
      ok := true;
    }

    /** `yw_module_ctx_init` */
    method Init(prog: Program) returns (ok: bool)
      requires ProgramOk(prog) && State() == ModuleCtx([], [], [])
      modifies this
      ensures ok == BuildCtx(prog).Some?
      ensures ok ==> State() == BuildCtx(prog).value
    {
      hide Lowering.AddFuncDef;
      hide Supported;
      hide HasTypeVars;
      var printInt := AddType(FuncType([I32], None));
      var printString := AddType(FuncType([I32], None));
      var abort := AddType(FuncType([], None));
      InitialTypes();
      var ids := prog.listed;
      assert ids[0..] == ids;
      ghost var wanted := AddImports(State(), prog, ids);
      for i := 0 to |ids|
        invariant AddImports(State(), prog, ids[i..]) == wanted
      {
        assert ids[i..][0] == ids[i] && ids[i..][1..] == ids[i + 1..];
        if ImportWanted(prog.fns[ids[i]]) {
          var added := AddFuncDef(prog, ids[i], true);
          if !added {
            return false;
          }
        }
      }
      assert ids[|ids|..] == [];
      ghost var all := AddDefs(State(), prog, ids);
      for i := 0 to |ids|
        invariant AddDefs(State(), prog, ids[i..]) == all
      {
        assert ids[i..][0] == ids[i] && ids[i..][1..] == ids[i + 1..];
        if DefWanted(prog, ids[i]) {
          var added := AddFuncDef(prog, ids[i], false);
          if !added {
            return false;
          }
        }
      }
      ok := true;
    }

    /** `yw_module_find_func_by_ptr` */
    method FindFuncById(id: FnId) returns (r: Option<FuncDef>)
      ensures r == LookupId(State(), id)
    {
      assert imports[0..] == imports && defs[0..] == defs;
      for i := 0 to |imports|
        invariant FindById(imports[i..], id) == FindById(imports, id)
      {
        assert imports[i..][1..] == imports[i + 1..];
        if imports[i].fn == id {
          return Some(imports[i]);
        }
      }
      for i := 0 to |defs|
        invariant FindById(defs[i..], id) == FindById(defs, id)
      {
        assert defs[i..][1..] == defs[i + 1..];
        if defs[i].fn == id {
          return Some(defs[i]);
        }
      }
      r := None;
    }

    /** `yw_module_find_func` */
    method FindFunc(prog: Program, name: string) returns (r: Option<FuncDef>)
      ensures r == LookupName(State(), prog, name)
    {
      assert imports[0..] == imports && defs[0..] == defs;
      for i := 0 to |imports|
        invariant FindByName(imports[i..], prog, name) == FindByName(imports, prog, name)
      {
        assert imports[i..][1..] == imports[i + 1..];
        if imports[i].fn < |prog.fns| && prog.fns[imports[i].fn].name == name {
          return Some(imports[i]);
        }
      }
      for i := 0 to |defs|
        invariant FindByName(defs[i..], prog, name) == FindByName(defs, prog, name)
      {
        assert defs[i..][1..] == defs[i + 1..];
        if defs[i].fn < |prog.fns| && prog.fns[defs[i].fn].name == name {
          return Some(defs[i]);
        }
      }
      r := None;
    }

    /** `yw_call_target` */
    method Target(prog: Program, f: Function, a: Action) returns (r: Option<FuncDef>)
      requires a.Call?
      ensures r == CallTarget(State(), prog, f, a)
    {
      hide LookupId;
      hide LookupName;
      hide FindDef;
      if a.specialized.Some? {
        r := FindFuncById(a.specialized.value);
        if r.Some? {
          return;
        }
      }
      if a.specializedName.Some? {
        r := FindFunc(prog, a.specializedName.value);
        if r.Some? {
          return;
        }
      }
      if a.callee.None? {
        return None;
      }
      match FindDef(InstrsOf(f.blocks), a.callee.value) {
        case Some(Instr(FnRef(Some(t), name), _, _)) =>
          r := FindFuncById(t);
          if r.None? {
            r := FindFunc(prog, name);
          }
        case _ => r := None;
      }
    }

    /** `yw_build_type_section` */
    method BuildTypeSection(body: WasmBuf)
      requires body.Valid() && |types| < LIMIT && forall k :: 0 <= k < |types| ==> |types[k].params| < LIMIT
      modifies body, body.data
      ensures body.Valid() && (body.data == old(body.data) || fresh(body.data))
      ensures body.Contents() == old(body.Contents()) + (EncodeU(|types|) + EncodeTypes(types))
    {
      hide EncodeType;
      hide EncodeU;
      body.LebU32(|types|);
      ghost var done := EncodeU(|types|);
      assert types[0..] == types;
      for i := 0 to |types|
        invariant body.Valid() && (body.data == old(body.data) || fresh(body.data))
        invariant body.Contents() == old(body.Contents()) + done
        invariant done + EncodeTypes(types[i..]) == EncodeU(|types|) + EncodeTypes(types)
      {
        var t := types[i];
        BuildType(t, body);
        assert types[i..][0] == t && types[i..][1..] == types[i + 1..];
        assert done + (EncodeType(t) + EncodeTypes(types[i + 1..]))
               == (done + EncodeType(t)) + EncodeTypes(types[i + 1..]);
        done := done + EncodeType(t);
      }
      assert types[|types|..] == [];
    }

    static method BuildType(t: FuncType, body: WasmBuf)
      requires body.Valid() && |t.params| < LIMIT
      modifies body, body.data
      ensures body.Valid() && (body.data == old(body.data) || fresh(body.data))
      ensures body.Contents() == old(body.Contents()) + EncodeType(t)
    {
      hide EncodeU;
      hide TypeCodes;
      ghost var was := body.Contents();
      body.Push(0x60);
      body.LebU32(|t.params|);
      body.PushAll(TypeCodes(t.params));
      body.LebU32(if t.result.Some? then 1 else 0);
      ghost var four := body.Contents();
      if t.result.Some? {
        body.Push(TypeCode(t.result.value));
      } else {
        assert four + [] == four;
      }
      OneCode(t.result);
      TypeParts(was, EncodeU(|t.params|), TypeCodes(t.params), EncodeU(|ResultSeq(t.result)|),
                TypeCodes(ResultSeq(t.result)));
    }

    /** `yw_build_import_section` */
    method BuildImportSection(prog: Program, body: WasmBuf)
      requires body.Valid() && 4 + |imports| < LIMIT
      requires forall k :: 0 <= k < |imports| ==> FuncDefFits(prog, imports[k])
      modifies body, body.data
      ensures body.Valid() && (body.data == old(body.data) || fresh(body.data))
      ensures var all := BUILTIN_IMPORTS + ImportsOf(imports, prog);
              body.Contents()
                  == old(body.Contents()) + (EncodeU(1 + |all|) + (EncodeMemoryImport() + EncodeImports(all)))
    {
      hide EncodeImport;
      hide EncodeImports;
      hide EncodeMemoryImport;
      hide EncodeU;
      hide ImportsOf;
      hide FuncDefFits;
      var all := BUILTIN_IMPORTS + ImportsOf(imports, prog);
      AllImports(imports, prog);
      body.LebU32(4 + |imports|);
      BuildMemoryImport(body);
      ghost var start, head, tail := EncodeU(1 + |all|), EncodeMemoryImport(), EncodeImports(all);
      ghost var done := start + head;
      assert all[0..] == all;
      assert done + tail == start + (head + tail);
      assert body.Contents() == old(body.Contents()) + done;
      for i := 0 to |all|
        invariant body.Valid() && (body.data == old(body.data) || fresh(body.data))
        invariant body.Contents() == old(body.Contents()) + done
        invariant done + EncodeImports(all[i..]) == start + (head + tail)
      {
        ImportItemFits(imports, prog, i);
        BuildImport(all[i], body);
        ImportsFrom(all, i, done);
        done := done + EncodeImport(all[i]);
      }
      assert all[|all|..] == [];
      NoImports(done);
    }

    static method BuildMemoryImport(body: WasmBuf)
      requires body.Valid()
      modifies body, body.data
      ensures body.Valid() && (body.data == old(body.data) || fresh(body.data))
      ensures body.Contents() == old(body.Contents()) + EncodeMemoryImport()
    {
      hide EncodeU;
      hide NameBytes;
      hide EncodeName;
      ShortNames();
      body.Name(NameBytes("env"));
      body.Name(NameBytes("memory"));
      body.Push(0x02);
      body.Push(0x00);
      body.LebU32(1);
      assert body.Contents()
             == old(body.Contents()) + EncodeName(ENV) + EncodeName(NameBytes("memory")) + [0x02] + [0x00]
                                + EncodeU(1);
    }

    static method BuildImport(item: FuncImport, body: WasmBuf)
      requires body.Valid() && |item.name| < LIMIT && item.typeIndex < LIMIT
      modifies body, body.data
      ensures body.Valid() && (body.data == old(body.data) || fresh(body.data))
      ensures body.Contents() == old(body.Contents()) + EncodeImport(item)
    {
      hide EncodeU;
      hide NameBytes;
      hide EncodeName;
      ShortNames();
      body.Name(NameBytes("env"));
      body.Name(NameBytes(item.name));
      body.Push(0x00);
      body.LebU32(item.typeIndex);
      assert body.Contents() == old(body.Contents()) + EncodeName(ENV) + EncodeName(NameBytes(item.name)) + [0x00]
                                + EncodeU(item.typeIndex);
    }

    /** `yw_build_function_section` */
    method BuildFunctionSection(body: WasmBuf)
      requires body.Valid() && |defs| < LIMIT && forall k :: 0 <= k < |defs| ==> defs[k].typeIndex < LIMIT
      modifies body, body.data
      ensures body.Valid() && (body.data == old(body.data) || fresh(body.data))
      ensures body.Contents() == old(body.Contents()) + (EncodeU(|defs|) + EncodeIndices(TypeIndices(defs)))
    {
      hide EncodeU;
      var all := TypeIndices(defs);
      body.LebU32(|defs|);
      ghost var done := EncodeU(|defs|);
      assert all[0..] == all;
      for i := 0 to |defs|
        invariant body.Valid() && (body.data == old(body.data) || fresh(body.data))
        invariant body.Contents() == old(body.Contents()) + done
        invariant done + EncodeIndices(all[i..]) == EncodeU(|defs|) + EncodeIndices(all)
      {
        body.LebU32(defs[i].typeIndex);
        assert all[i..][0] == defs[i].typeIndex && all[i..][1..] == all[i + 1..];
        assert done + (EncodeU(all[i]) + EncodeIndices(all[i + 1..]))
               == (done + EncodeU(all[i])) + EncodeIndices(all[i + 1..]);
        done := done + EncodeU(all[i]);
      }
      assert all[|defs|..] == [];
    }

    /** `yw_build_export_section` */
    method BuildExportSection(prog: Program, body: WasmBuf) returns (ok: bool)
      requires body.Valid() && (Lowering.Entry(State(), prog).Some? ==> Lowering.Entry(State(), prog).value < LIMIT)
      modifies body, body.data
      ensures body.Valid() && (body.data == old(body.data) || fresh(body.data))
      ensures ok == Lowering.Entry(State(), prog).Some?
      ensures ok ==> body.Contents() == old(body.Contents())
                       + (EncodeU(1) + (EncodeName(NameBytes(ENTRY_NAME))
                          + ([0x00] + EncodeU(Lowering.Entry(State(), prog).value))))
    {
      hide EncodeU;
      hide NameBytes;
      hide EncodeName;
      hide LookupName;
      var entry := FindFunc(prog, TOP);
      if entry.None? && |defs| > 0 {
        entry := Some(defs[0]);
      }
      if entry.None? {
        return false;
      }
      ShortNames();
      body.LebU32(1);
      body.Name(NameBytes(ENTRY_NAME));
      body.Push(0x00);
      body.LebU32(entry.value.funcIndex);
      assert body.Contents() == old(body.Contents()) + EncodeU(1) + EncodeName(NameBytes(ENTRY_NAME)) + [0x00]
                                + EncodeU(entry.value.funcIndex);
      ok := true;
    }
  }

  lemma TypeParts(was: seq<byte>, a: seq<byte>, b: seq<byte>, c: seq<byte>, d: seq<byte>)
    ensures was + [0x60] + a + b + c + d == was + ([0x60] + (a + b + (c + d)))
  {
  }

  lemma ImportsFrom(all: seq<FuncImport>, i: nat, done: seq<byte>)
    requires i < |all|
    ensures done + EncodeImports(all[i..]) == (done + EncodeImport(all[i])) + EncodeImports(all[i + 1..])
  {
    hide EncodeImport;
    assert all[i..][0] == all[i] && all[i..][1..] == all[i + 1..];
    assert done + (EncodeImport(all[i]) + EncodeImports(all[i + 1..]))
           == (done + EncodeImport(all[i])) + EncodeImports(all[i + 1..]);
  }

  lemma FindTypeStep(types: seq<FuncType>, t: FuncType)
    requires types != []
    ensures FindType(types, t) == if types[0] == t then 0 else 1 + FindType(types[1..], t)
  {
  }

  lemma FindTypeEnd(t: FuncType)
    ensures FindType([], t) == 0
  {
  }

  lemma InitialTypes()
    ensures Lowering.AddType(Lowering.AddType(Lowering.AddType([], FuncType([I32], None)), FuncType([I32], None)),
                             FuncType([], None)) == INITIAL_TYPES
  {
    var a, b := FuncType([I32], None), FuncType([], None);
    assert a.params != b.params;
    assert FindType([], a) == 0 && FindType([a], a) == 0;
    assert [a][1..] == [];
    assert FindType([a], b) == 1;
    assert [] + [a] == [a] && [a] + [b] == [a, b];
  }

  lemma OneCode(r: Option<ValType>)
    ensures TypeCodes(ResultSeq(r)) == (if r.Some? then [TypeCode(r.value)] else [])
    ensures |ResultSeq(r)| == (if r.Some? then 1 else 0)
  {
  }

  lemma ShortNames()
    ensures |NameBytes("env")| < LIMIT && |NameBytes("memory")| < LIMIT && |NameBytes(ENTRY_NAME)| < LIMIT
    ensures ENV == NameBytes("env")
  {
  }

  predicate FuncDefFits(prog: Program, d: FuncDef) {
    d.typeIndex < LIMIT && d.fn < |prog.fns| && |prog.fns[d.fn].name| < LIMIT
  }

  lemma AllImports(imports: seq<FuncDef>, prog: Program)
    ensures |BUILTIN_IMPORTS + ImportsOf(imports, prog)| == 3 + |imports|
  {
  }

  lemma NoImports(done: seq<byte>)
    ensures done + EncodeImports([]) == done
  {
  }

  lemma ImportItemFits(imports: seq<FuncDef>, prog: Program, i: nat)
    requires i < 3 + |imports| && forall k :: 0 <= k < |imports| ==> FuncDefFits(prog, imports[k])
    ensures |BUILTIN_IMPORTS| == 3
    ensures var item := (BUILTIN_IMPORTS + ImportsOf(imports, prog))[i]; |item.name| < LIMIT && item.typeIndex < LIMIT
  {
    if i >= 3 {
      assert FuncDefFits(prog, imports[i - 3]);
      assert (BUILTIN_IMPORTS + ImportsOf(imports, prog))[i] == ImportsOf(imports, prog)[i - 3];
    }
  }

  // ---- Bodies ------------------------------------------------------------------------

  predicate IndicesSmall(m: ModuleCtx) {
    && (forall k :: 0 <= k < |m.imports| ==> m.imports[k].funcIndex < LIMIT)
    && (forall k :: 0 <= k < |m.defs| ==> m.defs[k].funcIndex < LIMIT)
  }

  lemma {:induction false} FoundById(defs: seq<FuncDef>, id: FnId)
    requires FindById(defs, id).Some?
    ensures FindById(defs, id).value in defs
  {
    if defs[0].fn != id {
      FoundById(defs[1..], id);
    }
  }

  lemma {:induction false} FoundByName(defs: seq<FuncDef>, prog: Program, name: string)
    requires FindByName(defs, prog, name).Some?
    ensures FindByName(defs, prog, name).value in defs
  {
    if !(defs[0].fn < |prog.fns| && prog.fns[defs[0].fn].name == name) {
      FoundByName(defs[1..], prog, name);
    }
  }

  lemma LookupSmall(m: ModuleCtx, prog: Program, id: FnId, name: string)
    requires IndicesSmall(m)
    ensures LookupId(m, id).Some? ==> LookupId(m, id).value.funcIndex < LIMIT
    ensures LookupName(m, prog, name).Some? ==> LookupName(m, prog, name).value.funcIndex < LIMIT
  {
    if FindById(m.imports, id).Some? {
      FoundById(m.imports, id);
    }
    if FindById(m.defs, id).Some? {
      FoundById(m.defs, id);
    }
    if FindByName(m.imports, prog, name).Some? {
      FoundByName(m.imports, prog, name);
    }
    if FindByName(m.defs, prog, name).Some? {
      FoundByName(m.defs, prog, name);
    }
  }

  lemma TargetSmall(m: ModuleCtx, prog: Program, f: Function, a: Action)
    requires IndicesSmall(m) && a.Call? && CallTarget(m, prog, f, a).Some?
    ensures CallTarget(m, prog, f, a).value.funcIndex < LIMIT
  {
    hide LookupId;
    hide LookupName;
    hide IndicesSmall;
    hide FindDef;
    if a.specialized.Some? {
      LookupSmall(m, prog, a.specialized.value, "");
    }
    if a.specializedName.Some? {
      LookupSmall(m, prog, 0, a.specializedName.value);
    }
    if a.callee.Some? {
      match FindDef(InstrsOf(f.blocks), a.callee.value)
      case Some(Instr(FnRef(Some(t), name), _, _)) => LookupSmall(m, prog, t, name);
      case _ =>
    }
  }

  /** `yw_lower_call` */
  method LowerCall(c: FnCtx, m: ModuleContext, prog: Program, a: Action, code: WasmBuf) returns (ok: bool)
    requires c.Valid() && code.Valid() && a.Call? && IndicesSmall(m.State())
    modifies code, code.data
    ensures code.Valid() && (code.data == old(code.data) || fresh(code.data))
    ensures ok == Lowering.LowerCall(m.State(), prog, c.State(), c.fn, a).Some?
    ensures ok ==> code.Contents() == old(code.Contents())
                     + EncodeCode(Lowering.LowerCall(m.State(), prog, c.State(), c.fn, a).value)
  {
    hide EncodeCode;
    hide CallTarget;
    hide EmitOperands;
    hide IndicesSmall;
    if a.builtin {
      return false;
    }
    var target := m.Target(prog, c.fn, a);
    if target.None? || target.value.fn >= |prog.fns| || target.value.typeIndex >= |m.types| {
      return false;
    }
    TargetSmall(m.State(), prog, c.fn, a);
    var d := target.value;
    var emitted;
    ok, emitted := c.EmitCallOperands(prog.fns[d.fn].params, a.operands, code);
    if !ok || emitted != |m.types[d.typeIndex].params| {
      return false;
    }
    Emit(ICall(d.funcIndex), code);
    Appended(old(code.Contents()), EmitOperands(c.State(), c.fn, prog.fns[d.fn].params, a.operands).value,
             [ICall(d.funcIndex)]);
  }

  /** `yw_lower_instr`, first half */
  method LowerAction(ieee: Ieee, c: FnCtx, m: ModuleContext, prog: Program, session: GlobalSession, i: Instr,
                     code: WasmBuf)
    returns (ok: bool)
    requires c.Valid() && code.Valid() && IndicesSmall(m.State()) && TableOk(session.State())
    modifies code, code.data, session
    ensures code.Valid() && (code.data == old(code.data) || fresh(code.data))
    ensures TableOk(session.State()) && session.State() == AddressFor(old(session.State()), i.action).1
    ensures var at := AddressFor(old(session.State()), i.action).0;
            && ok == Lowering.LowerAction(ieee, m.State(), prog, c.State(), c.fn, i, at).Some?
            && (ok ==> code.Contents() == old(code.Contents())
                         + EncodeCode(Lowering.LowerAction(ieee, m.State(), prog, c.State(), c.fn, i, at).value))
  {
    hide EncodeCode;
    hide Lowering.LowerConst;
    hide Lowering.LowerPrimitive;
    hide Lowering.LowerGlobalLoad;
    hide Lowering.LowerGlobalStore;
    hide Lowering.LowerCast;
    hide Lowering.LowerPrint;
    hide Lowering.LowerCall;
    hide Lowering.EmitValue;
    hide Address;
    hide TableOk;
    hide IndicesSmall;
    NoCode();
    ghost var start := code.Contents();
    match i.action {
      case Const(k) => ok := c.LowerConst(ieee, i, k, code);
      case Primitive(op, ops) => ok := c.LowerPrimitive(op, ops, code);
      case GlobalLoad(name) => ok := c.LowerGlobalLoad(session, i, name, code);
      case GlobalStore(name, ops) => ok := c.LowerGlobalStore(session, i, name, ops, code);
      case Cast(ops, from, to) => ok := c.LowerCast(ops, from, to, code);
      case Dup(ops) =>
        if |ops| != 1 {
          return false;
        }
        ok := c.EmitValue(ops[0], code);
      case Drop(ops) =>
        if |ops| != 1 {
          return false;
        }
        ok := c.EmitValue(ops[0], code);
        if ok {
          Emit(IDrop, code);
          Appended(start, Lowering.EmitValue(c.State(), ops[0]).value, [IDrop]);
        }
      case Print(ops) => ok := c.LowerPrint(ops, code);
      case Flush => ok := true;
      case FnRef(t, _) =>
        if t.None? {
          return false;
        }
        Emit(I32Const(0), code);
        ok := true;
      case Call(_, _, _, _, _) => ok := LowerCall(c, m, prog, i.action, code);
      case Unsupported => ok := false;
    }
  }

  /** `yw_lower_instr` */
  method LowerInstr(ieee: Ieee, c: FnCtx, m: ModuleContext, prog: Program, session: GlobalSession, i: Instr,
                    code: WasmBuf)
    returns (ok: bool)
    requires c.Valid() && code.Valid() && IndicesSmall(m.State()) && TableOk(session.State())
    modifies code, code.data, session
    ensures code.Valid() && (code.data == old(code.data) || fresh(code.data))
    ensures TableOk(session.State()) && session.State() == AddressFor(old(session.State()), i.action).1
    ensures var at := AddressFor(old(session.State()), i.action).0;
            && ok == LowerInstrAt(ieee, m.State(), prog, c.State(), c.fn, i, at).Some?
            && (ok ==> code.Contents() == old(code.Contents())
                         + EncodeCode(LowerInstrAt(ieee, m.State(), prog, c.State(), c.fn, i, at).value))
  {
    hide EncodeCode;
    hide Lowering.LowerAction;
    hide StoreResult;
    hide AddressFor;
    hide TableOk;
    hide IndicesSmall;
    ghost var at := AddressFor(session.State(), i.action).0;
    ok := LowerAction(ieee, c, m, prog, session, i, code);
    if ok {
      ok := c.EmitResultStore(i, code);
      if ok {
        Appended(old(code.Contents()), Lowering.LowerAction(ieee, m.State(), prog, c.State(), c.fn, i, at).value,
                 StoreResult(c.State(), i).value);
      }
    }
  }

  /** What remains to be lowered, put behind what was. */
  function After(done: Code, rest: (Option<Code>, GlobalTable)): (Option<Code>, GlobalTable) {
    (Joined(done, rest.0), rest.1)
  }

  lemma AfterEnds(done: Code, rest: (Option<Code>, GlobalTable), g: GlobalTable)
    ensures After([], rest) == rest && After(done, (Some([]), g)) == (Some(done), g)
  {
    JoinedEnds(rest.0, done);
  }

  lemma AfterInstr(ieee: Ieee, m: ModuleCtx, prog: Program, l: Layout, f: Function, instrs: seq<Instr>, g: GlobalTable,
                   done: Code)
    requires instrs != []
    ensures var (at, g') := AddressFor(g, instrs[0].action);
            var first := LowerInstrAt(ieee, m, prog, l, f, instrs[0], at);
            After(done, LowerInstrs(ieee, m, prog, l, f, instrs, g))
            == if first.None? then (None, g')
               else After(done + first.value, LowerInstrs(ieee, m, prog, l, f, instrs[1..], g'))
  {
    hide LowerInstrAt;
    hide AddressFor;
    var (at, g') := AddressFor(g, instrs[0].action);
    var first := LowerInstrAt(ieee, m, prog, l, f, instrs[0], at);
    var (rest, h) := LowerInstrs(ieee, m, prog, l, f, instrs[1..], g');
    if first.Some? && rest.Some? {
      assert done + (first.value + rest.value) == done + first.value + rest.value;
    }
  }

  /** The instructions of a block in `yw_lower_block_body`. */
  method LowerBlockInstrs(ieee: Ieee, c: FnCtx, m: ModuleContext, prog: Program, session: GlobalSession,
                          instrs: seq<Instr>, code: WasmBuf) returns (ok: bool)
    requires c.Valid() && code.Valid() && IndicesSmall(m.State()) && TableOk(session.State())
    modifies code, code.data, session
    ensures code.Valid() && (code.data == old(code.data) || fresh(code.data))
    ensures var (r, h) := LowerInstrs(ieee, m.State(), prog, c.State(), c.fn, instrs, old(session.State()));
            && TableOk(session.State()) && session.State() == h && ok == r.Some?
            && (ok ==> code.Contents() == old(code.Contents()) + EncodeCode(r.value))
  {
    hide EncodeCode;
    hide LowerInstrAt;
    hide AddressFor;
    hide TableOk;
    hide IndicesSmall;
    hide LowerInstrs;
    hide After;
    ghost var all := LowerInstrs(ieee, m.State(), prog, c.State(), c.fn, instrs, session.State());
    ghost var done: Code := [];
    NoCode();
    assert instrs[0..] == instrs;
    AfterEnds([], all, session.State());
    for k := 0 to |instrs|
      invariant c.Valid() && code.Valid() && (code.data == old(code.data) || fresh(code.data))
                && TableOk(session.State())
      invariant code.Contents() == old(code.Contents()) + EncodeCode(done)
      invariant all == After(done, LowerInstrs(ieee, m.State(), prog, c.State(), c.fn, instrs[k..], session.State()))
    {
      assert instrs[k..][0] == instrs[k] && instrs[k..][1..] == instrs[k + 1..];
      AfterInstr(ieee, m.State(), prog, c.State(), c.fn, instrs[k..], session.State(), done);
      ghost var at := AddressFor(session.State(), instrs[k].action).0;
      var lowered := LowerInstr(ieee, c, m, prog, session, instrs[k], code);
      if !lowered {
        return false;
      }
      ghost var first := LowerInstrAt(ieee, m.State(), prog, c.State(), c.fn, instrs[k], at).value;
      Appended(old(code.Contents()), done, first);
      done := done + first;
    }
    assert instrs[|instrs|..] == [];
    NothingLowered(ieee, m.State(), prog, c.State(), c.fn, session.State());
    AfterEnds(done, all, session.State());
    ok := true;
  }

  lemma NothingLowered(ieee: Ieee, m: ModuleCtx, prog: Program, l: Layout, f: Function, g: GlobalTable)
    ensures LowerInstrs(ieee, m, prog, l, f, [], g) == (Some([]), g)
    ensures Lowering.LowerBlocks(ieee, m, prog, l, f, [], g) == (Some([]), g)
  {
  }

  lemma AfterBlock(ieee: Ieee, m: ModuleCtx, prog: Program, l: Layout, f: Function, blocks: seq<Block>, g: GlobalTable,
                   done: Code)
    requires blocks != []
    ensures var (code, g') := LowerInstrs(ieee, m, prog, l, f, blocks[0].instrs, g);
            var term := LowerTerm(l, blocks[0].term, ResultType(f).Some?);
            After(done, Lowering.LowerBlocks(ieee, m, prog, l, f, blocks, g))
            == if code.None? || term.None? then (None, g')
               else After(done + code.value + term.value, Lowering.LowerBlocks(ieee, m, prog, l, f, blocks[1..], g'))
  {
    hide LowerInstrs;
    hide LowerTerm;
    hide ResultType;
    var (code, g') := LowerInstrs(ieee, m, prog, l, f, blocks[0].instrs, g);
    var term := LowerTerm(l, blocks[0].term, ResultType(f).Some?);
    var (rest, h) := Lowering.LowerBlocks(ieee, m, prog, l, f, blocks[1..], g');
    if code.Some? && term.Some? && rest.Some? {
      assert done + (code.value + term.value + rest.value) == done + code.value + term.value + rest.value;
    }
  }

  /** The blocks of a function: block 0 first, then every block not visited yet. As no supported terminator has a
      successor, that is the order of the blocks. */
  method LowerBlocks(ieee: Ieee, c: FnCtx, m: ModuleContext, prog: Program, session: GlobalSession, code: WasmBuf)
    returns (ok: bool)
    requires c.Valid() && code.Valid() && IndicesSmall(m.State()) && TableOk(session.State())
    modifies code, code.data, session
    ensures code.Valid() && (code.data == old(code.data) || fresh(code.data))
    ensures var lowered :=
            Lowering.LowerBlocks(ieee, m.State(), prog, c.State(), c.fn, c.fn.blocks, old(session.State()));
            && TableOk(session.State()) && session.State() == lowered.1 && ok == lowered.0.Some?
            && (ok ==> code.Contents() == old(code.Contents()) + EncodeCode(lowered.0.value))
  {
    hide EncodeCode;
    hide LowerInstrs;
    hide LowerTerm;
    hide TableOk;
    hide IndicesSmall;
    hide Lowering.LowerBlocks;
    hide After;
    hide ResultType;
    var blocks := c.fn.blocks;
    var hasResult := ResultType(c.fn).Some?;
    ghost var all := Lowering.LowerBlocks(ieee, m.State(), prog, c.State(), c.fn, blocks, session.State());
    ghost var done: Code := [];
    NoCode();
    assert blocks[0..] == blocks;
    AfterEnds([], all, session.State());
    for b := 0 to |blocks|
      invariant c.Valid() && code.Valid() && (code.data == old(code.data) || fresh(code.data))
                && TableOk(session.State())
      invariant code.Contents() == old(code.Contents()) + EncodeCode(done)
      invariant all
          == After(done, Lowering.LowerBlocks(ieee, m.State(), prog, c.State(), c.fn, blocks[b..], session.State()))
    {
      assert blocks[b..][0] == blocks[b] && blocks[b..][1..] == blocks[b + 1..];
      AfterBlock(ieee, m.State(), prog, c.State(), c.fn, blocks[b..], session.State(), done);
      ghost var g := session.State();
      ghost var first := LowerInstrs(ieee, m.State(), prog, c.State(), c.fn, blocks[b].instrs, g);
      var lowered := LowerBlockInstrs(ieee, c, m, prog, session, blocks[b].instrs, code);
      if !lowered {
        assert first.0.None? && first.1 == session.State();
        assert all == (None, first.1);
        return false;
      }
      var ended := c.LowerTerminator(blocks[b].term, hasResult, code);
      if !ended {
        return false;
      }
      ghost var instrs := LowerInstrs(ieee, m.State(), prog, c.State(), c.fn, blocks[b].instrs, g).0.value;
      ghost var term := LowerTerm(c.State(), blocks[b].term, hasResult).value;
      Appended(old(code.Contents()), done, instrs);
      Appended(old(code.Contents()), done + instrs, term);
      done := done + instrs + term;
    }
    assert blocks[|blocks|..] == [];
    NothingLowered(ieee, m.State(), prog, c.State(), c.fn, session.State());
    AfterEnds(done, all, session.State());
    ok := true;
  }

  /** `yw_build_function_body`: the size is cut to 32 bits. */
  method BuildFunctionBody(ieee: Ieee, m: ModuleContext, prog: Program, f: Function, session: GlobalSession,
                           section: WasmBuf)
    returns (ok: bool)
    requires section.Valid() && IndicesSmall(m.State()) && TableOk(session.State())
    requires |f.params| + |InstrsOf(f.blocks)| < LIMIT
    modifies section, section.data, session
    ensures section.Valid() && (section.data == old(section.data) || fresh(section.data))
    ensures var (r, h) := LowerFunction(ieee, m.State(), prog, f, old(session.State()));
            && TableOk(session.State()) && session.State() == h && ok == r.Some?
            && (ok && |EncodeBody(r.value)| < LIMIT ==>
                  section.Contents()
                  == old(section.Contents()) + (EncodeU(|EncodeBody(r.value)|) + EncodeBody(r.value)))
  {
    hide EncodeBody;
    hide EncodeU;
    hide EncodeLocals;
    hide EncodeCode;
    hide TableOk;
    hide IndicesSmall;
    hide Lowering.LowerBlocks;
    hide LayoutOf;
    hide InstrsOf;
    hide ResultType;
    var c, laidOut := BuildLayout(f);
    if !laidOut {
      return false;
    }
    var body := new WasmBuf();
    c.EmitLocalDecls(body);
    ghost var locals := body.Contents();
    ok := LowerBlocks(ieee, c, m, prog, session, body);
    if !ok {
      return;
    }
    if |f.blocks| == 0 && ResultType(f).Some? {
      return false;
    }
    ghost var code := body.Contents();
    body.Push(0x0b);
    ghost var b := LowerFunction(ieee, m.State(), prog, f, old(session.State())).0.value;
    BodyParts(b);
    assert code == EncodeU(|b.locals|) + EncodeLocals(b.locals) + EncodeCode(b.code);
    AppendSized(body, section);
  }

  /** A buffer after its size; the size is cut to 32 bits. */
  method AppendSized(body: WasmBuf, section: WasmBuf)
    requires body.Valid() && section.Valid() && body != section && body.data != section.data
    modifies section, section.data
    ensures section.Valid() && (section.data == old(section.data) || fresh(section.data))
    ensures body.size < LIMIT ==>
              section.Contents() == old(section.Contents()) + (EncodeU(body.size) + old(body.Contents()))
  {
    hide EncodeU;
    var bytes := body.data[..body.size];
    section.LebU32(body.size % LIMIT);
    section.PushAll(bytes);
    assert old(section.Contents()) + EncodeU(body.size % LIMIT) + bytes
        == old(section.Contents()) + (EncodeU(body.size % LIMIT) + bytes);
  }

  lemma BodyParts(b: Body)
    ensures EncodeBody(b) == EncodeU(|b.locals|) + EncodeLocals(b.locals) + EncodeCode(b.code) + [0x0b]
  {
    hide EncodeU;
    hide EncodeLocals;
    hide EncodeCode;
  }

  /** `yw_fn_ctx_init` and `yw_declare_instr_locals` */
  method BuildLayout(f: Function) returns (c: FnCtx, ok: bool)
    requires |f.params| + |InstrsOf(f.blocks)| < LIMIT
    ensures fresh(c) && c.Valid() && c.fn == f
    ensures ok == LayoutOf(f).Some?
    ensures ok ==> c.State() == LayoutOf(f).value
  {
    hide AddParams;
    hide DeclareInstrs;
    hide InstrsOf;
    c := new FnCtx(f);
    ok := c.InitParams();
    if ok {
      ok := c.DeclareInstrLocals();
    }
  }

  /** `yw_build_code_section` */
  method BuildCodeSection(ieee: Ieee, m: ModuleContext, prog: Program, session: GlobalSession, section: WasmBuf)
    returns (ok: bool)
    requires section.Valid() && IndicesSmall(m.State()) && TableOk(session.State()) && |m.defs| < LIMIT
    requires forall k :: 0 <= k < |m.defs| ==> DefFits(prog, m.defs[k])
    modifies section, section.data, session
    ensures section.Valid() && (section.data == old(section.data) || fresh(section.data))
    ensures var bodies := LowerFunctions(ieee, m.State(), prog, m.defs, old(session.State()));
            && TableOk(session.State()) && session.State() == bodies.1 && ok == bodies.0.Some?
            && (ok ==> |bodies.0.value| == |m.defs|)
            && (ok && BodiesSmall(bodies.0.value) ==>
                  section.Contents() == old(section.Contents()) + (EncodeU(|m.defs|) + EncodeBodies(bodies.0.value)))
  {
    hide EncodeU;
    hide EncodeBody;
    hide TableOk;
    hide IndicesSmall;
    hide LowerFunction;
    hide LowerFunctions;
    hide FollowedBy;
    hide DefFits;
    hide BodiesSmall;
    section.LebU32(|m.defs|);
    ghost var start := old(section.Contents()) + EncodeU(|m.defs|);
    ghost var all := LowerFunctions(ieee, m.State(), prog, m.defs, session.State());
    ghost var done: seq<Body> := [];
    assert m.defs[0..] == m.defs;
    FollowedEnds(all, done);
    BodiesEnds(start);
    for k := 0 to |m.defs|
      invariant section.Valid() && (section.data == old(section.data) || fresh(section.data))
                && TableOk(session.State())
      invariant all == (FollowedBy(done, LowerFunctions(ieee, m.State(), prog, m.defs[k..], session.State()).0),
                        LowerFunctions(ieee, m.State(), prog, m.defs[k..], session.State()).1)
      invariant |done| == k
      invariant BodiesSmall(done) ==> section.Contents() == start + EncodeBodies(done)
    {
      assert DefFits(prog, m.defs[k]);
      DefInProgram(prog, m.defs[k]);
      var f := prog.fns[m.defs[k].fn];
      FunctionsFrom(ieee, m.State(), prog, m.defs, k, session.State(), done);
      ghost var was := session.State();
      ghost var first := LowerFunction(ieee, m.State(), prog, f, was);
      var built := BuildFunctionBody(ieee, m, prog, f, session, section);
      if !built {
        assert first.0.None? && first.1 == session.State();
        assert all == (None, first.1);
        return false;
      }
      BodiesSnoc(start, done, first.0.value);
      done := done + [first.0.value];
    }
    assert m.defs[|m.defs|..] == [];
    NoFunctions(ieee, m.State(), prog, session.State());
    FollowedEnds(all, done);
    assert all == (Some(done), session.State());
    assert start + EncodeBodies(done) == old(section.Contents()) + (EncodeU(|m.defs|) + EncodeBodies(done));
    ok := true;
  }

  predicate DefFits(prog: Program, d: FuncDef) {
    d.fn < |prog.fns| && |prog.fns[d.fn].params| + |InstrsOf(prog.fns[d.fn].blocks)| < LIMIT
  }

  lemma DefInProgram(prog: Program, d: FuncDef)
    requires DefFits(prog, d)
    ensures d.fn < |prog.fns| && |prog.fns[d.fn].params| + |InstrsOf(prog.fns[d.fn].blocks)| < LIMIT
  {
  }

  predicate BodiesSmall(bodies: seq<Body>) {
    forall k :: 0 <= k < |bodies| ==> |EncodeBody(bodies[k])| < LIMIT
  }

  function FollowedBy(done: seq<Body>, rest: Option<seq<Body>>): Option<seq<Body>> {
    match rest
    case None => None
    case Some(bodies) => Some(done + bodies)
  }

  lemma FollowedEnds(all: (Option<seq<Body>>, GlobalTable), done: seq<Body>)
    ensures all == (FollowedBy([], all.0), all.1) && FollowedBy(done, Some([])) == Some(done)
  {
    if all.0.Some? {
      assert [] + all.0.value == all.0.value;
    }
    assert done + [] == done;
  }

  lemma BodiesEnds(start: seq<byte>)
    ensures BodiesSmall([]) && start + EncodeBodies([]) == start
  {
  }

  lemma NoFunctions(ieee: Ieee, m: ModuleCtx, prog: Program, g: GlobalTable)
    ensures LowerFunctions(ieee, m, prog, [], g) == (Some([]), g)
  {
  }

  lemma FunctionsFrom(ieee: Ieee, m: ModuleCtx, prog: Program, defs: seq<FuncDef>, k: nat, g: GlobalTable,
                      done: seq<Body>)
    requires k < |defs| && defs[k].fn < |prog.fns|
    ensures var first := LowerFunction(ieee, m, prog, prog.fns[defs[k].fn], g);
            var all := LowerFunctions(ieee, m, prog, defs[k..], g);
            (FollowedBy(done, all.0), all.1)
            == if first.0.None? then (None, first.1)
               else (FollowedBy(done + [first.0.value], LowerFunctions(ieee, m, prog, defs[k + 1..], first.1).0),
                     LowerFunctions(ieee, m, prog, defs[k + 1..], first.1).1)
  {
    hide LowerFunction;
    assert defs[k..][0] == defs[k] && defs[k..][1..] == defs[k + 1..];
    var first := LowerFunction(ieee, m, prog, prog.fns[defs[k].fn], g);
    if first.0.Some? {
      var rest := LowerFunctions(ieee, m, prog, defs[k + 1..], first.1);
      if rest.0.Some? {
        assert done + ([first.0.value] + rest.0.value) == done + [first.0.value] + rest.0.value;
      }
    }
  }

  lemma BodiesSnoc(start: seq<byte>, done: seq<Body>, b: Body)
    ensures BodiesSmall(done + [b]) ==> BodiesSmall(done) && |EncodeBody(b)| < LIMIT
    ensures start + EncodeBodies(done) + (EncodeU(|EncodeBody(b)|) + EncodeBody(b)) == start + EncodeBodies(done + [b])
  {
    hide EncodeU;
    hide EncodeBody;
    BodiesAppend(done, b);
    if BodiesSmall(done + [b]) {
      assert (done + [b])[|done|] == b;
      assert forall k :: 0 <= k < |done| ==> (done + [b])[k] == done[k];
    }
  }

  lemma {:induction false} BodiesAppend(done: seq<Body>, b: Body)
    ensures EncodeBodies(done + [b]) == EncodeBodies(done) + (EncodeU(|EncodeBody(b)|) + EncodeBody(b))
    decreases |done|
  {
    hide EncodeU;
    hide EncodeBody;
    if done == [] {
      assert done + [b] == [b] && [b][1..] == [];
    } else {
      assert (done + [b])[0] == done[0] && (done + [b])[1..] == done[1..] + [b];
      BodiesAppend(done[1..], b);
    }
  }

  // ---- The whole module --------------------------------------------------------------

  /** The 32-bit counters of the sections do not overflow. */
  predicate CtxFits(m: ModuleCtx, prog: Program) {
    && |m.types| < LIMIT && (forall k :: 0 <= k < |m.types| ==> |m.types[k].params| < LIMIT)
    && 4 + |m.imports| < LIMIT && (forall k :: 0 <= k < |m.imports| ==> FuncDefFits(prog, m.imports[k]))
    && |m.defs| < LIMIT && (forall k :: 0 <= k < |m.defs| ==> m.defs[k].typeIndex < LIMIT && DefFits(prog, m.defs[k]))
    && IndicesSmall(m)
    && (Lowering.Entry(m, prog).Some? ==> Lowering.Entry(m, prog).value < LIMIT)
  }

  /** Sizes of bodies and sections fit 32 bits. */
  predicate SizesFit(m: Module) {
    && BodiesSmall(m.bodies)
    && |TypeSection(m)| < LIMIT && |ImportSection(m)| < LIMIT && |FunctionSection(m)| < LIMIT
    && |ExportSection(m)| < LIMIT && |CodeSection(m)| < LIMIT
  }

  /** The four sections before the code section. */
  method BuildHeads(m: ModuleContext, prog: Program)
    returns (types: WasmBuf, imports: WasmBuf, functions: WasmBuf, exports: WasmBuf, ok: bool)
    requires CtxFits(m.State(), prog)
    ensures types.Valid() && imports.Valid() && functions.Valid() && exports.Valid()
    ensures fresh(types) && fresh(imports) && fresh(functions) && fresh(exports)
    ensures fresh(types.data) && fresh(imports.data) && fresh(functions.data) && fresh(exports.data)
    ensures ok == Lowering.Entry(m.State(), prog).Some?
    ensures HeadsAre(m.State(), prog, types.Contents(), imports.Contents(), functions.Contents(), exports.Contents())
  {
    hide Lowering.Entry;
    hide EncodeTypes;
    hide EncodeImports;
    hide EncodeIndices;
    hide EncodeU;
    hide EncodeName;
    hide NameBytes;
    hide EncodeMemoryImport;
    hide IndicesSmall;
    hide TypeIndices;
    hide ImportsOf;
    types := new WasmBuf();
    imports := new WasmBuf();
    functions := new WasmBuf();
    exports := new WasmBuf();
    m.BuildTypeSection(types);
    m.BuildImportSection(prog, imports);
    m.BuildFunctionSection(functions);
    ok := m.BuildExportSection(prog, exports);
  }

  predicate HeadsAre(m: ModuleCtx, prog: Program, types: seq<byte>, imports: seq<byte>, functions: seq<byte>,
                     exports: seq<byte>)
  {
    && types == [] + (EncodeU(|m.types|) + EncodeTypes(m.types))
    && (var all := BUILTIN_IMPORTS + ImportsOf(m.imports, prog);
        imports == [] + (EncodeU(1 + |all|) + (EncodeMemoryImport() + EncodeImports(all))))
    && functions == [] + (EncodeU(|m.defs|) + EncodeIndices(TypeIndices(m.defs)))
    && (var entry := Lowering.Entry(m, prog);
        entry.Some? ==>
          exports == [] + (EncodeU(1) + (EncodeName(NameBytes(ENTRY_NAME)) + ([0x00] + EncodeU(entry.value)))))
  }

  /** `ylc_lower_mir_to_wasm`: the bytes of the lowered program, or nothing if it cannot be lowered. */
  method LowerMirToWasm(ieee: Ieee, prog: Program, session: GlobalSession) returns (r: Option<seq<byte>>)
    requires ProgramOk(prog) && TableOk(session.State())
    requires BuildCtx(prog).Some? ==> CtxFits(BuildCtx(prog).value, prog)
    modifies session
    ensures var lowered := LowerProgram(ieee, prog, old(session.State()));
            && TableOk(session.State()) && session.State() == lowered.1
            && r.Some? == lowered.0.Some?
            && (r.Some? && SizesFit(lowered.0.value) ==> r.value == EncodeModule(lowered.0.value))
  {
    hide TableOk;
    hide BuildCtx;
    hide LowerFunctions;
    hide Lowering.Entry;
    hide EncodeTypes;
    hide EncodeImports;
    hide EncodeIndices;
    hide EncodeBodies;
    hide EncodeU;
    hide EncodeName;
    hide NameBytes;
    hide EncodeMemoryImport;
    hide EncodeSection;
    hide BodiesSmall;
    hide IndicesSmall;
    hide TypeIndices;
    hide ImportsOf;
    hide HeadsAre;
    var m := new ModuleContext();
    var ok := m.Init(prog);
    if !ok {
      return None;
    }
    var codes := new WasmBuf();
    var types, imports, functions, exports, found := BuildHeads(m, prog);
    if !found {
      return None;
    }
    ok := BuildCodeSection(ieee, m, prog, session, codes);
    if !ok {
      return None;
    }
    ghost var wm := LowerProgram(ieee, prog, old(session.State())).0.value;
    SectionsAre(m.State(), prog, wm, types.Contents(), imports.Contents(), functions.Contents(), exports.Contents());
    var bytes := JoinSections(types, imports, functions, exports, codes, wm);
    r := Some(bytes);
  }

  lemma SectionsAre(m: ModuleCtx, prog: Program, wm: Module, types: seq<byte>, imports: seq<byte>, functions: seq<byte>,
                    exports: seq<byte>)
    requires Lowering.Entry(m, prog).Some? && wm == ModuleOf(m, prog, Lowering.Entry(m, prog).value, wm.bodies)
    requires |wm.bodies| == |m.defs| && HeadsAre(m, prog, types, imports, functions, exports)
    ensures types == TypeSection(wm) && imports == ImportSection(wm) && functions == FunctionSection(wm)
    ensures exports == ExportSection(wm)
    ensures [] + (EncodeU(|m.defs|) + EncodeBodies(wm.bodies)) == CodeSection(wm)
  {
    hide EncodeU;
    hide EncodeTypes;
    hide EncodeImports;
    hide EncodeIndices;
    hide EncodeBodies;
    hide EncodeName;
    hide NameBytes;
    hide EncodeMemoryImport;
    hide ImportsOf;
    hide Lowering.Entry;
  }

  /** The header and the sections, in order. */
  method JoinSections(types: WasmBuf, imports: WasmBuf, functions: WasmBuf, exports: WasmBuf, codes: WasmBuf,
                      ghost wm: Module)
    returns (bytes: seq<byte>)
    requires types.Valid() && imports.Valid() && functions.Valid() && exports.Valid() && codes.Valid()
    requires types.Contents() == TypeSection(wm) && imports.Contents() == ImportSection(wm)
    requires functions.Contents() == FunctionSection(wm) && exports.Contents() == ExportSection(wm)
    requires BodiesSmall(wm.bodies) ==> codes.Contents() == CodeSection(wm)
    ensures SizesFit(wm) ==> bytes == EncodeModule(wm)
  {
    hide EncodeSection;
    hide TypeSection;
    hide ImportSection;
    hide FunctionSection;
    hide ExportSection;
    hide CodeSection;
    hide BodiesSmall;
    var out := new WasmBuf();
    out.PushAll(MAGIC);
    out.Section(0x01, types.data[..types.size]);
    out.Section(0x02, imports.data[..imports.size]);
    out.Section(0x03, functions.data[..functions.size]);
    out.Section(0x07, exports.data[..exports.size]);
    out.Section(0x0a, codes.data[..codes.size]);
    bytes := out.data[..out.size];
    if SizesFit(wm) {
      SixParts(MAGIC, EncodeSection(0x01, TypeSection(wm)), EncodeSection(0x02, ImportSection(wm)),
               EncodeSection(0x03, FunctionSection(wm)), EncodeSection(0x07, ExportSection(wm)),
               EncodeSection(0x0a, CodeSection(wm)));
    }
  }

  lemma SixParts(a: seq<byte>, b: seq<byte>, c: seq<byte>, d: seq<byte>, e: seq<byte>, f: seq<byte>)
    ensures [] + a + b + c + d + e + f == a + (b + (c + (d + (e + f))))
  {
  }
}
