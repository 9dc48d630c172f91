/** Compilation preserves meaning: the emitted code computes what MIR computes. */
module Simulation {
  import opened Wrappers
  import opened Bits
  import opened Leb128
  import opened Mir
  import opened MirEval
  import opened Wasm
  import opened Globals
  import opened Lowering
  import opened WellTyped
  import opened LayoutProofs
  import opened NumericProofs
  import opened ModuleProofs
  import opened CallProofs

  // ---- Relations -----------------------------------------------------------------

  /** Slots share no byte, and their addresses are positive 32-bit numbers. */
  ghost predicate SlotsOk(slots: map<string, nat>) {
    && (forall name :: name in slots ==> slots[name] + SLOT_SIZE <= GLOBAL_END)
    && (forall a, b :: a in slots && b in slots && a != b ==> Disjoint(slots[a], slots[b]))
  }

  /** One global's cell is what memory holds at its address. */
  predicate CellAt(w: World, st: Store, name: string, at: nat) {
    && name in w.cells && |w.cells[name]| == 8
    && at + SLOT_SIZE <= |st.mem|
    && st.mem[at..at + SLOT_SIZE] == w.cells[name]
  }

  /** Globals are in memory, and the same things happened outside. */
  ghost predicate WorldRel(w: World, st: Store, slots: map<string, nat>) {
    && w.trace == st.trace
    && forall name :: name in slots ==> CellAt(w, st, name, slots[name])
  }

  /** Locals have their types, and defined values are in their locals. */
  ghost predicate EnvRel(l: Layout, env: Env, locals: seq<WVal>) {
    && |locals| == |l.types|
    && (forall n :: 0 <= n < |locals| ==> TypeOf(locals[n]) == l.types[n])
    && (forall v :: v in env ==> Holds(l, v, locals, env[v]))
  }

  predicate Holds(l: Layout, v: ValueId, locals: seq<WVal>, x: Value) {
    && v < |l.slots| && l.slots[v].InLocal? && l.slots[v].local < |locals|
    && locals[l.slots[v].local] == Rep(x)
  }

  /** What a program, its module and its slot table have in common. */
  ghost predicate Linked(mc: Machine, prog: Program, m: ModuleCtx, wm: Module, slots: map<string, nat>) {
    && CtxOk(m, prog)
    && ModuleFor(m, prog, wm)
    && SlotsOk(slots)
    && WellTypedProgram(prog, m) && NoTruncation(prog, m)
    && forall k :: 0 <= k < |m.defs| ==>
         (m.defs[k].fn < |prog.fns| && BodyFor(mc.ieee, m, prog, prog.fns[m.defs[k].fn], slots, wm.bodies[k]))
  }

  /** After the code of an action: its value, if it has one, is alone on the stack. */
  ghost predicate AfterAction(s: Step, r: Run, i: Instr, env: Env, locals: seq<WVal>, slots: map<string, nat>) {
    match s
    case Go(env', w') =>
      && r.Fell? && r.locals == locals && WorldRel(w', r.store, slots)
      && (if TypeToVal(i.ty).None? then env' == env && r.stack == []
          else |r.stack| == 1 && TypeOf(r.stack[0]) == TypeToVal(i.ty).value
               && r.stack[0] == Rep(HostView(r.stack[0]))
               && env' == Bind(env, i.result, HostView(r.stack[0])))
    case Halt(w') => r.Trap? && WorldRel(w', r.store, slots)
    case NoFuel => r.Exhausted?
    case Wrong => false
  }

  /** After the code of instructions: the stack is empty again. */
  ghost predicate AfterInstrs(s: Step, r: Run, l: Layout, slots: map<string, nat>) {
    match s
    case Go(env', w') => r.Fell? && r.stack == [] && EnvRel(l, env', r.locals) && WorldRel(w', r.store, slots)
    case Halt(w') => r.Trap? && WorldRel(w', r.store, slots)
    case NoFuel => r.Exhausted?
    case Wrong => false
  }

  /** After a call. */
  ghost predicate AfterCall(a: Answer, o: Outcome, result: Option<ValType>, slots: map<string, nat>) {
    match a
    case Answer(v, w') =>
      && o.Results? && WorldRel(w', o.store, slots)
      && (if v.Some? then result == Some(ClassOf(v.value)) && o.vals == [Rep(v.value)]
          else result.None? && o.vals == [])
    case HaltCall(w') => o.TrapOut? && WorldRel(w', o.store, slots)
    case NoFuelCall => o.ExhaustedOut?
    case WrongCall => false
  }

  // ---- Running code in pieces --------------------------------------------------------

  lemma Exec1(mc: Machine, wm: Module, fuel: nat, i: Instruction, locals: seq<WVal>, stack: seq<WVal>, st: Store)
    ensures Exec(mc, wm, fuel, [i], locals, stack, st) == Wasm.Step(mc, wm, fuel, i, locals, stack, st)
  {
  }

  /** Code run from where earlier code fell through. */
  function Then(mc: Machine, wm: Module, fuel: nat, r: Run, code: Code): Run {
    match r
    case Fell(locals, stack, st) => Exec(mc, wm, fuel, code, locals, stack, st)
    case other => other
  }

  lemma {:induction false} ExecAppend(mc: Machine, wm: Module, fuel: nat, a: Code, b: Code,
                                      locals: seq<WVal>, stack: seq<WVal>, st: Store)
    ensures Exec(mc, wm, fuel, a + b, locals, stack, st)
            == Then(mc, wm, fuel, Exec(mc, wm, fuel, a, locals, stack, st), b)
    decreases |a|
  {
    hide Wasm.Step;
    if a == [] {
      assert a + b == b;
    } else {
      assert (a + b)[0] == a[0] && (a + b)[1..] == a[1..] + b;
      match Wasm.Step(mc, wm, fuel, a[0], locals, stack, st)
      case Fell(locals', stack', st') => ExecAppend(mc, wm, fuel, a[1..], b, locals', stack', st');
      case _ =>
    }
  }

  lemma RepView(v: Value)
    ensures HostView(Rep(v)) == v
  {
  }

  lemma RepOfBits(c: ValType, n: nat)
    ensures Rep(OfBits(c, n)) == FromBits(c, n)
  {
  }

  lemma RepBits(v: Value)
    ensures NatBits(Rep(v)) == ToBits(v)
  {
  }

  /** A defined value that the lowering can emit is pushed. */
  lemma EmitRun(mc: Machine, wm: Module, fuel: nat, f: Function, l: Layout, v: ValueId, env: Env,
                locals: seq<WVal>, stack: seq<WVal>, st: Store)
    requires LayoutOk(f, l) && EnvRel(l, env, locals) && v in env
    ensures EmitValue(l, v).Some?
    ensures Exec(mc, wm, fuel, EmitValue(l, v).value, locals, stack, st) == Fell(locals, stack + [Rep(env[v])], st)
    ensures ValueType(l, f, v) == Some(ClassOf(env[v])) == ValueClass(f, v)
  {
    hide ValueClass;
    assert Holds(l, v, locals, env[v]);
    assert LayoutProofs.SlotOk(f, l, v);
    Exec1(mc, wm, fuel, LocalGet(l.slots[v].local), locals, stack, st);
  }

  // ---- Actions without calls -----------------------------------------------------------

  lemma ConstRun(mc: Machine, wm: Module, fuel: nat, f: Function, l: Layout, i: Instr, k: Constant, env: Env,
                 w: World, locals: seq<WVal>, st: Store, slots: map<string, nat>)
    requires LayoutOk(f, l) && EnvRel(l, env, locals) && WorldRel(w, st, slots)
    requires i.action == Const(k) && ResultOk(f, i)
    requires if TypeToVal(i.ty).Some? then ConstFits(k, TypeToVal(i.ty).value)
             else i.result.Some? || k == CVoid || k == CUndef
    requires StoreResult(l, i).Some? && LowerConst(mc.ieee, l, i, k).Some?
    ensures AfterAction(EvalAction(mc, f, i, env, w),
                        Exec(mc, wm, fuel, LowerConst(mc.ieee, l, i, k).value, locals, [], st), i, env, locals, slots)
  {
    hide WorldRel;
    hide EnvRel;
    hide ValueClass;
    hide Rep;
    hide HostView;
    hide EvalConst;
    hide LowerConst;
    hide Exec;
    var c := TypeToVal(i.ty);
    if i.result.Some? {
      assert LayoutProofs.SlotOk(f, l, i.result.value);
    }
    if c.Some? {
      ConstCode(mc.ieee, l, i, k, c.value);
      ConstValue(mc, k, c.value, locals, st);
      Exec1(mc, wm, fuel, ConstInstr(mc.ieee, k, c.value), locals, [], st);
      RepView(EvalConst(mc.ieee, k, c.value).value);
    } else {
      NoConstCode(mc.ieee, l, i, k);
      ExecNothing(mc, wm, fuel, locals, st);
    }
  }

  lemma ConstValue(mc: Machine, k: Constant, c: ValType, locals: seq<WVal>, st: Store)
    requires ConstFits(k, c)
    ensures var i := ConstInstr(mc.ieee, k, c);
            && !i.ICall? && EvalConst(mc.ieee, k, c).Some?
            && StepPlain(mc, i, locals, [], st) == Fell(locals, [Rep(EvalConst(mc.ieee, k, c).value)], st)
            && ClassOf(EvalConst(mc.ieee, k, c).value) == c
  {
    match k
    case CUint64(u) => WrapConst(u);
    case _ =>
  }

  lemma WrapConst(u: u64)
    ensures Signed32(u % 0x1_0000_0000) % 0x1_0000_0000 == u % 0x1_0000_0000
    ensures Signed64(u) % 0x1_0000_0000_0000_0000 == u
  {
  }

  lemma ExecNothing(mc: Machine, wm: Module, fuel: nat, locals: seq<WVal>, st: Store)
    ensures Exec(mc, wm, fuel, [], locals, [], st) == Fell(locals, [], st)
  {
  }

  lemma UnaryRun(mc: Machine, wm: Module, fuel: nat, f: Function, l: Layout, v: ValueId, opcode: byte, op: Operator,
                 env: Env, locals: seq<WVal>, st: Store)
    requires LayoutOk(f, l) && EnvRel(l, env, locals) && v in env
    requires Decode(opcode) == Some(op) && |Operands(op)| == 1
    ensures EmitValue(l, v).Some?
    ensures Exec(mc, wm, fuel, EmitValue(l, v).value + [Numeric(opcode)], locals, [], st)
            == match Compute(mc.ieee, op, [Rep(env[v])])
               case Computed(x) => Fell(locals, [x], st)
               case Trapped => Trap(st)
               case IllTyped => Stuck
  {
    hide Compute;
    hide EnvRel;
    hide LayoutOk;
    EmitRun(mc, wm, fuel, f, l, v, env, locals, [], st);
    ExecAppend(mc, wm, fuel, EmitValue(l, v).value, [Numeric(opcode)], locals, [], st);
    var stack := [] + [Rep(env[v])];
    Exec1(mc, wm, fuel, Numeric(opcode), locals, stack, st);
    assert stack[0..] == [Rep(env[v])] && forall x: WVal :: stack[..0] + [x] == [x];
  }

  lemma BinaryRun(mc: Machine, wm: Module, fuel: nat, f: Function, l: Layout, a: ValueId, b: ValueId, opcode: byte,
                  op: Operator, env: Env, locals: seq<WVal>, st: Store)
    requires LayoutOk(f, l) && EnvRel(l, env, locals) && a in env && b in env
    requires Decode(opcode) == Some(op) && |Operands(op)| == 2
    ensures EmitValue(l, a).Some? && EmitValue(l, b).Some?
    ensures Exec(mc, wm, fuel, EmitValue(l, a).value + EmitValue(l, b).value + [Numeric(opcode)], locals, [], st)
            == match Compute(mc.ieee, op, [Rep(env[a]), Rep(env[b])])
               case Computed(x) => Fell(locals, [x], st)
               case Trapped => Trap(st)
               case IllTyped => Stuck
  {
    hide Compute;
    hide EnvRel;
    hide LayoutOk;
    var sa := [] + [Rep(env[a])];
    var sab := sa + [Rep(env[b])];
    EmitRun(mc, wm, fuel, f, l, a, env, locals, [], st);
    EmitRun(mc, wm, fuel, f, l, b, env, locals, sa, st);
    var ca, cb := EmitValue(l, a).value, EmitValue(l, b).value;
    ExecAppend(mc, wm, fuel, ca, cb, locals, [], st);
    ExecAppend(mc, wm, fuel, ca + cb, [Numeric(opcode)], locals, [], st);
    Exec1(mc, wm, fuel, Numeric(opcode), locals, sab, st);
    assert sab[0..] == [Rep(env[a]), Rep(env[b])] && forall x: WVal :: sab[..0] + [x] == [x];
  }

  lemma PrimitiveRun(mc: Machine, wm: Module, fuel: nat, f: Function, l: Layout, i: Instr, op: PrimOp,
                     ops: seq<ValueId>, env: Env, w: World, locals: seq<WVal>, st: Store, slots: map<string, nat>)
    requires LayoutOk(f, l) && EnvRel(l, env, locals) && WorldRel(w, st, slots)
    requires i.action == Primitive(op, ops) && forall v :: v in ops ==> v in env
    requires LowerPrimitive(l, f, op, ops).Some?
    requires if op == LNOT then
               TypeToVal(i.ty) == Some(I32)
                   && (ValueClass(f, ops[0]) == Some(I32) || ValueClass(f, ops[0]) == Some(I64))
             else
               TypeToVal(i.ty).Some? && ValueClass(f, ops[0]).Some? && ValueClass(f, ops[1]) == ValueClass(f, ops[0])
               && OpResult(op, ValueClass(f, ops[0]).value) == TypeToVal(i.ty)
    ensures AfterAction(EvalAction(mc, f, i, env, w),
                        Exec(mc, wm, fuel, LowerPrimitive(l, f, op, ops).value, locals, [], st), i, env, locals, slots)
  {
    hide WorldRel;
    hide EnvRel;
    hide LayoutOk;
    hide ValueClass;
    hide Compute;
    hide EvalOp;
    hide Decode;
    hide Opcode;
    EmitRun(mc, wm, fuel, f, l, ops[0], env, locals, [], st);
    var a := env[ops[0]];
    if op == LNOT {
      NotCorrect(mc.ieee, a);
      var opcode: byte := if ClassOf(a) == I64 then 0x50 else 0x45;
      UnaryRun(mc, wm, fuel, f, l, ops[0], opcode, Decode(opcode).value, env, locals, st);
      RepView(Truth(Uns(a) == 0));
    } else {
      EmitRun(mc, wm, fuel, f, l, ops[1], env, locals, [], st);
      var b := env[ops[1]];
      OperatorCorrect(mc.ieee, op, a, b);
      OpResultClass(mc.ieee, op, a, b);
      var opcode := Opcode(op, ClassOf(a)).value;
      BinaryRun(mc, wm, fuel, f, l, ops[0], ops[1], opcode, Decode(opcode).value, env, locals, st);
      if EvalOp(mc.ieee, op, a, b).Some? {
        RepView(EvalOp(mc.ieee, op, a, b).value);
      }
    }
  }

  lemma OpResultClass(ieee: Ieee, op: PrimOp, a: Value, b: Value)
    requires ClassOf(a) == ClassOf(b) && OpResult(op, ClassOf(a)).Some?
    ensures EvalOp(ieee, op, a, b).Some? ==> ClassOf(EvalOp(ieee, op, a, b).value) == OpResult(op, ClassOf(a)).value
  {
  }

  /** A cast leaves the converted value, or traps; the truncation of a 64-bit float to a 64-bit integer gets stuck. */
  lemma CastRun(mc: Machine, wm: Module, fuel: nat, f: Function, l: Layout, i: Instr, ops: seq<ValueId>, from: Type,
                to: Type, env: Env, w: World, locals: seq<WVal>, st: Store, slots: map<string, nat>)
    requires LayoutOk(f, l) && EnvRel(l, env, locals) && WorldRel(w, st, slots)
    requires i.action == Cast(ops, from, to) && forall v :: v in ops ==> v in env
    requires LowerCast(l, ops, TypeToVal(from), TypeToVal(to)).Some?
    requires ValueClass(f, ops[0]).Some? && TypeToVal(i.ty).Some?
             && CastResult(TypeToVal(from), TypeToVal(to), ValueClass(f, ops[0]).value) == TypeToVal(i.ty)
    ensures AfterAction(EvalAction(mc, f, i, env, w),
                        Exec(mc, wm, fuel, LowerCast(l, ops, TypeToVal(from), TypeToVal(to)).value, locals, [], st),
                        i, env, locals, slots)
            <==> !LongTruncation(TypeToVal(from), TypeToVal(to))
    ensures LongTruncation(TypeToVal(from), TypeToVal(to)) ==>
              Exec(mc, wm, fuel, LowerCast(l, ops, TypeToVal(from), TypeToVal(to)).value, locals, [], st) == Stuck
  {
    hide WorldRel;
    hide EnvRel;
    hide LayoutOk;
    hide ValueClass;
    hide Compute;
    hide EvalCast;
    hide Decode;
    hide CastOpcode;
    EmitRun(mc, wm, fuel, f, l, ops[0], env, locals, [], st);
    var a := env[ops[0]];
    var cf, ct := TypeToVal(from), TypeToVal(to);
    if cf.None? || ct.None? || cf == ct {
      CastSame(mc.ieee, cf, ct, a);
      RepView(a);
    } else {
      CastCorrect(mc.ieee, cf.value, ct.value, a);
      CastClass(mc.ieee, cf.value, ct.value, a);
      var opcode := CastOpcode(cf.value, ct.value).value;
      UnaryRun(mc, wm, fuel, f, l, ops[0], opcode, Decode(opcode).value, env, locals, st);
      if !LongTruncation(cf, ct) && EvalCast(mc.ieee, cf, ct, a).Some? {
        RepView(EvalCast(mc.ieee, cf, ct, a).value);
      }
    }
  }

  lemma CastSame(ieee: Ieee, from: Option<ValType>, to: Option<ValType>, v: Value)
    requires from.None? || to.None? || from == to
    ensures CastResult(from, to, ClassOf(v)) == Some(ClassOf(v)) && EvalCast(ieee, from, to, v) == Some(v)
  {
  }

  lemma CastClass(ieee: Ieee, from: ValType, to: ValType, v: Value)
    requires from != to && from == ClassOf(v) && CastResult(Some(from), Some(to), from).Some?
    ensures CastResult(Some(from), Some(to), from) == Some(to)
    ensures EvalCast(ieee, Some(from), Some(to), v).Some?
            ==> ClassOf(EvalCast(ieee, Some(from), Some(to), v).value) == to
  {
  }

  // ---- Globals ---------------------------------------------------------------------

  lemma CellPrefix(w: World, st: Store, name: string, at: nat, k: nat)
    requires CellAt(w, st, name, at) && k <= 8
    ensures st.mem[at..at + k] == w.cells[name][..k]
  {
    assert st.mem[at..at + SLOT_SIZE][..k] == st.mem[at..at + k];
  }

  /** A load reads the cell of its global. */
  lemma LoadRun(mc: Machine, wm: Module, fuel: nat, f: Function, l: Layout, i: Instr, name: string, env: Env, w: World,
                locals: seq<WVal>, st: Store, slots: map<string, nat>)
    requires WorldRel(w, st, slots) && SlotsOk(slots)
    requires i.action == GlobalLoad(name) && name in slots
    ensures LowerGlobalLoad(Some(slots[name]), i).Some?
    ensures AfterAction(EvalAction(mc, f, i, env, w),
                        Exec(mc, wm, fuel, LowerGlobalLoad(Some(slots[name]), i).value, locals, [], st),
                        i, env, locals, slots)
  {
    hide FromLittleEndian;
    hide OfBits;
    hide Exec;
    hide Wasm.Step;
    hide FromBits;
    hide TypeOf;
    var c, at := TypeToVal(i.ty), slots[name];
    assert CellAt(w, st, name, at);
    if c.Some? {
      LoadExec(mc, wm, fuel, c.value, locals, w, st, name, at);
      var n := FromLittleEndian(w.cells[name][..Width(c.value)]);
      RepOfBits(c.value, n);
      RepView(OfBits(c.value, n));
      FromBitsType(c.value, n);
    } else {
      ExecNothing(mc, wm, fuel, locals, st);
    }
  }

  lemma FromBitsType(c: ValType, n: nat)
    ensures TypeOf(FromBits(c, n)) == c
  {
  }

  /** Address and load push what the cell holds. */
  lemma LoadExec(mc: Machine, wm: Module, fuel: nat, c: ValType, locals: seq<WVal>, w: World, st: Store, name: string,
                 at: nat)
    requires CellAt(w, st, name, at) && at < 0x8000_0000
    ensures Exec(mc, wm, fuel, [I32Const(at), ILoad(c, AlignOf(c), 0)], locals, [], st)
            == Fell(locals, [FromBits(c, FromLittleEndian(w.cells[name][..Width(c)]))], st)
  {
    hide FromLittleEndian;
    hide Exec;
    hide Wasm.Step;
    hide FromBits;
    var load := ILoad(c, AlignOf(c), 0);
    ExecAppend(mc, wm, fuel, [I32Const(at)], [load], locals, [], st);
    assert [I32Const(at)] + [load] == [I32Const(at), load];
    Exec1(mc, wm, fuel, I32Const(at), locals, [], st);
    Exec1(mc, wm, fuel, load, locals, [WI32(at)], st);
    ConstStep(mc, wm, fuel, at, locals, st);
    LoadStep(mc, wm, fuel, load, locals, at, st);
    CellPrefix(w, st, name, at, Width(c));
  }

  lemma ConstStep(mc: Machine, wm: Module, fuel: nat, at: nat, locals: seq<WVal>, st: Store)
    requires at < 0x8000_0000
    ensures Wasm.Step(mc, wm, fuel, I32Const(at), locals, [], st) == Fell(locals, [WI32(at)], st)
  {
    assert [] + [WI32(at)] == [WI32(at)];
  }

  lemma LoadStep(mc: Machine, wm: Module, fuel: nat, load: Instruction, locals: seq<WVal>, at: nat, st: Store)
    requires load.ILoad? && load.offset == 0 && at < 0x8000_0000 && at + Width(load.c) <= |st.mem|
    ensures Wasm.Step(mc, wm, fuel, load, locals, [WI32(at)], st)
            == Fell(locals, [FromBits(load.c, FromLittleEndian(st.mem[at..at + Width(load.c)]))], st)
  {
    hide FromLittleEndian;
    hide FromBits;
    assert [WI32(at)][..0] == [];
  }

  lemma OverwriteAt(mem: seq<byte>, at: nat, bytes: seq<byte>)
    requires at + |bytes| <= at + SLOT_SIZE <= |mem|
    ensures Overwrite(mem, at, bytes)[at..at + SLOT_SIZE] == bytes + mem[at..at + SLOT_SIZE][|bytes|..]
  {
  }

  lemma OverwriteElsewhere(mem: seq<byte>, at: nat, bytes: seq<byte>, other: nat)
    requires at + |bytes| <= at + SLOT_SIZE <= |mem| && other + SLOT_SIZE <= |mem| && Disjoint(at, other)
    ensures Overwrite(mem, at, bytes)[other..other + SLOT_SIZE] == mem[other..other + SLOT_SIZE]
  {
    var r := Overwrite(mem, at, bytes);
    assert |r| == |mem|;
    forall i | other <= i < other + SLOT_SIZE ensures r[i] == mem[i] {
    }
  }

  /** Storing in one global updates its cell and no other. */
  lemma StoreCell(w: World, st: Store, slots: map<string, nat>, name: string, v: Value)
    requires WorldRel(w, st, slots) && SlotsOk(slots) && name in slots
    ensures name in w.cells && |w.cells[name]| == 8 && slots[name] + SLOT_SIZE <= |st.mem|
    ensures WorldRel(w.(cells := w.cells[name := WriteCell(w.cells[name], v)]),
                     st.(mem := Overwrite(st.mem, slots[name], LittleEndian(ToBits(v), Width(ClassOf(v))))), slots)
  {
    hide LittleEndian;
    hide ToBits;
    var at := slots[name];
    assert CellAt(w, st, name, at);
    var bytes := LittleEndian(ToBits(v), Width(ClassOf(v)));
    var w' := w.(cells := w.cells[name := WriteCell(w.cells[name], v)]);
    var st' := st.(mem := Overwrite(st.mem, at, bytes));
    forall n | n in slots ensures CellAt(w', st', n, slots[n]) {
      assert CellAt(w, st, n, slots[n]);
      if n == name {
        OverwriteAt(st.mem, at, bytes);
      } else {
        OverwriteElsewhere(st.mem, at, bytes, slots[n]);
      }
    }
  }

  lemma StoreSteps(mc: Machine, wm: Module, fuel: nat, f: Function, l: Layout, v: ValueId, at: s32, env: Env,
                   locals: seq<WVal>, st: Store)
    requires LayoutOk(f, l) && EnvRel(l, env, locals) && v in env
    requires 0 <= at && at + SLOT_SIZE <= |st.mem|
    ensures EmitValue(l, v).Some?
    ensures var c := ClassOf(env[v]);
            Exec(mc, wm, fuel, [I32Const(at)] + EmitValue(l, v).value + [IStore(c, AlignOf(c), 0)], locals, [], st)
            == Fell(locals, [], st.(mem := Overwrite(st.mem, at, LittleEndian(ToBits(env[v]), Width(c)))))
  {
    hide LittleEndian;
    hide ToBits;
    hide EnvRel;
    hide LayoutOk;
    hide Overwrite;
    var x := env[v];
    var c := ClassOf(x);
    var s1 := [] + [WI32(at)];
    var s2 := s1 + [Rep(x)];
    var store := IStore(c, AlignOf(c), 0);
    EmitRun(mc, wm, fuel, f, l, v, env, locals, s1, st);
    var code := EmitValue(l, v).value;
    ExecAppend(mc, wm, fuel, [I32Const(at)], code, locals, [], st);
    ExecAppend(mc, wm, fuel, [I32Const(at)] + code, [store], locals, [], st);
    Exec1(mc, wm, fuel, I32Const(at), locals, [], st);
    Exec1(mc, wm, fuel, store, locals, s2, st);
    RepBits(x);
    assert s2[..0] == [];
  }

  /** A store writes the cell of its global, and yields the stored value if it has a type. */
  lemma StoreRun(mc: Machine, wm: Module, fuel: nat, f: Function, l: Layout, i: Instr, name: string, ops: seq<ValueId>,
                 env: Env, w: World, locals: seq<WVal>, st: Store, slots: map<string, nat>)
    requires LayoutOk(f, l) && EnvRel(l, env, locals) && WorldRel(w, st, slots) && SlotsOk(slots)
    requires i.action == GlobalStore(name, ops) && name in slots && forall v :: v in ops ==> v in env
    requires LowerGlobalStore(Some(slots[name]), l, f, i, ops).Some?
    requires TypeToVal(i.ty).None? || TypeToVal(i.ty) == ValueClass(f, ops[0])
    ensures AfterAction(EvalAction(mc, f, i, env, w),
                        Exec(mc, wm, fuel, LowerGlobalStore(Some(slots[name]), l, f, i, ops).value, locals, [], st),
                        i, env, locals, slots)
  {
    hide EnvRel;
    hide LayoutOk;
    hide ValueClass;
    hide WriteCell;
    hide LittleEndian;
    hide ToBits;
    hide Overwrite;
    hide WorldRel;
    var v, at := ops[0], slots[name];
    var x := env[v];
    StoreCell(w, st, slots, name, x);
    StoreSteps(mc, wm, fuel, f, l, v, at, env, locals, st);
    var st' := st.(mem := Overwrite(st.mem, at, LittleEndian(ToBits(x), Width(ClassOf(x)))));
    EmitRun(mc, wm, fuel, f, l, v, env, locals, [], st');
    var code := [I32Const(at)] + EmitValue(l, v).value + [IStore(ClassOf(x), AlignOf(ClassOf(x)), 0)];
    if TypeToVal(i.ty).Some? {
      ExecAppend(mc, wm, fuel, code, EmitValue(l, v).value, locals, [], st);
      RepView(x);
    } else {
      assert code + [] == code;
    }
  }

  // ---- Prints, copies, drops -----------------------------------------------------------

  lemma DupRun(mc: Machine, wm: Module, fuel: nat, f: Function, l: Layout, i: Instr, v: ValueId, env: Env, w: World,
               locals: seq<WVal>, st: Store, slots: map<string, nat>)
    requires LayoutOk(f, l) && EnvRel(l, env, locals) && WorldRel(w, st, slots)
    requires i.action == Dup([v]) && v in env && TypeToVal(i.ty).Some? && ValueClass(f, v) == TypeToVal(i.ty)
    ensures EmitValue(l, v).Some?
    ensures AfterAction(EvalAction(mc, f, i, env, w), Exec(mc, wm, fuel, EmitValue(l, v).value, locals, [], st),
                        i, env, locals, slots)
  {
    hide EnvRel;
    hide LayoutOk;
    hide ValueClass;
    hide WorldRel;
    EmitRun(mc, wm, fuel, f, l, v, env, locals, [], st);
    RepView(env[v]);
  }

  lemma DropRun(mc: Machine, wm: Module, fuel: nat, f: Function, l: Layout, i: Instr, v: ValueId, env: Env, w: World,
                locals: seq<WVal>, st: Store, slots: map<string, nat>)
    requires LayoutOk(f, l) && EnvRel(l, env, locals) && WorldRel(w, st, slots)
    requires i.action == Drop([v]) && v in env && TypeToVal(i.ty).None?
    ensures EmitValue(l, v).Some?
    ensures AfterAction(EvalAction(mc, f, i, env, w),
                        Exec(mc, wm, fuel, EmitValue(l, v).value + [IDrop], locals, [], st), i, env, locals, slots)
  {
    hide EnvRel;
    hide LayoutOk;
    hide WorldRel;
    EmitRun(mc, wm, fuel, f, l, v, env, locals, [], st);
    ExecAppend(mc, wm, fuel, EmitValue(l, v).value, [IDrop], locals, [], st);
    var stack := [] + [Rep(env[v])];
    Exec1(mc, wm, fuel, IDrop, locals, stack, st);
    assert stack[..0] == [];
  }

  lemma BuiltinTyped(m: ModuleCtx, prog: Program, wm: Module, index: nat)
    requires CtxOk(m, prog) && ModuleFor(m, prog, wm) && (index == PRINT_INT || index == PRINT_STRING)
    ensures index < |wm.imports| && TypeOfFunc(wm, index) == Some(FuncType([I32], None))
  {
    hide ImportsOf;
    hide TypeIndices;
    assert wm.imports[index] == BUILTIN_IMPORTS[index];
    assert wm.types[0] == INITIAL_TYPES[0];
  }

  /** A caller goes on with the results on an otherwise empty stack. */
  function Resumed(o: Outcome, locals: seq<WVal>): Run {
    match o
    case Results(vals, st') => Fell(locals, vals, st')
    case TrapOut(st') => Trap(st')
    case ExhaustedOut => Exhausted
    case StuckOut => Stuck
  }

  /** A call of a function whose arguments are the whole stack. */
  lemma StepCall(mc: Machine, wm: Module, fuel: nat, index: nat, locals: seq<WVal>, stack: seq<WVal>, st: Store,
                 t: FuncType)
    requires TypeOfFunc(wm, index) == Some(t) && |t.params| == |stack|
    ensures Wasm.Step(mc, wm, fuel, ICall(index), locals, stack, st)
            == Resumed(Invoke(mc, wm, fuel, index, stack, st), locals)
  {
    hide Invoke;
    hide TypeOfFunc;
    assert stack[0..] == stack && stack[..0] == [];
    assert forall vals: seq<WVal> :: [] + vals == vals;
  }

  lemma InvokeImport(mc: Machine, wm: Module, fuel: nat, index: nat, args: seq<WVal>, st: Store)
    requires index < |wm.imports|
    ensures Invoke(mc, wm, fuel, index, args, st) == InvokeHost(mc, wm, index, args, st)
  {
    hide InvokeHost;
    hide Exec;
  }

  lemma BuiltinPrints(mc: Machine, wm: Module, index: nat, x: u32, st: Store)
    requires index < |wm.imports| && (index == PRINT_INT || index == PRINT_STRING)
    ensures InvokeHost(mc, wm, index, [WI32(x)], st)
            == Results([], st.(trace := st.trace + [if index == PRINT_INT then PrintInt(Signed32(x))
                                                    else PrintString(Signed32(x))]))
  {
  }

  /** A call of a built-in printing function. */
  lemma BuiltinRun(mc: Machine, m: ModuleCtx, prog: Program, wm: Module, fuel: nat, x: u32, index: nat,
                   locals: seq<WVal>, st: Store)
    requires CtxOk(m, prog) && ModuleFor(m, prog, wm) && (index == PRINT_INT || index == PRINT_STRING)
    ensures Exec(mc, wm, fuel, [ICall(index)], locals, [WI32(x)], st)
            == Fell(locals, [], st.(trace := st.trace + [if index == PRINT_INT then PrintInt(Signed32(x))
                                                         else PrintString(Signed32(x))]))
  {
    hide CtxOk;
    hide ModuleFor;
    hide TypeOfFunc;
    hide Exec;
    hide Wasm.Step;
    hide Invoke;
    hide InvokeHost;
    var stack := [WI32(x)];
    Exec1(mc, wm, fuel, ICall(index), locals, stack, st);
    BuiltinTyped(m, prog, wm, index);
    StepCall(mc, wm, fuel, index, locals, stack, st, FuncType([I32], None));
    BuiltinPrints(mc, wm, index, x, st);
    InvokeImport(mc, wm, fuel, index, stack, st);
  }

  lemma PrintRun(mc: Machine, m: ModuleCtx, prog: Program, wm: Module, fuel: nat, f: Function, l: Layout, i: Instr,
                 ops: seq<ValueId>, env: Env, w: World, locals: seq<WVal>, st: Store, slots: map<string, nat>)
    requires CtxOk(m, prog) && ModuleFor(m, prog, wm)
    requires LayoutOk(f, l) && EnvRel(l, env, locals) && WorldRel(w, st, slots)
    requires i.action == Print(ops) && (forall v :: v in ops ==> v in env) && TypeToVal(i.ty).None?
    requires LowerPrint(l, f, ops).Some?
    requires ops[0] < |f.valueTypes| && IsString(f.valueTypes[ops[0]]) ==> ValueClass(f, ops[0]) == Some(I32)
    ensures AfterAction(EvalAction(mc, f, i, env, w),
                        Exec(mc, wm, fuel, LowerPrint(l, f, ops).value, locals, [], st), i, env, locals, slots)
  {
    hide EnvRel;
    hide LayoutOk;
    hide ValueClass;
    hide CtxOk;
    hide ModuleFor;
    hide Exec;
    hide CellAt;
    PrintExec(mc, m, prog, wm, fuel, f, l, ops, env, w, locals, st);
    assert forall n :: n in slots ==> CellAt(w, st, n, slots[n]);
    CellsIgnoreTrace(w, EvalPrint(f, ops[0], env[ops[0]], w).value, st, slots);
  }

  /** A world with more events holds the same cells. */
  lemma CellsIgnoreTrace(w: World, w': World, st: Store, slots: map<string, nat>)
    requires w'.cells == w.cells && forall n :: n in slots ==> CellAt(w, st, n, slots[n])
    ensures forall n, trace :: n in slots ==> CellAt(w', st.(trace := trace), n, slots[n])
  {
    forall n, trace | n in slots ensures CellAt(w', st.(trace := trace), n, slots[n]) {
      assert CellAt(w, st, n, slots[n]);
    }
  }

  /** The emitted code leaves the stack empty and adds the event that the print stands for. */
  lemma PrintExec(mc: Machine, m: ModuleCtx, prog: Program, wm: Module, fuel: nat, f: Function, l: Layout,
                  ops: seq<ValueId>, env: Env, w: World, locals: seq<WVal>, st: Store)
    requires CtxOk(m, prog) && ModuleFor(m, prog, wm)
    requires LayoutOk(f, l) && EnvRel(l, env, locals) && w.trace == st.trace
    requires LowerPrint(l, f, ops).Some? && ops[0] in env
    requires ops[0] < |f.valueTypes| && IsString(f.valueTypes[ops[0]]) ==> ValueClass(f, ops[0]) == Some(I32)
    ensures var p := EvalPrint(f, ops[0], env[ops[0]], w);
            && p.Some? && p.value.cells == w.cells
            && Exec(mc, wm, fuel, LowerPrint(l, f, ops).value, locals, [], st)
               == Fell(locals, [], st.(trace := p.value.trace))
  {
    hide EnvRel;
    hide LayoutOk;
    hide ValueClass;
    hide CtxOk;
    hide ModuleFor;
    hide Exec;
    var v := ops[0];
    var x := env[v];
    EmitRun(mc, wm, fuel, f, l, v, env, locals, [], st);
    var emit := EmitValue(l, v).value;
    assert [] + [Rep(x)] == [Rep(x)];
    if ops[0] < |f.valueTypes| && IsString(f.valueTypes[ops[0]]) {
      ExecAppend(mc, wm, fuel, emit, [ICall(PRINT_STRING)], locals, [], st);
      BuiltinRun(mc, m, prog, wm, fuel, Rep(x).x, PRINT_STRING, locals, st);
    } else if ClassOf(x) == I64 {
      assert emit + [Numeric(0xa7), ICall(PRINT_INT)] == emit + [Numeric(0xa7)] + [ICall(PRINT_INT)];
      WrapCode();
      UnaryRun(mc, wm, fuel, f, l, v, 0xa7, Wrap64, env, locals, st);
      ExecAppend(mc, wm, fuel, emit + [Numeric(0xa7)], [ICall(PRINT_INT)], locals, [], st);
      BuiltinRun(mc, m, prog, wm, fuel, x.u % 0x1_0000_0000, PRINT_INT, locals, st);
    } else {
      ExecAppend(mc, wm, fuel, emit, [ICall(PRINT_INT)], locals, [], st);
      BuiltinRun(mc, m, prog, wm, fuel, Rep(x).x, PRINT_INT, locals, st);
    }
  }

  lemma WrapCode()
    ensures Decode(0xa7) == Some(Wrap64)
  {
  }

  // ---- Storing a result --------------------------------------------------------------

  lemma BindHolds(l: Layout, env: Env, locals: seq<WVal>, v: ValueId, x: Value)
    requires EnvRel(l, env, locals) && DistinctLocals(l.slots)
    requires v < |l.slots| && l.slots[v].InLocal? && l.slots[v].local < |l.types|
    requires l.types[l.slots[v].local] == ClassOf(x)
    ensures EnvRel(l, env[v := x], locals[l.slots[v].local := Rep(x)])
  {
    var n := l.slots[v].local;
    var locals', env' := locals[n := Rep(x)], env[v := x];
    forall u | u in env' ensures Holds(l, u, locals', env'[u]) {
      if u != v {
        assert Holds(l, u, locals, env[u]);
      }
    }
  }

  /** The value of an action goes to the local of the result. */
  lemma StoreResultRun(mc: Machine, wm: Module, fuel: nat, f: Function, l: Layout, i: Instr, s: Step, r: Run, env: Env,
                       locals: seq<WVal>, slots: map<string, nat>)
    requires LayoutOk(f, l) && ResultOk(f, i) && EnvRel(l, env, locals)
    requires StoreResult(l, i).Some? && AfterAction(s, r, i, env, locals, slots)
    ensures AfterInstrs(s, Then(mc, wm, fuel, r, StoreResult(l, i).value), l, slots)
  {
    hide ValueClass;
    hide WorldRel;
    if s.Go? {
      if i.result.Some? {
        assert LayoutProofs.SlotOk(f, l, i.result.value);
      }
      if TypeToVal(i.ty).Some? {
        var x := HostView(r.stack[0]);
        var v := i.result.value;
        var n := l.slots[v].local;
        ClassOfView(r.stack[0]);
        BindHolds(l, env, locals, v, x);
        Exec1(mc, wm, fuel, LocalSet(n), locals, r.stack, r.store);
        assert r.stack[..0] == [];
      }
    }
  }

  lemma ClassOfView(v: WVal)
    ensures ClassOf(HostView(v)) == TypeOf(v)
  {
  }

  // ---- Calls -------------------------------------------------------------------------

  function Reps(args: seq<Value>): (r: seq<WVal>)
    ensures |r| == |args|
  {
    seq(|args|, k requires 0 <= k < |args| => Rep(args[k]))
  }

  function ClassesOf(args: seq<Value>): (r: seq<ValType>)
    ensures |r| == |args|
  {
    seq(|args|, k requires 0 <= k < |args| => ClassOf(args[k]))
  }

  lemma ViewsOfReps(args: seq<Value>)
    ensures HostViews(Reps(args)) == args
  {
    forall k | 0 <= k < |args| ensures HostViews(Reps(args))[k] == args[k] {
      RepView(args[k]);
    }
  }

  /** The operands of a call are pushed as the values of the callee's parameters. */
  lemma {:induction false} ArgsRun(mc: Machine, wm: Module, fuel: nat, f: Function, l: Layout, params: seq<Param>,
                                   ops: seq<ValueId>, env: Env, locals: seq<WVal>, stack: seq<WVal>, st: Store)
    requires LayoutOk(f, l) && EnvRel(l, env, locals)
    requires ArgumentsOk(f, params, ops) && EmitOperands(l, f, params, ops).Some?
    requires forall k :: 0 <= k < |ops| && LoweredParam(params[k]).Some? ==> ops[k] in env
    ensures var args := SelectArgs(params, ops, env);
            && args.Some? && ClassesOf(args.value) == ParamTypes(params)
            && |EmitOperands(l, f, params, ops).value| == |args.value|
            && Exec(mc, wm, fuel, EmitOperands(l, f, params, ops).value, locals, stack, st)
               == Fell(locals, stack + Reps(args.value), st)
    decreases |ops|
  {
    hide EnvRel;
    hide LayoutOk;
    hide ValueClass;
    hide EmitValue;
    hide Wasm.Step;
    if ops == [] {
      assert stack + [] == stack;
    } else {
      var p, o := params[0], ops[0];
      assert ArgumentOk(f, params[0], ops[0]);
      RestArguments(f, params, ops);
      if LoweredParam(p).None? {
        SkippedOperand(l, f, params, ops);
        ArgsRun(mc, wm, fuel, f, l, params[1..], ops[1..], env, locals, stack, st);
      } else {
        EmittedOperand(l, f, params, ops);
        EmitRun(mc, wm, fuel, f, l, o, env, locals, stack, st);
        var stack' := stack + [Rep(env[o])];
        ArgsRun(mc, wm, fuel, f, l, params[1..], ops[1..], env, locals, stack', st);
        var rest := SelectArgs(params[1..], ops[1..], env).value;
        var args := [env[o]] + rest;
        ExecAppend(mc, wm, fuel, EmitValue(l, o).value, EmitOperands(l, f, params[1..], ops[1..]).value, locals, stack,
                   st);
        RepsCons(env[o], rest);
        assert stack' + Reps(rest) == stack + Reps(args);
        EmitLength(l, o);
      }
    }
  }

  lemma EmitLength(l: Layout, v: ValueId)
    ensures EmitValue(l, v).Some? ==> |EmitValue(l, v).value| == 1
  {
  }

  lemma RepsCons(x: Value, rest: seq<Value>)
    ensures Reps([x] + rest) == [Rep(x)] + Reps(rest)
    ensures ClassesOf([x] + rest) == [ClassOf(x)] + ClassesOf(rest)
  {
  }

  /** A body starts with its parameters in the first locals. */
  lemma {:induction false} ParamsRun(l: Layout, params: seq<Param>, base: nat, args: seq<Value>, locals: seq<WVal>)
    requires Placed(l, params, base) && ClassesOf(args) == ParamTypes(params)
    requires base + |args| <= |locals| && locals[base..base + |args|] == Reps(args)
    ensures BindParams(params, args).Some?
    ensures var env := BindParams(params, args).value;
            forall v :: v in env ==> Holds(l, v, locals, env[v])
    ensures ParamValues(params) <= BindParams(params, args).value.Keys
    decreases |params|
  {
    if params == [] {
    } else if LoweredParam(params[0]).None? {
      ParamsRun(l, params[1..], base, args, locals);
      assert ParamValues(params) == ParamValues(params[1..]);
    } else {
      assert args == [args[0]] + args[1..];
      RepsCons(args[0], args[1..]);
      assert ClassesOf(args)[1..] == ClassesOf(args[1..]);
      assert locals[base] == locals[base..base + |args|][0] == Rep(args[0]);
      assert locals[base + 1..base + |args|] == locals[base..base + |args|][1..] == Reps(args[1..]);
      ParamsRun(l, params[1..], base + 1, args[1..], locals);
      assert ParamValues(params) == {params[0].value} + ParamValues(params[1..]);
    }
  }

  lemma ReadsOperands(prog: Program, f: Function, i: Instr, env: Env)
    requires forall v :: Reads(prog, f, i.action, v) ==> v in env
    ensures match i.action
            case Primitive(_, ops) => forall v :: v in ops ==> v in env
            case GlobalStore(_, ops) => forall v :: v in ops ==> v in env
            case Cast(ops, _, _) => forall v :: v in ops ==> v in env
            case Dup(ops) => forall v :: v in ops ==> v in env
            case Drop(ops) => forall v :: v in ops ==> v in env
            case Print(ops) => forall v :: v in ops ==> v in env
            case _ => true
  {
    match i.action
    case Primitive(_, ops) => forall v | v in ops ensures v in env { assert Reads(prog, f, i.action, v); }
    case GlobalStore(_, ops) => forall v | v in ops ensures v in env { assert Reads(prog, f, i.action, v); }
    case Cast(ops, _, _) => forall v | v in ops ensures v in env { assert Reads(prog, f, i.action, v); }
    case Dup(ops) => forall v | v in ops ensures v in env { assert Reads(prog, f, i.action, v); }
    case Drop(ops) => forall v | v in ops ensures v in env { assert Reads(prog, f, i.action, v); }
    case Print(ops) => forall v | v in ops ensures v in env { assert Reads(prog, f, i.action, v); }
    case _ =>
  }

  /** Every action without a call, by kind. */
  lemma ActionRun(mc: Machine, m: ModuleCtx, prog: Program, wm: Module, fuel: nat, f: Function, l: Layout, i: Instr,
                  env: Env, w: World, locals: seq<WVal>, st: Store, slots: map<string, nat>)
    requires CtxOk(m, prog) && ModuleFor(m, prog, wm) && SlotsOk(slots)
    requires LayoutOk(f, l) && EnvRel(l, env, locals) && WorldRel(w, st, slots)
    requires InstrOk(f, prog, m, i) && !i.action.Call? && StoreResult(l, i).Some?
    requires forall v :: Reads(prog, f, i.action, v) ==> v in env
    requires LowerAction(mc.ieee, m, prog, l, f, i, AddressIn(slots, i.action)).Some?
    ensures AfterAction(EvalAction(mc, f, i, env, w),
                        Exec(mc, wm, fuel, LowerAction(mc.ieee, m, prog, l, f, i, AddressIn(slots, i.action)).value,
                             locals, [], st), i, env, locals, slots)
            <==> !Truncates(i)
    ensures Truncates(i) ==>
              Exec(mc, wm, fuel, LowerAction(mc.ieee, m, prog, l, f, i, AddressIn(slots, i.action)).value, locals, [],
                   st) == Stuck
  {
    hide CtxOk;
    hide ModuleFor;
    hide SlotsOk;
    hide LayoutOk;
    hide EnvRel;
    hide WorldRel;
    hide ValueClass;
    hide ResultOk;
    hide EvalAction;
    hide AfterAction;
    hide LowerConst;
    hide LowerPrimitive;
    hide LowerCast;
    hide LowerPrint;
    hide EmitValue;
    hide Reads;
    ReadsOperands(prog, f, i, env);
    match i.action
    case Const(k) => ConstRun(mc, wm, fuel, f, l, i, k, env, w, locals, st, slots);
    case Primitive(op, ops) =>
      PrimitiveArity(l, f, op, ops);
      PrimitiveRun(mc, wm, fuel, f, l, i, op, ops, env, w, locals, st, slots);
    case GlobalLoad(name) => LoadRun(mc, wm, fuel, f, l, i, name, env, w, locals, st, slots);
    case GlobalStore(name, ops) => StoreRun(mc, wm, fuel, f, l, i, name, ops, env, w, locals, st, slots);
    case Cast(ops, from, to) =>
      CastArity(l, ops, TypeToVal(from), TypeToVal(to));
      CastRun(mc, wm, fuel, f, l, i, ops, from, to, env, w, locals, st, slots);
    case Dup(ops) =>
      assert ops == [ops[0]];
      DupRun(mc, wm, fuel, f, l, i, ops[0], env, w, locals, st, slots);
    case Drop(ops) =>
      assert ops == [ops[0]];
      DropRun(mc, wm, fuel, f, l, i, ops[0], env, w, locals, st, slots);
    case Print(ops) =>
      PrintArity(l, f, ops);
      PrintRun(mc, m, prog, wm, fuel, f, l, i, ops, env, w, locals, st, slots);
    case Flush => FlushRun(mc, wm, fuel, f, i, env, w, locals, st, slots);
    case FnRef(t, n) => FnRefRun(mc, wm, fuel, f, i, env, w, locals, st, slots);
    case Unsupported =>
  }

  lemma PrimitiveArity(l: Layout, f: Function, op: PrimOp, ops: seq<ValueId>)
    requires LowerPrimitive(l, f, op, ops).Some?
    ensures |ops| == (if op == LNOT then 1 else 2)
  {
  }

  lemma CastArity(l: Layout, ops: seq<ValueId>, from: Option<ValType>, to: Option<ValType>)
    requires LowerCast(l, ops, from, to).Some?
    ensures |ops| == 1
  {
  }

  lemma PrintArity(l: Layout, f: Function, ops: seq<ValueId>)
    requires LowerPrint(l, f, ops).Some?
    ensures |ops| == 1
  {
  }

  lemma FlushRun(mc: Machine, wm: Module, fuel: nat, f: Function, i: Instr, env: Env, w: World,
                 locals: seq<WVal>, st: Store, slots: map<string, nat>)
    requires WorldRel(w, st, slots) && i.action == Flush && TypeToVal(i.ty).None?
    ensures AfterAction(EvalAction(mc, f, i, env, w), Exec(mc, wm, fuel, [], locals, [], st), i, env, locals, slots)
  {
  }

  lemma FnRefRun(mc: Machine, wm: Module, fuel: nat, f: Function, i: Instr, env: Env, w: World,
                 locals: seq<WVal>, st: Store, slots: map<string, nat>)
    requires WorldRel(w, st, slots) && i.action.FnRef? && TypeToVal(i.ty) == Some(I32)
    ensures AfterAction(EvalAction(mc, f, i, env, w), Exec(mc, wm, fuel, [I32Const(0)], locals, [], st), i, env, locals,
                        slots)
  {
    hide WorldRel;
    Exec1(mc, wm, fuel, I32Const(0), locals, [], st);
    RepView(Word(0));
  }

  // ---- Whole runs --------------------------------------------------------------------

  lemma CallReads(prog: Program, f: Function, a: Action, env: Env)
    requires a.Call? && DirectTarget(f, a).Some? && DirectTarget(f, a).value < |prog.fns|
    requires forall v :: Reads(prog, f, a, v) ==> v in env
    ensures var params := prog.fns[DirectTarget(f, a).value].params;
            forall k :: 0 <= k < |a.operands| && k < |params| && LoweredParam(params[k]).Some? ==> a.operands[k] in env
  {
    hide DirectTarget;
    var params := prog.fns[DirectTarget(f, a).value].params;
    forall k | 0 <= k < |a.operands| && k < |params| && LoweredParam(params[k]).Some? ensures a.operands[k] in env {
      assert Reads(prog, f, a, a.operands[k]);
    }
  }

  /** The call instruction on its arguments. */
  lemma CallStep(mc: Machine, prog: Program, wm: Module, fuel: nat, i: Instr, callee: Function, index: nat,
                 answer: Answer, args: seq<Value>, env: Env, locals: seq<WVal>, st: Store, slots: map<string, nat>)
    requires TypeOfFunc(wm, index) == Some(TypeOfFunction(callee)) && |ParamTypes(callee.params)| == |args|
    requires ResultType(callee) == TypeToVal(i.ty)
    requires AfterCall(answer, Invoke(mc, wm, fuel, index, Reps(args), st), ResultType(callee), slots)
    ensures AfterAction(match answer
                        case Answer(Some(v), w') => Go(Bind(env, i.result, v), w')
                        case Answer(None, w') => Go(env, w')
                        case HaltCall(w') => Halt(w')
                        case NoFuelCall => NoFuel
                        case WrongCall => Wrong,
                        Exec(mc, wm, fuel, [ICall(index)], locals, Reps(args), st), i, env, locals, slots)
  {
    hide WorldRel;
    hide TypeOfFunc;
    hide ParamTypes;
    hide ResultType;
    hide Invoke;
    var stack := Reps(args);
    Exec1(mc, wm, fuel, ICall(index), locals, stack, st);
    assert stack[0..] == stack;
    assert forall vals: seq<WVal> :: stack[..0] + vals == vals;
    if answer.Answer? && answer.value.Some? {
      RepView(answer.value.value);
    }
  }

  /** An imported function is called with the same name and the same arguments, after the same events. */
  lemma HostRun(mc: Machine, prog: Program, m: ModuleCtx, wm: Module, fuel: nat, t: FnId, args: seq<Value>, w: World,
                st: Store, slots: map<string, nat>)
    requires CtxOk(m, prog) && ModuleFor(m, prog, wm) && t < |prog.fns| && prog.fns[t].isExtern && LookupId(m, t).Some?
    requires WorldRel(w, st, slots)
    ensures AfterCall(EvalCall(mc, prog, fuel, t, args, w),
                      Invoke(mc, wm, fuel, LookupId(m, t).value.funcIndex, Reps(args), st),
                      ResultType(prog.fns[t]), slots)
  {
    hide CtxOk;
    hide ModuleFor;
    hide LookupId;
    hide ResultType;
    hide TypeOfFunc;
    IndexDenotes(m, prog, wm, t);
    ViewsOfReps(args);
    var f := prog.fns[t];
    if ResultType(f).Some? {
      RepOfBits(ResultType(f).value, mc.host(f.name, args, w.trace));
    }
    var w' := w.(trace := w.trace + [HostCall(f.name, args)]);
    var st' := st.(trace := st.trace + [HostCall(f.name, args)]);
    assert WorldRel(w', st', slots) by {
      assert forall n :: n in slots ==> CellAt(w, st, n, slots[n]);
    }
  }

  /** The end of the entry block. */
  lemma TermRun(mc: Machine, wm: Module, fuel: nat, f: Function, l: Layout, term: Terminator, env: Env, w: World,
                locals: seq<WVal>, st: Store, slots: map<string, nat>)
    requires LayoutOk(f, l) && EnvRel(l, env, locals) && WorldRel(w, st, slots)
    requires TermOk(f, term) && LowerTerm(l, term, ResultType(f).Some?).Some?
    requires term.Return? && ResultType(f).Some? ==> term.value in env
    ensures var r := Exec(mc, wm, fuel, LowerTerm(l, term, ResultType(f).Some?).value, locals, [], st);
            match EvalTerm(f, term, env, w)
            case Answer(v, w') =>
              && w' == w && v.Some? == ResultType(f).Some?
              && (v.Some? ==> ResultType(f) == Some(ClassOf(v.value)) && !term.NoTerm?)
              && r == (if term.NoTerm? then Fell(locals, [], st)
                       else Returned(if v.Some? then [Rep(v.value)] else [], st))
            case HaltCall(w') => w' == w && r == Trap(st)
            case _ => false
  {
    hide LayoutOk;
    hide EnvRel;
    hide WorldRel;
    hide ValueClass;
    hide ResultType;
    match term
    case NoTerm =>
    case Return(v) =>
      if ResultType(f).Some? {
        EmitRun(mc, wm, fuel, f, l, v, env, locals, [], st);
        ExecAppend(mc, wm, fuel, EmitValue(l, v).value, [IReturn], locals, [], st);
        assert [] + [Rep(env[v])] == [Rep(env[v])];
        Exec1(mc, wm, fuel, IReturn, locals, [Rep(env[v])], st);
      } else {
        Exec1(mc, wm, fuel, IReturn, locals, [], st);
      }
    case Unreachable => Exec1(mc, wm, fuel, IUnreachable, locals, [], st);
    case Branching =>
  }

  lemma DefinedAfter(prog: Program, f: Function, instrs: seq<Instr>, term: Terminator, defined: set<ValueId>, env: Env,
                     mc: Machine, fuel: nat, w: World)
    requires instrs != [] && DefinedBefore(prog, f, instrs, term, defined) && defined <= env.Keys
    ensures forall v :: Reads(prog, f, instrs[0].action, v) ==> v in env
    ensures var s := EvalInstr(mc, prog, fuel, f, instrs[0], env, w);
            s.Go? ==> env.Keys <= s.env.Keys
  {
    hide EvalCall;
    hide Reads;
    hide DirectTarget;
    hide SelectArgs;
  }

  lemma {:induction false} SimInstr(mc: Machine, prog: Program, m: ModuleCtx, wm: Module, fuel: nat, f: Function,
                                    l: Layout,
                                    i: Instr, env: Env, w: World, locals: seq<WVal>, st: Store, slots: map<string, nat>)
    requires Linked(mc, prog, m, wm, slots)
    requires LayoutOk(f, l) && EnvRel(l, env, locals) && WorldRel(w, st, slots)
    requires InstrOk(f, prog, m, i) && LowerInstrAt(mc.ieee, m, prog, l, f, i, AddressIn(slots, i.action)).Some?
    requires forall v :: Reads(prog, f, i.action, v) ==> v in env
    ensures AfterInstrs(EvalInstr(mc, prog, fuel, f, i, env, w),
                        Exec(mc, wm, fuel, LowerInstrAt(mc.ieee, m, prog, l, f, i, AddressIn(slots, i.action)).value,
                             locals, [], st), l, slots)
            <==> !Truncates(i)
    ensures var s := EvalInstr(mc, prog, fuel, f, i, env, w); s.Go? && !Truncates(i) ==> Defines(i) <= s.env.Keys
    decreases fuel, 1
  {
    hide CtxOk;
    hide ModuleFor;
    hide SlotsOk;
    hide LayoutOk;
    hide EnvRel;
    hide WorldRel;
    hide ResultOk;
    hide EvalAction;
    hide AfterAction;
    hide AfterInstrs;
    hide StoreResult;
    hide EmitOperands;
    hide ArgumentsOk;
    hide WellTypedProgram;
    hide Reads;
    hide LowerCall;
    hide LowerConst;
    hide LowerPrimitive;
    hide ResultType;
    hide EvalCall;
    hide Invoke;
    hide LongTruncation;
    var at := AddressIn(slots, i.action);
    var code := LowerAction(mc.ieee, m, prog, l, f, i, at).value;
    var setter := StoreResult(l, i).value;
    var r := Exec(mc, wm, fuel, code, locals, [], st);
    ExecAppend(mc, wm, fuel, code, setter, locals, [], st);
    var s := EvalInstr(mc, prog, fuel, f, i, env, w);
    if !i.action.Call? {
      ActionRun(mc, m, prog, wm, fuel, f, l, i, env, w, locals, st, slots);
    } else {
      var t := DirectTarget(f, i.action).value;
      var callee := prog.fns[t];
      CallLowered(f, prog, m, wm, l, i);
      CallReads(prog, f, i.action, env);
      assert |callee.params| == |i.action.operands| by { hide *; ArgumentsCount(f, callee.params, i.action.operands); }
      ArgsRun(mc, wm, fuel, f, l, callee.params, i.action.operands, env, locals, [], st);
      var args := SelectArgs(callee.params, i.action.operands, env).value;
      var index := LookupId(m, t).value.funcIndex;
      SimCall(mc, prog, m, wm, fuel, t, args, w, st, slots);
      CallStep(mc, prog, wm, fuel, i, callee, index, EvalCall(mc, prog, fuel, t, args, w), args, env, locals, st,
               slots);
      assert [] + Reps(args) == Reps(args);
      ExecAppend(mc, wm, fuel, EmitOperands(l, f, callee.params, i.action.operands).value, [ICall(index)], locals, [],
                 st);
    }
    if Truncates(i) {
      StuckAfter(s, l, slots);
    } else {
      StoreResultRun(mc, wm, fuel, f, l, i, s, r, env, locals, slots);
      ActionDefines(s, r, i, env, locals, slots);
    }
  }

  lemma StuckAfter(s: Step, l: Layout, slots: map<string, nat>)
    ensures !AfterInstrs(s, Stuck, l, slots)
  {
  }

  /** An instruction with a value defines it. */
  lemma ActionDefines(s: Step, r: Run, i: Instr, env: Env, locals: seq<WVal>, slots: map<string, nat>)
    requires AfterAction(s, r, i, env, locals, slots)
    ensures s.Go? ==> Defines(i) <= s.env.Keys
  {
  }

  lemma ArgumentsCount(f: Function, params: seq<Param>, ops: seq<ValueId>)
    requires ArgumentsOk(f, params, ops)
    ensures |params| == |ops|
  {
  }

  lemma {:induction false} SimInstrs(mc: Machine, prog: Program, m: ModuleCtx, wm: Module, fuel: nat, f: Function,
                                     l: Layout,
                                     instrs: seq<Instr>, term: Terminator, defined: set<ValueId>, env: Env, w: World,
                                     locals: seq<WVal>, st: Store, slots: map<string, nat>)
    requires Linked(mc, prog, m, wm, slots)
    requires LayoutOk(f, l) && EnvRel(l, env, locals) && WorldRel(w, st, slots)
    requires InstrsOk(f, prog, m, instrs) && CodeOfInstrs(mc.ieee, m, prog, l, f, instrs, slots).Some?
    requires DefinedBefore(prog, f, instrs, term, defined) && defined <= env.Keys && !Truncating(instrs)
    ensures var s := EvalInstrs(mc, prog, fuel, f, instrs, env, w);
            && AfterInstrs(s,
                Exec(mc, wm, fuel, CodeOfInstrs(mc.ieee, m, prog, l, f, instrs, slots).value, locals, [], st), l, slots)
            && (s.Go? && term.Return? && ResultType(f).Some? ==> term.value in s.env)
    decreases fuel, |instrs| + 2
  {
    hide Linked;
    hide LayoutOk;
    hide EnvRel;
    hide WorldRel;
    hide InstrOk;
    hide LowerInstrAt;
    hide AddressIn;
    hide EvalInstr;
    hide ResultType;
    hide Reads;
    if instrs == [] {
    } else {
      var i := instrs[0];
      assert InstrOk(f, prog, m, i);
      RestKeeps(instrs);
      DefinedAfter(prog, f, instrs, term, defined, env, mc, fuel, w);
      SimInstr(mc, prog, m, wm, fuel, f, l, i, env, w, locals, st, slots);
      var code := LowerInstrAt(mc.ieee, m, prog, l, f, i, AddressIn(slots, i.action)).value;
      var rest := CodeOfInstrs(mc.ieee, m, prog, l, f, instrs[1..], slots).value;
      ExecAppend(mc, wm, fuel, code, rest, locals, [], st);
      var s := EvalInstr(mc, prog, fuel, f, i, env, w);
      var r := Exec(mc, wm, fuel, code, locals, [], st);
      if s.Go? {
        SimInstrs(mc, prog, m, wm, fuel, f, l, instrs[1..], term, defined + Defines(i), s.env, s.world, r.locals,
                  r.store, slots);
      }
    }
  }

  lemma RestKeeps(instrs: seq<Instr>)
    requires instrs != [] && !Truncating(instrs)
    ensures !Truncates(instrs[0]) && !Truncating(instrs[1..])
  {
  }

  /** After the code of a body, past its end or returned. */
  ghost predicate AfterBody(a: Answer, r: Run, result: Option<ValType>, slots: map<string, nat>) {
    match a
    case Answer(v, w') =>
      && (r.Fell? || r.Returned?) && WorldRel(w', r.store, slots)
      && (if v.Some? then result == Some(ClassOf(v.value)) && r.stack == [Rep(v.value)]
          else result.None? && r.stack == [])
    case HaltCall(w') => r.Trap? && WorldRel(w', r.store, slots)
    case NoFuelCall => r.Exhausted?
    case WrongCall => false
  }

  lemma FinishRun(mc: Machine, wm: Module, fuel: nat, f: Function, l: Layout, term: Terminator, s: Step, r: Run,
                  rest: Code, slots: map<string, nat>)
    requires LayoutOk(f, l) && AfterInstrs(s, r, l, slots)
    requires TermOk(f, term) && LowerTerm(l, term, ResultType(f).Some?).Some?
    requires s.Go? && term.Return? && ResultType(f).Some? ==> term.value in s.env
    requires term.NoTerm? ==> rest == []
    ensures AfterBody(Finish(f, term, s),
                      Then(mc, wm, fuel, Then(mc, wm, fuel, r, LowerTerm(l, term, ResultType(f).Some?).value), rest),
                      ResultType(f), slots)
  {
    hide LayoutOk;
    hide EnvRel;
    hide WorldRel;
    hide TermOk;
    hide LowerTerm;
    hide EvalTerm;
    hide ResultType;
    if s.Go? {
      TermRun(mc, wm, fuel, f, l, term, s.env, s.world, r.locals, r.store, slots);
      if term.NoTerm? {
        assert Then(mc, wm, fuel, Fell(r.locals, [], r.store), []) == Fell(r.locals, [], r.store);
      }
    }
  }

  /** The locals a body starts with. */
  lemma InitialLocals(f: Function, l: Layout, args: seq<Value>, locals: seq<ValType>)
    requires l.paramCount == |ParamTypes(f.params)| <= |l.types|
    requires l.types[..l.paramCount] == ParamTypes(f.params) == ClassesOf(args) && locals == l.types[l.paramCount..]
    requires Placed(l, f.params, 0)
    ensures BindParams(f.params, args).Some?
    ensures ParamValues(f.params) <= BindParams(f.params, args).value.Keys
    ensures EnvRel(l, BindParams(f.params, args).value, Reps(args) + Zeros(locals))
  {
    hide BindParams;
    hide ParamValues;
    hide ParamTypes;
    hide Placed;
    var start := Reps(args) + Zeros(locals);
    assert start[0..0 + |args|] == Reps(args);
    ParamsRun(l, f.params, 0, args, start);
    forall n | 0 <= n < |start| ensures TypeOf(start[n]) == l.types[n] {
      if n < |args| {
        assert l.types[..l.paramCount][n] == ClassesOf(args)[n];
      } else {
        assert start[n] == Zero(locals[n - |args|]);
        ZeroType(locals[n - |args|]);
      }
    }
  }

  lemma ZeroType(c: ValType)
    ensures TypeOf(Zero(c)) == c
  {
  }

  lemma {:induction false} SimBody(mc: Machine, prog: Program, m: ModuleCtx, wm: Module, fuel: nat, f: Function,
                                   body: Body, args: seq<Value>, w: World, st: Store, slots: map<string, nat>)
    requires Linked(mc, prog, m, wm, slots) && FunctionOk(prog, m, f) && BodyFor(mc.ieee, m, prog, f, slots, body)
    requires ClassesOf(args) == ParamTypes(f.params) && WorldRel(w, st, slots) && !Truncating(InstrsOf(f.blocks))
    ensures BindParams(f.params, args).Some?
    ensures var env := BindParams(f.params, args).value;
            AfterBody(if f.blocks == [] then EvalTerm(f, NoTerm, env, w)
                      else Finish(f, f.blocks[0].term, EvalInstrs(mc, prog, fuel, f, f.blocks[0].instrs, env, w)),
                      Exec(mc, wm, fuel, body.code, Reps(args) + Zeros(body.locals), [], st), ResultType(f), slots)
    decreases fuel, |InstrsOf(f.blocks)| + 10
  {
    hide Linked;
    hide LayoutOk;
    hide EnvRel;
    hide WorldRel;
    hide BindParams;
    hide ResultType;
    hide LayoutOf;
    hide Placed;
    hide ParamTypes;
    hide InstrsOk;
    hide TermOk;
    hide LowerTerm;
    hide CodeOfInstrs;
    hide ParamsOk;
    hide EvalInstrs;
    hide EvalTerm;
    hide AfterInstrs;
    hide DefinedBefore;
    hide Truncating;
    LayoutCorrect(prog, m, f);
    var l := LayoutOf(f).value;
    InitialLocals(f, l, args, body.locals);
    var env := BindParams(f.params, args).value;
    var start := Reps(args) + Zeros(body.locals);
    if f.blocks == [] {
      EmptyBody(f, env, w);
    } else {
      var b := f.blocks[0];
      BlockOk(prog, m, f, 0);
      FirstInstrs(f.blocks);
      TruncatingJoin(b.instrs, InstrsOf(f.blocks[1..]));
      SimInstrs(mc, prog, m, wm, fuel, f, l, b.instrs, b.term, ParamValues(f.params), env, w, start, st, slots);
      var instrs := CodeOfInstrs(mc.ieee, m, prog, l, f, b.instrs, slots).value;
      var term := LowerTerm(l, b.term, ResultType(f).Some?).value;
      var rest := CodeOfBlocks(mc.ieee, m, prog, l, f, f.blocks[1..], slots).value;
      ExecAppend(mc, wm, fuel, instrs, term, start, [], st);
      ExecAppend(mc, wm, fuel, instrs + term, rest, start, [], st);
      var s := EvalInstrs(mc, prog, fuel, f, b.instrs, env, w);
      FinishRun(mc, wm, fuel, f, l, b.term, s, Exec(mc, wm, fuel, instrs, start, [], st), rest, slots);
    }
  }

  lemma EmptyBody(f: Function, env: Env, w: World)
    requires ResultType(f).None?
    ensures EvalTerm(f, NoTerm, env, w) == Answer(None, w)
  {
  }

  lemma FirstInstrs(blocks: seq<Block>)
    requires blocks != []
    ensures |blocks[0].instrs| <= |InstrsOf(blocks)|
  {
  }

  lemma {:induction false} SimCall(mc: Machine, prog: Program, m: ModuleCtx, wm: Module, fuel: nat, t: FnId,
                                   args: seq<Value>, w: World, st: Store, slots: map<string, nat>)
    requires Linked(mc, prog, m, wm, slots)
    requires t < |prog.fns| && LookupId(m, t).Some? && ClassesOf(args) == ParamTypes(prog.fns[t].params)
    requires WorldRel(w, st, slots)
    ensures AfterCall(EvalCall(mc, prog, fuel, t, args, w),
                      Invoke(mc, wm, fuel, LookupId(m, t).value.funcIndex, Reps(args), st),
                      ResultType(prog.fns[t]), slots)
    decreases fuel, 0
  {
    hide Linked;
    hide LookupId;
    hide EvalCall;
    hide Invoke;
    hide AfterCall;
    hide WorldRel;
    hide ParamTypes;
    hide ResultType;
    hide FunctionOk;
    hide BodyFor;
    hide CtxOk;
    hide ModuleFor;
    hide AfterBody;
    hide TypeOfFunc;
    hide TypeOfFunction;
    hide Truncating;
    var f := prog.fns[t];
    LinkedModule(mc, prog, m, wm, slots);
    if f.isExtern {
      HostRun(mc, prog, m, wm, fuel, t, args, w, st, slots);
    } else {
      IndexDenotes(m, prog, wm, t);
      var k := LookupId(m, t).value.funcIndex - |wm.imports|;
      DefLinked(mc, prog, m, wm, slots, k);
      if fuel > 0 {
        SimBody(mc, prog, m, wm, fuel - 1, f, wm.bodies[k], args, w, st, slots);
      }
      CallRun(mc, prog, m, wm, fuel, t, args, w, st, slots);
    }
  }

  lemma LinkedModule(mc: Machine, prog: Program, m: ModuleCtx, wm: Module, slots: map<string, nat>)
    requires Linked(mc, prog, m, wm, slots)
    ensures CtxOk(m, prog) && ModuleFor(m, prog, wm) && |wm.bodies| == |m.defs|
  {
  }

  lemma DefLinked(mc: Machine, prog: Program, m: ModuleCtx, wm: Module, slots: map<string, nat>, k: nat)
    requires Linked(mc, prog, m, wm, slots) && k < |m.defs|
    ensures m.defs[k].fn < |prog.fns|
    ensures FunctionOk(prog, m, prog.fns[m.defs[k].fn])
    ensures BodyFor(mc.ieee, m, prog, prog.fns[m.defs[k].fn], slots, wm.bodies[k])
    ensures !Truncating(InstrsOf(prog.fns[m.defs[k].fn].blocks))
  {
    hide Truncating;
    hide FunctionOk;
    hide BodyFor;
    hide CtxOk;
    hide ModuleFor;
    hide SlotsOk;
  }

  /** A call of a defined function, from the run of its body. */
  lemma CallRun(mc: Machine, prog: Program, m: ModuleCtx, wm: Module, fuel: nat, t: FnId, args: seq<Value>, w: World,
                st: Store, slots: map<string, nat>)
    requires CtxOk(m, prog) && ModuleFor(m, prog, wm) && t < |prog.fns| && !prog.fns[t].isExtern && LookupId(m, t).Some?
    requires fuel > 0 ==>
               var f, k := prog.fns[t], LookupId(m, t).value.funcIndex - |wm.imports|;
               0 <= k < |wm.bodies| && BindParams(f.params, args).Some? &&
               var env := BindParams(f.params, args).value;
               AfterBody(if f.blocks == [] then EvalTerm(f, NoTerm, env, w)
                         else Finish(f, f.blocks[0].term,
                                     EvalInstrs(mc, prog, fuel - 1, f, f.blocks[0].instrs, env, w)),
                         Exec(mc, wm, fuel - 1, wm.bodies[k].code, Reps(args) + Zeros(wm.bodies[k].locals), [], st),
                         ResultType(f), slots)
    ensures AfterCall(EvalCall(mc, prog, fuel, t, args, w),
                      Invoke(mc, wm, fuel, LookupId(m, t).value.funcIndex, Reps(args), st),
                      ResultType(prog.fns[t]), slots)
  {
    hide CtxOk;
    hide ModuleFor;
    hide WorldRel;
    hide LookupId;
    hide BindParams;
    hide ResultType;
    hide ParamTypes;
    hide TypeOfFunc;
    hide EvalTerm;
    hide Finish;
    hide EvalInstrs;
    hide Exec;
    IndexDenotes(m, prog, wm, t);
  }
}
