/** The meaning of MIR programs: an evaluator on values, with no stack, no locals and no addresses.

    Each global is a cell of eight bytes. Every call of a function spends one unit of fuel, so the
    evaluator is total on recursive programs as well. */
module MirEval {
  import opened Wrappers
  import opened Bits
  import opened Leb128
  import opened Mir

  /** What the outside sees of a run. */
  datatype Event =
    | PrintInt(i: s32)
    | PrintString(ptr: s32)
    | HostCall(name: string, args: seq<Value>)

  datatype World = World(cells: map<string, seq<byte>>, trace: seq<Event>)

  /** What a run is relative to: the floating-point operations, and the answers of imported functions,
      which may depend on everything that happened before. */
  datatype Machine = Machine(ieee: Ieee, host: (string, seq<Value>, seq<Event>) -> u64)

  type Env = map<ValueId, Value>

  /** Result of an instruction. `Halt` is a stopped program, `Wrong` an ill-formed one. */
  datatype Step = Go(env: Env, world: World) | Halt(world: World) | NoFuel | Wrong

  /** Result of a call. */
  datatype Answer = Answer(value: Option<Value>, world: World) | HaltCall(world: World) | NoFuelCall | WrongCall

  // ---- Values as bytes -----------------------------------------------------------

  /** The `k` low bytes of a number, least significant first. */
  function LittleEndian(n: nat, k: nat): (bytes: seq<byte>)
    ensures |bytes| == k
  {
    if k == 0 then [] else [n % 256] + LittleEndian(n / 256, k - 1)
  }

  function FromLittleEndian(bytes: seq<byte>): (n: nat)
    ensures n < Pow2(8 * |bytes|)
  {
    if bytes == [] then 0
    else
      assert Pow2(8 * |bytes|) == 256 * Pow2(8 * |bytes[1..]|) by {
        Pow2Add(8, 8 * |bytes[1..]|);
        assert Pow2(8) == 256;
      }
      bytes[0] + 256 * FromLittleEndian(bytes[1..])
  }

  /** The number of bytes of a value in memory. */
  function Width(c: ValType): nat {
    if c == I32 || c == F32 then 4 else 8
  }

  function ToBits(v: Value): (n: nat)
    ensures n < Pow2(8 * Width(ClassOf(v)))
  {
    Pow2Values();
    match v
    case Word(i) => i % 0x1_0000_0000
    case Long(u) => u
    case Single(b) => b
    case Double(b) => b
  }

  /** The value of a class with the low bits of a number. */
  function OfBits(c: ValType, n: nat): (v: Value)
    ensures ClassOf(v) == c
  {
    match c
    case I32 => Word(Signed32(n % 0x1_0000_0000))
    case I64 => Long(n % 0x1_0000_0000_0000_0000)
    case F32 => Single(n % 0x1_0000_0000)
    case F64 => Double(n % 0x1_0000_0000_0000_0000)
  }

  /** A cell with a value written over its first bytes, and the value its first bytes hold. */
  function WriteCell(cell: seq<byte>, v: Value): (r: seq<byte>)
    requires |cell| == 8
    ensures |r| == 8
  {
    LittleEndian(ToBits(v), Width(ClassOf(v))) + cell[Width(ClassOf(v))..]
  }

  function ReadCell(cell: seq<byte>, c: ValType): (v: Value)
    requires |cell| == 8
    ensures ClassOf(v) == c
  {
    OfBits(c, FromLittleEndian(cell[..Width(c)]))
  }

  lemma {:induction false} LittleEndianRoundTrip(n: nat, k: nat)
    requires n < Pow2(8 * k)
    ensures FromLittleEndian(LittleEndian(n, k)) == n
  {
    if k > 0 {
      Pow2Add(8, 8 * k - 8);
      assert Pow2(8) == 256;
      var bytes := LittleEndian(n, k);
      assert bytes[1..] == LittleEndian(n / 256, k - 1);
      LittleEndianRoundTrip(n / 256, k - 1);
    }
  }

  /** A global holds what was stored in it. */
  lemma CellRoundTrip(cell: seq<byte>, v: Value)
    requires |cell| == 8
    ensures ReadCell(WriteCell(cell, v), ClassOf(v)) == v
  {
    hide Pow2;
    hide LittleEndian;
    hide FromLittleEndian;
    hide ToBits;
    var k := Width(ClassOf(v));
    assert WriteCell(cell, v)[..k] == LittleEndian(ToBits(v), k);
    LittleEndianRoundTrip(ToBits(v), k);
    BitsRoundTrip(v);
  }

  lemma BitsRoundTrip(v: Value)
    ensures OfBits(ClassOf(v), ToBits(v)) == v
  {
  }

  // ---- Evaluation ----------------------------------------------------------------

  /** The class of a value id: that of its type, but the environment parameter has none. */
  function ValueClass(f: Function, v: ValueId): (c: Option<ValType>) {
    if v >= |f.valueTypes| || (exists p :: p in f.params && p.value == v && IsEnv(p)) then None
    else TypeToVal(f.valueTypes[v])
  }

  function Bind(env: Env, result: Option<ValueId>, v: Value): Env {
    if result.Some? then env[result.value := v] else env
  }

  /** The arguments of a call that have a value, matched with parameters by position. */
  function SelectArgs(params: seq<Param>, operands: seq<ValueId>, env: Env): (args: Option<seq<Value>>) {
    if |params| != |operands| then None
    else if params == [] then Some([])
    else
      match SelectArgs(params[1..], operands[1..], env)
      case None => None
      case Some(rest) =>
        if LoweredParam(params[0]).None? then Some(rest)
        else if operands[0] in env then Some([env[operands[0]]] + rest)
        else None
  }

  /** The environment a function body starts in. */
  function BindParams(params: seq<Param>, args: seq<Value>): (env: Option<Env>) {
    if params == [] then (if args == [] then Some(map[]) else None)
    else if LoweredParam(params[0]).None? then BindParams(params[1..], args)
    else if args == [] then None
    else
      match BindParams(params[1..], args[1..])
      case None => None
      case Some(env) => Some(map[params[0].value := args[0]] + env)
  }

  function EvalPrint(f: Function, operand: ValueId, v: Value, w: World): Option<World> {
    if operand < |f.valueTypes| && IsString(f.valueTypes[operand]) then
      (if v.Word? then Some(w.(trace := w.trace + [PrintString(v.i)])) else None)
    else if v.Word? then Some(w.(trace := w.trace + [PrintInt(v.i)]))
    else if v.Long? then Some(w.(trace := w.trace + [PrintInt(Signed32(v.u % 0x1_0000_0000))]))
    else None
  }

  /** Instructions other than calls. */
  function EvalAction(mc: Machine, f: Function, i: Instr, env: Env, w: World): (s: Step)
    requires !i.action.Call?
  {
    var c := TypeToVal(i.ty);
    match i.action
    case Const(k) =>
      if c.None? then Go(env, w)
      else (match EvalConst(mc.ieee, k, c.value)
            case None => Wrong
            case Some(v) => Go(Bind(env, i.result, v), w))
    case Primitive(LNOT, ops) =>
      if |ops| == 1 && ops[0] in env && (env[ops[0]].Word? || env[ops[0]].Long?) then
        Go(Bind(env, i.result, Truth(Uns(env[ops[0]]) == 0)), w)
      else Wrong
    case Primitive(op, ops) =>
      if |ops| == 2 && ops[0] in env && ops[1] in env
         && ClassOf(env[ops[0]]) == ClassOf(env[ops[1]]) && OpResult(op, ClassOf(env[ops[0]])).Some? then
        (match EvalOp(mc.ieee, op, env[ops[0]], env[ops[1]])
         case None => Halt(w)
         case Some(v) => Go(Bind(env, i.result, v), w))
      else Wrong
    case GlobalLoad(name) =>
      if c.None? then Go(env, w)
      else if name in w.cells && |w.cells[name]| == 8 then
        Go(Bind(env, i.result, ReadCell(w.cells[name], c.value)), w)
      else Wrong
    case GlobalStore(name, ops) =>
      if |ops| == 1 && ops[0] in env && name in w.cells && |w.cells[name]| == 8 then
        var v := env[ops[0]];
        Go(if c.Some? then Bind(env, i.result, v) else env, w.(cells := w.cells[name := WriteCell(w.cells[name], v)]))
      else Wrong
    case Cast(ops, from, to) =>
      if |ops| == 1 && ops[0] in env && CastResult(TypeToVal(from), TypeToVal(to), ClassOf(env[ops[0]])).Some? then
        (match EvalCast(mc.ieee, TypeToVal(from), TypeToVal(to), env[ops[0]])
         case None => Halt(w)
         case Some(v) => Go(Bind(env, i.result, v), w))
      else Wrong
    case Dup(ops) =>
      if |ops| == 1 && ops[0] in env then Go(Bind(env, i.result, env[ops[0]]), w) else Wrong
    case Drop(ops) => Go(env, w)
    case Print(ops) =>
      if |ops| == 1 && ops[0] in env && EvalPrint(f, ops[0], env[ops[0]], w).Some? then
        Go(env, EvalPrint(f, ops[0], env[ops[0]], w).value)
      else Wrong
    case Flush => Go(env, w)
    case FnRef(_, _) => Go(Bind(env, i.result, Word(0)), w)
    case Unsupported => Wrong
  }

  function EvalInstr(mc: Machine, prog: Program, fuel: nat, f: Function, i: Instr, env: Env, w: World): (s: Step)
    decreases fuel, 1
  {
    if !i.action.Call? then EvalAction(mc, f, i, env, w)
    else
      match DirectTarget(f, i.action)
      case None => Wrong
      case Some(t) =>
        if t >= |prog.fns| then Wrong
        else
          match SelectArgs(prog.fns[t].params, i.action.operands, env)
          case None => Wrong
          case Some(args) =>
            match EvalCall(mc, prog, fuel, t, args, w)
            case Answer(Some(v), w') => Go(Bind(env, i.result, v), w')
            case Answer(None, w') => Go(env, w')
            case HaltCall(w') => Halt(w')
            case NoFuelCall => NoFuel
            case WrongCall => Wrong
  }

  function EvalInstrs(mc: Machine, prog: Program, fuel: nat, f: Function, instrs: seq<Instr>, env: Env,
                      w: World): (s: Step)
    decreases fuel, |instrs| + 2
  {
    if instrs == [] then Go(env, w)
    else
      match EvalInstr(mc, prog, fuel, f, instrs[0], env, w)
      case Go(env', w') => EvalInstrs(mc, prog, fuel, f, instrs[1..], env', w')
      case other => other
  }

  /** The end of the entry block. */
  function EvalTerm(f: Function, term: Terminator, env: Env, w: World): (a: Answer) {
    match term
    case NoTerm => if ResultType(f).None? then Answer(None, w) else WrongCall
    case Return(v) =>
      if ResultType(f).None? then Answer(None, w)
      else if v in env then Answer(Some(env[v]), w)
      else WrongCall
    case Unreachable => HaltCall(w)
    case Branching => WrongCall
  }

  function Finish(f: Function, term: Terminator, s: Step): (a: Answer) {
    match s
    case Go(env, w) => EvalTerm(f, term, env, w)
    case Halt(w) => HaltCall(w)
    case NoFuel => NoFuelCall
    case Wrong => WrongCall
  }

  /** A call of a function with the values of its lowered parameters. */
  function EvalCall(mc: Machine, prog: Program, fuel: nat, t: FnId, args: seq<Value>, w: World): (a: Answer)
    requires t < |prog.fns|
    decreases fuel, 0
  {
    var f := prog.fns[t];
    if f.isExtern then
      var w' := w.(trace := w.trace + [HostCall(f.name, args)]);
      Answer(match ResultType(f)
             case None => None
             case Some(c) => Some(OfBits(c, mc.host(f.name, args, w.trace))), w')
    else if fuel == 0 then NoFuelCall
    else
      match BindParams(f.params, args)
      case None => WrongCall
      case Some(env) =>
        if f.blocks == [] then EvalTerm(f, NoTerm, env, w)
        else Finish(f, f.blocks[0].term, EvalInstrs(mc, prog, fuel - 1, f, f.blocks[0].instrs, env, w))
  }
}
