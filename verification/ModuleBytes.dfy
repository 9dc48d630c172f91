/** The bytes of a module, and what the module viewer reads from bytes. */
module ModuleBytes {
  import opened Wrappers
  import opened Bits
  import opened Leb128
  import opened Mir
  import opened MirEval
  import opened Wasm
  import opened WasmBuffer

  // ---- Bytes written -------------------------------------------------------------

  /** The byte of a value type. */
  function TypeCode(c: ValType): (b: byte) {
    match c
    case I32 => 0x7f
    case I64 => 0x7e
    case F32 => 0x7d
    case F64 => 0x7c
  }

  function LoadOpcode(c: ValType): (b: byte) {
    match c
    case I32 => 0x28
    case I64 => 0x29
    case F32 => 0x2a
    case F64 => 0x2b
  }

  function StoreOpcode(c: ValType): (b: byte) {
    match c
    case I32 => 0x36
    case I64 => 0x37
    case F32 => 0x38
    case F64 => 0x39
  }

  function EncodeInstr(i: Instruction): (bytes: seq<byte>)
    ensures |bytes| >= 1
  {
    match i
    case IUnreachable => [0x00]
    case IReturn => [0x0f]
    case ICall(n) => [0x10] + EncodeU(n)
    case IDrop => [0x1a]
    case LocalGet(n) => [0x20] + EncodeU(n)
    case LocalSet(n) => [0x21] + EncodeU(n)
    case ILoad(c, align, offset) => [LoadOpcode(c)] + (EncodeU(align) + EncodeU(offset))
    case IStore(c, align, offset) => [StoreOpcode(c)] + (EncodeU(align) + EncodeU(offset))
    case I32Const(k) => [0x41] + EncodeS(k)
    case I64Const(k) => [0x42] + EncodeS(k)
    case F32Const(b) => [0x43] + LittleEndian(b, 4)
    case F64Const(b) => [0x44] + LittleEndian(b, 8)
    case Numeric(opcode) => [opcode]
  }

  function EncodeCode(code: Code): (bytes: seq<byte>) {
    if code == [] then [] else EncodeInstr(code[0]) + EncodeCode(code[1..])
  }

  const END: seq<byte> := [0x0b]

  function TypeCodes(ts: seq<ValType>): (bytes: seq<byte>)
    ensures |bytes| == |ts|
  {
    if ts == [] then [] else [TypeCode(ts[0])] + TypeCodes(ts[1..])
  }

  /** One declaration for each local. */
  function EncodeLocals(ts: seq<ValType>): (bytes: seq<byte>) {
    if ts == [] then [] else EncodeU(1) + [TypeCode(ts[0])] + EncodeLocals(ts[1..])
  }

  function EncodeBody(b: Body): (bytes: seq<byte>) {
    EncodeU(|b.locals|) + EncodeLocals(b.locals) + (EncodeCode(b.code) + END)
  }

  function EncodeBodies(bs: seq<Body>): (bytes: seq<byte>) {
    if bs == [] then [] else EncodeU(|EncodeBody(bs[0])|) + EncodeBody(bs[0]) + EncodeBodies(bs[1..])
  }

  function EncodeType(t: FuncType): (bytes: seq<byte>) {
    [0x60] + (EncodeU(|t.params|) + TypeCodes(t.params)
              + (EncodeU(|ResultSeq(t.result)|) + TypeCodes(ResultSeq(t.result))))
  }

  function EncodeTypes(ts: seq<FuncType>): (bytes: seq<byte>) {
    if ts == [] then [] else EncodeType(ts[0]) + EncodeTypes(ts[1..])
  }

  /** The bytes of a name, one for each character. */
  function NameBytes(name: string): (bytes: seq<byte>)
    ensures |bytes| == |name|
  {
    seq(|name|, k requires 0 <= k < |name| => name[k] as int % 256)
  }

  const ENV: seq<byte> := NameBytes("env")

  /** A function import: module `env`, name, kind 0 and type index. */
  function EncodeImport(i: FuncImport): (bytes: seq<byte>) {
    EncodeName(ENV) + (EncodeName(NameBytes(i.name)) + ([0x00] + EncodeU(i.typeIndex)))
  }

  function EncodeImports(items: seq<FuncImport>): (bytes: seq<byte>) {
    if items == [] then [] else EncodeImport(items[0]) + EncodeImports(items[1..])
  }

  /** The memory import: kind 2, a minimum of one page and no maximum. */
  function EncodeMemoryImport(): (bytes: seq<byte>) {
    EncodeName(ENV) + (EncodeName(NameBytes("memory")) + ([0x02] + ([0x00] + EncodeU(1))))
  }

  function EncodeIndices(ks: seq<nat>): (bytes: seq<byte>) {
    if ks == [] then [] else EncodeU(ks[0]) + EncodeIndices(ks[1..])
  }

  const ENTRY_NAME: string := "ylc_entry"

  function TypeSection(m: Module): seq<byte> { EncodeU(|m.types|) + EncodeTypes(m.types) }

  function ImportSection(m: Module): seq<byte> {
    EncodeU(1 + |m.imports|) + (EncodeMemoryImport() + EncodeImports(m.imports))
  }

  function FunctionSection(m: Module): seq<byte> { EncodeU(|m.funcs|) + EncodeIndices(m.funcs) }

  function ExportSection(m: Module): seq<byte> {
    EncodeU(1) + (EncodeName(NameBytes(ENTRY_NAME)) + ([0x00] + EncodeU(m.entry)))
  }

  function CodeSection(m: Module): seq<byte> { EncodeU(|m.bodies|) + EncodeBodies(m.bodies) }

  const MAGIC: seq<byte> := [0x00, 0x61, 0x73, 0x6d, 0x01, 0x00, 0x00, 0x00]

  /** `ylc_lower_mir_to_wasm`: the header and five sections. */
  function EncodeModule(m: Module): (bytes: seq<byte>) {
    MAGIC + (EncodeSection(0x01, TypeSection(m)) + (EncodeSection(0x02, ImportSection(m))
             + (EncodeSection(0x03, FunctionSection(m)) + (EncodeSection(0x07, ExportSection(m))
                + EncodeSection(0x0a, CodeSection(m))))))
  }

  // ---- What the viewer reads ---------------------------------------------------------

  /** A line of decoded code, before it is put into words. */
  datatype Line =
    | LEnd | LElse
    | LBlock(opcode: byte, blockType: byte)
    | LBranch(conditional: bool, depth: nat)
    | LCall(func: nat)
    | LLocal(opcode: byte, index: nat)
    | LMemory(opcode: byte, align: nat, offset: nat)
    | LI32(i: s32)
    | LI64(l: int)
    | LF32(bits32: nat)
    | LF64(bits64: nat)
    | LSimple(opcode: byte)
    | LUnsupported(opcode: byte)

  datatype Indented = Indented(indent: nat, line: Line)

  /** The keys of `YLC_SIMPLE_WASM_OPS`. */
  predicate IsSimple(b: byte) {
    || b == 0x00 || b == 0x01 || b == 0x0f || b == 0x1a
    || 0x45 <= b <= 0x66
    || 0x6a <= b <= 0x70
    || 0x7c <= b <= 0x82
    || 0x92 <= b <= 0x95
    || 0xa0 <= b <= 0xa3
    || b == 0xa7 || b == 0xaa || b == 0xac || b == 0xae || b == 0xb7 || b == 0xb9
  }

  predicate IsMemoryOp(b: byte) {
    0x28 <= b <= 0x2b || 0x36 <= b <= 0x39
  }

  function Prepend(line: Indented, rest: Option<seq<Indented>>): Option<seq<Indented>> {
    match rest
    case None => None
    case Some(lines) => Some([line] + lines)
  }

  function Dedent(indent: nat): nat {
    if indent > 0 then indent - 1 else 0
  }

  /** `ylcDecodeWatInstructions`: `None` where the viewer throws. */
  function DecodeLines(bytes: seq<byte>, pos: nat, end: nat, depth: nat, indent: nat): (r: Option<seq<Indented>>)
    decreases end - pos
  {
    if pos >= end then Some([])
    else if pos >= |bytes| then None
    else
      var b := bytes[pos];
      if b == 0x0b then
        if depth == 0 then Some([])
        else Prepend(Indented(Dedent(indent), LEnd), DecodeLines(bytes, pos + 1, end, depth - 1, Dedent(indent)))
      else if b == 0x05 then
        Prepend(Indented(Dedent(indent), LElse), DecodeLines(bytes, pos + 1, end, depth, Dedent(indent) + 1))
      else if b == 0x02 || b == 0x03 || b == 0x04 then
        if pos + 1 >= |bytes| then None
        else Prepend(Indented(indent, LBlock(b, bytes[pos + 1])),
                     DecodeLines(bytes, pos + 2, end, depth + 1, indent + 1))
      else
        match DecodeOne(bytes, pos)
        case None => None
        case Some(Read(line, next)) =>
          if line.LUnsupported? then Some([Indented(indent, line)])
          else Prepend(Indented(indent, line), DecodeLines(bytes, next, end, depth, indent))
  }

  /** An instruction outside control structure. */
  function DecodeOne(bytes: seq<byte>, pos: nat): (r: Option<Read<Line>>)
    requires pos < |bytes|
    ensures r.Some? ==> pos < r.value.next
  {
    var b := bytes[pos];
    if b == 0x0c || b == 0x0d then
      (match ReadU32(bytes, pos + 1)
       case None => None
       case Some(n) => Some(Read(LBranch(b == 0x0d, n.value), n.next)))
    else if b == 0x10 then
      (match ReadU32(bytes, pos + 1)
       case None => None
       case Some(n) => Some(Read(LCall(n.value), n.next)))
    else if 0x20 <= b <= 0x24 then
      (match ReadU32(bytes, pos + 1)
       case None => None
       case Some(n) => Some(Read(LLocal(b, n.value), n.next)))
    else if IsMemoryOp(b) then
      (match ReadU32(bytes, pos + 1)
       case None => None
       case Some(align) =>
         match ReadU32(bytes, align.next)
         case None => None
         case Some(offset) => Some(Read(LMemory(b, align.value, offset.value), offset.next)))
    else if b == 0x41 then
      (match ReadS32(bytes, pos + 1)
       case None => None
       case Some(n) => Some(Read(LI32(n.value), n.next)))
    else if b == 0x42 then
      (match ReadS64(bytes, pos + 1)
       case None => None
       case Some(n) => Some(Read(LI64(n.value), n.next)))
    else if b == 0x43 then
      (if pos + 5 > |bytes| then None else Some(Read(LF32(FromLittleEndian(bytes[pos + 1..pos + 5])), pos + 5)))
    else if b == 0x44 then
      (if pos + 9 > |bytes| then None else Some(Read(LF64(FromLittleEndian(bytes[pos + 1..pos + 9])), pos + 9)))
    else if IsSimple(b) then Some(Read(LSimple(b), pos + 1))
    else Some(Read(LUnsupported(b), pos + 1))
  }

  datatype TypeView = TypeView(params: seq<byte>, results: seq<byte>)

  /** An import: `index` counts the imports of its kind before it, `detail` is a type index or a minimum. */
  datatype ImportView = ImportView(env: seq<byte>, name: seq<byte>, kind: Option<byte>, index: nat, detail: Option<nat>)

  datatype ExportView = ExportView(name: seq<byte>, kind: byte, index: nat)

  datatype LocalView = LocalView(count: nat, ty: byte)

  datatype CodeView = CodeView(locals: seq<LocalView>, lines: seq<Indented>)

  datatype View = View(types: seq<TypeView>, imports: seq<ImportView>, functionTypes: seq<nat>,
                       exports: seq<ExportView>, codes: seq<CodeView>, importFuncs: nat, importMemories: nat)

  /** `ylcReadName`, kept as bytes */
  function ReadName(bytes: seq<byte>, pos: nat): (r: Option<Read<seq<byte>>>) {
    match ReadU32(bytes, pos)
    case None => None
    case Some(n) =>
      if n.next + n.value > |bytes| then None
      else Some(Read(bytes[n.next..n.next + n.value], n.next + n.value))
  }

  /** `count` value types, one byte each. */
  function ReadTypeCodes(bytes: seq<byte>, pos: nat, count: nat): (r: Option<Read<seq<byte>>>) {
    if pos + count > |bytes| then None else Some(Read(bytes[pos..pos + count], pos + count))
  }

  function ReadType(bytes: seq<byte>, pos: nat): (r: Option<Read<TypeView>>) {
    if pos >= |bytes| || bytes[pos] != 0x60 then None
    else
      match ReadU32(bytes, pos + 1)
      case None => None
      case Some(np) =>
        match ReadTypeCodes(bytes, np.next, np.value)
        case None => None
        case Some(params) =>
          match ReadU32(bytes, params.next)
          case None => None
          case Some(nr) =>
            match ReadTypeCodes(bytes, nr.next, nr.value)
            case None => None
            case Some(results) => Some(Read(TypeView(params.value, results.value), results.next))
  }

  function ReadTypes(bytes: seq<byte>, pos: nat, count: nat): (r: Option<Read<seq<TypeView>>>)
    decreases count
  {
    if count == 0 then Some(Read([], pos))
    else
      match ReadType(bytes, pos)
      case None => None
      case Some(t) =>
        match ReadTypes(bytes, t.next, count - 1)
        case None => None
        case Some(rest) => Some(Read([t.value] + rest.value, rest.next))
  }

  /** `ylcReadLimits`: the minimum; a maximum is skipped. */
  function ReadLimits(bytes: seq<byte>, pos: nat): (r: Option<Read<nat>>) {
    if pos >= |bytes| then None
    else
      match ReadU32(bytes, pos + 1)
      case None => None
      case Some(min) =>
        if bytes[pos] % 2 == 0 then Some(Read(min.value, min.next))
        else
          match ReadU32(bytes, min.next)
          case None => None
          case Some(max) => Some(Read(min.value, max.next))
  }

  function ReadImport(bytes: seq<byte>, pos: nat, funcs: nat, memories: nat): (r: Option<Read<ImportView>>) {
    match ReadName(bytes, pos)
    case None => None
    case Some(env) =>
      match ReadName(bytes, env.next)
      case None => None
      case Some(name) =>
        var at := name.next;
        if at >= |bytes| then Some(Read(ImportView(env.value, name.value, None, memories, None), at + 1))
        else if bytes[at] == 0 then
          (match ReadU32(bytes, at + 1)
           case None => None
           case Some(t) => Some(Read(ImportView(env.value, name.value, Some(0), funcs, Some(t.value)), t.next)))
        else if bytes[at] == 2 then
          (match ReadLimits(bytes, at + 1)
           case None => None
           case Some(l) => Some(Read(ImportView(env.value, name.value, Some(2), memories, Some(l.value)), l.next)))
        else Some(Read(ImportView(env.value, name.value, Some(bytes[at]), memories, None), at + 1))
  }

  function CountKind(kind: Option<byte>, k: byte): nat {
    if kind == Some(k) then 1 else 0
  }

  function ReadImports(bytes: seq<byte>, pos: nat, count: nat, funcs: nat,
                       memories: nat): (r: Option<Read<seq<ImportView>>>)
    decreases count
  {
    if count == 0 then Some(Read([], pos))
    else
      match ReadImport(bytes, pos, funcs, memories)
      case None => None
      case Some(i) =>
        match ReadImports(bytes, i.next, count - 1, funcs + CountKind(i.value.kind, 0),
                          memories + CountKind(i.value.kind, 2))
        case None => None
        case Some(rest) => Some(Read([i.value] + rest.value, rest.next))
  }

  function ReadIndices(bytes: seq<byte>, pos: nat, count: nat): (r: Option<Read<seq<nat>>>)
    decreases count
  {
    if count == 0 then Some(Read([], pos))
    else
      match ReadU32(bytes, pos)
      case None => None
      case Some(k) =>
        match ReadIndices(bytes, k.next, count - 1)
        case None => None
        case Some(rest) => Some(Read([k.value] + rest.value, rest.next))
  }

  function ReadExport(bytes: seq<byte>, pos: nat): (r: Option<Read<ExportView>>) {
    match ReadName(bytes, pos)
    case None => None
    case Some(name) =>
      if name.next >= |bytes| then None
      else
        match ReadU32(bytes, name.next + 1)
        case None => None
        case Some(k) => Some(Read(ExportView(name.value, bytes[name.next], k.value), k.next))
  }

  function ReadExports(bytes: seq<byte>, pos: nat, count: nat): (r: Option<Read<seq<ExportView>>>)
    decreases count
  {
    if count == 0 then Some(Read([], pos))
    else
      match ReadExport(bytes, pos)
      case None => None
      case Some(e) =>
        match ReadExports(bytes, e.next, count - 1)
        case None => None
        case Some(rest) => Some(Read([e.value] + rest.value, rest.next))
  }

  function ReadLocals(bytes: seq<byte>, pos: nat, count: nat): (r: Option<Read<seq<LocalView>>>)
    decreases count
  {
    if count == 0 then Some(Read([], pos))
    else
      match ReadU32(bytes, pos)
      case None => None
      case Some(n) =>
        if n.next >= |bytes| then None
        else
          match ReadLocals(bytes, n.next + 1, count - 1)
          case None => None
          case Some(rest) => Some(Read([LocalView(n.value, bytes[n.next])] + rest.value, rest.next))
  }

  function ReadBody(bytes: seq<byte>, pos: nat): (r: Option<Read<CodeView>>) {
    match ReadU32(bytes, pos)
    case None => None
    case Some(size) =>
      var end := size.next + size.value;
      match ReadU32(bytes, size.next)
      case None => None
      case Some(count) =>
        match ReadLocals(bytes, count.next, count.value)
        case None => None
        case Some(locals) =>
          match DecodeLines(bytes, locals.next, end, 0, 0)
          case None => None
          case Some(lines) => Some(Read(CodeView(locals.value, lines), end))
  }

  function ReadBodies(bytes: seq<byte>, pos: nat, count: nat): (r: Option<Read<seq<CodeView>>>)
    decreases count
  {
    if count == 0 then Some(Read([], pos))
    else
      match ReadBody(bytes, pos)
      case None => None
      case Some(b) =>
        match ReadBodies(bytes, b.next, count - 1)
        case None => None
        case Some(rest) => Some(Read([b.value] + rest.value, rest.next))
  }

  function CountImports(items: seq<ImportView>, k: byte): nat {
    if items == [] then 0 else CountKind(items[0].kind, k) + CountImports(items[1..], k)
  }

  /** One section's payload, added to what was read before. */
  function ReadSection(bytes: seq<byte>, id: byte, pos: nat, v: View): (r: Option<View>) {
    if id != 1 && id != 2 && id != 3 && id != 7 && id != 10 then Some(v)
    else
      match ReadU32(bytes, pos)
      case None => None
      case Some(n) =>
        if id == 1 then
          (match ReadTypes(bytes, n.next, n.value) case None => None
           case Some(r) => Some(v.(types := v.types + r.value)))
        else if id == 2 then
          (match ReadImports(bytes, n.next, n.value, v.importFuncs, v.importMemories) case None => None
           case Some(r) => Some(v.(imports := v.imports + r.value,
                                   importFuncs := v.importFuncs + CountImports(r.value, 0),
                                   importMemories := v.importMemories + CountImports(r.value, 2))))
        else if id == 3 then
          (match ReadIndices(bytes, n.next, n.value) case None => None
           case Some(r) => Some(v.(functionTypes := v.functionTypes + r.value)))
        else if id == 7 then
          (match ReadExports(bytes, n.next, n.value) case None => None
           case Some(r) => Some(v.(exports := v.exports + r.value)))
        else
          (match ReadBodies(bytes, n.next, n.value) case None => None
           case Some(r) => Some(v.(codes := v.codes + r.value)))
  }

  function ReadSections(bytes: seq<byte>, pos: nat, v: View): (r: Option<View>)
    decreases |bytes| - pos
  {
    if pos >= |bytes| then Some(v)
    else
      match ReadU32(bytes, pos + 1)
      case None => None
      case Some(size) =>
        var end := size.next + size.value;
        if end > |bytes| then None
        else
          match ReadSection(bytes, bytes[pos], size.next, v)
          case None => None
          case Some(v') => ReadSections(bytes, end, v')
  }

  /** `ylcParseWasm`: only the first four bytes of the header are compared. */
  function ParseModule(bytes: seq<byte>): (r: Option<View>) {
    if |bytes| < 8 || bytes[..4] != MAGIC[..4] then None
    else ReadSections(bytes, 8, View([], [], [], [], [], 0, 0))
  }
}
