/** The module viewer recovers from the bytes exactly the module they were written for. */
module ByteRoundTrip {
  import opened Wrappers
  import opened Bits
  import opened Leb128
  import opened Mir
  import opened MirEval
  import opened Wasm
  import opened WasmBuffer
  import opened ModuleBytes

  predicate Small(n: nat) {
    n < 0x1_0000_0000
  }

  /** A numeric opcode the viewer has a name for. */
  predicate KnownNumeric(b: byte) {
    b >= 0x45 && IsSimple(b)
  }

  /** Indices fit 32 bits and numeric opcodes have names. */
  predicate InstrFits(i: Instruction) {
    match i
    case ICall(n) => Small(n)
    case LocalGet(n) => Small(n)
    case LocalSet(n) => Small(n)
    case ILoad(_, align, _) => Small(align)
    case IStore(_, align, _) => Small(align)
    case Numeric(opcode) => KnownNumeric(opcode)
    case _ => true
  }

  /** The number the viewer shows for a 64-bit constant. */
  function Shown64(k: s64): int {
    if k >= -0x4000_0000_0000_0000 then k else k + Pow2(70)
  }

  /** The line an instruction decodes to. */
  function LineOf(i: Instruction): (l: Line) {
    match i
    case IUnreachable => LSimple(0x00)
    case IReturn => LSimple(0x0f)
    case ICall(n) => LCall(n)
    case IDrop => LSimple(0x1a)
    case LocalGet(n) => LLocal(0x20, n)
    case LocalSet(n) => LLocal(0x21, n)
    case ILoad(c, align, offset) => LMemory(LoadOpcode(c), align, offset)
    case IStore(c, align, offset) => LMemory(StoreOpcode(c), align, offset)
    case I32Const(k) => LI32(k)
    case I64Const(k) => LI64(Shown64(k))
    case F32Const(b) => LF32(b)
    case F64Const(b) => LF64(b)
    case Numeric(opcode) => LSimple(opcode)
  }

  /** A line determines its instruction; the line of a float still has its bits. */
  lemma LineInjective(a: Instruction, b: Instruction)
    requires InstrFits(a) && InstrFits(b) && LineOf(a) == LineOf(b)
    ensures a == b
  {
    Pow2Values();
  }

  // ---- Lines as text ---------------------------------------------------------------------------

  predicate Zero32(b: nat) {
    b % 0x8000_0000 == 0
  }

  predicate NaN32(b: nat) {
    b % 0x8000_0000 > 0x7f80_0000
  }

  predicate Zero64(b: nat) {
    b % 0x8000_0000_0000_0000 == 0
  }

  predicate NaN64(b: nat) {
    b % 0x8000_0000_0000_0000 > 0x7ff0_0000_0000_0000
  }

  /** What the text of a line tells: a float is shown as a number, which has one zero and one NaN, and an alignment
      as 1 shifted left by it, which goes by its remainder modulo 32. */
  function Text(l: Line): Line {
    match l
    case LMemory(opcode, align, offset) => LMemory(opcode, align % 32, offset)
    case LF32(b) => LF32(if Zero32(b) then 0 else if NaN32(b) then 0x7fc0_0000 else b)
    case LF64(b) => LF64(if Zero64(b) then 0 else if NaN64(b) then 0x7ff8_0000_0000_0000 else b)
    case _ => l
  }

  predicate Lookalikes(a: Instruction, b: Instruction) {
    match (a, b)
    case (ILoad(c, x, i), ILoad(d, y, j)) => c == d && i == j && x % 32 == y % 32
    case (IStore(c, x, i), IStore(d, y, j)) => c == d && i == j && x % 32 == y % 32
    case (F32Const(x), F32Const(y)) => (Zero32(x) && Zero32(y)) || (NaN32(x) && NaN32(y))
    case (F64Const(x), F64Const(y)) => (Zero64(x) && Zero64(y)) || (NaN64(x) && NaN64(y))
    case _ => false
  }

  /** Two instructions are shown by the same text if and only if they are equal, both zeros or both NaNs of one float
      type, or the same memory access with alignments equal modulo 32. */
  lemma ShownAlike(a: Instruction, b: Instruction)
    requires InstrFits(a) && InstrFits(b)
    ensures Text(LineOf(a)) == Text(LineOf(b)) <==> a == b || Lookalikes(a, b)
  {
    hide KnownNumeric;
    if Text(LineOf(a)) == Text(LineOf(b)) && !a.F32Const? && !a.F64Const? && !a.ILoad? && !a.IStore? {
      TextKeeps(a, b);
      LineInjective(a, b);
    }
  }

  lemma TextKeeps(a: Instruction, b: Instruction)
    requires Text(LineOf(a)) == Text(LineOf(b)) && !a.F32Const? && !a.F64Const? && !a.ILoad? && !a.IStore?
    ensures LineOf(a) == LineOf(b)
  {
  }

  /** Not one of the bytes the decoder treats as structure. */
  predicate Plain(b: byte) {
    b != 0x0b && b != 0x05 && b != 0x02 && b != 0x03 && b != 0x04
  }

  lemma NumericPlain(b: byte)
    requires KnownNumeric(b)
    ensures IsSimple(b) && !IsMemoryOp(b) && Plain(b)
    ensures b != 0x0c && b != 0x0d && b != 0x10 && !(0x20 <= b <= 0x24) && !(0x41 <= b <= 0x44)
  {
  }

  lemma IndexDecodes(bytes: seq<byte>, pos: nat, b: byte, n: u32)
    requires At(bytes, pos, [b] + EncodeU(n)) && (b == 0x10 || b == 0x20 || b == 0x21)
    ensures pos < |bytes| && bytes[pos] == b
    ensures DecodeOne(bytes, pos) == Some(Read(if b == 0x10 then LCall(n) else LLocal(b, n), pos + 1 + |EncodeU(n)|))
  {
    hide EncodeU;
    hide ReadU32;
    AtByte(bytes, pos, b, EncodeU(n));
    U32RoundTrip(bytes, pos + 1, n);
  }

  lemma MemoryDecodes(bytes: seq<byte>, pos: nat, b: byte, align: u32, offset: u32)
    requires At(bytes, pos, [b] + (EncodeU(align) + EncodeU(offset))) && IsMemoryOp(b)
    ensures pos < |bytes| && bytes[pos] == b
    ensures DecodeOne(bytes, pos)
            == Some(Read(LMemory(b, align, offset), pos + 1 + |EncodeU(align)| + |EncodeU(offset)|))
  {
    hide EncodeU;
    hide ReadU32;
    AtByte(bytes, pos, b, EncodeU(align) + EncodeU(offset));
    AtSplit(bytes, pos + 1, EncodeU(align), EncodeU(offset));
    U32RoundTrip(bytes, pos + 1, align);
    U32RoundTrip(bytes, pos + 1 + |EncodeU(align)|, offset);
  }

  lemma ConstDecodes(bytes: seq<byte>, pos: nat, b: byte, k: int)
    requires At(bytes, pos, [b] + EncodeS(k))
    requires (b == 0x41 && -0x8000_0000 <= k < 0x8000_0000)
             || (b == 0x42 && -0x8000_0000_0000_0000 <= k < 0x8000_0000_0000_0000)
    ensures pos < |bytes| && bytes[pos] == b
    ensures DecodeOne(bytes, pos) == Some(Read(if b == 0x41 then LI32(k) else LI64(Shown64(k)), pos + 1 + |EncodeS(k)|))
  {
    hide EncodeS;
    hide ReadS32;
    hide ReadS64;
    hide Pow2;
    AtByte(bytes, pos, b, EncodeS(k));
    if b == 0x41 {
      S32RoundTrip(bytes, pos + 1, k);
    } else {
      S64RoundTrip(bytes, pos + 1, k);
    }
  }

  lemma FloatDecodes(bytes: seq<byte>, pos: nat, b: byte, k: nat, bits: nat)
    requires At(bytes, pos, [b] + LittleEndian(bits, k)) && bits < Pow2(8 * k)
    requires (b == 0x43 && k == 4) || (b == 0x44 && k == 8)
    ensures pos < |bytes| && bytes[pos] == b
    ensures DecodeOne(bytes, pos) == Some(Read(if b == 0x43 then LF32(bits) else LF64(bits), pos + 1 + k))
  {
    hide LittleEndian;
    hide FromLittleEndian;
    hide Pow2;
    AtByte(bytes, pos, b, LittleEndian(bits, k));
    LittleEndianRoundTrip(bits, k);
  }

  /** One instruction is decoded as itself, and decoding continues right after it. */
  lemma InstrDecodes(bytes: seq<byte>, pos: nat, i: Instruction)
    requires InstrFits(i) && At(bytes, pos, EncodeInstr(i))
    ensures pos < |bytes| && Plain(bytes[pos])
    ensures DecodeOne(bytes, pos) == Some(Read(LineOf(i), pos + |EncodeInstr(i)|))
  {
    hide DecodeOne;
    hide EncodeU;
    hide EncodeS;
    hide LittleEndian;
    hide At;
    hide KnownNumeric;
    hide Pow2;
    match i
    case IUnreachable => OneByteDecodes(bytes, pos, 0x00);
    case IReturn => OneByteDecodes(bytes, pos, 0x0f);
    case IDrop => OneByteDecodes(bytes, pos, 0x1a);
    case ICall(n) => IndexDecodes(bytes, pos, 0x10, n);
    case LocalGet(n) => IndexDecodes(bytes, pos, 0x20, n);
    case LocalSet(n) => IndexDecodes(bytes, pos, 0x21, n);
    case ILoad(c, align, offset) => MemoryDecodes(bytes, pos, LoadOpcode(c), align, offset);
    case IStore(c, align, offset) => MemoryDecodes(bytes, pos, StoreOpcode(c), align, offset);
    case I32Const(k) => ConstDecodes(bytes, pos, 0x41, k);
    case I64Const(k) => ConstDecodes(bytes, pos, 0x42, k);
    case F32Const(b) => Pow2Values(); FloatDecodes(bytes, pos, 0x43, 4, b);
    case F64Const(b) => Pow2Values(); FloatDecodes(bytes, pos, 0x44, 8, b);
    case Numeric(opcode) =>
      NumericPlain(opcode);
      OneByteDecodes(bytes, pos, opcode);
  }

  lemma OneByteDecodes(bytes: seq<byte>, pos: nat, b: byte)
    requires At(bytes, pos, [b]) && (b == 0x00 || b == 0x0f || b == 0x1a || KnownNumeric(b))
    ensures pos < |bytes| && bytes[pos] == b && Plain(b)
    ensures DecodeOne(bytes, pos) == Some(Read(LSimple(b), pos + 1))
  {
    hide KnownNumeric;
    assert [b] == [b] + [];
    AtByte(bytes, pos, b, []);
    if KnownNumeric(b) {
      NumericPlain(b);
    }
  }

  predicate CodeFits(code: Code) {
    forall k :: 0 <= k < |code| ==> InstrFits(code[k])
  }

  function LinesOf(code: Code): (lines: seq<Indented>)
    ensures |lines| == |code|
  {
    if code == [] then [] else [Indented(0, LineOf(code[0]))] + LinesOf(code[1..])
  }

  /** The code of a body is decoded as its instructions. */
  lemma {:induction false} CodeDecodes(bytes: seq<byte>, pos: nat, code: Code)
    requires CodeFits(code) && At(bytes, pos, EncodeCode(code) + END)
    ensures DecodeLines(bytes, pos, pos + |EncodeCode(code)| + 1, 0, 0) == Some(LinesOf(code))
    decreases |code|
  {
    hide DecodeOne;
    hide EncodeInstr;
    hide At;
    hide InstrFits;
    hide LineOf;
    var end := pos + |EncodeCode(code)| + 1;
    if code == [] {
      assert EncodeCode(code) + END == [0x0b] + [];
      AtByte(bytes, pos, 0x0b, []);
    } else {
      var i := code[0];
      assert InstrFits(i);
      assert EncodeCode(code) + END == EncodeInstr(i) + (EncodeCode(code[1..]) + END);
      AtSplit(bytes, pos, EncodeInstr(i), EncodeCode(code[1..]) + END);
      InstrDecodes(bytes, pos, i);
      var next := pos + |EncodeInstr(i)|;
      assert CodeFits(code[1..]);
      CodeDecodes(bytes, next, code[1..]);
      assert next + |EncodeCode(code[1..])| + 1 == end;
      SimpleLine(i);
    }
  }

  lemma SimpleLine(i: Instruction)
    ensures !LineOf(i).LUnsupported?
  {
  }

  lemma {:induction false} LinesInjective(a: Code, b: Code)
    requires CodeFits(a) && CodeFits(b) && LinesOf(a) == LinesOf(b)
    ensures a == b
    decreases |a|
  {
    if a != [] {
      assert LinesOf(a)[0] == LinesOf(b)[0];
      LineInjective(a[0], b[0]);
      assert LinesOf(a)[1..] == LinesOf(a[1..]) && LinesOf(b)[1..] == LinesOf(b[1..]);
      LinesInjective(a[1..], b[1..]);
      assert a == [a[0]] + a[1..] && b == [b[0]] + b[1..];
    }
  }

  // ---- Types ----------------------------------------------------------------------

  function ViewType(t: FuncType): TypeView {
    TypeView(TypeCodes(t.params), TypeCodes(ResultSeq(t.result)))
  }

  lemma TypeCodesDecode(bytes: seq<byte>, pos: nat, part: seq<byte>)
    requires At(bytes, pos, part)
    ensures ReadTypeCodes(bytes, pos, |part|) == Some(Read(part, pos + |part|))
  {
  }

  lemma TypeDecodes(bytes: seq<byte>, pos: nat, t: FuncType)
    requires At(bytes, pos, EncodeType(t)) && Small(|t.params|)
    ensures ReadType(bytes, pos) == Some(Read(ViewType(t), pos + |EncodeType(t)|))
  {
    hide EncodeU;
    hide ReadU32;
    hide ReadTypeCodes;
    hide TypeCodes;
    var np, ps := EncodeU(|t.params|), TypeCodes(t.params);
    var rs := ResultSeq(t.result);
    var nr, cs := EncodeU(|rs|), TypeCodes(rs);
    var p1 := pos + 1;
    var p2 := p1 + |np|;
    var p3 := p2 + |ps|;
    var p4 := p3 + |nr|;
    AtByte(bytes, pos, 0x60, np + ps + (nr + cs));
    AtSplit(bytes, p1, np + ps, nr + cs);
    AtSplit(bytes, p1, np, ps);
    AtSplit(bytes, p3, nr, cs);
    U32RoundTrip(bytes, p1, |t.params|);
    TypeCodesDecode(bytes, p2, ps);
    U32RoundTrip(bytes, p3, |rs|);
    TypeCodesDecode(bytes, p4, cs);
  }

  function ViewTypes(ts: seq<FuncType>): (r: seq<TypeView>) {
    if ts == [] then [] else [ViewType(ts[0])] + ViewTypes(ts[1..])
  }

  predicate TypesFit(ts: seq<FuncType>) {
    forall k :: 0 <= k < |ts| ==> Small(|ts[k].params|)
  }

  lemma {:induction false} TypesDecode(bytes: seq<byte>, pos: nat, ts: seq<FuncType>)
    requires At(bytes, pos, EncodeTypes(ts)) && TypesFit(ts)
    ensures ReadTypes(bytes, pos, |ts|) == Some(Read(ViewTypes(ts), pos + |EncodeTypes(ts)|))
    decreases |ts|
  {
    hide EncodeType;
    hide ReadType;
    hide At;
    if ts != [] {
      AtSplit(bytes, pos, EncodeType(ts[0]), EncodeTypes(ts[1..]));
      TypeDecodes(bytes, pos, ts[0]);
      TypesDecode(bytes, pos + |EncodeType(ts[0])|, ts[1..]);
    }
  }

  // ---- Imports --------------------------------------------------------------------

  lemma NameDecodes(bytes: seq<byte>, pos: nat, name: seq<byte>)
    requires At(bytes, pos, EncodeName(name)) && Small(|name|)
    ensures ReadName(bytes, pos) == Some(Read(name, pos + |EncodeName(name)|))
  {
    hide EncodeU;
    hide ReadU32;
    AtSplit(bytes, pos, EncodeU(|name|), name);
    U32RoundTrip(bytes, pos, |name|);
  }

  function ViewImport(i: FuncImport, index: nat): ImportView {
    ImportView(ENV, NameBytes(i.name), Some(0), index, Some(i.typeIndex))
  }

  predicate ImportFits(i: FuncImport) {
    Small(|i.name|) && Small(i.typeIndex)
  }

  lemma ImportDecodes(bytes: seq<byte>, pos: nat, i: FuncImport, funcs: nat, memories: nat)
    requires At(bytes, pos, EncodeImport(i)) && ImportFits(i)
    ensures ReadImport(bytes, pos, funcs, memories) == Some(Read(ViewImport(i, funcs), pos + |EncodeImport(i)|))
  {
    hide EncodeName;
    hide EncodeU;
    hide ReadName;
    hide ReadU32;
    hide NameBytes;
    var name := NameBytes(i.name);
    var tail := [0x00] + EncodeU(i.typeIndex);
    var p1 := pos + |EncodeName(ENV)|;
    var p2 := p1 + |EncodeName(name)|;
    AtSplit(bytes, pos, EncodeName(ENV), EncodeName(name) + tail);
    AtSplit(bytes, p1, EncodeName(name), tail);
    AtByte(bytes, p2, 0x00, EncodeU(i.typeIndex));
    EnvSmall();
    NameDecodes(bytes, pos, ENV);
    NameDecodes(bytes, p1, name);
    U32RoundTrip(bytes, p2 + 1, i.typeIndex);
  }

  lemma EnvSmall()
    ensures Small(|ENV|) && Small(|NameBytes("memory")|) && Small(|NameBytes(ENTRY_NAME)|)
  {
  }

  const MEMORY_VIEW: ImportView := ImportView(ENV, NameBytes("memory"), Some(2), 0, Some(1))

  lemma MemoryImportDecodes(bytes: seq<byte>, pos: nat, funcs: nat)
    requires At(bytes, pos, EncodeMemoryImport())
    ensures ReadImport(bytes, pos, funcs, 0) == Some(Read(MEMORY_VIEW, pos + |EncodeMemoryImport()|))
  {
    hide At;
    hide EncodeName;
    hide EncodeU;
    hide ReadName;
    hide ReadU32;
    hide NameBytes;
    var name := NameBytes("memory");
    var limits := [0x00] + EncodeU(1);
    var p1 := pos + |EncodeName(ENV)|;
    var p2 := p1 + |EncodeName(name)|;
    AtSplit(bytes, pos, EncodeName(ENV), EncodeName(name) + ([0x02] + limits));
    AtSplit(bytes, p1, EncodeName(name), [0x02] + limits);
    AtByte(bytes, p2, 0x02, limits);
    AtByte(bytes, p2 + 1, 0x00, EncodeU(1));
    EnvSmall();
    NameDecodes(bytes, pos, ENV);
    NameDecodes(bytes, p1, name);
    U32RoundTrip(bytes, p2 + 2, 1);
  }

  function ViewImports(items: seq<FuncImport>, index: nat): (r: seq<ImportView>) {
    if items == [] then [] else [ViewImport(items[0], index)] + ViewImports(items[1..], index + 1)
  }

  predicate ImportsFit(items: seq<FuncImport>) {
    forall k :: 0 <= k < |items| ==> ImportFits(items[k])
  }

  lemma {:induction false} ImportsDecode(bytes: seq<byte>, pos: nat, items: seq<FuncImport>, funcs: nat, memories: nat)
    requires At(bytes, pos, EncodeImports(items)) && ImportsFit(items)
    ensures ReadImports(bytes, pos, |items|, funcs, memories)
            == Some(Read(ViewImports(items, funcs), pos + |EncodeImports(items)|))
    decreases |items|
  {
    hide EncodeImport;
    hide ReadImport;
    hide At;
    hide NameBytes;
    if items != [] {
      assert ImportFits(items[0]);
      AtSplit(bytes, pos, EncodeImport(items[0]), EncodeImports(items[1..]));
      ImportDecodes(bytes, pos, items[0], funcs, memories);
      assert forall k :: 0 <= k < |items[1..]| ==> items[1..][k] == items[k + 1];
      ImportsDecode(bytes, pos + |EncodeImport(items[0])|, items[1..], funcs + 1, memories);
    }
  }

  lemma {:induction false} CountViews(items: seq<FuncImport>, index: nat)
    ensures CountImports(ViewImports(items, index), 0) == |items| && CountImports(ViewImports(items, index), 2) == 0
    decreases |items|
  {
    if items != [] {
      CountViews(items[1..], index + 1);
      var v := ViewImports(items, index);
      assert v[1..] == ViewImports(items[1..], index + 1);
    }
  }

  // ---- Functions, exports, bodies ------------------------------------------------------

  predicate IndicesFit(ks: seq<nat>) {
    forall k :: 0 <= k < |ks| ==> Small(ks[k])
  }

  lemma {:induction false} IndicesDecode(bytes: seq<byte>, pos: nat, ks: seq<nat>)
    requires At(bytes, pos, EncodeIndices(ks)) && IndicesFit(ks)
    ensures ReadIndices(bytes, pos, |ks|) == Some(Read(ks, pos + |EncodeIndices(ks)|))
    decreases |ks|
  {
    hide EncodeU;
    hide ReadU32;
    hide At;
    if ks != [] {
      AtSplit(bytes, pos, EncodeU(ks[0]), EncodeIndices(ks[1..]));
      U32RoundTrip(bytes, pos, ks[0]);
      IndicesDecode(bytes, pos + |EncodeU(ks[0])|, ks[1..]);
      assert [ks[0]] + ks[1..] == ks;
    }
  }

  function ViewLocals(ts: seq<ValType>): (r: seq<LocalView>) {
    if ts == [] then [] else [LocalView(1, TypeCode(ts[0]))] + ViewLocals(ts[1..])
  }

  lemma {:induction false} LocalsDecode(bytes: seq<byte>, pos: nat, ts: seq<ValType>)
    requires At(bytes, pos, EncodeLocals(ts))
    ensures ReadLocals(bytes, pos, |ts|) == Some(Read(ViewLocals(ts), pos + |EncodeLocals(ts)|))
    decreases |ts|
  {
    hide EncodeU;
    hide ReadU32;
    hide At;
    if ts != [] {
      var c := TypeCode(ts[0]);
      AtSplit(bytes, pos, EncodeU(1) + [c], EncodeLocals(ts[1..]));
      AtSplit(bytes, pos, EncodeU(1), [c]);
      U32RoundTrip(bytes, pos, 1);
      assert [c] == [c] + [];
      AtByte(bytes, pos + |EncodeU(1)|, c, []);
      LocalsDecode(bytes, pos + |EncodeU(1)| + 1, ts[1..]);
    }
  }

  predicate BodyFits(b: Body) {
    CodeFits(b.code) && Small(|b.locals|) && Small(|EncodeBody(b)|)
  }

  function ViewBody(b: Body): CodeView {
    CodeView(ViewLocals(b.locals), LinesOf(b.code))
  }

  lemma BodyDecodes(bytes: seq<byte>, pos: nat, b: Body)
    requires BodyFits(b) && At(bytes, pos, EncodeU(|EncodeBody(b)|) + EncodeBody(b))
    ensures ReadBody(bytes, pos) == Some(Read(ViewBody(b), pos + |EncodeU(|EncodeBody(b)|) + EncodeBody(b)|))
  {
    hide EncodeU;
    hide ReadU32;
    hide EncodeLocals;
    hide EncodeCode;
    hide ReadLocals;
    hide DecodeLines;
    hide At;
    hide CodeFits;
    hide ViewLocals;
    hide LinesOf;
    var n := EncodeU(|EncodeBody(b)|);
    var count, locals, code := EncodeU(|b.locals|), EncodeLocals(b.locals), EncodeCode(b.code) + END;
    var p1 := pos + |n|;
    var p2 := p1 + |count|;
    var p3 := p2 + |locals|;
    AtSplit(bytes, pos, n, EncodeBody(b));
    U32RoundTrip(bytes, pos, |EncodeBody(b)|);
    AtSplit(bytes, p1, count + locals, code);
    AtSplit(bytes, p1, count, locals);
    U32RoundTrip(bytes, p1, |b.locals|);
    LocalsDecode(bytes, p2, b.locals);
    CodeDecodes(bytes, p3, b.code);
    assert |END| == 1;
  }

  function ViewBodies(bs: seq<Body>): (r: seq<CodeView>) {
    if bs == [] then [] else [ViewBody(bs[0])] + ViewBodies(bs[1..])
  }

  predicate BodiesFit(bs: seq<Body>) {
    forall k :: 0 <= k < |bs| ==> BodyFits(bs[k])
  }

  lemma {:induction false} BodiesDecode(bytes: seq<byte>, pos: nat, bs: seq<Body>)
    requires At(bytes, pos, EncodeBodies(bs)) && BodiesFit(bs)
    ensures ReadBodies(bytes, pos, |bs|) == Some(Read(ViewBodies(bs), pos + |EncodeBodies(bs)|))
    decreases |bs|
  {
    hide EncodeBody;
    hide EncodeU;
    hide ReadBody;
    hide At;
    hide BodyFits;
    if bs != [] {
      var first := EncodeU(|EncodeBody(bs[0])|) + EncodeBody(bs[0]);
      assert BodyFits(bs[0]);
      AtSplit(bytes, pos, first, EncodeBodies(bs[1..]));
      BodyDecodes(bytes, pos, bs[0]);
      BodiesDecode(bytes, pos + |first|, bs[1..]);
    }
  }

  // ---- Sections and modules ------------------------------------------------------------

  /** Everything the writer counts fits 32 bits. */
  predicate ModuleFits(m: Module) {
    && TypesFit(m.types) && Small(|m.types|) && Small(|TypeSection(m)|)
    && ImportsFit(m.imports) && Small(1 + |m.imports|) && Small(|ImportSection(m)|)
    && IndicesFit(m.funcs) && Small(|m.funcs|) && Small(|FunctionSection(m)|)
    && Small(m.entry) && Small(|ExportSection(m)|)
    && BodiesFit(m.bodies) && Small(|m.bodies|) && Small(|CodeSection(m)|)
  }

  /** What the viewer should show of a module: the memory import before the functions, one export. */
  function ViewOf(m: Module): (v: View) {
    View(ViewTypes(m.types), [MEMORY_VIEW] + ViewImports(m.imports, 0), m.funcs,
         [ExportView(NameBytes(ENTRY_NAME), 0, m.entry)], ViewBodies(m.bodies), |m.imports|, 1)
  }

  lemma TypeSectionDecodes(bytes: seq<byte>, pos: nat, m: Module, v: View)
    requires ModuleFits(m) && At(bytes, pos, TypeSection(m))
    ensures ReadSection(bytes, 1, pos, v) == Some(v.(types := v.types + ViewTypes(m.types)))
  {
    hide EncodeU;
    hide ReadU32;
    hide EncodeTypes;
    hide ReadTypes;
    hide ViewTypes;
    AtSplit(bytes, pos, EncodeU(|m.types|), EncodeTypes(m.types));
    U32RoundTrip(bytes, pos, |m.types|);
    TypesDecode(bytes, pos + |EncodeU(|m.types|)|, m.types);
  }

  lemma ImportSectionDecodes(bytes: seq<byte>, pos: nat, m: Module, v: View)
    requires ModuleFits(m) && At(bytes, pos, ImportSection(m)) && v.importFuncs == 0 && v.importMemories == 0
    ensures ReadSection(bytes, 2, pos, v)
            == Some(v.(imports := v.imports + ([MEMORY_VIEW] + ViewImports(m.imports, 0)),
                       importFuncs := |m.imports|, importMemories := 1))
  {
    hide EncodeU;
    hide ReadU32;
    hide EncodeImports;
    hide EncodeMemoryImport;
    hide ReadImport;
    hide ViewImports;
    hide NameBytes;
    hide At;
    var n := EncodeU(1 + |m.imports|);
    var p1 := pos + |n|;
    var p2 := p1 + |EncodeMemoryImport()|;
    AtSplit(bytes, pos, n, EncodeMemoryImport() + EncodeImports(m.imports));
    AtSplit(bytes, p1, EncodeMemoryImport(), EncodeImports(m.imports));
    U32RoundTrip(bytes, pos, 1 + |m.imports|);
    MemoryImportDecodes(bytes, p1, 0);
    ImportsDecode(bytes, p2, m.imports, 0, 1);
    var rest := ViewImports(m.imports, 0);
    var all := [MEMORY_VIEW] + rest;
    assert all[0] == MEMORY_VIEW && all[1..] == rest;
    CountViews(m.imports, 0);
  }

  lemma FunctionSectionDecodes(bytes: seq<byte>, pos: nat, m: Module, v: View)
    requires ModuleFits(m) && At(bytes, pos, FunctionSection(m))
    ensures ReadSection(bytes, 3, pos, v) == Some(v.(functionTypes := v.functionTypes + m.funcs))
  {
    hide EncodeU;
    hide ReadU32;
    hide EncodeIndices;
    hide ReadIndices;
    AtSplit(bytes, pos, EncodeU(|m.funcs|), EncodeIndices(m.funcs));
    U32RoundTrip(bytes, pos, |m.funcs|);
    IndicesDecode(bytes, pos + |EncodeU(|m.funcs|)|, m.funcs);
  }

  lemma ExportSectionDecodes(bytes: seq<byte>, pos: nat, m: Module, v: View)
    requires ModuleFits(m) && At(bytes, pos, ExportSection(m))
    ensures ReadSection(bytes, 7, pos, v)
            == Some(v.(exports := v.exports + [ExportView(NameBytes(ENTRY_NAME), 0, m.entry)]))
  {
    hide EncodeU;
    hide ReadU32;
    hide EncodeName;
    hide ReadName;
    hide NameBytes;
    hide At;
    var name, tail := EncodeName(NameBytes(ENTRY_NAME)), [0x00] + EncodeU(m.entry);
    var p1 := pos + |EncodeU(1)|;
    AtSplit(bytes, pos, EncodeU(1), name + tail);
    AtSplit(bytes, p1, name, tail);
    AtByte(bytes, p1 + |name|, 0x00, EncodeU(m.entry));
    U32RoundTrip(bytes, pos, 1);
    EnvSmall();
    NameDecodes(bytes, p1, NameBytes(ENTRY_NAME));
    U32RoundTrip(bytes, p1 + |name| + 1, m.entry);
    OneExport(bytes, pos, p1, NameBytes(ENTRY_NAME), p1 + |name|, m.entry, p1 + |name| + 1 + |EncodeU(m.entry)|, v);
  }

  /** An export section of one function. */
  lemma OneExport(bytes: seq<byte>, pos: nat, p1: nat, name: seq<byte>, p2: nat, entry: u32, next: nat, v: View)
    requires ReadU32(bytes, pos) == Some(Read(1, p1)) && ReadName(bytes, p1) == Some(Read(name, p2))
    requires p2 < |bytes| && bytes[p2] == 0 && ReadU32(bytes, p2 + 1) == Some(Read(entry, next))
    ensures ReadSection(bytes, 7, pos, v) == Some(v.(exports := v.exports + [ExportView(name, 0, entry)]))
  {
    hide ReadU32;
    hide ReadName;
    var e := ExportView(name, 0, entry);
    assert ReadExport(bytes, p1) == Some(Read(e, next));
    NoExports(bytes, next);
    assert [e] + [] == [e];
    ExportsOpen(bytes, p1, e, next);
  }

  lemma NoExports(bytes: seq<byte>, pos: nat)
    ensures ReadExports(bytes, pos, 0) == Some(Read([], pos))
  {
  }

  lemma ExportsOpen(bytes: seq<byte>, pos: nat, e: ExportView, next: nat)
    requires ReadExport(bytes, pos) == Some(Read(e, next))
    ensures ReadExports(bytes, pos, 1) == Some(Read([e], next))
  {
    hide ReadExport;
    NoExports(bytes, next);
    assert [e] + [] == [e];
  }

  lemma CodeSectionDecodes(bytes: seq<byte>, pos: nat, m: Module, v: View)
    requires ModuleFits(m) && At(bytes, pos, CodeSection(m))
    ensures ReadSection(bytes, 10, pos, v) == Some(v.(codes := v.codes + ViewBodies(m.bodies)))
  {
    hide EncodeU;
    hide ReadU32;
    hide EncodeBodies;
    hide ReadBodies;
    hide ViewBodies;
    AtSplit(bytes, pos, EncodeU(|m.bodies|), EncodeBodies(m.bodies));
    U32RoundTrip(bytes, pos, |m.bodies|);
    BodiesDecode(bytes, pos + |EncodeU(|m.bodies|)|, m.bodies);
  }

  /** The position of a section's payload, and the step over the section. */
  lemma SectionStep(bytes: seq<byte>, pos: nat, id: byte, body: seq<byte>, rest: seq<byte>, v: View, v': View)
    requires At(bytes, pos, EncodeSection(id, body) + rest) && Small(|body|)
    requires ReadSection(bytes, id, pos + 1 + |EncodeU(|body|)|, v) == Some(v')
    ensures ReadSections(bytes, pos, v) == ReadSections(bytes, pos + |EncodeSection(id, body)|, v')
  {
    hide EncodeU;
    hide ReadU32;
    hide ReadSection;
    SectionAt(bytes, pos, id, body, rest);
    U32RoundTrip(bytes, pos + 1, |body|);
  }

  lemma SectionAt(bytes: seq<byte>, pos: nat, id: byte, body: seq<byte>, rest: seq<byte>)
    requires At(bytes, pos, EncodeSection(id, body) + rest)
    ensures pos < |bytes| && bytes[pos] == id
    ensures At(bytes, pos + 1, EncodeU(|body|)) && At(bytes, pos + 1 + |EncodeU(|body|)|, body)
    ensures pos + |EncodeSection(id, body)| <= |bytes| && At(bytes, pos + |EncodeSection(id, body)|, rest)
  {
    hide EncodeU;
    var n := EncodeU(|body|);
    AtSplit(bytes, pos, EncodeSection(id, body), rest);
    assert EncodeSection(id, body) == [id] + (n + body);
    AtByte(bytes, pos, id, n + body);
    AtSplit(bytes, pos + 1, n, body);
  }

  /** Reading back the bytes of a module recovers its types, its imports in index order, the types of its functions,
      its export, its local declarations and its instructions. */
  lemma ModuleRoundTrip(m: Module)
    requires ModuleFits(m)
    ensures ParseModule(EncodeModule(m)) == Some(ViewOf(m))
  {
    hide EncodeSection;
    hide EncodeU;
    hide TypeSection;
    hide ImportSection;
    hide FunctionSection;
    hide ExportSection;
    hide CodeSection;
    hide ViewTypes;
    hide ViewImports;
    hide ViewBodies;
    hide NameBytes;
    hide At;
    hide ReadSections;
    hide ReadSection;
    var bytes := EncodeModule(m);
    var s5 := EncodeSection(0x0a, CodeSection(m));
    var r4 := EncodeSection(0x07, ExportSection(m)) + s5;
    var r3 := EncodeSection(0x03, FunctionSection(m)) + r4;
    var r2 := EncodeSection(0x02, ImportSection(m)) + r3;
    var r1 := EncodeSection(0x01, TypeSection(m)) + r2;
    var p1 := 8;
    var p2 := p1 + |EncodeSection(0x01, TypeSection(m))|;
    var p3 := p2 + |EncodeSection(0x02, ImportSection(m))|;
    var p4 := p3 + |EncodeSection(0x03, FunctionSection(m))|;
    var p5 := p4 + |EncodeSection(0x07, ExportSection(m))|;
    var v0 := View([], [], [], [], [], 0, 0);
    var v1 := v0.(types := v0.types + ViewTypes(m.types));
    var v2 := v1.(imports := v1.imports + ([MEMORY_VIEW] + ViewImports(m.imports, 0)),
                  importFuncs := |m.imports|, importMemories := 1);
    var v3 := v2.(functionTypes := v2.functionTypes + m.funcs);
    var v4 := v3.(exports := v3.exports + [ExportView(NameBytes(ENTRY_NAME), 0, m.entry)]);
    var v5 := v4.(codes := v4.codes + ViewBodies(m.bodies));
    WholeAt(bytes, MAGIC, r1);
    SectionAt(bytes, p1, 0x01, TypeSection(m), r2);
    TypeSectionDecodes(bytes, p1 + 1 + |EncodeU(|TypeSection(m)|)|, m, v0);
    SectionStep(bytes, p1, 0x01, TypeSection(m), r2, v0, v1);
    SectionAt(bytes, p2, 0x02, ImportSection(m), r3);
    ImportSectionDecodes(bytes, p2 + 1 + |EncodeU(|ImportSection(m)|)|, m, v1);
    SectionStep(bytes, p2, 0x02, ImportSection(m), r3, v1, v2);
    SectionAt(bytes, p3, 0x03, FunctionSection(m), r4);
    FunctionSectionDecodes(bytes, p3 + 1 + |EncodeU(|FunctionSection(m)|)|, m, v2);
    SectionStep(bytes, p3, 0x03, FunctionSection(m), r4, v2, v3);
    SectionAt(bytes, p4, 0x07, ExportSection(m), s5);
    ExportSectionDecodes(bytes, p4 + 1 + |EncodeU(|ExportSection(m)|)|, m, v3);
    SectionStep(bytes, p4, 0x07, ExportSection(m), s5, v3, v4);
    LastSection(bytes, p5, CodeSection(m));
    CodeSectionDecodes(bytes, p5 + 1 + |EncodeU(|CodeSection(m)|)|, m, v4);
    SectionStep(bytes, p5, 0x0a, CodeSection(m), [], v4, v5);
    ReadNothing(bytes, v5);
    Magic(bytes, r1);
    assert v5 == ViewOf(m);
  }

  lemma WholeAt(bytes: seq<byte>, a: seq<byte>, b: seq<byte>)
    requires bytes == a + b
    ensures At(bytes, |a|, b)
  {
  }

  lemma LastSection(bytes: seq<byte>, pos: nat, body: seq<byte>)
    requires At(bytes, pos, EncodeSection(0x0a, body))
    ensures At(bytes, pos, EncodeSection(0x0a, body) + [])
    ensures At(bytes, pos + 1 + |EncodeU(|body|)|, body)
  {
    hide EncodeU;
    assert EncodeSection(0x0a, body) + [] == EncodeSection(0x0a, body);
    SectionAt(bytes, pos, 0x0a, body, []);
  }

  lemma ReadNothing(bytes: seq<byte>, v: View)
    ensures ReadSections(bytes, |bytes|, v) == Some(v)
  {
  }

  lemma Magic(bytes: seq<byte>, rest: seq<byte>)
    requires bytes == MAGIC + rest
    ensures |bytes| >= 8 && bytes[..4] == MAGIC[..4]
  {
  }

  // ---- Nothing is lost ---------------------------------------------------------------

  predicate NamesAreBytes(m: Module) {
    forall k :: 0 <= k < |m.imports| ==> ByteString(m.imports[k].name)
  }

  predicate ByteString(name: string) {
    forall k :: 0 <= k < |name| ==> name[k] as int < 256
  }

  lemma NameInjective(a: string, b: string)
    requires ByteString(a) && ByteString(b) && NameBytes(a) == NameBytes(b)
    ensures a == b
  {
    forall k | 0 <= k < |a| ensures a[k] == b[k] {
      assert NameBytes(a)[k] == NameBytes(b)[k];
    }
  }

  lemma {:induction false} TypeCodesInjective(a: seq<ValType>, b: seq<ValType>)
    requires TypeCodes(a) == TypeCodes(b)
    ensures a == b
    decreases |a|
  {
    if a != [] {
      assert TypeCodes(a)[0] == TypeCodes(b)[0];
      assert TypeCodes(a)[1..] == TypeCodes(a[1..]) && TypeCodes(b)[1..] == TypeCodes(b[1..]);
      TypeCodesInjective(a[1..], b[1..]);
      assert a == [a[0]] + a[1..] && b == [b[0]] + b[1..];
    }
  }

  lemma {:induction false} ViewTypesInjective(a: seq<FuncType>, b: seq<FuncType>)
    requires ViewTypes(a) == ViewTypes(b)
    ensures a == b
    decreases |a|
  {
    hide TypeCodes;
    if a != [] {
      assert ViewTypes(a)[0] == ViewTypes(b)[0];
      assert ViewTypes(a)[1..] == ViewTypes(a[1..]) && ViewTypes(b)[1..] == ViewTypes(b[1..]);
      TypeCodesInjective(a[0].params, b[0].params);
      TypeCodesInjective(ResultSeq(a[0].result), ResultSeq(b[0].result));
      assert a[0].result == b[0].result by {
        ResultSeqInjective(a[0].result, b[0].result);
      }
      ViewTypesInjective(a[1..], b[1..]);
      assert a == [a[0]] + a[1..] && b == [b[0]] + b[1..];
    }
  }

  lemma ResultSeqInjective(a: Option<ValType>, b: Option<ValType>)
    requires ResultSeq(a) == ResultSeq(b)
    ensures a == b
  {
    if a.Some? {
      assert ResultSeq(a)[0] == ResultSeq(b)[0];
    }
  }

  lemma {:induction false} ViewImportsInjective(a: seq<FuncImport>, b: seq<FuncImport>, index: nat)
    requires ViewImports(a, index) == ViewImports(b, index)
    requires (forall k :: 0 <= k < |a| ==> ByteString(a[k].name))
             && (forall k :: 0 <= k < |b| ==> ByteString(b[k].name))
    ensures a == b
    decreases |a|
  {
    hide NameBytes;
    if a != [] {
      var va, vb := ViewImports(a, index), ViewImports(b, index);
      assert va[0] == vb[0] && va[1..] == ViewImports(a[1..], index + 1) && vb[1..] == ViewImports(b[1..], index + 1);
      NameInjective(a[0].name, b[0].name);
      ViewImportsInjective(a[1..], b[1..], index + 1);
      assert a == [a[0]] + a[1..] && b == [b[0]] + b[1..];
    }
  }

  lemma {:induction false} ViewLocalsInjective(a: seq<ValType>, b: seq<ValType>)
    requires ViewLocals(a) == ViewLocals(b)
    ensures a == b
    decreases |a|
  {
    if a != [] {
      var va, vb := ViewLocals(a), ViewLocals(b);
      assert va[0] == vb[0] && va[1..] == ViewLocals(a[1..]) && vb[1..] == ViewLocals(b[1..]);
      ViewLocalsInjective(a[1..], b[1..]);
      assert a == [a[0]] + a[1..] && b == [b[0]] + b[1..];
    }
  }

  lemma {:induction false} ViewBodiesInjective(a: seq<Body>, b: seq<Body>)
    requires ViewBodies(a) == ViewBodies(b) && BodiesFit(a) && BodiesFit(b)
    ensures a == b
    decreases |a|
  {
    hide CodeFits;
    hide EncodeBody;
    if a != [] {
      var va, vb := ViewBodies(a), ViewBodies(b);
      assert va[0] == vb[0] && va[1..] == ViewBodies(a[1..]) && vb[1..] == ViewBodies(b[1..]);
      assert BodyFits(a[0]) && BodyFits(b[0]);
      ViewLocalsInjective(a[0].locals, b[0].locals);
      LinesInjective(a[0].code, b[0].code);
      assert forall k :: 0 <= k < |a[1..]| ==> a[1..][k] == a[k + 1];
      assert forall k :: 0 <= k < |b[1..]| ==> b[1..][k] == b[k + 1];
      ViewBodiesInjective(a[1..], b[1..]);
      assert a == [a[0]] + a[1..] && b == [b[0]] + b[1..];
    }
  }

  /** Different modules have different bytes: what the viewer reads determines the module. */
  lemma BytesDetermineModule(a: Module, b: Module)
    requires ModuleFits(a) && ModuleFits(b) && NamesAreBytes(a) && NamesAreBytes(b)
    requires EncodeModule(a) == EncodeModule(b)
    ensures a == b
  {
    hide EncodeModule;
    hide ParseModule;
    hide ViewTypes;
    hide ViewImports;
    hide ViewBodies;
    hide NameBytes;
    ModuleRoundTrip(a);
    ModuleRoundTrip(b);
    var va, vb := ViewOf(a), ViewOf(b);
    assert va.imports[1..] == ViewImports(a.imports, 0) && vb.imports[1..] == ViewImports(b.imports, 0);
    assert va.exports[0].index == a.entry && vb.exports[0].index == b.entry;
    ViewTypesInjective(a.types, b.types);
    ViewImportsInjective(a.imports, b.imports, 0);
    ViewBodiesInjective(a.bodies, b.bodies);
  }

  /** The viewer shows an instruction's own immediate except for 64-bit constants below -2^62. */
  lemma ShownRight(k: s64)
    ensures LineOf(I64Const(k)) == LI64(k) <==> k >= -0x4000_0000_0000_0000
  {
    Pow2Values();
  }

  // ---- Valid modules -------------------------------------------------------------------------------

  /** Counts, indices and section sizes of a module fit 32 bits. */
  predicate SizesSmall(m: Module) {
    && Small(|m.types|) && TypesFit(m.types) && ImportsFit(m.imports) && Small(1 + |m.imports| + |m.funcs|)
    && Small(|TypeSection(m)|) && Small(|ImportSection(m)|) && Small(|FunctionSection(m)|)
    && Small(|ExportSection(m)|) && Small(|CodeSection(m)|)
    && forall k :: 0 <= k < |m.bodies| && k < |m.funcs| && m.funcs[k] < |m.types| ==>
         Small(|m.types[m.funcs[k]].params| + |m.bodies[k].locals|) && Small(|EncodeBody(m.bodies[k])|)
  }

  /** The viewer has a name for every numeric opcode. */
  predicate KnownCode(code: Code) {
    forall k :: 0 <= k < |code| && code[k].Numeric? ==> KnownNumeric(code[k].opcode)
  }

  /** Of checked code the viewer reads everything but numeric instructions it has no name for. */
  lemma {:induction false} CheckedFits(m: Module, locals: seq<ValType>, result: Option<ValType>, code: Code, s: Shape)
    requires Check(m, locals, result, code, s).Some? && Small(|locals|) && Small(|m.imports| + |m.funcs|)
    ensures CodeFits(code) <==> KnownCode(code)
    decreases |code|
  {
    hide CheckInstr;
    hide KnownNumeric;
    if code != [] {
      InstrChecked(m, locals, result, code[0], s);
      CheckedFits(m, locals, result, code[1..], CheckInstr(m, locals, result, code[0], s).value);
      FirstAndRest(code);
    }
  }

  lemma FirstAndRest(code: Code)
    requires code != []
    ensures CodeFits(code) <==> InstrFits(code[0]) && CodeFits(code[1..])
    ensures KnownCode(code) <==> (code[0].Numeric? ==> KnownNumeric(code[0].opcode)) && KnownCode(code[1..])
  {
    hide InstrFits;
    hide KnownNumeric;
    assert code == [code[0]] + code[1..];
    CodeJoins([code[0]], code[1..]);
  }

  lemma CodeJoins(a: Code, b: Code)
    ensures CodeFits(a + b) <==> CodeFits(a) && CodeFits(b)
    ensures KnownCode(a + b) <==> KnownCode(a) && KnownCode(b)
  {
    hide InstrFits;
    hide KnownNumeric;
    assert forall k :: 0 <= k < |a| ==> (a + b)[k] == a[k];
    assert forall k :: 0 <= k < |b| ==> b[k] == (a + b)[|a| + k];
  }

  lemma InstrChecked(m: Module, locals: seq<ValType>, result: Option<ValType>, i: Instruction, s: Shape)
    requires CheckInstr(m, locals, result, i, s).Some? && Small(|locals|) && Small(|m.imports| + |m.funcs|)
    ensures InstrFits(i) <==> (i.Numeric? ==> KnownNumeric(i.opcode))
  {
    hide Pop;
    hide PopPush;
    hide Decode;
    hide KnownNumeric;
  }

  /** With indices in range and sizes of 32 bits a module can be written and read if its code can. */
  lemma IndicesFitModule(m: Module)
    requires ValidIndices(m) && SizesSmall(m)
    ensures ModuleFits(m) <==> forall k :: 0 <= k < |m.bodies| ==> CodeFits(m.bodies[k].code)
  {
    hide EncodeBody;
    hide TypeSection;
    hide ImportSection;
    hide FunctionSection;
    hide ExportSection;
    hide CodeSection;
    hide TypesFit;
    hide ImportsFit;
    hide CodeFits;
    forall k | 0 <= k < |m.bodies| ensures BodyFits(m.bodies[k]) <==> CodeFits(m.bodies[k].code) {
      assert m.funcs[k] < |m.types|;
    }
  }

  /** A valid module whose parts fit 32 bits is written and read back if and only if the viewer has a name for each
      of its numeric opcodes. */
  lemma ValidFits(m: Module)
    requires ValidModule(m) && SizesSmall(m)
    ensures ModuleFits(m) <==> forall k :: 0 <= k < |m.bodies| ==> KnownCode(m.bodies[k].code)
  {
    hide ModuleFits;
    hide Check;
    hide CodeFits;
    hide KnownCode;
    hide EncodeBody;
    IndicesFitModule(m);
    forall k | 0 <= k < |m.bodies| ensures CodeFits(m.bodies[k].code) <==> KnownCode(m.bodies[k].code) {
      var t, b := m.types[m.funcs[k]], m.bodies[k];
      assert ValidBody(m, t, b);
      CheckedFits(m, t.params + b.locals, t.result, b.code, Shape([], false));
    }
  }
}
