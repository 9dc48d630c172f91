/** What docs/web/wasm.js reads from bytes that the backend does not write itself: code with blocks, branches and all
    variables, sections it has no use for, and bytes that are no module. */
module StructuredCode {
  import opened Wrappers
  import opened Bits
  import opened Leb128
  import opened Mir
  import opened MirEval
  import opened WasmBuffer
  import opened ModuleBytes
  import opened ByteRoundTrip

  // ---- Lines as bytes ----------------------------------------------------------------------------

  /** The bytes of a line, after the binary format of instructions (section 5.4 of the WebAssembly Core Specification
      1.0). */
  function LineBytes(l: Line): (bytes: seq<byte>)
    requires LineFits(l)
  {
    match l
    case LEnd => [0x0b]
    case LElse => [0x05]
    case LBlock(opcode, blockType) => [opcode, blockType]
    case LBranch(conditional, depth) => [if conditional then 0x0d else 0x0c] + EncodeU(depth)
    case LCall(func) => [0x10] + EncodeU(func)
    case LLocal(opcode, index) => [opcode] + EncodeU(index)
    case LMemory(opcode, align, offset) => [opcode] + (EncodeU(align) + EncodeU(offset))
    case LI32(i) => [0x41] + EncodeS(i)
    case LI64(i) => [0x42] + EncodeS(i)
    case LF32(bits) => [0x43] + LittleEndian(bits, 4)
    case LF64(bits) => [0x44] + LittleEndian(bits, 8)
    case LSimple(opcode) => [opcode]
    case LUnsupported(opcode) => [opcode]
  }

  /** Lines that have an encoding which the viewer reads. */
  predicate LineFits(l: Line) {
    match l
    case LEnd | LElse => true
    case LBlock(opcode, _) => opcode == 0x02 || opcode == 0x03 || opcode == 0x04
    case LBranch(_, depth) => Small(depth)
    case LCall(func) => Small(func)
    case LLocal(opcode, index) => 0x20 <= opcode <= 0x24 && Small(index)
    case LMemory(opcode, align, offset) => IsMemoryOp(opcode) && Small(align) && Small(offset)
    case LI32(_) => true
    case LI64(i) => -0x4000_0000_0000_0000 <= i < 0x8000_0000_0000_0000
    case LF32(bits) => bits < 0x1_0000_0000
    case LF64(bits) => bits < 0x1_0000_0000_0000_0000
    case LSimple(opcode) => IsSimple(opcode)
    case LUnsupported(_) => false
  }

  /** Blocks are closed, and `else` and `end` stand inside one; `depth` blocks are open before the lines. */
  predicate Nested(ls: seq<Line>, depth: nat)
    decreases |ls|
  {
    if ls == [] then depth == 0
    else
      LineFits(ls[0])
      && match ls[0]
         case LEnd => depth > 0 && Nested(ls[1..], depth - 1)
         case LElse => depth > 0 && Nested(ls[1..], depth)
         case LBlock(_, _) => Nested(ls[1..], depth + 1)
         case _ => Nested(ls[1..], depth)
  }

  function LinesBytes(ls: seq<Line>, depth: nat): (bytes: seq<byte>)
    requires Nested(ls, depth)
    decreases |ls|
  {
    if ls == [] then []
    else LineBytes(ls[0]) + LinesBytes(ls[1..], Inside(ls[0], depth))
  }

  /** How many blocks are open behind a line. */
  function Inside(l: Line, depth: nat): nat
    requires l.LEnd? ==> depth > 0
  {
    match l
    case LEnd => depth - 1
    case LBlock(_, _) => depth + 1
    case _ => depth
  }

  /** Each line is indented by the blocks it stands in; `else` and `end` stand where their block does. */
  function Laid(ls: seq<Line>, depth: nat): (lines: seq<Indented>)
    requires Nested(ls, depth)
    decreases |ls|
  {
    if ls == [] then []
    else [Indented(if ls[0].LEnd? || ls[0].LElse? then depth - 1 else depth, ls[0])]
         + Laid(ls[1..], Inside(ls[0], depth))
  }

  // ---- Reading them ----------------------------------------------------------------------------------

  lemma NumberRead(bytes: seq<byte>, pos: nat, b: byte, n: u32)
    requires At(bytes, pos, [b] + EncodeU(n))
    ensures pos < |bytes| && bytes[pos] == b && ReadU32(bytes, pos + 1) == Some(Read(n, pos + 1 + |EncodeU(n)|))
  {
    hide EncodeU;
    hide ReadU32;
    AtByte(bytes, pos, b, EncodeU(n));
    U32RoundTrip(bytes, pos + 1, n);
  }

  predicate Flat(l: Line) {
    !l.LEnd? && !l.LElse? && !l.LBlock?
  }

  /** A line outside control structure is read as itself. */
  lemma LineReads(bytes: seq<byte>, pos: nat, l: Line)
    requires LineFits(l) && Flat(l) && At(bytes, pos, LineBytes(l))
    ensures pos < |bytes| && Plain(bytes[pos])
    ensures DecodeOne(bytes, pos) == Some(Read(l, pos + |LineBytes(l)|))
  {
    hide EncodeU;
    hide EncodeS;
    hide ReadU32;
    hide LittleEndian;
    hide At;
    hide Pow2;
    match l
    case LBranch(conditional, depth) => NumberRead(bytes, pos, if conditional then 0x0d else 0x0c, depth);
    case LCall(func) => NumberRead(bytes, pos, 0x10, func);
    case LLocal(opcode, index) => NumberRead(bytes, pos, opcode, index);
    case LMemory(opcode, align, offset) => MemoryDecodes(bytes, pos, opcode, align, offset);
    case LI32(i) => ConstDecodes(bytes, pos, 0x41, i);
    case LI64(i) => ConstDecodes(bytes, pos, 0x42, i);
    case LF32(bits) => Pow2Values(); FloatDecodes(bytes, pos, 0x43, 4, bits);
    case LF64(bits) => Pow2Values(); FloatDecodes(bytes, pos, 0x44, 8, bits);
    case LSimple(opcode) =>
      assert [opcode] == [opcode] + [];
      AtByte(bytes, pos, opcode, []);
  }

  /** Code with blocks in any nesting is read as its lines, each indented by the blocks it stands in. */
  lemma {:induction false} NestedReads(bytes: seq<byte>, pos: nat, end: nat, ls: seq<Line>, depth: nat)
    requires Nested(ls, depth) && At(bytes, pos, LinesBytes(ls, depth) + END)
    requires pos + |LinesBytes(ls, depth)| < end
    ensures DecodeLines(bytes, pos, end, depth, depth) == Some(Laid(ls, depth))
    decreases |ls|
  {
    hide DecodeOne;
    hide At;
    hide LineBytes;
    hide LineFits;
    if ls == [] {
      assert LinesBytes(ls, depth) + END == [0x0b] + [];
      AtByte(bytes, pos, 0x0b, []);
    } else {
      var l, inside := ls[0], Inside(ls[0], depth);
      var first, rest := LineBytes(l), LinesBytes(ls[1..], inside) + END;
      assert LinesBytes(ls, depth) + END == first + rest;
      AtSplit(bytes, pos, first, rest);
      NestedReads(bytes, pos + |first|, end, ls[1..], inside);
      if Flat(l) {
        LineReads(bytes, pos, l);
      } else {
        StructureRead(bytes, pos, l);
      }
      OneLine(bytes, pos, end, ls, depth);
    }
  }

  lemma StructureRead(bytes: seq<byte>, pos: nat, l: Line)
    requires LineFits(l) && !Flat(l) && At(bytes, pos, LineBytes(l))
    ensures pos + |LineBytes(l)| <= |bytes| && LineBytes(l) != []
    ensures bytes[pos] == LineBytes(l)[0] && (l.LBlock? ==> |LineBytes(l)| == 2 && bytes[pos + 1] == l.blockType)
  {
    assert bytes[pos..pos + |LineBytes(l)|][0] == bytes[pos];
    if l.LBlock? {
      assert bytes[pos..pos + |LineBytes(l)|][1] == bytes[pos + 1];
    }
  }

  lemma OneLine(bytes: seq<byte>, pos: nat, end: nat, ls: seq<Line>, depth: nat)
    requires ls != [] && Nested(ls, depth) && LineFits(ls[0]) && pos < end
    requires var next := pos + |LineBytes(ls[0])|;
             var inside := Inside(ls[0], depth);
             DecodeLines(bytes, next, end, inside, inside) == Some(Laid(ls[1..], inside))
    requires Flat(ls[0]) ==>
               && pos < |bytes| && Plain(bytes[pos])
               && DecodeOne(bytes, pos) == Some(Read(ls[0], pos + |LineBytes(ls[0])|))
    requires !Flat(ls[0]) ==>
               && pos + |LineBytes(ls[0])| <= |bytes| && LineBytes(ls[0]) != [] && bytes[pos] == LineBytes(ls[0])[0]
               && (ls[0].LBlock? ==> |LineBytes(ls[0])| == 2 && bytes[pos + 1] == ls[0].blockType)
    ensures DecodeLines(bytes, pos, end, depth, depth) == Some(Laid(ls, depth))
  {
    hide DecodeOne;
    hide EncodeU;
    hide EncodeS;
  }

  // ---- Sections and headers -----------------------------------------------------------------------------

  /** A section without use is skipped, whatever it holds. */
  lemma OtherSection(bytes: seq<byte>, pos: nat, id: byte, payload: seq<byte>, v: View)
    requires At(bytes, pos, EncodeSection(id, payload)) && Small(|payload|)
    requires id != 1 && id != 2 && id != 3 && id != 7 && id != 10
    ensures ReadSections(bytes, pos, v) == ReadSections(bytes, pos + |EncodeSection(id, payload)|, v)
  {
    hide EncodeU;
    hide ReadU32;
    var n := EncodeU(|payload|);
    assert EncodeSection(id, payload) == [id] + (n + payload);
    AtByte(bytes, pos, id, n + payload);
    AtSplit(bytes, pos + 1, n, payload);
    U32RoundTrip(bytes, pos + 1, |payload|);
  }

  /** A section that says it is longer than the bytes are is an error. */
  lemma SectionPastEnd(bytes: seq<byte>, pos: nat, id: byte, size: u32, v: View)
    requires At(bytes, pos, [id] + EncodeU(size)) && pos + 1 + |EncodeU(size)| + size > |bytes|
    ensures ReadSections(bytes, pos, v).None?
  {
    hide EncodeU;
    hide ReadU32;
    NumberRead(bytes, pos, id, size);
  }

  /** Bytes are read at all only if there are eight of them and they begin with the magic number. */
  lemma HeaderNeeded(bytes: seq<byte>)
    ensures ParseModule(bytes).Some? ==> |bytes| >= 8 && bytes[..4] == [0x00, 0x61, 0x73, 0x6d]
    ensures |bytes| == 8 && bytes[..4] == [0x00, 0x61, 0x73, 0x6d] ==>
              ParseModule(bytes) == Some(View([], [], [], [], [], 0, 0))
  {
    assert MAGIC[..4] == [0x00, 0x61, 0x73, 0x6d];
  }

  // ---- Other imports --------------------------------------------------------------------------------------

  /** Limits with a maximum are read as their minimum, and reading goes on behind the maximum. */
  lemma LimitsRead(bytes: seq<byte>, pos: nat, flags: byte, min: u32, max: u32)
    requires flags % 2 == 1 && At(bytes, pos, [flags] + (EncodeU(min) + EncodeU(max)))
    ensures ReadLimits(bytes, pos) == Some(Read(min, pos + 1 + |EncodeU(min)| + |EncodeU(max)|))
  {
    hide EncodeU;
    hide ReadU32;
    AtByte(bytes, pos, flags, EncodeU(min) + EncodeU(max));
    AtSplit(bytes, pos + 1, EncodeU(min), EncodeU(max));
    U32RoundTrip(bytes, pos + 1, min);
    U32RoundTrip(bytes, pos + 1 + |EncodeU(min)|, max);
  }

  /** An import that is neither a function nor a memory is kept with its names and kind; it is numbered like a memory,
      and reading goes on right behind its kind. */
  lemma OtherImport(bytes: seq<byte>, pos: nat, env: seq<byte>, name: seq<byte>, kind: byte, funcs: nat, memories: nat)
    requires kind != 0 && kind != 2 && Small(|env|) && Small(|name|)
    requires At(bytes, pos, EncodeName(env) + (EncodeName(name) + [kind]))
    ensures ReadImport(bytes, pos, funcs, memories)
            == Some(Read(ImportView(env, name, Some(kind), memories, None),
                         pos + |EncodeName(env)| + |EncodeName(name)| + 1))
  {
    hide EncodeName;
    hide ReadName;
    var p1 := pos + |EncodeName(env)|;
    var p2 := p1 + |EncodeName(name)|;
    AtSplit(bytes, pos, EncodeName(env), EncodeName(name) + [kind]);
    AtSplit(bytes, p1, EncodeName(name), [kind]);
    assert [kind] == [kind] + [];
    AtByte(bytes, p2, kind, []);
    NameDecodes(bytes, pos, env);
    NameDecodes(bytes, p1, name);
  }
}
