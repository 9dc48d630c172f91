/** The module viewer (docs/web/wasm.js): its readers move a position through the bytes in
    loops and push what they find. Each is tied to the function of `Leb128` or `ModuleBytes`
    that the round trips are about. */
module JsReader {
  import opened Wrappers
  import opened Bits
  import opened Leb128
  import opened ModuleBytes

  /** `ylcReadLebU32` */
  method ReadLebU32(bytes: seq<byte>, cursor: nat) returns (r: Option<Read<u32>>)
    ensures r == ReadU32(bytes, cursor)
  {
    hide Or32;
    hide Shl32;
    var value: u32 := 0;
    var shift: nat := 0;
    var pos := cursor;
    while pos < |bytes|
      invariant ReadU32(bytes, cursor) == ReadU32From(bytes, pos, value, shift)
    {
      var b := bytes[pos];
      pos := pos + 1;
      value := Or32(value, Shl32(b % 128, shift));
      if b < 128 {
        return Some(Read(value, pos));
      }
      shift := shift + 7;
    }
    r := None;
  }

  /** `ylcReadLebI32` */
  method ReadLebI32(bytes: seq<byte>, cursor: nat) returns (r: Option<Read<s32>>)
    ensures r == ReadS32(bytes, cursor)
  {
    hide Or32;
    hide Shl32;
    hide Signed32;
    var result: u32 := 0;
    var shift: nat := 0;
    var pos := cursor;
    while pos < |bytes|
      invariant ReadS32From(bytes, cursor, 0, 0) == ReadS32From(bytes, pos, result, shift)
    {
      var b := bytes[pos];
      pos := pos + 1;
      result := Or32(result, Shl32(b % 128, shift));
      shift := shift + 7;
      if b < 128 {
        if shift < 32 && b % 128 >= 64 {
          result := Or32(result, Shl32(0xffff_ffff, shift));
        }
        return Some(Read(Signed32(result), pos));
      }
    }
    r := None;
  }

  /** `ylcReadLebI64` */
  method ReadLebI64(bytes: seq<byte>, cursor: nat) returns (r: Option<Read<int>>)
    ensures r == ReadS64(bytes, cursor)
  {
    hide Or;
    hide Pow2;
    hide SignFill;
    var result: nat := 0;
    var shift: nat := 0;
    var pos := cursor;
    while pos < |bytes|
      invariant ReadS64(bytes, cursor) == ReadS64From(bytes, pos, result, shift)
    {
      var b := bytes[pos];
      pos := pos + 1;
      PowPositive(shift);
      result := Or(result, (b % 128) * Pow2(shift));
      shift := shift + 7;
      if b < 128 {
        if shift < 64 && b % 128 >= 64 {
          return Some(Read(SignFill(result, shift), pos));
        }
        return Some(Read(result, pos));
      }
    }
    r := None;
  }

  lemma PowPositive(shift: nat)
    ensures forall d: nat :: d * Pow2(shift) >= 0
  {
  }

  // ---- Instructions ----------------------------------------------------------------

  function Joined(lines: seq<Indented>, rest: Option<seq<Indented>>): Option<seq<Indented>> {
    match rest
    case None => None
    case Some(more) => Some(lines + more)
  }

  lemma JoinedStep(lines: seq<Indented>, line: Indented, rest: Option<seq<Indented>>)
    ensures Joined(lines, Prepend(line, rest)) == Joined(lines + [line], rest)
  {
    if rest.Some? {
      assert lines + ([line] + rest.value) == lines + [line] + rest.value;
    }
  }

  lemma JoinedEnds(lines: seq<Indented>, rest: Option<seq<Indented>>)
    ensures Joined([], rest) == rest && Joined(lines, Some([])) == Some(lines)
  {
    if rest.Some? {
      assert [] + rest.value == rest.value;
    }
    assert lines + [] == lines;
  }

  /** `ylcDecodeWatInstructions`; nothing where the viewer throws. */
  method DecodeWatInstructions(bytes: seq<byte>, cursor: nat, end: nat) returns (r: Option<seq<Indented>>)
    ensures r == DecodeLines(bytes, cursor, end, 0, 0)
  {
    hide DecodeOne;
    hide Joined;
    hide Prepend;
    var lines: seq<Indented> := [];
    var pos := cursor;
    var depth: nat := 0;
    var indent: nat := 0;
    JoinedEnds([], DecodeLines(bytes, cursor, end, 0, 0));
    while pos < end
      invariant DecodeLines(bytes, cursor, end, 0, 0) == Joined(lines, DecodeLines(bytes, pos, end, depth, indent))
      decreases end - pos
    {
      JoinedEnds(lines, None);
      if pos >= |bytes| {
        JoinedNone(lines);
        return None;
      }
      var opcode := bytes[pos];
      if opcode == 0x0b {
        if depth == 0 {
          return Some(lines);
        }
        indent := Dedent(indent);
        depth := depth - 1;
        pos := pos + 1;
        JoinedStep(lines, Indented(indent, LEnd), DecodeLines(bytes, pos, end, depth, indent));
        lines := lines + [Indented(indent, LEnd)];
      } else if opcode == 0x05 {
        indent := Dedent(indent);
        JoinedStep(lines, Indented(indent, LElse), DecodeLines(bytes, pos + 1, end, depth, indent + 1));
        lines := lines + [Indented(indent, LElse)];
        indent := indent + 1;
        pos := pos + 1;
      } else if opcode == 0x02 || opcode == 0x03 || opcode == 0x04 {
        if pos + 1 >= |bytes| {
          JoinedNone(lines);
          return None;
        }
        var line := Indented(indent, LBlock(opcode, bytes[pos + 1]));
        JoinedStep(lines, line, DecodeLines(bytes, pos + 2, end, depth + 1, indent + 1));
        lines := lines + [line];
        depth := depth + 1;
        indent := indent + 1;
        pos := pos + 2;
      } else {
        var one := DecodePlain(bytes, pos);
        if one.None? {
          JoinedNone(lines);
          return None;
        }
        var line := Indented(indent, one.value.value);
        if one.value.value.LUnsupported? {
          JoinedSome(lines, [line]);
          return Some(lines + [line]);
        }
        JoinedStep(lines, line, DecodeLines(bytes, one.value.next, end, depth, indent));
        lines := lines + [line];
        pos := one.value.next;
      }
    }
    JoinedEnds(lines, None);
    r := Some(lines);
  }

  lemma JoinedNone(lines: seq<Indented>)
    ensures Joined(lines, None) == None
  {
  }

  lemma JoinedSome(lines: seq<Indented>, more: seq<Indented>)
    ensures Joined(lines, Some(more)) == Some(lines + more)
  {
  }

  /** The branches of `ylcDecodeWatInstructions` outside control structure. */
  method DecodePlain(bytes: seq<byte>, cursor: nat) returns (r: Option<Read<Line>>)
    requires cursor < |bytes|
    ensures r == DecodeOne(bytes, cursor)
  {
    hide ReadU32;
    hide ReadS32;
    hide ReadS64;
    hide MirEval.FromLittleEndian;
    var opcode := bytes[cursor];
    var pos := cursor + 1;
    if opcode == 0x0c || opcode == 0x0d {
      var target := ReadLebU32(bytes, pos);
      if target.Some? {
        return Some(Read(LBranch(opcode == 0x0d, target.value.value), target.value.next));
      }
      return None;
    }
    if opcode == 0x10 {
      var fn := ReadLebU32(bytes, pos);
      if fn.Some? {
        return Some(Read(LCall(fn.value.value), fn.value.next));
      }
      return None;
    }
    if 0x20 <= opcode <= 0x24 {
      var local := ReadLebU32(bytes, pos);
      if local.Some? {
        return Some(Read(LLocal(opcode, local.value.value), local.value.next));
      }
      return None;
    }
    if IsMemoryOp(opcode) {
      r := DecodeMemoryOp(bytes, pos, opcode);
      return;
    }
    if opcode == 0x41 {
      var value := ReadLebI32(bytes, pos);
      if value.Some? {
        return Some(Read(LI32(value.value.value), value.value.next));
      }
      return None;
    }
    if opcode == 0x42 {
      var value := ReadLebI64(bytes, pos);
      if value.Some? {
        return Some(Read(LI64(value.value.value), value.value.next));
      }
      return None;
    }
    if opcode == 0x43 {
      if pos + 4 > |bytes| {
        return None;
      }
      return Some(Read(LF32(MirEval.FromLittleEndian(bytes[pos..pos + 4])), pos + 4));
    }
    if opcode == 0x44 {
      if pos + 8 > |bytes| {
        return None;
      }
      return Some(Read(LF64(MirEval.FromLittleEndian(bytes[pos..pos + 8])), pos + 8));
    }
    if IsSimple(opcode) {
      return Some(Read(LSimple(opcode), pos));
    }
    r := Some(Read(LUnsupported(opcode), pos));
  }

  method DecodeMemoryOp(bytes: seq<byte>, pos: nat, opcode: byte) returns (r: Option<Read<Line>>)
    requires IsMemoryOp(opcode)
    ensures r == match ReadU32(bytes, pos)
                 case None => None
                 case Some(align) =>
                   match ReadU32(bytes, align.next)
                   case None => None
                   case Some(offset) => Some(Read(LMemory(opcode, align.value, offset.value), offset.next))
  {
    hide ReadU32;
    var align := ReadLebU32(bytes, pos);
    if align.None? {
      return None;
    }
    var offset := ReadLebU32(bytes, align.value.next);
    if offset.None? {
      return None;
    }
    r := Some(Read(LMemory(opcode, align.value.value, offset.value.value), offset.value.next));
  }

  // ---- Sections ----------------------------------------------------------------------

  /** What was pushed already, then what is still to be read. */
  function Pushed<T>(done: seq<T>, rest: Option<Read<seq<T>>>): Option<Read<seq<T>>> {
    match rest
    case None => None
    case Some(Read(more, next)) => Some(Read(done + more, next))
  }

  lemma PushedStart<T>(rest: Option<Read<seq<T>>>)
    ensures Pushed([], rest) == rest
  {
    if rest.Some? {
      assert [] + rest.value.value == rest.value.value;
    }
  }

  lemma PushedEnd<T>(done: seq<T>, pos: nat)
    ensures Pushed(done, Some(Read([], pos))) == Some(Read(done, pos))
  {
    assert done + [] == done;
  }

  function Unshift<T>(x: T, rest: Option<Read<seq<T>>>): Option<Read<seq<T>>> {
    match rest
    case None => None
    case Some(Read(more, next)) => Some(Read([x] + more, next))
  }

  lemma PushedStep<T>(done: seq<T>, x: T, rest: Option<Read<seq<T>>>)
    ensures Pushed(done, Unshift(x, rest)) == Pushed(done + [x], rest)
  {
    if rest.Some? {
      assert done + ([x] + rest.value.value) == done + [x] + rest.value.value;
    }
  }

  /** `ylcReadName` */
  method ReadNameBytes(bytes: seq<byte>, cursor: nat) returns (r: Option<Read<seq<byte>>>)
    ensures r == ReadName(bytes, cursor)
  {
    hide ReadU32;
    var len := ReadLebU32(bytes, cursor);
    if len.None? {
      return None;
    }
    var start := len.value.next;
    var end := start + len.value.value;
    if end > |bytes| {
      return None;
    }
    r := Some(Read(bytes[start..end], end));
  }

  /** `count` value types, pushed one by one. */
  method ReadValTypes(bytes: seq<byte>, cursor: nat, count: nat) returns (r: Option<Read<seq<byte>>>)
    ensures r == ReadTypeCodes(bytes, cursor, count)
  {
    var types: seq<byte> := [];
    var pos := cursor;
    for p := 0 to count
      invariant pos == cursor + p <= |bytes| || (p == 0 && pos == cursor)
      invariant pos <= |bytes| ==> types == bytes[cursor..pos]
      invariant pos > |bytes| ==> types == []
    {
      if pos >= |bytes| {
        return None;
      }
      types := types + [bytes[pos]];
      pos := pos + 1;
    }
    if pos > |bytes| {
      return None;
    }
    r := Some(Read(types, pos));
  }

  method ReadFuncType(bytes: seq<byte>, cursor: nat) returns (r: Option<Read<TypeView>>)
    ensures r == ReadType(bytes, cursor)
  {
    hide ReadU32;
    hide ReadTypeCodes;
    if cursor >= |bytes| || bytes[cursor] != 0x60 {
      return None;
    }
    var paramCount := ReadLebU32(bytes, cursor + 1);
    if paramCount.None? {
      return None;
    }
    var params := ReadValTypes(bytes, paramCount.value.next, paramCount.value.value);
    if params.None? {
      return None;
    }
    var resultCount := ReadLebU32(bytes, params.value.next);
    if resultCount.None? {
      return None;
    }
    var results := ReadValTypes(bytes, resultCount.value.next, resultCount.value.value);
    if results.None? {
      return None;
    }
    r := Some(Read(TypeView(params.value.value, results.value.value), results.value.next));
  }

  /** `ylcReadLimits` */
  method ReadLimitsMin(bytes: seq<byte>, cursor: nat) returns (r: Option<Read<nat>>)
    ensures r == ReadLimits(bytes, cursor)
  {
    hide ReadU32;
    if cursor >= |bytes| {
      return None;
    }
    var flags := bytes[cursor];
    var min := ReadLebU32(bytes, cursor + 1);
    if min.None? {
      return None;
    }
    if flags % 2 == 0 {
      return Some(Read(min.value.value, min.value.next));
    }
    var max := ReadLebU32(bytes, min.value.next);
    if max.None? {
      return None;
    }
    r := Some(Read(min.value.value, max.value.next));
  }

  method ReadOneExport(bytes: seq<byte>, cursor: nat) returns (r: Option<Read<ExportView>>)
    ensures r == ReadExport(bytes, cursor)
  {
    hide ReadU32;
    hide ReadName;
    var name := ReadNameBytes(bytes, cursor);
    if name.None? {
      return None;
    }
    var pos := name.value.next;
    if pos >= |bytes| {
      return None;
    }
    var index := ReadLebU32(bytes, pos + 1);
    if index.None? {
      return None;
    }
    r := Some(Read(ExportView(name.value.value, bytes[pos], index.value.value), index.value.next));
  }

  /** The local declarations of a body. */
  method ReadLocalDecls(bytes: seq<byte>, cursor: nat, count: nat) returns (r: Option<Read<seq<LocalView>>>)
    ensures r == ReadLocals(bytes, cursor, count)
  {
    hide ReadU32;
    hide Pushed;
    var locals: seq<LocalView> := [];
    var pos: nat := cursor;
    PushedStart(ReadLocals(bytes, cursor, count));
    for l := 0 to count
      invariant ReadLocals(bytes, cursor, count) == Pushed(locals, ReadLocals(bytes, pos, count - l))
    {
      PushedNone(locals);
      var n := ReadLebU32(bytes, pos);
      if n.None? || n.value.next >= |bytes| {
        return None;
      }
      var local := LocalView(n.value.value, bytes[n.value.next]);
      pos := n.value.next + 1;
      PushedStep(locals, local, ReadLocals(bytes, pos, count - l - 1));
      locals := locals + [local];
    }
    PushedEnd(locals, pos);
    r := Some(Read(locals, pos));
  }

  lemma PushedNone<T>(done: seq<T>)
    ensures Pushed<T>(done, None) == None
  {
  }

  method ReadOneBody(bytes: seq<byte>, cursor: nat) returns (r: Option<Read<CodeView>>)
    ensures r == ReadBody(bytes, cursor)
  {
    hide ReadU32;
    hide ReadLocals;
    hide DecodeLines;
    var bodySize := ReadLebU32(bytes, cursor);
    if bodySize.None? {
      return None;
    }
    var bodyEnd := bodySize.value.next + bodySize.value.value;
    var localDeclCount := ReadLebU32(bytes, bodySize.value.next);
    if localDeclCount.None? {
      return None;
    }
    var locals := ReadLocalDecls(bytes, localDeclCount.value.next, localDeclCount.value.value);
    if locals.None? {
      return None;
    }
    var instructions := DecodeWatInstructions(bytes, locals.value.next, bodyEnd);
    if instructions.None? {
      return None;
    }
    r := Some(Read(CodeView(locals.value.value, instructions.value), bodyEnd));
  }

  /** The module object that `ylcParseWasm` fills. */
  class ModuleView {
    var types: seq<TypeView>
    var imports: seq<ImportView>
    var functionTypes: seq<nat>
    var exports: seq<ExportView>
    var codes: seq<CodeView>
    var importFuncCount: nat
    var importMemoryCount: nat

    function State(): View
      reads this
    {
      View(types, imports, functionTypes, exports, codes, importFuncCount, importMemoryCount)
    }

    constructor ()
      ensures State() == View([], [], [], [], [], 0, 0)
    {
      types, imports, functionTypes, exports, codes := [], [], [], [], [];
      importFuncCount, importMemoryCount := 0, 0;
    }

    method ReadTypeSection(bytes: seq<byte>, cursor: nat, count: nat) returns (ok: bool)
      modifies this
      ensures var r := ReadTypes(bytes, cursor, count);
              && ok == r.Some?
              && (ok ==> State() == old(State()).(types := old(types) + r.value.value))
    {
      hide ReadType;
      hide Pushed;
      ghost var done: seq<TypeView> := [];
      var pos := cursor;
      PushedStart(ReadTypes(bytes, cursor, count));
      for i := 0 to count
        invariant ReadTypes(bytes, cursor, count) == Pushed(done, ReadTypes(bytes, pos, count - i))
        invariant State() == old(State()).(types := old(types) + done)
      {
        PushedNone(done);
        var t := ReadFuncType(bytes, pos);
        if t.None? {
          return false;
        }
        pos := t.value.next;
        PushedStep(done, t.value.value, ReadTypes(bytes, pos, count - i - 1));
        types := types + [t.value.value];
        done := done + [t.value.value];
      }
      PushedEnd(done, pos);
      ok := true;
    }

    method ReadImportItem(bytes: seq<byte>, cursor: nat) returns (r: Option<Read<ImportView>>)
      ensures r == ReadImport(bytes, cursor, importFuncCount, importMemoryCount)
    {
      hide ReadU32;
      hide ReadName;
      hide ReadLimits;
      var moduleName := ReadNameBytes(bytes, cursor);
      if moduleName.None? {
        return None;
      }
      var fieldName := ReadNameBytes(bytes, moduleName.value.next);
      if fieldName.None? {
        return None;
      }
      var env, name, pos := moduleName.value.value, fieldName.value.value, fieldName.value.next;
      if pos >= |bytes| {
        return Some(Read(ImportView(env, name, None, importMemoryCount, None), pos + 1));
      }
      var kind := bytes[pos];
      if kind == 0 {
        var typeIndex := ReadLebU32(bytes, pos + 1);
        if typeIndex.None? {
          return None;
        }
        return Some(Read(ImportView(env, name, Some(0), importFuncCount, Some(typeIndex.value.value)),
                         typeIndex.value.next));
      }
      if kind == 2 {
        var limits := ReadLimitsMin(bytes, pos + 1);
        if limits.None? {
          return None;
        }
        return Some(Read(ImportView(env, name, Some(2), importMemoryCount, Some(limits.value.value)),
                         limits.value.next));
      }
      r := Some(Read(ImportView(env, name, Some(kind), importMemoryCount, None), pos + 1));
    }

    method ReadImportSection(bytes: seq<byte>, cursor: nat, count: nat) returns (ok: bool)
      modifies this
      ensures var r := ReadImports(bytes, cursor, count, old(importFuncCount), old(importMemoryCount));
              && ok == r.Some?
              && (ok ==> State() == WithImports(old(State()), r.value.value))
    {
      hide ReadImport;
      hide Pushed;
      hide CountImports;
      ghost var done: seq<ImportView> := [];
      ghost var all := ReadImports(bytes, cursor, count, importFuncCount, importMemoryCount);
      var pos := cursor;
      PushedStart(all);
      NoImports(State());
      for i := 0 to count
        invariant all == Pushed(done, ReadImports(bytes, pos, count - i, importFuncCount, importMemoryCount))
        invariant State() == WithImports(old(State()), done)
      {
        PushedNone(done);
        var t := ReadImportItem(bytes, pos);
        if t.None? {
          return false;
        }
        ghost var was := State();
        pos := t.value.next;
        var item := t.value.value;
        imports := imports + [item];
        if item.kind == Some(0) {
          importFuncCount := importFuncCount + 1;
        } else if item.kind == Some(2) {
          importMemoryCount := importMemoryCount + 1;
        }
        ImportPushed(old(State()), done, item);
        PushedStep(done, item, ReadImports(bytes, pos, count - i - 1, importFuncCount, importMemoryCount));
        done := done + [item];
      }
      PushedEnd(done, pos);
      ok := true;
    }

    method ReadFunctionSection(bytes: seq<byte>, cursor: nat, count: nat) returns (ok: bool)
      modifies this
      ensures var r := ReadIndices(bytes, cursor, count);
              && ok == r.Some?
              && (ok ==> State() == old(State()).(functionTypes := old(functionTypes) + r.value.value))
    {
      hide ReadU32;
      hide Pushed;
      ghost var done: seq<nat> := [];
      var pos := cursor;
      PushedStart(ReadIndices(bytes, cursor, count));
      for i := 0 to count
        invariant ReadIndices(bytes, cursor, count) == Pushed(done, ReadIndices(bytes, pos, count - i))
        invariant State() == old(State()).(functionTypes := old(functionTypes) + done)
      {
        PushedNone(done);
        var t := ReadLebU32(bytes, pos);
        if t.None? {
          return false;
        }
        pos := t.value.next;
        PushedStep<nat>(done, t.value.value, ReadIndices(bytes, pos, count - i - 1));
        functionTypes := functionTypes + [t.value.value];
        done := done + [t.value.value];
      }
      PushedEnd(done, pos);
      ok := true;
    }

    method ReadExportSection(bytes: seq<byte>, cursor: nat, count: nat) returns (ok: bool)
      modifies this
      ensures var r := ReadExports(bytes, cursor, count);
              && ok == r.Some?
              && (ok ==> State() == old(State()).(exports := old(exports) + r.value.value))
    {
      hide ReadExport;
      hide Pushed;
      ghost var done: seq<ExportView> := [];
      var pos := cursor;
      PushedStart(ReadExports(bytes, cursor, count));
      for i := 0 to count
        invariant ReadExports(bytes, cursor, count) == Pushed(done, ReadExports(bytes, pos, count - i))
        invariant State() == old(State()).(exports := old(exports) + done)
      {
        PushedNone(done);
        var t := ReadOneExport(bytes, pos);
        if t.None? {
          return false;
        }
        pos := t.value.next;
        PushedStep(done, t.value.value, ReadExports(bytes, pos, count - i - 1));
        exports := exports + [t.value.value];
        done := done + [t.value.value];
      }
      PushedEnd(done, pos);
      ok := true;
    }

    method ReadCodeSection(bytes: seq<byte>, cursor: nat, count: nat) returns (ok: bool)
      modifies this
      ensures var r := ReadBodies(bytes, cursor, count);
              && ok == r.Some?
              && (ok ==> State() == old(State()).(codes := old(codes) + r.value.value))
    {
      hide ReadBody;
      hide Pushed;
      ghost var done: seq<CodeView> := [];
      var pos := cursor;
      PushedStart(ReadBodies(bytes, cursor, count));
      for i := 0 to count
        invariant ReadBodies(bytes, cursor, count) == Pushed(done, ReadBodies(bytes, pos, count - i))
        invariant State() == old(State()).(codes := old(codes) + done)
      {
        PushedNone(done);
        var t := ReadOneBody(bytes, pos);
        if t.None? {
          return false;
        }
        pos := t.value.next;
        PushedStep(done, t.value.value, ReadBodies(bytes, pos, count - i - 1));
        codes := codes + [t.value.value];
        done := done + [t.value.value];
      }
      PushedEnd(done, pos);
      ok := true;
    }

    /** One section's payload. */
    method ReadPayload(bytes: seq<byte>, id: byte, pos: nat) returns (ok: bool)
      modifies this
      ensures var r := ReadSection(bytes, id, pos, old(State()));
              && ok == r.Some?
              && (ok ==> State() == r.value)
    {
      hide ReadU32;
      hide ReadTypes;
      hide ReadImports;
      hide ReadIndices;
      hide ReadExports;
      hide ReadBodies;
      if id != 1 && id != 2 && id != 3 && id != 7 && id != 10 {
        return true;
      }
      var count := ReadLebU32(bytes, pos);
      if count.None? {
        return false;
      }
      if id == 1 {
        ok := ReadTypeSection(bytes, count.value.next, count.value.value);
      } else if id == 2 {
        ok := ReadImportSection(bytes, count.value.next, count.value.value);
      } else if id == 3 {
        ok := ReadFunctionSection(bytes, count.value.next, count.value.value);
      } else if id == 7 {
        ok := ReadExportSection(bytes, count.value.next, count.value.value);
      } else {
        ok := ReadCodeSection(bytes, count.value.next, count.value.value);
      }
    }
  }

  function WithImports(v: View, items: seq<ImportView>): View {
    v.(imports := v.imports + items,
    importFuncs := v.importFuncs + CountImports(items, 0),
    importMemories := v.importMemories + CountImports(items, 2))
  }

  lemma NoImports(v: View)
    ensures WithImports(v, []) == v
  {
    assert v.imports + [] == v.imports;
  }

  lemma {:induction false} CountSnoc(items: seq<ImportView>, item: ImportView, k: byte)
    ensures CountImports(items + [item], k) == CountImports(items, k) + CountKind(item.kind, k)
  {
    if items == [] {
      assert items + [item] == [item] && [item][1..] == [];
    } else {
      assert (items + [item])[0] == items[0] && (items + [item])[1..] == items[1..] + [item];
      CountSnoc(items[1..], item, k);
    }
  }

  lemma ImportPushed(v: View, done: seq<ImportView>, item: ImportView)
    ensures var w := WithImports(v, done);
            WithImports(v, done + [item]) == w.(imports := w.imports + [item],
                                                importFuncs := w.importFuncs + CountKind(item.kind, 0),
                                                importMemories := w.importMemories + CountKind(item.kind, 2))
  {
    hide CountImports;
    hide CountKind;
    CountSnoc(done, item, 0);
    CountSnoc(done, item, 2);
    assert v.imports + (done + [item]) == v.imports + done + [item];
  }

  /** `ylcParseWasm`; nothing where the viewer throws. */
  method ParseWasm(bytes: seq<byte>) returns (r: Option<View>)
    ensures r == ParseModule(bytes)
  {
    hide ReadU32;
    hide ReadSection;
    if |bytes| < 8 || bytes[..4] != MAGIC[..4] {
      return None;
    }
    var m := new ModuleView();
    var pos := 8;
    while pos < |bytes|
      invariant ParseModule(bytes) == ReadSections(bytes, pos, m.State())
      decreases |bytes| - pos
    {
      var id := bytes[pos];
      var size := ReadLebU32(bytes, pos + 1);
      if size.None? {
        return None;
      }
      var end := size.value.next + size.value.value;
      if end > |bytes| {
        return None;
      }
      var ok := m.ReadPayload(bytes, id, size.value.next);
      if !ok {
        return None;
      }
      pos := end;
    }
    r := Some(m.State());
  }
}
