/** What the functions that MIR and WebAssembly share mean: division towards zero, bytes in memory, which instruction
    defines a value and which function a call means, and what a value is printed as. */
module MirMeaning {
  import opened Wrappers
  import opened Bits
  import opened Leb128
  import opened Mir
  import opened MirEval
  import opened Lowering

  // ---- Division ---------------------------------------------------------------------------------

  /** The quotient cut towards zero: the remainder is smaller than the divisor and has the sign of the dividend. */
  lemma CutTowardsZero(a: int, b: int)
    requires b != 0
    ensures var q, r := TruncDiv(a, b), TruncRem(a, b);
            && a == b * q + r
            && -(if b < 0 then -b else b) < r < (if b < 0 then -b else b)
            && (r > 0 ==> a > 0) && (r < 0 ==> a < 0)
  {
    var m, n := if a < 0 then -a else a, if b < 0 then -b else b;
    var q := m / n;
    QuotientSign(a, b, q);
    Remainder(m, n);
    hide TruncDiv;
    var p, nq, rest := b * TruncDiv(a, b), n * q, m % n;
    assert TruncRem(a, b) == a - p;
    hide TruncRem;
    WholeAndRest(a, n, p, nq, rest);
  }

  lemma WholeAndRest(a: int, n: int, p: int, nq: int, rest: int)
    requires (if a < 0 then -a else a) == nq + rest && 0 <= nq && 0 <= rest < n && p == if a < 0 then -nq else nq
    ensures -n < a - p < n && (a - p > 0 ==> a > 0) && (a - p < 0 ==> a < 0)
  {
  }

  lemma QuotientSign(a: int, b: int, q: int)
    requires b != 0 && q == (if a < 0 then -a else a) / (if b < 0 then -b else b)
    ensures b * TruncDiv(a, b) == if a < 0 then -((if b < 0 then -b else b) * q) else (if b < 0 then -b else b) * q
  {
    var t := TruncDiv(a, b);
    assert t == if (a < 0) == (b < 0) then q else -q;
    hide TruncDiv;
    Signs(if b < 0 then -b else b, q);
  }

  lemma Signs(n: int, q: int)
    ensures (-n) * q == -(n * q) && n * (-q) == -(n * q) && (-n) * (-q) == n * q
  {
  }

  lemma Remainder(m: nat, n: nat)
    requires n > 0
    ensures m == n * (m / n) + m % n && 0 <= m % n < n && 0 <= n * (m / n)
  {
  }

  // ---- Bytes ------------------------------------------------------------------------------------

  /** Byte `j` of a number, from the lowest one. */
  function Byte(n: nat, j: nat): nat
    decreases j
  {
    if j == 0 then n % 256 else Byte(n / 256, j - 1)
  }

  /** Numbers are kept with the lowest byte first. */
  lemma {:induction false} LowestFirst(n: nat, k: nat, j: nat)
    requires j < k
    ensures LittleEndian(n, k)[j] == Byte(n, j)
    decreases j
  {
    if j > 0 {
      LowestFirst(n / 256, k - 1, j - 1);
    }
  }

  /** A value of 32 bits takes the first four bytes of a cell and leaves the others, one of 64 bits takes all eight. */
  lemma BytesOfValue(cell: seq<byte>, v: Value)
    requires |cell| == 8
    ensures var after := WriteCell(cell, v);
            match v
            case Word(i) => after == LittleEndian(i % 0x1_0000_0000, 4) + cell[4..]
            case Long(u) => after == LittleEndian(u, 8)
            case Single(b) => after == LittleEndian(b, 4) + cell[4..]
            case Double(b) => after == LittleEndian(b, 8)
  {
    hide LittleEndian;
    assert cell[8..] == [];
  }

  /** A load or store says that its address is a multiple of the value's size, four bytes or eight. */
  lemma NaturallyAligned(c: ValType)
    ensures Pow2(AlignOf(c)) == if c == I32 || c == F32 then 4 else 8
  {
    assert Pow2(2) == 4 && Pow2(3) == 8;
  }

  // ---- Definitions and calls -----------------------------------------------------------------------

  /** The instructions of blocks are those of the first block and then of the others. */
  lemma {:induction false} BlocksInOrder(a: seq<Block>, b: seq<Block>)
    ensures InstrsOf(a + b) == InstrsOf(a) + InstrsOf(b)
    ensures a != [] ==> InstrsOf([a[0]]) == a[0].instrs
    decreases |a|
  {
    if a == [] {
      assert a + b == b;
    } else {
      assert (a + b)[0] == a[0] && (a + b)[1..] == a[1..] + b;
      BlocksInOrder(a[1..], b);
      assert [a[0]][1..] == [];
    }
  }

  /** A value is defined by the first instruction with that result. */
  predicate DefinedAt(instrs: seq<Instr>, v: ValueId, k: nat) {
    k < |instrs| && instrs[k].result == Some(v) && forall i :: 0 <= i < k ==> instrs[i].result != Some(v)
  }

  lemma {:induction false} FirstDefinition(instrs: seq<Instr>, v: ValueId)
    ensures FindDef(instrs, v).None? ==> forall i :: 0 <= i < |instrs| ==> instrs[i].result != Some(v)
    ensures FindDef(instrs, v).Some? ==>
              exists k: nat :: DefinedAt(instrs, v, k) && FindDef(instrs, v) == Some(instrs[k])
    decreases |instrs|
  {
    if instrs == [] {
    } else if instrs[0].result == Some(v) {
      assert DefinedAt(instrs, v, 0);
    } else {
      FirstDefinition(instrs[1..], v);
      if FindDef(instrs[1..], v).Some? {
        var k: nat :| DefinedAt(instrs[1..], v, k) && FindDef(instrs[1..], v) == Some(instrs[1..][k]);
        assert DefinedAt(instrs, v, k + 1);
      } else {
        forall i | 0 <= i < |instrs| ensures instrs[i].result != Some(v) {
          assert i > 0 ==> instrs[1..][i - 1] == instrs[i];
        }
      }
    }
  }

  /** A call means the function it is specialised to; else the one that its callee refers to, where that is defined; a
      builtin call means none. */
  lemma CallMeans(f: Function, a: Action, k: nat)
    requires a.Call? && !a.builtin
    ensures a.specialized.Some? ==> DirectTarget(f, a) == a.specialized
    ensures a.specialized.None? && a.callee.None? ==> DirectTarget(f, a).None?
    ensures var instrs := InstrsOf(f.blocks);
            a.specialized.None? && a.callee.Some? && DefinedAt(instrs, a.callee.value, k) ==>
              DirectTarget(f, a) == if instrs[k].action.FnRef? then instrs[k].action.fn else None
    ensures a.specialized.None? && a.callee.Some?
            && (forall i :: 0 <= i < |InstrsOf(f.blocks)| ==> InstrsOf(f.blocks)[i].result != a.callee) ==>
              DirectTarget(f, a).None?
  {
    hide InstrsOf;
    hide FindDef;
    var instrs := InstrsOf(f.blocks);
    if a.callee.Some? {
      FirstDefinition(instrs, a.callee.value);
      if FindDef(instrs, a.callee.value).Some? {
        var j: nat :| DefinedAt(instrs, a.callee.value, j) && FindDef(instrs, a.callee.value) == Some(instrs[j]);
        if DefinedAt(instrs, a.callee.value, k) {
          assert j == k;
        }
      }
    }
  }

  /** A call is bound to the entry of the function it is specialised to; without one, to the entry of the specialised
      name; without one, to that of the function its callee refers to, or to that of the name it refers to it by. */
  lemma CallResolved(m: ModuleCtx, prog: Program, f: Function, a: Action, k: nat)
    requires a.Call?
    ensures var instrs := InstrsOf(f.blocks);
            var byId := if a.specialized.Some? then LookupId(m, a.specialized.value) else None;
            var byName := if a.specializedName.Some? then LookupName(m, prog, a.specializedName.value) else None;
            var bound := CallTarget(m, prog, f, a);
            && (byId.Some? ==> bound == byId)
            && (byId.None? && byName.Some? ==> bound == byName)
            && (byId.None? && byName.None? && a.callee.None? ==> bound.None?)
            && (byId.None? && byName.None? && a.callee.Some? && DefinedAt(instrs, a.callee.value, k) ==>
                  var ref := instrs[k].action;
                  if ref.FnRef? && ref.fn.Some? then
                    bound == if LookupId(m, ref.fn.value).Some? then LookupId(m, ref.fn.value)
                             else LookupName(m, prog, ref.fnName)
                  else bound.None?)
  {
    hide InstrsOf;
    hide FindDef;
    hide LookupId;
    hide LookupName;
    var instrs := InstrsOf(f.blocks);
    if a.callee.Some? && DefinedAt(instrs, a.callee.value, k) {
      FirstDefinition(instrs, a.callee.value);
      var j: nat :| DefinedAt(instrs, a.callee.value, j) && FindDef(instrs, a.callee.value) == Some(instrs[j]);
      assert j == k;
    }
  }

  // ---- Printing --------------------------------------------------------------------------------------

  /** A value of type `String`, by kind or by name, is printed as a string at its address, any other as an integer; a
      64-bit number is cut to 32 bits. */
  lemma PrintedAs(f: Function, operand: ValueId, v: Value, w: World)
    requires operand < |f.valueTypes|
    ensures var t := f.valueTypes[operand];
            match v
            case Word(i) =>
              EvalPrint(f, operand, v, w)
              == Some(w.(trace := w.trace + [if t.kind == KString || t.alias == "String" then PrintString(i)
                                             else PrintInt(i)]))
            case Long(u) =>
              EvalPrint(f, operand, v, w)
              == if t.kind == KString || t.alias == "String" then None
                 else Some(w.(trace := w.trace + [PrintInt(Signed32(u % 0x1_0000_0000))]))
            case _ => EvalPrint(f, operand, v, w).None?
  {
  }
}
