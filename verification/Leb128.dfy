/** LEB128 integers: the writers of the code generator and the readers of the module viewer.

    The functions here are the byte sequences the writers produce and the results the
    readers compute; `WasmBuffer` and `JsReader` hold the loops and tie them to these functions. */
module Leb128 {
  import opened Wrappers
  import opened Bits

  type u32 = x: int | 0 <= x < 0x1_0000_0000
  type u64 = x: int | 0 <= x < 0x1_0000_0000_0000_0000
  type s32 = x: int | -0x8000_0000 <= x < 0x8000_0000
  type s64 = x: int | -0x8000_0000_0000_0000 <= x < 0x8000_0000_0000_0000

  /** What a reader returns: the value and the position after it. */
  datatype Read<+T> = Read(value: T, next: nat)

  /** The signed value of a 32-bit pattern (`x | 0` in JavaScript). */
  function Signed32(x: u32): (r: s32)
    ensures r % 0x1_0000_0000 == x
  {
    if x < 0x8000_0000 then x else x - 0x1_0000_0000
  }

  // ---- Bytes written ---------------------------------------------------------

  /** Bytes of an unsigned number. */
  function EncodeU(v: nat): (bytes: seq<byte>)
    ensures |bytes| >= 1
  {
    if v < 128 then [v] else [v % 128 + 128] + EncodeU(v / 128)
  }

  /** The byte at which a signed number ends: what is left is only copies of its sign bit. */
  predicate LastSignedByte(v: int)
  {
    (v / 128 == 0 && v % 128 < 64) || (v / 128 == -1 && v % 128 >= 64)
  }

  /** Bytes of a signed number; `/` and `%` by 128 are the arithmetic shift and the mask. */
  function EncodeS(v: int): (bytes: seq<byte>)
    ensures |bytes| >= 1
    decreases if v < 0 then -v else v
  {
    if LastSignedByte(v) then [v % 128] else [v % 128 + 128] + EncodeS(v / 128)
  }

  // ---- Values read by the module viewer ----------------------------------------

  /** `|` of two 32-bit patterns. */
  function Or32(a: u32, b: u32): (r: u32)
    ensures r == Or(a, b)
  {
    Pow2Values();
    OrBound(a, b, 32);
    Or(a, b)
  }

  /** Reader of unsigned numbers: 32-bit `|=` and `<<` whose count wraps at 32. */
  function ReadU32From(bytes: seq<byte>, pos: nat, value: u32, shift: nat): (r: Option<Read<u32>>)
    ensures r.Some? ==> pos < r.value.next <= |bytes|
    decreases |bytes| - pos
  {
    if pos >= |bytes| then None
    else
      var acc := Or32(value, Shl32(bytes[pos] % 128, shift));
      if bytes[pos] < 128 then Some(Read(acc, pos + 1))
      else ReadU32From(bytes, pos + 1, acc, shift + 7)
  }

  /** Reader of signed 32-bit numbers; `value` is the 32-bit pattern. */
  function ReadS32From(bytes: seq<byte>, pos: nat, value: u32, shift: nat): (r: Option<Read<u32>>)
    ensures r.Some? ==> pos < r.value.next <= |bytes|
    decreases |bytes| - pos
  {
    if pos >= |bytes| then None
    else
      var acc := Or32(value, Shl32(bytes[pos] % 128, shift));
      if bytes[pos] < 128 then
        Some(Read(if shift + 7 < 32 && bytes[pos] % 128 >= 64
                  then Or32(acc, Shl32(0xffff_ffff, shift + 7)) else acc,
                  pos + 1))
      else ReadS32From(bytes, pos + 1, acc, shift + 7)
  }

  /** `a | (-1n << s)` on unbounded integers, for `a` not negative. */
  function SignFill(a: nat, s: nat): int
  {
    a % Pow2(s) - Pow2(s)
  }

  /** Reader of signed 64-bit numbers: unbounded integers, no truncation. */
  function ReadS64From(bytes: seq<byte>, pos: nat, value: nat, shift: nat): (r: Option<Read<int>>)
    ensures r.Some? ==> pos < r.value.next <= |bytes|
    decreases |bytes| - pos
  {
    if pos >= |bytes| then None
    else
      var acc := Or(value, (bytes[pos] % 128) * Pow2(shift));
      if bytes[pos] < 128 then
        Some(Read(if shift + 7 < 64 && bytes[pos] % 128 >= 64 then SignFill(acc, shift + 7) else acc, pos + 1))
      else ReadS64From(bytes, pos + 1, acc, shift + 7)
  }

  /** `ylcReadLebU32`, `ylcReadLebI32` and `ylcReadLebI64` as functions. */
  function ReadU32(bytes: seq<byte>, pos: nat): (r: Option<Read<u32>>)
    ensures r.Some? ==> pos < r.value.next <= |bytes|
  {
    ReadU32From(bytes, pos, 0, 0)
  }

  function ReadS32(bytes: seq<byte>, pos: nat): (r: Option<Read<s32>>)
    ensures r.Some? ==> pos < r.value.next <= |bytes|
  {
    match ReadS32From(bytes, pos, 0, 0)
    case None => None
    case Some(Read(value, next)) => Some(Read(Signed32(value), next))
  }

  function ReadS64(bytes: seq<byte>, pos: nat): (r: Option<Read<int>>)
    ensures r.Some? ==> pos < r.value.next <= |bytes|
  {
    ReadS64From(bytes, pos, 0, 0)
  }

  /** The format itself: the value of a signed number of `n` bits, section 5.2.2 of the
      WebAssembly Core Specification 1.0; `None` for bytes outside the grammar. */
  function SpecS(n: nat, bytes: seq<byte>, pos: nat): (r: Option<Read<int>>)
    requires n >= 1
    decreases |bytes| - pos
  {
    if pos >= |bytes| then None
    else
      var b := bytes[pos];
      if b < 64 then (if b < Pow2(n - 1) then Some(Read(b, pos + 1)) else None)
      else if b < 128 then (if b >= 128 - Pow2(n - 1) then Some(Read(b - 128, pos + 1)) else None)
      else if n > 7 then
        match SpecS(n - 7, bytes, pos + 1)
        case None => None
        case Some(Read(m, next)) => Some(Read(128 * m + (b - 128), next))
      else None
  }

  /** `part` stands at position `pos` of `bytes`. */
  predicate At(bytes: seq<byte>, pos: nat, part: seq<byte>)
  {
    pos + |part| <= |bytes| && bytes[pos..pos + |part|] == part
  }

  lemma AtSplit(bytes: seq<byte>, pos: nat, a: seq<byte>, b: seq<byte>)
    requires At(bytes, pos, a + b)
    ensures At(bytes, pos, a) && At(bytes, pos + |a|, b)
  {
    var w := bytes[pos..pos + |a + b|];
    assert w == a + b;
    assert bytes[pos..pos + |a|] == w[..|a|] == a;
    assert bytes[pos + |a|..pos + |a| + |b|] == w[|a|..] == b;
  }

  lemma AtByte(bytes: seq<byte>, pos: nat, b: byte, rest: seq<byte>)
    requires At(bytes, pos, [b] + rest)
    ensures pos < |bytes| && bytes[pos] == b && At(bytes, pos + 1, rest)
  {
    AtSplit(bytes, pos, [b], rest);
    assert bytes[pos..pos + 1][0] == b;
  }

  // ---- Round trips -------------------------------------------------------------

  /** One base-128 digit moved from the tail `v` to the part already read, `p` being the digit's weight. */
  lemma DigitStep(v: int, value: int, p: int)
    requires 0 <= value < p
    ensures 0 <= (v % 128) * p <= 127 * p
    ensures 0 <= value + (v % 128) * p < 128 * p
    ensures value + v * p == (value + (v % 128) * p) + (v / 128) * (128 * p)
  {
    var q, r := v / 128, v % 128;
    assert v == q * 128 + r;
    Distribute(q * 128, r, p);
    assert (q * 128) * p == q * (128 * p);
    MulBounds(r, 127, p);
  }

  lemma Distribute(a: int, b: int, p: int)
    ensures (a + b) * p == a * p + b * p
  {
  }

  lemma MulBounds(a: int, b: int, p: int)
    requires 0 <= a <= b && 0 <= p
    ensures 0 <= a * p <= b * p
  {
    assert (b - a) * p >= 0;
    Distribute(b - a, a, p);
  }

  /** The number whose bits below `shift` are `value` and whose arithmetic shift by `shift` is `v`. */
  function Whole(v: int, value: nat, shift: nat): int
  {
    value + v * Pow2(shift)
  }

  /** The part already read, with the low digit of `v` put in front of it. */
  function Digit(v: int, value: nat, shift: nat): (r: nat) {
    DigitStep(v, 0, Pow2(shift));
    value + (v % 128) * Pow2(shift)
  }

  lemma {:induction false} ReadU32Step(bytes: seq<byte>, pos: nat, v: nat, value: u32, shift: nat)
    requires At(bytes, pos, EncodeU(v))
    requires shift < 32 && value < Pow2(shift) && Whole(v, value, shift) < 0x1_0000_0000
    ensures Whole(v, value, shift) >= 0
    ensures ReadU32From(bytes, pos, value, shift) == Some(Read(Whole(v, value, shift), pos + |EncodeU(v)|))
    decreases v
  {
    hide Pow2;
    hide Or;
    hide Shl32;
    hide Whole;
    hide Digit;
    var acc := Digit(v, value, shift);
    WholeStep(v, value, shift);
    WholeAtLeast(v / 128, acc, shift + 7);
    U32Digit(v, value, shift);
    if v < 128 {
      AtByte(bytes, pos, v, []);
      WholeZero(acc, shift + 7);
    } else {
      AtByte(bytes, pos, v % 128 + 128, EncodeU(v / 128));
      if shift + 7 >= 32 {
        Pow2Monotone(32, shift + 7);
        Pow2Values();
        assert false;
      }
      ReadU32Step(bytes, pos + 1, v / 128, acc, shift + 7);
    }
  }

  lemma U32Digit(v: int, value: nat, shift: nat)
    requires shift < 32 && value < Pow2(shift) && Digit(v, value, shift) < 0x1_0000_0000
    ensures Or(value, Shl32(v % 128, shift)) == Digit(v, value, shift)
  {
    hide Pow2;
    hide Or;
    OrDisjoint(value, v % 128, shift);
    MulBounds(0, v % 128, Pow2(shift));
    assert shift % 32 == shift;
  }

  /** Every 32-bit unsigned number is read back, and reading stops right after it. */
  lemma U32RoundTrip(bytes: seq<byte>, pos: nat, v: u32)
    requires At(bytes, pos, EncodeU(v))
    ensures ReadU32(bytes, pos) == Some(Read(v, pos + |EncodeU(v)|))
  {
    assert Pow2(0) == 1;
    WholeZeroShift(v);
    ReadU32Step(bytes, pos, v, 0, 0);
  }

  lemma WholeZeroShift(v: int)
    ensures Pow2(0) == 1 && Whole(v, 0, 0) == v
  {
  }

  lemma WholeZero(value: nat, shift: nat)
    ensures Whole(0, value, shift) == value
  {
  }

  lemma WholeAtLeast(v: nat, value: nat, shift: nat)
    ensures Whole(v, value, shift) >= value
    ensures v >= 1 ==> Whole(v, value, shift) >= value + Pow2(shift)
  {
    MulBounds(0, v, Pow2(shift));
    if v >= 1 {
      MulBounds(1, v, Pow2(shift));
    }
  }

  lemma Pow2Next(shift: nat)
    ensures Pow2(shift + 7) == 128 * Pow2(shift)
  {
    Pow2Add(7, shift);
    Pow2Values();
  }

  lemma WholeStep(v: int, value: nat, shift: nat)
    requires value < Pow2(shift)
    ensures Digit(v, value, shift) < Pow2(shift + 7) == 128 * Pow2(shift)
    ensures Whole(v, value, shift) == Whole(v / 128, Digit(v, value, shift), shift + 7)
  {
    Pow2Next(shift);
    DigitStep(v, value, Pow2(shift));
  }

  lemma RangeAt(v: int, value: int, p: int)
    requires 0 <= value < p
    ensures v >= 64 ==> value + v * p >= 64 * p
    ensures v < -64 ==> value + v * p < -64 * p
    ensures v >= -64 ==> value + v * p >= -64 * p
  {
    if v >= 64 {
      MulBounds(64, v, p);
    } else if v < -64 {
      MulBounds(65, -v, p);
    } else {
      MulBounds(0, v + 64, p);
      Distribute(v, 64, p);
    }
  }

  lemma WholeRange(v: int, value: nat, shift: nat)
    requires value < Pow2(shift)
    ensures v >= 64 ==> Whole(v, value, shift) >= 64 * Pow2(shift)
    ensures v < -64 ==> Whole(v, value, shift) < -64 * Pow2(shift)
    ensures v >= -64 ==> Whole(v, value, shift) >= -64 * Pow2(shift)
  {
    RangeAt(v, value, Pow2(shift));
  }

  /** A whole number of `shift` low bits and a tail `v` written in one more byte. */
  lemma WholeLast(v: int, value: nat, shift: nat)
    requires value < Pow2(shift) && LastSignedByte(v)
    ensures Whole(v, value, shift)
            == (if v % 128 >= 64 then SignFill(Digit(v, value, shift), shift + 7) else Digit(v, value, shift))
  {
    WholeStep(v, value, shift);
    var p, acc := Pow2(shift), Digit(v, value, shift);
    assert acc % (128 * p) == acc by {
      DivModUnique(acc, 128 * p, 0, acc);
    }
  }

  /** The tenth byte holds one bit: the sign. */
  lemma TenthByte(v: int, value: nat)
    requires value < Pow2(63)
    requires -0x8000_0000_0000_0000 <= Whole(v, value, 63) < 0x8000_0000_0000_0000
    ensures v == 0 || v == -1
    ensures v == 0 ==> Whole(v, value, 63) == Digit(v, value, 63) >= 0
    ensures v == -1 ==> Whole(v, value, 63) + Pow2(70) == Digit(v, value, 63)
                        && Whole(v, value, 63) < 0
  {
    Pow2Values();
    assert Whole(v, value, 63) == value + v * 0x8000_0000_0000_0000;
  }

  lemma S64Digit(v: int, value: nat, shift: nat)
    requires value < Pow2(shift)
    ensures Or(value, (v % 128) * Pow2(shift)) == Digit(v, value, shift)
  {
    hide Pow2;
    hide Or;
    OrDisjoint(value, v % 128, shift);
  }

  lemma {:induction false} ReadS64Step(bytes: seq<byte>, pos: nat, v: int, value: nat, shift: nat)
    requires At(bytes, pos, EncodeS(v))
    requires value < Pow2(shift) && shift % 7 == 0 && shift <= 63
    requires -0x8000_0000_0000_0000 <= Whole(v, value, shift) < 0x8000_0000_0000_0000
    requires shift == 63 ==> !(-0x4000_0000_0000_0000 <= Whole(v, value, shift) < 0x4000_0000_0000_0000)
    ensures var w := Whole(v, value, shift);
            ReadS64From(bytes, pos, value, shift)
            == Some(Read(if w >= -0x4000_0000_0000_0000 then w else w + Pow2(70), pos + |EncodeS(v)|))
    decreases if v < 0 then -v else v
  {
    hide Digit;
    hide Pow2;
    hide Or;
    hide Whole;
    hide SignFill;
    var p, low, acc := Pow2(shift), v % 128, Digit(v, value, shift);
    WholeStep(v, value, shift);
    S64Digit(v, value, shift);
    Pow2Values();
    WholeRange(v, value, shift);
    if shift < 63 {
      assert shift <= 56;
      Pow2Monotone(shift, 56);
    }
    if LastSignedByte(v) {
      AtByte(bytes, pos, low, []);
      WholeLast(v, value, shift);
      if shift == 63 {
        TenthByte(v, value);
      }
    } else {
      AtByte(bytes, pos, low + 128, EncodeS(v / 128));
      if shift == 63 {
        assert false;
      }
      ReadS64Step(bytes, pos + 1, v / 128, acc, shift + 7);
    }
  }

  /** The viewer reads a 64-bit constant back exactly when it is at least -2^62: a smaller one takes
      ten bytes, and after the tenth the reader no longer extends the sign. */
  lemma S64RoundTrip(bytes: seq<byte>, pos: nat, v: s64)
    requires At(bytes, pos, EncodeS(v))
    ensures ReadS64(bytes, pos)
            == Some(Read(if v >= -0x4000_0000_0000_0000 then v else v + Pow2(70), pos + |EncodeS(v)|))
    ensures ReadS64(bytes, pos).value.value == v <==> v >= -0x4000_0000_0000_0000
  {
    hide Pow2;
    hide Or;
    hide Whole;
    hide EncodeS;
    hide ReadS64From;
    WholeZeroShift(v);
    ReadS64Step(bytes, pos, v, 0, 0);
  }

  /** The least 64-bit constant is shown as the positive number 2^70 - 2^63. */
  lemma S64Misread()
    ensures var bytes := EncodeS(-0x8000_0000_0000_0000);
            ReadS64(bytes, 0) == Some(Read(0x3f_8000_0000_0000_0000, |bytes|))
  {
    hide EncodeS;
    hide ReadS64;
    Pow2Values();
    var bytes := EncodeS(-0x8000_0000_0000_0000);
    assert bytes[0..|bytes|] == bytes;
    S64RoundTrip(bytes, 0, -0x8000_0000_0000_0000);
  }

  lemma {:induction false} ReadS32Step(bytes: seq<byte>, pos: nat, v: int, value: u32, shift: nat)
    requires At(bytes, pos, EncodeS(v))
    requires value < Pow2(shift) && shift % 7 == 0 && shift <= 28
    requires -0x8000_0000 <= Whole(v, value, shift) < 0x8000_0000
    ensures ReadS32From(bytes, pos, value, shift)
            == Some(Read(Whole(v, value, shift) % 0x1_0000_0000, pos + |EncodeS(v)|))
    decreases if v < 0 then -v else v
  {
    hide Digit;
    hide Pow2;
    hide Or;
    hide Whole;
    hide SignFill;
    hide Shl32;
    var p, low := Pow2(shift), v % 128;
    WholeStep(v, value, shift);
    Pow2Six();
    Pow2Values();
    WholeRange(v, value, shift);
    if shift < 28 {
      Pow2Monotone(shift, 21);
      U32Digit(v, value, shift);
    }
    if LastSignedByte(v) {
      AtByte(bytes, pos, low, []);
      if shift < 28 {
        WholeLast(v, value, shift);
        S32Fill(Digit(v, value, shift), shift + 7);
      } else {
        FifthByteRange(v, value);
        S32FifthByte(v, value);
      }
    } else {
      AtByte(bytes, pos, low + 128, EncodeS(v / 128));
      if shift == 28 {
        assert false;
      }
      ReadS32Step(bytes, pos + 1, v / 128, Digit(v, value, shift), shift + 7);
    }
  }

  /** `~0 << s` sets the bits from `s` up. */
  lemma ShiftedOnes(s: nat)
    requires s <= 28
    ensures Pow2(s) <= 0x1000_0000
    ensures Shl32(0xffff_ffff, s) == 0x1_0000_0000 - Pow2(s) == (Pow2(32 - s) - 1) * Pow2(s)
  {
    hide Pow2;
    Pow2Values();
    Pow2Monotone(s, 28);
    Pow2Add(32 - s, s);
    assert s % 32 == s;
    var p := Pow2(s);
    DivModUnique(0xffff_ffff * p, 0x1_0000_0000, p - 1, 0x1_0000_0000 - p);
  }

  /** Setting the bits from `s` up of a 32-bit pattern subtracts `2^s` from its signed value. */
  lemma S32Fill(a: nat, s: nat)
    requires s <= 28 && a < Pow2(s)
    ensures Or(a, Shl32(0xffff_ffff, s)) == (a - Pow2(s)) % 0x1_0000_0000
    ensures SignFill(a, s) == a - Pow2(s)
  {
    hide Pow2;
    hide Or;
    hide Shl32;
    ShiftedOnes(s);
    OrDisjoint(a, Pow2(32 - s) - 1, s);
    DivModUnique(a, Pow2(s), 0, a);
  }

  lemma FifthByteRange(v: int, value: nat)
    requires value < Pow2(28) && -0x8000_0000 <= Whole(v, value, 28) < 0x8000_0000
    ensures -8 <= v < 8
  {
    Pow2Values();
    assert Whole(v, value, 28) == value + v * 0x1000_0000;
  }

  /** The fifth byte: only its four low bits survive the shift by 28. */
  lemma S32FifthByte(v: int, value: nat)
    requires value < Pow2(28) && -8 <= v < 8
    ensures Or(value, Shl32(v % 128, 28)) == Whole(v, value, 28) % 0x1_0000_0000
  {
    hide Or;
    hide Shl32;
    hide Whole;
    hide Pow2;
    FourBits(v);
    FifthByteSum(v, value);
    OrDisjoint(value, v % 16, 28);
  }

  lemma FourBits(v: int)
    requires -8 <= v < 8
    ensures Shl32(v % 128, 28) == (v % 16) * Pow2(28)
  {
    Pow2Values();
    if v >= 0 {
      ShiftedBits(v, 0);
    } else {
      ShiftedBits(v + 16, 7);
    }
  }

  lemma ShiftedBits(low: nat, high: nat)
    requires low < 16
    ensures Shl32(low + 16 * high, 28) == low * 0x1000_0000
  {
    Pow2Values();
    assert (low + 16 * high) * 0x1000_0000 == low * 0x1000_0000 + high * 0x1_0000_0000;
  }

  lemma FifthByteSum(v: int, value: nat)
    requires value < Pow2(28) && -8 <= v < 8
    ensures value + (v % 16) * Pow2(28) == Whole(v, value, 28) % 0x1_0000_0000
  {
    Pow2Values();
    assert v % 16 == if v >= 0 then v else v + 16;
  }

  /** Every 32-bit signed number is read back, and reading stops right after it. */
  lemma S32RoundTrip(bytes: seq<byte>, pos: nat, v: s32)
    requires At(bytes, pos, EncodeS(v))
    ensures ReadS32(bytes, pos) == Some(Read(v, pos + |EncodeS(v)|))
  {
    hide Pow2;
    hide Or;
    hide Shl32;
    hide Whole;
    hide EncodeS;
    hide ReadS32From;
    WholeZeroShift(v);
    ReadS32Step(bytes, pos, v, 0, 0);
  }

  lemma Pow2Six()
    ensures Pow2(6) == 64
  {
  }

  /** Against the format's own decoder nothing is lost: a number of `n` bits decodes to itself. */
  lemma {:induction false} SpecReads(n: nat, bytes: seq<byte>, pos: nat, v: int)
    requires n >= 1 && At(bytes, pos, EncodeS(v))
    requires -Pow2(n - 1) <= v < Pow2(n - 1)
    ensures SpecS(n, bytes, pos) == Some(Read(v, pos + |EncodeS(v)|))
    decreases n
  {
    hide Pow2;
    Pow2Values();
    if LastSignedByte(v) {
      AtByte(bytes, pos, v % 128, []);
    } else {
      AtByte(bytes, pos, v % 128 + 128, EncodeS(v / 128));
      Pow2Six();
      if n <= 7 {
        Pow2Monotone(n - 1, 6);
        assert false;
      }
      Pow2Add(7, n - 8);
      SpecReads(n - 7, bytes, pos + 1, v / 128);
    }
  }

  lemma {:induction false} EncodeULength(v: nat, k: nat)
    requires k >= 1 && v < Pow2(7 * k)
    ensures |EncodeU(v)| <= k
    decreases k
  {
    if v >= 128 {
      Pow2Values();
      if k == 1 {
        assert false;
      }
      Pow2Add(7, 7 * (k - 1));
      EncodeULength(v / 128, k - 1);
    }
  }

  lemma {:induction false} EncodeSLength(v: int, k: nat)
    requires k >= 1 && -Pow2(7 * k - 1) <= v < Pow2(7 * k - 1)
    ensures |EncodeS(v)| <= k
    decreases k
  {
    if !LastSignedByte(v) {
      assert Pow2(6) == 64;
      if k == 1 {
        assert false;
      }
      Pow2Values();
      Pow2Add(7, 7 * k - 8);
      EncodeSLength(v / 128, k - 1);
    }
  }

  /** 32-bit numbers take at most five bytes and 64-bit numbers at most ten. */
  lemma EncodedLengths(u: u32, i: s32, l: s64)
    ensures |EncodeU(u)| <= 5 && |EncodeS(i)| <= 5 && |EncodeS(l)| <= 10
  {
    Pow2Values();
    Pow2Monotone(32, 34);
    Pow2Monotone(63, 69);
    EncodeULength(u, 5);
    EncodeSLength(i, 5);
    EncodeSLength(l, 10);
  }
}
