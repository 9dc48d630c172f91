/** The growing byte buffer of the code generator and its LEB128 writers. */
module WasmBuffer {
  import opened Bits
  import opened Leb128

  /** `wasm_buf_name` writes the length of a name and its bytes. */
  function EncodeName(name: seq<byte>): (bytes: seq<byte>) {
    EncodeU(|name|) + name
  }

  /** A section is its id, the length of its body and its body. */
  function EncodeSection(id: byte, body: seq<byte>): (bytes: seq<byte>) {
    [id] + EncodeU(|body|) + body
  }

  lemma EncodeUStep(done: seq<byte>, rest: nat, low: nat, next: nat)
    requires low == rest % 128 && next == rest / 128
    ensures done + EncodeU(rest)
            == if next != 0 then (done + [low + 128]) + EncodeU(next) else (done + [low]) + []
    ensures next != 0 ==> next < rest
  {
    if next != 0 {
      var more := EncodeU(next);
      EncodeUOpens(rest);
      assert done + ([low + 128] + more) == (done + [low + 128]) + more;
    }
  }

  lemma EncodeUOpens(v: nat)
    requires v / 128 != 0
    ensures EncodeU(v) == [v % 128 + 128] + EncodeU(v / 128)
  {
  }

  lemma EncodeSStep(done: seq<byte>, rest: int)
    ensures done + EncodeS(rest)
            == if LastSignedByte(rest) then (done + [rest % 128]) + []
               else (done + [rest % 128 + 128]) + EncodeS(rest / 128)
  {
  }

  class WasmBuf {
    var data: array<byte>
    var size: nat

    ghost predicate Valid()
      reads this
    {
      0 < data.Length && size <= data.Length
    }

    /** The bytes written so far. */
    ghost function Contents(): (bytes: seq<byte>)
      requires Valid()
      reads this, data
      ensures |bytes| == size
    {
      data[..size]
    }

    constructor ()
      ensures Valid() && fresh(data) && Contents() == []
    {
      data := new byte[256](_ => 0);
      size := 0;
    }

    /** `wasm_buf_push`: a full buffer is copied into one twice as large. */
    method Push(v: byte)
      requires Valid()
      modifies this, data
      ensures Valid() && (data == old(data) || fresh(data))
      ensures Contents() == old(Contents()) + [v]
    {
      if size >= data.Length {
        var was := data;
        var next := new byte[2 * was.Length](i reads was => if 0 <= i < was.Length then was[i] else 0);
        data := next;
        assert data[..size] == old(Contents());
      }
      data[size] := v;
      size := size + 1;
    }

    /** `wasm_buf_bytes` and `wasm_buf_append`. */
    method PushAll(src: seq<byte>)
      requires Valid()
      modifies this, data
      ensures Valid() && (data == old(data) || fresh(data))
      ensures Contents() == old(Contents()) + src
    {
      for i := 0 to |src|
        invariant Valid() && (data == old(data) || fresh(data))
        invariant Contents() == old(Contents()) + src[..i]
      {
        Push(src[i]);
      }
    }

    /** `wasm_buf_leb_u32` */
    method LebU32(v: u32)
      requires Valid()
      modifies this, data
      ensures Valid() && (data == old(data) || fresh(data))
      ensures Contents() == old(Contents()) + EncodeU(v)
    {
      hide EncodeU;
      var rest: nat := v;
      var more := true;
      ghost var done: seq<byte> := [];
      while more
        invariant Valid() && (data == old(data) || fresh(data))
        invariant Contents() == old(Contents()) + done
        invariant EncodeU(v) == done + if more then EncodeU(rest) else []
        decreases more, rest
      {
        var low: byte := rest % 128;
        EncodeUStep(done, rest, low, rest / 128);
        rest := rest / 128;
        more := rest != 0;
        Push(if more then low + 128 else low);
        done := done + [if more then low + 128 else low];
      }
    }

    /** `wasm_buf_leb_i32` and `wasm_buf_leb_i64`, which differ only in the width of their argument. */
    method LebS(v: int)
      requires Valid()
      modifies this, data
      ensures Valid() && (data == old(data) || fresh(data))
      ensures Contents() == old(Contents()) + EncodeS(v)
    {
      hide EncodeS;
      var rest := v;
      var more := true;
      ghost var done: seq<byte> := [];
      while more
        invariant Valid() && (data == old(data) || fresh(data))
        invariant Contents() == old(Contents()) + done
        invariant EncodeS(v) == done + if more then EncodeS(rest) else []
        decreases more, if rest < 0 then -rest else rest
      {
        EncodeSStep(done, rest);
        var low: byte := rest % 128;
        more := !LastSignedByte(rest);
        rest := rest / 128;
        Push(if more then low + 128 else low);
        done := done + [if more then low + 128 else low];
      }
    }

    /** `wasm_buf_name` */
    method Name(name: seq<byte>)
      requires Valid() && |name| < 0x1_0000_0000
      modifies this, data
      ensures Valid() && (data == old(data) || fresh(data))
      ensures Contents() == old(Contents()) + EncodeName(name)
    {
      LebU32(|name|);
      PushAll(name);
    }

    /** `wasm_buf_section`: the size is cut to 32 bits. */
    method Section(id: byte, body: seq<byte>)
      requires Valid()
      modifies this, data
      ensures Valid() && (data == old(data) || fresh(data))
      ensures Contents() == old(Contents()) + ([id] + EncodeU(|body| % 0x1_0000_0000) + body)
      ensures |body| < 0x1_0000_0000 ==> Contents() == old(Contents()) + EncodeSection(id, body)
    {
      hide EncodeU;
      Push(id);
      LebU32(|body| % 0x1_0000_0000);
      PushAll(body);
      assert old(Contents()) + [id] + EncodeU(|body| % 0x1_0000_0000) + body
          == old(Contents()) + ([id] + EncodeU(|body| % 0x1_0000_0000) + body);
    }
  }
}
