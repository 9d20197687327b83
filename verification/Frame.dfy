/** The frame header codec of src/ws/frame.rs (section 5.2 of RFC 6455). */
module Frame {
  import opened Bytes

  const MAX_HEADER_LEN := 14
  const MAX_CONTROL_PAYLOAD := 125
  const TWO_63 := 0x8000_0000_0000_0000

  datatype OpCode = Continuation | Text | Binary | Close | Ping | Pong {
    predicate IsControl() { Close? || Ping? || Pong? }

    function Bits(): (v: byte) {
      match this
      case Continuation => 0
      case Text => 1
      case Binary => 2
      case Close => 8
      case Ping => 9
      case Pong => 10
    }
  }

  function OpCodeFrom(v: byte): (r: Option<OpCode>)
    ensures forall op: OpCode :: r == Some(op) <==> op.Bits() == v
  {
    match v
    case 0 => Some(Continuation)
    case 1 => Some(Text)
    case 2 => Some(Binary)
    case 8 => Some(Close)
    case 9 => Some(Ping)
    case 10 => Some(Pong)
    case _ => None
  }

  type Key = k: bytes | |k| == 4 witness [0, 0, 0, 0]

  datatype FrameHeader = FrameHeader(fin: bool, opcode: OpCode, mask: Option<Key>, len: nat)

  datatype FrameError =
    | RsvBitsSet
    | InvalidOpCode(v: byte)
    | ControlFrameFragmented
    | ControlFrameTooLarge
    | PayloadTooLarge
    | NonMinimalPayloadLength
    | ServerSentMaskedFrame

  datatype HeaderResult = Incomplete | Bad(error: FrameError) | Header(h: FrameHeader, size: nat)

  datatype LengthResult = LenIncomplete | LenBad(error: FrameError) | Len(value: nat, fieldSize: nat)

  /** The payload length announced by the second byte and the extension after it. */
  function ParseLength(buf: bytes): (r: LengthResult)
    requires |buf| >= 2
  {
    var len7 := buf[1] % 128;
    if len7 <= 125 then Len(len7, 0)
    else if len7 == 126 then
      if |buf| < 4 then LenIncomplete
      else
        var val := FromBE(buf[2..4]);
        if val < 126 then LenBad(NonMinimalPayloadLength) else Len(val, 2)
    else if |buf| < 10 then LenIncomplete
    else
      var val := FromBE(buf[2..10]);
      if val >= TWO_63 then LenBad(PayloadTooLarge)
      else if val <= 0xFFFF then LenBad(NonMinimalPayloadLength)
      else Len(val, 8)
  }

  function ParseHeader(buf: bytes): (r: HeaderResult)
    ensures r.Header? ==> 2 <= r.size <= |buf|
  {
    if |buf| < 2 then Incomplete
    else
      var b0, b1 := buf[0], buf[1];
      var fin := b0 >= 128;
      if (b0 / 16) % 8 != 0 then Bad(RsvBitsSet)
      else
        match OpCodeFrom(b0 % 16)
        case None => Bad(InvalidOpCode(b0 % 16))
        case Some(opcode) =>
          match ParseLength(buf)
          case LenIncomplete => Incomplete
          case LenBad(e) => Bad(e)
          case Len(len, fieldSize) =>
            if opcode.IsControl() && !fin then Bad(ControlFrameFragmented)
            else if opcode.IsControl() && len > MAX_CONTROL_PAYLOAD then Bad(ControlFrameTooLarge)
            else
              var off := 2 + fieldSize;
              if b1 < 128 then Header(FrameHeader(fin, opcode, None, len), off)
              else if |buf| < off + 4 then Incomplete
              else Header(FrameHeader(fin, opcode, Some(buf[off..off + 4]), len), off + 4)
  }

  /** Headers that have an encoding: 63-bit length, control frames whole and small. */
  predicate Encodable(h: FrameHeader) {
    && h.len < TWO_63
    && (h.opcode.IsControl() ==> h.fin && h.len <= MAX_CONTROL_PAYLOAD)
  }

  ghost function LengthBytes(maskBit: byte, len: nat): (s: bytes)
    requires maskBit == 0 || maskBit == 128
    requires len < TWO_63
  {
    Pow256Values();
    if len <= 125 then [maskBit + len]
    else if len <= 0xFFFF then [maskBit + 126] + ToBE(len, 2)
    else [maskBit + 127] + ToBE(len, 8)
  }

  function FirstByte(fin: bool, opcode: OpCode): (b: byte) {
    opcode.Bits() + if fin then 128 else 0
  }

  function MaskBit(mask: Option<Key>): (b: byte) {
    if mask.Some? then 128 else 0
  }

  function KeyBytes(mask: Option<Key>): (s: bytes) {
    if mask.Some? then mask.value else []
  }

  /** The bytes that encode a header. */
  ghost function HeaderBytes(h: FrameHeader): (s: bytes)
    requires h.len < TWO_63
  {
    [FirstByte(h.fin, h.opcode)] + LengthBytes(MaskBit(h.mask), h.len) + KeyBytes(h.mask)
  }

  /** encode_header: writes the header at the front of dst and touches nothing else. */
  method EncodeHeader(dst: array<byte>, fin: bool, opcode: OpCode, mask: Option<Key>, len: nat) returns (n: nat)
    requires dst.Length >= MAX_HEADER_LEN
    requires len < TWO_63
    modifies dst
    ensures n <= MAX_HEADER_LEN
    ensures dst[..n] == HeaderBytes(FrameHeader(fin, opcode, mask, len))
    ensures forall i :: n <= i < dst.Length ==> dst[i] == old(dst[i])
  {
    dst[0] := FirstByte(fin, opcode);
    n := WriteLength(dst, MaskBit(mask), len);
    ghost var front := dst[..n];
    assert front == [FirstByte(fin, opcode)] + dst[1..n];
    if mask.Some? {
      CopyIn(dst, n, mask.value);
      assert dst[..n + 4] == front + mask.value;
      n := n + 4;
    } else {
      assert front == front + KeyBytes(mask);
    }
  }

  method WriteLength(dst: array<byte>, maskBit: byte, len: nat) returns (n: nat)
    requires dst.Length >= MAX_HEADER_LEN
    requires maskBit == 0 || maskBit == 128
    requires len < TWO_63
    modifies dst
    ensures 2 <= n <= 10
    ensures dst[0] == old(dst[0])
    ensures dst[1..n] == LengthBytes(maskBit, len)
    ensures forall i :: n <= i < dst.Length ==> dst[i] == old(dst[i])
  {
    Pow256Values();
    if len <= 125 {
      dst[1] := maskBit + len;
      n := 2;
    } else if len <= 0xFFFF {
      dst[1] := maskBit + 126;
      var field := WriteBE(len, 2);
      CopyIn(dst, 2, field);
      n := 4;
    } else {
      dst[1] := maskBit + 127;
      var field := WriteBE(len, 8);
      CopyIn(dst, 2, field);
      n := 10;
    }
    assert dst[1..n] == [dst[1]] + dst[2..n];
  }

  method CopyIn(dst: array<byte>, at: nat, src: bytes)
    requires at + |src| <= dst.Length
    modifies dst
    ensures dst[at..at + |src|] == src
    ensures forall i :: 0 <= i < at || at + |src| <= i < dst.Length ==> dst[i] == old(dst[i])
  {
    forall i | 0 <= i < |src| {
      dst[at + i] := src[i];
    }
  }

  // ---- the codec is a bijection -------------------------------------------------

  lemma LengthFieldParsed(buf: bytes, maskBit: byte, len: nat)
    requires maskBit == 0 || maskBit == 128
    requires len < TWO_63 && |buf| >= 2
    requires LengthBytes(maskBit, len) <= buf[1..]
    ensures ParseLength(buf) == Len(len, |LengthBytes(maskBit, len)| - 1)
  {
    var lb := LengthBytes(maskBit, len);
    assert buf[1] == buf[1..][0] == lb[0];
    if 125 < len <= 0xFFFF {
      assert buf[2..4] == lb[1..];
    } else if len > 0xFFFF {
      assert buf[2..10] == lb[1..];
    }
  }

  lemma LengthFieldEncoded(buf: bytes)
    requires |buf| >= 2 && ParseLength(buf).Len?
    ensures var Len(len, field) := ParseLength(buf);
            && 2 + field <= |buf|
            && len < TWO_63
            && LengthBytes(if buf[1] < 128 then 0 else 128, len) == buf[1..2 + field]
  {
    var Len(len, field) := ParseLength(buf);
    var bit: byte := if buf[1] < 128 then 0 else 128;
    assert buf[1] == bit + buf[1] % 128;
    if field == 0 {
      assert buf[1..2] == [buf[1]];
    } else if field == 2 {
      Pow256Values();
      FromBEInjective(buf[2..4], ToBE(len, 2));
      assert buf[1..4] == [buf[1]] + buf[2..4];
    } else {
      Pow256Values();
      FromBEInjective(buf[2..10], ToBE(len, 8));
      assert buf[1..10] == [buf[1]] + buf[2..10];
    }
  }

  lemma FirstByteEncoded(b0: byte, opcode: OpCode)
    requires (b0 / 16) % 8 == 0 && OpCodeFrom(b0 % 16) == Some(opcode)
    ensures b0 == FirstByte(b0 >= 128, opcode)
  {
  }

  lemma FirstByteFields(fin: bool, opcode: OpCode)
    ensures var b0 := FirstByte(fin, opcode);
            OpCodeFrom(b0 % 16) == Some(opcode) && (b0 / 16) % 8 == 0 && (b0 >= 128 <==> fin)
  {
    var b0 := FirstByte(fin, opcode);
    assert b0 % 16 == opcode.Bits();
  }

  lemma ParseParts(buf: bytes, h: FrameHeader, field: nat)
    requires Encodable(h) && |buf| >= 2
    requires buf[0] == FirstByte(h.fin, h.opcode)
    requires buf[1] >= 128 <==> h.mask.Some?
    requires ParseLength(buf) == Len(h.len, field)
    requires h.mask.Some? ==> h.mask.value <= buf[2 + field..]
    ensures ParseHeader(buf) == Header(h, 2 + field + if h.mask.Some? then 4 else 0)
  {
    hide FirstByte, OpCodeFrom;
    FirstByteFields(h.fin, h.opcode);
    if h.mask.Some? {
      assert |buf| >= 2 + field + 4;
      assert buf[2 + field..2 + field + 4] == h.mask.value;
    }
  }

  /** The six opcodes of section 5.2 of RFC 6455. */
  function CodeOf(opcode: OpCode): (code: byte) {
    if opcode == Continuation then 0x0
    else if opcode == Text then 0x1
    else if opcode == Binary then 0x2
    else if opcode == Close then 0x8
    else if opcode == Ping then 0x9
    else 0xA
  }

  /** How many bytes extend the 7-bit length. */
  function FieldSize(len: nat): (n: nat) {
    if len <= 125 then 0 else if len <= 65535 then 2 else 8
  }

  lemma LengthLayout(bit: byte, len: nat)
    requires bit == 0 || bit == 128
    requires len < 0x8000_0000_0000_0000
    ensures var lb, n := LengthBytes(bit, len), FieldSize(len);
            && |lb| == 1 + n
            && lb[0] == bit + (if len <= 125 then len else if len <= 65535 then 126 else 127)
            && (n > 0 ==> Spells(lb[1..], len, n))
  {
    hide ToBE, Spells, Pow256;
    Pow256Values();
    if 125 < len {
      BEDigits(len, FieldSize(len));
      assert LengthBytes(bit, len)[1..] == ToBE(len, FieldSize(len));
    }
  }

  /** The layout of section 5.2 of RFC 6455, byte by byte. */
  lemma HeaderLayout(h: FrameHeader)
    requires h.len < 0x8000_0000_0000_0000
    ensures var b, n := HeaderBytes(h), FieldSize(h.len);
            && |b| == 2 + n + (if h.mask.Some? then 4 else 0)
            && b[0] == CodeOf(h.opcode) + (if h.fin then 0x80 else 0)
            && b[1] == (if h.mask.Some? then 0x80 else 0)
                       + (if h.len <= 125 then h.len else if h.len <= 65535 then 126 else 127)
            && (n > 0 ==> Spells(b[2..2 + n], h.len, n))
            && (h.mask.Some? ==> b[2 + n..] == h.mask.value)
  {
    hide LengthBytes, Spells, FieldSize;
    LengthLayout(MaskBit(h.mask), h.len);
    var lb, n := LengthBytes(MaskBit(h.mask), h.len), FieldSize(h.len);
    var b := HeaderBytes(h);
    assert b[2..2 + n] == lb[1..];
    if h.mask.Some? {
      assert b[2 + n..] == h.mask.value;
    }
  }

  /** Parsing an encoded header, whatever follows it, gives it back with its exact size. */
  lemma ParseEncoded(h: FrameHeader, rest: bytes)
    requires Encodable(h)
    ensures ParseHeader(HeaderBytes(h) + rest) == Header(h, |HeaderBytes(h)|)
  {
    var b0, bit, key := FirstByte(h.fin, h.opcode), MaskBit(h.mask), KeyBytes(h.mask);
    var lb := LengthBytes(bit, h.len);
    var buf := HeaderBytes(h) + rest;
    assert buf == [b0] + (lb + (key + rest));
    assert buf[1..] == lb + (key + rest);
    LengthFieldParsed(buf, bit, h.len);
    assert buf[1 + |lb|..] == key + rest;
    assert buf[1] == lb[0];
    ParseParts(buf, h, |lb| - 1);
  }

  /** Re-encoding a parsed header gives back exactly the bytes it consumed. */
  lemma EncodeParsed(buf: bytes)
    requires ParseHeader(buf).Header?
    ensures Encodable(ParseHeader(buf).h)
    ensures HeaderBytes(ParseHeader(buf).h) == buf[..ParseHeader(buf).size]
  {
    var r := ParseHeader(buf);
    LengthFieldEncoded(buf);
    var field := ParseLength(buf).fieldSize;
    FirstByteEncoded(buf[0], r.h.opcode);
    assert LengthBytes(MaskBit(r.h.mask), r.h.len) == buf[1..2 + field];
    assert buf[..r.size] == [buf[0]] + buf[1..2 + field] + buf[2 + field..r.size];
  }

  /** A verdict, once reached, does not change when more bytes arrive. */
  lemma VerdictStable(buf: bytes, more: bytes)
    requires !ParseHeader(buf).Incomplete?
    ensures ParseHeader(buf + more) == ParseHeader(buf)
  {
    var all := buf + more;
    assert all[0] == buf[0] && all[1] == buf[1];
    if |buf| >= 4 { assert all[2..4] == buf[2..4]; }
    if |buf| >= 10 { assert all[2..10] == buf[2..10]; }
    if !ParseLength(buf).LenIncomplete? {
      assert ParseLength(all) == ParseLength(buf);
    }
    if ParseHeader(buf).Header? && ParseHeader(buf).h.mask.Some? {
      var off := ParseHeader(buf).size - 4;
      assert all[off..off + 4] == buf[off..off + 4];
    }
  }

  /** A strict prefix of an encoded header is neither accepted nor rejected. */
  lemma StrictPrefixIncomplete(h: FrameHeader, k: nat)
    requires Encodable(h) && k < |HeaderBytes(h)|
    ensures ParseHeader(HeaderBytes(h)[..k]) == Incomplete
  {
    var s := HeaderBytes(h);
    ParseEncoded(h, []);
    assert s + [] == s == s[..k] + s[k..];
    if !ParseHeader(s[..k]).Incomplete? {
      VerdictStable(s[..k], s[k..]);
    }
  }

  // ---- the header as a client reads it ----------------------------------------

  /** header_size_from_byte1: the full header size that the second byte announces. */
  function HeaderSize(b1: byte): (n: nat)
    ensures 2 <= n <= MAX_HEADER_LEN
  {
    var len7 := b1 % 128;
    2 + (if len7 <= 125 then 0 else if len7 == 126 then 2 else 8) + if b1 >= 128 then 4 else 0
  }

  /** The verdict on a server frame once its whole header is present. */
  function ServerHeader(buf: bytes): (r: HeaderResult)
    ensures r.Header? ==> 2 <= r.size <= |buf| && r.h.mask.None?
  {
    if |buf| < 2 || |buf| < HeaderSize(buf[1]) then Incomplete
    else
      match ParseHeader(buf[..HeaderSize(buf[1])])
      case Header(h, size) => if h.mask.Some? then Bad(ServerSentMaskedFrame) else Header(h, size)
      case Bad(e) => Bad(e)
      case Incomplete => Incomplete
  }

  /** A header not yet complete that no continuation can save. */
  predicate DoomedHeader(buf: bytes) {
    |buf| >= 2 && ServerHeader(buf).Incomplete? && (buf[1] >= 128 || ParseHeader(buf).Bad?)
  }

  lemma WholeHeaderDecided(buf: bytes)
    requires |buf| >= 2 && |buf| >= HeaderSize(buf[1])
    ensures !ServerHeader(buf).Incomplete? && !ParseHeader(buf[..HeaderSize(buf[1])]).Incomplete?
    ensures ServerHeader(buf).Header? ==> ServerHeader(buf).size == HeaderSize(buf[1])
  {
  }

  /** parse_header and the incremental parser agree once either accepts an unmasked header. */
  lemma ServerHeaderAgrees(buf: bytes)
    ensures ServerHeader(buf).Header? <==> ParseHeader(buf).Header? && ParseHeader(buf).h.mask.None?
    ensures ServerHeader(buf).Header? ==> ServerHeader(buf) == ParseHeader(buf)
    ensures ParseHeader(buf).Bad? || (ParseHeader(buf).Header? && ParseHeader(buf).h.mask.Some?) ==>
              ServerHeader(buf).Bad? || DoomedHeader(buf)
    ensures ServerHeader(buf).Bad? ==> !ParseHeader(buf).Incomplete?
  {
    if |buf| >= 2 {
      var n := HeaderSize(buf[1]);
      if |buf| >= n {
        WholeHeaderDecided(buf);
        VerdictStable(buf[..n], buf[n..]);
        assert buf[..n] + buf[n..] == buf;
      }
    }
  }

  lemma ServerVerdictStable(buf: bytes, more: bytes)
    ensures !ServerHeader(buf).Incomplete? ==> ServerHeader(buf + more) == ServerHeader(buf)
    ensures DoomedHeader(buf) ==> DoomedHeader(buf + more) || ServerHeader(buf + more).Bad?
  {
    var all := buf + more;
    if |buf| >= 2 {
      assert all[0] == buf[0] && all[1] == buf[1];
      var n := HeaderSize(buf[1]);
      if |buf| >= n {
        assert all[..n] == buf[..n];
        WholeHeaderDecided(buf);
      } else if DoomedHeader(buf) {
        if ParseHeader(buf).Bad? { VerdictStable(buf, more); }
        ServerHeaderAgrees(all);
      }
    }
  }
}
