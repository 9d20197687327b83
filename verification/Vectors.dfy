/** The example frames of section 5.7 of RFC 6455. */
module Vectors {
  import opened Bytes
  import opened Frame
  import Bits
  import Mask
  import Outbound
  import Streams

  /** "Hello" and its two parts. */
  const HELLO: bytes := [0x48, 0x65, 0x6c, 0x6c, 0x6f]
  const HEL: bytes := [0x48, 0x65, 0x6c]
  const LO: bytes := [0x6c, 0x6f]

  const KEY: Key := [0x37, 0xfa, 0x21, 0x3d]
  const MASKED_HELLO: bytes := [0x7f, 0x9f, 0x4d, 0x51, 0x58]

  lemma ShortHeader(h: FrameHeader)
    requires h.len <= 125
    ensures HeaderBytes(h)
         == [CodeOf(h.opcode) + (if h.fin then 0x80 else 0), (if h.mask.Some? then 0x80 else 0) + h.len]
            + (if h.mask.Some? then h.mask.value else [])
  {
    HeaderLayout(h);
    var b := HeaderBytes(h);
    assert b == [b[0], b[1]] + b[2..];
  }

  lemma LongHeader(h: FrameHeader, field: bytes)
    requires 125 < h.len < 0x8000_0000_0000_0000 && h.mask.None?
    requires Spells(field, h.len, FieldSize(h.len))
    ensures HeaderBytes(h)
         == [CodeOf(h.opcode) + (if h.fin then 0x80 else 0), if h.len <= 65535 then 126 else 127] + field
  {
    HeaderLayout(h);
    var b, n := HeaderBytes(h), FieldSize(h.len);
    assert b[2..2 + n] == field by {
      forall i | 0 <= i < n
        ensures b[2..2 + n][i] == field[i]
      {
      }
    }
    assert b == [b[0], b[1]] + b[2..2 + n];
  }

  /** Single and fragmented unmasked text, and an unmasked ping. */
  lemma UnmaskedExamples()
    ensures Streams.Sent(true, Text, HELLO).Encoded() == [0x81, 0x05, 0x48, 0x65, 0x6c, 0x6c, 0x6f]
    ensures Streams.Sent(false, Text, HEL).Encoded() == [0x01, 0x03, 0x48, 0x65, 0x6c]
    ensures Streams.Sent(true, Continuation, LO).Encoded() == [0x80, 0x02, 0x6c, 0x6f]
    ensures Streams.Sent(true, Ping, HELLO).Encoded() == [0x89, 0x05, 0x48, 0x65, 0x6c, 0x6c, 0x6f]
  {
    ShortHeader(FrameHeader(true, Text, None, 5));
    ShortHeader(FrameHeader(false, Text, None, 3));
    ShortHeader(FrameHeader(true, Continuation, None, 2));
    ShortHeader(FrameHeader(true, Ping, None, 5));
  }

  /** 256 bytes, and 64 KiB, of binary data in one unmasked frame. */
  lemma LengthExamples()
    ensures HeaderBytes(FrameHeader(true, Binary, None, 256)) == [0x82, 0x7E, 0x01, 0x00]
    ensures HeaderBytes(FrameHeader(true, Binary, None, 65536))
         == [0x82, 0x7F, 0x00, 0x00, 0x00, 0x00, 0x00, 0x01, 0x00, 0x00]
  {
    hide HeaderBytes, Spells, Pow256;
    FieldExamples();
    LongHeader(FrameHeader(true, Binary, None, 256), [1, 0]);
    LongHeader(FrameHeader(true, Binary, None, 65536), [0, 0, 0, 0, 0, 1, 0, 0]);
  }

  lemma FieldExamples()
    ensures Spells([1, 0], 256, 2) && Spells([0, 0, 0, 0, 0, 1, 0, 0], 65536, 8)
  {
    hide Pow256;
    Pow256Small();
    var s: bytes, v := [0, 0, 0, 0, 0, 1, 0, 0], 65536;
    forall i | 0 <= i < 8
      ensures s[i] == v / Pow256(7 - i) % 256
    {
      if i == 5 {
        assert v / 0x1_0000 % 256 == 1;
      } else if i < 5 {
        assert Pow256(7 - i) >= 0x100_0000;
      }
    }
  }

  lemma Pow256Small()
    ensures Pow256(0) == 1 && Pow256(1) == 0x100 && Pow256(2) == 0x1_0000 && Pow256(3) == 0x100_0000
    ensures Pow256(4) == 0x1_0000_0000 && Pow256(5) == 0x100_0000_0000 && Pow256(6) == 0x1_0000_0000_0000
    ensures Pow256(7) == 0x100_0000_0000_0000
  {
  }

  lemma MaskingExample()
    ensures Mask.Masked(HELLO, KEY) == MASKED_HELLO
  {
    hide Bits.Xor;
    XorHello();
  }

  /** A byte is two hexadecimal digits. */
  lemma XorHex(a: nat, b: nat, x: nat, y: nat)
    requires x < 16 && y < 16
    ensures Bits.Xor(16 * a + x, 16 * b + y) == 16 * Bits.Xor(a, b) + Bits.Xor(x, y)
  {
    hide Bits.Xor;
    assert Bits.PowerOfTwo(16);
    Bits.XorDigits(16, a, b, x, y);
  }

  lemma XorTable()
    ensures Bits.Xor(4, 3) == 7 && Bits.Xor(8, 7) == 15 && Bits.Xor(6, 15) == 9 && Bits.Xor(5, 10) == 15
  {
  }

  lemma XorTableOn()
    ensures Bits.Xor(6, 2) == 4 && Bits.Xor(12, 1) == 13 && Bits.Xor(6, 3) == 5 && Bits.Xor(12, 13) == 1
    ensures Bits.Xor(15, 7) == 8
  {
  }

  lemma XorHello()
    ensures Bits.Xor(0x48, 0x37) == 0x7f && Bits.Xor(0x65, 0xfa) == 0x9f && Bits.Xor(0x6c, 0x21) == 0x4d
    ensures Bits.Xor(0x6c, 0x3d) == 0x51 && Bits.Xor(0x6f, 0x37) == 0x58
  {
    hide Bits.Xor;
    XorTable();
    XorTableOn();
    XorHex(4, 3, 8, 7);
    XorHex(6, 15, 5, 10);
    XorHex(6, 2, 12, 1);
    XorHex(6, 3, 12, 13);
    XorHex(6, 3, 15, 7);
  }

  /** Masked text and a masked pong. */
  lemma MaskedExamples()
    ensures Outbound.FrameBytes(Outbound.Sent(Text, HELLO, KEY))
         == [0x81, 0x85, 0x37, 0xfa, 0x21, 0x3d, 0x7f, 0x9f, 0x4d, 0x51, 0x58]
    ensures Outbound.FrameBytes(Outbound.Sent(Pong, HELLO, KEY))
         == [0x8a, 0x85, 0x37, 0xfa, 0x21, 0x3d, 0x7f, 0x9f, 0x4d, 0x51, 0x58]
  {
    hide Mask.Masked;
    MaskingExample();
    ShortHeader(FrameHeader(true, Text, Some(KEY), 5));
    ShortHeader(FrameHeader(true, Pong, Some(KEY), 5));
  }
}
