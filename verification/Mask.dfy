/** Client-to-server masking, src/ws/mask.rs (section 5.3 of RFC 6455). */
module Mask {
  import opened Bytes
  import opened Bits
  import opened Frame

  function XorByte(a: byte, b: byte): (r: byte) {
    assert Xor(a, b) < 256 by {
      assert PowerOfTwo(256);
      XorDigits(256, 0, 0, a, b);
    }
    Xor(a, b)
  }

  // ---- the machine words that the block loops load and store ----------------------

  function FromLE(s: bytes): (v: nat) {
    if s == [] then 0 else FromLE(s[1..]) * 256 + s[0]
  }

  function ToLE(v: nat, n: nat): (s: bytes)
    ensures |s| == n
  {
    if n == 0 then [] else [v % 256] + ToLE(v / 256, n - 1)
  }

  lemma {:induction false} StoreLoad(s: bytes)
    ensures ToLE(FromLE(s), |s|) == s
  {
    if s != [] {
      StoreLoad(s[1..]);
      assert FromLE(s) / 256 == FromLE(s[1..]) && FromLE(s) % 256 == s[0];
    }
  }

  function XorAll(s: bytes, t: bytes): (r: bytes)
    requires |s| == |t|
  {
    seq(|s|, i requires 0 <= i < |s| => XorByte(s[i], t[i]))
  }

  /** One wide exclusive or does what bytewise exclusive or does. */
  lemma {:induction false} XorWords(s: bytes, t: bytes)
    requires |s| == |t|
    ensures Xor(FromLE(s), FromLE(t)) == FromLE(XorAll(s, t))
  {
    if s != [] {
      XorWords(s[1..], t[1..]);
      assert XorAll(s, t)[1..] == XorAll(s[1..], t[1..]);
      assert PowerOfTwo(256);
      XorDigits(256, FromLE(s[1..]), FromLE(t[1..]), s[0], t[0]);
    }
  }

  function Repeat(key: Key, n: nat): (s: bytes) {
    seq(n, i requires 0 <= i < n => key[i % 4])
  }

  /** Byte i of the payload, exclusive or byte i mod 4 of the key. */
  function Masked(payload: bytes, key: Key): (r: bytes)
    ensures |r| == |payload|
  {
    XorAll(payload, Repeat(key, |payload|))
  }

  lemma BlockStore(s: bytes, key: Key)
    ensures ToLE(Xor(FromLE(s), FromLE(Repeat(key, |s|))), |s|) == Masked(s, key)
  {
    XorWords(s, Repeat(key, |s|));
    StoreLoad(Masked(s, key));
  }

  /** Bit by bit, the payload with the key laid over it again and again. */
  ghost predicate MaskedBits(before: bytes, after: bytes, key: Key) {
    && |after| == |before|
    && (forall j, i: nat :: 0 <= j < |before| && i < 8 ==>
          (Bit(after[j], i) <==> Bit(before[j], i) != Bit(key[j % 4], i)))
  }

  /** Masking is that, and only masking is. */
  lemma MaskedExactly(payload: bytes, key: Key, other: bytes)
    ensures MaskedBits(payload, Masked(payload, key), key)
    ensures MaskedBits(payload, other, key) ==> other == Masked(payload, key)
  {
    var masked := Masked(payload, key);
    forall j, i: nat | 0 <= j < |payload|
      ensures Bit(masked[j], i) <==> Bit(payload[j], i) != Bit(key[j % 4], i)
    {
      XorBit(payload[j], key[j % 4], i);
    }
    if MaskedBits(payload, other, key) {
      forall j | 0 <= j < |payload|
        ensures other[j] == masked[j]
      {
        assert PowerOf2(8) == 256;
        forall i: nat | i < 8
          ensures Bit(other[j], i) <==> Bit(masked[j], i)
        {
          assert Bit(masked[j], i) <==> Bit(payload[j], i) != Bit(key[j % 4], i);
        }
        BitsDetermine(other[j], masked[j], 8);
      }
    }
  }

  /** Unmasking is masking again. */
  lemma MaskInvolution(payload: bytes, key: Key)
    ensures Masked(Masked(payload, key), key) == payload
  {
    var twice := Masked(Masked(payload, key), key);
    forall i | 0 <= i < |payload|
      ensures twice[i] == payload[i]
    {
      XorInvolution(payload[i], key[i % 4]);
    }
  }

  // ---- the loops ------------------------------------------------------------

  /** One load, one wide exclusive or, one store. */
  method XorBlock(buf: array<byte>, i: nat, key: Key, width: nat, keyWord: nat)
    requires i + width <= buf.Length && i % 4 == 0
    requires keyWord == FromLE(Repeat(key, width))
    modifies buf
    ensures forall j :: i <= j < i + width ==> buf[j] == XorByte(old(buf[j]), key[j % 4])
    ensures forall j :: 0 <= j < i || i + width <= j < buf.Length ==> buf[j] == old(buf[j])
  {
    hide XorByte;
    var stored := BlockXor(buf[i..i + width], key, keyWord, i);
    forall k | 0 <= k < width {
      buf[i + k] := stored[k];
    }
    assert forall j :: i <= j < i + width ==> buf[j] == stored[j - i];
  }

  /** Going on by whole keys, or by one byte, keeps step with the key. */
  lemma InStep(i: nat, j: nat)
    requires i % 4 == 0 && i <= j
    ensures (j - i) % 4 == j % 4
  {
  }

  lemma NextByte(i: nat)
    ensures (i % 4 + 1) % 4 == (i + 1) % 4
  {
  }

  method BlockXor(word: bytes, key: Key, keyWord: nat, i: nat) returns (stored: bytes)
    requires i % 4 == 0
    requires keyWord == FromLE(Repeat(key, |word|))
    ensures |stored| == |word|
    ensures forall j :: i <= j < i + |word| ==> stored[j - i] == XorByte(word[j - i], key[j % 4])
  {
    hide Xor, FromLE, ToLE, XorByte;
    stored := ToLE(Xor(FromLE(word), keyWord), |word|);
    BlockStore(word, key);
    forall j | i <= j < i + |word|
      ensures stored[j - i] == XorByte(word[j - i], key[j % 4])
    {
      InStep(i, j);
    }
  }

  /** The block part of both loops: words of `width` bytes, xor with the repeated key. */
  method XorBlocks(buf: array<byte>, key: Key, width: nat) returns (i: nat)
    requires width > 0 && width % 4 == 0
    modifies buf
    ensures i <= buf.Length < i + width
    ensures i % 4 == 0
    ensures forall j :: 0 <= j < i ==> buf[j] == XorByte(old(buf[j]), key[j % 4])
    ensures forall j :: i <= j < buf.Length ==> buf[j] == old(buf[j])
  {
    hide XorByte;
    var keyWord := FromLE(Repeat(key, width));
    i := 0;
    while i + width <= buf.Length
      invariant i <= buf.Length && i % 4 == 0
      invariant forall j :: 0 <= j < i ==> buf[j] == XorByte(old(buf[j]), key[j % 4])
      invariant forall j :: i <= j < buf.Length ==> buf[j] == old(buf[j])
    {
      XorBlock(buf, i, key, width, keyWord);
      i := i + width;
    }
  }

  lemma MaskedPointwise(before: bytes, after: bytes, key: Key)
    requires |before| == |after|
    requires forall j :: 0 <= j < |before| ==> after[j] == XorByte(before[j], key[j % 4])
    ensures after == Masked(before, key)
  {
  }

  /** mask_scalar: 8-byte words, then a byte loop that cycles through the key. */
  method MaskScalar(buf: array<byte>, key: Key)
    modifies buf
    ensures buf[..] == Masked(old(buf[..]), key) && MaskedBits(old(buf[..]), buf[..], key)
  {
    hide XorByte, Masked;
    var i := XorBlocks(buf, key, 8);
    var k := 0;
    while i < buf.Length
      invariant i <= buf.Length && k == i % 4
      invariant forall j :: 0 <= j < i ==> buf[j] == XorByte(old(buf[j]), key[j % 4])
      invariant forall j :: i <= j < buf.Length ==> buf[j] == old(buf[j])
    {
      NextByte(i);
      buf[i] := XorByte(buf[i], key[k]);
      i, k := i + 1, (k + 1) % 4;
    }
    MaskedPointwise(old(buf[..]), buf[..], key);
    MaskedExactly(old(buf[..]), key, []);
  }

  /** mask_avx2: 32-byte words, then a byte loop on i & 3. */
  method MaskAvx2(buf: array<byte>, key: Key)
    modifies buf
    ensures buf[..] == Masked(old(buf[..]), key) && MaskedBits(old(buf[..]), buf[..], key)
  {
    hide XorByte, Masked;
    var i := XorBlocks(buf, key, 32);
    while i < buf.Length
      invariant i <= buf.Length
      invariant forall j :: 0 <= j < i ==> buf[j] == XorByte(old(buf[j]), key[j % 4])
      invariant forall j :: i <= j < buf.Length ==> buf[j] == old(buf[j])
    {
      buf[i] := XorByte(buf[i], key[i % 4]);
      i := i + 1;
    }
    MaskedPointwise(old(buf[..]), buf[..], key);
    MaskedExactly(old(buf[..]), key, []);
  }
}
