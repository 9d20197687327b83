/**
 The bytes a client sends: tx_buf with its head cursor, masking keys and frame encoding,
 src/ws/client.rs:1988-2016 and src/ws/client.rs:2253-2293.
 */
module Outbound {
  import opened Bytes
  import opened Frame
  import opened Mask

  const MASK_POOL_BYTES := 256

  /** A frame handed to write_frame, and the key it was masked with. */
  datatype Sent = Sent(opcode: OpCode, payload: bytes, key: Key)

  predicate Writable(opcode: OpCode, payload: bytes) {
    |payload| < TWO_63 && (opcode.IsControl() ==> |payload| <= MAX_CONTROL_PAYLOAD)
  }

  type Frames = s: seq<Sent> | forall f <- s :: Writable(f.opcode, f.payload)

  ghost function FrameBytes(f: Sent): (s: bytes)
    requires Writable(f.opcode, f.payload)
  {
    HeaderBytes(FrameHeader(true, f.opcode, Some(f.key), |f.payload|)) + Masked(f.payload, f.key)
  }

  /** A single masked frame, byte by byte: sections 5.2 and 5.3 of RFC 6455. */
  ghost predicate SingleFrame(s: bytes, opcode: OpCode, payload: bytes, key: Key) {
    var n := FieldSize(|payload|);
    && |s| == 6 + n + |payload|
    && s[0] == 0x80 + CodeOf(opcode)
    && s[1] == 0x80 + (if n == 0 then |payload| else if n == 2 then 126 else 127)
    && (n > 0 ==> Spells(s[2..2 + n], |payload|, n))
    && s[2 + n..6 + n] == key
    && MaskedBits(payload, s[6 + n..], key)
  }

  lemma FrameLayout(f: Sent)
    requires Writable(f.opcode, f.payload)
    ensures SingleFrame(FrameBytes(f), f.opcode, f.payload, f.key)
  {
    hide HeaderBytes, Masked, Spells, CodeOf, MaskedBits;
    var h := FrameHeader(true, f.opcode, Some(f.key), |f.payload|);
    HeaderLayout(h);
    var head, n, s := HeaderBytes(h), FieldSize(|f.payload|), FrameBytes(f);
    assert s[..|head|] == head;
    assert s[2..2 + n] == head[2..2 + n];
    assert s[2 + n..6 + n] == head[2 + n..];
    assert s[6 + n..] == Masked(f.payload, f.key);
    MaskedExactly(f.payload, f.key, []);
  }

  /** What a list of frames looks like on the wire. */
  ghost function Wire(frames: Frames): (s: bytes) {
    if frames == [] then [] else Wire(frames[..|frames| - 1]) + FrameBytes(frames[|frames| - 1])
  }

  // ---- what a server reads from the wire ---------------------------------------

  datatype Message = Message(opcode: OpCode, payload: bytes)

  datatype Decoded = Decoded(messages: seq<Message>, rest: bytes)

  /** Decoding with parse_header and unmasking, frame after frame. */
  function ReadFrames(wire: bytes): (d: Decoded)
    decreases |wire|
  {
    match ParseHeader(wire)
    case Header(h, size) =>
      if h.mask.None? || |wire| < size + h.len then Decoded([], wire)
      else
        var tail := ReadFrames(wire[size + h.len..]);
        Decoded([Message(h.opcode, Masked(wire[size..size + h.len], h.mask.value))] + tail.messages, tail.rest)
    case _ => Decoded([], wire)
  }

  ghost function MessagesOf(frames: seq<Sent>): (m: seq<Message>)
    ensures |m| == |frames|
  {
    seq(|frames|, i requires 0 <= i < |frames| => Message(frames[i].opcode, frames[i].payload))
  }

  lemma ReadOneFrame(f: Sent, rest: bytes)
    requires Writable(f.opcode, f.payload)
    ensures var tail := ReadFrames(rest);
            ReadFrames(FrameBytes(f) + rest) == Decoded([Message(f.opcode, f.payload)] + tail.messages, tail.rest)
  {
    hide HeaderBytes, ParseHeader, Masked;
    var h := FrameHeader(true, f.opcode, Some(f.key), |f.payload|);
    var head, body := HeaderBytes(h), Masked(f.payload, f.key);
    var wire := FrameBytes(f) + rest;
    assert wire == head + (body + rest);
    ParseEncoded(h, body + rest);
    assert wire[|head|..|head| + h.len] == body;
    assert wire[|head| + h.len..] == rest;
    MaskInvolution(f.payload, f.key);
  }

  lemma {:induction false} WirePrefix(frames: Frames, rest: bytes)
    ensures ReadFrames(Wire(frames) + rest)
         == Decoded(MessagesOf(frames) + ReadFrames(rest).messages, ReadFrames(rest).rest)
    decreases |frames|
  {
    hide FrameBytes, ReadFrames;
    var tail := ReadFrames(rest);
    if frames == [] {
      assert Wire(frames) + rest == rest;
      assert MessagesOf(frames) + tail.messages == tail.messages;
    } else {
      var init, last := frames[..|frames| - 1], frames[|frames| - 1];
      WirePrefix(init, FrameBytes(last) + rest);
      assert Wire(frames) + rest == Wire(init) + (FrameBytes(last) + rest);
      ReadOneFrame(last, rest);
      assert MessagesOf(frames) == MessagesOf(init) + [Message(last.opcode, last.payload)];
      assert MessagesOf(init) + ([Message(last.opcode, last.payload)] + tail.messages)
          == MessagesOf(frames) + tail.messages;
    }
  }

  /** The wire, decoded and unmasked, gives back exactly the frames that were written. */
  lemma WireRoundTrip(frames: Frames)
    ensures ReadFrames(Wire(frames)) == Decoded(MessagesOf(frames), [])
  {
    WirePrefix(frames, []);
    assert Wire(frames) + [] == Wire(frames);
    assert MessagesOf(frames) + [] == MessagesOf(frames);
  }

  class Outbox {
    var txBuf: bytes
    var txHead: nat
    var capacity: nat
    var maskPool: bytes
    var maskCursor: nat
    var refills: nat
    /** handshake_started, and the upgrade request it guards. */
    var started: bool
    const request: bytes
    /** The random pool contents, one for each refill. */
    const entropy: nat -> bytes
    /** Which of the two mask loops this machine selects. */
    const avx2: bool

    ghost var opening: bytes
    ghost var written: Frames
    ghost var acked: bytes

    ghost predicate Valid()
      reads this
    {
      && txHead <= |txBuf| <= capacity
      && |maskPool| == MASK_POOL_BYTES && maskCursor <= MASK_POOL_BYTES
      && (forall n: nat :: |entropy(n)| == MASK_POOL_BYTES)
      && opening == (if started then request else [])
      && refills > 0 && maskPool == entropy(refills - 1)
      && 4 * |written| == 256 * (refills - 1) + maskCursor
      && Keyed(written)
      && acked + txBuf[txHead..] == opening + Wire(written)
    }

    /** The key of frame i: four bytes of the random stream, 64 frames for each refill. */
    ghost function KeyOf(i: nat): (key: Key)
    {
      var pool := entropy(i / 64);
      if |pool| == 256 then pool[4 * (i % 64)..4 * (i % 64) + 4] else [0, 0, 0, 0]
    }

    /** No byte of the random stream masks two frames. */
    ghost predicate Keyed(frames: seq<Sent>) {
      forall i :: 0 <= i < |frames| ==> frames[i].key == KeyOf(i)
    }

    constructor (cap: nat, request: bytes, entropy: nat -> bytes, avx2: bool)
      requires forall n: nat :: |entropy(n)| == MASK_POOL_BYTES
      ensures Valid() && !started && written == [] && acked == [] && txBuf == [] && this.request == request
    {
      txBuf, txHead, capacity := [], 0, cap;
      maskPool, maskCursor, refills := entropy(0), 0, 1;
      this.entropy, this.avx2, this.request, started := entropy, avx2, request, false;
      opening, written, acked := [], [], [];
    }

    /** pending_tx. */
    function PendingTx(): (s: bytes)
      requires txHead <= |txBuf|
      reads this
    {
      txBuf[txHead..]
    }

    method AckTx(n: nat)
      requires Valid() && n <= |PendingTx()|
      modifies this`txBuf, this`txHead, this`acked
      ensures Valid()
      ensures acked == old(acked) + old(PendingTx())[..n] && PendingTx() == old(PendingTx())[n..]
    {
      hide Wire;
      ghost var pending := PendingTx();
      SplitAt(pending, n);
      Associative(acked, pending[..n], pending[n..]);
      acked := acked + pending[..n];
      txHead := txHead + n;
      if txHead == |txBuf| {
        txBuf, txHead := [], 0;
      }
      assert PendingTx() == pending[n..];
    }

    method CompactTxIfNeeded(extra: nat)
      requires txHead <= |txBuf| <= capacity
      modifies this`txBuf, this`txHead
      ensures txHead <= |txBuf| <= capacity && PendingTx() == old(PendingTx())
      ensures old(Valid()) ==> Valid()
    {
      hide Wire, Keyed, KeyOf;
      if txHead != 0 && |txBuf| + extra > capacity {
        txBuf, txHead := txBuf[txHead..], 0;
      }
    }

    method Append(s: bytes)
      requires txHead <= |txBuf|
      modifies this`txBuf, this`capacity
      ensures txBuf == old(txBuf) + s && |txBuf| <= capacity
    {
      txBuf := txBuf + s;
      if |txBuf| > capacity {
        var grown: nat :| grown >= |txBuf|;
        capacity := grown;
      }
    }

    /** begin_handshake's share: the upgrade request goes out once, before any frame. */
    method PushRequest()
      requires Valid() && written == [] && !started
      modifies this`txBuf, this`txHead, this`capacity, this`opening, this`started
      ensures Valid() && started && opening == request
    {
      CompactTxIfNeeded(256);
      ghost var pending := PendingTx();
      Append(request);
      assert txBuf[txHead..] == pending + request;
      opening, started := request, true;
      assert acked + (pending + request) == (acked + pending) + request;
    }

    method NextMask() returns (key: Key)
      requires Valid()
      modifies this`maskPool, this`maskCursor, this`refills
      ensures |maskPool| == 256 && maskCursor <= 256
      ensures refills > 0 && maskPool == entropy(refills - 1)
      ensures key == KeyOf(|written|) && 4 * (|written| + 1) == 256 * (refills - 1) + maskCursor
    {
      hide Wire, Keyed;
      if maskCursor + 4 > MASK_POOL_BYTES {
        maskPool, maskCursor, refills := entropy(refills), 0, refills + 1;
      }
      key := maskPool[maskCursor..maskCursor + 4];
      maskCursor := maskCursor + 4;
      assert |written| / 64 == refills - 1 && 4 * (|written| % 64) == maskCursor - 4;
    }

    lemma KeyedAppend(frames: seq<Sent>, f: Sent)
      requires Keyed(frames) && f.key == KeyOf(|frames|)
      ensures Keyed(frames + [f])
    {
      hide KeyOf;
    }

    /** write_frame: one masked frame at the end of the pending bytes. */
    method WriteFrame(opcode: OpCode, payload: bytes) returns (ghost f: Sent)
      requires Valid() && Writable(opcode, payload)
      modifies this
      ensures Valid() && opening == old(opening) && acked == old(acked)
      ensures f.opcode == opcode && f.payload == payload && f.key == KeyOf(|old(written)|)
      ensures written == old(written) + [f]
      ensures PendingTx() == old(PendingTx()) + FrameBytes(f)
    {
      hide Wire, FrameBytes, Writable, SingleFrame, Keyed, KeyOf;
      var key := NextMask();
      var encoded := EncodeFrame(opcode, payload, key, avx2);
      CompactTxIfNeeded(|encoded|);
      ghost var pending := PendingTx();
      Append(encoded);
      f := Sent(opcode, payload, key);
      written := written + [f];
      WireAppend(old(written), f);
      KeyedAppend(old(written), f);
      assert PendingTx() == pending + encoded;
      Associative(acked, pending, encoded);
      Associative(opening, Wire(old(written)), encoded);
      assert acked + PendingTx() == opening + Wire(written);
    }
  }

  lemma WireAppend(frames: Frames, f: Sent)
    requires Writable(f.opcode, f.payload)
    ensures Wire(frames + [f]) == Wire(frames) + FrameBytes(f)
  {
    var all: Frames := frames + [f];
    assert all[..|all| - 1] == frames;
  }

  method EncodeFrame(opcode: OpCode, payload: bytes, key: Key, avx2: bool) returns (s: bytes)
    requires Writable(opcode, payload)
    ensures s == FrameBytes(Sent(opcode, payload, key)) && SingleFrame(s, opcode, payload, key)
  {
    hide SingleFrame;
    var hdr := new byte[MAX_HEADER_LEN](_ => 0);
    var n := EncodeHeader(hdr, true, opcode, Some(key), |payload|);
    var body := new byte[|payload|](i requires 0 <= i < |payload| => payload[i]);
    assert body[..] == payload;
    if avx2 {
      MaskAvx2(body, key);
    } else {
      MaskScalar(body, key);
    }
    s := hdr[..n] + body[..];
    FrameLayout(Sent(opcode, payload, key));
  }
}
