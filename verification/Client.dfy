/**
 The WebSocket client, src/ws/client.rs: three inbound paths over one stream, the closing
 handshake, and the frames it writes.
 */
module Client {
  import opened Bytes
  import opened States
  import opened Frame
  import opened Decoder
  import opened Outbound
  import opened Replies
  import opened FastPath
  import opened Batching
  import opened CursorBuffer
  import opened Parser
  import Close
  import Http

  datatype EmitKind =
    | EmitHandshake
    | EmitText
    | EmitBinary
    | EmitBorrowedText
    | EmitBorrowedBinary
    | EmitPing
    | EmitPong
    | EmitClose
  {
    predicate IsBorrowed() { EmitBorrowedText? || EmitBorrowedBinary? }
  }

  datatype Borrowed = Borrowed(payloadStart: nat, payloadEnd: nat, frameLen: nat)

  datatype WsError =
    | FrameFailure(frame: FrameError)
    | HandshakeFailure
    | HttpFailure
    | CloseFailure(close: Close.CloseError)
    | ProtocolFailure
    | InvalidState(state: WsState)
    | Utf8Failure
    | TooLargeFailure
    | InternalFailure

  datatype AdvanceResult = Emit(kind: EmitKind) | Progressed | Starved | AdvanceFailed(error: WsError)

  datatype BorrowedResult = BorrowEmit(kind: EmitKind) | BorrowWait | BorrowFallback | BorrowFailed(error: WsError)

  datatype PollResult = Nothing | Polled(event: Event) | PollFailed(error: WsError)

  datatype DrainResult = DrainOk(count: nat) | DrainFailed(error: WsError)

  datatype DrainTurn = TurnGoesOn | TurnEnds | TurnFailed(error: WsError)

  datatype SendResult = SendOk | SendRefused(error: WsError)

  function Ascii(s: string): (r: bytes)
    ensures |r| == |s|
  {
    seq(|s|, i requires 0 <= i < |s| => s[i] as int % 256)
  }

  ghost predicate NoClose(written: seq<Sent>) {
    forall f <- written :: !f.opcode.Close?
  }

  /** Section 5.5.1 of RFC 6455: one Close at most, and no data after it. */
  ghost predicate OnlyPongsAfterClose(written: seq<Sent>) {
    forall i, j :: 0 <= i < j < |written| && written[i].opcode.Close? ==> written[j].opcode.Pong?
  }

  ghost predicate CloseDiscipline(state: WsState, written: seq<Sent>) {
    && (state.Connecting? ==> written == [])
    && (state.Open? ==> NoClose(written))
    && OnlyPongsAfterClose(written)
  }

  function ClosedBy(c: Close.CloseResult): (e: Event) {
    if c.Status? then CloseReceived(c.code, c.reason) else CloseReceived(Close.NO_STATUS, [])
  }

  // ---- the decision of on_frame_start ----------------------------------------------

  datatype StartResult = StartAccepted | StartRefused(code: nat, reason: bytes, error: WsError)

  predicate OpensMessage(cfg: Config, msgOpcode: Option<OpCode>, h: FrameHeader) {
    h.len <= cfg.maxFrame && (h.opcode.Text? || h.opcode.Binary?) && msgOpcode.None?
  }

  function StartVerdict(cfg: Config, msgOpcode: Option<OpCode>, msgLen: nat, h: FrameHeader): (r: StartResult)
    ensures r.StartRefused? ==> r.code < 0x1_0000 && |r.reason| <= 123
  {
    if h.len > cfg.maxFrame then
      StartRefused(Close.MESSAGE_TOO_BIG, Ascii("frame too large"), TooLargeFailure)
    else if h.opcode.IsControl() then StartAccepted
    else if h.opcode.Continuation? && msgOpcode.None? then
      StartRefused(Close.PROTOCOL_ERROR, Ascii("continuation without start"), ProtocolFailure)
    else if !h.opcode.Continuation? && msgOpcode.Some? then
      StartRefused(Close.PROTOCOL_ERROR, Ascii("new data frame mid-fragmentation"), ProtocolFailure)
    else if (if h.opcode.Continuation? then msgLen else 0) + h.len > cfg.maxMessage then
      StartRefused(Close.MESSAGE_TOO_BIG, Ascii("message exceeds max_message_size"), TooLargeFailure)
    else StartAccepted
  }

  /** The client refuses exactly the frames that the reference decoder refuses. */
  lemma StartVerdictExact(cfg: Config, partial: Option<Partial>, h: FrameHeader)
    ensures forall msgOpcode: Option<OpCode>, msgLen: nat ::
              (msgOpcode.Some? <==> partial.Some?) && (partial.Some? ==> msgLen == |partial.value.data|) ==>
                var v := StartVerdict(cfg, msgOpcode, msgLen, h);
                && (v.StartAccepted? <==> StartOk(cfg, partial, h))
                && (v.StartRefused? ==> v.code == StartCode(cfg, partial, h))
    ensures StartOk(cfg, partial, h) && !h.opcode.IsControl() ==>
              if h.opcode.Continuation? then partial.Some? else partial.None? && OpensMessage(cfg, None, h)
  {
  }

  // ---- the decision of try_emit_borrowed_data ---------------------------------------

  datatype BorrowVerdict =
    | MustWait
    | MustFallBack
    | MustReject(code: nat, reason: bytes, error: WsError)
    | MayEmit(kind: EmitKind, headerLen: nat, frameLen: nat)

  function BorrowedVerdict(cfg: Config, buf: bytes): (r: BorrowVerdict)
    ensures r.MustReject? ==> r.code < 0x1_0000 && |r.reason| <= 123
    ensures r.MayEmit? ==> 0 < r.headerLen <= r.frameLen <= |buf| && r.kind.IsBorrowed()
  {
    match ParseHeader(buf)
    case Bad(e) => MustReject(Close.PROTOCOL_ERROR, Ascii("frame parse error"), FrameFailure(e))
    case Incomplete => MustWait
    case Header(h, headerLen) =>
      if h.mask.Some? then
        MustReject(Close.PROTOCOL_ERROR, Ascii("server sent masked frame"), FrameFailure(ServerSentMaskedFrame))
      else if !h.fin || h.opcode !in {Text, Binary} then MustFallBack
      else if h.len > cfg.maxFrame then
        MustReject(Close.MESSAGE_TOO_BIG, Ascii("frame too large"), TooLargeFailure)
      else if h.len > cfg.maxMessage then
        MustReject(Close.MESSAGE_TOO_BIG, Ascii("message exceeds max_message_size"), TooLargeFailure)
      else if |buf| < headerLen + h.len then MustWait
      else if h.opcode.Text? && !TextOk(cfg, buf[headerLen..headerLen + h.len]) then
        MustReject(Close.INVALID_PAYLOAD, Ascii("invalid utf-8"), Utf8Failure)
      else MayEmit(if h.opcode.Text? then EmitBorrowedText else EmitBorrowedBinary, headerLen, headerLen + h.len)
  }

  function BorrowedEvent(kind: EmitKind, payload: bytes): (e: Event) {
    if kind.EmitBorrowedText? then TextMessage(payload) else BinaryMessage(payload)
  }

  lemma FirstByteRead(buf: bytes)
    ensures ParseHeader(buf).Header? ==>
              && (ParseHeader(buf).h.fin <==> buf[0] >= 128)
              && (ParseHeader(buf).h.opcode in {Text, Binary} <==> buf[0] % 16 in {1, 2})
              && buf[0] % 16 in {0, 1, 2, 8, 9, 10}
  {
  }

  /** Between messages the borrowed path takes the reference step, or steps aside. */
  lemma BorrowedRefinesRun(cfg: Config, buf: bytes)
    ensures var o, v := Run(cfg, Framing(None), buf), BorrowedVerdict(cfg, buf);
            && (v.MustWait? ==> Stuck(o, Framing(None), buf))
            && (v.MustReject? ==> DeadWith(o, v.code))
            && (v.MustFallBack? ==> |buf| >= 2 && (buf[0] < 128 || buf[0] % 16 in {0, 8, 9, 10}))
            && (v.MayEmit? ==>
                  o == Run(cfg, Framing(None), buf[v.frameLen..])
                       .After([BorrowedEvent(v.kind, buf[v.headerLen..v.frameLen])]))
  {
    hide Run, ParseHeader, ServerHeader, TextOk, DoomedHeader;
    ServerHeaderAgrees(buf);
    WholeDataFrame(cfg, buf);
    FirstByteRead(buf);
    if StepAt(cfg, Framing(None), buf).Next? {
      RunNext(cfg, Framing(None), buf);
    } else {
      RunStops(cfg, Framing(None), buf);
    }
  }

  // ---- a frame in progress ---------------------------------------------------------

  ghost predicate FrameSoFar(cfg: Config, held: bytes, base: Option<Partial>, remaining: nat, opcode: Option<OpCode>,
                             fin: bool, ctl: bytes, msgOpcode: Option<OpCode>, msg: bytes)
  {
    match ServerHeader(held)
    case Header(h, size) =>
      && StartOk(cfg, base, h)
      && |held| + remaining == size + h.len
      && opcode == Some(h.opcode) && fin == h.fin
      && (if h.opcode.IsControl()
          then ctl == held[size..] && base == (if msgOpcode.Some? then Some(Partial(msgOpcode.value, msg)) else None)
          else msgOpcode == Some(Opened(base, h).opcode) && msg == Opened(base, h).data + held[size..])
    case _ => false
  }

  /** A payload chunk goes to the control buffer or to the message, and the frame is as before. */
  lemma FrameGrows(cfg: Config, held: bytes, base: Option<Partial>, remaining: nat, opcode: Option<OpCode>,
                   fin: bool, ctl: bytes, msgOpcode: Option<OpCode>, msg: bytes, chunk: bytes)
    requires FrameSoFar(cfg, held, base, remaining, opcode, fin, ctl, msgOpcode, msg) && |chunk| <= remaining
    ensures opcode.Some?
    ensures if opcode.value.IsControl()
            then FrameSoFar(cfg, held + chunk, base, remaining - |chunk|, opcode, fin, ctl + chunk, msgOpcode, msg)
            else FrameSoFar(cfg, held + chunk, base, remaining - |chunk|, opcode, fin, ctl, msgOpcode, msg + chunk)
  {
    hide ServerHeader;
    ServerVerdictStable(held, chunk);
    var Header(h, size) := ServerHeader(held);
    DropAppend(held, size, chunk);
    if !h.opcode.IsControl() {
      Associative(Opened(base, h).data, held[size..], chunk);
    }
  }

  class WsClient {
    const cfg: Config
    const parser: FrameParser
    const recvBuf: CursorBuf
    const tx: Outbox
    var state: WsState
    var msgBuf: bytes
    var borrowed: Option<Borrowed>
    var msgOpcode: Option<OpCode>
    var ctlBuf: bytes
    var curOpcode: Option<OpCode>
    var curFin: bool
    var lastEmitted: Option<EmitKind>

    /** Bytes of the frame in progress that the parser has taken from recvBuf. */
    ghost var held: bytes
    /** The fragmented message as it was when that frame began. */
    ghost var base: Option<Partial>
    /** An error has been reported. */
    ghost var failed: bool
    /** All bytes ever fed, and all events emitted before the first error. */
    ghost var fed: bytes
    ghost var emitted: seq<Event>

    // ---- invariants ------------------------------------------------------------

    ghost predicate Core()
      reads this, parser, recvBuf, tx
    {
      && parser.Valid() && recvBuf.Valid() && tx.Valid()
      && CloseDiscipline(state, tx.written)
      && |ctlBuf| <= MAX_CONTROL_PAYLOAD
      && (msgOpcode.Some? ==> msgOpcode.value.Text? || msgOpcode.value.Binary?)
      && (borrowed.Some? ==>
            borrowed.value.payloadStart <= borrowed.value.payloadEnd <= borrowed.value.frameLen <= |recvBuf.AsSlice()|)
    }

    ghost predicate ControlFits(remaining: nat)
      reads this`curOpcode, this`ctlBuf
    {
      curOpcode.Some? && curOpcode.value.IsControl() ==> |ctlBuf| + remaining <= MAX_CONTROL_PAYLOAD
    }

    ghost predicate Basic()
      reads this, parser, recvBuf, tx
    {
      && Core()
      && (state.Connecting? ==> parser.state.Idle?)
      && (if parser.state.Payload? then ControlFits(parser.state.remaining) else curOpcode.None?)
    }

    ghost function Assembled(): Option<Partial>
      reads this`msgOpcode, this`msgBuf
    {
      if msgOpcode.Some? then Some(Partial(msgOpcode.value, msgBuf)) else None
    }

    /** A frame is in progress: its header was accepted and its payload so far is where it belongs. */
    ghost predicate InFrame(remaining: nat)
      reads this`held, this`base, this`curOpcode, this`curFin, this`ctlBuf, this`msgOpcode, this`msgBuf
    {
      FrameSoFar(cfg, held, base, remaining, curOpcode, curFin, ctlBuf, msgOpcode, msgBuf)
    }

    /** The fields mean what the reference decoder would hold. */
    ghost predicate Coupled()
      reads this, parser, recvBuf
    {
      && (state.Connecting? ==> msgOpcode.None? && borrowed.None?)
      && (borrowed.Some? ==> parser.state.Idle? && !state.Closed?)
      && (!state.Closed? ==>
            if parser.state.Payload? then InFrame(parser.state.remaining)
            else
              && held == parser.Held() && base == Assembled()
              && (parser.state.HeaderPartial? ==> ServerHeader(held).Incomplete?))
    }

    ghost predicate Inv()
      reads this, parser, recvBuf, tx
    {
      Basic() && (!failed ==> Coupled())
    }

    ghost function Phase(): Phase
      reads this
    {
      match state
      case Connecting => Handshaking
      case Closed => Finished
      case _ => Framing(base)
    }

    /** The bytes not yet decoded into events. */
    ghost function Pending(): bytes
      requires recvBuf.Valid()
      requires borrowed.Some? ==> borrowed.value.frameLen <= |recvBuf.AsSlice()|
      reads this, recvBuf
    {
      if borrowed.Some? then recvBuf.AsSlice()[borrowed.value.frameLen..] else held + recvBuf.AsSlice()
    }

    /** What the reference decoder makes of them. */
    ghost function Future(): Outcome
      requires recvBuf.Valid()
      requires borrowed.Some? ==> borrowed.value.frameLen <= |recvBuf.AsSlice()|
      reads this, recvBuf
    {
      Run(cfg, Phase(), Pending())
    }

    ghost function Outside(): Side
      reads this`state, this`emitted, this`failed, tx`written
    {
      Side(state.Open?, tx.written, emitted, failed)
    }

    /** The close code for what is wrong with the bytes fed, if anything is. */
    ghost function Code(): nat
      reads this`fed
    {
      Run(cfg, Handshaking, fed).end.Code()
    }

    ghost predicate Settled()
      reads this
    {
      lastEmitted.None? && borrowed.None?
    }

    /** An emitted event still borrows from the buffers. */
    ghost predicate Tied()
      reads this, parser
    {
      && (borrowed.Some? <==> lastEmitted.Some? && lastEmitted.value.IsBorrowed())
      && (lastEmitted.Some? ==> parser.state.Idle?)
      && (lastEmitted.Some? && (lastEmitted.value.EmitText? || lastEmitted.value.EmitBinary?) ==> msgOpcode.None?)
    }

    /**
     The main theorem, as an invariant: whatever the interleaving of calls and chunks, the
     events so far and the events to come are those of the reference decoder on all bytes fed.
     */
    ghost predicate History()
      requires recvBuf.Valid()
      requires borrowed.Some? ==> borrowed.value.frameLen <= |recvBuf.AsSlice()|
      reads this, recvBuf
    {
      var whole := Run(cfg, Handshaking, fed);
      if failed then whole.events == emitted && !whole.end.Waiting?
      else whole == Future().After(emitted)
    }

    ghost predicate Valid()
      reads this, parser, recvBuf, tx
      ensures Valid() ==> recvBuf.Valid() && tx.txHead <= |tx.txBuf|
      ensures Valid() && borrowed.Some? ==> borrowed.value.frameLen <= |recvBuf.AsSlice()|
    {
      Inv() && Tied() && History()
    }

    /** The state never moves back; frames are only added, and none once closed. */
    twostate predicate Forward()
      reads this, tx
    {
      && state.Rank() >= old(state).Rank()
      && old(tx.written) <= tx.written
      && (old(state).Closed? ==> tx.written == old(tx.written))
      && (old(failed) ==> failed)
      && (!failed && state.Closing? ==> old(state).Closing?)
    }

    constructor (cfg: Config, recvCap: nat, txCap: nat, entropy: nat -> bytes, avx2: bool)
      requires forall n: nat :: |entropy(n)| == MASK_POOL_BYTES
      ensures Valid() && this.cfg == cfg
      ensures fresh(parser) && fresh(recvBuf) && fresh(tx)
      ensures state == WsState.Connecting && !failed && fed == [] && emitted == []
      ensures tx.request == cfg.request && tx.written == [] && Phase() == Handshaking && Pending() == []
      ensures parser.state.Idle? && msgOpcode.None? && borrowed.None? && recvBuf.AsSlice() == []
    {
      this.cfg := cfg;
      parser := new FrameParser();
      recvBuf := new CursorBuf.WithCapacity(recvCap);
      tx := new Outbox(txCap, cfg.request, entropy, avx2);
      state := WsState.Connecting;
      msgBuf, borrowed, msgOpcode, ctlBuf := [], None, None, [];
      curOpcode, curFin, lastEmitted := None, false, None;
      held, base, failed, fed, emitted := [], None, false, [], [];
      new;
      assert held + recvBuf.AsSlice() == [];
      AfterNothing(Future());
    }

    // ---- outbound --------------------------------------------------------------

    method BeginHandshake() returns (r: SendResult)
      requires Valid()
      modifies tx
      ensures Valid() && Forward()
      ensures r.SendOk? <==> old(state).Connecting? && !old(tx.started)
      ensures r.SendOk? ==> tx.started && tx.opening == tx.request && tx.written == old(tx.written)
      ensures r.SendRefused? ==> unchanged(tx)
    {
      if !state.Connecting? {
        return SendRefused(InvalidState(state));
      }
      if tx.started {
        return SendRefused(ProtocolFailure);
      }
      tx.PushRequest();
      r := SendOk;
    }

    /** write_frame, with what the closing discipline asks of its callers. */
    method WriteFrame(opcode: OpCode, payload: bytes) returns (ghost f: Sent)
      requires Core() && Writable(opcode, payload)
      requires !opcode.Close? && (state.Open? || (state.Closing? && opcode.Pong?))
      modifies tx
      ensures Core()
      ensures f.opcode == opcode && f.payload == payload && tx.written == old(tx.written) + [f]
      ensures tx.opening == old(tx.opening) && tx.acked == old(tx.acked)
    {
      f := tx.WriteFrame(opcode, payload);
    }

    method SendData(opcode: OpCode, payload: bytes) returns (r: SendResult)
      requires Valid() && |payload| < TWO_63
      requires opcode in {Text, Binary, Ping, Pong}
      modifies tx
      ensures Valid() && Forward()
      ensures r.SendOk? <==>
                && old(state).Open?
                && (opcode.Text? ==> cfg.utf8(payload))
                && (opcode.IsControl() ==> |payload| <= MAX_CONTROL_PAYLOAD)
      ensures r.SendOk? ==>
                && |tx.written| == |old(tx.written)| + 1
                && tx.written[|old(tx.written)|].opcode == opcode
                && tx.written[|old(tx.written)|].payload == payload
      ensures r.SendRefused? ==> tx.written == old(tx.written)
    {
      if opcode.Text? && !cfg.utf8(payload) {
        return SendRefused(Utf8Failure);
      }
      if opcode.IsControl() && |payload| > MAX_CONTROL_PAYLOAD {
        return SendRefused(ProtocolFailure);
      }
      if !state.Open? {
        return SendRefused(InvalidState(state));
      }
      ghost var f := WriteFrame(opcode, payload);
      r := SendOk;
    }

    /** Writes a Close and leaves Open; the caller has checked that none was written. */
    method WriteClose(code: nat, reason: bytes)
      requires Core() && state.Open? && code < 0x1_0000 && |reason| <= 123
      modifies this`state, tx
      ensures Core() && state.Closing?
      ensures |tx.written| == |old(tx.written)| + 1 && old(tx.written) <= tx.written
      ensures var f := tx.written[|old(tx.written)|]; f.opcode.Close? && f.payload == Close.CloseBytes(code, reason)
      ensures tx.opening == old(tx.opening) && tx.acked == old(tx.acked)
    {
      var payload := new byte[125](_ => 0);
      var n := Close.EncodeClosePayload(payload, code, reason);
      ghost var f := tx.WriteFrame(OpCode.Close, payload[..n]);
      state := WsState.Closing;
    }

    method SendClose(code: nat, reason: bytes) returns (r: SendResult)
      requires Valid() && code < 0x1_0000
      modifies this`state, tx
      ensures Valid()
      ensures state.Rank() >= old(state).Rank() && old(tx.written) <= tx.written
      ensures old(state).Closing? || old(state).Closed? ==> r.SendOk? && unchanged(this) && unchanged(tx)
      ensures r.SendOk? <==>
                || old(state).Closing? || old(state).Closed?
                || (old(state).Open? && Close.ValidCode(code) && |reason| <= 123)
      ensures r.SendRefused? ==> unchanged(this) && unchanged(tx)
      ensures old(state).Open? && r.SendOk? ==>
                && state.Closing? && Close.ValidCode(code)
                && |tx.written| == |old(tx.written)| + 1
                && tx.written[|old(tx.written)|].opcode.Close?
                && tx.written[|old(tx.written)|].payload == Close.CloseBytes(code, reason)
    {
      hide Run, ServerHeader, StartOk, NoClose, OnlyPongsAfterClose, Close.CloseBytes, Close.ValidCode, Outbox.Valid,
        FrameParser.Valid, FrameSoFar;
      if state.Closing? || state.Closed? {
        return SendOk;
      }
      if !state.Open? {
        return SendRefused(InvalidState(state));
      }
      if !Close.ValidCode(code) {
        return SendRefused(CloseFailure(Close.InvalidCode(code)));
      }
      if |reason| > 123 {
        return SendRefused(ProtocolFailure);
      }
      WriteClose(code, reason);
      r := SendOk;
    }

    /** ack_tx: n bytes have left. */
    method AckTx(n: nat)
      requires Valid() && n <= |tx.PendingTx()|
      modifies tx`txBuf, tx`txHead, tx`acked
      ensures Valid()
      ensures tx.acked == old(tx.acked) + old(tx.PendingTx())[..n] && tx.PendingTx() == old(tx.PendingTx())[n..]
    {
      hide Run, FrameSoFar, NoClose, OnlyPongsAfterClose;
      tx.AckTx(n);
    }

    method QueueClose(code: nat, reason: bytes)
      requires Core() && !state.Connecting? && code < 0x1_0000 && |reason| <= 123
      modifies this`state, tx
      ensures Core()
      ensures old(state).Open? ==>
                && state.Closing?
                && |tx.written| == |old(tx.written)| + 1 && old(tx.written) <= tx.written
                && tx.written[|old(tx.written)|].opcode.Close?
                && tx.written[|old(tx.written)|].payload == Close.CloseBytes(code, reason)
      ensures !old(state).Open? ==> state == old(state) && unchanged(tx)
    {
      if state.Closing? || state.Closed? {
        return;
      }
      WriteClose(code, reason);
    }

    // ---- moments at which the next poll can be foretold --------------------------------

    /** A whole upgrade response that will be accepted is at hand. */
    ghost predicate AtUpgrade()
      requires recvBuf.Valid()
      reads this, recvBuf
      ensures AtUpgrade() ==> state.Connecting?
    {
      && state.Connecting? && !failed
      && (match Http.ParseResponse(recvBuf.AsSlice())
          case Response(end) => cfg.upgradeOk(recvBuf.AsSlice()[..end])
          case _ => false)
    }

    /** What follows the upgrade response. */
    ghost function AfterUpgrade(): bytes
      requires recvBuf.Valid()
      reads recvBuf
    {
      match Http.ParseResponse(recvBuf.AsSlice())
      case Response(end) => recvBuf.AsSlice()[end + 4..]
      case _ => []
    }

    /** Between messages, with nothing held back. */
    ghost predicate AtFrame(buffered: bytes)
      requires recvBuf.Valid()
      reads this`state, this`failed, this`msgOpcode, this`borrowed, parser, recvBuf
    {
      && state.Open? && !failed && parser.state.Idle? && msgOpcode.None? && borrowed.None?
      && recvBuf.AsSlice() == buffered
    }

    /** Between messages, and the borrowed path rejects what is at hand. */
    ghost predicate AtBadFrame()
      requires recvBuf.Valid()
      reads this, parser, recvBuf
      ensures AtBadFrame() ==> state.Open?
    {
      && AtFrame(recvBuf.AsSlice()) && recvBuf.AsSlice() != []
      && BorrowedVerdict(cfg, recvBuf.AsSlice()).MustReject?
    }

    /** The streaming path has taken over, and the header is not complete with what is at hand. */
    ghost predicate AwaitsHeader(seen: bytes)
      requires recvBuf.Valid()
      reads this, parser, recvBuf
      ensures AwaitsHeader(seen) ==> state.Open?
    {
      && state.Open? && !failed && msgOpcode.None? && borrowed.None?
      && (parser.state.HeaderPartial? || (parser.state.Idle? && recvBuf.AsSlice() == []))
      && parser.Held() + recvBuf.AsSlice() == seen && ServerHeader(seen).Incomplete?
    }

    /** All that has been seen of the header is with the parser. */
    ghost predicate HoldsHeader(seen: bytes)
      requires recvBuf.Valid()
      reads this, parser, recvBuf
    {
      && state.Open? && !failed && msgOpcode.None? && borrowed.None?
      && parser.state == HeaderPartial(seen) && recvBuf.AsSlice() == []
    }

    /** The moment is still the same. */
    twostate predicate Unmoved()
      requires old(recvBuf.Valid()) && recvBuf.Valid()
      reads this, parser, recvBuf
    {
      && (old(AtUpgrade()) ==> AtUpgrade() && recvBuf.AsSlice() == old(recvBuf.AsSlice()))
      && (old(AtBadFrame()) ==> AtBadFrame())
      && (forall seen :: old(AwaitsHeader(seen)) ==> AwaitsHeader(seen))
    }

    twostate lemma SameMoment()
      requires old(recvBuf.Valid()) && recvBuf.Valid() && unchanged(parser)
      requires state == old(state) && failed == old(failed) && msgOpcode == old(msgOpcode)
      requires old(borrowed).None? ==> borrowed.None? && recvBuf.AsSlice() == old(recvBuf.AsSlice())
      requires old(state.Connecting? && !failed) ==> old(borrowed).None?
      ensures Unmoved()
    {
      hide Http.ParseResponse, ServerHeader, BorrowedVerdict;
    }

    /** What the next poll comes to at these moments. */
    twostate predicate Foretold(polled: bool, nothing: bool, rejected: bool)
      requires old(recvBuf.Valid()) && recvBuf.Valid()
      reads this, parser, recvBuf
    {
      && (old(AtUpgrade()) ==> polled && AtFrame(old(AfterUpgrade())))
      && (old(AtBadFrame()) ==> rejected)
      && (forall seen :: old(AwaitsHeader(seen)) ==> nothing && HoldsHeader(seen))
    }

    // ---- inbound: one event ------------------------------------------------------

    function BuildEvent(kind: EmitKind): (e: Event)
      requires kind.IsBorrowed() ==> borrowed.Some?
      requires borrowed.Some? ==> borrowed.value.payloadStart <= borrowed.value.payloadEnd
      requires borrowed.Some? ==> recvBuf.head <= |recvBuf.data| && borrowed.value.payloadEnd <= |recvBuf.AsSlice()|
      reads this`msgBuf, this`ctlBuf, this`borrowed, recvBuf
      ensures e.IsData() <==> kind.IsBorrowed() || kind.EmitText? || kind.EmitBinary?
    {
      match kind
      case EmitHandshake => HandshakeComplete
      case EmitText => TextMessage(msgBuf)
      case EmitBinary => BinaryMessage(msgBuf)
      case EmitBorrowedText => TextMessage(BorrowedPayload())
      case EmitBorrowedBinary => BinaryMessage(BorrowedPayload())
      case EmitPing => PingReceived(ctlBuf)
      case EmitPong => PongReceived(ctlBuf)
      case EmitClose =>
        ClosedBy(Close.ParseClosePayload(cfg.utf8, ctlBuf))
    }

    function BorrowedPayload(): (s: bytes)
      requires borrowed.Some? && borrowed.value.payloadStart <= borrowed.value.payloadEnd
      requires recvBuf.head <= |recvBuf.data| && borrowed.value.payloadEnd <= |recvBuf.AsSlice()|
      reads this`borrowed, recvBuf
    {
      recvBuf.AsSlice()[borrowed.value.payloadStart..borrowed.value.payloadEnd]
    }

    twostate predicate Answered(e: Event)
      reads this, tx
    {
      Replied(cfg.autoPong, old(state).Open?, old(tx.written), tx.written, e, state.Open?)
    }

    twostate predicate Complained(code: nat)
      reads this, tx
    {
      Complaint(old(state).Open?, old(tx.written), tx.written, code)
    }

    /** How a step of the streaming path relates to the reference run. */
    twostate predicate Advanced(r: AdvanceResult)
      requires old(recvBuf.Valid()) && recvBuf.Valid() && old(borrowed).None? && borrowed.None?
      requires r.Emit? ==> !r.kind.IsBorrowed()
      reads this, recvBuf, tx
    {
      && Forward()
      && (r.AdvanceFailed? ==> failed)
      && (r.AdvanceFailed? && !old(failed) ==> Complained(old(Future()).end.Code()))
      && (!r.AdvanceFailed? ==> failed == old(failed))
      && (r.Progressed? || r.Starved? ==> state == old(state) && tx.written == old(tx.written))
      && (r.Emit? ==> Answered(BuildEvent(r.kind)) && (r.kind.EmitText? || r.kind.EmitBinary? ==> msgOpcode.None?))
      && (!old(failed) ==>
            match r
            case Emit(kind) => old(Future()) == Future().After([BuildEvent(kind)])
            case Progressed => old(Future()) == Future()
            case Starved => old(Future()) == Future() && Stuck(Future(), Phase(), Pending())
            case AdvanceFailed(_) => Dead(old(Future())))
    }

    method AdvanceHandshake() returns (r: AdvanceResult)
      requires Inv() && Settled() && state.Connecting?
      modifies this`state, this`failed, this`held, this`base, recvBuf
      ensures Inv() && !r.Progressed?
      ensures r.Emit? ==> r.kind.EmitHandshake? && |recvBuf.AsSlice()| < |old(recvBuf.AsSlice())|
      ensures Advanced(r)
      ensures old(AtUpgrade()) ==> r.Emit? && AtFrame(old(AfterUpgrade()))
    {
      hide NoClose, OnlyPongsAfterClose, ServerHeader;
      hide Run, Http.ParseResponse, FrameSoFar, Outbox.Valid, FrameParser.Valid;
      var input := recvBuf.AsSlice();
      assert !failed ==> Pending() == input;
      HandshakeOutcome(cfg, input);
      match Http.ParseResponse(input)
      case NeedMore =>
        r := Starved;
      case TooLarge =>
        failed := true;
        r := AdvanceFailed(HttpFailure);
      case Response(end) =>
        if !cfg.upgradeOk(input[..end]) {
          failed := true;
          r := AdvanceFailed(HandshakeFailure);
        } else {
          OpenAfter(end + 4);
          r := Emit(EmitHandshake);
        }
    }

    /** The upgrade response leaves recvBuf; what follows it are frames. */
    method OpenAfter(n: nat)
      requires Inv() && Settled() && state.Connecting? && n <= |recvBuf.AsSlice()|
      modifies this`state, this`held, this`base, recvBuf
      ensures Inv() && state.Open?
      ensures recvBuf.AsSlice() == old(recvBuf.AsSlice())[n..]
      ensures !failed ==> Phase() == Framing(None) && Pending() == recvBuf.AsSlice()
    {
      hide Run, FrameSoFar, OnlyPongsAfterClose, Outbox.Valid, FrameParser.Valid, CursorBuf.Valid;
      recvBuf.Consume(n);
      state := WsState.Open;
      held, base := [], Assembled();
      assert held + recvBuf.AsSlice() == recvBuf.AsSlice();
    }

    /** A complete header was accepted by the parser; held ends with it. */
    ghost predicate AtHeader(h: FrameHeader)
      reads this, parser
    {
      && parser.state == Payload(h.len) && curOpcode.None?
      && (h.opcode.IsControl() ==> h.len <= MAX_CONTROL_PAYLOAD)
      && (!failed ==> ServerHeader(held) == Header(h, |held|) && base == Assembled())
    }

    method Reject(code: nat, reason: bytes, error: WsError) returns (r: AdvanceResult)
      requires Core() && Settled() && (state.Open? || state.Closing?) && code < 0x1_0000 && |reason| <= 123
      requires if parser.state.Payload? then ControlFits(parser.state.remaining) else curOpcode.None?
      requires !failed ==> DeadWith(Future(), code)
      modifies this`state, this`failed, tx
      ensures Inv() && r == AdvanceFailed(error) && Advanced(r) && state.Closing?
    {
      hide Run, ServerHeader, NoClose, OnlyPongsAfterClose, Outbox.Valid, FrameParser.Valid;
      QueueClose(code, reason);
      assert old(state).Open? ==> ClosesWith(tx.written[|old(tx.written)|].payload, code, reason);
      failed := true;
      r := AdvanceFailed(error);
    }

    method OnFrameStart(h: FrameHeader) returns (r: AdvanceResult)
      requires Core() && Settled() && (state.Open? || state.Closing?)
      requires AtHeader(h)
      modifies this`state, this`msgBuf, this`msgOpcode, this`ctlBuf, this`curOpcode, this`curFin, this`failed, tx
      ensures Inv() && (r.Progressed? || r.AdvanceFailed?) && Advanced(r)
    {
      hide Replied, Complaint, Run, ServerHeader, StartOk, StartVerdict, NoClose, OnlyPongsAfterClose, Outbox.Valid,
        FrameParser.Valid;
      StartVerdictExact(cfg, base, h);
      var verdict := StartVerdict(cfg, msgOpcode, |msgBuf|, h);
      if verdict.StartRefused? && !failed {
        StartRejected(cfg, base, held, recvBuf.AsSlice());
      }
      if OpensMessage(cfg, msgOpcode, h) {
        msgOpcode, msgBuf := Some(h.opcode), [];
      }
      if verdict.StartRefused? {
        r := Reject(verdict.code, verdict.reason, verdict.error);
      } else {
        AcceptFrame(h);
        r := Progressed;
      }
    }

    method AcceptFrame(h: FrameHeader)
      requires Core() && AtAccepted(h)
      modifies this`ctlBuf, this`curOpcode, this`curFin
      ensures Inv()
    {
      hide ServerHeader, StartOk, NoClose, OnlyPongsAfterClose, Outbox.Valid, FrameParser.Valid;
      if h.opcode.IsControl() {
        ctlBuf := [];
      }
      curOpcode, curFin := Some(h.opcode), h.fin;
      assert !failed ==> InFrame(h.len);
    }

    /** The header may start a frame, and a new message has been opened for it if it starts one. */
    ghost predicate AtAccepted(h: FrameHeader)
      reads this, parser
    {
      && parser.state == Payload(h.len) && borrowed.None? && !state.Connecting?
      && (h.opcode.IsControl() ==> h.len <= MAX_CONTROL_PAYLOAD)
      && (!failed ==>
            && ServerHeader(held) == Header(h, |held|) && StartOk(cfg, base, h)
            && (if h.opcode.IsControl() then base == Assembled() else Assembled() == Some(Opened(base, h))))
    }

    method OnReceivedClose() returns (r: AdvanceResult)
      requires Core() && Settled() && (state.Open? || state.Closing?)
      requires parser.state.Idle? && curOpcode.None?
      requires !failed ==> CompletesAs(Close.ParseClosePayload(cfg.utf8, ctlBuf))
      modifies this`state, this`failed, this`held, tx
      ensures Inv() && (r == Emit(EmitClose) || r.AdvanceFailed?) && Advanced(r)
    {
      hide Run, ServerHeader, Close.ParseClosePayload, Close.CloseBytes, NoClose, OnlyPongsAfterClose, Outbox.Valid,
        FrameParser.Valid;
      var parsed := Close.ParseClosePayload(cfg.utf8, ctlBuf);
      Close.ParsedCodeIsSmall(cfg.utf8, ctlBuf);
      if parsed.CloseBad? {
        r := Reject(Close.PROTOCOL_ERROR, Ascii("bad close payload"), CloseFailure(parsed.error));
        state := WsState.Closing;
      } else {
        QueueClose(if parsed.Status? then parsed.code else Close.NORMAL, []);
        state, held := WsState.Closed, [];
        assert Pending() == recvBuf.AsSlice();
        r := Emit(EmitClose);
      }
    }

    /** The frame in progress is a Close whose payload reads as c. */
    ghost predicate CompletesAs(c: Close.CloseResult)
      requires recvBuf.Valid() && borrowed.None?
      reads this, recvBuf
    {
      if c.CloseBad? then DeadWith(Future(), Close.PROTOCOL_ERROR)
      else Future() == Run(cfg, Finished, recvBuf.AsSlice()).After([ClosedBy(c)])
    }

    /** The control frame in progress is complete: this is what it yields. */
    ghost predicate ControlCompletes(opcode: OpCode)
      requires recvBuf.Valid() && borrowed.None?
      reads this, recvBuf
    {
      && base == Assembled()
      && (opcode.Ping? ==> Future() == Run(cfg, Framing(base), recvBuf.AsSlice()).After([PingReceived(ctlBuf)]))
      && (opcode.Pong? ==> Future() == Run(cfg, Framing(base), recvBuf.AsSlice()).After([PongReceived(ctlBuf)]))
      && (opcode.Close? ==> CompletesAs(Close.ParseClosePayload(cfg.utf8, ctlBuf)))
    }

    /** The data frame in progress is complete: this is what it yields. */
    ghost predicate DataCompletes()
      requires recvBuf.Valid() && borrowed.None?
      reads this, recvBuf
    {
      && msgOpcode.Some?
      && (var m := Partial(msgOpcode.value, msgBuf);
          if !curFin then Future() == Run(cfg, Framing(Some(m)), recvBuf.AsSlice())
          else if m.opcode.Text? && !TextOk(cfg, m.data) then DeadWith(Future(), Close.INVALID_PAYLOAD)
          else
            var e := if m.opcode.Text? then TextMessage(m.data) else BinaryMessage(m.data);
            Future() == Run(cfg, Framing(None), recvBuf.AsSlice()).After([e]))
    }

    lemma FrameEnds()
      requires recvBuf.Valid() && borrowed.None? && (state.Open? || state.Closing?) && InFrame(0)
      ensures curOpcode.Some?
      ensures if curOpcode.value.IsControl() then ControlCompletes(curOpcode.value) else DataCompletes()
    {
      hide Run, ServerHeader, StartOk, Close.ParseClosePayload, TextOk;
      FrameCompleted(cfg, base, held, recvBuf.AsSlice());
      AfterNothing(Run(cfg, Framing(Assembled()), recvBuf.AsSlice()));
    }

    method OnControlEnd(opcode: OpCode) returns (r: AdvanceResult)
      requires Core() && Settled() && (state.Open? || state.Closing?) && opcode.IsControl()
      requires parser.state.Idle? && curOpcode.None?
      requires !failed ==> ControlCompletes(opcode)
      modifies this`state, this`failed, this`held, tx
      ensures Inv() && ((r.Emit? && !r.kind.IsBorrowed()) || r.AdvanceFailed?) && Advanced(r)
    {
      hide Run, ServerHeader, Close.ParseClosePayload, Close.CloseBytes, NoClose, OnlyPongsAfterClose, Outbox.Valid,
        FrameParser.Valid;
      if opcode.Close? {
        r := OnReceivedClose();
        return;
      }
      if opcode.Ping? && cfg.autoPong {
        ghost var f := WriteFrame(OpCode.Pong, ctlBuf);
      }
      held := [];
      assert Pending() == recvBuf.AsSlice();
      r := Emit(if opcode.Ping? then EmitPing else EmitPong);
    }

    method OnDataEnd() returns (r: AdvanceResult)
      requires Core() && Settled() && (state.Open? || state.Closing?)
      requires parser.state.Idle? && curOpcode.None?
      requires !failed ==> DataCompletes()
      modifies this`state, this`msgOpcode, this`failed, this`held, this`base, tx
      ensures Inv() && !r.Starved? && (r.Emit? ==> !r.kind.IsBorrowed()) && Advanced(r)
    {
      hide Run, ServerHeader, TextOk, NoClose, OnlyPongsAfterClose, Outbox.Valid, FrameParser.Valid;
      if !curFin {
        held, base := [], Assembled();
        assert Pending() == recvBuf.AsSlice();
        return Progressed;
      }
      if msgOpcode.None? {
        failed := true;
        return AdvanceFailed(InternalFailure);
      }
      var opcode := msgOpcode.value;
      msgOpcode := None;
      if opcode.Text? && !TextOk(cfg, msgBuf) {
        r := Reject(Close.INVALID_PAYLOAD, Ascii("invalid utf-8"), Utf8Failure);
        return;
      }
      held, base := [], None;
      assert Pending() == recvBuf.AsSlice();
      r := Emit(if opcode.Text? then EmitText else EmitBinary);
    }

    method OnFrameEnd() returns (r: AdvanceResult)
      requires Core() && Settled() && (state.Open? || state.Closing?)
      requires parser.state.Idle? && (!failed ==> InFrame(0))
      modifies this`state, this`msgOpcode, this`curOpcode, this`failed, this`held, this`base, tx
      ensures Inv() && !r.Starved? && (r.Emit? ==> !r.kind.IsBorrowed()) && Advanced(r)
    {
      hide Replied, Complaint, Run, FrameSoFar, TextOk, Close.ParseClosePayload, NoClose, OnlyPongsAfterClose,
        Outbox.Valid, FrameParser.Valid;
      if !failed {
        FrameEnds();
      }
      if curOpcode.None? {
        failed := true;
        return AdvanceFailed(InternalFailure);
      }
      var opcode := curOpcode.value;
      curOpcode := None;
      if opcode.IsControl() {
        r := OnControlEnd(opcode);
      } else {
        r := OnDataEnd();
      }
    }

    method OnPayloadChunk(n: nat, ghost remaining: nat)
      requires Core() && Settled() && (state.Open? || state.Closing?)
      requires 0 < n <= remaining && n <= |recvBuf.AsSlice()| && parser.state == Payload(remaining - n)
      requires ControlFits(remaining) && (!failed ==> InFrame(remaining))
      modifies this`msgBuf, this`ctlBuf, this`held, recvBuf
      ensures Inv() && Advanced(Progressed)
      ensures |recvBuf.AsSlice()| == |old(recvBuf.AsSlice())| - n
    {
      hide Run, FrameSoFar, NoClose, OnlyPongsAfterClose, Outbox.Valid, FrameParser.Valid;
      var input := recvBuf.AsSlice();
      var chunk := input[..n];
      if !failed {
        FrameGrows(cfg, held, base, remaining, curOpcode, curFin, ctlBuf, msgOpcode, msgBuf, chunk);
      }
      SplitAt(input, n);
      Associative(held, chunk, input[n..]);
      if curOpcode.Some? {
        if curOpcode.value.IsControl() {
          ctlBuf := ctlBuf + chunk;
        } else {
          msgBuf := msgBuf + chunk;
        }
      }
      recvBuf.Consume(n);
      held := held + chunk;
    }

    /** The parser took the whole input and still has no complete header. */
    method OnHeaderStarved(ghost input: bytes)
      requires Core() && Settled() && (state.Open? || state.Closing?) && curOpcode.None?
      requires parser.state.HeaderPartial? && recvBuf.AsSlice() == input
      requires !failed ==>
                 && base == Assembled() && parser.state.partial == held + input
                 && ServerHeader(held + input).Incomplete?
      modifies this`held, recvBuf
      ensures Inv() && Advanced(Starved) && recvBuf.AsSlice() == []
    {
      hide Run, ServerHeader, NoClose, OnlyPongsAfterClose, Outbox.Valid, FrameParser.Valid;
      recvBuf.Consume(|recvBuf.AsSlice()|);
      held := held + input;
      assert !failed ==> Pending() == held == old(Pending());
      if !failed {
        HeaderAwaited(cfg, base, held);
      }
    }

    method OnHeaderComplete(n: nat, h: FrameHeader, ghost input: bytes) returns (r: AdvanceResult)
      requires Core() && Settled() && (state.Open? || state.Closing?) && curOpcode.None?
      requires 0 < n <= |input| && recvBuf.AsSlice() == input && parser.state == Payload(h.len)
      requires h.opcode.IsControl() ==> h.len <= MAX_CONTROL_PAYLOAD
      requires !failed ==> base == Assembled() && ServerHeader(held + input) == Header(h, |held| + n)
      modifies this`state, this`msgBuf, this`msgOpcode, this`ctlBuf, this`curOpcode, this`curFin, this`failed,
               this`held, recvBuf, tx
      ensures Inv() && (r.Progressed? || r.AdvanceFailed?) && Advanced(r)
      ensures |recvBuf.AsSlice()| < |old(recvBuf.AsSlice())|
    {
      hide Replied, Complaint, Run, ServerHeader, NoClose, OnlyPongsAfterClose, Outbox.Valid, FrameParser.Valid;
      recvBuf.Consume(n);
      HeaderAlone(held, input, n);
      SplitAt(input, n);
      Associative(held, input[..n], input[n..]);
      held := held + input[..n];
      assert !failed ==> Future() == old(Future());
      label before:
      r := OnFrameStart(h);
      assert Forward@before();
    }

    /** try_emit_borrowed_data: a whole data frame in recvBuf is lent out, not copied. */
    method TryEmitBorrowedData() returns (r: BorrowedResult)
      requires Inv() && Settled()
      modifies this`state, this`failed, this`borrowed, tx
      ensures Inv() && Forward() && lastEmitted.None?
      ensures r.BorrowFailed? ==> failed && borrowed.None? && (state.Closing? || state.Closed?)
      ensures r.BorrowFailed? && !old(failed) ==> Complained(old(Future()).end.Code())
      ensures !r.BorrowFailed? ==> failed == old(failed) && state == old(state) && unchanged(tx)
      ensures r.BorrowWait? || r.BorrowFallback? ==> borrowed.None?
      ensures r.BorrowFallback? ==> unchanged(this)
      ensures old(AtUpgrade()) ==> r.BorrowFallback? && AtUpgrade()
      ensures old(AtBadFrame()) ==> r.BorrowFailed?
      ensures forall seen :: old(AwaitsHeader(seen)) ==> r.BorrowFallback? && AwaitsHeader(seen)
      ensures r.BorrowEmit? ==>
                borrowed.Some? && borrowed.value.frameLen > 0 && r.kind.IsBorrowed() && parser.state.Idle?
      ensures !old(failed) ==>
                match r
                case BorrowEmit(kind) => old(Future()) == Future().After([BuildEvent(kind)])
                case BorrowWait => Stuck(Future(), Phase(), Pending())
                case BorrowFallback => true
                case BorrowFailed(_) => Dead(old(Future()))
    {
      hide Replied, Complaint, Run, FrameSoFar, BorrowedVerdict, NoClose, OnlyPongsAfterClose, Outbox.Valid,
        FrameParser.Valid;
      if !state.Open? || !parser.IsIdle() || msgOpcode.Some? || recvBuf.IsEmpty() {
        return BorrowFallback;
      }
      assert !failed ==> Pending() == recvBuf.AsSlice();
      var verdict := BorrowedVerdict(cfg, recvBuf.AsSlice());
      BorrowedRefinesRun(cfg, recvBuf.AsSlice());
      if verdict.MustReject? {
        var a := Reject(verdict.code, verdict.reason, verdict.error);
        r := BorrowFailed(verdict.error);
      } else if verdict.MayEmit? {
        borrowed := Some(Borrowed(verdict.headerLen, verdict.frameLen, verdict.frameLen));
        r := BorrowEmit(verdict.kind);
      } else {
        r := if verdict.MustWait? then BorrowWait else BorrowFallback;
      }
    }

    method OnFeedError(e: FrameError) returns (r: AdvanceResult)
      requires Core() && Settled() && (state.Open? || state.Closing?) && curOpcode.None? && !parser.state.Payload?
      requires !failed ==> ServerHeader(held + recvBuf.AsSlice()).Bad?
      modifies this`state, this`failed, tx
      ensures Inv() && r.AdvanceFailed? && Advanced(r)
    {
      hide Replied, Complaint, Run, ServerHeader, NoClose, OnlyPongsAfterClose, Outbox.Valid, FrameParser.Valid;
      if !failed {
        HeaderRejected(cfg, base, Pending(), []);
        assert Pending() + [] == Pending();
      }
      r := Reject(Close.PROTOCOL_ERROR, Ascii("frame parse error"), FrameFailure(e));
    }

    lemma PayloadStarved(remaining: nat)
      requires recvBuf.Valid() && recvBuf.AsSlice() == [] && borrowed.None? && (state.Open? || state.Closing?)
      requires remaining > 0 && (!failed ==> InFrame(remaining))
      ensures !failed ==> Stuck(Future(), Phase(), Pending())
    {
      hide Run, ServerHeader, StartOk;
      if !failed {
        PayloadAwaited(cfg, base, held);
        assert Pending() == held;
      }
    }

    method AdvanceFrame() returns (r: AdvanceResult)
      requires Inv() && Settled() && (state.Open? || state.Closing?)
      modifies this`state, this`msgBuf, this`msgOpcode, this`ctlBuf, this`curOpcode, this`curFin, this`failed,
               this`held, this`base, parser, recvBuf, tx
      ensures Inv() && (r.Emit? ==> !r.kind.IsBorrowed() && parser.state.Idle?) && Advanced(r)
      ensures forall seen :: old(AwaitsHeader(seen)) ==> r.Starved? && HoldsHeader(seen)
      ensures r.Emit? || r.Progressed? ==>
                || |recvBuf.AsSlice()| < |old(recvBuf.AsSlice())|
                || (|recvBuf.AsSlice()| == |old(recvBuf.AsSlice())| && old(parser.state).Payload? && parser.state.Idle?)
    {
      hide Replied, Complaint, Run, ServerHeader, StartOk, NoClose, OnlyPongsAfterClose, Outbox.Valid, InFrame;
      var input := recvBuf.AsSlice();
      ghost var before, seen := parser.state, parser.Held() + input;
      var o := parser.FeedOne(input);
      match o
      case FeedError(e) =>
        r := OnFeedError(e);
      case NeedMore(consumed) =>
        if parser.state.Payload? {
          PayloadStarved(before.remaining);
          r := Starved;
        } else {
          OnHeaderStarved(input);
          r := Starved;
        }
      case FrameStart(consumed, h) =>
        ControlHeaderIsSmall(seen);
        r := OnHeaderComplete(consumed, h, input);
      case PayloadChunk(consumed, chunk) =>
        OnPayloadChunk(consumed, before.remaining);
        r := Progressed;
      case FrameEnd(consumed) =>
        r := OnFrameEnd();
    }

    // ---- inbound: polling and draining -----------------------------------------------

    /** Bytes in recvBuf that no emitted event still borrows. */
    ghost function Left(): int
      requires recvBuf.Valid()
      reads this, recvBuf
    {
      |recvBuf.AsSlice()| - if borrowed.Some? then borrowed.value.frameLen else 0
    }

    ghost function Busy(): nat
      reads parser
    {
      if parser.state.Payload? then 1 else 0
    }

    method ClearAfterEmit()
      requires Valid()
      modifies this`lastEmitted, this`borrowed, this`msgBuf, this`ctlBuf, recvBuf
      ensures Valid() && Settled()
      ensures !failed ==> Future() == old(Future()) && Pending() == old(Pending())
      ensures |recvBuf.AsSlice()| == old(Left())
      ensures old(borrowed).None? ==> recvBuf.AsSlice() == old(recvBuf.AsSlice())
    {
      hide ServerHeader, Close.ParseClosePayload, BorrowedVerdict;
      hide Replied, Complaint, Run, FrameSoFar, NoClose, OnlyPongsAfterClose, Outbox.Valid, FrameParser.Valid;
      if lastEmitted.Some? {
        var kind := lastEmitted.value;
        if kind.EmitText? || kind.EmitBinary? {
          msgBuf := [];
        } else if kind.EmitPing? || kind.EmitPong? || kind.EmitClose? {
          ctlBuf := [];
        } else if kind.IsBorrowed() {
          recvBuf.Consume(borrowed.value.frameLen);
          borrowed := None;
        }
        lastEmitted := None;
      }
      assert !failed ==> Pending() == old(Pending());
    }

    /** feed_recv: more bytes behind the undecoded ones. */
    method FeedRecv(input: bytes)
      requires Valid()
      modifies this`fed, recvBuf
      ensures Valid() && fed == old(fed) + input
      ensures recvBuf.AsSlice() == old(recvBuf.AsSlice()) + input
      ensures Pending() == old(Pending()) + input
    {
      hide Run, FrameSoFar, NoClose, OnlyPongsAfterClose, Outbox.Valid, FrameParser.Valid;
      ghost var pending, buffered := Pending(), recvBuf.AsSlice();
      recvBuf.ExtendFromSlice(input);
      if borrowed.Some? {
        DropAppend(buffered, borrowed.value.frameLen, input);
      } else {
        Associative(held, buffered, input);
      }
      assert Pending() == pending + input;
      if failed {
        DeadStays(cfg, Handshaking, fed, input);
      } else {
        HistoryAppend(cfg, fed, emitted, Phase(), pending, input);
      }
      fed := fed + input;
    }

    /** What one poll may do to the history. */
    twostate predicate PollSpec(r: PollResult)
      requires recvBuf.Valid() && (borrowed.Some? ==> borrowed.value.frameLen <= |recvBuf.AsSlice()|)
      reads this, recvBuf, tx
    {
      && Forward() && fed == old(fed)
      && (r.PollFailed? ==> failed && (state.Closing? || state.Closed?))
      && (r.PollFailed? && !old(failed) ==> Complained(Code()))
      && (r.Nothing? ==> state == old(state) && tx.written == old(tx.written))
      && (!r.PollFailed? ==> failed == old(failed))
      && (r.Polled? ==> Answered(r.event))
      && emitted == (if !old(failed) && r.Polled? then old(emitted) + [r.event] else old(emitted))
      && (!old(failed) && r.Nothing? ==> Stuck(Future(), Phase(), Pending()))
    }

    method EmitNow(kind: EmitKind) returns (r: PollResult)
      requires Inv() && lastEmitted.None? && parser.state.Idle?
      requires borrowed.Some? <==> kind.IsBorrowed()
      requires kind.EmitText? || kind.EmitBinary? ==> msgOpcode.None?
      requires !failed ==> Run(cfg, Handshaking, fed) == Future().After([BuildEvent(kind)]).After(emitted)
      requires failed ==> History()
      modifies this`lastEmitted, this`emitted
      ensures Valid() && r == Polled(BuildEvent(kind))
      ensures emitted == if failed then old(emitted) else old(emitted) + [r.event]
    {
      hide Replied, Complaint, Run, FrameSoFar, NoClose, OnlyPongsAfterClose, Outbox.Valid, FrameParser.Valid,
        BuildEvent;
      var e := BuildEvent(kind);
      if !failed {
        AfterTwice(Future(), [e], emitted);
        emitted := emitted + [e];
      }
      lastEmitted := Some(kind);
      r := Polled(e);
    }

    /** How one turn of poll_event ends: with an answer, or ready for another turn. */
    twostate predicate StepSpec(done: bool, r: PollResult)
      requires old(recvBuf.Valid()) && old(borrowed).None?
      requires recvBuf.Valid() && (borrowed.Some? ==> borrowed.value.frameLen <= |recvBuf.AsSlice()|)
      reads this, recvBuf, parser, tx
    {
      && (done ==> PollSpec(r))
      && (!done ==>
            && Settled() && r.Nothing?
            && state == old(state) && failed == old(failed) && fed == old(fed) && emitted == old(emitted)
            && tx.written == old(tx.written) && (!failed ==> Future() == old(Future())))
      && (!done || r.Polled? ==>
            Left() < |old(recvBuf.AsSlice())| || (Left() == |old(recvBuf.AsSlice())| && Busy() < old(Busy())))
    }

    /** One turn of poll_event: the borrowed path first, then the streaming path. */
    method PollStep() returns (done: bool, r: PollResult)
      requires Valid() && Settled()
      modifies this, parser, recvBuf, tx
      ensures Valid() && StepSpec(done, r)
      ensures Foretold(done && r.Polled?, done && r.Nothing?, done && r.PollFailed?)
    {
      hide AtUpgrade, AtFrame, AtBadFrame, AwaitsHeader, HoldsHeader, Replied, Complaint, Run, Valid, Stuck,
        Http.ParseResponse;
      done, r := true, Nothing;
      if state.Closed? {
        FinishedIsStuck(cfg, Pending());
        ClosedPhase();
        return;
      }
      var fallback;
      fallback, r := BorrowStep();
      if fallback {
        done, r := StreamStep();
      }
    }

    lemma ClosedPhase()
      requires Valid() && state.Closed?
      ensures !failed ==> Future() == Run(cfg, Finished, Pending()) && Phase() == Finished
    {
      hide Run;
    }

    /** The borrowed path of a turn: an answer, or nothing has happened. */
    method BorrowStep() returns (fallback: bool, r: PollResult)
      requires Valid() && Settled() && !state.Closed?
      modifies this`state, this`failed, this`borrowed, this`lastEmitted, this`emitted, tx
      ensures Valid()
      ensures fallback ==> unchanged(this) && unchanged(tx)
      ensures !fallback ==> StepSpec(true, r) && Foretold(r.Polled?, r.Nothing?, r.PollFailed?)
      ensures old(AtUpgrade()) ==> fallback && AtUpgrade()
      ensures forall seen :: old(AwaitsHeader(seen)) ==> fallback && AwaitsHeader(seen)
      ensures old(AtBadFrame()) ==> !fallback
    {
      hide AtUpgrade, AtFrame, AtBadFrame, AwaitsHeader, HoldsHeader, Http.ParseResponse;
      hide Replied, Complaint, Run, FrameSoFar, NoClose, OnlyPongsAfterClose, Outbox.Valid, FrameParser.Valid;
      hide BuildEvent;
      fallback, r := false, Nothing;
      var b := TryEmitBorrowedData();
      match b {
        case BorrowEmit(kind) =>
          r := EmitNow(kind);
          NoReply(cfg.autoPong, state.Open?, tx.written, r.event);
        case BorrowWait =>
        case BorrowFailed(e) => r := PollFailed(e);
        case BorrowFallback => fallback := true;
      }
    }

    method StreamStep() returns (done: bool, r: PollResult)
      requires Valid() && Settled() && !state.Closed?
      modifies this, parser, recvBuf, tx
      ensures Valid() && StepSpec(done, r)
      ensures old(AtUpgrade()) ==> done && r.Polled? && AtFrame(old(AfterUpgrade()))
      ensures forall seen :: old(AwaitsHeader(seen)) ==> done && r.Nothing? && HoldsHeader(seen)
    {
      hide AtUpgrade, AtFrame, AtBadFrame, AwaitsHeader, HoldsHeader, AfterUpgrade, ServerHeader, Stuck;
      hide Replied, Complaint, Run, FrameSoFar, NoClose, OnlyPongsAfterClose, Outbox.Valid, FrameParser.Valid,
        BuildEvent;
      done, r := true, Nothing;
      var a := Advance();
      match a {
        case Emit(kind) => r := EmitNow(kind);
        case Progressed => done := false;
        case Starved =>
        case AdvanceFailed(e) =>
          if !state.Closing? {
            state := WsState.Closed;
          }
          r := PollFailed(e);
      }
    }

    /** advance. */
    method Advance() returns (r: AdvanceResult)
      requires Inv() && Settled() && !state.Closed?
      modifies this`state, this`msgBuf, this`msgOpcode, this`ctlBuf, this`curOpcode, this`curFin, this`failed,
               this`held, this`base, parser, recvBuf, tx
      ensures Inv() && (r.Emit? ==> !r.kind.IsBorrowed() && parser.state.Idle?) && Advanced(r)
      ensures old(AtUpgrade()) ==> r.Emit? && AtFrame(old(AfterUpgrade()))
      ensures forall seen :: old(AwaitsHeader(seen)) ==> r.Starved? && HoldsHeader(seen)
      ensures r.Emit? || r.Progressed? ==>
                || |recvBuf.AsSlice()| < |old(recvBuf.AsSlice())|
                || (|recvBuf.AsSlice()| == |old(recvBuf.AsSlice())| && Busy() < old(Busy()))
    {
      if state.Connecting? {
        r := AdvanceHandshake();
      } else {
        r := AdvanceFrame();
      }
    }

    method PollEvent() returns (r: PollResult)
      requires Valid()
      modifies this, parser, recvBuf, tx
      ensures Valid() && PollSpec(r) && Foretold(r.Polled?, r.Nothing?, r.PollFailed?)
      ensures r.Polled? ==> Left() < old(Left()) || (Left() == old(Left()) && Busy() < old(Busy()))
    {
      hide AtUpgrade, AtFrame, AtBadFrame, AwaitsHeader, HoldsHeader, Http.ParseResponse, Valid, Stuck;
      hide Replied, Complaint, Run, Outbox.Valid, FrameParser.Valid;
      NothingLent();
      ClearAfterEmit();
      SameMoment();
      var done := false;
      r := Nothing;
      while !done
        invariant Valid()
        invariant !done ==>
                    && Settled() && state == old(state) && failed == old(failed) && fed == old(fed)
                    && emitted == old(emitted) && tx.written == old(tx.written)
                    && (!failed ==> Future() == old(Future()))
        invariant done ==> PollSpec(r)
        invariant if done then Foretold(r.Polled?, r.Nothing?, r.PollFailed?) else Unmoved()
        invariant !done || r.Polled? ==> Left() <= old(Left()) && (Left() == old(Left()) ==> Busy() <= old(Busy()))
        invariant done && r.Polled? ==> Left() < old(Left()) || (Left() == old(Left()) && Busy() < old(Busy()))
        decreases !done, Left(), Busy()
      {
        done, r := PollStep();
      }
    }

    lemma NothingLent()
      requires Valid()
      ensures state.Connecting? && !failed ==> borrowed.None?
    {
      hide Run, FrameSoFar, NoClose, OnlyPongsAfterClose, Outbox.Valid, FrameParser.Valid;
    }

    // ---- inbound: the direct path ------------------------------------------------------

    /** queue_fast_data_frame_error. */
    method QueueFastDataFrameError(e: FastError) returns (error: WsError)
      requires Core() && !state.Connecting?
      modifies this`state, tx
      ensures Core() && (old(state).Open? ==> state.Closing?) && (!old(state).Open? ==> state == old(state))
      ensures old(tx.written) <= tx.written && Complained(FastCode(e))
    {
      hide NoClose, OnlyPongsAfterClose, Outbox.Valid, FrameParser.Valid, Close.CloseBytes;
      ghost var reason;
      match e {
        case BadFrame(f) =>
          reason := Ascii("frame parse error");
          QueueClose(Close.PROTOCOL_ERROR, Ascii("frame parse error"));
          error := FrameFailure(f);
        case FrameTooLarge =>
          reason := Ascii("frame too large");
          QueueClose(Close.MESSAGE_TOO_BIG, Ascii("frame too large"));
          error := TooLargeFailure;
        case MessageTooLarge =>
          reason := Ascii("message exceeds max_message_size");
          QueueClose(Close.MESSAGE_TOO_BIG, Ascii("message exceeds max_message_size"));
          error := TooLargeFailure;
        case Utf8Invalid =>
          reason := Ascii("invalid utf-8");
          QueueClose(Close.INVALID_PAYLOAD, Ascii("invalid utf-8"));
          error := Utf8Failure;
      }
      assert old(state).Open? ==> ClosesWith(tx.written[|old(tx.written)|].payload, FastCode(e), reason);
    }

    /** Between messages, with nothing held back: whole frames can be read in place. */
    ghost predicate BetweenFrames()
      reads this, parser
    {
      state.Open? && parser.state.Idle? && msgOpcode.None? && borrowed.None?
    }

    /** What the direct loop did to the history, given what it scanned. */
    twostate predicate DirectSpec(scan: Scan, rejected: bool)
      requires recvBuf.Valid() && borrowed.None?
      reads this, recvBuf, tx
    {
      && Forward()
      && (rejected <==> scan.verdict.Reject?)
      && (rejected ==> failed && state.Closing? && Complained(FastCode(scan.verdict.error)))
      && (rejected && !old(failed) ==> FastCode(scan.verdict.error) == Code())
      && (!rejected ==> failed == old(failed) && state == old(state) && tx.written == old(tx.written))
      && emitted == (if old(failed) then old(emitted) else old(emitted) + scan.events)
      && (!failed && (scan.verdict.WaitForMore? || scan.verdict.Drained?) ==> Stuck(Future(), Phase(), Pending()))
    }

    /** Takes a scanned prefix off the undecoded bytes; recvBuf holds exactly what is left. */
    method AcceptScan(ghost input: bytes, scan: Scan) returns (error: Option<WsError>)
      requires Inv() && Settled() && BetweenFrames() && scan == ScanFrames(cfg, input)
      requires !scan.verdict.Reject? ==> recvBuf.AsSlice() == input[scan.consumed..]
      requires !failed ==> Run(cfg, Handshaking, fed) == Run(cfg, Framing(None), input).After(emitted)
      requires failed ==> History()
      modifies this`state, this`failed, this`emitted, tx
      ensures Valid() && Settled() && DirectSpec(scan, error.Some?)
    {
      hide Replied, Complaint, Run, FrameSoFar, ScanFrames, NoClose, OnlyPongsAfterClose, Outbox.Valid,
        FrameParser.Valid;
      ghost var rest := input[scan.consumed..];
      ScanRefinesRun(cfg, input);
      AfterTwice(Run(cfg, Framing(None), rest), scan.events, emitted);
      if !failed {
        emitted := emitted + scan.events;
      }
      error := None;
      if scan.verdict.Reject? {
        var e := QueueFastDataFrameError(scan.verdict.error);
        failed := true;
        error := Some(e);
      } else {
        assert !failed ==> Pending() == rest;
      }
    }

    /** The prefix that was read in place leaves recvBuf. */
    method ConsumeScan(ghost input: bytes, scan: Scan) returns (error: Option<WsError>)
      requires Valid() && Settled() && BetweenFrames()
      requires recvBuf.AsSlice() == input && scan == ScanFrames(cfg, input)
      modifies this`state, this`failed, this`emitted, recvBuf, tx
      ensures Valid() && Settled() && DirectSpec(scan, error.Some?)
      ensures |recvBuf.AsSlice()| == |old(recvBuf.AsSlice())| - scan.consumed
    {
      hide Replied, Complaint, Run, FrameSoFar, ScanFrames, NoClose, OnlyPongsAfterClose, Outbox.Valid,
        FrameParser.Valid;
      assert !failed ==> Pending() == input;
      recvBuf.Consume(scan.consumed);
      error := AcceptScan(input, scan);
    }

    /** try_drain_data_events: over recvBuf. */
    method TryDrainDataEvents() returns (scan: Scan, error: Option<WsError>)
      requires Valid() && Settled()
      modifies this`state, this`failed, this`emitted, recvBuf, tx
      ensures Valid() && Settled() && DirectSpec(scan, error.Some?)
      ensures |recvBuf.AsSlice()| <= |old(recvBuf.AsSlice())|
      ensures scan.verdict.Drained? ==> |recvBuf.AsSlice()| < |old(recvBuf.AsSlice())|
      ensures forall e <- scan.events :: e.IsData()
    {
      hide Run, Valid, ScanFrames;
      if !state.Open? || !parser.IsIdle() || msgOpcode.Some? || recvBuf.IsEmpty() {
        return Scan([], 0, FallBack), None;
      }
      var input := recvBuf.AsSlice();
      ScanConsumes(cfg, input);
      var events, consumed, verdict := DrainFrames(cfg, input);
      scan := Scan(events, consumed, verdict);
      error := ConsumeScan(input, scan);
    }

    // ---- draining -------------------------------------------------------------------

    /** All data events that the bytes at hand yield have gone to the sink. */
    twostate predicate DrainSpec(r: DrainResult, out: seq<Event>)
      requires recvBuf.Valid() && (borrowed.Some? ==> borrowed.value.frameLen <= |recvBuf.AsSlice()|)
      reads this, recvBuf, tx
    {
      && Forward() && fed == old(fed)
      && (r.DrainFailed? ==> failed && (state.Closing? || state.Closed?))
      && (r.DrainOk? ==> failed == old(failed))
      && (!old(failed) ==> DataOf(emitted) == DataOf(old(emitted)) + out)
      && (!old(failed) ==> Spoke(cfg.autoPong, old(Outside()), Outside(), Code()))
      && (!old(failed) && r.DrainOk? ==>
            Stuck(Future(), Phase(), Pending()) && |emitted| == |old(emitted)| + r.count)
    }

    /** How one turn of drain_data_events ends. */
    twostate predicate TurnSpec(r: DrainTurn, out: seq<Event>, count: nat)
      requires old(recvBuf.Valid()) && recvBuf.Valid()
      requires borrowed.Some? ==> borrowed.value.frameLen <= |recvBuf.AsSlice()|
      reads this, recvBuf, parser, tx
    {
      && Forward() && fed == old(fed)
      && (r.TurnFailed? ==> failed && (state.Closing? || state.Closed?))
      && (!r.TurnFailed? ==> failed == old(failed))
      && (!old(failed) ==> DataOf(emitted) == DataOf(old(emitted)) + out)
      && (!old(failed) ==> Spoke(cfg.autoPong, old(Outside()), Outside(), Code()))
      && (!failed ==> |emitted| == |old(emitted)| + count)
      && (!failed && r.TurnEnds? ==> Stuck(Future(), Phase(), Pending()))
      && (r.TurnGoesOn? ==> Left() < old(Left()) || (Left() == old(Left()) && Busy() < old(Busy())))
    }

    /** The fallback of a turn: one general event, of which data goes to the sink. */
    method PollTurn() returns (r: DrainTurn, out: seq<Event>, count: nat)
      requires Valid()
      modifies this, parser, recvBuf, tx
      ensures Valid() && TurnSpec(r, out, count) && |out| <= 1
    {
      hide Run, Valid, DataOf, Replied, Complaint, Spoke;
      out, count := [], 0;
      var p := PollEvent();
      if !old(failed) {
        PollSpoke(cfg.autoPong, old(Outside()), Outside(), p, Code());
      }
      match p
      case Nothing => r := TurnEnds;
      case PollFailed(e) => r := TurnFailed(e);
      case Polled(e) =>
        LogPolled(DataOf(old(emitted)), old(emitted), [], e);
        r, count := TurnGoesOn, 1;
        out := if e.IsData() then [e] else [];
    }

    /** drain_data_events, one turn of its loop. */
    method DrainOnce() returns (r: DrainTurn, out: seq<Event>, count: nat)
      requires Valid()
      modifies this, parser, recvBuf, tx
      ensures Valid() && TurnSpec(r, out, count)
    {
      hide Run, Valid, DataOf, Spoke, Complaint, Stuck, FastCode;
      ClearAfterEmit();
      var scan, error := TryDrainDataEvents();
      ghost var between := Outside();
      if !old(failed) {
        SpokeScan(cfg.autoPong, old(Outside()), between, scan.events, Code());
      }
      LogData(DataOf(old(emitted)), old(emitted), [], scan.events);
      out, count := scan.events, |scan.events|;
      if error.Some? {
        r := TurnFailed(error.value);
      } else if scan.verdict.Drained? {
        r := TurnGoesOn;
      } else if scan.verdict.WaitForMore? {
        r := TurnEnds;
      } else {
        ghost var log := emitted;
        var more, n;
        r, more, n := PollTurn();
        if !old(failed) {
          SpokeTwice(cfg.autoPong, old(Outside()), between, Outside(), Code(), Code());
        }
        Associative(DataOf(old(emitted)), out, more);
        out, count := out + more, count + n;
      }
    }

    /** drain_data_events. */
    method DrainDataEvents() returns (r: DrainResult, out: seq<Event>)
      requires Valid()
      modifies this, parser, recvBuf, tx
      ensures Valid() && DrainSpec(r, out)
    {
      hide Run, Valid, DataOf, Spoke;
      var count: nat, turn := 0, TurnGoesOn;
      out := [];
      if !failed {
        SpokeNothing(cfg.autoPong, Outside(), Code());
      }
      while turn.TurnGoesOn?
        invariant Valid() && Forward() && fed == old(fed)
        invariant turn.TurnFailed? ==> failed && (state.Closing? || state.Closed?)
        invariant !turn.TurnFailed? ==> failed == old(failed)
        invariant !old(failed) ==> DataOf(emitted) == DataOf(old(emitted)) + out
        invariant !old(failed) ==> Spoke(cfg.autoPong, old(Outside()), Outside(), Code())
        invariant !failed ==> |emitted| == |old(emitted)| + count
        invariant !failed && turn.TurnEnds? ==> Stuck(Future(), Phase(), Pending())
        decreases turn.TurnGoesOn?, Left(), Busy()
      {
        ghost var between := Outside();
        var more, n;
        turn, more, n := DrainOnce();
        if !old(failed) {
          SpokeTwice(cfg.autoPong, old(Outside()), between, Outside(), Code(), Code());
        }
        Associative(DataOf(old(emitted)), out, more);
        out, count := out + more, count + n;
      }
      r := if turn.TurnFailed? then DrainFailed(turn.error) else DrainOk(count);
    }

    /** can_drain_ingress_directly. */
    predicate CanDrainIngressDirectly()
      requires recvBuf.Valid()
      reads this, parser, recvBuf
    {
      state.Open? && parser.IsIdle() && msgOpcode.None? && recvBuf.IsEmpty() && borrowed.None?
    }

    /** What a prefix scanned straight from the ingress bytes leaves behind goes to recvBuf. */
    method AcceptIngress(input: bytes, scan: Scan) returns (error: Option<WsError>)
      requires Valid() && Settled() && CanDrainIngressDirectly() && scan == ScanFrames(cfg, input)
      modifies this`state, this`failed, this`fed, this`emitted, recvBuf, tx
      ensures Valid() && Settled() && fed == old(fed) + input && DirectSpec(scan, error.Some?)
    {
      hide Run, FrameSoFar, ScanFrames, NoClose, OnlyPongsAfterClose, Outbox.Valid, FrameParser.Valid;
      assert !failed ==> Phase() == Framing(None) && Pending() == [];
      if failed {
        DeadStays(cfg, Handshaking, fed, input);
      } else {
        HistoryAppend(cfg, fed, emitted, Framing(None), [], input);
        assert [] + input == input;
      }
      fed := fed + input;
      if !scan.verdict.Reject? {
        recvBuf.ExtendFromSlice(input[scan.consumed..]);
        assert recvBuf.AsSlice() == input[scan.consumed..];
      }
      error := AcceptScan(input, scan);
    }

    /** Everything the stream so far and the new chunk yield, and nothing else, went to the sink. */
    twostate predicate IngressSpec(input: bytes, ok: bool, count: nat, out: seq<Event>)
      requires old(recvBuf.Valid())
      requires old(borrowed).Some? ==> old(borrowed).value.frameLen <= |old(recvBuf.AsSlice())|
      requires recvBuf.Valid() && (borrowed.Some? ==> borrowed.value.frameLen <= |recvBuf.AsSlice()|)
      reads this, recvBuf, tx
    {
      && Forward() && fed == old(fed) + input
      && (!ok ==> failed && (state.Closing? || state.Closed?))
      && (ok ==> failed == old(failed))
      && (!old(failed) ==> Spoke(cfg.autoPong, old(Outside()), Outside(), Code()))
      && (!old(failed) ==>
            var whole := Run(cfg, old(Phase()), old(Pending()) + input);
            && emitted == old(emitted) + whole.events && out == DataOf(whole.events)
            && (ok ==>
                  !whole.end.Failed? && Phase() == whole.phase && Pending() == whole.rest && count == |whole.events|)
            && (!ok ==> !whole.end.Waiting?))
    }

    lemma IngressClosed(input: bytes, ok: bool, out: seq<Event>, fed0: bytes, emitted0: seq<Event>, phase0: Phase,
                        pending0: bytes)
      requires recvBuf.Valid() && (borrowed.Some? ==> borrowed.value.frameLen <= |recvBuf.AsSlice()|)
      requires fed == fed0 + input && Run(cfg, Handshaking, fed0) == Run(cfg, phase0, pending0).After(emitted0)
      requires History() && ok == !failed && DataOf(emitted) == DataOf(emitted0) + out
      requires ok ==> Stuck(Future(), Phase(), Pending())
      ensures var whole := Run(cfg, phase0, pending0 + input);
              && out == DataOf(whole.events) && emitted == emitted0 + whole.events
              && (ok ==> !whole.end.Failed? && Phase() == whole.phase && Pending() == whole.rest)
              && (!ok ==> !whole.end.Waiting?)
    {
      hide Run, DataOf;
      HistoryAppend(cfg, fed0, emitted0, phase0, pending0, input);
      var whole := Run(cfg, phase0, pending0 + input);
      assert emitted == emitted0 + whole.events;
      DataOfAppend(emitted0, whole.events);
      Cancel(DataOf(emitted0), out, DataOf(whole.events));
    }

    /** drain_data_events_from_ingress. */
    method DrainDataEventsFromIngress(input: bytes) returns (r: DrainResult, out: seq<Event>)
      requires Valid()
      modifies this, parser, recvBuf, tx
      ensures Valid() && IngressSpec(input, r.DrainOk?, if r.DrainOk? then r.count else 0, out)
    {
      hide Run, Valid, DataOf, ScanFrames, Spoke;
      ghost var fed0, emitted0, phase0, pending0 := fed, emitted, Phase(), Pending();
      HistoryHolds();
      r, out := IngestAndDrain(input);
      if !old(failed) {
        HistoryHolds();
        IngressClosed(input, r.DrainOk?, out, fed0, emitted0, phase0, pending0);
      }
    }

    lemma HistoryHolds()
      requires Valid()
      ensures Basic() && History()
    {
    }

    method IngestAndDrain(input: bytes) returns (r: DrainResult, out: seq<Event>)
      requires Valid()
      modifies this, parser, recvBuf, tx
      ensures Valid() && Forward() && fed == old(fed) + input
      ensures r.DrainFailed? ==> failed && (state.Closing? || state.Closed?)
      ensures r.DrainOk? ==>
                && failed == old(failed)
                && (!failed ==> Stuck(Future(), Phase(), Pending()) && |emitted| == |old(emitted)| + r.count)
      ensures !old(failed) ==> DataOf(emitted) == DataOf(old(emitted)) + out
      ensures !old(failed) ==> Spoke(cfg.autoPong, old(Outside()), Outside(), Code())
    {
      hide Run, Valid, DataOf, ScanFrames, Spoke, Complaint;
      ClearAfterEmit();
      if input != [] && CanDrainIngressDirectly() {
        var scan, error := ScanIngress(input);
        ghost var between := Outside();
        out := scan.events;
        if error.Some? {
          r := DrainFailed(error.value);
        } else if scan.verdict.FallBack? {
          var more;
          r, more := DrainDataEvents();
          if !old(failed) {
            SpokeTwice(cfg.autoPong, old(Outside()), between, Outside(), Code(), Code());
          }
          Associative(DataOf(old(emitted)), out, more);
          out := out + more;
          if r.DrainOk? {
            r := DrainOk(|scan.events| + r.count);
          }
        } else {
          r := DrainOk(|scan.events|);
        }
      } else {
        FeedRecv(input);
        r, out := DrainDataEvents();
      }
    }

    /** try_drain_ingress_data_events, and what it leaves in recvBuf. */
    method ScanIngress(input: bytes) returns (scan: Scan, error: Option<WsError>)
      requires Valid() && Settled() && CanDrainIngressDirectly()
      modifies this`state, this`failed, this`fed, this`emitted, recvBuf, tx
      ensures Valid() && Settled() && fed == old(fed) + input && DirectSpec(scan, error.Some?)
      ensures scan == ScanFrames(cfg, input)
      ensures !old(failed) ==> DataOf(emitted) == DataOf(old(emitted)) + scan.events
      ensures !old(failed) ==> Spoke(cfg.autoPong, old(Outside()), Outside(), Code())
    {
      hide Run, Valid, DataOf, ScanFrames, Spoke, Complaint, Stuck, FastCode, ParseCompleteServerDataFrame;
      var events, consumed, verdict := DrainFrames(cfg, input);
      scan := Scan(events, consumed, verdict);
      error := AcceptIngress(input, scan);
      if !old(failed) {
        SpokeScan(cfg.autoPong, old(Outside()), Outside(), scan.events, Code());
      }
      LogData(DataOf(old(emitted)), old(emitted), [], events);
    }

    // ---- batched and marked delivery ------------------------------------------------------

    /** try_drain_data_event_batches_marked: over recvBuf. */
    method TryDrainBatches(start: Counters)
      returns (batches: seq<Batch>, scan: Scan, error: Option<WsError>, next: Counters)
      requires Valid() && Settled() && start.InRange()
      modifies this`state, this`failed, this`emitted, recvBuf, tx
      ensures Valid() && Settled() && DirectSpec(scan, error.Some?)
      ensures |recvBuf.AsSlice()| <= |old(recvBuf.AsSlice())|
      ensures scan.verdict.Drained? ==> |recvBuf.AsSlice()| < |old(recvBuf.AsSlice())|
      ensures scan.events == Unmarked(Flatten(batches)) && forall e <- scan.events :: e.IsData()
      ensures Numbered(Flatten(batches), start) && next == start.Plus(|Flatten(batches)|) && next.InRange()
    {
      hide Run, Valid, ScanFrames;
      EmptyLog(start);
      if !state.Open? || !parser.IsIdle() || msgOpcode.Some? || recvBuf.IsEmpty() {
        return [], Scan([], 0, FallBack), None, start;
      }
      var input := recvBuf.AsSlice();
      ScanConsumes(cfg, input);
      var consumed, verdict;
      batches, consumed, verdict, next := DrainFramesBatched(cfg, input, start);
      scan := Scan(Unmarked(Flatten(batches)), consumed, verdict);
      error := ConsumeScan(input, scan);
    }

    /** The fallback of a batched turn: a data event is a batch of its own. */
    method PollBatch(start: Counters) returns (r: DrainTurn, batches: seq<Batch>, count: nat, next: Counters)
      requires Valid() && start.InRange()
      modifies this, parser, recvBuf, tx
      ensures Valid() && TurnSpec(r, Unmarked(Flatten(batches)), count)
      ensures Numbered(Flatten(batches), start) && next == start.Plus(|Flatten(batches)|)
    {
      hide Run, Valid, DataOf, Replied, Complaint, Spoke;
      EmptyLog(start);
      var out;
      batches, next := [], start;
      r, out, count := PollTurn();
      if out != [] {
        var m := MarkedEvent(out[0], start.index, start.sequence);
        batches, next := [Batch([m], true)], start.Plus(1);
        FlattenAppend([], Batch([m], true));
        assert Flatten(batches) == [m];
        assert Unmarked([m]) == out;
      }
    }

    /** One turn of drain_data_event_batches_marked_from_index. */
    method BatchOnce(start: Counters) returns (r: DrainTurn, batches: seq<Batch>, count: nat, next: Counters)
      requires Valid() && start.InRange()
      modifies this, parser, recvBuf, tx
      ensures Valid() && TurnSpec(r, Unmarked(Flatten(batches)), count)
      ensures Numbered(Flatten(batches), start) && next == start.Plus(|Flatten(batches)|)
    {
      hide Run, Valid, DataOf, Flatten, Numbered, Unmarked, Counters.Plus, Spoke, Complaint, Stuck, FastCode;
      ClearAfterEmit();
      var scan, error;
      batches, scan, error, next := TryDrainBatches(start);
      ghost var between := Outside();
      if !old(failed) {
        SpokeScan(cfg.autoPong, old(Outside()), between, scan.events, Code());
      }
      LogData(DataOf(old(emitted)), old(emitted), [], scan.events);
      count := |scan.events|;
      if error.Some? {
        r := TurnFailed(error.value);
      } else if scan.verdict.Drained? {
        r := TurnGoesOn;
      } else if scan.verdict.WaitForMore? {
        r := TurnEnds;
      } else {
        var more, n;
        r, more, n, next := PollBatch(next);
        if !old(failed) {
          SpokeTwice(cfg.autoPong, old(Outside()), between, Outside(), Code(), Code());
        }
        JoinBatches(batches, more, start);
        Associative(DataOf(old(emitted)), scan.events, Unmarked(Flatten(more)));
        batches, count := batches + more, count + n;
      }
    }

    /** drain_data_event_batches_marked_from_index. */
    method DrainBatches(start: Counters) returns (r: DrainResult, batches: seq<Batch>, next: Counters)
      requires Valid() && start.InRange()
      modifies this, parser, recvBuf, tx
      ensures Valid() && DrainSpec(r, Unmarked(Flatten(batches)))
      ensures Numbered(Flatten(batches), start) && next == start.Plus(|Flatten(batches)|)
    {
      hide Run, Valid, DataOf, Flatten, Numbered, Unmarked, Spoke;
      var count: nat, turn := 0, TurnGoesOn;
      batches, next := [], start;
      if !failed {
        SpokeNothing(cfg.autoPong, Outside(), Code());
      }
      EmptyLog(start);
      while turn.TurnGoesOn?
        invariant Valid() && Forward() && fed == old(fed) && next.InRange()
        invariant turn.TurnFailed? ==> failed && (state.Closing? || state.Closed?)
        invariant !turn.TurnFailed? ==> failed == old(failed)
        invariant !old(failed) ==> DataOf(emitted) == DataOf(old(emitted)) + Unmarked(Flatten(batches))
        invariant !old(failed) ==> Spoke(cfg.autoPong, old(Outside()), Outside(), Code())
        invariant Numbered(Flatten(batches), start) && next == start.Plus(|Flatten(batches)|)
        invariant !failed ==> |emitted| == |old(emitted)| + count
        invariant !failed && turn.TurnEnds? ==> Stuck(Future(), Phase(), Pending())
        decreases turn.TurnGoesOn?, Left(), Busy()
      {
        ghost var between := Outside();
        var more, n;
        turn, more, n, next := BatchOnce(next);
        if !old(failed) {
          SpokeTwice(cfg.autoPong, old(Outside()), between, Outside(), Code(), Code());
        }
        JoinBatches(batches, more, start);
        Associative(DataOf(old(emitted)), Unmarked(Flatten(batches)), Unmarked(Flatten(more)));
        batches, count := batches + more, count + n;
      }
      r := if turn.TurnFailed? then DrainFailed(turn.error) else DrainOk(count);
    }

    /** The chunk is read in place to its end, without falling back to the streaming path. */
    ghost predicate GoesDirect(input: bytes)
      requires recvBuf.Valid()
      reads this, parser, recvBuf
    {
      && state.Open? && parser.IsIdle() && msgOpcode.None? && recvBuf.IsEmpty() && borrowed.None?
      && lastEmitted.None? && input != [] && !ScanFrames(cfg, input).verdict.FallBack?
    }

    /** drain_data_event_batches_from_ingress_marked_with_message_sequence. */
    method DrainBatchesFromIngress(input: bytes, sequence: nat)
      returns (r: DrainResult, batches: seq<Batch>, next: Counters)
      requires Valid() && sequence <= MAX_SEQUENCE
      modifies this, parser, recvBuf, tx
      ensures Valid() && IngressSpec(input, r.DrainOk?, if r.DrainOk? then r.count else 0, Unmarked(Flatten(batches)))
      ensures Numbered(Flatten(batches), Counters(0, sequence))
      ensures next == Counters(0, sequence).Plus(|Flatten(batches)|)
      ensures old(GoesDirect(input)) ==> Shaped(batches, true)
    {
      hide Run, Valid, DataOf, ScanFrames, Flatten, Numbered, Unmarked, Shaped, Spoke;
      ghost var fed0, emitted0, phase0, pending0 := fed, emitted, Phase(), Pending();
      HistoryHolds();
      r, batches, next := IngestBatches(input, sequence);
      if !old(failed) {
        HistoryHolds();
        IngressClosed(input, r.DrainOk?, Unmarked(Flatten(batches)), fed0, emitted0, phase0, pending0);
      }
    }

    method IngestBatches(input: bytes, sequence: nat) returns (r: DrainResult, batches: seq<Batch>, next: Counters)
      requires Valid() && sequence <= MAX_SEQUENCE
      modifies this, parser, recvBuf, tx
      ensures Valid() && Forward() && fed == old(fed) + input
      ensures r.DrainFailed? ==> failed && (state.Closing? || state.Closed?)
      ensures r.DrainOk? ==>
                && failed == old(failed)
                && (!failed ==> Stuck(Future(), Phase(), Pending()) && |emitted| == |old(emitted)| + r.count)
      ensures !old(failed) ==> DataOf(emitted) == DataOf(old(emitted)) + Unmarked(Flatten(batches))
      ensures !old(failed) ==> Spoke(cfg.autoPong, old(Outside()), Outside(), Code())
      ensures Numbered(Flatten(batches), Counters(0, sequence))
      ensures next == Counters(0, sequence).Plus(|Flatten(batches)|)
      ensures old(GoesDirect(input)) ==> Shaped(batches, true)
    {
      hide Run, Valid, DataOf, ScanFrames, Flatten, Numbered, Unmarked, Shaped, Spoke;
      var start := Counters(0, sequence);
      ClearAfterEmit();
      if input != [] && CanDrainIngressDirectly() {
        r, batches, next := IngestBatchesDirectly(input, start);
      } else {
        FeedRecv(input);
        r, batches, next := DrainBatches(start);
      }
    }

    method IngestBatchesDirectly(input: bytes, start: Counters)
      returns (r: DrainResult, batches: seq<Batch>, next: Counters)
      requires Valid() && Settled() && start.InRange() && CanDrainIngressDirectly()
      modifies this, parser, recvBuf, tx
      ensures Valid() && Forward() && fed == old(fed) + input
      ensures r.DrainFailed? ==> failed && (state.Closing? || state.Closed?)
      ensures r.DrainOk? ==>
                && failed == old(failed)
                && (!failed ==> Stuck(Future(), Phase(), Pending()) && |emitted| == |old(emitted)| + r.count)
      ensures !old(failed) ==> DataOf(emitted) == DataOf(old(emitted)) + Unmarked(Flatten(batches))
      ensures !old(failed) ==> Spoke(cfg.autoPong, old(Outside()), Outside(), Code())
      ensures Numbered(Flatten(batches), start) && next == start.Plus(|Flatten(batches)|)
      ensures !ScanFrames(cfg, input).verdict.FallBack? ==> Shaped(batches, true)
    {
      hide Run, Valid, DataOf, ScanFrames, Flatten, Numbered, Unmarked, Shaped, Counters.Plus, Spoke, Complaint;
      var scan, error;
      batches, scan, error, next := ScanIngressBatches(input, start);
      ghost var between := Outside();
      if error.Some? {
        r := DrainFailed(error.value);
      } else if scan.verdict.FallBack? {
        var more;
        r, more, next := DrainBatches(next);
        if !old(failed) {
          SpokeTwice(cfg.autoPong, old(Outside()), between, Outside(), Code(), Code());
        }
        JoinBatches(batches, more, start);
        Associative(DataOf(old(emitted)), scan.events, Unmarked(Flatten(more)));
        batches := batches + more;
        if r.DrainOk? {
          r := DrainOk(|scan.events| + r.count);
        }
      } else {
        r := DrainOk(|scan.events|);
      }
    }

    /** try_drain_ingress_data_event_batches_marked, and what it leaves in recvBuf. */
    method ScanIngressBatches(input: bytes, start: Counters)
      returns (batches: seq<Batch>, scan: Scan, error: Option<WsError>, next: Counters)
      requires Valid() && Settled() && start.InRange() && CanDrainIngressDirectly()
      modifies this`state, this`failed, this`fed, this`emitted, recvBuf, tx
      ensures Valid() && Settled() && fed == old(fed) + input && DirectSpec(scan, error.Some?)
      ensures scan == ScanFrames(cfg, input) && scan.events == Unmarked(Flatten(batches))
      ensures !old(failed) ==> DataOf(emitted) == DataOf(old(emitted)) + scan.events
      ensures !old(failed) ==> Spoke(cfg.autoPong, old(Outside()), Outside(), Code())
      ensures Numbered(Flatten(batches), start) && next == start.Plus(|Flatten(batches)|) && next.InRange()
      ensures Shaped(batches, !scan.verdict.FallBack?)
    {
      hide Run, Valid, DataOf, ScanFrames, Flatten, Numbered, Unmarked, Shaped, Spoke, Complaint;
      var consumed, verdict;
      batches, consumed, verdict, next := DrainFramesBatched(cfg, input, start);
      scan := Scan(Unmarked(Flatten(batches)), consumed, verdict);
      error := AcceptIngress(input, scan);
      if !old(failed) {
        SpokeScan(cfg.autoPong, old(Outside()), Outside(), scan.events, Code());
      }
      LogData(DataOf(old(emitted)), old(emitted), [], scan.events);
    }
  }

  lemma PollSpoke(autoPong: bool, a: Side, b: Side, r: PollResult, code: nat)
    requires !a.failed && (b.failed <==> r.PollFailed?)
    requires b.emitted == if r.Polled? then a.emitted + [r.event] else a.emitted
    requires match r
             case Nothing => b.open == a.open && b.written == a.written
             case Polled(e) => Replied(autoPong, a.open, a.written, b.written, e, b.open)
             case PollFailed(_) => !b.open && Complaint(a.open, a.written, b.written, code)
    ensures Spoke(autoPong, a, b, code)
  {
    hide Spoke, Replied, Complaint;
    if r.Polled? {
      SpokeEvent(autoPong, a, b, r.event, code);
    } else {
      assert a.emitted + [] == a.emitted;
      SpokeScan(autoPong, a, b, [], code);
    }
  }

  lemma JoinBatches(a: seq<Batch>, b: seq<Batch>, start: Counters)
    requires start.InRange() && Numbered(Flatten(a), start) && Numbered(Flatten(b), start.Plus(|Flatten(a)|))
    ensures Flatten(a + b) == Flatten(a) + Flatten(b)
    ensures Unmarked(Flatten(a + b)) == Unmarked(Flatten(a)) + Unmarked(Flatten(b))
    ensures Numbered(Flatten(a + b), start)
    ensures start.Plus(|Flatten(a + b)|) == start.Plus(|Flatten(a)|).Plus(|Flatten(b)|)
  {
    hide Flatten, Numbered, Unmarked;
    FlattenConcat(a, b);
    NumberedConcat(Flatten(a), Flatten(b), start);
  }

  /** Whether a whole data frame is acceptable on its own. */
  predicate Acceptable(cfg: Config, h: FrameHeader, payload: bytes) {
    h.len <= cfg.maxFrame && h.len <= cfg.maxMessage && (h.opcode.Text? ==> TextOk(cfg, payload))
  }

  /**
   On every complete unfragmented data frame between messages, the direct, the borrowed and the
   streaming path deliver the same payload from the same bytes, or all reject; the direct path
   may instead step aside, and does so only for a 64-bit length.
   */
  lemma ThreePathsAgree(cfg: Config, buf: bytes)
    requires ServerHeader(buf).Header?
    requires ServerHeader(buf).h.fin && ServerHeader(buf).h.opcode in {Text, Binary}
    requires |buf| >= ServerHeader(buf).size + ServerHeader(buf).h.len
    ensures var Header(h, size) := ServerHeader(buf);
            var payload := buf[size..size + h.len];
            var event := if h.opcode.Text? then TextMessage(payload) else BinaryMessage(payload);
            var direct, lent := ParseCompleteServerDataFrame(cfg, buf), BorrowedVerdict(cfg, buf);
            && (if Acceptable(cfg, h, payload) then
                  && StepAt(cfg, Framing(None), buf) == Next(Framing(None), size + h.len, Some(event))
                  && lent.MayEmit? && lent.frameLen == size + h.len && lent.headerLen == size
                  && BorrowedEvent(lent.kind, buf[lent.headerLen..lent.frameLen]) == event
                  && (direct == Complete(event, size + h.len) || direct == Fallback)
                else
                  && lent.MustReject? && StepAt(cfg, Framing(None), buf) == Fail(lent.code)
                  && ((direct.Rejected? && FastCode(direct.error) == lent.code) || direct == Fallback))
            && (direct == Fallback <==> size == 10)
  {
    hide TextOk, ServerHeader, ParseHeader;
    ServerHeaderAgrees(buf);
    WholeDataFrame(cfg, buf);
    DirectHeader(buf);
  }

  lemma DirectHeader(buf: bytes)
    requires ServerHeader(buf).Header? && ParseHeader(buf) == ServerHeader(buf)
    requires ServerHeader(buf).h.fin && ServerHeader(buf).h.opcode in {Text, Binary}
    ensures var Header(h, size) := ServerHeader(buf);
            ParseServerDataHeaderFast(buf) == if size == 10 then FastFallback else FastParsed(h.opcode, size, h.len)
  {
    FastRefinesParseHeader(buf);
  }

  /** The same two bytes are rejected at once by the direct path and awaited by the streaming parser. */
  lemma ReportTimeDependsOnPath(cfg: Config)
    ensures var buf: bytes := [0xC1, 0x7E];
            && ParseCompleteServerDataFrame(cfg, buf) == Rejected(BadFrame(RsvBitsSet))
            && ServerHeader(buf) == Incomplete
            && Run(cfg, Framing(None), buf).end == Doomed
  {
    RunStops(cfg, Framing(None), [0xC1, 0x7E]);
  }

  lemma Cancel<T>(a: seq<T>, b: seq<T>, c: seq<T>)
    requires a + b == a + c
    ensures b == c
  {
    assert b == (a + b)[|a|..] && c == (a + c)[|a|..];
  }

  lemma {:induction false} DataOfData(events: seq<Event>)
    requires forall e <- events :: e.IsData()
    ensures DataOf(events) == events
  {
    if events != [] {
      DataOfData(events[1..]);
      assert events == [events[0]] + events[1..];
    }
  }

  lemma LogData(before: seq<Event>, log: seq<Event>, out: seq<Event>, events: seq<Event>)
    requires forall e <- events :: e.IsData()
    ensures DataOf(log) == before + out ==> DataOf(log + events) == before + (out + events)
  {
    hide DataOf;
    DataOfAppend(log, events);
    DataOfData(events);
    Associative(before, out, events);
  }

  lemma LogPolled(before: seq<Event>, log: seq<Event>, out: seq<Event>, e: Event)
    ensures DataOf(log) == before + out ==>
              DataOf(log + [e]) == before + (out + if e.IsData() then [e] else [])
  {
    DataOfAppend(log, [e]);
    assert DataOf([e]) == if e.IsData() then [e] else [];
    Associative(before, out, if e.IsData() then [e] else []);
  }

  lemma FinishedIsStuck(cfg: Config, pending: bytes)
    ensures Stuck(Run(cfg, Finished, pending), Finished, pending)
  {
    RunStops(cfg, Finished, pending);
  }

  lemma ControlHeaderIsSmall(buf: bytes)
    ensures ServerHeader(buf).Header? && ServerHeader(buf).h.opcode.IsControl() ==>
              ServerHeader(buf).h.len <= MAX_CONTROL_PAYLOAD
  {
  }

  lemma HeaderAlone(held: bytes, input: bytes, n: nat)
    requires n <= |input|
    ensures ServerHeader(held + input).Header? && ServerHeader(held + input).size == |held| + n ==>
              ServerHeader(held + input[..n]) == ServerHeader(held + input)
  {
    hide ParseHeader;
    var all, front := held + input, held + input[..n];
    if ServerHeader(all).Header? && ServerHeader(all).size == |held| + n {
      WholeHeaderDecided(all);
      assert all[..|held| + n] == front == front[..|held| + n];
    }
  }
}
