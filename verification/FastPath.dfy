/** The fast parse of whole, unfragmented data frames, src/ws/client.rs:2428-2534. */
module FastPath {
  import opened Bytes
  import opened Frame
  import opened Decoder
  import Close

  datatype FastHeader =
    | FastNeedMore
    | FastFallback
    | FastBad(error: FrameError)
    | FastParsed(opcode: OpCode, headerLen: nat, payloadLen: nat)

  /** parse_server_data_header_fast. */
  function ParseServerDataHeaderFast(buf: bytes): (r: FastHeader)
    ensures r.FastParsed? ==> (r.opcode.Text? || r.opcode.Binary?) && 2 <= r.headerLen <= |buf|
  {
    if |buf| < 2 then FastNeedMore
    else
      var b0, b1 := buf[0], buf[1];
      if (b0 / 16) % 8 != 0 then FastBad(RsvBitsSet)
      else if b1 >= 128 then FastBad(ServerSentMaskedFrame)
      else if b0 < 128 then FastFallback
      else
        match OpCodeFrom(b0 % 16)
        case None => FastBad(InvalidOpCode(b0 % 16))
        case Some(opcode) =>
          if !(opcode.Text? || opcode.Binary?) then FastFallback
          else
            var len7 := b1 % 128;
            if len7 <= 125 then FastParsed(opcode, 2, len7)
            else if len7 == 126 then
              if |buf| < 4 then FastNeedMore
              else
                var val := FromBE(buf[2..4]);
                if val < 126 then FastBad(NonMinimalPayloadLength) else FastParsed(opcode, 4, val)
            else FastFallback
  }

  /** The frames that the fast parser leaves to the general one. */
  predicate LeftToGeneralParser(buf: bytes) {
    |buf| >= 2 && (buf[0] < 128 || buf[0] % 16 in {0, 8, 9, 10} || buf[1] % 128 == 127)
  }

  /** On unmasked input the fast parser is parse_header, except where it steps aside. */
  lemma FastRefinesParseHeader(buf: bytes)
    requires |buf| >= 2 ==> buf[1] < 128
    ensures match ParseServerDataHeaderFast(buf)
            case FastFallback => LeftToGeneralParser(buf)
            case FastNeedMore => ParseHeader(buf) == Incomplete
            case FastBad(e) => ParseHeader(buf) == Bad(e)
            case FastParsed(opcode, headerLen, payloadLen) =>
              ParseHeader(buf) == Header(FrameHeader(true, opcode, None, payloadLen), headerLen)
  {
  }

  datatype FastFrame =
    | NeedMoreBytes
    | Fallback
    | Rejected(error: FastError)
    | Complete(event: Event, frameLen: nat)

  datatype FastError = BadFrame(error: FrameError) | FrameTooLarge | MessageTooLarge | Utf8Invalid

  /** The code that tells the server what a fast path found wrong. */
  function FastCode(e: FastError): (code: nat)
    ensures code < 0x1_0000
  {
    match e
    case BadFrame(_) => Close.PROTOCOL_ERROR
    case FrameTooLarge => Close.MESSAGE_TOO_BIG
    case MessageTooLarge => Close.MESSAGE_TOO_BIG
    case Utf8Invalid => Close.INVALID_PAYLOAD
  }

  /** parse_complete_server_data_frame. */
  function ParseCompleteServerDataFrame(cfg: Config, buf: bytes): (r: FastFrame)
    ensures r.Complete? ==> 0 < r.frameLen <= |buf| && r.event.IsData()
  {
    match ParseServerDataHeaderFast(buf)
    case FastNeedMore => NeedMoreBytes
    case FastFallback => Fallback
    case FastBad(e) => Rejected(BadFrame(e))
    case FastParsed(opcode, headerLen, payloadLen) =>
      if payloadLen > cfg.maxFrame then Rejected(FrameTooLarge)
      else if payloadLen > cfg.maxMessage then Rejected(MessageTooLarge)
      else if |buf| < headerLen + payloadLen then NeedMoreBytes
      else
        var payload := buf[headerLen..headerLen + payloadLen];
        if opcode.Text? then
          if TextOk(cfg, payload) then Complete(TextMessage(payload), headerLen + payloadLen) else Rejected(Utf8Invalid)
        else Complete(BinaryMessage(payload), headerLen + payloadLen)
  }

  /** Between messages the fast path takes the reference step, or steps aside. */
  lemma FastRefinesStep(cfg: Config, buf: bytes)
    ensures match ParseCompleteServerDataFrame(cfg, buf)
            case Complete(event, frameLen) =>
              StepAt(cfg, Framing(None), buf) == Next(Framing(None), frameLen, Some(event))
            case NeedMoreBytes => StepAt(cfg, Framing(None), buf) == Wait
            case Rejected(e) =>
              var s := StepAt(cfg, Framing(None), buf);
              s == Fail(FastCode(e)) || (s == Doom && FastCode(e) == Close.PROTOCOL_ERROR)
            case Fallback => LeftToGeneralParser(buf)
  {
    if |buf| >= 2 && buf[1] >= 128 {
      ServerHeaderAgrees(buf);
      MaskedNeverAccepted(buf);
    } else {
      FastRefinesParseHeader(buf);
      ServerHeaderAgrees(buf);
      UnmaskedNotDoomed(buf);
      WholeDataFrame(cfg, buf);
    }
  }

  lemma MaskedNeverAccepted(buf: bytes)
    requires |buf| >= 2 && buf[1] >= 128
    ensures ServerHeader(buf).Bad? || DoomedHeader(buf)
  {
    if |buf| >= HeaderSize(buf[1]) {
      WholeHeaderDecided(buf);
    }
  }

  lemma UnmaskedNotDoomed(buf: bytes)
    requires |buf| >= 2 ==> buf[1] < 128
    ensures DoomedHeader(buf) ==> ParseHeader(buf).Bad?
  {
  }

  lemma WholeDataFrame(cfg: Config, buf: bytes)
    ensures match ServerHeader(buf)
            case Header(h, size) =>
              h.fin && h.opcode in {Text, Binary} ==>
                FramingStep(cfg, None, buf) ==
                (if h.len > cfg.maxFrame || h.len > cfg.maxMessage then Fail(Close.MESSAGE_TOO_BIG)
                 else if |buf| < size + h.len then Wait
                 else MessageStep(cfg, Partial(h.opcode, buf[size..size + h.len]), size + h.len))
            case _ => true
  {
    hide ServerHeader;
    match ServerHeader(buf)
    case Header(h, size) =>
      if h.fin && h.opcode in {Text, Binary} && h.len <= cfg.maxFrame && h.len <= cfg.maxMessage
         && |buf| >= size + h.len {
        var payload := buf[size..size + h.len];
        assert [] + payload == payload;
      }
    case _ =>
  }

  // ---- the direct loop ----------------------------------------------------------

  datatype Verdict = Drained | WaitForMore | FallBack | Reject(error: FastError)

  datatype Scan = Scan(events: seq<Event>, consumed: nat, verdict: Verdict)

  /** Whole data frames from the front of the input, up to the first that is not one. */
  function ScanFrames(cfg: Config, input: bytes): (s: Scan)
    ensures s.consumed <= |input|
    ensures forall e <- s.events :: e.IsData()
    decreases |input|
  {
    if input == [] then Scan([], 0, Drained)
    else
      match ParseCompleteServerDataFrame(cfg, input)
      case NeedMoreBytes => Scan([], 0, WaitForMore)
      case Fallback => Scan([], 0, FallBack)
      case Rejected(e) => Scan([], 0, Reject(e))
      case Complete(event, frameLen) =>
        var tail := ScanFrames(cfg, input[frameLen..]);
        Scan([event] + tail.events, frameLen + tail.consumed, tail.verdict)
  }

  /** The loop of try_drain_data_events and of try_drain_ingress_data_events. */
  method DrainFrames(cfg: Config, input: bytes) returns (events: seq<Event>, consumed: nat, verdict: Verdict)
    ensures Scan(events, consumed, verdict) == ScanFrames(cfg, input)
  {
    hide ParseCompleteServerDataFrame;
    events, consumed := [], 0;
    var rest := input;
    while true
      invariant consumed <= |input| && rest == input[consumed..]
      invariant ScanFrames(cfg, input) == Continue(events, consumed, ScanFrames(cfg, rest))
      decreases |rest|
    {
      if rest == [] {
        return events, consumed, Drained;
      }
      match ParseCompleteServerDataFrame(cfg, rest)
      case NeedMoreBytes => return events, consumed, WaitForMore;
      case Fallback => return events, consumed, FallBack;
      case Rejected(e) => return events, consumed, Reject(e);
      case Complete(event, frameLen) =>
        ContinueTwice(events, consumed, [event], frameLen, ScanFrames(cfg, rest[frameLen..]));
        events := events + [event];
        consumed, rest := consumed + frameLen, rest[frameLen..];
    }
  }

  function Continue(events: seq<Event>, consumed: nat, later: Scan): (s: Scan) {
    Scan(events + later.events, consumed + later.consumed, later.verdict)
  }

  lemma ContinueTwice(a: seq<Event>, n: nat, b: seq<Event>, m: nat, later: Scan)
    ensures Continue(a, n, Continue(b, m, later)) == Continue(a + b, n + m, later)
  {
  }

  /** Between messages, the direct loop decodes a prefix of the reference run. */
  lemma {:induction false} ScanRefinesRun(cfg: Config, input: bytes)
    ensures var s := ScanFrames(cfg, input);
            var rest := input[s.consumed..];
            && Run(cfg, Framing(None), input) == Run(cfg, Framing(None), rest).After(s.events)
            && (s.verdict.Drained? ==> rest == [])
            && (s.verdict.WaitForMore? || s.verdict.Drained? ==>
                  Stuck(Run(cfg, Framing(None), rest), Framing(None), rest))
            && (s.verdict.FallBack? ==> rest != [])
            && (s.verdict.Reject? ==> DeadWith(Run(cfg, Framing(None), rest), FastCode(s.verdict.error)))
    decreases |input|
  {
    hide StepAt, ParseCompleteServerDataFrame, Run, FastCode;
    var s := ScanFrames(cfg, input);
    if input == [] {
      EmptyIsStuck(cfg);
    } else {
      FastRefinesStep(cfg, input);
      match ParseCompleteServerDataFrame(cfg, input)
      case Complete(event, frameLen) =>
        var tail := input[frameLen..];
        ScanRefinesRun(cfg, tail);
        RunNext(cfg, Framing(None), input);
        var later := ScanFrames(cfg, tail);
        assert input[s.consumed..] == tail[later.consumed..];
        AfterTwice(Run(cfg, Framing(None), tail[later.consumed..]), later.events, [event]);
      case Fallback =>
        assert input[0..] == input;
        AfterNothing(Run(cfg, Framing(None), input));
      case _ =>
        assert input[0..] == input;
        AfterNothing(Run(cfg, Framing(None), input));
        RunStops(cfg, Framing(None), input);
    }
  }

  lemma {:induction false} ScanConsumes(cfg: Config, input: bytes)
    ensures ScanFrames(cfg, input).verdict.Drained? ==> ScanFrames(cfg, input).consumed == |input|
    decreases |input|
  {
    hide ParseCompleteServerDataFrame;
    if input != [] {
      match ParseCompleteServerDataFrame(cfg, input)
      case Complete(event, frameLen) => ScanConsumes(cfg, input[frameLen..]);
      case _ =>
    }
  }

  lemma EmptyIsStuck(cfg: Config)
    ensures Stuck(Run(cfg, Framing(None), []), Framing(None), [])
    ensures Run(cfg, Framing(None), []).After([]) == Run(cfg, Framing(None), [])
  {
    HeaderAwaited(cfg, None, []);
  }
}
