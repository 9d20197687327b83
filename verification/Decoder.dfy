/**
 The reference decoder: what a byte stream from the server means, without buffers,
 without paths and without chunks. Sections 5.2 to 5.5 and 7.4 of RFC 6455, with the
 limits and the handshake of src/ws/client.rs.
 */
module Decoder {
  import opened Bytes
  import opened Frame
  import Close
  import Http

  /** Validity of UTF-8 and acceptance of the upgrade response are parameters. */
  datatype Config = Config(
    maxFrame: nat,
    maxMessage: nat,
    autoPong: bool,
    assumeUtf8: bool,
    utf8: bytes -> bool,
    upgradeOk: bytes -> bool,
    request: bytes)

  datatype Event =
    | HandshakeComplete
    | TextMessage(payload: bytes)
    | BinaryMessage(payload: bytes)
    | PingReceived(payload: bytes)
    | PongReceived(payload: bytes)
    | CloseReceived(code: nat, reason: bytes)
  {
    predicate IsData() { TextMessage? || BinaryMessage? }
  }

  /** A fragmented message: the opcode that opened it and what has been assembled. */
  datatype Partial = Partial(opcode: OpCode, data: bytes)

  datatype Phase = Handshaking | Framing(partial: Option<Partial>) | Finished

  datatype Step =
    | Wait
    | Doom
    | Fail(code: nat)
    | Next(phase: Phase, consumed: nat, event: Option<Event>)

  /** Whether a frame may start here: limits, and the order of fragments. */
  predicate StartOk(cfg: Config, partial: Option<Partial>, h: FrameHeader) {
    && h.len <= cfg.maxFrame
    && (h.opcode.IsControl()
        || (if h.opcode.Continuation?
            then partial.Some? && |partial.value.data| + h.len <= cfg.maxMessage
            else partial.None? && h.len <= cfg.maxMessage))
  }

  /** What is wrong with a frame that may not start: section 7.4.1 of RFC 6455. */
  function StartCode(cfg: Config, partial: Option<Partial>, h: FrameHeader): (code: nat) {
    if h.len <= cfg.maxFrame && (h.opcode.Continuation? <==> partial.None?) then Close.PROTOCOL_ERROR
    else Close.MESSAGE_TOO_BIG
  }

  function Opened(partial: Option<Partial>, h: FrameHeader): (p: Partial)
    requires h.opcode.Continuation? ==> partial.Some?
  {
    if h.opcode.Continuation? then partial.value else Partial(h.opcode, [])
  }

  predicate TextOk(cfg: Config, payload: bytes) {
    cfg.assumeUtf8 || cfg.utf8(payload)
  }

  function MessageStep(cfg: Config, message: Partial, consumed: nat): (s: Step) {
    if message.opcode.Text? then
      if TextOk(cfg, message.data) then Next(Framing(None), consumed, Some(TextMessage(message.data)))
      else Fail(Close.INVALID_PAYLOAD)
    else Next(Framing(None), consumed, Some(BinaryMessage(message.data)))
  }

  /** A whole frame, with a header that was allowed to start. */
  function FrameStep(cfg: Config, partial: Option<Partial>, h: FrameHeader, payload: bytes, consumed: nat): (s: Step)
    requires h.opcode.Continuation? ==> partial.Some?
  {
    match h.opcode
    case Ping => Next(Framing(partial), consumed, Some(PingReceived(payload)))
    case Pong => Next(Framing(partial), consumed, Some(PongReceived(payload)))
    case Close =>
      (match Close.ParseClosePayload(cfg.utf8, payload)
       case CloseBad(_) => Fail(Close.PROTOCOL_ERROR)
       case NoStatus => Next(Finished, consumed, Some(CloseReceived(Close.NO_STATUS, [])))
       case Status(code, reason) => Next(Finished, consumed, Some(CloseReceived(code, reason))))
    case _ =>
      var message := Partial(Opened(partial, h).opcode, Opened(partial, h).data + payload);
      if h.fin then MessageStep(cfg, message, consumed)
      else Next(Framing(Some(message)), consumed, None)
  }

  function FramingStep(cfg: Config, partial: Option<Partial>, pending: bytes): (s: Step)
    ensures s.Next? ==> 0 < s.consumed <= |pending|
  {
    match ServerHeader(pending)
    case Incomplete => if DoomedHeader(pending) then Doom else Wait
    case Bad(_) => Fail(Close.PROTOCOL_ERROR)
    case Header(h, size) =>
      if !StartOk(cfg, partial, h) then Fail(StartCode(cfg, partial, h))
      else if |pending| < size + h.len then Wait
      else FrameStep(cfg, partial, h, pending[size..size + h.len], size + h.len)
  }

  /** A refusal during the handshake has no code: nothing can be written yet. */
  function HandshakeStep(cfg: Config, pending: bytes): (s: Step)
    ensures s.Next? ==> 0 < s.consumed <= |pending|
  {
    match Http.ParseResponse(pending)
    case NeedMore => Wait
    case TooLarge => Fail(Close.PROTOCOL_ERROR)
    case Response(end) =>
      if cfg.upgradeOk(pending[..end]) then Next(Framing(None), end + 4, Some(HandshakeComplete))
      else Fail(Close.PROTOCOL_ERROR)
  }

  /** The next thing at the front of the undecoded bytes. */
  function StepAt(cfg: Config, phase: Phase, pending: bytes): (s: Step)
    ensures s.Next? ==> 0 < s.consumed <= |pending|
  {
    match phase
    case Handshaking => HandshakeStep(cfg, pending)
    case Framing(partial) => FramingStep(cfg, partial, pending)
    case Finished => Wait
  }

  datatype End = Waiting | Doomed | Failed(code: nat) {
    /** The close code that tells the server why; a header that is bound to fail is a protocol error. */
    function Code(): (c: nat) { if Failed? then code else Close.PROTOCOL_ERROR }
  }

  datatype Outcome = Outcome(events: seq<Event>, end: End, phase: Phase, rest: bytes) {
    function After(earlier: seq<Event>): (o: Outcome) {
      this.(events := earlier + events)
    }
  }

  function Opt(event: Option<Event>): (s: seq<Event>) {
    if event.Some? then [event.value] else []
  }

  /** Everything that can be decoded from the bytes at hand. */
  function Run(cfg: Config, phase: Phase, pending: bytes): (o: Outcome)
    decreases |pending|
  {
    match StepAt(cfg, phase, pending)
    case Wait => Outcome([], Waiting, phase, pending)
    case Doom => Outcome([], Doomed, phase, pending)
    case Fail(code) => Outcome([], Failed(code), phase, pending)
    case Next(next, consumed, event) => Run(cfg, next, pending[consumed..]).After(Opt(event))
  }

  function DataOf(events: seq<Event>): (r: seq<Event>) {
    if events == [] then []
    else (if events[0].IsData() then [events[0]] else []) + DataOf(events[1..])
  }

  lemma {:induction false} DataOfAppend(a: seq<Event>, b: seq<Event>)
    ensures DataOf(a + b) == DataOf(a) + DataOf(b)
  {
    if a == [] {
      assert a + b == b;
    } else {
      assert (a + b)[1..] == a[1..] + b && (a + b)[0] == a[0];
      DataOfAppend(a[1..], b);
      var head := if a[0].IsData() then [a[0]] else [];
      assert head + (DataOf(a[1..]) + DataOf(b)) == (head + DataOf(a[1..])) + DataOf(b);
    }
  }

  // ---- steps do not depend on how much more has arrived ----------------------------

  lemma FramingStepStable(cfg: Config, partial: Option<Partial>, s: bytes, more: bytes)
    ensures var step, later := FramingStep(cfg, partial, s), FramingStep(cfg, partial, s + more);
            && (step.Next? || step.Fail? ==> later == step)
            && (step.Doom? ==> later.Doom? || later == Fail(Close.PROTOCOL_ERROR))
  {
    ServerVerdictStable(s, more);
    match ServerHeader(s)
    case Header(h, size) =>
      if StartOk(cfg, partial, h) && |s| >= size + h.len {
        assert (s + more)[size..size + h.len] == s[size..size + h.len];
      }
    case _ =>
  }

  lemma StepStable(cfg: Config, phase: Phase, s: bytes, more: bytes)
    ensures var step, later := StepAt(cfg, phase, s), StepAt(cfg, phase, s + more);
            && (step.Next? || step.Fail? ==> later == step)
            && (step.Doom? ==> later.Doom? || later == Fail(Close.PROTOCOL_ERROR))
  {
    match phase
    case Handshaking =>
      if !Http.ParseResponse(s).NeedMore? {
        Http.ResponseStable(s, more);
      }
    case Framing(partial) => FramingStepStable(cfg, partial, s, more);
    case Finished =>
  }

  /** Decoding a stream in two parts, carrying only phase and leftover, is decoding it whole. */
  lemma {:induction false} RunAppend(cfg: Config, phase: Phase, s: bytes, more: bytes)
    ensures var r := Run(cfg, phase, s);
            Run(cfg, phase, s + more) == Run(cfg, r.phase, r.rest + more).After(r.events)
    decreases |s|
  {
    hide StepAt;
    StepStable(cfg, phase, s, more);
    match StepAt(cfg, phase, s)
    case Next(next, consumed, event) =>
      var tail := s[consumed..];
      RunAppend(cfg, next, tail, more);
      assert (s + more)[consumed..] == tail + more;
      var r := Run(cfg, next, tail);
      AfterTwice(Run(cfg, r.phase, r.rest + more), r.events, Opt(event));
    case Wait => AfterNothing(Run(cfg, phase, s + more));
    case Doom => AfterNothing(Run(cfg, phase, s + more));
    case Fail(_) => AfterNothing(Run(cfg, phase, s + more));
  }

  lemma AfterTwice(o: Outcome, inner: seq<Event>, outer: seq<Event>)
    ensures o.After(inner).After(outer) == o.After(outer + inner)
  {
  }

  lemma AfterNothing(o: Outcome)
    ensures o.After([]) == o
  {
  }

  function StuckStep(end: End): (s: Step) {
    match end
    case Waiting => Wait
    case Doomed => Doom
    case Failed(code) => Fail(code)
  }

  /** A run stops exactly where the next step does not go on. */
  lemma {:induction false} RunLeftover(cfg: Config, phase: Phase, s: bytes)
    ensures var r := Run(cfg, phase, s);
            && StepAt(cfg, r.phase, r.rest) == StuckStep(r.end)
            && Run(cfg, r.phase, r.rest) == Outcome([], r.end, r.phase, r.rest)
    decreases |s|
  {
    hide StepAt;
    match StepAt(cfg, phase, s)
    case Next(next, consumed, event) => RunLeftover(cfg, next, s[consumed..]);
    case _ =>
  }

  /** A stream that has failed, or is bound to, never yields another event. */
  lemma DeadStays(cfg: Config, phase: Phase, s: bytes, more: bytes)
    requires !Run(cfg, phase, s).end.Waiting?
    ensures Run(cfg, phase, s + more).events == Run(cfg, phase, s).events
    ensures !Run(cfg, phase, s + more).end.Waiting?
    ensures Run(cfg, phase, s).end.Failed? ==> Run(cfg, phase, s + more).end.Failed?
    ensures Run(cfg, phase, s + more).end.Code() == Run(cfg, phase, s).end.Code()
  {
    hide StepAt;
    var r := Run(cfg, phase, s);
    RunLeftover(cfg, phase, s);
    StepStable(cfg, r.phase, r.rest, more);
    var r' := Run(cfg, r.phase, r.rest + more);
    assert r'.events == [] && !r'.end.Waiting? && (r.end.Failed? ==> r'.end.Failed?) && r'.end.Code() == r.end.Code();
    RunAppend(cfg, phase, s, more);
  }

  /** Decoding chunk by chunk. */
  function RunChunks(cfg: Config, phase: Phase, pending: bytes, chunks: seq<bytes>): (o: Outcome)
    decreases |chunks|
  {
    if chunks == [] then Run(cfg, phase, pending)
    else
      var r := Run(cfg, phase, pending + chunks[0]);
      RunChunks(cfg, r.phase, r.rest, chunks[1..]).After(r.events)
  }

  /** Chunk boundaries carry no meaning. */
  lemma {:induction false} ChunksAreMeaningless(cfg: Config, phase: Phase, pending: bytes, chunks: seq<bytes>)
    ensures RunChunks(cfg, phase, pending, chunks) == Run(cfg, phase, pending + Concat(chunks))
    decreases |chunks|
  {
    hide StepAt, Run;
    if chunks == [] {
      assert pending + [] == pending;
      assert Concat(chunks) == [];
    } else {
      var first, later := pending + chunks[0], Concat(chunks[1..]);
      var r := Run(cfg, phase, first);
      calc {
        RunChunks(cfg, phase, pending, chunks);
        RunChunks(cfg, r.phase, r.rest, chunks[1..]).After(r.events);
        { ChunksAreMeaningless(cfg, r.phase, r.rest, chunks[1..]); }
        Run(cfg, r.phase, r.rest + later).After(r.events);
        { RunAppend(cfg, phase, first, later); }
        Run(cfg, phase, first + later);
        { assert first + later == pending + (chunks[0] + later); }
        Run(cfg, phase, pending + Concat(chunks));
      }
    }
  }

  // ---- what an incremental decoder may conclude from the part it holds ------------------

  predicate Dead(o: Outcome) { o.events == [] && !o.end.Waiting? }

  predicate DeadWith(o: Outcome, code: nat) { Dead(o) && o.end.Code() == code }

  /** The outcome of a decoder that cannot move: nothing out, nothing consumed, no failure seen. */
  predicate Stuck(o: Outcome, phase: Phase, pending: bytes) {
    o == Outcome([], o.end, phase, pending) && !o.end.Failed?
  }

  lemma RunNext(cfg: Config, phase: Phase, pending: bytes)
    requires StepAt(cfg, phase, pending).Next?
    ensures var s := StepAt(cfg, phase, pending);
            Run(cfg, phase, pending) == Run(cfg, s.phase, pending[s.consumed..]).After(Opt(s.event))
  {
    hide StepAt;
  }

  lemma RunStops(cfg: Config, phase: Phase, pending: bytes)
    requires !StepAt(cfg, phase, pending).Next?
    ensures var o, s := Run(cfg, phase, pending), StepAt(cfg, phase, pending);
            && (s.Doom? ==> DeadWith(o, Close.PROTOCOL_ERROR))
            && (s.Fail? ==> DeadWith(o, s.code))
            && (s.Doom? || s.Wait? ==> Stuck(o, phase, pending))
            && (s.Wait? <==> o.end.Waiting?)
  {
    hide StepAt;
  }

  lemma HeaderRejected(cfg: Config, partial: Option<Partial>, held: bytes, rest: bytes)
    requires ServerHeader(held).Bad?
    ensures DeadWith(Run(cfg, Framing(partial), held + rest), Close.PROTOCOL_ERROR)
  {
    hide ServerHeader;
    ServerVerdictStable(held, rest);
    RunStops(cfg, Framing(partial), held + rest);
  }

  lemma StartRejected(cfg: Config, partial: Option<Partial>, held: bytes, rest: bytes)
    requires ServerHeader(held).Header? && !StartOk(cfg, partial, ServerHeader(held).h)
    ensures DeadWith(Run(cfg, Framing(partial), held + rest), StartCode(cfg, partial, ServerHeader(held).h))
  {
    hide ServerHeader, StartOk, StartCode;
    ServerVerdictStable(held, rest);
    RunStops(cfg, Framing(partial), held + rest);
  }

  lemma HeaderAwaited(cfg: Config, partial: Option<Partial>, held: bytes)
    requires ServerHeader(held).Incomplete?
    ensures Stuck(Run(cfg, Framing(partial), held), Framing(partial), held)
  {
    hide ServerHeader, DoomedHeader;
    RunStops(cfg, Framing(partial), held);
  }

  lemma PayloadAwaited(cfg: Config, partial: Option<Partial>, held: bytes)
    requires ServerHeader(held).Header? && StartOk(cfg, partial, ServerHeader(held).h)
    requires |held| < ServerHeader(held).size + ServerHeader(held).h.len
    ensures Stuck(Run(cfg, Framing(partial), held), Framing(partial), held)
  {
    hide ServerHeader, StartOk;
    RunStops(cfg, Framing(partial), held);
  }

  lemma FrameStepDecides(cfg: Config, partial: Option<Partial>, h: FrameHeader, payload: bytes, consumed: nat)
    requires h.opcode.Continuation? ==> partial.Some?
    ensures var s := FrameStep(cfg, partial, h, payload, consumed);
            s.Fail? || (s.Next? && s.consumed == consumed)
  {
  }

  lemma FrameCompleted(cfg: Config, partial: Option<Partial>, held: bytes, rest: bytes)
    requires ServerHeader(held).Header? && StartOk(cfg, partial, ServerHeader(held).h)
    requires |held| == ServerHeader(held).size + ServerHeader(held).h.len
    ensures var Header(h, size) := ServerHeader(held);
            var s := FrameStep(cfg, partial, h, held[size..], |held|);
            var o := Run(cfg, Framing(partial), held + rest);
            && (s.Fail? ==> DeadWith(o, s.code))
            && (s.Next? ==> o == Run(cfg, s.phase, rest).After(Opt(s.event)))
            && (s.Next? || s.Fail?)
  {
    hide ServerHeader, FrameStep, Run;
    ServerVerdictStable(held, rest);
    var Header(h, size) := ServerHeader(held);
    FrameStepDecides(cfg, partial, h, held[size..], |held|);
    var all := held + rest;
    assert all[size..size + h.len] == held[size..];
    assert all[|held|..] == rest;
    if StepAt(cfg, Framing(partial), all).Next? {
      RunNext(cfg, Framing(partial), all);
    } else {
      RunStops(cfg, Framing(partial), all);
    }
  }

  /** The bookkeeping of a decoder in mid-stream survives the arrival of more bytes. */
  lemma HistoryAppend(cfg: Config, fed: bytes, emitted: seq<Event>, phase: Phase, pending: bytes, more: bytes)
    requires Run(cfg, Handshaking, fed) == Run(cfg, phase, pending).After(emitted)
    ensures Run(cfg, Handshaking, fed + more) == Run(cfg, phase, pending + more).After(emitted)
  {
    hide Run;
    RunAppend(cfg, Handshaking, fed, more);
    RunAppend(cfg, phase, pending, more);
    var now := Run(cfg, phase, pending);
    AfterTwice(Run(cfg, now.phase, now.rest + more), now.events, emitted);
  }

  lemma HandshakeOutcome(cfg: Config, input: bytes)
    ensures var o := Run(cfg, Handshaking, input);
            match Http.ParseResponse(input)
            case NeedMore => Stuck(o, Handshaking, input)
            case TooLarge => Dead(o)
            case Response(end) =>
              if cfg.upgradeOk(input[..end])
              then o == Run(cfg, Framing(None), input[end + 4..]).After([HandshakeComplete])
              else Dead(o)
  {
    hide Http.ParseResponse, Run;
    if StepAt(cfg, Handshaking, input).Next? {
      RunNext(cfg, Handshaking, input);
    } else {
      RunStops(cfg, Handshaking, input);
    }
  }
}
