/**
 What a server sends, and what the reference decoder makes of it: sections 4.1, 5.2 to 5.5
 and 7.4 of RFC 6455. Nothing here mentions the cases of the decoder.
 */
module Streams {
  import opened Bytes
  import opened Frame
  import opened Decoder
  import Close
  import Http

  // ---- one frame ---------------------------------------------------------------------------

  /** A frame as a server sends it: single or a fragment, and never masked. */
  datatype Sent = Sent(fin: bool, opcode: OpCode, payload: bytes) {
    predicate Sendable() {
      && |payload| < 0x8000_0000_0000_0000
      && (opcode.IsControl() ==> fin && |payload| <= 125)
    }

    ghost function Encoded(): (s: bytes)
      requires Sendable()
    {
      HeaderBytes(FrameHeader(fin, opcode, None, |payload|)) + payload
    }
  }

  function Held(partial: Option<Partial>): (data: bytes) {
    if partial.Some? then partial.value.data else []
  }

  /** A continuation with nothing to continue, or a new message inside another one. */
  predicate OutOfOrder(partial: Option<Partial>, f: Sent) {
    !f.opcode.IsControl() && (f.opcode.Continuation? <==> partial.None?)
  }

  predicate TooLong(cfg: Config, partial: Option<Partial>, f: Sent) {
    || |f.payload| > cfg.maxFrame
    || (!f.opcode.IsControl() && !OutOfOrder(partial, f) && |Held(partial) + f.payload| > cfg.maxMessage)
  }

  /** What a close frame may say: sections 5.5.1 and 7.4 of RFC 6455. */
  predicate CloseAllowed(cfg: Config, payload: bytes) {
    || payload == []
    || (&& |payload| >= 2
        && (var code := (payload[0] as nat) * 256 + payload[1];
            1000 <= code <= 1003 || 1007 <= code <= 1011 || 3000 <= code <= 4999)
        && cfg.utf8(payload[2..]))
  }

  predicate OfText(partial: Option<Partial>, f: Sent) {
    f.opcode.Text? || (f.opcode.Continuation? && partial.Some? && partial.value.opcode.Text?)
  }

  /** The last frame of a text message that is not text. */
  predicate BadText(cfg: Config, partial: Option<Partial>, f: Sent) {
    f.fin && OfText(partial, f) && !cfg.assumeUtf8 && !cfg.utf8(Held(partial) + f.payload)
  }

  predicate Refused(cfg: Config, partial: Option<Partial>, f: Sent) {
    || TooLong(cfg, partial, f)
    || OutOfOrder(partial, f)
    || (f.opcode.Close? && !CloseAllowed(cfg, f.payload))
    || BadText(cfg, partial, f)
  }

  lemma EncodedParses(f: Sent, rest: bytes)
    requires f.Sendable()
    ensures var h := FrameHeader(f.fin, f.opcode, None, |f.payload|);
            && ServerHeader(f.Encoded() + rest) == Header(h, |HeaderBytes(h)|)
            && |HeaderBytes(h)| >= 2
  {
    hide HeaderBytes, ServerHeader, ParseHeader;
    var h := FrameHeader(f.fin, f.opcode, None, |f.payload|);
    Associative(HeaderBytes(h), f.payload, rest);
    ParseEncoded(h, f.payload + rest);
    ServerHeaderAgrees(f.Encoded() + rest);
  }

  /** The exact fate of a whole frame, and the close code when it is refused. */
  lemma FrameFate(cfg: Config, partial: Option<Partial>, f: Sent, rest: bytes)
    requires f.Sendable()
    ensures var s := StepAt(cfg, Framing(partial), f.Encoded() + rest);
            && (s.Fail? <==> Refused(cfg, partial, f))
            && (s.Next? <==> !Refused(cfg, partial, f))
            && (s.Fail? ==> s.code == (if TooLong(cfg, partial, f) then 1009
                                       else if BadText(cfg, partial, f) && !OutOfOrder(partial, f) then 1007
                                       else 1002))
            && (s.Next? ==> s.consumed == |f.Encoded()|)
  {
    hide HeaderBytes, ServerHeader;
    EncodedParses(f, rest);
    var h := FrameHeader(f.fin, f.opcode, None, |f.payload|);
    var head, all := HeaderBytes(h), f.Encoded() + rest;
    assert all[|head|..|head| + h.len] == f.payload;
    CloseFate(cfg, f.payload);
  }

  lemma CloseFate(cfg: Config, payload: bytes)
    ensures var r := Close.ParseClosePayload(cfg.utf8, payload);
            && (r.CloseBad? <==> !CloseAllowed(cfg, payload))
            && (r.NoStatus? <==> payload == [])
            && (r.Status? ==> r.code == (payload[0] as nat) * 256 + payload[1] && r.reason == payload[2..])
  {
    if |payload| >= 2 {
      BETwoBack(payload[..2]);
    }
  }

  lemma Admitted(cfg: Config, partial: Option<Partial>, f: Sent, rest: bytes)
    requires f.Sendable() && !TooLong(cfg, partial, f) && !OutOfOrder(partial, f)
    ensures var h := FrameHeader(f.fin, f.opcode, None, |f.payload|);
            && (f.opcode.Continuation? ==> partial.Some?)
            && StepAt(cfg, Framing(partial), f.Encoded() + rest)
               == FrameStep(cfg, partial, h, f.payload, |f.Encoded()|)
  {
    hide HeaderBytes, ServerHeader, FrameStep;
    EncodedParses(f, rest);
    var h := FrameHeader(f.fin, f.opcode, None, |f.payload|);
    var head, all := HeaderBytes(h), f.Encoded() + rest;
    assert all[|head|..|head| + h.len] == f.payload;
  }

  /** What an accepted frame yields, and what it leaves behind. */
  lemma FrameYield(cfg: Config, partial: Option<Partial>, f: Sent, rest: bytes)
    requires f.Sendable() && !Refused(cfg, partial, f)
    ensures var s := StepAt(cfg, Framing(partial), f.Encoded() + rest);
            var data := Held(partial) + f.payload;
            && s.Next?
            && (f.opcode.Ping? ==> s.phase == Framing(partial) && s.event == Some(PingReceived(f.payload)))
            && (f.opcode.Pong? ==> s.phase == Framing(partial) && s.event == Some(PongReceived(f.payload)))
            && (f.opcode.Close? ==> s.phase == Finished && s.event == Some(CloseEvent(f.payload)))
            && (!f.opcode.IsControl() && !f.fin ==>
                  s.phase == Framing(Some(Partial(Opener(partial, f), data))) && s.event.None?)
            && (!f.opcode.IsControl() && f.fin ==>
                  && s.phase == Framing(None)
                  && s.event == Some(if OfText(partial, f) then TextMessage(data) else BinaryMessage(data)))
  {
    hide StepAt, Sent.Encoded;
    Admitted(cfg, partial, f, rest);
    CloseFate(cfg, f.payload);
    assert [] + f.payload == f.payload;
  }

  /** The opcode of the first frame of the message. */
  function Opener(partial: Option<Partial>, f: Sent): (op: OpCode) {
    if f.opcode.Continuation? && partial.Some? then partial.value.opcode else f.opcode
  }

  /** A close without a code is reported as 1005: section 7.1.5 of RFC 6455. */
  function CloseEvent(payload: bytes): (e: Event) {
    if |payload| < 2 then CloseReceived(1005, [])
    else CloseReceived((payload[0] as nat) * 256 + payload[1], payload[2..])
  }

  lemma FrameRun(cfg: Config, partial: Option<Partial>, f: Sent, rest: bytes)
    requires f.Sendable() && !Refused(cfg, partial, f)
    ensures var s := StepAt(cfg, Framing(partial), f.Encoded() + rest);
            s.Next? && Run(cfg, Framing(partial), f.Encoded() + rest) == Run(cfg, s.phase, rest).After(Opt(s.event))
  {
    hide StepAt, Run, Refused;
    FrameFate(cfg, partial, f, rest);
    RunNext(cfg, Framing(partial), f.Encoded() + rest);
    assert (f.Encoded() + rest)[|f.Encoded()|..] == rest;
  }

  // ---- messages, whole or in fragments, with control frames anywhere between them ---------------

  datatype Control = Control(pong: bool, payload: bytes) {
    function Frame(): (f: Sent) { Sent(true, if pong then Pong else Ping, payload) }

    function Event(): (e: Event) { if pong then PongReceived(payload) else PingReceived(payload) }
  }

  /** A later fragment of a message, and the control frames sent just before it. */
  datatype Fragment = Fragment(before: seq<Control>, payload: bytes)

  datatype Item =
    | Alone(control: Control)
    | Message(text: bool, first: bytes, later: seq<Fragment>)

  function Payload(later: seq<Fragment>): (data: bytes) {
    if later == [] then [] else later[0].payload + Payload(later[1..])
  }

  predicate ControlFits(cfg: Config, c: Control) { |c.payload| <= 125 && |c.payload| <= cfg.maxFrame }

  predicate FragmentFits(cfg: Config, g: Fragment) {
    && |g.payload| < 0x8000_0000_0000_0000 && |g.payload| <= cfg.maxFrame
    && (forall k :: 0 <= k < |g.before| ==> ControlFits(cfg, g.before[k]))
  }

  /** What a server may send: frames and messages within the limits, text that is text. */
  predicate Proper(cfg: Config, item: Item) {
    match item
    case Alone(c) => ControlFits(cfg, c)
    case Message(text, first, later) =>
      && FragmentFits(cfg, Fragment([], first))
      && (forall k :: 0 <= k < |later| ==> FragmentFits(cfg, later[k]))
      && |first + Payload(later)| <= cfg.maxMessage
      && (text ==> cfg.assumeUtf8 || cfg.utf8(first + Payload(later)))
  }

  ghost function ControlBytes(cfg: Config, cs: seq<Control>): (s: bytes)
    requires forall k :: 0 <= k < |cs| ==> ControlFits(cfg, cs[k])
  {
    if cs == [] then []
    else
      assert ControlFits(cfg, cs[0]);
      cs[0].Frame().Encoded() + ControlBytes(cfg, cs[1..])
  }

  ghost function LaterBytes(cfg: Config, later: seq<Fragment>): (s: bytes)
    requires forall k :: 0 <= k < |later| ==> FragmentFits(cfg, later[k])
  {
    if later == [] then []
    else
      assert FragmentFits(cfg, later[0]);
      ControlBytes(cfg, later[0].before)
      + (Sent(|later| == 1, Continuation, later[0].payload).Encoded() + LaterBytes(cfg, later[1..]))
  }

  /** An item on the wire. */
  ghost function ItemBytes(cfg: Config, item: Item): (s: bytes)
    requires Proper(cfg, item)
  {
    match item
    case Alone(c) => c.Frame().Encoded()
    case Message(text, first, later) =>
      Sent(later == [], if text then Text else Binary, first).Encoded() + LaterBytes(cfg, later)
  }

  ghost function ItemsBytes(cfg: Config, items: seq<Item>): (s: bytes)
    requires forall k :: 0 <= k < |items| ==> Proper(cfg, items[k])
  {
    if items == [] then [] else ItemBytes(cfg, items[0]) + ItemsBytes(cfg, items[1..])
  }

  function ControlEvents(cs: seq<Control>): (e: seq<Event>) {
    if cs == [] then [] else [cs[0].Event()] + ControlEvents(cs[1..])
  }

  function Between(later: seq<Fragment>): (e: seq<Event>) {
    if later == [] then [] else ControlEvents(later[0].before) + Between(later[1..])
  }

  /** What the application hears: control frames as they come, then the whole message once. */
  function ItemEvents(item: Item): (e: seq<Event>) {
    match item
    case Alone(c) => [c.Event()]
    case Message(text, first, later) =>
      var data := first + Payload(later);
      Between(later) + [if text then TextMessage(data) else BinaryMessage(data)]
  }

  function ItemsEvents(items: seq<Item>): (e: seq<Event>) {
    if items == [] then [] else ItemEvents(items[0]) + ItemsEvents(items[1..])
  }

  lemma ControlRun(cfg: Config, partial: Option<Partial>, c: Control, rest: bytes)
    requires ControlFits(cfg, c)
    ensures Run(cfg, Framing(partial), c.Frame().Encoded() + rest)
         == Run(cfg, Framing(partial), rest).After([c.Event()])
  {
    hide StepAt, Run;
    FrameYield(cfg, partial, c.Frame(), rest);
    FrameRun(cfg, partial, c.Frame(), rest);
  }

  lemma {:induction false} ControlsRun(cfg: Config, partial: Option<Partial>, cs: seq<Control>, rest: bytes)
    requires forall k :: 0 <= k < |cs| ==> ControlFits(cfg, cs[k])
    ensures Run(cfg, Framing(partial), ControlBytes(cfg, cs) + rest)
         == Run(cfg, Framing(partial), rest).After(ControlEvents(cs))
    decreases |cs|
  {
    hide Run;
    if cs == [] {
      assert ControlBytes(cfg, cs) + rest == rest;
      AfterNothing(Run(cfg, Framing(partial), rest));
    } else {
      var tail := ControlBytes(cfg, cs[1..]);
      assert ControlFits(cfg, cs[0]);
      Associative(cs[0].Frame().Encoded(), tail, rest);
      ControlRun(cfg, partial, cs[0], tail + rest);
      ControlsRun(cfg, partial, cs[1..], rest);
      AfterTwice(Run(cfg, Framing(partial), rest), ControlEvents(cs[1..]), [cs[0].Event()]);
    }
  }

  function Delivered(text: bool, data: bytes): (e: Event) {
    if text then TextMessage(data) else BinaryMessage(data)
  }

  lemma FragmentRun(cfg: Config, text: bool, data: bytes, g: Fragment, last: bool, rest: bytes)
    requires FragmentFits(cfg, g) && |data + g.payload| <= cfg.maxMessage
    requires last && text ==> cfg.assumeUtf8 || cfg.utf8(data + g.payload)
    ensures var op := if text then Text else Binary;
            Run(cfg, Framing(Some(Partial(op, data))), Sent(last, Continuation, g.payload).Encoded() + rest)
            == (if last then Run(cfg, Framing(None), rest).After([Delivered(text, data + g.payload)])
                else Run(cfg, Framing(Some(Partial(op, data + g.payload))), rest))
  {
    hide StepAt, Run;
    var partial := Some(Partial(if text then Text else Binary, data));
    var f := Sent(last, Continuation, g.payload);
    FrameYield(cfg, partial, f, rest);
    FrameRun(cfg, partial, f, rest);
    if !last {
      AfterNothing(Run(cfg, Framing(Some(Partial(if text then Text else Binary, data + g.payload))), rest));
    }
  }

  /** The later fragments, whatever stands between them, complete the message. */
  lemma {:induction false} LaterRun(cfg: Config, text: bool, data: bytes, later: seq<Fragment>, rest: bytes)
    requires later != [] && (forall k :: 0 <= k < |later| ==> FragmentFits(cfg, later[k]))
    requires |data + Payload(later)| <= cfg.maxMessage
    requires text ==> cfg.assumeUtf8 || cfg.utf8(data + Payload(later))
    ensures Run(cfg, Framing(Some(Partial(if text then Text else Binary, data))), LaterBytes(cfg, later) + rest)
         == Run(cfg, Framing(None), rest).After(Between(later) + [Delivered(text, data + Payload(later))])
    decreases |later|
  {
    hide Run, ControlBytes, ControlEvents, Delivered;
    var partial := Some(Partial(if text then Text else Binary, data));
    var g, last, data' := later[0], |later| == 1, data + later[0].payload;
    var f, tail := Sent(last, Continuation, g.payload), LaterBytes(cfg, later[1..]);
    var front := ControlBytes(cfg, g.before);
    Associative(front, f.Encoded() + tail, rest);
    Associative(f.Encoded(), tail, rest);
    Associative(data, g.payload, Payload(later[1..]));
    ControlsRun(cfg, partial, g.before, f.Encoded() + (tail + rest));
    if last {
      assert data' == data + Payload(later);
      assert tail + rest == rest;
    }
    FragmentRun(cfg, text, data, g, last, tail + rest);
    var final := [Delivered(text, data + Payload(later))];
    if last {
      assert Between(later) + final == ControlEvents(g.before) + final;
      AfterTwice(Run(cfg, Framing(None), rest), final, ControlEvents(g.before));
    } else {
      LaterRun(cfg, text, data', later[1..], rest);
      Associative(ControlEvents(g.before), Between(later[1..]), final);
      AfterTwice(Run(cfg, Framing(None), rest), Between(later[1..]) + final, ControlEvents(g.before));
    }
  }

  lemma FirstRun(cfg: Config, text: bool, first: bytes, later: seq<Fragment>, rest: bytes)
    requires Proper(cfg, Message(text, first, later))
    ensures var f := Sent(later == [], if text then Text else Binary, first);
            Run(cfg, Framing(None), f.Encoded() + rest)
            == (if later == [] then Run(cfg, Framing(None), rest).After([Delivered(text, first)])
                else Run(cfg, Framing(Some(Partial(f.opcode, first))), rest))
  {
    hide Run, StepAt, Refused, Payload, Sent.Encoded;
    var f := Sent(later == [], if text then Text else Binary, first);
    FirstFits(cfg, text, first, later);
    FrameYield(cfg, None, f, rest);
    FrameRun(cfg, None, f, rest);
    assert [] + first == first;
    AfterNothing(Run(cfg, Framing(Some(Partial(f.opcode, first))), rest));
  }

  lemma ItemRun(cfg: Config, item: Item, rest: bytes)
    requires Proper(cfg, item)
    ensures Run(cfg, Framing(None), ItemBytes(cfg, item) + rest)
         == Run(cfg, Framing(None), rest).After(ItemEvents(item))
  {
    hide Run, LaterBytes, Payload, Between, Sent.Encoded;
    match item
    case Alone(c) => ControlRun(cfg, None, c, rest);
    case Message(text, first, later) =>
      var f, tail := Sent(later == [], if text then Text else Binary, first), LaterBytes(cfg, later);
      Associative(f.Encoded(), tail, rest);
      FirstRun(cfg, text, first, later, tail + rest);
      if later == [] {
        NoneLater(cfg, first, rest);
      } else {
        LaterRun(cfg, text, first, later, rest);
      }
  }

  lemma FirstFits(cfg: Config, text: bool, first: bytes, later: seq<Fragment>)
    requires Proper(cfg, Message(text, first, later))
    ensures var f := Sent(later == [], if text then Text else Binary, first);
            f.Sendable() && !Refused(cfg, None, f)
  {
    assert [] + first == first;
    assert later == [] ==> first + Payload(later) == first;
  }

  lemma NoneLater(cfg: Config, first: bytes, rest: bytes)
    ensures LaterBytes(cfg, []) + rest == rest && first + Payload([]) == first && Between([]) == []
  {
  }

  /** A list of items decodes to what they say, and leaves the rest as it is. */
  lemma {:induction false} ItemsRun(cfg: Config, items: seq<Item>, rest: bytes)
    requires forall k :: 0 <= k < |items| ==> Proper(cfg, items[k])
    ensures Run(cfg, Framing(None), ItemsBytes(cfg, items) + rest)
         == Run(cfg, Framing(None), rest).After(ItemsEvents(items))
    decreases |items|
  {
    hide Run, Proper, ItemBytes, ItemEvents;
    if items == [] {
      assert ItemsBytes(cfg, items) + rest == rest;
      AfterNothing(Run(cfg, Framing(None), rest));
    } else {
      var tail := ItemsBytes(cfg, items[1..]);
      Associative(ItemBytes(cfg, items[0]), tail, rest);
      ItemRun(cfg, items[0], tail + rest);
      ItemsRun(cfg, items[1..], rest);
      AfterTwice(Run(cfg, Framing(None), rest), ItemsEvents(items[1..]), ItemEvents(items[0]));
    }
  }

  // ---- whole connections ------------------------------------------------------------------------

  /** What arrives on a connection that is upgraded: the response, a blank line, then frames. */
  ghost function StreamBytes(cfg: Config, head: bytes, items: seq<Item>): (s: bytes)
    requires forall k :: 0 <= k < |items| ==> Proper(cfg, items[k])
  {
    head + [13, 10, 13, 10] + ItemsBytes(cfg, items)
  }

  /** An accepted upgrade and any list of items decode to the upgrade and exactly those items. */
  lemma StreamDecodes(cfg: Config, head: bytes, items: seq<Item>)
    requires Http.Block(head) && |head| + 4 <= 16384 && cfg.upgradeOk(head)
    requires forall k :: 0 <= k < |items| ==> Proper(cfg, items[k])
    ensures Run(cfg, Handshaking, StreamBytes(cfg, head, items))
         == Outcome([HandshakeComplete] + ItemsEvents(items), Waiting, Framing(None), [])
  {
    hide Run, Proper, Http.Block;
    var tail := ItemsBytes(cfg, items);
    UpgradeRun(cfg, head, tail);
    ItemsRun(cfg, items, []);
    assert tail + [] == tail;
    NothingLeft(cfg);
    assert ItemsEvents(items) + [] == ItemsEvents(items);
  }

  /** The messages among the items. */
  function Messages(items: seq<Item>): (m: seq<Event>) {
    if items == [] then []
    else
      (match items[0]
       case Alone(_) => []
       case Message(text, first, later) => [Delivered(text, first + Payload(later))])
      + Messages(items[1..])
  }

  lemma {:induction false} ControlsAreNoData(cs: seq<Control>)
    ensures DataOf(ControlEvents(cs)) == []
  {
    if cs != [] {
      ControlsAreNoData(cs[1..]);
      DataOfAppend([cs[0].Event()], ControlEvents(cs[1..]));
    }
  }

  lemma {:induction false} NoDataBetween(later: seq<Fragment>)
    ensures DataOf(Between(later)) == []
  {
    if later != [] {
      ControlsAreNoData(later[0].before);
      NoDataBetween(later[1..]);
      DataOfAppend(ControlEvents(later[0].before), Between(later[1..]));
    }
  }

  lemma ItemData(item: Item)
    ensures DataOf(ItemEvents(item)) == Messages([item])
  {
    hide Payload;
    match item
    case Alone(c) =>
    case Message(text, first, later) =>
      NoDataBetween(later);
      DataOfAppend(Between(later), [Delivered(text, first + Payload(later))]);
  }

  /** The data events of a stream of items are its messages, each whole and once. */
  lemma {:induction false} ItemsData(items: seq<Item>)
    ensures DataOf(ItemsEvents(items)) == Messages(items)
    ensures DataOf([HandshakeComplete] + ItemsEvents(items)) == Messages(items)
  {
    if items != [] {
      ItemData(items[0]);
      ItemsData(items[1..]);
      DataOfAppend(ItemEvents(items[0]), ItemsEvents(items[1..]));
    }
    DataOfAppend([HandshakeComplete], ItemsEvents(items));
  }

  lemma UpgradeRun(cfg: Config, head: bytes, tail: bytes)
    requires Http.Block(head) && |head| + 4 <= 16384 && cfg.upgradeOk(head)
    ensures Run(cfg, Handshaking, head + [13, 10, 13, 10] + tail)
         == Run(cfg, Framing(None), tail).After([HandshakeComplete])
  {
    hide Run, Http.Block, Http.ParseResponse;
    var input := head + [13, 10, 13, 10] + tail;
    Http.ResponseEnds(head, tail);
    HandshakeOutcome(cfg, input);
    assert input[..|head|] == head && input[|head| + 4..] == tail;
  }

  lemma NothingLeft(cfg: Config)
    ensures Run(cfg, Framing(None), []) == Outcome([], Waiting, Framing(None), [])
  {
  }

  /** A close frame ends the stream: nothing behind it is decoded. */
  lemma StreamCloses(cfg: Config, items: seq<Item>, payload: bytes, rest: bytes)
    requires forall k :: 0 <= k < |items| ==> Proper(cfg, items[k])
    requires |payload| <= 125 && |payload| <= cfg.maxFrame && CloseAllowed(cfg, payload)
    ensures var close := Sent(true, OpCode.Close, payload);
            Run(cfg, Framing(None), ItemsBytes(cfg, items) + (close.Encoded() + rest))
            == Outcome(ItemsEvents(items) + [CloseEvent(payload)], Waiting, Finished, rest)
  {
    hide StepAt, Run, Proper, CloseAllowed, CloseEvent;
    var close := Sent(true, OpCode.Close, payload);
    ItemsRun(cfg, items, close.Encoded() + rest);
    FrameYield(cfg, None, close, rest);
    FrameRun(cfg, None, close, rest);
    NothingAfterClose(cfg, rest);
  }

  lemma NothingAfterClose(cfg: Config, rest: bytes)
    ensures Run(cfg, Finished, rest) == Outcome([], Waiting, Finished, rest)
  {
  }

  /** The close code of a refusal: sections 5.4, 5.5, 7.4.1 and 8.1 of RFC 6455. */
  function RefusalCode(cfg: Config, partial: Option<Partial>, f: Sent): (code: nat) {
    if TooLong(cfg, partial, f) then 1009
    else if BadText(cfg, partial, f) && !OutOfOrder(partial, f) then 1007
    else 1002
  }

  /** A refused frame ends the stream with its code, after everything that came before it. */
  lemma StreamRefuses(cfg: Config, items: seq<Item>, f: Sent, rest: bytes)
    requires forall k :: 0 <= k < |items| ==> Proper(cfg, items[k])
    requires f.Sendable() && Refused(cfg, None, f)
    ensures Run(cfg, Framing(None), ItemsBytes(cfg, items) + (f.Encoded() + rest))
         == Outcome(ItemsEvents(items), Failed(RefusalCode(cfg, None, f)), Framing(None), f.Encoded() + rest)
  {
    hide StepAt, Run, Proper, Refused;
    ItemsRun(cfg, items, f.Encoded() + rest);
    FrameFate(cfg, None, f, rest);
    FailureStops(cfg, Framing(None), f.Encoded() + rest);
    assert ItemsEvents(items) + [] == ItemsEvents(items);
  }

  lemma FailureStops(cfg: Config, phase: Phase, pending: bytes)
    requires StepAt(cfg, phase, pending).Fail?
    ensures Run(cfg, phase, pending) == Outcome([], Failed(StepAt(cfg, phase, pending).code), phase, pending)
  {
    hide StepAt;
  }

  /** A response that is not accepted, or has no end, yields nothing. */
  lemma UpgradeFails(cfg: Config, head: bytes, tail: bytes)
    requires || (Http.Block(head) && |head| + 4 <= 16384 && !cfg.upgradeOk(head))
             || (|head + [13, 10, 13, 10] + tail| > 16384
                 && !Http.HasBlank((head + [13, 10, 13, 10] + tail)[..16384]))
    ensures var o := Run(cfg, Handshaking, head + [13, 10, 13, 10] + tail);
            o.events == [] && o.end.Failed?
  {
    hide Http.Block, Http.ParseResponse, Http.HasBlank;
    var input := head + [13, 10, 13, 10] + tail;
    Http.ResponseVerdict(input);
    if |head| + 4 <= 16384 && Http.Block(head) {
      Http.ResponseEnds(head, tail);
      assert input[..|head|] == head;
    }
    FailureStops(cfg, Handshaking, input);
  }

  /** A frame that has not arrived whole is awaited, unless its header already rules it out. */
  lemma FramePrefix(cfg: Config, partial: Option<Partial>, f: Sent, k: nat)
    requires f.Sendable() && k < |f.Encoded()|
    ensures var s, header := StepAt(cfg, Framing(partial), f.Encoded()[..k]), |f.Encoded()| - |f.payload|;
            if k >= header && (TooLong(cfg, partial, f) || OutOfOrder(partial, f))
            then s == Fail(if TooLong(cfg, partial, f) then 1009 else 1002)
            else s == Wait
  {
    hide HeaderBytes, ServerHeader, ParseHeader, DoomedHeader, FrameStep;
    var h := FrameHeader(f.fin, f.opcode, None, |f.payload|);
    var head, part := HeaderBytes(h), f.Encoded()[..k];
    if k < |head| {
      assert part == head[..k];
      PrefixAwaited(h, k);
    } else {
      assert part == head + f.payload[..k - |head|];
      ParseEncoded(h, f.payload[..k - |head|]);
      ServerHeaderAgrees(part);
    }
  }

  lemma PrefixAwaited(h: FrameHeader, k: nat)
    requires Encodable(h) && h.mask.None? && k < |HeaderBytes(h)|
    ensures ServerHeader(HeaderBytes(h)[..k]).Incomplete? && !DoomedHeader(HeaderBytes(h)[..k])
  {
    hide HeaderBytes, ServerHeader, ParseHeader;
    StrictPrefixIncomplete(h, k);
    ServerHeaderAgrees(HeaderBytes(h)[..k]);
    HeaderLayout(h);
  }

  /** Bytes that begin no header an unmasked frame can have are a protocol error. */
  lemma BrokenHeader(cfg: Config, partial: Option<Partial>, pending: bytes)
    requires |pending| >= 14
    requires forall h :: Encodable(h) && h.mask.None? ==> !(HeaderBytes(h) <= pending)
    ensures StepAt(cfg, Framing(partial), pending) == Fail(1002)
  {
    hide HeaderBytes, ServerHeader, ParseHeader;
    WholeHeaderDecided(pending);
    ServerHeaderAgrees(pending);
    if ServerHeader(pending).Header? {
      EncodeParsed(pending);
      assert false;
    }
  }

  // ---- nothing else is ever decoded -----------------------------------------------------------

  /** Whatever is decoded was a frame that may stand there, and exactly its bytes are consumed. */
  lemma OnlyFrames(cfg: Config, partial: Option<Partial>, pending: bytes) returns (f: Sent)
    requires StepAt(cfg, Framing(partial), pending).Next?
    ensures f.Sendable() && !Refused(cfg, partial, f)
    ensures pending[..StepAt(cfg, Framing(partial), pending).consumed] == f.Encoded()
  {
    hide HeaderBytes, ServerHeader, ParseHeader, Refused, FrameStep;
    var s := StepAt(cfg, Framing(partial), pending);
    ServerHeaderAgrees(pending);
    EncodeParsed(pending);
    var Header(h, size) := ServerHeader(pending);
    var whole := size + h.len;
    f := Sent(h.fin, h.opcode, pending[size..whole]);
    assert pending[..whole] == pending[..size] + pending[size..whole];
    assert f.Encoded() + pending[whole..] == pending;
    FrameFate(cfg, partial, f, pending[whole..]);
  }

  ghost function Frames(fs: seq<Sent>): (s: bytes)
    requires forall k :: 0 <= k < |fs| ==> fs[k].Sendable()
  {
    if fs == [] then [] else fs[0].Encoded() + Frames(fs[1..])
  }

  /** The payloads of the data frames, joined. */
  function DataSent(fs: seq<Sent>): (data: bytes) {
    if fs == [] then []
    else (if fs[0].opcode.IsControl() then [] else fs[0].payload) + DataSent(fs[1..])
  }

  /** The payloads of the messages delivered, joined. */
  function DataDelivered(events: seq<Event>): (data: bytes) {
    if events == [] then []
    else (if events[0].IsData() then events[0].payload else []) + DataDelivered(events[1..])
  }

  /** What the control frames say, in order. */
  function ControlsSent(fs: seq<Sent>): (e: seq<Event>) {
    if fs == [] then []
    else
      (match fs[0].opcode
       case Ping => [PingReceived(fs[0].payload)]
       case Pong => [PongReceived(fs[0].payload)]
       case Close => [CloseEvent(fs[0].payload)]
       case _ => [])
      + ControlsSent(fs[1..])
  }

  function ControlsDelivered(events: seq<Event>): (e: seq<Event>) {
    if events == [] then []
    else (if events[0].IsData() then [] else [events[0]]) + ControlsDelivered(events[1..])
  }

  /** Every message within the limit, every text checked, every close allowed. */
  predicate Legal(cfg: Config, e: Event) {
    match e
    case TextMessage(data) => |data| <= cfg.maxMessage && (cfg.assumeUtf8 || cfg.utf8(data))
    case BinaryMessage(data) => |data| <= cfg.maxMessage
    case PingReceived(data) => |data| <= 125
    case PongReceived(data) => |data| <= 125
    case CloseReceived(code, reason) =>
      || (code == 1005 && reason == [])
      || ((1000 <= code <= 1003 || 1007 <= code <= 1011 || 3000 <= code <= 4999) && cfg.utf8(reason) && |reason| <= 123)
    case HandshakeComplete => false
  }

  function HeldIn(phase: Phase): (data: bytes) {
    match phase
    case Framing(Some(p)) => p.data
    case _ => []
  }

  lemma StepConserves(cfg: Config, partial: Option<Partial>, f: Sent, rest: bytes)
    requires f.Sendable() && !Refused(cfg, partial, f)
    ensures var s := StepAt(cfg, Framing(partial), f.Encoded() + rest);
            && s.Next? && !s.phase.Handshaking?
            && ControlsDelivered(Opt(s.event)) == ControlsSent([f])
            && (!s.phase.Finished? ==> Held(partial) + DataSent([f]) == DataDelivered(Opt(s.event)) + HeldIn(s.phase))
            && (s.phase.Finished? ==> DataSent([f]) == DataDelivered(Opt(s.event)) == [])
            && (s.event.Some? ==> Legal(cfg, s.event.value))
  {
    hide StepAt;
    FrameYield(cfg, partial, f, rest);
  }

  /** A frame in front of the others. */
  lemma SentInFront(f: Sent, fs: seq<Sent>)
    requires f.Sendable() && forall k :: 0 <= k < |fs| ==> fs[k].Sendable()
    ensures var all := [f] + fs;
            && (forall k :: 0 <= k < |all| ==> all[k].Sendable())
            && Frames(all) == f.Encoded() + Frames(fs)
            && DataSent(all) == DataSent([f]) + DataSent(fs)
            && ControlsSent(all) == ControlsSent([f]) + ControlsSent(fs)
  {
    hide Sent.Encoded, CloseEvent;
    var all := [f] + fs;
    assert all[0] == f && all[1..] == fs && [f][1..] == [];
  }

  /** An event in front of the others. */
  lemma DeliveredInFront(event: Option<Event>, events: seq<Event>)
    ensures DataDelivered(Opt(event) + events) == DataDelivered(Opt(event)) + DataDelivered(events)
    ensures ControlsDelivered(Opt(event) + events) == ControlsDelivered(Opt(event)) + ControlsDelivered(events)
  {
    if event.Some? {
      var more := [event.value] + events;
      assert more[0] == event.value && more[1..] == events;
    } else {
      assert [] + events == events;
    }
  }

  /** Whether the bytes decoded are the frames fs, and the events are what fs says. */
  ghost predicate Explains(cfg: Config, phase: Phase, s: bytes, o: Outcome, fs: seq<Sent>) {
    && (forall k :: 0 <= k < |fs| ==> fs[k].Sendable())
    && s == Frames(fs) + o.rest
    && ControlsDelivered(o.events) == ControlsSent(fs)
    && (if o.phase.Finished? then DataDelivered(o.events) <= HeldIn(phase) + DataSent(fs)
        else HeldIn(phase) + DataSent(fs) == DataDelivered(o.events) + HeldIn(o.phase))
    && (forall e <- o.events :: Legal(cfg, e))
  }

  lemma ExplainsMore(cfg: Config, phase: Phase, next: Phase, f: Sent, event: Option<Event>, tail: bytes, o: Outcome,
                     fs: seq<Sent>)
    requires f.Sendable() && Explains(cfg, next, tail, o, fs)
    requires ControlsDelivered(Opt(event)) == ControlsSent([f])
    requires next.Finished? ==> o.phase.Finished? && DataDelivered(o.events) == []
    requires !next.Finished? ==> HeldIn(phase) + DataSent([f]) == DataDelivered(Opt(event)) + HeldIn(next)
    requires next.Finished? ==> DataDelivered(Opt(event)) == []
    requires event.Some? ==> Legal(cfg, event.value)
    ensures Explains(cfg, phase, f.Encoded() + tail, o.After(Opt(event)), [f] + fs)
  {
    hide Frames, Legal, DataSent, ControlsSent, DataDelivered, ControlsDelivered;
    SentInFront(f, fs);
    DeliveredInFront(event, o.events);
    Associative(f.Encoded(), Frames(fs), o.rest);
    if !next.Finished? {
      var held, got := HeldIn(phase), DataDelivered(Opt(event));
      Associative(held, DataSent([f]), DataSent(fs));
      Associative(got, HeldIn(next), DataSent(fs));
      if o.phase.Finished? {
        PrefixUnder(got, DataDelivered(o.events), HeldIn(next) + DataSent(fs));
      } else {
        Associative(got, DataDelivered(o.events), HeldIn(o.phase));
      }
    }
  }

  lemma PrefixUnder(front: bytes, s: bytes, t: bytes)
    requires s <= t
    ensures front + s <= front + t
  {
  }

  /**
   Every run is explained by frames: no byte of a message is lost, made up or moved, control
   frames are all reported in order, and what is delivered is legal.
   */
  lemma {:induction false} RunConserves(cfg: Config, phase: Phase, s: bytes) returns (fs: seq<Sent>)
    requires !phase.Handshaking?
    ensures Explains(cfg, phase, s, Run(cfg, phase, s), fs)
    decreases |s|
  {
    hide StepAt, Legal, Refused;
    fs := [];
    var step := StepAt(cfg, phase, s);
    if phase.Framing? && step.Next? {
      var f := OnlyFrames(cfg, phase.partial, s);
      var tail := s[step.consumed..];
      SplitAt(s, step.consumed);
      StepConserves(cfg, phase.partial, f, tail);
      RunNext(cfg, phase, s);
      fs := RunConserves(cfg, step.phase, tail);
      if step.phase.Finished? {
        NothingAfterClose(cfg, tail);
      }
      ExplainsMore(cfg, phase, step.phase, f, step.event, tail, Run(cfg, step.phase, tail), fs);
      fs := [f] + fs;
    } else {
      FinishedWaits(cfg, phase, s);
      assert Frames([]) + s == s;
    }
  }

  lemma FinishedWaits(cfg: Config, phase: Phase, s: bytes)
    requires !phase.Handshaking? && (phase.Finished? || !StepAt(cfg, phase, s).Next?)
    ensures var o := Run(cfg, phase, s); o.events == [] && o.phase == phase && o.rest == s
  {
  }
}
