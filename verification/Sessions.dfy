/** Whole runs of a client: any calls, in any order, over any chunks. */
module Sessions {
  import opened Bytes
  import opened Frame
  import opened Decoder
  import opened Outbound
  import opened Batching
  import opened Replies
  import opened Client
  import Close
  import Http
  import Streams

  /** What a caller of the client may do next. */
  datatype Op =
    | Begin
    | Feed(chunk: bytes)
    | Poll
    | Drain
    | Ingress(chunk: bytes)
    | IngressBatched(chunk: bytes)
    | Send(opcode: OpCode, payload: bytes)
    | SendClosing(code: nat, reason: bytes)
    | Ack(n: nat)

  /** The limits that Rust's types put on arguments. */
  predicate Callable(op: Op) {
    match op
    case Send(opcode, payload) => opcode in {Text, Binary, Ping, Pong} && |payload| < TWO_63
    case SendClosing(code, _) => code < 0x1_0000
    case _ => true
  }

  function Chunk(op: Op): (s: bytes) {
    match op
    case Feed(c) => c
    case Ingress(c) => c
    case IngressBatched(c) => c
    case _ => []
  }

  /** All bytes that a run feeds. */
  function FedBy(ops: seq<Op>): (s: bytes) {
    if ops == [] then [] else FedBy(ops[..|ops| - 1]) + Chunk(ops[|ops| - 1])
  }

  /** What a call asks the client to send, if it is accepted. */
  ghost function Request(op: Op): (m: seq<Message>)
    requires Callable(op)
  {
    match op
    case Send(opcode, payload) => [Message(opcode, payload)]
    case SendClosing(code, reason) => [Message(OpCode.Close, Close.CloseBytes(code, reason))]
    case _ => []
  }

  /** What may be asked for while the connection is open. */
  predicate Allowed(cfg: Config, op: Op) {
    match op
    case Send(opcode, payload) =>
      (opcode.Text? ==> cfg.utf8(payload)) && (opcode.IsControl() ==> |payload| <= MAX_CONTROL_PAYLOAD)
    case SendClosing(code, reason) => Close.ValidCode(code) && |reason| <= 123
    case _ => false
  }

  /** How far a call gets with the events of the stream fed so far, the call's own chunk included. */
  ghost predicate Hears(op: Op, before: seq<Event>, after: seq<Event>, all: seq<Event>) {
    match op
    case Poll => before <= after && |after| <= |before| + 1 && (after == before ==> after == all)
    case Drain => after == all
    case Ingress(_) => after == all
    case IngressBatched(_) => after == all
    case _ => after == before
  }

  /** What was asked for and accepted, in order. */
  ghost function Requests(ops: seq<Op>, accepted: seq<bool>): (m: seq<Message>)
    requires |accepted| == |ops| && forall op <- ops :: Callable(op)
  {
    if ops == [] then []
    else
      var n := |ops| - 1;
      Requests(ops[..n], accepted[..n]) + if accepted[n] then Request(ops[n]) else []
  }

  /** One call; live says that no error has been reported yet. */
  method Apply(client: WsClient, op: Op, live: bool)
    returns (out: seq<Event>, stillLive: bool, accepted: bool, ghost log: seq<Entry>)
    requires client.Valid() && Callable(op) && live == !client.failed
    modifies client, client.parser, client.recvBuf, client.tx
    ensures client.Valid() && stillLive == !client.failed
    ensures client.fed == old(client.fed) + Chunk(op)
    ensures live ==> DataOf(client.emitted) == DataOf(old(client.emitted)) + out
    ensures live ==> Talked(client.cfg.autoPong, old(client.Outside()), client.Outside(), log, client.Code())
    ensures SaidIn(log) == if accepted then Request(op) else []
    ensures live ==> (accepted <==> old(client.state).Open? && Allowed(client.cfg, op))
    ensures live ==> Hears(op, old(client.emitted), client.emitted, Run(client.cfg, Handshaking, client.fed).events)
    ensures !live ==> out == [] && !stillLive && !accepted
    ensures accepted ==> stillLive
    ensures client.state.Rank() >= old(client.state).Rank()
    ensures old(client.tx.written) <= client.tx.written
    ensures old(client.state).Closed? ==> client.tx.written == old(client.tx.written)
  {
    hide Run, DataOf, WsClient.Valid, Numbered, Unmarked, Flatten, Shaped, Talked, Spoke;
    out, stillLive, accepted, log := [], live, false, [];
    DataOfNothing(client.emitted);
    if live {
      TalkedNothing(client.cfg.autoPong, client.Outside(), client.Code());
    }
    match op {
      case Begin => var _ := client.BeginHandshake();
      case Send(opcode, payload) =>
        accepted, log := Say(client, op, live);
      case SendClosing(code, reason) =>
        accepted, log := Say(client, op, live);
      case Ack(n) => client.AckTx(if n <= |client.tx.PendingTx()| then n else |client.tx.PendingTx()|);
      case Feed(chunk) =>
        client.FeedRecv(chunk);
        if live {
          TalkedNothing(client.cfg.autoPong, client.Outside(), client.Code());
        }
      case _ =>
        out, stillLive := Receive(client, op, live);
        if live {
          SpokeIsTalk(client.cfg.autoPong, old(client.Outside()), client.Outside(), client.Code());
          ghost var news := client.emitted[|old(client.emitted)|..];
          log := Heards(news);
          HeardsHeard(news);
        }
    }
  }

  lemma SpokeIsTalk(autoPong: bool, a: Side, b: Side, code: nat)
    requires Spoke(autoPong, a, b, code)
    ensures a.emitted <= b.emitted && Talked(autoPong, a, b, Heards(b.emitted[|a.emitted|..]), code)
  {
  }

  /** The caller asks for a frame; it is written or nothing is. */
  method Say(client: WsClient, op: Op, live: bool) returns (accepted: bool, ghost log: seq<Entry>)
    requires client.Valid() && Callable(op) && live == !client.failed && (op.Send? || op.SendClosing?)
    modifies client`state, client.tx
    ensures client.Valid()
    ensures live ==> Talked(client.cfg.autoPong, old(client.Outside()), client.Outside(), log, client.Code())
    ensures SaidIn(log) == if accepted then Request(op) else []
    ensures live ==> (accepted <==> old(client.state).Open? && Allowed(client.cfg, op))
    ensures !live ==> !accepted
    ensures client.emitted == old(client.emitted)
    ensures client.state.Rank() >= old(client.state).Rank()
    ensures old(client.tx.written) <= client.tx.written
    ensures old(client.state).Closed? ==> client.tx.written == old(client.tx.written)
  {
    hide Run, WsClient.Valid, Talked, Close.CloseBytes;
    var open := client.state.Open?;
    var r;
    if op.Send? {
      r := client.SendData(op.opcode, op.payload);
    } else {
      r := client.SendClose(op.code, op.reason);
    }
    accepted := live && open && r.SendOk?;
    log := if accepted then [Said(Request(op)[0])] else [];
    if accepted {
      SpokenOne(client.cfg.autoPong, open, log[0]);
    }
    if live {
      if accepted {
        TalkedSaid(client.cfg.autoPong, old(client.Outside()), client.Outside(), Request(op)[0], client.Code());
      } else {
        TalkedNothing(client.cfg.autoPong, client.Outside(), client.Code());
      }
    }
  }

  method Receive(client: WsClient, op: Op, live: bool) returns (out: seq<Event>, stillLive: bool)
    requires client.Valid() && live == !client.failed
    requires op.Poll? || op.Drain? || op.Ingress? || op.IngressBatched?
    modifies client, client.parser, client.recvBuf, client.tx
    ensures client.Valid() && stillLive == !client.failed
    ensures client.fed == old(client.fed) + Chunk(op)
    ensures live ==> DataOf(client.emitted) == DataOf(old(client.emitted)) + out
    ensures live ==> Spoke(client.cfg.autoPong, old(client.Outside()), client.Outside(), client.Code())
    ensures !live ==> out == [] && !stillLive
    ensures live ==> Hears(op, old(client.emitted), client.emitted, Run(client.cfg, Handshaking, client.fed).events)
    ensures client.Forward()
  {
    hide Run, DataOf, WsClient.Valid, Numbered, Unmarked, Flatten, Shaped, Spoke, Replied, Complaint;
    if op.Poll? {
      var p := client.PollEvent();
      if live {
        PollSpoke(client.cfg.autoPong, old(client.Outside()), client.Outside(), p, client.Code());
      }
      if p.Polled? {
        LogPolled(DataOf(old(client.emitted)), old(client.emitted), [], p.event);
      }
      DataOfNothing(old(client.emitted));
      out, stillLive := if p.Polled? && p.event.IsData() then [p.event] else [], live && !p.PollFailed?;
    } else if op.Drain? {
      var r;
      r, out := client.DrainDataEvents();
      stillLive := live && r.DrainOk?;
    } else if op.Ingress? {
      var r;
      r, out := client.IngestAndDrain(op.chunk);
      stillLive := live && r.DrainOk?;
    } else {
      var r, batches, next := client.IngestBatches(op.chunk, 0);
      out, stillLive := Unmarked(Flatten(batches)), live && r.DrainOk?;
    }
    if live {
      HeardAll(client);
    } else {
      out := [];
    }
  }

  lemma HeardAll(c: WsClient)
    requires c.Valid()
    ensures c.failed || Stuck(c.Future(), c.Phase(), c.Pending()) ==>
              c.emitted == Run(c.cfg, Handshaking, c.fed).events
  {
    hide Run;
  }

  lemma DataOfNothing(log: seq<Event>)
    ensures DataOf(log) == DataOf(log) + []
  {
  }

  /**
   What the log tells of call k: the events heard on the way, and whether the call's request was accepted,
   which it was exactly when no error had been reported, the connection was open and the request allowed.
   */
  ghost predicate Told(
    cfg: Config, ops: seq<Op>, k: nat, log: seq<Entry>, cuts: seq<nat>, accepted: seq<bool>, survived: nat)
    requires k < |ops| && k + 1 < |cuts| && k < |accepted|
  {
    && cuts[k] <= cuts[k + 1] <= |log|
    && Hears(ops[k], HeardIn(log[..cuts[k]]), HeardIn(log[..cuts[k + 1]]),
             Run(cfg, Handshaking, FedBy(ops[..k + 1])).events)
    && (accepted[k] <==> k < survived && OpenThen(false, log[..cuts[k]]) && Allowed(cfg, ops[k]))
  }

  /**
   Any run of a client, then one drain if no error was reported. The data events handed out are those
   of the reference decoder on all bytes fed. The log tells in which order the client heard the decoder's
   events and was asked to send, and how far it had got before each call; the frames written are the
   requests it accepted, one Pong per Ping when asked for, the answer to a Close received while open and,
   when the stream was refused while open, a Close with the decoder's code. Only Pongs follow a Close. A
   server reads all this from the acknowledged and pending bytes behind the upgrade request.
   */
  method Session(cfg: Config, entropy: nat -> bytes, avx2: bool, ops: seq<Op>)
    returns (
      out: seq<Event>, live: bool, accepted: seq<bool>, ghost log: seq<Entry>, ghost cuts: seq<nat>,
      ghost survived: nat, ghost client: WsClient)
    requires forall n: nat :: |entropy(n)| == MASK_POOL_BYTES
    requires forall op <- ops :: Callable(op)
    ensures out == DataOf(Run(cfg, Handshaking, FedBy(ops)).events)
    ensures live ==> !Run(cfg, Handshaking, FedBy(ops)).end.Failed?
    ensures !live ==> !Run(cfg, Handshaking, FedBy(ops)).end.Waiting?
    ensures HeardIn(log) == Run(cfg, Handshaking, FedBy(ops)).events
    ensures |accepted| == |ops| && SaidIn(log) == Requests(ops, accepted)
    ensures |cuts| == |ops| + 1 && cuts[0] == 0
    ensures forall k :: 0 <= k < |ops| ==> Told(cfg, ops, k, log, cuts, accepted, survived)
    ensures survived <= |ops| && (live ==> survived == |ops|)
    ensures survived < |ops| ==> !Run(cfg, Handshaking, FedBy(ops[..survived + 1])).end.Waiting?
    ensures Conversation(cfg.autoPong, log, MessagesOf(client.tx.written), live,
                         Run(cfg, Handshaking, FedBy(ops)).end.Code())
    ensures client.Valid() && OnlyPongsAfterClose(client.tx.written)
    ensures client.tx.opening in {[], cfg.request}
    ensures ReadFrames((client.tx.acked + client.tx.PendingTx())[|client.tx.opening|..])
         == Decoded(MessagesOf(client.tx.written), [])
  {
    hide Run, DataOf, WsClient.Valid, ReadFrames, MessagesOf, OnlyPongsAfterClose, Wire, FedBy, Talked, Conversation,
      HeardIn, SaidIn, Requests, Spoke, Told, OpenThen, Hears, Allowed, Final;
    var c := new WsClient(cfg, 0, 0, entropy, avx2);
    out, live, accepted, log, cuts, survived := [], true, [], [], [0], |ops|;
    NothingFed();
    ghost var end := c.Outside();
    TalkedNothing(cfg.autoPong, START, c.Code());
    for i := 0 to |ops|
      invariant fresh(c) && fresh(c.parser) && fresh(c.recvBuf) && fresh(c.tx)
      invariant c.Valid() && live == !c.failed && c.cfg == cfg && c.tx.request == cfg.request
      invariant c.fed == FedBy(ops[..i])
      invariant live ==> DataOf(c.emitted) == out && end == c.Outside() && survived == |ops|
      invariant !live ==> Final(cfg, c.fed, out)
      invariant !live ==> end.emitted == Run(cfg, Handshaking, c.fed).events
      invariant !live ==> survived < i && !Run(cfg, Handshaking, FedBy(ops[..survived + 1])).end.Waiting?
      invariant Talked(cfg.autoPong, START, end, log, c.Code()) && end.failed == !live && end.written <= c.tx.written
      invariant |accepted| == i && SaidIn(log) == Requests(ops[..i], accepted)
      invariant |cuts| == i + 1 && cuts[0] == 0 && cuts[i] == |log|
      invariant forall k :: 0 <= k < i ==> Told(cfg, ops, k, log, cuts, accepted, survived)
    {
      FedByStep(ops, i);
      DeadFinal(cfg, c.fed, Chunk(ops[i]), out);
      ghost var code, before := c.Code(), log;
      var more, stillLive, said, news := Apply(c, ops[i], live);
      RequestsStep(ops, accepted, i, said);
      TalkedState(cfg.autoPong, START, end, log, code);
      HearsNothing(ops[i], HeardIn(log));
      if live {
        TalkedTwice(cfg.autoPong, START, end, c.Outside(), log, news, code, c.Code());
        HeardAppend(log, news);
        TalkedState(cfg.autoPong, START, c.Outside(), log + news, c.Code());
        out, log, end := out + more, log + news, c.Outside();
        if !stillLive {
          Failed(c);
          FinalSays(cfg, c.fed, out);
        }
      }
      ghost var reached := if live && !stillLive then i else survived;
      ToldOn(cfg, ops, i, before, log, cuts, accepted, said, survived, reached);
      accepted, live, cuts, survived := accepted + [said], stillLive, cuts + [|log|], reached;
    }
    assert ops[..|ops|] == ops;
    if live {
      var more, ok, news := LastDrain(c, end, log);
      out, live := out + more, ok;
      ToldLater(cfg, ops, log, log + news, cuts, accepted, survived);
      log, end := log + news, c.Outside();
    } else {
      FinalSays(cfg, c.fed, out);
    }
    client := c;
    Conversed(cfg.autoPong, end, log, c.Code(), c.tx.written);
    WireStory(c);
  }

  /** The drain at the end of a run: nothing of what was fed is left unheard. */
  method LastDrain(c: WsClient, ghost end: Side, ghost log: seq<Entry>)
    returns (out: seq<Event>, ok: bool, ghost news: seq<Entry>)
    requires c.Valid() && !c.failed && end == c.Outside() && Talked(c.cfg.autoPong, START, end, log, c.Code())
    modifies c, c.parser, c.recvBuf, c.tx
    ensures c.Valid() && ok == !c.failed && c.fed == old(c.fed)
    ensures DataOf(old(c.emitted)) + out == DataOf(Run(c.cfg, Handshaking, c.fed).events)
    ensures c.emitted == Run(c.cfg, Handshaking, c.fed).events
    ensures ok ==> !Run(c.cfg, Handshaking, c.fed).end.Failed?
    ensures !ok ==> !Run(c.cfg, Handshaking, c.fed).end.Waiting?
    ensures Talked(c.cfg.autoPong, START, c.Outside(), log + news, c.Code())
    ensures SaidIn(log + news) == SaidIn(log) && HeardIn(log + news) == HeardIn(log) + HeardIn(news)
    ensures old(c.tx.written) <= c.tx.written
  {
    hide Run, DataOf, WsClient.Valid, Talked, HeardIn, SaidIn, Spoke;
    var r;
    r, out := c.DrainDataEvents();
    ok := r.DrainOk?;
    SpokeIsTalk(c.cfg.autoPong, end, c.Outside(), c.Code());
    news := Heards(c.emitted[|end.emitted|..]);
    HeardsHeard(c.emitted[|end.emitted|..]);
    TalkedTwice(c.cfg.autoPong, START, end, c.Outside(), log, news, c.Code(), c.Code());
    HeardAppend(log, news);
    assert SaidIn(log) + [] == SaidIn(log);
    if ok {
      Drained(c);
    } else {
      Failed(c);
    }
  }

  /** What a conversation from the start says about the client. */
  lemma TalkedState(autoPong: bool, a: Side, b: Side, log: seq<Entry>, code: nat)
    requires Talked(autoPong, a, b, log, code) && a == START
    ensures b.emitted == HeardIn(log) && (!b.failed ==> b.open == OpenThen(false, log))
  {
    hide OpenThen, HeardIn, Spoken;
    assert [] + HeardIn(log) == HeardIn(log);
  }

  lemma HearsNothing(op: Op, events: seq<Event>)
    ensures Hears(op, events, events, events)
  {
  }

  lemma ToldLater(
      cfg: Config, ops: seq<Op>, log: seq<Entry>, later: seq<Entry>, cuts: seq<nat>, accepted: seq<bool>, survived: nat)
    requires log <= later && |accepted| == |ops| && |cuts| == |ops| + 1
    requires forall k :: 0 <= k < |ops| ==> Told(cfg, ops, k, log, cuts, accepted, survived)
    ensures forall k :: 0 <= k < |ops| ==> Told(cfg, ops, k, later, cuts, accepted, survived)
  {
    hide Run, HeardIn, OpenThen, Hears, Allowed, FedBy;
    forall k | 0 <= k < |ops|
      ensures Told(cfg, ops, k, later, cuts, accepted, survived)
    {
      assert Told(cfg, ops, k, log, cuts, accepted, survived);
      assert later[..cuts[k]] == log[..cuts[k]] && later[..cuts[k + 1]] == log[..cuts[k + 1]];
    }
  }

  lemma ToldOn(
      cfg: Config, ops: seq<Op>, i: nat, log: seq<Entry>, later: seq<Entry>, cuts: seq<nat>, accepted: seq<bool>,
      said: bool, survived: nat, reached: nat)
    requires i < |ops| && |accepted| == i && |cuts| == i + 1 && cuts[i] == |log| && log <= later
    requires forall k :: 0 <= k < i ==> Told(cfg, ops, k, log, cuts, accepted, survived)
    requires reached == survived || (i == reached && survived == |ops|)
    requires Hears(ops[i], HeardIn(log), HeardIn(later), Run(cfg, Handshaking, FedBy(ops[..i + 1])).events)
    requires said <==> i < reached && OpenThen(false, log) && Allowed(cfg, ops[i])
    ensures forall k :: 0 <= k <= i ==> Told(cfg, ops, k, later, cuts + [|later|], accepted + [said], reached)
  {
    hide Run, HeardIn, OpenThen, Hears, Allowed, FedBy;
    forall k | 0 <= k <= i
      ensures Told(cfg, ops, k, later, cuts + [|later|], accepted + [said], reached)
    {
      if k < i {
        assert Told(cfg, ops, k, log, cuts, accepted, survived);
        assert later[..cuts[k]] == log[..cuts[k]] && later[..cuts[k + 1]] == log[..cuts[k + 1]];
      } else {
        assert later[..cuts[i]] == log && later[..|later|] == later;
      }
    }
  }

  lemma RequestsStep(ops: seq<Op>, accepted: seq<bool>, i: nat, said: bool)
    requires i < |ops| && |accepted| == i && forall op <- ops :: Callable(op)
    ensures Requests(ops[..i + 1], accepted + [said]) ==
            Requests(ops[..i], accepted) + if said then Request(ops[i]) else []
  {
    assert ops[..i + 1][..i] == ops[..i] && (accepted + [said])[..i] == accepted;
  }

  /** The data handed out before the error is all that the bytes will ever yield. */
  ghost predicate Final(cfg: Config, fed: bytes, out: seq<Event>) {
    var whole := Run(cfg, Handshaking, fed);
    out == DataOf(whole.events) && !whole.end.Waiting?
  }

  lemma FinalSays(cfg: Config, fed: bytes, out: seq<Event>)
    requires Final(cfg, fed, out)
    ensures out == DataOf(Run(cfg, Handshaking, fed).events) && !Run(cfg, Handshaking, fed).end.Waiting?
  {
    hide Run, DataOf;
  }

  lemma DeadFinal(cfg: Config, fed: bytes, more: bytes, out: seq<Event>)
    ensures Final(cfg, fed, out) ==> Final(cfg, fed + more, out)
    ensures Final(cfg, fed, out) ==>
              var whole, later := Run(cfg, Handshaking, fed), Run(cfg, Handshaking, fed + more);
              later.events == whole.events && later.end.Code() == whole.end.Code()
  {
    hide Run, DataOf;
    if Final(cfg, fed, out) {
      DeadStays(cfg, Handshaking, fed, more);
    }
  }

  lemma Failed(c: WsClient)
    requires c.Valid() && c.failed
    ensures Final(c.cfg, c.fed, DataOf(c.emitted)) && c.emitted == Run(c.cfg, Handshaking, c.fed).events
  {
    hide Run, DataOf;
  }

  lemma Drained(c: WsClient)
    requires c.Valid() && !c.failed && Stuck(c.Future(), c.Phase(), c.Pending())
    ensures Run(c.cfg, Handshaking, c.fed).events == c.emitted
    ensures !Run(c.cfg, Handshaking, c.fed).end.Failed?
  {
    hide Run;
  }

  lemma NothingFed()
    ensures FedBy([]) == [] && DataOf([]) == [] && SaidIn([]) == [] && Requests([], []) == []
  {
  }

  lemma FedByStep(ops: seq<Op>, i: nat)
    requires i < |ops|
    ensures FedBy(ops[..i + 1]) == FedBy(ops[..i]) + Chunk(ops[i])
  {
    assert ops[..i + 1][..i] == ops[..i];
  }

  lemma WireStory(c: WsClient)
    requires c.Valid()
    ensures OnlyPongsAfterClose(c.tx.written)
    ensures c.tx.opening in {[], c.tx.request}
    ensures |c.tx.opening| <= |c.tx.acked + c.tx.PendingTx()|
    ensures ReadFrames((c.tx.acked + c.tx.PendingTx())[|c.tx.opening|..]) == Decoded(MessagesOf(c.tx.written), [])
  {
    hide Run, OnlyPongsAfterClose, Wire, ReadFrames, MessagesOf;
    var opening, wire := c.tx.opening, Wire(c.tx.written);
    assert c.tx.acked + c.tx.PendingTx() == opening + wire;
    assert (opening + wire)[|opening|..] == wire;
    WireRoundTrip(c.tx.written);
  }

  function IngressAll(chunks: seq<bytes>): (ops: seq<Op>)
    ensures |ops| == |chunks|
  {
    seq(|chunks|, i requires 0 <= i < |chunks| => Ingress(chunks[i]))
  }

  lemma {:induction false} FedByIngress(chunks: seq<bytes>)
    ensures FedBy(IngressAll(chunks)) == Concat(chunks)
  {
    if chunks != [] {
      var front, last := chunks[..|chunks| - 1], chunks[|chunks| - 1];
      FedByIngress(front);
      ConcatAppend(front, last);
      assert chunks == front + [last];
      assert IngressAll(chunks)[..|chunks| - 1] == IngressAll(front);
    }
  }

  /**
   drain_data_events_from_ingress over a stream cut into any chunks: its data events are those of the
   reference decoder on the whole stream, handshake bytes and leftovers included.
   */
  method DecodeStream(cfg: Config, chunks: seq<bytes>) returns (out: seq<Event>, ok: bool)
    ensures out == DataOf(Run(cfg, Handshaking, Concat(chunks)).events)
    ensures ok ==> !Run(cfg, Handshaking, Concat(chunks)).end.Failed?
    ensures !ok ==> !Run(cfg, Handshaking, Concat(chunks)).end.Waiting?
  {
    hide Run, DataOf;
    FedByIngress(chunks);
    ghost var log, cuts, survived, client;
    var accepted;
    out, ok, accepted, log, cuts, survived, client :=
      Session(cfg, _ => seq(MASK_POOL_BYTES, _ => 0), false, IngressAll(chunks));
  }

  /**
   The client, fed an accepted upgrade response and any messages in any chunks, hears exactly those messages:
   fragmented or not, with control frames between the fragments, and whatever the chunks cut apart.
   */
  method HearServer(cfg: Config, head: bytes, items: seq<Streams.Item>, chunks: seq<bytes>)
    returns (out: seq<Event>, ok: bool)
    requires Http.Block(head) && |head| + 4 <= 16384 && cfg.upgradeOk(head)
    requires forall k :: 0 <= k < |items| ==> Streams.Proper(cfg, items[k])
    requires Concat(chunks) == Streams.StreamBytes(cfg, head, items)
    ensures ok && out == Streams.Messages(items)
  {
    hide Run, DataOf, Http.Block, Streams.Proper, Streams.StreamBytes, Streams.Messages;
    out, ok := DecodeStream(cfg, chunks);
    Streams.StreamDecodes(cfg, head, items);
    Streams.ItemsData(items);
  }

  /** Marked batches over a stream: the same data, numbered without a gap across chunks. */
  method DecodeMarked(cfg: Config, chunks: seq<bytes>) returns (marked: seq<MarkedEvent>, ok: bool)
    ensures Unmarked(marked) == DataOf(Run(cfg, Handshaking, Concat(chunks)).events)
    ensures forall k :: 0 <= k < |marked| ==> marked[k].sequence == Min(k, 0xFFFF_FFFF_FFFF_FFFF)
  {
    hide Run, DataOf, WsClient.Valid, Numbered, Unmarked, Flatten, Shaped;
    var c := new WsClient(cfg, 0, 0, _ => seq(MASK_POOL_BYTES, _ => 0), false);
    marked, ok := [], true;
    var sequence := 0;
    NothingMarked();
    HandshakeOutcome(cfg, []);
    for i := 0 to |chunks|
      invariant fresh(c) && fresh(c.parser) && fresh(c.recvBuf) && fresh(c.tx)
      invariant c.Valid() && ok == !c.failed && c.cfg == cfg && sequence == Min(|marked|, MAX_SEQUENCE)
      invariant c.fed == Concat(chunks[..i])
      invariant ok ==> DataOf(c.emitted) == Unmarked(marked) && Drawn(c)
      invariant !ok ==> Final(cfg, c.fed, Unmarked(marked))
      invariant forall k :: 0 <= k < |marked| ==> marked[k].sequence == Min(k, MAX_SEQUENCE)
    {
      ConcatStep(chunks, i);
      DeadFinal(cfg, c.fed, chunks[i], Unmarked(marked));
      if ok {
        var r, batches, next := c.IngestBatches(chunks[i], sequence);
        MarkOn(marked, Flatten(batches), sequence);
        marked := marked + Flatten(batches);
        ok, sequence := r.DrainOk?, next.sequence;
        if !ok {
          Failed(c);
        }
      } else {
        c.FeedRecv(chunks[i]);
      }
    }
    assert chunks[..|chunks|] == chunks;
    if ok {
      Drained(c);
    }
  }

  /** Nothing fed so far is still undelivered. */
  ghost predicate Drawn(c: WsClient)
    requires c.recvBuf.Valid() && (c.borrowed.Some? ==> c.borrowed.value.frameLen <= |c.recvBuf.AsSlice()|)
    reads c, c.recvBuf
  {
    Stuck(c.Future(), c.Phase(), c.Pending())
  }

  lemma NothingMarked()
    ensures DataOf([]) == Unmarked([])
  {
  }

  lemma ConcatStep(chunks: seq<bytes>, i: nat)
    requires i < |chunks|
    ensures Concat(chunks[..i + 1]) == Concat(chunks[..i]) + chunks[i]
  {
    assert chunks[..i + 1] == chunks[..i] + [chunks[i]];
    ConcatAppend(chunks[..i], chunks[i]);
  }

  lemma MarkOn(marked: seq<MarkedEvent>, more: seq<MarkedEvent>, sequence: nat)
    requires Numbered(more, Counters(0, sequence)) && sequence == Min(|marked|, MAX_SEQUENCE)
    requires forall k :: 0 <= k < |marked| ==> marked[k].sequence == Min(k, MAX_SEQUENCE)
    ensures forall k :: 0 <= k < |marked + more| ==> (marked + more)[k].sequence == Min(k, MAX_SEQUENCE)
    ensures Unmarked(marked + more) == Unmarked(marked) + Unmarked(more)
    ensures Counters(0, sequence).Plus(|more|).sequence == Min(|marked + more|, MAX_SEQUENCE)
  {
    forall k | |marked| <= k < |marked + more|
      ensures (marked + more)[k].sequence == Min(k, MAX_SEQUENCE)
    {
      assert (marked + more)[k] == more[k - |marked|];
    }
  }
}
