/**
 What a client must write in answer to what it hears, src/ws/client.rs:2162-2250:
 sections 5.5 and 7.4 of RFC 6455.
 */
module Replies {
  import opened Bytes
  import opened Frame
  import opened Decoder
  import opened Outbound
  import Close

  // ---- the answer to one event -------------------------------------------------------------

  /** The code with which a received Close is answered. */
  function AnswerCode(code: nat): (r: nat) {
    if code == 1005 then 1000 else code
  }

  /** One Close for a Close received while open, one Pong for a Ping when asked for, nothing else. */
  ghost function AnswerTo(autoPong: bool, open: bool, e: Event): (m: seq<Message>) {
    if e.CloseReceived? && open && AnswerCode(e.code) < 0x1_0000
    then [Message(OpCode.Close, Close.CloseBytes(AnswerCode(e.code), []))]
    else if e.PingReceived? && autoPong then [Message(OpCode.Pong, e.payload)]
    else []
  }

  function OpenAfterOne(open: bool, e: Event): (r: bool) {
    e.HandshakeComplete? || (open && !e.CloseReceived?)
  }

  /** Exactly one frame was written, with this opcode. */
  ghost predicate WroteOne(before: seq<Sent>, after: seq<Sent>, opcode: OpCode) {
    |after| == |before| + 1 && before <= after && after[|before|].opcode == opcode
  }

  /** An event was answered as it should be, and the connection is open now if it should be. */
  ghost predicate Replied(autoPong: bool, open: bool, before: seq<Sent>, after: seq<Sent>, e: Event, openNow: bool) {
    && openNow == OpenAfterOne(open, e)
    && (if e.CloseReceived? && open then
          && WroteOne(before, after, OpCode.Close) && AnswerCode(e.code) < 0x1_0000
          && after[|before|].payload == Close.CloseBytes(AnswerCode(e.code), [])
        else if e.PingReceived? && autoPong then
          WroteOne(before, after, OpCode.Pong) && after[|before|].payload == e.payload
        else after == before)
  }

  lemma NoReply(autoPong: bool, open: bool, written: seq<Sent>, e: Event)
    requires e.IsData()
    ensures Replied(autoPong, open, written, written, e, open)
  {
  }

  // ---- refusing a stream -------------------------------------------------------------------

  ghost predicate ClosesWith(payload: bytes, code: nat, reason: bytes) {
    code < 0x1_0000 && |reason| <= 123 && payload == Close.CloseBytes(code, reason)
  }

  /** While open, one Close with the code for the cause; later nothing. */
  ghost predicate FailureReply(open: bool, code: nat, said: seq<Message>) {
    if open then |said| == 1 && said[0].opcode.Close? && exists reason :: ClosesWith(said[0].payload, code, reason)
    else said == []
  }

  ghost predicate Complaint(open: bool, before: seq<Sent>, after: seq<Sent>, code: nat) {
    if open then
      WroteOne(before, after, OpCode.Close) && exists reason :: ClosesWith(after[|before|].payload, code, reason)
    else after == before
  }

  // ---- a conversation ------------------------------------------------------------------------

  /** What happens to a client in order: it hears an event, or its caller says something. */
  datatype Entry = Heard(event: Event) | Said(message: Message)

  function OpenAfterEntry(open: bool, x: Entry): (r: bool) {
    match x
    case Heard(e) => OpenAfterOne(open, e)
    case Said(m) => open && !m.opcode.Close?
  }

  ghost function SpokenFor(autoPong: bool, open: bool, x: Entry): (m: seq<Message>) {
    match x
    case Heard(e) => AnswerTo(autoPong, open, e)
    case Said(m) => [m]
  }

  /** Everything that is written in the course of a conversation. */
  ghost function Spoken(autoPong: bool, open: bool, log: seq<Entry>): (m: seq<Message>)
    decreases |log|
  {
    if log == [] then []
    else SpokenFor(autoPong, open, log[0]) + Spoken(autoPong, OpenAfterEntry(open, log[0]), log[1..])
  }

  function OpenThen(open: bool, log: seq<Entry>): (r: bool)
    decreases |log|
  {
    if log == [] then open else OpenThen(OpenAfterEntry(open, log[0]), log[1..])
  }

  function HeardIn(log: seq<Entry>): (events: seq<Event>) {
    if log == [] then [] else (if log[0].Heard? then [log[0].event] else []) + HeardIn(log[1..])
  }

  function SaidIn(log: seq<Entry>): (m: seq<Message>) {
    if log == [] then [] else (if log[0].Said? then [log[0].message] else []) + SaidIn(log[1..])
  }

  /** A stretch in which the caller says nothing. */
  function Heards(events: seq<Event>): (log: seq<Entry>) {
    seq(|events|, i requires 0 <= i < |events| => Heard(events[i]))
  }

  lemma {:induction false} SpokenAppend(autoPong: bool, open: bool, a: seq<Entry>, b: seq<Entry>)
    ensures OpenThen(open, a + b) == OpenThen(OpenThen(open, a), b)
    ensures Spoken(autoPong, open, a + b) == Spoken(autoPong, open, a) + Spoken(autoPong, OpenThen(open, a), b)
    decreases |a|
  {
    hide SpokenFor, OpenAfterEntry;
    if a == [] {
      assert a + b == b;
    } else {
      var next := OpenAfterEntry(open, a[0]);
      assert (a + b)[0] == a[0] && (a + b)[1..] == a[1..] + b;
      SpokenAppend(autoPong, next, a[1..], b);
      Associative(SpokenFor(autoPong, open, a[0]), Spoken(autoPong, next, a[1..]),
                  Spoken(autoPong, OpenThen(open, a), b));
    }
  }

  lemma {:induction false} HeardAppend(a: seq<Entry>, b: seq<Entry>)
    ensures HeardIn(a + b) == HeardIn(a) + HeardIn(b) && SaidIn(a + b) == SaidIn(a) + SaidIn(b)
  {
    if a == [] {
      assert a + b == b;
    } else {
      assert (a + b)[0] == a[0] && (a + b)[1..] == a[1..] + b;
      HeardAppend(a[1..], b);
      Associative(if a[0].Heard? then [a[0].event] else [], HeardIn(a[1..]), HeardIn(b));
      Associative(if a[0].Said? then [a[0].message] else [], SaidIn(a[1..]), SaidIn(b));
    }
  }

  lemma {:induction false} HeardsHeard(events: seq<Event>)
    ensures HeardIn(Heards(events)) == events && SaidIn(Heards(events)) == []
  {
    if events != [] {
      HeardsHeard(events[1..]);
      assert Heards(events)[1..] == Heards(events[1..]);
      assert events == [events[0]] + events[1..];
    }
  }

  lemma {:induction false} DataIsNotAnswered(autoPong: bool, open: bool, events: seq<Event>)
    requires forall e <- events :: e.IsData()
    ensures Spoken(autoPong, open, Heards(events)) == [] && OpenThen(open, Heards(events)) == open
  {
    if events != [] {
      assert events[0].IsData();
      DataIsNotAnswered(autoPong, open, events[1..]);
      assert Heards(events)[1..] == Heards(events[1..]);
    }
  }

  // ---- from one moment to a later one ------------------------------------------------------

  /** What a client shows to the outside: whether it is open, what it wrote, emitted and reported. */
  datatype Side = Side(open: bool, written: seq<Sent>, emitted: seq<Event>, failed: bool)

  /**
   Between two moments the client heard and said what the log tells and wrote exactly what that asks
   for; if it refused the stream, then at last the Close that says why.
   */
  ghost predicate Talked(autoPong: bool, a: Side, b: Side, log: seq<Entry>, code: nat) {
    && !a.failed && a.written <= b.written && b.emitted == a.emitted + HeardIn(log)
    && WroteAll(autoPong, a.open, log, MessagesOf(b.written[|a.written|..]), b.open, b.failed, code)
  }

  ghost predicate WroteAll(
    autoPong: bool, open: bool, log: seq<Entry>, said: seq<Message>, openNow: bool, failed: bool, code: nat)
  {
    var due, still := Spoken(autoPong, open, log), OpenThen(open, log);
    if failed then !openNow && due <= said && FailureReply(still, code, said[|due|..])
    else openNow == still && said == due
  }

  lemma TalkedTwice(autoPong: bool, a: Side, b: Side, c: Side, x: seq<Entry>, y: seq<Entry>, any: nat, code: nat)
    requires Talked(autoPong, a, b, x, any) && !b.failed && Talked(autoPong, b, c, y, code)
    ensures Talked(autoPong, a, c, x + y, code)
  {
    hide Spoken, OpenThen, FailureReply, HeardIn, WroteAll, MessagesOf;
    HeardAppend(x, y);
    Associative(a.emitted, HeardIn(x), HeardIn(y));
    var p, q := b.written[|a.written|..], c.written[|b.written|..];
    assert c.written[|a.written|..] == p + q;
    MessagesAppend(p, q);
    WroteTwice(autoPong, a.open, x, MessagesOf(p), b.open, any, y, MessagesOf(q), c.open, c.failed, code);
  }

  lemma MessagesAppend(p: seq<Sent>, q: seq<Sent>)
    ensures MessagesOf(p + q) == MessagesOf(p) + MessagesOf(q)
  {
  }

  lemma WroteTwice(
      autoPong: bool, open: bool, x: seq<Entry>, p: seq<Message>, mid: bool, any: nat,
      y: seq<Entry>, q: seq<Message>, openNow: bool, failed: bool, code: nat)
    requires WroteAll(autoPong, open, x, p, mid, false, any) && WroteAll(autoPong, mid, y, q, openNow, failed, code)
    ensures WroteAll(autoPong, open, x + y, p + q, openNow, failed, code)
  {
    hide Spoken, OpenThen, FailureReply;
    SpokenAppend(autoPong, open, x, y);
    if failed {
      var second := Spoken(autoPong, mid, y);
      assert (p + q)[|p + second|..] == q[|second|..];
    }
  }

  /** The caller said nothing: exactly the answers to the events emitted in between were written. */
  ghost predicate Spoke(autoPong: bool, a: Side, b: Side, code: nat) {
    a.emitted <= b.emitted && Talked(autoPong, a, b, Heards(b.emitted[|a.emitted|..]), code)
  }

  lemma SpokeNothing(autoPong: bool, a: Side, code: nat)
    requires !a.failed
    ensures Spoke(autoPong, a, a, code)
  {
  }

  lemma SpokeEvent(autoPong: bool, a: Side, b: Side, e: Event, code: nat)
    requires !a.failed && !b.failed && b.emitted == a.emitted + [e]
    requires Replied(autoPong, a.open, a.written, b.written, e, b.open)
    ensures Spoke(autoPong, a, b, code)
  {
    hide AnswerTo, Replied;
    assert b.emitted[|a.emitted|..] == [e];
    assert Heards([e]) == [Heard(e)];
    SpokenOne(autoPong, a.open, Heard(e));
    ReplyIsAnswer(autoPong, a.open, a.written, b.written, e, b.open);
  }

  lemma SpokenOne(autoPong: bool, open: bool, x: Entry)
    ensures Spoken(autoPong, open, [x]) == if x.Heard? then AnswerTo(autoPong, open, x.event) else [x.message]
    ensures OpenThen(open, [x]) == OpenAfterEntry(open, x)
    ensures HeardIn([x]) == (if x.Heard? then [x.event] else []) && SaidIn([x]) == if x.Said? then [x.message] else []
  {
    hide AnswerTo, OpenAfterEntry;
    assert [x][1..] == [];
  }

  lemma ReplyIsAnswer(autoPong: bool, open: bool, before: seq<Sent>, after: seq<Sent>, e: Event, openNow: bool)
    requires Replied(autoPong, open, before, after, e, openNow)
    ensures before <= after && MessagesOf(after[|before|..]) == AnswerTo(autoPong, open, e)
    ensures openNow == OpenAfterOne(open, e)
  {
  }

  lemma SpokeScan(autoPong: bool, a: Side, b: Side, events: seq<Event>, code: nat)
    requires !a.failed && b.emitted == a.emitted + events && forall e <- events :: e.IsData()
    requires if b.failed then !b.open && Complaint(a.open, a.written, b.written, code)
             else b.open == a.open && b.written == a.written
    ensures Spoke(autoPong, a, b, code)
  {
    hide Spoken, OpenThen, HeardIn;
    assert b.emitted[|a.emitted|..] == events;
    DataIsNotAnswered(autoPong, a.open, events);
    HeardsHeard(events);
    var said := MessagesOf(b.written[|a.written|..]);
    assert said[0..] == said;
  }

  lemma SpokeTwice(autoPong: bool, a: Side, b: Side, c: Side, any: nat, code: nat)
    requires Spoke(autoPong, a, b, any) && !b.failed && Spoke(autoPong, b, c, code)
    ensures Spoke(autoPong, a, c, code)
  {
    hide Talked;
    var x, y := b.emitted[|a.emitted|..], c.emitted[|b.emitted|..];
    assert c.emitted[|a.emitted|..] == x + y;
    assert Heards(x + y) == Heards(x) + Heards(y);
    TalkedTwice(autoPong, a, b, c, Heards(x), Heards(y), any, code);
  }

  /** A frame that the caller asked for. */
  lemma TalkedSaid(autoPong: bool, a: Side, b: Side, m: Message, code: nat)
    requires !a.failed && !b.failed && b.emitted == a.emitted && WroteOne(a.written, b.written, m.opcode)
    requires b.written[|a.written|].payload == m.payload && b.open == (a.open && !m.opcode.Close?)
    ensures Talked(autoPong, a, b, [Said(m)], code)
  {
    SpokenOne(autoPong, a.open, Said(m));
    assert a.emitted + [] == a.emitted;
  }

  lemma TalkedNothing(autoPong: bool, a: Side, code: nat)
    requires !a.failed
    ensures Talked(autoPong, a, a, [], code)
  {
  }

  /** A whole conversation, from before the handshake on. */
  ghost predicate Conversation(autoPong: bool, log: seq<Entry>, messages: seq<Message>, live: bool, code: nat) {
    var due := Spoken(autoPong, false, log);
    if live then messages == due
    else due <= messages && exists n :: Refusal(messages[|due|..], OpenThen(false, log), code, n)
  }

  /** The first n messages are the Close that refuses the stream, if one could still be written. */
  ghost predicate Refusal(messages: seq<Message>, open: bool, code: nat, n: nat) {
    n <= |messages| && FailureReply(open, code, messages[..n])
  }

  const START := Side(false, [], [], false)

  lemma Conversed(autoPong: bool, b: Side, log: seq<Entry>, code: nat, written: seq<Sent>)
    requires Talked(autoPong, START, b, log, code) && b.written <= written && (!b.failed ==> b.written == written)
    ensures Conversation(autoPong, log, MessagesOf(written), !b.failed, code)
    ensures b.emitted == HeardIn(log)
  {
    hide Spoken, OpenThen, FailureReply, HeardIn;
    assert [] + HeardIn(log) == HeardIn(log);
    assert b.written[0..] == b.written;
    if b.failed {
      var due, all := Spoken(autoPong, false, log), MessagesOf(written);
      var said := MessagesOf(b.written);
      assert said == all[..|said|];
      assert all[|due|..][..|said| - |due|] == said[|due|..];
      assert Refusal(all[|due|..], OpenThen(false, log), code, |said| - |due|);
    }
  }
}
