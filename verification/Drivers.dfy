/**
 What a completion makes of the driver's state, and what becomes of a connection whose peer has
 gone. src/connection_state.rs:753-791, 1315-1361 and 1475-1514, src/pool.rs:1933-1993.
 */
module Drivers {
  import opened Bytes
  import opened Decoder
  import opened States
  import opened Tokens
  import opened BufRing
  import opened Connection
  import opened Grouping
  import opened Slots
  import opened Pools

  /** The bytes that a completion hands to the client are more than it accepts. */
  predicate Refuses(setup: Setup, conn: Conn, c: Cqe) {
    Reads(conn, c) && !IngestAll(setup, conn, c.chunks).ok
  }

  /** The completion alone ends the connection: it failed, or the peer has closed. */
  predicate Cuts(setup: Setup, c: Cqe) {
    match c.kind
    case None => true
    case Some(Connect) => c.result < 0 || !c.ring.registered || !c.ring.armed
    case Some(Send) => c.result < 0
    case Some(Recv) =>
      || c.result == 0
      || (c.result < 0 && !(c.bid.None? && c.result == -105))
      || (c.result > 0 && c.bid.Some? && setup.usesTls && c.tls.failed)
    case Some(_) => false
  }

  /** Where a completion that is no error takes the driver, the client aside. */
  function Moved(setup: Setup, d: Driver, c: Cqe): (r: Driver) {
    match c.kind
    case Some(Connect) => if setup.usesTls then Driver.TlsHandshake else Driver.WsHandshake
    case Some(Close) => Driver.Closed
    case Some(Recv) =>
      if c.result <= 0 || c.bid.None? then d
      else if c.tls.closeNotify then Driver.Closing
      else if c.tls.ready && d.TlsHandshake? then Driver.WsHandshake
      else d
    case _ => d
  }

  /** On plain TCP there are no TLS effects. */
  predicate TlsSpeaks(setup: Setup, c: Cqe) { c.tls.failed ==> setup.usesTls }

  /** Parsing looks at the client and at the chunks fed so far, and at nothing else. */
  lemma {:induction false} SameParse(setup: Setup, a: Conn, b: Conn, chunks: seq<bytes>)
    requires a.ws == b.ws && a.fed == b.fed
    ensures var h, g := IngestAll(setup, a, chunks), IngestAll(setup, b, chunks);
            h.ok == g.ok && h.conn.ws == g.conn.ws && h.conn.fed == g.conn.fed
    decreases |chunks|
  {
    hide Run, DataOf, NextWsState;
    if chunks != [] {
      var h, g := Ingest(setup, a, chunks[0]), Ingest(setup, b, chunks[0]);
      if h.ok {
        SameParse(setup, h.conn, g.conn, chunks[1..]);
      }
    }
  }

  lemma RecvHandled(setup: Setup, conn: Conn, c: Cqe)
    requires setup.Valid() && !conn.driver.Closed? && c.kind == Some(Recv) && TlsSpeaks(setup, c)
    ensures var h := OnRecv(setup, conn, c);
            && (h.ok <==> !Cuts(setup, c) && !Refuses(setup, conn, c))
            && (h.ok ==> h.conn.driver == Moved(setup, conn.driver, c))
            && (!Reads(conn, c) ==> h.conn.ws == conn.ws && h.conn.events == conn.events)
  {
    hide IngestAll, BidsOf;
    var a := GiveBack(Disarm(conn, c), BidsOf(setup, c));
    SameParse(setup, conn, a, c.chunks);
    IngestAllKeeps(setup, a, c.chunks);
  }

  /** The driver's next state, exactly: Closed on an error, else as the client and the completion say. */
  lemma DriverLaw(setup: Setup, conn: Conn, c: Cqe)
    requires setup.Valid() && !conn.driver.Closed? && TlsSpeaks(setup, c)
    ensures var r, failed := Complete(setup, conn, c), Cuts(setup, c) || Refuses(setup, conn, c);
            && (failed ==> r.driver.Closed?)
            && (!failed && r.ws.state.Open? ==> r.driver.Open?)
            && (!failed && !r.ws.state.Open? ==>
                  if c.kind != Some(Close) && r.ws.state.Closed? then r.driver.Closing?
                  else r.driver == Moved(setup, conn.driver, c))
  {
    hide OnRecv, Discard, IngestAll;
    if c.kind == Some(Recv) {
      RecvHandled(setup, conn, c);
    }
  }

  /** A connect that succeeds brings the ring and an armed receive; nothing else ever brings a ring. */
  lemma ConnectLaw(setup: Setup, conn: Conn, c: Cqe)
    requires setup.Valid() && !conn.driver.Closed?
    ensures var r := Complete(setup, conn, c);
            && (c.kind == Some(Connect) && !Cuts(setup, c) ==> r.hasRing && r.armed)
            && (c.kind == Some(Connect) && Cuts(setup, c) ==> r.hasRing == conn.hasRing && r.armed == conn.armed)
            && (c.kind != Some(Connect) ==> r.hasRing == conn.hasRing && r.leaked == conn.leaked)
            && (c.kind != Some(Connect) && c.kind != Some(Recv) ==> r.armed == conn.armed)
  {
    hide OnRecv, Discard;
    RecvKeepsRing(setup, conn, c);
  }

  lemma RecvKeepsRing(setup: Setup, conn: Conn, c: Cqe)
    requires setup.Valid()
    ensures var r := OnRecv(setup, conn, c).conn; r.hasRing == conn.hasRing && r.leaked == conn.leaked
  {
    hide IngestAll, BidsOf;
    IngestAllKeeps(setup, GiveBack(Disarm(conn, c), BidsOf(setup, c)), c.chunks);
  }

  /** Only reading changes the client. */
  lemma OnlyReadingMovesTheClient(setup: Setup, conn: Conn, c: Cqe)
    requires setup.Valid() && !Reads(conn, c) && TlsSpeaks(setup, c)
    ensures Complete(setup, conn, c).ws == conn.ws && Complete(setup, conn, c).events == conn.events
  {
    hide OnRecv, Discard, Reads, Cuts, Refuses, Moved;
    if conn.driver.Closed? {
      DiscardKeeps(setup, conn, c);
    } else if c.kind == Some(Recv) {
      RecvHandled(setup, conn, c);
    }
  }

  /** The bytes of a receive decide: a failed stream is refused, a good one moves the client on. */
  lemma ReadLaw(setup: Setup, conn: Conn, c: Cqe)
    requires setup.Valid() && Sound(conn.ws) && Reads(conn, c) && c.chunks != [] && TlsSpeaks(setup, c)
    ensures var r := Complete(setup, conn, c);
            var o := Run(setup.cfg, conn.ws.phase, conn.ws.pending + Concat(c.chunks));
            && r.events == conn.events + DataOf(o.events)
            && (o.end.Failed? ==> r.driver.Closed? && !r.ws.state.Open?)
            && (o.end.Waiting? && c.tls.failed ==> r.driver.Closed?)
            && (o.end.Waiting? && !c.tls.failed ==>
                  && r.ws.phase == o.phase && r.ws.pending == o.rest
                  && (o.phase.Framing? && !conn.ws.state.Closing? ==> r.ws.state.Open? && r.driver.Open?)
                  && (o.phase.Finished? ==> r.ws.state.Closed? && r.driver.Closing?)
                  && (o.phase.Handshaking? ==>
                        r.ws.state.Connecting? && r.driver == Moved(setup, conn.driver, c)))
  {
    hide Run, IngestAll, BidsOf, DataOf, Ingested, Finish;
    var a := GiveBack(Disarm(conn, c), BidsOf(setup, c));
    IngestAllIsIngested(setup, a, c.chunks);
    SameParse(setup, conn, a, c.chunks);
    var h := IngestAll(setup, a, c.chunks);
    ReadFinish(setup, a, c, h);
    IngestedReads(setup, a, Concat(c.chunks), h);
    FinishKeeps(HandleOne(setup, conn, c));
    DriverLaw(setup, conn, c);
  }

  lemma ReadFinish(setup: Setup, conn: Conn, c: Cqe, h: Handled)
    ensures ApplyTls(h.conn, c.tls) == h.conn.(driver := ApplyTls(h.conn, c.tls).driver)
  {
  }

  lemma IngestedReads(setup: Setup, before: Conn, input: bytes, h: Handled)
    requires Ingested(setup, before, input, h) && Sound(before.ws)
    ensures var o := Run(setup.cfg, before.ws.phase, before.ws.pending + input);
            && h.conn.events == before.events + DataOf(o.events)
            && (o.end.Failed? ==> !h.ok)
            && (!h.ok ==> !h.conn.ws.state.Open?)
            && (o.end.Waiting? ==>
                  && h.ok && h.conn.ws.phase == o.phase && h.conn.ws.pending == o.rest
                  && (o.phase.Framing? && !before.ws.state.Closing? ==> h.conn.ws.state.Open?)
                  && (o.phase.Finished? ==> h.conn.ws.state.Closed?)
                  && (o.phase.Handshaking? ==> h.conn.ws.state.Connecting?))
  {
    hide Run, DataOf;
  }

  // ---- what that means for a pool ---------------------------------------------------------------

  /**
   How often the connection in slot i comes back from Closed while the list is handled, counting from
   position `from` of the list on.
   */
  function Comebacks(conns: Table, cs: seq<Cqe>, minGroup: nat, i: nat, from: int): (n: nat)
    requires minGroup > 0
    decreases |cs|
  {
    if cs == [] then 0
    else
      var found := ConnFor(conns, cs[0].token);
      if found.None? || !conns[found.value].value.setup.Valid() then Comebacks(conns, cs[1..], minGroup, i, from - 1)
      else
        var slot := conns[found.value].value;
        var n, batch := GroupSize(slot, cs, minGroup), Batched(slot, cs, minGroup);
        var r := Together(slot.setup, slot.conn, cs[..n], batch);
        (if found.value == i && from <= 0 && !batch && Revives(slot.conn, cs[0]) then 1 else 0)
        + Comebacks(conns[found.value := Some(slot.(conn := r))], cs[n..], minGroup, i, from - n)
  }

  /** A connection stays Closed as long as nothing brings it back. */
  lemma {:induction false} StaysClosed(conns: Table, cs: seq<Cqe>, minGroup: nat, i: nat, from: int)
    requires minGroup > 0 && from <= 0 && Holds(conns, i) && conns[i].value.conn.driver.Closed?
    requires Comebacks(conns, cs, minGroup, i, from) == 0
    ensures var after := Walk(conns, cs, minGroup).conns;
            Holds(after, i) && after[i].value.conn.driver.Closed?
    decreases |cs|
  {
    hide ConnFor, Together, Revives, Joiners;
    if cs != [] {
      var found := ConnFor(conns, cs[0].token);
      FoundThere(conns, cs[0].token);
      if found.None? || !conns[found.value].value.setup.Valid() {
        StaysClosed(conns, cs[1..], minGroup, i, from - 1);
      } else {
        var slot := conns[found.value].value;
        var n, batch := GroupSize(slot, cs, minGroup), Batched(slot, cs, minGroup);
        var r := Together(slot.setup, slot.conn, cs[..n], batch);
        if found.value == i {
          ClosedGroup(slot, cs, minGroup);
        }
        StaysClosed(conns[found.value := Some(slot.(conn := r))], cs[n..], minGroup, i, from - n);
      }
    }
  }

  lemma FoundThere(conns: Table, token: nat)
    ensures ConnFor(conns, token).Some? ==> Holds(conns, ConnFor(conns, token).value)
  {
    hide TokenConnId, EncodeConnToken;
  }

  lemma ClosedGroup(slot: Slot, cs: seq<Cqe>, minGroup: nat)
    requires cs != [] && minGroup > 0 && slot.setup.Valid() && slot.conn.driver.Closed?
    ensures var n, batch := GroupSize(slot, cs, minGroup), Batched(slot, cs, minGroup);
            && n == 1 && !batch
            && (!Revives(slot.conn, cs[0]) ==> Together(slot.setup, slot.conn, cs[..n], batch).driver.Closed?)
  {
    hide Complete, Revives;
    ReopensExactly(slot.setup, slot.conn, cs[0]);
  }

  lemma CutGroup(slot: Slot, cs: seq<Cqe>, minGroup: nat, k: nat)
    requires minGroup > 0 && slot.setup.Valid()
    requires k < |cs| && k < GroupSize(slot, cs, minGroup) && Cuts(slot.setup, cs[k])
    ensures var n, batch := GroupSize(slot, cs, minGroup), Batched(slot, cs, minGroup);
            && k == 0 && n == 1 && !batch
            && (Revives(slot.conn, cs[0]) || Together(slot.setup, slot.conn, cs[..n], batch).driver.Closed?)
  {
    hide Complete, Revives;
    if Batched(slot, cs, minGroup) {
      JoinersBatch(slot, cs[0].token, cs, k);
    } else if slot.conn.driver.Closed? {
      ReopensExactly(slot.setup, slot.conn, cs[0]);
    } else {
      CutCloses(slot.setup, slot.conn, cs[0]);
    }
  }

  lemma CutCloses(setup: Setup, conn: Conn, c: Cqe)
    requires setup.Valid() && !conn.driver.Closed? && Cuts(setup, c)
    ensures Complete(setup, conn, c).driver.Closed?
  {
    hide IngestAll, BidsOf;
  }

  lemma {:induction false} JoinersBatch(slot: Slot, token: nat, cs: seq<Cqe>, k: nat)
    requires k < Joiners(slot, token, cs)
    ensures CanBatch(slot.setup, slot.conn, cs[k])
  {
    if k > 0 {
      JoinersBatch(slot, token, cs[1..], k - 1);
    }
  }

  /**
   After a list of completions with an end of stream, a reset or a failed connect among them, the
   connection it was for is Closed, unless it or a later one brings that connection back.
   */
  lemma {:induction false} EndOfStreamCloses(conns: Table, cs: seq<Cqe>, minGroup: nat, i: nat, k: nat)
    requires minGroup > 0 && k < |cs| && Holds(conns, i) && conns[i].value.setup.Valid()
    requires ConnFor(conns, cs[k].token) == Some(i) && Cuts(conns[i].value.setup, cs[k])
    requires Comebacks(conns, cs, minGroup, i, k) == 0
    ensures var after := Walk(conns, cs, minGroup).conns;
            Holds(after, i) && after[i].value.conn.driver.Closed?
    decreases |cs|
  {
    hide ConnFor, Together, Revives, Joiners, Cuts;
    var found := ConnFor(conns, cs[0].token);
    FoundThere(conns, cs[0].token);
    if found.None? || !conns[found.value].value.setup.Valid() {
      assert cs[1..][k - 1] == cs[k];
      EndOfStreamCloses(conns, cs[1..], minGroup, i, k - 1);
    } else {
      var slot := conns[found.value].value;
      var n, batch := GroupSize(slot, cs, minGroup), Batched(slot, cs, minGroup);
      var r := Together(slot.setup, slot.conn, cs[..n], batch);
      var next := conns[found.value := Some(slot.(conn := r))];
      if k < n {
        SameToken(slot, cs, minGroup, k);
        CutGroup(slot, cs, minGroup, k);
        StaysClosed(next, cs[n..], minGroup, i, k - n);
      } else {
        assert cs[n..][k - n] == cs[k];
        SameConnFor(conns, found.value, slot.(conn := r), cs[k].token);
        EndOfStreamCloses(next, cs[n..], minGroup, i, k - n);
      }
    }
  }

  lemma SameConnFor(conns: Table, j: nat, s: Slot, token: nat)
    requires Holds(conns, j) && s.identity == conns[j].value.identity
    ensures ConnFor(conns[j := Some(s)], token) == ConnFor(conns, token)
  {
    hide TokenConnId, EncodeConnToken;
  }

  /** The members of a group carry one token. */
  lemma SameToken(slot: Slot, cs: seq<Cqe>, minGroup: nat, k: nat)
    requires minGroup > 0 && k < |cs| && k < GroupSize(slot, cs, minGroup)
    ensures cs[k].token == cs[0].token
  {
    if Batched(slot, cs, minGroup) {
      JoinersSame(slot, cs[0].token, cs, k);
    }
  }

  lemma {:induction false} JoinersSame(slot: Slot, token: nat, cs: seq<Cqe>, k: nat)
    requires k < Joiners(slot, token, cs)
    ensures cs[k].token == token
  {
    if k > 0 {
      JoinersSame(slot, token, cs[1..], k - 1);
    }
  }

  /** No connection comes back more often than the pool counts for all. */
  lemma {:induction false} ComebacksCounted(conns: Table, cs: seq<Cqe>, minGroup: nat, i: nat, from: int)
    requires minGroup > 0
    ensures Comebacks(conns, cs, minGroup, i, from) <= Walk(conns, cs, minGroup).revived
    decreases |cs|
  {
    hide ConnFor, Together, Revives, Joiners;
    if cs != [] {
      var found := ConnFor(conns, cs[0].token);
      FoundThere(conns, cs[0].token);
      if found.None? || !conns[found.value].value.setup.Valid() {
        ComebacksCounted(conns, cs[1..], minGroup, i, from - 1);
      } else {
        var slot := conns[found.value].value;
        var n, batch := GroupSize(slot, cs, minGroup), Batched(slot, cs, minGroup);
        var r := Together(slot.setup, slot.conn, cs[..n], batch);
        ComebacksCounted(conns[found.value := Some(slot.(conn := r))], cs[n..], minGroup, i, from - n);
      }
    }
  }

  // ---- the other things that move a driver's state -------------------------------------------------

  /**
   Before a wait, a connection that is neither idle nor closed has its receive armed again if it was not; it is
   closed exactly when its send or that receive cannot be submitted; and nothing else about it changes.
   */
  lemma SubmitLaw(conn: Conn, outcome: SubmitOutcome)
    ensures var r, idle := Submit(conn, outcome), conn.driver.Init? || conn.driver.Connecting?;
            && r == conn.(driver := r.driver, armed := r.armed)
            && r.driver == (if !idle && (!outcome.sendOk || (conn.hasRing && !conn.armed && !outcome.rearmOk))
                            then Driver.Closed else conn.driver)
            && (conn.armed ==> r.armed)
            && (!conn.armed ==>
                  (r.armed <==> conn.hasRing && !idle && !conn.driver.Closed? && outcome.sendOk && outcome.rearmOk))
  {
  }

  /** After the calls before a wait, an established connection is armed or closed. */
  lemma ArmedOrClosed(conn: Conn, outcome: SubmitOutcome)
    requires Healthy(conn) && conn.hasRing && !conn.driver.Init? && !conn.driver.Connecting?
    ensures Submit(conn, outcome).armed || Submit(conn, outcome).driver.Closed?
  {
  }

  /** An accepted close takes driver and client from Open to Closing; nothing else about the connection moves. */
  lemma CloseLaw(conn: Conn, accepted: bool)
    requires Healthy(conn)
    ensures var h, ending := InitiateClose(conn, accepted), conn.driver.Closed? || conn.driver.Closing?;
            && (h.ok <==> ending || conn.ws.state.Closing? || conn.ws.state.Closed?
                          || (conn.driver.Open? && conn.ws.state.Open? && accepted))
            && (ending || !h.ok ==> h.conn == conn)
            && (h.ok && conn.driver.Open? ==> h.conn.driver.Closing? && !h.conn.ws.state.Open?)
            && h.conn == conn.(ws := conn.ws.(state := h.conn.ws.state), driver := h.conn.driver)
            && (!conn.driver.Open? ==> h.conn == conn)
            && (!conn.ws.state.Open? ==> h.conn.ws == conn.ws)
            && (h.conn.ws.state != conn.ws.state ==> h.conn.ws.state.Closing?)
            && (h.conn.driver != conn.driver ==> h.conn.driver.Closing?)
  {
  }
}
