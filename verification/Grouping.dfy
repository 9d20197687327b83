/** Handling completions together means what handling them one at a time means. */
module Grouping {
  import opened Bytes
  import opened Decoder
  import opened States
  import opened Tokens
  import opened Ring
  import opened BufRing
  import opened Connection

  /** Nothing more will ever come out of this stream. */
  ghost predicate DeadConn(setup: Setup, conn: Conn) {
    Dead(Run(setup.cfg, conn.ws.phase, conn.ws.pending))
  }

  /** The states of a client that has not failed. */
  predicate Sound(ws: Ws) {
    && (ws.phase.Finished? <==> ws.state.Closed?)
    && (ws.phase.Handshaking? <==> ws.state.Connecting?)
  }

  // ---- ingesting chunks, together or apart -----------------------------------------------

  /** What ingesting some bytes does, up to the moment at which a doomed stream is reported. */
  ghost predicate Ingested(setup: Setup, before: Conn, input: bytes, h: Handled) {
    var r := Run(setup.cfg, before.ws.phase, before.ws.pending + input);
    && h.conn == before.(ws := h.conn.ws, fed := h.conn.fed, events := before.events + DataOf(r.events))
    && (r.end.Waiting? ==>
          h.ok && h.conn.ws == Ws(NextWsState(before.ws.state, r.phase, false), r.phase, r.rest))
    && (h.ok ==> h.conn.ws.phase == r.phase && h.conn.ws.pending == r.rest)
    && (!r.end.Waiting? ==> DeadConn(setup, h.conn))
    && (r.end.Failed? ==> !h.ok)
    && (!h.ok ==> !h.conn.ws.state.Open?)
    && (h.ok && Sound(before.ws) ==> Sound(h.conn.ws))
  }

  lemma IngestIsIngested(setup: Setup, conn: Conn, chunk: bytes)
    ensures Ingested(setup, conn, chunk, Ingest(setup, conn, chunk))
  {
    hide Run, DataOf;
    RunLeftover(setup.cfg, conn.ws.phase, conn.ws.pending + chunk);
  }

  lemma {:induction false} IngestAllIsIngested(setup: Setup, conn: Conn, chunks: seq<bytes>)
    requires chunks != [] && Sound(conn.ws)
    ensures Ingested(setup, conn, Concat(chunks), IngestAll(setup, conn, chunks))
    decreases |chunks|
  {
    hide Run, DataOf, Ingest, Ingested;
    var h := Ingest(setup, conn, chunks[0]);
    IngestIsIngested(setup, conn, chunks[0]);
    if |chunks| == 1 {
      assert Concat(chunks) == chunks[0] + Concat(chunks[1..]) == chunks[0];
      assert h.ok ==> IngestAll(setup, h.conn, chunks[1..]) == h;
    } else {
      var later := Concat(chunks[1..]);
      if h.ok {
        StillSound(setup, conn, chunks[0], h);
        IngestAllIsIngested(setup, h.conn, chunks[1..]);
        IngestedTwice(setup, conn, chunks[0], h, later, IngestAll(setup, h.conn, chunks[1..]));
      } else {
        IngestedThenDead(setup, conn, chunks[0], h, later);
      }
    }
  }

  lemma StillSound(setup: Setup, conn: Conn, chunk: bytes, h: Handled)
    requires Sound(conn.ws) && Ingested(setup, conn, chunk, h) && h.ok
    ensures Sound(h.conn.ws)
  {
    hide Run, DataOf;
  }

  /** The handshake happens once, and the end is the end. */
  lemma {:induction false} NoReturn(cfg: Config, phase: Phase, s: bytes)
    ensures !phase.Handshaking? ==> !Run(cfg, phase, s).phase.Handshaking?
    ensures phase.Finished? ==> Run(cfg, phase, s).phase.Finished?
    decreases |s|
  {
    match StepAt(cfg, phase, s)
    case Next(next, consumed, event) => NoReturn(cfg, next, s[consumed..]);
    case _ =>
  }

  lemma IngestedTwice(setup: Setup, conn: Conn, first: bytes, h: Handled, later: bytes, g: Handled)
    requires Sound(conn.ws) && Ingested(setup, conn, first, h) && h.ok && Ingested(setup, h.conn, later, g)
    ensures Ingested(setup, conn, first + later, g)
  {
    hide Run, DataOf;
    var cfg, pending := setup.cfg, conn.ws.pending;
    var r := Run(cfg, conn.ws.phase, pending + first);
    NoReturn(cfg, conn.ws.phase, pending + first);
    NoReturn(cfg, r.phase, r.rest + later);
    RunAppend(cfg, conn.ws.phase, pending + first, later);
    Associative(pending, first, later);
    if r.end.Waiting? {
      var r2 := Run(cfg, r.phase, r.rest + later);
      DataOfAppend(r.events, r2.events);
      Associative(conn.events, DataOf(r.events), DataOf(r2.events));
    } else {
      DeadStays(cfg, conn.ws.phase, pending + first, later);
      DeadStays(cfg, h.conn.ws.phase, h.conn.ws.pending, later);
      DataOfNone();
      assert h.conn.events + [] == h.conn.events;
    }
  }

  lemma DataOfNone()
    ensures DataOf([]) == []
  {
  }

  lemma IngestedThenDead(setup: Setup, conn: Conn, first: bytes, h: Handled, later: bytes)
    requires Ingested(setup, conn, first, h) && !h.ok
    ensures Ingested(setup, conn, first + later, h)
  {
    hide Run, DataOf;
    DeadStays(setup.cfg, conn.ws.phase, conn.ws.pending + first, later);
    Associative(conn.ws.pending, first, later);
  }

  lemma {:induction false} DeadIngest(setup: Setup, conn: Conn, chunks: seq<bytes>)
    requires DeadConn(setup, conn)
    ensures var h := IngestAll(setup, conn, chunks);
            DeadConn(setup, h.conn) && h.conn == conn.(ws := h.conn.ws, fed := h.conn.fed)
    decreases |chunks|
  {
    hide Run, DataOf, Ingest;
    if chunks != [] {
      var h := Ingest(setup, conn, chunks[0]);
      DeadIngestOne(setup, conn, chunks[0]);
      if h.ok {
        DeadIngest(setup, h.conn, chunks[1..]);
      }
    }
  }

  lemma DeadIngestOne(setup: Setup, conn: Conn, chunk: bytes)
    requires DeadConn(setup, conn)
    ensures var h := Ingest(setup, conn, chunk);
            DeadConn(setup, h.conn) && h.conn == conn.(ws := h.conn.ws, fed := h.conn.fed)
  {
    hide Run, DataOf, Ingest;
    IngestIsIngested(setup, conn, chunk);
    DeadStays(setup.cfg, conn.ws.phase, conn.ws.pending, chunk);
    DataOfNone();
    assert conn.events + [] == conn.events;
  }

  // ---- what the kernel promises along a run ---------------------------------------------

  /** Buffers come from a registered ring, and the one connect of a connection is what registers it. */
  predicate Deliverable(setup: Setup, conn: Conn, c: Cqe)
    requires setup.Valid()
  {
    && WellFormed(setup, c)
    && (c.bid.Some? ==> conn.hasRing)
    && (c.kind == Some(Connect) ==> !conn.hasRing)
  }

  predicate Posted(setup: Setup, conn: Conn, cs: seq<Cqe>)
    requires setup.Valid()
    decreases |cs|
  {
    cs == [] || (Deliverable(setup, conn, cs[0]) && Posted(setup, Complete(setup, conn, cs[0]), cs[1..]))
  }

  /** What handling completions keeps true of a connection. */
  predicate Healthy(conn: Conn) {
    && (conn.hasRing || (conn.ws.state.Connecting? && !conn.driver.Open?))
    && (conn.leaked ==> !conn.hasRing && conn.driver.Closed?)
    && ((conn.driver.Closed? && !conn.ws.state.Open?)
        || (Sound(conn.ws) && (conn.driver.Closed? || Sync(conn) == conn)))
  }

  /** The outcome of ingesting a list of chunks that may be empty. */
  ghost predicate Ran(setup: Setup, before: Conn, chunks: seq<bytes>, h: Handled) {
    if chunks == [] then h == Handled(before, true) else Ingested(setup, before, Concat(chunks), h)
  }

  lemma IngestAllRan(setup: Setup, conn: Conn, chunks: seq<bytes>)
    requires Sound(conn.ws)
    ensures Ran(setup, conn, chunks, IngestAll(setup, conn, chunks))
  {
    hide Ingested;
    if chunks != [] {
      IngestAllIsIngested(setup, conn, chunks);
    }
  }

  lemma RanVerdict(setup: Setup, conn: Conn, chunks: seq<bytes>, h: Handled)
    requires Ran(setup, conn, chunks, h) && Sound(conn.ws)
    ensures h.ok ==> Sound(h.conn.ws)
    ensures !h.ok ==> !h.conn.ws.state.Open?
    ensures h.conn == conn.(ws := h.conn.ws, fed := h.conn.fed, events := h.conn.events)
  {
    hide Run, DataOf;
  }

  lemma FinishKeeps(h: Handled)
    ensures Finish(h) == h.conn.(driver := Finish(h).driver)
  {
  }

  lemma HealthyStep(setup: Setup, conn: Conn, c: Cqe)
    requires setup.Valid() && Healthy(conn) && Deliverable(setup, conn, c)
    ensures Healthy(Complete(setup, conn, c))
  {
    hide Ran, IngestAll, BidsOf, WellFormed;
    if !conn.driver.Closed? && c.kind == Some(Recv) {
      var a := GiveBack(Disarm(conn, c), BidsOf(setup, c));
      IngestAllRan(setup, a, c.chunks);
      RanVerdict(setup, a, c.chunks, IngestAll(setup, a, c.chunks));
    }
  }

  lemma {:induction false} HealthyFold(setup: Setup, conn: Conn, cs: seq<Cqe>)
    requires setup.Valid() && Healthy(conn) && Posted(setup, conn, cs)
    ensures Healthy(Fold(setup, conn, cs))
    decreases |cs|
  {
    hide Healthy, Complete, Deliverable;
    if cs != [] {
      HealthyStep(setup, conn, cs[0]);
      HealthyFold(setup, Complete(setup, conn, cs[0]), cs[1..]);
    }
  }

  // ---- every buffer goes back, whatever becomes of the connection -------------------------

  function ReturnedBy(setup: Setup, c: Cqe): (s: seq<nat>)
    requires setup.Valid()
  {
    if c.kind == Some(Recv) then BidsOf(setup, c) else []
  }

  function ReturnedByAll(setup: Setup, cs: seq<Cqe>): (s: seq<nat>)
    requires setup.Valid()
  {
    if cs == [] then [] else ReturnedBy(setup, cs[0]) + ReturnedByAll(setup, cs[1..])
  }

  predicate ArmedAfter(armed: bool, c: Cqe) {
    if c.kind == Some(Recv) then armed && c.more else armed
  }

  /** A completion's buffers go back in order, open or closed, failing or not. */
  lemma StepReturns(setup: Setup, conn: Conn, c: Cqe)
    requires setup.Valid() && Deliverable(setup, conn, c)
    ensures Complete(setup, conn, c).recycled == conn.recycled + ReturnedBy(setup, c)
    ensures conn.hasRing ==>
              var r := Complete(setup, conn, c); r.hasRing && r.armed == ArmedAfter(conn.armed, c)
  {
    hide OnRecv, Discard, BidsOf, WellFormed, Finish;
    FinishKeeps(HandleOne(setup, conn, c));
    assert conn.recycled + [] == conn.recycled;
    if conn.driver.Closed? {
      DiscardReturns(setup, conn, c);
    } else if c.kind == Some(Recv) {
      OnRecvReturns(setup, conn, c);
    }
  }

  /** What a completion does to the buffers and to the armed flag. */
  predicate GaveBack(setup: Setup, before: Conn, c: Cqe, after: Conn)
    requires setup.Valid()
  {
    && after.recycled == before.recycled + ReturnedBy(setup, c)
    && after.hasRing == before.hasRing && after.armed == ArmedAfter(before.armed, c)
  }

  lemma DiscardReturns(setup: Setup, conn: Conn, c: Cqe)
    requires setup.Valid() && Deliverable(setup, conn, c)
    ensures GaveBack(setup, conn, c, Discard(setup, conn, c))
  {
    hide SliceCount, DiscardCount, BidAt;
    assert conn.recycled + [] == conn.recycled;
    if c.bid.Some? {
      DiscardedBids(setup, c);
    }
  }

  lemma OnRecvReturns(setup: Setup, conn: Conn, c: Cqe)
    requires setup.Valid() && Deliverable(setup, conn, c) && c.kind == Some(Recv)
    ensures GaveBack(setup, conn, c, OnRecv(setup, conn, c).conn)
  {
    hide IngestAll, SliceCount, BidAt;
    assert conn.recycled + [] == conn.recycled;
    IngestAllKeeps(setup, GiveBack(Disarm(conn, c), BidsOf(setup, c)), c.chunks);
  }

  lemma DiscardedBids(setup: Setup, c: Cqe)
    requires setup.Valid() && WellFormed(setup, c) && c.bid.Some?
    ensures var count := DiscardCount(setup.mode, c.result, setup.bufSize, setup.entries);
            BidsOf(setup, c) == seq(count, i requires 0 <= i < count => BidAt(c.bid.value, i, setup.entries))
  {
    hide DiscardCount, Ceil;
    if c.result == 0 {
      CeilOfZero(setup.bufSize);
    }
    DiscardMatchesDelivery(setup.mode, c.result, setup.bufSize, setup.entries);
  }

  lemma CeilOfZero(bufSize: nat)
    requires bufSize > 0
    ensures Ceil(0, bufSize) == 0
  {
    assert 0 % bufSize == 0 && 0 / bufSize == 0;
  }

  lemma {:induction false} IngestAllKeeps(setup: Setup, conn: Conn, chunks: seq<bytes>)
    ensures var r := IngestAll(setup, conn, chunks).conn;
            r == conn.(ws := r.ws, fed := r.fed, events := r.events)
    decreases |chunks|
  {
    hide Run, DataOf, NextWsState;
    if chunks != [] {
      var h := Ingest(setup, conn, chunks[0]);
      if h.ok {
        IngestAllKeeps(setup, h.conn, chunks[1..]);
      }
    }
  }

  /** Over any run, exactly the buffers that its completions name are given back, in order. */
  lemma {:induction false} FoldReturns(setup: Setup, conn: Conn, cs: seq<Cqe>)
    requires setup.Valid() && Posted(setup, conn, cs)
    ensures Fold(setup, conn, cs).recycled == conn.recycled + ReturnedByAll(setup, cs)
    decreases |cs|
  {
    hide Complete, ReturnedBy, Deliverable;
    if cs != [] {
      var next := Complete(setup, conn, cs[0]);
      StepReturns(setup, conn, cs[0]);
      FoldReturns(setup, next, cs[1..]);
      Associative(conn.recycled, ReturnedBy(setup, cs[0]), ReturnedByAll(setup, cs[1..]));
    }
  }

  // ---- a run of plain receives as one ------------------------------------------------------

  /** A plain receive that can join a batch while the connection is open. */
  predicate Joins(setup: Setup, c: Cqe)
    requires setup.Valid()
  {
    && !setup.usesTls && setup.mode.Multishot?
    && c.kind == Some(Recv) && c.result > 0 && c.bid.Some? && WellFormed(setup, c)
  }

  /** While open, a completion goes into a batch exactly when it can join one. */
  lemma BatchedExactly(setup: Setup, conn: Conn, c: Cqe)
    requires setup.Valid() && WellFormed(setup, c)
    ensures CanBatch(setup, conn, c) <==> conn.driver.Open? && Joins(setup, c)
  {
    hide WellFormed;
  }

  lemma {:induction false} DiscardFold(setup: Setup, conn: Conn, cs: seq<Cqe>)
    requires setup.Valid() && conn.driver.Closed? && conn.hasRing && !conn.ws.state.Open?
    requires forall c <- cs :: Joins(setup, c)
    ensures Fold(setup, conn, cs) == Returned(setup, conn, cs)
    decreases |cs|
  {
    hide Complete, Joins, BidsOf;
    if cs == [] {
      assert conn.recycled + [] == conn.recycled;
    } else {
      var next := Complete(setup, conn, cs[0]);
      DiscardOne(setup, conn, cs[0]);
      DiscardFold(setup, next, cs[1..]);
      ReturnedStep(setup, conn, cs);
    }
  }

  lemma DiscardOne(setup: Setup, conn: Conn, c: Cqe)
    requires setup.Valid() && conn.driver.Closed? && conn.hasRing && !conn.ws.state.Open? && Joins(setup, c)
    ensures Complete(setup, conn, c) == GiveBack(Disarm(conn, c), BidsOf(setup, c))
  {
    hide BidsOf, DiscardCount;
    DiscardedBids(setup, c);
  }

  lemma ReturnedStep(setup: Setup, conn: Conn, cs: seq<Cqe>)
    requires setup.Valid() && cs != []
    ensures Returned(setup, conn, cs)
         == Returned(setup, GiveBack(Disarm(conn, cs[0]), BidsOf(setup, cs[0])), cs[1..])
  {
    hide BidsOf;
    Associative(conn.recycled, BidsOf(setup, cs[0]), AllBids(setup, cs[1..]));
    assert AllMore(cs) == (cs[0].more && AllMore(cs[1..])) by {
      assert cs == [cs[0]] + cs[1..];
    }
  }

  /** Parsing does not look at buffers, at the armed flag or at the driver's state. */
  lemma IngestCommutes(setup: Setup, conn: Conn, chunk: bytes, cs: seq<Cqe>, driver: Driver)
    requires setup.Valid()
    ensures var h := Ingest(setup, conn, chunk);
            && Ingest(setup, Returned(setup, conn, cs), chunk) == Handled(Returned(setup, h.conn, cs), h.ok)
            && Ingest(setup, conn.(driver := driver), chunk) == Handled(h.conn.(driver := driver), h.ok)
  {
    hide Run, DataOf, NextWsState, AllMore, AllBids;
  }

  /** Following the client's state after each chunk is following it at the end. */
  lemma SyncLate(setup: Setup, conn: Conn, chunk: bytes)
    requires Sound(conn.ws) && !conn.driver.Closed?
    ensures var h := Ingest(setup, conn, chunk);
            h.ok ==> Sync(h.conn.(driver := Sync(conn).driver)) == Sync(h.conn)
  {
    hide Run, DataOf;
    NoReturn(setup.cfg, conn.ws.phase, conn.ws.pending + chunk);
  }

  lemma OneReceive(setup: Setup, conn: Conn, c: Cqe)
    requires setup.Valid() && Joins(setup, c) && !conn.driver.Closed?
    ensures HandleOne(setup, conn, c) == Ingest(setup, GiveBack(Disarm(conn, c), BidsOf(setup, c)), c.chunks[0])
    ensures |c.chunks| == 1
  {
    hide Ingest, BidsOf;
    var a := GiveBack(Disarm(conn, c), BidsOf(setup, c));
    var h := Ingest(setup, a, c.chunks[0]);
    assert h.ok ==> IngestAll(setup, h.conn, c.chunks[1..]) == h;
    assert IngestAll(setup, a, c.chunks) == h;
  }

  /** Slice by slice in one batch, or one completion at a time: the same connection results. */
  lemma {:induction false} SlicesFold(setup: Setup, conn: Conn, cs: seq<Cqe>)
    requires setup.Valid() && conn.hasRing && !conn.driver.Closed? && Sound(conn.ws)
    requires forall c <- cs :: Joins(setup, c)
    ensures Finish(IngestAll(setup, Returned(setup, conn, cs), AllChunks(cs))) == Fold(setup, Sync(conn), cs)
    decreases |cs|
  {
    hide Joins, BidsOf, Ingest, Sync, Returned, HandleOne, Ingested, Sound;
    if cs == [] {
      NothingReturned(setup, conn);
    } else {
      var c, rest := cs[0], cs[1..];
      var synced := Sync(conn);
      SyncedDriver(conn);
      assert |c.chunks| == 1 by { OneReceive(setup, synced, c); }
      var a := GiveBack(Disarm(conn, c), BidsOf(setup, c));
      var h := Ingest(setup, a, c.chunks[0]);
      OneReceive(setup, synced, c);
      IngestCommutes(setup, a, c.chunks[0], rest, synced.driver);
      ReturnedStep(setup, conn, cs);
      IngestIsIngested(setup, a, c.chunks[0]);
      IngestedFacts(setup, a, c.chunks[0], h);
      assert AllChunks(cs) == [c.chunks[0]] + AllChunks(rest);
      assert AllChunks(cs)[1..] == AllChunks(rest);
      if h.ok {
        SlicesFold(setup, h.conn, rest);
        SyncLate(setup, a, c.chunks[0]);
        SyncedDriver(a);
        assert Complete(setup, synced, c) == Sync(h.conn);
      } else {
        var closed := h.conn.(driver := Driver.Closed);
        DiscardFold(setup, closed, rest);
        assert Complete(setup, synced, c) == closed;
        ClosedReturned(setup, h.conn, rest);
      }
    }
  }

  lemma NothingReturned(setup: Setup, conn: Conn)
    requires setup.Valid()
    ensures Returned(setup, conn, []) == conn
  {
    assert conn.recycled + [] == conn.recycled;
  }

  lemma SyncedDriver(conn: Conn)
    requires !conn.driver.Closed?
    ensures Sync(conn) == conn.(driver := Sync(conn).driver) && !Sync(conn).driver.Closed?
    ensures forall r: Conn :: r.driver == conn.driver && r.ws == conn.ws ==> Sync(r).driver == Sync(conn).driver
  {
  }

  lemma ClosedReturned(setup: Setup, conn: Conn, cs: seq<Cqe>)
    requires setup.Valid()
    ensures Returned(setup, conn.(driver := Driver.Closed), cs) == Returned(setup, conn, cs).(driver := Driver.Closed)
  {
  }

  lemma IngestedFacts(setup: Setup, conn: Conn, chunk: bytes, h: Handled)
    requires Ingested(setup, conn, chunk, h) && Sound(conn.ws)
    ensures h.ok ==> Sound(h.conn.ws)
    ensures !h.ok ==> !h.conn.ws.state.Open?
    ensures h.conn == conn.(ws := h.conn.ws, fed := h.conn.fed, events := h.conn.events)
  {
    hide Run, DataOf;
  }

  // ---- connections that cannot be told apart from outside -------------------------------

  /**
   Same deliveries and buffers; and either the same parser and driver state, or both
   streams are dead and only the moment at which that is reported may differ.
   */
  ghost predicate Twin(setup: Setup, a: Conn, b: Conn) {
    && a.events == b.events && a.recycled == b.recycled && a.armed == b.armed
    && a.hasRing == b.hasRing && a.leaked == b.leaked
    && ((a.driver == b.driver && a.ws == b.ws) || (a.hasRing && DeadConn(setup, a) && DeadConn(setup, b)))
  }

  /** Without the copying batch path nothing at all differs. */
  ghost predicate Alike(setup: Setup, a: Conn, b: Conn) {
    Twin(setup, a, b) && (setup.copyMax == 0 ==> a == b)
  }

  lemma AlikeThrough(setup: Setup, a: Conn, b: Conn, c: Conn)
    requires Alike(setup, a, b) && Alike(setup, b, c)
    ensures Alike(setup, a, c)
  {
    hide Run;
  }

  lemma DeadDriver(setup: Setup)
    ensures forall a: Conn, b: Conn :: DeadConn(setup, a) && a.ws == b.ws ==> DeadConn(setup, b)
  {
    hide Run;
  }

  lemma DeadStep(setup: Setup, conn: Conn, c: Cqe)
    requires setup.Valid() && conn.hasRing && DeadConn(setup, conn) && Deliverable(setup, conn, c)
    ensures DeadConn(setup, Complete(setup, conn, c)) && Complete(setup, conn, c).events == conn.events
    ensures Complete(setup, conn, c).leaked == conn.leaked
  {
    hide Run, IngestAll, BidsOf, WellFormed, Finish, DeadConn;
    FinishKeeps(HandleOne(setup, conn, c));
    DeadDriver(setup);
    DeadIngest(setup, GiveBack(Disarm(conn, c), BidsOf(setup, c)), c.chunks);
  }

  predicate Reads(conn: Conn, c: Cqe) {
    !conn.driver.Closed? && c.kind == Some(Recv) && c.bid.Some? && c.result > 0
  }

  /** Two connections that differ in their chunk history only. */
  lemma LiveStep(setup: Setup, a: Conn, b: Conn, c: Cqe)
    requires setup.Valid() && Healthy(b) && Deliverable(setup, b, c) && a == b.(fed := a.fed)
    ensures Twin(setup, Complete(setup, a, c), Complete(setup, b, c))
  {
    hide IngestAll, Twin, Complete, BidsOf, WellFormed;
    if Reads(b, c) {
      LiveRead(setup, a, b, c);
    } else {
      OtherStep(setup, a, b, c);
      SameConn(setup, Complete(setup, a, c), Complete(setup, b, c));
    }
  }

  lemma LiveRead(setup: Setup, a: Conn, b: Conn, c: Cqe)
    requires setup.Valid() && Sound(b.ws) && b.hasRing && Reads(b, c) && a == b.(fed := a.fed)
    ensures Twin(setup, Complete(setup, a, c), Complete(setup, b, c))
  {
    hide Run, IngestAll, BidsOf, Ran, Twin, Kin, Discard, Finish, ApplyTls;
    var a', b' := GiveBack(Disarm(a, c), BidsOf(setup, c)), GiveBack(Disarm(b, c), BidsOf(setup, c));
    IngestAllRan(setup, a', c.chunks);
    IngestAllRan(setup, b', c.chunks);
    var h, g := IngestAll(setup, a', c.chunks), IngestAll(setup, b', c.chunks);
    SameRun(setup, a', b', c.chunks, h, g);
    if c.tls.failed {
      FailedTwins(setup, h, g);
    } else {
      TlsKin(setup, h, g, c.tls);
      FinishTwins(setup, Handled(ApplyTls(h.conn, c.tls), h.ok), Handled(ApplyTls(g.conn, c.tls), g.ok));
    }
  }

  /** Only reading looks at the chunk history. */
  lemma OtherStep(setup: Setup, a: Conn, b: Conn, c: Cqe)
    requires setup.Valid() && !Reads(b, c) && a == b.(fed := a.fed)
    ensures Complete(setup, a, c) == Complete(setup, b, c).(fed := a.fed)
  {
    hide HandleOne, Finish;
    OtherHandled(setup, a, b, c);
    OtherFinish(HandleOne(setup, a, c), HandleOne(setup, b, c), a.fed);
  }

  lemma OtherFinish(h: Handled, g: Handled, fed: seq<bytes>)
    requires h == Handled(g.conn.(fed := fed), g.ok)
    ensures Finish(h) == Finish(g).(fed := fed)
  {
  }

  lemma OtherHandled(setup: Setup, a: Conn, b: Conn, c: Cqe)
    requires setup.Valid() && !Reads(b, c) && a == b.(fed := a.fed)
    ensures var h, g := HandleOne(setup, a, c), HandleOne(setup, b, c);
            h == Handled(g.conn.(fed := a.fed), g.ok)
  {
    hide OnRecv, Discard;
    OtherDiscard(setup, a, b, c);
    if !b.driver.Closed? && c.kind == Some(Recv) {
      OtherRecv(setup, a, b, c);
    }
  }

  lemma OtherDiscard(setup: Setup, a: Conn, b: Conn, c: Cqe)
    requires setup.Valid() && a == b.(fed := a.fed)
    ensures Discard(setup, a, c) == Discard(setup, b, c).(fed := a.fed)
  {
    hide DiscardCount, BidAt;
  }

  lemma OtherRecv(setup: Setup, a: Conn, b: Conn, c: Cqe)
    requires setup.Valid() && (c.bid.None? || c.result <= 0) && a == b.(fed := a.fed)
    ensures var h, g := OnRecv(setup, a, c), OnRecv(setup, b, c);
            h == Handled(g.conn.(fed := a.fed), g.ok)
  {
    hide IngestAll, BidsOf;
  }

  lemma SameConn(setup: Setup, a: Conn, b: Conn)
    requires a == b.(fed := a.fed)
    ensures Twin(setup, a, b)
  {
  }

  lemma SameRun(setup: Setup, a: Conn, b: Conn, chunks: seq<bytes>, h: Handled, g: Handled)
    requires a == b.(fed := a.fed) && b.hasRing
    requires Ran(setup, a, chunks, h) && Ran(setup, b, chunks, g)
    ensures Kin(setup, h, g) && h.conn.driver == b.driver
  {
    hide Run, DataOf;
  }

  ghost predicate Kin(setup: Setup, h: Handled, g: Handled) {
    && h.conn == g.conn.(ws := h.conn.ws, fed := h.conn.fed) && g.conn.hasRing
    && ((h.ok && g.ok && h.conn.ws == g.conn.ws) || (DeadConn(setup, h.conn) && DeadConn(setup, g.conn)))
  }

  lemma FinishTwins(setup: Setup, h: Handled, g: Handled)
    requires Kin(setup, h, g)
    ensures Twin(setup, Finish(h), Finish(g))
  {
    hide DeadConn;
    DeadDriver(setup);
  }

  lemma FailedTwins(setup: Setup, h: Handled, g: Handled)
    requires Kin(setup, h, g)
    ensures Twin(setup, Finish(Handled(h.conn, false)), Finish(Handled(g.conn, false)))
  {
    hide DeadConn;
    DeadDriver(setup);
  }

  lemma TlsKin(setup: Setup, h: Handled, g: Handled, tls: TlsEffect)
    requires Kin(setup, h, g)
    ensures Kin(setup, Handled(ApplyTls(h.conn, tls), h.ok), Handled(ApplyTls(g.conn, tls), g.ok))
  {
    hide DeadConn;
    DeadDriver(setup);
  }

  lemma AlikeStep(setup: Setup, a: Conn, b: Conn, c: Cqe)
    requires setup.Valid() && Alike(setup, a, b) && Healthy(b) && Deliverable(setup, b, c)
    ensures Alike(setup, Complete(setup, a, c), Complete(setup, b, c))
  {
    hide Run, Complete, Healthy, WellFormed, DeadConn;
    if a.driver == b.driver && a.ws == b.ws {
      LiveStep(setup, a, b, c);
    } else {
      DeadStep(setup, a, c);
      DeadStep(setup, b, c);
      StepReturns(setup, a, c);
      StepReturns(setup, b, c);
    }
  }

  lemma {:induction false} AlikeFold(setup: Setup, a: Conn, b: Conn, cs: seq<Cqe>)
    requires setup.Valid() && Alike(setup, a, b) && Healthy(b) && Posted(setup, b, cs)
    ensures Alike(setup, Fold(setup, a, cs), Fold(setup, b, cs))
    decreases |cs|
  {
    hide Complete, Healthy, Alike, Deliverable;
    if cs != [] {
      AlikeStep(setup, a, b, cs[0]);
      HealthyStep(setup, b, cs[0]);
      AlikeFold(setup, Complete(setup, a, cs[0]), Complete(setup, b, cs[0]), cs[1..]);
    }
  }

  /**
   The copied batch, the slice batch and one-at-a-time handling deliver the same events and give
   back the same buffers in the same order, also when a chunk fails part-way.
   */
  lemma BatchAlike(setup: Setup, conn: Conn, cs: seq<Cqe>)
    requires setup.Valid() && Healthy(conn) && conn.driver.Open? && cs != []
    requires forall c <- cs :: Joins(setup, c)
    ensures Alike(setup, Finish(HandleBatch(setup, conn, cs)), Fold(setup, conn, cs))
  {
    hide Run, IngestAll, Ingest, Returned, Ingested, Fold, DeadConn, Joins;
    SlicesFold(setup, conn, cs);
    assert Sync(conn) == conn;
    var base := Returned(setup, conn, cs);
    ReturnedKeeps(setup, conn, cs);
    var slices := IngestAll(setup, base, AllChunks(cs));
    SameConn(setup, Finish(slices), Finish(slices));
    if setup.copyMax > 0 && TotalResult(cs) <= setup.copyMax {
      AllChunksSome(setup, cs);
      IngestIsIngested(setup, base, Concat(AllChunks(cs)));
      IngestAllIsIngested(setup, base, AllChunks(cs));
      var copied := Ingest(setup, base, Concat(AllChunks(cs)));
      SameIngest(setup, base, Concat(AllChunks(cs)), copied, slices);
      FinishTwins(setup, copied, slices);
    }
  }

  lemma ReturnedKeeps(setup: Setup, conn: Conn, cs: seq<Cqe>)
    requires setup.Valid()
    ensures var r := Returned(setup, conn, cs);
            r == conn.(armed := r.armed, recycled := r.recycled)
  {
  }

  lemma AllChunksSome(setup: Setup, cs: seq<Cqe>)
    requires setup.Valid() && cs != [] && Joins(setup, cs[0])
    ensures AllChunks(cs) != []
  {
  }

  lemma SameIngest(setup: Setup, conn: Conn, input: bytes, h: Handled, g: Handled)
    requires conn.hasRing && Ingested(setup, conn, input, h) && Ingested(setup, conn, input, g)
    ensures Kin(setup, h, g) && h.conn.driver == conn.driver
  {
    hide Run, DataOf;
  }

  // ---- the completions of one connection in a list --------------------------------------

  function Own(token: nat, cs: seq<Cqe>): (r: seq<Cqe>) {
    if cs == [] then []
    else (if cs[0].token == token then [cs[0]] else []) + Own(token, cs[1..])
  }

  lemma {:induction false} OwnAppend(token: nat, a: seq<Cqe>, b: seq<Cqe>)
    ensures Own(token, a + b) == Own(token, a) + Own(token, b)
  {
    if a == [] {
      assert a + b == b;
    } else {
      assert (a + b)[0] == a[0] && (a + b)[1..] == a[1..] + b;
      OwnAppend(token, a[1..], b);
      Associative(if a[0].token == token then [a[0]] else [], Own(token, a[1..]), Own(token, b));
    }
  }

  lemma {:induction false} OwnAll(token: nat, cs: seq<Cqe>)
    ensures (forall c <- cs :: c.token == token) ==> Own(token, cs) == cs
    ensures (forall c <- cs :: c.token != token) ==> Own(token, cs) == []
  {
    if cs != [] {
      OwnAll(token, cs[1..]);
      assert cs == [cs[0]] + cs[1..];
    }
  }

  lemma {:induction false} FoldAppend(setup: Setup, conn: Conn, a: seq<Cqe>, b: seq<Cqe>)
    requires setup.Valid()
    ensures Fold(setup, conn, a + b) == Fold(setup, Fold(setup, conn, a), b)
    ensures Posted(setup, conn, a + b) ==> Posted(setup, conn, a) && Posted(setup, Fold(setup, conn, a), b)
    decreases |a|
  {
    hide Complete, Deliverable;
    if a == [] {
      assert a + b == b;
    } else {
      assert (a + b)[0] == a[0] && (a + b)[1..] == a[1..] + b;
      FoldAppend(setup, Complete(setup, conn, a[0]), a[1..], b);
    }
  }

  lemma {:induction false} PostedWell(setup: Setup, conn: Conn, cs: seq<Cqe>)
    requires setup.Valid() && Posted(setup, conn, cs)
    ensures forall c <- cs :: WellFormed(setup, c)
    decreases |cs|
  {
    hide Complete, WellFormed;
    if cs != [] {
      PostedWell(setup, Complete(setup, conn, cs[0]), cs[1..]);
      assert cs == [cs[0]] + cs[1..];
    }
  }

  /** What the pool does with one group: one completion alone, or a batch. */
  function Together(setup: Setup, conn: Conn, group: seq<Cqe>, batch: bool): (r: Conn)
    requires setup.Valid() && group != []
  {
    if batch then Finish(HandleBatch(setup, conn, group)) else Complete(setup, conn, group[0])
  }

  predicate Groupable(setup: Setup, conn: Conn, group: seq<Cqe>, batch: bool) {
    if batch then group != [] && forall c <- group :: CanBatch(setup, conn, c) else |group| == 1
  }

  lemma HealthyBatch(setup: Setup, conn: Conn, cs: seq<Cqe>)
    requires setup.Valid() && Healthy(conn) && conn.driver.Open?
    ensures Healthy(Finish(HandleBatch(setup, conn, cs)))
  {
    hide Ran, Run, Ingested, IngestAll, Ingest, Returned;
    var base := Returned(setup, conn, cs);
    ReturnedKeeps(setup, conn, cs);
    IngestIsIngested(setup, base, Concat(AllChunks(cs)));
    var copied := Ingest(setup, base, Concat(AllChunks(cs)));
    IngestedFacts(setup, base, Concat(AllChunks(cs)), copied);
    IngestAllRan(setup, base, AllChunks(cs));
    RanVerdict(setup, base, AllChunks(cs), IngestAll(setup, base, AllChunks(cs)));
  }

  /** Grouping is invisible: the group, handled together, does what its members do one at a time. */
  lemma GroupAlike(setup: Setup, conn: Conn, alone: Conn, group: seq<Cqe>, batch: bool)
    requires setup.Valid() && Healthy(conn) && Healthy(alone) && Alike(setup, conn, alone)
    requires Posted(setup, alone, group) && Groupable(setup, conn, group, batch)
    ensures var r := Together(setup, conn, group, batch);
            Healthy(r) && Alike(setup, r, Fold(setup, alone, group))
  {
    hide Healthy, WellFormed, Complete, HandleBatch, Finish, Alike;
    AlikeFold(setup, conn, alone, group);
    if batch {
      PostedWell(setup, alone, group);
      OpenGroup(setup, conn, group);
      HealthyBatch(setup, conn, group);
      BatchAlike(setup, conn, group);
      AlikeThrough(setup, Together(setup, conn, group, batch), Fold(setup, conn, group), Fold(setup, alone, group));
    } else {
      SameRing(setup, conn, alone);
      HealthyStep(setup, conn, group[0]);
      assert Fold(setup, Complete(setup, conn, group[0]), group[1..]) == Complete(setup, conn, group[0]);
    }
  }

  lemma OpenGroup(setup: Setup, conn: Conn, group: seq<Cqe>)
    requires setup.Valid() && group != [] && forall c <- group :: CanBatch(setup, conn, c)
    ensures conn.driver.Open?
  {
    assert group[0] in group;
  }

  lemma SameRing(setup: Setup, a: Conn, b: Conn)
    requires Alike(setup, a, b)
    ensures a.hasRing == b.hasRing
  {
  }

  // ---- the driver's Closed is not final ----------------------------------------------------

  /** The driver has given up while the client has not. */
  predicate Stranded(conn: Conn) {
    conn.driver.Closed? && conn.ws.state.Open?
  }

  predicate Revives(conn: Conn, c: Cqe) {
    Stranded(conn) && c.kind.Some?
  }

  /** A connection comes back from Closed exactly when a completion arrives while its client is open. */
  lemma ReopensExactly(setup: Setup, conn: Conn, c: Cqe)
    requires setup.Valid()
    ensures conn.driver.Closed? && !Complete(setup, conn, c).driver.Closed? <==> Revives(conn, c)
  {
    hide DiscardCount, OnRecv;
  }

  /** How often a list of completions brings a connection back. */
  function Revivals(setup: Setup, conn: Conn, cs: seq<Cqe>): (n: nat)
    requires setup.Valid()
    decreases |cs|
  {
    if cs == [] then 0
    else (if Revives(conn, cs[0]) then 1 else 0) + Revivals(setup, Complete(setup, conn, cs[0]), cs[1..])
  }

  lemma {:induction false} RevivalsAppend(setup: Setup, conn: Conn, a: seq<Cqe>, b: seq<Cqe>)
    requires setup.Valid()
    ensures Revivals(setup, conn, a + b) == Revivals(setup, conn, a) + Revivals(setup, Fold(setup, conn, a), b)
    decreases |a|
  {
    hide Complete, Revives;
    if a == [] {
      assert a + b == b;
    } else {
      assert (a + b)[0] == a[0] && (a + b)[1..] == a[1..] + b;
      RevivalsAppend(setup, Complete(setup, conn, a[0]), a[1..], b);
    }
  }

  /** A completion that makes the driver give up whatever the client thinks. */
  predicate HangsUp(c: Cqe) {
    match c.kind
    case None => true
    case Some(Send) => c.result < 0
    case Some(Close) => true
    case Some(Recv) => c.result == 0 || (c.result < 0 && c.result != -ENOBUFS) || c.tls.failed
    case Some(_) => false
  }

  /** No other completion strands a connection. */
  lemma StaysAfloat(setup: Setup, conn: Conn, c: Cqe)
    requires setup.Valid() && Healthy(conn) && Deliverable(setup, conn, c) && !Stranded(conn) && !HangsUp(c)
    ensures !Stranded(Complete(setup, conn, c))
  {
    hide IngestAll, BidsOf, Ran, Discard, WellFormed;
    DiscardKeeps(setup, conn, c);
    if !conn.driver.Closed? && c.kind == Some(Recv) {
      KernelSigns(setup, conn, c);
      var a := GiveBack(Disarm(conn, c), BidsOf(setup, c));
      IngestAllRan(setup, a, c.chunks);
      RanVerdict(setup, a, c.chunks, IngestAll(setup, a, c.chunks));
    }
  }

  lemma KernelSigns(setup: Setup, conn: Conn, c: Cqe)
    requires setup.Valid() && Deliverable(setup, conn, c)
    ensures c.bid.Some? ==> c.result >= 0
  {
  }

  lemma DiscardKeeps(setup: Setup, conn: Conn, c: Cqe)
    requires setup.Valid()
    ensures var r := Discard(setup, conn, c);
            r == conn.(armed := r.armed, recycled := r.recycled)
  {
    hide DiscardCount;
  }

  lemma BatchStaysAfloat(setup: Setup, conn: Conn, cs: seq<Cqe>)
    requires setup.Valid() && Healthy(conn) && conn.driver.Open?
    ensures !Stranded(Finish(HandleBatch(setup, conn, cs)))
  {
    hide Ran, Run, Ingested, IngestAll, Ingest, Returned;
    var base := Returned(setup, conn, cs);
    ReturnedKeeps(setup, conn, cs);
    IngestIsIngested(setup, base, Concat(AllChunks(cs)));
    IngestedFacts(setup, base, Concat(AllChunks(cs)), Ingest(setup, base, Concat(AllChunks(cs))));
    IngestAllRan(setup, base, AllChunks(cs));
    RanVerdict(setup, base, AllChunks(cs), IngestAll(setup, base, AllChunks(cs)));
  }

  /** Nothing hangs up, except perhaps the last completion of all. */
  predicate Orderly(cs: seq<Cqe>) {
    forall k :: 0 <= k < |cs| - 1 ==> !HangsUp(cs[k])
  }

  lemma {:induction false} NeverRevived(setup: Setup, conn: Conn, cs: seq<Cqe>)
    requires setup.Valid() && Healthy(conn) && Posted(setup, conn, cs) && !Stranded(conn) && Orderly(cs)
    ensures Revivals(setup, conn, cs) == 0
    ensures (forall c <- cs :: !HangsUp(c)) ==> !Stranded(Fold(setup, conn, cs))
    decreases |cs|
  {
    hide Complete, Deliverable, Healthy, HangsUp;
    if |cs| > 0 {
      var next := Complete(setup, conn, cs[0]);
      HealthyStep(setup, conn, cs[0]);
      if !HangsUp(cs[0]) {
        StaysAfloat(setup, conn, cs[0]);
        NeverRevived(setup, next, cs[1..]);
      } else {
        assert cs[1..] == [];
      }
    }
  }

  lemma JoinersDoNotHangUp(setup: Setup, cs: seq<Cqe>)
    requires setup.Valid() && forall c <- cs :: Joins(setup, c)
    ensures forall c <- cs :: !HangsUp(c)
  {
  }

  /** For such a list the revivals can be foretold: everything is exact, or nothing is stranded. */
  predicate Countable(setup: Setup, conn: Conn, cs: seq<Cqe>) {
    setup.copyMax == 0 || cs == [] || (!Stranded(conn) && Orderly(cs))
  }

  /** What the pool counts for a group is what its members do one at a time. */
  lemma GroupRevives(setup: Setup, conn: Conn, alone: Conn, group: seq<Cqe>, batch: bool)
    requires setup.Valid() && Healthy(conn) && Healthy(alone) && Posted(setup, alone, group)
    requires Groupable(setup, conn, group, batch)
    requires conn == alone || (!Stranded(conn) && !Stranded(alone) && Orderly(group))
    ensures Revivals(setup, alone, group) == if !batch && Revives(conn, group[0]) then 1 else 0
  {
    hide Healthy, WellFormed, Complete, HandleBatch, Finish, HangsUp;
    if batch {
      PostedWell(setup, alone, group);
      OpenGroup(setup, conn, group);
      JoinersDoNotHangUp(setup, group);
      NeverRevived(setup, alone, group);
    } else if conn != alone {
      NeverRevived(setup, alone, group);
    } else {
      assert group[1..] == [];
    }
  }

  /** A reset, then the completion of an earlier send. */
  lemma ReopenWitness(setup: Setup, conn: Conn)
    requires setup.Valid() && conn.driver.Open? && conn.ws.state.Open?
    ensures var reset := Cqe(0, Some(Recv), -104, None, false, [], TLS_NONE, RingSetup(true, true, true));
            var sent := Cqe(0, Some(Send), 1, None, false, [], TLS_NONE, RingSetup(true, true, true));
            && Complete(setup, conn, reset).driver.Closed?
            && Complete(setup, Complete(setup, conn, reset), sent).driver.Open?
  {
    hide IngestAll, BidsOf;
  }

  /** A ring is left behind exactly when it was registered and could be neither armed nor unregistered. */
  lemma LeaksExactly(setup: Setup, conn: Conn, c: Cqe)
    requires setup.Valid() && !conn.leaked
    ensures Complete(setup, conn, c).leaked <==>
              && !conn.driver.Closed? && c.kind == Some(Connect) && c.result >= 0
              && c.ring.registered && !c.ring.armed && !c.ring.unregistered
  {
    hide IngestAll, DiscardCount, BidsOf;
    IngestAllKeeps(setup, GiveBack(Disarm(conn, c), BidsOf(setup, c)), c.chunks);
  }

  /** A group strands a connection only if one of its members hangs up. */
  lemma GroupStaysAfloat(setup: Setup, conn: Conn, alone: Conn, group: seq<Cqe>, batch: bool)
    requires setup.Valid() && Healthy(conn) && Alike(setup, conn, alone) && Posted(setup, alone, group)
    requires Groupable(setup, conn, group, batch) && !Stranded(conn) && forall c <- group :: !HangsUp(c)
    ensures !Stranded(Together(setup, conn, group, batch))
  {
    hide Healthy, WellFormed, Complete, HandleBatch, Finish, HangsUp, Alike;
    if batch {
      OpenGroup(setup, conn, group);
      BatchStaysAfloat(setup, conn, group);
    } else {
      SameRing(setup, conn, alone);
      StaysAfloat(setup, conn, group[0]);
    }
  }

  /** The witness: connected and registered, but neither the receive nor the way back works. */
  lemma LeakWitness(setup: Setup, conn: Conn, token: nat)
    requires setup.Valid() && conn.driver.Connecting? && !conn.hasRing
    ensures var c := Cqe(token, Some(Connect), 0, None, false, [], TLS_NONE, RingSetup(true, false, false));
            var r := Complete(setup, conn, c);
            r.leaked && !r.hasRing && r.driver.Closed?
  {
    hide IngestAll, BidsOf;
  }

  /** A completion after which the kernel may keep a ring that the connection does not know of. */
  predicate Leaky(c: Cqe) {
    c.kind == Some(Connect) && c.ring.registered && !c.ring.armed && !c.ring.unregistered
  }

  lemma {:induction false} FoldKeepsNoLeak(setup: Setup, conn: Conn, cs: seq<Cqe>)
    requires setup.Valid() && !conn.leaked && forall c <- cs :: !Leaky(c)
    ensures !Fold(setup, conn, cs).leaked
    decreases |cs|
  {
    hide Complete;
    if cs != [] {
      assert !Leaky(cs[0]);
      LeaksExactly(setup, conn, cs[0]);
      FoldKeepsNoLeak(setup, Complete(setup, conn, cs[0]), cs[1..]);
    }
  }

  lemma {:induction false} OwnSubset(token: nat, cs: seq<Cqe>)
    ensures forall c <- Own(token, cs) :: c in cs
  {
    if cs != [] {
      OwnSubset(token, cs[1..]);
    }
  }
}
