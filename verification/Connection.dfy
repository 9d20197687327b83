/**
 A connection as the pool sees it: how it handles one completion, and a run of plain receive
 completions at once. src/connection_state.rs:432-791 and 1475-1662, src/pool.rs:1933-1993.
 */
module Connection {
  import opened Bytes
  import opened Decoder
  import opened States
  import opened Tokens
  import opened Ring
  import opened BufRing

  const ENOBUFS := 105

  /** The client, as its contracts describe it: state, phase and undecoded bytes. */
  datatype Ws = Ws(state: WsState, phase: Phase, pending: bytes)

  /**
   What the TLS layer concludes while handling a completion: it may fail (the ALPN check included), have
   finished its handshake, and have been told that the peer is leaving, all at once. Nothing on plain TCP.
   */
  datatype TlsEffect = TlsEffect(failed: bool, ready: bool, closeNotify: bool)

  const TLS_NONE := TlsEffect(false, false, false)

  /** A completion, with the plaintext chunks it makes available when it is handled alone. */
  datatype Cqe = Cqe(
    token: nat, kind: Option<OpKind>, result: int, bid: Option<nat>, more: bool, chunks: seq<bytes>,
    tls: TlsEffect, ring: RingSetup)

  /** How registering the buffer ring, arming the first receive and, failing that, unregistering go. */
  datatype RingSetup = RingSetup(registered: bool, armed: bool, unregistered: bool) {
    predicate Ok() { registered && armed }

    /** The kernel keeps a ring that the connection does not know of. */
    predicate Leaks() { registered && !armed && !unregistered }
  }

  /**
   The settings of a connection. A stream that is bound to fail may be reported at once or later,
   depending on the path that meets it; `eager` says when, given the chunks fed so far.
   */
  datatype Setup = Setup(
    cfg: Config, usesTls: bool, mode: RecvMode, copyMax: nat, entries: nat, bufSize: nat,
    eager: seq<bytes> -> bool)
  {
    predicate Valid() { entries > 0 && bufSize > 0 }
  }

  datatype Identity = Identity(connId: nat, generation: nat, bgid: nat) {
    function Token(): nat { EncodeConnToken(connId, generation) }
  }

  /** Everything that handling completions can change; the logs of what went out come last. */
  datatype Conn = Conn(
    hasRing: bool, leaked: bool, driver: Driver, ws: Ws, armed: bool,
    fed: seq<bytes>, events: seq<Event>, recycled: seq<nat>)

  datatype Handled = Handled(conn: Conn, ok: bool)

  // ---- the client's part ---------------------------------------------------------------

  function NextWsState(s: WsState, phase: Phase, fails: bool): (r: WsState) {
    if fails then if phase.Handshaking? then WsState.Closed else WsState.Closing
    else
      match phase
      case Handshaking => WsState.Connecting
      case Finished => WsState.Closed
      case Framing(_) => if s.Closing? then WsState.Closing else WsState.Open
  }

  /** drain_data_events_from_ingress on one chunk, by the contract of the client. */
  function Ingest(setup: Setup, conn: Conn, chunk: bytes): (h: Handled) {
    var r := Run(setup.cfg, conn.ws.phase, conn.ws.pending + chunk);
    var fed := conn.fed + [chunk];
    var fails := r.end.Failed? || (r.end.Doomed? && setup.eager(fed));
    Handled(
      conn.(ws := Ws(NextWsState(conn.ws.state, r.phase, fails), r.phase, r.rest),
            fed := fed, events := conn.events + DataOf(r.events)),
      !fails)
  }

  /** One chunk after the other, until one fails. */
  function IngestAll(setup: Setup, conn: Conn, chunks: seq<bytes>): (h: Handled)
    decreases |chunks|
  {
    if chunks == [] then Handled(conn, true)
    else
      var h := Ingest(setup, conn, chunks[0]);
      if h.ok then IngestAll(setup, h.conn, chunks[1..]) else h
  }

  // ---- one completion -----------------------------------------------------------------

  /** The buffers a completion gives back, in order. */
  function BidsOf(setup: Setup, c: Cqe): (s: seq<nat>)
    requires setup.Valid()
  {
    if c.bid.None? || c.result < 0 then []
    else
      var count := if c.result == 0 then 1 else SliceCount(setup.mode, c.result, setup.bufSize);
      seq(count, i requires 0 <= i < count => BidAt(c.bid.value, i, setup.entries))
  }

  /** What the kernel promises about completions for this connection. */
  predicate WellFormed(setup: Setup, c: Cqe)
    requires setup.Valid()
  {
    && (c.bid.Some? ==>
          && c.result >= 0 && c.bid.value < setup.entries
          && (setup.mode.Multishot? ==> c.result <= setup.bufSize)
          && (c.result > 0 ==> SliceCount(setup.mode, c.result, setup.bufSize) <= setup.entries))
    && (c.result == -ENOBUFS ==> !c.more)
    && (!setup.usesTls && setup.mode.Multishot? && c.result > 0 && c.bid.Some? ==> |c.chunks| == 1 && c.tls == TLS_NONE)
  }

  function Disarm(conn: Conn, c: Cqe): (r: Conn) {
    conn.(armed := conn.armed && c.more)
  }

  function GiveBack(conn: Conn, bids: seq<nat>): (r: Conn) {
    conn.(recycled := conn.recycled + bids)
  }

  /** After the slices of a TLS completion: the handshake may be over, the peer may be leaving. */
  function ApplyTls(conn: Conn, effect: TlsEffect): (r: Conn) {
    var shaken := if effect.ready && conn.driver.TlsHandshake? then conn.(driver := Driver.WsHandshake) else conn;
    if effect.closeNotify && !shaken.driver.Closed? then shaken.(driver := Driver.Closing) else shaken
  }

  /** on_recv_cqe_data. */
  function OnRecv(setup: Setup, conn: Conn, c: Cqe): (h: Handled)
    requires setup.Valid()
  {
    var a := Disarm(conn, c);
    if c.bid.None? then
      if c.result == 0 then Handled(a.(driver := Driver.Closed), false)
      else if c.result > 0 then Handled(a, true)
      else if c.result == -ENOBUFS then Handled(a.(armed := false), true)
      else Handled(a, false)
    else if c.result < 0 then Handled(a, false)
    else if c.result == 0 then Handled(GiveBack(a, BidsOf(setup, c)).(driver := Driver.Closed), false)
    else
      var h := IngestAll(setup, GiveBack(a, BidsOf(setup, c)), c.chunks);
      if c.tls.failed then Handled(h.conn, false) else Handled(ApplyTls(h.conn, c.tls), h.ok)
  }

  /** discard_completion_after_closed. */
  function Discard(setup: Setup, conn: Conn, c: Cqe): (r: Conn)
    requires setup.Valid()
  {
    if c.kind == Some(Recv) then
      var a := if c.result == -ENOBUFS && c.bid.Some? then conn.(armed := false) else Disarm(conn, c);
      if c.bid.None? || !conn.hasRing then a
      else if c.result < 0 then GiveBack(a, [c.bid.value])
      else
        var count := DiscardCount(setup.mode, c.result, setup.bufSize, setup.entries);
        GiveBack(a, seq(count, i requires 0 <= i < count => BidAt(c.bid.value, i, setup.entries)))
    else conn
  }

  /** handle_completion_data. */
  function HandleOne(setup: Setup, conn: Conn, c: Cqe): (h: Handled)
    requires setup.Valid()
  {
    if c.kind.None? then Handled(conn, false)
    else if conn.driver.Closed? then Handled(Discard(setup, conn, c), true)
    else
      match c.kind.value
      case Connect =>
        if c.result < 0 then Handled(conn, false)
        else if !c.ring.Ok() then Handled(conn.(leaked := conn.leaked || c.ring.Leaks()), false)
        else
          Handled(conn.(hasRing := true, armed := true,
                        driver := if setup.usesTls then Driver.TlsHandshake else Driver.WsHandshake), true)
      case Send => Handled(conn, c.result >= 0)
      case Recv => OnRecv(setup, conn, c)
      case Close => Handled(conn.(driver := Driver.Closed), true)
      case Nop => Handled(conn, true)
  }

  /** sync_ws_open_state, then sync_ws_close_state. */
  function Sync(conn: Conn): (r: Conn) {
    if conn.ws.state.Open? then conn.(driver := Driver.Open)
    else if conn.ws.state.Closed? && !conn.driver.Closed? then conn.(driver := Driver.Closing)
    else conn
  }

  /** finish_conn_result. */
  function Finish(h: Handled): (r: Conn) {
    if h.ok then Sync(h.conn) else h.conn.(driver := Driver.Closed)
  }

  function Complete(setup: Setup, conn: Conn, c: Cqe): (r: Conn)
    requires setup.Valid()
  {
    Finish(HandleOne(setup, conn, c))
  }

  /** A list of completions, one at a time. */
  function Fold(setup: Setup, conn: Conn, cs: seq<Cqe>): (r: Conn)
    requires setup.Valid()
    decreases |cs|
  {
    if cs == [] then conn else Fold(setup, Complete(setup, conn, cs[0]), cs[1..])
  }

  // ---- a run of plain receive completions -----------------------------------------------

  /** can_handle_plain_recv_data_batch. */
  predicate CanBatch(setup: Setup, conn: Conn, c: Cqe) {
    && !setup.usesTls && setup.mode.Multishot? && conn.driver.Open?
    && c.kind == Some(Recv) && c.result > 0 && c.bid.Some?
  }

  predicate AllMore(cs: seq<Cqe>) {
    forall c <- cs :: c.more
  }

  function AllBids(setup: Setup, cs: seq<Cqe>): (s: seq<nat>)
    requires setup.Valid()
  {
    if cs == [] then [] else BidsOf(setup, cs[0]) + AllBids(setup, cs[1..])
  }

  function AllChunks(cs: seq<Cqe>): (s: seq<bytes>) {
    if cs == [] then [] else cs[0].chunks + AllChunks(cs[1..])
  }

  function TotalResult(cs: seq<Cqe>): (n: int) {
    if cs == [] then 0 else cs[0].result + TotalResult(cs[1..])
  }

  /** Buffers and the armed flag end up the same however the bytes are parsed. */
  function Returned(setup: Setup, conn: Conn, cs: seq<Cqe>): (r: Conn)
    requires setup.Valid()
  {
    conn.(armed := conn.armed && AllMore(cs), recycled := conn.recycled + AllBids(setup, cs))
  }

  /** handle_plain_recv_data_batch: as one copied chunk when short enough, else slice by slice. */
  function HandleBatch(setup: Setup, conn: Conn, cs: seq<Cqe>): (h: Handled)
    requires setup.Valid()
  {
    var base := Returned(setup, conn, cs);
    if setup.copyMax > 0 && TotalResult(cs) <= setup.copyMax
    then Ingest(setup, base, Concat(AllChunks(cs)))
    else IngestAll(setup, base, AllChunks(cs))
  }
}
