/**
 The two descriptions of a connection agree: the client class moves as Connection.Ingest says, and
 the receive loop with the kernel handles a completion as Connection.Complete does.
 */
module Refinement {
  import opened Bytes
  import opened Decoder
  import opened Tokens
  import opened Ring
  import opened BufRing
  import opened Connection
  import opened Grouping
  import opened Pools
  import RecvLoop
  import Client

  ghost function Seen(client: Client.WsClient): (w: Ws)
    requires client.Valid()
    reads client, client.parser, client.recvBuf, client.tx
  {
    Ws(client.state, client.Phase(), client.Pending())
  }

  /**
   drain_data_events_from_ingress does to the client what Ingest does to its description, for the
   setting of `eager` that says when a doomed stream is reported.
   */
  method IngestsAs(client: Client.WsClient, chunk: bytes, ghost setup: Setup, ghost conn: Conn)
    returns (ok: bool, out: seq<Event>)
    requires client.Valid() && !client.failed && setup.cfg == client.cfg && conn.ws == Seen(client)
    modifies client, client.parser, client.recvBuf, client.tx
    ensures client.Valid() && ok == !client.failed
    ensures setup.eager(conn.fed + [chunk]) == !ok ==>
              var h := Ingest(setup, conn, chunk);
              && h.ok == ok && h.conn.events == conn.events + out
              && (ok ==> h.conn.ws == Seen(client))
              && (!ok ==> !client.state.Open? && !h.conn.ws.state.Open?)
  {
    hide Run, DataOf, Client.WsClient.Valid;
    var r;
    r, out := client.DrainDataEventsFromIngress(chunk);
    ok := r.DrainOk?;
  }

  /** send_close does to the client what the pool's initiate_close says, and is accepted when that says so. */
  method ClosesAs(client: Client.WsClient, code: nat, reason: bytes, ghost conn: Conn) returns (ok: bool)
    requires client.Valid() && conn.ws == Seen(client) && code < 0x1_0000
    requires !conn.driver.Closed? && !conn.driver.Closing?
    modifies client`state, client.tx
    ensures client.Valid()
    ensures var accepted := (1000 <= code <= 1003 || 1007 <= code <= 1011 || 3000 <= code <= 4999) && |reason| <= 123;
            var h := InitiateClose(conn, accepted);
            h.ok == ok && h.conn.ws.state == client.state
  {
    hide Client.WsClient.Valid;
    var r := client.SendClose(code, reason);
    ok := r.SendOk?;
  }

  // ---- the receive loop ------------------------------------------------------------------

  /** A receive completion as the loop with the kernel sees it. */
  function Posted(c: Cqe): (x: RecvLoop.Completion) {
    if c.bid.Some? && c.result >= 0 then RecvLoop.Data(c.bid.value, c.result, c.more)
    else if c.result == -ENOBUFS then RecvLoop.RingExhausted
    else if c.result == 0 then RecvLoop.Eof(c.more)
    else RecvLoop.RecvError(c.more)
  }

  /** Buffers given back one after the other. */
  function RecycleAll(v: RingView, bids: seq<nat>): (r: RingView)
    requires |v.slots| > 0
    ensures |r.slots| == |v.slots|
  {
    if bids == [] then v else RecycleInto(RecycleAll(v, bids[..|bids| - 1]), bids[|bids| - 1])
  }

  lemma {:induction false} RunIsAll(v: RingView, start: nat, count: nat)
    requires |v.slots| > 0
    ensures RecycleRun(v, start, count) ==
            RecycleAll(v, seq(count, i requires 0 <= i < count => BidAt(start, i, |v.slots|)))
    decreases count
  {
    if count > 0 {
      RunIsAll(v, start, count - 1);
      var bids := seq(count, i requires 0 <= i < count => BidAt(start, i, |v.slots|));
      assert bids[..count - 1] == seq(count - 1, i requires 0 <= i < count - 1 => BidAt(start, i, |v.slots|));
    }
  }

  /** In the loop with the kernel a completion gives back the buffers, and moves the flag, as it does in the pool. */
  lemma HandlingAgrees(setup: Setup, conn: Conn, c: Cqe, s: RecvLoop.System)
    requires setup.Valid() && conn.hasRing && Deliverable(setup, conn, c) && c.kind == Some(Recv)
    requires |s.v.slots| == setup.entries && s.armed == conn.armed
    ensures var cfg := RecvLoop.Config(setup.mode, setup.bufSize);
            var r, looped := Complete(setup, conn, c), RecvLoop.AfterHandling(cfg, s, Posted(c));
            && r.armed == looped.armed
            && conn.recycled <= r.recycled && looped.v == RecycleAll(s.v, r.recycled[|conn.recycled|..])
            && looped.returned == s.returned + (|r.recycled| - |conn.recycled|)
  {
    hide Complete, SliceCount, RecycleRun, RecycleAll, BidAt;
    StepReturns(setup, conn, c);
    var bids := ReturnedBy(setup, c);
    assert (conn.recycled + bids)[|conn.recycled|..] == bids;
    if c.bid.Some? {
      RunIsAll(s.v, c.bid.value, |bids|);
    } else {
      NothingRecycled(s.v);
    }
  }

  lemma NothingRecycled(v: RingView)
    requires |v.slots| > 0
    ensures RecycleAll(v, []) == v
  {
  }
}
