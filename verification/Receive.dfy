/**
 Plain TCP receive completions on the client and the buffer ring themselves:
 src/connection_state.rs:584-791 and 1475-1513, 1601-1662, in the classic multishot mode.
 The kernel may write into a buffer as soon as it has been given back.
 */
module Receive {
  import opened Bytes
  import opened Decoder
  import opened States
  import opened Ring
  import opened BufRing
  import opened Client

  /** A receive completion that filled one buffer. */
  datatype Filled = Filled(bid: nat, len: nat, more: bool)

  /** What the kernel promises of completions drained together: buffers in range and all different. */
  predicate Delivered(entries: nat, bufSize: nat, cs: seq<Filled>)
    ensures Delivered(entries, bufSize, cs) ==>
              forall k :: 0 <= k < |cs| ==> cs[k].bid < entries && cs[k].len <= bufSize
  {
    && (forall k :: 0 <= k < |cs| ==> cs[k].bid < entries && 0 < cs[k].len <= bufSize)
    && (forall j, k :: 0 <= j < k < |cs| ==> cs[j].bid != cs[k].bid)
  }

  /** The bytes that the completions announce, as they lie in the buffers. */
  function Payloads(buffers: seq<bytes>, cs: seq<Filled>): (r: seq<bytes>)
    requires forall k :: 0 <= k < |cs| ==> cs[k].bid < |buffers| && cs[k].len <= |buffers[cs[k].bid]|
    ensures |r| == |cs|
  {
    seq(|cs|, k requires 0 <= k < |cs| => buffers[cs[k].bid][..cs[k].len])
  }

  /** The ring after the buffers have gone back one after the other. */
  function GivenBack(v: RingView, cs: seq<Filled>): (r: RingView)
    requires |v.slots| > 0
    ensures |r.slots| == |v.slots|
  {
    if cs == [] then v else RecycleInto(GivenBack(v, cs[..|cs| - 1]), cs[|cs| - 1].bid)
  }

  predicate StaysArmed(armed: bool, cs: seq<Filled>) {
    armed && forall c <- cs :: c.more
  }

  // ---- what the client has made of some input ---------------------------------------------

  /** The reference decoder's verdict on the input, and where it leaves the client. */
  ghost predicate Decoded(
    cfg: Config, phase: Phase, pending: bytes, input: bytes, ok: bool, out: seq<Event>, phase': Phase, pending': bytes)
  {
    var whole := Run(cfg, phase, pending + input);
    && out == DataOf(whole.events)
    && (ok ==> !whole.end.Failed? && phase' == whole.phase && pending' == whole.rest)
    && (!ok ==> !whole.end.Waiting?)
  }

  lemma DecodedOn(
      cfg: Config, phase: Phase, pending: bytes, a: bytes, out: seq<Event>, mid: Phase, rest: bytes,
      b: bytes, ok: bool, more: seq<Event>, phase': Phase, pending': bytes)
    requires Decoded(cfg, phase, pending, a, true, out, mid, rest)
    requires Decoded(cfg, mid, rest, b, ok, more, phase', pending')
    ensures Decoded(cfg, phase, pending, a + b, ok, out + more, phase', pending')
  {
    hide Run, DataOf;
    RunAppend(cfg, phase, pending + a, b);
    Associative(pending, a, b);
    DataOfAppend(Run(cfg, phase, pending + a).events, Run(cfg, mid, rest + b).events);
  }

  lemma DecodedNoMore(
      cfg: Config, phase: Phase, pending: bytes, a: bytes, out: seq<Event>, mid: Phase, rest: bytes,
      b: bytes, phase': Phase, pending': bytes)
    requires Decoded(cfg, phase, pending, a, false, out, mid, rest)
    ensures Decoded(cfg, phase, pending, a + b, false, out, phase', pending')
  {
    hide Run, DataOf;
    DeadStays(cfg, phase, pending + a, b);
    Associative(pending, a, b);
  }

  class PlainConnection {
    const ws: WsClient
    const ring: BufferRing
    const copyMax: nat
    var state: Driver
    var armed: bool
    var scratch: bytes

    ghost predicate Valid()
      reads this, ws, ws.parser, ws.recvBuf, ws.tx, ring, ring.ring
      ensures Valid() ==> ws.Valid() && ring.Valid()
    {
      ws.Valid() && ring.Valid()
    }

    constructor (ws: WsClient, ring: BufferRing, copyMax: nat)
      requires ws.Valid() && ring.Valid()
      ensures Valid() && this.ws == ws && this.ring == ring && this.copyMax == copyMax
      ensures state.Open? && armed
    {
      this.ws, this.ring, this.copyMax := ws, ring, copyMax;
      state, armed, scratch := Driver.Open, true, [];
    }

    /** recycle, after which the kernel may fill the buffer with something else. */
    method HandOver(bid: nat, later: bytes)
      requires ring.Valid() && bid < ring.entries && |later| == ring.bufSize
      modifies ring`localTail, ring`sharedTail, ring`buffers, ring.ring
      ensures ring.Valid() && ring.View() == RecycleInto(old(ring.View()), bid)
      ensures ring.buffers == old(ring.buffers)[bid := later]
    {
      ring.Recycle(bid);
      Overwrite(bid, later);
    }

    /** What all three ways of handling the completions come to. */
    twostate predicate Handles(cs: seq<Filled>, ok: bool, out: seq<Event>)
      requires old(Valid()) && Valid() && Delivered(ring.entries, ring.bufSize, cs)
      reads this, ws, ws.parser, ws.recvBuf, ws.tx, ring, ring.ring
    {
      && ring.View() == GivenBack(old(ring.View()), cs)
      && armed == StaysArmed(old(armed), cs)
      && Decoded(ws.cfg, old(ws.Phase()), old(ws.Pending()), Concat(Payloads(old(ring.buffers), cs)), ok, out,
                 ws.Phase(), ws.Pending())
      && ok == !ws.failed
    }

    /** The buffer of completion k, which nobody has touched yet. */
    method Payload(cs: seq<Filled>, k: nat, ghost start: Start) returns (payload: bytes)
      requires ring.Valid() && k < |cs| && Delivered(ring.entries, ring.bufSize, cs)
      requires start.Fits(ring.entries, ring.bufSize)
      requires Kept(start, cs, k, ring.View(), armed, ring.buffers)
      ensures var all := Payloads(start.buffers, cs);
              all[..k + 1] == all[..k] + [payload] && Concat(all[..k + 1]) == Concat(all[..k]) + payload
    {
      hide BufferRing.Valid, BufferRing.View, GivenBack, StaysArmed;
      OneMorePayload(start.buffers, ring.buffers, cs, k);
      payload := ring.buffers[cs[k].bid][..cs[k].len];
    }

    /** Completion k is done with: the armed flag is updated and the buffer goes back. */
    method Done(cs: seq<Filled>, k: nat, later: bytes, ghost start: Start)
      requires ring.Valid() && k < |cs| && Delivered(ring.entries, ring.bufSize, cs)
      requires start.Fits(ring.entries, ring.bufSize)
      requires |later| == ring.bufSize && Kept(start, cs, k, ring.View(), armed, ring.buffers)
      modifies this`armed, ring`localTail, ring`sharedTail, ring`buffers, ring.ring
      ensures ring.Valid() && Kept(start, cs, k + 1, ring.View(), armed, ring.buffers)
    {
      hide BufferRing.Valid, BufferRing.View, Kept;
      OneMoreDone(start, cs, k, ring.View(), armed, ring.buffers, later);
      if !cs[k].more {
        armed := false;
      }
      HandOver(cs[k].bid, later);
    }

    /** handle_plain_recv_data_batch_copied: all bytes first, then one pass over them. */
    method HandleCopied(cs: seq<Filled>, later: nat -> bytes) returns (ok: bool, out: seq<Event>)
      requires Valid() && !ws.failed && Delivered(ring.entries, ring.bufSize, cs)
      requires forall k :: |later(k)| == ring.bufSize
      modifies this`armed, this`scratch, ws, ws.parser, ws.recvBuf, ws.tx
      modifies ring`localTail, ring`sharedTail, ring`buffers, ring.ring
      ensures Valid() && Handles(cs, ok, out)
    {
      hide Run, DataOf, WsClient.Valid, BufferRing.Valid, BufferRing.View, GivenBack, Payloads, StaysArmed,
        Decoded, WsClient.Forward, Kept, Delivered, Concat;
      Gather(cs, later);
      var r;
      r, out := ws.DrainDataEventsFromIngress(scratch);
      ok := r.DrainOk?;
      Verdict(old(ws.Phase()), old(ws.Pending()), scratch, ok, out);
    }

    /** Copies every payload before its buffer goes back. */
    method Gather(cs: seq<Filled>, later: nat -> bytes)
      requires ring.Valid() && Delivered(ring.entries, ring.bufSize, cs)
      requires forall k :: |later(k)| == ring.bufSize
      modifies this`armed, this`scratch, ring`localTail, ring`sharedTail, ring`buffers, ring.ring
      ensures ring.Valid() && scratch == Concat(Payloads(old(ring.buffers), cs))
      ensures ring.View() == GivenBack(old(ring.View()), cs) && armed == StaysArmed(old(armed), cs)
    {
      hide BufferRing.Valid, BufferRing.View, GivenBack, Payloads, StaysArmed, Kept, Delivered, Concat;
      scratch := [];
      ghost var start := Start(ring.View(), armed, ring.buffers);
      NothingYet(start, cs);
      ghost var all := Payloads(ring.buffers, cs);
      for k := 0 to |cs|
        invariant ring.Valid() && Kept(start, cs, k, ring.View(), armed, ring.buffers)
        invariant scratch == Concat(all[..k])
      {
        var payload := Payload(cs, k, start);
        scratch := scratch + payload;
        Done(cs, k, later(k), start);
      }
      AllDone(start, cs, ring.View(), armed, ring.buffers);
      assert all[..|cs|] == all;
    }

    /** The client's contract, in the words used here. */
    lemma Verdict(phase: Phase, pending: bytes, input: bytes, ok: bool, out: seq<Event>)
      requires ws.Valid()
      requires var whole := Run(ws.cfg, phase, pending + input);
               && out == DataOf(whole.events) && (!ok ==> !whole.end.Waiting?)
               && (ok ==> !whole.end.Failed? && ws.Phase() == whole.phase && ws.Pending() == whole.rest)
      ensures Decoded(ws.cfg, phase, pending, input, ok, out, ws.Phase(), ws.Pending())
    {
      hide Run, DataOf, WsClient.Valid;
    }

    /** handle_plain_recv_data_batch_slices: buffer by buffer, parsing until the first error. */
    method HandleSlices(cs: seq<Filled>, later: nat -> bytes) returns (ok: bool, out: seq<Event>)
      requires Valid() && !ws.failed && Delivered(ring.entries, ring.bufSize, cs) && cs != []
      requires forall k :: |later(k)| == ring.bufSize
      modifies this`armed, ws, ws.parser, ws.recvBuf, ws.tx
      modifies ring`localTail, ring`sharedTail, ring`buffers, ring.ring
      ensures Valid() && Handles(cs, ok, out)
    {
      hide Run, DataOf, WsClient.Valid, BufferRing.Valid, BufferRing.View, GivenBack, Payloads, StaysArmed,
        Decoded, WsClient.Forward, Kept, Delivered, Concat, SoFar;
      ok, out := true, [];
      ghost var start := Start(ring.View(), armed, ring.buffers);
      NothingYet(start, cs);
      ghost var all := Payloads(ring.buffers, cs);
      Unparsed(all);
      for k := 0 to |cs|
        invariant Valid() && Kept(start, cs, k, ring.View(), armed, ring.buffers)
        invariant ok == !ws.failed && SoFar(old(ws.Phase()), old(ws.Pending()), all[..k], ok, out)
      {
        if ok {
          var payload := Payload(cs, k, start);
          ok, out := Parse(old(ws.Phase()), old(ws.Pending()), all[..k], payload, out);
        } else {
          PassOver(old(ws.Phase()), old(ws.Pending()), all[..k], all[k], out);
          assert all[..k + 1] == all[..k] + [all[k]];
        }
        Done(cs, k, later(k), start);
      }
      AllDone(start, cs, ring.View(), armed, ring.buffers);
      assert all[..|cs|] == all;
      Parsed(old(ws.Phase()), old(ws.Pending()), all, ok, out);
    }

    lemma Unparsed(all: seq<bytes>)
      requires ws.Valid()
      ensures SoFar(ws.Phase(), ws.Pending(), all[..0], true, [])
    {
      hide WsClient.Valid;
    }

    lemma Parsed(phase: Phase, pending: bytes, all: seq<bytes>, ok: bool, out: seq<Event>)
      requires ws.Valid() && all != [] && SoFar(phase, pending, all, ok, out)
      ensures Decoded(ws.cfg, phase, pending, Concat(all), ok, out, ws.Phase(), ws.Pending())
    {
      hide WsClient.Valid, Decoded;
    }

    /** plain_recv_batch_copy_len: stops adding as soon as the limit is passed. */
    method CopyLen(cs: seq<Filled>) returns (r: Option<nat>)
      ensures r.Some? <==> copyMax > 0 && Total(cs) <= copyMax
      ensures r.Some? ==> r.value == Total(cs)
    {
      if copyMax == 0 {
        return None;
      }
      var total := 0;
      for k := 0 to |cs|
        invariant total == Total(cs[..k]) <= copyMax
      {
        assert cs[..k + 1][..k] == cs[..k];
        total := total + cs[k].len;
        if total > copyMax {
          TotalGrows(cs, k + 1);
          return None;
        }
      }
      assert cs[..|cs|] == cs;
      r := Some(total);
    }

    /** handle_plain_recv_data_batch. */
    method HandleBatch(cs: seq<Filled>, later: nat -> bytes) returns (ok: bool, out: seq<Event>)
      requires Valid() && !ws.failed && Delivered(ring.entries, ring.bufSize, cs) && cs != []
      requires forall k :: |later(k)| == ring.bufSize
      modifies this`armed, this`scratch, ws, ws.parser, ws.recvBuf, ws.tx
      modifies ring`localTail, ring`sharedTail, ring`buffers, ring.ring
      ensures Valid() && Handles(cs, ok, out)
    {
      hide WsClient.Valid, BufferRing.Valid, BufferRing.View, Delivered, Total, Decoded, GivenBack, StaysArmed,
        Payloads, Concat;
      var copied := CopyLen(cs);
      if copied.Some? {
        ok, out := HandleCopied(cs, later);
      } else {
        ok, out := HandleSlices(cs, later);
      }
    }

    /**
     The same completions one at a time, with the pool's bookkeeping after each: on_recv_cqe_data until
     one fails, discard_recv_completion_after_closed from then on.
     */
    method HandleEach(cs: seq<Filled>, later: nat -> bytes) returns (ok: bool, out: seq<Event>)
      requires Valid() && !ws.failed && Delivered(ring.entries, ring.bufSize, cs) && cs != [] && !state.Closed?
      requires forall k :: |later(k)| == ring.bufSize
      modifies this`armed, this`state, ws, ws.parser, ws.recvBuf, ws.tx
      modifies ring`localTail, ring`sharedTail, ring`buffers, ring.ring
      ensures Valid() && Handles(cs, ok, out) && (state.Closed? <==> !ok)
    {
      hide Run, DataOf, WsClient.Valid, BufferRing.Valid, BufferRing.View, GivenBack, Payloads, StaysArmed,
        Decoded, WsClient.Forward, Kept, Delivered, Concat, SoFar;
      ok, out := true, [];
      ghost var start := Start(ring.View(), armed, ring.buffers);
      NothingYet(start, cs);
      ghost var all := Payloads(ring.buffers, cs);
      Unparsed(all);
      for k := 0 to |cs|
        invariant Valid() && Kept(start, cs, k, ring.View(), armed, ring.buffers)
        invariant ok == !ws.failed == !state.Closed? && (!ok ==> !ws.state.Open?)
        invariant SoFar(old(ws.Phase()), old(ws.Pending()), all[..k], ok, out)
      {
        if state.Closed? {
          PassOver(old(ws.Phase()), old(ws.Pending()), all[..k], all[k], out);
          assert all[..k + 1] == all[..k] + [all[k]];
          Discard(cs, k, later(k), start);
        } else {
          var payload := Payload(cs, k, start);
          ok, out := Parse(old(ws.Phase()), old(ws.Pending()), all[..k], payload, out);
          Done(cs, k, later(k), start);
          FollowClient(ok);
        }
      }
      AllDone(start, cs, ring.View(), armed, ring.buffers);
      assert all[..|cs|] == all;
      Parsed(old(ws.Phase()), old(ws.Pending()), all, ok, out);
    }

    /** fail_conn, or sync_ws_open_state and sync_ws_close_state. */
    method FollowClient(ok: bool)
      requires state.Closed? ==> !ws.state.Open?
      modifies this`state
      ensures state.Closed? <==> old(state).Closed? || !ok
    {
      if !ok {
        state := Driver.Closed;
        return;
      }
      if ws.state.Open? && !state.Open? {
        state := Driver.Open;
      }
      if ws.state.Closed? && !state.Closing? && !state.Closed? {
        state := Driver.Closing;
      }
    }

    /** Nothing parsed yet, or the verdict on what has been parsed. */
    ghost predicate SoFar(phase: Phase, pending: bytes, done: seq<bytes>, ok: bool, out: seq<Event>)
      requires ws.Valid()
      reads ws, ws.parser, ws.recvBuf, ws.tx
    {
      if done == [] then ok && out == [] && ws.Phase() == phase && ws.Pending() == pending
      else Decoded(ws.cfg, phase, pending, Concat(done), ok, out, ws.Phase(), ws.Pending())
    }

    /** One more payload. */
    method Parse(ghost phase: Phase, ghost pending: bytes, ghost done: seq<bytes>, payload: bytes, out: seq<Event>)
      returns (ok: bool, out': seq<Event>)
      requires ws.Valid() && !ws.failed && SoFar(phase, pending, done, true, out)
      modifies ws, ws.parser, ws.recvBuf, ws.tx
      ensures ws.Valid() && ok == !ws.failed && SoFar(phase, pending, done + [payload], ok, out')
      ensures !ok ==> !ws.state.Open?
    {
      hide Run, DataOf, WsClient.Valid, Decoded, WsClient.Forward;
      ConcatAppend(done, payload);
      ghost var mid, rest := ws.Phase(), ws.Pending();
      var r, more := ws.DrainDataEventsFromIngress(payload);
      ok := r.DrainOk?;
      Verdict(mid, rest, payload, ok, more);
      out' := out + more;
      if done == [] {
        assert out' == more && Concat(done) + payload == payload;
      } else {
        DecodedOn(ws.cfg, phase, pending, Concat(done), out, mid, rest, payload, ok, more, ws.Phase(), ws.Pending());
      }
    }

    /** After an error, payloads that are passed over would have yielded nothing. */
    lemma PassOver(phase: Phase, pending: bytes, done: seq<bytes>, payload: bytes, out: seq<Event>)
      requires ws.Valid() && SoFar(phase, pending, done, false, out)
      ensures SoFar(phase, pending, done + [payload], false, out)
    {
      hide Run, DataOf, WsClient.Valid, Decoded;
      ConcatAppend(done, payload);
      DecodedNoMore(ws.cfg, phase, pending, Concat(done), out, ws.Phase(), ws.Pending(), payload,
                    ws.Phase(), ws.Pending());
    }

    /** discard_recv_completion_after_closed: the buffer goes back unread. */
    method Discard(cs: seq<Filled>, k: nat, later: bytes, ghost start: Start)
      requires ring.Valid() && k < |cs| && Delivered(ring.entries, ring.bufSize, cs)
      requires start.Fits(ring.entries, ring.bufSize)
      requires |later| == ring.bufSize && Kept(start, cs, k, ring.View(), armed, ring.buffers)
      modifies this`armed, ring`localTail, ring`sharedTail, ring`buffers, ring.ring
      ensures ring.Valid() && Kept(start, cs, k + 1, ring.View(), armed, ring.buffers)
    {
      hide BufferRing.Valid, BufferRing.View, Kept;
      OneMoreDone(start, cs, k, ring.View(), armed, ring.buffers, later);
      if !cs[k].more {
        armed := false;
      }
      ring.RecycleRecvBuffers(Multishot, cs[k].bid, cs[k].len);
      RecycleOne(old(ring.View()), cs[k].bid);
      Overwrite(cs[k].bid, later);
    }

    method Overwrite(bid: nat, later: bytes)
      requires ring.Valid() && bid < ring.entries && |later| == ring.bufSize
      modifies ring`buffers
      ensures ring.Valid() && ring.View() == old(ring.View()) && ring.buffers == old(ring.buffers)[bid := later]
    {
      ring.buffers := ring.buffers[bid := later];
    }
  }

  function Total(cs: seq<Filled>): (n: nat) {
    if cs == [] then 0 else Total(cs[..|cs| - 1]) + cs[|cs| - 1].len
  }

  lemma {:induction false} TotalGrows(cs: seq<Filled>, k: nat)
    requires k <= |cs|
    ensures Total(cs[..k]) <= Total(cs)
    decreases |cs|
  {
    if k < |cs| {
      TotalGrows(cs[..|cs| - 1], k);
      assert cs[..|cs| - 1][..k] == cs[..k];
    } else {
      assert cs[..k] == cs;
    }
  }

  /** Where the handling of a list of completions began. */
  datatype Start = Start(view: RingView, armed: bool, buffers: seq<bytes>) {
    predicate Fits(entries: nat, bufSize: nat) {
      |view.slots| == entries > 0 && |buffers| == entries && forall b <- buffers :: |b| == bufSize
    }
  }

  /** After k completions: their buffers are back in order, and the others' still hold what came in. */
  predicate Kept(start: Start, cs: seq<Filled>, k: nat, view: RingView, armed: bool, buffers: seq<bytes>) {
    && k <= |cs| && |start.view.slots| > 0
    && view == GivenBack(start.view, cs[..k])
    && armed == StaysArmed(start.armed, cs[..k])
    && |buffers| == |start.buffers|
    && (forall j :: k <= j < |cs| && cs[j].bid < |buffers| ==> buffers[cs[j].bid] == start.buffers[cs[j].bid])
  }

  lemma NothingYet(start: Start, cs: seq<Filled>)
    requires |start.view.slots| > 0
    ensures Kept(start, cs, 0, start.view, start.armed, start.buffers)
    ensures Concat([]) == []
  {
  }

  lemma AllDone(start: Start, cs: seq<Filled>, view: RingView, armed: bool, buffers: seq<bytes>)
    requires Kept(start, cs, |cs|, view, armed, buffers)
    ensures |start.view.slots| > 0 && view == GivenBack(start.view, cs) && armed == StaysArmed(start.armed, cs)
  {
    assert cs[..|cs|] == cs;
  }

  lemma OneMorePayload(before: seq<bytes>, now: seq<bytes>, cs: seq<Filled>, k: nat)
    requires k < |cs| && |now| == |before|
    requires forall j :: 0 <= j < |cs| ==> cs[j].bid < |before| && cs[j].len <= |before[cs[j].bid]|
    requires now[cs[k].bid] == before[cs[k].bid]
    ensures var all := Payloads(before, cs);
            && all[..k + 1] == all[..k] + [now[cs[k].bid][..cs[k].len]]
            && Concat(all[..k + 1]) == Concat(all[..k]) + now[cs[k].bid][..cs[k].len]
  {
    var all := Payloads(before, cs);
    assert all[..k + 1] == all[..k] + [all[k]];
    ConcatAppend(all[..k], all[k]);
  }

  lemma OneMoreDone(
      start: Start, cs: seq<Filled>, k: nat, view: RingView, armed: bool, buffers: seq<bytes>, later: bytes)
    requires k < |cs| && cs[k].bid < |buffers| && Kept(start, cs, k, view, armed, buffers)
    requires forall i, j :: 0 <= i < j < |cs| ==> cs[i].bid != cs[j].bid
    ensures |view.slots| > 0
    ensures Kept(start, cs, k + 1, RecycleInto(view, cs[k].bid), armed && cs[k].more, buffers[cs[k].bid := later])
  {
    assert cs[..k + 1] == cs[..k] + [cs[k]];
    assert cs[..k + 1][..k] == cs[..k];
  }
}
