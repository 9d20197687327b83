/**
 From the client's pending bytes to the kernel: send_buf, send_head, tls_pending_out and the
 in-flight rule, src/connection_state.rs:323-404, 527-534, 1362-1373 and 1425-1439.
 */
module SendPath {
  import opened Bytes
  import opened Outbound
  import opened States
  import Frame

  const MAX_SEND := 0xFFFF_FFFF

  datatype SubmitResult = NothingToDo | Submitted(len: nat) | SubmitFailed

  /** A partial send moves the border between confirmed and staged, and nothing else. */
  lemma SendAdvances(confirmed: bytes, staged: bytes, submitted: bytes, n: nat)
    requires submitted <= staged && n <= |submitted|
    ensures (confirmed + submitted[..n]) + staged[n..] == confirmed + staged
  {
    SplitAt(staged, n);
    Associative(confirmed, staged[..n], staged[n..]);
    assert staged[..n] == submitted[..n];
  }

  /** The same of send_buf with its head, which is emptied when everything has gone. */
  lemma Confirmed(confirmed: bytes, sendBuf: bytes, head: nat, submitted: bytes, n: nat)
    requires head <= |sendBuf| && submitted <= sendBuf[head..] && n <= |submitted|
    ensures head + n <= |sendBuf|
    ensures (confirmed + submitted[..n]) + sendBuf[head + n..] == confirmed + sendBuf[head..]
    ensures var nothing: bytes := [];
            head + n >= |sendBuf| ==> (confirmed + submitted[..n]) + nothing[0..] == confirmed + sendBuf[head..]
  {
    assert |sendBuf[head..]| == |sendBuf| - head;
    assert sendBuf[head..][n..] == sendBuf[head + n..];
    SendAdvances(confirmed, sendBuf[head..], submitted, n);
    var nothing: bytes := [];
    assert head + n >= |sendBuf| ==> sendBuf[head + n..] == nothing[0..];
  }

  // ---- what the TLS layer generates ------------------------------------------------------------

  /** The ciphertext that the k-th call of the TLS layer yields for some plaintext, or its failure. */
  type Tls = (nat, bytes) -> Option<bytes>

  /** Ciphertext comes out of the TLS layer while receiving, and when it is given plaintext. */
  datatype Made = Received(output: bytes) | Encrypted(call: nat, plaintext: bytes)

  function YieldOf(tls: Option<Tls>, x: Made): (s: bytes) {
    match x
    case Received(output) => output
    case Encrypted(k, plaintext) =>
      if tls.Some? && tls.value(k, plaintext).Some? then tls.value(k, plaintext).value else []
  }

  /** Plaintext of a call that fails is not accepted. */
  function PlainOf(tls: Option<Tls>, x: Made): (s: bytes) {
    match x
    case Received(_) => []
    case Encrypted(k, plaintext) => if tls.Some? && tls.value(k, plaintext).Some? then plaintext else []
  }

  /** All ciphertext, in the order in which it was generated. */
  function Generated(tls: Option<Tls>, log: seq<Made>): (s: bytes) {
    if log == [] then [] else Generated(tls, log[..|log| - 1]) + YieldOf(tls, log[|log| - 1])
  }

  /** All plaintext that the TLS layer accepted. */
  function Accepted(tls: Option<Tls>, log: seq<Made>): (s: bytes) {
    if log == [] then [] else Accepted(tls, log[..|log| - 1]) + PlainOf(tls, log[|log| - 1])
  }

  function CallsIn(log: seq<Made>): (n: nat) {
    if log == [] then 0 else CallsIn(log[..|log| - 1]) + if log[|log| - 1].Encrypted? then 1 else 0
  }

  function ReceivedIn(log: seq<Made>): (outputs: seq<bytes>) {
    if log == [] then []
    else ReceivedIn(log[..|log| - 1]) + if log[|log| - 1].Received? then [log[|log| - 1].output] else []
  }

  /** The calls of the TLS layer are numbered from 0 on, without a gap. */
  predicate WellNumbered(log: seq<Made>) {
    forall i :: 0 <= i < |log| && log[i].Encrypted? ==> log[i].call == CallsIn(log[..i])
  }

  lemma LogStep(tls: Option<Tls>, log: seq<Made>, x: Made)
    ensures Generated(tls, log + [x]) == Generated(tls, log) + YieldOf(tls, x)
    ensures Accepted(tls, log + [x]) == Accepted(tls, log) + PlainOf(tls, x)
    ensures CallsIn(log + [x]) == CallsIn(log) + if x.Encrypted? then 1 else 0
    ensures ReceivedIn(log + [x]) == ReceivedIn(log) + if x.Received? then [x.output] else []
    ensures WellNumbered(log) && (x.Encrypted? ==> x.call == CallsIn(log)) ==> WellNumbered(log + [x])
  {
    assert (log + [x])[..|log|] == log;
    forall i | 0 <= i < |log|
      ensures (log + [x])[..i] == log[..i] && (log + [x])[i] == log[i]
    {
    }
  }

  /** What one submission asks of the TLS layer: the pending bytes, if any, and then what it has left to say. */
  function CallsFor(tls: Option<Tls>, calls: nat, pending: bytes): (made: seq<Made>) {
    if tls.None? then []
    else if pending == [] then [Encrypted(calls, [])]
    else if tls.value(calls, pending).None? then [Encrypted(calls, pending)]
    else [Encrypted(calls, pending), Encrypted(calls + 1, [])]
  }

  /** What the TLS layer has to send for the pending bytes and of its own; None if a call of it fails. */
  function Yielded(tls: Tls, calls: nat, pending: bytes): (s: Option<bytes>) {
    if pending == [] then tls(calls, [])
    else
      match tls(calls, pending)
      case None => None
      case Some(first) =>
        match tls(calls + 1, [])
        case None => None
        case Some(second) => Some(first + second)
  }

  /** States in which nothing is submitted. */
  predicate Resting(state: Driver) { state.Init? || state.Connecting? || state.Closed? }

  class Egress {
    const tx: Outbox
    /** None for plain TCP. */
    const encrypt: Option<Tls>
    var calls: nat
    var state: Driver
    var sendBuf: bytes
    var sendHead: nat
    var tlsPendingOut: bytes
    var sendInflight: bool

    /** Bytes the kernel has confirmed; what the TLS layer has generated so far; what the kernel was given. */
    ghost var confirmed: bytes
    ghost var log: seq<Made>
    ghost var submitted: bytes
    /** A completion has been discarded, so send_buf was thrown away. */
    ghost var discarded: bool

    ghost predicate Valid()
      reads this, tx
      ensures Valid() ==> tx.txHead <= |tx.txBuf| && sendHead <= |sendBuf|
    {
      Accounted() && (encrypt.Some? ==> Accepted(encrypt, log) == tx.acked)
    }

    /** The invariant, apart from what the TLS layer was given. */
    ghost predicate Accounted()
      reads this, tx
      ensures Accounted() ==> tx.txHead <= |tx.txBuf| && sendHead <= |sendBuf|
    {
      && tx.Valid()
      && sendHead <= |sendBuf|
      && (sendInflight ==> submitted <= sendBuf[sendHead..])
      && (encrypt.None? ==> tlsPendingOut == [] && log == [])
      && WellNumbered(log) && CallsIn(log) == calls
      && (!discarded ==> Conserved())
    }

    /** Confirmed, then the rest of send_buf, then what waits behind it: all of it, in order. */
    ghost predicate Conserved()
      requires sendHead <= |sendBuf|
      reads this`confirmed, this`sendBuf, this`sendHead, this`tlsPendingOut, this`log, tx
    {
      var staged := confirmed + sendBuf[sendHead..];
      if encrypt.Some? then staged + tlsPendingOut == Generated(encrypt, log)
      else staged == tx.acked
    }

    /** All there is to send, in order: what is staged, older ciphertext, the client's bytes. None if TLS fails. */
    ghost function Ready(): (s: Option<bytes>)
      requires Valid()
      reads this, tx
    {
      var front := sendBuf[sendHead..] + tlsPendingOut;
      if encrypt.None? then Some(front + tx.PendingTx())
      else
        match Yielded(encrypt.value, calls, tx.PendingTx())
        case None => None
        case Some(output) => Some(front + output)
    }

    constructor (tx: Outbox, encrypt: Option<Tls>)
      requires tx.Valid() && tx.acked == []
      ensures Valid() && this.tx == tx && this.encrypt == encrypt && !sendInflight && !discarded && confirmed == []
      ensures log == [] && state == Driver.Init
    {
      this.tx, this.encrypt, calls, state := tx, encrypt, 0, Driver.Init;
      sendBuf, sendHead, tlsPendingOut, sendInflight := [], 0, [], false;
      confirmed, log, submitted, discarded := [], [], [], false;
    }

    /** The client writes a frame, in flight or not: it joins the end of its own pending bytes. */
    method ClientWrites(opcode: Frame.OpCode, payload: bytes) returns (ghost f: Sent)
      requires Valid() && Writable(opcode, payload)
      modifies tx
      ensures Valid() && f.opcode == opcode && f.payload == payload && tx.written == old(tx.written) + [f]
      ensures tx.opening == old(tx.opening) && tx.acked == old(tx.acked)
      ensures tx.PendingTx() == old(tx.PendingTx()) + FrameBytes(f)
    {
      f := tx.WriteFrame(opcode, payload);
    }

    /** compact_send_buf_if_needed. */
    method CompactSendBufIfNeeded()
      requires Valid() && !sendInflight
      modifies this`sendBuf, this`sendHead
      ensures Valid() && sendHead == 0 && sendBuf == old(sendBuf[sendHead..])
    {
      hide Outbox.Valid, Generated, Accepted, CallsIn, WellNumbered;
      if sendHead == 0 {
        return;
      }
      sendBuf := if sendHead == |sendBuf| then [] else sendBuf[sendHead..];
      sendHead := 0;
    }

    /** Ciphertext that the TLS layer produced while receiving waits outside send_buf. */
    method OnTlsOutput(bytes: bytes)
      requires Valid() && encrypt.Some?
      modifies this`tlsPendingOut, this`log
      ensures Valid() && log == old(log) + [Received(bytes)]
    {
      hide Outbox.Valid, Generated, Accepted, CallsIn, WellNumbered, ReceivedIn;
      LogStep(encrypt, log, Received(bytes));
      Associative(confirmed + sendBuf[sendHead..], tlsPendingOut, bytes);
      assert tx.acked + [] == tx.acked;
      tlsPendingOut := tlsPendingOut + bytes;
      log := log + [Received(bytes)];
    }

    /** egress_plaintext: what the TLS layer yields goes straight behind send_buf. */
    method Encrypt(plaintext: bytes) returns (ok: bool)
      requires Accounted() && !sendInflight && encrypt.Some? && tlsPendingOut == []
      modifies this`calls, this`sendBuf, this`log
      ensures Accounted()
      ensures ok <==> encrypt.value(old(calls), plaintext).Some?
      ensures ok ==> sendBuf == old(sendBuf) + encrypt.value(old(calls), plaintext).value
      ensures !ok ==> sendBuf == old(sendBuf)
      ensures log == old(log) + [Encrypted(old(calls), plaintext)] && calls == old(calls) + 1
      ensures Accepted(encrypt, log) == old(Accepted(encrypt, log)) + if ok then plaintext else []
    {
      hide Outbox.Valid, Generated, Accepted, CallsIn, WellNumbered, ReceivedIn;
      LogStep(encrypt, log, Encrypted(calls, plaintext));
      ghost var staged := sendBuf[sendHead..];
      var out := encrypt.value(calls, plaintext);
      log := log + [Encrypted(calls, plaintext)];
      calls := calls + 1;
      ok := out.Some?;
      assert discarded || confirmed + staged + [] == old(Generated(encrypt, log));
      if ok {
        DropAppend(sendBuf, sendHead, out.value);
        Associative(confirmed, staged, out.value);
        sendBuf := sendBuf + out.value;
      }
    }

    /** Step 1 of try_submit_send: earlier ciphertext first. */
    method MergeTlsPending()
      requires Valid() && !sendInflight
      modifies this`sendBuf, this`tlsPendingOut
      ensures Valid() && tlsPendingOut == [] && sendBuf == old(sendBuf + tlsPendingOut)
    {
      hide Outbox.Valid, Generated, Accepted, CallsIn, WellNumbered;
      DropAppend(sendBuf, sendHead, tlsPendingOut);
      Associative(confirmed, sendBuf[sendHead..], tlsPendingOut);
      sendBuf := sendBuf + tlsPendingOut;
      tlsPendingOut := [];
      assert sendBuf[sendHead..] + [] == sendBuf[sendHead..];
    }

    /** What the client's pending bytes become. */
    function FirstYield(call: nat, pending: bytes): (s: bytes) {
      if encrypt.None? || pending == [] then pending
      else
        match encrypt.value(call, pending)
        case None => []
        case Some(output) => output
    }

    /** Step 2: the client's pending bytes, encrypted or as they are. */
    method MergeWsPending() returns (ok: bool)
      requires Valid() && !sendInflight && tlsPendingOut == []
      modifies this`calls, this`sendBuf, this`log, tx`txBuf, tx`txHead, tx`acked
      ensures Valid() && tlsPendingOut == []
      ensures ok ==> tx.PendingTx() == []
      ensures ok ==>
                sendBuf == old(sendBuf) + FirstYield(old(calls), old(tx.PendingTx()))
      ensures var pending := old(tx.PendingTx());
              && (ok <==> encrypt.None? || pending == [] || encrypt.value(old(calls), pending).Some?)
              && log == old(log) + if encrypt.Some? && pending != [] then [Encrypted(old(calls), pending)] else []
      ensures calls == old(calls) + (|log| - |old(log)|)
    {
      hide Outbox.Valid, Generated, Accepted, CallsIn, WellNumbered, ReceivedIn;
      ok := true;
      assert log + [] == log;
      var pending := tx.PendingTx();
      if pending == [] {
        assert sendBuf + [] == sendBuf;
        return;
      }
      if encrypt.Some? {
        ok := Encrypt(pending);
        if !ok {
          assert tx.acked + [] == tx.acked;
          return;
        }
      } else {
        DropAppend(sendBuf, sendHead, pending);
        Associative(confirmed, sendBuf[sendHead..], pending);
        sendBuf := sendBuf + pending;
      }
      assert pending[..|pending|] == pending;
      tx.AckTx(|pending|);
    }

    /** try_submit_send; submitOk is the outcome of the submission call. */
    method TrySubmitSend(submitOk: bool) returns (r: SubmitResult)
      requires Valid()
      modifies this, tx`txBuf, tx`txHead, tx`acked
      ensures Valid() && state == old(state) && discarded == old(discarded) && confirmed == old(confirmed)
      ensures old(sendInflight) || Resting(old(state)) ==> r == NothingToDo && unchanged(this) && unchanged(tx)
      ensures !old(sendInflight) && !Resting(old(state)) ==>
                log == old(log) + CallsFor(encrypt, old(calls), old(tx.PendingTx()))
      ensures !old(sendInflight) && !Resting(old(state)) ==>
                var ready := old(Ready());
                && (r.NothingToDo? <==> ready == Some([]))
                && (r.SubmitFailed? <==> ready.None? || (ready.value != [] && !submitOk))
                && (ready.Some? ==> sendBuf[sendHead..] == ready.value && tlsPendingOut == tx.PendingTx() == [])
                && (r.Submitted? ==> r.len == Min(|ready.value|, 0xFFFF_FFFF) && submitted == ready.value[..r.len])
      ensures !old(sendInflight) ==> (sendInflight <==> r.Submitted?)
    {
      hide Outbox.Valid, Conserved, CallsFor, Yielded, Generated, Accepted, CallsIn, WellNumbered, ReceivedIn;
      r := NothingToDo;
      if sendInflight || state.Init? || state.Connecting? || state.Closed? {
        return;
      }
      var ok := Gather();
      if !ok {
        return SubmitFailed;
      }
      var pending := |sendBuf| - sendHead;
      if pending == 0 {
        return;
      }
      var len := if pending <= MAX_SEND then pending else MAX_SEND;
      if !submitOk {
        return SubmitFailed;
      }
      sendInflight := true;
      submitted := sendBuf[sendHead..][..len];
      r := Submitted(len);
    }

    /** Everything ready to go is put behind what is left of send_buf, in order. */
    method Gather() returns (ok: bool)
      requires Valid() && !sendInflight
      modifies this`calls, this`sendBuf, this`sendHead, this`tlsPendingOut, this`log
      modifies tx`txBuf, tx`txHead, tx`acked
      ensures Valid()
      ensures ok ==> tlsPendingOut == [] && tx.PendingTx() == []
      ensures log == old(log) + CallsFor(encrypt, old(calls), old(tx.PendingTx()))
      ensures ok <==> old(Ready()).Some?
      ensures ok ==> Some(sendBuf[sendHead..]) == old(Ready())
    {
      hide Outbox.Valid, Conserved, Generated, Accepted, CallsIn, WellNumbered, ReceivedIn;
      ghost var pending := tx.PendingTx();
      CompactSendBufIfNeeded();
      MergeTlsPending();
      ghost var front := sendBuf;
      ok := MergeWsPending();
      if ok && encrypt.Some? {
        assert Accepted(encrypt, log) + [] == Accepted(encrypt, log);
        ghost var first := FirstYield(old(calls), pending);
        assert sendBuf == front + first;
        ok := Encrypt([]);
        if ok {
          Associative(front, first, encrypt.value(calls - 1, []).value);
        }
        assert pending == [] ==> front + first == front;
      }
      assert sendBuf[sendHead..] == sendBuf;
      assert log == old(log) + CallsFor(encrypt, old(calls), old(tx.PendingTx()));
    }

    /** on_send_cqe: the kernel took n of the submitted bytes, or failed. */
    method OnSendCqe(result: Option<nat>) returns (ok: bool)
      requires Valid() && sendInflight && (result.Some? ==> result.value <= |submitted|)
      modifies this`sendInflight, this`sendHead, this`sendBuf, this`confirmed
      ensures Valid() && !sendInflight && ok == result.Some?
      ensures ok ==> confirmed == old(confirmed) + old(submitted)[..result.value]
      ensures ok ==> |sendBuf[sendHead..]| == |old(sendBuf[sendHead..])| - result.value
      ensures !ok ==> confirmed == old(confirmed)
    {
      hide Outbox.Valid, Generated, Accepted, CallsIn, WellNumbered;
      sendInflight := false;
      ok := result.Some?;
      if ok {
        ghost var whole := confirmed + sendBuf[sendHead..];
        Confirmed(confirmed, sendBuf, sendHead, submitted, result.value);
        confirmed := confirmed + submitted[..result.value];
        sendHead := sendHead + result.value;
        if sendHead >= |sendBuf| {
          sendBuf, sendHead := [], 0;
        }
        assert confirmed + sendBuf[sendHead..] == whole;
      }
    }

    /** discard_completion_after_closed, for a send. */
    method DiscardSend()
      requires Valid() && state.Closed?
      modifies this`sendInflight, this`sendBuf, this`sendHead, this`discarded
      ensures Valid() && !sendInflight && sendBuf == [] && discarded
    {
      hide Outbox.Valid, Generated, Accepted, CallsIn, WellNumbered;
      sendInflight, sendBuf, sendHead, discarded := false, [], 0, true;
    }

    /**
     Nothing lost, repeated or reordered on plain TCP: what the kernel confirmed, what is staged and
     what the client still holds are together the upgrade request and the frames written so far.
     */
    lemma PlainBytesConserved()
      requires Valid() && !discarded && encrypt.None?
      ensures confirmed + sendBuf[sendHead..] + tx.PendingTx() == tx.opening + Wire(tx.written)
    {
    }

    /**
     With TLS, the same of the ciphertext in the order in which it was generated; and what the TLS layer
     was given, with what the client still holds, is the upgrade request and the frames written so far.
     */
    lemma CiphertextConserved()
      requires Valid() && !discarded && encrypt.Some?
      ensures confirmed + sendBuf[sendHead..] + tlsPendingOut == Generated(encrypt, log)
      ensures Accepted(encrypt, log) + tx.PendingTx() == tx.opening + Wire(tx.written)
      ensures WellNumbered(log) && CallsIn(log) == calls
    {
    }

    /** The rest of the connection moves the driver's state. */
    method Move(next: Driver)
      requires Valid()
      modifies this`state
      ensures Valid() && state == next
    {
      state := next;
    }
  }

  // ---- whole runs ----------------------------------------------------------------------------

  /** What can happen to the sending side: the client, the TLS layer, the pool, the kernel, the driver. */
  datatype EgressOp =
    | Write(opcode: Frame.OpCode, payload: bytes)
    | TlsOutput(output: bytes)
    | Submit(submitOk: bool)
    | Finished(result: Option<nat>)
    | Move(next: Driver)

  /**
   A send: where in send_buf the bytes lie that the kernel was given, what they were, what lies in the same
   place when the kernel is done, and what it took.
   */
  datatype Flight = Flight(at: nat, lent: bytes, seen: bytes, taken: bytes)

  /** The memory lent to the kernel: a place in send_buf and what was there. */
  datatype Loan = Loan(at: nat, bytes: bytes)

  predicate Closes(op: EgressOp) { op.Move? && op.next.Closed? }

  /** The messages that the client writes in a run. */
  function Writes(ops: seq<EgressOp>): (m: seq<Message>) {
    if ops == [] then []
    else
      var last := ops[|ops| - 1];
      Writes(ops[..|ops| - 1]) + if last.Write? then [Message(last.opcode, last.payload)] else []
  }

  function Taken(flights: seq<Flight>): (s: bytes) {
    if flights == [] then [] else Taken(flights[..|flights| - 1]) + flights[|flights| - 1].taken
  }

  /** The ciphertext that comes out of the TLS layer while receiving. */
  function TlsOutputs(ops: seq<EgressOp>): (outputs: seq<bytes>) {
    if ops == [] then []
    else
      var last := ops[|ops| - 1];
      TlsOutputs(ops[..|ops| - 1]) + if last.TlsOutput? then [last.output] else []
  }

  /** The loan is where the next bytes to be confirmed are. */
  ghost predicate Lent(e: Egress, loan: Loan)
    reads e
  {
    e.sendInflight ==> loan == Loan(e.sendHead, e.submitted)
  }

  /** What one event makes the TLS layer generate. */
  ghost function MadeBy(e: Egress, op: EgressOp): (made: seq<Made>)
    requires e.Valid()
    reads e, e.tx
  {
    if e.encrypt.None? then []
    else if op.TlsOutput? then [Received(op.output)]
    else if op.Submit? && !e.sendInflight && !Resting(e.state) then CallsFor(e.encrypt, e.calls, e.tx.PendingTx())
    else []
  }

  /**
   One event. The kernel takes no more than it was given; submissions and sends that fail close the
   connection, and a completion for a closed connection throws send_buf away. While a send stays in flight
   send_buf and its head do not move.
   */
  method Happen(e: Egress, op: EgressOp, loan: Loan) returns (loan': Loan, flight: Option<Flight>)
    requires e.Valid() && (op.Write? ==> Writable(op.opcode, op.payload)) && Lent(e, loan)
    modifies e, e.tx
    ensures e.Valid() && Lent(e, loan')
    ensures old(e.sendInflight) && e.sendInflight ==>
              e.sendBuf == old(e.sendBuf) && e.sendHead == old(e.sendHead) && loan' == loan
    ensures e.tx.opening == old(e.tx.opening) && (old(e.discarded) ==> e.discarded)
    ensures MessagesOf(e.tx.written)
         == MessagesOf(old(e.tx.written)) + if op.Write? then [Message(op.opcode, op.payload)] else []
    ensures e.log == old(e.log) + old(MadeBy(e, op))
    ensures flight.Some? ==>
              var f := flight.value;
              old(e.sendInflight) && f.at == loan.at && f.lent == loan.bytes && f.seen == f.lent && f.taken <= f.lent
    ensures op.Submit? && !old(e.sendInflight) && !Resting(old(e.state)) ==>
              var ready := old(e.Ready());
              && (e.sendInflight <==> ready.Some? && ready.value != [] && op.submitOk)
              && (e.sendInflight ==> loan'.bytes == ready.value[..Min(|ready.value|, 0xFFFF_FFFF)])
              && (e.state.Closed? <==> ready.None? || (ready.value != [] && !op.submitOk))
    ensures op.Finished? && old(e.sendInflight) && !old(e.state).Closed?
            && (op.result.Some? ==> op.result.value <= |loan.bytes|) ==>
              && !e.sendInflight && flight.Some?
              && flight.value.taken == (if op.result.Some? then loan.bytes[..op.result.value] else [])
              && (e.state.Closed? <==> op.result.None?)
    ensures !e.discarded ==> e.confirmed == old(e.confirmed) + if flight.Some? then flight.value.taken else []
    ensures !Closes(op) && !old(e.discarded) && !old(e.state.Closed? && e.sendInflight) ==>
              !e.discarded && !(e.state.Closed? && e.sendInflight)
  {
    hide Egress.Valid, Outbox.Valid, MessagesOf, Wire, CallsFor;
    loan', flight := loan, None;
    NothingMore(MessagesOf(e.tx.written), e.confirmed, e.log);
    match op {
      case Write(opcode, payload) =>
        ghost var f := e.ClientWrites(opcode, payload);
        OneMessage(old(e.tx.written), f);
      case TlsOutput(output) =>
        if e.encrypt.Some? {
          e.OnTlsOutput(output);
        }
      case Submit(submitOk) =>
        NothingMade(e);
        var r := e.TrySubmitSend(submitOk);
        if r.Submitted? {
          InFlight(e);
          loan' := Loan(e.sendHead, e.sendBuf[e.sendHead..e.sendHead + r.len]);
          assert e.sendBuf[e.sendHead..][..r.len] == loan'.bytes;
        } else if r.SubmitFailed? {
          e.Move(Driver.Closed);
        }
      case Finished(result) =>
        if e.sendInflight && e.state.Closed? {
          e.DiscardSend();
        } else if e.sendInflight && (result.Some? ==> result.value <= |loan.bytes|) {
          InFlight(e);
          var seen := e.sendBuf[loan.at..loan.at + |loan.bytes|];
          var ok := e.OnSendCqe(result);
          flight := Some(Flight(loan.at, loan.bytes, seen, if ok then seen[..result.value] else []));
          if !ok {
            e.Move(Driver.Closed);
          }
        }
      case Move(next) => e.Move(next);
    }
  }

  lemma NothingMore(m: seq<Message>, s: bytes, log: seq<Made>)
    ensures m + [] == m && s + [] == s && log + [] == log
  {
  }

  lemma NothingMade(e: Egress)
    ensures forall pending :: e.encrypt.None? ==> CallsFor(e.encrypt, e.calls, pending) == []
  {
  }

  lemma OneMessage(written: seq<Sent>, f: Sent)
    ensures MessagesOf(written + [f]) == MessagesOf(written) + [Message(f.opcode, f.payload)]
  {
  }

  lemma InFlight(e: Egress)
    requires e.Valid() && e.sendInflight
    ensures e.sendHead + |e.submitted| <= |e.sendBuf|
    ensures e.sendBuf[e.sendHead..e.sendHead + |e.submitted|] == e.submitted
  {
    hide Outbox.Valid;
    assert e.submitted <= e.sendBuf[e.sendHead..];
    assert e.sendBuf[e.sendHead..][..|e.submitted|] == e.sendBuf[e.sendHead..e.sendHead + |e.submitted|];
  }

  /**
   Any run of the sending side, up to the first completion for a closed connection: what the kernel took,
   what is staged and what waits are together everything generated, in order. With TLS that is what came out
   while receiving and what each numbered call yielded for the plaintext it was given, and the plaintext
   accepted with the client's pending bytes is the request and all frames. The memory lent to the kernel was
   the same, in the same place, when it was done. Such a completion needs the driver to close in mid-flight.
   */
  method EgressSession(
      request: bytes, entropy: nat -> bytes, avx2: bool, encrypt: Option<Tls>, ops: seq<EgressOp>)
    returns (flights: seq<Flight>, ghost log: seq<Made>, ghost e: Egress)
    requires forall n: nat :: |entropy(n)| == MASK_POOL_BYTES
    requires forall op <- ops :: op.Write? ==> Writable(op.opcode, op.payload)
    ensures e.Valid() && e.encrypt == encrypt && e.tx.opening == request && MessagesOf(e.tx.written) == Writes(ops)
    ensures forall f <- flights :: f.seen == f.lent && f.taken <= f.lent
    ensures (forall op <- ops :: !Closes(op)) ==> !e.discarded
    ensures !e.discarded && encrypt.None? ==>
              Taken(flights) + e.sendBuf[e.sendHead..] + e.tx.PendingTx() == request + Wire(e.tx.written)
    ensures encrypt.Some? ==> WellNumbered(log) && ReceivedIn(log) == TlsOutputs(ops)
    ensures !e.discarded && encrypt.Some? ==>
              && Taken(flights) + e.sendBuf[e.sendHead..] + e.tlsPendingOut == Generated(encrypt, log)
              && Accepted(encrypt, log) + e.tx.PendingTx() == request + Wire(e.tx.written)
  {
    hide Egress.Valid, Outbox.Valid, MessagesOf, Wire, Taken, Writes, Closes, TlsOutputs, ReceivedIn, WellNumbered,
      Generated, Accepted, CallsIn, CallsFor;
    var tx := new Outbox(0, request, entropy, avx2);
    tx.PushRequest();
    var egress := new Egress(tx, encrypt);
    var loan := Loan(0, []);
    flights := [];
    NoWrites();
    for i := 0 to |ops|
      invariant fresh(egress) && fresh(egress.tx) && egress.encrypt == encrypt && egress.tx.opening == request
      invariant egress.Valid() && Lent(egress, loan)
      invariant MessagesOf(egress.tx.written) == Writes(ops[..i])
      invariant encrypt.Some? ==> ReceivedIn(egress.log) == TlsOutputs(ops[..i])
      invariant forall f <- flights :: f.seen == f.lent && f.taken <= f.lent
      invariant !egress.discarded ==> egress.confirmed == Taken(flights)
      invariant (forall op <- ops[..i] :: !Closes(op)) ==>
                  !egress.discarded && !(egress.state.Closed? && egress.sendInflight)
    {
      WritesStep(ops, i);
      MadeReceives(egress, ops[i]);
      var flight;
      loan, flight := Happen(egress, ops[i], loan);
      if flight.Some? {
        TakenStep(flights, flight.value);
        flights := flights + [flight.value];
      } else {
        NothingMore([], Taken(flights), []);
      }
    }
    assert ops[..|ops|] == ops;
    e, log := egress, egress.log;
    if encrypt.Some? {
      LogNumbered(e);
    }
    if !e.discarded {
      if encrypt.Some? {
        e.CiphertextConserved();
      } else {
        e.PlainBytesConserved();
      }
    }
  }

  /**
   On plain TCP everything written leaves, however little the kernel takes each time: submitting and completing in
   turn comes to an end, and then the kernel has confirmed the request and all frames.
   */
  method Flush(e: Egress, takes: nat -> nat) returns (sends: nat)
    requires e.Valid() && !e.discarded && e.encrypt.None? && !e.sendInflight && !Resting(e.state)
    requires forall k :: takes(k) > 0
    modifies e, e.tx`txBuf, e.tx`txHead, e.tx`acked
    ensures e.Valid() && !e.sendInflight && e.state == old(e.state) && e.tx.PendingTx() == []
    ensures e.confirmed == e.tx.opening + Wire(e.tx.written)
  {
    hide Egress.Valid, Outbox.Valid, CallsFor, Wire;
    sends := 0;
    var r := NothingToDo;
    while true
      invariant e.Valid() && !e.discarded && !e.sendInflight && e.state == old(e.state)
      decreases |e.sendBuf[e.sendHead..] + e.tlsPendingOut + e.tx.PendingTx()|
    {
      r := e.TrySubmitSend(true);
      if r.NothingToDo? {
        break;
      }
      InFlight(e);
      var ok := e.OnSendCqe(Some(Min(takes(sends), r.len)));
      sends := sends + 1;
    }
    e.PlainBytesConserved();
    assert e.confirmed + [] + [] == e.confirmed;
  }

  lemma LogNumbered(e: Egress)
    requires e.Valid()
    ensures WellNumbered(e.log)
  {
    hide Outbox.Valid, WellNumbered, CallsIn, Generated, Accepted;
  }

  /** Only what comes out while receiving is logged as received. */
  lemma MadeReceives(e: Egress, op: EgressOp)
    requires e.Valid()
    ensures e.encrypt.Some? ==>
              ReceivedIn(e.log + MadeBy(e, op)) == ReceivedIn(e.log) + if op.TlsOutput? then [op.output] else []
  {
    hide Egress.Valid, Outbox.Valid, ReceivedIn, WellNumbered, Generated, Accepted, CallsIn;
    var made := MadeBy(e, op);
    if made == [] {
      assert e.log + made == e.log;
    } else {
      LogStep(e.encrypt, e.log, made[0]);
      if |made| > 1 {
        LogStep(e.encrypt, e.log + [made[0]], made[1]);
        assert made == [made[0]] + [made[1]];
        Associative(e.log, [made[0]], [made[1]]);
      } else {
        assert made == [made[0]];
      }
    }
  }

  lemma NoWrites()
    ensures Writes([]) == [] && MessagesOf([]) == [] && Taken([]) == [] && TlsOutputs([]) == ReceivedIn([])
  {
  }

  lemma WritesStep(ops: seq<EgressOp>, i: nat)
    requires i < |ops|
    ensures Writes(ops[..i + 1]) ==
            Writes(ops[..i]) + if ops[i].Write? then [Message(ops[i].opcode, ops[i].payload)] else []
    ensures TlsOutputs(ops[..i + 1]) == TlsOutputs(ops[..i]) + if ops[i].TlsOutput? then [ops[i].output] else []
    ensures ops[..i + 1] == ops[..i] + [ops[i]]
  {
    assert ops[..i + 1][..i] == ops[..i];
  }

  lemma TakenStep(flights: seq<Flight>, f: Flight)
    ensures Taken(flights + [f]) == Taken(flights) + f.taken
  {
    assert (flights + [f])[..|flights|] == flights;
  }
}
