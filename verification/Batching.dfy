/**
 Fixed-capacity batches of data events and their marks, src/ws/client.rs:205-299,
 src/ws/client.rs:393-405 and src/observability.rs:645-712.
 */
module Batching {
  import opened Bytes
  import opened Decoder
  import opened FastPath

  const DATA_EVENT_BATCH_CAPACITY := 32
  const MAX_INDEX := 0xFFFF
  const MAX_SEQUENCE := 0xFFFF_FFFF_FFFF_FFFF

  /** A data event with its place in the chunk and on the connection. */
  datatype MarkedEvent = MarkedEvent(event: Event, index: nat, sequence: nat)

  datatype Batch = Batch(events: seq<MarkedEvent>, chunkEnd: bool) {
    predicate IsFull() { |events| == DATA_EVENT_BATCH_CAPACITY }
  }

  /** The counters next_marked_meta advances: both stop at their largest value. */
  datatype Counters = Counters(index: nat, sequence: nat) {
    function Plus(n: nat): (c: Counters) {
      Counters(Min(index + n, MAX_INDEX), Min(sequence + n, MAX_SEQUENCE))
    }

    predicate InRange() { index <= MAX_INDEX && sequence <= MAX_SEQUENCE }
  }

  function Flatten(batches: seq<Batch>): (s: seq<MarkedEvent>) {
    if batches == [] then [] else Flatten(batches[..|batches| - 1]) + batches[|batches| - 1].events
  }

  function Unmarked(s: seq<MarkedEvent>): (r: seq<Event>)
    ensures |r| == |s|
  {
    seq(|s|, i requires 0 <= i < |s| => s[i].event)
  }

  /** Marks count up from c, one for each event. */
  predicate Numbered(s: seq<MarkedEvent>, c: Counters) {
    forall k :: 0 <= k < |s| ==> s[k].index == c.Plus(k).index && s[k].sequence == c.Plus(k).sequence
  }

  /** Batches of one chunk: full ones, then a last one that alone may be marked as the end. */
  predicate Shaped(batches: seq<Batch>, chunkEnd: bool) {
    forall i :: 0 <= i < |batches| ==>
      if i < |batches| - 1 then |batches[i].events| == 32 && !batches[i].chunkEnd
      else 0 < |batches[i].events| <= 32 && batches[i].chunkEnd == chunkEnd
  }

  /** Full batches that wait for more of the chunk. */
  predicate AllFull(batches: seq<Batch>) {
    forall b <- batches :: b.IsFull() && !b.chunkEnd
  }

  lemma FlattenAppend(batches: seq<Batch>, last: Batch)
    ensures Flatten(batches + [last]) == Flatten(batches) + last.events
  {
    assert (batches + [last])[..|batches|] == batches;
  }

  lemma {:induction false} FlattenConcat(a: seq<Batch>, b: seq<Batch>)
    ensures Flatten(a + b) == Flatten(a) + Flatten(b)
    decreases |b|
  {
    if b == [] {
      assert a + b == a;
    } else {
      var front, last := b[..|b| - 1], b[|b| - 1];
      assert a + b == (a + front) + [last];
      FlattenAppend(a + front, last);
      FlattenConcat(a, front);
      assert b == front + [last];
      Associative(Flatten(a), Flatten(front), last.events);
    }
  }

  lemma NumberedConcat(a: seq<MarkedEvent>, b: seq<MarkedEvent>, c: Counters)
    requires Numbered(a, c) && Numbered(b, c.Plus(|a|))
    ensures Numbered(a + b, c) && Unmarked(a + b) == Unmarked(a) + Unmarked(b)
  {
    forall k | 0 <= k < |a + b|
      ensures (a + b)[k].index == c.Plus(k).index && (a + b)[k].sequence == c.Plus(k).sequence
    {
      if k >= |a| {
        assert (a + b)[k] == b[k - |a|];
      }
    }
  }

  /** flush_data_event_batch. */
  function Flush(batches: seq<Batch>, batch: seq<MarkedEvent>, chunkEnd: bool): (r: seq<Batch>) {
    if batch == [] then batches else batches + [Batch(batch, chunkEnd)]
  }

  lemma FlushFlattens(batches: seq<Batch>, batch: seq<MarkedEvent>, chunkEnd: bool)
    ensures Flatten(Flush(batches, batch, chunkEnd)) == Flatten(batches) + batch
  {
    FlattenAppend(batches, Batch(batch, chunkEnd));
  }

  lemma FlushShapes(batches: seq<Batch>, batch: seq<MarkedEvent>, chunkEnd: bool)
    requires AllFull(batches) && |batch| <= DATA_EVENT_BATCH_CAPACITY && (batches != [] ==> batch != [])
    ensures Shaped(Flush(batches, batch, chunkEnd), chunkEnd)
  {
  }

  /** The loop of try_drain_data_event_batches_marked and its ingress twin. */
  method DrainFramesBatched(cfg: Config, input: bytes, start: Counters)
    returns (batches: seq<Batch>, consumed: nat, verdict: Verdict, next: Counters)
    requires start.InRange()
    ensures Scan(Unmarked(Flatten(batches)), consumed, verdict) == ScanFrames(cfg, input)
    ensures Shaped(batches, !verdict.FallBack?)
    ensures Numbered(Flatten(batches), start) && next == start.Plus(|Flatten(batches)|)
  {
    hide ParseCompleteServerDataFrame, Shaped, Flatten, Numbered, Flush;
    var batch: seq<MarkedEvent>, rest := [], input;
    batches, consumed, next := [], 0, start;
    ghost var log: seq<MarkedEvent> := [];
    EmptyLog(start);
    while true
      invariant consumed <= |input| && rest == input[consumed..]
      invariant AllFull(batches) && |batch| <= DATA_EVENT_BATCH_CAPACITY && (batches != [] ==> batch != [])
      invariant log == Flatten(batches) + batch
      invariant Numbered(log, start) && next == start.Plus(|log|)
      invariant ScanFrames(cfg, input) == Continue(Unmarked(log), consumed, ScanFrames(cfg, rest))
      decreases |rest|
    {
      var parsed := if rest == [] then NeedMoreBytes else ParseCompleteServerDataFrame(cfg, rest);
      if parsed.Complete? {
        if |batch| == DATA_EVENT_BATCH_CAPACITY {
          batches, batch := FlushFull(batches, batch), [];
        }
        var m := MarkedEvent(parsed.event, next.index, next.sequence);
        ScanOneMore(cfg, input, log, consumed, rest, start, m);
        Associative(Flatten(batches), batch, [m]);
        log, batch, next := log + [m], batch + [m], next.Plus(1);
        consumed, rest := consumed + parsed.frameLen, rest[parsed.frameLen..];
      } else {
        verdict :=
          if rest == [] then Drained
          else match parsed
               case Rejected(e) => Reject(e)
               case Fallback => FallBack
               case _ => WaitForMore;
        FlushFlattens(batches, batch, !verdict.FallBack?);
        FlushShapes(batches, batch, !verdict.FallBack?);
        batches := Flush(batches, batch, !verdict.FallBack?);
        return;
      }
    }
  }

  lemma EmptyLog(start: Counters)
    requires start.InRange()
    ensures Numbered([], start) && start.Plus(0) == start && Flatten([]) == [] && Unmarked([]) == []
  {
  }

  function FlushFull(batches: seq<Batch>, batch: seq<MarkedEvent>): (r: seq<Batch>)
    requires AllFull(batches) && |batch| == DATA_EVENT_BATCH_CAPACITY
    ensures AllFull(r) && Flatten(r) == Flatten(batches) + batch
  {
    FlattenAppend(batches, Batch(batch, false));
    batches + [Batch(batch, false)]
  }

  lemma ScanOneMore(cfg: Config, input: bytes, log: seq<MarkedEvent>, consumed: nat, rest: bytes, start: Counters,
                    m: MarkedEvent)
    requires rest != [] && ParseCompleteServerDataFrame(cfg, rest).Complete?
    requires ParseCompleteServerDataFrame(cfg, rest).event == m.event
    requires ScanFrames(cfg, input) == Continue(Unmarked(log), consumed, ScanFrames(cfg, rest))
    requires Numbered(log, start)
    requires m.index == start.Plus(|log|).index && m.sequence == start.Plus(|log|).sequence
    ensures var frameLen := ParseCompleteServerDataFrame(cfg, rest).frameLen;
            ScanFrames(cfg, input) ==
            Continue(Unmarked(log + [m]), consumed + frameLen, ScanFrames(cfg, rest[frameLen..]))
    ensures Numbered(log + [m], start) && start.Plus(|log| + 1) == start.Plus(|log|).Plus(1)
  {
    hide ParseCompleteServerDataFrame;
    var frameLen := ParseCompleteServerDataFrame(cfg, rest).frameLen;
    ContinueTwice(Unmarked(log), consumed, [m.event], frameLen, ScanFrames(cfg, rest[frameLen..]));
    assert Unmarked(log + [m]) == Unmarked(log) + [m.event];
  }

  /** Saturation is the only way marks repeat: while the counters have room, they are consecutive. */
  lemma MarksAreConsecutive(s: seq<MarkedEvent>, c: Counters, k: nat)
    requires c.InRange() && Numbered(s, c) && k < |s|
    ensures s[k].sequence == c.sequence + k <==> c.sequence + k <= 0xFFFF_FFFF_FFFF_FFFF
    ensures s[k].index == c.index + k <==> c.index + k <= 0xFFFF
  {
  }
}
