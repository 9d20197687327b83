/** The incremental frame parser, src/ws/parser.rs. */
module Parser {
  import opened Bytes
  import opened Frame

  datatype ParserState = Idle | HeaderPartial(partial: bytes) | Payload(remaining: nat)

  datatype FeedOutcome =
    | NeedMore(consumed: nat)
    | FrameStart(consumed: nat, h: FrameHeader)
    | PayloadChunk(consumed: nat, chunk: bytes)
    | FrameEnd(consumed: nat)
    | FeedError(error: FrameError)

  /** What parse_header says of a complete header is what the whole input will say. */
  lemma AnnounceVerdict(partial: bytes, held: bytes, input: bytes, total: nat)
    requires total <= |input| && partial == held + input[..total]
    requires |partial| >= 2 && |partial| >= HeaderSize(partial[1])
    requires total > 0 ==> |partial| == HeaderSize(partial[1])
    requires ServerHeader(held).Incomplete? || ServerHeader(held).Bad?
    ensures match ParseHeader(partial)
            case Incomplete => false
            case Bad(e) => ServerHeader(partial) == ServerHeader(held + input) == Bad(e)
            case Header(h, size) =>
              if h.mask.Some? then ServerHeader(partial) == ServerHeader(held + input) == Bad(ServerSentMaskedFrame)
              else total > 0 && size == |partial| && ServerHeader(held + input) == Header(h, size)
  {
    hide ParseHeader, HeaderSize;
    WholeHeaderDecided(partial);
    assert partial[..|partial|] == partial;
    ServerVerdictStable(partial, input[total..]);
    assert partial + input[total..] == held + input;
    if total == 0 {
      assert partial == held;
    }
    var n := HeaderSize(partial[1]);
    VerdictStable(partial[..n], partial[n..]);
    assert partial[..n] + partial[n..] == partial;
  }

  lemma TakeMore(held: bytes, input: bytes, total: nat, take: nat)
    requires total + take <= |input|
    ensures (held + input[..total]) + input[total..][..take] == held + input[..total + take]
    ensures input[total..][take..] == input[total + take..]
  {
  }

  lemma ShortHeader(partial: bytes)
    requires |partial| < 2 || |partial| < HeaderSize(partial[1])
    ensures ServerHeader(partial).Incomplete?
  {
  }

  /** Copies header bytes, first up to the two that announce the size, then up to that size. */
  method TakeHeader(held: bytes, input: bytes) returns (partial: bytes, total: nat, complete: bool)
    ensures total <= |input| && partial == held + input[..total]
    ensures complete ==>
              && |partial| >= 2 && |partial| >= HeaderSize(partial[1])
              && (total > 0 ==> |partial| == HeaderSize(partial[1]))
    ensures !complete ==> total == |input| && (|partial| < 2 || |partial| < HeaderSize(partial[1]))
  {
    var rest := input;
    partial, total := held, 0;
    while true
      invariant total <= |input| && rest == input[total..]
      invariant partial == held + input[..total]
      invariant total > 0 ==> |partial| <= 2 || |partial| <= HeaderSize(partial[1])
      decreases |rest|
    {
      var minNeeded := if |partial| < 2 then 2 else HeaderSize(partial[1]);
      if |partial| >= minNeeded {
        return partial, total, true;
      }
      var want := minNeeded - |partial|;
      var take := if want <= |rest| then want else |rest|;
      if take == 0 {
        return partial, total, false;
      }
      TakeMore(held, input, total, take);
      partial := partial + rest[..take];
      rest, total := rest[take..], total + take;
    }
  }

  class FrameParser {
    var state: ParserState

    /** A header in progress is incomplete, or was already rejected. */
    ghost predicate Valid()
      reads this
    {
      state.HeaderPartial? ==> ServerHeader(state.partial).Incomplete? || ServerHeader(state.partial).Bad?
    }

    /** Header bytes taken in but not yet announced. */
    ghost function Held(): bytes
      reads this
    {
      if state.HeaderPartial? then state.partial else []
    }

    constructor ()
      ensures Valid() && state == Idle
    {
      state := Idle;
    }

    predicate IsIdle()
      reads this
    {
      state.Idle?
    }

    /** feed_one: takes in bytes and yields at most one event. */
    method FeedOne(input: bytes) returns (o: FeedOutcome)
      requires Valid()
      modifies this
      ensures Valid()
      ensures old(state).Payload? ==>
                (var rem := old(state).remaining;
                 if rem == 0 then o == FrameEnd(0) && state == Idle
                 else if input == [] then o == NeedMore(0) && state == old(state)
                 else
                   var take := if |input| <= rem then |input| else rem;
                   o == PayloadChunk(take, input[..take]) && state == Payload(rem - take))
      ensures !old(state).Payload? ==>
                (var seen := old(Held()) + input;
                 match ServerHeader(seen)
                 case Incomplete => o == NeedMore(|input|) && state == HeaderPartial(seen)
                 case Bad(e) => o == FeedError(e) && state.HeaderPartial?
                 case Header(h, size) =>
                   && size > |old(Held())|
                   && o == FrameStart(size - |old(Held())|, h)
                   && state == Payload(h.len))
    {
      if state.Payload? {
        o := FeedPayload(input);
      } else {
        if state.Idle? {
          state := HeaderPartial([]);
        }
        o := FeedHeader(input);
      }
    }

    method FeedHeader(input: bytes) returns (o: FeedOutcome)
      requires Valid() && state.HeaderPartial?
      modifies this
      ensures Valid()
      ensures var seen := old(state).partial + input;
              match ServerHeader(seen)
              case Incomplete => o == NeedMore(|input|) && state == HeaderPartial(seen)
              case Bad(e) => o == FeedError(e) && state.HeaderPartial?
              case Header(h, size) =>
                && size > |old(state).partial|
                && o == FrameStart(size - |old(state).partial|, h)
                && state == Payload(h.len)
    {
      hide ServerHeader, HeaderSize;
      var held := state.partial;
      var partial, total, complete := TakeHeader(held, input);
      state := HeaderPartial(partial);
      if complete {
        o := Announce(held, input, total);
      } else {
        assert partial == held + input;
        ShortHeader(partial);
        o := NeedMore(total);
      }
    }

    /** The header is complete: parse it, reject it if masked. */
    method Announce(ghost held: bytes, ghost input: bytes, total: nat) returns (o: FeedOutcome)
      requires state.HeaderPartial? && total <= |input|
      requires state.partial == held + input[..total]
      requires |state.partial| >= 2 && |state.partial| >= HeaderSize(state.partial[1])
      requires total > 0 ==> |state.partial| == HeaderSize(state.partial[1])
      requires ServerHeader(held).Incomplete? || ServerHeader(held).Bad?
      modifies this
      ensures Valid()
      ensures match ServerHeader(held + input)
              case Incomplete => false
              case Bad(e) => o == FeedError(e) && state == old(state)
              case Header(h, size) =>
                size == |held| + total && total > 0 && o == FrameStart(total, h) && state == Payload(h.len)
    {
      AnnounceVerdict(state.partial, held, input, total);
      match ParseHeader(state.partial) {
        case Bad(e) => o := FeedError(e);
        case Header(h, size) =>
          if h.mask.Some? {
            o := FeedError(ServerSentMaskedFrame);
          } else {
            state := Payload(h.len);
            o := FrameStart(total, h);
          }
      }
    }

    method FeedPayload(input: bytes) returns (o: FeedOutcome)
      requires state.Payload?
      modifies this
      ensures var rem := old(state).remaining;
              if rem == 0 then o == FrameEnd(0) && state == Idle
              else if input == [] then o == NeedMore(0) && state == old(state)
              else
                var take := if |input| <= rem then |input| else rem;
                o == PayloadChunk(take, input[..take]) && state == Payload(rem - take)
    {
      if state.remaining == 0 {
        state := Idle;
        return FrameEnd(0);
      }
      if input == [] {
        return NeedMore(0);
      }
      var take := if |input| <= state.remaining then |input| else state.remaining;
      state := Payload(state.remaining - take);
      o := PayloadChunk(take, input[..take]);
    }
  }
}
