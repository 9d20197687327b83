/**
 One connection's multishot receive, with the kernel: who owns which buffer, and when the
 receive is armed. src/connection_state.rs:406-430, 542-572, 1315-1348 and 1376-1420,
 src/proactor/buf_ring.rs:155-169 and 254-287.
 */
module RecvLoop {
  import opened Ring
  import opened BufRing

  /** A receive completion: with buffers, or end of stream, or no buffers left, or an error. */
  datatype Completion =
    | Data(start: nat, len: nat, hasMore: bool)
    | Eof(hasMore: bool)
    | RingExhausted
    | RecvError(hasMore: bool)
  {
    /** IORING_CQE_F_MORE; running out of buffers ends a multishot receive. */
    predicate More() { !RingExhausted? && hasMore }
  }

  datatype Config = Config(mode: RecvMode, bufSize: nat) {
    predicate Valid() { bufSize > 0 }

    /** The number of buffers a completion of this length fills. */
    function Buffers(len: nat): (c: nat)
      requires Valid()
    {
      if len == 0 then 1 else SliceCount(mode, len, bufSize)
    }
  }

  /**
   The ring, how many buffers the kernel has ever taken and the driver ever returned, the posted and
   undrained completions, the driver's multishot_armed flag, and whether the kernel's receive is alive.
   */
  datatype System = System(
    v: RingView, taken: nat, returned: nat, queue: seq<Completion>, armed: bool, live: bool)

  function Entries(s: System): nat { |s.v.slots| }

  datatype Action =
    | Post(c: Completion)
    | Dispatch(k: nat)
    | Rearm

  // ---- the kernel's contract -----------------------------------------------------------

  /** The kernel takes entries from the head, in order, and only published ones. */
  ghost predicate CanPost(cfg: Config, s: System, c: Completion)
    requires cfg.Valid() && Entries(s) > 0
  {
    && s.live
    && (c.Data? ==>
          && (cfg.mode.Multishot? ==> c.len <= cfg.bufSize)
          && s.taken + cfg.Buffers(c.len) <= s.returned + Entries(s)
          && c.start == s.v.slots[s.taken % Entries(s)])
    && (c.RingExhausted? ==> s.taken == s.returned + Entries(s))
  }

  /** The buffers a completion really filled: the entries from the head on. */
  function FilledBy(s: System, i: nat): (bid: nat)
    requires Entries(s) > 0
  {
    s.v.slots[(s.taken + i) % Entries(s)]
  }

  function AfterPost(cfg: Config, s: System, c: Completion): (r: System)
    requires cfg.Valid()
  {
    s.(queue := s.queue + [c],
       live := c.More(),
       taken := if c.Data? then s.taken + cfg.Buffers(c.len) else s.taken)
  }

  // ---- the driver ------------------------------------------------------------------

  /** Handling one completion: its buffers go back, and a last one disarms. */
  function AfterHandling(cfg: Config, s: System, c: Completion): (r: System)
    requires cfg.Valid() && Entries(s) > 0
    ensures Entries(r) == Entries(s)
  {
    var disarmed := s.(armed := s.armed && c.More());
    if c.Data? then
      disarmed.(v := RecycleRun(s.v, c.start, cfg.Buffers(c.len)), returned := s.returned + cfg.Buffers(c.len))
    else disarmed
  }

  /** Draining the first k posted completions, in order. */
  function AfterDispatch(cfg: Config, s: System, k: nat): (r: System)
    requires cfg.Valid() && Entries(s) > 0 && k <= |s.queue|
    ensures Entries(r) == Entries(s)
    decreases k
  {
    if k == 0 then s
    else AfterDispatch(cfg, AfterHandling(cfg, s.(queue := s.queue[1..]), s.queue[0]), k - 1)
  }

  ghost predicate Enabled(cfg: Config, s: System, a: Action)
    requires cfg.Valid() && Entries(s) > 0
  {
    match a
    case Post(c) => CanPost(cfg, s, c)
    case Dispatch(k) => k <= |s.queue|
    case Rearm => true
  }

  /** try_rearm_multishot submits only when not armed. */
  function After(cfg: Config, s: System, a: Action): (r: System)
    requires cfg.Valid() && Entries(s) > 0
    requires a.Dispatch? ==> a.k <= |s.queue|
    ensures Entries(r) == Entries(s)
  {
    match a
    case Post(c) => AfterPost(cfg, s, c)
    case Dispatch(k) => AfterDispatch(cfg, s, k)
    case Rearm => if s.armed then s else s.(armed := true, live := true)
  }

  // ---- the invariant ------------------------------------------------------------------

  /** The posted completions name, in order, exactly the buffers taken and not returned. */
  ghost predicate Owed(cfg: Config, queue: seq<Completion>, n: nat, returned: nat, taken: nat)
    requires cfg.Valid() && n > 0
    decreases |queue|
  {
    if queue == [] then returned == taken
    else if queue[0].Data? then
      queue[0].start == returned % n && Owed(cfg, queue[1..], n, returned + cfg.Buffers(queue[0].len), taken)
    else Owed(cfg, queue[1..], n, returned, taken)
  }

  /** Only the last posted completion may end the receive, and then it is not alive. */
  ghost predicate LastEnds(queue: seq<Completion>, live: bool) {
    forall i :: 0 <= i < |queue| && !queue[i].More() ==> i == |queue| - 1 && !live
  }

  ghost predicate Inv(cfg: Config, s: System)
    requires cfg.Valid()
    ensures Inv(cfg, s) ==> Entries(s) > 0
  {
    && Aligned(s.v, s.returned)
    && Entries(s) > 0
    && s.taken <= s.returned + Entries(s)
    && Owed(cfg, s.queue, Entries(s), s.returned, s.taken)
    && LastEnds(s.queue, s.live)
    && (s.armed <==> s.live || (s.queue != [] && !s.queue[|s.queue| - 1].More()))
  }

  lemma {:induction false} OwedGrows(cfg: Config, queue: seq<Completion>, n: nat, returned: nat, taken: nat,
                                     c: Completion)
    requires cfg.Valid() && n > 0 && Owed(cfg, queue, n, returned, taken)
    requires c.Data? ==> c.start == taken % n
    ensures Owed(cfg, queue + [c], n, returned, if c.Data? then taken + cfg.Buffers(c.len) else taken)
    decreases |queue|
  {
    var all := queue + [c];
    if queue == [] {
      assert all[1..] == [];
    } else {
      assert all[0] == queue[0] && all[1..] == queue[1..] + [c];
      OwedGrows(cfg, queue[1..], n, if queue[0].Data? then returned + cfg.Buffers(queue[0].len) else returned,
                taken, c);
    }
  }

  lemma {:induction false} OwedBounds(cfg: Config, queue: seq<Completion>, n: nat, returned: nat, taken: nat)
    requires cfg.Valid() && n > 0 && Owed(cfg, queue, n, returned, taken)
    ensures returned <= taken
    ensures queue != [] && queue[0].Data? ==> returned + cfg.Buffers(queue[0].len) <= taken
    decreases |queue|
  {
    if queue != [] {
      var c := queue[0];
      OwedBounds(cfg, queue[1..], n, if c.Data? then returned + cfg.Buffers(c.len) else returned, taken);
    }
  }

  lemma PostKeeps(cfg: Config, s: System, c: Completion)
    requires cfg.Valid() && Inv(cfg, s) && CanPost(cfg, s, c)
    ensures Inv(cfg, AfterPost(cfg, s, c))
  {
    hide Aligned;
    AlignedSlot(s.v, s.returned, s.taken);
    OwedGrows(cfg, s.queue, Entries(s), s.returned, s.taken, c);
    var r := AfterPost(cfg, s, c);
    assert r.queue[|r.queue| - 1] == c;
    assert forall i :: 0 <= i < |s.queue| ==> r.queue[i] == s.queue[i];
  }

  lemma AlignedSlot(v: RingView, returned: nat, x: nat)
    requires Aligned(v, returned) && |v.slots| > 0
    ensures v.slots[x % |v.slots|] == x % |v.slots|
  {
  }

  lemma HandlingKeeps(cfg: Config, s: System)
    requires cfg.Valid() && Inv(cfg, s) && s.queue != []
    ensures Inv(cfg, AfterHandling(cfg, s.(queue := s.queue[1..]), s.queue[0]))
  {
    hide Aligned, RecycleRun;
    var c, rest := s.queue[0], s.queue[1..];
    OwedBounds(cfg, s.queue, Entries(s), s.returned, s.taken);
    if c.Data? {
      RunKeepsAligned(s.v, s.returned, cfg.Buffers(c.len));
    }
    assert rest != [] ==> rest[|rest| - 1] == s.queue[|s.queue| - 1];
    assert forall i :: 0 <= i < |rest| ==> rest[i] == s.queue[i + 1];
  }

  lemma {:induction false} DispatchKeeps(cfg: Config, s: System, k: nat)
    requires cfg.Valid() && Inv(cfg, s) && k <= |s.queue|
    ensures Inv(cfg, AfterDispatch(cfg, s, k))
    ensures AfterDispatch(cfg, s, k).queue == s.queue[k..]
    ensures AfterDispatch(cfg, s, k).taken == s.taken
    decreases k
  {
    hide Inv, RecycleRun;
    if k > 0 {
      HandlingKeeps(cfg, s);
      DispatchKeeps(cfg, AfterHandling(cfg, s.(queue := s.queue[1..]), s.queue[0]), k - 1);
    }
  }

  lemma StepKeeps(cfg: Config, s: System, a: Action)
    requires cfg.Valid() && Inv(cfg, s) && Enabled(cfg, s, a)
    ensures Inv(cfg, After(cfg, s, a))
  {
    match a
    case Post(c) => PostKeeps(cfg, s, c);
    case Dispatch(k) => DispatchKeeps(cfg, s, k);
    case Rearm =>
  }

  // ---- every run ---------------------------------------------------------------------

  /** After on_connect_cqe: all buffers published, the receive submitted, nothing posted. */
  function Start(n: nat): (s: System)
    requires ValidEntries(n)
  {
    System(RingView(seq(n, i => i), n % TAIL_MODULUS), 0, 0, [], true, true)
  }

  /** A run: each action is allowed where it happens. */
  ghost predicate IsRun(cfg: Config, s: System, actions: seq<Action>)
    requires cfg.Valid() && Entries(s) > 0
    decreases |actions|
  {
    actions == [] || (Enabled(cfg, s, actions[0]) && IsRun(cfg, After(cfg, s, actions[0]), actions[1..]))
  }

  ghost function Reached(cfg: Config, s: System, actions: seq<Action>): (r: System)
    requires cfg.Valid() && Entries(s) > 0 && IsRun(cfg, s, actions)
    ensures Entries(r) == Entries(s)
    decreases |actions|
  {
    if actions == [] then s else Reached(cfg, After(cfg, s, actions[0]), actions[1..])
  }

  lemma {:induction false} RunKeeps(cfg: Config, s: System, actions: seq<Action>)
    requires cfg.Valid() && Inv(cfg, s) && IsRun(cfg, s, actions)
    ensures Inv(cfg, Reached(cfg, s, actions))
    decreases |actions|
  {
    hide Inv, After;
    if actions != [] {
      StepKeeps(cfg, s, actions[0]);
      RunKeeps(cfg, After(cfg, s, actions[0]), actions[1..]);
    }
  }

  lemma Reachable(cfg: Config, n: nat, actions: seq<Action>)
    requires cfg.Valid() && ValidEntries(n) && n > 0 && IsRun(cfg, Start(n), actions)
    ensures Inv(cfg, Reached(cfg, Start(n), actions))
  {
    RunKeeps(cfg, Start(n), actions);
  }

  /** In every reachable state every slot offers its own buffer, however often the tail has wrapped. */
  lemma SlotsStayPut(cfg: Config, n: nat, actions: seq<Action>, slot: nat)
    requires cfg.Valid() && ValidEntries(n) && n > 0 && IsRun(cfg, Start(n), actions) && slot < n
    ensures Reached(cfg, Start(n), actions).v.slots[slot] == slot
  {
    Reachable(cfg, n, actions);
  }

  /**
   Ownership: the positions between returned and taken are with the user, those between taken and
   returned + n are published, and no buffer is both.
   */
  lemma OwnersAreDisjoint(cfg: Config, n: nat, actions: seq<Action>, held: nat, published: nat)
    requires cfg.Valid() && ValidEntries(n) && n > 0 && IsRun(cfg, Start(n), actions)
    requires var s := Reached(cfg, Start(n), actions);
             s.returned <= held < s.taken <= published < s.returned + n
    ensures var s := Reached(cfg, Start(n), actions);
            s.v.slots[held % n] != s.v.slots[published % n]
  {
    Reachable(cfg, n, actions);
    DistinctInTurn(held, published, n);
  }

  /** The buffers of a bundle are consecutive ids, although the kernel only reports the first. */
  lemma BundleIsConsecutive(cfg: Config, n: nat, actions: seq<Action>, c: Completion, i: nat)
    requires cfg.Valid() && ValidEntries(n) && n > 0 && IsRun(cfg, Start(n), actions) && c.Data?
    requires CanPost(cfg, Reached(cfg, Start(n), actions), c) && i < cfg.Buffers(c.len)
    ensures FilledBy(Reached(cfg, Start(n), actions), i) == BidAt(c.start, i, n)
  {
    hide Aligned, CanPost;
    var s := Reached(cfg, Start(n), actions);
    Reachable(cfg, n, actions);
    AlignedSlot(s.v, s.returned, s.taken + i);
    AlignedSlot(s.v, s.returned, s.taken);
    AddInsideMod(s.taken, i, n);
    PostedStart(cfg, s, c);
  }

  lemma PostedStart(cfg: Config, s: System, c: Completion)
    requires cfg.Valid() && Entries(s) > 0 && CanPost(cfg, s, c) && c.Data?
    ensures c.start == s.v.slots[s.taken % Entries(s)]
  {
  }

  /** A receive is submitted only when none is outstanding, in any run. */
  lemma AtMostOneReceive(cfg: Config, n: nat, actions: seq<Action>)
    requires cfg.Valid() && ValidEntries(n) && n > 0 && IsRun(cfg, Start(n), actions)
    ensures var s := Reached(cfg, Start(n), actions);
            !s.armed ==> !s.live && forall c <- s.queue :: c.More()
  {
    Reachable(cfg, n, actions);
  }

  /** The buffers that posted completions name, in order. */
  function Named(cfg: Config, queue: seq<Completion>, n: nat): (bids: seq<nat>)
    requires cfg.Valid() && n > 0
  {
    if queue == [] then []
    else
      var c := queue[0];
      (if c.Data? then seq(cfg.Buffers(c.len), i requires 0 <= i < cfg.Buffers(c.len) => BidAt(c.start, i, n)) else [])
      + Named(cfg, queue[1..], n)
  }

  /** The ids at consecutive positions of the ring. */
  function Positions(from: nat, count: nat, n: nat): (bids: seq<nat>)
    requires n > 0
  {
    seq(count, i requires 0 <= i < count => (from + i) % n)
  }

  lemma {:induction false} OwedNames(cfg: Config, queue: seq<Completion>, n: nat, returned: nat, taken: nat)
    requires cfg.Valid() && n > 0 && Owed(cfg, queue, n, returned, taken)
    ensures returned <= taken && Named(cfg, queue, n) == Positions(returned, taken - returned, n)
    decreases |queue|
  {
    hide SliceCount, BidAt;
    if queue != [] {
      var c := queue[0];
      var count := if c.Data? then cfg.Buffers(c.len) else 0;
      OwedNames(cfg, queue[1..], n, returned + count, taken);
      if c.Data? {
        OneNamed(c.start, returned, count, n, taken - (returned + count));
      }
    }
  }

  lemma OneNamed(start: nat, returned: nat, count: nat, n: nat, later: nat)
    requires n > 0 && start == returned % n
    ensures Positions(returned, count + later, n) ==
            seq(count, i requires 0 <= i < count => BidAt(start, i, n)) + Positions(returned + count, later, n)
  {
    forall i: nat | i < count
      ensures BidAt(start, i, n) == (returned + i) % n
    {
      AddInsideMod(returned, i, n);
    }
  }

  /**
   Draining any k of the posted completions: the buffers still out are exactly those that the rest
   names, in order; all others are back in the ring; and a last completion has taken the flag down.
   */
  lemma DrainedBuffersAreBack(cfg: Config, n: nat, actions: seq<Action>, k: nat)
    requires cfg.Valid() && ValidEntries(n) && n > 0 && IsRun(cfg, Start(n), actions)
    requires k <= |Reached(cfg, Start(n), actions).queue|
    ensures var s := Reached(cfg, Start(n), actions);
            var d := AfterDispatch(cfg, s, k);
            && d.returned <= d.taken <= d.returned + n && d.taken == s.taken
            && Named(cfg, s.queue[k..], n) == Positions(d.returned, d.taken - d.returned, n)
            && (k > 0 && !s.queue[k - 1].More() ==> !d.armed)
  {
    hide Aligned, Owed, Named, Positions, RecycleRun;
    Reachable(cfg, n, actions);
    var s := Reached(cfg, Start(n), actions);
    DispatchKeeps(cfg, s, k);
    LastDisarms(cfg, s, k);
    var d := AfterDispatch(cfg, s, k);
    OwedNames(cfg, d.queue, n, d.returned, d.taken);
  }

  /** Once everything posted has been dispatched, every buffer is back before the next rearm. */
  lemma AllBuffersBackBeforeRearm(cfg: Config, n: nat, actions: seq<Action>)
    requires cfg.Valid() && ValidEntries(n) && n > 0 && IsRun(cfg, Start(n), actions)
    ensures var s := Reached(cfg, Start(n), actions);
            var drained := AfterDispatch(cfg, s, |s.queue|);
            drained.returned == drained.taken && (s.queue != [] && !s.queue[|s.queue| - 1].More() ==> !drained.armed)
  {
    Reachable(cfg, n, actions);
    var s := Reached(cfg, Start(n), actions);
    DispatchKeeps(cfg, s, |s.queue|);
    LastDisarms(cfg, s, |s.queue|);
  }

  lemma {:induction false} LastDisarms(cfg: Config, s: System, k: nat)
    requires cfg.Valid() && Entries(s) > 0 && k <= |s.queue|
    ensures k > 0 && !s.queue[k - 1].More() ==> !AfterDispatch(cfg, s, k).armed
    ensures !s.armed ==> !AfterDispatch(cfg, s, k).armed
    decreases k
  {
    hide RecycleRun;
    if k > 0 {
      LastDisarms(cfg, AfterHandling(cfg, s.(queue := s.queue[1..]), s.queue[0]), k - 1);
    }
  }

  /**
   The receive never stalls: in any run, once what was posted is drained and try_rearm_multishot has been called, a
   receive is outstanding, every buffer is published, and the kernel can post data of any length that fits.
   */
  lemma ReceiveGoesOn(cfg: Config, n: nat, actions: seq<Action>, len: nat, hasMore: bool)
    requires cfg.Valid() && ValidEntries(n) && n > 0 && IsRun(cfg, Start(n), actions)
    requires (cfg.mode.Multishot? ==> len <= cfg.bufSize) && cfg.Buffers(len) <= n
    ensures var s := Reached(cfg, Start(n), actions);
            var r := After(cfg, AfterDispatch(cfg, s, |s.queue|), Rearm);
            && r.armed && r.live && r.queue == [] && r.taken == r.returned
            && CanPost(cfg, r, Data(r.taken % n, len, hasMore))
  {
    hide Aligned, RecycleRun, SliceCount;
    Reachable(cfg, n, actions);
    var s := Reached(cfg, Start(n), actions);
    DispatchKeeps(cfg, s, |s.queue|);
    var d := AfterDispatch(cfg, s, |s.queue|);
    AlignedSlot(d.v, d.returned, d.taken);
  }
}
