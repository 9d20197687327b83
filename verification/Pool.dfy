/** The pool: src/pool.rs:288-534, 651-669, 1446-1594 and 1933-1993. */
module Pools {
  import opened Bytes
  import opened Decoder
  import opened States
  import opened Tokens
  import opened Connection
  import opened Grouping
  import opened Slots

  const BGID_MAX := 0xFFFF

  /** A connection whose TCP connect has just been submitted. */
  const FRESH: Conn :=
    Conn(false, false, Driver.Connecting, Ws(WsState.Connecting, Handshaking, []), false, [], [], [])

  /** Creating the socket and submitting the connect. */
  datatype ConnectOutcome = Submitted | SocketFailed | SubmitFailed

  datatype ConnectResult = Issued(handle: Handle) | OutOfIds | OutOfBgids | ConnectFailed

  /** How the two submissions before a wait end for one connection. */
  datatype SubmitOutcome = SubmitOutcome(sendOk: bool, rearmOk: bool)

  /** try_submit_send, then try_rearm_multishot. */
  function SubmitOps(conn: Conn, outcome: SubmitOutcome): (h: Handled) {
    if conn.driver in {Driver.Init, Driver.Connecting, Driver.Closed} then Handled(conn, true)
    else if !outcome.sendOk then Handled(conn, false)
    else if conn.armed || !conn.hasRing then Handled(conn, true)
    else if outcome.rearmOk then Handled(conn.(armed := true), true)
    else Handled(conn, false)
  }

  /** fail_conn only; success leaves the states alone. */
  function Submit(conn: Conn, outcome: SubmitOutcome): (r: Conn) {
    var h := SubmitOps(conn, outcome);
    if h.ok then h.conn else h.conn.(driver := Driver.Closed)
  }

  /** initiate_close; accepted says whether the close code and reason are acceptable. */
  function InitiateClose(conn: Conn, accepted: bool): (h: Handled) {
    if conn.driver.Closed? || conn.driver.Closing? then Handled(conn, true)
    else if conn.ws.state.Connecting? || (conn.ws.state.Open? && !accepted) then Handled(conn, false)
    else
      Handled(conn.(ws := conn.ws.(state := if conn.ws.state.Open? then WsState.Closing else conn.ws.state),
                    driver := if conn.driver.Open? then Driver.Closing else conn.driver), true)
  }

  lemma SubmitHealthy(conn: Conn, outcome: SubmitOutcome)
    requires Healthy(conn)
    ensures Healthy(Submit(conn, outcome))
  {
  }

  lemma CloseHealthy(conn: Conn, accepted: bool)
    requires Healthy(conn)
    ensures Healthy(InitiateClose(conn, accepted).conn)
  {
  }

  // ---- the order in which completions are handled --------------------------------------------

  /** How many completions at the front of the list can be handled together for a connection. */
  function Joiners(slot: Slot, token: nat, cs: seq<Cqe>): (n: nat)
    ensures n <= |cs|
  {
    if cs != [] && cs[0].token == token && CanBatch(slot.setup, slot.conn, cs[0])
    then 1 + Joiners(slot, token, cs[1..]) else 0
  }

  predicate Batched(slot: Slot, cs: seq<Cqe>, minGroup: nat)
    requires cs != []
  {
    Joiners(slot, cs[0].token, cs) >= minGroup
  }

  function GroupSize(slot: Slot, cs: seq<Cqe>, minGroup: nat): (n: nat)
    requires cs != [] && minGroup > 0
    ensures 0 < n <= |cs|
  {
    if Batched(slot, cs, minGroup) then Joiners(slot, cs[0].token, cs) else 1
  }

  /** The table afterwards, and how many connections came back from Closed and went there on the way. */
  datatype Walked = Walked(conns: Table, revived: nat, closed: nat)

  /**
   Handling a list of completions, group after group. A connection comes back when a completion is handled
   for one that is Closed while its client is open, as it is held at that moment.
   */
  function Walk(conns: Table, cs: seq<Cqe>, minGroup: nat): (w: Walked)
    requires minGroup > 0
    decreases |cs|
  {
    if cs == [] then Walked(conns, 0, 0)
    else
      var found := ConnFor(conns, cs[0].token);
      if found.None? || !conns[found.value].value.setup.Valid() then Walk(conns, cs[1..], minGroup)
      else
        var slot := conns[found.value].value;
        var n, batch := GroupSize(slot, cs, minGroup), Batched(slot, cs, minGroup);
        var r := Together(slot.setup, slot.conn, cs[..n], batch);
        var later := Walk(conns[found.value := Some(slot.(conn := r))], cs[n..], minGroup);
        Walked(later.conns,
               later.revived + (if !batch && Revives(slot.conn, cs[0]) then 1 else 0),
               later.closed + (if !slot.conn.driver.Closed? && r.driver.Closed? then 1 else 0))
  }

  /** For each connection, the completions that carry its token are what the kernel may post to it. */
  predicate Expected(conns: Table, cs: seq<Cqe>)
  {
    forall i :: 0 <= i < |conns| && conns[i].Some? && conns[i].value.setup.Valid() ==>
      var s := conns[i].value;
      Healthy(s.conn) && Posted(s.setup, s.conn, Own(s.identity.Token(), cs))
  }

  /** A slot after some completions: as if it had handled its own ones alone, one at a time. */
  ghost predicate Isolated(before: Option<Slot>, after: Option<Slot>, cs: seq<Cqe>)
  {
    && (before.Some? <==> after.Some?)
    && (before.Some? ==>
          var b, a := before.value, after.value;
          && a.identity == b.identity && a.setup == b.setup
          && (b.setup.Valid() ==>
                var own := Own(b.identity.Token(), cs);
                && Healthy(a.conn) && Alike(b.setup, a.conn, Fold(b.setup, b.conn, own))
                && (own == [] ==> a == b)
                && (!Stranded(b.conn) && (forall c <- own :: !HangsUp(c)) ==> !Stranded(a.conn))))
  }

  /** How often a list of completions brings back the connection in a slot. */
  function SlotRevivals(s: Option<Slot>, cs: seq<Cqe>): (n: nat) {
    if s.Some? && s.value.setup.Valid()
    then Revivals(s.value.setup, s.value.conn, Own(s.value.identity.Token(), cs)) else 0
  }

  function TableRevivals(conns: Table, cs: seq<Cqe>): (n: nat) {
    if conns == [] then 0
    else TableRevivals(conns[..|conns| - 1], cs) + SlotRevivals(conns[|conns| - 1], cs)
  }

  /** The revivals of every connection can be foretold from its own completions. */
  predicate AllCountable(conns: Table, cs: seq<Cqe>) {
    forall i :: 0 <= i < |conns| && conns[i].Some? ==>
      var s := conns[i].value;
      Countable(s.setup, s.conn, Own(s.identity.Token(), cs))
  }

  lemma {:induction false} RevivalsElsewhere(conns: Table, id: nat, cs: seq<Cqe>, cs': seq<Cqe>, d: nat)
    requires forall k: nat :: k < |conns| && k != id ==> SlotRevivals(conns[k], cs') == SlotRevivals(conns[k], cs)
    requires id < |conns| ==> SlotRevivals(conns[id], cs') == SlotRevivals(conns[id], cs) + d
    ensures TableRevivals(conns, cs') == TableRevivals(conns, cs) + if id < |conns| then d else 0
    decreases |conns|
  {
    hide SlotRevivals;
    if conns != [] {
      RevivalsElsewhere(conns[..|conns| - 1], id, cs, cs', d);
    }
  }

  /** If no connection is brought back by its own completions, none is. */
  lemma {:induction false} NobodyRevives(conns: Table, cs: seq<Cqe>)
    requires forall i :: 0 <= i < |conns| ==> SlotRevivals(conns[i], cs) == 0
    ensures TableRevivals(conns, cs) == 0
    decreases |conns|
  {
    hide SlotRevivals;
    if conns != [] {
      NobodyRevives(conns[..|conns| - 1], cs);
    }
  }

  ghost predicate AllIsolated(before: Table, after: Table, cs: seq<Cqe>)
  {
    |before| == |after| && forall i :: 0 <= i < |before| ==> Isolated(before[i], after[i], cs)
  }

  /** What has been done and what lies ahead make up the whole walk. */
  ghost predicate Ahead(
    before: Table, count: nat, reopened: nat, now: Table, countNow: nat, reopenedNow: nat,
    cs: seq<Cqe>, i: nat, minGroup: nat)
    requires i <= |cs| && minGroup > 0
  {
    var whole, rest := Walk(before, cs, minGroup), Walk(now, cs[i..], minGroup);
    && whole.conns == rest.conns
    && reopened + whole.revived == reopenedNow + rest.revived
    && whole.closed >= rest.closed && countNow == Lower(count, whole.closed - rest.closed)
  }

  lemma WalkNowhere(conns: Table, minGroup: nat)
    requires minGroup > 0
    ensures Walk(conns, [], minGroup) == Walked(conns, 0, 0)
  {
  }

  class Pool {
    var conns: Table
    var generations: seq<nat>
    var freeConnIds: seq<nat>
    var freeBgids: seq<nat>
    var activeCount: nat
    var nextConnId: nat
    var nextBgid: nat
    ghost var ids: seq<IdState>
    ghost var bgids: seq<BgidState>
    ghost var issued: seq<Handle>
    ghost var retired: set<Handle>
    ghost var reopened: nat
    /** Groups that the kernel still has a ring for although no connection does. */
    ghost var stuck: set<nat>

    ghost predicate Valid()
      reads this
      ensures Valid() ==> |generations| == |ids| == |conns| == nextConnId <= ID_SPACE && |bgids| == nextBgid
      ensures Valid() ==> SlotsOk(conns, generations)
    {
      && TablesOk(conns, generations, freeConnIds, ids, freeBgids, bgids, issued, retired, activeCount, reopened)
      && nextConnId == |ids| && nextBgid == |bgids|
    }

    ghost predicate Reserving(id: Option<nat>, bgid: Option<nat>)
      reads this`ids, this`bgids
    {
      OnlyReserved(ids, bgids, id, bgid)
    }

    ghost predicate SafeReuse()
      reads this`stuck, this`bgids
    {
      NeverReused(stuck, bgids)
    }

    constructor ()
      ensures Valid() && Reserving(None, None) && SafeReuse()
      ensures conns == [] && issued == [] && retired == {} && reopened == 0 && stuck == {}
      ensures freeConnIds == [] && freeBgids == [] && nextConnId == 0 && nextBgid == 0
    {
      conns, generations, freeConnIds, freeBgids, activeCount, nextConnId, nextBgid := [], [], [], [], 0, 0, 0;
      ids, bgids, issued, retired, reopened, stuck := [], [], [], {}, 0, {};
    }

    /** reserve_conn_id. */
    method ReserveConnId() returns (r: Option<nat>)
      requires Valid()
      modifies this`conns, this`generations, this`freeConnIds, this`nextConnId, this`ids
      ensures Valid()
      ensures r.None? <==> old(freeConnIds) == [] && old(nextConnId) == 0x1000_0000
      ensures r.None? ==> conns == old(conns) && ids == old(ids)
      ensures r.Some? ==> r.value < |ids| && ids[r.value].Reserved?
      ensures r.Some? && r.value < |old(ids)| ==>
                conns == old(conns) && old(ids)[r.value].Vacant? && ids == old(ids)[r.value := Reserved]
      ensures r.Some? && r.value >= |old(ids)| ==> conns == old(conns) + [None] && ids == old(ids) + [Reserved]
    {
      hide SlotsOk, IdsOk, BgidsOk, HandlesOk, CountOk;
      if |freeConnIds| > 0 {
        var id := freeConnIds[|freeConnIds| - 1];
        TakeFreeId(conns, generations, freeConnIds, ids);
        KeepHandles(conns, generations, ids, issued, retired, conns, generations, ids[id := Reserved]);
        freeConnIds, ids := freeConnIds[..|freeConnIds| - 1], ids[id := Reserved];
        return Some(id);
      }
      var id := nextConnId;
      if id > CONN_ID_MASK {
        return None;
      }
      FreshId(conns, generations, freeConnIds, ids);
      GrowBgids(conns, freeBgids, bgids);
      SlotsGrow(conns, generations);
      CountGrows(conns, activeCount, reopened);
      KeepHandles(conns, generations, ids, issued, retired, conns + [None], generations + [0], ids + [Reserved]);
      nextConnId := id + 1;
      conns, generations, ids := conns + [None], generations + [0], ids + [Reserved];
      r := Some(id);
    }

    /** reserve_bgid: the last id, 65535, is never given out. */
    method ReserveBgid() returns (r: Option<nat>)
      requires Valid()
      modifies this`freeBgids, this`nextBgid, this`bgids
      ensures Valid()
      ensures r.None? <==> old(freeBgids) == [] && old(nextBgid) == 0xFFFF
      ensures r.None? ==> bgids == old(bgids) && freeBgids == old(freeBgids)
      ensures r.Some? ==> r.value < 0xFFFF && r.value < |bgids| && bgids[r.value].ReservedBgid?
      ensures r.Some? && r.value < |old(bgids)| ==>
                old(bgids)[r.value].VacantBgid? && bgids == old(bgids)[r.value := ReservedBgid]
      ensures r.Some? && r.value >= |old(bgids)| ==> bgids == old(bgids) + [ReservedBgid]
    {
      hide SlotsOk, IdsOk, HandlesOk, CountOk;
      if |freeBgids| > 0 {
        var b := freeBgids[|freeBgids| - 1];
        TakeFreeBgid(conns, freeBgids, bgids);
        freeBgids, bgids := freeBgids[..|freeBgids| - 1], bgids[b := ReservedBgid];
        return Some(b);
      }
      var b := nextBgid;
      if b + 1 > BGID_MAX {
        return None;
      }
      FreshBgid(conns, freeBgids, bgids);
      nextBgid, bgids := b + 1, bgids + [ReservedBgid];
      r := Some(b);
    }

    /** release_bgid, for one that was only reserved. */
    method ReleaseBgid(b: nat)
      requires Valid() && b < |bgids| && bgids[b].ReservedBgid?
      modifies this`freeBgids, this`bgids
      ensures Valid() && bgids == old(bgids)[b := VacantBgid]
    {
      hide SlotsOk, IdsOk, BgidsOk, HandlesOk, CountOk;
      GiveBgidBack(conns, freeBgids, bgids, b);
      freeBgids, bgids := freeBgids + [b], bgids[b := VacantBgid];
    }

    /** reserve_runtime_identity: a group first, then a slot; without a slot the group goes back. */
    method ReserveIdentity() returns (r: Option<Identity>, outOfBgids: bool)
      requires Valid() && Reserving(None, None)
      modifies this`conns, this`generations, this`freeConnIds, this`freeBgids, this`nextConnId, this`nextBgid
      modifies this`ids, this`bgids
      ensures Valid() && (old(SafeReuse()) ==> SafeReuse()) && SameLost(old(bgids), bgids)
      ensures conns == old(conns) || conns == old(conns) + [None]
      ensures r.None? ==> Reserving(None, None)
      ensures r.None? <==> (|| (old(freeBgids) == [] && old(nextBgid) == 0xFFFF)
                            || (old(freeConnIds) == [] && old(nextConnId) == 0x1000_0000))
      ensures outOfBgids <==> old(freeBgids) == [] && old(nextBgid) == 0xFFFF
      ensures r.Some? ==>
                && Reserving(Some(r.value.connId), Some(r.value.bgid))
                && r.value.generation == generations[r.value.connId] && conns[r.value.connId].None?
                && Free(old(bgids), r.value.bgid)
    {
      hide SlotsOk, BgidsOk, HandlesOk, CountOk, Valid;
      var bgid := ReserveBgid();
      if bgid.None? {
        return None, true;
      }
      var id := ReserveConnId();
      if id.None? {
        ReleaseBgid(bgid.value);
        return None, false;
      }
      ReservedIsVacant(id.value);
      r, outOfBgids := Some(Identity(id.value, generations[id.value], bgid.value)), false;
    }

    lemma ReservedIsVacant(id: nat)
      requires Valid() && id < |ids| && ids[id].Reserved?
      ensures conns[id].None?
    {
    }

    /** release_reserved_identity. */
    method ReleaseIdentity(identity: Identity)
      requires Valid() && Reserving(Some(identity.connId), Some(identity.bgid))
      modifies this`freeConnIds, this`freeBgids, this`ids, this`bgids
      ensures Valid() && Reserving(None, None) && (old(SafeReuse()) ==> SafeReuse()) && SameLost(old(bgids), bgids)
    {
      hide SlotsOk, IdsOk, BgidsOk, HandlesOk, CountOk;
      var id := identity.connId;
      GiveIdBack(conns, generations, freeConnIds, ids, id);
      KeepHandles(conns, generations, ids, issued, retired, conns, generations, ids[id := Vacant]);
      freeConnIds, ids := freeConnIds + [id], ids[id := Vacant];
      ReleaseBgid(identity.bgid);
    }

    /** submit_connect_to: a handle never issued before, or nothing changes for anyone. */
    method SubmitConnect(setup: Setup, outcome: ConnectOutcome) returns (r: ConnectResult)
      requires Valid() && Reserving(None, None) && setup.Valid()
      modifies this
      ensures Valid() && Reserving(None, None) && (old(SafeReuse()) ==> SafeReuse())
      ensures retired == old(retired) && reopened == old(reopened)
      ensures stuck == old(stuck) && SameLost(old(bgids), bgids)
      ensures r.Issued? ==>
                && r.handle !in old(issued) && issued == old(issued) + [r.handle]
                && At(conns, r.handle).Some? && Free(old(bgids), At(conns, r.handle).value.identity.bgid)
                && At(conns, r.handle).value.conn == FRESH && At(conns, r.handle).value.setup == setup
                && FRESH.driver.Connecting? && FRESH.ws == Ws(WsState.Connecting, Handshaking, [])
                && !FRESH.hasRing && !FRESH.armed && !FRESH.leaked
      ensures !r.Issued? ==> issued == old(issued)
      ensures r.OutOfBgids? <==> old(freeBgids) == [] && old(nextBgid) == 0xFFFF
      ensures r.OutOfIds? <==> !r.OutOfBgids? && old(freeConnIds) == [] && old(nextConnId) == 0x1000_0000
      ensures r.ConnectFailed? <==> !r.OutOfBgids? && !r.OutOfIds? && !outcome.Submitted?
      ensures forall h :: r != Issued(h) ==> At(conns, h) == At(old(conns), h)
    {
      hide SlotsOk, IdsOk, BgidsOk, HandlesOk, CountOk, Valid, At;
      var identity, outOfBgids := ReserveIdentity();
      AtGrown(old(conns), conns);
      if identity.None? {
        return if outOfBgids then OutOfBgids else OutOfIds;
      }
      if !outcome.Submitted? {
        ReleaseIdentity(identity.value);
        return ConnectFailed;
      }
      r := Occupy(identity.value, setup);
    }

    /** The reserved slot takes its connection. */
    method Occupy(identity: Identity, setup: Setup) returns (r: ConnectResult)
      requires Valid() && Reserving(Some(identity.connId), Some(identity.bgid)) && setup.Valid()
      requires identity.generation == generations[identity.connId] && conns[identity.connId].None?
      modifies this`conns, this`activeCount, this`ids, this`bgids, this`issued
      ensures Valid() && Reserving(None, None) && (old(SafeReuse()) ==> SafeReuse()) && SameLost(old(bgids), bgids)
      ensures r == Issued(Handle(identity.connId, identity.generation))
      ensures r.handle !in old(issued) && issued == old(issued) + [r.handle]
      ensures At(conns, r.handle) == Some(Slot(identity, setup, FRESH))
      ensures forall h :: h != r.handle ==> At(conns, h) == At(old(conns), h)
    {
      hide SlotsOk, IdsOk, BgidsOk, HandlesOk, CountOk;
      var id, bgid := identity.connId, identity.bgid;
      var slot := Slot(identity, setup, FRESH);
      OccupyId(conns, generations, freeConnIds, ids, id, slot);
      HoldBgid(conns, freeBgids, bgids, id, slot);
      SlotsChange(conns, generations, id, slot);
      IssueHandle(conns, generations, ids, issued, retired, id, slot);
      CountStarts(conns, id, slot, activeCount, reopened);
      conns, ids, bgids := conns[id := Some(slot)], ids[id := Occupied], bgids[bgid := Held(id)];
      activeCount := activeCount + 1;
      issued := issued + [Handle(id, identity.generation)];
      r := Issued(Handle(id, identity.generation));
    }

    /**
     What becomes of the group of a connection that is taken out: it is lost exactly when its ring could not
     be unregistered, and the kernel keeps a ring exactly then or when one was left behind on connect.
     */
    twostate predicate GroupLeft(dead: Slot, unregisterOk: bool)
      reads this
    {
      var b, kept := dead.identity.bgid, dead.conn.hasRing && !unregisterOk;
      && b < |old(bgids)| && bgids == old(bgids)[b := if kept then Lost else VacantBgid]
      && stuck == (if kept || dead.conn.leaked then old(stuck) + {b} else old(stuck))
    }

    /** retire_slot: the group goes back unless a ring stays registered under it. */
    method RetireSlot(id: nat, expected: Option<nat>, unregisterOk: bool) returns (ok: bool)
      requires Valid() && Reserving(None, None)
      modifies this
      ensures Valid() && Reserving(None, None) && issued == old(issued) && reopened == old(reopened)
      ensures ok <==> (&& Holds(old(conns), id)
                       && (expected.Some? ==> expected.value == old(conns)[id].value.identity.generation))
      ensures !ok ==> unchanged(this)
      ensures ok ==> retired == old(retired) + {Handle(id, old(conns)[id].value.identity.generation)}
      ensures ok ==> conns == old(conns)[id := None] && GroupLeft(old(conns)[id].value, unregisterOk)
      ensures ok && old(SafeReuse()) ==> (SafeReuse() <==> !old(conns)[id].value.conn.leaked)
    {
      hide Valid, Healthy, OnlyReserved, NeverReused;
      if id >= |conns| || conns[id].None? {
        return false;
      }
      var dead := conns[id].value;
      if expected.Some? && expected.value != dead.identity.generation {
        return false;
      }
      HeldFacts(id);
      var bgid := dead.identity.bgid;
      var recycleBgid := !dead.conn.hasRing || unregisterOk;
      Leave(id, dead, recycleBgid);
      ok := true;
    }

    /** The rest of retire_slot: the slot, the count and the group. */
    method Leave(id: nat, dead: Slot, recycleBgid: bool)
      requires Valid() && Reserving(None, None) && Holds(conns, id) && conns[id].value == dead
      requires recycleBgid || dead.conn.hasRing
      modifies this`conns, this`generations, this`freeConnIds, this`freeBgids, this`activeCount
      modifies this`ids, this`bgids, this`retired, this`stuck
      ensures Valid() && Reserving(None, None)
      ensures retired == old(retired) + {Handle(id, dead.identity.generation)} && conns == old(conns)[id := None]
      ensures old(SafeReuse()) ==> (SafeReuse() <==> !dead.conn.leaked)
      ensures dead.identity.bgid < |old(bgids)|
      ensures bgids == old(bgids)[dead.identity.bgid := if recycleBgid then VacantBgid else Lost]
      ensures stuck == if dead.conn.leaked || !recycleBgid then old(stuck) + {dead.identity.bgid} else old(stuck)
    {
      hide SlotsOk, IdsOk, BgidsOk, HandlesOk, CountOk, Healthy, OnlyReserved, NeverReused, LessOne;
      HeldFacts(id);
      CountUpdates(conns, id, None, activeCount, reopened);
      assert conns[id := None][id := Some(dead)] == conns;
      conns := conns[id := None];
      if dead.Active() {
        activeCount := LessOne(activeCount);
      }
      RecycleConnSlot(id, dead);
      LeaveGroup(id, dead, recycleBgid);
      NothingReserved(old(ids), old(bgids), id, ids[id], dead.identity.bgid, bgids[dead.identity.bgid]);
    }

    /**
     recycle_conn_slot: the slot whose connection has just been taken out is free for its next generation,
     or never used again when generations have run out; either way the old handle is spent for ever.
     */
    method RecycleConnSlot(id: nat, ghost dead: Slot)
      requires id < |conns| == |generations| == |ids| && conns[id].None?
      requires SlotsOk(conns[id := Some(dead)], generations)
      requires IdsOk(conns[id := Some(dead)], generations, freeConnIds, ids)
      requires HandlesOk(conns[id := Some(dead)], generations, ids, issued, retired)
      modifies this`generations, this`freeConnIds, this`ids, this`retired
      ensures |generations| == |ids| == |old(ids)|
      ensures SlotsOk(conns, generations) && IdsOk(conns, generations, freeConnIds, ids)
      ensures HandlesOk(conns, generations, ids, issued, retired)
      ensures retired == old(retired) + {Handle(id, dead.identity.generation)}
      ensures ids == old(ids)[id := if old(generations)[id] == 0x0FFF_FFFF then Exhausted else Vacant]
    {
      hide SlotsOk, IdsOk, HandlesOk;
      ghost var full := conns[id := Some(dead)];
      assert full[id := None] == conns;
      SlotFacts(full, generations, freeConnIds, ids, id);
      SlotsLeave(full, generations, id);
      VacateId(full, generations, freeConnIds, ids, id);
      retired := retired + {Handle(id, dead.identity.generation)};
      if generations[id] >= CONN_GENERATION_MASK {
        RetireHandle(full, generations, ids, issued, old(retired), id, generations, ids[id := Exhausted]);
        ids := ids[id := Exhausted];
        return;
      }
      RetireHandle(full, generations, ids, issued, old(retired), id,
                   generations[id := generations[id] + 1], ids[id := Vacant]);
      ids := ids[id := Vacant];
      generations := generations[id := generations[id] + 1];
      freeConnIds := freeConnIds + [id];
    }

    /** The group goes back to the free list, or is lost with the ring that stays registered. */
    method LeaveGroup(id: nat, dead: Slot, recycleBgid: bool)
      requires id < |conns| && conns[id].None? && BgidsOk(conns[id := Some(dead)], freeBgids, bgids)
      requires recycleBgid || dead.conn.hasRing
      requires dead.conn.leaked ==> !dead.conn.hasRing
      modifies this`freeBgids, this`bgids, this`stuck
      ensures BgidsOk(conns, freeBgids, bgids) && dead.identity.bgid < |old(bgids)|
      ensures bgids == old(bgids)[dead.identity.bgid := if recycleBgid then VacantBgid else Lost]
      ensures stuck == if dead.conn.leaked || !recycleBgid then old(stuck) + {dead.identity.bgid} else old(stuck)
      ensures old(NeverReused(stuck, bgids)) ==> (NeverReused(stuck, bgids) <==> !dead.conn.leaked)
    {
      hide BgidsOk, NeverReused;
      ghost var full := conns[id := Some(dead)];
      assert full[id := None] == conns;
      var bgid := dead.identity.bgid;
      HeldGroup(full, freeBgids, bgids, id);
      DropBgid(full, freeBgids, bgids, id);
      if NeverReused(stuck, bgids) {
        ReuseAfterLeaving(stuck, bgids, bgid, dead.conn.leaked, recycleBgid);
      }
      stuck := if dead.conn.leaked || !recycleBgid then stuck + {bgid} else stuck;
      bgids := bgids[bgid := if recycleBgid then VacantBgid else Lost];
      if recycleBgid {
        freeBgids := freeBgids + [bgid];
      }
    }

    lemma HeldFacts(id: nat)
      requires Valid() && Holds(conns, id)
      ensures var s := conns[id].value;
              && s.identity.connId == id && s.identity.generation == generations[id] <= 0x0FFF_FFFF
              && s.identity.bgid < |bgids| && bgids[s.identity.bgid].Held? && ids[id].Occupied?
              && (s.conn.leaked ==> !s.conn.hasRing) && s.setup.Valid() && Healthy(s.conn)
    {
    }

    /** remove_conn. */
    method RemoveConn(h: Handle, unregisterOk: bool) returns (ok: bool)
      requires Valid() && Reserving(None, None)
      modifies this
      ensures Valid() && Reserving(None, None) && issued == old(issued) && reopened == old(reopened)
      ensures ok <==> At(old(conns), h).Some?
      ensures !ok ==> unchanged(this)
      ensures ok ==> retired == old(retired) + {h}
      ensures ok ==> GroupLeft(At(old(conns), h).value, unregisterOk)
      ensures forall g :: g != h ==> At(conns, g) == At(old(conns), g)
      ensures At(conns, h).None?
      ensures old(SafeReuse()) ==>
                (SafeReuse() <==> (ok ==> !At(old(conns), h).value.conn.leaked))
    {
      hide SlotsOk, IdsOk, BgidsOk, HandlesOk, CountOk, Healthy;
      ok := RetireSlot(h.connId, Some(h.generation), unregisterOk);
    }

    /** submit_reconnect_to: the old handle is gone even when the new connect fails. */
    method SubmitReconnect(h: Handle, setup: Setup, unregisterOk: bool, outcome: ConnectOutcome)
      returns (ok: bool, r: ConnectResult)
      requires Valid() && Reserving(None, None) && setup.Valid()
      modifies this
      ensures Valid() && Reserving(None, None) && reopened == old(reopened)
      ensures ok <==> At(old(conns), h).Some?
      ensures !ok ==> unchanged(this)
      ensures ok ==> At(conns, h).None? && retired == old(retired) + {h}
      ensures ok && r.Issued? ==> r.handle !in old(issued) && issued == old(issued) + [r.handle]
      ensures ok && r.Issued? ==> At(conns, r.handle).Some? && At(conns, r.handle).value.conn == FRESH
      ensures ok ==>
                var dead := At(old(conns), h).value;
                var b, kept := dead.identity.bgid, dead.conn.hasRing && !unregisterOk;
                && b < |old(bgids)| && SameLost(old(bgids)[b := if kept then Lost else VacantBgid], bgids)
                && stuck == (if kept || dead.conn.leaked then old(stuck) + {b} else old(stuck))
                && (r.Issued? ==>
                      Free(old(bgids)[b := if kept then Lost else VacantBgid], At(conns, r.handle).value.identity.bgid))
      ensures !ok || !r.Issued? ==> issued == old(issued)
      ensures forall g :: g != h && (ok ==> r != Issued(g)) ==> At(conns, g) == At(old(conns), g)
      ensures old(SafeReuse()) && (ok ==> !At(old(conns), h).value.conn.leaked) ==> SafeReuse()
    {
      hide SlotsOk, IdsOk, BgidsOk, HandlesOk, CountOk, Healthy, Valid, At;
      r := ConnectFailed;
      ok := RemoveConn(h, unregisterOk);
      if ok {
        WasIssued(h);
        r := SubmitConnect(setup, outcome);
      }
    }

    lemma WasIssued(h: Handle)
      requires Valid() && h in retired
      ensures h in issued
    {
    }

    /** A removed handle stands for nothing in any later state, and its completions reach nobody. */
    lemma RetiredForEver(h: Handle)
      requires Valid() && h in retired
      ensures At(conns, h).None? && ConnFor(conns, h.Token()).None?
    {
      hide Healthy, SlotsOk, IdsOk, BgidsOk, CountOk;
      SpentIsGone(conns, generations, freeConnIds, ids, h);
      LateCompletionIsDropped(conns, generations, freeConnIds, ids, h);
    }

    /** Every issued handle either stands for a connection or has been removed. */
    lemma HandlesAreLiveOrRetired(h: Handle)
      requires Valid()
      ensures h in issued <==> (h in retired || At(conns, h).Some?)
      ensures !(h in retired && At(conns, h).Some?)
    {
      hide Healthy, BgidsOk, CountOk;
      if h in retired {
        SpentIsGone(conns, generations, freeConnIds, ids, h);
      }
    }

    /** Every slot id is occupied, free or worn out, and only one of these; the free list has no duplicates. */
    lemma IdsSplit(i: nat)
      requires Valid() && Reserving(None, None) && i < nextConnId
      ensures NoDuplicates(freeConnIds)
      ensures (conns[i].Some? && i !in freeConnIds && !ids[i].Exhausted?)
           || (conns[i].None? && i in freeConnIds && !ids[i].Exhausted?)
           || (conns[i].None? && i !in freeConnIds && ids[i].Exhausted? && generations[i] == 0x0FFF_FFFF)
    {
      hide SlotsOk, BgidsOk, HandlesOk, CountOk;
    }

    /** Every group id below the next fresh one is held by one slot, free or lost, and only one of these. */
    lemma BgidsSplit(b: nat)
      requires Valid() && Reserving(None, None) && b < nextBgid
      ensures NoDuplicates(freeBgids) && nextBgid <= 0xFFFF
      ensures forall i: nat, j: nat :: HasGroup(conns, i, b) && HasGroup(conns, j, b) ==> i == j
      ensures ((exists i: nat :: HasGroup(conns, i, b)) && b !in freeBgids && !bgids[b].Lost?)
           || ((forall i: nat :: !HasGroup(conns, i, b)) && b in freeBgids && !bgids[b].Lost?)
           || ((forall i: nat :: !HasGroup(conns, i, b)) && b !in freeBgids && bgids[b].Lost?)
    {
      hide SlotsOk, IdsOk, HandlesOk, CountOk;
      if bgids[b].Held? {
        assert HasGroup(conns, bgids[b].slot, b);
      }
    }

    // ---- completions ---------------------------------------------------------------------

    /** finish_conn_result, with its accounting. */
    method FinishConn(id: nat, h: Handled, wasActive: bool)
      requires Valid() && Holds(conns, id) && wasActive == !conns[id].value.conn.driver.Closed?
      requires !wasActive && !h.ok ==> h.conn.driver.Closed?
      requires Healthy(Finish(h))
      modifies this`conns, this`activeCount, this`reopened
      ensures Valid() && conns == old(conns)[id := Some(old(conns)[id].value.(conn := Finish(h)))]
      ensures reopened == if !wasActive && !Finish(h).driver.Closed? then old(reopened) + 1 else old(reopened)
      ensures activeCount ==
              if wasActive && Finish(h).driver.Closed? then LessOne(old(activeCount)) else old(activeCount)
    {
      hide SlotsOk, IdsOk, BgidsOk, HandlesOk, CountOk, Healthy, Sync;
      var slot := conns[id].value;
      ghost var after := Some(slot.(conn := Finish(h)));
      HeldFacts(id);
      CountUpdates(conns, id, after, activeCount, reopened);
      SlotsChange(conns, generations, id, after.value);
      ShapeIsEnough(conns, conns[id := after], generations, freeConnIds, ids, freeBgids, bgids, issued, retired);
      if !wasActive && !Finish(h).driver.Closed? {
        reopened := reopened + 1;
      }
      if h.ok {
        var synced := Sync(h.conn);
        conns := conns[id := Some(slot.(conn := synced))];
        if wasActive && synced.driver.Closed? {
          activeCount := LessOne(activeCount);
        }
      } else {
        var failedActive := !h.conn.driver.Closed?;
        conns := conns[id := Some(slot.(conn := h.conn.(driver := Driver.Closed)))];
        if wasActive || failedActive {
          activeCount := LessOne(activeCount);
        }
      }
    }

    /**
     dispatch_conn_completions_data (groups of two or more) and the batch variant (groups of any size).
     Whatever the order and the other connections do, each connection ends as if its own completions
     alone had been handled one by one. The count goes down with every connection that closes on the way and
     never up, so that every revival makes it fall short.
     */
    method Dispatch(cs: seq<Cqe>, minGroup: nat)
      requires Valid() && minGroup in {1, 2} && Expected(conns, cs)
      modifies this`conns, this`activeCount, this`reopened
      ensures Valid() && AllIsolated(old(conns), conns, cs)
      ensures var w := Walk(old(conns), cs, minGroup);
              && conns == w.conns && reopened == old(reopened) + w.revived
              && activeCount == Lower(old(activeCount), w.closed)
      ensures AllCountable(old(conns), cs) ==> Walk(old(conns), cs, minGroup).revived == TableRevivals(old(conns), cs)
    {
      hide SlotsOk, IdsOk, BgidsOk, HandlesOk, CountOk, Valid, AllIsolated, Expected, Finish, HandleOne, HandleBatch,
        Groupable, Together, CanBatch, TokenConnId, ConnFor, AllCountable, TableRevivals, Walk, Joiners, Revives;
      NothingHandled();
      WalkNowhere(conns, minGroup);
      assert cs[0..] == cs;
      var i := 0;
      while i < |cs|
        invariant i <= |cs| && Valid() && AllIsolated(old(conns), conns, cs[..i])
        invariant AllCountable(old(conns), cs) ==> reopened == old(reopened) + TableRevivals(old(conns), cs[..i])
        invariant Ahead(old(conns), old(activeCount), old(reopened), conns, activeCount, reopened, cs, i, minGroup)
      {
        var c := cs[i];
        assert cs[i..][0] == c && cs[i..][1..] == cs[i + 1..];
        var found := ConnFor(conns, c.token);
        if found.None? {
          SkipUnknown(old(conns), cs, i);
          WalkPast(conns, cs[i..], minGroup);
          i := i + 1;
          continue;
        }
        var id := found.value;
        FoundHolds(c.token);
        var slot := conns[id].value;
        var end, batch := GroupEnd(cs, i, slot, minGroup);
        var group := cs[i..end];
        GroupStep(old(conns), cs, i, end, id, batch);
        CountStep(old(conns), cs, i, end, id, batch);
        HandledTogether(slot.setup, slot.conn, group, batch);
        var h :=
          if batch then HandleBatch(slot.setup, slot.conn, group)
          else HandleOne(slot.setup, slot.conn, group[0]);
        assert cs[i..][..end - i] == group && cs[i..][end - i..] == cs[end..];
        WalkOn(conns, cs[i..], minGroup, id);
        FinishConn(id, h, slot.Active());
        i := end;
      }
      assert cs[..|cs|] == cs && cs[|cs|..] == [];
      WalkNowhere(conns, minGroup);
    }

    lemma WalkPast(conns: Table, cs: seq<Cqe>, minGroup: nat)
      requires cs != [] && minGroup > 0 && ConnFor(conns, cs[0].token).None?
      ensures Walk(conns, cs, minGroup) == Walk(conns, cs[1..], minGroup)
    {
      hide ConnFor, Together, Revives;
    }

    lemma WalkOn(conns: Table, cs: seq<Cqe>, minGroup: nat, id: nat)
      requires cs != [] && minGroup > 0 && ConnFor(conns, cs[0].token) == Some(id) && Holds(conns, id)
      requires conns[id].value.setup.Valid()
      ensures var slot := conns[id].value;
              var n, batch := GroupSize(slot, cs, minGroup), Batched(slot, cs, minGroup);
              var r := Together(slot.setup, slot.conn, cs[..n], batch);
              var w, later := Walk(conns, cs, minGroup), Walk(conns[id := Some(slot.(conn := r))], cs[n..], minGroup);
              && w.conns == later.conns
              && w.revived == later.revived + (if !batch && Revives(slot.conn, cs[0]) then 1 else 0)
              && w.closed == later.closed + (if !slot.conn.driver.Closed? && r.driver.Closed? then 1 else 0)
    {
      hide ConnFor, Together, Revives, Joiners;
    }

    /** How far the completions for one connection can be handled together. */
    method GroupEnd(cs: seq<Cqe>, i: nat, slot: Slot, minGroup: nat) returns (end: nat, batch: bool)
      requires i < |cs| && minGroup in {1, 2}
      ensures i < end <= |cs| && Groupable(slot.setup, slot.conn, cs[i..end], batch)
      ensures forall c <- cs[i..end] :: c.token == cs[i].token
      ensures end - i == GroupSize(slot, cs[i..], minGroup) && batch == Batched(slot, cs[i..], minGroup)
    {
      hide CanBatch;
      end, batch := i + 1, false;
      assert cs[i..][0] == cs[i] && cs[i..][1..] == cs[i + 1..];
      if CanBatch(slot.setup, slot.conn, cs[i]) {
        while end < |cs| && cs[end].token == cs[i].token && CanBatch(slot.setup, slot.conn, cs[end])
          invariant i < end <= |cs|
          invariant forall k :: i <= k < end ==> cs[k].token == cs[i].token && CanBatch(slot.setup, slot.conn, cs[k])
          invariant Joiners(slot, cs[i].token, cs[i..]) == (end - i) + Joiners(slot, cs[i].token, cs[end..])
        {
          assert cs[end..][0] == cs[end] && cs[end..][1..] == cs[end + 1..];
          end := end + 1;
        }
        assert end < |cs| ==> cs[end..][0] == cs[end];
        batch := end - i >= minGroup;
      }
    }

    /** submit_conn_ops: each connection submits for itself; a failure closes and uncounts only that one. */
    method SubmitConnOps(outcome: nat -> SubmitOutcome)
      requires Valid()
      modifies this`conns, this`activeCount
      ensures Valid() && SameShape(old(conns), conns)
      ensures forall i :: 0 <= i < |conns| && conns[i].Some? ==>
                conns[i].value.conn == Submit(old(conns)[i].value.conn, outcome(i))
      ensures activeCount == Lower(old(activeCount), Closures(old(conns), conns))
    {
      hide TablesOk, SlotsOk, Submit, Healthy, Closures, Weight;
      NoClosures(conns);
      for i := 0 to |conns|
        invariant Valid() && SameShape(old(conns), conns)
        invariant forall k :: i <= k < |conns| ==> conns[k] == old(conns)[k]
        invariant forall k :: 0 <= k < i && conns[k].Some? ==>
                    conns[k].value.conn == Submit(old(conns)[k].value.conn, outcome(k))
        invariant activeCount == Lower(old(activeCount), Closures(old(conns)[..i], conns[..i]))
      {
        ghost var done := conns[..i];
        if conns[i].Some? {
          SubmitOne(i, outcome(i));
        }
        assert conns[..i] == done;
        ClosuresStep(old(conns), conns, i);
      }
      assert old(conns)[..|conns|] == old(conns) && conns[..|conns|] == conns;
    }

    lemma NoClosures(conns: Table)
      ensures Closures(conns[..0], conns[..0]) == 0
    {
    }

    lemma ClosuresStep(before: Table, after: Table, i: nat)
      requires i < |before| == |after|
      ensures Closures(before[..i + 1], after[..i + 1]) ==
              Closures(before[..i], after[..i]) + if Weight(before[i]) > Weight(after[i]) then 1 else 0
    {
      hide Weight;
      assert before[..i + 1][..i] == before[..i] && after[..i + 1][..i] == after[..i];
    }

    method SubmitOne(id: nat, outcome: SubmitOutcome)
      requires Valid() && Holds(conns, id)
      modifies this`conns, this`activeCount
      ensures Valid()
      ensures var s := old(conns)[id].value; conns == old(conns)[id := Some(s.(conn := Submit(s.conn, outcome)))]
      ensures activeCount == Lower(old(activeCount), if Weight(old(conns)[id]) > Weight(conns[id]) then 1 else 0)
    {
      hide SlotsOk, IdsOk, BgidsOk, HandlesOk, CountOk, Healthy;
      var slot := conns[id].value;
      var wasActive := slot.Active();
      var h := SubmitOps(slot.conn, outcome);
      ghost var after := Some(slot.(conn := Submit(slot.conn, outcome)));
      HeldFacts(id);
      SubmitHealthy(slot.conn, outcome);
      CountUpdates(conns, id, after, activeCount, reopened);
      SlotsChange(conns, generations, id, after.value);
      ShapeIsEnough(conns, conns[id := after], generations, freeConnIds, ids, freeBgids, bgids, issued, retired);
      if h.ok {
        conns := conns[id := Some(slot.(conn := h.conn))];
      } else {
        conns := conns[id := Some(slot.(conn := h.conn.(driver := Driver.Closed)))];
        if wasActive || !h.conn.driver.Closed? {
          activeCount := LessOne(activeCount);
        }
      }
    }

    /** initiate_close, for the connection that the handle stands for. */
    method BeginClose(h: Handle, accepted: bool) returns (ok: bool)
      requires Valid()
      modifies this`conns
      ensures Valid()
      ensures ok <==> At(old(conns), h).Some? && InitiateClose(At(old(conns), h).value.conn, accepted).ok
      ensures At(old(conns), h).Some? ==>
                var s := At(old(conns), h).value;
                conns == old(conns)[h.connId := Some(s.(conn := InitiateClose(s.conn, accepted).conn))]
      ensures At(old(conns), h).None? ==> conns == old(conns)
    {
      hide SlotsOk, IdsOk, BgidsOk, HandlesOk, CountOk, Healthy;
      if At(conns, h).None? {
        return false;
      }
      var slot := conns[h.connId].value;
      var closed := InitiateClose(slot.conn, accepted);
      ghost var after := Some(slot.(conn := closed.conn));
      HeldFacts(h.connId);
      CloseHealthy(slot.conn, accepted);
      CountUpdates(conns, h.connId, after, activeCount, reopened);
      SlotsChange(conns, generations, h.connId, after.value);
      ShapeIsEnough(conns, conns[h.connId := after], generations, freeConnIds, ids, freeBgids, bgids, issued, retired);
      conns := conns[h.connId := Some(slot.(conn := closed.conn))];
      ok := closed.ok;
    }

    lemma NothingHandled()
      requires Valid()
      ensures AllIsolated(conns, conns, []) && TableRevivals(conns, []) == 0
    {
      hide Run, WellFormed, Healthy;
      NobodyRevives(conns, []);
    }

    lemma FoundHolds(token: nat)
      requires Valid() && ConnFor(conns, token).Some?
      ensures var id := ConnFor(conns, token).value;
              Holds(conns, id) && conns[id].value.identity.Token() == token && conns[id].value.setup.Valid()
    {
      hide TokenConnId, EncodeConnToken, Healthy;
    }

    /** A completion that reaches nobody changes nothing for anybody. */
    lemma SkipUnknown(before: Table, cs: seq<Cqe>, i: nat)
      requires Valid() && i < |cs| && AllIsolated(before, conns, cs[..i]) && ConnFor(conns, cs[i].token).None?
      ensures AllIsolated(before, conns, cs[..i + 1])
      ensures TableRevivals(before, cs[..i + 1]) == TableRevivals(before, cs[..i])
    {
      hide SlotsOk, IdsOk, BgidsOk, HandlesOk, CountOk, Isolated, SlotRevivals;
      assert cs[..i + 1] == cs[..i] + [cs[i]];
      forall k: nat | k < |conns|
        ensures Isolated(before[k], conns[k], cs[..i] + [cs[i]])
        ensures SlotRevivals(before[k], cs[..i] + [cs[i]]) == SlotRevivals(before[k], cs[..i])
      {
        ReachesOnlyItsOwn(conns, generations, cs[i].token, k);
        StillIsolated(before[k], conns[k], cs[..i], [cs[i]]);
      }
      RevivalsElsewhere(before, |before|, cs[..i], cs[..i] + [cs[i]], 0);
    }

    /** The group counts for its connection only, and as its members would alone. */
    lemma CountStep(before: Table, cs: seq<Cqe>, i: nat, end: nat, id: nat, batch: bool)
      requires Valid() && i < end <= |cs| && AllIsolated(before, conns, cs[..i]) && Expected(before, cs)
      requires Holds(conns, id) && conns[id].value.setup.Valid()
      requires forall c <- cs[i..end] :: c.token == conns[id].value.identity.Token()
      requires Groupable(conns[id].value.setup, conns[id].value.conn, cs[i..end], batch)
      ensures AllCountable(before, cs) ==>
                TableRevivals(before, cs[..end]) ==
                TableRevivals(before, cs[..i]) + if !batch && Revives(conns[id].value.conn, cs[i..end][0]) then 1 else 0
    {
      hide SlotsOk, IdsOk, BgidsOk, HandlesOk, CountOk, Isolated, Groupable, Healthy, Posted, Own, SlotRevivals,
        Revives;
      if AllCountable(before, cs) {
        var s, group := conns[id].value, cs[i..end];
        assert cs[..end] == cs[..i] + group;
        assert cs == (cs[..i] + group) + cs[end..];
        IsolatedSame(before[id], conns[id], cs[..i]);
        CountGroup(before[id], s, cs[..i], group, cs[end..], batch);
        forall k: nat | k < |conns| && k != id
          ensures SlotRevivals(before[k], cs[..i] + group) == SlotRevivals(before[k], cs[..i])
        {
          assert group[0] in group;
          ReachesOnlyItsOwn(conns, generations, group[0].token, id);
          ReachesOnlyItsOwn(conns, generations, group[0].token, k);
          StillIsolated(before[k], conns[k], cs[..i], group);
        }
        RevivalsElsewhere(before, id, cs[..i], cs[..i] + group, if !batch && Revives(s.conn, group[0]) then 1 else 0);
      }
    }

    /** The pool's next step: the group goes to its connection and everyone stays isolated. */
    lemma GroupStep(before: Table, cs: seq<Cqe>, i: nat, end: nat, id: nat, batch: bool)
      requires Valid() && i < end <= |cs| && AllIsolated(before, conns, cs[..i]) && Expected(before, cs)
      requires Holds(conns, id) && conns[id].value.setup.Valid()
      requires forall c <- cs[i..end] :: c.token == conns[id].value.identity.Token()
      requires Groupable(conns[id].value.setup, conns[id].value.conn, cs[i..end], batch)
      ensures cs[i..end] != []
      ensures var s := conns[id].value;
              var r := Together(s.setup, s.conn, cs[i..end], batch);
              Healthy(r) && AllIsolated(before, conns[id := Some(s.(conn := r))], cs[..end])
    {
      hide SlotsOk, IdsOk, BgidsOk, HandlesOk, CountOk, Isolated, Groupable, Together, Healthy, Posted, Own;
      var s, group := conns[id].value, cs[i..end];
      assert cs[..end] == cs[..i] + group;
      assert cs == (cs[..i] + group) + cs[end..];
      var r := Together(s.setup, s.conn, group, batch);
      IsolatedSame(before[id], conns[id], cs[..i]);
      IsolatedGroup(before[id], s, cs[..i], group, cs[end..], batch);
      forall k | 0 <= k < |conns| && k != id
        ensures Isolated(before[k], conns[k], cs[..i] + group)
      {
        assert group[0] in group;
        ReachesOnlyItsOwn(conns, generations, group[0].token, id);
        ReachesOnlyItsOwn(conns, generations, group[0].token, k);
        StillIsolated(before[k], conns[k], cs[..i], group);
      }
    }
  }

  /** Completions with other tokens do not concern a slot. */
  lemma StillIsolated(before: Option<Slot>, after: Option<Slot>, cs: seq<Cqe>, more: seq<Cqe>)
    requires Isolated(before, after, cs)
    requires forall c <- more :: after.Some? ==> c.token != after.value.identity.Token()
    ensures Isolated(before, after, cs + more)
    ensures SlotRevivals(before, cs + more) == SlotRevivals(before, cs)
  {
    hide Healthy, Fold, Alike, EncodeConnToken, Stranded, HangsUp, Revivals;
    if after.Some? && before.value.setup.Valid() {
      var token := before.value.identity.Token();
      OwnAppend(token, cs, more);
      OwnAll(token, more);
      assert Own(token, cs) + [] == Own(token, cs);
    }
  }

  lemma IsolatedSame(before: Option<Slot>, after: Option<Slot>, cs: seq<Cqe>)
    requires Isolated(before, after, cs) && after.Some?
    ensures before.Some? && before.value.identity == after.value.identity && before.value.setup == after.value.setup
  {
  }

  lemma IsolatedGroup(before: Option<Slot>, s: Slot, cs: seq<Cqe>, group: seq<Cqe>, rest: seq<Cqe>, batch: bool)
    requires Isolated(before, Some(s), cs) && before.value.setup.Valid()
    requires Posted(before.value.setup, before.value.conn, Own(before.value.identity.Token(), (cs + group) + rest))
    requires (forall c <- group :: c.token == s.identity.Token()) && group != []
    requires Groupable(s.setup, s.conn, group, batch) && s.setup.Valid() && Healthy(before.value.conn)
    ensures var r := Together(s.setup, s.conn, group, batch);
            Healthy(r) && Isolated(before, Some(s.(conn := r)), cs + group)
  {
    hide Healthy, Fold, Alike, EncodeConnToken, Posted, Groupable, Together, Stranded, HangsUp;
    var b, token := before.value, s.identity.Token();
    OwnAppend(token, cs + group, rest);
    OwnAppend(token, cs, group);
    OwnAll(token, group);
    FoldAppend(b.setup, b.conn, Own(token, cs) + group, Own(token, rest));
    FoldAppend(b.setup, b.conn, Own(token, cs), group);
    HealthyFold(b.setup, b.conn, Own(token, cs));
    var alone := Fold(b.setup, b.conn, Own(token, cs));
    GroupAlike(s.setup, s.conn, alone, group, batch);
    if !Stranded(b.conn) && forall c <- Own(token, cs) + group :: !HangsUp(c) {
      GroupStaysAfloat(s.setup, s.conn, alone, group, batch);
    }
  }

  lemma CountGroup(before: Option<Slot>, s: Slot, cs: seq<Cqe>, group: seq<Cqe>, rest: seq<Cqe>, batch: bool)
    requires Isolated(before, Some(s), cs) && before.value.setup.Valid()
    requires Posted(before.value.setup, before.value.conn, Own(before.value.identity.Token(), (cs + group) + rest))
    requires Countable(before.value.setup, before.value.conn, Own(before.value.identity.Token(), (cs + group) + rest))
    requires (forall c <- group :: c.token == s.identity.Token()) && group != []
    requires Groupable(s.setup, s.conn, group, batch) && s.setup.Valid() && Healthy(before.value.conn)
    ensures SlotRevivals(before, cs + group) ==
            SlotRevivals(before, cs) + if !batch && Revives(s.conn, group[0]) then 1 else 0
  {
    hide Healthy, Fold, EncodeConnToken, Posted, Groupable, Together, Stranded, HangsUp, Revivals, Revives, Orderly,
      Twin;
    var b, token := before.value, s.identity.Token();
    var own := Own(token, cs);
    OwnAppend(token, cs + group, rest);
    OwnAppend(token, cs, group);
    OwnAll(token, group);
    FoldAppend(b.setup, b.conn, own + group, Own(token, rest));
    FoldAppend(b.setup, b.conn, own, group);
    HealthyFold(b.setup, b.conn, own);
    RevivalsAppend(b.setup, b.conn, own, group);
    if s.setup.copyMax > 0 {
      OrderlyParts(own, group, Own(token, rest));
      NeverRevived(b.setup, b.conn, own);
    }
    GroupRevives(s.setup, s.conn, Fold(b.setup, b.conn, own), group, batch);
  }

  lemma OrderlyParts(a: seq<Cqe>, b: seq<Cqe>, c: seq<Cqe>)
    requires Orderly((a + b) + c) && b != []
    ensures (forall x <- a :: !HangsUp(x)) && Orderly(a) && Orderly(b)
  {
    var all := (a + b) + c;
    forall k | 0 <= k < |a|
      ensures !HangsUp(a[k])
    {
      assert all[k] == a[k];
    }
    forall k | 0 <= k < |b| - 1
      ensures !HangsUp(b[k])
    {
      assert all[|a| + k] == b[k];
    }
  }

  lemma HandledTogether(setup: Setup, conn: Conn, group: seq<Cqe>, batch: bool)
    requires setup.Valid() && group != [] && Groupable(setup, conn, group, batch)
    ensures var h := if batch then HandleBatch(setup, conn, group) else HandleOne(setup, conn, group[0]);
            && Finish(h) == Together(setup, conn, group, batch)
            && (conn.driver.Closed? && !Finish(h).driver.Closed? <==> !batch && Revives(conn, group[0]))
            && (conn.driver.Closed? && !h.ok ==> h.conn.driver.Closed?)
  {
    hide HandleBatch, Finish, IngestAll, OnRecv, Discard, Revives;
    if batch {
      OpenGroup(setup, conn, group);
    } else {
      ReopensExactly(setup, conn, group[0]);
    }
  }

  lemma AtGrown(before: Table, after: Table)
    requires after == before || after == before + [None]
    ensures forall h :: At(after, h) == At(before, h)
  {
  }

  // ---- what isolation means for one connection ----------------------------------------------

  /**
   Two pools, two lists of completions, one connection that is in both and gets the same completions:
   the events it emits and the buffers it gives back are the same, whatever else the lists hold.
   */
  lemma OthersDoNotMatter(
      before: Table, after: Table, cs: seq<Cqe>, i: nat, before': Table, after': Table, cs': seq<Cqe>, j: nat)
    requires AllIsolated(before, after, cs) && AllIsolated(before', after', cs')
    requires Holds(before, i) && Holds(before', j) && before[i] == before'[j] && before[i].value.setup.Valid()
    requires Own(before[i].value.identity.Token(), cs) == Own(before[i].value.identity.Token(), cs')
    ensures var s, a, b := before[i].value, after[i].value.conn, after'[j].value.conn;
            && a.events == b.events && a.recycled == b.recycled && a.armed == b.armed
            && ((a.driver == b.driver && a.ws == b.ws) || (DeadConn(s.setup, a) && DeadConn(s.setup, b)))
            && (s.setup.copyMax == 0 ==> a == b)
  {
    hide Healthy, Fold, Own, EncodeConnToken, Run;
    assert Isolated(before[i], after[i], cs) && Isolated(before'[j], after'[j], cs');
  }
}
