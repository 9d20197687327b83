/**
 The bookkeeping of the pool, src/pool.rs:180-199 and 419-534: slot ids, buffer group ids,
 handles and the number of active connections, as properties of the tables.
 */
module Slots {
  import opened Bytes
  import opened Tokens
  import opened Connection
  import opened Grouping

  datatype Slot = Slot(identity: Identity, setup: Setup, conn: Conn) {
    predicate Active() { !conn.driver.Closed? }
  }

  type Table = seq<Option<Slot>>

  datatype Handle = Handle(connId: nat, generation: nat) {
    function Token(): nat { EncodeConnToken(connId, generation) }
  }

  /** Every slot id is in exactly one of these. */
  datatype IdState = Occupied | Vacant | Reserved | Exhausted

  /** Every buffer group id that was ever given out is in exactly one of these. */
  datatype BgidState = Held(slot: nat) | VacantBgid | ReservedBgid | Lost

  predicate NoDuplicates<T(==)>(s: seq<T>) {
    forall i, j :: 0 <= i < j < |s| ==> s[i] != s[j]
  }

  predicate Holds(conns: Table, i: nat) {
    i < |conns| && conns[i].Some?
  }

  predicate HasGroup(conns: Table, i: nat, bgid: nat) {
    Holds(conns, i) && conns[i].value.identity.bgid == bgid
  }

  /** Slots hold well-kept connections that carry the identity of their place. */
  predicate SlotsOk(conns: Table, generations: seq<nat>) {
    && |conns| == |generations| <= ID_SPACE
    && (forall i :: 0 <= i < |conns| ==> generations[i] <= CONN_GENERATION_MASK)
    && (forall i :: 0 <= i < |conns| && conns[i].Some? ==>
          var s := conns[i].value;
          s.identity.connId == i && s.identity.generation == generations[i] && s.setup.Valid() && Healthy(s.conn))
  }

  /** Occupied, free, reserved for the connect under way, or worn out. */
  predicate IdsOk(conns: Table, generations: seq<nat>, free: seq<nat>, ids: seq<IdState>)
  {
    && |conns| == |generations| == |ids|
    && (forall i :: 0 <= i < |ids| ==> (ids[i].Occupied? <==> conns[i].Some?))
    && (forall i :: 0 <= i < |ids| ==> (ids[i].Vacant? <==> i in free))
    && (forall i :: 0 <= i < |ids| && ids[i].Exhausted? ==> generations[i] == CONN_GENERATION_MASK)
    && (forall k :: 0 <= k < |free| ==> free[k] < |ids|)
    && NoDuplicates(free)
  }

  /** Held by one slot, free, reserved, or never to be given out again. */
  predicate BgidsOk(conns: Table, free: seq<nat>, bgids: seq<BgidState>) {
    && |bgids| < 0x1_0000
    && (forall i :: 0 <= i < |conns| && conns[i].Some? ==>
          conns[i].value.identity.bgid < |bgids| && bgids[conns[i].value.identity.bgid] == Held(i))
    && (forall b :: 0 <= b < |bgids| && bgids[b].Held? ==>
          Holds(conns, bgids[b].slot) && conns[bgids[b].slot].value.identity.bgid == b)
    && (forall b :: 0 <= b < |bgids| ==> (bgids[b].VacantBgid? <==> b in free))
    && (forall k :: 0 <= k < |free| ==> free[k] < |bgids|)
    && NoDuplicates(free)
  }

  /** The given id and group, if any, are the only ones reserved. */
  predicate OnlyReserved(ids: seq<IdState>, bgids: seq<BgidState>, id: Option<nat>, bgid: Option<nat>) {
    && (forall i :: 0 <= i < |ids| ==> (ids[i].Reserved? <==> id == Some(i)))
    && (forall b :: 0 <= b < |bgids| ==> (bgids[b].ReservedBgid? <==> bgid == Some(b)))
    && (id.Some? ==> id.value < |ids|) && (bgid.Some? ==> bgid.value < |bgids|)
  }

  /** A group that the kernel still knows is never up for reuse. */
  predicate NeverReused(stuck: set<nat>, bgids: seq<BgidState>) {
    forall b <- stuck :: b < |bgids| && bgids[b].Lost?
  }

  /** A group that was never given out, or is free again. */
  predicate Free(bgids: seq<BgidState>, b: nat) {
    b < |bgids| ==> bgids[b].VacantBgid?
  }

  /** The same groups are lost. */
  predicate SameLost(before: seq<BgidState>, after: seq<BgidState>) {
    && |before| <= |after|
    && (forall b :: 0 <= b < |after| ==> (after[b].Lost? <==> b < |before| && before[b].Lost?))
  }

  /** The connection a handle stands for. */
  function At(conns: Table, h: Handle): (s: Option<Slot>) {
    if Holds(conns, h.connId) && conns[h.connId].value.identity.generation == h.generation
    then conns[h.connId] else None
  }

  /** A handle is used up once its slot has moved on or worn out. */
  predicate Spent(generations: seq<nat>, ids: seq<IdState>, h: Handle)
    requires |generations| == |ids|
  {
    && h.connId < |ids|
    && (|| h.generation < generations[h.connId]
        || (h.generation == generations[h.connId] && ids[h.connId].Exhausted?))
  }

  /** Every handle ever issued is unique, and either stands for a connection or is spent for ever. */
  predicate HandlesOk(conns: Table, generations: seq<nat>, ids: seq<IdState>, issued: seq<Handle>, retired: set<Handle>)
    requires |generations| == |ids|
  {
    && NoDuplicates(issued)
    && (forall h <- issued :: if h in retired then Spent(generations, ids, h) else At(conns, h).Some?)
    && (forall h <- retired :: h in issued)
    && (forall i :: 0 <= i < |conns| && conns[i].Some? ==> Handle(i, conns[i].value.identity.generation) in issued)
  }

  /** The number of connections that are not closed. */
  function Live(conns: Table): (n: nat) {
    if conns == [] then 0
    else
      var last := conns[|conns| - 1];
      Live(conns[..|conns| - 1]) + Weight(last)
  }

  function Weight(s: Option<Slot>): (w: nat) {
    if s.Some? && !s.value.conn.driver.Closed? then 1 else 0
  }

  /** The counter never exceeds the truth, and falls short of it by no more than the reopenings. */
  predicate CountOk(conns: Table, activeCount: nat, reopened: nat) {
    activeCount <= Live(conns) <= activeCount + reopened
  }

  /** All tables of a pool agree with each other. */
  predicate TablesOk(
    conns: Table, generations: seq<nat>, freeConnIds: seq<nat>, ids: seq<IdState>, freeBgids: seq<nat>,
    bgids: seq<BgidState>, issued: seq<Handle>, retired: set<Handle>, activeCount: nat, reopened: nat)
  {
    && SlotsOk(conns, generations)
    && IdsOk(conns, generations, freeConnIds, ids)
    && BgidsOk(conns, freeBgids, bgids)
    && HandlesOk(conns, generations, ids, issued, retired)
    && CountOk(conns, activeCount, reopened)
  }

  lemma {:induction false} LiveUpdate(conns: Table, i: nat, s: Option<Slot>)
    requires i < |conns|
    ensures Live(conns[i := s]) + Weight(conns[i]) == Live(conns) + Weight(s)
    decreases |conns|
  {
    hide Weight;
    var n := |conns| - 1;
    if i == n {
      assert conns[i := s][..n] == conns[..n];
    } else {
      LiveUpdate(conns[..n], i, s);
      assert conns[i := s][..n] == conns[..n][i := s];
    }
  }

  lemma {:induction false} LiveWitness(conns: Table, i: nat)
    requires i < |conns|
    ensures Live(conns) >= Weight(conns[i])
    decreases |conns|
  {
    if i < |conns| - 1 {
      LiveWitness(conns[..|conns| - 1], i);
    }
  }

  lemma CountGrows(conns: Table, activeCount: nat, reopened: nat)
    requires CountOk(conns, activeCount, reopened)
    ensures CountOk(conns + [None], activeCount, reopened)
  {
    assert (conns + [None])[..|conns|] == conns;
  }

  function LessOne(n: nat): (r: nat) { if n == 0 then 0 else n - 1 }

  /** Counting off k connections; the counter stops at zero. */
  function Lower(n: nat, k: nat): (r: nat) { if k <= n then n - k else 0 }

  /** The connections that are active in one table and not in the other. */
  function Closures(before: Table, after: Table): (n: nat)
    requires |before| == |after|
  {
    if before == [] then 0
    else
      var k := |before| - 1;
      Closures(before[..k], after[..k]) + if Weight(before[k]) > Weight(after[k]) then 1 else 0
  }

  lemma CountStarts(conns: Table, i: nat, s: Slot, activeCount: nat, reopened: nat)
    requires CountOk(conns, activeCount, reopened) && i < |conns| && conns[i].None? && s.Active()
    ensures CountOk(conns[i := Some(s)], activeCount + 1, reopened)
  {
    LiveUpdate(conns, i, Some(s));
  }

  /** A slot that stops being active is counted off; one that becomes active again is not counted. */
  lemma CountUpdates(conns: Table, i: nat, s: Option<Slot>, activeCount: nat, reopened: nat)
    requires CountOk(conns, activeCount, reopened) && i < |conns|
    ensures var was, now := Weight(conns[i]), Weight(s);
            CountOk(conns[i := s], if was > now then LessOne(activeCount) else activeCount,
                    if was < now then reopened + 1 else reopened)
  {
    LiveUpdate(conns, i, s);
    LiveWitness(conns, i);
  }

  // ---- taking and giving back ids ----------------------------------------------------------

  lemma TakeFreeId(conns: Table, generations: seq<nat>, free: seq<nat>, ids: seq<IdState>)
    requires IdsOk(conns, generations, free, ids) && free != []
    ensures var id := free[|free| - 1];
            id < |ids| && ids[id].Vacant? && IdsOk(conns, generations, free[..|free| - 1], ids[id := Reserved])
  {
    var n := |free| - 1;
    assert free == free[..n] + [free[n]];
    assert free[n] in free;
  }

  lemma FreshId(conns: Table, generations: seq<nat>, free: seq<nat>, ids: seq<IdState>)
    requires IdsOk(conns, generations, free, ids) && free == []
    ensures IdsOk(conns + [None], generations + [0], free, ids + [Reserved])
  {
  }

  lemma GiveIdBack(conns: Table, generations: seq<nat>, free: seq<nat>, ids: seq<IdState>, id: nat)
    requires IdsOk(conns, generations, free, ids) && id < |ids| && ids[id].Reserved?
    ensures IdsOk(conns, generations, free + [id], ids[id := Vacant])
  {
  }

  lemma OccupyId(conns: Table, generations: seq<nat>, free: seq<nat>, ids: seq<IdState>, id: nat, s: Slot)
    requires IdsOk(conns, generations, free, ids) && id < |ids| && ids[id].Reserved?
    ensures IdsOk(conns[id := Some(s)], generations, free, ids[id := Occupied])
  {
  }

  /** Leaving a slot: its generation moves on, or the slot is never used again. */
  lemma VacateId(conns: Table, generations: seq<nat>, free: seq<nat>, ids: seq<IdState>, id: nat)
    requires IdsOk(conns, generations, free, ids) && Holds(conns, id)
    ensures generations[id] < CONN_GENERATION_MASK ==>
              IdsOk(conns[id := None], generations[id := generations[id] + 1], free + [id], ids[id := Vacant])
    ensures generations[id] == CONN_GENERATION_MASK ==>
              IdsOk(conns[id := None], generations, free, ids[id := Exhausted])
  {
  }

  lemma TakeFreeBgid(conns: Table, free: seq<nat>, bgids: seq<BgidState>)
    requires BgidsOk(conns, free, bgids) && free != []
    ensures var b := free[|free| - 1];
            b < |bgids| && bgids[b].VacantBgid? && BgidsOk(conns, free[..|free| - 1], bgids[b := ReservedBgid])
  {
    var n := |free| - 1;
    assert free == free[..n] + [free[n]];
    assert free[n] in free;
  }

  lemma FreshBgid(conns: Table, free: seq<nat>, bgids: seq<BgidState>)
    requires BgidsOk(conns, free, bgids) && free == [] && |bgids| + 1 < 0x1_0000
    ensures BgidsOk(conns, free, bgids + [ReservedBgid])
  {
  }

  lemma GiveBgidBack(conns: Table, free: seq<nat>, bgids: seq<BgidState>, b: nat)
    requires BgidsOk(conns, free, bgids) && b < |bgids| && bgids[b].ReservedBgid?
    ensures BgidsOk(conns, free + [b], bgids[b := VacantBgid])
  {
  }

  lemma HoldBgid(conns: Table, free: seq<nat>, bgids: seq<BgidState>, id: nat, s: Slot)
    requires BgidsOk(conns, free, bgids) && id < |conns| && conns[id].None?
    requires s.identity.bgid < |bgids| && bgids[s.identity.bgid].ReservedBgid?
    ensures BgidsOk(conns[id := Some(s)], free, bgids[s.identity.bgid := Held(id)])
  {
  }

  /** Whether or not its group id may be used again. */
  lemma DropBgid(conns: Table, free: seq<nat>, bgids: seq<BgidState>, id: nat)
    requires BgidsOk(conns, free, bgids) && Holds(conns, id)
    ensures var b := conns[id].value.identity.bgid;
            && BgidsOk(conns[id := None], free + [b], bgids[b := VacantBgid])
            && BgidsOk(conns[id := None], free, bgids[b := Lost])
  {
  }

  /** Leaving a slot keeps groups safe unless the kernel keeps a ring that nobody knows of. */
  lemma ReuseAfterLeaving(stuck: set<nat>, bgids: seq<BgidState>, b: nat, leaked: bool, recycle: bool)
    requires NeverReused(stuck, bgids) && b < |bgids| && bgids[b].Held? && (leaked ==> recycle)
    ensures var stuck' := if leaked || !recycle then stuck + {b} else stuck;
            NeverReused(stuck', bgids[b := if recycle then VacantBgid else Lost]) <==> !leaked
  {
    if leaked {
      assert b in stuck + {b};
    }
  }

  lemma NothingReserved(ids: seq<IdState>, bgids: seq<BgidState>, id: nat, i: IdState, b: nat, g: BgidState)
    requires OnlyReserved(ids, bgids, None, None) && id < |ids| && b < |bgids| && !i.Reserved? && !g.ReservedBgid?
    ensures OnlyReserved(ids[id := i], bgids[b := g], None, None)
  {
  }

  lemma GrowBgids(conns: Table, free: seq<nat>, bgids: seq<BgidState>)
    requires BgidsOk(conns, free, bgids)
    ensures BgidsOk(conns + [None], free, bgids)
  {
  }

  // ---- handles -----------------------------------------------------------------------------

  /** The next handle of a slot that is not occupied has never been issued. */
  lemma FreshHandle(
      conns: Table, generations: seq<nat>, ids: seq<IdState>, issued: seq<Handle>, retired: set<Handle>, id: nat)
    requires |generations| == |ids| == |conns| && HandlesOk(conns, generations, ids, issued, retired)
    requires id < |ids| && conns[id].None? && !ids[id].Exhausted?
    ensures Handle(id, generations[id]) !in issued
  {
    if Handle(id, generations[id]) in issued {
      assert false;
    }
  }

  lemma IssueHandle(
      conns: Table, generations: seq<nat>, ids: seq<IdState>, issued: seq<Handle>, retired: set<Handle>,
      id: nat, s: Slot)
    requires |generations| == |ids| == |conns| && HandlesOk(conns, generations, ids, issued, retired)
    requires id < |ids| && conns[id].None? && ids[id].Reserved? && s.identity.generation == generations[id]
    ensures Handle(id, generations[id]) !in issued
    ensures HandlesOk(conns[id := Some(s)], generations, ids[id := Occupied],
                      issued + [Handle(id, generations[id])], retired)
  {
    FreshHandle(conns, generations, ids, issued, retired, id);
  }

  /** Reserving or releasing an id, or adding a slot, issues and spends nothing. */
  lemma KeepHandles(
      conns: Table, generations: seq<nat>, ids: seq<IdState>, issued: seq<Handle>, retired: set<Handle>,
      conns': Table, generations': seq<nat>, ids': seq<IdState>)
    requires |generations| == |ids| == |conns| && HandlesOk(conns, generations, ids, issued, retired)
    requires |generations'| == |ids'| == |conns'| && |ids| <= |ids'|
    requires forall i :: 0 <= i < |ids| ==>
               conns'[i] == conns[i] && generations'[i] == generations[i] && (ids[i].Exhausted? ==> ids'[i].Exhausted?)
    requires forall i :: |ids| <= i < |ids'| ==> conns'[i].None?
    ensures HandlesOk(conns', generations', ids', issued, retired)
  {
  }

  lemma RetireHandle(
      conns: Table, generations: seq<nat>, ids: seq<IdState>, issued: seq<Handle>, retired: set<Handle>, id: nat,
      generations': seq<nat>, ids': seq<IdState>)
    requires |generations| == |ids| == |conns| && HandlesOk(conns, generations, ids, issued, retired)
    requires Holds(conns, id) && conns[id].value.identity.generation == generations[id]
    requires (generations' == generations[id := generations[id] + 1] && ids' == ids[id := Vacant])
          || (generations' == generations && ids' == ids[id := Exhausted])
    requires forall i :: 0 <= i < |ids| && ids[i].Exhausted? ==> conns[i].None?
    ensures HandlesOk(conns[id := None], generations', ids', issued, retired + {Handle(id, generations[id])})
  {
  }

  /** A spent handle stands for nothing. */
  lemma SpentIsGone(conns: Table, generations: seq<nat>, free: seq<nat>, ids: seq<IdState>, h: Handle)
    requires SlotsOk(conns, generations) && IdsOk(conns, generations, free, ids) && Spent(generations, ids, h)
    ensures At(conns, h).None?
  {
  }

  lemma SlotsGrow(conns: Table, generations: seq<nat>)
    requires SlotsOk(conns, generations) && |conns| < ID_SPACE
    ensures SlotsOk(conns + [None], generations + [0])
  {
    hide Healthy;
  }

  lemma SlotsChange(conns: Table, generations: seq<nat>, i: nat, s: Slot)
    requires SlotsOk(conns, generations) && i < |conns|
    requires s.identity.connId == i && s.identity.generation == generations[i] && s.setup.Valid() && Healthy(s.conn)
    ensures SlotsOk(conns[i := Some(s)], generations)
  {
    hide Healthy;
  }

  lemma SlotsLeave(conns: Table, generations: seq<nat>, i: nat)
    requires SlotsOk(conns, generations) && i < |conns|
    ensures SlotsOk(conns[i := None], generations)
    ensures generations[i] < CONN_GENERATION_MASK ==>
              SlotsOk(conns[i := None], generations[i := generations[i] + 1])
  {
    hide Healthy;
  }

  lemma SlotFacts(conns: Table, generations: seq<nat>, free: seq<nat>, ids: seq<IdState>, id: nat)
    requires SlotsOk(conns, generations) && IdsOk(conns, generations, free, ids) && Holds(conns, id)
    ensures conns[id].value.identity.generation == generations[id] <= CONN_GENERATION_MASK
    ensures forall i :: 0 <= i < |ids| && ids[i].Exhausted? ==> conns[i].None?
  {
    hide Healthy;
  }

  lemma HeldGroup(conns: Table, free: seq<nat>, bgids: seq<BgidState>, id: nat)
    requires BgidsOk(conns, free, bgids) && Holds(conns, id)
    ensures conns[id].value.identity.bgid < |bgids| && bgids[conns[id].value.identity.bgid].Held?
  {
  }

  // ---- changing connections in place -------------------------------------------------------

  /** The same slots with the same identities. */
  ghost predicate SameShape(before: Table, after: Table) {
    && |before| == |after|
    && (forall i :: 0 <= i < |before| ==>
          && (before[i].Some? <==> after[i].Some?)
          && (before[i].Some? ==>
                after[i].value.identity == before[i].value.identity && after[i].value.setup == before[i].value.setup))
  }

  lemma ShapeIsEnough(
      conns: Table, conns': Table, generations: seq<nat>, free: seq<nat>, ids: seq<IdState>,
      freeBgids: seq<nat>, bgids: seq<BgidState>, issued: seq<Handle>, retired: set<Handle>)
    requires IdsOk(conns, generations, free, ids) && BgidsOk(conns, freeBgids, bgids)
    requires HandlesOk(conns, generations, ids, issued, retired) && SameShape(conns, conns')
    ensures IdsOk(conns', generations, free, ids) && BgidsOk(conns', freeBgids, bgids)
    ensures HandlesOk(conns', generations, ids, issued, retired)
  {
  }

  // ---- completions find their connection ---------------------------------------------------

  /** conn_for_completion: by slot id, then by the whole token. */
  function ConnFor(conns: Table, token: nat): (r: Option<nat>) {
    var id := TokenConnId(token);
    if Holds(conns, id) && conns[id].value.identity.Token() == token then Some(id) else None
  }

  /** A completion reaches the one connection whose token it carries, or none. */
  lemma ReachesOnlyItsOwn(conns: Table, generations: seq<nat>, token: nat, i: nat)
    requires SlotsOk(conns, generations)
    ensures ConnFor(conns, token) == Some(i) <==> Holds(conns, i) && conns[i].value.identity.Token() == token
  {
    hide TokenConnId, EncodeConnToken, Healthy;
    if Holds(conns, i) {
      TokenRoundTrip(conns[i].value.identity.connId, conns[i].value.identity.generation);
    }
  }

  /** A completion of a connection that is gone reaches nothing, whoever sits in the slot now. */
  lemma LateCompletionIsDropped(conns: Table, generations: seq<nat>, free: seq<nat>, ids: seq<IdState>, h: Handle)
    requires SlotsOk(conns, generations) && IdsOk(conns, generations, free, ids) && Spent(generations, ids, h)
    ensures ConnFor(conns, h.Token()).None?
  {
    hide TokenConnId, EncodeConnToken, Healthy;
    SpentIsGone(conns, generations, free, ids, h);
    var found := ConnFor(conns, h.Token());
    if found.Some? {
      var identity := conns[found.value].value.identity;
      TokenInjective(identity.connId, identity.generation, h.connId, h.generation);
      assert false;
    }
  }
}
