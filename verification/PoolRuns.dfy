/** Whole runs of a pool: any calls, in any order, with any outcome. */
module PoolRuns {
  import opened Bytes
  import opened Decoder
  import opened States
  import opened Tokens
  import opened Connection
  import opened Grouping
  import opened Slots
  import opened Pools
  import Http

  /** A call on the pool, with what the outside world makes of it. */
  datatype Call =
    | Join(setup: Setup, outcome: ConnectOutcome)
    | Remove(handle: Handle, unregisterOk: bool)
    | Rejoin(handle: Handle, setup: Setup, unregisterOk: bool, outcome: ConnectOutcome)
    | Completions(cs: seq<Cqe>, minGroup: nat)
    | Submissions(submit: nat -> SubmitOutcome)
    | CloseConn(handle: Handle, accepted: bool)
  {
    predicate Sensible() {
      match this
      case Join(setup, _) => setup.Valid()
      case Rejoin(_, setup, _, _) => setup.Valid()
      case Completions(_, minGroup) => minGroup in {1, 2}
      case _ => true
    }

    /** The completions that a call brings. */
    function Posts(): (s: seq<Cqe>) { if Completions? then cs else [] }

    /** The handle whose connection a call takes out. */
    function Taken(): (h: Option<Handle>) { if Remove? || Rejoin? then Some(handle) else None }

    /** No submission fails. */
    ghost predicate Submits() { Submissions? ==> forall i: nat :: submit(i) == SubmitOutcome(true, true) }

    /** Registering, arming and unregistering a ring do not go wrong in the one fatal way. */
    predicate Clean() {
      Completions? ==> forall c <- cs :: !Leaky(c)
    }
  }

  /** No connection has left a ring behind. */
  ghost predicate NoLeaks(conns: Table) {
    forall h :: At(conns, h).Some? ==> !At(conns, h).value.conn.leaked
  }

  lemma EmptyNoLeaks()
    ensures NoLeaks([])
  {
  }

  // ---- who can come back from Closed ---------------------------------------------------------

  /** Some completion in the list made the driver of this token's connection give up. */
  predicate Blamed(token: nat, cs: seq<Cqe>) {
    exists j :: 0 <= j < |cs| && HangsUp(cs[j]) && cs[j].token == token
  }

  /** A connection is stranded only if it was before, or if a completion of its own did it. */
  ghost predicate Afloat(before: Table, after: Table, cs: seq<Cqe>) {
    forall h :: At(after, h).Some? && Stranded(At(after, h).value.conn) ==>
      || (At(before, h).Some? && Stranded(At(before, h).value.conn))
      || Blamed(h.Token(), cs)
  }

  lemma DispatchAfloat(before: Table, after: Table, generations: seq<nat>, cs: seq<Cqe>)
    requires SlotsOk(before, generations) && AllIsolated(before, after, cs)
    ensures Afloat(before, after, cs)
  {
    hide Healthy, Fold, Run, Own, HangsUp, EncodeConnToken, Alike, Stranded;
    forall h | At(after, h).Some? && Stranded(At(after, h).value.conn) && !Blamed(h.Token(), cs)
      ensures At(before, h).Some? && Stranded(At(before, h).value.conn)
    {
      var i := h.connId;
      assert Isolated(before[i], after[i], cs);
      var b := before[i].value;
      assert At(before, h) == before[i] && b.identity.Token() == h.Token();
      OwnTokens(h.Token(), cs);
      OwnSubset(h.Token(), cs);
    }
  }

  lemma {:induction false} OwnTokens(token: nat, cs: seq<Cqe>)
    ensures forall c <- Own(token, cs) :: c.token == token
  {
    if cs != [] {
      OwnTokens(token, cs[1..]);
    }
  }

  lemma SubmitAfloat(before: Table, after: Table, outcome: nat -> SubmitOutcome)
    requires SameShape(before, after) && forall i: nat :: outcome(i) == SubmitOutcome(true, true)
    requires forall i :: 0 <= i < |after| && after[i].Some? ==>
               after[i].value.conn == Submit(before[i].value.conn, outcome(i))
    ensures Afloat(before, after, [])
  {
    forall h | At(after, h).Some? && Stranded(At(after, h).value.conn)
      ensures At(before, h).Some? && Stranded(At(before, h).value.conn)
    {
      assert At(before, h) == before[h.connId];
    }
  }

  lemma CloseAfloat(before: Table, h: Handle, accepted: bool)
    requires At(before, h).Some?
    ensures var s := At(before, h).value;
            Afloat(before, before[h.connId := Some(s.(conn := InitiateClose(s.conn, accepted).conn))], [])
  {
    var s := At(before, h).value;
    var after := before[h.connId := Some(s.(conn := InitiateClose(s.conn, accepted).conn))];
    forall g | At(after, g).Some? && Stranded(At(after, g).value.conn)
      ensures At(before, g).Some? && Stranded(At(before, g).value.conn)
    {
      assert At(before, g) == before[g.connId];
    }
  }

  lemma FreshAfloat(before: Table, after: Table, cs: seq<Cqe>)
    requires forall h :: At(after, h).Some? ==> At(after, h) == At(before, h) || At(after, h).value.conn == FRESH
    ensures Afloat(before, after, cs)
  {
    forall h | At(after, h).Some? && Stranded(At(after, h).value.conn)
      ensures At(before, h).Some? && Stranded(At(before, h).value.conn)
    {
      assert At(after, h) == At(before, h);
    }
  }

  /** After a connection's driver gave up, none of its completions follows. */
  ghost predicate OrderlyRun(calls: seq<Call>) {
    (forall call <- calls :: call.Submits()) && NoneFollows(AllPosts(calls))
  }

  predicate NoneFollows(cs: seq<Cqe>) {
    forall j, k :: 0 <= j < k < |cs| && HangsUp(cs[j]) ==> cs[k].token != cs[j].token
  }

  function AllPosts(calls: seq<Call>): (cs: seq<Cqe>) {
    if calls == [] then [] else AllPosts(calls[..|calls| - 1]) + calls[|calls| - 1].Posts()
  }

  lemma {:induction false} PostsPrefix(calls: seq<Call>, i: nat)
    requires i <= |calls|
    ensures AllPosts(calls[..i]) <= AllPosts(calls)
    decreases |calls|
  {
    if i == |calls| {
      assert calls[..i] == calls;
    } else {
      PostsPrefix(calls[..|calls| - 1], i);
      assert calls[..|calls| - 1][..i] == calls[..i];
    }
  }

  /** In an orderly run a list of completions brings nobody back. */
  lemma OrderlyList(conns: Table, generations: seq<nat>, seen: seq<Cqe>, cs: seq<Cqe>)
    requires SlotsOk(conns, generations) && Expected(conns, cs) && NoneFollows(seen + cs)
    requires forall h :: At(conns, h).Some? && Stranded(At(conns, h).value.conn) ==> Blamed(h.Token(), seen)
    ensures AllCountable(conns, cs) && TableRevivals(conns, cs) == 0
  {
    hide Healthy, Run, HangsUp, EncodeConnToken, Stranded, Posted, Revivals, Orderly, Blamed;
    forall i | 0 <= i < |conns|
      ensures SlotRevivals(conns[i], cs) == 0
      ensures conns[i].Some? ==>
                var s := conns[i].value; Countable(s.setup, s.conn, Own(s.identity.Token(), cs))
    {
      if conns[i].Some? {
        var s := conns[i].value;
        var token := s.identity.Token();
        if Stranded(s.conn) {
          assert At(conns, Handle(i, s.identity.generation)) == conns[i];
          BlamedIsSilent(token, seen, cs);
          NothingRevives(s.setup, s.conn);
        } else {
          OwnIsOrderly(token, seen, cs);
          NeverRevived(s.setup, s.conn, Own(token, cs));
        }
      }
    }
    NobodyRevives(conns, cs);
  }

  lemma NothingRevives(setup: Setup, conn: Conn)
    requires setup.Valid()
    ensures Revivals(setup, conn, []) == 0
  {
  }

  lemma BlamedIsSilent(token: nat, seen: seq<Cqe>, cs: seq<Cqe>)
    requires Blamed(token, seen) && NoneFollows(seen + cs)
    ensures Own(token, cs) == []
  {
    var j :| 0 <= j < |seen| && HangsUp(seen[j]) && seen[j].token == token;
    forall k | 0 <= k < |cs|
      ensures cs[k].token != token
    {
      assert (seen + cs)[j] == seen[j] && (seen + cs)[|seen| + k] == cs[k];
    }
    OwnAll(token, cs);
  }

  lemma OwnIsOrderly(token: nat, seen: seq<Cqe>, cs: seq<Cqe>)
    requires NoneFollows(seen + cs)
    ensures Orderly(Own(token, cs))
  {
    hide HangsUp;
    forall j, k | 0 <= j < k < |cs| && HangsUp(cs[j])
      ensures cs[k].token != cs[j].token
    {
      assert (seen + cs)[|seen| + j] == cs[j] && (seen + cs)[|seen| + k] == cs[k];
    }
    OwnOrderly(token, cs);
  }

  lemma {:induction false} OwnOrderly(token: nat, cs: seq<Cqe>)
    requires NoneFollows(cs)
    ensures Orderly(Own(token, cs))
    decreases |cs|
  {
    hide HangsUp;
    if cs != [] {
      assert NoneFollows(cs[1..]);
      OwnOrderly(token, cs[1..]);
      if cs[0].token == token && HangsUp(cs[0]) {
        forall c <- cs[1..] ensures c.token != token {
          var k :| 0 <= k < |cs[1..]| && cs[1..][k] == c;
          assert cs[k + 1] == c;
        }
        OwnAll(token, cs[1..]);
      }
    }
  }

  lemma DispatchKeepsNoLeak(before: Table, after: Table, generations: seq<nat>, cs: seq<Cqe>)
    requires SlotsOk(before, generations) && AllIsolated(before, after, cs) && NoLeaks(before)
    requires forall c <- cs :: !Leaky(c)
    ensures NoLeaks(after)
  {
    hide Healthy, Fold, Run, Own, Leaky, EncodeConnToken;
    forall h | At(after, h).Some?
      ensures !At(after, h).value.conn.leaked
    {
      var i := h.connId;
      assert Isolated(before[i], after[i], cs);
      var b := before[i].value;
      assert At(before, h) == before[i];
      OwnSubset(b.identity.Token(), cs);
      FoldKeepsNoLeak(b.setup, b.conn, Own(b.identity.Token(), cs));
    }
  }

  lemma SubmitKeepsNoLeak(before: Table, after: Table, outcome: nat -> SubmitOutcome)
    requires SameShape(before, after) && NoLeaks(before)
    requires forall i :: 0 <= i < |after| && after[i].Some? ==>
               after[i].value.conn == Submit(before[i].value.conn, outcome(i))
    ensures NoLeaks(after)
  {
    forall h | At(after, h).Some?
      ensures !At(after, h).value.conn.leaked
    {
      assert At(before, h) == before[h.connId];
    }
  }

  lemma CloseKeepsNoLeak(before: Table, h: Handle, accepted: bool)
    requires At(before, h).Some? && NoLeaks(before)
    ensures var s := At(before, h).value;
            NoLeaks(before[h.connId := Some(s.(conn := InitiateClose(s.conn, accepted).conn))])
  {
    var s := At(before, h).value;
    var after := before[h.connId := Some(s.(conn := InitiateClose(s.conn, accepted).conn))];
    forall g | At(after, g).Some?
      ensures !At(after, g).value.conn.leaked
    {
      assert At(before, g) == before[g.connId];
    }
  }

  function Members(s: seq<Handle>): (r: set<Handle>) {
    set h <- s
  }

  // ---- buffer groups over a run --------------------------------------------------------------

  /**
   A group is given to a connection; its ring stays registered because unregistering failed; or its ring
   stays registered because it was left behind on connect.
   */
  datatype GroupEvent = Given(bgid: nat) | Kept(bgid: nat) | LeftBehind(bgid: nat)

  /** What taking a connection out means for its group. */
  function Leaving(conn: Conn, bgid: nat, unregisterOk: bool): (events: seq<GroupEvent>) {
    if conn.leaked then [LeftBehind(bgid)]
    else if conn.hasRing && !unregisterOk then [Kept(bgid)]
    else []
  }

  function GivenIn(events: seq<GroupEvent>): (bgids: seq<nat>) {
    if events == [] then []
    else
      var last := events[|events| - 1];
      GivenIn(events[..|events| - 1]) + if last.Given? then [last.bgid] else []
  }

  /** The groups under which the kernel keeps a ring that no connection holds. */
  function StillRegistered(events: seq<GroupEvent>): (bgids: set<nat>) {
    set e <- events | !e.Given? :: e.bgid
  }

  /** A group whose ring could not be unregistered is never given out again. */
  predicate NeverGivenAgain(events: seq<GroupEvent>) {
    forall i, j :: 0 <= i < j < |events| && events[i].Kept? ==> events[j] != Given(events[i].bgid)
  }

  ghost predicate KeptAreLost(events: seq<GroupEvent>, bgids: seq<BgidState>) {
    forall e <- events :: e.Kept? ==> e.bgid < |bgids| && bgids[e.bgid].Lost?
  }

  ghost predicate GivenWereNotLost(events: seq<GroupEvent>, bgids: seq<BgidState>) {
    forall e <- events :: e.Given? && e.bgid < |bgids| ==> !bgids[e.bgid].Lost?
  }

  ghost predicate LostStays(before: seq<BgidState>, after: seq<BgidState>) {
    |before| <= |after| && forall b :: 0 <= b < |before| && before[b].Lost? ==> after[b].Lost?
  }

  lemma EventsOn(before: seq<BgidState>, after: seq<BgidState>, events: seq<GroupEvent>, more: seq<GroupEvent>)
    requires NeverGivenAgain(events) && KeptAreLost(events, before) && NeverGivenAgain(more)
    requires GivenWereNotLost(more, before) && KeptAreLost(more, after) && LostStays(before, after)
    ensures NeverGivenAgain(events + more) && KeptAreLost(events + more, after)
    ensures StillRegistered(events + more) == StillRegistered(events) + StillRegistered(more)
  {
    var all := events + more;
    forall i, j | 0 <= i < j < |all| && all[i].Kept?
      ensures all[j] != Given(all[i].bgid)
    {
      if i < |events| <= j {
        assert all[i] in events && all[j] in more;
      } else if j < |events| {
        assert events[i] == all[i] && events[j] == all[j];
      } else {
        assert more[i - |events|] == all[i] && more[j - |events|] == all[j];
      }
    }
  }

  lemma {:induction false} GivenAppend(a: seq<GroupEvent>, b: seq<GroupEvent>)
    ensures GivenIn(a + b) == GivenIn(a) + GivenIn(b)
    decreases |b|
  {
    if b == [] {
      assert a + b == a;
    } else {
      var n := |b| - 1;
      assert (a + b)[..|a + b| - 1] == a + b[..n] && (a + b)[|a + b| - 1] == b[n];
      GivenAppend(a, b[..n]);
      Associative(GivenIn(a), GivenIn(b[..n]), if b[n].Given? then [b[n].bgid] else []);
    }
  }

  // ---- tables over a run -----------------------------------------------------------------------

  /** What a call makes of the table; lists of completions that the kernel could not post are passed over. */
  ghost predicate Follows(before: Table, after: Table, call: Call) {
    match call
    case Completions(cs, minGroup) =>
      minGroup > 0 && after == if Expected(before, cs) then Walk(before, cs, minGroup).conns else before
    case Submissions(submit) =>
      && SameShape(before, after)
      && (forall i :: 0 <= i < |after| && after[i].Some? ==>
            after[i].value.conn == Submit(before[i].value.conn, submit(i)))
    case CloseConn(h, accepted) =>
      after == (if At(before, h).Some? then
                  var s := At(before, h).value;
                  before[h.connId := Some(s.(conn := InitiateClose(s.conn, accepted).conn))]
                else before)
    case _ => forall h :: At(after, h).Some? ==> At(after, h) == At(before, h) || At(after, h).value.conn == FRESH
  }

  /** How often a call handles a completion for a connection that is Closed while its client is open. */
  function RevivedBy(before: Table, call: Call): (n: nat)
    requires call.Sensible()
  {
    if call.Completions? && Expected(before, call.cs) then Walk(before, call.cs, call.minGroup).revived else 0
  }

  ghost function RevivedInRun(tables: seq<Table>, calls: seq<Call>): (n: nat)
    requires |calls| <= |tables| && forall call <- calls :: call.Sensible()
  {
    if calls == [] then 0
    else
      var k := |calls| - 1;
      RevivedInRun(tables[..k], calls[..k]) + RevivedBy(tables[k], calls[k])
  }

  lemma RevivedStep(tables: seq<Table>, calls: seq<Call>, i: nat, next: Table)
    requires i < |calls| && |tables| == i + 1 && forall call <- calls :: call.Sensible()
    ensures RevivedInRun(tables + [next], calls[..i + 1])
         == RevivedInRun(tables, calls[..i]) + RevivedBy(tables[i], calls[i])
  {
    hide RevivedBy;
    assert calls[..i + 1][..i] == calls[..i];
    assert (tables + [next])[..i] == tables[..i];
    RevivedPrefix(tables, calls[..i]);
  }

  lemma RevivedPrefix(tables: seq<Table>, calls: seq<Call>)
    requires |calls| <= |tables| && forall call <- calls :: call.Sensible()
    ensures RevivedInRun(tables[..|calls|], calls) == RevivedInRun(tables, calls)
  {
    hide RevivedBy;
    if calls != [] {
      assert tables[..|calls|][..|calls| - 1] == tables[..|calls| - 1];
    }
  }

  /** The identities in a table were there before, or belong to a handle just issued. */
  ghost predicate SameIdentities(before: Table, after: Table, issued: seq<Handle>, given: seq<nat>) {
    forall h :: At(after, h).Some? ==>
      || (h !in issued && At(before, h).Some? && At(before, h).value.identity == At(after, h).value.identity)
      || (issued == [h] && given == [At(after, h).value.identity.bgid])
  }

  lemma SameTable(conns: Table)
    ensures SameIdentities(conns, conns, [], [])
  {
  }

  lemma DispatchIdentities(before: Table, after: Table, cs: seq<Cqe>)
    requires AllIsolated(before, after, cs)
    ensures SameIdentities(before, after, [], [])
  {
    hide Isolated;
    forall h | At(after, h).Some?
      ensures At(before, h).Some? && At(before, h).value.identity == At(after, h).value.identity
    {
      IsolatedSame(before[h.connId], after[h.connId], cs);
    }
  }

  lemma ShapeIdentities(before: Table, after: Table)
    requires SameShape(before, after)
    ensures SameIdentities(before, after, [], [])
  {
  }

  /** One call. */
  method Apply(pool: Pool, call: Call)
    returns (handles: seq<Handle>, removed: seq<Handle>, events: seq<GroupEvent>)
    requires pool.Valid() && pool.Reserving(None, None) && call.Sensible()
    modifies pool
    ensures pool.Valid() && pool.Reserving(None, None)
    ensures pool.issued == old(pool.issued) + handles
    ensures pool.retired == old(pool.retired) + Members(removed)
    ensures Follows(old(pool.conns), pool.conns, call)
    ensures pool.reopened == old(pool.reopened) + RevivedBy(old(pool.conns), call)
    ensures call.Completions? && Expected(old(pool.conns), call.cs) && AllCountable(old(pool.conns), call.cs) ==>
              pool.reopened == old(pool.reopened) + TableRevivals(old(pool.conns), call.cs)
    ensures call.Submits() ==> Afloat(old(pool.conns), pool.conns, call.Posts())
    ensures old(NoLeaks(pool.conns) && pool.SafeReuse()) && call.Clean() ==> NoLeaks(pool.conns) && pool.SafeReuse()
    ensures pool.stuck == old(pool.stuck) + StillRegistered(events) && LostStays(old(pool.bgids), pool.bgids)
    ensures NeverGivenAgain(events) && KeptAreLost(events, pool.bgids) && GivenWereNotLost(events, old(pool.bgids))
    ensures SameIdentities(old(pool.conns), pool.conns, handles, GivenIn(events)) && |GivenIn(events)| == |handles|
    ensures call.Taken().Some? && At(old(pool.conns), call.Taken().value).Some? ==>
              var s := At(old(pool.conns), call.Taken().value).value;
              Leaving(s.conn, s.identity.bgid, call.unregisterOk) <= events
    ensures old(NoLeaks(pool.conns)) ==> forall e <- events :: !e.LeftBehind?
  {
    hide TablesOk, SlotsOk, At, Expected, AllIsolated, Pool.Valid, OnlyReserved, NeverReused, SameShape, Leaky,
      Submit, InitiateClose, Stranded, Blamed, EncodeConnToken, Afloat, AllCountable, TableRevivals, Walk,
      SameIdentities, GivenIn, NeverGivenAgain, KeptAreLost, GivenWereNotLost, StillRegistered, LostStays;
    FreshAfloat(pool.conns, pool.conns, call.Posts());
    SameTable(pool.conns);
    NoEvents(pool.bgids);
    handles, removed, events := [], [], [];
    match call {
      case Join(setup, outcome) => handles, events := ApplyJoin(pool, setup, outcome);
      case Remove(handle, unregisterOk) => removed, events := ApplyRemove(pool, handle, unregisterOk);
      case Rejoin(handle, setup, unregisterOk, outcome) =>
        handles, removed, events := ApplyRejoin(pool, handle, setup, unregisterOk, outcome);
      case Completions(cs, minGroup) =>
        if Expected(pool.conns, cs) {
          pool.Dispatch(cs, minGroup);
          DispatchAfloat(old(pool.conns), pool.conns, old(pool.generations), cs);
          DispatchIdentities(old(pool.conns), pool.conns, cs);
          if old(NoLeaks(pool.conns)) && call.Clean() {
            DispatchKeepsNoLeak(old(pool.conns), pool.conns, old(pool.generations), cs);
          }
        }
      case Submissions(submit) =>
        pool.SubmitConnOps(submit);
        ShapeIdentities(old(pool.conns), pool.conns);
        if old(NoLeaks(pool.conns)) {
          SubmitKeepsNoLeak(old(pool.conns), pool.conns, submit);
        }
        if call.Submits() {
          SubmitAfloat(old(pool.conns), pool.conns, submit);
        }
      case CloseConn(handle, accepted) => ApplyClose(pool, handle, accepted);
    }
  }

  lemma NoEvents(bgids: seq<BgidState>)
    ensures NeverGivenAgain([]) && KeptAreLost([], bgids) && GivenWereNotLost([], bgids) && LostStays(bgids, bgids)
    ensures GivenIn([]) == [] && StillRegistered([]) == {}
  {
  }

  method ApplyJoin(pool: Pool, setup: Setup, outcome: ConnectOutcome)
    returns (handles: seq<Handle>, events: seq<GroupEvent>)
    requires pool.Valid() && pool.Reserving(None, None) && setup.Valid()
    modifies pool
    ensures pool.Valid() && pool.Reserving(None, None)
    ensures pool.issued == old(pool.issued) + handles && pool.retired == old(pool.retired)
    ensures Follows(old(pool.conns), pool.conns, Join(setup, outcome)) && pool.reopened == old(pool.reopened)
    ensures Afloat(old(pool.conns), pool.conns, [])
    ensures old(NoLeaks(pool.conns) && pool.SafeReuse()) ==> NoLeaks(pool.conns) && pool.SafeReuse()
    ensures pool.stuck == old(pool.stuck) + StillRegistered(events) && LostStays(old(pool.bgids), pool.bgids)
    ensures NeverGivenAgain(events) && KeptAreLost(events, pool.bgids) && GivenWereNotLost(events, old(pool.bgids))
    ensures forall e <- events :: e.Given?
    ensures SameIdentities(old(pool.conns), pool.conns, handles, GivenIn(events)) && |GivenIn(events)| == |handles|
  {
    hide TablesOk, SlotsOk, At, Pool.Valid, OnlyReserved, NeverReused, Afloat, EncodeConnToken, Stranded, Blamed;
    handles, events := [], [];
    NoEvents(pool.bgids);
    var r := pool.SubmitConnect(setup, outcome);
    FreshAfloat(old(pool.conns), pool.conns, []);
    if r.Issued? {
      handles, events := [r.handle], [Given(At(pool.conns, r.handle).value.identity.bgid)];
      OnlyGiven(events[0].bgid);
      JoinedIdentities(old(pool.conns), pool.conns, r.handle);
    } else {
      JoinedNobody(old(pool.conns), pool.conns);
    }
  }

  lemma OnlyGiven(b: nat)
    ensures GivenIn([Given(b)]) == [b] && StillRegistered([Given(b)]) == {}
  {
    assert [Given(b)][..0] == [];
  }

  lemma JoinedIdentities(before: Table, after: Table, issued: Handle)
    requires At(after, issued).Some?
    requires forall h :: h != issued && At(after, h).Some? ==> At(after, h) == At(before, h)
    ensures SameIdentities(before, after, [issued], [At(after, issued).value.identity.bgid])
  {
    hide At;
  }

  lemma JoinedNobody(before: Table, after: Table)
    requires forall h :: At(after, h).Some? ==> At(after, h) == At(before, h)
    ensures SameIdentities(before, after, [], [])
  {
    hide At;
  }

  method ApplyRemove(pool: Pool, handle: Handle, unregisterOk: bool)
    returns (removed: seq<Handle>, events: seq<GroupEvent>)
    requires pool.Valid() && pool.Reserving(None, None)
    modifies pool
    ensures pool.Valid() && pool.Reserving(None, None)
    ensures pool.issued == old(pool.issued) && pool.retired == old(pool.retired) + Members(removed)
    ensures Follows(old(pool.conns), pool.conns, Remove(handle, unregisterOk)) && pool.reopened == old(pool.reopened)
    ensures Afloat(old(pool.conns), pool.conns, [])
    ensures old(NoLeaks(pool.conns) && pool.SafeReuse()) ==> NoLeaks(pool.conns) && pool.SafeReuse()
    ensures pool.stuck == old(pool.stuck) + StillRegistered(events) && LostStays(old(pool.bgids), pool.bgids)
    ensures NeverGivenAgain(events) && KeptAreLost(events, pool.bgids) && GivenWereNotLost(events, old(pool.bgids))
    ensures SameIdentities(old(pool.conns), pool.conns, [], GivenIn(events)) && GivenIn(events) == []
    ensures At(old(pool.conns), handle).Some? ==>
              var s := At(old(pool.conns), handle).value;
              events == Leaving(s.conn, s.identity.bgid, unregisterOk)
    ensures old(NoLeaks(pool.conns)) ==> forall e <- events :: !e.LeftBehind?
  {
    hide TablesOk, SlotsOk, At, Pool.Valid, OnlyReserved, NeverReused, Afloat, EncodeConnToken, Stranded, Blamed,
      SameIdentities, GivenIn, StillRegistered;
    var found := At(pool.conns, handle);
    removed, events := [], [];
    NoEvents(pool.bgids);
    if found.Some? {
      RingOrLeak(pool, handle);
      LeavingEvents(found.value.conn, found.value.identity.bgid, unregisterOk);
      events := Leaving(found.value.conn, found.value.identity.bgid, unregisterOk);
    }
    var ok := pool.RemoveConn(handle, unregisterOk);
    FreshAfloat(old(pool.conns), pool.conns, []);
    JoinedNobody(old(pool.conns), pool.conns);
    if ok {
      removed := [handle];
    }
  }

  lemma LeavingEvents(conn: Conn, b: nat, unregisterOk: bool)
    requires conn.leaked ==> !conn.hasRing
    ensures var events := Leaving(conn, b, unregisterOk);
            && GivenIn(events) == [] && NeverGivenAgain(events)
            && StillRegistered(events) == (if conn.leaked || (conn.hasRing && !unregisterOk) then {b} else {})
            && (forall e <- events :: e.bgid == b && !e.Given? && (e.Kept? ==> conn.hasRing && !unregisterOk))
  {
    var events := Leaving(conn, b, unregisterOk);
    if events != [] {
      assert events[..0] == [];
      assert GivenIn(events) == GivenIn([]) + [];
      assert events[0] in events;
    }
  }

  lemma RingOrLeak(pool: Pool, h: Handle)
    requires pool.Valid() && At(pool.conns, h).Some?
    ensures At(pool.conns, h).value.conn.leaked ==> !At(pool.conns, h).value.conn.hasRing
    ensures var b := At(pool.conns, h).value.identity.bgid; b < |pool.bgids| && pool.bgids[b].Held?
  {
    pool.HeldFacts(h.connId);
  }

  method ApplyRejoin(pool: Pool, handle: Handle, setup: Setup, unregisterOk: bool, outcome: ConnectOutcome)
    returns (handles: seq<Handle>, removed: seq<Handle>, events: seq<GroupEvent>)
    requires pool.Valid() && pool.Reserving(None, None) && setup.Valid()
    modifies pool
    ensures pool.Valid() && pool.Reserving(None, None)
    ensures pool.issued == old(pool.issued) + handles && pool.retired == old(pool.retired) + Members(removed)
    ensures Follows(old(pool.conns), pool.conns, Rejoin(handle, setup, unregisterOk, outcome))
    ensures pool.reopened == old(pool.reopened) && Afloat(old(pool.conns), pool.conns, [])
    ensures old(NoLeaks(pool.conns) && pool.SafeReuse()) ==> NoLeaks(pool.conns) && pool.SafeReuse()
    ensures pool.stuck == old(pool.stuck) + StillRegistered(events) && LostStays(old(pool.bgids), pool.bgids)
    ensures NeverGivenAgain(events) && KeptAreLost(events, pool.bgids) && GivenWereNotLost(events, old(pool.bgids))
    ensures SameIdentities(old(pool.conns), pool.conns, handles, GivenIn(events)) && |GivenIn(events)| == |handles|
    ensures At(old(pool.conns), handle).Some? ==>
              var s := At(old(pool.conns), handle).value;
              Leaving(s.conn, s.identity.bgid, unregisterOk) <= events
    ensures old(NoLeaks(pool.conns)) ==> forall e <- events :: !e.LeftBehind?
  {
    hide TablesOk, SlotsOk, At, Pool.Valid, OnlyReserved, NeverReused, Afloat, EncodeConnToken, Stranded, Blamed,
      SameIdentities, GivenIn, StillRegistered;
    var found := At(pool.conns, handle);
    handles, removed, events := [], [], [];
    NoEvents(pool.bgids);
    if found.Some? {
      RingOrLeak(pool, handle);
      LeavingEvents(found.value.conn, found.value.identity.bgid, unregisterOk);
      events := Leaving(found.value.conn, found.value.identity.bgid, unregisterOk);
    }
    var ok, r := pool.SubmitReconnect(handle, setup, unregisterOk, outcome);
    FreshAfloat(old(pool.conns), pool.conns, []);
    if ok {
      removed := [handle];
    }
    if ok && r.Issued? {
      var b := At(pool.conns, r.handle).value.identity.bgid;
      JoinedIdentities(old(pool.conns), pool.conns, r.handle);
      OnlyGiven(b);
      GivenAppend(events, [Given(b)]);
      assert GivenIn(events) + [b] == [b];
      RegisteredAppend(events, [Given(b)]);
      handles, events := [r.handle], events + [Given(b)];
    } else {
      JoinedNobody(old(pool.conns), pool.conns);
    }
  }

  lemma RegisteredAppend(a: seq<GroupEvent>, b: seq<GroupEvent>)
    ensures StillRegistered(a + b) == StillRegistered(a) + StillRegistered(b)
  {
  }

  method ApplyClose(pool: Pool, handle: Handle, accepted: bool)
    requires pool.Valid()
    modifies pool`conns
    ensures pool.Valid() && Follows(old(pool.conns), pool.conns, CloseConn(handle, accepted))
    ensures Afloat(old(pool.conns), pool.conns, [])
    ensures old(NoLeaks(pool.conns)) ==> NoLeaks(pool.conns)
    ensures SameIdentities(old(pool.conns), pool.conns, [], [])
  {
    hide TablesOk, SlotsOk, Pool.Valid, Afloat, InitiateClose, Stranded;
    FreshAfloat(pool.conns, pool.conns, []);
    if NoLeaks(pool.conns) && At(pool.conns, handle).Some? {
      CloseKeepsNoLeak(pool.conns, handle, accepted);
    }
    if At(pool.conns, handle).Some? {
      CloseAfloat(pool.conns, handle, accepted);
    }
    var _ := pool.BeginClose(handle, accepted);
  }

  /**
   Any run of a pool, with the table before each call and after the last. Handles are issued once each; a
   handle that was removed stands for nothing ever after and completions carrying its token reach nobody;
   all others stand for a connection. A group whose ring could not be unregistered is never given out
   again; nor is any group under which the kernel keeps a ring, unless one was left behind on connect. The
   count falls short by no more than the completions handled for connections that are Closed while their
   clients are open, so it is exact when there is none; an orderly run has none.
   */
  method PoolSession(calls: seq<Call>)
    returns (
      handles: seq<Handle>, removed: seq<Handle>, events: seq<GroupEvent>, ghost tables: seq<Table>, ghost pool: Pool)
    requires forall call <- calls :: call.Sensible()
    ensures pool.Valid() && NoDuplicates(handles)
    ensures forall h <- removed :: h in handles && At(pool.conns, h).None? && ConnFor(pool.conns, h.Token()).None?
    ensures forall h <- handles :: h in removed || At(pool.conns, h).Some?
    ensures forall h :: At(pool.conns, h).Some? ==> h in handles
    ensures |tables| == |calls| + 1 && tables[0] == [] && tables[|calls|] == pool.conns
    ensures forall k :: 0 <= k < |calls| ==> Follows(tables[k], tables[k + 1], calls[k])
    ensures NeverGivenAgain(events) && pool.stuck == StillRegistered(events)
    ensures |GivenIn(events)| == |handles| && GroupsGiven(pool.conns, handles, GivenIn(events))
    ensures forall k :: 0 <= k < |calls| ==> Recorded(tables[k], calls[k], events)
    ensures (forall call <- calls :: call.Clean()) ==> pool.SafeReuse() && forall e <- events :: !e.LeftBehind?
    ensures pool.reopened == RevivedInRun(tables, calls)
    ensures pool.activeCount <= Live(pool.conns) <= pool.activeCount + pool.reopened
    ensures RevivedInRun(tables, calls) == 0 ==> pool.activeCount == Live(pool.conns)
    ensures OrderlyRun(calls) ==> RevivedInRun(tables, calls) == 0
  {
    hide TablesOk, SlotsOk, At, Pool.Valid, OnlyReserved, NeverReused, ConnFor, EncodeConnToken, Live, Afloat, Blamed,
      OrderlyRun, AllPosts, Expected, AllCountable, TableRevivals, Stranded, Walk, Follows, SameIdentities, GivenIn,
      StillRegistered, RevivedBy, RevivedInRun, NeverGivenAgain, Recorded, GroupsGiven, Leaving;
    var p := new Pool();
    EmptyNoLeaks();
    NobodyBlamed(AllPosts(calls[..0]));
    NoEvents(p.bgids);
    NobodyHasGroups(p.conns);
    handles, removed, events, tables := [], [], [], [p.conns];
    NothingRevived(tables, calls);
    for i := 0 to |calls|
      invariant fresh(p) && p.Valid() && p.Reserving(None, None)
      invariant p.issued == handles && p.retired == Members(removed)
      invariant |tables| == i + 1 && tables[0] == [] && tables[i] == p.conns
      invariant forall k :: 0 <= k < i ==> Follows(tables[k], tables[k + 1], calls[k])
      invariant forall k :: 0 <= k < i ==> Recorded(tables[k], calls[k], events)
      invariant p.reopened == RevivedInRun(tables, calls[..i])
      invariant NeverGivenAgain(events) && KeptAreLost(events, p.bgids) && p.stuck == StillRegistered(events)
      invariant |GivenIn(events)| == |handles| && GroupsGiven(p.conns, handles, GivenIn(events))
      invariant (forall call <- calls[..i] :: call.Clean()) ==>
                  NoLeaks(p.conns) && p.SafeReuse() && forall e <- events :: !e.LeftBehind?
      invariant OrderlyRun(calls) ==> p.reopened == 0 && AllBlamed(p.conns, AllPosts(calls[..i]))
    {
      assert calls[..i + 1] == calls[..i] + [calls[i]];
      ghost var before, bgids := p.conns, p.bgids;
      if OrderlyRun(calls) {
        OrderlyCall(p, calls, i);
      }
      var more, gone, news := Apply(p, calls[i]);
      if OrderlyRun(calls) {
        BlameOn(before, p.conns, calls, i);
      }
      RevivedStep(tables, calls, i, p.conns);
      EventsOn(bgids, p.bgids, events, news);
      GivenAppend(events, news);
      FreshHandles(p, handles, more);
      GroupsOn(before, p.conns, handles, GivenIn(events), more, GivenIn(news));
      RecordedStep(tables, calls, i, events, news);
      handles, removed, events, tables := handles + more, removed + gone, events + news, tables + [p.conns];
    }
    pool := p;
    assert calls[..|calls|] == calls;
    Books(p);
    forall h ensures h in handles <==> h in Members(removed) || At(p.conns, h).Some? {
      p.HandlesAreLiveOrRetired(h);
    }
    forall h <- removed ensures At(p.conns, h).None? && ConnFor(p.conns, h.Token()).None? {
      assert h in Members(removed);
      p.RetiredForEver(h);
    }
  }

  /** Every live handle's connection has the group that was given with it. */
  ghost predicate GroupsGiven(conns: Table, handles: seq<Handle>, given: seq<nat>) {
    |given| == |handles| && forall k :: 0 <= k < |handles| && At(conns, handles[k]).Some? ==>
      At(conns, handles[k]).value.identity.bgid == given[k]
  }

  /** A ring that could not be unregistered, or was left behind, is among the events. */
  ghost predicate Recorded(before: Table, call: Call, events: seq<GroupEvent>) {
    call.Taken().Some? && At(before, call.Taken().value).Some? ==>
      var s := At(before, call.Taken().value).value;
      forall e <- Leaving(s.conn, s.identity.bgid, call.unregisterOk) :: e in events
  }

  lemma RecordedStep(tables: seq<Table>, calls: seq<Call>, i: nat, events: seq<GroupEvent>, news: seq<GroupEvent>)
    requires i < |calls| && |tables| == i + 1
    requires forall k :: 0 <= k < i ==> Recorded(tables[k], calls[k], events)
    requires calls[i].Taken().Some? && At(tables[i], calls[i].Taken().value).Some? ==>
               var s := At(tables[i], calls[i].Taken().value).value;
               Leaving(s.conn, s.identity.bgid, calls[i].unregisterOk) <= news
    ensures forall k :: 0 <= k <= i ==> Recorded(tables[k], calls[k], events + news)
  {
    hide At, Leaving;
    forall k | 0 <= k < i
      ensures Recorded(tables[k], calls[k], events + news)
    {
      assert Recorded(tables[k], calls[k], events);
    }
    if calls[i].Taken().Some? && At(tables[i], calls[i].Taken().value).Some? {
      var s := At(tables[i], calls[i].Taken().value).value;
      var left := Leaving(s.conn, s.identity.bgid, calls[i].unregisterOk);
      forall e <- left ensures e in events + news {
        assert left == news[..|left|];
      }
    }
  }

  lemma NobodyHasGroups(conns: Table)
    ensures GroupsGiven(conns, [], [])
  {
  }

  lemma NothingRevived(tables: seq<Table>, calls: seq<Call>)
    requires forall call <- calls :: call.Sensible()
    ensures RevivedInRun(tables, calls[..0]) == 0
  {
  }

  lemma FreshHandles(p: Pool, handles: seq<Handle>, more: seq<Handle>)
    requires p.Valid() && p.issued == handles + more
    ensures forall h <- more :: h !in handles
  {
    hide SlotsOk, IdsOk, BgidsOk, CountOk;
    forall h <- more ensures h !in handles {
      var j :| 0 <= j < |more| && more[j] == h;
      assert p.issued[|handles| + j] == h;
      forall k | 0 <= k < |handles| ensures handles[k] != h {
        assert p.issued[k] == handles[k];
      }
    }
  }

  lemma GroupsOn(
      before: Table, after: Table, handles: seq<Handle>, given: seq<nat>, more: seq<Handle>, news: seq<nat>)
    requires GroupsGiven(before, handles, given) && SameIdentities(before, after, more, news) && |news| == |more|
    requires forall h <- more :: h !in handles
    ensures GroupsGiven(after, handles + more, given + news)
  {
    hide At;
    forall k | 0 <= k < |handles + more| && At(after, (handles + more)[k]).Some?
      ensures At(after, (handles + more)[k]).value.identity.bgid == (given + news)[k]
    {
      var h := (handles + more)[k];
      if k >= |handles| {
        assert h in more;
      } else {
        assert h in handles;
      }
    }
  }

  /** Whoever is stranded has a completion to thank for it. */
  ghost predicate AllBlamed(conns: Table, seen: seq<Cqe>) {
    forall h :: At(conns, h).Some? && Stranded(At(conns, h).value.conn) ==> Blamed(h.Token(), seen)
  }

  lemma NobodyBlamed(seen: seq<Cqe>)
    ensures AllBlamed([], seen)
  {
  }

  lemma OrderlyCall(p: Pool, calls: seq<Call>, i: nat)
    requires p.Valid() && i < |calls| && OrderlyRun(calls) && AllBlamed(p.conns, AllPosts(calls[..i]))
    ensures calls[i].Submits()
    ensures calls[i].Completions? && Expected(p.conns, calls[i].cs) ==>
              AllCountable(p.conns, calls[i].cs) && TableRevivals(p.conns, calls[i].cs) == 0
    ensures calls[i].Sensible() && !(calls[i].Completions? && Expected(p.conns, calls[i].cs)) ==>
              RevivedBy(p.conns, calls[i]) == 0
  {
    hide TablesOk, SlotsOk, At, HangsUp, AllCountable, TableRevivals, Expected, Stranded, Blamed, EncodeConnToken;
    assert calls[i] in calls;
    var seen, cs := AllPosts(calls[..i]), calls[i].Posts();
    PostsStep(calls, i);
    PostsPrefix(calls, i + 1);
    assert NoneFollows(seen + cs);
    if calls[i].Completions? && Expected(p.conns, cs) {
      OrderlyList(p.conns, p.generations, seen, cs);
    }
  }

  lemma PostsStep(calls: seq<Call>, i: nat)
    requires i < |calls|
    ensures AllPosts(calls[..i + 1]) == AllPosts(calls[..i]) + calls[i].Posts()
  {
    assert calls[..i + 1][..i] == calls[..i];
  }

  lemma BlameOn(before: Table, after: Table, calls: seq<Call>, i: nat)
    requires i < |calls| && AllBlamed(before, AllPosts(calls[..i])) && Afloat(before, after, calls[i].Posts())
    ensures AllBlamed(after, AllPosts(calls[..i + 1]))
  {
    hide At, HangsUp, Stranded, Blamed, EncodeConnToken, AllPosts;
    PostsStep(calls, i);
    var seen, cs := AllPosts(calls[..i]), calls[i].Posts();
    forall h | At(after, h).Some? && Stranded(At(after, h).value.conn)
      ensures Blamed(h.Token(), seen + cs)
    {
      BlamedMore(h.Token(), seen, cs);
    }
  }

  lemma BlamedMore(token: nat, a: seq<Cqe>, b: seq<Cqe>)
    ensures Blamed(token, a) || Blamed(token, b) ==> Blamed(token, a + b)
  {
    hide HangsUp;
    if Blamed(token, a) {
      var j :| 0 <= j < |a| && HangsUp(a[j]) && a[j].token == token;
      assert (a + b)[j] == a[j];
    } else if Blamed(token, b) {
      var j :| 0 <= j < |b| && HangsUp(b[j]) && b[j].token == token;
      assert (a + b)[|a| + j] == b[j];
    }
  }

  lemma Books(p: Pool)
    requires p.Valid()
    ensures NoDuplicates(p.issued) && p.activeCount <= Live(p.conns) <= p.activeCount + p.reopened
  {
    hide SlotsOk, IdsOk, BgidsOk;
  }

  // ---- a run in which the count falls short --------------------------------------------------

  /** An upgrade response without headers. */
  const RESPONSE: bytes := [13, 10, 13, 10]

  const NO_RING := RingSetup(true, true, true)

  function Connected(token: nat): (c: Cqe) { Cqe(token, Some(Connect), 0, None, false, [], TLS_NONE, NO_RING) }

  function Upgraded(token: nat): (c: Cqe) { Cqe(token, Some(Recv), 4, Some(0), true, [RESPONSE], TLS_NONE, NO_RING) }

  function Reset(token: nat): (c: Cqe) { Cqe(token, Some(Recv), -104, None, false, [], TLS_NONE, NO_RING) }

  function SentEarlier(token: nat): (c: Cqe) { Cqe(token, Some(Send), 1, None, false, [], TLS_NONE, NO_RING) }

  /** A plain connection that takes the response above for an upgrade. */
  predicate Trusting(setup: Setup) {
    && setup.Valid() && !setup.usesTls && setup.mode.Multishot? && setup.copyMax == 0 && setup.bufSize >= 4
    && setup.cfg.upgradeOk([])
  }

  lemma Upgrades(setup: Setup)
    requires Trusting(setup)
    ensures Run(setup.cfg, Handshaking, [] + RESPONSE) == Outcome([HandshakeComplete], Waiting, Framing(None), [])
  {
    hide Run;
    var cfg := setup.cfg;
    assert [] + RESPONSE == RESPONSE && RESPONSE[0..4] == Http.CRLF_CRLF;
    assert Http.ParseResponse(RESPONSE) == Http.Response(0);
    HandshakeOutcome(cfg, RESPONSE);
    assert RESPONSE[..0] == [] && RESPONSE[4..] == [];
    EmptyStream(cfg);
  }

  lemma EmptyStream(cfg: Config)
    ensures Run(cfg, Framing(None), []) == Outcome([], Waiting, Framing(None), [])
  {
  }

  lemma UpgradeStep(setup: Setup, conn: Conn, token: nat)
    requires Trusting(setup) && conn.hasRing && conn.driver.WsHandshake? && conn.ws == FRESH.ws
    ensures Deliverable(setup, conn, Upgraded(token))
    ensures var r := Complete(setup, conn, Upgraded(token)); r.hasRing && r.driver.Open? && r.ws.state.Open?
  {
    hide Run, HandleOne, BidsOf;
    Upgrades(setup);
    OneReceive(setup, conn, Upgraded(token));
  }

  lemma ResetStep(setup: Setup, conn: Conn, token: nat)
    requires setup.Valid() && conn.hasRing && conn.driver.Open? && conn.ws.state.Open?
    ensures Deliverable(setup, conn, Reset(token))
    ensures var r := Complete(setup, conn, Reset(token)); r.hasRing && Stranded(r)
  {
    hide IngestAll, BidsOf;
  }

  lemma LateStep(setup: Setup, conn: Conn, token: nat)
    requires setup.Valid() && conn.hasRing && Stranded(conn)
    ensures Deliverable(setup, conn, SentEarlier(token)) && Revives(conn, SentEarlier(token))
    ensures Complete(setup, conn, SentEarlier(token)).driver.Open?
  {
  }

  function Story(token: nat): (cs: seq<Cqe>) { [Connected(token), Upgraded(token), Reset(token)] }

  /** Connected, upgraded, reset: the driver has given up and the client has not. */
  lemma Stranding(setup: Setup, token: nat)
    requires Trusting(setup)
    ensures Posted(setup, FRESH, Story(token))
    ensures var r := Fold(setup, FRESH, Story(token)); Stranded(r) && r.hasRing
  {
    hide Complete, Deliverable, Fold, Posted, Connected, Upgraded, Reset;
    var a := FRESH.(hasRing := true, armed := true, driver := Driver.WsHandshake);
    ConnectStep(setup, token);
    var b := Complete(setup, a, Upgraded(token));
    UpgradeStep(setup, a, token);
    ResetStep(setup, b, token);
    NoStep(setup, Complete(setup, b, Reset(token)));
    OneStep(setup, b, Reset(token), []);
    OneStep(setup, a, Upgraded(token), [Reset(token)]);
    OneStep(setup, FRESH, Connected(token), [Upgraded(token), Reset(token)]);
    assert [Reset(token)] == [Reset(token)] + [];
    assert [Upgraded(token), Reset(token)] == [Upgraded(token)] + [Reset(token)];
    assert Story(token) == [Connected(token)] + [Upgraded(token), Reset(token)];
  }

  lemma NoStep(setup: Setup, conn: Conn)
    requires setup.Valid()
    ensures Fold(setup, conn, []) == conn && Posted(setup, conn, [])
  {
  }

  lemma OneStep(setup: Setup, conn: Conn, c: Cqe, rest: seq<Cqe>)
    requires setup.Valid()
    ensures Fold(setup, conn, [c] + rest) == Fold(setup, Complete(setup, conn, c), rest)
    ensures Posted(setup, conn, [c] + rest)
        <==> Deliverable(setup, conn, c) && Posted(setup, Complete(setup, conn, c), rest)
  {
    hide Complete, Deliverable;
    assert ([c] + rest)[0] == c && ([c] + rest)[1..] == rest;
  }

  lemma ConnectStep(setup: Setup, token: nat)
    requires Trusting(setup)
    ensures Deliverable(setup, FRESH, Connected(token))
    ensures Complete(setup, FRESH, Connected(token)) ==
            FRESH.(hasRing := true, armed := true, driver := Driver.WsHandshake)
  {
    hide IngestAll, BidsOf;
  }

  /** The only connection in the table. */
  ghost predicate Alone(conns: Table, h: Handle, setup: Setup, conn: Conn) {
    && Holds(conns, h.connId)
    && conns[h.connId].value.identity.Token() == h.Token()
    && conns[h.connId].value.setup == setup && conns[h.connId].value.conn == conn
    && (forall i: nat :: Holds(conns, i) ==> i == h.connId)
  }

  lemma StartsAlone(conns: Table, generations: seq<nat>, h: Handle, setup: Setup)
    requires SlotsOk(conns, generations) && At(conns, h).Some?
    requires At(conns, h).value.setup == setup && At(conns, h).value.conn == FRESH
    requires forall g :: g != h ==> At(conns, g) == At([], g)
    ensures Alone(conns, h, setup, FRESH)
  {
    hide Healthy, EncodeConnToken;
    forall i: nat | Holds(conns, i)
      ensures i == h.connId
    {
      var g := Handle(i, conns[i].value.identity.generation);
      assert At(conns, g).Some?;
    }
  }

  lemma AloneExpects(conns: Table, h: Handle, setup: Setup, conn: Conn, cs: seq<Cqe>)
    requires Alone(conns, h, setup, conn) && setup.Valid() && setup.copyMax == 0 && Healthy(conn)
    requires Posted(setup, conn, cs) && forall c <- cs :: c.token == h.Token()
    ensures Expected(conns, cs) && AllCountable(conns, cs)
    ensures TableRevivals(conns, cs) == Revivals(setup, conn, cs)
  {
    hide Healthy, EncodeConnToken, Posted, Revivals, Own;
    OwnAll(h.Token(), cs);
    OwnAll(h.Token(), []);
    forall k: nat | k < |conns| && k != h.connId
      ensures conns[k].None?
    {
      assert !Holds(conns, k);
    }
    NothingRevives(setup, conn);
    NobodyRevives(conns, []);
    RevivalsElsewhere(conns, h.connId, [], cs, Revivals(setup, conn, cs));
  }

  lemma AloneAfter(before: Table, after: Table, h: Handle, setup: Setup, conn: Conn, cs: seq<Cqe>)
    requires Alone(before, h, setup, conn) && AllIsolated(before, after, cs) && setup.Valid() && setup.copyMax == 0
    requires forall c <- cs :: c.token == h.Token()
    ensures Alone(after, h, setup, Fold(setup, conn, cs))
  {
    hide Healthy, EncodeConnToken, Own, Fold, Stranded, HangsUp, Twin;
    OwnAll(h.Token(), cs);
    assert Isolated(before[h.connId], after[h.connId], cs);
    forall i: nat | Holds(after, i)
      ensures i == h.connId
    {
      assert Isolated(before[i], after[i], cs);
      assert Holds(before, i);
    }
  }

  lemma AloneCounts(conns: Table, h: Handle, setup: Setup, conn: Conn)
    requires Alone(conns, h, setup, conn)
    ensures conn.driver.Closed? ==> Live(conns) == 0
    ensures !conn.driver.Closed? ==> Live(conns) > 0
  {
    hide EncodeConnToken;
    LiveWitness(conns, h.connId);
    forall i | 0 <= i < |conns| && i != h.connId
      ensures conns[i].None?
    {
      assert !Holds(conns, i);
    }
    if conn.driver.Closed? {
      NobodyLives(conns);
    }
  }

  lemma {:induction false} NobodyLives(conns: Table)
    requires forall i :: 0 <= i < |conns| ==> Weight(conns[i]) == 0
    ensures Live(conns) == 0
    decreases |conns|
  {
    if conns != [] {
      NobodyLives(conns[..|conns| - 1]);
    }
  }

  lemma StoryIsOrderly(setup: Setup, token: nat)
    requires Trusting(setup)
    ensures Healthy(FRESH) && Posted(setup, FRESH, Story(token)) && Revivals(setup, FRESH, Story(token)) == 0
    ensures forall c <- Story(token) :: c.token == token
    ensures var r := Fold(setup, FRESH, Story(token)); Stranded(r) && r.hasRing && Healthy(r)
  {
    hide Posted, Fold, Revivals;
    Stranding(setup, token);
    NeverRevived(setup, FRESH, Story(token));
    HealthyFold(setup, FRESH, Story(token));
  }

  lemma LateSend(setup: Setup, conn: Conn, token: nat)
    requires setup.Valid() && conn.hasRing && Stranded(conn)
    ensures Posted(setup, conn, [SentEarlier(token)]) && Revivals(setup, conn, [SentEarlier(token)]) == 1
    ensures Fold(setup, conn, [SentEarlier(token)]).driver.Open?
  {
    hide Complete, Deliverable, Revives;
    LateStep(setup, conn, token);
    assert [SentEarlier(token)][1..] == [];
  }

  /** A pool with one connection, which is reset and then brought back: it counts none and has one. */
  method CountFallsShort(setup: Setup) returns (ghost pool: Pool)
    requires Trusting(setup)
    ensures pool.Valid() && pool.activeCount == 0 && Live(pool.conns) > 0 && pool.reopened == 1
  {
    hide TablesOk, SlotsOk, Pool.Valid, Fold, Posted, Story, Healthy, EncodeConnToken, Live, HangsUp, Own, Revivals,
      Alone, AllIsolated, AllCountable, Expected, TableRevivals, Stranded, At, OnlyReserved, NeverReused;
    var p := new Pool();
    pool := p;
    var r := p.SubmitConnect(setup, Submitted);
    var h := r.handle;
    var token := h.Token();
    StoryIsOrderly(setup, token);
    StartsAlone(p.conns, p.generations, h, setup);
    ghost var before := p.conns;
    AloneExpects(before, h, setup, FRESH, Story(token));
    p.Dispatch(Story(token), 2);
    ghost var conn := Fold(setup, FRESH, Story(token));
    AloneAfter(before, p.conns, h, setup, FRESH, Story(token));
    GivenUp(conn);
    AloneCounts(p.conns, h, setup, conn);
    Books(p);
    LateSend(setup, conn, token);
    before := p.conns;
    AloneExpects(before, h, setup, conn, [SentEarlier(token)]);
    p.Dispatch([SentEarlier(token)], 2);
    AloneAfter(before, p.conns, h, setup, conn, [SentEarlier(token)]);
    AloneCounts(p.conns, h, setup, Fold(setup, conn, [SentEarlier(token)]));
  }

  lemma GivenUp(conn: Conn)
    requires Stranded(conn)
    ensures conn.driver.Closed?
  {
  }
}
