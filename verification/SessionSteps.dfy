/**
 The session store under concurrency (ferrotunnel-core/src/tunnel/session.rs): every map operation is one atomic
 step, and `add`, `remove` and `get_by_tunnel_id` are two steps each that others may come between. A cleanup is a
 scan followed by removals, so its steps are removals of arbitrary ids.
 */
module SessionSteps {
  import opened Seqs
  import opened Frames
  import opened Sessions

  type Caller = nat

  /**
   The store, the calls between their two steps, and the history: the tunnel id each session id was created for.
   */
  datatype Shared = Shared(
    store: Store,
    adding: map<Caller, Session>,
    removing: map<Caller, Session>,
    looking: map<Caller, (TunnelId, Uuid)>,
    made: map<Uuid, TunnelId>)

  const FRESH := Shared(EMPTY, map[], map[], map[], map[])

  datatype Event =
    /** Claim the tunnel id in the index; then insert the session. */
    | ClaimIndex(caller: Caller, s: Session)
    | InsertSession(caller: Caller)
    /** Take the session out; then remove its index entry. */
    | TakeSession(caller: Caller, id: Uuid)
    | DropIndex(caller: Caller)
    /** Read the index; then read the session. */
    | ReadIndex(caller: Caller, t: TunnelId)
    | ReadSession(caller: Caller)
    | TouchSession(id: Uuid, now: real)

  predicate Idle(c: Shared, caller: Caller) {
    caller !in c.adding && caller !in c.removing && caller !in c.looking
  }

  /** One step; an event whose turn it is not changes nothing. New sessions have ids never used before. */
  function Next(c: Shared, ev: Event): Shared {
    match ev
    case ClaimIndex(caller, s) =>
      if !Idle(c, caller) || s.id in c.made then c
      else if s.tunnelId in c.store.index then c.(made := c.made[s.id := s.tunnelId])
      else c.(store := c.store.(index := c.store.index[s.tunnelId := s.id]), adding := c.adding[caller := s],
              made := c.made[s.id := s.tunnelId])
    case InsertSession(caller) =>
      if caller !in c.adding then c
      else
        var s := c.adding[caller];
        c.(store := c.store.(sessions := c.store.sessions[s.id := s]), adding := c.adding - {caller})
    case TakeSession(caller, id) =>
      if !Idle(c, caller) || id !in c.store.sessions then c
      else
        c.(store := c.store.(sessions := c.store.sessions - {id}), removing := c.removing[caller := c.store.sessions[id]])
    case DropIndex(caller) =>
      if caller !in c.removing then c
      else
        c.(store := c.store.(index := c.store.index - {c.removing[caller].tunnelId}), removing := c.removing - {caller})
    case ReadIndex(caller, t) =>
      if !Idle(c, caller) || t !in c.store.index then c
      else c.(looking := c.looking[caller := (t, c.store.index[t])])
    case ReadSession(caller) => c.(looking := c.looking - {caller})
    case TouchSession(id, now) => c.(store := Touch(c.store, id, now))
  }

  function Run(events: seq<Event>): Shared {
    if events == [] then FRESH else Next(Run(events[..|events| - 1]), events[|events| - 1])
  }

  // ---------------------------------------------------------------------------------------------
  // The invariant
  // ---------------------------------------------------------------------------------------------

  /** Session `s` holds its tunnel id, and is not in the session map. */
  ghost predicate HoldsClaim(c: Shared, s: Session) {
    && s.tunnelId in c.store.index && c.store.index[s.tunnelId] == s.id
    && s.id !in c.store.sessions
    && s.id in c.made && c.made[s.id] == s.tunnelId
  }

  ghost predicate StoredOk(c: Shared) {
    forall id :: id in c.store.sessions ==>
      var s := c.store.sessions[id];
      && s.id == id && s.tunnelId in c.store.index && c.store.index[s.tunnelId] == id
      && id in c.made && c.made[id] == s.tunnelId
  }

  ghost predicate PendingOk(c: Shared) {
    && (forall k :: k in c.adding ==> HoldsClaim(c, c.adding[k]))
    && (forall k :: k in c.removing ==> HoldsClaim(c, c.removing[k]))
    && Distinct(c.adding) && Distinct(c.removing) && Apart(c.adding, c.removing)
  }

  ghost predicate Distinct(calls: map<Caller, Session>) {
    forall k, l :: k in calls && l in calls && k != l ==> calls[k].id != calls[l].id
  }

  ghost predicate Apart(a: map<Caller, Session>, b: map<Caller, Session>) {
    forall k, l :: k in a && l in b ==> a[k].id != b[l].id
  }

  lemma DistinctAdd(calls: map<Caller, Session>, others: map<Caller, Session>, k: Caller, s: Session)
    requires Distinct(calls) && Apart(calls, others)
    requires forall l :: l in calls ==> calls[l].id != s.id
    requires forall l :: l in others ==> others[l].id != s.id
    ensures Distinct(calls[k := s]) && Apart(calls[k := s], others) && Apart(others, calls[k := s])
  {
  }

  lemma DistinctDrop(calls: map<Caller, Session>, others: map<Caller, Session>, k: Caller)
    requires Distinct(calls) && Apart(calls, others)
    ensures Distinct(calls - {k}) && Apart(calls - {k}, others) && Apart(others, calls - {k})
  {
  }

  lemma ApartSwap(a: map<Caller, Session>, b: map<Caller, Session>)
    requires Apart(a, b)
    ensures Apart(b, a)
  {
  }

  /** Every index entry belongs to a stored session or to a call that has not finished. */
  ghost predicate OwnedBy(c: Shared, id: Uuid) {
    || id in c.store.sessions
    || (exists k :: k in c.adding && c.adding[k].id == id)
    || (exists k :: k in c.removing && c.removing[k].id == id)
  }

  ghost predicate IndexOk(c: Shared) {
    forall t :: t in c.store.index ==>
      && c.store.index[t] in c.made && c.made[c.store.index[t]] == t
      && OwnedBy(c, c.store.index[t])
  }

  ghost predicate LookingOk(c: Shared) {
    forall k :: k in c.looking ==> c.looking[k].1 in c.made && c.made[c.looking[k].1] == c.looking[k].0
  }

  ghost predicate Inv(c: Shared) {
    StoredOk(c) && PendingOk(c) && IndexOk(c) && LookingOk(c)
  }

  lemma OwnedStays(c: Shared, c': Shared, gone: set<Uuid>)
    requires IndexOk(c)
    requires forall t :: t in c'.store.index ==> t in c.store.index && c'.store.index[t] == c.store.index[t] && c.store.index[t] !in gone
    requires forall id :: id in c.made ==> id in c'.made && c'.made[id] == c.made[id]
    requires forall id :: id !in gone && OwnedBy(c, id) ==> OwnedBy(c', id)
    ensures IndexOk(c')
  {
    hide OwnedBy;
  }

  lemma ClaimInv(c: Shared, caller: Caller, s: Session)
    requires Inv(c)
    ensures Inv(Next(c, ClaimIndex(caller, s)))
  {
    hide StoredOk, PendingOk, IndexOk;
    var c' := Next(c, ClaimIndex(caller, s));
    if Idle(c, caller) && s.id !in c.made {
      ClaimStored(c, c', caller, s);
      ClaimPending(c, c', caller, s);
      if s.tunnelId in c.store.index {
        RefusedIndexOk(c, c', caller, s);
      } else {
        ClaimIndexOk(c, c', caller, s);
      }
    }
  }

  lemma RefusedIndexOk(c: Shared, c': Shared, caller: Caller, s: Session)
    requires IndexOk(c) && Idle(c, caller) && s.id !in c.made && s.tunnelId in c.store.index
    requires c' == Next(c, ClaimIndex(caller, s))
    ensures IndexOk(c')
  {
    OwnedStays(c, c', {});
  }

  lemma ClaimStored(c: Shared, c': Shared, caller: Caller, s: Session)
    requires StoredOk(c) && Idle(c, caller) && s.id !in c.made && c' == Next(c, ClaimIndex(caller, s))
    ensures StoredOk(c')
  {
  }

  lemma ClaimPending(c: Shared, c': Shared, caller: Caller, s: Session)
    requires StoredOk(c) && PendingOk(c) && Idle(c, caller) && s.id !in c.made && c' == Next(c, ClaimIndex(caller, s))
    ensures PendingOk(c')
  {
    hide Distinct, Apart;
    assert s.id !in c.store.sessions;
    forall k | k in c.adding ensures HoldsClaim(c', c.adding[k]) && c.adding[k].id != s.id {
      ClaimKeepsClaim(c, c', caller, s, c.adding[k]);
    }
    forall k | k in c.removing ensures HoldsClaim(c', c.removing[k]) && c.removing[k].id != s.id {
      ClaimKeepsClaim(c, c', caller, s, c.removing[k]);
    }
    DistinctAdd(c.adding, c.removing, caller, s);
    hide StoredOk;
    if s.tunnelId !in c.store.index {
      assert HoldsClaim(c', s);
    }
    hide HoldsClaim;
  }

  lemma ClaimKeepsClaim(c: Shared, c': Shared, caller: Caller, s: Session, other: Session)
    requires HoldsClaim(c, other) && s.id !in c.made && c' == Next(c, ClaimIndex(caller, s))
    ensures HoldsClaim(c', other) && other.id != s.id
  {
  }

  lemma ClaimIndexOk(c: Shared, c': Shared, caller: Caller, s: Session)
    requires IndexOk(c) && Idle(c, caller) && s.id !in c.made && s.tunnelId !in c.store.index
    requires c' == Next(c, ClaimIndex(caller, s))
    ensures IndexOk(c')
  {
    assert caller in c'.adding && c'.adding[caller].id == s.id;
    forall t | t in c'.store.index && t != s.tunnelId ensures OwnedBy(c', c'.store.index[t]) {
      OwnedByMore(c, c', c.store.index[t]);
    }
  }

  lemma OwnedByMore(c: Shared, c': Shared, id: Uuid)
    requires OwnedBy(c, id)
    requires c'.store.sessions == c.store.sessions && c'.removing == c.removing
    requires forall k :: k in c.adding ==> k in c'.adding && c'.adding[k] == c.adding[k]
    ensures OwnedBy(c', id)
  {
  }

  lemma InsertInv(c: Shared, caller: Caller)
    requires Inv(c)
    ensures Inv(Next(c, InsertSession(caller)))
  {
    var c' := Next(c, InsertSession(caller));
    if caller in c.adding {
      var s := c.adding[caller];
      assert HoldsClaim(c, s);
      forall id | OwnedBy(c, id) ensures OwnedBy(c', id) {
        if k :| k in c.adding && c.adding[k].id == id {
          if k != caller {
            assert k in c'.adding && c'.adding[k].id == id;
          }
        }
      }
      OwnedStays(c, c', {});
      InsertStored(c, c', caller);
      InsertPending(c, c', caller);
    }
  }

  lemma InsertStored(c: Shared, c': Shared, caller: Caller)
    requires StoredOk(c) && PendingOk(c) && caller in c.adding && c' == Next(c, InsertSession(caller))
    ensures StoredOk(c')
  {
    assert HoldsClaim(c, c.adding[caller]);
  }

  lemma InsertPending(c: Shared, c': Shared, caller: Caller)
    requires StoredOk(c) && PendingOk(c) && caller in c.adding && c' == Next(c, InsertSession(caller))
    ensures PendingOk(c')
  {
    var s := c.adding[caller];
    assert forall k :: k in c.adding && k != caller ==> c.adding[k].id != s.id;
    assert forall k :: k in c.removing ==> c.removing[k].id != s.id;
    DistinctDrop(c.adding, c.removing, caller);
    hide Distinct, Apart;
    forall k | k in c'.adding ensures HoldsClaim(c', c'.adding[k]) {
      assert HoldsClaim(c, c.adding[k]);
    }
    forall k | k in c'.removing ensures HoldsClaim(c', c'.removing[k]) {
      assert HoldsClaim(c, c.removing[k]);
    }
  }

  lemma TakeInv(c: Shared, caller: Caller, id: Uuid)
    requires Inv(c)
    ensures Inv(Next(c, TakeSession(caller, id)))
  {
    var c' := Next(c, TakeSession(caller, id));
    if Idle(c, caller) && id in c.store.sessions {
      forall x | OwnedBy(c, x) ensures OwnedBy(c', x) {
        if x == id {
          assert c.store.sessions[id].id == id;
          assert caller in c'.removing && c'.removing[caller].id == x;
        } else if k :| k in c.removing && c.removing[k].id == x {
          assert k in c'.removing && c'.removing[k].id == x;
        }
      }
      OwnedStays(c, c', {});
      TakePending(c, c', caller, id);
    }
  }

  lemma TakePending(c: Shared, c': Shared, caller: Caller, id: Uuid)
    requires StoredOk(c) && PendingOk(c) && Idle(c, caller) && id in c.store.sessions && c' == Next(c, TakeSession(caller, id))
    ensures PendingOk(c')
  {
    hide Distinct, Apart;
    forall k | k in c.adding ensures HoldsClaim(c', c.adding[k]) && c.adding[k].id != id {
      assert HoldsClaim(c, c.adding[k]);
    }
    forall k | k in c.removing ensures HoldsClaim(c', c.removing[k]) && c.removing[k].id != id {
      assert HoldsClaim(c, c.removing[k]);
    }
    ApartSwap(c.adding, c.removing);
    DistinctAdd(c.removing, c.adding, caller, c.store.sessions[id]);
  }

  lemma DropInv(c: Shared, caller: Caller)
    requires Inv(c)
    ensures Inv(Next(c, DropIndex(caller)))
  {
    var c' := Next(c, DropIndex(caller));
    if caller in c.removing {
      var s := c.removing[caller];
      assert HoldsClaim(c, s);
      forall id | id != s.id && OwnedBy(c, id) ensures OwnedBy(c', id) {
        if k :| k in c.removing && c.removing[k].id == id {
          assert k in c'.removing && c'.removing[k].id == id;
        }
      }
      assert forall t :: t in c'.store.index ==> c.store.index[t] != s.id by {
        assert forall t :: t in c.store.index && c.store.index[t] == s.id ==> t == s.tunnelId;
      }
      OwnedStays(c, c', {s.id});
      DropStored(c, c', caller);
      DropPending(c, c', caller);
    }
  }

  lemma DropStored(c: Shared, c': Shared, caller: Caller)
    requires StoredOk(c) && PendingOk(c) && caller in c.removing && c' == Next(c, DropIndex(caller))
    ensures StoredOk(c')
  {
    assert HoldsClaim(c, c.removing[caller]);
  }

  lemma DropPending(c: Shared, c': Shared, caller: Caller)
    requires StoredOk(c) && PendingOk(c) && caller in c.removing && c' == Next(c, DropIndex(caller))
    ensures PendingOk(c')
  {
    var s := c.removing[caller];
    assert HoldsClaim(c, s);
    assert forall k :: k in c.adding ==> c.adding[k].id != s.id;
    assert forall k :: k in c.removing && k != caller ==> c.removing[k].id != s.id;
    ApartSwap(c.adding, c.removing);
    DistinctDrop(c.removing, c.adding, caller);
    hide Distinct, Apart;
    forall k | k in c'.adding ensures HoldsClaim(c', c'.adding[k]) {
      assert HoldsClaim(c, c.adding[k]);
    }
    forall k | k in c'.removing ensures HoldsClaim(c', c'.removing[k]) {
      assert HoldsClaim(c, c.removing[k]);
    }
  }

  lemma HeartbeatInv(c: Shared, id: Uuid, now: real)
    requires Inv(c)
    ensures Inv(Next(c, TouchSession(id, now)))
  {
    var c' := Next(c, TouchSession(id, now));
    assert c' == c.(store := Touch(c.store, id, now));
    hide Next;
    HeartbeatStored(c, id, now);
    HeartbeatPending(c, id, now);
    HeartbeatIndex(c, id, now);
    hide StoredOk, PendingOk, IndexOk, Touch;
  }

  lemma HeartbeatStored(c: Shared, id: Uuid, now: real)
    requires StoredOk(c)
    ensures StoredOk(c.(store := Touch(c.store, id, now)))
  {
  }

  lemma HeartbeatPending(c: Shared, id: Uuid, now: real)
    requires PendingOk(c)
    ensures PendingOk(c.(store := Touch(c.store, id, now)))
  {
    hide Distinct, Apart;
    var c' := c.(store := Touch(c.store, id, now));
    forall k | k in c.adding ensures HoldsClaim(c', c.adding[k]) {
      assert HoldsClaim(c, c.adding[k]);
    }
    forall k | k in c.removing ensures HoldsClaim(c', c.removing[k]) {
      assert HoldsClaim(c, c.removing[k]);
    }
  }

  lemma HeartbeatIndex(c: Shared, id: Uuid, now: real)
    requires IndexOk(c)
    ensures IndexOk(c.(store := Touch(c.store, id, now)))
  {
    var c' := c.(store := Touch(c.store, id, now));
    assert forall k :: k in c.store.sessions <==> k in c'.store.sessions;
    forall x | OwnedBy(c, x) ensures OwnedBy(c', x) {
    }
    OwnedStays(c, c', {});
  }

  /** Only the lookups changed. */
  lemma LookInv(c: Shared, ev: Event)
    requires Inv(c) && (ev.ReadIndex? || ev.ReadSession?)
    ensures Inv(Next(c, ev))
  {
    var c' := Next(c, ev);
    assert c' == c.(looking := c'.looking);
    SameClaims(c, c'.looking);
    hide StoredOk, PendingOk, OwnedBy, HoldsClaim;
  }

  lemma SameClaims(c: Shared, looking: map<Caller, (TunnelId, Uuid)>)
    requires StoredOk(c) && PendingOk(c) && IndexOk(c)
    ensures var c' := c.(looking := looking); StoredOk(c') && PendingOk(c') && IndexOk(c')
  {
    hide Distinct, Apart;
    var c' := c.(looking := looking);
    forall k | k in c.adding ensures HoldsClaim(c', c.adding[k]) {
      assert HoldsClaim(c, c.adding[k]);
    }
    forall k | k in c.removing ensures HoldsClaim(c', c.removing[k]) {
      assert HoldsClaim(c, c.removing[k]);
    }
    forall x | OwnedBy(c, x) ensures OwnedBy(c', x) {
    }
    OwnedStays(c, c', {});
  }

  lemma NextInv(c: Shared, ev: Event)
    requires Inv(c)
    ensures Inv(Next(c, ev))
  {
    hide Inv;
    match ev
    case ClaimIndex(caller, s) => ClaimInv(c, caller, s);
    case InsertSession(caller) => InsertInv(c, caller);
    case TakeSession(caller, id) => TakeInv(c, caller, id);
    case DropIndex(caller) => DropInv(c, caller);
    case TouchSession(id, now) => HeartbeatInv(c, id, now);
    case _ => LookInv(c, ev);
  }

  lemma {:induction false} RunInv(events: seq<Event>)
    ensures Inv(Run(events))
  {
    if events == [] {
    } else {
      RunInv(events[..|events| - 1]);
      hide Inv;
      NextInv(Run(events[..|events| - 1]), events[|events| - 1]);
    }
  }

  // ---------------------------------------------------------------------------------------------
  // What holds in every run
  // ---------------------------------------------------------------------------------------------

  /** Every stored session is the one its tunnel id maps to, so no tunnel id has two. */
  lemma StoredSessionsAreIndexed(events: seq<Event>)
    ensures var st := Run(events).store;
            && (forall id :: id in st.sessions ==> GetByTunnelId(st, st.sessions[id].tunnelId) == Some(st.sessions[id]))
            && (forall a, b :: a in st.sessions && b in st.sessions && st.sessions[a].tunnelId == st.sessions[b].tunnelId ==> a == b)
  {
    RunInv(events);
    hide PendingOk, IndexOk, LookingOk;
  }

  /** A pending removal only ever deletes its own index entry. */
  lemma RemovalIsItsOwn(events: seq<Event>, caller: Caller)
    requires caller in Run(events).removing
    ensures var c := Run(events);
            var s, c' := c.removing[caller], Next(c, DropIndex(caller));
            && s.tunnelId in c.store.index && c.store.index[s.tunnelId] == s.id
            && s.tunnelId !in c'.store.index && caller !in c'.removing
            && (forall t :: t in c.store.index && c.store.index[t] != s.id ==>
                  t in c'.store.index && c'.store.index[t] == c.store.index[t])
  {
    RunInv(events);
    assert HoldsClaim(Run(events), Run(events).removing[caller]);
  }

  /**
   With nobody in between, the steps of a call are the operation of the sequential store: the two of an add, the two of
   a removal, and the two reads of a lookup.
   */
  lemma UninterruptedIsSequential(events: seq<Event>, caller: Caller, s: Session, id: Uuid, t: TunnelId)
    requires Idle(Run(events), caller)
    ensures var c := Run(events);
            && (s.id !in c.made ==>
                  var c' := Next(Next(c, ClaimIndex(caller, s)), InsertSession(caller));
                  c'.store == Add(c.store, s) && Idle(c', caller))
            && (var c' := Next(Next(c, TakeSession(caller, id)), DropIndex(caller));
                c'.store == RemoveAll(c.store, {id}) && Idle(c', caller))
            && (var c' := Next(c, ReadIndex(caller, t));
                (if caller in c'.looking then Get(c'.store, c'.looking[caller].1) else None) == GetByTunnelId(c.store, t))
  {
    RunInv(events);
    var c := Run(events);
    hide Run;
    if s.id !in c.made {
      AddSteps(c, caller, s);
    }
    RemoveSteps(c, caller, id);
    LookupSteps(c, caller, t);
  }

  lemma AddSteps(c: Shared, caller: Caller, s: Session)
    requires IndexOk(c) && Idle(c, caller) && s.id !in c.made
    ensures var c' := Next(Next(c, ClaimIndex(caller, s)), InsertSession(caller));
            c'.store == Add(c.store, s) && Idle(c', caller)
  {
    hide OwnedBy;
  }

  lemma RemoveSteps(c: Shared, caller: Caller, id: Uuid)
    requires Idle(c, caller)
    ensures var c' := Next(Next(c, TakeSession(caller, id)), DropIndex(caller));
            c'.store == RemoveAll(c.store, {id}) && Idle(c', caller)
  {
    if id in c.store.sessions {
      assert TunnelIds(c.store, {id}) == {c.store.sessions[id].tunnelId};
    } else {
      assert TunnelIds(c.store, {id}) == {};
      assert c.store.sessions - {id} == c.store.sessions && c.store.index - {} == c.store.index;
    }
  }

  lemma LookupSteps(c: Shared, caller: Caller, t: TunnelId)
    requires Idle(c, caller)
    ensures var c' := Next(c, ReadIndex(caller, t));
            (if caller in c'.looking then Get(c'.store, c'.looking[caller].1) else None) == GetByTunnelId(c.store, t)
  {
  }

  /** A lookup by tunnel id, however its two reads are separated, only ever returns a session of that tunnel id. */
  lemma LookupIsRight(events: seq<Event>, caller: Caller)
    requires caller in Run(events).looking
    ensures var c := Run(events);
            var (t, id) := c.looking[caller];
            Get(c.store, id).Some? ==> Get(c.store, id).value.tunnelId == t
  {
    RunInv(events);
    hide PendingOk, IndexOk;
  }

  lemma QuietIndexed(c: Shared)
    requires Inv(c) && c.adding == map[] && c.removing == map[]
    ensures Indexed(c.store)
  {
    forall t | t in c.store.index ensures c.store.index[t] in c.store.sessions && c.store.sessions[c.store.index[t]].tunnelId == t {
      assert OwnedBy(c, c.store.index[t]);
    }
  }

  /** With no call in progress the index is exactly the inverse of the sessions. */
  lemma QuietStoreIsIndexed(events: seq<Event>)
    requires Run(events).adding == map[] && Run(events).removing == map[]
    ensures Indexed(Run(events).store)
  {
    RunInv(events);
    QuietIndexed(Run(events));
  }

  /** A tunnel id is refused exactly while a session with it is stored, being added, or being removed. */
  lemma RefusedIff(events: seq<Event>, t: TunnelId)
    ensures var c := Run(events);
            t in c.store.index <==>
              || (exists id :: id in c.store.sessions && c.store.sessions[id].tunnelId == t)
              || (exists k :: k in c.adding && c.adding[k].tunnelId == t)
              || (exists k :: k in c.removing && c.removing[k].tunnelId == t)
  {
    RunInv(events);
    var c := Run(events);
    if t in c.store.index {
      assert OwnedBy(c, c.store.index[t]);
      if k :| k in c.adding && c.adding[k].id == c.store.index[t] {
        assert HoldsClaim(c, c.adding[k]);
      } else if k :| k in c.removing && c.removing[k].id == c.store.index[t] {
        assert HoldsClaim(c, c.removing[k]);
      }
    } else {
      assert forall k :: k in c.adding ==> HoldsClaim(c, c.adding[k]);
      assert forall k :: k in c.removing ==> HoldsClaim(c, c.removing[k]);
    }
  }

  /** So an `add` can be refused although no stored session has the tunnel id: between the two steps of a removal. */
  lemma RefusedWithoutSession(a: Session, b: Session)
    requires a.id != b.id && a.tunnelId == b.tunnelId
    ensures var events := [ClaimIndex(0, a), InsertSession(0), TakeSession(0, a.id)];
            && Run(events).store.sessions == map[]
            && Next(Run(events), ClaimIndex(1, b)).adding == map[]
  {
    var e1, e2, e3 := ClaimIndex(0, a), InsertSession(0), TakeSession(0, a.id);
    assert [e1, e2, e3][..2] == [e1, e2] && [e1, e2][..1] == [e1] && [e1][..0] == [];
    var c1 := Next(FRESH, e1);
    var c2 := Next(c1, e2);
    var c3 := Next(c2, e3);
    assert Run([]) == FRESH && Run([e1]) == c1 && Run([e1, e2]) == c2 && Run([e1, e2, e3]) == c3;
    assert c2.store.sessions == map[a.id := a] && c2.adding == map[];
  }
}
