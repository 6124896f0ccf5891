/** The session index (ferrotunnel-core/src/tunnel/session.rs): `SessionStore` and its operations. */
module Sessions {
  import opened Seqs
  import opened Frames

  type TunnelId = Text

  /** A session; `multiplexer` is the handle the ingress looks up. */
  datatype Session = Session(id: Uuid, tunnelId: TunnelId, heartbeat: real, capabilities: seq<Text>, multiplexer: Option<nat>)

  /** The two maps of a store: sessions by id, and session ids by tunnel id. */
  datatype Store = Store(sessions: map<Uuid, Session>, index: map<TunnelId, Uuid>)

  const EMPTY := Store(map[], map[])

  // ---------------------------------------------------------------------------------------------
  // The operations, as functions of the store
  // ---------------------------------------------------------------------------------------------

  /** Another session holds the tunnel id. */
  predicate Conflicts(st: Store, s: Session) {
    s.tunnelId in st.index && st.index[s.tunnelId] != s.id
  }

  function Insert(st: Store, s: Session): Store {
    Store(st.sessions[s.id := s], st.index[s.tunnelId := s.id])
  }

  function Add(st: Store, s: Session): Store {
    if Conflicts(st, s) then st else Insert(st, s)
  }

  function AddOrReplace(st: Store, s: Session): Store {
    if Conflicts(st, s) then Insert(st.(sessions := st.sessions - {st.index[s.tunnelId]}), s) else Insert(st, s)
  }

  function Get(st: Store, id: Uuid): Option<Session> {
    if id in st.sessions then Some(st.sessions[id]) else None
  }

  function GetByTunnelId(st: Store, t: TunnelId): Option<Session> {
    if t in st.index then Get(st, st.index[t]) else None
  }

  function Touch(st: Store, id: Uuid, now: real): Store {
    if id in st.sessions then st.(sessions := st.sessions[id := st.sessions[id].(heartbeat := now)]) else st
  }

  function TunnelIds(st: Store, ids: set<Uuid>): set<TunnelId> {
    set id | id in ids && id in st.sessions :: st.sessions[id].tunnelId
  }

  /** Remove a set of sessions and the index entries of their tunnel ids. */
  function RemoveAll(st: Store, ids: set<Uuid>): Store {
    Store(st.sessions - ids, st.index - TunnelIds(st, ids))
  }

  predicate IsStale(s: Session, now: real, timeout: real) {
    now > s.heartbeat + timeout
  }

  function StaleIds(st: Store, now: real, timeout: real): set<Uuid> {
    set id | id in st.sessions && IsStale(st.sessions[id], now, timeout)
  }

  predicate Offers(s: Session, capability: Text) {
    capability in s.capabilities && s.multiplexer.Some?
  }

  predicate HasCapability(st: Store, capability: Text) {
    exists id :: id in st.sessions && Offers(st.sessions[id], capability)
  }

  // ---------------------------------------------------------------------------------------------
  // The index is exactly the inverse of the sessions
  // ---------------------------------------------------------------------------------------------

  ghost predicate Indexed(st: Store) {
    && (forall id :: id in st.sessions ==>
          && st.sessions[id].id == id
          && st.sessions[id].tunnelId in st.index && st.index[st.sessions[id].tunnelId] == id)
    && (forall t :: t in st.index ==> st.index[t] in st.sessions && st.sessions[st.index[t]].tunnelId == t)
  }

  /** What a caller must respect when adding: the id is not stored under another tunnel id. Fresh ids do. */
  predicate MayAdd(st: Store, s: Session) {
    s.id in st.sessions ==> st.sessions[s.id].tunnelId == s.tunnelId
  }

  /** Adding keeps the index exact precisely when the id is not already stored under another tunnel id. */
  lemma AddKeepsIndexIff(st: Store, s: Session)
    requires Indexed(st)
    ensures Conflicts(st, s) ==> Add(st, s) == st
    ensures !Conflicts(st, s) ==> (Indexed(Add(st, s)) <==> MayAdd(st, s))
    ensures Indexed(AddOrReplace(st, s)) <==> MayAdd(st, s)
  {
    if !MayAdd(st, s) {
      var t := st.sessions[s.id].tunnelId;
      assert Add(st, s) != st ==> Add(st, s).index[t] == s.id;
      assert AddOrReplace(st, s).index[t] == s.id;
    }
  }

  /** An add is refused exactly when another stored session has the tunnel id; the same session may be added again. */
  lemma AddRefusedIff(st: Store, s: Session)
    requires Indexed(st)
    ensures Conflicts(st, s) <==> exists id :: id in st.sessions && id != s.id && st.sessions[id].tunnelId == s.tunnelId
  {
    if Conflicts(st, s) {
      assert st.index[s.tunnelId] in st.sessions;
    }
  }

  /** An accepted session is found by its id and by its tunnel id, and nothing else is found otherwise than before. */
  lemma AddStores(st: Store, s: Session)
    requires Indexed(st) && MayAdd(st, s) && !Conflicts(st, s)
    ensures forall id :: Get(Add(st, s), id) == if id == s.id then Some(s) else Get(st, id)
    ensures forall t :: GetByTunnelId(Add(st, s), t) == if t == s.tunnelId then Some(s) else GetByTunnelId(st, t)
  {
  }

  /** Removed sessions are not found, by id or by tunnel id; all the others are, as before. */
  lemma RemoveTakesOut(st: Store, ids: set<Uuid>)
    requires Indexed(st)
    ensures forall id :: Get(RemoveAll(st, ids), id) == if id in ids then None else Get(st, id)
    ensures forall t :: GetByTunnelId(RemoveAll(st, ids), t)
                     == if t in st.index && st.index[t] in ids then None else GetByTunnelId(st, t)
  {
    forall t ensures GetByTunnelId(RemoveAll(st, ids), t)
                  == if t in st.index && st.index[t] in ids then None else GetByTunnelId(st, t) {
      assert t in st.index && st.index[t] in ids ==> t in TunnelIds(st, ids);
    }
  }

  lemma RemoveAllIndexed(st: Store, ids: set<Uuid>)
    requires Indexed(st)
    ensures Indexed(RemoveAll(st, ids))
  {
    var st' := RemoveAll(st, ids);
    forall t | t in st'.index ensures st'.index[t] in st'.sessions {
      assert st.index[t] in ids ==> t in TunnelIds(st, ids);
    }
  }

  lemma TouchIndexed(st: Store, id: Uuid, now: real)
    requires Indexed(st)
    ensures Indexed(Touch(st, id, now))
  {
  }

  /** After `add_or_replace` the tunnel id leads to the new session and the replaced one is gone. */
  lemma ReplacedIsGone(st: Store, s: Session)
    requires Indexed(st) && MayAdd(st, s)
    ensures GetByTunnelId(AddOrReplace(st, s), s.tunnelId) == Some(s)
    ensures Conflicts(st, s) ==> Get(AddOrReplace(st, s), st.index[s.tunnelId]).None?
    ensures forall id :: id != s.id && id in st.sessions && st.sessions[id].tunnelId != s.tunnelId ==>
      Get(AddOrReplace(st, s), id) == Get(st, id)
  {
  }

  lemma RemoveAllTwice(st: Store, a: set<Uuid>, b: set<Uuid>)
    ensures RemoveAll(RemoveAll(st, a), b) == RemoveAll(st, a + b)
  {
    var one, both := RemoveAll(RemoveAll(st, a), b), RemoveAll(st, a + b);
    assert one.sessions == both.sessions;
    assert TunnelIds(st, a + b) == TunnelIds(st, a) + TunnelIds(RemoveAll(st, a), b);
  }

  // ---------------------------------------------------------------------------------------------
  // The store as an object
  // ---------------------------------------------------------------------------------------------

  class SessionStore {
    var sessions: map<Uuid, Session>
    var tunnelIndex: map<TunnelId, Uuid>

    ghost function State(): Store
      reads this
    {
      Store(sessions, tunnelIndex)
    }

    constructor ()
      ensures State() == EMPTY
    {
      sessions, tunnelIndex := map[], map[];
    }

    method AddSession(s: Session) returns (ok: bool)
      modifies this
      ensures ok <==> !Conflicts(old(State()), s)
      ensures State() == Add(old(State()), s)
    {
      if s.tunnelId in tunnelIndex {
        if tunnelIndex[s.tunnelId] != s.id {
          return false;
        }
      } else {
        tunnelIndex := tunnelIndex[s.tunnelId := s.id];
      }
      assert tunnelIndex == old(tunnelIndex)[s.tunnelId := s.id];
      sessions := sessions[s.id := s];
      ok := true;
    }

    method AddOrReplaceSession(s: Session)
      modifies this
      ensures State() == AddOrReplace(old(State()), s)
    {
      if s.tunnelId in tunnelIndex {
        var oldId := tunnelIndex[s.tunnelId];
        tunnelIndex := tunnelIndex - {s.tunnelId};
        if oldId != s.id {
          sessions := sessions - {oldId};
        }
      }
      tunnelIndex := tunnelIndex[s.tunnelId := s.id];
      assert tunnelIndex == old(tunnelIndex)[s.tunnelId := s.id];
      sessions := sessions[s.id := s];
    }

    method Remove(id: Uuid) returns (r: Option<Session>)
      modifies this
      ensures r == Get(old(State()), id)
      ensures State() == RemoveAll(old(State()), {id})
    {
      ghost var before := State();
      if id in sessions {
        r := Some(sessions[id]);
        sessions := sessions - {id};
        tunnelIndex := tunnelIndex - {r.value.tunnelId};
        assert TunnelIds(before, {id}) == {r.value.tunnelId};
      } else {
        r := None;
        assert TunnelIds(before, {id}) == {};
        assert sessions - {id} == sessions && tunnelIndex - {} == tunnelIndex;
      }
    }

    /** `get_mut` and `update_heartbeat`. */
    method UpdateHeartbeat(id: Uuid, now: real) returns (found: bool)
      modifies this
      ensures found <==> id in old(sessions)
      ensures State() == Touch(old(State()), id, now)
    {
      found := id in sessions;
      if found {
        sessions := sessions[id := sessions[id].(heartbeat := now)];
      }
    }

    /** The scan of the sessions, in whatever order the map yields them. */
    method CollectStale(now: real, timeout: real) returns (stale: set<Uuid>)
      ensures stale == StaleIds(State(), now, timeout)
    {
      var unseen := sessions.Keys;
      stale := {};
      while unseen != {}
        invariant unseen <= sessions.Keys
        invariant forall id :: id in stale <==> id in sessions && id !in unseen && IsStale(sessions[id], now, timeout)
        decreases unseen
      {
        var id :| id in unseen;
        if IsStale(sessions[id], now, timeout) {
          stale := stale + {id};
        }
        unseen := unseen - {id};
      }
    }

    /** The scan for a capability, in whatever order the map yields the sessions. */
    method FindMultiplexerWithCapability(capability: Text) returns (r: Option<nat>)
      ensures r.Some? ==> exists id :: id in sessions && capability in sessions[id].capabilities && sessions[id].multiplexer == r
      ensures r.None? ==> forall id :: id in sessions && capability in sessions[id].capabilities ==> sessions[id].multiplexer.None?
      ensures r.Some? <==> HasCapability(State(), capability)
    {
      var unseen := sessions.Keys;
      while unseen != {}
        invariant unseen <= sessions.Keys
        invariant forall id :: id in sessions && id !in unseen && capability in sessions[id].capabilities ==>
          sessions[id].multiplexer.None?
        decreases unseen
      {
        var id :| id in unseen;
        if capability in sessions[id].capabilities && sessions[id].multiplexer.Some? {
          return sessions[id].multiplexer;
        }
        unseen := unseen - {id};
      }
      r := None;
    }

    /** Collect the stale ids, then remove them one by one. */
    method CleanupStaleSessions(now: real, timeout: real) returns (count: nat)
      modifies this
      ensures var stale := StaleIds(old(State()), now, timeout);
              count == |stale| && State() == RemoveAll(old(State()), stale)
    {
      hide RemoveAll, StaleIds;
      ghost var before, removed := State(), {};
      var toRemove := CollectStale(now, timeout);
      count := |toRemove|;
      var left := toRemove;
      RemoveNone(before);
      while left != {}
        invariant removed + left == toRemove
        invariant State() == RemoveAll(before, removed)
        decreases left
      {
        var id :| id in left;
        var _ := Remove(id);
        RemoveAllTwice(before, removed, {id});
        left, removed := left - {id}, removed + {id};
      }
      assert removed == toRemove;
    }
  }

  lemma RemoveNone(st: Store)
    ensures RemoveAll(st, {}) == st
  {
    assert TunnelIds(st, {}) == {};
    assert st.sessions - {} == st.sessions && st.index - {} == st.index;
  }
}
