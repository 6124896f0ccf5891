/**
 The sharded session store (ferrotunnel-core/src/tunnel/session.rs, `ShardedSessionStore`) and its
 simulation of the single store.
 */
module ShardedSessions {
  import opened Seqs
  import opened Frames
  import opened Sessions

  /** The standard hasher, of which only determinism is used. */
  type Hash = TunnelId -> nat

  function ShardOf(hash: Hash, t: TunnelId, n: nat): (i: nat)
    requires n > 0
    ensures i < n
  {
    hash(t) % n
  }

  // ---------------------------------------------------------------------------------------------
  // The operations, as functions of the shards
  // ---------------------------------------------------------------------------------------------

  /** The first shard that holds a session id, in scanning order. */
  function FirstShard(shards: seq<Store>, id: Uuid): (r: Option<nat>)
    ensures r.Some? ==> r.value < |shards| && id in shards[r.value].sessions
    ensures r.None? ==> forall i :: 0 <= i < |shards| ==> id !in shards[i].sessions
  {
    if shards == [] then None
    else if id in shards[0].sessions then Some(0)
    else
      match FirstShard(shards[1..], id)
      case None => assert forall i :: 0 < i < |shards| ==> shards[i] == shards[1..][i - 1]; None
      case Some(i) => Some(i + 1)
  }

  function ScanGet(shards: seq<Store>, id: Uuid): Option<Session> {
    match FirstShard(shards, id)
    case None => None
    case Some(i) => Get(shards[i], id)
  }

  function ScanRemove(shards: seq<Store>, id: Uuid): seq<Store> {
    match FirstShard(shards, id)
    case None => shards
    case Some(i) => shards[i := RemoveAll(shards[i], {id})]
  }

  function ScanTouch(shards: seq<Store>, id: Uuid, now: real): seq<Store> {
    match FirstShard(shards, id)
    case None => shards
    case Some(i) => shards[i := Touch(shards[i], id, now)]
  }

  function TotalCount(shards: seq<Store>): nat {
    if shards == [] then 0 else TotalCount(shards[..|shards| - 1]) + |shards[|shards| - 1].sessions|
  }

  function TotalStale(shards: seq<Store>, now: real, timeout: real): nat {
    if shards == [] then 0
    else TotalStale(shards[..|shards| - 1], now, timeout) + |StaleIds(shards[|shards| - 1], now, timeout)|
  }

  function CleanShards(shards: seq<Store>, now: real, timeout: real): seq<Store> {
    seq(|shards|, i requires 0 <= i < |shards| => RemoveAll(shards[i], StaleIds(shards[i], now, timeout)))
  }

  // ---------------------------------------------------------------------------------------------
  // The simulation relation: every shard is the slice of the single store that hashes to it
  // ---------------------------------------------------------------------------------------------

  ghost function Slice(st: Store, hash: Hash, n: nat, i: nat): Store
    requires n > 0
  {
    Store(map id | id in st.sessions && ShardOf(hash, st.sessions[id].tunnelId, n) == i :: st.sessions[id],
          map t | t in st.index && ShardOf(hash, t, n) == i :: st.index[t])
  }

  ghost predicate Sim(st: Store, shards: seq<Store>, hash: Hash) {
    |shards| > 0 && forall i :: 0 <= i < |shards| ==> shards[i] == Slice(st, hash, |shards|, i)
  }

  /** Session `id`, if it is stored, is in the shard of tunnel id `t`. */
  predicate HeldHere(st: Store, id: Uuid, t: TunnelId, hash: Hash, n: nat)
    requires n > 0
  {
    id in st.sessions ==> ShardOf(hash, st.sessions[id].tunnelId, n) == ShardOf(hash, t, n)
  }

  /** In a simulating state no id is in two shards, and every session is in the shard of its tunnel id. */
  lemma SimPlacement(st: Store, shards: seq<Store>, hash: Hash)
    requires Sim(st, shards, hash)
    ensures forall i, id :: 0 <= i < |shards| && id in shards[i].sessions ==>
      ShardOf(hash, shards[i].sessions[id].tunnelId, |shards|) == i
    ensures Disjoint(shards)
  {
  }

  ghost predicate Disjoint(shards: seq<Store>) {
    forall i, j :: 0 <= i < j < |shards| ==> shards[i].sessions.Keys !! shards[j].sessions.Keys
  }

  /** A scan finds a session exactly where the single store has it. */
  lemma ScanFinds(st: Store, shards: seq<Store>, hash: Hash, id: Uuid)
    requires Sim(st, shards, hash)
    ensures id in st.sessions ==>
      var i := ShardOf(hash, st.sessions[id].tunnelId, |shards|);
      FirstShard(shards, id) == Some(i) && shards[i].sessions[id] == st.sessions[id]
    ensures id !in st.sessions ==> FirstShard(shards, id).None?
  {
    if id in st.sessions {
      var i := ShardOf(hash, st.sessions[id].tunnelId, |shards|);
      assert id in shards[i].sessions;
    }
  }

  lemma SliceInsert(st: Store, s: Session, hash: Hash, n: nat, i: nat)
    requires n > 0 && i < n && HeldHere(st, s.id, s.tunnelId, hash, n)
    ensures Slice(Sessions.Insert(st, s), hash, n, i)
         == if i == ShardOf(hash, s.tunnelId, n) then Sessions.Insert(Slice(st, hash, n, i), s) else Slice(st, hash, n, i)
  {
    var after, before := Slice(Sessions.Insert(st, s), hash, n, i), Slice(st, hash, n, i);
    if i == ShardOf(hash, s.tunnelId, n) {
      assert after.sessions == before.sessions[s.id := s];
      assert after.index == before.index[s.tunnelId := s.id];
    } else {
      assert after.sessions == before.sessions;
      assert after.index == before.index;
    }
  }

  lemma SliceRemoveAll(st: Store, ids: set<Uuid>, hash: Hash, n: nat, i: nat)
    requires n > 0 && i < n
    ensures Slice(RemoveAll(st, ids), hash, n, i) == RemoveAll(Slice(st, hash, n, i), ids)
  {
    var slice := Slice(st, hash, n, i);
    var after, expected := Slice(RemoveAll(st, ids), hash, n, i), RemoveAll(slice, ids);
    assert after.sessions == expected.sessions;
    forall t | t in st.index && ShardOf(hash, t, n) == i
      ensures t in TunnelIds(st, ids) <==> t in TunnelIds(slice, ids)
    {
      if t in TunnelIds(st, ids) {
        var id :| id in ids && id in st.sessions && st.sessions[id].tunnelId == t;
        assert id in slice.sessions;
      }
    }
    assert after.index == expected.index;
  }

  /** An add keeps the shards the slices of the store exactly when it is refused or its id is not in another shard. */
  lemma SimAddIff(st: Store, shards: seq<Store>, hash: Hash, s: Session)
    requires Sim(st, shards, hash)
    ensures var i := ShardOf(hash, s.tunnelId, |shards|);
            && (Conflicts(st, s) <==> Conflicts(shards[i], s))
            && (Sim(Add(st, s), shards[i := Add(shards[i], s)], hash) <==>
                  Conflicts(st, s) || HeldHere(st, s.id, s.tunnelId, hash, |shards|))
  {
    var n, i := |shards|, ShardOf(hash, s.tunnelId, |shards|);
    if Conflicts(st, s) {
      assert shards[i := shards[i]] == shards;
    } else if HeldHere(st, s.id, s.tunnelId, hash, n) {
      hide Sessions.Insert;
      forall k | 0 <= k < n ensures shards[i := Add(shards[i], s)][k] == Slice(Add(st, s), hash, n, k) {
        SliceInsert(st, s, hash, n, k);
      }
    } else {
      InsertCrosses(st, {}, shards, hash, s, shards[i := Add(shards[i], s)]);
      assert st.sessions - {} == st.sessions && st.(sessions := st.sessions) == st;
    }
  }

  /** A session inserted in one shard while another holds its id: the other keeps it, the single store does not. */
  lemma InsertCrosses(st: Store, gone: set<Uuid>, shards: seq<Store>, hash: Hash, s: Session, shards': seq<Store>)
    requires Sim(st, shards, hash) && |shards'| == |shards|
    requires !HeldHere(st, s.id, s.tunnelId, hash, |shards|) && s.id !in gone
    requires forall k :: 0 <= k < |shards| && k != ShardOf(hash, s.tunnelId, |shards|) ==> shards'[k] == shards[k]
    ensures !Sim(Sessions.Insert(st.(sessions := st.sessions - gone), s), shards', hash)
  {
    var k := ShardOf(hash, st.sessions[s.id].tunnelId, |shards|);
    assert s.id in shards[k].sessions && shards'[k] == shards[k];
    var st' := Sessions.Insert(st.(sessions := st.sessions - gone), s);
    assert st'.sessions[s.id] == s && s.id !in Slice(st', hash, |shards|, k).sessions;
  }

  /** The same for a replacement, which moreover must find the session it replaces in its own shard. */
  lemma SimAddOrReplaceIff(st: Store, shards: seq<Store>, hash: Hash, s: Session)
    requires Sim(st, shards, hash)
    ensures var i := ShardOf(hash, s.tunnelId, |shards|);
            Sim(AddOrReplace(st, s), shards[i := AddOrReplace(shards[i], s)], hash) <==> MayReplace(st, s, hash, |shards|)
  {
    var n, i := |shards|, ShardOf(hash, s.tunnelId, |shards|);
    var shards' := shards[i := AddOrReplace(shards[i], s)];
    assert Conflicts(st, s) <==> Conflicts(shards[i], s);
    if !HeldHere(st, s.id, s.tunnelId, hash, n) {
      var gone := if Conflicts(st, s) then {st.index[s.tunnelId]} else {};
      InsertCrosses(st, gone, shards, hash, s, shards');
      assert st.sessions - {} == st.sessions && st.(sessions := st.sessions) == st;
      assert AddOrReplace(st, s) == Sessions.Insert(st.(sessions := st.sessions - gone), s);
    } else if MayReplace(st, s, hash, n) {
      ReplaceKeeps(st, shards, hash, s);
    } else {
      ReplaceMisses(st, shards, hash, s);
    }
  }

  predicate MayReplace(st: Store, s: Session, hash: Hash, n: nat)
    requires n > 0
  {
    && HeldHere(st, s.id, s.tunnelId, hash, n)
    && (Conflicts(st, s) ==> HeldHere(st, st.index[s.tunnelId], s.tunnelId, hash, n))
  }

  lemma ReplaceKeeps(st: Store, shards: seq<Store>, hash: Hash, s: Session)
    requires Sim(st, shards, hash) && MayReplace(st, s, hash, |shards|)
    ensures var i := ShardOf(hash, s.tunnelId, |shards|);
            Sim(AddOrReplace(st, s), shards[i := AddOrReplace(shards[i], s)], hash)
  {
    var n, i := |shards|, ShardOf(hash, s.tunnelId, |shards|);
    var st1 := if Conflicts(st, s) then st.(sessions := st.sessions - {st.index[s.tunnelId]}) else st;
    assert AddOrReplace(st, s) == Sessions.Insert(st1, s);
    forall k | 0 <= k < n
      ensures shards[i := AddOrReplace(shards[i], s)][k] == Slice(AddOrReplace(st, s), hash, n, k)
    {
      SliceInsert(st1, s, hash, n, k);
      SliceDropped(st, s, hash, n, k);
    }
  }

  /** The replaced session stays behind in its shard. */
  lemma ReplaceMisses(st: Store, shards: seq<Store>, hash: Hash, s: Session)
    requires Sim(st, shards, hash) && Conflicts(st, s) && !HeldHere(st, st.index[s.tunnelId], s.tunnelId, hash, |shards|)
    ensures var i := ShardOf(hash, s.tunnelId, |shards|);
            !Sim(AddOrReplace(st, s), shards[i := AddOrReplace(shards[i], s)], hash)
  {
    var n, i, old' := |shards|, ShardOf(hash, s.tunnelId, |shards|), st.index[s.tunnelId];
    var k := ShardOf(hash, st.sessions[old'].tunnelId, n);
    assert old' in shards[k].sessions && shards[i := AddOrReplace(shards[i], s)][k] == shards[k];
    assert old' !in AddOrReplace(st, s).sessions;
    assert old' !in Slice(AddOrReplace(st, s), hash, n, k).sessions;
  }

  /** Dropping the session that holds a tunnel id only touches the shard of that tunnel id. */
  lemma SliceDropped(st: Store, s: Session, hash: Hash, n: nat, k: nat)
    requires n > 0 && k < n && (Conflicts(st, s) ==> HeldHere(st, st.index[s.tunnelId], s.tunnelId, hash, n))
    ensures Conflicts(st, s) ==>
      var old' := st.index[s.tunnelId];
      Slice(st.(sessions := st.sessions - {old'}), hash, n, k)
      == if k == ShardOf(hash, s.tunnelId, n)
         then Slice(st, hash, n, k).(sessions := Slice(st, hash, n, k).sessions - {old'}) else Slice(st, hash, n, k)
  {
    if Conflicts(st, s) {
      var old' := st.index[s.tunnelId];
      var after, before := Slice(st.(sessions := st.sessions - {old'}), hash, n, k), Slice(st, hash, n, k);
      assert after.index == before.index;
      if k == ShardOf(hash, s.tunnelId, n) {
        assert after.sessions == before.sessions - {old'};
      } else {
        assert after.sessions == before.sessions;
      }
    }
  }

  lemma SimRemove(st: Store, shards: seq<Store>, hash: Hash, id: Uuid)
    requires Sim(st, shards, hash)
    ensures Sim(RemoveAll(st, {id}), ScanRemove(shards, id), hash)
  {
    ScanFinds(st, shards, hash, id);
    var n, shards' := |shards|, ScanRemove(shards, id);
    forall k | 0 <= k < n ensures shards'[k] == Slice(RemoveAll(st, {id}), hash, n, k) {
      SliceRemoveAll(st, {id}, hash, n, k);
      if !(id in shards[k].sessions) {
        RemoveAbsent(shards[k], id);
      }
    }
  }

  lemma RemoveAbsent(st: Store, id: Uuid)
    requires id !in st.sessions
    ensures RemoveAll(st, {id}) == st
  {
    assert TunnelIds(st, {id}) == {};
    assert st.sessions - {id} == st.sessions && st.index - {} == st.index;
  }

  lemma SimTouch(st: Store, shards: seq<Store>, hash: Hash, id: Uuid, now: real)
    requires Sim(st, shards, hash)
    ensures Sim(Touch(st, id, now), ScanTouch(shards, id, now), hash)
  {
    ScanFinds(st, shards, hash, id);
    var n, shards' := |shards|, ScanTouch(shards, id, now);
    forall k | 0 <= k < n ensures shards'[k] == Slice(Touch(st, id, now), hash, n, k) {
      var slice := Slice(Touch(st, id, now), hash, n, k);
      assert shards'[k].sessions == slice.sessions;
      assert shards'[k].index == slice.index;
    }
  }

  lemma SimCleanup(st: Store, shards: seq<Store>, hash: Hash, now: real, timeout: real)
    requires Sim(st, shards, hash)
    ensures Sim(RemoveAll(st, StaleIds(st, now, timeout)), CleanShards(shards, now, timeout), hash)
  {
    var n, stale := |shards|, StaleIds(st, now, timeout);
    forall k | 0 <= k < n ensures CleanShards(shards, now, timeout)[k] == Slice(RemoveAll(st, stale), hash, n, k) {
      SliceRemoveAll(st, stale, hash, n, k);
      RemoveOnlyHeld(shards[k], stale, StaleIds(shards[k], now, timeout));
    }
  }

  lemma RemoveOnlyHeld(st: Store, a: set<Uuid>, b: set<Uuid>)
    requires forall id :: id in st.sessions ==> (id in a <==> id in b)
    ensures RemoveAll(st, a) == RemoveAll(st, b)
  {
    assert TunnelIds(st, a) == TunnelIds(st, b);
    assert st.sessions - a == st.sessions - b;
  }

  // ---------------------------------------------------------------------------------------------
  // Counting
  // ---------------------------------------------------------------------------------------------

  /** The ids of `ids` whose sessions live in the first `k` shards. */
  ghost function InFirst(st: Store, ids: set<Uuid>, hash: Hash, n: nat, k: nat): set<Uuid>
    requires n > 0
  {
    set id | id in ids && id in st.sessions && ShardOf(hash, st.sessions[id].tunnelId, n) < k
  }

  ghost function InShard(st: Store, ids: set<Uuid>, hash: Hash, n: nat, k: nat): set<Uuid>
    requires n > 0
  {
    set id | id in ids && id in st.sessions && ShardOf(hash, st.sessions[id].tunnelId, n) == k
  }

  lemma FirstAndNext(st: Store, ids: set<Uuid>, hash: Hash, n: nat, k: nat)
    requires n > 0
    ensures |InFirst(st, ids, hash, n, k + 1)| == |InFirst(st, ids, hash, n, k)| + |InShard(st, ids, hash, n, k)|
    ensures InFirst(st, ids, hash, n, 0) == {}
  {
    var below, here := InFirst(st, ids, hash, n, k), InShard(st, ids, hash, n, k);
    assert InFirst(st, ids, hash, n, k + 1) == below + here;
    assert below !! here;
  }

  lemma SliceIds(st: Store, hash: Hash, n: nat, k: nat, now: real, timeout: real)
    requires n > 0 && k < n
    ensures Slice(st, hash, n, k).sessions.Keys == InShard(st, st.sessions.Keys, hash, n, k)
    ensures StaleIds(Slice(st, hash, n, k), now, timeout) == InShard(st, StaleIds(st, now, timeout), hash, n, k)
  {
  }

  lemma {:induction false} CountSlices(st: Store, shards: seq<Store>, hash: Hash, now: real, timeout: real, k: nat)
    requires Sim(st, shards, hash) && k <= |shards|
    ensures TotalCount(shards[..k]) == |InFirst(st, st.sessions.Keys, hash, |shards|, k)|
    ensures TotalStale(shards[..k], now, timeout) == |InFirst(st, StaleIds(st, now, timeout), hash, |shards|, k)|
  {
    hide InFirst, InShard, StaleIds, Slice;
    var n := |shards|;
    if k == 0 {
      FirstAndNext(st, st.sessions.Keys, hash, n, 0);
      FirstAndNext(st, StaleIds(st, now, timeout), hash, n, 0);
    } else {
      CountSlices(st, shards, hash, now, timeout, k - 1);
      assert shards[..k][..k - 1] == shards[..k - 1];
      SliceIds(st, hash, n, k - 1, now, timeout);
      FirstAndNext(st, st.sessions.Keys, hash, n, k - 1);
      FirstAndNext(st, StaleIds(st, now, timeout), hash, n, k - 1);
      assert |shards[k - 1].sessions.Keys| == |shards[k - 1].sessions|;
    }
  }

  lemma SimCounts(st: Store, shards: seq<Store>, hash: Hash, now: real, timeout: real)
    requires Sim(st, shards, hash)
    ensures TotalCount(shards) == |st.sessions|
    ensures TotalStale(shards, now, timeout) == |StaleIds(st, now, timeout)|
  {
    var n := |shards|;
    CountSlices(st, shards, hash, now, timeout, n);
    assert shards[..n] == shards;
    assert InFirst(st, st.sessions.Keys, hash, n, n) == st.sessions.Keys;
    assert InFirst(st, StaleIds(st, now, timeout), hash, n, n) == StaleIds(st, now, timeout);
    assert |st.sessions.Keys| == |st.sessions|;
  }

  // ---------------------------------------------------------------------------------------------
  // Any sequence of operations
  // ---------------------------------------------------------------------------------------------

  datatype Op =
    | DoAdd(s: Session)
    | DoAddOrReplace(s: Session)
    | DoRemove(id: Uuid)
    | DoGet(id: Uuid)
    | DoGetByTunnelId(t: TunnelId)
    | DoTouch(id: Uuid, now: real)
    | DoCount
    | DoCleanup(now: real, timeout: real)
    | DoFindCapability(capability: Text)

  datatype Answer = Accepted(ok: bool) | Found(session: Option<Session>) | Number(n: nat) | Nothing

  function FlatStep(st: Store, op: Op): (Store, Answer) {
    match op
    case DoAdd(s) => (Add(st, s), Accepted(!Conflicts(st, s)))
    case DoAddOrReplace(s) => (AddOrReplace(st, s), Nothing)
    case DoRemove(id) => (RemoveAll(st, {id}), Found(Get(st, id)))
    case DoGet(id) => (st, Found(Get(st, id)))
    case DoGetByTunnelId(t) => (st, Found(GetByTunnelId(st, t)))
    case DoTouch(id, now) => (Touch(st, id, now), Nothing)
    case DoCount => (st, Number(|st.sessions|))
    case DoCleanup(now, timeout) =>
      var stale := StaleIds(st, now, timeout);
      (RemoveAll(st, stale), Number(|stale|))
    case DoFindCapability(capability) => (st, Accepted(HasCapability(st, capability)))
  }

  function ShardStep(shards: seq<Store>, hash: Hash, op: Op): (seq<Store>, Answer)
    requires |shards| > 0
  {
    match op
    case DoAdd(s) =>
      var i := ShardOf(hash, s.tunnelId, |shards|);
      (shards[i := Add(shards[i], s)], Accepted(!Conflicts(shards[i], s)))
    case DoAddOrReplace(s) =>
      var i := ShardOf(hash, s.tunnelId, |shards|);
      (shards[i := AddOrReplace(shards[i], s)], Nothing)
    case DoRemove(id) => (ScanRemove(shards, id), Found(ScanGet(shards, id)))
    case DoGet(id) => (shards, Found(ScanGet(shards, id)))
    case DoGetByTunnelId(t) => (shards, Found(GetByTunnelId(shards[ShardOf(hash, t, |shards|)], t)))
    case DoTouch(id, now) => (ScanTouch(shards, id, now), Nothing)
    case DoCount => (shards, Number(TotalCount(shards)))
    case DoCleanup(now, timeout) => (CleanShards(shards, now, timeout), Number(TotalStale(shards, now, timeout)))
    case DoFindCapability(capability) =>
      (shards, Accepted(exists i :: 0 <= i < |shards| && HasCapability(shards[i], capability)))
  }

  /** Adding respects the ids already stored. */
  predicate Allowed(st: Store, op: Op) {
    (op.DoAdd? || op.DoAddOrReplace?) ==> MayAdd(st, op.s)
  }

  /** The operation only concerns sessions of the shard it works on. */
  predicate Local(st: Store, op: Op, hash: Hash, n: nat)
    requires n > 0
  {
    match op
    case DoAdd(s) => Conflicts(st, s) || HeldHere(st, s.id, s.tunnelId, hash, n)
    case DoAddOrReplace(s) => MayReplace(st, s, hash, n)
    case DoGetByTunnelId(t) => t in st.index ==> HeldHere(st, st.index[t], t, hash, n)
    case _ => true
  }

  lemma SimGet(st: Store, shards: seq<Store>, hash: Hash, id: Uuid)
    requires Sim(st, shards, hash)
    ensures ScanGet(shards, id) == Get(st, id)
  {
    hide Sim;
    ScanFinds(st, shards, hash, id);
  }

  lemma SimGetByTunnelIdIff(st: Store, shards: seq<Store>, hash: Hash, t: TunnelId)
    requires Sim(st, shards, hash)
    ensures GetByTunnelId(shards[ShardOf(hash, t, |shards|)], t) == GetByTunnelId(st, t)
      <==> (t in st.index ==> HeldHere(st, st.index[t], t, hash, |shards|))
  {
    var i := ShardOf(hash, t, |shards|);
    assert shards[i] == Slice(st, hash, |shards|, i);
    hide Sim;
  }

  lemma SimCapability(st: Store, shards: seq<Store>, hash: Hash, c: Text)
    requires Sim(st, shards, hash)
    ensures HasCapability(st, c) <==> exists i :: 0 <= i < |shards| && HasCapability(shards[i], c)
  {
    if HasCapability(st, c) {
      var id :| id in st.sessions && Offers(st.sessions[id], c);
      var i := ShardOf(hash, st.sessions[id].tunnelId, |shards|);
      assert shards[i] == Slice(st, hash, |shards|, i) && id in shards[i].sessions;
      assert HasCapability(shards[i], c);
    }
    if i :| 0 <= i < |shards| && HasCapability(shards[i], c) {
      var id :| id in shards[i].sessions && Offers(shards[i].sessions[id], c);
      assert shards[i] == Slice(st, hash, |shards|, i) && id in st.sessions;
    }
  }

  lemma IndexedStep(st: Store, op: Op)
    requires Indexed(st) && Allowed(st, op)
    ensures Indexed(FlatStep(st, op).0)
  {
    hide Indexed;
    match op
    case DoAdd(s) => AddKeepsIndexIff(st, s);
    case DoAddOrReplace(s) => AddKeepsIndexIff(st, s);
    case DoRemove(id) => RemoveAllIndexed(st, {id});
    case DoTouch(id, now) => TouchIndexed(st, id, now);
    case DoCleanup(now, timeout) => RemoveAllIndexed(st, StaleIds(st, now, timeout));
    case _ =>
  }

  /** One operation: the same answer, and the shards stay the slices of the store, exactly when it is local. */
  lemma SimStepIff(st: Store, shards: seq<Store>, hash: Hash, op: Op)
    requires Sim(st, shards, hash)
    ensures var flat, sharded := FlatStep(st, op), ShardStep(shards, hash, op);
            flat.1 == sharded.1 && Sim(flat.0, sharded.0, hash) <==> Local(st, op, hash, |shards|)
  {
    assert |shards| > 0;
    hide Sim, Slice, Get, GetByTunnelId, HasCapability, Add, AddOrReplace, HeldHere, MayReplace;
    match op
    case DoAdd(s) => SimAddIff(st, shards, hash, s);
    case DoAddOrReplace(s) => SimAddOrReplaceIff(st, shards, hash, s);
    case DoRemove(id) =>
      SimRemove(st, shards, hash, id);
      SimGet(st, shards, hash, id);
    case DoGet(id) => SimGet(st, shards, hash, id);
    case DoGetByTunnelId(t) => SimGetByTunnelIdIff(st, shards, hash, t);
    case DoFindCapability(c) => SimCapability(st, shards, hash, c);
    case DoTouch(id, now) => SimTouch(st, shards, hash, id, now);
    case DoCount => SimCounts(st, shards, hash, 0.0, 0.0);
    case DoCleanup(now, timeout) =>
      SimCleanup(st, shards, hash, now, timeout);
      SimCounts(st, shards, hash, now, timeout);
  }

  /** The store after a list of operations, and all the answers given. */
  function FlatRun(ops: seq<Op>): (Store, seq<Answer>) {
    if ops == [] then (EMPTY, [])
    else
      var before := FlatRun(ops[..|ops| - 1]);
      var step := FlatStep(before.0, ops[|ops| - 1]);
      (step.0, before.1 + [step.1])
  }

  function ShardRun(ops: seq<Op>, hash: Hash, n: nat): (r: (seq<Store>, seq<Answer>))
    requires n > 0
    ensures |r.0| == n
  {
    if ops == [] then (seq(n, _ => EMPTY), [])
    else
      var before := ShardRun(ops[..|ops| - 1], hash, n);
      var step := ShardStep(before.0, hash, ops[|ops| - 1]);
      (step.0, before.1 + [step.1])
  }

  predicate AllowedRun(ops: seq<Op>) {
    ops == [] || (AllowedRun(ops[..|ops| - 1]) && Allowed(FlatRun(ops[..|ops| - 1]).0, ops[|ops| - 1]))
  }

  predicate LocalRun(ops: seq<Op>, hash: Hash, n: nat)
    requires n > 0
  {
    ops == [] || (LocalRun(ops[..|ops| - 1], hash, n) && Local(FlatRun(ops[..|ops| - 1]).0, ops[|ops| - 1], hash, n))
  }

  /** After every prefix the shards are the slices of the single store, and every answer so far was the same. */
  ghost predicate Tracks(ops: seq<Op>, hash: Hash, n: nat)
    requires n > 0
  {
    && (ops == [] || Tracks(ops[..|ops| - 1], hash, n))
    && FlatRun(ops).1 == ShardRun(ops, hash, n).1
    && Sim(FlatRun(ops).0, ShardRun(ops, hash, n).0, hash)
  }

  /**
   For every sequence of operations, every hash and every number of shards: the sharded store simulates the single
   one, answer by answer, exactly when no operation reaches across shards. That is, no accepted session has an id
   that another shard holds, and no index entry that is used leads to a session of another shard.
   */
  lemma {:induction false} TracksIff(ops: seq<Op>, hash: Hash, n: nat)
    requires n > 0
    ensures Tracks(ops, hash, n) <==> LocalRun(ops, hash, n)
  {
    hide FlatStep, ShardStep, Sim, Local;
    if ops == [] {
      SimStart(hash, n);
    } else {
      var front, op := ops[..|ops| - 1], ops[|ops| - 1];
      TracksIff(front, hash, n);
      if Tracks(front, hash, n) {
        SimStepIff(FlatRun(front).0, ShardRun(front, hash, n).0, hash, op);
        var flat, sharded := FlatRun(front).1, ShardRun(front, hash, n).1;
        var a, b := FlatStep(FlatRun(front).0, op).1, ShardStep(ShardRun(front, hash, n).0, hash, op).1;
        assert flat == sharded && (flat + [a] == sharded + [b] <==> a == b) by { LastEqual(flat, a, b); }
      }
    }
  }

  lemma LastEqual(answers: seq<Answer>, a: Answer, b: Answer)
    ensures answers + [a] == answers + [b] <==> a == b
  {
    if answers + [a] == answers + [b] {
      assert (answers + [a])[|answers|] == (answers + [b])[|answers|];
    }
  }

  /** With an exact index, adding only ids that are not stored under another tunnel id is local, whatever the hash. */
  lemma AllowedIsLocal(st: Store, op: Op, hash: Hash, n: nat)
    requires n > 0 && Indexed(st) && Allowed(st, op)
    ensures Local(st, op, hash, n)
  {
  }

  /**
   So for every sequence of operations that never adds an id stored under another tunnel id, and every hash and
   number of shards, the sharded store gives the answers of the single store, keeps every session in the shard its
   tunnel id hashes to, and keeps no id in two shards.
   */
  lemma {:induction false} ShardedSimulates(ops: seq<Op>, hash: Hash, n: nat)
    requires n > 0 && AllowedRun(ops)
    ensures var flat, sharded := FlatRun(ops), ShardRun(ops, hash, n);
            && flat.1 == sharded.1
            && Sim(flat.0, sharded.0, hash)
            && Disjoint(sharded.0)
            && Indexed(flat.0)
  {
    AllowedRunIsLocal(ops, hash, n);
    TracksIff(ops, hash, n);
    hide FlatRun, ShardRun, LocalRun;
    SimPlacement(FlatRun(ops).0, ShardRun(ops, hash, n).0, hash);
  }

  lemma {:induction false} AllowedRunIsLocal(ops: seq<Op>, hash: Hash, n: nat)
    requires n > 0 && AllowedRun(ops)
    ensures LocalRun(ops, hash, n) && Indexed(FlatRun(ops).0)
  {
    hide FlatStep, Indexed, Allowed, Local;
    if ops == [] {
      SimStart(hash, n);
    } else {
      var front, op := ops[..|ops| - 1], ops[|ops| - 1];
      AllowedRunIsLocal(front, hash, n);
      AllowedIsLocal(FlatRun(front).0, op, hash, n);
      IndexedStep(FlatRun(front).0, op);
    }
  }

  lemma SimStart(hash: Hash, n: nat)
    requires n > 0
    ensures Sim(EMPTY, seq(n, _ => EMPTY), hash) && Indexed(EMPTY)
  {
    forall i | 0 <= i < n ensures Slice(EMPTY, hash, n, i) == EMPTY {
      assert Slice(EMPTY, hash, n, i).sessions == map[] && Slice(EMPTY, hash, n, i).index == map[];
    }
  }

  /** For instance, an id added again under a tunnel id of another shard is then in both, and counted twice. */
  lemma ReusedIdSplits(hash: Hash, n: nat, first: Session, second: Session)
    requires n > 0 && first.id == second.id
    requires ShardOf(hash, first.tunnelId, n) != ShardOf(hash, second.tunnelId, n)
    ensures var ops := [DoAdd(first), DoAdd(second)];
            !AllowedRun(ops) && !Disjoint(ShardRun(ops, hash, n).0)
            && TotalCount(ShardRun(ops, hash, n).0) != |FlatRun(ops).0.sessions|
  {
    var a, b := DoAdd(first), DoAdd(second);
    assert [a, b][..1] == [a] && [a][..0] == [];
    assert FlatRun([]).0 == EMPTY && FlatRun([a]).0 == Sessions.Insert(EMPTY, first);
    var s0, s1, s2 := ShardRun([], hash, n).0, ShardRun([a], hash, n).0, ShardRun([a, b], hash, n).0;
    var i, j := ShardOf(hash, first.tunnelId, n), ShardOf(hash, second.tunnelId, n);
    assert s1 == s0[i := Sessions.Insert(EMPTY, first)];
    assert s2 == s1[j := Sessions.Insert(EMPTY, second)];
    assert first.id in s2[i].sessions && first.id in s2[j].sessions;
    assert FlatRun([a, b]).0.sessions == map[first.id := second];
    if i < j {
      TwoCounted(s2, i, j, first.id);
    } else {
      TwoCounted(s2, j, i, first.id);
    }
  }

  lemma {:induction false} OneCounted(shards: seq<Store>, i: nat, id: Uuid)
    requires i < |shards| && id in shards[i].sessions
    ensures TotalCount(shards) >= 1
  {
    if i + 1 < |shards| {
      OneCounted(shards[..|shards| - 1], i, id);
    } else {
      assert |shards[i].sessions.Keys| == |shards[i].sessions|;
    }
  }

  lemma {:induction false} TwoCounted(shards: seq<Store>, i: nat, j: nat, id: Uuid)
    requires i < j < |shards| && id in shards[i].sessions && id in shards[j].sessions
    ensures TotalCount(shards) >= 2 && !Disjoint(shards)
  {
    if j + 1 < |shards| {
      TwoCounted(shards[..|shards| - 1], i, j, id);
    } else {
      OneCounted(shards[..|shards| - 1], i, id);
      assert |shards[j].sessions.Keys| == |shards[j].sessions|;
    }
    assert !(shards[i].sessions.Keys !! shards[j].sessions.Keys);
  }

  // ---------------------------------------------------------------------------------------------
  // The sharded store as an object
  // ---------------------------------------------------------------------------------------------

  class ShardedSessionStore {
    const hash: Hash
    var shards: seq<Store>

    constructor (hash: Hash, n: nat)
      requires n > 0
      ensures this.hash == hash && shards == seq(n, _ => EMPTY)
    {
      this.hash := hash;
      shards := seq(n, _ => EMPTY);
    }

    /**
     Claim the tunnel id in its shard's index, then insert the session. Against any single store these shards are
     the slices of, the answer is that store's, and unless the id is in another shard they stay its slices.
     */
    method AddSession(s: Session) returns (ok: bool)
      requires |shards| > 0
      modifies this
      ensures (shards, Accepted(ok)) == ShardStep(old(shards), hash, DoAdd(s))
      ensures ok ==> GetByTunnelId(shards[ShardOf(hash, s.tunnelId, |shards|)], s.tunnelId) == Some(s)
      ensures forall st :: Sim(st, old(shards), hash) ==>
        && (ok <==> !Conflicts(st, s))
        && (Sim(Add(st, s), shards, hash) <==> !ok || HeldHere(st, s.id, s.tunnelId, hash, |shards|))
    {
      var i := ShardOf(hash, s.tunnelId, |shards|);
      ghost var before := shards;
      var index := shards[i].index;
      ok := true;
      if s.tunnelId in index {
        ok := index[s.tunnelId] == s.id;
      } else {
        shards := shards[i := shards[i].(index := index[s.tunnelId := s.id])];
      }
      if ok {
        assert shards[i].index == before[i].index[s.tunnelId := s.id];
        shards := shards[i := shards[i].(sessions := shards[i].sessions[s.id := s])];
      }
      assert shards == before[i := Add(before[i], s)];
      forall st | Sim(st, before, hash)
        ensures ok <==> !Conflicts(st, s)
        ensures Sim(Add(st, s), shards, hash) <==> !ok || HeldHere(st, s.id, s.tunnelId, hash, |shards|)
      {
        SimAddIff(st, before, hash, s);
      }
    }

    /** Take the tunnel id's index entry and the session it led to out of its shard, then insert the new ones. */
    method AddOrReplaceSession(s: Session)
      requires |shards| > 0
      modifies this
      ensures shards == ShardStep(old(shards), hash, DoAddOrReplace(s)).0
      ensures forall st :: Sim(st, old(shards), hash) ==>
        (Sim(AddOrReplace(st, s), shards, hash) <==> MayReplace(st, s, hash, |shards|))
    {
      var i := ShardOf(hash, s.tunnelId, |shards|);
      ghost var before := shards;
      var index, sessions := shards[i].index, shards[i].sessions;
      if s.tunnelId in index {
        var oldId := index[s.tunnelId];
        index := index - {s.tunnelId};
        if oldId != s.id {
          sessions := sessions - {oldId};
        }
      }
      shards := shards[i := Store(sessions[s.id := s], index[s.tunnelId := s.id])];
      assert index[s.tunnelId := s.id] == before[i].index[s.tunnelId := s.id];
      assert shards == before[i := AddOrReplace(before[i], s)];
      forall st | Sim(st, before, hash)
        ensures Sim(AddOrReplace(st, s), shards, hash) <==> MayReplace(st, s, hash, |shards|)
      {
        SimAddOrReplaceIff(st, before, hash, s);
      }
    }

    /** Look the tunnel id up in its own shard only. */
    method FindByTunnelId(t: TunnelId) returns (r: Option<Session>)
      requires |shards| > 0
      ensures Found(r) == ShardStep(shards, hash, DoGetByTunnelId(t)).1
      ensures forall st :: Sim(st, shards, hash) && Indexed(st) ==> r == GetByTunnelId(st, t)
    {
      var shard := shards[ShardOf(hash, t, |shards|)];
      r := None;
      if t in shard.index {
        var id := shard.index[t];
        r := if id in shard.sessions then Some(shard.sessions[id]) else None;
      }
      forall st | Sim(st, shards, hash) && Indexed(st) ensures r == GetByTunnelId(st, t) {
        SimGetByTunnelIdIff(st, shards, hash, t);
      }
    }

    /** `get_mut` by scanning, then `update_heartbeat`. */
    method UpdateHeartbeat(id: Uuid, now: real) returns (found: bool)
      modifies this
      ensures shards == ScanTouch(old(shards), id, now) && (found <==> ScanGet(old(shards), id).Some?)
      ensures |old(shards)| > 0 ==> (shards, Nothing) == ShardStep(old(shards), hash, DoTouch(id, now))
    {
      var at := Find(id);
      found := at.Some?;
      if found {
        var shard := shards[at.value];
        shards := shards[at.value := shard.(sessions := shard.sessions[id := shard.sessions[id].(heartbeat := now)])];
      }
    }

    /** Scan the shards for the first that holds the id. */
    method Find(id: Uuid) returns (r: Option<nat>)
      ensures r == FirstShard(shards, id)
    {
      var i := 0;
      assert shards[0..] == shards;
      while i < |shards|
        invariant 0 <= i <= |shards|
        invariant FirstShard(shards, id) == match FirstShard(shards[i..], id) case None => None case Some(k) => Some(i + k)
      {
        if id in shards[i].sessions {
          return Some(i);
        }
        assert shards[i..][1..] == shards[i + 1..];
        i := i + 1;
      }
      r := None;
    }

    method GetSession(id: Uuid) returns (r: Option<Session>)
      ensures r == ScanGet(shards, id)
      ensures |shards| > 0 ==> (shards, Found(r)) == ShardStep(shards, hash, DoGet(id))
    {
      var at := Find(id);
      r := if at.Some? then Some(shards[at.value].sessions[id]) else None;
    }

    method RemoveSession(id: Uuid) returns (r: Option<Session>)
      modifies this
      ensures shards == ScanRemove(old(shards), id) && r == ScanGet(old(shards), id)
      ensures |old(shards)| > 0 ==> (shards, Found(r)) == ShardStep(old(shards), hash, DoRemove(id))
    {
      var at := Find(id);
      if at.None? {
        return None;
      }
      r := Some(shards[at.value].sessions[id]);
      shards := shards[at.value := RemoveAll(shards[at.value], {id})];
    }

    method Count() returns (n: nat)
      ensures n == TotalCount(shards)
      ensures |shards| > 0 ==> (shards, Number(n)) == ShardStep(shards, hash, DoCount)
    {
      n := 0;
      for i := 0 to |shards|
        invariant n == TotalCount(shards[..i])
      {
        assert shards[..i + 1][..i] == shards[..i];
        n := n + |shards[i].sessions|;
      }
      assert shards[..|shards|] == shards;
    }

    /** The scan for a capability, shard by shard, each in whatever order its map yields the sessions. */
    method FindMultiplexerWithCapability(capability: Text) returns (r: Option<nat>)
      ensures r.Some? ==> exists i, id ::
        && 0 <= i < |shards| && id in shards[i].sessions
        && capability in shards[i].sessions[id].capabilities && shards[i].sessions[id].multiplexer == r
      ensures r.None? ==> forall i :: 0 <= i < |shards| ==> NoneOffers(shards[i], capability)
      ensures |shards| > 0 ==> (shards, Accepted(r.Some?)) == ShardStep(shards, hash, DoFindCapability(capability))
    {
      for k := 0 to |shards|
        invariant forall i :: 0 <= i < k ==> NoneOffers(shards[i], capability)
      {
        var unseen := shards[k].sessions.Keys;
        while unseen != {}
          invariant unseen <= shards[k].sessions.Keys
          invariant forall id :: id in shards[k].sessions && id !in unseen && capability in shards[k].sessions[id].capabilities ==>
            shards[k].sessions[id].multiplexer.None?
          decreases unseen
        {
          var id :| id in unseen;
          var session := shards[k].sessions[id];
          if capability in session.capabilities && session.multiplexer.Some? {
            return session.multiplexer;
          }
          unseen := unseen - {id};
        }
      }
      r := None;
    }

    /** Note the stale ids of one shard, in whatever order its map yields them. */
    method CollectShard(k: nat, now: real, timeout: real, found: seq<Uuid>) returns (found': seq<Uuid>)
      requires k < |shards|
      ensures multiset(found') == multiset(found) + multiset(StaleIds(shards[k], now, timeout))
    {
      found' := found;
      var unseen := StaleIds(shards[k], now, timeout);
      ghost var stale, seen := unseen, {};
      while unseen != {}
        invariant seen + unseen == stale && seen !! unseen
        invariant multiset(found') == multiset(found) + multiset(seen)
        decreases unseen
      {
        var id :| id in unseen;
        found' := found' + [id];
        unseen := unseen - {id};
        MultisetAdd(seen, id);
        seen := seen + {id};
      }
      assert seen == stale;
    }

    /**
     Collect the stale ids shard by shard, then remove each by scanning for it. With no id in two shards that
     removes exactly the stale sessions; an id in two shards is removed from the first of them, stale there or not.
     */
    method CleanupStaleSessions(now: real, timeout: real) returns (count: nat, ghost removed: seq<Uuid>)
      modifies this
      ensures multiset(removed) == StaleBag(old(shards), now, timeout) && count == |removed|
      ensures shards == RemoveEach(old(shards), removed)
      ensures count == TotalStale(old(shards), now, timeout)
      ensures Disjoint(old(shards)) ==> shards == CleanShards(old(shards), now, timeout)
      ensures Disjoint(old(shards)) && |old(shards)| > 0 ==>
        (shards, Number(count)) == ShardStep(old(shards), hash, DoCleanup(now, timeout))
    {
      hide StaleIds, CleanShards, Disjoint;
      ghost var before := shards;
      var toRemove: seq<Uuid> := [];
      for i := 0 to |shards|
        invariant shards == before
        invariant multiset(toRemove) == StaleBag(shards[..i], now, timeout)
      {
        assert shards[..i + 1][..i] == shards[..i];
        toRemove := CollectShard(i, now, timeout, toRemove);
      }
      assert shards[..|shards|] == shards;
      count, removed := |toRemove|, toRemove;
      BagSize(before, now, timeout);
      assert |multiset(toRemove)| == |toRemove|;
      for i := 0 to |toRemove|
        invariant shards == RemoveEach(before, toRemove[..i])
      {
        assert toRemove[..i + 1][..i] == toRemove[..i];
        var _ := RemoveSession(toRemove[i]);
      }
      assert toRemove[..|toRemove|] == toRemove;
      if Disjoint(before) {
        RemoveEachCleans(before, toRemove, now, timeout);
      }
    }
  }

  /** No session of the shard both has the capability and a multiplexer. */
  ghost predicate NoneOffers(st: Store, capability: Text) {
    forall id :: id in st.sessions && capability in st.sessions[id].capabilities ==> st.sessions[id].multiplexer.None?
  }

  lemma MultisetAdd(seen: set<Uuid>, id: Uuid)
    requires id !in seen
    ensures multiset(seen + {id}) == multiset(seen) + multiset{id}
  {
  }

  /** The stale ids of all the shards, each as often as it is stale in one. */
  ghost function StaleBag(shards: seq<Store>, now: real, timeout: real): multiset<Uuid> {
    if shards == [] then multiset{}
    else StaleBag(shards[..|shards| - 1], now, timeout) + multiset(StaleIds(shards[|shards| - 1], now, timeout))
  }

  function RemoveEach(shards: seq<Store>, ids: seq<Uuid>): seq<Store> {
    if ids == [] then shards else ScanRemove(RemoveEach(shards, ids[..|ids| - 1]), ids[|ids| - 1])
  }

  lemma {:induction false} BagSize(shards: seq<Store>, now: real, timeout: real)
    ensures |StaleBag(shards, now, timeout)| == TotalStale(shards, now, timeout)
  {
    hide StaleIds;
    if shards == [] {
    } else {
      BagSize(shards[..|shards| - 1], now, timeout);
      var last := StaleIds(shards[|shards| - 1], now, timeout);
      assert |multiset(last)| == |last|;
    }
  }

  lemma {:induction false} BagMembers(shards: seq<Store>, now: real, timeout: real, id: Uuid)
    ensures id in StaleBag(shards, now, timeout) <==> id in StaleIn(shards, now, timeout)
  {
    hide StaleIds;
    if shards == [] {
    } else {
      BagMembers(shards[..|shards| - 1], now, timeout, id);
    }
  }

  function Ids(ids: seq<Uuid>): set<Uuid> {
    set id | id in ids
  }

  lemma {:induction false} RemoveEachShears(shards: seq<Store>, ids: seq<Uuid>)
    requires Disjoint(shards)
    ensures RemoveEach(shards, ids) == Shorn(shards, Ids(ids))
  {
    hide Disjoint, Shorn, ScanRemove;
    if ids == [] {
      Unshorn(shards);
      assert Ids(ids) == {};
    } else {
      var front, last := ids[..|ids| - 1], ids[|ids| - 1];
      RemoveEachShears(shards, front);
      ShearOne(shards, Ids(front), last);
      assert ids == front + [last];
      assert Ids(ids) == Ids(front) + {last};
    }
  }

  lemma RemoveEachCleans(shards: seq<Store>, ids: seq<Uuid>, now: real, timeout: real)
    requires Disjoint(shards) && multiset(ids) == StaleBag(shards, now, timeout)
    ensures RemoveEach(shards, ids) == CleanShards(shards, now, timeout)
  {
    hide Disjoint, Shorn, StaleIn, StaleBag, RemoveEach, CleanShards;
    RemoveEachShears(shards, ids);
    ShornClean(shards, now, timeout);
    var stale := StaleIn(shards, now, timeout);
    forall id ensures id in Ids(ids) <==> id in stale {
      BagMembers(shards, now, timeout, id);
      assert id in ids <==> id in multiset(ids);
    }
    assert Ids(ids) == stale;
  }

  function StaleIn(shards: seq<Store>, now: real, timeout: real): set<Uuid> {
    if shards == [] then {} else StaleIn(shards[..|shards| - 1], now, timeout) + StaleIds(shards[|shards| - 1], now, timeout)
  }

  /** Every shard without the sessions in `ids`. */
  ghost function Shorn(shards: seq<Store>, ids: set<Uuid>): seq<Store> {
    seq(|shards|, i requires 0 <= i < |shards| => RemoveAll(shards[i], ids))
  }

  lemma Unshorn(shards: seq<Store>)
    ensures Shorn(shards, {}) == shards
  {
    forall i | 0 <= i < |shards| ensures Shorn(shards, {})[i] == shards[i] {
      RemoveNone(shards[i]);
    }
  }

  lemma ShearOne(shards: seq<Store>, ids: set<Uuid>, id: Uuid)
    requires Disjoint(shards)
    ensures ScanRemove(Shorn(shards, ids), id) == Shorn(shards, ids + {id})
  {
    var now := Shorn(shards, ids);
    var at := FirstShard(now, id);
    forall i | 0 <= i < |shards| ensures ScanRemove(now, id)[i] == RemoveAll(shards[i], ids + {id}) {
      RemoveAllTwice(shards[i], ids, {id});
      if at != Some(i) {
        assert at.Some? ==> id in shards[at.value].sessions.Keys;
        assert id !in now[i].sessions;
        RemoveAbsent(now[i], id);
      }
    }
  }

  lemma {:induction false} StaleInMember(shards: seq<Store>, now: real, timeout: real, id: Uuid)
    ensures id in StaleIn(shards, now, timeout) <==> exists i :: 0 <= i < |shards| && id in StaleIds(shards[i], now, timeout)
  {
    hide StaleIds;
    if shards == [] {
    } else {
      var front, n := shards[..|shards| - 1], |shards| - 1;
      StaleInMember(front, now, timeout, id);
      assert forall i :: 0 <= i < n ==> front[i] == shards[i];
      if id in StaleIds(shards[n], now, timeout) {
        assert exists i :: 0 <= i < |shards| && id in StaleIds(shards[i], now, timeout);
      } else if i :| 0 <= i < n && id in StaleIds(front[i], now, timeout) {
        assert id in StaleIds(shards[i], now, timeout);
      }
    }
  }

  lemma ShornClean(shards: seq<Store>, now: real, timeout: real)
    requires Disjoint(shards)
    ensures Shorn(shards, StaleIn(shards, now, timeout)) == CleanShards(shards, now, timeout)
  {
    var all := StaleIn(shards, now, timeout);
    forall i | 0 <= i < |shards| ensures RemoveAll(shards[i], all) == RemoveAll(shards[i], StaleIds(shards[i], now, timeout)) {
      forall id | id in shards[i].sessions ensures id in all <==> id in StaleIds(shards[i], now, timeout) {
        StaleInMember(shards, now, timeout, id);
        if k :| 0 <= k < |shards| && id in StaleIds(shards[k], now, timeout) {
          assert id in shards[k].sessions.Keys && id in shards[i].sessions.Keys;
        }
      }
      RemoveOnlyHeld(shards[i], all, StaleIds(shards[i], now, timeout));
    }
  }
}
