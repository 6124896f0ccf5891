/**
 The sharded session store under concurrency (ferrotunnel-core/src/tunnel/session.rs, `ShardedSessionStore`): every map
 operation on one shard is one atomic step, and calls on the same or different shards interleave in any way.
 */
module ShardedSteps {
  import opened Seqs
  import opened Frames
  import opened Sessions
  import opened ShardedSessions
  import Steps = SessionSteps

  /** One step of some call, on shard `shard`. */
  datatype ShardEvent = ShardEvent(shard: nat, ev: Steps.Event)

  /**
   An add and a lookup by tunnel id work on the shard the tunnel id hashes to. A removal or a heartbeat tries the
   shards one after the other; a try that finds nothing changes nothing, so it may come at any shard. New session
   ids were never used before, in any shard.
   */
  ghost predicate Fits(hash: Hash, shards: seq<Steps.Shared>, e: ShardEvent) {
    && e.shard < |shards|
    && match e.ev
       case ClaimIndex(_, s) =>
         && e.shard == ShardOf(hash, s.tunnelId, |shards|)
         && (forall k :: 0 <= k < |shards| ==> s.id !in shards[k].made)
       case ReadIndex(_, t) => e.shard == ShardOf(hash, t, |shards|)
       case _ => true
  }

  /** One step; an event whose turn it is not changes nothing. */
  ghost function Next(hash: Hash, shards: seq<Steps.Shared>, e: ShardEvent): seq<Steps.Shared> {
    if Fits(hash, shards, e) then shards[e.shard := Steps.Next(shards[e.shard], e.ev)] else shards
  }

  ghost function Run(hash: Hash, n: nat, events: seq<ShardEvent>): (r: seq<Steps.Shared>)
    ensures |r| == n
  {
    if events == [] then seq(n, _ => Steps.FRESH)
    else Next(hash, Run(hash, n, events[..|events| - 1]), events[|events| - 1])
  }

  // ---------------------------------------------------------------------------------------------
  // The invariant
  // ---------------------------------------------------------------------------------------------

  /** Every id a shard ever saw was created for a tunnel id of that shard. */
  ghost predicate AtHome(hash: Hash, c: Steps.Shared, i: nat, n: nat)
    requires n > 0
  {
    forall id :: id in c.made ==> ShardOf(hash, c.made[id], n) == i
  }

  ghost predicate Apart(shards: seq<Steps.Shared>) {
    forall i, j :: 0 <= i < j < |shards| ==> shards[i].made.Keys !! shards[j].made.Keys
  }

  ghost predicate Inv(hash: Hash, shards: seq<Steps.Shared>) {
    && (forall i :: 0 <= i < |shards| ==> Steps.Inv(shards[i]) && AtHome(hash, shards[i], i, |shards|))
    && Apart(shards)
  }

  /** Only a claim makes an id known. */
  lemma MadeGrows(c: Steps.Shared, ev: Steps.Event)
    ensures var c' := Steps.Next(c, ev);
            c'.made == c.made || (ev.ClaimIndex? && c'.made == c.made[ev.s.id := ev.s.tunnelId])
  {
  }

  lemma ApartStep(shards: seq<Steps.Shared>, i: nat, c: Steps.Shared, id: Uuid)
    requires Apart(shards) && i < |shards| && c.made.Keys <= shards[i].made.Keys + {id}
    requires id in c.made ==> id in shards[i].made || forall k :: 0 <= k < |shards| ==> id !in shards[k].made
    ensures Apart(shards[i := c])
  {
    var after := shards[i := c];
    forall a, b | 0 <= a < b < |after| ensures after[a].made.Keys !! after[b].made.Keys {
      assert shards[a].made.Keys !! shards[b].made.Keys;
    }
  }

  lemma NextInv(hash: Hash, shards: seq<Steps.Shared>, e: ShardEvent)
    requires Inv(hash, shards)
    ensures Inv(hash, Next(hash, shards, e))
  {
    if Fits(hash, shards, e) {
      var i, c := e.shard, shards[e.shard];
      var c' := Steps.Next(c, e.ev);
      Steps.NextInv(c, e.ev);
      MadeGrows(c, e.ev);
      hide Steps.Inv, Steps.Next;
      assert AtHome(hash, c', i, |shards|);
      ApartStep(shards, i, c', if e.ev.ClaimIndex? then e.ev.s.id else 0);
    }
  }

  lemma {:induction false} RunInv(hash: Hash, n: nat, events: seq<ShardEvent>)
    ensures Inv(hash, Run(hash, n, events))
  {
    if events == [] {
    } else {
      RunInv(hash, n, events[..|events| - 1]);
      hide Inv;
      NextInv(hash, Run(hash, n, events[..|events| - 1]), events[|events| - 1]);
    }
  }

  // ---------------------------------------------------------------------------------------------
  // What holds in every run
  // ---------------------------------------------------------------------------------------------

  ghost predicate Stored(shards: seq<Steps.Shared>, i: nat, id: Uuid) {
    i < |shards| && id in shards[i].store.sessions
  }

  ghost function SessionAt(shards: seq<Steps.Shared>, i: nat, id: Uuid): Session
    requires Stored(shards, i, id)
  {
    shards[i].store.sessions[id]
  }

  lemma StoredIsHome(hash: Hash, shards: seq<Steps.Shared>, i: nat, id: Uuid)
    requires Inv(hash, shards) && Stored(shards, i, id)
    ensures var s := SessionAt(shards, i, id);
            && id in shards[i].made && s.id == id
            && ShardOf(hash, s.tunnelId, |shards|) == i
            && GetByTunnelId(shards[i].store, s.tunnelId) == Some(s)
  {
    assert Steps.Inv(shards[i]) && AtHome(hash, shards[i], i, |shards|);
    hide Steps.PendingOk, Steps.IndexOk, Steps.LookingOk, Apart;
  }

  /**
   After every interleaving each stored session is in the shard of its tunnel id, where that tunnel id leads to it;
   and over all the shards no id and no tunnel id has two sessions.
   */
  lemma StoredSessionsAreAtHome(hash: Hash, n: nat, events: seq<ShardEvent>)
    ensures var shards := Run(hash, n, events);
            && (forall i: nat, id :: Stored(shards, i, id) ==>
                  && ShardOf(hash, SessionAt(shards, i, id).tunnelId, n) == i
                  && GetByTunnelId(shards[i].store, SessionAt(shards, i, id).tunnelId) == Some(SessionAt(shards, i, id)))
            && (forall i: nat, j: nat, id :: Stored(shards, i, id) && Stored(shards, j, id) ==> i == j)
            && (forall i: nat, j: nat, a, b :: Stored(shards, i, a) && Stored(shards, j, b) ==>
                  SessionAt(shards, i, a).tunnelId == SessionAt(shards, j, b).tunnelId ==> i == j && a == b)
  {
    RunInv(hash, n, events);
    var shards := Run(hash, n, events);
    hide Inv, Run;
    forall i: nat, id | Stored(shards, i, id)
      ensures ShardOf(hash, SessionAt(shards, i, id).tunnelId, n) == i && SessionAt(shards, i, id).id == id
      ensures GetByTunnelId(shards[i].store, SessionAt(shards, i, id).tunnelId) == Some(SessionAt(shards, i, id))
    {
      StoredIsHome(hash, shards, i, id);
    }
    forall i: nat, j: nat, id | Stored(shards, i, id) && Stored(shards, j, id) ensures i == j {
      StoredTwice(hash, shards, i, j, id);
    }
  }

  lemma StoredTwice(hash: Hash, shards: seq<Steps.Shared>, i: nat, j: nat, id: Uuid)
    requires Inv(hash, shards) && Stored(shards, i, id) && Stored(shards, j, id)
    ensures i == j
  {
    StoredIsHome(hash, shards, i, id);
    StoredIsHome(hash, shards, j, id);
    hide Steps.Inv, AtHome;
    assert id in shards[i].made.Keys && id in shards[j].made.Keys;
  }

  /** A lookup by tunnel id, its two reads apart, only ever returns a session of that tunnel id. */
  lemma ShardLookupIsRight(hash: Hash, n: nat, events: seq<ShardEvent>, i: nat, caller: Steps.Caller)
    requires i < n && caller in Run(hash, n, events)[i].looking
    ensures var c := Run(hash, n, events)[i];
            var (t, id) := c.looking[caller];
            Get(c.store, id).Some? ==> Get(c.store, id).value.tunnelId == t
  {
    RunInv(hash, n, events);
    var c := Run(hash, n, events)[i];
    assert Steps.Inv(c);
    hide Run, Inv, Steps.PendingOk, Steps.IndexOk;
  }

  lemma RunPush(hash: Hash, n: nat, events: seq<ShardEvent>, e: ShardEvent)
    ensures Run(hash, n, events + [e]) == Next(hash, Run(hash, n, events), e)
  {
    hide Next;
    assert (events + [e])[..|events|] == events;
  }

  /**
   With nobody in between, the two steps of an add on the shard of its tunnel id are the sequential add of the sharded
   store, and the two of a removal on the shard that holds the session its sequential removal.
   */
  lemma UninterruptedIsSequential(hash: Hash, n: nat, events: seq<ShardEvent>, caller: Steps.Caller, s: Session, i: nat, id: Uuid)
    requires n > 0 && forall k :: 0 <= k < n ==> Steps.Idle(Run(hash, n, events)[k], caller)
    ensures (forall k :: 0 <= k < n ==> s.id !in Run(hash, n, events)[k].made) ==>
      var h := ShardOf(hash, s.tunnelId, n);
      Stores(Run(hash, n, events + [ShardEvent(h, Steps.ClaimIndex(caller, s))] + [ShardEvent(h, Steps.InsertSession(caller))]))
      == ShardStep(Stores(Run(hash, n, events)), hash, DoAdd(s)).0
    ensures FirstShard(Stores(Run(hash, n, events)), id) == Some(i) ==>
      Stores(Run(hash, n, events + [ShardEvent(i, Steps.TakeSession(caller, id))] + [ShardEvent(i, Steps.DropIndex(caller))]))
      == ScanRemove(Stores(Run(hash, n, events)), id)
  {
    var shards := Run(hash, n, events);
    RunInv(hash, n, events);
    var h := ShardOf(hash, s.tunnelId, n);
    var a, b := ShardEvent(h, Steps.ClaimIndex(caller, s)), ShardEvent(h, Steps.InsertSession(caller));
    var c, d := ShardEvent(i, Steps.TakeSession(caller, id)), ShardEvent(i, Steps.DropIndex(caller));
    RunPush(hash, n, events, a);
    RunPush(hash, n, events + [a], b);
    RunPush(hash, n, events, c);
    RunPush(hash, n, events + [c], d);
    hide Run, Next, Inv, Stores, FirstShard, ScanRemove, ShardStep;
    if forall k :: 0 <= k < n ==> s.id !in shards[k].made {
      ShardAddSteps(hash, shards, caller, s);
    }
    if FirstShard(Stores(shards), id) == Some(i) {
      ShardRemoveSteps(hash, shards, caller, i, id);
    }
  }

  lemma ShardAddSteps(hash: Hash, shards: seq<Steps.Shared>, caller: Steps.Caller, s: Session)
    requires shards != [] && Inv(hash, shards) && Steps.Idle(shards[ShardOf(hash, s.tunnelId, |shards|)], caller)
    requires forall k :: 0 <= k < |shards| ==> s.id !in shards[k].made
    ensures var h := ShardOf(hash, s.tunnelId, |shards|);
            var a, b := ShardEvent(h, Steps.ClaimIndex(caller, s)), ShardEvent(h, Steps.InsertSession(caller));
            Stores(Next(hash, Next(hash, shards, a), b)) == ShardStep(Stores(shards), hash, DoAdd(s)).0
  {
    var h := ShardOf(hash, s.tunnelId, |shards|);
    var a, b := ShardEvent(h, Steps.ClaimIndex(caller, s)), ShardEvent(h, Steps.InsertSession(caller));
    assert Steps.Inv(shards[h]);
    Steps.AddSteps(shards[h], caller, s);
    hide Steps.Next, Steps.Inv, AtHome, Add;
    assert Next(hash, Next(hash, shards, a), b) == shards[h := Steps.Next(Steps.Next(shards[h], a.ev), b.ev)];
  }

  lemma ShardRemoveSteps(hash: Hash, shards: seq<Steps.Shared>, caller: Steps.Caller, i: nat, id: Uuid)
    requires FirstShard(Stores(shards), id) == Some(i) && Steps.Idle(shards[i], caller)
    ensures var a, b := ShardEvent(i, Steps.TakeSession(caller, id)), ShardEvent(i, Steps.DropIndex(caller));
            Stores(Next(hash, Next(hash, shards, a), b)) == ScanRemove(Stores(shards), id)
  {
    var a, b := ShardEvent(i, Steps.TakeSession(caller, id)), ShardEvent(i, Steps.DropIndex(caller));
    Steps.RemoveSteps(shards[i], caller, id);
    hide Steps.Next, FirstShard, RemoveAll;
    assert Next(hash, Next(hash, shards, a), b) == shards[i := Steps.Next(Steps.Next(shards[i], a.ev), b.ev)];
  }

  // ---------------------------------------------------------------------------------------------
  // With no call in progress
  // ---------------------------------------------------------------------------------------------

  /** The single store that holds what all the shards hold. */
  ghost function Merge(stores: seq<Store>): Store {
    if stores == [] then EMPTY
    else
      var front, last := Merge(stores[..|stores| - 1]), stores[|stores| - 1];
      Store(front.sessions + last.sessions, front.index + last.index)
  }

  /** Sessions and index entries of different shards have different keys. */
  ghost predicate Separate(stores: seq<Store>) {
    forall i, j :: 0 <= i < j < |stores| ==>
      stores[i].sessions.Keys !! stores[j].sessions.Keys && stores[i].index.Keys !! stores[j].index.Keys
  }

  lemma {:induction false} MergeSessions(stores: seq<Store>, id: Uuid)
    requires Separate(stores)
    ensures id in Merge(stores).sessions <==> exists i :: 0 <= i < |stores| && id in stores[i].sessions
    ensures forall i :: 0 <= i < |stores| && id in stores[i].sessions ==>
      id in Merge(stores).sessions && Merge(stores).sessions[id] == stores[i].sessions[id]
  {
    if stores == [] {
    } else {
      var front, n := stores[..|stores| - 1], |stores| - 1;
      assert forall i :: 0 <= i < n ==> front[i] == stores[i];
      MergeSessions(front, id);
      forall i | 0 <= i < n && id in stores[i].sessions ensures id !in stores[n].sessions {
        assert id in stores[i].sessions.Keys && stores[i].sessions.Keys !! stores[n].sessions.Keys;
      }
    }
  }

  lemma {:induction false} MergeIndex(stores: seq<Store>, t: TunnelId)
    requires Separate(stores)
    ensures t in Merge(stores).index <==> exists i :: 0 <= i < |stores| && t in stores[i].index
    ensures forall i :: 0 <= i < |stores| && t in stores[i].index ==>
      t in Merge(stores).index && Merge(stores).index[t] == stores[i].index[t]
  {
    if stores == [] {
    } else {
      var front, n := stores[..|stores| - 1], |stores| - 1;
      assert forall i :: 0 <= i < n ==> front[i] == stores[i];
      MergeIndex(front, t);
      forall i | 0 <= i < n && t in stores[i].index ensures t !in stores[n].index {
        assert t in stores[i].index.Keys && stores[i].index.Keys !! stores[n].index.Keys;
      }
    }
  }

  ghost predicate Placed(hash: Hash, stores: seq<Store>) {
    && (forall i, id :: 0 <= i < |stores| && id in stores[i].sessions ==>
          ShardOf(hash, stores[i].sessions[id].tunnelId, |stores|) == i)
    && (forall i, t :: 0 <= i < |stores| && t in stores[i].index ==> ShardOf(hash, t, |stores|) == i)
  }

  /** Shards with everything in its place are the slices of their merger. */
  lemma MergeSim(hash: Hash, stores: seq<Store>)
    requires stores != [] && Separate(stores) && Placed(hash, stores)
    ensures Sim(Merge(stores), stores, hash)
  {
    hide Merge, Separate;
    var n, st := |stores|, Merge(stores);
    forall i | 0 <= i < n ensures stores[i] == Slice(st, hash, n, i) {
      var slice := Slice(st, hash, n, i);
      forall id ensures id in slice.sessions <==> id in stores[i].sessions
        ensures id in slice.sessions ==> slice.sessions[id] == stores[i].sessions[id]
      {
        MergeSessions(stores, id);
      }
      forall t ensures t in slice.index <==> t in stores[i].index
        ensures t in slice.index ==> slice.index[t] == stores[i].index[t]
      {
        MergeIndex(stores, t);
      }
      assert slice.sessions == stores[i].sessions && slice.index == stores[i].index;
    }
  }

  /** Indexed shards, merged, are an indexed store. */
  lemma MergeIndexed(stores: seq<Store>)
    requires Separate(stores) && forall i :: 0 <= i < |stores| ==> Indexed(stores[i])
    ensures Indexed(Merge(stores))
  {
    hide Merge, Separate;
    var st := Merge(stores);
    forall id | id in st.sessions
      ensures st.sessions[id].id == id
      ensures st.sessions[id].tunnelId in st.index && st.index[st.sessions[id].tunnelId] == id
    {
      MergeSessions(stores, id);
      var i :| 0 <= i < |stores| && id in stores[i].sessions;
      assert Indexed(stores[i]);
      MergeIndex(stores, stores[i].sessions[id].tunnelId);
    }
    forall t | t in st.index ensures st.index[t] in st.sessions && st.sessions[st.index[t]].tunnelId == t {
      MergeIndex(stores, t);
      var i :| 0 <= i < |stores| && t in stores[i].index;
      assert Indexed(stores[i]);
      MergeSessions(stores, stores[i].index[t]);
    }
  }

  ghost predicate Quiet(shards: seq<Steps.Shared>) {
    forall i :: 0 <= i < |shards| ==> shards[i].adding == map[] && shards[i].removing == map[]
  }

  ghost function Stores(shards: seq<Steps.Shared>): (r: seq<Store>)
    ensures |r| == |shards|
    ensures forall i :: 0 <= i < |shards| ==> r[i] == shards[i].store
  {
    seq(|shards|, i requires 0 <= i < |shards| => shards[i].store)
  }

  lemma ShardKeys(hash: Hash, shards: seq<Steps.Shared>, i: nat)
    requires Inv(hash, shards) && i < |shards|
    ensures var st := shards[i].store;
            && st.sessions.Keys <= shards[i].made.Keys
            && (forall id :: id in st.sessions ==> ShardOf(hash, st.sessions[id].tunnelId, |shards|) == i)
            && (forall t :: t in st.index ==> ShardOf(hash, t, |shards|) == i)
  {
    assert Steps.Inv(shards[i]) && AtHome(hash, shards[i], i, |shards|);
    hide Steps.PendingOk, Steps.LookingOk, Steps.OwnedBy, Apart;
  }

  lemma StoresSeparate(hash: Hash, shards: seq<Steps.Shared>)
    requires Inv(hash, shards)
    ensures Separate(Stores(shards)) && Placed(hash, Stores(shards))
  {
    forall i | 0 <= i < |shards|
      ensures shards[i].store.sessions.Keys <= shards[i].made.Keys
      ensures forall id :: id in shards[i].store.sessions ==> ShardOf(hash, shards[i].store.sessions[id].tunnelId, |shards|) == i
      ensures forall t :: t in shards[i].store.index ==> ShardOf(hash, t, |shards|) == i
    {
      ShardKeys(hash, shards, i);
    }
    hide Steps.Inv, AtHome;
    forall i, j | 0 <= i < j < |shards|
      ensures shards[i].store.sessions.Keys !! shards[j].store.sessions.Keys
      ensures shards[i].store.index.Keys !! shards[j].store.index.Keys
    {
      assert shards[i].made.Keys !! shards[j].made.Keys;
    }
  }

  /**
   After every interleaving, whenever no call is in progress, the shards are the slices of one store whose two maps are
   inverse: the state the sequential simulation starts from.
   */
  lemma QuietShardsSimulate(hash: Hash, n: nat, events: seq<ShardEvent>)
    requires n > 0 && Quiet(Run(hash, n, events))
    ensures var stores := Stores(Run(hash, n, events)); Sim(Merge(stores), stores, hash) && Indexed(Merge(stores))
  {
    RunInv(hash, n, events);
    var shards := Run(hash, n, events);
    hide Run;
    StoresSeparate(hash, shards);
    forall i | 0 <= i < n ensures Indexed(shards[i].store) {
      assert Steps.Inv(shards[i]);
      Steps.QuietIndexed(shards[i]);
    }
    hide Inv, Placed, Separate, Indexed, Merge, Quiet;
    MergeSim(hash, Stores(shards));
    MergeIndexed(Stores(shards));
  }
}
