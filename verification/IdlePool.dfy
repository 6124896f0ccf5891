/** The HTTP/1.1 idle connection pool (ferrotunnel-http/src/pool.rs). */
module IdlePool {
  import opened Seqs

  type ConnId = nat

  /** An idle connection and when it was released. */
  datatype Idle = Idle(id: ConnId, lastUsed: nat)

  datatype PoolConfig = PoolConfig(maxIdle: nat, idleTimeout: nat)

  /** Neither closed by the peer nor idle for too long. */
  predicate Usable(cfg: PoolConfig, closed: set<ConnId>, now: nat, c: Idle) {
    c.id !in closed && now < c.lastUsed + cfg.idleTimeout
  }

  function UsableIn(cfg: PoolConfig, closed: set<ConnId>, now: nat): Idle -> bool {
    (c: Idle) => Usable(cfg, closed, now, c)
  }

  // ---------------------------------------------------------------------------------------------
  // The pool as an object
  // ---------------------------------------------------------------------------------------------

  /** Where the reuse loop stops: the number of connections in front of the last usable one, or none. */
  function LastUsable(cfg: PoolConfig, closed: set<ConnId>, now: nat, idle: seq<Idle>): (r: Option<nat>)
    ensures r.Some? ==> r.value < |idle| && Usable(cfg, closed, now, idle[r.value])
    ensures r.Some? ==> forall i :: r.value < i < |idle| ==> !Usable(cfg, closed, now, idle[i])
    ensures r.None? ==> forall i :: 0 <= i < |idle| ==> !Usable(cfg, closed, now, idle[i])
  {
    if idle == [] then None
    else if Usable(cfg, closed, now, idle[|idle| - 1]) then Some(|idle| - 1)
    else LastUsable(cfg, closed, now, idle[..|idle| - 1])
  }

  class ConnectionPool {
    const config: PoolConfig
    var idle: seq<Idle>

    constructor (config: PoolConfig)
      ensures this.config == config && idle == []
    {
      this.config := config;
      idle := [];
    }

    /** The reuse loop, with nothing else touching the pool: `None` means a new connection is dialled. */
    method AcquireH1(closed: set<ConnId>, now: nat) returns (r: Option<ConnId>)
      modifies this
      ensures match LastUsable(config, closed, now, old(idle))
              case Some(k) => r == Some(old(idle)[k].id) && idle == old(idle)[..k]
              case None => r.None? && idle == []
      ensures r.Some? ==> r.value !in closed
      ensures r.Some? ==>
        exists i :: 0 <= i < |old(idle)| && old(idle)[i].id == r.value && now - old(idle)[i].lastUsed < config.idleTimeout
      ensures r.None? ==> forall i :: 0 <= i < |old(idle)| ==>
        old(idle)[i].id in closed || now - old(idle)[i].lastUsed >= config.idleTimeout
    {
      ghost var all := idle;
      while true
        invariant LastUsable(config, closed, now, idle) == LastUsable(config, closed, now, all)
        invariant idle <= all
        decreases |idle|
      {
        if idle == [] {
          break;
        }
        var c := idle[|idle| - 1];
        idle := idle[..|idle| - 1];
        if Usable(config, closed, now, c) {
          return Some(c.id);
        }
      }
      r := None;
    }

    method ReleaseH1(id: ConnId, closed: set<ConnId>, now: nat)
      modifies this
      ensures idle == if id in closed || |old(idle)| >= config.maxIdle then old(idle) else old(idle) + [Idle(id, now)]
    {
      if id in closed {
        return;
      }
      if |idle| >= config.maxIdle {
        return;
      }
      idle := idle + [Idle(id, now)];
    }

    /** `retain`: keep the usable connections, in order. */
    method EvictExpired(closed: set<ConnId>, now: nat)
      modifies this
      ensures idle == Filter(UsableIn(config, closed, now), old(idle))
    {
      var all := idle;
      idle := [];
      for i := 0 to |all|
        invariant idle == Filter(UsableIn(config, closed, now), all[..i])
      {
        assert all[..i + 1] == all[..i] + [all[i]];
        FilterPush(UsableIn(config, closed, now), all[..i], all[i]);
        if Usable(config, closed, now, all[i]) {
          idle := idle + [all[i]];
        }
      }
      assert all[..|all|] == all;
    }
  }

  // ---------------------------------------------------------------------------------------------
  // Many callers: the lock is taken anew for every pop
  // ---------------------------------------------------------------------------------------------

  /** `out` are the connections callers hold, `made` how many were ever dialled. */
  datatype Pool = Pool(idle: seq<Idle>, out: set<ConnId>, closed: set<ConnId>, made: nat, now: nat)

  const EMPTY := Pool([], {}, {}, 0, 0)

  datatype Event =
    /** One turn of some caller's reuse loop: take the newest idle connection, or dial if there is none. */
    | Pop
    | Release(id: ConnId)
    | Evict
    | PeerCloses(id: ConnId)
    | Tick(dt: nat)

  function Next(cfg: PoolConfig, p: Pool, ev: Event): Pool {
    match ev
    case Pop =>
      if p.idle == [] then p.(out := p.out + {p.made}, made := p.made + 1)
      else
        var c := p.idle[|p.idle| - 1];
        var p' := p.(idle := p.idle[..|p.idle| - 1]);
        if Usable(cfg, p.closed, p.now, c) then p'.(out := p.out + {c.id}) else p'
    case Release(id) =>
      if id !in p.out then p
      else if id in p.closed || |p.idle| >= cfg.maxIdle then p.(out := p.out - {id})
      else p.(out := p.out - {id}, idle := p.idle + [Idle(id, p.now)])
    case Evict => p.(idle := Filter(UsableIn(cfg, p.closed, p.now), p.idle))
    case PeerCloses(id) => p.(closed := p.closed + {id})
    case Tick(dt) => p.(now := p.now + dt)
  }

  function Run(cfg: PoolConfig, events: seq<Event>): Pool {
    if events == [] then EMPTY else Next(cfg, Run(cfg, events[..|events| - 1]), events[|events| - 1])
  }

  ghost predicate Sorted(idle: seq<Idle>) {
    forall i, j :: 0 <= i < j < |idle| ==> idle[i].lastUsed <= idle[j].lastUsed && idle[i].id != idle[j].id
  }

  ghost predicate Inv(cfg: PoolConfig, p: Pool) {
    && Sorted(p.idle) && |p.idle| <= cfg.maxIdle
    && (forall i :: 0 <= i < |p.idle| ==> p.idle[i].lastUsed <= p.now && p.idle[i].id < p.made && p.idle[i].id !in p.out)
    && (forall id :: id in p.out ==> id < p.made)
  }

  /** Anything kept from the front of a sorted pool may be followed by its last connection. */
  lemma SortedPush(kept: seq<Idle>, front: seq<Idle>, last: Idle)
    requires Sorted(kept) && Sorted(front + [last]) && forall x :: x in kept ==> x in front
    ensures Sorted(kept + [last])
  {
    var all := front + [last];
    forall i | 0 <= i < |kept| ensures kept[i].lastUsed <= last.lastUsed && kept[i].id != last.id {
      assert kept[i] in kept;
      var k :| 0 <= k < |front| && front[k] == kept[i];
      assert all[k] == front[k] && all[|front|] == last;
    }
  }

  /** Keeping some of a sorted pool keeps it sorted, distinct and no longer. */
  lemma {:induction false} FilterSorted(q: Idle -> bool, idle: seq<Idle>)
    requires Sorted(idle)
    ensures Sorted(Filter(q, idle)) && |Filter(q, idle)| <= |idle|
  {
    if idle == [] {
    } else {
      var front, last := idle[..|idle| - 1], idle[|idle| - 1];
      FilterSorted(q, front);
      assert idle == front + [last];
      hide Filter, Sorted;
      FilterMembers(q, front);
      FilterPush(q, front, last);
      if q(last) {
        SortedPush(Filter(q, front), front, last);
      }
    }
  }

  lemma NextInv(cfg: PoolConfig, p: Pool, ev: Event)
    requires Inv(cfg, p)
    ensures Inv(cfg, Next(cfg, p, ev))
  {
    if ev.Evict? {
      var q := UsableIn(cfg, p.closed, p.now);
      FilterSorted(q, p.idle);
      FilterMembers(q, p.idle);
      var kept := Filter(q, p.idle);
      forall i | 0 <= i < |kept| ensures kept[i].lastUsed <= p.now && kept[i].id < p.made && kept[i].id !in p.out {
        assert kept[i] in p.idle;
      }
    }
  }

  /**
   For every interleaving of acquire, release and evict: the pool stays in order of release and within its limit,
   and no connection is both idle and handed out, or idle twice.
   */
  lemma {:induction false} PoolStaysOrdered(cfg: PoolConfig, events: seq<Event>)
    ensures Inv(cfg, Run(cfg, events))
  {
    if events == [] {
    } else {
      PoolStaysOrdered(cfg, events[..|events| - 1]);
      NextInv(cfg, Run(cfg, events[..|events| - 1]), events[|events| - 1]);
    }
  }

  /** The newest idle connection is the last; once it has expired, all have. */
  lemma LastIsNewest(cfg: PoolConfig, closed: set<ConnId>, now: nat, idle: seq<Idle>, x: Idle)
    requires Sorted(idle) && x in idle
    ensures var c := idle[|idle| - 1];
            && x.lastUsed <= c.lastUsed
            && (now - c.lastUsed >= cfg.idleTimeout ==> now - x.lastUsed >= cfg.idleTimeout)
  {
    var i :| 0 <= i < |idle| && idle[i] == x;
    assert i < |idle| - 1 ==> idle[i].lastUsed <= idle[|idle| - 1].lastUsed;
  }

  /**
   A caller is handed the most recently released of the usable connections and dials only when the pool is
   empty; a turn that hands nothing out discards an unusable connection, and if that one had expired then so
   has every other.
   */
  lemma PopTakesNewest(cfg: PoolConfig, events: seq<Event>)
    ensures var p := Run(cfg, events);
            var p' := Next(cfg, p, Pop);
            && (p.idle == [] <==> p'.made == p.made + 1)
            && (p.idle != [] ==>
                  var c := p.idle[|p.idle| - 1];
                  && (forall x :: x in p.idle ==> x.lastUsed <= c.lastUsed)
                  && c.id !in p.out && p'.idle == p.idle[..|p.idle| - 1]
                  && p'.out == (if c.id !in p.closed && p.now - c.lastUsed < cfg.idleTimeout then p.out + {c.id} else p.out)
                  && (p.now - c.lastUsed >= cfg.idleTimeout ==>
                        forall x :: x in p.idle ==> p.now - x.lastUsed >= cfg.idleTimeout))
  {
    PoolStaysOrdered(cfg, events);
    var p := Run(cfg, events);
    hide Run, Sorted;
    forall x | x in p.idle
      ensures x.lastUsed <= p.idle[|p.idle| - 1].lastUsed
      ensures p.now - p.idle[|p.idle| - 1].lastUsed >= cfg.idleTimeout ==> p.now - x.lastUsed >= cfg.idleTimeout
    {
      LastIsNewest(cfg, p.closed, p.now, p.idle, x);
    }
  }

  /** An undisturbed acquire returns the most recently released of all the usable connections. */
  lemma AcquireIsNewestUsable(cfg: PoolConfig, closed: set<ConnId>, now: nat, idle: seq<Idle>, x: Idle)
    requires Sorted(idle) && x in idle && x.id !in closed && now - x.lastUsed < cfg.idleTimeout
    ensures LastUsable(cfg, closed, now, idle).Some?
    ensures var c := idle[LastUsable(cfg, closed, now, idle).value];
            x.lastUsed <= c.lastUsed && c.id !in closed && now - c.lastUsed < cfg.idleTimeout
  {
    var i :| 0 <= i < |idle| && idle[i] == x;
  }

  /** No turn and no eviction ever drops a usable connection: it stays idle or is handed out. */
  lemma UsableIsNeverDropped(cfg: PoolConfig, p: Pool, ev: Event, c: Idle)
    requires c in p.idle && c.id !in p.closed && p.now - c.lastUsed < cfg.idleTimeout
    ensures c in Next(cfg, p, ev).idle || (ev.Pop? && c.id in Next(cfg, p, ev).out)
  {
    if ev.Evict? {
      FilterMembers(UsableIn(cfg, p.closed, p.now), p.idle);
    } else if ev.Pop? {
      assert p.idle == p.idle[..|p.idle| - 1] + [p.idle[|p.idle| - 1]];
    }
  }

  /** An eviction leaves exactly the connections that are open and have not been idle for too long. */
  lemma EvictLeavesUsable(cfg: PoolConfig, p: Pool, c: Idle)
    ensures c in Next(cfg, p, Evict).idle <==> c in p.idle && c.id !in p.closed && p.now - c.lastUsed < cfg.idleTimeout
    ensures Next(cfg, p, Evict).out == p.out
  {
    FilterMembers(UsableIn(cfg, p.closed, p.now), p.idle);
  }

  /** A connection given back is the newest idle one, unless it is closed or the pool is full; it is never kept as handed out. */
  lemma ReleaseKeeps(cfg: PoolConfig, p: Pool, id: ConnId)
    requires id in p.out
    ensures var p' := Next(cfg, p, Release(id));
            && id !in p'.out
            && p'.idle == if id !in p.closed && |p.idle| < cfg.maxIdle then p.idle + [Idle(id, p.now)] else p.idle
  {
  }
}
