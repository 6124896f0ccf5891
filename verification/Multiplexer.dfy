/**
 Dispatch of incoming frames to per-stream channels
 (ferrotunnel-core/src/stream/multiplexer.rs, `Multiplexer`).
 */
module Multiplexing {
  import opened Seqs
  import opened Frames

  /** A per-stream channel: the stream it was made for, everything ever sent into it, and whether its reader lives. */
  datatype Chan = Chan(owner: u32, log: seq<Frame>, alive: bool)

  /** A multiplexer's state; senders and receivers are handles, that is, indices into `chans`. */
  datatype Mux = Mux(
    streams: map<u32, nat>,
    priorities: map<u32, StreamPriority>,
    last: Option<(u32, nat)>,
    nextId: u32,
    chans: seq<Chan>)

  function NewMux(isClient: bool): Mux {
    Mux(map[], map[], None, if isClient then 1 else 2, [])
  }

  /** Answers the environment gives to one call: the two `try_lock`s, and whether the new-stream queue took the stream. */
  datatype Env = Env(firstLock: bool, secondLock: bool, queued: bool)

  // ---------------------------------------------------------------------------------------------
  // The operations, as functions of the state
  // ---------------------------------------------------------------------------------------------

  predicate CanAllocate(m: Mux) {
    m.nextId + 2 <= U32_MAX
  }

  function Allocate(m: Mux): Mux
    requires CanAllocate(m)
  {
    m.(nextId := m.nextId + 2)
  }

  /** Register a stream under a fresh channel. */
  function RegisterStream(m: Mux, s: u32, p: StreamPriority): Mux {
    m.(streams := m.streams[s := |m.chans|],
       priorities := m.priorities[s := p],
       chans := m.chans + [Chan(s, [], true)])
  }

  function CachedSender(m: Mux, s: u32, lock: bool): Option<nat> {
    if lock && m.last.Some? && m.last.value.0 == s then Some(m.last.value.1) else None
  }

  function LookupSender(m: Mux, s: u32): Option<nat> {
    if s in m.streams then Some(m.streams[s]) else None
  }

  function FindSender(m: Mux, s: u32, env: Env): Option<nat> {
    if CachedSender(m, s, env.firstLock).Some? then CachedSender(m, s, env.firstLock) else LookupSender(m, s)
  }

  /** The cache after `FindSender`: refreshed only by a successful map lookup that gets the lock. */
  function CacheAfter(m: Mux, s: u32, env: Env): Option<(u32, nat)> {
    if CachedSender(m, s, env.firstLock).None? && s in m.streams && env.secondLock then Some((s, m.streams[s]))
    else m.last
  }

  /** The priority a frame is sent at. */
  function PriorityFor(m: Mux, f: Frame): StreamPriority {
    match f
    case Data(s, _, _) => if s in m.priorities then m.priorities[s] else Normal
    case CloseStream(s, _) => if s in m.priorities then m.priorities[s] else Normal
    case Heartbeat(_) => Critical
    case HandshakeAck(_, _, _, _) => Critical
    case _ => Normal
  }

  /** Send into a channel; a dead reader refuses. */
  function Push(chans: seq<Chan>, h: nat, f: Frame): seq<Chan> {
    if h < |chans| && chans[h].alive then chans[h := chans[h].(log := chans[h].log + [f])] else chans
  }

  predicate Refuses(chans: seq<Chan>, h: nat) {
    h < |chans| ==> !chans[h].alive
  }

  function Kill(chans: seq<Chan>, h: nat): seq<Chan> {
    if h < |chans| then chans[h := chans[h].(alive := false)] else chans
  }

  function ProcessOpen(m: Mux, s: u32, p: StreamPriority, env: Env): Mux {
    if s in m.streams then m
    else
      var added := RegisterStream(m, s, p);
      if env.queued then added
      else added.(streams := added.streams - {s}, chans := Kill(added.chans, |m.chans|))
  }

  function ProcessData(m: Mux, s: u32, f: Frame, env: Env): Mux {
    var m' := m.(last := CacheAfter(m, s, env));
    match FindSender(m, s, env)
    case None => m'
    case Some(h) =>
      m'.(chans := Push(m.chans, h, f),
          streams := if Refuses(m.chans, h) then m.streams - {s} else m.streams)
  }

  function ProcessClose(m: Mux, s: u32, f: Frame, env: Env): Mux {
    m.(last := CacheAfter(m, s, env),
       chans := match FindSender(m, s, env) case None => m.chans case Some(h) => Push(m.chans, h, f),
       streams := m.streams - {s},
       priorities := m.priorities - {s})
  }

  function ProcessFrame(m: Mux, f: Frame, env: Env): Mux {
    match f
    case OpenStream(s, _, _, _, p) => ProcessOpen(m, s, p, env)
    case Data(s, _, _) => ProcessData(m, s, f, env)
    case CloseStream(s, _) => ProcessClose(m, s, f, env)
    case _ => m
  }

  // ---------------------------------------------------------------------------------------------
  // The multiplexer as an object
  // ---------------------------------------------------------------------------------------------

  class Multiplexer {
    var streams: map<u32, nat>
    var priorities: map<u32, StreamPriority>
    var lastSender: Option<(u32, nat)>
    var nextStreamId: u32
    var chans: seq<Chan>

    ghost function State(): Mux
      reads this
    {
      Mux(streams, priorities, lastSender, nextStreamId, chans)
    }

    constructor (isClient: bool)
      ensures State() == NewMux(isClient)
    {
      streams, priorities, lastSender, chans := map[], map[], None, [];
      nextStreamId := if isClient then 1 else 2;
    }

    /** `fetch_update` with `checked_add(2)`: an exhausted counter stays where it is. */
    method AllocateStreamId() returns (id: Option<u32>)
      modifies this
      ensures id.Some? <==> CanAllocate(old(State()))
      ensures id.Some? ==> id.value == old(nextStreamId) && State() == Allocate(old(State()))
      ensures id.None? ==> State() == old(State())
    {
      if nextStreamId + 2 <= U32_MAX {
        id := Some(nextStreamId);
        nextStreamId := nextStreamId + 2;
      } else {
        id := None;
      }
    }

    method OpenChannel(s: u32, p: StreamPriority)
      modifies this
      ensures State() == RegisterStream(old(State()), s, p)
    {
      streams := streams[s := |chans|];
      priorities := priorities[s := p];
      chans := chans + [Chan(s, [], true)];
    }

    /** `cached_sender` or else `lookup_and_cache_sender`. */
    method FindAndCache(s: u32, env: Env) returns (tx: Option<nat>)
      modifies this
      ensures tx == FindSender(old(State()), s, env)
      ensures State() == old(State()).(last := CacheAfter(old(State()), s, env))
    {
      if env.firstLock && lastSender.Some? && lastSender.value.0 == s {
        return Some(lastSender.value.1);
      }
      if s !in streams {
        return None;
      }
      tx := Some(streams[s]);
      if env.secondLock {
        lastSender := Some((s, tx.value));
      }
    }

    method Send(h: nat, f: Frame) returns (ok: bool)
      modifies this`chans
      ensures ok <==> !Refuses(old(chans), h)
      ensures chans == Push(old(chans), h, f)
    {
      ok := h < |chans| && chans[h].alive;
      if ok {
        chans := chans[h := chans[h].(log := chans[h].log + [f])];
      }
    }

    method Process(f: Frame, env: Env)
      modifies this
      ensures State() == ProcessFrame(old(State()), f, env)
    {
      match f {
        case OpenStream(s, _, _, _, p) =>
          if s in streams {
            return;
          }
          var h := |chans|;
          OpenChannel(s, p);
          if !env.queued {
            streams := streams - {s};
            chans := chans[h := chans[h].(alive := false)];
          }
        case Data(s, _, _) =>
          var tx := FindAndCache(s, env);
          if tx.Some? {
            var ok := Send(tx.value, f);
            if !ok {
              streams := streams - {s};
            }
          }
        case CloseStream(s, _) =>
          var tx := FindAndCache(s, env);
          if tx.Some? {
            var _ := Send(tx.value, f);
          }
          streams := streams - {s};
          priorities := priorities - {s};
        case _ =>
      }
    }
  }

  // ---------------------------------------------------------------------------------------------
  // What opening, closing and caching do
  // ---------------------------------------------------------------------------------------------

  /**
   With the lock, a cached sender of the stream is used and kept. Otherwise the map decides, and what it finds is
   cached for the next frame if the lock can be had then, and never else.
   */
  lemma CacheOutcome(m: Mux, s: u32, env: Env)
    ensures var hit := env.firstLock && m.last.Some? && m.last.value.0 == s;
            && (hit ==> FindSender(m, s, env) == Some(m.last.value.1) && CacheAfter(m, s, env) == m.last)
            && (!hit && s in m.streams ==>
                  && FindSender(m, s, env) == Some(m.streams[s])
                  && CacheAfter(m, s, env) == if env.secondLock then Some((s, m.streams[s])) else m.last)
            && (!hit && s !in m.streams ==> FindSender(m, s, env).None? && CacheAfter(m, s, env) == m.last)
  {
  }

  /**
   An `OpenStream` for a registered stream changes nothing. Else it registers the stream, with its priority, under a
   channel of its own; if the new-stream queue refuses it, the stream is gone again and its channel is dead.
   */
  lemma OpenOutcome(m: Mux, f: Frame, env: Env)
    requires f.OpenStream?
    ensures var m', s, h := ProcessFrame(m, f, env), f.openId, |m.chans|;
            && (s in m.streams ==> m' == m)
            && (s !in m.streams ==>
                  && |m'.chans| == h + 1 && m'.chans[..h] == m.chans && m'.chans[h] == Chan(s, [], env.queued)
                  && s in m'.priorities && m'.priorities[s] == f.priority
                  && (s in m'.streams <==> env.queued) && (env.queued ==> m'.streams[s] == h)
                  && (forall t :: t != s ==> (t in m'.streams <==> t in m.streams) && (t in m.streams ==> m'.streams[t] == m.streams[t])))
  {
  }

  /** Frames for a stream whose opening was refused reach no channel. */
  lemma RefusedOpenIsForgotten(m: Mux, f: Frame, env: Env, g: Frame, env': Env)
    requires f.OpenStream? && f.openId !in m.streams && !env.queued && ForReader(f.openId, g)
    requires m.last.Some? ==> m.last.value.0 != f.openId
    ensures var m' := ProcessFrame(m, f, env); ProcessFrame(m', g, env').chans == m'.chans
  {
  }

  /**
   A stream's data and its close are sent at the priority it was opened with, from its opening until a close for it
   arrives, and then at Normal; heartbeats and handshake answers always at Critical, all else at Normal.
   */
  lemma PriorityIsTheStreams(m: Mux, s: u32, p: StreamPriority, f: Frame, g: Frame, env: Env)
    requires ForReader(s, f)
    ensures PriorityFor(RegisterStream(m, s, p), f) == p
    ensures !(g.OpenStream? && g.openId == s) ==>
      PriorityFor(ProcessFrame(m, g, env), f) == if g.CloseStream? && g.closeId == s then Normal else PriorityFor(m, f)
    ensures !g.Data? && !g.CloseStream? ==> PriorityFor(m, g) == if g.Heartbeat? || g.HandshakeAck? then Critical else Normal
  {
  }

  // ---------------------------------------------------------------------------------------------
  // Routing: a frame only ever reaches the channel of its own stream
  // ---------------------------------------------------------------------------------------------

  ghost predicate Routed(m: Mux) {
    && (forall s :: s in m.streams ==> m.streams[s] < |m.chans| && m.chans[m.streams[s]].owner == s)
    && (m.last.Some? ==> m.last.value.1 < |m.chans| && m.chans[m.last.value.1].owner == m.last.value.0)
    && (forall h :: 0 <= h < |m.chans| ==> OnlyOwner(m.chans[h]))
  }

  ghost predicate OnlyOwner(c: Chan) {
    forall i :: 0 <= i < |c.log| ==> StreamOf(c.log[i]) == Some(c.owner) && !c.log[i].OpenStream?
  }

  lemma FindSenderRouted(m: Mux, s: u32, env: Env)
    requires Routed(m) && FindSender(m, s, env).Some?
    ensures FindSender(m, s, env).value < |m.chans| && m.chans[FindSender(m, s, env).value].owner == s
  {
  }

  lemma RegisterRouted(m: Mux, s: u32, p: StreamPriority)
    requires Routed(m)
    ensures Routed(RegisterStream(m, s, p))
  {
  }

  lemma PushRouted(m: Mux, h: nat, f: Frame)
    requires Routed(m) && h < |m.chans| && StreamOf(f) == Some(m.chans[h].owner) && !f.OpenStream?
    ensures Routed(m.(chans := Push(m.chans, h, f)))
  {
    var chans' := Push(m.chans, h, f);
    forall k | 0 <= k < |chans'| ensures OnlyOwner(chans'[k]) {
      assert OnlyOwner(m.chans[k]);
    }
  }

  /** A frame sent where `FindSender` says, and the cache refreshed. */
  lemma SendRouted(m: Mux, s: u32, f: Frame, env: Env)
    requires Routed(m) && StreamOf(f) == Some(s) && !f.OpenStream?
    ensures var m' := m.(last := CacheAfter(m, s, env));
            match FindSender(m, s, env)
            case None => Routed(m')
            case Some(h) => Routed(m'.(chans := Push(m.chans, h, f)))
  {
    if FindSender(m, s, env).Some? {
      var h := FindSender(m, s, env).value;
      FindSenderRouted(m, s, env);
      PushRouted(m, h, f);
    }
  }

  lemma DropRouted(m: Mux, streams: map<u32, nat>, priorities: map<u32, StreamPriority>)
    requires Routed(m) && forall s :: s in streams ==> s in m.streams && streams[s] == m.streams[s]
    ensures Routed(m.(streams := streams, priorities := priorities))
  {
  }

  /** Every call keeps the routing, whatever the locks and the peer's frames. */
  lemma ProcessRouted(m: Mux, f: Frame, env: Env)
    requires Routed(m)
    ensures Routed(ProcessFrame(m, f, env))
  {
    match f
    case OpenStream(s, _, _, _, p) =>
      RegisterRouted(m, s, p);
    case Data(s, _, _) =>
      SendRouted(m, s, f, env);
      hide Routed, FindSender, CacheAfter;
      if FindSender(m, s, env).Some? {
        var m' := m.(last := CacheAfter(m, s, env), chans := Push(m.chans, FindSender(m, s, env).value, f));
        DropRouted(m', m.streams - {s}, m.priorities);
      }
    case CloseStream(s, _) =>
      SendRouted(m, s, f, env);
      hide Routed, FindSender, CacheAfter;
      var chans := match FindSender(m, s, env) case None => m.chans case Some(h) => Push(m.chans, h, f);
      DropRouted(m.(last := CacheAfter(m, s, env), chans := chans), m.streams - {s}, m.priorities - {s});
    case _ =>
  }

  // ---------------------------------------------------------------------------------------------
  // Delivery: what the channel of one stream holds, against what was dispatched for it
  // ---------------------------------------------------------------------------------------------

  /** The frames of stream `s` that are delivered to its reader. */
  predicate ForReader(s: u32, f: Frame) {
    (f.Data? && f.streamId == s) || (f.CloseStream? && f.closeId == s)
  }

  function ReaderFrames(s: u32): Frame -> bool {
    (f: Frame) => ForReader(s, f)
  }

  predicate HasClose(d: seq<Frame>) {
    d != [] && (d[|d| - 1].CloseStream? || HasClose(d[..|d| - 1]))
  }

  /** No data follows a close. */
  predicate NoDataAfterClose(d: seq<Frame>) {
    d != [] ==> NoDataAfterClose(d[..|d| - 1]) && (HasClose(d[..|d| - 1]) ==> !d[|d| - 1].Data?)
  }

  lemma NoDataAfterClosePush(d: seq<Frame>, f: Frame)
    ensures NoDataAfterClose(d + [f]) <==> NoDataAfterClose(d) && (HasClose(d) ==> !f.Data?)
  {
    assert (d + [f])[..|d + [f]| - 1] == d;
  }

  /** Everything up to and including the first `CloseStream`. */
  function UpToClose(d: seq<Frame>): (r: seq<Frame>)
    ensures r <= d
    ensures !HasClose(d) ==> r == d
  {
    if d == [] then []
    else
      var front := d[..|d| - 1];
      if HasClose(front) then UpToClose(front) else d
  }

  lemma UpToClosePush(d: seq<Frame>, f: Frame)
    ensures UpToClose(d + [f]) == if HasClose(d) then UpToClose(d) else d + [f]
    ensures HasClose(d + [f]) <==> HasClose(d) || f.CloseStream?
  {
    assert (d + [f])[..|d + [f]| - 1] == d;
  }

  /**
   What a channel holds against what was dispatched for its stream; `faultless` says no `try_lock` ever failed.
   Up to the first close the channel of a living reader holds exactly what was dispatched. Afterwards the cached
   sender may still deliver, and what it delivers is a prefix as long as no lock failed.
   */
  ghost predicate Holds(log: seq<Frame>, d: seq<Frame>, alive: bool, faultless: bool) {
    && (alive && !HasClose(d) ==> log == d)
    && (alive && HasClose(d) ==> HasClose(log) && UpToClose(log) == UpToClose(d))
    && UpToClose(log) <= UpToClose(d)
    && (faultless ==> log <= d)
    && (HasClose(log) ==> HasClose(d))
    && (NoDataAfterClose(d) ==> NoDataAfterClose(log))
  }

  lemma HoldsDelivered(log: seq<Frame>, d: seq<Frame>, f: Frame, faultless: bool)
    requires Holds(log, d, true, faultless) && (faultless ==> log == d)
    ensures Holds(log + [f], d + [f], true, faultless)
  {
    UpToClosePush(log, f);
    UpToClosePush(d, f);
    NoDataAfterClosePush(log, f);
    NoDataAfterClosePush(d, f);
  }

  lemma HoldsDropped(log: seq<Frame>, d: seq<Frame>, f: Frame, alive: bool, faultless: bool)
    requires Holds(log, d, alive, faultless) && (alive ==> HasClose(d))
    ensures Holds(log, d + [f], alive, faultless)
  {
    UpToClosePush(d, f);
    NoDataAfterClosePush(d, f);
    assert d <= d + [f];
  }

  /** The state of stream `s`, registered under handle `h`, after `d` was dispatched for it. */
  ghost predicate Delivery(m: Mux, s: u32, h: nat, d: seq<Frame>, faultless: bool) {
    && h < |m.chans| && m.chans[h].owner == s
    && (s in m.streams ==> m.streams[s] == h && !HasClose(d))
    && (m.last.Some? && m.last.value.0 == s ==> m.last.value.1 == h)
    && (m.chans[h].alive && !HasClose(d) ==> s in m.streams)
    && (faultless && m.chans[h].alive && m.chans[h].log != d ==> m.last.None? || m.last.value.0 != s)
    && Holds(m.chans[h].log, d, m.chans[h].alive, faultless)
  }

  /** A frame that is not for the reader of `s` leaves its channel alone. */
  lemma OtherChannel(m: Mux, f: Frame, env: Env, s: u32, h: nat)
    requires Routed(m) && h < |m.chans| && m.chans[h].owner == s && !ForReader(s, f)
    ensures h < |ProcessFrame(m, f, env).chans| && ProcessFrame(m, f, env).chans[h] == m.chans[h]
  {
    if f.Data? && FindSender(m, f.streamId, env).Some? {
      FindSenderRouted(m, f.streamId, env);
    }
    if f.CloseStream? && FindSender(m, f.closeId, env).Some? {
      FindSenderRouted(m, f.closeId, env);
    }
  }

  /** Frames of other streams do not touch it. */
  lemma DeliveryOther(m: Mux, f: Frame, env: Env, s: u32, h: nat, d: seq<Frame>, faultless: bool)
    requires Routed(m) && Delivery(m, s, h, d, faultless)
    requires !ForReader(s, f) && !(f.OpenStream? && f.openId == s)
    ensures Delivery(ProcessFrame(m, f, env), s, h, d, faultless)
  {
    OtherChannel(m, f, env, s, h);
  }

  /** What dispatching a frame for `s` does to its channel. */
  lemma DispatchEffect(m: Mux, f: Frame, env: Env, s: u32, h: nat, d: seq<Frame>, faultless: bool)
    requires Delivery(m, s, h, d, faultless) && ForReader(s, f)
    ensures var m', c := ProcessFrame(m, f, env), m.chans[h];
            && |m'.chans| == |m.chans|
            && m'.chans[h] == (if FindSender(m, s, env).Some? && c.alive then c.(log := c.log + [f]) else c)
            && m'.last == CacheAfter(m, s, env)
            && (s in m'.streams <==> f.Data? && s in m.streams && !(FindSender(m, s, env).Some? && !c.alive))
            && (s in m'.streams ==> m'.streams[s] == m.streams[s])
  {
  }

  /** A frame for `s` is delivered or dropped as `Delivery` says, whatever the locks answer. */
  lemma DeliveryStep(m: Mux, f: Frame, env: Env, s: u32, h: nat, d: seq<Frame>, faultless: bool)
    requires Delivery(m, s, h, d, faultless) && ForReader(s, f)
    requires faultless ==> env.firstLock && env.secondLock
    ensures Delivery(ProcessFrame(m, f, env), s, h, d + [f], faultless)
  {
    DispatchEffect(m, f, env, s, h, d, faultless);
    UpToClosePush(d, f);
    var c := m.chans[h];
    if c.alive && FindSender(m, s, env).Some? {
      HoldsDelivered(c.log, d, f, faultless);
    } else {
      HoldsDropped(c.log, d, f, c.alive, faultless);
    }
  }

  // ---------------------------------------------------------------------------------------------
  // The cache against a plain lookup
  // ---------------------------------------------------------------------------------------------

  /** Dispatch of a list of frames; `envs` answers each call. Without the locks every lookup goes to the map. */
  function DispatchAll(m: Mux, fs: seq<Frame>, envs: seq<Env>): Mux
    requires |envs| == |fs|
  {
    if fs == [] then m
    else
      var n := |fs| - 1;
      ProcessFrame(DispatchAll(m, fs[..n], envs[..n]), fs[n], envs[n])
  }

  lemma {:induction false} DispatchAllDelivers(m: Mux, fs: seq<Frame>, envs: seq<Env>, s: u32, h: nat)
    requires |envs| == |fs| && Routed(m) && Delivery(m, s, h, [], false) && m.chans[h].alive
    requires forall i :: 0 <= i < |fs| ==> !(fs[i].OpenStream? && fs[i].openId == s)
    ensures var m' := DispatchAll(m, fs, envs);
            Routed(m') && Delivery(m', s, h, Filter(ReaderFrames(s), fs), false) && m'.chans[h].alive
  {
    hide Holds, Routed;
    if fs == [] {
    } else {
      var n := |fs| - 1;
      var front, m1 := fs[..n], DispatchAll(m, fs[..n], envs[..n]);
      DispatchAllDelivers(m, front, envs[..n], s, h);
      assert fs == front + [fs[n]];
      FilterPush(ReaderFrames(s), front, fs[n]);
      ProcessRouted(m1, fs[n], envs[n]);
      KeepsAlive(m1, fs[n], envs[n], h);
      if ForReader(s, fs[n]) {
        DeliveryStep(m1, fs[n], envs[n], s, h, Filter(ReaderFrames(s), front), false);
      } else {
        DeliveryOther(m1, fs[n], envs[n], s, h, Filter(ReaderFrames(s), front), false);
      }
    }
  }

  lemma KeepsAlive(m: Mux, f: Frame, env: Env, h: nat)
    requires h < |m.chans| && m.chans[h].alive
    ensures h < |ProcessFrame(m, f, env).chans| && ProcessFrame(m, f, env).chans[h].alive
  {
  }

  /**
   However the locks answer, the channel of a registered stream receives, up to its first close, exactly the
   frames dispatched for it: the one-entry cache delivers what a plain map lookup (no lock ever taken) would.
   */
  lemma CacheIsTransparent(m: Mux, fs: seq<Frame>, envs: seq<Env>, plain: seq<Env>, s: u32, h: nat)
    requires |envs| == |fs| == |plain| && Routed(m) && Delivery(m, s, h, [], false) && m.chans[h].alive
    requires forall i :: 0 <= i < |fs| ==> !(fs[i].OpenStream? && fs[i].openId == s)
    requires forall i :: 0 <= i < |plain| ==> !plain[i].firstLock && !plain[i].secondLock
    ensures var cached, looked := DispatchAll(m, fs, envs), DispatchAll(m, fs, plain);
            && h < |cached.chans| && h < |looked.chans|
            && UpToClose(cached.chans[h].log) == UpToClose(looked.chans[h].log) == UpToClose(Filter(ReaderFrames(s), fs))
  {
    DispatchAllDelivers(m, fs, envs, s, h);
    DispatchAllDelivers(m, fs, plain, s, h);
    hide HasClose, Routed, Filter;
  }

  // ---------------------------------------------------------------------------------------------
  // When everything delivered is a prefix
  // ---------------------------------------------------------------------------------------------

  /** What was dispatched for a stream after its first close. */
  function AfterClose(d: seq<Frame>): seq<Frame> {
    d[|UpToClose(d)|..]
  }

  ghost predicate AllEqual(fs: seq<Frame>) {
    forall i, j :: 0 <= i < |fs| && 0 <= j < |fs| ==> fs[i] == fs[j]
  }

  /** Past the first close a channel holds some of the frames dispatched since. */
  ghost predicate Picks(log: seq<Frame>, d: seq<Frame>) {
    && UpToClose(d) <= log && |log| <= |d|
    && (forall k :: |UpToClose(d)| <= k < |log| ==> log[k] in AfterClose(d))
  }

  lemma PicksPush(log: seq<Frame>, d: seq<Frame>, f: Frame, delivered: bool)
    requires Picks(log, d) && (delivered || HasClose(d)) && (!HasClose(d) ==> log == d)
    ensures Picks(if delivered then log + [f] else log, d + [f])
  {
    UpToClosePush(d, f);
    var log' := if delivered then log + [f] else log;
    if HasClose(d) {
      assert AfterClose(d + [f]) == AfterClose(d) + [f];
      forall k | |UpToClose(d)| <= k < |log'| ensures log'[k] in AfterClose(d + [f]) {
        assert k < |log| ==> log[k] in AfterClose(d);
      }
    }
  }

  lemma {:induction false} DispatchAllPicks(m: Mux, fs: seq<Frame>, envs: seq<Env>, s: u32, h: nat)
    requires |envs| == |fs| && Routed(m) && Delivery(m, s, h, [], false) && m.chans[h].alive
    requires forall i :: 0 <= i < |fs| ==> !(fs[i].OpenStream? && fs[i].openId == s)
    ensures h < |DispatchAll(m, fs, envs).chans|
    ensures Picks(DispatchAll(m, fs, envs).chans[h].log, Filter(ReaderFrames(s), fs))
  {
    DispatchAllDelivers(m, fs, envs, s, h);
    hide Routed, Picks, HasClose;
    if fs == [] {
      NothingPicked();
    } else {
      var n := |fs| - 1;
      var front := fs[..n];
      var m1, d := DispatchAll(m, front, envs[..n]), Filter(ReaderFrames(s), front);
      DispatchAllDelivers(m, front, envs[..n], s, h);
      DispatchAllPicks(m, front, envs[..n], s, h);
      assert fs == front + [fs[n]];
      FilterPush(ReaderFrames(s), front, fs[n]);
      if ForReader(s, fs[n]) {
        DispatchEffect(m1, fs[n], envs[n], s, h, d, false);
        PicksPush(m1.chans[h].log, d, fs[n], FindSender(m1, s, envs[n]).Some?);
      } else {
        OtherChannel(m1, fs[n], envs[n], s, h);
      }
    }
  }

  lemma NothingPicked()
    ensures Picks([], [])
  {
  }

  /** Lock answers that deliver everything up to the close, and after it only frame `target` of the stream. */
  function SkippingEnv(s: u32, d: seq<Frame>, f: Frame, target: nat): Env {
    if !ForReader(s, f) then Env(false, false, true)
    else if !HasClose(d) then Env(true, true, true)
    else Env(|d| == target, false, true)
  }

  function SkippingEnvs(s: u32, fs: seq<Frame>, target: nat): (envs: seq<Env>)
    ensures |envs| == |fs|
  {
    if fs == [] then []
    else
      var front, f := fs[..|fs| - 1], fs[|fs| - 1];
      SkippingEnvs(s, front, target) + [SkippingEnv(s, Filter(ReaderFrames(s), front), f, target)]
  }

  /** The channel then holds the frames up to the close, and that one. */
  ghost predicate Skipped(m: Mux, s: u32, h: nat, d: seq<Frame>, target: nat) {
    HasClose(d) ==>
      && h < |m.chans|
      && m.last == Some((s, h))
      && m.chans[h].log == UpToClose(d) + (if |UpToClose(d)| <= target < |d| then [d[target]] else [])
  }

  lemma SkippedOther(m: Mux, f: Frame, s: u32, h: nat, d: seq<Frame>, target: nat)
    requires Routed(m) && h < |m.chans| && m.chans[h].owner == s && !ForReader(s, f)
    requires Skipped(m, s, h, d, target)
    ensures Skipped(ProcessFrame(m, f, SkippingEnv(s, d, f, target)), s, h, d, target)
  {
    OtherChannel(m, f, SkippingEnv(s, d, f, target), s, h);
  }

  lemma SkippedStep(m: Mux, f: Frame, s: u32, h: nat, d: seq<Frame>, target: nat)
    requires Delivery(m, s, h, d, false) && m.chans[h].alive && ForReader(s, f)
    requires Skipped(m, s, h, d, target) && (HasClose(d) || f.CloseStream? ==> |UpToClose(d + [f])| <= target)
    ensures Skipped(ProcessFrame(m, f, SkippingEnv(s, d, f, target)), s, h, d + [f], target)
  {
    var env := SkippingEnv(s, d, f, target);
    DispatchEffect(m, f, env, s, h, d, false);
    UpToClosePush(d, f);
    hide HasClose, UpToClose;
    if HasClose(d) {
      assert |d| == target ==> (d + [f])[target] == f;
      assert UpToClose(d) + [] == UpToClose(d);
    } else {
      assert m.chans[h].log == d && d + [f] + [] == d + [f];
    }
  }

  lemma {:induction false} SkippingEnvsSkip(m: Mux, fs: seq<Frame>, s: u32, h: nat, target: nat)
    requires Routed(m) && Delivery(m, s, h, [], false) && m.chans[h].alive
    requires forall i :: 0 <= i < |fs| ==> !(fs[i].OpenStream? && fs[i].openId == s)
    requires var d := Filter(ReaderFrames(s), fs); HasClose(d) ==> |UpToClose(d)| <= target
    ensures Skipped(DispatchAll(m, fs, SkippingEnvs(s, fs, target)), s, h, Filter(ReaderFrames(s), fs), target)
  {
    hide Routed, Skipped, SkippingEnv, HasClose, UpToClose;
    if fs == [] {
      NothingSkipped(m, s, h, target);
    } else {
      var front, f := fs[..|fs| - 1], fs[|fs| - 1];
      var envs, d := SkippingEnvs(s, front, target), Filter(ReaderFrames(s), front);
      var m1 := DispatchAll(m, front, envs);
      assert fs == front + [f] && SkippingEnvs(s, fs, target)[..|front|] == envs;
      FilterPush(ReaderFrames(s), front, f);
      UpToClosePush(d, f);
      SkippingEnvsSkip(m, front, s, h, target);
      DispatchAllDelivers(m, front, envs, s, h);
      if ForReader(s, f) {
        SkippedStep(m1, f, s, h, d, target);
      } else {
        SkippedOther(m1, f, s, h, d, target);
      }
    }
  }

  lemma NothingSkipped(m: Mux, s: u32, h: nat, target: nat)
    ensures Skipped(m, s, h, [], target)
  {
  }

  /** A subsequence of equal frames is a prefix of them. */
  lemma PicksOfEqual(log: seq<Frame>, d: seq<Frame>)
    requires Picks(log, d) && AllEqual(AfterClose(d))
    ensures log <= d
  {
    var u := |UpToClose(d)|;
    forall k | 0 <= k < |log| ensures log[k] == d[k] {
      if u <= k {
        assert log[k] in AfterClose(d) && AfterClose(d)[k - u] == d[k];
      } else {
        assert UpToClose(d)[k] == d[k];
      }
    }
  }

  /**
   After the close the cached sender still delivers, and a failed lock loses one frame and not the next. So what
   the channel of a stream holds is a prefix of what was dispatched for it, however the locks answer, exactly when
   the frames dispatched after its first close are all the same.
   */
  lemma PrefixIff(m: Mux, fs: seq<Frame>, s: u32, h: nat)
    requires Routed(m) && Delivery(m, s, h, [], false) && m.chans[h].alive
    requires forall i :: 0 <= i < |fs| ==> !(fs[i].OpenStream? && fs[i].openId == s)
    ensures var d := Filter(ReaderFrames(s), fs);
            (forall envs :: |envs| == |fs| ==>
              h < |DispatchAll(m, fs, envs).chans| && DispatchAll(m, fs, envs).chans[h].log <= d)
            <==> AllEqual(AfterClose(d))
  {
    hide Routed, Delivery, Picks;
    var d := Filter(ReaderFrames(s), fs);
    if AllEqual(AfterClose(d)) {
      forall envs: seq<Env> | |envs| == |fs|
        ensures h < |DispatchAll(m, fs, envs).chans| && DispatchAll(m, fs, envs).chans[h].log <= d
      {
        DispatchAllPicks(m, fs, envs, s, h);
        PicksOfEqual(DispatchAll(m, fs, envs).chans[h].log, d);
      }
    } else {
      GapAfterClose(m, fs, s, h);
    }
  }

  /** Two different frames after the close: some lock failures make the channel skip the first of them. */
  lemma GapAfterClose(m: Mux, fs: seq<Frame>, s: u32, h: nat)
    requires Routed(m) && Delivery(m, s, h, [], false) && m.chans[h].alive
    requires forall i :: 0 <= i < |fs| ==> !(fs[i].OpenStream? && fs[i].openId == s)
    requires !AllEqual(AfterClose(Filter(ReaderFrames(s), fs)))
    ensures exists envs ::
      && |envs| == |fs| && h < |DispatchAll(m, fs, envs).chans|
      && !(DispatchAll(m, fs, envs).chans[h].log <= Filter(ReaderFrames(s), fs))
  {
    hide Routed, Delivery, HasClose, Filter, DispatchAll, SkippingEnvs;
    var d := Filter(ReaderFrames(s), fs);
    var u := |UpToClose(d)|;
    var after := AfterClose(d);
    assert HasClose(d);
    hide UpToClose;
    var j :| 0 <= j < |after| && after[j] != after[0];
    var envs := SkippingEnvs(s, fs, u + j);
    SkippingEnvsSkip(m, fs, s, h, u + j);
    var log := DispatchAll(m, fs, envs).chans[h].log;
    assert log == UpToClose(d) + [d[u + j]];
    assert log[u] == after[j] && d[u] == after[0];
  }
}
