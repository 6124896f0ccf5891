/** Dispatching a decoded frame keeps the invariant. */
module PipelineDispatch {
  import opened Seqs
  import opened Frames
  import opened Codec
  import opened BatchedSender
  import opened Multiplexing
  import opened VirtualStreams
  import opened Pipeline
  import opened PipelineInvariant
  import opened PipelineSteps

  // ---------------------------------------------------------------------------------------------
  // Frames that change nothing but the log
  // ---------------------------------------------------------------------------------------------

  lemma ReaderPush(processed: seq<Frame>, f: Frame, s: u32)
    ensures Filter(ReaderFrames(s), processed + [f])
         == if ForReader(s, f) then Filter(ReaderFrames(s), processed) + [f] else Filter(ReaderFrames(s), processed)
  {
    FilterPush(ReaderFrames(s), processed, f);
  }

  lemma SeenPush(side: Side, registered: map<u32, nat>, prio: map<u32, StreamPriority>, processed: seq<Frame>, f: Frame)
    requires SeenOk(side, registered, prio, processed)
    ensures SeenOk(side, registered, prio, processed + [f])
  {
    hide Filter;
    forall s: u32 | !Own(side, s) && (s in registered || s in prio) ensures Filter(FrameOn(s), processed + [f]) != [] {
      FilterPush(FrameOn(s), processed, f);
    }
  }

  /** A stream just opened, by a frame on it. */
  lemma SeenOpen(side: Side, registered: map<u32, nat>, prio: map<u32, StreamPriority>, processed: seq<Frame>, f: Frame, s: u32,
                 registered': map<u32, nat>, prio': map<u32, StreamPriority>)
    requires SeenOk(side, registered, prio, processed) && StreamOf(f) == Some(s)
    requires registered'.Keys <= registered.Keys + {s} && prio'.Keys <= prio.Keys + {s}
    ensures SeenOk(side, registered', prio', processed + [f])
  {
    hide Filter;
    forall t: u32 | !Own(side, t) && (t in registered' || t in prio') ensures Filter(FrameOn(t), processed + [f]) != [] {
      FilterPush(FrameOn(t), processed, f);
    }
  }

  lemma DeliveryWeaken(m: Mux, s: u32, h: nat, d: seq<Frame>, faultless: bool, faultless': bool)
    requires Delivery(m, s, h, d, faultless) && (faultless' ==> faultless)
    ensures Delivery(m, s, h, d, faultless')
  {
    hide UpToClose, HasClose;
  }

  lemma UnreadPush(m: Mux, registered: map<u32, nat>, processed: seq<Frame>, f: Frame, faultless: bool, faultless': bool)
    requires DeliveryOk(m, registered, processed, faultless) && (faultless' ==> faultless)
    requires !f.Data? && !f.CloseStream?
    ensures DeliveryOk(m, registered, processed + [f], faultless')
  {
    hide Delivery, Filter;
    forall s | s in registered ensures Delivery(m, s, registered[s], Filter(ReaderFrames(s), processed + [f]), faultless') {
      ReaderPush(processed, f, s);
      DeliveryWeaken(m, s, registered[s], Filter(ReaderFrames(s), processed), faultless, faultless');
    }
  }

  // ---------------------------------------------------------------------------------------------
  // OpenStream
  // ---------------------------------------------------------------------------------------------

  /** An arriving `OpenStream` is the first frame of a stream its sender allocated, unknown here so far. */
  lemma OpenIsFirst(cfg: Config, side: Side, e: Endpoint, peer: Endpoint, f: Frame, rest: seq<byte>)
    requires cfg.Valid() && Inv(cfg, side, e, peer) && f.OpenStream?
    requires ArriveOk(cfg.At(Other(side)), peer.emitted, peer.written, e.received, rest, e.processed + [f])
    ensures var s := f.openId;
            && !Own(side, s) && Own(Other(side), s)
            && Filter(FrameOn(s), e.processed) == []
            && s !in e.registered && s !in e.prio && s !in e.handles && s in peer.registered
  {
    hide MuxOk, DeliveryOk, HandlesOk, EmitOk, EncodeAll, FramesOf, Filter, FrameOk, SentOn;
    var s, c' := f.openId, cfg.At(Other(side));
    EmitBound(c', peer);
    ArrivedOn(c', peer, e.processed + [f], s);
    FilterPush(FrameOn(s), e.processed, f);
    var n, xs := |Filter(FrameOn(s), e.processed)|, TakenOn(c', peer, s);
    TakenScript(c', Other(side), peer, s);
    FramesOfAt(xs, n);
    assert (Filter(FrameOn(s), e.processed) + [f])[n] == f;
    assert xs[n].frame == f;
    SentIsKnown(Other(side), c', peer, s, n);
  }

  lemma {:induction false} FramesOfAt(xs: seq<PrioritizedFrame>, n: nat)
    ensures n < |xs| ==> FramesOf(xs)[n] == xs[n].frame
  {
    if n + 1 < |xs| {
      FramesOfAt(xs[..|xs| - 1], n);
    }
  }

  lemma SentIsKnown(side: Side, c: TunnelCodec, p: Endpoint, s: u32, n: nat)
    requires c.Valid() && SentOk(side, p.sent, p.prio, p.handles) && p.taken <= |p.sent| && n < |TakenOn(c, p, s)|
    ensures s in p.prio
  {
    hide FrameOk, Script;
    if s !in p.prio {
      UnknownUnsent(side, p, s);
      NothingSent(c, p, s);
    }
  }

  lemma UnqueuedMux(m: Mux, registered: map<u32, nat>, processed: seq<Frame>, faultless: bool, s: u32, h: nat)
    requires MuxOk(m, registered) && DeliveryOk(m, registered, processed, faultless)
    requires s in registered && registered[s] == h
    ensures var m' := m.(streams := m.streams - {s}, chans := Kill(m.chans, h));
            MuxOk(m', registered) && DeliveryOk(m', registered, processed, faultless)
  {
    hide Holds, HasClose;
    var m' := m.(streams := m.streams - {s}, chans := Kill(m.chans, h));
    assert forall k :: 0 <= k < |m.chans| ==> OnlyOwner(m.chans[k]) ==> OnlyOwner(m'.chans[k]);
    forall t | t in registered ensures Delivery(m', t, registered[t], Filter(ReaderFrames(t), processed), faultless) {
      assert Delivery(m, t, registered[t], Filter(ReaderFrames(t), processed), faultless);
      if t == s {
        HoldsDead(m.chans[h].log, Filter(ReaderFrames(t), processed), m.chans[h].alive, faultless);
      } else {
        DeliveryFrame(m, m', t, registered[t], Filter(ReaderFrames(t), processed), faultless);
      }
    }
  }

  lemma HoldsDead(log: seq<Frame>, d: seq<Frame>, alive: bool, faultless: bool)
    requires Holds(log, d, alive, faultless)
    ensures Holds(log, d, false, faultless)
  {
  }

  lemma OpenMux(e: Endpoint, f: Frame, env: Env, faultless': bool)
    requires MuxOk(e.mux, e.registered) && DeliveryOk(e.mux, e.registered, e.processed, e.faultless)
    requires f.OpenStream? && f.openId !in e.registered && Filter(FrameOn(f.openId), e.processed) == []
    requires faultless' ==> e.faultless
    ensures var m', reg' := ProcessFrame(e.mux, f, env), e.registered[f.openId := |e.mux.chans|];
            && MuxOk(m', reg') && DeliveryOk(m', reg', e.processed + [f], faultless')
            && |m'.chans| == |e.mux.chans| + 1 && m'.nextId == e.mux.nextId
            && (forall h :: 0 <= h < |e.mux.chans| ==> m'.chans[h].log == e.mux.chans[h].log)
  {
    var s, m, p := f.openId, e.mux, f.priority;
    hide MuxOk, DeliveryOk;
    UnregisteredUnstreamed(m, e.registered, s);
    NoReaderFrames(e.processed, s);
    RegisterMuxOk(m, e.registered, s, p);
    RegisterDelivery(m, e.registered, e.processed, e.faultless, s, p);
    var m1, reg' := RegisterStream(m, s, p), e.registered[s := |m.chans|];
    if env.queued {
      UnreadPush(m1, reg', e.processed, f, e.faultless, faultless');
    } else {
      UnqueuedMux(m1, reg', e.processed, e.faultless, s, |m.chans|);
      UnreadPush(ProcessFrame(m, f, env), reg', e.processed, f, e.faultless, faultless');
    }
  }

  lemma OpenIds(side: Side, e: Endpoint, s: u32, e': Endpoint)
    requires IdsOk(side, e.mux.nextId, e.registered, e.opening, e.handles, e.prio) && !Own(side, s)
    requires e'.mux.nextId == e.mux.nextId && e'.opening == e.opening
    requires e.registered.Keys <= e'.registered.Keys <= e.registered.Keys + {s}
    requires e.prio.Keys <= e'.prio.Keys <= e.prio.Keys + {s}
    requires e'.handles.Keys <= e.handles.Keys + {s}
    requires s in e'.handles ==> s in e'.registered && s in e'.prio
    ensures IdsOk(side, e'.mux.nextId, e'.registered, e'.opening, e'.handles, e'.prio)
  {
    assert forall t :: t in e'.handles ==> t == s || t in e.handles;
    assert forall t :: t in e'.prio ==> t == s || t in e.prio;
    assert forall t :: t in e'.registered ==> t == s || t in e.registered;
    assert forall t :: t in e.registered ==> t in e'.registered;
    assert forall t :: t in e.prio ==> t in e'.prio;
  }

  lemma OpenKnown(side: Side, prio: map<u32, StreamPriority>, registered: map<u32, nat>, s: u32, p: StreamPriority)
    requires KnownOk(side, prio, registered) && s in registered
    ensures KnownOk(side, prio[s := p], registered)
  {
  }

  lemma OpenKnownPeer(side: Side, prio: map<u32, StreamPriority>, registered: map<u32, nat>, s: u32, h: nat)
    requires KnownOk(side, prio, registered)
    ensures KnownOk(side, prio, registered[s := h])
  {
  }

  lemma OpenSentOk(side: Side, e: Endpoint, s: u32, p: StreamPriority, h: Handle)
    requires SentOk(side, e.sent, e.prio, e.handles) && s !in e.prio && !Own(side, s)
    ensures SentOk(side, e.sent, e.prio[s := p], e.handles)
    ensures SentOk(side, e.sent, e.prio[s := p], e.handles[s := h])
  {
    AllocateSentOk(side, e, s, p);
    hide SentOn, Script, FrameOk;
  }

  lemma UnregisteredUnstreamed(m: Mux, registered: map<u32, nat>, s: u32)
    requires MuxOk(m, registered) && s !in registered
    ensures s !in m.streams
  {
    hide Routed;
  }

  /** The sending side of an endpoint that has, or has not, taken up a stream its peer opened. */
  lemma OpenedParts(side: Side, e: Endpoint, peer: Endpoint, f: Frame, e': Endpoint, queued: bool)
    requires f.OpenStream? && f.openId in peer.registered && !Own(side, f.openId)
    requires f.openId !in e.prio && f.openId !in e.registered && f.openId !in e.handles
    requires HandlesOk(e.handles, e'.registered, e.prio, e'.mux.chans)
    requires SentOk(side, e.sent, e.prio, e.handles) && KnownOk(side, e.prio, peer.registered)
    requires f.openId in e'.registered && e'.registered[f.openId] == |e.mux.chans| < |e'.mux.chans|
    requires e'.sent == e.sent
    requires e'.prio == if queued then e.prio[f.openId := f.priority] else e.prio
    requires e'.handles == if queued then e.handles[f.openId := NewHandle(f.priority, |e.mux.chans|)] else e.handles
    ensures SentOk(side, e'.sent, e'.prio, e'.handles) && KnownOk(side, e'.prio, peer.registered)
    ensures HandlesOk(e'.handles, e'.registered, e'.prio, e'.mux.chans)
  {
    hide HandlesOk, SentOk, KnownOk, HandleOk;
    if queued {
      var s, h := f.openId, |e.mux.chans|;
      OpenKnown(side, e.prio, peer.registered, s, f.priority);
      OpenSentOk(side, e, s, f.priority, NewHandle(f.priority, h));
      HandlesFrame(e.handles, e'.registered, e.prio, e'.mux.chans, e'.registered, e'.prio, e'.mux.chans);
      NewHandleOk(s, e'.registered, e'.prio, e'.mux.chans);
      AddHandle(e.handles, e'.registered, e'.prio, e'.mux.chans, s, NewHandle(f.priority, h));
    }
  }

  lemma DispatchOpenInv(cfg: Config, side: Side, e: Endpoint, peer: Endpoint, f: Frame, rest: seq<byte>, env: Env)
    requires cfg.Valid() && Inv(cfg, side, e, peer) && f.OpenStream?
    requires ArriveOk(cfg.At(Other(side)), peer.emitted, peer.written, e.received, rest, e.processed + [f])
    ensures f.openId !in e.registered && Inv(cfg, side, DoDispatch(e, f, rest, env), peer)
  {
    hide MuxOk, DeliveryOk, HandlesOk, SentOk, EmitOk, ArriveOk, IdsOk, SeenOk, KnownOk, HandleOk, ProcessFrame;
    var s, e', h := f.openId, DoDispatch(e, f, rest, env), |e.mux.chans|;
    OpenIsFirst(cfg, side, e, peer, f, rest);
    UnregisteredUnstreamed(e.mux, e.registered, s);
    OpenMux(e, f, env, e'.faultless);
    OpenIds(side, e, s, e');
    SeenOpen(side, e.registered, e.prio, e.processed, f, s, e'.registered, e'.prio);
    OpenKnownPeer(Other(side), peer.prio, e.registered, s, h);
    HandlesFrame(e.handles, e.registered, e.prio, e.mux.chans, e'.registered, e.prio, e'.mux.chans);
    OpenedParts(side, e, peer, f, e', env.queued);
  }

  /** The frame counts as processed, and the stream's priority is noted or not; nothing was sent yet. */
  function Unopened(e: Endpoint, f: Frame, rest: seq<byte>, noted: bool, p: StreamPriority): Endpoint
    requires f.OpenStream?
  {
    e.(buffer := rest, processed := e.processed + [f], prio := if noted then e.prio[f.openId := p] else e.prio)
  }

  lemma UnopenedInv(cfg: Config, side: Side, e: Endpoint, peer: Endpoint, f: Frame, rest: seq<byte>,
                    noted: bool, p: StreamPriority)
    requires cfg.Valid() && Inv(cfg, side, e, peer) && f.OpenStream?
    requires ArriveOk(cfg.At(Other(side)), peer.emitted, peer.written, e.received, rest, e.processed + [f])
    ensures f.openId !in e.prio && !Own(side, f.openId) && Inv(cfg, side, Unopened(e, f, rest, noted, p), peer)
  {
    hide MuxOk, DeliveryOk, HandlesOk, SentOk, EmitOk, ArriveOk, IdsOk, SeenOk, KnownOk, HandleOk;
    var s := f.openId;
    var e1 := Unopened(e, f, rest, noted, p);
    OpenIsFirst(cfg, side, e, peer, f, rest);
    UnreadPush(e.mux, e.registered, e.processed, f, e.faultless, e.faultless);
    UnopenedPrio(side, e, peer, f, rest, noted, p);
    HandlesFrame(e.handles, e.registered, e.prio, e.mux.chans, e1.registered, e1.prio, e1.mux.chans);
  }

  lemma UnopenedPrio(side: Side, e: Endpoint, peer: Endpoint, f: Frame, rest: seq<byte>, noted: bool, p: StreamPriority)
    requires f.OpenStream? && f.openId in peer.registered && !Own(side, f.openId)
    requires f.openId !in e.prio && f.openId !in e.registered && f.openId !in e.handles
    requires SeenOk(side, e.registered, e.prio, e.processed) && SentOk(side, e.sent, e.prio, e.handles)
    requires KnownOk(side, e.prio, peer.registered)
    requires IdsOk(side, e.mux.nextId, e.registered, e.opening, e.handles, e.prio)
    ensures var e1 := Unopened(e, f, rest, noted, p);
            && SeenOk(side, e1.registered, e1.prio, e1.processed) && SentOk(side, e1.sent, e1.prio, e1.handles)
            && KnownOk(side, e1.prio, peer.registered)
            && IdsOk(side, e1.mux.nextId, e1.registered, e1.opening, e1.handles, e1.prio)
  {
    hide SentOk, SeenOk, KnownOk, IdsOk;
    var s, e1 := f.openId, Unopened(e, f, rest, noted, p);
    SeenOpen(side, e.registered, e.prio, e.processed, f, s, e1.registered, e1.prio);
    OpenIds(side, e, s, e1);
    OpenKnown(side, e.prio, peer.registered, s, p);
    OpenSentOk(side, e, s, p, NewHandle(p, 0));
  }

  lemma DenyInv(cfg: Config, side: Side, e: Endpoint, peer: Endpoint, f: Frame, rest: seq<byte>, closeSent: bool)
    requires cfg.Valid() && Inv(cfg, side, e, peer) && f.OpenStream?
    requires ArriveOk(cfg.At(Other(side)), peer.emitted, peer.written, e.received, rest, e.processed + [f])
    ensures Inv(cfg, side, DoDeny(e, f.openId, f, rest, closeSent), peer)
  {
    hide Inv, ArriveOk;
    var s := f.openId;
    var p := PriorityFor(e.mux, CloseStream(s, ErrorClose(RATE_LIMITED)));
    UnopenedInv(cfg, side, e, peer, f, rest, closeSent, p);
    if closeSent {
      PutInv(cfg, side, Unopened(e, f, rest, true, p), peer, PF(p, CloseStream(s, ErrorClose(RATE_LIMITED))));
    }
  }

  // ---------------------------------------------------------------------------------------------
  // Data, CloseStream and the rest
  // ---------------------------------------------------------------------------------------------

  lemma ProcessOther(m: Mux, f: Frame, env: Env)
    requires !f.OpenStream?
    ensures var m' := ProcessFrame(m, f, env);
            && m'.nextId == m.nextId && |m'.chans| == |m.chans|
            && m'.streams.Keys <= m.streams.Keys && m'.priorities.Keys <= m.priorities.Keys
            && (m'.last == m.last || (m'.last.Some? && m'.last.value.0 in m.streams))
            && (forall h :: 0 <= h < |m.chans| ==> m'.chans[h].owner == m.chans[h].owner && m.chans[h].log <= m'.chans[h].log)
  {
  }

  lemma TrafficMuxOk(m: Mux, registered: map<u32, nat>, f: Frame, env: Env)
    requires MuxOk(m, registered) && !f.OpenStream?
    ensures MuxOk(ProcessFrame(m, f, env), registered)
  {
    ProcessRouted(m, f, env);
    ProcessOther(m, f, env);
    hide Routed, ProcessFrame;
  }

  lemma TrafficDelivery(m: Mux, registered: map<u32, nat>, processed: seq<Frame>, f: Frame, env: Env,
                        faultless: bool, faultless': bool)
    requires MuxOk(m, registered) && DeliveryOk(m, registered, processed, faultless) && !f.OpenStream?
    requires faultless' ==> faultless && env.firstLock && env.secondLock
    ensures DeliveryOk(ProcessFrame(m, f, env), registered, processed + [f], faultless')
  {
    hide Delivery, Routed, Filter, ProcessFrame;
    forall s | s in registered
      ensures Delivery(ProcessFrame(m, f, env), s, registered[s], Filter(ReaderFrames(s), processed + [f]), faultless')
    {
      var d := Filter(ReaderFrames(s), processed);
      ReaderPush(processed, f, s);
      DeliveryWeaken(m, s, registered[s], d, faultless, faultless');
      if ForReader(s, f) {
        DeliveryStep(m, f, env, s, registered[s], d, faultless');
      } else {
        DeliveryOther(m, f, env, s, registered[s], d, faultless');
      }
    }
  }

  lemma HandleGrows(s: u32, h: Handle, registered: map<u32, nat>, prio: map<u32, StreamPriority>, chans: seq<Chan>, chans': seq<Chan>)
    requires HandleOk(s, h, registered, prio, chans) && |chans'| == |chans| && chans[h.rx].log <= chans'[h.rx].log
    ensures HandleOk(s, h, registered, prio, chans')
  {
    hide DataBytes, HasClose, UpToClose;
    assert chans'[h.rx].log[..h.reading.consumed] == chans[h.rx].log[..h.reading.consumed];
  }

  lemma TrafficHandles(handles: map<u32, Handle>, registered: map<u32, nat>, prio: map<u32, StreamPriority>, chans: seq<Chan>,
                       chans': seq<Chan>)
    requires HandlesOk(handles, registered, prio, chans) && |chans'| == |chans|
    requires forall h :: 0 <= h < |chans| ==> chans[h].log <= chans'[h].log
    ensures HandlesOk(handles, registered, prio, chans')
  {
    hide ReadSoFar, ClosedOk;
    forall s | s in handles ensures HandleOk(s, handles[s], registered, prio, chans') {
      HandleGrows(s, handles[s], registered, prio, chans, chans');
    }
  }

  lemma DispatchOtherInv(cfg: Config, side: Side, e: Endpoint, peer: Endpoint, f: Frame, rest: seq<byte>, env: Env)
    requires cfg.Valid() && Inv(cfg, side, e, peer) && !f.OpenStream?
    requires ArriveOk(cfg.At(Other(side)), peer.emitted, peer.written, e.received, rest, e.processed + [f])
    ensures Inv(cfg, side, DoDispatch(e, f, rest, env), peer)
  {
    hide MuxOk, DeliveryOk, HandlesOk, SentOk, EmitOk, ArriveOk, IdsOk, SeenOk, KnownOk, ProcessFrame;
    var e' := DoDispatch(e, f, rest, env);
    TrafficMuxOk(e.mux, e.registered, f, env);
    TrafficDelivery(e.mux, e.registered, e.processed, f, env, e.faultless, e'.faultless);
    ProcessOther(e.mux, f, env);
    TrafficHandles(e.handles, e.registered, e.prio, e.mux.chans, e'.mux.chans);
    SeenPush(side, e.registered, e.prio, e.processed, f);
  }
}
