/** Every action of either peer keeps the invariant. */
module PipelineSteps {
  import opened Seqs
  import opened Frames
  import opened Codec
  import opened BatchedSender
  import opened Multiplexing
  import opened VirtualStreams
  import opened Pipeline
  import opened PipelineInvariant

  // ---------------------------------------------------------------------------------------------
  // What one side can have processed, given what the other sent
  // ---------------------------------------------------------------------------------------------

  lemma {:induction false} FramesOfFilter(x: seq<PrioritizedFrame>, s: u32)
    ensures Filter(FrameOn(s), FramesOf(x)) == FramesOf(SentOn(x, s))
  {
    if x == [] {
    } else {
      var front, last := x[..|x| - 1], x[|x| - 1];
      FramesOfFilter(front, s);
      assert x == front + [last];
      FramesOfPush(front, last);
      FilterPush(FrameOn(s), FramesOf(front), last.frame);
      FilterPush(OnStream(s), front, last);
      FramesOfPush(SentOn(front, s), last);
    }
  }

  /** The frames of stream `s` the sender has taken and could encode. */
  function TakenOn(c: TunnelCodec, p: Endpoint, s: u32): seq<PrioritizedFrame>
    requires c.Valid() && p.taken <= |p.sent|
  {
    SentOn(Filter(Accepted(c), p.sent[..p.taken]), s)
  }

  lemma ArrivedOn(c: TunnelCodec, p: Endpoint, processed: seq<Frame>, s: u32)
    requires c.Valid() && EmitOk(c, p.sent, p.taken, p.emitted) && processed <= FramesOf(p.emitted)
    ensures Filter(FrameOn(s), processed) <= FramesOf(TakenOn(c, p, s))
  {
    FilterPrefix(FrameOn(s), processed, FramesOf(p.emitted));
    FramesOfFilter(p.emitted, s);
  }

  /** The frames taken on a stream are frames sent on it, in order. */
  lemma TakenIsSent(c: TunnelCodec, p: Endpoint, s: u32)
    requires c.Valid() && p.taken <= |p.sent|
    ensures TakenOn(c, p, s) == Filter(Accepted(c), SentOn(p.sent[..p.taken], s))
    ensures SentOn(p.sent[..p.taken], s) <= SentOn(p.sent, s)
  {
    FilterFilter(OnStream(s), Accepted(c), p.sent[..p.taken]);
    FilterPrefix(OnStream(s), p.sent[..p.taken], p.sent);
  }

  lemma {:induction false} ScriptFiltered(own: bool, q: PrioritizedFrame -> bool, fs: seq<PrioritizedFrame>)
    requires Script(own, fs)
    ensures Script(own, Filter(q, fs))
  {
    if fs == [] {
    } else {
      var front, last := fs[..|fs| - 1], fs[|fs| - 1];
      ScriptFiltered(own, q, front);
      FilterMembers(q, front);
      assert |fs| > 1 ==> !last.frame.OpenStream?;
    }
  }

  lemma TakenScript(c: TunnelCodec, side: Side, p: Endpoint, s: u32)
    requires c.Valid() && p.taken <= |p.sent| && Script(Own(side, s), SentOn(p.sent, s))
    ensures Script(Own(side, s), TakenOn(c, p, s))
  {
    TakenIsSent(c, p, s);
    var prefix := SentOn(p.sent[..p.taken], s);
    assert forall i :: 0 <= i < |prefix| ==> prefix[i] == SentOn(p.sent, s)[i];
    ScriptFiltered(Own(side, s), Accepted(c), prefix);
  }

  lemma NothingSent(c: TunnelCodec, p: Endpoint, s: u32)
    requires c.Valid() && p.taken <= |p.sent| && SentOn(p.sent, s) == []
    ensures TakenOn(c, p, s) == []
  {
    TakenIsSent(c, p, s);
  }

  lemma UnknownUnsent(side: Side, p: Endpoint, s: u32)
    requires SentOk(side, p.sent, p.prio, p.handles) && s !in p.prio
    ensures SentOn(p.sent, s) == []
  {
    forall x | x in p.sent ensures !OnStream(s)(x) {
      assert FrameOk(x, p.prio);
    }
    FilterNone(OnStream(s), p.sent);
  }

  lemma NoReaderFrames(processed: seq<Frame>, s: u32)
    requires Filter(FrameOn(s), processed) == []
    ensures Filter(ReaderFrames(s), processed) == []
  {
    FilterMembers(FrameOn(s), processed);
    FilterNone(ReaderFrames(s), processed);
  }

  // ---------------------------------------------------------------------------------------------
  // Parts of the invariant that a change elsewhere leaves alone
  // ---------------------------------------------------------------------------------------------

  lemma DeliveryFrame(m: Mux, m': Mux, s: u32, h: nat, d: seq<Frame>, faultless: bool)
    requires Delivery(m, s, h, d, faultless)
    requires h < |m'.chans| && m'.chans[h].(alive := true) == m.chans[h].(alive := true)
    requires m'.chans[h].alive ==> m.chans[h].alive
    requires m'.last == m.last && (s in m'.streams <==> s in m.streams)
    requires s in m.streams && s in m'.streams ==> m'.streams[s] == m.streams[s]
    ensures Delivery(m', s, h, d, faultless)
  {
    hide UpToClose, HasClose;
  }

  lemma HandlesFrame(handles: map<u32, Handle>, registered: map<u32, nat>, prio: map<u32, StreamPriority>, chans: seq<Chan>,
                     registered': map<u32, nat>, prio': map<u32, StreamPriority>, chans': seq<Chan>)
    requires HandlesOk(handles, registered, prio, chans)
    requires forall s :: s in handles && s in registered ==> s in registered' && registered'[s] == registered[s]
    requires forall s :: s in handles && s in prio ==> s in prio' && prio'[s] == prio[s]
    requires |chans| <= |chans'| && forall h :: 0 <= h < |chans| ==> chans'[h].log == chans[h].log
    ensures HandlesOk(handles, registered', prio', chans')
  {
    hide ReadSoFar, ClosedOk;
    forall s | s in handles ensures HandleOk(s, handles[s], registered', prio', chans') {
      assert HandleOk(s, handles[s], registered, prio, chans);
    }
  }

  // ---------------------------------------------------------------------------------------------
  // Opening a stream
  // ---------------------------------------------------------------------------------------------

  lemma RegisterMuxOk(m: Mux, registered: map<u32, nat>, s: u32, p: StreamPriority)
    requires MuxOk(m, registered) && s !in registered
    ensures MuxOk(RegisterStream(m, s, p), registered[s := |m.chans|])
  {
    RegisterRouted(m, s, p);
    hide Routed;
  }

  lemma RegisterDelivery(m: Mux, registered: map<u32, nat>, processed: seq<Frame>, faultless: bool, s: u32, p: StreamPriority)
    requires MuxOk(m, registered) && DeliveryOk(m, registered, processed, faultless)
    requires s !in registered && Filter(ReaderFrames(s), processed) == []
    ensures DeliveryOk(RegisterStream(m, s, p), registered[s := |m.chans|], processed, faultless)
  {
    hide Routed, Holds;
    var m', reg' := RegisterStream(m, s, p), registered[s := |m.chans|];
    forall t | t in reg' ensures Delivery(m', t, reg'[t], Filter(ReaderFrames(t), processed), faultless) {
      if t != s {
        assert Delivery(m, t, registered[t], Filter(ReaderFrames(t), processed), faultless);
        DeliveryFrame(m, m', t, registered[t], Filter(ReaderFrames(t), processed), faultless);
      } else {
        FreshHolds(faultless);
      }
    }
  }

  lemma FreshHolds(faultless: bool)
    ensures Holds([], [], true, faultless) && !HasClose([])
  {
  }

  lemma AllocateSentOk(side: Side, e: Endpoint, s: u32, p: StreamPriority)
    requires SentOk(side, e.sent, e.prio, e.handles) && s !in e.prio
    ensures SentOk(side, e.sent, e.prio[s := p], e.handles)
  {
    hide Script, SentOn;
    forall x | x in e.sent ensures FrameOk(x, e.prio[s := p]) {
      assert FrameOk(x, e.prio);
    }
  }

  /** The next id is new on both sides: nothing was ever sent on it. */
  lemma AllocateFresh(cfg: Config, side: Side, e: Endpoint, peer: Endpoint)
    requires cfg.Valid() && Inv(cfg, side, e, peer)
    ensures var s := e.mux.nextId;
            s !in e.registered && s !in e.prio && s !in e.handles && Filter(ReaderFrames(s), e.processed) == []
  {
    hide MuxOk, DeliveryOk, HandlesOk, SentOk, SeenOk, EmitOk;
    var s, c' := e.mux.nextId, cfg.At(Other(side));
    assert s !in e.registered && s !in e.prio && s !in e.handles;
    assert s !in peer.prio;
    UnknownUnsent(Other(side), peer, s);
    assert peer.taken <= |peer.sent| by { EmitBound(c', peer); }
    NothingSent(c', peer, s);
    ArrivedOn(c', peer, e.processed, s);
    NoReaderFrames(e.processed, s);
  }

  lemma EmitBound(c: TunnelCodec, p: Endpoint)
    requires c.Valid() && EmitOk(c, p.sent, p.taken, p.emitted)
    ensures p.taken <= |p.sent|
  {
  }

  lemma AllocateKeepsMux(m: Mux, registered: map<u32, nat>, processed: seq<Frame>, faultless: bool)
    requires CanAllocate(m) && MuxOk(m, registered) && DeliveryOk(m, registered, processed, faultless)
    ensures MuxOk(Allocate(m), registered) && DeliveryOk(Allocate(m), registered, processed, faultless)
  {
    hide Holds;
    forall s | s in registered
      ensures Delivery(Allocate(m), s, registered[s], Filter(ReaderFrames(s), processed), faultless)
    {
      assert Delivery(m, s, registered[s], Filter(ReaderFrames(s), processed), faultless);
    }
  }

  lemma AllocateIds(side: Side, e: Endpoint, p: StreamPriority)
    requires CanAllocate(e.mux) && IdsOk(side, e.mux.nextId, e.registered, e.opening, e.handles, e.prio)
    ensures var e' := DoAllocate(e, p);
            IdsOk(side, e'.mux.nextId, e'.registered, e'.opening, e'.handles, e'.prio)
  {
  }

  lemma AllocateInv(cfg: Config, side: Side, e: Endpoint, peer: Endpoint, p: StreamPriority)
    requires cfg.Valid() && Inv(cfg, side, e, peer) && CanAllocate(e.mux)
    ensures Inv(cfg, side, DoAllocate(e, p), peer)
  {
    hide MuxOk, DeliveryOk, HandlesOk, SentOk, EmitOk, ArriveOk, IdsOk, SeenOk, KnownOk;
    var s, e' := e.mux.nextId, DoAllocate(e, p);
    AllocateFresh(cfg, side, e, peer);
    AllocateKeepsMux(e.mux, e.registered, e.processed, e.faultless);
    RegisterMuxOk(Allocate(e.mux), e.registered, s, p);
    RegisterDelivery(Allocate(e.mux), e.registered, e.processed, e.faultless, s, p);
    AllocateSentOk(side, e, s, p);
    AllocateIds(side, e, p);
    HandlesFrame(e.handles, e.registered, e.prio, e.mux.chans, e'.registered, e'.prio, e'.mux.chans);
    AllocateRest(side, e, peer, p);
  }

  lemma AllocateRest(side: Side, e: Endpoint, peer: Endpoint, p: StreamPriority)
    requires CanAllocate(e.mux) && IdsOk(side, e.mux.nextId, e.registered, e.opening, e.handles, e.prio)
    requires SeenOk(side, e.registered, e.prio, e.processed)
    requires KnownOk(side, e.prio, peer.registered) && KnownOk(Other(side), peer.prio, e.registered)
    ensures var e' := DoAllocate(e, p);
            && SeenOk(side, e'.registered, e'.prio, e'.processed)
            && KnownOk(side, e'.prio, peer.registered) && KnownOk(Other(side), peer.prio, e'.registered)
  {
  }

  // ---------------------------------------------------------------------------------------------
  // Putting a frame in the wire channel
  // ---------------------------------------------------------------------------------------------

  lemma SentOnPush(sent: seq<PrioritizedFrame>, x: PrioritizedFrame, s: u32)
    ensures SentOn(sent + [x], s) == if StreamOf(x.frame) == Some(s) then SentOn(sent, s) + [x] else SentOn(sent, s)
  {
    FilterPush(OnStream(s), sent, x);
  }

  lemma PutEmitOk(c: TunnelCodec, sent: seq<PrioritizedFrame>, taken: nat, emitted: seq<PrioritizedFrame>, x: PrioritizedFrame)
    requires c.Valid() && EmitOk(c, sent, taken, emitted)
    ensures EmitOk(c, sent + [x], taken, emitted)
  {
    assert (sent + [x])[..taken] == sent[..taken];
  }

  lemma PutScript(side: Side, sent: seq<PrioritizedFrame>, x: PrioritizedFrame, s: u32)
    requires Script(Own(side, s), SentOn(sent, s))
    requires x.frame.OpenStream? && x.frame.openId == s ==> Own(side, s) && SentOn(sent, s) == []
    ensures Script(Own(side, s), SentOn(sent + [x], s))
  {
    SentOnPush(sent, x, s);
  }

  lemma PutSentOk(side: Side, sent: seq<PrioritizedFrame>, prio: map<u32, StreamPriority>, handles: map<u32, Handle>,
                  x: PrioritizedFrame, handles': map<u32, Handle>)
    requires SentOk(side, sent, prio, handles) && FrameOk(x, prio)
    requires handles.Keys <= handles'.Keys
    requires var s := StreamOf(x.frame); s.Some? && Own(side, s.value) ==> s.value in handles'
    requires x.frame.OpenStream? ==> Own(side, x.frame.openId) && SentOn(sent, x.frame.openId) == []
    ensures SentOk(side, sent + [x], prio, handles')
  {
    hide SentOn, Script, FrameOk;
    forall s: u32 ensures Script(Own(side, s), SentOn(sent + [x], s)) {
      PutScript(side, sent, x, s);
    }
    forall s: u32 | Own(side, s) && s !in handles' ensures SentOn(sent + [x], s) == [] {
      SentOnPush(sent, x, s);
      assert SentOn(sent, s) == [];
    }
  }

  lemma NewHandleOk(s: u32, registered: map<u32, nat>, prio: map<u32, StreamPriority>, chans: seq<Chan>)
    requires s in registered && s in prio && registered[s] < |chans|
    ensures HandleOk(s, NewHandle(prio[s], registered[s]), registered, prio, chans)
  {
    var log := chans[registered[s]].log;
    assert log[..0] == [];
    assert DataBytes([]) == [];
  }

  lemma AddHandle(handles: map<u32, Handle>, registered: map<u32, nat>, prio: map<u32, StreamPriority>, chans: seq<Chan>,
                  s: u32, h: Handle)
    requires HandlesOk(handles, registered, prio, chans) && HandleOk(s, h, registered, prio, chans)
    ensures HandlesOk(handles[s := h], registered, prio, chans)
  {
    hide HandleOk;
  }

  lemma RegisteredBound(m: Mux, registered: map<u32, nat>, s: u32)
    requires MuxOk(m, registered) && s in registered
    ensures registered[s] < |m.chans| && m.chans[registered[s]].owner == s
  {
    hide Routed;
  }

  lemma OpenSentInv(cfg: Config, side: Side, e: Endpoint, peer: Endpoint, s: u32, protocol: Protocol)
    requires cfg.Valid() && Inv(cfg, side, e, peer) && CanOpen(e, s)
    ensures Inv(cfg, side, DoOpenSent(e, s, protocol), peer)
  {
    hide MuxOk, DeliveryOk, HandlesOk, SentOk, EmitOk, ArriveOk, IdsOk, SeenOk, KnownOk, FrameOk, HandleOk;
    var e', x := DoOpenSent(e, s, protocol), PF(e.prio[s], OpenStream(s, protocol, [], None, e.prio[s]));
    RegisteredBound(e.mux, e.registered, s);
    NewHandleOk(s, e.registered, e.prio, e.mux.chans);
    AddHandle(e.handles, e.registered, e.prio, e.mux.chans, s, NewHandle(e.prio[s], e.registered[s]));
    OpenSentIds(side, e, s, protocol);
    UnsentOwn(side, e, s);
    OpenFrameOk(e.prio, s, x);
    PutSentOk(side, e.sent, e.prio, e.handles, x, e'.handles);
    PutEmitOk(cfg.At(side), e.sent, e.taken, e.emitted, x);
  }

  lemma OpenFrameOk(prio: map<u32, StreamPriority>, s: u32, x: PrioritizedFrame)
    requires s in prio && StreamOf(x.frame) == Some(s) && x.priority == prio[s] && Payload(x.frame) == []
    ensures FrameOk(x, prio)
  {
  }

  lemma OpenSentIds(side: Side, e: Endpoint, s: u32, protocol: Protocol)
    requires CanOpen(e, s) && IdsOk(side, e.mux.nextId, e.registered, e.opening, e.handles, e.prio)
    ensures var e' := DoOpenSent(e, s, protocol);
            IdsOk(side, e'.mux.nextId, e'.registered, e'.opening, e'.handles, e'.prio)
    ensures Own(side, s) && s !in e.handles
  {
  }

  lemma UnsentOwn(side: Side, e: Endpoint, s: u32)
    requires SentOk(side, e.sent, e.prio, e.handles) && Own(side, s) && s !in e.handles
    ensures SentOn(e.sent, s) == []
  {
    hide SentOn;
  }

  // ---------------------------------------------------------------------------------------------
  // Losing a reader
  // ---------------------------------------------------------------------------------------------

  lemma KillMux(m: Mux, registered: map<u32, nat>, processed: seq<Frame>, faultless: bool, h: nat)
    requires MuxOk(m, registered) && DeliveryOk(m, registered, processed, faultless)
    ensures var m' := m.(chans := Kill(m.chans, h));
            MuxOk(m', registered) && DeliveryOk(m', registered, processed, faultless)
  {
    hide Holds;
    var m' := m.(chans := Kill(m.chans, h));
    assert forall k :: 0 <= k < |m.chans| ==> OnlyOwner(m.chans[k]) ==> OnlyOwner(m'.chans[k]);
    forall s | s in registered ensures Delivery(m', s, registered[s], Filter(ReaderFrames(s), processed), faultless) {
      assert Delivery(m, s, registered[s], Filter(ReaderFrames(s), processed), faultless);
      DeliveryFrame(m, m', s, registered[s], Filter(ReaderFrames(s), processed), faultless);
    }
  }

  lemma OpenFailedInv(cfg: Config, side: Side, e: Endpoint, peer: Endpoint, s: u32)
    requires cfg.Valid() && Inv(cfg, side, e, peer) && CanOpen(e, s)
    ensures Inv(cfg, side, DoOpenFailed(e, s), peer)
  {
    hide MuxOk, DeliveryOk, HandlesOk, SentOk, EmitOk, ArriveOk, IdsOk, SeenOk, KnownOk;
    var e' := DoOpenFailed(e, s);
    KillMux(e.mux, e.registered, e.processed, e.faultless, e.registered[s]);
    HandlesFrame(e.handles, e.registered, e.prio, e.mux.chans, e.registered, e.prio, e'.mux.chans);
    OpenFailedIds(side, e, s);
  }

  lemma OpenFailedIds(side: Side, e: Endpoint, s: u32)
    requires IdsOk(side, e.mux.nextId, e.registered, e.opening, e.handles, e.prio)
    ensures IdsOk(side, e.mux.nextId, e.registered, e.opening - {s}, e.handles, e.prio)
  {
  }

  lemma SameKeysIds(side: Side, e: Endpoint, handles': map<u32, Handle>)
    requires IdsOk(side, e.mux.nextId, e.registered, e.opening, e.handles, e.prio) && handles'.Keys == e.handles.Keys
    ensures IdsOk(side, e.mux.nextId, e.registered, e.opening, handles', e.prio)
  {
    assert forall s :: s in handles' <==> s in e.handles;
  }

  lemma SameKeysSent(side: Side, e: Endpoint, handles': map<u32, Handle>)
    requires SentOk(side, e.sent, e.prio, e.handles) && handles'.Keys == e.handles.Keys
    ensures SentOk(side, e.sent, e.prio, handles')
  {
    hide SentOn, Script, FrameOk;
    assert forall s :: s in handles' <==> s in e.handles;
  }

  lemma SetKeys(handles: map<u32, Handle>, s: u32, h: Handle)
    requires s in handles
    ensures handles[s := h].Keys == handles.Keys
  {
  }

  /** Replacing a handle by a good one, everything else alone. */
  lemma SetHandleInv(cfg: Config, side: Side, e: Endpoint, peer: Endpoint, s: u32, h: Handle)
    requires cfg.Valid() && Inv(cfg, side, e, peer) && s in e.handles
    requires HandleOk(s, h, e.registered, e.prio, e.mux.chans)
    ensures Inv(cfg, side, SetHandle(e, s, h), peer)
  {
    hide MuxOk, DeliveryOk, HandlesOk, SentOk, EmitOk, ArriveOk, IdsOk, SeenOk, KnownOk, HandleOk;
    var handles' := e.handles[s := h];
    SetKeys(e.handles, s, h);
    SameKeysIds(side, e, handles');
    SameKeysSent(side, e, handles');
    AddHandle(e.handles, e.registered, e.prio, e.mux.chans, s, h);
  }

  lemma PendingOk(e: Endpoint, s: u32, pending: Option<Frame>, alive: bool)
    requires s in e.handles && HandleOk(s, e.handles[s], e.registered, e.prio, e.mux.chans)
    requires pending.Some? ==> ForReader(s, pending.value) && |Payload(pending.value)| <= MAX_DATA_FRAME_PAYLOAD
    ensures HandleOk(s, e.handles[s].(pending := pending), e.registered, e.prio, e.mux.chans)
    ensures HandleOk(s, e.handles[s].(alive := alive, pending := pending), e.registered, e.prio, e.mux.chans)
  {
    hide ReadSoFar, DataBytes, HasClose, UpToClose;
  }

  lemma HandleOf(cfg: Config, side: Side, e: Endpoint, peer: Endpoint, s: u32)
    requires cfg.Valid() && Inv(cfg, side, e, peer) && s in e.handles
    ensures HandleOk(s, e.handles[s], e.registered, e.prio, e.mux.chans)
  {
    hide MuxOk, DeliveryOk, SentOk, EmitOk, ArriveOk, IdsOk, SeenOk, KnownOk, HandleOk;
  }

  lemma StartInv(cfg: Config, side: Side, e: Endpoint, peer: Endpoint, s: u32, f: Frame)
    requires cfg.Valid() && Inv(cfg, side, e, peer) && Live(e, s)
    requires ForReader(s, f) && |Payload(f)| <= MAX_DATA_FRAME_PAYLOAD
    ensures Inv(cfg, side, DoStart(e, s, f), peer)
  {
    hide Inv, HandleOk;
    HandleOf(cfg, side, e, peer, s);
    PendingOk(e, s, Some(f), true);
    SetHandleInv(cfg, side, e, peer, s, e.handles[s].(pending := Some(f)));
  }

  lemma SendAbortedInv(cfg: Config, side: Side, e: Endpoint, peer: Endpoint, s: u32)
    requires cfg.Valid() && Inv(cfg, side, e, peer) && Live(e, s)
    ensures Inv(cfg, side, DoSendAborted(e, s), peer)
  {
    hide Inv, HandleOk;
    HandleOf(cfg, side, e, peer, s);
    PendingOk(e, s, None, true);
    SetHandleInv(cfg, side, e, peer, s, e.handles[s].(pending := None));
  }

  /** A frame on a known stream, or on none, enters the wire channel. */
  lemma PutInv(cfg: Config, side: Side, e: Endpoint, peer: Endpoint, x: PrioritizedFrame)
    requires cfg.Valid() && Inv(cfg, side, e, peer) && FrameOk(x, e.prio) && !x.frame.OpenStream?
    requires var s := StreamOf(x.frame); s.Some? && Own(side, s.value) ==> s.value in e.handles
    ensures Inv(cfg, side, Put(e, x), peer)
  {
    hide MuxOk, DeliveryOk, HandlesOk, SentOk, EmitOk, ArriveOk, IdsOk, SeenOk, KnownOk, FrameOk;
    PutSentOk(side, e.sent, e.prio, e.handles, x, e.handles);
    PutEmitOk(cfg.At(side), e.sent, e.taken, e.emitted, x);
  }

  lemma SendDoneInv(cfg: Config, side: Side, e: Endpoint, peer: Endpoint, s: u32)
    requires cfg.Valid() && Inv(cfg, side, e, peer) && Live(e, s) && e.handles[s].pending.Some?
    ensures Inv(cfg, side, DoSendDone(e, s), peer)
  {
    hide Inv, ReadSoFar, ClosedOk;
    HandleOf(cfg, side, e, peer, s);
    SendAbortedInv(cfg, side, e, peer, s);
    PutInv(cfg, side, DoSendAborted(e, s), peer, PF(e.handles[s].priority, e.handles[s].pending.value));
  }

  lemma SendControlInv(cfg: Config, side: Side, e: Endpoint, peer: Endpoint, p: StreamPriority, f: Frame)
    requires cfg.Valid() && Inv(cfg, side, e, peer) && StreamOf(f).None?
    ensures Inv(cfg, side, Put(e, PF(p, f)), peer)
  {
    hide Inv;
    PutInv(cfg, side, e, peer, PF(p, f));
  }

  lemma DropInv(cfg: Config, side: Side, e: Endpoint, peer: Endpoint, s: u32)
    requires cfg.Valid() && Inv(cfg, side, e, peer) && Live(e, s)
    ensures Inv(cfg, side, DoDrop(e, s), peer)
  {
    var h := e.handles[s].(alive := false, pending := None);
    var e1 := SetHandle(e, s, h);
    HandleOf(cfg, side, e, peer, s);
    PendingOk(e, s, None, false);
    SetHandleInv(cfg, side, e, peer, s, h);
    KillInv(cfg, side, e1, peer, e.handles[s].rx);
    hide Inv;
  }

  lemma KillInv(cfg: Config, side: Side, e: Endpoint, peer: Endpoint, h: nat)
    requires cfg.Valid() && Inv(cfg, side, e, peer)
    ensures Inv(cfg, side, e.(mux := e.mux.(chans := Kill(e.mux.chans, h))), peer)
  {
    hide MuxOk, DeliveryOk, HandlesOk, SentOk, EmitOk, ArriveOk, IdsOk, SeenOk, KnownOk;
    KillMux(e.mux, e.registered, e.processed, e.faultless, h);
    HandlesFrame(e.handles, e.registered, e.prio, e.mux.chans, e.registered, e.prio, Kill(e.mux.chans, h));
  }

  // ---------------------------------------------------------------------------------------------
  // Reading
  // ---------------------------------------------------------------------------------------------

  lemma ClosedStays(log: seq<Frame>, h: Handle, st: ReadState, read: seq<byte>)
    requires ClosedOk(log, h) && st.consumed == h.reading.consumed
    ensures ClosedOk(log, h.(reading := st, read := read))
  {
  }

  /** Receiving the next frame of the channel. */
  lemma ClosedAdvances(log: seq<Frame>, h: Handle, st: ReadState, read: seq<byte>)
    requires ClosedOk(log, h) && ReadSoFar(log, h.reading, h.read) && h.reading.buffered == []
    requires h.reading.consumed < |log| && st.consumed == h.reading.consumed + 1
    ensures ClosedOk(log, h.(reading := st, read := read,
                             atClose := if log[h.reading.consumed].CloseStream? && h.atClose.None? then Some(h.read) else h.atClose))
  {
    hide DataBytes;
    var got, f := log[..h.reading.consumed], log[h.reading.consumed];
    assert log[..st.consumed] == got + [f];
    UpToClosePush(got, f);
    DataBytesPush(got, f);
    assert h.read + [] == h.read && DataBytes(got) + [] == DataBytes(got);
  }

  lemma ReadHandleOk(e: Endpoint, s: u32, cap: nat, disconnected: bool)
    requires CanRead(e, s) && HandleOk(s, e.handles[s], e.registered, e.prio, e.mux.chans)
    ensures HandleOk(s, DoRead(e, s, cap, disconnected).handles[s], e.registered, e.prio, e.mux.chans)
  {
    hide ReadSoFar, ClosedOk, DataBytes;
    var h := e.handles[s];
    var log := e.mux.chans[h.rx].log;
    var (st, poll) := PollRead(log, h.reading, cap, disconnected);
    PollReadKeeps(log, h.reading, h.read, cap, disconnected);
    if st.consumed == h.reading.consumed {
      ClosedStays(log, h, st, h.read + BytesOf(poll));
    } else {
      ClosedAdvances(log, h, st, h.read + BytesOf(poll));
    }
  }

  lemma ReadInv(cfg: Config, side: Side, e: Endpoint, peer: Endpoint, s: u32, cap: nat, disconnected: bool)
    requires cfg.Valid() && Inv(cfg, side, e, peer) && CanRead(e, s)
    ensures Inv(cfg, side, DoRead(e, s, cap, disconnected), peer)
  {
    hide Inv, HandleOk, PollRead;
    HandleOf(cfg, side, e, peer, s);
    ReadHandleOk(e, s, cap, disconnected);
    SetHandleInv(cfg, side, e, peer, s, DoRead(e, s, cap, disconnected).handles[s]);
  }
}
