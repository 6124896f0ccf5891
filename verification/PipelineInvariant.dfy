/** What every step of the two peers keeps. */
module PipelineInvariant {
  import opened Seqs
  import opened Frames
  import opened Codec
  import opened BatchedSender
  import opened Multiplexing
  import opened VirtualStreams
  import opened Pipeline

  function OnStream(s: u32): PrioritizedFrame -> bool {
    (x: PrioritizedFrame) => StreamOf(x.frame) == Some(s)
  }

  function FrameOn(s: u32): Frame -> bool {
    (f: Frame) => StreamOf(f) == Some(s)
  }

  /** The frames of stream `s` that were put in the wire channel. */
  function SentOn(sent: seq<PrioritizedFrame>, s: u32): seq<PrioritizedFrame> {
    Filter(OnStream(s), sent)
  }

  // ---------------------------------------------------------------------------------------------
  // The invariant
  // ---------------------------------------------------------------------------------------------

  ghost predicate MuxOk(m: Mux, registered: map<u32, nat>) {
    && Routed(m)
    && (forall s :: s in registered ==> registered[s] < |m.chans| && m.chans[registered[s]].owner == s)
    && m.streams.Keys <= registered.Keys
    && m.priorities.Keys <= registered.Keys
    && (m.last.Some? ==> m.last.value.0 in registered)
  }

  ghost predicate DeliveryOk(m: Mux, registered: map<u32, nat>, processed: seq<Frame>, faultless: bool) {
    forall s :: s in registered ==> Delivery(m, s, registered[s], Filter(ReaderFrames(s), processed), faultless)
  }

  ghost predicate IdsOk(side: Side, nextId: u32, registered: map<u32, nat>, opening: set<u32>,
                        handles: map<u32, Handle>, prio: map<u32, StreamPriority>) {
    && Own(side, nextId)
    && (forall s :: s in registered && Own(side, s) ==> s < nextId)
    && (forall s :: s in opening ==> s in registered && s in prio && Own(side, s) && s !in handles)
    && (forall s :: s in handles ==> s in registered && s in prio)
    && (forall s :: s in prio && Own(side, s) ==> s in registered)
  }

  ghost predicate HandleOk(s: u32, h: Handle, registered: map<u32, nat>, prio: map<u32, StreamPriority>, chans: seq<Chan>) {
    && s in registered && s in prio
    && h.rx == registered[s] && h.rx < |chans| && h.priority == prio[s]
    && (h.pending.Some? ==> ForReader(s, h.pending.value) && |Payload(h.pending.value)| <= MAX_DATA_FRAME_PAYLOAD)
    && ReadSoFar(chans[h.rx].log, h.reading, h.read)
    && ClosedOk(chans[h.rx].log, h)
  }

  /** At its first `CloseStream` a reader had read everything before it. */
  ghost predicate ClosedOk(log: seq<Frame>, h: Handle) {
    && h.reading.consumed <= |log|
    && var got := log[..h.reading.consumed];
    && (h.atClose.Some? <==> HasClose(got))
    && (h.atClose.Some? ==> h.atClose.value == DataBytes(UpToClose(got)))
  }

  ghost predicate HandlesOk(handles: map<u32, Handle>, registered: map<u32, nat>, prio: map<u32, StreamPriority>,
                            chans: seq<Chan>) {
    forall s :: s in handles ==> HandleOk(s, handles[s], registered, prio, chans)
  }

  /** `OpenStream` is at most the first frame a stream sends, and only its allocator sends it. */
  ghost predicate Script(own: bool, fs: seq<PrioritizedFrame>) {
    forall i :: 0 <= i < |fs| ==> fs[i].frame.OpenStream? ==> own && i == 0
  }

  ghost predicate FrameOk(x: PrioritizedFrame, prio: map<u32, StreamPriority>) {
    && (StreamOf(x.frame).Some? ==> StreamOf(x.frame).value in prio && x.priority == prio[StreamOf(x.frame).value])
    && |Payload(x.frame)| <= MAX_DATA_FRAME_PAYLOAD
  }

  ghost predicate SentOk(side: Side, sent: seq<PrioritizedFrame>, prio: map<u32, StreamPriority>, handles: map<u32, Handle>) {
    && (forall x :: x in sent ==> FrameOk(x, prio))
    && (forall s: u32 :: Script(Own(side, s), SentOn(sent, s)))
    && (forall s: u32 :: Own(side, s) && s !in handles ==> SentOn(sent, s) == [])
  }

  ghost predicate EmitOk(c: TunnelCodec, sent: seq<PrioritizedFrame>, taken: nat, emitted: seq<PrioritizedFrame>)
    requires c.Valid()
  {
    && taken <= |sent|
    && (forall s: u32 :: SentOn(emitted, s) == SentOn(Filter(Accepted(c), sent[..taken]), s))
    && (forall x :: x in emitted ==> Encodable(c, x.frame))
  }

  /** A stream the other side allocated is known here only after its `OpenStream` was processed. */
  ghost predicate SeenOk(side: Side, registered: map<u32, nat>, prio: map<u32, StreamPriority>, processed: seq<Frame>) {
    forall s: u32 :: !Own(side, s) && (s in registered || s in prio) ==> Filter(FrameOn(s), processed) != []
  }

  ghost predicate Good(c: TunnelCodec, side: Side, e: Endpoint)
    requires c.Valid()
  {
    && MuxOk(e.mux, e.registered)
    && DeliveryOk(e.mux, e.registered, e.processed, e.faultless)
    && IdsOk(side, e.mux.nextId, e.registered, e.opening, e.handles, e.prio)
    && HandlesOk(e.handles, e.registered, e.prio, e.mux.chans)
    && SentOk(side, e.sent, e.prio, e.handles)
    && EmitOk(c, e.sent, e.taken, e.emitted)
    && e.written <= WireBytes(c, e)
    && SeenOk(side, e.registered, e.prio, e.processed)
  }

  /** What `q` received of `p`'s bytes: the frames it processed, then its buffer. */
  ghost predicate ArriveOk(c: TunnelCodec, emitted: seq<PrioritizedFrame>, written: seq<byte>,
                           received: nat, buffer: seq<byte>, processed: seq<Frame>)
    requires c.Valid()
  {
    && received <= |written|
    && processed <= FramesOf(emitted)
    && written[..received] == EncodeAll(c, processed) + buffer
  }

  /** A stream `p` did not allocate, but sends on, is registered at its allocator. */
  ghost predicate KnownOk(side: Side, prio: map<u32, StreamPriority>, registered: map<u32, nat>) {
    forall s: u32 :: s in prio && !Own(side, s) ==> s in registered
  }

  ghost predicate Linked(c: TunnelCodec, side: Side, p: Endpoint, q: Endpoint)
    requires c.Valid()
  {
    ArriveOk(c, p.emitted, p.written, q.received, q.buffer, q.processed) && KnownOk(side, p.prio, q.registered)
  }

  /** The invariant, seen from one side. */
  ghost predicate Inv(cfg: Config, side: Side, e: Endpoint, peer: Endpoint)
    requires cfg.Valid()
  {
    && Good(cfg.At(side), side, e)
    && Good(cfg.At(Other(side)), Other(side), peer)
    && Linked(cfg.At(side), side, e, peer)
    && Linked(cfg.At(Other(side)), Other(side), peer, e)
  }

  lemma InvStart(cfg: Config)
    requires cfg.Valid()
    ensures Inv(cfg, Client, START.client, START.server)
  {
    assert EncodeAll(cfg.client, []) == [] && EncodeAll(cfg.server, []) == [];
  }

  lemma InvSwap(cfg: Config, side: Side, e: Endpoint, peer: Endpoint)
    requires cfg.Valid() && Inv(cfg, side, e, peer)
    ensures Inv(cfg, Other(side), peer, e)
  {
    assert Other(Other(side)) == side;
  }
}
