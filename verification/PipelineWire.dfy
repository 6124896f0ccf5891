/** The wire between the peers: batching, partial writes, arrival and dispatch keep the invariant. */
module PipelineWire {
  import opened Seqs
  import opened Frames
  import opened Codec
  import opened BatchedSender
  import opened Pipeline
  import opened PipelineInvariant

  // ---------------------------------------------------------------------------------------------
  // Sending
  // ---------------------------------------------------------------------------------------------

  lemma StreamsHaveOnePriority(sent: seq<PrioritizedFrame>, prio: map<u32, StreamPriority>, s: u32)
    requires forall x :: x in sent ==> FrameOk(x, prio)
    ensures OnePriority(OnStream(s), sent)
  {
    forall x, y | x in sent && y in sent && OnStream(s)(x) && OnStream(s)(y) ensures x.priority == y.priority {
      assert FrameOk(x, prio) && FrameOk(y, prio);
    }
  }

  /** One more batch: on every stream the emitted frames are still the accepted ones in sending order. */
  lemma BatchOn(c: TunnelCodec, sent: seq<PrioritizedFrame>, taken: nat, emitted: seq<PrioritizedFrame>, n: nat, s: u32)
    requires c.Valid() && taken + n <= |sent| && OnePriority(OnStream(s), sent)
    requires SentOn(emitted, s) == SentOn(Filter(Accepted(c), sent[..taken]), s)
    ensures var batch := sent[taken..taken + n];
            SentOn(emitted + EmitBatch(c, batch), s) == SentOn(Filter(Accepted(c), sent[..taken + n]), s)
  {
    var q, batch := OnStream(s), sent[taken..taken + n];
    assert sent[..taken + n] == sent[..taken] + batch;
    assert forall x :: x in batch ==> x in sent;
    EmitBatchStable(c, q, batch);
    hide Filter, EmitBatch;
    FilterAppend(q, emitted, EmitBatch(c, batch));
    FilterAppend(Accepted(c), sent[..taken], batch);
    FilterAppend(q, Filter(Accepted(c), sent[..taken]), Filter(Accepted(c), batch));
  }

  lemma BatchEmitOk(c: TunnelCodec, side: Side, e: Endpoint, n: nat)
    requires c.Valid() && CanBatch(c, e, n) && EmitOk(c, e.sent, e.taken, e.emitted)
    requires SentOk(side, e.sent, e.prio, e.handles)
    ensures var e' := DoBatch(c, e, n); EmitOk(c, e'.sent, e'.taken, e'.emitted)
  {
    hide SentOn, Script, FrameOk, WireBytes, EmitBatch, Encodable;
    var batch, e' := e.sent[e.taken..e.taken + n], DoBatch(c, e, n);
    forall s: u32 ensures SentOn(e'.emitted, s) == SentOn(Filter(Accepted(c), e'.sent[..e'.taken]), s) {
      StreamsHaveOnePriority(e.sent, e.prio, s);
      BatchOn(c, e.sent, e.taken, e.emitted, n, s);
    }
    EmittedEncodable(c, batch);
  }

  lemma EmittedEncodable(c: TunnelCodec, batch: seq<PrioritizedFrame>)
    requires c.Valid()
    ensures forall x :: x in EmitBatch(c, batch) ==> Encodable(c, x.frame)
  {
    FilterMembers(Accepted(c), DrainSort(batch));
  }

  lemma EmittedGrows(c: TunnelCodec, emitted: seq<PrioritizedFrame>, more: seq<PrioritizedFrame>)
    requires c.Valid()
    ensures FramesOf(emitted) <= FramesOf(emitted + more)
    ensures EncodeAll(c, FramesOf(emitted)) <= EncodeAll(c, FramesOf(emitted + more))
  {
    hide EncodeAll, FramesOf;
    FramesOfAppend(emitted, more);
    EncodeAllAppend(c, FramesOf(emitted), FramesOf(more));
  }

  lemma BatchInv(cfg: Config, side: Side, e: Endpoint, peer: Endpoint, n: nat)
    requires cfg.Valid() && Inv(cfg, side, e, peer) && CanBatch(cfg.At(side), e, n)
    ensures Inv(cfg, side, DoBatch(cfg.At(side), e, n), peer)
  {
    hide MuxOk, DeliveryOk, HandlesOk, SentOk, EmitOk, IdsOk, SeenOk, KnownOk, EncodeAll, FramesOf, EmitBatch;
    var c, e' := cfg.At(side), DoBatch(cfg.At(side), e, n);
    BatchEmitOk(c, side, e, n);
    EmittedGrows(c, e.emitted, EmitBatch(c, e.sent[e.taken..e.taken + n]));
  }

  lemma SocketWriteInv(cfg: Config, side: Side, e: Endpoint, peer: Endpoint, k: nat)
    requires cfg.Valid() && Inv(cfg, side, e, peer) && CanWrite(cfg.At(side), e, k)
    ensures Inv(cfg, side, DoSocketWrite(cfg.At(side), e, k), peer)
  {
    hide MuxOk, DeliveryOk, HandlesOk, SentOk, EmitOk, IdsOk, SeenOk, KnownOk, EncodeAll, FramesOf;
    var e' := DoSocketWrite(cfg.At(side), e, k);
    assert WireBytes(cfg.At(side), e') == WireBytes(cfg.At(side), e);
    assert e'.written[..peer.received] == e.written[..peer.received];
  }

  // ---------------------------------------------------------------------------------------------
  // Arriving
  // ---------------------------------------------------------------------------------------------

  lemma ReceiveInv(cfg: Config, side: Side, e: Endpoint, peer: Endpoint, k: nat)
    requires cfg.Valid() && Inv(cfg, side, e, peer) && CanReceive(e, peer, k)
    ensures Inv(cfg, side, DoReceive(e, peer, k), peer)
  {
    hide MuxOk, DeliveryOk, HandlesOk, SentOk, EmitOk, IdsOk, SeenOk, KnownOk, EncodeAll, FramesOf;
    var all, n := peer.written, e.received;
    assert all[..n + k] == all[..n] + all[n..n + k];
    var done := EncodeAll(cfg.At(Other(side)), e.processed);
    assert done + e.buffer + all[n..n + k] == done + (e.buffer + all[n..n + k]);
  }

  lemma CancelRight(x: seq<byte>, y: seq<byte>, b: seq<byte>)
    requires x + b == y + b
    ensures x == y
  {
    assert |x + b| == |x| + |b| && |y + b| == |y| + |b|;
    assert x == (x + b)[..|x|] && y == (y + b)[..|y|];
  }

  /** The decoder, holding a prefix of an encoded frame and what follows it, can only give that frame. */
  lemma DecodePrefix(sender: TunnelCodec, receiver: TunnelCodec, g: Frame, tail: seq<byte>, buffer: seq<byte>)
    requires sender.Valid() && receiver.Valid() && sender.bincode == receiver.bincode && Faithful(sender.bincode)
    requires Encodable(sender, g) && buffer <= Encode(sender, g).value + tail
    requires DecodeOne(receiver, buffer).Got?
    ensures DecodeOne(receiver, buffer).frame == g
    ensures buffer == Encode(sender, g).value + DecodeOne(receiver, buffer).rest
  {
    hide DecodeOne, Encode;
    var whole := Encode(sender, g).value + tail;
    var more := whole[|buffer|..];
    assert whole == buffer + more;
    DecodeOneExtend(receiver, buffer, more);
    DecodeEncoded(sender, receiver, g, tail);
    var rest := DecodeOne(receiver, buffer).rest;
    assert Encode(sender, g).value + (rest + more) == (Encode(sender, g).value + rest) + more;
    CancelRight(buffer, Encode(sender, g).value + rest, more);
  }

  lemma EncodeAllSplit(c: TunnelCodec, fs: seq<Frame>, n: nat)
    requires c.Valid() && n < |fs| && Encodable(c, fs[n])
    ensures EncodeAll(c, fs) == EncodeAll(c, fs[..n]) + (Encode(c, fs[n]).value + EncodeAll(c, fs[n + 1..]))
    ensures EncodeAll(c, fs[..n] + [fs[n]]) == EncodeAll(c, fs[..n]) + Encode(c, fs[n]).value
  {
    assert fs == fs[..n] + fs[n..] && fs[n..][0] == fs[n] && fs[n..][1..] == fs[n + 1..];
    EncodeAllHead(c, fs[n..]);
    EncodeAllOne(c, fs[n]);
    assert Wire(c, fs[n]) == Encode(c, fs[n]).value;
    hide EncodeAll, Encode, Wire;
    EncodeAllAppend(c, fs[..n], fs[n..]);
    EncodeAllAppend(c, fs[..n], [fs[n]]);
  }

  lemma {:induction false} FramesOfEncodable(c: TunnelCodec, xs: seq<PrioritizedFrame>)
    requires c.Valid() && forall x :: x in xs ==> Encodable(c, x.frame)
    ensures forall i :: 0 <= i < |xs| ==> Encodable(c, FramesOf(xs)[i])
  {
    hide Encodable;
    if xs == [] {
    } else {
      FramesOfEncodable(c, xs[..|xs| - 1]);
      assert xs[|xs| - 1] in xs;
    }
  }

  /** No frames are no bytes, and nothing is decoded from no bytes. */
  lemma NothingFromNothing(sender: TunnelCodec, receiver: TunnelCodec)
    requires sender.Valid()
    ensures EncodeAll(sender, []) == [] && DecodeOne(receiver, []).NeedMore?
  {
  }

  /** The next decoded frame is the next frame the peer emitted. */
  lemma NextFrame(sender: TunnelCodec, receiver: TunnelCodec, fs: seq<Frame>, processed: seq<Frame>, buffer: seq<byte>)
    requires sender.Valid() && receiver.Valid() && sender.bincode == receiver.bincode && Faithful(sender.bincode)
    requires forall i :: 0 <= i < |fs| ==> Encodable(sender, fs[i])
    requires processed <= fs && EncodeAll(sender, processed) + buffer <= EncodeAll(sender, fs)
    requires DecodeOne(receiver, buffer).Got?
    ensures var one := DecodeOne(receiver, buffer);
            && processed + [one.frame] <= fs
            && EncodeAll(sender, processed + [one.frame]) + one.rest == EncodeAll(sender, processed) + buffer
  {
    hide EncodeAll, DecodeOne, Encode;
    var n, done := |processed|, EncodeAll(sender, processed);
    assert processed == fs[..n] && fs == fs[..n] + fs[n..];
    EncodeAllAppend(sender, fs[..n], fs[n..]);
    PrefixTail(done, buffer, EncodeAll(sender, fs[n..]));
    NothingFromNothing(sender, receiver);
    assert fs[n..] != [];
    EncodeAllSplit(sender, fs, n);
    var g, tail := fs[n], EncodeAll(sender, fs[n + 1..]);
    var bytes := Encode(sender, g).value;
    PrefixTail(done, buffer, bytes + tail);
    DecodePrefix(sender, receiver, g, tail, buffer);
    var rest := DecodeOne(receiver, buffer).rest;
    assert done + bytes + rest == done + (bytes + rest);
  }

  lemma PrefixTail(a: seq<byte>, x: seq<byte>, y: seq<byte>)
    requires a + x <= a + y
    ensures x <= y
  {
    assert |x| <= |y|;
    forall i | 0 <= i < |x| ensures x[i] == y[i] {
      assert x[i] == (a + x)[|a| + i] && y[i] == (a + y)[|a| + i];
    }
  }

  /** What the frame loop has processed, plus the frame it now decodes, is still what the peer emitted. */
  lemma DecodeArrives(cfg: Config, side: Side, e: Endpoint, peer: Endpoint)
    requires cfg.Valid() && Inv(cfg, side, e, peer) && DecodeOne(cfg.At(side), e.buffer).Got?
    ensures var one, c' := DecodeOne(cfg.At(side), e.buffer), cfg.At(Other(side));
            ArriveOk(c', peer.emitted, peer.written, e.received, one.rest, e.processed + [one.frame])
  {
    hide MuxOk, DeliveryOk, HandlesOk, SentOk, IdsOk, SeenOk, KnownOk, EncodeAll, FramesOf, DecodeOne, SentOn, Encodable;
    var c' := cfg.At(Other(side));
    FramesOfEncodable(c', peer.emitted);
    assert peer.written[..e.received] <= peer.written <= WireBytes(c', peer);
    NextFrame(c', cfg.At(side), FramesOf(peer.emitted), e.processed, e.buffer);
  }
}
