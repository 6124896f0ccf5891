/** What holds of every run of the two peers: delivery, completeness at close, and stream ids. */
module PipelineTheorems {
  import opened Seqs
  import opened Frames
  import opened Codec
  import opened BatchedSender
  import opened Multiplexing
  import opened VirtualStreams
  import opened Pipeline
  import opened PipelineInvariant
  import opened PipelineSteps
  import opened PipelineWire
  import opened PipelineDispatch

  // ---------------------------------------------------------------------------------------------
  // The invariant holds along every run
  // ---------------------------------------------------------------------------------------------

  lemma DispatchInv(cfg: Config, side: Side, e: Endpoint, peer: Endpoint, env: Env)
    requires cfg.Valid() && Inv(cfg, side, e, peer) && DecodeOne(cfg.At(side), e.buffer).Got?
    ensures var one := DecodeOne(cfg.At(side), e.buffer); Inv(cfg, side, DoDispatch(e, one.frame, one.rest, env), peer)
  {
    hide Inv, DecodeOne, ArriveOk, DoDispatch;
    DecodeArrives(cfg, side, e, peer);
    var one := DecodeOne(cfg.At(side), e.buffer);
    if one.frame.OpenStream? {
      DispatchOpenInv(cfg, side, e, peer, one.frame, one.rest, env);
    } else {
      DispatchOtherInv(cfg, side, e, peer, one.frame, one.rest, env);
    }
  }

  lemma DenyOpenInv(cfg: Config, side: Side, e: Endpoint, peer: Endpoint, closeSent: bool)
    requires cfg.Valid() && Inv(cfg, side, e, peer)
    requires DecodeOne(cfg.At(side), e.buffer).Got? && DecodeOne(cfg.At(side), e.buffer).frame.OpenStream?
    ensures var one := DecodeOne(cfg.At(side), e.buffer);
            Inv(cfg, side, DoDeny(e, one.frame.openId, one.frame, one.rest, closeSent), peer)
  {
    hide Inv, DecodeOne, ArriveOk, DoDeny;
    DecodeArrives(cfg, side, e, peer);
    var one := DecodeOne(cfg.At(side), e.buffer);
    DenyInv(cfg, side, e, peer, one.frame, one.rest, closeSent);
  }

  lemma ApplyInv(cfg: Config, side: Side, e: Endpoint, peer: Endpoint, a: Action)
    requires cfg.Valid() && Inv(cfg, side, e, peer) && Enabled(cfg.At(side), e, peer, a)
    ensures Inv(cfg, side, Apply(cfg.At(side), e, peer, a), peer)
  {
    hide Inv, DecodeOne, DoAllocate, DoOpenSent, DoOpenFailed, DoStart, DoSendDone, DoSendAborted, DoBatch, DoSocketWrite,
         DoReceive, DoDispatch, DoDeny, DoRead, DoDrop, CanBatch, CanWrite;
    match a
    case AllocateStream(p) => AllocateInv(cfg, side, e, peer, p);
    case OpenSent(s, protocol) => OpenSentInv(cfg, side, e, peer, s, protocol);
    case OpenFailed(s) => OpenFailedInv(cfg, side, e, peer, s);
    case StartWrite(s, buf) => StartInv(cfg, side, e, peer, s, WriteFrame(s, buf));
    case StartShutdown(s) => StartInv(cfg, side, e, peer, s, ShutdownFrame(s));
    case SendDone(s) => SendDoneInv(cfg, side, e, peer, s);
    case SendAborted(s) => SendAbortedInv(cfg, side, e, peer, s);
    case SendControl(p, f) => SendControlInv(cfg, side, e, peer, p, f);
    case SendBatch(n) => BatchInv(cfg, side, e, peer, n);
    case SocketWrite(k) => SocketWriteInv(cfg, side, e, peer, k);
    case Receive(k) => ReceiveInv(cfg, side, e, peer, k);
    case Dispatch(env) => DispatchInv(cfg, side, e, peer, env);
    case DenyOpen(closeSent) => DenyOpenInv(cfg, side, e, peer, closeSent);
    case Read(s, cap, disconnected) => ReadInv(cfg, side, e, peer, s, cap, disconnected);
    case DropStream(s) => DropInv(cfg, side, e, peer, s);
  }

  lemma {:induction false} RunKeepsInv(cfg: Config, run: seq<(Side, Action)>)
    requires cfg.Valid() && Execute(cfg, run).Some?
    ensures var net := Execute(cfg, run).value; Inv(cfg, Client, net.client, net.server)
  {
    hide Inv, Enabled, Apply;
    if run == [] {
      InvStart(cfg);
    } else {
      RunKeepsInv(cfg, run[..|run| - 1]);
      var net, side, a := Execute(cfg, run[..|run| - 1]).value, run[|run| - 1].0, run[|run| - 1].1;
      if side.Server? {
        InvSwap(cfg, Client, net.client, net.server);
      }
      ApplyInv(cfg, side, net.At(side), net.At(Other(side)), a);
      if side.Server? {
        InvSwap(cfg, Server, Execute(cfg, run).value.server, net.client);
      }
    }
  }

  /** The invariant of a reachable state, seen from the side that reads. */
  lemma ReachableInv(cfg: Config, run: seq<(Side, Action)>, side: Side)
    requires cfg.Valid() && Execute(cfg, run).Some?
    ensures var net := Execute(cfg, run).value; Inv(cfg, side, net.At(side), net.At(Other(side)))
  {
    hide Inv;
    RunKeepsInv(cfg, run);
    var net := Execute(cfg, run).value;
    InvSwap(cfg, Client, net.client, net.server);
  }

  // ---------------------------------------------------------------------------------------------
  // Bytes through filters and prefixes
  // ---------------------------------------------------------------------------------------------

  ghost predicate KeepsData(q: Frame -> bool, fs: seq<Frame>) {
    forall f :: f in fs && f.Data? ==> q(f)
  }

  lemma {:induction false} FilterKeepsBytes(q: Frame -> bool, fs: seq<Frame>)
    requires KeepsData(q, fs)
    ensures DataBytes(Filter(q, fs)) == DataBytes(fs)
  {
    hide DataBytes;
    if fs == [] {
    } else {
      var front, last := fs[..|fs| - 1], fs[|fs| - 1];
      assert fs == front + [last];
      FilterKeepsBytes(q, front);
      FilterPush(q, front, last);
      DataBytesPush(front, last);
      DataBytesPush(Filter(q, front), last);
      assert DataBytes(front) + [] == DataBytes(front);
    }
  }

  lemma {:induction false} FramesOfAccepted(c: TunnelCodec, xs: seq<PrioritizedFrame>)
    requires c.Valid()
    ensures FramesOf(Filter(Accepted(c), xs)) == Filter((f: Frame) => Encodable(c, f), FramesOf(xs))
  {
    hide Encodable;
    if xs == [] {
    } else {
      var front, last := xs[..|xs| - 1], xs[|xs| - 1];
      FramesOfAccepted(c, front);
      assert xs == front + [last];
      FramesOfPush(front, last);
      FilterPush(Accepted(c), front, last);
      FilterPush((f: Frame) => Encodable(c, f), FramesOf(front), last.frame);
      FramesOfPush(Filter(Accepted(c), front), last);
    }
  }

  /** The reader's frames of a stream are among the frames on it. */
  lemma {:induction false} ReaderOfStream(processed: seq<Frame>, s: u32)
    ensures Filter(ReaderFrames(s), processed) == Filter(ReaderFrames(s), Filter(FrameOn(s), processed))
  {
    if processed == [] {
    } else {
      var front, last := processed[..|processed| - 1], processed[|processed| - 1];
      assert processed == front + [last];
      ReaderOfStream(front, s);
      FilterPush(ReaderFrames(s), front, last);
      FilterPush(FrameOn(s), front, last);
      FilterPush(ReaderFrames(s), Filter(FrameOn(s), front), last);
    }
  }

  lemma FramesOfPrefix(a: seq<PrioritizedFrame>, b: seq<PrioritizedFrame>)
    requires a <= b
    ensures FramesOf(a) <= FramesOf(b)
  {
    assert b == a + b[|a|..];
    FramesOfAppend(a, b[|a|..]);
  }

  /** An encoder with room for a whole chunk accepts every data frame a virtual stream can have sent. */
  lemma DataAccepted(c: TunnelCodec, sent: seq<PrioritizedFrame>, prio: map<u32, StreamPriority>, xs: seq<PrioritizedFrame>)
    requires c.Valid() && MAX_DATA_FRAME_PAYLOAD + 6 <= c.maxFrameSize
    requires forall x :: x in sent ==> FrameOk(x, prio)
    requires forall x :: x in xs ==> x in sent
    ensures KeepsData((f: Frame) => Encodable(c, f), FramesOf(xs))
  {
    forall f | f in FramesOf(xs) && f.Data? ensures Encodable(c, f) {
      var i :| 0 <= i < |FramesOf(xs)| && FramesOf(xs)[i] == f;
      FramesOfAt(xs, i);
      assert xs[i] in xs;
      assert FrameOk(xs[i], prio);
      assert Payload(f) == f.data;
    }
  }

  // ---------------------------------------------------------------------------------------------
  // From the sender's channel to the reader's channel
  // ---------------------------------------------------------------------------------------------

  /** The frames of stream `s` that entered the wire channel, and the bytes they carry. */
  function FramesPut(e: Endpoint, s: u32): seq<Frame> {
    FramesOf(SentOn(e.sent, s))
  }

  function BytesPut(e: Endpoint, s: u32): seq<byte> {
    DataBytes(FramesPut(e, s))
  }

  /** Those the writer's encoder accepts; it skips the others. */
  function FramesAccepted(c: TunnelCodec, e: Endpoint, s: u32): seq<Frame>
    requires c.Valid()
  {
    Filter((f: Frame) => Encodable(c, f), FramesPut(e, s))
  }

  function BytesAccepted(c: TunnelCodec, e: Endpoint, s: u32): seq<byte>
    requires c.Valid()
  {
    DataBytes(FramesAccepted(c, e, s))
  }

  /** `part` is what an in-order, data-complete channel has passed on of `whole` so far. */
  ghost predicate Conveys(whole: seq<Frame>, part: seq<Frame>) {
    && DataBytes(part) <= DataBytes(whole)
    && (NoDataAfterClose(whole) ==> NoDataAfterClose(part) && (HasClose(part) ==> DataBytes(part) == DataBytes(whole)))
  }

  lemma {:induction false} CloseAt(fs: seq<Frame>)
    requires HasClose(fs)
    ensures exists i :: 0 <= i < |fs| && fs[i].CloseStream?
  {
    if !fs[|fs| - 1].CloseStream? {
      CloseAt(fs[..|fs| - 1]);
      var i :| 0 <= i < |fs| - 1 && fs[..|fs| - 1][i].CloseStream?;
      assert fs[i].CloseStream?;
    }
  }

  lemma {:induction false} NoDataAfterCloseTail(a: seq<Frame>, b: seq<Frame>)
    requires NoDataAfterClose(a + b)
    ensures NoDataAfterClose(a)
    ensures HasClose(a) ==> DataBytes(b) == []
  {
    if b == [] {
      assert a + b == a;
    } else {
      var front, last := b[..|b| - 1], b[|b| - 1];
      assert a + b == (a + front) + [last] && b == front + [last];
      NoDataAfterClosePush(a + front, last);
      NoDataAfterCloseTail(a, front);
      DataBytesPush(front, last);
      if HasClose(a) {
        HasClosePrefix(a, a + front);
      }
    }
  }

  lemma ConveysPrefix(whole: seq<Frame>, part: seq<Frame>)
    requires part <= whole
    ensures Conveys(whole, part)
  {
    hide DataBytes;
    DataBytesPrefix(part, whole);
    var tail := whole[|part|..];
    assert whole == part + tail;
    FlattenedBytes(part, tail);
    if NoDataAfterClose(whole) {
      NoDataAfterCloseTail(part, tail);
    }
  }

  lemma FlattenedBytes(a: seq<Frame>, b: seq<Frame>)
    ensures DataBytes(a + b) == DataBytes(a) + DataBytes(b)
  {
    FlatMapAppend(Payload, a, b);
  }

  lemma {:induction false} NoDataAfterCloseFilter(q: Frame -> bool, fs: seq<Frame>)
    requires NoDataAfterClose(fs)
    ensures NoDataAfterClose(Filter(q, fs)) && (HasClose(Filter(q, fs)) ==> HasClose(fs))
  {
    if fs == [] {
    } else {
      var front, last := fs[..|fs| - 1], fs[|fs| - 1];
      assert fs == front + [last];
      NoDataAfterClosePush(front, last);
      NoDataAfterCloseFilter(q, front);
      FilterPush(q, front, last);
      var kept := Filter(q, front);
      UpToClosePush(kept, last);
      UpToClosePush(front, last);
      NoDataAfterClosePush(kept, last);
    }
  }

  lemma {:induction false} HasCloseAt(fs: seq<Frame>, i: nat)
    ensures i < |fs| && fs[i].CloseStream? ==> HasClose(fs)
  {
    if i + 1 < |fs| {
      HasCloseAt(fs[..|fs| - 1], i);
    }
  }

  lemma ConveysFilter(q: Frame -> bool, whole: seq<Frame>)
    requires KeepsData(q, whole)
    ensures Conveys(whole, Filter(q, whole))
  {
    FilterKeepsBytes(q, whole);
    if NoDataAfterClose(whole) {
      NoDataAfterCloseFilter(q, whole);
    }
  }

  lemma ConveysTrans(a: seq<Frame>, b: seq<Frame>, c: seq<Frame>)
    requires Conveys(a, b) && Conveys(b, c) && (HasClose(c) && NoDataAfterClose(a) ==> HasClose(b))
    ensures Conveys(a, c)
  {
    hide DataBytes, HasClose, NoDataAfterClose;
  }

  lemma {:induction false} HasCloseFilter(q: Frame -> bool, fs: seq<Frame>)
    ensures HasClose(Filter(q, fs)) ==> HasClose(fs)
  {
    if fs == [] {
    } else {
      var front, last := fs[..|fs| - 1], fs[|fs| - 1];
      HasCloseFilter(q, front);
      assert fs == front + [last];
      FilterPush(q, front, last);
      UpToClosePush(Filter(q, front), last);
      UpToClosePush(front, last);
    }
  }

  lemma HasClosePrefix(a: seq<Frame>, b: seq<Frame>)
    requires a <= b && HasClose(a)
    ensures HasClose(b)
  {
    CloseAt(a);
    var i :| 0 <= i < |a| && a[i].CloseStream?;
    HasCloseAt(b, i);
  }

  /** What was dispatched for a stream is a faithful, in-order part of what its peer put in the channel and could encode. */
  lemma DispatchedConveys(cfg: Config, side: Side, e: Endpoint, peer: Endpoint, s: u32)
    requires cfg.Valid() && Inv(cfg, side, e, peer)
    ensures Conveys(FramesAccepted(cfg.At(Other(side)), peer, s), Filter(ReaderFrames(s), e.processed))
  {
    hide MuxOk, DeliveryOk, HandlesOk, IdsOk, SeenOk, KnownOk, Filter, FramesOf, Conveys, Script, FrameOk, EmitOk;
    var c' := cfg.At(Other(side));
    EmitBound(c', peer);
    // Taken and encoded: a prefix of what was accepted on the stream.
    var prefix := SentOn(peer.sent[..peer.taken], s);
    var whole, coded := FramesAccepted(c', peer, s), FramesOf(TakenOn(c', peer, s));
    TakenIsSent(c', peer, s);
    FramesOfPrefix(prefix, SentOn(peer.sent, s));
    FramesOfAccepted(c', prefix);
    FilterPrefix((f: Frame) => Encodable(c', f), FramesOf(prefix), FramesPut(peer, s));
    // Processed: a prefix of that.
    var here := Filter(FrameOn(s), e.processed);
    ArrivedOn(c', peer, e.processed, s);
    ConveysPrefix(whole, here);
    if HasClose(here) { HasClosePrefix(here, coded); }
    // Dispatched to the reader: all of that but the `OpenStream`.
    FilterMembers(FrameOn(s), e.processed);
    ConveysFilter(ReaderFrames(s), here);
    HasCloseFilter(ReaderFrames(s), here);
    ReaderOfStream(e.processed, s);
    ConveysTrans(whole, here, Filter(ReaderFrames(s), e.processed));
  }

  /** With room for a whole chunk in the writer's frames, no byte is skipped. */
  lemma AcceptedIsPut(cfg: Config, side: Side, e: Endpoint, peer: Endpoint, s: u32)
    requires cfg.Valid() && Inv(cfg, side, e, peer)
    requires MAX_DATA_FRAME_PAYLOAD + 6 <= cfg.At(Other(side)).maxFrameSize
    ensures BytesAccepted(cfg.At(Other(side)), peer, s) == BytesPut(peer, s)
  {
    hide MuxOk, DeliveryOk, HandlesOk, IdsOk, SeenOk, KnownOk, Filter, FramesOf, Script, FrameOk, EmitOk, DataBytes;
    var c' := cfg.At(Other(side));
    FilterMembers(OnStream(s), peer.sent);
    DataAccepted(c', peer.sent, peer.prio, SentOn(peer.sent, s));
    FilterKeepsBytes((f: Frame) => Encodable(c', f), FramesPut(peer, s));
  }

  // ---------------------------------------------------------------------------------------------
  // The theorems
  // ---------------------------------------------------------------------------------------------

  lemma {:induction false} UpToCloseOfPrefix(a: seq<Frame>, b: seq<Frame>)
    requires a <= b
    ensures HasClose(a) ==> UpToClose(a) == UpToClose(b)
    ensures !HasClose(a) ==> a <= UpToClose(b)
    decreases |b|
  {
    if |a| < |b| {
      var front, last := b[..|b| - 1], b[|b| - 1];
      UpToCloseOfPrefix(a, front);
      assert b == front + [last];
      UpToClosePush(front, last);
      if HasClose(a) {
        HasClosePrefix(a, front);
      }
    } else {
      assert a == b;
    }
  }

  lemma {:induction false} UpToCloseHasClose(d: seq<Frame>)
    ensures HasClose(UpToClose(d)) <==> HasClose(d)
    ensures HasClose(d) ==> UpToClose(d) != [] && !HasClose(UpToClose(d)[..|UpToClose(d)| - 1])
  {
    if d == [] {
    } else {
      UpToCloseHasClose(d[..|d| - 1]);
    }
  }

  /** Nothing properly inside `UpToClose(d)` has a close. */
  lemma CloseEndsIt(a: seq<Frame>, d: seq<Frame>)
    requires a <= UpToClose(d) && HasClose(a)
    ensures a == UpToClose(d) && HasClose(d)
  {
    HasClosePrefix(a, UpToClose(d));
    UpToCloseHasClose(d);
    var u := UpToClose(d);
    if |a| < |u| {
      HasClosePrefix(a, u[..|u| - 1]);
    }
  }

  lemma ReaderState(cfg: Config, side: Side, e: Endpoint, peer: Endpoint, s: u32)
    requires cfg.Valid() && Inv(cfg, side, e, peer) && s in e.handles
    ensures s in e.registered && e.registered[s] < |e.mux.chans|
    ensures HandleOk(s, e.handles[s], e.registered, e.prio, e.mux.chans)
    ensures var c := e.mux.chans[e.registered[s]];
            Holds(c.log, Filter(ReaderFrames(s), e.processed), c.alive, e.faultless)
  {
    hide SentOk, EmitOk, ArriveOk, SeenOk, KnownOk, HandleOk, Holds, Routed;
  }

  lemma PrefixOfBytes(log: seq<Frame>, h: Handle)
    requires ReadSoFar(log, h.reading, h.read)
    ensures h.read <= DataBytes(log[..h.reading.consumed])
  {
  }

  /** Up to a reader's first close: an in-order prefix, and everything once the close is there. */
  lemma ReadUpToClose(log: seq<Frame>, h: Handle, d: seq<Frame>, alive: bool, faultless: bool)
    requires ReadSoFar(log, h.reading, h.read) && ClosedOk(log, h) && Holds(log, d, alive, faultless)
    ensures h.atClose.None? ==> h.read <= DataBytes(UpToClose(d))
    ensures h.atClose.Some? ==> HasClose(d) && h.atClose.value == DataBytes(UpToClose(d))
  {
    hide DataBytes;
    var got := log[..h.reading.consumed];
    UpToCloseOfPrefix(got, log);
    if h.atClose.None? {
      PrefixOfBytes(log, h);
      DataBytesPrefix(got, UpToClose(d));
    } else {
      UpToCloseHasClose(got);
      CloseEndsIt(UpToClose(log), d);
    }
  }

  /**
   In every run, with any interleaving of streams, batch boundaries, partial socket writes, chunking of the
   wire and reader buffer sizes, with any frame limits and lock failures and even with writes after a shutdown:
   what a stream's reader has read up to its first `CloseStream` is a prefix of what its peer put in the wire
   channel for that stream and could encode. If no lock failed, or no write follows the shutdown, that holds of
   everything it ever reads. What the peer could encode is all it put there if its frames hold a whole chunk.
   */
  lemma BytesReadArePrefix(cfg: Config, run: seq<(Side, Action)>, side: Side, s: u32)
    requires cfg.Valid() && Execute(cfg, run).Some?
    requires s in Execute(cfg, run).value.At(side).handles
    ensures var net, c := Execute(cfg, run).value, cfg.At(Other(side));
            var h, peer := net.At(side).handles[s], net.At(Other(side));
            && (if h.atClose.Some? then h.atClose.value else h.read) <= BytesAccepted(c, peer, s)
            && (net.At(side).faultless || NoDataAfterClose(FramesAccepted(c, peer, s)) ==> h.read <= BytesAccepted(c, peer, s))
            && (MAX_DATA_FRAME_PAYLOAD + 6 <= c.maxFrameSize ==> BytesAccepted(c, peer, s) == BytesPut(peer, s))
  {
    hide Inv, Execute, DataBytes, Filter, FramesAccepted, FramesPut, NoDataAfterClose, HasClose, UpToClose;
    var net := Execute(cfg, run).value;
    var e, peer := net.At(side), net.At(Other(side));
    ReachableInv(cfg, run, side);
    ReaderState(cfg, side, e, peer, s);
    DispatchedConveys(cfg, side, e, peer, s);
    var h, c, d := e.handles[s], e.mux.chans[e.registered[s]], Filter(ReaderFrames(s), e.processed);
    ReadUpToClose(c.log, h, d, c.alive, e.faultless);
    DataBytesPrefix(UpToClose(d), d);
    PrefixOfBytes(c.log, h);
    DataBytesPrefix(c.log[..h.reading.consumed], c.log);
    if e.faultless {
      DataBytesPrefix(c.log, d);
    } else if NoDataAfterClose(FramesAccepted(cfg.At(Other(side)), peer, s)) {
      ConveysPrefix(c.log, UpToClose(c.log));
      UpToCloseHasClose(c.log);
      UpToCloseAll(c.log);
      DataBytesPrefix(UpToClose(c.log), UpToClose(d));
    }
    if MAX_DATA_FRAME_PAYLOAD + 6 <= cfg.At(Other(side)).maxFrameSize {
      AcceptedIsPut(cfg, side, e, peer, s);
    }
  }

  lemma UpToCloseAll(d: seq<Frame>)
    ensures !HasClose(d) ==> UpToClose(d) == d
  {
  }

  /**
   If no write follows a shutdown on a stream, then in every run a reader that consumes its `CloseStream` has
   by then read exactly the bytes its peer put in the wire channel for that stream and could encode, first to
   last; that is all of them if the peer's frames hold a whole chunk.
   */
  lemma CloseMeansComplete(cfg: Config, run: seq<(Side, Action)>, side: Side, s: u32)
    requires cfg.Valid() && Execute(cfg, run).Some?
    requires var net := Execute(cfg, run).value;
             && s in net.At(side).handles && net.At(side).handles[s].atClose.Some?
             && NoDataAfterClose(FramesAccepted(cfg.At(Other(side)), net.At(Other(side)), s))
    ensures var net, c := Execute(cfg, run).value, cfg.At(Other(side));
            var read, peer := net.At(side).handles[s].atClose.value, net.At(Other(side));
            && read == BytesAccepted(c, peer, s)
            && (MAX_DATA_FRAME_PAYLOAD + 6 <= c.maxFrameSize ==> read == BytesPut(peer, s))
  {
    hide Inv, Execute, DataBytes, Filter, FramesAccepted, FramesPut, NoDataAfterClose, HasClose, UpToClose;
    var net := Execute(cfg, run).value;
    var e, peer := net.At(side), net.At(Other(side));
    ReachableInv(cfg, run, side);
    ReaderState(cfg, side, e, peer, s);
    DispatchedConveys(cfg, side, e, peer, s);
    var h, c, d := e.handles[s], e.mux.chans[e.registered[s]], Filter(ReaderFrames(s), e.processed);
    ReadUpToClose(c.log, h, d, c.alive, e.faultless);
    UpToCloseHasClose(d);
    ConveysPrefix(d, UpToClose(d));
    if MAX_DATA_FRAME_PAYLOAD + 6 <= cfg.At(Other(side)).maxFrameSize {
      AcceptedIsPut(cfg, side, e, peer, s);
    }
  }

  // ---------------------------------------------------------------------------------------------
  // Nothing is lost on an open stream
  // ---------------------------------------------------------------------------------------------

  /** Everything `peer` sent has been taken, written, received and decoded by `e`. */
  ghost predicate Settled(c: TunnelCodec, e: Endpoint, peer: Endpoint)
    requires c.Valid()
  {
    && peer.taken == |peer.sent| && peer.written == WireBytes(c, peer)
    && e.received == |peer.written| && e.buffer == []
  }

  lemma NothingEncoded(c: TunnelCodec, fs: seq<Frame>)
    requires c.Valid() && EncodeAll(c, fs) == [] && (fs != [] ==> Encodable(c, fs[0]))
    ensures fs == []
  {
    if fs != [] {
      EncodeAllHead(c, fs);
      EncodeShape(c, fs[0]);
    }
  }

  /** If no byte is left, no frame is. */
  lemma AllProcessed(c: TunnelCodec, emitted: seq<PrioritizedFrame>, processed: seq<Frame>)
    requires c.Valid() && (forall x :: x in emitted ==> Encodable(c, x.frame)) && processed <= FramesOf(emitted)
    requires EncodeAll(c, processed) == EncodeAll(c, FramesOf(emitted))
    ensures processed == FramesOf(emitted)
  {
    hide EncodeAll, Encodable;
    var fs, n := FramesOf(emitted), |processed|;
    FramesOfEncodable(c, emitted);
    assert fs == processed + fs[n..];
    EncodeAllAppend(c, processed, fs[n..]);
    assert |EncodeAll(c, fs[n..])| == 0;
    NothingEncoded(c, fs[n..]);
  }

  lemma SettledProcessed(cfg: Config, side: Side, e: Endpoint, peer: Endpoint)
    requires cfg.Valid() && Inv(cfg, side, e, peer) && Settled(cfg.At(Other(side)), e, peer)
    ensures e.processed == FramesOf(peer.emitted)
  {
    hide MuxOk, DeliveryOk, HandlesOk, IdsOk, SeenOk, KnownOk, SentOk, FramesOf, EncodeAll;
    var c := cfg.At(Other(side));
    assert peer.written[..|peer.written|] == peer.written;
    assert EncodeAll(c, e.processed) + [] == EncodeAll(c, e.processed);
    AllProcessed(c, peer.emitted, e.processed);
  }

  lemma AllTakenOn(c: TunnelCodec, peer: Endpoint, s: u32)
    requires c.Valid() && EmitOk(c, peer.sent, peer.taken, peer.emitted) && peer.taken == |peer.sent|
    ensures Filter(FrameOn(s), FramesOf(peer.emitted)) == FramesAccepted(c, peer, s)
  {
    assert peer.sent[..peer.taken] == peer.sent;
    hide Filter, FramesOf, Encodable;
    FramesOfFilter(peer.emitted, s);
    TakenIsSent(c, peer, s);
    FramesOfAccepted(c, SentOn(peer.sent, s));
  }

  /** The reader gets all the data of its stream, and a close only if one was put there. */
  lemma ReaderGetsAll(c: TunnelCodec, processed: seq<Frame>, s: u32, put: seq<Frame>)
    requires c.Valid() && Filter(FrameOn(s), processed) == Filter((f: Frame) => Encodable(c, f), put)
    ensures var d := Filter(ReaderFrames(s), processed);
            && DataBytes(d) == DataBytes(Filter(FrameOn(s), processed))
            && (HasClose(d) ==> HasClose(put))
  {
    hide Filter, DataBytes, HasClose, Encodable;
    var here := Filter(FrameOn(s), processed);
    ReaderOfStream(processed, s);
    FilterMembers(FrameOn(s), processed);
    FilterKeepsBytes(ReaderFrames(s), here);
    HasCloseFilter(ReaderFrames(s), here);
    HasCloseFilter((f: Frame) => Encodable(c, f), put);
  }

  /** Then everything accepted on a stream was dispatched for it. */
  lemma SettledDispatched(cfg: Config, side: Side, e: Endpoint, peer: Endpoint, s: u32)
    requires cfg.Valid() && Inv(cfg, side, e, peer) && Settled(cfg.At(Other(side)), e, peer)
    ensures var c, d := cfg.At(Other(side)), Filter(ReaderFrames(s), e.processed);
            && DataBytes(d) == BytesAccepted(c, peer, s)
            && (HasClose(d) ==> HasClose(FramesPut(peer, s)))
  {
    SettledProcessed(cfg, side, e, peer);
    hide MuxOk, DeliveryOk, HandlesOk, IdsOk, SeenOk, KnownOk, SentOk, EmitOk, ArriveOk, Filter, FramesOf, EncodeAll, DataBytes, HasClose;
    AllTakenOn(cfg.At(Other(side)), peer, s);
    ReaderGetsAll(cfg.At(Other(side)), e.processed, s, FramesPut(peer, s));
  }

  /**
   In every run, on a stream nobody has closed: once everything its writer put in the wire channel is taken, written,
   received and decoded, whatever the locks answered, a living reader that has emptied its channel has read exactly
   the bytes that could be encoded. Nothing is lost on the way.
   */
  lemma OpenStreamLosesNothing(cfg: Config, run: seq<(Side, Action)>, side: Side, s: u32)
    requires cfg.Valid() && Execute(cfg, run).Some?
    requires var net := Execute(cfg, run).value;
             var e, peer := net.At(side), net.At(Other(side));
             && Settled(cfg.At(Other(side)), e, peer) && !HasClose(FramesPut(peer, s))
             && s in e.handles && e.handles[s].rx < |e.mux.chans|
             && var h, chan := e.handles[s], e.mux.chans[e.handles[s].rx];
             && chan.alive && h.reading == ReadState(|chan.log|, [])
    ensures var net, c := Execute(cfg, run).value, cfg.At(Other(side));
            var read, peer := net.At(side).handles[s].read, net.At(Other(side));
            && read == BytesAccepted(c, peer, s)
            && (MAX_DATA_FRAME_PAYLOAD + 6 <= c.maxFrameSize ==> read == BytesPut(peer, s))
  {
    hide Inv, Execute, DataBytes, Filter, FramesAccepted, FramesPut, HasClose, Settled;
    var net := Execute(cfg, run).value;
    var e, peer := net.At(side), net.At(Other(side));
    ReachableInv(cfg, run, side);
    ReaderState(cfg, side, e, peer, s);
    SettledDispatched(cfg, side, e, peer, s);
    var h, log := e.handles[s], e.mux.chans[e.registered[s]].log;
    assert log[..|log|] == log && h.read + [] == h.read;
    if MAX_DATA_FRAME_PAYLOAD + 6 <= cfg.At(Other(side)).maxFrameSize {
      AcceptedIsPut(cfg, side, e, peer, s);
    }
  }

  // ---------------------------------------------------------------------------------------------
  // Stream ids
  // ---------------------------------------------------------------------------------------------

  lemma ProcessKeepsId(m: Mux, f: Frame, env: Env)
    ensures ProcessFrame(m, f, env).nextId == m.nextId
  {
  }

  /** Only an allocation moves the id counter. */
  lemma NextIdKept(c: TunnelCodec, e: Endpoint, peer: Endpoint, a: Action)
    requires c.Valid() && Enabled(c, e, peer, a) && !a.AllocateStream?
    ensures Apply(c, e, peer, a).mux.nextId == e.mux.nextId
  {
    hide DecodeOne, EncodeAll, PollRead, EmitBatch, ProcessFrame, CanBatch, CanWrite, CanReceive, CanRead, CanOpen, Live;
    if a.Dispatch? {
      ProcessKeepsId(e.mux, DecodeOne(c, e.buffer).frame, a.env);
    }
  }

  /** A step of either side leaves an exhausted counter alone, and is no allocation on that side. */
  lemma ExhaustedStep(cfg: Config, net: Net, actor: Side, a: Action, side: Side)
    requires cfg.client.Valid() && cfg.server.Valid() && !CanAllocate(net.At(side).mux) && Step(cfg, net, actor, a).Some?
    ensures Step(cfg, net, actor, a).value.At(side).mux.nextId == net.At(side).mux.nextId
    ensures !(actor == side && a.AllocateStream?)
  {
    var c, e, peer := cfg.At(actor), net.At(actor), net.At(Other(actor));
    if actor == side {
      assert !a.AllocateStream? by {
        hide Apply;
      }
      hide Enabled, Apply, CanAllocate;
      NextIdKept(c, e, peer, a);
    } else {
      hide Enabled, Apply, CanAllocate;
    }
  }

  /** A peer whose stream ids are used up never allocates another, whatever the two peers do from then on. */
  lemma {:induction false} ExhaustedForever(cfg: Config, run: seq<(Side, Action)>, more: seq<(Side, Action)>, side: Side)
    requires cfg.Valid() && Execute(cfg, run).Some? && Execute(cfg, run + more).Some?
    requires !CanAllocate(Execute(cfg, run).value.At(side).mux)
    ensures Execute(cfg, run + more).value.At(side).mux.nextId == Execute(cfg, run).value.At(side).mux.nextId
    ensures forall k :: 0 <= k < |more| ==> !(more[k].0 == side && more[k].1.AllocateStream?)
  {
    hide Step;
    if more == [] {
      assert run + more == run;
    } else {
      var front, last := more[..|more| - 1], more[|more| - 1];
      assert (run + more)[..|run + more| - 1] == run + front && (run + more)[|run + more| - 1] == last;
      ExhaustedForever(cfg, run, front, side);
      ExhaustedStep(cfg, Execute(cfg, run + front).value, last.0, last.1, side);
      forall k | 0 <= k < |more| ensures !(more[k].0 == side && more[k].1.AllocateStream?) {
        assert k < |front| ==> front[k] == more[k];
      }
    }
  }

  /** Between two such peers no `OpenStream` ever arrives for a stream that is, or was, registered. */
  lemma OpenNeverDuplicate(cfg: Config, run: seq<(Side, Action)>, side: Side)
    requires cfg.Valid() && Execute(cfg, run).Some?
    requires var net := Execute(cfg, run).value;
             DecodeOne(cfg.At(side), net.At(side).buffer).Got? && DecodeOne(cfg.At(side), net.At(side).buffer).frame.OpenStream?
    ensures var net := Execute(cfg, run).value;
            var s := DecodeOne(cfg.At(side), net.At(side).buffer).frame.openId;
            s !in net.At(side).registered && s !in net.At(side).mux.streams
  {
    hide Inv, Execute, DecodeOne, ArriveOk;
    var net := Execute(cfg, run).value;
    var e, peer := net.At(side), net.At(Other(side));
    ReachableInv(cfg, run, side);
    DecodeArrives(cfg, side, e, peer);
    var one := DecodeOne(cfg.At(side), e.buffer);
    OpenIsFirst(cfg, side, e, peer, one.frame, one.rest);
    StreamsRegistered(cfg, side, e, peer, one.frame.openId);
  }

  lemma StreamsRegistered(cfg: Config, side: Side, e: Endpoint, peer: Endpoint, s: u32)
    requires cfg.Valid() && Inv(cfg, side, e, peer) && s !in e.registered
    ensures s !in e.mux.streams
  {
    hide DeliveryOk, HandlesOk, SentOk, EmitOk, ArriveOk, SeenOk, KnownOk, Routed;
  }

  /** The id a peer would allocate next was never used, by either side. */
  lemma AllocatedIdIsNew(cfg: Config, run: seq<(Side, Action)>, side: Side)
    requires cfg.Valid() && Execute(cfg, run).Some?
    ensures var net := Execute(cfg, run).value;
            var s := net.At(side).mux.nextId;
            && Own(side, s)
            && s !in net.client.registered && s !in net.server.registered
            && (forall t :: t in net.At(side).registered && Own(side, t) ==> t < s)
            && SentOn(net.At(Other(side)).sent, s) == []
  {
    hide Inv, Execute;
    var net := Execute(cfg, run).value;
    ReachableInv(cfg, run, side);
    NextIdIsNew(cfg, side, net.At(side), net.At(Other(side)));
  }

  lemma NextIdIsNew(cfg: Config, side: Side, e: Endpoint, peer: Endpoint)
    requires cfg.Valid() && Inv(cfg, side, e, peer)
    ensures var s := e.mux.nextId;
            && Own(side, s) && s !in e.registered && s !in peer.registered
            && (forall t :: t in e.registered && Own(side, t) ==> t < s)
            && SentOn(peer.sent, s) == []
  {
    hide MuxOk, DeliveryOk, HandlesOk, EmitOk, SentOn, Script, FrameOk, EncodeAll, FramesOf;
    var s, c := e.mux.nextId, cfg.At(side);
    AllocateFresh(cfg, side, e, peer);
    assert s !in peer.prio;
    UnknownUnsent(Other(side), peer, s);
    // Nothing was sent on it here either, so the peer has seen nothing of it.
    UnsentOwn(side, e, s);
    EmitBound(c, e);
    NothingSent(c, e, s);
    ArrivedOn(c, e, peer.processed, s);
  }
}
