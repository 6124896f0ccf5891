/**
 The two ends of the data path, call by call: what a writer's calls put on a stream, what a reader's polls take off it,
 and how many streams a peer can open. Each is read off the steps of a run alone.
 */
module PipelineCalls {
  import opened Seqs
  import opened Frames
  import opened Codec
  import opened BatchedSender
  import opened Multiplexing
  import opened VirtualStreams
  import opened Pipeline
  import opened PipelineInvariant
  import opened PipelineWire
  import opened PipelineDispatch
  import opened PipelineTheorems

  type Steps = seq<(Side, Action)>

  // ---------------------------------------------------------------------------------------------
  // Writes
  // ---------------------------------------------------------------------------------------------

  /** The bytes of the write in flight, if any, and those of all the writes that went through. */
  datatype Writing = Writing(pending: Option<seq<byte>>, done: seq<byte>)

  function NextWriting(w: Writing, a: Action, s: u32): Writing {
    match a
    case StartWrite(t, buf) => if t != s then w else w.(pending := Some(if |buf| <= 65536 then buf else buf[..65536]))
    case StartShutdown(t) => if t != s then w else w.(pending := Some([]))
    case SendDone(t) => if t != s || w.pending.None? then w else Writing(None, w.done + w.pending.value)
    case SendAborted(t) => if t != s then w else w.(pending := None)
    case DropStream(t) => if t != s then w else w.(pending := None)
    case _ => w
  }

  /** Read off the calls on stream `s` at one side: each write counts once its send is done, up to its first 64 KiB. */
  function WritingOf(run: Steps, side: Side, s: u32): Writing {
    if run == [] then Writing(None, [])
    else
      var before, last := WritingOf(run[..|run| - 1], side, s), run[|run| - 1];
      if last.0 != side then before else NextWriting(before, last.1, s)
  }

  function InFlight(e: Endpoint, s: u32): Option<seq<byte>> {
    if s in e.handles && e.handles[s].pending.Some? then Some(Payload(e.handles[s].pending.value)) else None
  }

  lemma PutOneFrame(e: Endpoint, x: PrioritizedFrame, s: u32)
    ensures BytesPut(Put(e, x), s) == BytesPut(e, s) + (if StreamOf(x.frame) == Some(s) then Payload(x.frame) else [])
  {
    FilterPush(OnStream(s), e.sent, x);
    hide Filter;
    FramesOfPush(SentOn(e.sent, s), x);
    DataBytesPush(FramesPut(e, s), x.frame);
    assert BytesPut(e, s) + [] == BytesPut(e, s);
  }

  lemma SameSent(e: Endpoint, e': Endpoint, s: u32)
    requires e'.sent == e.sent
    ensures BytesPut(e', s) == BytesPut(e, s)
  {
  }

  /** The handle a step makes for a stream is its first. */
  lemma OpeningHasNoHandle(cfg: Config, side: Side, e: Endpoint, peer: Endpoint, s: u32)
    requires cfg.Valid() && Inv(cfg, side, e, peer) && CanOpen(e, s)
    ensures s !in e.handles
  {
    hide MuxOk, DeliveryOk, HandlesOk, SentOk, EmitOk, ArriveOk, SeenOk, KnownOk;
  }

  lemma ArrivingHasNoHandle(cfg: Config, side: Side, e: Endpoint, peer: Endpoint)
    requires cfg.Valid() && Inv(cfg, side, e, peer) && DecodeOne(cfg.At(side), e.buffer).Got?
    requires DecodeOne(cfg.At(side), e.buffer).frame.OpenStream?
    ensures DecodeOne(cfg.At(side), e.buffer).frame.openId !in e.handles
  {
    hide Inv, ArriveOk, DecodeOne;
    var one := DecodeOne(cfg.At(side), e.buffer);
    DecodeArrives(cfg, side, e, peer);
    OpenIsFirst(cfg, side, e, peer, one.frame, one.rest);
  }

  /** A pending frame is on its own stream. */
  lemma PendingOnStream(cfg: Config, side: Side, e: Endpoint, peer: Endpoint, s: u32)
    requires cfg.Valid() && Inv(cfg, side, e, peer) && s in e.handles && e.handles[s].pending.Some?
    ensures StreamOf(e.handles[s].pending.value) == Some(s)
  {
    hide MuxOk, DeliveryOk, IdsOk, SentOk, EmitOk, ArriveOk, SeenOk, KnownOk;
  }

  lemma DispatchWriting(e: Endpoint, f: Frame, rest: seq<byte>, env: Env, s: u32)
    requires f.OpenStream? ==> f.openId !in e.handles
    ensures InFlight(DoDispatch(e, f, rest, env), s) == InFlight(e, s)
    ensures DoDispatch(e, f, rest, env).sent == e.sent
  {
    hide ProcessFrame;
  }

  lemma DenyWriting(e: Endpoint, f: Frame, rest: seq<byte>, closeSent: bool, s: u32)
    requires f.OpenStream?
    ensures var e' := DoDeny(e, f.openId, f, rest, closeSent);
            InFlight(e', s) == InFlight(e, s) && BytesPut(e', s) == BytesPut(e, s)
  {
    hide BytesPut;
    var e1 := e.(buffer := rest, processed := e.processed + [f]);
    SameSent(e, e1, s);
    if closeSent {
      var close := CloseStream(f.openId, ErrorClose(RATE_LIMITED));
      var p := PriorityFor(e.mux, close);
      var e2, x := e1.(prio := e.prio[f.openId := p]), PF(p, close);
      SameSent(e, e2, s);
      PutOneFrame(e2, x, s);
      assert BytesPut(e, s) + [] == BytesPut(e, s);
    }
  }

  lemma OpenSentWriting(e: Endpoint, t: u32, protocol: Protocol, s: u32)
    requires CanOpen(e, t) && t !in e.handles
    ensures var e' := DoOpenSent(e, t, protocol); InFlight(e', s) == InFlight(e, s) && BytesPut(e', s) == BytesPut(e, s)
  {
    hide BytesPut;
    var e1 := e.(opening := e.opening - {t}, handles := e.handles[t := NewHandle(e.prio[t], e.registered[t])]);
    SameSent(e, e1, s);
    PutOneFrame(e1, PF(e.prio[t], OpenStream(t, protocol, [], None, e.prio[t])), s);
    assert BytesPut(e, s) + [] == BytesPut(e, s);
  }

  lemma SendDoneWriting(e: Endpoint, t: u32, s: u32)
    requires Live(e, t) && e.handles[t].pending.Some? && StreamOf(e.handles[t].pending.value) == Some(t)
    ensures var w := Writing(InFlight(e, s), BytesPut(e, s));
            var e' := DoSendDone(e, t);
            NextWriting(w, SendDone(t), s) == Writing(InFlight(e', s), BytesPut(e', s))
  {
    hide BytesPut;
    var e1 := SetHandle(e, t, e.handles[t].(pending := None));
    SameSent(e, e1, s);
    PutOneFrame(e1, PF(e.handles[t].priority, e.handles[t].pending.value), s);
    assert BytesPut(e, s) + [] == BytesPut(e, s);
  }

  lemma StartWriting(e: Endpoint, t: u32, buf: seq<byte>, s: u32)
    requires Live(e, t)
    ensures var w := Writing(InFlight(e, s), BytesPut(e, s));
            var e' := DoStart(e, t, WriteFrame(t, buf));
            NextWriting(w, StartWrite(t, buf), s) == Writing(InFlight(e', s), BytesPut(e', s))
  {
    hide BytesPut;
    SameSent(e, DoStart(e, t, WriteFrame(t, buf)), s);
    assert |buf| <= 65536 ==> buf[..|buf|] == buf;
  }

  lemma ApplyWriting(cfg: Config, side: Side, e: Endpoint, peer: Endpoint, a: Action, s: u32)
    requires cfg.Valid() && Inv(cfg, side, e, peer) && Enabled(cfg.At(side), e, peer, a)
    ensures var c, w := cfg.At(side), Writing(InFlight(e, s), BytesPut(e, s));
            var e' := Apply(c, e, peer, a);
            NextWriting(w, a, s) == Writing(InFlight(e', s), BytesPut(e', s))
  {
    hide Inv, BytesPut, DecodeOne, EncodeAll, PollRead, EmitBatch, ProcessFrame, CanBatch, CanWrite, CanReceive;
    var c := cfg.At(side);
    match a
    case OpenSent(t, protocol) =>
      OpeningHasNoHandle(cfg, side, e, peer, t);
      hide DoOpenSent, InFlight;
      OpenSentWriting(e, t, protocol, s);
    case StartWrite(t, buf) =>
      hide DoStart, InFlight;
      StartWriting(e, t, buf, s);
    case SendDone(t) =>
      PendingOnStream(cfg, side, e, peer, t);
      hide DoSendDone, InFlight;
      SendDoneWriting(e, t, s);
    case SendControl(p, f) =>
      PutOneFrame(e, PF(p, f), s);
      assert BytesPut(e, s) + [] == BytesPut(e, s);
    case Dispatch(env) =>
      var one := DecodeOne(c, e.buffer);
      if one.frame.OpenStream? {
        ArrivingHasNoHandle(cfg, side, e, peer);
      }
      hide DoDispatch, InFlight;
      DispatchWriting(e, one.frame, one.rest, env, s);
      SameSent(e, Apply(c, e, peer, a), s);
    case DenyOpen(closeSent) =>
      hide DoDeny, InFlight;
      DenyWriting(e, DecodeOne(c, e.buffer).frame, DecodeOne(c, e.buffer).rest, closeSent, s);
    case _ => SameSent(e, Apply(c, e, peer, a), s);
  }

  /**
   In every run, the bytes put in the wire channel for a stream are those of the writes that went through on it, in
   order, each up to its first 64 KiB; none are added, and none of those are missing.
   */
  lemma {:induction false} BytesPutAreWritten(cfg: Config, run: Steps, side: Side, s: u32)
    requires cfg.Valid() && Execute(cfg, run).Some?
    ensures var e := Execute(cfg, run).value.At(side);
            WritingOf(run, side, s) == Writing(InFlight(e, s), BytesPut(e, s))
  {
    if run == [] {
      hide Start;
      NothingPut(side, s);
    } else {
      var front, last := run[..|run| - 1], run[|run| - 1];
      BytesPutAreWritten(cfg, front, side, s);
      ReachableInv(cfg, front, side);
      hide Inv, Apply, Enabled, BytesPut, InFlight, NextWriting;
      var net := Execute(cfg, front).value;
      if last.0 == side {
        ApplyWriting(cfg, side, net.At(side), net.At(Other(side)), last.1, s);
      }
    }
  }

  lemma NothingPut(side: Side, s: u32)
    ensures InFlight(Start(side), s) == None && BytesPut(Start(side), s) == []
  {
  }

  /**
   From call to call: if the writer's frames hold a whole chunk, what a reader has read up to its first close is, in
   every run, a prefix of what was written on the stream at the other side.
   */
  lemma ReadIsPrefixOfWritten(cfg: Config, run: Steps, side: Side, s: u32)
    requires cfg.Valid() && Execute(cfg, run).Some? && s in Execute(cfg, run).value.At(side).handles
    requires MAX_DATA_FRAME_PAYLOAD + 6 <= cfg.At(Other(side)).maxFrameSize
    ensures var h := Execute(cfg, run).value.At(side).handles[s];
            (if h.atClose.Some? then h.atClose.value else h.read) <= WritingOf(run, Other(side), s).done
  {
    hide Execute, BytesPut, BytesAccepted, WritingOf;
    BytesReadArePrefix(cfg, run, side, s);
    BytesPutAreWritten(cfg, run, Other(side), s);
  }

  // ---------------------------------------------------------------------------------------------
  // Reads
  // ---------------------------------------------------------------------------------------------

  /** A reader polls again and again. */
  function Reads(side: Side, s: u32, caps: seq<nat>): Steps {
    if caps == [] then [] else Reads(side, s, caps[..|caps| - 1]) + [(side, Read(s, caps[|caps| - 1], false))]
  }

  /** `e'` is `e` after some polls of its reader of `s`, which left it at `st`. */
  ghost predicate AfterReads(e: Endpoint, e': Endpoint, s: u32, st: ReadState) {
    && CanRead(e, s) && s in e'.handles
    && e' == e.(handles := e.handles[s := e'.handles[s]])
    && e'.handles[s].alive && e'.handles[s].rx == e.handles[s].rx && e'.handles[s].reading == st
  }

  lemma OneRead(e: Endpoint, e1: Endpoint, s: u32, st: ReadState, cap: nat)
    requires AfterReads(e, e1, s, st)
    ensures CanRead(e1, s)
    ensures AfterReads(e, DoRead(e1, s, cap, false), s, PollRead(e.mux.chans[e.handles[s].rx].log, st, cap, false).0)
  {
    hide PollRead;
    var e2 := DoRead(e1, s, cap, false);
    assert e2.handles == e1.handles[s := e2.handles[s]] == e.handles[s := e2.handles[s]];
  }

  lemma {:induction false} ReadsRun(cfg: Config, run: Steps, side: Side, s: u32, caps: seq<nat>)
    requires cfg.Valid() && Execute(cfg, run).Some? && CanRead(Execute(cfg, run).value.At(side), s)
    ensures var net, r := Execute(cfg, run).value, Execute(cfg, run + Reads(side, s, caps));
            var e := net.At(side);
            && r.Some? && r.value == net.With(side, r.value.At(side))
            && AfterReads(e, r.value.At(side), s, PollAll(e.mux.chans[e.handles[s].rx].log, e.handles[s].reading, caps))
  {
    hide PollRead;
    var net := Execute(cfg, run).value;
    var e := net.At(side);
    if caps == [] {
      assert run + Reads(side, s, caps) == run;
      assert e.handles[s := e.handles[s]] == e.handles;
    } else {
      var front, cap := caps[..|caps| - 1], caps[|caps| - 1];
      var before := run + Reads(side, s, front);
      ReadsRun(cfg, run, side, s, front);
      var e1, st := Execute(cfg, before).value.At(side), PollAll(e.mux.chans[e.handles[s].rx].log, e.handles[s].reading, front);
      OneRead(e, e1, s, st, cap);
      assert run + Reads(side, s, caps) == before + [(side, Read(s, cap, false))];
      hide AfterReads, DoRead;
      ReadStep(cfg, before, side, s, cap);
    }
  }

  lemma ReadStep(cfg: Config, run: Steps, side: Side, s: u32, cap: nat)
    requires cfg.Valid() && Execute(cfg, run).Some? && CanRead(Execute(cfg, run).value.At(side), s)
    ensures var net := Execute(cfg, run).value;
            Execute(cfg, run + [(side, Read(s, cap, false))]) == Some(net.With(side, DoRead(net.At(side), s, cap, false)))
  {
    hide DoRead, CanRead;
    assert (run + [(side, Read(s, cap, false))])[..|run|] == run;
  }

  /**
   In every run, on a stream nobody has closed: once everything its writer put in the wire channel is taken, written,
   received and decoded, a reader that polls on, with any room at all, reads exactly what could be encoded, after at
   most as many polls as there are frames and bytes in its channel.
   */
  lemma OpenStreamDelivers(cfg: Config, run: Steps, side: Side, s: u32, caps: seq<nat>)
    requires cfg.Valid() && Execute(cfg, run).Some?
    requires var e, peer := Execute(cfg, run).value.At(side), Execute(cfg, run).value.At(Other(side));
             && Settled(cfg.At(Other(side)), e, peer) && !HasClose(FramesPut(peer, s))
             && CanRead(e, s) && e.mux.chans[e.handles[s].rx].alive
             && |caps| >= Unread(e.mux.chans[e.handles[s].rx].log, e.handles[s].reading)
    requires forall i :: 0 <= i < |caps| ==> caps[i] >= 1
    ensures var r, peer := Execute(cfg, run + Reads(side, s, caps)), Execute(cfg, run).value.At(Other(side));
            && r.Some? && s in r.value.At(side).handles
            && r.value.At(side).handles[s].read == BytesAccepted(cfg.At(Other(side)), peer, s)
  {
    var net := Execute(cfg, run).value;
    var e := net.At(side);
    var log := e.mux.chans[e.handles[s].rx].log;
    ReadableState(cfg, run, side, s);
    ReadsRun(cfg, run, side, s, caps);
    PollsEmptyChannel(log, e.handles[s].reading, caps);
    hide Execute, PollAll, Unread, HasClose, FramesPut, BytesAccepted, Reads, WireBytes;
    OpenStreamLosesNothing(cfg, run + Reads(side, s, caps), side, s);
  }

  lemma ReadableState(cfg: Config, run: Steps, side: Side, s: u32)
    requires cfg.Valid() && Execute(cfg, run).Some? && CanRead(Execute(cfg, run).value.At(side), s)
    ensures var e := Execute(cfg, run).value.At(side);
            e.handles[s].reading.consumed <= |e.mux.chans[e.handles[s].rx].log|
  {
    hide Execute, Inv;
    ReachableInv(cfg, run, side);
    var net := Execute(cfg, run).value;
    ReaderState(cfg, side, net.At(side), net.At(Other(side)), s);
  }

  /**
   In every run, a reader that is answered the end of its stream while the channel is connected has reached a
   `CloseStream`; and if no write follows a shutdown, it has by then read everything that could be encoded.
   */
  lemma EndMeansComplete(cfg: Config, run: Steps, side: Side, s: u32, cap: nat)
    requires cfg.Valid() && Execute(cfg, run).Some? && CanRead(Execute(cfg, run).value.At(side), s)
    requires var e := Execute(cfg, run).value.At(side);
             PollRead(e.mux.chans[e.handles[s].rx].log, e.handles[s].reading, cap, false).1.ReadEof?
    ensures var r, c, peer := Execute(cfg, run + [(side, Read(s, cap, false))]), cfg.At(Other(side)), Execute(cfg, run).value.At(Other(side));
            && r.Some? && s in r.value.At(side).handles && r.value.At(side).handles[s].atClose.Some?
            && (NoDataAfterClose(FramesAccepted(c, peer, s)) ==>
                  r.value.At(side).handles[s].atClose.value == BytesAccepted(c, peer, s))
  {
    var run' := run + [(side, Read(s, cap, false))];
    var net := Execute(cfg, run).value;
    ReadStep(cfg, run, side, s, cap);
    EndIsClose(net.At(side), s, cap);
    hide Execute, DoRead, CanRead, PollRead, NoDataAfterClose, FramesAccepted, BytesAccepted;
    if NoDataAfterClose(FramesAccepted(cfg.At(Other(side)), net.At(Other(side)), s)) {
      CloseMeansComplete(cfg, run', side, s);
    }
  }

  lemma EndIsClose(e: Endpoint, s: u32, cap: nat)
    requires CanRead(e, s) && PollRead(e.mux.chans[e.handles[s].rx].log, e.handles[s].reading, cap, false).1.ReadEof?
    ensures s in DoRead(e, s, cap, false).handles && DoRead(e, s, cap, false).handles[s].atClose.Some?
  {
    PollReadAnswers(e.mux.chans[e.handles[s].rx].log, e.handles[s].reading, cap, false);
  }

  /** A reader that was dropped gets nothing more, and the next data frame for its stream unregisters it. */
  lemma DroppedReaderRefuses(cfg: Config, run: Steps, side: Side, s: u32, f: Frame, rest: seq<byte>, env: Env)
    requires cfg.Valid() && Execute(cfg, run).Some? && Live(Execute(cfg, run).value.At(side), s)
    requires f.Data? && f.streamId == s
    ensures var e := DoDrop(Execute(cfg, run).value.At(side), s);
            var e' := DoDispatch(e, f, rest, env);
            && !Live(e, s) && e.handles[s].rx < |e.mux.chans| && !e.mux.chans[e.handles[s].rx].alive
            && e'.mux.chans == e.mux.chans && s !in e'.mux.streams
  {
    hide Execute, Inv, Holds, DoDrop, DoDispatch;
    ReachableInv(cfg, run, side);
    var net := Execute(cfg, run).value;
    var e, peer := net.At(side), net.At(Other(side));
    ReaderState(cfg, side, e, peer, s);
    StreamsLeadThere(cfg, side, e, peer, s);
    hide HandleOk;
    DropThenData(e, s, f, rest, env);
  }

  lemma DropThenData(e: Endpoint, s: u32, f: Frame, rest: seq<byte>, env: Env)
    requires Live(e, s) && e.handles[s].rx < |e.mux.chans| && f.Data? && f.streamId == s
    requires s in e.mux.streams ==> e.mux.streams[s] == e.handles[s].rx
    requires e.mux.last.Some? && e.mux.last.value.0 == s ==> e.mux.last.value.1 == e.handles[s].rx
    ensures var e1 := DoDrop(e, s);
            var e2 := DoDispatch(e1, f, rest, env);
            && !Live(e1, s) && e1.handles[s].rx < |e1.mux.chans| && !e1.mux.chans[e1.handles[s].rx].alive
            && e2.mux.chans == e1.mux.chans && s !in e2.mux.streams
  {
  }

  /** Map and cache lead to the channel the stream was given. */
  lemma StreamsLeadThere(cfg: Config, side: Side, e: Endpoint, peer: Endpoint, s: u32)
    requires cfg.Valid() && Inv(cfg, side, e, peer) && s in e.registered
    ensures s in e.mux.streams ==> e.mux.streams[s] == e.registered[s]
    ensures e.mux.last.Some? && e.mux.last.value.0 == s ==> e.mux.last.value.1 == e.registered[s]
  {
    hide MuxOk, HandlesOk, IdsOk, SentOk, EmitOk, ArriveOk, SeenOk, KnownOk, Holds;
  }

  // ---------------------------------------------------------------------------------------------
  // Locks and batches
  // ---------------------------------------------------------------------------------------------

  /** The step is a dispatch at `side` for which some lock attempt failed. */
  predicate LockFailed(step: (Side, Action), side: Side) {
    step.0 == side && step.1.Dispatch? && !(step.1.env.firstLock && step.1.env.secondLock)
  }

  /** A side counts as faultless exactly when no lock attempt failed in any of its dispatches. */
  lemma {:induction false} FaultlessIff(cfg: Config, run: Steps, side: Side)
    requires cfg.Valid() && Execute(cfg, run).Some?
    ensures Execute(cfg, run).value.At(side).faultless <==> forall k :: 0 <= k < |run| ==> !LockFailed(run[k], side)
  {
    if run == [] {
    } else {
      var front, last := run[..|run| - 1], run[|run| - 1];
      FaultlessIff(cfg, front, side);
      assert forall k :: 0 <= k < |front| ==> front[k] == run[k];
      var net := Execute(cfg, front).value;
      if last.0 == side {
        FaultlessStep(cfg.At(side), net.At(side), net.At(Other(side)), last.1);
      }
      hide Apply, Enabled;
    }
  }

  lemma FaultlessStep(c: TunnelCodec, e: Endpoint, peer: Endpoint, a: Action)
    requires c.Valid() && Enabled(c, e, peer, a)
    ensures Apply(c, e, peer, a).faultless == (e.faultless && (a.Dispatch? ==> a.env.firstLock && a.env.secondLock))
  {
    hide DecodeOne, EncodeAll, PollRead, EmitBatch, ProcessFrame, CanBatch, CanWrite, CanReceive, CanRead, CanOpen, Live;
  }

  /** Each batch emitted is what was taken of the wire channel and could be encoded, Critical first, then High, Normal and Low. */
  lemma BatchGoesByPriority(c: TunnelCodec, e: Endpoint, n: nat) returns (batch: seq<PrioritizedFrame>)
    requires c.Valid() && CanBatch(c, e, n)
    ensures DoBatch(c, e, n) == e.(taken := e.taken + n, emitted := e.emitted + batch)
    ensures Drained(batch) && multiset(batch) == multiset(Filter(Accepted(c), e.sent[e.taken..e.taken + n]))
  {
    batch := EmitBatch(c, e.sent[e.taken..e.taken + n]);
    EmittedByPriority(c, e.sent[e.taken..e.taken + n]);
    hide EmitBatch, Drained, Filter, WireBytes;
  }

  lemma EmittedByPriority(c: TunnelCodec, batch: seq<PrioritizedFrame>)
    requires c.Valid()
    ensures Drained(EmitBatch(c, batch)) && multiset(EmitBatch(c, batch)) == multiset(Filter(Accepted(c), batch))
  {
    EmitBatchDrained(c, batch);
    DrainSortSorts(batch);
    hide Drained, Filter, DrainSort;
    FilterConserves(Accepted(c), DrainSort(batch), batch);
  }

  // ---------------------------------------------------------------------------------------------
  // Opening streams
  // ---------------------------------------------------------------------------------------------

  function Allocations(run: Steps, side: Side): nat {
    if run == [] then 0
    else Allocations(run[..|run| - 1], side)
         + (if run[|run| - 1].0 == side && run[|run| - 1].1.AllocateStream? then 1 else 0)
  }

  /**
   In every run, a client has allocated the first odd ids and a server the first even ones above zero; and the client
   can allocate another exactly as long as it has fewer than 2^31 - 1, the server as long as it has fewer than 2^31 - 2.
   */
  lemma {:induction false} AllocationsExact(cfg: Config, run: Steps, side: Side)
    requires cfg.Valid() && Execute(cfg, run).Some?
    ensures var m, k := Execute(cfg, run).value.At(side).mux, Allocations(run, side);
            && m.nextId == (if side.Client? then 1 else 2) + 2 * k
            && (CanAllocate(m) <==> k < if side.Client? then 0x7FFF_FFFF else 0x7FFF_FFFE)
  {
    if run == [] {
    } else {
      var front, last := run[..|run| - 1], run[|run| - 1];
      AllocationsExact(cfg, front, side);
      var net := Execute(cfg, front).value;
      if last.0 == side && !last.1.AllocateStream? {
        NextIdKept(cfg.At(side), net.At(side), net.At(Other(side)), last.1);
        hide Apply, Enabled;
      } else if last.0 == side {
        hide DecodeOne, EncodeAll, PollRead, EmitBatch, ProcessFrame;
      } else {
        hide Apply, Enabled;
      }
    }
  }

  /**
   A denied `OpenStream` opens nothing: no stream, no channel, no reader. Its sender is told, if the answer can be sent,
   by a `CloseStream` for that stream; nothing else is sent.
   */
  lemma DeniedOpensNothing(cfg: Config, run: Steps, side: Side, closeSent: bool)
    requires cfg.Valid() && Execute(cfg, run).Some?
    requires Enabled(cfg.At(side), Execute(cfg, run).value.At(side), Execute(cfg, run).value.At(Other(side)), DenyOpen(closeSent))
    ensures var net, c := Execute(cfg, run).value, cfg.At(side);
            var e, f := net.At(side), DecodeOne(c, net.At(side).buffer).frame;
            var e' := Apply(c, e, net.At(Other(side)), DenyOpen(closeSent));
            && e'.mux == e.mux && e'.handles == e.handles && e'.registered == e.registered
            && f.openId !in e'.handles && f.openId !in e'.registered
            && (if closeSent then |e'.sent| == |e.sent| + 1 && e'.sent[..|e.sent|] == e.sent
                                  && e'.sent[|e.sent|].frame.CloseStream? && e'.sent[|e.sent|].frame.closeId == f.openId
                else e'.sent == e.sent)
  {
    hide Execute, Inv, DecodeOne, ArriveOk;
    var net := Execute(cfg, run).value;
    ReachableInv(cfg, run, side);
    DecodeArrives(cfg, side, net.At(side), net.At(Other(side)));
    var one := DecodeOne(cfg.At(side), net.At(side).buffer);
    OpenIsFirst(cfg, side, net.At(side), net.At(Other(side)), one.frame, one.rest);
  }
}
