/**
 Two particular kinds of run: one in which bytes written on one side are read, all of them, on the other, so that
 the theorems are not empty; and one in which a failed lock after a close makes a reader miss bytes.
 */
module PipelineProgress {
  import opened Seqs
  import opened Frames
  import opened Validation
  import opened Codec
  import opened BatchedSender
  import opened Multiplexing
  import opened VirtualStreams
  import opened Pipeline
  import opened PipelineInvariant
  import opened PipelineTheorems

  type Steps = seq<(Side, Action)>

  lemma ExecutePush(cfg: Config, run: Steps, side: Side, a: Action)
    requires cfg.client.Valid() && cfg.server.Valid() && Execute(cfg, run).Some?
    ensures Execute(cfg, run + [(side, a)]) == Step(cfg, Execute(cfg, run).value, side, a)
  {
    hide Step;
    assert (run + [(side, a)])[..|run + [(side, a)]| - 1] == run;
  }

  lemma TakeStep(cfg: Config, run: Steps, net: Net, side: Side, a: Action, e': Endpoint)
    requires cfg.client.Valid() && cfg.server.Valid() && Execute(cfg, run) == Some(net)
    requires Enabled(cfg.At(side), net.At(side), net.At(Other(side)), a)
    requires Apply(cfg.At(side), net.At(side), net.At(Other(side)), a) == e'
    ensures Execute(cfg, run + [(side, a)]) == Some(net.With(side, e'))
  {
    hide Enabled, Apply, Execute;
    ExecutePush(cfg, run, side, a);
  }

  // ---------------------------------------------------------------------------------------------
  // The client: open stream 1, put frames on it, write them out
  // ---------------------------------------------------------------------------------------------

  function OpenFrame(p: StreamPriority): Frame {
    OpenStream(1, TCP, [], None, p)
  }

  function AtPriority(p: StreamPriority, fs: seq<Frame>): (r: seq<PrioritizedFrame>)
    ensures |r| == |fs|
    ensures forall i :: 0 <= i < |fs| ==> r[i] == PF(p, fs[i])
  {
    seq(|fs|, i requires 0 <= i < |fs| => PF(p, fs[i]))
  }

  lemma {:induction false} AtPriorityFrames(p: StreamPriority, fs: seq<Frame>)
    ensures FramesOf(AtPriority(p, fs)) == fs
  {
    if fs == [] {
    } else {
      var n := |fs| - 1;
      AtPriorityFrames(p, fs[..n]);
      assert AtPriority(p, fs)[..n] == AtPriority(p, fs[..n]);
    }
  }

  /** The client has opened stream 1 and put `fs` on it. */
  function ClientSent(p: StreamPriority, fs: seq<Frame>): Endpoint {
    Endpoint(Mux(map[1 := 0], map[1 := p], None, 3, [Chan(1, [], true)]), map[1 := 0], {},
             map[1 := NewHandle(p, 0)], map[1 := p], AtPriority(p, [OpenFrame(p)] + fs), 0, [], [], 0, [], [], true)
  }

  lemma ClientAllocates(p: StreamPriority)
    ensures CanAllocate(Start(Client).mux)
    ensures var e := DoAllocate(Start(Client), p);
            && CanOpen(e, 1)
            && DoOpenSent(e, 1, TCP) == ClientSent(p, [])
  {
    var e := DoAllocate(Start(Client), p);
    assert e.opening == {1} && e.registered == map[1 := 0] && e.prio == map[1 := p] && e.mux.streams == map[1 := 0]
      && e.mux.priorities == map[1 := p] && e.mux.chans == [Chan(1, [], true)];
    var e' := DoOpenSent(e, 1, TCP);
    assert e'.opening == {} && e'.handles == map[1 := NewHandle(p, 0)];
    assert e'.sent == [PF(p, OpenFrame(p))] == AtPriority(p, [OpenFrame(p)] + []);
  }

  lemma ClientOpens(cfg: Config, p: StreamPriority) returns (run: Steps)
    requires cfg.Valid()
    ensures Execute(cfg, run) == Some(Net(ClientSent(p, []), Start(Server)))
  {
    ClientAllocates(p);
    assert Execute(cfg, []) == Some(START);
    var e := DoAllocate(Start(Client), p);
    hide Start, DoAllocate, DoOpenSent, ClientSent, Execute;
    TakeStep(cfg, [], START, Client, AllocateStream(p), e);
    run := [] + [(Client, AllocateStream(p))];
    TakeStep(cfg, run, Net(e, Start(Server)), Client, OpenSent(1, TCP), ClientSent(p, []));
    run := run + [(Client, OpenSent(1, TCP))];
  }

  /** A write or a shutdown on stream 1, and the frame it sends. */
  predicate Sends(a: Action, f: Frame) {
    || (a.StartWrite? && a.s == 1 && f == WriteFrame(1, a.buf))
    || (a.StartShutdown? && a.s == 1 && f == ShutdownFrame(1))
  }

  lemma PutOne(p: StreamPriority, fs: seq<Frame>, f: Frame)
    ensures var e := ClientSent(p, fs);
            && Live(e, 1) && e.handles[1].pending.None?
            && var e' := DoStart(e, 1, f);
            && Live(e', 1) && e'.handles[1].pending.Some?
            && DoSendDone(e', 1) == ClientSent(p, fs + [f])
  {
    var e := ClientSent(p, fs);
    var e' := DoStart(e, 1, f);
    assert e'.handles[1] == NewHandle(p, 0).(pending := Some(f));
    var e'' := DoSendDone(e', 1);
    assert e''.handles == map[1 := NewHandle(p, 0)];
    assert e''.sent == AtPriority(p, [OpenFrame(p)] + (fs + [f]));
  }

  lemma ClientPuts(cfg: Config, run: Steps, p: StreamPriority, fs: seq<Frame>, a: Action, f: Frame) returns (run': Steps)
    requires cfg.Valid() && Sends(a, f) && Execute(cfg, run) == Some(Net(ClientSent(p, fs), Start(Server)))
    ensures Execute(cfg, run') == Some(Net(ClientSent(p, fs + [f]), Start(Server)))
  {
    PutOne(p, fs, f);
    hide Execute, ClientSent, DoStart, DoSendDone, Start;
    var e, peer := ClientSent(p, fs), Start(Server);
    var e' := DoStart(e, 1, f);
    TakeStep(cfg, run, Net(e, peer), Client, a, e');
    TakeStep(cfg, run + [(Client, a)], Net(e', peer), Client, SendDone(1), ClientSent(p, fs + [f]));
    run' := run + [(Client, a)] + [(Client, SendDone(1))];
  }

  /** The client's sender has written everything. */
  function ClientDone(c: TunnelCodec, p: StreamPriority, fs: seq<Frame>): Endpoint
    requires c.Valid()
  {
    var e := ClientSent(p, fs);
    e.(taken := |e.sent|, emitted := e.sent, written := EncodeAll(c, [OpenFrame(p)] + fs))
  }

  /** Frames of one priority leave a batch in their order. */
  lemma BatchOfOnePriority(c: TunnelCodec, p: StreamPriority, fs: seq<Frame>)
    requires c.Valid() && forall f :: f in fs ==> Encodable(c, f)
    ensures EmitBatch(c, AtPriority(p, fs)) == AtPriority(p, fs)
  {
    hide Encodable;
    var xs, all := AtPriority(p, fs), (x: PrioritizedFrame) => true;
    DrainSortStable(all, xs);
    FilterAll(all, xs);
    FilterAll(all, DrainSort(xs));
    FilterAll(Accepted(c), xs);
  }

  /** The whole of `sent` goes out as one batch, in one write. */
  lemma OneBatch(c: TunnelCodec, p: StreamPriority, fs: seq<Frame>)
    requires c.Valid() && |fs| < MAX_BATCH_SIZE && forall f :: f in [OpenFrame(p)] + fs ==> Encodable(c, f)
    ensures var e, n := ClientSent(p, fs), |fs| + 1;
            && CanBatch(c, e, n)
            && DoBatch(c, e, n) == e.(taken := n, emitted := e.sent)
  {
    var e, all := ClientSent(p, fs), [OpenFrame(p)] + fs;
    BatchOfOnePriority(c, p, all);
    NothingWritten(c);
    hide EmitBatch, EncodeAll, FramesOf, Encodable, AtPriority;
    assert |all| == |fs| + 1 && e.sent == AtPriority(p, all);
    assert e.sent[0..|fs| + 1] == e.sent && e.emitted + e.sent == e.sent;
  }

  lemma NothingWritten(c: TunnelCodec)
    requires c.Valid()
    ensures EncodeAll(c, FramesOf([])) == []
  {
  }

  lemma OneWrite(c: TunnelCodec, p: StreamPriority, fs: seq<Frame>)
    requires c.Valid() && Encodable(c, OpenFrame(p))
    ensures var e := ClientSent(p, fs);
            var e1, bytes := e.(taken := |fs| + 1, emitted := e.sent), EncodeAll(c, [OpenFrame(p)] + fs);
            && CanWrite(c, e1, |bytes|)
            && DoSocketWrite(c, e1, |bytes|) == ClientDone(c, p, fs)
  {
    var all := [OpenFrame(p)] + fs;
    AtPriorityFrames(p, all);
    SomethingEncoded(c, all);
    hide EncodeAll, FramesOf, Encodable;
    var bytes := EncodeAll(c, all);
    assert bytes[..|bytes|] == bytes;
  }

  lemma ClientWrites(cfg: Config, run: Steps, p: StreamPriority, fs: seq<Frame>) returns (run': Steps)
    requires cfg.Valid() && |fs| < MAX_BATCH_SIZE && forall f :: f in [OpenFrame(p)] + fs ==> Encodable(cfg.client, f)
    requires Execute(cfg, run) == Some(Net(ClientSent(p, fs), Start(Server)))
    ensures Execute(cfg, run') == Some(Net(ClientDone(cfg.client, p, fs), Start(Server)))
  {
    hide Execute, EncodeAll, Encodable, ClientSent, ClientDone, DoBatch, DoSocketWrite, CanBatch, CanWrite;
    var c, peer, e := cfg.client, Start(Server), ClientSent(p, fs);
    var e1, k, n := e.(taken := |fs| + 1, emitted := e.sent), |EncodeAll(c, [OpenFrame(p)] + fs)|, |fs| + 1;
    OneBatch(c, p, fs);
    OneWrite(c, p, fs);
    TakeStep(cfg, run, Net(e, peer), Client, SendBatch(n), e1);
    TakeStep(cfg, run + [(Client, SendBatch(n))], Net(e1, peer), Client, SocketWrite(k), ClientDone(c, p, fs));
    run' := run + [(Client, SendBatch(n))] + [(Client, SocketWrite(k))];
  }

  lemma SomethingEncoded(c: TunnelCodec, fs: seq<Frame>)
    requires c.Valid() && fs != [] && Encodable(c, fs[0])
    ensures |EncodeAll(c, fs)| >= 1
  {
    EncodeAllHead(c, fs);
    EncodeShape(c, fs[0]);
  }

  // ---------------------------------------------------------------------------------------------
  // The server: receive everything, dispatch frame by frame
  // ---------------------------------------------------------------------------------------------

  /** The frame survives the wire. */
  ghost predicate Carries(c: TunnelCodec, f: Frame) {
    c.Valid() && Encodable(c, f) && (f.Data? || Bounded(f, c.limits))
  }

  /** Stream 1 on the server: `listed` in the maps, `cached` as the last sender, its channel holding `log`. */
  function ServerAt(p: StreamPriority, listed: bool, cached: bool, log: seq<Frame>, n: nat, buffer: seq<byte>,
                    processed: seq<Frame>, faultless: bool): Endpoint {
    Endpoint(Mux(if listed then map[1 := 0] else map[], if listed then map[1 := p] else map[],
                 if cached then Some((1, 0)) else None, 2, [Chan(1, log, true)]), map[1 := 0], {},
             map[1 := NewHandle(p, 0)], map[1 := p], [], 0, [], [], n, buffer, processed, faultless)
  }

  const READY := Env(true, true, true)
  const NO_LOCK := Env(false, false, true)

  lemma ServerReceives(cfg: Config, run: Steps, client: Endpoint) returns (run': Steps)
    requires cfg.Valid() && Execute(cfg, run) == Some(Net(client, Start(Server)))
    ensures Execute(cfg, run') == Some(Net(client, Start(Server).(received := |client.written|, buffer := client.written)))
  {
    var n := |client.written|;
    assert client.written[0..n] == client.written && [] + client.written == client.written;
    hide Execute;
    TakeStep(cfg, run, Net(client, Start(Server)), Server, Receive(n), DoReceive(Start(Server), client, n));
    run' := run + [(Server, Receive(n))];
  }

  lemma DecodeHead(c: TunnelCodec, f: Frame, fs: seq<Frame>)
    requires Carries(c, f) && Faithful(c.bincode) && Complete(c)
    ensures DecodeOne(c, EncodeAll(c, [f] + fs)) == Got(f, EncodeAll(c, fs))
  {
    hide DecodeOne, Bounded, Complete, Faithful;
    assert ([f] + fs)[1..] == fs;
    EncodeAllHead(c, [f] + fs);
    EncodeIff(c, f);
    RoundTripIff(c, f, EncodeAll(c, fs));
  }

  lemma ServerTakes(cfg: Config, run: Steps, client: Endpoint, e: Endpoint, f: Frame, fs: seq<Frame>, env: Env, e': Endpoint)
      returns (run': Steps)
    requires cfg.Valid() && Complete(cfg.server) && Carries(cfg.server, f)
    requires Execute(cfg, run) == Some(Net(client, e)) && e.buffer == EncodeAll(cfg.server, [f] + fs)
    requires e' == DoDispatch(e, f, EncodeAll(cfg.server, fs), env)
    ensures Execute(cfg, run') == Some(Net(client, e'))
  {
    hide Execute, DoDispatch, DecodeOne, EncodeAll, Complete, Faithful, Carries;
    DecodeHead(cfg.server, f, fs);
    TakeStep(cfg, run, Net(client, e), Server, Dispatch(env), e');
    run' := run + [(Server, Dispatch(env))];
  }

  lemma OpenDispatched(p: StreamPriority, buffer: seq<byte>, rest: seq<byte>, n: nat)
    ensures var e := Start(Server).(received := n, buffer := buffer);
            DoDispatch(e, OpenFrame(p), rest, READY) == ServerAt(p, true, false, [], n, rest, [OpenFrame(p)], true)
  {
    var e := Start(Server).(received := n, buffer := buffer);
    var e' := DoDispatch(e, OpenFrame(p), rest, READY);
    assert e'.mux.streams == map[1 := 0] && e'.mux.priorities == map[1 := p] && e'.mux.chans == [Chan(1, [], true)];
    assert e'.registered == map[1 := 0] && e'.handles == map[1 := NewHandle(p, 0)] && e'.prio == map[1 := p];
  }

  /** With the locks, a frame of a listed or cached stream reaches its channel. */
  lemma Delivered(p: StreamPriority, listed: bool, cached: bool, log: seq<Frame>, n: nat, buffer: seq<byte>, processed: seq<Frame>,
                  faultless: bool, f: Frame, rest: seq<byte>)
    requires ForReader(1, f) && (listed || cached)
    ensures DoDispatch(ServerAt(p, listed, cached, log, n, buffer, processed, faultless), f, rest, READY)
         == ServerAt(p, listed && f.Data?, true, log + [f], n, rest, processed + [f], faultless)
  {
    var e := ServerAt(p, listed, cached, log, n, buffer, processed, faultless);
    var e' := DoDispatch(e, f, rest, READY);
    assert FindSender(e.mux, 1, READY) == Some(0);
    assert e'.mux.chans == [Chan(1, log + [f], true)];
    assert map[1 := 0] - {1} == map[] && map[1 := p] - {1} == map[];
  }

  /** Without them, a frame of a stream that is only cached is dropped. */
  lemma Dropped(p: StreamPriority, log: seq<Frame>, n: nat, buffer: seq<byte>, processed: seq<Frame>, faultless: bool,
                f: Frame, rest: seq<byte>)
    requires ForReader(1, f) && f.Data?
    ensures DoDispatch(ServerAt(p, false, true, log, n, buffer, processed, faultless), f, rest, NO_LOCK)
         == ServerAt(p, false, true, log, n, rest, processed + [f], false)
  {
  }

  /** The server has decoded and dispatched the client's `OpenStream`. */
  lemma ServerOpens(cfg: Config, p: StreamPriority, run: Steps, fs: seq<Frame>) returns (run': Steps, n: nat)
    requires cfg.Valid() && cfg.client == cfg.server && Complete(cfg.server) && Carries(cfg.server, OpenFrame(p))
    requires Execute(cfg, run) == Some(Net(ClientDone(cfg.client, p, fs), Start(Server)))
    ensures Execute(cfg, run') == Some(Net(ClientDone(cfg.client, p, fs),
      ServerAt(p, true, false, [], n, EncodeAll(cfg.server, fs), [OpenFrame(p)], true)))
  {
    var client, c := ClientDone(cfg.client, p, fs), cfg.server;
    var bytes := EncodeAll(c, [OpenFrame(p)] + fs);
    assert client.written == bytes;
    n := |bytes|;
    hide Execute, EncodeAll, Complete, Carries, ServerAt, ClientDone, DoDispatch;
    run' := ServerReceives(cfg, run, client);
    OpenDispatched(p, bytes, EncodeAll(c, fs), n);
    run' := ServerTakes(cfg, run', client, Start(Server).(received := n, buffer := bytes), OpenFrame(p), fs, READY,
                        ServerAt(p, true, false, [], n, EncodeAll(c, fs), [OpenFrame(p)], true));
  }

  // ---------------------------------------------------------------------------------------------
  // The runs
  // ---------------------------------------------------------------------------------------------

  /**
   Some run carries a write from a client's virtual stream to the server's reader, and all of it is read. Stated
   for any write of up to 64 KiB, and any codec that can carry it and the `OpenStream` frame.
   */
  lemma BytesCanArrive(cfg: Config, p: StreamPriority, buf: seq<byte>) returns (run: Steps)
    requires cfg.Valid() && cfg.client == cfg.server && Complete(cfg.server) && |buf| <= MAX_DATA_FRAME_PAYLOAD
    requires Carries(cfg.server, OpenFrame(p)) && Carries(cfg.server, WriteFrame(1, buf))
    ensures Execute(cfg, run).Some?
    ensures var server := Execute(cfg, run).value.server; 1 in server.handles && server.handles[1].read == buf
  {
    var c, f := cfg.server, WriteFrame(1, buf);
    assert f.data == buf && ForReader(1, f);
    hide Execute, EncodeAll, Complete, Carries, ClientDone, ClientSent, DoDispatch, WriteFrame;
    run := ClientOpens(cfg, p);
    run := ClientPuts(cfg, run, p, [], StartWrite(1, buf), f);
    assert [] + [f] == [f] && [f] + [] == [f];
    CarriesEncodable(c, [OpenFrame(p)] + [f]);
    run := ClientWrites(cfg, run, p, [f]);
    var n;
    run, n := ServerOpens(cfg, p, run, [f]);
    var rest, rest', seen := EncodeAll(c, [f]), EncodeAll(c, []), [OpenFrame(p)];
    Delivered(p, true, false, [], n, rest, seen, true, f, rest');
    run := ServerTakes(cfg, run, ClientDone(c, p, [f]), ServerAt(p, true, false, [], n, rest, seen, true), f, [], READY,
                       ServerAt(p, true, true, [f], n, rest', seen + [f], true));
    run := ReadOne(cfg, run, ClientDone(c, p, [f]), p, f, n, rest', seen + [f]);
  }

  lemma CarriesEncodable(c: TunnelCodec, fs: seq<Frame>)
    requires c.Valid() && forall f :: f in fs ==> Carries(c, f)
    ensures forall f :: f in fs ==> Encodable(c, f)
  {
  }

  lemma FirstRead(p: StreamPriority, f: Frame, n: nat, buffer: seq<byte>, processed: seq<Frame>)
    requires f.Data?
    ensures var e, cap := ServerAt(p, true, true, [f], n, buffer, processed, true), |f.data|;
            && CanRead(e, 1)
            && 1 in DoRead(e, 1, cap, false).handles
            && DoRead(e, 1, cap, false).handles[1].read == f.data
  {
    assert f.data[..|f.data|] == f.data && [] + f.data == f.data;
  }

  lemma ReadOne(cfg: Config, run: Steps, client: Endpoint, p: StreamPriority, f: Frame, n: nat, buffer: seq<byte>,
                processed: seq<Frame>) returns (run': Steps)
    requires cfg.Valid() && f.Data?
    requires Execute(cfg, run) == Some(Net(client, ServerAt(p, true, true, [f], n, buffer, processed, true)))
    ensures Execute(cfg, run').Some?
    ensures var server := Execute(cfg, run').value.server; 1 in server.handles && server.handles[1].read == f.data
  {
    FirstRead(p, f, n, buffer, processed);
    hide Execute, ServerAt, DoRead, CanRead;
    var e, cap := ServerAt(p, true, true, [f], n, buffer, processed, true), |f.data|;
    TakeStep(cfg, run, Net(client, e), Server, Read(1, cap, false), DoRead(e, 1, cap, false));
    run' := run + [(Server, Read(1, cap, false))];
  }

  /** Reading an end of stream, and then the data behind it. */
  lemma PastClose(p: StreamPriority, f: Frame, h: Frame, n: nat, buffer: seq<byte>, processed: seq<Frame>)
    requires f.CloseStream? && h.Data?
    ensures var e, cap := ServerAt(p, false, true, [f, h], n, buffer, processed, false), |h.data|;
            && CanRead(e, 1)
            && var e' := DoRead(e, 1, cap, false);
            && CanRead(e', 1) && 1 in DoRead(e', 1, cap, false).handles
            && DoRead(e', 1, cap, false).handles[1].read == h.data
  {
    assert h.data[..|h.data|] == h.data && [] + h.data == h.data;
  }

  lemma ReadPastClose(cfg: Config, run: Steps, client: Endpoint, p: StreamPriority, f: Frame, h: Frame, n: nat,
                      buffer: seq<byte>, processed: seq<Frame>) returns (run': Steps)
    requires cfg.Valid() && f.CloseStream? && h.Data?
    requires Execute(cfg, run) == Some(Net(client, ServerAt(p, false, true, [f, h], n, buffer, processed, false)))
    ensures Execute(cfg, run').Some? && Execute(cfg, run').value.client == client
    ensures var server := Execute(cfg, run').value.server; 1 in server.handles && server.handles[1].read == h.data
  {
    PastClose(p, f, h, n, buffer, processed);
    hide Execute, ServerAt, DoRead, CanRead;
    var e, a := ServerAt(p, false, true, [f, h], n, buffer, processed, false), Read(1, |h.data|, false);
    var e' := DoRead(e, 1, |h.data|, false);
    TakeStep(cfg, run, Net(client, e), Server, a, e');
    TakeStep(cfg, run + [(Server, a)], Net(client, e'), Server, a, DoRead(e', 1, |h.data|, false));
    run' := run + [(Server, a)] + [(Server, a)];
  }

  /** The frames of the run below: a shutdown, then two writes. */
  function WritesAfterShutdown(x: seq<byte>, y: seq<byte>): seq<Frame> {
    [ShutdownFrame(1), WriteFrame(1, x), WriteFrame(1, y)]
  }

  lemma ClientPutsThree(cfg: Config, p: StreamPriority, x: seq<byte>, y: seq<byte>) returns (run: Steps)
    requires cfg.Valid() && forall f :: f in [OpenFrame(p)] + WritesAfterShutdown(x, y) ==> Encodable(cfg.client, f)
    ensures Execute(cfg, run) == Some(Net(ClientDone(cfg.client, p, WritesAfterShutdown(x, y)), Start(Server)))
  {
    hide Execute, Encodable, ClientDone, ClientSent, WriteFrame;
    var f, g, h := ShutdownFrame(1), WriteFrame(1, x), WriteFrame(1, y);
    run := ClientOpens(cfg, p);
    run := ClientPuts(cfg, run, p, [], StartShutdown(1), f);
    run := ClientPuts(cfg, run, p, [] + [f], StartWrite(1, x), g);
    run := ClientPuts(cfg, run, p, [] + [f] + [g], StartWrite(1, y), h);
    assert [] + [f] + [g] + [h] == WritesAfterShutdown(x, y);
    run := ClientWrites(cfg, run, p, WritesAfterShutdown(x, y));
  }

  /** What the client put on the stream, in such a run. */
  lemma PutFrames(c: TunnelCodec, p: StreamPriority, fs: seq<Frame>)
    requires c.Valid() && forall f :: f in fs ==> StreamOf(f) == Some(1)
    ensures FramesPut(ClientDone(c, p, fs), 1) == [OpenFrame(p)] + fs
  {
    hide EncodeAll;
    var all := [OpenFrame(p)] + fs;
    FilterAll(OnStream(1), AtPriority(p, all));
    AtPriorityFrames(p, all);
  }

  lemma BytesOfFour(o: Frame, f: Frame, g: Frame, h: Frame)
    requires !o.Data? && !f.Data? && g.Data? && h.Data?
    ensures DataBytes([o] + [f, g, h]) == g.data + h.data
  {
    DataBytesPush([], o);
    DataBytesPush([] + [o], f);
    DataBytesPush([] + [o] + [f], g);
    DataBytesPush([] + [o] + [f] + [g], h);
    assert [] + [o] + [f] + [g] + [h] == [o] + [f, g, h];
    assert DataBytes([]) == [];
    hide DataBytes;
  }

  lemma PutBytes(c: TunnelCodec, p: StreamPriority, x: seq<byte>, y: seq<byte>)
    requires c.Valid()
    ensures BytesPut(ClientDone(c, p, WritesAfterShutdown(x, y)), 1) == WriteFrame(1, x).data + WriteFrame(1, y).data
  {
    PutFrames(c, p, WritesAfterShutdown(x, y));
    hide FramesPut, ClientDone, DataBytes;
    BytesOfFour(OpenFrame(p), ShutdownFrame(1), WriteFrame(1, x), WriteFrame(1, y));
  }

  /** The server dispatches a close and two data frames, with a lock failure on the first of these. */
  lemma ServerSkips(cfg: Config, p: StreamPriority, run: Steps, client: Endpoint, n: nat, f: Frame, g: Frame, h: Frame)
      returns (run': Steps, processed: seq<Frame>)
    requires cfg.Valid() && Complete(cfg.server) && Carries(cfg.server, f) && Carries(cfg.server, g) && Carries(cfg.server, h)
    requires ForReader(1, f) && ForReader(1, g) && ForReader(1, h) && f.CloseStream? && g.Data? && h.Data?
    requires Execute(cfg, run)
          == Some(Net(client, ServerAt(p, true, false, [], n, EncodeAll(cfg.server, [f, g, h]), [OpenFrame(p)], true)))
    ensures Execute(cfg, run')
         == Some(Net(client, ServerAt(p, false, true, [f, h], n, EncodeAll(cfg.server, []), processed, false)))
  {
    hide Execute, EncodeAll, Complete, Carries, DoDispatch;
    var c, seen := cfg.server, [OpenFrame(p)];
    var rest0, rest1, rest2, rest3 := EncodeAll(c, [f, g, h]), EncodeAll(c, [g, h]), EncodeAll(c, [h]), EncodeAll(c, []);
    var e0 := ServerAt(p, true, false, [], n, rest0, seen, true);
    var e1 := ServerAt(p, false, true, [] + [f], n, rest1, seen + [f], true);
    var e2 := ServerAt(p, false, true, [] + [f], n, rest2, seen + [f] + [g], false);
    var e3 := ServerAt(p, false, true, [] + [f] + [h], n, rest3, seen + [f] + [g] + [h], false);
    Delivered(p, true, false, [], n, rest0, seen, true, f, rest1);
    Dropped(p, [] + [f], n, rest1, seen + [f], true, g, rest2);
    Delivered(p, false, true, [] + [f], n, rest2, seen + [f] + [g], false, h, rest3);
    assert [f] + [g, h] == [f, g, h] && [g] + [h] == [g, h] && [h] + [] == [h] && [] + [f] + [h] == [f, h];
    run' := ServerTakes(cfg, run, client, e0, f, [g, h], READY, e1);
    run' := ServerTakes(cfg, run', client, e1, g, [h], NO_LOCK, e2);
    run' := ServerTakes(cfg, run', client, e2, h, [], READY, e3);
    processed := seen + [f] + [g] + [h];
  }

  /**
   The side condition of `BytesReadArePrefix` is needed: a client shuts its stream down and then writes `x` and
   `y`; the server's lock fails on the first, and its reader, which goes on after the end of stream, reads `y` only.
   */
  lemma LockFailureLosesBytes(cfg: Config, p: StreamPriority, x: seq<byte>, y: seq<byte>) returns (run: Steps)
    requires cfg.Valid() && cfg.client == cfg.server && Complete(cfg.server)
    requires |x| <= MAX_DATA_FRAME_PAYLOAD && |y| <= MAX_DATA_FRAME_PAYLOAD && !(y <= x + y)
    requires forall f :: f in [OpenFrame(p)] + WritesAfterShutdown(x, y) ==> Carries(cfg.server, f)
    ensures Execute(cfg, run).Some?
    ensures var net := Execute(cfg, run).value;
            && 1 in net.server.handles && net.server.handles[1].read == y
            && BytesPut(net.client, 1) == x + y
            && !(net.server.handles[1].read <= BytesPut(net.client, 1))
  {
    var c, fs := cfg.server, WritesAfterShutdown(x, y);
    var f, g, h := fs[0], fs[1], fs[2];
    assert g.data == x && h.data == y && ForReader(1, f) && ForReader(1, g) && ForReader(1, h) && f.CloseStream?;
    assert OpenFrame(p) in [OpenFrame(p)] + fs && f in [OpenFrame(p)] + fs && g in [OpenFrame(p)] + fs && h in [OpenFrame(p)] + fs;
    assert fs == [f, g, h];
    hide Execute, EncodeAll, Complete, Carries, ServerAt, ClientDone, WritesAfterShutdown, BytesPut;
    PutBytes(c, p, x, y);
    CarriesEncodable(c, [OpenFrame(p)] + fs);
    run := ClientPutsThree(cfg, p, x, y);
    var n, processed;
    run, n := ServerOpens(cfg, p, run, fs);
    run, processed := ServerSkips(cfg, p, run, ClientDone(c, p, fs), n, f, g, h);
    run := ReadPastClose(cfg, run, ClientDone(c, p, fs), p, f, h, n, EncodeAll(c, []), processed);
  }
}
