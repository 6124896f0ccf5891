/**
 Two connected peers: every step either side can take on the data path, from a write on a virtual stream
 to a read on its peer. Channels are unbounded and every answer of the environment is a parameter of the
 step, so each run of the bounded, scheduled program is a run here.
 */
module Pipeline {
  import opened Seqs
  import opened Frames
  import opened Codec
  import opened BatchedSender
  import opened Multiplexing
  import opened VirtualStreams

  datatype Side = Client | Server

  function Other(side: Side): Side {
    if side.Client? then Server else Client
  }

  /** The client allocates odd stream ids, the server even ones. */
  predicate Own(side: Side, s: u32) {
    s % 2 == if side.Client? then 1 else 0
  }

  /** A virtual stream: `read` is all it ever handed out, `atClose` what that was at its first `CloseStream`. */
  datatype Handle = Handle(
    priority: StreamPriority,
    rx: nat,
    reading: ReadState,
    read: seq<byte>,
    atClose: Option<seq<byte>>,
    pending: Option<Frame>,
    alive: bool)

  /**
   One peer. Besides the program's state it carries history: `registered` (the channel each stream was given),
   `prio` (the priority a stream's frames are sent at), and the whole of what was `sent` into the wire channel,
   `emitted` by the sender, `written` to the socket and `processed` by the frame loop.
   */
  datatype Endpoint = Endpoint(
    mux: Mux,
    registered: map<u32, nat>,
    opening: set<u32>,
    handles: map<u32, Handle>,
    prio: map<u32, StreamPriority>,
    sent: seq<PrioritizedFrame>,
    taken: nat,
    emitted: seq<PrioritizedFrame>,
    written: seq<byte>,
    received: nat,
    buffer: seq<byte>,
    processed: seq<Frame>,
    faultless: bool)

  datatype Action =
    /** `open_stream_with_priority`: allocate and register, then the bounded send of `OpenStream`. */
    | AllocateStream(priority: StreamPriority)
    | OpenSent(s: u32, protocol: Protocol)
    | OpenFailed(s: u32)
    /** `poll_write` and `poll_shutdown` put a frame in flight; the bounded send then ends one way or the other. */
    | StartWrite(s: u32, buf: seq<byte>)
    | StartShutdown(s: u32)
    | SendDone(s: u32)
    | SendAborted(s: u32)
    /** Heartbeats, acknowledgements and the like. */
    | SendControl(priority: StreamPriority, f: Frame)
    /** The batched sender takes `n` frames, and the socket accepts some bytes. */
    | SendBatch(n: nat)
    | SocketWrite(k: nat)
    /** Some bytes arrive; the frame loop decodes one frame and dispatches it, or denies an `OpenStream`. */
    | Receive(k: nat)
    | Dispatch(env: Env)
    | DenyOpen(closeSent: bool)
    /** `poll_read`, and dropping the stream. */
    | Read(s: u32, cap: nat, disconnected: bool)
    | DropStream(s: u32)

  function NewHandle(p: StreamPriority, rx: nat): Handle {
    Handle(p, rx, ReadState(0, []), [], None, None, true)
  }

  function Start(side: Side): Endpoint {
    Endpoint(NewMux(side.Client?), map[], {}, map[], map[], [], 0, [], [], 0, [], [], true)
  }

  // ---------------------------------------------------------------------------------------------
  // The effect of each action
  // ---------------------------------------------------------------------------------------------

  function Put(e: Endpoint, x: PrioritizedFrame): Endpoint {
    e.(sent := e.sent + [x])
  }

  function SetHandle(e: Endpoint, s: u32, h: Handle): Endpoint {
    e.(handles := e.handles[s := h])
  }

  function DoAllocate(e: Endpoint, p: StreamPriority): Endpoint
    requires CanAllocate(e.mux)
  {
    var s := e.mux.nextId;
    e.(mux := RegisterStream(Allocate(e.mux), s, p),
       registered := e.registered[s := |e.mux.chans|],
       opening := e.opening + {s},
       prio := e.prio[s := p])
  }

  predicate CanOpen(e: Endpoint, s: u32) {
    s in e.opening && s in e.registered && s in e.prio
  }

  function DoOpenSent(e: Endpoint, s: u32, protocol: Protocol): Endpoint
    requires CanOpen(e, s)
  {
    e.(opening := e.opening - {s},
       handles := e.handles[s := NewHandle(e.prio[s], e.registered[s])],
       sent := e.sent + [PF(e.prio[s], OpenStream(s, protocol, [], None, e.prio[s]))])
  }

  function DoOpenFailed(e: Endpoint, s: u32): Endpoint
    requires CanOpen(e, s)
  {
    e.(opening := e.opening - {s},
       mux := e.mux.(chans := Kill(e.mux.chans, e.registered[s])))
  }

  predicate Live(e: Endpoint, s: u32) {
    s in e.handles && e.handles[s].alive
  }

  function DoStart(e: Endpoint, s: u32, f: Frame): Endpoint
    requires Live(e, s)
  {
    SetHandle(e, s, e.handles[s].(pending := Some(f)))
  }

  function DoSendDone(e: Endpoint, s: u32): Endpoint
    requires Live(e, s) && e.handles[s].pending.Some?
  {
    Put(SetHandle(e, s, e.handles[s].(pending := None)), PF(e.handles[s].priority, e.handles[s].pending.value))
  }

  function DoSendAborted(e: Endpoint, s: u32): Endpoint
    requires Live(e, s)
  {
    SetHandle(e, s, e.handles[s].(pending := None))
  }

  function WireBytes(c: TunnelCodec, e: Endpoint): seq<byte>
    requires c.Valid()
  {
    EncodeAll(c, FramesOf(e.emitted))
  }

  predicate CanBatch(c: TunnelCodec, e: Endpoint, n: nat)
    requires c.Valid()
  {
    1 <= n <= MAX_BATCH_SIZE && e.taken + n <= |e.sent| && e.written == WireBytes(c, e)
  }

  function DoBatch(c: TunnelCodec, e: Endpoint, n: nat): Endpoint
    requires c.Valid() && CanBatch(c, e, n)
  {
    e.(taken := e.taken + n, emitted := e.emitted + EmitBatch(c, e.sent[e.taken..e.taken + n]))
  }

  predicate CanWrite(c: TunnelCodec, e: Endpoint, k: nat)
    requires c.Valid()
  {
    1 <= k && |e.written| + k <= |WireBytes(c, e)|
  }

  function DoSocketWrite(c: TunnelCodec, e: Endpoint, k: nat): Endpoint
    requires c.Valid() && CanWrite(c, e, k)
  {
    e.(written := WireBytes(c, e)[..|e.written| + k])
  }

  predicate CanReceive(e: Endpoint, peer: Endpoint, k: nat) {
    e.received + k <= |peer.written|
  }

  function DoReceive(e: Endpoint, peer: Endpoint, k: nat): Endpoint
    requires CanReceive(e, peer, k)
  {
    e.(received := e.received + k, buffer := e.buffer + peer.written[e.received..e.received + k])
  }

  /** Dispatch of a decoded frame; an `OpenStream` that registers a stream and is queued yields its handle. */
  function DoDispatch(e: Endpoint, f: Frame, rest: seq<byte>, env: Env): Endpoint {
    var e' := e.(buffer := rest, processed := e.processed + [f],
                 mux := ProcessFrame(e.mux, f, env),
                 faultless := e.faultless && env.firstLock && env.secondLock);
    if f.OpenStream? && f.openId !in e.mux.streams then
      var s, h := f.openId, |e.mux.chans|;
      if env.queued then
        e'.(registered := e.registered[s := h], handles := e.handles[s := NewHandle(f.priority, h)],
            prio := e.prio[s := f.priority])
      else e'.(registered := e.registered[s := h])
    else e'
  }

  const RATE_LIMITED: Text := [114, 97, 116, 101, 32, 108, 105, 109, 105, 116, 101, 100]

  /** The server's over-limit branch: the stream is not opened, and a `CloseStream` is sent back, best effort. */
  function DoDeny(e: Endpoint, s: u32, f: Frame, rest: seq<byte>, closeSent: bool): Endpoint {
    var e' := e.(buffer := rest, processed := e.processed + [f]);
    if closeSent then
      var close := CloseStream(s, ErrorClose(RATE_LIMITED));
      var p := PriorityFor(e.mux, close);
      Put(e'.(prio := e.prio[s := p]), PF(p, close))
    else e'
  }

  predicate CanRead(e: Endpoint, s: u32) {
    Live(e, s) && e.handles[s].rx < |e.mux.chans|
  }

  function DoRead(e: Endpoint, s: u32, cap: nat, disconnected: bool): Endpoint
    requires CanRead(e, s)
  {
    var h := e.handles[s];
    var log := e.mux.chans[h.rx].log;
    var (st, poll) := PollRead(log, h.reading, cap, disconnected);
    var closing := st.consumed == h.reading.consumed + 1 && h.reading.consumed < |log| && log[h.reading.consumed].CloseStream?;
    SetHandle(e, s, h.(reading := st, read := h.read + BytesOf(poll),
                       atClose := if closing && h.atClose.None? then Some(h.read) else h.atClose))
  }

  function DoDrop(e: Endpoint, s: u32): Endpoint
    requires Live(e, s)
  {
    SetHandle(e, s, e.handles[s].(alive := false, pending := None))
      .(mux := e.mux.(chans := Kill(e.mux.chans, e.handles[s].rx)))
  }

  // ---------------------------------------------------------------------------------------------
  // Runs
  // ---------------------------------------------------------------------------------------------

  predicate Enabled(c: TunnelCodec, e: Endpoint, peer: Endpoint, a: Action)
    requires c.Valid()
  {
    match a
    case AllocateStream(p) => CanAllocate(e.mux)
    case OpenSent(s, _) => CanOpen(e, s)
    case OpenFailed(s) => CanOpen(e, s)
    case StartWrite(s, _) => Live(e, s) && e.handles[s].pending.None?
    case StartShutdown(s) => Live(e, s) && e.handles[s].pending.None?
    case SendDone(s) => Live(e, s) && e.handles[s].pending.Some?
    case SendAborted(s) => Live(e, s) && e.handles[s].pending.Some?
    case SendControl(_, f) => StreamOf(f).None?
    case SendBatch(n) => CanBatch(c, e, n)
    case SocketWrite(k) => CanWrite(c, e, k)
    case Receive(k) => CanReceive(e, peer, k)
    case Dispatch(_) => DecodeOne(c, e.buffer).Got?
    case DenyOpen(_) => DecodeOne(c, e.buffer).Got? && DecodeOne(c, e.buffer).frame.OpenStream?
    case Read(s, _, _) => CanRead(e, s)
    case DropStream(s) => Live(e, s)
  }

  function Apply(c: TunnelCodec, e: Endpoint, peer: Endpoint, a: Action): Endpoint
    requires c.Valid() && Enabled(c, e, peer, a)
  {
    match a
    case AllocateStream(p) => DoAllocate(e, p)
    case OpenSent(s, protocol) => DoOpenSent(e, s, protocol)
    case OpenFailed(s) => DoOpenFailed(e, s)
    case StartWrite(s, buf) => DoStart(e, s, WriteFrame(s, buf))
    case StartShutdown(s) => DoStart(e, s, ShutdownFrame(s))
    case SendDone(s) => DoSendDone(e, s)
    case SendAborted(s) => DoSendAborted(e, s)
    case SendControl(p, f) => Put(e, PF(p, f))
    case SendBatch(n) => DoBatch(c, e, n)
    case SocketWrite(k) => DoSocketWrite(c, e, k)
    case Receive(k) => DoReceive(e, peer, k)
    case Dispatch(env) => DoDispatch(e, DecodeOne(c, e.buffer).frame, DecodeOne(c, e.buffer).rest, env)
    case DenyOpen(closeSent) =>
      var one := DecodeOne(c, e.buffer);
      DoDeny(e, one.frame.openId, one.frame, one.rest, closeSent)
    case Read(s, cap, disconnected) => DoRead(e, s, cap, disconnected)
    case DropStream(s) => DoDrop(e, s)
  }

  /** The two peers' codecs; they may differ in their limits. */
  datatype Config = Config(client: TunnelCodec, server: TunnelCodec) {
    function At(side: Side): TunnelCodec {
      if side.Client? then client else server
    }

    /** The two ends share one faithful serializer. */
    ghost predicate Valid() {
      && client.Valid() && server.Valid()
      && client.bincode == server.bincode && Faithful(client.bincode)
    }
  }

  datatype Net = Net(client: Endpoint, server: Endpoint) {
    function At(side: Side): Endpoint {
      if side.Client? then client else server
    }

    function With(side: Side, e: Endpoint): Net {
      if side.Client? then Net(e, server) else Net(client, e)
    }
  }

  const START := Net(Start(Client), Start(Server))

  function Step(cfg: Config, net: Net, side: Side, a: Action): Option<Net>
    requires cfg.client.Valid() && cfg.server.Valid()
  {
    var c, e, peer := cfg.At(side), net.At(side), net.At(Other(side));
    if Enabled(c, e, peer, a) then Some(net.With(side, Apply(c, e, peer, a))) else None
  }

  /** The state after taking the steps of `run` from the start, if every one of them was possible. */
  function Execute(cfg: Config, run: seq<(Side, Action)>): Option<Net>
    requires cfg.client.Valid() && cfg.server.Valid()
  {
    if run == [] then Some(START)
    else
      var last := run[|run| - 1];
      match Execute(cfg, run[..|run| - 1])
      case None => None
      case Some(net) => Step(cfg, net, last.0, last.1)
  }
}
