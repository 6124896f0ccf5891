/** Wire frames and stream priorities (ferrotunnel-protocol/src/frame.rs). */
module Frames {
  import opened Seqs

  type byte = b: nat | b < 256
  type u8 = n: nat | n < 256
  type u32 = n: nat | n < 0x1_0000_0000
  type u64 = n: nat | n < 0x1_0000_0000_0000_0000

  const U32_MAX: nat := 0xFFFF_FFFF

  /** A Rust `String`: the code measures it by its UTF-8 bytes, so it is those bytes. */
  type Text = seq<byte>

  type Uuid = nat

  datatype StreamPriority = Normal | Low | High | Critical

  /** Position of a priority in a drained batch: lower leaves first. */
  function DrainOrder(p: StreamPriority): (r: nat) {
    match p
    case Critical => 0
    case High => 1
    case Normal => 2
    case Low => 3
  }

  /** A frame of priority `p` may leave before one of priority `q`: Critical first, then High, Normal and Low. */
  predicate MayPrecede(p: StreamPriority, q: StreamPriority) {
    && (p.Low? ==> q.Low?)
    && (p.Normal? ==> q.Normal? || q.Low?)
    && (p.High? ==> !q.Critical?)
  }

  datatype Protocol = HTTP | HTTPS | HTTP2 | WebSocket | GRPC | TCP | QUIC

  datatype CloseReason =
    | NormalClose
    | TimeoutClose
    | ErrorClose(message: Text)
    | LocalServiceUnreachable
    | ProtocolViolation

  datatype HandshakeStatus = HandshakeOk | InvalidToken | UnsupportedVersion | VersionMismatch | RateLimited | TunnelIdTaken

  datatype RegisterStatus = RegisterOk | ServiceNameTaken | InvalidServiceName | QuotaExceeded

  datatype StreamStatus = StreamAccepted | StreamRejected | BackpressureApplied

  datatype ErrorCode =
    | ProtocolError | AuthenticationFailed | SessionNotFound | StreamNotFound | TimeoutError
    | InternalServerError | ServiceUnavailable

  datatype Frame =
    | Handshake(token: Text, tunnelId: Option<Text>, minVersion: u8, maxVersion: u8, capabilities: seq<Text>)
    | HandshakeAck(sessionId: Uuid, handshakeStatus: HandshakeStatus, version: u8, serverCapabilities: seq<Text>)
    | Register(serviceName: Text, registerProtocol: Protocol, metadata: map<Text, Text>)
    | RegisterAck(publicUrl: Text, registerStatus: RegisterStatus)
    | OpenStream(openId: u32, protocol: Protocol, headers: seq<(Text, Text)>, bodyHint: Option<u64>, priority: StreamPriority)
    | StreamAck(ackId: u32, streamStatus: StreamStatus)
    | Data(streamId: u32, data: seq<byte>, endOfStream: bool)
    | CloseStream(closeId: u32, reason: CloseReason)
    | Heartbeat(timestamp: u64)
    | HeartbeatAck(ackTimestamp: u64)
    | Error(errorStream: Option<u32>, code: ErrorCode, message: Text)
    | PluginData(pluginId: Text, pluginPayload: seq<byte>)

  /** A frame in the wire channel, with the priority that orders its batch. */
  datatype PrioritizedFrame = PF(priority: StreamPriority, frame: Frame)

  /** The stream whose traffic a frame belongs to, for the frames a multiplexer dispatches. */
  function StreamOf(f: Frame): Option<u32> {
    match f
    case OpenStream(s, _, _, _, _) => Some(s)
    case Data(s, _, _) => Some(s)
    case CloseStream(s, _) => Some(s)
    case _ => None
  }

  /** Zero-copy view of a data frame: a window of the parse buffer. */
  datatype ZeroCopyFrame = ZeroCopyData(streamId: u32, data: seq<byte>, fin: bool) {
    function ToOwned(): Frame {
      Data(streamId, data, fin)
    }
  }

  function ToOwnedAll(zs: seq<ZeroCopyFrame>): seq<Frame> {
    seq(|zs|, i requires 0 <= i < |zs| => zs[i].ToOwned())
  }
}
