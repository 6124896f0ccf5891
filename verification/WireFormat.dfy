/**
 The wire format by itself (ferrotunnel-protocol/src/codec.rs): four big-endian length bytes, a type byte, and a data
 or bincode payload. Encoder and decoders are proved against this layout, byte by byte.
 */
module WireFormat {
  import opened Seqs
  import opened Frames
  import opened Validation
  import opened Codec
  import opened CodecOps

  /** `n` as four bytes, the most significant first. */
  ghost predicate BigEndian(n: nat, bytes: seq<byte>) {
    |bytes| == 4 && n == ((bytes[0] as int * 256 + bytes[1] as int) * 256 + bytes[2] as int) * 256 + bytes[3] as int
  }

  /** A data frame: type 1, the stream id, a flag byte whose lowest bit ends the stream, and the payload. */
  ghost predicate DataBody(body: seq<byte>, s: u32, data: seq<byte>, eos: bool) {
    |body| >= 6 && body[0] == 1 && BigEndian(s, body[1..5]) && (eos <==> body[5] % 2 == 1) && body[6..] == data
  }

  /** A whole frame at the front of a buffer: its length, then its type byte and payload. */
  ghost predicate FrameAt(src: seq<byte>, body: seq<byte>, rest: seq<byte>) {
    |src| == 4 + |body| + |rest| && BigEndian(|body|, src[..4]) && src[4..4 + |body|] == body && src[4 + |body|..] == rest
  }

  lemma GetIsBigEndian(src: seq<byte>)
    requires |src| >= 4
    ensures BigEndian(GetU32(src), src[..4])
  {
  }

  lemma BigEndianUnique(m: nat, n: nat, bytes: seq<byte>)
    requires BigEndian(m, bytes) && BigEndian(n, bytes)
    ensures m == n
  {
  }

  lemma PutIsBigEndian(n: u32)
    ensures BigEndian(n, PutU32(n))
  {
    U32RoundTrip(n, []);
    assert PutU32(n) + [] == PutU32(n) && PutU32(n)[..4] == PutU32(n);
  }

  /** An encoded frame has this layout: a data frame its fields, any other frame its serialization under type 0. */
  lemma EncodedLayout(c: TunnelCodec, f: Frame)
    requires c.Valid() && FrameFits(c, f)
    ensures Encode(c, f).Ok?
    ensures var wire := Encode(c, f).value;
            && |wire| >= 5 && FrameAt(wire, wire[4..], [])
            && (if f.Data? then DataBody(wire[4..], f.streamId, f.data, f.endOfStream) && wire[9] <= 1
                else wire[4..] == [0] + c.bincode.ser(f).value)
  {
    EncodeIff(c, f);
    var wire := Encode(c, f).value;
    if f.Data? {
      var payload := PutU32(f.streamId) + [FlagByte(f.endOfStream)] + f.data;
      FramedLayout(1, payload);
      DataLayout(f.streamId, f.endOfStream, f.data);
      assert wire[9] == wire[4..][5];
    } else {
      FramedLayout(0, c.bincode.ser(f).value);
    }
  }

  lemma FramedLayout(frameType: byte, payload: seq<byte>)
    requires 1 + |payload| <= U32_MAX
    ensures var wire := Framed(1 + |payload|, frameType, payload);
            |wire| == 5 + |payload| && wire[4..] == [frameType] + payload && FrameAt(wire, wire[4..], [])
  {
    var n := 1 + |payload|;
    var wire := Framed(n, frameType, payload);
    PutIsBigEndian(n);
    assert wire[..4] == PutU32(n) && wire[4..4 + n] == wire[4..] == [frameType] + payload;
  }

  lemma DataLayout(s: u32, eos: bool, data: seq<byte>)
    ensures var body := [1] + (PutU32(s) + [FlagByte(eos)] + data);
            DataBody(body, s, data, eos) && body[5] <= 1
  {
    var body := [1] + (PutU32(s) + [FlagByte(eos)] + data);
    PutIsBigEndian(s);
    hide PutU32, BigEndian;
    assert body[1..5] == PutU32(s) && body[5] == FlagByte(eos) && body[6..] == data;
  }

  /**
   What a decoder does with the length bytes alone: it waits for five bytes, refuses a length of zero or above its
   limit without consuming anything, and otherwise waits for the whole frame.
   */
  lemma HeaderOutcome(c: TunnelCodec, src: seq<byte>, length: nat)
    requires c.Valid() && (|src| >= 5 ==> BigEndian(length, src[..4]))
    ensures DecodeOne(c, src).NeedMore? <==> |src| < 5 || (1 <= length <= c.maxFrameSize && |src| < 4 + length)
    ensures DecodeOne(c, src) == Failed(ZeroLength, src) <==> |src| >= 5 && length == 0
    ensures DecodeOne(c, src) == Failed(TooLarge(length), src) <==> |src| >= 5 && length > c.maxFrameSize
    ensures ZeroCopyOne(c, src).Incomplete? <==> DecodeOne(c, src).NeedMore?
    ensures |src| >= 5 && (length == 0 || length > c.maxFrameSize) ==> ZeroCopyOne(c, src) == Bad(InvalidLength(length))
  {
    if |src| >= 5 {
      GetIsBigEndian(src);
      BigEndianUnique(length, GetU32(src), src[..4]);
      hide GetU32, DecodeBody, BigEndian;
      if SplitFrame(c.maxFrameSize, src).Cut? {
        BodyErrors(c, SplitFrame(c.maxFrameSize, src).body);
      }
    }
  }

  lemma BodyErrors(c: TunnelCodec, body: seq<byte>)
    requires |body| >= 1
    ensures DecodeBody(c, body).Err? ==> !DecodeBody(c, body).error.ZeroLength? && !DecodeBody(c, body).error.TooLarge?
  {
  }

  lemma FrameAtSplits(max: nat, src: seq<byte>, body: seq<byte>, rest: seq<byte>)
    requires FrameAt(src, body, rest) && 1 <= |body| <= max
    ensures SplitFrame(max, src) == Cut(body, rest)
  {
    GetIsBigEndian(src);
    BigEndianUnique(|body|, GetU32(src), src[..4]);
    hide GetU32, BigEndian;
  }

  /** A buffer past its header checks is a whole frame and a rest. */
  lemma FrameIsThere(src: seq<byte>, length: nat)
    requires |src| >= 5 && BigEndian(length, src[..4]) && 1 <= length && 4 + length <= |src|
    ensures FrameAt(src, src[4..4 + length], src[4 + length..])
  {
  }

  /**
   What a decoder makes of a whole frame, which it always consumes: data under type 1, if the six bytes before the
   payload are there; under type 0 what bincode reads, if that is all of the body and within the limits; else nothing.
   */
  lemma FrameOutcome(c: TunnelCodec, src: seq<byte>, body: seq<byte>, rest: seq<byte>)
    requires c.Valid() && FrameAt(src, body, rest) && 1 <= |body| <= c.maxFrameSize
    ensures !DecodeOne(c, src).NeedMore? && DecodeOne(c, src).rest == rest
    ensures body[0] == 1 && |body| >= 6 ==>
      var one := DecodeOne(c, src);
      one.Got? && one.frame.Data? && DataBody(body, one.frame.streamId, one.frame.data, one.frame.endOfStream)
    ensures body[0] == 1 && |body| < 6 ==> DecodeOne(c, src) == Failed(DataTooShort, rest)
    ensures body[0] == 0 ==>
      DecodeOne(c, src) == match c.bincode.de(body[1..], DecodeLimit(|body| - 1))
                           case None => Failed(Undecodable, rest)
                           case Some((f, n)) =>
                             if n != |body| - 1 then Failed(TrailingBytes(n, |body| - 1), rest)
                             else match ValidateFrame(f, c.limits)
                                  case Some(cause) => Failed(InvalidFrame(cause), rest)
                                  case None => Got(f, rest)
    ensures body[0] > 1 ==> DecodeOne(c, src) == Failed(UnknownType(body[0]), rest)
  {
    FrameAtSplits(c.maxFrameSize, src, body, rest);
    hide SplitFrame, FrameAt;
    if body[0] == 1 && |body| >= 6 {
      GetIsBigEndian(body[1..]);
      assert body[1..][..4] == body[1..5] && body[1..][5..] == body[6..];
    }
  }

  /** A control frame with anything behind its serialization is refused, and none with nothing behind it. */
  lemma TrailingBytesRefused(c: TunnelCodec, src: seq<byte>, body: seq<byte>, rest: seq<byte>, f: Frame, n: nat)
    requires c.Valid() && FrameAt(src, body, rest) && 1 <= |body| <= c.maxFrameSize && body[0] == 0
    requires c.bincode.de(body[1..], DecodeLimit(|body| - 1)) == Some((f, n))
    ensures DecodeOne(c, src) == Got(f, rest) <==> n == |body| - 1 && Bounded(f, c.limits)
  {
    FrameOutcome(c, src, body, rest);
    ValidateIffBounded(f, c.limits);
  }

  /** The zero-copy parser, on a whole frame: the same data, or the same complaint; anything but data is stepped over. */
  lemma ZeroCopyOutcome(c: TunnelCodec, src: seq<byte>, body: seq<byte>, rest: seq<byte>)
    requires c.Valid() && FrameAt(src, body, rest) && 1 <= |body| <= c.maxFrameSize
    ensures body[0] == 1 && |body| >= 6 ==>
      var step := ZeroCopyOne(c, src);
      step.Whole? && step.rest == rest && |step.found| == 1
      && DataBody(body, step.found[0].streamId, step.found[0].data, step.found[0].fin)
    ensures body[0] == 1 && |body| < 6 ==> ZeroCopyOne(c, src) == Bad(PayloadTooShort)
    ensures body[0] != 1 ==> ZeroCopyOne(c, src) == Whole([], rest)
  {
    FrameAtSplits(c.maxFrameSize, src, body, rest);
    hide SplitFrame, FrameAt;
    if body[0] == 1 && |body| >= 6 {
      GetIsBigEndian(body[1..]);
      assert body[1..][..4] == body[1..5];
    }
  }

  // ---------------------------------------------------------------------------------------------
  // What a rejection means
  // ---------------------------------------------------------------------------------------------

  /** The part of the frame a rejection names is over its limit. */
  ghost predicate Violates(f: Frame, l: ValidationLimits, e: ValidationError) {
    match e
    case TokenTooLong => f.Handshake? && |f.token| > l.maxTokenLen
    case InvalidVersionRange => f.Handshake? && f.minVersion > f.maxVersion
    case TooManyCapabilities => CapabilitiesOf(f).Some? && |CapabilitiesOf(f).value| > l.maxCapabilities
    case CapabilityTooLong =>
      CapabilitiesOf(f).Some? && exists i :: 0 <= i < |CapabilitiesOf(f).value| && |CapabilitiesOf(f).value[i]| > l.maxCapabilityLen
    case PayloadTooLarge =>
      (f.Data? && |f.data| > l.maxPayloadBytes) || (f.PluginData? && |f.pluginPayload| > l.maxPayloadBytes)
    case TooManyEntries =>
      (f.Register? && |f.metadata| > l.maxMetadataEntries) || (f.OpenStream? && |f.headers| > l.maxHeaders)
    case FieldTooLong => LongField(f, l)
  }

  ghost predicate LongField(f: Frame, l: ValidationLimits) {
    match f
    case Handshake(_, tunnelId, _, _, _) => tunnelId.Some? && |tunnelId.value| > l.maxNameLen
    case Register(name, _, metadata) =>
      || |name| > l.maxNameLen
      || exists k :: k in metadata && (|k| > l.maxNameLen || |metadata[k]| > l.maxMetadataValueLen)
    case RegisterAck(url, _) => |url| > l.maxUrlLen
    case OpenStream(_, _, headers, _, _) =>
      exists i :: 0 <= i < |headers| && (|headers[i].0| > l.maxHeaderLen || |headers[i].1| > l.maxHeaderLen)
    case CloseStream(_, reason) => reason.ErrorClose? && |reason.message| > l.maxErrorMessageLen
    case Error(_, _, message) => |message| > l.maxErrorMessageLen
    case PluginData(id, _) => |id| > l.maxNameLen
    case _ => false
  }

  function CapabilitiesOf(f: Frame): Option<seq<Text>> {
    match f
    case Handshake(_, _, _, _, caps) => Some(caps)
    case HandshakeAck(_, _, _, caps) => Some(caps)
    case _ => None
  }

  lemma {:induction false} ScanKinds(caps: seq<Text>, hs: seq<(Text, Text)>, l: ValidationLimits)
    ensures ScanCapabilities(caps, l) in {None, Some(CapabilityTooLong)} && ScanHeaders(hs, l) in {None, Some(FieldTooLong)}
    decreases |caps| + |hs|
  {
    if caps == [] && hs == [] {
    } else if caps == [] {
      ScanKinds(caps, hs[1..], l);
    } else {
      ScanKinds(caps[1..], hs, l);
    }
  }

  /** A rejection always names something the frame really violates. */
  lemma RejectionIsTrue(f: Frame, l: ValidationLimits)
    ensures ValidateFrame(f, l).Some? ==> Violates(f, l, ValidateFrame(f, l).value)
  {
    match f
    case Handshake(_, _, _, _, caps) =>
      ScanCapabilitiesIff(caps, l);
      ScanKinds(caps, [], l);
    case HandshakeAck(_, _, _, caps) =>
      ScanCapabilitiesIff(caps, l);
      ScanKinds(caps, [], l);
    case OpenStream(_, _, headers, _, _) =>
      ScanHeadersIff(headers, l);
      ScanKinds([], headers, l);
    case _ =>
  }
}
