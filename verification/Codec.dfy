/**
 Length-delimited framing (ferrotunnel-protocol/src/codec.rs).

 The bincode serializer is a parameter of the codec: a pair of functions constrained only by
 the two hypotheses `Faithful` and `Complete`.
 */
module Codec {
  import opened Seqs
  import opened Frames
  import opened Validation

  const HEADER_SIZE: nat := 5
  const MAX_FRAME_SIZE: nat := 16 * 1024 * 1024
  const CONTROL_DECODE_HEADROOM: nat := 64 * 1024
  const USIZE_MAX: nat := 0xFFFF_FFFF_FFFF_FFFF

  const FRAME_TYPE_CONTROL: byte := 0
  const FRAME_TYPE_DATA: byte := 1
  const FLAG_EOS: byte := 1

  /** `ser` may refuse a frame; `de` gets the bytes and the allocation limit, and says how much it read. */
  datatype Bincode = Bincode(ser: Frame -> Option<seq<byte>>, de: (seq<byte>, nat) -> Option<(Frame, nat)>)

  datatype TunnelCodec = TunnelCodec(maxFrameSize: nat, limits: ValidationLimits, bincode: Bincode) {
    /** The contract every constructor asserts. */
    predicate Valid() {
      1 <= maxFrameSize <= MAX_FRAME_SIZE
    }
  }

  datatype DecodeError =
    | ZeroLength
    | TooLarge(length: nat)
    | DataTooShort
    | UnknownType(frameType: byte)
    | Undecodable
    | TrailingBytes(consumed: nat, total: nat)
    | InvalidFrame(cause: ValidationError)

  datatype EncodeError = FrameTooLarge(length: nat) | SerializeFailed

  // ---------------------------------------------------------------------------------------------
  // Big-endian integers
  // ---------------------------------------------------------------------------------------------

  function PutU32(n: u32): (r: seq<byte>)
    ensures |r| == 4
  {
    var hi, lo := n / 0x1_0000, n % 0x1_0000;
    [hi / 256, hi % 256, lo / 256, lo % 256]
  }

  function GetU32(s: seq<byte>): (n: u32)
    requires |s| >= 4
  {
    s[0] as int * 0x100_0000 + s[1] as int * 0x1_0000 + s[2] as int * 256 + s[3] as int
  }

  lemma U32RoundTrip(n: u32, rest: seq<byte>)
    ensures GetU32(PutU32(n) + rest) == n
  {
    var s := PutU32(n) + rest;
    var hi, lo := n / 0x1_0000, n % 0x1_0000;
    assert s[0] as int * 256 + s[1] as int == hi && s[2] as int * 256 + s[3] as int == lo;
  }

  // ---------------------------------------------------------------------------------------------
  // The allocation budget of a control frame
  // ---------------------------------------------------------------------------------------------

  /** The first doubling of `p` that reaches `n`. */
  function NextPowerOfTwo(n: nat, p: nat): (r: nat)
    requires p > 0
    ensures n <= r && p <= r
    decreases n - p
  {
    if n <= p then p else NextPowerOfTwo(n, 2 * p)
  }

  function Budget(len: nat): nat {
    var wanted := Min(len + CONTROL_DECODE_HEADROOM, USIZE_MAX);
    var rounded := NextPowerOfTwo(wanted, 1);
    Min(if rounded <= USIZE_MAX then rounded else MAX_FRAME_SIZE, MAX_FRAME_SIZE)
  }

  /** The const-generic limit the ladder selects for a control body of `len` bytes. */
  function DecodeLimit(len: nat): nat {
    var b := Budget(len);
    if b <= 0x2_0000 then 0x2_0000
    else if b <= 0x4_0000 then 0x4_0000
    else if b <= 0x8_0000 then 0x8_0000
    else if b <= 0x10_0000 then 0x10_0000
    else if b <= 0x20_0000 then 0x20_0000
    else if b <= 0x40_0000 then 0x40_0000
    else if b <= 0x80_0000 then 0x80_0000
    else MAX_FRAME_SIZE
  }

  /** The power of two that a size from 64 KiB to 16 MiB rounds up to. */
  function Rung(x: nat): nat {
    if x <= 0x1_0000 then 0x1_0000
    else if x <= 0x2_0000 then 0x2_0000
    else if x <= 0x4_0000 then 0x4_0000
    else if x <= 0x8_0000 then 0x8_0000
    else if x <= 0x10_0000 then 0x10_0000
    else if x <= 0x20_0000 then 0x20_0000
    else if x <= 0x40_0000 then 0x40_0000
    else if x <= 0x80_0000 then 0x80_0000
    else 0x100_0000
  }

  lemma DoublingSkips(x: nat, p: nat)
    requires 0 < p < x
    ensures NextPowerOfTwo(x, p) == NextPowerOfTwo(x, 2 * p)
  {
  }

  lemma RoundsToRung(x: nat)
    requires 0x1_0000 <= x <= 0x100_0000
    ensures NextPowerOfTwo(x, 1) == Rung(x)
  {
    DoublingSkips(x, 1); DoublingSkips(x, 2); DoublingSkips(x, 4); DoublingSkips(x, 8);
    DoublingSkips(x, 0x10); DoublingSkips(x, 0x20); DoublingSkips(x, 0x40); DoublingSkips(x, 0x80);
    DoublingSkips(x, 0x100); DoublingSkips(x, 0x200); DoublingSkips(x, 0x400); DoublingSkips(x, 0x800);
    DoublingSkips(x, 0x1000); DoublingSkips(x, 0x2000); DoublingSkips(x, 0x4000); DoublingSkips(x, 0x8000);
    if x > 0x1_0000 { DoublingSkips(x, 0x1_0000); }
    if x > 0x2_0000 { DoublingSkips(x, 0x2_0000); }
    if x > 0x4_0000 { DoublingSkips(x, 0x4_0000); }
    if x > 0x8_0000 { DoublingSkips(x, 0x8_0000); }
    if x > 0x10_0000 { DoublingSkips(x, 0x10_0000); }
    if x > 0x20_0000 { DoublingSkips(x, 0x20_0000); }
    if x > 0x40_0000 { DoublingSkips(x, 0x40_0000); }
    if x > 0x80_0000 { DoublingSkips(x, 0x80_0000); }
  }

  lemma DecodeLimitClosedForm(len: nat)
    ensures len + CONTROL_DECODE_HEADROOM <= MAX_FRAME_SIZE ==>
      DecodeLimit(len) == Max(0x2_0000, Rung(len + CONTROL_DECODE_HEADROOM))
    ensures len + CONTROL_DECODE_HEADROOM > MAX_FRAME_SIZE ==> DecodeLimit(len) == MAX_FRAME_SIZE
  {
    if len + CONTROL_DECODE_HEADROOM <= MAX_FRAME_SIZE {
      RoundsToRung(len + CONTROL_DECODE_HEADROOM);
    }
  }

  /**
   Every control body keeps its headroom (up to the protocol ceiling) while the allocation it can
   force stays within twice its own size plus the headroom, and never above the ceiling.
   */
  lemma DecodeLimitTracksLength(len: nat)
    ensures Min(len + 0x1_0000, 0x100_0000) <= DecodeLimit(len) <= 0x100_0000
    ensures DecodeLimit(len) <= 2 * (len + 0x1_0000)
  {
    DecodeLimitClosedForm(len);
  }

  lemma DecodeLimitMonotone(m: nat, n: nat)
    requires m <= n
    ensures DecodeLimit(m) <= DecodeLimit(n)
  {
    DecodeLimitClosedForm(m);
    DecodeLimitClosedForm(n);
  }

  // ---------------------------------------------------------------------------------------------
  // Encoding and decoding one frame
  // ---------------------------------------------------------------------------------------------

  function Framed(payloadLen: u32, frameType: byte, payload: seq<byte>): seq<byte> {
    PutU32(payloadLen) + [frameType] + payload
  }

  function FlagByte(endOfStream: bool): byte {
    if endOfStream then FLAG_EOS else 0
  }

  function Encode(c: TunnelCodec, f: Frame): (r: Result<seq<byte>, EncodeError>)
    requires c.Valid()
  {
    if f.Data? then
      var payloadLen := 6 + |f.data|;
      if payloadLen > c.maxFrameSize then Err(FrameTooLarge(payloadLen))
      else Ok(Framed(payloadLen, FRAME_TYPE_DATA, PutU32(f.streamId) + [FlagByte(f.endOfStream)] + f.data))
    else
      match c.bincode.ser(f)
      case None => Err(SerializeFailed)
      case Some(bytes) =>
        var payloadLen := 1 + |bytes|;
        if payloadLen > c.maxFrameSize then Err(FrameTooLarge(payloadLen))
        else Ok(Framed(payloadLen, FRAME_TYPE_CONTROL, bytes))
  }

  /** A frame that can be sent: data that fits with its header, or anything else that serializes and fits. */
  predicate FrameFits(c: TunnelCodec, f: Frame) {
    if f.Data? then 6 + |f.data| <= c.maxFrameSize
    else c.bincode.ser(f).Some? && 1 + |c.bincode.ser(f).value| <= c.maxFrameSize
  }

  /** The encoder takes exactly the frames that fit; it says which of the two obstacles it met, and by how much. */
  lemma EncodeIff(c: TunnelCodec, f: Frame)
    requires c.Valid()
    ensures Encode(c, f).Ok? <==> FrameFits(c, f)
    ensures Encode(c, f) == Err(SerializeFailed) <==> !f.Data? && c.bincode.ser(f).None?
    ensures Encode(c, f).Err? && Encode(c, f).error.FrameTooLarge? <==> !FrameFits(c, f) && (f.Data? || c.bincode.ser(f).Some?)
    ensures Encode(c, f).Err? && Encode(c, f).error.FrameTooLarge? ==>
      Encode(c, f).error.length == if f.Data? then 6 + |f.data| else 1 + |c.bincode.ser(f).value|
  {
  }

  function DecodeControl(c: TunnelCodec, bytes: seq<byte>): Result<Frame, DecodeError> {
    match c.bincode.de(bytes, DecodeLimit(|bytes|))
    case None => Err(Undecodable)
    case Some((f, consumed)) =>
      if consumed != |bytes| then Err(TrailingBytes(consumed, |bytes|)) else Ok(f)
  }

  /** Parse the type byte and payload of a complete frame. */
  function DecodeBody(c: TunnelCodec, body: seq<byte>): Result<Frame, DecodeError>
    requires |body| >= 1
  {
    var t, payload := body[0], body[1..];
    if t == FRAME_TYPE_DATA then
      if |payload| < 5 then Err(DataTooShort)
      else Ok(Data(GetU32(payload), payload[5..], payload[4] % 2 == 1))
    else if t == FRAME_TYPE_CONTROL then
      match DecodeControl(c, payload)
      case Err(e) => Err(e)
      case Ok(f) =>
        match ValidateFrame(f, c.limits)
        case Some(cause) => Err(InvalidFrame(cause))
        case None => Ok(f)
    else Err(UnknownType(t))
  }

  /** What one `decode` call does to the buffer it is given. */
  datatype Decoded =
    | NeedMore
    | Got(frame: Frame, rest: seq<byte>)
    | Failed(error: DecodeError, rest: seq<byte>)

  /** Cutting the first frame off a buffer by its length prefix: `body` is the type byte and the payload. */
  datatype Split = Short | BadLength(length: nat) | Cut(body: seq<byte>, rest: seq<byte>)

  function SplitFrame(max: nat, src: seq<byte>): (r: Split)
    ensures r.Cut? ==> 1 <= |r.body| <= max && |r.body| + 4 + |r.rest| == |src|
  {
    if |src| < HEADER_SIZE then Short
    else
      var length := GetU32(src);
      if length == 0 || length > max then BadLength(length)
      else if |src| < 4 + length then Short
      else Cut(src[4..4 + length], src[4 + length..])
  }

  function DecodeOne(c: TunnelCodec, src: seq<byte>): (r: Decoded)
    ensures r.Got? ==> |r.rest| < |src|
  {
    match SplitFrame(c.maxFrameSize, src)
    case Short => NeedMore
    case BadLength(length) => Failed(if length == 0 then ZeroLength else TooLarge(length), src)
    case Cut(body, rest) =>
      match DecodeBody(c, body)
      case Ok(f) => Got(f, rest)
      case Err(e) => Failed(e, rest)
  }

  // ---------------------------------------------------------------------------------------------
  // What is assumed of bincode
  // ---------------------------------------------------------------------------------------------

  /** Reading back a serialized frame gives that frame and all of its bytes, or an error. */
  ghost predicate Faithful(b: Bincode) {
    forall f: Frame, limit: nat :: b.ser(f).Some? ==>
      var bytes := b.ser(f).value;
      b.de(bytes, limit) == None || b.de(bytes, limit) == Some((f, |bytes|))
  }

  /** A valid frame is read back under any limit that leaves it the documented headroom. */
  ghost predicate Complete(c: TunnelCodec) {
    forall f: Frame, limit: nat :: c.bincode.ser(f).Some? && ValidateFrame(f, c.limits).None? ==>
      var bytes := c.bincode.ser(f).value;
      limit >= Min(|bytes| + CONTROL_DECODE_HEADROOM, MAX_FRAME_SIZE) ==>
        c.bincode.de(bytes, limit) == Some((f, |bytes|))
  }

  // ---------------------------------------------------------------------------------------------
  // One frame: round trip
  // ---------------------------------------------------------------------------------------------

  lemma SplitFramed(max: nat, frameType: byte, payload: seq<byte>, rest: seq<byte>)
    requires 1 + |payload| <= max <= MAX_FRAME_SIZE
    ensures SplitFrame(max, Framed(1 + |payload|, frameType, payload) + rest) == Cut([frameType] + payload, rest)
  {
    var n: u32 := 1 + |payload|;
    var src := Framed(n, frameType, payload) + rest;
    assert src == PutU32(n) + ([frameType] + payload + rest);
    U32RoundTrip(n, [frameType] + payload + rest);
    assert src[4..4 + n] == [frameType] + payload;
    assert src[4 + n..] == rest;
  }

  /** The decoder sees exactly the body the encoder framed, whatever follows it. */
  lemma DecodeFramed(c: TunnelCodec, frameType: byte, payload: seq<byte>, rest: seq<byte>)
    requires c.Valid() && 1 + |payload| <= c.maxFrameSize
    ensures DecodeOne(c, Framed(1 + |payload|, frameType, payload) + rest)
         == match DecodeBody(c, [frameType] + payload)
            case Ok(f) => Got(f, rest)
            case Err(e) => Failed(e, rest)
  {
    SplitFramed(c.maxFrameSize, frameType, payload, rest);
  }

  lemma DataBodyRoundTrip(c: TunnelCodec, s: u32, data: seq<byte>, eos: bool)
    ensures DecodeBody(c, [FRAME_TYPE_DATA] + (PutU32(s) + [FlagByte(eos)] + data)) == Ok(Data(s, data, eos))
  {
    var payload := PutU32(s) + [FlagByte(eos)] + data;
    assert ([FRAME_TYPE_DATA] + payload)[1..] == payload;
    assert payload == PutU32(s) + ([FlagByte(eos)] + data);
    U32RoundTrip(s, [FlagByte(eos)] + data);
    assert payload[5..] == data;
  }

  lemma EncodeShape(c: TunnelCodec, f: Frame)
    requires c.Valid() && Encode(c, f).Ok?
    ensures |Encode(c, f).value| >= HEADER_SIZE
    ensures !f.Data? ==>
      && c.bincode.ser(f).Some?
      && Encode(c, f).value == Framed(1 + |c.bincode.ser(f).value|, FRAME_TYPE_CONTROL, c.bincode.ser(f).value)
  {
  }

  /**
   Decoding an encoded frame gives that frame back or stops with an error; never another frame. The two
   ends may have different limits.
   */
  lemma DecodeEncoded(sender: TunnelCodec, receiver: TunnelCodec, f: Frame, rest: seq<byte>)
    requires sender.Valid() && receiver.Valid() && sender.bincode == receiver.bincode
    requires Faithful(sender.bincode) && Encode(sender, f).Ok?
    ensures var r := DecodeOne(receiver, Encode(sender, f).value + rest);
            r == Got(f, rest) || r.Failed?
    ensures f.Data? && 6 + |f.data| <= receiver.maxFrameSize ==>
      DecodeOne(receiver, Encode(sender, f).value + rest) == Got(f, rest)
  {
    var frameType, payload := FRAME_TYPE_CONTROL, [];
    if f.Data? {
      frameType, payload := FRAME_TYPE_DATA, PutU32(f.streamId) + [FlagByte(f.endOfStream)] + f.data;
      DataBodyRoundTrip(receiver, f.streamId, f.data, f.endOfStream);
    } else {
      payload := sender.bincode.ser(f).value;
      assert ([FRAME_TYPE_CONTROL] + payload)[1..] == payload;
    }
    if 1 + |payload| <= receiver.maxFrameSize {
      DecodeFramed(receiver, frameType, payload, rest);
    } else {
      OversizedFramed(receiver, frameType, payload, rest);
    }
  }

  lemma OversizedFramed(c: TunnelCodec, frameType: byte, payload: seq<byte>, rest: seq<byte>)
    requires c.maxFrameSize < 1 + |payload| <= MAX_FRAME_SIZE
    ensures DecodeOne(c, Framed(1 + |payload|, frameType, payload) + rest).Failed?
  {
    var n: u32 := 1 + |payload|;
    assert Framed(n, frameType, payload) + rest == PutU32(n) + ([frameType] + payload + rest);
    U32RoundTrip(n, [frameType] + payload + rest);
  }

  /** The encoder does not validate: a frame is encoded and survives exactly when it fits and the decoder's limits accept it. */
  lemma RoundTripIff(c: TunnelCodec, f: Frame, rest: seq<byte>)
    requires c.Valid() && Faithful(c.bincode) && Complete(c)
    ensures Encode(c, f).Ok? && DecodeOne(c, Encode(c, f).value + rest) == Got(f, rest)
      <==> FrameFits(c, f) && (f.Data? || Bounded(f, c.limits))
  {
    EncodeIff(c, f);
    ValidateIffBounded(f, c.limits);
    if Encode(c, f).Ok? {
      DecodeEncoded(c, c, f, rest);
      if !f.Data? {
        var bytes := c.bincode.ser(f).value;
        DecodeFramed(c, FRAME_TYPE_CONTROL, bytes, rest);
        assert ([FRAME_TYPE_CONTROL] + bytes)[1..] == bytes;
        DecodeLimitTracksLength(|bytes|);
      }
    }
  }

  // ---------------------------------------------------------------------------------------------
  // Streams of frames
  // ---------------------------------------------------------------------------------------------

  /** All the frames decoded from a buffer, up to the first incomplete frame or error. */
  datatype Run = Run(frames: seq<Frame>, rest: seq<byte>, error: Option<DecodeError>)

  function DecodeAll(c: TunnelCodec, src: seq<byte>): (r: Run)
    decreases |src|
  {
    match DecodeOne(c, src)
    case NeedMore => Run([], src, None)
    case Failed(e, rest) => Run([], rest, Some(e))
    case Got(f, rest) =>
      var tail := DecodeAll(c, rest);
      Run([f] + tail.frames, tail.rest, tail.error)
  }

  predicate Encodable(c: TunnelCodec, f: Frame)
    requires c.Valid()
  {
    Encode(c, f).Ok?
  }

  /** The bytes a frame puts on the wire: none when the encoder rejects it. */
  function Wire(c: TunnelCodec, f: Frame): seq<byte>
    requires c.Valid()
  {
    match Encode(c, f)
    case Ok(bytes) => bytes
    case Err(_) => []
  }

  function EncodeAll(c: TunnelCodec, fs: seq<Frame>): (r: seq<byte>)
    requires c.Valid()
  {
    FlatMap(f => Wire(c, f), fs)
  }

  lemma EncodeAllAppend(c: TunnelCodec, a: seq<Frame>, b: seq<Frame>)
    requires c.Valid()
    ensures EncodeAll(c, a + b) == EncodeAll(c, a) + EncodeAll(c, b)
  {
    FlatMapAppend(f => Wire(c, f), a, b);
  }

  lemma EncodeAllOne(c: TunnelCodec, f: Frame)
    requires c.Valid()
    ensures EncodeAll(c, [f]) == Wire(c, f)
  {
    FlatMapOne(f => Wire(c, f), f);
  }

  lemma EncodeAllHead(c: TunnelCodec, fs: seq<Frame>)
    requires c.Valid() && fs != []
    ensures EncodeAll(c, fs) == Wire(c, fs[0]) + EncodeAll(c, fs[1..])
  {
    assert fs == [fs[0]] + fs[1..];
    EncodeAllAppend(c, [fs[0]], fs[1..]);
    EncodeAllOne(c, fs[0]);
  }

  lemma SplitFrameExtend(max: nat, src: seq<byte>, more: seq<byte>)
    ensures match SplitFrame(max, src)
            case Short => true
            case BadLength(n) => SplitFrame(max, src + more) == BadLength(n)
            case Cut(body, rest) => SplitFrame(max, src + more) == Cut(body, rest + more)
  {
    if |src| >= HEADER_SIZE {
      var length := GetU32(src);
      assert GetU32(src + more) == length;
      if 0 < length <= max && 4 + length <= |src| {
        assert (src + more)[4..4 + length] == src[4..4 + length];
        assert (src + more)[4 + length..] == src[4 + length..] + more;
      }
    }
  }

  /** More bytes never change what a complete frame, or an error, decoded to. */
  lemma DecodeOneExtend(c: TunnelCodec, src: seq<byte>, more: seq<byte>)
    ensures var r := DecodeOne(c, src);
            r.Got? ==> DecodeOne(c, src + more) == Got(r.frame, r.rest + more)
    ensures var r := DecodeOne(c, src);
            r.Failed? ==> DecodeOne(c, src + more) == Failed(r.error, r.rest + more)
  {
    SplitFrameExtend(c.maxFrameSize, src, more);
  }

  lemma DecodeAllGot(c: TunnelCodec, src: seq<byte>, f: Frame, rest: seq<byte>)
    requires DecodeOne(c, src) == Got(f, rest)
    ensures var tail := DecodeAll(c, rest);
            DecodeAll(c, src) == Run([f] + tail.frames, tail.rest, tail.error)
  {
  }

  /** `whole` is `part` followed by `tail`, unless `part` already failed and `more` is left over. */
  ghost predicate Continues(part: Run, more: seq<byte>, tail: Run, whole: Run) {
    if part.error.Some? then whole == Run(part.frames, part.rest + more, part.error)
    else whole == Run(part.frames + tail.frames, tail.rest, tail.error)
  }

  lemma ContinuesPush(f: Frame, part: Run, more: seq<byte>, tail: Run, whole: Run)
    requires Continues(part, more, tail, whole)
    ensures Continues(Run([f] + part.frames, part.rest, part.error), more, tail,
                      Run([f] + whole.frames, whole.rest, whole.error))
  {
    assert [f] + (part.frames + tail.frames) == ([f] + part.frames) + tail.frames;
  }

  lemma {:induction false} DecodeAllExtend(c: TunnelCodec, src: seq<byte>, more: seq<byte>)
    ensures var part := DecodeAll(c, src);
            Continues(part, more, DecodeAll(c, part.rest + more), DecodeAll(c, src + more))
    decreases |src|
  {
    DecodeOneExtend(c, src, more);
    var one := DecodeOne(c, src);
    if one.Got? {
      DecodeAllGot(c, src, one.frame, one.rest);
      DecodeAllGot(c, src + more, one.frame, one.rest + more);
      DecodeAllExtend(c, one.rest, more);
      var inner := DecodeAll(c, one.rest);
      ContinuesPush(one.frame, inner, more, DecodeAll(c, inner.rest + more), DecodeAll(c, one.rest + more));
    } else if one.NeedMore? {
      assert [] + DecodeAll(c, src + more).frames == DecodeAll(c, src + more).frames;
    }
  }

  /** A decoder fed piecewise: the buffered bytes, the frames produced and the error that stopped it. */
  datatype Decoder = Decoder(buffer: seq<byte>, frames: seq<Frame>, error: Option<DecodeError>)

  const FRESH_DECODER := Decoder([], [], None)

  function Feed(c: TunnelCodec, d: Decoder, chunk: seq<byte>): Decoder {
    if d.error.Some? then d
    else
      var r := DecodeAll(c, d.buffer + chunk);
      Decoder(r.rest, d.frames + r.frames, r.error)
  }

  function FeedAll(c: TunnelCodec, chunks: seq<seq<byte>>): Decoder {
    if chunks == [] then FRESH_DECODER
    else Feed(c, FeedAll(c, chunks[..|chunks| - 1]), chunks[|chunks| - 1])
  }

  /**
   However a byte stream is cut, the decoder yields the frames, or the first error, of the whole stream. What it then
   has buffered is what the whole stream leaves, or, if it stopped at an error, the part of that it was fed.
   */
  lemma {:induction false} ChunkingIrrelevant(c: TunnelCodec, chunks: seq<seq<byte>>)
    ensures var whole, fed := DecodeAll(c, Flatten(chunks)), FeedAll(c, chunks);
            && fed.frames == whole.frames
            && fed.error == whole.error
            && fed.buffer <= whole.rest
            && (fed.error.None? ==> fed.buffer == whole.rest)
  {
    if chunks == [] {
      assert DecodeAll(c, []) == Run([], [], None);
    } else {
      var front, last := chunks[..|chunks| - 1], chunks[|chunks| - 1];
      ChunkingIrrelevant(c, front);
      DecodeAllExtend(c, Flatten(front), last);
      hide DecodeAll;
    }
  }

  /** Encoding any list of frames that fit and are valid, then decoding, returns the list and leaves nothing. */
  lemma {:induction false} StreamRoundTrip(c: TunnelCodec, fs: seq<Frame>)
    requires c.Valid() && Faithful(c.bincode) && Complete(c)
    requires forall f :: f in fs ==> FrameFits(c, f) && (f.Data? || Bounded(f, c.limits))
    ensures DecodeAll(c, EncodeAll(c, fs)) == Run(fs, [], None)
  {
    if fs == [] {
      assert EncodeAll(c, []) == [];
    } else {
      hide Encode, DecodeOne, DecodeAll, Bounded, Complete, Faithful, EncodeAll;
      var tail := EncodeAll(c, fs[1..]);
      StreamRoundTrip(c, fs[1..]);
      EncodeAllHead(c, fs);
      RoundTripIff(c, fs[0], tail);
      DecodeAllGot(c, EncodeAll(c, fs), fs[0], tail);
      assert fs == [fs[0]] + fs[1..];
    }
  }

  /** Cut into any pieces, an encoded list of frames is decoded to itself. */
  lemma ChunkedRoundTrip(c: TunnelCodec, fs: seq<Frame>, chunks: seq<seq<byte>>)
    requires c.Valid() && Faithful(c.bincode) && Complete(c)
    requires forall f :: f in fs ==> FrameFits(c, f) && (f.Data? || Bounded(f, c.limits))
    requires Flatten(chunks) == EncodeAll(c, fs)
    ensures FeedAll(c, chunks) == Decoder([], fs, None)
  {
    StreamRoundTrip(c, fs);
    ChunkingIrrelevant(c, chunks);
  }
}
