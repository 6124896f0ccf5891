/**
 The codec's buffer operations as the code runs them (ferrotunnel-protocol/src/codec.rs): each
 method is proved against the functions of module Codec.
 */
module CodecOps {
  import opened Seqs
  import opened Frames
  import opened Validation
  import opened Codec

  /** A `BytesMut`: bytes are appended at the back and split off the front. */
  class ByteBuffer {
    var bytes: seq<byte>

    constructor (initial: seq<byte>)
      ensures bytes == initial
    {
      bytes := initial;
    }

    method Put(more: seq<byte>)
      modifies this
      ensures bytes == old(bytes) + more
    {
      bytes := bytes + more;
    }

    method SplitTo(n: nat) returns (front: seq<byte>)
      requires n <= |bytes|
      modifies this
      ensures front == old(bytes)[..n] && bytes == old(bytes)[n..]
    {
      front := bytes[..n];
      bytes := bytes[n..];
    }
  }

  /** One `decode` call: `Ok(None)` leaves the buffer alone, a frame or a bad body is consumed. */
  method Decode(c: TunnelCodec, src: ByteBuffer) returns (r: Result<Option<Frame>, DecodeError>)
    modifies src
    ensures match DecodeOne(c, old(src.bytes))
            case NeedMore => r == Ok(None) && src.bytes == old(src.bytes)
            case Got(f, rest) => r == Ok(Some(f)) && src.bytes == rest
            case Failed(e, rest) => r == Err(e) && src.bytes == rest
  {
    if |src.bytes| < HEADER_SIZE {
      return Ok(None);
    }
    var length := GetU32(src.bytes);
    if length == 0 {
      return Err(ZeroLength);
    }
    if length > c.maxFrameSize {
      return Err(TooLarge(length));
    }
    var totalSize := 4 + length;
    if |src.bytes| < totalSize {
      return Ok(None);
    }
    ghost var before := src.bytes;
    var frameBytes := src.SplitTo(totalSize);
    assert frameBytes[4..] == before[4..4 + length];
    var body := DecodeBody(c, frameBytes[4..]);
    match body {
      case Ok(f) => return Ok(Some(f));
      case Err(e) => return Err(e);
    }
  }

  /** What is left to decode in `rest` completes `out` to `frames`, and ends as `whole` does. */
  ghost predicate Remaining(c: TunnelCodec, rest: seq<byte>, out: seq<Frame>, frames: seq<Frame>, whole: Run) {
    var left := DecodeAll(c, rest);
    out + left.frames == frames && left.rest == whole.rest && left.error == whole.error
  }

  lemma RemainingGot(c: TunnelCodec, src: seq<byte>, f: Frame, rest: seq<byte>, out: seq<Frame>, frames: seq<Frame>, whole: Run)
    requires Remaining(c, src, out, frames, whole) && DecodeOne(c, src) == Got(f, rest)
    ensures Remaining(c, rest, out + [f], frames, whole)
  {
    DecodeAllGot(c, src, f, rest);
    hide DecodeAll, DecodeOne;
    var tail := DecodeAll(c, rest);
    assert out + ([f] + tail.frames) == (out + [f]) + tail.frames;
  }

  lemma RemainingStops(c: TunnelCodec, src: seq<byte>, out: seq<Frame>, frames: seq<Frame>, whole: Run)
    requires Remaining(c, src, out, frames, whole) && !DecodeOne(c, src).Got?
    ensures out == frames
    ensures match DecodeOne(c, src)
            case NeedMore => whole.rest == src && whole.error.None?
            case Failed(e, rest) => whole.rest == rest && whole.error == Some(e)
            case Got(_, _) => true
  {
    hide DecodeOne;
    assert out + [] == out;
  }

  /** `decode_batch` appends every frame it decoded, also when it then stops at an error. */
  method DecodeBatch(c: TunnelCodec, src: ByteBuffer, out: seq<Frame>)
      returns (r: Result<nat, DecodeError>, out': seq<Frame>)
    modifies src
    ensures var run := DecodeAll(c, old(src.bytes));
            && out' == out + run.frames
            && src.bytes == run.rest
            && r == if run.error.Some? then Err(run.error.value) else Ok(|old(src.bytes)| - |run.rest|)
  {
    out' := out;
    var consumed := 0;
    ghost var whole := DecodeAll(c, src.bytes);
    ghost var total, frames := |src.bytes|, out + whole.frames;
    assert Remaining(c, src.bytes, out', frames, whole);
    hide DecodeAll, DecodeOne, Remaining;
    while true
      invariant |src.bytes| <= total && consumed == total - |src.bytes|
      invariant Remaining(c, src.bytes, out', frames, whole)
      decreases |src.bytes|
    {
      var before := |src.bytes|;
      ghost var bytes := src.bytes;
      ShorterRest(c, bytes);
      var one := Decode(c, src);
      match one {
        case Err(e) =>
          RemainingStops(c, bytes, out', frames, whole);
          return Err(e), out';
        case Ok(None) =>
          RemainingStops(c, bytes, out', frames, whole);
          break;
        case Ok(Some(f)) =>
          RemainingGot(c, bytes, f, src.bytes, out', frames, whole);
          consumed := consumed + (before - |src.bytes|);
          out' := out' + [f];
      }
    }
    r := Ok(consumed);
  }

  lemma ShorterRest(c: TunnelCodec, src: seq<byte>)
    ensures DecodeOne(c, src).Got? ==> |DecodeOne(c, src).rest| < |src|
  {
  }

  /** `encode` appends the frame's bytes, or leaves the buffer as it was. */
  method EncodeInto(c: TunnelCodec, f: Frame, dst: ByteBuffer) returns (r: Option<EncodeError>)
    requires c.Valid()
    modifies dst
    ensures match Encode(c, f)
            case Ok(bytes) => r.None? && dst.bytes == old(dst.bytes) + bytes
            case Err(e) => r == Some(e) && dst.bytes == old(dst.bytes)
  {
    ghost var before := dst.bytes;
    if f.Data? {
      var payloadLen := 1 + 4 + 1 + |f.data|;
      if payloadLen > c.maxFrameSize {
        return Some(FrameTooLarge(payloadLen));
      }
      dst.Put(PutU32(payloadLen));
      dst.Put([FRAME_TYPE_DATA]);
      dst.Put(PutU32(f.streamId));
      dst.Put([FlagByte(f.endOfStream)]);
      dst.Put(f.data);
      assert dst.bytes == before + Encode(c, f).value;
    } else {
      var serialized := c.bincode.ser(f);
      if serialized.None? {
        return Some(SerializeFailed);
      }
      var payloadLen := 1 + |serialized.value|;
      if payloadLen > c.maxFrameSize {
        return Some(FrameTooLarge(payloadLen));
      }
      dst.Put(PutU32(payloadLen));
      dst.Put([FRAME_TYPE_CONTROL]);
      dst.Put(serialized.value);
      assert dst.bytes == before + Encode(c, f).value;
    }
    r := None;
  }

  // ---------------------------------------------------------------------------------------------
  // Zero-copy parsing of data frames
  // ---------------------------------------------------------------------------------------------

  datatype ZeroCopyError = InvalidLength(length: nat) | PayloadTooShort

  /** What the parser finds at the front of a buffer; `found` is empty for a frame of another type. */
  datatype ZeroCopyStep = Incomplete | Bad(error: ZeroCopyError) | Whole(found: seq<ZeroCopyFrame>, rest: seq<byte>)

  function ZeroCopyOne(c: TunnelCodec, src: seq<byte>): (r: ZeroCopyStep)
    ensures r.Whole? ==> |r.rest| < |src| && |r.found| <= 1
  {
    match SplitFrame(c.maxFrameSize, src)
    case Short => Incomplete
    case BadLength(length) => Bad(InvalidLength(length))
    case Cut(body, rest) =>
      if body[0] != FRAME_TYPE_DATA then Whole([], rest)
      else if |body| < 6 then Bad(PayloadTooShort)
      else Whole([ZeroCopyData(GetU32(body[1..]), body[6..], body[5] % 2 == 1)], rest)
  }

  datatype ZeroCopyRun = ZeroCopyRun(frames: seq<ZeroCopyFrame>, rest: seq<byte>, error: Option<ZeroCopyError>)

  /** The data frames of a buffer, up to the first incomplete frame or error. */
  function ZeroCopyAll(c: TunnelCodec, src: seq<byte>): (r: ZeroCopyRun)
    ensures |r.rest| <= |src|
    decreases |src|
  {
    match ZeroCopyOne(c, src)
    case Incomplete => ZeroCopyRun([], src, None)
    case Bad(e) => ZeroCopyRun([], src, Some(e))
    case Whole(found, rest) =>
      var tail := ZeroCopyAll(c, rest);
      ZeroCopyRun(found + tail.frames, tail.rest, tail.error)
  }

  lemma ZeroCopyCons(c: TunnelCodec, src: seq<byte>, found: seq<ZeroCopyFrame>, rest: seq<byte>)
    requires ZeroCopyOne(c, src) == Whole(found, rest)
    ensures var tail := ZeroCopyAll(c, rest);
            ZeroCopyAll(c, src) == ZeroCopyRun(found + tail.frames, tail.rest, tail.error)
  {
  }

  /** What is left to parse at `offset` completes `out` to the result for the whole buffer. */
  ghost predicate Progress(c: TunnelCodec, rest: seq<byte>, out: seq<ZeroCopyFrame>, frames: seq<ZeroCopyFrame>,
                           whole: ZeroCopyRun) {
    var left := ZeroCopyAll(c, rest);
    out + left.frames == frames && left.rest == whole.rest && left.error == whole.error
  }

  lemma ProgressCons(c: TunnelCodec, src: seq<byte>, found: seq<ZeroCopyFrame>, rest: seq<byte>, out: seq<ZeroCopyFrame>,
                     frames: seq<ZeroCopyFrame>, whole: ZeroCopyRun)
    requires ZeroCopyOne(c, src) == Whole(found, rest) && Progress(c, src, out, frames, whole)
    ensures Progress(c, rest, out + found, frames, whole)
  {
    ZeroCopyCons(c, src, found, rest);
    assert out + (found + ZeroCopyAll(c, rest).frames) == (out + found) + ZeroCopyAll(c, rest).frames;
  }

  lemma ProgressStops(c: TunnelCodec, src: seq<byte>, out: seq<ZeroCopyFrame>, frames: seq<ZeroCopyFrame>,
                      whole: ZeroCopyRun)
    requires Progress(c, src, out, frames, whole) && !ZeroCopyOne(c, src).Whole?
    ensures out == frames && whole.rest == src
    ensures whole.error == match ZeroCopyOne(c, src) case Bad(e) => Some(e) case _ => None
  {
    assert out + [] == out;
  }

  /** One turn of the parser's loop, on the window of the buffer that starts at its offset. */
  method ParseFront(c: TunnelCodec, src: seq<byte>) returns (step: ZeroCopyStep)
    requires HEADER_SIZE <= |src|
    ensures step == ZeroCopyOne(c, src)
  {
    var length: nat := GetU32(src);
    if length == 0 || length > c.maxFrameSize {
      return Bad(InvalidLength(length));
    }
    var totalSize := 4 + length;
    if |src| < totalSize {
      return Incomplete;
    }
    if src[4] != FRAME_TYPE_DATA {
      return Whole([], src[totalSize..]);
    }
    if length < 6 {
      return Bad(PayloadTooShort);
    }
    ghost var body := src[4..totalSize];
    assert GetU32(body[1..]) == GetU32(src[5..]) && body[6..] == src[10..totalSize];
    return Whole([ZeroCopyData(GetU32(src[5..]), src[10..totalSize], src[9] % 2 == 1)], src[totalSize..]);
  }

  method DecodeDataFramesZeroCopy(c: TunnelCodec, buf: seq<byte>, out: seq<ZeroCopyFrame>)
      returns (r: Result<nat, ZeroCopyError>, out': seq<ZeroCopyFrame>)
    ensures var run := ZeroCopyAll(c, buf);
            && out' == out + run.frames
            && r == if run.error.Some? then Err(run.error.value) else Ok(|buf| - |run.rest|)
  {
    out' := out;
    var rest := buf;
    ghost var whole := ZeroCopyAll(c, buf);
    while HEADER_SIZE <= |rest|
      invariant |rest| <= |buf|
      invariant Progress(c, rest, out', out + whole.frames, whole)
      decreases |rest|
    {
      var step := ParseFront(c, rest);
      match step {
        case Bad(e) =>
          ProgressStops(c, rest, out', out + whole.frames, whole);
          return Err(e), out';
        case Incomplete =>
          break;
        case Whole(found, tail) =>
          ProgressCons(c, rest, found, tail, out', out + whole.frames, whole);
          out' := out' + found;
          rest := tail;
      }
    }
    ProgressStops(c, rest, out', out + whole.frames, whole);
    r := Ok(|buf| - |rest|);
  }

  predicate IsData(f: Frame) {
    f.Data?
  }

  /** How many complete frames of `src` are typed as control but deserialize to a `Frame::Data`. */
  function ControlTypedData(c: TunnelCodec, src: seq<byte>): (n: nat)
    decreases |src|
  {
    match DecodeOne(c, src)
    case Got(f, rest) => (if src[4] == FRAME_TYPE_CONTROL && f.Data? then 1 else 0) + ControlTypedData(c, rest)
    case _ => 0
  }

  /** Both parsers read a complete, decodable frame the same way. */
  lemma SameFrame(c: TunnelCodec, src: seq<byte>, f: Frame, rest: seq<byte>)
    requires DecodeOne(c, src) == Got(f, rest)
    ensures var z := ZeroCopyOne(c, src);
            && z.Whole? && z.rest == rest
            && (src[4] == FRAME_TYPE_DATA ==> |z.found| == 1 && z.found[0].ToOwned() == f)
            && (src[4] != FRAME_TYPE_DATA ==> z.found == [] && src[4] == FRAME_TYPE_CONTROL)
  {
    var body := SplitFrame(c.maxFrameSize, src).body;
    assert body[0] == src[4];
    if body[0] == FRAME_TYPE_DATA {
      assert body[1..][5..] == body[6..];
    }
  }

  lemma DataFilterCons(f: Frame, tail: seq<Frame>)
    ensures Filter(IsData, [f] + tail) == (if f.Data? then [f] else []) + Filter(IsData, tail)
  {
    FilterAppend(IsData, [f], tail);
    FilterOne(IsData, f);
  }

  lemma ToOwnedCons(z: ZeroCopyFrame, tail: seq<ZeroCopyFrame>)
    ensures ToOwnedAll([z] + tail) == [z.ToOwned()] + ToOwnedAll(tail)
  {
  }

  /** Every data frame of the batch is in the zero-copy result, except the control-typed ones. */
  ghost predicate Matches(zs: seq<ZeroCopyFrame>, fs: seq<Frame>, missed: nat) {
    && |Filter(IsData, fs)| == |zs| + missed
    && (missed == 0 ==> ToOwnedAll(zs) == Filter(IsData, fs))
  }

  lemma MatchesCons(found: seq<ZeroCopyFrame>, f: Frame, zs: seq<ZeroCopyFrame>, fs: seq<Frame>, missed: nat)
    requires Matches(zs, fs, missed) && |found| <= 1
    requires |found| == 1 ==> found[0].ToOwned() == f
    ensures Matches(found + zs, [f] + fs, (if found == [] && f.Data? then 1 else 0) + missed)
  {
    DataFilterCons(f, fs);
    if found == [] {
      assert [] + zs == zs;
    } else {
      assert found == [found[0]];
      ToOwnedCons(found[0], zs);
    }
  }

  lemma ControlTypedDataCons(c: TunnelCodec, src: seq<byte>, f: Frame, rest: seq<byte>)
    requires DecodeOne(c, src) == Got(f, rest)
    ensures ControlTypedData(c, src)
         == (if src[4] == FRAME_TYPE_CONTROL && f.Data? then 1 else 0) + ControlTypedData(c, rest)
  {
  }

  /** The two parsers stop at the same point, without an error, and agree on all but `missed` data frames. */
  ghost predicate Agreed(run: Run, zc: ZeroCopyRun, missed: nat) {
    && zc.error.None?
    && zc.rest == run.rest
    && Matches(zc.frames, run.frames, missed)
  }

  lemma {:induction false} ZeroCopyCounts(c: TunnelCodec, src: seq<byte>)
    requires DecodeAll(c, src).error.None?
    ensures Agreed(DecodeAll(c, src), ZeroCopyAll(c, src), ControlTypedData(c, src))
    decreases |src|
  {
    var one := DecodeOne(c, src);
    if one.Got? {
      SameFrame(c, src, one.frame, one.rest);
      DecodeAllGot(c, src, one.frame, one.rest);
      ControlTypedDataCons(c, src, one.frame, one.rest);
      var found := ZeroCopyOne(c, src).found;
      ZeroCopyCons(c, src, found, one.rest);
      ZeroCopyCounts(c, one.rest);
      MatchesCons(found, one.frame, ZeroCopyAll(c, one.rest).frames, DecodeAll(c, one.rest).frames,
                  ControlTypedData(c, one.rest));
    }
  }

  /**
   Whenever the owned batch decoder succeeds, so does the zero-copy one, over the same bytes. The two
   return the same data frames exactly when no control-typed body of the buffer deserializes to a data
   frame, which the owned decoder delivers and the zero-copy decoder skips.
   */
  lemma ZeroCopyAgreesIff(c: TunnelCodec, src: seq<byte>)
    requires DecodeAll(c, src).error.None?
    ensures var run, zc := DecodeAll(c, src), ZeroCopyAll(c, src);
            && zc.error.None?
            && zc.rest == run.rest
            && (ToOwnedAll(zc.frames) == Filter(IsData, run.frames) <==> ControlTypedData(c, src) == 0)
  {
    ZeroCopyCounts(c, src);
  }

  /** Such a buffer exists for every serializer that, like bincode, can carry a data frame. */
  lemma ZeroCopyMissesControlTypedData(c: TunnelCodec, f: Frame, bytes: seq<byte>)
    requires c.Valid() && Complete(c)
    requires f.Data? && c.bincode.ser(f) == Some(bytes) && ValidateFrame(f, c.limits).None?
    requires 1 + |bytes| <= c.maxFrameSize
    ensures var src := Framed(1 + |bytes|, FRAME_TYPE_CONTROL, bytes);
            && DecodeAll(c, src) == Run([f], [], None)
            && ZeroCopyAll(c, src) == ZeroCopyRun([], [], None)
  {
    var src := Framed(1 + |bytes|, FRAME_TYPE_CONTROL, bytes);
    DecodeFramed(c, FRAME_TYPE_CONTROL, bytes, []);
    assert src + [] == src;
    assert ([FRAME_TYPE_CONTROL] + bytes)[1..] == bytes;
    DecodeLimitTracksLength(|bytes|);
    DecodeAllGot(c, src, f, []);
    SameFrame(c, src, f, []);
    ZeroCopyCons(c, src, [], []);
  }
}
