/**
 Why the data path needs room for a whole chunk: virtual streams cut writes at 64 KiB whatever the codec's
 limit is (ferrotunnel-core/src/stream/multiplexer.rs), and the batched sender skips what does not fit.
 */
module FrameSizes {
  import opened Seqs
  import opened Frames
  import opened Codec
  import opened VirtualStreams

  /** The data frames a stream puts in the wire channel for a list of writes. */
  function Writes(s: u32, bufs: seq<seq<byte>>): seq<Frame> {
    if bufs == [] then [] else Writes(s, bufs[..|bufs| - 1]) + [WriteFrame(s, bufs[|bufs| - 1])]
  }

  function Fits(c: TunnelCodec): Frame -> bool
    requires c.Valid()
  {
    (f: Frame) => Encodable(c, f)
  }

  /** Every frame a write can build is encodable exactly when the limit holds a full chunk and its header. */
  lemma ChunkFitsIff(c: TunnelCodec, s: u32)
    requires c.Valid()
    ensures (forall buf: seq<byte> :: Encodable(c, WriteFrame(s, buf))) <==> MAX_DATA_FRAME_PAYLOAD + 6 <= c.maxFrameSize
  {
    var full := seq(MAX_DATA_FRAME_PAYLOAD, _ => 0);
    assert |WriteFrame(s, full).data| == MAX_DATA_FRAME_PAYLOAD;
    if forall buf: seq<byte> :: Encodable(c, WriteFrame(s, buf)) {
      assert Encodable(c, WriteFrame(s, full));
    }
  }

  lemma {:induction false} SmallLimitSendsNothing(c: TunnelCodec, s: u32, bufs: seq<seq<byte>>)
    requires c.Valid() && c.maxFrameSize < 7
    ensures DataBytes(Filter(Fits(c), Writes(s, bufs))) == []
  {
    if bufs == [] {
    } else {
      var front, f := Writes(s, bufs[..|bufs| - 1]), WriteFrame(s, bufs[|bufs| - 1]);
      SmallLimitSendsNothing(c, s, bufs[..|bufs| - 1]);
      SmallLimitFits(c, s, bufs[|bufs| - 1]);
      hide Fits, WriteFrame, Filter, DataBytes;
      FilterPush(Fits(c), front, f);
      DataBytesPush(Filter(Fits(c), front), f);
    }
  }

  lemma SmallLimitFits(c: TunnelCodec, s: u32, buf: seq<byte>)
    requires c.Valid() && c.maxFrameSize < 7
    ensures Fits(c)(WriteFrame(s, buf)) ==> Payload(WriteFrame(s, buf)) == []
  {
  }

  lemma {:induction false} LargeLimitSendsAll(c: TunnelCodec, s: u32, bufs: seq<seq<byte>>)
    requires c.Valid() && MAX_DATA_FRAME_PAYLOAD + 6 <= c.maxFrameSize
    ensures Filter(Fits(c), Writes(s, bufs)) == Writes(s, bufs)
  {
    if bufs == [] {
    } else {
      var front, f := Writes(s, bufs[..|bufs| - 1]), WriteFrame(s, bufs[|bufs| - 1]);
      LargeLimitSendsAll(c, s, bufs[..|bufs| - 1]);
      FilterPush(Fits(c), front, f);
    }
  }

  const ZEROS: seq<byte> := seq(MAX_DATA_FRAME_PAYLOAD, _ => 0)

  /** The encoder rejects a full chunk and accepts one byte. */
  lemma MiddlingLimitFits(c: TunnelCodec, s: u32)
    requires c.Valid() && 7 <= c.maxFrameSize < MAX_DATA_FRAME_PAYLOAD + 6
    ensures !Fits(c)(WriteFrame(s, ZEROS)) && Fits(c)(WriteFrame(s, [1]))
    ensures WriteFrame(s, ZEROS).data == ZEROS && WriteFrame(s, [1]).data == [1]
  {
    assert |ZEROS| == MAX_DATA_FRAME_PAYLOAD;
  }

  lemma WritesTwo(s: u32, a: seq<byte>, b: seq<byte>)
    ensures Writes(s, [a, b]) == [WriteFrame(s, a)] + [WriteFrame(s, b)]
  {
    hide WriteFrame;
    assert [a, b][..1] == [a] && [a][..0] == [];
    assert Writes(s, [a]) == [] + [WriteFrame(s, a)];
  }

  /** A full chunk of zeros is skipped and the one byte after it is not. */
  lemma MiddlingLimitLeavesGap(c: TunnelCodec, s: u32)
    requires c.Valid() && 7 <= c.maxFrameSize < MAX_DATA_FRAME_PAYLOAD + 6
    ensures var sent := Writes(s, [ZEROS, [1]]);
            !(DataBytes(Filter(Fits(c), sent)) <= DataBytes(sent))
  {
    MiddlingLimitFits(c, s);
    WritesTwo(s, ZEROS, [1]);
    hide Fits, Writes, WriteFrame;
    var first, second := WriteFrame(s, ZEROS), WriteFrame(s, [1]);
    FilterOne(Fits(c), first);
    FilterPush(Fits(c), [first], second);
    DataBytesPush([], second);
    DataBytesPush([], first);
    DataBytesPush([first], second);
    assert DataBytes([]) == [];
    assert [] + [second] == [second] && [] + [first] == [first];
    assert DataBytes([second])[0] == 1 && DataBytes([first] + [second])[0] == 0;
  }

  /**
   The bytes that survive encoding are a prefix of those written, for every list of writes, exactly when the
   limit holds a full chunk or no data byte at all. The configuration check accepts every limit from 1.
   */
  lemma NoGapIff(c: TunnelCodec, s: u32)
    requires c.Valid()
    ensures (forall bufs: seq<seq<byte>> :: DataBytes(Filter(Fits(c), Writes(s, bufs))) <= DataBytes(Writes(s, bufs)))
      <==> c.maxFrameSize < 7 || MAX_DATA_FRAME_PAYLOAD + 6 <= c.maxFrameSize
  {
    if c.maxFrameSize < 7 {
      forall bufs: seq<seq<byte>> ensures DataBytes(Filter(Fits(c), Writes(s, bufs))) <= DataBytes(Writes(s, bufs)) {
        SmallLimitSendsNothing(c, s, bufs);
      }
    } else if MAX_DATA_FRAME_PAYLOAD + 6 <= c.maxFrameSize {
      forall bufs: seq<seq<byte>> ensures DataBytes(Filter(Fits(c), Writes(s, bufs))) <= DataBytes(Writes(s, bufs)) {
        LargeLimitSendsAll(c, s, bufs);
      }
    } else {
      MiddlingLimitLeavesGap(c, s);
    }
  }
}
