/** Priority batching and vectored writes (ferrotunnel-core/src/transport/batched_sender.rs). */
module BatchedSender {
  import opened Seqs
  import opened Frames
  import opened Codec

  const MAX_BATCH_SIZE: nat := 256
  const MIN_FRAMES_FOR_BATCHING: nat := 2

  // ---------------------------------------------------------------------------------------------
  // Ordering a batch
  // ---------------------------------------------------------------------------------------------

  function Order(x: PrioritizedFrame): nat {
    DrainOrder(x.priority)
  }

  /** Put `x` behind every element of `s` that does not drain after it. */
  function Insert(s: seq<PrioritizedFrame>, x: PrioritizedFrame): (r: seq<PrioritizedFrame>)
    ensures |r| == |s| + 1
  {
    if s == [] || Order(s[|s| - 1]) <= Order(x) then s + [x]
    else Insert(s[..|s| - 1], x) + [s[|s| - 1]]
  }

  /** The stable sort by drain order (`StableSortIsUnique`: the standard library's result is this one). */
  function DrainSort(s: seq<PrioritizedFrame>): (r: seq<PrioritizedFrame>)
    ensures |r| == |s|
  {
    if s == [] then [] else Insert(DrainSort(s[..|s| - 1]), s[|s| - 1])
  }

  /** No frame stands behind one it should have preceded. */
  ghost predicate Drained(s: seq<PrioritizedFrame>) {
    forall i, j :: 0 <= i < j < |s| ==> MayPrecede(s[i].priority, s[j].priority)
  }

  lemma OrderIsPriority(x: PrioritizedFrame, y: PrioritizedFrame)
    ensures Order(x) <= Order(y) <==> MayPrecede(x.priority, y.priority)
  {
  }

  function OfPriority(p: StreamPriority): PrioritizedFrame -> bool {
    (x: PrioritizedFrame) => x.priority == p
  }

  /** All the elements of `s` that satisfy `q` drain at one priority. */
  ghost predicate OnePriority(q: PrioritizedFrame -> bool, s: seq<PrioritizedFrame>) {
    forall x, y :: x in s && y in s && q(x) && q(y) ==> x.priority == y.priority
  }

  lemma {:induction false} InsertKeepsOrder(q: PrioritizedFrame -> bool, s: seq<PrioritizedFrame>, x: PrioritizedFrame)
    requires OnePriority(q, s + [x])
    ensures Filter(q, Insert(s, x)) == Filter(q, s + [x])
  {
    if s != [] && Order(s[|s| - 1]) > Order(x) {
      var front, last := s[..|s| - 1], s[|s| - 1];
      assert s == front + [last] && last in s + [x] && x in s + [x];
      assert forall y :: y in front + [x] ==> y in s + [x];
      InsertKeepsOrder(q, front, x);
      FilterPush(q, Insert(front, x), last);
      FilterPush(q, front, x);
      FilterPush(q, front, last);
      FilterPush(q, s, x);
    }
  }

  lemma {:induction false} InsertConserves(s: seq<PrioritizedFrame>, x: PrioritizedFrame)
    ensures multiset(Insert(s, x)) == multiset(s) + multiset{x}
  {
    if s != [] && Order(s[|s| - 1]) > Order(x) {
      InsertConserves(s[..|s| - 1], x);
      assert s == s[..|s| - 1] + [s[|s| - 1]];
    }
  }

  lemma SameMembers(a: seq<PrioritizedFrame>, b: seq<PrioritizedFrame>)
    requires multiset(a) == multiset(b)
    ensures forall x :: x in a <==> x in b
  {
    assert forall x :: x in a <==> x in multiset(a);
    assert forall x :: x in b <==> x in multiset(b);
  }

  lemma DrainedPush(s: seq<PrioritizedFrame>, last: PrioritizedFrame)
    requires Drained(s) && forall x :: x in s ==> MayPrecede(x.priority, last.priority)
    ensures Drained(s + [last])
  {
  }

  lemma DrainedFront(s: seq<PrioritizedFrame>)
    requires Drained(s) && s != []
    ensures Drained(s[..|s| - 1]) && forall x :: x in s[..|s| - 1] ==> MayPrecede(x.priority, s[|s| - 1].priority)
  {
  }

  lemma {:induction false} InsertDrained(s: seq<PrioritizedFrame>, x: PrioritizedFrame)
    requires Drained(s)
    ensures Drained(Insert(s, x))
  {
    if s == [] {
    } else {
      var front, last := s[..|s| - 1], s[|s| - 1];
      DrainedFront(s);
      OrderIsPriority(last, x);
      OrderIsPriority(x, last);
      assert s == front + [last];
      hide Drained;
      if Order(last) <= Order(x) {
        BeforeLast(front, last, x);
        DrainedPush(s, x);
      } else {
        InsertDrained(front, x);
        InsertConserves(front, x);
        SameMembers(Insert(front, x), front + [x]);
        DrainedPush(Insert(front, x), last);
      }
    }
  }

  lemma BeforeLast(front: seq<PrioritizedFrame>, last: PrioritizedFrame, x: PrioritizedFrame)
    requires forall y :: y in front ==> MayPrecede(y.priority, last.priority)
    requires MayPrecede(last.priority, x.priority)
    ensures forall y :: y in front + [last] ==> MayPrecede(y.priority, x.priority)
  {
  }

  /** A batch leaves Critical first, then High, Normal and Low, with nothing added or lost. */
  lemma {:induction false} DrainSortSorts(s: seq<PrioritizedFrame>)
    ensures Drained(DrainSort(s))
    ensures multiset(DrainSort(s)) == multiset(s)
  {
    if s == [] {
    } else {
      var front, last := s[..|s| - 1], s[|s| - 1];
      DrainSortSorts(front);
      InsertDrained(DrainSort(front), last);
      InsertConserves(DrainSort(front), last);
      assert s == front + [last];
    }
  }

  /** Frames that share a priority leave in the order they arrived in. */
  lemma {:induction false} DrainSortStable(q: PrioritizedFrame -> bool, s: seq<PrioritizedFrame>)
    requires OnePriority(q, s)
    ensures Filter(q, DrainSort(s)) == Filter(q, s)
  {
    if s == [] {
    } else {
      var front, last := s[..|s| - 1], s[|s| - 1];
      assert s == front + [last];
      DrainSortStable(q, front);
      DrainSortSorts(front);
      SameMembers(DrainSort(front), front);
      InsertKeepsOrder(q, DrainSort(front), last);
      FilterPush(q, DrainSort(front), last);
      FilterPush(q, front, last);
    }
  }

  ghost predicate SameByPriority(a: seq<PrioritizedFrame>, b: seq<PrioritizedFrame>) {
    forall p :: Filter(OfPriority(p), a) == Filter(OfPriority(p), b)
  }

  lemma LastIsFiltered(s: seq<PrioritizedFrame>)
    requires s != []
    ensures var x := s[|s| - 1];
            Filter(OfPriority(x.priority), s) == Filter(OfPriority(x.priority), s[..|s| - 1]) + [x]
  {
  }

  /** The last frame of `a` drains no later than the last frame of `b`. */
  lemma LastNoLater(a: seq<PrioritizedFrame>, b: seq<PrioritizedFrame>)
    requires a != [] && Drained(b) && SameByPriority(a, b)
    ensures b != [] && Order(a[|a| - 1]) <= Order(b[|b| - 1])
  {
    var x := a[|a| - 1];
    LastIsFiltered(a);
    assert x in Filter(OfPriority(x.priority), b);
    FilterMembers(OfPriority(x.priority), b);
    var i :| 0 <= i < |b| && b[i] == x;
    OrderIsPriority(x, b[|b| - 1]);
  }

  lemma SameFronts(a: seq<PrioritizedFrame>, b: seq<PrioritizedFrame>)
    requires a != [] && b != [] && SameByPriority(a, b)
    requires a[|a| - 1].priority == b[|b| - 1].priority
    ensures a[|a| - 1] == b[|b| - 1] && SameByPriority(a[..|a| - 1], b[..|b| - 1])
  {
    var x, y := a[|a| - 1], b[|b| - 1];
    var front, front' := a[..|a| - 1], b[..|b| - 1];
    LastIsFiltered(a);
    LastIsFiltered(b);
    var fa, fb := Filter(OfPriority(x.priority), front), Filter(OfPriority(x.priority), front');
    assert fa + [x] == fb + [y];
    assert (fa + [x])[|fa|] == x && (fb + [y])[|fb|] == y && |fa| == |fb|;
    assert fa == (fa + [x])[..|fa|] && fb == (fb + [y])[..|fb|];
    forall p ensures Filter(OfPriority(p), front) == Filter(OfPriority(p), front') {
      assert a == front + [x] && b == front' + [y];
      assert Filter(OfPriority(p), a) == Filter(OfPriority(p), b);
      FilterPush(OfPriority(p), front, x);
      FilterPush(OfPriority(p), front', y);
    }
  }

  /** Two drained sequences with the same frames of each priority, in the same order, are equal. */
  lemma {:induction false} StableSortIsUnique(a: seq<PrioritizedFrame>, b: seq<PrioritizedFrame>)
    requires Drained(a) && Drained(b) && SameByPriority(a, b)
    ensures a == b
    decreases |a| + |b|
  {
    if a != [] {
      LastNoLater(a, b);
      LastNoLater(b, a);
      SameFronts(a, b);
      StableSortIsUnique(a[..|a| - 1], b[..|b| - 1]);
      assert a == a[..|a| - 1] + [a[|a| - 1]] && b == b[..|b| - 1] + [b[|b| - 1]];
    } else if b != [] {
      LastNoLater(b, a);
    }
  }

  // ---------------------------------------------------------------------------------------------
  // What a run of the sender emits
  // ---------------------------------------------------------------------------------------------

  function FramesOf(s: seq<PrioritizedFrame>): (r: seq<Frame>)
    ensures |r| == |s|
  {
    if s == [] then [] else FramesOf(s[..|s| - 1]) + [s[|s| - 1].frame]
  }

  function Accepted(c: TunnelCodec): PrioritizedFrame -> bool
    requires c.Valid()
  {
    (x: PrioritizedFrame) => Encodable(c, x.frame)
  }

  /** The frames of one batch in the order they are written; those the encoder rejects are skipped. */
  function EmitBatch(c: TunnelCodec, batch: seq<PrioritizedFrame>): seq<PrioritizedFrame>
    requires c.Valid()
  {
    Filter(Accepted(c), DrainSort(batch))
  }

  function EmitAll(c: TunnelCodec, batches: seq<seq<PrioritizedFrame>>): seq<PrioritizedFrame>
    requires c.Valid()
  {
    if batches == [] then [] else EmitAll(c, batches[..|batches| - 1]) + EmitBatch(c, batches[|batches| - 1])
  }

  lemma {:induction false} FilterCount(p: PrioritizedFrame -> bool, s: seq<PrioritizedFrame>, x: PrioritizedFrame)
    ensures multiset(Filter(p, s))[x] == if p(x) then multiset(s)[x] else 0
  {
    if s == [] {
    } else {
      FilterCount(p, s[..|s| - 1], x);
      assert s == s[..|s| - 1] + [s[|s| - 1]];
    }
  }

  lemma FilterConserves(p: PrioritizedFrame -> bool, a: seq<PrioritizedFrame>, b: seq<PrioritizedFrame>)
    requires multiset(a) == multiset(b)
    ensures multiset(Filter(p, a)) == multiset(Filter(p, b))
  {
    forall x ensures multiset(Filter(p, a))[x] == multiset(Filter(p, b))[x] {
      FilterCount(p, a, x);
      FilterCount(p, b, x);
    }
  }

  /** Skipping frames keeps a drained batch drained. */
  lemma {:induction false} FilterDrained(q: PrioritizedFrame -> bool, s: seq<PrioritizedFrame>)
    requires Drained(s)
    ensures Drained(Filter(q, s))
  {
    if s == [] {
    } else {
      var front, last := s[..|s| - 1], s[|s| - 1];
      assert s == front + [last];
      assert Drained(front);
      FilterDrained(q, front);
      FilterMembers(q, front);
      FilterPush(q, front, last);
      DrainedFront(s);
      hide Filter, Drained;
      if q(last) {
        DrainedPush(Filter(q, front), last);
      }
    }
  }

  /** What one batch puts on the wire leaves Critical first, then High, Normal and Low. */
  lemma EmitBatchDrained(c: TunnelCodec, batch: seq<PrioritizedFrame>)
    requires c.Valid()
    ensures Drained(EmitBatch(c, batch))
  {
    DrainSortSorts(batch);
    FilterDrained(Accepted(c), DrainSort(batch));
  }

  lemma EmitBatchStable(c: TunnelCodec, q: PrioritizedFrame -> bool, batch: seq<PrioritizedFrame>)
    requires c.Valid() && OnePriority(q, batch)
    ensures Filter(q, EmitBatch(c, batch)) == Filter(q, Filter(Accepted(c), batch))
  {
    FilterFilter(q, Accepted(c), DrainSort(batch));
    DrainSortStable(q, batch);
    FilterFilter(q, Accepted(c), batch);
  }

  /**
   Over any run, whatever the batch boundaries: every accepted frame is emitted once and no other, and
   frames that share a priority keep their arrival order from the first batch to the last.
   */
  lemma {:induction false} SenderConservesOrder(c: TunnelCodec, q: PrioritizedFrame -> bool,
                                                batches: seq<seq<PrioritizedFrame>>)
    requires c.Valid() && OnePriority(q, Flatten(batches))
    ensures multiset(EmitAll(c, batches)) == multiset(Filter(Accepted(c), Flatten(batches)))
    ensures Filter(q, EmitAll(c, batches)) == Filter(q, Filter(Accepted(c), Flatten(batches)))
  {
    if batches == [] {
    } else {
      var front, last := batches[..|batches| - 1], batches[|batches| - 1];
      assert Flatten(batches) == Flatten(front) + last;
      assert forall x :: x in Flatten(front) || x in last ==> x in Flatten(batches);
      SenderConservesOrder(c, q, front);
      EmitBatchStable(c, q, last);
      DrainSortSorts(last);
      FilterConserves(Accepted(c), DrainSort(last), last);
      FilterAppend(Accepted(c), Flatten(front), last);
      FilterAppend(q, EmitAll(c, front), EmitBatch(c, last));
      FilterAppend(q, Filter(Accepted(c), Flatten(front)), Filter(Accepted(c), last));
    }
  }

  // ---------------------------------------------------------------------------------------------
  // Segmented encoding
  // ---------------------------------------------------------------------------------------------

  /** The buffers `encode_frame_segments` pushes: a data payload is a buffer of its own. */
  function Segments(c: TunnelCodec, f: Frame): Result<seq<seq<byte>>, EncodeError>
    requires c.Valid()
  {
    if f.Data? then
      var payloadLen := 6 + |f.data|;
      if payloadLen > c.maxFrameSize then Err(FrameTooLarge(payloadLen))
      else
        var header := PutU32(payloadLen) + [FRAME_TYPE_DATA] + PutU32(f.streamId) + [FlagByte(f.endOfStream)];
        Ok(if f.data == [] then [header] else [header, f.data])
    else
      match Encode(c, f)
      case Ok(bytes) => Ok([bytes])
      case Err(e) => Err(e)
  }

  /** Segmenting accepts the frames `encode` accepts, with the same error otherwise, and the same bytes. */
  lemma SegmentsRefineEncode(c: TunnelCodec, f: Frame)
    requires c.Valid()
    ensures match Segments(c, f)
            case Ok(segments) => Encode(c, f) == Ok(Flatten(segments))
            case Err(e) => Encode(c, f) == Err(e)
  {
    if f.Data? && 6 + |f.data| <= c.maxFrameSize {
      var header := PutU32(6 + |f.data|) + [FRAME_TYPE_DATA] + PutU32(f.streamId) + [FlagByte(f.endOfStream)];
      assert Encode(c, f).value == header + f.data;
      FlattenOne(header);
      FlattenPush([header], f.data);
      assert [header] + [f.data] == [header, f.data];
      assert header + [] == header;
    } else if Encode(c, f).Ok? {
      FlattenOne(Encode(c, f).value);
    }
  }

  lemma FramesOfPush(s: seq<PrioritizedFrame>, x: PrioritizedFrame)
    ensures FramesOf(s + [x]) == FramesOf(s) + [x.frame]
  {
    assert (s + [x])[..|s + [x]| - 1] == s;
  }

  lemma {:induction false} FramesOfAppend(a: seq<PrioritizedFrame>, b: seq<PrioritizedFrame>)
    ensures FramesOf(a + b) == FramesOf(a) + FramesOf(b)
  {
    if b == [] {
      assert a + b == a;
    } else {
      FramesOfAppend(a, b[..|b| - 1]);
      assert (a + b)[..|a + b| - 1] == a + b[..|b| - 1];
    }
  }

  method EncodeBatch(c: TunnelCodec, batch: seq<PrioritizedFrame>) returns (segments: seq<seq<byte>>)
    requires c.Valid()
    ensures Flatten(segments) == EncodeAll(c, FramesOf(batch))
  {
    segments := [];
    for i := 0 to |batch|
      invariant Flatten(segments) == EncodeAll(c, FramesOf(batch[..i]))
    {
      var pushed := Segments(c, batch[i].frame);
      SegmentsRefineEncode(c, batch[i].frame);
      assert batch[..i + 1] == batch[..i] + [batch[i]];
      FramesOfPush(batch[..i], batch[i]);
      EncodeAllAppend(c, FramesOf(batch[..i]), [batch[i].frame]);
      EncodeAllOne(c, batch[i].frame);
      if pushed.Ok? {
        FlattenAppend(segments, pushed.value);
        segments := segments + pushed.value;
      }
    }
    assert batch[..|batch|] == batch;
  }

  /** Skipping rejected frames before encoding, or while encoding, gives the same bytes. */
  lemma {:induction false} EncodeSkipsRejected(c: TunnelCodec, s: seq<PrioritizedFrame>)
    requires c.Valid()
    ensures EncodeAll(c, FramesOf(s)) == EncodeAll(c, FramesOf(Filter(Accepted(c), s)))
  {
    if s == [] {
    } else {
      var front, last := s[..|s| - 1], s[|s| - 1];
      EncodeSkipsRejected(c, front);
      EncodeAllAppend(c, FramesOf(front), [last.frame]);
      EncodeAllOne(c, last.frame);
      var kept := Filter(Accepted(c), front);
      assert s == front + [last];
      FilterPush(Accepted(c), front, last);
      if Accepted(c)(last) {
        FramesOfPush(kept, last);
        EncodeAllAppend(c, FramesOf(kept), [last.frame]);
      } else {
        assert EncodeAll(c, FramesOf(front)) + [] == EncodeAll(c, FramesOf(front));
      }
    }
  }
}
