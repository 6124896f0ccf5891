/**
 Writing batches to the socket (ferrotunnel-core/src/transport/batched_sender.rs): partial vectored
 writes and the sender's outer loop.
 */
module VectoredWrite {
  import opened Seqs
  import opened Frames
  import opened Codec
  import opened BatchedSender

  datatype WriteAnswer = IoFailure | Accepts(n: nat)

  datatype WriteError = Io | WriteZero

  /** A socket that answers its k-th write however it likes: an error, or taking any part of what is offered. */
  class Socket {
    const answers: nat -> WriteAnswer
    var calls: nat
    var written: seq<byte>

    constructor (answers: nat -> WriteAnswer)
      ensures this.answers == answers && calls == 0 && written == []
    {
      this.answers := answers;
      calls := 0;
      written := [];
    }

    method WriteVectored(slices: seq<seq<byte>>) returns (r: Result<nat, WriteError>)
      modifies this
      ensures r.Ok? ==> r.value <= |Flatten(slices)| && written == old(written) + Flatten(slices)[..r.value]
      ensures r.Err? ==> r.error == Io && written == old(written)
    {
      var answer := answers(calls);
      calls := calls + 1;
      if answer.IoFailure? {
        return Err(Io);
      }
      var offered := Flatten(slices);
      var n := Min(answer.n, |offered|);
      written := written + offered[..n];
      r := Ok(n);
    }
  }

  /** How many bytes of `buffers` lie before byte `offset` of buffer `index`. */
  ghost function Position(buffers: seq<seq<byte>>, index: nat, offset: nat): nat
    requires index <= |buffers|
  {
    |Flatten(buffers[..index])| + offset
  }

  lemma FlattenSplit(buffers: seq<seq<byte>>, index: nat)
    requires index <= |buffers|
    ensures Flatten(buffers) == Flatten(buffers[..index]) + Flatten(buffers[index..])
  {
    hide Flatten;
    assert buffers == buffers[..index] + buffers[index..];
    FlattenAppend(buffers[..index], buffers[index..]);
  }

  lemma PositionNext(buffers: seq<seq<byte>>, index: nat)
    requires index < |buffers|
    ensures Position(buffers, index + 1, 0) == Position(buffers, index, |buffers[index]|)
    ensures Position(buffers, index, |buffers[index]|) <= |Flatten(buffers)|
  {
    assert buffers[..index + 1] == buffers[..index] + [buffers[index]];
    FlattenPush(buffers[..index], buffers[index]);
    FlattenSplit(buffers, index + 1);
  }

  lemma PositionEnd(buffers: seq<seq<byte>>)
    ensures Position(buffers, |buffers|, 0) == |Flatten(buffers)|
  {
    assert buffers[..|buffers|] == buffers;
  }

  /** The bytes from the current position on: the rest of this buffer, then the later ones. */
  lemma FlattenFrom(buffers: seq<seq<byte>>, index: nat, offset: nat)
    requires index < |buffers| && offset <= |buffers[index]|
    ensures Position(buffers, index, offset) <= |Flatten(buffers)|
    ensures Flatten(buffers)[Position(buffers, index, offset)..]
         == buffers[index][offset..] + Flatten(buffers[index + 1..])
  {
    hide Flatten;
    FlattenSplit(buffers, index);
    FlattenHead(buffers[index..]);
    assert buffers[index..][1..] == buffers[index + 1..];
    SuffixOfConcat(Flatten(buffers[..index]), buffers[index], offset, Flatten(buffers[index + 1..]));
  }

  lemma SuffixOfConcat(before: seq<byte>, here: seq<byte>, offset: nat, after: seq<byte>)
    requires offset <= |here|
    ensures (before + (here + after))[|before| + offset..] == here[offset..] + after
  {
  }

  /** The slices offered to the socket: what is left, without its empty buffers. */
  method Slices(buffers: seq<seq<byte>>, index: nat, offset: nat) returns (slices: seq<seq<byte>>)
    requires index < |buffers| && offset <= |buffers[index]|
    ensures slices != []
    ensures Position(buffers, index, offset) <= |Flatten(buffers)|
    ensures Flatten(slices) == Flatten(buffers)[Position(buffers, index, offset)..]
  {
    slices := [buffers[index][offset..]];
    FlattenOne(buffers[index][offset..]);
    var later := buffers[index + 1..];
    for k := 0 to |later|
      invariant slices != []
      invariant Flatten(slices) == buffers[index][offset..] + Flatten(later[..k])
    {
      assert later[..k + 1] == later[..k] + [later[k]];
      FlattenPush(later[..k], later[k]);
      if later[k] != [] {
        FlattenPush(slices, later[k]);
        slices := slices + [later[k]];
      }
    }
    assert later[..|later|] == later;
    FlattenFrom(buffers, index, offset);
  }

  /** Step over empty buffers: the position does not move. */
  method SkipEmpty(buffers: seq<seq<byte>>, index: nat) returns (next: nat)
    requires index <= |buffers|
    ensures index <= next <= |buffers|
    ensures Position(buffers, next, 0) == Position(buffers, index, 0)
    ensures next < |buffers| ==> buffers[next] != []
  {
    next := index;
    while next < |buffers| && buffers[next] == []
      invariant index <= next <= |buffers|
      invariant Position(buffers, next, 0) == Position(buffers, index, 0)
    {
      PositionNext(buffers, next);
      next := next + 1;
    }
  }

  /** Move the cursor over the bytes a write took. */
  method Advance(buffers: seq<seq<byte>>, index0: nat, offset0: nat, written: nat) returns (index: nat, offset: nat)
    requires index0 < |buffers| && offset0 < |buffers[index0]|
    requires Position(buffers, index0, offset0) + written <= |Flatten(buffers)|
    ensures index <= |buffers| && offset <= (if index < |buffers| then |buffers[index]| else 0)
    ensures index < |buffers| && buffers[index] != [] ==> offset < |buffers[index]|
    ensures index < |buffers| && buffers[index] == [] ==> offset == 0
    ensures Position(buffers, index, offset) == Position(buffers, index0, offset0) + written
  {
    index, offset := index0, offset0;
    var remaining: nat := written;
    ghost var target := Position(buffers, index0, offset0) + written;
    while remaining > 0 && index < |buffers|
      invariant index <= |buffers|
      invariant index < |buffers| ==> offset < |buffers[index]|
      invariant index == |buffers| ==> offset == 0
      invariant Position(buffers, index, offset) + remaining == target
      decreases |buffers| - index, remaining
    {
      var available := |buffers[index]| - offset;
      if remaining < available {
        offset := offset + remaining;
        remaining := 0;
      } else {
        PositionNext(buffers, index);
        remaining := remaining - available;
        index := SkipEmpty(buffers, index + 1);
        offset := 0;
      }
    }
    if index == |buffers| {
      PositionEnd(buffers);
    }
  }

  /** A place the write loop can stand at. */
  ghost predicate Cursor(buffers: seq<seq<byte>>, index: nat, offset: nat) {
    && index <= |buffers|
    && (index < |buffers| ==> offset <= |buffers[index]| && (buffers[index] != [] ==> offset < |buffers[index]|))
    && (index == |buffers| ==> offset == 0)
  }

  /** One turn of the write loop: skip empty buffers, offer the rest, move over what was taken. */
  method WriteSome(sock: Socket, buffers: seq<seq<byte>>, index0: nat, offset0: nat)
      returns (r: Option<WriteError>, index: nat, offset: nat)
    requires Cursor(buffers, index0, offset0) && index0 < |buffers|
    modifies sock
    ensures var p := Position(buffers, index0, offset0);
            p <= |Flatten(buffers)| && (r.Some? ==> p < |Flatten(buffers)| && sock.written == old(sock.written))
    ensures r.None? ==>
      && Cursor(buffers, index, offset)
      && var p, p' := Position(buffers, index0, offset0), Position(buffers, index, offset);
      && p <= p' <= |Flatten(buffers)|
      && (p < p' || index == |buffers|)
      && sock.written == old(sock.written) + Flatten(buffers)[p..p']
  {
    index, offset := index0, offset0;
    if buffers[index] == [] {
      index := SkipEmpty(buffers, index);
      offset := 0;
    }
    if index >= |buffers| {
      PositionEnd(buffers);
      return None, index, offset;
    }
    FlattenFrom(buffers, index, offset);
    var slices := Slices(buffers, index, offset);
    ghost var p := Position(buffers, index, offset);
    assert |buffers[index][offset..]| > 0;
    var written := sock.WriteVectored(slices);
    if written.Err? {
      return Some(Io), index, offset;
    }
    if written.value == 0 {
      return Some(WriteZero), index, offset;
    }
    assert Flatten(buffers)[p..][..written.value] == Flatten(buffers)[p..p + written.value];
    index, offset := Advance(buffers, index, offset, written.value);
    r := None;
  }

  /**
   Whatever part of each offer the socket takes, success means every byte of the buffers was written
   once and in order, and an error leaves a proper prefix of them written.
   */
  method WriteAllVectored(sock: Socket, buffers: seq<seq<byte>>) returns (r: Option<WriteError>)
    modifies sock
    ensures r.None? ==> sock.written == old(sock.written) + Flatten(buffers)
    ensures r.Some? ==> exists k :: 0 <= k < |Flatten(buffers)| && sock.written == old(sock.written) + Flatten(buffers)[..k]
  {
    var index: nat, offset: nat := 0, 0;
    ghost var all, before, p := Flatten(buffers), sock.written, 0;
    assert before + all[..0] == before;
    while index < |buffers|
      invariant Cursor(buffers, index, offset) && p == Position(buffers, index, offset) <= |all|
      invariant sock.written == before + all[..p]
      decreases |all| - p, |buffers| - index
    {
      ghost var p0 := p;
      r, index, offset := WriteSome(sock, buffers, index, offset);
      if r.Some? {
        return r;
      }
      p := Position(buffers, index, offset);
      assert all[..p0] + all[p0..p] == all[..p];
    }
    PositionEnd(buffers);
    assert all[..|all|] == all;
    r := None;
  }

  // ---------------------------------------------------------------------------------------------
  // The sender task
  // ---------------------------------------------------------------------------------------------

  /** Take what `try_recv` yields, up to the batch limit; the frames in `late` are not in the channel yet. */
  method DrainReady(rx: seq<PrioritizedFrame>, start: nat, next0: nat, late: set<nat>) returns (next: nat)
    requires start <= next0 <= |rx| && next0 <= start + MAX_BATCH_SIZE
    ensures next0 <= next <= |rx| && next <= start + MAX_BATCH_SIZE
    ensures forall k :: next0 <= k < next ==> k !in late
    ensures next == start + MAX_BATCH_SIZE || next == |rx| || next in late
  {
    next := next0;
    while next - start < MAX_BATCH_SIZE && next < |rx| && next !in late
      invariant next0 <= next <= |rx| && next <= start + MAX_BATCH_SIZE
      invariant forall k :: next0 <= k < next ==> k !in late
    {
      next := next + 1;
    }
  }

  /** One batch: the frame waited for, what is queued behind it, and after one yield what has come since. */
  method CollectBatch(rx: seq<PrioritizedFrame>, start: nat, late: set<nat>, veryLate: set<nat>)
      returns (batch: seq<PrioritizedFrame>)
    requires start < |rx|
    ensures 1 <= |batch| <= 256 && start + |batch| <= |rx| && batch == rx[start..start + |batch|]
    ensures var next := start + |batch|;
            || |batch| == 256 || next == |rx| || (if |batch| < 2 then next in late else next in veryLate)
    ensures forall k :: start < k < start + |batch| ==> k !in late || k !in veryLate
    ensures start + 1 in late ==> |batch| == 1
  {
    var next := DrainReady(rx, start, start + 1, late);
    if MIN_FRAMES_FOR_BATCHING <= next - start < MAX_BATCH_SIZE {
      next := DrainReady(rx, start, next, veryLate);
    }
    batch := rx[start..next];
  }

  lemma FlattenExtend(rx: seq<PrioritizedFrame>, batches: seq<seq<PrioritizedFrame>>, taken: nat, batch: seq<PrioritizedFrame>)
    requires taken + |batch| <= |rx| && batch == rx[taken..taken + |batch|] && Flatten(batches) == rx[..taken]
    ensures Flatten(batches + [batch]) == rx[..taken + |batch|]
  {
    FlattenPush(batches, batch);
  }

  lemma EmitAllPush(c: TunnelCodec, batches: seq<seq<PrioritizedFrame>>, batch: seq<PrioritizedFrame>)
    requires c.Valid()
    ensures EmitAll(c, batches + [batch]) == EmitAll(c, batches) + EmitBatch(c, batch)
  {
    assert (batches + [batch])[..|batches + [batch]| - 1] == batches;
  }

  /** The bytes one batch puts on the wire: its frames in drain order, encoded. */
  function BatchBytes(c: TunnelCodec, batch: seq<PrioritizedFrame>): seq<byte>
    requires c.Valid()
  {
    EncodeAll(c, FramesOf(DrainSort(batch)))
  }

  /** Everything the sender writes for a list of batches. */
  function WireOf(c: TunnelCodec, batches: seq<seq<PrioritizedFrame>>): seq<byte>
    requires c.Valid()
  {
    FlatMap(batch => BatchBytes(c, batch), batches)
  }

  lemma WireOfPush(c: TunnelCodec, batches: seq<seq<PrioritizedFrame>>, batch: seq<PrioritizedFrame>)
    requires c.Valid()
    ensures WireOf(c, batches + [batch]) == WireOf(c, batches) + BatchBytes(c, batch)
  {
    assert (batches + [batch])[..|batches + [batch]| - 1] == batches;
  }

  /** What is written is the concatenated encoding of the frames the batches emit. */
  lemma {:induction false} WireIsEncoding(c: TunnelCodec, batches: seq<seq<PrioritizedFrame>>)
    requires c.Valid()
    ensures WireOf(c, batches) == EncodeAll(c, FramesOf(EmitAll(c, batches)))
  {
    if batches == [] {
    } else {
      var front, last := batches[..|batches| - 1], batches[|batches| - 1];
      assert batches == front + [last];
      WireIsEncoding(c, front);
      WireOfPush(c, front, last);
      EmitAllPush(c, front, last);
      FramesOfAppend(EmitAll(c, front), EmitBatch(c, last));
      EncodeAllAppend(c, FramesOf(EmitAll(c, front)), FramesOf(EmitBatch(c, last)));
      EncodeSkipsRejected(c, DrainSort(last));
    }
  }

  /** Sort, encode and write one batch; a batch the encoder rejects entirely writes nothing. */
  method SendBatch(c: TunnelCodec, batch: seq<PrioritizedFrame>, sock: Socket) returns (r: Option<WriteError>)
    requires c.Valid()
    modifies sock
    ensures r.None? ==> sock.written == old(sock.written) + BatchBytes(c, batch)
    ensures old(sock.written) <= sock.written <= old(sock.written) + BatchBytes(c, batch)
  {
    var segments := EncodeBatch(c, DrainSort(batch));
    if segments == [] {
      assert sock.written + [] == sock.written;
      return None;
    }
    r := WriteAllVectored(sock, segments);
  }

  /** The sender's account so far: which frames are batched, and what the socket holds of them. */
  ghost predicate Account(c: TunnelCodec, rx: seq<PrioritizedFrame>, taken: nat, batches: seq<seq<PrioritizedFrame>>,
                          before: seq<byte>, now: seq<byte>)
    requires c.Valid()
  {
    && taken <= |rx| && Flatten(batches) == rx[..taken]
    && (forall k :: 0 <= k < |batches| ==> 1 <= |batches[k]| <= MAX_BATCH_SIZE)
    && now == before + WireOf(c, batches)
  }

  lemma AccountPush(c: TunnelCodec, rx: seq<PrioritizedFrame>, taken: nat, batches: seq<seq<PrioritizedFrame>>,
                    before: seq<byte>, now: seq<byte>, batch: seq<PrioritizedFrame>)
    requires c.Valid() && Account(c, rx, taken, batches, before, now)
    requires 1 <= |batch| <= MAX_BATCH_SIZE && taken + |batch| <= |rx| && batch == rx[taken..taken + |batch|]
    ensures Account(c, rx, taken + |batch|, batches + [batch], before, now + BatchBytes(c, batch))
  {
    hide Flatten, WireOf, BatchBytes;
    FlattenExtend(rx, batches, taken, batch);
    WireOfPush(c, batches, batch);
  }

  lemma AccountStarts(c: TunnelCodec, rx: seq<PrioritizedFrame>, before: seq<byte>)
    requires c.Valid()
    ensures Account(c, rx, 0, [], before, before)
  {
    hide BatchBytes;
  }

  /** The bytes of a batch are its encodable frames, each once, Critical first, then High, Normal and Low. */
  ghost predicate SentByPriority(c: TunnelCodec, batch: seq<PrioritizedFrame>)
    requires c.Valid()
  {
    var sent := EmitBatch(c, batch);
    && Drained(sent)
    && multiset(sent) == multiset(Filter(Accepted(c), batch))
    && BatchBytes(c, batch) == EncodeAll(c, FramesOf(sent))
  }

  lemma BatchSentByPriority(c: TunnelCodec, batch: seq<PrioritizedFrame>)
    requires c.Valid()
    ensures SentByPriority(c, batch)
  {
    EmitBatchDrained(c, batch);
    DrainSortSorts(batch);
    FilterConserves(Accepted(c), DrainSort(batch), batch);
    EncodeSkipsRejected(c, DrainSort(batch));
    hide Drained, DrainSort, EncodeAll, FramesOf, Filter;
  }

  /** Where the account stands when the sender stops, having written at least `low` of it. */
  lemma AccountEnds(c: TunnelCodec, rx: seq<PrioritizedFrame>, taken: nat, batches: seq<seq<PrioritizedFrame>>,
                    before: seq<byte>, full: seq<byte>, low: seq<byte>, now: seq<byte>)
    requires c.Valid() && Account(c, rx, taken, batches, before, full)
    requires before <= low <= now <= full
    ensures Flatten(batches) <= rx && (taken == |rx| ==> Flatten(batches) == rx)
    ensures forall k :: 0 <= k < |batches| ==> 1 <= |batches[k]| <= MAX_BATCH_SIZE && SentByPriority(c, batches[k])
    ensures before <= now <= before + WireOf(c, batches) && full == before + WireOf(c, batches)
  {
    hide WireOf, Flatten, SentByPriority;
    forall k | 0 <= k < |batches| ensures SentByPriority(c, batches[k]) {
      BatchSentByPriority(c, batches[k]);
    }
  }

  lemma AccountGrows(c: TunnelCodec, rx: seq<PrioritizedFrame>, taken: nat, batches: seq<seq<PrioritizedFrame>>,
                     before: seq<byte>, now: seq<byte>)
    requires c.Valid() && Account(c, rx, taken, batches, before, now)
    ensures before <= now && taken <= |rx|
  {
    hide WireOf, Flatten;
  }

  /**
   The sender task over everything it receives before the channel closes: the batches partition what it
   took, in order, each is sent by priority, and the socket holds their bytes; after a write error it holds a
   prefix of them.
   */
  method RunBatchedSender(c: TunnelCodec, rx: seq<PrioritizedFrame>, late: set<nat>, veryLate: set<nat>, sock: Socket)
      returns (clean: bool, batches: seq<seq<PrioritizedFrame>>)
    requires c.Valid()
    modifies sock
    ensures Flatten(batches) <= rx
    ensures forall k :: 0 <= k < |batches| ==> 1 <= |batches[k]| <= 256 && SentByPriority(c, batches[k])
    ensures clean ==> Flatten(batches) == rx && sock.written == old(sock.written) + WireOf(c, batches)
    ensures old(sock.written) <= sock.written <= old(sock.written) + WireOf(c, batches)
  {
    hide Account, WireOf, BatchBytes, Flatten, SentByPriority;
    batches := [];
    var taken: nat := 0;
    ghost var before := sock.written;
    AccountStarts(c, rx, before);
    while taken < |rx|
      invariant taken <= |rx|
      invariant Account(c, rx, taken, batches, before, sock.written)
      decreases |rx| - taken
    {
      var batch := CollectBatch(rx, taken, late, veryLate);
      ghost var low := sock.written;
      AccountGrows(c, rx, taken, batches, before, low);
      AccountPush(c, rx, taken, batches, before, low, batch);
      var error := SendBatch(c, batch, sock);
      batches, taken := batches + [batch], taken + |batch|;
      if error.Some? {
        AccountEnds(c, rx, taken, batches, before, low + BatchBytes(c, batch), low, sock.written);
        return false, batches;
      }
    }
    AccountGrows(c, rx, taken, batches, before, sock.written);
    AccountEnds(c, rx, taken, batches, before, sock.written, sock.written, sock.written);
    clean := true;
  }
}
