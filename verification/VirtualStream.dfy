/** The byte-stream ends of a multiplexed stream (ferrotunnel-core/src/stream/multiplexer.rs, `VirtualStream`). */
module VirtualStreams {
  import opened Seqs
  import opened Frames

  const MAX_DATA_FRAME_PAYLOAD: nat := 64 * 1024

  function Payload(f: Frame): seq<byte> {
    if f.Data? then f.data else []
  }

  /** The bytes a sequence of frames carries. */
  function DataBytes(fs: seq<Frame>): seq<byte> {
    FlatMap(Payload, fs)
  }

  lemma DataBytesPush(fs: seq<Frame>, f: Frame)
    ensures DataBytes(fs + [f]) == DataBytes(fs) + Payload(f)
  {
    FlatMapAppend(Payload, fs, [f]);
    FlatMapOne(Payload, f);
  }

  lemma DataBytesPrefix(a: seq<Frame>, b: seq<Frame>)
    requires a <= b
    ensures DataBytes(a) <= DataBytes(b)
  {
    assert b == a + b[|a|..];
    FlatMapAppend(Payload, a, b[|a|..]);
  }

  // ---------------------------------------------------------------------------------------------
  // Reading
  // ---------------------------------------------------------------------------------------------

  /** How much of the channel was received, and what did not fit the caller's buffer. */
  datatype ReadState = ReadState(consumed: nat, buffered: seq<byte>)

  /** An end of stream is a ready read of no bytes; it is kept apart here only to say where it came from. */
  datatype ReadPoll = ReadReady(bytes: seq<byte>) | ReadEof | ReadPending

  /** One `poll_read` with room for `cap` bytes; `disconnected` answers a receive on an empty channel. */
  function PollRead(log: seq<Frame>, st: ReadState, cap: nat, disconnected: bool): (r: (ReadState, ReadPoll)) {
    if st.buffered != [] then
      var n := Min(cap, |st.buffered|);
      (st.(buffered := st.buffered[n..]), ReadReady(st.buffered[..n]))
    else if st.consumed >= |log| then
      (st, if disconnected then ReadEof else ReadPending)
    else
      match log[st.consumed]
      case Data(_, bytes, _) =>
        var n := Min(cap, |bytes|);
        (ReadState(st.consumed + 1, bytes[n..]), ReadReady(bytes[..n]))
      case CloseStream(_, _) => (st.(consumed := st.consumed + 1), ReadEof)
      case _ => (st.(consumed := st.consumed + 1), ReadPending)
  }

  function BytesOf(p: ReadPoll): seq<byte> {
    if p.ReadReady? then p.bytes else []
  }

  /** What the caller has read, and what is buffered for it, is what the received frames carried. */
  ghost predicate ReadSoFar(log: seq<Frame>, st: ReadState, read: seq<byte>) {
    st.consumed <= |log| && read + st.buffered == DataBytes(log[..st.consumed])
  }

  /** No poll loses, repeats or reorders a byte, whatever the caller's buffer. */
  lemma PollReadKeeps(log: seq<Frame>, st: ReadState, read: seq<byte>, cap: nat, disconnected: bool)
    requires ReadSoFar(log, st, read)
    ensures var (st', poll) := PollRead(log, st, cap, disconnected);
            ReadSoFar(log, st', read + BytesOf(poll)) && st.consumed <= st'.consumed
  {
    var (st', poll) := PollRead(log, st, cap, disconnected);
    if st.buffered != [] {
      assert st.buffered == BytesOf(poll) + st'.buffered;
      assert read + st.buffered == read + BytesOf(poll) + st'.buffered;
    } else if st.consumed < |log| {
      var f := log[st.consumed];
      assert log[..st.consumed + 1] == log[..st.consumed] + [f];
      DataBytesPush(log[..st.consumed], f);
      assert read + [] == read;
      assert Payload(f) == BytesOf(poll) + st'.buffered;
      assert read + (BytesOf(poll) + st'.buffered) == read + BytesOf(poll) + st'.buffered;
    }
  }

  /**
   What a poll answers. The end of the stream: nothing is buffered, and a close comes next or the channel is empty for
   good. Nothing yet: nothing is buffered, and the channel is empty for now or something else comes next. Otherwise
   bytes, and at least one if there is one and room for it.
   */
  lemma PollReadAnswers(log: seq<Frame>, st: ReadState, cap: nat, disconnected: bool)
    ensures var poll, empty := PollRead(log, st, cap, disconnected).1, st.consumed >= |log|;
            && (poll.ReadEof? <==>
                  st.buffered == [] && (if empty then disconnected else log[st.consumed].CloseStream?))
            && (poll.ReadPending? <==>
                  st.buffered == [] && (if empty then !disconnected else !log[st.consumed].CloseStream? && !log[st.consumed].Data?))
            && (cap > 0 && (st.buffered != [] || (!empty && Payload(log[st.consumed]) != [])) ==>
                  poll.ReadReady? && poll.bytes != [])
            && |BytesOf(poll)| <= cap
  {
  }

  /** The polls of a reader, one after the other, while its channel receives nothing more. */
  function PollAll(log: seq<Frame>, st: ReadState, caps: seq<nat>): ReadState {
    if caps == [] then st else PollRead(log, PollAll(log, st, caps[..|caps| - 1]), caps[|caps| - 1], false).0
  }

  /** How many polls a channel can take: one for each frame and each byte not read yet. */
  function Unread(log: seq<Frame>, st: ReadState): nat
    decreases |log| - st.consumed
  {
    |st.buffered| +
    if st.consumed >= |log| then 0
    else 1 + |Payload(log[st.consumed])| + Unread(log, ReadState(st.consumed + 1, []))
  }

  lemma PollReadsOn(log: seq<Frame>, st: ReadState, cap: nat)
    requires cap >= 1 && st.consumed <= |log|
    ensures var st' := PollRead(log, st, cap, false).0;
            st'.consumed <= |log| && (Unread(log, st') < Unread(log, st) || (Unread(log, st) == 0 && st' == st))
  {
    if st.buffered != [] {
      var n := Min(cap, |st.buffered|);
      UnreadBuffered(log, st.consumed, st.buffered, st.buffered[n..]);
    } else if st.consumed < |log| {
      var st' := PollRead(log, st, cap, false).0;
      UnreadBuffered(log, st.consumed + 1, [], st'.buffered);
    }
  }

  lemma UnreadBuffered(log: seq<Frame>, consumed: nat, a: seq<byte>, b: seq<byte>)
    ensures Unread(log, ReadState(consumed, a)) + |b| == Unread(log, ReadState(consumed, b)) + |a|
  {
  }

  /** A reader that keeps polling, with any room at all, empties its channel: after at most that many polls. */
  lemma {:induction false} PollsEmptyChannel(log: seq<Frame>, st: ReadState, caps: seq<nat>)
    requires st.consumed <= |log| && forall i :: 0 <= i < |caps| ==> caps[i] >= 1
    ensures PollAll(log, st, caps).consumed <= |log|
    ensures Unread(log, PollAll(log, st, caps)) <= if |caps| <= Unread(log, st) then Unread(log, st) - |caps| else 0
    ensures |caps| >= Unread(log, st) ==> PollAll(log, st, caps) == ReadState(|log|, [])
  {
    hide PollRead;
    if caps == [] {
    } else {
      PollsEmptyChannel(log, st, caps[..|caps| - 1]);
      PollReadsOn(log, PollAll(log, st, caps[..|caps| - 1]), caps[|caps| - 1]);
    }
  }

  // ---------------------------------------------------------------------------------------------
  // Writing
  // ---------------------------------------------------------------------------------------------

  /** The data frame a write of `buf` puts in flight: its first 64 KiB. */
  function WriteFrame(s: u32, buf: seq<byte>): (f: Frame)
    ensures f.Data? && |f.data| <= MAX_DATA_FRAME_PAYLOAD && f.data <= buf && (buf != [] ==> f.data != [])
  {
    Data(s, buf[..Min(|buf|, MAX_DATA_FRAME_PAYLOAD)], false)
  }

  /** The frames of a caller that writes what is left of `buf` until nothing is. */
  function WholeWrite(s: u32, buf: seq<byte>): seq<Frame>
    decreases |buf|
  {
    if buf == [] then []
    else
      var f := WriteFrame(s, buf);
      [f] + WholeWrite(s, buf[|f.data|..])
  }

  /** How many chunks of 64 KiB there are in `n` bytes, the last one perhaps shorter. */
  function ChunkCount(n: nat): nat {
    (n + 65535) / 65536
  }

  /**
   A write of any size is cut into frames of its stream that carry all of it, in order: as many as there are chunks of
   64 KiB, all of them full but the last, and none of them empty.
   */
  lemma {:induction false} WholeWriteCarriesAll(s: u32, buf: seq<byte>)
    ensures DataBytes(WholeWrite(s, buf)) == buf
    ensures |WholeWrite(s, buf)| == ChunkCount(|buf|)
    ensures var fs := WholeWrite(s, buf);
            forall i :: 0 <= i < |fs| ==>
              && fs[i].Data? && fs[i].streamId == s && !fs[i].endOfStream
              && 1 <= |fs[i].data| <= 65536 && (i < |fs| - 1 ==> |fs[i].data| == 65536)
    decreases |buf|
  {
    if buf == [] {
    } else {
      var f := WriteFrame(s, buf);
      var rest := buf[|f.data|..];
      WholeWriteCarriesAll(s, rest);
      FlatMapAppend(Payload, [f], WholeWrite(s, rest));
      FlatMapOne(Payload, f);
      assert f.data + rest == buf;
      hide DataBytes;
      assert rest != [] ==> |f.data| == 65536 && ChunkCount(|rest| + 65536) == ChunkCount(|rest|) + 1;
    }
  }

  function ShutdownFrame(s: u32): Frame {
    CloseStream(s, NormalClose)
  }

  /** What polling the bounded send gives: still waiting for room, sent, or failed. */
  datatype SendPoll = Waiting | Sent | SendFailed

  datatype WritePoll = WritePending | Wrote(n: nat) | WriteFailed

  datatype ShutdownPoll = ShutdownPending | ShutdownDone | ShutdownFailed

  /** The wire channel: every frame that ever entered it. */
  class WireChannel {
    var sent: seq<PrioritizedFrame>

    constructor ()
      ensures sent == []
    {
      sent := [];
    }

    method Complete(poll: SendPoll, item: PrioritizedFrame)
      modifies this
      ensures sent == if poll.Sent? then old(sent) + [item] else old(sent)
    {
      if poll.Sent? {
        sent := sent + [item];
      }
    }
  }

  /** A stream's receiving channel. */
  class FrameChannel {
    var log: seq<Frame>

    constructor ()
      ensures log == []
    {
      log := [];
    }
  }

  class VirtualStream {
    const streamId: u32
    const priority: StreamPriority
    const rx: FrameChannel
    const tx: WireChannel
    /** The pooled buffer and its cursor; the pool hands it out empty and nothing ever fills it. */
    var readBuffer: seq<byte>
    var readBufferPos: nat
    var readBufferBytes: Option<seq<byte>>
    var consumed: nat
    var pendingSend: Option<PrioritizedFrame>
    var pendingSendLen: nat

    ghost predicate Valid()
      reads this
    {
      && readBuffer == [] && readBufferPos == 0
      && (pendingSend.Some? ==>
            && pendingSend.value.priority == priority
            && pendingSendLen == |Payload(pendingSend.value.frame)|
            && StreamOf(pendingSend.value.frame) == Some(streamId))
      && (pendingSend.None? ==> pendingSendLen == 0)
    }

    ghost function Reading(): ReadState
      reads this
    {
      ReadState(consumed, if readBufferBytes.Some? then readBufferBytes.value else [])
    }

    constructor (streamId: u32, rx: FrameChannel, tx: WireChannel, priority: StreamPriority)
      ensures Valid() && Reading() == ReadState(0, []) && pendingSend.None?
      ensures this.streamId == streamId && this.rx == rx && this.tx == tx && this.priority == priority
    {
      this.streamId, this.rx, this.tx, this.priority := streamId, rx, tx, priority;
      readBuffer, readBufferPos, readBufferBytes, consumed := [], 0, None, 0;
      pendingSend, pendingSendLen := None, 0;
    }

    /** Buffered bytes first, then one received frame; what does not fit is kept for the next poll. */
    method Read(cap: nat, disconnected: bool) returns (poll: ReadPoll)
      requires Valid()
      modifies this`readBuffer, this`readBufferPos, this`readBufferBytes, this`consumed
      ensures Valid()
      ensures (Reading(), poll) == PollRead(rx.log, old(Reading()), cap, disconnected)
    {
      if readBufferBytes.Some? {
        var buffered := readBufferBytes.value;
        if buffered != [] {
          var n := Min(cap, |buffered|);
          poll := ReadReady(buffered[..n]);
          buffered := buffered[n..];
          readBufferBytes := if buffered == [] then None else Some(buffered);
          return;
        }
        readBufferBytes := None;
      }
      var bufferedRemaining := |readBuffer| - readBufferPos;
      if bufferedRemaining > 0 {
        assert false;
      }
      if consumed >= |rx.log| {
        return if disconnected then ReadEof else ReadPending;
      }
      var frame := rx.log[consumed];
      consumed := consumed + 1;
      match frame {
        case Data(_, bytes, _) =>
          var n := Min(cap, |bytes|);
          if n < |bytes| {
            readBufferBytes := Some(bytes[n..]);
          } else {
            assert bytes[n..] == [];
          }
          poll := ReadReady(bytes[..n]);
        case CloseStream(_, _) =>
          poll := ReadEof;
        case _ =>
          poll := ReadPending;
      }
    }

    /** Poll the send in flight, if any, and clear it once it is over. */
    method PollPending(poll: SendPoll)
      requires Valid() && pendingSend.Some?
      modifies this`pendingSend, this`pendingSendLen, tx
      ensures Valid()
      ensures pendingSend == if poll.Waiting? then old(pendingSend) else None
      ensures tx.sent == if poll.Sent? then old(tx.sent) + [old(pendingSend).value] else old(tx.sent)
    {
      tx.Complete(poll, pendingSend.value);
      if !poll.Waiting? {
        pendingSend, pendingSendLen := None, 0;
      }
    }

    /**
     A write finishes the frame in flight before it starts another, and reports `n` bytes written exactly
     when one data frame of `n` bytes has entered the wire channel (none, for a close left in flight). A frame it
     starts carries the first 64 KiB of `buf`, or all of it.
     */
    method Write(buf: seq<byte>, poll: SendPoll) returns (r: WritePoll)
      requires Valid()
      modifies this`pendingSend, this`pendingSendLen, tx
      ensures Valid()
      ensures var item := if old(pendingSend).Some? then old(pendingSend).value else PF(priority, WriteFrame(streamId, buf));
              && (r.WritePending? <==> poll.Waiting?) && (r.WriteFailed? <==> poll.SendFailed?)
              && (r.Wrote? ==> r.n == |Payload(item.frame)|)
              && tx.sent == (if r.Wrote? then old(tx.sent) + [item] else old(tx.sent))
              && pendingSend == (if r.WritePending? then Some(item) else None)
      ensures old(pendingSend).None? && r.Wrote? ==> r.n == if |buf| <= 65536 then |buf| else 65536
    {
      if pendingSend.None? {
        var frame := WriteFrame(streamId, buf);
        pendingSendLen := |frame.data|;
        pendingSend := Some(PF(priority, frame));
      }
      var bytesWritten := pendingSendLen;
      PollPending(poll);
      match poll {
        case Waiting => r := WritePending;
        case Sent => r := Wrote(bytesWritten);
        case SendFailed => r := WriteFailed;
      }
    }

    /** A shutdown first settles the frame in flight, ignoring how it ended, then sends the close frame. */
    method Shutdown(first: SendPoll, second: SendPoll) returns (r: ShutdownPoll)
      requires Valid()
      modifies this`pendingSend, this`pendingSendLen, tx
      ensures Valid()
      ensures var close := PF(priority, CloseStream(streamId, NormalClose));
              var settled := if old(pendingSend).Some? && first.Sent? then old(tx.sent) + [old(pendingSend).value] else old(tx.sent);
              if old(pendingSend).Some? && first.Waiting? then
                r.ShutdownPending? && tx.sent == old(tx.sent) && pendingSend == old(pendingSend)
              else
                && (r.ShutdownPending? <==> second.Waiting?) && (r.ShutdownDone? <==> second.Sent?)
                && tx.sent == (if second.Sent? then settled + [close] else settled)
                && pendingSend == (if second.Waiting? then Some(close) else None)
    {
      if pendingSend.Some? {
        PollPending(first);
        if pendingSend.Some? {
          return ShutdownPending;
        }
      }
      pendingSend := Some(PF(priority, ShutdownFrame(streamId)));
      PollPending(second);
      match second {
        case Waiting => r := ShutdownPending;
        case Sent => r := ShutdownDone;
        case SendFailed => r := ShutdownFailed;
      }
    }
  }
}
