# ferrotunnel: a verified model of the tunnel data path

ferrotunnel carries many byte streams over one connection. A virtual stream cuts what is written to it into
data frames; a bounded channel carries the frames to a sender task, which drains them in batches, sorts each
batch by priority and writes it with partial vectored writes; the peer decodes an arbitrarily chunked byte
stream, dispatches every frame to the channel of its stream through a one-entry sender cache, and hands the
bytes to readers with buffers of any size. Around that path sit the session index, the per-session rate limiter,
a circuit breaker and an HTTP/1.1 connection pool.

This project models those parts in Dafny and proves what they promise, for every input, every run and every
interleaving. Nothing was executed: the results are proofs about the model.

## How the model is built

- **Operations that change state** are methods on classes or on buffers, as in the source, each proved equal to a
  function of the old state (`Codec`/`CodecOps`, `VectoredWrite`, `Multiplexing`, `VirtualStreams`,
  `BoundedSend`, `Sessions`, `ShardedSessions`, `RateLimit`, `RateLimitedStreams`, `TunnelServer`, `CircuitBreaker`,
  `IdlePool`).
  The theorems are then about those functions.
- **The whole data path** is a state machine over two peers (`Pipeline`). One step is one thing either side can
  do: allocate a stream, start or finish a send, take a batch, have the socket accept some bytes, receive some
  bytes, dispatch one frame, deny one, read, drop. A run is any list of possible steps. Channels are unbounded
  there, so every run with bounded channels is one of these runs. `PipelineInvariant` states what every step
  keeps, `PipelineSteps`, `PipelineWire` and `PipelineDispatch` prove it step by step, `PipelineTheorems` draws
  the conclusions, and `PipelineCalls` states them from the writer's calls to the reader's polls.
- **Concurrent map operations** of the session store are atomic steps that any number of callers interleave
  (`SessionSteps`, `CleanupSteps` for the cleanup task, and `ShardedSteps` for the sharded store).
- **The environment** (lock attempts, socket answers, channel answers, timers, clocks, closed connections) is a
  parameter of every step or method, so each result holds for whatever it answers.
- **The wire format** is stated by itself, byte by byte (`WireFormat`), and encoder and decoders are proved against it.
- **bincode** is a pair of functions carried by the codec. Two hypotheses about it appear where they are needed:
  `Faithful` (reading back a serialized frame gives that frame, or an error) and `Complete` (a frame within the
  limits is read back, under any allocation limit that leaves it the documented 64 KiB of headroom). The
  delivery theorems need only `Faithful`. `Complete` speaks for the configured limits: a collection claims its
  length times its element size up front, so with limits on entry counts raised far above the defaults the real
  serializer may refuse a frame that `Complete` says is read back. The round-trip results are then about smaller
  limits only.
- **governor** is a token bucket. Time is measured in the tokens that refill while it passes: a second is `rate`
  units, so "burst plus rate times t" reads `burst + elapsed`.

## Where the code does less than one would expect

Each of these is kept as the code has it and shown by a lemma that gives the exact condition.

- Virtual streams cut writes at 64 KiB whatever the codec's limit is, and the sender skips a frame that does not
  fit. Delivered bytes are a prefix of the written ones for all writes if and only if `max_frame_size` is at
  least 65542 or below 7 (`NoGapIff`); the configuration check accepts every limit from 1.
- The cached sender is not cleared when a stream closes. Up to the first `CloseStream` delivery is exact however
  the `try_lock`s answer (`CacheIsTransparent`). What is delivered in all is a prefix of what was dispatched,
  however they answer, if and only if the frames dispatched after the close are all the same (`PrefixIff`);
  `LockFailureLosesBytes` is a whole run in which a reader misses bytes.
- The encoder does not validate, so a frame that fits survives the round trip if and only if it is a data frame or
  within the decoder's limits (`RoundTripIff`).
- A control-typed body that deserializes to a data frame is delivered by the owned decoder and skipped by the
  zero-copy one. The two agree if and only if the buffer holds no such body (`ZeroCopyAgreesIff`,
  `ZeroCopyMissesControlTypedData`).
- `check_data` clamps at `u32::MAX`: it charges the payload if and only if the payload fits a `u32`
  (`CheckDataCharges`). The byte budget of a session's streams therefore holds in every run if and only if the
  configured burst is below `u32::MAX` (`BudgetIff`).
- Adding a session whose id is already stored under another tunnel id leaves a dangling index entry: adding keeps
  the index exact if and only if that is not so (`AddKeepsIndexIff`). A sharded store stops simulating the single
  one exactly when an operation reaches across shards, as adding an id that another shard holds does (`TracksIff`,
  `ReusedIdSplits`).
- Between the two steps of a removal an `add` is refused although no stored session has the tunnel id
  (`RefusedIff`, `RefusedWithoutSession`).
- While a frame waits for room in its stream's channel nothing refreshes the session. Scans find it fresh throughout
  if and only if that wait is at most 90 seconds (`FreshIff`, `BlockedHandOnGoesStale`).
- The cleanup scans first and removes afterwards. A session it removes is still stale if and only if no heartbeat
  came in between (`EvictedWasStale`); `RefreshedIsEvicted` is a run in which one did.

## Model

| member | source | states |
|---|---|---|
| PipelineTheorems.BytesReadArePrefix | ferrotunnel-core/src/stream/multiplexer.rs:191-579 | In every run of two peers, with any frame limits and any interleaving of streams, batches, partial socket writes, wire chunking, reader buffers and lock failures, what a reader has read up to its first close is a prefix of the bytes its peer put in the wire channel for that stream and could encode; if no lock failed or nothing was written after a shutdown, so is everything it ever reads; and with a writer's limit of at least 65542 that is all the bytes put there. |
| PipelineTheorems.CloseMeansComplete | ferrotunnel-core/src/stream/multiplexer.rs:283-606 | If no write follows a shutdown, a reader that consumes its `CloseStream` has by then read exactly all the bytes put in the channel for the stream that could be encoded, and with a writer's limit of at least 65542 all of them: the sort never moves the close ahead of data. |
| PipelineTheorems.OpenStreamLosesNothing | ferrotunnel-core/src/stream/multiplexer.rs:191-579 | In every run, on a stream nobody has closed and however the locks answered: once everything its writer put in the wire channel is taken, written, received and decoded, a living reader that has emptied its channel has read exactly the bytes that could be encoded. |
| PipelineTheorems.RunKeepsInv | ferrotunnel-core/src/stream/multiplexer.rs:172-619 | The invariant that ties the two peers together (routing, ids, batching, wire bytes, arrival order, readers) holds after every run. |
| PipelineTheorems.DispatchedConveys | ferrotunnel-core/src/transport/batched_sender.rs:41-117 | The frames dispatched for a stream carry, in order, a prefix of the bytes put in the channel for it that the encoder accepts, and all of them once a close is among them. |
| PipelineTheorems.OpenNeverDuplicate | ferrotunnel-core/src/stream/multiplexer.rs:199-207 | Between two such peers no `OpenStream` arrives for a stream that is or was registered: the "already exists" branch is never taken. |
| PipelineTheorems.AllocatedIdIsNew | ferrotunnel-core/src/stream/multiplexer.rs:172-176 | The next id of a peer has that peer's parity, is above all its earlier ids, and was never used on either side. |
| PipelineTheorems.ExhaustedForever | ferrotunnel-core/src/stream/multiplexer.rs:172-176 | Once a peer's stream ids are used up, its counter never moves again and it never allocates another, along every continuation of the run. |
| PipelineCalls.BytesPutAreWritten | ferrotunnel-core/src/stream/multiplexer.rs:527-619 | In every run, the bytes put in the wire channel for a stream are exactly those of the writes that went through on it, read off the calls alone: in order, each up to its first 64 KiB, none added and none missing. |
| PipelineCalls.ReadIsPrefixOfWritten | ferrotunnel-core/src/stream/multiplexer.rs:456-579 | From call to call: with a writer's limit of at least 65542, what a reader has read up to its first close is, in every run, a prefix of what was written at the other side. |
| PipelineCalls.OpenStreamDelivers | ferrotunnel-core/src/stream/multiplexer.rs:456-579 | Once everything put on an unclosed stream has arrived and been decoded, a reader that polls on, with any room at all, reads exactly what could be encoded, after at most as many polls as its channel has frames and bytes. |
| PipelineCalls.EndMeansComplete | ferrotunnel-core/src/stream/multiplexer.rs:456-523 | In every run, a reader told its stream has ended, on a connected channel, has reached a close, and if no write follows a shutdown has by then read everything that could be encoded. |
| PipelineCalls.DroppedReaderRefuses | ferrotunnel-core/src/stream/multiplexer.rs:227-239 | A dropped reader gets nothing more, and the next data frame for its stream unregisters it. |
| PipelineCalls.FaultlessIff | ferrotunnel-core/src/stream/multiplexer.rs:259-274 | A side counts as faultless exactly when no lock attempt failed in any dispatch of the run. |
| PipelineCalls.BatchGoesByPriority | ferrotunnel-core/src/transport/batched_sender.rs:82-100 | Each batch a run emits is what it took of the wire channel and could encode, Critical first, then High, Normal and Low. |
| PipelineCalls.AllocationsExact | ferrotunnel-core/src/stream/multiplexer.rs:172-176 | In every run a client has allocated the first odd ids and a server the first even ones; the next allocation succeeds if and only if there were fewer than 2^31 - 1, or 2^31 - 2 at the server. |
| PipelineCalls.DeniedOpensNothing | ferrotunnel-core/src/tunnel/server.rs:433-449 | A denied `OpenStream` opens no stream, channel or reader, and is answered, if the answer can be sent, by a `CloseStream` for it and nothing else. |
| PipelineWire.NextFrame | ferrotunnel-protocol/src/codec.rs:291-372 | Whatever part of the peer's bytes has arrived, the next frame decoded is the next frame the peer encoded, never another one. |
| PipelineDispatch.OpenIsFirst | ferrotunnel-core/src/stream/multiplexer.rs:283-307 | When an `OpenStream` arrives, nothing else of that stream has, its id is the peer's to allocate, and this side does not know it. |
| PipelineProgress.BytesCanArrive | ferrotunnel-core/src/stream/multiplexer.rs:283-579 | Some run carries any write of up to 64 KiB from one side's writer to the other side's reader, complete: the safety theorems are not empty. |
| PipelineProgress.LockFailureLosesBytes | ferrotunnel-core/src/stream/multiplexer.rs:241-274 | A run in which a client shuts its stream down and then writes `x` and `y`, the server's lock fails on the first, and its reader reads `y` only, which is no prefix of the bytes put: the side condition of the prefix theorem is needed. |
| Codec.ChunkingIrrelevant | ferrotunnel-protocol/src/codec.rs:291-372 | Cut in any pieces, a byte stream decodes to the same frames and the same first error as when it is decoded whole, and what is left over is the same, or, after an error, the part of it that was fed. |
| Codec.StreamRoundTrip | ferrotunnel-protocol/src/codec.rs:291-440 | Decoding the concatenated encodings of any list of frames that fit and are valid returns the list and leaves nothing. |
| Codec.ChunkedRoundTrip | ferrotunnel-protocol/src/codec.rs:291-440 | The same when the concatenation arrives in any pieces. |
| Codec.RoundTripIff | ferrotunnel-protocol/src/codec.rs:291-440 | A frame is encoded and decodes to itself if and only if it fits (data with its six header bytes, anything else serialized with its type byte) and is a data frame or within the validation limits. |
| Codec.DecodeEncoded | ferrotunnel-protocol/src/codec.rs:291-440 | Even between peers with different limits an encoded frame decodes to itself or to an error, never to another frame; a data frame that fits always arrives. |
| Codec.DecodeLimitTracksLength | ferrotunnel-protocol/src/codec.rs:223-285 | The allocation limit of a control body is at least its size plus 64 KiB (up to 16 MiB), at most twice that, and never above 16 MiB. |
| Codec.DecodeLimitMonotone | ferrotunnel-protocol/src/codec.rs:261-285 | A longer body never gets a smaller limit. |
| Codec.DecodeLimitClosedForm | ferrotunnel-protocol/src/codec.rs:261-285 | The limit is the power of two the size and headroom round up to, from 128 KiB to 16 MiB. |
| Codec.EncodeIff | ferrotunnel-protocol/src/codec.rs:378-440 | The encoder takes exactly the frames that fit and serialize; a refusal says which of the two failed, and the length it measured. |
| WireFormat.EncodedLayout | ferrotunnel-protocol/src/codec.rs:378-440 | An encoded frame is four big-endian length bytes, then type 1, the big-endian stream id, a flag of 0 or 1 and the payload; or type 0 and the serialization. |
| WireFormat.HeaderOutcome | ferrotunnel-protocol/src/codec.rs:291-332 | A decoder waits for five bytes, refuses a length of zero or above its limit without consuming anything, and else waits for the whole frame; the zero-copy parser does the same. |
| WireFormat.FrameIsThere | ferrotunnel-protocol/src/codec.rs:322-332 | Any other buffer is a whole frame and a rest, so the outcomes here and below cover every buffer. |
| WireFormat.FrameOutcome | ferrotunnel-protocol/src/codec.rs:334-372 | A whole frame is always consumed: type 1 yields the data laid out in it or is too short, type 0 what bincode reads from it or one of three errors, any other type is refused. |
| WireFormat.TrailingBytesRefused | ferrotunnel-protocol/src/codec.rs:230-246 | A control frame is accepted if and only if bincode consumed all of its body and the result is within the limits. |
| WireFormat.ZeroCopyOutcome | ferrotunnel-protocol/src/codec.rs:185-208 | The zero-copy parser finds the data laid out in a whole frame of type 1, complains if it is too short, and steps over any other. |
| Validation.ValidateIffBounded | ferrotunnel-protocol/src/validation.rs:111-254 | A frame is accepted if and only if every variable-length part of it is within its limit. |
| WireFormat.RejectionIsTrue | ferrotunnel-protocol/src/validation.rs:111-254 | A rejection always names something the frame really violates. |
| CodecOps.Decode | ferrotunnel-protocol/src/codec.rs:291-372 | One decode call on the buffer: an incomplete frame leaves it alone, a frame or a bad body is consumed, with the result the specification gives. |
| CodecOps.DecodeBatch | ferrotunnel-protocol/src/codec.rs:139-156 | The batch loop appends every frame before the first incomplete frame or error, leaves the rest, and reports the bytes consumed. |
| CodecOps.EncodeInto | ferrotunnel-protocol/src/codec.rs:378-440 | Encoding appends the frame's bytes, or reports the error and leaves the buffer as it was; which frames are taken is `EncodeIff`, and their bytes `EncodedLayout`. |
| CodecOps.DecodeDataFramesZeroCopy | ferrotunnel-protocol/src/codec.rs:161-212 | The offset loop returns the data frames of the buffer, in order, with the consumed count or the first error. |
| CodecOps.ZeroCopyAgreesIff | ferrotunnel-protocol/src/codec.rs:139-212 | Whenever the owned batch decoder succeeds so does the zero-copy one, over the same bytes; they return the same data frames if and only if no control-typed body deserializes to a data frame. |
| CodecOps.ZeroCopyMissesControlTypedData | ferrotunnel-protocol/src/codec.rs:185-208 | Such a buffer exists for every serializer that can carry a data frame: one decoder returns the frame, the other nothing. |
| BatchedSender.DrainSortSorts | ferrotunnel-core/src/transport/batched_sender.rs:82-83 | A batch leaves as a permutation of itself with no frame behind one it should precede: behind Low only Low, behind Normal no High or Critical, behind High no Critical. |
| BatchedSender.DrainSortStable | ferrotunnel-core/src/transport/batched_sender.rs:82-83 | Frames that share a priority leave in the order they came in. |
| BatchedSender.StableSortIsUnique | ferrotunnel-core/src/transport/batched_sender.rs:82-83 | Sorted, with each priority in arrival order, determines the result: any stable sort gives this one. |
| BatchedSender.SenderConservesOrder | ferrotunnel-core/src/transport/batched_sender.rs:51-100 | Over any run and any batch boundaries, the accepted frames are emitted exactly once each, and frames of one priority keep their arrival order across batches. |
| BatchedSender.SegmentsRefineEncode | ferrotunnel-core/src/transport/batched_sender.rs:122-164 | Segmented encoding accepts the frames contiguous encoding accepts, with the same error otherwise, and its segments are the same bytes. |
| BatchedSender.EncodeBatch | ferrotunnel-core/src/transport/batched_sender.rs:95-100 | The segments of a batch, put together, are the encodings of its accepted frames in order. |
| VectoredWrite.WriteAllVectored | ferrotunnel-core/src/transport/batched_sender.rs:166-220 | Whatever part of each offer the socket takes, success means every byte was written once and in order, and an error leaves a proper prefix. |
| VectoredWrite.Advance | ferrotunnel-core/src/transport/batched_sender.rs:202-216 | The cursor over the buffers moves by exactly the bytes written, across buffer ends and empty buffers. |
| VectoredWrite.CollectBatch | ferrotunnel-core/src/transport/batched_sender.rs:51-80 | A batch is a non-empty run of consecutive frames of the channel; it ends only at 256 frames, at the end of what was ever sent, or at a frame that had not arrived when it was last looked for, which is once more after a yield if the batch has at least two frames. |
| VectoredWrite.WireIsEncoding | ferrotunnel-core/src/transport/batched_sender.rs:82-115 | What is written for a list of batches is the concatenated encoding of the frames they emit. |
| VectoredWrite.RunBatchedSender | ferrotunnel-core/src/transport/batched_sender.rs:41-117 | The sender task partitions what it receives into consecutive batches of at most 256, each of which it sends as its encodable frames, Critical first, then High, Normal and Low; at a clean end the socket holds all their bytes, after an error a prefix of them. |
| Multiplexing.Multiplexer.AllocateStreamId | ferrotunnel-core/src/stream/multiplexer.rs:172-176 | Allocation advances by two or, once the counter would overflow, fails and changes nothing. |
| Multiplexing.Multiplexer.FindAndCache | ferrotunnel-core/src/stream/multiplexer.rs:259-274 | The sender found, and the cache left behind, for every answer of the two lock attempts. |
| Multiplexing.Multiplexer.Process | ferrotunnel-core/src/stream/multiplexer.rs:191-257 | Dispatch of one frame: the whole new state of maps, cache and channels, for every frame and every answer of the environment. |
| Multiplexing.CacheOutcome | ferrotunnel-core/src/stream/multiplexer.rs:259-274 | With the lock a cached sender of the stream is used and kept; otherwise the map decides, and what it finds is cached if and only if the lock can be had then. |
| Multiplexing.OpenOutcome | ferrotunnel-core/src/stream/multiplexer.rs:193-226 | An `OpenStream` for a registered stream changes nothing; else the stream gets its own channel and priority, and is registered if and only if the new-stream queue takes it, its channel being dead otherwise. |
| Multiplexing.RefusedOpenIsForgotten | ferrotunnel-core/src/stream/multiplexer.rs:222-256 | Frames for a stream whose opening the queue refused reach no channel. |
| Multiplexing.PriorityIsTheStreams | ferrotunnel-core/src/stream/multiplexer.rs:145-159 | A stream's data and close are sent at the priority it was opened with until a close for it arrives; heartbeats and handshake answers at Critical, all else at Normal. |
| Multiplexing.ProcessRouted | ferrotunnel-core/src/stream/multiplexer.rs:191-274 | Every dispatch keeps the routing: a map or cache entry leads to a channel made for that stream, and a channel only holds frames of its stream. |
| Multiplexing.DeliveryStep | ferrotunnel-core/src/stream/multiplexer.rs:227-274 | A frame for a stream keeps the account of its channel: exactly what was dispatched up to the first close, and a prefix afterwards if no lock failed. |
| Multiplexing.DeliveryOther | ferrotunnel-core/src/stream/multiplexer.rs:191-257 | Frames of other streams do not touch that account. |
| Multiplexing.CacheIsTransparent | ferrotunnel-core/src/stream/multiplexer.rs:227-274 | For every list of frames and every pattern of lock failures, a stream's channel receives up to its first close exactly what a plain map lookup would deliver. |
| Multiplexing.PrefixIff | ferrotunnel-core/src/stream/multiplexer.rs:227-274 | For every list of dispatched frames: what the stream's channel holds is a prefix of them, however the locks answer, if and only if the frames dispatched after its first close are all the same. |
| VirtualStreams.PollReadKeeps | ferrotunnel-core/src/stream/multiplexer.rs:456-523 | No poll loses, repeats or reorders a byte, for any caller buffer: what was read and what is buffered is what the received frames carried. |
| VirtualStreams.PollReadAnswers | ferrotunnel-core/src/stream/multiplexer.rs:456-523 | A poll answers the end of the stream if and only if nothing is buffered and a close comes next or the channel is empty for good; nothing yet if and only if nothing is buffered and the channel is empty for now or something else comes next; otherwise bytes, at least one if there is one and room for it. |
| VirtualStreams.PollsEmptyChannel | ferrotunnel-core/src/stream/multiplexer.rs:456-523 | A reader that keeps polling, with any room at all, empties its channel after at most one poll for each frame and byte in it. |
| VirtualStreams.WholeWriteCarriesAll | ferrotunnel-core/src/stream/multiplexer.rs:547-551 | A write of any size, continued until nothing is left, is cut into frames that carry all of it in order: ceil(n / 65536) of them, all full but the last, none empty. |
| VirtualStreams.VirtualStream.Read | ferrotunnel-core/src/stream/multiplexer.rs:456-523 | The poll on the stream's fields does what those laws say and keeps the stream valid. |
| VirtualStreams.VirtualStream.Write | ferrotunnel-core/src/stream/multiplexer.rs:527-579 | A write reports `n` bytes exactly when one frame carrying `n` bytes has entered the wire channel, and `n` is all of the buffer or its first 64 KiB; a frame in flight is finished first, and none is lost or sent twice. |
| VirtualStreams.VirtualStream.Shutdown | ferrotunnel-core/src/stream/multiplexer.rs:586-619 | The close is sent only after the frame in flight is settled, however that ended. |
| BoundedSend.SendPrioritizedFrame | ferrotunnel-core/src/stream/multiplexer.rs:79-104 | For every schedule of channel answers and late timers: the frame is in the channel once if the send reports success and not at all otherwise, a timeout is reported only past the deadline and after a refusal, and there are at most 504 attempts; exactly 504 on a channel that stays full, with exact timers. |
| FrameSizes.ChunkFitsIff | ferrotunnel-core/src/stream/multiplexer.rs:547-551 | Every frame a write can build is encodable if and only if the frame limit is at least 65542. |
| FrameSizes.NoGapIff | ferrotunnel-core/src/transport/batched_sender.rs:95-143 | The bytes that survive encoding are a prefix of the written ones, for all writes, if and only if the limit is at least 65542 or below 7. |
| Sessions.AddKeepsIndexIff | ferrotunnel-core/src/tunnel/session.rs:98-134 | A refused add changes nothing; an accepted add, and a replacement, keep the two maps inverse if and only if the id is not stored under another tunnel id. |
| Sessions.AddRefusedIff | ferrotunnel-core/src/tunnel/session.rs:98-117 | An add is refused if and only if another stored session has the tunnel id; the same session may be added again. |
| Sessions.AddStores | ferrotunnel-core/src/tunnel/session.rs:98-117 | An accepted session is found by id and by tunnel id, and every other lookup answers as before. |
| Sessions.RemoveTakesOut | ferrotunnel-core/src/tunnel/session.rs:156-163 | Removed sessions are found neither by id nor by tunnel id, and every other lookup answers as before. |
| Sessions.ReplacedIsGone | ferrotunnel-core/src/tunnel/session.rs:121-134 | After a replacement the tunnel id leads to the new session, the replaced one is gone, and no other session changed. |
| Sessions.SessionStore.AddSession | ferrotunnel-core/src/tunnel/session.rs:98-117 | The add is refused exactly when another session holds the tunnel id; both maps afterwards. |
| Sessions.SessionStore.AddOrReplaceSession | ferrotunnel-core/src/tunnel/session.rs:121-134 | Both maps after a replacement. |
| Sessions.SessionStore.Remove | ferrotunnel-core/src/tunnel/session.rs:156-163 | The removed session is returned, and it and its index entry are gone. |
| Sessions.SessionStore.CleanupStaleSessions | ferrotunnel-core/src/tunnel/session.rs:172-191 | Scan and removals together remove exactly the sessions that were stale, and report how many. |
| Sessions.SessionStore.FindMultiplexerWithCapability | ferrotunnel-core/src/tunnel/session.rs:203-212 | The scan returns the multiplexer of some session with the capability, and none exactly when no session has both. |
| ShardedSessions.ShardedSimulates | ferrotunnel-core/src/tunnel/session.rs:223-375 | So for every sequence of operations that never adds an id stored under another tunnel id, every hash and every number of shards, the sharded store gives the single store's answers, keeps every session in the shard of its tunnel id and no id in two shards. |
| ShardedSessions.TracksIff | ferrotunnel-core/src/tunnel/session.rs:223-375 | For every sequence of operations, every hash and every number of shards, the sharded store simulates the single one at every step if and only if no accepted session has an id another shard holds and no index entry that is used leads to a session of another shard. |
| ShardedSessions.SimStepIff | ferrotunnel-core/src/tunnel/session.rs:247-375 | One operation on both stores: the same answer and shards that stay the slices of the single store, if and only if the operation does not reach across shards. |
| ShardedSessions.SimPlacement | ferrotunnel-core/src/tunnel/session.rs:223-228 | In a simulating state every session sits in the shard its tunnel id hashes to, and no id in two. |
| ShardedSessions.ShardedSessionStore.AddSession | ferrotunnel-core/src/tunnel/session.rs:247-268 | Claim and insert on the shard's two maps: against any single store whose slices these shards are, the answer is that store's, an accepted session is then found by its tunnel id, and the shards stay the slices if and only if the add was refused or the id is not in another shard. |
| ShardedSessions.ShardedSessionStore.AddOrReplaceSession | ferrotunnel-core/src/tunnel/session.rs:271-284 | A replacement on the shard's two maps: the shards stay the slices of the single store if and only if neither the new id nor the replaced session is in another shard. |
| ShardedSessions.ShardedSessionStore.FindByTunnelId | ferrotunnel-core/src/tunnel/session.rs:297-305 | Looking in one shard only gives the answer of every indexed single store these shards are the slices of. |
| ShardedSessions.ShardedSessionStore.GetSession | ferrotunnel-core/src/tunnel/session.rs:287-294 | The scan returns the session of the first shard that holds the id, or none if no shard does. |
| ShardedSessions.ShardedSessionStore.RemoveSession | ferrotunnel-core/src/tunnel/session.rs:318-326 | The scan removes the session from that shard only, and returns it. |
| ShardedSessions.ShardedSessionStore.Count | ferrotunnel-core/src/tunnel/session.rs:329-331 | The sum over the shards. |
| ShardedSessions.ShardedSessionStore.CleanupStaleSessions | ferrotunnel-core/src/tunnel/session.rs:334-349 | Every stale id is removed by scan as often as it is stale in a shard, and counted so; with no id in two shards that leaves every shard without exactly its stale sessions. |
| ShardedSessions.ShardedSessionStore.FindMultiplexerWithCapability | ferrotunnel-core/src/tunnel/session.rs:364-375 | The scan over the shards returns the multiplexer of some session with the capability, and none exactly when no shard has one. |
| SessionSteps.RunInv | ferrotunnel-core/src/tunnel/session.rs:98-191 | The invariant over stored sessions, index entries and half-finished calls holds after every interleaving of map steps. |
| SessionSteps.StoredSessionsAreIndexed | ferrotunnel-core/src/tunnel/session.rs:98-163 | After every interleaving, each stored session is the one its tunnel id maps to, so no tunnel id has two sessions. |
| SessionSteps.RemovalIsItsOwn | ferrotunnel-core/src/tunnel/session.rs:156-163 | The second step of a pending removal deletes its own index entry, and no other. |
| SessionSteps.UninterruptedIsSequential | ferrotunnel-core/src/tunnel/session.rs:98-163 | After every interleaving, with nobody in between, the steps of an add, a removal and a lookup are the operations of the sequential store. |
| SessionSteps.LookupIsRight | ferrotunnel-core/src/tunnel/session.rs:142-148 | A lookup by tunnel id, however its two reads are separated, only returns a session of that tunnel id. |
| SessionSteps.QuietStoreIsIndexed | ferrotunnel-core/src/tunnel/session.rs:98-163 | With no call in progress the two maps are inverse. |
| SessionSteps.RefusedIff | ferrotunnel-core/src/tunnel/session.rs:98-117 | A tunnel id is refused if and only if a session with it is stored, being added or being removed. |
| SessionSteps.RefusedWithoutSession | ferrotunnel-core/src/tunnel/session.rs:98-163 | A run in which an add is refused while the store is empty. |
| CleanupSteps.EvictedWasStale | ferrotunnel-core/src/tunnel/session.rs:172-191 | After every interleaving of scans, removals, heartbeats, adds and lookups: a session a cleanup is about to take out is the one its scan noted, which was stale then; it still is if and only if no heartbeat came in between. |
| CleanupSteps.ScanNotesTheStale | ferrotunnel-core/src/tunnel/session.rs:172-184 | A scan notes exactly the sessions without a heartbeat for longer than the timeout. |
| CleanupSteps.EvictTakesOne | ferrotunnel-core/src/tunnel/session.rs:186-188 | A removal step of the cleanup takes out that session and nothing else, and leaves its index entry to the next step. |
| CleanupSteps.RefreshedIsEvicted | ferrotunnel-core/src/tunnel/session.rs:172-191 | A run in which a heartbeat comes between scan and removal, and the fresh session is evicted. |
| ShardedSteps.RunInv | ferrotunnel-core/src/tunnel/session.rs:247-349 | The invariant of each shard, and that every id ever used belongs to the shard of its tunnel id and to no other, hold after every interleaving of map steps over all the shards. |
| ShardedSteps.StoredSessionsAreAtHome | ferrotunnel-core/src/tunnel/session.rs:247-326 | After every interleaving, each stored session is in the shard of its tunnel id, where that tunnel id leads to it, and over all the shards no id and no tunnel id has two sessions. |
| ShardedSteps.ShardLookupIsRight | ferrotunnel-core/src/tunnel/session.rs:297-305 | A lookup by tunnel id in its shard, its two reads apart, only returns a session of that tunnel id. |
| ShardedSteps.QuietShardsSimulate | ferrotunnel-core/src/tunnel/session.rs:247-349 | After every interleaving, whenever no call is in progress, the shards are the slices of one store whose two maps are inverse. |
| ShardedSteps.UninterruptedIsSequential | ferrotunnel-core/src/tunnel/session.rs:247-326 | With nobody in between, the steps of an add on the shard of its tunnel id, and of a removal on the shard that holds the session, are the sequential operations of the sharded store. |
| RateLimit.ChunkCapBounds | ferrotunnel-core/src/rate_limit.rs:36-180 | For every configuration: a rate or factor of zero counts as one and one above 2^32 - 1 as that, the burst is their product or that, and a throttle chunk is the burst or 30 seconds of quota, whichever is less, and never empty. |
| RateLimit.CheckDataCharges | ferrotunnel-core/src/rate_limit.rs:90-104 | A failed check charges nothing; a successful one charges exactly the payload if and only if it fits a `u32`. |
| RateLimit.PayConserves | ferrotunnel-core/src/rate_limit.rs:90-146 | All the tokens ever paid stay within the burst plus the refill since the bucket was made. |
| RateLimit.ChunksRoundsUp | ferrotunnel-core/src/rate_limit.rs:122-128 | The number of chunks is the payload over the cap, rounded up. |
| RateLimit.PayChunksStops | ferrotunnel-core/src/rate_limit.rs:122-146 | A throttle polled at one instant stops paying only when the bucket it leaves has too little for the next chunk. |
| RateLimit.PayChunksPays | ferrotunnel-core/src/rate_limit.rs:122-146 | Polled when there is enough for the next chunk, it pays that chunk at least. |
| RateLimit.WaitAffords | ferrotunnel-core/src/rate_limit.rs:130-146 | A bucket left alone affords any chunk it can hold once that many tokens have refilled. |
| RateLimit.SessionRateLimiter.ThrottleData | ferrotunnel-core/src/rate_limit.rs:122-146 | A throttle charges exactly the payload in that many chunks, each within the bucket's capacity; two progress reports are at most 30 seconds apart, one timer's lateness, and the time that makes up for what other users of the bucket draw meanwhile, which is none for a sole one. |
| RateLimitedStreams.SessionStaysInBudget | ferrotunnel-core/src/stream/rate_limited.rs:82-159 | In every run of a session's streams, each hands out in order a prefix of what it read, nothing of a read is released while any of it is owed, and all bytes released by time t are at most burst plus rate times t plus what the check let pass uncharged, which is nothing if the burst is below `u32::MAX`. |
| RateLimitedStreams.BudgetIff | ferrotunnel-core/src/rate_limit.rs:90-104 | The bytes released stay within burst plus rate times t in every run if and only if the configured burst is below `u32::MAX`. |
| RateLimitedStreams.PollAccounts | ferrotunnel-core/src/stream/rate_limited.rs:82-159 | One poll loses, repeats and reorders nothing, and tokens paid plus tokens owed grow by exactly the bytes read, less what passes uncharged, which takes a saturated burst and a read above 2^32 - 1 bytes. |
| RateLimitedStreams.PollAnswers | ferrotunnel-core/src/stream/rate_limited.rs:82-159 | With withheld bytes a poll answers nothing while any of them is owed, then those bytes; without, what the wrapped stream answers, except that bytes not paid for at once are withheld. |
| RateLimitedStreams.WithheldIsReleased | ferrotunnel-core/src/stream/rate_limited.rs:82-159 | Polled whenever the bucket has enough for a chunk, a withheld read is handed out after at most as many polls as its debt has chunks, however large it is against the burst. |
| RateLimitedStreams.RateLimitedStream.Read | ferrotunnel-core/src/stream/rate_limited.rs:82-159 | The poll on the stream's fields and the shared limiter does what that specification says. |
| RateLimitedStreams.RateLimitedStream.DrainPending | ferrotunnel-core/src/stream/rate_limited.rs:56-69 | Withheld bytes are handed out from where the last drain stopped, and the buffer is dropped once empty. |
| TunnelServer.ThrottleNeverEvicts | ferrotunnel-core/src/tunnel/server.rs:421-477 | A cleanup that scans at any time between the first and the last heartbeat of a throttle, which are at most 30 seconds and one timer's lateness apart, does not find the session stale, unless a timer is over a minute late. |
| TunnelServer.FreshIff | ferrotunnel-core/src/tunnel/server.rs:421-500 | Handing a frame on refreshes nothing: with a hand-on that takes `wait`, every scan from the frame's arrival until the loop is done with it finds the session fresh if and only if `wait` is at most 90 seconds. |
| TunnelServer.BlockedHandOnGoesStale | ferrotunnel-core/src/tunnel/server.rs:495-499 | A stream channel without room that blocks the hand-on for 91 seconds lets a scan find the session stale. |
| TunnelServer.DecodedIsDecodable | ferrotunnel-protocol/src/codec.rs:97-127 | No decoded data frame holds more than the largest frame, whichever type byte it came under. |
| TunnelServer.MessageLoop.HandleFrame | ferrotunnel-core/src/tunnel/server.rs:421-497 | One frame: the session is found and touched or the loop ends, an `OpenStream` over the limit is denied, all else is handed on in full; every scan from arrival until done finds the session fresh, however long the frame is throttled, if and only if handing it on takes at most 90 seconds. |
| TunnelServer.MessageLoop.ProcessMessages | ferrotunnel-core/src/tunnel/server.rs:398-505 | The frames handled are handed on in order and in full; the data bytes dispatched by time t are at most burst plus rate times t; a clean end removes the session. |
| CircuitBreaker.ClosedUntilFailureRun | ferrotunnel-plugin/src/builtin/circuit_breaker.rs:126-152 | Just closed, the breaker stays closed if and only if the log has no max(1, threshold) failures in a row; the failure that completes such a run opens it. |
| CircuitBreaker.HalfOpenUntilDecided | ferrotunnel-plugin/src/builtin/circuit_breaker.rs:105-152 | Half open, it stays so if and only if there is no failure and fewer than max(1, quota) successes; a failure opens it, the success that meets the quota closes it with a clean count. |
| CircuitBreaker.OpenUntilLateRequest | ferrotunnel-plugin/src/builtin/circuit_breaker.rs:76-102 | Open, it stays open if and only if no request comes the open duration or more after the latest failure, including failures recorded while open. |
| CircuitBreaker.RefusedIff | ferrotunnel-plugin/src/builtin/circuit_breaker.rs:76-152 | After any log, a request is refused if and only if the phase read off the log is open and the latest failure of the log is too recent. |
| CircuitBreaker.CountersNeverWrap | ferrotunnel-plugin/src/builtin/circuit_breaker.rs:105-152 | No sequence of calls makes an atomic counter wrap, and the recorded failure time is the latest of the log. |
| CircuitBreaker.BreakerIsLog | ferrotunnel-plugin/src/builtin/circuit_breaker.rs:76-152 | For every sequence of calls on a new breaker, its state is the one read off the log alone, and its counters are the failures in a row since it closed, the successes since it half opened and the time of the latest failure. |
| CircuitBreaker.CircuitBreakerPlugin.ShouldAllow | ferrotunnel-plugin/src/builtin/circuit_breaker.rs:76-102 | The answer and the new state of one request. |
| CircuitBreaker.CircuitBreakerPlugin.RecordSuccess | ferrotunnel-plugin/src/builtin/circuit_breaker.rs:105-123 | The new state after a success. |
| CircuitBreaker.CircuitBreakerPlugin.RecordFailure | ferrotunnel-plugin/src/builtin/circuit_breaker.rs:126-152 | The new state after a failure. |
| IdlePool.PoolStaysOrdered | ferrotunnel-http/src/pool.rs:97-238 | After every interleaving of acquire, release and evict the pool is in order of release and within its limit, and no connection is idle twice or both idle and handed out. |
| IdlePool.PopTakesNewest | ferrotunnel-http/src/pool.rs:97-116 | After every interleaving, a turn of the reuse loop hands out the most recently released connection if usable, dials only an empty pool, and a turn that finds that one expired leaves no usable one. |
| IdlePool.AcquireIsNewestUsable | ferrotunnel-http/src/pool.rs:97-116 | If some idle connection is open and has not been idle for the timeout, an undisturbed acquire returns such a one, and none of them was released later. |
| IdlePool.UsableIsNeverDropped | ferrotunnel-http/src/pool.rs:97-238 | No turn and no eviction drops a usable idle connection: it stays idle or is handed out. |
| IdlePool.EvictLeavesUsable | ferrotunnel-http/src/pool.rs:225-238 | An eviction leaves exactly the idle connections that are open and not idle for too long. |
| IdlePool.ReleaseKeeps | ferrotunnel-http/src/pool.rs:141-164 | A connection given back is the newest idle one, unless it is closed or the pool is full. |
| IdlePool.ConnectionPool.AcquireH1 | ferrotunnel-http/src/pool.rs:97-116 | The reuse loop hands out the last connection that is open and not idle for too long and discards exactly those behind it; it dials only when there is none such. |
| IdlePool.ConnectionPool.ReleaseH1 | ferrotunnel-http/src/pool.rs:141-164 | A released connection is kept, as the newest, unless it is closed or the pool is full. |
| IdlePool.ConnectionPool.EvictExpired | ferrotunnel-http/src/pool.rs:225-238 | Eviction keeps exactly the usable connections, in order. |

## Left out

- bincode, governor, kanal, DashMap, quinn and hyper internals: they appear as a pair of functions, a token bucket, FIFO channels and atomic map steps.
- Governor's rounding to whole nanoseconds and the fairness between tasks that wait on one limiter.
- Liveness: that a blocked send, a full per-stream channel or a waiting reader is ever woken. The pipeline's channels are unbounded, which covers every bounded run and says nothing about progress.
- The pipeline's two peers are conforming ones; any other peer is covered only by the per-operation results (`Decode`, `Process`, `ProcessRouted`).
- Handshake, version negotiation and authentication: short branches around the parts modelled here.
- The server's frame loop for sessions without a rate limiter, and its exits on decoding and multiplexer errors.
- The stream-open limiter and `wait_for_data`: one-line calls into governor. The denial branch is a pipeline step whose condition is left to the environment.
- `FramedRead` at end of input: what the decoder does with an incomplete last frame when the connection ends.
- The lengths and limits printed in validation errors; only the kind of rejection is modelled.
- The pooled read buffer: the pool hands it out empty and nothing fills it, so `poll_read`'s branch for it is proved unreachable and its body is not modelled.
- `acquire_h2` and the dialling of connections.
- `add_or_replace` under concurrency: nothing in the server calls it, and it is not atomic against `remove`.
- Calls of the circuit breaker that race with each other: every call is one atomic step.
- TLS and QUIC transport set-up, the CLI, dashboard, metrics, tracing and builders.
- HTTP ingress, HTTP/3 forwarding, header stripping and host normalization.
- Reconnect and accept backoff, the byte and object pools, the plugin registry, logger, token authentication and limits validation: only easy members would be added.
