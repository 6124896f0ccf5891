/** Reads withheld until they are paid for (ferrotunnel-core/src/stream/rate_limited.rs). */
module RateLimitedStreams {
  import opened Seqs
  import opened Frames
  import opened RateLimit

  /** What the wrapped stream answers a read; an empty read is its end. */
  datatype Inner = InnerPending | InnerError | InnerRead(bytes: seq<byte>)

  datatype Poll = PollPending | PollError | PollReady(bytes: seq<byte>)

  /** `throttle` is what is still owed for the bytes in `pending`. */
  datatype Limited = Limited(pending: seq<byte>, released: nat, throttle: Option<nat>)

  const EMPTY := Limited([], 0, None)

  // ---------------------------------------------------------------------------------------------
  // One poll, as a function of the stream and the session's bucket
  // ---------------------------------------------------------------------------------------------

  ghost predicate WellFormed(st: Limited) {
    && (st.released < |st.pending| || (st.released == 0 && st.pending == []))
    && (st.throttle.Some? ==> st.released == 0 && 0 < st.throttle.value <= |st.pending|)
  }

  function Drain(st: Limited, cap: nat): (r: (Limited, seq<byte>))
    requires st.released <= |st.pending|
  {
    var take := Min(|st.pending| - st.released, cap);
    var out := st.pending[st.released..st.released + take];
    if st.released + take == |st.pending| then (Limited([], 0, st.throttle), out)
    else (st.(released := st.released + take), out)
  }

  /** `read` is what was taken from the wrapped stream, and `uncharged` how much of it nobody will pay for. */
  datatype Result = Result(st: Limited, bucket: Bucket, poll: Poll, read: seq<byte>, uncharged: nat)

  /** The part of a poll after any earlier debt is settled. */
  function PollSettled(st: Limited, b: Bucket, cap: nat, inner: Inner, now: real): Result
    requires WellFormed(st) && Conserved(b) && b.at <= now
  {
    if st.pending != [] then
      var (st', out) := Drain(st, cap);
      Result(st', b, PollReady(out), [], 0)
    else
      match inner
      case InnerPending => Result(EMPTY, b, PollPending, [], 0)
      case InnerError => Result(EMPTY, b, PollError, [], 0)
      case InnerRead(bytes) =>
        if bytes == [] then Result(EMPTY, b, PollReady([]), [], 0)
        else if DataFits(b, |bytes|, now) then
          var (st', out) := Drain(Limited(bytes, 0, None), cap);
          Result(st', CheckData(b, |bytes|, now), PollReady(out), bytes, Uncharged(|bytes|))
        else
          var (b', owed) := PayChunks(b, |bytes|, now);
          if owed == 0 then
            var (st', out) := Drain(Limited(bytes, 0, None), cap);
            Result(st', b', PollReady(out), bytes, 0)
          else Result(Limited(bytes, 0, Some(owed)), b', PollPending, bytes, 0)
  }

  function PollRead(st: Limited, b: Bucket, cap: nat, inner: Inner, now: real): Result
    requires WellFormed(st) && Conserved(b) && b.at <= now
  {
    if cap == 0 then Result(st, b, PollReady([]), [], 0)
    else if st.throttle.Some? then
      var (b', owed) := PayChunks(b, st.throttle.value, now);
      if owed > 0 then Result(st.(throttle := Some(owed)), b', PollPending, [], 0)
      else PollSettled(st.(throttle := None), b', cap, inner, now)
    else PollSettled(st, b, cap, inner, now)
  }

  // ---------------------------------------------------------------------------------------------
  // The stream as an object
  // ---------------------------------------------------------------------------------------------

  class RateLimitedStream {
    const limiter: SessionRateLimiter
    var pending: seq<byte>
    var released: nat
    var throttle: Option<nat>

    ghost function State(): Limited
      reads this
    {
      Limited(pending, released, throttle)
    }

    constructor (limiter: SessionRateLimiter)
      ensures this.limiter == limiter && State() == EMPTY
    {
      this.limiter := limiter;
      pending, released, throttle := [], 0, None;
    }

    method DrainPending(cap: nat) returns (out: seq<byte>, some: bool)
      requires released <= |pending|
      modifies this`pending, this`released
      ensures old(released) < |old(pending)| ==> (State(), out) == Drain(old(State()), cap) && (some <==> cap > 0)
      ensures old(released) == |old(pending)| ==> !some && State() == old(State()) && out == []
    {
      if released == |pending| {
        return [], false;
      }
      var take := Min(|pending| - released, cap);
      out := pending[released..released + take];
      released := released + take;
      if released == |pending| {
        pending, released := [], 0;
      }
      some := take > 0;
    }

    method Read(cap: nat, inner: Inner, now: real) returns (poll: Poll, ghost read: seq<byte>, ghost uncharged: nat)
      requires WellFormed(State()) && limiter.Valid() && limiter.bucket.at <= now
      modifies this, limiter
      ensures limiter.Valid() && limiter.bucket.at <= now
      ensures Result(State(), limiter.bucket, poll, read, uncharged) == PollRead(old(State()), old(limiter.bucket), cap, inner, now)
    {
      read, uncharged := [], 0;
      if cap == 0 {
        return PollReady([]), [], 0;
      }
      if throttle.Some? {
        var owed := limiter.PollThrottle(throttle.value, now);
        if owed > 0 {
          throttle := Some(owed);
          return PollPending, [], 0;
        }
        throttle := None;
      }
      var out, some := DrainPending(cap);
      if some {
        return PollReady(out), [], 0;
      }
      pending, released := [], 0;
      if !inner.InnerRead? {
        return if inner.InnerPending? then PollPending else PollError, [], 0;
      }
      pending := inner.bytes;
      if pending == [] {
        return PollReady([]), [], 0;
      }
      read := pending;
      var fits := limiter.Check(|pending|, now);
      if fits {
        uncharged := Uncharged(|pending|);
        out, some := DrainPending(cap);
        return PollReady(out), read, uncharged;
      }
      var owed := limiter.PollThrottle(|pending|, now);
      if owed == 0 {
        out, some := DrainPending(cap);
        return PollReady(out), read, uncharged;
      }
      throttle := Some(owed);
      poll := PollPending;
    }
  }

  // ---------------------------------------------------------------------------------------------
  // Nothing lost, nothing unpaid
  // ---------------------------------------------------------------------------------------------

  function Owed(st: Limited): nat {
    if st.throttle.Some? then st.throttle.value else 0
  }

  function OutOf(p: Poll): seq<byte> {
    if p.PollReady? then p.bytes else []
  }

  /** All that was read is what was handed out, then what is withheld. */
  ghost predicate Ordered(st: Limited, read: seq<byte>, out: seq<byte>) {
    WellFormed(st) && read == out + st.pending[st.released..]
  }

  lemma DrainKeeps(st: Limited, cap: nat, read: seq<byte>, out: seq<byte>)
    requires Ordered(st, read, out) && st.throttle.None? && cap > 0
    ensures var (st', more) := Drain(st, cap);
            Ordered(st', read, out + more) && st'.throttle.None?
  {
    var (st', more) := Drain(st, cap);
    var take := Min(|st.pending| - st.released, cap);
    SliceSplit(st.pending, st.released, take);
    if st.released + take == |st.pending| {
      assert st'.pending[st'.released..] == st.pending[st.released + take..];
    }
    assert out + (more + st'.pending[st'.released..]) == (out + more) + st'.pending[st'.released..];
  }

  lemma SliceSplit(p: seq<byte>, from: nat, take: nat)
    requires from + take <= |p|
    ensures p[from..] == p[from..from + take] + p[from + take..]
  {
  }

  /** The whole account of one poll: order, and every byte read charged exactly once or counted as uncharged. */
  ghost predicate Accounted(st: Limited, b: Bucket, read: seq<byte>, out: seq<byte>, r: Result) {
    && Ordered(r.st, read + r.read, out + OutOf(r.poll))
    && r.bucket.paid + Owed(r.st) + r.uncharged == b.paid + Owed(st) + |r.read|
    && (r.uncharged > 0 ==> b.burst >= U32_MAX && |r.read| > U32_MAX)
    && Conserved(r.bucket) && b.at <= r.bucket.at
    && r.bucket.rate == b.rate && r.bucket.burst == b.burst && r.bucket.since == b.since
  }

  lemma CheckConserves(b: Bucket, bytes: nat, now: real)
    requires Conserved(b) && b.at <= now && DataFits(b, bytes, now) && 0 < bytes
    ensures var b' := CheckData(b, bytes, now);
            && Conserved(b') && b'.at == now && b'.paid + Uncharged(bytes) == b.paid + bytes
            && b'.rate == b.rate && b'.burst == b.burst && b'.since == b.since
            && (Uncharged(bytes) > 0 ==> b.burst >= U32_MAX && bytes > U32_MAX)
  {
    PayConserves(b, Clamp(bytes), now);
  }

  lemma SettledAccounts(st: Limited, b: Bucket, cap: nat, inner: Inner, now: real, read: seq<byte>, out: seq<byte>)
    requires Ordered(st, read, out) && st.throttle.None? && Conserved(b) && b.at <= now && cap > 0
    ensures Accounted(st, b, read, out, PollSettled(st, b, cap, inner, now))
    ensures PollSettled(st, b, cap, inner, now).bucket.at <= now
  {
    if st.pending != [] {
      DrainKeeps(st, cap, read, out);
      assert read + [] == read;
    } else {
      assert out == read && out + [] == out && read + [] == read;
      if inner.InnerRead? && inner.bytes != [] {
        var got := Limited(inner.bytes, 0, None);
        assert got.pending[0..] == inner.bytes;
        DrainKeeps(got, cap, read + inner.bytes, out);
        if DataFits(b, |inner.bytes|, now) {
          CheckConserves(b, |inner.bytes|, now);
        }
      }
    }
  }

  /**
   One poll of a limited stream: no byte is lost, repeated or reordered; tokens paid plus tokens owed grow by
   exactly the bytes read, less what the check lets pass without charge, which takes a saturated burst and a read
   of more than 2^32 - 1 bytes at once.
   */
  lemma PollAccounts(st: Limited, b: Bucket, cap: nat, inner: Inner, now: real, read: seq<byte>, out: seq<byte>)
    requires Ordered(st, read, out) && Conserved(b) && b.at <= now
    ensures Accounted(st, b, read, out, PollRead(st, b, cap, inner, now))
    ensures PollRead(st, b, cap, inner, now).bucket.at <= now
  {
    if cap == 0 {
      assert read + [] == read && out + [] == out;
    } else if st.throttle.Some? {
      var (b', owed) := PayChunks(b, st.throttle.value, now);
      if owed == 0 {
        SettledAccounts(st.(throttle := None), b', cap, inner, now, read, out);
      } else {
        assert read + [] == read && out + [] == out;
      }
    } else {
      SettledAccounts(st, b, cap, inner, now, read, out);
    }
  }

  // ---------------------------------------------------------------------------------------------
  // What a poll answers, and when withheld bytes are released
  // ---------------------------------------------------------------------------------------------

  /** The bytes from the cursor on, as many as there is room for. */
  function Front(st: Limited, cap: nat): seq<byte>
    requires st.released <= |st.pending|
  {
    st.pending[st.released..st.released + Min(|st.pending| - st.released, cap)]
  }

  /**
   What a poll with room answers. With withheld bytes: nothing while any of them is owed, then those bytes, and the
   wrapped stream is left alone. Without: what the wrapped stream answers, except that bytes not paid for at once are
   withheld.
   */
  lemma PollAnswers(st: Limited, b: Bucket, cap: nat, inner: Inner, now: real)
    requires WellFormed(st) && Conserved(b) && b.at <= now
    ensures var r := PollRead(st, b, cap, inner, now);
            var left := if st.throttle.Some? then PayChunks(b, st.throttle.value, now).1 else 0;
            && (cap == 0 ==> r == Result(st, b, PollReady([]), [], 0))
            && (cap > 0 && st.pending != [] ==>
                  r.read == [] && r.poll == if left > 0 then PollPending else PollReady(Front(st, cap)))
            && (cap > 0 && st.pending == [] ==>
                  match inner
                  case InnerPending => r.poll.PollPending? && r.read == [] && r.bucket == b
                  case InnerError => r.poll.PollError? && r.read == [] && r.bucket == b
                  case InnerRead(bytes) =>
                    && r.read == bytes
                    && (r.poll.PollPending? <==> !DataFits(b, |bytes|, now) && PayChunks(b, |bytes|, now).1 > 0)
                    && (!r.poll.PollPending? ==> r.poll == PollReady(bytes[..Min(|bytes|, cap)])))
  {
    if cap > 0 && st.pending == [] && inner.InnerRead? && inner.bytes != [] {
      assert inner.bytes[0..0 + Min(|inner.bytes|, cap)] == inner.bytes[..Min(|inner.bytes|, cap)];
    }
  }

  /** A moment to poll: what the bucket holds then, after whatever the other streams drew. */
  datatype Chance = Chance(bucket: Bucket, now: real)

  /** The bucket has the given quota, and enough for the next payment on a debt of `owed`. */
  ghost predicate Enough(x: Chance, rate: nat, burst: nat, owed: nat) {
    && Conserved(x.bucket) && x.bucket.at <= x.now && x.bucket.rate == rate && x.bucket.burst == burst <= U32_MAX
    && Affords(x.bucket, NextChunk(x.bucket, owed), x.now)
  }

  /** Polled at these moments, the stream answers nothing until it hands out its withheld bytes at one of them. */
  ghost predicate ReleasedBy(st: Limited, chances: seq<Chance>, cap: nat)
    decreases |chances|
  {
    && chances != [] && WellFormed(st) && Conserved(chances[0].bucket) && chances[0].bucket.at <= chances[0].now
    && var r := PollRead(st, chances[0].bucket, cap, InnerPending, chances[0].now);
    if r.poll.PollPending? then r.st.pending == st.pending && ReleasedBy(r.st, chances[1..], cap)
    else r.poll == PollReady(Front(st, cap))
  }

  /**
   Withheld bytes are released: polled whenever there is enough in the bucket for a payment, they are handed out after
   at most as many polls as the debt has chunks, however large the read was against the burst.
   */
  lemma {:induction false} WithheldIsReleased(st: Limited, chances: seq<Chance>, cap: nat, rate: nat, burst: nat)
    requires WellFormed(st) && st.throttle.Some? && cap >= 1 && 1 <= rate && 1 <= burst
    requires forall i :: 0 <= i < |chances| ==> Enough(chances[i], rate, burst, st.throttle.value)
    requires |chances| >= Chunks(st.throttle.value, Min(burst, 30 * rate))
    ensures ReleasedBy(st, chances, cap)
    decreases |chances|
  {
    var owed, x, size := st.throttle.value, chances[0], Min(burst, 30 * rate);
    assert Enough(x, rate, burst, owed);
    PayChunksPays(x.bucket, owed, x.now);
    PollAnswers(st, x.bucket, cap, InnerPending, x.now);
    var left := PayChunks(x.bucket, owed, x.now).1;
    if left > 0 {
      assert owed > size && left <= owed - size;
      ChunksMonotone(left, owed - size, size);
      var st' := st.(throttle := Some(left));
      forall i | 0 <= i < |chances| - 1 ensures Enough(chances[1..][i], rate, burst, left) {
        assert Enough(chances[i + 1], rate, burst, owed);
      }
      WithheldIsReleased(st', chances[1..], cap, rate, burst);
    }
  }

  // ---------------------------------------------------------------------------------------------
  // All the streams of a session
  // ---------------------------------------------------------------------------------------------

  /** A stream, with all it has read from the peer and all it has released to its caller. */
  datatype Metered = Metered(st: Limited, read: seq<byte>, out: seq<byte>)

  /** `uncharged` is what was read without anybody paying for it. */
  datatype Session = Session(bucket: Bucket, streams: seq<Metered>, uncharged: nat, now: real)

  /** A stream opens, or one is polled; time has moved on by `dt`. */
  datatype Event = OpenAnother | PollStream(i: nat, cap: nat, inner: Inner, dt: real)

  function Start(rate: nat, burst: nat, now: real): Session {
    Session(NewBucket(rate, burst, now), [], 0, now)
  }

  predicate Possible(s: Session, ev: Event) {
    ev.PollStream? ==> ev.i < |s.streams| && ev.dt >= 0.0
  }

  /** What the streams have read, less what they still owe. */
  function SumPaid(ms: seq<Metered>): int {
    if ms == [] then 0 else SumPaid(ms[..|ms| - 1]) + (|ms[|ms| - 1].read| - Owed(ms[|ms| - 1].st))
  }

  function SumOut(ms: seq<Metered>): nat {
    if ms == [] then 0 else SumOut(ms[..|ms| - 1]) + |ms[|ms| - 1].out|
  }

  ghost predicate MeteredOk(m: Metered) {
    Ordered(m.st, m.read, m.out)
  }

  ghost predicate AllMetered(ms: seq<Metered>) {
    forall i :: 0 <= i < |ms| ==> MeteredOk(ms[i])
  }

  ghost predicate SessionOk(s: Session) {
    && Conserved(s.bucket) && s.bucket.at <= s.now
    && AllMetered(s.streams)
    && s.bucket.paid + s.uncharged == SumPaid(s.streams)
    && (s.bucket.burst < U32_MAX ==> s.uncharged == 0)
  }

  function AfterPoll(s: Session, i: nat, r: Result, now: real): Session
    requires i < |s.streams|
  {
    var m := s.streams[i];
    Session(r.bucket, s.streams[i := Metered(r.st, m.read + r.read, m.out + OutOf(r.poll))], s.uncharged + r.uncharged, now)
  }

  function Next(s: Session, ev: Event): Session
    requires SessionOk(s) && Possible(s, ev)
  {
    match ev
    case OpenAnother => s.(streams := s.streams + [Metered(EMPTY, [], [])])
    case PollStream(i, cap, inner, dt) =>
      var m, now := s.streams[i], s.now + dt;
      assert MeteredOk(m);
      AfterPoll(s, i, PollRead(m.st, s.bucket, cap, inner, now), now)
  }

  lemma {:induction false} SumPaidUpdate(ms: seq<Metered>, i: nat, m: Metered)
    requires i < |ms|
    ensures SumPaid(ms[i := m]) + (|ms[i].read| - Owed(ms[i].st)) == SumPaid(ms) + (|m.read| - Owed(m.st))
  {
    var n := |ms| - 1;
    if i < n {
      SumPaidUpdate(ms[..n], i, m);
      assert ms[i := m][..n] == ms[..n][i := m];
    } else {
      assert ms[i := m][..n] == ms[..n];
    }
  }

  lemma StreamAt(ms: seq<Metered>, i: nat)
    requires AllMetered(ms) && i < |ms|
    ensures Ordered(ms[i].st, ms[i].read, ms[i].out) && WellFormed(ms[i].st)
  {
    assert MeteredOk(ms[i]);
  }

  lemma OwedIsRead(m: Metered)
    requires MeteredOk(m)
    ensures WellFormed(m.st) && |m.out| + Owed(m.st) <= |m.read|
  {
  }

  lemma PollOk(s: Session, i: nat, r: Result, now: real)
    requires SessionOk(s) && i < |s.streams| && r.bucket.at <= now
    requires Accounted(s.streams[i].st, s.bucket, s.streams[i].read, s.streams[i].out, r)
    ensures SessionOk(AfterPoll(s, i, r, now))
  {
    hide Ordered, Conserved, SumPaid, AllMetered;
    var m := s.streams[i];
    var m' := Metered(r.st, m.read + r.read, m.out + OutOf(r.poll));
    SumPaidUpdate(s.streams, i, m');
    MeteredUpdate(s.streams, i, m');
  }

  lemma NextOk(s: Session, ev: Event)
    requires SessionOk(s) && Possible(s, ev)
    ensures SessionOk(Next(s, ev))
    ensures Next(s, ev).bucket.burst == s.bucket.burst && Next(s, ev).bucket.since == s.bucket.since
  {
    hide PollRead, SessionOk;
    if ev.OpenAnother? {
      OpenOk(s);
    } else {
      PollEventOk(s, ev);
    }
  }

  lemma PollEventOk(s: Session, ev: Event)
    requires SessionOk(s) && Possible(s, ev) && ev.PollStream?
    ensures SessionOk(Next(s, ev))
    ensures Next(s, ev).bucket.burst == s.bucket.burst && Next(s, ev).bucket.since == s.bucket.since
  {
    hide PollRead, SumPaid, AllMetered, Conserved, WellFormed, Ordered;
    var m, now := s.streams[ev.i], s.now + ev.dt;
    StreamAt(s.streams, ev.i);
    PollAccounts(m.st, s.bucket, ev.cap, ev.inner, now, m.read, m.out);
    PollOk(s, ev.i, PollRead(m.st, s.bucket, ev.cap, ev.inner, now), now);
    hide SessionOk;
    assert Next(s, ev) == AfterPoll(s, ev.i, PollRead(m.st, s.bucket, ev.cap, ev.inner, now), now);
  }

  lemma OpenOk(s: Session)
    requires SessionOk(s)
    ensures SessionOk(Next(s, OpenAnother))
  {
    assert (s.streams + [Metered(EMPTY, [], [])])[..|s.streams|] == s.streams;
  }

  lemma MeteredUpdate(ms: seq<Metered>, i: nat, m: Metered)
    requires i < |ms| && AllMetered(ms) && Ordered(m.st, m.read, m.out)
    ensures AllMetered(ms[i := m])
  {
    hide Ordered;
  }

  lemma {:induction false} ReleasedIsPaid(ms: seq<Metered>)
    requires AllMetered(ms)
    ensures SumOut(ms) <= SumPaid(ms)
  {
    if ms == [] {
    } else {
      ReleasedIsPaid(ms[..|ms| - 1]);
      OwedIsRead(ms[|ms| - 1]);
    }
  }

  /** The session after a list of events, if each is possible when it happens. */
  function Execute(rate: nat, burst: nat, t0: real, events: seq<Event>): (r: Option<Session>)
    requires 1 <= rate && 1 <= burst
    ensures r.Some? ==> SessionOk(r.value) && r.value.bucket.burst == burst && r.value.bucket.since == t0
  {
    if events == [] then Some(Start(rate, burst, t0))
    else
      match Execute(rate, burst, t0, events[..|events| - 1])
      case None => None
      case Some(s) =>
        var ev := events[|events| - 1];
        if !Possible(s, ev) then None
        else
          NextOk(s, ev);
          Some(Next(s, ev))
  }

  /**
   In every run of a session's streams: each stream hands out, in order, a prefix of what it read; nothing of a
   read is released while any of it is owed; and all the bytes released so far are paid for or uncharged, and are at
   most the burst plus the refill since the session began plus the uncharged ones.
   */
  lemma SessionStaysInBudget(rate: nat, burst: nat, t0: real, events: seq<Event>)
    requires 1 <= rate && 1 <= burst && Execute(rate, burst, t0, events).Some?
    ensures var s := Execute(rate, burst, t0, events).value;
            && (forall i :: 0 <= i < |s.streams| ==>
                  && s.streams[i].out <= s.streams[i].read
                  && (s.streams[i].st.throttle.Some? ==> s.streams[i].read == s.streams[i].out + s.streams[i].st.pending))
            && SumOut(s.streams) <= s.bucket.paid + s.uncharged
            && SumOut(s.streams) as real <= burst as real + (s.now - t0) + s.uncharged as real
            && (burst < U32_MAX ==> s.uncharged == 0)
  {
    var s := Execute(rate, burst, t0, events).value;
    hide Execute;
    ReleasedIsPaid(s.streams);
    forall i | 0 <= i < |s.streams|
      ensures s.streams[i].out <= s.streams[i].read
        && (s.streams[i].st.throttle.Some? ==> s.streams[i].read == s.streams[i].out + s.streams[i].st.pending)
    {
      var m := s.streams[i];
      assert MeteredOk(m);
      assert m.st.pending[0..] == m.st.pending;
    }
  }

  /** The bytes released by time t are at most the burst plus the refill up to t. */
  ghost predicate WithinBudget(rate: nat, burst: nat, t0: real, events: seq<Event>)
    requires 1 <= rate && 1 <= burst
  {
    var r := Execute(rate, burst, t0, events);
    r.Some? ==> SumOut(r.value.streams) as real <= burst as real + (r.value.now - t0)
  }

  /** The budget holds in every run exactly when the configured burst is below `u32::MAX`, where it saturates. */
  lemma BudgetIff(rate: nat, burst: nat, t0: real)
    requires 1 <= rate && 1 <= burst <= U32_MAX
    ensures (forall events :: WithinBudget(rate, burst, t0, events)) <==> burst < U32_MAX
  {
    if burst < U32_MAX {
      forall events: seq<Event> ensures WithinBudget(rate, burst, t0, events) {
        if Execute(rate, burst, t0, events).Some? {
          SessionStaysInBudget(rate, burst, t0, events);
        }
      }
    } else {
      OverBudget(rate, t0);
    }
  }

  /** One read of 2^32 bytes into a buffer that takes them all, with a full and saturated bucket. */
  lemma OverBudget(rate: nat, t0: real)
    requires 1 <= rate
    ensures exists events :: !WithinBudget(rate, U32_MAX, t0, events)
  {
    var n: nat := U32_MAX + 1;
    var bytes: seq<byte> := seq(n, _ => 0);
    var open, poll := OpenAnother, PollStream(0, n, InnerRead(bytes), 0.0);
    BigReadRun(rate, t0, open, poll);
    var s := Execute(rate, U32_MAX, t0, [open, poll]).value;
    hide Execute;
    assert SumOut(s.streams[..0]) == 0;
    assert !WithinBudget(rate, U32_MAX, t0, [open, poll]);
  }

  lemma BigReadRun(rate: nat, t0: real, open: Event, poll: Event)
    requires 1 <= rate && open.OpenAnother? && poll.PollStream? && poll.i == 0 && poll.dt == 0.0
    requires poll.inner.InnerRead? && |poll.inner.bytes| == U32_MAX + 1 == poll.cap
    ensures var r := Execute(rate, U32_MAX, t0, [open, poll]);
            && r.Some? && r.value.now == t0
            && |r.value.streams| == 1 && r.value.streams[0].out == poll.inner.bytes
  {
    var bytes := poll.inner.bytes;
    assert [open, poll][..1] == [open] && [open][..0] == [];
    var s1 := Session(NewBucket(rate, U32_MAX, t0), [Metered(EMPTY, [], [])], 0, t0);
    assert Execute(rate, U32_MAX, t0, []) == Some(Start(rate, U32_MAX, t0));
    assert Execute(rate, U32_MAX, t0, [open]) == Some(s1);
    OneBigRead(s1.bucket, bytes, t0);
    hide PollRead;
    assert [] + bytes == bytes;
  }

  lemma OneBigRead(b: Bucket, bytes: seq<byte>, now: real)
    requires Conserved(b) && b.at == now && b.burst == U32_MAX && b.level == U32_MAX as real && |bytes| == U32_MAX + 1
    ensures var r := PollRead(EMPTY, b, |bytes|, InnerRead(bytes), now);
            r.st == EMPTY && r.poll == PollReady(bytes) && r.read == bytes
  {
    assert bytes[0..|bytes|] == bytes;
  }
}
