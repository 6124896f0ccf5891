/**
 Byte-rate limiting (ferrotunnel-core/src/rate_limit.rs). The governor limiter is a token bucket: it refills at
 `rate` tokens a second up to `burst`, and pays all of a request or nothing. Time is measured in the tokens that
 refill while it passes, so one token is one unit and a second is `rate` units: "burst + rate * t" is
 `burst + elapsed` and 30 seconds are `30 * rate`.
 */
module RateLimit {
  import opened Seqs
  import opened Frames

  const MAX_THROTTLE_CHUNK_SECS: nat := 30

  // ---------------------------------------------------------------------------------------------
  // Quotas
  // ---------------------------------------------------------------------------------------------

  function SaturatingMul(a: nat, b: nat): nat {
    Min(a * b, U32_MAX)
  }

  /** Burst capacity of a rate and a burst factor. */
  function ScaledBurst(rate: nat, factor: nat): nat {
    SaturatingMul(rate, factor)
  }

  /** The largest chunk a throttled payload is charged in. */
  function ChunkCap(rate: nat, burst: nat): nat {
    Min(burst, SaturatingMul(rate, MAX_THROTTLE_CHUNK_SECS))
  }

  /** Configured values to limiter values: zero becomes one, and a byte rate too large becomes the largest. */
  function NonZero(configured: nat): nat {
    if configured == 0 then 1 else Min(configured, U32_MAX)
  }

  lemma MulAtLeast(a: nat, b: nat)
    requires a >= 1 && b >= 1
    ensures a * b >= a && a * b >= b && a * b >= 1
  {
    assert a * b == a + a * (b - 1);
    assert a * b == b + (a - 1) * b;
  }

  /**
   For every configuration: a rate or factor of zero counts as one, and one above 2^32 - 1 as that; the burst is their
   product, or that; and a chunk is the burst or 30 s of quota, whichever is less, and never empty.
   */
  lemma ChunkCapBounds(configuredRate: nat, configuredFactor: nat)
    ensures var rate, factor := NonZero(configuredRate), NonZero(configuredFactor);
            var burst := ScaledBurst(rate, factor);
            && (1 <= configuredRate <= U32_MAX ==> rate == configuredRate)
            && (configuredRate < 1 ==> rate == 1) && (configuredRate > U32_MAX ==> rate == U32_MAX)
            && (1 <= configuredFactor <= U32_MAX ==> factor == configuredFactor)
            && (if rate * factor <= U32_MAX then burst == rate * factor else burst == U32_MAX)
            && 1 <= rate <= burst <= U32_MAX
            && 1 <= ChunkCap(rate, burst) <= burst && ChunkCap(rate, burst) <= 30 * rate
            && (ChunkCap(rate, burst) == burst || ChunkCap(rate, burst) == 30 * rate)
  {
    var rate, factor := NonZero(configuredRate), NonZero(configuredFactor);
    MulAtLeast(rate, factor);
  }

  // ---------------------------------------------------------------------------------------------
  // The bucket
  // ---------------------------------------------------------------------------------------------

  /** `level` tokens at time `at`; `paid` is all the tokens ever taken, `since` when it was made, full. */
  datatype Bucket = Bucket(rate: nat, burst: nat, level: real, at: real, since: real, paid: nat)

  function NewBucket(rate: nat, burst: nat, now: real): Bucket {
    Bucket(rate, burst, burst as real, now, now, 0)
  }

  function LevelAt(b: Bucket, now: real): real {
    var refilled := b.level + (now - b.at);
    if refilled <= b.burst as real then refilled else b.burst as real
  }

  predicate Affords(b: Bucket, n: nat, now: real) {
    n <= b.burst && n as real <= LevelAt(b, now)
  }

  function Pay(b: Bucket, n: nat, now: real): Bucket {
    b.(level := LevelAt(b, now) - n as real, at := now, paid := b.paid + n)
  }

  /** All that was ever paid fits the burst and the refill since the bucket was made. */
  ghost predicate Conserved(b: Bucket) {
    && 1 <= b.rate && 1 <= b.burst
    && b.since <= b.at
    && 0.0 <= b.level <= b.burst as real
    && b.paid as real + b.level <= b.burst as real + (b.at - b.since)
  }

  lemma PayConserves(b: Bucket, n: nat, now: real)
    requires Conserved(b) && b.at <= now && Affords(b, n, now)
    ensures Conserved(Pay(b, n, now))
  {
  }

  // ---------------------------------------------------------------------------------------------
  // check_data and throttle_data
  // ---------------------------------------------------------------------------------------------

  function Clamp(bytes: nat): nat {
    Min(bytes, U32_MAX)
  }

  predicate DataFits(b: Bucket, bytes: nat, now: real) {
    Clamp(bytes) == 0 || Affords(b, Clamp(bytes), now)
  }

  function CheckData(b: Bucket, bytes: nat, now: real): Bucket {
    if Clamp(bytes) != 0 && Affords(b, Clamp(bytes), now) then Pay(b, Clamp(bytes), now) else b
  }

  /** A failed check charges nothing; a successful one charges exactly the payload if and only if it fits a `u32`. */
  lemma CheckDataCharges(b: Bucket, bytes: nat, now: real)
    ensures !DataFits(b, bytes, now) ==> CheckData(b, bytes, now) == b
    ensures DataFits(b, bytes, now) ==> (CheckData(b, bytes, now).paid == b.paid + bytes <==> bytes <= U32_MAX)
  {
  }

  /** What a check that succeeds lets pass without charge. */
  function Uncharged(bytes: nat): nat {
    bytes - Clamp(bytes)
  }

  function ChunkOf(b: Bucket, remaining: nat): nat {
    Min(Clamp(remaining), ChunkCap(b.rate, b.burst))
  }

  /** Polling a throttle at one instant: chunks are paid until one does not fit, or none is left. */
  function PayChunks(b: Bucket, remaining: nat, now: real): (r: (Bucket, nat))
    requires Conserved(b) && b.at <= now
    ensures r.1 <= remaining && r.0.paid + r.1 == b.paid + remaining
    ensures Conserved(r.0) && b.at <= r.0.at <= now
    ensures r.0.rate == b.rate && r.0.burst == b.burst && r.0.since == b.since
    decreases remaining
  {
    var n := ChunkOf(b, remaining);
    if remaining == 0 || n == 0 || !Affords(b, n, now) then (b, remaining)
    else
      assert Conserved(Pay(b, n, now)) by { PayConserves(b, n, now); }
      PayChunks(Pay(b, n, now), remaining - n, now)
  }

  /** How many chunks of at most `cap` a payload takes: the bytes over the cap, rounded up. */
  function Chunks(bytes: nat, cap: nat): nat
    requires cap > 0
  {
    if bytes == 0 then 0 else 1 + Chunks(bytes - Min(bytes, cap), cap)
  }

  lemma {:induction false} ChunksRoundsUp(bytes: nat, cap: nat)
    requires cap > 0
    ensures bytes <= cap * Chunks(bytes, cap)
    ensures bytes > 0 ==> cap * (Chunks(bytes, cap) - 1) < bytes
  {
    if bytes > cap {
      ChunksRoundsUp(bytes - cap, cap);
      var k := Chunks(bytes - cap, cap);
      assert cap * (k + 1) == cap * k + cap && cap * k == cap * (k - 1) + cap;
    } else if bytes > 0 {
      assert Chunks(0, cap) == 0 && Chunks(bytes, cap) == 1;
    }
  }

  lemma {:induction false} ChunksMonotone(a: nat, b: nat, cap: nat)
    requires cap > 0 && a <= b
    ensures Chunks(a, cap) <= Chunks(b, cap)
    decreases b
  {
    if a == 0 {
    } else {
      ChunksMonotone(a - Min(a, cap), b - Min(b, cap), cap);
    }
  }

  // ---------------------------------------------------------------------------------------------
  // A debt gets paid
  // ---------------------------------------------------------------------------------------------

  /** The next payment on a debt: all of it, the burst, or 30 seconds of quota, whichever is least. */
  function NextChunk(b: Bucket, owed: nat): nat {
    Min(owed, Min(b.burst, 30 * b.rate))
  }

  lemma NextChunkIs(b: Bucket, owed: nat)
    requires b.burst <= U32_MAX
    ensures ChunkOf(b, owed) == NextChunk(b, owed)
  {
  }

  /** A poll stops paying only when the bucket it leaves has too little for the next payment. */
  lemma {:induction false} PayChunksStops(b: Bucket, owed: nat, now: real)
    requires Conserved(b) && b.at <= now && b.burst <= U32_MAX
    ensures var (b', left) := PayChunks(b, owed, now); left > 0 ==> !Affords(b', NextChunk(b', left), now)
    decreases owed
  {
    NextChunkIs(b, owed);
    var n := ChunkOf(b, owed);
    if owed > 0 && n > 0 && Affords(b, n, now) {
      PayConserves(b, n, now);
      PayChunksStops(Pay(b, n, now), owed - n, now);
    }
  }

  /** A poll that finds enough for the next payment makes it, at least. */
  lemma PayChunksPays(b: Bucket, owed: nat, now: real)
    requires Conserved(b) && b.at <= now && b.burst <= U32_MAX && Affords(b, NextChunk(b, owed), now)
    ensures var (b', left) := PayChunks(b, owed, now);
            left + NextChunk(b, owed) <= owed && b'.paid >= b.paid + NextChunk(b, owed)
  {
    NextChunkIs(b, owed);
    var n := ChunkOf(b, owed);
    if owed > 0 && n > 0 {
      PayConserves(b, n, now);
    }
  }

  /** A bucket left alone has `n` tokens, if it can hold them, once `n` have refilled. */
  lemma WaitAffords(b: Bucket, n: nat, now: real)
    requires Conserved(b) && n <= b.burst && now >= b.at + n as real
    ensures Affords(b, n, now)
  {
  }

  /** The limiter of a session, shared by whatever meters its data. */
  class SessionRateLimiter {
    var bucket: Bucket

    ghost predicate Valid()
      reads this
    {
      Conserved(bucket) && bucket.rate <= bucket.burst <= U32_MAX
    }

    constructor (configuredRate: nat, configuredFactor: nat, now: real)
      ensures Valid()
      ensures bucket == NewBucket(NonZero(configuredRate), ScaledBurst(NonZero(configuredRate), NonZero(configuredFactor)), now)
    {
      ChunkCapBounds(configuredRate, configuredFactor);
      var rate := NonZero(configuredRate);
      bucket := NewBucket(rate, ScaledBurst(rate, NonZero(configuredFactor)), now);
    }

    method Check(bytes: nat, now: real) returns (ok: bool)
      requires Valid() && bucket.at <= now
      modifies this
      ensures Valid() && bucket.at <= now
      ensures ok <==> DataFits(old(bucket), bytes, now)
      ensures bucket == CheckData(old(bucket), bytes, now)
    {
      var n := Min(bytes, U32_MAX);
      if n == 0 {
        return true;
      }
      ok := Affords(bucket, n, now);
      if ok {
        PayConserves(bucket, n, now);
        bucket := Pay(bucket, n, now);
      }
    }

    /** Poll a throttle: pay chunk after chunk while the bucket affords it. */
    method PollThrottle(owed: nat, now: real) returns (left: nat)
      requires Valid() && bucket.at <= now
      modifies this
      ensures Valid() && bucket.at <= now
      ensures (bucket, left) == PayChunks(old(bucket), owed, now)
    {
      left := owed;
      ghost var goal := PayChunks(bucket, owed, now);
      while left > 0
        invariant Valid() && bucket.at <= now
        invariant PayChunks(bucket, left, now) == goal
        decreases left
      {
        var n := ChunkOf(bucket, left);
        if n == 0 || !Affords(bucket, n, now) {
          return;
        }
        PayConserves(bucket, n, now);
        bucket := Pay(bucket, n, now);
        left := left - n;
      }
    }

    /**
     Wait from `now` until `n` tokens are there and take them. A timer may fire up to `late` after the tokens are there,
     and each time it does, another user of the bucket may have drawn some first: `rivals` says how many.
     */
    method UntilReady(n: nat, now: real, late: real, rivals: seq<nat>) returns (at: real, ghost others: nat)
      requires Valid() && bucket.at <= now && n <= bucket.burst && late >= 0.0
      modifies this
      ensures Valid() && bucket.paid == old(bucket).paid + n + others && (rivals == [] ==> others == 0)
      ensures SameQuota(old(bucket), bucket)
      ensures bucket.at == at && now <= at <= now + n as real + Delay(rivals, late) + late
    {
      at, others := now, 0;
      ghost var before := bucket;
      for k := 0 to |rivals|
        invariant Valid() && bucket.at <= at && SameQuota(before, bucket)
        invariant bucket.paid == before.paid + others && (k == 0 ==> others == 0)
        invariant now <= at && at + Shortfall(bucket, n, at) <= now + n as real + Delay(rivals[..k], late)
      {
        DelayGrows(rivals, k, late);
        if Affords(bucket, n, at) {
          PayConserves(bucket, n, at);
          bucket := Pay(bucket, n, at);
          return;
        }
        at := at + (n as real - LevelAt(bucket, at)) + late;
        if Affords(bucket, rivals[k], at) {
          PayConserves(bucket, rivals[k], at);
          bucket := Pay(bucket, rivals[k], at);
          others := others + rivals[k];
        }
      }
      assert rivals[..|rivals|] == rivals;
      if !Affords(bucket, n, at) {
        at := at + (n as real - LevelAt(bucket, at)) + late;
      }
      PayConserves(bucket, n, at);
      bucket := Pay(bucket, n, at);
    }

    /**
     Charges exactly `bytes`, chunk by chunk, none of which can exceed the bucket's capacity, and reports progress
     after each. Two reports are at most 30 seconds apart, one timer's lateness, and `slack`: as long as it takes to
     make up for what others draw meanwhile. With nobody else on the bucket that is none.
     */
    method ThrottleData(bytes: nat, now: real, late: real, rivals: nat -> seq<nat>, slack: real)
        returns (progress: seq<real>, ghost others: nat)
      requires Valid() && bucket.at <= now && late >= 0.0 && forall k :: Delay(rivals(k), late) <= slack
      modifies this
      ensures Valid() && bucket.paid == old(bucket).paid + bytes + others
      ensures (forall k :: rivals(k) == []) ==> others == 0
      ensures SameQuota(old(bucket), bucket)
      ensures ChunkCap(old(bucket).rate, old(bucket).burst) > 0
      ensures |progress| == Chunks(bytes, ChunkCap(old(bucket).rate, old(bucket).burst))
      ensures Steady([now] + progress, Seconds(MAX_THROTTLE_CHUNK_SECS, old(bucket).rate) + slack + late)
      ensures bucket.at <= ([now] + progress)[|progress|]
    {
      var remaining, clock := bytes, now;
      ghost var cap := ChunkCap(bucket.rate, bucket.burst);
      CapIsPositive(bucket);
      progress, others := [], 0;
      ghost var before, gap := bucket, Seconds(MAX_THROTTLE_CHUNK_SECS, bucket.rate) + slack + late;
      while remaining > 0
        invariant Valid() && bucket.at <= clock && SameQuota(before, bucket)
        invariant bucket.paid + remaining == before.paid + bytes + others
        invariant (forall k :: rivals(k) == []) ==> others == 0
        invariant |progress| + Chunks(remaining, cap) == Chunks(bytes, cap)
        invariant Steady([now] + progress, gap)
        invariant clock == ([now] + progress)[|progress|]
        decreases remaining
      {
        var n := ChunkOf(bucket, remaining);
        ghost var drawn;
        clock, drawn := UntilReady(n, clock, late, rivals(|progress|));
        others := others + drawn;
        remaining := remaining - n;
        SteadyPush([now] + progress, clock, gap);
        assert [now] + (progress + [clock]) == ([now] + progress) + [clock];
        progress := progress + [clock];
      }
    }
  }

  ghost predicate SameQuota(a: Bucket, b: Bucket) {
    a.rate == b.rate && a.burst == b.burst && a.since == b.since
  }

  /** How long a wait is drawn out by others: until their tokens are there again, and a timer each. */
  function Delay(rivals: seq<nat>, late: real): real {
    if rivals == [] then 0.0 else Delay(rivals[..|rivals| - 1], late) + rivals[|rivals| - 1] as real + late
  }

  lemma {:induction false} DelayGrows(rivals: seq<nat>, k: nat, late: real)
    requires k < |rivals| && late >= 0.0
    ensures Delay(rivals[..k + 1], late) == Delay(rivals[..k], late) + rivals[k] as real + late
    ensures Delay(rivals[..k], late) <= Delay(rivals, late)
    decreases |rivals| - k
  {
    assert rivals[..k + 1][..k] == rivals[..k];
    if k + 1 == |rivals| {
      assert rivals[..k + 1] == rivals;
    } else {
      DelayGrows(rivals, k + 1, late);
    }
  }

  /** How many tokens are missing to pay `n`. */
  function Shortfall(b: Bucket, n: nat, now: real): real {
    if Affords(b, n, now) then 0.0 else n as real - LevelAt(b, now)
  }

  /** A number of seconds, in units of the tokens that refill in them. */
  function Seconds(n: nat, rate: nat): real {
    (n * rate) as real
  }

  lemma CapIsPositive(b: Bucket)
    requires 1 <= b.rate && 1 <= b.burst <= U32_MAX
    ensures 1 <= ChunkCap(b.rate, b.burst) <= b.burst && ChunkCap(b.rate, b.burst) <= 30 * b.rate
    ensures ChunkCap(b.rate, b.burst) <= U32_MAX
  {
  }

  // ---------------------------------------------------------------------------------------------
  // Heartbeats while throttled
  // ---------------------------------------------------------------------------------------------

  /** Times in order, no two consecutive ones more than `gap` apart. */
  ghost predicate Steady(times: seq<real>, gap: real) {
    forall i :: 0 <= i < |times| - 1 ==> times[i] <= times[i + 1] <= times[i] + gap
  }

  lemma SteadyPush(times: seq<real>, t: real, gap: real)
    requires times != [] && Steady(times, gap) && times[|times| - 1] <= t <= times[|times| - 1] + gap
    ensures Steady(times + [t], gap)
  {
    var more := times + [t];
    forall i | 0 <= i < |more| - 1 ensures more[i] <= more[i + 1] <= more[i] + gap {
      if i < |times| - 1 {
        assert times[i] <= times[i + 1] <= times[i] + gap;
      }
    }
  }

  /** The latest heartbeat at time `now`, when the heartbeat is set at each of `times`. */
  function LastBeat(times: seq<real>, now: real): real
    requires times != []
  {
    if |times| == 1 || times[|times| - 1] <= now then times[|times| - 1] else LastBeat(times[..|times| - 1], now)
  }

  /** Whenever one looks, the latest of steady heartbeats is at most one gap old. */
  lemma {:induction false} LastBeatIsRecent(times: seq<real>, gap: real, now: real)
    requires times != [] && Steady(times, gap) && gap >= 0.0
    requires times[0] <= now <= times[|times| - 1]
    ensures LastBeat(times, now) <= now <= LastBeat(times, now) + gap
  {
    if |times| == 1 || times[|times| - 1] <= now {
    } else {
      var front, k := times[..|times| - 1], |times| - 2;
      assert times[k] <= times[k + 1] <= times[k] + gap;
      if now <= front[|front| - 1] {
        LastBeatIsRecent(front, gap, now);
      }
    }
  }
}
