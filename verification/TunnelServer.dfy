/**
 The server's frame loop for one session over TCP (ferrotunnel-core/src/tunnel/server.rs, `process_messages`): every
 frame refreshes the heartbeat, an over-budget data frame is throttled before it is dispatched, and a cleanup task
 removes sessions whose heartbeat is too old.
 */
module TunnelServer {
  import opened Frames
  import opened Validation
  import opened Codec
  import opened VirtualStreams
  import opened RateLimit
  import opened Sessions

  const SESSION_TIMEOUT_SECS: nat := 90

  /** A timer may be this late before a throttled session can go stale. */
  const MAX_LATENESS_SECS: nat := 60

  datatype Outcome = Handled | Denied | SessionGone

  // ---------------------------------------------------------------------------------------------
  // Throttling against the cleanup
  // ---------------------------------------------------------------------------------------------

  /** The store at time `now`, when session `id` has its heartbeat set at each of `beats`. */
  function StoreAt(st: Store, id: Uuid, beats: seq<real>, now: real): Store
    requires beats != []
  {
    Touch(st, id, LastBeat(beats, now))
  }

  /** A cleanup that scans at any time from the first heartbeat until `until` does not find the session stale. */
  ghost predicate FreshUntil(st: Store, id: Uuid, beats: seq<real>, until: real, timeout: real) {
    && beats != []
    && forall now: real :: beats[0] <= now <= until ==> id !in StaleIds(StoreAt(st, id, beats, now), now, timeout)
  }

  /**
   Heartbeats on arrival and at every progress report of a throttle keep a session fresh, however long the throttle:
   they are at most 30 s and one timer's lateness apart, for the loop is all that draws on the limiter, and the timeout is 90 s.
   */
  lemma ThrottleNeverEvicts(st: Store, id: Uuid, beats: seq<real>, rate: nat, late: real)
    requires id in st.sessions && beats != [] && 0.0 <= late <= Seconds(MAX_LATENESS_SECS, rate)
    requires Steady(beats, Seconds(MAX_THROTTLE_CHUNK_SECS, rate) + late)
    ensures FreshUntil(st, id, beats, beats[|beats| - 1], Seconds(SESSION_TIMEOUT_SECS, rate))
  {
    var gap, timeout := Seconds(MAX_THROTTLE_CHUNK_SECS, rate) + late, Seconds(SESSION_TIMEOUT_SECS, rate);
    assert gap <= timeout;
    forall now: real | beats[0] <= now <= beats[|beats| - 1]
      ensures id !in StaleIds(StoreAt(st, id, beats, now), now, timeout)
    {
      LastBeatIsRecent(beats, gap, now);
      assert StoreAt(st, id, beats, now).sessions[id].heartbeat == LastBeat(beats, now);
    }
  }

  /** A scan `wait` after the last heartbeat finds the session stale exactly when that is more than the timeout. */
  lemma StaleAfterWait(st: Store, id: Uuid, beats: seq<real>, wait: real, timeout: real)
    requires id in st.sessions && beats != [] && wait >= 0.0
    ensures var now := beats[|beats| - 1] + wait; id in StaleIds(StoreAt(st, id, beats, now), now, timeout) <==> wait > timeout
  {
    var last := beats[|beats| - 1];
    assert LastBeat(beats, last + wait) == last;
    assert StoreAt(st, id, beats, last + wait).sessions[id].heartbeat == last;
  }

  /**
   Handing the frame on refreshes nothing. So with a hand-on that takes `wait`, every scan from the frame's arrival
   until the loop is done with it finds the session fresh exactly when `wait` is within the timeout.
   */
  lemma FreshIff(st: Store, id: Uuid, beats: seq<real>, rate: nat, late: real, wait: real)
    requires id in st.sessions && beats != [] && 0.0 <= late <= Seconds(MAX_LATENESS_SECS, rate) && wait >= 0.0
    requires Steady(beats, Seconds(MAX_THROTTLE_CHUNK_SECS, rate) + late)
    ensures FreshUntil(st, id, beats, beats[|beats| - 1] + wait, Seconds(SESSION_TIMEOUT_SECS, rate))
      <==> wait <= Seconds(SESSION_TIMEOUT_SECS, rate)
  {
    var last, timeout := beats[|beats| - 1], Seconds(SESSION_TIMEOUT_SECS, rate);
    ThrottleNeverEvicts(st, id, beats, rate, late);
    SteadyAscends(beats, Seconds(MAX_THROTTLE_CHUNK_SECS, rate) + late);
    StaleAfterWait(st, id, beats, wait, timeout);
    hide StaleIds, StoreAt;
    if wait <= timeout {
      forall now: real | beats[0] <= now <= last + wait ensures id !in StaleIds(StoreAt(st, id, beats, now), now, timeout) {
        if last < now {
          StaleAfterWait(st, id, beats, now - last, timeout);
        }
      }
    } else {
      assert beats[0] <= last + wait && id in StaleIds(StoreAt(st, id, beats, last + wait), last + wait, timeout);
    }
  }

  lemma {:induction false} SteadyAscends(beats: seq<real>, gap: real)
    requires beats != [] && Steady(beats, gap)
    ensures beats[0] <= beats[|beats| - 1]
  {
    if |beats| == 1 {
    } else {
      var front := beats[..|beats| - 1];
      assert forall i :: 0 <= i < |front| - 1 ==> beats[i] <= beats[i + 1] <= beats[i] + gap;
      SteadyAscends(front, gap);
      assert beats[|beats| - 2] <= beats[|beats| - 2 + 1];
    }
  }

  /** For instance: a full stream channel that blocks the hand-on for 91 s, and a scan at its end. */
  lemma BlockedHandOnGoesStale(st: Store, id: Uuid, at: real, rate: nat)
    requires id in st.sessions && rate >= 1
    ensures var now := at + Seconds(91, rate);
            id in StaleIds(StoreAt(st, id, [at], now), now, Seconds(SESSION_TIMEOUT_SECS, rate))
  {
    StaleAfterWait(st, id, [at], Seconds(91, rate), Seconds(SESSION_TIMEOUT_SECS, rate));
  }

  lemma TouchTwice(st: Store, id: Uuid, a: real, b: real)
    ensures Touch(Touch(st, id, a), id, b) == Touch(st, id, b)
  {
    if id in st.sessions {
      assert Touch(Touch(st, id, a), id, b).sessions == Touch(st, id, b).sessions;
    }
  }

  // ---------------------------------------------------------------------------------------------
  // The loop
  // ---------------------------------------------------------------------------------------------

  /** When a frame is there, how late its throttle's timers fire, and how long handing it on takes. */
  datatype Times = Times(arrival: real, late: real, wait: real)

  /** What a decoder can yield: no payload is larger than the largest frame. */
  predicate Decodable(f: Frame) {
    f.Data? ==> |f.data| <= MAX_FRAME_SIZE
  }

  /** Every frame from a decoder is such; its payload limit is its frame limit, as all its constructors have it. */
  lemma DecodedIsDecodable(c: TunnelCodec, src: seq<byte>)
    requires c.Valid() && c.limits.maxPayloadBytes == c.maxFrameSize && DecodeOne(c, src).Got?
    ensures Decodable(DecodeOne(c, src).frame)
  {
    ValidateIffBounded(DecodeOne(c, src).frame, c.limits);
  }

  /** The frames handed on to the multiplexer: all but heartbeats and the `OpenStream`s denied. */
  function HandedOn(frames: seq<Frame>, denied: set<nat>): seq<Frame> {
    if frames == [] then []
    else
      var k := |frames| - 1;
      var f := frames[k];
      HandedOn(frames[..k], denied) + (if f.Heartbeat? || (f.OpenStream? && k in denied) then [] else [f])
  }

  class MessageLoop {
    const id: Uuid
    const store: SessionStore
    const limiter: SessionRateLimiter
    var clock: real
    var dispatched: seq<Frame>

    /** Every byte dispatched was paid for. */
    ghost predicate Valid()
      reads this, limiter
    {
      && limiter.Valid() && limiter.bucket.at <= clock
      && |DataBytes(dispatched)| <= limiter.bucket.paid
    }

    constructor (id: Uuid, store: SessionStore, limiter: SessionRateLimiter, now: real)
      requires limiter.Valid() && limiter.bucket.at <= now
      ensures Valid() && dispatched == [] && clock == now
      ensures this.id == id && this.store == store && this.limiter == limiter
    {
      this.id, this.store, this.limiter := id, store, limiter;
      clock, dispatched := now, [];
    }

    /** Pay for a data frame: at once if the budget allows, or else chunk by chunk, with a heartbeat after each. */
    method Pay(bytes: nat, late: real) returns (ghost beats: seq<real>)
      requires Valid() && bytes <= MAX_FRAME_SIZE && 0.0 <= late <= Seconds(MAX_LATENESS_SECS, limiter.bucket.rate)
      modifies this`clock, store, limiter
      ensures limiter.Valid() && limiter.bucket.at <= clock && limiter.bucket.paid == old(limiter.bucket).paid + bytes
      ensures SameQuota(old(limiter.bucket), limiter.bucket)
      ensures beats != [] && beats[0] == old(clock) && clock == beats[|beats| - 1]
      ensures Steady(beats, Seconds(MAX_THROTTLE_CHUNK_SECS, limiter.bucket.rate) + late)
      ensures store.State() == if |beats| == 1 then old(store.State()) else Touch(old(store.State()), id, clock)
    {
      hide DataBytes, Touch;
      var fits := limiter.Check(bytes, clock);
      beats := [clock];
      if !fits {
        var progress, _ := limiter.ThrottleData(bytes, clock, late, _ => [], 0.0);
        beats := [clock] + progress;
        ghost var st := store.State();
        for i := 0 to |progress|
          modifies store
          invariant store.State() == if i == 0 then st else Touch(st, id, progress[i - 1])
        {
          var _ := store.UpdateHeartbeat(id, progress[i]);
          if i > 0 {
            TouchTwice(st, id, progress[i - 1], progress[i]);
          }
        }
        clock := ([clock] + progress)[|progress|];
      }
    }

    /**
     One frame, arriving at `at`: its session is looked up, its heartbeat set, an `OpenStream` over the limit is
     denied, and everything else is handed on in full. The answer or the hand-on takes `wait`, for as long as the wire
     channel or the stream's channel has no room. Every scan from arrival until done finds the session fresh, however
     long the frame is throttled, exactly when `wait` is within the timeout.
     */
    method HandleFrame(f: Frame, at: real, late: real, wait: real, openAllowed: bool)
        returns (r: Outcome, ghost beats: seq<real>)
      requires Valid() && Decodable(f) && clock <= at && wait >= 0.0
      requires 0.0 <= late <= Seconds(MAX_LATENESS_SECS, limiter.bucket.rate)
      modifies this`clock, this`dispatched, store, limiter
      ensures Valid() && SameQuota(old(limiter.bucket), limiter.bucket)
      ensures r.SessionGone? <==> id !in old(store.sessions)
      ensures r.SessionGone? ==> store.State() == old(store.State()) && clock == old(clock)
      ensures !r.SessionGone? ==>
        && beats != [] && beats[0] == at && clock == beats[|beats| - 1] + wait
        && store.State() == Touch(old(store.State()), id, beats[|beats| - 1])
        && (wait <= Seconds(SESSION_TIMEOUT_SECS, limiter.bucket.rate) <==>
              FreshUntil(old(store.State()), id, beats, clock, Seconds(SESSION_TIMEOUT_SECS, limiter.bucket.rate)))
        && (r.Denied? <==> f.OpenStream? && !openAllowed)
      ensures dispatched == old(dispatched) + (if r.Handled? && !f.Heartbeat? then [f] else [])
    {
      hide DataBytes, Touch, FreshUntil;
      ghost var st := store.State();
      assert old(dispatched) + [] == old(dispatched);
      beats := [at];
      var found := store.UpdateHeartbeat(id, at);
      if !found {
        TouchMissing(st, id, at);
        return SessionGone, [];
      }
      clock := at;
      if f.Data? {
        beats := Pay(|f.data|, late);
        TouchTwice(st, id, at, clock);
      }
      FreshIff(st, id, beats, limiter.bucket.rate, late, wait);
      clock := clock + wait;
      if f.OpenStream? && !openAllowed {
        return Denied, beats;
      }
      if !f.Heartbeat? {
        DataBytesPush(dispatched, f);
        dispatched := dispatched + [f];
      }
      r := Handled;
    }

    /**
     The loop over all the frames of a connection. `denied` are the `OpenStream`s over the limit, and before the
     frames in `evicted` some other task removes the session. The frames handled are handed on, in order and in full,
     within the byte budget, and at a clean end the session is removed.
     */
    method ProcessMessages(frames: seq<Frame>, times: seq<Times>, denied: set<nat>, evicted: set<nat>)
        returns (clean: bool, handled: nat)
      requires Valid() && |times| == |frames| && (forall k :: 0 <= k < |frames| ==> Decodable(frames[k]))
      requires forall k :: 0 <= k < |times| ==>
        times[k].wait >= 0.0 && 0.0 <= times[k].late <= Seconds(MAX_LATENESS_SECS, limiter.bucket.rate)
      modifies this`clock, this`dispatched, store, limiter
      ensures Valid() && handled <= |frames| && SameQuota(old(limiter.bucket), limiter.bucket)
      ensures dispatched == old(dispatched) + HandedOn(frames[..handled], denied)
      ensures clean ==> handled == |frames| && id !in store.sessions
      ensures !clean ==> handled in evicted || (handled == 0 && id !in old(store.sessions))
      ensures |DataBytes(dispatched)| as real <= limiter.bucket.burst as real + (clock - limiter.bucket.since)
    {
      hide DataBytes, FreshUntil;
      ghost var quota := limiter.bucket;
      handled := 0;
      assert frames[..0] == [] && dispatched + [] == dispatched;
      while handled < |frames|
        invariant Valid() && handled <= |frames| && SameQuota(quota, limiter.bucket)
        invariant dispatched == old(dispatched) + HandedOn(frames[..handled], denied)
        invariant id in store.sessions || (handled == 0 && id !in old(store.sessions))
      {
        if handled in evicted {
          var _ := store.Remove(id);
        }
        var t := times[handled];
        var at := if t.arrival <= clock then clock else t.arrival;
        var r, _ := HandleFrame(frames[handled], at, t.late, t.wait, handled !in denied);
        if r.SessionGone? {
          return false, handled;
        }
        assert frames[..handled + 1][..handled] == frames[..handled];
        handled := handled + 1;
      }
      assert frames[..|frames|] == frames;
      var _ := store.Remove(id);
      clean := true;
    }
  }

  lemma TouchMissing(st: Store, id: Uuid, now: real)
    requires id !in st.sessions
    ensures Touch(st, id, now) == st
  {
  }
}
