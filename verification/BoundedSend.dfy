/** The bounded send into the wire channel (ferrotunnel-core/src/stream/multiplexer.rs, `send_prioritized_frame`). */
module BoundedSend {
  import opened Seqs
  import opened Frames

  const MS: nat := 1_000_000
  const FRAME_SEND_TIMEOUT: nat := 5000 * MS
  const MAX_BACKOFF: nat := 10 * MS
  const MAX_ATTEMPTS: nat := 504

  datatype TryAnswer = HasRoom | IsFull | Disconnected

  datatype SendResult = SendOk | TimedOut | BrokenPipe

  /**
   The channel and the clock (in nanoseconds), as the sender meets them: the k-th attempt gets the k-th answer,
   and the k-th sleep may overrun by any amount.
   */
  class WireEnd {
    const answers: nat -> TryAnswer
    const overruns: nat -> nat
    var attempts: nat
    var sleeps: nat
    var clock: nat
    var entered: seq<PrioritizedFrame>

    constructor (answers: nat -> TryAnswer, overruns: nat -> nat)
      ensures this.answers == answers && this.overruns == overruns
      ensures attempts == 0 && sleeps == 0 && clock == 0 && entered == []
    {
      this.answers, this.overruns := answers, overruns;
      attempts, sleeps, clock, entered := 0, 0, 0, [];
    }

    /** `try_send_option`: takes the item out only when it enters the channel. */
    method TrySend(item: Option<PrioritizedFrame>) returns (answer: TryAnswer, item': Option<PrioritizedFrame>)
      requires item.Some?
      modifies this`attempts, this`entered
      ensures answer == answers(old(attempts)) && attempts == old(attempts) + 1
      ensures answer.HasRoom? ==> item'.None? && entered == old(entered) + [item.value]
      ensures !answer.HasRoom? ==> item' == item && entered == old(entered)
    {
      answer := answers(attempts);
      attempts := attempts + 1;
      item' := item;
      if answer.HasRoom? {
        entered := entered + [item.value];
        item' := None;
      }
    }

    method Sleep(d: nat)
      modifies this`clock, this`sleeps
      ensures clock == old(clock) + d + overruns(old(sleeps)) && sleeps == old(sleeps) + 1
    {
      clock := clock + d + overruns(sleeps);
      sleeps := sleeps + 1;
    }
  }

  /** The backoff before sleep `n`, and the time the first `n` full sleeps take: 1, 2, 4, 8, 10, 10, ... ms. */
  function Backoff(n: nat): (r: nat)
    ensures 0 < r <= MAX_BACKOFF
  {
    if n == 0 then 1 * MS else Min(2 * Backoff(n - 1), MAX_BACKOFF)
  }

  function Slept(n: nat): nat {
    if n == 0 then 0 else Slept(n - 1) + Backoff(n - 1)
  }

  lemma {:induction false} SleptClosedForm(n: nat)
    ensures n >= 4 ==> Backoff(n) == MAX_BACKOFF && Slept(n) == (15 + 10 * (n - 4)) * MS
    ensures n < 4 ==> Slept(n) <= 15 * MS
  {
    if n > 4 {
      SleptClosedForm(n - 1);
    } else {
      assert Backoff(0) == 1 * MS && Backoff(1) == 2 * MS && Backoff(2) == 4 * MS && Backoff(3) == 8 * MS
        && Backoff(4) == 10 * MS;
      assert Slept(1) == 1 * MS && Slept(2) == 3 * MS && Slept(3) == 7 * MS && Slept(4) == 15 * MS;
    }
  }

  /** Before the deadline there were at most 502 sleeps. */
  lemma SleepsBeforeDeadline(n: nat)
    requires Slept(n) < FRAME_SEND_TIMEOUT
    ensures n + 2 <= MAX_ATTEMPTS
  {
    SleptClosedForm(n);
  }

  /** The channel never has room, and every sleep takes exactly as long as it was asked to. */
  ghost predicate StaysFull(answers: nat -> TryAnswer, overruns: nat -> nat) {
    forall k: nat :: answers(k).IsFull? && overruns(k) == 0
  }

  /** Attempts against a channel that stays full, with exact timers, from `left` before the deadline. */
  function FullAttempts(left: nat, n: nat): nat
    decreases left
  {
    if left == 0 then 1 else 1 + FullAttempts(left - Min(Backoff(n), left), n + 1)
  }

  lemma {:induction false} FullAttemptsLate(left: nat, n: nat)
    requires n >= 4
    ensures FullAttempts(left, n) == 1 + (left + MAX_BACKOFF - 1) / MAX_BACKOFF
    decreases left
  {
    SleptClosedForm(n);
    if left > MAX_BACKOFF {
      FullAttemptsLate(left - MAX_BACKOFF, n + 1);
    } else if left > 0 {
      assert FullAttempts(0, n + 1) == 1;
    }
  }

  /** From the first attempt, with the whole timeout ahead, that makes 504 attempts. */
  lemma AttemptsBoundIsTight()
    ensures FullAttempts(FRAME_SEND_TIMEOUT, 0) == MAX_ATTEMPTS
  {
    SleptClosedForm(4);
    assert Backoff(0) == 1 * MS && Backoff(1) == 2 * MS && Backoff(2) == 4 * MS && Backoff(3) == 8 * MS;
    FullAttemptsLate(4985 * MS, 4);
    assert FullAttempts(4993 * MS, 3) == 1 + FullAttempts(4985 * MS, 4);
    assert FullAttempts(4997 * MS, 2) == 1 + FullAttempts(4993 * MS, 3);
    assert FullAttempts(4999 * MS, 1) == 1 + FullAttempts(4997 * MS, 2);
    assert FullAttempts(5000 * MS, 0) == 1 + FullAttempts(4999 * MS, 1);
  }

  /** One more sleep, and one more attempt. */
  lemma OneMoreSleep(left: nat, n: nat)
    ensures Backoff(0) == 1 * MS && Slept(0) == 0
    ensures Backoff(n + 1) == Min(Backoff(n) * 2, MAX_BACKOFF) && Slept(n + 1) == Slept(n) + Backoff(n)
    ensures FullAttempts(0, n) == 1
    ensures left > 0 ==> FullAttempts(left, n) == 1 + FullAttempts(left - Min(Backoff(n), left), n + 1)
  {
  }

  /**
   The frame enters the channel exactly once when the send reports success and not at all otherwise, a timeout
   is reported only past the deadline and only after a refusal, and no schedule of answers and overruns makes the
   send try more than 504 times. A channel that stays full, with exact timers, is tried exactly that often.
   */
  method SendPrioritizedFrame(wire: WireEnd, frame: PrioritizedFrame) returns (r: SendResult)
    modifies wire
    ensures wire.entered == if r.SendOk? then old(wire.entered) + [frame] else old(wire.entered)
    ensures old(wire.attempts) < wire.attempts <= old(wire.attempts) + MAX_ATTEMPTS
    ensures forall k :: old(wire.attempts) <= k < wire.attempts - 1 ==> wire.answers(k).IsFull?
    ensures r == match wire.answers(wire.attempts - 1)
                 case HasRoom => SendOk
                 case IsFull => TimedOut
                 case Disconnected => BrokenPipe
    ensures r.TimedOut? ==> old(wire.clock) + FRAME_SEND_TIMEOUT <= wire.clock
    ensures StaysFull(wire.answers, wire.overruns) ==> wire.attempts == old(wire.attempts) + MAX_ATTEMPTS
  {
    AttemptsBoundIsTight();
    OneMoreSleep(0, 0);
    hide Backoff, Slept, FullAttempts;
    var item := Some(frame);
    var start, first := wire.clock, wire.attempts;
    var deadline := wire.clock + FRAME_SEND_TIMEOUT;
    var backoff := 1 * MS;
    ghost var n: nat := 0;
    while true
      invariant item == Some(frame) && wire.entered == old(wire.entered)
      invariant wire.attempts == first + n && backoff == Backoff(n)
      invariant wire.clock >= Min(start + Slept(n), deadline)
      invariant n + 1 <= MAX_ATTEMPTS
      invariant StaysFull(wire.answers, wire.overruns) ==>
        wire.clock <= deadline && n + FullAttempts(deadline - wire.clock, n) == MAX_ATTEMPTS
      invariant forall k :: first <= k < wire.attempts ==> wire.answers(k).IsFull?
      decreases MAX_ATTEMPTS - n
    {
      var answer, item' := wire.TrySend(item);
      item := item';
      match answer {
        case HasRoom =>
          return SendOk;
        case Disconnected =>
          return BrokenPipe;
        case IsFull =>
          var now := wire.clock;
          OneMoreSleep(if now < deadline then deadline - now else 0, n);
          if now >= deadline {
            return TimedOut;
          }
          SleepsBeforeDeadline(n);
          wire.Sleep(Min(backoff, deadline - now));
          backoff := Min(backoff * 2, MAX_BACKOFF);
          n := n + 1;
      }
    }
    assert false;
  }
}
