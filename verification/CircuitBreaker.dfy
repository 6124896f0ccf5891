/** The circuit breaker plugin (ferrotunnel-plugin/src/builtin/circuit_breaker.rs), one call at a time. */
module CircuitBreaker {
  import opened Seqs
  import opened Frames

  datatype CircuitState = Closed | Open | HalfOpen

  /** `openSecs` is the whole seconds of the open duration. */
  datatype Config = Config(failureThreshold: u32, openSecs: nat, successThreshold: u32)

  datatype Breaker = Breaker(state: CircuitState, failures: u32, successes: u32, lastFailure: nat)

  const NEW := Breaker(Closed, 0, 0, 0)

  /** `fetch_add(1)` on an atomic u32 wraps. */
  function Increment(n: u32): u32 {
    (n + 1) % 0x1_0000_0000
  }

  // ---------------------------------------------------------------------------------------------
  // The calls, as functions of the state
  // ---------------------------------------------------------------------------------------------

  function Elapsed(b: Breaker, now: nat): nat {
    if now <= b.lastFailure then 0 else now - b.lastFailure
  }

  predicate Allows(c: Config, b: Breaker, now: nat) {
    !b.state.Open? || Elapsed(b, now) >= c.openSecs
  }

  function AfterRequest(c: Config, b: Breaker, now: nat): Breaker {
    if b.state.Open? && Allows(c, b, now) then b.(state := HalfOpen, successes := 0) else b
  }

  function AfterSuccess(c: Config, b: Breaker): Breaker {
    match b.state
    case Closed => b.(failures := 0)
    case HalfOpen =>
      var b' := b.(successes := Increment(b.successes));
      if b'.successes >= c.successThreshold then b'.(state := Closed, failures := 0) else b'
    case Open => b
  }

  function AfterFailure(c: Config, b: Breaker, now: nat): Breaker {
    match b.state
    case Closed =>
      var b' := b.(failures := Increment(b.failures), lastFailure := now);
      if b'.failures >= c.failureThreshold then b'.(state := Open) else b'
    case HalfOpen => b.(state := Open, successes := 0, lastFailure := now)
    case Open => b.(lastFailure := now)
  }

  class CircuitBreakerPlugin {
    const config: Config
    var state: CircuitState
    var failureCount: u32
    var successCount: u32
    var lastFailureTime: nat

    ghost function State(): Breaker
      reads this
    {
      Breaker(state, failureCount, successCount, lastFailureTime)
    }

    constructor (config: Config)
      ensures this.config == config && State() == NEW
    {
      this.config := config;
      state, failureCount, successCount, lastFailureTime := Closed, 0, 0, 0;
    }

    method ShouldAllow(now: nat) returns (ok: bool)
      modifies this
      ensures ok <==> Allows(config, old(State()), now)
      ensures State() == AfterRequest(config, old(State()), now)
    {
      match state {
        case Closed => ok := true;
        case HalfOpen => ok := true;
        case Open =>
          var elapsed := if now <= lastFailureTime then 0 else now - lastFailureTime;
          if elapsed >= config.openSecs {
            state := HalfOpen;
            successCount := 0;
            ok := true;
          } else {
            ok := false;
          }
      }
    }

    method RecordSuccess()
      modifies this
      ensures State() == AfterSuccess(config, old(State()))
    {
      match state {
        case Closed =>
          failureCount := 0;
        case HalfOpen =>
          successCount := Increment(successCount);
          if successCount >= config.successThreshold {
            state := Closed;
            failureCount := 0;
          }
        case Open =>
      }
    }

    method RecordFailure(now: nat)
      modifies this
      ensures State() == AfterFailure(config, old(State()), now)
    {
      lastFailureTime := now;
      match state {
        case Closed =>
          failureCount := Increment(failureCount);
          if failureCount >= config.failureThreshold {
            state := Open;
          }
        case HalfOpen =>
          state := Open;
          successCount := 0;
        case Open =>
      }
    }
  }

  // ---------------------------------------------------------------------------------------------
  // Event logs
  // ---------------------------------------------------------------------------------------------

  datatype Event = Request(at: nat) | Success | Failure(at: nat)

  function Step(c: Config, b: Breaker, ev: Event): Breaker {
    match ev
    case Request(now) => AfterRequest(c, b, now)
    case Success => AfterSuccess(c, b)
    case Failure(now) => AfterFailure(c, b, now)
  }

  function Run(c: Config, b: Breaker, log: seq<Event>): Breaker {
    if log == [] then b else Step(c, Run(c, b, log[..|log| - 1]), log[|log| - 1])
  }

  /** The breaker is in state `s` after every prefix of the log. */
  predicate Stays(c: Config, b: Breaker, s: CircuitState, log: seq<Event>) {
    (log == [] || Stays(c, b, s, log[..|log| - 1])) && Run(c, b, log).state == s
  }

  /** Failures since the last success, requests aside. */
  function FailureRun(log: seq<Event>): nat {
    if log == [] then 0
    else
      match log[|log| - 1]
      case Request(_) => FailureRun(log[..|log| - 1])
      case Success => 0
      case Failure(_) => FailureRun(log[..|log| - 1]) + 1
  }

  /** No prefix ends in `n` failures in a row. */
  predicate RunsBelow(log: seq<Event>, n: nat) {
    FailureRun(log) < n && (log == [] || RunsBelow(log[..|log| - 1], n))
  }

  function SuccessCount(log: seq<Event>): nat {
    if log == [] then 0 else SuccessCount(log[..|log| - 1]) + (if log[|log| - 1].Success? then 1 else 0)
  }

  predicate NoFailure(log: seq<Event>) {
    log == [] || (!log[|log| - 1].Failure? && NoFailure(log[..|log| - 1]))
  }

  /** When the latest failure of the log was, `t` if it has none. */
  function LatestFailure(log: seq<Event>, t: nat): nat {
    if log == [] then t
    else if log[|log| - 1].Failure? then log[|log| - 1].at
    else LatestFailure(log[..|log| - 1], t)
  }

  /** No request of the log comes `secs` or more after the failure that was then the latest. */
  predicate NoneLate(log: seq<Event>, t: nat, secs: nat) {
    log == [] ||
    (&& NoneLate(log[..|log| - 1], t, secs)
     && (log[|log| - 1].Request? ==>
           var last := LatestFailure(log[..|log| - 1], t);
           (if log[|log| - 1].at <= last then 0 else log[|log| - 1].at - last) < secs))
  }

  function AtLeastOne(n: nat): nat {
    Max(1, n)
  }

  // ---------------------------------------------------------------------------------------------
  // When each state is left
  // ---------------------------------------------------------------------------------------------

  /** The counters never wrap and stay below the threshold that would have changed the state. */
  ghost predicate Sane(c: Config, b: Breaker) {
    && (b.state.Closed? ==> b.failures < AtLeastOne(c.failureThreshold))
    && (b.state.HalfOpen? ==> b.successes < AtLeastOne(c.successThreshold))
    && b.failures <= AtLeastOne(c.failureThreshold) && b.successes <= AtLeastOne(c.successThreshold)
  }

  lemma {:induction false} RunIsSane(c: Config, b: Breaker, log: seq<Event>)
    requires Sane(c, b)
    ensures Sane(c, Run(c, b, log))
  {
    if log == [] {
    } else {
      RunIsSane(c, b, log[..|log| - 1]);
    }
  }

  /** No counter ever wraps, whatever the calls: an increment always adds one. */
  lemma CountersNeverWrap(c: Config, log: seq<Event>)
    ensures var b := Run(c, NEW, log);
            && (b.state.Closed? ==> Increment(b.failures) == b.failures + 1)
            && (b.state.HalfOpen? ==> Increment(b.successes) == b.successes + 1)
            && b.lastFailure == LatestFailure(log, 0)
  {
    RunIsSane(c, NEW, log);
    LatestFailureIsKept(c, NEW, log);
  }

  lemma {:induction false} LatestFailureIsKept(c: Config, b: Breaker, log: seq<Event>)
    ensures Run(c, b, log).lastFailure == LatestFailure(log, b.lastFailure)
  {
    if log == [] {
    } else {
      LatestFailureIsKept(c, b, log[..|log| - 1]);
    }
  }

  /**
   Just closed, the breaker stays closed exactly as long as no max(1, threshold) failures come in a row; the
   failure that completes such a run opens it.
   */
  lemma {:induction false} ClosedUntilFailureRun(c: Config, b: Breaker, log: seq<Event>)
    requires b.state.Closed? && b.failures == 0 && b.successes <= AtLeastOne(c.successThreshold)
    ensures Stays(c, b, Closed, log) <==> RunsBelow(log, AtLeastOne(c.failureThreshold))
    ensures Stays(c, b, Closed, log) ==> Run(c, b, log).failures == FailureRun(log)
    ensures log != [] && Stays(c, b, Closed, log[..|log| - 1]) && !Stays(c, b, Closed, log) ==> Run(c, b, log).state.Open?
  {
    if log == [] {
    } else {
      var front, ev := log[..|log| - 1], log[|log| - 1];
      ClosedUntilFailureRun(c, b, front);
      RunIsSane(c, b, front);
      if Run(c, b, front).state.Closed? {
        ClosedStep(c, Run(c, b, front), ev);
      }
      hide Step, Sane;
    }
  }

  lemma ClosedStep(c: Config, b: Breaker, ev: Event)
    requires b.state.Closed? && Sane(c, b)
    ensures var b' := Step(c, b, ev);
            && (b'.state.Closed? <==> !ev.Failure? || b.failures + 1 < AtLeastOne(c.failureThreshold))
            && (b'.state.Closed? || b'.state.Open?)
            && (b'.state.Closed? ==> b'.failures == match ev
                                                    case Request(_) => b.failures
                                                    case Success => 0
                                                    case Failure(_) => b.failures + 1)
  {
  }

  /**
   Just half open, the breaker stays so exactly as long as there is no failure and fewer than max(1, quota)
   successes; a failure opens it, and the success that meets the quota closes it with a clean count.
   */
  lemma {:induction false} HalfOpenUntilDecided(c: Config, b: Breaker, log: seq<Event>)
    requires b.state.HalfOpen? && b.successes == 0 && b.failures <= AtLeastOne(c.failureThreshold)
    ensures Stays(c, b, HalfOpen, log) <==> NoFailure(log) && SuccessCount(log) < AtLeastOne(c.successThreshold)
    ensures Stays(c, b, HalfOpen, log) ==> Run(c, b, log).successes == SuccessCount(log)
    ensures log != [] && Stays(c, b, HalfOpen, log[..|log| - 1]) && !Stays(c, b, HalfOpen, log) ==>
      var b' := Run(c, b, log);
      if log[|log| - 1].Failure? then b'.state.Open? else b'.state.Closed? && b'.failures == 0
  {
    if log == [] {
    } else {
      HalfOpenUntilDecided(c, b, log[..|log| - 1]);
      RunIsSane(c, b, log[..|log| - 1]);
    }
  }

  /**
   Open, the breaker stays open exactly as long as no request comes `openSecs` whole seconds or more after the
   latest failure, counting failures recorded while it is open; the request that does half-opens it.
   */
  lemma {:induction false} OpenUntilLateRequest(c: Config, b: Breaker, log: seq<Event>)
    requires b.state.Open?
    ensures Stays(c, b, Open, log) <==> NoneLate(log, b.lastFailure, c.openSecs)
    ensures log != [] && Stays(c, b, Open, log[..|log| - 1]) && !Stays(c, b, Open, log) ==>
      log[|log| - 1].Request? && Run(c, b, log).state.HalfOpen? && Run(c, b, log).successes == 0
  {
    if log == [] {
    } else {
      OpenUntilLateRequest(c, b, log[..|log| - 1]);
      LatestFailureIsKept(c, b, log[..|log| - 1]);
    }
  }

  // ---------------------------------------------------------------------------------------------
  // The breaker as a function of the whole log
  // ---------------------------------------------------------------------------------------------

  /** The time from the latest failure of the log to `now`, none if the clock went back. */
  function SinceFailure(log: seq<Event>, now: nat): nat {
    var last := LatestFailure(log, 0);
    if now <= last then 0 else now - last
  }

  /** A state, and where in the log it was entered. */
  datatype Phase = Phase(state: CircuitState, start: nat)

  /** The phase after one more event, `front` being the log before it. */
  function NextPhase(c: Config, before: Phase, front: seq<Event>, ev: Event): (r: Phase)
    requires before.start <= |front|
    ensures r.start <= |front| + 1
  {
    var since, entered := front[before.start..] + [ev], |front| + 1;
    match before.state
    case Closed =>
      if FailureRun(since) >= AtLeastOne(c.failureThreshold) then Phase(Open, entered) else before
    case Open =>
      if ev.Request? && SinceFailure(front, ev.at) >= c.openSecs then Phase(HalfOpen, entered) else before
    case HalfOpen =>
      if ev.Failure? then Phase(Open, entered)
      else if SuccessCount(since) >= AtLeastOne(c.successThreshold) then Phase(Closed, entered)
      else before
  }

  /**
   Read off the log alone: closed until a run of failures since it closed reaches the threshold, open until a request
   comes late enough after the latest failure, half open until a failure or the quota of successes.
   */
  function PhaseOf(c: Config, log: seq<Event>): (r: Phase)
    ensures r.start <= |log|
  {
    if log == [] then Phase(Closed, 0)
    else
      var front := log[..|log| - 1];
      NextPhase(c, PhaseOf(c, front), front, log[|log| - 1])
  }

  lemma CountsPush(log: seq<Event>, ev: Event)
    ensures FailureRun(log + [ev]) == match ev
                                      case Request(_) => FailureRun(log)
                                      case Success => 0
                                      case Failure(_) => FailureRun(log) + 1
    ensures SuccessCount(log + [ev]) == SuccessCount(log) + (if ev.Success? then 1 else 0)
    ensures FailureRun([]) == 0 && SuccessCount([]) == 0
  {
    assert (log + [ev])[..|log|] == log;
  }

  /** The breaker agrees with what is read off the log in this phase. */
  ghost predicate Agrees(b: Breaker, phase: Phase, log: seq<Event>) {
    && phase.start <= |log|
    && b.state == phase.state
    && (b.state.Closed? ==> b.failures == FailureRun(log[phase.start..]))
    && (b.state.HalfOpen? ==> b.successes == SuccessCount(log[phase.start..]))
    && b.lastFailure == LatestFailure(log, 0)
  }

  lemma AgreesStep(c: Config, b: Breaker, phase: Phase, front: seq<Event>, ev: Event)
    requires Agrees(b, phase, front) && Sane(c, b)
    requires Step(c, b, ev).lastFailure == LatestFailure(front + [ev], 0)
    ensures Agrees(Step(c, b, ev), NextPhase(c, phase, front, ev), front + [ev])
  {
    var log := front + [ev];
    CountsPush(front[phase.start..], ev);
    assert log[phase.start..] == front[phase.start..] + [ev] && log[|log|..] == [];
    assert b.state.Closed? ==> Increment(b.failures) == b.failures + 1;
    assert b.state.HalfOpen? ==> Increment(b.successes) == b.successes + 1;
    hide Increment, LatestFailure, FailureRun, SuccessCount;
    match b.state
    case Closed => hide Elapsed;
    case Open =>
    case HalfOpen => hide Elapsed;
  }

  /**
   For every sequence of calls on a new breaker, its state and counters are those read off the log: the state, the
   failures in a row since it closed, the successes since it half opened, and the time of the latest failure.
   */
  lemma {:induction false} BreakerIsLog(c: Config, log: seq<Event>)
    ensures Agrees(Run(c, NEW, log), PhaseOf(c, log), log)
  {
    if log == [] {
    } else {
      var front := log[..|log| - 1];
      BreakerIsLog(c, front);
      RunIsSane(c, NEW, front);
      LatestFailureIsKept(c, NEW, log);
      assert log == front + [log[|log| - 1]];
      hide Agrees, Sane, Step, LatestFailure, NextPhase;
      AgreesStep(c, Run(c, NEW, front), PhaseOf(c, front), front, log[|log| - 1]);
    }
  }

  /** A request is refused exactly when the log leaves the breaker open and its latest failure is too recent. */
  lemma RefusedIff(c: Config, log: seq<Event>, now: nat)
    ensures !Allows(c, Run(c, NEW, log), now) <==> PhaseOf(c, log).state.Open? && SinceFailure(log, now) < c.openSecs
  {
    BreakerIsLog(c, log);
    hide Run, PhaseOf;
  }
}
