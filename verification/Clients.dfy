/**
 * Calls to a neighbour: the circuit breaker (backend/src/api/clients/circuit_breaker.py), the retries
 * (backend/src/api/clients/retry.py) and the client that composes them
 * (backend/src/api/clients/base.py).  Instants and delays are microseconds.
 */
module Clients {
  import opened Results

  datatype CircuitState = Closed | Open | HalfOpen

  /** The value of a breaker. */
  datatype Circuit = Circuit(state: CircuitState, failures: nat, openedAt: int, probing: bool)

  const CLOSED_CIRCUIT := Circuit(Closed, 0, 0, false)

  datatype Limits = Limits(threshold: nat, resetTimeout: int)

  predicate Admits(limits: Limits, c: Circuit, now: int) {
    match c.state
    case Closed => true
    case Open => now - c.openedAt >= limits.resetTimeout
    case HalfOpen => !c.probing
  }

  function Acquired(limits: Limits, c: Circuit, now: int): Circuit {
    if !Admits(limits, c, now) || c.state == Closed then c else c.(state := HalfOpen, probing := true)
  }

  function Succeeded(c: Circuit): Circuit {
    c.(state := Closed, failures := 0, probing := false)
  }

  function FailedAt(limits: Limits, c: Circuit, now: int): Circuit {
    if c.state == HalfOpen then c.(state := Open, openedAt := now, probing := false)
    else
      var counted := c.(failures := c.failures + 1, probing := false);
      if counted.failures >= limits.threshold then counted.(state := Open, openedAt := now) else counted
  }

  class CircuitBreaker {
    const limits: Limits
    var state: CircuitState
    var failures: nat
    var openedAt: int
    var halfOpenInFlight: bool

    /** The threshold must be at least one; anything less is refused before a breaker exists. */
    constructor (limits: Limits)
      requires limits.threshold >= 1
      ensures this.limits == limits && Value() == CLOSED_CIRCUIT
    {
      this.limits := limits;
      state, failures, openedAt, halfOpenInFlight := Closed, 0, 0, false;
    }

    function Value(): Circuit
      reads this
    {
      Circuit(state, failures, openedAt, halfOpenInFlight)
    }

    /** Whether a call may be made now; when the timeout of an open circuit has passed, as a probe. */
    method Acquire(now: int) returns (admitted: bool)
      modifies this
      ensures admitted == Admits(limits, old(Value()), now)
      ensures Value() == Acquired(limits, old(Value()), now)
      ensures old(state) == Closed ==> admitted
      ensures old(state) == Open ==> (admitted <==> now - openedAt >= limits.resetTimeout)
      ensures old(state) == HalfOpen ==> (admitted <==> !old(halfOpenInFlight))
      ensures if admitted && old(state) != Closed
              then Value() == Circuit(HalfOpen, old(failures), old(openedAt), true) else Value() == old(Value())
    {
      if state == Open {
        if now - openedAt >= limits.resetTimeout {
          state := HalfOpen;
          halfOpenInFlight := true;
          return true;
        }
        return false;
      }
      if state == HalfOpen {
        if halfOpenInFlight {
          return false;
        }
        halfOpenInFlight := true;
        return true;
      }
      return true;
    }

    method RecordSuccess()
      modifies this
      ensures Value() == Succeeded(old(Value()))
    {
      failures := 0;
      halfOpenInFlight := false;
      state := Closed;
    }

    method RecordFailure(now: int)
      modifies this
      ensures Value() == FailedAt(limits, old(Value()), now)
    {
      halfOpenInFlight := false;
      if state == HalfOpen {
        state := Open;
        openedAt := now;
        return;
      }
      failures := failures + 1;
      if failures >= limits.threshold {
        state := Open;
        openedAt := now;
      }
    }
  }

  // ---- Every interleaving ----

  /** What concurrent callers do to a breaker, in the order its lock lets them. */
  datatype Event = Acquire(now: int) | Success | Failure(now: int)

  function AfterEvent(limits: Limits, c: Circuit, event: Event): Circuit {
    match event
    case Acquire(now) => Acquired(limits, c, now)
    case Success => Succeeded(c)
    case Failure(now) => FailedAt(limits, c, now)
  }

  function AfterEvents(limits: Limits, c: Circuit, events: seq<Event>): Circuit {
    if events == [] then c
    else AfterEvent(limits, AfterEvents(limits, c, events[..|events| - 1]), events[|events| - 1])
  }

  ghost predicate Consistent(limits: Limits, c: Circuit) {
    && (c.state == Closed <==> c.failures < limits.threshold)
    && (c.state == HalfOpen <==> c.probing)
  }

  /** Whatever the interleaving, and however late an outcome is recorded: the circuit is closed exactly
      while the failures are below the threshold, and half open exactly while a probe is marked. */
  lemma {:induction false} AlwaysConsistent(limits: Limits, events: seq<Event>)
    requires limits.threshold >= 1
    ensures Consistent(limits, AfterEvents(limits, CLOSED_CIRCUIT, events))
  {
    if events != [] {
      AlwaysConsistent(limits, events[..|events| - 1]);
    }
  }

  // ---- The circuit as its history makes it ----

  /** How many failures there have been since the last success. */
  ghost function FailuresSince(events: seq<Event>): nat {
    if events == [] then 0
    else
      var before := FailuresSince(events[..|events| - 1]);
      match events[|events| - 1]
      case Acquire(_) => before
      case Success => 0
      case Failure(_) => before + 1
  }

  /** When the last failure was, if there was one. */
  ghost function LastFailure(events: seq<Event>): Option<int> {
    if events == [] then None
    else if events[|events| - 1].Failure? then Some(events[|events| - 1].now)
    else LastFailure(events[..|events| - 1])
  }

  /** Whether somebody has asked since the last failure, one timeout after it or later. */
  ghost predicate AskedSince(limits: Limits, events: seq<Event>) {
    && events != [] && !events[|events| - 1].Failure?
    && (AskedSince(limits, events[..|events| - 1])
        || (&& events[|events| - 1].Acquire? && LastFailure(events).Some?
            && events[|events| - 1].now - LastFailure(events).value >= limits.resetTimeout))
  }

  /**
   * The whole circuit, from what has happened to a new breaker.  It is closed exactly while there have
   * been fewer failures than the threshold since the last success, and counts them; otherwise it opened
   * at the last failure, and is half open exactly if somebody has asked since, a timeout later.
   */
  lemma {:induction false} CircuitByHistory(limits: Limits, events: seq<Event>)
    requires limits.threshold >= 1
    ensures var c := AfterEvents(limits, CLOSED_CIRCUIT, events);
            && (c.state == Closed <==> FailuresSince(events) < limits.threshold)
            && (c.state == Closed ==> c.failures == FailuresSince(events) && !c.probing)
            && (c.state != Closed ==> LastFailure(events) == Some(c.openedAt))
            && (c.state != Closed ==> (c.state == HalfOpen <==> AskedSince(limits, events)))
            && (c.state == HalfOpen <==> c.probing)
  {
    if events != [] {
      var before, last := events[..|events| - 1], events[|events| - 1];
      CircuitByHistory(limits, before);
      AlwaysConsistent(limits, before);
      if last.Acquire? {
        assert LastFailure(events) == LastFailure(before);
      }
    }
  }

  /** So the failure that fills the threshold opens the circuit, at its own instant. */
  lemma OpensExactly(limits: Limits, events: seq<Event>, event: Event)
    requires limits.threshold >= 1
    ensures var before := AfterEvents(limits, CLOSED_CIRCUIT, events);
            var after := AfterEvents(limits, CLOSED_CIRCUIT, events + [event]);
            before.state == Closed ==>
              && (after.state == Open <==> event.Failure? && FailuresSince(events) + 1 == limits.threshold)
              && (after.state == Open ==> after.openedAt == event.now)
  {
    CircuitByHistory(limits, events);
    CircuitByHistory(limits, events + [event]);
    var all := events + [event];
    assert all[..|all| - 1] == events && all[|all| - 1] == event;
  }

  /** And a call is admitted exactly if there have been fewer failures than the threshold, or the last of
      them is a timeout ago and nobody has asked since it was. */
  lemma AdmittedExactly(limits: Limits, events: seq<Event>, now: int)
    requires limits.threshold >= 1
    ensures Admits(limits, AfterEvents(limits, CLOSED_CIRCUIT, events), now)
            <==> || FailuresSince(events) < limits.threshold
                 || (&& LastFailure(events).Some? && now - LastFailure(events).value >= limits.resetTimeout
                     && !AskedSince(limits, events))
  {
    CircuitByHistory(limits, events);
  }

  // ---- Probes ----

  /** A breaker with the calls it let through that have not ended: the probes, and those admitted while
      it was closed. */
  datatype Traffic = Traffic(circuit: Circuit, probes: nat, others: nat)

  datatype Step = Ask(now: int) | End(isProbe: bool, ok: bool, now: int)

  ghost predicate IsPossible(t: Traffic, step: Step) {
    step.End? ==> if step.isProbe then t.probes > 0 else t.others > 0
  }

  ghost function AfterStep(limits: Limits, t: Traffic, step: Step): Traffic
    requires IsPossible(t, step)
  {
    match step
    case Ask(now) =>
      var asked := t.(circuit := Acquired(limits, t.circuit, now));
      if !Admits(limits, t.circuit, now) then t
      else if t.circuit.state == Closed then asked.(others := t.others + 1)
      else asked.(probes := t.probes + 1)
    case End(isProbe, ok, now) =>
      var ended := t.(circuit := if ok then Succeeded(t.circuit) else FailedAt(limits, t.circuit, now));
      if isProbe then ended.(probes := t.probes - 1) else ended.(others := t.others - 1)
  }

  ghost predicate IsTraffic(limits: Limits, steps: seq<Step>)
    decreases |steps|, 0
  {
    steps == []
    || (var n := |steps| - 1;
        IsTraffic(limits, steps[..n]) && IsPossible(TrafficAfter(limits, steps[..n]), steps[n]))
  }

  ghost function TrafficAfter(limits: Limits, steps: seq<Step>): Traffic
    requires IsTraffic(limits, steps)
    decreases |steps|, 1
  {
    if steps == [] then Traffic(CLOSED_CIRCUIT, 0, 0)
    else AfterStep(limits, TrafficAfter(limits, steps[..|steps| - 1]), steps[|steps| - 1])
  }

  /** A probe is under way exactly while the circuit is half open, and never a second one. */
  ghost predicate OneProbe(t: Traffic) {
    && t.probes == (if t.circuit.state == HalfOpen then 1 else 0)
    && (t.circuit.state == HalfOpen <==> t.circuit.probing)
  }

  /** A call admitted while the circuit was closed ends only now that it is half open. */
  ghost predicate EndsLate(t: Traffic, step: Step) {
    step.End? && !step.isProbe && t.circuit.state == HalfOpen
  }

  /** A step breaks the rule of the one probe exactly if it is such a late end. */
  lemma OneProbeKept(limits: Limits, t: Traffic, step: Step)
    requires OneProbe(t) && IsPossible(t, step)
    ensures OneProbe(AfterStep(limits, t, step)) <==> !EndsLate(t, step)
  {
  }

  /** The `i`-th step of a run is a late end. */
  ghost predicate LateAt(limits: Limits, steps: seq<Step>, i: nat) {
    i < |steps| && IsTraffic(limits, steps[..i]) && EndsLate(TrafficAfter(limits, steps[..i]), steps[i])
  }

  ghost predicate OneProbeAt(limits: Limits, steps: seq<Step>, i: nat) {
    i <= |steps| && IsTraffic(limits, steps[..i]) && OneProbe(TrafficAfter(limits, steps[..i]))
  }

  lemma {:induction false} TrafficPrefix(limits: Limits, steps: seq<Step>, i: nat)
    requires IsTraffic(limits, steps) && i <= |steps|
    ensures IsTraffic(limits, steps[..i])
    ensures i < |steps| ==> IsPossible(TrafficAfter(limits, steps[..i]), steps[i])
  {
    if i < |steps| {
      TrafficPrefix(limits, steps[..|steps| - 1], i);
      assert steps[..|steps| - 1][..i] == steps[..i];
    } else {
      assert steps[..i] == steps;
    }
  }

  lemma OneStepOn(limits: Limits, steps: seq<Step>, i: nat)
    requires IsTraffic(limits, steps) && i < |steps|
    ensures OneProbeAt(limits, steps, i) ==> (OneProbeAt(limits, steps, i + 1) <==> !LateAt(limits, steps, i))
  {
    TrafficPrefix(limits, steps, i);
    TrafficPrefix(limits, steps, i + 1);
    assert steps[..i + 1][..i] == steps[..i];
    if OneProbeAt(limits, steps, i) {
      OneProbeKept(limits, TrafficAfter(limits, steps[..i]), steps[i]);
    }
  }

  lemma {:induction false} OneProbeUpTo(limits: Limits, steps: seq<Step>, i: nat)
    requires IsTraffic(limits, steps) && i <= |steps|
    requires forall j :: 0 <= j < i ==> !LateAt(limits, steps, j)
    ensures OneProbeAt(limits, steps, i)
  {
    if i > 0 {
      OneProbeUpTo(limits, steps, i - 1);
      OneStepOn(limits, steps, i - 1);
    }
  }

  /** The rule holds all along a run exactly if no outcome comes late. */
  lemma OneProbeExactly(limits: Limits, steps: seq<Step>)
    requires IsTraffic(limits, steps)
    ensures (forall i: nat :: i <= |steps| ==> OneProbeAt(limits, steps, i))
            <==> (forall i: nat :: i < |steps| ==> !LateAt(limits, steps, i))
  {
    if forall i: nat :: i < |steps| ==> !LateAt(limits, steps, i) {
      forall i: nat | i <= |steps| ensures OneProbeAt(limits, steps, i) {
        OneProbeUpTo(limits, steps, i);
      }
    }
    if forall i: nat :: i <= |steps| ==> OneProbeAt(limits, steps, i) {
      forall i: nat | i < |steps| ensures !LateAt(limits, steps, i) {
        assert OneProbeAt(limits, steps, i) && OneProbeAt(limits, steps, i + 1);
        OneStepOn(limits, steps, i);
      }
    }
  }

  // ---- What happens while a probe is under way ----

  /** Steps from a state on, none of which ends a probe; and none of which comes late, unless `late`. */
  ghost predicate ProbeGoesOn(limits: Limits, t: Traffic, steps: seq<Step>, late: bool)
    decreases |steps|
  {
    steps == []
    || (&& IsPossible(t, steps[0]) && !(steps[0].End? && steps[0].isProbe) && (late || !EndsLate(t, steps[0]))
        && ProbeGoesOn(limits, AfterStep(limits, t, steps[0]), steps[1..], late))
  }

  ghost function TrafficFrom(limits: Limits, t: Traffic, steps: seq<Step>, late: bool): Traffic
    requires ProbeGoesOn(limits, t, steps, late)
    decreases |steps|
  {
    if steps == [] then t else TrafficFrom(limits, AfterStep(limits, t, steps[0]), steps[1..], late)
  }

  lemma StepFirst(limits: Limits, t: Traffic, step: Step, rest: seq<Step>, late: bool)
    requires IsPossible(t, step) && !(step.End? && step.isProbe) && (late || !EndsLate(t, step))
    requires ProbeGoesOn(limits, AfterStep(limits, t, step), rest, late)
    ensures ProbeGoesOn(limits, t, [step] + rest, late)
    ensures TrafficFrom(limits, t, [step] + rest, late) == TrafficFrom(limits, AfterStep(limits, t, step), rest, late)
  {
    assert ([step] + rest)[1..] == rest;
  }

  lemma {:induction false} StillOneProbe(limits: Limits, t: Traffic, steps: seq<Step>)
    requires OneProbe(t) && ProbeGoesOn(limits, t, steps, false)
    ensures OneProbe(TrafficFrom(limits, t, steps, false))
    decreases |steps|
  {
    if steps != [] {
      OneProbeKept(limits, t, steps[0]);
      StillOneProbe(limits, AfterStep(limits, t, steps[0]), steps[1..]);
    }
  }

  /** With a probe under way that the circuit has forgotten, new calls open it and let a second one in. */
  lemma {:induction false} SecondProbe(limits: Limits, t: Traffic) returns (steps: seq<Step>)
    requires t.probes == 1
    requires t.circuit.state == Open || (t.circuit.state == Closed && t.circuit.failures < limits.threshold)
    ensures ProbeGoesOn(limits, t, steps, false) && TrafficFrom(limits, t, steps, false).probes == 2
    decreases t.circuit.state == Closed, limits.threshold - t.circuit.failures
  {
    if t.circuit.state == Open {
      var ask := Ask(t.circuit.openedAt + limits.resetTimeout);
      StepFirst(limits, t, ask, [], false);
      steps := [ask] + [];
    } else {
      var asked := AfterStep(limits, t, Ask(0));
      var rest := SecondProbe(limits, AfterStep(limits, asked, End(false, false, 0)));
      StepFirst(limits, asked, End(false, false, 0), rest, false);
      StepFirst(limits, t, Ask(0), [End(false, false, 0)] + rest, false);
      steps := [Ask(0)] + ([End(false, false, 0)] + rest);
    }
  }

  /**
   * The promise of one probe.  While a probe is under way, a step makes a second one possible, before
   * the first has ended and without another late end, exactly if it is a late end itself.
   */
  lemma SecondProbeExactly(limits: Limits, t: Traffic, step: Step)
    requires limits.threshold >= 1 && OneProbe(t) && t.circuit.state == HalfOpen && IsPossible(t, step)
    ensures EndsLate(t, step)
            <==> exists steps :: ProbeGoesOn(limits, AfterStep(limits, t, step), steps, false)
                                 && TrafficFrom(limits, AfterStep(limits, t, step), steps, false).probes >= 2
  {
    var after := AfterStep(limits, t, step);
    OneProbeKept(limits, t, step);
    if EndsLate(t, step) {
      var steps := SecondProbe(limits, after);
      assert ProbeGoesOn(limits, after, steps, false) && TrafficFrom(limits, after, steps, false).probes >= 2;
    } else {
      forall steps | ProbeGoesOn(limits, after, steps, false)
        ensures TrafficFrom(limits, after, steps, false).probes <= 1
      {
        StillOneProbe(limits, after, steps);
      }
    }
  }

  lemma {:induction false} NobodyElse(limits: Limits, t: Traffic, steps: seq<Step>)
    requires OneProbe(t) && t.circuit.state == HalfOpen && t.others == 0 && ProbeGoesOn(limits, t, steps, true)
    ensures TrafficFrom(limits, t, steps, true) == t
    decreases |steps|
  {
    if steps != [] {
      NobodyElse(limits, AfterStep(limits, t, steps[0]), steps[1..]);
    }
  }

  /** While a probe that never ends is under way, the circuit can come to admit anybody again exactly
      if a call admitted while it was closed has still to end. */
  lemma ReleasedExactly(limits: Limits, t: Traffic)
    requires OneProbe(t) && t.circuit.state == HalfOpen
    ensures t.others > 0
            <==> exists steps, now :: ProbeGoesOn(limits, t, steps, true)
                                      && Admits(limits, TrafficFrom(limits, t, steps, true).circuit, now)
  {
    if t.others > 0 {
      StepFirst(limits, t, End(false, true, 0), [], true);
      assert Admits(limits, TrafficFrom(limits, t, [End(false, true, 0)] + [], true).circuit, 0);
    } else {
      forall steps | ProbeGoesOn(limits, t, steps, true)
        ensures TrafficFrom(limits, t, steps, true) == t
      {
        NobodyElse(limits, t, steps);
      }
    }
  }

  lemma OneMore(limits: Limits, steps: seq<Step>, step: Step)
    requires IsTraffic(limits, steps) && IsPossible(TrafficAfter(limits, steps), step)
    ensures IsTraffic(limits, steps + [step])
    ensures TrafficAfter(limits, steps + [step]) == AfterStep(limits, TrafficAfter(limits, steps), step)
  {
    assert (steps + [step])[..|steps|] == steps;
  }

  /** Two probes can be under way: of two calls admitted while the circuit was closed, one opens it
      and the other fails during the first probe, after which the timeout admits a second. */
  lemma TwoProbes() returns (limits: Limits, steps: seq<Step>)
    ensures limits.threshold >= 1 && IsTraffic(limits, steps)
    ensures TrafficAfter(limits, steps).probes == 2
  {
    limits, steps := Limits(1, 30), [];
    var rest := [Ask(0), Ask(0), End(false, false, 0), Ask(30), End(false, false, 31), Ask(61)];
    OneMore(limits, [], rest[0]);
    OneMore(limits, [] + [rest[0]], rest[1]);
    OneMore(limits, [] + [rest[0]] + [rest[1]], rest[2]);
    steps := [] + [rest[0]] + [rest[1]] + [rest[2]];
    OneMore(limits, steps, rest[3]);
    OneMore(limits, steps + [rest[3]], rest[4]);
    OneMore(limits, steps + [rest[3]] + [rest[4]], rest[5]);
    steps := steps + [rest[3]] + [rest[4]] + [rest[5]];
  }

  // ---- Retries ----

  datatype RetryPolicy = RetryPolicy(attempts: nat, baseDelay: int, maxDelay: int) {

    /** The delay after the `attempt`-th attempt, counted from 1. */
    function Backoff(attempt: nat): int
      requires attempt > 0
    {
      Min(baseDelay * Pow2(attempt - 1), maxDelay)
    }

    /** The first delay is the base, every further one double, none more than the maximum. */
    lemma BackoffDoubles(attempt: nat)
      requires attempt > 0 && baseDelay >= 0 && maxDelay >= 0
      ensures Backoff(1) == Min(baseDelay, maxDelay)
      ensures Backoff(attempt + 1) == Min(2 * Backoff(attempt), maxDelay)
    {
      var delay := baseDelay * Pow2(attempt - 1);
      assert baseDelay * Pow2(attempt) == 2 * delay;
      assert delay >= 0;
    }

    /** The delays after the first `n` attempts. */
    ghost function Delays(n: nat): int {
      if n == 0 then 0 else Delays(n - 1) + Backoff(n)
    }

    lemma {:induction false} DelaysBounded(n: nat)
      ensures Delays(n) <= n * maxDelay
    {
      if n > 0 {
        DelaysBounded(n - 1);
        assert n * maxDelay == (n - 1) * maxDelay + maxDelay;
      }
    }
  }

  /** The end of one network attempt: an answer, a transport error, or any other error. */
  datatype AttemptEnd = Answer(code: int) | TransportError | OtherError

  predicate IsRetryable(end: AttemptEnd) {
    end == TransportError || (end.Answer? && end.code >= 500)
  }

  /** The number of attempts a call makes: up to the first end that is not retryable, or all. */
  function Made(attempts: nat, ends: nat -> AttemptEnd, from: nat): (made: nat)
    requires 1 <= from <= attempts
    ensures from <= made <= attempts
    ensures forall i :: from <= i < made ==> IsRetryable(ends(i))
    ensures made < attempts ==> !IsRetryable(ends(made))
    decreases attempts - from
  {
    if from == attempts || !IsRetryable(ends(from)) then from else Made(attempts, ends, from + 1)
  }

  /** Attempt until something other than a retryable error comes back, or the attempts are used up. */
  method RetryAsync(policy: RetryPolicy, ends: nat -> AttemptEnd) returns (end: AttemptEnd, made: nat, slept: int)
    requires policy.attempts >= 1
    ensures made == Made(policy.attempts, ends, 1) && end == ends(made)
    ensures slept == policy.Delays(made - 1)
  {
    made, slept := 0, 0;
    end := TransportError;
    while made < policy.attempts
      invariant 0 <= made <= policy.attempts
      invariant made < policy.attempts ==> slept == policy.Delays(made)
      invariant made < policy.attempts ==> Made(policy.attempts, ends, 1) == Made(policy.attempts, ends, made + 1)
      invariant made == policy.attempts ==>
                  && made == Made(policy.attempts, ends, 1) && end == ends(made)
                  && slept == policy.Delays(made - 1)
    {
      made := made + 1;
      end := ends(made);
      if !IsRetryable(end) || made == policy.attempts {
        return;
      }
      slept := slept + policy.Backoff(made);
    }
  }

  // ---- The client ----

  /** `CircuitOpen` and `Unavailable` are the client's errors; `Escaped` is any error it does not catch. */
  datatype CallEnd = Response(code: int) | CircuitOpen | Unavailable | Escaped

  /** One call: when it asks the breaker, how its attempts end, and when its outcome is recorded. */
  datatype Call = Call(acquireAt: int, ends: nat -> AttemptEnd, recordAt: int)

  datatype Config = Config(limits: Limits, policy: RetryPolicy) {
    predicate Valid() {
      limits.threshold >= 1 && policy.attempts >= 1
    }
  }

  function LastEnd(config: Config, call: Call): AttemptEnd
    requires config.Valid()
  {
    call.ends(Made(config.policy.attempts, call.ends, 1))
  }

  function EndOf(config: Config, c: Circuit, call: Call): CallEnd
    requires config.Valid()
  {
    if !Admits(config.limits, c, call.acquireAt) then CircuitOpen
    else if IsRetryable(LastEnd(config, call)) then Unavailable
    else if LastEnd(config, call) == OtherError then Escaped
    else Response(LastEnd(config, call).code)
  }

  function AttemptsOf(config: Config, c: Circuit, call: Call): nat
    requires config.Valid()
  {
    if Admits(config.limits, c, call.acquireAt) then Made(config.policy.attempts, call.ends, 1) else 0
  }

  function AfterCall(config: Config, c: Circuit, call: Call): Circuit
    requires config.Valid()
  {
    var admitted := Acquired(config.limits, c, call.acquireAt);
    match EndOf(config, c, call)
    case CircuitOpen => c
    case Unavailable => FailedAt(config.limits, admitted, call.recordAt)
    case Escaped => admitted
    case Response(_) => Succeeded(admitted)
  }

  /** What a call does to the breaker: it asks, and records a success for an answer, a failure when the
      neighbour is given up, nothing for an error that escapes. */
  ghost function EventsOf(call: Call, end: CallEnd): seq<Event> {
    match end
    case CircuitOpen | Escaped => [Acquire(call.acquireAt)]
    case Unavailable => [Acquire(call.acquireAt), Event.Failure(call.recordAt)]
    case Response(_) => [Acquire(call.acquireAt), Event.Success]
  }

  lemma CallIsEvents(config: Config, c: Circuit, call: Call)
    requires config.Valid()
    ensures AfterCall(config, c, call) == AfterEvents(config.limits, c, EventsOf(call, EndOf(config, c, call)))
  {
    var ask := Acquire(call.acquireAt);
    var events := EventsOf(call, EndOf(config, c, call));
    assert [ask][..0] == [];
    assert AfterEvents(config.limits, c, [ask]) == Acquired(config.limits, c, call.acquireAt);
    if |events| == 2 {
      assert events[..1] == [ask];
      assert AfterEvents(config.limits, c, events)
          == AfterEvent(config.limits, AfterEvents(config.limits, c, [ask]), events[1]);
    }
  }

  /** Ask the breaker, try, and record one outcome, unless an error nobody catches escapes. */
  method Request(config: Config, breaker: CircuitBreaker, call: Call) returns (end: CallEnd, made: nat)
    requires config.Valid() && breaker.limits == config.limits
    modifies breaker
    ensures end == EndOf(config, old(breaker.Value()), call)
    ensures made == AttemptsOf(config, old(breaker.Value()), call)
    ensures breaker.Value() == AfterCall(config, old(breaker.Value()), call)
    ensures breaker.Value() == AfterEvents(config.limits, old(breaker.Value()), EventsOf(call, end))
    ensures end == CircuitOpen <==> made == 0
    ensures forall i :: 1 <= i < made ==>
              call.ends(i) == TransportError || (call.ends(i).Answer? && call.ends(i).code >= 500)
    ensures end.Response? ==> call.ends(made) == Answer(end.code) && end.code < 500
    ensures end == Escaped ==> call.ends(made) == OtherError
    ensures end == Unavailable ==>
              && made == config.policy.attempts
              && (call.ends(made) == TransportError || (call.ends(made).Answer? && call.ends(made).code >= 500))
  {
    CallIsEvents(config, breaker.Value(), call);
    var admitted := breaker.Acquire(call.acquireAt);
    if !admitted {
      return CircuitOpen, 0;
    }
    var last, attempts, _ := RetryAsync(config.policy, call.ends);
    if last == OtherError {
      return Escaped, attempts;
    }
    if IsRetryable(last) {
      breaker.RecordFailure(call.recordAt);
      return Unavailable, attempts;
    }
    breaker.RecordSuccess();
    return Response(last.code), attempts;
  }

  // ---- A dead neighbour ----

  /** Every attempt fails in a way that is retried. */
  ghost predicate IsDead(call: Call) {
    forall n :: IsRetryable(call.ends(n))
  }

  /** One caller: each call begins after the one before has been recorded. */
  ghost predicate Sequential(calls: seq<Call>) {
    && (forall i :: 0 <= i < |calls| ==> calls[i].acquireAt <= calls[i].recordAt)
    && (forall i :: 0 < i < |calls| ==> calls[i - 1].recordAt <= calls[i].acquireAt)
  }

  function AfterCalls(config: Config, c: Circuit, calls: seq<Call>): Circuit
    requires config.Valid()
  {
    if calls == [] then c
    else AfterCall(config, AfterCalls(config, c, calls[..|calls| - 1]), calls[|calls| - 1])
  }

  /** The network attempts of all calls together. */
  function Load(config: Config, c: Circuit, calls: seq<Call>): nat
    requires config.Valid()
  {
    if calls == [] then 0
    else
      var n := |calls| - 1;
      Load(config, c, calls[..n]) + AttemptsOf(config, AfterCalls(config, c, calls[..n]), calls[n])
  }

  /** Before the circuit opens, every call is made in full and counted. */
  lemma {:induction false} BeforeOpening(config: Config, calls: seq<Call>)
    requires config.Valid() && |calls| <= config.limits.threshold
    requires forall i :: 0 <= i < |calls| ==> IsDead(calls[i])
    ensures Load(config, CLOSED_CIRCUIT, calls) == |calls| * config.policy.attempts
    ensures var c := AfterCalls(config, CLOSED_CIRCUIT, calls);
            && c.failures == |calls| && !c.probing
            && (|calls| < config.limits.threshold ==> c.state == Closed)
            && (|calls| == config.limits.threshold ==> c.state == Open && c.openedAt == calls[|calls| - 1].recordAt)
  {
    if calls != [] {
      var n := |calls| - 1;
      BeforeOpening(config, calls[..n]);
      DeadCall(config, AfterCalls(config, CLOSED_CIRCUIT, calls[..n]), calls[n]);
      assert (n + 1) * config.policy.attempts == n * config.policy.attempts + config.policy.attempts;
    }
  }

  lemma DeadCall(config: Config, c: Circuit, call: Call)
    requires config.Valid() && IsDead(call)
    ensures AttemptsOf(config, c, call) == if Admits(config.limits, c, call.acquireAt) then config.policy.attempts else 0
    ensures AfterCall(config, c, call)
            == if Admits(config.limits, c, call.acquireAt)
               then FailedAt(config.limits, Acquired(config.limits, c, call.acquireAt), call.recordAt) else c
  {
  }

  /** After the circuit has opened: `probes` calls were let through, each at least one timeout after
      the circuit last opened. */
  lemma {:induction false} AfterOpening(config: Config, calls: seq<Call>) returns (probes: nat)
    requires config.Valid() && config.limits.resetTimeout > 0
    requires |calls| >= config.limits.threshold && Sequential(calls)
    requires forall i :: 0 <= i < |calls| ==> IsDead(calls[i])
    ensures var c := AfterCalls(config, CLOSED_CIRCUIT, calls);
            var openedAt := calls[config.limits.threshold - 1].recordAt;
            && c.state == Open && !c.probing
            && openedAt + probes * config.limits.resetTimeout <= c.openedAt <= calls[|calls| - 1].recordAt
            && (probes > 0 ==> openedAt + probes * config.limits.resetTimeout <= calls[|calls| - 1].acquireAt)
    ensures Load(config, CLOSED_CIRCUIT, calls) == (config.limits.threshold + probes) * config.policy.attempts
    decreases |calls|
  {
    var n, threshold := |calls| - 1, config.limits.threshold;
    if |calls| == threshold {
      BeforeOpening(config, calls);
      probes := 0;
    } else {
      var before := AfterOpening(config, calls[..n]);
      var c := AfterCalls(config, CLOSED_CIRCUIT, calls[..n]);
      DeadCall(config, c, calls[n]);
      assert calls[n - 1].recordAt <= calls[n].acquireAt <= calls[n].recordAt;
      probes := if Admits(config.limits, c, calls[n].acquireAt) then before + 1 else before;
      assert (before + 1) * config.limits.resetTimeout
          == before * config.limits.resetTimeout + config.limits.resetTimeout;
      assert (threshold + before + 1) * config.policy.attempts
          == (threshold + before) * config.policy.attempts + config.policy.attempts;
    }
  }

  lemma AtLeastOnce(times: int, timeout: int)
    requires times >= 1 && timeout > 0
    ensures times * timeout >= timeout
  {
  }

  lemma WholeTimeouts(probes: nat, timeout: int, span: nat)
    requires timeout > 0 && probes * timeout <= span
    ensures probes <= span / timeout
  {
    var whole := span / timeout;
    assert (probes - whole) * timeout == probes * timeout - whole * timeout < timeout;
    if probes > whole {
      AtLeastOnce(probes - whole, timeout);
    }
  }

  lemma MoreProbes(attempts: nat, threshold: nat, probes: nat, most: nat)
    requires probes <= most
    ensures (threshold + probes) * attempts <= attempts * (threshold + most)
  {
    assert (most - probes) * attempts >= 0;
  }

  /**
   * The load on a dead neighbour is bounded.  A sequential caller whose every attempt fails makes, up
   * to the time `span` after the circuit first opens, at most
   * attempts * (threshold + span / resetTimeout) network attempts.
   */
  lemma BoundedLoad(config: Config, calls: seq<Call>, span: nat)
    requires config.Valid() && config.limits.resetTimeout > 0
    requires |calls| >= config.limits.threshold && Sequential(calls)
    requires forall i :: 0 <= i < |calls| ==> IsDead(calls[i])
    requires calls[|calls| - 1].acquireAt <= calls[config.limits.threshold - 1].recordAt + span
    ensures Load(config, CLOSED_CIRCUIT, calls)
            <= config.policy.attempts * (config.limits.threshold + span / config.limits.resetTimeout)
  {
    var probes := AfterOpening(config, calls);
    assert probes * config.limits.resetTimeout <= span;
    WholeTimeouts(probes, config.limits.resetTimeout, span);
    MoreProbes(config.policy.attempts, config.limits.threshold, probes, span / config.limits.resetTimeout);
  }

  // ---- An error that escapes ----

  /** A half-open circuit whose probe is never recorded refuses every later call, at any time. */
  lemma {:induction false} StuckHalfOpen(config: Config, c: Circuit, calls: seq<Call>)
    requires config.Valid() && c.state == HalfOpen && c.probing
    ensures AfterCalls(config, c, calls) == c && Load(config, c, calls) == 0
  {
    if calls != [] {
      StuckHalfOpen(config, c, calls[..|calls| - 1]);
    }
  }

  /** Some attempt ends with an error that nobody catches, and those before it with retried ones. */
  ghost predicate LetsEscape(attempts: nat, ends: nat -> AttemptEnd) {
    exists k :: 1 <= k <= attempts && EscapesAt(ends, k)
  }

  ghost predicate EscapesAt(ends: nat -> AttemptEnd, k: nat) {
    ends(k) == OtherError && forall i :: 1 <= i < k ==> IsRetryable(ends(i))
  }

  lemma EscapedExactly(config: Config, call: Call)
    requires config.Valid()
    ensures LastEnd(config, call) == OtherError <==> LetsEscape(config.policy.attempts, call.ends)
  {
    var attempts := config.policy.attempts;
    var made := Made(attempts, call.ends, 1);
    if LastEnd(config, call) == OtherError {
      assert EscapesAt(call.ends, made);
    }
    forall k | 1 <= k <= attempts && EscapesAt(call.ends, k) ensures k == made {
      assert made < k ==> IsRetryable(call.ends(made));
      assert k < made ==> IsRetryable(call.ends(k));
    }
  }

  /** A probe leaves a circuit that never lets anybody through again exactly if an uncaught error is
      the first of its attempts' ends that is not retried. */
  lemma ProbeRecovers(config: Config, c: Circuit, probe: Call)
    requires config.Valid() && c.state == Open && Admits(config.limits, c, probe.acquireAt)
    ensures LetsEscape(config.policy.attempts, probe.ends)
            <==> forall later :: !Admits(config.limits, AfterCall(config, c, probe), later)
  {
    EscapedExactly(config, probe);
    var after := AfterCall(config, c, probe);
    if EndOf(config, c, probe) != Escaped {
      assert Admits(config.limits, after, after.openedAt + config.limits.resetTimeout);
    }
  }

  lemma {:induction false} CallsAppend(config: Config, c: Circuit, calls: seq<Call>, more: seq<Call>)
    requires config.Valid()
    ensures AfterCalls(config, c, calls + more) == AfterCalls(config, AfterCalls(config, c, calls), more)
    ensures Load(config, c, calls + more) == Load(config, c, calls) + Load(config, AfterCalls(config, c, calls), more)
  {
    if more == [] {
      assert calls + more == calls;
    } else {
      var n := |more| - 1;
      CallsAppend(config, c, calls, more[..n]);
      assert (calls + more)[..|calls + more| - 1] == calls + more[..n];
    }
  }

  /** A circuit can get stuck, whatever the settings: after calls that open it, a probe from which an
      error escapes; whatever one sequential caller calls later, no attempt is made any more. */
  lemma GetsStuck(config: Config) returns (calls: seq<Call>)
    requires config.Valid()
    ensures Sequential(calls) && |calls| == config.limits.threshold + 1
    ensures forall i :: 0 <= i < config.limits.threshold ==> IsDead(calls[i])
    ensures forall more :: Load(config, CLOSED_CIRCUIT, calls + more) == Load(config, CLOSED_CIRCUIT, calls)
  {
    var at := Max(0, config.limits.resetTimeout);
    var dead := seq(config.limits.threshold, _ => Call(0, _ => TransportError, 0));
    var probe := Call(at, _ => OtherError, at);
    calls := dead + [probe];
    BeforeOpening(config, dead);
    CallsAppend(config, CLOSED_CIRCUIT, dead, [probe]);
    var c := AfterCalls(config, CLOSED_CIRCUIT, dead);
    assert AfterCalls(config, c, [probe]) == AfterCall(config, c, probe) by {
      assert [probe][..0] == [];
    }
    forall more ensures Load(config, CLOSED_CIRCUIT, calls + more) == Load(config, CLOSED_CIRCUIT, calls) {
      CallsAppend(config, CLOSED_CIRCUIT, calls, more);
      StuckHalfOpen(config, AfterCalls(config, CLOSED_CIRCUIT, calls), more);
    }
  }
}
