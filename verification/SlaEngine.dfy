/**
 * The SLA engine (backend/src/api/sla/engine.py) and the row filter of the accept-timeout scan
 * (backend/src/api/requests/repository.py).  Instants are microseconds on the calendar's timeline.
 */
module SlaEngine {
  import opened Results
  import opened Calendar

  datatype SlaState = OnTrack | AtRisk | Breached

  datatype Stage = Accept | Perform

  /** One stored pause; `None` stands for an entry that is not a pair of instants and is skipped. */
  type Pause = Option<(int, int)>

  /** The stored pauses, if any; `Malformed` stands for something that is not a list. */
  datatype Pauses = Missing | Malformed | Intervals(items: seq<Pause>)

  /** The `sla` document of a request.  A missing document and an empty one read alike. */
  datatype Sla = Sla(
    acceptDeadline: Option<int>,
    performDeadline: Option<int>,
    acceptStartedAt: Option<int>,
    performStartedAt: Option<int>,
    pauses: Pauses)
  {
    function DeadlineOf(stage: Stage): Option<int> {
      if stage == Accept then acceptDeadline else performDeadline
    }

    /** When the stage began; without a mark, a day before its deadline. */
    function StageStart(stage: Stage, deadline: int): int {
      var mark := if stage == Accept then acceptStartedAt else performStartedAt;
      if mark.Some? then mark.value else deadline - DAY
    }
  }

  const NO_SLA := Sla(None, None, None, None, Missing)

  function PauseLength(pause: Pause): nat {
    if pause.Some? then Max(0, pause.value.1 - pause.value.0) else 0
  }

  /** The total length of the pauses, those that end before they start counting for nothing. */
  ghost function PausedTime(pauses: seq<Pause>): nat {
    if pauses == [] then 0 else PausedTime(pauses[..|pauses| - 1]) + PauseLength(pauses[|pauses| - 1])
  }

  ghost function PausedOf(sla: Sla): nat {
    if sla.pauses.Intervals? then PausedTime(sla.pauses.items) else 0
  }

  method PausedSeconds(pauses: Pauses) returns (total: nat)
    ensures total == if pauses.Intervals? then PausedTime(pauses.items) else 0
  {
    total := 0;
    if !pauses.Intervals? {
      return;
    }
    for i := 0 to |pauses.items|
      invariant total == PausedTime(pauses.items[..i])
    {
      assert pauses.items[..i + 1][..i] == pauses.items[..i];
      total := total + PauseLength(pauses.items[i]);
    }
    assert pauses.items[..|pauses.items|] == pauses.items;
  }

  /** `acceptTicks` and `performTicks` are the stage lengths in microseconds of business time. */
  datatype SlaPolicy = SlaPolicy(
    calendar: BusinessCalendar,
    acceptTicks: int,
    performTicks: int,
    atRiskFraction: real)
  {
    ghost function TicksOf(stage: Stage): int {
      if stage == Accept then acceptTicks else performTicks
    }

    /** The document with the stage's deadline set; a pause list is created if there is no entry. */
    ghost function WithDeadline(sla: Sla, stage: Stage, at: int): Result<Sla, CalendarError>
      requires calendar.Valid()
    {
      match calendar.Deadline(at, TicksOf(stage))
      case Failure(e) => Failure(e)
      case Success(deadline) =>
        var listed := sla.(pauses := if sla.pauses.Missing? then Intervals([]) else sla.pauses);
        if stage == Accept then Success(listed.(acceptDeadline := Some(deadline)))
        else Success(listed.(performDeadline := Some(deadline)))
    }

    /** The document after a stage starts at `at`: the deadline, and the start mark the callers add. */
    ghost function Started(sla: Sla, stage: Stage, at: int): Result<Sla, CalendarError>
      requires calendar.Valid()
    {
      match WithDeadline(sla, stage, at)
      case Failure(e) => Failure(e)
      case Success(updated) =>
        if stage == Accept then Success(updated.(acceptStartedAt := Some(at)))
        else Success(updated.(performStartedAt := Some(at)))
    }

    method SetAcceptDeadline(sla: Sla, dispatchedAt: int) returns (r: Result<Sla, CalendarError>)
      requires calendar.Valid()
      ensures r == WithDeadline(sla, Accept, dispatchedAt)
      ensures r.Failure? <==> calendar.Deadline(dispatchedAt, acceptTicks).Failure?
      ensures r.Success? ==>
                r.value == sla.(acceptDeadline := Some(calendar.Deadline(dispatchedAt, acceptTicks).value),
                                pauses := if sla.pauses == Missing then Intervals([]) else sla.pauses)
    {
      var deadline := calendar.AddBusinessSeconds(dispatchedAt, acceptTicks);
      if deadline.Failure? {
        return Failure(deadline.error);
      }
      var updated := sla.(acceptDeadline := Some(deadline.value));
      if updated.pauses.Missing? {
        updated := updated.(pauses := Intervals([]));
      }
      return Success(updated);
    }

    method SetPerformDeadline(sla: Sla, acceptedAt: int) returns (r: Result<Sla, CalendarError>)
      requires calendar.Valid()
      ensures r == WithDeadline(sla, Perform, acceptedAt)
      ensures r.Failure? <==> calendar.Deadline(acceptedAt, performTicks).Failure?
      ensures r.Success? ==>
                r.value == sla.(performDeadline := Some(calendar.Deadline(acceptedAt, performTicks).value),
                                pauses := if sla.pauses == Missing then Intervals([]) else sla.pauses)
    {
      var deadline := calendar.AddBusinessSeconds(acceptedAt, performTicks);
      if deadline.Failure? {
        return Failure(deadline.error);
      }
      var updated := sla.(performDeadline := Some(deadline.value));
      if updated.pauses.Missing? {
        updated := updated.(pauses := Intervals([]));
      }
      return Success(updated);
    }

    /** The deadline pushed back by the pauses has come. */
    ghost predicate IsBreached(sla: Sla, stage: Stage, now: int) {
      && sla.DeadlineOf(stage).Some?
      && now >= sla.DeadlineOf(stage).value + PausedOf(sla)
    }

    /** At least the configured fraction of a stage of positive length has gone by. */
    ghost predicate IsAtRisk(sla: Sla, stage: Stage, now: int) {
      && sla.DeadlineOf(stage).Some?
      && var deadline := sla.DeadlineOf(stage).value;
      && var start := sla.StageStart(stage, deadline);
      && start < deadline + PausedOf(sla)
      && (now - start) as real / (deadline + PausedOf(sla) - start) as real >= atRiskFraction
    }

    ghost function StateAt(sla: Sla, stage: Stage, now: int): SlaState {
      if IsBreached(sla, stage, now) then Breached
      else if IsAtRisk(sla, stage, now) then AtRisk
      else OnTrack
    }

    /**
     * What the state of a stage promises, in terms of its instants: breached from the deadline with its
     * pauses on; before that, at risk once the fraction of the way from the start of the stage (its mark,
     * or a day before the deadline) to there has gone by.
     */
    ghost predicate IsState(sla: Sla, stage: Stage, now: int, state: SlaState) {
      var deadline := match stage case Accept => sla.acceptDeadline case Perform => sla.performDeadline;
      var mark := match stage case Accept => sla.acceptStartedAt case Perform => sla.performStartedAt;
      if deadline.None? then state == OnTrack
      else
        var end := deadline.value + (if sla.pauses.Intervals? then PausedTime(sla.pauses.items) else 0);
        var start := if mark.None? then deadline.value - 24 * 3_600_000_000 else mark.value;
        && (state == Breached <==> now >= end)
        && (state == AtRisk <==> (now < end && start < end
                                  && (now - start) as real >= atRiskFraction * (end - start) as real))
    }

    /** The division of the source in terms of a product. */
    lemma AtRiskExactly(sla: Sla, stage: Stage, now: int)
      requires sla.DeadlineOf(stage).Some?
      ensures var end := sla.DeadlineOf(stage).value + PausedOf(sla);
              var start := sla.StageStart(stage, sla.DeadlineOf(stage).value);
              IsAtRisk(sla, stage, now)
              <==> start < end && (now - start) as real >= atRiskFraction * (end - start) as real
    {
      var end := sla.DeadlineOf(stage).value + PausedOf(sla);
      var start := sla.StageStart(stage, sla.DeadlineOf(stage).value);
      if start < end {
        ShareReaches(now - start, end - start, atRiskFraction);
      }
    }

    lemma StateAsPromised(sla: Sla, stage: Stage, now: int)
      ensures IsState(sla, stage, now, StateAt(sla, stage, now))
    {
      if sla.DeadlineOf(stage).Some? {
        AtRiskExactly(sla, stage, now);
      }
    }

    method Evaluate(sla: Sla, stage: Stage, now: int) returns (state: SlaState)
      ensures state == StateAt(sla, stage, now)
      ensures IsState(sla, stage, now, state)
    {
      StateAsPromised(sla, stage, now);
      var raw := sla.DeadlineOf(stage);
      if raw.None? {
        return OnTrack;
      }
      var deadline := raw.value;
      var paused := PausedSeconds(sla.pauses);
      var effective := deadline + paused;
      if now >= effective {
        return Breached;
      }
      var total := effective - sla.StageStart(stage, deadline);
      var elapsed := now - sla.StageStart(stage, deadline);
      if total > 0 && elapsed as real / total as real >= atRiskFraction {
        return AtRisk;
      }
      return OnTrack;
    }

    // ---- The states in time ----

    /** As the clock advances the state only moves along ON_TRACK, AT_RISK, BREACHED. */
    lemma NeverBack(sla: Sla, stage: Stage, now: int, later: int)
      requires now <= later
      ensures Rank(StateAt(sla, stage, now)) <= Rank(StateAt(sla, stage, later))
    {
      if IsAtRisk(sla, stage, now) {
        var deadline := sla.DeadlineOf(stage).value;
        var start := sla.StageStart(stage, deadline);
        ShareGrows(now - start, later - start, deadline + PausedOf(sla) - start);
      }
    }

    /** A longer pause never moves the state forward. */
    lemma PauseNeverForward(sla: Sla, paused: Sla, stage: Stage, now: int)
      requires atRiskFraction >= 0.0
      requires paused == sla.(pauses := paused.pauses) && PausedOf(sla) <= PausedOf(paused)
      ensures Rank(StateAt(paused, stage, now)) <= Rank(StateAt(sla, stage, now))
    {
      if IsAtRisk(paused, stage, now) && !IsBreached(sla, stage, now) {
        var deadline := sla.DeadlineOf(stage).value;
        var start := sla.StageStart(stage, deadline);
        var total := deadline + PausedOf(paused) - start;
        if now < start {
          ShareGrows(now - start, 0, total);
          ShareNegative(now - start, total);
        } else {
          ShareShrinks(now - start, deadline + PausedOf(sla) - start, total);
        }
      }
    }

    /** A scan at any instant after a breach sees the row. */
    lemma BreachedPassesFilter(sla: Sla, breachedAt: int, now: int)
      requires IsBreached(sla, Accept, breachedAt) && breachedAt < now
      ensures AcceptOverdue(sla, now)
    {
    }

    /** The filter misses a breached row only at the very instant of an unpaused deadline. */
    lemma FilterMissesOnlyTheInstant(sla: Sla, now: int)
      ensures IsBreached(sla, Accept, now) && !AcceptOverdue(sla, now)
              <==> sla.acceptDeadline == Some(now) && PausedOf(sla) == 0
    {
      assert PausedOf(sla) >= 0;
    }

    /** A stage of positive length that has just started at `at` is not breached then. */
    lemma JustStartedNotBreached(sla: Sla, stage: Stage, at: int, now: int)
      requires calendar.Valid() && TicksOf(stage) > 0 && now <= at
      requires Started(sla, stage, at).Success?
      ensures var started := Started(sla, stage, at).value;
              && started.DeadlineOf(stage).Some? && at < started.DeadlineOf(stage).value
              && !IsBreached(started, stage, now)
    {
      calendar.AfterStart(at, TicksOf(stage));
    }

    /** A stage that 261 full weeks can hold always starts. */
    lemma AlwaysStarts(sla: Sla, stage: Stage, at: int)
      requires calendar.Valid() && 0 < TicksOf(stage) <= 261 * calendar.WeekTicks()
      ensures Started(sla, stage, at).Success?
    {
      calendar.FullWeeksNeverRaise(at, TicksOf(stage));
    }
  }

  function Rank(state: SlaState): nat {
    match state
    case OnTrack => 0
    case AtRisk => 1
    case Breached => 2
  }

  /** The SQL filter of the scan: a raw deadline strictly in the past. */
  predicate AcceptOverdue(sla: Sla, now: int) {
    sla.acceptDeadline.Some? && sla.acceptDeadline.value < now
  }

  lemma ShareReaches(elapsed: int, total: int, fraction: real)
    requires total > 0
    ensures elapsed as real / total as real >= fraction <==> elapsed as real >= fraction * total as real
  {
    var e, t := elapsed as real, total as real;
    assert e == e / t * t;
    assert (e / t - fraction) * t == e - fraction * t;
  }

  /** A pause counts with its length, one that ends before it begins not at all. */
  lemma PausesAddUp(pauses: seq<Pause>, pause: Pause)
    ensures PausedTime([]) == 0
    ensures PausedTime(pauses + [pause])
            == PausedTime(pauses)
               + if pause.None? || pause.value.1 < pause.value.0 then 0 else pause.value.1 - pause.value.0
  {
    assert (pauses + [pause])[..|pauses|] == pauses;
  }

  lemma ShareGrows(elapsed: int, later: int, total: int)
    requires elapsed <= later && total > 0
    ensures elapsed as real / total as real <= later as real / total as real
  {
  }

  lemma ShareNegative(elapsed: int, total: int)
    requires elapsed < 0 && total > 0
    ensures elapsed as real / total as real < 0.0
  {
  }

  lemma ShareShrinks(elapsed: int, total: int, longer: int)
    requires 0 <= elapsed && 0 < total <= longer
    ensures elapsed as real / longer as real <= elapsed as real / total as real
  {
    var e, a, b := elapsed as real, total as real, longer as real;
    assert e / a * b >= e / a * a == e == e / b * b;
    assert (e / a - e / b) * b >= 0.0;
  }
}
