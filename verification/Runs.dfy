/**
 * Every run of a request: any sequence of the operations that change its row, by any actor, each
 * committed or rolled back as its caller does.
 */
module Runs {
  import opened Calendar
  import opened Dispatching
  import opened Fsm
  import opened Requests
  import opened Results
  import opened Services
  import opened SlaEngine
  import opened Timers

  datatype World = World(env: Environment, threshold: real, timeBased: bool) {
    predicate Valid() {
      env.Valid()
    }
  }

  /**
   * One committed operation, with its clock readings.  `dirty` tells a worker, which commits what an
   * error left behind, from a request handler, which rolls back; `last` is a message's last attempt.
   */
  datatype Step =
    | Classify(verdict: Verdict, t: Ticks)
    | Assign(choice: Choice, ordering: Ordering, dirty: bool, t: Ticks)
    | Dispatch(t: Ticks)
    | Drain(dirty: bool, last: bool, t: Ticks)
    | Answer(partnerStatus: string, t: Ticks)
    | AcceptTimeout(moment: int, t: Ticks)
    | FallbackDrain(last: bool, t: Ticks)
    | Move(target: Status, t: Ticks)

  ghost function AfterFallbackDrain(world: World, row: Request, last: bool, t: Ticks): Request
    requires world.Valid() && row.fallbackMessages > 0
  {
    if row.status != Status.Matching then
      row.(fallbackMessages := row.fallbackMessages - 1)
    else
      var after := AfterFallback(world.env, row, t);
      var r := FallbackEndOf(world.env, row, t);
      if r.Redispatched? && IsError(r.end) && !last then after
      else after.(fallbackMessages := row.fallbackMessages - 1)
  }

  ghost predicate ScanProcesses(world: World, row: Request, moment: int, t: Ticks)
    requires world.Valid()
  {
    && IsCandidate(row, moment) && IsTimedOut(world.env, row, moment)
    && !IsError(TimeoutEnd(world.env, row, t))
  }

  ghost function After(world: World, row: Request, step: Step): Request
    requires world.Valid()
  {
    match step
    case Classify(verdict, t) =>
      if CanClassify(row) then Classification(row, verdict, world.threshold, t) else row
    case Assign(choice, ordering, dirty, t) =>
      if AssignEndOf(row, choice, ordering) == AssignEnd.Done || dirty
      then Assignment(row, choice, ordering, t) else row
    case Dispatch(t) =>
      if CanStart(row) then Dispatching.Started(row, t.first) else row
    case Drain(dirty, last, t) =>
      if row.dispatchMessages > 0 then Redelivered(world.env, row, dirty, last, t.first) else row
    case Answer(partnerStatus, t) =>
      Advance(world.env.policy, world.timeBased, row, partnerStatus, t.first)
    case AcceptTimeout(moment, t) =>
      if ScanProcesses(world, row, moment, t) then TimedOut(world.env, row, t) else row
    case FallbackDrain(last, t) =>
      if row.fallbackMessages > 0 then AfterFallbackDrain(world, row, last, t) else row
    case Move(target, t) =>
      if CanTransition(row.status, target) then Moved(row, target, t.first) else row
  }

  /** A world that may change from step to step, and the step taken in it. */
  type ValidWorld = w: World | w.Valid()
    ghost witness World(Environment(_ => [], (_, _, _) => Failed, SlaPolicy(BusinessCalendar(0, 24, {0}), 0, 0, 0.0)),
                        0.0, false)

  datatype Act = Act(world: ValidWorld, step: Step)

  ghost function Run(row: Request, acts: seq<Act>): Request {
    if acts == [] then row
    else
      var last := acts[|acts| - 1];
      After(last.world, Run(row, acts[..|acts| - 1]), last.step)
  }

  /** The clock never runs backwards, within a step or from one to the next. */
  ghost predicate Timed(acts: seq<Act>, since: int) {
    && (forall i :: 0 <= i < |acts| ==> Nondecreasing(since, acts[i].step.t))
    && (forall i :: 0 < i < |acts| ==> acts[i - 1].step.t.fourth <= acts[i].step.t.first)
  }

  ghost function LastReading(acts: seq<Act>, since: int): int {
    if acts == [] then since else acts[|acts| - 1].step.t.fourth
  }

  // ---- The invariant ----

  ghost predicate NotLater(earlier: Option<int>, later: Option<int>) {
    later.Some? ==> earlier.Some? && earlier.value <= later.value
  }

  /** The milestones that are set form a nondecreasing prefix, none of them in the future. */
  ghost predicate Milestones(row: Request, now: int) {
    && NotLater(row.dispatchedAt, row.acceptedAt)
    && NotLater(row.acceptedAt, row.doneAt)
    && NotLater(row.doneAt, row.acceptedByUserAt)
    && NotLater(row.acceptedByUserAt, row.paidAt)
    && (row.dispatchedAt.Some? ==> row.dispatchedAt.value <= now)
    && (row.acceptedAt.Some? ==> row.acceptedAt.value <= now)
    && (row.doneAt.Some? ==> row.doneAt.value <= now)
    && (row.acceptedByUserAt.Some? ==> row.acceptedByUserAt.value <= now)
    && (row.paidAt.Some? ==> row.paidAt.value <= now)
  }

  /** How far the milestones have come in each status. */
  ghost predicate StatusMilestones(row: Request) {
    match row.status
    case New | Classifying | Classified | NeedsReview | Matching | Assigned => row.acceptedAt.None?
    case Dispatched | FailedDispatch => row.dispatchedAt.Some? && row.acceptedAt.None?
    case Accepted | InProgress => row.acceptedAt.Some? && row.doneAt.None?
    case Done => row.doneAt.Some? && row.acceptedByUserAt.None?
    case AcceptedByUser => row.acceptedByUserAt.Some? && row.paidAt.None?
    case Dispute => row.doneAt.Some? && row.paidAt.None?
    case Paid => row.paidAt.Some?
    case Cancelled | Rejected => true
  }

  ghost predicate Numbered(attempts: seq<Attempt>) {
    forall i :: 0 <= i < |attempts| ==> attempts[i].number == i + 1
  }

  ghost predicate Inv(row: Request, now: int) {
    && IsPath(row.history, New, row.status)
    && Milestones(row, now) && StatusMilestones(row)
    && Numbered(row.attempts)
    && (row.partner.Some? || row.chain != [] ==> row.category.Some?)
    && (row.dispatchMessages > 0 ==> row.dispatchedAt.Some?)
  }

  lemma MilestonesMove(row: Request, target: Status, since: int, at: int)
    requires Milestones(row, since) && StatusMilestones(row) && CanTransition(row.status, target) && since <= at
    ensures Milestones(Moved(row, target, at), at) && StatusMilestones(Moved(row, target, at))
  {
  }

  lemma MovedKeeps(row: Request, target: Status, since: int, at: int)
    requires Inv(row, since) && CanTransition(row.status, target) && since <= at
    ensures Inv(Moved(row, target, at), at)
  {
    PathExtends(row.history, New, row.status, target);
    MilestonesMove(row, target, since, at);
  }

  lemma {:induction false} NoPartnersNoPairs(env: Environment, partners: seq<Option<string>>, n: nat)
    requires n <= |partners| && forall i :: 0 <= i < n ==> partners[i].None?
    ensures PairsUpTo(env, partners, n) == []
  {
    if n > 0 {
      NoPartnersNoPairs(env, partners, n - 1);
    }
  }

  lemma NoCategoryNoPairs(env: Environment, row: Request)
    requires row.partner.None? && row.chain == []
    ensures Pairs(env, PartnersOf(row)) == []
  {
    NoPartnersNoPairs(env, PartnersOf(row), 1);
  }

  lemma RecordedNumbered(env: Environment, pairs: seq<(string, string)>, attempts: seq<Attempt>, count: nat)
    requires Numbered(attempts) && count <= |pairs|
    ensures Numbered(attempts + Recorded(env, pairs, |attempts|, count))
  {
  }

  lemma SearchedNumbered(env: Environment, row: Request)
    requires Numbered(row.attempts)
    ensures Numbered(Searched(env, row).attempts)
  {
    var pairs := Pairs(env, PartnersOf(row));
    var k := FirstSuccess(env, pairs, |row.attempts|, 0);
    RecordedNumbered(env, pairs, row.attempts, if k < |pairs| then k + 1 else k);
  }

  lemma SearchedKeeps(env: Environment, row: Request, since: int)
    requires Inv(row, since) && row.category.Some?
    ensures Inv(Searched(env, row), since)
  {
    SearchedNumbered(env, row);
  }

  lemma CallsAreClean(env: Environment, row: Request, since: int)
    requires env.Valid() && Inv(row, since)
    ensures EndOf(env, row) != NoCategory
    ensures row.dispatchedAt.Some? ==> EndOf(env, row) != NoDispatchTime
  {
    if row.category.None? {
      NoCategoryNoPairs(env, row);
    }
  }

  lemma ExecutedKeeps(env: Environment, row: Request, since: int, now: int)
    requires env.Valid() && Inv(row, since) && since <= now
    ensures Inv(Executed(env, row, now), now)
    ensures Executed(env, row, now).dispatchedAt == row.dispatchedAt
    ensures Executed(env, row, now).dispatchMessages == row.dispatchMessages
  {
    CallsAreClean(env, row, since);
    if row.category.Some? {
      SearchedKeeps(env, row, since);
    } else {
      NoCategoryNoPairs(env, row);
      SearchExact(env, row);
      assert Searched(env, row) == row;
    }
    if EndOf(env, row) == Undelivered {
      MovedKeeps(Searched(env, row), FailedDispatch, since, now);
    }
  }

  lemma ReassignedKeeps(row: Request, since: int, t: Ticks)
    requires Inv(row, since) && row.status == Status.Matching && row.chain != []
    requires since <= t.second <= t.third
    ensures Inv(Reassigned(row, t.second, t.third), t.third)
  {
    MovedKeeps(Popped(row), Assigned, since, t.second);
    MovedKeeps(Moved(Popped(row), Assigned, t.second), Dispatched, t.second, t.third);
  }

  lemma FallbackKeeps(env: Environment, row: Request, since: int, t: Ticks)
    requires env.Valid() && Inv(row, since) && row.status == Status.Matching
    requires since <= t.second <= t.third <= t.fourth
    ensures Inv(AfterFallback(env, row, t), t.fourth)
  {
    if row.chain != [] {
      ReassignedKeeps(row, since, t);
      ExecutedKeeps(env, Reassigned(row, t.second, t.third), t.third, t.fourth);
    }
  }

  lemma TimedOutKeeps(env: Environment, row: Request, since: int, t: Ticks)
    requires env.Valid() && Inv(row, since) && row.status == Dispatched && Nondecreasing(since, t)
    ensures Inv(TimedOut(env, row, t), t.fourth)
  {
    if row.chain == [] {
      MovedKeeps(row, FailedDispatch, since, t.first);
    } else {
      MovedKeeps(row, Status.Matching, since, t.first);
      FallbackKeeps(env, Moved(row, Status.Matching, t.first), t.first, t);
    }
  }

  lemma ClassifiedKeeps(row: Request, verdict: Verdict, threshold: real, since: int, t: Ticks)
    requires Inv(row, since) && CanClassify(row) && Nondecreasing(since, t)
    ensures Inv(Classification(row, verdict, threshold, t), t.fourth)
  {
    ClassificationRoutes(row, verdict, threshold, t);
  }

  lemma ToAssignedKeeps(row: Request, since: int, t: Ticks)
    requires Inv(row, since) && Nondecreasing(since, t)
    requires row.status == Status.Matching || CanTransition(row.status, Status.Matching)
    ensures Inv(ToAssigned(row, t), t.fourth)
  {
    if row.status == Status.Matching {
      MovedKeeps(row, Assigned, since, t.second);
    } else {
      MovedKeeps(row, Status.Matching, since, t.first);
      MovedKeeps(Moved(row, Status.Matching, t.first), Assigned, t.first, t.second);
    }
  }

  lemma AssignedKeeps(row: Request, choice: Choice, ordering: Ordering, since: int, t: Ticks)
    requires Inv(row, since) && Nondecreasing(since, t)
    ensures Inv(Assignment(row, choice, ordering, t), t.fourth)
  {
    if AssignEndOf(row, choice, ordering) == AssignEnd.Done {
      ToAssignedKeeps(Services.Chosen(row, choice), since, t);
    }
  }

  lemma AnswerKeeps(world: World, row: Request, partnerStatus: string, since: int, now: int)
    requires world.Valid() && Inv(row, since) && since <= now
    ensures Inv(Advance(world.env.policy, world.timeBased, row, partnerStatus, now), now)
  {
    if AdvanceEndOf(world.env.policy, row, partnerStatus, now) == Advanced {
      MovedKeeps(row, TargetOf(partnerStatus).value, since, now);
    }
  }

  lemma DrainKeeps(world: World, row: Request, dirty: bool, last: bool, since: int, now: int)
    requires world.Valid() && Inv(row, since) && since <= now && row.dispatchMessages > 0
    ensures Inv(Redelivered(world.env, row, dirty, last, now), now)
  {
    ExecutedKeeps(world.env, row, since, now);
  }

  lemma FallbackDrainKeeps(world: World, row: Request, last: bool, since: int, t: Ticks)
    requires world.Valid() && Inv(row, since) && Nondecreasing(since, t) && row.fallbackMessages > 0
    ensures Inv(AfterFallbackDrain(world, row, last, t), t.fourth)
  {
    if row.status == Status.Matching {
      FallbackKeeps(world.env, row, since, t);
    }
  }

  predicate ByWorker(step: Step) {
    step.Drain? || step.AcceptTimeout? || step.FallbackDrain?
  }

  lemma AssignStepKeeps(world: World, row: Request, step: Step, since: int)
    requires world.Valid() && Inv(row, since) && Nondecreasing(since, step.t) && step.Assign?
    ensures Inv(After(world, row, step), step.t.fourth)
  {
    AssignedKeeps(row, step.choice, step.ordering, since, step.t);
  }

  lemma HandlerStepKeeps(world: World, row: Request, step: Step, since: int)
    requires world.Valid() && Inv(row, since) && Nondecreasing(since, step.t) && !ByWorker(step)
    ensures Inv(After(world, row, step), step.t.fourth)
  {
    match step
    case Classify(verdict, t) =>
      if CanClassify(row) {
        ClassifiedKeeps(row, verdict, world.threshold, since, t);
      }
    case Assign(_, _, _, _) =>
      AssignStepKeeps(world, row, step, since);
    case Dispatch(t) =>
      if CanStart(row) {
        MovedKeeps(row, Dispatched, since, t.first);
      }
    case Answer(partnerStatus, t) =>
      AnswerKeeps(world, row, partnerStatus, since, t.first);
    case Move(target, t) =>
      if CanTransition(row.status, target) {
        MovedKeeps(row, target, since, t.first);
      }
  }

  lemma WorkerStepKeeps(world: World, row: Request, step: Step, since: int)
    requires world.Valid() && Inv(row, since) && Nondecreasing(since, step.t) && ByWorker(step)
    ensures Inv(After(world, row, step), step.t.fourth)
  {
    match step
    case Drain(dirty, last, t) =>
      if row.dispatchMessages > 0 {
        DrainKeeps(world, row, dirty, last, since, t.first);
      }
    case AcceptTimeout(moment, t) =>
      if ScanProcesses(world, row, moment, t) {
        TimedOutKeeps(world.env, row, since, t);
      }
    case FallbackDrain(last, t) =>
      if row.fallbackMessages > 0 {
        FallbackDrainKeeps(world, row, last, since, t);
      }
  }

  /** Every step keeps the invariant. */
  lemma StepKeeps(world: World, row: Request, step: Step, since: int)
    requires world.Valid() && Inv(row, since) && Nondecreasing(since, step.t)
    ensures Inv(After(world, row, step), step.t.fourth)
  {
    if ByWorker(step) {
      WorkerStepKeeps(world, row, step, since);
    } else {
      HandlerStepKeeps(world, row, step, since);
    }
  }

  lemma {:induction false} RunKeeps(row: Request, acts: seq<Act>, since: int)
    requires Inv(row, since) && Timed(acts, since)
    ensures Inv(Run(row, acts), LastReading(acts, since))
  {
    if acts != [] {
      var n := |acts| - 1;
      RunKeeps(row, acts[..n], since);
      assert n > 0 ==> acts[..n][n - 1] == acts[n - 1];
      StepKeeps(acts[n].world, Run(row, acts[..n]), acts[n].step, LastReading(acts[..n], since));
    }
  }

  // ---- What holds in every reachable state ----

  /**
   * The STATUS_CHANGED rows are one legal path from `New` to the current status, of length at most
   * 4k + 8 for k entries into `Matching`, and the milestones set are a nondecreasing prefix.
   */
  lemma HistoryOfEveryRun(acts: seq<Act>, since: int)
    requires Timed(acts, since)
    ensures var row := Run(NEW_REQUEST, acts);
            && IsPath(row.history, New, row.status)
            && |row.history| <= 4 * Entries(row.history) + 8
            && Milestones(row, LastReading(acts, since))
  {
    RunKeeps(NEW_REQUEST, acts, since);
    var row := Run(NEW_REQUEST, acts);
    PathLength(row.history, row.status);
  }

  /** The attempts are numbered 1 to n over the whole life of the request, so no key occurs twice. */
  lemma AttemptsOfEveryRun(acts: seq<Act>, since: int)
    requires Timed(acts, since)
    ensures var row := Run(NEW_REQUEST, acts);
            && (forall i :: 0 <= i < |row.attempts| ==> row.attempts[i].number == i + 1)
            && (forall i, j :: 0 <= i < j < |row.attempts| ==> row.attempts[i].number != row.attempts[j].number)
  {
    RunKeeps(NEW_REQUEST, acts, since);
  }

  /** The row on which a step calls `execute_dispatch`, if it does. */
  ghost function DispatchCall(world: World, row: Request, step: Step): Option<Request>
    requires world.Valid()
  {
    match step
    case Drain(_, _, _) => if row.dispatchMessages > 0 then Some(row) else None
    case AcceptTimeout(moment, t) =>
      if IsCandidate(row, moment) && IsTimedOut(world.env, row, moment) && row.chain != []
      then Some(Reassigned(Moved(row, Status.Matching, t.first), t.second, t.third)) else None
    case FallbackDrain(_, t) =>
      if row.fallbackMessages > 0 && row.status == Status.Matching && row.chain != []
      then Some(Reassigned(row, t.second, t.third)) else None
    case _ => None
  }

  lemma CallIsClean(world: World, row: Request, step: Step, now: int)
    requires world.Valid() && Inv(row, now) && Nondecreasing(now, step.t)
    ensures var found := DispatchCall(world, row, step);
            found.Some? ==>
              && Inv(found.value, step.t.fourth) && found.value.dispatchedAt.Some?
              && EndOf(world.env, found.value) !in {NoCategory, NoDispatchTime}
  {
    var t := step.t;
    match step {
      case Drain(_, _, _) =>
        CallsAreClean(world.env, row, now);
      case AcceptTimeout(_, _) =>
        if row.status == Dispatched && row.chain != [] {
          MovedKeeps(row, Status.Matching, now, t.first);
          ReassignedKeeps(Moved(row, Status.Matching, t.first), t.first, t);
          CallsAreClean(world.env, Reassigned(Moved(row, Status.Matching, t.first), t.second, t.third), t.third);
        }
      case FallbackDrain(_, _) =>
        if row.status == Status.Matching && row.chain != [] {
          ReassignedKeeps(row, now, t);
          CallsAreClean(world.env, Reassigned(row, t.second, t.third), t.third);
        }
      case _ =>
    }
  }

  /** Wherever a run calls `execute_dispatch`, its two assertions hold. */
  lemma AssertionsNeverFire(acts: seq<Act>, since: int, act: Act)
    requires Timed(acts + [act], since)
    ensures var found := DispatchCall(act.world, Run(NEW_REQUEST, acts), act.step);
            found.Some? ==>
              var call := found.value;
              && (call.partner.Some? || call.chain != [] ==> call.category.Some?)
              && call.dispatchedAt.Some?
              && EndOf(act.world.env, call) !in {NoCategory, NoDispatchTime}
  {
    var all := acts + [act];
    assert forall i :: 0 <= i < |acts| ==> all[i] == acts[i];
    assert all[|acts|] == act;
    RunKeeps(NEW_REQUEST, acts, since);
    CallIsClean(act.world, Run(NEW_REQUEST, acts), act.step, LastReading(acts, since));
  }

  // ---- Which deliveries share a key ----

  /** A step whose transaction commits, or is rolled back by an error elsewhere in it or by a crash,
      which may come after any number of deliveries. */
  datatype Transaction = Committed(act: Act) | RolledBack(act: Act, deliveries: nat)

  ghost function Stored(row: Request, txs: seq<Transaction>): Request {
    if txs == [] then row
    else
      var n := |txs| - 1;
      var before := Stored(row, txs[..n]);
      if txs[n].Committed? then After(txs[n].act.world, before, txs[n].act.step) else before
  }

  /** The attempts a step hands to the channels, whatever becomes of its transaction. */
  ghost function Sent(world: World, row: Request, step: Step): seq<Attempt>
    requires world.Valid()
  {
    match DispatchCall(world, row, step)
    case None => []
    case Some(call) =>
      if call.category.None? then [] else Searched(world.env, call).attempts[|call.attempts|..]
  }

  ghost function SentBy(row: Request, tx: Transaction): seq<Attempt> {
    var sent := Sent(tx.act.world, row, tx.act.step);
    if tx.Committed? then sent else sent[..Min(tx.deliveries, |sent|)]
  }

  lemma AddedNumbers(env: Environment, row: Request)
    ensures var added := Searched(env, row).attempts[|row.attempts|..];
            forall k :: 0 <= k < |added| ==> added[k].number == |row.attempts| + 1 + k
  {
    SearchExact(env, row);
  }

  lemma CallAttempts(world: World, row: Request, step: Step)
    requires world.Valid()
    ensures DispatchCall(world, row, step).Some? ==> DispatchCall(world, row, step).value.attempts == row.attempts
  {
  }

  lemma SentNumbers(world: World, row: Request, step: Step)
    requires world.Valid()
    ensures forall k :: 0 <= k < |Sent(world, row, step)| ==>
              Sent(world, row, step)[k].number == |row.attempts| + 1 + k
  {
    var found := DispatchCall(world, row, step);
    if found.Some? {
      CallAttempts(world, row, step);
      AddedNumbers(world.env, found.value);
    }
  }

  lemma SearchedSends(env: Environment, row: Request)
    ensures Searched(env, row).attempts == row.attempts + Searched(env, row).attempts[|row.attempts|..]
    ensures Pairs(env, PartnersOf(row)) == [] ==> Searched(env, row).attempts == row.attempts
  {
    var after := Searched(env, row).attempts;
    SearchExact(env, row);
    assert after == after[..|row.attempts|] + after[|row.attempts|..];
  }

  lemma ExecutedSends(env: Environment, row: Request, now: int)
    requires env.Valid()
    ensures var after := Executed(env, row, now).attempts;
            after == row.attempts
            || (row.category.Some? && after == row.attempts + Searched(env, row).attempts[|row.attempts|..])
  {
    SearchedSends(env, row);
    if EndOf(env, row) != NoCategory {
      assert Executed(env, row, now).attempts == Searched(env, row).attempts;
    }
  }

  lemma FallbackSends(env: Environment, row: Request, t: Ticks)
    requires env.Valid()
    ensures row.chain == [] ==> AfterFallback(env, row, t).attempts == row.attempts
    ensures row.chain != [] ==>
              var call := Reassigned(row, t.second, t.third);
              var after := AfterFallback(env, row, t).attempts;
              after == row.attempts
              || (call.category.Some? && after == row.attempts + Searched(env, call).attempts[|row.attempts|..])
  {
    if row.chain != [] {
      ExecutedSends(env, Reassigned(row, t.second, t.third), t.fourth);
    }
  }

  lemma WorkerStores(world: World, row: Request, step: Step)
    requires world.Valid() && ByWorker(step)
    ensures After(world, row, step).attempts in {row.attempts, row.attempts + Sent(world, row, step)}
  {
    match step
    case Drain(_, _, t) =>
      ExecutedSends(world.env, row, t.first);
    case AcceptTimeout(moment, t) =>
      FallbackSends(world.env, Moved(row, Status.Matching, t.first), t);
    case FallbackDrain(_, t) =>
      FallbackSends(world.env, row, t);
  }

  /** A step stores what it sent, or none of it. */
  lemma StepStores(world: World, row: Request, step: Step)
    requires world.Valid()
    ensures After(world, row, step).attempts in {row.attempts, row.attempts + Sent(world, row, step)}
  {
    if ByWorker(step) {
      WorkerStores(world, row, step);
    }
  }

  lemma TransactionStores(row: Request, txs: seq<Transaction>, i: nat)
    requires i < |txs|
    ensures var before := Stored(row, txs[..i]);
            Stored(row, txs[..i + 1]).attempts
            in {before.attempts, before.attempts + SentBy(before, txs[i])}
  {
    assert txs[..i + 1][..i] == txs[..i];
    StepStores(txs[i].act.world, Stored(row, txs[..i]), txs[i].act.step);
  }

  lemma OneStored(row: Request, txs: seq<Transaction>, i: nat)
    requires i < |txs|
    ensures |Stored(row, txs[..i]).attempts| <= |Stored(row, txs[..i + 1]).attempts|
  {
    TransactionStores(row, txs, i);
  }

  lemma {:induction false} AttemptsGrow(row: Request, txs: seq<Transaction>, i: nat, j: nat)
    requires i <= j <= |txs|
    ensures |Stored(row, txs[..i]).attempts| <= |Stored(row, txs[..j]).attempts|
  {
    if i < j {
      AttemptsGrow(row, txs, i, j - 1);
      OneStored(row, txs, j - 1);
    }
  }

  ghost predicate ShareKey(a: seq<Attempt>, b: seq<Attempt>) {
    exists x, y :: 0 <= x < |a| && 0 <= y < |b| && a[x].number == b[y].number
  }

  lemma Overlap(a: seq<Attempt>, b: seq<Attempt>, m: nat, n: nat)
    requires m <= n
    requires forall k :: 0 <= k < |a| ==> a[k].number == m + 1 + k
    requires forall k :: 0 <= k < |b| ==> b[k].number == n + 1 + k
    ensures ShareKey(a, b) <==> b != [] && n < m + |a|
  {
    if b != [] && n < m + |a| {
      assert a[n - m].number == b[0].number;
    }
  }

  /**
   * Deliveries of two transactions share an idempotency key exactly if both send something and fewer
   * attempts were stored in between, the first's own included, than the first has sent.  So nothing of
   * the first was stored; what a transaction has stored is never sent again under the same key.
   */
  lemma KeysShared(row: Request, txs: seq<Transaction>, i: nat, j: nat)
    requires i < j < |txs|
    ensures var first, second := Stored(row, txs[..i]), Stored(row, txs[..j]);
            var a, b := SentBy(first, txs[i]), SentBy(second, txs[j]);
            && (ShareKey(a, b) <==> b != [] && |second.attempts| - |first.attempts| < |a|)
            && (ShareKey(a, b) ==> Stored(row, txs[..i + 1]).attempts == first.attempts)
  {
    var first, second := Stored(row, txs[..i]), Stored(row, txs[..j]);
    SentNumbers(txs[i].act.world, first, txs[i].act.step);
    SentNumbers(txs[j].act.world, second, txs[j].act.step);
    AttemptsGrow(row, txs, i, j);
    Overlap(SentBy(first, txs[i]), SentBy(second, txs[j]), |first.attempts|, |second.attempts|);
    TransactionStores(row, txs, i);
    AttemptsGrow(row, txs, i + 1, j);
  }

  // ---- The fallback chain between two assignments ----

  /** The step redispatches the request to the head of its chain. */
  ghost predicate Redispatches(world: World, row: Request, step: Step)
    requires world.Valid()
  {
    match step
    case AcceptTimeout(moment, t) => ScanProcesses(world, row, moment, t) && row.chain != []
    case FallbackDrain(_, _) => row.fallbackMessages > 0 && row.status == Status.Matching && row.chain != []
    case _ => false
  }

  ghost function Redispatchings(row: Request, acts: seq<Act>): nat {
    if acts == [] then 0
    else
      var n := |acts| - 1;
      Redispatchings(row, acts[..n])
      + if Redispatches(acts[n].world, Run(row, acts[..n]), acts[n].step) then 1 else 0
  }

  /** The partner is the one `row` had or a member of its chain. */
  ghost predicate PartnerKnown(row: Request, after: Request) {
    after.partner == row.partner || (after.partner.Some? && after.partner.value in row.chain)
  }

  lemma {:induction false} PairsFromPartners(env: Environment, partners: seq<Option<string>>, n: nat, k: nat)
    requires n <= |partners| && k < |PairsUpTo(env, partners, n)|
    ensures Some(PairsUpTo(env, partners, n)[k].0) in partners
  {
    if k < |PairsUpTo(env, partners, n - 1)| {
      PairsFromPartners(env, partners, n - 1, k);
    } else {
      assert PairsUpTo(env, partners, n)[k].0 == partners[n - 1].value;
    }
  }

  lemma ExecutedPartner(env: Environment, row: Request, now: int)
    requires env.Valid()
    ensures PartnerKnown(row, Executed(env, row, now)) && Executed(env, row, now).chain == row.chain
  {
    var pairs := Pairs(env, PartnersOf(row));
    var k := FirstSuccess(env, pairs, |row.attempts|, 0);
    if k < |pairs| {
      PairsFromPartners(env, PartnersOf(row), |PartnersOf(row)|, k);
    }
  }

  /** A fallback takes the head off the chain and makes it the partner, who may pass the request on. */
  lemma FallbackPartner(env: Environment, row: Request, t: Ticks)
    requires env.Valid()
    ensures var after := AfterFallback(env, row, t);
            && after.chain == (if row.chain == [] then [] else row.chain[1..])
            && PartnerKnown(row, after)
  {
    if row.chain != [] {
      ExecutedPartner(env, Reassigned(row, t.second, t.third), t.fourth);
    }
  }

  ghost predicate ChainStep(world: World, row: Request, step: Step, after: Request)
    requires world.Valid()
  {
    && after.chain == (if Redispatches(world, row, step) then row.chain[1..] else row.chain)
    && PartnerKnown(row, after)
  }

  lemma WorkerStepAndChain(world: World, row: Request, step: Step)
    requires world.Valid() && ByWorker(step)
    ensures ChainStep(world, row, step, After(world, row, step))
  {
    match step
    case Drain(dirty, last, t) =>
      ExecutedPartner(world.env, row, t.first);
    case AcceptTimeout(moment, t) =>
      FallbackPartner(world.env, Moved(row, Status.Matching, t.first), t);
    case FallbackDrain(last, t) =>
      FallbackPartner(world.env, row, t);
  }

  /** A redispatch gives the request to the next partner of the chain. */
  lemma RedispatchesNext(world: World, row: Request, step: Step)
    requires world.Valid() && row.chain != []
    ensures Redispatches(world, row, step) ==> TookNext(world.env, row, After(world, row, step))
  {
    if Redispatches(world, row, step) {
      match step
      case AcceptTimeout(_, t) =>
        NextIsTaken(world.env, row, Moved(row, Status.Matching, t.first), t.second, t.third, t.fourth);
      case FallbackDrain(_, t) =>
        NextIsTaken(world.env, row, row, t.second, t.third, t.fourth);
      case _ =>
    }
  }

  /** The step is an assignment that writes the row, also one that a worker commits after an error. */
  ghost predicate Reassigns(row: Request, step: Step) {
    && step.Assign?
    && var end := AssignEndOf(row, step.choice, step.ordering);
       end == AssignEnd.Done || (end == BadGateway && step.dirty)
  }

  /** A step that does not assign takes at most the head off the chain. */
  lemma StepAndChain(world: World, row: Request, step: Step)
    requires world.Valid() && !Reassigns(row, step)
    ensures var after := After(world, row, step);
            && after.chain == (if Redispatches(world, row, step) then row.chain[1..] else row.chain)
            && PartnerKnown(row, after)
            && (Redispatches(world, row, step) ==> TookNext(world.env, row, after))
  {
    if ByWorker(step) {
      WorkerStepAndChain(world, row, step);
      if row.chain != [] {
        RedispatchesNext(world, row, step);
      }
    }
  }

  /**
   * Between two assignments that write the row, the chain is the one the first wrote without as many
   * heads as redispatches were committed; so there are at most as many of them as the chain had
   * members, and the partner is the assigned one or a member of that chain.
   */
  lemma {:induction false} ChainConserved(row: Request, acts: seq<Act>)
    requires forall i :: 0 <= i < |acts| ==> !Reassigns(Run(row, acts[..i]), acts[i].step)
    ensures var taken, after := Redispatchings(row, acts), Run(row, acts);
            && taken <= |row.chain|
            && after.chain == row.chain[taken..]
            && PartnerKnown(row, after)
  {
    if acts != [] {
      var n := |acts| - 1;
      forall i | 0 <= i < n ensures !Reassigns(Run(row, acts[..n][..i]), acts[..n][i].step) {
        assert acts[..n][..i] == acts[..i];
      }
      ChainConserved(row, acts[..n]);
      StepAndChain(acts[n].world, Run(row, acts[..n]), acts[n].step);
    }
  }

  // ---- The messages ----

  /** The message a dispatch adds: to an assigned request with a partner and a category. */
  ghost function DispatchOpened(row: Request, step: Step): nat {
    if step.Dispatch? && row.status == Assigned && row.partner.Some? && row.category.Some? then 1 else 0
  }

  /** The message a drain closes: once its search is over, or when a worker gives up on it. */
  ghost function DispatchClosed(world: World, row: Request, step: Step): nat
    requires world.Valid()
  {
    if step.Drain? && row.dispatchMessages > 0
       && (EndOf(world.env, row) in {Delivery, Undelivered} || (step.dirty && step.last))
    then 1 else 0
  }

  /** The message a rejection adds, wherever a rejection is allowed, while the automation is on. */
  ghost function FallbackOpened(world: World, row: Request, step: Step): nat {
    if step.Answer? && world.timeBased && IsWord(step.partnerStatus, "rejected")
       && row.status in {Classified, NeedsReview, Dispatched, FailedDispatch}
    then 1 else 0
  }

  /** The message of a rejection is closed unless its redispatch raises before the last attempt. */
  ghost function FallbackClosed(world: World, row: Request, step: Step): nat
    requires world.Valid()
  {
    if step.FallbackDrain? && row.fallbackMessages > 0
       && !(row.status == Status.Matching && row.chain != [] && !step.last
            && EndOf(world.env, Reassigned(row, step.t.second, step.t.third)) !in {Delivery, Undelivered})
    then 1 else 0
  }

  ghost predicate Balances(world: World, row: Request, step: Step, after: Request)
    requires world.Valid()
  {
    && after.dispatchMessages + DispatchClosed(world, row, step) == row.dispatchMessages + DispatchOpened(row, step)
    && after.fallbackMessages + FallbackClosed(world, row, step)
       == row.fallbackMessages + FallbackOpened(world, row, step)
  }

  lemma AnswerBalances(world: World, row: Request, step: Step)
    requires world.Valid() && step.Answer?
    ensures Balances(world, row, step, After(world, row, step))
  {
    KnownWords(step.partnerStatus);
  }

  lemma HandlerBalances(world: World, row: Request, step: Step)
    requires world.Valid() && !ByWorker(step)
    ensures Balances(world, row, step, After(world, row, step))
  {
    if step.Answer? {
      AnswerBalances(world, row, step);
    }
  }

  lemma FallbackFrame(env: Environment, row: Request, t: Ticks)
    requires env.Valid()
    ensures AfterFallback(env, row, t).dispatchMessages == row.dispatchMessages
    ensures AfterFallback(env, row, t).fallbackMessages == row.fallbackMessages
  {
  }

  lemma ExecutedFrame(env: Environment, row: Request, now: int)
    requires env.Valid()
    ensures Executed(env, row, now).dispatchMessages == row.dispatchMessages
    ensures Executed(env, row, now).fallbackMessages == row.fallbackMessages
  {
  }

  lemma DrainBalances(world: World, row: Request, step: Step)
    requires world.Valid() && step.Drain?
    ensures Balances(world, row, step, After(world, row, step))
  {
    ExecutedFrame(world.env, row, step.t.first);
  }

  lemma FallbackDrainBalances(world: World, row: Request, step: Step)
    requires world.Valid() && step.FallbackDrain?
    ensures Balances(world, row, step, After(world, row, step))
  {
    FallbackFrame(world.env, row, step.t);
  }

  lemma TimeoutBalances(world: World, row: Request, step: Step)
    requires world.Valid() && step.AcceptTimeout?
    ensures Balances(world, row, step, After(world, row, step))
  {
    FallbackFrame(world.env, Moved(row, Status.Matching, step.t.first), step.t);
  }

  lemma StepBalances(world: World, row: Request, step: Step)
    requires world.Valid()
    ensures Balances(world, row, step, After(world, row, step))
  {
    match step
    case Drain(_, _, _) => DrainBalances(world, row, step);
    case FallbackDrain(_, _) => FallbackDrainBalances(world, row, step);
    case AcceptTimeout(_, _) => TimeoutBalances(world, row, step);
    case _ => HandlerBalances(world, row, step);
  }

  /** What the steps of a run have added and closed. */
  datatype Tally = Tally(dispatchOpened: nat, dispatchClosed: nat, fallbackOpened: nat, fallbackClosed: nat)

  ghost function TallyOf(row: Request, acts: seq<Act>): Tally {
    if acts == [] then Tally(0, 0, 0, 0)
    else
      var n := |acts| - 1;
      var tally, before, act := TallyOf(row, acts[..n]), Run(row, acts[..n]), acts[n];
      Tally(tally.dispatchOpened + DispatchOpened(before, act.step),
            tally.dispatchClosed + DispatchClosed(act.world, before, act.step),
            tally.fallbackOpened + FallbackOpened(act.world, before, act.step),
            tally.fallbackClosed + FallbackClosed(act.world, before, act.step))
  }

  /**
   * No message is lost and none is closed twice: over every run, the messages pending are those there
   * were and those that dispatches and rejections added, without those that drains closed.
   */
  lemma {:induction false} MessagesBalance(row: Request, acts: seq<Act>)
    ensures var after, tally := Run(row, acts), TallyOf(row, acts);
            && after.dispatchMessages + tally.dispatchClosed == row.dispatchMessages + tally.dispatchOpened
            && after.fallbackMessages + tally.fallbackClosed == row.fallbackMessages + tally.fallbackOpened
  {
    if acts != [] {
      var n := |acts| - 1;
      MessagesBalance(row, acts[..n]);
      StepBalances(acts[n].world, Run(row, acts[..n]), acts[n].step);
    }
  }

  // ---- The scan as steps of its requests ----

  /**
   * A scan that commits is one step of each request it picked; a request whose fallback raises, which
   * rolls the scan back, stays as it is.
   */
  lemma ScanIsSteps(world: World, rows: seq<Request>, moment: int, t: seq<Ticks>, i: nat)
    requires world.Valid() && i < |rows| == |t|
    requires forall j :: 0 <= j < |rows| ==> IsCandidate(rows[j], moment)
    ensures NoneFails(world.env, rows, moment, t, |rows|) ==>
              ScannedRows(world.env, rows, moment, t, |rows|)[i] == After(world, rows[i], AcceptTimeout(moment, t[i]))
    ensures Fails(world.env, rows[i], moment, t[i]) ==>
              After(world, rows[i], AcceptTimeout(moment, t[i])) == rows[i]
  {
    if NoneFails(world.env, rows, moment, t, |rows|) {
      ScannedEach(world.env, rows, moment, t, |rows|);
    }
  }
}
