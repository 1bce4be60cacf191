/**
 * The automatic fallback (backend/src/api/automation/timers.py): taking the next partner of the
 * chain, the scan for partners that did not accept in time, and the drain after a rejection.
 */
module Timers {
  import opened Dispatching
  import opened Fsm
  import opened Requests
  import opened Results
  import opened SlaEngine

  /** `Escalated` is the source's "exhausted": nobody is left and an operator is told. */
  datatype FallbackEnd = Escalated | Redispatched(end: DispatchEnd)

  /** Take the head of the chain as the partner. */
  method NextPartner(request: ServiceRequest) returns (next: Option<string>)
    modifies request`partner, request`chain
    ensures old(request.chain) == [] ==> next.None? && request.Row() == old(request.Row())
    ensures old(request.chain) != [] ==>
              && next == request.partner == Some(old(request.chain)[0])
              && request.chain == old(request.chain)[1..]
              && request.Row() == Popped(old(request.Row()))
  {
    if request.chain == [] {
      return None;
    }
    request.partner := Some(request.chain[0]);
    request.chain := request.chain[1..];
    return request.partner;
  }

  function Popped(row: Request): Request
    requires row.chain != []
  {
    row.(partner := Some(row.chain[0]), chain := row.chain[1..])
  }

  /** A row in `Matching` whose head of chain has been assigned and dispatched to. */
  function Reassigned(row: Request, assignedAt: int, dispatchedAt: int): Request
    requires row.chain != []
  {
    Moved(Moved(Popped(row), Assigned, assignedAt), Dispatched, dispatchedAt)
  }

  /** The head was asked first, on its channels in their order, and has the request if one of them, here
      the `j`-th, worked. */
  ghost predicate AskedAt(env: Environment, head: string, made: nat, attempts: seq<Attempt>, partner: Option<string>,
                          j: nat) {
    j < |env.channels(head)| ==>
      var channel := env.channels(head)[j];
      var attempt := Attempt(made + j + 1, channel, env.deliver(head, channel, made + j + 1));
      && made < |attempts|
      && (made + j < |attempts| ==> attempts[made + j] == attempt)
      && (attempt.outcome != Failed ==> partner == Some(head))
  }

  /** The request was given to the next partner: the head of the chain first, and if none of its channels
      worked, maybe somebody else of the chain. */
  ghost predicate TookNext(env: Environment, row: Request, after: Request) {
    && row.chain != [] && after.chain == row.chain[1..]
    && after.partner.Some? && after.partner.value in row.chain
    && |row.attempts| <= |after.attempts| && after.attempts[..|row.attempts|] == row.attempts
    && (row.category.Some? ==>
          forall j: nat :: AskedAt(env, row.chain[0], |row.attempts|, after.attempts, after.partner, j))
  }

  lemma HeadAsked(env: Environment, row: Request, head: string, end: DispatchEnd, after: Request, j: nat)
    requires env.Valid() && row.partner == Some(head) && IsDispatch(env, row, end, after) && end != NoCategory
    ensures AskedAt(env, head, |row.attempts|, after.attempts, after.partner, j)
  {
    if j < |env.channels(head)| {
      assert IsTry(env, row, 0, j) && Offset(env, row, 0) == 0;
      assert IsMadeAt(env, row, after.attempts, 0, j);
      if SomebodyTook(env, row, after) {
        var i: nat, l: nat :| TookAt(env, row, after, i, l);
      } else {
        OffsetGrows(env, row, 0, |row.chain| + 1);
      }
    }
  }

  lemma SomebodyOfTheChain(env: Environment, row: Request, after: Request)
    requires row.partner.Some?
    ensures SomebodyTook(env, row, after) || NobodyTook(env, row, after) ==>
              after.partner.Some? && (after.partner == row.partner || after.partner.value in row.chain)
  {
    if i: nat, j: nat :| TookAt(env, row, after, i, j) {
      assert i > 0 ==> row.chain[i - 1] in row.chain;
    }
  }

  lemma DispatchedNext(env: Environment, row: Request, next: Request, end: DispatchEnd, after: Request)
    requires env.Valid() && row.chain != [] && IsDispatch(env, next, end, after)
    requires next.partner == Some(row.chain[0]) && next.chain == row.chain[1..]
    requires next.attempts == row.attempts && next.category == row.category
    ensures TookNext(env, row, after)
  {
    SomebodyOfTheChain(env, next, after);
    assert forall p :: p in row.chain[1..] ==> p in row.chain;
    if row.category.Some? {
      forall j: nat ensures AskedAt(env, row.chain[0], |row.attempts|, after.attempts, after.partner, j) {
        HeadAsked(env, next, row.chain[0], end, after, j);
      }
    }
  }

  lemma NextIsTaken(env: Environment, row: Request, matching: Request, assignedAt: int, dispatchedAt: int, now: int)
    requires env.Valid() && row.chain != [] && matching.chain == row.chain
    requires matching.attempts == row.attempts && matching.category == row.category
    ensures TookNext(env, row, Executed(env, Reassigned(matching, assignedAt, dispatchedAt), now))
  {
    var next := Reassigned(matching, assignedAt, dispatchedAt);
    DispatchInOrder(env, next, now);
    DispatchedNext(env, row, next, EndOf(env, next), Executed(env, next, now));
  }

  ghost function FallbackEndOf(env: Environment, row: Request, t: Ticks): FallbackEnd
    requires env.Valid()
  {
    if row.chain == [] then Escalated else Redispatched(EndOf(env, Reassigned(row, t.second, t.third)))
  }

  ghost function AfterFallback(env: Environment, row: Request, t: Ticks): Request
    requires env.Valid()
  {
    if row.chain == [] then row else Executed(env, Reassigned(row, t.second, t.third), t.fourth)
  }

  method RedispatchToNext(env: Environment, request: ServiceRequest, t: Ticks) returns (r: FallbackEnd)
    requires env.Valid() && request.status == Matching
    modifies request
    ensures r == FallbackEndOf(env, old(request.Row()), t)
    ensures request.Row() == AfterFallback(env, old(request.Row()), t)
    ensures old(request.chain) == [] ==> r == Escalated && request.Row() == old(request.Row())
    ensures old(request.chain) != [] ==> r.Redispatched? && TookNext(env, old(request.Row()), request.Row())
  {
    ghost var row := request.Row();
    if row.chain != [] {
      NextIsTaken(env, row, row, t.second, t.third, t.fourth);
    }
    var next := NextPartner(request);
    if next.None? {
      return Escalated;
    }
    var _ := ApplyTransition(request, Assigned, t.second);
    var _ := ApplyTransition(request, Dispatched, t.third);
    var end := ExecuteDispatch(env, request, t.fourth);
    return Redispatched(end);
  }

  ghost function TimeoutEnd(env: Environment, row: Request, t: Ticks): DispatchEnd
    requires env.Valid()
  {
    if row.chain == [] then Undelivered else FallbackEndOf(env, Moved(row, Matching, t.first), t).end
  }

  /** A request whose partner let the deadline pass: on to the next partner, or failed. */
  ghost function TimedOut(env: Environment, row: Request, t: Ticks): Request
    requires env.Valid()
  {
    if row.chain == [] then Moved(row, FailedDispatch, t.first)
    else AfterFallback(env, Moved(row, Matching, t.first), t)
  }

  method RunAcceptTimeoutFallback(env: Environment, request: ServiceRequest, t: Ticks) returns (end: DispatchEnd)
    requires env.Valid() && request.status == Dispatched
    modifies request
    ensures end == TimeoutEnd(env, old(request.Row()), t)
    ensures request.Row() == TimedOut(env, old(request.Row()), t)
    ensures old(request.chain) == [] ==> end == Undelivered && request.status == FailedDispatch
    ensures old(request.chain) != [] ==> TookNext(env, old(request.Row()), request.Row())
  {
    ghost var row := request.Row();
    if row.chain != [] {
      NextIsTaken(env, row, Moved(row, Matching, t.first), t.second, t.third, t.fourth);
    }
    if request.chain == [] {
      var _ := ApplyTransition(request, FailedDispatch, t.first);
      return Undelivered;
    }
    var _ := ApplyTransition(request, Matching, t.first);
    var r := RedispatchToNext(env, request, t);
    return r.end;
  }

  // ---- The scan ----

  /** What the row filter of the scan lets through. */
  ghost predicate IsCandidate(row: Request, moment: int) {
    row.status == Dispatched && AcceptOverdue(row.sla, moment)
  }

  ghost predicate IsTimedOut(env: Environment, row: Request, moment: int) {
    env.policy.IsBreached(row.sla, Accept, moment)
  }

  ghost function Scanned(env: Environment, row: Request, moment: int, t: Ticks): Request
    requires env.Valid()
  {
    if IsTimedOut(env, row, moment) then TimedOut(env, row, t) else row
  }

  /** How many of the first `n` rows are timed out. */
  ghost function TimedOutCount(env: Environment, rows: seq<Request>, moment: int, n: nat): nat
    requires n <= |rows|
  {
    if n == 0 then 0
    else TimedOutCount(env, rows, moment, n - 1) + if IsTimedOut(env, rows[n - 1], moment) then 1 else 0
  }

  /** The fallback of this row raises. */
  ghost predicate Fails(env: Environment, row: Request, moment: int, t: Ticks)
    requires env.Valid()
  {
    IsTimedOut(env, row, moment) && IsError(TimeoutEnd(env, row, t))
  }

  /** One step of the scan: confirm the breach, pauses included, and roll back. */
  method ScanOne(env: Environment, request: ServiceRequest, moment: int, t: Ticks)
    returns (processed: bool, raised: bool)
    requires env.Valid() && request.status == Dispatched
    modifies request
    ensures processed <==> IsTimedOut(env, old(request.Row()), moment)
    ensures raised <==> Fails(env, old(request.Row()), moment, t)
    ensures request.Row() == Scanned(env, old(request.Row()), moment, t)
  {
    var state := env.policy.Evaluate(request.sla, Accept, moment);
    if state != Breached {
      return false, false;
    }
    var end := RunAcceptTimeoutFallback(env, request, t);
    return true, IsError(end);
  }

  /** What the scan makes of the first `n` rows. */
  ghost function ScannedRows(env: Environment, rows: seq<Request>, moment: int, t: seq<Ticks>, n: nat):
    (r: seq<Request>)
    requires env.Valid() && n <= |rows| == |t|
    ensures |r| == n
  {
    if n == 0 then []
    else ScannedRows(env, rows, moment, t, n - 1) + [Scanned(env, rows[n - 1], moment, t[n - 1])]
  }

  ghost predicate NoneFails(env: Environment, rows: seq<Request>, moment: int, t: seq<Ticks>, n: nat)
    requires env.Valid() && n <= |rows| == |t|
  {
    n == 0 || (NoneFails(env, rows, moment, t, n - 1) && !Fails(env, rows[n - 1], moment, t[n - 1]))
  }

  lemma {:induction false} ScannedEach(env: Environment, rows: seq<Request>, moment: int, t: seq<Ticks>, n: nat)
    requires env.Valid() && n <= |rows| == |t| && NoneFails(env, rows, moment, t, n)
    ensures forall i :: 0 <= i < n ==>
              && ScannedRows(env, rows, moment, t, n)[i] == Scanned(env, rows[i], moment, t[i])
              && !Fails(env, rows[i], moment, t[i])
  {
    if n > 0 {
      ScannedEach(env, rows, moment, t, n - 1);
    }
  }

  /** The first row whose fallback raises is the `i`-th. */
  ghost predicate FailsFirst(env: Environment, rows: seq<Request>, moment: int, t: seq<Ticks>, i: nat)
    requires env.Valid() && |rows| == |t|
  {
    i < |rows| && NoneFails(env, rows, moment, t, i) && Fails(env, rows[i], moment, t[i])
  }

  ghost predicate AreDistinct(candidates: seq<ServiceRequest>) {
    forall i, j :: 0 <= i < j < |candidates| ==> candidates[i] != candidates[j]
  }

  /** The objects scanned so far, and the others as they were picked. */
  ghost predicate HalfScanned(candidates: seq<ServiceRequest>, scanned: seq<Request>, rows: seq<Request>)
    requires |scanned| <= |candidates| == |rows|
    reads candidates
  {
    && (forall j :: 0 <= j < |scanned| ==> candidates[j].Row() == scanned[j])
    && (forall j :: |scanned| <= j < |candidates| ==> candidates[j].Row() == rows[j])
  }

  /** The body of the scan's loop. */
  method ScanNext(env: Environment, candidates: seq<ServiceRequest>, ghost rows: seq<Request>,
                  ghost scanned: seq<Request>, i: nat, moment: int, t: Ticks)
    returns (timedOut: bool, failed: bool)
    requires env.Valid() && |candidates| == |rows| && i == |scanned| < |candidates|
    requires AreDistinct(candidates)
    requires HalfScanned(candidates, scanned, rows) && rows[i].status == Dispatched
    modifies candidates[i]
    ensures timedOut <==> IsTimedOut(env, rows[i], moment)
    ensures failed <==> Fails(env, rows[i], moment, t)
    ensures HalfScanned(candidates, scanned + [Scanned(env, rows[i], moment, t)], rows)
  {
    assert candidates[i].Row() == rows[i];
    timedOut, failed := ScanOne(env, candidates[i], moment, t);
    ghost var longer := scanned + [Scanned(env, rows[i], moment, t)];
    forall j | 0 <= j <= i ensures candidates[j].Row() == longer[j] {
      if j < i {
        assert candidates[j] != candidates[i] && longer[j] == scanned[j];
      }
    }
  }

  /** The loop over the candidates, up to the first error. */
  method ScanCandidates(env: Environment, candidates: seq<ServiceRequest>, ghost rows: seq<Request>, moment: int,
                        t: seq<Ticks>)
    returns (processed: nat, raised: bool, ghost reached: nat)
    requires env.Valid() && |t| == |candidates| == |rows|
    requires AreDistinct(candidates)
    requires HalfScanned(candidates, [], rows) && forall i :: 0 <= i < |rows| ==> rows[i].status == Dispatched
    modifies candidates
    ensures reached <= |rows| && processed == TimedOutCount(env, rows, moment, reached)
    ensures if raised then FailsFirst(env, rows, moment, t, reached)
            else reached == |rows| && NoneFails(env, rows, moment, t, reached)
    ensures HalfScanned(candidates, ScannedRows(env, rows, moment, t, if raised then reached + 1 else reached), rows)
  {
    processed, raised := 0, false;
    var i := 0;
    ghost var scanned: seq<Request> := [];
    while i < |candidates|
      invariant 0 <= i <= |candidates| && processed == TimedOutCount(env, rows, moment, i)
      invariant scanned == ScannedRows(env, rows, moment, t, i) && NoneFails(env, rows, moment, t, i)
      invariant HalfScanned(candidates, scanned, rows)
    {
      var timedOut, failed := ScanNext(env, candidates, rows, scanned, i, moment, t[i]);
      if failed {
        return processed, true, i;
      }
      if timedOut {
        processed := processed + 1;
      }
      scanned := scanned + [Scanned(env, rows[i], moment, t[i])];
      i := i + 1;
    }
    reached := i;
  }

  /**
   * `picks` answers the scan's query on a table: up to `limit` candidates that no other scan has
   * locked, those with the earliest deadlines first; equal deadlines may come in any order.
   */
  ghost predicate IsPick(table: map<nat, Request>, moment: int, limit: nat, locked: set<nat>, picks: seq<nat>) {
    && |picks| <= limit
    && (forall i, j :: 0 <= i < j < |picks| ==> picks[i] != picks[j])
    && (forall id :: id in picks ==> id in table && id !in locked && IsCandidate(table[id], moment))
    && (forall i, j :: 0 <= i < j < |picks| ==>
          table[picks[i]].sla.acceptDeadline.value <= table[picks[j]].sla.acceptDeadline.value)
    && (forall id :: id in table && id !in locked && IsCandidate(table[id], moment) && id !in picks ==>
          && |picks| == limit
          && forall pick :: pick in picks ==>
               table[pick].sla.acceptDeadline.value <= table[id].sla.acceptDeadline.value)
  }

  function Rows(table: map<nat, Request>, picks: seq<nat>): (r: seq<Request>)
    requires forall id :: id in picks ==> id in table
    ensures |r| == |picks| && forall i :: 0 <= i < |r| ==> r[i] == table[picks[i]]
  {
    seq(|picks|, i requires 0 <= i < |picks| => table[picks[i]])
  }

  ghost function Candidates(table: map<nat, Request>, moment: int): set<nat> {
    set id | id in table && IsCandidate(table[id], moment)
  }

  lemma {:induction false} FitsInto(ids: seq<nat>, all: set<nat>)
    requires (forall i, j :: 0 <= i < j < |ids| ==> ids[i] != ids[j]) && forall id :: id in ids ==> id in all
    ensures |ids| <= |all|
  {
    if ids != [] {
      assert ids[0] !in ids[1..];
      FitsInto(ids[1..], all - {ids[0]});
    }
  }

  /** A scan with room for all candidates picks every unlocked request that was breached before. */
  lemma EveryBreachedIsPicked(env: Environment, table: map<nat, Request>, moment: int, limit: nat, locked: set<nat>,
                              picks: seq<nat>, id: nat, breachedAt: int)
    requires IsPick(table, moment, limit, locked, picks) && |Candidates(table, moment)| <= limit
    requires id in table && id !in locked && table[id].status == Dispatched
    requires IsTimedOut(env, table[id], breachedAt) && breachedAt < moment
    ensures id in picks
  {
    env.policy.BreachedPassesFilter(table[id].sla, breachedAt, moment);
    if id !in picks {
      FitsInto(picks, Candidates(table, moment) - {id});
    }
  }

  lemma FailsExactly(env: Environment, table: map<nat, Request>, picks: seq<nat>, moment: int, t: seq<Ticks>)
    requires env.Valid() && |t| == |picks| && forall id :: id in picks ==> id in table
    ensures NoneFails(env, Rows(table, picks), moment, t, |picks|)
            ==> forall i :: 0 <= i < |picks| ==> !Fails(env, table[picks[i]], moment, t[i])
  {
    if NoneFails(env, Rows(table, picks), moment, t, |picks|) {
      ScannedEach(env, Rows(table, picks), moment, t, |picks|);
      forall i | 0 <= i < |picks| ensures !Fails(env, table[picks[i]], moment, t[i]) {
        assert Rows(table, picks)[i] == table[picks[i]];
      }
    }
  }

  /** The rollback of a session: every object reads as its stored row again. */
  method Rollback(candidates: seq<ServiceRequest>, rows: seq<Request>)
    requires |candidates| == |rows|
    requires AreDistinct(candidates)
    modifies candidates
    ensures HalfScanned(candidates, [], rows)
  {
    for i := 0 to |candidates|
      invariant forall j :: 0 <= j < i ==> candidates[j].Row() == rows[j]
    {
      candidates[i].Reload(rows[i]);
    }
  }

  /**
   * Roll back every picked request whose accept deadline, pauses included, has passed at `moment`; do
   * nothing while the automation is off.  An error on one of them ends the scan; its session is then
   * rolled back, so that the scan commits nothing.
   */
  method ScanAcceptTimeouts(env: Environment, enabled: bool, table: map<nat, Request>, limit: nat,
                            ghost locked: set<nat>, picks: seq<nat>, candidates: seq<ServiceRequest>,
                            moment: int, t: seq<Ticks>)
    returns (processed: nat, raised: bool)
    requires env.Valid() && |t| == |candidates| == |picks|
    requires AreDistinct(candidates)
    requires IsPick(table, moment, limit, locked, picks)
    requires HalfScanned(candidates, [], Rows(table, picks))
    modifies candidates
    ensures raised <==> enabled && exists i :: 0 <= i < |picks| && Fails(env, table[picks[i]], moment, t[i])
    ensures var rows := Rows(table, picks);
            if !enabled || raised then HalfScanned(candidates, [], rows)
            else HalfScanned(candidates, ScannedRows(env, rows, moment, t, |rows|), rows)
    ensures !enabled ==> processed == 0
    ensures enabled && !raised ==> processed == TimedOutCount(env, Rows(table, picks), moment, |picks|)
  {
    if !enabled {
      return 0, false;
    }
    var rows := Rows(table, picks);
    ghost var reached;
    processed, raised, reached := ScanCandidates(env, candidates, rows, moment, t);
    FailsExactly(env, table, picks, moment, t);
    if raised {
      assert Fails(env, table[picks[reached]], moment, t[reached]);
      Rollback(candidates, rows);
    }
  }

  /** The drain of a rejection: nothing to do once the request has left `Matching`. */
  method ProcessPartnerFallback(env: Environment, request: ServiceRequest, t: Ticks)
    returns (r: Option<FallbackEnd>)
    requires env.Valid()
    modifies request
    ensures old(request.status) != Matching ==> r.None? && request.Row() == old(request.Row())
    ensures old(request.status) == Matching ==>
              && r == Some(FallbackEndOf(env, old(request.Row()), t))
              && request.Row() == AfterFallback(env, old(request.Row()), t)
              && (old(request.chain) != [] ==> TookNext(env, old(request.Row()), request.Row()))
  {
    if request.status != Matching {
      return None;
    }
    var end := RedispatchToNext(env, request, t);
    return Some(end);
  }

  // ---- The scan makes progress ----

  ghost predicate Nondecreasing(moment: int, t: Ticks) {
    moment <= t.first <= t.second <= t.third <= t.fourth
  }

  /**
   * What a scan did not raise on is done with at that moment: failed, or with a partner whose accept
   * deadline is later; either way a second scan at the same moment neither sees nor processes it.
   */
  lemma ScanMakesProgress(env: Environment, row: Request, moment: int, t: Ticks)
    requires env.Valid() && env.policy.acceptTicks > 0 && Nondecreasing(moment, t)
    requires IsCandidate(row, moment) && IsTimedOut(env, row, moment)
    requires !IsError(TimeoutEnd(env, row, t))
    ensures var after := Scanned(env, row, moment, t);
            && (after.status == FailedDispatch
                || (after.status == Dispatched
                    && after.sla.acceptDeadline.Some? && after.sla.acceptDeadline.value > moment
                    && !IsTimedOut(env, after, moment)))
            && !IsCandidate(after, moment)
  {
    if row.chain != [] {
      var next := Reassigned(Moved(row, Matching, t.first), t.second, t.third);
      if EndOf(env, next) == Delivery {
        env.policy.JustStartedNotBreached(next.sla, Accept, t.third, moment);
      }
    }
  }

  /** A whole scan is done with at that moment: a second one would process none of its rows. */
  lemma SecondScanIdle(env: Environment, rows: seq<Request>, moment: int, t: seq<Ticks>)
    requires env.Valid() && env.policy.acceptTicks > 0 && |t| == |rows|
    requires forall i :: 0 <= i < |rows| ==> IsCandidate(rows[i], moment) && Nondecreasing(moment, t[i])
    requires NoneFails(env, rows, moment, t, |rows|)
    ensures var after := ScannedRows(env, rows, moment, t, |rows|);
            forall i :: 0 <= i < |after| ==> !IsCandidate(after[i], moment) || !IsTimedOut(env, after[i], moment)
  {
    var after := ScannedRows(env, rows, moment, t, |rows|);
    ScannedEach(env, rows, moment, t, |rows|);
    forall i | 0 <= i < |after| ensures !IsCandidate(after[i], moment) || !IsTimedOut(env, after[i], moment) {
      if IsTimedOut(env, rows[i], moment) {
        ScanMakesProgress(env, rows[i], moment, t[i]);
      }
    }
  }

  /** The fallback of a classified request raises exactly if somebody of its chain takes it and the
      calendar then gives up on the accept deadline. */
  lemma FallbackRaises(env: Environment, row: Request, t: Ticks)
    requires env.Valid() && row.category.Some?
    ensures IsError(TimeoutEnd(env, row, t))
            <==> && row.chain != []
                 && (var pairs := Pairs(env, PartnersOf(Popped(row)));
                     exists i :: 0 <= i < |pairs| && Succeeds(env, pairs, |row.attempts|, i))
                 && env.policy.calendar.Deadline(t.third, env.policy.acceptTicks).Failure?
  {
    if row.chain != [] {
      var next := Reassigned(Moved(row, Matching, t.first), t.second, t.third);
      assert PartnersOf(next) == PartnersOf(Popped(row));
      DispatchExact(env, next, t.fourth);
    }
  }

  /** So it never raises with an accept time that 261 full weeks can hold. */
  lemma ScanNeverRaises(env: Environment, row: Request, t: Ticks)
    requires env.Valid() && row.category.Some?
    requires 0 < env.policy.acceptTicks <= 261 * env.policy.calendar.WeekTicks()
    ensures !IsError(TimeoutEnd(env, row, t))
  {
    FallbackRaises(env, row, t);
    env.policy.calendar.FullWeeksNeverRaise(t.third, env.policy.acceptTicks);
  }
}
