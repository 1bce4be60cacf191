/**
 * The on_create pipeline (backend/src/api/automation/pipeline.py): classify, assign, dispatch, each
 * step committed on its own, and what crashes between the commits do to it.
 */
module Pipeline {
  import opened Dispatching
  import opened Fsm
  import Matching
  import opened Requests
  import opened Results
  import opened Services

  datatype Autonomy = ClassifyOnly | UpToAssign | UpToDispatch

  /** What a run depends on: the classifier's verdict, the registry's answer, the neighbours. */
  datatype Deps = Deps(
    env: Environment,
    verdict: Verdict,
    threshold: real,
    candidates: seq<Matching.Candidate>,
    ordering: Services.Ordering,
    autonomy: Autonomy)
  {
    predicate Valid() {
      env.Valid()
    }

    /** The choice of an assignment without a partner or an area. */
    function Choice(): Services.Choice {
      Auto(candidates, None)
    }

    predicate Confident() {
      IsConfident(verdict, threshold)
    }

    function Chosen(): Option<Matching.MatchResult> {
      Matching.Rank(candidates, CategoryValue(verdict.category), None)
    }
  }

  /** The clock readings of one run. */
  datatype RunTicks = RunTicks(classify: Ticks, assign: Ticks, dispatch: int, drain: int)

  datatype RunEnd = UpForReview | OnlyClassified | NobodyEligible | OnlyAssigned | Finished | Raised

  // ---- The commits of a run ----

  function FirstCommit(d: Deps, row: Request, t: RunTicks): Request {
    if CanClassify(row) then Classification(row, d.verdict, d.threshold, t.classify) else row
  }

  predicate StopsClassified(d: Deps, row: Request, t: RunTicks) {
    (CanClassify(row) && FirstCommit(d, row, t).status == NeedsReview) || d.autonomy == ClassifyOnly
  }

  function SecondCommit(d: Deps, row: Request, t: RunTicks): Request {
    Assignment(FirstCommit(d, row, t), d.Choice(), d.ordering, t.assign)
  }

  /** The run goes on to its dispatch. */
  predicate Continues(d: Deps, row: Request, t: RunTicks) {
    && AssignEndOf(FirstCommit(d, row, t), d.Choice(), d.ordering) in {AssignEnd.Done, Conflict}
    && d.autonomy == UpToDispatch
    && CanStart(SecondCommit(d, row, t))
  }

  function ThirdCommit(d: Deps, row: Request, t: RunTicks): Request {
    Started(SecondCommit(d, row, t), t.dispatch)
  }

  ghost function FourthCommit(d: Deps, row: Request, t: RunTicks): Request
    requires d.Valid()
  {
    Drained(d.env, ThirdCommit(d, row, t), t.drain)
  }

  /** The state before the run and after each of its commits. */
  ghost function States(d: Deps, row: Request, t: RunTicks): (r: seq<Request>)
    requires d.Valid()
    ensures r != []
  {
    var classified := [row, FirstCommit(d, row, t)];
    if StopsClassified(d, row, t) then classified
    else
      var withPartner := classified + [SecondCommit(d, row, t)];
      if !Continues(d, row, t) then withPartner
      else withPartner + [ThirdCommit(d, row, t), FourthCommit(d, row, t)]
  }

  ghost function Final(d: Deps, row: Request, t: RunTicks): Request
    requires d.Valid()
  {
    var states := States(d, row, t);
    states[|states| - 1]
  }

  ghost function RunEndOf(d: Deps, row: Request, t: RunTicks): RunEnd
    requires d.Valid()
  {
    if CanClassify(row) && FirstCommit(d, row, t).status == NeedsReview then UpForReview
    else if d.autonomy == ClassifyOnly then OnlyClassified
    else
      match AssignEndOf(FirstCommit(d, row, t), d.Choice(), d.ordering)
      case NoPartner => NobodyEligible
      case BadGateway => Raised
      case Done | Conflict =>
        if d.autonomy == UpToAssign then OnlyAssigned
        else if CanStart(SecondCommit(d, row, t)) && IsError(EndOf(d.env, ThirdCommit(d, row, t))) then Raised
        else Finished
  }

  /** One run to its end.  The worker commits also what an error left in the session. */
  method RunOnCreate(d: Deps, request: ServiceRequest, t: RunTicks) returns (end: RunEnd)
    requires d.Valid()
    modifies request
    ensures request.Row() == Final(d, old(request.Row()), t)
    ensures end == RunEndOf(d, old(request.Row()), t)
  {
    ghost var row := request.Row();
    var classified := Classify(request, d.verdict, d.threshold, t.classify);
    assert request.Row() == FirstCommit(d, row, t);
    if classified && request.status == NeedsReview {
      return UpForReview;
    }
    if d.autonomy == ClassifyOnly {
      return OnlyClassified;
    }
    var withPartner := Assign(request, d.Choice(), d.ordering, t.assign);
    assert request.Row() == SecondCommit(d, row, t);
    if withPartner == NoPartner {
      return NobodyEligible;
    }
    if withPartner == BadGateway {
      return Raised;
    }
    if d.autonomy == UpToAssign {
      return OnlyAssigned;
    }
    var started := StartDispatch(request, t.dispatch);
    if started {
      var drained := DrainMessage(d.env, request, t.drain);
      if IsError(drained) {
        return Raised;
      }
    }
    return Finished;
  }

  /**
   * How the run of a new request ends: up for review exactly without a confident verdict, then as far as
   * the autonomy lets it, if somebody suits the request.  Only the order service and the dispatch raise.
   */
  lemma NewRunEnds(d: Deps, row: Request, t: RunTicks)
    requires d.Valid() && row.status == New
    ensures var end := RunEndOf(d, row, t);
            var confident := d.verdict.confidence >= d.threshold && d.verdict.category != Other;
            var nobody := NobodySuits(row.(category := Some(d.verdict.category)), d.Choice());
            var goesOn := confident && d.autonomy != ClassifyOnly && !nobody && d.ordering != Unavailable;
            && (end == UpForReview <==> !confident)
            && (end == OnlyClassified <==> confident && d.autonomy == ClassifyOnly)
            && (end == NobodyEligible <==> confident && d.autonomy != ClassifyOnly && nobody)
            && (end == OnlyAssigned <==> goesOn && d.autonomy == UpToAssign)
            && (end == Finished ==> goesOn && d.autonomy == UpToDispatch)
            && (end == Raised && goesOn ==>
                  d.autonomy == UpToDispatch && IsError(EndOf(d.env, ThirdCommit(d, row, t))))
  {
    var first := FirstCommit(d, row, t);
    ClassifiesAsPromised(row, d.verdict, d.threshold, t.classify);
    if first.status != NeedsReview && d.autonomy != ClassifyOnly {
      AssignEndsAsPromised(first, d.Choice(), d.ordering);
      assert NobodySuits(first, d.Choice()) <==> NobodySuits(row.(category := Some(d.verdict.category)), d.Choice());
    }
  }

  // ---- Crashes ----

  /** A run that dies after `commits` commits, or a worker's drain of a message left behind. */
  datatype Event = Crash(commits: nat, t: RunTicks) | Redelivery(dirty: bool, last: bool, at: int)

  ghost function AfterRedelivery(d: Deps, row: Request, dirty: bool, last: bool, at: int): Request
    requires d.Valid()
  {
    if row.dispatchMessages == 0 then row else Redelivered(d.env, row, dirty, last, at)
  }

  ghost function AfterEvent(d: Deps, row: Request, event: Event): Request
    requires d.Valid()
  {
    match event
    case Crash(commits, t) =>
      var states := States(d, row, t);
      states[Min(commits, |states| - 1)]
    case Redelivery(dirty, last, at) =>
      AfterRedelivery(d, row, dirty, last, at)
  }

  ghost function AfterEvents(d: Deps, row: Request, events: seq<Event>): Request
    requires d.Valid()
  {
    if events == [] then row
    else AfterEvent(d, AfterEvents(d, row, events[..|events| - 1]), events[|events| - 1])
  }

  // ---- What a run converges to ----

  /** What an operator sees of where a request has got to. */
  datatype Core = Core(
    status: Status,
    category: Option<Category>,
    partner: Option<string>,
    chain: seq<string>,
    channel: Option<string>)

  function CoreOf(row: Request): Core {
    Core(row.status, row.category, row.partner, row.chain, row.channel)
  }

  /** The outcome on a channel does not depend on how often it is tried. */
  ghost predicate Repeatable(env: Environment) {
    forall partner, channel, m, n :: env.deliver(partner, channel, m) == env.deliver(partner, channel, n)
  }

  predicate Works(env: Environment, pair: (string, string)) {
    env.deliver(pair.0, pair.1, 0) != Failed
  }

  function FirstWorking(env: Environment, pairs: seq<(string, string)>, i: nat): (k: nat)
    requires i <= |pairs|
    ensures i <= k <= |pairs|
    ensures forall x :: i <= x < k ==> !Works(env, pairs[x])
    ensures k < |pairs| ==> Works(env, pairs[k])
    decreases |pairs| - i
  {
    if i == |pairs| || Works(env, pairs[i]) then i else FirstWorking(env, pairs, i + 1)
  }

  /** The chosen partner and its chain, each with its channels. */
  function ChosenPairs(d: Deps): seq<(string, string)>
    requires d.Chosen().Some?
  {
    var m := d.Chosen().value;
    Pairs(d.env, PartnersOf(NEW_REQUEST.(partner := Some(m.partner), chain := m.chain)))
  }

  /** The first pair that works for the chosen partner and its chain. */
  function Winner(d: Deps): Option<(string, string)> {
    if d.Chosen().None? then None
    else
      var k := FirstWorking(d.env, ChosenPairs(d), 0);
      if k < |ChosenPairs(d)| then Some(ChosenPairs(d)[k]) else None
  }

  /** Where every complete run ends. */
  function Target(d: Deps): Core {
    var category := Some(d.verdict.category);
    if !d.Confident() then Core(NeedsReview, category, None, [], None)
    else if d.autonomy == ClassifyOnly || d.Chosen().None? then Core(Classified, category, None, [], None)
    else
      var m := d.Chosen().value;
      var chosen := Core(Classified, category, Some(m.partner), m.chain, Some(m.channel));
      if d.ordering == Unavailable then chosen
      else if d.autonomy == UpToAssign then chosen.(status := Assigned)
      else if Winner(d).None? then chosen.(status := FailedDispatch)
      else Core(Dispatched, category, Some(Winner(d).value.0), m.chain, Some(Winner(d).value.1))
  }

  /** Partner and channel are those of the match, or those of the pair that works. */
  ghost predicate OnCourse(d: Deps, row: Request) {
    && d.Confident() && d.Chosen().Some?
    && row.chain == d.Chosen().value.chain
    && ((row.partner == Some(d.Chosen().value.partner) && row.channel == Some(d.Chosen().value.channel))
        || (Winner(d).Some? && row.partner == Some(Winner(d).value.0) && row.channel == Some(Winner(d).value.1)))
  }

  /** The states that crashes can leave behind. */
  ghost predicate Interrupted(d: Deps, row: Request) {
    var untouched := row.partner.None? && row.chain == [] && row.channel.None? && row.dispatchMessages == 0;
    && (row.status != New ==> row.category == Some(d.verdict.category))
    && match row.status
       case New => untouched
       case NeedsReview => untouched && !d.Confident()
       case Classified =>
         && d.Confident() && row.dispatchMessages == 0
         && (untouched || (d.autonomy != ClassifyOnly && d.ordering == Unavailable && d.Chosen().Some?
                       && CoreOf(row) == Target(d)))
       case Assigned =>
         && OnCourse(d, row) && d.autonomy != ClassifyOnly && d.ordering != Unavailable
         && (d.autonomy == UpToAssign ==> row.dispatchMessages == 0 && CoreOf(row) == Target(d))
       case Dispatched =>
         OnCourse(d, row) && d.autonomy == UpToDispatch && d.ordering != Unavailable
       case FailedDispatch =>
         && OnCourse(d, row) && d.autonomy == UpToDispatch && d.ordering != Unavailable && Winner(d).None?
       case _ => false
  }

  // ---- The search repeats itself ----

  lemma {:induction false} SameFirst(env: Environment, pairs: seq<(string, string)>, made: nat, i: nat)
    requires Repeatable(env) && i <= |pairs|
    ensures FirstSuccess(env, pairs, made, i) == FirstWorking(env, pairs, i)
    decreases |pairs| - i
  {
    if i < |pairs| {
      assert env.deliver(pairs[i].0, pairs[i].1, made + i + 1) == env.deliver(pairs[i].0, pairs[i].1, 0);
      SameFirst(env, pairs, made, i + 1);
    }
  }

  /** The first pairs of a search are those of its first partner. */
  lemma FirstBlock(env: Environment, partners: seq<Option<string>>, partner: string, j: nat)
    requires partners != [] && partners[0] == Some(partner) && j < |env.channels(partner)|
    ensures j < |Pairs(env, partners)| && Pairs(env, partners)[j] == (partner, env.channels(partner)[j])
  {
    PartnerStarts(env, partners, 0);
    assert PairsUpTo(env, partners, 0) == [];
    assert Pairs(env, partners)[0 + j] == (partner, env.channels(partner)[j]);
  }

  lemma FirstWorkingIs(env: Environment, pairs: seq<(string, string)>, j: nat)
    requires j < |pairs| && Works(env, pairs[j]) && forall x :: 0 <= x < j ==> !Works(env, pairs[x])
    ensures FirstWorking(env, pairs, 0) == j
  {
  }

  /** The `k`-th pair is the `j`-th of its partner's. */
  lemma BlockPairs(env: Environment, partners: seq<Option<string>>, k: nat) returns (partner: string, j: nat)
    requires k < |Pairs(env, partners)|
    ensures j <= k && j < |env.channels(partner)|
    ensures forall x :: 0 <= x <= j ==> Pairs(env, partners)[k - j + x] == (partner, env.channels(partner)[x])
  {
    var i := BlockOf(env, partners, |partners|, k);
    partner, j := partners[i].value, k - |PairsUpTo(env, partners, i)|;
    PartnerStarts(env, partners, i);
    assert StartsAt(env, Pairs(env, partners), k - j, partner);
  }

  /** Searching again from the partner that took the request finds the same channel. */
  lemma WinnerAgain(env: Environment, partners: seq<Option<string>>, again: seq<Option<string>>)
    requires FirstWorking(env, Pairs(env, partners), 0) < |Pairs(env, partners)|
    requires var winner := Pairs(env, partners)[FirstWorking(env, Pairs(env, partners), 0)];
             again != [] && again[0] == Some(winner.0)
    ensures var k := FirstWorking(env, Pairs(env, again), 0);
            && k < |Pairs(env, again)|
            && Pairs(env, again)[k] == Pairs(env, partners)[FirstWorking(env, Pairs(env, partners), 0)]
  {
    var pairs, others := Pairs(env, partners), Pairs(env, again);
    var k := FirstWorking(env, pairs, 0);
    var partner, j := BlockPairs(env, partners, k);
    assert pairs[k] == (partner, env.channels(partner)[j]);
    forall x | 0 <= x < j ensures x < |others| && !Works(env, others[x]) {
      assert pairs[k - j + x] == (partner, env.channels(partner)[x]);
      FirstBlock(env, again, partner, x);
    }
    FirstBlock(env, again, partner, j);
    FirstWorkingIs(env, others, j);
  }

  /** A search on course finds the pair that works, and nothing if there is none. */
  lemma SearchOnCourse(d: Deps, row: Request)
    requires Repeatable(d.env) && OnCourse(d, row)
    ensures Reachable(d.env, row) <==> Winner(d).Some?
    ensures Winner(d).Some? ==>
              && Searched(d.env, row).partner == Some(Winner(d).value.0)
              && Searched(d.env, row).channel == Some(Winner(d).value.1)
    ensures Winner(d).None? ==> CoreOf(Searched(d.env, row)) == CoreOf(row)
  {
    var m := d.Chosen().value;
    var partners := PartnersOf(NEW_REQUEST.(partner := Some(m.partner), chain := m.chain));
    SameFirst(d.env, Pairs(d.env, PartnersOf(row)), |row.attempts|, 0);
    if row.partner == Some(m.partner) {
      assert PartnersOf(row) == partners;
    } else {
      WinnerAgain(d.env, partners, PartnersOf(row));
    }
  }

  /** What a dispatch leaves of the request, in terms of its search. */
  lemma ExecutedCore(env: Environment, row: Request, now: int)
    requires env.Valid() && row.category.Some?
    ensures var searched, after := Searched(env, row), Executed(env, row, now);
            && after.partner == searched.partner && after.channel == searched.channel
            && after.chain == row.chain && after.category == row.category
            && after.dispatchMessages == row.dispatchMessages && after.attempts == searched.attempts
            && after.status == if !Reachable(env, row) && row.status == Dispatched then FailedDispatch else row.status
  {
  }

  lemma ExecutedOnCourse(d: Deps, row: Request, now: int)
    requires d.Valid() && Repeatable(d.env) && OnCourse(d, row) && row.category.Some?
    ensures var after := Executed(d.env, row, now);
            && OnCourse(d, after) && after.category == row.category
            && after.dispatchMessages == row.dispatchMessages
            && (row.status == Dispatched && Winner(d).None? ==>
                  after.status == FailedDispatch && after.partner == row.partner && after.channel == row.channel)
            && (row.status != Dispatched || Winner(d).Some? ==> after.status == row.status)
            && (Winner(d).Some? ==> after.partner == Some(Winner(d).value.0) && after.channel == Some(Winner(d).value.1))
  {
    SearchOnCourse(d, row);
    ExecutedCore(d.env, row, now);
  }

  // ---- A run from any state a crash can leave ----

  lemma FirstKeeps(d: Deps, row: Request, t: RunTicks)
    requires Interrupted(d, row)
    ensures Interrupted(d, FirstCommit(d, row, t))
    ensures FirstCommit(d, row, t).status != New
    ensures StopsClassified(d, row, t) ==> CoreOf(FirstCommit(d, row, t)) == Target(d)
  {
  }

  lemma AssignmentKeeps(d: Deps, row: Request, t: Ticks)
    requires Interrupted(d, row) && row.status !in {New, NeedsReview} && d.autonomy != ClassifyOnly
    ensures var after := Assignment(row, d.Choice(), d.ordering, t);
            var end := AssignEndOf(row, d.Choice(), d.ordering);
            var goesOn := end in {AssignEnd.Done, Conflict} && d.autonomy == UpToDispatch && CanStart(after);
            && Interrupted(d, after)
            && (if goesOn then after.status == Assigned else CoreOf(after) == Target(d))
  {
    assert row.category == Some(d.verdict.category);
    assert CanAssign(row) <==> row.status in {Classified, Dispatched, FailedDispatch};
    if CanAssign(row) {
      assert Match(row, d.Choice()) == d.Chosen();
    }
  }

  lemma SecondKeeps(d: Deps, row: Request, t: RunTicks)
    requires Interrupted(d, row) && !StopsClassified(d, row, t)
    ensures Interrupted(d, SecondCommit(d, row, t))
    ensures !Continues(d, row, t) ==> CoreOf(SecondCommit(d, row, t)) == Target(d)
    ensures Continues(d, row, t) ==> SecondCommit(d, row, t).status == Assigned
  {
    FirstKeeps(d, row, t);
    AssignmentKeeps(d, FirstCommit(d, row, t), t.assign);
  }

  lemma ThirdKeeps(d: Deps, row: Request, t: RunTicks)
    requires Interrupted(d, row) && !StopsClassified(d, row, t) && Continues(d, row, t)
    ensures Interrupted(d, ThirdCommit(d, row, t)) && ThirdCommit(d, row, t).status == Dispatched
  {
    SecondKeeps(d, row, t);
  }

  lemma DrainedArrives(d: Deps, row: Request, now: int)
    requires d.Valid() && Repeatable(d.env)
    requires Interrupted(d, row) && row.status == Dispatched && row.dispatchMessages > 0
    ensures Interrupted(d, Drained(d.env, row, now)) && CoreOf(Drained(d.env, row, now)) == Target(d)
  {
    ExecutedOnCourse(d, row, now);
  }

  lemma FourthKeeps(d: Deps, row: Request, t: RunTicks)
    requires d.Valid() && Repeatable(d.env)
    requires Interrupted(d, row) && !StopsClassified(d, row, t) && Continues(d, row, t)
    ensures Interrupted(d, FourthCommit(d, row, t)) && CoreOf(FourthCommit(d, row, t)) == Target(d)
  {
    ThirdKeeps(d, row, t);
    DrainedArrives(d, ThirdCommit(d, row, t), t.drain);
  }

  /** A complete run ends at the target from every state a crash can leave behind. */
  lemma CompleteRun(d: Deps, row: Request, t: RunTicks)
    requires d.Valid() && Repeatable(d.env) && Interrupted(d, row)
    ensures CoreOf(Final(d, row, t)) == Target(d) && Interrupted(d, Final(d, row, t))
  {
    FirstKeeps(d, row, t);
    if !StopsClassified(d, row, t) {
      SecondKeeps(d, row, t);
      if Continues(d, row, t) {
        FourthKeeps(d, row, t);
      }
    }
  }

  lemma StatesKeep(d: Deps, row: Request, t: RunTicks, i: nat)
    requires d.Valid() && Repeatable(d.env) && Interrupted(d, row) && i < |States(d, row, t)|
    ensures Interrupted(d, States(d, row, t)[i])
  {
    StatesAre(d, row, t, i);
    if i == 1 {
      FirstKeeps(d, row, t);
    } else if i == 2 {
      SecondKeeps(d, row, t);
    } else if i == 3 {
      ThirdKeeps(d, row, t);
    } else if i == 4 {
      FourthKeeps(d, row, t);
    }
  }

  lemma StatesAre(d: Deps, row: Request, t: RunTicks, i: nat)
    requires d.Valid() && i < |States(d, row, t)|
    ensures i <= 4
    ensures i >= 2 ==> !StopsClassified(d, row, t)
    ensures i >= 3 ==> Continues(d, row, t)
    ensures States(d, row, t)[i]
            == if i == 0 then row
               else if i == 1 then FirstCommit(d, row, t)
               else if i == 2 then SecondCommit(d, row, t)
               else if i == 3 then ThirdCommit(d, row, t)
               else FourthCommit(d, row, t)
  {
  }

  lemma ExecutedKeeps(d: Deps, row: Request, at: int)
    requires d.Valid() && Repeatable(d.env) && Interrupted(d, row)
    ensures row.dispatchMessages > 0 ==>
              var after := Executed(d.env, row, at);
              && Interrupted(d, after) && after.dispatchMessages == row.dispatchMessages
              && (CoreOf(row) == Target(d) ==> CoreOf(after) == Target(d))
  {
    if row.dispatchMessages > 0 {
      ExecutedOnCourse(d, row, at);
    }
  }

  lemma OneMessageLess(d: Deps, row: Request)
    requires Interrupted(d, row)
    ensures row.dispatchMessages > 0 ==> Interrupted(d, row.(dispatchMessages := row.dispatchMessages - 1))
  {
  }

  /** A redelivery keeps the states possible, and does not move a request that has arrived. */
  lemma RedeliveryKeeps(d: Deps, row: Request, dirty: bool, last: bool, at: int)
    requires d.Valid() && Repeatable(d.env) && Interrupted(d, row)
    ensures Interrupted(d, AfterRedelivery(d, row, dirty, last, at))
    ensures CoreOf(row) == Target(d) ==> CoreOf(AfterRedelivery(d, row, dirty, last, at)) == Target(d)
  {
    if row.dispatchMessages > 0 {
      ExecutedKeeps(d, row, at);
      OneMessageLess(d, Executed(d.env, row, at));
    }
  }

  lemma {:induction false} EventsKeep(d: Deps, row: Request, events: seq<Event>)
    requires d.Valid() && Repeatable(d.env) && Interrupted(d, row)
    ensures Interrupted(d, AfterEvents(d, row, events))
  {
    if events != [] {
      var n := |events| - 1;
      EventsKeep(d, row, events[..n]);
      var before := AfterEvents(d, row, events[..n]);
      match events[n]
      case Crash(commits, t) => StatesKeep(d, before, t, Min(commits, |States(d, before, t)| - 1));
      case Redelivery(dirty, last, at) => RedeliveryKeeps(d, before, dirty, last, at);
    }
  }

  lemma {:induction false} RedeliveriesStay(d: Deps, row: Request, events: seq<Event>)
    requires d.Valid() && Repeatable(d.env) && Interrupted(d, row) && CoreOf(row) == Target(d)
    requires forall i :: 0 <= i < |events| ==> events[i].Redelivery?
    ensures CoreOf(AfterEvents(d, row, events)) == Target(d)
  {
    if events != [] {
      var n := |events| - 1;
      RedeliveriesStay(d, row, events[..n]);
      EventsKeep(d, row, events[..n]);
      var e := events[n];
      RedeliveryKeeps(d, AfterEvents(d, row, events[..n]), e.dirty, e.last, e.at);
    }
  }

  /**
   * Crashes do not matter.  Whatever runs died after whatever commits, whatever messages a worker
   * redelivered in between, the next complete run, and any redeliveries after it, end with the
   * status, category, partner, chain and channel of one undisturbed run of the new request.
   */
  lemma CrashesConverge(d: Deps, events: seq<Event>, t: RunTicks, later: seq<Event>, undisturbed: RunTicks)
    requires d.Valid() && Repeatable(d.env)
    requires forall i :: 0 <= i < |later| ==> later[i].Redelivery?
    ensures CoreOf(AfterEvents(d, Final(d, AfterEvents(d, NEW_REQUEST, events), t), later))
            == CoreOf(Final(d, NEW_REQUEST, undisturbed))
            == Target(d)
  {
    EventsKeep(d, NEW_REQUEST, events);
    CompleteRun(d, AfterEvents(d, NEW_REQUEST, events), t);
    CompleteRun(d, NEW_REQUEST, undisturbed);
    RedeliveriesStay(d, Final(d, AfterEvents(d, NEW_REQUEST, events), t), later);
  }

  // ---- Several runs at once, and redeliveries between their commits ----

  /** What a run does next; before its drain, whether its message is still there. */
  datatype Stage = ToClassify | ToAssign | ToDispatch | ToDrain(own: bool) | Complete

  datatype Progress = Progress(row: Request, runs: seq<Stage>)

  /** A run makes its next commit; or it begins anew, as after a death or on a repeated delivery of its
      message; or a worker drains a dispatch message, that of a run or another. */
  datatype Move = Work(r: nat, t: RunTicks) | Begin(r: nat) | Drain(owner: Option<nat>, dirty: bool, last: bool, at: int)

  /** How many runs have a message that is still there. */
  ghost function Owners(runs: seq<Stage>): nat {
    if runs == [] then 0
    else Owners(runs[..|runs| - 1]) + if runs[|runs| - 1] == ToDrain(true) then 1 else 0
  }

  ghost predicate IsPossible(p: Progress, move: Move) {
    match move
    case Work(r, _) =>
      && r < |p.runs| && p.runs[r] != Complete
      && (p.runs[r] == ToDrain(true) ==> p.row.dispatchMessages > 0)
    case Begin(r) => r < |p.runs|
    case Drain(owner, _, _, _) =>
      && p.row.dispatchMessages > 0
      && if owner.Some? then owner.value < |p.runs| && p.runs[owner.value] == ToDrain(true)
         else p.row.dispatchMessages > Owners(p.runs)
  }

  /** The row after the next commit of a run at `stage`, on the row as it is by then. */
  ghost function RowAfter(d: Deps, row: Request, stage: Stage, t: RunTicks): Request
    requires d.Valid() && (stage == ToDrain(true) ==> row.dispatchMessages > 0)
  {
    match stage
    case ToClassify => FirstCommit(d, row, t)
    case ToAssign => Assignment(row, d.Choice(), d.ordering, t.assign)
    case ToDispatch => if CanStart(row) then Started(row, t.dispatch) else row
    case ToDrain(own) => if own then Drained(d.env, row, t.drain) else row
    case Complete => row
  }

  function StageAfter(d: Deps, row: Request, stage: Stage, t: RunTicks): Stage {
    match stage
    case ToClassify => if StopsClassified(d, row, t) then Complete else ToAssign
    case ToAssign =>
      if AssignEndOf(row, d.Choice(), d.ordering) in {NoPartner, BadGateway} || d.autonomy == UpToAssign then Complete
      else ToDispatch
    case ToDispatch => if CanStart(row) then ToDrain(true) else Complete
    case ToDrain(_) | Complete => Complete
  }

  ghost function AfterMove(d: Deps, p: Progress, move: Move): Progress
    requires d.Valid() && IsPossible(p, move)
  {
    match move
    case Work(r, t) =>
      Progress(RowAfter(d, p.row, p.runs[r], t), p.runs[r := StageAfter(d, p.row, p.runs[r], t)])
    case Begin(r) =>
      p.(runs := p.runs[r := ToClassify])
    case Drain(owner, dirty, last, at) =>
      var after := Redelivered(d.env, p.row, dirty, last, at);
      Progress(after, if owner.Some? && after.dispatchMessages < p.row.dispatchMessages
                      then p.runs[owner.value := ToDrain(false)] else p.runs)
  }

  /** What the row has come to at least when a run is at `stage`. */
  predicate Fits(d: Deps, row: Request, stage: Stage) {
    match stage
    case ToClassify | Complete => true
    case ToAssign => row.status !in {New, NeedsReview} && d.autonomy != ClassifyOnly
    case ToDispatch | ToDrain(_) => row.status in {Assigned, Dispatched, FailedDispatch} && d.autonomy == UpToDispatch
  }

  /** A run at `stage` will still take the request to where it belongs. */
  predicate Leads(row: Request, stage: Stage) {
    match stage
    case ToClassify | ToAssign => true
    case ToDispatch => row.status == Assigned
    case ToDrain(own) => own && row.status in {Dispatched, FailedDispatch}
    case Complete => false
  }

  ghost predicate SomeLeads(p: Progress) {
    exists r :: 0 <= r < |p.runs| && Leads(p.row, p.runs[r])
  }

  /** What holds all along: the request has arrived, or some run will still take it there. */
  ghost predicate OnTheWay(d: Deps, p: Progress) {
    && Interrupted(d, p.row)
    && Owners(p.runs) <= p.row.dispatchMessages
    && (forall r :: 0 <= r < |p.runs| ==> Fits(d, p.row, p.runs[r]))
    && (CoreOf(p.row) == Target(d) || SomeLeads(p))
  }

  /** What a move may do to the row without harm to the runs that do not make it. */
  predicate GoesOn(row: Request, after: Request) {
    && (row.status !in {New, NeedsReview} ==> after.status !in {New, NeedsReview})
    && (row.status in {Assigned, Dispatched, FailedDispatch} ==> after.status in {Assigned, Dispatched, FailedDispatch})
  }

  lemma {:induction false} OwnersUpdate(runs: seq<Stage>, r: nat, stage: Stage)
    requires r < |runs|
    ensures Owners(runs[r := stage]) + (if runs[r] == ToDrain(true) then 1 else 0)
            == Owners(runs) + if stage == ToDrain(true) then 1 else 0
  {
    var n := |runs| - 1;
    if r < n {
      OwnersUpdate(runs[..n], r, stage);
      assert runs[r := stage][..n] == runs[..n][r := stage];
    } else {
      assert runs[r := stage][..n] == runs[..n];
    }
  }

  lemma FailedHasArrived(d: Deps, row: Request)
    requires Interrupted(d, row)
    ensures row.status == FailedDispatch ==> CoreOf(row) == Target(d)
  {
  }

  /** Draining a request that has been dispatched brings it to the target, whatever the end. */
  lemma ExecutedArrives(d: Deps, row: Request, at: int)
    requires d.Valid() && Repeatable(d.env) && Interrupted(d, row)
    ensures row.dispatchMessages > 0 && row.status in {Dispatched, FailedDispatch} ==>
              CoreOf(Executed(d.env, row, at)) == Target(d)
  {
    if row.dispatchMessages > 0 && row.status == FailedDispatch {
      ExecutedKeeps(d, row, at);
      FailedHasArrived(d, row);
    } else if row.dispatchMessages > 0 && row.status == Dispatched {
      DrainedArrives(d, row, at);
    }
  }

  /** A redelivery moves no request but one that is dispatched, and that one only to its failure. */
  lemma RedeliveredStatus(d: Deps, row: Request, dirty: bool, last: bool, at: int)
    requires d.Valid() && Repeatable(d.env) && Interrupted(d, row)
    ensures row.dispatchMessages > 0 ==>
            var after := Redelivered(d.env, row, dirty, last, at);
            && (after.status == row.status || (row.status == Dispatched && after.status == FailedDispatch))
            && row.dispatchMessages - 1 <= after.dispatchMessages <= row.dispatchMessages
            && (after.dispatchMessages < row.dispatchMessages && row.status in {Dispatched, FailedDispatch} ==>
                  CoreOf(after) == Target(d))
  {
    if row.dispatchMessages > 0 {
      ExecutedOnCourse(d, row, at);
      if row.status in {Dispatched, FailedDispatch} {
        ExecutedArrives(d, row, at);
      }
    }
  }

  // ---- One commit of one run ----

  /** The commit of a run: the row stays possible and fits the runs, and leads on or has arrived, unless
      it leaves the status as it is and the run did not lead before. */
  ghost predicate GoodCommit(d: Deps, row: Request, stage: Stage, after: Request, next: Stage) {
    && Interrupted(d, after) && Fits(d, after, next) && GoesOn(row, after)
    && after.dispatchMessages + (if stage == ToDrain(true) then 1 else 0)
       >= row.dispatchMessages + (if next == ToDrain(true) then 1 else 0)
    && (|| CoreOf(after) == Target(d) || Leads(after, next)
        || (!Leads(row, stage) && after.status == row.status && CoreOf(row) != Target(d)))
  }

  lemma ClassifyCommit(d: Deps, row: Request, t: RunTicks)
    requires d.Valid() && Interrupted(d, row)
    ensures GoodCommit(d, row, ToClassify, RowAfter(d, row, ToClassify, t), StageAfter(d, row, ToClassify, t))
  {
    FirstKeeps(d, row, t);
  }

  /** Past its classification, a row is not changed by classifying it again. */
  lemma AlreadyClassified(d: Deps, row: Request, t: RunTicks)
    requires Interrupted(d, row) && row.status !in {New, NeedsReview} && d.autonomy != ClassifyOnly
    ensures FirstCommit(d, row, t) == row && !StopsClassified(d, row, t)
  {
  }

  lemma AssignCommit(d: Deps, row: Request, t: RunTicks)
    requires d.Valid() && Interrupted(d, row)
    ensures Fits(d, row, ToAssign) ==>
              GoodCommit(d, row, ToAssign, RowAfter(d, row, ToAssign, t), StageAfter(d, row, ToAssign, t))
  {
    if Fits(d, row, ToAssign) {
      AlreadyClassified(d, row, t);
      SecondKeeps(d, row, t);
      assert CanAssign(row) <==> row.status != Assigned;
    }
  }

  lemma DispatchCommit(d: Deps, row: Request, t: RunTicks)
    requires d.Valid() && Interrupted(d, row) && Fits(d, row, ToDispatch)
    ensures CoreOf(row) == Target(d) || row.status == Assigned ==>
              GoodCommit(d, row, ToDispatch, RowAfter(d, row, ToDispatch, t), StageAfter(d, row, ToDispatch, t))
    ensures row.status != Assigned ==>
              RowAfter(d, row, ToDispatch, t) == row && StageAfter(d, row, ToDispatch, t) == Complete
  {
    assert row.status == Assigned ==> CanStart(row);
  }

  lemma DrainedStays(d: Deps, row: Request, at: int)
    requires d.Valid() && Repeatable(d.env) && Interrupted(d, row)
    ensures row.dispatchMessages > 0 ==>
              var after := Drained(d.env, row, at);
              && Interrupted(d, after) && after.dispatchMessages >= row.dispatchMessages - 1
              && (after.status == row.status || (row.status == Dispatched && after.status == FailedDispatch))
              && (row.status in {Dispatched, FailedDispatch} || CoreOf(row) == Target(d) ==> CoreOf(after) == Target(d))
  {
    if row.dispatchMessages > 0 {
      assert Drained(d.env, row, at) == Redelivered(d.env, row, true, false, at);
      RedeliveryKeeps(d, row, true, false, at);
      RedeliveredStatus(d, row, true, false, at);
      ExecutedArrives(d, row, at);
    }
  }

  lemma DrainCommit(d: Deps, row: Request, t: RunTicks)
    requires d.Valid() && Repeatable(d.env) && Interrupted(d, row)
    ensures Fits(d, row, ToDrain(true)) && row.dispatchMessages > 0 ==>
              GoodCommit(d, row, ToDrain(true), RowAfter(d, row, ToDrain(true), t), Complete)
  {
    DrainedStays(d, row, t.drain);
  }

  lemma WorkCommits(d: Deps, row: Request, stage: Stage, t: RunTicks)
    requires d.Valid() && Repeatable(d.env) && Interrupted(d, row) && Fits(d, row, stage)
    ensures stage != Complete && (stage == ToDrain(true) ==> row.dispatchMessages > 0) ==>
              || GoodCommit(d, row, stage, RowAfter(d, row, stage, t), StageAfter(d, row, stage, t))
              || (!Leads(row, stage) && RowAfter(d, row, stage, t) == row && StageAfter(d, row, stage, t) == Complete)
  {
    match stage {
      case ToClassify => ClassifyCommit(d, row, t);
      case ToAssign => AssignCommit(d, row, t);
      case ToDispatch => DispatchCommit(d, row, t);
      case ToDrain(own) => if own { DrainCommit(d, row, t); }
      case Complete =>
    }
  }

  // ---- All runs together ----

  /** Another run leads as long as the status does not change. */
  lemma OthersLead(p: Progress, after: Progress, r: nat)
    requires r < |p.runs| == |after.runs| && after.row.status == p.row.status
    requires SomeLeads(p) && !Leads(p.row, p.runs[r])
    requires forall i :: 0 <= i < |p.runs| && i != r ==> after.runs[i] == p.runs[i]
    ensures SomeLeads(after)
  {
    var i :| 0 <= i < |p.runs| && Leads(p.row, p.runs[i]);
    assert Leads(after.row, after.runs[i]);
  }

  lemma WorkKeeps(d: Deps, p: Progress, r: nat, t: RunTicks)
    requires d.Valid() && Repeatable(d.env) && OnTheWay(d, p)
    ensures IsPossible(p, Work(r, t)) ==> OnTheWay(d, AfterMove(d, p, Work(r, t)))
  {
    if IsPossible(p, Work(r, t)) {
      var after := AfterMove(d, p, Work(r, t));
      WorkCommits(d, p.row, p.runs[r], t);
      OwnersUpdate(p.runs, r, after.runs[r]);
      if CoreOf(after.row) != Target(d) {
        if Leads(after.row, after.runs[r]) {
          assert SomeLeads(after);
        } else {
          OthersLead(p, after, r);
        }
      }
    }
  }

  lemma BeginKeeps(d: Deps, p: Progress, r: nat)
    requires OnTheWay(d, p)
    ensures r < |p.runs| ==> OnTheWay(d, p.(runs := p.runs[r := ToClassify]))
  {
    if r < |p.runs| {
      OwnersUpdate(p.runs, r, ToClassify);
      assert Leads(p.row, p.runs[r := ToClassify][r]);
    }
  }

  lemma FitsAfterDrain(d: Deps, p: Progress, move: Move)
    requires d.Valid() && Repeatable(d.env) && OnTheWay(d, p)
    ensures move.Drain? && IsPossible(p, move) ==>
              var after := AfterMove(d, p, move);
              && Owners(after.runs) <= after.row.dispatchMessages
              && forall r :: 0 <= r < |after.runs| ==> Fits(d, after.row, after.runs[r])
  {
    if move.Drain? && IsPossible(p, move) {
      var after := AfterMove(d, p, move);
      RedeliveredStatus(d, p.row, move.dirty, move.last, move.at);
      if move.owner.Some? {
        OwnersUpdate(p.runs, move.owner.value, ToDrain(false));
      }
      forall r | 0 <= r < |after.runs| ensures Fits(d, after.row, after.runs[r]) {
        assert Fits(d, p.row, p.runs[r]);
      }
    }
  }

  lemma DrainKeeps(d: Deps, p: Progress, move: Move)
    requires d.Valid() && Repeatable(d.env) && OnTheWay(d, p)
    ensures move.Drain? && IsPossible(p, move) ==> OnTheWay(d, AfterMove(d, p, move))
  {
    if move.Drain? && IsPossible(p, move) {
      var after := AfterMove(d, p, move);
      RedeliveryKeeps(d, p.row, move.dirty, move.last, move.at);
      FitsAfterDrain(d, p, move);
      if CoreOf(after.row) != Target(d) {
        StillLed(d, p, move);
      }
    }
  }

  /** A drain that does not bring the request to its target takes the lead from no run. */
  lemma StillLed(d: Deps, p: Progress, move: Move)
    requires d.Valid() && Repeatable(d.env) && OnTheWay(d, p)
    ensures move.Drain? && IsPossible(p, move) && CoreOf(AfterMove(d, p, move).row) != Target(d) ==>
              SomeLeads(AfterMove(d, p, move))
  {
    if move.Drain? && IsPossible(p, move) && CoreOf(AfterMove(d, p, move).row) != Target(d) {
      var after := AfterMove(d, p, move);
      RedeliveryKeeps(d, p.row, move.dirty, move.last, move.at);
      RedeliveredStatus(d, p.row, move.dirty, move.last, move.at);
      FailedHasArrived(d, after.row);
      var i :| 0 <= i < |p.runs| && Leads(p.row, p.runs[i]);
      assert Leads(after.row, after.runs[i]);
    }
  }

  lemma MoveKeeps(d: Deps, p: Progress, move: Move)
    requires d.Valid() && Repeatable(d.env) && OnTheWay(d, p)
    ensures IsPossible(p, move) ==> OnTheWay(d, AfterMove(d, p, move))
  {
    match move
    case Work(r, t) => WorkKeeps(d, p, r, t);
    case Begin(r) => BeginKeeps(d, p, r);
    case Drain(_, _, _, _) => DrainKeeps(d, p, move);
  }

  /** Moves from one state on, each possible when it is made. */
  ghost predicate IsInterleaving(d: Deps, p: Progress, moves: seq<Move>)
    requires d.Valid()
    decreases |moves|
  {
    moves != [] ==> IsPossible(p, moves[0]) && IsInterleaving(d, AfterMove(d, p, moves[0]), moves[1..])
  }

  ghost function AfterMoves(d: Deps, p: Progress, moves: seq<Move>): Progress
    requires d.Valid() && IsInterleaving(d, p, moves)
    decreases |moves|
  {
    if moves == [] then p else AfterMoves(d, AfterMove(d, p, moves[0]), moves[1..])
  }

  lemma {:induction false} MovesKeep(d: Deps, p: Progress, moves: seq<Move>)
    requires d.Valid() && Repeatable(d.env) && OnTheWay(d, p)
    ensures IsInterleaving(d, p, moves) ==> OnTheWay(d, AfterMoves(d, p, moves))
    decreases |moves|
  {
    if moves != [] && IsPossible(p, moves[0]) {
      MoveKeeps(d, p, moves[0]);
      MovesKeep(d, AfterMove(d, p, moves[0]), moves[1..]);
    }
  }

  ghost function Beginning(n: nat): Progress {
    Progress(NEW_REQUEST, seq(n, _ => ToClassify))
  }

  lemma {:induction false} NoOwners(runs: seq<Stage>)
    requires forall r :: 0 <= r < |runs| ==> runs[r] != ToDrain(true)
    ensures Owners(runs) == 0
  {
    if runs != [] {
      NoOwners(runs[..|runs| - 1]);
    }
  }

  lemma BeginningIsOnTheWay(d: Deps, n: nat)
    requires n > 0
    ensures OnTheWay(d, Beginning(n))
  {
    NoOwners(Beginning(n).runs);
    assert Leads(NEW_REQUEST, Beginning(n).runs[0]);
  }

  /**
   * Nor do other runs and redeliveries between the commits of a run.  However the commits of any number
   * of runs, their deaths and new beginnings and the drains of a worker interleave: when all runs have
   * completed, the request is where one undisturbed run takes it.
   */
  lemma InterleavedConverge(d: Deps, n: nat, moves: seq<Move>, undisturbed: RunTicks)
    requires d.Valid() && Repeatable(d.env) && n > 0 && IsInterleaving(d, Beginning(n), moves)
    ensures var p := AfterMoves(d, Beginning(n), moves);
            (forall r :: 0 <= r < |p.runs| ==> p.runs[r] == Complete) ==>
              CoreOf(p.row) == CoreOf(Final(d, NEW_REQUEST, undisturbed))
  {
    BeginningIsOnTheWay(d, n);
    MovesKeep(d, Beginning(n), moves);
    CompleteRun(d, NEW_REQUEST, undisturbed);
  }

  function Remaining(stage: Stage): nat {
    match stage
    case ToClassify => 4
    case ToAssign => 3
    case ToDispatch => 2
    case ToDrain(_) => 1
    case Complete => 0
  }

  ghost function AllRemaining(runs: seq<Stage>): nat {
    if runs == [] then 0 else AllRemaining(runs[..|runs| - 1]) + Remaining(runs[|runs| - 1])
  }

  lemma {:induction false} RemainingUpdate(runs: seq<Stage>, r: nat, stage: Stage)
    requires r < |runs|
    ensures AllRemaining(runs[r := stage]) + Remaining(runs[r]) == AllRemaining(runs) + Remaining(stage)
  {
    var n := |runs| - 1;
    if r < n {
      RemainingUpdate(runs[..n], r, stage);
      assert runs[r := stage][..n] == runs[..n][r := stage];
    } else {
      assert runs[r := stage][..n] == runs[..n];
    }
  }

  lemma {:induction false} NoneRemaining(runs: seq<Stage>)
    ensures AllRemaining(runs) == 0 <==> forall r :: 0 <= r < |runs| ==> runs[r] == Complete
  {
    if runs != [] {
      NoneRemaining(runs[..|runs| - 1]);
      assert forall r :: 0 <= r < |runs| - 1 ==> runs[..|runs| - 1][r] == runs[r];
    }
  }

  ghost function Commits(moves: seq<Move>): nat {
    if moves == [] then 0 else (if moves[0].Work? then 1 else 0) + Commits(moves[1..])
  }

  lemma OneMoveCounts(d: Deps, p: Progress, move: Move)
    requires d.Valid() && IsPossible(p, move) && !move.Begin?
    ensures (if move.Work? then 1 else 0) + AllRemaining(AfterMove(d, p, move).runs) <= AllRemaining(p.runs)
  {
    var after := AfterMove(d, p, move);
    match move {
      case Work(r, t) => RemainingUpdate(p.runs, r, after.runs[r]);
      case Drain(owner, _, _, _) =>
        if owner.Some? {
          RemainingUpdate(p.runs, owner.value, ToDrain(false));
        }
      case _ =>
    }
  }

  /** Every commit brings its run nearer to its end, and no drain sets one back. */
  lemma {:induction false} EveryCommitCounts(d: Deps, p: Progress, moves: seq<Move>)
    requires d.Valid() && IsInterleaving(d, p, moves)
    requires forall i :: 0 <= i < |moves| ==> !moves[i].Begin?
    ensures Commits(moves) + AllRemaining(AfterMoves(d, p, moves).runs) <= AllRemaining(p.runs)
    decreases |moves|
  {
    if moves != [] {
      OneMoveCounts(d, p, moves[0]);
      EveryCommitCounts(d, AfterMove(d, p, moves[0]), moves[1..]);
    }
  }

  /** So runs that do not begin anew make at most four commits each, and after as many are complete. */
  lemma RunsComplete(d: Deps, p: Progress, moves: seq<Move>)
    requires d.Valid() && IsInterleaving(d, p, moves)
    requires forall i :: 0 <= i < |moves| ==> !moves[i].Begin?
    ensures Commits(moves) <= AllRemaining(p.runs) <= 4 * |p.runs|
    ensures Commits(moves) == AllRemaining(p.runs) ==>
              var after := AfterMoves(d, p, moves);
              forall r :: 0 <= r < |after.runs| ==> after.runs[r] == Complete
  {
    EveryCommitCounts(d, p, moves);
    NoneRemaining(AfterMoves(d, p, moves).runs);
    AtMostFour(p.runs);
  }

  lemma {:induction false} AtMostFour(runs: seq<Stage>)
    ensures AllRemaining(runs) <= 4 * |runs|
  {
    if runs != [] {
      AtMostFour(runs[..|runs| - 1]);
    }
  }

  // ---- A run of a request that has arrived ----

  /** Nothing keeps a run from its dispatch. */
  predicate GoesOut(d: Deps) {
    d.Confident() && d.autonomy == UpToDispatch && d.Chosen().Some? && d.ordering != Unavailable
  }

  /** The deliveries one run attempts. */
  function DeliveriesPerRun(d: Deps): nat {
    if !GoesOut(d) then 0
    else Min(FirstWorking(d.env, ChosenPairs(d), 0) + 1, |ChosenPairs(d)|)
  }

  lemma SearchLength(env: Environment, row: Request)
    requires Repeatable(env)
    ensures var pairs := Pairs(env, PartnersOf(row));
            |Searched(env, row).attempts| == |row.attempts| + Min(FirstWorking(env, pairs, 0) + 1, |pairs|)
  {
    SameFirst(env, Pairs(env, PartnersOf(row)), |row.attempts|, 0);
  }

  /** Where a run comes to its dispatch, it does so with the partners of the match. */
  lemma ComesToDispatch(d: Deps, row: Request, t: RunTicks)
    requires Interrupted(d, row)
    ensures row.status != Assigned ==> (!StopsClassified(d, row, t) && Continues(d, row, t) <==> GoesOut(d))
    ensures FirstCommit(d, row, t).attempts == SecondCommit(d, row, t).attempts == row.attempts
    ensures row.status != Assigned && GoesOut(d) ==> Pairs(d.env, PartnersOf(SecondCommit(d, row, t))) == ChosenPairs(d)
  {
    FirstKeeps(d, row, t);
    var first := FirstCommit(d, row, t);
    assert first.category == Some(d.verdict.category);
    if CanAssign(first) {
      assert Match(first, d.Choice()) == d.Chosen();
    }
    if row.status != Assigned && GoesOut(d) {
      var m := d.Chosen().value;
      assert PartnersOf(SecondCommit(d, row, t))
          == PartnersOf(NEW_REQUEST.(partner := Some(m.partner), chain := m.chain));
    }
  }

  lemma StaysAssigned(d: Deps, row: Request, t: RunTicks)
    requires d.Valid() && Interrupted(d, row) && row.status == Assigned && d.autonomy != UpToDispatch
    ensures Final(d, row, t) == row
  {
  }

  lemma LastAttempts(d: Deps, row: Request, t: RunTicks)
    requires d.Valid() && Interrupted(d, row) && !StopsClassified(d, row, t) && Continues(d, row, t)
    ensures FourthCommit(d, row, t).attempts == Searched(d.env, ThirdCommit(d, row, t)).attempts
    ensures PartnersOf(ThirdCommit(d, row, t)) == PartnersOf(SecondCommit(d, row, t))
    ensures ThirdCommit(d, row, t).attempts == SecondCommit(d, row, t).attempts
  {
    ThirdKeeps(d, row, t);
    ExecutedCore(d.env, ThirdCommit(d, row, t), t.drain);
  }

  lemma RunAttempts(d: Deps, row: Request, t: RunTicks)
    requires d.Valid() && Repeatable(d.env)
    requires Interrupted(d, row)
    ensures row.status != Assigned || d.autonomy != UpToDispatch ==>
              |Final(d, row, t).attempts| == |row.attempts| + DeliveriesPerRun(d)
  {
    if row.status == Assigned {
      if d.autonomy != UpToDispatch {
        StaysAssigned(d, row, t);
      }
      return;
    }
    ComesToDispatch(d, row, t);
    if GoesOut(d) {
      LastAttempts(d, row, t);
      SearchLength(d.env, ThirdCommit(d, row, t));
    }
  }

  /** A dispatch never takes back a move. */
  lemma ExecutedHistory(env: Environment, row: Request, now: int)
    requires env.Valid()
    ensures |Executed(env, row, now).history| >= |row.history|
  {
  }

  lemma AssignedAgain(d: Deps, row: Request, t: RunTicks)
    requires Interrupted(d, row)
    ensures row.status in {Dispatched, FailedDispatch} && GoesOut(d) ==>
              |SecondCommit(d, row, t).history| == |row.history| + 2
  {
    if row.status in {Dispatched, FailedDispatch} && GoesOut(d) {
      assert FirstCommit(d, row, t) == row;
      assert CanAssign(row) && Match(row, d.Choice()) == d.Chosen();
    }
  }

  /** A request that went out is moved to MATCHING, ASSIGNED and DISPATCHED once more. */
  lemma GoesOutAgain(d: Deps, row: Request, t: RunTicks)
    requires d.Valid() && Interrupted(d, row)
    ensures row.status in {Dispatched, FailedDispatch} && GoesOut(d) ==>
              |Final(d, row, t).history| >= |row.history| + 3
  {
    if row.status in {Dispatched, FailedDispatch} && GoesOut(d) {
      ComesToDispatch(d, row, t);
      AssignedAgain(d, row, t);
      ExecutedHistory(d.env, ThirdCommit(d, row, t), t.drain);
    }
  }

  /** A run that stops before its dispatch does nothing to a request that has arrived. */
  lemma NothingToDo(d: Deps, row: Request, t: RunTicks)
    requires d.Valid() && Interrupted(d, row)
    ensures CoreOf(row) == Target(d) && !GoesOut(d) ==> Final(d, row, t) == row
  {
    if CoreOf(row) == Target(d) && !GoesOut(d) {
      assert FirstCommit(d, row, t) == row;
      if CanAssign(row) {
        assert Match(row, d.Choice()) == d.Chosen();
      }
      if !StopsClassified(d, row, t) {
        assert SecondCommit(d, row, t) == row;
      }
    }
  }

  /**
   * A run again is not a no-op.  It ends where the first one did, and changes nothing else exactly if
   * the request does not go out; one that went out is assigned and dispatched once more, and the
   * partners get every delivery of the first run again, if there was one.
   */
  lemma RerunDeliversAgain(d: Deps, t: RunTicks, again: RunTicks)
    requires d.Valid() && Repeatable(d.env)
    ensures var once := Final(d, NEW_REQUEST, t);
            var twice := Final(d, once, again);
            && CoreOf(twice) == CoreOf(once)
            && (twice == once <==> !GoesOut(d))
            && |twice.attempts| == 2 * |once.attempts|
            && (twice.attempts == once.attempts <==> !GoesOut(d) || ChosenPairs(d) == [])
  {
    RunAttempts(d, NEW_REQUEST, t);
    CompleteRun(d, NEW_REQUEST, t);
    RunAttempts(d, Final(d, NEW_REQUEST, t), again);
    CompleteRun(d, Final(d, NEW_REQUEST, t), again);
    GoesOutAgain(d, Final(d, NEW_REQUEST, t), again);
    NothingToDo(d, Final(d, NEW_REQUEST, t), again);
  }
}
