/**
 * Classification and assignment of a request (ClassificationService and AssignmentService in
 * backend/src/api/requests/service.py), and the partner's answer (advance_partner_status in
 * backend/src/api/requests/partner.py).
 */
module Services {
  import opened Dispatching
  import opened Fsm
  import Matching
  import opened Requests
  import opened Results
  import opened SlaEngine

  // ---- Classification ----

  /** What the classifier answers. */
  datatype Verdict = Verdict(category: Category, confidence: real)

  predicate IsConfident(verdict: Verdict, threshold: real) {
    verdict.confidence >= threshold && verdict.category != Other
  }

  predicate CanClassify(row: Request) {
    row.status in {New, Classified, NeedsReview}
  }

  function Routed(row: Request, confident: bool, t: Ticks): Request {
    var primary := if row.status == New then Moved(Moved(row, Classifying, t.first), Classified, t.second) else row;
    if !confident && primary.status == Classified then Moved(primary, NeedsReview, t.third) else primary
  }

  function Classification(row: Request, verdict: Verdict, threshold: real, t: Ticks): Request {
    Routed(row.(category := Some(verdict.category)), IsConfident(verdict, threshold), t)
  }

  /** What a classification promises: the category, and the status that a confident verdict (enough
      confidence, and a category other than OTHER) or another one leads to. */
  ghost predicate IsClassified(row: Request, verdict: Verdict, threshold: real, ok: bool, after: Request) {
    var confident := verdict.confidence >= threshold && verdict.category != Other;
    && (ok <==> row.status in {New, Classified, NeedsReview})
    && (!ok ==> after == row)
    && (ok ==>
          var primary := if row.status == New then [Change(New, Classifying), Change(Classifying, Classified)] else [];
          var review := if !confident && row.status != NeedsReview then [Change(Classified, NeedsReview)] else [];
          after == row.(category := Some(verdict.category), history := row.history + primary + review,
                        status := if confident && row.status != NeedsReview then Classified else NeedsReview))
  }

  lemma ClassifiesAsPromised(row: Request, verdict: Verdict, threshold: real, t: Ticks)
    ensures CanClassify(row) ==>
              IsClassified(row, verdict, threshold, true, Classification(row, verdict, threshold, t))
  {
    if row.status == New {
      assert row.history + [Change(New, Classifying)] + [Change(Classifying, Classified)]
          == row.history + [Change(New, Classifying), Change(Classifying, Classified)];
    }
  }

  method RouteStatus(request: ServiceRequest, confident: bool, t: Ticks)
    modifies request
    ensures request.Row() == Routed(old(request.Row()), confident, t)
  {
    if request.status == New {
      var _ := ApplyTransition(request, Classifying, t.first);
      var _ := ApplyTransition(request, Classified, t.second);
    }
    if !confident && request.status == Classified {
      var _ := ApplyTransition(request, NeedsReview, t.third);
    }
  }

  method Classify(request: ServiceRequest, verdict: Verdict, threshold: real, t: Ticks) returns (ok: bool)
    modifies request
    ensures ok <==> CanClassify(old(request.Row()))
    ensures request.Row()
            == if ok then Classification(old(request.Row()), verdict, threshold, t) else old(request.Row())
    ensures IsClassified(old(request.Row()), verdict, threshold, ok, request.Row())
  {
    ClassifiesAsPromised(request.Row(), verdict, threshold, t);
    if request.status !in {New, Classified, NeedsReview} {
      return false;
    }
    request.category := Some(verdict.category);
    RouteStatus(request, IsConfident(verdict, threshold), t);
    return true;
  }

  lemma MovedPath(row: Request, target: Status, at: int)
    requires CanTransition(row.status, target)
    ensures row.history <= Moved(row, target, at).history
    ensures IsPath(row.history, New, row.status) ==> IsPath(Moved(row, target, at).history, New, target)
  {
    assert Moved(row, target, at).history == row.history + [Change(row.status, target)];
    if IsPath(row.history, New, row.status) {
      PathExtends(row.history, New, row.status, target);
    }
  }

  /** Whatever its verdict, a classification ends classified or up for review, by legal moves only. */
  lemma ClassificationRoutes(row: Request, verdict: Verdict, threshold: real, t: Ticks)
    requires CanClassify(row)
    ensures var after := Classification(row, verdict, threshold, t);
            && after.status == (if IsConfident(verdict, threshold) && row.status != NeedsReview
                                then Classified else NeedsReview)
            && row.history <= after.history
            && (IsPath(row.history, New, row.status) ==> IsPath(after.history, New, after.status))
  {
    if row.status == New {
      MovedPath(row, Classifying, t.first);
      var classifying := Moved(row, Classifying, t.first);
      MovedPath(classifying, Classified, t.second);
      MovedPath(Moved(classifying, Classified, t.second), NeedsReview, t.third);
    } else if row.status == Classified {
      MovedPath(row, NeedsReview, t.third);
    }
  }

  // ---- Assignment ----

  function CategoryValue(category: Category): string {
    match category
    case Cleaning => "CLEANING"
    case Moving => "MOVING"
    case Repair => "REPAIR"
    case KeyDelivery => "KEY_DELIVERY"
    case Other => "OTHER"
  }

  /** A partner named by the caller, or the registry's candidates to choose from. */
  datatype Choice = Manual(partner: string) | Auto(candidates: seq<Matching.Candidate>, area: Option<string>)

  /** Whether a service order must be created, and whether its neighbour answers. */
  datatype Ordering = NotRequired | Created | Unavailable

  /** `Conflict` is 409, `NoPartner` 422, `BadGateway` 502. */
  datatype AssignEnd = Done | Conflict | NoPartner | BadGateway

  predicate CanAssign(row: Request) {
    row.status in {Classified, NeedsReview, Status.Matching, Dispatched, FailedDispatch} && row.category.Some?
  }

  function Match(row: Request, choice: Choice): Option<Matching.MatchResult>
    requires row.category.Some? && choice.Auto?
  {
    Matching.Rank(choice.candidates, CategoryValue(row.category.value), choice.area)
  }

  function AssignEndOf(row: Request, choice: Choice, ordering: Ordering): AssignEnd {
    if !CanAssign(row) then Conflict
    else if choice.Auto? && Match(row, choice).None? then NoPartner
    else if ordering == Unavailable then BadGateway
    else AssignEnd.Done
  }

  function WithMatch(row: Request, m: Matching.MatchResult): Request {
    row.(partner := Some(m.partner), channel := Some(m.channel), chain := m.chain)
  }

  /** The row with the partner chosen but its status not yet moved. */
  function Chosen(row: Request, choice: Choice): Request
    requires CanAssign(row) && (choice.Auto? ==> Match(row, choice).Some?)
  {
    match choice
    case Manual(partner) => row.(partner := Some(partner), channel := None, chain := [])
    case Auto(_, _) =>
      WithMatch(row, Match(row, choice).value)
  }

  function ToAssigned(row: Request, t: Ticks): Request {
    var matching := if row.status == Status.Matching then row else Moved(row, Status.Matching, t.first);
    Moved(matching, Assigned, t.second)
  }

  /** The row `assign` leaves in the session, also where it raises. */
  function Assignment(row: Request, choice: Choice, ordering: Ordering, t: Ticks): Request {
    match AssignEndOf(row, choice, ordering)
    case Conflict | NoPartner => row
    case BadGateway => Chosen(row, choice)
    case Done => ToAssigned(Chosen(row, choice), t)
  }

  /** The names the registry knows the categories by. */
  ghost predicate IsName(category: Category, name: string) {
    || (category == Cleaning && name == "CLEANING")
    || (category == Moving && name == "MOVING")
    || (category == Repair && name == "REPAIR")
    || (category == KeyDelivery && name == "KEY_DELIVERY")
    || (category == Other && name == "OTHER")
  }

  /** The partner is the one named, with no channel and no chain, or the choice of the ranking. */
  ghost predicate IsChoice(row: Request, choice: Choice, after: Request) {
    match choice
    case Manual(partner) => after.partner == Some(partner) && after.channel == None && after.chain == []
    case Auto(candidates, area) =>
      && row.category.Some? && after.partner.Some? && after.channel.Some?
      && exists name, ranking :: IsName(row.category.value, name)
           && Matching.IsBest(candidates, name, area, ranking, after.partner.value, after.channel.value, after.chain)
  }

  ghost predicate IsAssignable(row: Request) {
    && row.category.Some?
    && match row.status
       case Classified | NeedsReview | Matching | Dispatched | FailedDispatch => true
       case _ => false
  }

  /** What an assignment promises: who gets the request, and the moves to ASSIGNED; and when it fails. */
  ghost predicate IsAssignment(row: Request, choice: Choice, ordering: Ordering, end: AssignEnd, after: Request) {
    && (end == Conflict <==> !IsAssignable(row))
    && (end == NoPartner <==> IsAssignable(row) && choice.Auto? && NobodySuits(row, choice))
    && (end == BadGateway <==>
          IsAssignable(row) && !(choice.Auto? && NobodySuits(row, choice)) && ordering == Unavailable)
    && (end in {Conflict, NoPartner} ==> after == row)
    && (end in {BadGateway, AssignEnd.Done} ==> IsChoice(row, choice, after))
    && (end == BadGateway ==>
          after == row.(partner := after.partner, channel := after.channel, chain := after.chain))
    && (end == AssignEnd.Done ==>
          var first := if row.status == Status.Matching then [] else [Change(row.status, Status.Matching)];
          after == row.(partner := after.partner, channel := after.channel, chain := after.chain,
                        status := Assigned, history := row.history + first + [Change(Status.Matching, Assigned)]))
  }

  ghost predicate NobodySuits(row: Request, choice: Choice)
    requires choice.Auto?
  {
    row.category.Some?
    && forall name, c :: IsName(row.category.value, name) && c in choice.candidates ==>
         !Matching.Suits(c, name, choice.area)
  }

  lemma ChoosesAsPromised(row: Request, choice: Choice)
    requires CanAssign(row) && (choice.Auto? ==> Match(row, choice).Some?)
    ensures IsChoice(row, choice, Chosen(row, choice))
  {
    if choice.Auto? {
      var name := CategoryValue(row.category.value);
      var m := Match(row, choice).value;
      Matching.RankIsBest(choice.candidates, name, choice.area);
      assert IsName(row.category.value, name);
    }
  }

  lemma NobodyExactly(row: Request, choice: Choice)
    requires CanAssign(row) && choice.Auto?
    ensures Match(row, choice).None? <==> NobodySuits(row, choice)
  {
    var name := CategoryValue(row.category.value);
    assert forall n :: IsName(row.category.value, n) <==> n == name;
    Matching.RankAnswers(choice.candidates, name, choice.area);
    forall c ensures Matching.IsEligible(c, name, choice.area) <==> Matching.Suits(c, name, choice.area) {
      Matching.SuitsExactly(c, name, choice.area);
    }
  }

  lemma AssignEndsAsPromised(row: Request, choice: Choice, ordering: Ordering)
    ensures var end := AssignEndOf(row, choice, ordering);
            && (end == Conflict <==> !IsAssignable(row))
            && (end == NoPartner <==> IsAssignable(row) && choice.Auto? && NobodySuits(row, choice))
            && (end == BadGateway <==>
                  IsAssignable(row) && !(choice.Auto? && NobodySuits(row, choice)) && ordering == Unavailable)
  {
    if CanAssign(row) && choice.Auto? {
      NobodyExactly(row, choice);
    }
  }

  /** From every row, with every choice and answer of the order service. */
  lemma AssignsAsPromised(row: Request, choice: Choice, ordering: Ordering, t: Ticks)
    ensures IsAssignment(row, choice, ordering, AssignEndOf(row, choice, ordering), Assignment(row, choice, ordering, t))
  {
    AssignEndsAsPromised(row, choice, ordering);
    if AssignEndOf(row, choice, ordering) in {BadGateway, AssignEnd.Done} {
      ChoosesAsPromised(row, choice);
      SameChoice(row, choice, Chosen(row, choice), Assignment(row, choice, ordering, t));
    }
  }

  lemma SameChoice(row: Request, choice: Choice, chosen: Request, after: Request)
    requires after.partner == chosen.partner && after.channel == chosen.channel && after.chain == chosen.chain
    ensures IsChoice(row, choice, chosen) ==> IsChoice(row, choice, after)
  {
  }

  method ApplyManual(request: ServiceRequest, partner: string)
    modifies request
    ensures request.Row() == old(request.Row()).(partner := Some(partner), channel := None, chain := [])
  {
    request.partner := Some(partner);
    request.channel := None;
    request.chain := [];
  }

  /** Rank the registry's candidates; without an eligible one nothing changes. */
  method ApplyAuto(request: ServiceRequest, candidates: seq<Matching.Candidate>, area: Option<string>)
    returns (ok: bool)
    requires request.category.Some?
    modifies request
    ensures var m := Match(old(request.Row()), Auto(candidates, area));
            && (ok <==> m.Some?)
            && request.Row() == if ok then WithMatch(old(request.Row()), m.value) else old(request.Row())
  {
    var result := Matching.Rank(candidates, CategoryValue(request.category.value), area);
    if result.None? {
      return false;
    }
    request.partner := Some(result.value.partner);
    request.channel := Some(result.value.channel);
    request.chain := result.value.chain;
    return true;
  }

  method RouteToAssigned(request: ServiceRequest, t: Ticks)
    requires CanAssign(request.Row())
    modifies request
    ensures request.Row() == ToAssigned(old(request.Row()), t)
  {
    if request.status != Status.Matching {
      var _ := ApplyTransition(request, Status.Matching, t.first);
    }
    var _ := ApplyTransition(request, Assigned, t.second);
  }

  method Assign(request: ServiceRequest, choice: Choice, ordering: Ordering, t: Ticks) returns (end: AssignEnd)
    modifies request
    ensures end == AssignEndOf(old(request.Row()), choice, ordering)
    ensures request.Row() == Assignment(old(request.Row()), choice, ordering, t)
  {
    if request.status !in {Classified, NeedsReview, Status.Matching, Dispatched, FailedDispatch} {
      return Conflict;
    }
    if request.category.None? {
      return Conflict;
    }
    match choice {
      case Manual(partner) =>
        ApplyManual(request, partner);
      case Auto(candidates, area) =>
        var ok := ApplyAuto(request, candidates, area);
        if !ok {
          return NoPartner;
        }
    }
    if ordering == Unavailable {
      return BadGateway;
    }
    RouteToAssigned(request, t);
    return AssignEnd.Done;
  }

  // ---- The partner's answer ----

  /** `UnknownStatus` is 422, `NotAllowed` 409; `OutOfReach` is the calendar's error. */
  datatype AdvanceEnd = Advanced | Unchanged | UnknownStatus | NotAllowed | OutOfReach

  function LowerChar(c: char): char {
    if 'A' <= c <= 'Z' then (c as int - 'A' as int + 'a' as int) as char else c
  }

  /** The lower case of the ASCII letters; no other letter has one that a known status contains. */
  function Lower(s: string): (r: string)
    ensures |r| == |s| && forall i :: 0 <= i < |s| ==> r[i] == LowerChar(s[i])
  {
    seq(|s|, i requires 0 <= i < |s| => LowerChar(s[i]))
  }

  function TargetOf(partnerStatus: string): Option<Status> {
    var status := Lower(partnerStatus);
    if status == "accepted" then Some(Accepted)
    else if status == "rejected" then Some(Status.Matching)
    else if status == "in_progress" then Some(InProgress)
    else if status == "done" then Some(Status.Done)
    else None
  }

  ghost function AdvanceEndOf(policy: SlaPolicy, row: Request, partnerStatus: string, now: int): AdvanceEnd
    requires policy.calendar.Valid()
  {
    var target := TargetOf(partnerStatus);
    if target.None? then UnknownStatus
    else if target.value == row.status then Unchanged
    else if !CanTransition(row.status, target.value) then NotAllowed
    else if target.value == Accepted && policy.Started(row.sla, Perform, now).Failure? then OutOfReach
    else Advanced
  }

  /** The row a partner's answer commits: nothing changes unless it advances the request. */
  ghost function Advance(policy: SlaPolicy, timeBased: bool, row: Request, partnerStatus: string, now: int): Request
    requires policy.calendar.Valid()
  {
    if AdvanceEndOf(policy, row, partnerStatus, now) != Advanced then row
    else
      var target := TargetOf(partnerStatus).value;
      var moved := Moved(row, target, now);
      if target == Accepted then moved.(sla := policy.Started(row.sla, Perform, now).value)
      else if target == Status.Matching && timeBased then moved.(fallbackMessages := row.fallbackMessages + 1)
      else moved
  }

  /** The two are the same word, the first in any case. */
  ghost predicate IsWord(s: string, word: string) {
    && |s| == |word|
    && forall i :: 0 <= i < |s| ==> s[i] == word[i] || ('A' <= s[i] <= 'Z' && s[i] as int + 32 == word[i] as int)
  }

  /** "accepted": from DISPATCHED, and the perform stage starts, or the calendar gives no deadline. */
  ghost predicate IsAccepted(policy: SlaPolicy, row: Request, now: int, end: AdvanceEnd, after: Request)
    requires policy.calendar.Valid()
  {
    match row.status
    case Accepted => end == Unchanged
    case Dispatched =>
      (match policy.calendar.Deadline(now, policy.performTicks)
       case Failure(_) => end == OutOfReach
       case Success(deadline) =>
         && end == Advanced && IsMove(row, Accepted, now, after.(sla := row.sla))
         && after.sla == row.sla.(performDeadline := Some(deadline), performStartedAt := Some(now),
                                  pauses := if row.sla.pauses.Missing? then Intervals([]) else row.sla.pauses))
    case _ => end == NotAllowed
  }

  /** "rejected": back to MATCHING, with one more fallback message if the automation is on. */
  ghost predicate IsRejected(timeBased: bool, row: Request, now: int, end: AdvanceEnd, after: Request) {
    match row.status
    case Matching => end == Unchanged
    case Classified | NeedsReview | Dispatched | FailedDispatch =>
      && end == Advanced && IsMove(row, Status.Matching, now, after.(fallbackMessages := row.fallbackMessages))
      && after.fallbackMessages == row.fallbackMessages + if timeBased then 1 else 0
    case _ => end == NotAllowed
  }

  /** "in_progress": from ACCEPTED. */
  ghost predicate IsBegun(row: Request, now: int, end: AdvanceEnd, after: Request) {
    match row.status
    case InProgress => end == Unchanged
    case Accepted => end == Advanced && IsMove(row, InProgress, now, after)
    case _ => end == NotAllowed
  }

  /** "done": from IN_PROGRESS. */
  ghost predicate IsFinished(row: Request, now: int, end: AdvanceEnd, after: Request) {
    match row.status
    case Done => end == Unchanged
    case InProgress => end == Advanced && IsMove(row, Status.Done, now, after)
    case _ => end == NotAllowed
  }

  /**
   * What a partner's answer promises, word by word: from which statuses it moves the request and where
   * to, with what it sets on the way; at its own status, nothing; elsewhere a refusal.
   */
  ghost predicate IsAnswer(policy: SlaPolicy, timeBased: bool, row: Request, answer: string, now: int,
                           end: AdvanceEnd, after: Request)
    requires policy.calendar.Valid()
  {
    && (end in {Unchanged, UnknownStatus, NotAllowed} ==> after == row)
    && (end == UnknownStatus <==>
          !IsWord(answer, "accepted") && !IsWord(answer, "rejected") && !IsWord(answer, "in_progress")
          && !IsWord(answer, "done"))
    && (IsWord(answer, "accepted") ==> IsAccepted(policy, row, now, end, after))
    && (IsWord(answer, "rejected") ==> IsRejected(timeBased, row, now, end, after))
    && (IsWord(answer, "in_progress") ==> IsBegun(row, now, end, after))
    && (IsWord(answer, "done") ==> IsFinished(row, now, end, after))
  }

  lemma WordExactly(s: string, word: string)
    requires forall i :: 0 <= i < |word| ==> !('A' <= word[i] <= 'Z')
    ensures IsWord(s, word) <==> Lower(s) == word
  {
  }

  lemma KnownWords(answer: string)
    ensures IsWord(answer, "accepted") <==> TargetOf(answer) == Some(Accepted)
    ensures IsWord(answer, "rejected") <==> TargetOf(answer) == Some(Status.Matching)
    ensures IsWord(answer, "in_progress") <==> TargetOf(answer) == Some(InProgress)
    ensures IsWord(answer, "done") <==> TargetOf(answer) == Some(Status.Done)
    ensures TargetOf(answer).Some? ==> TargetOf(answer).value in {Accepted, Status.Matching, InProgress, Status.Done}
  {
    WordExactly(answer, "accepted");
    WordExactly(answer, "rejected");
    WordExactly(answer, "in_progress");
    WordExactly(answer, "done");
  }

  lemma AcceptedAsPromised(policy: SlaPolicy, timeBased: bool, row: Request, answer: string, now: int)
    requires policy.calendar.Valid() && TargetOf(answer) == Some(Accepted)
    ensures IsAccepted(policy, row, now, AdvanceEndOf(policy, row, answer, now),
                       Advance(policy, timeBased, row, answer, now))
  {
    MovesAsPromised(row, Accepted, now);
  }

  lemma RejectedAsPromised(policy: SlaPolicy, timeBased: bool, row: Request, answer: string, now: int)
    requires policy.calendar.Valid() && TargetOf(answer) == Some(Status.Matching)
    ensures IsRejected(timeBased, row, now, AdvanceEndOf(policy, row, answer, now),
                       Advance(policy, timeBased, row, answer, now))
  {
    MovesAsPromised(row, Status.Matching, now);
  }

  lemma OthersAsPromised(policy: SlaPolicy, timeBased: bool, row: Request, answer: string, now: int)
    requires policy.calendar.Valid()
    ensures var end, after := AdvanceEndOf(policy, row, answer, now), Advance(policy, timeBased, row, answer, now);
            && (end in {Unchanged, UnknownStatus, NotAllowed} ==> after == row)
            && (end == UnknownStatus <==> TargetOf(answer).None?)
            && (TargetOf(answer) == Some(InProgress) ==> IsBegun(row, now, end, after))
            && (TargetOf(answer) == Some(Status.Done) ==> IsFinished(row, now, end, after))
  {
    MovesAsPromised(row, InProgress, now);
    MovesAsPromised(row, Status.Done, now);
  }

  lemma AnswersAsPromised(policy: SlaPolicy, timeBased: bool, row: Request, answer: string, now: int)
    requires policy.calendar.Valid()
    ensures IsAnswer(policy, timeBased, row, answer, now, AdvanceEndOf(policy, row, answer, now),
                     Advance(policy, timeBased, row, answer, now))
  {
    KnownWords(answer);
    OthersAsPromised(policy, timeBased, row, answer, now);
    if TargetOf(answer) == Some(Accepted) {
      AcceptedAsPromised(policy, timeBased, row, answer, now);
    } else if TargetOf(answer) == Some(Status.Matching) {
      RejectedAsPromised(policy, timeBased, row, answer, now);
    }
  }

  method AdvancePartnerStatus(policy: SlaPolicy, timeBased: bool, request: ServiceRequest, partnerStatus: string,
                              now: int)
    returns (end: AdvanceEnd)
    requires policy.calendar.Valid()
    modifies request
    ensures end == AdvanceEndOf(policy, old(request.Row()), partnerStatus, now)
    ensures request.Row() == if end == OutOfReach then Moved(old(request.Row()), Accepted, now)
                             else Advance(policy, timeBased, old(request.Row()), partnerStatus, now)
    ensures IsAnswer(policy, timeBased, old(request.Row()), partnerStatus, now, end, request.Row())
  {
    AnswersAsPromised(policy, timeBased, request.Row(), partnerStatus, now);
    var target := TargetOf(partnerStatus);
    if target.None? {
      return UnknownStatus;
    }
    if target.value == request.status {
      return Unchanged;
    }
    var ok := ApplyTransition(request, target.value, now);
    if !ok {
      return NotAllowed;
    }
    if target.value == Accepted {
      var sla := policy.SetPerformDeadline(request.sla, now);
      if sla.Failure? {
        return OutOfReach;
      }
      request.sla := sla.value.(performStartedAt := request.acceptedAt);
    } else if target.value == Status.Matching && timeBased {
      request.fallbackMessages := request.fallbackMessages + 1;
    }
    return Advanced;
  }

  /** Sending the same answer again changes nothing. */
  lemma AdvanceTwice(policy: SlaPolicy, timeBased: bool, row: Request, partnerStatus: string, now: int, later: int)
    requires policy.calendar.Valid() && AdvanceEndOf(policy, row, partnerStatus, now) in {Advanced, Unchanged}
    ensures var once := Advance(policy, timeBased, row, partnerStatus, now);
            AdvanceEndOf(policy, once, partnerStatus, later) == Unchanged
            && Advance(policy, timeBased, once, partnerStatus, later) == once
  {
  }
}
