/** The state machine of a request (backend/src/api/requests/fsm.py). */
module Fsm {

  datatype Status =
    | New
    | Classifying
    | Classified
    | NeedsReview
    | Matching
    | Assigned
    | Dispatched
    | FailedDispatch
    | Accepted
    | InProgress
    | Done
    | AcceptedByUser
    | Dispute
    | Paid
    | Cancelled
    | Rejected

  const STATUSES: seq<Status> := [
    New, Classifying, Classified, NeedsReview, Matching, Assigned, Dispatched, FailedDispatch,
    Accepted, InProgress, Done, AcceptedByUser, Dispute, Paid, Cancelled, Rejected]

  const TERMINAL: set<Status> := {Paid, Cancelled, Rejected}

  /** The edges of the diagram; the edge to `Cancelled` is added by `BuildAllowed`. */
  function BaseTransitions(source: Status): set<Status> {
    match source
    case New => {Classifying}
    case Classifying => {Classified}
    case Classified => {Matching, NeedsReview}
    case NeedsReview => {Matching}
    case Matching => {Assigned}
    case Assigned => {Dispatched}
    case Dispatched => {Accepted, Matching, FailedDispatch}
    case FailedDispatch => {Matching}
    case Accepted => {InProgress}
    case InProgress => {Done}
    case Done => {AcceptedByUser, Dispute}
    case AcceptedByUser => {Paid, Dispute}
    case Dispute => {Rejected}
    case Paid | Cancelled | Rejected => {}
  }

  predicate CanTransition(source: Status, target: Status) {
    match target
    case New => false
    case Classifying => source == New
    case Classified => source == Classifying
    case NeedsReview => source == Classified
    case Matching => source in {Classified, NeedsReview, Dispatched, FailedDispatch}
    case Assigned => source == Matching
    case Dispatched => source == Assigned
    case FailedDispatch => source == Dispatched
    case Accepted => source == Dispatched
    case InProgress => source == Accepted
    case Done => source == InProgress
    case AcceptedByUser => source == Done
    case Dispute => source in {Done, AcceptedByUser}
    case Paid => source == AcceptedByUser
    case Cancelled => source !in {Paid, Cancelled, Rejected}
    case Rejected => source == Dispute
  }

  /** Filling the table: it has an entry for every status, and the entry holds exactly the targets
      one may move to. */
  method BuildAllowed() returns (allowed: map<Status, set<Status>>)
    ensures forall source :: source in allowed
    ensures forall source, target :: target in allowed[source] <==> CanTransition(source, target)
  {
    allowed := map[];
    for i := 0 to |STATUSES|
      invariant forall source :: source in allowed <==> source in STATUSES[..i]
      invariant forall source, target ::
          source in allowed ==> (target in allowed[source] <==> CanTransition(source, target))
    {
      var source := STATUSES[i];
      var targets := BaseTransitions(source);
      if source !in TERMINAL {
        targets := targets + {Cancelled};
      }
      forall target ensures target in targets <==> CanTransition(source, target) {
        OneEntry(source, target);
      }
      assert STATUSES[..i + 1] == STATUSES[..i] + [source];
      allowed := allowed[source := targets];
    }
    forall source: Status ensures source in allowed {
      EveryStatusListed(source);
      assert STATUSES[..|STATUSES|] == STATUSES;
    }
  }

  lemma OneEntry(source: Status, target: Status)
    ensures target in BaseTransitions(source) || (source !in TERMINAL && target == Cancelled)
            <==> CanTransition(source, target)
  {
  }

  /** The way of a request that nothing delays. */
  const MAIN_LINE: seq<Status> := [
    New, Classifying, Classified, Matching, Assigned, Dispatched, Accepted, InProgress, Done, AcceptedByUser, Paid]

  /** The branches of the diagram, and the edge to `Rejected`, which the diagram leaves out. */
  const BRANCHES: set<(Status, Status)> := {
    (Classified, NeedsReview), (NeedsReview, Matching), (Dispatched, Matching), (Dispatched, FailedDispatch),
    (FailedDispatch, Matching), (Done, Dispute), (AcceptedByUser, Dispute), (Dispute, Rejected)}

  /** The next status on the main line, if there is one. */
  ghost predicate IsNext(source: Status, target: Status) {
    exists i :: 0 <= i < |MAIN_LINE| - 1 && MAIN_LINE[i] == source && MAIN_LINE[i + 1] == target
  }

  lemma NextIsAllowed(source: Status, target: Status)
    requires IsNext(source, target)
    ensures CanTransition(source, target)
  {
    var i :| 0 <= i < |MAIN_LINE| - 1 && MAIN_LINE[i] == source && MAIN_LINE[i + 1] == target;
    if
    case i == 0 => assert source == New && target == Classifying;
    case i == 1 => assert source == Classifying && target == Classified;
    case i == 2 => assert source == Classified && target == Matching;
    case i == 3 => assert source == Matching && target == Assigned;
    case i == 4 => assert source == Assigned && target == Dispatched;
    case i == 5 => assert source == Dispatched && target == Accepted;
    case i == 6 => assert source == Accepted && target == InProgress;
    case i == 7 => assert source == InProgress && target == Done;
    case i == 8 => assert source == Done && target == AcceptedByUser;
    case i == 9 => assert source == AcceptedByUser && target == Paid;
  }

  lemma AllowedIsNext(source: Status, target: Status)
    requires CanTransition(source, target) && target != Cancelled && (source, target) !in BRANCHES
    ensures IsNext(source, target)
  {
    match source
    case New => assert MAIN_LINE[0] == source && MAIN_LINE[1] == target;
    case Classifying => assert MAIN_LINE[1] == source && MAIN_LINE[2] == target;
    case Classified => assert MAIN_LINE[2] == source && MAIN_LINE[3] == target;
    case Matching => assert MAIN_LINE[3] == source && MAIN_LINE[4] == target;
    case Assigned => assert MAIN_LINE[4] == source && MAIN_LINE[5] == target;
    case Dispatched => assert MAIN_LINE[5] == source && MAIN_LINE[6] == target;
    case Accepted => assert MAIN_LINE[6] == source && MAIN_LINE[7] == target;
    case InProgress => assert MAIN_LINE[7] == source && MAIN_LINE[8] == target;
    case Done => assert MAIN_LINE[8] == source && MAIN_LINE[9] == target;
    case AcceptedByUser => assert MAIN_LINE[9] == source && MAIN_LINE[10] == target;
    case _ =>
  }

  /** The moves allowed are the steps of the main line, the branches, and the cancellation of whatever is
      not final. */
  lemma AsDrawn(source: Status, target: Status)
    ensures CanTransition(source, target)
            <==> IsNext(source, target) || (source, target) in BRANCHES
                 || (target == Cancelled && source !in {Paid, Cancelled, Rejected})
  {
    if IsNext(source, target) {
      NextIsAllowed(source, target);
    } else if CanTransition(source, target) && target != Cancelled && (source, target) !in BRANCHES {
      AllowedIsNext(source, target);
    }
  }

  lemma EveryStatusListed(status: Status)
    ensures status in STATUSES
  {
    match status
    case New => assert STATUSES[0] == status;
    case Classifying => assert STATUSES[1] == status;
    case Classified => assert STATUSES[2] == status;
    case NeedsReview => assert STATUSES[3] == status;
    case Matching => assert STATUSES[4] == status;
    case Assigned => assert STATUSES[5] == status;
    case Dispatched => assert STATUSES[6] == status;
    case FailedDispatch => assert STATUSES[7] == status;
    case Accepted => assert STATUSES[8] == status;
    case InProgress => assert STATUSES[9] == status;
    case Done => assert STATUSES[10] == status;
    case AcceptedByUser => assert STATUSES[11] == status;
    case Dispute => assert STATUSES[12] == status;
    case Paid => assert STATUSES[13] == status;
    case Cancelled => assert STATUSES[14] == status;
    case Rejected => assert STATUSES[15] == status;
  }

  // ---- Paths ----

  /** One STATUS_CHANGED row of the history. */
  datatype Change = Change(source: Status, target: Status)

  /** The rows are allowed moves, each starting where the one before ended. */
  ghost predicate IsPath(history: seq<Change>, start: Status, end: Status) {
    if history == [] then start == end
    else
      var last := history[|history| - 1];
      && last.target == end
      && CanTransition(last.source, last.target)
      && IsPath(history[..|history| - 1], start, last.source)
  }

  /** How often the path enters `Matching`. */
  ghost function Entries(history: seq<Change>): nat {
    if history == [] then 0
    else Entries(history[..|history| - 1]) + if history[|history| - 1].target == Matching then 1 else 0
  }

  /** The most moves a path can have made since it last entered `Matching`, or since it began. */
  function Depth(status: Status): nat {
    match status
    case New => 0
    case Classifying => 1
    case Classified => 2
    case NeedsReview => 3
    case Matching => 0
    case Assigned => 1
    case Dispatched => 2
    case FailedDispatch => 3
    case Accepted => 3
    case InProgress => 4
    case Done => 5
    case AcceptedByUser => 6
    case Dispute => 7
    case Paid => 7
    case Cancelled => 8
    case Rejected => 8
  }

  lemma {:induction false} PathLength(history: seq<Change>, end: Status)
    requires IsPath(history, New, end)
    ensures |history| <= 4 * Entries(history) + Depth(end) <= 4 * Entries(history) + 8
  {
    if history != [] {
      PathLength(history[..|history| - 1], history[|history| - 1].source);
    }
  }

  lemma PathExtends(history: seq<Change>, start: Status, end: Status, target: Status)
    requires IsPath(history, start, end) && CanTransition(end, target)
    ensures IsPath(history + [Change(end, target)], start, target)
    ensures Entries(history + [Change(end, target)]) == Entries(history) + if target == Matching then 1 else 0
  {
    assert (history + [Change(end, target)])[..|history|] == history;
  }

  /** The longest way through `k` rounds of matching, each but the last failing to dispatch. */
  ghost function Longest(k: nat): seq<Change> {
    if k == 0 then
      [Change(New, Classifying), Change(Classifying, Classified), Change(Classified, NeedsReview)]
    else
      Longest(k - 1)
      + [Change(if k == 1 then NeedsReview else FailedDispatch, Matching), Change(Matching, Assigned),
         Change(Assigned, Dispatched)]
      + [Change(Dispatched, FailedDispatch)]
  }

  lemma LongestStart()
    ensures IsPath(Longest(0), New, NeedsReview) && Entries(Longest(0)) == 0
  {
    var a := [Change(New, Classifying)];
    var b := a + [Change(Classifying, Classified)];
    PathExtends([], New, New, Classifying);
    assert [] + a == a;
    PathExtends(a, New, Classifying, Classified);
    PathExtends(b, New, Classified, NeedsReview);
    assert Longest(0) == b + [Change(Classified, NeedsReview)];
  }

  lemma OneRound(h0: seq<Change>, source: Status)
    requires IsPath(h0, New, source) && CanTransition(source, Matching)
    ensures var h := h0 + [Change(source, Matching), Change(Matching, Assigned), Change(Assigned, Dispatched)];
            && IsPath(h, New, Dispatched) && Entries(h) == Entries(h0) + 1
            && IsPath(h + [Change(Dispatched, FailedDispatch)], New, FailedDispatch)
            && Entries(h + [Change(Dispatched, FailedDispatch)]) == Entries(h0) + 1
  {
    var h1 := h0 + [Change(source, Matching)];
    var h2 := h1 + [Change(Matching, Assigned)];
    var h3 := h2 + [Change(Assigned, Dispatched)];
    PathExtends(h0, New, source, Matching);
    PathExtends(h1, New, Matching, Assigned);
    PathExtends(h2, New, Assigned, Dispatched);
    PathExtends(h3, New, Dispatched, FailedDispatch);
    assert h3 == h0 + [Change(source, Matching), Change(Matching, Assigned), Change(Assigned, Dispatched)];
  }

  lemma {:induction false} LongestIsPath(k: nat)
    ensures IsPath(Longest(k), New, if k == 0 then NeedsReview else FailedDispatch)
    ensures Entries(Longest(k)) == k && |Longest(k)| == 4 * k + 3
  {
    if k == 0 {
      LongestStart();
    } else {
      LongestIsPath(k - 1);
      OneRound(Longest(k - 1), if k == 1 then NeedsReview else FailedDispatch);
    }
  }

  /** From a dispatch through acceptance and dispute to the rejection of the claim. */
  lemma Closing(h0: seq<Change>) returns (h: seq<Change>)
    requires IsPath(h0, New, Dispatched)
    ensures IsPath(h, New, Rejected) && Entries(h) == Entries(h0) && |h| == |h0| + 6
  {
    PathExtends(h0, New, Dispatched, Accepted);
    h := h0 + [Change(Dispatched, Accepted)];
    PathExtends(h, New, Accepted, InProgress);
    h := h + [Change(Accepted, InProgress)];
    PathExtends(h, New, InProgress, Done);
    h := h + [Change(InProgress, Done)];
    PathExtends(h, New, Done, AcceptedByUser);
    h := h + [Change(Done, AcceptedByUser)];
    PathExtends(h, New, AcceptedByUser, Dispute);
    h := h + [Change(AcceptedByUser, Dispute)];
    PathExtends(h, New, Dispute, Rejected);
    h := h + [Change(Dispute, Rejected)];
  }

  /** The bound of `PathLength` is met for every number of rounds but none. */
  lemma BoundIsMet(k: nat) returns (history: seq<Change>)
    requires k > 0
    ensures IsPath(history, New, Rejected) && Entries(history) == k && |history| == 4 * k + 8
  {
    LongestIsPath(k - 1);
    var end := if k == 1 then NeedsReview else FailedDispatch;
    OneRound(Longest(k - 1), end);
    history := Closing(
      Longest(k - 1) + [Change(end, Matching), Change(Matching, Assigned), Change(Assigned, Dispatched)]);
  }
}
