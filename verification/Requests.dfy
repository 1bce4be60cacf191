/**
 * The request row and the one helper that changes its status
 * (backend/src/api/requests/models.py, apply_transition in backend/src/api/requests/service.py).
 */
module Requests {
  import opened Fsm
  import opened Results
  import opened SlaEngine

  datatype Category = Cleaning | Moving | Repair | KeyDelivery | Other

  datatype Outcome = Sent | Delivered | Ack | Failed

  /** One delivery attempt.  Its idempotency key is the pair of the request and `number`. */
  datatype Attempt = Attempt(number: nat, channel: string, outcome: Outcome)

  /** The clock readings the successive transitions of one operation take. */
  datatype Ticks = Ticks(first: int, second: int, third: int, fourth: int)

  /** The value of a row, with the child rows that belong to it and the messages pending for it. */
  datatype Request = Request(
    status: Status,
    category: Option<Category>,
    partner: Option<string>,
    chain: seq<string>,
    channel: Option<string>,
    sla: Sla,
    dispatchedAt: Option<int>,
    acceptedAt: Option<int>,
    doneAt: Option<int>,
    acceptedByUserAt: Option<int>,
    paidAt: Option<int>,
    history: seq<Change>,
    attempts: seq<Attempt>,
    dispatchMessages: nat,
    fallbackMessages: nat)

  const NEW_REQUEST := Request(
    New, None, None, [], None, NO_SLA, None, None, None, None, None, [], [], 0, 0)

  class ServiceRequest {
    var status: Status
    var category: Option<Category>
    var partner: Option<string>
    var chain: seq<string>
    var channel: Option<string>
    var sla: Sla
    var dispatchedAt: Option<int>
    var acceptedAt: Option<int>
    var doneAt: Option<int>
    var acceptedByUserAt: Option<int>
    var paidAt: Option<int>
    var history: seq<Change>
    var attempts: seq<Attempt>
    var dispatchMessages: nat
    var fallbackMessages: nat

    constructor ()
      ensures Row() == NEW_REQUEST
    {
      status, category, partner, chain, channel := New, None, None, [], None;
      sla, dispatchedAt, acceptedAt, doneAt := NO_SLA, None, None, None;
      acceptedByUserAt, paidAt := None, None;
      history, attempts, dispatchMessages, fallbackMessages := [], [], 0, 0;
    }

    /** The object of a row read from the table. */
    constructor Loaded(row: Request)
      ensures Row() == row
    {
      status, category, partner, chain, channel := row.status, row.category, row.partner, row.chain, row.channel;
      sla, dispatchedAt, acceptedAt, doneAt := row.sla, row.dispatchedAt, row.acceptedAt, row.doneAt;
      acceptedByUserAt, paidAt := row.acceptedByUserAt, row.paidAt;
      history, attempts := row.history, row.attempts;
      dispatchMessages, fallbackMessages := row.dispatchMessages, row.fallbackMessages;
    }

    /** What a rollback leaves of the object: the row as it is stored. */
    method Reload(row: Request)
      modifies this
      ensures Row() == row
    {
      ReloadChildren(row);
      status, category, partner, chain, channel, sla :=
        row.status, row.category, row.partner, row.chain, row.channel, row.sla;
      dispatchedAt, acceptedAt, doneAt, acceptedByUserAt, paidAt :=
        row.dispatchedAt, row.acceptedAt, row.doneAt, row.acceptedByUserAt, row.paidAt;
    }

    method ReloadChildren(row: Request)
      modifies `history, `attempts, `dispatchMessages, `fallbackMessages
      ensures history == row.history && attempts == row.attempts
      ensures dispatchMessages == row.dispatchMessages && fallbackMessages == row.fallbackMessages
    {
      history, attempts, dispatchMessages, fallbackMessages :=
        row.history, row.attempts, row.dispatchMessages, row.fallbackMessages;
    }

    function Row(): Request
      reads this
    {
      Request(status, category, partner, chain, channel, sla, dispatchedAt, acceptedAt, doneAt,
              acceptedByUserAt, paidAt, history, attempts, dispatchMessages, fallbackMessages)
    }
  }

  /** The row with the milestone that entering a status sets, if it sets one. */
  function Stamped(row: Request, target: Status, at: int): Request {
    match target
    case Dispatched => row.(dispatchedAt := Some(at))
    case Accepted => row.(acceptedAt := Some(at))
    case Done => row.(doneAt := Some(at))
    case AcceptedByUser => row.(acceptedByUserAt := Some(at))
    case Paid => row.(paidAt := Some(at))
    case _ => row
  }

  /** The row after an allowed move: the new status, its milestone and one more history row. */
  function Moved(row: Request, target: Status, at: int): Request {
    Stamped(row.(status := target, history := row.history + [Change(row.status, target)]), target, at)
  }

  /** What a move promises: the status, one more history row, the milestone of the new status at that
      instant, and nothing else. */
  ghost predicate IsMove(row: Request, target: Status, at: int, after: Request) {
    && after.status == target && after.history == row.history + [Change(row.status, target)]
    && after.dispatchedAt == (if target == Dispatched then Some(at) else row.dispatchedAt)
    && after.acceptedAt == (if target == Accepted then Some(at) else row.acceptedAt)
    && after.doneAt == (if target == Done then Some(at) else row.doneAt)
    && after.acceptedByUserAt == (if target == AcceptedByUser then Some(at) else row.acceptedByUserAt)
    && after.paidAt == (if target == Paid then Some(at) else row.paidAt)
    && after.category == row.category && after.partner == row.partner && after.chain == row.chain
    && after.channel == row.channel && after.sla == row.sla && after.attempts == row.attempts
    && after.dispatchMessages == row.dispatchMessages && after.fallbackMessages == row.fallbackMessages
  }

  lemma MovesAsPromised(row: Request, target: Status, at: int)
    ensures IsMove(row, target, at, Moved(row, target, at))
  {
  }

  method Stamp(request: ServiceRequest, target: Status, now: int)
    modifies request
    ensures request.Row() == Stamped(old(request.Row()), target, now)
  {
    match target {
      case Dispatched => request.dispatchedAt := Some(now);
      case Accepted => request.acceptedAt := Some(now);
      case Done => request.doneAt := Some(now);
      case AcceptedByUser => request.acceptedByUserAt := Some(now);
      case Paid => request.paidAt := Some(now);
      case _ =>
    }
  }

  /** Change the status if the state machine allows it; otherwise (409) change nothing. */
  method ApplyTransition(request: ServiceRequest, target: Status, now: int) returns (ok: bool)
    modifies request
    ensures ok <==> CanTransition(old(request.status), target)
    ensures request.Row() == if ok then Moved(old(request.Row()), target, now) else old(request.Row())
    ensures ok ==> IsMove(old(request.Row()), target, now, request.Row())
  {
    MovesAsPromised(request.Row(), target, now);
    var previous := request.status;
    if !CanTransition(previous, target) {
      return false;
    }
    request.status := target;
    request.history := request.history + [Change(previous, target)];
    Stamp(request, target, now);
    return true;
  }
}
