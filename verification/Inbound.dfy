/**
 * Signed messages from partners (InboundService.handle_api in backend/src/api/channels/inbound.py),
 * on one channel, after the signature and the timestamp have been checked.
 */
module Inbound {
  import opened Requests
  import opened Results
  import opened Services
  import opened SlaEngine

  /** A parsed envelope; a blank estimate note reads as a missing one. */
  datatype Envelope = Envelope(
    requestRef: string,
    status: Option<string>,
    nonce: string,
    message: Option<string>,
    estimateAmount: Option<real>,
    estimateNote: Option<string>)

  datatype Estimate = Estimate(requestRef: string, amount: Option<real>, note: Option<string>, author: string)

  datatype Note = Note(requestRef: string, text: string, author: string)

  /** `NotFound` is 404; `Rejected` is what the partner's status ended with. */
  datatype Reply = Ok | Duplicate | NotFound | Rejected(end: AdvanceEnd)

  /** What a channel's messages may change. */
  datatype Board = Board(
    requests: map<string, Request>,
    estimates: seq<Estimate>,
    notes: seq<Note>,
    seen: set<string>)

  datatype Channel = Channel(collaborator: string, policy: SlaPolicy, timeBased: bool) {
    predicate Valid() {
      policy.calendar.Valid()
    }
  }

  ghost function StatusEnd(ch: Channel, board: Board, e: Envelope, now: int): AdvanceEnd
    requires ch.Valid() && e.requestRef in board.requests
  {
    if e.status.None? then Unchanged
    else AdvanceEndOf(ch.policy, board.requests[e.requestRef], e.status.value, now)
  }

  ghost function ReplyTo(ch: Channel, board: Board, e: Envelope, now: int): Reply
    requires ch.Valid()
  {
    if e.nonce in board.seen then Duplicate
    else if e.requestRef !in board.requests || board.requests[e.requestRef].partner != Some(ch.collaborator) then
      NotFound
    else if StatusEnd(ch, board, e, now) !in {Advanced, Unchanged} then Rejected(StatusEnd(ch, board, e, now))
    else Ok
  }

  /** The effects of an accepted envelope: the status, the estimate, the message and the nonce. */
  ghost function Accepted(ch: Channel, board: Board, e: Envelope, now: int): Board
    requires ch.Valid() && e.requestRef in board.requests
  {
    var row := board.requests[e.requestRef];
    var advanced := if e.status.None? then row else Advance(ch.policy, ch.timeBased, row, e.status.value, now);
    var estimates := if e.estimateAmount.Some? || e.estimateNote.Some?
                     then [Estimate(e.requestRef, e.estimateAmount, e.estimateNote, ch.collaborator)] else [];
    var notes := if e.message.Some? then [Note(e.requestRef, e.message.value, ch.collaborator)] else [];
    Board(board.requests[e.requestRef := advanced], board.estimates + estimates, board.notes + notes,
          board.seen + {e.nonce})
  }

  /** What one delivery commits: all effects or none. */
  ghost function Handled(ch: Channel, board: Board, e: Envelope, now: int): Board
    requires ch.Valid()
  {
    if ReplyTo(ch, board, e, now) == Ok then Accepted(ch, board, e, now) else board
  }

  /**
   * What one delivery promises: a known nonce is a duplicate; only the partner the request is assigned
   * to may speak of it; the answer, the estimate and the message take effect together with the nonce,
   * or nothing does.
   */
  ghost predicate IsHandled(ch: Channel, board: Board, e: Envelope, now: int, reply: Reply, after: Board)
    requires ch.Valid()
  {
    var known := e.requestRef in board.requests && board.requests[e.requestRef].partner == Some(ch.collaborator);
    && (reply == Duplicate <==> e.nonce in board.seen)
    && (reply == NotFound <==> e.nonce !in board.seen && !known)
    && (reply != Ok ==> after == board)
    && (reply.Rejected? ==>
          && known && e.status.Some? && reply.end in {UnknownStatus, NotAllowed, OutOfReach}
          && var row := board.requests[e.requestRef];
             IsAnswer(ch.policy, ch.timeBased, row, e.status.value, now, reply.end, row))
    && (reply == Ok ==> known && HasEffects(ch, board, e, now, after))
  }

  ghost predicate HasEffects(ch: Channel, board: Board, e: Envelope, now: int, after: Board)
    requires ch.Valid() && e.requestRef in board.requests
  {
    && after.seen == board.seen + {e.nonce}
    && after.requests.Keys == board.requests.Keys
    && (forall ref :: ref in board.requests && ref != e.requestRef ==> after.requests[ref] == board.requests[ref])
    && (e.status.None? ==> after.requests[e.requestRef] == board.requests[e.requestRef])
    && (e.status.Some? ==>
          exists end :: end in {Advanced, Unchanged}
            && IsAnswer(ch.policy, ch.timeBased, board.requests[e.requestRef], e.status.value, now, end,
                        after.requests[e.requestRef]))
    && after.estimates == board.estimates
         + (if e.estimateAmount.None? && e.estimateNote.None? then []
            else [Estimate(e.requestRef, e.estimateAmount, e.estimateNote, ch.collaborator)])
    && after.notes == board.notes
         + (if e.message.None? then [] else [Note(e.requestRef, e.message.value, ch.collaborator)])
  }

  lemma EffectsAsPromised(ch: Channel, board: Board, e: Envelope, now: int)
    requires ch.Valid() && ReplyTo(ch, board, e, now) == Ok
    ensures HasEffects(ch, board, e, now, Accepted(ch, board, e, now))
  {
    if e.status.Some? {
      var row := board.requests[e.requestRef];
      AnswersAsPromised(ch.policy, ch.timeBased, row, e.status.value, now);
      assert StatusEnd(ch, board, e, now) in {Advanced, Unchanged};
    }
  }

  /** From every state of the channel, for every envelope. */
  lemma HandlesAsPromised(ch: Channel, board: Board, e: Envelope, now: int)
    requires ch.Valid()
    ensures IsHandled(ch, board, e, now, ReplyTo(ch, board, e, now), Handled(ch, board, e, now))
  {
    match ReplyTo(ch, board, e, now)
    case Ok => EffectsAsPromised(ch, board, e, now);
    case Rejected(end) =>
      AnswersAsPromised(ch.policy, ch.timeBased, board.requests[e.requestRef], e.status.value, now);
    case _ =>
  }

  /** The partner's status on a copy of the stored row, for the caller to store or to drop. */
  method AdvanceCopy(ch: Channel, row: Request, word: string, now: int) returns (end: AdvanceEnd, after: Request)
    requires ch.Valid()
    ensures end == AdvanceEndOf(ch.policy, row, word, now)
    ensures end in {Advanced, Unchanged} ==> after == Advance(ch.policy, ch.timeBased, row, word, now)
  {
    var request := new ServiceRequest.Loaded(row);
    end := AdvancePartnerStatus(ch.policy, ch.timeBased, request, word, now);
    after := request.Row();
  }

  class InboundService {
    var requests: map<string, Request>
    var estimates: seq<Estimate>
    var notes: seq<Note>
    var seen: set<string>

    /** The service on what the database holds. */
    constructor (board: Board)
      ensures View() == board
    {
      requests, estimates, notes, seen := board.requests, board.estimates, board.notes, board.seen;
    }

    function View(): Board
      reads this
    {
      Board(requests, estimates, notes, seen)
    }

    /** Handle one envelope.  The request is worked on as a copy and stored with everything else, so
        that an error, which rolls the transaction back, leaves nothing. */
    method HandleApi(ch: Channel, e: Envelope, now: int) returns (reply: Reply)
      requires ch.Valid()
      modifies this
      ensures reply == ReplyTo(ch, old(View()), e, now)
      ensures View() == Handled(ch, old(View()), e, now)
      ensures IsHandled(ch, old(View()), e, now, reply, View())
    {
      HandlesAsPromised(ch, View(), e, now);
      if e.nonce in seen {
        return Duplicate;
      }
      if e.requestRef !in requests || requests[e.requestRef].partner != Some(ch.collaborator) {
        return NotFound;
      }
      var row := requests[e.requestRef];
      if e.status.Some? {
        var end, after := AdvanceCopy(ch, row, e.status.value, now);
        if end !in {Advanced, Unchanged} {
          return Rejected(end);
        }
        row := after;
      }
      requests := requests[e.requestRef := row];
      if e.estimateAmount.Some? || e.estimateNote.Some? {
        estimates := estimates + [Estimate(e.requestRef, e.estimateAmount, e.estimateNote, ch.collaborator)];
      }
      if e.message.Some? {
        notes := notes + [Note(e.requestRef, e.message.value, ch.collaborator)];
      }
      seen := seen + {e.nonce};
      return Ok;
    }
  }

  // ---- Replays ----

  datatype Delivery = Delivery(envelope: Envelope, now: int)

  ghost function AfterAll(ch: Channel, board: Board, ds: seq<Delivery>): Board
    requires ch.Valid()
  {
    if ds == [] then board
    else
      var n := |ds| - 1;
      Handled(ch, AfterAll(ch, board, ds[..n]), ds[n].envelope, ds[n].now)
  }

  /** The deliveries without those that repeat a nonce already answered "ok". */
  ghost function WithoutReplays(ch: Channel, board: Board, ds: seq<Delivery>): seq<Delivery>
    requires ch.Valid()
  {
    if ds == [] then []
    else
      var n := |ds| - 1;
      WithoutReplays(ch, board, ds[..n])
      + if IsReplay(ch, board, ds, n) then [] else [ds[n]]
  }

  /** The nonce of the `n`-th delivery was answered "ok" before. */
  ghost predicate IsReplay(ch: Channel, board: Board, ds: seq<Delivery>, n: nat)
    requires ch.Valid() && n < |ds|
  {
    exists i :: 0 <= i < n && ds[i].envelope.nonce == ds[n].envelope.nonce && WasOk(ch, board, ds, i)
  }

  /** The `i`-th delivery was answered "ok". */
  ghost predicate WasOk(ch: Channel, board: Board, ds: seq<Delivery>, i: nat)
    requires ch.Valid() && i < |ds|
  {
    ReplyTo(ch, AfterAll(ch, board, ds[..i]), ds[i].envelope, ds[i].now) == Ok
  }

  lemma {:induction false} SeenIsOk(ch: Channel, board: Board, ds: seq<Delivery>, n: nat, nonce: string)
    requires ch.Valid() && n <= |ds|
    ensures nonce in AfterAll(ch, board, ds[..n]).seen
            <==> nonce in board.seen
                 || exists i :: 0 <= i < n && ds[i].envelope.nonce == nonce && WasOk(ch, board, ds, i)
  {
    if n > 0 {
      SeenIsOk(ch, board, ds, n - 1, nonce);
      assert ds[..n][..n - 1] == ds[..n - 1];
      var before := AfterAll(ch, board, ds[..n - 1]);
      assert AfterAll(ch, board, ds[..n]) == Handled(ch, before, ds[n - 1].envelope, ds[n - 1].now);
      if WasOk(ch, board, ds, n - 1) && ds[n - 1].envelope.nonce == nonce {
        assert nonce in AfterAll(ch, board, ds[..n]).seen;
      }
    }
  }

  /**
   * Replays change nothing.  The requests, estimates, messages and nonces after any sequence of
   * deliveries are those after the sequence without the repeats of nonces already answered "ok".
   */
  lemma {:induction false} ReplaysChangeNothing(ch: Channel, board: Board, ds: seq<Delivery>)
    requires ch.Valid()
    ensures AfterAll(ch, board, ds) == AfterAll(ch, board, WithoutReplays(ch, board, ds))
  {
    if ds != [] {
      var n := |ds| - 1;
      ReplaysChangeNothing(ch, board, ds[..n]);
      SeenIsOk(ch, board, ds, n, ds[n].envelope.nonce);
      if IsReplay(ch, board, ds, n) {
        assert ReplyTo(ch, AfterAll(ch, board, ds[..n]), ds[n].envelope, ds[n].now) == Duplicate;
        assert WithoutReplays(ch, board, ds) == WithoutReplays(ch, board, ds[..n]);
      } else {
        assert WithoutReplays(ch, board, ds) == WithoutReplays(ch, board, ds[..n]) + [ds[n]];
        CommitOne(ch, board, WithoutReplays(ch, board, ds[..n]), ds[n]);
      }
    }
  }

  lemma CommitOne(ch: Channel, start: Board, order: seq<Delivery>, d: Delivery)
    requires ch.Valid()
    ensures AfterAll(ch, start, order + [d]) == Handled(ch, AfterAll(ch, start, order), d.envelope, d.now)
  {
    assert (order + [d])[..|order|] == order;
  }

  // ---- Interleaved deliveries ----

  /** A delivery has yet to check its nonce, has checked it in vain, or is over. */
  datatype Phase = Arrived | Checked | Over(committed: bool)

  /** A commit: which delivery, and when. */
  datatype Commit = Commit(i: nat, now: int)

  /** `order` lists the commits in their order. */
  datatype Traffic = Traffic(board: Board, phases: seq<Phase>, order: seq<Commit>)

  datatype Step = Check(i: nat) | Finish(i: nat, now: int)

  ghost predicate Enabled(t: Traffic, step: Step) {
    && step.i < |t.phases|
    && t.phases[step.i] == if step.Check? then Arrived else Checked
  }

  /**
   * A check reads the committed nonces.  A finish takes the request's row lock, which it keeps to its
   * commit, and inserts the nonce; the unique index refuses it if another delivery got there first.
   */
  ghost function After(ch: Channel, t: Traffic, es: seq<Envelope>, step: Step): Traffic
    requires ch.Valid() && |es| == |t.phases| && Enabled(t, step)
  {
    var e := es[step.i];
    match step
    case Check(i) =>
      t.(phases := t.phases[i := if e.nonce in t.board.seen then Over(false) else Checked])
    case Finish(i, now) =>
      if e.nonce in t.board.seen || ReplyTo(ch, t.board, e, now) != Ok then
        t.(phases := t.phases[i := Over(false)])
      else
        Traffic(Accepted(ch, t.board, e, now), t.phases[i := Over(true)], t.order + [Commit(i, now)])
  }

  ghost predicate IsRun(ch: Channel, t: Traffic, es: seq<Envelope>, steps: seq<Step>)
    requires ch.Valid() && |es| == |t.phases|
    decreases |steps|
  {
    steps != [] ==> Enabled(t, steps[0]) && IsRun(ch, After(ch, t, es, steps[0]), es, steps[1..])
  }

  ghost function Run(ch: Channel, t: Traffic, es: seq<Envelope>, steps: seq<Step>): Traffic
    requires ch.Valid() && |es| == |t.phases| && IsRun(ch, t, es, steps)
    decreases |steps|
  {
    if steps == [] then t else Run(ch, After(ch, t, es, steps[0]), es, steps[1..])
  }

  ghost predicate AreOf(order: seq<Commit>, es: seq<Envelope>) {
    forall k :: 0 <= k < |order| ==> order[k].i < |es|
  }

  /** The committed deliveries, one after the other. */
  ghost function Deliveries(es: seq<Envelope>, order: seq<Commit>): seq<Delivery>
    requires AreOf(order, es)
  {
    seq(|order|, k requires 0 <= k < |order| => Delivery(es[order[k].i], order[k].now))
  }

  /** `order` lists exactly the deliveries that have committed, each once. */
  ghost predicate ListsCommitted(t: Traffic) {
    && (forall k :: 0 <= k < |t.order| ==> t.order[k].i < |t.phases| && t.phases[t.order[k].i] == Over(true))
    && (forall k, l :: 0 <= k < l < |t.order| ==> t.order[k].i != t.order[l].i)
    && (forall i :: 0 <= i < |t.phases| && t.phases[i] == Over(true) ==> exists k :: IsCommitOf(t, k, i))
  }

  ghost predicate IsCommitOf(t: Traffic, k: int, i: int) {
    0 <= k < |t.order| && t.order[k].i == i
  }

  ghost predicate Serial(ch: Channel, start: Board, t: Traffic, es: seq<Envelope>)
    requires ch.Valid()
  {
    && |es| == |t.phases|
    && ListsCommitted(t)
    && t.board == AfterAll(ch, start, Deliveries(es, t.order)) && start.seen <= t.board.seen
    && (forall i :: 0 <= i < |es| && t.phases[i] == Over(true) ==>
          es[i].nonce in t.board.seen && es[i].nonce !in start.seen)
    && (forall i, j :: 0 <= i < j < |es| && t.phases[i] == Over(true) && t.phases[j] == Over(true) ==>
          es[i].nonce != es[j].nonce)
  }

  lemma OneMoreListed(t: Traffic, after: Traffic, i: nat, now: int)
    requires ListsCommitted(t) && i < |t.phases| && t.phases[i] == Checked
    requires after.phases == t.phases[i := Over(true)] && after.order == t.order + [Commit(i, now)]
    ensures ListsCommitted(after)
  {
    forall j | 0 <= j < |after.phases| && after.phases[j] == Over(true) ensures exists k :: IsCommitOf(after, k, j) {
      if j == i {
        assert IsCommitOf(after, |t.order|, j);
      } else {
        var k :| IsCommitOf(t, k, j);
        assert IsCommitOf(after, k, j);
      }
    }
  }

  lemma NoMoreListed(t: Traffic, after: Traffic, i: nat)
    requires ListsCommitted(t) && i < |t.phases| && t.phases[i] in {Arrived, Checked}
    requires after.order == t.order && after.phases in {t.phases[i := Checked], t.phases[i := Over(false)]}
    ensures ListsCommitted(after)
  {
    forall j | 0 <= j < |after.phases| && after.phases[j] == Over(true) ensures exists k :: IsCommitOf(after, k, j) {
      var k :| IsCommitOf(t, k, j);
      assert IsCommitOf(after, k, j);
    }
  }

  lemma Committing(ch: Channel, start: Board, t: Traffic, es: seq<Envelope>, i: nat, now: int)
    requires ch.Valid() && Serial(ch, start, t, es) && i < |es|
    ensures AfterAll(ch, start, Deliveries(es, t.order + [Commit(i, now)])) == Handled(ch, t.board, es[i], now)
  {
    assert Deliveries(es, t.order + [Commit(i, now)]) == Deliveries(es, t.order) + [Delivery(es[i], now)];
    CommitOne(ch, start, Deliveries(es, t.order), Delivery(es[i], now));
  }

  lemma NotCommitting(ch: Channel, start: Board, t: Traffic, es: seq<Envelope>, i: nat, phase: Phase)
    requires ch.Valid() && Serial(ch, start, t, es) && i < |es|
    requires t.phases[i] in {Arrived, Checked} && phase in {Checked, Over(false)}
    ensures Serial(ch, start, t.(phases := t.phases[i := phase]), es)
  {
    NoMoreListed(t, t.(phases := t.phases[i := phase]), i);
  }

  lemma CommitKeeps(ch: Channel, start: Board, t: Traffic, es: seq<Envelope>, i: nat, now: int)
    requires ch.Valid() && Serial(ch, start, t, es) && i < |es| && t.phases[i] == Checked
    requires ReplyTo(ch, t.board, es[i], now) == Ok
    ensures var after := Traffic(Handled(ch, t.board, es[i], now), t.phases[i := Over(true)],
                                 t.order + [Commit(i, now)]);
            Serial(ch, start, after, es)
  {
    var board := Handled(ch, t.board, es[i], now);
    assert board.seen == t.board.seen + {es[i].nonce} && es[i].nonce !in t.board.seen;
    OneMoreListed(t, Traffic(board, t.phases[i := Over(true)], t.order + [Commit(i, now)]), i, now);
    Committing(ch, start, t, es, i, now);
  }

  lemma StepKeeps(ch: Channel, start: Board, t: Traffic, es: seq<Envelope>, step: Step)
    requires ch.Valid() && Serial(ch, start, t, es) && Enabled(t, step)
    ensures Serial(ch, start, After(ch, t, es, step), es)
  {
    var after := After(ch, t, es, step);
    if after.order == t.order {
      NotCommitting(ch, start, t, es, step.i, after.phases[step.i]);
    } else {
      CommitKeeps(ch, start, t, es, step.i, step.now);
    }
  }

  lemma {:induction false} RunKeeps(ch: Channel, start: Board, t: Traffic, es: seq<Envelope>, steps: seq<Step>)
    requires ch.Valid() && Serial(ch, start, t, es) && IsRun(ch, t, es, steps)
    ensures Serial(ch, start, Run(ch, t, es, steps), es)
    decreases |steps|
  {
    if steps != [] {
      StepKeeps(ch, start, t, es, steps[0]);
      RunKeeps(ch, start, After(ch, t, es, steps[0]), es, steps[1..]);
    }
  }

  /**
   * Interleaved deliveries are as if one after the other: whatever the interleaving, the outcome is
   * that of handling the committed ones in the order of their commits; none of them repeats a nonce
   * known before, and of several deliveries of one nonce at most one commits.
   */
  lemma InterleavingsAreSerial(ch: Channel, start: Board, es: seq<Envelope>, steps: seq<Step>)
    requires ch.Valid()
    requires IsRun(ch, Traffic(start, seq(|es|, _ => Arrived), []), es, steps)
    ensures var t := Run(ch, Traffic(start, seq(|es|, _ => Arrived), []), es, steps);
            && |t.phases| == |es|
            && ListsCommitted(t)
            && t.board == AfterAll(ch, start, Deliveries(es, t.order))
            && (forall i :: 0 <= i < |es| && t.phases[i] == Over(true) ==> es[i].nonce !in start.seen)
            && (forall i, j :: 0 <= i < j < |es| && t.phases[i] == Over(true) && t.phases[j] == Over(true) ==>
                  es[i].nonce != es[j].nonce)
  {
    RunKeeps(ch, start, Traffic(start, seq(|es|, _ => Arrived), []), es, steps);
  }
}
