/**
 * The transactional outbox (backend/src/api/outbox/repository.py) and the loop that drains it
 * (backend/src/api/webhooks/drainer.py).  Instants and delays are microseconds.
 */
module Outbox {
  import opened Results

  datatype MessageStatus = Pending | Processing | Done | Failed

  datatype Message = Message(
    kind: string,
    status: MessageStatus,
    attempts: nat,
    availableAt: int,
    processedAt: Option<int>,
    lastError: Option<string>)

  type Queue = map<nat, Message>

  predicate IsReady(m: Message, kind: string, now: int) {
    m.kind == kind && m.status in {Pending, Processing} && m.availableAt <= now
  }

  ghost predicate Distinct(ids: seq<nat>) {
    forall i, j :: 0 <= i < j < |ids| ==> ids[i] != ids[j]
  }

  /** `rows` answers the claim query: up to `limit` ready rows that nobody has locked, the oldest
      first; rows available at the same instant may come in any order. */
  ghost predicate IsBatch(q: Queue, kind: string, now: int, limit: nat, locked: set<nat>, rows: seq<nat>) {
    && |rows| <= limit && Distinct(rows)
    && (forall id :: id in rows ==> id in q && IsReady(q[id], kind, now) && id !in locked)
    && (forall i, j :: 0 <= i < j < |rows| ==> q[rows[i]].availableAt <= q[rows[j]].availableAt)
    && (forall id :: id in q && IsReady(q[id], kind, now) && id !in locked && id !in rows ==>
          |rows| == limit && forall r :: r in rows ==> q[r].availableAt <= q[id].availableAt)
  }

  function Taken(m: Message, reclaimAt: int): Message {
    m.(status := Processing, attempts := m.attempts + 1, availableAt := reclaimAt)
  }

  ghost function Claimed(q: Queue, rows: seq<nat>, reclaimAt: int): Queue {
    map id | id in q :: if id in rows then Taken(q[id], reclaimAt) else q[id]
  }

  /** The settings of the outbox: the backoff base, the attempts allowed and the visibility window. */
  datatype Settings = Settings(retryBase: int, maxAttempts: nat, visibility: int)

  /** The retry of the `number`-th claim, made at `at`. */
  function RetryAt(s: Settings, number: nat, at: int): int
    requires number > 0
  {
    at + s.retryBase * Pow2(number - 1)
  }

  function Finished(m: Message, now: int): Message {
    m.(status := Done, processedAt := Some(now))
  }

  const MAX_ERROR_LEN := 1000

  function Truncated(error: string): (r: string)
    ensures r <= error && |r| <= MAX_ERROR_LEN
    ensures |error| <= MAX_ERROR_LEN ==> r == error
  {
    error[..Min(MAX_ERROR_LEN, |error|)]
  }

  /** The message is kept for another try at `retryAt`, or has failed for good if the worker's copy of it
      counts enough attempts.  What the stored message has come to since is not looked at. */
  function FailedOrRetried(m: Message, attempts: nat, error: string, now: int, maxAttempts: nat, retryAt: int): Message {
    var noted := m.(lastError := Some(Truncated(error)));
    if attempts >= maxAttempts then noted.(status := Failed, processedAt := Some(now))
    else noted.(status := Pending, availableAt := retryAt)
  }

  datatype Delivery = Delivered | Refused | Unreachable(error: string)

  /** The mark that closes the `number`-th claim, made at `at`. */
  function Marked(s: Settings, m: Message, number: nat, at: int, delivery: Delivery): Message
    requires number > 0
  {
    var retryAt := RetryAt(s, number, at);
    match delivery
    case Delivered => Finished(m, at)
    case Refused => FailedOrRetried(m, number, "subscriber returned non-2xx", at, s.maxAttempts, retryAt)
    case Unreachable(error) => FailedOrRetried(m, number, error, at, s.maxAttempts, retryAt)
  }

  /** What is noted of a failure. */
  function ErrorOf(delivery: Delivery): string
    requires delivery != Delivered
  {
    if delivery == Refused then "subscriber returned non-2xx" else delivery.error
  }

  /** What a mark promises: a delivered message is done, any other is tried again after the backoff of its
      claim while attempts are left, and has failed when they are used up. */
  ghost predicate IsMarked(s: Settings, m: Message, number: nat, at: int, delivery: Delivery, after: Message) {
    && number > 0 && after.kind == m.kind && after.attempts == m.attempts
    && (delivery == Delivered ==>
          && after.status == Done && after.processedAt == Some(at)
          && after.availableAt == m.availableAt && after.lastError == m.lastError)
    && (delivery != Delivered ==>
          var error := ErrorOf(delivery);
          && after.lastError == Some(if |error| <= 1000 then error else error[..1000])
          && (number < s.maxAttempts ==>
                && after.status == Pending && after.processedAt == m.processedAt
                && after.availableAt == at + s.retryBase * Pow2(number - 1))
          && (number >= s.maxAttempts ==>
                && after.status == Failed && after.processedAt == Some(at)
                && after.availableAt == m.availableAt))
  }

  /** What a claim promises. */
  ghost predicate IsTaken(m: Message, until: int, after: Message) {
    && after.status == Processing && after.attempts == m.attempts + 1 && after.availableAt == until
    && after.kind == m.kind && after.processedAt == m.processedAt && after.lastError == m.lastError
  }

  lemma MarksAsPromised(s: Settings, m: Message, number: nat, at: int, delivery: Delivery)
    requires number > 0
    ensures IsMarked(s, m, number, at, delivery, Marked(s, m, number, at, delivery))
  {
  }

  /** A claimed message is hidden until its window has run out, and can be claimed again from then on; a
      new one can be claimed at once. */
  lemma HiddenExactly(m: Message, until: int, kind: string, now: int)
    ensures IsReady(Taken(m, until), m.kind, now) <==> until <= now
    ensures IsReady(Message(kind, Pending, 0, until, None, None), kind, now) <==> until <= now
  {
  }

  /** A message that was claimed and, unless its outcome is missing, marked. */
  function AfterRound(s: Settings, m: Message, now: int, outcome: Option<Delivery>): Message {
    var taken := Taken(m, now + s.visibility);
    if outcome.None? then taken else Marked(s, taken, taken.attempts, now, outcome.value)
  }

  ghost function AfterDrain(s: Settings, q: Queue, rows: seq<nat>, now: int, outcome: nat -> Option<Delivery>): Queue {
    map id | id in q :: if id in rows then AfterRound(s, q[id], now, outcome(id)) else q[id]
  }

  /** The queue when the first `i` messages of a claimed batch have been marked. */
  ghost function HalfDrained(s: Settings, q: Queue, rows: seq<nat>, i: nat, now: int,
                             outcome: nat -> Option<Delivery>): Queue
    requires i <= |rows|
  {
    map id | id in q ::
      if id in rows[..i] then AfterRound(s, q[id], now, outcome(id))
      else if id in rows then Taken(q[id], now + s.visibility)
      else q[id]
  }

  lemma OneMoreMarked(s: Settings, q: Queue, rows: seq<nat>, i: nat, now: int, outcome: nat -> Option<Delivery>)
    requires Distinct(rows) && i < |rows| && rows[i] in q && outcome(rows[i]).Some?
    ensures HalfDrained(s, q, rows, i, now, outcome)[rows[i]] == Taken(q[rows[i]], now + s.visibility)
    ensures HalfDrained(s, q, rows, i + 1, now, outcome)
            == HalfDrained(s, q, rows, i, now, outcome)[rows[i] := AfterRound(s, q[rows[i]], now, outcome(rows[i]))]
  {
    assert rows[i] !in rows[..i];
    assert forall id :: id in rows[..i + 1] <==> id in rows[..i] || id == rows[i];
  }

  lemma OneLeftOpen(s: Settings, q: Queue, rows: seq<nat>, i: nat, now: int, outcome: nat -> Option<Delivery>)
    requires Distinct(rows) && i < |rows| && rows[i] in q && outcome(rows[i]).None?
    ensures HalfDrained(s, q, rows, i + 1, now, outcome) == HalfDrained(s, q, rows, i, now, outcome)
  {
    assert forall id :: id in rows[..i + 1] <==> id in rows[..i] || id == rows[i];
  }

  lemma DrainedEnds(s: Settings, q: Queue, rows: seq<nat>, now: int, outcome: nat -> Option<Delivery>)
    ensures HalfDrained(s, q, rows, 0, now, outcome) == Claimed(q, rows, now + s.visibility)
    ensures HalfDrained(s, q, rows, |rows|, now, outcome) == AfterDrain(s, q, rows, now, outcome)
  {
    assert rows[..|rows|] == rows;
  }

  /** What one round promises: the message is claimed and marked by its outcome. */
  ghost predicate IsRound(s: Settings, m: Message, now: int, delivery: Delivery, after: Message) {
    var taken := m.(status := Processing, attempts := m.attempts + 1, availableAt := now + s.visibility);
    IsMarked(s, taken, m.attempts + 1, now, delivery, after)
  }

  lemma DrainsAsPromised(s: Settings, q: Queue, rows: seq<nat>, now: int, outcome: nat -> Option<Delivery>)
    requires forall id :: id in rows ==> id in q && outcome(id).Some?
    ensures forall id :: id in rows ==>
              IsRound(s, q[id], now, outcome(id).value, AfterDrain(s, q, rows, now, outcome)[id])
  {
    forall id | id in rows
      ensures IsRound(s, q[id], now, outcome(id).value, AfterDrain(s, q, rows, now, outcome)[id])
    {
      var taken := Taken(q[id], now + s.visibility);
      MarksAsPromised(s, taken, taken.attempts, now, outcome(id).value);
    }
  }

  class OutboxRepository {
    var messages: Queue

    constructor ()
      ensures messages == map[]
    {
      messages := map[];
    }

    /** Add a message; the database stamps it as available at once. */
    method Enqueue(id: nat, kind: string, now: int)
      requires id !in messages
      modifies this
      ensures messages == old(messages)[id := Message(kind, Pending, 0, now, None, None)]
    {
      messages := messages[id := Message(kind, Pending, 0, now, None, None)];
    }

    /** Take the rows the query found: mark them, count the attempt and hide them for a while. */
    method ClaimBatch(kind: string, now: int, limit: nat, visibility: int, ghost locked: set<nat>, rows: seq<nat>)
      requires IsBatch(messages, kind, now, limit, locked, rows)
      modifies this
      ensures messages == Claimed(old(messages), rows, now + visibility)
      ensures messages.Keys == old(messages.Keys)
      ensures forall id :: id in rows ==> IsTaken(old(messages)[id], now + visibility, messages[id])
      ensures forall id :: id in old(messages) && id !in rows ==> messages[id] == old(messages)[id]
    {
      var reclaimAt := now + visibility;
      ghost var before := messages;
      for i := 0 to |rows|
        invariant messages == Claimed(before, rows[..i], reclaimAt)
      {
        assert rows[i] !in rows[..i];
        messages := messages[rows[i] := Taken(messages[rows[i]], reclaimAt)];
        assert forall id :: id in rows[..i + 1] <==> id in rows[..i] || id == rows[i];
      }
      assert rows[..|rows|] == rows;
    }

    method MarkDone(id: nat, now: int)
      requires id in messages
      modifies this
      ensures messages == old(messages)[id := Finished(old(messages)[id], now)]
    {
      messages := messages[id := messages[id].(status := Done, processedAt := Some(now))];
    }

    /** Mark by the worker's copy of the message, which counts `attempts`. */
    method MarkFailedOrRetry(id: nat, attempts: nat, error: string, now: int, maxAttempts: nat, retryAt: int)
      requires id in messages
      modifies this
      ensures messages
              == old(messages)[id := FailedOrRetried(old(messages)[id], attempts, error, now, maxAttempts, retryAt)]
    {
      var m := messages[id].(lastError := Some(Truncated(error)));
      if attempts >= maxAttempts {
        m := m.(status := Failed, processedAt := Some(now));
      } else {
        m := m.(status := Pending, availableAt := retryAt);
      }
      messages := messages[id := m];
    }

    /** The body of the drain's loop: deliver a message and mark it by the outcome. */
    method DeliverOne(s: Settings, id: nat, attempts: nat, now: int, delivery: Delivery)
      requires id in messages && attempts > 0
      modifies this
      ensures messages == old(messages)[id := Marked(s, old(messages)[id], attempts, now, delivery)]
      ensures IsMarked(s, old(messages)[id], attempts, now, delivery, messages[id])
    {
      var retryAt := RetryAt(s, attempts, now);
      match delivery {
        case Delivered => MarkDone(id, now);
        case Refused => MarkFailedOrRetry(id, attempts, "subscriber returned non-2xx", now, s.maxAttempts, retryAt);
        case Unreachable(error) => MarkFailedOrRetry(id, attempts, error, now, s.maxAttempts, retryAt);
      }
    }

    /** Claim a batch, deliver each message of it and mark it done, to be retried, or failed.  An error
        the loop does not catch (a missing outcome) ends it, and the claims are rolled back with it. */
    method DrainBatch(s: Settings, kind: string, now: int, limit: nat, ghost locked: set<nat>, rows: seq<nat>,
                      outcome: nat -> Option<Delivery>)
      returns (handled: nat, raised: bool)
      requires IsBatch(messages, kind, now, limit, locked, rows)
      modifies this
      ensures raised <==> exists id :: id in rows && outcome(id).None?
      ensures raised ==> messages == old(messages)
      ensures !raised ==> messages == AfterDrain(s, old(messages), rows, now, outcome) && handled == |rows|
      ensures !raised ==> forall id :: id in rows ==>
                IsRound(s, old(messages)[id], now, outcome(id).value, messages[id])
    {
      var before := messages;
      ClaimBatch(kind, now, limit, s.visibility, locked, rows);
      DrainedEnds(s, before, rows, now, outcome);
      for i := 0 to |rows|
        invariant messages == HalfDrained(s, before, rows, i, now, outcome)
        invariant forall j :: 0 <= j < i ==> outcome(rows[j]).Some?
      {
        if outcome(rows[i]).None? {
          messages := before;
          return 0, true;
        }
        OneMoreMarked(s, before, rows, i, now, outcome);
        DeliverOne(s, rows[i], messages[rows[i]].attempts, now, outcome(rows[i]).value);
      }
      DrainsAsPromised(s, before, rows, now, outcome);
      return |rows|, false;
    }
  }

  // ---- Runs of the queue ----

  /** An open claim: the message, which of its claims it is, and when it was made.  It is what the
      worker's copy of the message keeps, however long the worker takes. */
  datatype Ticket = Ticket(id: nat, number: nat, at: int)

  datatype State = State(queue: Queue, open: set<Ticket>)

  /** New messages, claims, and marks, each by the worker that holds the claim; a claim may be marked
      after its message has been claimed again, or never. */
  datatype Event =
    | Enqueues(id: nat, kind: string, at: int)
    | Claims(now: int, rows: seq<nat>)
    | Marks(ticket: Ticket, delivery: Delivery)

  ghost predicate IsPossible(st: State, event: Event) {
    match event
    case Enqueues(id, kind, at) =>
      id !in st.queue && forall t :: t in st.open ==> t.id != id
    case Claims(now, rows) =>
      forall id :: id in rows ==>
        id in st.queue && st.queue[id].status in {Pending, Processing} && st.queue[id].availableAt <= now
    case Marks(ticket, _) =>
      ticket in st.open && ticket.id in st.queue && ticket.number > 0
  }

  ghost function TicketsOf(q: Queue, rows: seq<nat>, now: int): set<Ticket> {
    set id | id in rows && id in q :: Ticket(id, q[id].attempts + 1, now)
  }

  ghost function After(s: Settings, st: State, event: Event): State {
    match event
    case Enqueues(id, kind, at) =>
      st.(queue := st.queue[id := Message(kind, Pending, 0, at, None, None)])
    case Claims(now, rows) =>
      State(Claimed(st.queue, rows, now + s.visibility), st.open + TicketsOf(st.queue, rows, now))
    case Marks(t, delivery) =>
      if t.id in st.queue && t.number > 0 then
        State(st.queue[t.id := Marked(s, st.queue[t.id], t.number, t.at, delivery)], st.open - {t})
      else st
  }

  ghost function Run(s: Settings, st: State, events: seq<Event>): State {
    if events == [] then st else After(s, Run(s, st, events[..|events| - 1]), events[|events| - 1])
  }

  ghost predicate IsRun(s: Settings, st: State, events: seq<Event>) {
    events == []
    || (var n := |events| - 1; IsRun(s, st, events[..n]) && IsPossible(Run(s, st, events[..n]), events[n]))
  }

  lemma {:induction false} RunPrefix(s: Settings, st: State, events: seq<Event>, n: nat)
    requires IsRun(s, st, events) && n <= |events|
    ensures IsRun(s, st, events[..n])
    ensures n < |events| ==> IsPossible(Run(s, st, events[..n]), events[n])
  {
    if n < |events| {
      RunPrefix(s, st, events[..|events| - 1], n);
      assert events[..|events| - 1][..n] == events[..n];
    } else {
      assert events[..n] == events;
    }
  }

  lemma OneMore(s: Settings, st: State, events: seq<Event>, event: Event)
    ensures IsRun(s, st, events + [event]) <==> IsRun(s, st, events) && IsPossible(Run(s, st, events), event)
    ensures Run(s, st, events + [event]) == After(s, Run(s, st, events), event)
  {
    var all := events + [event];
    assert all[..|all| - 1] == events && all[|all| - 1] == event;
  }

  lemma {:induction false} RunAppends(s: Settings, st: State, events: seq<Event>, more: seq<Event>)
    ensures IsRun(s, st, events + more) <==> IsRun(s, st, events) && IsRun(s, Run(s, st, events), more)
    ensures Run(s, st, events + more) == Run(s, Run(s, st, events), more)
  {
    if more == [] {
      assert events + more == events;
    } else {
      var n := |more| - 1;
      RunAppends(s, st, events, more[..n]);
      OneMore(s, st, events + more[..n], more[n]);
      assert events + more == events + more[..n] + [more[n]];
    }
  }

  /** Whatever the claim query answers may be claimed. */
  lemma BatchIsPossible(s: Settings, st: State, kind: string, now: int, limit: nat, locked: set<nat>, rows: seq<nat>)
    requires IsBatch(st.queue, kind, now, limit, locked, rows)
    ensures IsPossible(st, Claims(now, rows))
    ensures After(s, st, Claims(now, rows)).queue == Claimed(st.queue, rows, now + s.visibility)
  {
  }

  /** The mark of one message of a claimed batch, if it has an outcome. */
  ghost function MarkOf(q: Queue, id: nat, now: int, outcome: nat -> Option<Delivery>): seq<Event>
    requires id in q
  {
    if outcome(id).None? then [] else [Marks(Ticket(id, q[id].attempts + 1, now), outcome(id).value)]
  }

  /** The claim of a batch and the marks of its first `i` messages. */
  ghost function DrainEvents(q: Queue, rows: seq<nat>, now: int, outcome: nat -> Option<Delivery>, i: nat): seq<Event>
    requires i <= |rows| && forall id :: id in rows ==> id in q
  {
    if i == 0 then [Claims(now, rows)]
    else DrainEvents(q, rows, now, outcome, i - 1) + MarkOf(q, rows[i - 1], now, outcome)
  }

  /** What a drain has come to after `i` messages: the queue, and the tickets of the others. */
  ghost predicate HasDrained(s: Settings, st: State, rows: seq<nat>, now: int, outcome: nat -> Option<Delivery>, i: nat,
                             after: State)
    requires i <= |rows| && forall id :: id in rows ==> id in st.queue
  {
    && after.queue == HalfDrained(s, st.queue, rows, i, now, outcome)
    && forall j :: i <= j < |rows| ==> Ticket(rows[j], st.queue[rows[j]].attempts + 1, now) in after.open
  }

  lemma NextMark(s: Settings, st: State, rows: seq<nat>, now: int, outcome: nat -> Option<Delivery>, i: nat, half: State)
    requires Distinct(rows) && i < |rows| && forall id :: id in rows ==> id in st.queue
    requires HasDrained(s, st, rows, now, outcome, i, half) && outcome(rows[i]).Some?
    ensures var mark := Marks(Ticket(rows[i], st.queue[rows[i]].attempts + 1, now), outcome(rows[i]).value);
            IsPossible(half, mark) && HasDrained(s, st, rows, now, outcome, i + 1, After(s, half, mark))
  {
    OneMoreMarked(s, st.queue, rows, i, now, outcome);
  }

  lemma DrainBegins(s: Settings, st: State, rows: seq<nat>, now: int, outcome: nat -> Option<Delivery>)
    requires IsPossible(st, Claims(now, rows))
    ensures IsRun(s, st, [Claims(now, rows)])
    ensures HasDrained(s, st, rows, now, outcome, 0, Run(s, st, [Claims(now, rows)]))
  {
    OneMore(s, st, [], Claims(now, rows));
    assert [] + [Claims(now, rows)] == [Claims(now, rows)];
    DrainedEnds(s, st.queue, rows, now, outcome);
  }

  lemma OneDrainedMore(s: Settings, st: State, rows: seq<nat>, now: int, outcome: nat -> Option<Delivery>, i: nat,
                       events: seq<Event>)
    requires Distinct(rows) && i < |rows| && forall id :: id in rows ==> id in st.queue
    requires IsRun(s, st, events) && HasDrained(s, st, rows, now, outcome, i, Run(s, st, events))
    ensures var more := events + MarkOf(st.queue, rows[i], now, outcome);
            IsRun(s, st, more) && HasDrained(s, st, rows, now, outcome, i + 1, Run(s, st, more))
  {
    if outcome(rows[i]).Some? {
      NextMark(s, st, rows, now, outcome, i, Run(s, st, events));
      OneMore(s, st, events, MarkOf(st.queue, rows[i], now, outcome)[0]);
    } else {
      OneLeftOpen(s, st.queue, rows, i, now, outcome);
      assert events + [] == events;
    }
  }

  /** A drain, also one that dies after `i` messages, is a claim followed by its marks. */
  lemma {:induction false} DrainIsRun(s: Settings, st: State, rows: seq<nat>, now: int,
                                      outcome: nat -> Option<Delivery>, i: nat)
    requires IsPossible(st, Claims(now, rows)) && Distinct(rows) && i <= |rows|
    ensures var events := DrainEvents(st.queue, rows, now, outcome, i);
            IsRun(s, st, events) && HasDrained(s, st, rows, now, outcome, i, Run(s, st, events))
  {
    if i == 0 {
      DrainBegins(s, st, rows, now, outcome);
    } else {
      DrainIsRun(s, st, rows, now, outcome, i - 1);
      OneDrainedMore(s, st, rows, now, outcome, i - 1, DrainEvents(st.queue, rows, now, outcome, i - 1));
    }
  }

  ghost predicate IsTerminal(m: Message) {
    m.status in {Done, Failed}
  }

  // ---- Overlapping claims ----

  ghost predicate IsHidden(m: Message, until: int) {
    m.status == Done || (m.status == Processing && m.availableAt >= until)
  }

  /** No mark of the message gives it back for a retry or gives it up. */
  ghost predicate IsQuiet(event: Event, id: nat) {
    event.Marks? && event.ticket.id == id ==> event.delivery == Delivered
  }

  lemma {:induction false} HiddenSince(s: Settings, st: State, events: seq<Event>, i: nat, j: nat, id: nat)
    requires s.visibility >= 0 && IsRun(s, st, events) && i < j <= |events|
    requires events[i].Claims? && id in events[i].rows
    requires forall k :: i <= k < j ==> IsQuiet(events[k], id)
    ensures id in Run(s, st, events[..j]).queue
    ensures IsHidden(Run(s, st, events[..j]).queue[id], events[i].now + s.visibility)
    decreases j
  {
    RunPrefix(s, st, events, j - 1);
    assert events[..j][..j - 1] == events[..j - 1];
    if i < j - 1 {
      assert IsQuiet(events[j - 1], id);
      HiddenSince(s, st, events, i, j - 1, id);
    }
  }

  /**
   * Claims do not overlap.  In every run, with claims and marks at whatever instants, a claim inside the
   * visibility window of an earlier one shares no message with it, unless a failure of that message,
   * of this claim or of one before it, was marked in between.
   */
  lemma ClaimsDisjoint(s: Settings, st: State, events: seq<Event>, i: nat, j: nat)
    requires s.visibility >= 0 && IsRun(s, st, events) && i < j < |events| && events[i].Claims? && events[j].Claims?
    requires events[j].now < events[i].now + s.visibility
    requires forall k, id :: i <= k < j && id in events[i].rows ==> IsQuiet(events[k], id)
    ensures forall id :: id in events[i].rows ==> id !in events[j].rows
  {
    forall id | id in events[i].rows ensures id !in events[j].rows {
      HiddenSince(s, st, events, i, j, id);
      RunPrefix(s, st, events, j);
    }
  }

  // ---- The claims of a message ----

  /** One claim of a message, and the mark that has closed it, if any has. */
  datatype Claim = Claim(at: int, mark: Option<Delivery>) {
    predicate Closed() {
      mark.Some?
    }
  }

  ghost function ClaimsOf(events: seq<Event>, id: nat): seq<Claim> {
    if events == [] then []
    else
      var n := |events| - 1;
      WithEvent(ClaimsOf(events[..n], id), id, events[n])
  }

  ghost function WithEvent(claims: seq<Claim>, id: nat, event: Event): seq<Claim> {
    match event
    case Enqueues(_, _, _) => claims
    case Claims(now, rows) => if id in rows then claims + [Claim(now, None)] else claims
    case Marks(t, delivery) =>
      if t.id == id && 0 < t.number <= |claims|
      then claims[t.number - 1 := claims[t.number - 1].(mark := Some(delivery))]
      else claims
  }

  ghost predicate IsNew(st: State, id: nat) {
    && id in st.queue && st.queue[id].status == Pending && st.queue[id].attempts == 0
    && forall t :: t in st.open ==> t.id != id
  }

  /** The attempts count the claims, and those not marked are the open ones. */
  ghost predicate Accounts(st: State, id: nat, claims: seq<Claim>) {
    && id in st.queue && st.queue[id].attempts == |claims|
    && (forall t :: t in st.open && t.id == id ==>
          0 < t.number <= |claims| && claims[t.number - 1] == Claim(t.at, None))
    && (forall k :: 0 <= k < |claims| && !claims[k].Closed() ==> Ticket(id, k + 1, claims[k].at) in st.open)
  }

  lemma EventAccounts(s: Settings, st: State, id: nat, claims: seq<Claim>, event: Event)
    requires Accounts(st, id, claims) && IsPossible(st, event)
    ensures Accounts(After(s, st, event), id, WithEvent(claims, id, event))
  {
  }

  /** In every run, with marks however late, the claims of a message enqueued new account for it. */
  lemma {:induction false} ClaimsAccount(s: Settings, st: State, events: seq<Event>, id: nat)
    requires IsRun(s, st, events) && IsNew(st, id)
    ensures Accounts(Run(s, st, events), id, ClaimsOf(events, id))
  {
    if events != [] {
      var n := |events| - 1;
      ClaimsAccount(s, st, events[..n], id);
      EventAccounts(s, Run(s, st, events[..n]), id, ClaimsOf(events[..n], id), events[n]);
    }
  }

  // ---- Retries ----

  /** The mark closes a claim whose message has been claimed again since. */
  ghost predicate IsLate(st: State, event: Event, id: nat) {
    event.Marks? && event.ticket.id == id && id in st.queue && event.ticket.number < st.queue[id].attempts
  }

  ghost predicate NoneLate(s: Settings, st: State, events: seq<Event>, id: nat) {
    events == []
    || (var n := |events| - 1; NoneLate(s, st, events[..n], id) && !IsLate(Run(s, st, events[..n]), events[n], id))
  }

  /** How long the `j`-th claim, counted from 0, keeps the message away if it does not end it. */
  function Away(s: Settings, claim: Claim, j: nat): int {
    if claim.Closed() then s.retryBase * Pow2(j) else s.visibility
  }

  /** Without late marks: the spacing of the claims, and what the last one has made of the message. */
  ghost predicate InOrder(s: Settings, m: Message, claims: seq<Claim>) {
    && (forall j :: 0 <= j < |claims| - 1 ==> claims[j + 1].at >= claims[j].at + Away(s, claims[j], j))
    && (forall j: nat :: s.maxAttempts <= j + 1 < |claims| ==> !claims[j].Closed())
    && if claims == [] then m.status == Pending
       else
         var n := |claims| - 1;
         && (m.status == Processing <==> !claims[n].Closed())
         && (m.status == Done <==> claims[n].mark == Some(Delivered))
         && (m.status == Failed <==> claims[n].Closed() && claims[n].mark != Some(Delivered) && n + 1 >= s.maxAttempts)
         && (m.status == Pending <==> claims[n].Closed() && claims[n].mark != Some(Delivered) && n + 1 < s.maxAttempts)
         && (!IsTerminal(m) ==> m.availableAt == claims[n].at + Away(s, claims[n], n))
  }

  lemma ClaimInOrder(s: Settings, m: Message, claims: seq<Claim>, now: int)
    requires InOrder(s, m, claims) && !IsTerminal(m) && m.availableAt <= now
    ensures InOrder(s, Taken(m, now + s.visibility), claims + [Claim(now, None)])
  {
    var more := claims + [Claim(now, None)];
    forall j | 0 <= j < |more| - 1 ensures more[j + 1].at >= more[j].at + Away(s, more[j], j) {
      assert more[j] == claims[j];
    }
    forall j: nat | s.maxAttempts <= j + 1 < |more| ensures !more[j].Closed() {
      assert more[j] == claims[j];
    }
  }

  lemma MarkInOrder(s: Settings, m: Message, claims: seq<Claim>, delivery: Delivery)
    requires InOrder(s, m, claims) && claims != [] && !claims[|claims| - 1].Closed()
    ensures var n := |claims| - 1;
            InOrder(s, Marked(s, m, n + 1, claims[n].at, delivery), claims[n := Claim(claims[n].at, Some(delivery))])
  {
  }

  lemma MarkEventInOrder(s: Settings, st: State, id: nat, claims: seq<Claim>, t: Ticket, delivery: Delivery)
    requires IsPossible(st, Marks(t, delivery)) && !IsLate(st, Marks(t, delivery), id) && t.id == id
    requires Accounts(st, id, claims) && InOrder(s, st.queue[id], claims)
    ensures InOrder(s, After(s, st, Marks(t, delivery)).queue[id], WithEvent(claims, id, Marks(t, delivery)))
  {
    assert t.number == |claims|;
    MarkInOrder(s, st.queue[id], claims, delivery);
  }

  lemma EventInOrder(s: Settings, st: State, id: nat, claims: seq<Claim>, event: Event)
    requires IsPossible(st, event) && !IsLate(st, event, id)
    requires Accounts(st, id, claims) && InOrder(s, st.queue[id], claims)
    ensures id in After(s, st, event).queue
    ensures InOrder(s, After(s, st, event).queue[id], WithEvent(claims, id, event))
  {
    match event {
      case Claims(now, rows) =>
        if id in rows {
          ClaimInOrder(s, st.queue[id], claims, now);
        }
      case Marks(t, delivery) =>
        if t.id == id {
          MarkEventInOrder(s, st, id, claims, t, delivery);
        }
      case _ =>
    }
  }

  /** In every run without late marks, the claims of a message enqueued new are in order. */
  lemma {:induction false} ClaimsInOrder(s: Settings, st: State, events: seq<Event>, id: nat)
    requires s.maxAttempts > 0 && IsRun(s, st, events) && IsNew(st, id) && NoneLate(s, st, events, id)
    ensures id in Run(s, st, events).queue
    ensures InOrder(s, Run(s, st, events).queue[id], ClaimsOf(events, id))
  {
    if events != [] {
      var n := |events| - 1;
      ClaimsInOrder(s, st, events[..n], id);
      ClaimsAccount(s, st, events[..n], id);
      EventInOrder(s, Run(s, st, events[..n]), id, ClaimsOf(events[..n], id), events[n]);
    }
  }

  lemma Doubled(base: int, p: int)
    ensures base * (p - 1) + base * p == base * (2 * p - 1)
  {
  }

  lemma {:induction false} BackedOff(s: Settings, m: Message, claims: seq<Claim>, j: nat)
    requires InOrder(s, m, claims) && j < |claims| && forall i :: 0 <= i < j ==> claims[i].Closed()
    ensures claims[j].at >= claims[0].at + s.retryBase * (Pow2(j) - 1)
  {
    if j > 0 {
      BackedOff(s, m, claims, j - 1);
      Doubled(s.retryBase, Pow2(j - 1));
      assert claims[j - 1 + 1].at >= claims[j - 1].at + Away(s, claims[j - 1], j - 1);
    }
  }

  /**
   * Retries back off.  In every run in which each claim of a message enqueued new is closed by a mark,
   * and that before its next claim, the message is claimed at most `maxAttempts` times, its j-th claim
   * (from 0) no earlier than its first plus `base * (2^j - 1)`; once the attempts are used up, it is
   * terminal.
   */
  lemma RetriesBackOff(s: Settings, st: State, events: seq<Event>, id: nat)
    requires s.maxAttempts > 0 && IsRun(s, st, events) && IsNew(st, id) && NoneLate(s, st, events, id)
    requires forall claim :: claim in ClaimsOf(events, id) ==> claim.Closed()
    ensures var claims := ClaimsOf(events, id);
            && |claims| <= s.maxAttempts
            && (forall j :: 0 <= j < |claims| ==> claims[j].at >= claims[0].at + s.retryBase * (Pow2(j) - 1))
            && id in Run(s, st, events).queue
            && (|claims| == s.maxAttempts ==> IsTerminal(Run(s, st, events).queue[id]))
  {
    var claims := ClaimsOf(events, id);
    ClaimsInOrder(s, st, events, id);
    forall j | 0 <= j < |claims| ensures claims[j].Closed() {
      assert claims[j] in claims;
    }
    forall j | 0 <= j < |claims| ensures claims[j].at >= claims[0].at + s.retryBase * (Pow2(j) - 1) {
      BackedOff(s, Run(s, st, events).queue[id], claims, j);
    }
    if |claims| >= s.maxAttempts {
      assert claims[s.maxAttempts - 1].Closed();
    }
    var m := Run(s, st, events).queue[id];
    assert m.status.Pending? || m.status.Processing? || IsTerminal(m);
  }

  // ---- When a message can be claimed again ----

  /** A claim of the message that counts fewer attempts than are allowed is open. */
  ghost predicate MayBeGivenBack(s: Settings, st: State, id: nat) {
    exists t :: t in st.open && t.id == id && 0 < t.number < s.maxAttempts
  }

  ghost function Count(events: seq<Event>, id: nat): nat {
    if events == [] then 0
    else
      var n := |events| - 1;
      Count(events[..n], id) + if events[n].Claims? && id in events[n].rows then 1 else 0
  }

  /** A terminal message none of whose claims can give it back stays terminal and is not claimed. */
  lemma {:induction false} StaysTerminal(s: Settings, st: State, events: seq<Event>, id: nat)
    requires IsRun(s, st, events) && id in st.queue && IsTerminal(st.queue[id]) && !MayBeGivenBack(s, st, id)
    ensures var after := Run(s, st, events);
            id in after.queue && IsTerminal(after.queue[id]) && !MayBeGivenBack(s, after, id)
    ensures Count(events, id) == 0
  {
    if events != [] {
      var n := |events| - 1;
      StaysTerminal(s, st, events[..n], id);
      var before, after := Run(s, st, events[..n]), Run(s, st, events);
      forall t | t in after.open && t.id == id ensures t in before.open {
      }
    }
  }

  /** A terminal message without open claims never changes. */
  lemma {:induction false} TerminalForever(s: Settings, st: State, events: seq<Event>, id: nat)
    requires IsRun(s, st, events) && id in st.queue && IsTerminal(st.queue[id])
    requires forall t :: t in st.open ==> t.id != id
    ensures var after := Run(s, st, events);
            id in after.queue && after.queue[id] == st.queue[id] && forall t :: t in after.open ==> t.id != id
    ensures Count(events, id) == 0
  {
    if events != [] {
      TerminalForever(s, st, events[..|events| - 1], id);
    }
  }

  lemma OneClaimMore(s: Settings, st: State, id: nat, now: int)
    requires id in st.queue && !IsTerminal(st.queue[id]) && st.queue[id].availableAt <= now
    ensures IsPossible(st, Claims(now, [id]))
    ensures var after := After(s, st, Claims(now, [id]));
            id in after.queue && !IsTerminal(after.queue[id])
  {
    assert st.queue[id].status.Pending? || st.queue[id].status.Processing?;
    assert IsBatch(st.queue, st.queue[id].kind, now, 1, st.queue.Keys - {id}, [id]);
    BatchIsPossible(s, st, st.queue[id].kind, now, 1, st.queue.Keys - {id}, [id]);
  }

  /** A message that is not terminal can be claimed any number of times, each claim left open. */
  lemma {:induction false} UnclosedClaimsUnbounded(s: Settings, st: State, id: nat, n: nat)
    returns (events: seq<Event>)
    requires id in st.queue && !IsTerminal(st.queue[id])
    ensures IsRun(s, st, events) && Count(events, id) == n
    ensures id in Run(s, st, events).queue && !IsTerminal(Run(s, st, events).queue[id])
  {
    if n == 0 {
      events := [];
    } else {
      var before := UnclosedClaimsUnbounded(s, st, id, n - 1);
      var now := Run(s, st, before).queue[id].availableAt;
      OneClaimMore(s, Run(s, st, before), id, now);
      OneMore(s, st, before, Claims(now, [id]));
      events := before + [Claims(now, [id])];
      assert events[..|events| - 1] == before;
    }
  }

  lemma GivenBack(s: Settings, st: State, t: Ticket)
    requires t in st.open && t.id in st.queue && 0 < t.number < s.maxAttempts
    ensures IsRun(s, st, [Marks(t, Refused)]) && Count([Marks(t, Refused)], t.id) == 0
    ensures var after := Run(s, st, [Marks(t, Refused)]);
            t.id in after.queue && !IsTerminal(after.queue[t.id])
  {
    OneMore(s, st, [], Marks(t, Refused));
    assert [] + [Marks(t, Refused)] == [Marks(t, Refused)];
    assert [Marks(t, Refused)][..0] == [];
  }

  lemma {:induction false} CountAppends(events: seq<Event>, more: seq<Event>, id: nat)
    ensures Count(events + more, id) == Count(events, id) + Count(more, id)
  {
    if more == [] {
      assert events + more == events;
    } else {
      CountAppends(events, more[..|more| - 1], id);
      assert (events + more)[..|events + more| - 1] == events + more[..|more| - 1];
    }
  }

  lemma {:induction false} CountIsLength(events: seq<Event>, id: nat)
    ensures |ClaimsOf(events, id)| == Count(events, id)
  {
    if events != [] {
      CountIsLength(events[..|events| - 1], id);
    }
  }

  /** If a message can be claimed again at all, it can be as often as one likes. */
  lemma ClaimedAtWill(s: Settings, st: State, id: nat, n: nat) returns (events: seq<Event>)
    requires id in st.queue && (!IsTerminal(st.queue[id]) || MayBeGivenBack(s, st, id))
    ensures IsRun(s, st, events) && Count(events, id) == n
  {
    if !IsTerminal(st.queue[id]) {
      events := UnclosedClaimsUnbounded(s, st, id, n);
    } else {
      var t :| t in st.open && t.id == id && 0 < t.number < s.maxAttempts;
      GivenBack(s, st, t);
      var more := UnclosedClaimsUnbounded(s, Run(s, st, [Marks(t, Refused)]), id, n);
      RunAppends(s, st, [Marks(t, Refused)], more);
      CountAppends([Marks(t, Refused)], more, id);
      events := [Marks(t, Refused)] + more;
    }
  }

  /** A message can come to be claimed again exactly if it is not terminal, or one of its claims below
      `maxAttempts` is still open, whose late failure gives it back. */
  lemma ClaimedAgainExactly(s: Settings, st: State, id: nat)
    requires id in st.queue
    ensures (exists events :: IsRun(s, st, events) && Count(events, id) > 0)
            <==> !IsTerminal(st.queue[id]) || MayBeGivenBack(s, st, id)
  {
    if !IsTerminal(st.queue[id]) || MayBeGivenBack(s, st, id) {
      var events := ClaimedAtWill(s, st, id, 1);
      assert IsRun(s, st, events) && Count(events, id) > 0;
    } else {
      forall events | IsRun(s, st, events) ensures Count(events, id) == 0 {
        StaysTerminal(s, st, events, id);
      }
    }
  }

  /**
   * The bound on the attempts is exact.  In a run of a message enqueued new, some continuation claims it
   * more than `maxAttempts` times exactly if the run has done so, or the message is not terminal, or
   * one of its claims with a number below `maxAttempts` has no mark yet.
   */
  lemma AttemptsExceeded(s: Settings, st: State, events: seq<Event>, id: nat)
    requires IsRun(s, st, events) && IsNew(st, id)
    ensures var claims := ClaimsOf(events, id);
            && id in Run(s, st, events).queue && Run(s, st, events).queue[id].attempts == |claims|
            && ((exists more :: IsRun(s, st, events + more) && |ClaimsOf(events + more, id)| > s.maxAttempts)
                <==> || |claims| > s.maxAttempts
                     || !IsTerminal(Run(s, st, events).queue[id])
                     || exists k :: 0 <= k < |claims| && k + 1 < s.maxAttempts && !claims[k].Closed())
  {
    var claims, now := ClaimsOf(events, id), Run(s, st, events);
    ClaimsAccount(s, st, events, id);
    GivenBackByClaim(s, now, id, claims);
    CountIsLength(events, id);
    if |claims| > s.maxAttempts {
      assert events + [] == events;
    } else if !IsTerminal(now.queue[id]) || MayBeGivenBack(s, now, id) {
      var more := ClaimedAtWill(s, now, id, s.maxAttempts + 1);
      RunAppends(s, st, events, more);
      CountAppends(events, more, id);
      CountIsLength(events + more, id);
    } else {
      forall more | IsRun(s, st, events + more) ensures |ClaimsOf(events + more, id)| == |claims| {
        RunAppends(s, st, events, more);
        StaysTerminal(s, now, more, id);
        CountAppends(events, more, id);
        CountIsLength(events + more, id);
      }
    }
  }

  lemma GivenBackByClaim(s: Settings, st: State, id: nat, claims: seq<Claim>)
    requires Accounts(st, id, claims)
    ensures MayBeGivenBack(s, st, id)
            <==> exists k :: 0 <= k < |claims| && k + 1 < s.maxAttempts && !claims[k].Closed()
  {
    if MayBeGivenBack(s, st, id) {
      var t :| t in st.open && t.id == id && 0 < t.number < s.maxAttempts;
      assert !claims[t.number - 1].Closed();
    }
    if k :| 0 <= k < |claims| && k + 1 < s.maxAttempts && !claims[k].Closed() {
      assert Ticket(id, k + 1, claims[k].at) in st.open;
    }
  }

  lemma NextEvent(s: Settings, st: State, events: seq<Event>, event: Event, id: nat)
    requires IsRun(s, st, events) && IsPossible(Run(s, st, events), event)
    ensures IsRun(s, st, events + [event])
    ensures Run(s, st, events + [event]) == After(s, Run(s, st, events), event)
    ensures ClaimsOf(events + [event], id) == WithEvent(ClaimsOf(events, id), id, event)
  {
    OneMore(s, st, events, event);
    assert (events + [event])[..|events|] == events;
  }

  lemma ClaimsOne(s: Settings, st: State, id: nat, now: int)
    requires id in st.queue && !IsTerminal(st.queue[id]) && st.queue[id].availableAt <= now
    ensures IsPossible(st, Claims(now, [id]))
    ensures var after := After(s, st, Claims(now, [id]));
            && id in after.queue && IsTaken(st.queue[id], now + s.visibility, after.queue[id])
            && after.open == st.open + {Ticket(id, st.queue[id].attempts + 1, now)}
  {
    OneClaimMore(s, st, id, now);
    assert TicketsOf(st.queue, [id], now) == {Ticket(id, st.queue[id].attempts + 1, now)};
  }

  lemma MarksOne(s: Settings, st: State, t: Ticket, delivery: Delivery)
    requires t in st.open && t.id in st.queue && t.number > 0
    ensures IsPossible(st, Marks(t, delivery))
    ensures var after := After(s, st, Marks(t, delivery));
            && t.id in after.queue && IsMarked(s, st.queue[t.id], t.number, t.at, delivery, after.queue[t.id])
            && after.open == st.open - {t}
  {
    MarksAsPromised(s, st.queue[t.id], t.number, t.at, delivery);
  }

  /** Two claims, the second when the window of the first has run out, and the mark of the second. */
  lemma Overtaken(s: Settings, st: State, second: Delivery) returns (events: seq<Event>)
    requires s == Settings(30, 2, 300)
    requires st == State(map[0 := Message("automation_on_create", Pending, 0, 0, None, None)], {})
    ensures IsRun(s, st, events) && |events| == 3
    ensures var after := Run(s, st, events);
            && 0 in after.queue && after.queue[0].attempts == 2
            && after.queue[0].status == (if second == Delivered then Done else Failed)
            && Ticket(0, 1, 0) in after.open
    ensures ClaimsOf(events, 0) == [Claim(0, None), Claim(300, Some(second))]
  {
    ClaimsOne(s, st, 0, 0);
    NextEvent(s, st, [], Claims(0, [0]), 0);
    var e1 := [] + [Claims(0, [0])];
    ClaimsOne(s, Run(s, st, e1), 0, 300);
    NextEvent(s, st, e1, Claims(300, [0]), 0);
    var e2 := e1 + [Claims(300, [0])];
    assert ClaimsOf(e2, 0) == [Claim(0, None), Claim(300, None)];
    MarksOne(s, Run(s, st, e2), Ticket(0, 2, 300), second);
    NextEvent(s, st, e2, Marks(Ticket(0, 2, 300), second), 0);
    events := e2 + [Marks(Ticket(0, 2, 300), second)];
  }

  /** The mark of the first claim, after all, and a third claim with its mark. */
  lemma LateFailure(s: Settings, st: State, before: seq<Event>, second: Delivery) returns (events: seq<Event>)
    requires s == Settings(30, 2, 300) && IsRun(s, st, before)
    requires var third := Run(s, st, before);
             0 in third.queue && third.queue[0].attempts == 2 && Ticket(0, 1, 0) in third.open
    requires ClaimsOf(before, 0) == [Claim(0, None), Claim(300, Some(second))]
    ensures IsRun(s, st, events) && |events| == |before| + 3 && events[..|before|] == before
    ensures ClaimsOf(events, 0) == [Claim(0, Some(Refused)), Claim(300, Some(second)), Claim(310, Some(Refused))]
  {
    var late, claim, mark := Marks(Ticket(0, 1, 0), Refused), Claims(310, [0]), Marks(Ticket(0, 3, 310), Refused);
    MarksOne(s, Run(s, st, before), Ticket(0, 1, 0), Refused);
    NextEvent(s, st, before, late, 0);
    var e4 := before + [late];
    ClaimsOne(s, Run(s, st, e4), 0, 310);
    NextEvent(s, st, e4, claim, 0);
    var e5 := e4 + [claim];
    MarksOne(s, Run(s, st, e5), Ticket(0, 3, 310), Refused);
    NextEvent(s, st, e5, mark, 0);
    events := e5 + [mark];
  }

  /** A terminal message can come back: a worker that its window has overtaken fails after the next one
      has finished the message or given it up, and the message is claimed once more than allowed, with
      every claim closed. */
  lemma TerminalComesBack(second: Delivery) returns (s: Settings, st: State, events: seq<Event>)
    ensures IsNew(st, 0) && IsRun(s, st, events) && |events| == 6
    ensures var third := Run(s, st, events[..3]);
            0 in third.queue && third.queue[0].status == if second == Delivered then Done else Failed
    ensures |ClaimsOf(events, 0)| == s.maxAttempts + 1
    ensures forall claim :: claim in ClaimsOf(events, 0) ==> claim.Closed()
  {
    s := Settings(30, 2, 300);
    st := State(map[0 := Message("automation_on_create", Pending, 0, 0, None, None)], {});
    var before := Overtaken(s, st, second);
    events := LateFailure(s, st, before, second);
  }

  // ---- Draining the queue ----

  ghost function ReadySet(q: Queue, kind: string, now: int): set<nat> {
    set id | id in q && IsReady(q[id], kind, now)
  }

  /** What the claims and marks of one batch may do: only its messages change, and none of them is
      ready again at `now`. */
  ghost predicate Settled(q: Queue, rows: seq<nat>, kind: string, now: int, after: Queue) {
    && after.Keys == q.Keys
    && (forall id :: id in q && id !in rows ==> after[id] == q[id])
    && (forall id :: id in q && id in rows ==> !IsReady(after[id], kind, now))
  }

  lemma Pow2Positive(n: nat)
    ensures Pow2(n) > 0
  {
  }

  /** With positive delays, a claim settles its batch, marked or not. */
  lemma ClaimSettles(q: Queue, rows: seq<nat>, kind: string, now: int, visibility: int)
    requires visibility > 0
    ensures Settled(q, rows, kind, now, Claimed(q, rows, now + visibility))
  {
  }

  lemma DrainSettles(s: Settings, q: Queue, rows: seq<nat>, kind: string, now: int, outcome: nat -> Option<Delivery>)
    requires s.retryBase > 0 && (s.visibility > 0 || forall id :: id in rows ==> outcome(id).Some?)
    ensures Settled(q, rows, kind, now, AfterDrain(s, q, rows, now, outcome))
  {
    forall id | id in q && id in rows ensures !IsReady(AfterRound(s, q[id], now, outcome(id)), kind, now) {
      Pow2Positive(q[id].attempts);
      assert s.retryBase * Pow2(q[id].attempts) > 0;
    }
  }

  /** Successive batches at one instant: each answers the claim query on what the one before left. */
  ghost predicate IsDrain(queues: seq<Queue>, batches: seq<seq<nat>>, kind: string, now: int, limit: nat) {
    && |queues| == |batches| + 1
    && forall i :: 0 <= i < |batches| ==>
         && IsBatch(queues[i], kind, now, limit, {}, batches[i])
         && Settled(queues[i], batches[i], kind, now, queues[i + 1])
  }

  ghost function Flat(batches: seq<seq<nat>>): seq<nat> {
    if batches == [] then [] else batches[0] + Flat(batches[1..])
  }

  ghost function Members(ids: seq<nat>): set<nat> {
    set id | id in ids
  }

  lemma {:induction false} DistinctSize(ids: seq<nat>)
    requires Distinct(ids)
    ensures |Members(ids)| == |ids|
  {
    if ids != [] {
      DistinctSize(ids[1..]);
      assert ids[0] !in ids[1..];
      assert ids == [ids[0]] + ids[1..];
      assert Members(ids) == Members(ids[1..]) + {ids[0]};
    }
  }

  lemma BatchSize(q: Queue, rows: seq<nat>, kind: string, now: int, limit: nat)
    requires IsBatch(q, kind, now, limit, {}, rows)
    ensures |rows| == Min(limit, |ReadySet(q, kind, now)|)
  {
    var ready := ReadySet(q, kind, now);
    DistinctSize(rows);
    assert Members(rows) <= ready;
    if |rows| < limit {
      assert Members(rows) == ready;
    } else {
      assert ready == Members(rows) + (ready - Members(rows));
    }
  }

  lemma SettledReady(q: Queue, rows: seq<nat>, kind: string, now: int, limit: nat, after: Queue)
    requires IsBatch(q, kind, now, limit, {}, rows) && Settled(q, rows, kind, now, after)
    ensures ReadySet(after, kind, now) == ReadySet(q, kind, now) - Members(rows)
    ensures |ReadySet(after, kind, now)| == |ReadySet(q, kind, now)| - |rows|
  {
    DistinctSize(rows);
    assert Members(rows) <= ReadySet(q, kind, now);
    assert ReadySet(q, kind, now) == ReadySet(after, kind, now) + Members(rows);
  }

  /** `ids` lists the ready messages, each once, those available earlier first. */
  ghost predicate IsReadyList(q: Queue, kind: string, now: int, ids: seq<nat>) {
    && Distinct(ids)
    && Members(ids) == ReadySet(q, kind, now)
    && forall i, j :: 0 <= i < j < |ids| && ids[i] in q && ids[j] in q ==>
         q[ids[i]].availableAt <= q[ids[j]].availableAt
  }

  lemma ReadyListGrows(q: Queue, rows: seq<nat>, kind: string, now: int, limit: nat, after: Queue, rest: seq<nat>)
    requires IsBatch(q, kind, now, limit, {}, rows) && Settled(q, rows, kind, now, after)
    requires IsReadyList(after, kind, now, rest)
    ensures IsReadyList(q, kind, now, rows + rest)
  {
    SettledReady(q, rows, kind, now, limit, after);
    forall i | 0 <= i < |rest|
      ensures rest[i] in q && rest[i] !in rows && IsReady(q[rest[i]], kind, now) && q[rest[i]] == after[rest[i]]
    {
      assert rest[i] in Members(rest);
    }
    forall id ensures id in Members(rows + rest) <==> id in ReadySet(q, kind, now) {
      assert id in Members(rest) <==> id in ReadySet(after, kind, now);
      assert id in rows ==> id in ReadySet(q, kind, now);
    }
  }

  lemma CountOne(n: nat, size: nat, k: nat, limit: nat)
    requires limit > 0 && size == Min(limit, n) && n > 0
    requires n - size <= k * limit && (n - size > 0 ==> (k - 1) * limit < n - size) && (n == size ==> k == 0)
    ensures n <= (k + 1) * limit && k * limit < n
  {
    assert (k + 1) * limit == k * limit + limit && k * limit == (k - 1) * limit + limit;
  }

  /** The first batch of a drain, and the rest of it. */
  lemma FirstBatch(queues: seq<Queue>, batches: seq<seq<nat>>, kind: string, now: int, limit: nat)
    requires IsDrain(queues, batches, kind, now, limit) && batches != []
    ensures IsDrain(queues[1..], batches[1..], kind, now, limit)
    ensures |batches[0]| == Min(limit, |ReadySet(queues[0], kind, now)|)
    ensures |ReadySet(queues[1], kind, now)| == |ReadySet(queues[0], kind, now)| - |batches[0]|
  {
    BatchSize(queues[0], batches[0], kind, now, limit);
    SettledReady(queues[0], batches[0], kind, now, limit, queues[1]);
  }

  lemma FirstInOrder(queues: seq<Queue>, batches: seq<seq<nat>>, kind: string, now: int, limit: nat)
    requires IsDrain(queues, batches, kind, now, limit) && batches != []
    requires IsReadyList(queues[1], kind, now, Flat(batches[1..]))
    ensures IsReadyList(queues[0], kind, now, Flat(batches))
  {
    ReadyListGrows(queues[0], batches[0], kind, now, limit, queues[1], Flat(batches[1..]));
  }

  /**
   * The queue drains.  Claiming at one instant until nothing is ready takes the least number of
   * batches of `limit` messages that the ready messages need, none of them empty, and the batches one
   * after the other hold every ready message once, the oldest first.
   */
  lemma {:induction false} QueueDrains(queues: seq<Queue>, batches: seq<seq<nat>>, kind: string, now: int, limit: nat)
    requires limit > 0 && IsDrain(queues, batches, kind, now, limit)
    requires forall i :: 0 <= i < |batches| ==> batches[i] != []
    requires ReadySet(queues[|batches|], kind, now) == {}
    ensures IsReadyList(queues[0], kind, now, Flat(batches))
    ensures var n := |ReadySet(queues[0], kind, now)|;
            && n <= |batches| * limit
            && (n > 0 ==> (|batches| - 1) * limit < n)
            && (n == 0 ==> batches == [])
    decreases |batches|
  {
    if batches != [] {
      FirstBatch(queues, batches, kind, now, limit);
      QueueDrains(queues[1..], batches[1..], kind, now, limit);
      FirstInOrder(queues, batches, kind, now, limit);
      CountOne(|ReadySet(queues[0], kind, now)|, |batches[0]|, |batches| - 1, limit);
    }
  }

  // ---- A drain can always be made ----

  lemma {:induction false} Oldest(q: Queue, ids: set<nat>) returns (oldest: nat)
    requires ids != {} && ids <= q.Keys
    ensures oldest in ids && forall id :: id in ids ==> q[oldest].availableAt <= q[id].availableAt
  {
    var id :| id in ids;
    if ids == {id} {
      oldest := id;
    } else {
      var rest := Oldest(q, ids - {id});
      oldest := if q[rest].availableAt <= q[id].availableAt then rest else id;
      assert forall x :: x in ids ==> x == id || x in ids - {id};
    }
  }

  lemma {:induction false} OldestFirst(q: Queue, ids: set<nat>) returns (s: seq<nat>)
    requires ids <= q.Keys
    ensures Distinct(s) && Members(s) == ids && forall id :: id in s <==> id in ids
    ensures forall i, j :: 0 <= i < j < |s| ==> q[s[i]].availableAt <= q[s[j]].availableAt
  {
    if ids == {} {
      s := [];
    } else {
      var first := Oldest(q, ids);
      var rest := OldestFirst(q, ids - {first});
      s := [first] + rest;
      assert forall id :: id in s <==> id == first || id in rest;
    }
  }

  /** The claim query always has an answer. */
  lemma BatchExists(q: Queue, kind: string, now: int, limit: nat, locked: set<nat>) returns (rows: seq<nat>)
    ensures IsBatch(q, kind, now, limit, locked, rows)
  {
    var free := ReadySet(q, kind, now) - locked;
    var s := OldestFirst(q, free);
    rows := s[..Min(limit, |s|)];
    forall id | id in rows ensures id in free {
      var i :| 0 <= i < |rows| && rows[i] == id;
      assert s[i] == id;
    }
    forall id | id in free && id !in rows
      ensures |rows| == limit && forall r :: r in rows ==> q[r].availableAt <= q[id].availableAt
    {
      var j :| 0 <= j < |s| && s[j] == id;
      assert forall i :: 0 <= i < |rows| ==> s[i] in rows;
    }
  }

  lemma BatchFirst(q: Queue, rows: seq<nat>, queues: seq<Queue>, batches: seq<seq<nat>>, kind: string, now: int,
                   limit: nat)
    requires IsDrain(queues, batches, kind, now, limit)
    requires IsBatch(q, kind, now, limit, {}, rows) && Settled(q, rows, kind, now, queues[0])
    ensures IsDrain([q] + queues, [rows] + batches, kind, now, limit)
  {
  }

  /** Claiming on until nothing is ready comes to an end, whatever the queue. */
  lemma {:induction false} DrainExists(q: Queue, kind: string, now: int, limit: nat, visibility: int)
    returns (queues: seq<Queue>, batches: seq<seq<nat>>)
    requires limit > 0 && visibility > 0
    ensures IsDrain(queues, batches, kind, now, limit) && queues[0] == q
    ensures forall i :: 0 <= i < |batches| ==> batches[i] != []
    ensures ReadySet(queues[|batches|], kind, now) == {}
    decreases |ReadySet(q, kind, now)|
  {
    if ReadySet(q, kind, now) == {} {
      queues, batches := [q], [];
    } else {
      var rows := BatchExists(q, kind, now, limit, {});
      var after := Claimed(q, rows, now + visibility);
      BatchSize(q, rows, kind, now, limit);
      ClaimSettles(q, rows, kind, now, visibility);
      SettledReady(q, rows, kind, now, limit, after);
      var laterQueues, laterBatches := DrainExists(after, kind, now, limit, visibility);
      BatchFirst(q, rows, laterQueues, laterBatches, kind, now, limit);
      queues, batches := [q] + laterQueues, [rows] + laterBatches;
    }
  }
}
