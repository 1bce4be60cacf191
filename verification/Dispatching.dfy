/**
 * Dispatching a request to a partner (backend/src/api/channels/dispatch.py): the search over
 * partners and their channels, the first commit of `dispatch`, and the drain of its message.
 */
module Dispatching {
  import opened Fsm
  import opened Requests
  import opened Results
  import opened SlaEngine

  /**
   * The world outside: the active channels of a partner in priority order, what a delivery on one
   * of them ends with (per attempt number, so that it need not repeat), and the SLA policy.
   */
  datatype Environment = Environment(
    channels: string -> seq<string>,
    deliver: (string, string, nat) -> Outcome,
    policy: SlaPolicy)
  {
    predicate Valid() {
      policy.calendar.Valid()
    }
  }

  /** How `execute_dispatch` ends: its two returns, the refused transition and its three errors. */
  datatype DispatchEnd = Delivery | Undelivered | Refused | NoCategory | NoDispatchTime | SlaOutOfReach

  function PairsFor(env: Environment, partner: Option<string>): seq<(string, string)> {
    if partner.None? then []
    else
      var channels := env.channels(partner.value);
      seq(|channels|, j requires 0 <= j < |channels| => (partner.value, channels[j]))
  }

  function PairsUpTo(env: Environment, partners: seq<Option<string>>, n: nat): seq<(string, string)>
    requires n <= |partners|
  {
    if n == 0 then [] else PairsUpTo(env, partners, n - 1) + PairsFor(env, partners[n - 1])
  }

  /** Every partner with every one of its channels, in the order of the two loops. */
  function Pairs(env: Environment, partners: seq<Option<string>>): seq<(string, string)> {
    PairsUpTo(env, partners, |partners|)
  }

  function PartnersOf(row: Request): (r: seq<Option<string>>)
    ensures |r| == 1 + |row.chain|
  {
    [row.partner] + seq(|row.chain|, i requires 0 <= i < |row.chain| => Some(row.chain[i]))
  }

  /** The attempt on the `i`-th pair when `made` attempts were made before the search. */
  function AttemptOn(env: Environment, pairs: seq<(string, string)>, made: nat, i: nat): Attempt
    requires i < |pairs|
  {
    var number := made + i + 1;
    Attempt(number, pairs[i].1, env.deliver(pairs[i].0, pairs[i].1, number))
  }

  predicate Succeeds(env: Environment, pairs: seq<(string, string)>, made: nat, i: nat)
    requires i < |pairs|
  {
    AttemptOn(env, pairs, made, i).outcome != Failed
  }

  /** The first pair at or after `i` on which the delivery succeeds; `|pairs|` if there is none. */
  function FirstSuccess(env: Environment, pairs: seq<(string, string)>, made: nat, i: nat): (k: nat)
    requires i <= |pairs|
    ensures i <= k <= |pairs|
    ensures forall x :: i <= x < k ==> !Succeeds(env, pairs, made, x)
    ensures k < |pairs| ==> Succeeds(env, pairs, made, k)
    decreases |pairs| - i
  {
    if i == |pairs| || Succeeds(env, pairs, made, i) then i else FirstSuccess(env, pairs, made, i + 1)
  }

  function Recorded(env: Environment, pairs: seq<(string, string)>, made: nat, count: nat): seq<Attempt>
    requires count <= |pairs|
  {
    seq(count, i requires 0 <= i < count => AttemptOn(env, pairs, made, i))
  }

  /** The row when the search is over: the attempts up to the first success, and what that chose. */
  ghost function Searched(env: Environment, row: Request): Request {
    var pairs := Pairs(env, PartnersOf(row));
    var k := FirstSuccess(env, pairs, |row.attempts|, 0);
    if k < |pairs| then
      row.(attempts := row.attempts + Recorded(env, pairs, |row.attempts|, k + 1),
           partner := Some(pairs[k].0),
           channel := Some(pairs[k].1))
    else
      row.(attempts := row.attempts + Recorded(env, pairs, |row.attempts|, k))
  }

  ghost predicate Reachable(env: Environment, row: Request) {
    var pairs := Pairs(env, PartnersOf(row));
    FirstSuccess(env, pairs, |row.attempts|, 0) < |pairs|
  }

  ghost function EndOf(env: Environment, row: Request): DispatchEnd
    requires env.Valid()
  {
    if row.category.None? && Pairs(env, PartnersOf(row)) != [] then NoCategory
    else if Reachable(env, row) then
      if row.dispatchedAt.None? then NoDispatchTime
      else if env.policy.Started(row.sla, Accept, row.dispatchedAt.value).Failure? then SlaOutOfReach
      else Delivery
    else if CanTransition(row.status, FailedDispatch) then Undelivered
    else Refused
  }

  /** The row `execute_dispatch` leaves, also where it raises. */
  ghost function Executed(env: Environment, row: Request, now: int): Request
    requires env.Valid()
  {
    match EndOf(env, row)
    case NoCategory => row
    case NoDispatchTime | SlaOutOfReach | Refused => Searched(env, row)
    case Delivery =>
      Searched(env, row).(sla := env.policy.Started(row.sla, Accept, row.dispatchedAt.value).value)
    case Undelivered => Moved(Searched(env, row), FailedDispatch, now)
  }

  /** The pairs from `base` on are those of the partner. */
  ghost predicate StartsAt(env: Environment, pairs: seq<(string, string)>, base: int, partner: string) {
    && 0 <= base && base + |env.channels(partner)| <= |pairs|
    && forall j :: 0 <= j < |env.channels(partner)| ==> pairs[base + j] == (partner, env.channels(partner)[j])
  }

  lemma {:induction false} PairsKept(env: Environment, partners: seq<Option<string>>, i: nat, n: nat)
    requires i <= n <= |partners|
    ensures |PairsUpTo(env, partners, i)| <= |PairsUpTo(env, partners, n)|
    ensures forall k :: 0 <= k < |PairsUpTo(env, partners, i)| ==>
              PairsUpTo(env, partners, n)[k] == PairsUpTo(env, partners, i)[k]
  {
    if i < n {
      PairsKept(env, partners, i, n - 1);
    }
  }

  lemma PartnerStarts(env: Environment, partners: seq<Option<string>>, i: nat)
    requires i < |partners| && partners[i].Some?
    ensures StartsAt(env, Pairs(env, partners), |PairsUpTo(env, partners, i)|, partners[i].value)
  {
    var before, here := PairsUpTo(env, partners, i), PairsFor(env, partners[i]);
    PairsKept(env, partners, i + 1, |partners|);
    assert PairsUpTo(env, partners, i + 1) == before + here;
    forall j | 0 <= j < |here| ensures Pairs(env, partners)[|before| + j] == here[j] {
      assert (before + here)[|before| + j] == here[j];
    }
  }

  /** After the `earlier` attempts, the first `at` pairs were tried in vain. */
  ghost predicate Tried(env: Environment, pairs: seq<(string, string)>, earlier: seq<Attempt>,
                        attempts: seq<Attempt>, at: int)
  {
    && 0 <= at <= |pairs|
    && attempts == earlier + Recorded(env, pairs, |earlier|, at)
    && forall x :: 0 <= x < at ==> !Succeeds(env, pairs, |earlier|, x)
  }

  /** After the `earlier` attempts, the pair `chosen` was the first to succeed. */
  ghost predicate Found(env: Environment, pairs: seq<(string, string)>, earlier: seq<Attempt>,
                        attempts: seq<Attempt>, chosen: (string, string))
  {
    var k := FirstSuccess(env, pairs, |earlier|, 0);
    && k < |pairs| && pairs[k] == chosen
    && attempts == earlier + Recorded(env, pairs, |earlier|, k + 1)
  }

  lemma TryNext(env: Environment, pairs: seq<(string, string)>, earlier: seq<Attempt>,
                attempts: seq<Attempt>, at: nat)
    requires Tried(env, pairs, earlier, attempts, at) && at < |pairs|
    ensures |attempts| == |earlier| + at
    ensures var next := attempts + [AttemptOn(env, pairs, |earlier|, at)];
            if Succeeds(env, pairs, |earlier|, at) then Found(env, pairs, earlier, next, pairs[at])
            else Tried(env, pairs, earlier, next, at + 1)
  {
    assert Recorded(env, pairs, |earlier|, at + 1)
        == Recorded(env, pairs, |earlier|, at) + [AttemptOn(env, pairs, |earlier|, at)];
    assert attempts + [AttemptOn(env, pairs, |earlier|, at)]
        == earlier + Recorded(env, pairs, |earlier|, at + 1);
  }

  /** The inner loop: try the channels of one partner in their order. */
  method TryPartner(env: Environment, request: ServiceRequest, partner: string, attempted: nat,
                    ghost earlier: seq<Attempt>, ghost pairs: seq<(string, string)>)
    returns (chosen: Option<(string, string)>, raised: bool, attemptNo: nat)
    requires StartsAt(env, pairs, attempted - |earlier|, partner)
    requires Tried(env, pairs, earlier, request.attempts, attempted - |earlier|)
    modifies request`attempts
    ensures raised <==> request.category.None? && env.channels(partner) != []
    ensures raised ==> request.attempts == old(request.attempts) && chosen.None?
    ensures chosen.Some? ==>
              request.category.Some? && Found(env, pairs, earlier, request.attempts, chosen.value)
    ensures !raised && chosen.None? ==>
              && attemptNo == attempted + |env.channels(partner)|
              && Tried(env, pairs, earlier, request.attempts, attemptNo - |earlier|)
  {
    chosen, raised, attemptNo := None, false, attempted;
    var channels := env.channels(partner);
    for j := 0 to |channels|
      invariant attemptNo == attempted + j && chosen.None? && !raised
      invariant Tried(env, pairs, earlier, request.attempts, attemptNo - |earlier|)
      invariant j > 0 ==> request.category.Some?
      invariant j == 0 ==> request.attempts == old(request.attempts)
    {
      if request.category.None? {
        raised := true;
        break;
      }
      ghost var at := attemptNo - |earlier|;
      assert pairs[at] == (partner, channels[j]) by {
        assert pairs[attempted - |earlier| + j] == (partner, channels[j]);
      }
      TryNext(env, pairs, earlier, request.attempts, at);
      attemptNo := attemptNo + 1;
      var outcome := env.deliver(partner, channels[j], attemptNo);
      request.attempts := request.attempts + [Attempt(attemptNo, channels[j], outcome)];
      assert Attempt(attemptNo, channels[j], outcome) == AttemptOn(env, pairs, |earlier|, at);
      if outcome in {Sent, Delivered, Ack} {
        chosen := Some((partner, channels[j]));
        break;
      }
    }
  }

  /** The outer loop: try the partners one after the other until one of them takes the request. */
  method Search(env: Environment, request: ServiceRequest, partners: seq<Option<string>>)
    returns (chosen: Option<(string, string)>, raised: bool)
    modifies request`attempts
    ensures raised ==> request.category.None? && Pairs(env, partners) != [] && request.attempts == old(request.attempts)
    ensures request.category.None? && Pairs(env, partners) != [] ==> raised
    ensures !raised && chosen.Some? ==>
              Found(env, Pairs(env, partners), old(request.attempts), request.attempts, chosen.value)
    ensures !raised && chosen.None? ==>
              Tried(env, Pairs(env, partners), old(request.attempts), request.attempts, |Pairs(env, partners)|)
  {
    ghost var earlier, pairs := request.attempts, Pairs(env, partners);
    var attemptNo := |request.attempts|;
    chosen, raised := None, false;
    for i := 0 to |partners|
      invariant chosen.None? && !raised
      invariant attemptNo == |earlier| + |PairsUpTo(env, partners, i)|
      invariant Tried(env, pairs, earlier, request.attempts, attemptNo - |earlier|)
      invariant request.category.None? ==> attemptNo == |earlier|
    {
      if partners[i].Some? {
        PartnerStarts(env, partners, i);
        chosen, raised, attemptNo := TryPartner(env, request, partners[i].value, attemptNo, earlier, pairs);
        if raised || chosen.Some? {
          break;
        }
      }
    }
  }

  /** What a search that is over says of the row. */
  lemma SearchOver(env: Environment, row: Request, attempts: seq<Attempt>, chosen: Option<(string, string)>)
    requires var pairs := Pairs(env, PartnersOf(row));
             if chosen.Some? then Found(env, pairs, row.attempts, attempts, chosen.value)
             else Tried(env, pairs, row.attempts, attempts, |pairs|)
    ensures Reachable(env, row) <==> chosen.Some?
    ensures Searched(env, row)
            == if chosen.Some?
               then row.(attempts := attempts, partner := Some(chosen.value.0), channel := Some(chosen.value.1))
               else row.(attempts := attempts)
  {
    var pairs := Pairs(env, PartnersOf(row));
    var k := FirstSuccess(env, pairs, |row.attempts|, 0);
    assert k < |pairs| ==> Succeeds(env, pairs, |row.attempts|, k);
  }

  /** The end of a dispatch whose search chose a pair: the pair and the accept stage. */
  method TakeUp(env: Environment, request: ServiceRequest, chosen: (string, string)) returns (end: DispatchEnd)
    requires env.Valid()
    modifies request
    ensures var row := old(request.Row()).(partner := Some(chosen.0), channel := Some(chosen.1));
            if row.dispatchedAt.None? then end == NoDispatchTime && request.Row() == row
            else
              var sla := env.policy.Started(row.sla, Accept, row.dispatchedAt.value);
              if sla.Failure? then end == SlaOutOfReach && request.Row() == row
              else end == Delivery && request.Row() == row.(sla := sla.value)
  {
    request.partner := Some(chosen.0);
    request.channel := Some(chosen.1);
    if request.dispatchedAt.None? {
      return NoDispatchTime;
    }
    var sla := env.policy.SetAcceptDeadline(request.sla, request.dispatchedAt.value);
    if sla.Failure? {
      return SlaOutOfReach;
    }
    request.sla := sla.value.(acceptStartedAt := request.dispatchedAt);
    return Delivery;
  }

  /** Deliver the request, or move it to `FailedDispatch` when nobody takes it. */
  method ExecuteDispatch(env: Environment, request: ServiceRequest, now: int) returns (end: DispatchEnd)
    requires env.Valid()
    modifies request
    ensures end == EndOf(env, old(request.Row()))
    ensures request.Row() == Executed(env, old(request.Row()), now)
    ensures IsDispatch(env, old(request.Row()), end, request.Row())
  {
    ghost var row := request.Row();
    DispatchInOrder(env, row, now);
    var chosen, raised := Search(env, request, PartnersOf(request.Row()));
    if raised {
      return NoCategory;
    }
    SearchOver(env, row, request.attempts, chosen);
    if chosen.Some? {
      end := TakeUp(env, request, chosen.value);
      return;
    }
    var ok := ApplyTransition(request, FailedDispatch, now);
    return if ok then Undelivered else Refused;
  }

  /** `added` is the shortest prefix of the attempts on the pairs that ends in a success, or all of them. */
  ghost predicate IsShortestPrefix(env: Environment, pairs: seq<(string, string)>, made: nat, added: seq<Attempt>) {
    && |added| <= |pairs|
    && (forall i :: 0 <= i < |added| ==> added[i] == AttemptOn(env, pairs, made, i))
    && (forall i :: 0 <= i < |added| - 1 ==> added[i].outcome == Failed)
    && (|added| < |pairs| ==> added != [] && added[|added| - 1].outcome != Failed)
  }

  lemma RecordedIsShortest(env: Environment, pairs: seq<(string, string)>, made: nat)
    ensures var k := FirstSuccess(env, pairs, made, 0);
            && IsShortestPrefix(env, pairs, made, Recorded(env, pairs, made, if k < |pairs| then k + 1 else k))
            && (k < |pairs| <==> exists i :: 0 <= i < |pairs| && Succeeds(env, pairs, made, i))
  {
    var k := FirstSuccess(env, pairs, made, 0);
    var added := Recorded(env, pairs, made, if k < |pairs| then k + 1 else k);
    forall i | 0 <= i < k ensures added[i].outcome == Failed {
      assert !Succeeds(env, pairs, made, i);
    }
    if k < |pairs| {
      assert Succeeds(env, pairs, made, k);
    }
  }

  lemma SearchExact(env: Environment, row: Request)
    ensures var pairs, made := Pairs(env, PartnersOf(row)), |row.attempts|;
            var after := Searched(env, row);
            && made <= |after.attempts| && after.attempts[..made] == row.attempts
            && IsShortestPrefix(env, pairs, made, after.attempts[made..])
            && (Reachable(env, row) <==> exists i :: 0 <= i < |pairs| && Succeeds(env, pairs, made, i))
            && (Reachable(env, row) ==>
                  var last := |after.attempts| - 1 - made;
                  && 0 <= last && after.attempts[made + last].outcome != Failed
                  && after.partner == Some(pairs[last].0) && after.channel == Some(pairs[last].1))
            && (!Reachable(env, row) ==>
                  && |after.attempts| == made + |pairs|
                  && after == row.(attempts := after.attempts))
  {
    var pairs, made := Pairs(env, PartnersOf(row)), |row.attempts|;
    var k := FirstSuccess(env, pairs, made, 0);
    var added := Recorded(env, pairs, made, if k < |pairs| then k + 1 else k);
    assert Searched(env, row).attempts == row.attempts + added;
    assert Searched(env, row).attempts[made..] == added;
    RecordedIsShortest(env, pairs, made);
  }

  /**
   * The dispatch is exact.  From `Dispatched`, with a category and a dispatch time, which every run
   * supplies, the attempts added are the shortest prefix described above.  Some pair succeeds exactly
   * if the request is delivered or the calendar raises: then the pair of the last attempt is written,
   * and the status kept.  None succeeds exactly if the request has failed.
   */
  lemma DispatchExact(env: Environment, row: Request, now: int)
    requires env.Valid() && row.status == Dispatched && row.category.Some? && row.dispatchedAt.Some?
    ensures var pairs, made := Pairs(env, PartnersOf(row)), |row.attempts|;
            var succeeds := exists i :: 0 <= i < |pairs| && Succeeds(env, pairs, made, i);
            var starts := env.policy.Started(row.sla, Accept, row.dispatchedAt.value).Success?;
            && (EndOf(env, row) == Delivery <==> succeeds && starts)
            && (EndOf(env, row) == SlaOutOfReach <==> succeeds && !starts)
            && (EndOf(env, row) == Undelivered <==> !succeeds)
    ensures var pairs, made := Pairs(env, PartnersOf(row)), |row.attempts|;
            var after := Executed(env, row, now);
            && made <= |after.attempts| && after.attempts[..made] == row.attempts
            && IsShortestPrefix(env, pairs, made, after.attempts[made..])
            && (EndOf(env, row) in {Delivery, SlaOutOfReach} ==>
                  var last := |after.attempts| - 1 - made;
                  && 0 <= last && after.attempts[made + last].outcome != Failed
                  && after.partner == Some(pairs[last].0) && after.channel == Some(pairs[last].1)
                  && after.status == Dispatched && after.history == row.history
                  && (EndOf(env, row) == SlaOutOfReach ==> after.sla == row.sla))
            && (EndOf(env, row) == Undelivered ==>
                  && |after.attempts| == made + |pairs|
                  && after.partner == row.partner && after.channel == row.channel
                  && after.status == FailedDispatch)
  {
    SearchExact(env, row);
    assert Executed(env, row, now).attempts == Searched(env, row).attempts;
  }

  // ---- The order of the search, in terms of the row ----

  /** Whom a search asks as the `i`-th: first the assigned partner, then the chain from its head on. */
  ghost function Asked(row: Request, i: nat): Option<string>
    requires i <= |row.chain|
  {
    if i == 0 then row.partner else Some(row.chain[i - 1])
  }

  ghost function ChannelsOf(env: Environment, row: Request, i: nat): seq<string>
    requires i <= |row.chain|
  {
    if Asked(row, i).None? then [] else env.channels(Asked(row, i).value)
  }

  /** How many channels the partners before the `i`-th have. */
  ghost function Offset(env: Environment, row: Request, i: nat): nat
    requires i <= |row.chain| + 1
  {
    if i == 0 then 0 else Offset(env, row, i - 1) + |ChannelsOf(env, row, i - 1)|
  }

  ghost predicate IsTry(env: Environment, row: Request, i: nat, j: nat) {
    i <= |row.chain| && j < |ChannelsOf(env, row, i)|
  }

  /** The attempt on the `j`-th channel of the `i`-th partner. */
  ghost function TryAt(env: Environment, row: Request, i: nat, j: nat): Attempt
    requires IsTry(env, row, i, j)
  {
    var number, channel := |row.attempts| + Offset(env, row, i) + j + 1, ChannelsOf(env, row, i)[j];
    Attempt(number, channel, env.deliver(Asked(row, i).value, channel, number))
  }

  /** If there were so many attempts, this one was made in its place. */
  ghost predicate IsMadeAt(env: Environment, row: Request, attempts: seq<Attempt>, i: nat, j: nat) {
    IsTry(env, row, i, j) ==>
      var k := |row.attempts| + Offset(env, row, i) + j;
      k < |attempts| ==> attempts[k] == TryAt(env, row, i, j)
  }

  /** The attempts added are those on the channels of the partners, in the order of both. */
  ghost predicate TriedInOrder(env: Environment, row: Request, after: Request) {
    var made := |row.attempts|;
    && made <= |after.attempts| <= made + Offset(env, row, |row.chain| + 1)
    && after.attempts[..made] == row.attempts
    && forall i: nat, j: nat :: IsMadeAt(env, row, after.attempts, i, j)
  }

  /** The `j`-th channel of the `i`-th partner took the request: all before it failed, and none after it
      was tried. */
  ghost predicate TookAt(env: Environment, row: Request, after: Request, i: nat, j: nat) {
    && IsTry(env, row, i, j) && TryAt(env, row, i, j).outcome != Failed
    && (forall k: nat, l: nat :: IsTry(env, row, k, l) && (k < i || (k == i && l < j)) ==>
          TryAt(env, row, k, l).outcome == Failed)
    && |after.attempts| == |row.attempts| + Offset(env, row, i) + j + 1
    && after.partner == Asked(row, i) && after.channel == Some(ChannelsOf(env, row, i)[j])
  }

  ghost predicate SomebodyTook(env: Environment, row: Request, after: Request) {
    exists i: nat, j: nat :: TookAt(env, row, after, i, j)
  }

  ghost predicate NobodyTook(env: Environment, row: Request, after: Request) {
    && (forall i: nat, j: nat :: IsTry(env, row, i, j) ==> TryAt(env, row, i, j).outcome == Failed)
    && |after.attempts| == |row.attempts| + Offset(env, row, |row.chain| + 1)
    && after.partner == row.partner && after.channel == row.channel
  }

  lemma {:induction false} PairsBefore(env: Environment, row: Request, i: nat)
    requires i <= |row.chain| + 1
    ensures |PairsUpTo(env, PartnersOf(row), i)| == Offset(env, row, i)
  {
    if i > 0 {
      PairsBefore(env, row, i - 1);
      assert PartnersOf(row)[i - 1] == Asked(row, i - 1);
    }
  }

  lemma TryHasPair(env: Environment, row: Request, i: nat, j: nat)
    requires IsTry(env, row, i, j)
    ensures var pairs, k := Pairs(env, PartnersOf(row)), Offset(env, row, i) + j;
            k < |pairs| && pairs[k] == (Asked(row, i).value, ChannelsOf(env, row, i)[j])
  {
    assert PartnersOf(row)[i] == Asked(row, i);
    PairsBefore(env, row, i);
    PartnerStarts(env, PartnersOf(row), i);
    assert Pairs(env, PartnersOf(row))[Offset(env, row, i) + j] == (Asked(row, i).value, ChannelsOf(env, row, i)[j]);
  }

  lemma TryIsPair(env: Environment, row: Request, i: nat, j: nat)
    requires IsTry(env, row, i, j)
    ensures var pairs, k := Pairs(env, PartnersOf(row)), Offset(env, row, i) + j;
            && k < |pairs|
            && AttemptOn(env, pairs, |row.attempts|, k) == TryAt(env, row, i, j)
            && Some(pairs[k].0) == Asked(row, i) && pairs[k].1 == ChannelsOf(env, row, i)[j]
  {
    TryHasPair(env, row, i, j);
  }

  /** The partner whose block of pairs the `k`-th pair belongs to. */
  lemma {:induction false} BlockOf(env: Environment, partners: seq<Option<string>>, n: nat, k: nat) returns (i: nat)
    requires n <= |partners| && k < |PairsUpTo(env, partners, n)|
    ensures i < n && partners[i].Some?
    ensures |PairsUpTo(env, partners, i)| <= k < |PairsUpTo(env, partners, i)| + |PairsFor(env, partners[i])|
  {
    if k < |PairsUpTo(env, partners, n - 1)| {
      i := BlockOf(env, partners, n - 1, k);
    } else {
      i := n - 1;
    }
  }

  lemma PairIsTry(env: Environment, row: Request, k: nat) returns (i: nat, j: nat)
    requires k < |Pairs(env, PartnersOf(row))|
    ensures IsTry(env, row, i, j) && k == Offset(env, row, i) + j
  {
    i := BlockOf(env, PartnersOf(row), |PartnersOf(row)|, k);
    assert PartnersOf(row)[i] == Asked(row, i);
    PairsBefore(env, row, i);
    j := k - Offset(env, row, i);
  }

  lemma {:induction false} OffsetGrows(env: Environment, row: Request, k: nat, i: nat)
    requires k < i <= |row.chain| + 1
    ensures Offset(env, row, k) + |ChannelsOf(env, row, k)| <= Offset(env, row, i)
  {
    if k < i - 1 {
      OffsetGrows(env, row, k, i - 1);
    }
  }

  lemma OneTry(env: Environment, row: Request, attempts: seq<Attempt>, i: nat, j: nat)
    requires |row.attempts| <= |attempts|
    requires IsShortestPrefix(env, Pairs(env, PartnersOf(row)), |row.attempts|, attempts[|row.attempts|..])
    ensures IsMadeAt(env, row, attempts, i, j)
  {
    if IsTry(env, row, i, j) {
      var k := Offset(env, row, i) + j;
      TryIsPair(env, row, i, j);
      if k < |attempts| - |row.attempts| {
        assert attempts[|row.attempts|..][k] == attempts[|row.attempts| + k];
      }
    }
  }

  lemma TriesOfSearch(env: Environment, row: Request)
    ensures TriedInOrder(env, row, Searched(env, row))
  {
    var after := Searched(env, row).attempts;
    SearchExact(env, row);
    PairsBefore(env, row, |row.chain| + 1);
    forall i: nat, j: nat ensures IsMadeAt(env, row, after, i, j) {
      OneTry(env, row, after, i, j);
    }
  }

  lemma FoundInOrder(env: Environment, row: Request)
    ensures Reachable(env, row) ==> SomebodyTook(env, row, Searched(env, row))
  {
    var pairs, made := Pairs(env, PartnersOf(row)), |row.attempts|;
    var first := FirstSuccess(env, pairs, made, 0);
    if first < |pairs| {
      var i, j := PairIsTry(env, row, first);
      TryIsPair(env, row, i, j);
      forall k: nat, l: nat | IsTry(env, row, k, l) && (k < i || (k == i && l < j))
        ensures TryAt(env, row, k, l).outcome == Failed
      {
        TryIsPair(env, row, k, l);
        if k < i {
          OffsetGrows(env, row, k, i);
        }
        assert !Succeeds(env, pairs, made, Offset(env, row, k) + l);
      }
      assert TookAt(env, row, Searched(env, row), i, j);
    }
  }

  lemma MissedInOrder(env: Environment, row: Request)
    ensures !Reachable(env, row) ==> NobodyTook(env, row, Searched(env, row))
  {
    var pairs, made := Pairs(env, PartnersOf(row)), |row.attempts|;
    if !Reachable(env, row) {
      SearchExact(env, row);
      PairsBefore(env, row, |row.chain| + 1);
      forall i: nat, j: nat | IsTry(env, row, i, j) ensures TryAt(env, row, i, j).outcome == Failed {
        TryIsPair(env, row, i, j);
        assert !Succeeds(env, pairs, made, Offset(env, row, i) + j);
      }
    }
  }

  /** The accept stage from the dispatch time on, or the calendar's error. */
  ghost predicate IsAcceptStage(env: Environment, row: Request, end: DispatchEnd, sla: Sla)
    requires env.Valid()
  {
    && (end == NoDispatchTime <==> row.dispatchedAt.None?)
    && (row.dispatchedAt.Some? ==>
          match env.policy.calendar.Deadline(row.dispatchedAt.value, env.policy.acceptTicks)
          case Failure(_) => end == SlaOutOfReach
          case Success(deadline) =>
            && end == Delivery
            && sla == row.sla.(acceptDeadline := Some(deadline), acceptStartedAt := row.dispatchedAt,
                               pauses := if row.sla.pauses.Missing? then Intervals([]) else row.sla.pauses))
    && (end != Delivery ==> sla == row.sla)
  }

  /** What a dispatch promises: who was asked in which order, who got the request, and by when it must be
      accepted. */
  ghost predicate IsDispatch(env: Environment, row: Request, end: DispatchEnd, after: Request)
    requires env.Valid()
  {
    && (end == NoCategory <==> row.category.None? && Offset(env, row, |row.chain| + 1) > 0)
    && (end == NoCategory ==> after == row)
    && (end != NoCategory ==> TriedInOrder(env, row, after))
    && (end in {Delivery, NoDispatchTime, SlaOutOfReach} ==>
          && SomebodyTook(env, row, after) && IsAcceptStage(env, row, end, after.sla)
          && after.status == row.status && after.history == row.history)
    && (end in {Undelivered, Refused} ==> NobodyTook(env, row, after) && after.sla == row.sla)
    && (end == Undelivered ==>
          && row.status == Dispatched && after.status == FailedDispatch
          && after.history == row.history + [Change(Dispatched, FailedDispatch)])
    && (end == Refused ==>
          row.status != Dispatched && after.status == row.status && after.history == row.history)
    && after == row.(attempts := after.attempts, partner := after.partner, channel := after.channel,
                     sla := after.sla, status := after.status, history := after.history)
  }

  lemma CategoryMissed(env: Environment, row: Request)
    requires env.Valid()
    ensures EndOf(env, row) == NoCategory <==> row.category.None? && Offset(env, row, |row.chain| + 1) > 0
  {
    PairsBefore(env, row, |row.chain| + 1);
  }

  /** From every row, the search asks the partners in their order, each on its channels in theirs. */
  lemma DispatchInOrder(env: Environment, row: Request, now: int)
    requires env.Valid()
    ensures IsDispatch(env, row, EndOf(env, row), Executed(env, row, now))
  {
    CategoryMissed(env, row);
    SearchedFrame(env, row);
    if EndOf(env, row) != NoCategory {
      TriesOfSearch(env, row);
      FoundInOrder(env, row);
      MissedInOrder(env, row);
      SameSearch(env, row, Searched(env, row), Executed(env, row, now));
    }
  }

  lemma SearchedFrame(env: Environment, row: Request)
    ensures var after := Searched(env, row);
            after == row.(attempts := after.attempts, partner := after.partner, channel := after.channel)
  {
  }

  lemma SameSearch(env: Environment, row: Request, searched: Request, after: Request)
    requires after.attempts == searched.attempts
    requires after.partner == searched.partner && after.channel == searched.channel
    ensures TriedInOrder(env, row, searched) ==> TriedInOrder(env, row, after)
    ensures SomebodyTook(env, row, searched) ==> SomebodyTook(env, row, after)
    ensures NobodyTook(env, row, searched) ==> NobodyTook(env, row, after)
  {
    if SomebodyTook(env, row, searched) {
      var i: nat, j: nat :| TookAt(env, row, searched, i, j);
      assert TookAt(env, row, after, i, j);
    }
  }

  // ---- The dispatch service ----

  /** The first commit of `dispatch`: the move and the message for the drain, together or not at all. */
  method StartDispatch(request: ServiceRequest, now: int) returns (ok: bool)
    modifies request
    ensures ok <==> CanStart(old(request.Row()))
    ensures request.Row() == if ok then Started(old(request.Row()), now) else old(request.Row())
    ensures ok <==> old(request.status == Assigned && request.partner.Some? && request.category.Some?)
    ensures ok ==>
              && IsMove(old(request.Row()), Dispatched, now,
                        request.Row().(dispatchMessages := old(request.dispatchMessages)))
              && request.dispatchMessages == old(request.dispatchMessages) + 1
  {
    if request.status != Assigned {
      return false;
    }
    if request.partner.None? || request.category.None? {
      return false;
    }
    ok := ApplyTransition(request, Dispatched, now);
    request.dispatchMessages := request.dispatchMessages + 1;
  }

  predicate CanStart(row: Request) {
    row.status == Assigned && row.partner.Some? && row.category.Some?
  }

  function Started(row: Request, now: int): Request {
    Moved(row, Dispatched, now).(dispatchMessages := row.dispatchMessages + 1)
  }

  predicate IsError(end: DispatchEnd) {
    end !in {Delivery, Undelivered}
  }

  /** The row after the drain of one of its messages; the message is done unless something raised. */
  ghost function Drained(env: Environment, row: Request, now: int): Request
    requires env.Valid() && row.dispatchMessages > 0
  {
    var after := Executed(env, row, now);
    if IsError(EndOf(env, row)) then after else after.(dispatchMessages := row.dispatchMessages - 1)
  }

  method DrainMessage(env: Environment, request: ServiceRequest, now: int) returns (end: DispatchEnd)
    requires env.Valid() && request.dispatchMessages > 0
    modifies request
    ensures end == EndOf(env, old(request.Row()))
    ensures request.Row() == Drained(env, old(request.Row()), now)
    ensures request.dispatchMessages == old(request.dispatchMessages) - if end in {Delivery, Undelivered} then 1 else 0
  {
    end := ExecuteDispatch(env, request, now);
    if !IsError(end) {
      request.dispatchMessages := request.dispatchMessages - 1;
    }
  }

  /** The row after a worker or a handler drains one of its messages once more.  If that raises, a
      handler rolls back and leaves the message; a worker commits what the session holds, and gives up
      on the message after its last attempt. */
  ghost function Redelivered(env: Environment, row: Request, dirty: bool, last: bool, now: int): Request
    requires env.Valid() && row.dispatchMessages > 0
  {
    if !IsError(EndOf(env, row)) then Drained(env, row, now)
    else if !dirty then row
    else if last then Executed(env, row, now).(dispatchMessages := row.dispatchMessages - 1)
    else Executed(env, row, now)
  }

  /** The message is closed when the search is over or a worker gives up on it, and nothing of an attempt is
      left by a handler that fails. */
  lemma RedeliversAsPromised(env: Environment, row: Request, dirty: bool, last: bool, now: int)
    requires env.Valid() && row.dispatchMessages > 0
    ensures var end, after := EndOf(env, row), Redelivered(env, row, dirty, last, now);
            var closed := end in {Delivery, Undelivered} || (dirty && last);
            && after.dispatchMessages == row.dispatchMessages - (if closed then 1 else 0)
            && if end in {Delivery, Undelivered} || dirty
               then IsDispatch(env, row, end, after.(dispatchMessages := row.dispatchMessages))
               else after == row
  {
    DispatchInOrder(env, row, now);
    assert Executed(env, row, now).dispatchMessages == row.dispatchMessages;
  }
}
