/**
 * The webhook outbox of a project: delivery rows, leases, fencing and attempt counting
 * (packages/db/src/repository.ts, packages/webhooks/src/delivery.ts). Events, endpoints and deliveries are numbered by
 * their position; a lease owner is a value that no earlier claim has used.
 */
module Webhooks {
  import opened Prelude

  type EventId = nat
  type EndpointId = nat
  type DeliveryId = nat
  type Owner = nat

  datatype DeliveryStatus = Pending | Retry | Claimed | Delivered | Failed

  datatype Delivery = Delivery(
    event: EventId,
    endpoint: EndpointId,
    status: DeliveryStatus,
    attemptCount: nat,
    nextAttemptAt: Option<int>,
    leaseOwner: Option<Owner>,
    leaseUntil: Option<int>)

  datatype Outbox = Outbox(enabled: seq<bool>, events: nat, deliveries: seq<Delivery>)

  const NEW_OUTBOX := Outbox([], 0, [])

  // ---- What each database transaction does -------------------------------------------------------------------------

  /** Creating an endpoint that exists enables it again. */
  function SetEndpoint(box: Outbox, id: EndpointId, on: bool): Outbox {
    if id < |box.enabled| then box.(enabled := box.enabled[id := on])
    else if on then box.(enabled := box.enabled + [true])
    else box
  }

  predicate HasDelivery(deliveries: seq<Delivery>, event: EventId, endpoint: EndpointId) {
    exists i :: 0 <= i < |deliveries| && deliveries[i].event == event && deliveries[i].endpoint == endpoint
  }

  /** One row for each of the first n endpoints that is enabled and has none for this event. */
  function NewDeliveries(box: Outbox, event: EventId, now: int, n: nat): seq<Delivery>
    requires n <= |box.enabled|
  {
    if n == 0 then []
    else
      NewDeliveries(box, event, now, n - 1)
      + (if box.enabled[n - 1] && !HasDelivery(box.deliveries, event, n - 1)
         then [Delivery(event, n - 1, Pending, 0, Some(now), None, None)] else [])
  }

  function InsertEvent(box: Outbox, now: int): Outbox {
    Outbox(box.enabled, box.events + 1, box.deliveries + NewDeliveries(box, box.events, now, |box.enabled|))
  }

  datatype Scope = AnyDue | OfEvent(event: EventId)

  predicate Expired(row: Delivery, now: int) {
    row.leaseUntil.Some? && row.leaseUntil.value < now
  }

  predicate Claimable(row: Delivery, scope: Scope, now: int) {
    && (row.status.Pending? || row.status.Retry? || (scope.AnyDue? && row.status.Claimed? && Expired(row, now)))
    && (row.nextAttemptAt.Some? ==> row.nextAttemptAt.value <= now)
    && (row.leaseUntil.Some? ==> Expired(row, now))
    && (scope.OfEvent? ==> row.event == scope.event)
  }

  function ClaimRow(row: Delivery, owner: Owner, until: int): Delivery {
    row.(status := Claimed, leaseOwner := Some(owner), leaseUntil := Some(until))
  }

  /** Claims the picked rows that are still claimable. */
  function Claim(rows: seq<Delivery>, picked: seq<DeliveryId>, scope: Scope, owner: Owner, now: int, until: int)
    : (after: seq<Delivery>)
    ensures |after| == |rows|
    ensures forall i :: 0 <= i < |rows| ==>
              after[i] == if i in picked && Claimable(rows[i], scope, now) then ClaimRow(rows[i], owner, until) else rows[i]
  {
    seq(|rows|, i requires 0 <= i < |rows| =>
      if i in picked && Claimable(rows[i], scope, now) then ClaimRow(rows[i], owner, until) else rows[i])
  }

  predicate Holds(row: Delivery, owner: Owner) {
    row.leaseOwner == Some(owner) && row.status.Claimed?
  }

  function Clamp(value: int, low: int, high: int): int {
    Min(Max(value, low), high)
  }

  function RenewLease(rows: seq<Delivery>, id: DeliveryId, owner: Owner, now: int, seconds: int): seq<Delivery> {
    if id < |rows| && Holds(rows[id], owner)
    then rows[id := rows[id].(leaseUntil := Some(now + 1000 * Clamp(seconds, 15, 900)))]
    else rows
  }

  function ReleaseRow(row: Delivery, now: int): Delivery {
    row.(status := Retry, leaseOwner := None, leaseUntil := None, nextAttemptAt := OrElse(row.nextAttemptAt, Some(now)))
  }

  function ReleaseLease(rows: seq<Delivery>, id: DeliveryId, owner: Owner, now: int): seq<Delivery> {
    if id < |rows| && Holds(rows[id], owner) then rows[id := ReleaseRow(rows[id], now)] else rows
  }

  datatype Completion = Completion(success: bool, retryAt: Option<int>)

  function CompleteRow(row: Delivery, c: Completion): Delivery {
    row.(attemptCount := row.attemptCount + 1,
         status := if c.success then Delivered else if c.retryAt.Some? then Retry else Failed,
         nextAttemptAt := c.retryAt, leaseOwner := None, leaseUntil := None)
  }

  /** With an owner the completion is fenced: it only reaches a row that this owner still leases. */
  function Complete(rows: seq<Delivery>, id: DeliveryId, owner: Option<Owner>, c: Completion): seq<Delivery> {
    if id < |rows| && (owner.None? || rows[id].leaseOwner == owner) then rows[id := CompleteRow(rows[id], c)] else rows
  }

  predicate RetriedByOperator(row: Delivery, endpoint: Option<EndpointId>) {
    row.status.Failed? && (endpoint.Some? ==> row.endpoint == endpoint.value)
  }

  function RetryRow(row: Delivery, now: int): Delivery {
    row.(status := Retry, nextAttemptAt := Some(now), leaseOwner := None, leaseUntil := None)
  }

  function RetryFailed(rows: seq<Delivery>, endpoint: Option<EndpointId>, now: int): (after: seq<Delivery>)
    ensures |after| == |rows|
    ensures forall i :: 0 <= i < |rows| ==>
              after[i] == if RetriedByOperator(rows[i], endpoint) then RetryRow(rows[i], now) else rows[i]
  {
    seq(|rows|, i requires 0 <= i < |rows| => if RetriedByOperator(rows[i], endpoint) then RetryRow(rows[i], now) else rows[i])
  }

  // ---- How a worker decides ----------------------------------------------------------------------------------------

  type MaxAttempts = n: nat | 1 <= n <= 20 witness 8

  const HOUR_MS := 3600000

  /** A Retry-After header as the platform reads it: as a finite number, as a date, as both or as neither. */
  datatype RetryAfter = RetryAfter(seconds: Option<real>, date: Option<int>)

  function Ceil(x: real): int {
    if x.Floor as real == x then x.Floor else x.Floor + 1
  }

  function RetryAfterMs(header: Option<RetryAfter>, now: int): (delay: Option<int>)
    ensures delay.Some? ==> 0 <= delay.value <= HOUR_MS
    ensures delay.Some? <==>
              header.Some? && ((header.value.seconds.Some? && header.value.seconds.value >= 0.0) || header.value.date.Some?)
    // The whole milliseconds that cover the seconds asked for, or the time up to the date, capped by the hour.
    ensures delay.Some? && header.value.seconds.Some? && header.value.seconds.value >= 0.0 ==>
              var asked := header.value.seconds.value * 1000.0;
              if asked > HOUR_MS as real then delay.value == HOUR_MS else asked <= delay.value as real < asked + 1.0
    ensures delay.Some? && !(header.value.seconds.Some? && header.value.seconds.value >= 0.0) ==>
              now + delay.value == Clamp(header.value.date.value, now, now + HOUR_MS)
  {
    if header.None? then None
    else if header.value.seconds.Some? && header.value.seconds.value >= 0.0
    then Some(Min(HOUR_MS, Ceil(header.value.seconds.value * 1000.0)))
    else if header.value.date.Some? then Some(Min(HOUR_MS, Max(0, header.value.date.value - now)))
    else None
  }

  function BackoffMs(attempt: nat, jitter: nat): nat {
    Min(HOUR_MS, 5000 * Pow2(Min(attempt, 8))) + jitter
  }

  /** When to try again after an attempt, or never. */
  function NextAttempt(max: MaxAttempts, attemptCount: nat, header: Option<RetryAfter>, now: int, jitter: nat): Option<int> {
    if attemptCount + 1 >= max then None
    else Some(now + OrElse(RetryAfterMs(header, now), Some(BackoffMs(attemptCount + 1, jitter))).value)
  }

  lemma BackoffIsBounded(attempt: nat, jitter: nat)
    requires jitter < 1000
    ensures BackoffMs(attempt, jitter) < HOUR_MS
    ensures attempt <= 8 ==> BackoffMs(attempt, jitter) == 5000 * Pow2(attempt) + jitter
    ensures attempt >= 8 ==> BackoffMs(attempt, jitter) == 1280000 + jitter
  {
    assert Pow2(1) == 2 && Pow2(2) == 4 && Pow2(3) == 8 && Pow2(4) == 16;
    assert Pow2(5) == 32 && Pow2(6) == 64 && Pow2(7) == 128 && Pow2(8) == 256;
    assert attempt == 0 || attempt == 1 || attempt == 2 || attempt == 3 || attempt == 4 || attempt == 5 || attempt == 6
           || attempt == 7 || attempt >= 8;
  }

  /** There is a next attempt exactly while attempts are left, never in the past and always within the hour. */
  lemma NextAttemptExactlyWhen(max: MaxAttempts, attemptCount: nat, header: Option<RetryAfter>, now: int, jitter: nat)
    requires jitter < 1000
    ensures var next := NextAttempt(max, attemptCount, header, now, jitter);
            && (next.Some? <==> attemptCount + 1 < max)
            && (next.Some? ==> now <= next.value <= now + HOUR_MS)
            && (next.Some? && RetryAfterMs(header, now).None? ==> now + 10000 <= next.value)
  {
    BackoffIsBounded(attemptCount + 1, jitter);
    GrowingPow2(1, Min(attemptCount + 1, 8));
  }

  lemma {:induction false} GrowingPow2(low: nat, high: nat)
    requires low <= high
    ensures Pow2(low) <= Pow2(high)
    decreases high
  {
    if low < high {
      GrowingPow2(low, high - 1);
    }
  }

  datatype Outcome =
    | EndpointUnavailable
    | Answered(status: int, retryAfter: Option<RetryAfter>)
    | Threw

  predicate IsSuccess(status: int) {
    200 <= status < 300
  }

  predicate IsRetryable(status: int) {
    status == 408 || status == 425 || status == 429 || status >= 500
  }

  /** The completion a worker asks for, from the attempt count it read when it claimed the row. */
  function CompletionFor(max: MaxAttempts, outcome: Outcome, attemptCount: nat, now: int, jitter: nat): Completion {
    match outcome
    case EndpointUnavailable => Completion(false, None)
    case Answered(status, retryAfter) =>
      if IsSuccess(status) then Completion(true, None)
      else Completion(false, if IsRetryable(status) then NextAttempt(max, attemptCount, retryAfter, now, jitter) else None)
    case Threw => Completion(false, NextAttempt(max, attemptCount, None, now, jitter))
  }

  /** The request got no answer, or one that asks for another try. */
  predicate WorthRetrying(outcome: Outcome) {
    outcome.Threw? || (outcome.Answered? && (outcome.status in {408, 425, 429} || 500 <= outcome.status))
  }

  /** The delay that the answer itself asks for. */
  function HintedDelay(outcome: Outcome, now: int): Option<int> {
    if outcome.Answered? then RetryAfterMs(outcome.retryAfter, now) else None
  }

  /**
   * The row after an attempt with this outcome: DELIVERED for a 2xx answer; RETRY, with its time, while attempts are left
   * and another try is worth it; FAILED for everything else.
   */
  predicate Judged(max: MaxAttempts, outcome: Outcome, attempts: nat, now: int, jitter: nat, row: Delivery) {
    && (row.status.Delivered? <==> outcome.Answered? && 200 <= outcome.status <= 299)
    && (row.status.Retry? <==> WorthRetrying(outcome) && attempts + 1 < max)
    && (row.status.Delivered? || row.status.Retry? || row.status.Failed?)
    && (if row.status.Retry? then
          var hint := HintedDelay(outcome, now);
          row.nextAttemptAt == Some(now + if hint.Some? then hint.value else BackoffMs(attempts + 1, jitter))
        else row.nextAttemptAt.None?)
    && row.attemptCount == attempts + 1 && row.leaseOwner.None? && row.leaseUntil.None?
  }

  /** What a worker asks for is what the outcome deserves. */
  lemma CompletionIsJudged(max: MaxAttempts, outcome: Outcome, now: int, jitter: nat, row: Delivery)
    ensures Judged(max, outcome, row.attemptCount, now, jitter,
                   CompleteRow(row, CompletionFor(max, outcome, row.attemptCount, now, jitter)))
  {
  }

  // ---- Workers, endpoints and operators in any order ---------------------------------------------------------------

  /** The rows, the attempt count each owner read with each row it claimed, and the owners used so far. */
  datatype System = System(box: Outbox, seen: map<(Owner, DeliveryId), nat>, owners: set<Owner>)

  const NEW_SYSTEM := System(NEW_OUTBOX, map[], {})

  datatype Action =
    | EndpointSet(endpoint: EndpointId, on: bool)
    | EventInserted(now: int)
    | RowsClaimed(owner: Owner, picked: seq<DeliveryId>, scope: Scope, now: int, until: int)
    | LeaseRenewed(owner: Owner, id: DeliveryId, now: int, seconds: int)
    | LeaseReleased(owner: Owner, id: DeliveryId, now: int)
    | DeliveryEnded(owner: Owner, id: DeliveryId, outcome: Outcome, now: int, jitter: nat)
    | FailedRetried(of: Option<EndpointId>, now: int)

  /** What the claiming owner reads: the rows as it leaves them. */
  function SeenAfterClaim(sys: System, rows: seq<Delivery>, owner: Owner): map<(Owner, DeliveryId), nat> {
    sys.seen + map id: DeliveryId | id < |rows| && Holds(rows[id], owner) :: (owner, id) := rows[id].attemptCount
  }

  function WithRows(sys: System, rows: seq<Delivery>): System {
    sys.(box := sys.box.(deliveries := rows))
  }

  function Act(max: MaxAttempts, sys: System, a: Action): System {
    match a
    case EndpointSet(endpoint, on) => sys.(box := SetEndpoint(sys.box, endpoint, on))
    case EventInserted(now) => sys.(box := InsertEvent(sys.box, now))
    case RowsClaimed(owner, picked, scope, now, until) =>
      if owner in sys.owners then sys
      else
        var rows := Claim(sys.box.deliveries, picked, scope, owner, now, until);
        System(sys.box.(deliveries := rows), SeenAfterClaim(sys, rows, owner), sys.owners + {owner})
    case LeaseRenewed(owner, id, now, seconds) => WithRows(sys, RenewLease(sys.box.deliveries, id, owner, now, seconds))
    case LeaseReleased(owner, id, now) => WithRows(sys, ReleaseLease(sys.box.deliveries, id, owner, now))
    case DeliveryEnded(owner, id, outcome, now, jitter) =>
      if (owner, id) !in sys.seen then sys
      else
        var completion := CompletionFor(max, outcome, sys.seen[(owner, id)], now, jitter);
        WithRows(sys, Complete(sys.box.deliveries, id, Some(owner), completion))
    case FailedRetried(of, now) => WithRows(sys, RetryFailed(sys.box.deliveries, of, now))
  }

  /** The row may be claimed: it waits or its lease has run out, its time has come, and it is in the scope. */
  predicate DueFor(row: Delivery, scope: Scope, now: int) {
    && (match row.status
        case Pending => row.leaseUntil.Some? ==> row.leaseUntil.value < now
        case Retry => row.leaseUntil.Some? ==> row.leaseUntil.value < now
        case Claimed => scope.AnyDue? && row.leaseUntil.Some? && row.leaseUntil.value < now
        case _ => false)
    && (row.nextAttemptAt.Some? ==> row.nextAttemptAt.value <= now)
    && (scope.OfEvent? ==> row.event == scope.event)
  }

  predicate LeasedTo(row: Delivery, owner: Owner) {
    row.status.Claimed? && row.leaseOwner.Some? && row.leaseOwner.value == owner
  }

  /** What an action leaves of a row that exists; the end of a request is the subject of OutcomeIsRecordedExactlyWhen. */
  lemma RowAfterAction(max: MaxAttempts, sys: System, a: Action, id: DeliveryId)
    requires id < |sys.box.deliveries| && !a.DeliveryEnded?
    ensures |Act(max, sys, a).box.deliveries| >= |sys.box.deliveries|
    ensures var row := sys.box.deliveries[id];
            Act(max, sys, a).box.deliveries[id] ==
              match a
              case RowsClaimed(owner, picked, scope, now, until) =>
                if owner !in sys.owners && id in picked && DueFor(row, scope, now)
                then Delivery(row.event, row.endpoint, Claimed, row.attemptCount, row.nextAttemptAt, Some(owner), Some(until))
                else row
              case LeaseRenewed(owner, of, now, seconds) =>
                if of == id && LeasedTo(row, owner)
                then row.(leaseUntil := Some(now + 1000 * (if seconds < 15 then 15 else if seconds > 900 then 900 else seconds)))
                else row
              case LeaseReleased(owner, of, now) =>
                if of == id && LeasedTo(row, owner)
                then Delivery(row.event, row.endpoint, Retry, row.attemptCount,
                              Some(if row.nextAttemptAt.Some? then row.nextAttemptAt.value else now), None, None)
                else row
              case FailedRetried(of, now) =>
                if row.status.Failed? && (of.None? || of.value == row.endpoint)
                then Delivery(row.event, row.endpoint, Retry, row.attemptCount, Some(now), None, None)
                else row
              case _ => row
  {
  }

  lemma {:induction false} InsertedRowsAreDue(box: Outbox, event: EventId, now: int, n: nat)
    requires n <= |box.enabled|
    ensures forall row :: row in NewDeliveries(box, event, now, n) ==>
              row.endpoint < n && box.enabled[row.endpoint] && row == Delivery(event, row.endpoint, Pending, 0, Some(now), None, None)
  {
    if n > 0 {
      InsertedRowsAreDue(box, event, now, n - 1);
    }
  }

  /** Rows are only added by an event, for enabled endpoints, due at once; endpoints only change where they are set. */
  lemma TablesAfterAction(max: MaxAttempts, sys: System, a: Action)
    ensures var before, after := sys.box, Act(max, sys, a).box;
            && (!a.EventInserted? ==> after.events == before.events && |after.deliveries| == |before.deliveries|)
            && (a.EventInserted? ==>
                  && after.events == before.events + 1 && before.deliveries <= after.deliveries
                  && forall row :: row in after.deliveries[|before.deliveries|..] ==>
                       && row.endpoint < |before.enabled| && before.enabled[row.endpoint]
                       && row == Delivery(before.events, row.endpoint, Pending, 0, Some(a.now), None, None))
            && (!a.EndpointSet? ==> after.enabled == before.enabled)
            && (a.EndpointSet? ==>
                  && |after.enabled| == |before.enabled| + (if a.endpoint >= |before.enabled| && a.on then 1 else 0)
                  && forall i :: 0 <= i < |after.enabled| ==>
                       after.enabled[i] == if i == |before.enabled| then true else if i == a.endpoint then a.on else before.enabled[i])
  {
    if a.EventInserted? {
      var added := NewDeliveries(sys.box, sys.box.events, a.now, |sys.box.enabled|);
      InsertedRowsAreDue(sys.box, sys.box.events, a.now, |sys.box.enabled|);
      assert Act(max, sys, a).box.deliveries[|sys.box.deliveries|..] == added;
    }
  }

  function Execute(max: MaxAttempts, sys: System, actions: seq<Action>): System {
    if actions == [] then sys
    else Act(max, Execute(max, sys, actions[..|actions| - 1]), actions[|actions| - 1])
  }

  function Reached(max: MaxAttempts, actions: seq<Action>, k: nat): System
    requires k <= |actions|
  {
    Execute(max, NEW_SYSTEM, actions[..k])
  }

  lemma ReachedNext(max: MaxAttempts, actions: seq<Action>, k: nat)
    requires k < |actions|
    ensures Reached(max, actions, k + 1) == Act(max, Reached(max, actions, k), actions[k])
  {
    assert actions[..k + 1][..k] == actions[..k];
  }

  // ---- Leases ------------------------------------------------------------------------------------------------------

  /** A row is leased exactly while it is claimed, by an owner that claimed it and read its current attempt count. */
  predicate LeaseSound(sys: System, id: DeliveryId)
    requires id < |sys.box.deliveries|
  {
    var row := sys.box.deliveries[id];
    && (row.status.Claimed? <==> row.leaseOwner.Some?)
    && (row.leaseOwner.Some? <==> row.leaseUntil.Some?)
    && (row.leaseOwner.Some? ==>
          && row.leaseOwner.value in sys.owners
          && (row.leaseOwner.value, id) in sys.seen
          && sys.seen[(row.leaseOwner.value, id)] == row.attemptCount)
  }

  predicate LeasesSound(sys: System) {
    && (forall key :: key in sys.seen ==> key.0 in sys.owners)
    && (forall id :: 0 <= id < |sys.box.deliveries| ==> LeaseSound(sys, id))
  }

  lemma ClaimKeepsLeases(max: MaxAttempts, sys: System, a: Action)
    requires LeasesSound(sys) && a.RowsClaimed?
    ensures LeasesSound(Act(max, sys, a))
  {
    var after := Act(max, sys, a);
    if a.owner !in sys.owners {
      forall id | 0 <= id < |after.box.deliveries|
        ensures LeaseSound(after, id)
      {
        assert LeaseSound(sys, id);
        var row := after.box.deliveries[id];
        if row != sys.box.deliveries[id] {
          assert Holds(row, a.owner);
        }
      }
    }
  }

  lemma InsertKeepsLeases(sys: System, now: int)
    requires LeasesSound(sys)
    ensures LeasesSound(sys.(box := InsertEvent(sys.box, now)))
  {
    var after := sys.(box := InsertEvent(sys.box, now));
    NewRowsAreFresh(sys.box, sys.box.events, now, |sys.box.enabled|);
    forall id | 0 <= id < |after.box.deliveries|
      ensures LeaseSound(after, id)
    {
      if id < |sys.box.deliveries| {
        assert LeaseSound(sys, id);
        assert after.box.deliveries[id] == sys.box.deliveries[id];
      } else {
        assert after.box.deliveries[id] == NewDeliveries(sys.box, sys.box.events, now, |sys.box.enabled|)[id - |sys.box.deliveries|];
      }
    }
  }

  predicate FreshRow(row: Delivery, event: EventId) {
    row.event == event && row.status.Pending? && row.attemptCount == 0 && row.leaseOwner.None? && row.leaseUntil.None?
  }

  predicate AllFresh(rows: seq<Delivery>, event: EventId) {
    forall i :: 0 <= i < |rows| ==> FreshRow(rows[i], event)
  }

  lemma {:induction false} NewRowsAreFresh(box: Outbox, event: EventId, now: int, n: nat)
    requires n <= |box.enabled|
    ensures AllFresh(NewDeliveries(box, event, now, n), event)
  {
    if n > 0 {
      NewRowsAreFresh(box, event, now, n - 1);
    }
  }

  lemma ActKeepsLeases(max: MaxAttempts, sys: System, a: Action)
    requires LeasesSound(sys)
    ensures LeasesSound(Act(max, sys, a))
  {
    if a.RowsClaimed? {
      ClaimKeepsLeases(max, sys, a);
    } else if a.EventInserted? {
      InsertKeepsLeases(sys, a.now);
    } else {
      var after := Act(max, sys, a);
      forall id | 0 <= id < |after.box.deliveries|
        ensures LeaseSound(after, id)
      {
        assert LeaseSound(sys, id);
      }
    }
  }

  lemma {:induction false} LeasesStaySound(max: MaxAttempts, actions: seq<Action>)
    ensures LeasesSound(Execute(max, NEW_SYSTEM, actions))
  {
    if actions != [] {
      LeasesStaySound(max, actions[..|actions| - 1]);
      ActKeepsLeases(max, Execute(max, NEW_SYSTEM, actions[..|actions| - 1]), actions[|actions| - 1]);
    }
  }

  /** The owner has claimed before and does not lease the row now. */
  predicate LostLease(sys: System, owner: Owner, id: DeliveryId) {
    && owner in sys.owners && id < |sys.box.deliveries|
    && sys.box.deliveries[id].leaseOwner != Some(owner)
  }

  /** What a worker does to one row. */
  predicate ByWorker(a: Action, owner: Owner, id: DeliveryId) {
    (a.LeaseRenewed? || a.LeaseReleased? || a.DeliveryEnded?) && a.owner == owner && a.id == id
  }

  lemma {:induction false} LostLeaseStaysLost(max: MaxAttempts, actions: seq<Action>, owner: Owner, id: DeliveryId, k: nat)
    requires k <= |actions| && LostLease(Reached(max, actions, k), owner, id)
    ensures LostLease(Reached(max, actions, |actions|), owner, id)
    decreases |actions| - k
  {
    if k < |actions| {
      ReachedNext(max, actions, k);
      LostLeaseStaysLost(max, actions, owner, id, k + 1);
    }
  }

  /** From the moment its lease is gone, nothing a worker does to the row changes anything, however late it comes. */
  lemma TakenOverWorkerIsFenced(max: MaxAttempts, actions: seq<Action>, owner: Owner, id: DeliveryId, k: nat, a: Action)
    requires k <= |actions| && LostLease(Reached(max, actions, k), owner, id)
    requires ByWorker(a, owner, id)
    ensures Act(max, Reached(max, actions, |actions|), a).box == Reached(max, actions, |actions|).box
  {
    LostLeaseStaysLost(max, actions, owner, id, k);
    var box := Reached(max, actions, |actions|).box;
    assert Act(max, Reached(max, actions, |actions|), a).box.deliveries == box.deliveries;
  }

  /** Until its lease expires, only the owner changes a row it leases. */
  lemma LiveLeaseIsExclusive(max: MaxAttempts, actions: seq<Action>, id: DeliveryId, owner: Owner, a: Action)
    requires var sys := Execute(max, NEW_SYSTEM, actions);
             id < |sys.box.deliveries| && Holds(sys.box.deliveries[id], owner)
    requires !ByWorker(a, owner, id)
    requires a.RowsClaimed? ==> !Expired(Execute(max, NEW_SYSTEM, actions).box.deliveries[id], a.now)
    ensures var sys := Execute(max, NEW_SYSTEM, actions);
            id < |Act(max, sys, a).box.deliveries| && Act(max, sys, a).box.deliveries[id] == sys.box.deliveries[id]
  {
    LeasesStaySound(max, actions);
    assert LeaseSound(Execute(max, NEW_SYSTEM, actions), id);
  }

  // ---- Delivered once ----------------------------------------------------------------------------------------------

  lemma DeliveredStep(max: MaxAttempts, sys: System, a: Action, id: DeliveryId)
    requires LeasesSound(sys)
    requires id < |sys.box.deliveries| && sys.box.deliveries[id].status.Delivered?
    ensures id < |Act(max, sys, a).box.deliveries| && Act(max, sys, a).box.deliveries[id] == sys.box.deliveries[id]
  {
    assert LeaseSound(sys, id);
  }

  /** A delivered row never changes again. */
  lemma {:induction false} DeliveredIsFinal(max: MaxAttempts, actions: seq<Action>, id: DeliveryId, k: nat)
    requires k <= |actions| && id < |Reached(max, actions, k).box.deliveries|
    requires Reached(max, actions, k).box.deliveries[id].status.Delivered?
    ensures var rows := Reached(max, actions, |actions|).box.deliveries;
            id < |rows| && rows[id] == Reached(max, actions, k).box.deliveries[id]
    decreases |actions| - k
  {
    if k < |actions| {
      LeasesStaySound(max, actions[..k]);
      DeliveredStep(max, Reached(max, actions, k), actions[k], id);
      ReachedNext(max, actions, k);
      DeliveredIsFinal(max, actions, id, k + 1);
    }
  }

  // ---- Attempts are counted ----------------------------------------------------------------------------------------

  predicate IsOperatorRetry(sys: System, a: Action, id: DeliveryId) {
    a.FailedRetried? && id < |sys.box.deliveries| && RetriedByOperator(sys.box.deliveries[id], a.of)
  }

  /** How often an operator sent this row out again. */
  function OperatorRetries(max: MaxAttempts, actions: seq<Action>, id: DeliveryId): nat {
    if actions == [] then 0
    else
      var n := |actions| - 1;
      OperatorRetries(max, actions[..n], id)
      + (if IsOperatorRetry(Execute(max, NEW_SYSTEM, actions[..n]), actions[n], id) then 1 else 0)
  }

  predicate WithinBudget(row: Delivery, max: MaxAttempts, retries: nat) {
    row.attemptCount <= max + retries
    && (row.status.Pending? || row.status.Retry? || row.status.Claimed? ==> row.attemptCount < max + retries)
  }

  lemma BudgetStep(max: MaxAttempts, sys: System, a: Action, id: DeliveryId, retries: nat)
    requires LeasesSound(sys)
    requires id < |sys.box.deliveries| ==> WithinBudget(sys.box.deliveries[id], max, retries)
    ensures var after := Act(max, sys, a).box.deliveries;
            id < |after| ==> WithinBudget(after[id], max, retries + (if IsOperatorRetry(sys, a, id) then 1 else 0))
  {
    if id < |sys.box.deliveries| {
      assert LeaseSound(sys, id);
    } else if a.EventInserted? && id < |Act(max, sys, a).box.deliveries| {
      NewRowsAreFresh(sys.box, sys.box.events, a.now, |sys.box.enabled|);
      assert Act(max, sys, a).box.deliveries[id]
             == NewDeliveries(sys.box, sys.box.events, a.now, |sys.box.enabled|)[id - |sys.box.deliveries|];
    }
  }

  /** A row is attempted at most the configured number of times and once more for each operator retry. */
  lemma {:induction false} AttemptsAreBounded(max: MaxAttempts, actions: seq<Action>, id: DeliveryId)
    ensures var rows := Execute(max, NEW_SYSTEM, actions).box.deliveries;
            id < |rows| ==> WithinBudget(rows[id], max, OperatorRetries(max, actions, id))
  {
    if actions != [] {
      var n := |actions| - 1;
      AttemptsAreBounded(max, actions[..n], id);
      LeasesStaySound(max, actions[..n]);
      BudgetStep(max, Execute(max, NEW_SYSTEM, actions[..n]), actions[n], id, OperatorRetries(max, actions[..n], id));
    }
  }

  // ---- One delivery for each enabled endpoint ----------------------------------------------------------------------

  /** The endpoints that have a row for this event, in row order. */
  function EndpointsOf(deliveries: seq<Delivery>, event: EventId): seq<EndpointId> {
    if deliveries == [] then []
    else
      var n := |deliveries| - 1;
      EndpointsOf(deliveries[..n], event) + (if deliveries[n].event == event then [deliveries[n].endpoint] else [])
  }

  function EnabledEndpoints(enabled: seq<bool>, n: nat): seq<EndpointId>
    requires n <= |enabled|
  {
    if n == 0 then [] else EnabledEndpoints(enabled, n - 1) + (if enabled[n - 1] then [n - 1] else [])
  }

  /** Each enabled endpoint once, and no other. */
  lemma {:induction false} EnabledEndpointsOnce(enabled: seq<bool>, n: nat)
    requires n <= |enabled|
    ensures forall id: EndpointId :: id in EnabledEndpoints(enabled, n) <==> id < n && enabled[id]
    ensures forall i, j :: 0 <= i < j < |EnabledEndpoints(enabled, n)| ==>
              EnabledEndpoints(enabled, n)[i] < EnabledEndpoints(enabled, n)[j]
  {
    if n > 0 {
      EnabledEndpointsOnce(enabled, n - 1);
      var before := EnabledEndpoints(enabled, n - 1);
      assert forall i :: 0 <= i < |before| ==> before[i] in before;
    }
  }

  lemma {:induction false} EndpointsOfAppend(a: seq<Delivery>, b: seq<Delivery>, event: EventId)
    ensures EndpointsOf(a + b, event) == EndpointsOf(a, event) + EndpointsOf(b, event)
  {
    if b == [] {
      assert a + b == a;
    } else {
      EndpointsOfAppend(a, b[..|b| - 1], event);
      assert (a + b)[..|a + b| - 1] == a + b[..|b| - 1];
    }
  }

  lemma {:induction false} SameIdentitySameEndpoints(a: seq<Delivery>, b: seq<Delivery>, event: EventId)
    requires |a| == |b| && forall i :: 0 <= i < |a| ==> a[i].event == b[i].event && a[i].endpoint == b[i].endpoint
    ensures EndpointsOf(a, event) == EndpointsOf(b, event)
  {
    if a != [] {
      SameIdentitySameEndpoints(a[..|a| - 1], b[..|b| - 1], event);
    }
  }

  lemma {:induction false} NoRowsNoEndpoints(deliveries: seq<Delivery>, event: EventId)
    requires forall i :: 0 <= i < |deliveries| ==> deliveries[i].event != event
    ensures EndpointsOf(deliveries, event) == []
  {
    if deliveries != [] {
      NoRowsNoEndpoints(deliveries[..|deliveries| - 1], event);
    }
  }

  lemma OneRowOneEndpoint(row: Delivery)
    ensures EndpointsOf([row], row.event) == [row.endpoint]
  {
    assert [row][..0] == [];
  }

  /** Without an earlier row for the event, an endpoint gets its row exactly when it is enabled. */
  lemma NewRowIfEnabled(box: Outbox, event: EventId, now: int, n: nat)
    requires 0 < n <= |box.enabled|
    requires forall i :: 0 <= i < |box.deliveries| ==> box.deliveries[i].event != event
    ensures NewDeliveries(box, event, now, n)
            == NewDeliveries(box, event, now, n - 1)
               + (if box.enabled[n - 1] then [Delivery(event, n - 1, Pending, 0, Some(now), None, None)] else [])
  {
    assert !HasDelivery(box.deliveries, event, n - 1);
  }

  lemma {:induction false} NewRowsAreTheEnabled(box: Outbox, event: EventId, now: int, n: nat)
    requires n <= |box.enabled|
    requires forall i :: 0 <= i < |box.deliveries| ==> box.deliveries[i].event != event
    ensures EndpointsOf(NewDeliveries(box, event, now, n), event) == EnabledEndpoints(box.enabled, n)
  {
    if n > 0 {
      NewRowsAreTheEnabled(box, event, now, n - 1);
      NewRowIfEnabled(box, event, now, n);
      var row := Delivery(event, n - 1, Pending, 0, Some(now), None, None);
      EndpointsOfAppend(NewDeliveries(box, event, now, n - 1), if box.enabled[n - 1] then [row] else [], event);
      OneRowOneEndpoint(row);
    }
  }

  predicate EventsKnown(box: Outbox) {
    forall i :: 0 <= i < |box.deliveries| ==> box.deliveries[i].event < box.events
  }

  lemma EndpointsStep(max: MaxAttempts, sys: System, a: Action, event: EventId)
    requires EventsKnown(sys.box)
    ensures var after := Act(max, sys, a).box;
            && EventsKnown(after) && after.events >= sys.box.events
            && (event < sys.box.events ==> EndpointsOf(after.deliveries, event) == EndpointsOf(sys.box.deliveries, event))
  {
    var after := Act(max, sys, a).box;
    if a.EventInserted? {
      var added := NewDeliveries(sys.box, sys.box.events, a.now, |sys.box.enabled|);
      NewRowsAreFresh(sys.box, sys.box.events, a.now, |sys.box.enabled|);
      forall i | 0 <= i < |after.deliveries|
        ensures after.deliveries[i].event < after.events
      {
        if i >= |sys.box.deliveries| {
          assert after.deliveries[i] == added[i - |sys.box.deliveries|];
        }
      }
      EndpointsOfAppend(sys.box.deliveries, added, event);
      if event < sys.box.events {
        NoRowsNoEndpoints(added, event);
      }
    } else {
      SameIdentitySameEndpoints(sys.box.deliveries, after.deliveries, event);
    }
  }

  lemma {:induction false} EventsStayKnown(max: MaxAttempts, actions: seq<Action>)
    ensures EventsKnown(Execute(max, NEW_SYSTEM, actions).box)
  {
    if actions != [] {
      EventsStayKnown(max, actions[..|actions| - 1]);
      EndpointsStep(max, Execute(max, NEW_SYSTEM, actions[..|actions| - 1]), actions[|actions| - 1], 0);
    }
  }

  lemma {:induction false} EndpointsStayTheSame(max: MaxAttempts, actions: seq<Action>, event: EventId, k: nat)
    requires k <= |actions| && event < Reached(max, actions, k).box.events
    ensures EndpointsOf(Reached(max, actions, |actions|).box.deliveries, event)
            == EndpointsOf(Reached(max, actions, k).box.deliveries, event)
    decreases |actions| - k
  {
    if k < |actions| {
      EventsStayKnown(max, actions[..k]);
      EndpointsStep(max, Reached(max, actions, k), actions[k], event);
      ReachedNext(max, actions, k);
      EndpointsStayTheSame(max, actions, event, k + 1);
    }
  }

  /** Whatever follows, an event has exactly one row for each endpoint that was enabled when it was inserted. */
  lemma OneDeliveryPerEnabledEndpoint(max: MaxAttempts, actions: seq<Action>, k: nat)
    requires k < |actions| && actions[k].EventInserted?
    ensures var before := Reached(max, actions, k).box;
            EndpointsOf(Reached(max, actions, |actions|).box.deliveries, before.events)
            == EnabledEndpoints(before.enabled, |before.enabled|)
  {
    var before := Reached(max, actions, k).box;
    EventsStayKnown(max, actions[..k]);
    ReachedNext(max, actions, k);
    var added := NewDeliveries(before, before.events, actions[k].now, |before.enabled|);
    NewRowsAreTheEnabled(before, before.events, actions[k].now, |before.enabled|);
    NoRowsNoEndpoints(before.deliveries, before.events);
    EndpointsOfAppend(before.deliveries, added, before.events);
    EndpointsStayTheSame(max, actions, before.events, k + 1);
  }

  // ---- A success that is not recorded ------------------------------------------------------------------------------

  /** What the end of a request does to the rows: its outcome is recorded if and only if the worker still leases the row. */
  lemma OutcomeIsRecordedExactlyWhen(
    max: MaxAttempts, actions: seq<Action>, owner: Owner, id: DeliveryId, outcome: Outcome, now: int, jitter: nat)
    requires var sys := Execute(max, NEW_SYSTEM, actions); (owner, id) in sys.seen && id < |sys.box.deliveries|
    ensures var sys := Execute(max, NEW_SYSTEM, actions);
            var before, after := sys.box.deliveries, Act(max, sys, DeliveryEnded(owner, id, outcome, now, jitter)).box.deliveries;
            if before[id].leaseOwner == Some(owner) then
              && before[id].status.Claimed? && |after| == |before| && after == before[id := after[id]]
              && after[id].event == before[id].event && after[id].endpoint == before[id].endpoint
              && Judged(max, outcome, before[id].attemptCount, now, jitter, after[id])
            else after == before
  {
    LeasesStaySound(max, actions);
    assert LeaseSound(Execute(max, NEW_SYSTEM, actions), id);
    CompletionIsJudged(max, outcome, now, jitter, Execute(max, NEW_SYSTEM, actions).box.deliveries[id]);
  }

  lemma ExecuteNext(max: MaxAttempts, actions: seq<Action>, a: Action)
    ensures Execute(max, NEW_SYSTEM, actions + [a]) == Act(max, Execute(max, NEW_SYSTEM, actions), a)
  {
    assert (actions + [a])[..|actions|] == actions;
  }

  const SUCCESS := Answered(200, None)

  /** One row with nothing attempted, leased by this owner; the first owner has read it, and a second one only if it leases it. */
  predicate LeasedBy(sys: System, owner: Owner, until: int) {
    && sys.box.deliveries == [Delivery(0, 0, Claimed, 0, Some(0), Some(owner), Some(until))]
    && (1, 0) in sys.seen && sys.seen[(1, 0)] == 0
    && (owner == 1 ==> sys.owners == {1})
  }

  const INSERTED := [EndpointSet(0, true)] + [EventInserted(0)]

  const FIRST_CLAIM := RowsClaimed(1, [0], AnyDue, 0, 1000)

  const SECOND_CLAIM := RowsClaimed(2, [0], AnyDue, 2000, 3000)

  lemma OneRowInserted(max: MaxAttempts)
    ensures var sys := Execute(max, NEW_SYSTEM, INSERTED);
            && sys.box.deliveries == [Delivery(0, 0, Pending, 0, Some(0), None, None)]
            && sys.owners == {} && sys.seen == map[]
  {
    assert [] + [EndpointSet(0, true)] == [EndpointSet(0, true)];
    ExecuteNext(max, [], EndpointSet(0, true));
    ExecuteNext(max, [EndpointSet(0, true)], EventInserted(0));
    var box := SetEndpoint(NEW_OUTBOX, 0, true);
    assert box == Outbox([true], 0, []) && !HasDelivery(box.deliveries, 0, 0);
    assert NewDeliveries(box, 0, 0, 0) == [] && NewDeliveries(box, 0, 0, 1) == [Delivery(0, 0, Pending, 0, Some(0), None, None)];
  }

  lemma FirstClaims(max: MaxAttempts, sys: System)
    requires sys.box.deliveries == [Delivery(0, 0, Pending, 0, Some(0), None, None)] && sys.owners == {} && sys.seen == map[]
    ensures LeasedBy(Act(max, sys, FIRST_CLAIM), 1, 1000)
  {
  }

  lemma SecondClaims(max: MaxAttempts, sys: System)
    requires LeasedBy(sys, 1, 1000)
    ensures LeasedBy(Act(max, sys, SECOND_CLAIM), 2, 3000)
  {
  }

  lemma LateSuccessChangesNothing(max: MaxAttempts, sys: System)
    requires LeasedBy(sys, 2, 3000)
    ensures Act(max, sys, DeliveryEnded(1, 0, SUCCESS, 2500, 0)).box.deliveries == sys.box.deliveries
  {
  }

  /** The lease expires while the request is out, another worker claims the row, and the first one's success changes nothing. */
  lemma SuccessAfterExpiryIsLost(max: MaxAttempts)
    ensures var claims := INSERTED + [FIRST_CLAIM] + [SECOND_CLAIM];
            var rows := Execute(max, NEW_SYSTEM, claims + [DeliveryEnded(1, 0, SUCCESS, 2500, 0)]).box.deliveries;
            && rows == Execute(max, NEW_SYSTEM, claims).box.deliveries
            && |rows| == 1 && rows[0].status.Claimed? && rows[0].leaseOwner == Some(2) && rows[0].attemptCount == 0
  {
    var inserted := Execute(max, NEW_SYSTEM, INSERTED);
    OneRowInserted(max);
    ExecuteNext(max, INSERTED, FIRST_CLAIM);
    FirstClaims(max, inserted);
    ExecuteNext(max, INSERTED + [FIRST_CLAIM], SECOND_CLAIM);
    SecondClaims(max, Act(max, inserted, FIRST_CLAIM));
    ExecuteNext(max, INSERTED + [FIRST_CLAIM] + [SECOND_CLAIM], DeliveryEnded(1, 0, SUCCESS, 2500, 0));
    LateSuccessChangesNothing(max, Act(max, Act(max, inserted, FIRST_CLAIM), SECOND_CLAIM));
  }
}
