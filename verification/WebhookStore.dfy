/** The outbox rows as the repository updates them in place, and the worker that delivers one row. */
module WebhookStore {
  import opened Prelude
  import W = Webhooks

  datatype ClaimedRecord = ClaimedRecord(id: W.DeliveryId, row: W.Delivery)

  predicate Distinct(ids: seq<W.DeliveryId>) {
    forall j, k :: 0 <= j < k < |ids| ==> ids[j] != ids[k]
  }

  predicate IsDue(rows: seq<W.Delivery>, id: W.DeliveryId, scope: W.Scope, now: int) {
    id < |rows| && W.Claimable(rows[id], scope, now)
  }

  /** The query of a claim: the first due rows, as many as the limit allows, in the order in which it finds rows unlocked. */
  function Candidates(rows: seq<W.Delivery>, order: seq<W.DeliveryId>, limit: nat, scope: W.Scope, now: int): seq<W.DeliveryId> {
    if order == [] then []
    else
      var n := |order| - 1;
      var before := Candidates(rows, order[..n], limit, scope, now);
      if |before| < limit && IsDue(rows, order[n], scope, now) then before + [order[n]] else before
  }

  lemma {:induction false} CandidatesAreTheDueOnes(
    rows: seq<W.Delivery>, order: seq<W.DeliveryId>, limit: nat, scope: W.Scope, now: int)
    requires Distinct(order)
    ensures var ids := Candidates(rows, order, limit, scope, now);
            && |ids| <= limit && Distinct(ids)
            && (forall j :: 0 <= j < |ids| ==> ids[j] in order && IsDue(rows, ids[j], scope, now))
            && (|ids| < limit ==> forall id :: id in order && IsDue(rows, id, scope, now) ==> id in ids)
  {
    if order != [] {
      var n := |order| - 1;
      assert order == order[..n] + [order[n]];
      CandidatesAreTheDueOnes(rows, order[..n], limit, scope, now);
      assert order[n] !in order[..n];
    }
  }

  function Records(rows: seq<W.Delivery>, ids: seq<W.DeliveryId>, owner: W.Owner, until: int): seq<ClaimedRecord>
    requires forall j :: 0 <= j < |ids| ==> ids[j] < |rows|
  {
    seq(|ids|, j requires 0 <= j < |ids| => ClaimedRecord(ids[j], W.ClaimRow(rows[ids[j]], owner, until)))
  }

  /** A claim hands out exactly these rows, as it leaves them. */
  ghost predicate HandsOut(
    before: seq<W.Delivery>, after: seq<W.Delivery>, claimed: seq<ClaimedRecord>, ids: seq<W.DeliveryId>,
    scope: W.Scope, owner: W.Owner, now: int, until: int)
  {
    && (forall j :: 0 <= j < |ids| ==> ids[j] < |before|)
    && claimed == Records(before, ids, owner, until)
    && after == W.Claim(before, ids, scope, owner, now, until)
  }

  /** What other workers do to the rows between two steps of one worker. */
  type Meanwhile = seq<W.Delivery> -> seq<W.Delivery>

  /**
   * An outcome is recorded if and only if the owner leases the row at that moment, and then as the outcome deserves after so
   * many attempts. Otherwise nothing happens. Success is reported for a 2xx answer in either case.
   */
  ghost predicate Recorded(
    rows: seq<W.Delivery>, after: seq<W.Delivery>, record: ClaimedRecord, owner: W.Owner, max: W.MaxAttempts, outcome: W.Outcome,
    now: int, jitter: nat, delivered: bool)
  {
    && (delivered <==> outcome.Answered? && 200 <= outcome.status <= 299)
    && if record.id < |rows| && rows[record.id].leaseOwner == Some(owner) then
         && |after| == |rows| && after == rows[record.id := after[record.id]]
         && after[record.id].event == rows[record.id].event && after[record.id].endpoint == rows[record.id].endpoint
         && after[record.id].attemptCount == rows[record.id].attemptCount + 1
         && W.Judged(max, outcome, record.row.attemptCount, now, jitter,
                     after[record.id].(attemptCount := record.row.attemptCount + 1))
       else after == rows
  }

  /** Nothing is sent to an endpoint that is gone or disabled. */
  function Met(enabled: seq<bool>, record: ClaimedRecord, response: W.Outcome): W.Outcome {
    if record.row.endpoint < |enabled| && enabled[record.row.endpoint] then response else W.EndpointUnavailable
  }

  class OutboxStore {
    var enabled: seq<bool>
    var events: nat
    var deliveries: seq<W.Delivery>

    ghost function Box(): W.Outbox
      reads this
    {
      W.Outbox(enabled, events, deliveries)
    }

    constructor ()
      ensures Box() == W.NEW_OUTBOX
    {
      enabled, events, deliveries := [], 0, [];
    }

    method CreateOrDisableEndpoint(id: W.EndpointId, on: bool)
      modifies this`enabled
      ensures Box() == W.SetEndpoint(old(Box()), id, on)
    {
      if id < |enabled| {
        enabled := enabled[id := on];
      } else if on {
        enabled := enabled + [true];
      }
    }

    method InsertEventAndOutbox(now: int)
      modifies this
      ensures Box() == W.InsertEvent(old(Box()), now)
    {
      var event := events;
      events := events + 1;
      ghost var before := old(Box());
      for endpoint := 0 to |enabled|
        invariant enabled == before.enabled && events == before.events + 1
        invariant deliveries == before.deliveries + W.NewDeliveries(before, event, now, endpoint)
      {
        OnlyOwnRow(before, event, now, endpoint);
        if enabled[endpoint] && !W.HasDelivery(deliveries, event, endpoint) {
          deliveries := deliveries + [W.Delivery(event, endpoint, W.Pending, 0, Some(now), None, None)];
        }
      }
    }

    /** Updates the rows the query found, one by one, and hands them out as it leaves them. */
    method ClaimCandidates(ids: seq<W.DeliveryId>, scope: W.Scope, owner: W.Owner, now: int, until: int)
      returns (claimed: seq<ClaimedRecord>)
      requires Distinct(ids)
      requires forall j :: 0 <= j < |ids| ==> ids[j] < |deliveries| && W.Claimable(deliveries[ids[j]], scope, now)
      modifies this`deliveries
      ensures HandsOut(old(deliveries), deliveries, claimed, ids, scope, owner, now, until)
    {
      claimed := [];
      for k := 0 to |ids|
        invariant |deliveries| == |old(deliveries)| && |claimed| == k
        invariant forall i: W.DeliveryId :: i < |deliveries| ==>
                    deliveries[i] == if i in ids[..k] then W.ClaimRow(old(deliveries)[i], owner, until) else old(deliveries)[i]
        invariant forall j :: 0 <= j < k ==> claimed[j] == ClaimedRecord(ids[j], W.ClaimRow(old(deliveries)[ids[j]], owner, until))
      {
        assert ids[..k + 1] == ids[..k] + [ids[k]];
        assert ids[k] !in ids[..k];
        deliveries := deliveries[ids[k] := W.ClaimRow(deliveries[ids[k]], owner, until)];
        claimed := claimed + [ClaimedRecord(ids[k], deliveries[ids[k]])];
      }
      assert ids[..|ids|] == ids;
    }

    method ClaimDueWebhookDeliveries(limit: int, order: seq<W.DeliveryId>, owner: W.Owner, now: int, leaseSeconds: nat)
      returns (claimed: seq<ClaimedRecord>)
      requires Distinct(order)
      modifies this`deliveries
      ensures HandsOut(old(deliveries), deliveries, claimed,
                       Candidates(old(deliveries), order, W.Clamp(limit, 1, 100), W.AnyDue, now),
                       W.AnyDue, owner, now, now + 1000 * leaseSeconds)
    {
      var limit': nat := W.Clamp(limit, 1, 100);
      var ids := Candidates(deliveries, order, limit', W.AnyDue, now);
      CandidatesAreTheDueOnes(deliveries, order, limit', W.AnyDue, now);
      assert forall j :: 0 <= j < |ids| ==> IsDue(deliveries, ids[j], W.AnyDue, now);
      claimed := ClaimCandidates(ids, W.AnyDue, owner, now, now + 1000 * leaseSeconds);
    }

    method ClaimWebhookDeliveriesForEvent(event: W.EventId, order: seq<W.DeliveryId>, owner: W.Owner, now: int, leaseSeconds: int)
      returns (claimed: seq<ClaimedRecord>)
      requires Distinct(order)
      modifies this`deliveries
      ensures HandsOut(old(deliveries), deliveries, claimed,
                       Candidates(old(deliveries), order, |order|, W.OfEvent(event), now),
                       W.OfEvent(event), owner, now, now + 1000 * W.Clamp(leaseSeconds, 15, 300))
    {
      var ids := Candidates(deliveries, order, |order|, W.OfEvent(event), now);
      CandidatesAreTheDueOnes(deliveries, order, |order|, W.OfEvent(event), now);
      assert forall j :: 0 <= j < |ids| ==> IsDue(deliveries, ids[j], W.OfEvent(event), now);
      claimed := ClaimCandidates(ids, W.OfEvent(event), owner, now, now + 1000 * W.Clamp(leaseSeconds, 15, 300));
    }

    method RenewWebhookDeliveryLease(id: W.DeliveryId, owner: W.Owner, now: int, leaseSeconds: int) returns (renewed: bool)
      modifies this`deliveries
      ensures deliveries == W.RenewLease(old(deliveries), id, owner, now, leaseSeconds)
      ensures renewed <==> id < |old(deliveries)| && W.Holds(old(deliveries)[id], owner)
    {
      renewed := id < |deliveries| && W.Holds(deliveries[id], owner);
      if renewed {
        deliveries := deliveries[id := deliveries[id].(leaseUntil := Some(now + 1000 * W.Clamp(leaseSeconds, 15, 900)))];
      }
    }

    method ReleaseWebhookDeliveryLease(id: W.DeliveryId, owner: W.Owner, now: int)
      modifies this`deliveries
      ensures deliveries == W.ReleaseLease(old(deliveries), id, owner, now)
    {
      if id < |deliveries| && W.Holds(deliveries[id], owner) {
        var row := deliveries[id];
        var nextAttemptAt := if row.nextAttemptAt.Some? then row.nextAttemptAt else Some(now);
        deliveries := deliveries[id := W.Delivery(row.event, row.endpoint, W.Retry, row.attemptCount, nextAttemptAt, None, None)];
      }
    }

    method CompleteWebhookDelivery(id: W.DeliveryId, owner: Option<W.Owner>, c: W.Completion)
      modifies this`deliveries
      ensures deliveries == W.Complete(old(deliveries), id, owner, c)
    {
      if id >= |deliveries| || (owner.Some? && deliveries[id].leaseOwner != owner) {
        return;
      }
      var row := deliveries[id];
      var status := if c.success then W.Delivered else if c.retryAt.Some? then W.Retry else W.Failed;
      deliveries := deliveries[id := W.Delivery(row.event, row.endpoint, status, row.attemptCount + 1, c.retryAt, None, None)];
    }

    method RetryFailedWebhookDeliveries(endpoint: Option<W.EndpointId>, now: int)
      modifies this`deliveries
      ensures deliveries == W.RetryFailed(old(deliveries), endpoint, now)
    {
      for i := 0 to |deliveries|
        invariant |deliveries| == |old(deliveries)|
        invariant deliveries[..i] == W.RetryFailed(old(deliveries), endpoint, now)[..i]
        invariant deliveries[i..] == old(deliveries)[i..]
      {
        var row := deliveries[i];
        assert row == old(deliveries)[i];
        if row.status.Failed? && (endpoint.None? || row.endpoint == endpoint.value) {
          deliveries := deliveries[i := W.RetryRow(row, now)];
        }
      }
    }

    /**
     * One delivery by a worker that claimed the row as the record shows it. The response is the outside world's, and while
     * the request is out, other workers make of the rows whatever they want.
     */
    method DeliverWebhook(
      max: W.MaxAttempts, record: ClaimedRecord, owner: W.Owner, response: W.Outcome, now: int, jitter: nat, meanwhile: Meanwhile)
      returns (delivered: bool)
      modifies this`deliveries
      ensures var c := W.CompletionFor(max, Met(enabled, record, response), record.row.attemptCount, now, jitter);
              deliveries == W.Complete(meanwhile(old(deliveries)), record.id, Some(owner), c)
      ensures Recorded(meanwhile(old(deliveries)), deliveries, record, owner, max, Met(enabled, record, response), now, jitter,
                       delivered)
    {
      var attempts := record.row.attemptCount;
      var c := W.Completion(false, None);
      if record.row.endpoint < |enabled| && enabled[record.row.endpoint] {
        match response {
          case EndpointUnavailable =>
          case Threw => c := W.Completion(false, W.NextAttempt(max, attempts, None, now, jitter));
          case Answered(status, retryAfter) =>
            if 200 <= status < 300 {
              c := W.Completion(true, None);
            } else {
              var retryable := status == 408 || status == 425 || status == 429 || status >= 500;
              c := W.Completion(false, if retryable then W.NextAttempt(max, attempts, retryAfter, now, jitter) else None);
            }
        }
      }
      deliveries := meanwhile(deliveries);
      W.CompletionIsJudged(max, Met(enabled, record, response), now, jitter, record.row);
      CompleteWebhookDelivery(record.id, Some(owner), c);
      return c.success;
    }

    /** The work on one claimed row: nothing is sent once the lease has been taken over. */
    method WorkItem(
      max: W.MaxAttempts, record: ClaimedRecord, owner: W.Owner, leaseSeconds: int, response: W.Outcome, now: int, jitter: nat,
      meanwhile: Meanwhile)
      returns (delivered: bool, leaseLost: bool)
      modifies this`deliveries
      ensures leaseLost <==> !(record.id < |old(deliveries)| && W.Holds(old(deliveries)[record.id], owner))
      ensures leaseLost ==> !delivered && deliveries == old(deliveries)
      ensures !leaseLost ==>
                Recorded(meanwhile(W.RenewLease(old(deliveries), record.id, owner, now, leaseSeconds)), deliveries, record, owner,
                         max, Met(enabled, record, response), now, jitter, delivered)
    {
      var renewed := RenewWebhookDeliveryLease(record.id, owner, now, leaseSeconds);
      if !renewed {
        return false, true;
      }
      delivered := DeliverWebhook(max, record, owner, response, now, jitter, meanwhile);
      return delivered, false;
    }
  }

  /** Inserting for other endpoints does not make a row for this one appear. */
  lemma {:induction false} OnlyOwnRow(box: W.Outbox, event: W.EventId, now: int, n: nat)
    requires n < |box.enabled|
    ensures W.HasDelivery(box.deliveries + W.NewDeliveries(box, event, now, n), event, n)
            <==> W.HasDelivery(box.deliveries, event, n)
  {
    var added := W.NewDeliveries(box, event, now, n);
    NewRowsAreBelow(box, event, now, n);
    var all := box.deliveries + added;
    assert forall i :: 0 <= i < |box.deliveries| ==> all[i] == box.deliveries[i];
    assert forall i :: 0 <= i < |added| ==> all[|box.deliveries| + i] == added[i] && added[i].endpoint < n;
    assert forall i :: |box.deliveries| <= i < |all| ==> all[i] == added[i - |box.deliveries|];
  }

  predicate AllBelow(rows: seq<W.Delivery>, n: nat) {
    forall i :: 0 <= i < |rows| ==> rows[i].endpoint < n
  }

  lemma {:induction false} NewRowsAreBelow(box: W.Outbox, event: W.EventId, now: int, n: nat)
    requires n <= |box.enabled|
    ensures AllBelow(W.NewDeliveries(box, event, now, n), n)
  {
    if n > 0 {
      NewRowsAreBelow(box, event, now, n - 1);
    }
  }
}
