/** The event log of an intent: what each write adds to it, and that it tells the whole history of the status shown. */
module EventLog {
  import opened Prelude
  import opened Types
  import opened StateMachine
  import opened Rpc
  import opened Store
  import opened Service
  import opened Reconcile
  import opened Machine
  import opened Invariants
  import Confirmation
  import Settlement

  // ---- What a write adds -------------------------------------------------------------------------------------------

  /** The stored row is settled, and says since when. */
  predicate Settled(agg: Aggregate) {
    agg.exec.settlementReadyAt.Some? && Ready(agg)
  }

  /** A column that users see has changed: a status, the block, a finding, or whether the intent is settled. */
  predicate Differs(before: Aggregate, after: Aggregate) {
    var b, a := before.exec, after.exec;
    || b.snapshot.submission != a.snapshot.submission || b.snapshot.chain != a.snapshot.chain
    || b.snapshot.workflow != a.snapshot.workflow
    || b.snapshot.blockHash != a.snapshot.blockHash || b.snapshot.blockNumber != a.snapshot.blockNumber
    || b.snapshot.rejectionReason != a.snapshot.rejectionReason
    || b.assertion != a.assertion || b.conflictType != a.conflictType || b.conflictDetails != a.conflictDetails
    || Settled(before) != Settled(after)
  }

  /** One event for the change, and after it READY or REVOKED when the settlement has changed. */
  function Entries(kind: EventKind, at: int, before: Aggregate, after: Aggregate): seq<Event> {
    var from, to := Some(Overall(before.exec.snapshot)), Overall(after.exec.snapshot);
    [Event(kind, from, to, at, Settled(after))]
    + (if Settled(after) && !Settled(before) then [Event(SettlementReady, from, to, at, true)]
       else if Settled(before) && !Settled(after) then [Event(SettlementRevoked, from, to, at, false)]
       else [])
  }

  /** A pass adds its events if and only if it has changed a column that users see. */
  lemma PassLogsExactlyWhen(db: Db, p: Poll)
    requires ReconcileOutcome(db.agg, p).Ok?
    ensures var after, outcome := Step(db, PollReq(p)), ReconcileOutcome(db.agg, p).value;
            after.events == db.events + if Differs(db.agg, after.agg) then Entries(outcome.kind, outcome.at, db.agg, after.agg) else []
  {
    PassStatuses(db, p);
    WrittenStatuses(db, ReconcileOutcome(db.agg, p).value);
  }

  lemma PassStatuses(db: Db, p: Poll)
    requires ReconcileOutcome(db.agg, p).Ok?
    ensures var outcome := ReconcileOutcome(db.agg, p).value;
            && outcome.fromStatus == Overall(db.agg.exec.snapshot) && outcome.toStatus == Overall(outcome.snapshot)
            && outcome.snapshot.policy == db.agg.exec.snapshot.policy
            && Step(db, PollReq(p)) == ApplySnapshot(db, db.agg, outcome).value
  {
    assert Step(db, PollReq(p)) == ApplySnapshot(db, db.agg, ReconcileOutcome(db.agg, p).value).value;
    if p.result.PollAnswered? {
      AnsweredStatuses(db.agg, p);
    }
  }

  lemma AnsweredStatuses(read: Aggregate, p: Poll)
    requires p.result.PollAnswered? && ReconcileOutcome(read, p).Ok?
    ensures var outcome := ReconcileOutcome(read, p).value;
            && outcome.fromStatus == Overall(read.exec.snapshot) && outcome.toStatus == Overall(outcome.snapshot)
            && outcome.snapshot.policy == read.exec.snapshot.policy
  {
    var bundle := BundleFor(read, p.result.endpoint, p.result.answers);
    var applied := ApplyChainObservation(read.exec.snapshot, bundle.observation).value;
    EvidenceKeepsSnapshot(read, p, bundle, applied);
    CellsKeepPolicy(read, p, bundle, applied);
    assert ReconcileOutcome(read, p) == AnsweredOutcome(read, p, p.result.endpoint, p.result.answers);
  }

  lemma CellsKeepPolicy(read: Aggregate, p: Poll, bundle: Bundle, applied: Applied)
    ensures AfterCells(read, p, bundle, applied).snapshot.policy == AfterEvidence(read, p, bundle, applied).snapshot.policy
  {
  }

  lemma WrittenStatuses(db: Db, input: SnapshotInput)
    requires input.fromStatus == Overall(db.agg.exec.snapshot) && input.toStatus == Overall(input.snapshot)
    requires input.snapshot.policy == db.agg.exec.snapshot.policy
    ensures var after := ApplySnapshot(db, db.agg, input);
            after.Ok? && after.value.events
                         == db.events + if Differs(db.agg, after.value.agg) then Entries(input.kind, input.at, db.agg, after.value.agg) else []
  {
    var after := ApplySnapshot(db, db.agg, input).value.agg;
    assert after.exec.snapshot == input.snapshot;
    assert Settled(after) <==> SettlementIsReady(input.snapshot, input.assertion, db.agg.required, input.conflictType);
  }

  /** A scan adds nothing unless it promotes; then its event, and READY or REVOKED when the settlement has changed. */
  lemma ScanLogsExactlyWhen(db: Db, id: AttemptId, result: PollResult, now: int)
    ensures var after := Step(db, ScanReq(id, result, now));
            if db.agg.exec.txHash.Some? && IsCandidate(db.agg, id) && ScanCandidate(db.agg, id, result, now).Promotion? then
              var confirmed := after.agg.exec.snapshot.workflow.Confirmed?;
              var entries := Entries(if confirmed then CompetingAttemptConfirmed else CompetingAttemptCommitted,
                                     result.answers.at, db.agg, after.agg);
              after.events == db.events + [entries[0].(settlementReady := ReadyWithoutConflict(after.agg))] + entries[1..]
            else after.events == db.events && after.agg.exec == db.agg.exec
  {
    if db.agg.exec.txHash.Some? && IsCandidate(db.agg, id) && ScanCandidate(db.agg, id, result, now).Promotion? {
      PromotionIsSound(db.agg, id, result, now);
      PromotionStep(db, id, result, now);
      PromotionLogs(db, ScanCandidate(db.agg, id, result, now).input);
      PromotionKinds(db.agg, id, result, now);
    }
  }

  /** The flag of an event that is written before the conflict is looked at. */
  predicate ReadyWithoutConflict(agg: Aggregate) {
    SettlementIsReady(agg.exec.snapshot, agg.exec.assertion, agg.required, None)
  }

  lemma PromotionKinds(read: Aggregate, id: AttemptId, result: PollResult, now: int)
    requires id < |read.attempts| && ScanCandidate(read, id, result, now).Promotion?
    ensures var input := ScanCandidate(read, id, result, now).input;
            && input.kind == (if input.snapshot.workflow.Confirmed? then CompetingAttemptConfirmed else CompetingAttemptCommitted)
            && input.at == result.answers.at
  {
  }

  lemma PromotionLogs(db: Db, input: PromoteInput)
    requires input.id < |db.agg.attempts| && input.snapshot.policy == db.agg.exec.snapshot.policy
    ensures var after := Promote(db, db.agg, input);
            after.Ok? && after.value.agg.exec.snapshot == input.snapshot
            && var entries := Entries(input.kind, input.at, db.agg, after.value.agg);
               after.value.events
               == db.events + [entries[0].(settlementReady := ReadyWithoutConflict(after.value.agg))] + entries[1..]
  {
    var after := Promote(db, db.agg, input).value.agg;
    assert after.exec.snapshot == input.snapshot;
    assert Settled(after) <==> SettlementIsReady(input.snapshot, None, db.agg.required, db.agg.attempts[input.id].conflictType);
  }

  /** An accepted attach or report adds exactly one event, from the status shown before to the one shown after. */
  lemma ApiLogsExactlyWhen(db: Db, request: Request)
    requires Sound(db.agg) && (request.AttachReq? || request.MarkReq?)
    ensures var before, after := db.agg, Step(db, request);
            var another := request.AttachReq? && before.exec.txHash.Some? && before.exec.txHash != Some(request.attach.txHash);
            if Write(db, db.agg, request).Ok? then
              after.events == db.events
                + [Event(if another then TransactionAttemptCreated else SubmissionUpdated,
                         Some(Overall(before.exec.snapshot)), Overall(after.agg.exec.snapshot),
                         if request.AttachReq? then request.attach.now else request.mark.now, ReadyWithoutConflict(after.agg))]
            else after == db
  {
  }

  // ---- The history it tells ----------------------------------------------------------------------------------------

  predicate OfSettlement(e: Event) {
    e.kind.SettlementReady? || e.kind.SettlementRevoked?
  }

  /** An event starts where the one before it ended; one about the settlement repeats the change it goes with. */
  predicate Follows(before: Event, e: Event) {
    if OfSettlement(e) then e.fromStatus == before.fromStatus && e.toStatus == before.toStatus
    else e.fromStatus == Some(before.toStatus)
  }

  /** The log begins with the creation, each event continues the one before, and the last one ends at the status shown. */
  predicate TellsHistory(db: Db) {
    && |db.events| > 0 && db.events[0].kind.IntentCreated? && db.events[0].fromStatus.None?
    && (forall i :: 0 < i < |db.events| ==> Follows(db.events[i - 1], db.events[i]))
    && db.events[|db.events| - 1].toStatus == Overall(db.agg.exec.snapshot)
  }

  /** What a write adds: nothing while the status shown stays, or events that lead from the status before to the one after. */
  predicate Leads(added: seq<Event>, from: OverallStatus, to: OverallStatus) {
    if added == [] then from == to
    else
      && |added| <= 2 && !OfSettlement(added[0]) && added[0].fromStatus == Some(from) && added[0].toStatus == to
      && (|added| == 2 ==> OfSettlement(added[1]) && added[1].fromStatus == Some(from) && added[1].toStatus == to)
  }

  /** The write extended the log so. */
  predicate Extends(before: Db, after: Db) {
    && |before.events| <= |after.events| && after.events[..|before.events|] == before.events
    && Leads(after.events[|before.events|..], Overall(before.agg.exec.snapshot), Overall(after.agg.exec.snapshot))
    && (Differs(before.agg, after.agg) ==> |before.events| < |after.events|)
  }

  lemma ExtendsBy(before: Db, after: Db, added: seq<Event>)
    requires after.events == before.events + added
    requires Leads(added, Overall(before.agg.exec.snapshot), Overall(after.agg.exec.snapshot))
    requires Differs(before.agg, after.agg) ==> added != []
    ensures Extends(before, after)
  {
    assert after.events[|before.events|..] == added;
  }

  lemma PassExtends(db: Db, p: Poll)
    ensures Extends(db, Step(db, PollReq(p)))
  {
    var after := Step(db, PollReq(p));
    if ReconcileOutcome(db.agg, p).Ok? {
      PassLogsExactlyWhen(db, p);
      PassKind(db.agg, p);
      PassStatuses(db, p);
      var outcome := ReconcileOutcome(db.agg, p).value;
      EntriesLead(outcome.kind, outcome.at, db.agg, after.agg);
      if !Differs(db.agg, after.agg) {
        SameStatus(db.agg, after.agg);
      }
      ExtendsBy(db, after, if Differs(db.agg, after.agg) then Entries(outcome.kind, outcome.at, db.agg, after.agg) else []);
    } else {
      ExtendsBy(db, after, []);
    }
  }

  lemma EntriesLead(kind: EventKind, at: int, before: Aggregate, after: Aggregate)
    requires !kind.SettlementReady? && !kind.SettlementRevoked?
    ensures Leads(Entries(kind, at, before, after), Overall(before.exec.snapshot), Overall(after.exec.snapshot))
  {
  }

  lemma SameStatus(before: Aggregate, after: Aggregate)
    requires !Differs(before, after)
    ensures Overall(before.exec.snapshot) == Overall(after.exec.snapshot)
  {
  }

  lemma ScanExtends(db: Db, id: AttemptId, result: PollResult, now: int)
    ensures Extends(db, Step(db, ScanReq(id, result, now)))
  {
    var after := Step(db, ScanReq(id, result, now));
    ScanLogsExactlyWhen(db, id, result, now);
    ExtendsBy(db, after, after.events[|db.events|..]);
  }

  lemma ApiExtends(db: Db, request: Request)
    requires Sound(db.agg) && (request.AttachReq? || request.MarkReq?)
    ensures Extends(db, Step(db, request))
  {
    var after := Step(db, request);
    ApiLogsExactlyWhen(db, request);
    ExtendsBy(db, after, after.events[|db.events|..]);
  }

  /** Every request extends the log, and every change that users see with an event of its own. */
  lemma StepExtends(db: Db, request: Request)
    requires Sound(db.agg)
    ensures Extends(db, Step(db, request))
  {
    match request
    case PollReq(p) => PassExtends(db, p);
    case ScanReq(id, result, now) => ScanExtends(db, id, result, now);
    case _ => ApiExtends(db, request);
  }

  lemma PassKind(read: Aggregate, p: Poll)
    ensures var s := ReconcileOutcome(read, p); s.Ok? ==> !s.value.kind.SettlementReady? && !s.value.kind.SettlementRevoked?
  {
    Settlement.OutcomeKind(read, p);
  }

  lemma ExtendedTells(before: Db, after: Db)
    requires TellsHistory(before) && Extends(before, after)
    ensures TellsHistory(after)
  {
    var n := |before.events|;
    assert after.events == before.events + after.events[n..];
    forall i | 0 < i < |after.events|
      ensures Follows(after.events[i - 1], after.events[i])
    {
      if i < n {
        assert after.events[i] == before.events[i] && after.events[i - 1] == before.events[i - 1];
      }
    }
  }

  /** In every reachable state the log tells the history of the status shown, without a gap. */
  lemma {:induction false} LogTellsHistory(policy: Policy, required: nat, requests: seq<Request>)
    ensures TellsHistory(Run(Init(policy, required), requests))
  {
    if requests != [] {
      var n := |requests| - 1;
      LogTellsHistory(policy, required, requests[..n]);
      RunKeeps(policy, required, requests[..n]);
      StepExtends(Before(policy, required, requests, n), requests[n]);
      ExtendedTells(Before(policy, required, requests, n), Step(Before(policy, required, requests, n), requests[n]));
    }
  }

  /** Event i of the log tells of the change between these two states. */
  predicate LoggedAt(events: seq<Event>, before: Db, after: Db, i: nat) {
    && |before.events| <= i < |after.events| <= |events|
    && events[i].fromStatus == Some(Overall(before.agg.exec.snapshot))
    && events[i].toStatus == Overall(after.agg.exec.snapshot)
  }

  lemma {:induction false} LogOnlyGrows(policy: Policy, required: nat, requests: seq<Request>, k: nat)
    requires k <= |requests|
    ensures Before(policy, required, requests, k).events <= Run(Init(policy, required), requests).events
  {
    var n := |requests| - 1;
    if k == |requests| {
      assert requests[..k] == requests;
    } else {
      LogOnlyGrows(policy, required, requests[..n], k);
      Confirmation.BeforeOfPrefix(policy, required, requests, n, k);
      RunKeeps(policy, required, requests[..n]);
      StepExtends(Before(policy, required, requests, n), requests[n]);
    }
  }

  /** Every change that any request of a run made stays told in the log at the end of the run. */
  lemma EveryChangeIsLogged(policy: Policy, required: nat, requests: seq<Request>, k: nat)
    requires k < |requests|
    requires Differs(Before(policy, required, requests, k).agg, Before(policy, required, requests, k + 1).agg)
    ensures var before, after := Before(policy, required, requests, k), Before(policy, required, requests, k + 1);
            exists i: nat :: LoggedAt(Run(Init(policy, required), requests).events, before, after, i)
  {
    var before, after := Before(policy, required, requests, k), Before(policy, required, requests, k + 1);
    var log := Run(Init(policy, required), requests).events;
    BeforeNext(policy, required, requests, k);
    RunKeeps(policy, required, requests[..k]);
    StepExtends(before, requests[k]);
    LogOnlyGrows(policy, required, requests, k + 1);
    var i := |before.events|;
    assert after.events[i..][0] == after.events[i] == log[i];
    assert LoggedAt(log, before, after, i);
  }
}
