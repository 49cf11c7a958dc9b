/**
 * Who polls an intent again: the durable loop, until a pass reports it as terminal, and the repair sweep, which claims what
 * is due and not closed (apps/web/workflows/reconcile-intent.ts, packages/db/src/repository.ts).
 */
module Polling {
  import opened Prelude
  import opened Types
  import opened StateMachine
  import opened Rpc
  import opened Store
  import opened Service
  import opened Reconcile
  import opened Machine
  import opened Invariants
  import opened Confirmation
  import opened Settlement
  import Verdicts

  // ---- What the sweep claims ---------------------------------------------------------------------------------------

  /** The query of the sweep, for an execution that nobody leases. */
  predicate Claimable(exec: Execution, now: int) {
    && exec.nextReconcileAt.Some? && exec.nextReconcileAt.value <= now
    && !exec.snapshot.workflow.Conflicted? && !exec.snapshot.workflow.Expired?
    && !exec.snapshot.chain.Rejected?
    && (!exec.snapshot.submission.NodeRejected? || exec.conflictType == Some(InputConflictSuspected))
  }

  /** The statuses that the sweep refuses. */
  predicate Closed(exec: Execution) {
    || exec.snapshot.workflow.Conflicted? || exec.snapshot.workflow.Expired?
    || exec.snapshot.chain.Rejected?
    || (exec.snapshot.submission.NodeRejected? && exec.conflictType != Some(InputConflictSuspected))
  }

  /** The sweep will claim the execution at some time, if nothing is written before. */
  ghost predicate Sweepable(exec: Execution) {
    exists now :: Claimable(exec, now)
  }

  lemma SweepableExactlyWhen(exec: Execution)
    ensures Sweepable(exec) <==> exec.nextReconcileAt.Some? && !Closed(exec)
  {
    if exec.nextReconcileAt.Some? && !Closed(exec) {
      assert Claimable(exec, exec.nextReconcileAt.value);
    }
  }

  // ---- What ends the loop ------------------------------------------------------------------------------------------

  predicate Unresolved(agg: Aggregate) {
    HasCandidate(agg) && !agg.exec.snapshot.workflow.Confirmed?
  }

  /** The statuses at which the intent itself needs no further pass. */
  predicate Ended(agg: Aggregate) {
    var s := agg.exec.snapshot;
    || s.workflow.Conflicted? || s.workflow.Expired? || s.chain.Rejected?
    || (s.workflow.Confirmed? && (agg.required == 0 || agg.exec.assertion == Some(AssertionVerified)))
  }

  /** The settlement is watched: a period is configured, and it has not passed since the settlement began. */
  predicate InPeriod(read: Aggregate, p: Poll)
    requires p.result.PollAnswered?
  {
    p.monitorMs > 0 && p.now < OrElse(read.exec.settlementReadyAt, Some(p.result.answers.at)).value + p.monitorMs
  }

  /** A pass that read this row and wrote its outcome reports terminal exactly for these statuses. */
  lemma WrittenPassTerminalExactlyWhen(stored: Db, read: Aggregate, p: Poll)
    requires SameStatuses(read, stored.agg) && PollStep(stored, read, p).Ok?
    ensures var after := PollStep(stored, read, p).value.agg;
            TerminalOutcome(read, p) <==>
              && p.result.PollAnswered? && Ended(after)
              && (after.exec.snapshot.workflow.Confirmed? || !HasCandidate(read))
              && !(Ready(after) && InPeriod(read, p))
  {
    if p.result.PollAnswered? {
      var bundle := BundleFor(read, p.result.endpoint, p.result.answers);
      var applied := ApplyChainObservation(read.exec.snapshot, bundle.observation).value;
      var draft := AfterCells(read, p, bundle, applied);
      EvidenceKeepsPolicy(read, p, bundle, applied);
      assert draft.snapshot.policy == read.exec.snapshot.policy;
      assert bundle.observation.at == p.result.answers.at;
    }
  }

  predicate SameStatuses(read: Aggregate, agg: Aggregate) {
    read.required == agg.required && read.exec.snapshot.policy == agg.exec.snapshot.policy
  }

  lemma EvidenceKeepsPolicy(read: Aggregate, poll: Poll, bundle: Bundle, applied: Applied)
    requires ApplyChainObservation(read.exec.snapshot, bundle.observation) == Ok(applied)
    ensures AfterCells(read, poll, bundle, applied).snapshot.policy == read.exec.snapshot.policy
  {
    assert AfterEvidence(read, poll, bundle, applied).snapshot.policy == applied.snapshot.policy;
  }

  lemma CandidatesStay(db: Db, p: Poll)
    requires Inv(db.agg) && !Step(db, PollReq(p)).agg.exec.snapshot.workflow.Confirmed?
    ensures HasCandidate(Step(db, PollReq(p)).agg) <==> HasCandidate(db.agg)
  {
    var after := Step(db, PollReq(p)).agg;
    assert forall id: AttemptId :: IsCandidate(after, id) <==> IsCandidate(db.agg, id);
    if HasCandidate(db.agg) {
      var id :| 0 <= id < |db.agg.attempts| && IsCandidate(db.agg, id);
      assert IsCandidate(after, id);
    }
    if HasCandidate(after) {
      var id :| 0 <= id < |after.attempts| && IsCandidate(after, id);
      assert IsCandidate(db.agg, id);
    }
  }

  /**
   * A pass reports terminal if and only if it was answered, the statuses it wrote need no further pass, no candidate is
   * unresolved, and no monitoring period is running. So a loop never ends while one of the last two holds.
   */
  lemma TerminalExactlyWhen(db: Db, p: Poll)
    requires Inv(db.agg) && ReconcileOutcome(db.agg, p).Ok?
    ensures var after := Step(db, PollReq(p)).agg;
            TerminalOutcome(db.agg, p) <==>
              p.result.PollAnswered? && Ended(after) && !Unresolved(after) && !(Ready(after) && InPeriod(db.agg, p))
  {
    WrittenPassTerminalExactlyWhen(db, db.agg, p);
    if !Step(db, PollReq(p)).agg.exec.snapshot.workflow.Confirmed? {
      CandidatesStay(db, p);
    }
  }

  // ---- Unresolved candidates ---------------------------------------------------------------------------------------

  /** A pass schedules the next one while an unresolved candidate remains; the loop goes on too. */
  lemma PassSchedulesCandidates(db: Db, p: Poll)
    requires ReconcileOutcome(db.agg, p).Ok?
    ensures var after := Step(db, PollReq(p)).agg.exec;
            HasCandidate(db.agg) && !after.snapshot.workflow.Confirmed? ==>
              after.nextReconcileAt.Some? && !TerminalOutcome(db.agg, p)
  {
    if p.result.PollAnswered? {
      var bundle := BundleFor(db.agg, p.result.endpoint, p.result.answers);
      var applied := ApplyChainObservation(db.agg.exec.snapshot, bundle.observation).value;
      var draft := AfterCells(db.agg, p, bundle, applied);
      assert ReconcileOutcome(db.agg, p).value.nextReconcileAt == NextReconcile(db.agg, p, bundle, draft);
    }
  }

  /** An accepted attach as PREPARED: nothing has been broadcast, so no pass is scheduled. */
  predicate AttachesPrepared(db: Db, request: Request) {
    request.AttachReq? && request.attach.submission.Prepared? && Write(db, db.agg, request).Ok?
  }

  /** An accepted request that sets the time of the next pass. */
  predicate Schedules(db: Db, request: Request) {
    && Write(db, db.agg, request).Ok?
    && match request
       case AttachReq(r) => r.submission.Submitted?
       case MarkReq(m) => ComputeMark(db.agg, m).Ok? && ComputeMark(db.agg, m).value.schedule.Some?
       case PollReq(_) => true
       case ScanReq(id, result, now) =>
         db.agg.exec.txHash.Some? && IsCandidate(db.agg, id) && ScanCandidate(db.agg, id, result, now).Promotion?
  }

  predicate Forgotten(agg: Aggregate) {
    Unresolved(agg) && agg.exec.nextReconcileAt.None?
  }

  lemma AttachForgets(db: Db, r: AttachRequest)
    requires Write(db, db.agg, AttachReq(r)).Ok?
    ensures Step(db, AttachReq(r)).agg.exec.nextReconcileAt == if r.submission.Submitted? then Some(r.now) else None
  {
  }

  lemma MarkForgets(db: Db, m: MarkRequest)
    requires Inv(db.agg) && Forgotten(Step(db, MarkReq(m)).agg)
    ensures Forgotten(db.agg) && !Schedules(db, MarkReq(m))
  {
    var after := Step(db, MarkReq(m)).agg;
    var id :| 0 <= id < |after.attempts| && IsCandidate(after, id);
    assert IsCandidate(db.agg, id);
  }

  lemma PollForgets(db: Db, p: Poll)
    requires Inv(db.agg) && Forgotten(Step(db, PollReq(p)).agg)
    ensures Forgotten(db.agg) && !Schedules(db, PollReq(p))
  {
    var after := Step(db, PollReq(p)).agg;
    var id :| 0 <= id < |after.attempts| && IsCandidate(after, id);
    assert IsCandidate(db.agg, id);
    if ReconcileOutcome(db.agg, p).Ok? {
      PassSchedulesCandidates(db, p);
      assert false;
    }
  }

  lemma ScanForgets(db: Db, id: AttemptId, result: PollResult, now: int)
    requires Inv(db.agg) && Forgotten(Step(db, ScanReq(id, result, now)).agg)
    ensures Forgotten(db.agg) && !Schedules(db, ScanReq(id, result, now))
  {
    if db.agg.exec.txHash.Some? && IsCandidate(db.agg, id) {
      PromotionIsSound(db.agg, id, result, now);
      match ScanCandidate(db.agg, id, result, now)
      case NoWrite =>
      case SideUpdate(s, conflictType, details) =>
        assert IsCandidate(db.agg, id);
      case Promotion(input) => assert false;
    }
  }

  /** A state that forgets a candidate was reached by an attach as PREPARED, or forgot it before. */
  lemma ForgettingStep(db: Db, request: Request)
    requires Inv(db.agg) && Forgotten(Step(db, request).agg)
    ensures AttachesPrepared(db, request) || (Forgotten(db.agg) && !Schedules(db, request))
  {
    match request
    case AttachReq(r) =>
      if Write(db, db.agg, request).Ok? {
        AttachForgets(db, r);
      }
    case MarkReq(m) => MarkForgets(db, m);
    case PollReq(p) => PollForgets(db, p);
    case ScanReq(id, result, now) => ScanForgets(db, id, result, now);
  }

  lemma StaysUnscheduled(db: Db, request: Request)
    requires AttachesPrepared(db, request) || (db.agg.exec.nextReconcileAt.None? && !Schedules(db, request))
    ensures Step(db, request).agg.exec.nextReconcileAt.None?
  {
  }

  /** Request j attached as PREPARED, and nothing accepted since has scheduled a pass. */
  predicate UnscheduledSince(policy: Policy, required: nat, requests: seq<Request>, j: nat) {
    j < |requests|
    && var n := |requests| - 1;
       var db := Before(policy, required, requests, n);
       if j == n then AttachesPrepared(db, requests[n])
       else !Schedules(db, requests[n]) && UnscheduledSince(policy, required, requests[..n], j)
  }

  lemma {:induction false} UnscheduledHasNoPass(policy: Policy, required: nat, requests: seq<Request>, j: nat)
    requires UnscheduledSince(policy, required, requests, j)
    ensures Run(Init(policy, required), requests).agg.exec.nextReconcileAt.None?
  {
    var n := |requests| - 1;
    if j < n {
      UnscheduledHasNoPass(policy, required, requests[..n], j);
    }
    StaysUnscheduled(Before(policy, required, requests, n), requests[n]);
  }

  lemma {:induction false} ForgottenIsUnscheduled(policy: Policy, required: nat, requests: seq<Request>)
    requires Forgotten(Run(Init(policy, required), requests).agg)
    ensures exists j :: UnscheduledSince(policy, required, requests, j)
  {
    var n := |requests| - 1;
    var db := Before(policy, required, requests, n);
    RunKeeps(policy, required, requests[..n]);
    ForgettingStep(db, requests[n]);
    if AttachesPrepared(db, requests[n]) {
      assert UnscheduledSince(policy, required, requests, n);
    } else {
      ForgottenIsUnscheduled(policy, required, requests[..n]);
      var j :| UnscheduledSince(policy, required, requests[..n], j);
      assert UnscheduledSince(policy, required, requests, j);
    }
  }

  lemma UnscheduledExactlyWhen(policy: Policy, required: nat, requests: seq<Request>)
    requires Unresolved(Run(Init(policy, required), requests).agg)
    ensures Run(Init(policy, required), requests).agg.exec.nextReconcileAt.None? <==>
            exists j :: UnscheduledSince(policy, required, requests, j)
  {
    if Forgotten(Run(Init(policy, required), requests).agg) {
      ForgottenIsUnscheduled(policy, required, requests);
    }
    if j :| UnscheduledSince(policy, required, requests, j) {
      UnscheduledHasNoPass(policy, required, requests, j);
    }
  }

  /**
   * In every reachable state with an unresolved candidate, the sweep passes it over if and only if the request that last
   * decided the schedule was an attach as PREPARED, or the projection is conflicting, rejected, or refused without a
   * suspected conflict. Only a running loop polls it then.
   */
  lemma SweepMissesCandidateExactlyWhen(policy: Policy, required: nat, requests: seq<Request>)
    requires Unresolved(Run(Init(policy, required), requests).agg)
    ensures !Sweepable(Run(Init(policy, required), requests).agg.exec) <==>
              || Closed(Run(Init(policy, required), requests).agg.exec)
              || (exists j :: UnscheduledSince(policy, required, requests, j))
  {
    SweepableExactlyWhen(Run(Init(policy, required), requests).agg.exec);
    UnscheduledExactlyWhen(policy, required, requests);
  }

  // ---- Settled intents ---------------------------------------------------------------------------------------------

  /** The sweep passes over a settled intent if and only if nothing is scheduled or its broadcast was refused. */
  lemma SweepMissesSettledExactlyWhen(agg: Aggregate)
    requires Ready(agg)
    ensures !Sweepable(agg.exec) <==> agg.exec.nextReconcileAt.None? || agg.exec.snapshot.submission.NodeRejected?
  {
    SweepableExactlyWhen(agg.exec);
  }

  /**
   * After a pass that leaves the intent settled, the loop goes on exactly within the monitoring period; the sweep will claim
   * it exactly within the period, too, unless its broadcast stands refused.
   */
  lemma WatchedExactlyWhen(db: Db, p: Poll)
    requires Inv(db.agg) && p.result.PollAnswered? && ReconcileOutcome(db.agg, p).Ok?
    requires Ready(Step(db, PollReq(p)).agg)
    ensures var after := Step(db, PollReq(p)).agg.exec;
            && (TerminalOutcome(db.agg, p) <==> !InPeriod(db.agg, p))
            && (Sweepable(after) <==> InPeriod(db.agg, p) && !after.snapshot.submission.NodeRejected?)
            && (Sweepable(after) ==> p.now + 12000 <= after.nextReconcileAt.value <= p.now + 60000)
  {
    TerminalExactlyWhen(db, p);
    ScheduleOfSettled(db, p);
    SweepMissesSettledExactlyWhen(Step(db, PollReq(p)).agg);
  }

  lemma ScheduleOfSettled(db: Db, p: Poll)
    requires Inv(db.agg) && p.result.PollAnswered? && ReconcileOutcome(db.agg, p).Ok?
    requires Ready(Step(db, PollReq(p)).agg)
    ensures var after := Step(db, PollReq(p)).agg.exec;
            && (!after.snapshot.submission.NodeRejected? ==> (after.nextReconcileAt.Some? <==> InPeriod(db.agg, p)))
            && (after.nextReconcileAt.Some? && InPeriod(db.agg, p) ==>
                  p.now + 12000 <= after.nextReconcileAt.value <= p.now + 60000)
  {
    ReconcileOutcomeIsSound(db.agg, p);
    var outcome := ReconcileOutcome(db.agg, p).value;
    var bundle := BundleFor(db.agg, p.result.endpoint, p.result.answers);
    var applied := ApplyChainObservation(db.agg.exec.snapshot, bundle.observation).value;
    var draft := AfterCells(db.agg, p, bundle, applied);
    assert outcome.nextReconcileAt == NextReconcile(db.agg, p, bundle, draft);
    NextOfSettled(db.agg, p, bundle, draft);
    KeptRefusal(db.agg, p, bundle, applied);
  }

  lemma NextOfSettled(read: Aggregate, p: Poll, bundle: Bundle, draft: Draft)
    requires p.result.PollAnswered? && bundle == BundleFor(read, p.result.endpoint, p.result.answers)
    requires SettlementIsReady(draft.snapshot, draft.assertion, read.required, draft.conflictType)
    ensures var next := NextReconcile(read, p, bundle, draft);
            && (next.Some? <==>
                  InPeriod(read, p) && !(bundle.observation.status.Unknown? && read.exec.snapshot.submission.NodeRejected?))
            && (next.Some? ==> p.now + 12000 <= next.value <= p.now + 60000)
  {
    assert bundle.observation.at == p.result.answers.at;
    assert Monitors(read, p, bundle, draft) <==> InPeriod(read, p);
  }

  /** A pass takes back a refusal exactly when the node knows the transaction. */
  lemma KeptRefusal(read: Aggregate, p: Poll, bundle: Bundle, applied: Applied)
    requires ApplyChainObservation(read.exec.snapshot, bundle.observation) == Ok(applied)
    ensures AfterCells(read, p, bundle, applied).snapshot.submission.NodeRejected? <==>
            read.exec.snapshot.submission.NodeRejected? && !Seen(bundle.observation.status)
  {
    assert applied.snapshot.submission == read.exec.snapshot.submission;
    assert AfterEvidence(read, p, bundle, applied).snapshot.submission
           == SupersedeNodeRejection(applied.snapshot, bundle.observation.status).submission;
  }

  /** While the bookkeeping of settlements is sound, the period counts from the stored settlement time. */
  lemma PeriodCountsFromSettlement(db: Db, p: Poll)
    requires Inv(db.agg) && Booked(db) && p.result.PollAnswered? && ReconcileOutcome(db.agg, p).Ok?
    requires Ready(Step(db, PollReq(p)).agg)
    ensures Step(db, PollReq(p)).agg.exec.settlementReadyAt
            == OrElse(db.agg.exec.settlementReadyAt, Some(p.result.answers.at))
  {
    ReconcileOutcomeIsSound(db.agg, p);
    var outcome := ReconcileOutcome(db.agg, p).value;
    OutcomeIsAnswered(db.agg, p);
    assert SettlementIsReady(outcome.snapshot, outcome.assertion, db.agg.required, outcome.conflictType);
    assert PriorReady(db.agg) <==> db.agg.exec.settlementReadyAt.Some?;
  }

  lemma OutcomeIsAnswered(read: Aggregate, p: Poll)
    requires p.result.PollAnswered? && ReconcileOutcome(read, p).Ok?
    ensures ReconcileOutcome(read, p).value.at == p.result.answers.at
  {
  }

  // ---- When the next pass is due -----------------------------------------------------------------------------------

  /** The delay for a transaction that is seen, lost, or refused; a lost one is looked for less and less often. */
  predicate DelayFits(delay: int, chain: ChainStatus, attempts: nat) {
    match chain
    case Pending => delay == 12000
    case Proposed => delay == 12000
    case Committed => delay == 12000
    case Rejected => delay == 20000
    case _ => if attempts <= 4 then delay == 10000 * Pow2(attempts) else delay == 300000
  }

  lemma NextDelayFits(attempt: nat, chain: ChainStatus)
    ensures DelayFits(NextDelay(attempt, chain), chain, attempt)
  {
    Verdicts.PowersOfTwo();
    assert attempt == 0 || attempt == 1 || attempt == 2 || attempt == 3 || attempt == 4 || attempt >= 5;
  }

  /** A refusal that has nothing left to look for: the transaction is absent, nothing competes, and no conflict is left. */
  predicate RefusalIsResolved(db: Db, p: Poll)
    requires p.result.PollAnswered?
  {
    var after := Step(db, PollReq(p)).agg.exec;
    && db.agg.exec.snapshot.submission.NodeRejected? && after.conflictType.None?
    && !Verdicts.ShowsTransaction(p.result.answers) && !Says(p.result.answers, "rejected")
    && (after.snapshot.workflow.Confirmed? || !HasCandidate(db.agg))
  }

  /** When the next pass is due: never after a terminal one or a resolved refusal; else by the monitoring, or by the chain. */
  lemma NextPassExactlyWhen(db: Db, p: Poll)
    requires p.result.PollAnswered? && ReconcileOutcome(db.agg, p).Ok?
    ensures var after := Step(db, PollReq(p)).agg;
            var next := after.exec.nextReconcileAt;
            && (next.None? <==> TerminalOutcome(db.agg, p) || RefusalIsResolved(db, p))
            && (next.Some? && Ready(after) && InPeriod(db.agg, p) ==>
                  next.value == p.now + Min(60000, Max(12000, p.monitorMs / 20)))
            && (next.Some? && !(Ready(after) && InPeriod(db.agg, p)) ==>
                  DelayFits(next.value - p.now, after.exec.snapshot.chain, db.agg.exec.reconcileAttempts))
  {
    var bundle := BundleFor(db.agg, p.result.endpoint, p.result.answers);
    var applied := ApplyChainObservation(db.agg.exec.snapshot, bundle.observation).value;
    var draft := AfterCells(db.agg, p, bundle, applied);
    EvidenceKeepsPolicy(db.agg, p, bundle, applied);
    Verdicts.PassWritesDraft(db, p);
    NextDelayFits(db.agg.exec.reconcileAttempts, draft.snapshot.chain);
    assert Monitors(db.agg, p, bundle, draft) <==> Ready(Step(db, PollReq(p)).agg) && InPeriod(db.agg, p);
  }

  /** After an outage the transaction counts as lost, whatever is recorded. */
  lemma NextPassAfterOutage(db: Db, p: Poll)
    requires p.result.PollFailed? && ReconcileOutcome(db.agg, p).Ok?
    ensures var next := Step(db, PollReq(p)).agg.exec.nextReconcileAt;
            next.Some? && DelayFits(next.value - p.now, Unknown, db.agg.exec.reconcileAttempts)
  {
    NextDelayFits(db.agg.exec.reconcileAttempts, Unknown);
  }
}
