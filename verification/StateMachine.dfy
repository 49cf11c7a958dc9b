/** The lifecycle machine (packages/core/src/state-machine.ts). */
module StateMachine {
  import opened Prelude
  import opened Types
  import Hex

  const MAX_SAFE_INTEGER := 9007199254740991

  datatype TransitionError = TransitionInvalid

  datatype Applied = Applied(
    snapshot: Snapshot, reorgDetected: bool, kind: EventKind, fromOverall: OverallStatus, toOverall: OverallStatus, at: int)

  function ConfirmationCount(committed: Option<string>, tip: Option<string>): int {
    var height := Hex.ParseHeight(committed);
    var top := Hex.ParseHeight(tip);
    if height.None? || top.None? || top.value < height.value then 0
    else Min(top.value - height.value + 1, MAX_SAFE_INTEGER)
  }

  predicate ConfirmationSatisfied(policy: Policy, chain: ChainStatus, confirmations: int) {
    chain.Committed? && (policy.WhenCommitted? || confirmations >= policy.blocks)
  }

  predicate SettlementIsReady(
    snapshot: Snapshot, assertion: Option<AssertionStatus>, required: nat, conflict: Option<ConflictType>)
  {
    && snapshot.workflow.Confirmed?
    && snapshot.chain.Committed?
    && Present(snapshot.blockHash) && Present(snapshot.blockNumber)
    && ConfirmationSatisfied(snapshot.policy, snapshot.chain, snapshot.confirmations)
    && conflict.None?
    && (required == 0 || assertion == Some(AssertionVerified))
  }

  function Overall(s: Snapshot): OverallStatus {
    if s.workflow.Conflicted? then OverallConflicted
    else if s.workflow.Expired? then OverallExpired
    else if s.chain.Rejected? then OverallRejected
    else if s.workflow.Reorged? then OverallReorged
    else if s.workflow.Confirmed? then OverallConfirmed
    else if s.chain.Committed? then OverallCommitted
    else if s.chain.Proposed? then OverallProposed
    else if s.chain.Pending? then OverallPending
    else if s.submission.NodeRejected? then OverallNodeRejected
    else if s.workflow.Reconciling? then OverallReconciling
    else if s.chain.Unknown? then OverallUnknown
    else match s.submission
      case Submitted => OverallSubmitted
      case SubmissionUnknown => OverallUnknown
      case Broadcasting => OverallSubmitting
      case Prepared => OverallPrepared
      case _ => OverallCreated
  }

  function DomainOf(details: Option<Details>): ConflictDomain {
    var domain := AsRecord(details).domain;
    if domain.Some? then domain.value else UnknownDomain
  }

  /** The recovery advised for the recorded state. */
  function RecommendedActionFor(
    s: Snapshot, conflict: Option<ConflictType>, assertion: Option<AssertionStatus>,
    details: Option<Details>, submissionError: Option<SubmissionError>, required: nat): RecommendedAction
  {
    if assertion == Some(AssertionFailed) || conflict == Some(ExpectedCellAssertionFailed)
       || conflict == Some(SignedPayloadMismatch) then ManualReview
    else if s.workflow.Confirmed? then
      if SettlementIsReady(s, assertion, required, conflict) then NoAction else WaitForReconciliation
    else if conflict == Some(InputSpent) then
      match DomainOf(details)
      case WalletDomain => RecollectWalletInputs
      case MixedDomain => RebuildAndResign
      case ApplicationDomain => RebuildFromLiveState
      case UnknownDomain => ManualReview
    else if s.workflow.Reorged? || conflict == Some(ReorgConflict) then ReconcileCanonicalState
    else if conflict == Some(InputConflictSuspected) then
      var record := AsRecord(details);
      if record.classification == Some(MempoolContended) && record.graceExpired then
        match DomainOf(details)
        case WalletDomain => RecollectWalletInputs
        case ApplicationDomain => RebuildFromLiveState
        case MixedDomain => RebuildAndResign
        case UnknownDomain => ManualReview
      else WaitAndReconcile
    else if s.submission.NodeRejected? && submissionError.Some?
            && submissionError.value.retryable && submissionError.value.maturityOrSince then WaitForMaturity
    else if s.submission.SubmissionUnknown? then WaitForReconciliation
    else if s.workflow.Reconciling? || s.workflow.WaitingConfirmations? then WaitForReconciliation
    else if s.chain.Rejected? || s.submission.NodeRejected? then ManualReview
    else NoAction
  }

  /** The node knows the transaction: it is pooled or on the chain. */
  predicate Seen(status: ChainStatus) {
    status.Pending? || status.Proposed? || status.Committed?
  }

  function SupersedeNodeRejection(s: Snapshot, observed: ChainStatus): Snapshot {
    if s.submission.NodeRejected? && Seen(observed) then s.(submission := Submitted) else s
  }

  function InitialSnapshot(policy: Policy): Snapshot {
    Snapshot(NotSubmitted, Unobserved, Idle, policy, 0, None, None, None)
  }

  function SubmissionOrder(status: SubmissionStatus): int {
    match status
    case NotSubmitted => 0
    case Prepared => 1
    case Broadcasting => 2
    case SubmissionUnknown => 3
    case Submitted => 4
    case NodeRejected => -1
  }

  function UpdateSubmission(s: Snapshot, next: SubmissionStatus): Result<Snapshot, TransitionError> {
    if s.workflow.Conflicted? || s.workflow.Expired? then Err(TransitionInvalid)
    else if s.chain.Rejected? then Err(TransitionInvalid)
    else if s.submission.NodeRejected? then
      if next.NodeRejected? then Ok(s) else Err(TransitionInvalid)
    else if next.NodeRejected? then
      if s.submission.Prepared? || s.submission.Broadcasting? || s.submission.SubmissionUnknown?
      then Ok(s.(submission := next)) else Err(TransitionInvalid)
    else if SubmissionOrder(next) < SubmissionOrder(s.submission) && !(s.submission.SubmissionUnknown? && next.Submitted?)
    then Err(TransitionInvalid)
    else Ok(s.(submission := next))
  }

  /** Only a different canonical block at the recorded height, or a commit in another block, proves a reorg. */
  predicate ReorgAgainstPriorCommit(s: Snapshot, o: Observation) {
    Present(s.blockHash)
    && (o.priorCommitCanonical == Some(false)
        || (o.status.Committed? && Present(o.blockHash) && o.blockHash != s.blockHash))
  }

  function ApplyChainObservation(s: Snapshot, o: Observation): Result<Applied, TransitionError> {
    if s.workflow.Conflicted? || s.workflow.Expired? then Err(TransitionInvalid)
    else
      var reorg := ReorgAgainstPriorCommit(s, o);
      if s.chain.Committed? && !o.status.Committed? && !reorg then
        var preserved := s.(workflow := if s.workflow.Confirmed? then Confirmed else Reconciling);
        Ok(Applied(preserved, false, ChainObserved, Overall(s), Overall(preserved), o.at))
      else
        var next := NextSnapshot(s, o, reorg);
        Ok(Applied(next, reorg,
                   if reorg then ReorgDetected else if next.workflow.Confirmed? then ConfirmedOnChain else ChainObserved,
                   Overall(s), Overall(next), o.at))
  }

  function NextSnapshot(s: Snapshot, o: Observation, reorg: bool): Snapshot {
    var confirmations := if o.status.Committed? then ConfirmationCount(o.blockNumber, o.tip) else 0;
    var next := s.(chain := o.status, confirmations := confirmations,
                   rejectionReason := if Present(o.rejectionReason) then o.rejectionReason else s.rejectionReason);
    if o.status.Committed? then
      next.(blockHash := if Present(o.blockHash) then o.blockHash else s.blockHash,
            blockNumber := if Present(o.blockNumber) then o.blockNumber else s.blockNumber,
            workflow := if ConfirmationSatisfied(s.policy, Committed, confirmations) then Confirmed else WaitingConfirmations)
    else if o.status.Rejected? then next.(workflow := Idle)
    else if reorg then next.(blockHash := None, blockNumber := None, workflow := Reorged)
    else next.(workflow := Reconciling)
  }
}
