/** The values CellFlow stores and exchanges (packages/core/src/types.ts, packages/db/src/types.ts). */
module Types {
  import opened Prelude

  datatype SubmissionStatus = NotSubmitted | Prepared | Broadcasting | Submitted | SubmissionUnknown | NodeRejected

  datatype ChainStatus = Unobserved | Unknown | Pending | Proposed | Committed | Rejected

  datatype WorkflowStatus = Idle | Reconciling | WaitingConfirmations | Confirmed | Reorged | Conflicted | Expired

  datatype OverallStatus =
    | OverallCreated | OverallPrepared | OverallSubmitting | OverallSubmitted | OverallUnknown | OverallPending
    | OverallProposed | OverallCommitted | OverallConfirmed | OverallReconciling | OverallReorged
    | OverallRejected | OverallNodeRejected | OverallConflicted | OverallExpired

  datatype Policy = WhenCommitted | Depth(blocks: int)

  /** Block references are absent or non-empty text, as the mapper from a row leaves them. */
  datatype Snapshot = Snapshot(
    submission: SubmissionStatus,
    chain: ChainStatus,
    workflow: WorkflowStatus,
    policy: Policy,
    confirmations: int,
    blockHash: Option<string>,
    blockNumber: Option<string>,
    rejectionReason: Option<string>)

  type ObservedStatus = status: ChainStatus | !status.Unobserved? witness Unknown

  datatype Observation = Observation(
    status: ObservedStatus,
    at: int,
    blockHash: Option<string>,
    blockNumber: Option<string>,
    tip: Option<string>,
    rejectionReason: Option<string>,
    priorCommitCanonical: Option<bool>)

  datatype OutPoint = OutPoint(txHash: string, index: nat)

  datatype InputRole = ApplicationState | WalletFunding | Fee | Dependency | Other

  datatype InputRef = InputRef(outPoint: OutPoint, role: InputRole, resourceKey: Option<string>)

  datatype AttemptKind = Initial | Rebuild | RbfReplacement | ManualRetry

  datatype Disposition = Active | Superseded | Won | Refused | Clashed | Abandoned

  datatype ConflictType =
    | InputConflictSuspected | InputSpent | ExpectedCellAssertionFailed | ReorgConflict
    | SignedPayloadMismatch | OtherConflict

  datatype ConflictDomain = ApplicationDomain | WalletDomain | MixedDomain | UnknownDomain

  datatype AssertionStatus = AssertionPending | AssertionVerified | AssertionFailed

  datatype RecommendedAction =
    | NoAction | WaitForReconciliation | WaitAndReconcile | RebuildFromLiveState | RecollectWalletInputs
    | RebuildAndResign | ReconcileCanonicalState | WaitForMaturity | ManualReview

  datatype SubmissionErrorType = TransportUnknown | RpcRejection | HashMismatch

  datatype SubmissionError = SubmissionError(errorType: SubmissionErrorType, retryable: bool, maturityOrSince: bool)

  datatype Classification =
    MempoolContended | SpentObserved | SpentConfirmed | PayloadMismatch | CellAssertionFailed

  datatype InspectionState = AllLive | Contended | CanonicallySpent | Uncertain

  datatype EndpointView = EndpointView(endpoint: string, state: Option<InspectionState>)

  datatype Corroboration = Corroboration(confirmed: bool, requiredEndpoints: nat, views: seq<EndpointView>)

  /** Conflict evidence is a JSON record: every field may be missing. */
  datatype Details = Details(
    classification: Option<Classification>,
    canonicalSpendConfirmed: bool,
    continuityBroken: bool,
    firstObservedAt: Option<int>,
    lastObservedAt: Option<int>,
    firstTip: Option<string>,
    lastTip: Option<string>,
    spentCount: Option<int>,
    graceMs: Option<int>,
    graceExpired: bool,
    domain: Option<ConflictDomain>,
    corroboration: Option<Corroboration>)

  const EMPTY_DETAILS := Details(None, false, false, None, None, None, None, None, None, false, None, None)

  /** A stored value that is not a record reads as the empty record. */
  function AsRecord(details: Option<Details>): Details {
    if details.Some? then details.value else EMPTY_DETAILS
  }

  datatype EventKind =
    | IntentCreated | SubmissionUpdated | TransactionAttemptCreated
    | ChainObserved | ReorgDetected | ConfirmedOnChain
    | CompetingAttemptCommitted | CompetingAttemptConfirmed
    | PayloadMismatchFound | SubmissionRejectionSuperseded
    | InputPoolContentionDetected | InputContentionGraceExpired
    | InputSpentObserved | InputConflictCorroborationPending | InputConflictConfirmed
    | InputStateInspected | InputStateUncertain
    | CellsVerified | CellsFailed
    | SettlementReady | SettlementRevoked
}
