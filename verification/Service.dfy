/** The guards the API puts before a write (apps/api/src/service.ts). Hashes arrive in their normal form. */
module Service {
  import opened Prelude
  import opened Types
  import opened StateMachine
  import opened Store

  type AttachStatus = s: SubmissionStatus | s.Prepared? || s.Submitted? witness Prepared

  type MarkStatus = s: SubmissionStatus | s.Broadcasting? || s.Submitted? || s.SubmissionUnknown? || s.NodeRejected?
    witness Submitted

  datatype AttachRequest = AttachRequest(
    txHash: string,
    submission: AttachStatus,
    payloadHash: Option<string>,
    inputs: Option<seq<OutPoint>>,
    refs: Option<seq<InputRef>>,
    kind: Option<AttemptKind>,
    parent: Option<AttemptId>,
    allowRevision: bool,
    foreignHashes: set<string>,
    now: int)

  datatype Failure = Failure(
    errorType: SubmissionErrorType, retryable: bool, maturityOrSince: bool, conflictType: Option<ConflictType>)

  datatype MarkRequest = MarkRequest(status: MarkStatus, failure: Option<Failure>, now: int)

  function OutPointsOf(refs: seq<InputRef>): seq<OutPoint> {
    seq(|refs|, i requires 0 <= i < |refs| => refs[i].outPoint)
  }

  /** Both views of the inputs are given and differ. */
  predicate InconsistentInputs(r: AttachRequest) {
    && r.inputs.Some? && r.inputs.value != []
    && r.refs.Some? && r.refs.value != []
    && OutPointsOf(r.refs.value) != r.inputs.value
  }

  function ComputeAttach(read: Aggregate, r: AttachRequest): Result<AttachInput, Error> {
    var same := read.exec.txHash == Some(r.txHash);
    var replacing := read.exec.txHash.Some? && !same;
    var before := read.exec.snapshot;
    var after := UpdateSubmission(if replacing then InitialSnapshot(before.policy) else before, r.submission);
    if InconsistentInputs(r) then Err(InvalidSignedTransaction)
    else if same && r.inputs.Some? && r.inputs.value != [] && read.exec.inputs != [] && read.exec.inputs != r.inputs.value
    then Err(IntentConflict)
    else if same && r.refs.Some? && r.refs.value != [] && read.exec.refs != [] && read.exec.refs != r.refs.value
    then Err(IntentConflict)
    else if after.Err? then Err(InvalidTransition)
    else Ok(AttachInput(
      r.txHash,
      if r.payloadHash.Some? then Some(ToLower(r.payloadHash.value)) else None,
      r.allowRevision, r.submission, r.inputs, r.refs,
      Some(if r.kind.Some? then r.kind.value else if replacing then Rebuild else Initial),
      r.parent,
      if r.submission.Submitted? then Some(r.now) else None,
      Overall(before), Overall(after.value), r.now, r.foreignHashes))
  }

  /** Which failure reports the API accepts for which status. */
  predicate FailureAllowed(status: MarkStatus, failure: Option<Failure>) {
    && (status.NodeRejected? ==> failure.Some? && failure.value.errorType.RpcRejection?)
    && (status.SubmissionUnknown? && failure.Some? ==> !failure.value.errorType.RpcRejection? && failure.value.conflictType.None?)
    && (failure.Some? && failure.value.conflictType.Some? ==> failure.value.conflictType.value.InputConflictSuspected?)
    && (failure.Some? ==> status.NodeRejected? || status.SubmissionUnknown?)
  }

  function ReportedConflict(m: MarkRequest): Option<ConflictType> {
    if m.failure.Some? then m.failure.value.conflictType else None
  }

  function ComputeMark(read: Aggregate, m: MarkRequest): Result<MarkInput, Error> {
    var after := UpdateSubmission(read.exec.snapshot, m.status);
    if !FailureAllowed(m.status, m.failure) then Err(InvalidTransition)
    else if read.exec.txHash.None? then Err(InvalidTxHash)
    else if after.Err? then Err(InvalidTransition)
    else
      var conflict := ReportedConflict(m);
      Ok(MarkInput(
        m.status,
        if m.status.Submitted? || m.status.SubmissionUnknown? || (m.status.NodeRejected? && conflict.Some?)
        then Some(m.now) else None,
        if m.failure.Some?
        then Some(SubmissionError(m.failure.value.errorType, m.failure.value.retryable, m.failure.value.maturityOrSince))
        else None,
        conflict,
        if conflict.Some? then Some(EMPTY_DETAILS) else None,
        Overall(read.exec.snapshot), Overall(after.value), m.now))
  }
}
