/** Which attaches and reports are accepted, what refuses the others, and what an accepted one records. */
module ApiWrites {
  import opened Prelude
  import opened Types
  import opened StateMachine
  import opened Transitions
  import opened Store
  import opened Service
  import opened Reconcile
  import opened Machine
  import opened Invariants

  // ---- Reports about the submission --------------------------------------------------------------------------------

  /** The API takes this failure with this status. */
  predicate FailureFits(m: MarkRequest) {
    match m.status
    case NodeRejected =>
      && m.failure.Some? && m.failure.value.errorType.RpcRejection?
      && (m.failure.value.conflictType.None? || m.failure.value.conflictType == Some(InputConflictSuspected))
    case SubmissionUnknown =>
      m.failure.Some? ==> !m.failure.value.errorType.RpcRejection? && m.failure.value.conflictType.None?
    case _ => m.failure.None?
  }

  /** The report does not go back, and a refusal comes before any acceptance and stays. */
  predicate Advances(s: Snapshot, status: SubmissionStatus) {
    && Open(s) && !s.chain.Rejected?
    && match s.submission
       case NodeRejected => status.NodeRejected?
       case Submitted => status.Submitted?
       case SubmissionUnknown => !status.Broadcasting? && !status.Prepared? && !status.NotSubmitted?
       case Broadcasting => !status.Prepared? && !status.NotSubmitted?
       case Prepared => !status.NotSubmitted?
       case NotSubmitted => !status.NodeRejected?
  }

  lemma AdvancesExactlyWhen(s: Snapshot, status: SubmissionStatus)
    ensures UpdateSubmission(s, status).Ok? <==> Advances(s, status)
    ensures Advances(s, status) ==> UpdateSubmission(s, status).value == s.(submission := status)
  {
  }

  lemma ReportAcceptedExactlyWhen(db: Db, m: MarkRequest)
    ensures Write(db, db.agg, MarkReq(m)).Ok? <==>
              FailureFits(m) && db.agg.exec.txHash.Some? && Advances(db.agg.exec.snapshot, m.status)
    ensures Write(db, db.agg, MarkReq(m)).Err? ==>
              Write(db, db.agg, MarkReq(m)).error
              == if FailureFits(m) && db.agg.exec.txHash.None? then InvalidTxHash else InvalidTransition
  {
    AdvancesExactlyWhen(db.agg.exec.snapshot, m.status);
  }

  function ErrorIn(m: MarkRequest): Option<SubmissionError> {
    if m.failure.None? then None
    else Some(SubmissionError(m.failure.value.errorType, m.failure.value.retryable, m.failure.value.maturityOrSince))
  }

  predicate NamesConflict(m: MarkRequest) {
    m.failure.Some? && m.failure.value.conflictType.Some?
  }

  /** What an accepted report records on the execution; a conflict it names replaces the one recorded. */
  lemma ReportRecords(db: Db, m: MarkRequest)
    requires Write(db, db.agg, MarkReq(m)).Ok?
    ensures var before, after := db.agg.exec, Step(db, MarkReq(m)).agg.exec;
            && after == before.(snapshot := before.snapshot.(submission := m.status), submissionError := ErrorIn(m),
                                conflictType := after.conflictType, conflictDetails := after.conflictDetails,
                                nextReconcileAt := after.nextReconcileAt, version := before.version + 1)
            && after.conflictType == (if NamesConflict(m) then Some(InputConflictSuspected) else before.conflictType)
            && (after.conflictDetails.Some? <==> NamesConflict(m))
            && after.nextReconcileAt == (if m.status.Broadcasting? || (m.status.NodeRejected? && !NamesConflict(m))
                                         then before.nextReconcileAt else Some(m.now))
  {
  }

  /** It records the same on the active attempt, which runs again or is refused, and on no other. */
  lemma ReportRecordsAttempt(db: Db, m: MarkRequest)
    requires Write(db, db.agg, MarkReq(m)).Ok?
    ensures var before, after := db.agg, Step(db, MarkReq(m)).agg;
            && |after.attempts| == |before.attempts| && after.active == before.active && after.winning == before.winning
            && forall i :: 0 <= i < |before.attempts| ==>
                 after.attempts[i] ==
                   if before.active == Some(i)
                   then before.attempts[i].(submission := m.status, submissionError := ErrorIn(m),
                                            conflictType := after.exec.conflictType, conflictDetails := after.exec.conflictDetails,
                                            disposition := if m.status.NodeRejected? then Refused else Active)
                   else before.attempts[i]
  {
  }

  // ---- Attaching a transaction -------------------------------------------------------------------------------------

  predicate Given<T(==)>(list: Option<seq<T>>) {
    list.Some? && list.value != []
  }

  /** Two views of one list of inputs do not contradict each other. */
  predicate Agree<T(==)>(a: Option<seq<T>>, b: seq<T>) {
    Given(a) && b != [] ==> a.value == b
  }

  predicate IsSame(agg: Aggregate, r: AttachRequest) {
    agg.exec.txHash == Some(r.txHash)
  }

  predicate Replacing(agg: Aggregate, r: AttachRequest) {
    agg.exec.txHash.Some? && agg.exec.txHash.value != r.txHash
  }

  predicate InputsConsistent(agg: Aggregate, r: AttachRequest) {
    && (Given(r.inputs) && Given(r.refs) ==>
          && |r.refs.value| == |r.inputs.value|
          && forall i :: 0 <= i < |r.refs.value| ==> r.refs.value[i].outPoint == r.inputs.value[i])
    && (IsSame(agg, r) ==> Agree(r.inputs, agg.exec.inputs) && Agree(r.refs, agg.exec.refs))
  }

  /** The submission of the current transaction may take this status; another transaction starts anew. */
  predicate SubmissionFits(agg: Aggregate, r: AttachRequest) {
    Replacing(agg, r) || Advances(agg.exec.snapshot, r.submission)
  }

  predicate MayStillCommit(s: Snapshot) {
    s.submission in {Broadcasting, SubmissionUnknown, Submitted} || s.chain in {Pending, Proposed}
  }

  /** The inputs that the attempt will have: those given, else for the current transaction those it has. */
  function InputsOf(agg: Aggregate, r: AttachRequest): seq<OutPoint> {
    if Given(r.inputs) then r.inputs.value else if IsSame(agg, r) then agg.exec.inputs else []
  }

  function RefsOf(agg: Aggregate, r: AttachRequest): seq<InputRef> {
    if Given(r.refs) then r.refs.value
    else if InputsOf(agg, r) != [] then NeutralRefs(InputsOf(agg, r))
    else if IsSame(agg, r) then agg.exec.refs
    else []
  }

  /** The same output of the same transaction, whatever the case of its hash. */
  predicate SpendsSame(a: OutPoint, b: OutPoint) {
    a.index == b.index && ToLower(a.txHash) == ToLower(b.txHash)
  }

  /** An RBF replacement names no other parent than the active attempt, and spends one of its inputs. */
  predicate ReplacesActive(agg: Aggregate, r: AttachRequest) {
    && agg.active.Some? && agg.active.value < |agg.attempts|
    && (r.parent.Some? ==> r.parent == agg.active)
    && exists i, j :: 0 <= i < |InputsOf(agg, r)| && 0 <= j < |agg.attempts[agg.active.value].inputs|
                      && SpendsSame(InputsOf(agg, r)[i], agg.attempts[agg.active.value].inputs[j])
  }

  /** Another transaction only takes over from one that has not committed, and from a live one only as its RBF replacement. */
  predicate TakeoverIsSafe(agg: Aggregate, r: AttachRequest) {
    Replacing(agg, r) ==>
      && r.kind != Some(Initial)
      && !agg.exec.snapshot.chain.Committed? && !agg.exec.snapshot.workflow.Confirmed?
      && (MayStillCommit(agg.exec.snapshot) ==> r.kind == Some(RbfReplacement))
      && (r.kind == Some(RbfReplacement) ==> ReplacesActive(agg, r))
  }

  predicate IsKnown(agg: Aggregate, r: AttachRequest) {
    exists i :: 0 <= i < |agg.attempts| && agg.attempts[i].txHash == r.txHash
  }

  /** A hash that the intent knows comes with the inputs and the payload recorded for it. */
  predicate FitsRecord(agg: Aggregate, r: AttachRequest, row: Attempt) {
    && (InputsOf(agg, r) != [] ==> row.inputs == InputsOf(agg, r))
    && (RefsOf(agg, r) != [] ==> row.refs == RefsOf(agg, r))
    && (r.payloadHash.Some? && row.payloadHash.Some? && !r.allowRevision ==>
          ToLower(row.payloadHash.value) == ToLower(r.payloadHash.value))
  }

  /** A new hash belongs to no other intent, and its parent is an attempt of this one. */
  predicate FitsTable(agg: Aggregate, r: AttachRequest) {
    && r.txHash !in r.foreignHashes
    && (r.parent.Some? ==> r.parent.value < |agg.attempts|)
  }

  predicate FitsHistory(agg: Aggregate, r: AttachRequest) {
    if IsKnown(agg, r)
    then forall i :: 0 <= i < |agg.attempts| && agg.attempts[i].txHash == r.txHash ==> FitsRecord(agg, r, agg.attempts[i])
    else FitsTable(agg, r)
  }

  lemma AttachComputes(agg: Aggregate, r: AttachRequest)
    ensures ComputeAttach(agg, r).Ok? <==> InputsConsistent(agg, r) && SubmissionFits(agg, r)
    ensures ComputeAttach(agg, r).Ok? ==>
              var input := ComputeAttach(agg, r).value;
              && PersistedInputs(agg, input) == InputsOf(agg, r) && PersistedRefs(agg, input) == RefsOf(agg, r)
              && (input.kind == Some(RbfReplacement) <==> r.kind == Some(RbfReplacement))
              && input.parent == r.parent && input.foreignHashes == r.foreignHashes && input.txHash == r.txHash
  {
    AdvancesExactlyWhen(agg.exec.snapshot, r.submission);
    AdvancesExactlyWhen(InitialSnapshot(agg.exec.snapshot.policy), r.submission);
  }

  lemma SharesExactlyWhen(a: seq<OutPoint>, b: seq<OutPoint>)
    ensures SharesInput(a, b) <==> exists i, j :: 0 <= i < |a| && 0 <= j < |b| && SpendsSame(a[i], b[j])
  {
    if i, j :| 0 <= i < |a| && 0 <= j < |b| && SpendsSame(a[i], b[j]) {
      assert SameOutPoint(a[i], b[j]);
    }
    if i, j :| 0 <= i < |a| && 0 <= j < |b| && SameOutPoint(a[i], b[j]) {
      assert SpendsSame(a[i], b[j]);
    }
  }

  lemma GuardExactlyWhen(agg: Aggregate, r: AttachRequest)
    requires ComputeAttach(agg, r).Ok?
    ensures AttachGuard(agg, ComputeAttach(agg, r).value).None? <==> TakeoverIsSafe(agg, r)
  {
    AttachComputes(agg, r);
    if ActiveAttempt(agg).Some? {
      SharesExactlyWhen(InputsOf(agg, r), ActiveAttempt(agg).value.inputs);
    }
  }

  lemma ConflictExactlyWhen(db: Db, r: AttachRequest)
    requires Linked(db.agg) && ComputeAttach(db.agg, r).Ok?
    ensures AttachConflict(db, db.agg, ComputeAttach(db.agg, r).value).None? <==> FitsHistory(db.agg, r)
  {
    AttachComputes(db.agg, r);
    var input := ComputeAttach(db.agg, r).value;
    var existing := FindAttempt(db.agg.attempts, r.txHash);
    if existing.Some? {
      assert db.agg.attempts[existing.value].txHash == r.txHash;
    }
  }

  /** An attach is accepted if and only if its inputs agree, its submission fits, the takeover is safe and it fits the history. */
  lemma AttachAcceptedExactlyWhen(db: Db, r: AttachRequest)
    requires Linked(db.agg)
    ensures Write(db, db.agg, AttachReq(r)).Ok? <==>
              InputsConsistent(db.agg, r) && SubmissionFits(db.agg, r) && TakeoverIsSafe(db.agg, r) && FitsHistory(db.agg, r)
  {
    AttachComputes(db.agg, r);
    if ComputeAttach(db.agg, r).Ok? {
      GuardExactlyWhen(db.agg, r);
      ConflictExactlyWhen(db, r);
    }
  }

  /** The error is that of the first check that fails. */
  lemma AttachErrorExactlyWhen(db: Db, r: AttachRequest)
    requires Linked(db.agg) && Write(db, db.agg, AttachReq(r)).Err?
    ensures var agg, error := db.agg, Write(db, db.agg, AttachReq(r)).error;
            && (!InputsConsistent(agg, r) ==> error in {InvalidSignedTransaction, IntentConflict})
            && (InputsConsistent(agg, r) && !SubmissionFits(agg, r) ==> error == InvalidTransition)
            && (InputsConsistent(agg, r) && SubmissionFits(agg, r) && !TakeoverIsSafe(agg, r) ==>
                  error == if r.kind == Some(Initial) then AttemptKindInvalid
                           else if agg.exec.snapshot.chain.Committed? || agg.exec.snapshot.workflow.Confirmed?
                                   || r.kind != Some(RbfReplacement) then UnsafeAttemptReplacement
                           else if r.parent.Some? && r.parent != agg.active then AttemptParentConflict
                           else RbfInputsDoNotOverlap)
            && (InputsConsistent(agg, r) && SubmissionFits(agg, r) && TakeoverIsSafe(agg, r) && !IsKnown(agg, r) ==>
                  error == if r.txHash in r.foreignHashes then TxHashConflict else AttemptParentConflict)
            && (InputsConsistent(agg, r) && SubmissionFits(agg, r) && TakeoverIsSafe(agg, r) && IsKnown(agg, r) ==>
                  error in {AttemptInputConflict, AttemptPayloadConflict})
  {
    AttachComputes(db.agg, r);
    if ComputeAttach(db.agg, r).Ok? {
      GuardExactlyWhen(db.agg, r);
      ConflictExactlyWhen(db, r);
    }
  }

  /** What an accepted attach records on the execution: another transaction starts with nothing found, the same keeps all. */
  lemma AttachRecords(db: Db, r: AttachRequest)
    requires Write(db, db.agg, AttachReq(r)).Ok?
    ensures var before, after := db.agg.exec, Step(db, AttachReq(r)).agg.exec;
            && after.txHash == Some(r.txHash)
            && after.inputs == InputsOf(db.agg, r) && after.refs == RefsOf(db.agg, r)
            && after.nextReconcileAt == (if r.submission.Submitted? then Some(r.now) else None)
            && after.version == before.version + 1
            && (if IsSame(db.agg, r) then
                  after == before.(inputs := after.inputs, refs := after.refs, nextReconcileAt := after.nextReconcileAt,
                                   snapshot := before.snapshot.(submission := r.submission), version := after.version)
                else
                  && after.snapshot == Snapshot(r.submission, Unobserved, Idle, before.snapshot.policy, 0, None, None, None)
                  && after.submissionError.None? && after.conflictType.None? && after.conflictDetails.None?
                  && after.assertion.None? && after.settlementReadyAt.None? && after.reconcileAttempts == 0)
  {
    AttachComputes(db.agg, r);
  }

  /** What it records in the history: a new hash gets a new running attempt, a known one its submission, and it is active. */
  lemma AttachRecordsAttempt(db: Db, r: AttachRequest)
    requires Linked(db.agg) && Write(db, db.agg, AttachReq(r)).Ok?
    ensures var before, after := db.agg, Step(db, AttachReq(r)).agg;
            && after.active.Some? && after.active.value < |after.attempts|
            && after.winning == (if IsSame(before, r) then before.winning else None)
            && var row := after.attempts[after.active.value];
               && row.txHash == r.txHash && row.submission == r.submission
               && row.inputs == InputsOf(before, r) && row.refs == RefsOf(before, r)
               && (if IsKnown(before, r) then
                     && |after.attempts| == |before.attempts| && before.attempts[after.active.value].txHash == r.txHash
                     && row == before.attempts[after.active.value].(
                          submission := row.submission, payloadHash := row.payloadHash, inputs := row.inputs, refs := row.refs)
                     && (r.payloadHash.Some? ==> row.payloadHash == Some(ToLower(r.payloadHash.value)))
                     && (r.payloadHash.None? ==> row.payloadHash == before.attempts[after.active.value].payloadHash)
                   else
                     && after.active.value == |before.attempts| == |after.attempts| - 1
                     && row.parent == OrElse(r.parent, before.active)
                     && row.kind == (if r.kind.Some? then r.kind.value else if before.exec.txHash.Some? then Rebuild else Initial)
                     && row.disposition.Active? && row.chain.Unobserved? && row.workflow.Idle?
                     && row.conflictType.None? && row.conflictDetails.None? && row.submissionError.None?)
  {
    AttachComputes(db.agg, r);
  }

  /** Of the other attempts only the one that was active changes, and only when a new hash takes over that does not replace it. */
  lemma AttachRetires(db: Db, r: AttachRequest, i: AttemptId)
    requires Linked(db.agg) && Write(db, db.agg, AttachReq(r)).Ok?
    requires i < |db.agg.attempts| && Step(db, AttachReq(r)).agg.active != Some(i)
    ensures var before, row := db.agg.exec, db.agg.attempts[i];
            Step(db, AttachReq(r)).agg.attempts[i] ==
              if IsKnown(db.agg, r) || db.agg.active != Some(i) || r.kind == Some(RbfReplacement) then row
              else row.(disposition := if before.snapshot.workflow.Conflicted? then Clashed
                                       else if before.snapshot.chain.Rejected? || before.snapshot.submission.NodeRejected? then Refused
                                       else Superseded)
  {
    AttachComputes(db.agg, r);
    GuardExactlyWhen(db.agg, r);
  }
}
