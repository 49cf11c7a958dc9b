/**
 * The rows of one intent and what each database transaction does to them (packages/db/src/repository.ts).
 * An attempt's id is its position in the attempt table: ids are only ever compared.
 */
module Store {
  import opened Prelude
  import opened Types
  import opened StateMachine

  type AttemptId = nat

  datatype Attempt = Attempt(
    number: nat,
    txHash: string,
    payloadHash: Option<string>,
    parent: Option<AttemptId>,
    kind: AttemptKind,
    disposition: Disposition,
    inputs: seq<OutPoint>,
    refs: seq<InputRef>,
    submission: SubmissionStatus,
    chain: ChainStatus,
    workflow: WorkflowStatus,
    submissionError: Option<SubmissionError>,
    conflictType: Option<ConflictType>,
    conflictDetails: Option<Details>)

  datatype Execution = Execution(
    txHash: Option<string>,
    inputs: seq<OutPoint>,
    refs: seq<InputRef>,
    snapshot: Snapshot,
    submissionError: Option<SubmissionError>,
    conflictType: Option<ConflictType>,
    conflictDetails: Option<Details>,
    assertion: Option<AssertionStatus>,
    settlementReadyAt: Option<int>,
    nextReconcileAt: Option<int>,
    reconcileAttempts: nat,
    version: nat)

  /** What a caller reads before it computes a write. */
  datatype Aggregate = Aggregate(
    required: nat, exec: Execution, attempts: seq<Attempt>, active: Option<AttemptId>, winning: Option<AttemptId>)

  datatype Event = Event(
    kind: EventKind, fromStatus: Option<OverallStatus>, toStatus: OverallStatus, at: int, settlementReady: bool)

  datatype Db = Db(agg: Aggregate, events: seq<Event>)

  datatype Error =
    | Stale | TxHashConflict | AttemptInputConflict | AttemptPayloadConflict | AttemptParentConflict
    | AttemptKindInvalid | UnsafeAttemptReplacement | RbfInputsDoNotOverlap
    | IntentConflict | InvalidTxHash | InvalidSignedTransaction | InvalidTransition | NoEndpoint

  function Init(policy: Policy, required: nat): Db {
    var snapshot := InitialSnapshot(policy);
    Db(Aggregate(required,
                 Execution(None, [], [], snapshot, None, None, None, None, None, None, 0, 0),
                 [], None, None),
       [Event(IntentCreated, None, Overall(snapshot), 0, SettlementIsReady(snapshot, None, required, None))])
  }

  /** The stored execution counts as settled: what the public view and the outbox report. */
  predicate Ready(agg: Aggregate) {
    SettlementIsReady(agg.exec.snapshot, agg.exec.assertion, agg.required, agg.exec.conflictType)
  }

  function PriorDisposition(exec: Execution): Disposition {
    if exec.snapshot.workflow.Confirmed? then Won
    else if exec.snapshot.workflow.Conflicted? then Clashed
    else if exec.snapshot.chain.Rejected? || exec.snapshot.submission.NodeRejected? then Refused
    else Superseded
  }

  function DispositionFor(s: Snapshot): Disposition {
    if s.workflow.Confirmed? then Won
    else if s.workflow.Conflicted? then Clashed
    else if s.chain.Rejected? || s.submission.NodeRejected? then Refused
    else Active
  }

  function NeutralRefs(inputs: seq<OutPoint>): seq<InputRef> {
    seq(|inputs|, i requires 0 <= i < |inputs| => InputRef(inputs[i], Other, None))
  }

  function FindAttempt(attempts: seq<Attempt>, txHash: string): (found: Option<AttemptId>)
    ensures found.Some? ==> found.value < |attempts| && attempts[found.value].txHash == txHash
    ensures found.None? ==> forall i :: 0 <= i < |attempts| ==> attempts[i].txHash != txHash
  {
    if attempts == [] then None
    else if attempts[|attempts| - 1].txHash == txHash then Some(|attempts| - 1)
    else FindAttempt(attempts[..|attempts| - 1], txHash)
  }

  function MaxNumber(attempts: seq<Attempt>): nat {
    if attempts == [] then 0
    else
      var before := MaxNumber(attempts[..|attempts| - 1]);
      if attempts[|attempts| - 1].number > before then attempts[|attempts| - 1].number else before
  }

  /** Every attempt but one leaves the running: an ACTIVE row becomes SUPERSEDED. */
  function SupersedeOthers(attempts: seq<Attempt>, winner: AttemptId): (after: seq<Attempt>)
    ensures |after| == |attempts|
    ensures forall i :: 0 <= i < |attempts| ==>
              after[i] == if i != winner && attempts[i].disposition.Active?
                          then attempts[i].(disposition := Superseded) else attempts[i]
  {
    seq(|attempts|, i requires 0 <= i < |attempts| =>
      if i != winner && attempts[i].disposition.Active? then attempts[i].(disposition := Superseded) else attempts[i])
  }

  function UpdateRow(attempts: seq<Attempt>, id: Option<AttemptId>, f: Attempt -> Attempt): (after: seq<Attempt>)
    ensures |after| == |attempts|
    ensures forall i :: 0 <= i < |attempts| ==>
              after[i] == if id == Some(i) then f(attempts[i]) else attempts[i]
  {
    if id.Some? && id.value < |attempts| then attempts[id.value := f(attempts[id.value])] else attempts
  }

  // ---- Attaching a transaction -------------------------------------------------------------------------------------

  datatype AttachInput = AttachInput(
    txHash: string,
    payloadHash: Option<string>,
    allowRevision: bool,
    submission: SubmissionStatus,
    inputs: Option<seq<OutPoint>>,
    refs: Option<seq<InputRef>>,
    kind: Option<AttemptKind>,
    parent: Option<AttemptId>,
    nextReconcileAt: Option<int>,
    fromStatus: OverallStatus,
    toStatus: OverallStatus,
    at: int,
    foreignHashes: set<string>)

  predicate Creating(read: Aggregate, input: AttachInput) {
    read.exec.txHash != Some(input.txHash)
  }

  function KindOf(read: Aggregate, input: AttachInput): AttemptKind {
    if input.kind.Some? then input.kind.value else if read.exec.txHash.Some? then Rebuild else Initial
  }

  function PersistedInputs(read: Aggregate, input: AttachInput): seq<OutPoint> {
    if input.inputs.Some? && input.inputs.value != [] then input.inputs.value
    else if !Creating(read, input) then read.exec.inputs
    else []
  }

  function PersistedRefs(read: Aggregate, input: AttachInput): seq<InputRef> {
    if input.refs.Some? && input.refs.value != [] then input.refs.value
    else if PersistedInputs(read, input) != [] then NeutralRefs(PersistedInputs(read, input))
    else if !Creating(read, input) then read.exec.refs
    else []
  }

  /** The transaction of the current attempt may still reach the chain. */
  predicate PotentiallyLive(submission: SubmissionStatus, chain: ChainStatus) {
    submission.Broadcasting? || submission.SubmissionUnknown? || submission.Submitted? || chain.Pending? || chain.Proposed?
  }

  predicate SameOutPoint(a: OutPoint, b: OutPoint) {
    ToLower(a.txHash) == ToLower(b.txHash) && a.index == b.index
  }

  predicate SharesInput(a: seq<OutPoint>, b: seq<OutPoint>) {
    exists i, j :: 0 <= i < |a| && 0 <= j < |b| && SameOutPoint(a[i], b[j])
  }

  function ActiveAttempt(agg: Aggregate): Option<Attempt> {
    if agg.active.Some? && agg.active.value < |agg.attempts| then Some(agg.attempts[agg.active.value]) else None
  }

  /** The guard on replacing the current transaction by another one. */
  function AttachGuard(read: Aggregate, input: AttachInput): Option<Error> {
    var kind := KindOf(read, input);
    if !Creating(read, input) || read.exec.txHash.None? then None
    else if kind.Initial? then Some(AttemptKindInvalid)
    else if read.exec.snapshot.chain.Committed? || read.exec.snapshot.workflow.Confirmed? then Some(UnsafeAttemptReplacement)
    else if PotentiallyLive(read.exec.snapshot.submission, read.exec.snapshot.chain) && !kind.RbfReplacement?
    then Some(UnsafeAttemptReplacement)
    else if kind.RbfReplacement? then
      var parent := ActiveAttempt(read);
      if parent.None? then Some(AttemptParentConflict)
      else if input.parent.Some? && input.parent != read.active then Some(AttemptParentConflict)
      else if !SharesInput(PersistedInputs(read, input), parent.value.inputs) then Some(RbfInputsDoNotOverlap)
      else None
    else None
  }

  function ParentOf(read: Aggregate, input: AttachInput): Option<AttemptId> {
    OrElse(input.parent, read.active)
  }

  /** The checks made against the attempt table, before the version check. */
  function AttachConflict(db: Db, read: Aggregate, input: AttachInput): Option<Error> {
    var attempts := db.agg.attempts;
    var existing := FindAttempt(attempts, input.txHash);
    if existing.None? then
      if input.txHash in input.foreignHashes then Some(TxHashConflict)
      else if ParentOf(read, input).Some? && ParentOf(read, input).value >= |attempts| then Some(AttemptParentConflict)
      else None
    else
      var row := attempts[existing.value];
      if PersistedInputs(read, input) != [] && row.inputs != PersistedInputs(read, input) then Some(AttemptInputConflict)
      else if PersistedRefs(read, input) != [] && row.refs != PersistedRefs(read, input) then Some(AttemptInputConflict)
      else if input.payloadHash.Some? && row.payloadHash.Some?
              && ToLower(row.payloadHash.value) != ToLower(input.payloadHash.value) && !input.allowRevision
      then Some(AttemptPayloadConflict)
      else None
  }

  function NewAttempt(db: Db, read: Aggregate, input: AttachInput): Attempt {
    Attempt(MaxNumber(db.agg.attempts) + 1, input.txHash, input.payloadHash, ParentOf(read, input), KindOf(read, input), Active,
            PersistedInputs(read, input), PersistedRefs(read, input), input.submission, Unobserved, Idle, None, None, None)
  }

  function AttemptsAfterAttach(db: Db, read: Aggregate, input: AttachInput): seq<Attempt> {
    var existing := FindAttempt(db.agg.attempts, input.txHash);
    if existing.Some? then
      UpdateRow(db.agg.attempts, existing, (row: Attempt) =>
        row.(submission := input.submission, payloadHash := OrElse(input.payloadHash, row.payloadHash),
             inputs := PersistedInputs(read, input), refs := PersistedRefs(read, input)))
    else
      var prior := if KindOf(read, input).RbfReplacement? then None else read.active;
      UpdateRow(db.agg.attempts, prior, (row: Attempt) => row.(disposition := PriorDisposition(read.exec)))
      + [NewAttempt(db, read, input)]
  }

  function ExecutionAfterAttach(db: Db, read: Aggregate, input: AttachInput): Execution {
    var row := db.agg.exec.(txHash := Some(input.txHash), inputs := PersistedInputs(read, input),
                            refs := PersistedRefs(read, input), nextReconcileAt := input.nextReconcileAt,
                            version := db.agg.exec.version + 1);
    if Creating(read, input) then
      row.(snapshot := InitialSnapshot(db.agg.exec.snapshot.policy).(submission := input.submission),
           submissionError := None, conflictType := None, conflictDetails := None, assertion := None,
           settlementReadyAt := None, reconcileAttempts := 0)
    else row.(snapshot := row.snapshot.(submission := input.submission))
  }

  function AttachTransaction(db: Db, read: Aggregate, input: AttachInput): Result<Db, Error> {
    var guard := AttachGuard(read, input);
    var conflict := AttachConflict(db, read, input);
    if guard.Some? then Err(guard.value)
    else if conflict.Some? then Err(conflict.value)
    else if db.agg.exec.version != read.exec.version then Err(Stale)
    else
      var existing := FindAttempt(db.agg.attempts, input.txHash);
      var exec := ExecutionAfterAttach(db, read, input);
      var event := Event(if Creating(read, input) && read.exec.txHash.Some? then TransactionAttemptCreated else SubmissionUpdated,
                         Some(input.fromStatus), input.toStatus, input.at,
                         SettlementIsReady(exec.snapshot, exec.assertion, read.required, None));
      Ok(Db(db.agg.(exec := exec,
                    attempts := AttemptsAfterAttach(db, read, input),
                    active := Some(if existing.Some? then existing.value else |db.agg.attempts|),
                    winning := if Creating(read, input) then None else read.winning),
            db.events + [event]))
  }

  // ---- Marking the submission --------------------------------------------------------------------------------------

  datatype MarkInput = MarkInput(
    status: SubmissionStatus,
    schedule: Option<int>,
    submissionError: Option<SubmissionError>,
    conflictType: Option<ConflictType>,
    conflictDetails: Option<Details>,
    fromStatus: OverallStatus,
    toStatus: OverallStatus,
    at: int)

  function MarkSubmission(db: Db, read: Aggregate, input: MarkInput): Result<Db, Error> {
    if db.agg.exec.version != read.exec.version then Err(Stale)
    else
      var conflict := OrElse(input.conflictType, read.exec.conflictType);
      var exec := db.agg.exec.(
        snapshot := db.agg.exec.snapshot.(submission := input.status),
        submissionError := input.submissionError, conflictType := conflict, conflictDetails := input.conflictDetails,
        nextReconcileAt := if input.schedule.Some? then input.schedule else read.exec.nextReconcileAt,
        version := db.agg.exec.version + 1);
      var attempts := UpdateRow(db.agg.attempts, read.active, (row: Attempt) =>
        row.(submission := input.status, submissionError := input.submissionError,
             conflictType := conflict, conflictDetails := input.conflictDetails,
             disposition := if input.status.NodeRejected? then Refused else Active));
      var event := Event(SubmissionUpdated, Some(input.fromStatus), input.toStatus, input.at,
                         SettlementIsReady(exec.snapshot, exec.assertion, read.required, None));
      Ok(Db(db.agg.(exec := exec, attempts := attempts), db.events + [event]))
  }

  // ---- Applying a reconciled snapshot ------------------------------------------------------------------------------

  datatype SnapshotInput = SnapshotInput(
    snapshot: Snapshot,
    kind: EventKind,
    fromStatus: OverallStatus,
    toStatus: OverallStatus,
    at: int,
    nextReconcileAt: Option<int>,
    assertion: Option<AssertionStatus>,
    conflictType: Option<ConflictType>,
    conflictDetails: Option<Details>)

  predicate PriorReady(read: Aggregate) {
    read.exec.settlementReadyAt.Some? && Ready(read)
  }

  predicate Meaningful(prior: Execution, input: SnapshotInput) {
    || prior.snapshot.submission != input.snapshot.submission
    || prior.snapshot.chain != input.snapshot.chain
    || prior.snapshot.workflow != input.snapshot.workflow
    || prior.snapshot.blockHash != input.snapshot.blockHash
    || prior.snapshot.blockNumber != input.snapshot.blockNumber
    || prior.snapshot.rejectionReason != input.snapshot.rejectionReason
    || prior.assertion != input.assertion
    || prior.conflictType != input.conflictType
    || prior.conflictDetails != input.conflictDetails
  }

  function SettlementEvents(before: bool, after: bool, fromStatus: OverallStatus, toStatus: OverallStatus, at: int): seq<Event> {
    if before == after then []
    else [Event(if after then SettlementReady else SettlementRevoked, Some(fromStatus), toStatus, at, after)]
  }

  /** The active row shows the snapshot; a confirmation takes every other attempt out of the running. */
  function AttemptsAfterSnapshot(attempts: seq<Attempt>, active: Option<AttemptId>, input: SnapshotInput): seq<Attempt> {
    var disposition := DispositionFor(input.snapshot);
    var written := UpdateRow(attempts, active, (row: Attempt) =>
      row.(submission := input.snapshot.submission, chain := input.snapshot.chain, workflow := input.snapshot.workflow,
           disposition := disposition, conflictType := input.conflictType, conflictDetails := input.conflictDetails));
    if disposition.Won? && active.Some? then SupersedeOthers(written, active.value) else written
  }

  function ApplySnapshot(db: Db, read: Aggregate, input: SnapshotInput): Result<Db, Error> {
    if db.agg.exec.version != read.exec.version then Err(Stale)
    else
      var before := PriorReady(read);
      var after := SettlementIsReady(input.snapshot, input.assertion, read.required, input.conflictType);
      var exec := db.agg.exec.(
        snapshot := input.snapshot.(policy := db.agg.exec.snapshot.policy), assertion := input.assertion,
        settlementReadyAt := if !after then None else if before then read.exec.settlementReadyAt else Some(input.at),
        conflictType := input.conflictType, conflictDetails := input.conflictDetails,
        nextReconcileAt := input.nextReconcileAt,
        reconcileAttempts := db.agg.exec.reconcileAttempts + 1,
        version := db.agg.exec.version + 1);
      var attempts := AttemptsAfterSnapshot(db.agg.attempts, read.active, input);
      var winning := if DispositionFor(input.snapshot).Won? then read.active else read.winning;
      var events :=
        if !Meaningful(read.exec, input) && before == after then []
        else [Event(input.kind, Some(input.fromStatus), input.toStatus, input.at, after)]
             + SettlementEvents(before, after, input.fromStatus, input.toStatus, input.at);
      Ok(Db(db.agg.(exec := exec, attempts := attempts, winning := winning), db.events + events))
  }

  // ---- Competing candidates ----------------------------------------------------------------------------------------

  /** The unversioned write of a candidate scan. */
  function UpdateCandidate(
    db: Db, id: AttemptId, snapshot: Snapshot, conflictType: Option<ConflictType>, details: Option<Details>): Db
  {
    db.(agg := db.agg.(attempts := UpdateRow(db.agg.attempts, Some(id), (row: Attempt) =>
      row.(submission := snapshot.submission, chain := snapshot.chain, workflow := snapshot.workflow,
           disposition := DispositionFor(snapshot), conflictType := conflictType, conflictDetails := details))))
  }

  datatype PromoteInput = PromoteInput(id: AttemptId, snapshot: Snapshot, kind: EventKind, at: int, nextReconcileAt: Option<int>)

  function Promote(db: Db, read: Aggregate, input: PromoteInput): Result<Db, Error> {
    if input.id >= |read.attempts| then Err(AttemptParentConflict)
    else if db.agg.exec.version != read.exec.version then Err(Stale)
    else
      var attempt := read.attempts[input.id];
      var before := PriorReady(read);
      var after := SettlementIsReady(input.snapshot, None, read.required, attempt.conflictType);
      var fromStatus, toStatus := Overall(read.exec.snapshot), Overall(input.snapshot);
      var exec := db.agg.exec.(
        txHash := Some(attempt.txHash), inputs := attempt.inputs, refs := attempt.refs,
        snapshot := input.snapshot.(policy := db.agg.exec.snapshot.policy), submissionError := attempt.submissionError,
        conflictType := attempt.conflictType, conflictDetails := attempt.conflictDetails,
        assertion := None, settlementReadyAt := if after then Some(input.at) else None,
        nextReconcileAt := input.nextReconcileAt, reconcileAttempts := 0, version := db.agg.exec.version + 1);
      var disposition := DispositionFor(input.snapshot);
      var written := UpdateRow(db.agg.attempts, Some(input.id), (row: Attempt) =>
        row.(submission := input.snapshot.submission, chain := input.snapshot.chain, workflow := input.snapshot.workflow,
             disposition := disposition));
      var attempts := if disposition.Won? then SupersedeOthers(written, input.id) else written;
      var event := Event(input.kind, Some(fromStatus), toStatus, input.at,
                         SettlementIsReady(input.snapshot, None, read.required, None));
      Ok(Db(db.agg.(exec := exec, attempts := attempts, active := Some(input.id),
                    winning := if disposition.Won? then Some(input.id) else read.winning),
            db.events + [event] + SettlementEvents(before, after, fromStatus, toStatus, input.at)))
  }
}
