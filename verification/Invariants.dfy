/** What every request keeps, whatever the nodes answer and whichever hash is attached. */
module Invariants {
  import opened Prelude
  import opened Types
  import opened StateMachine
  import opened ConflictEvidence
  import opened Rpc
  import opened Store
  import opened Service
  import opened Reconcile
  import opened Machine

  /** The projection always belongs to the active attempt, and no hash is tracked twice. */
  predicate Linked(agg: Aggregate) {
    && (agg.active.None? <==> agg.attempts == [])
    && (agg.active.None? <==> agg.exec.txHash.None?)
    && (agg.active.Some? ==> agg.active.value < |agg.attempts|
                             && agg.exec.txHash == Some(agg.attempts[agg.active.value].txHash))
    && (forall i, j :: 0 <= i < j < |agg.attempts| ==> agg.attempts[i].txHash != agg.attempts[j].txHash)
  }

  /** A commit names its block, and a confirmation is a commit deep enough. */
  predicate SnapshotSound(s: Snapshot) {
    && (s.chain.Committed? ==> Present(s.blockHash) && Present(s.blockNumber))
    && (s.workflow.Confirmed? ==> ConfirmationSatisfied(s.policy, s.chain, s.confirmations))
  }

  predicate Sound(agg: Aggregate) {
    && SnapshotSound(agg.exec.snapshot)
    && (agg.exec.txHash.None? ==> agg.exec.snapshot.chain.Unobserved? && agg.exec.snapshot.workflow.Idle?)
    && (agg.exec.assertion.Some? ==> agg.exec.snapshot.chain.Committed?)
  }

  /** One confirmed attempt at most, and it is active; a winner is active and has no running competitor. */
  predicate OneWinner(agg: Aggregate) {
    && (forall i :: 0 <= i < |agg.attempts| && (agg.attempts[i].disposition.Won? || agg.attempts[i].workflow.Confirmed?)
                    ==> agg.active == Some(i) && agg.exec.snapshot.workflow.Confirmed?)
    && (agg.exec.snapshot.workflow.Confirmed? ==> agg.active.Some? && agg.winning == agg.active)
    && (agg.winning.Some? ==> agg.winning == agg.active)
    && (agg.winning.Some? ==> forall i :: 0 <= i < |agg.attempts| && agg.attempts[i].disposition.Active? ==> agg.winning == Some(i))
  }

  /** Evidence of a terminal spend: confirmed on the chain and corroborated. */
  predicate SpendProven(details: Option<Details>) {
    var d := AsRecord(details);
    d.classification == Some(SpentConfirmed) && d.canonicalSpendConfirmed && d.corroboration.Some? && d.corroboration.value.confirmed
  }

  predicate SpendIsFinal(agg: Aggregate) {
    && (agg.exec.conflictType == Some(InputSpent) ==>
          agg.exec.snapshot.workflow.Conflicted? && SpendProven(agg.exec.conflictDetails))
    && (forall i :: 0 <= i < |agg.attempts| && agg.attempts[i].disposition.Active?
                    ==> agg.attempts[i].conflictType != Some(InputSpent))
  }

  /** The grace flag says exactly that the observed contention has lasted for its grace period. */
  predicate GraceHonest(details: Option<Details>) {
    var d := AsRecord(details);
    d.classification == Some(MempoolContended) ==>
      && d.firstObservedAt.Some? && d.lastObservedAt.Some? && d.graceMs.Some?
      && (d.graceExpired <==> d.lastObservedAt.value - d.firstObservedAt.value >= d.graceMs.value)
  }

  predicate GracesHonest(agg: Aggregate) {
    GraceHonest(agg.exec.conflictDetails)
    && forall i :: 0 <= i < |agg.attempts| ==> GraceHonest(agg.attempts[i].conflictDetails)
  }

  predicate Inv(agg: Aggregate) {
    Linked(agg) && Sound(agg) && OneWinner(agg) && SpendIsFinal(agg) && GracesHonest(agg)
  }

  // ---- What a computed write promises ------------------------------------------------------------------------------

  predicate CommitNamed(o: Observation) {
    o.status.Committed? ==> Present(o.blockHash) && Present(o.blockNumber)
  }

  lemma AppliedSnapshotIsSound(s: Snapshot, o: Observation)
    requires CommitNamed(o)
    requires SnapshotSound(s) || o.status.Committed?
    ensures var applied := ApplyChainObservation(s, o);
            applied.Ok? ==>
              && SnapshotSound(applied.value.snapshot)
              && applied.value.snapshot.policy == s.policy
              && !applied.value.snapshot.workflow.Conflicted?
              && (applied.value.snapshot.workflow.Confirmed? ==> o.status.Committed? || s.workflow.Confirmed?)
              && (s.chain.Committed? && SnapshotSound(s) && !applied.value.snapshot.chain.Committed? ==> applied.value.reorgDetected)
  {
  }

  /** Evidence decides the workflow at most, and only to CONFLICTED. */
  lemma EvidenceKeepsSnapshot(read: Aggregate, poll: Poll, bundle: Bundle, applied: Applied)
    ensures var d := AfterEvidence(read, poll, bundle, applied);
            && d.snapshot == applied.snapshot.(submission := d.snapshot.submission, workflow := d.snapshot.workflow)
            && (d.snapshot.workflow == applied.snapshot.workflow || d.snapshot.workflow.Conflicted?)
            && d.assertion == read.exec.assertion
  {
    var draft := AfterObservation(read, bundle, applied);
    assert draft.snapshot == applied.snapshot.(submission := draft.snapshot.submission, workflow := draft.snapshot.workflow);
  }

  /** What a pass does to the snapshot and the verdict, whatever the evidence. */
  lemma PassKeepsSound(read: Aggregate, poll: Poll)
    requires Sound(read) && ReconcileOutcome(read, poll).Ok?
    ensures var s := ReconcileOutcome(read, poll).value;
            && SnapshotSound(s.snapshot) && s.snapshot.policy == read.exec.snapshot.policy
            && (s.assertion.Some? ==> s.snapshot.chain.Committed?)
  {
    if poll.result.PollAnswered? {
      var bundle := BundleFor(read, poll.result.endpoint, poll.result.answers);
      AppliedSnapshotIsSound(read.exec.snapshot, bundle.observation);
      var applied := ApplyChainObservation(read.exec.snapshot, bundle.observation).value;
      EvidenceKeepsSnapshot(read, poll, bundle, applied);
    } else {
      AppliedSnapshotIsSound(read.exec.snapshot, Observation(Unknown, poll.result.at, None, None, None, None, None));
    }
  }

  lemma StepKeepsSound(db: Db, request: Request)
    requires Sound(db.agg)
    ensures Sound(Step(db, request).agg)
  {
    match request
    case AttachReq(_) =>
    case MarkReq(_) =>
    case PollReq(p) =>
      if ReconcileOutcome(db.agg, p).Ok? {
        PassKeepsSound(db.agg, p);
      }
    case ScanReq(id, result, now) =>
      if db.agg.exec.txHash.Some? && IsCandidate(db.agg, id) {
        PromotionIsSound(db.agg, id, result, now);
      }
  }

  /** Facts about the write of a reconciliation pass that the row invariants need. */
  predicate OutcomeSound(read: Aggregate, s: SnapshotInput) {
    && !read.exec.snapshot.workflow.Conflicted?
    && SnapshotSound(s.snapshot)
    && s.snapshot.policy == read.exec.snapshot.policy
    && (s.assertion.Some? ==> s.snapshot.chain.Committed?)
    && (s.conflictType == Some(InputSpent) ==> s.snapshot.workflow.Conflicted? && SpendProven(s.conflictDetails))
    && GraceHonest(s.conflictDetails)
  }

  lemma EvidenceIsSound(read: Aggregate, poll: Poll, bundle: Bundle, applied: Applied)
    requires !read.exec.snapshot.workflow.Conflicted?
    requires read.exec.conflictType != Some(InputSpent)
    requires GraceHonest(read.exec.conflictDetails)
    requires SnapshotSound(applied.snapshot)
    ensures var d := AfterEvidence(read, poll, bundle, applied);
            && (d.conflictType == Some(InputSpent) ==> d.snapshot.workflow.Conflicted? && SpendProven(d.conflictDetails))
            && GraceHonest(d.conflictDetails)
            && SnapshotSound(d.snapshot)
            && d.assertion == read.exec.assertion
            && d.snapshot.chain == applied.snapshot.chain && d.snapshot.policy == applied.snapshot.policy
            && (d.snapshot.workflow == applied.snapshot.workflow || d.snapshot.workflow.Conflicted?)
  {
    var draft := AfterObservation(read, bundle, applied);
    assert SnapshotSound(draft.snapshot);
    if bundle.observation.status.Unknown? && bundle.inspection.Some? {
      var inspection := bundle.inspection.value;
      if inspection.state.CanonicallySpent? {
        var d := AfterSpentInspection(read, poll, inspection, draft);
        assert AsRecord(d.conflictDetails).classification != Some(MempoolContended);
      }
    }
  }

  lemma CellsAreSound(read: Aggregate, poll: Poll, bundle: Bundle, applied: Applied)
    requires Sound(read) && GraceHonest(read.exec.conflictDetails)
    requires !read.exec.snapshot.workflow.Conflicted? && read.exec.conflictType != Some(InputSpent)
    requires SnapshotSound(applied.snapshot)
    requires read.exec.assertion.Some? && !applied.snapshot.chain.Committed? ==> applied.reorgDetected
    ensures var d := AfterCells(read, poll, bundle, applied);
            && SnapshotSound(d.snapshot)
            && d.snapshot.policy == applied.snapshot.policy
            && (d.assertion.Some? ==> d.snapshot.chain.Committed?)
            && (d.conflictType == Some(InputSpent) ==> d.snapshot.workflow.Conflicted? && SpendProven(d.conflictDetails))
            && GraceHonest(d.conflictDetails)
  {
    EvidenceIsSound(read, poll, bundle, applied);
  }

  lemma AnsweredOutcomeIsSound(read: Aggregate, poll: Poll, endpoint: string, answers: Answers)
    requires Sound(read) && GraceHonest(read.exec.conflictDetails)
    requires read.exec.conflictType == Some(InputSpent) ==> read.exec.snapshot.workflow.Conflicted?
    ensures var s := AnsweredOutcome(read, poll, endpoint, answers); s.Ok? ==> OutcomeSound(read, s.value)
  {
    var bundle := BundleFor(read, endpoint, answers);
    AppliedSnapshotIsSound(read.exec.snapshot, bundle.observation);
    var applied := ApplyChainObservation(read.exec.snapshot, bundle.observation);
    if applied.Ok? {
      CellsAreSound(read, poll, bundle, applied.value);
    }
  }

  lemma ReconcileOutcomeIsSound(read: Aggregate, poll: Poll)
    requires Sound(read) && GraceHonest(read.exec.conflictDetails)
    requires read.exec.conflictType == Some(InputSpent) ==> read.exec.snapshot.workflow.Conflicted?
    ensures var s := ReconcileOutcome(read, poll); s.Ok? ==> OutcomeSound(read, s.value)
  {
    match poll.result
    case PollFailed(at) =>
      AppliedSnapshotIsSound(read.exec.snapshot, Observation(Unknown, at, None, None, None, None, None));
    case PollAnswered(endpoint, answers) => AnsweredOutcomeIsSound(read, poll, endpoint, answers);
  }

  // ---- Step by step ------------------------------------------------------------------------------------------------

  lemma AttachKeepsLinks(db: Db, input: AttachInput)
    requires Inv(db.agg)
    ensures var after := AttachTransaction(db, db.agg, input); after.Ok? ==> Linked(after.value.agg)
  {
    if AttachTransaction(db, db.agg, input).Ok? {
      var existing := FindAttempt(db.agg.attempts, input.txHash);
      assert Creating(db.agg, input) || existing == db.agg.active;
    }
  }

  /** The guard: another hash is only attached while the current transaction is neither committed nor confirmed. */
  lemma AttachKeepsWinner(db: Db, input: AttachInput)
    requires Inv(db.agg)
    ensures var after := AttachTransaction(db, db.agg, input); after.Ok? ==> OneWinner(after.value.agg)
  {
    var result := AttachTransaction(db, db.agg, input);
    if result.Ok? {
      var after := result.value.agg;
      var existing := FindAttempt(db.agg.attempts, input.txHash);
      if Creating(db.agg, input) {
        assert !db.agg.exec.snapshot.workflow.Confirmed?;
        assert !PriorDisposition(db.agg.exec).Won?;
      } else {
        assert existing == db.agg.active;
      }
    }
  }

  lemma AttachKeepsEvidence(db: Db, input: AttachInput)
    requires Inv(db.agg)
    requires db.agg.exec.conflictType != Some(InputSpent) || Creating(db.agg, input)
    ensures var after := AttachTransaction(db, db.agg, input);
            after.Ok? ==> Sound(after.value.agg) && SpendIsFinal(after.value.agg) && GracesHonest(after.value.agg)
  {
    if AttachTransaction(db, db.agg, input).Ok? {
      AttachKeepsSpend(db, input);
      AttachKeepsGrace(db, input);
    }
  }

  lemma AttachKeepsSpend(db: Db, input: AttachInput)
    requires SpendIsFinal(db.agg) && AttachTransaction(db, db.agg, input).Ok?
    requires db.agg.exec.conflictType != Some(InputSpent) || Creating(db.agg, input)
    ensures SpendIsFinal(AttachTransaction(db, db.agg, input).value.agg)
  {
  }

  lemma AttachKeepsGrace(db: Db, input: AttachInput)
    requires GracesHonest(db.agg) && AttachTransaction(db, db.agg, input).Ok?
    ensures GracesHonest(AttachTransaction(db, db.agg, input).value.agg)
  {
  }

  lemma AttachKeeps(db: Db, r: AttachRequest)
    requires Inv(db.agg)
    ensures Inv(Step(db, AttachReq(r)).agg)
  {
    var input := ComputeAttach(db.agg, r);
    if input.Ok? {
      AttachKeepsLinks(db, input.value);
      AttachKeepsWinner(db, input.value);
      AttachKeepsEvidence(db, input.value);
    }
  }

  lemma MarkKeeps(db: Db, m: MarkRequest)
    requires Inv(db.agg)
    ensures Inv(Step(db, MarkReq(m)).agg)
  {
    var after := Step(db, MarkReq(m)).agg;
    if after != db.agg {
      assert forall i :: 0 <= i < |after.attempts| && db.agg.active != Some(i) ==> after.attempts[i] == db.agg.attempts[i];
    }
  }

  lemma PollKeeps(db: Db, p: Poll)
    requires Inv(db.agg)
    ensures Inv(Step(db, PollReq(p)).agg)
  {
    ReconcileOutcomeIsSound(db.agg, p);
  }

  /** The statuses a side update writes are those of a candidate that has not confirmed. */
  lemma SideUpdateDoesNotConfirm(read: Aggregate, id: AttemptId, result: PollResult, now: int)
    requires id < |read.attempts| && !read.attempts[id].workflow.Confirmed?
    ensures var outcome := ScanCandidate(read, id, result, now);
            outcome.SideUpdate? ==>
              && !outcome.snapshot.workflow.Confirmed?
              && outcome.conflictType != Some(InputSpent)
              && GraceHonest(outcome.details)
  {
  }

  lemma PromotionIsSound(read: Aggregate, id: AttemptId, result: PollResult, now: int)
    requires id < |read.attempts|
    ensures var outcome := ScanCandidate(read, id, result, now);
            outcome.Promotion? ==>
              && outcome.input.id == id
              && SnapshotSound(outcome.input.snapshot)
              && outcome.input.snapshot.policy == read.exec.snapshot.policy
              && outcome.input.snapshot.chain.Committed?
              && !outcome.input.snapshot.workflow.Conflicted?
  {
    if result.PollAnswered? {
      var candidate := read.attempts[id];
      var bundle := Observe(None, TargetsOf(candidate.refs, candidate.inputs), result.endpoint, result.answers);
      if bundle.observation.status.Committed? {
        AppliedSnapshotIsSound(CandidateBase(read, candidate), bundle.observation);
      }
    }
  }

  lemma SideUpdateKeeps(db: Db, id: AttemptId, s: Snapshot, conflictType: Option<ConflictType>, details: Option<Details>)
    requires Inv(db.agg) && IsCandidate(db.agg, id)
    requires !s.workflow.Confirmed? && conflictType != Some(InputSpent) && GraceHonest(details)
    ensures Inv(UpdateCandidate(db, id, s, conflictType, details).agg)
  {
    var after := UpdateCandidate(db, id, s, conflictType, details).agg;
    assert forall i :: 0 <= i < |after.attempts| ==> after.attempts[i].txHash == db.agg.attempts[i].txHash;
  }

  lemma PromotionKeeps(db: Db, input: PromoteInput)
    requires Inv(db.agg) && IsCandidate(db.agg, input.id)
    requires SnapshotSound(input.snapshot) && input.snapshot.chain.Committed? && !input.snapshot.workflow.Conflicted?
    requires input.snapshot.policy == db.agg.exec.snapshot.policy
    ensures Promote(db, db.agg, input).Ok? && Inv(Promote(db, db.agg, input).value.agg)
  {
    var after := Promote(db, db.agg, input).value.agg;
    assert db.agg.winning.None?;
    assert forall i :: 0 <= i < |after.attempts| ==> after.attempts[i].txHash == db.agg.attempts[i].txHash;
  }

  lemma ScanKeeps(db: Db, id: AttemptId, result: PollResult, now: int)
    requires Inv(db.agg)
    ensures Inv(Step(db, ScanReq(id, result, now)).agg)
  {
    if db.agg.exec.txHash.Some? && IsCandidate(db.agg, id) {
      assert !db.agg.attempts[id].workflow.Confirmed?;
      SideUpdateDoesNotConfirm(db.agg, id, result, now);
      PromotionIsSound(db.agg, id, result, now);
      match ScanCandidate(db.agg, id, result, now)
      case NoWrite =>
      case SideUpdate(s, conflictType, details) => SideUpdateKeeps(db, id, s, conflictType, details);
      case Promotion(input) => PromotionKeeps(db, input);
    }
  }

  lemma StepKeeps(db: Db, request: Request)
    requires Inv(db.agg)
    ensures Inv(Step(db, request).agg)
  {
    match request
    case AttachReq(r) => AttachKeeps(db, r);
    case MarkReq(m) => MarkKeeps(db, m);
    case PollReq(p) => PollKeeps(db, p);
    case ScanReq(id, result, now) => ScanKeeps(db, id, result, now);
  }

  lemma NewIntentIsSound(policy: Policy, required: nat)
    ensures Inv(Init(policy, required).agg)
  {
  }

  /** No request changes the confirmation policy or the number of required Cells. */
  lemma StepKeepsSettings(db: Db, request: Request)
    ensures Step(db, request).agg.required == db.agg.required
    ensures Step(db, request).agg.exec.snapshot.policy == db.agg.exec.snapshot.policy
  {
  }

  /** Every reachable state keeps the invariants, through reorgs, replacements, promotions and re-attachments. */
  lemma {:induction false} RunKeeps(policy: Policy, required: nat, requests: seq<Request>)
    ensures Inv(Run(Init(policy, required), requests).agg)
    ensures Run(Init(policy, required), requests).agg.required == required
    ensures Run(Init(policy, required), requests).agg.exec.snapshot.policy == policy
  {
    if requests == [] {
      NewIntentIsSound(policy, required);
    } else {
      var before := Run(Init(policy, required), requests[..|requests| - 1]);
      RunKeeps(policy, required, requests[..|requests| - 1]);
      StepKeeps(before, requests[|requests| - 1]);
      StepKeepsSettings(before, requests[|requests| - 1]);
    }
  }
}
