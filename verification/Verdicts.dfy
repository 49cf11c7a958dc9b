/**
 * What one answered pass records, decided from the stored row and the node's answers alone: the workflow, the conflict, the
 * verdict on the Cells, the event and the time of the next pass, each with its exact cause.
 */
module Verdicts {
  import opened Prelude
  import opened Types
  import opened StateMachine
  import opened Transitions
  import opened ConflictEvidence
  import opened Rpc
  import opened Store
  import opened Reconcile
  import opened Machine
  import EventLog
  import Hex

  // ---- Reading the answers -----------------------------------------------------------------------------------------

  predicate ShowsCommit(a: Answers) {
    Says(a, "committed") && ShowsBlock(a)
  }

  /** The node knows the transaction: pooled, proposed, or committed in a block it shows to be canonical. */
  predicate ShowsTransaction(a: Answers) {
    Says(a, "pending") || Says(a, "proposed") || ShowsCommit(a)
  }

  /** The transaction the node returns has another complete signed payload than the one that was attached. */
  predicate PayloadDiffers(read: Aggregate, a: Answers) {
    && ShowsTransaction(a) && a.tx.body.Some? && Present(a.tx.body.value.fingerprint)
    && read.active.Some? && read.active.value < |read.attempts|
    && Present(read.attempts[read.active.value].payloadHash)
    && a.tx.body.value.fingerprint != read.attempts[read.active.value].payloadHash
  }

  /** The node names another block canonical at the height of the recorded commit. */
  predicate BlockDisproved(read: Aggregate, a: Answers) {
    var s := read.exec.snapshot;
    && Present(s.blockHash) && Present(s.blockNumber)
    && Hex.NormalizeHash(a.priorCanonical).Some? && Hex.NormalizeHash(a.priorCanonical) != Hex.NormalizeHash(s.blockHash)
  }

  /** The node shows the transaction in another block than the recorded one. */
  predicate BlockMoved(read: Aggregate, a: Answers) {
    ShowsCommit(a) && Present(read.exec.snapshot.blockHash) && a.tx.blockHash != read.exec.snapshot.blockHash
  }

  predicate CommitStands(read: Aggregate, a: Answers) {
    read.exec.snapshot.chain.Committed? && !ShowsCommit(a) && !BlockDisproved(read, a)
  }

  /** The commit is as deep as the policy asks: shown so now, or shown so before and standing. */
  predicate DeepNow(read: Aggregate, a: Answers) {
    if ShowsCommit(a) then Meets(read.exec.snapshot.policy, a.headerNumber, a.tip)
    else CommitStands(read, a) && read.exec.snapshot.workflow.Confirmed?
  }

  /** The node says nothing about the transaction, and its inputs are known: they are inspected. */
  predicate InputsInspected(read: Aggregate, a: Answers) {
    SaysNothing(a) && Targets(read.exec) != []
  }

  predicate InputsGone(read: Aggregate, a: Answers) {
    InputsInspected(read, a) && exists i :: 0 <= i < |Targets(read.exec)| && IsGone(Targets(read.exec), a, i)
  }

  predicate InputsLive(read: Aggregate, a: Answers) {
    InputsInspected(read, a) && forall i :: 0 <= i < |Targets(read.exec)| ==> IsLive(a, i)
  }

  predicate InputsFree(read: Aggregate, a: Answers) {
    InputsInspected(read, a) && forall i :: 0 <= i < |Targets(read.exec)| ==> IsFree(a, i)
  }

  predicate TwoEndpoints(urls: seq<string>) {
    exists i, j :: 0 <= i < |urls| && 0 <= j < |urls| && urls[i] != urls[j]
  }

  /** The spend has matured at this tip, and a second endpoint reports it when two are configured. */
  predicate SpendIsProved(read: Aggregate, p: Poll, endpoint: string, a: Answers) {
    && InputsGone(read, a)
    && Matured(read.exec.snapshot.policy, read.exec.conflictDetails, SpentInspection(a.inspectedAt, a.inspectionTip))
    && (TwoEndpoints(p.urls) ==> SecondEndpointSpent(p.urls, endpoint, Targets(read.exec), p.others))
  }

  // ---- The verdict on the Cells ------------------------------------------------------------------------------------

  /** The Cell was not created, is not live as expected, or is reported from a block off the canonical chain. */
  predicate Refuted(c: CellCheck) {
    c.created ==>
      c.live.Some? && c.live.value.LiveCell? && (c.live.value.ok ==> c.live.value.block.ForeignBlock?)
  }

  /** The Cell was created, but the endpoint did not answer, or the block it reports could not be verified. */
  predicate Unanswered(c: CellCheck) {
    c.created && c.live.Some? && (c.live.value.LiveCell? ==> c.live.value.ok && c.live.value.block.UnverifiedBlock?)
  }

  /** Every Cell before this one holds. */
  predicate IsReached(checks: seq<CellCheck>, k: nat) {
    forall j :: 0 <= j < k ==> !Refuted(CheckAt(checks, j)) && !Unanswered(CheckAt(checks, j))
  }

  lemma CellCases(c: CellCheck)
    ensures CellHolds(c) <==> !Refuted(c) && !Unanswered(c)
    ensures CellFails(c) <==> Refuted(c)
    ensures !(Refuted(c) && Unanswered(c))
  {
    if c.live.Some? && c.live.value.LiveCell? {
      match c.live.value.block
      case NoBlock =>
      case CanonicalBlock =>
      case ForeignBlock =>
      case UnverifiedBlock =>
    }
  }

  lemma {:induction false} VerdictFrom(checks: seq<CellCheck>, required: nat, k: nat)
    requires k <= required && IsReached(checks, k)
    ensures EvaluateCells(checks, required, k).AssertionFailed? <==>
              exists i: nat :: i < required && IsReached(checks, i) && Refuted(CheckAt(checks, i))
    ensures EvaluateCells(checks, required, k).AssertionPending? <==>
              exists i: nat :: i < required && IsReached(checks, i) && Unanswered(CheckAt(checks, i))
    decreases required - k
  {
    if k < required {
      CellCases(CheckAt(checks, k));
      if CellHolds(CheckAt(checks, k)) {
        assert IsReached(checks, k + 1);
        VerdictFrom(checks, required, k + 1);
      }
    }
  }

  /** Some Cell is refuted before any that went unanswered. */
  predicate CellsRefuted(checks: seq<CellCheck>, required: nat) {
    exists i: nat :: i < required && IsReached(checks, i) && Refuted(CheckAt(checks, i))
  }

  /** FAILED and PENDING are decided by the first Cell that does not hold; without the transaction nothing is decided. */
  lemma VerdictExactlyWhen(body: Option<TxBody>, checks: seq<CellCheck>, required: nat)
    ensures Evaluate(body, checks, required).AssertionFailed? <==> body.Some? && CellsRefuted(checks, required)
    ensures Evaluate(body, checks, required).AssertionPending? <==>
              body.None? || exists i: nat :: i < required && IsReached(checks, i) && Unanswered(CheckAt(checks, i))
    ensures Evaluate(body, checks, required).AssertionVerified? <==> body.Some? && IsReached(checks, required)
  {
    VerdictFrom(checks, required, 0);
    VerifiedMeansAllHold(checks, required, 0);
    forall i: nat | i < required
      ensures CellHolds(CheckAt(checks, i)) <==> !Refuted(CheckAt(checks, i)) && !Unanswered(CheckAt(checks, i))
    {
      CellCases(CheckAt(checks, i));
    }
  }

  // ---- The pass, part by part --------------------------------------------------------------------------------------

  /** The parts of an answered pass. */
  function BundleOf(read: Aggregate, p: Poll): Bundle
    requires p.result.PollAnswered?
  {
    BundleFor(read, p.result.endpoint, p.result.answers)
  }

  /** A pass writes if and only if there is a transaction to ask for, someone to ask, and the intent has not ended. */
  lemma PassWritesExactlyWhen(read: Aggregate, p: Poll)
    ensures ReconcileOutcome(read, p).Ok? <==> read.exec.txHash.Some? && p.urls != [] && Open(read.exec.snapshot)
  {
  }

  predicate Writes(read: Aggregate, p: Poll) {
    p.result.PollAnswered? && ReconcileOutcome(read, p).Ok?
  }

  function AppliedOf(read: Aggregate, p: Poll): Applied
    requires Writes(read, p)
  {
    ApplyChainObservation(read.exec.snapshot, BundleOf(read, p).observation).value
  }

  lemma ObservationReads(read: Aggregate, p: Poll)
    requires Writes(read, p)
    ensures var a, o := p.result.answers, BundleOf(read, p).observation;
            && (o.status.Committed? <==> ShowsCommit(a)) && (Seen(o.status) <==> ShowsTransaction(a))
            && (Disproved(read.exec.snapshot, o) <==> BlockDisproved(read, a))
            && (Moved(read.exec.snapshot, o) <==> BlockMoved(read, a))
            && (Stands(read.exec.snapshot, o) <==> CommitStands(read, a))
            && (ShowsCommit(a) ==> o.blockHash == a.tx.blockHash && o.blockNumber == a.headerNumber && o.tip == a.tip
                                   && Present(o.blockHash) && Present(o.blockNumber))
            && (FingerprintDiffers(ExpectedPayload(read), BundleOf(read, p)) && ShowsTransaction(a) <==> PayloadDiffers(read, a))
            && o.at == a.at
  {
    ObservationCarries(PriorCommitOf(read.exec.snapshot), Targets(read.exec), p.result.endpoint, p.result.answers);
  }

  predicate SpendMatured(read: Aggregate, a: Answers) {
    Matured(read.exec.snapshot.policy, read.exec.conflictDetails, SpentInspection(a.inspectedAt, a.inspectionTip))
  }

  function InspectionOf(read: Aggregate, p: Poll): Inspection
    requires p.result.PollAnswered?
  {
    Inspect(Targets(read.exec), p.result.endpoint, p.result.answers)
  }

  /** Inputs that are gone: suspected at first, a proven spend once matured and corroborated, which ends the intent. */
  lemma GoneInputs(read: Aggregate, p: Poll, draft: Draft)
    requires p.result.PollAnswered? && InputsGone(read, p.result.answers)
    ensures var d, a := AfterInspection(read, p, InspectionOf(read, p), draft), p.result.answers;
            if SpendIsProved(read, p, p.result.endpoint, a) then
              d == draft.(snapshot := draft.snapshot.(workflow := Conflicted), kind := InputConflictConfirmed,
                          conflictType := Some(InputSpent), conflictDetails := d.conflictDetails)
            else
              d == draft.(kind := if SpendMatured(read, a) then InputConflictCorroborationPending else InputSpentObserved,
                          conflictType := Some(InputConflictSuspected), conflictDetails := d.conflictDetails)
  {
    var inspection := InspectionOf(read, p);
    InputStateExactlyWhen(Targets(read.exec), p.result.endpoint, p.result.answers);
    CorroborationMeansTwoEndpoints(p.urls, inspection, Targets(read.exec), p.others);
  }

  /** Inputs that are not gone: free ones clear the suspicion, taken ones raise it, unproven ones leave it to earlier evidence. */
  lemma OtherInputs(read: Aggregate, p: Poll, draft: Draft)
    requires p.result.PollAnswered? && InputsInspected(read, p.result.answers) && !InputsGone(read, p.result.answers)
    ensures var d, a := AfterInspection(read, p, InspectionOf(read, p), draft), p.result.answers;
            var expires := AsRecord(d.conflictDetails).graceExpired && !AsRecord(read.exec.conflictDetails).graceExpired;
            var hadSpent := draft.conflictDetails.Some? && draft.conflictDetails.value.classification == Some(SpentObserved);
            if InputsFree(read, a) then
              d == draft.(kind := InputStateInspected, conflictType := None, conflictDetails := None)
            else if InputsLive(read, a) then
              d == draft.(kind := if expires then InputContentionGraceExpired else InputPoolContentionDetected,
                          conflictType := Some(InputConflictSuspected), conflictDetails := d.conflictDetails)
            else
              d == draft.(kind := InputStateUncertain,
                          conflictType := if hadSpent then Some(InputConflictSuspected) else draft.conflictType,
                          conflictDetails := d.conflictDetails)
  {
    InputStateExactlyWhen(Targets(read.exec), p.result.endpoint, p.result.answers);
  }

  function EvidenceOf(read: Aggregate, p: Poll): Draft
    requires Writes(read, p)
  {
    AfterEvidence(read, p, BundleOf(read, p), AppliedOf(read, p))
  }

  function ObservedOf(read: Aggregate, p: Poll): Draft
    requires Writes(read, p)
  {
    AfterObservation(read, BundleOf(read, p), AppliedOf(read, p))
  }

  /** Only an absent transaction with known inputs is inspected. */
  lemma EvidenceCases(read: Aggregate, p: Poll)
    requires Writes(read, p)
    ensures EvidenceOf(read, p) == if InputsInspected(read, p.result.answers)
                                   then AfterInspection(read, p, InspectionOf(read, p), ObservedOf(read, p))
                                   else ObservedOf(read, p)
  {
  }

  /** What finding the transaction decides, before any input is inspected. */
  lemma ObservedCases(read: Aggregate, p: Poll)
    requires Writes(read, p)
    ensures var a, d, applied := p.result.answers, ObservedOf(read, p), AppliedOf(read, p);
            var lifted := read.exec.snapshot.submission.NodeRejected? && ShowsTransaction(a);
            var snapshot := applied.snapshot.(submission := if lifted then Submitted else read.exec.snapshot.submission);
            if PayloadDiffers(read, a) then
              d == Draft(snapshot.(workflow := Conflicted), PayloadMismatchFound, read.exec.assertion,
                         Some(SignedPayloadMismatch), d.conflictDetails)
            else if ShowsTransaction(a) then
              d == Draft(snapshot, if lifted then SubmissionRejectionSuperseded else applied.kind, read.exec.assertion, None, None)
            else
              d == Draft(snapshot, applied.kind, read.exec.assertion, read.exec.conflictType, read.exec.conflictDetails)
  {
    ObservationReads(read, p);
    ChainExactlyWhen(read.exec.snapshot, BundleOf(read, p).observation);
  }

  /** The evidence conflicts the intent for exactly two reasons, and otherwise leaves the workflow to the observation. */
  lemma EvidenceWorkflow(read: Aggregate, p: Poll)
    requires Writes(read, p)
    ensures var a, d, applied := p.result.answers, EvidenceOf(read, p), AppliedOf(read, p);
            && !applied.snapshot.workflow.Conflicted?
            && d.snapshot.workflow == (if PayloadDiffers(read, a) || SpendIsProved(read, p, p.result.endpoint, a)
                                       then Conflicted else applied.snapshot.workflow)
            && d.snapshot.blockHash == applied.snapshot.blockHash
            && d.assertion == read.exec.assertion
  {
    var a := p.result.answers;
    ObservedCases(read, p);
    EvidenceCases(read, p);
    WorkflowExactlyWhen(read.exec.snapshot, BundleOf(read, p).observation);
    if InputsGone(read, a) {
      GoneInputs(read, p, ObservedOf(read, p));
    } else if InputsInspected(read, a) {
      OtherInputs(read, p, ObservedOf(read, p));
    }
  }

  // ---- The whole pass ----------------------------------------------------------------------------------------------

  /** The stored verdict was found for the block that still stands, while the intent was settled. */
  predicate VerdictStands(read: Aggregate, a: Answers) {
    && read.exec.settlementReadyAt.Some? && read.exec.assertion == Some(AssertionVerified)
    && Present(read.exec.snapshot.blockHash) && !BlockDisproved(read, a) && !BlockMoved(read, a)
  }

  /** The Cells are checked: the commit is deep enough, nothing conflicts, and no verdict stands for this block. */
  predicate CellsAsked(read: Aggregate, p: Poll) {
    && Writes(read, p) && read.required > 0
    && DeepNow(read, p.result.answers) && !PayloadDiffers(read, p.result.answers)
    && !SpendIsProved(read, p, p.result.endpoint, p.result.answers)
    && !VerdictStands(read, p.result.answers)
  }

  predicate ReturnsTransaction(a: Answers) {
    a.tx.TxAnswer? && a.tx.body.Some?
  }

  predicate CellsVerifiedBy(read: Aggregate, p: Poll) {
    CellsAsked(read, p) && ReturnsTransaction(p.result.answers) && IsReached(p.checks, read.required)
  }

  predicate CellsRefutedBy(read: Aggregate, p: Poll) {
    CellsAsked(read, p) && ReturnsTransaction(p.result.answers) && CellsRefuted(p.checks, read.required)
  }

  function DraftOf(read: Aggregate, p: Poll): Draft
    requires Writes(read, p)
  {
    AfterCells(read, p, BundleOf(read, p), AppliedOf(read, p))
  }

  lemma AskedWhen(read: Aggregate, p: Poll)
    requires Writes(read, p)
    ensures var evidence, applied := EvidenceOf(read, p), AppliedOf(read, p);
            && (applied.reorgDetected || evidence.snapshot.workflow.Reorged? <==>
                  BlockDisproved(read, p.result.answers) || BlockMoved(read, p.result.answers))
            && (forall verdict :: MustCheckCells(read, applied, evidence.(assertion := verdict)) <==> CellsAsked(read, p))
  {
    var o := BundleOf(read, p).observation;
    ObservationReads(read, p);
    EvidenceWorkflow(read, p);
    WorkflowExactlyWhen(read.exec.snapshot, o);
    ChainExactlyWhen(read.exec.snapshot, o);
    ToldExactlyWhen(read.exec.snapshot, o);
  }

  /** The Cell stage over the evidence stage. */
  lemma CellStage(read: Aggregate, p: Poll)
    requires Writes(read, p)
    ensures var a, e, d := p.result.answers, EvidenceOf(read, p), DraftOf(read, p);
            var dropped := if BlockDisproved(read, a) || BlockMoved(read, a) then None else read.exec.assertion;
            if CellsRefutedBy(read, p) then
              d == Draft(e.snapshot.(workflow := Conflicted), CellsFailed, Some(AssertionFailed),
                         Some(ExpectedCellAssertionFailed), d.conflictDetails)
            else if CellsVerifiedBy(read, p) then d == e.(kind := CellsVerified, assertion := Some(AssertionVerified))
            else if CellsAsked(read, p) then d == e.(assertion := Some(AssertionPending))
            else d == e.(assertion := dropped)
  {
    AskedWhen(read, p);
    EvidenceWorkflow(read, p);
    ObservationCarries(PriorCommitOf(read.exec.snapshot), Targets(read.exec), p.result.endpoint, p.result.answers);
    VerdictExactlyWhen(BundleOf(read, p).body, p.checks, read.required);
  }

  lemma PassWritesDraft(db: Db, p: Poll)
    requires Writes(db.agg, p)
    ensures var after, d := Step(db, PollReq(p)).agg.exec, DraftOf(db.agg, p);
            && after.snapshot == d.snapshot && after.assertion == d.assertion
            && after.conflictType == d.conflictType && after.conflictDetails == d.conflictDetails
  {
    EventLog.PassStatuses(db, p);
    var outcome := ReconcileOutcome(db.agg, p).value;
    assert outcome.snapshot == DraftOf(db.agg, p).snapshot;
  }

  /** The workflow that a pass leaves: each status with its exact cause in the stored row and the answers. */
  lemma WorkflowAfterPass(db: Db, p: Poll)
    requires Writes(db.agg, p)
    ensures var read, a, after := db.agg, p.result.answers, Step(db, PollReq(p)).agg.exec.snapshot.workflow;
            var conflicts := PayloadDiffers(read, a) || SpendIsProved(read, p, p.result.endpoint, a);
            && (after.Conflicted? <==> conflicts || CellsRefutedBy(read, p))
            && (after.Confirmed? <==> DeepNow(read, a) && !conflicts && !CellsRefutedBy(read, p))
            && (after.WaitingConfirmations? <==>
                  ShowsCommit(a) && !Meets(read.exec.snapshot.policy, a.headerNumber, a.tip) && !conflicts)
            && (after.Reorged? <==> BlockDisproved(read, a) && !ShowsCommit(a) && !Says(a, "rejected") && !conflicts)
            && (after.Idle? <==> Says(a, "rejected") && !CommitStands(read, a))
            && !after.Expired?
  {
    ObservationReads(db.agg, p);
    EvidenceWorkflow(db.agg, p);
    WorkflowExactlyWhen(db.agg.exec.snapshot, BundleOf(db.agg, p).observation);
    CellStage(db.agg, p);
    PassWritesDraft(db, p);
  }

  lemma EvidenceConflict(read: Aggregate, p: Poll)
    requires Writes(read, p)
    ensures var a, prior, details := p.result.answers, read.exec.conflictType, read.exec.conflictDetails;
            var hadSpent := details.Some? && details.value.classification == Some(SpentObserved);
            EvidenceOf(read, p).conflictType ==
              if PayloadDiffers(read, a) then Some(SignedPayloadMismatch)
              else if SpendIsProved(read, p, p.result.endpoint, a) then Some(InputSpent)
              else if ShowsTransaction(a) || InputsFree(read, a) then None
              else if InputsGone(read, a) || InputsLive(read, a) then Some(InputConflictSuspected)
              else if InputsInspected(read, a) && hadSpent then Some(InputConflictSuspected)
              else prior
  {
    var a := p.result.answers;
    ObservedCases(read, p);
    EvidenceCases(read, p);
    if InputsGone(read, a) {
      GoneInputs(read, p, ObservedOf(read, p));
      FreeOrGone(read, a);
    } else if InputsInspected(read, a) {
      OtherInputs(read, p, ObservedOf(read, p));
    }
  }

  lemma FreeOrGone(read: Aggregate, a: Answers)
    requires InputsGone(read, a)
    ensures !InputsFree(read, a) && !InputsLive(read, a)
  {
    var i :| 0 <= i < |Targets(read.exec)| && IsGone(Targets(read.exec), a, i);
    assert !IsLive(a, i) && !IsFree(a, i);
  }

  /** The conflict that a pass records, keeps or clears, and the verdict on the Cells. */
  lemma FindingsAfterPass(db: Db, p: Poll)
    requires Writes(db.agg, p)
    ensures var read, a, after := db.agg, p.result.answers, Step(db, PollReq(p)).agg.exec;
            var prior, details := read.exec.conflictType, read.exec.conflictDetails;
            var hadSpent := details.Some? && details.value.classification == Some(SpentObserved);
            && after.conflictType ==
                 (if CellsRefutedBy(read, p) then Some(ExpectedCellAssertionFailed)
                  else if PayloadDiffers(read, a) then Some(SignedPayloadMismatch)
                  else if SpendIsProved(read, p, p.result.endpoint, a) then Some(InputSpent)
                  else if ShowsTransaction(a) || InputsFree(read, a) then None
                  else if InputsGone(read, a) || InputsLive(read, a) then Some(InputConflictSuspected)
                  else if InputsInspected(read, a) && hadSpent then Some(InputConflictSuspected)
                  else prior)
            && after.assertion ==
                 (if CellsVerifiedBy(read, p) then Some(AssertionVerified)
                  else if CellsRefutedBy(read, p) then Some(AssertionFailed)
                  else if CellsAsked(read, p) then Some(AssertionPending)
                  else if BlockDisproved(read, a) || BlockMoved(read, a) then None
                  else read.exec.assertion)
  {
    PassWritesDraft(db, p);
    CellStage(db.agg, p);
    EvidenceConflict(db.agg, p);
    VerdictExactlyWhen(BundleOf(db.agg, p).body, p.checks, db.agg.required);
    OneVerdict(p.checks, db.agg.required);
  }

  lemma OneVerdict(checks: seq<CellCheck>, required: nat)
    ensures !(IsReached(checks, required) && CellsRefuted(checks, required))
  {
  }

  /** The event that tells of a pass: the strongest finding, in this order. */
  lemma EventOfPass(read: Aggregate, p: Poll)
    requires Writes(read, p)
    ensures var a, kind := p.result.answers, ReconcileOutcome(read, p).value.kind;
            var expires := AsRecord(ReconcileOutcome(read, p).value.conflictDetails).graceExpired
                           && !AsRecord(read.exec.conflictDetails).graceExpired;
            kind ==
              if CellsVerifiedBy(read, p) then CellsVerified
              else if CellsRefutedBy(read, p) then CellsFailed
              else if PayloadDiffers(read, a) then PayloadMismatchFound
              else if ShowsTransaction(a) && read.exec.snapshot.submission.NodeRejected? then SubmissionRejectionSuperseded
              else if SpendIsProved(read, p, p.result.endpoint, a) then InputConflictConfirmed
              else if InputsGone(read, a) then
                if SpendMatured(read, a) then InputConflictCorroborationPending else InputSpentObserved
              else if InputsFree(read, a) then InputStateInspected
              else if InputsLive(read, a) then if expires then InputContentionGraceExpired else InputPoolContentionDetected
              else if InputsInspected(read, a) then InputStateUncertain
              else if BlockDisproved(read, a) || BlockMoved(read, a) then ReorgDetected
              else if ShowsCommit(a) && Meets(read.exec.snapshot.policy, a.headerNumber, a.tip) then ConfirmedOnChain
              else ChainObserved
  {
    EvidenceEvent(read, p);
    CellStage(read, p);
    OneVerdict(p.checks, read.required);
  }

  lemma EvidenceEvent(read: Aggregate, p: Poll)
    requires Writes(read, p)
    ensures var a, d := p.result.answers, EvidenceOf(read, p);
            var expires := AsRecord(d.conflictDetails).graceExpired && !AsRecord(read.exec.conflictDetails).graceExpired;
            d.kind ==
              if PayloadDiffers(read, a) then PayloadMismatchFound
              else if ShowsTransaction(a) && read.exec.snapshot.submission.NodeRejected? then SubmissionRejectionSuperseded
              else if SpendIsProved(read, p, p.result.endpoint, a) then InputConflictConfirmed
              else if InputsGone(read, a) then
                if SpendMatured(read, a) then InputConflictCorroborationPending else InputSpentObserved
              else if InputsFree(read, a) then InputStateInspected
              else if InputsLive(read, a) then if expires then InputContentionGraceExpired else InputPoolContentionDetected
              else if InputsInspected(read, a) then InputStateUncertain
              else if BlockDisproved(read, a) || BlockMoved(read, a) then ReorgDetected
              else if ShowsCommit(a) && Meets(read.exec.snapshot.policy, a.headerNumber, a.tip) then ConfirmedOnChain
              else ChainObserved
  {
    var a := p.result.answers;
    ObservationReads(read, p);
    ToldExactlyWhen(read.exec.snapshot, BundleOf(read, p).observation);
    ObservedCases(read, p);
    EvidenceCases(read, p);
    if InputsGone(read, a) {
      GoneInputs(read, p, ObservedOf(read, p));
    } else if InputsInspected(read, a) {
      OtherInputs(read, p, ObservedOf(read, p));
    }
  }

  // ---- A pass that no endpoint answers -----------------------------------------------------------------------------

  /** An outage is no evidence: a recorded commit stands, nothing is found, and only spend evidence loses its continuity. */
  lemma OutageRecords(db: Db, p: Poll)
    requires p.result.PollFailed? && ReconcileOutcome(db.agg, p).Ok?
    ensures var before, after := db.agg.exec, Step(db, PollReq(p)).agg.exec;
            && (before.snapshot.chain.Committed? ==>
                  after.snapshot == before.snapshot.(workflow := if before.snapshot.workflow.Confirmed? then Confirmed else Reconciling))
            && (!before.snapshot.chain.Committed? ==>
                  after.snapshot == before.snapshot.(chain := Unknown, workflow := Reconciling, confirmations := 0))
            && after.conflictType == before.conflictType && after.assertion == before.assertion
            && (if before.conflictDetails.Some? && before.conflictDetails.value.classification == Some(SpentObserved)
                then after.conflictDetails == Some(before.conflictDetails.value.(continuityBroken := true))
                else after.conflictDetails == before.conflictDetails)
            && after.nextReconcileAt.Some?
            && p.now + 10000 <= after.nextReconcileAt.value <= p.now + 300000
  {
    PowersOfTwo();
  }

  lemma PowersOfTwo()
    ensures Pow2(0) == 1 && Pow2(1) == 2 && Pow2(2) == 4 && Pow2(3) == 8 && Pow2(4) == 16 && Pow2(5) == 32
  {
  }

  // ---- The scan of a candidate -------------------------------------------------------------------------------------

  /** The transaction returned for a candidate has another payload than the one attached. */
  predicate CandidateDiffers(row: Attempt, a: Answers) {
    && a.tx.TxAnswer? && a.tx.body.Some? && Present(a.tx.body.value.fingerprint) && Present(row.payloadHash)
    && a.tx.body.value.fingerprint != row.payloadHash
  }

  /** A candidate takes over if and only if the node shows its commit and returns what was attached. */
  lemma PromotedExactlyWhen(read: Aggregate, id: AttemptId, result: PollResult, now: int)
    requires id < |read.attempts| && result.PollAnswered?
    ensures var outcome, row, a := ScanCandidate(read, id, result, now), read.attempts[id], result.answers;
            && (outcome.Promotion? <==>
                  ShowsCommit(a) && !CandidateDiffers(row, a) && !row.workflow.Conflicted? && !row.workflow.Expired?)
            && (outcome.SideUpdate? && outcome.conflictType.Some? <==> ShowsCommit(a) && CandidateDiffers(row, a))
            && (outcome.Promotion? ==>
                  && outcome.input.id == id && outcome.input.at == a.at && outcome.input.nextReconcileAt == Some(now + 12000)
                  && outcome.input.kind
                     == if Meets(read.exec.snapshot.policy, a.headerNumber, a.tip) then CompetingAttemptConfirmed
                        else CompetingAttemptCommitted)
  {
    var row := read.attempts[id];
    var o := Observe(None, TargetsOf(row.refs, row.inputs), result.endpoint, result.answers).observation;
    ObservationCarries(None, TargetsOf(row.refs, row.inputs), result.endpoint, result.answers);
    WorkflowExactlyWhen(CandidateBase(read, row), o);
  }

  /** The projection after a promotion is that of the candidate: confirmed if and only if its commit is deep enough. */
  lemma PromotionRecords(db: Db, id: AttemptId, result: PollResult, now: int)
    requires db.agg.exec.txHash.Some? && IsCandidate(db.agg, id)
    requires ScanCandidate(db.agg, id, result, now).Promotion?
    ensures var row, a, after := db.agg.attempts[id], result.answers, Step(db, ScanReq(id, result, now)).agg;
            && after.active == Some(id) && after.exec.txHash == Some(row.txHash)
            && after.exec.inputs == row.inputs && after.exec.refs == row.refs
            && after.exec.submissionError == row.submissionError
            && after.exec.conflictType == row.conflictType && after.exec.conflictDetails == row.conflictDetails
            && after.exec.assertion.None? && after.exec.reconcileAttempts == 0
            && after.exec.snapshot.chain.Committed?
            && after.exec.snapshot.blockHash == a.tx.blockHash && after.exec.snapshot.blockNumber == a.headerNumber
            && after.exec.snapshot.workflow
               == (if Meets(db.agg.exec.snapshot.policy, a.headerNumber, a.tip) then Confirmed else WaitingConfirmations)
            && (after.exec.snapshot.workflow.Confirmed? ==> after.winning == Some(id))
  {
    var row := db.agg.attempts[id];
    var o := Observe(None, TargetsOf(row.refs, row.inputs), result.endpoint, result.answers).observation;
    PromotedExactlyWhen(db.agg, id, result, now);
    ObservationCarries(None, TargetsOf(row.refs, row.inputs), result.endpoint, result.answers);
    WorkflowExactlyWhen(CandidateBase(db.agg, row), o);
    ChainExactlyWhen(CandidateBase(db.agg, row), o);
    PromotionStep(db, id, result, now);
  }

  /** A candidate that does not take over is written as the lifecycle machine sees it, or as clashing with its payload. */
  lemma CandidateRecords(read: Aggregate, id: AttemptId, result: PollResult, now: int)
    requires id < |read.attempts| && ScanCandidate(read, id, result, now).SideUpdate?
    ensures var outcome, row, a := ScanCandidate(read, id, result, now), read.attempts[id], result.answers;
            && outcome.snapshot.submission == (if row.submission.NotSubmitted? then Submitted else row.submission)
            && (if ShowsCommit(a) then
                  outcome.snapshot.workflow.Conflicted? && outcome.conflictType == Some(SignedPayloadMismatch)
                  && outcome.snapshot.chain == row.chain
                else
                  && outcome.conflictType.None? && outcome.details.None?
                  && (outcome.snapshot.chain.Committed? <==> row.chain.Committed?)
                  && (!row.chain.Committed? ==>
                        && (outcome.snapshot.chain.Pending? <==> Says(a, "pending"))
                        && (outcome.snapshot.chain.Proposed? <==> Says(a, "proposed"))
                        && (outcome.snapshot.chain.Rejected? <==> Says(a, "rejected"))
                        && (outcome.snapshot.workflow == if Says(a, "rejected") then Idle else Reconciling))
                  && (row.chain.Committed? ==> outcome.snapshot.workflow == if row.workflow.Confirmed? then Confirmed else Reconciling))
  {
    var row := read.attempts[id];
    var o := Observe(None, TargetsOf(row.refs, row.inputs), result.endpoint, result.answers).observation;
    PromotedExactlyWhen(read, id, result, now);
    WorkflowExactlyWhen(CandidateBase(read, row), o);
    if !ShowsCommit(result.answers) {
      ChainExactlyWhen(CandidateBase(read, row), o);
    }
  }
}
