/** The whole table of the lifecycle machine: what an observation makes of a snapshot, what is shown, and what is advised. */
module Transitions {
  import opened Prelude
  import opened Types
  import opened StateMachine
  import Hex

  // ---- Observations ------------------------------------------------------------------------------------------------

  predicate Open(s: Snapshot) {
    !s.workflow.Conflicted? && !s.workflow.Expired?
  }

  /** The tip is that many blocks deep, counting the block itself. */
  predicate DeepEnough(number: Option<string>, tip: Option<string>, blocks: int) {
    var height, top := Hex.ParseHeight(number), Hex.ParseHeight(tip);
    height.Some? && top.Some? && top.value >= height.value && top.value - height.value + 1 >= blocks
  }

  /** What the policy asks of a commit. A depth above the largest exact number is never reached, one below 1 always. */
  predicate Meets(policy: Policy, number: Option<string>, tip: Option<string>) {
    match policy
    case WhenCommitted => true
    case Depth(blocks) => blocks <= 0 || (blocks <= MAX_SAFE_INTEGER && DeepEnough(number, tip, blocks))
  }

  /** The node names another block canonical at the height of the recorded one. */
  predicate Disproved(s: Snapshot, o: Observation) {
    Present(s.blockHash) && o.priorCommitCanonical == Some(false)
  }

  /** The node shows the commit in another block than the recorded one. */
  predicate Moved(s: Snapshot, o: Observation) {
    o.status.Committed? && Present(s.blockHash) && Present(o.blockHash) && s.blockHash != o.blockHash
  }

  /** A recorded commit that the node does not show and does not disprove either. */
  predicate Stands(s: Snapshot, o: Observation) {
    s.chain.Committed? && !o.status.Committed? && !Disproved(s, o)
  }

  /** The workflow after any observation: each status with its one cause. */
  lemma WorkflowExactlyWhen(s: Snapshot, o: Observation)
    ensures ApplyChainObservation(s, o).Ok? <==> Open(s)
    ensures Open(s) ==>
              var workflow := ApplyChainObservation(s, o).value.snapshot.workflow;
              && (workflow.Confirmed? <==>
                    if o.status.Committed? then Meets(s.policy, o.blockNumber, o.tip) else Stands(s, o) && s.workflow.Confirmed?)
              && (workflow.WaitingConfirmations? <==> o.status.Committed? && !Meets(s.policy, o.blockNumber, o.tip))
              && (workflow.Reorged? <==> Disproved(s, o) && !o.status.Committed? && !o.status.Rejected?)
              && (workflow.Idle? <==> o.status.Rejected? && !Stands(s, o))
              && (workflow.Reconciling? <==>
                    !o.status.Committed? && (if Stands(s, o) then !s.workflow.Confirmed? else !o.status.Rejected? && !Disproved(s, o)))
  {
  }

  /** The chain status and the block reference after any observation; submission and policy never change. */
  lemma ChainExactlyWhen(s: Snapshot, o: Observation)
    requires Open(s)
    ensures var after := ApplyChainObservation(s, o).value.snapshot;
            && after.submission == s.submission && after.policy == s.policy
            && after.chain == (if Stands(s, o) then Committed else o.status)
            && after.blockHash == (if o.status.Committed? && Present(o.blockHash) then o.blockHash
                                   else if after.workflow.Reorged? then None else s.blockHash)
            && after.blockNumber == (if o.status.Committed? && Present(o.blockNumber) then o.blockNumber
                                     else if after.workflow.Reorged? then None else s.blockNumber)
            && after.rejectionReason == (if !Stands(s, o) && Present(o.rejectionReason) then o.rejectionReason else s.rejectionReason)
  {
  }

  /** The count shown is the number of blocks from the commit to the tip, both included, and zero for anything else. */
  lemma ConfirmationsExactlyWhen(s: Snapshot, o: Observation)
    requires Open(s) && s.confirmations >= 0
    ensures var after := ApplyChainObservation(s, o).value.snapshot;
            && (Stands(s, o) ==> after.confirmations == s.confirmations)
            && (!Stands(s, o) && !o.status.Committed? ==> after.confirmations == 0)
            && (o.status.Committed? ==>
                  forall n: nat :: 1 <= n <= MAX_SAFE_INTEGER ==>
                    (after.confirmations >= n <==> DeepEnough(o.blockNumber, o.tip, n)))
            && 0 <= after.confirmations <= Max(s.confirmations, MAX_SAFE_INTEGER)
  {
  }

  /** What is told about an observation: a reorg is one that is proved, a confirmation one that is newly shown. */
  lemma ToldExactlyWhen(s: Snapshot, o: Observation)
    requires Open(s)
    ensures var applied := ApplyChainObservation(s, o).value;
            && (applied.reorgDetected <==> Disproved(s, o) || Moved(s, o))
            && (applied.kind.ReorgDetected? <==> Disproved(s, o) || Moved(s, o))
            && (applied.kind.ConfirmedOnChain? <==>
                  o.status.Committed? && Meets(s.policy, o.blockNumber, o.tip) && !Disproved(s, o) && !Moved(s, o))
            && (applied.kind in {ReorgDetected, ConfirmedOnChain, ChainObserved})
            && applied.fromOverall == Overall(s) && applied.toOverall == Overall(applied.snapshot) && applied.at == o.at
  {
  }

  // ---- The status shown --------------------------------------------------------------------------------------------

  /** The workflow says nothing that the chain or the submission does not say better. */
  predicate Plain(workflow: WorkflowStatus) {
    workflow.Idle? || workflow.Reconciling? || workflow.WaitingConfirmations?
  }

  predicate OffChain(chain: ChainStatus) {
    chain.Unobserved? || chain.Unknown?
  }

  /** Each status shown, with the one combination of the three axes that shows it. */
  lemma ShownExactlyWhen(s: Snapshot)
    ensures var shown := Overall(s);
            var silent := s.chain.Unobserved? && (s.workflow.Idle? || s.workflow.WaitingConfirmations?);
            && (shown.OverallConflicted? <==> s.workflow.Conflicted?)
            && (shown.OverallExpired? <==> s.workflow.Expired?)
            && (shown.OverallRejected? <==> s.chain.Rejected? && Open(s))
            && (shown.OverallReorged? <==> s.workflow.Reorged? && !s.chain.Rejected?)
            && (shown.OverallConfirmed? <==> s.workflow.Confirmed? && !s.chain.Rejected?)
            && (shown.OverallCommitted? <==> s.chain.Committed? && Plain(s.workflow))
            && (shown.OverallProposed? <==> s.chain.Proposed? && Plain(s.workflow))
            && (shown.OverallPending? <==> s.chain.Pending? && Plain(s.workflow))
            && (shown.OverallNodeRejected? <==> s.submission.NodeRejected? && OffChain(s.chain) && Plain(s.workflow))
            && (shown.OverallReconciling? <==> s.workflow.Reconciling? && OffChain(s.chain) && !s.submission.NodeRejected?)
            && (shown.OverallSubmitted? <==> silent && s.submission.Submitted?)
            && (shown.OverallSubmitting? <==> silent && s.submission.Broadcasting?)
            && (shown.OverallPrepared? <==> silent && s.submission.Prepared?)
            && (shown.OverallCreated? <==> silent && s.submission.NotSubmitted?)
  {
  }

  // ---- The advice --------------------------------------------------------------------------------------------------

  /** A finding that no machine resolves: the Cells or the signed payload are wrong. */
  predicate Blocked(assertion: Option<AssertionStatus>, conflict: Option<ConflictType>) {
    assertion == Some(AssertionFailed) || conflict == Some(ExpectedCellAssertionFailed) || conflict == Some(SignedPayloadMismatch)
  }

  /** The inputs are spent for good, or their contention has outlasted its grace period. */
  predicate InputsLost(s: Snapshot, conflict: Option<ConflictType>, details: Option<Details>) {
    || conflict == Some(InputSpent)
    || (conflict == Some(InputConflictSuspected) && !s.workflow.Reorged?
        && details.Some? && details.value.classification == Some(MempoolContended) && details.value.graceExpired)
  }

  predicate Waits(error: Option<SubmissionError>) {
    error.Some? && error.value.retryable && error.value.maturityOrSince
  }

  /** No finding about the inputs and no reorg: the submission and the workflow decide. */
  predicate Undisturbed(s: Snapshot, conflict: Option<ConflictType>) {
    && !s.workflow.Reorged? && conflict != Some(ReorgConflict)
    && conflict != Some(InputSpent) && conflict != Some(InputConflictSuspected)
  }

  function DomainIn(details: Option<Details>): ConflictDomain {
    if details.Some? && details.value.domain.Some? then details.value.domain.value else UnknownDomain
  }

  /** The advice for lost inputs depends on whose inputs they were, and is given in no other case. */
  lemma RebuildAdviceExactlyWhen(
    s: Snapshot, conflict: Option<ConflictType>, assertion: Option<AssertionStatus>,
    details: Option<Details>, error: Option<SubmissionError>, required: nat)
    ensures var advice := RecommendedActionFor(s, conflict, assertion, details, error, required);
            var lost := !Blocked(assertion, conflict) && !s.workflow.Confirmed? && InputsLost(s, conflict, details);
            && (advice.RecollectWalletInputs? <==> lost && DomainIn(details).WalletDomain?)
            && (advice.RebuildFromLiveState? <==> lost && DomainIn(details).ApplicationDomain?)
            && (advice.RebuildAndResign? <==> lost && DomainIn(details).MixedDomain?)
            && (lost && DomainIn(details).UnknownDomain? ==> advice.ManualReview?)
  {
  }

  /** When the advice is to wait, and for what. */
  lemma WaitAdviceExactlyWhen(
    s: Snapshot, conflict: Option<ConflictType>, assertion: Option<AssertionStatus>,
    details: Option<Details>, error: Option<SubmissionError>, required: nat)
    ensures var advice := RecommendedActionFor(s, conflict, assertion, details, error, required);
            var open := !Blocked(assertion, conflict) && !s.workflow.Confirmed?;
            var maturing := s.submission.NodeRejected? && Waits(error);
            && (advice.ReconcileCanonicalState? <==>
                  open && (conflict == Some(ReorgConflict) || (s.workflow.Reorged? && conflict != Some(InputSpent))))
            && (advice.WaitAndReconcile? <==>
                  open && conflict == Some(InputConflictSuspected) && !s.workflow.Reorged? && !InputsLost(s, conflict, details))
            && (advice.WaitForMaturity? <==> open && Undisturbed(s, conflict) && maturing)
            && (advice.WaitForReconciliation? <==>
                  || (!Blocked(assertion, conflict) && s.workflow.Confirmed? && !SettlementIsReady(s, assertion, required, conflict))
                  || (open && Undisturbed(s, conflict) && !maturing
                      && (s.submission.SubmissionUnknown? || s.workflow.Reconciling? || s.workflow.WaitingConfirmations?)))
  {
  }

  /** When a person has to look, and when there is nothing to do. */
  lemma OtherAdviceExactlyWhen(
    s: Snapshot, conflict: Option<ConflictType>, assertion: Option<AssertionStatus>,
    details: Option<Details>, error: Option<SubmissionError>, required: nat)
    ensures var advice := RecommendedActionFor(s, conflict, assertion, details, error, required);
            var open := !Blocked(assertion, conflict) && !s.workflow.Confirmed?;
            var resting := open && Undisturbed(s, conflict) && !(s.submission.NodeRejected? && Waits(error))
                           && !s.submission.SubmissionUnknown? && !s.workflow.Reconciling? && !s.workflow.WaitingConfirmations?;
            && (advice.ManualReview? <==>
                  || Blocked(assertion, conflict)
                  || (open && InputsLost(s, conflict, details) && DomainIn(details).UnknownDomain?)
                  || (resting && (s.chain.Rejected? || s.submission.NodeRejected?)))
            && (advice.NoAction? <==>
                  || (!Blocked(assertion, conflict) && s.workflow.Confirmed? && SettlementIsReady(s, assertion, required, conflict))
                  || (resting && !s.chain.Rejected? && !s.submission.NodeRejected?))
  {
  }
}
