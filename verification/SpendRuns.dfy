/** When a run may declare the inputs of a transaction spent for good, and what stays frozen afterwards. */
module SpendRuns {
  import opened Prelude
  import opened Types
  import opened StateMachine
  import opened ConflictEvidence
  import opened Rpc
  import opened Store
  import opened Service
  import opened Reconcile
  import opened Machine
  import opened Invariants
  import opened Confirmation
  import Hex

  // ---- The earned verdict ------------------------------------------------------------------------------------------

  function BundleOf(db: Db, request: Request): Bundle
    requires request.PollReq? && AnswersOf(request).Some?
  {
    BundleFor(db.agg, request.poll.result.endpoint, AnswersOf(request).value)
  }

  /** The pass found the transaction absent and its inputs canonically spent, at this tip. */
  predicate SawSpent(db: Db, request: Request, tip: Option<string>) {
    && request.PollReq? && AnswersOf(request).Some?
    && BundleOf(db, request).inspection.Some?
    && BundleOf(db, request).inspection.value.state.CanonicallySpent?
    && BundleOf(db, request).inspection.value.tip == tip
  }

  /** The pass failed on every endpoint, saw the transaction, or inspected the inputs as live, contended or uncertain. */
  predicate Interrupts(db: Db, request: Request) {
    && request.PollReq? && request.poll.urls != [] && db.agg.exec.txHash.Some?
    && (|| request.poll.result.PollFailed?
        || Seen(BundleOf(db, request).observation.status)
        || (BundleOf(db, request).inspection.Some? && !BundleOf(db, request).inspection.value.state.CanonicallySpent?))
  }

  predicate Promotes(db: Db, request: Request) {
    request.ScanReq? && RecordsCommit(db, request)
  }

  predicate NoPromotion(policy: Policy, required: nat, requests: seq<Request>) {
    forall k :: 0 <= k < |requests| ==> !Promotes(Before(policy, required, requests, k), requests[k])
  }

  predicate UninterruptedAfter(policy: Policy, required: nat, requests: seq<Request>, i: nat) {
    forall k :: i < k < |requests| ==> !Interrupts(Before(policy, required, requests, k), requests[k])
  }

  /** Request i saw the inputs spent at this tip, and nothing since has interrupted the evidence. */
  predicate Backed(policy: Policy, required: nat, requests: seq<Request>, tip: string, i: nat) {
    && i < |requests|
    && SawSpent(Before(policy, required, requests, i), requests[i], Some(tip))
    && UninterruptedAfter(policy, required, requests, i)
  }

  /** Evidence still running belongs to an intent that is not terminal. */
  predicate RunningEvidenceIsOpen(agg: Aggregate) {
    Continues(agg.exec.conflictDetails) ==> !agg.exec.snapshot.workflow.Conflicted? && !agg.exec.snapshot.workflow.Expired?
  }

  lemma OutageEvidence(db: Db, p: Poll)
    requires Inv(db.agg) && p.result.PollFailed? && ReconcileOutcome(db.agg, p).Ok?
    ensures !Continues(Step(db, PollReq(p)).agg.exec.conflictDetails)
  {
  }

  /** Checking Cells starts no evidence: it keeps what the evidence stage left, or ends it. */
  lemma CellsStage(read: Aggregate, p: Poll, bundle: Bundle, applied: Applied)
    ensures var e, d := AfterEvidence(read, p, bundle, applied), AfterCells(read, p, bundle, applied);
            Continues(d.conflictDetails) ==> d.conflictDetails == e.conflictDetails && d.snapshot.workflow == e.snapshot.workflow
  {
  }

  lemma AnsweredEvidence(db: Db, p: Poll)
    requires Inv(db.agg) && p.result.PollAnswered? && ReconcileOutcome(db.agg, p).Ok?
    ensures var after := ReconcileOutcome(db.agg, p).value;
            Continues(after.conflictDetails) ==>
              && !after.snapshot.workflow.Conflicted? && !after.snapshot.workflow.Expired?
              && !Interrupts(db, PollReq(p))
              && (|| (after.conflictDetails == db.agg.exec.conflictDetails)
                  || (exists tip :: SawSpent(db, PollReq(p), tip)
                                    && after.conflictDetails.value.firstTip
                                       == (if Continues(db.agg.exec.conflictDetails)
                                           then OrElse(db.agg.exec.conflictDetails.value.firstTip, tip) else tip)))
  {
    var bundle := BundleFor(db.agg, p.result.endpoint, p.result.answers);
    var applied := ApplyChainObservation(db.agg.exec.snapshot, bundle.observation).value;
    AppliedSnapshotIsSound(db.agg.exec.snapshot, bundle.observation);
    EvidenceStage(db.agg, p, bundle, applied);
    CellsStage(db.agg, p, bundle, applied);
    if bundle.inspection.Some? && bundle.inspection.value.state.CanonicallySpent? {
      assert SawSpent(db, PollReq(p), bundle.inspection.value.tip);
    }
  }

  /** The evidence stage alone: what it leaves running, and why. */
  lemma EvidenceStage(read: Aggregate, p: Poll, bundle: Bundle, applied: Applied)
    requires !applied.snapshot.workflow.Conflicted? && !applied.snapshot.workflow.Expired?
    requires bundle.inspection.Some? ==> bundle.observation.status.Unknown?
    ensures var d := AfterEvidence(read, p, bundle, applied);
            Continues(d.conflictDetails) ==>
              && !d.snapshot.workflow.Conflicted? && !d.snapshot.workflow.Expired?
              && !Seen(bundle.observation.status)
              && (bundle.inspection.Some? ==> bundle.inspection.value.state.CanonicallySpent?)
              && (if bundle.inspection.None? then d.conflictDetails == read.exec.conflictDetails
                  else d.conflictDetails.value.firstTip
                       == (if Continues(read.exec.conflictDetails)
                           then OrElse(read.exec.conflictDetails.value.firstTip, bundle.inspection.value.tip)
                           else bundle.inspection.value.tip))
  {
  }

  lemma EvidenceStep(db: Db, request: Request, tip: string)
    requires Inv(db.agg) && RunningEvidenceIsOpen(db.agg)
    requires !Promotes(db, request)
    ensures RunningEvidenceIsOpen(Step(db, request).agg)
    ensures var after := Step(db, request).agg.exec.conflictDetails;
            Continues(after) && after.value.firstTip == Some(tip) ==>
              || SawSpent(db, request, Some(tip))
              || (!Interrupts(db, request) && Continues(db.agg.exec.conflictDetails)
                  && db.agg.exec.conflictDetails.value.firstTip == Some(tip))
  {
    match request
    case PollReq(p) =>
      if ReconcileOutcome(db.agg, p).Ok? {
        if p.result.PollFailed? {
          OutageEvidence(db, p);
        } else {
          AnsweredEvidence(db, p);
        }
      }
    case _ =>
  }

  lemma InterruptsInPrefix(policy: Policy, required: nat, requests: seq<Request>, n: nat, k: nat)
    requires k < n <= |requests| && !Interrupts(Before(policy, required, requests[..n], k), requests[..n][k])
    ensures !Interrupts(Before(policy, required, requests, k), requests[k])
  {
    BeforeOfPrefix(policy, required, requests, n, k);
  }

  lemma SawSpentInPrefix(policy: Policy, required: nat, requests: seq<Request>, tip: string, n: nat, i: nat)
    requires i < n <= |requests| && SawSpent(Before(policy, required, requests[..n], i), requests[..n][i], Some(tip))
    ensures SawSpent(Before(policy, required, requests, i), requests[i], Some(tip))
  {
    BeforeOfPrefix(policy, required, requests, n, i);
  }

  lemma UninterruptedExtends(policy: Policy, required: nat, requests: seq<Request>, i: nat)
    requires requests != []
    requires UninterruptedAfter(policy, required, requests[..|requests| - 1], i)
    requires !Interrupts(Before(policy, required, requests, |requests| - 1), requests[|requests| - 1])
    ensures UninterruptedAfter(policy, required, requests, i)
  {
    var n := |requests| - 1;
    forall k | i < k < n
      ensures !Interrupts(Before(policy, required, requests, k), requests[k])
    {
      InterruptsInPrefix(policy, required, requests, n, k);
    }
  }

  lemma BackingExtends(policy: Policy, required: nat, requests: seq<Request>, tip: string, i: nat)
    requires requests != []
    requires Backed(policy, required, requests[..|requests| - 1], tip, i)
    requires !Interrupts(Before(policy, required, requests, |requests| - 1), requests[|requests| - 1])
    ensures Backed(policy, required, requests, tip, i)
  {
    SawSpentInPrefix(policy, required, requests, tip, |requests| - 1, i);
    UninterruptedExtends(policy, required, requests, i);
  }

  lemma {:induction false} RunningEvidenceIsBacked(policy: Policy, required: nat, requests: seq<Request>)
    requires NoPromotion(policy, required, requests)
    ensures var agg := Run(Init(policy, required), requests).agg;
            && RunningEvidenceIsOpen(agg)
            && (Continues(agg.exec.conflictDetails) && agg.exec.conflictDetails.value.firstTip.Some? ==>
                  exists i :: Backed(policy, required, requests, agg.exec.conflictDetails.value.firstTip.value, i))
  {
    if requests != [] {
      var n := |requests| - 1;
      var db := Before(policy, required, requests, n);
      NoPromotionPrefix(policy, required, requests, n);
      RunningEvidenceIsBacked(policy, required, requests[..n]);
      RunKeeps(policy, required, requests[..n]);
      EvidenceStep(db, requests[n], "");
      var details := Run(Init(policy, required), requests).agg.exec.conflictDetails;
      if Continues(details) && details.value.firstTip.Some? {
        var tip := details.value.firstTip.value;
        EvidenceStep(db, requests[n], tip);
        if SawSpent(db, requests[n], Some(tip)) {
          assert Backed(policy, required, requests, tip, n);
        } else {
          var i :| Backed(policy, required, requests[..n], tip, i);
          BackingExtends(policy, required, requests, tip, i);
        }
      }
    }
  }

  /** This pass sees the spend at a tip deep enough above the given one, and enough endpoints say so now. */
  predicate SpendHolds(db: Db, request: Request, policy: Policy, first: string) {
    && request.PollReq? && AnswersOf(request).Some? && BundleOf(db, request).inspection.Some?
    && var inspection := BundleOf(db, request).inspection.value;
       var urls := request.poll.urls;
    && inspection.state.CanonicallySpent?
    && Hex.ParseHeight(Some(first)).Some? && Hex.ParseHeight(inspection.tip).Some?
    && Hex.ParseHeight(inspection.tip).value >= Hex.ParseHeight(Some(first)).value + RequiredBlocks(policy)
    && ((exists i, j :: 0 <= i < |urls| && 0 <= j < |urls| && urls[i] != urls[j])
        ==> SecondEndpointSpent(urls, inspection.endpoint, Targets(db.agg.exec), request.poll.others))
  }

  /** A pass that newly records INPUT_SPENT saw the spend, found it matured and had it corroborated. */
  lemma VerdictNeeds(read: Aggregate, p: Poll, bundle: Bundle, applied: Applied)
    requires read.exec.conflictType != Some(InputSpent)
    requires AfterCells(read, p, bundle, applied).conflictType == Some(InputSpent)
    ensures bundle.inspection.Some? && bundle.inspection.value.state.CanonicallySpent?
    ensures Matured(read.exec.snapshot.policy, read.exec.conflictDetails, SpentView(bundle.inspection.value))
    ensures Corroborate(p.urls, bundle.inspection.value, Targets(read.exec), p.others).confirmed
  {
    assert AfterEvidence(read, p, bundle, applied).conflictType == Some(InputSpent);
  }

  lemma SpentVerdictStep(db: Db, request: Request)
    requires Inv(db.agg) && !Promotes(db, request)
    requires db.agg.exec.conflictType != Some(InputSpent)
    requires Step(db, request).agg.exec.conflictType == Some(InputSpent)
    ensures Continues(db.agg.exec.conflictDetails) && db.agg.exec.conflictDetails.value.firstTip.Some?
    ensures SpendHolds(db, request, db.agg.exec.snapshot.policy, db.agg.exec.conflictDetails.value.firstTip.value)
  {
    match request
    case PollReq(p) =>
      var bundle := BundleFor(db.agg, p.result.endpoint, p.result.answers);
      var applied := ApplyChainObservation(db.agg.exec.snapshot, bundle.observation).value;
      VerdictNeeds(db.agg, p, bundle, applied);
      CorroborationMeansTwoEndpoints(p.urls, bundle.inspection.value, Targets(db.agg.exec), p.others);
    case _ => assert false;
  }

  /**
   * INPUT_SPENT is recorded only after an earlier pass saw the inputs spent at some tip, with nothing interrupting
   * the evidence since, at a tip that lies max(depth, 1) above, and with a second endpoint when two are configured.
   */
  lemma InputSpentIsEarned(policy: Policy, required: nat, requests: seq<Request>)
    requires NoPromotion(policy, required, requests) && requests != []
    requires Before(policy, required, requests, |requests| - 1).agg.exec.conflictType != Some(InputSpent)
    requires Run(Init(policy, required), requests).agg.exec.conflictType == Some(InputSpent)
    ensures var n := |requests| - 1;
            exists i, first :: Backed(policy, required, requests[..n], first, i)
                               && SpendHolds(Before(policy, required, requests, n), requests[n], policy, first)
  {
    var n := |requests| - 1;
    var db := Before(policy, required, requests, n);
    NoPromotionPrefix(policy, required, requests, n);
    RunKeeps(policy, required, requests[..n]);
    SpentVerdictStep(db, requests[n]);
    RunningEvidenceIsBacked(policy, required, requests[..n]);
    var first := db.agg.exec.conflictDetails.value.firstTip.value;
    var i :| Backed(policy, required, requests[..n], first, i);
  }

  /** Request m recorded the spend, and had every right to. */
  ghost predicate EarnedAt(policy: Policy, required: nat, requests: seq<Request>, m: nat) {
    && m < |requests|
    && exists i, first :: Backed(policy, required, requests[..m], first, i)
                          && SpendHolds(Before(policy, required, requests, m), requests[m], policy, first)
  }

  lemma EarnedInPrefix(policy: Policy, required: nat, requests: seq<Request>, n: nat, m: nat)
    requires n <= |requests| && EarnedAt(policy, required, requests[..n], m)
    ensures EarnedAt(policy, required, requests, m)
  {
    assert requests[..n][..m] == requests[..m];
  }

  /** In every state that shows INPUT_SPENT, some request earned it. */
  lemma {:induction false} InputSpentWasEarned(policy: Policy, required: nat, requests: seq<Request>)
    requires NoPromotion(policy, required, requests)
    requires Run(Init(policy, required), requests).agg.exec.conflictType == Some(InputSpent)
    ensures exists m :: EarnedAt(policy, required, requests, m)
  {
    var n := |requests| - 1;
    if Before(policy, required, requests, n).agg.exec.conflictType == Some(InputSpent) {
      NoPromotionPrefix(policy, required, requests, n);
      InputSpentWasEarned(policy, required, requests[..n]);
      var m :| EarnedAt(policy, required, requests[..n], m);
      EarnedInPrefix(policy, required, requests, n, m);
    } else {
      InputSpentIsEarned(policy, required, requests);
      assert EarnedAt(policy, required, requests, n);
    }
  }

  lemma NoPromotionPrefix(policy: Policy, required: nat, requests: seq<Request>, n: nat)
    requires n <= |requests| && NoPromotion(policy, required, requests)
    ensures NoPromotion(policy, required, requests[..n])
  {
    forall k | 0 <= k < n
      ensures !Promotes(Before(policy, required, requests[..n], k), requests[..n][k])
    {
      BeforeOfPrefix(policy, required, requests, n, k);
    }
  }

  // ---- Frozen conflicts and advice ---------------------------------------------------------------------------------

  /** A CONFLICTED execution only changes by attaching another hash or promoting a candidate. */
  lemma ConflictedIsFrozen(db: Db, request: Request)
    requires Inv(db.agg) && db.agg.exec.snapshot.workflow.Conflicted?
    ensures Step(db, request).agg.exec != db.agg.exec ==>
              || (request.AttachReq? && db.agg.exec.txHash != Some(request.attach.txHash))
              || Promotes(db, request)
  {
    match request
    case AttachReq(r) =>
    case MarkReq(m) =>
    case PollReq(p) => assert ReconcileOutcome(db.agg, p).Err?;
    case ScanReq(id, result, now) =>
  }

  predicate Rebuilds(action: RecommendedAction) {
    action.RebuildFromLiveState? || action.RecollectWalletInputs? || action.RebuildAndResign?
  }

  function Advice(agg: Aggregate): RecommendedAction {
    RecommendedActionFor(agg.exec.snapshot, agg.exec.conflictType, agg.exec.assertion, agg.exec.conflictDetails,
                         agg.exec.submissionError, agg.required)
  }

  /** Contention whose first and last observation lie at least the grace period apart. */
  predicate LastingContention(details: Option<Details>) {
    var d := AsRecord(details);
    && d.classification == Some(MempoolContended)
    && d.firstObservedAt.Some? && d.lastObservedAt.Some? && d.graceMs.Some?
    && d.lastObservedAt.value - d.firstObservedAt.value >= d.graceMs.value
  }

  lemma JustifiedAdvice(agg: Aggregate)
    requires SpendIsFinal(agg) && GraceHonest(agg.exec.conflictDetails)
    ensures Rebuilds(Advice(agg)) ==>
              || (agg.exec.conflictType == Some(InputSpent) && agg.exec.snapshot.workflow.Conflicted?
                  && SpendProven(agg.exec.conflictDetails))
              || (agg.exec.conflictType == Some(InputConflictSuspected) && LastingContention(agg.exec.conflictDetails))
  {
  }

  /** Rebuilding is only ever advised for a corroborated terminal spend or for contention that outlasted its grace. */
  lemma RebuildIsJustified(policy: Policy, required: nat, requests: seq<Request>)
    ensures var agg := Run(Init(policy, required), requests).agg;
            Rebuilds(Advice(agg)) ==>
              || (agg.exec.conflictType == Some(InputSpent) && agg.exec.snapshot.workflow.Conflicted?
                  && SpendProven(agg.exec.conflictDetails))
              || (agg.exec.conflictType == Some(InputConflictSuspected) && LastingContention(agg.exec.conflictDetails))
  {
    RunKeeps(policy, required, requests);
    JustifiedAdvice(Run(Init(policy, required), requests).agg);
  }

  /** At most one attempt is ever confirmed, it is the active one, and a winner has no running competitor. */
  lemma OneConfirmedAttempt(policy: Policy, required: nat, requests: seq<Request>)
    ensures var agg := Run(Init(policy, required), requests).agg;
            && (forall i, j | 0 <= i < |agg.attempts| && 0 <= j < |agg.attempts| ::
                  agg.attempts[i].disposition.Won? && agg.attempts[j].disposition.Won? ==> i == j)
            && (forall i :: 0 <= i < |agg.attempts| && agg.attempts[i].disposition.Won? ==> agg.active == Some(i))
            && (agg.winning.Some? ==> agg.winning == agg.active && !HasCandidate(agg))
  {
    RunKeeps(policy, required, requests);
  }
}
