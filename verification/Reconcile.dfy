/** One reconciliation pass as a function of what was read and what the nodes answered (workflows/reconcile/src). */
module Reconcile {
  import opened Prelude
  import opened Types
  import opened StateMachine
  import opened ConflictEvidence
  import opened Rpc
  import opened Store

  /** The verdict on the block a live Cell was reported from. */
  datatype LiveBlock = NoBlock | CanonicalBlock | ForeignBlock | UnverifiedBlock

  datatype LiveAnswer = LiveFails | LiveCell(ok: bool, block: LiveBlock)

  /** One required Cell: whether the transaction creates it and, in live mode, what the endpoint says of it. */
  datatype CellCheck = CellCheck(created: bool, live: Option<LiveAnswer>)

  datatype PollResult = PollFailed(at: int) | PollAnswered(endpoint: string, answers: Answers)

  datatype Poll = Poll(
    urls: seq<string>,
    result: PollResult,
    others: map<string, Answers>,
    checks: seq<CellCheck>,
    graceMs: int,
    monitorMs: nat,
    now: int)

  // ---- Scheduling and monitoring -----------------------------------------------------------------------------------

  function NextDelay(attempt: nat, chain: ChainStatus): int {
    if Seen(chain) then 12000
    else if chain.Unknown? || chain.Unobserved? then Min(300000, 10000 * Pow2(Min(attempt, 5)))
    else 20000
  }

  predicate ContinueMonitoring(ready: bool, firstReadyAt: Option<int>, now: int, horizon: nat) {
    ready && horizon > 0 && firstReadyAt.Some? && now < firstReadyAt.value + horizon
  }

  predicate ShouldReverify(
    settled: bool, verified: bool, priorHash: Option<string>, currentHash: Option<string>, reorg: bool)
  {
    !settled || !verified || reorg || !Present(priorHash) || !Present(currentHash) || priorHash != currentHash
  }

  predicate IsTerminal(s: Snapshot, assertion: Option<AssertionStatus>, required: nat) {
    || s.workflow.Conflicted? || s.workflow.Expired? || s.chain.Rejected?
    || (s.workflow.Confirmed? && (required == 0 || assertion == Some(AssertionVerified)))
  }

  // ---- Conflict evidence -------------------------------------------------------------------------------------------

  predicate HasRole(inputs: seq<InputObservation>, spent: bool, role: InputRole) {
    exists i :: 0 <= i < |inputs| && Concerned(inputs[i], spent) && inputs[i].input.role == role
  }

  /** The observations a domain is derived from: the spent inputs, or the contended ones. */
  predicate Concerned(o: InputObservation, spent: bool) {
    if spent then o.canonical.Spent? else o.canonical.Live? && !o.available
  }

  function ConflictDomainOf(inputs: seq<InputObservation>, spent: bool): ConflictDomain {
    var application := HasRole(inputs, spent, ApplicationState);
    var wallet := HasRole(inputs, spent, WalletFunding) || HasRole(inputs, spent, Fee);
    var unknown := HasRole(inputs, spent, Dependency) || HasRole(inputs, spent, Other);
    if application && wallet then MixedDomain
    else if application && !unknown then ApplicationDomain
    else if wallet && !unknown then WalletDomain
    else UnknownDomain
  }

  function ContentionDetails(prior: Option<Details>, inspection: Inspection, graceMs: int): Details {
    var record := AsRecord(prior);
    var same := record.classification == Some(MempoolContended);
    var first := if same && record.firstObservedAt.Some? then record.firstObservedAt.value else inspection.at;
    var grace := if same && record.graceMs.Some? then record.graceMs.value else graceMs;
    EMPTY_DETAILS.(
      classification := Some(MempoolContended),
      firstObservedAt := Some(first), lastObservedAt := Some(inspection.at),
      graceMs := Some(grace), graceExpired := inspection.at >= first + grace,
      domain := Some(ConflictDomainOf(inspection.inputs, false)))
  }

  function Unique(urls: seq<string>): (unique: seq<string>)
    ensures forall u :: u in unique <==> u in urls
    ensures forall i, j :: 0 <= i < j < |unique| ==> unique[i] != unique[j]
  {
    if urls == [] then []
    else
      var before := Unique(urls[..|urls| - 1]);
      assert urls == urls[..|urls| - 1] + [urls[|urls| - 1]];
      if urls[|urls| - 1] in before then before else before + [urls[|urls| - 1]]
  }

  function SecondView(endpoint: string, targets: seq<InputRef>, others: map<string, Answers>): EndpointView {
    EndpointView(endpoint, if endpoint in others then Some(Inspect(targets, endpoint, others[endpoint]).state) else None)
  }

  /** Ask the remaining endpoints in order until one of them reports the spend too. */
  function AskOthers(
    endpoints: seq<string>, primary: string, targets: seq<InputRef>, others: map<string, Answers>, views: seq<EndpointView>)
    : Corroboration
  {
    if endpoints == [] then Corroboration(false, 2, views)
    else if endpoints[0] == primary then AskOthers(endpoints[1..], primary, targets, others, views)
    else
      var view := SecondView(endpoints[0], targets, others);
      if view.state == Some(CanonicallySpent) then Corroboration(true, 2, views + [view])
      else AskOthers(endpoints[1..], primary, targets, others, views + [view])
  }

  function Corroborate(
    urls: seq<string>, primary: Inspection, targets: seq<InputRef>, others: map<string, Answers>): Corroboration
  {
    var unique := Unique(urls);
    var views := [EndpointView(primary.endpoint, Some(primary.state))];
    if |unique| < 2 then Corroboration(primary.state.CanonicallySpent?, 1, views)
    else AskOthers(unique, primary.endpoint, targets, others, views)
  }

  /** A second configured endpoint, other than the first, inspects the inputs as spent. */
  predicate SecondEndpointSpent(endpoints: seq<string>, primary: string, targets: seq<InputRef>, others: map<string, Answers>) {
    exists i :: 0 <= i < |endpoints| && endpoints[i] != primary && endpoints[i] in others
                && Inspect(targets, endpoints[i], others[endpoints[i]]).state.CanonicallySpent?
  }

  lemma {:induction false} AskOthersConfirmsExactlyWhen(
    endpoints: seq<string>, primary: string, targets: seq<InputRef>, others: map<string, Answers>, views: seq<EndpointView>)
    ensures AskOthers(endpoints, primary, targets, others, views).confirmed
            <==> SecondEndpointSpent(endpoints, primary, targets, others)
  {
    if endpoints != [] {
      AskOthersConfirmsExactlyWhen(endpoints[1..], primary, targets, others, views);
      AskOthersConfirmsExactlyWhen(endpoints[1..], primary, targets, others,
                                   views + [SecondView(endpoints[0], targets, others)]);
      assert forall i :: 0 < i < |endpoints| ==> endpoints[i] == endpoints[1..][i - 1];
      assert forall i :: 0 <= i < |endpoints[1..]| ==> endpoints[1..][i] == endpoints[i + 1];
    }
  }

  /** A spend is corroborated by two different endpoints as soon as two different ones are configured. */
  lemma CorroborationMeansTwoEndpoints(
    urls: seq<string>, primary: Inspection, targets: seq<InputRef>, others: map<string, Answers>)
    requires primary.state.CanonicallySpent?
    ensures Corroborate(urls, primary, targets, others).confirmed <==>
            ((exists i, j :: 0 <= i < |urls| && 0 <= j < |urls| && urls[i] != urls[j])
             ==> SecondEndpointSpent(urls, primary.endpoint, targets, others))
  {
    var unique := Unique(urls);
    AskOthersConfirmsExactlyWhen(unique, primary.endpoint, targets, others, [EndpointView(primary.endpoint, Some(primary.state))]);
    if i, j :| 0 <= i < |urls| && 0 <= j < |urls| && urls[i] != urls[j] {
      assert urls[i] in unique && urls[j] in unique;
      var a :| 0 <= a < |unique| && unique[a] == urls[i];
      var b :| 0 <= b < |unique| && unique[b] == urls[j];
    }
    if |unique| >= 2 {
      assert unique[0] in urls && unique[1] in urls;
    }
    if i :| 0 <= i < |unique| && unique[i] != primary.endpoint && unique[i] in others
            && Inspect(targets, unique[i], others[unique[i]]).state.CanonicallySpent? {
      assert unique[i] in urls;
    }
    if i :| 0 <= i < |urls| && urls[i] != primary.endpoint && urls[i] in others
            && Inspect(targets, urls[i], others[urls[i]]).state.CanonicallySpent? {
      assert urls[i] in unique;
    }
  }

  // ---- Cell assertions ---------------------------------------------------------------------------------------------

  predicate CellHolds(check: CellCheck) {
    check.created
    && (check.live.Some? ==> check.live.value.LiveCell? && check.live.value.ok
                             && (check.live.value.block.NoBlock? || check.live.value.block.CanonicalBlock?))
  }

  predicate CellFails(check: CellCheck) {
    !check.created
    || (check.live.Some? && check.live.value.LiveCell? && (!check.live.value.ok || check.live.value.block.ForeignBlock?))
  }

  function CheckAt(checks: seq<CellCheck>, i: nat): CellCheck {
    if i < |checks| then checks[i] else CellCheck(true, Some(LiveFails))
  }

  /** The verdict of the first Cell, from number k on, that does not hold. */
  function EvaluateCells(checks: seq<CellCheck>, required: nat, k: nat): AssertionStatus
    requires k <= required
    decreases required - k
  {
    if k == required then AssertionVerified
    else if CellHolds(CheckAt(checks, k)) then EvaluateCells(checks, required, k + 1)
    else if CellFails(CheckAt(checks, k)) then AssertionFailed
    else AssertionPending
  }

  lemma {:induction false} VerifiedMeansAllHold(checks: seq<CellCheck>, required: nat, k: nat)
    requires k <= required
    ensures EvaluateCells(checks, required, k).AssertionVerified? <==>
            forall i :: k <= i < required ==> CellHolds(CheckAt(checks, i))
    decreases required - k
  {
    if k < required {
      VerifiedMeansAllHold(checks, required, k + 1);
    }
  }

  function Evaluate(body: Option<TxBody>, checks: seq<CellCheck>, required: nat): AssertionStatus {
    if body.None? then AssertionPending else EvaluateCells(checks, required, 0)
  }

  // ---- The pass ----------------------------------------------------------------------------------------------------

  /** The locals that a pass reassigns until it writes them. */
  datatype Draft = Draft(
    snapshot: Snapshot, kind: EventKind, assertion: Option<AssertionStatus>,
    conflictType: Option<ConflictType>, conflictDetails: Option<Details>)

  function PriorCommitOf(s: Snapshot): Option<PriorCommit> {
    if Present(s.blockHash) && Present(s.blockNumber) then Some(PriorCommit(s.blockHash.value, s.blockNumber.value)) else None
  }

  function TargetsOf(refs: seq<InputRef>, inputs: seq<OutPoint>): seq<InputRef> {
    if refs != [] then refs else NeutralRefs(inputs)
  }

  function Targets(exec: Execution): seq<InputRef> {
    TargetsOf(exec.refs, exec.inputs)
  }

  function BundleFor(read: Aggregate, endpoint: string, answers: Answers): Bundle {
    Observe(PriorCommitOf(read.exec.snapshot), Targets(read.exec), endpoint, answers)
  }

  predicate FingerprintDiffers(expected: Option<string>, bundle: Bundle) {
    Present(expected) && bundle.body.Some? && Present(bundle.body.value.fingerprint) && bundle.body.value.fingerprint != expected
  }

  function ExpectedPayload(read: Aggregate): Option<string> {
    if ActiveAttempt(read).Some? then ActiveAttempt(read).value.payloadHash else None
  }

  function AfterObservation(read: Aggregate, bundle: Bundle, applied: Applied): Draft {
    var exec := read.exec;
    var seen := Seen(bundle.observation.status);
    var superseded := exec.snapshot.submission.NodeRejected? && seen;
    var snapshot := SupersedeNodeRejection(applied.snapshot, bundle.observation.status);
    var draft := Draft(snapshot, applied.kind, exec.assertion, exec.conflictType, exec.conflictDetails);
    if seen && FingerprintDiffers(ExpectedPayload(read), bundle) then
      draft.(snapshot := snapshot.(workflow := Conflicted), kind := PayloadMismatchFound,
             conflictType := Some(SignedPayloadMismatch),
             conflictDetails := Some(EMPTY_DETAILS.(classification := Some(PayloadMismatch))))
    else if seen then
      draft.(conflictType := None, conflictDetails := None,
             kind := if superseded then SubmissionRejectionSuperseded else draft.kind)
    else draft
  }

  function SpentView(inspection: Inspection): SpentInspection {
    SpentInspection(inspection.at, inspection.tip)
  }

  function AfterSpentInspection(read: Aggregate, poll: Poll, inspection: Inspection, draft: Draft): Draft {
    var prior := read.exec.conflictDetails;
    var next := NextSpent(prior, SpentView(inspection)).(domain := Some(ConflictDomainOf(inspection.inputs, true)));
    if !Matured(read.exec.snapshot.policy, prior, SpentView(inspection)) then
      draft.(conflictType := Some(InputConflictSuspected), conflictDetails := Some(next), kind := InputSpentObserved)
    else
      var corroboration := Corroborate(poll.urls, inspection, Targets(read.exec), poll.others);
      if corroboration.confirmed then
        draft.(snapshot := draft.snapshot.(workflow := Conflicted), kind := InputConflictConfirmed,
               conflictType := Some(InputSpent),
               conflictDetails := Some(next.(classification := Some(SpentConfirmed), canonicalSpendConfirmed := true,
                                             corroboration := Some(corroboration))))
      else
        draft.(conflictType := Some(InputConflictSuspected), kind := InputConflictCorroborationPending,
               conflictDetails := Some(next.(corroboration := Some(corroboration))))
  }

  function AfterInspection(read: Aggregate, poll: Poll, inspection: Inspection, draft: Draft): Draft {
    match inspection.state
    case Contended =>
      var details := ContentionDetails(read.exec.conflictDetails, inspection, poll.graceMs);
      draft.(conflictType := Some(InputConflictSuspected), conflictDetails := Some(details),
             kind := if details.graceExpired && !AsRecord(read.exec.conflictDetails).graceExpired
                     then InputContentionGraceExpired else InputPoolContentionDetected)
    case CanonicallySpent => AfterSpentInspection(read, poll, inspection, draft)
    case AllLive => draft.(conflictType := None, conflictDetails := None, kind := InputStateInspected)
    case Uncertain =>
      var broken := BreakContinuity(draft.conflictDetails);
      var hadSpent := AsRecord(draft.conflictDetails).classification == Some(SpentObserved);
      draft.(conflictType := if hadSpent then Some(InputConflictSuspected) else draft.conflictType,
             conflictDetails := broken, kind := InputStateUncertain)
  }

  function AfterEvidence(read: Aggregate, poll: Poll, bundle: Bundle, applied: Applied): Draft {
    var draft := AfterObservation(read, bundle, applied);
    if bundle.observation.status.Unknown? && bundle.inspection.Some?
    then AfterInspection(read, poll, bundle.inspection.value, draft)
    else draft
  }

  /** The Cells have to be checked, again or for the first time, before this snapshot may settle. */
  predicate MustCheckCells(read: Aggregate, applied: Applied, draft: Draft) {
    && draft.snapshot.workflow.Confirmed? && read.required > 0
    && ShouldReverify(read.exec.settlementReadyAt.Some?, read.exec.assertion == Some(AssertionVerified),
                      read.exec.snapshot.blockHash, draft.snapshot.blockHash, applied.reorgDetected)
  }

  function AfterCells(read: Aggregate, poll: Poll, bundle: Bundle, applied: Applied): Draft {
    var evidence := AfterEvidence(read, poll, bundle, applied);
    var draft := if applied.reorgDetected || evidence.snapshot.workflow.Reorged? then evidence.(assertion := None) else evidence;
    if !MustCheckCells(read, applied, draft) then draft
    else
      var verdict := Evaluate(bundle.body, poll.checks, read.required);
      var checked := draft.(assertion := Some(verdict));
      match verdict
      case AssertionVerified => checked.(kind := CellsVerified)
      case AssertionPending => checked
      case AssertionFailed =>
        checked.(snapshot := draft.snapshot.(workflow := Conflicted), kind := CellsFailed,
                 conflictType := Some(ExpectedCellAssertionFailed),
                 conflictDetails := Some(EMPTY_DETAILS.(classification := Some(CellAssertionFailed))))
  }

  predicate IsCandidate(agg: Aggregate, id: AttemptId) {
    id < |agg.attempts| && agg.attempts[id].disposition.Active? && agg.active != Some(id)
  }

  predicate HasCandidate(agg: Aggregate) {
    exists id :: 0 <= id < |agg.attempts| && IsCandidate(agg, id)
  }

  /** The intent stays settled and its monitoring period lasts. */
  predicate Monitors(read: Aggregate, poll: Poll, bundle: Bundle, draft: Draft) {
    var ready := SettlementIsReady(draft.snapshot, draft.assertion, read.required, draft.conflictType);
    var firstReadyAt := if ready then OrElse(read.exec.settlementReadyAt, Some(bundle.observation.at)) else None;
    ContinueMonitoring(ready, firstReadyAt, poll.now, poll.monitorMs)
  }

  predicate Competes(read: Aggregate, draft: Draft) {
    !draft.snapshot.workflow.Confirmed? && HasCandidate(read)
  }

  /** What the pass reports to its caller as terminal. */
  predicate ReportsTerminal(read: Aggregate, poll: Poll, bundle: Bundle, draft: Draft) {
    IsTerminal(draft.snapshot, draft.assertion, read.required) && !Competes(read, draft) && !Monitors(read, poll, bundle, draft)
  }

  function NextReconcile(read: Aggregate, poll: Poll, bundle: Bundle, draft: Draft): Option<int> {
    var resolved := !Competes(read, draft) && bundle.observation.status.Unknown? && read.exec.snapshot.submission.NodeRejected?
                    && draft.conflictType.None?;
    if ReportsTerminal(read, poll, bundle, draft) || resolved then None
    else if Monitors(read, poll, bundle, draft) then Some(poll.now + Min(60000, Max(12000, poll.monitorMs / 20)))
    else Some(poll.now + NextDelay(read.exec.reconcileAttempts, draft.snapshot.chain))
  }

  /** The write of a pass whose every endpoint failed: absence of evidence. */
  function OutageOutcome(read: Aggregate, at: int, now: int): Result<SnapshotInput, Error> {
    var applied := ApplyChainObservation(read.exec.snapshot, Observation(Unknown, at, None, None, None, None, None));
    if applied.Err? then Err(InvalidTransition)
    else Ok(SnapshotInput(
      applied.value.snapshot, applied.value.kind, applied.value.fromOverall, applied.value.toOverall, at,
      Some(now + NextDelay(read.exec.reconcileAttempts, Unknown)),
      read.exec.assertion, read.exec.conflictType, BreakContinuity(read.exec.conflictDetails)))
  }

  function AnsweredOutcome(read: Aggregate, poll: Poll, endpoint: string, answers: Answers): Result<SnapshotInput, Error> {
    var bundle := BundleFor(read, endpoint, answers);
    var applied := ApplyChainObservation(read.exec.snapshot, bundle.observation);
    if applied.Err? then Err(InvalidTransition)
    else
      var draft := AfterCells(read, poll, bundle, applied.value);
      Ok(SnapshotInput(
        draft.snapshot, draft.kind, applied.value.fromOverall, Overall(draft.snapshot), bundle.observation.at,
        NextReconcile(read, poll, bundle, draft), draft.assertion, draft.conflictType, draft.conflictDetails))
  }

  /** The result of a pass says terminal; an outage never does. */
  predicate TerminalOutcome(read: Aggregate, poll: Poll) {
    && read.exec.txHash.Some? && poll.urls != [] && poll.result.PollAnswered?
    && var bundle := BundleFor(read, poll.result.endpoint, poll.result.answers);
       var applied := ApplyChainObservation(read.exec.snapshot, bundle.observation);
       applied.Ok? && ReportsTerminal(read, poll, bundle, AfterCells(read, poll, bundle, applied.value))
  }

  function ReconcileOutcome(read: Aggregate, poll: Poll): Result<SnapshotInput, Error> {
    if read.exec.txHash.None? then Err(InvalidTxHash)
    else if poll.urls == [] then Err(NoEndpoint)
    else match poll.result
      case PollFailed(at) => OutageOutcome(read, at, poll.now)
      case PollAnswered(endpoint, answers) => AnsweredOutcome(read, poll, endpoint, answers)
  }

  // ---- The scan of competing candidates ----------------------------------------------------------------------------

  datatype ScanOutcome =
    | NoWrite
    | SideUpdate(snapshot: Snapshot, conflictType: Option<ConflictType>, details: Option<Details>)
    | Promotion(input: PromoteInput)

  function CandidateBase(read: Aggregate, candidate: Attempt): Snapshot {
    InitialSnapshot(read.exec.snapshot.policy).(
      submission := if candidate.submission.NotSubmitted? then Submitted else candidate.submission,
      chain := candidate.chain, workflow := candidate.workflow)
  }

  function ScanCandidate(read: Aggregate, id: AttemptId, result: PollResult, now: int): ScanOutcome
    requires id < |read.attempts|
  {
    if result.PollFailed? then NoWrite
    else
      var candidate := read.attempts[id];
      var bundle := Observe(None, TargetsOf(candidate.refs, candidate.inputs), result.endpoint, result.answers);
      var base := CandidateBase(read, candidate);
      var applied := ApplyChainObservation(base, bundle.observation);
      if bundle.observation.status.Committed? && FingerprintDiffers(candidate.payloadHash, bundle) then
        SideUpdate(base.(workflow := Conflicted), Some(SignedPayloadMismatch),
                   Some(EMPTY_DETAILS.(classification := Some(PayloadMismatch))))
      else if applied.Err? then NoWrite
      else if !bundle.observation.status.Committed? then SideUpdate(applied.value.snapshot, None, None)
      else Promotion(PromoteInput(
        id, applied.value.snapshot,
        if applied.value.snapshot.workflow.Confirmed? then CompetingAttemptConfirmed else CompetingAttemptCommitted,
        bundle.observation.at, Some(now + 12000)))
  }
}
