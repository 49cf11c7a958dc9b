/** What a pass keeps as evidence about the inputs, whose inputs they are, and what is advised because of it. */
module Findings {
  import opened Prelude
  import opened Types
  import opened StateMachine
  import opened Transitions
  import opened ConflictEvidence
  import opened Rpc
  import opened Store
  import opened Reconcile
  import opened Machine
  import opened Verdicts
  import opened Service

  // ---- Whose inputs ------------------------------------------------------------------------------------------------

  /** Input i is one of those the finding is about: gone, or held by another transaction in the pool. */
  predicate Concerns(targets: seq<InputRef>, a: Answers, spent: bool, i: nat)
    requires i < |targets|
  {
    if spent then IsGone(targets, a, i) else IsLive(a, i) && !IsFree(a, i)
  }

  predicate IsApplications(role: InputRole) {
    role.ApplicationState?
  }

  predicate IsWallets(role: InputRole) {
    role.WalletFunding? || role.Fee?
  }

  /** Every concerned input is of this kind, and there is one. */
  predicate All(targets: seq<InputRef>, a: Answers, spent: bool, kind: InputRole -> bool) {
    && (exists i :: 0 <= i < |targets| && Concerns(targets, a, spent, i))
    && (forall i :: 0 <= i < |targets| && Concerns(targets, a, spent, i) ==> kind(targets[i].role))
  }

  predicate Any(targets: seq<InputRef>, a: Answers, spent: bool, kind: InputRole -> bool) {
    exists i :: 0 <= i < |targets| && Concerns(targets, a, spent, i) && kind(targets[i].role)
  }

  function DomainFound(targets: seq<InputRef>, endpoint: string, a: Answers, spent: bool): ConflictDomain {
    ConflictDomainOf(Inspect(targets, endpoint, a).inputs, spent)
  }

  lemma ConcernedMeans(targets: seq<InputRef>, endpoint: string, a: Answers, spent: bool, i: nat)
    requires i < |targets|
    ensures var inputs := Inspect(targets, endpoint, a).inputs;
            inputs[i].input == targets[i] && (Concerned(inputs[i], spent) <==> Concerns(targets, a, spent, i))
  {
    assert Inspect(targets, endpoint, a).inputs[i] == ObserveInput(targets[i], AnswerAt(a.inputs, i));
  }

  lemma RoleMeans(targets: seq<InputRef>, endpoint: string, a: Answers, spent: bool, role: InputRole)
    ensures HasRole(Inspect(targets, endpoint, a).inputs, spent, role) <==>
            exists i :: 0 <= i < |targets| && Concerns(targets, a, spent, i) && targets[i].role == role
  {
    var inputs := Inspect(targets, endpoint, a).inputs;
    forall i | 0 <= i < |targets|
      ensures inputs[i].input == targets[i] && (Concerned(inputs[i], spent) <==> Concerns(targets, a, spent, i))
    {
      ConcernedMeans(targets, endpoint, a, spent, i);
    }
  }

  predicate IsForeign(role: InputRole) {
    !IsApplications(role) && !IsWallets(role)
  }

  lemma RolesFound(targets: seq<InputRef>, endpoint: string, a: Answers, spent: bool)
    ensures var inputs := Inspect(targets, endpoint, a).inputs;
            && (HasRole(inputs, spent, ApplicationState) <==> Any(targets, a, spent, IsApplications))
            && (HasRole(inputs, spent, WalletFunding) || HasRole(inputs, spent, Fee) <==> Any(targets, a, spent, IsWallets))
            && (HasRole(inputs, spent, Dependency) || HasRole(inputs, spent, Other) <==> Any(targets, a, spent, IsForeign))
  {
    RoleMeans(targets, endpoint, a, spent, ApplicationState);
    RoleMeans(targets, endpoint, a, spent, WalletFunding);
    RoleMeans(targets, endpoint, a, spent, Fee);
    RoleMeans(targets, endpoint, a, spent, Dependency);
    RoleMeans(targets, endpoint, a, spent, Other);
  }

  lemma AllMeansNoOther(targets: seq<InputRef>, a: Answers, spent: bool)
    ensures All(targets, a, spent, IsApplications) <==>
              Any(targets, a, spent, IsApplications) && !Any(targets, a, spent, IsWallets) && !Any(targets, a, spent, IsForeign)
    ensures All(targets, a, spent, IsWallets) <==>
              Any(targets, a, spent, IsWallets) && !Any(targets, a, spent, IsApplications) && !Any(targets, a, spent, IsForeign)
  {
  }

  /** The domain of a conflict: APPLICATION or WALLET when all its inputs are, MIXED when both kinds are among them. */
  lemma DomainExactlyWhen(targets: seq<InputRef>, endpoint: string, a: Answers, spent: bool)
    ensures var domain := DomainFound(targets, endpoint, a, spent);
            && (domain.ApplicationDomain? <==> All(targets, a, spent, IsApplications))
            && (domain.WalletDomain? <==> All(targets, a, spent, IsWallets))
            && (domain.MixedDomain? <==> Any(targets, a, spent, IsApplications) && Any(targets, a, spent, IsWallets))
  {
    RolesFound(targets, endpoint, a, spent);
    AllMeansNoOther(targets, a, spent);
  }

  // ---- The evidence kept -------------------------------------------------------------------------------------------

  predicate IsContention(details: Option<Details>) {
    details.Some? && details.value.classification == Some(MempoolContended)
  }

  /** Since when the contention has been seen, and how long it may last: kept from its first sighting on. */
  function ContendedSince(prior: Option<Details>, at: int): int {
    if IsContention(prior) && prior.value.firstObservedAt.Some? then prior.value.firstObservedAt.value else at
  }

  function GraceOf(prior: Option<Details>, graceMs: int): int {
    if IsContention(prior) && prior.value.graceMs.Some? then prior.value.graceMs.value else graceMs
  }

  lemma ContentionRecords(prior: Option<Details>, inspection: Inspection, graceMs: int)
    ensures var d, since := ContentionDetails(prior, inspection, graceMs), ContendedSince(prior, inspection.at);
            && d.classification == Some(MempoolContended) && d.domain == Some(ConflictDomainOf(inspection.inputs, false))
            && d.firstObservedAt == Some(since) && d.lastObservedAt == Some(inspection.at)
            && d.graceMs == Some(GraceOf(prior, graceMs))
            && (d.graceExpired <==> inspection.at - since >= GraceOf(prior, graceMs))
  {
  }

  /** One contended inspection after another, each with the grace period configured then. */
  function Contend(start: Option<Details>, run: seq<Inspection>, graces: seq<int>): Option<Details>
    requires |run| == |graces|
  {
    if run == [] then start
    else Some(ContentionDetails(Contend(start, run[..|run| - 1], graces[..|run| - 1]), run[|run| - 1], graces[|run| - 1]))
  }

  /** An unbroken run of contended inspections outlasts the grace configured at its start exactly when it spans it. */
  lemma {:induction false} ContentionIsSummary(start: Option<Details>, run: seq<Inspection>, graces: seq<int>)
    requires !IsContention(start) && |run| == |graces| && run != []
    ensures var d := Contend(start, run, graces);
            && IsContention(d)
            && d.value.firstObservedAt == Some(run[0].at) && d.value.lastObservedAt == Some(run[|run| - 1].at)
            && d.value.graceMs == Some(graces[0])
            && (d.value.graceExpired <==> run[|run| - 1].at - run[0].at >= graces[0])
  {
    var n := |run| - 1;
    if n > 0 {
      ContentionIsSummary(start, run[..n], graces[..n]);
    }
    ContentionRecords(Contend(start, run[..n], graces[..n]), run[n], graces[n]);
  }

  /** What a pass that finds the inputs gone keeps: the accumulated spend evidence, and how far it has been proved. */
  predicate KeepsSpend(read: Aggregate, p: Poll, d: Details)
    requires Writes(read, p)
  {
    var a := p.result.answers;
    var spent := NextSpent(read.exec.conflictDetails, SpentInspection(a.inspectedAt, a.inspectionTip));
    && d.firstObservedAt == spent.firstObservedAt && d.firstTip == spent.firstTip
    && d.lastObservedAt == spent.lastObservedAt && d.lastTip == spent.lastTip && d.spentCount == spent.spentCount
    && !d.continuityBroken
    && d.domain == Some(DomainFound(Targets(read.exec), p.result.endpoint, a, true))
    && d.classification == Some(if SpendIsProved(read, p, p.result.endpoint, a) then SpentConfirmed else SpentObserved)
    && (d.canonicalSpendConfirmed <==> SpendIsProved(read, p, p.result.endpoint, a))
    && (d.corroboration.Some? <==> SpendMatured(read, a))
  }

  predicate KeepsContention(read: Aggregate, p: Poll, d: Details)
    requires Writes(read, p)
  {
    var prior, at := read.exec.conflictDetails, p.result.answers.inspectedAt;
    && d.classification == Some(MempoolContended)
    && d.domain == Some(DomainFound(Targets(read.exec), p.result.endpoint, p.result.answers, false))
    && d.firstObservedAt == Some(ContendedSince(prior, at)) && d.lastObservedAt == Some(at)
    && d.graceMs == Some(GraceOf(prior, p.graceMs))
    && (d.graceExpired <==> at - ContendedSince(prior, at) >= GraceOf(prior, p.graceMs))
  }

  /** The details of spent inputs carry the accumulated evidence, and the corroboration once it is mature enough to be asked for. */
  lemma SpentDetails(read: Aggregate, p: Poll, inspection: Inspection, draft: Draft)
    ensures var after := AfterSpentInspection(read, p, inspection, draft).conflictDetails;
            var spent := NextSpent(read.exec.conflictDetails, SpentView(inspection));
            var matured := Matured(read.exec.snapshot.policy, read.exec.conflictDetails, SpentView(inspection));
            var proved := matured && Corroborate(p.urls, inspection, Targets(read.exec), p.others).confirmed;
            && after.Some?
            && after.value == spent.(domain := Some(ConflictDomainOf(inspection.inputs, true)),
                                     classification := Some(if proved then SpentConfirmed else SpentObserved),
                                     canonicalSpendConfirmed := proved, corroboration := after.value.corroboration)
            && (after.value.corroboration.Some? <==> matured)
  {
  }

  lemma SpendEvidence(read: Aggregate, p: Poll, draft: Draft)
    requires Writes(read, p) && InputsGone(read, p.result.answers)
    ensures var after := AfterInspection(read, p, InspectionOf(read, p), draft).conflictDetails;
            after.Some? && KeepsSpend(read, p, after.value)
  {
    var inspection := InspectionOf(read, p);
    InputStateExactlyWhen(Targets(read.exec), p.result.endpoint, p.result.answers);
    CorroborationMeansTwoEndpoints(p.urls, inspection, Targets(read.exec), p.others);
    SpentDetails(read, p, inspection, draft);
    assert AfterInspection(read, p, inspection, draft) == AfterSpentInspection(read, p, inspection, draft);
  }

  lemma ContentionEvidence(read: Aggregate, p: Poll, draft: Draft)
    requires Writes(read, p) && InputsLive(read, p.result.answers) && !InputsFree(read, p.result.answers)
    ensures var after := AfterInspection(read, p, InspectionOf(read, p), draft).conflictDetails;
            after.Some? && KeepsContention(read, p, after.value)
  {
    InputStateExactlyWhen(Targets(read.exec), p.result.endpoint, p.result.answers);
    ContentionRecords(read.exec.conflictDetails, InspectionOf(read, p), p.graceMs);
  }

  lemma OtherEvidence(read: Aggregate, p: Poll, draft: Draft)
    requires Writes(read, p) && InputsInspected(read, p.result.answers) && draft.conflictDetails == read.exec.conflictDetails
    requires !InputsGone(read, p.result.answers)
    requires InputsFree(read, p.result.answers) || !InputsLive(read, p.result.answers)
    ensures AfterInspection(read, p, InspectionOf(read, p), draft).conflictDetails
            == if InputsFree(read, p.result.answers) then None else BreakContinuity(read.exec.conflictDetails)
  {
    InputStateExactlyWhen(Targets(read.exec), p.result.endpoint, p.result.answers);
  }

  /** The evidence after a pass. */
  lemma EvidenceAfterPass(db: Db, p: Poll)
    requires Writes(db.agg, p)
    ensures var read, a, after := db.agg, p.result.answers, Step(db, PollReq(p)).agg.exec.conflictDetails;
            && (if CellsRefutedBy(read, p) then after == Some(EMPTY_DETAILS.(classification := Some(CellAssertionFailed)))
                else if PayloadDiffers(read, a) then after == Some(EMPTY_DETAILS.(classification := Some(PayloadMismatch)))
                else if ShowsTransaction(a) || InputsFree(read, a) then after.None?
                else if InputsGone(read, a) then after.Some? && KeepsSpend(read, p, after.value)
                else if InputsLive(read, a) then after.Some? && KeepsContention(read, p, after.value)
                else if InputsInspected(read, a) then after == BreakContinuity(read.exec.conflictDetails)
                else after == read.exec.conflictDetails)
  {
    var read, a := db.agg, p.result.answers;
    PassWritesDraft(db, p);
    ObservedCases(read, p);
    EvidenceCases(read, p);
    RefutedDetails(read, p);
    if InputsGone(read, a) {
      SpendEvidence(read, p, ObservedOf(read, p));
      FreeOrGone(read, a);
    } else if InputsLive(read, a) && !InputsFree(read, a) {
      ContentionEvidence(read, p, ObservedOf(read, p));
    } else if InputsInspected(read, a) {
      OtherEvidence(read, p, ObservedOf(read, p));
    } else if PayloadDiffers(read, a) {
      DiffersDetails(read, p);
    }
  }

  lemma RefutedDetails(read: Aggregate, p: Poll)
    requires Writes(read, p)
    ensures DraftOf(read, p).conflictDetails ==
              if CellsRefutedBy(read, p) then Some(EMPTY_DETAILS.(classification := Some(CellAssertionFailed)))
              else EvidenceOf(read, p).conflictDetails
  {
    CellStage(read, p);
  }

  lemma DiffersDetails(read: Aggregate, p: Poll)
    requires Writes(read, p) && PayloadDiffers(read, p.result.answers)
    ensures ObservedOf(read, p).conflictDetails == Some(EMPTY_DETAILS.(classification := Some(PayloadMismatch)))
  {
    ObservationReads(read, p);
  }

  // ---- What is advised ---------------------------------------------------------------------------------------------

  /** A refuted Cell ends the intent. */
  predicate FailureEnds(agg: Aggregate) {
    agg.exec.assertion == Some(AssertionFailed) ==> agg.exec.snapshot.workflow.Conflicted?
  }

  lemma StepKeepsFailure(db: Db, request: Request)
    requires FailureEnds(db.agg)
    ensures FailureEnds(Step(db, request).agg)
  {
    match request
    case PollReq(p) =>
      if Writes(db.agg, p) {
        FindingsAfterPass(db, p);
        WorkflowAfterPass(db, p);
      }
    case _ =>
  }

  lemma {:induction false} FailureAlwaysEnds(policy: Policy, required: nat, requests: seq<Request>)
    ensures FailureEnds(Run(Init(policy, required), requests).agg)
  {
    if requests != [] {
      FailureAlwaysEnds(policy, required, requests[..|requests| - 1]);
      StepKeepsFailure(Run(Init(policy, required), requests[..|requests| - 1]), requests[|requests| - 1]);
    }
  }

  function AdviceOf(exec: Execution, required: nat): RecommendedAction {
    RecommendedActionFor(exec.snapshot, exec.conflictType, exec.assertion, exec.conflictDetails, exec.submissionError, required)
  }

  /** The advice says whose inputs have to be replaced. */
  predicate AdvisesFor(advice: RecommendedAction, targets: seq<InputRef>, a: Answers, spent: bool) {
    && (advice.RecollectWalletInputs? <==> All(targets, a, spent, IsWallets))
    && (advice.RebuildFromLiveState? <==> All(targets, a, spent, IsApplications))
    && (advice.RebuildAndResign? <==> Any(targets, a, spent, IsApplications) && Any(targets, a, spent, IsWallets))
    && (advice in {RecollectWalletInputs, RebuildFromLiveState, RebuildAndResign, ManualReview})
  }

  lemma DomainAdvises(exec: Execution, required: nat, targets: seq<InputRef>, endpoint: string, a: Answers, spent: bool)
    requires !Blocked(exec.assertion, exec.conflictType) && !exec.snapshot.workflow.Confirmed?
    requires InputsLost(exec.snapshot, exec.conflictType, exec.conflictDetails)
    requires DomainIn(exec.conflictDetails) == DomainFound(targets, endpoint, a, spent)
    ensures AdvisesFor(AdviceOf(exec, required), targets, a, spent)
  {
    DomainExactlyWhen(targets, endpoint, a, spent);
    RebuildAdviceExactlyWhen(exec.snapshot, exec.conflictType, exec.assertion, exec.conflictDetails, exec.submissionError, required);
  }

  /** After a pass that proves the inputs spent, the advice goes by the roles of the inputs that are gone. */
  lemma AdviceAfterSpend(db: Db, p: Poll)
    requires FailureEnds(db.agg) && Writes(db.agg, p)
    requires SpendIsProved(db.agg, p, p.result.endpoint, p.result.answers)
    ensures AdvisesFor(AdviceOf(Step(db, PollReq(p)).agg.exec, db.agg.required), Targets(db.agg.exec), p.result.answers, true)
  {
    var after := Step(db, PollReq(p)).agg.exec;
    WorkflowAfterPass(db, p);
    FindingsAfterPass(db, p);
    EvidenceAfterPass(db, p);
    FreeOrGone(db.agg, p.result.answers);
    DomainAdvises(after, db.agg.required, Targets(db.agg.exec), p.result.endpoint, p.result.answers, true);
  }

  /** After a pass that finds the inputs held by another transaction: wait within the grace, then by their roles. */
  lemma AdviceAfterContention(db: Db, p: Poll)
    requires FailureEnds(db.agg) && Writes(db.agg, p)
    requires InputsLive(db.agg, p.result.answers) && !InputsFree(db.agg, p.result.answers)
    requires !db.agg.exec.snapshot.chain.Committed? && !BlockDisproved(db.agg, p.result.answers)
    ensures var advice := AdviceOf(Step(db, PollReq(p)).agg.exec, db.agg.required);
            var prior, at := db.agg.exec.conflictDetails, p.result.answers.inspectedAt;
            if at - ContendedSince(prior, at) >= GraceOf(prior, p.graceMs)
            then AdvisesFor(advice, Targets(db.agg.exec), p.result.answers, false)
            else advice.WaitAndReconcile?
  {
    var read, a, after := db.agg, p.result.answers, Step(db, PollReq(p)).agg.exec;
    WorkflowAfterPass(db, p);
    FindingsAfterPass(db, p);
    EvidenceAfterPass(db, p);
    if InputsGone(read, a) {
      FreeOrGone(read, a);
      assert false;
    }
    WaitAdviceExactlyWhen(after.snapshot, after.conflictType, after.assertion, after.conflictDetails, after.submissionError, read.required);
    if InputsLost(after.snapshot, after.conflictType, after.conflictDetails) {
      DomainAdvises(after, read.required, Targets(read.exec), p.result.endpoint, a, false);
    }
  }
}
