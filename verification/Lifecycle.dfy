/** What the lifecycle machine promises: depth, the order of submission, and the status and advice shown to users. */
module Lifecycle {
  import opened Prelude
  import opened Types
  import opened StateMachine
  import opened Store
  import opened Service
  import opened Reconcile
  import opened Machine
  import opened Invariants
  import opened SpendRuns
  import opened Transitions
  import Hex

  // ---- Depth -------------------------------------------------------------------------------------------------------

  /** A depth that a number can hold is satisfied exactly when the tip stands that deep; a count never wraps or goes stale. */
  lemma DepthSatisfiedExactlyWhen(blocks: int, number: Option<string>, tip: Option<string>)
    requires 1 <= blocks <= MAX_SAFE_INTEGER
    ensures ConfirmationSatisfied(Depth(blocks), Committed, ConfirmationCount(number, tip)) <==> DeepEnough(number, tip, blocks)
  {
  }

  /** A height is "0x" and at least one hexadecimal digit in either case, and each further digit counts sixteen times less. */
  lemma HeightsAreHexadecimal(digits: string, last: char)
    ensures Hex.ParseHeight(Some("0x" + digits + [last])).Some? <==> Hex.AllDigits(digits) && Hex.IsDigit(last)
    ensures Hex.AllDigits(digits) && Hex.IsDigit(last) ==>
              Hex.ParseHeight(Some("0x" + digits + [last])).value
              == Hex.DigitValue(last) + 16 * (if digits == "" then 0 else Hex.ParseHeight(Some("0x" + digits)).value)
  {
    var text := "0x" + digits + [last];
    assert text[2..] == digits + [last];
    assert (digits + [last])[..|digits|] == digits;
    assert ("0x" + digits)[2..] == digits;
    if Hex.AllDigits(digits + [last]) {
      assert (digits + [last])[|digits|] == last;
      assert forall i :: 0 <= i < |digits| ==> (digits + [last])[i] == digits[i];
      assert Hex.Value(digits + [last]) == 16 * Hex.Value(digits) + Hex.DigitValue(last);
      if digits != "" {
        assert Hex.ParseHeight(Some("0x" + digits)) == Some(Hex.Value(digits));
      }
    }
  }

  // ---- Submission --------------------------------------------------------------------------------------------------

  predicate OpenForSubmission(s: Snapshot) {
    !s.workflow.Conflicted? && !s.workflow.Expired? && !s.chain.Rejected?
  }

  /** Broadcasting may have been tried, and no acceptance has been reported. */
  predicate MayBeRefused(status: SubmissionStatus) {
    status.Prepared? || status.Broadcasting? || status.SubmissionUnknown? || status.NodeRejected?
  }

  /** Statuses are accepted in their order only; a refusal only before acceptance, and nothing else after a refusal. */
  lemma SubmissionAcceptedExactlyWhen(s: Snapshot, next: SubmissionStatus)
    ensures UpdateSubmission(s, next).Ok? <==>
              OpenForSubmission(s)
              && (if next.NodeRejected? then MayBeRefused(s.submission)
                  else !s.submission.NodeRejected? && SubmissionOrder(s.submission) <= SubmissionOrder(next))
    ensures UpdateSubmission(s, next).Ok? ==> UpdateSubmission(s, next).value == s.(submission := next)
  {
  }

  /** Reports that are not accepted leave the snapshot alone. */
  function Reported(s: Snapshot, reports: seq<SubmissionStatus>): Snapshot {
    if reports == [] then s
    else
      var before := Reported(s, reports[..|reports| - 1]);
      var after := UpdateSubmission(before, reports[|reports| - 1]);
      if after.Ok? then after.value else before
  }

  /** Over any reports, in any order, a submission only moves forward or ends refused; an accepted one stays accepted. */
  lemma {:induction false} SubmissionOnlyAdvances(s: Snapshot, reports: seq<SubmissionStatus>)
    ensures var after := Reported(s, reports);
            && after == s.(submission := after.submission)
            && (after.submission.NodeRejected? || SubmissionOrder(s.submission) <= SubmissionOrder(after.submission))
            && (s.submission.NodeRejected? ==> after.submission.NodeRejected?)
            && (s.submission.Submitted? ==> after.submission.Submitted?)
  {
    if reports != [] {
      SubmissionOnlyAdvances(s, reports[..|reports| - 1]);
      SubmissionAcceptedExactlyWhen(Reported(s, reports[..|reports| - 1]), reports[|reports| - 1]);
    }
  }

  // ---- What users are shown ----------------------------------------------------------------------------------------

  /** Without required Cells no assertion is ever recorded. */
  predicate AssertsOnlyRequired(agg: Aggregate) {
    agg.required == 0 ==> agg.exec.assertion.None?
  }

  lemma StepAssertsOnlyRequired(db: Db, request: Request)
    requires AssertsOnlyRequired(db.agg)
    ensures AssertsOnlyRequired(Step(db, request).agg) && Step(db, request).agg.required == db.agg.required
  {
    match request
    case PollReq(p) =>
      if ReconcileOutcome(db.agg, p).Ok? {
        PassAssertsOnlyRequired(db.agg, p);
      }
    case _ =>
  }

  lemma PassAssertsOnlyRequired(read: Aggregate, p: Poll)
    requires AssertsOnlyRequired(read) && ReconcileOutcome(read, p).Ok?
    ensures read.required == 0 ==> ReconcileOutcome(read, p).value.assertion.None?
  {
  }

  lemma {:induction false} RunAssertsOnlyRequired(policy: Policy, required: nat, requests: seq<Request>)
    ensures AssertsOnlyRequired(Run(Init(policy, required), requests).agg)
    ensures Run(Init(policy, required), requests).agg.required == required
  {
    if requests != [] {
      RunAssertsOnlyRequired(policy, required, requests[..|requests| - 1]);
      StepAssertsOnlyRequired(Run(Init(policy, required), requests[..|requests| - 1]), requests[|requests| - 1]);
    }
  }

  lemma AdviceOfConfirmed(agg: Aggregate)
    requires agg.exec.snapshot.workflow.Confirmed? && AssertsOnlyRequired(agg)
    ensures Advice(agg).NoAction? <==> Ready(agg)
  {
  }

  /** A reachable state is settled if and only if it is confirmed, without a conflict, and with its required Cells verified. */
  lemma SettledExactlyWhen(policy: Policy, required: nat, requests: seq<Request>)
    ensures var agg := Run(Init(policy, required), requests).agg;
            Ready(agg) <==>
              && agg.exec.snapshot.workflow.Confirmed? && agg.exec.conflictType.None?
              && (required > 0 ==> agg.exec.assertion == Some(AssertionVerified))
  {
    RunKeeps(policy, required, requests);
    RunAssertsOnlyRequired(policy, required, requests);
  }

  /** In every reachable state that shows CONFIRMED, "nothing to do" is advised exactly when the intent is settled. */
  lemma NothingToDoExactlyWhenSettled(policy: Policy, required: nat, requests: seq<Request>)
    requires Run(Init(policy, required), requests).agg.exec.snapshot.workflow.Confirmed?
    ensures var agg := Run(Init(policy, required), requests).agg; Advice(agg).NoAction? <==> Ready(agg)
  {
    RunAssertsOnlyRequired(policy, required, requests);
    AdviceOfConfirmed(Run(Init(policy, required), requests).agg);
  }

  /** A status that only a commit, or the end of the intent, leads to. */
  predicate ShowsCommit(status: OverallStatus) {
    status in {OverallConfirmed, OverallCommitted, OverallReorged, OverallConflicted, OverallExpired}
  }

  lemma OverallOfSound(s: Snapshot)
    requires SnapshotSound(s)
    ensures Overall(s).OverallConfirmed? <==> s.workflow.Confirmed?
    ensures Overall(s).OverallConflicted? <==> s.workflow.Conflicted?
    ensures s.chain.Committed? ==> ShowsCommit(Overall(s))
  {
  }

  /** The single status shown says CONFIRMED or CONFLICTED exactly when the workflow is, and never hides a commit. */
  lemma StatusShownIsTheWorkflow(policy: Policy, required: nat, requests: seq<Request>)
    ensures var s := Run(Init(policy, required), requests).agg.exec.snapshot;
            && (Overall(s).OverallConfirmed? <==> s.workflow.Confirmed?)
            && (Overall(s).OverallConflicted? <==> s.workflow.Conflicted?)
            && (s.chain.Committed? ==> ShowsCommit(Overall(s)))
  {
    RunKeeps(policy, required, requests);
    OverallOfSound(Run(Init(policy, required), requests).agg.exec.snapshot);
  }
}
