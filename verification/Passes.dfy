/** Reconciliation as it runs: locals reassigned, loops over candidates and endpoints, rows written in place. */
module Passes {
  import opened Prelude
  import opened Types
  import opened StateMachine
  import opened ConflictEvidence
  import opened Rpc
  import S = Store
  import opened Service
  import opened Reconcile
  import opened Machine
  import opened Invariants
  import opened Interleaving
  import opened Serialization
  import opened Repository
  import opened Callers

  // ---- The loops inside one pass -----------------------------------------------------------------------------------

  method InputConflictDomain(inputs: seq<InputObservation>, spent: bool) returns (domain: ConflictDomain)
    ensures domain == ConflictDomainOf(inputs, spent)
  {
    var application, wallet, unknown := false, false, false;
    for k := 0 to |inputs|
      invariant application <==> HasRole(inputs[..k], spent, ApplicationState)
      invariant wallet <==> HasRole(inputs[..k], spent, WalletFunding) || HasRole(inputs[..k], spent, Fee)
      invariant unknown <==> HasRole(inputs[..k], spent, Dependency) || HasRole(inputs[..k], spent, Other)
    {
      assert inputs[..k + 1] == inputs[..k] + [inputs[k]];
      forall role: InputRole
        ensures HasRole(inputs[..k + 1], spent, role) <==>
                HasRole(inputs[..k], spent, role) || (Concerned(inputs[k], spent) && inputs[k].input.role == role)
      {
        HasRoleAppend(inputs[..k], inputs[k], spent, role);
      }
      if Concerned(inputs[k], spent) {
        match inputs[k].input.role
        case ApplicationState => application := true;
        case WalletFunding => wallet := true;
        case Fee => wallet := true;
        case Dependency => unknown := true;
        case Other => unknown := true;
      }
    }
    assert inputs[..|inputs|] == inputs;
    if application && wallet {
      domain := MixedDomain;
    } else if application && !unknown {
      domain := ApplicationDomain;
    } else if wallet && !unknown {
      domain := WalletDomain;
    } else {
      domain := UnknownDomain;
    }
  }

  lemma HasRoleAppend(inputs: seq<InputObservation>, next: InputObservation, spent: bool, role: InputRole)
    ensures HasRole(inputs + [next], spent, role)
            <==> HasRole(inputs, spent, role) || (Concerned(next, spent) && next.input.role == role)
  {
    var all := inputs + [next];
    if i :| 0 <= i < |all| && Concerned(all[i], spent) && all[i].input.role == role {
      if i < |inputs| {
        assert Concerned(inputs[i], spent) && inputs[i].input.role == role;
      }
    }
    if i :| 0 <= i < |inputs| && Concerned(inputs[i], spent) && inputs[i].input.role == role {
      assert all[i] == inputs[i];
    }
    assert all[|inputs|] == next;
  }

  method CorroborateCanonicalSpend(
    urls: seq<string>, primary: Inspection, targets: seq<InputRef>, others: map<string, Answers>) returns (result: Corroboration)
    ensures result == Corroborate(urls, primary, targets, others)
  {
    var unique := Unique(urls);
    var views := [EndpointView(primary.endpoint, Some(primary.state))];
    if |unique| < 2 {
      return Corroboration(primary.state.CanonicallySpent?, 1, views);
    }
    for k := 0 to |unique|
      invariant Corroborate(urls, primary, targets, others) == AskOthers(unique[k..], primary.endpoint, targets, others, views)
    {
      assert unique[k..][0] == unique[k] && unique[k..][1..] == unique[k + 1..];
      if unique[k] != primary.endpoint {
        var view := SecondView(unique[k], targets, others);
        views := views + [view];
        if view.state == Some(CanonicallySpent) {
          return Corroboration(true, 2, views);
        }
      }
    }
    result := Corroboration(false, 2, views);
  }

  method EvaluateAssertions(body: Option<TxBody>, checks: seq<CellCheck>, required: nat) returns (status: AssertionStatus)
    ensures status == Evaluate(body, checks, required)
  {
    if body.None? {
      return AssertionPending;
    }
    for k := 0 to required
      invariant Evaluate(body, checks, required) == EvaluateCells(checks, required, k)
    {
      var check := CheckAt(checks, k);
      if !check.created {
        return AssertionFailed;
      }
      match check.live
      case None =>
      case Some(LiveFails) => return AssertionPending;
      case Some(LiveCell(ok, block)) =>
        if !ok {
          return AssertionFailed;
        }
        match block
        case ForeignBlock => return AssertionFailed;
        case UnverifiedBlock => return AssertionPending;
        case NoBlock =>
        case CanonicalBlock =>
    }
    status := AssertionVerified;
  }

  /** The pass after an endpoint answered: every local as the source reassigns it. */
  method AnsweredPass(read: S.Aggregate, poll: Poll, endpoint: string, answers: Answers)
    returns (result: Result<S.SnapshotInput, S.Error>, terminal: bool)
    requires read.exec.txHash.Some? && poll.urls != [] && poll.result == PollAnswered(endpoint, answers)
    ensures result == AnsweredOutcome(read, poll, endpoint, answers)
    ensures terminal <==> TerminalOutcome(read, poll)
  {
    var exec := read.exec;
    var bundle := BundleFor(read, endpoint, answers);
    var status := bundle.observation.status;
    var attempted := ApplyChainObservation(exec.snapshot, bundle.observation);
    if attempted.Err? {
      return Err(S.InvalidTransition), false;
    }
    var applied := attempted.value;
    var next := SupersedeNodeRejection(applied.snapshot, status);
    var assertion, kind, conflictType, conflictDetails := exec.assertion, applied.kind, exec.conflictType, exec.conflictDetails;
    if Seen(status) {
      if FingerprintDiffers(ExpectedPayload(read), bundle) {
        next := next.(workflow := Conflicted);
        conflictType, kind := Some(SignedPayloadMismatch), PayloadMismatchFound;
        conflictDetails := Some(EMPTY_DETAILS.(classification := Some(PayloadMismatch)));
      } else {
        conflictType, conflictDetails := None, None;
        if exec.snapshot.submission.NodeRejected? {
          kind := SubmissionRejectionSuperseded;
        }
      }
    } else if status.Unknown? && bundle.inspection.Some? {
      next, kind, conflictType, conflictDetails :=
        InspectedPass(read, poll, bundle.inspection.value, next, kind, conflictType, conflictDetails);
    }
    assert Draft(next, kind, assertion, conflictType, conflictDetails) == AfterEvidence(read, poll, bundle, applied);
    if applied.reorgDetected || next.workflow.Reorged? {
      assertion := None;
    }
    if next.workflow.Confirmed? && read.required > 0
       && ShouldReverify(exec.settlementReadyAt.Some?, exec.assertion == Some(AssertionVerified),
                         exec.snapshot.blockHash, next.blockHash, applied.reorgDetected) {
      var verdict := EvaluateAssertions(bundle.body, poll.checks, read.required);
      assertion := Some(verdict);
      if verdict.AssertionVerified? {
        kind := CellsVerified;
      } else if verdict.AssertionFailed? {
        next := next.(workflow := Conflicted);
        conflictType, kind := Some(ExpectedCellAssertionFailed), CellsFailed;
        conflictDetails := Some(EMPTY_DETAILS.(classification := Some(CellAssertionFailed)));
      }
    }
    var draft := Draft(next, kind, assertion, conflictType, conflictDetails);
    assert draft == AfterCells(read, poll, bundle, applied);
    terminal := ReportsTerminal(read, poll, bundle, draft);
    result := Ok(S.SnapshotInput(next, kind, applied.fromOverall, Overall(next), bundle.observation.at,
                                 NextReconcile(read, poll, bundle, draft), assertion, conflictType, conflictDetails));
  }

  /** The branch for an absent transaction whose inputs were inspected. */
  method InspectedPass(
    read: S.Aggregate, poll: Poll, inspection: Inspection,
    snapshot: Snapshot, kind: EventKind, conflictType: Option<ConflictType>, conflictDetails: Option<Details>)
    returns (snapshot': Snapshot, kind': EventKind, conflictType': Option<ConflictType>, conflictDetails': Option<Details>)
    ensures var draft := Draft(snapshot, kind, read.exec.assertion, conflictType, conflictDetails);
            var d := AfterInspection(read, poll, inspection, draft);
            snapshot' == d.snapshot && kind' == d.kind && conflictType' == d.conflictType && conflictDetails' == d.conflictDetails
  {
    snapshot', kind', conflictType', conflictDetails' := snapshot, kind, conflictType, conflictDetails;
    var prior := read.exec.conflictDetails;
    match inspection.state {
      case Contended =>
        var details := ContentionDetails(prior, inspection, poll.graceMs);
        conflictType', conflictDetails' := Some(InputConflictSuspected), Some(details);
        kind' := if details.graceExpired && !AsRecord(prior).graceExpired
                 then InputContentionGraceExpired else InputPoolContentionDetected;
      case CanonicallySpent =>
        var domain := InputConflictDomain(inspection.inputs, true);
        var details := NextSpent(prior, SpentView(inspection)).(domain := Some(domain));
        conflictType', kind' := Some(InputConflictSuspected), InputSpentObserved;
        if Matured(read.exec.snapshot.policy, prior, SpentView(inspection)) {
          var corroboration := CorroborateCanonicalSpend(poll.urls, inspection, Targets(read.exec), poll.others);
          details := details.(corroboration := Some(corroboration));
          if corroboration.confirmed {
            conflictType', kind' := Some(InputSpent), InputConflictConfirmed;
            details := details.(classification := Some(SpentConfirmed), canonicalSpendConfirmed := true);
            snapshot' := snapshot.(workflow := Conflicted);
          } else {
            kind' := InputConflictCorroborationPending;
          }
        }
        conflictDetails' := Some(details);
      case AllLive =>
        conflictType', conflictDetails', kind' := None, None, InputStateInspected;
      case Uncertain =>
        if AsRecord(conflictDetails).classification == Some(SpentObserved) {
          conflictType', conflictDetails' := Some(InputConflictSuspected), BreakContinuity(conflictDetails);
        }
        kind' := InputStateUncertain;
    }
  }

  // ---- The whole pass ----------------------------------------------------------------------------------------------

  /**
   * What the world does to a pass: the nodes' answers, once per candidate and then for the projection, before or after a
   * promotion, and what other callers write before each scan's write, before the second read and before the last write.
   */
  datatype PassWorld = PassWorld(
    scans: seq<PollResult>, first: Poll, second: Poll, now: int,
    beforeScans: seq<seq<Request>>, beforeReread: seq<Request>, beforePoll: seq<Request>)

  /** Nobody else writes during the pass. */
  predicate Quiet(w: PassWorld) {
    w.beforeScans == [] && w.beforeReread == [] && w.beforePoll == []
  }

  datatype Scanned = NonePromoted(db: S.Db) | Promoted(db: S.Db) | PromotionFailed(db: S.Db, error: S.Error)

  function Candidates(read: S.Aggregate, n: nat): (ids: seq<S.AttemptId>)
    requires n <= |read.attempts|
    ensures forall id: S.AttemptId :: id in ids <==> id < n && IsCandidate(read, id)
    ensures forall i :: 0 <= i < |ids| ==> ids[i] < n && IsCandidate(read, ids[i])
    ensures forall i, j :: 0 <= i < j < |ids| ==> ids[i] != ids[j]
  {
    if n == 0 then [] else Candidates(read, n - 1) + (if IsCandidate(read, n - 1) then [n - 1] else [])
  }

  function ResultAt(scans: seq<PollResult>, k: nat): PollResult {
    if k < |scans| then scans[k] else PollFailed(0)
  }

  function BeforeScan(w: PassWorld, k: nat): seq<Request> {
    if k < |w.beforeScans| then w.beforeScans[k] else []
  }

  /** The scan of the candidates from number k on, until one commits and is promoted. */
  function ScanFrom(db: S.Db, read: S.Aggregate, ids: seq<S.AttemptId>, k: nat, w: PassWorld): Scanned
    requires k <= |ids| && forall i :: 0 <= i < |ids| ==> ids[i] < |read.attempts|
    decreases |ids| - k
  {
    if k == |ids| then NonePromoted(db)
    else
      var stored := Run(db, BeforeScan(w, k));
      var written := ScanStep(stored, read, ids[k], ResultAt(w.scans, k), w.now);
      if !ScanCandidate(read, ids[k], ResultAt(w.scans, k), w.now).Promotion? then
        ScanFrom(if written.Ok? then written.value else stored, read, ids, k + 1, w)
      else if written.Ok? then Promoted(written.value)
      else PromotionFailed(stored, written.error)
  }

  /** What a pass leaves behind: the rows, the error it throws, and whether it reports the intent as terminal. */
  datatype PassResult = PassResult(db: S.Db, error: Option<S.Error>, terminal: bool)

  function AfterPoll(db: S.Db, read: S.Aggregate, poll: Poll): PassResult {
    var written := PollStep(db, read, poll);
    if written.Ok? then PassResult(written.value, None, TerminalOutcome(read, poll)) else PassResult(db, Some(written.error), false)
  }

  function AfterScans(scanned: Scanned, read: S.Aggregate, w: PassWorld): PassResult {
    match scanned
    case NonePromoted(db) => AfterPoll(Run(db, w.beforePoll), read, w.first)
    case Promoted(db) =>
      var reread := Run(db, w.beforeReread);
      AfterPoll(Run(reread, w.beforePoll), reread.agg, w.second)
    case PromotionFailed(db, error) => PassResult(db, Some(error), false)
  }

  function Pass(db: S.Db, read: S.Aggregate, w: PassWorld): PassResult {
    if read.exec.txHash.None? then PassResult(db, None, false)
    else if w.first.urls == [] then PassResult(db, Some(S.NoEndpoint), false)
    else AfterScans(ScanFrom(db, read, Candidates(read, |read.attempts|), 0, w), read, w)
  }

  method PromoteCommittedCompetingCandidate(store: IntentStore, read: S.Aggregate, w: PassWorld)
    returns (promoted: bool, error: Option<S.Error>)
    requires read.exec.txHash.Some?
    modifies store
    ensures match ScanFrom(old(store.State()), read, Candidates(read, |read.attempts|), 0, w)
            case NonePromoted(db) => store.State() == db && !promoted && error.None?
            case Promoted(db) => store.State() == db && promoted && error.None?
            case PromotionFailed(db, e) => store.State() == db && error == Some(e)
  {
    var ids := Candidates(read, |read.attempts|);
    ghost var goal := ScanFrom(store.State(), read, ids, 0, w);
    promoted, error := false, None;
    for k := 0 to |ids|
      invariant goal == ScanFrom(store.State(), read, ids, k, w)
      invariant !promoted && error.None?
    {
      ServeAll(store, BeforeScan(w, k));
      promoted, error := ScanOnce(store, read, ids[k], ResultAt(w.scans, k), w.now);
      if promoted || error.Some? {
        return;
      }
    }
  }

  method ScanOnce(store: IntentStore, read: S.Aggregate, id: S.AttemptId, result: PollResult, now: int)
    returns (promoted: bool, error: Option<S.Error>)
    requires read.exec.txHash.Some? && id < |read.attempts| && IsCandidate(read, id)
    modifies store
    ensures Outcome(old(store.State()), ScanStep(old(store.State()), read, id, result, now), store.State(), error)
    ensures promoted <==> ScanCandidate(read, id, result, now).Promotion? && error.None?
    ensures error.Some? ==> ScanCandidate(read, id, result, now).Promotion?
  {
    var outcome := ScanCandidate(read, id, result, now);
    match outcome
    case NoWrite => return false, None;
    case SideUpdate(s, conflictType, details) =>
      store.UpdateCandidate(id, s, conflictType, details);
      return false, None;
    case Promotion(input) =>
      error := store.Promote(read, input);
      return error.None?, error;
  }

  method PollOnce(store: IntentStore, read: S.Aggregate, poll: Poll, others: seq<Request>)
    returns (error: Option<S.Error>, terminal: bool)
    modifies store
    ensures AfterPoll(Run(old(store.State()), others), read, poll) == PassResult(store.State(), error, terminal)
  {
    ServeAll(store, others);
    if read.exec.txHash.None? {
      return Some(S.InvalidTxHash), false;
    }
    if poll.urls == [] {
      return Some(S.NoEndpoint), false;
    }
    var outcome: Result<S.SnapshotInput, S.Error>;
    match poll.result {
      case PollFailed(at) => outcome, terminal := OutageOutcome(read, at, poll.now), false;
      case PollAnswered(endpoint, answers) => outcome, terminal := AnsweredPass(read, poll, endpoint, answers);
    }
    if outcome.Err? {
      return Some(outcome.error), false;
    }
    error := store.ApplySnapshot(read, outcome.value);
    terminal := terminal && error.None?;
  }

  method ReconcileIntentOnce(store: IntentStore, read: S.Aggregate, w: PassWorld)
    returns (error: Option<S.Error>, terminal: bool)
    modifies store
    ensures Pass(old(store.State()), read, w) == PassResult(store.State(), error, terminal)
  {
    if read.exec.txHash.None? {
      return None, false;
    }
    if w.first.urls == [] {
      return Some(S.NoEndpoint), false;
    }
    var promoted, failed := PromoteCommittedCompetingCandidate(store, read, w);
    if failed.Some? {
      return failed, false;
    }
    if promoted {
      ServeAll(store, w.beforeReread);
      var again := store.GetIntent();
      error, terminal := PollOnce(store, again, w.second, w.beforePoll);
    } else {
      error, terminal := PollOnce(store, read, w.first, w.beforePoll);
    }
  }

  // ---- A pass is one of the interleavings --------------------------------------------------------------------------

  /** The scans of caller c, with the turns of the others, in the name of caller d, before each write. */
  function ScanActions(read: S.Aggregate, ids: seq<S.AttemptId>, k: nat, w: PassWorld, c: CallerId, d: CallerId): seq<Action>
    requires k <= |ids| && forall i :: 0 <= i < |ids| ==> ids[i] < |read.attempts|
    decreases |ids| - k
  {
    if k == |ids| then []
    else
      Turns(d, BeforeScan(w, k)) + [Submit(c, ScanReq(ids[k], ResultAt(w.scans, k), w.now))]
      + (if ScanCandidate(read, ids[k], ResultAt(w.scans, k), w.now).Promotion? then []
         else ScanActions(read, ids, k + 1, w, c, d))
  }

  function PollActions(w: PassWorld, poll: Poll, c: CallerId, d: CallerId): seq<Action> {
    Turns(d, w.beforePoll) + [Submit(c, PollReq(poll))]
  }

  function PassActions(db: S.Db, read: S.Aggregate, c: CallerId, d: CallerId, w: PassWorld): seq<Action> {
    if read.exec.txHash.None? || w.first.urls == [] then []
    else
      var ids := Candidates(read, |read.attempts|);
      ScanActions(read, ids, 0, w, c, d) + RestActions(ScanFrom(db, read, ids, 0, w), w, c, d)
  }

  lemma OthersThenSubmit(sys: System, c: CallerId, d: CallerId, others: seq<Request>, request: Request, read: S.Aggregate)
    requires c != d && c in sys.callers && sys.callers[c] == GotAll(read)
    ensures var stored := Run(sys.db, others);
            var after := Execute(sys, Turns(d, others) + [Submit(c, request)]);
            && after.db == (if Write(stored, read, request).Ok? then Write(stored, read, request).value else stored)
            && c in after.callers && after.callers[c] == GotAll(read)
  {
    TurnsAreRun(sys, d, others, c);
    ExecuteAppend(sys, Turns(d, others), [Submit(c, request)]);
    ExecuteOne(Execute(sys, Turns(d, others)), Submit(c, request));
  }

  lemma {:induction false} ScansAreActions(
    sys: System, read: S.Aggregate, ids: seq<S.AttemptId>, k: nat, w: PassWorld, c: CallerId, d: CallerId)
    requires k <= |ids| && forall i :: 0 <= i < |ids| ==> ids[i] < |read.attempts| && IsCandidate(read, ids[i])
    requires read.exec.txHash.Some? && c != d && c in sys.callers && sys.callers[c] == GotAll(read)
    ensures var after := Execute(sys, ScanActions(read, ids, k, w, c, d));
            && after.db == ScanFrom(sys.db, read, ids, k, w).db
            && c in after.callers && after.callers[c] == GotAll(read)
    decreases |ids| - k
  {
    if k < |ids| {
      var request := ScanReq(ids[k], ResultAt(w.scans, k), w.now);
      var first := Turns(d, BeforeScan(w, k)) + [Submit(c, request)];
      OthersThenSubmit(sys, c, d, BeforeScan(w, k), request, read);
      if ScanCandidate(read, ids[k], ResultAt(w.scans, k), w.now).Promotion? {
        assert ScanActions(read, ids, k, w, c, d) == first;
      } else {
        ScansAreActions(Execute(sys, first), read, ids, k + 1, w, c, d);
        ExecuteAppend(sys, first, ScanActions(read, ids, k + 1, w, c, d));
      }
    }
  }

  lemma PollIsAction(sys: System, read: S.Aggregate, w: PassWorld, poll: Poll, c: CallerId, d: CallerId)
    requires c != d && c in sys.callers && sys.callers[c] == GotAll(read)
    ensures Execute(sys, PollActions(w, poll, c, d)).db == AfterPoll(Run(sys.db, w.beforePoll), read, poll).db
  {
    OthersThenSubmit(sys, c, d, w.beforePoll, PollReq(poll), read);
  }

  lemma RereadAndPoll(sys: System, w: PassWorld, c: CallerId, d: CallerId)
    requires c != d
    ensures var reread := Run(sys.db, w.beforeReread);
            Execute(sys, Turns(d, w.beforeReread) + [ReadRow(c), ReadAttempts(c)] + PollActions(w, w.second, c, d)).db
            == AfterPoll(Run(reread, w.beforePoll), reread.agg, w.second).db
  {
    var turns, rereading := Turns(d, w.beforeReread), [ReadRow(c), ReadAttempts(c)];
    TurnsAreRun(sys, d, w.beforeReread, c);
    ReadsAll(Execute(sys, turns), c);
    ExecuteAppend(sys, turns, rereading);
    ExecuteAppend(sys, turns + rereading, PollActions(w, w.second, c, d));
    PollIsAction(Execute(sys, turns + rereading), Run(sys.db, w.beforeReread).agg, w, w.second, c, d);
  }

  /** What a pass does after its scans, as actions. */
  function RestActions(scanned: Scanned, w: PassWorld, c: CallerId, d: CallerId): seq<Action> {
    match scanned
    case NonePromoted(_) => PollActions(w, w.first, c, d)
    case Promoted(_) => Turns(d, w.beforeReread) + [ReadRow(c), ReadAttempts(c)] + PollActions(w, w.second, c, d)
    case PromotionFailed(_, _) => []
  }

  lemma RestIsActions(sys: System, read: S.Aggregate, scanned: Scanned, w: PassWorld, c: CallerId, d: CallerId)
    requires c != d && c in sys.callers && sys.callers[c] == GotAll(read) && scanned.db == sys.db
    ensures Execute(sys, RestActions(scanned, w, c, d)).db == AfterScans(scanned, read, w).db
  {
    match scanned
    case NonePromoted(_) => PollIsAction(sys, read, w, w.first, c, d);
    case Promoted(_) => RereadAndPoll(sys, w, c, d);
    case PromotionFailed(_, _) =>
  }

  /** A pass with others writing between all of its steps is one of the interleavings, from the same stale or fresh read. */
  lemma PassIsInterleaving(sys: System, read: S.Aggregate, c: CallerId, d: CallerId, w: PassWorld)
    requires c != d && c in sys.callers && sys.callers[c] == GotAll(read)
    ensures Pass(sys.db, read, w).db == Execute(sys, PassActions(sys.db, read, c, d, w)).db
  {
    if read.exec.txHash.Some? && w.first.urls != [] {
      var ids := Candidates(read, |read.attempts|);
      var scans, scanned := ScanActions(read, ids, 0, w, c, d), ScanFrom(sys.db, read, ids, 0, w);
      ScansAreActions(sys, read, ids, 0, w, c, d);
      ExecuteAppend(sys, scans, RestActions(scanned, w, c, d));
      RestIsActions(Execute(sys, scans), read, scanned, w, c, d);
    }
  }

  /** So a pass whose scans are not overtaken is a run of serial requests, its own and the others', and keeps the invariants. */
  lemma PassIsSerial(sys: System, read: S.Aggregate, c: CallerId, d: CallerId, w: PassWorld)
    requires c != d && c in sys.callers && sys.callers[c] == GotAll(read)
    requires AllConsistent(sys) && Inv(sys.db.agg)
    requires NoneOvertaken(sys, PassActions(sys.db, read, c, d, w))
    ensures SameButSchedule(Pass(sys.db, read, w).db, Run(sys.db, Written(sys, PassActions(sys.db, read, c, d, w))))
    ensures Inv(Pass(sys.db, read, w).db.agg)
  {
    PassIsInterleaving(sys, read, c, d, w);
    SerialRefinement(sys, PassActions(sys.db, read, c, d, w));
    InterleavingsKeep(sys, PassActions(sys.db, read, c, d, w));
  }

  // ---- A pass that is left alone -----------------------------------------------------------------------------------

  function ScansMade(read: S.Aggregate, ids: seq<S.AttemptId>, k: nat, w: PassWorld): seq<Request>
    requires k <= |ids| && forall i :: 0 <= i < |ids| ==> ids[i] < |read.attempts|
    decreases |ids| - k
  {
    if k == |ids| then []
    else [ScanReq(ids[k], ResultAt(w.scans, k), w.now)]
         + (if ScanCandidate(read, ids[k], ResultAt(w.scans, k), w.now).Promotion? then [] else ScansMade(read, ids, k + 1, w))
  }

  /** What a pass that is left alone does is what these requests do one after the other. */
  function PassRequests(db: S.Db, w: PassWorld): seq<Request> {
    if db.agg.exec.txHash.None? || w.first.urls == [] then []
    else
      var ids := Candidates(db.agg, |db.agg.attempts|);
      ScansMade(db.agg, ids, 0, w) + [PollReq(if ScanFrom(db, db.agg, ids, 0, w).Promoted? then w.second else w.first)]
  }

  /** The candidates from number k on are as they were read. */
  predicate Unscanned(db: S.Db, read: S.Aggregate, ids: seq<S.AttemptId>, k: nat) {
    && k <= |ids| && Agrees(read, db.agg) && read.exec.txHash.Some?
    && (forall i :: 0 <= i < |ids| ==> ids[i] < |read.attempts|)
    && (forall i, j :: 0 <= i < j < |ids| ==> ids[i] != ids[j])
    && (forall i :: k <= i < |ids| ==> IsCandidate(db.agg, ids[i]) && db.agg.attempts[ids[i]] == read.attempts[ids[i]])
  }

  /** Scanning one candidate is one request, and leaves the later candidates as they were. */
  lemma ScanOne(db: S.Db, read: S.Aggregate, ids: seq<S.AttemptId>, k: nat, result: PollResult, now: int)
    requires Unscanned(db, read, ids, k) && k < |ids|
    ensures var next := Step(db, ScanReq(ids[k], result, now));
            && ScanStep(db, read, ids[k], result, now) == Ok(next)
            && (!ScanCandidate(read, ids[k], result, now).Promotion? ==> Unscanned(next, read, ids, k + 1))
  {
    SameScan(db.agg, read, ids[k], result, now);
    match ScanCandidate(read, ids[k], result, now)
    case NoWrite =>
    case SideUpdate(s, conflictType, details) =>
      SideUpdateLeavesOthers(db, read, ids[k], s, conflictType, details);
    case Promotion(input) =>
      PromotionIsSound(read, ids[k], result, now);
      SamePromotion(db, read, input);
  }

  lemma SamePromotion(db: S.Db, read: S.Aggregate, input: S.PromoteInput)
    requires Agrees(read, db.agg) && input.id < |read.attempts| && read.attempts[input.id] == db.agg.attempts[input.id]
    ensures S.Promote(db, read, input) == S.Promote(db, db.agg, input)
  {
  }

  lemma SideUpdateLeavesOthers(
    db: S.Db, read: S.Aggregate, id: S.AttemptId, s: Snapshot, conflictType: Option<ConflictType>, details: Option<Details>)
    requires Agrees(read, db.agg)
    ensures var after := S.UpdateCandidate(db, id, s, conflictType, details);
            && Agrees(read, after.agg)
            && forall i: S.AttemptId :: i < |db.agg.attempts| && i != id ==> after.agg.attempts[i] == db.agg.attempts[i]
  {
  }

  /** Left alone, the scans from number k on begin with one request. */
  lemma QuietScan(db: S.Db, read: S.Aggregate, ids: seq<S.AttemptId>, k: nat, w: PassWorld)
    requires Unscanned(db, read, ids, k) && k < |ids| && Quiet(w)
    ensures var next := Step(db, ScanReq(ids[k], ResultAt(w.scans, k), w.now));
            ScanFrom(db, read, ids, k, w) == if ScanCandidate(read, ids[k], ResultAt(w.scans, k), w.now).Promotion?
                                             then Promoted(next) else ScanFrom(next, read, ids, k + 1, w)
  {
    ScanOne(db, read, ids, k, ResultAt(w.scans, k), w.now);
    assert Run(db, BeforeScan(w, k)) == db;
  }

  lemma {:induction false} ScansAreSerial(db: S.Db, read: S.Aggregate, ids: seq<S.AttemptId>, k: nat, w: PassWorld)
    requires Unscanned(db, read, ids, k) && Quiet(w)
    ensures var scanned := ScanFrom(db, read, ids, k, w);
            && scanned.db == Run(db, ScansMade(read, ids, k, w))
            && !scanned.PromotionFailed?
            && (scanned.NonePromoted? ==> Agrees(read, scanned.db.agg))
    decreases |ids| - k
  {
    if k < |ids| {
      var request := ScanReq(ids[k], ResultAt(w.scans, k), w.now);
      var next := Step(db, request);
      ScanOne(db, read, ids, k, ResultAt(w.scans, k), w.now);
      RunOne(db, request);
      QuietScan(db, read, ids, k, w);
      if ScanCandidate(read, ids[k], ResultAt(w.scans, k), w.now).Promotion? {
        assert ScansMade(read, ids, k, w) == [request];
      } else {
        ScansAreSerial(next, read, ids, k + 1, w);
        RunAppend(db, [request], ScansMade(read, ids, k + 1, w));
      }
    }
  }

  /** Left alone, a pass is its scans and then one poll, of the projection it read or of the one it promoted. */
  lemma QuietPassShape(db: S.Db, w: PassWorld)
    requires Quiet(w) && db.agg.exec.txHash.Some? && w.first.urls != []
    ensures var scanned := ScanFrom(db, db.agg, Candidates(db.agg, |db.agg.attempts|), 0, w);
            match scanned
            case NonePromoted(after) => Pass(db, db.agg, w) == AfterPoll(after, db.agg, w.first)
            case Promoted(after) => Pass(db, db.agg, w) == AfterPoll(after, after.agg, w.second)
            case PromotionFailed(_, _) => true
  {
  }

  lemma PollOfScanned(db: S.Db, read: S.Aggregate, poll: Poll)
    requires Agrees(read, db.agg)
    ensures SameButSchedule(AfterPoll(db, read, poll).db, Run(db, [PollReq(poll)]))
  {
    PollIgnoresScansAndSchedule(db, read, db, poll);
    RunOne(db, PollReq(poll));
  }

  /** Left alone, a pass from a fresh read overtakes none of its own scans: its requests are exactly these. */
  lemma QuietPassIsSerial(db: S.Db, w: PassWorld)
    requires Quiet(w)
    ensures SameButSchedule(Pass(db, db.agg, w).db, Run(db, PassRequests(db, w)))
  {
    if db.agg.exec.txHash.Some? && w.first.urls != [] {
      var ids := Candidates(db.agg, |db.agg.attempts|);
      var made := ScansMade(db.agg, ids, 0, w);
      ScansAreSerial(db, db.agg, ids, 0, w);
      QuietPassShape(db, w);
      var scanned := ScanFrom(db, db.agg, ids, 0, w);
      var poll := if scanned.Promoted? then w.second else w.first;
      PollOfScanned(scanned.db, if scanned.Promoted? then scanned.db.agg else db.agg, poll);
      RunAppend(db, made, [PollReq(poll)]);
    }
  }
}
