/** No transaction that may still commit drops out of sight. */
module Tracking {
  import opened Prelude
  import opened Types
  import opened StateMachine
  import opened Rpc
  import opened Store
  import opened Service
  import opened Reconcile
  import opened Machine
  import opened Invariants
  import opened Confirmation
  import opened Attempts
  import ApiWrites

  // ---- What has to be kept in sight ----------------------------------------------------------------------------

  /** The attempt's own record says that a node refused it or that its inputs or payload clash. */
  predicate FoundDead(a: Attempt) {
    || (a.disposition.Refused? && (a.chain.Rejected? || a.submission.NodeRejected?))
    || (a.disposition.Clashed? && a.workflow.Conflicted?)
  }

  /** Every attempt that may still commit is the active one, a candidate the next scan visits, or was found dead. */
  predicate NoneAbandoned(agg: Aggregate) {
    forall i :: 0 <= i < |agg.attempts| && PotentiallyLive(agg.attempts[i].submission, agg.attempts[i].chain) ==>
      agg.active == Some(i) || IsCandidate(agg, i) || FoundDead(agg.attempts[i])
  }

  /** The disposition of the active row is the one its record deserves. */
  predicate ActiveIsHonest(agg: Aggregate) {
    agg.active.Some? && agg.active.value < |agg.attempts| ==>
      var row := agg.attempts[agg.active.value];
      row.disposition.Active? || row.disposition.Won? || FoundDead(row)
  }

  predicate Tracked(agg: Aggregate) {
    NoneAbandoned(agg) && ActiveIsHonest(agg)
  }

  /**
   * The active row has the projection's submission, and its chain and workflow too, except right after a re-attachment:
   * then it may still show an old pool sighting, but only of a submitted transaction.
   */
  predicate StatusLinked(agg: Aggregate) {
    agg.active.Some? && agg.active.value < |agg.attempts| ==>
      var row, exec := agg.attempts[agg.active.value], agg.exec.snapshot;
      && row.submission == exec.submission
      && ((row.chain == exec.chain && row.workflow == exec.workflow)
          || (exec.chain.Unobserved? && exec.workflow.Idle? && (SeenInPool(row.chain) ==> exec.submission.Submitted?)))
  }

  predicate SeenInPool(chain: ChainStatus) {
    chain.Pending? || chain.Proposed?
  }

  predicate TrackInv(agg: Aggregate) {
    Tracked(agg) && StatusLinked(agg)
  }

  // ---- Attaching an older hash again -------------------------------------------------------------------------------

  /** The row of an older attempt either still runs or says itself that it is dead. */
  predicate StillRunsOrIsDead(row: Attempt) {
    || row.disposition.Active?
    || (row.disposition.Refused? && row.chain.Rejected?)
    || (row.disposition.Clashed? && row.workflow.Conflicted?)
  }

  /**
   * Attaching an older hash again loses sight of nothing by itself. It leaves the active row with a disposition that its
   * record deserves if and only if the row was not superseded; a row without one is lost once another attempt takes over.
   */
  lemma ReattachIsHonestExactlyWhen(db: Db, r: AttachRequest)
    requires Inv(db.agg) && TrackInv(db.agg) && Reattached(db, AttachReq(r))
    ensures NoneAbandoned(Step(db, AttachReq(r)).agg)
    ensures ActiveIsHonest(Step(db, AttachReq(r)).agg) <==> StillRunsOrIsDead(OlderRow(db, AttachReq(r)))
  {
    ReattachChangesOneRow(db, r);
    var before, after := db.agg, Step(db, AttachReq(r)).agg;
    var found := FindAttempt(before.attempts, r.txHash).value;
    assert before.active != Some(found);
    assert !before.exec.snapshot.workflow.Confirmed?;
    assert !before.attempts[found].disposition.Won?;
    forall i | 0 <= i < |after.attempts| && PotentiallyLive(after.attempts[i].submission, after.attempts[i].chain)
      ensures after.active == Some(i) || IsCandidate(after, i) || FoundDead(after.attempts[i])
    {
      if i != found {
        assert after.attempts[i] == before.attempts[i];
      }
    }
  }

  /** With the status link, on which later steps rely, the old pool sighting counts too: it asks for a submitted transaction. */
  lemma ReattachKeepsTrackInvExactlyWhen(db: Db, r: AttachRequest)
    requires Inv(db.agg) && TrackInv(db.agg) && Reattached(db, AttachReq(r))
    ensures TrackInv(Step(db, AttachReq(r)).agg) <==> ReattachesSafely(OlderRow(db, AttachReq(r)), r)
  {
    ReattachIsHonestExactlyWhen(db, r);
    ReattachChangesOneRow(db, r);
  }

  predicate ReattachesSafely(row: Attempt, r: AttachRequest) {
    StillRunsOrIsDead(row) && (SeenInPool(row.chain) ==> r.submission.Submitted?)
  }

  /** Every accepted re-attachment is of a row that still runs or is dead, and as submitted if the pool had seen it. */
  predicate ReattachmentsAreSafe(policy: Policy, required: nat, requests: seq<Request>) {
    forall k :: 0 <= k < |requests| && Reattached(Before(policy, required, requests, k), requests[k]) ==>
      ReattachesSafely(OlderRow(Before(policy, required, requests, k), requests[k]), requests[k].attach)
  }

  predicate NeverConfirmed(policy: Policy, required: nat, requests: seq<Request>) {
    forall k :: 0 <= k <= |requests| ==> !Before(policy, required, requests, k).agg.exec.snapshot.workflow.Confirmed?
  }

  // ---- Step by step ------------------------------------------------------------------------------------------------

  lemma AttachNewTracks(db: Db, input: AttachInput)
    requires Inv(db.agg) && TrackInv(db.agg)
    requires Creating(db.agg, input) && FindAttempt(db.agg.attempts, input.txHash).None?
    requires AttachTransaction(db, db.agg, input).Ok?
    ensures TrackInv(AttachTransaction(db, db.agg, input).value.agg)
  {
    var before, after := db.agg, AttachTransaction(db, db.agg, input).value.agg;
    assert !before.exec.snapshot.workflow.Confirmed?;
    assert after.active == Some(|before.attempts|) && after.attempts[|before.attempts|] == NewAttempt(db, before, input);
    if before.active.Some? && !KindOf(before, input).RbfReplacement? {
      assert !PotentiallyLive(before.attempts[before.active.value].submission, before.attempts[before.active.value].chain);
    }
  }

  /** A refused submission is not marked prepared or submitted again. */
  lemma AttachSameTracks(db: Db, r: AttachRequest)
    requires Inv(db.agg) && TrackInv(db.agg)
    requires ComputeAttach(db.agg, r).Ok? && !Creating(db.agg, ComputeAttach(db.agg, r).value)
    requires AttachTransaction(db, db.agg, ComputeAttach(db.agg, r).value).Ok?
    ensures TrackInv(AttachTransaction(db, db.agg, ComputeAttach(db.agg, r).value).value.agg)
  {
    assert FindAttempt(db.agg.attempts, r.txHash) == db.agg.active;
  }

  lemma AttachTracks(db: Db, r: AttachRequest)
    requires Inv(db.agg) && TrackInv(db.agg)
    requires Reattached(db, AttachReq(r)) ==> ReattachesSafely(OlderRow(db, AttachReq(r)), r)
    ensures TrackInv(Step(db, AttachReq(r)).agg)
  {
    var input := ComputeAttach(db.agg, r);
    if Reattached(db, AttachReq(r)) {
      ReattachKeepsTrackInvExactlyWhen(db, r);
    } else if input.Ok? && AttachTransaction(db, db.agg, input.value).Ok? {
      if Creating(db.agg, input.value) {
        AttachNewTracks(db, input.value);
      } else {
        AttachSameTracks(db, r);
      }
    }
  }

  lemma MarkTracks(db: Db, m: MarkRequest)
    requires Inv(db.agg) && TrackInv(db.agg)
    ensures TrackInv(Step(db, MarkReq(m)).agg)
  {
  }

  lemma PollTracks(db: Db, p: Poll)
    requires Inv(db.agg) && TrackInv(db.agg)
    requires !Step(db, PollReq(p)).agg.exec.snapshot.workflow.Confirmed?
    ensures TrackInv(Step(db, PollReq(p)).agg)
  {
    if ReconcileOutcome(db.agg, p).Ok? {
      assert db.agg.active.Some?;
      var s := ReconcileOutcome(db.agg, p).value;
      assert Step(db, PollReq(p)).agg == ApplySnapshot(db, db.agg, s).value.agg;
    }
  }

  lemma SideUpdateTracks(db: Db, id: AttemptId, s: Snapshot, conflictType: Option<ConflictType>, details: Option<Details>)
    requires TrackInv(db.agg) && IsCandidate(db.agg, id)
    requires !s.workflow.Confirmed?
    ensures TrackInv(UpdateCandidate(db, id, s, conflictType, details).agg)
  {
  }

  lemma PromotionTracks(db: Db, input: PromoteInput)
    requires Inv(db.agg) && TrackInv(db.agg) && IsCandidate(db.agg, input.id)
    requires !db.agg.exec.snapshot.workflow.Confirmed? && !input.snapshot.workflow.Confirmed?
    ensures Promote(db, db.agg, input).Ok? && TrackInv(Promote(db, db.agg, input).value.agg)
  {
  }

  lemma ScanTracks(db: Db, id: AttemptId, result: PollResult, now: int)
    requires Inv(db.agg) && TrackInv(db.agg)
    requires !db.agg.exec.snapshot.workflow.Confirmed?
    requires !Step(db, ScanReq(id, result, now)).agg.exec.snapshot.workflow.Confirmed?
    ensures TrackInv(Step(db, ScanReq(id, result, now)).agg)
  {
    if db.agg.exec.txHash.Some? && IsCandidate(db.agg, id) {
      match ScanCandidate(db.agg, id, result, now)
      case NoWrite =>
      case SideUpdate(s, conflictType, details) =>
        SideUpdateDoesNotConfirm(db.agg, id, result, now);
        SideUpdateTracks(db, id, s, conflictType, details);
      case Promotion(input) =>
        PromotionIsSound(db.agg, id, result, now);
        PromotionTracks(db, input);
    }
  }

  lemma StepTracks(db: Db, request: Request)
    requires Inv(db.agg) && TrackInv(db.agg)
    requires Reattached(db, request) ==> ReattachesSafely(OlderRow(db, request), request.attach)
    requires !db.agg.exec.snapshot.workflow.Confirmed? && !Step(db, request).agg.exec.snapshot.workflow.Confirmed?
    ensures TrackInv(Step(db, request).agg)
  {
    match request
    case AttachReq(r) => AttachTracks(db, r);
    case MarkReq(m) => MarkTracks(db, m);
    case PollReq(p) => PollTracks(db, p);
    case ScanReq(id, result, now) => ScanTracks(db, id, result, now);
  }

  lemma PrefixIsSafe(policy: Policy, required: nat, requests: seq<Request>, n: nat)
    requires n <= |requests| && ReattachmentsAreSafe(policy, required, requests) && NeverConfirmed(policy, required, requests)
    ensures ReattachmentsAreSafe(policy, required, requests[..n]) && NeverConfirmed(policy, required, requests[..n])
  {
    forall k | 0 <= k < n && Reattached(Before(policy, required, requests[..n], k), requests[..n][k])
      ensures ReattachesSafely(OlderRow(Before(policy, required, requests[..n], k), requests[..n][k]), requests[..n][k].attach)
    {
      BeforeOfPrefix(policy, required, requests, n, k);
    }
    PrefixNeverConfirmed(policy, required, requests, n);
  }

  /** Until something confirms, and with safe re-attachments, no attempt that may still commit is lost. */
  lemma {:induction false} NoLiveAttemptIsAbandoned(policy: Policy, required: nat, requests: seq<Request>)
    requires ReattachmentsAreSafe(policy, required, requests) && NeverConfirmed(policy, required, requests)
    ensures TrackInv(Run(Init(policy, required), requests).agg)
  {
    if requests != [] {
      var n := |requests| - 1;
      PrefixIsSafe(policy, required, requests, n);
      NoLiveAttemptIsAbandoned(policy, required, requests[..n]);
      RunKeeps(policy, required, requests[..n]);
      BeforeNext(policy, required, requests, n);
      assert requests[..n + 1] == requests;
      assert !Before(policy, required, requests, n).agg.exec.snapshot.workflow.Confirmed?;
      assert !Before(policy, required, requests, n + 1).agg.exec.snapshot.workflow.Confirmed?;
      StepTracks(Before(policy, required, requests, n), requests[n]);
    }
  }

  // ---- Exactly when one is lost ------------------------------------------------------------------------------------

  /** The transaction may still commit, but the row neither runs nor says that it is dead. */
  predicate Lost(row: Attempt) {
    PotentiallyLive(row.submission, row.chain) && !row.disposition.Active? && !FoundDead(row)
  }

  /** An accepted request after which another attempt is the active one: an attach of another hash, or a promotion. */
  predicate MovesOn(db: Db, request: Request) {
    Step(db, request).agg.active != db.agg.active
  }

  /** The active row as the request leaves it: only a new hash that replaces nothing gives it a disposition. */
  function LeftBehind(db: Db, request: Request): Attempt
    requires ActiveAttempt(db.agg).Some?
  {
    var row := ActiveAttempt(db.agg).value;
    if request.AttachReq? && FindAttempt(db.agg.attempts, request.attach.txHash).None? && !IsReplacement(db, request.attach)
    then row.(disposition := PriorDisposition(db.agg.exec))
    else row
  }

  predicate IsReplacement(db: Db, r: AttachRequest) {
    r.kind == Some(RbfReplacement)
  }

  /** The request takes the place of an attempt that then counts as lost. */
  predicate LeavesLost(db: Db, request: Request) {
    ActiveAttempt(db.agg).Some? && MovesOn(db, request) && Lost(LeftBehind(db, request))
  }

  /** When only the row left behind and the new active one may have changed, the left one decides. */
  lemma LeftRowDecides(before: Aggregate, after: Aggregate, left: AttemptId, row: Attempt)
    requires NoneAbandoned(before) && before.active == Some(left) && left < |before.attempts| <= |after.attempts|
    requires after.active != Some(left) && after.attempts[left] == row
    requires forall i :: 0 <= i < |before.attempts| && i != left && after.active != Some(i) ==> after.attempts[i] == before.attempts[i]
    requires forall i :: |before.attempts| <= i < |after.attempts| ==> after.active == Some(i)
    ensures NoneAbandoned(after) <==> !Lost(row)
  {
  }

  lemma AttachLeavesBehind(db: Db, r: AttachRequest, i: AttemptId)
    requires Inv(db.agg) && Write(db, db.agg, AttachReq(r)).Ok? && !db.agg.exec.snapshot.workflow.Confirmed?
    requires i < |db.agg.attempts| && Step(db, AttachReq(r)).agg.active != Some(i)
    ensures Step(db, AttachReq(r)).agg.attempts[i]
            == if db.agg.active == Some(i) then LeftBehind(db, AttachReq(r)) else db.agg.attempts[i]
  {
    ApiWrites.AttachRetires(db, r, i);
    assert ApiWrites.IsKnown(db.agg, r) <==> FindAttempt(db.agg.attempts, r.txHash).Some?;
  }

  lemma AttachAbandonsExactlyWhen(db: Db, r: AttachRequest)
    requires Inv(db.agg) && NoneAbandoned(db.agg) && !db.agg.exec.snapshot.workflow.Confirmed?
    ensures NoneAbandoned(Step(db, AttachReq(r)).agg) <==> !LeavesLost(db, AttachReq(r))
  {
    var before, after := db.agg, Step(db, AttachReq(r)).agg;
    if Write(db, before, AttachReq(r)).Ok? {
      ApiWrites.AttachRecordsAttempt(db, r);
      forall i | 0 <= i < |before.attempts| && after.active != Some(i)
        ensures after.attempts[i] == if before.active == Some(i) then LeftBehind(db, AttachReq(r)) else before.attempts[i]
      {
        AttachLeavesBehind(db, r, i);
      }
      if MovesOn(db, AttachReq(r)) && before.active.Some? {
        LeftRowDecides(before, after, before.active.value, LeftBehind(db, AttachReq(r)));
      }
    }
  }

  lemma MarkAbandonsNothing(db: Db, m: MarkRequest)
    requires Inv(db.agg) && NoneAbandoned(db.agg)
    ensures NoneAbandoned(Step(db, MarkReq(m)).agg) && !MovesOn(db, MarkReq(m))
  {
  }

  lemma PollAbandonsNothing(db: Db, p: Poll)
    requires Inv(db.agg) && NoneAbandoned(db.agg)
    requires !Step(db, PollReq(p)).agg.exec.snapshot.workflow.Confirmed?
    ensures NoneAbandoned(Step(db, PollReq(p)).agg) && !MovesOn(db, PollReq(p))
  {
    if ReconcileOutcome(db.agg, p).Ok? {
      var s := ReconcileOutcome(db.agg, p).value;
      assert Step(db, PollReq(p)).agg == ApplySnapshot(db, db.agg, s).value.agg;
    }
  }

  lemma SideUpdateAbandonsNothing(db: Db, id: AttemptId, s: Snapshot, conflictType: Option<ConflictType>, details: Option<Details>)
    requires NoneAbandoned(db.agg) && IsCandidate(db.agg, id) && !s.workflow.Confirmed?
    ensures NoneAbandoned(UpdateCandidate(db, id, s, conflictType, details).agg)
  {
  }

  lemma PromotionAbandonsExactlyWhen(db: Db, input: PromoteInput)
    requires Inv(db.agg) && NoneAbandoned(db.agg) && IsCandidate(db.agg, input.id) && !input.snapshot.workflow.Confirmed?
    ensures Promote(db, db.agg, input).Ok? && ActiveAttempt(db.agg).Some?
    ensures NoneAbandoned(Promote(db, db.agg, input).value.agg) <==> !Lost(ActiveAttempt(db.agg).value)
  {
    var before, after := db.agg, Promote(db, db.agg, input).value.agg;
    assert after.attempts[before.active.value] == ActiveAttempt(before).value;
  }

  lemma ScanAbandonsExactlyWhen(db: Db, id: AttemptId, result: PollResult, now: int)
    requires Inv(db.agg) && NoneAbandoned(db.agg) && !db.agg.exec.snapshot.workflow.Confirmed?
    requires !Step(db, ScanReq(id, result, now)).agg.exec.snapshot.workflow.Confirmed?
    ensures NoneAbandoned(Step(db, ScanReq(id, result, now)).agg) <==> !LeavesLost(db, ScanReq(id, result, now))
  {
    if db.agg.exec.txHash.Some? && IsCandidate(db.agg, id) {
      match ScanCandidate(db.agg, id, result, now)
      case NoWrite =>
      case SideUpdate(s, conflictType, details) =>
        SideUpdateDoesNotConfirm(db.agg, id, result, now);
        SideUpdateAbandonsNothing(db, id, s, conflictType, details);
      case Promotion(input) =>
        PromotionIsSound(db.agg, id, result, now);
        PromotionAbandonsExactlyWhen(db, input);
    }
  }

  /** A request loses sight of a live transaction if and only if it takes the place of a row that runs no more and is not dead. */
  lemma AbandonsExactlyWhen(db: Db, request: Request)
    requires Inv(db.agg) && NoneAbandoned(db.agg)
    requires !db.agg.exec.snapshot.workflow.Confirmed? && !Step(db, request).agg.exec.snapshot.workflow.Confirmed?
    ensures NoneAbandoned(Step(db, request).agg) <==> !LeavesLost(db, request)
  {
    match request
    case AttachReq(r) => AttachAbandonsExactlyWhen(db, r);
    case MarkReq(m) => MarkAbandonsNothing(db, m);
    case PollReq(p) => PollAbandonsNothing(db, p);
    case ScanReq(id, result, now) => ScanAbandonsExactlyWhen(db, id, result, now);
  }

  /** Every transaction that may still commit is in sight before each request and at the end. */
  predicate AlwaysInSight(policy: Policy, required: nat, requests: seq<Request>) {
    if requests == [] then NoneAbandoned(Init(policy, required).agg)
    else AlwaysInSight(policy, required, requests[..|requests| - 1]) && NoneAbandoned(Run(Init(policy, required), requests).agg)
  }

  /** No request of the run takes the place of a lost row. */
  predicate NeverLeavesLost(policy: Policy, required: nat, requests: seq<Request>) {
    requests == []
    || (var n := |requests| - 1;
        NeverLeavesLost(policy, required, requests[..n]) && !LeavesLost(Before(policy, required, requests, n), requests[n]))
  }

  /** Until something confirms, whatever is attached again: nothing live is ever lost if and only if no request does that. */
  lemma {:induction false} AlwaysInSightExactlyWhen(policy: Policy, required: nat, requests: seq<Request>)
    requires NeverConfirmed(policy, required, requests)
    ensures AlwaysInSight(policy, required, requests) <==> NeverLeavesLost(policy, required, requests)
  {
    if requests != [] {
      var n := |requests| - 1;
      PrefixNeverConfirmed(policy, required, requests, n);
      AlwaysInSightExactlyWhen(policy, required, requests[..n]);
      RunKeeps(policy, required, requests[..n]);
      assert requests[..n + 1] == requests;
      assert !Before(policy, required, requests, n).agg.exec.snapshot.workflow.Confirmed?;
      assert !Before(policy, required, requests, n + 1).agg.exec.snapshot.workflow.Confirmed?;
      if AlwaysInSight(policy, required, requests[..n]) {
        InSightNow(policy, required, requests[..n]);
        AbandonsExactlyWhen(Before(policy, required, requests, n), requests[n]);
      }
    }
  }

  lemma InSightNow(policy: Policy, required: nat, requests: seq<Request>)
    requires AlwaysInSight(policy, required, requests)
    ensures NoneAbandoned(Run(Init(policy, required), requests).agg)
  {
  }

  lemma PrefixNeverConfirmed(policy: Policy, required: nat, requests: seq<Request>, n: nat)
    requires n <= |requests| && NeverConfirmed(policy, required, requests)
    ensures NeverConfirmed(policy, required, requests[..n])
  {
    forall k | 0 <= k <= n
      ensures !Before(policy, required, requests[..n], k).agg.exec.snapshot.workflow.Confirmed?
    {
      BeforeOfPrefix(policy, required, requests, n, k);
    }
  }

  // ---- A run that loses a live transaction -------------------------------------------------------------------------

  /** The older attempt runs again, but its row still reads SUPERSEDED. */
  predicate FirstRunsAgain(agg: Aggregate) {
    && |agg.attempts| == 2 && agg.active == Some(0) && agg.exec.txHash == Some("a")
    && agg.attempts[0].txHash == "a" && agg.attempts[0].inputs == [INPUT] && agg.attempts[1].txHash == "b"
    && agg.attempts[0].disposition.Superseded? && agg.attempts[0].submission.Submitted?
    && agg.exec.snapshot.submission.Submitted? && agg.exec.snapshot.chain.Unobserved? && agg.exec.snapshot.workflow.Idle?
  }

  lemma FirstIsReattached(db: Db)
    requires FirstSuperseded(db.agg)
    ensures FirstRunsAgain(Step(db, Attaching("a", Submitted, Some([INPUT]), Rebuild)).agg)
  {
    FindFirst(db.agg.attempts);
    assert "a"[0] != "b"[0];
  }

  lemma ReplacementDropsFirst(db: Db)
    requires FirstRunsAgain(db.agg)
    ensures var after := Step(db, Attaching("c", Submitted, Some([INPUT]), RbfReplacement)).agg;
            !NoneAbandoned(after)
  {
    FindFirst(db.agg.attempts);
    assert "a"[0] != "c"[0];
    assert SameOutPoint([INPUT][0], db.agg.attempts[0].inputs[0]);
    assert SharesInput([INPUT], db.agg.attempts[0].inputs);
    var after := Step(db, Attaching("c", Submitted, Some([INPUT]), RbfReplacement)).agg;
    assert after.attempts[0] == db.agg.attempts[0] && after.active == Some(2);
  }

  /** Nothing ever confirmed, yet a submitted transaction is neither active, nor scanned, nor found dead. */
  lemma ReattachingCanAbandonLiveAttempt()
    ensures var requests := [Attaching("a", Prepared, Some([INPUT]), Initial), Attaching("b", Prepared, Some([INPUT]), Rebuild)]
                            + [Attaching("a", Submitted, Some([INPUT]), Rebuild)]
                            + [Attaching("c", Submitted, Some([INPUT]), RbfReplacement)];
            !NoneAbandoned(Run(Init(WhenCommitted, 0), requests).agg)
  {
    var start := Init(WhenCommitted, 0);
    var r1, r2 := Attaching("a", Prepared, Some([INPUT]), Initial), Attaching("b", Prepared, Some([INPUT]), Rebuild);
    var r3, r4 := Attaching("a", Submitted, Some([INPUT]), Rebuild), Attaching("c", Submitted, Some([INPUT]), RbfReplacement);
    FirstIsPrepared();
    SecondSupersedesFirst(Step(start, r1));
    FirstIsReattached(Step(Step(start, r1), r2));
    ReplacementDropsFirst(Step(Step(Step(start, r1), r2), r3));
    RunAppend(start, [r1, r2], [r3, r4]);
    RunTwo(start, r1, r2);
    RunTwo(Step(Step(start, r1), r2), r3, r4);
  }
}
