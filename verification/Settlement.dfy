/** Settlement: which assertion run stands behind it, and the events that announce and revoke it. */
module Settlement {
  import opened Prelude
  import opened Types
  import opened StateMachine
  import opened Rpc
  import opened Store
  import opened Service
  import opened Reconcile
  import opened Machine
  import opened Invariants
  import opened Confirmation
  import Hex

  // ---- Where a stored VERIFIED comes from --------------------------------------------------------------------------

  /** The answered pass had to check the required Cells, and did, whatever the checks said. */
  predicate RunsCells(db: Db, request: Request) {
    && request.PollReq? && AnswersOf(request).Some? && db.agg.exec.txHash.Some?
    && var p := request.poll;
       var bundle := BundleFor(db.agg, p.result.endpoint, p.result.answers);
       var applied := ApplyChainObservation(db.agg.exec.snapshot, bundle.observation);
    && applied.Ok? && MustCheckCells(db.agg, applied.value, AfterEvidence(db.agg, p, bundle, applied.value))
    && Step(db, request).agg.exec.assertion == Some(Evaluate(bundle.body, p.checks, db.agg.required))
  }

  /** The pass ran the checks on the returned transaction and every required Cell held. */
  predicate ChecksCells(db: Db, request: Request) {
    && RunsCells(db, request)
    && BundleFor(db.agg, request.poll.result.endpoint, request.poll.result.answers).body.Some?
    && forall i :: 0 <= i < db.agg.required ==> CellHolds(CheckAt(request.poll.checks, i))
  }

  predicate VerifiedFor(agg: Aggregate, hash: Option<string>) {
    agg.exec.assertion == Some(AssertionVerified) && agg.exec.snapshot.blockHash == hash && Present(hash)
  }

  lemma PollAssertion(db: Db, p: Poll)
    requires Sound(db.agg)
    requires ReconcileOutcome(db.agg, p).Ok?
    ensures var after := Step(db, PollReq(p)).agg.exec;
            || (after.assertion == db.agg.exec.assertion && after.snapshot.blockHash == db.agg.exec.snapshot.blockHash)
            || after.assertion.None?
            || RunsCells(db, PollReq(p))
  {
    if p.result.PollAnswered? {
      var s := db.agg.exec.snapshot;
      var bundle := BundleFor(db.agg, p.result.endpoint, p.result.answers);
      var applied := ApplyChainObservation(s, bundle.observation).value;
      EvidenceKeepsBlock(db.agg, p, bundle, applied);
      CheckedOrKept(db, p, bundle, applied);
    }
  }

  lemma CheckedOrKept(db: Db, p: Poll, bundle: Bundle, applied: Applied)
    requires ApplyChainObservation(db.agg.exec.snapshot, bundle.observation) == Ok(applied)
    requires Sound(db.agg)
    ensures var d := AfterCells(db.agg, p, bundle, applied);
            || (d.assertion == db.agg.exec.assertion
                && (db.agg.exec.assertion.Some? ==> applied.snapshot.blockHash == db.agg.exec.snapshot.blockHash))
            || d.assertion.None?
            || (MustCheckCells(db.agg, applied, AfterEvidence(db.agg, p, bundle, applied))
                && d.assertion == Some(Evaluate(bundle.body, p.checks, db.agg.required)))
  {
  }

  /** A step into a VERIFIED state either checked every Cell for the recorded block or found it verified for that block. */
  lemma VerifiedStep(db: Db, request: Request)
    requires Sound(db.agg)
    requires Step(db, request).agg.exec.assertion == Some(AssertionVerified)
    ensures var hash := Step(db, request).agg.exec.snapshot.blockHash;
            Present(hash) && (ChecksCells(db, request) || VerifiedFor(db.agg, hash))
  {
    StepKeepsSound(db, request);
    match request
    case PollReq(p) =>
      if ReconcileOutcome(db.agg, p).Ok? {
        PollAssertion(db, p);
        if RunsCells(db, request) {
          VerifiedMeansAllHold(p.checks, db.agg.required, 0);
        }
      }
    case _ =>
  }

  /** Request j checked every Cell while this block was recorded, and the block and the verdict have stood since. */
  predicate VerifiedBy(policy: Policy, required: nat, requests: seq<Request>, hash: Option<string>, j: nat) {
    && j < |requests|
    && ChecksCells(Before(policy, required, requests, j), requests[j])
    && forall k :: j < k < |requests| ==> VerifiedFor(Before(policy, required, requests, k).agg, hash)
  }

  lemma VerificationExtends(policy: Policy, required: nat, requests: seq<Request>, hash: Option<string>, j: nat)
    requires requests != []
    requires VerifiedBy(policy, required, requests[..|requests| - 1], hash, j)
    requires VerifiedFor(Before(policy, required, requests, |requests| - 1).agg, hash)
    ensures VerifiedBy(policy, required, requests, hash, j)
  {
    var n := |requests| - 1;
    BeforeOfPrefix(policy, required, requests, n, j);
    forall k | j < k < |requests|
      ensures VerifiedFor(Before(policy, required, requests, k).agg, hash)
    {
      if k < n {
        BeforeOfPrefix(policy, required, requests, n, k);
        assert VerifiedFor(Before(policy, required, requests[..n], k).agg, hash);
      }
    }
  }

  /** A stored VERIFIED always comes from an assertion run made for the block that is recorded now. */
  lemma {:induction false} VerifiedIsForRecordedBlock(policy: Policy, required: nat, requests: seq<Request>)
    requires Run(Init(policy, required), requests).agg.exec.assertion == Some(AssertionVerified)
    ensures exists j :: VerifiedBy(policy, required, requests,
                                   Run(Init(policy, required), requests).agg.exec.snapshot.blockHash, j)
  {
    var n := |requests| - 1;
    var db := Before(policy, required, requests, n);
    var hash := Run(Init(policy, required), requests).agg.exec.snapshot.blockHash;
    RunKeeps(policy, required, requests[..n]);
    VerifiedStep(db, requests[n]);
    if ChecksCells(db, requests[n]) {
      assert VerifiedBy(policy, required, requests, hash, n);
    } else {
      VerifiedIsForRecordedBlock(policy, required, requests[..n]);
      var j :| VerifiedBy(policy, required, requests[..n], hash, j);
      VerificationExtends(policy, required, requests, hash, j);
    }
  }

  /** A settled view with required Cells rests on such a run, and on a canonical block at the policy's depth. */
  lemma SettledIsVerifiedAndConfirmed(policy: Policy, required: nat, requests: seq<Request>)
    requires required > 0
    requires Ready(Run(Init(policy, required), requests).agg)
    ensures var s := Run(Init(policy, required), requests).agg.exec.snapshot;
            && (exists j :: VerifiedBy(policy, required, requests, s.blockHash, j))
            && (exists j :: ProvedBy(policy, required, requests, BlockOf(s), j))
  {
    RunKeeps(policy, required, requests);
    VerifiedIsForRecordedBlock(policy, required, requests);
    ConfirmedIsProved(policy, required, requests);
  }

  /** A new block, a reorg, another transaction or a promotion never keeps an old verdict: it is dropped or re-run. */
  lemma BlockChangeClearsOrReruns(db: Db, request: Request)
    requires Sound(db.agg)
    requires var before, after := db.agg.exec, Step(db, request).agg.exec;
             before.txHash != after.txHash || before.snapshot.blockHash != after.snapshot.blockHash
    ensures Step(db, request).agg.exec.assertion.None? || RunsCells(db, request)
  {
    match request
    case PollReq(p) =>
      if ReconcileOutcome(db.agg, p).Ok? {
        PollAssertion(db, p);
      }
    case _ =>
  }

  // ---- Settlement events -------------------------------------------------------------------------------------------

  predicate IsSettlementKind(kind: EventKind) {
    kind.SettlementReady? || kind.SettlementRevoked?
  }

  predicate IsSettlement(e: Event) {
    IsSettlementKind(e.kind)
  }

  function Settlements(events: seq<Event>): seq<Event> {
    if events == [] then []
    else
      var last := events[|events| - 1];
      Settlements(events[..|events| - 1]) + (if IsSettlement(last) then [last] else [])
  }

  lemma {:induction false} SettlementsAppend(events: seq<Event>, more: seq<Event>)
    requires |more| <= 2
    ensures Settlements(events + more) == Settlements(events)
              + (if |more| > 0 && IsSettlement(more[0]) then [more[0]] else [])
              + (if |more| > 1 && IsSettlement(more[1]) then [more[1]] else [])
  {
    if |more| == 0 {
      assert events + more == events;
    } else if |more| == 1 {
      assert (events + more)[..|events|] == events;
    } else {
      assert (events + more)[..|events| + 1] == events + more[..1];
      assert (events + more[..1])[..|events|] == events;
    }
  }

  /** READY and REVOKED take turns, READY first, and each carries the settlement flag it announces. */
  predicate Alternating(s: seq<Event>) {
    forall i :: 0 <= i < |s| ==>
      (s[i].kind.SettlementReady? <==> i % 2 == 0) && (s[i].settlementReady <==> s[i].kind.SettlementReady?)
  }

  /** The settlement events tell the stored state: the last one is READY exactly when it is settled. */
  predicate Told(db: Db) {
    && Alternating(Settlements(db.events))
    && (db.agg.exec.settlementReadyAt.Some? <==> Ready(db.agg))
    && (Ready(db.agg) <==> |Settlements(db.events)| % 2 == 1)
  }

  /** The stored settlement time is that of the last READY. */
  predicate Timed(db: Db) {
    var s := Settlements(db.events);
    Ready(db.agg) && s != [] ==> db.agg.exec.settlementReadyAt == Some(s[|s| - 1].at)
  }

  predicate Booked(db: Db) {
    Told(db) && Timed(db)
  }

  /** What a write promises of the books: they stay told, and timed if they were. */
  predicate KeepsBooks(before: Db, after: Db) {
    Told(after) && (Timed(before) ==> Timed(after))
  }

  /** A rejection report that names an input conflict and is accepted although the intent is settled. */
  predicate ConflictReportAfterSettlement(db: Db, request: Request) {
    && request.MarkReq? && ReportedConflict(request.mark).Some?
    && db.agg.exec.settlementReadyAt.Some?
    && ComputeMark(db.agg, request.mark).Ok?
  }

  /** One more event that says nothing about settlement, written while the settlement stays as it is. */
  lemma QuietWriteBooks(db: Db, after: Db, e: Event)
    requires Told(db) && after.events == db.events + [e] && !IsSettlement(e)
    requires Ready(after.agg) <==> Ready(db.agg)
    requires after.agg.exec.settlementReadyAt == db.agg.exec.settlementReadyAt
    ensures KeepsBooks(db, after)
  {
    SettlementsAppend(db.events, [e]);
  }

  lemma AttachBooks(db: Db, r: AttachRequest)
    requires Sound(db.agg) && Told(db)
    ensures KeepsBooks(db, Step(db, AttachReq(r)))
  {
    var after := Step(db, AttachReq(r));
    if after != db {
      var e := after.events[|db.events|];
      assert after.events == db.events + [e] && !IsSettlement(e);
      assert Ready(after.agg) <==> Ready(db.agg);
      QuietWriteBooks(db, after, e);
    }
  }

  lemma MarkBooks(db: Db, m: MarkRequest)
    requires Sound(db.agg) && Told(db) && !ConflictReportAfterSettlement(db, MarkReq(m))
    ensures KeepsBooks(db, Step(db, MarkReq(m)))
  {
    var after := Step(db, MarkReq(m));
    if after != db {
      var e := after.events[|db.events|];
      assert after.events == db.events + [e] && !IsSettlement(e);
      assert Ready(after.agg) <==> Ready(db.agg);
      QuietWriteBooks(db, after, e);
    }
  }

  /** A submission report keeps the books exactly when it is not a conflict report about a settled intent. */
  lemma MarkBooksExactlyWhen(db: Db, m: MarkRequest)
    requires Sound(db.agg) && Booked(db)
    ensures Booked(Step(db, MarkReq(m))) <==> !ConflictReportAfterSettlement(db, MarkReq(m))
  {
    if ConflictReportAfterSettlement(db, MarkReq(m)) {
      var after := Step(db, MarkReq(m));
      assert !Ready(after.agg) && after.agg.exec.settlementReadyAt.Some?;
    } else {
      MarkBooks(db, m);
    }
  }

  lemma TransitionBooks(before: seq<Event>, wasReady: bool, isReady: bool, e: Event, from: OverallStatus, to: OverallStatus, at: int)
    requires Alternating(Settlements(before)) && (wasReady <==> |Settlements(before)| % 2 == 1)
    requires !IsSettlement(e)
    ensures var s := Settlements(before + [e] + SettlementEvents(wasReady, isReady, from, to, at));
            && Alternating(s) && (isReady <==> |s| % 2 == 1)
            && (if wasReady == isReady then s == Settlements(before) else s[|s| - 1].at == at)
  {
    var more := [e] + SettlementEvents(wasReady, isReady, from, to, at);
    assert before + [e] + SettlementEvents(wasReady, isReady, from, to, at) == before + more;
    SettlementsAppend(before, more);
  }

  lemma ApplySnapshotBooks(db: Db, input: SnapshotInput)
    requires Sound(db.agg) && Told(db)
    requires !IsSettlementKind(input.kind)
    requires input.snapshot.policy == db.agg.exec.snapshot.policy
    ensures ApplySnapshot(db, db.agg, input).Ok? && KeepsBooks(db, ApplySnapshot(db, db.agg, input).value)
  {
    var after := SettlementIsReady(input.snapshot, input.assertion, db.agg.required, input.conflictType);
    var event := Event(input.kind, Some(input.fromStatus), input.toStatus, input.at, after);
    var settlement := SettlementEvents(Ready(db.agg), after, input.fromStatus, input.toStatus, input.at);
    var result := ApplySnapshot(db, db.agg, input).value;
    assert PriorReady(db.agg) <==> Ready(db.agg);
    assert Ready(result.agg) <==> after;
    if result.events == db.events + [] {
      assert result.events == db.events && (Ready(db.agg) <==> after);
    } else {
      assert result.events == db.events + ([event] + settlement) == db.events + [event] + settlement;
      TransitionBooks(db.events, Ready(db.agg), after, event, input.fromStatus, input.toStatus, input.at);
    }
  }

  lemma EvidenceKind(read: Aggregate, p: Poll, bundle: Bundle, applied: Applied)
    requires !IsSettlementKind(applied.kind)
    ensures !IsSettlementKind(AfterEvidence(read, p, bundle, applied).kind)
  {
    assert !IsSettlementKind(AfterObservation(read, bundle, applied).kind);
  }

  lemma OutcomeKind(read: Aggregate, p: Poll)
    ensures var s := ReconcileOutcome(read, p); s.Ok? ==> !IsSettlementKind(s.value.kind)
  {
    if p.result.PollAnswered? {
      var bundle := BundleFor(read, p.result.endpoint, p.result.answers);
      var applied := ApplyChainObservation(read.exec.snapshot, bundle.observation);
      if applied.Ok? {
        EvidenceKind(read, p, bundle, applied.value);
      }
    }
  }

  /** A promotion tells the books whatever the state; it keeps the time too, unless it settles a settled intent again. */
  lemma PromotionBooks(db: Db, input: PromoteInput)
    requires Told(db) && input.id < |db.agg.attempts|
    requires input.snapshot.policy == db.agg.exec.snapshot.policy
    requires !IsSettlementKind(input.kind)
    ensures Promote(db, db.agg, input).Ok? && Told(Promote(db, db.agg, input).value)
    ensures !Ready(db.agg) ==> Timed(Promote(db, db.agg, input).value)
  {
    var after := SettlementIsReady(input.snapshot, None, db.agg.required, db.agg.attempts[input.id].conflictType);
    var from, to := Overall(db.agg.exec.snapshot), Overall(input.snapshot);
    assert PriorReady(db.agg) <==> Ready(db.agg);
    TransitionBooks(db.events, Ready(db.agg), after,
                    Event(input.kind, Some(from), to, input.at, SettlementIsReady(input.snapshot, None, db.agg.required, None)),
                    from, to, input.at);
  }

  lemma PollBooks(db: Db, p: Poll)
    requires Sound(db.agg) && Told(db)
    ensures KeepsBooks(db, Step(db, PollReq(p)))
  {
    if ReconcileOutcome(db.agg, p).Ok? {
      PassKeepsSound(db.agg, p);
      OutcomeKind(db.agg, p);
      ApplySnapshotBooks(db, ReconcileOutcome(db.agg, p).value);
    }
  }

  lemma PromotionKind(read: Aggregate, id: AttemptId, result: PollResult, now: int)
    requires id < |read.attempts|
    ensures var outcome := ScanCandidate(read, id, result, now);
            outcome.Promotion? ==> !IsSettlementKind(outcome.input.kind)
  {
  }

  lemma PromotionScanBooks(db: Db, id: AttemptId, result: PollResult, now: int)
    requires Told(db) && db.agg.exec.txHash.Some? && IsCandidate(db.agg, id)
    requires ScanCandidate(db.agg, id, result, now).Promotion?
    ensures Told(Step(db, ScanReq(id, result, now)))
    ensures Timed(db) && !Ready(db.agg) ==> Timed(Step(db, ScanReq(id, result, now)))
  {
    PromotionIsSound(db.agg, id, result, now);
    PromotionKind(db.agg, id, result, now);
    PromotionBooks(db, ScanCandidate(db.agg, id, result, now).input);
    PromotionStep(db, id, result, now);
  }

  /** The write beside the projection leaves events and settlement alone. */
  lemma SideUpdateBooks(db: Db, id: AttemptId, s: Snapshot, conflictType: Option<ConflictType>, details: Option<Details>)
    ensures var after := UpdateCandidate(db, id, s, conflictType, details);
            after.events == db.events && after.agg.exec == db.agg.exec && after.agg.required == db.agg.required
            && (Ready(after.agg) <==> Ready(db.agg))
  {
  }

  lemma ScanBooks(db: Db, id: AttemptId, result: PollResult, now: int)
    requires Told(db)
    ensures Told(Step(db, ScanReq(id, result, now)))
    ensures Timed(db) && !Ready(db.agg) ==> Timed(Step(db, ScanReq(id, result, now)))
    ensures !IsCandidate(db.agg, id) ==> KeepsBooks(db, Step(db, ScanReq(id, result, now)))
  {
    if db.agg.exec.txHash.Some? && IsCandidate(db.agg, id) {
      match ScanCandidate(db.agg, id, result, now)
      case NoWrite =>
      case SideUpdate(s, conflictType, details) => SideUpdateBooks(db, id, s, conflictType, details);
      case Promotion(input) => PromotionScanBooks(db, id, result, now);
    }
  }

  /** Every write but a conflict report after settlement keeps the events in turn with the stored state. */
  lemma StepTells(db: Db, request: Request)
    requires Sound(db.agg) && Told(db)
    requires !ConflictReportAfterSettlement(db, request)
    ensures Told(Step(db, request))
  {
    match request
    case AttachReq(r) => AttachBooks(db, r);
    case MarkReq(m) => MarkBooks(db, m);
    case PollReq(p) => PollBooks(db, p);
    case ScanReq(id, result, now) => ScanBooks(db, id, result, now);
  }

  lemma StepBooks(db: Db, request: Request)
    requires Inv(db.agg) && Booked(db)
    requires !ConflictReportAfterSettlement(db, request)
    ensures Booked(Step(db, request))
  {
    match request
    case AttachReq(r) => AttachBooks(db, r);
    case MarkReq(m) => MarkBooks(db, m);
    case PollReq(p) => PollBooks(db, p);
    case ScanReq(id, result, now) =>
      ScanBooks(db, id, result, now);
      if IsCandidate(db.agg, id) {
        assert db.agg.winning.None?;
        assert !Ready(db.agg);
      }
  }

  /** Without such a report, READY and REVOKED strictly alternate and always agree with the stored settlement. */
  lemma {:induction false} SettlementEventsAlternate(policy: Policy, required: nat, requests: seq<Request>)
    requires forall k :: 0 <= k < |requests| ==>
               !ConflictReportAfterSettlement(Before(policy, required, requests, k), requests[k])
    ensures Booked(Run(Init(policy, required), requests))
  {
    if requests == [] {
      StartIsQuiet(policy, required);
    } else {
      var n := |requests| - 1;
      forall k | 0 <= k < n
        ensures !ConflictReportAfterSettlement(Before(policy, required, requests[..n], k), requests[..n][k])
      {
        BeforeOfPrefix(policy, required, requests, n, k);
      }
      SettlementEventsAlternate(policy, required, requests[..n]);
      RunKeeps(policy, required, requests[..n]);
      StepBooks(Before(policy, required, requests, n), requests[n]);
    }
  }

  // ---- A run that announces settlement twice -----------------------------------------------------------------------

  /** A pass that sees the transaction committed, with this monitoring period configured. */
  function MonitoredCommit(hash: string, height: string, at: int, monitorMs: nat): Request {
    PollReq(Poll(["rpc"],
                 PollAnswered("rpc", Answers(at, TxAnswer("committed", Some(hash), None, None), Some(hash), Some(height),
                                             Some(height), Some(hash), [], at, None)),
                 map[], [], 30000, monitorMs, at))
  }

  function CommittedPoll(hash: string, height: string, at: int): Request {
    MonitoredCommit(hash, height, at, 0)
  }

  function Repeated(c: char, n: nat): (text: string)
    ensures |text| == n && forall i :: 0 <= i < n ==> text[i] == c
  {
    if n == 0 then "" else Repeated(c, n - 1) + [c]
  }

  const HASH := "0x" + Repeated('0', 64)

  const OTHER_HASH := "0x" + Repeated('1', 64)

  const HEIGHT := "0x1"

  lemma HashIsWellFormed()
    ensures Hex.NormalizeHash(Some(HASH)).Some? && Hex.ParseHeight(Some(HEIGHT)).Some?
  {
    assert Trim(HASH) == HASH;
    assert ToLower(HASH) == HASH;
    assert HEIGHT[2..] == "1";
  }

  lemma OtherHashDiffers()
    ensures Hex.NormalizeHash(Some(HASH)) == Some(HASH) && Hex.NormalizeHash(Some(OTHER_HASH)) == Some(OTHER_HASH)
    ensures HASH != OTHER_HASH
  {
    assert Trim(HASH) == HASH && ToLower(HASH) == HASH;
    assert Trim(OTHER_HASH) == OTHER_HASH && ToLower(OTHER_HASH) == OTHER_HASH;
    assert HASH[2] != OTHER_HASH[2];
  }

  const ATTACH_TX := AttachReq(AttachRequest("tx", Prepared, None, None, None, None, None, false, {}, 1))

  const START_BROADCAST := MarkReq(MarkRequest(Broadcasting, None, 2))

  const LATE_CONFLICT_REPORT :=
    MarkReq(MarkRequest(NodeRejected, Some(Failure(RpcRejection, false, false, Some(InputConflictSuspected))), 4))

  /** Neither settled nor conflicting, with nothing said about settlement yet. */
  predicate Broadcast(db: Db) {
    && db.agg.exec.txHash.Some? && db.agg.required == 0 && db.agg.active == Some(0)
    && |db.agg.attempts| == 1 && db.agg.attempts[0].payloadHash.None?
    && db.agg.exec.inputs == [] && db.agg.exec.refs == []
    && db.agg.exec.snapshot == InitialSnapshot(WhenCommitted).(submission := Broadcasting)
    && Settlements(db.events) == []
  }

  lemma SilentEvent(events: seq<Event>, e: Event)
    requires !IsSettlement(e)
    ensures Settlements(events + [e]) == Settlements(events)
  {
    SettlementsAppend(events, [e]);
  }

  /** The intent right after its first attempt is prepared. */
  predicate PreparedOnly(db: Db) {
    && db.agg.exec.txHash.Some? && db.agg.required == 0 && db.agg.active == Some(0)
    && |db.agg.attempts| == 1 && db.agg.attempts[0].payloadHash.None?
    && db.agg.exec.inputs == [] && db.agg.exec.refs == []
    && db.agg.exec.snapshot == InitialSnapshot(WhenCommitted).(submission := Prepared)
    && Settlements(db.events) == []
  }

  lemma StartIsQuiet(policy: Policy, required: nat)
    ensures Settlements(Init(policy, required).events) == []
  {
    SilentEvent([], Init(policy, required).events[0]);
    assert [] + [Init(policy, required).events[0]] == Init(policy, required).events;
  }

  lemma FirstAttach()
    ensures var start, after := Init(WhenCommitted, 0), Step(Init(WhenCommitted, 0), ATTACH_TX);
            && after.agg.exec.txHash.Some? && after.agg.required == 0 && after.agg.active == Some(0)
            && |after.agg.attempts| == 1 && after.agg.attempts[0].payloadHash.None?
            && after.agg.exec.inputs == [] && after.agg.exec.refs == []
            && after.agg.exec.snapshot == InitialSnapshot(WhenCommitted).(submission := Prepared)
            && (exists e :: !IsSettlement(e) && after.events == start.events + [e])
  {
    var start := Init(WhenCommitted, 0);
    var input := ComputeAttach(start.agg, ATTACH_TX.attach);
    assert input.Ok? && FindAttempt(start.agg.attempts, "tx").None?;
    assert AttachTransaction(start, start.agg, input.value).Ok?;
    var after := Step(start, ATTACH_TX);
    assert !IsSettlement(after.events[1]) && after.events == start.events + [after.events[1]];
  }

  lemma PreparedIsReached()
    ensures PreparedOnly(Step(Init(WhenCommitted, 0), ATTACH_TX))
  {
    FirstAttach();
    StartIsQuiet(WhenCommitted, 0);
    var start := Init(WhenCommitted, 0);
    var e :| !IsSettlement(e) && Step(start, ATTACH_TX).events == start.events + [e];
    SilentEvent(start.events, e);
  }

  lemma BroadcastIsReached()
    ensures Broadcast(Run(Init(WhenCommitted, 0), [ATTACH_TX, START_BROADCAST]))
  {
    var start := Init(WhenCommitted, 0);
    PreparedIsReached();
    var attached := Step(start, ATTACH_TX);
    RunTwo(start, ATTACH_TX, START_BROADCAST);
    StartsBroadcast(attached);
  }

  lemma StartsBroadcast(db: Db)
    requires PreparedOnly(db)
    ensures Broadcast(Step(db, START_BROADCAST))
  {
    var marked := Step(db, START_BROADCAST);
    SilentEvent(db.events, marked.events[|db.events|]);
  }

  /** An unsettled intent that a single observed commit settles. */
  predicate AboutToSettle(db: Db) {
    && db.agg.exec.txHash.Some? && db.agg.required == 0 && !Ready(db.agg)
    && ExpectedPayload(db.agg).None?
    && !db.agg.exec.snapshot.workflow.Conflicted? && !db.agg.exec.snapshot.workflow.Expired?
    && db.agg.exec.snapshot.policy.WhenCommitted?
  }

  lemma CommitOutcome(db: Db, hash: string, height: string, at: int, monitorMs: nat)
    requires Hex.NormalizeHash(Some(hash)).Some? && Hex.ParseHeight(Some(height)).Some?
    requires AboutToSettle(db)
    ensures var outcome := ReconcileOutcome(db.agg, MonitoredCommit(hash, height, at, monitorMs).poll);
            && outcome.Ok?
            && outcome.value.at == at && outcome.value.conflictType.None?
            && outcome.value.snapshot.workflow.Confirmed? && outcome.value.snapshot.chain.Committed?
            && outcome.value.snapshot.blockHash == Some(hash) && outcome.value.snapshot.blockNumber == Some(height)
            && outcome.value.snapshot.policy == db.agg.exec.snapshot.policy
            && outcome.value.snapshot.submission
               == (if db.agg.exec.snapshot.submission.NodeRejected? then Submitted else db.agg.exec.snapshot.submission)
  {
    var poll := MonitoredCommit(hash, height, at, monitorMs).poll;
    var bundle := BundleFor(db.agg, "rpc", poll.result.answers);
    assert bundle.observation.status.Committed?;
  }

  /** It becomes settled at the time of the observation, and exactly one more event says so: READY. */
  lemma CommitSettles(db: Db, hash: string, height: string, at: int, monitorMs: nat)
    requires Hex.NormalizeHash(Some(hash)).Some? && Hex.ParseHeight(Some(height)).Some?
    requires AboutToSettle(db)
    ensures var after := Step(db, MonitoredCommit(hash, height, at, monitorMs));
            && Ready(after.agg) && after.agg.exec.settlementReadyAt == Some(at)
            && after.agg.exec.inputs == db.agg.exec.inputs && after.agg.exec.refs == db.agg.exec.refs
            && after.agg.required == 0 && after.agg.exec.txHash.Some? && ExpectedPayload(after.agg).None?
            && after.agg.exec.snapshot.policy.WhenCommitted?
            && (db.agg.exec.snapshot.submission.Broadcasting? ==> after.agg.exec.snapshot.submission.Broadcasting?)
            && exists e :: IsSettlement(e) && e.kind.SettlementReady? && Settlements(after.events) == Settlements(db.events) + [e]
  {
    var poll := MonitoredCommit(hash, height, at, monitorMs).poll;
    CommitOutcome(db, hash, height, at, monitorMs);
    OutcomeKind(db.agg, poll);
    var outcome := ReconcileOutcome(db.agg, poll).value;
    var event := Event(outcome.kind, Some(outcome.fromStatus), outcome.toStatus, outcome.at, true);
    var ready := SettlementEvents(false, true, outcome.fromStatus, outcome.toStatus, outcome.at);
    SettlementsAppend(db.events, [event] + ready);
    assert IsSettlement(ready[0]) && Settlements(db.events) + [] + [ready[0]] == Settlements(db.events) + [ready[0]];
  }

  lemma ConflictReportIsSilent(db: Db)
    requires db.agg.exec.txHash.Some? && db.agg.exec.snapshot.submission.Broadcasting?
    requires Ready(db.agg) && db.agg.required == 0
    requires ExpectedPayload(db.agg).None? && db.agg.exec.snapshot.policy.WhenCommitted?
    ensures AboutToSettle(Step(db, LATE_CONFLICT_REPORT))
    ensures Settlements(Step(db, LATE_CONFLICT_REPORT).events) == Settlements(db.events)
  {
    var after := Step(db, LATE_CONFLICT_REPORT);
    SilentEvent(db.events, after.events[|db.events|]);
  }

  /** Two READY events in a row: a late conflict report clears the settlement without revoking it. */
  lemma LateConflictReportRepeatsReady(hash: string, height: string)
    requires Hex.NormalizeHash(Some(hash)).Some? && Hex.ParseHeight(Some(height)).Some?
    ensures var requests := [ATTACH_TX, START_BROADCAST] + [CommittedPoll(hash, height, 3), LATE_CONFLICT_REPORT]
                            + [CommittedPoll(hash, height, 5)];
            var s := Settlements(Run(Init(WhenCommitted, 0), requests).events);
            |s| == 2 && s[0].kind.SettlementReady? && s[1].kind.SettlementReady? && !Alternating(s)
  {
    var start := Init(WhenCommitted, 0);
    var first, second := CommittedPoll(hash, height, 3), CommittedPoll(hash, height, 5);
    BroadcastIsReached();
    var db := Run(start, [ATTACH_TX, START_BROADCAST]);
    CommitSettles(db, hash, height, 3, 0);
    ConflictReportIsSilent(Step(db, first));
    CommitSettles(Step(Step(db, first), LATE_CONFLICT_REPORT), hash, height, 5, 0);
    RunAppend(start, [ATTACH_TX, START_BROADCAST], [first, LATE_CONFLICT_REPORT]);
    RunTwo(db, first, LATE_CONFLICT_REPORT);
    RunAppend(start, [ATTACH_TX, START_BROADCAST] + [first, LATE_CONFLICT_REPORT], [second]);
    RunOne(Step(Step(db, first), LATE_CONFLICT_REPORT), second);
  }
}
