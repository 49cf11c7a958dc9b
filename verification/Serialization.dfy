/** Committed writes form a run of the serial machine: what every interleaving of callers amounts to. */
module Serialization {
  import opened Prelude
  import opened Types
  import opened StateMachine
  import opened Rpc
  import opened Store
  import opened Service
  import opened Reconcile
  import opened Machine
  import opened Invariants
  import opened Interleaving

  // ---- The time of the next pass -----------------------------------------------------------------------------------

  /** Nothing is written differently but the time of the next pass. */
  predicate SameButSchedule(a: Db, b: Db) {
    && a.events == b.events
    && a.agg == b.agg.(exec := b.agg.exec.(nextReconcileAt := a.agg.exec.nextReconcileAt))
  }

  predicate SameResult(a: Result<Db, Error>, b: Result<Db, Error>) {
    if a.Ok? then b.Ok? && SameButSchedule(a.value, b.value) else a == b
  }

  predicate SameInput(a: Result<SnapshotInput, Error>, b: Result<SnapshotInput, Error>) {
    if a.Ok? then b.Ok? && a.value == b.value.(nextReconcileAt := a.value.nextReconcileAt) else a == b
  }

  lemma SameDraft(read: Aggregate, agg: Aggregate, poll: Poll, endpoint: string, answers: Answers)
    requires read.exec == agg.exec.(nextReconcileAt := read.exec.nextReconcileAt) && read.required == agg.required
    requires ExpectedPayload(read) == ExpectedPayload(agg)
    ensures SameInput(AnsweredOutcome(read, poll, endpoint, answers), AnsweredOutcome(agg, poll, endpoint, answers))
  {
    var bundle := BundleFor(read, endpoint, answers);
    assert bundle == BundleFor(agg, endpoint, answers);
    var applied := ApplyChainObservation(read.exec.snapshot, bundle.observation);
    if applied.Ok? {
      assert AfterObservation(read, bundle, applied.value) == AfterObservation(agg, bundle, applied.value);
      assert AfterEvidence(read, poll, bundle, applied.value) == AfterEvidence(agg, poll, bundle, applied.value);
      assert AfterCells(read, poll, bundle, applied.value) == AfterCells(agg, poll, bundle, applied.value);
    }
  }

  lemma SameOutcome(read: Aggregate, agg: Aggregate, poll: Poll)
    requires read.exec == agg.exec.(nextReconcileAt := read.exec.nextReconcileAt) && read.required == agg.required
    requires ExpectedPayload(read) == ExpectedPayload(agg)
    ensures SameInput(ReconcileOutcome(read, poll), ReconcileOutcome(agg, poll))
  {
    if poll.result.PollAnswered? {
      SameDraft(read, agg, poll, poll.result.endpoint, poll.result.answers);
    }
  }

  lemma SameSnapshotWrite(a: Db, read: Aggregate, b: Db, x: SnapshotInput, y: SnapshotInput)
    requires SameButSchedule(a, b) && x == y.(nextReconcileAt := x.nextReconcileAt)
    requires SameRow(read, a.agg)
    ensures SameResult(ApplySnapshot(a, read, x), ApplySnapshot(b, b.agg, y))
  {
    assert PriorReady(read) == PriorReady(b.agg);
    assert Meaningful(read.exec, x) == Meaningful(b.agg.exec, y);
  }

  /** A poll computed before scans wrote their results, or on another schedule, writes the same but for the schedule. */
  lemma PollIgnoresScansAndSchedule(a: Db, read: Aggregate, b: Db, poll: Poll)
    requires SameButSchedule(a, b) && Agrees(read, a.agg)
    ensures SameResult(PollStep(a, read, poll), PollStep(b, b.agg, poll))
  {
    if ActiveAttempt(a.agg).Some? {
      assert SameButScanned(read.attempts[a.agg.active.value], a.agg.attempts[a.agg.active.value]);
    }
    assert ExpectedPayload(read) == ExpectedPayload(b.agg);
    SameOutcome(read, b.agg, poll);
    var x, y := ReconcileOutcome(read, poll), ReconcileOutcome(b.agg, poll);
    if x.Ok? {
      SameSnapshotWrite(a, read, b, x.value, y.value);
    }
  }

  lemma AttachIgnoresSchedule(a: Db, b: Db, input: AttachInput)
    requires SameButSchedule(a, b)
    ensures AttachTransaction(a, a.agg, input) == AttachTransaction(b, b.agg, input)
  {
    assert ExecutionAfterAttach(a, a.agg, input) == ExecutionAfterAttach(b, b.agg, input);
    assert AttachGuard(a.agg, input) == AttachGuard(b.agg, input);
    assert AttachConflict(a, a.agg, input) == AttachConflict(b, b.agg, input);
    assert AttemptsAfterAttach(a, a.agg, input) == AttemptsAfterAttach(b, b.agg, input);
  }

  lemma ScanIgnoresSchedule(a: Db, b: Db, id: AttemptId, result: PollResult, now: int)
    requires SameButSchedule(a, b)
    ensures SameResult(ScanStep(a, a.agg, id, result, now), ScanStep(b, b.agg, id, result, now))
  {
    if id < |a.agg.attempts| {
      SameScan(a.agg, b.agg, id, result, now);
    }
  }

  /** What a request does never depends on when the next pass is due. */
  lemma StepIgnoresSchedule(a: Db, b: Db, request: Request)
    requires SameButSchedule(a, b)
    ensures SameButSchedule(Step(a, request), Step(b, request))
  {
    match request
    case AttachReq(r) =>
      assert ComputeAttach(a.agg, r) == ComputeAttach(b.agg, r);
      if ComputeAttach(a.agg, r).Ok? {
        AttachIgnoresSchedule(a, b, ComputeAttach(a.agg, r).value);
      }
    case MarkReq(m) => assert ComputeMark(a.agg, m) == ComputeMark(b.agg, m);
    case PollReq(p) => PollIgnoresScansAndSchedule(a, a.agg, b, p);
    case ScanReq(id, result, now) => ScanIgnoresSchedule(a, b, id, result, now);
  }

  // ---- Attaching and marking ---------------------------------------------------------------------------------------

  lemma AttachIsSerial(db: Db, read: Aggregate, input: AttachInput)
    requires Agrees(read, db.agg)
    ensures AttachTransaction(db, read, input) == AttachTransaction(db, db.agg, input)
  {
    if ActiveAttempt(db.agg).Some? {
      assert SameButScanned(read.attempts[read.active.value], db.agg.attempts[read.active.value]);
      assert ActiveAttempt(read).value.inputs == ActiveAttempt(db.agg).value.inputs;
    }
    assert AttachGuard(read, input) == AttachGuard(db.agg, input);
    assert AttachConflict(db, read, input) == AttachConflict(db, db.agg, input);
    assert AttemptsAfterAttach(db, read, input) == AttemptsAfterAttach(db, db.agg, input);
  }

  /** Attaching and marking never look at scanned columns: what they write is what the serial machine writes. */
  lemma ApiWritesAreSerial(db: Db, read: Aggregate, request: Request)
    requires Agrees(read, db.agg)
    requires request.AttachReq? || request.MarkReq?
    ensures Write(db, read, request) == Write(db, db.agg, request)
  {
    if request.AttachReq? {
      var input := ComputeAttach(read, request.attach);
      assert input == ComputeAttach(db.agg, request.attach);
      if input.Ok? {
        AttachIsSerial(db, read, input.value);
      }
    }
  }

  // ---- Which interleavings are serial ------------------------------------------------------------------------------

  /** A scan that has nothing to write. */
  predicate WritesNothing(read: Aggregate, request: Request) {
    && request.ScanReq?
    && (IsIdleScan(read, request) || ScanCandidate(read, request.id, request.result, request.now).NoWrite?)
  }

  /** The action writes to the rows. */
  predicate Commits(sys: System, a: Action) {
    Acts(sys, a) && Attempted(sys, a).Ok? && !WritesNothing(sys.callers[a.c].read, a.request)
  }

  /** A scan that writes finds its own candidate as it read it, and still competing. Other requests are free. */
  predicate NotOvertaken(sys: System, a: Action) {
    Commits(sys, a) && a.request.ScanReq? ==>
      var read, id := sys.callers[a.c].read, a.request.id;
      && id < |read.attempts| && id < |sys.db.agg.attempts|
      && sys.db.agg.attempts[id] == read.attempts[id] && sys.db.agg.active != Some(id)
  }

  predicate NoneOvertaken(sys: System, actions: seq<Action>) {
    forall k :: 0 <= k < |actions| ==> NotOvertaken(Execute(sys, actions[..k]), actions[k])
  }

  /** The requests that wrote, in the order in which they did. */
  function Written(sys: System, actions: seq<Action>): seq<Request> {
    if actions == [] then []
    else
      var before, last := Execute(sys, actions[..|actions| - 1]), actions[|actions| - 1];
      Written(sys, actions[..|actions| - 1]) + (if Commits(before, last) then [last.request] else [])
  }

  lemma SameScan(read: Aggregate, agg: Aggregate, id: AttemptId, result: PollResult, now: int)
    requires read.exec.snapshot.policy == agg.exec.snapshot.policy
    requires id < |read.attempts| && id < |agg.attempts| && read.attempts[id] == agg.attempts[id]
    ensures ScanCandidate(read, id, result, now) == ScanCandidate(agg, id, result, now)
  {
  }

  /** A scan of a candidate that is still as it was read writes what the serial machine writes. */
  lemma ScanIsSerial(sys: System, a: Action)
    requires AllConsistent(sys) && Commits(sys, a) && NotOvertaken(sys, a) && a.request.ScanReq?
    ensures Attempted(sys, a) == Ok(Step(sys.db, a.request))
  {
    var read, db := sys.callers[a.c].read, sys.db;
    assert Consistent(sys.callers[a.c], db.agg);
    SameScan(read, db.agg, a.request.id, a.request.result, a.request.now);
    if !IsSideUpdate(read, a.request) {
      VersionedWrite(db, read, a.request);
      var input := ScanCandidate(read, a.request.id, a.request.result, a.request.now).input;
      assert Promote(db, read, input) == Promote(db, db.agg, input);
    }
  }

  /** What an action writes is what the serial machine writes, but for the time of the next pass. */
  lemma CommitIsSerial(sys: System, a: Action)
    requires AllConsistent(sys) && Commits(sys, a) && NotOvertaken(sys, a)
    ensures SameButSchedule(Act(sys, a).db, Step(sys.db, a.request))
  {
    var read := sys.callers[a.c].read;
    assert Consistent(sys.callers[a.c], sys.db.agg);
    if a.request.ScanReq? {
      ScanIsSerial(sys, a);
    } else {
      VersionedWrite(sys.db, read, a.request);
      if a.request.PollReq? {
        PollIgnoresScansAndSchedule(sys.db, read, sys.db, a.request.poll);
      } else {
        ApiWritesAreSerial(sys.db, read, a.request);
      }
    }
  }

  lemma OtherwiseNothing(sys: System, a: Action)
    requires !Commits(sys, a)
    ensures Act(sys, a).db == sys.db
  {
  }

  lemma NoneOvertakenPrefix(sys: System, actions: seq<Action>, n: nat)
    requires n <= |actions| && NoneOvertaken(sys, actions)
    ensures NoneOvertaken(sys, actions[..n])
  {
    forall k | 0 <= k < n
      ensures NotOvertaken(Execute(sys, actions[..n][..k]), actions[..n][k])
    {
      assert actions[..n][..k] == actions[..k];
    }
  }

  lemma SameButScheduleTransitive(a: Db, b: Db, c: Db)
    requires SameButSchedule(a, b) && SameButSchedule(b, c)
    ensures SameButSchedule(a, c)
  {
  }

  /** An interleaving in which no scan is overtaken ends as the serial run of the requests that wrote. */
  lemma {:induction false} SerialRefinement(sys: System, actions: seq<Action>)
    requires AllConsistent(sys) && NoneOvertaken(sys, actions)
    ensures SameButSchedule(Execute(sys, actions).db, Run(sys.db, Written(sys, actions)))
  {
    if actions != [] {
      var n := |actions| - 1;
      var before, last := Execute(sys, actions[..n]), actions[n];
      var serial := Run(sys.db, Written(sys, actions[..n]));
      NoneOvertakenPrefix(sys, actions, n);
      SerialRefinement(sys, actions[..n]);
      if Commits(before, last) {
        ExecuteKeepsConsistency(sys, actions[..n]);
        CommitIsSerial(before, last);
        StepIgnoresSchedule(before.db, serial, last.request);
        SameButScheduleTransitive(Execute(sys, actions).db, Step(before.db, last.request), Step(serial, last.request));
        RunAppend(sys.db, Written(sys, actions[..n]), [last.request]);
        RunOne(serial, last.request);
      } else {
        OtherwiseNothing(before, last);
        assert Written(sys, actions) == Written(sys, actions[..n]) + [] == Written(sys, actions[..n]);
      }
    }
  }

  // ---- What therefore holds in every interleaving ------------------------------------------------------------------

  lemma InvIgnoresSchedule(a: Db, b: Db)
    requires SameButSchedule(a, b) && Inv(b.agg)
    ensures Inv(a.agg)
  {
  }

  lemma {:induction false} RunKeepsFrom(db: Db, requests: seq<Request>)
    requires Inv(db.agg)
    ensures Inv(Run(db, requests).agg)
  {
    if requests != [] {
      RunKeepsFrom(db, requests[..|requests| - 1]);
      StepKeeps(Run(db, requests[..|requests| - 1]), requests[|requests| - 1]);
    }
  }

  /** From any state that has the invariants, an interleaving in which no scan is overtaken keeps them. */
  lemma InterleavingsKeep(sys: System, actions: seq<Action>)
    requires AllConsistent(sys) && Inv(sys.db.agg) && NoneOvertaken(sys, actions)
    ensures Inv(Execute(sys, actions).db.agg)
  {
    SerialRefinement(sys, actions);
    RunKeepsFrom(sys.db, Written(sys, actions));
    InvIgnoresSchedule(Execute(sys, actions).db, Run(sys.db, Written(sys, actions)));
  }
}
