/** Runs in which the repair sweep passes over an intent that still needs a pass, and only a running loop polls it. */
module PollingRuns {
  import opened Prelude
  import opened Types
  import opened StateMachine
  import opened Rpc
  import opened Store
  import opened Service
  import opened Reconcile
  import opened Machine
  import opened Invariants
  import opened Confirmation
  import opened Settlement
  import opened Attempts
  import opened LateScans
  import opened Polling

  // ---- A replacement that is only prepared -------------------------------------------------------------------------

  const PREPARED_REPLACEMENT := Attaching("b", Prepared, Some([INPUT]), RbfReplacement)

  /** A submitted transaction is a candidate that the sweep will not come back to. */
  predicate HidesLiveCandidate(agg: Aggregate) {
    && Unresolved(agg) && IsCandidate(agg, 0)
    && PotentiallyLive(agg.attempts[0].submission, agg.attempts[0].chain)
    && (agg.exec.nextReconcileAt.None? || Closed(agg.exec))
  }

  lemma ReplacementIsPrepared(db: Db)
    requires FirstSubmitted(db)
    ensures HidesLiveCandidate(Step(db, PREPARED_REPLACEMENT).agg)
  {
    assert "a"[0] != "b"[0];
    assert FindAttempt(db.agg.attempts, "b").None?;
    assert SameOutPoint([INPUT][0], db.agg.attempts[0].inputs[0]);
    assert SharesInput([INPUT], db.agg.attempts[0].inputs);
    assert IsCandidate(Step(db, PREPARED_REPLACEMENT).agg, 0);
  }

  /** Attaching a replacement as PREPARED takes a submitted transaction out of the sweep. */
  lemma PreparedReplacementHidesCandidate()
    ensures var after := Run(Init(WhenCommitted, 0), [FIRST, PREPARED_REPLACEMENT]).agg;
            HidesLiveCandidate(after) && !Sweepable(after.exec) && after.exec.nextReconcileAt.None?
  {
    FirstIsSubmitted();
    ReplacementIsPrepared(Step(Init(WhenCommitted, 0), FIRST));
    RunTwo(Init(WhenCommitted, 0), FIRST, PREPARED_REPLACEMENT);
    SweepableExactlyWhen(Run(Init(WhenCommitted, 0), [FIRST, PREPARED_REPLACEMENT]).agg.exec);
    AttachForgets(Step(Init(WhenCommitted, 0), FIRST), PREPARED_REPLACEMENT.attach);
  }

  // ---- A replacement that is rejected ------------------------------------------------------------------------------

  /** A node rejects the active attempt. */
  const REJECTED_POLL :=
    PollReq(Poll(["rpc"],
                 PollAnswered("rpc", Answers(3, TxAnswer("rejected", None, None, None), None, None, None, None, [], 3, None)),
                 map[], [], 30000, 0, 3))

  lemma ActiveIsRejected(db: Db)
    requires Inv(db.agg) && BothSubmitted(db)
    ensures ReconcileOutcome(db.agg, REJECTED_POLL.poll).Ok?
    ensures var after := Step(db, REJECTED_POLL).agg;
            HidesLiveCandidate(after) && after.exec.nextReconcileAt.Some? && !TerminalOutcome(db.agg, REJECTED_POLL.poll)
  {
    var poll := REJECTED_POLL.poll;
    var bundle := BundleFor(db.agg, "rpc", poll.result.answers);
    assert bundle.observation.status.Rejected?;
    assert IsCandidate(db.agg, 0);
    assert ReconcileOutcome(db.agg, poll).value.snapshot.chain.Rejected?;
    var after := Step(db, REJECTED_POLL).agg;
    assert after.attempts[0] == db.agg.attempts[0];
    assert IsCandidate(after, 0);
    PassSchedulesCandidates(db, poll);
  }

  /** A rejection of the replacement takes the transaction it was to replace out of the sweep, although a pass is scheduled. */
  lemma RejectedReplacementHidesCandidate()
    ensures var before := Run(Init(WhenCommitted, 0), [FIRST, REPLACEMENT]);
            var after := Run(Init(WhenCommitted, 0), [FIRST, REPLACEMENT] + [REJECTED_POLL]).agg;
            && HidesLiveCandidate(after) && after.exec.nextReconcileAt.Some? && !Sweepable(after.exec)
            && !TerminalOutcome(before.agg, REJECTED_POLL.poll)
  {
    var start := Init(WhenCommitted, 0);
    FirstIsSubmitted();
    BothAreSubmitted(Step(start, FIRST));
    RunTwo(start, FIRST, REPLACEMENT);
    RunKeeps(WhenCommitted, 0, [FIRST, REPLACEMENT]);
    ActiveIsRejected(Run(start, [FIRST, REPLACEMENT]));
    RunAppend(start, [FIRST, REPLACEMENT], [REJECTED_POLL]);
    RunOne(Run(start, [FIRST, REPLACEMENT]), REJECTED_POLL);
    SweepableExactlyWhen(Run(start, [FIRST, REPLACEMENT] + [REJECTED_POLL]).agg.exec);
  }

  // ---- A settlement whose broadcast is refused late ----------------------------------------------------------------

  const HOUR_MS := 3600000

  const WATCHED_COMMIT := MonitoredCommit(HASH, HEIGHT, 3, HOUR_MS)

  const LATE_REFUSAL := MarkReq(MarkRequest(NodeRejected, Some(Failure(RpcRejection, false, false, None)), 4))

  /** A lagging node does not know the transaction; the monitoring period is an hour. */
  const ABSENT_POLL :=
    PollReq(Poll(["rpc"], PollAnswered("rpc", Answers(5, NoTransaction, None, None, None, None, [], 5, None)),
                 map[], [], 30000, HOUR_MS, 5))

  /** Settled at time 3, with this submission status. */
  predicate SettledAtThree(db: Db, submission: SubmissionStatus) {
    && Inv(db.agg) && Booked(db) && Ready(db.agg)
    && db.agg.required == 0 && db.agg.exec.txHash.Some?
    && db.agg.exec.inputs == [] && db.agg.exec.refs == []
    && db.agg.exec.snapshot.submission == submission && db.agg.exec.settlementReadyAt == Some(3)
  }

  lemma BroadcastIsBooked()
    ensures Booked(Run(Init(WhenCommitted, 0), [ATTACH_TX, START_BROADCAST]))
    ensures Inv(Run(Init(WhenCommitted, 0), [ATTACH_TX, START_BROADCAST]).agg)
  {
    var start := Init(WhenCommitted, 0);
    RunKeeps(WhenCommitted, 0, [ATTACH_TX, START_BROADCAST]);
    SettlementEventsAlternate(WhenCommitted, 0, []);
    RunKeeps(WhenCommitted, 0, []);
    StepBooks(start, ATTACH_TX);
    StepKeeps(start, ATTACH_TX);
    PreparedIsReached();
    StepBooks(Step(start, ATTACH_TX), START_BROADCAST);
    RunTwo(start, ATTACH_TX, START_BROADCAST);
  }

  lemma CommitIsWatched(db: Db)
    requires Inv(db.agg) && Booked(db) && Broadcast(db)
    ensures SettledAtThree(Step(db, WATCHED_COMMIT), Broadcasting) && Sweepable(Step(db, WATCHED_COMMIT).agg.exec)
  {
    HashIsWellFormed();
    CommitSettles(db, HASH, HEIGHT, 3, HOUR_MS);
    CommitOutcome(db, HASH, HEIGHT, 3, HOUR_MS);
    StepKeeps(db, WATCHED_COMMIT);
    StepBooks(db, WATCHED_COMMIT);
    WatchedExactlyWhen(db, WATCHED_COMMIT.poll);
  }

  lemma RefusalLeavesSettled(db: Db)
    requires SettledAtThree(db, Broadcasting)
    ensures SettledAtThree(Step(db, LATE_REFUSAL), NodeRejected)
  {
    StepKeeps(db, LATE_REFUSAL);
    StepBooks(db, LATE_REFUSAL);
  }

  lemma AbsentChangesNothing(db: Db)
    requires SettledAtThree(db, NodeRejected)
    ensures var outcome := ReconcileOutcome(db.agg, ABSENT_POLL.poll);
            && outcome.Ok? && outcome.value.snapshot == db.agg.exec.snapshot
            && outcome.value.conflictType.None? && outcome.value.assertion == db.agg.exec.assertion
  {
    var poll := ABSENT_POLL.poll;
    var bundle := BundleFor(db.agg, "rpc", poll.result.answers);
    assert bundle.observation.status.Unknown? && bundle.inspection.None?;
    assert bundle.observation.priorCommitCanonical.None?;
    var applied := ApplyChainObservation(db.agg.exec.snapshot, bundle.observation).value;
    assert AfterEvidence(db.agg, poll, bundle, applied) == AfterObservation(db.agg, bundle, applied);
  }

  lemma AbsentIsNotTerminal(db: Db)
    requires SettledAtThree(db, NodeRejected)
    ensures !Sweepable(db.agg.exec) && InPeriod(db.agg, ABSENT_POLL.poll)
    ensures ReconcileOutcome(db.agg, ABSENT_POLL.poll).Ok? && !TerminalOutcome(db.agg, ABSENT_POLL.poll)
  {
    AbsentChangesNothing(db);
    SweepMissesSettledExactlyWhen(db.agg);
    WatchedExactlyWhen(db, ABSENT_POLL.poll);
  }

  /**
   * A settled intent is watched; the late refusal of its broadcast alone takes it out of the sweep. A loop that is running
   * goes on: even a pass that does not find the transaction is not terminal within the period.
   */
  lemma LateRefusalHidesSettled()
    ensures var watched := [ATTACH_TX, START_BROADCAST] + [WATCHED_COMMIT];
            var before, after := Run(Init(WhenCommitted, 0), watched).agg, Run(Init(WhenCommitted, 0), watched + [LATE_REFUSAL]).agg;
            && Ready(before) && Sweepable(before.exec)
            && Ready(after) && !Sweepable(after.exec) && InPeriod(after, ABSENT_POLL.poll)
            && ReconcileOutcome(after, ABSENT_POLL.poll).Ok? && !TerminalOutcome(after, ABSENT_POLL.poll)
  {
    var start, broadcast := Init(WhenCommitted, 0), [ATTACH_TX, START_BROADCAST];
    BroadcastIsReached();
    BroadcastIsBooked();
    CommitIsWatched(Run(start, broadcast));
    RunAppend(start, broadcast, [WATCHED_COMMIT]);
    RunOne(Run(start, broadcast), WATCHED_COMMIT);
    var settled := Run(start, broadcast + [WATCHED_COMMIT]);
    RefusalLeavesSettled(settled);
    AbsentIsNotTerminal(Step(settled, LATE_REFUSAL));
    RunAppend(start, broadcast + [WATCHED_COMMIT], [LATE_REFUSAL]);
    RunOne(settled, LATE_REFUSAL);
  }
}
