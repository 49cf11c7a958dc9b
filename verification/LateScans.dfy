/** The one write without a version check: when a late scan result breaks the winner rule, and a run in which it does. */
module LateScans {
  import opened Prelude
  import opened Types
  import opened StateMachine
  import opened Rpc
  import opened Store
  import opened Service
  import opened Reconcile
  import opened Machine
  import opened Invariants
  import opened Confirmation
  import opened Interleaving
  import opened Attempts
  import opened Settlement
  import Verdicts
  import Hex

  /** The scan puts the candidate into the running: never refused, and the node neither shows it committed nor refuses it now. */
  predicate Revives(row: Attempt, a: Answers) {
    && !row.submission.NodeRejected?
    && !Verdicts.ShowsCommit(a)
    && (Says(a, "rejected") ==> row.chain.Committed?)
  }

  /** The scan leaves the candidate confirmed: its row was, its chain status was COMMITTED, and the node does not show the commit. */
  predicate KeepsConfirmed(row: Attempt, a: Answers) {
    row.workflow.Confirmed? && row.chain.Committed? && !Verdicts.ShowsCommit(a)
  }

  lemma SideUpdateOutcomes(read: Aggregate, id: AttemptId, result: PollResult, now: int)
    requires id < |read.attempts| && ScanCandidate(read, id, result, now).SideUpdate?
    ensures var s, row := ScanCandidate(read, id, result, now).snapshot, read.attempts[id];
            && (s.workflow.Confirmed? <==> KeepsConfirmed(row, result.answers))
            && (!s.workflow.Confirmed? ==> (DispositionFor(s).Active? <==> Revives(row, result.answers)))
  {
  }

  /** The late result breaks the winner rule: it confirms a row that is not the confirmed one, or revives one beside a winner. */
  predicate BreaksWinner(agg: Aggregate, id: AttemptId, row: Attempt, a: Answers) {
    if KeepsConfirmed(row, a) then agg.active != Some(id) || !agg.exec.snapshot.workflow.Confirmed?
    else agg.winning.Some? && agg.winning != Some(id) && Revives(row, a)
  }

  /** A scan result, computed from whatever the caller had read, keeps the winner rule if and only if it does neither. */
  lemma LateScanKeepsWinnerExactlyWhen(db: Db, read: Aggregate, id: AttemptId, result: PollResult, now: int)
    requires Inv(db.agg) && Consistent(GotAll(read), db.agg)
    requires IsSideUpdate(read, ScanReq(id, result, now)) && ScanCandidate(read, id, result, now).SideUpdate?
    ensures OneWinner(Write(db, read, ScanReq(id, result, now)).value.agg) <==>
            !BreaksWinner(db.agg, id, read.attempts[id], result.answers)
  {
    SideUpdateOutcomes(read, id, result, now);
    var outcome := ScanCandidate(read, id, result, now);
    WinnerAfterSideUpdate(db, id, outcome.snapshot, outcome.conflictType, outcome.details);
  }

  lemma WinnerAfterSideUpdate(db: Db, id: AttemptId, s: Snapshot, conflictType: Option<ConflictType>, details: Option<Details>)
    requires Inv(db.agg) && id < |db.agg.attempts|
    ensures OneWinner(UpdateCandidate(db, id, s, conflictType, details).agg) <==>
            if s.workflow.Confirmed? then db.agg.active == Some(id) && db.agg.exec.snapshot.workflow.Confirmed?
            else !(db.agg.winning.Some? && db.agg.winning != Some(id) && DispositionFor(s).Active?)
  {
    var after := UpdateCandidate(db, id, s, conflictType, details).agg;
    assert after.attempts[id].disposition == DispositionFor(s) && after.attempts[id].workflow == s.workflow;
  }

  // ---- An interleaving that breaks it ------------------------------------------------------------------------------

  const FIRST := Attaching("a", Submitted, Some([INPUT]), Initial)

  const REPLACEMENT := Attaching("b", Submitted, Some([INPUT]), RbfReplacement)

  const LATE_SCAN :=
    ScanReq(0, PollAnswered("rpc", Answers(4, TxAnswer("pending", None, None, None), None, None, None, None, [], 4, None)), 4)

  /** A transaction and its replacement are both submitted, and nothing is observed yet. */
  predicate BothSubmitted(db: Db) {
    && |db.agg.attempts| == 2 && db.agg.active == Some(1) && db.agg.winning.None? && db.agg.required == 0
    && db.agg.attempts[0].disposition.Active? && db.agg.attempts[0].submission.Submitted?
    && db.agg.attempts[0].chain.Unobserved? && db.agg.attempts[0].workflow.Idle?
    && db.agg.attempts[1].payloadHash.None? && db.agg.exec.txHash.Some?
    && db.agg.exec.snapshot == InitialSnapshot(WhenCommitted).(submission := Submitted)
  }

  predicate FirstSubmitted(db: Db) {
    && |db.agg.attempts| == 1 && db.agg.active == Some(0) && db.agg.winning.None? && db.agg.required == 0
    && db.agg.exec.txHash == Some("a") && db.agg.attempts[0].txHash == "a" && db.agg.attempts[0].inputs == [INPUT]
    && db.agg.attempts[0].disposition.Active? && db.agg.attempts[0].submission.Submitted?
    && db.agg.attempts[0].chain.Unobserved? && db.agg.attempts[0].workflow.Idle?
    && db.agg.exec.snapshot == InitialSnapshot(WhenCommitted).(submission := Submitted)
  }

  lemma FirstIsSubmitted()
    ensures FirstSubmitted(Step(Init(WhenCommitted, 0), FIRST))
  {
  }

  lemma BothAreSubmitted(db: Db)
    requires FirstSubmitted(db)
    ensures BothSubmitted(Step(db, REPLACEMENT))
  {
    assert "a"[0] != "b"[0];
    assert FindAttempt(db.agg.attempts, "b").None?;
    assert SameOutPoint([INPUT][0], db.agg.attempts[0].inputs[0]);
    assert SharesInput([INPUT], db.agg.attempts[0].inputs);
  }

  lemma ReplacementWins(db: Db)
    requires BothSubmitted(db)
    ensures var after := Step(db, CommittedPoll(HASH, HEIGHT, 3)).agg;
            && after.winning == Some(1) && |after.attempts| == 2 && after.attempts[0].disposition.Superseded?
  {
    HashIsWellFormed();
    CommitOutcome(db, HASH, HEIGHT, 3, 0);
  }

  lemma LateScanRevives(db: Db, read: Aggregate)
    requires db.agg.winning == Some(1) && |db.agg.attempts| == 2
    requires BothSubmitted(Db(read, []))
    ensures var written := Write(db, read, LATE_SCAN);
            && written.Ok? && written.value.agg.winning == Some(1)
            && |written.value.agg.attempts| == 2 && written.value.agg.attempts[0].disposition.Active?
  {
    assert IsCandidate(read, 0);
    assert ScanCandidate(read, 0, LATE_SCAN.result, 4).SideUpdate?;
  }

  const SCAN_START := Turns(0, [FIRST, REPLACEMENT]) + [ReadRow(1), ReadAttempts(1)]

  const NEW_SYSTEM := NewSystem(WhenCommitted, 0)

  lemma CallerReadsBoth()
    ensures var seen := Execute(NEW_SYSTEM, SCAN_START);
            BothSubmitted(seen.db) && 1 in seen.callers && seen.callers[1] == GotAll(seen.db.agg)
  {
    TurnsAreRun(NEW_SYSTEM, 0, [FIRST, REPLACEMENT], 1);
    RunTwo(NEW_SYSTEM.db, FIRST, REPLACEMENT);
    FirstIsSubmitted();
    BothAreSubmitted(Step(NEW_SYSTEM.db, FIRST));
    ReadsAll(Execute(NEW_SYSTEM, Turns(0, [FIRST, REPLACEMENT])), 1);
    ExecuteAppend(NEW_SYSTEM, Turns(0, [FIRST, REPLACEMENT]), [ReadRow(1), ReadAttempts(1)]);
  }

  lemma LateScanAfterWinner(seen: System)
    requires BothSubmitted(seen.db) && 1 in seen.callers && seen.callers[1] == GotAll(seen.db.agg)
    ensures !OneWinner(Execute(seen, Turns(0, [CommittedPoll(HASH, HEIGHT, 3)]) + [Submit(1, LATE_SCAN)]).db.agg)
  {
    var poll := CommittedPoll(HASH, HEIGHT, 3);
    TurnsAreRun(seen, 0, [poll], 1);
    RunOne(seen.db, poll);
    ReplacementWins(seen.db);
    LateScanRevives(Step(seen.db, poll), seen.db.agg);
    ExecuteAppend(seen, Turns(0, [poll]), [Submit(1, LATE_SCAN)]);
    ExecuteOne(Execute(seen, Turns(0, [poll])), Submit(1, LATE_SCAN));
  }

  /** A caller reads, the replacement confirms, and the caller's late scan of the first transaction revives it. */
  lemma LateScanBreaksWinner()
    ensures var late := Turns(0, [CommittedPoll(HASH, HEIGHT, 3)]) + [Submit(1, LATE_SCAN)];
            !OneWinner(Execute(NewSystem(WhenCommitted, 0), SCAN_START + late).db.agg)
  {
    CallerReadsBoth();
    LateScanAfterWinner(Execute(NEW_SYSTEM, SCAN_START));
    ExecuteAppend(NEW_SYSTEM, SCAN_START, Turns(0, [CommittedPoll(HASH, HEIGHT, 3)]) + [Submit(1, LATE_SCAN)]);
  }

  // ---- One that confirms a row again ---------------------------------------------------------------------------------

  /** A node shows the first transaction committed. */
  function PromotingScan(hash: string, height: string): Request {
    ScanReq(0, PollAnswered("rpc", Answers(3, TxAnswer("committed", Some(hash), None, None), None, Some(height),
                                           Some(height), Some(hash), [], 3, None)), 3)
  }

  const SUBMITTED_AGAIN := MarkReq(MarkRequest(Submitted, None, 4))

  /** A node that does not know the transaction names another block at the recorded height. */
  function ReorgPoll(other: string): Request {
    PollReq(Poll(["rpc"], PollAnswered("rpc", Answers(5, NoTransaction, Some(other), None, None, None, [], 5, None)),
                 map[], [], 30000, 0, 5))
  }

  /** The first transaction has won, and its row has this disposition. */
  predicate FirstWon(db: Db, disposition: Disposition) {
    && |db.agg.attempts| == 2 && db.agg.active == Some(0) && db.agg.winning == Some(0) && db.agg.exec.txHash.Some?
    && db.agg.attempts[0].disposition == disposition
    && db.agg.attempts[0].workflow.Confirmed? && db.agg.attempts[0].chain.Committed?
    && db.agg.exec.snapshot
       == InitialSnapshot(WhenCommitted).(submission := Submitted, chain := Committed, workflow := Confirmed, confirmations := 1,
                                          blockHash := Some(HASH), blockNumber := Some(HEIGHT))
  }

  lemma FirstWins(db: Db)
    requires BothSubmitted(db)
    ensures FirstWon(Step(db, PromotingScan(HASH, HEIGHT)), Won)
  {
    assert IsCandidate(db.agg, 0);
    FirstIsPromoted(db.agg);
    var input := ScanCandidate(db.agg, 0, PromotingScan(HASH, HEIGHT).result, 3).input;
    assert Step(db, PromotingScan(HASH, HEIGHT)) == Promote(db, db.agg, input).value;
  }

  lemma CommitIsObserved(targets: seq<InputRef>)
    ensures var o := Observe(None, targets, "rpc", PromotingScan(HASH, HEIGHT).result.answers);
            && o.body.None? && o.observation.status.Committed?
            && o.observation.blockHash == Some(HASH) && o.observation.blockNumber == Some(HEIGHT)
            && o.observation.tip == Some(HEIGHT) && o.observation.rejectionReason.None?
            && o.observation.priorCommitCanonical.None?
  {
    OtherHashDiffers();
    HashIsWellFormed();
    var answers := PromotingScan(HASH, HEIGHT).result.answers;
    assert CommitIsCanonical(answers.tx, answers);
  }

  lemma CommitConfirms(s: Snapshot, o: Observation)
    requires s == InitialSnapshot(WhenCommitted).(submission := Submitted)
    requires o.status.Committed? && o.blockHash == Some(HASH) && o.blockNumber == Some(HEIGHT) && o.tip == Some(HEIGHT)
    requires o.rejectionReason.None? && o.priorCommitCanonical.None?
    ensures var applied := ApplyChainObservation(s, o);
            applied.Ok?
            && applied.value.snapshot == s.(chain := Committed, workflow := Confirmed, confirmations := 1,
                                            blockHash := Some(HASH), blockNumber := Some(HEIGHT))
  {
    HashIsWellFormed();
    assert |HASH| == 66 && |HEIGHT| == 3;
    assert ConfirmationCount(Some(HEIGHT), Some(HEIGHT)) == 1;
  }

  lemma FirstIsPromoted(read: Aggregate)
    requires BothSubmitted(Db(read, []))
    ensures var outcome := ScanCandidate(read, 0, PromotingScan(HASH, HEIGHT).result, 3);
            && outcome.Promotion? && outcome.input.id == 0
            && outcome.input.snapshot
               == InitialSnapshot(WhenCommitted).(submission := Submitted, chain := Committed, workflow := Confirmed, confirmations := 1,
                                                  blockHash := Some(HASH), blockNumber := Some(HEIGHT))
  {
    var candidate := read.attempts[0];
    var targets := TargetsOf(candidate.refs, candidate.inputs);
    CommitIsObserved(targets);
    CommitConfirms(CandidateBase(read, candidate), Observe(None, targets, "rpc", PromotingScan(HASH, HEIGHT).result.answers).observation);
  }

  /** A second report of the same acceptance makes the winner's row read ACTIVE again. */
  lemma ReportedAgain(db: Db)
    requires FirstWon(db, Won)
    ensures FirstWon(Step(db, SUBMITTED_AGAIN), Active)
  {
  }

  predicate ReorgedBy(db: Db) {
    |db.agg.attempts| == 2 && db.agg.active == Some(0) && !db.agg.exec.snapshot.workflow.Confirmed?
  }

  lemma ReorgIsSeen(read: Aggregate)
    requires read.exec.snapshot.blockHash == Some(HASH) && read.exec.snapshot.blockNumber == Some(HEIGHT)
    requires read.exec.snapshot.workflow.Confirmed?
    ensures var bundle := BundleFor(read, "rpc", ReorgPoll(OTHER_HASH).poll.result.answers);
            var applied := ApplyChainObservation(read.exec.snapshot, bundle.observation);
            applied.Ok? && applied.value.snapshot.workflow.Reorged?
  {
    OtherHashDiffers();
    assert |HASH| == 66 && |HEIGHT| == 3;
    var answers := ReorgPoll(OTHER_HASH).poll.result.answers;
    assert PriorCommitOf(read.exec.snapshot) == Some(PriorCommit(HASH, HEIGHT));
    assert Disproves(PriorCommit(HASH, HEIGHT), answers);
    AbsentIsUnknown(PriorCommit(HASH, HEIGHT), Targets(read.exec), answers);
    ReorgApplies(read.exec.snapshot, BundleFor(read, "rpc", answers).observation);
  }

  lemma AbsentIsUnknown(prior: PriorCommit, targets: seq<InputRef>, a: Answers)
    requires a.tx.NoTransaction? && Disproves(prior, a)
    ensures var o := Observe(Some(prior), targets, "rpc", a).observation;
            o.status.Unknown? && o.priorCommitCanonical == Some(false)
  {
  }

  lemma ReorgApplies(s: Snapshot, o: Observation)
    requires o.status.Unknown? && o.priorCommitCanonical == Some(false) && Present(s.blockHash) && s.workflow.Confirmed?
    ensures ApplyChainObservation(s, o).Ok? && ApplyChainObservation(s, o).value.snapshot.workflow.Reorged?
  {
  }

  lemma ReorgOutcome(read: Aggregate)
    requires read.exec.snapshot.blockHash == Some(HASH) && read.exec.snapshot.blockNumber == Some(HEIGHT)
    requires read.exec.snapshot.workflow.Confirmed? && read.exec.txHash.Some?
    ensures var outcome := ReconcileOutcome(read, ReorgPoll(OTHER_HASH).poll);
            outcome.Ok? && !outcome.value.snapshot.workflow.Confirmed?
  {
    var poll := ReorgPoll(OTHER_HASH).poll;
    var bundle := BundleFor(read, "rpc", poll.result.answers);
    ReorgIsSeen(read);
    EvidenceKeepsBlock(read, poll, bundle, ApplyChainObservation(read.exec.snapshot, bundle.observation).value);
  }

  lemma ThenReorged(db: Db)
    requires FirstWon(db, Active)
    ensures ReorgedBy(Step(db, ReorgPoll(OTHER_HASH)))
  {
    ReorgOutcome(db.agg);
    var input := ReconcileOutcome(db.agg, ReorgPoll(OTHER_HASH).poll).value;
    assert Step(db, ReorgPoll(OTHER_HASH)) == ApplySnapshot(db, db.agg, input).value;
  }

  /** The row as it was before the promotion, with the attempts as they were after it. */
  predicate MixedRead(read: Aggregate) {
    && read.active == Some(1) && read.exec.txHash.Some? && |read.attempts| == 2
    && read.attempts[0].disposition.Active? && read.attempts[0].workflow.Confirmed? && read.attempts[0].chain.Committed?
  }

  lemma LateScanConfirms(db: Db, read: Aggregate)
    requires ReorgedBy(db) && MixedRead(read)
    ensures Write(db, read, LATE_SCAN).Ok? && !OneWinner(Write(db, read, LATE_SCAN).value.agg)
  {
    assert IsCandidate(read, 0);
    assert ScanCandidate(read, 0, LATE_SCAN.result, 4).SideUpdate?;
    SideUpdateOutcomes(read, 0, LATE_SCAN.result, 4);
    var after := Write(db, read, LATE_SCAN).value.agg;
    assert after.attempts[0].workflow.Confirmed?;
  }

  const WON_THEN_REPORTED := [PromotingScan(HASH, HEIGHT), SUBMITTED_AGAIN]

  lemma RowBeforeAttemptsAfter(sys: System)
    requires BothSubmitted(sys.db)
    ensures var read := Execute(sys, [ReadRow(1)] + Turns(0, WON_THEN_REPORTED) + [ReadAttempts(1)]);
            && FirstWon(read.db, Active)
            && 1 in read.callers && read.callers[1].GotAll? && MixedRead(read.callers[1].read)
  {
    var row := Execute(sys, [ReadRow(1)]);
    ExecuteOne(sys, ReadRow(1));
    TurnsAreRun(row, 0, WON_THEN_REPORTED, 1);
    RunTwo(row.db, PromotingScan(HASH, HEIGHT), SUBMITTED_AGAIN);
    FirstWins(row.db);
    ReportedAgain(Step(row.db, PromotingScan(HASH, HEIGHT)));
    ExecuteAppend(sys, [ReadRow(1)], Turns(0, WON_THEN_REPORTED));
    var reported := Execute(row, Turns(0, WON_THEN_REPORTED));
    ExecuteAppend(sys, [ReadRow(1)] + Turns(0, WON_THEN_REPORTED), [ReadAttempts(1)]);
    ExecuteOne(reported, ReadAttempts(1));
  }

  lemma ReorgThenLateScan(sys: System)
    requires FirstWon(sys.db, Active) && 1 in sys.callers && sys.callers[1].GotAll? && MixedRead(sys.callers[1].read)
    ensures !OneWinner(Execute(sys, Turns(0, [ReorgPoll(OTHER_HASH)]) + [Submit(1, LATE_SCAN)]).db.agg)
  {
    TurnsAreRun(sys, 0, [ReorgPoll(OTHER_HASH)], 1);
    RunOne(sys.db, ReorgPoll(OTHER_HASH));
    ThenReorged(sys.db);
    LateScanConfirms(Step(sys.db, ReorgPoll(OTHER_HASH)), sys.callers[1].read);
    ExecuteAppend(sys, Turns(0, [ReorgPoll(OTHER_HASH)]), [Submit(1, LATE_SCAN)]);
    ExecuteOne(Execute(sys, Turns(0, [ReorgPoll(OTHER_HASH)])), Submit(1, LATE_SCAN));
  }

  /**
   * A caller reads the row before the first transaction wins and the attempts after it; once a reorg has taken the
   * confirmation back, the caller's late scan confirms the attempt's row again.
   */
  lemma LateScanConfirmsAgain()
    ensures var first := Turns(0, [FIRST, REPLACEMENT]);
            var reading := [ReadRow(1)] + Turns(0, WON_THEN_REPORTED) + [ReadAttempts(1)];
            var late := Turns(0, [ReorgPoll(OTHER_HASH)]) + [Submit(1, LATE_SCAN)];
            !OneWinner(Execute(NewSystem(WhenCommitted, 0), first + reading + late).db.agg)
  {
    var first := Turns(0, [FIRST, REPLACEMENT]);
    var reading := [ReadRow(1)] + Turns(0, WON_THEN_REPORTED) + [ReadAttempts(1)];
    var late := Turns(0, [ReorgPoll(OTHER_HASH)]) + [Submit(1, LATE_SCAN)];
    TurnsAreRun(NEW_SYSTEM, 0, [FIRST, REPLACEMENT], 1);
    RunTwo(NEW_SYSTEM.db, FIRST, REPLACEMENT);
    FirstIsSubmitted();
    BothAreSubmitted(Step(NEW_SYSTEM.db, FIRST));
    RowBeforeAttemptsAfter(Execute(NEW_SYSTEM, first));
    ExecuteAppend(NEW_SYSTEM, first, reading);
    ReorgThenLateScan(Execute(NEW_SYSTEM, first + reading));
    ExecuteAppend(NEW_SYSTEM, first + reading, late);
  }
}
