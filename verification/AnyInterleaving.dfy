/**
 * What holds in every interleaving whatsoever, overtaken scans included. These statements are about the execution row and
 * the events, which no scan result touches; each write to them is a step from what its caller had read.
 */
module AnyInterleaving {
  import opened Prelude
  import opened Types
  import opened StateMachine
  import opened Rpc
  import opened Store
  import opened Service
  import opened Reconcile
  import opened Machine
  import opened Invariants
  import opened Confirmation
  import opened Settlement
  import opened Interleaving
  import EventLog
  import Verdicts

  /** An accepted action that passed the version check. */
  predicate Projects(sys: System, a: Action) {
    && Acts(sys, a) && Attempted(sys, a).Ok?
    && !IsSideUpdate(sys.callers[a.c].read, a.request) && !IsIdleScan(sys.callers[a.c].read, a.request)
  }

  /** What the caller has read, with the events that are stored. */
  function View(sys: System, a: Action): Db
    requires Acts(sys, a)
  {
    Db(sys.callers[a.c].read, sys.db.events)
  }

  /** The execution row and the events are the same. */
  predicate SameProjection(a: Db, b: Db) {
    a.agg.exec == b.agg.exec && a.agg.required == b.agg.required && a.events == b.events
  }

  lemma {:induction false} SameFind(a: seq<Attempt>, b: seq<Attempt>, txHash: string)
    requires |a| == |b| && forall i :: 0 <= i < |a| ==> a[i].txHash == b[i].txHash
    ensures FindAttempt(a, txHash) == FindAttempt(b, txHash)
  {
    if a != [] && a[|a| - 1].txHash != txHash {
      SameFind(a[..|a| - 1], b[..|b| - 1], txHash);
    }
  }

  lemma AttachFromView(db: Db, read: Aggregate, input: AttachInput)
    requires Agrees(read, db.agg) && AttachTransaction(db, read, input).Ok?
    ensures var viewed := AttachTransaction(Db(read, db.events), read, input);
            viewed.Ok? && SameProjection(AttachTransaction(db, read, input).value, viewed.value)
  {
    assert forall i :: 0 <= i < |db.agg.attempts| ==> SameButScanned(read.attempts[i], db.agg.attempts[i]);
    SameFind(read.attempts, db.agg.attempts, input.txHash);
    assert AttachConflict(db, read, input) == AttachConflict(Db(read, db.events), read, input);
  }

  lemma MarkFromView(db: Db, read: Aggregate, input: MarkInput)
    requires Agrees(read, db.agg)
    ensures MarkSubmission(db, read, input).Ok? && MarkSubmission(Db(read, db.events), read, input).Ok?
    ensures SameProjection(MarkSubmission(db, read, input).value, MarkSubmission(Db(read, db.events), read, input).value)
  {
  }

  lemma SnapshotFromView(db: Db, read: Aggregate, input: SnapshotInput)
    requires Agrees(read, db.agg)
    ensures ApplySnapshot(db, read, input).Ok? && ApplySnapshot(Db(read, db.events), read, input).Ok?
    ensures SameProjection(ApplySnapshot(db, read, input).value, ApplySnapshot(Db(read, db.events), read, input).value)
  {
  }

  lemma PromotionFromView(db: Db, read: Aggregate, input: PromoteInput)
    requires Agrees(read, db.agg) && input.id < |read.attempts|
    ensures Promote(db, read, input).Ok? && Promote(Db(read, db.events), read, input).Ok?
    ensures SameProjection(Promote(db, read, input).value, Promote(Db(read, db.events), read, input).value)
  {
  }

  lemma ScanFromView(db: Db, read: Aggregate, id: AttemptId, result: PollResult, now: int)
    requires Agrees(read, db.agg) && read.exec.txHash.Some? && IsCandidate(read, id)
    requires ScanCandidate(read, id, result, now).Promotion?
    ensures ScanStep(db, read, id, result, now).Ok?
    ensures SameProjection(ScanStep(db, read, id, result, now).value, Step(Db(read, db.events), ScanReq(id, result, now)))
  {
    PromotionIsSound(read, id, result, now);
    PromotionFromView(db, read, ScanCandidate(read, id, result, now).input);
    PromotionStep(Db(read, db.events), id, result, now);
  }

  lemma PollFromView(db: Db, read: Aggregate, p: Poll)
    requires Agrees(read, db.agg) && ReconcileOutcome(read, p).Ok?
    ensures PollStep(db, read, p).Ok? && SameProjection(PollStep(db, read, p).value, Step(Db(read, db.events), PollReq(p)))
  {
    SnapshotFromView(db, read, ReconcileOutcome(read, p).value);
  }

  lemma WriteFromView(db: Db, read: Aggregate, request: Request)
    requires Agrees(read, db.agg) && Write(db, read, request).Ok?
    requires !IsSideUpdate(read, request) && !IsIdleScan(read, request)
    ensures SameProjection(Write(db, read, request).value, Step(Db(read, db.events), request))
  {
    match request
    case AttachReq(r) => AttachFromView(db, read, ComputeAttach(read, r).value);
    case MarkReq(m) => MarkFromView(db, read, ComputeMark(read, m).value);
    case PollReq(p) => PollFromView(db, read, p);
    case ScanReq(id, result, now) => ScanFromView(db, read, id, result, now);
  }

  /** A write to the projection leaves the row and the events that the serial machine leaves from what the caller had read. */
  lemma ProjectionIsStepFromView(sys: System, a: Action)
    requires AllConsistent(sys) && Projects(sys, a)
    ensures SameProjection(View(sys, a), sys.db)
    ensures SameProjection(Act(sys, a).db, Step(View(sys, a), a.request))
  {
    var read := sys.callers[a.c].read;
    assert Consistent(sys.callers[a.c], sys.db.agg);
    VersionedWrite(sys.db, read, a.request);
    WriteFromView(sys.db, read, a.request);
  }

  lemma OtherwiseUnprojected(sys: System, a: Action)
    requires AllConsistent(sys) && !Projects(sys, a)
    ensures SameProjection(Act(sys, a).db, sys.db)
  {
    if Acts(sys, a) && Attempted(sys, a).Ok? {
      UnversionedWrite(sys.db, sys.callers[a.c].read, a.request);
    }
  }

  /** In every interleaving a stored commit names its block, a confirmation is deep enough, and a verdict is about a commit. */
  lemma {:induction false} AlwaysSound(policy: Policy, required: nat, actions: seq<Action>)
    ensures Sound(Execute(NewSystem(policy, required), actions).db.agg)
    ensures AllConsistent(Execute(NewSystem(policy, required), actions))
  {
    ExecuteKeepsConsistency(NewSystem(policy, required), actions);
    if actions == [] {
      NewIntentIsSound(policy, required);
    } else {
      var n := |actions| - 1;
      var before, a := Execute(NewSystem(policy, required), actions[..n]), actions[n];
      AlwaysSound(policy, required, actions[..n]);
      if Projects(before, a) {
        ProjectionIsStepFromView(before, a);
        StepKeepsSound(View(before, a), a.request);
      } else {
        OtherwiseUnprojected(before, a);
      }
    }
  }

  // ---- Confirmations -----------------------------------------------------------------------------------------------

  predicate ProvesAt(sys: System, a: Action, block: Block) {
    Projects(sys, a) && Proves(View(sys, a), a.request, block)
  }

  /** The block is confirmed before the action, which neither replaces nor disproves it. */
  predicate UndisputedAt(sys: System, a: Action, block: Block) {
    && sys.db.agg.exec.snapshot.workflow.Confirmed? && BlockOf(sys.db.agg.exec.snapshot) == block
    && (Projects(sys, a) ==> !RecordsCommit(View(sys, a), a.request) && !DisprovesCommit(View(sys, a), a.request))
  }

  lemma ConfirmedAct(sys: System, a: Action)
    requires AllConsistent(sys) && Sound(sys.db.agg)
    requires Act(sys, a).db.agg.exec.snapshot.workflow.Confirmed?
    ensures var block := BlockOf(Act(sys, a).db.agg.exec.snapshot); ProvesAt(sys, a, block) || UndisputedAt(sys, a, block)
  {
    if Projects(sys, a) {
      ProjectionIsStepFromView(sys, a);
      ConfirmedStep(View(sys, a), a.request);
    } else {
      OtherwiseUnprojected(sys, a);
    }
  }

  /** Action j proved the block, and nothing since has replaced or disproved it. */
  predicate ProvedSince(policy: Policy, required: nat, actions: seq<Action>, block: Block, j: nat) {
    && j < |actions|
    && var n := |actions| - 1;
       var before := Execute(NewSystem(policy, required), actions[..n]);
       if j == n then ProvesAt(before, actions[n], block)
       else UndisputedAt(before, actions[n], block) && ProvedSince(policy, required, actions[..n], block, j)
  }

  /** In every interleaving a CONFIRMED state records a proved block that nothing has disproved since. */
  lemma {:induction false} ConfirmedIsProved(policy: Policy, required: nat, actions: seq<Action>)
    requires Execute(NewSystem(policy, required), actions).db.agg.exec.snapshot.workflow.Confirmed?
    ensures exists j :: ProvedSince(policy, required, actions,
                                    BlockOf(Execute(NewSystem(policy, required), actions).db.agg.exec.snapshot), j)
  {
    var n := |actions| - 1;
    var before := Execute(NewSystem(policy, required), actions[..n]);
    var block := BlockOf(Execute(NewSystem(policy, required), actions).db.agg.exec.snapshot);
    AlwaysSound(policy, required, actions[..n]);
    ConfirmedAct(before, actions[n]);
    if ProvesAt(before, actions[n], block) {
      assert ProvedSince(policy, required, actions, block, n);
    } else {
      ConfirmedIsProved(policy, required, actions[..n]);
      var j :| ProvedSince(policy, required, actions[..n], block, j);
      assert ProvedSince(policy, required, actions, block, j);
    }
  }

  /**
   * In every interleaving an answered pass that writes leaves CONFIRMED if and only if its answers show the commit as deep as
   * the policy asks, or leave a confirmed one standing, and neither payload, inputs nor Cells conflict.
   */
  lemma ConfirmsExactlyWhen(policy: Policy, required: nat, actions: seq<Action>, a: Action)
    requires var before := Execute(NewSystem(policy, required), actions);
             Projects(before, a) && a.request.PollReq? && a.request.poll.result.PollAnswered?
    ensures var before := Execute(NewSystem(policy, required), actions);
            var read, p := before.callers[a.c].read, a.request.poll;
            Act(before, a).db.agg.exec.snapshot.workflow.Confirmed? <==>
              && Verdicts.DeepNow(read, p.result.answers) && !Verdicts.PayloadDiffers(read, p.result.answers)
              && !Verdicts.SpendIsProved(read, p, p.result.endpoint, p.result.answers) && !Verdicts.CellsRefutedBy(read, p)
  {
    var before := Execute(NewSystem(policy, required), actions);
    AlwaysSound(policy, required, actions);
    ProjectionIsStepFromView(before, a);
    Verdicts.WorkflowAfterPass(View(before, a), a.request.poll);
  }

  /** In every interleaving a COMMITTED chain status is left only by what a node said that names another block there. */
  lemma CommittedIsLeftOnlyByDisproof(policy: Policy, required: nat, actions: seq<Action>, a: Action)
    requires var before := Execute(NewSystem(policy, required), actions);
             && before.db.agg.exec.snapshot.chain.Committed?
             && !Act(before, a).db.agg.exec.snapshot.chain.Committed?
    ensures var before := Execute(NewSystem(policy, required), actions);
            Projects(before, a) && DisprovesCommit(View(before, a), a.request)
  {
    var before := Execute(NewSystem(policy, required), actions);
    AlwaysSound(policy, required, actions);
    if Projects(before, a) {
      ProjectionIsStepFromView(before, a);
      Confirmation.CommittedIsLeftOnlyByDisproof(View(before, a), a.request);
    } else {
      OtherwiseUnprojected(before, a);
    }
  }

  // ---- Settlement --------------------------------------------------------------------------------------------------

  predicate ChecksAt(sys: System, a: Action) {
    Projects(sys, a) && ChecksCells(View(sys, a), a.request)
  }

  lemma VerifiedAct(sys: System, a: Action)
    requires AllConsistent(sys) && Sound(sys.db.agg)
    requires Act(sys, a).db.agg.exec.assertion == Some(AssertionVerified)
    requires Sound(Act(sys, a).db.agg)
    ensures ChecksAt(sys, a) || VerifiedFor(sys.db.agg, Act(sys, a).db.agg.exec.snapshot.blockHash)
  {
    if Projects(sys, a) {
      ProjectionIsStepFromView(sys, a);
      VerifiedStep(View(sys, a), a.request);
    } else {
      OtherwiseUnprojected(sys, a);
    }
  }

  /** Action j checked every required Cell while this block was recorded, and block and verdict have stood since. */
  predicate VerifiedSince(policy: Policy, required: nat, actions: seq<Action>, hash: Option<string>, j: nat) {
    && j < |actions|
    && var n := |actions| - 1;
       var before := Execute(NewSystem(policy, required), actions[..n]);
       if j == n then ChecksAt(before, actions[n])
       else VerifiedFor(before.db.agg, hash) && VerifiedSince(policy, required, actions[..n], hash, j)
  }

  /** In every interleaving a stored VERIFIED comes from a check made for the block that is recorded now. */
  lemma {:induction false} VerifiedIsForRecordedBlock(policy: Policy, required: nat, actions: seq<Action>)
    requires Execute(NewSystem(policy, required), actions).db.agg.exec.assertion == Some(AssertionVerified)
    ensures exists j :: VerifiedSince(policy, required, actions,
                                      Execute(NewSystem(policy, required), actions).db.agg.exec.snapshot.blockHash, j)
  {
    var n := |actions| - 1;
    var before := Execute(NewSystem(policy, required), actions[..n]);
    var hash := Execute(NewSystem(policy, required), actions).db.agg.exec.snapshot.blockHash;
    AlwaysSound(policy, required, actions[..n]);
    AlwaysSound(policy, required, actions);
    VerifiedAct(before, actions[n]);
    if ChecksAt(before, actions[n]) {
      assert VerifiedSince(policy, required, actions, hash, n);
    } else {
      VerifiedIsForRecordedBlock(policy, required, actions[..n]);
      var j :| VerifiedSince(policy, required, actions[..n], hash, j);
      assert VerifiedSince(policy, required, actions, hash, j);
    }
  }

  /** In every interleaving a settled view with required Cells rests on such a check and on a proved block. */
  lemma SettledIsVerifiedAndConfirmed(policy: Policy, required: nat, actions: seq<Action>)
    requires required > 0 && Ready(Execute(NewSystem(policy, required), actions).db.agg)
    ensures var s := Execute(NewSystem(policy, required), actions).db.agg.exec.snapshot;
            && (exists j :: VerifiedSince(policy, required, actions, s.blockHash, j))
            && (exists j :: ProvedSince(policy, required, actions, BlockOf(s), j))
  {
    RequiredStays(policy, required, actions);
    VerifiedIsForRecordedBlock(policy, required, actions);
    ConfirmedIsProved(policy, required, actions);
  }

  lemma {:induction false} RequiredStays(policy: Policy, required: nat, actions: seq<Action>)
    ensures Execute(NewSystem(policy, required), actions).db.agg.required == required
  {
    if actions != [] {
      var before := Execute(NewSystem(policy, required), actions[..|actions| - 1]);
      var a := actions[|actions| - 1];
      RequiredStays(policy, required, actions[..|actions| - 1]);
      if Acts(before, a) && Attempted(before, a).Ok? {
        WriteKeepsRequired(before.db, before.callers[a.c].read, a.request);
      }
    }
  }

  lemma WriteKeepsRequired(db: Db, read: Aggregate, request: Request)
    requires Write(db, read, request).Ok?
    ensures Write(db, read, request).value.agg.required == db.agg.required
  {
  }

  predicate NoConflictReportAt(sys: System, a: Action) {
    Projects(sys, a) ==> !ConflictReportAfterSettlement(View(sys, a), a.request)
  }

  predicate NoConflictReports(policy: Policy, required: nat, actions: seq<Action>) {
    actions == []
    || (var n := |actions| - 1;
        && NoConflictReports(policy, required, actions[..n])
        && NoConflictReportAt(Execute(NewSystem(policy, required), actions[..n]), actions[n]))
  }

  /** In every interleaving without a conflict report after settlement, READY and REVOKED take turns and agree with the state. */
  lemma {:induction false} SettlementEventsAlternate(policy: Policy, required: nat, actions: seq<Action>)
    requires NoConflictReports(policy, required, actions)
    ensures Told(Execute(NewSystem(policy, required), actions).db)
  {
    if actions == [] {
      StartIsQuiet(policy, required);
    } else {
      var n := |actions| - 1;
      var before, a := Execute(NewSystem(policy, required), actions[..n]), actions[n];
      SettlementEventsAlternate(policy, required, actions[..n]);
      AlwaysSound(policy, required, actions[..n]);
      if Projects(before, a) {
        ProjectionIsStepFromView(before, a);
        StepTells(View(before, a), a.request);
      } else {
        OtherwiseUnprojected(before, a);
      }
    }
  }

  // ---- The event log -----------------------------------------------------------------------------------------------

  lemma SameExtension(before: Db, after: Db, before': Db, after': Db)
    requires SameProjection(before, before') && SameProjection(after, after') && EventLog.Extends(before', after')
    ensures EventLog.Extends(before, after)
  {
  }

  /** Every action extends the log, and every change that users see with an event of its own. */
  lemma ActExtends(sys: System, a: Action)
    requires AllConsistent(sys) && Sound(sys.db.agg)
    ensures EventLog.Extends(sys.db, Act(sys, a).db)
  {
    if Projects(sys, a) {
      ProjectionIsStepFromView(sys, a);
      EventLog.StepExtends(View(sys, a), a.request);
      SameExtension(sys.db, Act(sys, a).db, View(sys, a), Step(View(sys, a), a.request));
    } else {
      OtherwiseUnprojected(sys, a);
      EventLog.ExtendsBy(sys.db, Act(sys, a).db, []);
    }
  }

  /** In every interleaving the log tells the history of the status shown, without a gap. */
  lemma {:induction false} LogTellsHistory(policy: Policy, required: nat, actions: seq<Action>)
    ensures EventLog.TellsHistory(Execute(NewSystem(policy, required), actions).db)
  {
    if actions != [] {
      var n := |actions| - 1;
      var before := Execute(NewSystem(policy, required), actions[..n]);
      LogTellsHistory(policy, required, actions[..n]);
      AlwaysSound(policy, required, actions[..n]);
      ActExtends(before, actions[n]);
      EventLog.ExtendedTells(before.db, Act(before, actions[n]).db);
    }
  }
}
