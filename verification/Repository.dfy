/** The mutable rows and the database transactions on them (packages/db/src/repository.ts), refining module Store. */
module Repository {
  import opened Prelude
  import opened Types
  import opened StateMachine
  import S = Store
  import opened Machine

  /** What a transaction that may fail has to leave behind: the specified rows, or the old ones. */
  predicate Outcome(before: S.Db, specified: Result<S.Db, S.Error>, after: S.Db, error: Option<S.Error>) {
    if specified.Ok? then after == specified.value && error.None?
    else after == before && error == Some(specified.error)
  }

  class IntentStore {
    const required: nat
    var execution: S.Execution
    var attempts: seq<S.Attempt>
    var activeAttemptId: Option<S.AttemptId>
    var winningAttemptId: Option<S.AttemptId>
    var events: seq<S.Event>

    ghost function State(): S.Db
      reads this
    {
      S.Db(S.Aggregate(required, execution, attempts, activeAttemptId, winningAttemptId), events)
    }

    constructor (policy: Policy, required: nat)
      ensures State() == S.Init(policy, required)
    {
      this.required := required;
      var snapshot := InitialSnapshot(policy);
      execution := S.Execution(None, [], [], snapshot, None, None, None, None, None, None, 0, 0);
      attempts, activeAttemptId, winningAttemptId := [], None, None;
      events := [S.Event(IntentCreated, None, Overall(snapshot), 0, SettlementIsReady(snapshot, None, required, None))];
    }

    method GetIntent() returns (read: S.Aggregate)
      ensures read == State().agg
    {
      read := S.Aggregate(required, execution, attempts, activeAttemptId, winningAttemptId);
    }

    method InsertEvent(e: S.Event)
      modifies this`events
      ensures events == old(events) + [e]
    {
      events := events + [e];
    }

    /** `update transaction_attempts ... where intent_row_id and id <> winner and disposition = 'ACTIVE'` */
    method SupersedeOthers(winner: S.AttemptId)
      modifies this`attempts
      ensures attempts == S.SupersedeOthers(old(attempts), winner)
    {
      var i := 0;
      while i < |attempts|
        invariant 0 <= i <= |attempts| == |old(attempts)|
        invariant attempts[..i] == S.SupersedeOthers(old(attempts), winner)[..i]
        invariant attempts[i..] == old(attempts)[i..]
      {
        var row := attempts[i];
        assert row == old(attempts)[i];
        if i != winner && row.disposition.Active? {
          attempts := attempts[i := row.(disposition := Superseded)];
        }
        i := i + 1;
      }
    }

    /** The attempt rows of an attach: find or insert the attempt of this hash. */
    method WriteAttempt(read: S.Aggregate, input: S.AttachInput) returns (error: Option<S.Error>, attemptId: S.AttemptId)
      modifies this`attempts
      ensures error == S.AttachConflict(old(State()), read, input)
      ensures error.Some? ==> attempts == old(attempts)
      ensures error.None? ==>
                && attempts == S.AttemptsAfterAttach(old(State()), read, input)
                && attemptId == (var found := S.FindAttempt(old(attempts), input.txHash);
                                 if found.Some? then found.value else |old(attempts)|)
    {
      var persisted, refs := S.PersistedInputs(read, input), S.PersistedRefs(read, input);
      var existing := S.FindAttempt(attempts, input.txHash);
      attemptId := |attempts|;
      if existing.Some? {
        attemptId := existing.value;
        var row := attempts[attemptId];
        if persisted != [] && row.inputs != persisted {
          return Some(S.AttemptInputConflict), attemptId;
        }
        if refs != [] && row.refs != refs {
          return Some(S.AttemptInputConflict), attemptId;
        }
        if input.payloadHash.Some? && row.payloadHash.Some?
           && ToLower(row.payloadHash.value) != ToLower(input.payloadHash.value) && !input.allowRevision {
          return Some(S.AttemptPayloadConflict), attemptId;
        }
        attempts := attempts[attemptId := row.(submission := input.submission,
                                               payloadHash := OrElse(input.payloadHash, row.payloadHash),
                                               inputs := persisted, refs := refs)];
      } else {
        if input.txHash in input.foreignHashes {
          return Some(S.TxHashConflict), attemptId;
        }
        var number := S.MaxNumber(attempts) + 1;
        var parent := S.ParentOf(read, input);
        if parent.Some? && parent.value >= |attempts| {
          return Some(S.AttemptParentConflict), attemptId;
        }
        var kind := S.KindOf(read, input);
        if read.active.Some? && read.active.value < |attempts| && !kind.RbfReplacement? {
          var prior := read.active.value;
          attempts := attempts[prior := attempts[prior].(disposition := S.PriorDisposition(read.exec))];
        }
        attempts := attempts + [S.Attempt(number, input.txHash, input.payloadHash, parent, kind, Active,
                                          persisted, refs, input.submission, Unobserved, Idle, None, None, None)];
      }
      return None, attemptId;
    }

    method AttachTransaction(read: S.Aggregate, input: S.AttachInput) returns (error: Option<S.Error>)
      modifies this
      ensures Outcome(old(State()), S.AttachTransaction(old(State()), read, input), State(), error)
    {
      var guard := S.AttachGuard(read, input);
      if guard.Some? {
        return guard;
      }
      var creating := S.Creating(read, input);
      var rollback := attempts;
      var conflict, attemptId := WriteAttempt(read, input);
      if conflict.Some? {
        return conflict;
      }
      if execution.version != read.exec.version {
        attempts := rollback;
        return Some(S.Stale);
      }
      execution := execution.(txHash := Some(input.txHash), inputs := S.PersistedInputs(read, input),
                              refs := S.PersistedRefs(read, input),
                              nextReconcileAt := input.nextReconcileAt, version := execution.version + 1);
      if creating {
        execution := execution.(snapshot := InitialSnapshot(execution.snapshot.policy).(submission := input.submission),
                                submissionError := None, conflictType := None, conflictDetails := None, assertion := None,
                                settlementReadyAt := None, reconcileAttempts := 0);
      } else {
        execution := execution.(snapshot := execution.snapshot.(submission := input.submission));
      }
      activeAttemptId := Some(attemptId);
      winningAttemptId := if creating then None else read.winning;
      InsertEvent(S.Event(if creating && read.exec.txHash.Some? then TransactionAttemptCreated else SubmissionUpdated,
                          Some(input.fromStatus), input.toStatus, input.at,
                          SettlementIsReady(execution.snapshot, execution.assertion, read.required, None)));
      return None;
    }

    method MarkSubmission(read: S.Aggregate, input: S.MarkInput) returns (error: Option<S.Error>)
      modifies this
      ensures Outcome(old(State()), S.MarkSubmission(old(State()), read, input), State(), error)
    {
      if execution.version != read.exec.version {
        return Some(S.Stale);
      }
      var conflict := OrElse(input.conflictType, read.exec.conflictType);
      execution := execution.(
        snapshot := execution.snapshot.(submission := input.status),
        submissionError := input.submissionError, conflictType := conflict, conflictDetails := input.conflictDetails,
        nextReconcileAt := if input.schedule.Some? then input.schedule else read.exec.nextReconcileAt,
        version := execution.version + 1);
      if read.active.Some? && read.active.value < |attempts| {
        var id := read.active.value;
        attempts := attempts[id := attempts[id].(
          submission := input.status, submissionError := input.submissionError,
          conflictType := conflict, conflictDetails := input.conflictDetails,
          disposition := if input.status.NodeRejected? then Refused else Active)];
      }
      InsertEvent(S.Event(SubmissionUpdated, Some(input.fromStatus), input.toStatus, input.at,
                          SettlementIsReady(execution.snapshot, execution.assertion, read.required, None)));
      return None;
    }

    method WriteSnapshotAttempts(active: Option<S.AttemptId>, input: S.SnapshotInput)
      modifies this`attempts
      ensures attempts == S.AttemptsAfterSnapshot(old(attempts), active, input)
    {
      var disposition := S.DispositionFor(input.snapshot);
      if active.Some? && active.value < |attempts| {
        var id := active.value;
        attempts := attempts[id := attempts[id].(
          submission := input.snapshot.submission, chain := input.snapshot.chain, workflow := input.snapshot.workflow,
          disposition := disposition, conflictType := input.conflictType, conflictDetails := input.conflictDetails)];
      }
      if disposition.Won? && active.Some? {
        SupersedeOthers(active.value);
      }
    }

    method ApplySnapshot(read: S.Aggregate, input: S.SnapshotInput) returns (error: Option<S.Error>)
      modifies this
      ensures Outcome(old(State()), S.ApplySnapshot(old(State()), read, input), State(), error)
    {
      var before := S.PriorReady(read);
      var after := SettlementIsReady(input.snapshot, input.assertion, read.required, input.conflictType);
      if execution.version != read.exec.version {
        return Some(S.Stale);
      }
      execution := execution.(
        snapshot := input.snapshot.(policy := execution.snapshot.policy), assertion := input.assertion,
        settlementReadyAt := if !after then None else if before then read.exec.settlementReadyAt else Some(input.at),
        conflictType := input.conflictType, conflictDetails := input.conflictDetails,
        nextReconcileAt := input.nextReconcileAt,
        reconcileAttempts := execution.reconcileAttempts + 1, version := execution.version + 1);
      WriteSnapshotAttempts(read.active, input);
      winningAttemptId := if S.DispositionFor(input.snapshot).Won? then read.active else read.winning;
      if S.Meaningful(read.exec, input) || before != after {
        InsertEvent(S.Event(input.kind, Some(input.fromStatus), input.toStatus, input.at, after));
        if before != after {
          InsertEvent(S.Event(if after then SettlementReady else SettlementRevoked,
                              Some(input.fromStatus), input.toStatus, input.at, after));
        }
      }
      return None;
    }

    method UpdateCandidate(
      id: S.AttemptId, snapshot: Snapshot, conflictType: Option<ConflictType>, details: Option<Details>)
      modifies this`attempts
      ensures State() == S.UpdateCandidate(old(State()), id, snapshot, conflictType, details)
    {
      if id < |attempts| {
        attempts := attempts[id := attempts[id].(
          submission := snapshot.submission, chain := snapshot.chain, workflow := snapshot.workflow,
          disposition := S.DispositionFor(snapshot), conflictType := conflictType, conflictDetails := details)];
      }
    }

    method Promote(read: S.Aggregate, input: S.PromoteInput) returns (error: Option<S.Error>)
      modifies this
      ensures Outcome(old(State()), S.Promote(old(State()), read, input), State(), error)
    {
      if input.id >= |read.attempts| {
        return Some(S.AttemptParentConflict);
      }
      var attempt := read.attempts[input.id];
      var before := S.PriorReady(read);
      var after := SettlementIsReady(input.snapshot, None, read.required, attempt.conflictType);
      if execution.version != read.exec.version {
        return Some(S.Stale);
      }
      execution := execution.(
        txHash := Some(attempt.txHash), inputs := attempt.inputs, refs := attempt.refs,
        snapshot := input.snapshot.(policy := execution.snapshot.policy), submissionError := attempt.submissionError,
        conflictType := attempt.conflictType, conflictDetails := attempt.conflictDetails,
        assertion := None, settlementReadyAt := if after then Some(input.at) else None,
        nextReconcileAt := input.nextReconcileAt, reconcileAttempts := 0, version := execution.version + 1);
      var disposition := S.DispositionFor(input.snapshot);
      if input.id < |attempts| {
        attempts := attempts[input.id := attempts[input.id].(
          submission := input.snapshot.submission, chain := input.snapshot.chain, workflow := input.snapshot.workflow,
          disposition := disposition)];
      }
      if disposition.Won? {
        SupersedeOthers(input.id);
      }
      activeAttemptId := Some(input.id);
      winningAttemptId := if disposition.Won? then Some(input.id) else read.winning;
      var fromStatus, toStatus := Overall(read.exec.snapshot), Overall(input.snapshot);
      InsertEvent(S.Event(input.kind, Some(fromStatus), toStatus, input.at,
                          SettlementIsReady(input.snapshot, None, read.required, None)));
      if before != after {
        InsertEvent(S.Event(if after then SettlementReady else SettlementRevoked, Some(fromStatus), toStatus, input.at, after));
      }
      return None;
    }
  }
}
