/** The attempt history: well formed for ever, and no transaction that may still commit drops out of sight. */
module Attempts {
  import opened Prelude
  import opened Types
  import opened StateMachine
  import opened Rpc
  import opened Store
  import opened Service
  import opened Reconcile
  import opened Machine
  import opened Invariants
  import opened Confirmation

  /** The request attaches a hash that an earlier, no longer current attempt already carries. */
  predicate ReattachesOlder(db: Db, request: Request) {
    && request.AttachReq?
    && db.agg.exec.txHash != Some(request.attach.txHash)
    && FindAttempt(db.agg.attempts, request.attach.txHash).Some?
  }

  /** The stored attempt that the request attaches again. */
  function OlderRow(db: Db, request: Request): Attempt
    requires ReattachesOlder(db, request)
  {
    db.agg.attempts[FindAttempt(db.agg.attempts, request.attach.txHash).value]
  }

  /** The list is given and not empty. */
  predicate Given<T(==)>(list: Option<seq<T>>) {
    list.Some? && list.value != []
  }

  /** The request brings again whatever evidence the attempt has, as far as it is not derived from its inputs. */
  predicate BringsEvidence(row: Attempt, r: AttachRequest) {
    && (row.inputs == [] || Given(r.inputs))
    && (row.refs == [] || Given(r.refs) || Given(r.inputs))
  }

  predicate Reattached(db: Db, request: Request) {
    ReattachesOlder(db, request) && Write(db, db.agg, request).Ok?
  }

  /** Every accepted re-attachment of an older hash brings the evidence that its attempt has. */
  predicate EvidenceIsBrought(policy: Policy, required: nat, requests: seq<Request>) {
    forall k :: 0 <= k < |requests| && Reattached(Before(policy, required, requests, k), requests[k]) ==>
      BringsEvidence(OlderRow(Before(policy, required, requests, k), requests[k]), requests[k].attach)
  }

  // ---- Well-formed history -----------------------------------------------------------------------------------------

  /** The row of the active attempt has the evidence that the projection shows. */
  predicate Mirrored(agg: Aggregate) {
    agg.active.Some? && agg.active.value < |agg.attempts| ==>
      agg.attempts[agg.active.value].inputs == agg.exec.inputs && agg.attempts[agg.active.value].refs == agg.exec.refs
  }

  /** Numbers are 1..n, parents come earlier, and a replacement shares an input with the attempt it replaces. */
  predicate WellFormedHistory(attempts: seq<Attempt>) {
    forall i :: 0 <= i < |attempts| ==>
      && attempts[i].number == i + 1
      && (attempts[i].parent.Some? ==> attempts[i].parent.value < i)
      && (attempts[i].kind.RbfReplacement? && attempts[i].parent.Some? ==>
            SharesInput(attempts[i].inputs, attempts[attempts[i].parent.value].inputs))
  }

  /** What identifies an attempt, and the evidence that must never change. */
  predicate SameIdentity(a: Attempt, b: Attempt) {
    && a.number == b.number && a.txHash == b.txHash && a.parent == b.parent && a.kind == b.kind
    && a.inputs == b.inputs && a.refs == b.refs
  }

  /** No attempt disappears and none changes what it is. */
  predicate HistoryGrows(before: seq<Attempt>, after: seq<Attempt>) {
    |before| <= |after| && forall i :: 0 <= i < |before| ==> SameIdentity(before[i], after[i])
  }

  lemma {:induction false} MaxNumberIsLength(attempts: seq<Attempt>)
    requires forall i :: 0 <= i < |attempts| ==> attempts[i].number == i + 1
    ensures MaxNumber(attempts) == |attempts|
  {
    if attempts != [] {
      MaxNumberIsLength(attempts[..|attempts| - 1]);
    }
  }

  predicate HistoryInv(agg: Aggregate) {
    Mirrored(agg) && WellFormedHistory(agg.attempts)
  }

  lemma HistoryAppend(before: seq<Attempt>, after: seq<Attempt>)
    requires WellFormedHistory(before) && |after| == |before| + 1
    requires forall i :: 0 <= i < |before| ==> SameIdentity(before[i], after[i])
    requires var last := after[|before|];
             && last.number == |before| + 1
             && (last.parent.Some? ==> last.parent.value < |before|)
             && (last.kind.RbfReplacement? && last.parent.Some? ==> SharesInput(last.inputs, before[last.parent.value].inputs))
    ensures WellFormedHistory(after) && HistoryGrows(before, after)
  {
    forall i | 0 <= i < |after|
      ensures after[i].kind.RbfReplacement? && after[i].parent.Some? ==>
                after[i].parent.value < i && SharesInput(after[i].inputs, after[after[i].parent.value].inputs)
    {
      if i < |before| {
        assert SameIdentity(before[i], after[i]);
        if before[i].parent.Some? {
          assert SameIdentity(before[before[i].parent.value], after[before[i].parent.value]);
        }
      } else if after[i].parent.Some? {
        assert SameIdentity(before[after[i].parent.value], after[after[i].parent.value]);
      }
    }
  }

  lemma AttachNewKeepsHistory(db: Db, input: AttachInput)
    requires Inv(db.agg) && HistoryInv(db.agg)
    requires Creating(db.agg, input) && FindAttempt(db.agg.attempts, input.txHash).None?
    ensures var after := AttachTransaction(db, db.agg, input);
            after.Ok? ==> HistoryInv(after.value.agg) && HistoryGrows(db.agg.attempts, after.value.agg.attempts)
  {
    var result := AttachTransaction(db, db.agg, input);
    if result.Ok? {
      var before, after := db.agg.attempts, result.value.agg.attempts;
      MaxNumberIsLength(before);
      assert |after| == |before| + 1 && after[|before|] == NewAttempt(db, db.agg, input);
      HistoryAppend(before, after);
    }
  }

  lemma AttachSameKeepsHistory(db: Db, input: AttachInput)
    requires Inv(db.agg) && HistoryInv(db.agg)
    requires !Creating(db.agg, input)
    ensures var after := AttachTransaction(db, db.agg, input);
            after.Ok? ==> HistoryInv(after.value.agg) && HistoryGrows(db.agg.attempts, after.value.agg.attempts)
  {
    var result := AttachTransaction(db, db.agg, input);
    if result.Ok? {
      var existing := FindAttempt(db.agg.attempts, input.txHash);
      assert existing == db.agg.active;
      var row := db.agg.attempts[existing.value];
      assert row.inputs == PersistedInputs(db.agg, input);
      assert row.refs == PersistedRefs(db.agg, input);
      assert HistoryGrows(db.agg.attempts, result.value.agg.attempts);
    }
  }

  lemma IdentityKeepsHistory(before: seq<Attempt>, after: seq<Attempt>)
    requires WellFormedHistory(before) && |before| == |after|
    requires forall i :: 0 <= i < |before| ==> SameIdentity(before[i], after[i])
    ensures WellFormedHistory(after) && HistoryGrows(before, after)
  {
  }

  lemma MarkKeepsHistory(db: Db, m: MarkRequest)
    requires Inv(db.agg) && HistoryInv(db.agg)
    ensures KeepsHistory(db.agg, Step(db, MarkReq(m)).agg)
  {
    IdentityKeepsHistory(db.agg.attempts, Step(db, MarkReq(m)).agg.attempts);
  }

  lemma ApplySnapshotKeepsHistory(db: Db, input: SnapshotInput)
    requires Inv(db.agg) && HistoryInv(db.agg)
    ensures var after := ApplySnapshot(db, db.agg, input);
            after.Ok? && HistoryInv(after.value.agg) && HistoryGrows(db.agg.attempts, after.value.agg.attempts)
  {
    IdentityKeepsHistory(db.agg.attempts, ApplySnapshot(db, db.agg, input).value.agg.attempts);
  }

  lemma SideUpdateKeepsHistory(db: Db, id: AttemptId, s: Snapshot, conflictType: Option<ConflictType>, details: Option<Details>)
    requires Inv(db.agg) && HistoryInv(db.agg) && IsCandidate(db.agg, id)
    ensures var after := UpdateCandidate(db, id, s, conflictType, details).agg;
            HistoryInv(after) && HistoryGrows(db.agg.attempts, after.attempts)
  {
    IdentityKeepsHistory(db.agg.attempts, UpdateCandidate(db, id, s, conflictType, details).agg.attempts);
  }

  lemma PromotionKeepsHistory(db: Db, input: PromoteInput)
    requires Inv(db.agg) && HistoryInv(db.agg) && IsCandidate(db.agg, input.id)
    ensures var after := Promote(db, db.agg, input);
            after.Ok? && HistoryInv(after.value.agg) && HistoryGrows(db.agg.attempts, after.value.agg.attempts)
  {
    IdentityKeepsHistory(db.agg.attempts, Promote(db, db.agg, input).value.agg.attempts);
  }

  predicate KeepsHistory(before: Aggregate, after: Aggregate) {
    HistoryInv(after) && HistoryGrows(before.attempts, after.attempts)
  }

  /** An accepted re-attachment changes its own row only. */
  lemma ReattachChangesOneRow(db: Db, r: AttachRequest)
    requires Inv(db.agg) && Reattached(db, AttachReq(r))
    ensures var found := FindAttempt(db.agg.attempts, r.txHash).value;
            var input := ComputeAttach(db.agg, r).value;
            var after := Step(db, AttachReq(r)).agg;
            && |after.attempts| == |db.agg.attempts| && found < |after.attempts| && after.active == Some(found)
            && after.attempts[found] == db.agg.attempts[found].(
                 submission := r.submission, payloadHash := OrElse(input.payloadHash, db.agg.attempts[found].payloadHash),
                 inputs := PersistedInputs(db.agg, input), refs := PersistedRefs(db.agg, input))
            && (forall i :: 0 <= i < |after.attempts| && i != found ==> after.attempts[i] == db.agg.attempts[i])
            && after.exec.inputs == after.attempts[found].inputs && after.exec.refs == after.attempts[found].refs
            && after.exec.snapshot == InitialSnapshot(db.agg.exec.snapshot.policy).(submission := r.submission)
  {
  }

  /** Attaching an older hash again leaves its evidence as it was if and only if the request brings it again. */
  lemma ReattachKeepsEvidenceExactlyWhen(db: Db, r: AttachRequest)
    requires Inv(db.agg) && Reattached(db, AttachReq(r))
    ensures var found := FindAttempt(db.agg.attempts, r.txHash).value;
            SameIdentity(db.agg.attempts[found], Step(db, AttachReq(r)).agg.attempts[found])
            <==> BringsEvidence(db.agg.attempts[found], r)
  {
    ReattachChangesOneRow(db, r);
    var input := ComputeAttach(db.agg, r).value;
    assert AttachConflict(db, db.agg, input).None?;
    assert Given(r.inputs) ==> PersistedInputs(db.agg, input) == r.inputs.value != [];
    assert !Given(r.inputs) ==> PersistedInputs(db.agg, input) == [];
    if !Given(r.refs) && !Given(r.inputs) {
      assert PersistedRefs(db.agg, input) == [];
    } else {
      assert PersistedRefs(db.agg, input) != [] by {
        if !Given(r.refs) {
          assert |NeutralRefs(r.inputs.value)| == |r.inputs.value|;
        }
      }
    }
  }

  lemma ReattachKeepsHistory(db: Db, r: AttachRequest)
    requires Inv(db.agg) && HistoryInv(db.agg) && Reattached(db, AttachReq(r))
    requires BringsEvidence(OlderRow(db, AttachReq(r)), r)
    ensures KeepsHistory(db.agg, Step(db, AttachReq(r)).agg)
  {
    ReattachChangesOneRow(db, r);
    ReattachKeepsEvidenceExactlyWhen(db, r);
    IdentityKeepsHistory(db.agg.attempts, Step(db, AttachReq(r)).agg.attempts);
  }

  lemma AttachKeepsHistory(db: Db, r: AttachRequest)
    requires Inv(db.agg) && HistoryInv(db.agg)
    requires !ReattachesOlder(db, AttachReq(r))
    ensures KeepsHistory(db.agg, Step(db, AttachReq(r)).agg)
  {
    var input := ComputeAttach(db.agg, r);
    if input.Ok? {
      if Creating(db.agg, input.value) {
        AttachNewKeepsHistory(db, input.value);
      } else {
        AttachSameKeepsHistory(db, input.value);
      }
    }
  }

  lemma PollKeepsHistory(db: Db, p: Poll)
    requires Inv(db.agg) && HistoryInv(db.agg)
    ensures KeepsHistory(db.agg, Step(db, PollReq(p)).agg)
  {
    if ReconcileOutcome(db.agg, p).Ok? {
      ApplySnapshotKeepsHistory(db, ReconcileOutcome(db.agg, p).value);
    }
  }

  lemma ScanKeepsHistory(db: Db, id: AttemptId, result: PollResult, now: int)
    requires Inv(db.agg) && HistoryInv(db.agg)
    ensures KeepsHistory(db.agg, Step(db, ScanReq(id, result, now)).agg)
  {
    if db.agg.exec.txHash.Some? && IsCandidate(db.agg, id) {
      match ScanCandidate(db.agg, id, result, now)
      case NoWrite =>
      case SideUpdate(s, conflictType, details) => SideUpdateKeepsHistory(db, id, s, conflictType, details);
      case Promotion(input) =>
        PromotionIsSound(db.agg, id, result, now);
        PromotionKeepsHistory(db, input);
    }
  }

  lemma StepKeepsHistory(db: Db, request: Request)
    requires Inv(db.agg) && HistoryInv(db.agg)
    requires Reattached(db, request) ==> BringsEvidence(OlderRow(db, request), request.attach)
    ensures KeepsHistory(db.agg, Step(db, request).agg)
  {
    match request
    case AttachReq(r) =>
      if Reattached(db, request) {
        ReattachKeepsHistory(db, r);
      } else if !ReattachesOlder(db, request) {
        AttachKeepsHistory(db, r);
      }
    case MarkReq(m) => MarkKeepsHistory(db, m);
    case PollReq(p) => PollKeepsHistory(db, p);
    case ScanReq(id, result, now) => ScanKeepsHistory(db, id, result, now);
  }

  /** A request changes the recorded history if and only if it is such a re-attachment. */
  lemma HistoryChangesExactlyWhen(db: Db, request: Request)
    requires Inv(db.agg) && HistoryInv(db.agg)
    ensures HistoryGrows(db.agg.attempts, Step(db, request).agg.attempts) <==>
            (Reattached(db, request) ==> BringsEvidence(OlderRow(db, request), request.attach))
  {
    if Reattached(db, request) && !BringsEvidence(OlderRow(db, request), request.attach) {
      ReattachKeepsEvidenceExactlyWhen(db, request.attach);
    } else {
      StepKeepsHistory(db, request);
    }
  }

  lemma {:induction false} HistoryIsWellFormed(policy: Policy, required: nat, requests: seq<Request>)
    requires EvidenceIsBrought(policy, required, requests)
    ensures HistoryInv(Run(Init(policy, required), requests).agg)
  {
    if requests != [] {
      var n := |requests| - 1;
      PrefixBrings(policy, required, requests, n);
      HistoryIsWellFormed(policy, required, requests[..n]);
      RunKeeps(policy, required, requests[..n]);
      StepKeepsHistory(Before(policy, required, requests, n), requests[n]);
    }
  }

  lemma PrefixBrings(policy: Policy, required: nat, requests: seq<Request>, n: nat)
    requires n <= |requests| && EvidenceIsBrought(policy, required, requests)
    ensures EvidenceIsBrought(policy, required, requests[..n])
  {
    forall k | 0 <= k < n && Reattached(Before(policy, required, requests[..n], k), requests[..n][k])
      ensures BringsEvidence(OlderRow(Before(policy, required, requests[..n], k), requests[..n][k]), requests[..n][k].attach)
    {
      BeforeOfPrefix(policy, required, requests, n, k);
    }
  }

  /** Whatever happens later, an attempt recorded at any time keeps its number, parent, kind and input evidence. */
  lemma {:induction false} HistoryNeverChanges(policy: Policy, required: nat, requests: seq<Request>, j: nat)
    requires EvidenceIsBrought(policy, required, requests) && j <= |requests|
    ensures HistoryGrows(Before(policy, required, requests, j).agg.attempts, Run(Init(policy, required), requests).agg.attempts)
  {
    var n := |requests| - 1;
    if j == |requests| {
      assert requests[..j] == requests;
    } else {
      PrefixBrings(policy, required, requests, n);
      HistoryNeverChanges(policy, required, requests[..n], j);
      BeforeOfPrefix(policy, required, requests, n, j);
      HistoryIsWellFormed(policy, required, requests[..n]);
      RunKeeps(policy, required, requests[..n]);
      StepKeepsHistory(Before(policy, required, requests, n), requests[n]);
      HistoryGrowsOn(Before(policy, required, requests, j).agg.attempts, Before(policy, required, requests, n).agg.attempts,
                     Run(Init(policy, required), requests).agg.attempts);
    }
  }

  lemma HistoryGrowsOn(a: seq<Attempt>, b: seq<Attempt>, c: seq<Attempt>)
    requires HistoryGrows(a, b) && HistoryGrows(b, c)
    ensures HistoryGrows(a, c)
  {
    forall i | 0 <= i < |a|
      ensures SameIdentity(a[i], c[i])
    {
      assert SameIdentity(a[i], b[i]) && SameIdentity(b[i], c[i]);
    }
  }

  // ---- A run that blanks evidence ------------------------------------------------------------------------------

  const INPUT := OutPoint("cell", 0)

  function Attaching(txHash: string, submission: AttachStatus, inputs: Option<seq<OutPoint>>, kind: AttemptKind): Request {
    AttachReq(AttachRequest(txHash, submission, None, inputs, None, Some(kind), None, false, {}, 0))
  }

  /** Only the first attempt, prepared. */
  predicate FirstPrepared(agg: Aggregate) {
    && |agg.attempts| == 1 && agg.active == Some(0) && agg.exec.txHash == Some("a")
    && agg.attempts[0].txHash == "a" && agg.attempts[0].inputs == [INPUT] && agg.attempts[0].refs == NeutralRefs([INPUT])
    && agg.attempts[0].payloadHash.None?
    && agg.exec.snapshot.submission.Prepared? && agg.exec.snapshot.chain.Unobserved? && agg.exec.snapshot.workflow.Idle?
  }

  /** The second attempt has replaced the first one, which nothing had broadcast. */
  predicate FirstSuperseded(agg: Aggregate) {
    && |agg.attempts| == 2 && agg.active == Some(1) && agg.exec.txHash == Some("b")
    && agg.attempts[0].txHash == "a" && agg.attempts[0].inputs == [INPUT] && agg.attempts[0].refs == NeutralRefs([INPUT])
    && agg.attempts[0].disposition.Superseded? && agg.attempts[0].payloadHash.None?
    && agg.attempts[1].txHash == "b"
    && agg.exec.snapshot.submission.Prepared? && agg.exec.snapshot.chain.Unobserved? && agg.exec.snapshot.workflow.Idle?
  }

  lemma FirstIsPrepared()
    ensures FirstPrepared(Step(Init(WhenCommitted, 0), Attaching("a", Prepared, Some([INPUT]), Initial)).agg)
  {
  }

  lemma SecondSupersedesFirst(db: Db)
    requires FirstPrepared(db.agg)
    ensures FirstSuperseded(Step(db, Attaching("b", Prepared, Some([INPUT]), Rebuild)).agg)
  {
    assert "a"[0] != "b"[0];
    assert FindAttempt(db.agg.attempts, "b").None?;
  }

  lemma FindFirst(attempts: seq<Attempt>)
    requires |attempts| == 2 && attempts[0].txHash == "a" && attempts[1].txHash == "b"
    ensures FindAttempt(attempts, "a") == Some(0) && FindAttempt(attempts, "c").None?
  {
    assert "a"[0] != "b"[0] && "b"[0] != "c"[0] && "a"[0] != "c"[0];
    assert attempts[..1][0] == attempts[0];
  }

  /** Attaching the older hash again without inputs blanks the evidence its attempt had recorded. */
  lemma ReattachingCanBlankInputs(db: Db)
    requires FirstSuperseded(db.agg)
    ensures var request := Attaching("a", Submitted, None, Rebuild);
            && ReattachesOlder(db, request) && |Step(db, request).agg.attempts| == 2
            && Step(db, request).agg.attempts[0].inputs == [] != db.agg.attempts[0].inputs
  {
    FindFirst(db.agg.attempts);
    assert "a"[0] != "b"[0];
  }

  /** A run from a new intent that erases the inputs recorded for its first attempt. */
  lemma ReattachingBlanksInputs()
    ensures var requests := [Attaching("a", Prepared, Some([INPUT]), Initial), Attaching("b", Prepared, Some([INPUT]), Rebuild)];
            var last := Attaching("a", Submitted, None, Rebuild);
            var before, after := Run(Init(WhenCommitted, 0), requests).agg, Run(Init(WhenCommitted, 0), requests + [last]).agg;
            && |before.attempts| == |after.attempts| == 2
            && before.attempts[0].inputs == [INPUT] && after.attempts[0].inputs == []
  {
    var start := Init(WhenCommitted, 0);
    var first, second := Attaching("a", Prepared, Some([INPUT]), Initial), Attaching("b", Prepared, Some([INPUT]), Rebuild);
    var last := Attaching("a", Submitted, None, Rebuild);
    FirstIsPrepared();
    SecondSupersedesFirst(Step(start, first));
    RunTwo(start, first, second);
    RunAppend(start, [first, second], [last]);
    RunOne(Step(Step(start, first), second), last);
    ReattachingCanBlankInputs(Step(Step(start, first), second));
  }
}
