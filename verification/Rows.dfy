/** What passes and scans write to the attempt rows: the one they are about, and no other unless a winner takes the field. */
module Rows {
  import opened Prelude
  import opened Types
  import opened StateMachine
  import opened Rpc
  import opened Store
  import opened Reconcile
  import opened Machine
  import opened Invariants
  import EventLog
  import Verdicts

  /** The row shows these statuses, and the disposition that they deserve. */
  predicate Shows(row: Attempt, s: Snapshot) {
    && row.submission == s.submission && row.chain == s.chain && row.workflow == s.workflow
    && (row.disposition.Won? <==> s.workflow.Confirmed?)
    && (row.disposition.Clashed? <==> s.workflow.Conflicted?)
    && (row.disposition.Refused? <==>
          (s.chain.Rejected? || s.submission.NodeRejected?) && !s.workflow.Confirmed? && !s.workflow.Conflicted?)
    && (row.disposition.Active? <==>
          !s.chain.Rejected? && !s.submission.NodeRejected? && !s.workflow.Confirmed? && !s.workflow.Conflicted?)
  }

  /** Everything else about the attempt is as it was. */
  predicate SameAttempt(before: Attempt, after: Attempt) {
    after == before.(submission := after.submission, chain := after.chain, workflow := after.workflow,
                     disposition := after.disposition, conflictType := after.conflictType, conflictDetails := after.conflictDetails)
  }

  /** The other rows stay, except that a winner ends the running of the others. */
  predicate OthersStay(before: seq<Attempt>, after: seq<Attempt>, id: AttemptId, won: bool) {
    && |after| == |before|
    && forall i :: 0 <= i < |before| && i != id ==>
         after[i] == if won && before[i].disposition.Active? then before[i].(disposition := Superseded) else before[i]
  }

  /** A pass writes the statuses and the findings of the projection to the active row, and counts itself. */
  lemma PassRecordsAttempt(db: Db, p: Poll)
    requires Linked(db.agg) && ReconcileOutcome(db.agg, p).Ok?
    ensures var before, after := db.agg, Step(db, PollReq(p)).agg;
            var id, won := before.active.value, after.exec.snapshot.workflow.Confirmed?;
            && before.active.Some? && after.active == before.active && id < |after.attempts|
            && Shows(after.attempts[id], after.exec.snapshot) && SameAttempt(before.attempts[id], after.attempts[id])
            && after.attempts[id].conflictType == after.exec.conflictType
            && after.attempts[id].conflictDetails == after.exec.conflictDetails
            && OthersStay(before.attempts, after.attempts, id, won)
            && after.winning == (if won then before.active else before.winning)
            && after.exec.reconcileAttempts == before.exec.reconcileAttempts + 1
            && after.exec.version == before.exec.version + 1
            && after.exec.txHash == before.exec.txHash && after.exec.submissionError == before.exec.submissionError
  {
    var outcome := ReconcileOutcome(db.agg, p).value;
    EventLog.PassStatuses(db, p);
  }

  /** A promotion writes the new projection to the candidate's row, and leaves the others as a pass does. */
  lemma PromotionRecordsAttempt(db: Db, id: AttemptId, result: PollResult, now: int)
    requires db.agg.exec.txHash.Some? && IsCandidate(db.agg, id)
    requires ScanCandidate(db.agg, id, result, now).Promotion?
    ensures var before, after := db.agg, Step(db, ScanReq(id, result, now)).agg;
            var won := after.exec.snapshot.workflow.Confirmed?;
            && |after.attempts| == |before.attempts|
            && Shows(after.attempts[id], after.exec.snapshot) && SameAttempt(before.attempts[id], after.attempts[id])
            && after.attempts[id].conflictType == before.attempts[id].conflictType
            && OthersStay(before.attempts, after.attempts, id, won)
            && after.winning == (if won then Some(id) else before.winning)
            && after.exec.settlementReadyAt == (if Ready(after) then Some(result.answers.at) else None)
            && after.exec.nextReconcileAt == Some(now + 12000)
  {
    PromotionIsSound(db.agg, id, result, now);
    PromotionStep(db, id, result, now);
    EventLog.PromotionKinds(db.agg, id, result, now);
    Verdicts.PromotedExactlyWhen(db.agg, id, result, now);
  }

  /** A scan that does not promote writes what it has seen to the candidate's row, and nothing else. */
  lemma ScanRecordsAttempt(db: Db, id: AttemptId, result: PollResult, now: int)
    requires db.agg.exec.txHash.Some? && IsCandidate(db.agg, id)
    requires !ScanCandidate(db.agg, id, result, now).Promotion?
    ensures var outcome, after := ScanCandidate(db.agg, id, result, now), Step(db, ScanReq(id, result, now));
            && after == db.(agg := db.agg.(attempts := after.agg.attempts)) && |after.agg.attempts| == |db.agg.attempts|
            && OthersStay(db.agg.attempts, after.agg.attempts, id, false)
            && SameAttempt(db.agg.attempts[id], after.agg.attempts[id])
            && if outcome.NoWrite? then after == db
               else Shows(after.agg.attempts[id], outcome.snapshot)
                    && after.agg.attempts[id].conflictType == outcome.conflictType
                    && after.agg.attempts[id].conflictDetails == outcome.details
  {
  }

  // ---- What is asked for -------------------------------------------------------------------------------------------

  /** The inputs inspected are those recorded with their roles, or else the bare inputs, whose role is unknown. */
  lemma InspectedInputs(refs: seq<InputRef>, inputs: seq<OutPoint>)
    ensures var targets := TargetsOf(refs, inputs);
            && (refs != [] ==> targets == refs)
            && (refs == [] ==> |targets| == |inputs| && forall i :: 0 <= i < |inputs| ==> targets[i] == InputRef(inputs[i], Other, None))
  {
  }

  /** The endpoints to ask after the first one. */
  function Remaining(endpoints: seq<string>, primary: string): seq<string> {
    if endpoints == [] then []
    else (if endpoints[0] == primary then [] else [endpoints[0]]) + Remaining(endpoints[1..], primary)
  }

  /** What asking these endpoints in order shows, up to the first that reports the spend. */
  function ViewsOf(endpoints: seq<string>, targets: seq<InputRef>, others: map<string, Answers>): seq<EndpointView> {
    if endpoints == [] then []
    else
      var view := SecondView(endpoints[0], targets, others);
      [view] + if view.state == Some(CanonicallySpent) then [] else ViewsOf(endpoints[1..], targets, others)
  }

  /** The others are asked in order up to the first that reports the spend, and all of them when none does. */
  lemma {:induction false} AskingStopsAtTheFirstSpend(
    endpoints: seq<string>, primary: string, targets: seq<InputRef>, others: map<string, Answers>, views: seq<EndpointView>)
    ensures var c := AskOthers(endpoints, primary, targets, others, views);
            c.requiredEndpoints == 2 && c.views == views + ViewsOf(Remaining(endpoints, primary), targets, others)
  {
    if endpoints == [] {
      assert views + [] == views;
    } else {
      var view, rest := SecondView(endpoints[0], targets, others), Remaining(endpoints[1..], primary);
      if endpoints[0] == primary {
        AskingStopsAtTheFirstSpend(endpoints[1..], primary, targets, others, views);
        assert Remaining(endpoints, primary) == [] + rest == rest;
      } else if view.state == Some(CanonicallySpent) {
        assert Remaining(endpoints, primary)[0] == endpoints[0];
        assert ViewsOf(Remaining(endpoints, primary), targets, others) == [view];
      } else {
        AskingStopsAtTheFirstSpend(endpoints[1..], primary, targets, others, views + [view]);
        assert Remaining(endpoints, primary)[0] == endpoints[0] && Remaining(endpoints, primary)[1..] == rest;
        assert ViewsOf(Remaining(endpoints, primary), targets, others) == [view] + ViewsOf(rest, targets, others);
        assert views + ([view] + ViewsOf(rest, targets, others)) == (views + [view]) + ViewsOf(rest, targets, others);
      }
    }
  }

  /** One configured endpoint decides alone; with two, the first view is the pass's own and the others are asked after it. */
  lemma CorroborationRecords(urls: seq<string>, primary: Inspection, targets: seq<InputRef>, others: map<string, Answers>)
    ensures var c, first := Corroborate(urls, primary, targets, others), EndpointView(primary.endpoint, Some(primary.state));
            if Verdicts.TwoEndpoints(urls) then
              c.requiredEndpoints == 2
              && c.views == [first] + ViewsOf(Remaining(Unique(urls), primary.endpoint), targets, others)
            else c == Corroboration(primary.state.CanonicallySpent?, 1, [first])
  {
    TwoAreTwo(urls);
    AskingStopsAtTheFirstSpend(Unique(urls), primary.endpoint, targets, others,
                               [EndpointView(primary.endpoint, Some(primary.state))]);
  }

  lemma TwoAreTwo(urls: seq<string>)
    ensures Verdicts.TwoEndpoints(urls) <==> |Unique(urls)| >= 2
  {
    var unique := Unique(urls);
    if i, j :| 0 <= i < |urls| && 0 <= j < |urls| && urls[i] != urls[j] {
      assert urls[i] in unique && urls[j] in unique;
    }
    if |unique| >= 2 {
      assert unique[0] in urls && unique[1] in urls;
    }
  }

  /** Each endpoint keeps the place where it is first configured. */
  lemma {:induction false} UniqueKeepsOrder(urls: seq<string>, i: nat, j: nat)
    requires i < j < |Unique(urls)|
    ensures exists p :: 0 <= p < |urls| && urls[p] == Unique(urls)[i] && Unique(urls)[j] !in urls[..p + 1]
  {
    var n := |urls| - 1;
    var before := Unique(urls[..n]);
    if j < |before| {
      UniqueKeepsOrder(urls[..n], i, j);
      var p :| 0 <= p < n && urls[..n][p] == before[i] && before[j] !in urls[..n][..p + 1];
      assert urls[..n][..p + 1] == urls[..p + 1];
    } else {
      assert before[i] in urls[..n];
      var p :| 0 <= p < n && urls[..n][p] == before[i];
      assert forall q :: 0 <= q < p + 1 ==> urls[..p + 1][q] == urls[..n][q];
      assert urls[n] !in urls[..n];
    }
  }
}
