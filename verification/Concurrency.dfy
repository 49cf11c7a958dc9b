/**
 * What holds for any number of callers at once: the statements about serial runs, carried over to every interleaving from
 * a new intent in which no scan is overtaken. The run spoken of is that of the requests that wrote. What holds in every
 * interleaving is in AnyInterleaving.
 */
module Concurrency {
  import opened Prelude
  import opened Types
  import opened StateMachine
  import opened Rpc
  import opened Store
  import opened Service
  import opened Reconcile
  import opened Machine
  import opened Invariants
  import opened Confirmation
  import opened Settlement
  import opened Attempts
  import opened Tracking
  import opened SpendRuns
  import opened Lifecycle
  import opened Interleaving
  import opened Serialization

  /** The state that the actions lead to. */
  function Reached(policy: Policy, required: nat, actions: seq<Action>): Db {
    Execute(NewSystem(policy, required), actions).db
  }

  /** The requests that wrote. */
  function Serial(policy: Policy, required: nat, actions: seq<Action>): seq<Request> {
    Written(NewSystem(policy, required), actions)
  }

  predicate Orderly(policy: Policy, required: nat, actions: seq<Action>) {
    NoneOvertaken(NewSystem(policy, required), actions)
  }

  lemma ReachedIsSerial(policy: Policy, required: nat, actions: seq<Action>)
    requires Orderly(policy, required, actions)
    ensures SameButSchedule(Reached(policy, required, actions), Run(Init(policy, required), Serial(policy, required, actions)))
    ensures Inv(Reached(policy, required, actions).agg)
  {
    SerialRefinement(NewSystem(policy, required), actions);
    RunKeeps(policy, required, []);
    InterleavingsKeep(NewSystem(policy, required), actions);
  }

  lemma SettlementEventsAlternate(policy: Policy, required: nat, actions: seq<Action>)
    requires Orderly(policy, required, actions)
    requires var requests := Serial(policy, required, actions);
             forall k :: 0 <= k < |requests| ==>
               !ConflictReportAfterSettlement(Before(policy, required, requests, k), requests[k])
    ensures Booked(Reached(policy, required, actions))
  {
    ReachedIsSerial(policy, required, actions);
    Settlement.SettlementEventsAlternate(policy, required, Serial(policy, required, actions));
  }

  lemma HistoryIsWellFormed(policy: Policy, required: nat, actions: seq<Action>)
    requires Orderly(policy, required, actions)
    requires EvidenceIsBrought(policy, required, Serial(policy, required, actions))
    ensures HistoryInv(Reached(policy, required, actions).agg)
  {
    ReachedIsSerial(policy, required, actions);
    Attempts.HistoryIsWellFormed(policy, required, Serial(policy, required, actions));
  }

  lemma NoLiveAttemptIsAbandoned(policy: Policy, required: nat, actions: seq<Action>)
    requires Orderly(policy, required, actions)
    requires ReattachmentsAreSafe(policy, required, Serial(policy, required, actions))
    requires NeverConfirmed(policy, required, Serial(policy, required, actions))
    ensures Tracked(Reached(policy, required, actions).agg)
  {
    ReachedIsSerial(policy, required, actions);
    var serial := Run(Init(policy, required), Serial(policy, required, actions)).agg;
    var agg := Reached(policy, required, actions).agg;
    Tracking.NoLiveAttemptIsAbandoned(policy, required, Serial(policy, required, actions));
    assert agg.attempts == serial.attempts && agg.active == serial.active;
    assert forall i: AttemptId :: IsCandidate(agg, i) <==> IsCandidate(serial, i);
  }

  lemma InputSpentWasEarned(policy: Policy, required: nat, actions: seq<Action>)
    requires Orderly(policy, required, actions)
    requires NoPromotion(policy, required, Serial(policy, required, actions))
    requires Reached(policy, required, actions).agg.exec.conflictType == Some(InputSpent)
    ensures exists m :: EarnedAt(policy, required, Serial(policy, required, actions), m)
  {
    ReachedIsSerial(policy, required, actions);
    SpendRuns.InputSpentWasEarned(policy, required, Serial(policy, required, actions));
  }

  /** What users are shown and advised, and the one winner, for any number of callers. */
  lemma StateShownIsSound(policy: Policy, required: nat, actions: seq<Action>)
    requires Orderly(policy, required, actions)
    ensures var agg := Reached(policy, required, actions).agg;
            && (agg.exec.snapshot.workflow.Confirmed? ==> (Advice(agg).NoAction? <==> Ready(agg)))
            && (Overall(agg.exec.snapshot).OverallConfirmed? <==> agg.exec.snapshot.workflow.Confirmed?)
            && (agg.winning.Some? ==> agg.winning == agg.active && !HasCandidate(agg))
            && (Rebuilds(Advice(agg)) ==>
                  || (agg.exec.conflictType == Some(InputSpent) && SpendProven(agg.exec.conflictDetails))
                  || (agg.exec.conflictType == Some(InputConflictSuspected) && LastingContention(agg.exec.conflictDetails)))
  {
    var requests := Serial(policy, required, actions);
    var agg := Reached(policy, required, actions).agg;
    ReachedIsSerial(policy, required, actions);
    RunAssertsOnlyRequired(policy, required, requests);
    assert AssertsOnlyRequired(agg);
    if agg.exec.snapshot.workflow.Confirmed? {
      AdviceOfConfirmed(agg);
    }
    OverallOfSound(agg.exec.snapshot);
    JustifiedAdvice(agg);
  }
}
