/** Spend evidence kept between reconciliations (packages/core/src/conflict-evidence.ts). */
module ConflictEvidence {
  import opened Prelude
  import opened Types
  import Hex

  /** The part of an input inspection that spend evidence reads. */
  datatype SpentInspection = SpentInspection(at: int, tip: Option<string>)

  function RequiredBlocks(policy: Policy): int {
    match policy
    case Depth(blocks) => Max(blocks, 1)
    case WhenCommitted => 1
  }

  /** Evidence that a later spent inspection extends. */
  predicate Continues(details: Option<Details>) {
    AsRecord(details).classification == Some(SpentObserved) && !AsRecord(details).continuityBroken
  }

  predicate Matured(policy: Policy, details: Option<Details>, inspection: SpentInspection) {
    var prior := AsRecord(details);
    var first := Hex.ParseHeight(prior.firstTip);
    var last := Hex.ParseHeight(prior.lastTip);
    var current := Hex.ParseHeight(inspection.tip);
    && Continues(details)
    && first.Some? && last.Some? && current.Some?
    && current.value > last.value
    && (if prior.spentCount.Some? then prior.spentCount.value else 1) >= 1
    && current.value >= first.value + RequiredBlocks(policy)
  }

  function NextSpent(details: Option<Details>, inspection: SpentInspection): Details {
    var prior := AsRecord(details);
    var continues := Continues(details);
    var previous := Hex.ParseHeight(prior.lastTip);
    var current := Hex.ParseHeight(inspection.tip);
    var distinct := previous.None? || current.None? || current.value > previous.value;
    var count := if prior.spentCount.Some? then Max(1, prior.spentCount.value) else 1;
    EMPTY_DETAILS.(
      classification := Some(SpentObserved),
      firstObservedAt := if continues then OrElse(prior.firstObservedAt, Some(inspection.at)) else Some(inspection.at),
      firstTip := if continues then OrElse(prior.firstTip, inspection.tip) else inspection.tip,
      lastObservedAt := Some(inspection.at),
      lastTip := inspection.tip,
      spentCount := Some(if continues then count + (if distinct then 1 else 0) else 1))
  }

  function BreakContinuity(details: Option<Details>): Option<Details> {
    if AsRecord(details).classification == Some(SpentObserved)
    then Some(AsRecord(details).(continuityBroken := true))
    else details
  }

  // ---- What the incremental evidence means -------------------------------------------------------------------------

  /** The evidence after inspecting the inputs as spent once for every element, starting from earlier evidence. */
  function Accumulate(start: Option<Details>, run: seq<SpentInspection>): Option<Details> {
    if run == [] then start
    else Some(NextSpent(Accumulate(start, run[..|run| - 1]), run[|run| - 1]))
  }

  /** Whether inspection i counts as a new one: its tip rose, or one of the two tips is no height. */
  predicate Rose(run: seq<SpentInspection>, i: nat)
    requires 0 < i < |run|
  {
    var before := Hex.ParseHeight(run[i - 1].tip);
    var now := Hex.ParseHeight(run[i].tip);
    before.None? || now.None? || now.value > before.value
  }

  function Rises(run: seq<SpentInspection>): nat {
    if |run| <= 1 then 0
    else Rises(run[..|run| - 1]) + (if Rose(run, |run| - 1) then 1 else 0)
  }

  /** The first tip that an inspection of the run answered at all. */
  function FirstTip(run: seq<SpentInspection>): Option<string> {
    if run == [] then None else OrElse(run[0].tip, FirstTip(run[1..]))
  }

  lemma {:induction false} FirstTipAppend(run: seq<SpentInspection>, next: SpentInspection)
    ensures FirstTip(run + [next]) == OrElse(FirstTip(run), next.tip)
  {
    if run != [] {
      FirstTipAppend(run[1..], next);
      assert (run + [next])[1..] == run[1..] + [next];
    }
  }

  /** Folding the evidence one inspection at a time gives the first, the last and the number of rises of the run. */
  lemma {:induction false} AccumulatedEvidenceIsSummary(start: Option<Details>, run: seq<SpentInspection>)
    requires !Continues(start)
    requires run != []
    ensures var evidence := Accumulate(start, run);
            && Continues(evidence)
            && evidence.value.firstObservedAt == Some(run[0].at)
            && evidence.value.lastObservedAt == Some(run[|run| - 1].at)
            && evidence.value.firstTip == FirstTip(run)
            && evidence.value.lastTip == run[|run| - 1].tip
            && evidence.value.spentCount == Some(1 + Rises(run))
  {
    var init, last := run[..|run| - 1], run[|run| - 1];
    assert run == init + [last];
    if init == [] {
      assert FirstTip(run) == OrElse(last.tip, FirstTip(run[1..])) == last.tip;
    } else {
      AccumulatedEvidenceIsSummary(start, init);
      FirstTipAppend(init, last);
    }
  }

  predicate KnownTips(run: seq<SpentInspection>) {
    forall i :: 0 <= i < |run| ==> Hex.ParseHeight(run[i].tip).Some?
  }

  function TipOf(inspection: SpentInspection): nat
    requires Hex.ParseHeight(inspection.tip).Some?
  {
    Hex.ParseHeight(inspection.tip).value
  }

  /** The next inspection matures exactly when its tip passes the last one and is deep enough above the first one. */
  lemma {:induction false} MaturesExactlyWhen(
    policy: Policy, start: Option<Details>, run: seq<SpentInspection>, next: SpentInspection)
    requires !Continues(start)
    requires run != [] && KnownTips(run + [next])
    ensures Matured(policy, Accumulate(start, run), next) <==>
            && TipOf((run + [next])[|run|]) > TipOf((run + [next])[|run| - 1])
            && TipOf((run + [next])[|run|]) >= TipOf((run + [next])[0]) + RequiredBlocks(policy)
  {
    AccumulatedEvidenceIsSummary(start, run);
    assert (run + [next])[0] == run[0] && (run + [next])[|run|] == next && (run + [next])[|run| - 1] == run[|run| - 1];
    assert run[0].tip.Some?;
  }

  predicate StrictlyRising(run: seq<SpentInspection>)
    requires KnownTips(run)
  {
    forall i :: 0 < i < |run| ==> TipOf(run[i]) > TipOf(run[i - 1])
  }

  lemma {:induction false} RisingTipsGain(run: seq<SpentInspection>, k: nat)
    requires KnownTips(run) && StrictlyRising(run) && k < |run|
    ensures TipOf(run[k]) >= TipOf(run[0]) + k
  {
    if k > 0 {
      RisingTipsGain(run, k - 1);
      assert TipOf(run[k]) > TipOf(run[k - 1]);
    }
  }

  /** With strictly rising tips, the evidence matures at the latest RequiredBlocks inspections after the first. */
  lemma {:induction false} RisingTipsMature(policy: Policy, start: Option<Details>, run: seq<SpentInspection>)
    requires !Continues(start)
    requires KnownTips(run) && StrictlyRising(run) && |run| == RequiredBlocks(policy) + 1
    ensures Matured(policy, Accumulate(start, run[..|run| - 1]), run[|run| - 1])
  {
    var n := RequiredBlocks(policy);
    var init, next := run[..n], run[n];
    assert run == init + [next];
    MaturesExactlyWhen(policy, start, init, next);
    RisingTipsGain(run, n);
  }
}
