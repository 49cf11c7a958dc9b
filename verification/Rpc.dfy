/** What one endpoint's answers say about a transaction and its inputs (workflows/reconcile/src/rpc.ts). */
module Rpc {
  import opened Prelude
  import opened Types
  import Hex

  /** The body of a returned transaction, seen only through its signed-payload fingerprint. */
  datatype TxBody = TxBody(fingerprint: Option<string>)

  datatype TxAnswer =
    | NoTransaction
    | TxAnswer(status: string, blockHash: Option<string>, reason: Option<string>, body: Option<TxBody>)

  datatype CreatorAnswer = CreatorAnswer(
    status: Option<string>, outputs: Option<nat>, blockHash: Option<string>,
    headerNumber: Option<string>, canonicalHash: Option<string>)

  datatype InputAnswer = InputAnswer(liveStatus: Option<string>, poolStatus: Option<string>, creator: CreatorAnswer)

  const SILENT := InputAnswer(None, None, CreatorAnswer(None, None, None, None, None))

  /** Every answer one endpoint gives during one observation. */
  datatype Answers = Answers(
    at: int,
    tx: TxAnswer,
    priorCanonical: Option<string>,
    headerNumber: Option<string>,
    tip: Option<string>,
    canonicalHash: Option<string>,
    inputs: seq<InputAnswer>,
    inspectedAt: int,
    inspectionTip: Option<string>)

  datatype PriorCommit = PriorCommit(blockHash: string, blockNumber: string)

  datatype CanonicalState = Live | Spent | NotKnown

  datatype InputObservation = InputObservation(input: InputRef, canonical: CanonicalState, available: bool)

  datatype Inspection = Inspection(
    state: InspectionState, inputs: seq<InputObservation>, endpoint: string, at: int, tip: Option<string>)

  datatype Bundle = Bundle(observation: Observation, body: Option<TxBody>, endpoint: string, inspection: Option<Inspection>)

  function AnswerAt(answers: seq<InputAnswer>, i: nat): InputAnswer {
    if i < |answers| then answers[i] else SILENT
  }

  /** The output existed: its creator is committed in the block the endpoint names canonical at that height. */
  predicate CreatorIsCanonical(outPoint: OutPoint, creator: CreatorAnswer) {
    && creator.status == Some("committed")
    && creator.outputs.Some? && outPoint.index < creator.outputs.value
    && Hex.NormalizeHash(creator.blockHash).Some?
    && Present(creator.headerNumber)
    && Hex.NormalizeHash(creator.canonicalHash) == Hex.NormalizeHash(creator.blockHash)
  }

  predicate SaysLive(status: Option<string>) {
    status.Some? && ToLower(status.value) == "live"
  }

  function ObserveInput(input: InputRef, answer: InputAnswer): InputObservation {
    if SaysLive(answer.liveStatus) then InputObservation(input, Live, SaysLive(answer.poolStatus))
    else InputObservation(input, if CreatorIsCanonical(input.outPoint, answer.creator) then Spent else NotKnown, false)
  }

  function ObserveInputs(targets: seq<InputRef>, answers: seq<InputAnswer>): (inputs: seq<InputObservation>)
    ensures |inputs| == |targets|
    ensures forall i :: 0 <= i < |targets| ==> inputs[i] == ObserveInput(targets[i], AnswerAt(answers, i))
  {
    seq(|targets|, i requires 0 <= i < |targets| => ObserveInput(targets[i], AnswerAt(answers, i)))
  }

  function StateOf(inputs: seq<InputObservation>): InspectionState {
    if exists i :: 0 <= i < |inputs| && inputs[i].canonical.Spent? then CanonicallySpent
    else if exists i :: 0 <= i < |inputs| && inputs[i].canonical.NotKnown? then Uncertain
    else if exists i :: 0 <= i < |inputs| && inputs[i].canonical.Live? && !inputs[i].available then Contended
    else AllLive
  }

  function Inspect(targets: seq<InputRef>, endpoint: string, a: Answers): Inspection {
    var inputs := ObserveInputs(targets, a.inputs);
    Inspection(StateOf(inputs), inputs, endpoint, a.inspectedAt, a.inspectionTip)
  }

  /** The loop that queries one input after another and collects what it saw. */
  method InspectInputOutPoints(targets: seq<InputRef>, endpoint: string, a: Answers) returns (inspection: Inspection)
    ensures inspection == Inspect(targets, endpoint, a)
  {
    var inputs: seq<InputObservation> := [];
    for k := 0 to |targets|
      invariant |inputs| == k
      invariant forall i :: 0 <= i < k ==> inputs[i] == ObserveInput(targets[i], AnswerAt(a.inputs, i))
    {
      inputs := inputs + [ObserveInput(targets[k], AnswerAt(a.inputs, k))];
    }
    assert inputs == ObserveInputs(targets, a.inputs);
    inspection := Inspection(StateOf(inputs), inputs, endpoint, a.inspectedAt, a.inspectionTip);
  }

  /** The endpoint shows that this commit is on its canonical chain, at or below its tip. */
  predicate CommitIsCanonical(tx: TxAnswer, a: Answers)
    requires tx.TxAnswer?
  {
    var block := Hex.NormalizeHash(tx.blockHash);
    var canonical := Hex.NormalizeHash(if Present(a.headerNumber) then a.canonicalHash else None);
    var height := Hex.ParseHeight(a.headerNumber);
    var tip := Hex.ParseHeight(a.tip);
    block.Some? && block == canonical && height.Some? && tip.Some? && tip.value >= height.value
  }

  function PriorVerdict(prior: Option<PriorCommit>, a: Answers): Option<bool> {
    if prior.None? then None
    else
      var canonical := Hex.NormalizeHash(a.priorCanonical);
      if canonical.None? then None else Some(canonical == Hex.NormalizeHash(Some(prior.value.blockHash)))
  }

  /** The endpoint names another block canonical at the height of the recorded commit. */
  predicate Disproves(prior: PriorCommit, a: Answers) {
    var canonical := Hex.NormalizeHash(a.priorCanonical);
    canonical.Some? && canonical != Hex.NormalizeHash(Some(prior.blockHash))
  }

  predicate Says(a: Answers, word: string) {
    a.tx.TxAnswer? && a.tx.status == word
  }

  /** The endpoint names the block of the transaction canonical at its height, which its tip has reached. */
  predicate ShowsBlock(a: Answers) {
    && a.tx.TxAnswer?
    && Hex.NormalizeHash(a.tx.blockHash).Some?
    && Hex.NormalizeHash(a.canonicalHash) == Hex.NormalizeHash(a.tx.blockHash)
    && Hex.ParseHeight(a.headerNumber).Some? && Hex.ParseHeight(a.tip).Some?
    && Hex.ParseHeight(a.headerNumber).value <= Hex.ParseHeight(a.tip).value
  }

  /** The endpoint does not know the transaction, or uses a word that CKB has no meaning for. */
  predicate SaysNothing(a: Answers) {
    a.tx.TxAnswer? ==> a.tx.status !in {"committed", "pending", "proposed", "rejected"}
  }

  /** One observation: the status the state machine may rely on, and an inspection when the transaction is absent. */
  function Observe(prior: Option<PriorCommit>, targets: seq<InputRef>, endpoint: string, a: Answers): (bundle: Bundle)
    // A commit is never reported without a canonical block, at a known height, not above the tip.
    ensures bundle.observation.status.Committed? ==>
              && Present(bundle.observation.blockHash) && Present(bundle.observation.blockNumber)
              && Hex.NormalizeHash(a.canonicalHash).Some?
              && Hex.NormalizeHash(a.canonicalHash) == Hex.NormalizeHash(bundle.observation.blockHash)
              && Hex.ParseHeight(bundle.observation.tip).Some? && Hex.ParseHeight(bundle.observation.blockNumber).Some?
              && Hex.ParseHeight(bundle.observation.tip).value >= Hex.ParseHeight(bundle.observation.blockNumber).value
    // The recorded block is disproved exactly when the endpoint names another one at its height.
    ensures bundle.observation.priorCommitCanonical == Some(false) <==> prior.Some? && Disproves(prior.value, a)
    ensures bundle.observation.priorCommitCanonical == Some(true) <==>
              prior.Some? && Hex.NormalizeHash(a.priorCanonical).Some? && !Disproves(prior.value, a)
    // Each status has one cause; what is left is UNKNOWN.
    ensures bundle.observation.status.Committed? <==> Says(a, "committed") && ShowsBlock(a)
    ensures bundle.observation.status.Pending? <==> Says(a, "pending")
    ensures bundle.observation.status.Proposed? <==> Says(a, "proposed")
    ensures bundle.observation.status.Rejected? <==> Says(a, "rejected")
    ensures bundle.observation.rejectionReason == if Says(a, "rejected") && Present(a.tx.reason) then a.tx.reason else None
    // The inputs are inspected exactly when there are any and the endpoint says nothing about the transaction.
    ensures bundle.inspection == if SaysNothing(a) && targets != [] then Some(Inspect(targets, endpoint, a)) else None
  {
    var verdict := PriorVerdict(prior, a);
    var blank := Observation(Unknown, a.at, None, None, None, None, verdict);
    var inspection := if targets == [] then None else Some(Inspect(targets, endpoint, a));
    if a.tx.NoTransaction? then Bundle(blank, None, endpoint, inspection)
    else if a.tx.status == "committed" then
      // Fail closed: without canonical evidence a reported commit is no evidence at all.
      if !CommitIsCanonical(a.tx, a) then Bundle(blank, a.tx.body, endpoint, None)
      else Bundle(blank.(status := Committed, blockHash := a.tx.blockHash, blockNumber := a.headerNumber, tip := a.tip),
                  a.tx.body, endpoint, None)
    else if a.tx.status == "pending" then Bundle(blank.(status := Pending), a.tx.body, endpoint, None)
    else if a.tx.status == "proposed" then Bundle(blank.(status := Proposed), a.tx.body, endpoint, None)
    else if a.tx.status == "rejected" then
      Bundle(blank.(status := Rejected, rejectionReason := if Present(a.tx.reason) then a.tx.reason else None),
             a.tx.body, endpoint, None)
    else Bundle(blank, a.tx.body, endpoint, inspection)
  }

  /** What else an observation carries over from the answers. */
  lemma ObservationCarries(prior: Option<PriorCommit>, targets: seq<InputRef>, endpoint: string, a: Answers)
    ensures var bundle := Observe(prior, targets, endpoint, a);
            && bundle.observation.at == a.at && bundle.endpoint == endpoint
            && bundle.body == (if a.tx.TxAnswer? then a.tx.body else None)
            && (if bundle.observation.status.Committed?
                then bundle.observation.blockHash == a.tx.blockHash && bundle.observation.blockNumber == a.headerNumber
                     && bundle.observation.tip == a.tip
                else bundle.observation.blockHash.None? && bundle.observation.blockNumber.None? && bundle.observation.tip.None?)
  {
  }

  /** The output that the input spends is, or was, on the endpoint's canonical chain. */
  predicate WasCreated(outPoint: OutPoint, creator: CreatorAnswer) {
    && creator.status == Some("committed")
    && creator.outputs.Some? && creator.outputs.value > outPoint.index
    && Present(creator.headerNumber)
    && Hex.NormalizeHash(creator.blockHash).Some?
    && Hex.NormalizeHash(creator.blockHash) == Hex.NormalizeHash(creator.canonicalHash)
  }

  predicate IsLive(a: Answers, i: nat) {
    var status := AnswerAt(a.inputs, i).liveStatus;
    status.Some? && ToLower(status.value) == "live"
  }

  predicate IsFree(a: Answers, i: nat) {
    var status := AnswerAt(a.inputs, i).poolStatus;
    IsLive(a, i) && status.Some? && ToLower(status.value) == "live"
  }

  predicate IsGone(targets: seq<InputRef>, a: Answers, i: nat)
    requires i < |targets|
  {
    !IsLive(a, i) && WasCreated(targets[i].outPoint, AnswerAt(a.inputs, i).creator)
  }

  /** Each state of the inputs with its cause, over the answers alone. */
  lemma InputStateExactlyWhen(targets: seq<InputRef>, endpoint: string, a: Answers)
    ensures var inspection := Inspect(targets, endpoint, a);
            && |inspection.inputs| == |targets|
            && inspection.endpoint == endpoint && inspection.at == a.inspectedAt && inspection.tip == a.inspectionTip
            && (inspection.state.AllLive? <==> forall i :: 0 <= i < |targets| ==> IsFree(a, i))
            && (inspection.state.Contended? <==>
                  && (forall i :: 0 <= i < |targets| ==> IsLive(a, i))
                  && (exists i :: 0 <= i < |targets| && !IsFree(a, i)))
            && (inspection.state.CanonicallySpent? <==> exists i :: 0 <= i < |targets| && IsGone(targets, a, i))
            && (inspection.state.Uncertain? <==>
                  && (exists i :: 0 <= i < |targets| && !IsLive(a, i))
                  && (forall i :: 0 <= i < |targets| ==> !IsGone(targets, a, i)))
  {
    var inputs := Inspect(targets, endpoint, a).inputs;
    forall i | 0 <= i < |targets|
      ensures inputs[i].canonical.Live? <==> IsLive(a, i)
      ensures inputs[i].canonical.Spent? <==> IsGone(targets, a, i)
      ensures inputs[i].canonical.Live? ==> (inputs[i].available <==> IsFree(a, i))
      ensures IsFree(a, i) ==> IsLive(a, i)
    {
      assert inputs[i] == ObserveInput(targets[i], AnswerAt(a.inputs, i));
    }
    if StateOf(inputs).AllLive? {
      forall i | 0 <= i < |targets|
        ensures IsFree(a, i)
      {
        assert !inputs[i].canonical.Spent? && !inputs[i].canonical.NotKnown?;
      }
    }
  }
}
