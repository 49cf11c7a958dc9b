/** A confirmation is always backed by a canonical commit at the required depth, never disproved since. */
module Confirmation {
  import opened Prelude
  import opened Types
  import opened StateMachine
  import opened Rpc
  import opened Store
  import opened Service
  import opened Reconcile
  import opened Machine
  import opened Invariants
  import Hex

  /** The recorded commit and the depth asked of it. */
  datatype Block = Block(hash: Option<string>, number: Option<string>, policy: Policy)

  function BlockOf(s: Snapshot): Block {
    Block(s.blockHash, s.blockNumber, s.policy)
  }

  /** The endpoint's answers prove the block at the depth the policy asks for. */
  predicate ShowsCommit(a: Answers, block: Block) {
    var height := Hex.ParseHeight(block.number);
    var tip := Hex.ParseHeight(a.tip);
    && a.tx.TxAnswer? && a.tx.status == "committed"
    && a.tx.blockHash == block.hash && a.headerNumber == block.number
    && Hex.NormalizeHash(block.hash).Some?
    && Hex.NormalizeHash(a.canonicalHash) == Hex.NormalizeHash(block.hash)
    && height.Some? && tip.Some? && tip.value >= height.value
    && (block.policy.Depth? ==> tip.value - height.value + 1 >= block.policy.blocks)
  }

  /** The answers a request brings to the projection, when it brings any. */
  function AnswersOf(request: Request): Option<Answers> {
    match request
    case PollReq(p) => if p.urls != [] && p.result.PollAnswered? then Some(p.result.answers) else None
    case ScanReq(_, result, _) => if result.PollAnswered? then Some(result.answers) else None
    case _ => None
  }

  /** The request writes a COMMITTED observation into the projection. */
  predicate RecordsCommit(db: Db, request: Request) {
    match request
    case PollReq(p) =>
      p.result.PollAnswered? && ReconcileOutcome(db.agg, p).Ok?
      && BundleFor(db.agg, p.result.endpoint, p.result.answers).observation.status.Committed?
    case ScanReq(id, result, now) =>
      db.agg.exec.txHash.Some? && IsCandidate(db.agg, id) && ScanCandidate(db.agg, id, result, now).Promotion?
    case _ => false
  }

  /** The request asks a node that now names another block canonical at the recorded height. */
  predicate DisprovesCommit(db: Db, request: Request) {
    var prior := PriorCommitOf(db.agg.exec.snapshot);
    request.PollReq? && AnswersOf(request).Some? && prior.Some? && Rpc.Disproves(prior.value, AnswersOf(request).value)
  }

  lemma DepthFromCount(policy: Policy, number: Option<string>, tip: Option<string>)
    requires Hex.ParseHeight(number).Some? && Hex.ParseHeight(tip).Some?
    requires Hex.ParseHeight(tip).value >= Hex.ParseHeight(number).value
    requires ConfirmationSatisfied(policy, Committed, ConfirmationCount(number, tip))
    ensures policy.Depth? ==> Hex.ParseHeight(tip).value - Hex.ParseHeight(number).value + 1 >= policy.blocks
  {
  }

  /** What an observation leaves behind, when it leaves a confirmed snapshot. */
  lemma ConfirmedByObservation(s: Snapshot, prior: Option<PriorCommit>, targets: seq<InputRef>, endpoint: string, a: Answers)
    requires SnapshotSound(s) || Observe(prior, targets, endpoint, a).observation.status.Committed?
    ensures var o := Observe(prior, targets, endpoint, a).observation;
            var applied := ApplyChainObservation(s, o);
            applied.Ok? && applied.value.snapshot.workflow.Confirmed? ==>
              if o.status.Committed? then ShowsCommit(a, BlockOf(applied.value.snapshot))
              else s.workflow.Confirmed? && BlockOf(s) == BlockOf(applied.value.snapshot) && o.priorCommitCanonical != Some(false)
  {
    var o := Observe(prior, targets, endpoint, a).observation;
    var applied := ApplyChainObservation(s, o);
    if applied.Ok? && applied.value.snapshot.workflow.Confirmed? && o.status.Committed? {
      DepthFromCount(s.policy, o.blockNumber, o.tip);
    }
  }

  lemma EvidenceKeepsBlock(read: Aggregate, poll: Poll, bundle: Bundle, applied: Applied)
    ensures var d := AfterCells(read, poll, bundle, applied);
            BlockOf(d.snapshot) == BlockOf(applied.snapshot) && d.snapshot.chain == applied.snapshot.chain
            && (d.snapshot.workflow.Confirmed? ==> applied.snapshot.workflow.Confirmed?)
  {
    var d := AfterEvidence(read, poll, bundle, applied);
    assert BlockOf(d.snapshot) == BlockOf(applied.snapshot) && d.snapshot.chain == applied.snapshot.chain;
  }

  lemma ConfirmedByPoll(db: Db, p: Poll)
    requires Sound(db.agg)
    requires ReconcileOutcome(db.agg, p).Ok?
    ensures var after := Step(db, PollReq(p)).agg.exec.snapshot;
            after.workflow.Confirmed? ==>
              if RecordsCommit(db, PollReq(p)) then ShowsCommit(p.result.answers, BlockOf(after))
              else db.agg.exec.snapshot.workflow.Confirmed? && BlockOf(db.agg.exec.snapshot) == BlockOf(after)
                   && !DisprovesCommit(db, PollReq(p))
  {
    var s := db.agg.exec.snapshot;
    if p.result.PollAnswered? {
      var bundle := BundleFor(db.agg, p.result.endpoint, p.result.answers);
      ConfirmedByObservation(s, PriorCommitOf(s), Targets(db.agg.exec), p.result.endpoint, p.result.answers);
      EvidenceKeepsBlock(db.agg, p, bundle, ApplyChainObservation(s, bundle.observation).value);
    }
  }

  lemma ConfirmedByScan(db: Db, id: AttemptId, result: PollResult, now: int)
    requires Sound(db.agg)
    ensures var request := ScanReq(id, result, now);
            var after := Step(db, request).agg.exec.snapshot;
            after.workflow.Confirmed? ==>
              if RecordsCommit(db, request) then ShowsCommit(result.answers, BlockOf(after))
              else after == db.agg.exec.snapshot
  {
    if RecordsCommit(db, ScanReq(id, result, now)) {
      var candidate := db.agg.attempts[id];
      ConfirmedByObservation(CandidateBase(db.agg, candidate), None, TargetsOf(candidate.refs, candidate.inputs),
                             result.endpoint, result.answers);
    }
  }

  /** One step into a confirmed state either proves the block itself or finds it proved and undisputed. */
  lemma ConfirmedStep(db: Db, request: Request)
    requires Sound(db.agg)
    ensures var after := Step(db, request).agg.exec.snapshot;
            after.workflow.Confirmed? ==>
              || (RecordsCommit(db, request) && AnswersOf(request).Some? && ShowsCommit(AnswersOf(request).value, BlockOf(after)))
              || (!RecordsCommit(db, request) && !DisprovesCommit(db, request)
                  && db.agg.exec.snapshot.workflow.Confirmed? && BlockOf(db.agg.exec.snapshot) == BlockOf(after))
  {
    match request
    case PollReq(p) =>
      if ReconcileOutcome(db.agg, p).Ok? {
        ConfirmedByPoll(db, p);
      }
    case ScanReq(id, result, now) => ConfirmedByScan(db, id, result, now);
    case _ =>
  }

  /** The block is confirmed before the request, which neither replaces nor disproves it. */
  predicate Undisputed(db: Db, request: Request, block: Block) {
    && db.agg.exec.snapshot.workflow.Confirmed? && BlockOf(db.agg.exec.snapshot) == block
    && !RecordsCommit(db, request) && !DisprovesCommit(db, request)
  }

  predicate Proves(db: Db, request: Request, block: Block) {
    RecordsCommit(db, request) && AnswersOf(request).Some? && ShowsCommit(AnswersOf(request).value, block)
  }

  predicate UndisputedAfter(policy: Policy, required: nat, requests: seq<Request>, block: Block, j: nat) {
    forall k :: j < k < |requests| ==> Undisputed(Before(policy, required, requests, k), requests[k], block)
  }

  /** Request j proved the block, and nothing since has replaced or disproved it. */
  predicate ProvedBy(policy: Policy, required: nat, requests: seq<Request>, block: Block, j: nat) {
    && j < |requests|
    && Proves(Before(policy, required, requests, j), requests[j], block)
    && UndisputedAfter(policy, required, requests, block, j)
  }

  lemma BeforeOfPrefix(policy: Policy, required: nat, requests: seq<Request>, n: nat, k: nat)
    requires k <= n <= |requests|
    ensures Before(policy, required, requests[..n], k) == Before(policy, required, requests, k)
  {
    assert requests[..n][..k] == requests[..k];
  }

  lemma UndisputedInPrefix(policy: Policy, required: nat, requests: seq<Request>, block: Block, n: nat, k: nat)
    requires k < n <= |requests| && Undisputed(Before(policy, required, requests[..n], k), requests[..n][k], block)
    ensures Undisputed(Before(policy, required, requests, k), requests[k], block)
  {
    BeforeOfPrefix(policy, required, requests, n, k);
  }

  lemma ProvesInPrefix(policy: Policy, required: nat, requests: seq<Request>, block: Block, n: nat, k: nat)
    requires k < n <= |requests| && Proves(Before(policy, required, requests[..n], k), requests[..n][k], block)
    ensures Proves(Before(policy, required, requests, k), requests[k], block)
  {
    BeforeOfPrefix(policy, required, requests, n, k);
  }

  lemma UndisputedExtends(policy: Policy, required: nat, requests: seq<Request>, block: Block, j: nat)
    requires requests != []
    requires UndisputedAfter(policy, required, requests[..|requests| - 1], block, j)
    requires Undisputed(Before(policy, required, requests, |requests| - 1), requests[|requests| - 1], block)
    ensures UndisputedAfter(policy, required, requests, block, j)
  {
    var n := |requests| - 1;
    forall k | j < k < n
      ensures Undisputed(Before(policy, required, requests, k), requests[k], block)
    {
      UndisputedInPrefix(policy, required, requests, block, n, k);
    }
  }

  /** A proof carries over one more request that leaves the block confirmed and undisputed. */
  lemma ProofExtends(policy: Policy, required: nat, requests: seq<Request>, block: Block, j: nat)
    requires requests != []
    requires ProvedBy(policy, required, requests[..|requests| - 1], block, j)
    requires Undisputed(Before(policy, required, requests, |requests| - 1), requests[|requests| - 1], block)
    ensures ProvedBy(policy, required, requests, block, j)
  {
    ProvesInPrefix(policy, required, requests, block, |requests| - 1, j);
    UndisputedExtends(policy, required, requests, block, j);
  }

  /**
   * In every reachable CONFIRMED state the recorded block is the one of the last COMMITTED observation: an endpoint
   * named it canonical at its height with the policy's depth on top, and no observation since has disproved it.
   */
  lemma {:induction false} ConfirmedIsProved(policy: Policy, required: nat, requests: seq<Request>)
    requires Run(Init(policy, required), requests).agg.exec.snapshot.workflow.Confirmed?
    ensures exists j :: ProvedBy(policy, required, requests, BlockOf(Run(Init(policy, required), requests).agg.exec.snapshot), j)
  {
    var n := |requests| - 1;
    var db := Before(policy, required, requests, n);
    var block := BlockOf(Run(Init(policy, required), requests).agg.exec.snapshot);
    RunKeeps(policy, required, requests[..n]);
    ConfirmedStep(db, requests[n]);
    if RecordsCommit(db, requests[n]) {
      assert ProvedBy(policy, required, requests, block, n);
    } else {
      ConfirmedIsProved(policy, required, requests[..n]);
      var j :| ProvedBy(policy, required, requests[..n], BlockOf(db.agg.exec.snapshot), j);
      ProofExtends(policy, required, requests, block, j);
    }
  }

  /** A COMMITTED chain status is only left by an observation that disproves the recorded block. */
  lemma CommittedIsLeftOnlyByDisproof(db: Db, request: Request)
    requires Sound(db.agg)
    requires db.agg.exec.snapshot.chain.Committed?
    requires !Step(db, request).agg.exec.snapshot.chain.Committed?
    ensures DisprovesCommit(db, request)
  {
    match request
    case PollReq(p) =>
      var s := db.agg.exec.snapshot;
      if p.result.PollAnswered? {
        var bundle := BundleFor(db.agg, p.result.endpoint, p.result.answers);
        AppliedSnapshotIsSound(s, bundle.observation);
        EvidenceKeepsBlock(db.agg, p, bundle, ApplyChainObservation(s, bundle.observation).value);
      } else {
        assert false;
      }
    case ScanReq(id, result, now) =>
      PromotionIsSound(db.agg, id, result, now);
      assert false;
    case _ => assert false;
  }
}
