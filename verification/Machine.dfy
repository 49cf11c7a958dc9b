/** The serial machine: one request after another, each computed from exactly what is stored. */
module Machine {
  import opened Prelude
  import opened Types
  import opened StateMachine
  import opened Store
  import opened Service
  import opened Reconcile

  /** What a caller may ask for: the API calls, a reconciliation pass, and the scan of one competing candidate. */
  datatype Request =
    | AttachReq(attach: AttachRequest)
    | MarkReq(mark: MarkRequest)
    | PollReq(poll: Poll)
    | ScanReq(id: AttemptId, result: PollResult, now: int)

  function AttachStep(db: Db, read: Aggregate, r: AttachRequest): Result<Db, Error> {
    var input := ComputeAttach(read, r);
    if input.Err? then Err(input.error) else AttachTransaction(db, read, input.value)
  }

  function MarkStep(db: Db, read: Aggregate, m: MarkRequest): Result<Db, Error> {
    var input := ComputeMark(read, m);
    if input.Err? then Err(input.error) else MarkSubmission(db, read, input.value)
  }

  function PollStep(db: Db, read: Aggregate, p: Poll): Result<Db, Error> {
    var input := ReconcileOutcome(read, p);
    if input.Err? then Err(input.error) else ApplySnapshot(db, read, input.value)
  }

  function ScanStep(db: Db, read: Aggregate, id: AttemptId, result: PollResult, now: int): Result<Db, Error> {
    if read.exec.txHash.None? || !IsCandidate(read, id) then Ok(db)
    else match ScanCandidate(read, id, result, now)
      case NoWrite => Ok(db)
      case SideUpdate(snapshot, conflictType, details) => Ok(UpdateCandidate(db, id, snapshot, conflictType, details))
      case Promotion(input) => Promote(db, read, input)
  }

  /** A request computed from what the caller read, written to what is stored now. */
  function Write(db: Db, read: Aggregate, request: Request): Result<Db, Error> {
    match request
    case AttachReq(r) => AttachStep(db, read, r)
    case MarkReq(m) => MarkStep(db, read, m)
    case PollReq(p) => PollStep(db, read, p)
    case ScanReq(id, result, now) => ScanStep(db, read, id, result, now)
  }

  /** A failed request rolls back. */
  function Step(db: Db, request: Request): Db {
    var written := Write(db, db.agg, request);
    if written.Ok? then written.value else db
  }

  lemma PromotionStep(db: Db, id: AttemptId, result: PollResult, now: int)
    requires db.agg.exec.txHash.Some? && IsCandidate(db.agg, id)
    requires ScanCandidate(db.agg, id, result, now).Promotion?
    ensures var written := Promote(db, db.agg, ScanCandidate(db.agg, id, result, now).input);
            Step(db, ScanReq(id, result, now)) == if written.Ok? then written.value else db
  {
    assert Write(db, db.agg, ScanReq(id, result, now)) == ScanStep(db, db.agg, id, result, now);
  }

  function Run(db: Db, requests: seq<Request>): Db {
    if requests == [] then db
    else Step(Run(db, requests[..|requests| - 1]), requests[|requests| - 1])
  }

  lemma {:induction false} RunAppend(db: Db, a: seq<Request>, b: seq<Request>)
    ensures Run(db, a + b) == Run(Run(db, a), b)
  {
    if b == [] {
      assert a + b == a;
    } else {
      RunAppend(db, a, b[..|b| - 1]);
      assert (a + b)[..|a + b| - 1] == a + b[..|b| - 1];
    }
  }

  lemma RunOne(db: Db, a: Request)
    ensures Run(db, [a]) == Step(db, a)
  {
    assert [a][..0] == [];
  }

  lemma RunTwo(db: Db, a: Request, b: Request)
    ensures Run(db, [a, b]) == Step(Step(db, a), b)
  {
    assert [a, b][..1] == [a];
    RunOne(db, a);
  }

  /** The state before request k of a run that starts with a new intent. */
  function Before(policy: Policy, required: nat, requests: seq<Request>, k: nat): Db
    requires k <= |requests|
  {
    Run(Init(policy, required), requests[..k])
  }

  lemma BeforeNext(policy: Policy, required: nat, requests: seq<Request>, k: nat)
    requires k < |requests|
    ensures Before(policy, required, requests, k + 1) == Step(Before(policy, required, requests, k), requests[k])
  {
    assert requests[..k + 1][..k] == requests[..k];
  }
}
