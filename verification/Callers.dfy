/** Other callers, each reading, computing and writing without being overtaken itself. */
module Callers {
  import opened Prelude
  import opened Types
  import S = Store
  import opened Service
  import opened Reconcile
  import opened Machine
  import opened Repository

  /** One caller that is not overtaken. */
  method Serve(store: IntentStore, request: Request)
    modifies store
    ensures store.State() == Step(old(store.State()), request)
  {
    var read := store.GetIntent();
    match request
    case AttachReq(r) =>
      var input := ComputeAttach(read, r);
      if input.Ok? {
        var _ := store.AttachTransaction(read, input.value);
      }
    case MarkReq(m) =>
      var input := ComputeMark(read, m);
      if input.Ok? {
        var _ := store.MarkSubmission(read, input.value);
      }
    case PollReq(p) =>
      var input := ReconcileOutcome(read, p);
      if input.Ok? {
        var _ := store.ApplySnapshot(read, input.value);
      }
    case ScanReq(id, result, now) =>
      if read.exec.txHash.Some? && IsCandidate(read, id) {
        match ScanCandidate(read, id, result, now)
        case NoWrite =>
        case SideUpdate(s, conflictType, details) => store.UpdateCandidate(id, s, conflictType, details);
        case Promotion(input) => var _ := store.Promote(read, input);
      }
  }

  method ServeAll(store: IntentStore, requests: seq<Request>)
    modifies store
    ensures store.State() == Run(old(store.State()), requests)
  {
    for k := 0 to |requests|
      invariant store.State() == Run(old(store.State()), requests[..k])
    {
      Serve(store, requests[k]);
      assert requests[..k + 1][..k] == requests[..k];
    }
    assert requests[..|requests|] == requests;
  }
}
