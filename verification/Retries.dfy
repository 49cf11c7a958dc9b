/** The loops that read, compute, write and try again, at most three times, while other callers write in between. */
module Retries {
  import opened Prelude
  import opened Types
  import S = Store
  import opened Service
  import opened Reconcile
  import opened Machine
  import opened Invariants
  import opened Interleaving
  import opened Serialization
  import opened Repository
  import opened Callers
  import opened Passes

  const MAX_TRIES := 3

  /** What other callers get through between each try's read and its write. */
  type Overtaking = seq<seq<Request>>

  function Between(others: Overtaking, k: nat): seq<Request> {
    if k < |others| then others[k] else []
  }

  /** Everything other callers did during the first tries. */
  function Joined(others: Overtaking, tries: nat): seq<Request> {
    if tries == 0 then [] else Joined(others, tries - 1) + Between(others, tries - 1)
  }

  // ---- Time passes -------------------------------------------------------------------------------------------------

  lemma StepAges(db: S.Db, request: Request)
    ensures var after := Step(db, request);
            && after.agg.exec.version >= db.agg.exec.version
            && (after.agg.exec.version == db.agg.exec.version ==> Agrees(db.agg, after.agg))
  {
    if Write(db, db.agg, request).Ok? {
      if IsSideUpdate(db.agg, request) || IsIdleScan(db.agg, request) {
        UnversionedWrite(db, db.agg, request);
        AgreesTransitive(db.agg, db.agg, Step(db, request).agg);
      } else {
        VersionedWrite(db, db.agg, request);
      }
    }
  }

  /** The version never falls, and while it stands the projection and the attempts' identities stand too. */
  lemma {:induction false} RunAges(db: S.Db, requests: seq<Request>)
    ensures var after := Run(db, requests);
            && after.agg.exec.version >= db.agg.exec.version
            && (after.agg.exec.version == db.agg.exec.version ==> Agrees(db.agg, after.agg))
  {
    if requests != [] {
      var before := Run(db, requests[..|requests| - 1]);
      RunAges(db, requests[..|requests| - 1]);
      StepAges(before, requests[|requests| - 1]);
      if Run(db, requests).agg.exec.version == db.agg.exec.version {
        AgreementPersists(db.agg, before.agg, Run(db, requests).agg);
      }
    }
  }

  lemma AgreementPersists(a: S.Aggregate, b: S.Aggregate, c: S.Aggregate)
    requires Agrees(a, b) && Agrees(b, c)
    ensures Agrees(a, c)
  {
    forall i | 0 <= i < |a.attempts|
      ensures SameButScanned(a.attempts[i], c.attempts[i])
    {
      assert SameButScanned(a.attempts[i], b.attempts[i]) && SameButScanned(b.attempts[i], c.attempts[i]);
    }
  }

  /** A write computed before others ran is either stale or exactly what the serial machine would write after them. */
  lemma OvertakenOrSerial(db: S.Db, others: seq<Request>, request: Request)
    requires request.AttachReq? || request.MarkReq?
    ensures var now := Run(db, others);
            var written := Write(now, db.agg, request);
            && (written.Ok? ==> written == Write(now, now.agg, request))
            && (written == Err(S.Stale) ==> now.agg.exec.version > db.agg.exec.version)
  {
    RunAges(db, others);
    var now := Run(db, others);
    if now.agg.exec.version == db.agg.exec.version {
      ApiWritesAreSerial(now, db.agg, request);
      StaleMeansNewer(now, now.agg, request);
    } else if Write(now, db.agg, request).Ok? {
      VersionedWrite(now, db.agg, request);
    }
  }

  lemma StaleMeansNewer(db: S.Db, read: S.Aggregate, request: Request)
    requires request.AttachReq? || request.MarkReq?
    ensures Write(db, read, request) == Err(S.Stale) ==> db.agg.exec.version != read.exec.version
  {
  }

  // ---- The API calls -----------------------------------------------------------------------------------------------

  /** Other callers wrote the projection during try number k. */
  ghost predicate Overtook(before: S.Db, others: Overtaking, k: nat) {
    Run(before, Joined(others, k + 1)).agg.exec.version > Run(before, Joined(others, k)).agg.exec.version
  }

  lemma NextTry(before: S.Db, others: Overtaking, tries: nat)
    ensures Run(Run(before, Joined(others, tries)), Between(others, tries)) == Run(before, Joined(others, tries + 1))
  {
    RunAppend(before, Joined(others, tries), Between(others, tries));
  }

  /** How one try ends: written after all that overtook it, or nothing written. */
  ghost predicate OneTry(before: S.Db, others: seq<Request>, request: Request, after: S.Db, error: Option<S.Error>) {
    var stored := Run(before, others);
    && (error.None? ==> Write(stored, stored.agg, request).Ok? && after == Step(stored, request))
    && (error.Some? ==> after == stored)
    && (error == Some(S.Stale) ==> stored.agg.exec.version > before.agg.exec.version)
  }

  /** So many tries were overtaken, and nothing but what the others wrote is stored. */
  ghost predicate AllOvertaken(before: S.Db, others: Overtaking, tries: nat, now: S.Db) {
    now == Run(before, Joined(others, tries)) && forall k: nat :: k < tries ==> Overtook(before, others, k)
  }

  /** How a retried call ends: its write follows everything written before it, or nothing of it was written. */
  ghost predicate Settled(before: S.Db, others: Overtaking, request: Request, after: S.Db, error: Option<S.Error>, tries: nat) {
    && 1 <= tries <= MAX_TRIES
    && (error == Some(S.Stale) ==> tries == MAX_TRIES && AllOvertaken(before, others, tries, after))
    && (error.Some? ==> after == Run(before, Joined(others, tries)))
    && (error.None? ==> Follows(Run(before, Joined(others, tries)), request, after))
  }

  /** The request was accepted and written on what was stored. */
  ghost predicate Follows(stored: S.Db, request: Request, after: S.Db) {
    Write(stored, stored.agg, request).Ok? && after == Step(stored, request)
  }

  lemma TryEnds(
    before: S.Db, others: Overtaking, request: Request, now: S.Db, tries: nat, after: S.Db, error: Option<S.Error>)
    requires tries < MAX_TRIES && AllOvertaken(before, others, tries, now)
    requires OneTry(now, Between(others, tries), request, after, error)
    ensures error == Some(S.Stale) ==> AllOvertaken(before, others, tries + 1, after)
    ensures error != Some(S.Stale) || tries + 1 == MAX_TRIES ==> Settled(before, others, request, after, error, tries + 1)
  {
    NextTry(before, others, tries);
    if error == Some(S.Stale) {
      assert Overtook(before, others, tries);
    }
  }

  /** One try: read, let the others overtake, write. */
  method TryAttachTransaction(store: IntentStore, r: AttachRequest, others: seq<Request>) returns (error: Option<S.Error>)
    modifies store
    ensures OneTry(old(store.State()), others, AttachReq(r), store.State(), error)
  {
    var read := store.GetIntent();
    OvertakenOrSerial(store.State(), others, AttachReq(r));
    ServeAll(store, others);
    var input := ComputeAttach(read, r);
    if input.Err? {
      return Some(input.error);
    }
    error := store.AttachTransaction(read, input.value);
  }

  method AttachTransaction(store: IntentStore, r: AttachRequest, others: Overtaking) returns (error: Option<S.Error>, tries: nat)
    modifies store
    ensures Settled(old(store.State()), others, AttachReq(r), store.State(), error, tries)
  {
    ghost var before := store.State();
    tries := 0;
    while true
      invariant tries < MAX_TRIES
      invariant AllOvertaken(before, others, tries, store.State())
      decreases MAX_TRIES - tries
    {
      ghost var now := store.State();
      error := TryAttachTransaction(store, r, Between(others, tries));
      TryEnds(before, others, AttachReq(r), now, tries, store.State(), error);
      tries := tries + 1;
      if error != Some(S.Stale) || tries == MAX_TRIES {
        return;
      }
    }
  }

  /** One try: read, let the others overtake, write. */
  method TryMarkSubmission(store: IntentStore, m: MarkRequest, others: seq<Request>) returns (error: Option<S.Error>)
    modifies store
    ensures OneTry(old(store.State()), others, MarkReq(m), store.State(), error)
  {
    var read := store.GetIntent();
    OvertakenOrSerial(store.State(), others, MarkReq(m));
    ServeAll(store, others);
    var input := ComputeMark(read, m);
    if input.Err? {
      return Some(input.error);
    }
    error := store.MarkSubmission(read, input.value);
  }

  method MarkSubmission(store: IntentStore, m: MarkRequest, others: Overtaking) returns (error: Option<S.Error>, tries: nat)
    modifies store
    ensures Settled(old(store.State()), others, MarkReq(m), store.State(), error, tries)
  {
    ghost var before := store.State();
    tries := 0;
    while true
      invariant tries < MAX_TRIES
      invariant AllOvertaken(before, others, tries, store.State())
      decreases MAX_TRIES - tries
    {
      ghost var now := store.State();
      error := TryMarkSubmission(store, m, Between(others, tries));
      TryEnds(before, others, MarkReq(m), now, tries, store.State(), error);
      tries := tries + 1;
      if error != Some(S.Stale) || tries == MAX_TRIES {
        return;
      }
    }
  }

  /** Left alone for one try, a retried call is never refused as stale. */
  lemma LeftAloneIsNotStale(
    before: S.Db, others: Overtaking, request: Request, after: S.Db, error: Option<S.Error>, tries: nat, k: nat)
    requires Settled(before, others, request, after, error, tries)
    requires k < MAX_TRIES && Between(others, k) == []
    ensures error != Some(S.Stale)
  {
    NextTry(before, others, k);
    assert !Overtook(before, others, k);
  }

  // ---- The reconciliation pass -------------------------------------------------------------------------------------

  const NO_POLL := Poll([], PollFailed(0), map[], [], 0, 0, 0)
  const NO_WORLD := PassWorld([], NO_POLL, NO_POLL, 0, [], [], [])

  function WorldAt(worlds: seq<PassWorld>, k: nat): PassWorld {
    if k < |worlds| then worlds[k] else NO_WORLD
  }

  /** The tries from number k on, each with a fresh read after a stale one; others write between all of their steps. */
  function Retried(db: S.Db, read: S.Aggregate, worlds: seq<PassWorld>, k: nat): PassResult
    requires k < MAX_TRIES
    decreases MAX_TRIES - k
  {
    var result := Pass(db, read, WorldAt(worlds, k));
    if result.error != Some(S.Stale) || k == MAX_TRIES - 1 then result
    else Retried(result.db, result.db.agg, worlds, k + 1)
  }

  method ReconcileIntent(store: IntentStore, initial: S.Aggregate, worlds: seq<PassWorld>)
    returns (error: Option<S.Error>, terminal: bool)
    modifies store
    ensures Retried(old(store.State()), initial, worlds, 0) == PassResult(store.State(), error, terminal)
  {
    var read := initial;
    error, terminal := None, false;
    for attempt := 0 to MAX_TRIES
      invariant attempt < MAX_TRIES
      invariant Retried(old(store.State()), initial, worlds, 0) == Retried(store.State(), read, worlds, attempt)
    {
      error, terminal := ReconcileIntentOnce(store, read, WorldAt(worlds, attempt));
      if error != Some(S.Stale) || attempt == MAX_TRIES - 1 {
        return;
      }
      read := store.GetIntent();
    }
  }

  /** Scans that promote nothing leave the version alone when nobody else writes. */
  lemma {:induction false} ScansKeepVersion(db: S.Db, read: S.Aggregate, ids: seq<S.AttemptId>, k: nat, w: PassWorld)
    requires k <= |ids| && (forall i :: 0 <= i < |ids| ==> ids[i] < |read.attempts|) && Quiet(w)
    ensures var scanned := ScanFrom(db, read, ids, k, w);
            && (!scanned.Promoted? ==> scanned.db.agg.exec.version == db.agg.exec.version)
            && (scanned.PromotionFailed? && scanned.error.Stale? ==> db.agg.exec.version != read.exec.version)
    decreases |ids| - k
  {
    if k < |ids| {
      var outcome := ScanCandidate(read, ids[k], ResultAt(w.scans, k), w.now);
      if !outcome.Promotion? {
        var written := ScanStep(db, read, ids[k], ResultAt(w.scans, k), w.now);
        assert written.Ok? && written.value.agg.exec == db.agg.exec;
        ScansKeepVersion(written.value, read, ids, k + 1, w);
      }
    }
  }

  lemma CurrentPollIsNotStale(db: S.Db, read: S.Aggregate, poll: Poll)
    requires read.exec.version == db.agg.exec.version
    ensures AfterPoll(db, read, poll).error != Some(S.Stale)
  {
  }

  /** A pass that starts from the stored version and is left alone is never refused as stale. */
  lemma CurrentReadIsNotStale(db: S.Db, read: S.Aggregate, w: PassWorld)
    requires read.exec.version == db.agg.exec.version && Quiet(w)
    ensures Pass(db, read, w).error != Some(S.Stale)
  {
    var ids := Candidates(read, |read.attempts|);
    ScansKeepVersion(db, read, ids, 0, w);
    match ScanFrom(db, read, ids, 0, w)
    case NonePromoted(after) => CurrentPollIsNotStale(after, read, w.first);
    case Promoted(after) => CurrentPollIsNotStale(after, after.agg, w.second);
    case PromotionFailed(_, _) =>
  }

  /** Reconciliation is refused as stale only when others wrote during every later try. */
  lemma {:induction false} StaleMeansOvertaken(db: S.Db, read: S.Aggregate, worlds: seq<PassWorld>, k: nat, j: nat)
    requires k < j < MAX_TRIES && Quiet(WorldAt(worlds, j))
    ensures Retried(db, read, worlds, k).error != Some(S.Stale)
    decreases MAX_TRIES - k
  {
    var result := Pass(db, read, WorldAt(worlds, k));
    if result.error == Some(S.Stale) {
      if k + 1 == j {
        CurrentReadIsNotStale(result.db, result.db.agg, WorldAt(worlds, j));
      } else {
        StaleMeansOvertaken(result.db, result.db.agg, worlds, k + 1, j);
      }
    }
  }

  /** The actions of all tries: caller c reads again after a stale one. */
  function TriedActions(db: S.Db, read: S.Aggregate, c: CallerId, d: CallerId, worlds: seq<PassWorld>, k: nat): seq<Action>
    requires k < MAX_TRIES
    decreases MAX_TRIES - k
  {
    var result := Pass(db, read, WorldAt(worlds, k));
    var actions := PassActions(db, read, c, d, WorldAt(worlds, k));
    if result.error != Some(S.Stale) || k == MAX_TRIES - 1 then actions
    else actions + [ReadRow(c), ReadAttempts(c)] + TriedActions(result.db, result.db.agg, c, d, worlds, k + 1)
  }

  /** However often it tries and whatever others write in between, a reconciliation is one of the interleavings. */
  lemma {:induction false} RetriedIsInterleaving(
    sys: System, read: S.Aggregate, c: CallerId, d: CallerId, worlds: seq<PassWorld>, k: nat)
    requires c != d && k < MAX_TRIES && c in sys.callers && sys.callers[c] == GotAll(read)
    ensures Retried(sys.db, read, worlds, k).db == Execute(sys, TriedActions(sys.db, read, c, d, worlds, k)).db
    decreases MAX_TRIES - k
  {
    var result := Pass(sys.db, read, WorldAt(worlds, k));
    var actions := PassActions(sys.db, read, c, d, WorldAt(worlds, k));
    PassIsInterleaving(sys, read, c, d, WorldAt(worlds, k));
    if result.error == Some(S.Stale) && k < MAX_TRIES - 1 {
      var tried := Execute(sys, actions);
      var again := Execute(tried, [ReadRow(c), ReadAttempts(c)]);
      var rest := TriedActions(result.db, result.db.agg, c, d, worlds, k + 1);
      ReadsAll(tried, c);
      RetriedIsInterleaving(again, result.db.agg, c, d, worlds, k + 1);
      ExecuteAppend(sys, actions, [ReadRow(c), ReadAttempts(c)]);
      ExecuteAppend(sys, actions + [ReadRow(c), ReadAttempts(c)], rest);
    }
  }

  /** So it keeps the invariants whenever none of its scans is overtaken. */
  lemma ReconciliationKeeps(sys: System, read: S.Aggregate, c: CallerId, d: CallerId, worlds: seq<PassWorld>)
    requires c != d && c in sys.callers && sys.callers[c] == GotAll(read)
    requires AllConsistent(sys) && Inv(sys.db.agg)
    requires NoneOvertaken(sys, TriedActions(sys.db, read, c, d, worlds, 0))
    ensures Inv(Retried(sys.db, read, worlds, 0).db.agg)
  {
    RetriedIsInterleaving(sys, read, c, d, worlds, 0);
    InterleavingsKeep(sys, TriedActions(sys.db, read, c, d, worlds, 0));
  }
}
