/** The durable loop that reconciles one intent until a pass reports it as terminal (apps/web/workflows/reconcile-intent.ts). */
module DurableLoop {
  import opened Prelude
  import opened Types
  import S = Store
  import opened Service
  import opened Reconcile
  import opened Machine
  import opened Invariants
  import opened Interleaving
  import opened Serialization
  import opened Repository
  import opened Callers
  import opened Passes
  import opened Retries
  import opened Polling

  const HORIZON := 720

  /** What others write before the loop reads again, and the world of each try of its pass. */
  datatype Round = Round(asleep: seq<Request>, worlds: seq<PassWorld>)

  datatype LoopEnd = Completed | HorizonReached | Thrown(error: S.Error)

  function RoundAt(rounds: seq<Round>, k: nat): Round {
    if k < |rounds| then rounds[k] else Round([], [])
  }

  /** One round: others write, then the intent is read and reconciled. */
  function RoundOf(db: S.Db, round: Round): PassResult {
    var read := Run(db, round.asleep);
    Retried(read, read.agg, round.worlds, 0)
  }

  /** The rows after k rounds. */
  function After(db: S.Db, rounds: seq<Round>, k: nat): S.Db {
    if k == 0 then db else RoundOf(After(db, rounds, k - 1), RoundAt(rounds, k - 1)).db
  }

  function ResultOf(db: S.Db, rounds: seq<Round>, k: nat): PassResult {
    RoundOf(After(db, rounds, k), RoundAt(rounds, k))
  }

  predicate GoesOn(db: S.Db, rounds: seq<Round>, k: nat) {
    ResultOf(db, rounds, k).error.None? && !ResultOf(db, rounds, k).terminal
  }

  method ReconcileIntentStep(store: IntentStore, round: Round) returns (error: Option<S.Error>, terminal: bool)
    modifies store
    ensures RoundOf(old(store.State()), round) == PassResult(store.State(), error, terminal)
  {
    ServeAll(store, round.asleep);
    var read := store.GetIntent();
    error, terminal := ReconcileIntent(store, read, round.worlds);
  }

  /** How the loop ends after so many rounds, of which only the last one may be terminal or throw. */
  ghost predicate Ends(db: S.Db, rounds: seq<Round>, after: S.Db, end: LoopEnd, iterations: nat) {
    && 1 <= iterations <= HORIZON
    && after == After(db, rounds, iterations)
    && (forall j: nat :: j < iterations - 1 ==> GoesOn(db, rounds, j))
    && var last := ResultOf(db, rounds, iterations - 1);
       match end
       case Thrown(error) => last.error == Some(error)
       case Completed => last.error.None? && last.terminal
       case HorizonReached => iterations == HORIZON && GoesOn(db, rounds, iterations - 1)
  }

  /** The loop has made so many rounds and goes on. */
  ghost predicate Going(db: S.Db, rounds: seq<Round>, now: S.Db, k: nat) {
    now == After(db, rounds, k) && forall j: nat :: j < k ==> GoesOn(db, rounds, j)
  }

  lemma RoundDecides(db: S.Db, rounds: seq<Round>, now: S.Db, k: nat, r: PassResult)
    requires k < HORIZON && Going(db, rounds, now, k) && r == RoundOf(now, RoundAt(rounds, k))
    ensures if r.error.Some? then Ends(db, rounds, r.db, Thrown(r.error.value), k + 1)
            else if r.terminal then Ends(db, rounds, r.db, Completed, k + 1)
            else Going(db, rounds, r.db, k + 1)
    ensures r.error.None? && !r.terminal && k + 1 == HORIZON ==> Ends(db, rounds, r.db, HorizonReached, k + 1)
  {
  }

  /** Passes until the first that is terminal or throws, or as many as the horizon allows. */
  method TransactionReconciliationWorkflow(store: IntentStore, rounds: seq<Round>) returns (end: LoopEnd, iterations: nat)
    modifies store
    ensures Ends(old(store.State()), rounds, store.State(), end, iterations)
  {
    ghost var before, now := store.State(), store.State();
    iterations := 0;
    while true
      invariant iterations < HORIZON
      invariant now == store.State() && Going(before, rounds, now, iterations)
      decreases HORIZON - iterations
    {
      var error, terminal := ReconcileIntentStep(store, RoundAt(rounds, iterations));
      ghost var r := PassResult(store.State(), error, terminal);
      RoundDecides(before, rounds, now, iterations, r);
      now := store.State();
      iterations := iterations + 1;
      if error.Some? {
        return Thrown(error.value), iterations;
      }
      if terminal {
        return Completed, iterations;
      }
      if iterations == HORIZON {
        return HorizonReached, iterations;
      }
    }
  }

  // ---- What a terminal pass means ----------------------------------------------------------------------------------

  /** The row that the last poll of a pass from a fresh read was computed from, and that poll. */
  function LastPoll(db: S.Db, w: PassWorld): (S.Aggregate, Poll) {
    var scanned := ScanFrom(db, db.agg, Candidates(db.agg, |db.agg.attempts|), 0, w);
    if scanned.Promoted? then (scanned.db.agg, w.second) else (db.agg, w.first)
  }

  /** Nothing is left to do: the statuses have ended, no candidate is unresolved, and no monitoring period is running. */
  predicate AllDone(after: S.Aggregate, last: (S.Aggregate, Poll)) {
    && Ended(after) && !Unresolved(after)
    && last.1.result.PollAnswered? && !(S.Ready(after) && InPeriod(last.0, last.1))
  }

  lemma QuietPassEndsWithPoll(db: S.Db, w: PassWorld)
    requires Inv(db.agg) && Quiet(w) && db.agg.exec.txHash.Some? && w.first.urls != []
    ensures var scanned := ScanFrom(db, db.agg, Candidates(db.agg, |db.agg.attempts|), 0, w).db;
            var last := LastPoll(db, w);
            && Inv(scanned.agg) && Agrees(last.0, scanned.agg)
            && Pass(db, db.agg, w) == AfterPoll(scanned, last.0, last.1)
            && (!HasCandidate(last.0) ==> last.0 == scanned.agg)
  {
    var ids := Candidates(db.agg, |db.agg.attempts|);
    ScansAreSerial(db, db.agg, ids, 0, w);
    RunKeepsFrom(db, ScansMade(db.agg, ids, 0, w));
    if !HasCandidate(db.agg) {
      NoCandidateNoScan(db, w);
    }
  }

  lemma NoCandidateNoScan(db: S.Db, w: PassWorld)
    requires !HasCandidate(db.agg)
    ensures ScanFrom(db, db.agg, Candidates(db.agg, |db.agg.attempts|), 0, w) == NonePromoted(db)
  {
    OnlyCandidatesAreScanned(db.agg);
  }

  lemma OnlyCandidatesAreScanned(read: S.Aggregate)
    ensures Candidates(read, |read.attempts|) != [] ==> HasCandidate(read)
  {
    var ids := Candidates(read, |read.attempts|);
    if ids != [] {
      assert IsCandidate(read, ids[0]);
    }
  }

  /** A pass that is left alone reports terminal if and only if nothing is left to do and it had read no open candidate. */
  lemma QuietPassIsTerminalExactlyWhen(db: S.Db, w: PassWorld)
    requires Inv(db.agg) && Quiet(w) && db.agg.exec.txHash.Some?
    requires Pass(db, db.agg, w).error.None?
    ensures var after := Pass(db, db.agg, w).db.agg;
            Pass(db, db.agg, w).terminal <==>
              AllDone(after, LastPoll(db, w)) && (after.exec.snapshot.workflow.Confirmed? || !HasCandidate(LastPoll(db, w).0))
  {
    QuietPassEndsWithPoll(db, w);
    PollIsTerminalExactlyWhen(ScanFrom(db, db.agg, Candidates(db.agg, |db.agg.attempts|), 0, w).db, LastPoll(db, w));
  }

  lemma PollIsTerminalExactlyWhen(stored: S.Db, last: (S.Aggregate, Poll))
    requires Inv(stored.agg) && Agrees(last.0, stored.agg) && (!HasCandidate(last.0) ==> last.0 == stored.agg)
    requires AfterPoll(stored, last.0, last.1).error.None?
    ensures var r := AfterPoll(stored, last.0, last.1);
            r.terminal <==> AllDone(r.db.agg, last) && (r.db.agg.exec.snapshot.workflow.Confirmed? || !HasCandidate(last.0))
  {
    WrittenPassTerminalExactlyWhen(stored, last.0, last.1);
    var after := AfterPoll(stored, last.0, last.1).db.agg;
    if !HasCandidate(last.0) && !after.exec.snapshot.workflow.Confirmed? {
      CandidatesStay(stored, last.1);
    }
  }

  /** So the loop completes only when nothing is left to do, however many others write while it sleeps. */
  lemma LoopCompletesOnlyWhenDone(db: S.Db, rounds: seq<Round>, after: S.Db, iterations: nat)
    requires Ends(db, rounds, after, Completed, iterations) && Inv(db.agg)
    requires var k := iterations - 1;
             Inv(After(db, rounds, k).agg) && Quiet(WorldAt(RoundAt(rounds, k).worlds, 0))
    ensures var k := iterations - 1;
            var read := Run(After(db, rounds, k), RoundAt(rounds, k).asleep);
            AllDone(after.agg, LastPoll(read, WorldAt(RoundAt(rounds, k).worlds, 0)))
  {
    var k := iterations - 1;
    var read, w := Run(After(db, rounds, k), RoundAt(rounds, k).asleep), WorldAt(RoundAt(rounds, k).worlds, 0);
    RunKeepsFrom(After(db, rounds, k), RoundAt(rounds, k).asleep);
    CurrentReadIsNotStale(read, read.agg, w);
    assert ResultOf(db, rounds, k) == Pass(read, read.agg, w);
    QuietPassIsTerminalExactlyWhen(read, w);
  }
}
