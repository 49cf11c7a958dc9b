/** Any number of callers that read an aggregate, compute, and write later, ordered only by the version check. */
module Interleaving {
  import opened Prelude
  import opened Types
  import opened StateMachine
  import opened Rpc
  import opened Store
  import opened Service
  import opened Reconcile
  import opened Machine
  import opened Invariants
  import opened Confirmation

  type CallerId = nat

  /** A caller reads the intent and execution row first and the attempt rows in a second query. */
  datatype Caller = GotRow(row: Aggregate) | GotAll(read: Aggregate)

  datatype System = System(db: Db, callers: map<CallerId, Caller>)

  datatype Action = ReadRow(c: CallerId) | ReadAttempts(c: CallerId) | Submit(c: CallerId, request: Request)

  function NewSystem(policy: Policy, required: nat): System {
    System(Init(policy, required), map[])
  }

  predicate Acts(sys: System, a: Action) {
    a.Submit? && a.c in sys.callers && sys.callers[a.c].GotAll?
  }

  function Attempted(sys: System, a: Action): Result<Db, Error>
    requires Acts(sys, a)
  {
    Write(sys.db, sys.callers[a.c].read, a.request)
  }

  function Act(sys: System, a: Action): System {
    match a
    case ReadRow(c) => sys.(callers := sys.callers[c := GotRow(sys.db.agg.(attempts := []))])
    case ReadAttempts(c) =>
      if c in sys.callers && sys.callers[c].GotRow?
      then sys.(callers := sys.callers[c := GotAll(sys.callers[c].row.(attempts := sys.db.agg.attempts))])
      else sys
    case Submit(c, request) =>
      if Acts(sys, a) && Attempted(sys, a).Ok? then sys.(db := Attempted(sys, a).value) else sys
  }

  function Execute(sys: System, actions: seq<Action>): System {
    if actions == [] then sys
    else Act(Execute(sys, actions[..|actions| - 1]), actions[|actions| - 1])
  }

  // ---- What a read with the stored version has seen ----------------------------------------------------------------

  /** Equal but for the columns a candidate scan writes. */
  predicate SameButScanned(a: Attempt, b: Attempt) {
    a == b.(submission := a.submission, chain := a.chain, workflow := a.workflow, disposition := a.disposition,
            conflictType := a.conflictType, conflictDetails := a.conflictDetails)
  }

  predicate SameRow(a: Aggregate, b: Aggregate) {
    a.required == b.required && a.exec == b.exec && a.active == b.active && a.winning == b.winning
  }

  /** The read shows the stored projection, and the attempts but for unversioned scan results. */
  predicate Agrees(read: Aggregate, agg: Aggregate) {
    && SameRow(read, agg)
    && |read.attempts| == |agg.attempts|
    && forall i :: 0 <= i < |agg.attempts| ==> SameButScanned(read.attempts[i], agg.attempts[i])
  }

  /** What no write ever takes back: the policy, the attempts, and that a transaction is tracked. */
  predicate KeepsSettings(before: Aggregate, after: Aggregate) {
    && before.exec.snapshot.policy == after.exec.snapshot.policy
    && |before.attempts| <= |after.attempts|
    && (before.exec.txHash.Some? ==> after.exec.txHash.Some?)
  }

  predicate Consistent(caller: Caller, agg: Aggregate) {
    match caller
    case GotRow(row) =>
      && KeepsSettings(row, agg) && row.exec.version <= agg.exec.version
      && (row.exec.version == agg.exec.version ==> SameRow(row, agg))
    case GotAll(read) =>
      && KeepsSettings(read, agg) && read.exec.version <= agg.exec.version
      && (read.exec.version == agg.exec.version ==> Agrees(read, agg))
  }

  predicate AllConsistent(sys: System) {
    forall c :: c in sys.callers ==> Consistent(sys.callers[c], sys.db.agg)
  }

  /** The request writes attempt columns without looking at the version. */
  predicate IsSideUpdate(read: Aggregate, request: Request) {
    && request.ScanReq? && read.exec.txHash.Some? && IsCandidate(read, request.id)
    && !ScanCandidate(read, request.id, request.result, request.now).Promotion?
  }

  /** A scan of something that is no candidate does nothing. */
  predicate IsIdleScan(read: Aggregate, request: Request) {
    request.ScanReq? && (read.exec.txHash.None? || !IsCandidate(read, request.id))
  }

  /** Every other accepted write passed the version check and moved the version by one. */
  lemma VersionedWrite(db: Db, read: Aggregate, request: Request)
    requires !IsSideUpdate(read, request) && !IsIdleScan(read, request)
    requires Write(db, read, request).Ok?
    ensures read.exec.version == db.agg.exec.version
    ensures Write(db, read, request).value.agg.exec.version == db.agg.exec.version + 1
  {
  }

  /** A side update touches nothing but the scanned columns of attempts. */
  lemma UnversionedWrite(db: Db, read: Aggregate, request: Request)
    requires IsSideUpdate(read, request) || IsIdleScan(read, request)
    ensures var written := Write(db, read, request);
            && written.Ok? && written.value.events == db.events
            && Agrees(written.value.agg, db.agg)
  {
  }

  lemma WriteKeepsSettings(db: Db, read: Aggregate, request: Request)
    requires Write(db, read, request).Ok?
    ensures KeepsSettings(db.agg, Write(db, read, request).value.agg)
  {
  }

  lemma AgreesTransitive(a: Aggregate, b: Aggregate, c: Aggregate)
    requires Agrees(a, b) && Agrees(c, b)
    ensures Agrees(a, c)
  {
    forall i | 0 <= i < |a.attempts|
      ensures SameButScanned(a.attempts[i], c.attempts[i])
    {
      assert SameButScanned(a.attempts[i], b.attempts[i]) && SameButScanned(c.attempts[i], b.attempts[i]);
    }
  }

  lemma ActKeepsConsistency(sys: System, a: Action)
    requires AllConsistent(sys)
    ensures AllConsistent(Act(sys, a))
  {
    if Acts(sys, a) && Attempted(sys, a).Ok? {
      var read := sys.callers[a.c].read;
      var after := Attempted(sys, a).value.agg;
      WriteKeepsSettings(sys.db, read, a.request);
      if IsSideUpdate(read, a.request) || IsIdleScan(read, a.request) {
        UnversionedWrite(sys.db, read, a.request);
        forall c | c in sys.callers
          ensures Consistent(sys.callers[c], after)
        {
          assert Consistent(sys.callers[c], sys.db.agg);
          if sys.callers[c].GotAll? && sys.callers[c].read.exec.version == sys.db.agg.exec.version {
            AgreesTransitive(sys.callers[c].read, sys.db.agg, after);
          }
        }
      } else {
        VersionedWrite(sys.db, read, a.request);
        forall c | c in sys.callers
          ensures Consistent(sys.callers[c], after)
        {
          assert Consistent(sys.callers[c], sys.db.agg);
        }
      }
    } else {
      forall c | c in Act(sys, a).callers
        ensures Consistent(Act(sys, a).callers[c], sys.db.agg)
      {
        if c in sys.callers {
          assert Consistent(sys.callers[c], sys.db.agg);
        }
      }
    }
  }

  lemma {:induction false} ExecuteKeepsConsistency(sys: System, actions: seq<Action>)
    requires AllConsistent(sys)
    ensures AllConsistent(Execute(sys, actions))
  {
    if actions != [] {
      ExecuteKeepsConsistency(sys, actions[..|actions| - 1]);
      ActKeepsConsistency(Execute(sys, actions[..|actions| - 1]), actions[|actions| - 1]);
    }
  }

  /**
   * In every interleaving, a write that changes the projection was computed from exactly the projection it replaces and
   * raises the version by one; every other action leaves projection, pointers, version and events alone.
   */
  lemma NoLostUpdate(policy: Policy, required: nat, actions: seq<Action>, a: Action)
    ensures var sys := Execute(System(Init(policy, required), map[]), actions);
            var before, after := sys.db, Act(sys, a).db;
            if Acts(sys, a) && Attempted(sys, a).Ok? && !IsSideUpdate(sys.callers[a.c].read, a.request)
               && !IsIdleScan(sys.callers[a.c].read, a.request)
            then Agrees(sys.callers[a.c].read, before.agg) && after.agg.exec.version == before.agg.exec.version + 1
            else SameRow(after.agg, before.agg) && after.events == before.events
  {
    var start := System(Init(policy, required), map[]);
    ExecuteKeepsConsistency(start, actions);
    var sys := Execute(start, actions);
    if Acts(sys, a) && Attempted(sys, a).Ok? {
      var read := sys.callers[a.c].read;
      assert Consistent(sys.callers[a.c], sys.db.agg);
      if IsSideUpdate(read, a.request) || IsIdleScan(read, a.request) {
        UnversionedWrite(sys.db, read, a.request);
      } else {
        VersionedWrite(sys.db, read, a.request);
      }
    }
  }

  // ---- Taking turns ------------------------------------------------------------------------------------------------

  lemma {:induction false} ExecuteAppend(sys: System, a: seq<Action>, b: seq<Action>)
    ensures Execute(sys, a + b) == Execute(Execute(sys, a), b)
  {
    if b == [] {
      assert a + b == a;
    } else {
      ExecuteAppend(sys, a, b[..|b| - 1]);
      assert (a + b)[..|a + b| - 1] == a + b[..|b| - 1];
    }
  }

  lemma ExecuteOne(sys: System, a: Action)
    ensures Execute(sys, [a]) == Act(sys, a)
  {
    assert [a][..0] == [];
  }

  lemma ExecuteTwo(sys: System, a: Action, b: Action)
    ensures Execute(sys, [a, b]) == Act(Act(sys, a), b)
  {
    assert [a, b][..1] == [a];
    ExecuteOne(sys, a);
  }

  /** Both reads and the write of one request, without anyone in between. */
  function Turn(c: CallerId, request: Request): seq<Action> {
    [ReadRow(c), ReadAttempts(c)] + [Submit(c, request)]
  }

  lemma ReadsAll(sys: System, c: CallerId)
    ensures Execute(sys, [ReadRow(c), ReadAttempts(c)]) == sys.(callers := sys.callers[c := GotAll(sys.db.agg)])
  {
    ExecuteTwo(sys, ReadRow(c), ReadAttempts(c));
  }

  lemma TurnIsStep(sys: System, c: CallerId, request: Request)
    ensures Execute(sys, Turn(c, request)) == System(Step(sys.db, request), sys.callers[c := GotAll(sys.db.agg)])
  {
    ReadsAll(sys, c);
    ExecuteAppend(sys, [ReadRow(c), ReadAttempts(c)], [Submit(c, request)]);
    ExecuteOne(Execute(sys, [ReadRow(c), ReadAttempts(c)]), Submit(c, request));
  }

  function Turns(c: CallerId, requests: seq<Request>): seq<Action> {
    if requests == [] then [] else Turns(c, requests[..|requests| - 1]) + Turn(c, requests[|requests| - 1])
  }

  /** One caller's requests, turn by turn, are a run of the serial machine, and no other caller's read changes. */
  lemma {:induction false} TurnsAreRun(sys: System, c: CallerId, requests: seq<Request>, other: CallerId)
    requires other != c
    ensures var after := Execute(sys, Turns(c, requests));
            && after.db == Run(sys.db, requests)
            && (other in after.callers <==> other in sys.callers)
            && (other in sys.callers ==> after.callers[other] == sys.callers[other])
  {
    if requests != [] {
      var n := |requests| - 1;
      TurnsAreRun(sys, c, requests[..n], other);
      ExecuteAppend(sys, Turns(c, requests[..n]), Turn(c, requests[n]));
      TurnIsStep(Execute(sys, Turns(c, requests[..n])), c, requests[n]);
    }
  }
}
