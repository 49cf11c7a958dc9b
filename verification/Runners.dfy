/**
 * Runners that share one cursor over a list of items (workflows/reconcile/src/reconcile.ts,
 * workflows/webhook-delivery/src/index.ts). Between two awaits a runner is not interrupted, so one tick takes a runner
 * from one await to the next; which runner ticks next is arbitrary, and so is whether its worker throws.
 */
module Runners {
  import opened Prelude

  type Item = nat

  datatype Runner = Waiting | Working(item: Item) | Ended | Broken(item: Item)

  datatype Pool = Pool(items: nat, cursor: nat, runners: seq<Runner>, done: seq<Item>)

  predicate HasEnded(r: Runner) {
    r.Ended? || r.Broken?
  }

  function Start(items: nat, concurrency: nat): Pool {
    Pool(items, 0, seq(Min(concurrency, items), _ => Waiting), [])
  }

  function Tick(pool: Pool, r: nat, throws: bool): Pool
    requires r < |pool.runners|
  {
    match pool.runners[r]
    case Waiting =>
      if pool.cursor < pool.items
      then pool.(cursor := pool.cursor + 1, runners := pool.runners[r := Working(pool.cursor)])
      else pool.(runners := pool.runners[r := Ended])
    case Working(item) =>
      if throws then pool.(runners := pool.runners[r := Broken(item)])
      else pool.(runners := pool.runners[r := Waiting], done := pool.done + [item])
    case _ => pool
  }

  // ---- Exactly once ------------------------------------------------------------------------------------------------

  function InHand(r: Runner, item: Item): nat {
    if (r.Working? || r.Broken?) && r.item == item then 1 else 0
  }

  /** How many runners work on this item, or broke on it. */
  function HeldTimes(runners: seq<Runner>, item: Item): nat {
    if runners == [] then 0 else HeldTimes(runners[..|runners| - 1], item) + InHand(runners[|runners| - 1], item)
  }

  function DoneTimes(done: seq<Item>, item: Item): nat {
    if done == [] then 0 else DoneTimes(done[..|done| - 1], item) + (if done[|done| - 1] == item then 1 else 0)
  }

  lemma {:induction false} HeldAfterUpdate(runners: seq<Runner>, r: nat, x: Runner, item: Item)
    requires r < |runners|
    ensures HeldTimes(runners[r := x], item) == HeldTimes(runners, item) - InHand(runners[r], item) + InHand(x, item)
  {
    var n := |runners| - 1;
    if r < n {
      HeldAfterUpdate(runners[..n], r, x, item);
      assert runners[r := x][..n] == runners[..n][r := x];
    } else {
      assert runners[r := x][..n] == runners[..n];
    }
  }

  lemma {:induction false} NothingHeld(runners: seq<Runner>, item: Item)
    requires forall i :: 0 <= i < |runners| ==> InHand(runners[i], item) == 0
    ensures HeldTimes(runners, item) == 0
  {
    if runners != [] {
      NothingHeld(runners[..|runners| - 1], item);
    }
  }

  /** Every item before the cursor is done or in one runner's hands, once, and no other item is. */
  predicate EachOnce(pool: Pool, item: Item) {
    DoneTimes(pool.done, item) + HeldTimes(pool.runners, item) == if item < pool.cursor then 1 else 0
  }

  /** The cursor stays on the list, and a runner only ends when no item is left. */
  predicate CursorSound(pool: Pool) {
    && pool.cursor <= pool.items
    && (forall i :: 0 <= i < |pool.runners| && pool.runners[i].Ended? ==> pool.cursor == pool.items)
  }

  lemma TickKeepsEachOnce(pool: Pool, r: nat, throws: bool, item: Item)
    requires r < |pool.runners| && EachOnce(pool, item)
    ensures EachOnce(Tick(pool, r, throws), item)
  {
    match pool.runners[r]
    case Waiting => HeldAfterUpdate(pool.runners, r, if pool.cursor < pool.items then Working(pool.cursor) else Ended, item);
    case Working(worked) =>
      HeldAfterUpdate(pool.runners, r, if throws then Broken(worked) else Waiting, item);
      DoneOneMore(pool.done, worked, item);
    case _ =>
  }

  lemma DoneOneMore(done: seq<Item>, next: Item, item: Item)
    ensures DoneTimes(done + [next], item) == DoneTimes(done, item) + (if next == item then 1 else 0)
  {
    assert (done + [next])[..|done|] == done;
  }

  function Run(pool: Pool, schedule: seq<(nat, bool)>): Pool {
    if schedule == [] then pool
    else
      var before := Run(pool, schedule[..|schedule| - 1]);
      var (r, throws) := schedule[|schedule| - 1];
      if r < |before.runners| then Tick(before, r, throws) else before
  }

  lemma {:induction false} RunKeeps(items: nat, concurrency: nat, schedule: seq<(nat, bool)>, item: Item)
    ensures var pool := Run(Start(items, concurrency), schedule);
            && EachOnce(pool, item) && CursorSound(pool)
            && |pool.runners| == Min(concurrency, items) && pool.items == items
  {
    if schedule == [] {
      NothingHeld(Start(items, concurrency).runners, item);
    } else {
      RunKeeps(items, concurrency, schedule[..|schedule| - 1], item);
      var before := Run(Start(items, concurrency), schedule[..|schedule| - 1]);
      var (r, throws) := schedule[|schedule| - 1];
      if r < |before.runners| {
        TickKeepsEachOnce(before, r, throws, item);
      }
    }
  }

  function InProgress(runners: seq<Runner>): nat {
    if runners == [] then 0 else InProgress(runners[..|runners| - 1]) + (if runners[|runners| - 1].Working? then 1 else 0)
  }

  lemma {:induction false} InProgressBound(runners: seq<Runner>)
    ensures InProgress(runners) <= |runners|
  {
    if runners != [] {
      InProgressBound(runners[..|runners| - 1]);
    }
  }

  /** In every schedule, no item is ever taken twice or lost, and at most `concurrency` are in progress. */
  lemma NeverTwiceNeverTooMany(items: nat, concurrency: nat, schedule: seq<(nat, bool)>, item: Item)
    ensures var pool := Run(Start(items, concurrency), schedule);
            && DoneTimes(pool.done, item) + HeldTimes(pool.runners, item) == (if item < pool.cursor then 1 else 0)
            && pool.cursor <= items
            && InProgress(pool.runners) <= concurrency
  {
    RunKeeps(items, concurrency, schedule, item);
    InProgressBound(Run(Start(items, concurrency), schedule).runners);
  }

  // ---- At the end --------------------------------------------------------------------------------------------------

  predicate AllEnded(pool: Pool) {
    forall i :: 0 <= i < |pool.runners| ==> HasEnded(pool.runners[i])
  }

  predicate AnyBroken(pool: Pool) {
    exists i :: 0 <= i < |pool.runners| && pool.runners[i].Broken?
  }

  /** When the runners have ended and no worker threw, every item was worked exactly once. */
  lemma AllWorkedExactlyOnce(items: nat, concurrency: nat, schedule: seq<(nat, bool)>, item: Item)
    requires concurrency >= 1
    requires var pool := Run(Start(items, concurrency), schedule); AllEnded(pool) && !AnyBroken(pool)
    ensures DoneTimes(Run(Start(items, concurrency), schedule).done, item) == if item < items then 1 else 0
  {
    var pool := Run(Start(items, concurrency), schedule);
    RunKeeps(items, concurrency, schedule, item);
    assert forall i :: 0 <= i < |pool.runners| ==> pool.runners[i].Ended?;
    NothingHeld(pool.runners, item);
    if items > 0 {
      assert pool.runners[0].Ended?;
    }
  }

  /** A throwing worker costs its runner: an item may stay unvisited only when every runner broke. */
  lemma UnvisitedOnlyWhenAllBroke(items: nat, concurrency: nat, schedule: seq<(nat, bool)>, item: Item)
    requires item < items && AllEnded(Run(Start(items, concurrency), schedule))
    ensures var pool := Run(Start(items, concurrency), schedule);
            DoneTimes(pool.done, item) + HeldTimes(pool.runners, item) == 0 ==>
              forall i :: 0 <= i < |pool.runners| ==> pool.runners[i].Broken?
  {
    RunKeeps(items, concurrency, schedule, item);
  }

  // ---- The runners come to an end ----------------------------------------------------------------------------------

  function Weight(r: Runner): nat {
    match r
    case Waiting => 1
    case Working(_) => 2
    case _ => 0
  }

  function TotalWeight(runners: seq<Runner>): nat {
    if runners == [] then 0 else TotalWeight(runners[..|runners| - 1]) + Weight(runners[|runners| - 1])
  }

  /** How many ticks the pool can still make at most. */
  function Remaining(pool: Pool): nat
    requires pool.cursor <= pool.items
  {
    2 * (pool.items - pool.cursor) + TotalWeight(pool.runners)
  }

  lemma {:induction false} WeightAfterUpdate(runners: seq<Runner>, r: nat, x: Runner)
    requires r < |runners|
    ensures TotalWeight(runners[r := x]) == TotalWeight(runners) - Weight(runners[r]) + Weight(x)
  {
    var n := |runners| - 1;
    if r < n {
      WeightAfterUpdate(runners[..n], r, x);
      assert runners[r := x][..n] == runners[..n][r := x];
    } else {
      assert runners[r := x][..n] == runners[..n];
    }
  }

  lemma TickMakesProgress(pool: Pool, r: nat, throws: bool)
    requires r < |pool.runners| && pool.cursor <= pool.items && !HasEnded(pool.runners[r])
    ensures var after := Tick(pool, r, throws);
            after.cursor <= after.items && Remaining(after) < Remaining(pool)
  {
    var after := Tick(pool, r, throws);
    WeightAfterUpdate(pool.runners, r, after.runners[r]);
    assert pool.runners[r := after.runners[r]] == after.runners;
  }

  // ---- As it runs --------------------------------------------------------------------------------------------------

  class SharedCursor {
    const items: nat
    var cursor: nat
    var runners: seq<Runner>
    var done: seq<Item>

    ghost function State(): Pool
      reads this
    {
      Pool(items, cursor, runners, done)
    }

    constructor (items: nat, concurrency: nat)
      ensures State() == Start(items, concurrency)
    {
      this.items := items;
      cursor, runners, done := 0, seq(Min(concurrency, items), _ => Waiting), [];
    }

    method Continue(r: nat, throws: bool)
      requires r < |runners|
      modifies this
      ensures State() == Tick(old(State()), r, throws)
    {
      match runners[r] {
        case Working(item) =>
          if throws {
            runners := runners[r := Broken(item)];
          } else {
            done := done + [item];
            runners := runners[r := Waiting];
          }
        case Waiting =>
          if cursor < items {
            var index := cursor;
            cursor := cursor + 1;
            runners := runners[r := Working(index)];
          } else {
            runners := runners[r := Ended];
          }
        case _ =>
      }
    }
  }

  method FirstRunning(runners: seq<Runner>) returns (r: nat)
    ensures r <= |runners|
    ensures r < |runners| ==> !HasEnded(runners[r])
    ensures r == |runners| ==> forall i :: 0 <= i < |runners| ==> HasEnded(runners[i])
  {
    r := 0;
    while r < |runners| && HasEnded(runners[r])
      invariant r <= |runners| && forall i :: 0 <= i < r ==> HasEnded(runners[i])
    {
      r := r + 1;
    }
  }

  /** Whatever order the event loop chooses, the runners end; if no worker throws, every item is done, each once. */
  method RunWithConcurrency(items: nat, concurrency: nat, chosen: nat -> nat, throws: nat -> bool)
    returns (done: seq<Item>, broken: bool)
    requires concurrency >= 1
    ensures !broken ==> forall item: Item :: DoneTimes(done, item) == if item < items then 1 else 0
    ensures broken ==> exists item: Item :: item < items && DoneTimes(done, item) == 0
    ensures forall item: Item :: DoneTimes(done, item) <= 1 && (DoneTimes(done, item) == 1 ==> item < items)
  {
    var pool := new SharedCursor(items, concurrency);
    ghost var schedule: seq<(nat, bool)> := [];
    var tick := 0;
    var r: nat := FirstRunning(pool.runners);
    while r < |pool.runners|
      invariant pool.State() == Run(Start(items, concurrency), schedule)
      invariant CursorSound(pool.State())
      invariant if r < |pool.runners| then !HasEnded(pool.runners[r]) else AllEnded(pool.State())
      decreases Remaining(pool.State())
    {
      var preferred := chosen(tick);
      if preferred < |pool.runners| && !HasEnded(pool.runners[preferred]) {
        r := preferred;
      }
      TickMakesProgress(pool.State(), r, throws(tick));
      assert (schedule + [(r, throws(tick))])[..|schedule|] == schedule;
      schedule := schedule + [(r, throws(tick))];
      RunKeeps(items, concurrency, schedule, 0);
      pool.Continue(r, throws(tick));
      tick := tick + 1;
      r := FirstRunning(pool.runners);
    }
    done, broken := pool.done, AnyBroken(Pool(pool.items, pool.cursor, pool.runners, pool.done));
    HowItEnds(items, concurrency, schedule);
  }

  lemma HowItEnds(items: nat, concurrency: nat, schedule: seq<(nat, bool)>)
    requires concurrency >= 1 && AllEnded(Run(Start(items, concurrency), schedule))
    ensures var pool := Run(Start(items, concurrency), schedule);
            && (forall item: Item :: DoneTimes(pool.done, item) <= 1 && (DoneTimes(pool.done, item) == 1 ==> item < items))
            && (!AnyBroken(pool) ==> forall item: Item :: DoneTimes(pool.done, item) == if item < items then 1 else 0)
            && (AnyBroken(pool) ==> exists item: Item :: item < items && DoneTimes(pool.done, item) == 0)
  {
    var pool := Run(Start(items, concurrency), schedule);
    forall item: Item
      ensures EachOnce(pool, item) && pool.cursor <= items
      ensures !AnyBroken(pool) ==> DoneTimes(pool.done, item) == if item < items then 1 else 0
    {
      RunKeeps(items, concurrency, schedule, item);
      if !AnyBroken(pool) {
        AllWorkedExactlyOnce(items, concurrency, schedule, item);
      }
    }
    if AnyBroken(pool) {
      var i :| 0 <= i < |pool.runners| && pool.runners[i].Broken?;
      HeldAfterUpdate(pool.runners, i, Ended, pool.runners[i].item);
      assert EachOnce(pool, pool.runners[i].item);
    }
  }
}
