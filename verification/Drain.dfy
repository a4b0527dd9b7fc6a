/**
 The ETA promise over runs of the queue: a due job is claimed within as many ticks as its queue depth
 fills batches, so the estimate is never early.
 */
module Drain {
  import opened Common
  import Eta
  import opened Jobs
  import Lookup
  import RefreshOne
  import Store
  import opened JobSystem

  /** The pending jobs that a claim may take before or instead of `id`; `id` itself is one. */
  ghost function AheadOf(s: Sys, id: JobId): set<JobId>
    requires id in s.jobs
  {
    set j | j in s.jobs && s.jobs[j].status == Pending && Ranks(s.jobs[j], s.jobs[id])
  }

  /** No job comes to stand at or before the rank of `id` that was not there, and nobody withdraws `id`. */
  ghost predicate NoneCutsIn(s: Sys, step: Step, id: JobId)
    requires Enabled(s, step) && id in s.jobs
  {
    var s' := Apply(s, step);
    && !(step.Cancel? && step.id == id)
    && forall j | j in s'.jobs && s'.jobs[j].status == Pending && Ranks(s'.jobs[j], s.jobs[id]) :: j in AheadOf(s, id)
  }

  /** Every tick claims `batch` jobs at a time when `id` is due, and nobody cuts in, until `id` is claimed. */
  ghost predicate SteadyTicks(s: Sys, steps: seq<Step>, id: JobId, batch: nat)
    requires Run(s, steps)
    decreases |steps|
  {
    steps != [] && id in s.jobs && s.jobs[id].status == Pending ==>
      && (steps[0].Claim? ==> steps[0].batch == batch && s.jobs[id].scheduledFor <= steps[0].now)
      && NoneCutsIn(s, steps[0], id)
      && SteadyTicks(Apply(s, steps[0]), steps[1..], id, batch)
  }

  /** The claims of a run, in order. */
  function Ticks(steps: seq<Step>): (t: seq<Step>)
    ensures forall c | c in t :: c.Claim?
    decreases |steps|
  {
    if steps == [] then [] else (if steps[0].Claim? then [steps[0]] else []) + Ticks(steps[1..])
  }

  /** A pending row that nobody holds changes only by being claimed or withdrawn. */
  lemma PendingRowIsKept(s: Sys, step: Step, id: JobId)
    requires Sound(s) && Enabled(s, step) && id in s.jobs && s.jobs[id].status == Pending && !Held(s, id)
    requires !(step.Cancel? && step.id == id) && !(step.Claim? && id in step.ids)
    ensures var s' := Apply(s, step);
            id in s'.jobs && s'.jobs[id] == s.jobs[id] && !Held(s', id)
  {
    hide RefreshOne.Settled, RefreshOne.Audited, Store.Perform, Store.DeleteRepo;
    if step.Claim? {
      assert id in ToSet(step.ids) <==> id in step.ids;
      UnclaimedStaysFree(s, step, id);
    }
  }

  lemma UnclaimedStaysFree(s: Sys, step: Step, id: JobId)
    requires Enabled(s, step) && step.Claim? && id !in step.ids && !Held(s, id)
    ensures !Held(Apply(s, step), id)
  {
    hide IsFirstBatch, AddRunners, ClaimAll;
    var s' := Apply(s, step);
    assert forall k | k in s'.runners && s.nextRunner <= k < s.nextRunner + |step.ids| ::
      s'.runners[k].job == step.ids[k - s.nextRunner] && s'.runners[k].job in step.ids;
  }

  /** A tick that passes `id` over takes a full batch of jobs ahead of it. */
  lemma TickShortensQueue(s: Sys, step: Step, id: JobId)
    requires Sound(s) && Enabled(s, step) && step.Claim? && !Held(s, id)
    requires id in s.jobs && s.jobs[id].status == Pending && s.jobs[id].scheduledFor <= step.now && id !in step.ids
    ensures var s' := Apply(s, step);
            && id in s'.jobs && s'.jobs[id] == s.jobs[id]
            && |AheadOf(s', id)| == |AheadOf(s, id)| - step.batch
  {
    var taken := ToSet(step.ids);
    var s' := Apply(s, step);
    PendingRowIsKept(s, step, id);
    assert s.jobs[id].lockedUntil.None?;
    assert id in Eligible(s.jobs, step.now) && id !in taken;
    assert taken < Eligible(s.jobs, step.now);
    CardinalityOfProperSubset(taken, Eligible(s.jobs, step.now));
    assert |taken| == step.batch;
    assert taken <= AheadOf(s, id);
    assert AheadOf(s', id) == AheadOf(s, id) - taken;
  }

  lemma CardinalityOfProperSubset<T>(a: set<T>, b: set<T>)
    requires a < b
    ensures |a| < |b|
  {
    assert b == a + (b - a);
    assert |b - a| > 0;
  }

  lemma CardinalityOfSubset<T>(a: set<T>, b: set<T>)
    requires a <= b
    ensures |a| <= |b|
  {
    if a != b {
      CardinalityOfProperSubset(a, b);
    }
  }

  lemma OtherStepKeepsPlace(s: Sys, step: Step, id: JobId)
    requires Sound(s) && Enabled(s, step) && !step.Claim? && !Held(s, id)
    requires id in s.jobs && s.jobs[id].status == Pending && NoneCutsIn(s, step, id)
    ensures var s' := Apply(s, step);
            && id in s'.jobs && s'.jobs[id] == s.jobs[id]
            && |AheadOf(s', id)| <= |AheadOf(s, id)|
  {
    PendingRowIsKept(s, step, id);
    CardinalityOfSubset(AheadOf(Apply(s, step), id), AheadOf(s, id));
  }

  lemma SelfIsAhead(s: Sys, id: JobId)
    requires id in s.jobs && s.jobs[id].status == Pending
    ensures 1 <= |AheadOf(s, id)| <= Lookup.QueueDepth(s.jobs)
  {
    CardinalityOfSubset({id}, AheadOf(s, id));
    CardinalityOfSubset(AheadOf(s, id), Lookup.PendingIds(s.jobs));
  }

  lemma {:induction false} ClaimedWithin(s: Sys, steps: seq<Step>, id: JobId, batch: nat, n: nat)
    requires Sound(s) && Run(s, steps) && id in s.jobs && s.jobs[id].status == Pending && !Held(s, id)
    requires SteadyTicks(s, steps, id, batch)
    requires |AheadOf(s, id)| <= n * batch && |Ticks(steps)| >= n >= 1
    ensures exists k | 0 <= k < n :: id in Ticks(steps)[k].ids
    decreases |steps|
  {
    hide Apply, Enabled, Sound, Held;
    TicksOfCons(steps);
    StepKeepsSound(s, steps[0]);
    var s' := Apply(s, steps[0]);
    if steps[0].Claim? {
      if id in steps[0].ids {
        assert id in Ticks(steps)[0].ids;
      } else {
        TickShortensQueue(s, steps[0], id);
        PendingRowIsKept(s, steps[0], id);
        SelfIsAhead(s', id);
        OneBatchLess(|AheadOf(s, id)|, n, batch);
        ClaimedWithin(s', steps[1..], id, batch, n - 1);
        var k :| 0 <= k < n - 1 && id in Ticks(steps[1..])[k].ids;
        assert Ticks(steps)[k + 1] == Ticks(steps[1..])[k];
      }
    } else {
      assert Ticks(steps) == Ticks(steps[1..]);
      OtherStepKeepsPlace(s, steps[0], id);
      PendingRowIsKept(s, steps[0], id);
      ClaimedWithin(s', steps[1..], id, batch, n);
    }
  }

  lemma TicksOfCons(steps: seq<Step>)
    requires steps != []
    ensures Ticks(steps) == (if steps[0].Claim? then [steps[0]] else []) + Ticks(steps[1..])
  {
  }

  lemma OneBatchLess(ahead: int, n: int, batch: int)
    requires ahead <= n * batch && ahead - batch >= 1
    ensures ahead - batch <= (n - 1) * batch
    ensures batch >= 0 ==> n >= 2
  {
    assert (n - 1) * batch == n * batch - batch;
  }

  /**
   If no job comes to stand before it and nobody withdraws it, a due pending job in no runner's hands is taken by one of the first
   ceil(queueDepth / batchSize) ticks, which is no more than the ticks the estimate counts.
   */
  lemma DueJobIsClaimedInTime(s: Sys, steps: seq<Step>, id: JobId, batch: nat)
    requires Sound(s) && Run(s, steps) && id in s.jobs && s.jobs[id].status == Pending && !Held(s, id)
    requires batch > 0 && SteadyTicks(s, steps, id, batch)
    requires |Ticks(steps)| >= Eta.CeilDiv(Lookup.QueueDepth(s.jobs), batch)
    ensures Eta.CeilDiv(Lookup.QueueDepth(s.jobs), batch) <= Eta.TicksUntilMine(Lookup.QueueDepth(s.jobs), batch)
    ensures exists k | 0 <= k < Eta.CeilDiv(Lookup.QueueDepth(s.jobs), batch) :: id in Ticks(steps)[k].ids
  {
    var depth := Lookup.QueueDepth(s.jobs);
    SelfIsAhead(s, id);
    Eta.CeilDivIsLeast(depth, batch, Eta.CeilDiv(depth, batch));
    Eta.EstimateCoversDrain(depth, batch);
    ClaimedWithin(s, steps, id, batch, Eta.CeilDiv(depth, batch));
  }

  /**
   The estimate is never early: if the k-th tick after `now` comes no later than k tick intervals after
   `now`, the job has been claimed by the estimated time, with a whole fetch time to spare.
   */
  lemma EstimateIsNeverEarly(
    s: Sys, steps: seq<Step>, id: JobId, batch: nat, tickMs: int, medianFetchMs: real, now: int)
    requires Sound(s) && Run(s, steps) && id in s.jobs && s.jobs[id].status == Pending && !Held(s, id)
    requires batch > 0 && tickMs > 0 && SteadyTicks(s, steps, id, batch)
    requires |Ticks(steps)| >= Eta.CeilDiv(Lookup.QueueDepth(s.jobs), batch)
    requires forall k | 0 <= k < |Ticks(steps)| :: Ticks(steps)[k].now <= now + (k + 1) * tickMs
    ensures var expectedAt := Eta.EstimateExpectedAt(Lookup.QueueDepth(s.jobs), tickMs, batch, medianFetchMs, now);
            var fetchMs := if medianFetchMs > 0.0 then medianFetchMs.Floor else tickMs;
            exists k | 0 <= k < |Ticks(steps)| :: id in Ticks(steps)[k].ids && Ticks(steps)[k].now + fetchMs <= expectedAt
  {
    DueJobIsClaimedInTime(s, steps, id, batch);
    var depth := Lookup.QueueDepth(s.jobs);
    var k :| 0 <= k < Eta.CeilDiv(depth, batch) && id in Ticks(steps)[k].ids;
    Eta.LaterTicksAreLater(k + 1, Eta.TicksUntilMine(depth, batch), tickMs);
  }
}
