/** What holds over whole runs of the refresh queue. */
module QueueRuns {
  import opened Common
  import opened Aging
  import Store
  import opened Jobs
  import opened RefreshOne
  import Lookup
  import opened JobSystem

  // ---------------------------------------------------------------------------------------------
  // Rows that stay as they are.
  // ---------------------------------------------------------------------------------------------

  /** An operator puts the job back or withdraws it. */
  predicate Touches(step: Step, id: JobId) { (step.Retry? || step.Cancel?) && step.id == id }

  predicate Retries(step: Step, id: JobId) { step.Retry? && step.id == id }

  lemma FrozenStepIff(s: Sys, step: Step, id: JobId)
    requires Sound(s) && Enabled(s, step)
    requires id in s.jobs && s.jobs[id].status != Pending && !Held(s, id)
    ensures var s' := Apply(s, step);
            && id in s'.jobs && (s'.jobs[id] == s.jobs[id] <==> !Touches(step, id))
            && (!Touches(step, id) ==> !Held(s', id))
  {
    hide Settled, Audited, Store.Perform, Store.DeleteRepo;
    if step.Claim? {
      ClaimSparesOthers(s, step, id);
    }
  }

  lemma ClaimTakesPendingRows(s: Sys, step: Step, id: JobId)
    requires Sound(s) && Enabled(s, step) && step.Claim? && id in s.jobs && s.jobs[id].status != Pending
    ensures id !in step.ids
  {
    assert forall i | i in step.ids :: i in ToSet(step.ids);
  }

  /** A claim neither changes nor hands out a row that is not pending. */
  lemma ClaimSparesOthers(s: Sys, step: Step, id: JobId)
    requires Sound(s) && Enabled(s, step) && step.Claim? && id in s.jobs && s.jobs[id].status != Pending
    ensures var s' := Apply(s, step);
            && id !in step.ids && id in s'.jobs && s'.jobs[id] == s.jobs[id]
            && (forall k | k in s'.runners && s'.runners[k].job == id :: k in s.runners && s.runners[k] == s'.runners[k])
  {
    ClaimTakesPendingRows(s, step, id);
    hide IsFirstBatch, AddRunners, Claimed, RowsOk, RequestsOk;
    var s' := Apply(s, step);
    assert forall k | k in s'.runners && s.nextRunner <= k < s.nextRunner + |step.ids| ::
      s'.runners[k].job == step.ids[k - s.nextRunner] && s'.runners[k].job in step.ids;
  }

  /** The row reads the same in every state of the run. */
  ghost predicate Unchanged(s: Sys, steps: seq<Step>, id: JobId, row: Job)
    requires Run(s, steps)
    decreases |steps|
  {
    && id in s.jobs && s.jobs[id] == row
    && (steps != [] ==> Unchanged(Apply(s, steps[0]), steps[1..], id, row))
  }

  /**
   A row that is not pending and that nobody holds keeps its every column on a run exactly if no operator puts it
   back or withdraws it, whatever ticks, refreshes, sweeps and lookups do.
   */
  lemma {:induction false} FrozenIff(s: Sys, steps: seq<Step>, id: JobId)
    requires Sound(s) && Run(s, steps)
    requires id in s.jobs && s.jobs[id].status != Pending && !Held(s, id)
    ensures Unchanged(s, steps, id, s.jobs[id]) <==> forall step | step in steps :: !Touches(step, id)
    decreases |steps|
  {
    hide Apply, Enabled, Sound, Held;
    if steps != [] {
      var s' := Apply(s, steps[0]);
      assert steps[0] in steps && forall step | step in steps :: step == steps[0] || step in steps[1..];
      StepKeepsSound(s, steps[0]);
      FrozenStepIff(s, steps[0], id);
      if !Touches(steps[0], id) {
        FrozenIff(s', steps[1..], id);
      } else {
        assert !Unchanged(s', steps[1..], id, s.jobs[id]);
      }
    }
  }

  /** While no job has two holders, a done job has none. */
  lemma DoneIsFree(s: Sys, id: JobId)
    requires Inv(s) && id in s.jobs && s.jobs[id].status == Done
    ensures !Held(s, id)
  {
    forall k | k in s.runners
      ensures s.runners[k].job != id
    {
      assert Holds(s.runners[k], s.jobs);
    }
  }

  lemma {:induction false} UnchangedAtTheEnd(s: Sys, steps: seq<Step>, id: JobId, row: Job)
    requires Run(s, steps) && Unchanged(s, steps, id, row)
    ensures id in After(s, steps).jobs && After(s, steps).jobs[id] == row
    decreases |steps|
  {
    if steps != [] {
      UnchangedAtTheEnd(Apply(s, steps[0]), steps[1..], id, row);
    }
  }

  lemma {:induction false} DoneIsNotTouched(s: Sys, steps: seq<Step>, id: JobId)
    requires Sound(s) && Run(s, steps) && id in s.jobs && s.jobs[id].status == Done && !Held(s, id)
    ensures forall step | step in steps :: !Touches(step, id)
    decreases |steps|
  {
    if steps != [] {
      assert !Touches(steps[0], id);
      StepKeepsSound(s, steps[0]);
      FrozenStepIff(s, steps[0], id);
      hide Apply, Enabled, Sound, Held;
      DoneIsNotTouched(Apply(s, steps[0]), steps[1..], id);
    }
  }

  /** A done row that nobody holds is never written again: both routes refuse it. */
  lemma FreeDoneIsForever(s: Sys, steps: seq<Step>, id: JobId)
    requires Sound(s) && Run(s, steps) && id in s.jobs && s.jobs[id].status == Done && !Held(s, id)
    ensures id in After(s, steps).jobs && After(s, steps).jobs[id] == s.jobs[id]
  {
    hide Apply, Enabled, Sound, Held;
    DoneIsNotTouched(s, steps, id);
    FrozenIff(s, steps, id);
    UnchangedAtTheEnd(s, steps, id, s.jobs[id]);
  }

  /** `done` is final exactly for a job that no runner holds any more, so always while no job has two holders. */
  lemma DoneIsForeverIff(s: Sys, id: JobId)
    requires Sound(s) && id in s.jobs && s.jobs[id].status == Done
    ensures (forall steps: seq<Step> | Run(s, steps) :: id in After(s, steps).jobs && After(s, steps).jobs[id] == s.jobs[id])
            <==> !Held(s, id)
    ensures Inv(s) ==> !Held(s, id)
  {
    if Inv(s) {
      DoneIsFree(s, id);
    }
    if Held(s, id) {
      var k :| k in s.runners && s.runners[k].job == id;
      var step := if s.runners[k].phase == Working then Finish(k, Rejected("")) else EndAudit(k, Overwritten(""));
      assert Apply(s, step).jobs[id].status == Failed;
      Prepend(s, step, []);
      assert Run(s, [step] + []);
    } else {
      forall steps: seq<Step> | Run(s, steps)
        ensures id in After(s, steps).jobs && After(s, steps).jobs[id] == s.jobs[id]
      {
        FreeDoneIsForever(s, steps, id);
      }
    }
  }

  // ---------------------------------------------------------------------------------------------
  // Failed, cancelled and lost jobs.
  // ---------------------------------------------------------------------------------------------

  /** No runner that has yet to update the row holds it. */
  ghost predicate NoWorker(s: Sys, id: JobId) {
    forall k | k in s.runners && s.runners[k].job == id :: s.runners[k].phase == Auditing
  }

  lemma FailedStepIff(s: Sys, step: Step, id: JobId)
    requires Sound(s) && Enabled(s, step) && id in s.jobs && s.jobs[id].status == Failed && NoWorker(s, id)
    ensures var s' := Apply(s, step);
            && id in s'.jobs && (s'.jobs[id].status == Failed <==> !Retries(step, id))
            && (!Retries(step, id) ==> NoWorker(s', id))
  {
    hide Settled, Store.Perform, Store.DeleteRepo;
    if step.Claim? {
      ClaimSparesOthers(s, step, id);
    }
  }

  ghost predicate StaysFailed(s: Sys, steps: seq<Step>, id: JobId)
    requires Run(s, steps)
    decreases |steps|
  {
    && id in s.jobs && s.jobs[id].status == Failed
    && (steps != [] ==> StaysFailed(Apply(s, steps[0]), steps[1..], id))
  }

  /** A failed job whose runner is through stays failed on a run exactly if no operator puts it back. */
  lemma {:induction false} FailedUntilRetriedIff(s: Sys, steps: seq<Step>, id: JobId)
    requires Sound(s) && Run(s, steps) && id in s.jobs && s.jobs[id].status == Failed && NoWorker(s, id)
    ensures StaysFailed(s, steps, id) <==> forall step | step in steps :: !Retries(step, id)
    decreases |steps|
  {
    hide Apply, Enabled, Sound, NoWorker;
    if steps != [] {
      var s' := Apply(s, steps[0]);
      assert steps[0] in steps && forall step | step in steps :: step == steps[0] || step in steps[1..];
      StepKeepsSound(s, steps[0]);
      FailedStepIff(s, steps[0], id);
      if !Retries(steps[0], id) {
        FailedUntilRetriedIff(s', steps[1..], id);
      }
    }
  }

  /**
   Cancelling a job in progress is undone when its refresh ends: the whole system is then as if nobody had
   cancelled, unless the refresh vanishes without updating its row.
   */
  lemma CancelIsOverwritten(s: Sys, rid: RunnerId, outcome: Outcome)
    requires Inv(s) && Enabled(s, Finish(rid, outcome)) && !outcome.Lost? && Enabled(s, Cancel(s.runners[rid].job))
    ensures var s1 := Apply(s, Cancel(s.runners[rid].job));
            Enabled(s1, Finish(rid, outcome)) && Apply(s1, Finish(rid, outcome)) == Apply(s, Finish(rid, outcome))
  {
    var id := s.runners[rid].job;
    var row := s.jobs[id];
    assert Settled(Cancelled(row), s.runners[rid].leased, outcome) == Settled(row, s.runners[rid].leased, outcome);
    hide Settled, Cancelled;
    var after := Settled(row, s.runners[rid].leased, outcome);
    assert s.jobs[id := Cancelled(row)][id := after] == s.jobs[id := after];
  }

  /** No claim of the run takes the job. */
  predicate NeverClaimed(steps: seq<Step>, id: JobId) { forall step | step in steps && step.Claim? :: id !in step.ids }

  lemma UnretriedStep(s: Sys, step: Step, id: JobId)
    requires Sound(s) && Enabled(s, step) && id in s.jobs && s.jobs[id].status in {InProgress, Failed} && !Held(s, id) && !Retries(step, id)
    ensures var s' := Apply(s, step);
            id in s'.jobs && s'.jobs[id].status in {InProgress, Failed} && !Held(s', id)
    ensures step.Claim? ==> id !in step.ids
  {
    FrozenStepIff(s, step, id);
    if step.Claim? {
      ClaimSparesOthers(s, step, id);
    }
    hide Settled, Audited, Store.Perform, Store.DeleteRepo, Sound;
  }

  lemma {:induction false} UnretriedIsNotClaimed(s: Sys, steps: seq<Step>, id: JobId)
    requires Sound(s) && Run(s, steps) && id in s.jobs && s.jobs[id].status in {InProgress, Failed} && !Held(s, id)
    requires forall step | step in steps :: !Retries(step, id)
    ensures NeverClaimed(steps, id)
    ensures id in After(s, steps).jobs && After(s, steps).jobs[id].status in {InProgress, Failed} && !Held(After(s, steps), id)
    decreases |steps|
  {
    hide Apply, Enabled, Sound, Held, Retries;
    if steps != [] {
      assert steps[0] in steps && forall step | step in steps :: step == steps[0] || step in steps[1..];
      StepKeepsSound(s, steps[0]);
      UnretriedStep(s, steps[0], id);
      UnretriedIsNotClaimed(Apply(s, steps[0]), steps[1..], id);
    }
  }

  /**
   A job whose runner vanished without updating it is taken by no claim until an operator puts it back, however
   long its lease has expired; once put back it is eligible at once.
   */
  lemma LostJobIsReclaimedOnlyIfRetried(s: Sys, rid: RunnerId, steps: seq<Step>, now: int)
    requires Inv(s) && Enabled(s, Finish(rid, Lost)) && s.jobs[s.runners[rid].job].status == InProgress
    requires var s1 := Apply(s, Finish(rid, Lost));
             Run(s1, steps) && forall step | step in steps :: !Retries(step, s.runners[rid].job)
    ensures var id, s2 := s.runners[rid].job, After(Apply(s, Finish(rid, Lost)), steps);
            && NeverClaimed(steps, id)
            && Enabled(s2, Retry(id, now)) && id in Eligible(Apply(s2, Retry(id, now)).jobs, now)
  {
    StepKeepsInv(s, Finish(rid, Lost));
    var s1 := Apply(s, Finish(rid, Lost));
    UnretriedIsNotClaimed(s1, steps, s.runners[rid].job);
  }

  /** In every reachable state the lease test of the claim excludes nothing: eligible means pending and due. */
  lemma LeaseTestExcludesNothing(s: Sys, now: int)
    requires Sound(s)
    ensures Eligible(s.jobs, now) == set id | id in s.jobs && s.jobs[id].status == Pending && s.jobs[id].scheduledFor <= now
  {
  }

  /** The rows one step added for a repository. */
  function AddedFor(before: Table, after: Table, slug: Slug): set<JobId> {
    set id | id in after && id !in before && after[id].slug == slug
  }

  lemma AddedAre(before: Table, next: JobId, jobs: seq<Job>, slug: Slug)
    requires forall id | id in before :: id < next
    ensures var after := InsertAll(before, next, jobs);
            && AddedFor(before, after, slug) == PlacesOf(jobs, slug, next)
            && forall id | id in AddedFor(before, after, slug) :: next <= id < next + |jobs| && after[id] == jobs[id - next] && jobs[id - next].slug == slug
  {
    var after := InsertAll(before, next, jobs);
    hide InsertAll;
    forall id
      ensures id in AddedFor(before, after, slug) <==> id in PlacesOf(jobs, slug, next)
    {
      if next <= id < next + |jobs| {
        assert after[id] == jobs[id - next];
      }
    }
  }

  predicate Placed(jobs: seq<Job>, slug: Slug, next: JobId, id: JobId) { next <= id < next + |jobs| && jobs[id - next].slug == slug }

  function PlacesOf(jobs: seq<Job>, slug: Slug, next: JobId): set<JobId> {
    set id | next <= id < next + |jobs| && Placed(jobs, slug, next, id)
  }

  lemma OneOfSlug(jobs: seq<Job>, slug: Slug, next: JobId, n: nat)
    requires forall i, j | 0 <= i < j < |jobs| :: jobs[i].slug != jobs[j].slug
    requires n < |jobs| && jobs[n].slug == slug
    ensures PlacesOf(jobs, slug, next) == {next + n}
  {
    assert Placed(jobs, slug, next, next + n);
  }

  lemma NoneOfSlug(jobs: seq<Job>, slug: Slug, next: JobId)
    requires forall i | 0 <= i < |jobs| :: jobs[i].slug != slug
    ensures PlacesOf(jobs, slug, next) == {}
  {
  }

  /** Nothing ends the sweep between its two statements. */
  ghost predicate SweepWaits(steps: seq<Step>, sid: SweepId) { forall step | step in steps :: !(step.SweepInserts? && step.sid == sid) }

  lemma {:induction false} SelectionWaits(s: Sys, steps: seq<Step>, sid: SweepId)
    requires Run(s, steps) && sid in s.sweeps && SweepWaits(steps, sid)
    ensures sid in After(s, steps).sweeps && After(s, steps).sweeps[sid] == s.sweeps[sid]
    decreases |steps|
  {
    if steps != [] {
      assert steps[0] in steps && forall step | step in steps[1..] :: step in steps;
      SelectionStays(s, steps[0], sid);
      hide Apply, Enabled;
      SelectionWaits(Apply(s, steps[0]), steps[1..], sid);
    }
  }

  lemma SelectionStays(s: Sys, step: Step, sid: SweepId)
    requires Enabled(s, step) && sid in s.sweeps && !(step.SweepInserts? && step.sid == sid)
    ensures sid in Apply(s, step).sweeps && Apply(s, step).sweeps[sid] == s.sweeps[sid]
  {
    hide Settled, Audited, Store.Perform, Store.DeleteRepo, IsFirstBatch, AddRunners, ClaimAll, Selects, InsertAll;
  }

  /**
   What a sweep queues, whatever happens between its select and its insert: one job for each repository whose facet had been
   fetched, too long ago, when the select ran, and nothing else. A facet that was never fetched has no timestamp to
   compare and is never swept.
   */
  lemma SweptIff(s: Sys, read: Step, steps: seq<Step>, slug: Slug)
    requires Sound(s) && Enabled(s, read) && read.SweepReads? && Run(Apply(s, read), steps) && SweepWaits(steps, read.sid)
    ensures var s1 := After(Apply(s, read), steps);
            && Enabled(s1, SweepInserts(read.sid))
            && var s2 := Apply(s1, SweepInserts(read.sid));
            var added, stamp := AddedFor(s1.jobs, s2.jobs, slug), FacetStamp(s.cache, slug, read.swept.kind);
            && |added| == (if stamp.Some? && stamp.value < read.cutoff && s.cache.repos[slug].fetchStatus == Store.Ok then 1 else 0)
            && (forall id | id in added ::
                  s2.jobs[id] == NewJob(slug, read.swept.kind, Some(s.cache.repos[slug].id), SWEEP_PRIORITY, read.swept.at))
  {
    StepKeepsSound(s, read);
    SoundAlongRuns(Apply(s, read), steps);
    SelectionWaits(Apply(s, read), steps, read.sid);
    var s1 := After(Apply(s, read), steps);
    SelectedIff(s, read, slug);
    hide Run, After, Sound, Selects, AddedFor, FacetStamp, SweepJobs;
    SweepAdds(s1, read.swept, slug);
  }

  lemma SweepAdds(s: Sys, swept: Swept, slug: Slug)
    requires Sound(s) && forall i, j | 0 <= i < j < |swept.found| :: swept.found[i].slug != swept.found[j].slug
    ensures var s' := Insert(s, SweepJobs(swept));
            var added := AddedFor(s.jobs, s'.jobs, slug);
            && (|added| == if exists f :: f in swept.found && f.slug == slug then 1 else 0)
            && (forall id | id in added ::
                  exists f ::
                    f in swept.found && f.slug == slug && s'.jobs[id] == NewJob(slug, swept.kind, Some(f.repositoryId), SWEEP_PRIORITY, swept.at))
  {
    var jobs := SweepJobs(swept);
    assert forall i | 0 <= i < |jobs| :: jobs[i].slug == swept.found[i].slug;
    hide InsertAll, AddedFor, PlacesOf, RunnersSound, RequestsOk;
    AddedAre(s.jobs, s.nextJob, jobs, slug);
    if f :| f in swept.found && f.slug == slug {
      var n :| 0 <= n < |swept.found| && swept.found[n] == f;
      OneOfSlug(jobs, slug, s.nextJob, n);
    } else {
      assert forall f | f in swept.found :: f.slug != slug;
      NoneOfSlug(jobs, slug, s.nextJob);
    }
  }

  lemma SelectedIff(s: Sys, read: Step, slug: Slug)
    requires Enabled(s, read) && read.SweepReads?
    ensures var stamp := FacetStamp(s.cache, slug, read.swept.kind);
            (exists f :: f in read.swept.found && f.slug == slug)
            <==> stamp.Some? && stamp.value < read.cutoff && s.cache.repos[slug].fetchStatus == Store.Ok
    ensures forall f | f in read.swept.found && f.slug == slug :: slug in s.cache.repos && f.repositoryId == s.cache.repos[slug].id
    ensures forall i, j | 0 <= i < j < |read.swept.found| :: read.swept.found[i].slug != read.swept.found[j].slug
  {
  }

  function FacetStamp(c: Store.Cache, slug: Slug, kind: Kind): Option<int> {
    if slug !in c.repos then None
    else
      match kind
      case Core => c.repos[slug].lastFetchedAt
      case Releases => c.repos[slug].releasesFetchedAt
      case Branches => c.repos[slug].branchesFetchedAt
  }

  // ---------------------------------------------------------------------------------------------
  // The negative cache.
  // ---------------------------------------------------------------------------------------------

  ghost predicate MarkerAt(s: Sys, id: JobId, slug: Slug) {
    id in s.jobs && Lookup.IsMarker(s.jobs[id], slug)
  }

  /** Neither an audit failure that overwrites the marker with an error of another kind, nor an operator who puts it back. */
  ghost predicate Spares(s: Sys, step: Step, id: JobId)
    requires Enabled(s, step)
  {
    && !Retries(step, id)
    && (step.EndAudit? && s.runners[step.rid].job == id && step.audit.Overwritten? ==> StartsWith(step.audit.error, NOT_FOUND_PREFIX))
  }

  ghost predicate RunSpares(s: Sys, steps: seq<Step>, id: JobId)
    requires Run(s, steps)
    decreases |steps|
  {
    steps != [] ==> Spares(s, steps[0], id) && RunSpares(Apply(s, steps[0]), steps[1..], id)
  }

  /** A step keeps the marker exactly if it spares it. */
  lemma MarkerStepIff(s: Sys, step: Step, id: JobId, slug: Slug)
    requires Sound(s) && Enabled(s, step) && MarkerAt(s, id, slug) && NoWorker(s, id)
    ensures MarkerAt(Apply(s, step), id, slug) <==> Spares(s, step, id)
    ensures Spares(s, step, id) ==> NoWorker(Apply(s, step), id)
  {
    FailedStepIff(s, step, id);
    hide Settled, Store.Perform, Store.DeleteRepo, NoWorker;
    if step.Claim? {
      ClaimSparesOthers(s, step, id);
    }
    if step.Finish? {
      WorkerHoldsAnother(s, step.rid, id);
    }
  }

  lemma WorkerHoldsAnother(s: Sys, rid: RunnerId, id: JobId)
    requires NoWorker(s, id) && rid in s.runners && s.runners[rid].phase == Working
    ensures s.runners[rid].job != id
  {
  }

  /** Lookups of `slug` numbered from `first` on have neither queued a job nor are about to. */
  ghost predicate NoneQueues(s: Sys, slug: Slug, first: LookupId) {
    forall lid | lid in s.requests && lid >= first && s.requests[lid].slug == slug ::
      s.requests[lid].progress in {ReadingRow, ReadingMarker, Answered(SaidOk), Answered(SaidNotFound)}
  }

  /** No step of the run is the insert of such a lookup. */
  ghost predicate NoInsertBy(s: Sys, steps: seq<Step>, slug: Slug, first: LookupId)
    requires Run(s, steps)
    decreases |steps|
  {
    steps != [] ==>
      && (steps[0].Enqueue? && steps[0].lid >= first ==> s.requests[steps[0].lid].slug != slug)
      && NoInsertBy(Apply(s, steps[0]), steps[1..], slug, first)
  }

  lemma NoneQueuesStep(s: Sys, step: Step, id: JobId, slug: Slug, first: LookupId)
    requires Sound(s) && Enabled(s, step) && MarkerAt(s, id, slug) && NoneQueues(s, slug, first)
    ensures NoneQueues(Apply(s, step), slug, first)
    ensures step.Enqueue? && step.lid >= first ==> s.requests[step.lid].slug != slug
  {
    hide Settled, Audited, Store.Perform, Store.DeleteRepo, RowsOk, RunnersSound;
    assert Lookup.Marked(s.jobs, slug);
  }

  lemma {:induction false} NoneQueuesAlongRuns(s: Sys, steps: seq<Step>, id: JobId, slug: Slug, first: LookupId)
    requires Sound(s) && Run(s, steps) && RunSpares(s, steps, id) && NoWorker(s, id)
    requires MarkerAt(s, id, slug) && NoneQueues(s, slug, first)
    ensures MarkerAt(After(s, steps), id, slug)
    ensures NoneQueues(After(s, steps), slug, first)
    ensures NoInsertBy(s, steps, slug, first)
    decreases |steps|
  {
    hide Apply, Enabled, Sound, NoWorker, MarkerAt, NoneQueues;
    if steps != [] {
      StepKeepsSound(s, steps[0]);
      MarkerStepIff(s, steps[0], id, slug);
      NoneQueuesStep(s, steps[0], id, slug, first);
      NoneQueuesAlongRuns(Apply(s, steps[0]), steps[1..], id, slug, first);
    }
  }

  /**
   Once a 404 transaction has committed, no lookup of that repository that begins later ever inserts a
   job, on any run of lookups, claims, refreshes, sweeps and enqueues on which the marker is neither
   overwritten nor put back: such a lookup is still reading, or has answered ok or not_found.
   */
  lemma NegativeCacheHolds(s: Sys, rid: RunnerId, outcome: Outcome, steps: seq<Step>)
    requires Inv(s) && outcome.Gone? && Enabled(s, Finish(rid, outcome))
    requires var s1 := Apply(s, Finish(rid, outcome)); Run(s1, steps) && RunSpares(s1, steps, s.runners[rid].job)
    ensures var s1 := Apply(s, Finish(rid, outcome));
            var slug := s.runners[rid].leased.slug;
            && slug !in s1.cache.repos
            && Lookup.Marked(After(s1, steps).jobs, slug)
            && NoneQueues(After(s1, steps), slug, s1.nextRequest)
            && NoInsertBy(s1, steps, slug, s1.nextRequest)
  {
    var s1, id := Apply(s, Finish(rid, outcome)), s.runners[rid].job;
    var slug := s.runners[rid].leased.slug;
    StepKeepsInv(s, Finish(rid, outcome));
    assert MarkerAt(s1, id, slug) && NoWorker(s1, id) && NoneQueues(s1, slug, s1.nextRequest);
    NoneQueuesAlongRuns(s1, steps, id, slug, s1.nextRequest);
  }

  /** The repository has no `ok` row in any state of the run. */
  ghost predicate NeverOk(s: Sys, steps: seq<Step>, slug: Slug)
    requires Run(s, steps)
    decreases |steps|
  {
    && (slug in s.cache.repos ==> s.cache.repos[slug].fetchStatus != Store.Ok)
    && (steps != [] ==> NeverOk(Apply(s, steps[0]), steps[1..], slug))
  }

  ghost predicate NoneSaidOk(s: Sys, slug: Slug, first: LookupId) {
    forall lid | lid in s.requests && lid >= first && s.requests[lid].slug == slug :: s.requests[lid].progress != Answered(SaidOk)
  }

  lemma {:induction false} NoneSaysOkAlongRuns(s: Sys, steps: seq<Step>, slug: Slug, first: LookupId)
    requires Sound(s) && Run(s, steps) && NeverOk(s, steps, slug) && NoneSaidOk(s, slug, first)
    ensures NoneSaidOk(After(s, steps), slug, first)
    decreases |steps|
  {
    if steps != [] {
      StepKeepsSound(s, steps[0]);
      var s' := Apply(s, steps[0]);
      assert NoneSaidOk(s', slug, first) by {
        match steps[0] {
          case ReadRow(lid) =>
          case _ =>
        }
      }
      NoneSaysOkAlongRuns(s', steps[1..], slug, first);
    }
  }

  /** Unless an `ok` row reappears, every finished later lookup has answered not_found. */
  lemma LaterAnswersAreNotFound(s: Sys, steps: seq<Step>, id: JobId, slug: Slug, lid: LookupId)
    requires Sound(s) && MarkerAt(s, id, slug) && NoWorker(s, id)
    requires Run(s, steps) && RunSpares(s, steps, id) && NeverOk(s, steps, slug)
    requires var s' := After(s, steps);
             lid in s'.requests && lid >= s.nextRequest && s'.requests[lid].slug == slug && s'.requests[lid].progress.Answered?
    ensures After(s, steps).requests[lid].progress == Answered(SaidNotFound)
  {
    NoneQueuesAlongRuns(s, steps, id, slug, s.nextRequest);
    NoneSaysOkAlongRuns(s, steps, slug, s.nextRequest);
  }

  /** Putting a step in front of a run. */
  lemma Prepend(s: Sys, step: Step, steps: seq<Step>)
    requires Enabled(s, step) && Run(Apply(s, step), steps)
    ensures Run(s, [step] + steps) && After(s, [step] + steps) == After(Apply(s, step), steps)
  {
    assert ([step] + steps)[1..] == steps;
  }

  lemma PrependFour(s: Sys, a: Step, b: Step, c: Step, d: Step, rest: seq<Step>)
    requires Enabled(s, a) && Enabled(Apply(s, a), b)
    requires var s2 := Apply(Apply(s, a), b); Enabled(s2, c) && Enabled(Apply(s2, c), d) && Run(Apply(Apply(s2, c), d), rest)
    ensures var steps := [a] + ([b] + ([c] + ([d] + rest)));
            Run(s, steps) && After(s, steps) == After(Apply(Apply(Apply(Apply(s, a), b), c), d), rest)
  {
    hide Apply, Enabled;
    var s1 := Apply(s, a);
    var s2 := Apply(s1, b);
    var s3 := Apply(s2, c);
    Prepend(s3, d, rest);
    Prepend(s2, c, [d] + rest);
    Prepend(s1, b, [c] + ([d] + rest));
    Prepend(s, a, [b] + ([c] + ([d] + rest)));
  }

  /** A full fetch of the repository is queued. */
  ghost predicate FullFetchPending(rows: Table, slug: Slug) {
    exists id | id in rows :: Lookup.PendingFor(rows[id], slug) && rows[id].kind == Core
  }

  function LookupSteps(lid: LookupId, slug: Slug, now: int): seq<Step> {
    [BeginLookup(slug)] + ([ReadRow(lid)] + ([ReadMarker(lid)] + ([Enqueue(lid, now, SaidPending)] + [])))
  }

  /** The lookup finds neither row nor marker. */
  lemma LookupReads(s: Sys, slug: Slug)
    requires !Lookup.Marked(s.jobs, slug)
    requires slug in s.cache.repos ==> s.cache.repos[slug].fetchStatus !in {Store.Ok, Store.NotFound}
    ensures var lid := s.nextRequest;
            && Enabled(s, BeginLookup(slug))
            && var s1 := Apply(s, BeginLookup(slug));
            && Enabled(s1, ReadRow(lid))
            && var s2 := Apply(s1, ReadRow(lid));
            && Enabled(s2, ReadMarker(lid))
            && Apply(s2, ReadMarker(lid)) == s.(requests := s.requests[lid := Request(slug, Enqueuing)], nextRequest := lid + 1)
  {
  }

  lemma EnqueueAdds(s: Sys, lid: LookupId, now: int)
    requires lid in s.requests && s.requests[lid].progress == Enqueuing
    ensures var slug := s.requests[lid].slug;
            && Enabled(s, Enqueue(lid, now, SaidPending))
            && var rows := Apply(s, Enqueue(lid, now, SaidPending)).jobs;
            && rows == (if Lookup.HasPending(s.jobs, slug) then s.jobs else s.jobs[s.nextJob := Lookup.LookupJob(slug, now)])
            && Lookup.HasPending(rows, slug)
  {
    var slug := s.requests[lid].slug;
    var rows := Apply(s, Enqueue(lid, now, SaidPending)).jobs;
    if !Lookup.HasPending(s.jobs, slug) {
      assert Lookup.PendingFor(rows[s.nextJob], slug);
    }
  }

  /**
   Without a marker and without an `ok` or `not_found` row, a lookup that runs alone leaves a pending job behind: a new one
   exactly if there was none.
   */
  lemma UnmarkedLookupQueues(s: Sys, slug: Slug, now: int)
    requires !Lookup.Marked(s.jobs, slug)
    requires slug in s.cache.repos ==> s.cache.repos[slug].fetchStatus !in {Store.Ok, Store.NotFound}
    ensures Run(s, LookupSteps(s.nextRequest, slug, now))
    ensures var s' := After(s, LookupSteps(s.nextRequest, slug, now));
            && Lookup.HasPending(s'.jobs, slug)
            && s'.jobs == (if Lookup.HasPending(s.jobs, slug) then s.jobs else s.jobs[s.nextJob := Lookup.LookupJob(slug, now)])
  {
    var lid := s.nextRequest;
    var s3 := s.(requests := s.requests[lid := Request(slug, Enqueuing)], nextRequest := lid + 1);
    LookupReads(s, slug);
    EnqueueAdds(s3, lid, now);
    hide Apply, Enabled;
    PrependFour(s, BeginLookup(slug), ReadRow(lid), ReadMarker(lid), Enqueue(lid, now, SaidPending), []);
  }

  /** The lookups that find an answer: an `ok` row is served, a `not_found` row or a marker says so, and nothing is queued. */
  lemma KnownLookupAnswers(s: Sys, slug: Slug)
    requires Lookup.Marked(s.jobs, slug) || (slug in s.cache.repos && s.cache.repos[slug].fetchStatus in {Store.Ok, Store.NotFound})
    ensures var lid, known := s.nextRequest, slug in s.cache.repos && s.cache.repos[slug].fetchStatus in {Store.Ok, Store.NotFound};
            var steps := if known then [BeginLookup(slug)] + ([ReadRow(lid)] + []) else [BeginLookup(slug)] + ([ReadRow(lid)] + ([ReadMarker(lid)] + []));
            && Run(s, steps)
            && var s' := After(s, steps);
            && s'.jobs == s.jobs && s'.cache == s.cache && lid in s'.requests
            && s'.requests[lid] == Request(slug, Answered(
                 if slug in s.cache.repos && s.cache.repos[slug].fetchStatus == Store.Ok then SaidOk else SaidNotFound))
  {
    var lid := s.nextRequest;
    var s1 := Apply(s, BeginLookup(slug));
    var s2 := Apply(s1, ReadRow(lid));
    if slug in s.cache.repos && s.cache.repos[slug].fetchStatus in {Store.Ok, Store.NotFound} {
      Prepend(s1, ReadRow(lid), []);
      Prepend(s, BeginLookup(slug), [ReadRow(lid)] + []);
    } else {
      Prepend(s2, ReadMarker(lid), []);
      Prepend(s1, ReadRow(lid), [ReadMarker(lid)] + []);
      Prepend(s, BeginLookup(slug), [ReadRow(lid)] + ([ReadMarker(lid)] + []));
    }
  }

  /**
   A pending job of any kind counts for a lookup, so a full fetch is queued after it exactly if one was before, or no job
   was: a pending facet job alone answers the lookup and fetches no repository.
   */
  lemma LookupQueuesFullFetchIff(s: Sys, slug: Slug, now: int)
    requires s.nextJob !in s.jobs && !Lookup.Marked(s.jobs, slug)
    requires slug in s.cache.repos ==> s.cache.repos[slug].fetchStatus !in {Store.Ok, Store.NotFound}
    ensures Run(s, LookupSteps(s.nextRequest, slug, now))
    ensures FullFetchPending(After(s, LookupSteps(s.nextRequest, slug, now)).jobs, slug)
            <==> FullFetchPending(s.jobs, slug) || !Lookup.HasPending(s.jobs, slug)
  {
    UnmarkedLookupQueues(s, slug, now);
    hide Run, After, LookupSteps;
    var job := Lookup.LookupJob(slug, now);
    if !Lookup.HasPending(s.jobs, slug) {
      var after := s.jobs[s.nextJob := job];
      assert after[s.nextJob] == job && Lookup.PendingFor(after[s.nextJob], slug) && job.kind == Core;
    }
  }

  function LostMarkerSteps(slug: Slug): seq<Step> {
    [ManualEnqueue(slug, 0, 0)] + ([Claim([0], 1, 0)] + ([Finish(0, Gone(FAR_FUTURE_MS, "not_found: 404 gone"))]
    + ([EndAudit(0, Overwritten("connection lost"))] + LookupSteps(0, slug, 1))))
  }

  /**
   The hypothesis on audit failures is needed. From the empty queue: a job is enqueued, claimed, finds the
   repository gone and commits; its audit insert fails and the catch overwrites the marker; the next
   lookup queues the repository again.
   */
  lemma AuditFailureReopensTheQueue(slug: Slug)
    ensures Run(START, LostMarkerSteps(slug))
    ensures Lookup.HasPending(After(START, LostMarkerSteps(slug)).jobs, slug)
  {
    FirstClaim(slug);
    var gone, lost := Finish(0, Gone(FAR_FUTURE_MS, "not_found: 404 gone")), EndAudit(0, Overwritten("connection lost"));
    assert NOT_FOUND_PREFIX == "not_found: 404 gone"[..10];
    assert "connection lost"[0] != NOT_FOUND_PREFIX[0];
    var s1 := Apply(START, ManualEnqueue(slug, 0, 0));
    var s2 := AfterFirstClaim(slug);
    var s3 := Apply(s2, gone);
    var s4 := Apply(s3, lost);
    UnmarkedLookupQueues(s4, slug, 1);
    PrependFour(START, ManualEnqueue(slug, 0, 0), Claim([0], 1, 0), gone, lost, LookupSteps(0, slug, 1));
  }

  function AfterFirstClaim(slug: Slug): Sys {
    var row := Claimed(ManualJob(slug, 0, 0), 0);
    START.(jobs := map[0 := row], nextJob := 1, runners := map[0 := Runner(0, row, Working)], nextRunner := 1)
  }

  lemma FirstClaim(slug: Slug)
    ensures Enabled(START, ManualEnqueue(slug, 0, 0))
    ensures var s1 := Apply(START, ManualEnqueue(slug, 0, 0));
            Enabled(s1, Claim([0], 1, 0)) && Apply(s1, Claim([0], 1, 0)) == AfterFirstClaim(slug)
  {
    var s1 := Apply(START, ManualEnqueue(slug, 0, 0));
    assert s1.jobs == map[0 := ManualJob(slug, 0, 0)];
    assert Eligible(s1.jobs, 0) == {0} == ToSet([0]);
    var s2 := Apply(s1, Claim([0], 1, 0));
    assert s2.jobs == map[0 := Claimed(ManualJob(slug, 0, 0), 0)];
    assert s2.runners == map[0 := Runner(0, s2.jobs[0], Working)];
  }

  const GONE := "not_found: 404 gone"

  function RetriedMarkerSteps(slug: Slug): seq<Step> {
    [ManualEnqueue(slug, 0, 0)] + ([Claim([0], 1, 0)] + ([Finish(0, Gone(FAR_FUTURE_MS, GONE))] + ([EndAudit(0, Quiet)]
    + ([Retry(0, 1)] + ([Claim([0], 1, 1)] + LookupSteps(0, slug, 1))))))
  }

  function GoneJob(slug: Slug): Job {
    var leased := Claimed(ManualJob(slug, 0, 0), 0);
    Settled(leased, leased, Gone(FAR_FUTURE_MS, GONE))
  }

  /** Nothing but that job. */
  function OnlyJob(job: Job): Sys { START.(jobs := map[0 := job], nextJob := 1, nextRunner := 1) }

  /** A job is enqueued, claimed and finds its repository gone. */
  lemma GoneAndAudited(slug: Slug)
    ensures var enqueue, claim, gone, quiet := ManualEnqueue(slug, 0, 0), Claim([0], 1, 0), Finish(0, Gone(FAR_FUTURE_MS, GONE)), EndAudit(0, Quiet);
            && Enabled(START, enqueue) && Enabled(Apply(START, enqueue), claim)
            && var s2 := Apply(Apply(START, enqueue), claim);
            && Enabled(s2, gone) && Enabled(Apply(s2, gone), quiet) && Apply(Apply(s2, gone), quiet) == OnlyJob(GoneJob(slug))
  {
    FirstClaim(slug);
    assert NOT_FOUND_PREFIX == GONE[..10];
    hide IsFirstBatch, AddRunners, ClaimAll;
    var s3 := Apply(AfterFirstClaim(slug), Finish(0, Gone(FAR_FUTURE_MS, GONE)));
    assert s3.jobs == map[0 := GoneJob(slug)];
  }

  /**
   So is the hypothesis on operators. The marker is put back and claimed again; while that refresh runs, the next
   lookup finds no marker and no pending job, and queues the repository a second time.
   */
  lemma RetryOfMarkerReopensTheQueue(slug: Slug)
    ensures Run(START, RetriedMarkerSteps(slug))
    ensures var s' := After(START, RetriedMarkerSteps(slug));
            Lookup.HasPending(s'.jobs, slug) && 0 in s'.jobs && s'.jobs[0].status == InProgress
  {
    var gone, quiet, retry, claim := Finish(0, Gone(FAR_FUTURE_MS, GONE)), EndAudit(0, Quiet), Retry(0, 1), Claim([0], 1, 1);
    GoneAndAudited(slug);
    var s4 := OnlyJob(GoneJob(slug));
    var s5 := Apply(s4, retry);
    SoloClaim(s5, 0, 1);
    var s6 := Apply(s5, claim);
    assert !Lookup.Marked(s6.jobs, slug);
    UnmarkedLookupQueues(s6, slug, 1);
    hide IsFirstBatch, AddRunners, ClaimAll;
    Prepend(s5, claim, LookupSteps(0, slug, 1));
    Prepend(s4, retry, [claim] + LookupSteps(0, slug, 1));
    PrependFour(START, ManualEnqueue(slug, 0, 0), Claim([0], 1, 0), gone, quiet, [retry] + ([claim] + LookupSteps(0, slug, 1)));
  }

  /** The only job of a table, when due, is the first batch of one. */
  lemma SoloClaim(s: Sys, id: JobId, now: int)
    requires s.jobs.Keys == {id} && Due(s.jobs[id], now)
    ensures Enabled(s, Claim([id], 1, now))
    ensures Apply(s, Claim([id], 1, now)).jobs == map[id := Claimed(s.jobs[id], now)]
    ensures Apply(s, Claim([id], 1, now)).runners == s.runners[s.nextRunner := Runner(id, Claimed(s.jobs[id], now), Working)]
    ensures Apply(s, Claim([id], 1, now)).nextRunner == s.nextRunner + 1
  {
    assert Eligible(s.jobs, now) == {id} == ToSet([id]);
    var s' := Apply(s, Claim([id], 1, now));
    assert s'.jobs == map[id := Claimed(s.jobs[id], now)];
    assert s'.runners == s.runners[s.nextRunner := Runner(id, Claimed(s.jobs[id], now), Working)];
  }
}
