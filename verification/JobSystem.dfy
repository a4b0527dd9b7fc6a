/**
 The refresh queue as a step system. A step is one atomic database statement or transaction, or one
 move of a request between them; steps of overlapping ticks, of lookups and of enqueuers interleave
 freely. A runner is one refreshOne call in flight, with the job row its claim returned; it may write any number of times,
 so a full store is one `Write`, or three with anything in between.
 */
module JobSystem {
  import opened Common
  import Aging
  import Store
  import opened Jobs
  import opened RefreshOne
  import Lookup

  const MANUAL_REFRESH_PRIORITY := 10
  const SWEEP_PRIORITY := 99

  type RunnerId = nat
  type LookupId = nat
  type SweepId = nat

  /** `Working` until the job row is updated; `Auditing` while an audit insert is still awaited. */
  datatype Phase = Working | Auditing

  datatype Runner = Runner(job: JobId, leased: Job, phase: Phase)

  datatype Answer = SaidOk | SaidNotFound | SaidPending | SaidError

  /** Where a lookup stands between its separate reads. */
  datatype Progress = ReadingRow | ReadingMarker | Enqueuing | Answered(answer: Answer)

  datatype Request = Request(slug: Slug, progress: Progress)

  datatype Found = Found(slug: Slug, repositoryId: nat)

  /** What a sweep has selected and is about to insert. */
  datatype Swept = Swept(kind: Kind, found: seq<Found>, at: int)

  datatype Sys = Sys(
    jobs: Table, nextJob: JobId, cache: Store.Cache,
    runners: map<RunnerId, Runner>, nextRunner: RunnerId,
    requests: map<LookupId, Request>, nextRequest: LookupId,
    sweeps: map<SweepId, Swept>)

  const START := Sys(map[], 0, Store.EMPTY, map[], 0, map[], 0, map[])

  datatype Step =
    | Claim(ids: seq<JobId>, batch: nat, now: int)
    | Write(rid: RunnerId, op: Store.WriteOp)
    | Finish(rid: RunnerId, outcome: Outcome)
    | EndAudit(rid: RunnerId, audit: Audit)
    | ManualEnqueue(slug: Slug, repositoryId: nat, now: int)
    | SweepReads(sid: SweepId, swept: Swept, cutoff: int)
    | SweepInserts(sid: SweepId)
    | BeginLookup(slug: Slug)
    | ReadRow(lid: LookupId)
    | ReadMarker(lid: LookupId)
    | Enqueue(lid: LookupId, now: int, answer: Answer)
    | EnqueueFails(lid: LookupId)
    | Retry(id: JobId, now: int)
    | Cancel(id: JobId)

  /** The freshness test of one sweep; a missing timestamp never compares as older. */
  predicate SweepSelects(repo: Store.Repo, kind: Kind, cutoff: int) {
    && repo.fetchStatus == Store.Ok
    && match kind
       case Core => repo.lastFetchedAt.Some? && repo.lastFetchedAt.value < cutoff
       case Releases => repo.releasesFetchedAt.Some? && repo.releasesFetchedAt.value < cutoff
       case Branches => repo.branchesFetchedAt.Some? && repo.branchesFetchedAt.value < cutoff
  }

  /** The select: every repository that matches, once, with its id. */
  ghost predicate Selects(c: Store.Cache, swept: Swept, cutoff: int) {
    && (forall i, j | 0 <= i < j < |swept.found| :: swept.found[i].slug != swept.found[j].slug)
    && (forall f | f in swept.found :: f.slug in c.repos && SweepSelects(c.repos[f.slug], swept.kind, cutoff) && f.repositoryId == c.repos[f.slug].id)
    && (forall t | t in c.repos && SweepSelects(c.repos[t], swept.kind, cutoff) :: Found(t, c.repos[t].id) in swept.found)
  }

  function SweepJobs(swept: Swept): seq<Job> {
    seq(|swept.found|, i requires 0 <= i < |swept.found| =>
      NewJob(swept.found[i].slug, swept.kind, Some(swept.found[i].repositoryId), SWEEP_PRIORITY, swept.at))
  }

  function ManualJob(slug: Slug, repositoryId: nat, now: int): Job {
    NewJob(slug, Core, Some(repositoryId), MANUAL_REFRESH_PRIORITY, now)
  }

  /** What the three enqueuers insert, in columns. */
  lemma EnqueuedInColumns(slug: Slug, repositoryId: nat, now: int, swept: Swept, i: nat)
    requires i < |swept.found|
    ensures ManualJob(slug, repositoryId, now) == Job(slug, Core, Some(repositoryId), 10, now, Pending, 0, None, None, now)
    ensures Lookup.LookupJob(slug, now) == Job(slug, Core, None, 70, now, Pending, 0, None, None, now)
    ensures |SweepJobs(swept)| == |swept.found|
    ensures var f := swept.found[i];
            SweepJobs(swept)[i] == Job(f.slug, swept.kind, Some(f.repositoryId), 99, swept.at, Pending, 0, None, None, swept.at)
  {
  }

  /** A row whose priority is a sweep's is taken by no claim that leaves a due lookup's, nor a lookup's by one that leaves a due operator's. */
  lemma PeopleComeFirst(s: Sys, ids: seq<JobId>, batch: nat, now: int, taken: JobId, left: JobId)
    requires Enabled(s, Claim(ids, batch, now)) && taken in ids
    requires left in s.jobs && left !in ids && s.jobs[left].status == Pending && s.jobs[left].scheduledFor <= now && s.jobs[left].lockedUntil.None?
    ensures s.jobs[left].priority == ManualJob(s.jobs[left].slug, 0, now).priority ==>
              s.jobs[taken].priority !in {Lookup.LookupJob(s.jobs[taken].slug, now).priority, SWEEP_PRIORITY}
    ensures s.jobs[left].priority == Lookup.LookupJob(s.jobs[left].slug, now).priority ==> s.jobs[taken].priority != SWEEP_PRIORITY
  {
    ClaimInColumns(s.jobs, now, batch, ToSet(ids));
    assert taken in ToSet(ids) && left !in ToSet(ids);
  }

  function AddRunners(runners: map<RunnerId, Runner>, next: RunnerId, ids: seq<JobId>, rows: Table): (r: map<RunnerId, Runner>)
    requires forall i | i in ids :: i in rows
    ensures forall k :: k in r <==> k in runners || next <= k < next + |ids|
    ensures forall k | next <= k < next + |ids| :: r[k] == Runner(ids[k - next], rows[ids[k - next]], Working)
    ensures forall k | k in runners && !(next <= k < next + |ids|) :: r[k] == runners[k]
    decreases |ids|
  {
    if ids == [] then runners
    else AddRunners(runners[next := Runner(ids[0], rows[ids[0]], Working)], next + 1, ids[1..], rows)
  }

  ghost predicate Enabled(s: Sys, step: Step) {
    match step
    case Claim(ids, batch, now) =>
      NoRepeats(ids) && (forall i | i in ids :: i in s.jobs) && IsFirstBatch(s.jobs, now, batch, ToSet(ids))
    case Write(rid, op) =>
      && rid in s.runners && s.runners[rid].phase == Working
      && !op.Delete? && op.slug == s.runners[rid].leased.slug
    case Finish(rid, outcome) =>
      && rid in s.runners && s.runners[rid].phase == Working && s.runners[rid].job in s.jobs
      && (outcome.Gone? ==> StartsWith(outcome.error, NOT_FOUND_PREFIX))
    case EndAudit(rid, audit) =>
      rid in s.runners && s.runners[rid].phase == Auditing && s.runners[rid].job in s.jobs
    case ManualEnqueue(_, _, _) => true
    case SweepReads(sid, swept, cutoff) => sid !in s.sweeps && Selects(s.cache, swept, cutoff)
    case SweepInserts(sid) => sid in s.sweeps
    case BeginLookup(_) => true
    case ReadRow(lid) => lid in s.requests && s.requests[lid].progress == ReadingRow
    case ReadMarker(lid) => lid in s.requests && s.requests[lid].progress == ReadingMarker
    case Enqueue(lid, _, answer) => lid in s.requests && s.requests[lid].progress == Enqueuing && answer in {SaidPending, SaidError}
    case EnqueueFails(lid) => lid in s.requests && s.requests[lid].progress == Enqueuing
    case Retry(id, _) => id in s.jobs && Retryable(s.jobs[id])
    case Cancel(id) => id in s.jobs && Cancellable(s.jobs[id])
  }

  function Insert(s: Sys, jobs: seq<Job>): Sys {
    s.(jobs := InsertAll(s.jobs, s.nextJob, jobs), nextJob := s.nextJob + |jobs|)
  }

  function Advance(s: Sys, lid: LookupId, p: Progress): Sys
    requires lid in s.requests
  {
    s.(requests := s.requests[lid := s.requests[lid].(progress := p)])
  }

  /** The runner's job row after `outcome`, and the cache row if the outcome is a committed 404. */
  function FinishJob(s: Sys, rid: RunnerId, outcome: Outcome): Sys
    requires rid in s.runners && s.runners[rid].job in s.jobs
  {
    var r := s.runners[rid];
    s.(jobs := s.jobs[r.job := Settled(s.jobs[r.job], r.leased, outcome)],
       cache := if outcome.Gone? then Store.DeleteRepo(s.cache, r.leased.slug) else s.cache,
       runners := if AwaitsAudit(r.leased, outcome) then s.runners[rid := r.(phase := Auditing)] else s.runners - {rid})
  }

  ghost function Apply(s: Sys, step: Step): Sys
    requires Enabled(s, step)
  {
    match step
    case Claim(ids, batch, now) =>
      var rows := ClaimAll(s.jobs, ToSet(ids), now);
      s.(jobs := rows, runners := AddRunners(s.runners, s.nextRunner, ids, rows), nextRunner := s.nextRunner + |ids|)
    case Write(rid, op) => s.(cache := Store.Perform(s.cache, op).cache)
    case Finish(rid, outcome) => FinishJob(s, rid, outcome)
    case EndAudit(rid, audit) =>
      var r := s.runners[rid];
      s.(jobs := s.jobs[r.job := Audited(s.jobs[r.job], audit)], runners := s.runners - {rid})
    case ManualEnqueue(slug, repositoryId, now) => Insert(s, [ManualJob(slug, repositoryId, now)])
    case SweepReads(sid, swept, _) => s.(sweeps := s.sweeps[sid := swept])
    case SweepInserts(sid) => Insert(s, SweepJobs(s.sweeps[sid])).(sweeps := s.sweeps - {sid})
    case BeginLookup(slug) =>
      s.(requests := s.requests[s.nextRequest := Request(slug, ReadingRow)], nextRequest := s.nextRequest + 1)
    case ReadRow(lid) =>
      var slug := s.requests[lid].slug;
      Advance(s, lid,
        if slug in s.cache.repos && s.cache.repos[slug].fetchStatus == Store.Ok then Answered(SaidOk)
        else if slug in s.cache.repos && s.cache.repos[slug].fetchStatus == Store.NotFound then Answered(SaidNotFound)
        else ReadingMarker)
    case ReadMarker(lid) =>
      Advance(s, lid, if Lookup.Marked(s.jobs, s.requests[lid].slug) then Answered(SaidNotFound) else Enqueuing)
    case Enqueue(lid, now, answer) =>
      var slug := s.requests[lid].slug;
      var s' := if Lookup.HasPending(s.jobs, slug) then s else Insert(s, [Lookup.LookupJob(slug, now)]);
      Advance(s', lid, Answered(answer))
    case EnqueueFails(lid) => Advance(s, lid, Answered(SaidError))
    case Retry(id, now) => s.(jobs := s.jobs[id := Retried(s.jobs[id], now)])
    case Cancel(id) => s.(jobs := s.jobs[id := Cancelled(s.jobs[id])])
  }

  /** The steps that are one statement from outside, in columns: an operator's enqueue, retry and cancel, and an enqueue that fails. */
  lemma OutsideStepsInColumns(s: Sys, id: JobId, slug: Slug, repositoryId: nat, now: int, lid: LookupId)
    ensures Apply(s, ManualEnqueue(slug, repositoryId, now))
            == s.(jobs := s.jobs[s.nextJob := Job(slug, Core, Some(repositoryId), 10, now, Pending, 0, None, None, now)], nextJob := s.nextJob + 1)
    ensures Enabled(s, Retry(id, now)) <==> id in s.jobs && s.jobs[id].status !in {Pending, Done}
    ensures Enabled(s, Retry(id, now)) ==>
              Apply(s, Retry(id, now))
              == s.(jobs := s.jobs[id := s.jobs[id].(status := Pending, scheduledFor := now, lastError := None, lockedUntil := None)])
    ensures Enabled(s, Cancel(id)) <==> id in s.jobs && s.jobs[id].status !in {Done, Failed}
    ensures Enabled(s, Cancel(id)) ==>
              Apply(s, Cancel(id)) == s.(jobs := s.jobs[id := s.jobs[id].(status := Failed, lastError := Some("cancelled by admin"), lockedUntil := None)])
    ensures lid in s.requests && s.requests[lid].progress == Enqueuing ==>
              && Enabled(s, EnqueueFails(lid))
              && Apply(s, EnqueueFails(lid)) == s.(requests := s.requests[lid := Request(s.requests[lid].slug, Answered(SaidError))])
  {
    RoutesInColumns(if id in s.jobs then s.jobs[id] else NewJob(slug, Core, None, 0, now), now);
    assert InsertAll(s.jobs, s.nextJob, [ManualJob(slug, repositoryId, now)]) == s.jobs[s.nextJob := ManualJob(slug, repositoryId, now)];
  }

  ghost predicate Run(s: Sys, steps: seq<Step>)
    decreases |steps|
  {
    steps != [] ==> Enabled(s, steps[0]) && Run(Apply(s, steps[0]), steps[1..])
  }

  ghost function After(s: Sys, steps: seq<Step>): Sys
    requires Run(s, steps)
    decreases |steps|
  {
    if steps == [] then s else After(Apply(s, steps[0]), steps[1..])
  }

  // ---------------------------------------------------------------------------------------------
  // What holds on every run.
  // ---------------------------------------------------------------------------------------------

  /** A row is locked exactly while it is in progress. */
  ghost predicate RowsOk(s: Sys) {
    forall id | id in s.jobs :: id < s.nextJob && (s.jobs[id].lockedUntil.Some? <==> s.jobs[id].status == InProgress)
  }

  ghost predicate RunnersSound(s: Sys) {
    forall k | k in s.runners ::
      && k < s.nextRunner && s.runners[k].job in s.jobs
      && s.jobs[s.runners[k].job].slug == s.runners[k].leased.slug && s.runners[k].leased.status == InProgress
  }

  ghost predicate RequestsOk(s: Sys) { forall lid | lid in s.requests :: lid < s.nextRequest }

  ghost predicate Sound(s: Sys) { RowsOk(s) && RunnersSound(s) && RequestsOk(s) }

  lemma InsertKeepsSound(s: Sys, jobs: seq<Job>)
    requires Sound(s)
    requires forall j | 0 <= j < |jobs| :: jobs[j].status == Pending && jobs[j].lockedUntil == None
    ensures Sound(Insert(s, jobs))
  {
  }

  lemma ClaimKeepsSound(s: Sys, ids: seq<JobId>, batch: nat, now: int)
    requires Sound(s) && Enabled(s, Claim(ids, batch, now))
    ensures Sound(Apply(s, Claim(ids, batch, now)))
  {
    hide IsFirstBatch, AddRunners;
    var s' := Apply(s, Claim(ids, batch, now));
    forall k | k in s'.runners && k >= s.nextRunner
      ensures s'.runners[k] == Runner(ids[k - s.nextRunner], s'.jobs[ids[k - s.nextRunner]], Working) && ids[k - s.nextRunner] in ToSet(ids)
    {
    }
  }

  lemma FinishKeepsSound(s: Sys, rid: RunnerId, outcome: Outcome)
    requires Sound(s) && Enabled(s, Finish(rid, outcome))
    ensures Sound(Apply(s, Finish(rid, outcome)))
  {
    SettledShape(s.jobs[s.runners[rid].job], s.runners[rid].leased, outcome);
    hide Settled, Store.DeleteRepo;
  }

  /** An outcome keeps the slug of the row, and leaves it as it was or unlocked and no longer in progress. */
  lemma SettledShape(row: Job, leased: Job, o: Outcome)
    ensures Settled(row, leased, o).slug == row.slug
    ensures if o.Lost? then Settled(row, leased, o) == row
            else Settled(row, leased, o).lockedUntil.None? && Settled(row, leased, o).status != InProgress
    ensures AwaitsAudit(leased, o) ==> Settled(row, leased, o).status == Failed
  {
  }

  /** Reads, answers and cache writes leave the job rows and the runners alone. */
  lemma ReadKeepsSound(s: Sys, step: Step)
    requires Sound(s) && Enabled(s, step)
    requires step.Write? || step.SweepReads? || step.BeginLookup? || step.ReadRow? || step.ReadMarker? || step.EnqueueFails? || step.Enqueue?
    ensures Sound(Apply(s, step))
  {
    hide InsertAll, Store.Perform;
    if step.Enqueue? {
      InsertKeepsSound(s, [Lookup.LookupJob(s.requests[step.lid].slug, step.now)]);
    }
  }

  lemma StepKeepsSound(s: Sys, step: Step)
    requires Sound(s) && Enabled(s, step)
    ensures Sound(Apply(s, step))
  {
    match step {
      case Claim(ids, batch, now) => ClaimKeepsSound(s, ids, batch, now);
      case Finish(rid, outcome) => FinishKeepsSound(s, rid, outcome);
      case ManualEnqueue(slug, repositoryId, now) => InsertKeepsSound(s, [ManualJob(slug, repositoryId, now)]);
      case SweepInserts(sid) => InsertKeepsSound(s, SweepJobs(s.sweeps[sid]));
      case EndAudit(_, _) => RowUpdateKeepsSound(s, step);
      case Retry(_, _) => RowUpdateKeepsSound(s, step);
      case Cancel(_) => RowUpdateKeepsSound(s, step);
      case _ => ReadKeepsSound(s, step);
    }
  }

  lemma RowUpdateKeepsSound(s: Sys, step: Step)
    requires Sound(s) && Enabled(s, step) && (step.EndAudit? || step.Retry? || step.Cancel?)
    ensures Sound(Apply(s, step))
  {
  }

  /** On every run, whatever operators do: a row is locked exactly while it is in progress. */
  lemma {:induction false} SoundAlongRuns(s: Sys, steps: seq<Step>)
    requires Sound(s) && Run(s, steps)
    ensures Sound(After(s, steps))
    decreases |steps|
  {
    if steps != [] {
      StepKeepsSound(s, steps[0]);
      SoundAlongRuns(Apply(s, steps[0]), steps[1..]);
    }
  }

  // ---------------------------------------------------------------------------------------------
  // One holder for each job.
  // ---------------------------------------------------------------------------------------------

  /** Some refreshOne call in flight holds the job. */
  ghost predicate Held(s: Sys, id: JobId) {
    exists k | k in s.runners :: s.runners[k].job == id
  }

  /** An operator puts back a job that a runner holds. */
  ghost predicate HitsHeld(s: Sys, step: Step) { step.Retry? && Held(s, step.id) }

  ghost predicate NoHeldRetry(s: Sys, steps: seq<Step>)
    requires Run(s, steps)
    decreases |steps|
  {
    steps != [] ==> !HitsHeld(s, steps[0]) && NoHeldRetry(Apply(s, steps[0]), steps[1..])
  }

  /** A working runner's row reads as its lease did, or was cancelled since; an auditing one's has failed. */
  predicate Holds(r: Runner, rows: Table)
    requires r.job in rows
  {
    && (r.phase == Working ==> rows[r.job] == r.leased || rows[r.job] == Cancelled(r.leased))
    && (r.phase == Auditing ==> rows[r.job].status == Failed)
  }

  ghost predicate RunnersOk(s: Sys) {
    forall k | k in s.runners :: s.runners[k].job in s.jobs && Holds(s.runners[k], s.jobs)
  }

  /** No job is held twice, whichever ticks claimed it. */
  ghost predicate OneHolder(s: Sys) {
    forall k, m | k in s.runners && m in s.runners && k != m :: s.runners[k].job != s.runners[m].job
  }

  ghost predicate Inv(s: Sys) { Sound(s) && RunnersOk(s) && OneHolder(s) }

  lemma HeldIsNotPending(s: Sys, k: RunnerId)
    requires Inv(s) && k in s.runners
    ensures s.runners[k].job in s.jobs && s.jobs[s.runners[k].job].status != Pending
  {
    assert Holds(s.runners[k], s.jobs);
  }

  /** A claim takes no row that some runner still holds. */
  lemma ClaimTakesNoHeldJob(s: Sys, ids: seq<JobId>, batch: nat, now: int)
    requires Inv(s) && Enabled(s, Claim(ids, batch, now))
    ensures forall id | id in ids :: !Held(s, id)
  {
    forall id | id in ids
      ensures !Held(s, id)
    {
      assert id in ToSet(ids);
      forall k | k in s.runners
        ensures s.runners[k].job != id
      {
        HeldIsNotPending(s, k);
      }
    }
  }

  /** Runners from before the claim keep their jobs and rows. */
  lemma ClaimKeepsOldRunners(s: Sys, ids: seq<JobId>, batch: nat, now: int, k: RunnerId)
    requires Inv(s) && Enabled(s, Claim(ids, batch, now)) && k in s.runners
    ensures var s' := Apply(s, Claim(ids, batch, now));
            k in s'.runners && s'.runners[k] == s.runners[k] && s.runners[k].job in s'.jobs && Holds(s.runners[k], s'.jobs)
            && s.runners[k].job !in ids
  {
    hide IsFirstBatch, AddRunners;
    ClaimTakesNoHeldJob(s, ids, batch, now);
    assert Held(s, s.runners[k].job);
    assert Holds(s.runners[k], s.jobs);
  }

  /** New runners hold the rows they were just given, each its own. */
  lemma ClaimGivesOneHolder(old_: map<RunnerId, Runner>, next: RunnerId, ids: seq<JobId>, rows: Table)
    requires NoRepeats(ids) && (forall i | i in ids :: i in rows) && forall k | k in old_ :: k < next && old_[k].job !in ids
    requires forall k, m | k in old_ && m in old_ && k != m :: old_[k].job != old_[m].job
    ensures var all := AddRunners(old_, next, ids, rows);
            && (forall k | k in all && k !in old_ :: all[k].job in rows && Holds(all[k], rows))
            && (forall k, m | k in all && m in all && k != m :: all[k].job != all[m].job)
  {
    hide Cancelled;
    var all := AddRunners(old_, next, ids, rows);
    forall k | k in all && k !in old_
      ensures next <= k < next + |ids| && all[k] == Runner(ids[k - next], rows[ids[k - next]], Working) && all[k].job in ids
    {
    }
  }

  lemma ClaimKeepsInv(s: Sys, ids: seq<JobId>, batch: nat, now: int)
    requires Inv(s) && Enabled(s, Claim(ids, batch, now))
    ensures Inv(Apply(s, Claim(ids, batch, now)))
  {
    var s' := Apply(s, Claim(ids, batch, now));
    ClaimKeepsSound(s, ids, batch, now);
    forall k | k in s.runners
      ensures k in s'.runners && s'.runners[k] == s.runners[k] && s.runners[k].job in s'.jobs && Holds(s.runners[k], s'.jobs)
      ensures s.runners[k].job !in ids
    {
      ClaimKeepsOldRunners(s, ids, batch, now, k);
    }
    hide IsFirstBatch, AddRunners, Holds, RowsOk, RequestsOk, ClaimAll;
    ClaimGivesOneHolder(s.runners, s.nextRunner, ids, s'.jobs);
  }

  lemma FinishKeepsInv(s: Sys, rid: RunnerId, outcome: Outcome)
    requires Inv(s) && Enabled(s, Finish(rid, outcome))
    ensures Inv(Apply(s, Finish(rid, outcome)))
  {
    FinishKeepsSound(s, rid, outcome);
    SettledShape(s.jobs[s.runners[rid].job], s.runners[rid].leased, outcome);
    hide Settled, Store.DeleteRepo, Sound, AwaitsAudit;
  }

  lemma AuditKeepsHolders(s: Sys, rid: RunnerId, audit: Audit)
    requires Inv(s) && Enabled(s, EndAudit(rid, audit))
    ensures var s' := Apply(s, EndAudit(rid, audit)); RunnersOk(s') && OneHolder(s')
  {
    hide Audited, RowsOk, RequestsOk;
  }

  lemma InsertKeepsHolders(s: Sys, jobs: seq<Job>)
    requires Inv(s)
    ensures RunnersOk(Insert(s, jobs)) && OneHolder(Insert(s, jobs))
  {
    hide InsertAll, Cancelled;
  }

  /** A cancel leaves the job with its runner. */
  lemma CancelKeepsHolders(s: Sys, id: JobId)
    requires Inv(s) && Enabled(s, Cancel(id))
    ensures var s' := Apply(s, Cancel(id)); RunnersOk(s') && OneHolder(s')
  {
    hide RequestsOk;
    var s' := Apply(s, Cancel(id));
    forall k | k in s.runners
      ensures Holds(s.runners[k], s'.jobs)
    {
      HeldIsNotPending(s, k);
      assert Holds(s.runners[k], s.jobs);
    }
  }

  lemma RetryKeepsHolders(s: Sys, id: JobId, now: int)
    requires Inv(s) && Enabled(s, Retry(id, now)) && !Held(s, id)
    ensures var s' := Apply(s, Retry(id, now)); RunnersOk(s') && OneHolder(s')
  {
    hide Retried, Cancelled, RowsOk, RequestsOk;
    assert forall k | k in s.runners :: s.runners[k].job != id;
  }

  lemma StepKeepsInv(s: Sys, step: Step)
    requires Inv(s) && Enabled(s, step) && !HitsHeld(s, step)
    ensures Inv(Apply(s, step))
  {
    StepKeepsSound(s, step);
    hide Holds, Sound, Store.Perform, FinishJob;
    match step {
      case Claim(ids, batch, now) => ClaimKeepsInv(s, ids, batch, now);
      case Finish(rid, outcome) => FinishKeepsInv(s, rid, outcome);
      case EndAudit(rid, audit) => AuditKeepsHolders(s, rid, audit);
      case ManualEnqueue(slug, repositoryId, now) => InsertKeepsHolders(s, [ManualJob(slug, repositoryId, now)]);
      case SweepInserts(sid) => InsertKeepsHolders(s, SweepJobs(s.sweeps[sid]));
      case Enqueue(lid, now, answer) => InsertKeepsHolders(s, [Lookup.LookupJob(s.requests[lid].slug, now)]);
      case Retry(id, now) => RetryKeepsHolders(s, id, now);
      case Cancel(id) => CancelKeepsHolders(s, id);
      case _ => ReadKeepsHolders(s, step);
    }
  }

  lemma ReadKeepsHolders(s: Sys, step: Step)
    requires Inv(s) && Enabled(s, step)
    requires step.Write? || step.SweepReads? || step.BeginLookup? || step.ReadRow? || step.ReadMarker? || step.EnqueueFails?
    ensures RunnersOk(Apply(s, step)) && OneHolder(Apply(s, step))
  {
    hide Holds, Sound, Store.Perform;
  }

  /**
   On every run on which no operator puts back a job in a runner's hands: no two runners hold the same job, and
   the row of each is the one it claimed, or was cancelled since.
   */
  lemma {:induction false} InvAlongRuns(s: Sys, steps: seq<Step>)
    requires Inv(s) && Run(s, steps) && NoHeldRetry(s, steps)
    ensures Inv(After(s, steps))
    decreases |steps|
  {
    if steps != [] {
      StepKeepsInv(s, steps[0]);
      InvAlongRuns(Apply(s, steps[0]), steps[1..]);
    }
  }

  lemma StartInv()
    ensures Inv(START)
  {
  }

  /** The state of a system that began empty. */
  lemma InvFromStart(steps: seq<Step>)
    requires Run(START, steps)
    ensures Sound(After(START, steps))
    ensures NoHeldRetry(START, steps) ==> Inv(After(START, steps))
  {
    StartInv();
    SoundAlongRuns(START, steps);
    if NoHeldRetry(START, steps) {
      InvAlongRuns(START, steps);
    }
  }

  lemma {:induction false} Listing(ids: set<JobId>) returns (list: seq<JobId>)
    ensures NoRepeats(list) && ToSet(list) == ids && |list| == |ids|
    decreases |ids|
  {
    if ids == {} {
      list := [];
    } else {
      var id :| id in ids;
      var rest := Listing(ids - {id});
      list := [id] + rest;
      assert list[0] == id && forall i :: i in ToSet(rest) ==> i in rest && i in list;
      assert ToSet(list) == {id} + ToSet(rest) == ids;
      assert forall n | 0 < n < |list| :: list[n] == rest[n - 1] && rest[n - 1] in ToSet(rest);
    }
  }

  /** A tick large enough takes every eligible job. */
  lemma ClaimOfAllDue(s: Sys, now: int) returns (ids: seq<JobId>)
    ensures Enabled(s, Claim(ids, |ids|, now)) && forall id | id in Eligible(s.jobs, now) :: id in ids
  {
    var due := Eligible(s.jobs, now);
    ids := Listing(due);
    assert forall i | i in ids :: i in ToSet(ids);
  }

  /** A retried job that a runner still holds is claimed a second time by the next large enough tick. */
  lemma HeldRetryEndsOneHolder(s: Sys, id: JobId, now: int) returns (claim: Step)
    requires Sound(s) && Enabled(s, Retry(id, now)) && Held(s, id)
    ensures var s1 := Apply(s, Retry(id, now));
            claim.Claim? && Enabled(s1, claim) && !OneHolder(Apply(s1, claim))
  {
    var s1 := Apply(s, Retry(id, now));
    var ids := ClaimOfAllDue(s1, now);
    claim := Claim(ids, |ids|, now);
    assert id in Eligible(s1.jobs, now);
    assert s1.runners == s.runners && s1.nextRunner == s.nextRunner;
    var k :| k in s.runners && s.runners[k].job == id;
    hide *;
    SecondClaim(s1, claim, k);
  }

  lemma SecondClaim(s: Sys, claim: Step, k: RunnerId)
    requires claim.Claim? && Enabled(s, claim) && k in s.runners && k < s.nextRunner && s.runners[k].job in claim.ids
    ensures !OneHolder(Apply(s, claim))
  {
    hide IsFirstBatch, AddRunners, ClaimAll;
    var s' := Apply(s, claim);
    var n :| 0 <= n < |claim.ids| && claim.ids[n] == s.runners[k].job;
    assert k in s'.runners && s'.runners[k] == s.runners[k];
    assert s.nextRunner + n in s'.runners && s'.runners[s.nextRunner + n].job == s.runners[k].job;
  }

  lemma InvIsSound(s: Sys)
    requires Inv(s)
    ensures Sound(s)
  {
  }

  lemma OneStep(s: Sys, step: Step)
    requires Enabled(s, step) && !step.Retry?
    ensures Run(s, [step]) && NoHeldRetry(s, [step]) && After(s, [step]) == Apply(s, step)
  {
    hide Apply, Enabled;
    assert [step][1..] == [];
  }

  /** The restriction is exact: a step leaves one holder for every job, from then on, unless it puts back a held job. */
  lemma OneHolderIffNoHeldRetry(s: Sys, step: Step)
    requires Inv(s) && Enabled(s, step)
    ensures !HitsHeld(s, step) <==>
              forall steps: seq<Step> | Run(Apply(s, step), steps) && NoHeldRetry(Apply(s, step), steps) ::
                OneHolder(After(Apply(s, step), steps))
  {
    hide Apply, Enabled, Inv;
    var s1 := Apply(s, step);
    if HitsHeld(s, step) {
      InvIsSound(s);
      var claim := HeldRetryEndsOneHolder(s, step.id, step.now);
      OneStep(s1, claim);
    } else {
      StepKeepsInv(s, step);
      forall steps: seq<Step> | Run(s1, steps) && NoHeldRetry(s1, steps)
        ensures OneHolder(After(s1, steps))
      {
        InvAlongRuns(s1, steps);
      }
    }
  }
}
