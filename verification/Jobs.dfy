/**
 The refresh_jobs table and src/lib/scheduler/lease.ts: one claim takes the first due jobs by
 (priority, scheduled_for), marks them in progress and counts an attempt.
 */
module Jobs {
  import opened Common

  datatype Status = Pending | InProgress | Done | Failed

  datatype Kind = Core | Releases | Branches

  datatype Job = Job(
    slug: Slug, kind: Kind, repositoryId: Option<nat>, priority: int, scheduledFor: int, status: Status,
    attempts: nat, lastError: Option<string>, lockedUntil: Option<int>, createdAt: int)

  type JobId = nat

  type Table = map<JobId, Job>

  const LOCK_DURATION_MS := 5 * 60_000

  /** A row as every enqueuer creates it: pending, never attempted, unlocked. */
  function NewJob(slug: Slug, kind: Kind, repositoryId: Option<nat>, priority: int, now: int): Job {
    Job(slug, kind, repositoryId, priority, now, Pending, 0, None, None, now)
  }

  /** The WHERE clause of the claim. */
  predicate Due(job: Job, now: int) {
    && job.status == Pending
    && job.scheduledFor <= now
    && (job.lockedUntil.None? || job.lockedUntil.value < now)
  }

  /** The ORDER BY clause; ties are left to the database. */
  predicate Ranks(a: Job, b: Job) {
    a.priority < b.priority || (a.priority == b.priority && a.scheduledFor <= b.scheduledFor)
  }

  function Eligible(rows: Table, now: int): set<JobId> {
    set id | id in rows && Due(rows[id], now)
  }

  /** `ids` is a possible answer of the ordered, limited SELECT. */
  ghost predicate IsFirstBatch(rows: Table, now: int, batch: nat, ids: set<JobId>) {
    && ids <= Eligible(rows, now)
    && |ids| == Min(batch, |Eligible(rows, now)|)
    && forall i, j | i in ids && j in Eligible(rows, now) && j !in ids :: Ranks(rows[i], rows[j])
  }

  function Claimed(job: Job, now: int): Job {
    job.(status := InProgress, lockedUntil := Some(now + LOCK_DURATION_MS), attempts := job.attempts + 1)
  }

  /**
   The claim in the columns of the table. What it takes is pending, due and unlocked; what it leaves of that kind comes
   after everything it takes, by smaller priority first and then by earlier time; it leaves some only with a full batch.
   Each taken row is locked for five minutes and counts one more attempt, and nothing else changes.
   */
  lemma ClaimInColumns(rows: Table, now: int, batch: nat, ids: set<JobId>)
    requires IsFirstBatch(rows, now, batch, ids)
    ensures forall i | i in ids ::
              i in rows && rows[i].status == Pending && rows[i].scheduledFor <= now
              && (rows[i].lockedUntil.Some? ==> rows[i].lockedUntil.value < now)
    ensures forall i, j | i in ids && j in rows && j !in ids && rows[j].status == Pending && rows[j].scheduledFor <= now
                          && (rows[j].lockedUntil.Some? ==> rows[j].lockedUntil.value < now) ::
              && |ids| == batch
              && (rows[i].priority < rows[j].priority
                  || (rows[i].priority == rows[j].priority && rows[i].scheduledFor <= rows[j].scheduledFor))
    ensures |ids| <= batch
    ensures ids == {} && batch > 0 ==>
              forall j | j in rows && rows[j].status == Pending && rows[j].scheduledFor <= now :: rows[j].lockedUntil.Some? && rows[j].lockedUntil.value >= now
    ensures var after := ClaimAll(rows, ids, now);
            after.Keys == rows.Keys && forall i | i in rows ::
              after[i] == if i in ids then rows[i].(status := InProgress, lockedUntil := Some(now + 300_000), attempts := rows[i].attempts + 1)
                          else rows[i]
  {
    var due := Eligible(rows, now);
    forall j | j in rows && j !in ids && Due(rows[j], now)
      ensures |ids| == batch
    {
      assert j in due && ids < due;
      assert |due| == |ids| + |due - ids|;
      assert j in due - ids && |due - ids| > 0;
    }
    if ids == {} && batch > 0 {
      assert |due| == 0;
      assert forall j | j in rows && Due(rows[j], now) :: j in due;
    }
  }

  /** The claimed rows come back in that order. */
  lemma OrderInColumns(rows: Table, ids: seq<JobId>)
    requires (forall i | i in ids :: i in rows) && Ordered(rows, ids)
    ensures forall m, n | 0 <= m < n < |ids| ::
              rows[ids[m]].priority < rows[ids[n]].priority
              || (rows[ids[m]].priority == rows[ids[n]].priority && rows[ids[m]].scheduledFor <= rows[ids[n]].scheduledFor)
  {
  }

  /** What the routes do to a row, in its columns: a retry keeps the attempts, a cancel keeps the time. */
  lemma RoutesInColumns(job: Job, now: int)
    ensures Retried(job, now) == Job(job.slug, job.kind, job.repositoryId, job.priority, now, Pending, job.attempts, None, None, job.createdAt)
    ensures Cancelled(job) == Job(job.slug, job.kind, job.repositoryId, job.priority, job.scheduledFor, Failed, job.attempts,
                                  Some("cancelled by admin"), None, job.createdAt)
    ensures Retryable(job) <==> job.status !in {Pending, Done}
    ensures Cancellable(job) <==> job.status !in {Done, Failed}
  {
  }

  const CANCELLED := "cancelled by admin"

  /** src/app/api/admin/refresh-jobs/[id]/retry: which rows an operator may put back, and how. */
  predicate Retryable(job: Job) { job.status == Failed || job.status == InProgress }

  function Retried(job: Job, now: int): Job {
    job.(status := Pending, scheduledFor := now, lastError := None, lockedUntil := None)
  }

  /** src/app/api/admin/refresh-jobs/[id]/cancel: which rows an operator may withdraw, and how. */
  predicate Cancellable(job: Job) { job.status == Pending || job.status == InProgress }

  function Cancelled(job: Job): Job { job.(status := Failed, lastError := Some(CANCELLED), lockedUntil := None) }

  function ClaimAll(rows: Table, ids: set<JobId>, now: int): Table {
    map id | id in rows :: if id in ids then Claimed(rows[id], now) else rows[id]
  }

  function ToSet(ids: seq<JobId>): set<JobId> { set i | i in ids }

  predicate NoRepeats(ids: seq<JobId>) {
    forall i, j | 0 <= i < j < |ids| :: ids[i] != ids[j]
  }

  ghost predicate Ordered(rows: Table, ids: seq<JobId>)
    requires forall i | i in ids :: i in rows
  {
    forall i, j | 0 <= i < j < |ids| :: Ranks(rows[ids[i]], rows[ids[j]])
  }

  /** Rows appended by one INSERT, numbered from `next`. */
  function InsertAll(rows: Table, next: JobId, jobs: seq<Job>): (r: Table)
    ensures forall id :: id in r <==> id in rows || next <= id < next + |jobs|
    ensures forall id | next <= id < next + |jobs| :: r[id] == jobs[id - next]
    ensures forall id | id in rows && !(next <= id < next + |jobs|) :: r[id] == rows[id]
    decreases |jobs|
  {
    if jobs == [] then rows else InsertAll(rows[next := jobs[0]], next + 1, jobs[1..])
  }

  /** The state of a selection: `ids` picked so far, `left` not yet picked. */
  ghost predicate Selecting(rows: Table, due: set<JobId>, ids: seq<JobId>, left: set<JobId>) {
    && due <= rows.Keys && left <= due
    && ToSet(ids) == due - left
    && NoRepeats(ids) && |ToSet(ids)| == |ids|
    && (forall i | i in ids :: i in rows)
    && Ordered(rows, ids)
    && (forall i, j | i in ids && j in left :: Ranks(rows[i], rows[j]))
  }

  lemma PickBest(rows: Table, due: set<JobId>, ids: seq<JobId>, left: set<JobId>, best: JobId)
    requires Selecting(rows, due, ids, left)
    requires best in left && forall j | j in left :: Ranks(rows[best], rows[j])
    ensures Selecting(rows, due, ids + [best], left - {best})
  {
    hide Ranks;
    var ids' := ids + [best];
    assert ToSet(ids') == ToSet(ids) + {best};
    forall i | i in ids'
      ensures i in rows && forall j | j in left - {best} :: Ranks(rows[i], rows[j])
    {
      assert i in ids || i == best;
    }
  }

  lemma SelectionIsFirstBatch(rows: Table, now: int, batch: nat, ids: seq<JobId>, left: set<JobId>)
    requires Selecting(rows, Eligible(rows, now), ids, left)
    requires |ids| <= batch && (|ids| == batch || left == {})
    ensures IsFirstBatch(rows, now, batch, ToSet(ids))
  {
    assert Eligible(rows, now) == ToSet(ids) + left;
  }

  /** The best-ranked member of a non-empty set of rows. */
  method BestRanked(rows: Table, ids: set<JobId>) returns (best: JobId)
    requires ids != {} && ids <= rows.Keys
    ensures best in ids
    ensures forall j | j in ids :: Ranks(rows[best], rows[j])
  {
    best :| best in ids;
    var rest := ids - {best};
    while rest != {}
      invariant rest <= ids && best in ids
      invariant forall j | j in ids - rest :: Ranks(rows[best], rows[j])
      decreases rest
    {
      var j :| j in rest;
      if !Ranks(rows[best], rows[j]) {
        best := j;
      }
      rest := rest - {j};
    }
  }

  class JobTable {
    var rows: Table
    var nextId: JobId

    constructor ()
      ensures rows == map[] && nextId == 0
    {
      rows, nextId := map[], 0;
    }

    /** The SELECT ... ORDER BY ... LIMIT. */
    method SelectDue(batch: nat, now: int) returns (ids: seq<JobId>)
      ensures NoRepeats(ids) && ToSet(ids) <= rows.Keys
      ensures IsFirstBatch(rows, now, batch, ToSet(ids))
      ensures forall i | i in ids :: i in rows
      ensures Ordered(rows, ids)
    {
      ids := [];
      var due := Eligible(rows, now);
      var left := due;
      while |ids| < batch && left != {}
        invariant Selecting(rows, due, ids, left) && |ids| <= batch
        decreases left
      {
        var best := BestRanked(rows, left);
        PickBest(rows, due, ids, left, best);
        ids := ids + [best];
        left := left - {best};
      }
      SelectionIsFirstBatch(rows, now, batch, ids, left);
    }

    /** The claim transaction: select, mark, and hand back the marked rows in claim order. */
    method ClaimBatch(batch: nat, now: int) returns (ids: seq<JobId>, leased: seq<Job>)
      modifies this`rows
      ensures NoRepeats(ids) && IsFirstBatch(old(rows), now, batch, ToSet(ids))
      ensures rows == ClaimAll(old(rows), ToSet(ids), now)
      ensures |leased| == |ids| && forall k | 0 <= k < |ids| :: ids[k] in old(rows) && leased[k] == Claimed(old(rows)[ids[k]], now)
      ensures forall i, j | 0 <= i < j < |leased| :: Ranks(leased[i], leased[j])
    {
      ids := SelectDue(batch, now);
      leased := [];
      if |ids| == 0 {
        assert rows == ClaimAll(rows, {}, now) && ToSet(ids) == {};
        return;
      }
      var marked := ToSet(ids);
      rows := map id | id in rows :: if id in marked then Claimed(rows[id], now) else rows[id];
      for k := 0 to |ids|
        invariant |leased| == k
        invariant forall m | 0 <= m < k :: leased[m] == rows[ids[m]]
      {
        leased := leased + [rows[ids[k]]];
      }
      assert forall k | 0 <= k < |ids| :: ids[k] in marked;
    }

    /** INSERT of one row. */
    method Create(job: Job) returns (id: JobId)
      modifies this
      ensures id == old(nextId) && nextId == old(nextId) + 1
      ensures rows == InsertAll(old(rows), old(nextId), [job])
    {
      id := nextId;
      rows := rows[id := job];
      nextId := nextId + 1;
    }

    /** updateMany with the observed status in its WHERE clause. */
    method UpdateWhere(id: JobId, observed: Status, job: Job) returns (count: nat)
      modifies this`rows
      ensures count == if id in old(rows) && old(rows)[id].status == observed then 1 else 0
      ensures rows == if count == 1 then old(rows)[id := job] else old(rows)
    {
      if id in rows && rows[id].status == observed {
        rows := rows[id := job];
        return 1;
      }
      return 0;
    }

    /**
     The retry route, with the row as its first read saw it, however stale: it succeeds only on a row that is
     retryable now, it succeeds on every retryable row that kept its status, and it does nothing else.
     */
    method Retry(id: JobId, observed: Option<Job>, now: int) returns (ok: bool)
      modifies this`rows
      ensures ok ==> id in old(rows) && Retryable(old(rows)[id]) && rows == old(rows)[id := Retried(old(rows)[id], now)]
      ensures !ok ==> rows == old(rows)
      ensures ok <==> id in old(rows) && observed.Some? && observed.value.status == old(rows)[id].status && Retryable(old(rows)[id])
    {
      if observed.None? || observed.value.status == Pending || observed.value.status == Done {
        return false;
      }
      if id !in rows {
        return false;
      }
      var count := UpdateWhere(id, observed.value.status, Retried(rows[id], now));
      ok := count == 1;
    }

    /** The cancel route, likewise. */
    method Cancel(id: JobId, observed: Option<Job>) returns (ok: bool)
      modifies this`rows
      ensures ok ==> id in old(rows) && Cancellable(old(rows)[id]) && rows == old(rows)[id := Cancelled(old(rows)[id])]
      ensures !ok ==> rows == old(rows)
      ensures ok <==> id in old(rows) && observed.Some? && observed.value.status == old(rows)[id].status && Cancellable(old(rows)[id])
    {
      if observed.None? || observed.value.status == Done || observed.value.status == Failed {
        return false;
      }
      if id !in rows {
        return false;
      }
      var count := UpdateWhere(id, observed.value.status, Cancelled(rows[id]));
      ok := count == 1;
    }

    /** UPDATE of one row. */
    method Update(id: JobId, job: Job)
      modifies this`rows
      ensures rows == old(rows)[id := job]
    {
      rows := rows[id := job];
    }
  }
}
