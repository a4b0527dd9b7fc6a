/** src/lib/cache/lookup.ts: answer from the cache, from the negative cache, or queue a refresh. */
module Lookup {
  import opened Common
  import Aging
  import Eta
  import RefreshOne
  import Store
  import opened Jobs

  const LOOKUP_PRIORITY := 70
  const MAX_TRIES := 3
  const WRITE_CONFLICT := "Transaction failed due to a write conflict or a deadlock"

  /** The row a committed 404 leaves behind. */
  predicate IsMarker(job: Job, slug: Slug) {
    && job.slug == slug
    && job.status == Failed
    && job.lastError.Some?
    && StartsWith(job.lastError.value, RefreshOne.NOT_FOUND_PREFIX)
  }

  /** findNotFoundJob */
  predicate Marked(rows: Table, slug: Slug) {
    exists id | id in rows :: IsMarker(rows[id], slug)
  }

  predicate PendingFor(job: Job, slug: Slug) { job.slug == slug && job.status == Pending }

  predicate HasPending(rows: Table, slug: Slug) {
    exists id | id in rows :: PendingFor(rows[id], slug)
  }

  function LookupJob(slug: Slug, now: int): Job { NewJob(slug, Core, None, LOOKUP_PRIORITY, now) }

  /** A never-fetched row counts as fresh. */
  predicate IsStale(lastFetchedAt: Option<int>, now: int) {
    lastFetchedAt.Some? && now > lastFetchedAt.value + Aging.TWENTY_FOUR_HOURS_MS
  }

  datatype QueryResult =
    | FoundOk(metadata: Option<Store.JsonObject>, lastFetchedAt: Option<int>, stale: bool)
    | NotFoundResult
    | PendingResult(queuedAt: int, scheduledFor: int, expectedAt: int)
    | ErrorResult(message: string)

  /** How one try of the enqueue transaction goes. */
  datatype TxTry = Commits | Conflicts | Breaks(message: string)

  /** The try that decides: conflicts are retried until the last allowed one. */
  function Deciding(tries: seq<TxTry>, left: nat): TxTry
    requires 1 <= left <= |tries|
  {
    if tries[0] == Conflicts && left > 1 then Deciding(tries[1..], left - 1) else tries[0]
  }

  datatype Enqueued = Queued(queuedAt: int, scheduledFor: int, depth: nat) | EnqueueThrew(message: string)

  function PendingIds(rows: Table): set<JobId> { set id | id in rows && rows[id].status == Pending }

  /** getQueueDepth */
  function QueueDepth(rows: Table): nat { |PendingIds(rows)| }

  /** Markers and pending jobs in columns: only rows of the repository itself count. */
  lemma MarkersInColumns(rows: Table, slug: Slug)
    ensures Marked(rows, slug) <==>
              exists id | id in rows :: rows[id].slug == slug && rows[id].status == Failed && rows[id].lastError.Some?
                && |rows[id].lastError.value| >= 10 && rows[id].lastError.value[..10] == "not_found:"
    ensures HasPending(rows, slug) <==> exists id | id in rows :: rows[id].slug == slug && rows[id].status == Pending
  {
    assert |RefreshOne.NOT_FOUND_PREFIX| == 10;
    if id :| id in rows && IsMarker(rows[id], slug) {
      assert rows[id].lastError.value[..10] == "not_found:";
    }
    if id :| id in rows && rows[id].slug == slug && rows[id].status == Pending {
      assert PendingFor(rows[id], slug);
    }
    if id :| id in rows && rows[id].slug == slug && rows[id].status == Failed && rows[id].lastError.Some?
             && |rows[id].lastError.value| >= 10 && rows[id].lastError.value[..10] == "not_found:" {
      assert IsMarker(rows[id], slug);
    }
  }

  /** The depth of the queue counts the pending rows: a claim takes its batch off, an insert adds one. */
  lemma DepthMoves(rows: Table, ids: set<JobId>, now: int, next: JobId, slug: Slug)
    requires next !in rows && ids <= Eligible(rows, now)
    ensures QueueDepth(ClaimAll(rows, ids, now)) == QueueDepth(rows) - |ids|
    ensures QueueDepth(rows[next := LookupJob(slug, now)]) == QueueDepth(rows) + 1
    ensures QueueDepth(rows) == 0 <==> forall id | id in rows :: rows[id].status != Pending
  {
    var pending := PendingIds(rows);
    assert ids <= pending;
    assert PendingIds(ClaimAll(rows, ids, now)) == pending - ids;
    assert |pending| == |pending - ids| + |ids|;
    assert PendingIds(rows[next := LookupJob(slug, now)]) == pending + {next};
    if pending != {} {
      assert |pending| > 0;
    }
    forall id | id in rows && rows[id].status == Pending
      ensures id in pending
    {
    }
  }

  /** The transaction commits exactly if one of three tries does and only conflicts came before it. */
  lemma CommitsIff(tries: seq<TxTry>)
    requires |tries| == 3
    ensures MAX_TRIES == 3
    ensures Deciding(tries, 3) == Commits <==>
              tries[0] == Commits || (tries[0] == Conflicts && (tries[1] == Commits || (tries[1] == Conflicts && tries[2] == Commits)))
  {
    var second, third := tries[1..], tries[1..][1..];
    assert second[0] == tries[1] && third[0] == tries[2];
    assert Deciding(third, 1) == tries[2];
    assert Deciding(second, 2) == if tries[1] == Conflicts then Deciding(third, 1) else tries[1];
  }

  /** An answer is stale from a day after its fetch; one that was never fetched is not. */
  lemma StaleIff(lastFetchedAt: Option<int>, now: int)
    ensures IsStale(lastFetchedAt, now) <==> lastFetchedAt.Some? && now - lastFetchedAt.value > 86_400_000
  {
  }

  class LookupService {
    const jobs: JobTable
    const cache: Store.CacheDb
    const tickMs: int
    const batchSize: int

    constructor (jobs: JobTable, cache: Store.CacheDb, tickMs: int, batchSize: int)
      ensures this.jobs == jobs && this.cache == cache && this.tickMs == tickMs && this.batchSize == batchSize
    {
      this.jobs, this.cache, this.tickMs, this.batchSize := jobs, cache, tickMs, batchSize;
    }

    /**
     Find-or-create in a serializable transaction, retried on write conflicts. The queue statistics are read
     after it has committed, so when they fail the call throws with the job already queued.
     */
    method EnqueueRefresh(slug: Slug, now: int, tries: seq<TxTry>, statsFault: Option<string>) returns (r: Enqueued)
      requires |tries| == MAX_TRIES
      modifies jobs
      ensures Deciding(tries, MAX_TRIES) != Commits ==>
                && r == EnqueueThrew(match Deciding(tries, MAX_TRIES) case Breaks(message) => message case _ => WRITE_CONFLICT)
                && jobs.rows == old(jobs.rows) && jobs.nextId == old(jobs.nextId)
      ensures Deciding(tries, MAX_TRIES) == Commits && HasPending(old(jobs.rows), slug) ==>
                && jobs.rows == old(jobs.rows) && jobs.nextId == old(jobs.nextId)
                && (statsFault.None? ==>
                      r.Queued? && r.depth == QueueDepth(jobs.rows)
                      && exists id | id in jobs.rows :: PendingFor(jobs.rows[id], slug)
                           && r.queuedAt == jobs.rows[id].createdAt && r.scheduledFor == jobs.rows[id].scheduledFor)
      ensures Deciding(tries, MAX_TRIES) == Commits && !HasPending(old(jobs.rows), slug) ==>
                && jobs.rows == InsertAll(old(jobs.rows), old(jobs.nextId), [LookupJob(slug, now)])
                && jobs.nextId == old(jobs.nextId) + 1
                && (statsFault.None? ==> r == Queued(now, now, QueueDepth(jobs.rows)))
      ensures Deciding(tries, MAX_TRIES) == Commits && statsFault.Some? ==> r == EnqueueThrew(statsFault.value)
    {
      var attempt := 0;
      while true
        invariant 0 <= attempt < MAX_TRIES
        invariant Deciding(tries, MAX_TRIES) == Deciding(tries[attempt..], MAX_TRIES - attempt)
        invariant jobs.rows == old(jobs.rows) && jobs.nextId == old(jobs.nextId)
        decreases MAX_TRIES - attempt
      {
        match tries[attempt] {
          case Commits =>
            if id :| id in jobs.rows && PendingFor(jobs.rows[id], slug) {
              r := Queued(jobs.rows[id].createdAt, jobs.rows[id].scheduledFor, QueueDepth(jobs.rows));
            } else {
              var _ := jobs.Create(LookupJob(slug, now));
              r := Queued(now, now, QueueDepth(jobs.rows));
            }
            if statsFault.Some? {
              r := EnqueueThrew(statsFault.value);
            }
            return;
          case Breaks(message) =>
            return EnqueueThrew(message);
          case Conflicts =>
            if attempt + 1 >= MAX_TRIES {
              return EnqueueThrew(WRITE_CONFLICT);
            }
            assert tries[attempt..][1..] == tries[attempt + 1..];
            attempt := attempt + 1;
        }
      }
    }

    /** lookupRepo */
    method LookupRepo(slug: Slug, now: int, tries: seq<TxTry>, statsFault: Option<string>, medianFetchMs: real) returns (q: QueryResult)
      requires |tries| == MAX_TRIES
      modifies jobs
      ensures var row := old(cache.repos);
              && (slug in row && row[slug].fetchStatus == Store.Ok ==>
                    && q == FoundOk(row[slug].metadata, row[slug].lastFetchedAt, IsStale(row[slug].lastFetchedAt, now))
                    && jobs.rows == old(jobs.rows))
              && ((slug in row && row[slug].fetchStatus == Store.NotFound)
                  || (Marked(old(jobs.rows), slug) && (slug in row ==> row[slug].fetchStatus != Store.Ok)) ==>
                    q == NotFoundResult && jobs.rows == old(jobs.rows))
      ensures q.PendingResult? ==>
                && HasPending(jobs.rows, slug) && !Marked(old(jobs.rows), slug)
                && q.expectedAt == Eta.EstimateExpectedAt(QueueDepth(jobs.rows), tickMs, batchSize, medianFetchMs, now)
      ensures jobs.rows != old(jobs.rows) ==>
                && (if statsFault.None? then q.PendingResult? else q == ErrorResult(statsFault.value))
                && !HasPending(old(jobs.rows), slug) && !Marked(old(jobs.rows), slug)
                && jobs.rows == InsertAll(old(jobs.rows), old(jobs.nextId), [LookupJob(slug, now)])
      ensures q.ErrorResult? ==> Deciding(tries, MAX_TRIES) != Commits || statsFault.Some?
      ensures (slug in old(cache.repos) ==> old(cache.repos)[slug].fetchStatus !in {Store.Ok, Store.NotFound}) && !Marked(old(jobs.rows), slug) ==>
                if Deciding(tries, MAX_TRIES) != Commits then q.ErrorResult? && jobs.rows == old(jobs.rows)
                else
                  && jobs.rows == (if HasPending(old(jobs.rows), slug) then old(jobs.rows)
                                   else InsertAll(old(jobs.rows), old(jobs.nextId), [LookupJob(slug, now)]))
                  && (statsFault.Some? ==> q == ErrorResult(statsFault.value))
                  && (statsFault.None? ==>
                        && q.PendingResult?
                        && exists id | id in jobs.rows ::
                             PendingFor(jobs.rows[id], slug) && q.queuedAt == jobs.rows[id].createdAt && q.scheduledFor == jobs.rows[id].scheduledFor)
    {
      var repo := cache.FindRepo(slug);
      if repo.Some? {
        if repo.value.fetchStatus == Store.Ok {
          return FoundOk(repo.value.metadata, repo.value.lastFetchedAt, IsStale(repo.value.lastFetchedAt, now));
        }
        if repo.value.fetchStatus == Store.NotFound {
          return NotFoundResult;
        }
      }
      if Marked(jobs.rows, slug) {
        return NotFoundResult;
      }
      var e := EnqueueRefresh(slug, now, tries, statsFault);
      match e {
        case Queued(queuedAt, scheduledFor, depth) =>
          if !HasPending(old(jobs.rows), slug) {
            assert jobs.rows[old(jobs.nextId)] == LookupJob(slug, now);
          }
          q := PendingResult(queuedAt, scheduledFor, Eta.EstimateExpectedAt(depth, tickMs, batchSize, medianFetchMs, now));
        case EnqueueThrew(message) =>
          q := ErrorResult(message);
      }
    }
  }
}
