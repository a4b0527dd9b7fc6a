/**
 src/lib/jobs/refresh-one.ts, with the catch of src/lib/scheduler/tick.ts around it: what becomes of
 one claimed job. GitHub's answer and every database fault are inputs.
 */
module RefreshOne {
  import opened Common
  import opened Aging
  import Store
  import Forms
  import opened Jobs

  const TRANSIENT_RESCHEDULE_MS := 30_000
  const SERVER_ERROR_RESCHEDULE_MS := 5_000
  const FACET_RESCHEDULE_MS := 60_000
  const FAR_FUTURE_MS := 365 * 24 * 60 * 60_000
  const NOT_FOUND_PREFIX := "not_found:"

  /** The error classes the handlers tell apart. */
  datatype Fault =
    | NotFoundError(message: string)
    | GitHubError(httpStatus: int, message: string)
    | GitHubUnavailable(message: string)
    | OtherError(message: string)

  /** What the job row records when a run ends. */
  datatype Outcome =
    | Succeed(at: int)
    | Transient(at: int, error: string)
    | Unexpected(at: int, error: string)
    | Gone(at: int, error: string)
    | GoneUnsaved(at: int, error: string)
    | Rejected(error: string)
    | Crashed(error: string)
    | Lost

  /** What the awaited audit insert after the row update does. */
  datatype Audit = Quiet | Overwritten(error: string) | OverwriteLost

  /** The row after the update; `leased` is the row as the claim returned it. */
  function Settled(row: Job, leased: Job, o: Outcome): Job {
    var free := row.(lockedUntil := None);
    match o
    case Succeed(at) => free.(status := Done, scheduledFor := at, lastError := None)
    case Transient(at, error) => free.(status := Pending, scheduledFor := at, lastError := Some(error))
    case Unexpected(at, error) =>
      free.(status := if leased.attempts + 1 >= MAX_ATTEMPTS then Failed else Pending,
            scheduledFor := at, lastError := Some(error), attempts := leased.attempts + 1)
    case Gone(at, error) =>
      free.(repositoryId := None, status := Failed, scheduledFor := at, lastError := Some(error), attempts := leased.attempts + 1)
    case GoneUnsaved(at, error) =>
      free.(status := Pending, scheduledFor := at, lastError := Some(error), attempts := leased.attempts + 1)
    case Rejected(error) => free.(status := Failed, lastError := Some(error))
    case Crashed(error) => free.(status := Failed, lastError := Some(error))
    case Lost => row
  }

  /** A failed audit insert sends the run to the tick's catch, which overwrites the error. */
  function Audited(row: Job, a: Audit): Job {
    match a
    case Overwritten(error) => row.(status := Failed, lockedUntil := None, lastError := Some(error))
    case _ => row
  }

  /** The outcomes after which refreshOne still awaits an audit insert. */
  predicate AwaitsAudit(leased: Job, o: Outcome) {
    o.Gone? || (o.Unexpected? && leased.attempts + 1 >= MAX_ATTEMPTS)
  }

  datatype CoreAnswer =
    | CoreNotModified
    | CoreFetched(node: string, core: Store.JsonObject, latest: Store.Json, releases: seq<Store.Release>,
                  branches: seq<Store.Branch>, etag: Option<string>)
    | CoreThrew(fault: Fault)

  datatype FacetAnswer<T> =
    | FacetNotModified
    | FacetFetched(items: seq<T>, etag: Option<string>)
    | FacetThrew(fault: Fault)

  /** Everything a run reads from outside. The fault fields name the statement that throws, if any. */
  datatype Scenario = Scenario(
    now: int, refreshCount: nat, recentQueries: nat,
    core: CoreAnswer, releases: FacetAnswer<Store.Release>, branches: FacetAnswer<Store.Branch>,
    readFault: Option<string>,      // the reads before the try block
    storeFaults: Store.StoreFaults, // the transactions of storeRepoMetadata or of the facet writer
    touchFault: Option<string>,     // the freshness update on 304
    doneFault: Option<string>,      // the update that marks the job done
    txFails: bool,                  // the 404 transaction
    updateFault: Option<string>,    // the job update inside an error handler
    auditFault: Option<string>,     // an awaited audit insert
    catchFails: bool)               // the update inside the tick's catch

  datatype JobResult = ResultDone | ResultPending | ResultFailed(error: string)

  /** A whole run: writes to the cache, then the row update, then the audit. */
  datatype Ending = Ending(ops: seq<Store.WriteOp>, outcome: Outcome, audit: Audit, result: JobResult)

  function NegativeCacheError(fault: Fault): string
    requires fault.NotFoundError? || fault.GitHubError?
  {
    (if fault.GitHubError? && fault.httpStatus == 410 then "not_found: 410 " else "not_found: 404 ") + fault.message
  }

  /** The tick's catch has seen exactly the runs that threw. */
  predicate Shaped(e: Ending, sc: Scenario) {
    && (e.outcome.Crashed? ==> !sc.catchFails && e.result == ResultFailed(e.outcome.error))
    && (e.outcome.Lost? ==> sc.catchFails && e.result.ResultFailed?)
    && (e.outcome.Crashed? || e.outcome.Lost? ==> e.audit == Quiet)
    && (e.audit.Overwritten? ==> !sc.catchFails && e.result == ResultFailed(e.audit.error))
    && (e.audit.OverwriteLost? ==> sc.catchFails && e.result.ResultFailed?)
  }

  /** An exception that leaves refreshOne. */
  function Crash(message: string, sc: Scenario): (e: Ending)
    ensures Shaped(e, sc)
  {
    Ending([], if sc.catchFails then Lost else Crashed(message), Quiet, ResultFailed(message))
  }

  /** An awaited audit insert after the update. */
  function AfterAudit(o: Outcome, result: JobResult, sc: Scenario): (e: Ending)
    requires !o.Crashed? && !o.Lost?
    ensures Shaped(e, sc)
  {
    match sc.auditFault
    case None => Ending([], o, Quiet, result)
    case Some(message) =>
      Ending([], o, if sc.catchFails then OverwriteLost else Overwritten(message), ResultFailed(message))
  }

  function AfterUpdate(o: Outcome, result: JobResult, sc: Scenario): (e: Ending)
    requires !o.Crashed? && !o.Lost?
    ensures Shaped(e, sc)
  {
    if sc.updateFault.Some? then Crash(sc.updateFault.value, sc) else Ending([], o, Quiet, result)
  }

  predicate IsGone(fault: Fault) {
    fault.NotFoundError? || (fault.GitHubError? && (fault.httpStatus == 404 || fault.httpStatus == 410))
  }

  /** handleError */
  function CoreErrorEnding(fault: Fault, leased: Job, sc: Scenario): (e: Ending)
    ensures Shaped(e, sc) && e.ops == []
  {
    var attempts := leased.attempts + 1;
    var retryAt := sc.now + NextDelay(attempts, -1).ms;
    if IsGone(fault) then
      if sc.txFails then AfterUpdate(GoneUnsaved(retryAt, fault.message), ResultPending, sc)
      else AfterAudit(Gone(sc.now + FAR_FUTURE_MS, NegativeCacheError(fault)), ResultDone, sc)
    else if fault.GitHubError? && fault.httpStatus == 403 then
      if sc.auditFault.Some? then Crash(sc.auditFault.value, sc)
      else AfterUpdate(Rejected(fault.message), ResultFailed(fault.message), sc)
    else if fault.GitHubError? && fault.httpStatus == 429 then
      AfterUpdate(Transient(sc.now + TRANSIENT_RESCHEDULE_MS, fault.message), ResultPending, sc)
    else if fault.GitHubError? && fault.httpStatus >= 500 then
      AfterUpdate(Transient(sc.now + SERVER_ERROR_RESCHEDULE_MS, fault.message), ResultPending, sc)
    else if fault.GitHubUnavailable? then
      AfterUpdate(Transient(sc.now + TRANSIENT_RESCHEDULE_MS, fault.message), ResultPending, sc)
    else if sc.updateFault.Some? then Crash(sc.updateFault.value, sc)
    else if attempts >= MAX_ATTEMPTS then
      AfterAudit(Unexpected(retryAt, fault.message), ResultFailed(fault.message), sc)
    else Ending([], Unexpected(retryAt, fault.message), Quiet, ResultPending)
  }

  /** handlePerFacetError */
  function FacetErrorEnding(fault: Fault, sc: Scenario): (e: Ending)
    ensures Shaped(e, sc) && e.ops == []
  {
    if fault.GitHubError? && fault.httpStatus == 429 then
      AfterUpdate(Transient(sc.now + TRANSIENT_RESCHEDULE_MS, fault.message), ResultPending, sc)
    else if fault.GitHubError? && fault.httpStatus >= 500 then
      AfterUpdate(Transient(sc.now + SERVER_ERROR_RESCHEDULE_MS, fault.message), ResultPending, sc)
    else if fault.GitHubUnavailable? then
      AfterUpdate(Transient(sc.now + TRANSIENT_RESCHEDULE_MS, fault.message), ResultPending, sc)
    else if fault.NotFoundError? || (fault.GitHubError? && fault.httpStatus == 404) then
      AfterUpdate(Rejected(fault.message), ResultFailed(fault.message), sc)
    else
      AfterUpdate(Transient(sc.now + TRANSIENT_RESCHEDULE_MS, fault.message), ResultPending, sc)
  }

  function WithOps(ops: seq<Store.WriteOp>, e: Ending): Ending { e.(ops := ops) }

  /** The last statement of a core refresh. */
  function CoreDone(leased: Job, sc: Scenario): Ending {
    if sc.doneFault.Some? then CoreErrorEnding(OtherError(sc.doneFault.value), leased, sc)
    else Ending([], Succeed(sc.now + NextDelay(sc.refreshCount, sc.recentQueries).ms), Quiet, ResultDone)
  }

  /** finishJob is returned without being awaited, so its exception passes the catch of the facet by. */
  function FacetDone(sc: Scenario): Ending {
    if sc.doneFault.Some? then Crash(sc.doneFault.value, sc)
    else Ending([], Succeed(sc.now + FACET_RESCHEDULE_MS), Quiet, ResultDone)
  }

  /** refreshCore */
  ghost function CoreEnding(c: Store.Cache, leased: Job, sc: Scenario): Ending {
    if sc.readFault.Some? then Crash(sc.readFault.value, sc)
    else
      match sc.core
      case CoreThrew(fault) => CoreErrorEnding(fault, leased, sc)
      case CoreNotModified =>
        if leased.slug in c.repos && sc.touchFault.Some? then CoreErrorEnding(OtherError(sc.touchFault.value), leased, sc)
        else WithOps([Store.NotModified(leased.slug, Store.CoreFacet, sc.now)], CoreDone(leased, sc))
      case CoreFetched(node, core, latest, rs, bs, etag) =>
        var op := Store.StoreCore(leased.slug, Forms.FullFetch(node, core, latest, rs, bs, etag), sc.now, sc.storeFaults);
        var w := Store.Perform(c, op);
        WithOps([op], if w.error.Some? then CoreErrorEnding(OtherError(w.error.value), leased, sc) else CoreDone(leased, sc))
  }

  /** The tail that refreshReleases and refreshBranches share, once the answer is known. */
  ghost function FacetEnding<T>(c: Store.Cache, leased: Job, sc: Scenario, answer: FacetAnswer<T>, facet: Store.Facet, op: Store.WriteOp): Ending {
    if sc.readFault.Some? then Crash(sc.readFault.value, sc)
    else
      match answer
      case FacetThrew(fault) => FacetErrorEnding(fault, sc)
      case FacetNotModified =>
        if leased.slug in c.repos && sc.touchFault.Some? then FacetErrorEnding(OtherError(sc.touchFault.value), sc)
        else WithOps([Store.NotModified(leased.slug, facet, sc.now)], FacetDone(sc))
      case FacetFetched(_, _) =>
        var w := Store.Perform(c, op);
        WithOps([op], if w.error.Some? then FacetErrorEnding(OtherError(w.error.value), sc) else FacetDone(sc))
  }

  function ReleasesOp(leased: Job, sc: Scenario): Store.WriteOp {
    if sc.releases.FacetFetched? then
      Store.StoreReleases(leased.slug, sc.releases.items, sc.releases.etag, sc.now, sc.storeFaults.releases)
    else Store.NotModified(leased.slug, Store.ReleasesFacet, sc.now)
  }

  function BranchesOp(leased: Job, sc: Scenario): Store.WriteOp {
    if sc.branches.FacetFetched? then
      Store.StoreBranches(leased.slug, sc.branches.items, sc.branches.etag, sc.now, sc.storeFaults.branches)
    else Store.NotModified(leased.slug, Store.BranchesFacet, sc.now)
  }

  /** refreshOne: the flag and the job kind choose the path. */
  ghost function RunEnding(c: Store.Cache, leased: Job, byKind: bool, sc: Scenario): (e: Ending)
    ensures Shaped(e, sc)
  {
    if byKind && leased.kind == Releases then
      FacetEnding(c, leased, sc, sc.releases, Store.ReleasesFacet, ReleasesOp(leased, sc))
    else if byKind && leased.kind == Branches then
      FacetEnding(c, leased, sc, sc.branches, Store.BranchesFacet, BranchesOp(leased, sc))
    else CoreEnding(c, leased, sc)
  }

  ghost function CacheAfter(c: Store.Cache, leased: Job, e: Ending): Store.Cache {
    var written := Forms.PerformAll(c, e.ops);
    if e.outcome.Gone? then Store.DeleteRepo(written, leased.slug) else written
  }

  function RowAfter(row: Job, leased: Job, e: Ending): Job {
    Audited(Settled(row, leased, e.outcome), e.audit)
  }

  lemma OneOp(c: Store.Cache, op: Store.WriteOp)
    ensures Forms.PerformAll(c, [op]) == Store.Perform(c, op).cache
  {
    assert Forms.PerformAll(Store.Perform(c, op).cache, [][..]) == Store.Perform(c, op).cache;
  }

  /** A thrown exception, or the value refreshOne returned. */
  datatype Attempt = Returned(result: JobResult) | Threw(message: string)

  /** How a run leaves refreshOne, and the row at that moment. */
  function LeavesWith(e: Ending): Attempt {
    if e.outcome.Crashed? || e.outcome.Lost? || e.audit != Quiet then
      Threw(if e.result.ResultFailed? then e.result.error else "")
    else Returned(e.result)
  }

  function RowBeforeCatch(row: Job, leased: Job, e: Ending): Job {
    if e.outcome.Crashed? then row else Settled(row, leased, e.outcome)
  }

  /** What the catch adds to the row is what the ending says. */
  lemma CatchCompletesRow(row: Job, leased: Job, e: Ending, sc: Scenario)
    requires Shaped(e, sc)
    ensures var before := RowBeforeCatch(row, leased, e);
            match LeavesWith(e)
            case Returned(value) => value == e.result && RowAfter(row, leased, e) == before
            case Threw(message) =>
              && e.result == ResultFailed(message)
              && RowAfter(row, leased, e) ==
                 if sc.catchFails then before else before.(status := Failed, lockedUntil := None, lastError := Some(message))
  {
  }

  class Worker {
    const jobs: JobTable
    const cache: Store.CacheDb
    const byKind: bool

    constructor (jobs: JobTable, cache: Store.CacheDb, byKind: bool)
      ensures this.jobs == jobs && this.cache == cache && this.byKind == byKind
    {
      this.jobs, this.cache, this.byKind := jobs, cache, byKind;
    }

    /** The job update of an error handler, which may itself throw. */
    method UpdateRow(id: JobId, leased: Job, o: Outcome, result: JobResult, sc: Scenario) returns (r: Attempt)
      requires id in jobs.rows && !o.Crashed? && !o.Lost?
      modifies jobs`rows
      ensures var e := AfterUpdate(o, result, sc);
              && jobs.rows == old(jobs.rows)[id := RowBeforeCatch(old(jobs.rows)[id], leased, e)]
              && r == LeavesWith(e)
    {
      if sc.updateFault.Some? {
        return Threw(sc.updateFault.value);
      }
      jobs.Update(id, Settled(jobs.rows[id], leased, o));
      return Returned(result);
    }

    /** The awaited audit insert that follows a terminal update. */
    method InsertAudit(result: JobResult, sc: Scenario) returns (r: Attempt)
      ensures r == if sc.auditFault.Some? then Threw(sc.auditFault.value) else Returned(result)
    {
      r := if sc.auditFault.Some? then Threw(sc.auditFault.value) else Returned(result);
    }

    /** The 404 transaction: clear the foreign key and mark the job, then delete the row; all or nothing. */
    method NegativeCache(id: JobId, leased: Job, o: Outcome, fails: bool) returns (threw: bool)
      requires id in jobs.rows && o.Gone?
      modifies jobs`rows, cache
      ensures threw == fails
      ensures fails ==> jobs.rows == old(jobs.rows) && cache.View() == old(cache.View())
      ensures !fails ==> jobs.rows == old(jobs.rows)[id := Settled(old(jobs.rows)[id], leased, o)]
      ensures !fails ==> cache.View() == Store.DeleteRepo(old(cache.View()), leased.slug)
    {
      if fails {
        return true;
      }
      jobs.Update(id, Settled(jobs.rows[id], leased, o));
      cache.DeleteRepoRow(leased.slug);
      return false;
    }

    method HandleError(fault: Fault, id: JobId, leased: Job, sc: Scenario) returns (r: Attempt)
      requires id in jobs.rows
      modifies jobs`rows, cache
      ensures var e := CoreErrorEnding(fault, leased, sc);
              && jobs.rows == old(jobs.rows)[id := RowBeforeCatch(old(jobs.rows)[id], leased, e)]
              && cache.View() == (if e.outcome.Gone? then Store.DeleteRepo(old(cache.View()), leased.slug) else old(cache.View()))
              && r == LeavesWith(e)
    {
      var attempts := leased.attempts + 1;
      if IsGone(fault) {
        var marker := Gone(sc.now + FAR_FUTURE_MS, NegativeCacheError(fault));
        var threw := NegativeCache(id, leased, marker, sc.txFails);
        if threw {
          var delay := NextDelay(attempts, -1);
          r := UpdateRow(id, leased, GoneUnsaved(sc.now + delay.ms, fault.message), ResultPending, sc);
          return;
        }
        r := InsertAudit(ResultDone, sc);
        return;
      }
      if fault.GitHubError? && fault.httpStatus == 403 {
        r := InsertAudit(ResultFailed(fault.message), sc);
        if r.Returned? {
          r := UpdateRow(id, leased, Rejected(fault.message), ResultFailed(fault.message), sc);
        }
        return;
      }
      if fault.GitHubError? && fault.httpStatus == 429 {
        r := UpdateRow(id, leased, Transient(sc.now + TRANSIENT_RESCHEDULE_MS, fault.message), ResultPending, sc);
        return;
      }
      if fault.GitHubError? && fault.httpStatus >= 500 {
        r := UpdateRow(id, leased, Transient(sc.now + SERVER_ERROR_RESCHEDULE_MS, fault.message), ResultPending, sc);
        return;
      }
      if fault.GitHubUnavailable? {
        r := UpdateRow(id, leased, Transient(sc.now + TRANSIENT_RESCHEDULE_MS, fault.message), ResultPending, sc);
        return;
      }
      var delay := NextDelay(attempts, -1);
      var terminal := attempts >= MAX_ATTEMPTS;
      r := UpdateRow(id, leased, Unexpected(sc.now + delay.ms, fault.message), ResultPending, sc);
      if r.Returned? && terminal {
        r := InsertAudit(ResultFailed(fault.message), sc);
      }
    }

    method HandlePerFacetError(fault: Fault, id: JobId, leased: Job, sc: Scenario) returns (r: Attempt)
      requires id in jobs.rows
      modifies jobs`rows
      ensures var e := FacetErrorEnding(fault, sc);
              && jobs.rows == old(jobs.rows)[id := RowBeforeCatch(old(jobs.rows)[id], leased, e)]
              && r == LeavesWith(e)
    {
      if fault.GitHubError? && fault.httpStatus == 429 {
        r := UpdateRow(id, leased, Transient(sc.now + TRANSIENT_RESCHEDULE_MS, fault.message), ResultPending, sc);
      } else if fault.GitHubError? && fault.httpStatus >= 500 {
        r := UpdateRow(id, leased, Transient(sc.now + SERVER_ERROR_RESCHEDULE_MS, fault.message), ResultPending, sc);
      } else if fault.GitHubUnavailable? {
        r := UpdateRow(id, leased, Transient(sc.now + TRANSIENT_RESCHEDULE_MS, fault.message), ResultPending, sc);
      } else if fault.NotFoundError? || (fault.GitHubError? && fault.httpStatus == 404) {
        r := UpdateRow(id, leased, Rejected(fault.message), ResultFailed(fault.message), sc);
      } else {
        r := UpdateRow(id, leased, Transient(sc.now + TRANSIENT_RESCHEDULE_MS, fault.message), ResultPending, sc);
      }
    }

    /** The end of a successful core refresh; the update to done is inside the try block. */
    method FinishCore(id: JobId, leased: Job, sc: Scenario) returns (r: Attempt)
      requires id in jobs.rows
      modifies jobs`rows, cache
      ensures var e := CoreDone(leased, sc);
              && jobs.rows == old(jobs.rows)[id := RowBeforeCatch(old(jobs.rows)[id], leased, e)]
              && cache.View() == (if e.outcome.Gone? then Store.DeleteRepo(old(cache.View()), leased.slug) else old(cache.View()))
              && r == LeavesWith(e)
    {
      if sc.doneFault.Some? {
        r := HandleError(OtherError(sc.doneFault.value), id, leased, sc);
      } else {
        var delay := NextDelay(sc.refreshCount, sc.recentQueries);
        jobs.Update(id, Settled(jobs.rows[id], leased, Succeed(sc.now + delay.ms)));
        r := Returned(ResultDone);
      }
    }

    /** finishJob */
    method FinishJob(id: JobId, leased: Job, sc: Scenario) returns (r: Attempt)
      requires id in jobs.rows
      modifies jobs`rows
      ensures var e := FacetDone(sc);
              && jobs.rows == old(jobs.rows)[id := RowBeforeCatch(old(jobs.rows)[id], leased, e)]
              && r == LeavesWith(e)
    {
      if sc.doneFault.Some? {
        return Threw(sc.doneFault.value);
      }
      jobs.Update(id, Settled(jobs.rows[id], leased, Succeed(sc.now + FACET_RESCHEDULE_MS)));
      return Returned(ResultDone);
    }

    method RefreshCore(id: JobId, leased: Job, sc: Scenario) returns (r: Attempt)
      requires id in jobs.rows
      modifies jobs`rows, cache
      ensures var e := CoreEnding(old(cache.View()), leased, sc);
              && jobs.rows == old(jobs.rows)[id := RowBeforeCatch(old(jobs.rows)[id], leased, e)]
              && cache.View() == CacheAfter(old(cache.View()), leased, e)
              && r == LeavesWith(e)
    {
      ghost var before := cache.View();
      if sc.readFault.Some? {
        return Threw(sc.readFault.value);
      }
      var repo := cache.FindRepo(leased.slug);
      match sc.core {
        case CoreThrew(fault) =>
          r := HandleError(fault, id, leased, sc);
        case CoreNotModified =>
          if repo.Some? && sc.touchFault.Some? {
            r := HandleError(OtherError(sc.touchFault.value), id, leased, sc);
          } else {
            cache.Touch304(leased.slug, sc.now, Store.CoreFacet);
            OneOp(before, Store.NotModified(leased.slug, Store.CoreFacet, sc.now));
            r := FinishCore(id, leased, sc);
          }
        case CoreFetched(node, core, latest, rs, bs, etag) =>
          var d := Forms.FullFetch(node, core, latest, rs, bs, etag);
          var error := cache.StoreRepoMetadata(leased.slug, d, sc.now, sc.storeFaults);
          OneOp(before, Store.StoreCore(leased.slug, d, sc.now, sc.storeFaults));
          if error.Some? {
            r := HandleError(OtherError(error.value), id, leased, sc);
          } else {
            r := FinishCore(id, leased, sc);
          }
      }
    }

    method RefreshReleases(id: JobId, leased: Job, sc: Scenario) returns (r: Attempt)
      requires id in jobs.rows
      modifies jobs`rows, cache
      ensures var e := FacetEnding(old(cache.View()), leased, sc, sc.releases, Store.ReleasesFacet, ReleasesOp(leased, sc));
              && jobs.rows == old(jobs.rows)[id := RowBeforeCatch(old(jobs.rows)[id], leased, e)]
              && cache.View() == CacheAfter(old(cache.View()), leased, e)
              && r == LeavesWith(e)
    {
      ghost var before := cache.View();
      if sc.readFault.Some? {
        return Threw(sc.readFault.value);
      }
      var repo := cache.FindRepo(leased.slug);
      match sc.releases {
        case FacetThrew(fault) =>
          r := HandlePerFacetError(fault, id, leased, sc);
        case FacetNotModified =>
          if repo.Some? && sc.touchFault.Some? {
            r := HandlePerFacetError(OtherError(sc.touchFault.value), id, leased, sc);
          } else {
            cache.Touch304(leased.slug, sc.now, Store.ReleasesFacet);
            OneOp(before, Store.NotModified(leased.slug, Store.ReleasesFacet, sc.now));
            r := FinishJob(id, leased, sc);
          }
        case FacetFetched(items, etag) =>
          var error := cache.StoreRepoReleases(leased.slug, items, etag, sc.now, sc.storeFaults.releases);
          OneOp(before, ReleasesOp(leased, sc));
          if error.Some? {
            r := HandlePerFacetError(OtherError(error.value), id, leased, sc);
          } else {
            r := FinishJob(id, leased, sc);
          }
      }
    }

    method RefreshBranches(id: JobId, leased: Job, sc: Scenario) returns (r: Attempt)
      requires id in jobs.rows
      modifies jobs`rows, cache
      ensures var e := FacetEnding(old(cache.View()), leased, sc, sc.branches, Store.BranchesFacet, BranchesOp(leased, sc));
              && jobs.rows == old(jobs.rows)[id := RowBeforeCatch(old(jobs.rows)[id], leased, e)]
              && cache.View() == CacheAfter(old(cache.View()), leased, e)
              && r == LeavesWith(e)
    {
      ghost var before := cache.View();
      if sc.readFault.Some? {
        return Threw(sc.readFault.value);
      }
      var repo := cache.FindRepo(leased.slug);
      match sc.branches {
        case FacetThrew(fault) =>
          r := HandlePerFacetError(fault, id, leased, sc);
        case FacetNotModified =>
          if repo.Some? && sc.touchFault.Some? {
            r := HandlePerFacetError(OtherError(sc.touchFault.value), id, leased, sc);
          } else {
            cache.Touch304(leased.slug, sc.now, Store.BranchesFacet);
            OneOp(before, Store.NotModified(leased.slug, Store.BranchesFacet, sc.now));
            r := FinishJob(id, leased, sc);
          }
        case FacetFetched(items, etag) =>
          var error := cache.StoreRepoBranches(leased.slug, items, etag, sc.now, sc.storeFaults.branches);
          OneOp(before, BranchesOp(leased, sc));
          if error.Some? {
            r := HandlePerFacetError(OtherError(error.value), id, leased, sc);
          } else {
            r := FinishJob(id, leased, sc);
          }
      }
    }

    method RefreshOne(id: JobId, leased: Job, sc: Scenario) returns (r: Attempt)
      requires id in jobs.rows
      modifies jobs`rows, cache
      ensures var e := RunEnding(old(cache.View()), leased, byKind, sc);
              && jobs.rows == old(jobs.rows)[id := RowBeforeCatch(old(jobs.rows)[id], leased, e)]
              && cache.View() == CacheAfter(old(cache.View()), leased, e)
              && r == LeavesWith(e)
    {
      if byKind {
        match leased.kind {
          case Releases => r := RefreshReleases(id, leased, sc);
          case Branches => r := RefreshBranches(id, leased, sc);
          case Core => r := RefreshCore(id, leased, sc);
        }
      } else {
        r := RefreshCore(id, leased, sc);
      }
    }

    /** One job of a tick: refreshOne inside the catch that marks the job failed if it can. */
    method RunJob(id: JobId, leased: Job, sc: Scenario) returns (result: JobResult)
      requires id in jobs.rows
      modifies jobs`rows, cache
      ensures var e := RunEnding(old(cache.View()), leased, byKind, sc);
              && jobs.rows == old(jobs.rows)[id := RowAfter(old(jobs.rows)[id], leased, e)]
              && cache.View() == CacheAfter(old(cache.View()), leased, e)
              && result == e.result
    {
      ghost var row, e := jobs.rows[id], RunEnding(cache.View(), leased, byKind, sc);
      var r := RefreshOne(id, leased, sc);
      CatchCompletesRow(row, leased, e, sc);
      match r {
        case Returned(value) =>
          result := value;
        case Threw(message) =>
          if !sc.catchFails {
            jobs.Update(id, jobs.rows[id].(status := Failed, lockedUntil := None, lastError := Some(message)));
          }
          result := ResultFailed(message);
      }
    }
  }

  datatype TickResult = TickResult(claimed: nat, done: nat, pending: nat, failed: nat)

  /** The accounting at the end of runTick. */
  method Summarize(results: seq<JobResult>) returns (summary: TickResult)
    ensures summary.claimed == |results| == summary.done + summary.pending + summary.failed
    ensures summary.done == multiset(results)[ResultDone] && summary.pending == multiset(results)[ResultPending]
  {
    summary := TickResult(|results|, 0, 0, 0);
    for k := 0 to |results|
      invariant summary.claimed == |results| && k == summary.done + summary.pending + summary.failed
      invariant summary.done == multiset(results[..k])[ResultDone] && summary.pending == multiset(results[..k])[ResultPending]
    {
      assert results[..k + 1] == results[..k] + [results[k]];
      match results[k] {
        case ResultDone => summary := summary.(done := summary.done + 1);
        case ResultPending => summary := summary.(pending := summary.pending + 1);
        case ResultFailed(_) => summary := summary.(failed := summary.failed + 1);
      }
    }
    assert results[..|results|] == results;
  }
}
