/**
 What the error ladder of src/lib/jobs/refresh-one.ts and the catch of src/lib/scheduler/tick.ts around it mean, over
 every answer of GitHub and every combination of database faults. A run is described by what happened to it (which
 exception reached which handler, whether the update to done was reached), not by what it wrote.
 */
module Endings {
  import opened Common
  import opened Aging
  import Store
  import Forms
  import opened Jobs
  import opened RefreshOne
  import Lookup

  predicate CorePath(leased: Job, byKind: bool) { !byKind || leased.kind == Core }

  ghost function WriteError(c: Store.Cache, op: Store.WriteOp): Option<Fault> {
    var w := Store.Perform(c, op);
    if w.error.Some? then Some(OtherError(w.error.value)) else None
  }

  function CoreOp(leased: Job, sc: Scenario): Store.WriteOp
    requires sc.core.CoreFetched?
  {
    Store.StoreCore(leased.slug, Forms.FullFetch(sc.core.node, sc.core.core, sc.core.latest, sc.core.releases, sc.core.branches, sc.core.etag),
                    sc.now, sc.storeFaults)
  }

  function TouchError(c: Store.Cache, leased: Job, sc: Scenario): Option<Fault> {
    if leased.slug in c.repos && sc.touchFault.Some? then Some(OtherError(sc.touchFault.value)) else None
  }

  /** What stopped the run between its first reads and the update to done, if anything did. */
  ghost function Stopped(c: Store.Cache, leased: Job, byKind: bool, sc: Scenario): Option<Fault> {
    if CorePath(leased, byKind) then
      match sc.core
      case CoreThrew(fault) => Some(fault)
      case CoreNotModified => TouchError(c, leased, sc)
      case CoreFetched(_, _, _, _, _, _) => WriteError(c, CoreOp(leased, sc))
    else if leased.kind == Releases then
      match sc.releases
      case FacetThrew(fault) => Some(fault)
      case FacetNotModified => TouchError(c, leased, sc)
      case FacetFetched(_, _) => WriteError(c, ReleasesOp(leased, sc))
    else
      match sc.branches
      case FacetThrew(fault) => Some(fault)
      case FacetNotModified => TouchError(c, leased, sc)
      case FacetFetched(_, _) => WriteError(c, BranchesOp(leased, sc))
  }

  ghost predicate ReachesDone(c: Store.Cache, leased: Job, byKind: bool, sc: Scenario) {
    sc.readFault.None? && Stopped(c, leased, byKind, sc).None?
  }

  /** The exception that reaches the handler of the path: only the core path awaits the update to done inside its try. */
  ghost function Handled(c: Store.Cache, leased: Job, byKind: bool, sc: Scenario): Option<Fault> {
    if sc.readFault.Some? then None
    else if Stopped(c, leased, byKind, sc).Some? then Stopped(c, leased, byKind, sc)
    else if CorePath(leased, byKind) && sc.doneFault.Some? then Some(OtherError(sc.doneFault.value))
    else None
  }

  predicate Forbidden(fault: Fault) { fault.GitHubError? && fault.httpStatus == 403 }

  /** Errors that retry without counting an attempt. */
  predicate Passing(fault: Fault) { fault.GitHubUnavailable? || (fault.GitHubError? && (fault.httpStatus == 429 || fault.httpStatus >= 500)) }

  predicate Unforeseen(fault: Fault) { !IsGone(fault) && !Forbidden(fault) && !Passing(fault) }

  /** The handler throws before it has updated the row. */
  predicate HandlerEscapes(fault: Fault, core: bool, sc: Scenario) {
    if core && IsGone(fault) then sc.txFails && sc.updateFault.Some?
    else if core && Forbidden(fault) then sc.auditFault.Some? || sc.updateFault.Some?
    else sc.updateFault.Some?
  }

  /** An exception leaves refreshOne with the row as it was. */
  ghost predicate Escapes(c: Store.Cache, leased: Job, byKind: bool, sc: Scenario) {
    || sc.readFault.Some?
    || (ReachesDone(c, leased, byKind, sc) && !CorePath(leased, byKind) && sc.doneFault.Some?)
    || (Handled(c, leased, byKind, sc).Some? && HandlerEscapes(Handled(c, leased, byKind, sc).value, CorePath(leased, byKind), sc))
  }

  /** A row as a claim returns it. */
  predicate IsLease(job: Job) { job.status == InProgress && job.lockedUntil.Some? }

  // ---------------------------------------------------------------------------------------------
  // The ending of a run, from what happened to it.
  // ---------------------------------------------------------------------------------------------

  /** The three ways a run can end: at the update to done, in its handler, or by an exception that no handler sees. */
  lemma EndingFromEvents(c: Store.Cache, leased: Job, byKind: bool, sc: Scenario)
    ensures var e, core := RunEnding(c, leased, byKind, sc), CorePath(leased, byKind);
            var handled := Handled(c, leased, byKind, sc);
            && |e.ops| <= 1 && (e.ops != [] ==> !e.ops[0].Delete? && e.ops[0].slug == leased.slug)
            && (sc.readFault.Some? ==> e == Crash(sc.readFault.value, sc))
            && (handled.Some? ==> e.(ops := []) == if core then CoreErrorEnding(handled.value, leased, sc) else FacetErrorEnding(handled.value, sc))
            && (ReachesDone(c, leased, byKind, sc) && handled.None? ==>
                  e.(ops := []) == if sc.doneFault.Some? then Crash(sc.doneFault.value, sc)
                                   else Ending([], Succeed(sc.now + if core then NextDelay(sc.refreshCount, sc.recentQueries).ms else FACET_RESCHEDULE_MS),
                                               Quiet, ResultDone))
  {
    hide CoreErrorEnding, FacetErrorEnding, Store.Perform, Forms.FullFetch, NextDelay;
  }

  /** What the ladder of each handler makes of an error. */
  lemma HandlerMeaning(fault: Fault, leased: Job, sc: Scenario, core: bool)
    requires IsLease(leased)
    ensures var e := if core then CoreErrorEnding(fault, leased, sc) else FacetErrorEnding(fault, sc);
            var row := RowAfter(leased, leased, e);
            && (HandlerEscapes(fault, core, sc) <==> e.outcome.Crashed? || e.outcome.Lost?)
            && (e.outcome.Gone? <==> core && IsGone(fault) && !sc.txFails)
            && (row.status == Pending <==> e.result.ResultPending?)
            && (e.result.ResultDone? <==> e.outcome.Gone? && e.audit.Quiet?)
            && row.status != Done
            && (row.attempts == leased.attempts + 1 <==> core && (IsGone(fault) || Unforeseen(fault)) && !HandlerEscapes(fault, core, sc))
            && (row.attempts == leased.attempts || row.attempts == leased.attempts + 1)
            && (row.status == Pending ==> sc.now + SERVER_ERROR_RESCHEDULE_MS <= row.scheduledFor <= sc.now + TWENTY_FOUR_HOURS_MS)
            && (core && Unforeseen(fault) && !HandlerEscapes(fault, core, sc) ==>
                  (row.status == Failed <==> NextDelay(leased.attempts + 1, -1).failure) && (row.status == Pending <==> leased.attempts + 1 < MAX_ATTEMPTS))
  {
  }

  // ---------------------------------------------------------------------------------------------
  // What every run promises.
  // ---------------------------------------------------------------------------------------------

  /**
   The reported result agrees with the row: pending exactly if the row is pending again, done exactly if the row is
   done or the run committed a 404 whose marker is intact.
   */
  lemma ResultAgreesWithRow(c: Store.Cache, leased: Job, byKind: bool, sc: Scenario)
    requires IsLease(leased)
    ensures var e := RunEnding(c, leased, byKind, sc);
            var row := RowAfter(leased, leased, e);
            && (e.result.ResultPending? <==> row.status == Pending)
            && (e.result.ResultDone? <==> row.status == Done || (e.outcome.Gone? && e.audit.Quiet?))
            && (e.outcome.Gone? && e.audit.Quiet? ==> Lookup.IsMarker(row, leased.slug))
  {
    EndingFromEvents(c, leased, byKind, sc);
    if Handled(c, leased, byKind, sc).Some? {
      HandlerMeaning(Handled(c, leased, byKind, sc).value, leased, sc, CorePath(leased, byKind));
      GoneIsMarked(Handled(c, leased, byKind, sc).value, leased, sc);
    }
    hide RunEnding, CoreErrorEnding, FacetErrorEnding, Handled, NextDelay, Lookup.IsMarker;
  }

  lemma GoneIsMarked(fault: Fault, leased: Job, sc: Scenario)
    ensures var e := CoreErrorEnding(fault, leased, sc);
            e.outcome.Gone? && e.audit.Quiet? ==> Lookup.IsMarker(RowAfter(leased, leased, e), leased.slug)
    ensures !FacetErrorEnding(fault, sc).outcome.Gone?
  {
    if IsGone(fault) {
      var text := NegativeCacheError(fault);
      assert NOT_FOUND_PREFIX == text[..|NOT_FOUND_PREFIX|];
    }
  }

  /** A row stays locked exactly if an exception escapes before the update and the update of the tick's catch fails too. */
  lemma LockedIff(c: Store.Cache, leased: Job, byKind: bool, sc: Scenario)
    requires IsLease(leased)
    ensures var e := RunEnding(c, leased, byKind, sc);
            var row := RowAfter(leased, leased, e);
            && (row.lockedUntil.Some? <==> sc.catchFails && Escapes(c, leased, byKind, sc))
            && (row.lockedUntil.Some? <==> row.status == InProgress) && (row.lockedUntil.Some? <==> e.outcome.Lost?)
            && (row.lockedUntil.Some? ==> row == leased)
  {
    EndingFromEvents(c, leased, byKind, sc);
    if Handled(c, leased, byKind, sc).Some? {
      HandlerMeaning(Handled(c, leased, byKind, sc).value, leased, sc, CorePath(leased, byKind));
    }
    hide RunEnding, CoreErrorEnding, FacetErrorEnding, Handled, NextDelay, HandlerEscapes, Stopped;
  }

  /** An attempt is counted exactly for a missing repository or an unforeseen error on the core path, once the row is updated. */
  lemma AttemptCountedIff(c: Store.Cache, leased: Job, byKind: bool, sc: Scenario)
    requires IsLease(leased)
    ensures var row, handled := RowAfter(leased, leased, RunEnding(c, leased, byKind, sc)), Handled(c, leased, byKind, sc);
            && (row.attempts == leased.attempts || row.attempts == leased.attempts + 1)
            && (row.attempts == leased.attempts + 1 <==>
                  CorePath(leased, byKind) && handled.Some? && (IsGone(handled.value) || Unforeseen(handled.value))
                  && !HandlerEscapes(handled.value, true, sc))
  {
    EndingFromEvents(c, leased, byKind, sc);
    if Handled(c, leased, byKind, sc).Some? {
      HandlerMeaning(Handled(c, leased, byKind, sc).value, leased, sc, CorePath(leased, byKind));
    }
    hide RunEnding, CoreErrorEnding, FacetErrorEnding, Handled, NextDelay, HandlerEscapes, IsGone, Unforeseen;
  }

  /** A repository row disappears exactly by a committed 404 of a core refresh. */
  lemma RowDeletedIff(c: Store.Cache, leased: Job, byKind: bool, sc: Scenario)
    requires leased.slug in c.repos
    ensures leased.slug !in CacheAfter(c, leased, RunEnding(c, leased, byKind, sc)).repos <==>
              CorePath(leased, byKind) && sc.readFault.None? && sc.core.CoreThrew? && IsGone(sc.core.fault) && !sc.txFails
  {
    EndingFromEvents(c, leased, byKind, sc);
    GoneIff(c, leased, byKind, sc);
    var e := RunEnding(c, leased, byKind, sc);
    if e.ops != [] {
      assert e.ops == [e.ops[0]];
      OneOp(c, e.ops[0]);
      WriteKeepsRow(c, e.ops[0]);
    }
    hide RunEnding, CoreErrorEnding, FacetErrorEnding, Handled, NextDelay, Store.Perform;
  }

  lemma WriteKeepsRow(c: Store.Cache, op: Store.WriteOp)
    requires op.slug in c.repos && !op.Delete?
    ensures op.slug in Store.Perform(c, op).cache.repos
  {
  }

  lemma GoneIff(c: Store.Cache, leased: Job, byKind: bool, sc: Scenario)
    ensures RunEnding(c, leased, byKind, sc).outcome.Gone? <==>
              CorePath(leased, byKind) && sc.readFault.None? && sc.core.CoreThrew? && IsGone(sc.core.fault) && !sc.txFails
  {
    hide Store.Perform, Forms.FullFetch, NextDelay;
  }

  /** A pending row is due again between five seconds and a day from now. */
  lemma RetriedSoonEnough(c: Store.Cache, leased: Job, byKind: bool, sc: Scenario)
    requires IsLease(leased)
    ensures var row := RowAfter(leased, leased, RunEnding(c, leased, byKind, sc));
            row.status == Pending ==> sc.now + SERVER_ERROR_RESCHEDULE_MS <= row.scheduledFor <= sc.now + TWENTY_FOUR_HOURS_MS
  {
    EndingFromEvents(c, leased, byKind, sc);
    if Handled(c, leased, byKind, sc).Some? {
      HandlerMeaning(Handled(c, leased, byKind, sc).value, leased, sc, CorePath(leased, byKind));
    }
    hide RunEnding, CoreErrorEnding, FacetErrorEnding, Handled, NextDelay;
  }

  /** An unforeseen error fails the job exactly when nextDelay raises its failure flag, and retries it otherwise. */
  lemma TerminalIffDelayFlag(c: Store.Cache, leased: Job, byKind: bool, sc: Scenario)
    requires IsLease(leased) && CorePath(leased, byKind)
    requires Handled(c, leased, byKind, sc).Some? && Unforeseen(Handled(c, leased, byKind, sc).value) && sc.updateFault.None?
    ensures var row := RowAfter(leased, leased, RunEnding(c, leased, byKind, sc));
            && (row.status == Failed <==> NextDelay(leased.attempts + 1, -1).failure)
            && (row.status == Pending <==> !NextDelay(leased.attempts + 1, -1).failure)
  {
    EndingFromEvents(c, leased, byKind, sc);
    HandlerMeaning(Handled(c, leased, byKind, sc).value, leased, sc, true);
    hide RunEnding, CoreErrorEnding, FacetErrorEnding, Handled, Stopped;
  }

  // ---------------------------------------------------------------------------------------------
  // The columns of the row, in figures.
  // ---------------------------------------------------------------------------------------------

  /** An unforeseen error of a core refresh, once the row is updated: every column of the row. */
  lemma UnforeseenErrorRow(c: Store.Cache, row: Job, leased: Job, byKind: bool, sc: Scenario)
    requires !byKind || leased.kind == Core
    requires sc.updateFault.None? && Handled(c, leased, byKind, sc).Some?
    requires match Handled(c, leased, byKind, sc).value
             case OtherError(_) => true
             case GitHubError(status, _) => status < 500 && status !in {403, 404, 410, 429}
             case _ => false
    ensures var after, a, minute := RowAfter(row, leased, RunEnding(c, leased, byKind, sc)), leased.attempts, 60_000;
            && after.scheduledFor - sc.now == (if a == 0 then 5 * minute else if a == 1 then 15 * minute else if a == 2 then 60 * minute
                                               else if a == 3 then 360 * minute else 1440 * minute)
            && after.attempts == a + 1 && after.lockedUntil == None
            && (after.status == Failed <==> a >= 4) && (after.status == Pending <==> a < 4)
            && (sc.auditFault.None? || a < 4 ==> after.lastError == Some(Handled(c, leased, byKind, sc).value.message))
            && after == row.(scheduledFor := after.scheduledFor, attempts := after.attempts, lockedUntil := None,
                             status := after.status, lastError := after.lastError)
  {
    EndingFromEvents(c, leased, byKind, sc);
    hide RunEnding, Stopped;
  }

  /** A missing repository: the marker a year ahead, or, when the transaction fails, the failure ladder. */
  lemma MissingRepositoryRow(c: Store.Cache, row: Job, leased: Job, byKind: bool, sc: Scenario)
    requires (!byKind || leased.kind == Core) && sc.readFault.None? && sc.core.CoreThrew?
    requires sc.core.fault.NotFoundError? || (sc.core.fault.GitHubError? && sc.core.fault.httpStatus in {404, 410})
    requires sc.updateFault.None? && sc.auditFault.None?
    ensures var after, a, minute := RowAfter(row, leased, RunEnding(c, leased, byKind, sc)), leased.attempts, 60_000;
            && after.attempts == a + 1 && after.lockedUntil == None
            && (sc.txFails ==>
                  && after.status == Pending && after.lastError == Some(sc.core.fault.message) && after.repositoryId == row.repositoryId
                  && after.scheduledFor - sc.now == (if a == 0 then 5 * minute else if a == 1 then 15 * minute else if a == 2 then 60 * minute
                                                     else if a == 3 then 360 * minute else 1440 * minute))
            && (!sc.txFails ==>
                  && after.status == Failed && after.repositoryId == None && after.scheduledFor - sc.now == 365 * 1440 * minute
                  && after.lastError == Some((if sc.core.fault == GitHubError(410, sc.core.fault.message) then "not_found: 410 " else "not_found: 404 ")
                                             + sc.core.fault.message))
            && after == row.(scheduledFor := after.scheduledFor, attempts := after.attempts, lockedUntil := None, status := after.status,
                             lastError := after.lastError, repositoryId := after.repositoryId)
  {
    EndingFromEvents(c, leased, byKind, sc);
    hide RunEnding;
  }

  /** Every other error that a handler sees, once the row is updated: forbidden, rate limits, servers that are down, facets. */
  lemma OtherErrorRow(c: Store.Cache, row: Job, leased: Job, byKind: bool, sc: Scenario)
    requires sc.updateFault.None? && sc.auditFault.None? && Handled(c, leased, byKind, sc).Some?
    ensures var after, core, fault := RowAfter(row, leased, RunEnding(c, leased, byKind, sc)), !byKind || leased.kind == Core, Handled(c, leased, byKind, sc).value;
            var free := row.(lockedUntil := None, lastError := Some(fault.message));
            && (fault.GitHubError? && fault.httpStatus == 429 ==> after == free.(status := Pending, scheduledFor := sc.now + 30_000))
            && (fault.GitHubError? && fault.httpStatus >= 500 ==> after == free.(status := Pending, scheduledFor := sc.now + 5_000))
            && (fault.GitHubUnavailable? ==> after == free.(status := Pending, scheduledFor := sc.now + 30_000))
            && (core && fault.GitHubError? && fault.httpStatus == 403 ==> after == free.(status := Failed))
            && (!core && (fault.NotFoundError? || (fault.GitHubError? && fault.httpStatus == 404)) ==> after == free.(status := Failed))
            && (!core && (fault.OtherError? || (fault.GitHubError? && fault.httpStatus < 500 && fault.httpStatus !in {404, 429})) ==>
                  after == free.(status := Pending, scheduledFor := sc.now + 30_000))
  {
    EndingFromEvents(c, leased, byKind, sc);
    hide RunEnding, Stopped, NextDelay;
  }

  /** A refresh that reaches the update to done: hourly at first or while often asked for, then six hours, then a week; a facet a minute. */
  lemma DoneRow(c: Store.Cache, row: Job, leased: Job, byKind: bool, sc: Scenario)
    requires ReachesDone(c, leased, byKind, sc) && sc.doneFault.None?
    ensures var e, core, hour := RunEnding(c, leased, byKind, sc), !byKind || leased.kind == Core, 3_600_000;
            && e.result == ResultDone
            && RowAfter(row, leased, e) ==
               row.(status := Done, lockedUntil := None, lastError := None,
                    scheduledFor := sc.now + if !core then 60_000
                                             else if sc.recentQueries > 10 || sc.refreshCount == 0 then hour
                                             else if sc.refreshCount == 1 then 6 * hour
                                             else 168 * hour)
  {
    EndingFromEvents(c, leased, byKind, sc);
    hide RunEnding, Stopped, CoreErrorEnding, FacetErrorEnding;
  }

  /** Which outcomes await an audit, and what its failure does: the catch fails and unlocks the row and replaces the error. */
  lemma AuditedRow(c: Store.Cache, row: Job, leased: Job, byKind: bool, sc: Scenario)
    ensures var e := RunEnding(c, leased, byKind, sc);
            && (AwaitsAudit(leased, e.outcome) <==> e.outcome.Gone? || (e.outcome.Unexpected? && leased.attempts >= 4))
            && (AwaitsAudit(leased, e.outcome) && sc.auditFault.Some? && !sc.catchFails ==>
                  RowAfter(row, leased, e) == Settled(row, leased, e.outcome).(status := Failed, lockedUntil := None, lastError := sc.auditFault))
            && (!AwaitsAudit(leased, e.outcome) || sc.auditFault.None? || sc.catchFails ==> RowAfter(row, leased, e) == Settled(row, leased, e.outcome))
            && (AwaitsAudit(leased, e.outcome) && sc.auditFault.Some? ==> e.result == ResultFailed(sc.auditFault.value))
  {
    EndingFromEvents(c, leased, byKind, sc);
    hide RunEnding, Stopped, NextDelay, NegativeCacheError;
  }

  /** An exception that escapes: the tick's catch fails the job and nothing else, if its own update works. */
  lemma EscapedRow(c: Store.Cache, row: Job, leased: Job, byKind: bool, sc: Scenario)
    requires Escapes(c, leased, byKind, sc) && !sc.catchFails
    ensures var after := RowAfter(row, leased, RunEnding(c, leased, byKind, sc));
            after.lastError.Some? && after == row.(status := Failed, lockedUntil := None, lastError := after.lastError)
    ensures sc.readFault.Some? ==> RowAfter(row, leased, RunEnding(c, leased, byKind, sc)).lastError == sc.readFault
  {
    EndingFromEvents(c, leased, byKind, sc);
    hide RunEnding, Stopped, NextDelay;
  }

  /**
   A database fault on the update to done, with no other fault: the job is retried exactly if the run was a core
   refresh with attempts left, and failed otherwise, whatever the row held by then. The facet paths return that
   update without awaiting it, so their catch never sees the exception; what was fetched stays stored either way.
   */
  lemma FaultOnDoneIsRetriedIff(c: Store.Cache, row: Job, leased: Job, byKind: bool, sc: Scenario)
    requires IsLease(leased) && ReachesDone(c, leased, byKind, sc) && sc.doneFault.Some? && sc.updateFault.None? && !sc.catchFails
    ensures var e := RunEnding(c, leased, byKind, sc);
            var after := RowAfter(row, leased, e);
            && (after.status == Pending <==> CorePath(leased, byKind) && leased.attempts + 1 < MAX_ATTEMPTS)
            && (after.status == Failed <==> after.status != Pending)
            && CacheAfter(c, leased, e) == CacheAfter(c, leased, RunEnding(c, leased, byKind, sc.(doneFault := None)))
  {
    EndingFromEvents(c, leased, byKind, sc);
    if CorePath(leased, byKind) {
      HandlerMeaning(OtherError(sc.doneFault.value), leased, sc, true);
    }
    SameOps(c, leased, byKind, sc);
    LockedIff(c, leased, byKind, sc);
    assert RowAfter(row, leased, RunEnding(c, leased, byKind, sc)).status == RowAfter(leased, leased, RunEnding(c, leased, byKind, sc)).status;
    hide RunEnding, CoreErrorEnding, FacetErrorEnding, Stopped, NextDelay, Store.Perform;
  }

  lemma SameOps(c: Store.Cache, leased: Job, byKind: bool, sc: Scenario)
    requires ReachesDone(c, leased, byKind, sc) && sc.doneFault.Some?
    ensures var e, e' := RunEnding(c, leased, byKind, sc), RunEnding(c, leased, byKind, sc.(doneFault := None));
            e.ops == e'.ops && !e.outcome.Gone? && !e'.outcome.Gone?
  {
    hide Store.Perform, Forms.FullFetch, NextDelay;
  }
}
