/**
 One refreshOne call with the tick's catch around it as a run of the step system, so that the theorems about runs speak
 of the code path of method RefreshOne.Worker.RunJob.
 */
module RefreshRuns {
  import opened Common
  import opened Aging
  import Store
  import Forms
  import opened Jobs
  import opened RefreshOne
  import Lookup
  import opened JobSystem
  import opened QueueRuns
  import Endings

  function StepsOf(rid: RunnerId, leased: Job, e: Ending): seq<Step> {
    (if e.ops == [] then [] else [Write(rid, e.ops[0])])
    + [Finish(rid, e.outcome)]
    + if AwaitsAudit(leased, e.outcome) then [EndAudit(rid, e.audit)] else []
  }

  /** What the step system asks of an ending. */
  ghost predicate Planned(e: Ending, leased: Job) {
    && |e.ops| <= 1
    && (e.ops != [] ==> !e.ops[0].Delete? && e.ops[0].slug == leased.slug)
    && (e.outcome.Gone? ==> StartsWith(e.outcome.error, NOT_FOUND_PREFIX))
    && (!AwaitsAudit(leased, e.outcome) ==> e.audit == Quiet)
  }

  lemma RunEndingIsPlanned(c: Store.Cache, leased: Job, byKind: bool, sc: Scenario)
    ensures Planned(RunEnding(c, leased, byKind, sc), leased)
  {
    Endings.EndingFromEvents(c, leased, byKind, sc);
    var handled := Endings.Handled(c, leased, byKind, sc);
    if handled.Some? {
      CoreErrorIsPlanned(handled.value, leased, sc);
    }
    hide RunEnding, CoreErrorEnding, Endings.Stopped, NextDelay;
  }

  lemma CoreErrorIsPlanned(fault: Fault, leased: Job, sc: Scenario)
    ensures Planned(CoreErrorEnding(fault, leased, sc), leased) && Planned(FacetErrorEnding(fault, sc), leased)
  {
    if IsGone(fault) {
      var text := NegativeCacheError(fault);
      assert NOT_FOUND_PREFIX == text[..|NOT_FOUND_PREFIX|];
    }
  }

  /** Updating the row, then awaiting the audit. */
  lemma TailIsARun(s: Sys, rid: RunnerId, e: Ending)
    requires Sound(s) && rid in s.runners && s.runners[rid].phase == Working && Planned(e, s.runners[rid].leased)
    ensures var r := s.runners[rid];
            var steps := [Finish(rid, e.outcome)] + if AwaitsAudit(r.leased, e.outcome) then [EndAudit(rid, e.audit)] else [];
            && Run(s, steps)
            && var s' := After(s, steps);
            && s'.jobs == s.jobs[r.job := RowAfter(s.jobs[r.job], r.leased, e)]
            && s'.cache == (if e.outcome.Gone? then Store.DeleteRepo(s.cache, r.leased.slug) else s.cache)
            && s'.runners == s.runners - {rid}
  {
    var r := s.runners[rid];
    var finish, audit := Finish(rid, e.outcome), EndAudit(rid, e.audit);
    var s1 := Apply(s, finish);
    if AwaitsAudit(r.leased, e.outcome) {
      var s2 := Apply(s1, audit);
      assert After(s2, []) == s2;
      assert [audit][1..] == [] && After(s1, [audit]) == s2;
      assert ([finish] + [audit])[1..] == [audit];
    } else {
      assert After(s1, []) == s1;
      assert ([finish] + [])[1..] == [];
    }
  }

  /**
   One refreshOne call, with the tick's catch around it, is a run of the step system: its writes, row
   update and audit lead exactly where method RunJob leaves the tables. So every theorem about runs
   covers the code path of that method.
   */
  lemma RunJobIsARun(s: Sys, rid: RunnerId, byKind: bool, sc: Scenario)
    requires Sound(s) && rid in s.runners && s.runners[rid].phase == Working
    ensures var r := s.runners[rid];
            var e := RunEnding(s.cache, r.leased, byKind, sc);
            && Run(s, StepsOf(rid, r.leased, e))
            && var s' := After(s, StepsOf(rid, r.leased, e));
            && s'.jobs == s.jobs[r.job := RowAfter(s.jobs[r.job], r.leased, e)]
            && s'.cache == CacheAfter(s.cache, r.leased, e)
            && s'.runners == s.runners - {rid}
  {
    var r := s.runners[rid];
    var e := RunEnding(s.cache, r.leased, byKind, sc);
    RunEndingIsPlanned(s.cache, r.leased, byKind, sc);
    EndingIsARun(s, rid, e);
  }

  lemma EndingIsARun(s: Sys, rid: RunnerId, e: Ending)
    requires Sound(s) && rid in s.runners && s.runners[rid].phase == Working && Planned(e, s.runners[rid].leased)
    ensures var r := s.runners[rid];
            && Run(s, StepsOf(rid, r.leased, e))
            && var s' := After(s, StepsOf(rid, r.leased, e));
            && s'.jobs == s.jobs[r.job := RowAfter(s.jobs[r.job], r.leased, e)]
            && s'.cache == CacheAfter(s.cache, r.leased, e)
            && s'.runners == s.runners - {rid}
  {
    var r := s.runners[rid];
    var tail := [Finish(rid, e.outcome)] + if AwaitsAudit(r.leased, e.outcome) then [EndAudit(rid, e.audit)] else [];
    if e.ops == [] {
      assert StepsOf(rid, r.leased, e) == tail;
      TailIsARun(s, rid, e);
    } else {
      var write := Write(rid, e.ops[0]);
      assert e.ops == [e.ops[0]];
      OneOp(s.cache, e.ops[0]);
      StepKeepsSound(s, write);
      TailIsARun(Apply(s, write), rid, e);
      assert StepsOf(rid, r.leased, e) == [write] + tail;
      assert ([write] + tail)[1..] == tail;
    }
  }

  /**
   A core refresh that finds the repository gone, as a run from any state. If the transaction commits, the repository
   row is gone, the job is the negative-cache marker, and on every continuation that spares it no later lookup queues the
   repository; if it fails, the cache is untouched and the job is pending, unlocked and due on the failure ladder.
   */
  lemma NotFoundRun(s: Sys, rid: RunnerId, byKind: bool, sc: Scenario, rest: seq<Step>)
    requires Inv(s) && rid in s.runners && s.runners[rid].phase == Working
    requires Endings.CorePath(s.runners[rid].leased, byKind) && sc.readFault.None? && sc.core.CoreThrew? && IsGone(sc.core.fault)
    requires var r := s.runners[rid];
             var steps := StepsOf(rid, r.leased, RunEnding(s.cache, r.leased, byKind, sc));
             Run(s, steps) && Run(After(s, steps), rest) && RunSpares(After(s, steps), rest, r.job)
    ensures var r := s.runners[rid];
            var s1 := After(s, StepsOf(rid, r.leased, RunEnding(s.cache, r.leased, byKind, sc)));
            && (!sc.txFails && sc.auditFault.None? ==>
                  && r.leased.slug !in s1.cache.repos && MarkerAt(s1, r.job, r.leased.slug)
                  && NoneQueues(After(s1, rest), r.leased.slug, s1.nextRequest) && NoInsertBy(s1, rest, r.leased.slug, s1.nextRequest))
            && (sc.txFails && sc.updateFault.None? ==>
                  && s1.cache == s.cache && r.job in s1.jobs && s1.jobs[r.job].status == Pending && s1.jobs[r.job].lockedUntil == None
                  && s1.jobs[r.job].scheduledFor == sc.now + FailureDelay(r.leased.attempts + 1).ms)
  {
    var r := s.runners[rid];
    var e := RunEnding(s.cache, r.leased, byKind, sc);
    RunJobIsARun(s, rid, byKind, sc);
    GoneEnding(s.cache, s.jobs[r.job], r.leased, byKind, sc);
    var s1 := After(s, StepsOf(rid, r.leased, e));
    if !sc.txFails && sc.auditFault.None? {
      hide RunEnding, StepsOf;
      SoundAfterRun(s, rid, byKind, sc);
      assert NoWorker(s1, r.job) && NoneQueues(s1, r.leased.slug, s1.nextRequest);
      NoneQueuesAlongRuns(s1, rest, r.job, r.leased.slug, s1.nextRequest);
    }
  }

  lemma SoundAfterRun(s: Sys, rid: RunnerId, byKind: bool, sc: Scenario)
    requires Sound(s) && rid in s.runners && s.runners[rid].phase == Working
    requires Run(s, StepsOf(rid, s.runners[rid].leased, RunEnding(s.cache, s.runners[rid].leased, byKind, sc)))
    ensures Sound(After(s, StepsOf(rid, s.runners[rid].leased, RunEnding(s.cache, s.runners[rid].leased, byKind, sc))))
  {
    SoundAlongRuns(s, StepsOf(rid, s.runners[rid].leased, RunEnding(s.cache, s.runners[rid].leased, byKind, sc)));
  }

  lemma GoneEnding(c: Store.Cache, row: Job, leased: Job, byKind: bool, sc: Scenario)
    requires row.slug == leased.slug && Endings.CorePath(leased, byKind) && sc.readFault.None? && sc.core.CoreThrew? && IsGone(sc.core.fault)
    ensures var e := RunEnding(c, leased, byKind, sc);
            && (!sc.txFails && sc.auditFault.None? ==>
                  CacheAfter(c, leased, e) == Store.DeleteRepo(c, leased.slug) && Lookup.IsMarker(RowAfter(row, leased, e), leased.slug))
            && (sc.txFails && sc.updateFault.None? ==>
                  && CacheAfter(c, leased, e) == c
                  && RowAfter(row, leased, e).status == Pending && RowAfter(row, leased, e).lockedUntil == None
                  && RowAfter(row, leased, e).scheduledFor == sc.now + FailureDelay(leased.attempts + 1).ms)
  {
    CoreErrorIsPlanned(sc.core.fault, leased, sc);
  }

  // ---------------------------------------------------------------------------------------------
  // The two stored forms along refreshes.
  // ---------------------------------------------------------------------------------------------

  /** One refresh: the claimed row, the flag, and everything that happens to it. */
  datatype Refresh = Refresh(leased: Job, byKind: bool, sc: Scenario)

  /** What was fetched repeats no name, and no store transaction of the run fails; everything else may. */
  ghost predicate StoresCleanly(r: Refresh) {
    && (r.sc.core.CoreFetched? ==> Store.DistinctTags(r.sc.core.releases) && Store.DistinctNames(r.sc.core.branches))
    && (r.sc.releases.FacetFetched? ==> Store.DistinctTags(r.sc.releases.items))
    && (r.sc.branches.FacetFetched? ==> Store.DistinctNames(r.sc.branches.items))
    && r.sc.storeFaults == Store.NO_FAULTS
  }

  ghost function CacheAfterAll(c: Store.Cache, refreshes: seq<Refresh>): Store.Cache
    decreases |refreshes|
  {
    if refreshes == [] then c
    else
      var r := refreshes[0];
      CacheAfterAll(CacheAfter(c, r.leased, RunEnding(c, r.leased, r.byKind, r.sc)), refreshes[1..])
  }

  /** The writes of one refresh, a committed 404 included, as one list. */
  ghost function OpsOf(c: Store.Cache, r: Refresh): seq<Store.WriteOp> {
    var e := RunEnding(c, r.leased, r.byKind, r.sc);
    e.ops + if e.outcome.Gone? then [Store.Delete(r.leased.slug)] else []
  }

  lemma RefreshIsItsWrites(c: Store.Cache, r: Refresh)
    ensures CacheAfter(c, r.leased, RunEnding(c, r.leased, r.byKind, r.sc)) == Forms.PerformAll(c, OpsOf(c, r))
    ensures StoresCleanly(r) ==> forall op | op in OpsOf(c, r) :: Forms.Clean(op)
  {
    var e := RunEnding(c, r.leased, r.byKind, r.sc);
    GoneHasNoOps(c, r.leased, r.byKind, r.sc);
    OneOp(c, Store.Delete(r.leased.slug));
    assert e.ops + [] == e.ops && [] + [Store.Delete(r.leased.slug)] == [Store.Delete(r.leased.slug)];
    OpsAreClean(c, r);
  }

  lemma GoneHasNoOps(c: Store.Cache, leased: Job, byKind: bool, sc: Scenario)
    ensures RunEnding(c, leased, byKind, sc).outcome.Gone? ==> RunEnding(c, leased, byKind, sc).ops == []
  {
    hide Store.Perform, Forms.FullFetch, NextDelay;
  }

  lemma OpsAreClean(c: Store.Cache, r: Refresh)
    ensures StoresCleanly(r) ==> forall op | op in RunEnding(c, r.leased, r.byKind, r.sc).ops :: Forms.Clean(op)
  {
    hide Store.Perform, NextDelay, Store.DistinctTags, Store.DistinctNames;
  }

  /**
   Along every sequence of refreshes, core and facet, with whatever answers and faults, the two forms of every repository
   agree at the end, as long as no stored list repeats a name and no store transaction fails.
   */
  lemma {:induction false} FormsAgreeAlongRefreshes(c: Store.Cache, refreshes: seq<Refresh>)
    requires Store.WellFormed(c) && Forms.AllFormsAgree(c) && forall r | r in refreshes :: StoresCleanly(r)
    ensures Store.WellFormed(CacheAfterAll(c, refreshes)) && Forms.AllFormsAgree(CacheAfterAll(c, refreshes))
    decreases |refreshes|
  {
    hide RunEnding, CacheAfter, OpsOf, StoresCleanly, Store.WellFormed, Forms.AllFormsAgree;
    if refreshes != [] {
      var r := refreshes[0];
      assert r in refreshes;
      RefreshIsItsWrites(c, r);
      Forms.FormsAgreeAlongRuns(c, OpsOf(c, r));
      FormsAgreeAlongRefreshes(CacheAfter(c, r.leased, RunEnding(c, r.leased, r.byKind, r.sc)), refreshes[1..]);
    }
  }
}
