/** How often a job is attempted, and how many unexpected errors it survives. */
module Attempts {
  import opened Common
  import opened Aging
  import opened Jobs
  import opened RefreshOne
  import opened JobSystem
  import opened QueueRuns

  predicate ClaimsJob(step: Step, id: JobId) { step.Claim? && id in step.ids }

  /** The step records an outcome of `id` that the error handlers count as an attempt. */
  ghost predicate CountsError(s: Sys, step: Step, id: JobId)
    requires Enabled(s, step)
  {
    && step.Finish? && s.runners[step.rid].job == id
    && (step.outcome.Gone? || step.outcome.GoneUnsaved? || step.outcome.Unexpected?)
  }

  ghost predicate IsUnexpected(s: Sys, step: Step, id: JobId)
    requires Enabled(s, step)
  {
    step.Finish? && s.runners[step.rid].job == id && step.outcome.Unexpected?
  }

  function ClaimsOf(steps: seq<Step>, id: JobId): nat {
    if steps == [] then 0 else (if ClaimsJob(steps[0], id) then 1 else 0) + ClaimsOf(steps[1..], id)
  }

  function RetriesOf(steps: seq<Step>, id: JobId): nat {
    if steps == [] then 0 else (if Retries(steps[0], id) then 1 else 0) + RetriesOf(steps[1..], id)
  }

  ghost function CountedErrors(s: Sys, steps: seq<Step>, id: JobId): nat
    requires Run(s, steps)
    decreases |steps|
  {
    if steps == [] then 0
    else (if CountsError(s, steps[0], id) then 1 else 0) + CountedErrors(Apply(s, steps[0]), steps[1..], id)
  }

  ghost function UnexpectedErrors(s: Sys, steps: seq<Step>, id: JobId): nat
    requires Run(s, steps)
    decreases |steps|
  {
    if steps == [] then 0
    else (if IsUnexpected(s, steps[0], id) then 1 else 0) + UnexpectedErrors(Apply(s, steps[0]), steps[1..], id)
  }

  lemma AttemptsStep(s: Sys, step: Step, id: JobId)
    requires Inv(s) && Enabled(s, step) && id in s.jobs
    ensures var s' := Apply(s, step);
            && id in s'.jobs
            && s'.jobs[id].attempts == s.jobs[id].attempts
                 + (if ClaimsJob(step, id) then 1 else 0) + (if CountsError(s, step, id) then 1 else 0)
  {
    if step.Finish? {
      AttemptsAtFinish(s, step, id);
    } else {
      hide Settled, Store.Perform, Store.DeleteRepo, OneHolder, RequestsOk, Holds, IsFirstBatch, AddRunners;
      if step.Claim? {
        assert id in step.ids <==> id in ToSet(step.ids);
      }
    }
  }

  lemma AttemptsAtFinish(s: Sys, step: Step, id: JobId)
    requires Inv(s) && Enabled(s, step) && step.Finish? && id in s.jobs
    ensures var s' := Apply(s, step);
            id in s'.jobs && s'.jobs[id].attempts == s.jobs[id].attempts + if CountsError(s, step, id) then 1 else 0
  {
    assert Holds(s.runners[step.rid], s.jobs);
    hide Store.DeleteRepo, OneHolder, RequestsOk, Holds, RowsOk;
  }

  /**
   On every run on which no operator puts back a job in a runner's hands, a job's attempts grow by its claims plus
   its recorded 404 and unexpected errors; putting a job back does not reset them.
   */
  lemma {:induction false} AttemptsAreClaimsPlusErrors(s: Sys, steps: seq<Step>, id: JobId)
    requires Inv(s) && Run(s, steps) && NoHeldRetry(s, steps) && id in s.jobs
    ensures var s' := After(s, steps);
            && id in s'.jobs
            && s'.jobs[id].attempts == s.jobs[id].attempts + ClaimsOf(steps, id) + CountedErrors(s, steps, id)
    decreases |steps|
  {
    hide Apply, Enabled, Inv, CountsError;
    if steps != [] {
      StepKeepsInv(s, steps[0]);
      AttemptsStep(s, steps[0], id);
      AttemptsAreClaimsPlusErrors(Apply(s, steps[0]), steps[1..], id);
    }
  }

  // ---------------------------------------------------------------------------------------------
  // The error budget.
  // ---------------------------------------------------------------------------------------------

  /**
   `spent` is errors minus retries. Every unexpected error was preceded by a claim of its own, so attempts run at
   least twice as fast, and one attempt further while a runner is at work.
   */
  ghost predicate InBudget(s: Sys, id: JobId, spent: int)
    requires id in s.jobs
  {
    && s.jobs[id].attempts >= 2 * spent + (if NoWorker(s, id) then 0 else 1)
    && spent <= if s.jobs[id].status == Failed && NoWorker(s, id) then 3 else 2
  }

  lemma BudgetClaim(s: Sys, step: Step, id: JobId, spent: int)
    requires Inv(s) && Enabled(s, step) && step.Claim? && id in s.jobs && InBudget(s, id, spent)
    ensures id in Apply(s, step).jobs && InBudget(Apply(s, step), id, spent)
  {
    hide RequestsOk, OneHolder;
    var s' := Apply(s, step);
    assert id in step.ids <==> id in ToSet(step.ids);
    if id in step.ids {
      assert id in Eligible(s.jobs, step.now);
      ClaimTakesNoHeldJob(s, step.ids, step.batch, step.now);
      assert NoWorker(s, id);
    } else {
      NoNewWorker(s, step, id);
    }
  }

  lemma NoNewWorker(s: Sys, step: Step, id: JobId)
    requires Inv(s) && Enabled(s, step) && step.Claim? && id !in step.ids
    ensures NoWorker(Apply(s, step), id) <==> NoWorker(s, id)
  {
    hide IsFirstBatch, AddRunners, ClaimAll, Holds, RowsOk;
    var s' := Apply(s, step);
    assert forall k | k in s'.runners && s.nextRunner <= k < s.nextRunner + |step.ids| ::
      s'.runners[k].job == step.ids[k - s.nextRunner] && s'.runners[k].job in step.ids;
    assert forall k | k in s.runners :: k in s'.runners && s'.runners[k] == s.runners[k];
  }

  /** The runner of the job is through with it. */
  lemma BudgetFinish(s: Sys, step: Step, id: JobId, spent: int)
    requires Inv(s) && Enabled(s, step) && step.Finish? && s.runners[step.rid].job == id && id in s.jobs && InBudget(s, id, spent)
    ensures id in Apply(s, step).jobs && InBudget(Apply(s, step), id, spent + if step.outcome.Unexpected? then 1 else 0)
  {
    hide Store.DeleteRepo, RequestsOk;
    var s' := Apply(s, step);
    assert Holds(s.runners[step.rid], s.jobs);
    assert !NoWorker(s, id) && NoWorker(s', id);
  }

  lemma BudgetOther(s: Sys, step: Step, id: JobId, spent: int)
    requires Inv(s) && Enabled(s, step) && !HitsHeld(s, step) && id in s.jobs && InBudget(s, id, spent)
    requires !step.Claim? && !(step.Finish? && s.runners[step.rid].job == id)
    ensures id in Apply(s, step).jobs && InBudget(Apply(s, step), id, spent - if Retries(step, id) then 1 else 0)
  {
    hide Settled, Store.Perform, Store.DeleteRepo, RequestsOk;
    var s' := Apply(s, step);
    if step.EndAudit? {
      assert Holds(s.runners[step.rid], s.jobs);
    }
    WorkersStay(s, step, id);
    hide NoWorker, OneHolder;
  }

  lemma WorkersStay(s: Sys, step: Step, id: JobId)
    requires Enabled(s, step) && !step.Claim? && !(step.Finish? && s.runners[step.rid].job == id)
    ensures NoWorker(Apply(s, step), id) <==> NoWorker(s, id)
  {
    hide Settled, Audited, Store.Perform, Store.DeleteRepo, AwaitsAudit;
    var s' := Apply(s, step);
    forall k
      ensures k in s'.runners && s'.runners[k].job == id && s'.runners[k].phase == Working
              <==> k in s.runners && s.runners[k].job == id && s.runners[k].phase == Working
    {
      if !step.Finish? && !step.EndAudit? {
        assert s'.runners == s.runners;
      }
    }
    assert NoWorker(s, id) <==> forall k | k in s.runners && s.runners[k].job == id :: s.runners[k].phase != Working;
    assert NoWorker(s', id) <==> forall k | k in s'.runners && s'.runners[k].job == id :: s'.runners[k].phase != Working;
  }

  lemma BudgetStep(s: Sys, step: Step, id: JobId, spent: int)
    requires Inv(s) && Enabled(s, step) && !HitsHeld(s, step) && id in s.jobs && InBudget(s, id, spent)
    ensures var s' := Apply(s, step);
            id in s'.jobs
            && InBudget(s', id, spent + (if IsUnexpected(s, step, id) then 1 else 0) - (if Retries(step, id) then 1 else 0))
  {
    if step.Claim? {
      BudgetClaim(s, step, id, spent);
    } else if step.Finish? && s.runners[step.rid].job == id {
      BudgetFinish(s, step, id, spent);
    } else {
      BudgetOther(s, step, id, spent);
    }
  }

  lemma {:induction false} BudgetAlongRuns(s: Sys, steps: seq<Step>, id: JobId, spent: int)
    requires Inv(s) && Run(s, steps) && NoHeldRetry(s, steps) && id in s.jobs && InBudget(s, id, spent)
    ensures var s' := After(s, steps);
            id in s'.jobs && InBudget(s', id, spent + UnexpectedErrors(s, steps, id) - RetriesOf(steps, id))
    decreases |steps|
  {
    hide Apply, Enabled, Inv, InBudget, IsUnexpected, HitsHeld;
    if steps != [] {
      StepKeepsInv(s, steps[0]);
      BudgetStep(s, steps[0], id, spent);
      var now := spent + (if IsUnexpected(s, steps[0], id) then 1 else 0) - (if Retries(steps[0], id) then 1 else 0);
      BudgetAlongRuns(Apply(s, steps[0]), steps[1..], id, now);
    }
  }

  lemma PendingIsFree(s: Sys, id: JobId)
    requires Inv(s) && id in s.jobs && s.jobs[id].status == Pending
    ensures NoWorker(s, id) && !Held(s, id)
  {
    forall k | k in s.runners
      ensures s.runners[k].job != id
    {
      HeldIsNotPending(s, k);
    }
  }

  /**
   A pending job survives at most two unexpected errors, the third is terminal, and each time an operator puts the
   job back allows one more; as long as no operator puts back a job in a runner's hands.
   */
  lemma ErrorsAtMostThreePlusRetries(s: Sys, steps: seq<Step>, id: JobId)
    requires Inv(s) && Run(s, steps) && NoHeldRetry(s, steps) && id in s.jobs && s.jobs[id].status == Pending
    ensures var errors, retries, end := UnexpectedErrors(s, steps, id), RetriesOf(steps, id), After(s, steps);
            && errors <= 3 + retries && id in end.jobs
            && (errors == 3 + retries ==> end.jobs[id].status == Failed)
            && (end.jobs[id].status == Pending ==> errors <= 2 + retries)
  {
    hide Run, After, NoHeldRetry, UnexpectedErrors, Inv, RetriesOf;
    PendingIsFree(s, id);
    BudgetAlongRuns(s, steps, id, 0);
  }

  // ---------------------------------------------------------------------------------------------
  // The restriction is needed.
  // ---------------------------------------------------------------------------------------------

  const ERR := "error"

  function SoloRow(slug: Slug, attempts: nat, status: Jobs.Status, error: Option<string>): Job {
    var job := ManualJob(slug, 0, 0);
    job.(attempts := attempts, status := status, lastError := error,
         lockedUntil := if status == InProgress then Some(LOCK_DURATION_MS) else None)
  }

  function Solo(row: Job, runners: map<RunnerId, Runner>, next: RunnerId): Sys {
    START.(jobs := map[0 := row], nextJob := 1, runners := runners, nextRunner := next)
  }

  lemma {:induction false} Concat(s: Sys, a: seq<Step>, b: seq<Step>, id: JobId)
    requires Run(s, a) && Run(After(s, a), b)
    ensures Run(s, a + b) && After(s, a + b) == After(After(s, a), b)
    ensures UnexpectedErrors(s, a + b, id) == UnexpectedErrors(s, a, id) + UnexpectedErrors(After(s, a), b, id)
    ensures CountedErrors(s, a + b, id) == CountedErrors(s, a, id) + CountedErrors(After(s, a), b, id)
    ensures RetriesOf(a + b, id) == RetriesOf(a, id) + RetriesOf(b, id)
    ensures ClaimsOf(a + b, id) == ClaimsOf(a, id) + ClaimsOf(b, id)
    decreases |a|
  {
    hide Apply, Enabled, CountsError, IsUnexpected, ClaimsJob, Retries;
    if a == [] {
      assert a + b == b;
    } else {
      assert (a + b)[0] == a[0] && (a + b)[1..] == a[1..] + b;
      Concat(Apply(s, a[0]), a[1..], b, id);
    }
  }

  function AfterError(slug: Slug, attempts: nat, error: Option<string>, runners: map<RunnerId, Runner>, next: RunnerId): Sys {
    var terminal := attempts + 2 >= MAX_ATTEMPTS;
    Solo(SoloRow(slug, attempts + 2, if terminal then Failed else Pending, Some(ERR)),
         if terminal then runners[next := Runner(0, SoloRow(slug, attempts + 1, InProgress, error), Auditing)] else runners, next + 1)
  }

  function ErrorSteps(next: RunnerId): seq<Step> { [Claim([0], 1, 0), Finish(next, Unexpected(0, ERR))] }

  function AfterClaim(slug: Slug, attempts: nat, error: Option<string>, runners: map<RunnerId, Runner>, next: RunnerId): Sys {
    var row := SoloRow(slug, attempts + 1, InProgress, error);
    Solo(row, runners[next := Runner(0, row, Working)], next + 1)
  }

  lemma ClaimPart(slug: Slug, attempts: nat, error: Option<string>, runners: map<RunnerId, Runner>, next: RunnerId)
    ensures var s := Solo(SoloRow(slug, attempts, Pending, error), runners, next);
            Enabled(s, Claim([0], 1, 0)) && Apply(s, Claim([0], 1, 0)) == AfterClaim(slug, attempts, error, runners, next)
  {
    var s := Solo(SoloRow(slug, attempts, Pending, error), runners, next);
    SoloClaim(s, 0, 0);
    assert Claimed(s.jobs[0], 0) == SoloRow(slug, attempts + 1, InProgress, error);
    hide IsFirstBatch, AddRunners, ClaimAll;
  }

  lemma ErrorPart(slug: Slug, attempts: nat, error: Option<string>, runners: map<RunnerId, Runner>, next: RunnerId)
    requires forall k | k in runners :: k < next
    ensures var s, finish := AfterClaim(slug, attempts, error, runners, next), Finish(next, Unexpected(0, ERR));
            && Enabled(s, finish) && Apply(s, finish) == AfterError(slug, attempts, error, runners, next)
            && IsUnexpected(s, finish, 0) && CountsError(s, finish, 0)
  {
    var s, finish := AfterClaim(slug, attempts, error, runners, next), Finish(next, Unexpected(0, ERR));
    assert s.runners - {next} == runners;
    assert Apply(s, finish).jobs == map[0 := Settled(s.jobs[0], s.jobs[0], finish.outcome)];
  }

  /** One claim and one unexpected error: two attempts more, and failed from the fifth on. */
  lemma ClaimAndError(slug: Slug, attempts: nat, error: Option<string>, runners: map<RunnerId, Runner>, next: RunnerId)
    requires forall k | k in runners :: k < next
    ensures var s := Solo(SoloRow(slug, attempts, Pending, error), runners, next);
            var steps := ErrorSteps(next);
            && Run(s, steps)
            && UnexpectedErrors(s, steps, 0) == 1 == CountedErrors(s, steps, 0) && RetriesOf(steps, 0) == 0 && ClaimsOf(steps, 0) == 1
            && After(s, steps) == AfterError(slug, attempts, error, runners, next)
  {
    ClaimPart(slug, attempts, error, runners, next);
    ErrorPart(slug, attempts, error, runners, next);
    hide Apply, Enabled, Run, After, UnexpectedErrors, CountedErrors, ClaimsOf, RetriesOf, SoloRow, Solo, AfterClaim, AfterError;
    TwoSteps(Solo(SoloRow(slug, attempts, Pending, error), runners, next), Claim([0], 1, 0), Finish(next, Unexpected(0, ERR)), 0);
  }

  lemma TwoSteps(s: Sys, a: Step, b: Step, id: JobId)
    requires Enabled(s, a) && Enabled(Apply(s, a), b)
    ensures Run(s, [a, b]) && After(s, [a, b]) == Apply(Apply(s, a), b)
    ensures UnexpectedErrors(s, [a, b], id) == (if IsUnexpected(s, a, id) then 1 else 0) + if IsUnexpected(Apply(s, a), b, id) then 1 else 0
    ensures CountedErrors(s, [a, b], id) == (if CountsError(s, a, id) then 1 else 0) + if CountsError(Apply(s, a), b, id) then 1 else 0
    ensures RetriesOf([a, b], id) == (if Retries(a, id) then 1 else 0) + if Retries(b, id) then 1 else 0
    ensures ClaimsOf([a, b], id) == (if ClaimsJob(a, id) then 1 else 0) + if ClaimsJob(b, id) then 1 else 0
  {
    OneStepCounts(s, a, id);
    OneStepCounts(Apply(s, a), b, id);
    hide Apply, Enabled, CountsError, IsUnexpected, ClaimsJob, Retries, Run, After;
    Concat(s, [a], [b], id);
    assert [a] + [b] == [a, b];
  }

  lemma OneStepCounts(s: Sys, a: Step, id: JobId)
    requires Enabled(s, a)
    ensures Run(s, [a]) && After(s, [a]) == Apply(s, a)
    ensures UnexpectedErrors(s, [a], id) == if IsUnexpected(s, a, id) then 1 else 0
    ensures CountedErrors(s, [a], id) == if CountsError(s, a, id) then 1 else 0
    ensures RetriesOf([a], id) == if Retries(a, id) then 1 else 0
    ensures ClaimsOf([a], id) == if ClaimsJob(a, id) then 1 else 0
  {
    hide Apply, Enabled, CountsError, IsUnexpected, ClaimsJob, Retries;
    assert [a][1..] == [];
  }

  /** Claimed, and put back while its runner is at work. */
  function OpeningSteps(slug: Slug): seq<Step> { [ManualEnqueue(slug, 0, 0)] + ([Claim([0], 1, 0)] + [Retry(0, 0)]) }

  function FirstRunner(slug: Slug): Runner { Runner(0, SoloRow(slug, 1, InProgress, None), Working) }

  const LATE := Finish(0, Unexpected(0, ERR))

  /** Then two refreshes fail, the first runner does, and two more do. */
  function HeldRetrySteps(slug: Slug): seq<Step> {
    OpeningSteps(slug) + (ErrorSteps(1) + (ErrorSteps(2) + ([LATE] + (ErrorSteps(3) + ErrorSteps(4)))))
  }

  /** The steps lead from `s` to `end`, with so many unexpected errors, claims and retries of job 0. */
  ghost predicate Trip(s: Sys, steps: seq<Step>, end: Sys, errors: nat, claims: nat, retries: nat) {
    && Run(s, steps) && After(s, steps) == end
    && UnexpectedErrors(s, steps, 0) == errors == CountedErrors(s, steps, 0)
    && ClaimsOf(steps, 0) == claims && RetriesOf(steps, 0) == retries
  }

  lemma TripsAdd(s: Sys, a: seq<Step>, m: Sys, b: seq<Step>, end: Sys, e: nat, c: nat, r: nat, e': nat, c': nat, r': nat)
    requires Trip(s, a, m, e, c, r) && Trip(m, b, end, e', c', r')
    ensures Trip(s, a + b, end, e + e', c + c', r + r')
  {
    hide Run, After, UnexpectedErrors, CountedErrors, ClaimsOf, RetriesOf;
    Concat(s, a, b, 0);
  }

  lemma ErrorTrip(slug: Slug, attempts: nat, error: Option<string>, runners: map<RunnerId, Runner>, next: RunnerId)
    requires forall k | k in runners :: k < next
    ensures Trip(Solo(SoloRow(slug, attempts, Pending, error), runners, next), ErrorSteps(next), AfterError(slug, attempts, error, runners, next), 1, 1, 0)
  {
    ClaimAndError(slug, attempts, error, runners, next);
    hide Run, After, UnexpectedErrors, CountedErrors, ClaimsOf, RetriesOf, SoloRow, Solo, AfterError;
  }

  lemma Opening(slug: Slug)
    ensures Trip(START, OpeningSteps(slug), Solo(SoloRow(slug, 1, Pending, None), map[0 := FirstRunner(slug)], 1), 0, 1, 1)
  {
    FirstClaim(slug);
    var s1 := Apply(START, ManualEnqueue(slug, 0, 0));
    var s2 := AfterFirstClaim(slug);
    assert s2 == Solo(SoloRow(slug, 1, InProgress, None), map[0 := FirstRunner(slug)], 1);
    var s3 := Apply(s2, Retry(0, 0));
    assert s3 == Solo(SoloRow(slug, 1, Pending, None), map[0 := FirstRunner(slug)], 1);
    OneStepCounts(START, ManualEnqueue(slug, 0, 0), 0);
    OneStepCounts(s1, Claim([0], 1, 0), 0);
    OneStepCounts(s2, Retry(0, 0), 0);
    hide Apply, Enabled, Run, After, UnexpectedErrors, CountedErrors, ClaimsOf, RetriesOf, SoloRow, Solo, FirstRunner, AfterFirstClaim;
    TripsAdd(s1, [Claim([0], 1, 0)], s2, [Retry(0, 0)], s3, 0, 1, 0, 0, 0, 1);
    TripsAdd(START, [ManualEnqueue(slug, 0, 0)], s1, [Claim([0], 1, 0)] + [Retry(0, 0)], s3, 0, 0, 0, 0, 1, 1);
  }

  /** The first runner writes its own old count of attempts over the newer one, and the failed job is pending again. */
  lemma LateError(slug: Slug)
    ensures var s := AfterError(slug, 3, Some(ERR), map[0 := FirstRunner(slug)], 2);
            && (forall k | k in s.runners - {0} :: k < 3)
            && Trip(s, [LATE], Solo(SoloRow(slug, 2, Pending, Some(ERR)), s.runners - {0}, 3), 1, 0, 0)
  {
    var s := AfterError(slug, 3, Some(ERR), map[0 := FirstRunner(slug)], 2);
    assert Apply(s, LATE).jobs == map[0 := SoloRow(slug, 2, Pending, Some(ERR))];
    OneStepCounts(s, LATE, 0);
  }

  /**
   Putting back a job in a runner's hands breaks both accounts. From the empty queue: five unexpected errors for one
   retry, because the first runner writes its own old count of attempts over the newer one.
   */
  lemma HeldRetryBreaksTheAccounts(slug: Slug)
    ensures Run(START, HeldRetrySteps(slug))
    ensures var steps := HeldRetrySteps(slug);
            var end := After(START, steps);
            && UnexpectedErrors(START, steps, 0) == 5 == CountedErrors(START, steps, 0)
            && RetriesOf(steps, 0) == 1 && ClaimsOf(steps, 0) == 5
            && end.jobs.Keys == {0} && end.jobs[0].attempts == 6
  {
    HeldRetryTrip(slug);
    hide Run, After, UnexpectedErrors, CountedErrors, ClaimsOf, RetriesOf, HeldRetrySteps, LastRunners;
  }

  function LastRunners(slug: Slug): map<RunnerId, Runner> { AfterError(slug, 3, Some(ERR), map[0 := FirstRunner(slug)], 2).runners - {0} }

  lemma HeldRetryTrip(slug: Slug)
    ensures Trip(START, HeldRetrySteps(slug), AfterError(slug, 4, Some(ERR), LastRunners(slug), 4), 5, 5, 1)
  {
    hide Trip, SoloRow, Solo, ErrorSteps, OpeningSteps, FirstRunner;
    var a, rest := map[0 := FirstRunner(slug)], LastRunners(slug);
    Opening(slug);
    ErrorTrip(slug, 1, None, a, 1);
    ErrorTrip(slug, 3, Some(ERR), a, 2);
    LateError(slug);
    ErrorTrip(slug, 2, Some(ERR), rest, 3);
    ErrorTrip(slug, 4, Some(ERR), rest, 4);
    var s3, s4, s5 := Solo(SoloRow(slug, 1, Pending, None), a, 1), AfterError(slug, 1, None, a, 1), AfterError(slug, 3, Some(ERR), a, 2);
    var s6 := Solo(SoloRow(slug, 2, Pending, Some(ERR)), rest, 3);
    var s7, s8 := AfterError(slug, 2, Some(ERR), rest, 3), AfterError(slug, 4, Some(ERR), rest, 4);
    TripsAdd(s6, ErrorSteps(3), s7, ErrorSteps(4), s8, 1, 1, 0, 1, 1, 0);
    var t6 := ErrorSteps(3) + ErrorSteps(4);
    TripsAdd(s5, [LATE], s6, t6, s8, 1, 0, 0, 2, 2, 0);
    TripsAdd(s4, ErrorSteps(2), s5, [LATE] + t6, s8, 1, 1, 0, 3, 2, 0);
    TripsAdd(s3, ErrorSteps(1), s4, ErrorSteps(2) + ([LATE] + t6), s8, 1, 1, 0, 4, 3, 0);
    TripsAdd(START, OpeningSteps(slug), s3, ErrorSteps(1) + (ErrorSteps(2) + ([LATE] + t6)), s8, 0, 1, 1, 5, 4, 0);
  }
}
