/**
 What a fetch of src/lib/github/client.ts does to the job in src/lib/jobs/refresh-one.ts: which branches of the error
 ladders its results can reach at all.
 */
module FetchEndings {
  import opened Common
  import opened Aging
  import Store
  import opened Jobs
  import opened RefreshOne
  import opened Client
  import Endings

  /** The branches of handleError. */
  datatype Branch = GoneBranch | ForbiddenBranch | RateLimitBranch | ServerErrorBranch | UnavailableBranch | UnexpectedBranch

  function BranchOf(fault: Fault): Branch {
    if IsGone(fault) then GoneBranch
    else if fault.GitHubError? && fault.httpStatus == 403 then ForbiddenBranch
    else if fault.GitHubError? && fault.httpStatus == 429 then RateLimitBranch
    else if fault.GitHubError? && fault.httpStatus >= 500 then ServerErrorBranch
    else if fault.GitHubUnavailable? then UnavailableBranch
    else UnexpectedBranch
  }

  /** The answer a core refresh works on, with the content of a fetched repository given. */
  function CoreAnswerOf(result: Fetch, content: CoreAnswer): CoreAnswer {
    match result
    case FetchedRepo => content
    case Unchanged => CoreNotModified
    case Failed(fault) => CoreThrew(fault)
  }

  function ListAnswerOf<T>(result: ListFetch, items: seq<T>, etag: Option<string>): FacetAnswer<T> {
    match result
    case ListFetched => FacetFetched(items, etag)
    case ListUnchanged => FacetNotModified
    case ListFailed(fault) => FacetThrew(fault)
  }

  /** The last answer, when it ended the call. */
  predicate EndedWith(responses: seq<Response>, tries: nat, r: Response)
    requires tries <= |responses|
  {
    tries > 0 && responses[tries - 1] == r && !Retries(r)
  }

  /**
   Which branch of the ladder a failed fetch reaches, from its answers. The rate-limit branch is never reached, and the
   branch for server errors only without an answer at all: a 429 or a 5xx asks for another try, and after the third, or
   without a token left, the fetch counts as unavailable.
   */
  lemma BranchReachedIff(responses: seq<Response>, tries: nat, r: Response)
    requires tries <= |responses| == MAX_TRIES && RetriedUpTo(responses, tries) && ResultOf(responses, tries).Failed?
    requires tries > 0 ==> r == responses[tries - 1]
    ensures var branch := BranchOf(ResultOf(responses, tries).fault);
            && (branch == GoneBranch <==> tries > 0 && (r.Missing404? || (r.Other? && r.status == 410)))
            && (branch == ForbiddenBranch <==> tries > 0 && r.Forbidden403? && r.remaining != Some(0))
            && branch != RateLimitBranch
            && (branch == ServerErrorBranch <==> tries > 0 && r.NoStatus?)
            && (branch == UnavailableBranch <==>
                  tries == 0 || (r.Forbidden403? && r.remaining == Some(0)) || r.TooMany429? || (r.Other? && r.status >= 500))
            && (branch == UnexpectedBranch <==> tries > 0 && r.Other? && r.status < 500 && r.status != 410)
  {
  }

  /**
   The row after a core refresh whose fetch failed, without database faults: what the answers of GitHub do to the job.
   A server that is down or limits the rate costs thirty seconds and no attempt, five seconds are for lost connections
   only, and only 404, 410 and the statuses nobody foresaw count as attempts.
   */
  lemma FailedFetchRow(c: Store.Cache, leased: Job, byKind: bool, sc: Scenario, responses: seq<Response>, tries: nat, r: Response)
    requires Endings.IsLease(leased) && Endings.CorePath(leased, byKind)
    requires tries <= |responses| == MAX_TRIES && RetriedUpTo(responses, tries) && ResultOf(responses, tries).Failed?
    requires (tries > 0 ==> r == responses[tries - 1]) && sc.core == CoreThrew(ResultOf(responses, tries).fault)
    requires sc.readFault.None? && sc.updateFault.None? && sc.auditFault.None? && !sc.txFails
    ensures var row := RowAfter(leased, leased, RunEnding(c, leased, byKind, sc));
            var ended := tries > 0 && !((r.Forbidden403? && r.remaining == Some(0)) || r.TooMany429? || (r.Other? && r.status >= 500));
            && (row.attempts == leased.attempts + 1 <==> ended && (r.Missing404? || r.Other?))
            && (row.status == Jobs.Failed <==>
                  ended && (r.Missing404? || r.Forbidden403? || (r.Other? && (r.status == 410 || leased.attempts >= 4))))
            && (!ended ==> row.status == Pending && row.scheduledFor == sc.now + 30_000)
            && (ended && r.NoStatus? ==> row.status == Pending && row.scheduledFor == sc.now + 5_000)
  {
    BranchReachedIff(responses, tries, r);
    hide NextDelay;
  }

  /** A failed list fetch reaches two branches of handlePerFacetError only, and both put the job back thirty seconds later. */
  lemma ListFaults(responses: seq<ListResponse>, tries: nat)
    requires tries <= |responses| == MAX_TRIES && RejectedUpTo(responses, tries)
    ensures var result := ListResultOf(responses, tries);
            && (result.ListFailed? <==> tries == 0 || responses[tries - 1].Rejected?)
            && (result.ListFailed? ==> BranchOf(result.fault) == if tries < MAX_TRIES then UnavailableBranch else UnexpectedBranch)
            && (result.ListUnchanged? <==> tries > 0 && responses[tries - 1].Resolved? && responses[tries - 1].status == 304)
  {
  }

  /** The scenario's answer is what a fetch of the job's list came back with. */
  ghost predicate ListAnswered(leased: Job, sc: Scenario, responses: seq<ListResponse>, tries: nat) {
    && tries <= |responses| == MAX_TRIES && RejectedUpTo(responses, tries)
    && (leased.kind == Releases ==> exists items, etag :: sc.releases == ListAnswerOf(ListResultOf(responses, tries), items, etag))
    && (leased.kind == Branches ==> exists items, etag :: sc.branches == ListAnswerOf(ListResultOf(responses, tries), items, etag))
  }

  ghost predicate NoFaults(sc: Scenario) {
    sc.readFault.None? && sc.touchFault.None? && sc.doneFault.None? && sc.updateFault.None? && sc.auditFault.None?
  }

  /**
   A facet refresh without database faults: the job is done exactly if a try resolved and what it brought could be
   stored; otherwise it is pending again thirty seconds later with no attempt counted. It never fails, so neither a
   list that is gone (404) nor one that did not change (304, when the library rejects it) ever ends the job.
   */
  lemma FacetJobEndsIff(c: Store.Cache, leased: Job, sc: Scenario, responses: seq<ListResponse>, tries: nat)
    requires Endings.IsLease(leased) && leased.kind != Core && NoFaults(sc) && ListAnswered(leased, sc, responses, tries)
    ensures var e := RunEnding(c, leased, true, sc);
            var row, resolved := RowAfter(leased, leased, e), tries > 0 && responses[tries - 1].Resolved?;
            && (row.status == Done <==> resolved && Endings.Stopped(c, leased, true, sc).None?)
            && (row.status != Done ==> row == leased.(status := Pending, lockedUntil := None, scheduledFor := sc.now + 30_000,
                                                      lastError := row.lastError))
            && (!resolved ==> row.status == Pending && CacheAfter(c, leased, e) == c)
  {
    hide Store.Perform;
  }

  // ---------------------------------------------------------------------------------------------
  // For ever.
  // ---------------------------------------------------------------------------------------------

  datatype Round = Round(claimedAt: int, sc: Scenario, responses: seq<ListResponse>, tries: nat)

  /** Every claim of the job is followed by a fetch without an answer that resolves. */
  ghost predicate AllRejected(row: Job, rounds: seq<Round>) {
    forall r | r in rounds :: NoFaults(r.sc) && ListAnswered(row, r.sc, r.responses, r.tries) && (r.tries > 0 ==> r.responses[r.tries - 1].Rejected?)
  }

  /** The row after each round of claim and refresh. */
  ghost function AfterRounds(c: Store.Cache, row: Job, rounds: seq<Round>): Job
    decreases |rounds|
  {
    if rounds == [] then row
    else
      var leased := Claimed(row, rounds[0].claimedAt);
      AfterRounds(c, RowAfter(leased, leased, RunEnding(c, leased, true, rounds[0].sc)), rounds[1..])
  }

  /** However often it is tried, the job comes back: pending, due thirty seconds later, its attempts the number of claims. */
  lemma {:induction false} RejectedForEver(c: Store.Cache, row: Job, rounds: seq<Round>)
    requires row.kind != Core && row.status == Pending && AllRejected(row, rounds)
    ensures var end := AfterRounds(c, row, rounds);
            && end.status == Pending && end.attempts == row.attempts + |rounds|
            && (rounds != [] ==> end.lockedUntil == None && end.scheduledFor == rounds[|rounds| - 1].sc.now + 30_000)
    decreases |rounds|
  {
    if rounds != [] {
      var r := rounds[0];
      assert r in rounds;
      var leased := Claimed(row, r.claimedAt);
      FacetJobEndsIff(c, leased, r.sc, r.responses, r.tries);
      hide RunEnding, NoFaults;
      RejectedForEver(c, RowAfter(leased, leased, RunEnding(c, leased, true, r.sc)), rounds[1..]);
    }
  }
}
