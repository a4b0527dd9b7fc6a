/** src/lib/github/client.ts: the retry and token-rotation loops of fetchRepoCore, fetchReleasesOnly and fetchBranchesOnly. */
module Client {
  import opened Common
  import opened Pool
  import opened RefreshOne

  const MAX_TRIES := 3

  predicate Named(status: int) { status in {200, 304, 403, 404, 429} }

  /** The statuses without a constructor of their own. */
  type OtherStatus = status: int | !Named(status) witness 500

  /** One answer of the API; headers that are missing or not numbers are absent. Resets are in seconds. */
  datatype Response =
    | Ok200(remaining: Option<int>, reset: Option<int>)
    | NotModified304
    | Missing404
    | Forbidden403(remaining: Option<int>, reset: Option<int>, message: string)
    | TooMany429
    | Other(status: OtherStatus, message: string)
    | NoStatus(message: string) // a network error or a timeout

  datatype Fetch = FetchedRepo | Unchanged | Failed(fault: Fault)

  /** An answer to a list request: the library resolves, or rejects with any status or none. */
  datatype ListResponse =
    | Resolved(status: int, remaining: Option<int>, reset: Option<int>)
    | Rejected(message: string)

  datatype ListFetch = ListFetched | ListUnchanged | ListFailed(fault: Fault)

  const NO_TOKENS := "no github tokens available (all exhausted or pool not initialized)"
  const MISSING := "Repo not found"
  const UNREACHABLE := "github unreachable"

  /** The token was told its quota is spent until `reset`. */
  predicate Spent(r: Response) {
    r.Forbidden403? && r.remaining == Some(0) && r.reset.Some? && r.reset.value > 0
  }

  /** Up to that instant the token is out of reach of pickToken. */
  ghost predicate OutOfReach(entries: seq<Entry>, id: TokenId, until: int) {
    forall e | e in entries && e.id == id :: e.used >= e.limit && e.resetAt.Some? && e.resetAt.value >= until
  }

  /** What other fetches and administrators do to the pool while this call waits. */
  datatype PoolChange =
    | Reports(r: Report, failing: set<TokenId>, disableFails: bool)
    | Adds(id: TokenId)
    | Removes(id: TokenId)

  /** The change is one that can bring the token back before that instant: an older answer's report, or adding it again. */
  predicate MayRestore(c: PoolChange, id: TokenId, until: int) {
    match c
    case Reports(r, _, _) => r.id == id && (r.remaining > 0 || r.resetAt < until)
    case Adds(added) => added == id
    case Removes(_) => false
  }

  lemma OutOfReachIsNotPicked(entries: seq<Entry>, id: TokenId, until: int, now: int, picked: Option<TokenId>)
    requires OutOfReach(entries, id, until) && now < until && IsPick(entries, now, picked)
    ensures picked != Some(id)
  {
  }

  lemma ReportKeepsReach(before: seq<Entry>, after: seq<Entry>, r: Report)
    requires Reported(before, after, r)
    ensures forall t: TokenId, until: int | OutOfReach(before, t, until) && !(t == r.id && (r.remaining > 0 || r.resetAt < until)) ::
              OutOfReach(after, t, until)
  {
  }

  /** A pool where a report of an unknown token changes nothing. */
  lemma UnknownIsOutOfReach(entries: seq<Entry>, id: TokenId, until: int)
    requires !InPool(entries, id)
    ensures OutOfReach(entries, id, until)
  {
  }

  lemma RemovalKeepsReach(entries: seq<Entry>, id: TokenId)
    ensures forall t: TokenId, until: int | OutOfReach(entries, t, until) :: OutOfReach(Without(entries, id), t, until)
  {
    WithoutIsSmaller(entries, id);
  }

  /** Whatever pickToken returns at that instant is the token. */
  ghost predicate OnlyPick(entries: seq<Entry>, now: int, id: TokenId) { forall picked | IsPick(entries, now, picked) :: picked == Some(id) }

  /**
   The condition is exact for a token on which the choice rests: while every other token is exhausted, a report on the
   spent token makes it the one to be picked at some instant before its reset exactly if it may restore it.
   */
  lemma PickedAgainIffRestored(before: seq<Entry>, after: seq<Entry>, c: PoolChange, id: TokenId, until: int, now: int)
    requires OutOfReach(before, id, until) && now < until && c.Reports? && c.r.id == id && Reported(before, after, c.r) && InPool(after, id)
    requires forall e | e in after :: e.limit > 0
    requires forall e, t: int | e in after && e.id != id && now <= t < until :: Exhausted(e, t)
    ensures (exists t: int :: now <= t < until && OnlyPick(after, t, id)) <==> MayRestore(c, id, until)
  {
    var i :| 0 <= i < |after| && after[i].id == id;
    assert after[i] in after;
    if MayRestore(c, id, until) {
      var t := if c.r.remaining > 0 then now else Max(now, c.r.resetAt);
      assert !Exhausted(after[i], t);
      assert OnlyPick(after, t, id);
    } else {
      ReportKeepsReach(before, after, c.r);
      forall t: int | now <= t < until
        ensures !OnlyPick(after, t, id)
      {
        assert IsPick(after, t, None);
      }
    }
  }

  const SPENT_TOKEN := Entry(0, 5_000, 5_000, Some(60_000), Some(0), true)

  const OLDER_ANSWER := Report(0, 10, 60_000, 1)

  /** So it does happen: an older answer, still on its way when the quota ran out, restores the token a minute early. */
  lemma OlderAnswerBringsTheTokenBack()
    ensures var after := [UpdatedEntry(SPENT_TOKEN, OLDER_ANSWER)];
            && OutOfReach([SPENT_TOKEN], 0, 60_000) && Reported([SPENT_TOKEN], after, OLDER_ANSWER)
            && forall picked | IsPick(after, 2, picked) :: picked == Some(0)
  {
    var after := [UpdatedEntry(SPENT_TOKEN, OLDER_ANSWER)];
    assert after[0] in after && !Exhausted(after[0], 2);
  }

  /** What an answer does to the pool: its quota is reported, or the backoff grows, or nothing. */
  datatype Note = Counted(report: Report) | BackedOff | Unnoted

  function NoteOf(id: TokenId, r: Response, now: int): Note {
    match r
    case Ok200(Some(remaining), Some(reset)) => if reset > 0 then Counted(Report(id, remaining, reset * 1000, now)) else Unnoted
    case Forbidden403(Some(remaining), Some(reset), _) =>
      if remaining == 0 && reset > 0 then Counted(Report(id, 0, reset * 1000, now)) else Unnoted
    case TooMany429 => BackedOff
    case _ => Unnoted
  }

  function ListNoteOf(id: TokenId, r: ListResponse, now: int): Note {
    match r
    case Resolved(_, Some(remaining), Some(reset)) => if reset > 0 then Counted(Report(id, remaining, reset * 1000, now)) else Unnoted
    case Resolved(_, _, _) => Unnoted
    case Rejected(_) => BackedOff
  }

  /**
   Which answers are noted, and how: a 200 or a resolved list reports the quota of its headers, in milliseconds, if both are
   there and the reset is not zero; a 403 does only when nothing remains; a 429 or a rejected list grows the backoff.
   */
  lemma NotesInAnswers(id: TokenId, r: Response, l: ListResponse, now: int)
    ensures r.Ok200? ==>
              NoteOf(id, r, now) == if r.remaining.Some? && r.reset.Some? && r.reset.value >= 1
                                    then Counted(Report(id, r.remaining.value, 1_000 * r.reset.value, now)) else Unnoted
    ensures r.Forbidden403? ==>
              NoteOf(id, r, now) == if r.remaining.Some? && r.remaining.value == 0 && r.reset.Some? && r.reset.value >= 1
                                    then Counted(Report(id, 0, 1_000 * r.reset.value, now)) else Unnoted
    ensures NoteOf(id, r, now) == BackedOff <==> r.TooMany429?
    ensures NoteOf(id, r, now) == Unnoted <== r.NotModified304? || r.Missing404? || r.Other? || r.NoStatus?
    ensures ListNoteOf(id, l, now) == BackedOff <==> l.Rejected?
    ensures l.Resolved? ==>
              ListNoteOf(id, l, now) == if l.remaining.Some? && l.reset.Some? && l.reset.value >= 1
                                        then Counted(Report(id, l.remaining.value, 1_000 * l.reset.value, now)) else Unnoted
  {
  }

  /** The quota, the reports and the backoff of the pool, before and after. */
  ghost predicate NotedDown(note: Note, entries: seq<Entry>, entries': seq<Entry>, history: seq<Report>, history': seq<Report>, backoff: nat, backoff': nat) {
    match note
    case Counted(r) =>
      if InPool(entries, r.id) then
        && history' == history + [r] && Reported(entries, entries', r)
        && backoff' == if r.remaining == 0 && r.resetAt > r.now then backoff + 1 else 0
      else entries' == entries && history' == history && backoff' == backoff
    case BackedOff => entries' == entries && history' == history && backoff' == backoff + 1
    case Unnoted => entries' == entries && history' == history && backoff' == backoff
  }

  class GitHubClient {
    const pool: TokenPool
    ghost var noted: seq<Note>          // what the answers so far did to the pool
    ghost var happened: seq<PoolChange> // what others did to it meanwhile

    constructor (pool: TokenPool)
      ensures this.pool == pool && noted == [] && happened == []
    {
      this.pool, noted, happened := pool, [], [];
    }

    /** One change by somebody else. */
    method Change(c: PoolChange)
      requires pool.Valid()
      modifies pool, this`happened
      ensures pool.Valid() && happened == old(happened) + [c]
      ensures forall t: TokenId, until: int | OutOfReach(old(pool.entries), t, until) && !MayRestore(c, t, until) ::
                OutOfReach(pool.entries, t, until)
      ensures match c
              case Reports(r, _, _) => NotedDown(Counted(r), old(pool.entries), pool.entries, old(pool.history), pool.history,
                                                 old(pool.consecutive429s), pool.consecutive429s)
              case Adds(id) => id in old(pool.rows) && old(pool.rows)[id].hasToken ==> (InPool(pool.entries, id) <==> old(pool.rows)[id].status == Active)
              case Removes(id) => pool.entries == Without(old(pool.entries), id)
    {
      ghost var before := pool.entries;
      happened := happened + [c];
      match c {
        case Reports(r, failing, disableFails) =>
          pool.RecordUsage(r.id, r.remaining, r.resetAt, r.now, failing, disableFails);
          if InPool(before, r.id) {
            ReportKeepsReach(before, pool.entries, Report(r.id, r.remaining, r.resetAt, r.now));
          }
        case Adds(id) =>
          if id in pool.rows {
            WithoutRemoves(before, id);
            pool.AddToken(id);
            RemovalKeepsReach(before, id);
          }
        case Removes(id) =>
          pool.RemoveToken(id);
          RemovalKeepsReach(before, id);
      }
    }

    /** Everything that happens to the pool while this call awaits something. */
    method Await(changes: seq<PoolChange>)
      requires pool.Valid()
      modifies pool, this`happened
      ensures pool.Valid() && happened == old(happened) + changes
      ensures KeepsReach(old(pool.entries), pool.entries, changes)
    {
      for i := 0 to |changes|
        invariant pool.Valid() && happened == old(happened) + changes[..i]
        invariant KeepsReach(old(pool.entries), pool.entries, changes)
      {
        assert changes[..i + 1] == changes[..i] + [changes[i]];
        Change(changes[i]);
      }
      assert changes[..|changes|] == changes;
    }

    /**
     The body of one try: what the answer does to the pool, and the call's result unless it tries again. The token may
     have left the pool while the answer was on its way.
     */
    method HandleAnswer(id: TokenId, r: Response, now: int, failing: set<TokenId>, disableFails: bool) returns (result: Option<Fetch>)
      requires pool.Valid()
      modifies pool, this`noted
      ensures pool.Valid()
      ensures noted == old(noted) + [NoteOf(id, r, now)]
      ensures NotedDown(NoteOf(id, r, now), old(pool.entries), pool.entries, old(pool.history), pool.history,
                        old(pool.consecutive429s), pool.consecutive429s)
      ensures result == if Retries(r) then None else Some(AnswerOf(r))
      ensures result == match r
                        case Ok200(_, _) => Some(FetchedRepo)
                        case NotModified304 => Some(Unchanged)
                        case Missing404 => Some(Failed(NotFoundError("Repo not found")))
                        case Forbidden403(remaining, _, message) => if remaining == Some(0) then None else Some(Failed(GitHubError(403, message)))
                        case TooMany429 => None
                        case Other(status, message) => if status >= 500 then None else Some(Failed(GitHubError(status, message)))
                        case NoStatus(message) => Some(Failed(GitHubError(500, message)))
      ensures Spent(r) ==> OutOfReach(pool.entries, id, r.reset.value * 1000)
      ensures OthersKeepReach(old(pool.entries), pool.entries, id)
    {
      noted := noted + [NoteOf(id, r, now)];
      match r {
        case Ok200(remaining, reset) =>
          if remaining.Some? && reset.Some? && reset.value > 0 {
            Use(id, remaining.value, reset.value * 1000, now, failing, disableFails);
          }
          result := Some(FetchedRepo);
        case NotModified304 =>
          result := Some(Unchanged);
        case Missing404 =>
          result := Some(Failed(NotFoundError(MISSING)));
        case Forbidden403(remaining, reset, message) =>
          if remaining != Some(0) {
            return Some(Failed(GitHubError(403, message)));
          }
          if reset.Some? && reset.value > 0 {
            Use(id, 0, reset.value * 1000, now, failing, disableFails);
          }
          result := None;
        case TooMany429 =>
          var _ := pool.GetBackoff();
          result := None;
        case Other(status, message) =>
          result := if status >= 500 then None else Some(Failed(GitHubError(status, message)));
        case NoStatus(message) =>
          result := Some(Failed(GitHubError(500, message)));
      }
    }

    /** recordUsage for the token of this try. */
    method Use(id: TokenId, remaining: int, resetAt: int, now: int, failing: set<TokenId>, disableFails: bool)
      requires pool.Valid()
      modifies pool
      ensures pool.Valid()
      ensures remaining <= 0 ==> OutOfReach(pool.entries, id, resetAt)
      ensures NotedDown(Counted(Report(id, remaining, resetAt, now)), old(pool.entries), pool.entries, old(pool.history), pool.history,
                        old(pool.consecutive429s), pool.consecutive429s)
      ensures OthersKeepReach(old(pool.entries), pool.entries, id)
    {
      ghost var before := pool.entries;
      pool.RecordUsage(id, remaining, resetAt, now, failing, disableFails);
      if InPool(before, id) {
        ReportKeepsReach(before, pool.entries, Report(id, remaining, resetAt, now));
      } else {
        UnknownIsOutOfReach(before, id, resetAt);
      }
    }

    /** One try, from the choice of a token to the next try, with what happens to the pool while it waits. */
    method OneTry(r: Response, now: int, during: seq<PoolChange>, after: seq<PoolChange>, failing: set<TokenId>, disableFails: bool)
      returns (picked: Option<TokenId>, answer: Option<Fetch>)
      requires pool.Valid()
      modifies pool, this`noted, this`happened
      ensures pool.Valid() && IsPick(old(pool.entries), now, picked)
      ensures TryLogged(Log(old(noted), old(happened)), Log(noted, happened), picked, NoteOf(if picked.Some? then picked.value else 0, r, now),
                        during, if Retries(r) then after else [])
      ensures picked.Some? ==> answer == if Retries(r) then None else Some(AnswerOf(r))
      ensures picked.Some? && answer.None? ==> TryKeepsReach(old(pool.entries), pool.entries, picked.value, r, during, after)
    {
      ghost var atPick := pool.entries;
      answer := None;
      picked := pool.PickToken(now);
      if picked.None? {
        return;
      }
      Await(during);
      ghost var atAnswer := pool.entries;
      answer := HandleAnswer(picked.value, r, now, failing, disableFails);
      if answer.None? {
        ghost var answered := pool.entries;
        Await(after);
        ReachAcrossTry([atPick, atAnswer, answered, pool.entries], picked.value, r, during, after);
      }
    }

    /**
     Other fetches and administrators change the pool while this call waits for its answers and between its tries;
     `pools` is what it holds at each pick. A token that answered that its quota is spent is not picked again while its
     reset is ahead, unless one of those changes may have restored it. There is a next pick exactly after an answer that
     asks for another try, with tries left and a usable token; the result is the last answer's, or that no token was
     left, or that three tries failed.
     */
    method FetchRepoCore(responses: seq<Response>, clock: seq<int>, during: seq<seq<PoolChange>>, after: seq<seq<PoolChange>>,
                         failing: set<TokenId>, disableFails: bool)
      returns (result: Fetch, picks: seq<TokenId>, ghost pools: seq<seq<Entry>>)
      requires pool.Valid()
      requires |responses| == |clock| == |during| == |after| == MAX_TRIES
      requires clock[0] <= clock[1] <= clock[2]
      modifies pool, this`noted, this`happened
      ensures pool.Valid() && Fetched(responses, clock, during, after, picks, pools, result)
      ensures Log(noted, happened) == Log(old(noted) + NotesOf(responses, clock, picks), old(happened) + Meanwhile(responses, during, after, |picks|))
    {
      picks, pools := [], [];
      FetchBegins(responses, clock, during, after, pool.entries);
      ghost var start := Log(noted, happened);
      assert Logged(start, start, responses, clock, during, after, []);
      hide *;
      for attempt := 0 to MAX_TRIES
        invariant pool.Valid() && |picks| == attempt == |pools| && Logged(start, Log(noted, happened), responses, clock, during, after, picks)
        invariant Trying(responses, clock, during, after, picks, pools)
        invariant attempt < MAX_TRIES ==> SpentStayAway(pool.entries, responses, during, after, picks, clock[attempt])
      {
        ghost var before, log := pool.entries, Log(noted, happened);
        var picked, answer := OneTry(responses[attempt], clock[attempt], during[attempt], after[attempt], failing, disableFails);
        OneMoreTry(responses, clock, during, after, picks, pools, before, pool.entries, picked, answer);
        LogGrows(start, log, Log(noted, happened), responses, clock, during, after, picks, picked);
        pools := pools + [before];
        if picked.None? {
          LogOfCall(start, Log(noted, happened), responses, clock, during, after, picks);
          return Failed(GitHubUnavailable(NO_TOKENS)), picks, pools;
        }
        picks := picks + [picked.value];
        if answer.Some? {
          LogOfCall(start, Log(noted, happened), responses, clock, during, after, picks);
          return answer.value, picks, pools;
        }
      }
      result := Failed(GitHubUnavailable(UNREACHABLE));
      LogOfCall(start, Log(noted, happened), responses, clock, during, after, picks);
      TryingEnds(responses, clock, during, after, picks, pools);
    }

    /** The body of one try of a list fetch. */
    method HandleList(id: TokenId, r: ListResponse, now: int, failing: set<TokenId>, disableFails: bool) returns (result: Option<ListFetch>)
      requires pool.Valid()
      modifies pool, this`noted
      ensures pool.Valid() && noted == old(noted) + [ListNoteOf(id, r, now)]
      ensures NotedDown(ListNoteOf(id, r, now), old(pool.entries), pool.entries, old(pool.history), pool.history,
                        old(pool.consecutive429s), pool.consecutive429s)
      ensures result == match r
                        case Resolved(status, _, _) => Some(if status == 304 then ListUnchanged else ListFetched)
                        case Rejected(_) => None
    {
      noted := noted + [ListNoteOf(id, r, now)];
      match r {
        case Resolved(status, remaining, reset) =>
          if remaining.Some? && reset.Some? && reset.value > 0 {
            Use(id, remaining.value, reset.value * 1000, now, failing, disableFails);
          }
          return Some(if status == 304 then ListUnchanged else ListFetched);
        case Rejected(_) =>
          var _ := pool.GetBackoff();
          return None;
      }
    }

    /** One try of a list fetch, with what happens to the pool while it waits. */
    method OneListTry(r: ListResponse, now: int, during: seq<PoolChange>, after: seq<PoolChange>, failing: set<TokenId>, disableFails: bool)
      returns (picked: Option<TokenId>, answer: Option<ListFetch>)
      requires pool.Valid()
      modifies pool, this`noted, this`happened
      ensures pool.Valid() && IsPick(old(pool.entries), now, picked)
      ensures TryLogged(Log(old(noted), old(happened)), Log(noted, happened), picked, ListNoteOf(if picked.Some? then picked.value else 0, r, now),
                        during, if r.Rejected? then after else [])
      ensures picked.Some? ==> answer == if r.Rejected? then None else Some(if r.status == 304 then ListUnchanged else ListFetched)
    {
      answer := None;
      picked := pool.PickToken(now);
      if picked.None? {
        return;
      }
      Await(during);
      answer := HandleList(picked.value, r, now, failing, disableFails);
      if answer.None? {
        Await(after);
      }
      assert happened == old(happened) + (during + if r.Rejected? then after else []);
    }

    /**
     fetchReleasesOnly and fetchBranchesOnly: every rejection is answered by a pause, which is never zero, and another
     try; after the third the library's own error is thrown, whatever its status. A pick fails only on a pool without a
     usable token.
     */
    method FetchList(responses: seq<ListResponse>, clock: seq<int>, during: seq<seq<PoolChange>>, after: seq<seq<PoolChange>>,
                     failing: set<TokenId>, disableFails: bool)
      returns (result: ListFetch, picks: seq<TokenId>, ghost pools: seq<seq<Entry>>)
      requires pool.Valid()
      requires |responses| == |clock| == |during| == |after| == MAX_TRIES
      modifies pool, this`noted, this`happened
      ensures pool.Valid() && ListEnds(responses, clock, picks, pools, result)
      ensures ListLogged(Log(old(noted), old(happened)), Log(noted, happened), responses, clock, during, after, picks)
    {
      picks, pools := [], [];
      ghost var start := Log(noted, happened);
      assert ListLogged(start, start, responses, clock, during, after, []) && Rejecting(responses, clock, [], []);
      hide *;
      for attempt := 0 to MAX_TRIES
        invariant pool.Valid() && |picks| == attempt == |pools| && Rejecting(responses, clock, picks, pools)
        invariant ListLogged(start, Log(noted, happened), responses, clock, during, after, picks)
      {
        ghost var before, log := pool.entries, Log(noted, happened);
        var picked, answer := OneListTry(responses[attempt], clock[attempt], during[attempt], after[attempt], failing, disableFails);
        OneMoreListTry(responses, clock, picks, pools, before, picked, answer);
        ListLogGrows(start, log, Log(noted, happened), responses, clock, during, after, picks, picked);
        pools := pools + [before];
        if picked.None? {
          return ListFailed(GitHubUnavailable(NO_TOKENS)), picks, pools;
        }
        picks := picks + [picked.value];
        if answer.Some? {
          return answer.value, picks, pools;
        }
      }
      AllRejected(responses, clock, picks, pools);
      result := ListFailed(OtherError(responses[MAX_TRIES - 1].message));
    }
  }

  /** The pool at each pick, and that picks go on exactly while the answers ask for it, tries are left and a token is usable. */
  ghost predicate PicksOn(responses: seq<Response>, clock: seq<int>, picks: seq<TokenId>, pools: seq<seq<Entry>>)
    requires |responses| == |clock| == MAX_TRIES
  {
    && 0 < |pools| <= MAX_TRIES && |picks| <= |pools| <= |picks| + 1
    && (forall k | 0 <= k < |picks| :: IsPick(pools[k], clock[k], Some(picks[k])))
    && (|picks| < |pools| ==> IsPick(pools[|picks|], clock[|picks|], None))
    && (forall i | 0 <= i < |picks| && i + 1 < MAX_TRIES :: i + 1 < |pools| <==> Retries(responses[i]))
  }

  /** What the answers did to the pool, try by try. */
  function NotesOf(responses: seq<Response>, clock: seq<int>, picks: seq<TokenId>): seq<Note>
    requires |picks| <= |responses| == |clock|
  {
    seq(|picks|, k requires 0 <= k < |picks| => NoteOf(picks[k], responses[k], clock[k]))
  }

  /** What others did to the pool while so many tries waited. */
  function Meanwhile(responses: seq<Response>, during: seq<seq<PoolChange>>, after: seq<seq<PoolChange>>, tries: nat): seq<PoolChange>
    requires tries <= |responses| == |during| == |after|
  {
    if tries == 0 then []
    else
      var k := tries - 1;
      Meanwhile(responses, during, after, k) + (during[k] + if Retries(responses[k]) then after[k] else [])
  }

  datatype Log = Log(noted: seq<Note>, happened: seq<PoolChange>)

  /** One try: its note, and what others did while it waited. */
  ghost predicate TryLogged(before: Log, now: Log, picked: Option<TokenId>, note: Note, during: seq<PoolChange>, after: seq<PoolChange>) {
    now == if picked.None? then before else Log(before.noted + [note], before.happened + (during + after))
  }

  ghost predicate Logged(start: Log, now: Log, responses: seq<Response>, clock: seq<int>, during: seq<seq<PoolChange>>, after: seq<seq<PoolChange>>,
                         picks: seq<TokenId>)
    requires |picks| <= |responses| == |clock| == |during| == |after|
  {
    now == Log(start.noted + NotesOf(responses, clock, picks), start.happened + Meanwhile(responses, during, after, |picks|))
  }

  lemma LogOfCall(start: Log, now: Log, responses: seq<Response>, clock: seq<int>, during: seq<seq<PoolChange>>, after: seq<seq<PoolChange>>,
                  picks: seq<TokenId>)
    requires |picks| <= |responses| == |clock| == |during| == |after| && Logged(start, now, responses, clock, during, after, picks)
    ensures now == Log(start.noted + NotesOf(responses, clock, picks), start.happened + Meanwhile(responses, during, after, |picks|))
  {
  }

  lemma LogGrows(start: Log, before: Log, now: Log, responses: seq<Response>, clock: seq<int>, during: seq<seq<PoolChange>>,
                 after: seq<seq<PoolChange>>, picks: seq<TokenId>, picked: Option<TokenId>)
    requires |picks| < |responses| == |clock| == |during| == |after| && Logged(start, before, responses, clock, during, after, picks)
    requires var k := |picks|;
             TryLogged(before, now, picked, NoteOf(if picked.Some? then picked.value else 0, responses[k], clock[k]), during[k],
                       if Retries(responses[k]) then after[k] else [])
    ensures if picked.None? then Logged(start, now, responses, clock, during, after, picks)
            else Logged(start, now, responses, clock, during, after, picks + [picked.value])
  {
    if picked.Some? {
      OneMoreNote(responses, clock, picks, picked.value);
      hide NotesOf, NoteOf;
      assert now.noted == start.noted + NotesOf(responses, clock, picks + [picked.value]);
      assert now.happened == start.happened + Meanwhile(responses, during, after, |picks| + 1);
    }
  }

  lemma OneMoreNote(responses: seq<Response>, clock: seq<int>, picks: seq<TokenId>, id: TokenId)
    requires |picks| < |responses| == |clock|
    ensures NotesOf(responses, clock, picks + [id]) == NotesOf(responses, clock, picks) + [NoteOf(id, responses[|picks|], clock[|picks|])]
  {
  }

  /** Every try so far picked a token and was answered with a request for another. */
  ghost predicate Trying(responses: seq<Response>, clock: seq<int>, during: seq<seq<PoolChange>>, after: seq<seq<PoolChange>>,
                         picks: seq<TokenId>, pools: seq<seq<Entry>>)
    requires |responses| == |clock| == |during| == |after| == MAX_TRIES
  {
    && |picks| == |pools| <= MAX_TRIES
    && (forall k | 0 <= k < |picks| :: IsPick(pools[k], clock[k], Some(picks[k])) && Retries(responses[k]))
    && NeverRepicks(responses, clock, during, after, picks)
  }

  /** How the call ends: what it picked and why it stopped there, and the result. */
  ghost predicate Fetched(responses: seq<Response>, clock: seq<int>, during: seq<seq<PoolChange>>, after: seq<seq<PoolChange>>,
                          picks: seq<TokenId>, pools: seq<seq<Entry>>, result: Fetch)
    requires |responses| == |clock| == |during| == |after| == MAX_TRIES
  {
    && |picks| <= MAX_TRIES && PicksOn(responses, clock, picks, pools)
    && NeverRepicks(responses, clock, during, after, picks)
    && RetriedUpTo(responses, |picks|) && result == ResultOf(responses, |picks|)
  }

  lemma FetchBegins(responses: seq<Response>, clock: seq<int>, during: seq<seq<PoolChange>>, after: seq<seq<PoolChange>>, entries: seq<Entry>)
    requires |responses| == |clock| == |during| == |after| == MAX_TRIES
    ensures Trying(responses, clock, during, after, [], []) && SpentStayAway(entries, responses, during, after, [], clock[0])
  {
  }

  lemma TryingEnds(responses: seq<Response>, clock: seq<int>, during: seq<seq<PoolChange>>, after: seq<seq<PoolChange>>,
                   picks: seq<TokenId>, pools: seq<seq<Entry>>)
    requires |responses| == |clock| == |during| == |after| == MAX_TRIES == |picks|
    requires Trying(responses, clock, during, after, picks, pools)
    ensures Fetched(responses, clock, during, after, picks, pools, Failed(GitHubUnavailable(UNREACHABLE)))
  {
    hide IsPick, NeverRepicks;
  }

  /** One try of a call that goes on or ends with it. */
  lemma OneMoreTry(responses: seq<Response>, clock: seq<int>, during: seq<seq<PoolChange>>, after: seq<seq<PoolChange>>,
                   picks: seq<TokenId>, pools: seq<seq<Entry>>, before: seq<Entry>, end: seq<Entry>, picked: Option<TokenId>, answer: Option<Fetch>)
    requires |responses| == |clock| == |during| == |after| == MAX_TRIES > |picks| && clock[0] <= clock[1] <= clock[2]
    requires Trying(responses, clock, during, after, picks, pools)
    requires SpentStayAway(before, responses, during, after, picks, clock[|picks|]) && IsPick(before, clock[|picks|], picked)
    requires var k := |picks|;
             picked.Some? ==>
               && answer == (if Retries(responses[k]) then None else Some(AnswerOf(responses[k])))
               && (answer.None? ==> TryKeepsReach(before, end, picked.value, responses[k], during[k], after[k]))
    ensures var k := |picks|;
            if picked.None? then
              Fetched(responses, clock, during, after, picks, pools + [before], Failed(GitHubUnavailable(NO_TOKENS)))
            else
              var picks', pools' := picks + [picked.value], pools + [before];
              && (answer.Some? ==> Fetched(responses, clock, during, after, picks', pools', answer.value))
              && (answer.None? ==> Trying(responses, clock, during, after, picks', pools'))
              && (answer.None? && k + 1 < MAX_TRIES ==> SpentStayAway(end, responses, during, after, picks', clock[k + 1]))
  {
    if picked.Some? {
      PickIsNotSpent(before, responses, during, after, picks, clock, picked.value);
      if answer.None? && |picks| + 1 < MAX_TRIES {
        assert (picks + [picked.value])[..|picks|] == picks;
        OneTryKeepsSpentAway(before, end, responses, during, after, picks + [picked.value], clock);
      }
    }
    hide IsPick, NeverRepicks, SpentStayAway, TryKeepsReach;
  }

  /**
   Rotation, in the terms of the answers: after a spent token, a rate limit or a server error, with tries left and some
   token usable at the next pick, the call goes on, and it picks another token than the spent one if nothing restored that.
   */
  lemma RotatesAfterRetryableAnswer(responses: seq<Response>, clock: seq<int>, during: seq<seq<PoolChange>>, after: seq<seq<PoolChange>>,
                                    picks: seq<TokenId>, pools: seq<seq<Entry>>, i: nat)
    requires |responses| == |clock| == |during| == |after| == 3 && PicksOn(responses, clock, picks, pools)
    requires NeverRepicks(responses, clock, during, after, picks)
    requires i < |picks| && i + 1 < 3
    requires match responses[i]
             case Forbidden403(remaining, _, _) => remaining == Some(0)
             case TooMany429 => true
             case Other(status, _) => status >= 500
             case _ => false
    ensures i + 1 < |pools|
    ensures forall e | e in pools[i + 1] && !(e.resetAt.Some? && clock[i + 1] < e.resetAt.value && e.used >= e.limit) :: i + 1 < |picks|
    ensures i + 1 < |picks| && responses[i].Forbidden403? && responses[i].reset.Some? && clock[i + 1] < responses[i].reset.value * 1000
            && responses[i].reset.value > 0 && NoneRestores(after[i], picks[i], responses[i].reset.value * 1000) ==>
              picks[i + 1] != picks[i]
  {
    if i + 1 < |picks| && Spent(responses[i]) && NoneRestores(after[i], picks[i], Reset(responses[i])) {
      assert Unrestored(during, after, i, i + 1, picks[i], Reset(responses[i]));
    }
  }

  /** Which answer comes back, in the terms of the last answer. */
  lemma ResultInAnswers(responses: seq<Response>, tries: nat)
    requires tries <= |responses| == 3
    ensures var result := ResultOf(responses, tries);
            if tries == 0 then result == Failed(GitHubUnavailable(NO_TOKENS))
            else
              var r := responses[tries - 1];
              && (result == FetchedRepo <==> r.Ok200?)
              && (result == Unchanged <==> r.NotModified304?)
              && (result.Failed? && result.fault.NotFoundError? <==> r.Missing404?)
              && (result.Failed? && result.fault.GitHubError? && result.fault.httpStatus == 403 <==> r.Forbidden403? && r.remaining != Some(0))
              && (result.Failed? && result.fault.GitHubError? && result.fault.httpStatus == 500 <==> r.NoStatus?)
              && (result.Failed? && result.fault.GitHubUnavailable? <==>
                    (r.Forbidden403? && r.remaining == Some(0)) || r.TooMany429? || (r.Other? && r.status >= 500))
              && (r.Other? && r.status < 500 ==> result == Failed(GitHubError(r.status, r.message)))
              && (r.Forbidden403? && r.remaining != Some(0) ==> result == Failed(GitHubError(403, r.message)))
  {
  }

  function ListMeanwhile(responses: seq<ListResponse>, during: seq<seq<PoolChange>>, after: seq<seq<PoolChange>>, tries: nat): seq<PoolChange>
    requires tries <= |responses| == |during| == |after|
  {
    if tries == 0 then []
    else
      var k := tries - 1;
      ListMeanwhile(responses, during, after, k) + (during[k] + if responses[k].Rejected? then after[k] else [])
  }

  function ListNotesOf(responses: seq<ListResponse>, clock: seq<int>, picks: seq<TokenId>): seq<Note>
    requires |picks| <= |responses| == |clock|
  {
    seq(|picks|, k requires 0 <= k < |picks| => ListNoteOf(picks[k], responses[k], clock[k]))
  }

  ghost predicate ListLogged(start: Log, now: Log, responses: seq<ListResponse>, clock: seq<int>, during: seq<seq<PoolChange>>,
                             after: seq<seq<PoolChange>>, picks: seq<TokenId>)
  {
    && |picks| <= |responses| == |clock| == |during| == |after|
    && now == Log(start.noted + ListNotesOf(responses, clock, picks), start.happened + ListMeanwhile(responses, during, after, |picks|))
  }

  lemma ListLogGrows(start: Log, before: Log, now: Log, responses: seq<ListResponse>, clock: seq<int>, during: seq<seq<PoolChange>>,
                     after: seq<seq<PoolChange>>, picks: seq<TokenId>, picked: Option<TokenId>)
    requires |picks| < |responses| == |clock| == |during| == |after| && ListLogged(start, before, responses, clock, during, after, picks)
    requires var k := |picks|;
             TryLogged(before, now, picked, ListNoteOf(if picked.Some? then picked.value else 0, responses[k], clock[k]), during[k],
                       if responses[k].Rejected? then after[k] else [])
    ensures if picked.None? then ListLogged(start, now, responses, clock, during, after, picks)
            else ListLogged(start, now, responses, clock, during, after, picks + [picked.value])
  {
    if picked.Some? {
      assert ListNotesOf(responses, clock, picks + [picked.value])
             == ListNotesOf(responses, clock, picks) + [ListNoteOf(picked.value, responses[|picks|], clock[|picks|])];
      hide ListNotesOf, ListNoteOf;
      assert now.noted == start.noted + ListNotesOf(responses, clock, picks + [picked.value]);
      assert now.happened == start.happened + ListMeanwhile(responses, during, after, |picks| + 1);
    }
  }

  ghost predicate Rejecting(responses: seq<ListResponse>, clock: seq<int>, picks: seq<TokenId>, pools: seq<seq<Entry>>)
    requires |responses| == |clock| == MAX_TRIES
  {
    && |picks| == |pools| <= MAX_TRIES
    && forall k | 0 <= k < |picks| :: IsPick(pools[k], clock[k], Some(picks[k])) && responses[k].Rejected?
  }

  /** How a list fetch ends: all its tries but the last were rejected, and it picks on while they are and a token is usable. */
  ghost predicate ListEnds(responses: seq<ListResponse>, clock: seq<int>, picks: seq<TokenId>, pools: seq<seq<Entry>>, result: ListFetch)
    requires |responses| == |clock| == MAX_TRIES
  {
    && |picks| <= MAX_TRIES && RejectedUpTo(responses, |picks|) && result == ListResultOf(responses, |picks|)
    && |picks| <= |pools| <= |picks| + 1
    && (forall k | 0 <= k < |picks| :: IsPick(pools[k], clock[k], Some(picks[k])))
    && (|picks| < |pools| ==> |picks| < MAX_TRIES && IsPick(pools[|picks|], clock[|picks|], None))
    && (|picks| < |pools| <==> |picks| < MAX_TRIES && (|picks| > 0 ==> responses[|picks| - 1].Rejected?))
  }

  lemma OneMoreListTry(responses: seq<ListResponse>, clock: seq<int>, picks: seq<TokenId>, pools: seq<seq<Entry>>, before: seq<Entry>,
                       picked: Option<TokenId>, answer: Option<ListFetch>)
    requires |responses| == |clock| == MAX_TRIES > |picks| && Rejecting(responses, clock, picks, pools)
    requires IsPick(before, clock[|picks|], picked)
    requires var r := responses[|picks|];
             picked.Some? ==> answer == if r.Rejected? then None else Some(if r.status == 304 then ListUnchanged else ListFetched)
    ensures if picked.None? then ListEnds(responses, clock, picks, pools + [before], ListFailed(GitHubUnavailable(NO_TOKENS)))
            else if answer.Some? then ListEnds(responses, clock, picks + [picked.value], pools + [before], answer.value)
            else Rejecting(responses, clock, picks + [picked.value], pools + [before])
  {
    hide IsPick;
  }

  lemma AllRejected(responses: seq<ListResponse>, clock: seq<int>, picks: seq<TokenId>, pools: seq<seq<Entry>>)
    requires |responses| == |clock| == MAX_TRIES == |picks| && Rejecting(responses, clock, picks, pools)
    ensures ListEnds(responses, clock, picks, pools, ListFailed(OtherError(responses[MAX_TRIES - 1].message)))
  {
    hide IsPick;
  }

  predicate RejectedUpTo(responses: seq<ListResponse>, tries: nat)
    requires tries <= |responses|
  {
    forall i | 0 <= i < tries - 1 :: responses[i].Rejected?
  }

  function ListResultOf(responses: seq<ListResponse>, tries: nat): ListFetch
    requires tries <= |responses| == MAX_TRIES
  {
    if tries > 0 && responses[tries - 1].Resolved? then (if responses[tries - 1].status == 304 then ListUnchanged else ListFetched)
    else if tries < MAX_TRIES then ListFailed(GitHubUnavailable(NO_TOKENS))
    else ListFailed(OtherError(responses[MAX_TRIES - 1].message))
  }

  predicate RetriedUpTo(responses: seq<Response>, tries: nat)
    requires tries <= |responses|
  {
    forall i | 0 <= i < tries - 1 :: Retries(responses[i])
  }

  function ResultOf(responses: seq<Response>, tries: nat): Fetch
    requires tries <= |responses|
  {
    if tries > 0 && !Retries(responses[tries - 1]) then AnswerOf(responses[tries - 1])
    else Failed(GitHubUnavailable(if tries < MAX_TRIES then NO_TOKENS else UNREACHABLE))
  }

  function Reset(r: Response): int
    requires Spent(r)
  {
    r.reset.value * 1000
  }

  ghost predicate NoneRestores(changes: seq<PoolChange>, id: TokenId, until: int) {
    forall c | c in changes :: !MayRestore(c, id, until)
  }

  /** Nothing that happened between the answer of try `i` and the pick of try `j` may have restored the token. */
  ghost predicate Unrestored(during: seq<seq<PoolChange>>, after: seq<seq<PoolChange>>, i: nat, j: nat, id: TokenId, until: int)
    requires i <= j <= |during| == |after|
  {
    && (forall m | i <= m < j :: NoneRestores(after[m], id, until))
    && (forall m | i < m < j :: NoneRestores(during[m], id, until))
  }

  lemma UnrestoredBefore(during: seq<seq<PoolChange>>, after: seq<seq<PoolChange>>, i: nat, j: nat, id: TokenId, until: int)
    requires i <= j < |during| == |after| && Unrestored(during, after, i, j + 1, id, until)
    ensures Unrestored(during, after, i, j, id, until) && NoneRestores(after[j], id, until)
    ensures i < j ==> NoneRestores(during[j], id, until)
  {
  }

  ghost predicate NeverRepicks(responses: seq<Response>, clock: seq<int>, during: seq<seq<PoolChange>>, after: seq<seq<PoolChange>>, picks: seq<TokenId>)
    requires |picks| <= |responses| == |clock| == |during| == |after|
  {
    forall i, j | 0 <= i < j < |picks| && Spent(responses[i]) && clock[j] < Reset(responses[i])
                  && Unrestored(during, after, i, j, picks[i], Reset(responses[i])) :: picks[j] != picks[i]
  }

  ghost predicate SpentStayAway(entries: seq<Entry>, responses: seq<Response>, during: seq<seq<PoolChange>>, after: seq<seq<PoolChange>>,
                                picks: seq<TokenId>, now: int)
    requires |picks| <= |responses| == |during| == |after|
  {
    forall i | 0 <= i < |picks| && Spent(responses[i]) && now < Reset(responses[i])
               && Unrestored(during, after, i, |picks|, picks[i], Reset(responses[i])) ::
      OutOfReach(entries, picks[i], Reset(responses[i]))
  }

  ghost predicate KeepsReach(before: seq<Entry>, after: seq<Entry>, changes: seq<PoolChange>) {
    forall t: TokenId, until: int | OutOfReach(before, t, until) && NoneRestores(changes, t, until) :: OutOfReach(after, t, until)
  }

  ghost predicate OthersKeepReach(before: seq<Entry>, after: seq<Entry>, id: TokenId) {
    forall t: TokenId, until: int | t != id && OutOfReach(before, t, until) :: OutOfReach(after, t, until)
  }

  /** The token that is picked is none that was spent and stayed out of reach. */
  lemma PickIsNotSpent(entries: seq<Entry>, responses: seq<Response>, during: seq<seq<PoolChange>>, after: seq<seq<PoolChange>>,
                       picks: seq<TokenId>, clock: seq<int>, id: TokenId)
    requires |picks| < |responses| == |clock| == |during| == |after|
    requires NeverRepicks(responses, clock, during, after, picks)
    requires SpentStayAway(entries, responses, during, after, picks, clock[|picks|]) && IsPick(entries, clock[|picks|], Some(id))
    ensures NeverRepicks(responses, clock, during, after, picks + [id])
  {
    var k := |picks|;
    forall i | 0 <= i < k && Spent(responses[i]) && clock[k] < Reset(responses[i])
               && Unrestored(during, after, i, k, picks[i], Reset(responses[i]))
      ensures id != picks[i]
    {
      OutOfReachIsNotPicked(entries, picks[i], Reset(responses[i]), clock[k], Some(id));
    }
  }

  /** What a try leaves out of reach: what was, and its own token once that is spent, unless a change may have restored it. */
  ghost predicate TryKeepsReach(before: seq<Entry>, end: seq<Entry>, id: TokenId, r: Response, during: seq<PoolChange>, after: seq<PoolChange>) {
    && (forall t: TokenId, until: int | t != id && OutOfReach(before, t, until) && NoneRestores(during, t, until) && NoneRestores(after, t, until) ::
          OutOfReach(end, t, until))
    && (Spent(r) && NoneRestores(after, id, Reset(r)) ==> OutOfReach(end, id, Reset(r)))
  }

  /** The pool as the token is picked, as the answer arrives, after it was handled, and as the next try begins. */
  lemma ReachAcrossTry(pools: seq<seq<Entry>>, id: TokenId, r: Response, during: seq<PoolChange>, after: seq<PoolChange>)
    requires |pools| == 4
    requires KeepsReach(pools[0], pools[1], during) && OthersKeepReach(pools[1], pools[2], id) && KeepsReach(pools[2], pools[3], after)
    requires Spent(r) ==> OutOfReach(pools[2], id, Reset(r))
    ensures TryKeepsReach(pools[0], pools[3], id, r, during, after)
  {
    hide OutOfReach, NoneRestores;
  }

  lemma OneTryKeepsSpentAway(before: seq<Entry>, end: seq<Entry>, responses: seq<Response>, during: seq<seq<PoolChange>>,
                             after: seq<seq<PoolChange>>, picks: seq<TokenId>, clock: seq<int>)
    requires 0 < |picks| < |responses| == |clock| == |during| == |after| && clock[|picks| - 1] <= clock[|picks|]
    requires NeverRepicks(responses, clock, during, after, picks)
    requires var k := |picks| - 1;
             && SpentStayAway(before, responses, during, after, picks[..k], clock[k])
             && TryKeepsReach(before, end, picks[k], responses[k], during[k], after[k])
    ensures SpentStayAway(end, responses, during, after, picks, clock[|picks|])
  {
    hide OutOfReach, NoneRestores;
    var k := |picks| - 1;
    forall i | 0 <= i < |picks| && Spent(responses[i]) && clock[k + 1] < Reset(responses[i])
               && Unrestored(during, after, i, k + 1, picks[i], Reset(responses[i]))
      ensures OutOfReach(end, picks[i], Reset(responses[i]))
    {
      UnrestoredBefore(during, after, i, k, picks[i], Reset(responses[i]));
      if i < k {
        assert picks[..k][i] == picks[i] && clock[k] < Reset(responses[i]);
        assert OutOfReach(before, picks[i], Reset(responses[i])) && picks[i] != picks[k];
      }
    }
  }

  /** The answers after which the loop tries again. */
  predicate Retries(r: Response) {
    match r
    case Forbidden403(remaining, _, _) => remaining == Some(0)
    case TooMany429 => true
    case Other(status, _) => status >= 500
    case _ => false
  }

  function AnswerOf(r: Response): Fetch
    requires !Retries(r)
  {
    match r
    case Ok200(_, _) => FetchedRepo
    case NotModified304 => Unchanged
    case Missing404 => Failed(NotFoundError(MISSING))
    case Forbidden403(_, _, message) => Failed(GitHubError(403, message))
    case Other(status, message) => Failed(GitHubError(status, message))
    case NoStatus(message) => Failed(GitHubError(500, message))
  }
}
