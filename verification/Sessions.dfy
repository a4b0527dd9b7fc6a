/**
 src/lib/db/sessions.ts:35-116: sessions slide. A lookup with less than four of the eight hours left extends
 the row, and a lookup of an expired session or of a disabled user deletes it.
 */
module Sessions {
  import opened Common

  const HOUR_MS := 3_600_000

  const TTL_MS := 8 * HOUR_MS

  const THRESHOLD_MS := 4 * HOUR_MS

  datatype Session = Session(userId: nat, expiresAt: int)

  /** The two tables, as far as sessions need them: who is active is the users table's business. */
  datatype Auth = Auth(sessions: map<string, Session>, active: set<nat>)

  predicate Succeeds(a: Auth, id: string, now: int) {
    id in a.sessions && now < a.sessions[id].expiresAt && a.sessions[id].userId in a.active
  }

  function Looked(a: Auth, id: string, now: int): Auth {
    if Succeeds(a, id, now) then
      var row := a.sessions[id];
      if row.expiresAt - now < THRESHOLD_MS then a.(sessions := a.sessions[id := row.(expiresAt := now + TTL_MS)]) else a
    else a.(sessions := a.sessions - {id})
  }

  class SessionStore {
    var sessions: map<string, Session>
    var active: set<nat>

    ghost function View(): Auth
      reads this
    {
      Auth(sessions, active)
    }

    constructor (active: set<nat>)
      ensures View() == Auth(map[], active)
    {
      this.sessions, this.active := map[], active;
    }

    method CreateSession(id: string, userId: nat, now: int) returns (expiresAt: int)
      requires id !in sessions
      modifies this
      ensures expiresAt == now + TTL_MS
      ensures View() == old(View()).(sessions := old(sessions)[id := Session(userId, expiresAt)])
    {
      expiresAt := now + TTL_MS;
      sessions := sessions[id := Session(userId, expiresAt)];
    }

    /** The row as it stands afterwards, or nothing. */
    method FindSessionById(id: string, now: int) returns (row: Option<Session>)
      modifies this
      ensures row.Some? <==> Succeeds(old(View()), id, now)
      ensures View() == Looked(old(View()), id, now)
      ensures row.Some? ==> id in sessions && row.value == sessions[id] && row.value.expiresAt >= now + THRESHOLD_MS
      ensures row.None? ==> id !in sessions
    {
      if id !in sessions {
        assert sessions - {id} == sessions;
        return None;
      }
      var found := sessions[id];
      if found.expiresAt <= now {
        sessions := sessions - {id};
        return None;
      }
      if found.userId !in active {
        sessions := sessions - {id};
        return None;
      }
      if found.expiresAt - now < THRESHOLD_MS {
        found := found.(expiresAt := now + TTL_MS);
        sessions := sessions[id := found];
      }
      return Some(found);
    }

    method InvalidateSession(id: string)
      modifies this
      ensures View() == old(View()).(sessions := old(sessions) - {id})
    {
      sessions := sessions - {id};
    }

    method InvalidateAllSessionsForUser(userId: nat) returns (count: nat)
      modifies this
      ensures View() == old(View()).(sessions := old(sessions) - Of(old(sessions), userId)) && count == |Of(old(sessions), userId)|
    {
      var gone := Of(sessions, userId);
      sessions := sessions - gone;
      count := |gone|;
    }
  }

  function Of(sessions: map<string, Session>, userId: nat): set<string> { set id | id in sessions && sessions[id].userId == userId }

  // ---------------------------------------------------------------------------------------------
  // Runs.
  // ---------------------------------------------------------------------------------------------

  datatype Event =
    | Login(id: string, userId: nat, now: int)
    | Lookup(id: string, now: int)
    | Logout(id: string)
    | LogoutEverywhere(userId: nat)
    | Disable(userId: nat)
    | Enable(userId: nat)

  function Next(a: Auth, e: Event): Auth {
    match e
    case Login(id, userId, now) => a.(sessions := a.sessions[id := Session(userId, now + TTL_MS)])
    case Lookup(id, now) => Looked(a, id, now)
    case Logout(id) => a.(sessions := a.sessions - {id})
    case LogoutEverywhere(userId) => a.(sessions := a.sessions - Of(a.sessions, userId))
    case Disable(userId) => a.(active := a.active - {userId})
    case Enable(userId) => a.(active := a.active + {userId})
  }

  function Final(a: Auth, es: seq<Event>): Auth
    decreases |es|
  {
    if es == [] then a else Final(Next(a, es[0]), es[1..])
  }

  /** Every lookup of `id` in the run succeeds, or none does. */
  ghost predicate Lookups(a: Auth, es: seq<Event>, id: string, succeed: bool)
    decreases |es|
  {
    es != [] ==>
      (es[0].Lookup? && es[0].id == id ==> Succeeds(a, id, es[0].now) == succeed) && Lookups(Next(a, es[0]), es[1..], id, succeed)
  }

  /** Nothing in the run ends session `id` of user `u` on purpose, and its lookups lie less than `gap` apart, from `since` on. */
  ghost predicate StaysActive(es: seq<Event>, id: string, u: nat, since: int, gap: int)
    decreases |es|
  {
    es != [] ==>
      match es[0]
      case Lookup(i, now) => if i == id then since <= now < since + gap && StaysActive(es[1..], id, u, now, gap) else StaysActive(es[1..], id, u, since, gap)
      case Login(i, _, _) => i != id && StaysActive(es[1..], id, u, since, gap)
      case Logout(i) => i != id && StaysActive(es[1..], id, u, since, gap)
      case LogoutEverywhere(v) => v != u && StaysActive(es[1..], id, u, since, gap)
      case Disable(v) => v != u && StaysActive(es[1..], id, u, since, gap)
      case Enable(_) => StaysActive(es[1..], id, u, since, gap)
  }

  /** The session was looked up successfully, or created, at `seen`. */
  ghost predicate FreshAt(a: Auth, id: string, u: nat, seen: int) {
    id in a.sessions && a.sessions[id].userId == u && u in a.active && seen + THRESHOLD_MS <= a.sessions[id].expiresAt <= seen + TTL_MS
  }

  /** After a successful lookup at `now` the expiry lies four to eight hours ahead, whenever it was fresh before. */
  lemma LookupKeepsFresh(a: Auth, id: string, u: nat, seen: int, now: int)
    requires FreshAt(a, id, u, seen) && seen <= now && Succeeds(a, id, now)
    ensures FreshAt(Looked(a, id, now), id, u, now)
    ensures now + 14_400_000 <= Looked(a, id, now).sessions[id].expiresAt <= now + 28_800_000
  {
  }

  /** A lookup renews exactly a session with less than four hours left, to eight hours from now, and touches no other. */
  lemma RenewedIff(a: Auth, id: string, now: int)
    requires Succeeds(a, id, now)
    ensures var after, expiry := Looked(a, id, now), a.sessions[id].expiresAt;
            && after.active == a.active && after.sessions.Keys == a.sessions.Keys
            && (forall i | i in a.sessions && i != id :: after.sessions[i] == a.sessions[i])
            && after.sessions[id] == a.sessions[id].(expiresAt := if expiry < now + 14_400_000 then now + 28_800_000 else expiry)
  {
  }

  /** What a lookup asks for: a session that is not over, of a user who is active; any other one it deletes. */
  lemma LookedUpIff(a: Auth, id: string, now: int)
    ensures Succeeds(a, id, now) <==> id in a.sessions && a.sessions[id].expiresAt > now && a.sessions[id].userId in a.active
    ensures !Succeeds(a, id, now) ==> Looked(a, id, now) == a.(sessions := a.sessions - {id})
  {
  }

  /** A user who is back within four hours every time is never logged out, whatever other sessions do. */
  lemma {:induction false} ActiveUserStaysLoggedIn(a: Auth, es: seq<Event>, id: string, u: nat, seen: int)
    requires FreshAt(a, id, u, seen) && StaysActive(es, id, u, seen, 14_400_000)
    ensures Lookups(a, es, id, true) && id in Final(a, es).sessions && u in Final(a, es).active
    decreases |es|
  {
    if es != [] {
      var since := if es[0].Lookup? && es[0].id == id then es[0].now else seen;
      ActiveUserStaysLoggedIn(Next(a, es[0]), es[1..], id, u, since);
    }
  }

  /** Nothing in the run looks the session up, and nothing ends it on purpose. */
  predicate LeavesAlone(e: Event, id: string, u: nat) {
    match e
    case Login(i, _, _) => i != id
    case Lookup(i, _) => i != id
    case Logout(i) => i != id
    case LogoutEverywhere(v) => v != u
    case Disable(v) => v != u
    case Enable(_) => true
  }

  lemma {:induction false} UnusedSessionStays(a: Auth, es: seq<Event>, id: string, u: nat)
    requires id in a.sessions && a.sessions[id].userId == u && u in a.active
    requires forall e | e in es :: LeavesAlone(e, id, u)
    ensures id in Final(a, es).sessions && Final(a, es).sessions[id] == a.sessions[id] && u in Final(a, es).active
    decreases |es|
  {
    if es != [] {
      assert es[0] in es && LeavesAlone(es[0], id, u);
      UnusedSessionStays(Next(a, es[0]), es[1..], id, u);
    }
  }

  /** A login that is not used lasts eight hours to the millisecond, whatever happens to other sessions and users. */
  lemma LoginLastsEightHoursIff(a: Auth, es: seq<Event>, id: string, u: nat, now: int, later: int)
    requires u in a.active && forall e | e in es :: LeavesAlone(e, id, u)
    ensures Succeeds(Final(a, [Login(id, u, now)] + es), id, later) <==> later < now + 28_800_000
  {
    assert ([Login(id, u, now)] + es)[1..] == es;
    UnusedSessionStays(Next(a, Login(id, u, now)), es, id, u);
  }

  ghost predicate NotCreated(es: seq<Event>, id: string) { forall e | e in es :: e.Login? ==> e.id != id }

  lemma {:induction false} GoneForGood(a: Auth, es: seq<Event>, id: string)
    requires id !in a.sessions && NotCreated(es, id)
    ensures Lookups(a, es, id, false) && id !in Final(a, es).sessions
    decreases |es|
  {
    if es != [] {
      assert es[0] in es;
      GoneForGood(Next(a, es[0]), es[1..], id);
    }
  }

  /** Away for eight hours or longer: the lookup fails and the session never comes back. */
  lemma AwayForEightHours(a: Auth, es: seq<Event>, id: string, u: nat, seen: int, now: int)
    requires FreshAt(a, id, u, seen) && now >= seen + 28_800_000 && NotCreated(es, id)
    ensures Lookups(a, [Lookup(id, now)] + es, id, false)
  {
    assert ([Lookup(id, now)] + es)[1..] == es;
    GoneForGood(Looked(a, id, now), es, id);
  }

  /** One lookup while the user is disabled ends the session for good, even if the user is enabled again. */
  lemma DisabledLookupIsFinal(a: Auth, es: seq<Event>, id: string, now: int)
    requires id in a.sessions && a.sessions[id].userId !in a.active && NotCreated(es, id)
    ensures Lookups(a, [Lookup(id, now)] + es, id, false)
  {
    assert ([Lookup(id, now)] + es)[1..] == es;
    GoneForGood(Looked(a, id, now), es, id);
  }

  /**
   Between four and eight hours the outcome of the next lookup depends on what is left: it succeeds exactly
   when the expiry set before is still ahead, so a fresh session alone promises no more than four hours.
   */
  lemma FourHoursIsAllThatIsPromised(a: Auth, id: string, u: nat, seen: int, gap: int)
    requires THRESHOLD_MS <= gap < TTL_MS && u in a.active
    ensures exists expiry :: seen + THRESHOLD_MS <= expiry <= seen + TTL_MS
                          && FreshAt(a.(sessions := a.sessions[id := Session(u, expiry)]), id, u, seen)
                          && !Succeeds(a.(sessions := a.sessions[id := Session(u, expiry)]), id, seen + gap)
    ensures exists expiry :: seen + THRESHOLD_MS <= expiry <= seen + TTL_MS
                          && FreshAt(a.(sessions := a.sessions[id := Session(u, expiry)]), id, u, seen)
                          && Succeeds(a.(sessions := a.sessions[id := Session(u, expiry)]), id, seen + gap)
  {
    var short, long := seen + THRESHOLD_MS, seen + TTL_MS;
    assert FreshAt(a.(sessions := a.sessions[id := Session(u, short)]), id, u, seen);
    assert FreshAt(a.(sessions := a.sessions[id := Session(u, long)]), id, u, seen);
  }
}
