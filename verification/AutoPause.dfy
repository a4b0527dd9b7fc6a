/**
 src/lib/scheduler/{state,refresh-tick,tick,index}.ts: the pause flag, the refresh interval and the
 auto-pause that puts the scheduler to sleep while every token is exhausted. Everything a tick does
 before it claims happens in one synchronous stretch, so it is one step here.
 */
module AutoPause {
  import opened Common
  import opened Pool

  const RESUME_BUFFER_MS := 1_000

  /** The module variables of the four files. `timer` is when the auto-resume callback is due. */
  datatype Sched = Sched(
    started: bool, tickFn: bool, interval: bool, paused: bool, pausedAt: Option<int>, autoPaused: bool, timer: Option<int>)

  const FRESH := Sched(false, false, false, false, None, false, None)

  function Paused(s: Sched, now: int): Sched { if s.paused then s else s.(paused := true, pausedAt := Some(now)) }

  function Resumed(s: Sched): Sched { s.(paused := false, pausedAt := if s.paused then None else s.pausedAt) }

  function IntervalOn(s: Sched): Sched { s.(interval := s.interval || s.tickFn) }

  predicate AllExhausted(st: Status) { st.active == 0 && st.exhausted > 0 }

  function FellAsleep(s: Sched, st: Status, now: int): Sched {
    Paused(s, now).(autoPaused := true, interval := false,
                    timer := if st.earliestReset.Some? then Some(now + Max(0, st.earliestReset.value - now) + RESUME_BUFFER_MS) else s.timer)
  }

  function WokeUp(s: Sched): Sched { IntervalOn(Resumed(s.(autoPaused := false, timer := None))) }

  /** runTick up to the claim. */
  function TickHead(s: Sched, st: Status, now: int): Sched {
    if AllExhausted(st) then (if s.autoPaused then s else FellAsleep(s, st, now))
    else if s.autoPaused && st.active > 0 then WokeUp(s)
    else s
  }

  /** Whether runTick goes on to call claimBatch. */
  predicate Proceeds(s: Sched, st: Status, now: int) {
    !AllExhausted(st) && !TickHead(s, st, now).paused
  }

  class Scheduler {
    const pool: TokenPool
    var started: bool
    var tickFn: bool
    var interval: bool
    var pausedFlag: bool
    var pausedAt: Option<int>
    var autoPaused: bool
    var timer: Option<int>

    ghost function View(): Sched
      reads this
    {
      Sched(started, tickFn, interval, pausedFlag, pausedAt, autoPaused, timer)
    }

    constructor (pool: TokenPool)
      ensures View() == FRESH && this.pool == pool
    {
      this.pool := pool;
      started, tickFn, interval, pausedFlag, pausedAt, autoPaused, timer := false, false, false, false, None, false, None;
    }

    method Pause(now: int)
      modifies this
      ensures View() == Paused(old(View()), now)
    {
      if pausedFlag {
        return;
      }
      pausedFlag := true;
      pausedAt := Some(now);
    }

    method Resume()
      modifies this
      ensures View() == Resumed(old(View()))
    {
      if !pausedFlag {
        return;
      }
      pausedFlag := false;
      pausedAt := None;
    }

    method PauseRefreshTick()
      modifies this
      ensures View() == old(View()).(interval := false)
    {
      if interval {
        interval := false;
      }
    }

    method ResumeRefreshTick()
      modifies this
      ensures View() == IntervalOn(old(View()))
    {
      if interval {
        return;
      }
      if !tickFn {
        return;
      }
      interval := true;
    }

    method ScheduleAutoResume(resetAt: int, now: int)
      modifies this
      ensures View() == old(View()).(timer := Some(now + Max(0, resetAt - now) + RESUME_BUFFER_MS))
    {
      var ms := Max(0, resetAt - now) + RESUME_BUFFER_MS;
      timer := Some(now + ms);
    }

    /** The callback of the auto-resume timer. */
    method OnTimer()
      modifies this
      ensures View() == WokeUp(old(View()))
    {
      autoPaused := false;
      timer := None;
      Resume();
      ResumeRefreshTick();
    }

    method RunTickHead(now: int) returns (proceeds: bool, ghost st: Status)
      modifies this
      ensures IsStatus(pool.entries, now, st)
      ensures View() == TickHead(old(View()), st, now) && proceeds == Proceeds(old(View()), st, now)
    {
      var status := pool.PoolStatus(now);
      st := status;
      if status.active == 0 && status.exhausted > 0 {
        if !autoPaused {
          autoPaused := true;
          Pause(now);
          PauseRefreshTick();
          if status.earliestReset.Some? {
            ScheduleAutoResume(status.earliestReset.value, now);
          }
        }
        return false, st;
      }
      if autoPaused && status.active > 0 {
        autoPaused := false;
        if timer.Some? {
          timer := None;
        }
        Resume();
        ResumeRefreshTick();
      }
      return !pausedFlag, st;
    }

    /** The interval callback looks at the flag first. */
    method OnInterval(now: int) returns (proceeds: bool)
      modifies this
      ensures old(pausedFlag) ==> View() == old(View()) && !proceeds
      ensures !old(pausedFlag) ==>
                exists st :: IsStatus(pool.entries, now, st) && View() == TickHead(old(View()), st, now)
                  && proceeds == Proceeds(old(View()), st, now)
    {
      if pausedFlag {
        return false;
      }
      ghost var st: Status;
      proceeds, st := RunTickHead(now);
    }

    method StartScheduler()
      modifies this
      ensures View() == Started(old(View()))
    {
      if started {
        return;
      }
      tickFn := true;
      ResumeRefreshTick();
      started := true;
    }

    method Stop()
      modifies this
      ensures View() == Stopped(old(View()))
    {
      PauseRefreshTick();
      started := false;
    }
  }

  function Started(s: Sched): Sched { if s.started then s else IntervalOn(s.(tickFn := true)).(started := true) }

  function Stopped(s: Sched): Sched { s.(interval := false, started := false) }

  // ---------------------------------------------------------------------------------------------
  // Runs: any interleaving of ticks, timer firings, operators and pool changes.
  // ---------------------------------------------------------------------------------------------

  datatype World = World(sched: Sched, entries: seq<Entry>)

  datatype Event =
    | Start
    | Stop
    | IntervalFires(now: int, st: Status)
    | ManualTick(now: int, st: Status)
    | TimerFires(now: int)
    | ManualPause(now: int)
    | ManualResume
    | PoolChanges(entries: seq<Entry>)

  ghost predicate Possible(w: World, e: Event) {
    match e
    case IntervalFires(now, st) => w.sched.interval && IsStatus(w.entries, now, st)
    case ManualTick(now, st) => IsStatus(w.entries, now, st)
    case TimerFires(now) => w.sched.timer.Some? && now >= w.sched.timer.value
    case _ => true
  }

  function Next(w: World, e: Event): World {
    match e
    case Start => w.(sched := Started(w.sched))
    case Stop => w.(sched := Stopped(w.sched))
    case IntervalFires(now, st) => if w.sched.paused then w else w.(sched := TickHead(w.sched, st, now))
    case ManualTick(now, st) => w.(sched := TickHead(w.sched, st, now))
    case TimerFires(_) => w.(sched := WokeUp(w.sched))
    case ManualPause(now) => w.(sched := Paused(w.sched, now))
    case ManualResume => w.(sched := Resumed(w.sched))
    case PoolChanges(entries) => w.(entries := entries)
  }

  /** The event makes a tick claim jobs. */
  predicate ClaimsNow(w: World, e: Event) {
    match e
    case IntervalFires(now, st) => !w.sched.paused && Proceeds(w.sched, st, now)
    case ManualTick(now, st) => Proceeds(w.sched, st, now)
    case _ => false
  }

  ghost predicate Course(w: World, es: seq<Event>)
    decreases |es|
  {
    es != [] ==> Possible(w, es[0]) && Course(Next(w, es[0]), es[1..])
  }

  function Final(w: World, es: seq<Event>): World
    decreases |es|
  {
    if es == [] then w else Final(Next(w, es[0]), es[1..])
  }

  /** Asleep by auto-pause and resume timer set are one and the same, and a started scheduler without an interval is asleep. */
  predicate InOrder(s: Sched) {
    && (s.autoPaused <==> s.timer.Some?)
    && (s.interval || s.started ==> s.tickFn)
    && (s.started && !s.interval ==> s.autoPaused)
  }

  lemma InOrderStep(w: World, e: Event)
    requires InOrder(w.sched) && Possible(w, e)
    ensures InOrder(Next(w, e).sched)
  {
  }

  /**
   On every interleaving from the beginning, stops and starts included: the scheduler is asleep exactly when the resume timer
   is set, and once started its interval is off only while it is asleep. So it never sleeps without a wake-up.
   */
  lemma {:induction false} NeverAsleepWithoutWakeUp(w: World, es: seq<Event>)
    requires (w.sched == FRESH || InOrder(w.sched)) && Course(w, es)
    ensures InOrder(Final(w, es).sched)
    decreases |es|
  {
    if es != [] {
      InOrderStep(w, es[0]);
      NeverAsleepWithoutWakeUp(Next(w, es[0]), es[1..]);
    }
  }

  /** Nor does it sleep with the interval running; `started` aside, that is the other half. */
  predicate InSync(s: Sched) { InOrder(s) && s.started && (s.autoPaused ==> !s.interval) }

  /** A step leaves the scheduler in sync exactly unless it is a stop. */
  lemma InSyncStepIff(w: World, e: Event)
    requires InSync(w.sched) && Possible(w, e)
    ensures InSync(Next(w, e).sched) <==> !e.Stop?
  {
  }

  /** From a start of a scheduler that is awake until the next stop, the interval is stopped exactly while it is asleep. */
  lemma {:induction false} AsleepIffIntervalOff(w: World, es: seq<Event>)
    requires InSync(w.sched) || (InOrder(w.sched) && !w.sched.autoPaused && es != [] && es[0].Start?)
    requires Course(w, es) && forall e | e in es :: !e.Stop?
    ensures var s := Final(w, es).sched; s.started && (s.autoPaused <==> !s.interval) && (s.autoPaused <==> s.timer.Some?)
    decreases |es|
  {
    if es != [] {
      assert es[0] in es;
      if InSync(w.sched) {
        InSyncStepIff(w, es[0]);
      }
      assert InSync(Next(w, es[0]).sched);
      AsleepIffIntervalOff(Next(w, es[0]), es[1..]);
    }
  }

  /** A stop and a start during a sleep is the one way to sleep with the interval running. */
  lemma StopAndStartWhileAsleep(w: World)
    requires InOrder(w.sched) && w.sched.started
    ensures var s := Next(Next(w, Stop), Start).sched;
            (s.autoPaused && s.interval <==> w.sched.autoPaused) && s.paused == w.sched.paused && s.timer == w.sched.timer
  {
  }

  /** The timer was set for the earliest reset of the present pool. */
  ghost predicate TimerJustified(w: World) {
    w.sched.timer.Some? ==>
      exists t: int, st: Status :: IsStatus(w.entries, t, st) && st.earliestReset.Some? && st.earliestReset.value <= w.sched.timer.value
  }

  lemma {:induction false} TimerStaysJustified(w: World, es: seq<Event>)
    requires InOrder(w.sched) && TimerJustified(w) && Course(w, es) && forall e | e in es :: !e.PoolChanges?
    ensures TimerJustified(Final(w, es))
    decreases |es|
  {
    if es != [] {
      assert es[0] in es;
      InOrderStep(w, es[0]);
      TimerStaysJustified(Next(w, es[0]), es[1..]);
    }
  }

  /**
   If the pool does not change after an auto-pause, some token is usable whenever the resume timer fires,
   whatever else happened in between.
   */
  lemma WakeUpFindsUsableToken(w: World, now: int, st: Status, es: seq<Event>, later: int, st': Status)
    requires InOrder(w.sched) && !w.sched.autoPaused && IsStatus(w.entries, now, st) && AllExhausted(st)
    requires var w1 := Next(w, ManualTick(now, st));
             Course(w1, es) && (forall e | e in es :: !e.PoolChanges?) && Possible(Final(w1, es), TimerFires(later))
    requires IsStatus(Final(Next(w, ManualTick(now, st)), es).entries, later, st')
    ensures st'.active > 0
  {
    var w1 := Next(w, ManualTick(now, st));
    InOrderStep(w, ManualTick(now, st));
    assert TimerJustified(w1) by {
      assert IsStatus(w1.entries, now, st) && st.earliestReset.value <= w1.sched.timer.value;
    }
    TimerStaysJustified(w1, es);
    var w2 := Final(w1, es);
    var t: int, s: Status :| IsStatus(w2.entries, t, s) && s.earliestReset.Some? && s.earliestReset.value <= w2.sched.timer.value;
    UsableAfterEarliestReset(w2.entries, t, s, later, st');
  }

  /** Some token may be used: its quota is not spent, or its reset has come. */
  ghost predicate SomeUsable(entries: seq<Entry>, now: int) {
    exists e | e in entries :: e.resetAt.Some? && now < e.resetAt.value ==> e.used < e.limit
  }

  lemma UsableIffActive(entries: seq<Entry>, now: int, st: Status)
    requires IsStatus(entries, now, st)
    ensures SomeUsable(entries, now) <==> st.active > 0
    ensures AllExhausted(st) <==> entries != [] && !SomeUsable(entries, now)
  {
    ActiveIffSomeUsable(entries, now);
    if e :| e in entries && (e.resetAt.Some? && now < e.resetAt.value ==> e.used < e.limit) {
      assert !Exhausted(e, now);
    }
  }

  /**
   When a tick claims: one of the interval exactly while the scheduler is not paused and some token is usable, or there is
   none at all; one run by hand also while the pause is an auto-pause and some token is usable.
   */
  lemma TickClaimsIff(w: World, now: int, st: Status)
    requires IsStatus(w.entries, now, st)
    ensures ClaimsNow(w, IntervalFires(now, st)) <==> !w.sched.paused && (w.entries == [] || SomeUsable(w.entries, now))
    ensures ClaimsNow(w, ManualTick(now, st)) <==>
              if w.sched.paused then w.sched.autoPaused && SomeUsable(w.entries, now) else w.entries == [] || SomeUsable(w.entries, now)
  {
    UsableIffActive(w.entries, now, st);
  }

  /** No pause by hand, no stop, and no tick on a pool whose tokens are all exhausted. */
  predicate KeepsAwake(e: Event) {
    match e
    case ManualPause(_) => false
    case Stop => false
    case IntervalFires(_, st) => st.active > 0 || st.exhausted == 0
    case ManualTick(_, st) => st.active > 0 || st.exhausted == 0
    case _ => true
  }

  lemma {:induction false} StaysAwake(w: World, es: seq<Event>)
    requires !w.sched.paused && w.sched.interval && Course(w, es) && forall e | e in es :: KeepsAwake(e)
    ensures !Final(w, es).sched.paused && Final(w, es).sched.interval
    decreases |es|
  {
    if es != [] {
      assert es[0] in es;
      StaysAwake(Next(w, es[0]), es[1..]);
    }
  }

  /** After the wake-up of a scheduler that was ever started, ticks come and claim again, until a new pause, a stop or an exhausted pool. */
  lemma WakeUpClaims(w: World, later: int, es: seq<Event>, now: int, st: Status)
    requires InOrder(w.sched) && w.sched.tickFn && Possible(w, TimerFires(later))
    requires var w1 := Next(w, TimerFires(later)); Course(w1, es) && (forall e | e in es :: KeepsAwake(e)) && IsStatus(Final(w1, es).entries, now, st)
    ensures var w2 := Final(Next(w, TimerFires(later)), es);
            && Possible(w2, IntervalFires(now, st))
            && (ClaimsNow(w2, IntervalFires(now, st)) <==> w2.entries == [] || SomeUsable(w2.entries, now))
  {
    var w1 := Next(w, TimerFires(later));
    StaysAwake(w1, es);
    TickClaimsIff(Final(w1, es), now, st);
  }

  /** The moment of a pause is that of the first pause since the last resume, and the wake-up comes a second after the reset. */
  lemma PausedSince(w: World, now: int, st: Status)
    ensures var s := Next(w, ManualPause(now)).sched;
            s.paused && s.pausedAt == (if w.sched.paused then w.sched.pausedAt else Some(now)) && s == w.sched.(paused := true, pausedAt := s.pausedAt)
    ensures var s := Next(w, ManualResume).sched;
            !s.paused && s == w.sched.(paused := false, pausedAt := if w.sched.paused then None else w.sched.pausedAt)
    ensures IsStatus(w.entries, now, st) && st.active == 0 && st.exhausted > 0 && !w.sched.autoPaused ==>
              var s := Next(w, ManualTick(now, st)).sched;
              s.autoPaused && s.timer == Some((if st.earliestReset.value > now then st.earliestReset.value else now) + 1_000)
  {
  }

  /** No tick claims while all tokens are exhausted, or while the scheduler is paused by hand. */
  lemma NoClaimWhileHeld(w: World, e: Event)
    requires Possible(w, e) && ClaimsNow(w, e)
    ensures !Next(w, e).sched.paused && !AllExhausted(e.st)
    ensures w.sched.paused ==> w.sched.autoPaused && e.st.active > 0 && e.ManualTick?
  {
  }

  /**
   A tick leaves the scheduler asleep exactly when all tokens are exhausted, or the pool was emptied while it
   slept; falling asleep sets the pause flag, and the wake-up lies at least a second away and past the first reset.
   */
  lemma TickSleepsIff(w: World, now: int, st: Status)
    requires InOrder(w.sched) && IsStatus(w.entries, now, st)
    ensures var s := Next(w, ManualTick(now, st)).sched;
            && (s.autoPaused <==> AllExhausted(st) || (w.sched.autoPaused && w.entries == []))
            && (s.autoPaused && !w.sched.autoPaused ==>
                  s.paused && s.timer.value >= now + RESUME_BUFFER_MS && s.timer.value >= st.earliestReset.value + RESUME_BUFFER_MS)
            && (w.sched.autoPaused && !s.autoPaused ==> !s.paused && s.interval == w.sched.tickFn)
  {
  }

  /** Exactly what can lift a pause, other than a resume by hand. */
  lemma PauseIsLiftedIff(w: World, e: Event)
    requires InOrder(w.sched) && w.sched.paused && Possible(w, e) && !e.ManualResume?
    ensures !Next(w, e).sched.paused <==>
              w.sched.autoPaused && (e.TimerFires? || (e.ManualTick? && e.st.active > 0))
  {
  }

  ghost predicate NoClaims(w: World, es: seq<Event>)
    decreases |es|
  {
    es != [] ==> !ClaimsNow(w, es[0]) && NoClaims(Next(w, es[0]), es[1..])
  }

  /**
   With ticks driven by the interval only, a pause made by hand while not auto-paused holds, and no job is
   claimed, until a resume by hand.
   */
  lemma {:induction false} ManualPauseHolds(w: World, es: seq<Event>)
    requires InOrder(w.sched) && w.sched.paused && !w.sched.autoPaused && Course(w, es)
    requires forall e | e in es :: !e.ManualResume? && !e.ManualTick?
    ensures Final(w, es).sched.paused && !Final(w, es).sched.autoPaused && NoClaims(w, es)
    decreases |es|
  {
    if es != [] {
      assert es[0] in es;
      InOrderStep(w, es[0]);
      ManualPauseHolds(Next(w, es[0]), es[1..]);
    }
  }

  const SPENT := Entry(0, 5_000, 5_000, Some(60_000), None, false)

  /** The restriction is needed: a tick run by hand on an exhausted pool turns the pause into one the timer lifts. */
  lemma ManualTickLosesThePause()
    ensures var es := [Start, PoolChanges([SPENT]), ManualPause(0), ManualTick(0, Status(0, 1, Some(60_000))), TimerFires(61_000)];
            Course(World(FRESH, []), es) && !Final(World(FRESH, []), es).sched.paused
  {
    var st := Status(0, 1, Some(60_000));
    assert [SPENT][1..] == [];
    assert SPENT in [SPENT] && CountActive([SPENT], 0) == 0 && IsStatus([SPENT], 0, st);
    var w0 := World(FRESH, []);
    var w1 := Next(w0, Start);
    var w2 := Next(w1, PoolChanges([SPENT]));
    var w3 := Next(w2, ManualPause(0));
    var w4 := Next(w3, ManualTick(0, st));
    var w5 := Next(w4, TimerFires(61_000));
    Unfold(w4, TimerFires(61_000), []);
    Unfold(w3, ManualTick(0, st), [TimerFires(61_000)]);
    Unfold(w2, ManualPause(0), [ManualTick(0, st), TimerFires(61_000)]);
    Unfold(w1, PoolChanges([SPENT]), [ManualPause(0), ManualTick(0, st), TimerFires(61_000)]);
    Unfold(w0, Start, [PoolChanges([SPENT]), ManualPause(0), ManualTick(0, st), TimerFires(61_000)]);
    assert [TimerFires(61_000)] + [] == [TimerFires(61_000)];
  }

  lemma Unfold(w: World, e: Event, es: seq<Event>)
    requires Possible(w, e) && Course(Next(w, e), es)
    ensures Course(w, [e] + es) && Final(w, [e] + es) == Final(Next(w, e), es)
  {
    assert ([e] + es)[1..] == es;
  }

  /** After a stop with no resume timer set, the interval stays off until a start or a tick run by hand. */
  lemma {:induction false} StopHoldsWithoutTimer(w: World, es: seq<Event>)
    requires !w.sched.interval && w.sched.timer.None? && Course(w, es)
    requires forall e | e in es :: !e.Start? && !e.ManualTick?
    ensures !Final(w, es).sched.interval && Final(w, es).sched.timer.None? && NoClaims(w, es)
    decreases |es|
  {
    if es != [] {
      assert es[0] in es;
      StopHoldsWithoutTimer(Next(w, es[0]), es[1..]);
    }
  }

  /** Stop leaves the auto-resume timer alone: the interval comes back by itself exactly when that timer was set. */
  lemma StopSticksIffNoTimer(w: World)
    requires InOrder(w.sched) && w.sched.tickFn
    ensures w.sched.timer.None? <==>
              forall es: seq<Event> :: Course(Next(w, Stop), es) && (forall e: Event | e in es :: !e.Start? && !e.ManualTick?) ==>
                !Final(Next(w, Stop), es).sched.interval
  {
    var w1 := Next(w, Stop);
    if w.sched.timer.None? {
      forall es: seq<Event> | Course(w1, es) && (forall e: Event | e in es :: !e.Start? && !e.ManualTick?)
        ensures !Final(w1, es).sched.interval
      {
        StopHoldsWithoutTimer(w1, es);
      }
    } else {
      var fires := TimerFires(w.sched.timer.value);
      Unfold(w1, fires, []);
      assert Course(w1, [fires] + []) && Final(w1, [fires] + []).sched.interval;
    }
  }
}
