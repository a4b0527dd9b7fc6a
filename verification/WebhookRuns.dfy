/**
 src/lib/scheduler/index.ts:109-113 starts a worker tick every fifteen seconds whether or not the last one is through,
 and a claimed row stays pending while a tick holds it (src/lib/webhooks/db.ts:131-148). So ticks overlap. A step here is
 one database statement, with the POST that follows the read of the subscription; steps of any number of ticks and of
 operators interleave freely.
 */
module WebhookRuns {
  import opened Common
  import opened Webhooks

  /** Where a tick stands with the first of its rows. */
  datatype Stage =
    | Next                                                // before the read of the subscription
    | Skipped(status: Status, nextRetryAt: Option<int>)   // no POST; the row is still to be marked
    | Sent(now: int)                                      // POST under way; the row is still to be marked
    | Noting(status: Status)                              // row marked; the subscription is not
    | Silencing                                           // row and status noted; the subscription is still to be disabled

  /** The rows not yet through, the stage of the first, the summary so far, and how many rows the claim returned. */
  datatype Tick = Tick(todo: seq<Held>, stage: Stage, tally: Summary, claimed: nat)

  type TickId = nat

  datatype Hub = Hub(o: Outbox, ticks: map<TickId, Tick>, nextTick: TickId)

  const START := Hub(Outbox(map[], map[], []), map[], 0)

  datatype Step =
    | Claim(ids: seq<nat>, batch: nat, now: int)
    | Look(tick: TickId, now: int)
    | Mark(tick: TickId, code: nat)
    | Note(tick: TickId)
    | Silence(tick: TickId)
    | Abandon(tick: TickId)   // a statement of the tick throws, and its rows are dropped
    | Subscribe(sub: nat)
    | Enqueue(id: nat, sub: nat, now: int)
    | Retry(id: nat, now: int)
    | ReArm(sub: nat)
    | Disable(sub: nat)

  predicate Busy(h: Hub, t: TickId) { t in h.ticks && h.ticks[t].todo != [] }

  function Head(h: Hub, t: TickId): Held
    requires Busy(h, t)
  {
    h.ticks[t].todo[0]
  }

  predicate AtMark(s: Stage) { s.Skipped? || s.Sent? }

  ghost predicate Possible(h: Hub, e: Step) {
    match e
    case Claim(ids, batch, now) => IsClaim(h.o.deliveries, now, batch, ids)
    case Look(t, _) => Busy(h, t) && h.ticks[t].stage.Next?
    case Mark(t, _) => Busy(h, t) && AtMark(h.ticks[t].stage) && Head(h, t).id in h.o.deliveries
    case Note(t) => Busy(h, t) && h.ticks[t].stage.Noting? && Head(h, t).row.subscription in h.o.subs
    case Silence(t) => Busy(h, t) && h.ticks[t].stage.Silencing? && Head(h, t).row.subscription in h.o.subs
    case Abandon(t) => t in h.ticks
    case Subscribe(sub) => sub !in h.o.subs
    case Enqueue(id, _, _) => id !in h.o.deliveries
    case Retry(id, _) => id in h.o.deliveries
    case ReArm(sub) => sub in h.o.subs
    case Disable(sub) => sub in h.o.subs
  }

  function NewTick(o: Outbox, ids: seq<nat>): Tick
    requires forall id | id in ids :: id in o.deliveries
  {
    Tick(Snapshots(o.deliveries, ids), Next, Summary(0, 0, 0, 0), |ids|)
  }

  /** The tick turns to its next row. */
  function Settled(t: Tick, status: Status): Tick
    requires t.todo != []
  {
    t.(todo := t.todo[1..], stage := Next, tally := Tallied(t.tally, status))
  }

  predicate Posts(h: Hub, e: Step) {
    e.Look? && Busy(h, e.tick) && var sub := Head(h, e.tick).row.subscription; sub in h.o.subs && h.o.subs[sub].active
  }

  function Looked(h: Hub, t: TickId, now: int): Hub
    requires Busy(h, t)
  {
    var tick, sub := h.ticks[t], Head(h, t).row.subscription;
    if sub !in h.o.subs then h.(ticks := h.ticks[t := tick.(stage := Skipped(Dead, None))])
    else if !h.o.subs[sub].active then h.(ticks := h.ticks[t := tick.(stage := Skipped(Failed, Some(now + FAR_FUTURE_MS)))])
    else h.(o := h.o.(posts := h.o.posts + [Post(Head(h, t).id, sub)]), ticks := h.ticks[t := tick.(stage := Sent(now))])
  }

  /** The update of the row: by id alone, with the limit tested on the attempts the claim read. */
  function MarkedBy(h: Hub, t: TickId, code: nat): Hub
    requires Busy(h, t) && AtMark(h.ticks[t].stage) && Head(h, t).id in h.o.deliveries
  {
    var tick, head := h.ticks[t], Head(h, t);
    match tick.stage
    case Skipped(status, retryAt) =>
      h.(o := Marked(h.o, head.id, status, retryAt), ticks := h.ticks[t := Settled(tick, status)])
    case Sent(now) =>
      var status := Verdict(head.row.attempts, code);
      h.(o := Marked(h.o, head.id, status, RetryAt(status, head.row.attempts, now)), ticks := h.ticks[t := tick.(stage := Noting(status))])
  }

  function Noted(h: Hub, t: TickId): Hub
    requires Busy(h, t) && h.ticks[t].stage.Noting? && Head(h, t).row.subscription in h.o.subs
  {
    var tick, sub := h.ticks[t], Head(h, t).row.subscription;
    var status := tick.stage.status;
    Hub(Recorded(h.o, sub, status, h.o.subs[sub].active),
        h.ticks[t := if status.Dead? then tick.(stage := Silencing) else Settled(tick, status)], h.nextTick)
  }

  function Disabled(o: Outbox, sub: nat): Outbox
    requires sub in o.subs
  {
    o.(subs := o.subs[sub := o.subs[sub].(active := false)])
  }

  ghost function Apply(h: Hub, e: Step): Hub
    requires Possible(h, e)
  {
    match e
    case Claim(ids, _, _) =>
      Hub(h.o, h.ticks[h.nextTick := NewTick(h.o, ids)], h.nextTick + 1)
    case Look(t, now) => Looked(h, t, now)
    case Mark(t, code) => MarkedBy(h, t, code)
    case Note(t) => Noted(h, t)
    case Silence(t) => Hub(Disabled(h.o, Head(h, t).row.subscription), h.ticks[t := Settled(h.ticks[t], Dead)], h.nextTick)
    case Abandon(t) => h.(ticks := h.ticks - {t})
    case Subscribe(sub) => h.(o := h.o.(subs := h.o.subs[sub := Subscription(true, None)]))
    case Enqueue(id, sub, now) => h.(o := h.o.(deliveries := h.o.deliveries[id := Delivery(sub, Pending, 0, Some(now))]))
    case Retry(id, now) => h.(o := h.o.(deliveries := h.o.deliveries[id := h.o.deliveries[id].(status := Pending, nextRetryAt := Some(now))]))
    case ReArm(sub) => h.(o := h.o.(subs := h.o.subs[sub := Subscription(true, None)]))
    case Disable(sub) => h.(o := Disabled(h.o, sub))
  }

  /** What happens to the tables from outside the worker, in columns: an enqueue, the routes, and a new subscription. */
  lemma RoutesInColumns(h: Hub, id: nat, sub: nat, now: int)
    ensures id !in h.o.deliveries ==>
              Apply(h, Enqueue(id, sub, now)) == h.(o := h.o.(deliveries := h.o.deliveries[id := Delivery(sub, Pending, 0, Some(now))]))
    ensures id in h.o.deliveries ==>
              var d := h.o.deliveries[id];
              Apply(h, Retry(id, now)) == h.(o := h.o.(deliveries := h.o.deliveries[id := Delivery(d.subscription, Pending, d.attempts, Some(now))]))
    ensures sub !in h.o.subs ==> Apply(h, Subscribe(sub)) == h.(o := h.o.(subs := h.o.subs[sub := Subscription(true, None)]))
    ensures sub in h.o.subs ==>
              && Apply(h, ReArm(sub)) == h.(o := h.o.(subs := h.o.subs[sub := Subscription(true, None)]))
              && Apply(h, Disable(sub)) == h.(o := h.o.(subs := h.o.subs[sub := Subscription(false, h.o.subs[sub].lastStatus)]))
  {
  }

  ghost predicate Run(h: Hub, es: seq<Step>)
    decreases |es|
  {
    es != [] ==> Possible(h, es[0]) && Run(Apply(h, es[0]), es[1..])
  }

  ghost function After(h: Hub, es: seq<Step>): Hub
    requires Run(h, es)
    decreases |es|
  {
    if es == [] then h else After(Apply(h, es[0]), es[1..])
  }

  lemma Prepend(h: Hub, e: Step, es: seq<Step>)
    requires Possible(h, e) && Run(Apply(h, e), es)
    ensures Run(h, [e] + es) && After(h, [e] + es) == After(Apply(h, e), es)
  {
    assert ([e] + es)[1..] == es;
  }

  lemma {:induction false} Concat(h: Hub, a: seq<Step>, b: seq<Step>)
    requires Run(h, a) && Run(After(h, a), b)
    ensures Run(h, a + b) && After(h, a + b) == After(After(h, a), b)
    decreases |a|
  {
    hide Possible, Apply;
    if a == [] {
      assert a + b == b;
    } else {
      assert (a + b)[0] == a[0] && (a + b)[1..] == a[1..] + b;
      Concat(Apply(h, a[0]), a[1..], b);
    }
  }

  // ---------------------------------------------------------------------------------------------
  // What holds on every run.
  // ---------------------------------------------------------------------------------------------

  ghost predicate RowsKnown(o: Outbox, todo: seq<Held>) {
    forall x | x in todo :: x.id in o.deliveries && o.deliveries[x.id].subscription == x.row.subscription
  }

  ghost predicate TickOk(o: Outbox, t: Tick) {
    && Distinct(t.todo) && RowsKnown(o, t.todo)
    && (!t.stage.Next? ==> t.todo != [])
    && (t.stage.Skipped? ==> !t.stage.status.Pending?)
    && (t.stage.Sent? || t.stage.Noting? || t.stage.Silencing? ==> t.todo[0].row.subscription in o.subs)
    && t.tally.processed == t.tally.delivered + t.tally.failed + t.tally.dead && t.tally.processed + |t.todo| == t.claimed
  }

  ghost predicate Sound(h: Hub) { forall t | t in h.ticks :: t < h.nextTick && TickOk(h.o, h.ticks[t]) }

  /** Rows and subscriptions stay, and rows keep their subscription. */
  ghost predicate Keeps(o: Outbox, o': Outbox) {
    && (forall id | id in o.deliveries :: id in o'.deliveries && o'.deliveries[id].subscription == o.deliveries[id].subscription
                                          && o'.deliveries[id].attempts >= o.deliveries[id].attempts)
    && (forall sub | sub in o.subs :: sub in o'.subs)
  }

  lemma StepKeeps(h: Hub, e: Step)
    requires Possible(h, e)
    ensures Keeps(h.o, Apply(h, e).o)
  {
    hide IsClaim, Verdict, RetryAt;
  }

  lemma KeepsOk(o: Outbox, o': Outbox, t: Tick)
    requires Keeps(o, o') && TickOk(o, t)
    ensures TickOk(o', t)
  {
  }

  lemma OthersStay(h: Hub, e: Step)
    requires Possible(h, e) && (e.Look? || e.Mark? || e.Note? || e.Silence?)
    ensures var h' := Apply(h, e);
            && h'.ticks.Keys == h.ticks.Keys && h'.nextTick == h.nextTick
            && forall t | t in h.ticks && t != e.tick :: h'.ticks[t] == h.ticks[t]
  {
    hide Verdict, RetryAt, Marked, Recorded, Settled, Disabled;
  }

  lemma MovedTickOk(h: Hub, e: Step)
    requires Possible(h, e) && (e.Look? || e.Mark? || e.Note? || e.Silence?) && e.tick in h.ticks && TickOk(Apply(h, e).o, h.ticks[e.tick])
    requires Keeps(h.o, Apply(h, e).o)
    ensures e.tick in Apply(h, e).ticks && TickOk(Apply(h, e).o, Apply(h, e).ticks[e.tick])
  {
    hide Verdict, RetryAt, Marked, Recorded, Disabled;
  }

  /** A tick that moves on stays in order. */
  lemma OwnTickOk(h: Hub, e: Step)
    requires Sound(h) && Possible(h, e) && (e.Look? || e.Mark? || e.Note? || e.Silence?)
    ensures var h' := Apply(h, e);
            && h'.ticks.Keys == h.ticks.Keys && h'.nextTick == h.nextTick && e.tick in h'.ticks && TickOk(h'.o, h'.ticks[e.tick])
            && forall t | t in h.ticks && t != e.tick :: h'.ticks[t] == h.ticks[t]
  {
    assert e.tick in h.ticks;
    hide Possible, Apply, Keeps, TickOk;
    StepKeeps(h, e);
    KeepsOk(h.o, Apply(h, e).o, h.ticks[e.tick]);
    MovedTickOk(h, e);
    OthersStay(h, e);
  }

  lemma StepKeepsSound(h: Hub, e: Step)
    requires Sound(h) && Possible(h, e)
    ensures Sound(Apply(h, e))
  {
    var h' := Apply(h, e);
    StepKeeps(h, e);
    if e.Look? || e.Mark? || e.Note? || e.Silence? {
      OwnTickOk(h, e);
    }
    hide IsClaim, Looked, MarkedBy, Noted, Settled, Keeps, TickOk;
    forall t | t in h'.ticks
      ensures t < h'.nextTick && TickOk(h'.o, h'.ticks[t])
    {
      if t in h.ticks && h'.ticks[t] == h.ticks[t] {
        KeepsOk(h.o, h'.o, h.ticks[t]);
      } else if e.Claim? {
        ClaimedTickOk(h, e);
      }
    }
  }

  lemma ClaimedTickOk(h: Hub, e: Step)
    requires Sound(h) && Possible(h, e) && e.Claim?
    ensures TickOk(h.o, NewTick(h.o, e.ids))
  {
  }

  /**
   On every run, however ticks and operators interleave: ticks hold distinct known rows, and every summary adds up to the
   rows of the claim that are through, so to all of them once the tick is.
   */
  lemma {:induction false} SoundAlongRuns(h: Hub, es: seq<Step>)
    requires Sound(h) && Run(h, es)
    ensures Sound(After(h, es))
    decreases |es|
  {
    hide Possible, Apply, Sound;
    if es != [] {
      StepKeepsSound(h, es[0]);
      SoundAlongRuns(Apply(h, es[0]), es[1..]);
    }
  }

  // ---------------------------------------------------------------------------------------------
  // Attempts.
  // ---------------------------------------------------------------------------------------------

  /** The rows a tick has yet to mark. */
  function Unmarked(t: Tick): seq<Held>
    requires !t.stage.Next? ==> t.todo != []
  {
    if t.stage.Noting? || t.stage.Silencing? then t.todo[1..] else t.todo
  }

  ghost predicate Holds(t: Tick, id: nat) {
    (!t.stage.Next? ==> t.todo != []) && exists x | x in Unmarked(t) :: x.id == id
  }

  ghost function Holders(h: Hub, id: nat): set<TickId> { set t | t in h.ticks && Holds(h.ticks[t], id) }

  ghost predicate ClaimsRow(e: Step, id: nat) { e.Claim? && id in e.ids }

  ghost predicate MarksRow(h: Hub, e: Step, id: nat)
    requires Possible(h, e)
  {
    e.Mark? && Head(h, e.tick).id == id
  }

  /** A tick breaks off before it has marked the row. */
  ghost predicate DropsRow(h: Hub, e: Step, id: nat) { e.Abandon? && e.tick in Holders(h, id) }

  ghost predicate Overlaps(h: Hub, e: Step, id: nat) { ClaimsRow(e, id) && Holders(h, id) != {} }

  predicate RetriesRow(e: Step, id: nat) { e.Retry? && e.id == id }

  /** How a step of a tick moves its own hold. */
  lemma OwnHold(h: Hub, e: Step, id: nat)
    requires Sound(h) && Possible(h, e) && (e.Look? || e.Mark? || e.Note? || e.Silence?)
    ensures var h' := Apply(h, e);
            e.tick in h'.ticks
            && (if MarksRow(h, e, id) then Holds(h.ticks[e.tick], id) && !Holds(h'.ticks[e.tick], id)
                else Holds(h'.ticks[e.tick], id) <==> Holds(h.ticks[e.tick], id))
  {
    OwnTickOk(h, e);
    hide IsClaim, Verdict, RetryAt, Recorded, Marked, Tallied, RowsKnown;
    var t, t' := h.ticks[e.tick], Apply(h, e).ticks[e.tick];
    assert TickOk(h.o, t);
    if e.Mark? {
      assert Unmarked(t) == t.todo && Unmarked(t') == t.todo[1..];
      assert t.todo == [t.todo[0]] + t.todo[1..];
    } else {
      assert Unmarked(t') == Unmarked(t);
    }
  }

  lemma HoldersAfter(h: Hub, e: Step, id: nat)
    requires Sound(h) && Possible(h, e)
    ensures Holders(Apply(h, e), id) ==
              if ClaimsRow(e, id) then Holders(h, id) + {h.nextTick}
              else if MarksRow(h, e, id) then Holders(h, id) - {e.tick}
              else if DropsRow(h, e, id) then Holders(h, id) - {e.tick}
              else Holders(h, id)
    ensures MarksRow(h, e, id) ==> e.tick in Holders(h, id)
    ensures h.nextTick !in Holders(h, id)
  {
    if e.Look? || e.Mark? || e.Note? || e.Silence? {
      OwnHolders(h, e, id);
    } else {
      if e.Claim? {
        ClaimHolds(h, e, id);
      }
      hide IsClaim, Looked, MarkedBy, Noted, Settled, Holds, TickOk, Disabled, NewTick;
    }
  }

  lemma OwnHolders(h: Hub, e: Step, id: nat)
    requires Sound(h) && Possible(h, e) && (e.Look? || e.Mark? || e.Note? || e.Silence?)
    ensures Holders(Apply(h, e), id) == if MarksRow(h, e, id) then Holders(h, id) - {e.tick} else Holders(h, id)
    ensures MarksRow(h, e, id) ==> e.tick in Holders(h, id)
    ensures h.nextTick !in Holders(h, id)
  {
    OwnTickOk(h, e);
    OwnHold(h, e, id);
    var h', marks := Apply(h, e), MarksRow(h, e, id);
    assert e.tick in h.ticks && h.nextTick !in h.ticks;
    hide Apply, Possible, Holds, MarksRow, TickOk, Sound;
    forall t
      ensures t in Holders(h', id) <==> t in Holders(h, id) && !(marks && t == e.tick)
    {
      if t in h.ticks && t != e.tick {
        assert h'.ticks[t] == h.ticks[t];
      }
    }
  }

  lemma ClaimHolds(h: Hub, e: Step, id: nat)
    requires Possible(h, e) && e.Claim?
    ensures Holds(NewTick(h.o, e.ids), id) <==> id in e.ids
  {
    var due := Snapshots(h.o.deliveries, e.ids);
    if id in e.ids {
      var i :| 0 <= i < |e.ids| && e.ids[i] == id;
      assert due[i] in due && due[i].id == id;
    }
  }

  /** A row's own columns under one step. */
  lemma RowAfter(h: Hub, e: Step, id: nat)
    requires Sound(h) && Possible(h, e) && id in h.o.deliveries
    ensures var d, h' := h.o.deliveries[id], Apply(h, e);
            && id in h'.o.deliveries
            && (if MarksRow(h, e, id) then h'.o.deliveries[id].attempts == d.attempts + 1 && !h'.o.deliveries[id].status.Pending?
                else if RetriesRow(e, id) then h'.o.deliveries[id] == d.(status := Pending, nextRetryAt := Some(e.now))
                else h'.o.deliveries[id] == d)
            && (ClaimsRow(e, id) ==> d.status.Pending?)
  {
    hide RetryAt, RowsKnown, Distinct;
    if e.Mark? {
      assert TickOk(h.o, h.ticks[e.tick]);
    }
  }

  function ClaimsOf(es: seq<Step>, id: nat): nat {
    if es == [] then 0 else (if es[0].Claim? && id in es[0].ids then 1 else 0) + ClaimsOf(es[1..], id)
  }

  function RetriesOf(es: seq<Step>, id: nat): nat {
    if es == [] then 0 else (if RetriesRow(es[0], id) then 1 else 0) + RetriesOf(es[1..], id)
  }

  ghost function DropsOf(h: Hub, es: seq<Step>, id: nat): nat
    requires Run(h, es)
    decreases |es|
  {
    if es == [] then 0 else (if DropsRow(h, es[0], id) then 1 else 0) + DropsOf(Apply(h, es[0]), es[1..], id)
  }

  ghost function OverlapsOf(h: Hub, es: seq<Step>, id: nat): nat
    requires Run(h, es)
    decreases |es|
  {
    if es == [] then 0 else (if Overlaps(h, es[0], id) then 1 else 0) + OverlapsOf(Apply(h, es[0]), es[1..], id)
  }

  lemma AccountsStep(h: Hub, e: Step, id: nat)
    requires Sound(h) && Possible(h, e) && id in h.o.deliveries
    ensures var h' := Apply(h, e);
            && id in h'.o.deliveries
            && h'.o.deliveries[id].attempts + |Holders(h', id)| + (if DropsRow(h, e, id) then 1 else 0)
               == h.o.deliveries[id].attempts + |Holders(h, id)| + (if ClaimsRow(e, id) then 1 else 0)
  {
    RowAfter(h, e, id);
    HoldersAfter(h, e, id);
    hide Possible, Apply, Holders;
  }

  /** Conservation: on every run, attempts, rows in the hands of ticks and dropped rows together are the claims. */
  lemma {:induction false} AttemptsAreClaims(h: Hub, es: seq<Step>, id: nat)
    requires Sound(h) && Run(h, es) && id in h.o.deliveries
    ensures var end := After(h, es);
            && id in end.o.deliveries
            && end.o.deliveries[id].attempts + |Holders(end, id)| + DropsOf(h, es, id)
               == h.o.deliveries[id].attempts + |Holders(h, id)| + ClaimsOf(es, id)
    decreases |es|
  {
    hide Possible, Apply, Sound, Holders, DropsRow;
    if es != [] {
      StepKeepsSound(h, es[0]);
      AccountsStep(h, es[0], id);
      AttemptsAreClaims(Apply(h, es[0]), es[1..], id);
    }
  }

  /** The attempts made, those under way, and the one that a free pending row may still make by itself. */
  ghost function Credit(h: Hub, id: nat): nat
    requires id in h.o.deliveries
  {
    h.o.deliveries[id].attempts + |Holders(h, id)| + if h.o.deliveries[id].status.Pending? && Holders(h, id) == {} then 1 else 0
  }

  lemma CreditStep(h: Hub, e: Step, id: nat)
    requires Sound(h) && Possible(h, e) && id in h.o.deliveries
    ensures id in Apply(h, e).o.deliveries
    ensures Credit(Apply(h, e), id) <= Credit(h, id) + (if RetriesRow(e, id) then 1 else 0) + (if Overlaps(h, e, id) then 1 else 0)
  {
    RowAfter(h, e, id);
    HoldersAfter(h, e, id);
    hide Possible, Apply, Holders;
  }

  /** On every run a row is attempted once, once more for each retry by hand, and once more for each overlapping claim of it. */
  lemma {:induction false} AttemptsNeedRetriesOrOverlaps(h: Hub, es: seq<Step>, id: nat)
    requires Sound(h) && Run(h, es) && id in h.o.deliveries
    ensures id in After(h, es).o.deliveries
    ensures Credit(After(h, es), id) <= Credit(h, id) + RetriesOf(es, id) + OverlapsOf(h, es, id)
    decreases |es|
  {
    hide Possible, Apply, Sound, Credit, RetriesRow, Overlaps;
    if es != [] {
      StepKeepsSound(h, es[0]);
      CreditStep(h, es[0], id);
      AttemptsNeedRetriesOrOverlaps(Apply(h, es[0]), es[1..], id);
    }
  }

  /** So a new row reaches the limit of five attempts only after four retries by hand or overlapping claims. */
  lemma LimitNeedsFourRetriesOrOverlaps(h: Hub, es: seq<Step>, id: nat, sub: nat, now: int)
    requires Sound(h) && id !in h.o.deliveries && Run(Apply(h, Enqueue(id, sub, now)), es)
    requires var end := After(Apply(h, Enqueue(id, sub, now)), es); id in end.o.deliveries && ShouldDeadLetter(end.o.deliveries[id].attempts)
    ensures RetriesOf(es, id) + OverlapsOf(Apply(h, Enqueue(id, sub, now)), es, id) >= MAX_ATTEMPTS - 1
  {
    var h' := Apply(h, Enqueue(id, sub, now));
    StepKeepsSound(h, Enqueue(id, sub, now));
    forall t | t in h'.ticks
      ensures !Holds(h'.ticks[t], id)
    {
      assert TickOk(h.o, h.ticks[t]);
    }
    assert Holders(h', id) == {};
    AttemptsNeedRetriesOrOverlaps(h', es, id);
  }

  // ---------------------------------------------------------------------------------------------
  // Rows that are through.
  // ---------------------------------------------------------------------------------------------

  lemma {:induction false} FreeRowStays(h: Hub, es: seq<Step>, id: nat)
    requires Sound(h) && Run(h, es) && id in h.o.deliveries && !h.o.deliveries[id].status.Pending?
    requires Holders(h, id) == {} && RetriesOf(es, id) == 0
    ensures id in After(h, es).o.deliveries && After(h, es).o.deliveries[id] == h.o.deliveries[id]
    decreases |es|
  {
    hide Sound, Holders, Possible, Apply;
    if es != [] {
      StepKeepsSound(h, es[0]);
      RowAfter(h, es[0], id);
      HoldersAfter(h, es[0], id);
      FreeRowStays(Apply(h, es[0]), es[1..], id);
    }
  }

  /** The next move of a tick that has something to do, when the remote end times out. */
  function NextMove(h: Hub, t: TickId): Step
    requires Busy(h, t)
  {
    match h.ticks[t].stage
    case Next => Look(t, 0)
    case Skipped(_, _) => Mark(t, 0)
    case Sent(_) => Mark(t, 0)
    case Noting(_) => Note(t)
    case Silencing => Silence(t)
  }

  function Distance(t: Tick): nat {
    6 * |t.todo| + (match t.stage case Next => 5 case Skipped(_, _) => 4 case Sent(_) => 3 case Noting(_) => 2 case Silencing => 1)
  }

  lemma MovesOn(h: Hub, t: TickId)
    requires Sound(h) && Busy(h, t)
    ensures Possible(h, NextMove(h, t))
    ensures var h' := Apply(h, NextMove(h, t)); t in h'.ticks && Distance(h'.ticks[t]) < Distance(h.ticks[t])
  {
    assert TickOk(h.o, h.ticks[t]) && h.ticks[t].todo[0] in h.ticks[t].todo;
    hide RetryAt, Marked, Recorded, Tallied, Distinct;
  }

  /** Left to itself, a tick that holds a row comes to mark it. */
  lemma {:induction false} HolderMarks(h: Hub, t: TickId, id: nat) returns (es: seq<Step>)
    requires Sound(h) && t in Holders(h, id) && id in h.o.deliveries
    ensures Run(h, es) && RetriesOf(es, id) == ClaimsOf(es, id) == DropsOf(h, es, id) == 0
    ensures id in After(h, es).o.deliveries && After(h, es).o.deliveries[id].attempts > h.o.deliveries[id].attempts
    decreases Distance(h.ticks[t])
  {
    var e := NextMove(h, t);
    MovesOn(h, t);
    RowAfter(h, e, id);
    HoldersAfter(h, e, id);
    StepKeepsSound(h, e);
    hide Possible, Apply, Holders, Sound, Distance;
    if MarksRow(h, e, id) {
      es := [e] + [];
      Prepend(h, e, []);
    } else {
      var rest := HolderMarks(Apply(h, e), t, id);
      es := [e] + rest;
      Prepend(h, e, rest);
    }
    assert es[1..] == if MarksRow(h, e, id) then [] else es[1..];
  }

  /** Without a retry by hand, a row that is no longer pending keeps its every column for good exactly if no tick still holds it. */
  lemma SettledIsForeverIff(h: Hub, id: nat)
    requires Sound(h) && id in h.o.deliveries && !h.o.deliveries[id].status.Pending?
    ensures (forall es: seq<Step> | Run(h, es) && RetriesOf(es, id) == 0 ::
               id in After(h, es).o.deliveries && After(h, es).o.deliveries[id] == h.o.deliveries[id])
            <==> Holders(h, id) == {}
  {
    if t :| t in Holders(h, id) {
      var es := HolderMarks(h, t, id);
      assert After(h, es).o.deliveries[id] != h.o.deliveries[id];
    } else {
      forall es: seq<Step> | Run(h, es) && RetriesOf(es, id) == 0
        ensures id in After(h, es).o.deliveries && After(h, es).o.deliveries[id] == h.o.deliveries[id]
      {
        FreeRowStays(h, es, id);
      }
    }
  }

  // ---------------------------------------------------------------------------------------------
  // Overlaps do happen, and nothing bounds them.
  // ---------------------------------------------------------------------------------------------

  lemma {:induction false} ConcatCounts(h: Hub, a: seq<Step>, b: seq<Step>, id: nat)
    requires Run(h, a) && Run(After(h, a), b)
    ensures Run(h, a + b) && After(h, a + b) == After(After(h, a), b)
    ensures RetriesOf(a + b, id) == RetriesOf(a, id) + RetriesOf(b, id)
    ensures ClaimsOf(a + b, id) == ClaimsOf(a, id) + ClaimsOf(b, id)
    ensures DropsOf(h, a + b, id) == DropsOf(h, a, id) + DropsOf(After(h, a), b, id)
    decreases |a|
  {
    hide Possible, Apply, RetriesRow, DropsRow;
    if a == [] {
      assert a + b == b;
    } else {
      assert (a + b)[0] == a[0] && (a + b)[1..] == a[1..] + b;
      ConcatCounts(Apply(h, a[0]), a[1..], b, id);
    }
  }

  /** Left to themselves, all ticks that hold a row come to mark it. */
  lemma {:induction false} AllMark(h: Hub, id: nat) returns (es: seq<Step>)
    requires Sound(h) && id in h.o.deliveries
    ensures Run(h, es) && RetriesOf(es, id) == ClaimsOf(es, id) == DropsOf(h, es, id) == 0
    ensures Holders(After(h, es), id) == {}
    decreases |Holders(h, id)|
  {
    es := [];
    if t :| t in Holders(h, id) {
      var first := HolderMarks(h, t, id);
      AttemptsAreClaims(h, first, id);
      SoundAlongRuns(h, first);
      var rest := AllMark(After(h, first), id);
      ConcatCounts(h, first, rest, id);
      es := first + rest;
    }
  }

  const NEW_ROW := Delivery(0, Pending, 0, Some(0))

  const ONE_ROW := Outbox(map[0 := NEW_ROW], map[0 := Subscription(true, None)], [])

  /** A new delivery that so many ticks have claimed and none has marked. */
  function ClaimedBy(n: nat): Hub {
    if n == 0 then Hub(ONE_ROW, map[], 0)
    else Hub(ONE_ROW, ClaimedBy(n - 1).ticks[n - 1 := Tick([Held(0, NEW_ROW)], Next, Summary(0, 0, 0, 0), 1)], n)
  }

  lemma {:induction false} ClaimOnceMore(n: nat)
    ensures var claim := Claim([0], 1, 0); Possible(ClaimedBy(n), claim) && Apply(ClaimedBy(n), claim) == ClaimedBy(n + 1)
  {
    assert DueIds(ONE_ROW.deliveries, 0) == {0};
    assert Snapshots(ONE_ROW.deliveries, [0]) == [Held(0, NEW_ROW)];
  }

  lemma {:induction false} ManyClaims(n: nat, m: nat) returns (es: seq<Step>)
    requires n <= m
    ensures Run(ClaimedBy(n), es) && After(ClaimedBy(n), es) == ClaimedBy(m) && RetriesOf(es, 0) == 0 && ClaimsOf(es, 0) == m - n
    ensures DropsOf(ClaimedBy(n), es, 0) == 0
    decreases m - n
  {
    es := [];
    if n < m {
      ClaimOnceMore(n);
      var rest := ManyClaims(n + 1, m);
      hide Possible, Apply, ClaimedBy;
      Prepend(ClaimedBy(n), Claim([0], 1, 0), rest);
      es := [Claim([0], 1, 0)] + rest;
      assert es[1..] == rest;
    }
  }

  /**
   The bound is met: for every number there is a run from nothing on which a delivery makes so many attempts, with no
   retry by hand. So `failed` is rewritten, and the limit of five attempts does not hold.
   */
  lemma OverlapsReachAnyCount(n: nat) returns (es: seq<Step>)
    ensures Run(START, es) && RetriesOf(es, 0) == 0 && ClaimsOf(es, 0) == n
    ensures 0 in After(START, es).o.deliveries && After(START, es).o.deliveries[0].attempts == n && Holders(After(START, es), 0) == {}
  {
    var open, enqueue := Subscribe(0), Enqueue(0, 0, 0);
    var h1 := Apply(START, open);
    assert Apply(h1, enqueue) == ClaimedBy(0) && Holders(ClaimedBy(0), 0) == {};
    var claims := ManyClaims(0, n);
    SoundAlongRuns(ClaimedBy(0), claims);
    var marks := AllMark(ClaimedBy(n), 0);
    ConcatCounts(ClaimedBy(0), claims, marks, 0);
    var rest := claims + marks;
    AttemptsAreClaims(ClaimedBy(0), rest, 0);
    Prepend(h1, enqueue, rest);
    Prepend(START, open, [enqueue] + rest);
    es := [open] + ([enqueue] + rest);
    assert es[1..] == [enqueue] + rest && ([enqueue] + rest)[1..] == rest;
  }

  const TICK_MS := 15_000

  const TIMEOUT_MS := 10_000

  /** Two deliveries to a receiver that times out: the first tick is at its second row when the next tick begins. */
  function Opening(): seq<Step> {
    [Subscribe(0)] + ([Enqueue(0, 0, 0)] + ([Enqueue(1, 0, 0)] + ([Claim([0, 1], 25, 0)]
    + ([Look(0, 0)] + ([Mark(0, 0)] + ([Note(0)] + ([Look(0, TIMEOUT_MS)] + [])))))))
  }

  function Overlapping(): seq<Step> { [Claim([1], 25, TICK_MS)] + ([Look(1, TICK_MS)] + []) }

  function Closing(): seq<Step> { [Mark(0, 0)] + ([Note(0)] + ([Mark(1, 0)] + [])) }

  function TwoRows(a: Delivery, b: Delivery, posts: seq<Post>, ticks: map<TickId, Tick>, next: TickId): Hub {
    Hub(Outbox(map[0 := a, 1 := b], map[0 := Subscription(true, Some(Failed))], posts), ticks, next)
  }

  function FailedRow(attempts: nat, at: int): Delivery { Delivery(0, Failed, attempts, Some(at + MINUTE_MS)) }

  const ONE_FAILED := Summary(1, 0, 1, 0)

  function MidWay(): Hub {
    TwoRows(FailedRow(1, 0), NEW_ROW, [Post(0, 0), Post(1, 0)], map[0 := Tick([Held(1, NEW_ROW)], Sent(TIMEOUT_MS), ONE_FAILED, 2)], 1)
  }

  /** Both ticks have sent the second row and wait for the answer. */
  function Both(): Hub {
    TwoRows(FailedRow(1, 0), NEW_ROW, [Post(0, 0), Post(1, 0), Post(1, 0)],
            map[0 := Tick([Held(1, NEW_ROW)], Sent(TIMEOUT_MS), ONE_FAILED, 2),
                1 := Tick([Held(1, NEW_ROW)], Sent(TICK_MS), Summary(0, 0, 0, 0), 1)], 2)
  }

  lemma OpeningIsARun()
    ensures Run(START, Opening()) && After(START, Opening()) == MidWay()
  {
    var h1 := Apply(START, Subscribe(0));
    var h2 := Apply(h1, Enqueue(0, 0, 0));
    var h3 := Apply(h2, Enqueue(1, 0, 0));
    assert h3.o == Outbox(map[0 := NEW_ROW, 1 := NEW_ROW], map[0 := Subscription(true, None)], []);
    assert DueIds(h3.o.deliveries, 0) == {0, 1};
    var h4 := Apply(h3, Claim([0, 1], 25, 0));
    assert Snapshots(h3.o.deliveries, [0, 1]) == [Held(0, NEW_ROW), Held(1, NEW_ROW)];
    var tick := Tick([Held(0, NEW_ROW), Held(1, NEW_ROW)], Next, Summary(0, 0, 0, 0), 2);
    assert h4 == Hub(h3.o, map[0 := tick], 1);
    FirstRowFails(h4, tick);
    Prepend(h3, Claim([0, 1], 25, 0), FirstRow());
    Prepend(h2, Enqueue(1, 0, 0), [Claim([0, 1], 25, 0)] + FirstRow());
    Prepend(h1, Enqueue(0, 0, 0), [Enqueue(1, 0, 0)] + ([Claim([0, 1], 25, 0)] + FirstRow()));
    Prepend(START, Subscribe(0), [Enqueue(0, 0, 0)] + ([Enqueue(1, 0, 0)] + ([Claim([0, 1], 25, 0)] + FirstRow())));
  }

  function FirstRow(): seq<Step> { [Look(0, 0)] + ([Mark(0, 0)] + ([Note(0)] + ([Look(0, TIMEOUT_MS)] + []))) }

  lemma FirstRowFails(h: Hub, tick: Tick)
    requires tick == Tick([Held(0, NEW_ROW), Held(1, NEW_ROW)], Next, Summary(0, 0, 0, 0), 2)
    requires h == Hub(Outbox(map[0 := NEW_ROW, 1 := NEW_ROW], map[0 := Subscription(true, None)], []), map[0 := tick], 1)
    ensures Run(h, FirstRow()) && After(h, FirstRow()) == MidWay()
  {
    var h1 := Apply(h, Look(0, 0));
    var h2 := Apply(h1, Mark(0, 0));
    var h3 := Apply(h2, Note(0));
    assert h3.ticks[0] == Tick([Held(1, NEW_ROW)], Next, ONE_FAILED, 2);
    var h4 := Apply(h3, Look(0, TIMEOUT_MS));
    assert h4 == MidWay();
    Prepend(h3, Look(0, TIMEOUT_MS), []);
    Prepend(h2, Note(0), [Look(0, TIMEOUT_MS)] + []);
    Prepend(h1, Mark(0, 0), [Note(0)] + ([Look(0, TIMEOUT_MS)] + []));
    Prepend(h, Look(0, 0), [Mark(0, 0)] + ([Note(0)] + ([Look(0, TIMEOUT_MS)] + [])));
  }

  function Claimed(): Hub {
    MidWay().(ticks := MidWay().ticks[1 := Tick([Held(1, NEW_ROW)], Next, Summary(0, 0, 0, 0), 1)], nextTick := 2)
  }

  /** The second row is still pending while the first tick waits for its answer. */
  lemma SecondTickClaims()
    ensures Possible(MidWay(), Claim([1], 25, TICK_MS)) && Apply(MidWay(), Claim([1], 25, TICK_MS)) == Claimed()
  {
    var h := MidWay();
    assert DueIds(h.o.deliveries, TICK_MS) == {1};
    assert Snapshots(h.o.deliveries, [1]) == [Held(1, NEW_ROW)];
  }

  lemma OverlappingIsARun()
    ensures Run(MidWay(), Overlapping()) && After(MidWay(), Overlapping()) == Both()
  {
    SecondTickClaims();
    assert Possible(Claimed(), Look(1, TICK_MS)) && Apply(Claimed(), Look(1, TICK_MS)) == Both();
    hide Possible, Apply, MidWay, Claimed, Both;
    Prepend(Claimed(), Look(1, TICK_MS), []);
    Prepend(MidWay(), Claim([1], 25, TICK_MS), [Look(1, TICK_MS)] + []);
  }

  lemma ClosingIsARun()
    ensures Run(Both(), Closing())
    ensures var end := After(Both(), Closing()).o;
            end.deliveries == map[0 := FailedRow(1, 0), 1 := FailedRow(2, TICK_MS)] && end.posts == [Post(0, 0), Post(1, 0), Post(1, 0)]
  {
    var h1 := Apply(Both(), Mark(0, 0));
    assert h1.o.deliveries[1] == FailedRow(1, TIMEOUT_MS);
    var h2 := Apply(h1, Note(0));
    Prepend(h2, Mark(1, 0), []);
    Prepend(h1, Note(0), [Mark(1, 0)] + []);
    Prepend(Both(), Mark(0, 0), [Note(0)] + ([Mark(1, 0)] + []));
  }

  /**
   It takes no more than two deliveries and a receiver that times out. With a tick every fifteen seconds and ten seconds
   for a POST, the second delivery is sent twice and its failed row is written again: two attempts and no retry by hand.
   */
  lemma TimeoutsOverlap()
    ensures var es := Opening() + (Overlapping() + Closing());
            && Run(START, es) && RetriesOf(es, 1) == 0
            && var end := After(START, es).o;
            1 in end.deliveries && end.deliveries[1].attempts == 2 && end.deliveries[1].status.Failed?
            && end.posts == [Post(0, 0), Post(1, 0), Post(1, 0)]
  {
    OpeningIsARun();
    OverlappingIsARun();
    ClosingIsARun();
    hide Run, After, MidWay, Both;
    ConcatCounts(MidWay(), Overlapping(), Closing(), 1);
    ConcatCounts(START, Opening(), Overlapping() + Closing(), 1);
    assert RetriesOf(Opening(), 1) == RetriesOf(Overlapping(), 1) == RetriesOf(Closing(), 1) == 0;
  }

  // ---------------------------------------------------------------------------------------------
  // Dead letters.
  // ---------------------------------------------------------------------------------------------

  ghost predicate ReArms(es: seq<Step>, sub: nat) { exists e | e in es :: e.ReArm? && e.sub == sub }

  ghost predicate StaysSilenced(h: Hub, es: seq<Step>, sub: nat)
    requires Run(h, es)
    decreases |es|
  {
    Silenced(h.o, sub) && (es != [] ==> StaysSilenced(Apply(h, es[0]), es[1..], sub))
  }

  predicate PostsTo(h: Hub, e: Step, sub: nat) { Posts(h, e) && Head(h, e.tick).row.subscription == sub }

  /** The run POSTs nothing to the subscription; with a tick given, that tick does not. */
  ghost predicate NoPosts(h: Hub, es: seq<Step>, sub: nat, only: Option<TickId>)
    requires Run(h, es)
    decreases |es|
  {
    es != [] ==>
      && !(PostsTo(h, es[0], sub) && (only.Some? ==> es[0].tick == only.value))
      && NoPosts(Apply(h, es[0]), es[1..], sub, only)
  }

  lemma SilencedStep(h: Hub, e: Step, sub: nat)
    requires Possible(h, e) && Silenced(h.o, sub)
    ensures Silenced(Apply(h, e).o, sub) <==> !(e.ReArm? && e.sub == sub)
    ensures !PostsTo(h, e, sub)
  {
    hide RetryAt, Verdict, IsClaim;
  }

  /** A disabled subscription stays disabled on a run exactly until it is re-armed, and is sent nothing before that. */
  lemma {:induction false} SilencedUntilReArmedIff(h: Hub, es: seq<Step>, sub: nat)
    requires Run(h, es) && Silenced(h.o, sub)
    ensures StaysSilenced(h, es, sub) <==> !ReArms(es, sub)
    ensures !ReArms(es, sub) ==> NoPosts(h, es, sub, None)
    decreases |es|
  {
    hide Possible, Apply, Silenced, PostsTo;
    if es != [] {
      var h' := Apply(h, es[0]);
      assert es[0] in es && forall e | e in es :: e == es[0] || e in es[1..];
      SilencedStep(h, es[0], sub);
      if es[0].ReArm? && es[0].sub == sub {
        assert !StaysSilenced(h', es[1..], sub);
      } else {
        SilencedUntilReArmedIff(h', es[1..], sub);
      }
    }
  }

  /** The tick has marked a row dead after its POST and is about to disable the subscription, has disabled it, or broke off. */
  ghost predicate DeadLettering(h: Hub, t: TickId, sub: nat) {
    && t < h.nextTick && sub in h.o.subs
    && (t in h.ticks ==>
          || Silenced(h.o, sub)
          || (Busy(h, t) && Head(h, t).row.subscription == sub && h.ticks[t].stage in {Noting(Dead), Silencing}))
  }

  lemma DeadLetteringStep(h: Hub, e: Step, t: TickId, sub: nat)
    requires Possible(h, e) && DeadLettering(h, t, sub) && !(e.ReArm? && e.sub == sub)
    ensures DeadLettering(Apply(h, e), t, sub)
    ensures PostsTo(h, e, sub) ==> e.tick != t
  {
    hide RetryAt, Verdict, IsClaim;
  }

  lemma {:induction false} DeadLetteringAlongRuns(h: Hub, es: seq<Step>, t: TickId, sub: nat)
    requires Run(h, es) && DeadLettering(h, t, sub) && !ReArms(es, sub)
    ensures NoPosts(h, es, sub, Some(t))
    decreases |es|
  {
    hide Possible, Apply, DeadLettering, PostsTo;
    if es != [] {
      assert es[0] in es && forall e | e in es[1..] :: e in es;
      DeadLetteringStep(h, es[0], t, sub);
      DeadLetteringAlongRuns(Apply(h, es[0]), es[1..], t, sub);
    }
  }

  /**
   Once a POST of a tick ends dead, that tick POSTs nothing more to the subscription until it is re-armed, however many
   rows it still holds and whatever other ticks and operators do.
   */
  lemma DeadLetterSilencesTheTick(h: Hub, t: TickId, code: nat, es: seq<Step>)
    requires Sound(h) && Possible(h, Mark(t, code)) && h.ticks[t].stage.Sent? && Verdict(Head(h, t).row.attempts, code).Dead?
    requires Run(Apply(h, Mark(t, code)), es) && !ReArms(es, Head(h, t).row.subscription)
    ensures NoPosts(Apply(h, Mark(t, code)), es, Head(h, t).row.subscription, Some(t))
  {
    assert TickOk(h.o, h.ticks[t]);
    DeadLetteringAlongRuns(Apply(h, Mark(t, code)), es, t, Head(h, t).row.subscription);
  }

  // ---------------------------------------------------------------------------------------------
  // A tick that nobody disturbs is the imperative one.
  // ---------------------------------------------------------------------------------------------

  /** The steps that handle the first row of a tick. */
  function RowSteps(h: Hub, t: TickId, now: int, code: nat): seq<Step>
    requires Busy(h, t)
  {
    var row := Head(h, t).row;
    [Look(t, now)] + ([Mark(t, code)]
    + if row.subscription !in h.o.subs || !h.o.subs[row.subscription].active then []
      else [Note(t)] + if Verdict(row.attempts, code).Dead? then [Silence(t)] else [])
  }

  ghost predicate EndsAsMethod(h: Hub, t: TickId, now: int, remote: Remote, es: seq<Step>)
    requires Busy(h, t) && Head(h, t).id in h.o.deliveries
  {
    && Run(h, es)
    && var o := Processed(h.o, Head(h, t), now, remote);
       After(h, es) == Hub(o, h.ticks[t := Settled(h.ticks[t], o.deliveries[Head(h, t).id].status)], h.nextTick)
  }

  /** One row: the steps end where the method ends. */
  lemma RowIsARun(h: Hub, t: TickId, now: int, remote: Remote)
    requires Busy(h, t) && h.ticks[t].stage.Next? && Head(h, t).id in h.o.deliveries
    ensures EndsAsMethod(h, t, now, remote, RowSteps(h, t, now, remote(Head(h, t).id)))
  {
    var head, code := Head(h, t), remote(Head(h, t).id);
    var sub := head.row.subscription;
    if sub !in h.o.subs || !h.o.subs[sub].active {
      hide Verdict, Recorded, Noted;
      var h1 := Apply(h, Look(t, now));
      Prepend(h1, Mark(t, code), []);
      Prepend(h, Look(t, now), [Mark(t, code)] + []);
    } else {
      SentRowIsARun(h, t, now, remote);
    }
  }

  lemma SentRowIsARun(h: Hub, t: TickId, now: int, remote: Remote)
    requires Busy(h, t) && h.ticks[t].stage.Next? && Head(h, t).id in h.o.deliveries
    requires var sub := Head(h, t).row.subscription; sub in h.o.subs && h.o.subs[sub].active
    ensures EndsAsMethod(h, t, now, remote, RowSteps(h, t, now, remote(Head(h, t).id)))
  {
    var head, code := Head(h, t), remote(Head(h, t).id);
    var h1 := Apply(h, Look(t, now));
    var h2 := Apply(h1, Mark(t, code));
    var h3 := Apply(h2, Note(t));
    var tail := if Verdict(head.row.attempts, code).Dead? then [Silence(t)] else [];
    if tail != [] {
      Prepend(h3, Silence(t), []);
      assert [Silence(t)] + [] == tail;
    }
    Prepend(h2, Note(t), tail);
    Prepend(h1, Mark(t, code), [Note(t)] + tail);
    Prepend(h, Look(t, now), [Mark(t, code)] + ([Note(t)] + tail));
  }

  function Plus(a: Summary, b: Summary): Summary {
    Summary(a.processed + b.processed, a.delivered + b.delivered, a.failed + b.failed, a.dead + b.dead)
  }

  lemma {:induction false} CountedFromTheFront(deliveries: map<nat, Delivery>, due: seq<Held>, before: Summary)
    requires due != [] && forall x | x in due :: x.id in deliveries
    ensures Plus(before, Counted(deliveries, due)) == Plus(Tallied(before, deliveries[due[0].id].status), Counted(deliveries, due[1..]))
    decreases |due|
  {
    var n := |due| - 1;
    var last := deliveries[due[n].id].status;
    TalliedAdds(before, Counted(deliveries, due[..n]), last);
    if n > 0 {
      hide Tallied, Plus;
      assert due[1..][..n - 1] == due[..n][1..];
      CountedFromTheFront(deliveries, due[..n], before);
      TalliedAdds(Tallied(before, deliveries[due[0].id].status), Counted(deliveries, due[..n][1..]), last);
    }
  }

  lemma TalliedAdds(a: Summary, b: Summary, status: Status)
    ensures Plus(a, Tallied(b, status)) == Tallied(Plus(a, b), status)
  {
  }

  /** All rows a tick holds, one after the other. */
  lemma {:induction false} RowsAreARun(h: Hub, t: TickId, clock: Clock, remote: Remote) returns (es: seq<Step>)
    requires t in h.ticks && h.ticks[t].stage.Next? && Present(h.o, h.ticks[t].todo) && Distinct(h.ticks[t].todo)
    ensures Run(h, es)
    ensures var end, todo := After(h, es), h.ticks[t].todo;
            && end.o == ProcessedAll(h.o, todo, clock, remote)
            && t in end.ticks && end.ticks[t].todo == [] && Present(end.o, todo)
            && end.ticks[t].tally == Plus(h.ticks[t].tally, Counted(end.o.deliveries, todo))
    decreases |h.ticks[t].todo|
  {
    es := [];
    if h.ticks[t].todo != [] {
      var head := Head(h, t);
      assert head in h.ticks[t].todo;
      var now := clock(head.id);
      RowIsARun(h, t, now, remote);
      var first := RowSteps(h, t, now, remote(head.id));
      ProcessedRow(h.o, head, now, remote);
      hide Run, After, Processed, Counted;
      var rest := RowsAreARun(After(h, first), t, clock, remote);
      Concat(h, first, rest);
      es := first + rest;
      OthersUntouched(After(h, first).o, h.ticks[t].todo[1..], clock, remote, head.id);
      CountedFromTheFront(After(h, es).o.deliveries, h.ticks[t].todo, h.ticks[t].tally);
    }
  }

  /** So the theorems about runs cover the code path of method WebhookWorker.RunWorkerTick, whatever comes before and after it. */
  lemma TickIsARun(h: Hub, ids: seq<nat>, batch: nat, now: int, clock: Clock, remote: Remote) returns (es: seq<Step>)
    requires IsClaim(h.o.deliveries, now, batch, ids)
    ensures Run(h, es) && |es| > 0 && es[0] == Claim(ids, batch, now)
    ensures var end, due := After(h, es), Snapshots(h.o.deliveries, ids);
            && end.o == ProcessedAll(h.o, due, clock, remote) && Present(end.o, due)
            && h.nextTick in end.ticks && end.ticks[h.nextTick].todo == [] && end.ticks[h.nextTick].tally == Counted(end.o.deliveries, due)
  {
    var claim := Claim(ids, batch, now);
    var rest := RowsAreARun(Apply(h, claim), h.nextTick, clock, remote);
    Prepend(h, claim, rest);
    es := [claim] + rest;
  }
}
