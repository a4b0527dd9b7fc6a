/**
 src/lib/webhooks/{worker,db,retry}.ts: a worker tick claims due deliveries and sends them one after the other.
 The remote end is a function from deliveries to status codes, the clock one from deliveries to instants; `posts`
 records what was sent. Here a tick has the tables to itself; module WebhookRuns interleaves ticks and operators.
 */
module Webhooks {
  import opened Common

  const MAX_ATTEMPTS := 5

  const MINUTE_MS := 60_000

  const BACKOFF_MS: seq<int> := [MINUTE_MS, 5 * MINUTE_MS, 30 * MINUTE_MS, 120 * MINUTE_MS, 720 * MINUTE_MS]

  const FAR_FUTURE_MS := 365 * 24 * 60 * MINUTE_MS

  function NextRetryMs(attempts: int): Option<int> {
    if attempts >= MAX_ATTEMPTS then None
    else if 0 <= attempts - 1 < |BACKOFF_MS| then Some(BACKOFF_MS[attempts - 1])
    else None
  }

  predicate ShouldDeadLetter(attempts: int) { attempts >= MAX_ATTEMPTS }

  /** For counted attempts there is a next retry exactly until the delivery is given up, so the fallback is never taken. */
  lemma RetryUnlessDead(attempts: int)
    requires attempts >= 1
    ensures NextRetryMs(attempts).None? <==> ShouldDeadLetter(attempts)
    ensures !ShouldDeadLetter(attempts) ==> MINUTE_MS <= NextRetryMs(attempts).value <= 120 * MINUTE_MS
    ensures !ShouldDeadLetter(attempts + 1) ==> NextRetryMs(attempts).value < NextRetryMs(attempts + 1).value
  {
    assert attempts < MAX_ATTEMPTS ==> attempts - 1 in {0, 1, 2, 3};
  }

  /** The backoffs in minutes: one, five, thirty, and two hours; after the fifth attempt there is none. */
  lemma RetriesInMinutes(attempts: int)
    requires attempts >= 1
    ensures NextRetryMs(attempts) == if attempts == 1 then Some(60_000) else if attempts == 2 then Some(5 * 60_000)
                                     else if attempts == 3 then Some(30 * 60_000) else if attempts == 4 then Some(120 * 60_000) else None
    ensures ShouldDeadLetter(attempts) <==> attempts >= 5
  {
    assert BACKOFF_MS == [60_000, 300_000, 1_800_000, 7_200_000, 43_200_000];
  }

  datatype Status = Pending | Delivered | Failed | Dead

  datatype Delivery = Delivery(subscription: nat, status: Status, attempts: nat, nextRetryAt: Option<int>)

  datatype Subscription = Subscription(active: bool, lastStatus: Option<Status>)

  /** A delivery in the hands of a tick: the row as the claim read it. */
  datatype Held = Held(id: nat, row: Delivery)

  datatype Post = Post(delivery: nat, subscription: nat)

  datatype Outbox = Outbox(deliveries: map<nat, Delivery>, subs: map<nat, Subscription>, posts: seq<Post>)

  /** What comes back for a POST; 0 stands for a network error or a timeout. */
  type Remote = nat -> nat

  /** When the tick turns to a delivery. */
  type Clock = nat -> int

  predicate Success(code: nat) { 200 <= code < 300 }

  predicate Permanent(code: nat) { 400 <= code < 500 && code != 408 && code != 429 }

  function Marked(o: Outbox, id: nat, status: Status, nextRetryAt: Option<int>): Outbox
    requires id in o.deliveries
  {
    o.(deliveries := o.deliveries[id := o.deliveries[id].(status := status, attempts := o.deliveries[id].attempts + 1, nextRetryAt := nextRetryAt)])
  }

  function Recorded(o: Outbox, sub: nat, status: Status, active: bool): Outbox {
    o.(subs := o.subs[sub := Subscription(active, Some(status))])
  }

  /** How one delivery ends, when its subscription exists and is active. */
  function Verdict(attempts: nat, code: nat): Status {
    if Success(code) then Delivered else if ShouldDeadLetter(attempts + 1) || Permanent(code) then Dead else Failed
  }

  function RetryAt(status: Status, attempts: nat, now: int): Option<int>
    requires status.Failed? ==> NextRetryMs(attempts + 1).Some?
  {
    if status.Failed? then Some(now + NextRetryMs(attempts + 1).value) else None
  }

  /** The limit is tested on the attempts the claim read; the row's own counter is incremented by the database. */
  function Processed(o: Outbox, h: Held, now: int, remote: Remote): Outbox
    requires h.id in o.deliveries
  {
    var sub := h.row.subscription;
    if sub !in o.subs then Marked(o, h.id, Dead, None)
    else if !o.subs[sub].active then Marked(o, h.id, Failed, Some(now + FAR_FUTURE_MS))
    else
      var status := Verdict(h.row.attempts, remote(h.id));
      Recorded(Marked(o, h.id, status, RetryAt(status, h.row.attempts, now)), sub, status, !status.Dead?).(posts := o.posts + [Post(h.id, sub)])
  }

  predicate Due(d: Delivery, now: int) { d.status.Pending? && d.nextRetryAt.Some? && d.nextRetryAt.value <= now }

  function DueIds(deliveries: map<nat, Delivery>, now: int): set<nat> { set id | id in deliveries && Due(deliveries[id], now) }

  /** findMany: due rows, the earliest first, as many as fit. Rows due at the same instant come in any order. */
  ghost predicate IsClaim(deliveries: map<nat, Delivery>, now: int, batch: nat, ids: seq<nat>) {
    && (forall i, j | 0 <= i < j < |ids| :: ids[i] != ids[j])
    && (forall id | id in ids :: id in deliveries && Due(deliveries[id], now))
    && |ids| == Min(batch, |DueIds(deliveries, now)|)
    && (forall i, j | 0 <= i < j < |ids| :: deliveries[ids[i]].nextRetryAt.value <= deliveries[ids[j]].nextRetryAt.value)
    && (forall id, other | id in ids && other in DueIds(deliveries, now) && other !in ids ::
          deliveries[id].nextRetryAt.value <= deliveries[other].nextRetryAt.value)
  }

  function Snapshots(deliveries: map<nat, Delivery>, ids: seq<nat>): (due: seq<Held>)
    requires forall id | id in ids :: id in deliveries
    ensures |due| == |ids| && forall i | 0 <= i < |ids| :: due[i] == Held(ids[i], deliveries[ids[i]])
  {
    seq(|ids|, i requires 0 <= i < |ids| => Held(ids[i], deliveries[ids[i]]))
  }

  ghost predicate Present(o: Outbox, due: seq<Held>) { forall h | h in due :: h.id in o.deliveries }

  ghost predicate Distinct(due: seq<Held>) { forall i, j | 0 <= i < j < |due| :: due[i].id != due[j].id }

  /** The claimed rows one after the other. */
  function ProcessedAll(o: Outbox, due: seq<Held>, clock: Clock, remote: Remote): (r: Outbox)
    requires forall h | h in due :: h.id in o.deliveries
    ensures r.deliveries.Keys == o.deliveries.Keys
    decreases |due|
  {
    if due == [] then o else ProcessedAll(Processed(o, due[0], clock(due[0].id), remote), due[1..], clock, remote)
  }

  datatype Summary = Summary(processed: nat, delivered: nat, failed: nat, dead: nat)

  function Tallied(s: Summary, status: Status): Summary {
    var t := s.(processed := s.processed + 1);
    match status
    case Delivered => t.(delivered := t.delivered + 1)
    case Failed => t.(failed := t.failed + 1)
    case _ => t.(dead := t.dead + 1)
  }

  /** How the given rows stand at the end, counted. */
  function Counted(deliveries: map<nat, Delivery>, due: seq<Held>): Summary
    requires forall h | h in due :: h.id in deliveries
  {
    if due == [] then Summary(0, 0, 0, 0)
    else Tallied(Counted(deliveries, due[..|due| - 1]), deliveries[due[|due| - 1].id].status)
  }

  class WebhookWorker {
    var deliveries: map<nat, Delivery>
    var subs: map<nat, Subscription>
    ghost var posts: seq<Post>

    ghost function View(): Outbox
      reads this
    {
      Outbox(deliveries, subs, posts)
    }

    constructor ()
      ensures View() == Outbox(map[], map[], [])
    {
      deliveries, subs, posts := map[], map[], [];
    }

    method ClaimDueDeliveries(batch: nat, now: int) returns (due: seq<Held>, ghost ids: seq<nat>)
      ensures IsClaim(deliveries, now, batch, ids) && due == Snapshots(deliveries, ids)
    {
      var left := DueIds(deliveries, now);
      ghost var all := left;
      ids, due := [], [];
      while |due| < batch && left != {}
        invariant left <= all && |ids| == |due| <= batch && |ids| + |left| == |all|
        invariant forall id :: id in ids <==> id in all && id !in left
        invariant forall i, j | 0 <= i < j < |ids| :: ids[i] != ids[j]
        invariant forall id | id in ids :: id in deliveries && Due(deliveries[id], now)
        invariant forall i, j | 0 <= i < j < |ids| :: deliveries[ids[i]].nextRetryAt.value <= deliveries[ids[j]].nextRetryAt.value
        invariant forall id, other | id in ids && other in left :: deliveries[id].nextRetryAt.value <= deliveries[other].nextRetryAt.value
        invariant due == Snapshots(deliveries, ids)
        decreases left
      {
        var best := Earliest(left);
        due, ids, left := due + [Held(best, deliveries[best])], ids + [best], left - {best};
      }
    }

    method Earliest(ids: set<nat>) returns (best: nat)
      requires ids != {} && forall id | id in ids :: id in deliveries && deliveries[id].nextRetryAt.Some?
      ensures best in ids && forall id | id in ids :: deliveries[best].nextRetryAt.value <= deliveries[id].nextRetryAt.value
    {
      best :| best in ids;
      var rest := ids - {best};
      while rest != {}
        invariant rest <= ids && best in ids
        invariant forall id | id in ids - rest :: deliveries[best].nextRetryAt.value <= deliveries[id].nextRetryAt.value
        decreases rest
      {
        var id :| id in rest;
        if deliveries[id].nextRetryAt.value < deliveries[best].nextRetryAt.value {
          best := id;
        }
        rest := rest - {id};
      }
    }

    method Mark(id: nat, status: Status, nextRetryAt: Option<int>)
      requires id in deliveries
      modifies this
      ensures View() == Marked(old(View()), id, status, nextRetryAt)
    {
      deliveries := deliveries[id := deliveries[id].(status := status, attempts := deliveries[id].attempts + 1, nextRetryAt := nextRetryAt)];
    }

    method RecordDeliveryResult(sub: nat, status: Status)
      requires sub in subs
      modifies this
      ensures View() == Recorded(old(View()), sub, status, old(subs)[sub].active)
    {
      subs := subs[sub := subs[sub].(lastStatus := Some(status))];
    }

    method DisableSubscription(sub: nat)
      requires sub in subs
      modifies this
      ensures View() == old(View()).(subs := old(subs)[sub := old(subs)[sub].(active := false)])
    {
      subs := subs[sub := subs[sub].(active := false)];
    }

    /** One claimed row, whatever became of it since the claim read it. */
    method ProcessOneDelivery(h: Held, now: int, remote: Remote) returns (status: Status)
      requires h.id in deliveries
      modifies this
      ensures View() == Processed(old(View()), h, now, remote)
      ensures status == deliveries[h.id].status && !status.Pending?
    {
      var sub := h.row.subscription;
      if sub !in subs {
        Mark(h.id, Dead, None);
        return Dead;
      }
      if !subs[sub].active {
        Mark(h.id, Failed, Some(now + FAR_FUTURE_MS));
        return Failed;
      }
      var code := remote(h.id);
      posts := posts + [Post(h.id, sub)];
      if Success(code) {
        Mark(h.id, Delivered, None);
        RecordDeliveryResult(sub, Delivered);
        return Delivered;
      }
      var newAttempts := h.row.attempts + 1;
      if ShouldDeadLetter(newAttempts) || Permanent(code) {
        Mark(h.id, Dead, None);
        RecordDeliveryResult(sub, Dead);
        DisableSubscription(sub);
        return Dead;
      }
      var ms := NextRetryMs(newAttempts);
      RetryUnlessDead(newAttempts);
      Mark(h.id, Failed, Some(now + ms.value));
      RecordDeliveryResult(sub, Failed);
      return Failed;
    }

    /** One tick: every claimed row is handled once, in claim order, and the summary counts how they ended. */
    method RunWorkerTick(batch: nat, now: int, clock: Clock, remote: Remote) returns (s: Summary, ghost claimed: seq<nat>)
      modifies this
      ensures IsClaim(old(deliveries), now, batch, claimed)
      ensures var due := Snapshots(old(deliveries), claimed);
              && View() == ProcessedAll(old(View()), due, clock, remote)
              && s.processed == |claimed| == s.delivered + s.failed + s.dead
              && Present(View(), due) && s == Counted(deliveries, due)
    {
      hide Processed, Due, Verdict, IsClaim;
      var due, ids := ClaimDueDeliveries(batch, now);
      claimed := ids;
      ghost var before := View();
      s := Summary(0, 0, 0, 0);
      for i := 0 to |due|
        invariant Present(View(), due) && Distinct(due) && due == Snapshots(before.deliveries, ids)
        invariant ProcessedAll(View(), due[i..], clock, remote) == ProcessedAll(before, due, clock, remote)
        invariant s.processed == i == s.delivered + s.failed + s.dead && s == Counted(View().deliveries, due[..i])
      {
        var h := due[i];
        assert h in due;
        OneMoreHandled(View(), due, i, clock, remote);
        var status := ProcessOneDelivery(h, clock(h.id), remote);
        s := Tallied(s, status);
      }
      assert due[..|due|] == due && due[|due|..] == [];
    }
  }

  lemma OneMoreHandled(o: Outbox, due: seq<Held>, i: nat, clock: Clock, remote: Remote)
    requires i < |due| && Present(o, due) && Distinct(due)
    ensures var h := due[i];
            var next := Processed(o, h, clock(h.id), remote);
            && Present(next, due) && ProcessedAll(next, due[i + 1..], clock, remote) == ProcessedAll(o, due[i..], clock, remote)
            && Counted(next.deliveries, due[..i + 1]) == Tallied(Counted(o.deliveries, due[..i]), next.deliveries[h.id].status)
  {
    var h := due[i];
    assert due[..i + 1][..i] == due[..i] && due[i..][1..] == due[i + 1..] && h in due;
    ProcessedRow(o, h, clock(h.id), remote);
    hide Processed;
    CountedElsewhere(o.deliveries, Processed(o, h, clock(h.id), remote).deliveries, due[..i], h.id);
  }

  lemma {:induction false} CountedElsewhere(before: map<nat, Delivery>, after: map<nat, Delivery>, due: seq<Held>, id: nat)
    requires before.Keys == after.Keys && forall i | i in before && i != id :: after[i] == before[i]
    requires forall h | h in due :: h.id in before && h.id != id
    ensures Counted(before, due) == Counted(after, due)
    decreases |due|
  {
    if due != [] {
      assert due == due[..|due| - 1] + [due[|due| - 1]];
      CountedElsewhere(before, after, due[..|due| - 1], id);
    }
  }

  /** The subscription was disabled, by a delivery that ended dead or by an operator. */
  ghost predicate Silenced(o: Outbox, sub: nat) { sub in o.subs && !o.subs[sub].active }

  /** One delivery: its own row is settled, no other row moves, and a POST that ends dead silences the subscription. */
  lemma ProcessedRow(o: Outbox, h: Held, now: int, remote: Remote)
    requires h.id in o.deliveries
    ensures var r, id, sub := Processed(o, h, now, remote), h.id, h.row.subscription;
            && r.deliveries.Keys == o.deliveries.Keys
            && (forall i | i in o.deliveries && i != id :: r.deliveries[i] == o.deliveries[i])
            && !r.deliveries[id].status.Pending? && r.deliveries[id].attempts == o.deliveries[id].attempts + 1
            && r.deliveries[id].subscription == o.deliveries[id].subscription
            && (r.deliveries[id].status.Delivered? <==> r.posts != o.posts && Success(remote(id)))
            && (r.deliveries[id].status.Failed? <==> r.deliveries[id].nextRetryAt.Some?)
            && (r.deliveries[id].nextRetryAt.Some? ==> r.deliveries[id].nextRetryAt.value >= now + MINUTE_MS)
            && (forall s | Silenced(o, s) :: Silenced(r, s))
            && (r.posts == o.posts || (r.posts == o.posts + [Post(id, sub)] && !Silenced(o, sub)))
            && (r.posts != o.posts && r.deliveries[id].status.Dead? ==> Silenced(r, sub))
  {
  }

  /**
   One delivery in columns. Without its subscription it is dead; with an inactive one it is failed, put off for a year; else it
   is sent: delivered on a 2xx, dead on any other 4xx than 408 and 429 or at the fifth attempt the claim knew of, and failed
   otherwise, with the next try after one, five, thirty minutes or two hours. Dead disables the subscription.
   */
  lemma ProcessedInColumns(o: Outbox, h: Held, now: int, remote: Remote)
    requires h.id in o.deliveries
    ensures var r, sub, code, a, row := Processed(o, h, now, remote), h.row.subscription, remote(h.id), h.row.attempts, o.deliveries[h.id];
            var marked := row.(attempts := row.attempts + 1);
            if sub !in o.subs then
              r == o.(deliveries := o.deliveries[h.id := marked.(status := Dead, nextRetryAt := None)])
            else if !o.subs[sub].active then
              r == o.(deliveries := o.deliveries[h.id := marked.(status := Failed, nextRetryAt := Some(now + 31_536_000_000))])
            else
              var dead := a >= 4 || (400 <= code <= 499 && code !in {408, 429});
              var wait := if a == 0 then 60_000 else if a == 1 then 300_000 else if a == 2 then 1_800_000 else 7_200_000;
              var status := if 200 <= code <= 299 then Delivered else if dead then Dead else Failed;
              r == Outbox(o.deliveries[h.id := marked.(status := status, nextRetryAt := if status == Failed then Some(now + wait) else None)],
                          o.subs[sub := Subscription(status != Dead, Some(status))], o.posts + [Post(h.id, sub)])
  {
    RetriesInMinutes(h.row.attempts + 1);
    hide NextRetryMs, ShouldDeadLetter;
  }

  /** What a claim asks of a row, and how it ranks them. */
  lemma ClaimInColumns(deliveries: map<nat, Delivery>, now: int, batch: nat, ids: seq<nat>)
    requires IsClaim(deliveries, now, batch, ids)
    ensures forall id | id in ids ::
              id in deliveries && deliveries[id].status == Pending && deliveries[id].nextRetryAt.Some? && deliveries[id].nextRetryAt.value <= now
    ensures forall id | id in deliveries && id !in ids && deliveries[id].status == Pending && deliveries[id].nextRetryAt.Some?
                        && deliveries[id].nextRetryAt.value <= now ::
              |ids| == batch && forall taken | taken in ids :: deliveries[taken].nextRetryAt.value <= deliveries[id].nextRetryAt.value
    ensures |ids| <= batch
    ensures forall i, j | 0 <= i < j < |ids| :: ids[i] != ids[j] && deliveries[ids[i]].nextRetryAt.value <= deliveries[ids[j]].nextRetryAt.value
  {
    var due, taken := DueIds(deliveries, now), IdSet(ids);
    forall id | id in due && id !in ids
      ensures |ids| == batch
    {
      SetOfDistinct(ids);
      forall t | t in taken
        ensures t in due
      {
      }
      assert due == taken + (due - taken) && id in due - taken;
      assert |due| == |taken| + |due - taken| && |due - taken| > 0;
      assert |due| > |ids|;
    }
    forall id | id in deliveries && Due(deliveries[id], now)
      ensures id in due
    {
    }
  }

  function IdSet(ids: seq<nat>): set<nat> { set id | id in ids }

  lemma {:induction false} SetOfDistinct(ids: seq<nat>)
    requires forall i, j | 0 <= i < j < |ids| :: ids[i] != ids[j]
    ensures |IdSet(ids)| == |ids|
  {
    if ids != [] {
      var init, last := ids[..|ids| - 1], ids[|ids| - 1];
      SetOfDistinct(init);
      assert ids == init + [last] && last !in init;
      assert IdSet(ids) == IdSet(init) + {last};
    }
  }

  /** Rows that the tick did not claim stay as they are. */
  lemma {:induction false} OthersUntouched(o: Outbox, due: seq<Held>, clock: Clock, remote: Remote, id: nat)
    requires Present(o, due) && id in o.deliveries && forall h | h in due :: h.id != id
    ensures ProcessedAll(o, due, clock, remote).deliveries[id] == o.deliveries[id]
    decreases |due|
  {
    if due != [] {
      ProcessedRow(o, due[0], clock(due[0].id), remote);
      hide Processed;
      OthersUntouched(Processed(o, due[0], clock(due[0].id), remote), due[1..], clock, remote, id);
    }
  }

  /** In a tick that has the tables to itself every claimed row leaves `pending` with one more attempt. */
  lemma {:induction false} ClaimedRowsLeavePending(o: Outbox, due: seq<Held>, clock: Clock, remote: Remote, h: Held)
    requires Distinct(due) && Present(o, due) && h in due
    ensures var d := ProcessedAll(o, due, clock, remote).deliveries[h.id];
            !d.status.Pending? && d.attempts == o.deliveries[h.id].attempts + 1 && d.subscription == o.deliveries[h.id].subscription
    decreases |due|
  {
    ProcessedRow(o, due[0], clock(due[0].id), remote);
    hide Processed;
    var next := Processed(o, due[0], clock(due[0].id), remote);
    if h == due[0] {
      OthersUntouched(next, due[1..], clock, remote, h.id);
    } else {
      ClaimedRowsLeavePending(next, due[1..], clock, remote, h);
    }
  }
}
