/**
 src/lib/cache/write.ts:69-129: the lookup and the insert of `storeRepoMetadata` are separate statements,
 so any number of workers may interleave on one (owner, name). The unique key is enforced by the insert
 alone, and the loser of the race re-reads the row and updates it.
 */
module CreateRace {
  import opened Common
  import opened Store

  datatype Writer = Writer(slug: Slug, data: CoreData, clock: int)

  /** The statement a writer executes next. */
  datatype Pc = Looking | Creating | Rereading | Updating(id: nat) | Finished | Crashed

  datatype Row = Row(slug: Slug, repo: Repo)

  /** The table by primary key: nothing in its shape forbids two rows for one slug. */
  datatype Race = Race(rows: map<nat, Row>, nextId: nat, pcs: seq<Pc>)

  datatype Move = Act(i: nat) | DeleteRow(id: nat)

  ghost function Find(rows: map<nat, Row>, slug: Slug): Option<nat> {
    if exists id | id in rows :: rows[id].slug == slug then
      var id :| id in rows && rows[id].slug == slug;
      Some(id)
    else None
  }

  predicate Running(pc: Pc) { !pc.Finished? && !pc.Crashed? }

  ghost predicate Possible(ws: seq<Writer>, r: Race, m: Move) {
    match m
    case Act(i) => i < |ws| == |r.pcs| && Running(r.pcs[i])
    case DeleteRow(id) => id in r.rows
  }

  function Goto(r: Race, i: nat, pc: Pc): Race
    requires i < |r.pcs|
  {
    r.(pcs := r.pcs[i := pc])
  }

  /** One statement of writer `w`. A broken unique key is caught once; a missing row on update is not. */
  ghost function Statement(w: Writer, r: Race, i: nat): Race
    requires i < |r.pcs|
  {
    var found := Find(r.rows, w.slug);
    match r.pcs[i]
    case Looking => Goto(r, i, if found.Some? then Updating(found.value) else Creating)
    case Creating =>
      if found.Some? then Goto(r, i, Rereading)
      else Goto(r, i, Finished).(rows := r.rows[r.nextId := Row(w.slug, FreshRow(r.nextId, w.data, w.clock))], nextId := r.nextId + 1)
    case Rereading => Goto(r, i, if found.Some? then Updating(found.value) else Crashed)
    case Updating(id) =>
      if id in r.rows then Goto(r, i, Finished).(rows := r.rows[id := Row(w.slug, UpdatedRow(r.rows[id].repo, w.data, w.clock))])
      else Goto(r, i, Crashed)
    case _ => r
  }

  ghost function Next(ws: seq<Writer>, r: Race, m: Move): Race
    requires Possible(ws, r, m)
  {
    match m
    case Act(i) => Statement(ws[i], r, i)
    case DeleteRow(id) => r.(rows := r.rows - {id})
  }

  ghost predicate Course(ws: seq<Writer>, r: Race, ms: seq<Move>)
    decreases |ms|
  {
    ms != [] ==> Possible(ws, r, ms[0]) && Course(ws, Next(ws, r, ms[0]), ms[1..])
  }

  ghost function Final(ws: seq<Writer>, r: Race, ms: seq<Move>): Race
    requires Course(ws, r, ms)
    decreases |ms|
  {
    if ms == [] then r else Final(ws, Next(ws, r, ms[0]), ms[1..])
  }

  ghost predicate NoDeletes(ms: seq<Move>) { forall m | m in ms :: m.Act? }

  /** The writers in the order in which they finish. */
  ghost function Order(ws: seq<Writer>, r: Race, ms: seq<Move>): seq<nat>
    requires Course(ws, r, ms)
    decreases |ms|
  {
    if ms == [] then []
    else
      var r' := Next(ws, r, ms[0]);
      (if ms[0].Act? && r'.pcs[ms[0].i].Finished? then [ms[0].i] else []) + Order(ws, r', ms[1..])
  }

  /** The same writes one after the other, none interrupted. */
  ghost function Replay(ws: seq<Writer>, c: Cache, order: seq<nat>): Cache
    requires forall i | i in order :: i < |ws|
    decreases |order|
  {
    if order == [] then c
    else
      assert order[0] in order && forall i | i in order[1..] :: i in order;
      var w := ws[order[0]];
      Replay(ws, WriteRow(c, w.slug, w.data, w.clock, None).cache, order[1..])
  }

  /** The table holds the rows of `c`, so at most one for each slug. */
  ghost predicate Represents(rows: map<nat, Row>, nextId: nat, c: Cache) {
    && nextId == c.nextId
    && (forall id | id in rows ::
          id < nextId && rows[id].slug in c.repos && c.repos[rows[id].slug] == rows[id].repo && rows[id].repo.id == id)
    && (forall s | s in c.repos :: c.repos[s].id in rows && rows[c.repos[s].id].slug == s)
  }

  /** Every column that a core write sets comes from this one writer. */
  ghost predicate Holds(repo: Repo, w: Writer) { repo == UpdatedRow(repo, w.data, w.clock) }

  ghost predicate HeldByFinished(ws: seq<Writer>, r: Race, c: Cache, i: nat)
    requires i < |ws| == |r.pcs|
  {
    && ws[i].slug in c.repos
    && exists j | 0 <= j < |ws| :: r.pcs[j].Finished? && ws[j].slug == ws[i].slug && Holds(c.repos[ws[i].slug], ws[j])
  }

  ghost predicate PcOk(ws: seq<Writer>, r: Race, c: Cache, i: nat)
    requires i < |ws| == |r.pcs|
  {
    match r.pcs[i]
    case Updating(id) => ws[i].slug in c.repos && c.repos[ws[i].slug].id == id
    case Rereading => ws[i].slug in c.repos
    case Finished => HeldByFinished(ws, r, c, i)
    case Crashed => false
    case _ => true
  }

  ghost predicate Inv(ws: seq<Writer>, r: Race, c: Cache) {
    |r.pcs| == |ws| && Represents(r.rows, r.nextId, c) && forall i | 0 <= i < |ws| :: PcOk(ws, r, c, i)
  }

  ghost predicate AtStart(ws: seq<Writer>, r: Race, c: Cache) {
    |r.pcs| == |ws| && Represents(r.rows, r.nextId, c) && forall i | 0 <= i < |ws| :: r.pcs[i] == Looking
  }

  lemma FindIsTheRow(r: Race, c: Cache, slug: Slug)
    requires Represents(r.rows, r.nextId, c)
    ensures Find(r.rows, slug) == if slug in c.repos then Some(c.repos[slug].id) else None
  {
  }

  /** The cache after a move: changed, by the uninterrupted write, exactly when a writer finishes. */
  ghost function Shadow(ws: seq<Writer>, r: Race, c: Cache, m: Move): Cache
    requires m.Act? && Possible(ws, r, m)
  {
    var w := ws[m.i];
    if Next(ws, r, m).pcs[m.i].Finished? then WriteRow(c, w.slug, w.data, w.clock, None).cache else c
  }

  /** Either form of the write sets every core column from its writer and keeps the key. */
  lemma WrittenRowHolds(w: Writer, r: Race, c: Cache)
    requires Represents(r.rows, r.nextId, c)
    ensures r.nextId == c.nextId
    ensures FreshRow(c.nextId, w.data, w.clock).id == c.nextId && Holds(FreshRow(c.nextId, w.data, w.clock), w)
    ensures w.slug in c.repos ==>
              var row := c.repos[w.slug];
              && row.id in r.rows && r.rows[row.id].repo == row && row.id <= r.nextId
              && UpdatedRow(row, w.data, w.clock).id == row.id && Holds(UpdatedRow(row, w.data, w.clock), w)
  {
  }

  lemma RowWritten(r: Race, c: Cache, slug: Slug, repo: Repo, r': Race, c': Cache)
    requires Represents(r.rows, r.nextId, c) && repo.id <= r.nextId
    requires if slug in c.repos then repo.id == c.repos[slug].id && r'.nextId == r.nextId else repo.id == r.nextId && r'.nextId == r.nextId + 1
    requires r'.rows == r.rows[repo.id := Row(slug, repo)] && c'.repos == c.repos[slug := repo] && c'.nextId == r'.nextId
    ensures Represents(r'.rows, r'.nextId, c')
  {
  }

  /** One statement keeps the table in step, and moves no row to another slug or key. */
  lemma TableStep(w: Writer, r: Race, c: Cache, i: nat)
    requires i < |r.pcs| && Represents(r.rows, r.nextId, c)
    requires r.pcs[i].Updating? ==> w.slug in c.repos && c.repos[w.slug].id == r.pcs[i].id
    ensures var r' := Statement(w, r, i);
            var c' := if Running(r.pcs[i]) && r'.pcs[i].Finished? then WriteRow(c, w.slug, w.data, w.clock, None).cache else c;
            && Represents(r'.rows, r'.nextId, c')
            && (forall s | s in c.repos :: s in c'.repos && c'.repos[s].id == c.repos[s].id)
            && (forall s | s in c.repos && s != w.slug :: c'.repos[s] == c.repos[s])
            && (r.pcs[i].Creating? && r'.pcs[i].Rereading? ==> w.slug in c'.repos)
            && (r'.pcs[i].Updating? ==> w.slug in c'.repos && c'.repos[w.slug].id == r'.pcs[i].id)
            && (Running(r.pcs[i]) && r'.pcs[i].Finished? ==> w.slug in c'.repos && Holds(c'.repos[w.slug], w))
            && (Running(r.pcs[i]) && r'.pcs[i].Crashed? ==> r.pcs[i].Rereading? && w.slug !in c.repos)
  {
    hide Flatten, Represents, Find, FreshRow, UpdatedRow, Holds;
    FindIsTheRow(r, c, w.slug);
    WrittenRowHolds(w, r, c);
    var r' := Statement(w, r, i);
    if Running(r.pcs[i]) && r'.pcs[i].Finished? {
      var repo := if w.slug in c.repos then UpdatedRow(c.repos[w.slug], w.data, w.clock) else FreshRow(c.nextId, w.data, w.clock);
      RowWritten(r, c, w.slug, repo, r', WriteRow(c, w.slug, w.data, w.clock, None).cache);
    }
  }

  lemma InvStep(ws: seq<Writer>, r: Race, c: Cache, m: Move)
    requires Inv(ws, r, c) && m.Act? && Possible(ws, r, m)
    ensures Inv(ws, Next(ws, r, m), Shadow(ws, r, c, m))
  {
    hide Flatten, FreshRow, UpdatedRow, Represents;
    var i, w, r', c' := m.i, ws[m.i], Next(ws, r, m), Shadow(ws, r, c, m);
    assert PcOk(ws, r, c, i);
    TableStep(w, r, c, i);
    assert r'.pcs == r.pcs[i := r'.pcs[i]];
    hide Statement, WriteRow, Holds;
    forall j | 0 <= j < |ws|
      ensures PcOk(ws, r', c', j)
    {
      assert PcOk(ws, r, c, j);
      if r.pcs[j].Finished? {
        var k :| 0 <= k < |ws| && r.pcs[k].Finished? && ws[k].slug == ws[j].slug && Holds(c.repos[ws[j].slug], ws[k]);
        var holder := if r'.pcs[i].Finished? && w.slug == ws[j].slug then i else k;
        assert r'.pcs[holder].Finished? && ws[holder].slug == ws[j].slug && Holds(c'.repos[ws[j].slug], ws[holder]);
      } else if j == i && r'.pcs[i].Finished? {
        assert HeldByFinished(ws, r', c', j);
      }
    }
  }

  /** On every interleaving without deletes the table is what the finished writers leave when run one after the other. */
  lemma {:induction false} InterleavingIsSequential(ws: seq<Writer>, r: Race, c: Cache, ms: seq<Move>)
    requires Inv(ws, r, c) && Course(ws, r, ms) && NoDeletes(ms)
    ensures forall i | i in Order(ws, r, ms) :: i < |ws|
    ensures Inv(ws, Final(ws, r, ms), Replay(ws, c, Order(ws, r, ms)))
    decreases |ms|
  {
    if ms != [] {
      assert ms[0] in ms;
      InvStep(ws, r, c, ms[0]);
      var r' := Next(ws, r, ms[0]);
      InterleavingIsSequential(ws, r', Shadow(ws, r, c, ms[0]), ms[1..]);
      var rest := Order(ws, r', ms[1..]);
      assert ([ms[0].i] + rest)[1..] == rest && [] + rest == rest;
    }
  }

  /** No writer ever fails, however many there are and however they interleave. */
  lemma NoWriterFails(ws: seq<Writer>, r: Race, c: Cache, ms: seq<Move>)
    requires AtStart(ws, r, c) && Course(ws, r, ms) && NoDeletes(ms)
    ensures forall pc | pc in Final(ws, r, ms).pcs :: pc != Crashed
  {
    InterleavingIsSequential(ws, r, c, ms);
    var r' := Final(ws, r, ms);
    forall pc | pc in r'.pcs
      ensures pc != Crashed
    {
      var i :| 0 <= i < |r'.pcs| && r'.pcs[i] == pc;
      assert PcOk(ws, r', Replay(ws, c, Order(ws, r, ms)), i);
    }
  }

  ghost predicate OneRowHeldByOneWriter(ws: seq<Writer>, rows: map<nat, Row>, slug: Slug) {
    && (exists id | id in rows :: rows[id].slug == slug)
    && (forall id, id' | id in rows && id' in rows && rows[id].slug == slug == rows[id'].slug :: id == id')
    && (forall id | id in rows && rows[id].slug == slug :: exists w | w in ws :: w.slug == slug && Holds(rows[id].repo, w))
  }

  lemma FinishedMeansOneRow(ws: seq<Writer>, r: Race, c: Cache, i: nat)
    requires Inv(ws, r, c) && i < |ws| && r.pcs[i].Finished?
    ensures OneRowHeldByOneWriter(ws, r.rows, ws[i].slug)
  {
    hide Flatten, Holds;
    assert PcOk(ws, r, c, i);
    var id := c.repos[ws[i].slug].id;
    assert id in r.rows && r.rows[id].slug == ws[i].slug;
  }

  /** Once all have finished there is exactly one row for each slug written, and it is one writer's data. */
  lemma OneRowOneWriter(ws: seq<Writer>, r: Race, c: Cache, ms: seq<Move>, i: nat)
    requires AtStart(ws, r, c) && Course(ws, r, ms) && NoDeletes(ms) && i < |ws|
    requires forall pc | pc in Final(ws, r, ms).pcs :: pc == Finished
    ensures OneRowHeldByOneWriter(ws, Final(ws, r, ms).rows, ws[i].slug)
  {
    InterleavingIsSequential(ws, r, c, ms);
    var r' := Final(ws, r, ms);
    assert r'.pcs[i] in r'.pcs;
    FinishedMeansOneRow(ws, r', Replay(ws, c, Order(ws, r, ms)), i);
  }

  /** Rows of slugs that nobody writes are as before. */
  lemma {:induction false} OtherRowsStay(ws: seq<Writer>, r: Race, c: Cache, ms: seq<Move>, id: nat)
    requires Inv(ws, r, c) && Course(ws, r, ms) && NoDeletes(ms) && id in r.rows
    requires forall w | w in ws :: w.slug != r.rows[id].slug
    ensures id in Final(ws, r, ms).rows && Final(ws, r, ms).rows[id] == r.rows[id]
    decreases |ms|
  {
    if ms != [] {
      assert ms[0] in ms && ws[ms[0].i] in ws;
      InvStep(ws, r, c, ms[0]);
      assert PcOk(ws, r, c, ms[0].i);
      TableStep(ws[ms[0].i], r, c, ms[0].i);
      hide Flatten, FreshRow, UpdatedRow, PcOk, Holds, WriteRow;
      OtherRowsStay(ws, Next(ws, r, ms[0]), Shadow(ws, r, c, ms[0]), ms[1..], id);
    }
  }

  // ---------------------------------------------------------------------------------------------
  // Termination: at most four statements for each writer.
  // ---------------------------------------------------------------------------------------------

  function Left(pc: Pc): nat {
    match pc
    case Looking => 4
    case Creating => 3
    case Rereading => 2
    case Updating(_) => 1
    case _ => 0
  }

  function TotalLeft(pcs: seq<Pc>): nat { if pcs == [] then 0 else Left(pcs[0]) + TotalLeft(pcs[1..]) }

  lemma {:induction false} TotalLeftUpdate(pcs: seq<Pc>, i: nat, pc: Pc)
    requires i < |pcs|
    ensures TotalLeft(pcs[i := pc]) == TotalLeft(pcs) - Left(pcs[i]) + Left(pc)
  {
    if i == 0 {
      assert pcs[i := pc][1..] == pcs[1..];
    } else {
      assert pcs[i := pc][1..] == pcs[1..][i - 1 := pc];
      TotalLeftUpdate(pcs[1..], i - 1, pc);
    }
  }

  lemma {:induction false} TotalLeftAtMost(pcs: seq<Pc>)
    ensures TotalLeft(pcs) <= 4 * |pcs|
  {
    if pcs != [] {
      TotalLeftAtMost(pcs[1..]);
    }
  }

  /** A statement moves its own writer on, and nobody else. */
  lemma StatementAdvances(ws: seq<Writer>, r: Race, i: nat)
    requires |r.pcs| == |ws| && Possible(ws, r, Act(i))
    ensures var r' := Next(ws, r, Act(i));
            |r'.pcs| == |ws| && r'.pcs == r.pcs[i := r'.pcs[i]] && Left(r'.pcs[i]) < Left(r.pcs[i])
  {
    hide Flatten, FreshRow, UpdatedRow, Find;
  }

  lemma {:induction false} StatementsCounted(ws: seq<Writer>, r: Race, ms: seq<Move>)
    requires |r.pcs| == |ws| && Course(ws, r, ms) && NoDeletes(ms)
    ensures |Final(ws, r, ms).pcs| == |ws| && |ms| + TotalLeft(Final(ws, r, ms).pcs) <= TotalLeft(r.pcs)
    decreases |ms|
  {
    if ms != [] {
      assert ms[0] in ms;
      var i, r' := ms[0].i, Next(ws, r, ms[0]);
      StatementAdvances(ws, r, i);
      hide Next, Possible;
      TotalLeftUpdate(r.pcs, i, r'.pcs[i]);
      StatementsCounted(ws, r', ms[1..]);
    }
  }

  /** A race of n writers is over after at most 4n statements: it ends exactly when all have finished. */
  lemma RaceEnds(ws: seq<Writer>, r: Race, c: Cache, ms: seq<Move>)
    requires AtStart(ws, r, c) && Course(ws, r, ms) && NoDeletes(ms)
    ensures |ms| <= 4 * |ws|
    ensures (forall i: nat :: !Possible(ws, Final(ws, r, ms), Act(i))) <==> (forall pc | pc in Final(ws, r, ms).pcs :: pc == Finished)
  {
    StatementsCounted(ws, r, ms);
    TotalLeftAtMost(r.pcs);
    NoWriterFails(ws, r, c, ms);
    var r' := Final(ws, r, ms);
    if pc :| pc in r'.pcs && pc != Finished {
      var i: nat :| i < |r'.pcs| && r'.pcs[i] == pc;
      assert Possible(ws, r', Act(i));
    } else {
      assert forall i: nat | i < |ws| :: r'.pcs[i] in r'.pcs;
    }
  }

  /** The order of finishing names every writer that finished, and none twice. */
  lemma {:induction false} OrderNamesEachFinisherOnce(ws: seq<Writer>, r: Race, ms: seq<Move>)
    requires |r.pcs| == |ws| && Course(ws, r, ms) && NoDeletes(ms)
    ensures |Final(ws, r, ms).pcs| == |ws| && forall i: nat | i < |ws| && !Running(r.pcs[i]) :: Final(ws, r, ms).pcs[i] == r.pcs[i]
    ensures var order := Order(ws, r, ms);
            && (forall i: nat | i < |ws| :: i in order <==> Running(r.pcs[i]) && Final(ws, r, ms).pcs[i].Finished?)
            && (forall k | 0 <= k < |order| :: order[k] < |ws|)
            && (forall k, l | 0 <= k < l < |order| :: order[k] != order[l])
    decreases |ms|
  {
    if ms != [] {
      assert ms[0] in ms;
      StatementAdvances(ws, r, ms[0].i);
      assert Running(r.pcs[ms[0].i]);
      hide Next, Possible;
      OrderNamesEachFinisherOnce(ws, Next(ws, r, ms[0]), ms[1..]);
    }
  }

  /** Without deletes is needed: one that hits between the lookup and the update makes the writer fail. */
  lemma DeleteMakesUpdateFail(w: Writer, repo: Repo)
    requires repo.id == 0
    ensures var r := Race(map[0 := Row(w.slug, repo)], 1, [Looking]);
            var ms := [Act(0), DeleteRow(0), Act(0)];
            Course([w], r, ms) && Final([w], r, ms).pcs == [Crashed]
  {
  }
}
