/**
 src/lib/database/restore.ts:57-150: a backup is loaded into a shadow schema and swapped in table by table,
 each swap being one atomic RENAME statement. The ghost `history` holds the live schema after every
 statement, so what is proved of its members also holds if the process dies there.
 */
module Restore {
  import opened Common

  type Rows = seq<string>

  type Schema = map<string, Rows>

  ghost predicate Lists(names: seq<string>, schema: Schema) {
    && (forall t :: t in names <==> t in schema)
    && (forall i, j | 0 <= i < j < |names| :: names[i] != names[j])
  }

  function RollbackName(t: string, suffix: string): string { t + suffix }

  lemma RollbackNamesDiffer(a: string, b: string, suffix: string)
    ensures RollbackName(a, suffix) == RollbackName(b, suffix) ==> a == b
  {
    if a + suffix == b + suffix {
      assert |a| == |b|;
      assert a == (a + suffix)[..|a|] == (b + suffix)[..|b|] == b;
    }
  }

  lemma RollbackNameIsNew(t: string, suffix: string)
    requires suffix != ""
    ensures RollbackName(t, suffix) != t
  {
    assert |t + suffix| > |t|;
  }

  /** The live schema once the tables in `swapped` were swapped and the old ones of those in `dropped` were dropped. */
  ghost predicate AtStage(live: Schema, before: Schema, backup: Schema, suffix: string, swapped: set<string>, dropped: set<string>) {
    && dropped <= swapped <= before.Keys && swapped <= backup.Keys
    && (dropped != {} ==> swapped == before.Keys)
    && (forall t | t in before :: t in live && live[t] == if t in swapped then backup[t] else before[t])
    && (forall t | t in swapped :: RollbackName(t, suffix) !in before)
    && (forall t | t in swapped && t !in dropped :: RollbackName(t, suffix) in live && live[RollbackName(t, suffix)] == before[t])
    && (forall u | u in live && u !in before :: exists t :: t in swapped && t !in dropped && u == RollbackName(t, suffix))
  }

  /** Some point of a restore of `backup` over `before`; `early` means no old table was dropped yet. */
  ghost predicate OnTheWay(live: Schema, before: Schema, backup: Schema, suffix: string, early: bool) {
    exists swapped, dropped :: AtStage(live, before, backup, suffix, swapped, dropped) && (early ==> dropped == {})
  }

  ghost predicate AllOnTheWay(history: seq<Schema>, before: Schema, backup: Schema, suffix: string, early: bool) {
    forall h | h in history :: OnTheWay(h, before, backup, suffix, early)
  }

  lemma SwapAdvances(live: Schema, before: Schema, backup: Schema, suffix: string, swapped: set<string>, t: string)
    requires suffix != "" && AtStage(live, before, backup, suffix, swapped, {}) && t in before && t in backup && t !in swapped
    ensures RollbackName(t, suffix) in live <==> RollbackName(t, suffix) in before
    ensures RollbackName(t, suffix) !in live ==>
              AtStage(live[RollbackName(t, suffix) := live[t]][t := backup[t]], before, backup, suffix, swapped + {t}, {})
  {
    var r := RollbackName(t, suffix);
    RollbackNameIsNew(t, suffix);
    forall u | u in swapped
      ensures RollbackName(u, suffix) != r && RollbackName(u, suffix) != t
    {
      RollbackNamesDiffer(u, t, suffix);
    }
    hide RollbackName;
  }

  lemma DropAdvances(live: Schema, before: Schema, backup: Schema, suffix: string, dropped: set<string>, t: string)
    requires AtStage(live, before, backup, suffix, before.Keys, dropped) && t in before && t !in dropped
    ensures RollbackName(t, suffix) in live
    ensures AtStage(live - {RollbackName(t, suffix)}, before, backup, suffix, before.Keys, dropped + {t})
  {
    forall u | u in before && u != t
      ensures RollbackName(u, suffix) != RollbackName(t, suffix)
    {
      RollbackNamesDiffer(u, t, suffix);
    }
    hide RollbackName;
  }

  class Server {
    var prod: Schema
    var shadow: Option<Schema>
    var executed: nat
    ghost var history: seq<Schema>

    /** One entry for the start and one for every statement executed. */
    ghost predicate Logged()
      reads this
    {
      |history| == executed + 1 && history[executed] == prod
    }

    constructor (prod: Schema)
      ensures this.prod == prod && shadow == None && executed == 0 && history == [prod]
    {
      this.prod, shadow, executed, history := prod, None, 0, [prod];
    }

    /** Every statement may fail of its own accord; `fault` is the number of the one that does. */
    method CreateShadow(fault: nat) returns (ok: bool)
      modifies this
      ensures ok == (old(executed) != fault && old(shadow).None?)
      ensures prod == old(prod) && shadow == (if ok then Some(map[]) else old(shadow))
      ensures executed == old(executed) + 1 && history == old(history) + [prod] && (old(Logged()) ==> Logged())
    {
      ok := executed != fault && shadow.None?;
      if ok {
        shadow := Some(map[]);
      }
      executed, history := executed + 1, history + [prod];
    }

    /** A failed import leaves whatever it had loaded so far. */
    method Import(backup: Schema, partial: Schema, fault: nat) returns (ok: bool)
      modifies this
      ensures ok == (old(executed) != fault)
      ensures prod == old(prod) && shadow == Some(if ok then backup else partial)
      ensures executed == old(executed) + 1 && history == old(history) + [prod] && (old(Logged()) ==> Logged())
    {
      ok := executed != fault;
      shadow := Some(if ok then backup else partial);
      executed, history := executed + 1, history + [prod];
    }

    method ListTables(schema: Schema, fault: nat) returns (ok: bool, names: seq<string>)
      modifies this
      ensures ok == (old(executed) != fault)
      ensures ok ==> Lists(names, schema) && |names| == |schema.Keys|
      ensures prod == old(prod) && shadow == old(shadow)
      ensures executed == old(executed) + 1 && history == old(history) + [prod] && (old(Logged()) ==> Logged())
    {
      ok, names := executed != fault, [];
      executed, history := executed + 1, history + [prod];
      var rest := schema.Keys;
      while rest != {}
        invariant rest <= schema.Keys && |rest| + |names| == |schema.Keys|
        invariant forall t :: t in names <==> t in schema && t !in rest
        invariant forall i, j | 0 <= i < j < |names| :: names[i] != names[j]
        invariant prod == old(prod) && shadow == old(shadow) && executed == old(executed) + 1 && history == old(history) + [prod]
        decreases |rest|
      {
        var t :| t in rest;
        names, rest := names + [t], rest - {t};
      }
    }

    /** RENAME TABLE prod.t TO prod.r, shadow.t TO prod.t: both pairs or neither. */
    method Rename(t: string, r: string, fault: nat) returns (ok: bool)
      requires r != t
      modifies this
      ensures ok == (old(executed) != fault && t in old(prod) && r !in old(prod) && old(shadow).Some? && t in old(shadow).value)
      ensures ok ==> prod == old(prod)[r := old(prod)[t]][t := old(shadow).value[t]] && shadow == Some(old(shadow).value - {t})
      ensures !ok ==> prod == old(prod) && shadow == old(shadow)
      ensures executed == old(executed) + 1 && history == old(history) + [prod] && (old(Logged()) ==> Logged())
    {
      ok := executed != fault && t in prod && r !in prod && shadow.Some? && t in shadow.value;
      if ok {
        prod := (prod - {t})[r := prod[t]];
        prod := prod[t := shadow.value[t]];
        shadow := Some(shadow.value - {t});
        assert prod == old(prod)[r := old(prod)[t]][t := old(shadow).value[t]];
      }
      executed, history := executed + 1, history + [prod];
    }

    method DropTable(name: string, fault: nat) returns (ok: bool)
      modifies this
      ensures ok == (old(executed) != fault && name in old(prod))
      ensures prod == (if ok then old(prod) - {name} else old(prod)) && shadow == old(shadow)
      ensures executed == old(executed) + 1 && history == old(history) + [prod] && (old(Logged()) ==> Logged())
    {
      ok := executed != fault && name in prod;
      if ok {
        prod := prod - {name};
      }
      executed, history := executed + 1, history + [prod];
    }

    method DropShadow(fault: nat) returns (ok: bool)
      modifies this
      ensures ok == (old(executed) != fault && old(shadow).Some?)
      ensures prod == old(prod) && shadow == (if ok then None else old(shadow))
      ensures executed == old(executed) + 1 && history == old(history) + [prod] && (old(Logged()) ==> Logged())
    {
      ok := executed != fault && shadow.Some?;
      if ok {
        shadow := None;
      }
      executed, history := executed + 1, history + [prod];
    }

    /** Steps 4 to 6: load and compare. Equal counts and one inclusion stand for equal sets of names. */
    method LoadAndVerify(backup: Schema, partial: Schema, fault: nat) returns (ok: bool, live: seq<string>)
      requires shadow.None? && history == [prod] && executed == 0
      modifies this
      ensures prod == old(prod) && Logged() && forall h | h in history :: h == prod
      ensures ok <==> fault !in {0, 1, 2, 3} && backup.Keys == prod.Keys
      ensures !ok ==> (shadow.None? <==> fault == 0)
      ensures ok ==> shadow == Some(backup) && Lists(live, prod) && |live| == |prod.Keys| && executed == 4
    {
      live := [];
      ok := CreateShadow(fault);
      if !ok { return; }
      ok := Import(backup, partial, fault);
      if !ok { return; }
      var found: seq<string>;
      ok, found := ListTables(shadow.value, fault);
      if !ok { return; }
      ok, live := ListTables(prod, fault);
      if !ok { return; }
      if |found| != |live| {
        return false, live;
      }
      var i := 0;
      while i < |live|
        invariant 0 <= i <= |live| && forall k | 0 <= k < i :: live[k] in found
      {
        if live[i] !in found {
          assert live[i] in prod && live[i] !in backup;
          return false, live;
        }
        i := i + 1;
      }
      assert forall t | t in prod.Keys :: t in live;
      EqualCountsAndInclusion(prod.Keys, backup.Keys);
    }

    /** Step 7. */
    method SwapAll(names: seq<string>, backup: Schema, suffix: string, fault: nat) returns (ok: bool)
      requires suffix != "" && shadow == Some(backup) && backup.Keys == prod.Keys && Lists(names, prod)
      requires AllOnTheWay(history, prod, backup, suffix, true) && Logged()
      modifies this
      ensures AllOnTheWay(history, old(prod), backup, suffix, true) && Logged() && executed <= old(executed) + |names|
      ensures ok <==> !(old(executed) <= fault < old(executed) + |names|) && NoCollision(old(prod), suffix)
      ensures ok ==> AtStage(prod, old(prod), backup, suffix, old(prod).Keys, {}) && executed == old(executed) + |names|
      ensures shadow.Some?
    {
      hide RollbackName, AllOnTheWay, OnTheWay, AtStage;
      var k := 0;
      ok := true;
      ghost var before, swapped := prod, {};
      NothingSwapped(before, backup, suffix);
      while k < |names|
        invariant 0 <= k <= |names| && executed == old(executed) + k && Logged()
        invariant forall i | 0 <= i < |names| :: names[i] in swapped <==> i < k
        invariant swapped <= before.Keys && AtStage(prod, before, backup, suffix, swapped, {})
        invariant forall t | t in swapped :: RollbackName(t, suffix) !in before
        invariant shadow.Some? && forall t | t in backup && t !in swapped :: t in shadow.value && shadow.value[t] == backup[t]
        invariant !(old(executed) <= fault < old(executed) + k)
        invariant AllOnTheWay(history, before, backup, suffix, true)
      {
        var t := names[k];
        ghost var live, past := prod, history;
        SwapAdvances(live, before, backup, suffix, swapped, t);
        RollbackNameIsNew(t, suffix);
        StageHasLiveNames(live, before, backup, suffix, swapped, {});
        ok := Rename(t, RollbackName(t, suffix), fault);
        if ok {
          swapped := swapped + {t};
        }
        OneMore(past, prod, before, backup, suffix, swapped, {}, true);
        if !ok {
          return;
        }
        k := k + 1;
      }
      assert forall t | t in before :: t in names;
      assert swapped == before.Keys;
    }

    /** Step 8 without the schema. */
    method DropAll(names: seq<string>, ghost before: Schema, backup: Schema, suffix: string, fault: nat) returns (ok: bool)
      requires Lists(names, before) && AtStage(prod, before, backup, suffix, before.Keys, {})
      requires AllOnTheWay(history, before, backup, suffix, false) && Logged()
      modifies this
      ensures AllOnTheWay(history, before, backup, suffix, false) && Logged() && old(history) <= history
      ensures ok <==> !(old(executed) <= fault < old(executed) + |names|)
      ensures ok ==> AtStage(prod, before, backup, suffix, before.Keys, before.Keys)
      ensures shadow == old(shadow) && (ok ==> executed == old(executed) + |names|)
    {
      hide RollbackName, AllOnTheWay, OnTheWay, AtStage;
      var d := 0;
      ok := true;
      ghost var dropped := {};
      while d < |names|
        invariant 0 <= d <= |names| && executed == old(executed) + d && Logged() && shadow == old(shadow)
        invariant dropped <= before.Keys && forall i | 0 <= i < |names| :: names[i] in dropped <==> i < d
        invariant AtStage(prod, before, backup, suffix, before.Keys, dropped)
        invariant !(old(executed) <= fault < old(executed) + d)
        invariant old(history) <= history && AllOnTheWay(history, before, backup, suffix, false)
      {
        var t := names[d];
        ghost var past := history;
        DropAdvances(prod, before, backup, suffix, dropped, t);
        ok := DropTable(RollbackName(t, suffix), fault);
        if ok {
          dropped := dropped + {t};
        }
        OneMore(past, prod, before, backup, suffix, before.Keys, dropped, false);
        if !ok {
          return;
        }
        d := d + 1;
      }
      assert forall t | t in before :: t in names;
      assert dropped == before.Keys;
    }

    /**
     It succeeds exactly when no statement fails by itself, the names agree and no rollback name is taken; then
     the live schema is exactly the backup and the shadow is gone. In every case each intermediate state is a
     stage of the swap, and all those before the first drop, statement |old(prod)| + 4, still hold every old table.
     */
    method PerformRestore(backup: Schema, partial: Schema, suffix: string, fault: nat, cleanupFails: bool) returns (ok: bool)
      requires suffix != "" && shadow.None? && executed == 0 && history == [prod]
      modifies this
      ensures ok <==> fault >= 2 * |old(prod).Keys| + 5 && backup.Keys == old(prod).Keys && NoCollision(old(prod), suffix)
      ensures ok ==> prod == backup && shadow.None?
      ensures !ok && !cleanupFails ==> shadow.None?
      ensures !ok && cleanupFails ==> (shadow.None? <==> fault == 0)
      ensures Logged()
      ensures AllOnTheWay(history, old(prod), backup, suffix, false)
      ensures AllOnTheWay(history[..Min(|history|, |old(prod).Keys| + 5)], old(prod), backup, suffix, true)
    {
      hide RollbackName, AllOnTheWay, OnTheWay, AtStage, NoCollision, Lists;
      ghost var before := prod;
      var live: seq<string>;
      ok, live := LoadAndVerify(backup, partial, fault);
      NothingSwapped(before, backup, suffix);
      AllUntouched(history, before, backup, suffix);
      PrefixOnTheWay(history, |before.Keys| + 5, before, backup, suffix);
      if ok {
        ok := SwapAll(live, backup, suffix, fault);
        PrefixOnTheWay(history, |before.Keys| + 5, before, backup, suffix);
        EarlyIsOnTheWay(history, before, backup, suffix);
        if ok {
          ghost var early := history;
          assert early[..|before.Keys| + 5] == early;
          ok := DropAll(live, before, backup, suffix, fault);
          if ok {
            BackupAtTheEnd(prod, before, backup, suffix);
            ghost var past := history;
            ok := DropShadow(fault);
            OneMore(past, prod, before, backup, suffix, before.Keys, before.Keys, false);
          }
          assert history[..|early|] == early;
        }
      }
      if !ok && !cleanupFails {
        shadow := None;
      }
    }
  }

  /** The check at lines 86 to 99 of restore.ts means equality of the two sets of names. */
  lemma EqualCountsAndInclusion<T>(live: set<T>, found: set<T>)
    ensures |live| == |found| && live <= found <==> live == found
  {
    if |live| == |found| && live <= found {
      assert |found - live| == |found| - |live|;
      assert found == live + (found - live);
    }
  }

  ghost predicate NoCollision(before: Schema, suffix: string) {
    forall t | t in before :: RollbackName(t, suffix) !in before
  }

  lemma StageHasLiveNames(live: Schema, before: Schema, backup: Schema, suffix: string, swapped: set<string>, dropped: set<string>)
    requires AtStage(live, before, backup, suffix, swapped, dropped)
    ensures before.Keys <= live.Keys
  {
  }

  lemma NothingSwapped(before: Schema, backup: Schema, suffix: string)
    ensures AtStage(before, before, backup, suffix, {}, {})
  {
  }

  lemma AllUntouched(history: seq<Schema>, before: Schema, backup: Schema, suffix: string)
    requires forall h | h in history :: h == before
    ensures forall early :: AllOnTheWay(history, before, backup, suffix, early)
  {
    NothingSwapped(before, backup, suffix);
  }

  lemma PrefixOnTheWay(history: seq<Schema>, n: nat, before: Schema, backup: Schema, suffix: string)
    requires AllOnTheWay(history, before, backup, suffix, true)
    ensures AllOnTheWay(history[..Min(|history|, n)], before, backup, suffix, true)
  {
    hide OnTheWay;
  }

  lemma EarlyIsOnTheWay(history: seq<Schema>, before: Schema, backup: Schema, suffix: string)
    requires AllOnTheWay(history, before, backup, suffix, true)
    ensures AllOnTheWay(history, before, backup, suffix, false)
  {
  }

  lemma OneMore(past: seq<Schema>, live: Schema, before: Schema, backup: Schema, suffix: string, swapped: set<string>, dropped: set<string>, early: bool)
    requires AllOnTheWay(past, before, backup, suffix, early)
    requires AtStage(live, before, backup, suffix, swapped, dropped) && (early ==> dropped == {})
    ensures AllOnTheWay(past + [live], before, backup, suffix, early)
  {
  }

  lemma BackupAtTheEnd(live: Schema, before: Schema, backup: Schema, suffix: string)
    requires backup.Keys == before.Keys && AtStage(live, before, backup, suffix, before.Keys, before.Keys)
    ensures live == backup
  {
  }

  /** At every point each live name resolves, to its old rows or to those of the backup. */
  lemma LiveNamesResolve(live: Schema, before: Schema, backup: Schema, suffix: string, early: bool)
    requires OnTheWay(live, before, backup, suffix, early)
    ensures forall t | t in before :: t in live && (live[t] == before[t] || (t in backup && live[t] == backup[t]))
  {
    hide RollbackName;
  }

  /** Renaming every rollback table back over the live one. */
  ghost function Undone(live: Schema, names: set<string>, suffix: string): Schema {
    map t | t in names && (RollbackName(t, suffix) in live || t in live) ::
      if RollbackName(t, suffix) in live && RollbackName(t, suffix) !in names then live[RollbackName(t, suffix)]
      else if t in live then live[t] else []
  }

  /** Until the first drop nothing is lost: the old schema comes back by renames alone. */
  lemma NothingLostBeforeTheFirstDrop(live: Schema, before: Schema, backup: Schema, suffix: string)
    requires OnTheWay(live, before, backup, suffix, true)
    ensures Undone(live, before.Keys, suffix) == before
  {
    var swapped, dropped :| AtStage(live, before, backup, suffix, swapped, dropped) && dropped == {};
    forall t | t in before
      ensures t in Undone(live, before.Keys, suffix) && Undone(live, before.Keys, suffix)[t] == before[t]
    {
      if t !in swapped && RollbackName(t, suffix) in live && RollbackName(t, suffix) !in before {
        var u :| u in swapped && RollbackName(t, suffix) == RollbackName(u, suffix);
        RollbackNamesDiffer(t, u, suffix);
      }
    }
    hide RollbackName;
  }
}
