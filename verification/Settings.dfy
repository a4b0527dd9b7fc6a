/**
 src/lib/config/settings-store.ts:93-123: a batch of updates is folded into `.env` with the line editor. Every
 update is compared with the file as it was before the batch.
 */
module Settings {
  import opened Common
  import opened EnvFile

  /** A change of one tunable, its value already formatted as text. */
  datatype Update = Update(key: string, value: string)

  datatype SettingsResult = SettingsResult(ok: bool, applied: nat, changed: seq<string>)

  /** The updates that differ from what the file said before. */
  function Changed(content: string, updates: seq<Update>): seq<Update> {
    if updates == [] then []
    else
      var u := updates[|updates| - 1];
      Changed(content, updates[..|updates| - 1]) + if Read(content, u.key) == Some(u.value) then [] else [u]
  }

  function ApplyAll(content: string, updates: seq<Update>): string {
    if updates == [] then content
    else
      var u := updates[|updates| - 1];
      Upsert(ApplyAll(content, updates[..|updates| - 1]), u.key, u.value)
  }

  function KeysOf(updates: seq<Update>): seq<string> { seq(|updates|, i requires 0 <= i < |updates| => updates[i].key) }

  lemma NoUpdates(content: string)
    ensures Changed(content, []) == [] && ApplyAll(content, []) == content && KeysOf([]) == []
  {
  }

  lemma OneMoreUpdate(content: string, updates: seq<Update>, u: Update)
    ensures var done := Changed(content, updates);
            && Changed(content, updates + [u]) == (if Read(content, u.key) == Some(u.value) then done else done + [u])
            && KeysOf(done + [u]) == KeysOf(done) + [u.key]
            && ApplyAll(content, done + [u]) == Upsert(ApplyAll(content, done), u.key, u.value)
  {
  }

  class SettingsStore {
    var file: Option<string>

    constructor (file: Option<string>)
      ensures this.file == file
    {
      this.file := file;
    }

    method ReadTunable(key: string, shell: map<string, string>) returns (value: string)
      requires ValidKey(key)
      ensures file.Some? && Read(file.value, key).Some? ==> value == Read(file.value, key).value
      ensures !(file.Some? && Read(file.value, key).Some?) ==> value == if key in shell then shell[key] else ""
    {
      var read := map[];
      if file.Some? {
        read := ReadEnvFile(file.value);
      }
      value := if key in read then read[key] else if key in shell then shell[key] else "";
    }

    /** The loop: skip what already reads as wanted, edit the rest in. */
    static method FoldUpdates(was: string, before: map<string, string>, updates: seq<Update>) returns (content: string, changed: seq<string>)
      requires forall u | u in updates :: Read(was, u.key) == if u.key in before then Some(before[u.key]) else None
      ensures content == ApplyAll(was, Changed(was, updates)) && changed == KeysOf(Changed(was, updates))
    {
      hide *;
      NoUpdates(was);
      content, changed := was, [];
      ghost var past: seq<Update> := [];
      for i := 0 to |updates|
        invariant past == updates[..i]
        invariant content == ApplyAll(was, Changed(was, past)) && changed == KeysOf(Changed(was, past))
      {
        var u := updates[i];
        assert u in updates;
        OneMoreUpdate(was, past, u);
        past := past + [u];
        if !(u.key in before && before[u.key] == u.value) {
          content := Upsert(content, u.key, u.value);
          changed := changed + [u.key];
        }
      }
      assert past == updates;
    }

    method WriteTunables(updates: seq<Update>, writeFails: bool) returns (r: SettingsResult)
      requires forall u | u in updates :: ValidKey(u.key)
      modifies this
      ensures old(file).None? ==> r == SettingsResult(false, 0, []) && file == old(file)
      ensures old(file).Some? ==>
                var todo := Changed(old(file).value, updates);
                && (todo == [] ==> r == SettingsResult(true, 0, []) && file == old(file))
                && (todo != [] && writeFails ==> r == SettingsResult(false, 0, []) && file == old(file))
                && (todo != [] && !writeFails ==>
                      r == SettingsResult(true, |todo|, KeysOf(todo)) && file == Some(ApplyAll(old(file).value, todo)))
    {
      if file.None? {
        return SettingsResult(false, 0, []);
      }
      var before := ReadEnvFile(file.value);
      var content, changed := FoldUpdates(file.value, before, updates);
      if |changed| == 0 {
        return SettingsResult(true, 0, []);
      }
      if writeFails {
        return SettingsResult(false, 0, []);
      }
      file := Some(content);
      return SettingsResult(true, |changed|, changed);
    }
  }

  ghost predicate Editable(content: string, updates: seq<Update>) {
    && !StrayCr(Split(content))
    && forall u | u in updates :: ValidKey(u.key) && OneLine(u.value) && KeyLines(Split(content), u.key) <= 1
  }

  /** The last update of the key that differs from the value before the batch, or that value. */
  function Settled(updates: seq<Update>, key: string, before: Option<string>): Option<string> {
    if updates == [] then before
    else
      var u := updates[|updates| - 1];
      if u.key == key && before != Some(u.value) then Some(u.value) else Settled(updates[..|updates| - 1], key, before)
  }

  /** What any key reads as after a batch, repeated keys included. */
  lemma {:induction false} ReadAfterBatch(content: string, updates: seq<Update>, key: string)
    requires Editable(content, updates) && ValidKey(key)
    ensures var after := ApplyAll(content, Changed(content, updates));
            && Read(after, key) == Settled(updates, key, Read(content, key))
            && !StrayCr(Split(after)) && (KeyLines(Split(content), key) <= 1 ==> KeyLines(Split(after), key) <= 1)
    decreases |updates|
  {
    if updates != [] {
      var n := |updates|;
      var u, init := updates[n - 1], updates[..n - 1];
      var done := Changed(content, init);
      assert u in updates && (done + [u])[..|done|] == done && done + [] == done;
      ReadAfterBatch(content, init, key);
      ReadAfterBatch(content, init, u.key);
      if Read(content, u.key) != Some(u.value) {
        ReadYourWrite(ApplyAll(content, done), u.key, u.value, key);
        UpsertKeepsShape(ApplyAll(content, done), u.key, u.value, key);
      }
    }
  }

  ghost predicate DistinctKeys(updates: seq<Update>) { forall i, j | 0 <= i < j < |updates| :: updates[i].key != updates[j].key }

  lemma {:induction false} SettledOfDistinct(updates: seq<Update>, key: string, before: Option<string>)
    requires DistinctKeys(updates)
    ensures forall u | u in updates && u.key == key :: Settled(updates, key, before) == Some(u.value)
    ensures (forall u | u in updates :: u.key != key) ==> Settled(updates, key, before) == before
    decreases |updates|
  {
    if updates != [] {
      var n := |updates|;
      SettledOfDistinct(updates[..n - 1], key, before);
      assert updates == updates[..n - 1] + [updates[n - 1]];
    }
  }

  /** Distinct keys: every update is readable, nothing else moves, and `changed` names exactly the keys that read differently. */
  lemma BatchIsReadable(content: string, updates: seq<Update>, key: string)
    requires Editable(content, updates) && DistinctKeys(updates) && ValidKey(key)
    ensures var todo := Changed(content, updates);
            var after := ApplyAll(content, todo);
            && (forall u | u in updates && u.key == key :: Read(after, key) == Some(u.value))
            && ((forall u | u in updates :: u.key != key) ==> Read(after, key) == Read(content, key))
            && (key in KeysOf(todo) <==> Read(after, key) != Read(content, key))
  {
    ReadAfterBatch(content, updates, key);
    SettledOfDistinct(updates, key, Read(content, key));
    ChangedNames(content, updates, key);
  }

  lemma {:induction false} ChangedNames(content: string, updates: seq<Update>, key: string)
    ensures key in KeysOf(Changed(content, updates)) <==> Settled(updates, key, Read(content, key)) != Read(content, key)
    decreases |updates|
  {
    if updates != [] {
      var n := |updates|;
      var u, done := updates[n - 1], Changed(content, updates[..n - 1]);
      ChangedNames(content, updates[..n - 1], key);
      assert KeysOf(done + [u]) == KeysOf(done) + [u.key] && done + [] == done;
    }
  }

  /** Distinct keys are needed: the second of two updates is skipped if it restores the old value. */
  lemma RepeatedKeyLosesTheLastUpdate(content: string, key: string, old_: string, value: string)
    requires ValidKey(key) && OneLine(old_) && OneLine(value) && value != old_
    requires !StrayCr(Split(content)) && KeyLines(Split(content), key) <= 1 && Read(content, key) == Some(old_)
    ensures var updates := [Update(key, value), Update(key, old_)];
            Read(ApplyAll(content, Changed(content, updates)), key) == Some(value)
  {
    var updates := [Update(key, value), Update(key, old_)];
    assert updates[..1] == [Update(key, value)] && [Update(key, value)][..0] == [];
    ReadAfterBatch(content, updates, key);
  }
}
