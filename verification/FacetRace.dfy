/**
 src/lib/cache/write.ts:165-262: a facet writer reads the metadata object, merges its own keys into what it
 read, and stores the merge in a later transaction. A tick refreshes its jobs concurrently, so writers of the
 two facets, and core refreshes that replace the whole object, may overlap on one repository.
 */
module FacetRace {
  import opened Common
  import opened Store
  import opened Forms

  datatype FacetWrite = Releases(rs: seq<Release>, now: int) | Branches(bs: seq<Branch>, now: int)

  ghost predicate NamesDistinct(w: FacetWrite) { if w.Releases? then DistinctTags(w.rs) else DistinctNames(w.bs) }

  /** The transaction, with the metadata as it was when the writer read it. */
  function Commit(c: Cache, slug: Slug, w: FacetWrite, seen: JsonObject): Cache
    requires slug in c.repos
  {
    var repo := c.repos[slug];
    match w
    case Releases(rs, now) =>
      c.(releases := c.releases[repo.id := ToReleaseRows(rs, now)],
         repos := c.repos[slug := repo.(releasesFetchedAt := Some(now), metadata := Some(MergeReleases(seen, rs)))])
    case Branches(bs, now) =>
      c.(branches := c.branches[repo.id := ToBranchRows(bs)],
         repos := c.repos[slug := repo.(branchesFetchedAt := Some(now), metadata := Some(MergeBranches(seen, bs)))])
  }

  /** Read and transaction with nothing in between are the writer of module Store. */
  lemma UninterruptedIsTheWriter(c: Cache, slug: Slug, w: FacetWrite)
    requires slug in c.repos && NamesDistinct(w)
    ensures Written(Commit(c, slug, w, Existing(c.repos[slug])), None)
            == if w.Releases? then WriteReleases(c, slug, w.rs, None, w.now, None) else WriteBranches(c, slug, w.bs, None, w.now, None)
  {
  }

  /** What the read metadata says of the other facet is still what the child rows say. */
  ghost predicate OtherFacetMatches(c: Cache, slug: Slug, w: FacetWrite, seen: JsonObject)
    requires slug in c.repos
  {
    var as_read := c.(repos := c.repos[slug := c.repos[slug].(metadata := Some(seen))]);
    if w.Releases? then BranchFormsAgree(as_read, slug) else ReleaseFormsAgree(as_read, slug)
  }

  /** A commit leaves the forms in agreement exactly when the other facet has not moved away from what was read. */
  lemma CommitAgreesIff(c: Cache, slug: Slug, w: FacetWrite, seen: JsonObject)
    requires slug in c.repos && NamesDistinct(w)
    ensures FormsAgree(Commit(c, slug, w, seen), slug) <==> OtherFacetMatches(c, slug, w, seen)
  {
    KeysDiffer();
    var md := if w.Releases? then MergeReleases(seen, w.rs) else MergeBranches(seen, w.bs);
    if w.Releases? {
      assert Field(md, RECENT_RELEASES) == JReleases(w.rs) && Field(md, BRANCHES) == Field(seen, BRANCHES);
    } else {
      assert Field(md, BRANCHES) == JBranches(w.bs) && Field(md, RECENT_RELEASES) == Field(seen, RECENT_RELEASES);
      assert Field(md, LATEST_RELEASE) == Field(seen, LATEST_RELEASE) && Field(md, RELEASE_COUNT) == Field(seen, RELEASE_COUNT);
    }
  }

  lemma KeysDiffer()
    ensures |{LATEST_RELEASE, RECENT_RELEASES, RELEASE_COUNT, BRANCHES}| == 4
  {
    assert |LATEST_RELEASE| == 13 && |RECENT_RELEASES| == 14 && |RELEASE_COUNT| == 12 && |BRANCHES| == 8;
  }

  /** Every key but the writer's own reads as it did for the writer. */
  ghost predicate SeenIsCurrent(c: Cache, slug: Slug, w: FacetWrite, seen: JsonObject)
    requires slug in c.repos
  {
    SameOutside(seen, Existing(c.repos[slug]), OwnKeys(w))
  }

  function OwnKeys(w: FacetWrite): set<string> { if w.Releases? then {LATEST_RELEASE, RECENT_RELEASES, RELEASE_COUNT} else {BRANCHES} }

  /** A commit leaves the flat columns in agreement exactly when those that were read would still be the same. */
  lemma CommitFlattensIff(c: Cache, slug: Slug, w: FacetWrite, seen: JsonObject)
    requires slug in c.repos
    ensures FlatAgrees(Commit(c, slug, w, seen), slug) <==> Flatten(seen) == c.repos[slug].flat
    ensures SameOutside(seen, Existing(Commit(c, slug, w, seen).repos[slug]), OwnKeys(w))
  {
    FacetKeysDoNotFlatten(seen, Existing(Commit(c, slug, w, seen).repos[slug]));
  }

  /**
   A core write that lands between the read and the commit of a facet writer is undone in the metadata but not in the
   flat columns: every core key is the old one again, and the columns agree only if nothing they show had changed.
   */
  lemma StaleCommitUndoesTheCoreWrite(c: Cache, slug: Slug, w: FacetWrite, d: CoreData, now: int)
    requires slug in c.repos
    ensures var seen := Existing(c.repos[slug]);
            var end := Commit(WriteRow(c, slug, d, now, None).cache, slug, w, seen);
            && end.repos[slug].flat == Flatten(d.metadata)
            && (forall k | k !in FACET_KEYS :: Field(Existing(end.repos[slug]), k) == Field(seen, k))
            && (FlatAgrees(end, slug) <==> Flatten(seen) == Flatten(d.metadata))
  {
    CommitFlattensIff(WriteRow(c, slug, d, now, None).cache, slug, w, Existing(c.repos[slug]));
    hide Flatten;
  }

  // ---------------------------------------------------------------------------------------------
  // Any number of writers, interleaved.
  // ---------------------------------------------------------------------------------------------

  /** A writer that has read is overtaken once a writer of the other facet commits, or a core refresh writes the row. */
  datatype Phase = Waiting | Looked(seen: JsonObject, overtaken: bool) | Committed

  /** After a core refresh wrote the row, both lists are owed: its own facet writers, or others, have yet to commit. */
  datatype Race = Race(c: Cache, phases: seq<Phase>, owesReleases: bool, owesBranches: bool)

  /** A facet writer goes on, or a core refresh writes the row. */
  datatype Move = Facet(i: nat) | CoreRow(d: CoreData, now: int)

  predicate Enabled(ws: seq<FacetWrite>, r: Race, m: Move) {
    |ws| == |r.phases| && (m.Facet? ==> m.i < |ws| && !r.phases[m.i].Committed?)
  }

  function Overtaken(p: Phase): Phase { if p.Looked? then p.(overtaken := true) else p }

  function Go(ws: seq<FacetWrite>, slug: Slug, r: Race, m: Move): Race
    requires Enabled(ws, r, m) && slug in r.c.repos
  {
    match m
    case CoreRow(d, now) =>
      Race(WriteRow(r.c, slug, d, now, None).cache, seq(|ws|, j requires 0 <= j < |ws| => Overtaken(r.phases[j])), true, true)
    case Facet(i) =>
      match r.phases[i]
      case Looked(seen, _) =>
        Race(Commit(r.c, slug, ws[i], seen),
             seq(|ws|, j requires 0 <= j < |ws| =>
               if j == i then Committed else if ws[j].Releases? != ws[i].Releases? then Overtaken(r.phases[j]) else r.phases[j]),
             r.owesReleases && !ws[i].Releases?, r.owesBranches && ws[i].Releases?)
      case _ => r.(phases := r.phases[i := Looked(Existing(r.c.repos[slug]), false)])
  }

  /** A legal interleaving in which no overtaken writer commits. */
  ghost predicate Undisturbed(ws: seq<FacetWrite>, slug: Slug, r: Race, moves: seq<Move>)
    requires slug in r.c.repos
    decreases |moves|
  {
    moves != [] ==>
      && Enabled(ws, r, moves[0])
      && (moves[0].Facet? && r.phases[moves[0].i].Looked? ==> !r.phases[moves[0].i].overtaken)
      && Undisturbed(ws, slug, Go(ws, slug, r, moves[0]), moves[1..])
  }

  function Final(ws: seq<FacetWrite>, slug: Slug, r: Race, moves: seq<Move>): Race
    requires slug in r.c.repos
    decreases |moves|
  {
    if moves == [] || !Enabled(ws, r, moves[0]) then r else Final(ws, slug, Go(ws, slug, r, moves[0]), moves[1..])
  }

  ghost predicate Inv(ws: seq<FacetWrite>, slug: Slug, r: Race) {
    && |r.phases| == |ws| && slug in r.c.repos && FlatAgrees(r.c, slug)
    && (r.owesReleases || ReleaseFormsAgree(r.c, slug))
    && (r.owesBranches || BranchFormsAgree(r.c, slug))
    && forall i | 0 <= i < |ws| && r.phases[i].Looked? && !r.phases[i].overtaken :: SeenIsCurrent(r.c, slug, ws[i], r.phases[i].seen)
  }

  lemma CurrentCommitFlattens(c: Cache, slug: Slug, w: FacetWrite, seen: JsonObject)
    requires slug in c.repos && SeenIsCurrent(c, slug, w, seen)
    ensures FlatAgrees(c, slug) ==> FlatAgrees(Commit(c, slug, w, seen), slug)
  {
    CommitFlattensIff(c, slug, w, seen);
    FacetKeysDoNotFlatten(seen, Existing(c.repos[slug]));
    hide Flatten, SameOutside, Commit;
  }

  lemma CurrentReleasesCommit(c: Cache, slug: Slug, w: FacetWrite, seen: JsonObject)
    requires slug in c.repos && w.Releases? && NamesDistinct(w) && Field(seen, BRANCHES) == Field(Existing(c.repos[slug]), BRANCHES)
    ensures var c' := Commit(c, slug, w, seen); ReleaseFormsAgree(c', slug) && (BranchFormsAgree(c, slug) ==> BranchFormsAgree(c', slug))
  {
    KeysDiffer();
  }

  lemma CurrentBranchesCommit(c: Cache, slug: Slug, w: FacetWrite, seen: JsonObject)
    requires slug in c.repos && w.Branches? && NamesDistinct(w)
    requires forall k | k in {LATEST_RELEASE, RECENT_RELEASES, RELEASE_COUNT} :: Field(seen, k) == Field(Existing(c.repos[slug]), k)
    ensures var c' := Commit(c, slug, w, seen); BranchFormsAgree(c', slug) && (ReleaseFormsAgree(c, slug) ==> ReleaseFormsAgree(c', slug))
  {
    KeysDiffer();
    var md, was := MergeBranches(seen, w.bs), Existing(c.repos[slug]);
    assert Field(md, BRANCHES) == JBranches(w.bs) && Field(md, RECENT_RELEASES) == Field(was, RECENT_RELEASES);
    assert Field(md, LATEST_RELEASE) == Field(was, LATEST_RELEASE) && Field(md, RELEASE_COUNT) == Field(was, RELEASE_COUNT);
  }

  /** A commit on what is current: its own facet agrees, and the other one and the flat columns do if they did. */
  lemma CurrentCommit(c: Cache, slug: Slug, w: FacetWrite, seen: JsonObject)
    requires slug in c.repos && SeenIsCurrent(c, slug, w, seen) && NamesDistinct(w)
    ensures var c' := Commit(c, slug, w, seen);
            && slug in c'.repos
            && (w.Releases? ==> ReleaseFormsAgree(c', slug) && (BranchFormsAgree(c, slug) ==> BranchFormsAgree(c', slug)))
            && (w.Branches? ==> BranchFormsAgree(c', slug) && (ReleaseFormsAgree(c, slug) ==> ReleaseFormsAgree(c', slug)))
            && (FlatAgrees(c, slug) ==> FlatAgrees(c', slug))
  {
    KeysDiffer();
    CurrentCommitFlattens(c, slug, w, seen);
    OtherFieldsAsRead(seen, Existing(c.repos[slug]), w);
    hide Flatten, SameOutside, ReleaseFormsAgree, BranchFormsAgree, FlatAgrees, Field;
    if w.Releases? {
      CurrentReleasesCommit(c, slug, w, seen);
    } else {
      CurrentBranchesCommit(c, slug, w, seen);
    }
  }

  lemma OtherFieldsAsRead(seen: JsonObject, md: JsonObject, w: FacetWrite)
    requires SameOutside(seen, md, OwnKeys(w))
    ensures forall k | k in FACET_KEYS && k !in OwnKeys(w) :: Field(seen, k) == Field(md, k)
  {
    forall k | k in FACET_KEYS && k !in OwnKeys(w)
      ensures Field(seen, k) == Field(md, k)
    {
      assert k in seen.Keys - OwnKeys(w) <==> k in seen;
      assert k in md.Keys - OwnKeys(w) <==> k in md;
    }
  }

  /** A commit of one facet leaves the keys of the others as the committer read them. */
  lemma CommitKeepsCurrent(c: Cache, slug: Slug, w: FacetWrite, seen: JsonObject, v: FacetWrite, seen': JsonObject)
    requires slug in c.repos && SeenIsCurrent(c, slug, w, seen) && SeenIsCurrent(c, slug, v, seen')
    requires w.Releases? == v.Releases?
    ensures SeenIsCurrent(Commit(c, slug, w, seen), slug, v, seen')
  {
    var md, md' := Existing(c.repos[slug]), Existing(Commit(c, slug, w, seen).repos[slug]);
    CommitFlattensIff(c, slug, w, seen);
    hide Commit, Flatten;
    SameAsBoth(seen', md, seen, md', OwnKeys(w));
  }

  lemma SameAsBoth(a: JsonObject, md: JsonObject, b: JsonObject, md': JsonObject, keys: set<string>)
    requires SameOutside(a, md, keys) && SameOutside(b, md, keys) && SameOutside(b, md', keys)
    ensures SameOutside(a, md', keys)
  {
    assert a.Keys - keys == md.Keys - keys == b.Keys - keys == md'.Keys - keys;
    forall k | k in a && k !in keys
      ensures k in md' && a[k] == md'[k]
    {
      assert k in a.Keys - keys && k in b.Keys - keys && k in md'.Keys - keys;
    }
  }

  lemma MoveKeepsInv(ws: seq<FacetWrite>, slug: Slug, r: Race, m: Move)
    requires Inv(ws, slug, r) && Enabled(ws, r, m)
    requires m.Facet? && r.phases[m.i].Looked? ==> !r.phases[m.i].overtaken && NamesDistinct(ws[m.i])
    ensures Inv(ws, slug, Go(ws, slug, r, m))
  {
    hide ReleaseFormsAgree, BranchFormsAgree, FlatAgrees, SeenIsCurrent, Commit, NamesDistinct;
    var r' := Go(ws, slug, r, m);
    if m.CoreRow? {
      RowWriteFlattens(r.c, slug, m.d, m.now);
    } else if r.phases[m.i].Looked? {
      var w, seen := ws[m.i], r.phases[m.i].seen;
      CurrentCommit(r.c, slug, w, seen);
      forall j | 0 <= j < |ws| && r'.phases[j].Looked? && !r'.phases[j].overtaken
        ensures SeenIsCurrent(r'.c, slug, ws[j], r'.phases[j].seen)
      {
        assert r'.phases[j] == r.phases[j];
        CommitKeepsCurrent(r.c, slug, w, seen, ws[j], r.phases[j].seen);
      }
    } else {
      ReadIsCurrent(r.c, slug, ws[m.i]);
    }
  }

  lemma RowWriteFlattens(c: Cache, slug: Slug, d: CoreData, now: int)
    ensures var c' := WriteRow(c, slug, d, now, None).cache; slug in c'.repos && FlatAgrees(c', slug)
  {
  }

  lemma ReadIsCurrent(c: Cache, slug: Slug, w: FacetWrite)
    requires slug in c.repos
    ensures SeenIsCurrent(c, slug, w, Existing(c.repos[slug]))
  {
  }

  lemma {:induction false} InvAlongMoves(ws: seq<FacetWrite>, slug: Slug, r: Race, moves: seq<Move>)
    requires Inv(ws, slug, r) && Undisturbed(ws, slug, r, moves) && forall w | w in ws :: NamesDistinct(w)
    ensures Inv(ws, slug, Final(ws, slug, r, moves))
    decreases |moves|
  {
    hide Go, NamesDistinct;
    if moves != [] {
      assert moves[0].Facet? ==> ws[moves[0].i] in ws;
      MoveKeepsInv(ws, slug, r, moves[0]);
      assert slug in Go(ws, slug, r, moves[0]).c.repos;
      InvAlongMoves(ws, slug, Go(ws, slug, r, moves[0]), moves[1..]);
    }
  }

  /**
   However many facet writers and core refreshes interleave: if no facet writer commits after being overtaken, the flat
   columns agree throughout, and the two forms agree whenever both lists were committed since the last core write.
   */
  lemma UndisturbedWritersAgree(ws: seq<FacetWrite>, slug: Slug, c: Cache, moves: seq<Move>)
    requires FormsAgree(c, slug) && FlatAgrees(c, slug)
    requires var r := Started(ws, c); Undisturbed(ws, slug, r, moves) && forall w | w in ws :: NamesDistinct(w)
    ensures var end := Final(ws, slug, Started(ws, c), moves);
            && FlatAgrees(end.c, slug)
            && (!end.owesReleases ==> ReleaseFormsAgree(end.c, slug))
            && (!end.owesBranches ==> BranchFormsAgree(end.c, slug))
  {
    InvAlongMoves(ws, slug, Started(ws, c), moves);
  }

  function Started(ws: seq<FacetWrite>, c: Cache): Race { Race(c, seq(|ws|, j => Waiting), false, false) }

  /**
   The condition is needed. Both writers read, then both commit: the new releases are lost from the metadata,
   and the forms agree only if those releases make the same rows as the old ones.
   */
  lemma OverlapLosesOneFacet(c: Cache, slug: Slug, rel: FacetWrite, br: FacetWrite)
    requires slug in c.repos && FormsAgree(c, slug) && rel.Releases? && br.Branches? && NamesDistinct(rel) && NamesDistinct(br)
    ensures var end := Final([rel, br], slug, Started([rel, br], c), [Facet(0), Facet(1), Facet(0), Facet(1)]).c;
            var listed := Field(Existing(c.repos[slug]), RECENT_RELEASES);
            && slug in end.repos && Field(Existing(end.repos[slug]), RECENT_RELEASES) == listed && listed.JReleases?
            && ReleaseRows(end, c.repos[slug].id) == ToReleaseRows(rel.rs, rel.now)
            && (FormsAgree(end, slug) <==> ProjectsReleases(ToReleaseRows(rel.rs, rel.now), listed.releases))
  {
    var ws, md := [rel, br], Existing(c.repos[slug]);
    var r0 := Started(ws, c);
    var r1 := Go(ws, slug, r0, Facet(0));
    var r2 := Go(ws, slug, r1, Facet(1));
    assert r2.phases == [Looked(md, false), Looked(md, false)] && r2.c == c;
    var r3 := Go(ws, slug, r2, Facet(0));
    assert r3.phases == [Committed, Looked(md, true)] && r3.c == Commit(c, slug, rel, md);
    var r4 := Go(ws, slug, r3, Facet(1));
    assert r4.c == Commit(r3.c, slug, br, md);
    FinalOfFour(ws, slug, r0, r1, r2, r3);
    KeysDiffer();
    CommitAgreesIff(r3.c, slug, br, md);
  }

  lemma FinalOfFour(ws: seq<FacetWrite>, slug: Slug, r0: Race, r1: Race, r2: Race, r3: Race)
    requires slug in r0.c.repos && Enabled(ws, r0, Facet(0)) && r1 == Go(ws, slug, r0, Facet(0))
    requires slug in r1.c.repos && Enabled(ws, r1, Facet(1)) && r2 == Go(ws, slug, r1, Facet(1))
    requires slug in r2.c.repos && Enabled(ws, r2, Facet(0)) && r3 == Go(ws, slug, r2, Facet(0))
    requires slug in r3.c.repos && Enabled(ws, r3, Facet(1))
    ensures Final(ws, slug, r0, [Facet(0), Facet(1), Facet(0), Facet(1)]) == Go(ws, slug, r3, Facet(1))
  {
    hide Go, Enabled;
    var a, b := Facet(0), Facet(1);
    assert [a, b, a, b][1..] == [b, a, b] && [b, a, b][1..] == [a, b] && [a, b][1..] == [b] && [b][1..] == [];
    assert Final(ws, slug, r3, [b]) == Go(ws, slug, r3, b);
    assert Final(ws, slug, r2, [a, b]) == Final(ws, slug, r3, [b]);
    assert Final(ws, slug, r1, [b, a, b]) == Final(ws, slug, r2, [a, b]);
  }
}
