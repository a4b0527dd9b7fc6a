/** The writers of src/lib/cache/write.ts column by column and key by key, and what a finished refresh has stored. */
module Columns {
  import opened Common
  import opened Store
  import opened Forms
  import Jobs
  import RefreshOne
  import Endings

  /** What the text at a key says, or the default. */
  ghost predicate ReadsText(md: JsonObject, key: string, column: Option<string>) {
    column == if key in md && md[key].JText? then Some(md[key].text) else None
  }

  ghost predicate ReadsNumber(md: JsonObject, key: string, column: int) { column == if key in md && md[key].JNum? then md[key].num else 0 }

  ghost predicate ReadsDate(md: JsonObject, key: string, column: Option<int>) {
    column == if key in md && md[key].JText? && |md[key].text| > 0 then md[key].instant else None
  }

  /** Absent, null, false, zero and the empty text are false. */
  ghost predicate ReadsFlag(md: JsonObject, key: string, column: bool) {
    !column <==> key !in md || md[key] == JNull || md[key] == JBool(false) || md[key] == JNum(0) || (md[key].JText? && |md[key].text| == 0)
  }

  /**
   Along every run of writes, faults and repeated names included, each flat column of every row says what its own key of the
   metadata says.
   */
  lemma FlatColumnsReadTheirKeys(c: Cache, ops: seq<WriteOp>, slug: Slug)
    requires WellFormed(c) && AllFlatAgree(c) && slug in PerformAll(c, ops).repos
    ensures var repo := PerformAll(c, ops).repos[slug];
            var flat, md := repo.flat, if repo.metadata.Some? then repo.metadata.value else map[];
            && flat.defaultBranch == (if "defaultBranch" in md && md["defaultBranch"].JText? then md["defaultBranch"].text else "main")
            && ReadsText(md, "description", flat.description) && ReadsFlag(md, "private", flat.isPrivate)
            && ReadsNumber(md, "stars", flat.stars) && ReadsNumber(md, "forks", flat.forks) && ReadsNumber(md, "watchers", flat.watchers)
            && ReadsText(md, "language", flat.language) && ReadsText(md, "license", flat.license)
            && flat.topics == (if "topics" in md && md["topics"].JTexts? then md["topics"].texts else [])
            && ReadsText(md, "homepage", flat.homepage) && ReadsFlag(md, "archived", flat.archived)
            && ReadsDate(md, "createdAt", flat.repoCreatedAt) && ReadsDate(md, "updatedAt", flat.repoUpdatedAt)
            && ReadsDate(md, "pushedAt", flat.repoPushedAt)
  {
    FlatColumnsAgreeAlongRuns(c, ops);
    var repo := PerformAll(c, ops).repos[slug];
    assert FlatAgrees(PerformAll(c, ops), slug);
    FlattenReadsKeys(Existing(repo));
    hide PerformAll, Flatten, AllFlatAgree, WellFormed;
  }

  lemma FlattenReadsKeys(md: JsonObject)
    ensures var flat := Flatten(md);
            && flat.defaultBranch == (if "defaultBranch" in md && md["defaultBranch"].JText? then md["defaultBranch"].text else "main")
            && ReadsText(md, "description", flat.description) && ReadsFlag(md, "private", flat.isPrivate)
            && ReadsNumber(md, "stars", flat.stars) && ReadsNumber(md, "forks", flat.forks) && ReadsNumber(md, "watchers", flat.watchers)
            && ReadsText(md, "language", flat.language) && ReadsText(md, "license", flat.license)
            && flat.topics == (if "topics" in md && md["topics"].JTexts? then md["topics"].texts else [])
            && ReadsText(md, "homepage", flat.homepage) && ReadsFlag(md, "archived", flat.archived)
            && ReadsDate(md, "createdAt", flat.repoCreatedAt) && ReadsDate(md, "updatedAt", flat.repoUpdatedAt)
            && ReadsDate(md, "pushedAt", flat.repoPushedAt)
  {
  }

  /** A write that fails changes nothing; the error is the database's own, or that of the unique key. */
  lemma FailedFacetWrite(c: Cache, slug: Slug, rs: seq<Release>, bs: seq<Branch>, etag: Option<string>, now: int, fault: Option<string>)
    ensures var w := WriteReleases(c, slug, rs, etag, now, fault);
            && (w.error.Some? <==> slug in c.repos && (fault.Some? || exists i, j :: 0 <= i < j < |rs| && rs[i].tagName == rs[j].tagName))
            && (w.error.Some? || slug !in c.repos ==> w.cache == c) && (w.error.Some? && fault.Some? ==> w.error == fault)
    ensures var w := WriteBranches(c, slug, bs, etag, now, fault);
            && (w.error.Some? <==> slug in c.repos && (fault.Some? || exists i, j :: 0 <= i < j < |bs| && bs[i].name == bs[j].name))
            && (w.error.Some? || slug !in c.repos ==> w.cache == c) && (w.error.Some? && fault.Some? ==> w.error == fault)
  {
  }

  /** The releases write: the facet's own keys, timestamp and etag, its child rows, and nothing else. */
  lemma ReleasesWriteColumns(c: Cache, slug: Slug, rs: seq<Release>, etag: Option<string>, now: int)
    requires slug in c.repos && DistinctTags(rs)
    ensures var c', old_ := WriteReleases(c, slug, rs, etag, now, None).cache, c.repos[slug];
            && slug in c'.repos && c'.repos[slug].metadata.Some?
            && var repo := c'.repos[slug];
            && repo == old_.(metadata := repo.metadata, releasesFetchedAt := Some(now), releasesEtag := if etag.Some? then etag else old_.releasesEtag)
            && old_.id in c'.releases
            && var md, rows := repo.metadata.value, c'.releases[old_.id];
            && md == Existing(old_)["latestRelease" := if rs == [] then JNull else JRelease(rs[0])]
                                   ["recentReleases" := JReleases(rs)]["releaseCount" := JNum(|rs|)]
            && |rows| == |rs|
            && (forall i | 0 <= i < |rs| ::
                  rows[i] == ReleaseRow(rs[i].tagName, rs[i].title, if rs[i].publishedAt.Some? then rs[i].publishedAt.value else now,
                                        rs[i].prerelease, rs[i].draft))
            && c' == c.(repos := c.repos[slug := repo], releases := c.releases[old_.id := rows])
  {
  }

  /** The branches write, likewise. */
  lemma BranchesWriteColumns(c: Cache, slug: Slug, bs: seq<Branch>, etag: Option<string>, now: int)
    requires slug in c.repos && DistinctNames(bs)
    ensures var c', old_ := WriteBranches(c, slug, bs, etag, now, None).cache, c.repos[slug];
            && slug in c'.repos && c'.repos[slug].metadata.Some?
            && var repo := c'.repos[slug];
            && repo == old_.(metadata := Some(Existing(old_)["branches" := JBranches(bs)]), branchesFetchedAt := Some(now),
                             branchesEtag := if etag.Some? then etag else old_.branchesEtag)
            && old_.id in c'.branches
            && var rows := c'.branches[old_.id];
            && |rows| == |bs|
            && (forall i | 0 <= i < |bs| :: rows[i] == BranchRow(bs[i].name, bs[i].isProtected, bs[i].commitSha))
            && c' == c.(repos := c.repos[slug := repo], branches := c.branches[old_.id := rows])
  {
  }

  /** The row write: an update keeps the id and the facets' etags and times, a create takes the next id and has none. */
  lemma RowWriteColumns(c: Cache, slug: Slug, d: CoreData, now: int)
    ensures var c' := WriteRow(c, slug, d, now, None).cache;
            && slug in c'.repos
            && var repo, known := c'.repos[slug], slug in c.repos;
            && repo.node == d.node && repo.metadata == Some(d.metadata) && repo.etag == d.etag && repo.lastFetchedAt == Some(now)
            && repo.fetchStatus == d.fetchStatus && repo.fetchError == d.fetchError
            && (if known then
                  var old_ := c.repos[slug];
                  repo.id == old_.id && repo.releasesEtag == old_.releasesEtag && repo.branchesEtag == old_.branchesEtag
                  && repo.releasesFetchedAt == old_.releasesFetchedAt && repo.branchesFetchedAt == old_.branchesFetchedAt
                else
                  repo.id == c.nextId && repo.releasesEtag == repo.branchesEtag == None && repo.releasesFetchedAt == repo.branchesFetchedAt == None)
            && c' == c.(repos := c.repos[slug := repo], nextId := if known then c.nextId else c.nextId + 1)
    ensures WriteRow(c, slug, d, now, None).error.None? && forall fault :: WriteRow(c, slug, d, now, Some(fault)) == Written(c, Some(fault))
  {
  }

  /** A 304 moves one timestamp; a delete takes the row and both lists. */
  lemma SmallWriteColumns(c: Cache, slug: Slug, now: int)
    requires slug in c.repos
    ensures var repo := c.repos[slug];
            && Touch(c, slug, now, CoreFacet) == c.(repos := c.repos[slug := repo.(lastFetchedAt := Some(now))])
            && Touch(c, slug, now, ReleasesFacet) == c.(repos := c.repos[slug := repo.(releasesFetchedAt := Some(now))])
            && Touch(c, slug, now, BranchesFacet) == c.(repos := c.repos[slug := repo.(branchesFetchedAt := Some(now))])
            && var c' := DeleteRepo(c, slug);
            && c'.nextId == c.nextId && slug !in c'.repos && repo.id !in c'.releases && repo.id !in c'.branches
            && (forall s | s in c.repos && s != slug :: s in c'.repos && c'.repos[s] == c.repos[s])
            && (forall s | s in c'.repos :: s in c.repos)
            && (forall i | i in c.releases && i != repo.id :: i in c'.releases && c'.releases[i] == c.releases[i])
            && (forall i | i in c.branches && i != repo.id :: i in c'.branches && c'.branches[i] == c.branches[i])
  {
  }

  // ---------------------------------------------------------------------------------------------
  // What a refresh that is done has stored.
  // ---------------------------------------------------------------------------------------------

  /** A full store without a fault or a repeated name: the answer in every column, every key and every child row. */
  lemma FullStoreColumns(c: Cache, slug: Slug, node: string, core: JsonObject, latest: Json, rs: seq<Release>, bs: seq<Branch>,
                         etag: Option<string>, now: int)
    requires DistinctTags(rs) && DistinctNames(bs)
    ensures var w := WriteMetadata(c, slug, FullFetch(node, core, latest, rs, bs, etag), now, NO_FAULTS);
            && w.error.None? && slug in w.cache.repos
            && var repo := w.cache.repos[slug];
            && repo.node == node && repo.etag == etag && repo.fetchStatus == Ok && repo.fetchError == None && repo.metadata.Some?
            && repo.lastFetchedAt == repo.releasesFetchedAt == repo.branchesFetchedAt == Some(now)
            && (if slug in c.repos then repo.id == c.repos[slug].id && repo.releasesEtag == c.repos[slug].releasesEtag
                                        && repo.branchesEtag == c.repos[slug].branchesEtag
                else repo.id == c.nextId && repo.releasesEtag == None && repo.branchesEtag == None)
            && repo.metadata.value == core["latestRelease" := if rs == [] then JNull else JRelease(rs[0])]
                                          ["recentReleases" := JReleases(rs)]["releaseCount" := JNum(|rs|)]["branches" := JBranches(bs)]
            && ProjectsReleases(ReleaseRows(w.cache, repo.id), rs) && ProjectsBranches(BranchRows(w.cache, repo.id), bs)
  {
    var d := FullFetch(node, core, latest, rs, bs, etag);
    var row := WriteRow(c, slug, d, now, None).cache;
    RowWriteColumns(c, slug, d, now);
    ReleasesWriteColumns(row, slug, rs, None, now);
    var rel := WriteReleases(row, slug, rs, None, now, None).cache;
    BranchesWriteColumns(rel, slug, bs, None, now);
    hide WriteRow, WriteReleases, WriteBranches, DistinctTags, DistinctNames;
    MergedTwice(core, latest, rs, bs);
  }

  lemma MergedTwice(core: JsonObject, latest: Json, rs: seq<Release>, bs: seq<Branch>)
    ensures MergeBranches(MergeReleases(ParsedMetadata(core, latest, rs, bs), rs), bs)
            == core["latestRelease" := if rs == [] then JNull else JRelease(rs[0])]
                   ["recentReleases" := JReleases(rs)]["releaseCount" := JNum(|rs|)]["branches" := JBranches(bs)]
  {
  }

  /** What the row write of a full fetch stores meanwhile: re-parsed lists, without asset counts and commits. */
  lemma ParsedColumns(node: string, core: JsonObject, latest: Json, rs: seq<Release>, bs: seq<Branch>, etag: Option<string>)
    ensures var d := FullFetch(node, core, latest, rs, bs, etag);
            && d.node == node && d.etag == etag && d.releases == Some(rs) && d.branches == Some(bs) && d.fetchStatus == Ok && d.fetchError == None
            && (forall k | k !in {"latestRelease", "recentReleases", "releaseCount", "branches"} :: k in d.metadata <==> k in core)
            && (forall k | k in core && k !in {"latestRelease", "recentReleases", "releaseCount", "branches"} :: d.metadata[k] == core[k])
            && Field(d.metadata, "latestRelease") == latest && Field(d.metadata, "releaseCount") == JNum(|rs|)
            && Field(d.metadata, "recentReleases").JReleases? && Field(d.metadata, "branches").JBranches?
            && var parsed, branches := Field(d.metadata, "recentReleases").releases, Field(d.metadata, "branches").branches;
            && |parsed| == |rs| && (forall i | 0 <= i < |rs| :: parsed[i] == rs[i].(assetsCount := 0))
            && |branches| == |bs| && (forall i | 0 <= i < |bs| :: branches[i] == bs[i].(commitSha := ""))
  {
  }

  /**
   A refresh that is done: what it was answered is what the cache holds. A full fetch is in every column and child row, a
   list in its facet, and an unchanged answer moves the timestamp of what was asked for.
   */
  lemma DoneIsStored(c: Store.Cache, leased: Jobs.Job, byKind: bool, sc: RefreshOne.Scenario)
    requires Endings.ReachesDone(c, leased, byKind, sc) && sc.doneFault.None?
    ensures var end, slug, facet := RefreshOne.CacheAfter(c, leased, RefreshOne.RunEnding(c, leased, byKind, sc)), leased.slug, byKind && leased.kind != Jobs.Core;
            && (!facet && sc.core.CoreFetched? ==>
                  end == WriteMetadata(c, slug, FullFetch(sc.core.node, sc.core.core, sc.core.latest, sc.core.releases, sc.core.branches, sc.core.etag),
                                       sc.now, sc.storeFaults).cache)
            && (!facet && sc.core.CoreNotModified? ==>
                  end == if slug in c.repos then c.(repos := c.repos[slug := c.repos[slug].(lastFetchedAt := Some(sc.now))]) else c)
            && (facet && leased.kind == Jobs.Releases && sc.releases.FacetFetched? ==>
                  end == WriteReleases(c, slug, sc.releases.items, sc.releases.etag, sc.now, sc.storeFaults.releases).cache)
            && (facet && leased.kind == Jobs.Releases && sc.releases.FacetNotModified? ==>
                  end == if slug in c.repos then c.(repos := c.repos[slug := c.repos[slug].(releasesFetchedAt := Some(sc.now))]) else c)
            && (facet && leased.kind == Jobs.Branches && sc.branches.FacetFetched? ==>
                  end == WriteBranches(c, slug, sc.branches.items, sc.branches.etag, sc.now, sc.storeFaults.branches).cache)
            && (facet && leased.kind == Jobs.Branches && sc.branches.FacetNotModified? ==>
                  end == if slug in c.repos then c.(repos := c.repos[slug := c.repos[slug].(branchesFetchedAt := Some(sc.now))]) else c)
  {
    hide WriteMetadata, WriteReleases, WriteBranches, FullFetch, RefreshOne.CoreErrorEnding, RefreshOne.FacetErrorEnding;
    var e := RefreshOne.RunEnding(c, leased, byKind, sc);
    if e.ops != [] {
      RefreshOne.OneOp(c, e.ops[0]);
    }
  }
}
