/**
 The two stored forms agree: what the metadata object of a repository says about releases and
 branches is what its child rows say, and the flat columns are the flattening of the metadata.
 Stated for single writes and for every run of writes to the cache.
 */
module Forms {
  import opened Common
  import opened Store

  /** A missing publication date is replaced by the time of the write. */
  predicate RowMatches(row: ReleaseRow, r: Release) {
    && row.tag == r.tagName
    && row.title == r.title
    && row.prerelease == r.prerelease
    && row.draft == r.draft
    && (r.publishedAt.Some? ==> row.publishedAt == r.publishedAt.value)
  }

  ghost predicate ProjectsReleases(rows: seq<ReleaseRow>, rs: seq<Release>) {
    |rows| == |rs| && forall i | 0 <= i < |rs| :: RowMatches(rows[i], rs[i])
  }

  predicate BranchRowMatches(row: BranchRow, b: Branch) {
    row.name == b.name && row.isProtected == b.isProtected && row.lastCommitSha == b.commitSha
  }

  ghost predicate ProjectsBranches(rows: seq<BranchRow>, bs: seq<Branch>) {
    |rows| == |bs| && forall i | 0 <= i < |bs| :: BranchRowMatches(rows[i], bs[i])
  }

  ghost predicate ReleaseFormsAgree(c: Cache, slug: Slug) {
    && slug in c.repos
    && c.repos[slug].metadata.Some?
    && var md := c.repos[slug].metadata.value;
    && Field(md, RECENT_RELEASES).JReleases?
    && var rs := Field(md, RECENT_RELEASES).releases;
    && ProjectsReleases(ReleaseRows(c, c.repos[slug].id), rs)
    && Field(md, RELEASE_COUNT) == JNum(|rs|)
    && Field(md, LATEST_RELEASE) == if rs == [] then JNull else JRelease(rs[0])
  }

  ghost predicate BranchFormsAgree(c: Cache, slug: Slug) {
    && slug in c.repos
    && c.repos[slug].metadata.Some?
    && var md := c.repos[slug].metadata.value;
    && Field(md, BRANCHES).JBranches?
    && ProjectsBranches(BranchRows(c, c.repos[slug].id), Field(md, BRANCHES).branches)
  }

  ghost predicate FormsAgree(c: Cache, slug: Slug) {
    ReleaseFormsAgree(c, slug) && BranchFormsAgree(c, slug)
  }

  ghost predicate FlatAgrees(c: Cache, slug: Slug) {
    slug in c.repos ==> c.repos[slug].flat == Flatten(Existing(c.repos[slug]))
  }

  // ---------------------------------------------------------------------------------------------
  // What one write does.
  // ---------------------------------------------------------------------------------------------

  /** Everything the two caches say about `slug`. */
  ghost predicate SameFor(c: Cache, c': Cache, slug: Slug) {
    && (slug in c.repos <==> slug in c'.repos)
    && (slug in c.repos ==>
          && c.repos[slug] == c'.repos[slug]
          && ReleaseRows(c, c.repos[slug].id) == ReleaseRows(c', c.repos[slug].id)
          && BranchRows(c, c.repos[slug].id) == BranchRows(c', c.repos[slug].id))
  }

  /** Two metadata objects that differ at most in `keys`. */
  ghost predicate SameOutside(md: JsonObject, md': JsonObject, keys: set<string>) {
    md.Keys - keys == md'.Keys - keys && forall k | k in md && k !in keys :: k in md' && md[k] == md'[k]
  }

  lemma ReleasesWriteKeepsSchema(c: Cache, slug: Slug, rs: seq<Release>, etag: Option<string>, now: int, fault: Option<string>)
    requires WellFormed(c)
    ensures WellFormed(WriteReleases(c, slug, rs, etag, now, fault).cache)
  {
  }

  lemma BranchesWriteKeepsSchema(c: Cache, slug: Slug, bs: seq<Branch>, etag: Option<string>, now: int, fault: Option<string>)
    requires WellFormed(c)
    ensures WellFormed(WriteBranches(c, slug, bs, etag, now, fault).cache)
  {
  }

  /** A releases write changes no core field and nothing of the branches facet. */
  lemma ReleasesWriteKeepsTheRest(c: Cache, slug: Slug, rs: seq<Release>, etag: Option<string>, now: int, fault: Option<string>)
    requires WellFormed(c) && slug in c.repos
    ensures var c' := WriteReleases(c, slug, rs, etag, now, fault).cache;
            && slug in c'.repos
            && var r, r' := c.repos[slug], c'.repos[slug];
            && r' == r.(metadata := r'.metadata, releasesEtag := r'.releasesEtag, releasesFetchedAt := r'.releasesFetchedAt)
            && SameOutside(Existing(r), Existing(r'), {LATEST_RELEASE, RECENT_RELEASES, RELEASE_COUNT})
            && BranchRows(c', r.id) == BranchRows(c, r.id)
            && (BranchFormsAgree(c, slug) ==> BranchFormsAgree(c', slug))
  {
  }

  /** A branches write changes no core field and nothing of the releases facet. */
  lemma BranchesWriteKeepsTheRest(c: Cache, slug: Slug, bs: seq<Branch>, etag: Option<string>, now: int, fault: Option<string>)
    requires WellFormed(c) && slug in c.repos
    ensures var c' := WriteBranches(c, slug, bs, etag, now, fault).cache;
            && slug in c'.repos
            && var r, r' := c.repos[slug], c'.repos[slug];
            && r' == r.(metadata := r'.metadata, branchesEtag := r'.branchesEtag, branchesFetchedAt := r'.branchesFetchedAt)
            && SameOutside(Existing(r), Existing(r'), {BRANCHES})
            && ReleaseRows(c', r.id) == ReleaseRows(c, r.id)
            && (ReleaseFormsAgree(c, slug) ==> ReleaseFormsAgree(c', slug))
  {
  }

  lemma ReleasesWriteKeepsOthers(c: Cache, slug: Slug, rs: seq<Release>, etag: Option<string>, now: int, fault: Option<string>, s: Slug)
    requires WellFormed(c) && s != slug
    ensures SameFor(c, WriteReleases(c, slug, rs, etag, now, fault).cache, s)
  {
  }

  lemma BranchesWriteKeepsOthers(c: Cache, slug: Slug, bs: seq<Branch>, etag: Option<string>, now: int, fault: Option<string>, s: Slug)
    requires WellFormed(c) && s != slug
    ensures SameFor(c, WriteBranches(c, slug, bs, etag, now, fault).cache, s)
  {
  }

  lemma RowWriteKeepsSchema(c: Cache, slug: Slug, d: CoreData, now: int, fault: Option<string>)
    requires WellFormed(c)
    ensures WellFormed(WriteRow(c, slug, d, now, fault).cache)
  {
  }

  lemma RowWriteStoresMetadata(c: Cache, slug: Slug, d: CoreData, now: int, fault: Option<string>)
    ensures var w := WriteRow(c, slug, d, now, fault);
            && (w.error.None? ==> slug in w.cache.repos && w.cache.repos[slug].metadata == Some(d.metadata)
                                  && w.cache.repos[slug].flat == Flatten(d.metadata))
            && (w.error.Some? ==> w.cache == c)
            && w.cache.releases == c.releases && w.cache.branches == c.branches
            && (forall s | s != slug :: (s in c.repos <==> s in w.cache.repos) && (s in c.repos ==> c.repos[s] == w.cache.repos[s]))
  {
  }

  /** A committed releases write makes the two forms agree, whatever was there before. */
  lemma ReleasesWriteAgrees(c: Cache, slug: Slug, rs: seq<Release>, etag: Option<string>, now: int)
    requires slug in c.repos && DistinctTags(rs)
    ensures ReleaseFormsAgree(WriteReleases(c, slug, rs, etag, now, None).cache, slug)
  {
  }

  lemma BranchesWriteAgrees(c: Cache, slug: Slug, bs: seq<Branch>, etag: Option<string>, now: int)
    requires slug in c.repos && DistinctNames(bs)
    ensures BranchFormsAgree(WriteBranches(c, slug, bs, etag, now, None).cache, slug)
  {
    assert Field(Existing(WriteBranches(c, slug, bs, etag, now, None).cache.repos[slug]), BRANCHES) == JBranches(bs);
  }

  /** parseRepoResponse re-parses the summaries, which carry no asset list, so it counts no assets. */
  function ParsedReleases(rs: seq<Release>): seq<Release> {
    seq(|rs|, i requires 0 <= i < |rs| => rs[i].(assetsCount := 0))
  }

  /** It re-parses the branches too, looking for `commit.sha`, which a summary does not have. */
  function ParsedBranches(bs: seq<Branch>): seq<Branch> {
    seq(|bs|, i requires 0 <= i < |bs| => bs[i].(commitSha := ""))
  }

  /** The metadata object parseRepoResponse builds from the core response and the two lists. */
  function ParsedMetadata(core: JsonObject, latest: Json, rs: seq<Release>, bs: seq<Branch>): JsonObject {
    core[LATEST_RELEASE := latest][RECENT_RELEASES := JReleases(ParsedReleases(rs))][RELEASE_COUNT := JNum(|rs|)]
        [BRANCHES := JBranches(ParsedBranches(bs))]
  }

  function FullFetch(node: string, core: JsonObject, latest: Json, rs: seq<Release>, bs: seq<Branch>, etag: Option<string>): CoreData {
    CoreData(node, ParsedMetadata(core, latest, rs, bs), etag, Some(rs), Some(bs), Ok, None)
  }

  /**
   After a full refresh whose transactions meet no database fault, the forms agree exactly when no tag
   and no branch name is repeated. With a repetition the row already carries the new lists when the
   child write throws, so the forms part.
   */
  lemma FullRefreshAgreesIffNamesDistinct(
    c: Cache, slug: Slug, node: string, core: JsonObject, latest: Json, rs: seq<Release>, bs: seq<Branch>, etag: Option<string>, now: int)
    requires WellFormed(c)
    ensures var w := WriteMetadata(c, slug, FullFetch(node, core, latest, rs, bs, etag), now, NO_FAULTS);
            && (FormsAgree(w.cache, slug) <==> DistinctTags(rs) && DistinctNames(bs))
            && (w.error.None? <==> DistinctTags(rs) && DistinctNames(bs))
  {
    var d := FullFetch(node, core, latest, rs, bs, etag);
    var row := WriteRow(c, slug, d, now, None).cache;
    RowWriteKeepsSchema(c, slug, d, now, None);
    RowWriteStoresMetadata(c, slug, d, now, None);
    ListsAgreeIffNamesDistinct(row, slug, d.metadata, rs, bs, now);
  }

  /**
   A repeated tag costs the branches their commits: the row write stored them without, and the branches write that would
   have put them back is never reached.
   */
  lemma RepeatedTagLosesCommits(
    c: Cache, slug: Slug, node: string, core: JsonObject, latest: Json, rs: seq<Release>, bs: seq<Branch>, etag: Option<string>, now: int)
    requires !DistinctTags(rs)
    ensures var w := WriteMetadata(c, slug, FullFetch(node, core, latest, rs, bs, etag), now, NO_FAULTS);
            && slug in w.cache.repos && Field(Existing(w.cache.repos[slug]), BRANCHES).JBranches?
            && |Field(Existing(w.cache.repos[slug]), BRANCHES).branches| == |bs|
            && forall b | b in Field(Existing(w.cache.repos[slug]), BRANCHES).branches :: b.commitSha == ""
  {
    RowWriteStoresMetadata(c, slug, FullFetch(node, core, latest, rs, bs, etag), now, None);
  }

  /** The two child writes that follow the row write. */
  lemma ListsAgreeIffNamesDistinct(row: Cache, slug: Slug, md: JsonObject, rs: seq<Release>, bs: seq<Branch>, now: int)
    requires WellFormed(row) && slug in row.repos && row.repos[slug].metadata == Some(md)
    requires Field(md, RECENT_RELEASES) == JReleases(ParsedReleases(rs)) && Field(md, BRANCHES) == JBranches(ParsedBranches(bs))
    ensures var rel := WriteReleases(row, slug, rs, None, now, None);
            var w := if rel.error.Some? then rel else WriteBranches(rel.cache, slug, bs, None, now, None);
            && (FormsAgree(w.cache, slug) <==> DistinctTags(rs) && DistinctNames(bs))
            && (w.error.None? <==> DistinctTags(rs) && DistinctNames(bs))
  {
    var id := row.repos[slug].id;
    if DistinctTags(rs) {
      var rel := WriteReleases(row, slug, rs, None, now, None).cache;
      ReleasesWriteKeepsSchema(row, slug, rs, None, now, None);
      ReleasesWriteKeepsTheRest(row, slug, rs, None, now, None);
      ReleasesWriteAgrees(row, slug, rs, None, now);
      if DistinctNames(bs) {
        BranchesWriteKeepsTheRest(rel, slug, bs, None, now, None);
        BranchesWriteAgrees(rel, slug, bs, None, now);
      } else {
        assert Field(Existing(rel.repos[slug]), BRANCHES) == JBranches(ParsedBranches(bs));
        if BranchFormsAgree(rel, slug) {
          RepeatedNamesAreNoRows(BranchRows(rel, id), bs);
        }
      }
    } else {
      if ReleaseFormsAgree(row, slug) {
        RepeatedTagsAreNoRows(ReleaseRows(row, id), rs);
      }
    }
  }

  lemma RepeatedTagsAreNoRows(rows: seq<ReleaseRow>, rs: seq<Release>)
    requires UniqueTags(rows) && ProjectsReleases(rows, ParsedReleases(rs))
    ensures DistinctTags(rs)
  {
    forall i, j | 0 <= i < j < |rs|
      ensures rs[i].tagName != rs[j].tagName
    {
      assert RowMatches(rows[i], ParsedReleases(rs)[i]) && RowMatches(rows[j], ParsedReleases(rs)[j]);
    }
  }

  lemma RepeatedNamesAreNoRows(rows: seq<BranchRow>, bs: seq<Branch>)
    requires UniqueBranchNames(rows) && ProjectsBranches(rows, ParsedBranches(bs))
    ensures DistinctNames(bs)
  {
    forall i, j | 0 <= i < j < |bs|
      ensures bs[i].name != bs[j].name
    {
      assert BranchRowMatches(rows[i], ParsedBranches(bs)[i]) && BranchRowMatches(rows[j], ParsedBranches(bs)[j]);
    }
  }

  // ---------------------------------------------------------------------------------------------
  // Runs of writes.
  // ---------------------------------------------------------------------------------------------

  ghost function PerformAll(c: Cache, ops: seq<WriteOp>): Cache
    decreases |ops|
  {
    if ops == [] then c else PerformAll(Perform(c, ops[0]).cache, ops[1..])
  }

  /** A full fetch as refreshCore hands it over, or a facet write; no repeated names, no database fault. */
  ghost predicate Clean(op: WriteOp) {
    match op
    case StoreCore(_, d, _, faults) =>
      && d.releases.Some? && DistinctTags(d.releases.value)
      && d.branches.Some? && DistinctNames(d.branches.value)
      && faults == NO_FAULTS
    case StoreReleases(_, rs, _, _, fault) => DistinctTags(rs) && fault.None?
    case StoreBranches(_, bs, _, _, fault) => DistinctNames(bs) && fault.None?
    case _ => true
  }

  ghost predicate AllFormsAgree(c: Cache) { forall s | s in c.repos :: FormsAgree(c, s) }

  ghost predicate AllFlatAgree(c: Cache) { forall s | s in c.repos :: FlatAgrees(c, s) }

  lemma ListsWriteIsFramed(c: Cache, slug: Slug, d: CoreData, now: int, faults: StoreFaults, s: Slug)
    requires WellFormed(c)
    ensures var c' := WriteLists(c, slug, d, now, faults).cache;
            && WellFormed(c')
            && (s != slug ==> SameFor(c, c', s))
  {
    var rel := if d.releases.Some? then WriteReleases(c, slug, d.releases.value, None, now, faults.releases) else Written(c, None);
    if d.releases.Some? {
      ReleasesWriteKeepsSchema(c, slug, d.releases.value, None, now, faults.releases);
      if s != slug {
        ReleasesWriteKeepsOthers(c, slug, d.releases.value, None, now, faults.releases, s);
      }
    }
    if d.branches.Some? {
      BranchesWriteKeepsSchema(rel.cache, slug, d.branches.value, None, now, faults.branches);
      if s != slug {
        BranchesWriteKeepsOthers(rel.cache, slug, d.branches.value, None, now, faults.branches, s);
      }
    }
  }

  lemma ReleasesWriteFlattens(c: Cache, slug: Slug, rs: seq<Release>, etag: Option<string>, now: int, fault: Option<string>)
    requires WellFormed(c) && FlatAgrees(c, slug)
    ensures FlatAgrees(WriteReleases(c, slug, rs, etag, now, fault).cache, slug)
  {
  }

  lemma BranchesWriteFlattens(c: Cache, slug: Slug, bs: seq<Branch>, etag: Option<string>, now: int, fault: Option<string>)
    requires WellFormed(c) && FlatAgrees(c, slug)
    ensures FlatAgrees(WriteBranches(c, slug, bs, etag, now, fault).cache, slug)
  {
  }

  lemma ListsWriteFlattens(c: Cache, slug: Slug, d: CoreData, now: int, faults: StoreFaults)
    requires WellFormed(c) && FlatAgrees(c, slug)
    ensures FlatAgrees(WriteLists(c, slug, d, now, faults).cache, slug)
  {
    var rel := if d.releases.Some? then WriteReleases(c, slug, d.releases.value, None, now, faults.releases) else Written(c, None);
    if d.releases.Some? {
      ReleasesWriteKeepsSchema(c, slug, d.releases.value, None, now, faults.releases);
      ReleasesWriteFlattens(c, slug, d.releases.value, None, now, faults.releases);
    }
    if d.branches.Some? {
      BranchesWriteFlattens(rel.cache, slug, d.branches.value, None, now, faults.branches);
    }
  }

  lemma MetadataWriteIsFramed(c: Cache, slug: Slug, d: CoreData, now: int, faults: StoreFaults, s: Slug)
    requires WellFormed(c)
    ensures var c' := WriteMetadata(c, slug, d, now, faults).cache;
            && WellFormed(c')
            && (s != slug ==> SameFor(c, c', s))
  {
    RowWriteKeepsSchema(c, slug, d, now, faults.row);
    RowWriteStoresMetadata(c, slug, d, now, faults.row);
    ListsWriteIsFramed(WriteRow(c, slug, d, now, faults.row).cache, slug, d, now, faults, s);
  }

  lemma CleanMetadataWriteAgrees(c: Cache, slug: Slug, d: CoreData, now: int)
    requires WellFormed(c) && Clean(StoreCore(slug, d, now, NO_FAULTS))
    ensures FormsAgree(WriteMetadata(c, slug, d, now, NO_FAULTS).cache, slug)
  {
    RowWriteKeepsSchema(c, slug, d, now, None);
    RowWriteStoresMetadata(c, slug, d, now, None);
    CleanListsWriteAgrees(WriteRow(c, slug, d, now, None).cache, slug, d, now);
  }

  lemma CleanListsWriteAgrees(row: Cache, slug: Slug, d: CoreData, now: int)
    requires WellFormed(row) && slug in row.repos && Clean(StoreCore(slug, d, now, NO_FAULTS))
    ensures FormsAgree(WriteLists(row, slug, d, now, NO_FAULTS).cache, slug)
  {
  }

  /** The flat columns come from core keys only, so no facet write can make them stale. */
  lemma FacetKeysDoNotFlatten(md: JsonObject, md': JsonObject)
    requires SameOutside(md, md', {LATEST_RELEASE, RECENT_RELEASES, RELEASE_COUNT}) || SameOutside(md, md', {BRANCHES})
    ensures Flatten(md) == Flatten(md')
  {
    var core := ["defaultBranch", "description", "private", "stars", "forks", "watchers", "language", "license", "topics",
                 "homepage", "archived", "createdAt", "updatedAt", "pushedAt"];
    forall i | 0 <= i < |core|
      ensures Field(md, core[i]) == Field(md', core[i])
    {
      var k := core[i];
      assert k !in {LATEST_RELEASE, RECENT_RELEASES, RELEASE_COUNT} && k !in {BRANCHES} by {
        FacetKeysAreNotCore(core, i);
      }
      assert k in md <==> k in md' by {
        assert k in md.Keys - {BRANCHES} <==> k in md;
        assert k in md.Keys - {LATEST_RELEASE, RECENT_RELEASES, RELEASE_COUNT} <==> k in md;
        assert k in md'.Keys - {BRANCHES} <==> k in md';
        assert k in md'.Keys - {LATEST_RELEASE, RECENT_RELEASES, RELEASE_COUNT} <==> k in md';
      }
    }
    assert forall i | 0 <= i < |core| :: Field(md, core[i]) == Field(md', core[i]);
    assert core[0] == "defaultBranch" && core[1] == "description" && core[2] == "private" && core[3] == "stars";
    assert core[4] == "forks" && core[5] == "watchers" && core[6] == "language" && core[7] == "license";
    assert core[8] == "topics" && core[9] == "homepage" && core[10] == "archived";
    assert core[11] == "createdAt" && core[12] == "updatedAt" && core[13] == "pushedAt";
  }

  lemma FacetKeysAreNotCore(core: seq<string>, i: nat)
    requires core == ["defaultBranch", "description", "private", "stars", "forks", "watchers", "language", "license", "topics",
                      "homepage", "archived", "createdAt", "updatedAt", "pushedAt"]
    requires i < |core|
    ensures core[i] !in FACET_KEYS
  {
  }

  lemma TouchKeepsSchema(c: Cache, slug: Slug, now: int, facet: Facet)
    requires WellFormed(c)
    ensures WellFormed(Touch(c, slug, now, facet))
  {
  }

  lemma DeleteKeepsSchema(c: Cache, slug: Slug)
    requires WellFormed(c)
    ensures WellFormed(DeleteRepo(c, slug))
  {
  }

  lemma StepKeepsSchema(c: Cache, op: WriteOp)
    requires WellFormed(c)
    ensures WellFormed(Perform(c, op).cache)
  {
    match op {
      case StoreCore(slug, d, now, faults) => MetadataWriteIsFramed(c, slug, d, now, faults, slug);
      case StoreReleases(slug, rs, etag, now, fault) => ReleasesWriteKeepsSchema(c, slug, rs, etag, now, fault);
      case StoreBranches(slug, bs, etag, now, fault) => BranchesWriteKeepsSchema(c, slug, bs, etag, now, fault);
      case NotModified(slug, facet, now) => TouchKeepsSchema(c, slug, now, facet);
      case Delete(slug) => DeleteKeepsSchema(c, slug);
    }
  }

  /** No write touches the rows of another repository, in any table. */
  lemma StepKeepsOthers(c: Cache, op: WriteOp, s: Slug)
    requires WellFormed(c) && s != op.slug
    ensures SameFor(c, Perform(c, op).cache, s)
  {
    hide WriteMetadata, WriteReleases, WriteBranches;
    match op {
      case StoreCore(slug, d, now, faults) => MetadataWriteIsFramed(c, slug, d, now, faults, s);
      case StoreReleases(slug, rs, etag, now, fault) => ReleasesWriteKeepsOthers(c, slug, rs, etag, now, fault, s);
      case StoreBranches(slug, bs, etag, now, fault) => BranchesWriteKeepsOthers(c, slug, bs, etag, now, fault, s);
      case NotModified(slug, facet, now) =>
      case Delete(slug) =>
    }
  }

  lemma StepFlattens(c: Cache, op: WriteOp)
    requires WellFormed(c) && FlatAgrees(c, op.slug)
    ensures FlatAgrees(Perform(c, op).cache, op.slug)
  {
    match op {
      case StoreCore(slug, d, now, faults) =>
        RowWriteKeepsSchema(c, slug, d, now, faults.row);
        RowWriteStoresMetadata(c, slug, d, now, faults.row);
        ListsWriteFlattens(WriteRow(c, slug, d, now, faults.row).cache, slug, d, now, faults);
      case StoreReleases(slug, rs, etag, now, fault) => ReleasesWriteFlattens(c, slug, rs, etag, now, fault);
      case StoreBranches(slug, bs, etag, now, fault) => BranchesWriteFlattens(c, slug, bs, etag, now, fault);
      case NotModified(slug, facet, now) =>
      case Delete(slug) =>
    }
  }

  lemma StepAgrees(c: Cache, op: WriteOp)
    requires WellFormed(c) && Clean(op) && (op.slug in c.repos ==> FormsAgree(c, op.slug))
    ensures op.slug in Perform(c, op).cache.repos ==> FormsAgree(Perform(c, op).cache, op.slug)
  {
    match op {
      case StoreCore(slug, d, now, faults) =>
        CleanMetadataWriteAgrees(c, slug, d, now);
      case StoreReleases(slug, rs, etag, now, fault) =>
        if slug in c.repos {
          ReleasesWriteKeepsTheRest(c, slug, rs, etag, now, fault);
          ReleasesWriteAgrees(c, slug, rs, etag, now);
        }
      case StoreBranches(slug, bs, etag, now, fault) =>
        if slug in c.repos {
          BranchesWriteKeepsTheRest(c, slug, bs, etag, now, fault);
          BranchesWriteAgrees(c, slug, bs, etag, now);
        }
      case NotModified(slug, facet, now) =>
      case Delete(slug) =>
    }
  }

  /** Along every run of clean writes from a cache whose forms agree (the empty one, say), they agree at the end. */
  lemma {:induction false} FormsAgreeAlongRuns(c: Cache, ops: seq<WriteOp>)
    requires WellFormed(c) && AllFormsAgree(c)
    requires forall op | op in ops :: Clean(op)
    ensures WellFormed(PerformAll(c, ops)) && AllFormsAgree(PerformAll(c, ops))
    decreases |ops|
  {
    if ops != [] {
      var c' := Perform(c, ops[0]).cache;
      StepKeepsSchema(c, ops[0]);
      forall s | s in c'.repos
        ensures FormsAgree(c', s)
      {
        if s == ops[0].slug {
          StepAgrees(c, ops[0]);
        } else {
          StepKeepsOthers(c, ops[0], s);
        }
      }
      FormsAgreeAlongRuns(Perform(c, ops[0]).cache, ops[1..]);
    }
  }

  /** The flat columns stay the flattening of the metadata along every run, faults and repeated names included. */
  lemma {:induction false} FlatColumnsAgreeAlongRuns(c: Cache, ops: seq<WriteOp>)
    requires WellFormed(c) && AllFlatAgree(c)
    ensures WellFormed(PerformAll(c, ops)) && AllFlatAgree(PerformAll(c, ops))
    decreases |ops|
  {
    if ops != [] {
      var c' := Perform(c, ops[0]).cache;
      StepKeepsSchema(c, ops[0]);
      forall s | s in c'.repos
        ensures FlatAgrees(c', s)
      {
        if s == ops[0].slug {
          StepFlattens(c, ops[0]);
        } else {
          StepKeepsOthers(c, ops[0], s);
        }
      }
      FlatColumnsAgreeAlongRuns(Perform(c, ops[0]).cache, ops[1..]);
    }
  }
}
