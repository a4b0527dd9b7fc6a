/**
 src/lib/cache/write.ts: one repository is stored twice, as a metadata JSON object (plus flat,
 indexed columns) on the `repositories` row and as rows of the child tables `repo_releases` and
 `repo_branches`. The functions say what each database transaction leaves behind; class `CacheDb`
 performs the writes in the source's order and is proved against them.
 */
module Store {
  import opened Common

  datatype FetchStatus = Ok | NotFound | Forbidden | Error

  datatype Release = Release(
    tagName: string, title: Option<string>, publishedAt: Option<int>, htmlUrl: string,
    prerelease: bool, draft: bool, tarballUrl: Option<string>, zipballUrl: Option<string>, assetsCount: nat)

  datatype Branch = Branch(name: string, isProtected: bool, commitSha: string)

  /** Values that occur in the metadata object. A text comes with the instant that `new Date` reads in it, if any. */
  datatype Json =
    | JNull
    | JBool(flag: bool)
    | JNum(num: int)
    | JText(text: string, instant: Option<int>)
    | JTexts(texts: seq<string>)
    | JRelease(release: Release)
    | JReleases(releases: seq<Release>)
    | JBranches(branches: seq<Branch>)

  type JsonObject = map<string, Json>

  const LATEST_RELEASE := "latestRelease"
  const RECENT_RELEASES := "recentReleases"
  const RELEASE_COUNT := "releaseCount"
  const BRANCHES := "branches"

  /** The keys the per-facet writers own. Every other key belongs to the core fetch. */
  const FACET_KEYS: set<string> := {LATEST_RELEASE, RECENT_RELEASES, RELEASE_COUNT, BRANCHES}

  /** The indexed flat columns; the last three are GitHub's own dates. */
  datatype Flat = Flat(
    defaultBranch: string, description: Option<string>, isPrivate: bool, stars: int, forks: int, watchers: int,
    language: Option<string>, license: Option<string>, topics: seq<string>, homepage: Option<string>, archived: bool,
    repoCreatedAt: Option<int>, repoUpdatedAt: Option<int>, repoPushedAt: Option<int>)

  function Field(md: JsonObject, key: string): Json { if key in md then md[key] else JNull }

  function ToBool(v: Json): bool {
    match v
    case JNull => false
    case JBool(b) => b
    case JNum(n) => n != 0
    case JText(t, _) => t != ""
    case _ => true
  }

  function ToInt(v: Json): int { if v.JNum? then v.num else 0 }

  function ToStr(v: Json): Option<string> { if v.JText? then Some(v.text) else None }

  /** An empty text and one that is no date give null. */
  function ToDate(v: Json): Option<int> { if v.JText? && v.text != "" then v.instant else None }

  /** The columns `storeRepoMetadata` extracts from the metadata object. */
  function Flatten(md: JsonObject): Flat {
    Flat(
      if Field(md, "defaultBranch").JText? then Field(md, "defaultBranch").text else "main",
      ToStr(Field(md, "description")), ToBool(Field(md, "private")),
      ToInt(Field(md, "stars")), ToInt(Field(md, "forks")), ToInt(Field(md, "watchers")),
      ToStr(Field(md, "language")), ToStr(Field(md, "license")),
      if Field(md, "topics").JTexts? then Field(md, "topics").texts else [],
      ToStr(Field(md, "homepage")), ToBool(Field(md, "archived")),
      ToDate(Field(md, "createdAt")), ToDate(Field(md, "updatedAt")), ToDate(Field(md, "pushedAt")))
  }

  /** A row of `repositories`. `metadata` is nullable in the schema. */
  datatype Repo = Repo(
    id: nat, node: string, metadata: Option<JsonObject>, flat: Flat,
    etag: Option<string>, releasesEtag: Option<string>, branchesEtag: Option<string>,
    lastFetchedAt: Option<int>, releasesFetchedAt: Option<int>, branchesFetchedAt: Option<int>,
    fetchStatus: FetchStatus, fetchError: Option<string>)

  datatype ReleaseRow = ReleaseRow(tag: string, title: Option<string>, publishedAt: int, prerelease: bool, draft: bool)

  datatype BranchRow = BranchRow(name: string, isProtected: bool, lastCommitSha: string)

  /** The three tables; child rows are grouped by `repositoryId`. */
  datatype Cache = Cache(
    repos: map<Slug, Repo>, releases: map<nat, seq<ReleaseRow>>, branches: map<nat, seq<BranchRow>>, nextId: nat)

  const EMPTY := Cache(map[], map[], map[], 0)

  function ReleaseRows(c: Cache, id: nat): seq<ReleaseRow> { if id in c.releases then c.releases[id] else [] }

  function BranchRows(c: Cache, id: nat): seq<BranchRow> { if id in c.branches then c.branches[id] else [] }

  ghost predicate DistinctTags(rs: seq<Release>) {
    forall i, j | 0 <= i < j < |rs| :: rs[i].tagName != rs[j].tagName
  }

  ghost predicate DistinctNames(bs: seq<Branch>) {
    forall i, j | 0 <= i < j < |bs| :: bs[i].name != bs[j].name
  }

  /** What the schema guarantees: unique ids and slugs, unique (repositoryId, tag) and (repositoryId, name). */
  ghost predicate WellFormed(c: Cache) {
    && (forall s | s in c.repos :: c.repos[s].id < c.nextId)
    && (forall s, t | s in c.repos && t in c.repos && s != t :: c.repos[s].id != c.repos[t].id)
    && (forall i | i in c.releases :: i < c.nextId && UniqueTags(c.releases[i]))
    && (forall i | i in c.branches :: i < c.nextId && UniqueBranchNames(c.branches[i]))
  }

  ghost predicate UniqueTags(rows: seq<ReleaseRow>) {
    forall i, j | 0 <= i < j < |rows| :: rows[i].tag != rows[j].tag
  }

  ghost predicate UniqueBranchNames(rows: seq<BranchRow>) {
    forall i, j | 0 <= i < j < |rows| :: rows[i].name != rows[j].name
  }

  function ToReleaseRow(r: Release, now: int): ReleaseRow {
    ReleaseRow(r.tagName, r.title, if r.publishedAt.Some? then r.publishedAt.value else now, r.prerelease, r.draft)
  }

  function ToBranchRow(b: Branch): BranchRow { BranchRow(b.name, b.isProtected, b.commitSha) }

  function ToReleaseRows(rs: seq<Release>, now: int): seq<ReleaseRow> {
    seq(|rs|, i requires 0 <= i < |rs| => ToReleaseRow(rs[i], now))
  }

  function ToBranchRows(bs: seq<Branch>): seq<BranchRow> {
    seq(|bs|, i requires 0 <= i < |bs| => ToBranchRow(bs[i]))
  }

  function LatestOf(rs: seq<Release>): Json { if rs == [] then JNull else JRelease(rs[0]) }

  function Existing(repo: Repo): JsonObject { if repo.metadata.Some? then repo.metadata.value else map[] }

  function MergeReleases(md: JsonObject, rs: seq<Release>): JsonObject {
    md[LATEST_RELEASE := LatestOf(rs)][RECENT_RELEASES := JReleases(rs)][RELEASE_COUNT := JNum(|rs|)]
  }

  function MergeBranches(md: JsonObject, bs: seq<Branch>): JsonObject { md[BRANCHES := JBranches(bs)] }

  // ---------------------------------------------------------------------------------------------
  // One transaction each. A write either commits or throws and has no effect; `fault` is the error
  // the database raises of its own accord, and a repeated tag or branch name breaks a unique key.
  // ---------------------------------------------------------------------------------------------

  const UNIQUE_VIOLATION := "Unique constraint failed"

  datatype Written = Written(cache: Cache, error: Option<string>)

  ghost function WriteReleases(c: Cache, slug: Slug, rs: seq<Release>, etag: Option<string>, now: int, fault: Option<string>): Written {
    if slug !in c.repos then Written(c, None)
    else if fault.Some? then Written(c, fault)
    else if !DistinctTags(rs) then Written(c, Some(UNIQUE_VIOLATION))
    else
      var repo := c.repos[slug];
      Written(c.(releases := c.releases[repo.id := ToReleaseRows(rs, now)],
                 repos := c.repos[slug := repo.(releasesFetchedAt := Some(now),
                                                releasesEtag := if etag.Some? then etag else repo.releasesEtag,
                                                metadata := Some(MergeReleases(Existing(repo), rs)))]), None)
  }

  ghost function WriteBranches(c: Cache, slug: Slug, bs: seq<Branch>, etag: Option<string>, now: int, fault: Option<string>): Written {
    if slug !in c.repos then Written(c, None)
    else if fault.Some? then Written(c, fault)
    else if !DistinctNames(bs) then Written(c, Some(UNIQUE_VIOLATION))
    else
      var repo := c.repos[slug];
      Written(c.(branches := c.branches[repo.id := ToBranchRows(bs)],
                 repos := c.repos[slug := repo.(branchesFetchedAt := Some(now),
                                                branchesEtag := if etag.Some? then etag else repo.branchesEtag,
                                                metadata := Some(MergeBranches(Existing(repo), bs)))]), None)
  }

  /** The arguments of `storeRepoMetadata` other than the slug. */
  datatype CoreData = CoreData(
    node: string, metadata: JsonObject, etag: Option<string>,
    releases: Option<seq<Release>>, branches: Option<seq<Branch>>, fetchStatus: FetchStatus, fetchError: Option<string>)

  function FreshRow(id: nat, d: CoreData, now: int): Repo {
    Repo(id, d.node, Some(d.metadata), Flatten(d.metadata), d.etag, None, None, Some(now), None, None, d.fetchStatus, d.fetchError)
  }

  /** An update touches exactly the columns of `baseData`; facet etags and timestamps stay. */
  function UpdatedRow(old_: Repo, d: CoreData, now: int): Repo {
    FreshRow(old_.id, d, now).(releasesEtag := old_.releasesEtag, branchesEtag := old_.branchesEtag,
                               releasesFetchedAt := old_.releasesFetchedAt, branchesFetchedAt := old_.branchesFetchedAt)
  }

  function WriteRow(c: Cache, slug: Slug, d: CoreData, now: int, fault: Option<string>): Written {
    if fault.Some? then Written(c, fault)
    else if slug in c.repos then Written(c.(repos := c.repos[slug := UpdatedRow(c.repos[slug], d, now)]), None)
    else Written(c.(repos := c.repos[slug := FreshRow(c.nextId, d, now)], nextId := c.nextId + 1), None)
  }

  datatype StoreFaults = StoreFaults(row: Option<string>, releases: Option<string>, branches: Option<string>)

  const NO_FAULTS := StoreFaults(None, None, None)

  /** The child tables that were supplied, releases first; the first error stops it. */
  ghost function WriteLists(c: Cache, slug: Slug, d: CoreData, now: int, faults: StoreFaults): Written {
    var rel := if d.releases.Some? then WriteReleases(c, slug, d.releases.value, None, now, faults.releases) else Written(c, None);
    if rel.error.None? && d.branches.Some? then WriteBranches(rel.cache, slug, d.branches.value, None, now, faults.branches)
    else rel
  }

  /** `storeRepoMetadata`: the row first, then the lists. */
  ghost function WriteMetadata(c: Cache, slug: Slug, d: CoreData, now: int, faults: StoreFaults): Written {
    var row := WriteRow(c, slug, d, now, faults.row);
    if row.error.Some? then row else WriteLists(row.cache, slug, d, now, faults)
  }

  function TouchCore(c: Cache, slug: Slug, now: int): Cache {
    if slug in c.repos then c.(repos := c.repos[slug := c.repos[slug].(lastFetchedAt := Some(now))]) else c
  }

  function TouchReleases(c: Cache, slug: Slug, now: int): Cache {
    if slug in c.repos then c.(repos := c.repos[slug := c.repos[slug].(releasesFetchedAt := Some(now))]) else c
  }

  function TouchBranches(c: Cache, slug: Slug, now: int): Cache {
    if slug in c.repos then c.(repos := c.repos[slug := c.repos[slug].(branchesFetchedAt := Some(now))]) else c
  }

  /** `deleteMany` on the row; both child tables cascade. */
  function DeleteRepo(c: Cache, slug: Slug): Cache {
    if slug !in c.repos then c
    else
      var id := c.repos[slug].id;
      c.(repos := c.repos - {slug}, releases := c.releases - {id}, branches := c.branches - {id})
  }

  // ---------------------------------------------------------------------------------------------
  // The writer itself.
  // ---------------------------------------------------------------------------------------------

  method TagsAreDistinct(rs: seq<Release>) returns (distinct: bool)
    ensures distinct <==> DistinctTags(rs)
  {
    var seen: set<string> := {};
    for i := 0 to |rs|
      invariant seen == set k | 0 <= k < i :: rs[k].tagName
      invariant DistinctTags(rs[..i])
    {
      if rs[i].tagName in seen {
        return false;
      }
      seen := seen + {rs[i].tagName};
    }
    assert rs[..|rs|] == rs;
    return true;
  }

  method NamesAreDistinct(bs: seq<Branch>) returns (distinct: bool)
    ensures distinct <==> DistinctNames(bs)
  {
    var seen: set<string> := {};
    for i := 0 to |bs|
      invariant seen == set k | 0 <= k < i :: bs[k].name
      invariant DistinctNames(bs[..i])
    {
      if bs[i].name in seen {
        return false;
      }
      seen := seen + {bs[i].name};
    }
    assert bs[..|bs|] == bs;
    return true;
  }

  class CacheDb {
    var repos: map<Slug, Repo>
    var releases: map<nat, seq<ReleaseRow>>
    var branches: map<nat, seq<BranchRow>>
    var nextId: nat

    ghost function View(): Cache
      reads this
    {
      Cache(repos, releases, branches, nextId)
    }

    constructor ()
      ensures View() == EMPTY
    {
      repos, releases, branches, nextId := map[], map[], map[], 0;
    }

    method FindRepo(slug: Slug) returns (repo: Option<Repo>)
      ensures repo == if slug in repos then Some(repos[slug]) else None
    {
      repo := if slug in repos then Some(repos[slug]) else None;
    }

    /** Read-merge-write of the metadata object, then the three-statement transaction. */
    method StoreRepoReleases(slug: Slug, rs: seq<Release>, etag: Option<string>, now: int, fault: Option<string>)
      returns (error: Option<string>)
      modifies this
      ensures Written(View(), error) == WriteReleases(old(View()), slug, rs, etag, now, fault)
    {
      var found := FindRepo(slug);
      if found.None? {
        return None;
      }
      var repo := found.value;
      var merged := MergeReleases(Existing(repo), rs);
      if fault.Some? {
        return fault;
      }
      var distinct := TagsAreDistinct(rs);
      if !distinct {
        return Some(UNIQUE_VIOLATION);
      }
      var rows := releases - {repo.id};
      rows := rows[repo.id := ToReleaseRows(rs, now)];
      assert rows == releases[repo.id := ToReleaseRows(rs, now)];
      releases := rows;
      repos := repos[slug := repo.(releasesFetchedAt := Some(now),
                                   releasesEtag := if etag.Some? then etag else repo.releasesEtag,
                                   metadata := Some(merged))];
      return None;
    }

    method StoreRepoBranches(slug: Slug, bs: seq<Branch>, etag: Option<string>, now: int, fault: Option<string>)
      returns (error: Option<string>)
      modifies this
      ensures Written(View(), error) == WriteBranches(old(View()), slug, bs, etag, now, fault)
    {
      var found := FindRepo(slug);
      if found.None? {
        return None;
      }
      var repo := found.value;
      var merged := MergeBranches(Existing(repo), bs);
      if fault.Some? {
        return fault;
      }
      var distinct := NamesAreDistinct(bs);
      if !distinct {
        return Some(UNIQUE_VIOLATION);
      }
      var rows := branches - {repo.id};
      rows := rows[repo.id := ToBranchRows(bs)];
      assert rows == branches[repo.id := ToBranchRows(bs)];
      branches := rows;
      repos := repos[slug := repo.(branchesFetchedAt := Some(now),
                                   branchesEtag := if etag.Some? then etag else repo.branchesEtag,
                                   metadata := Some(merged))];
      return None;
    }

    /** Without a competing writer; module CreateRace adds the competitors. */
    method StoreRepoMetadata(slug: Slug, d: CoreData, now: int, faults: StoreFaults) returns (error: Option<string>)
      modifies this
      ensures Written(View(), error) == WriteMetadata(old(View()), slug, d, now, faults)
    {
      var existing := FindRepo(slug);
      if faults.row.Some? {
        return faults.row;
      }
      if existing.Some? {
        repos := repos[slug := UpdatedRow(existing.value, d, now)];
      } else {
        repos := repos[slug := FreshRow(nextId, d, now)];
        nextId := nextId + 1;
      }
      if d.releases.Some? {
        error := StoreRepoReleases(slug, d.releases.value, None, now, faults.releases);
        if error.Some? {
          return;
        }
      }
      if d.branches.Some? {
        error := StoreRepoBranches(slug, d.branches.value, None, now, faults.branches);
        return;
      }
      return None;
    }

    method Touch304(slug: Slug, now: int, facet: Facet)
      modifies this
      ensures View() == Touch(old(View()), slug, now, facet)
    {
      if slug in repos {
        var repo := repos[slug];
        match facet
        case CoreFacet => repos := repos[slug := repo.(lastFetchedAt := Some(now))];
        case ReleasesFacet => repos := repos[slug := repo.(releasesFetchedAt := Some(now))];
        case BranchesFacet => repos := repos[slug := repo.(branchesFetchedAt := Some(now))];
      }
    }

    method DeleteRepoRow(slug: Slug)
      modifies this
      ensures View() == DeleteRepo(old(View()), slug)
    {
      if slug in repos {
        var id := repos[slug].id;
        repos := repos - {slug};
        releases := releases - {id};
        branches := branches - {id};
      }
    }
  }

  datatype Facet = CoreFacet | ReleasesFacet | BranchesFacet

  function Touch(c: Cache, slug: Slug, now: int, facet: Facet): Cache {
    match facet
    case CoreFacet => TouchCore(c, slug, now)
    case ReleasesFacet => TouchReleases(c, slug, now)
    case BranchesFacet => TouchBranches(c, slug, now)
  }

  /** One call of a writer, or one statement on the row, as other modules refer to it. */
  datatype WriteOp =
    | StoreCore(slug: Slug, d: CoreData, now: int, faults: StoreFaults)
    | StoreReleases(slug: Slug, rs: seq<Release>, etag: Option<string>, now: int, fault: Option<string>)
    | StoreBranches(slug: Slug, bs: seq<Branch>, etag: Option<string>, now: int, fault: Option<string>)
    | NotModified(slug: Slug, facet: Facet, now: int)
    | Delete(slug: Slug)

  ghost function Perform(c: Cache, op: WriteOp): Written {
    match op
    case StoreCore(slug, d, now, faults) => WriteMetadata(c, slug, d, now, faults)
    case StoreReleases(slug, rs, etag, now, fault) => WriteReleases(c, slug, rs, etag, now, fault)
    case StoreBranches(slug, bs, etag, now, fault) => WriteBranches(c, slug, bs, etag, now, fault)
    case NotModified(slug, facet, now) => Written(Touch(c, slug, now, facet), None)
    case Delete(slug) => Written(DeleteRepo(c, slug), None)
  }
}
