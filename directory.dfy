/**
 * The directory listing of the frontend: the canonical directory URL, the
 * assembly of a Directory from the flat list of packages below a path, and
 * the argument and error handling around fetching that list.
 */
module Directory {
  import opened Internal
  import opened Paths

  /**
   * Helpers defined in other files of the frontend and `internal` packages.
   * They are parameters of the model, so every property below holds
   * whatever they compute.
   */
  datatype Helpers = Helpers(
    suffix: (string, string) -> string,        // internal.Suffix(fullPath, dirPath)
    effectiveName: (string, string) -> string, // effectiveName(path, name)
    linkVersion: (string, string) -> string)   // linkVersion(version, modulePath)

  /** The package view record of a listing row. */
  datatype Package = Package(
    path: string,
    name: string,
    synopsis: string,
    isRedistributable: bool,
    pathAfterDirectory: string)

  /** The header of a directory page: module identity, directory path and its URL. */
  datatype DirectoryHeader = DirectoryHeader(moduleInfo: ModuleInfo, licenses: seq<License>, path: string, url: string)

  /** A directory: its header and the packages at or below it. */
  datatype Directory = Directory(header: DirectoryHeader, packages: seq<Package>)

  /**
   * The data source a directory is fetched from. Only the database-backed
   * source can list the packages in a unit; `getPackagesInUnit` is its query
   * for (path, module path, version).
   */
  datatype DataSource = DataSource(
    supportsDirectories: bool,
    getPackagesInUnit: (string, string, string) -> Result<seq<PackageMeta>>)

  // ---------------------------------------------------------------------------
  // URLs

  /** The canonical URL of a directory, for the version given by the link version. */
  function ConstructDirectoryURL(dirPath: string, modulePath: string, linkVersion: string): (url: string)
    ensures |url| > 0 && url[0] == '/'
  {
    if linkVersion == LatestVersion then "/" + dirPath
    else if dirPath == modulePath || modulePath == StdlibModulePath then "/" + dirPath + "@" + linkVersion
    else "/" + modulePath + "@" + linkVersion + "/" + TrimPrefix(dirPath, modulePath + "/")
  }

  /**
   * Reads a directory URL back: the path before the first '@' (with the part
   * after the version appended as a sub-directory) and the version, or the
   * latest pseudo-version when there is no '@'.
   */
  function ParseDirectoryURL(url: string): (r: Option<(string, string)>)
    ensures r.Some? <==> |url| > 0 && url[0] == '/'
  {
    if |url| == 0 || url[0] != '/' then None
    else
      var (head, rest, hasVersion) := Cut(url[1..], '@');
      if !hasVersion then Some((head, LatestVersion))
      else
        var (version, sub, hasSub) := Cut(rest, '/');
        if hasSub then Some((head + "/" + sub, version)) else Some((head, version))
  }

  /** A directory path belongs to a module: it is its root, below it, or in the standard library. */
  predicate InModule(dirPath: string, modulePath: string)
  {
    dirPath == modulePath || modulePath == StdlibModulePath || HasPrefix(dirPath, modulePath + "/")
  }

  /** A URL without '@' reads back as the path at the latest version. */
  lemma ParseLatestURL(path: string)
    requires '@' !in path
    ensures ParseDirectoryURL("/" + path) == Some((path, LatestVersion))
  {
    assert ("/" + path)[1..] == path;
    CutAbsent(path, '@');
  }

  /** A URL "/path@version" reads back as the path at that version. */
  lemma ParseVersionedURL(path: string, version: string)
    requires '@' !in path && '/' !in version
    ensures ParseDirectoryURL("/" + path + "@" + version) == Some((path, version))
  {
    var url := "/" + path + "@" + version;
    assert url[1..] == path + ['@'] + version;
    CutAt(path, '@', version);
    CutAbsent(version, '/');
  }

  /** A URL "/module@version/sub" reads back as the directory module/sub at that version. */
  lemma ParseVersionedSubURL(modulePath: string, version: string, sub: string)
    requires '@' !in modulePath && '/' !in version
    ensures ParseDirectoryURL("/" + modulePath + "@" + version + "/" + sub) == Some((modulePath + "/" + sub, version))
  {
    var url := "/" + modulePath + "@" + version + "/" + sub;
    var rest := version + ['/'] + sub;
    assert url[1..] == modulePath + ['@'] + rest;
    CutAt(modulePath, '@', rest);
    CutAt(version, '/', sub);
  }

  /**
   * The directory URL round-trips: reading it back gives the directory path
   * and the link version, for every directory of its module.
   */
  lemma DirectoryURLRoundTrip(dirPath: string, modulePath: string, linkVersion: string)
    requires '@' !in dirPath && '@' !in modulePath && '/' !in linkVersion
    requires InModule(dirPath, modulePath)
    ensures ParseDirectoryURL(ConstructDirectoryURL(dirPath, modulePath, linkVersion)) == Some((dirPath, linkVersion))
  {
    if linkVersion == LatestVersion {
      ParseLatestURL(dirPath);
    } else if dirPath == modulePath || modulePath == StdlibModulePath {
      ParseVersionedURL(dirPath, linkVersion);
    } else {
      var sub := TrimPrefix(dirPath, modulePath + "/");
      assert modulePath + "/" + sub == dirPath;
      ParseVersionedSubURL(modulePath, linkVersion, sub);
    }
  }

  /**
   * The URL carries a version segment exactly when the link version is not
   * the latest pseudo-version; for latest it is the bare directory path.
   */
  lemma DirectoryURLVersionSegment(dirPath: string, modulePath: string, linkVersion: string)
    requires '@' !in dirPath && '@' !in modulePath
    ensures var url := ConstructDirectoryURL(dirPath, modulePath, linkVersion);
            && ('@' in url <==> linkVersion != LatestVersion)
            && (linkVersion == LatestVersion ==> url == "/" + dirPath)
  {
    var url := ConstructDirectoryURL(dirPath, modulePath, linkVersion);
    if linkVersion == LatestVersion {
      assert url[1..] == dirPath;
    } else if dirPath == modulePath || modulePath == StdlibModulePath {
      assert url[1 + |dirPath|] == '@';
    } else {
      assert url[1 + |modulePath|] == '@';
    }
  }

  /**
   * For a directory outside its module the prefix is not stripped: the URL
   * repeats the whole directory path after the version, and reading it back
   * gives a different directory.
   */
  lemma DirectoryURLOutsideModule(dirPath: string, modulePath: string, linkVersion: string)
    requires '@' !in dirPath && '@' !in modulePath && '/' !in linkVersion
    requires !InModule(dirPath, modulePath) && linkVersion != LatestVersion
    ensures ConstructDirectoryURL(dirPath, modulePath, linkVersion) == "/" + modulePath + "@" + linkVersion + "/" + dirPath
    ensures ParseDirectoryURL(ConstructDirectoryURL(dirPath, modulePath, linkVersion)) == Some((modulePath + "/" + dirPath, linkVersion))
    ensures modulePath + "/" + dirPath != dirPath
  {
    assert TrimPrefix(dirPath, modulePath + "/") == dirPath;
    ParseVersionedSubURL(modulePath, linkVersion, dirPath);
    assert |modulePath + "/" + dirPath| > |dirPath|;
  }

  // ---------------------------------------------------------------------------
  // Listing

  /** createPackage: the view record of a package, before the listing fills in its relative path. */
  function CreatePackage(pm: PackageMeta): (p: Package)
    ensures p.path == pm.path && p.name == pm.name && p.isRedistributable == pm.isRedistributable
  {
    Package(pm.path, pm.name, pm.synopsis, pm.isRedistributable, "")
  }

  /** Whether a package is listed: the directory's own package only when it is asked for. */
  predicate Listed(dirPath: string, pm: PackageMeta, includeDirPath: bool)
  {
    includeDirPath || pm.path != dirPath
  }

  /** The listing row of one package: its path relative to the directory, or a "(root)" label. */
  function ListingEntry(h: Helpers, dirPath: string, pm: PackageMeta): (p: Package)
    ensures p.path == pm.path && p.name == pm.name && p.synopsis == pm.synopsis
    ensures p.isRedistributable == pm.isRedistributable
    ensures p.pathAfterDirectory != ""
    ensures h.suffix(pm.path, dirPath) == "" ==> p.pathAfterDirectory == h.effectiveName(pm.path, pm.name) + " (root)"
    ensures h.suffix(pm.path, dirPath) != "" ==> p.pathAfterDirectory == h.suffix(pm.path, dirPath)
  {
    var after := h.suffix(pm.path, dirPath);
    CreatePackage(pm).(
      synopsis := pm.synopsis,
      pathAfterDirectory := if after == "" then h.effectiveName(pm.path, pm.name) + " (root)" else after)
  }

  /** The rows of a listing in input order, before sorting. */
  function Listing(h: Helpers, dirPath: string, pms: seq<PackageMeta>, includeDirPath: bool): (r: seq<Package>)
    ensures |r| <= |pms|
  {
    if pms == [] then []
    else
      var pm := pms[|pms| - 1];
      Listing(h, dirPath, pms[..|pms| - 1], includeDirPath)
        + (if Listed(dirPath, pm, includeDirPath) then [ListingEntry(h, dirPath, pm)] else [])
  }

  /** Every row of the listing is the row of a listed input package. */
  lemma {:induction false} ListingSound(h: Helpers, dirPath: string, pms: seq<PackageMeta>, includeDirPath: bool, p: Package)
    requires p in Listing(h, dirPath, pms, includeDirPath)
    ensures exists i :: 0 <= i < |pms| && Listed(dirPath, pms[i], includeDirPath) && p == ListingEntry(h, dirPath, pms[i])
  {
    var n := |pms| - 1;
    if p !in Listing(h, dirPath, pms[..n], includeDirPath) {
      assert Listed(dirPath, pms[n], includeDirPath) && p == ListingEntry(h, dirPath, pms[n]);
    } else {
      ListingSound(h, dirPath, pms[..n], includeDirPath, p);
      var i :| 0 <= i < n && Listed(dirPath, pms[..n][i], includeDirPath) && p == ListingEntry(h, dirPath, pms[..n][i]);
      assert pms[..n][i] == pms[i];
    }
  }

  /** Every listed input package has its row in the listing. */
  lemma {:induction false} ListingComplete(h: Helpers, dirPath: string, pms: seq<PackageMeta>, includeDirPath: bool, i: nat)
    requires i < |pms| && Listed(dirPath, pms[i], includeDirPath)
    ensures ListingEntry(h, dirPath, pms[i]) in Listing(h, dirPath, pms, includeDirPath)
  {
    var n := |pms| - 1;
    if i < n {
      assert pms[..n][i] == pms[i];
      ListingComplete(h, dirPath, pms[..n], includeDirPath, i);
    }
  }

  /** Without includeDirPath no row is the directory itself. */
  lemma ListingExcludesDirPath(h: Helpers, dirPath: string, pms: seq<PackageMeta>)
    ensures forall p :: p in Listing(h, dirPath, pms, false) ==> p.path != dirPath
  {
    forall p | p in Listing(h, dirPath, pms, false)
      ensures p.path != dirPath
    {
      ListingSound(h, dirPath, pms, false, p);
    }
  }

  /** With includeDirPath every input package has a row: nothing is dropped. */
  lemma {:induction false} ListingKeepsAll(h: Helpers, dirPath: string, pms: seq<PackageMeta>)
    ensures |Listing(h, dirPath, pms, true)| == |pms|
  {
    if pms != [] {
      ListingKeepsAll(h, dirPath, pms[..|pms| - 1]);
    }
  }

  // ---------------------------------------------------------------------------
  // Sorting

  /** Ascending by path, in Go's string order. */
  predicate SortedByPath(s: seq<Package>)
  {
    forall i, j :: 0 <= i < j < |s| ==> !LexLess(s[j].path, s[i].path)
  }

  /** sort.Slice over the listing, ordered by path: an insertion sort in place. */
  method SortByPath(a: array<Package>)
    modifies a
    ensures SortedByPath(a[..])
    ensures multiset(a[..]) == old(multiset(a[..]))
  {
    var i := 0;
    while i < a.Length
      invariant 0 <= i <= a.Length
      invariant forall k, l :: 0 <= k < l < i ==> !LexLess(a[l].path, a[k].path)
      invariant multiset(a[..]) == old(multiset(a[..]))
    {
      SinkLast(a, i);
      i := i + 1;
    }
  }

  /** Exchanges a[i - 1] and a[i]. */
  method Swap(a: array<Package>, i: nat)
    requires 0 < i < a.Length
    modifies a
    ensures a[i - 1] == old(a[i]) && a[i] == old(a[i - 1])
    ensures forall k :: 0 <= k < a.Length && k != i - 1 && k != i ==> a[k] == old(a[k])
    ensures multiset(a[..]) == old(multiset(a[..]))
  {
    a[i - 1], a[i] := a[i], a[i - 1];
  }

  /** Two arrangements with the same elements and the same suffix have the same elements before it. */
  lemma MultisetPrefixKept(s: seq<Package>, t: seq<Package>, n: nat)
    requires n <= |s| == |t| && multiset(s) == multiset(t) && s[n..] == t[n..]
    ensures multiset(s[..n]) == multiset(t[..n])
  {
    assert s == s[..n] + s[n..];
    assert t == t[..n] + t[n..];
    assert multiset(s) == multiset(s[..n]) + multiset(s[n..]);
    assert multiset(t) == multiset(t[..n]) + multiset(t[n..]);
    forall x | true
      ensures multiset(s[..n])[x] == multiset(t[..n])[x]
    {
      assert multiset(s)[x] == multiset(s[..n])[x] + multiset(s[n..])[x];
      assert multiset(t)[x] == multiset(t[..n])[x] + multiset(t[n..])[x];
    }
  }

  /** One insertion step: moves a[i] left into the sorted prefix a[..i]. */
  method SinkLast(a: array<Package>, i: nat)
    requires i < a.Length
    requires forall k, l :: 0 <= k < l < i ==> !LexLess(a[l].path, a[k].path)
    modifies a
    ensures forall k, l :: 0 <= k < l <= i ==> !LexLess(a[l].path, a[k].path)
    ensures multiset(a[..]) == old(multiset(a[..]))
    ensures forall k :: i < k < a.Length ==> a[k] == old(a[k])
    ensures multiset(a[..i + 1]) == old(multiset(a[..i + 1]))
  {
    var j := i;
    while j > 0 && LexLess(a[j].path, a[j - 1].path)
      invariant 0 <= j <= i
      invariant multiset(a[..]) == old(multiset(a[..]))
      invariant forall k :: i < k < a.Length ==> a[k] == old(a[k])
      invariant forall k, l :: 0 <= k < l <= i && k != j && l != j ==> !LexLess(a[l].path, a[k].path)
      invariant forall l :: j < l <= i ==> !LexLess(a[l].path, a[j].path)
    {
      LexLessAsymmetric(a[j].path, a[j - 1].path);
      Swap(a, j);
      j := j - 1;
    }
    forall k | 0 <= k < j
      ensures !LexLess(a[j].path, a[k].path)
    {
      if k < j - 1 {
        LexLeqTransitive(a[k].path, a[j - 1].path, a[j].path);
      }
    }
    MultisetPrefixKept(a[..], old(a[..]), i + 1);
  }

  // ---------------------------------------------------------------------------
  // Assembly

  /** createDirectoryHeader: the module identity, the directory path and its canonical URL. */
  function CreateDirectoryHeader(h: Helpers, dirPath: string, mi: ModuleInfo, licmetas: seq<License>): (header: DirectoryHeader)
    ensures header.path == dirPath && header.moduleInfo == mi && header.licenses == licmetas
    ensures header.url == ConstructDirectoryURL(dirPath, mi.modulePath, h.linkVersion(mi.version, mi.modulePath))
  {
    DirectoryHeader(mi, licmetas, dirPath,
      ConstructDirectoryURL(dirPath, mi.modulePath, h.linkVersion(mi.version, mi.modulePath)))
  }

  /**
   * createDirectory: one row per listed package, appended in input order,
   * then sorted by path.
   */
  method CreateDirectory(h: Helpers, dirPath: string, mi: ModuleInfo, pkgMetas: seq<PackageMeta>,
                         licmetas: seq<License>, includeDirPath: bool) returns (d: Directory)
    ensures d.header == CreateDirectoryHeader(h, dirPath, mi, licmetas)
    ensures SortedByPath(d.packages)
    ensures multiset(d.packages) == multiset(Listing(h, dirPath, pkgMetas, includeDirPath))
    ensures !includeDirPath ==> forall p :: p in d.packages ==> p.path != dirPath
    ensures includeDirPath ==> |d.packages| == |pkgMetas|
    ensures forall p :: p in d.packages ==>
              p.pathAfterDirectory != "" &&
              exists i :: 0 <= i < |pkgMetas| && p.path == pkgMetas[i].path && p.synopsis == pkgMetas[i].synopsis
  {
    var packages: seq<Package> := [];
    for i := 0 to |pkgMetas|
      invariant packages == Listing(h, dirPath, pkgMetas[..i], includeDirPath)
    {
      assert pkgMetas[..i + 1][..i] == pkgMetas[..i];
      var pm := pkgMetas[i];
      if !includeDirPath && pm.path == dirPath {
        continue;
      }
      var newPkg := CreatePackage(pm);
      newPkg := newPkg.(pathAfterDirectory := h.suffix(pm.path, dirPath));
      newPkg := newPkg.(synopsis := pm.synopsis);
      if newPkg.pathAfterDirectory == "" {
        newPkg := newPkg.(pathAfterDirectory := h.effectiveName(pm.path, pm.name) + " (root)");
      }
      packages := packages + [newPkg];
    }
    assert pkgMetas[..|pkgMetas|] == pkgMetas;

    var rows := new Package[|packages|](k requires 0 <= k < |packages| => packages[k]);
    assert rows[..] == packages;
    SortByPath(rows);
    d := Directory(CreateDirectoryHeader(h, dirPath, mi, licmetas), rows[..]);

    forall p | p in d.packages
      ensures p in packages
    {
      assert p in multiset(d.packages);
    }
    if !includeDirPath {
      ListingExcludesDirPath(h, dirPath, pkgMetas);
    } else {
      ListingKeepsAll(h, dirPath, pkgMetas);
      assert |d.packages| == |multiset(d.packages)| == |multiset(packages)| == |packages|;
    }
    forall p | p in d.packages
      ensures p.pathAfterDirectory != ""
      ensures exists i :: 0 <= i < |pkgMetas| && p.path == pkgMetas[i].path && p.synopsis == pkgMetas[i].synopsis
    {
      ListingSound(h, dirPath, pkgMetas, includeDirPath, p);
    }
  }

  /** The only package-list roots allowed to list themselves: a module root or the standard library. */
  predicate IsListingRoot(dirPath: string, modulePath: string)
  {
    dirPath == modulePath || dirPath == StdlibModulePath
  }

  /**
   * fetchDirectoryDetails: checks the data source and the arguments, asks for
   * the packages in the unit and assembles the directory; a unit without
   * packages is a header-only directory.
   */
  method FetchDirectoryDetails(h: Helpers, ds: DataSource, dmeta: DirectoryMeta, includeDirPath: bool)
    returns (r: Result<Directory>)
    ensures !ds.supportsDirectories ==> r == Err(Unsupported)
    ensures ds.supportsDirectories && includeDirPath && !IsListingRoot(dmeta.path, dmeta.moduleInfo.modulePath)
            ==> r == Err(InvalidArgument)
    ensures ds.supportsDirectories && (!includeDirPath || IsListingRoot(dmeta.path, dmeta.moduleInfo.modulePath)) ==>
              var header := CreateDirectoryHeader(h, dmeta.path, dmeta.moduleInfo, dmeta.licenses);
              var q := ds.getPackagesInUnit(dmeta.path, dmeta.moduleInfo.modulePath, dmeta.moduleInfo.version);
              && (q.Err? && q.error == NotFound ==> r == Ok(Directory(header, [])))
              && (q.Err? && q.error != NotFound ==> r == Err(q.error))
              && (q.Ok? ==>
                    && r.Ok? && r.value.header == header
                    && SortedByPath(r.value.packages)
                    && multiset(r.value.packages) == multiset(Listing(h, dmeta.path, q.value, includeDirPath)))
    ensures r.Err? ==> r.error != NotFound
  {
    if !ds.supportsDirectories {
      return Err(Unsupported);
    }
    if includeDirPath && dmeta.path != dmeta.moduleInfo.modulePath && dmeta.path != StdlibModulePath {
      return Err(InvalidArgument);
    }
    var packages := ds.getPackagesInUnit(dmeta.path, dmeta.moduleInfo.modulePath, dmeta.moduleInfo.version);
    if packages.Err? {
      if packages.error != NotFound {
        return Err(packages.error);
      }
      var header := CreateDirectoryHeader(h, dmeta.path, dmeta.moduleInfo, dmeta.licenses);
      return Ok(Directory(header, []));
    }
    var d := CreateDirectory(h, dmeta.path, dmeta.moduleInfo, packages.value, dmeta.licenses, includeDirPath);
    return Ok(d);
  }
}
