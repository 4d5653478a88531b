/**
 * The proxy-backed data source's details lookups: the licenses that apply to
 * a path, and the resolution of a path to its module version.
 */
module ProxyDetails {
  import opened Internal
  import opened Paths

  /**
   * The proxy lookups the data source is built on: `findModule(path, version)`
   * discovers the module that holds a path, `getModule(modulePath, version)`
   * fetches a module version with its licenses and units.
   */
  datatype Proxy = Proxy(
    findModule: (string, string) -> Result<(string, VersionInfo)>,
    getModule: (string, string) -> Result<Module>)

  // ---------------------------------------------------------------------------
  // Licenses

  /** The directory, as a full path, that contains a license file of the module. */
  function LicenseDirectory(modulePath: string, license: License): (dir: string)
    ensures '/' !in license.filePath ==> dir == (if modulePath == "" then "." else modulePath)
    ensures modulePath != "" ==> HasPrefix(dir, modulePath)
  {
    Join(modulePath, Dir(license.filePath))
  }

  /** A license applies to a path when its directory is a string prefix of the path. */
  predicate LicenseApplies(fullPath: string, modulePath: string, license: License)
  {
    HasPrefix(fullPath, LicenseDirectory(modulePath, license))
  }

  /** The licenses of `xs` that satisfy `keep`, in their order. */
  function Filter(keep: License -> bool, xs: seq<License>): (r: seq<License>)
    ensures |r| <= |xs|
  {
    if xs == [] then []
    else Filter(keep, xs[..|xs| - 1]) + (if keep(xs[|xs| - 1]) then [xs[|xs| - 1]] else [])
  }

  /** An element is kept if and only if it is one of `xs` and satisfies `keep`. */
  lemma {:induction false} FilterMembers(keep: License -> bool, xs: seq<License>, x: License)
    ensures x in Filter(keep, xs) <==> x in xs && keep(x)
  {
    if xs != [] {
      var init := xs[..|xs| - 1];
      FilterMembers(keep, init, x);
      assert xs == init + [xs[|xs| - 1]];
    }
  }

  /**
   * `a` is a subsequence of `b`: `a` is `b` with some elements dropped and
   * the rest in their order (matched greedily from the end).
   */
  predicate IsSubsequence(a: seq<License>, b: seq<License>)
    decreases |b|
  {
    if a == [] then true
    else if b == [] then false
    else if a[|a| - 1] == b[|b| - 1] then IsSubsequence(a[..|a| - 1], b[..|b| - 1])
    else IsSubsequence(a, b[..|b| - 1])
  }

  /** Filtering keeps the order: the result is a subsequence of the input. */
  lemma {:induction false} FilterSubsequence(keep: License -> bool, xs: seq<License>)
    ensures IsSubsequence(Filter(keep, xs), xs)
  {
    if xs != [] {
      var init, last := xs[..|xs| - 1], xs[|xs| - 1];
      var kept := Filter(keep, init);
      FilterSubsequence(keep, init);
      if keep(last) {
        var a := kept + [last];
        assert Filter(keep, xs) == a;
        assert a[..|a| - 1] == kept;
      } else if kept != [] {
        assert Filter(keep, xs) == kept;
        FilterMembers(keep, init, kept[|kept| - 1]);
        assert kept[|kept| - 1] != last;
      }
    }
  }

  /** The licenses of a module that apply to a path, in the module's order. */
  function ApplicableLicenses(fullPath: string, modulePath: string, lics: seq<License>): seq<License>
  {
    Filter((l: License) => LicenseApplies(fullPath, modulePath, l), lics)
  }

  /** A license is kept if and only if it is one of the module's and applies to the path. */
  lemma ApplicableLicensesMembers(fullPath: string, modulePath: string, lics: seq<License>, license: License)
    ensures license in ApplicableLicenses(fullPath, modulePath, lics)
            <==> license in lics && LicenseApplies(fullPath, modulePath, license)
  {
    FilterMembers((l: License) => LicenseApplies(fullPath, modulePath, l), lics, license);
  }

  /** Filtering keeps the module's order: the result is a subsequence of the module's licenses. */
  lemma ApplicableLicensesSubsequence(fullPath: string, modulePath: string, lics: seq<License>)
    ensures IsSubsequence(ApplicableLicenses(fullPath, modulePath, lics), lics)
  {
    FilterSubsequence((l: License) => LicenseApplies(fullPath, modulePath, l), lics);
  }

  /**
   * The match is inherited by every extension of the path: a license that
   * applies to a path applies to every longer path that starts with it.
   */
  lemma ApplicableLicensesMonotonic(fullPath: string, extra: string, modulePath: string, lics: seq<License>)
    ensures forall license :: license in ApplicableLicenses(fullPath, modulePath, lics)
              ==> license in ApplicableLicenses(fullPath + extra, modulePath, lics)
  {
    forall license | license in ApplicableLicenses(fullPath, modulePath, lics)
      ensures license in ApplicableLicenses(fullPath + extra, modulePath, lics)
    {
      ApplicableLicensesMembers(fullPath, modulePath, lics, license);
      ApplicableLicensesMembers(fullPath + extra, modulePath, lics, license);
    }
  }

  /**
   * The match is a raw string prefix, not a directory match: a license in
   * directory "foo" of module "m" also applies to the sibling path "m/foobar".
   */
  lemma LicenseMatchIgnoresDirectoryBoundary()
    ensures LicenseDirectory("m", License([], "foo/LICENSE")) == "m/foo"
    ensures LicenseApplies("m/foobar", "m", License([], "foo/LICENSE"))
  {
    assert LastIndex("foo/LICENSE", '/') == 3;
  }

  /** A license applies to its own file: the file's full path starts with the license's directory. */
  lemma LicenseAppliesToOwnFile(modulePath: string, license: License)
    requires modulePath != "" && license.filePath != "" && license.filePath != "."
    ensures LicenseApplies(Join(modulePath, license.filePath), modulePath, license)
  {
    var f := license.filePath;
    if '/' in f {
      var d := Dir(f);
      assert HasPrefix(f, d + "/");
      if d != "" {
        assert modulePath + "/" + d <= modulePath + "/" + f;
      }
    }
  }

  /** A license at the module root applies to every path of the module. */
  lemma RootLicenseAppliesEverywhere(modulePath: string, license: License, sub: string)
    requires modulePath != "" && '/' !in license.filePath
    ensures LicenseApplies(modulePath, modulePath, license)
    ensures LicenseApplies(modulePath + "/" + sub, modulePath, license)
  {
  }

  /**
   * The filtering loop of GetLicenses: keeps, in order, the licenses whose
   * directory is a prefix of the path.
   */
  method FilterLicenses(fullPath: string, modulePath: string, licenses: seq<License>)
    returns (lics: seq<License>)
    ensures lics == ApplicableLicenses(fullPath, modulePath, licenses)
  {
    lics := [];
    for i := 0 to |licenses|
      invariant lics == ApplicableLicenses(fullPath, modulePath, licenses[..i])
    {
      assert licenses[..i + 1][..i] == licenses[..i];
      var license := licenses[i];
      var licensePath := LicenseDirectory(modulePath, license);
      if HasPrefix(fullPath, licensePath) {
        lics := lics + [license];
      }
    }
    assert licenses[..|licenses|] == licenses;
  }

  /**
   * GetLicenses: fetches the module and keeps the licenses that apply to the
   * path; no applicable license is a NotFound error, never an empty success.
   */
  method GetLicenses(p: Proxy, fullPath: string, modulePath: string, resolvedVersion: string)
    returns (r: Result<seq<License>>)
    ensures match p.getModule(modulePath, resolvedVersion)
            case Err(e) => r == Err(e)
            case Ok(m) =>
              var lics := ApplicableLicenses(fullPath, modulePath, m.licenses);
              && (lics == [] ==> r == Err(NotFound))
              && (lics != [] ==> r == Ok(lics))
    ensures r.Ok? ==> r.value != []
  {
    var v := p.getModule(modulePath, resolvedVersion);
    if v.Err? {
      return Err(v.error);
    }
    var lics := FilterLicenses(fullPath, modulePath, v.value.licenses);
    if |lics| == 0 {
      return Err(NotFound);
    }
    return Ok(lics);
  }

  // ---------------------------------------------------------------------------
  // Path info

  /** The first unit of the module whose path is exactly `path`, if any. */
  function FirstUnitAt(units: seq<Unit>, path: string): (r: Option<Unit>)
    ensures r.None? <==> forall i :: 0 <= i < |units| ==> units[i].path != path
    ensures r.Some? ==> exists i :: 0 <= i < |units| && units[i] == r.value && units[i].path == path
                                    && forall j :: 0 <= j < i ==> units[j].path != path
  {
    if units == [] then None
    else if units[0].path == path then Some(units[0])
    else
      var r := FirstUnitAt(units[1..], path);
      assert forall i :: 1 <= i < |units| ==> units[1..][i - 1] == units[i];
      r
  }

  /** The path info's unit fields are those of the first matching unit, or zero values without one. */
  predicate UnitFieldsFrom(pi: PathInfo, units: seq<Unit>, path: string)
  {
    match FirstUnitAt(units, path)
    case Some(u) => pi.name == u.name && pi.isRedistributable == u.isRedistributable
    case None => pi.name == "" && !pi.isRedistributable
  }

  /**
   * GetPathInfo: resolves the unknown-module sentinel through findModule,
   * whose version then replaces the requested one, fetches the module and
   * copies the name and redistributability of the first unit at the path.
   */
  method GetPathInfo(p: Proxy, path: string, inModulePath: string, inVersion: string)
    returns (r: Result<PathInfo>)
    ensures inModulePath != UnknownModulePath ==>
              match p.getModule(inModulePath, inVersion)
              case Err(e) => r == Err(e)
              case Ok(m) =>
                && r.Ok? && r.value.path == path
                && r.value.modulePath == inModulePath && r.value.version == inVersion
                && UnitFieldsFrom(r.value, m.units, path)
    ensures inModulePath == UnknownModulePath ==>
              match p.findModule(path, inVersion)
              case Err(e) => r == Err(e)
              case Ok((found, info)) =>
                match p.getModule(found, info.version)
                case Err(e) => r == Err(e)
                case Ok(m) =>
                  && r.Ok? && r.value.path == path
                  && r.value.modulePath == found && r.value.version == info.version
                  && UnitFieldsFrom(r.value, m.units, path)
  {
    var modulePath, version := inModulePath, inVersion;
    if modulePath == UnknownModulePath {
      var found := p.findModule(path, version);
      if found.Err? {
        return Err(found.error);
      }
      modulePath := found.value.0;
      version := found.value.1.version;
    }
    var m := p.getModule(modulePath, version);
    if m.Err? {
      return Err(m.error);
    }
    var units := m.value.units;
    var pi := PathInfo(path, modulePath, version, "", false);
    var i := 0;
    while i < |units|
      invariant 0 <= i <= |units|
      invariant FirstUnitAt(units, path) == FirstUnitAt(units[i..], path)
      invariant pi == PathInfo(path, modulePath, version, "", false)
    {
      if units[i].path == path {
        pi := pi.(name := units[i].name, isRedistributable := units[i].isRedistributable);
        break;
      }
      assert units[i..][1..] == units[i + 1..];
      i := i + 1;
    }
    return Ok(pi);
  }
}
