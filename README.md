# Directory listings, proxy license lookup and the latest-version badge

A Dafny model of three pieces of the Go module discovery site (pkgsite):

- **Directory listings** (`internal/frontend/directory.go`). The model covers:
  - the canonical URL of a directory (`constructDirectoryURL`);
  - the header of a directory page (`createDirectoryHeader`);
  - the assembly of a directory from the flat list of packages below it (`createDirectory`): one row per listed package, each with its path relative to the directory or a "(root)" label, then sorted by import path;
  - the checks and the NotFound fallback of `fetchDirectoryDetails`.
- **The proxy-backed data source** (`internal/proxydatasource/details.go`):
  - `GetLicenses` keeps the module's licenses whose directory is a string prefix of the requested path. An empty result is a NotFound error.
  - `GetPathInfo` resolves the unknown-module sentinel through `findModule`, fetches the module, and copies the name and redistributability of the first unit at the path.
- **The latest-version badge rewrite** of the HTTP middleware, as its table test `internal/middleware/latestversion_test.go` pins it down:
  - A rendered page carries two placeholders in its version badge.
  - The badge's data attributes give the displayed version and the lookup arguments.
  - The rewrite fills the placeholders with a CSS class and with the latest version. The class is "latest", "goToLatest", or "unknown" when the lookup answers "".

Structure:

| file | module | models |
|---|---|---|
| `internal.dfy` | `Internal` | the shared records (`ModuleInfo`, `PackageMeta`, `Unit`, `Module`, `DirectoryMeta`, `PathInfo`, `License`), the error kinds of `derrors`, and the constants `internal.LatestVersion`, `stdlib.ModulePath` and `internal.UnknownModulePath` |
| `paths.dfy` | `Paths` | `strings.HasPrefix`, `strings.TrimPrefix`, `path.Dir` and `path.Join` (for clean relative paths), and Go's `<` on strings; also `Cut`, a first-separator split used only by the model's URL reader `ParseDirectoryURL` |
| `directory.dfy` | `Directory` | directory.go |
| `proxy_details.dfy` | `ProxyDetails` | details.go |
| `latest_badge.dfy` | `LatestBadge` | the badge rewrite and the attribute escaping and decoding it relies on |
| `latest_badge_examples.dfy` | `LatestBadgeExamples` | one lemma per row of the middleware's table test |

Collaborators whose code is not part of this model are parameters, so every property holds whatever they return:

- the frontend helpers `internal.Suffix`, `effectiveName` and `linkVersion` (the `Helpers` record);
- the database query `GetPackagesInUnit` (`DataSource`);
- the proxy calls `findModule` and `getModule` (`Proxy`);
- the latest-version lookup (`LatestFunc`).

Imperative code stays imperative:

- The loops of `createDirectory`, `GetLicenses` and `GetPathInfo` are methods with loop invariants. The invariants tie each loop to a specification function (`Listing`, `ApplicableLicenses`, `FirstUnitAt`).
- `sort.Slice` is an insertion sort in place on an array. It is proved sorted and a permutation.

## Model

| member | source | states |
|---|---|---|
| Directory.ConstructDirectoryURL | internal/frontend/directory.go:153-161 | the URL is an absolute path (starts with "/") in each of the three cases |
| Directory.ParseDirectoryURL | internal/frontend/directory.go:153-161 | the inverse reading of the URL format: succeeds exactly on URLs starting with "/" |
| Directory.ParseLatestURL | internal/frontend/directory.go:154-156 | a latest-version URL "/dir" reads back as (dir, latest) |
| Directory.ParseVersionedURL | internal/frontend/directory.go:157-159 | a URL "/dir@version" reads back as (dir, version) |
| Directory.ParseVersionedSubURL | internal/frontend/directory.go:160 | a URL "/module@version/sub" reads back as (module/sub, version) |
| Directory.DirectoryURLRoundTrip | internal/frontend/directory.go:153-161 | for every directory at, below or (for the standard library) anywhere in its module, reading the URL back gives the directory path and the link version |
| Directory.DirectoryURLVersionSegment | internal/frontend/directory.go:153-161 | the URL contains "@" if and only if the link version is not latest; for latest it is exactly "/" + dirPath |
| Directory.DirectoryURLOutsideModule | internal/frontend/directory.go:160 | for a directory outside its module, TrimPrefix strips nothing: the URL repeats the whole path after the version and reads back as a different directory |
| Directory.ListingEntry | internal/frontend/directory.go:124-132 | the row keeps path, name, synopsis and redistributability; its label is the suffix when that is non-empty, otherwise effectiveName + " (root)", so it is never empty |
| Directory.Listed | internal/frontend/directory.go:121-123 | a package is listed when includeDirPath is set or its path is not the directory itself; its use is proved by ListingExcludesDirPath and ListingKeepsAll |
| Directory.Listing | internal/frontend/directory.go:120-134 | the rows are never more than the packages |
| Directory.ListingSound | internal/frontend/directory.go:120-134 | every row is the row of some listed input package |
| Directory.ListingComplete | internal/frontend/directory.go:120-134 | every listed input package has its row in the listing |
| Directory.ListingExcludesDirPath | internal/frontend/directory.go:121-123 | without includeDirPath no row has the directory's own path |
| Directory.ListingKeepsAll | internal/frontend/directory.go:120-134 | with includeDirPath nothing is dropped: one row per input package |
| Directory.SortByPath | internal/frontend/directory.go:135 | after the sort the rows are ascending by path in Go's string order, and are a permutation of the rows before |
| Directory.SinkLast | internal/frontend/directory.go:135 | one insertion step: a[..i+1] becomes sorted and holds exactly the elements it held before, everything after index i is untouched, and the multiset of rows is kept |
| Directory.MultisetPrefixKept | internal/frontend/directory.go:135 | a step that keeps the elements of the array and leaves its suffix untouched keeps the elements of the prefix |
| Directory.Swap | internal/frontend/directory.go:135 | exchanges two neighbours, leaving every other element and the multiset unchanged |
| Directory.CreateDirectoryHeader | internal/frontend/directory.go:144-151 | the header carries the module identity, the licenses, the directory path and the URL built from the module path and the link version |
| Directory.CreateDirectory | internal/frontend/directory.go:117-142 | header as above; packages sorted by path and a permutation of the listing; no row for the directory without includeDirPath; every package with it; every row has a non-empty label and comes from an input package |
| Directory.FetchDirectoryDetails | internal/frontend/directory.go:86-106 | an unsupported source is an Unsupported error; includeDirPath off a module root or the standard library is InvalidArgument; NotFound from the query gives a header-only directory; any other error is passed on; otherwise the directory of createDirectory; NotFound never escapes |
| Directory.IsListingRoot | internal/frontend/directory.go:94 | the only directories that may list their own package: the module root and the standard library; FetchDirectoryDetails refuses includeDirPath anywhere else |
| Paths.TrimPrefix | internal/frontend/directory.go:160 | with the prefix present, prefix + result is the input; otherwise the input is unchanged |
| Paths.HasPrefix | internal/proxydatasource/details.go:53 | strings.HasPrefix: the prefix is an initial segment of the string |
| Paths.LastIndex | internal/proxydatasource/details.go:52 | the index holds the character and no later position does; -1 means the character is absent |
| Paths.Dir | internal/proxydatasource/details.go:52 | a path without a slash has directory "."; otherwise the directory plus "/" is a prefix of the path, with no slash after it |
| Paths.LexLess | internal/frontend/directory.go:135 | Go's `<` on strings: the first differing character decides, and a proper prefix comes first; LexLessAsymmetric, LexLessTotal and LexLeqTransitive prove it is a strict total order |
| Paths.LexLessAsymmetric | internal/frontend/directory.go:135 | the comparator of the sort is a strict order: never both a < b and b < a |
| Paths.LexLessTotal | internal/frontend/directory.go:135 | two different paths are always ordered one way or the other |
| Paths.LexLeqTransitive | internal/frontend/directory.go:135 | "not after" is transitive, so sorting by it is well defined |
| ProxyDetails.LicenseDirectory | internal/proxydatasource/details.go:52 | the license's directory, the module path joined with the directory of the license file: the module path itself for a license at the root, and always starting with the module path |
| ProxyDetails.LicenseApplies | internal/proxydatasource/details.go:53 | a license applies when its directory is a string prefix of the path |
| ProxyDetails.ApplicableLicenses | internal/proxydatasource/details.go:51-56 | the licenses kept by the loop; ApplicableLicensesMembers, ApplicableLicensesSubsequence and ApplicableLicensesMonotonic prove what it contains |
| ProxyDetails.Filter | internal/proxydatasource/details.go:51-56 | filtering never lengthens the input |
| ProxyDetails.FilterMembers | internal/proxydatasource/details.go:51-56 | an element is kept if and only if it is in the input and passes the test |
| ProxyDetails.FilterSubsequence | internal/proxydatasource/details.go:51-56 | the kept elements are a subsequence of the input, in order |
| ProxyDetails.ApplicableLicensesMembers | internal/proxydatasource/details.go:51-56 | a license is returned if and only if it is one of the module's and its directory (module path joined with the license file's directory) is a prefix of the path |
| ProxyDetails.ApplicableLicensesSubsequence | internal/proxydatasource/details.go:51-56 | the applicable licenses keep the module's order |
| ProxyDetails.ApplicableLicensesMonotonic | internal/proxydatasource/details.go:53 | a license that applies to a path applies to every extension of it (a parent directory's license applies below it) |
| ProxyDetails.LicenseMatchIgnoresDirectoryBoundary | internal/proxydatasource/details.go:52-53 | the match is a raw string prefix: license "foo/LICENSE" of module "m" applies to the sibling path "m/foobar" |
| ProxyDetails.LicenseAppliesToOwnFile | internal/proxydatasource/details.go:52-53 | a license applies to its own file: the full path of the license file starts with the license's directory |
| ProxyDetails.RootLicenseAppliesEverywhere | internal/proxydatasource/details.go:52-53 | a license at the module root applies to the module path and to every path below it |
| ProxyDetails.FilterLicenses | internal/proxydatasource/details.go:45-56 | the loop returns exactly the applicable licenses, in the module's order |
| ProxyDetails.GetLicenses | internal/proxydatasource/details.go:38-62 | a getModule error is passed on; no applicable license is NotFound; otherwise exactly the applicable licenses, never an empty success |
| ProxyDetails.FirstUnitAt | internal/proxydatasource/details.go:96-102 | None if and only if no unit has the path; otherwise the unit at the smallest index with that path |
| ProxyDetails.GetPathInfo | internal/proxydatasource/details.go:76-104 | with a known module path, a getModule error is passed on, otherwise the path info has the requested path, module and version, with name and redistributability from the first unit at the path (zero values without one); with the sentinel, a findModule error is passed on, and the found module and its reported version replace the requested ones |
| LatestBadge.ClassName | internal/middleware/latestversion_test.go:33-113 | the CSS class for each classification: DetailsHeader-badge--latest, --goToLatest and --unknown |
| LatestBadge.ClassNameModifiesBadge | internal/middleware/latestversion_test.go:33-113 | every class name is a non-empty modifier of the badge's base class DetailsHeader-badge |
| LatestBadge.ClassNameInjective | internal/middleware/latestversion_test.go:33-113 | the three badge classes have distinct names |
| LatestBadge.Classify | internal/middleware/latestversion_test.go:23-118 | unknown if and only if the lookup answers ""; latest if and only if the answer equals the displayed version; goToLatest if and only if it is non-empty and different |
| LatestBadge.EntityAt | internal/middleware/latestversion_test.go:60 | a recognised character reference has a length greater than one that fits in the text |
| LatestBadge.UnescapeEntities | internal/middleware/latestversion_test.go:55-70 | text without "&" is unchanged; decoding never lengthens the text |
| LatestBadge.UnescapeDecimalRef | internal/middleware/latestversion_test.go:60 | a two-digit decimal reference such as "&#43;" decodes to its character, whatever follows |
| LatestBadge.UnescapeNamedRef | internal/middleware/latestversion_test.go:55-70 | "&amp;", "&lt;" and "&gt;" decode to their characters, whatever follows |
| LatestBadge.UnescapeEscapedChar | internal/middleware/latestversion_test.go:55-70 | each character as the templates escape it decodes back to itself |
| LatestBadge.UnescapeEscapedByNumber | internal/middleware/latestversion_test.go:60 | the quote, apostrophe and plus, written as decimal references, decode back |
| LatestBadge.UnescapeEscapedByName | internal/middleware/latestversion_test.go:55-70 | ampersand and angle brackets, written as named references, decode back |
| LatestBadge.UnescapePlainChar | internal/middleware/latestversion_test.go:55-70 | a character other than "&" is its own decoding |
| LatestBadge.UnescapePlainPrefix | internal/middleware/latestversion_test.go:60 | text without "&" passes through decoding unchanged in front of any remainder |
| LatestBadge.UnescapeEscapeAttr | internal/middleware/latestversion_test.go:55-70 | decoding undoes the attribute escaping for every string |
| LatestBadge.ClassifyEscapedVersion | internal/middleware/latestversion_test.go:55-70 | the version is compared after decoding: an escaped version is classified like the version itself |
| LatestBadge.Fill | internal/middleware/latestversion_test.go:26-37 | the page keeps its length and literal text, and every class or version placeholder becomes the given text |
| LatestBadge.Rewrite | internal/middleware/latestversion_test.go:23-132 | without a matched badge the page is unchanged; with one, the literal text is kept, every version placeholder becomes the looked-up version and every class placeholder the class of the decoded displayed version |
| LatestBadge.RenderFill | internal/middleware/latestversion_test.go:149-150 | the rewritten page's text is the original text with the class and version in place of the placeholders |
| LatestBadge.FillWithoutSlots | internal/middleware/latestversion_test.go:119-132 | a page without placeholders is left as it is |
| LatestBadge.RewriteIdempotent | internal/middleware/latestversion_test.go:23-132 | rewriting the rewritten page changes nothing further |
| LatestBadgeExamples.RenderBadgePage | internal/middleware/latestversion_test.go:26-31 | the text of the test's badge page for given class and version texts |
| LatestBadgeExamples.BadgePageShowsPlaceholders | internal/middleware/latestversion_test.go:26-31 | before the rewrite the page shows both placeholders |
| LatestBadgeExamples.RewriteBadgePage | internal/middleware/latestversion_test.go:23-132 | after the rewrite the page carries the class of the decoded version and the looked-up version |
| LatestBadgeExamples.PackageVersionIsNotLatest | internal/middleware/latestversion_test.go:23-38 | version v1.0.0 with latest v1.2.3 gives class goToLatest and link p1/p2@v1.2.3/p3 |
| LatestBadgeExamples.PackageVersionIsLatest | internal/middleware/latestversion_test.go:39-54 | version v1.2.3 with latest v1.2.3 gives class latest and link p1/p2@v1.2.3/p3 |
| LatestBadgeExamples.DecodeBuildVersion | internal/middleware/latestversion_test.go:60 | the attribute "v1.2.3&#43;build" decodes to v1.2.3+build |
| LatestBadgeExamples.PackageVersionWithBuildIsLatest | internal/middleware/latestversion_test.go:55-70 | the escaped build version is latest against v1.2.3+build; the attribute text stays escaped and the link gets the unescaped version |
| LatestBadgeExamples.ModuleVersionIsNotLatest | internal/middleware/latestversion_test.go:71-86 | with an empty package path, v1.0.0 against v1.2.3 gives goToLatest and link mod/p1/p2@v1.2.3 |
| LatestBadgeExamples.ModuleVersionIsLatest | internal/middleware/latestversion_test.go:87-102 | with an empty package path, v1.2.3 against v1.2.3 gives latest and link mod/p1/p2@v1.2.3 |
| LatestBadgeExamples.LatestFuncReturnsEmptyString | internal/middleware/latestversion_test.go:103-118 | an empty lookup answer gives class unknown and an empty version in the link |
| LatestBadgeExamples.NoRegexpMatch | internal/middleware/latestversion_test.go:119-132 | a badge without the data attributes leaves the page exactly as it was, placeholders included |

## Left out

- `serveDirectoryPage` and the rest of the HTTP handling of directory.go. They are request plumbing around the modelled functions.
- CreateDirectory: returns a Directory, not a Result. The only error of `createPackage` is a nil module-info or package pointer, and records cannot be nil here.
- CreatePackage: of the package view, only the fields the listing reads are kept: path, name, synopsis, redistributability and the relative path. The per-package licenses, module link and URL that `createPackage` also fills are not modelled.
- CreateDirectoryHeader: `createModule` is not part of this model. The header keeps the module identity and the licenses it is built from, not the derived module view.
- Packages are values, not pointers. The model has no aliasing between the sorted slice and its rows.
- Error messages and the context that `derrors.Wrap` adds are not modelled. Only the error kind is kept (NotFound, InvalidArgument, Unsupported, or any other error passed on).
- Context cancellation is not modelled: the `context.Context` arguments are dropped.
- Paths.Dir and Paths.Join: only for clean relative paths. The general `path.Clean` normalisation (`..`, repeated slashes, absolute paths) is not modelled.
- LatestBadge.UnescapeEntities: covers only the references the page templates produce: decimal references terminated by ";", and "&amp;", "&lt;", "&gt;", "&quot;". Hexadecimal references, the other named entities and references without ";" are left as written.
- LatestBadge.Rewrite: the page holds at most one badge, whose attributes are either matched or not. The regular expression and its engine are represented by that optional match. The buffering of the HTTP response is not modelled.
- The source of the middleware itself (`latestversion.go`) is not part of this model. The table test fixes the substitution and the three class outcomes. It does not fix the order of the lookup's arguments, since every test lookup ignores them. The model passes them as (package path, module path, page type), the order of the site's latest-version interface.
- LatestBadge.UnescapeEntities: the table test pins only the decoding of "&#43;". The model also decodes "&amp;", "&lt;", "&gt;", "&quot;" and any decimal reference ending in ";". That extra scope is the model's choice.
- LatestBadge.Rewrite: the page arrives already split into literal text and the two placeholders. Placeholder text inside a literal token, or split across two literal tokens, is not replaced, while the middleware's textual replacement would replace it. The promise that "the literal text is kept" holds relative to that split.
- ProxyDetails.GetPathInfo: if `findModule` itself answers with the unknown-module sentinel, the result carries it. The code has no check for this, and the model follows the code.
- Internal: the values "latest", "std" and "unknownModulePath" of the three constants come from the `internal` and `stdlib` packages. Those packages are not part of this model.
- The other methods of the proxy data source are not modelled: `GetUnit`, `GetDirectoryMeta`, `GetModuleInfo` and `GetExperiments`. Each is a thin wrapper that returns a field of `getModule`/`getUnit`, or nothing.
- The proxy calls (`getModule`, `findModule`), the database query `GetPackagesInUnit` and the frontend helpers `internal.Suffix`, `effectiveName` and `linkVersion` are not part of this model. They are parameters.
