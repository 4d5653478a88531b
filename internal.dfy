/**
 * Records and constants of the registry's `internal` packages that the
 * directory and proxy code exchange, and the error kinds its `derrors`
 * package distinguishes. Only the fields the modelled code reads or writes
 * are kept.
 */
module Internal {

  /** `internal.LatestVersion`: the pseudo-version meaning "whatever is newest". */
  const LatestVersion: string := "latest"

  /** `stdlib.ModulePath`: the pseudo-module of the standard library. */
  const StdlibModulePath: string := "std"

  /** `internal.UnknownModulePath`: the sentinel for "module path not yet known". */
  const UnknownModulePath: string := "unknownModulePath"

  /**
   * Error kinds. Wrapping with `derrors.Wrap` adds context text but keeps the
   * kind; `InternalError` stands for any other error a data source reports.
   */
  datatype ErrorKind = NotFound | InvalidArgument | Unsupported | InternalError

  /** An optional value. */
  datatype Option<T> = None | Some(value: T)

  /** A value or the kind of the error that replaced it. */
  datatype Result<T> = Ok(value: T) | Err(error: ErrorKind)

  /** `internal.ModuleInfo`: identity of one module version. */
  datatype ModuleInfo = ModuleInfo(modulePath: string, version: string)

  /** `licenses.Metadata` / `licenses.License`: a license file declared in a module. */
  datatype License = License(types: seq<string>, filePath: string)

  /** `internal.PackageMeta`: listing-level metadata of one package. */
  datatype PackageMeta = PackageMeta(path: string, name: string, synopsis: string, isRedistributable: bool)

  /** An entry of `internal.Module.Units`: one directory of a module. */
  datatype Unit = Unit(path: string, name: string, isRedistributable: bool)

  /** `internal.Module` as the proxy builds it: the module's identity, licenses and units. */
  datatype Module = Module(info: ModuleInfo, licenses: seq<License>, units: seq<Unit>)

  /** `internal.DirectoryMeta`: a directory path in a module version, with its licenses. */
  datatype DirectoryMeta = DirectoryMeta(path: string, moduleInfo: ModuleInfo, licenses: seq<License>)

  /** `internal.PathInfo`: a path resolved to a module version. */
  datatype PathInfo = PathInfo(path: string, modulePath: string, version: string, name: string, isRedistributable: bool)

  /** `proxy.VersionInfo`: what the proxy reports about a version. */
  datatype VersionInfo = VersionInfo(version: string)
}
