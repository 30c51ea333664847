/**
 * The policy strings LibraryNamespaces::Create computes before it creates an
 * app's namespace: permitted path, search path, the library list exposed
 * from the platform namespace, the namespace name and the greylist flag.
 * All of them are straight-line string concatenation over colon-joined lists.
 */
module Policy {
  import opened Wrappers
  import opened Origin
  import opened Strings

  /** target_sdk_version is a uint32_t. */
  newtype uint32 = x: int | 0 <= x < 0x1_0000_0000

  const ClassloaderNamespaceName: string := "classloader-namespace"
  const VendorClassloaderNamespaceName: string := "vendor-classloader-namespace"

  /** Directories any class loader may load from by absolute path. */
  const WhitelistedDirectories: string := "/data:/mnt/expand"

  /** Product apps targeting an SDK above this one are treated as unbundled. */
  const ProductUnbundledAfterSdk: uint32 := 29
  /** Apps targeting an SDK below this one get the greylist workaround. */
  const GreylistBeforeSdk: uint32 := 24

  /** kVendorLibPath; `lib` is the ABI's library directory name (the LIB macro). */
  function VendorLibPath(lib: string): string {
    "/vendor/" + lib
  }

  /** kProductLibPath: the product partition's library directory under both spellings. */
  function ProductLibPath(lib: string): string {
    ProductLibDir(lib) + ":" + SystemProductLibDir(lib)
  }

  function ProductLibDir(lib: string): string {
    "/product/" + lib
  }

  function SystemProductLibDir(lib: string): string {
    "/system/product/" + lib
  }

  /** The library lists of public_libraries.h, each colon-joined. */
  datatype PublicLibraries = PublicLibraries(
    defaultPublic: string,
    extendedPublic: string,
    llndk: string,
    vndksp: string,
    runtimePublic: string,
    vendorPublic: string)

  /** The library path handed in by Java; a null string reads as empty. */
  function LibraryPathOf(javaLibraryPath: Option<string>): string {
    javaLibraryPath.GetOr([])
  }

  /** The whitelist, followed by the caller's permitted path when there is a non-empty one. */
  function PermittedPath(javaPermittedPath: Option<string>): (r: string)
    ensures |r| >= |WhitelistedDirectories| && r[..|WhitelistedDirectories|] == WhitelistedDirectories
    ensures |r| == |WhitelistedDirectories| <==> javaPermittedPath.None? || javaPermittedPath.value == []
    ensures |r| > |WhitelistedDirectories| ==>
      r[|WhitelistedDirectories|] == ':' && r[|WhitelistedDirectories| + 1..] == javaPermittedPath.value
  {
    if javaPermittedPath.Some? && |javaPermittedPath.value| > 0 then
      WhitelistedDirectories + ":" + javaPermittedPath.value
    else
      WhitelistedDirectories
  }

  /** As a list of directories: /data, /mnt/expand, then the caller's entries. */
  lemma PermittedPathEntries(javaPermittedPath: Option<string>)
    ensures Split(PermittedPath(javaPermittedPath), ':') ==
      ["/data", "/mnt/expand"] +
      (if javaPermittedPath.Some? && javaPermittedPath.value != [] then Split(javaPermittedPath.value, ':') else [])
  {
    var whitelist := ["/data", "/mnt/expand"];
    assert Join(whitelist, ':') == WhitelistedDirectories;
    SplitJoin(whitelist, ':');
    if javaPermittedPath.Some? && javaPermittedPath.value != [] {
      SplitConcat(WhitelistedDirectories, javaPermittedPath.value, ':');
    }
  }

  /**
   * An app is an unbundled vendor or product app when it comes from the
   * vendor partition, or from the product partition and targets an SDK above
   * 29, and its class loader is not shared.
   */
  function IsUnbundled(origin: ApkOrigin, targetSdk: uint32, isShared: bool): (r: bool)
    ensures r ==> !isShared && origin != Default
    ensures origin == Vendor && !isShared ==> r
    ensures origin == Product ==> (r <==> !isShared && targetSdk > ProductUnbundledAfterSdk)
  {
    (origin == Vendor || (origin == Product && targetSdk > ProductUnbundledAfterSdk)) && !isShared
  }

  /** The partition's own library directories; the source's "unknown" case has none. */
  function OriginLibPath(origin: ApkOrigin, lib: string): string {
    match origin
    case Vendor => VendorLibPath(lib)
    case Product => ProductLibPath(lib)
    case Default => []
  }

  /**
   * The library path or permitted path after origin handling: an unbundled
   * app's path gains ':' and its partition's library directories, every
   * other app's path is left alone. The ':' is added even to an empty path.
   */
  function WithOriginLibPath(path: string, origin: ApkOrigin, unbundled: bool, lib: string): (r: string)
    ensures !unbundled ==> r == path
    ensures unbundled ==> |r| > |path| && r[..|path|] == path && r[|path|] == ':' && r[|path| + 1..] == OriginLibPath(origin, lib)
  {
    if unbundled then path + ":" + OriginLibPath(origin, lib) else path
  }

  /** The product library path is two directories. */
  lemma ProductLibPathEntries(lib: string)
    requires ':' !in lib
    ensures Split(ProductLibPath(lib), ':') == ["/product/" + lib, "/system/product/" + lib]
  {
    SplitConcat(ProductLibDir(lib), SystemProductLibDir(lib), ':');
    SplitWithoutSeparator(ProductLibDir(lib), ':');
    SplitWithoutSeparator(SystemProductLibDir(lib), ':');
  }

  /** The search-path entries an unbundled app gains, as a list. */
  lemma UnbundledPathEntries(path: string, origin: ApkOrigin, lib: string)
    requires origin != Default
    requires ':' !in lib
    ensures Split(WithOriginLibPath(path, origin, true, lib), ':') ==
      Split(path, ':') + (if origin == Vendor then ["/vendor/" + lib] else ["/product/" + lib, "/system/product/" + lib])
  {
    SplitConcat(path, OriginLibPath(origin, lib), ':');
    if origin == Vendor {
      SplitWithoutSeparator(VendorLibPath(lib), ':');
    } else {
      ProductLibPathEntries(lib);
    }
  }

  /**
   * The libraries exposed from the platform namespace: the default public
   * libraries, plus LLNDK for an unbundled app (always with a ':', even for an
   * empty LLNDK list), plus the extended public libraries for any other app
   * when that list is not empty.
   */
  function ExposedLibraries(libs: PublicLibraries, unbundled: bool): string {
    if unbundled then libs.defaultPublic + ":" + libs.llndk
    else if libs.extendedPublic != [] then libs.defaultPublic + ":" + libs.extendedPublic
    else libs.defaultPublic
  }

  /** The exposed list, entry by entry. */
  lemma ExposedLibrariesEntries(libs: PublicLibraries, unbundled: bool)
    ensures unbundled ==>
      Split(ExposedLibraries(libs, unbundled), ':') == Split(libs.defaultPublic, ':') + Split(libs.llndk, ':')
    ensures !unbundled && libs.extendedPublic != [] ==>
      Split(ExposedLibraries(libs, unbundled), ':') == Split(libs.defaultPublic, ':') + Split(libs.extendedPublic, ':')
    ensures !unbundled && libs.extendedPublic == [] ==> ExposedLibraries(libs, unbundled) == libs.defaultPublic
  {
    if unbundled {
      SplitConcat(libs.defaultPublic, libs.llndk, ':');
    } else if libs.extendedPublic != [] {
      SplitConcat(libs.defaultPublic, libs.extendedPublic, ':');
    }
  }

  /**
   * The trust boundary: what an ordinary app sees never depends on the LLNDK
   * list, and what an unbundled app sees never depends on the extended list.
   */
  lemma ExposedLibrariesTrustBoundary(libs: PublicLibraries, other: string)
    ensures ExposedLibraries(libs.(llndk := other), false) == ExposedLibraries(libs, false)
    ensures ExposedLibraries(libs.(extendedPublic := other), true) == ExposedLibraries(libs, true)
  {
  }

  function NamespaceName(unbundled: bool): string {
    if unbundled then VendorClassloaderNamespaceName else ClassloaderNamespaceName
  }

  function GreylistEnabled(targetSdk: uint32): bool {
    targetSdk < GreylistBeforeSdk
  }

  /** Everything Create decides about the namespace before it asks the linker for it. */
  datatype EffectivePolicy = EffectivePolicy(
    unbundled: bool,
    namespaceName: string,
    libraryPath: string,
    permittedPath: string,
    exposedLibraries: string,
    greylistEnabled: bool)

  function ComputePolicy(origin: ApkOrigin, targetSdk: uint32, isShared: bool,
                         libraryPath: string, permittedPath: string,
                         libs: PublicLibraries, lib: string): (p: EffectivePolicy)
    ensures p.unbundled == IsUnbundled(origin, targetSdk, isShared)
    ensures p.namespaceName == VendorClassloaderNamespaceName <==> p.unbundled
    ensures !p.unbundled ==> p.namespaceName == ClassloaderNamespaceName
    ensures p.libraryPath == WithOriginLibPath(libraryPath, origin, p.unbundled, lib)
    ensures p.permittedPath == WithOriginLibPath(permittedPath, origin, p.unbundled, lib)
    ensures p.exposedLibraries == ExposedLibraries(libs, p.unbundled)
    ensures p.greylistEnabled <==> targetSdk < GreylistBeforeSdk
  {
    var unbundled := IsUnbundled(origin, targetSdk, isShared);
    EffectivePolicy(
      unbundled,
      NamespaceName(unbundled),
      WithOriginLibPath(libraryPath, origin, unbundled, lib),
      WithOriginLibPath(permittedPath, origin, unbundled, lib),
      ExposedLibraries(libs, unbundled),
      GreylistEnabled(targetSdk))
  }

  /** A shared class loader is an ordinary app whatever its origin: no partition paths, no LLNDK. */
  lemma SharedLoaderIsOrdinary(origin: ApkOrigin, targetSdk: uint32, libraryPath: string,
                               permittedPath: string, libs: PublicLibraries, lib: string)
    ensures var p := ComputePolicy(origin, targetSdk, true, libraryPath, permittedPath, libs, lib);
      p == ComputePolicy(Default, targetSdk, true, libraryPath, permittedPath, libs, lib) &&
      p.namespaceName == ClassloaderNamespaceName &&
      p.libraryPath == libraryPath && p.permittedPath == permittedPath &&
      p.exposedLibraries == ExposedLibraries(libs.(llndk := []), false)
  {
  }

  /** A product app targeting SDK 29 or lower is treated exactly like an app of default origin. */
  lemma LegacyProductAppIsOrdinary(targetSdk: uint32, isShared: bool, libraryPath: string,
                                   permittedPath: string, libs: PublicLibraries, lib: string)
    requires targetSdk <= ProductUnbundledAfterSdk
    ensures ComputePolicy(Product, targetSdk, isShared, libraryPath, permittedPath, libs, lib) ==
            ComputePolicy(Default, targetSdk, isShared, libraryPath, permittedPath, libs, lib)
  {
  }

  /** An unshared vendor app, at any target SDK, gets the vendor library directory and LLNDK. */
  lemma {:induction false} UnbundledVendorApp(targetSdk: uint32, libraryPath: string, permittedPath: string,
                                              libs: PublicLibraries, lib: string)
    requires ':' !in lib
    ensures var p := ComputePolicy(Vendor, targetSdk, false, libraryPath, permittedPath, libs, lib);
      p.unbundled &&
      Split(p.libraryPath, ':') == Split(libraryPath, ':') + ["/vendor/" + lib] &&
      Split(p.permittedPath, ':') == Split(permittedPath, ':') + ["/vendor/" + lib] &&
      Split(p.exposedLibraries, ':') == Split(libs.defaultPublic, ':') + Split(libs.llndk, ':')
  {
    UnbundledPathEntries(libraryPath, Vendor, lib);
    UnbundledPathEntries(permittedPath, Vendor, lib);
    ExposedLibrariesEntries(libs, true);
  }

  /**
   * An unshared product app targeting an SDK above 29 gets both product
   * library directories and LLNDK.
   */
  lemma {:induction false} UnbundledProductApp(targetSdk: uint32, libraryPath: string, permittedPath: string,
                                               libs: PublicLibraries, lib: string)
    requires targetSdk > ProductUnbundledAfterSdk
    requires ':' !in lib
    ensures var p := ComputePolicy(Product, targetSdk, false, libraryPath, permittedPath, libs, lib);
      p.unbundled && p.namespaceName == VendorClassloaderNamespaceName &&
      Split(p.libraryPath, ':') == Split(libraryPath, ':') + ["/product/" + lib, "/system/product/" + lib] &&
      Split(p.permittedPath, ':') == Split(permittedPath, ':') + ["/product/" + lib, "/system/product/" + lib] &&
      Split(p.exposedLibraries, ':') == Split(libs.defaultPublic, ':') + Split(libs.llndk, ':')
  {
    UnbundledPathEntries(libraryPath, Product, lib);
    UnbundledPathEntries(permittedPath, Product, lib);
    ExposedLibrariesEntries(libs, true);
  }
}
