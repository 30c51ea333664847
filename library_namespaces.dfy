/**
 * LibraryNamespaces: the per-process state of the native loader's namespace
 * engine — the list of (class loader, namespace) pairs and the flag saying
 * whether the anonymous public namespace has been initialized — and the
 * operations on it.
 */
module NativeLoader {
  import opened Wrappers
  import opened Outcome
  import opened Strings
  import opened Origin
  import opened Policy
  import opened Linker
  import opened Loaders
  import opened Registry

  /** What Create returns: a pointer to the new entry's namespace, null with an error message, or a fatal abort. */
  datatype CreateResult = Created(index: nat) | Failed(errorMsg: string) | Aborted(fatal: FatalError)

  /** A namespace created and linked, or the error of the step that failed. */
  datatype NamespaceOutcome = Made(ns: AppNamespace) | NotMade(errorMsg: string)

  /**
   * Create gets past its first two steps: the dex path names at most one
   * partition, and the public namespace is either not due for initialization
   * or initializes successfully.
   */
  function PassesBootstrap(dexPath: Option<string>, javaLibraryPath: Option<string>, wasInitialized: bool,
                           linker: DynamicLinker, bridge: NativeBridge): bool {
    GetApkOriginFromDexPath(dexPath).Ok? &&
    !(LibraryPathOf(javaLibraryPath) != [] && !wasInitialized && !AnonymousNamespaceOk(linker, bridge))
  }

  /**
   * The flag after Create has passed the origin check: the public namespace
   * is initialized on the first call with a non-empty library path, and the
   * flag is left alone otherwise.
   */
  function InitializedAfter(javaLibraryPath: Option<string>, wasInitialized: bool,
                            linker: DynamicLinker, bridge: NativeBridge): (r: bool)
    ensures wasInitialized ==> r
    ensures !wasInitialized && LibraryPathOf(javaLibraryPath) == [] ==> !r
    ensures !wasInitialized && LibraryPathOf(javaLibraryPath) != [] ==> (r <==> AnonymousNamespaceOk(linker, bridge))
  {
    if LibraryPathOf(javaLibraryPath) != [] && !wasInitialized then AnonymousNamespaceOk(linker, bridge) else wasInitialized
  }

  /** Create gets as far as asking the linker for the namespace: past bootstrap, and the loader is new. */
  function ReachesCreate(dexPath: Option<string>, javaLibraryPath: Option<string>, wasInitialized: bool,
                         entries: seq<Entry>, classLoader: LoaderId, linker: DynamicLinker, bridge: NativeBridge): bool {
    PassesBootstrap(dexPath, javaLibraryPath, wasInitialized, linker, bridge) && !Registered(entries, classLoader)
  }

  /**
   * The namespace Create asks the linker for and the links it makes from it,
   * or the error that stops it: NativeLoaderNamespace::Create failing, or the
   * first link that fails.
   */
  function PlannedNamespace(origin: ApkOrigin, targetSdk: uint32, classLoader: LoaderId, isShared: bool,
                            libraryPath: string, permittedPath: string, entries: seq<Entry>,
                            libs: PublicLibraries, lib: string, loaders: Hierarchy, linker: DynamicLinker): NamespaceOutcome
    requires loaders.Valid()
  {
    var policy := ComputePolicy(origin, targetSdk, isShared, libraryPath, permittedPath, libs, lib);
    var plan := LinkPlan(policy, libs, linker);
    if !linker.createOk then NotMade(linker.namespaceError)
    else if FirstLinkFailure(plan, linker).Some? then NotMade(FirstLinkFailure(plan, linker).value)
    else
      Made(AppNamespace(
        NamespaceConfig(policy.namespaceName, policy.libraryPath, policy.permittedPath,
                        NearestRegistered(loaders, entries, classLoader), isShared, policy.greylistEnabled),
        linker.createsBridged, plan))
  }

  class LibraryNamespaces {
    var initialized: bool
    var namespaces: seq<Entry>

    ghost predicate Valid()
      reads this
    {
      DistinctLoaders(namespaces) && ParentsPrecede(namespaces)
    }

    constructor ()
      ensures Valid() && !initialized && namespaces == []
    {
      initialized := false;
      namespaces := [];
    }

    /**
     * Preloads the default public libraries with dlopen, one soname at a time,
     * stopping fatally at the first one that does not load; does nothing once
     * the public namespace is initialized. `attempted` lists the sonames
     * handed to dlopen, in order.
     */
    method Initialize(defaultPublic: string, linker: DynamicLinker)
      returns (fatal: Option<FatalError>, attempted: seq<string>)
      ensures initialized ==> fatal.None? && attempted == []
      ensures !initialized && fatal.None? ==>
        attempted == Split(defaultPublic, ':') &&
        forall i :: 0 <= i < |attempted| ==> attempted[i] in linker.loadable
      ensures !initialized && fatal.Some? ==>
        var n := |attempted|;
        1 <= n <= |Split(defaultPublic, ':')| && attempted == Split(defaultPublic, ':')[..n] &&
        attempted[n - 1] !in linker.loadable && fatal == Some(PreloadFailed(attempted[n - 1])) &&
        forall i :: 0 <= i < n - 1 ==> attempted[i] in linker.loadable
    {
      if initialized {
        return None, [];
      }
      var sonames := Split(defaultPublic, ':');
      attempted := [];
      for i := 0 to |sonames|
        invariant attempted == sonames[..i]
        invariant forall j :: 0 <= j < i ==> sonames[j] in linker.loadable
      {
        attempted := attempted + [sonames[i]];
        if sonames[i] !in linker.loadable {
          return Some(PreloadFailed(sonames[i])), attempted;
        }
      }
      fatal := None;
    }

    /** The first entry whose class loader is `classLoader` (find_if over the list), by position. */
    method FindNamespaceByClassLoader(classLoader: LoaderId) returns (r: Option<nat>)
      ensures r.Some? ==>
        r.value < |namespaces| && namespaces[r.value].loader == classLoader &&
        forall j :: 0 <= j < r.value ==> namespaces[j].loader != classLoader
      ensures r.None? ==> forall j :: 0 <= j < |namespaces| ==> namespaces[j].loader != classLoader
      ensures r == Lookup(namespaces, classLoader)
    {
      var i := 0;
      while i < |namespaces|
        invariant 0 <= i <= |namespaces|
        invariant forall j :: 0 <= j < i ==> namespaces[j].loader != classLoader
      {
        if namespaces[i].loader == classLoader {
          return Some(i);
        }
        i := i + 1;
      }
      return None;
    }

    /**
     * Walks up from the parent of `classLoader` and returns the namespace of
     * the first ancestor that has one, or none when the chain runs out.
     */
    method FindParentNamespaceByClassLoader(classLoader: LoaderId, loaders: Hierarchy) returns (r: Option<nat>)
      requires loaders.Valid()
      ensures r == NearestRegistered(loaders, namespaces, classLoader)
      ensures r.None? <==>
        forall i :: 0 <= i < |loaders.Ancestors(classLoader)| ==> !Registered(namespaces, loaders.Ancestors(classLoader)[i])
      ensures r.Some? ==>
        exists i :: 0 <= i < |loaders.Ancestors(classLoader)| && r == Lookup(namespaces, loaders.Ancestors(classLoader)[i]) &&
          forall j :: 0 <= j < i ==> !Registered(namespaces, loaders.Ancestors(classLoader)[j])
    {
      NearestRegisteredIsNearestAncestor(loaders, namespaces, classLoader);
      var parent := loaders.GetParent(classLoader);
      while parent.Some?
        invariant ScanFrom(loaders, namespaces, parent) == NearestRegistered(loaders, namespaces, classLoader)
        decreases loaders.Measure(parent)
      {
        var ns := FindNamespaceByClassLoader(parent.value);
        if ns.Some? {
          return ns;
        }
        parent := loaders.GetParent(parent.value);
      }
      return None;
    }

    /**
     * Initializes the anonymous namespace with `libraryPath` as its search
     * path (null when the native bridge claims the path), then the bridge's
     * anonymous namespace when the bridge is initialized (with the path only
     * when the bridge claims it). `initialized` ends up as the last answer.
     * `calls` lists the two foreign requests made, in order.
     */
    method InitPublicNamespace(libraryPath: string, libs: PublicLibraries, linker: DynamicLinker, bridge: NativeBridge)
      returns (ok: bool, errorMsg: Option<string>, calls: seq<AnonymousInit>)
      modifies this`initialized
      ensures initialized == ok && ok == AnonymousNamespaceOk(linker, bridge)
      ensures ok ==> errorMsg.None?
      ensures calls == AnonymousRequests(libraryPath, libs, linker, bridge)
      ensures !ok ==> errorMsg == Some(AnonymousNamespaceError(linker, bridge))
      ensures linker.anonymousNamespaceOk && bridge.initialized ==> initialized == bridge.anonymousNamespaceOk
      ensures var isBridged := libraryPath in bridge.supportedPaths;
        1 <= |calls| <= 2 &&
        calls[0] == LinkerAnonymousInit(libs.defaultPublic, if isBridged then None else Some(libraryPath)) &&
        (|calls| == 2 <==> linker.anonymousNamespaceOk && bridge.initialized) &&
        (|calls| == 2 ==> calls[1] == BridgeAnonymousInit(libs.defaultPublic, if isBridged then Some(libraryPath) else None))
    {
      var isBridged := libraryPath in bridge.supportedPaths;
      calls := [LinkerAnonymousInit(libs.defaultPublic, if isBridged then None else Some(libraryPath))];
      initialized := linker.anonymousNamespaceOk;
      errorMsg := None;
      if !initialized {
        return false, Some(linker.dlError), calls;
      }
      if bridge.initialized {
        calls := calls + [BridgeAnonymousInit(libs.defaultPublic, if isBridged then Some(libraryPath) else None)];
        initialized := bridge.anonymousNamespaceOk;
        if !initialized {
          errorMsg := Some(bridge.error);
        }
      }
      ok := initialized;
    }

    /**
     * Links a freshly created app namespace to the shared namespaces, in
     * order: platform, runtime when present, vndk for an unbundled app with
     * VNDK-SP libraries when present, and the vendor namespace whenever vendor
     * libraries are listed. Returns the links made and, on the first failure,
     * its error; the source returns at that point.
     */
    static method LinkToSharedNamespaces(policy: EffectivePolicy, libs: PublicLibraries, linker: DynamicLinker)
      returns (links: seq<Link>, linkError: Option<string>)
      ensures linkError == FirstLinkFailure(LinkPlan(policy, libs, linker), linker)
      ensures linkError.None? ==> links == LinkPlan(policy, libs, linker)
    {
      ghost var runtime, vndk, vendor := RuntimeStep(libs, linker), VndkStep(policy, libs, linker), VendorStep(libs, linker);
      FirstLinkFailureAppend([PlatformLink(policy)], runtime, linker);
      FirstLinkFailureAppend([PlatformLink(policy)] + runtime, vndk, linker);
      FirstLinkFailureAppend([PlatformLink(policy)] + runtime + vndk, vendor, linker);

      links, linkError := [], None;
      var link := PlatformLink(policy);
      if !LinkSucceeds(linker, link) {
        return links, Some(LinkError(linker, link));
      }
      links := links + [link];
      if linker.runtimePresent {
        link := RuntimeLink(libs);
        if !LinkSucceeds(linker, link) {
          return links, Some(LinkError(linker, link));
        }
        links := links + [link];
      }
      if policy.unbundled && libs.vndksp != [] && linker.vndkPresent {
        link := VndkLink(libs);
        if !LinkSucceeds(linker, link) {
          return links, Some(LinkError(linker, link));
        }
        links := links + [link];
      }
      if libs.vendorPublic != [] {
        link := VendorLink(libs, linker);
        if !LinkSucceeds(linker, link) {
          return links, Some(LinkError(linker, link));
        }
        links := links + [link];
      }
    }

    /**
     * The middle of Create, which reads the list but does not change it:
     * compute the policy, find the parent namespace, create the namespace
     * and link it. The created namespace carries the policy's name and paths,
     * the nearest registered ancestor's namespace as parent, the shared flag,
     * the greylist flag and exactly the planned links.
     */
    method NewAppNamespace(origin: ApkOrigin, targetSdk: uint32, classLoader: LoaderId, isShared: bool,
                           libraryPath: string, permittedPath: string,
                           libs: PublicLibraries, lib: string, loaders: Hierarchy, linker: DynamicLinker)
      returns (outcome: NamespaceOutcome)
      requires loaders.Valid()
      ensures var policy := ComputePolicy(origin, targetSdk, isShared, libraryPath, permittedPath, libs, lib);
        var plan := LinkPlan(policy, libs, linker);
        (!linker.createOk ==> outcome == NotMade(linker.namespaceError)) &&
        (linker.createOk && FirstLinkFailure(plan, linker).Some? ==> outcome == NotMade(FirstLinkFailure(plan, linker).value)) &&
        (linker.createOk && FirstLinkFailure(plan, linker).None? ==>
          outcome == Made(AppNamespace(
            NamespaceConfig(policy.namespaceName, policy.libraryPath, policy.permittedPath,
                            NearestRegistered(loaders, namespaces, classLoader), isShared, policy.greylistEnabled),
            linker.createsBridged, plan)))
      ensures outcome == PlannedNamespace(origin, targetSdk, classLoader, isShared, libraryPath, permittedPath,
                                          namespaces, libs, lib, loaders, linker)
      ensures outcome.Made? ==> outcome.ns.config.parent.Some? ==>
        outcome.ns.config.parent.value < |namespaces| && namespaces[outcome.ns.config.parent.value].loader in loaders.Ancestors(classLoader)
    {
      var policy := ComputePolicy(origin, targetSdk, isShared, libraryPath, permittedPath, libs, lib);
      var parent := FindParentNamespaceByClassLoader(classLoader, loaders);
      if !linker.createOk {
        return NotMade(linker.namespaceError);
      }
      var config := NamespaceConfig(policy.namespaceName, policy.libraryPath, policy.permittedPath,
                                    parent, isShared, policy.greylistEnabled);
      var links, linkError := LinkToSharedNamespaces(policy, libs, linker);
      if linkError.Some? {
        return NotMade(linkError.value);
      }
      outcome := Made(AppNamespace(config, linker.createsBridged, links));
    }

    /**
     * Creates, links and registers the namespace of `classLoader`. In order:
     * classify the dex path (fatal when it names two partitions), compute the
     * permitted path, initialize the public namespace with the first
     * non-empty library path, abort fatally if the loader already has a
     * namespace, compute the policy, find the parent namespace, create the
     * namespace and link it. Any failure returns without touching the list;
     * success appends exactly one entry and returns its position.
     */
    method Create(targetSdk: uint32, classLoader: LoaderId, isShared: bool, dexPath: Option<string>,
                  javaLibraryPath: Option<string>, javaPermittedPath: Option<string>,
                  libs: PublicLibraries, lib: string, loaders: Hierarchy,
                  linker: DynamicLinker, bridge: NativeBridge)
      returns (r: CreateResult, bootstrap: seq<AnonymousInit>)
      requires Valid() && loaders.Valid()
      modifies this
      ensures Valid()
      ensures !(GetApkOriginFromDexPath(dexPath).Ok? && LibraryPathOf(javaLibraryPath) != [] && !old(initialized)) ==>
        bootstrap == []
      ensures GetApkOriginFromDexPath(dexPath).Ok? && LibraryPathOf(javaLibraryPath) != [] && !old(initialized) ==>
        var path := LibraryPathOf(javaLibraryPath);
        bootstrap == AnonymousRequests(path, libs, linker, bridge) &&
        bootstrap[0] == LinkerAnonymousInit(libs.defaultPublic, if path in bridge.supportedPaths then None else Some(path))
      ensures GetApkOriginFromDexPath(dexPath).Fatal? ==>
        r == Aborted(BothVendorAndProduct) && initialized == old(initialized)
      ensures GetApkOriginFromDexPath(dexPath).Ok? ==>
        initialized == InitializedAfter(javaLibraryPath, old(initialized), linker, bridge)
      ensures GetApkOriginFromDexPath(dexPath).Ok? && !PassesBootstrap(dexPath, javaLibraryPath, old(initialized), linker, bridge) ==>
        r == Failed(AnonymousNamespaceError(linker, bridge))
      ensures r == Aborted(NamespaceAlreadyExists) <==>
        PassesBootstrap(dexPath, javaLibraryPath, old(initialized), linker, bridge) && Registered(old(namespaces), classLoader)
      ensures ReachesCreate(dexPath, javaLibraryPath, old(initialized), old(namespaces), classLoader, linker, bridge) ==>
        var outcome := PlannedNamespace(GetApkOriginFromDexPath(dexPath).value, targetSdk, classLoader, isShared,
                                        LibraryPathOf(javaLibraryPath), PermittedPath(javaPermittedPath),
                                        old(namespaces), libs, lib, loaders, linker);
        (outcome.NotMade? ==> r == Failed(outcome.errorMsg)) &&
        (outcome.Made? ==> r == Created(|old(namespaces)|) && namespaces == old(namespaces) + [Entry(classLoader, outcome.ns)])
      ensures !r.Created? ==> namespaces == old(namespaces)
      ensures r.Created? ==> Lookup(namespaces, classLoader) == Some(r.index)
    {
      var libraryPath := LibraryPathOf(javaLibraryPath);
      var origin := GetApkOriginFromDexPath(dexPath);
      bootstrap := [];
      if origin.Fatal? {
        return Aborted(origin.error), bootstrap;
      }
      var permittedPath := PermittedPath(javaPermittedPath);

      if libraryPath != [] && !initialized {
        var ok, errorMsg;
        ok, errorMsg, bootstrap := InitPublicNamespace(libraryPath, libs, linker, bridge);
        if !ok {
          return Failed(errorMsg.value), bootstrap;
        }
      }

      r := Register(origin.value, targetSdk, classLoader, isShared, libraryPath, permittedPath,
                    libs, lib, loaders, linker);
    }

    /**
     * Create called twice for the same class loader with the same arguments:
     * once the first call has registered a namespace, the second asks for no
     * bootstrap, aborts on the duplicate, and the list holds exactly the one
     * new entry.
     */
    method CreateTwice(targetSdk: uint32, classLoader: LoaderId, isShared: bool, dexPath: Option<string>,
                       javaLibraryPath: Option<string>, javaPermittedPath: Option<string>,
                       libs: PublicLibraries, lib: string, loaders: Hierarchy,
                       linker: DynamicLinker, bridge: NativeBridge)
      returns (first: CreateResult, second: CreateResult, secondBootstrap: seq<AnonymousInit>)
      requires Valid() && loaders.Valid()
      modifies this
      ensures Valid()
      ensures first.Created? ==>
        second == Aborted(NamespaceAlreadyExists) && secondBootstrap == [] && |namespaces| == |old(namespaces)| + 1
    {
      var firstBootstrap;
      first, firstBootstrap := Create(targetSdk, classLoader, isShared, dexPath, javaLibraryPath, javaPermittedPath,
                                      libs, lib, loaders, linker, bridge);
      second, secondBootstrap := Create(targetSdk, classLoader, isShared, dexPath, javaLibraryPath, javaPermittedPath,
                                        libs, lib, loaders, linker, bridge);
    }

    /**
     * The second half of Create, once the public namespace is in place:
     * abort fatally if `classLoader` already has a namespace; otherwise make
     * the namespace and, when that succeeds, append its entry and return the
     * entry's position.
     */
    method Register(origin: ApkOrigin, targetSdk: uint32, classLoader: LoaderId, isShared: bool,
                    libraryPath: string, permittedPath: string,
                    libs: PublicLibraries, lib: string, loaders: Hierarchy, linker: DynamicLinker)
      returns (r: CreateResult)
      requires Valid() && loaders.Valid()
      modifies this`namespaces
      ensures Valid()
      ensures Registered(old(namespaces), classLoader) ==> r == Aborted(NamespaceAlreadyExists)
      ensures !Registered(old(namespaces), classLoader) ==>
        var outcome := PlannedNamespace(origin, targetSdk, classLoader, isShared, libraryPath, permittedPath,
                                        old(namespaces), libs, lib, loaders, linker);
        (outcome.NotMade? ==> r == Failed(outcome.errorMsg)) &&
        (outcome.Made? ==> r == Created(|old(namespaces)|) && namespaces == old(namespaces) + [Entry(classLoader, outcome.ns)])
      ensures !r.Created? ==> namespaces == old(namespaces)
      ensures r.Created? ==> Lookup(namespaces, classLoader) == Some(r.index)
    {
      var found := FindNamespaceByClassLoader(classLoader);
      if found.Some? {
        return Aborted(NamespaceAlreadyExists);
      }
      var outcome := NewAppNamespace(origin, targetSdk, classLoader, isShared, libraryPath, permittedPath,
                                     libs, lib, loaders, linker);
      if outcome.NotMade? {
        return Failed(outcome.errorMsg);
      }
      var entry := Entry(classLoader, outcome.ns);
      AppendKeepsInvariants(namespaces, entry);
      LookupAppend(namespaces, entry, classLoader);
      namespaces := namespaces + [entry];
      r := Created(|namespaces| - 1);
    }
  }
}
