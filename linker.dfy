/**
 * The dynamic linker as the engine sees it. NativeLoaderNamespace, dlopen,
 * android_init_anonymous_namespace and the NativeBridge entry points are
 * foreign code: the model receives their answers as the fields of
 * DynamicLinker and NativeBridge, and records what the engine asked of them
 * (the configuration of the namespace it created, the links it made).
 */
module Linker {
  import opened Wrappers
  import opened Policy

  const VendorNamespaceName: string := "sphal"
  const VndkNamespaceName: string := "vndk"
  const RuntimeNamespaceName: string := "runtime"

  /** The three namespaces the linker exports by name. */
  datatype Exported = Runtime | Vndk | Sphal {
    /** The name the namespace is looked up under. */
    function Name(): string {
      match this
      case Runtime => RuntimeNamespaceName
      case Vndk => VndkNamespaceName
      case Sphal => VendorNamespaceName
    }
  }

  /** The platform namespace, or one of the exported ones. */
  datatype LinkTarget = PlatformNamespace | ExportedNamespace(exported: Exported)

  /** A link from the app namespace to `target`, sharing the colon-joined `sharedLibraries`. */
  datatype Link = Link(target: LinkTarget, targetIsNil: bool, sharedLibraries: string)

  /**
   * The arguments of NativeLoaderNamespace::Create. `parent` stands for the
   * parent namespace pointer: the position of its entry in the registry.
   */
  datatype NamespaceConfig = NamespaceConfig(
    name: string,
    libraryPath: string,
    permittedPath: string,
    parent: Option<nat>,
    isShared: bool,
    greylistEnabled: bool)

  /** A namespace created for a class loader, with the links made from it, in order. */
  datatype AppNamespace = AppNamespace(config: NamespaceConfig, bridged: bool, links: seq<Link>)

  /** What the linker answers to each request Create and Initialize make. */
  datatype DynamicLinker = DynamicLinker(
    loadable: set<string>,          // sonames dlopen succeeds on
    anonymousNamespaceOk: bool,     // android_init_anonymous_namespace
    createOk: bool,                 // NativeLoaderNamespace::Create
    createsBridged: bool,           // IsBridged() of the namespace it creates
    runtimePresent: bool,           // GetExportedNamespace("runtime") is not nil
    vndkPresent: bool,              // GetExportedNamespace("vndk") is not nil
    vendorPresent: bool,            // GetExportedNamespace("sphal") is not nil
    platformLinkOk: bool,
    runtimeLinkOk: bool,
    vndkLinkOk: bool,
    vendorLinkOk: bool,
    namespaceError: string,         // NativeLoaderNamespace::GetError()
    dlError: string)                // dlerror()

  /** What the native bridge answers. */
  datatype NativeBridge = NativeBridge(
    supportedPaths: set<string>,    // NativeBridgeIsPathSupported
    initialized: bool,              // NativeBridgeInitialized
    anonymousNamespaceOk: bool,     // NativeBridgeInitAnonymousNamespace
    error: string)                  // NativeBridgeGetError

  /** A request to initialize an anonymous namespace: public libraries and search path (null or a path). */
  datatype AnonymousInit =
    | LinkerAnonymousInit(publicLibraries: string, searchPath: Option<string>)
    | BridgeAnonymousInit(publicLibraries: string, searchPath: Option<string>)

  /**
   * The requests InitPublicNamespace makes for `libraryPath`: the linker's
   * anonymous namespace always, with the path unless the native bridge
   * claims it; then, when the linker succeeded and the bridge is
   * initialized, the bridge's anonymous namespace, with the path only when
   * the bridge claims it. Both get the default public libraries.
   */
  function AnonymousRequests(libraryPath: string, libs: PublicLibraries, linker: DynamicLinker, bridge: NativeBridge)
    : (calls: seq<AnonymousInit>)
    ensures var isBridged := libraryPath in bridge.supportedPaths;
      1 <= |calls| <= 2 &&
      calls[0] == LinkerAnonymousInit(libs.defaultPublic, if isBridged then None else Some(libraryPath)) &&
      (|calls| == 2 <==> linker.anonymousNamespaceOk && bridge.initialized) &&
      (|calls| == 2 ==> calls[1] == BridgeAnonymousInit(libs.defaultPublic, if isBridged then Some(libraryPath) else None))
  {
    var isBridged := libraryPath in bridge.supportedPaths;
    [LinkerAnonymousInit(libs.defaultPublic, if isBridged then None else Some(libraryPath))] +
    if linker.anonymousNamespaceOk && bridge.initialized
    then [BridgeAnonymousInit(libs.defaultPublic, if isBridged then Some(libraryPath) else None)]
    else []
  }

  /** Whether the public namespace ends up initialized: the linker's answer, then the bridge's when it is active. */
  function AnonymousNamespaceOk(linker: DynamicLinker, bridge: NativeBridge): bool {
    linker.anonymousNamespaceOk && (!bridge.initialized || bridge.anonymousNamespaceOk)
  }

  /** The error message of a failed initialization: dlerror() first, the bridge's error second. */
  function AnonymousNamespaceError(linker: DynamicLinker, bridge: NativeBridge): string {
    if !linker.anonymousNamespaceOk then linker.dlError else bridge.error
  }

  function LinkSucceeds(linker: DynamicLinker, link: Link): bool {
    match link.target
    case PlatformNamespace => linker.platformLinkOk
    case ExportedNamespace(Runtime) => linker.runtimeLinkOk
    case ExportedNamespace(Vndk) => linker.vndkLinkOk
    case ExportedNamespace(Sphal) => linker.vendorLinkOk
  }

  /** The error text Create reports for a failed link: dlerror() for the vendor link, GetError() otherwise. */
  function LinkError(linker: DynamicLinker, link: Link): string {
    if link.target == ExportedNamespace(Sphal) then linker.dlError else linker.namespaceError
  }

  function PlatformLink(policy: EffectivePolicy): Link {
    Link(PlatformNamespace, false, policy.exposedLibraries)
  }

  function RuntimeLink(libs: PublicLibraries): Link {
    Link(ExportedNamespace(Runtime), false, libs.runtimePublic)
  }

  function VndkLink(libs: PublicLibraries): Link {
    Link(ExportedNamespace(Vndk), false, libs.vndksp)
  }

  function VendorLink(libs: PublicLibraries, linker: DynamicLinker): Link {
    Link(ExportedNamespace(Sphal), !linker.vendorPresent, libs.vendorPublic)
  }

  /** Position of a link target in the escalating-trust order. */
  function TargetRank(target: LinkTarget): nat {
    match target
    case PlatformNamespace => 0
    case ExportedNamespace(Runtime) => 1
    case ExportedNamespace(Vndk) => 2
    case ExportedNamespace(Sphal) => 3
  }

  /** The links Create makes, in order, when every one of them succeeds. */
  function LinkPlan(policy: EffectivePolicy, libs: PublicLibraries, linker: DynamicLinker): seq<Link> {
    [PlatformLink(policy)] + RuntimeStep(libs, linker) + VndkStep(policy, libs, linker) + VendorStep(libs, linker)
  }

  /** The optional middle and final links of the plan, one list per step. */
  function RuntimeStep(libs: PublicLibraries, linker: DynamicLinker): seq<Link> {
    if linker.runtimePresent then [RuntimeLink(libs)] else []
  }

  function VndkStep(policy: EffectivePolicy, libs: PublicLibraries, linker: DynamicLinker): seq<Link> {
    if policy.unbundled && libs.vndksp != [] && linker.vndkPresent then [VndkLink(libs)] else []
  }

  function VendorStep(libs: PublicLibraries, linker: DynamicLinker): seq<Link> {
    if libs.vendorPublic != [] then [VendorLink(libs, linker)] else []
  }

  /**
   * Which links the plan holds: platform first, always, with the exposed
   * list; runtime when that namespace exists; vndk for an unbundled app with
   * a non-empty VNDK-SP list when vndk exists; the vendor namespace, last,
   * whenever the vendor list is not empty, nil or not; and nothing else.
   */
  lemma LinkPlanContents(policy: EffectivePolicy, libs: PublicLibraries, linker: DynamicLinker)
    ensures var plan := LinkPlan(policy, libs, linker);
      |plan| >= 1 && plan[0] == PlatformLink(policy) &&
      (RuntimeLink(libs) in plan <==> linker.runtimePresent) &&
      (VndkLink(libs) in plan <==> policy.unbundled && libs.vndksp != [] && linker.vndkPresent) &&
      (VendorLink(libs, linker) in plan <==> libs.vendorPublic != []) &&
      (libs.vendorPublic != [] ==> plan[|plan| - 1] == VendorLink(libs, linker)) &&
      (forall l :: l in plan ==>
        l == PlatformLink(policy) || l == RuntimeLink(libs) || l == VndkLink(libs) || l == VendorLink(libs, linker))
  {
  }

  /**
   * The plan links in order of increasing trust: platform, runtime, vndk,
   * vendor. This follows directly from the definition of the plan.
   */
  lemma LinkPlanOrder(policy: EffectivePolicy, libs: PublicLibraries, linker: DynamicLinker)
    ensures var plan := LinkPlan(policy, libs, linker);
      forall i, j :: 0 <= i < j < |plan| ==> TargetRank(plan[i].target) < TargetRank(plan[j].target)
  {
  }

  /**
   * Whether the exported namespaces exist never changes what the platform
   * link exposes. This holds by construction, since the platform link is
   * built from the policy alone; the lemma records it as a property.
   */
  lemma PlatformLinkIgnoresPresence(policy: EffectivePolicy, libs: PublicLibraries,
                                    linker: DynamicLinker, runtime: bool, vndk: bool, vendor: bool)
    ensures LinkPlan(policy, libs, linker)[0] ==
            LinkPlan(policy, libs, linker.(runtimePresent := runtime, vndkPresent := vndk, vendorPresent := vendor))[0]
  {
  }

  /** The outcome of making the links of `plan` in order: the error of the first one that fails, if any. */
  function FirstLinkFailure(plan: seq<Link>, linker: DynamicLinker): Option<string>
    decreases |plan|
  {
    if plan == [] then None
    else if !LinkSucceeds(linker, plan[0]) then Some(LinkError(linker, plan[0]))
    else FirstLinkFailure(plan[1..], linker)
  }

  /**
   * Making the links stops at the first failure: the outcome is none exactly
   * when every link succeeds, and otherwise the error of a failing link all
   * of whose predecessors succeeded.
   */
  lemma {:induction false} FirstLinkFailureMeaning(plan: seq<Link>, linker: DynamicLinker)
    ensures FirstLinkFailure(plan, linker).None? <==> forall i :: 0 <= i < |plan| ==> LinkSucceeds(linker, plan[i])
    ensures FirstLinkFailure(plan, linker).Some? ==>
      exists i :: 0 <= i < |plan| && !LinkSucceeds(linker, plan[i]) &&
        FirstLinkFailure(plan, linker).value == LinkError(linker, plan[i]) &&
        forall j :: 0 <= j < i ==> LinkSucceeds(linker, plan[j])
    decreases |plan|
  {
    if plan != [] && LinkSucceeds(linker, plan[0]) {
      FirstLinkFailureMeaning(plan[1..], linker);
      assert forall i :: 1 <= i < |plan| ==> plan[i] == plan[1..][i - 1];
      if FirstLinkFailure(plan, linker).Some? {
        var k :| 0 <= k < |plan[1..]| && !LinkSucceeds(linker, plan[1..][k]) &&
          FirstLinkFailure(plan[1..], linker).value == LinkError(linker, plan[1..][k]) &&
          forall j :: 0 <= j < k ==> LinkSucceeds(linker, plan[1..][j]);
        assert plan[k + 1] == plan[1..][k];
      }
    }
  }

  /** Making the links of `a` then those of `b` stops in `a` if a link of `a` fails, and otherwise behaves as `b` alone. */
  lemma {:induction false} FirstLinkFailureAppend(a: seq<Link>, b: seq<Link>, linker: DynamicLinker)
    ensures FirstLinkFailure(a + b, linker) ==
      if FirstLinkFailure(a, linker).Some? then FirstLinkFailure(a, linker) else FirstLinkFailure(b, linker)
    decreases |a|
  {
    if a == [] {
      assert a + b == b;
    } else {
      assert (a + b)[0] == a[0] && (a + b)[1..] == a[1..] + b;
      FirstLinkFailureAppend(a[1..], b, linker);
    }
  }

  /** The outcome of making the links only depends on how the linker answers for those links. */
  lemma {:induction false} FirstLinkFailureDependsOnAnswers(plan: seq<Link>, linker: DynamicLinker, other: DynamicLinker)
    requires forall i :: 0 <= i < |plan| ==>
      LinkSucceeds(other, plan[i]) == LinkSucceeds(linker, plan[i]) && LinkError(other, plan[i]) == LinkError(linker, plan[i])
    ensures FirstLinkFailure(plan, other) == FirstLinkFailure(plan, linker)
    decreases |plan|
  {
    if plan != [] {
      assert forall i :: 0 <= i < |plan[1..]| ==> plan[1..][i] == plan[i + 1];
      FirstLinkFailureDependsOnAnswers(plan[1..], linker, other);
    }
  }

  /**
   * An exported namespace that does not exist is never linked to, so it can
   * never make Create fail: whatever the linker would answer for a link to
   * an absent runtime or vndk namespace, the plan and its outcome are the same.
   */
  lemma AbsentNamespacesNeverFail(policy: EffectivePolicy, libs: PublicLibraries, linker: DynamicLinker, other: DynamicLinker)
    requires other == linker.(runtimeLinkOk := other.runtimeLinkOk, vndkLinkOk := other.vndkLinkOk)
    requires linker.runtimePresent ==> other.runtimeLinkOk == linker.runtimeLinkOk
    requires linker.vndkPresent ==> other.vndkLinkOk == linker.vndkLinkOk
    ensures LinkPlan(policy, libs, other) == LinkPlan(policy, libs, linker)
    ensures FirstLinkFailure(LinkPlan(policy, libs, other), other) == FirstLinkFailure(LinkPlan(policy, libs, linker), linker)
  {
    var plan := LinkPlan(policy, libs, linker);
    LinkPlanContents(policy, libs, linker);
    forall i | 0 <= i < |plan|
      ensures LinkSucceeds(other, plan[i]) == LinkSucceeds(linker, plan[i])
    {
      assert plan[i] in plan;
    }
    FirstLinkFailureDependsOnAnswers(plan, linker, other);
  }
}
