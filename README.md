# Native loader namespace policy — a Dafny model

This project models the namespace-policy engine of Android's native loader
(`libnativeloader/library_namespaces.cpp`). For every Java class loader that
loads native code, the engine creates an isolated linker namespace and links it
to the shared namespaces. The model covers four parts:

- **Origin classifier** (`origin.dfy`). `GetApkOriginFromDexPath` sorts a dex
  path into default, vendor or product, using the two partition regular
  expressions. It aborts when both of them match.
- **Policy** (`policy.dfy`). These are pure functions for the strings `Create`
  computes:
  - the permitted path (the `/data:/mnt/expand` whitelist plus the caller's
    path);
  - the unbundled vendor/product decision;
  - the partition library directories added to both paths;
  - the library list exposed from the platform namespace (default public,
    plus LLNDK or plus extended public);
  - the namespace name and the greylist flag.
- **Linking** (`linker.dfy`). This is the plan of links `Create` makes: platform,
  then runtime, vndk and vendor (`sphal`, the constructor `Linker.Exported.Sphal`), each under its own condition. Making
  the links stops at the first failure.
- **Registry and bootstrap state** (`registry.dfy`, `loaders.dfy`,
  `library_namespaces.dfy`). The class `NativeLoader.LibraryNamespaces` holds
  the list of (class loader, namespace) pairs and the `initialized` flag. Its
  methods are `Initialize`, `Create`, `FindNamespaceByClassLoader`,
  `InitPublicNamespace` and `FindParentNamespaceByClassLoader`.

Colon-joined lists are strings. `Strings.Split` follows `android::base::Split`:
empty pieces are kept, so `""` is one empty piece. The policy lemmas state
their results entry by entry through `Split`.

The foreign code the engine calls cannot be seen here. Its answers are inputs:
- `Linker.DynamicLinker` holds the answers of `dlopen`, `dlerror`,
  `android_init_anonymous_namespace`, and `NativeLoaderNamespace`'s create,
  link, `IsBridged` and exported-namespace lookups.
- `Linker.NativeBridge` holds the answers of the `NativeBridge*` entry points.
- `Policy.PublicLibraries` holds the library lists of `public_libraries.h`.
- `Loaders.Hierarchy` holds the class loaders' parents. That is what
  `GetParentClassLoader` returns. Each loader with a parent carries a depth,
  and the depth makes the parent walk finite.
- `lib` stands for the `LIB` macro of `utils.h`; `utils.h` is not part of this
  model.

The model records what the engine asks of this foreign code: the sonames it
preloads, the anonymous-namespace requests, the configuration of the namespace
it creates, and the links it makes. A pointer into the registry is the position
of its entry. The list is only appended to, so a position stays valid.

`Create` is one function in the source. Here its steps are four methods. They
are called in the source's order, with the source's early returns:
- `Create`: the origin check, the paths and bootstrap;
- `Register`: the duplicate check, then the append;
- `NewAppNamespace`: the policy, the parent and the namespace;
- `LinkToSharedNamespaces`: the links.

In these places the code is easy to misread; the model follows the code:
- The origin is classified before the public namespace is initialized. A dex
  path that names both partitions aborts before any initialization.
- The duplicate-loader check is not a precondition of `Create`. It comes after
  bootstrap, so a bootstrap failure is reported first, as a recoverable error.
- The vendor link is attempted only when the vendor public list is not empty.
  It is then attempted even when the vendor namespace does not exist. Its
  error text is `dlerror()`; every other link reports `GetError()`.
- `Initialize` checks only the `initialized` flag. Only `InitPublicNamespace`
  sets that flag. So `Initialize` preloads again on every call until the public
  namespace has been initialized.

## Model

| member | source | states |
|---|---|---|
| Strings.Split | libnativeloader/library_namespaces.cpp:124 | `android::base::Split` with the one delimiter ':': at least one piece, empty pieces kept. Its meaning is proved by `JoinSplit`, `SplitJoin` and `SplitPiecesHaveNoSeparator`. |
| Strings.JoinSplit | libnativeloader/library_namespaces.cpp:124 | Joining the pieces of a split with the separator gives back the original string. |
| Strings.SplitJoin | libnativeloader/library_namespaces.cpp:124 | Splitting a join of separator-free pieces gives back exactly those pieces. |
| Strings.SplitPiecesHaveNoSeparator | libnativeloader/library_namespaces.cpp:124 | No piece of a split contains the separator. |
| Strings.SplitWithoutSeparator | libnativeloader/library_namespaces.cpp:124 | A string without the separator splits into the one-element list of itself. |
| Strings.SplitAt | libnativeloader/library_namespaces.cpp:124 | Splitting at a separator at index k gives the pieces before k followed by the pieces after it. |
| Strings.SplitConcat | libnativeloader/library_namespaces.cpp:155 | Two lists glued with one ':' split into the first list's pieces followed by the second's. |
| Origin.SearchFrom | libnativeloader/library_namespaces.cpp:67-68 | The scan from index i is true exactly when the marker occurs at some j >= i, at the start or right after a ':'. |
| Origin.Search | libnativeloader/library_namespaces.cpp:67-68 | The scan is true exactly when the marker occurs somewhere at the start of the path or right after a ':', which is what the regular expression matches. |
| Origin.GetApkOriginFromDexPath | libnativeloader/library_namespaces.cpp:85-104 | A null path is default. For a path: fatal (both partitions) iff both patterns match; vendor iff only the vendor pattern matches; product iff only the product pattern matches (either spelling); default iff neither matches. |
| Policy.LibraryPathOf | libnativeloader/library_namespaces.cpp:135-140 | Definition: a null Java library path reads as the empty string, otherwise its text. `InitializedAfter` and `Create` state how emptiness gates bootstrap. |
| Policy.PermittedPath | libnativeloader/library_namespaces.cpp:150-157 | The result starts with the whitelist. It is exactly the whitelist iff the caller's path is null or empty. Otherwise ':' and the caller's path follow. |
| Policy.PermittedPathEntries | libnativeloader/library_namespaces.cpp:62 | As a list, the permitted path is /data, /mnt/expand, then the entries of the caller's non-empty path. |
| Policy.IsUnbundled | libnativeloader/library_namespaces.cpp:172-175 | Unbundled implies unshared and not default. An unshared vendor app is unbundled. A product app is unbundled iff it is unshared and targets an SDK above 29. |
| Policy.OriginLibPath | libnativeloader/library_namespaces.cpp:182-194 | Definition of the switch: kVendorLibPath for vendor, kProductLibPath for product, empty otherwise. Its entries are proved by `ProductLibPathEntries` and `UnbundledPathEntries`. |
| Policy.WithOriginLibPath | libnativeloader/library_namespaces.cpp:179-196 | An ordinary app's path is unchanged. An unbundled app's path is followed by ':' and its partition's library path, even when the path is empty. |
| Policy.ProductLibPathEntries | libnativeloader/library_namespaces.cpp:65 | kProductLibPath is the two directories /product/LIB and /system/product/LIB. |
| Policy.UnbundledPathEntries | libnativeloader/library_namespaces.cpp:64-65 | An unbundled app's path gains exactly /vendor/LIB, or /product/LIB and /system/product/LIB, after its own entries. |
| Policy.ExposedLibraries | libnativeloader/library_namespaces.cpp:169-211 | Definition of the exposed list; its meaning is proved by `ExposedLibrariesEntries` and `ExposedLibrariesTrustBoundary`. |
| Policy.ExposedLibrariesEntries | libnativeloader/library_namespaces.cpp:169-211 | Exposed list: unbundled gets default plus LLNDK entries; ordinary with non-empty extended gets default plus extended entries; ordinary with empty extended gets exactly the default list. |
| Policy.ExposedLibrariesTrustBoundary | libnativeloader/library_namespaces.cpp:198-209 | An ordinary app's exposed list never depends on LLNDK; an unbundled app's never depends on the extended list. |
| Policy.ComputePolicy | libnativeloader/library_namespaces.cpp:169-217 | The policy's unbundled flag is the unbundled decision. The name is vendor-classloader-namespace for an unbundled app and classloader-namespace for every other app. Both paths are the caller's paths after origin handling (`WithOriginLibPath` with the app's own origin), and the exposed list is `ExposedLibraries` for the unbundled flag. The greylist flag is set iff the target SDK is below 24. |
| Policy.SharedLoaderIsOrdinary | libnativeloader/library_namespaces.cpp:172-174 | A shared loader of any origin gets the default origin's policy: the plain name, unchanged paths, no LLNDK. |
| Policy.LegacyProductAppIsOrdinary | libnativeloader/library_namespaces.cpp:172-173 | A product app targeting SDK 29 or lower gets exactly the policy of a default-origin app. |
| Policy.UnbundledProductApp | libnativeloader/library_namespaces.cpp:172-202 | An unshared product app above SDK 29 has /product/LIB and /system/product/LIB appended to both paths' entries, LLNDK appended to the exposed entries, and the vendor namespace name. |
| Policy.UnbundledVendorApp | libnativeloader/library_namespaces.cpp:172-202 | An unshared vendor app, at any SDK, has /vendor/LIB appended to both paths' entries and LLNDK appended to the exposed entries. |
| Linker.AnonymousRequests | libnativeloader/library_namespaces.cpp:279-296 | The linker's anonymous namespace is always requested with the default public list, and with the path unless the bridge claims it. The bridge's is requested second iff the linker succeeded and the bridge is initialized, with the path only when the bridge claims it. |
| Linker.AnonymousNamespaceOk | libnativeloader/library_namespaces.cpp:287-303 | Definition: the linker's answer, and then the bridge's when the bridge is initialized. Used by `InitPublicNamespace` and `InitializedAfter`. |
| Linker.AnonymousNamespaceError | libnativeloader/library_namespaces.cpp:289-300 | Definition: dlerror() when the linker fails, otherwise the bridge's error. Used by `InitPublicNamespace` and `Create`. |
| Linker.LinkError | libnativeloader/library_namespaces.cpp:227-258 | Definition: the vendor link reports dlerror(), every other link GetError(). `FirstLinkFailureMeaning` proves which link's error is reported. |
| Linker.LinkPlan | libnativeloader/library_namespaces.cpp:226-259 | Definition of the links made when all succeed; its meaning is proved by `LinkPlanContents` and `LinkPlanOrder`. |
| Linker.LinkPlanContents | libnativeloader/library_namespaces.cpp:226-259 | Platform comes first with the exposed list. Runtime is in the plan iff present. Vndk is in iff unbundled, VNDK-SP is non-empty and vndk is present. Vendor is in iff its list is non-empty, and then it is last. Nothing else is in the plan. |
| Linker.LinkPlanOrder | libnativeloader/library_namespaces.cpp:226-259 | The links are in strictly increasing trust order: platform, runtime, vndk, vendor. |
| Linker.PlatformLinkIgnoresPresence | libnativeloader/library_namespaces.cpp:226-230 | Which exported namespaces exist never changes the platform link. |
| Linker.FirstLinkFailure | libnativeloader/library_namespaces.cpp:227-258 | Definition of the early returns over the plan; its meaning is proved by `FirstLinkFailureMeaning` and `FirstLinkFailureAppend`. |
| Linker.FirstLinkFailureMeaning | libnativeloader/library_namespaces.cpp:227-258 | The outcome is none iff every link succeeds. Otherwise it is the error of a failing link whose predecessors all succeed. |
| Linker.FirstLinkFailureAppend | libnativeloader/library_namespaces.cpp:227-258 | Making a then b stops in a if a link of a fails; otherwise the outcome is b's. |
| Linker.FirstLinkFailureDependsOnAnswers | libnativeloader/library_namespaces.cpp:227-258 | Two linkers that answer alike for the plan's links give the same outcome. |
| Linker.AbsentNamespacesNeverFail | libnativeloader/library_namespaces.cpp:232-248 | Changing what the linker would answer for an absent runtime or vndk namespace changes neither the plan nor its outcome. |
| Loaders.Hierarchy.GetParent | libnativeloader/library_namespaces.cpp:77-83 | Definition: the loader's parent, or null at the top. `ChainFollowsParents` and `ChainDescends` prove that the walk over it ends. |
| Loaders.Hierarchy.ChainFollowsParents | libnativeloader/library_namespaces.cpp:306-320 | The chain starts at the start loader, follows the parent relation step by step, and ends at a loader without a parent. |
| Loaders.Hierarchy.ChainDescends | libnativeloader/library_namespaces.cpp:306-320 | Every loader above the start has a strictly smaller depth and is not the start loader. |
| Loaders.Hierarchy.NotOwnAncestor | libnativeloader/library_namespaces.cpp:306-308 | A loader is never among its own ancestors. |
| Registry.Lookup | libnativeloader/library_namespaces.cpp:266-277 | Finds the first entry with that loader; none iff no entry has it. |
| Registry.ScanFrom | libnativeloader/library_namespaces.cpp:306-320 | A found position is inside the list. |
| Registry.ScanFindsFirstRegistered | libnativeloader/library_namespaces.cpp:310-319 | The scan finds nothing iff no chain member is registered. Otherwise it returns the lookup of a chain member with every earlier member unregistered. |
| Registry.NearestRegistered | libnativeloader/library_namespaces.cpp:306-320 | Definition: the scan starting at the parent; its meaning is proved by `NearestRegisteredIsNearestAncestor`. |
| Registry.NearestRegisteredIsNearestAncestor | libnativeloader/library_namespaces.cpp:306-320 | The parent's namespace is that of the nearest registered strict ancestor, never the loader's own entry; none iff no ancestor is registered. |
| Registry.LookupAppend | libnativeloader/library_namespaces.cpp:261-263 | After an append, every registered loader is found where it was. A new loader is found at the end. Every other loader is still absent. |
| Registry.AppendKeepsInvariants | libnativeloader/library_namespaces.cpp:165-167 | Appending an unregistered loader whose parent entry is already present keeps loaders distinct and parents before children. |
| NativeLoader.PassesBootstrap | libnativeloader/library_namespaces.cpp:142-163 | Definition: the origin is accepted, and the public namespace is not due or initializes. `Create` states each outcome in terms of it. |
| NativeLoader.PlannedNamespace | libnativeloader/library_namespaces.cpp:213-259 | Definition of the namespace made, or the error of the step that stops it. `NewAppNamespace` spells out each case. |
| NativeLoader.InitializedAfter | libnativeloader/library_namespaces.cpp:159-163 | A set flag stays set. An unset flag stays unset for an empty library path. For a non-empty path it becomes the public-namespace initialization result. |
| NativeLoader.LibraryNamespaces.Initialize | libnativeloader/library_namespaces.cpp:108-128 | Once initialized, it does nothing. Otherwise it preloads the split default list in order. It stops fatally at the first soname that does not load, having attempted exactly the prefix up to it; on success every soname loaded. |
| NativeLoader.LibraryNamespaces.FindNamespaceByClassLoader | libnativeloader/library_namespaces.cpp:266-277 | Returns the position of the first entry with an identical loader; none iff no entry has it. |
| NativeLoader.LibraryNamespaces.FindParentNamespaceByClassLoader | libnativeloader/library_namespaces.cpp:306-320 | Returns the entry of the nearest registered ancestor, starting at the parent, or none when no ancestor is registered. |
| NativeLoader.LibraryNamespaces.InitPublicNamespace | libnativeloader/library_namespaces.cpp:279-304 | The flag is the linker's answer, then the bridge's when the bridge is initialized. The error text is dlerror() or the bridge's. The search path goes to the linker unless the bridge claims it, and to the bridge only then. The bridge is asked only after the linker succeeds. |
| NativeLoader.LibraryNamespaces.LinkToSharedNamespaces | libnativeloader/library_namespaces.cpp:223-259 | The error is that of the first failing link of the plan. On success the links made are exactly the plan, in order. |
| NativeLoader.LibraryNamespaces.NewAppNamespace | libnativeloader/library_namespaces.cpp:213-259 | A create failure reports GetError(); otherwise the first link failure is reported. On success the namespace carries the policy's name, paths and greylist flag, the shared flag, the nearest registered ancestor's namespace as parent, and exactly the planned links. |
| NativeLoader.LibraryNamespaces.Create | libnativeloader/library_namespaces.cpp:130-264 | Both partitions abort fatally with nothing changed. No anonymous-namespace request is made unless the origin is accepted, the library path is non-empty and the flag is unset; then the requests are those of `InitPublicNamespace` for the caller's own library path (before any partition directory is added) and the default public list. Otherwise the flag follows the bootstrap rule, and a bootstrap failure returns its error. An already registered loader aborts iff bootstrap passed. Otherwise the create or link error is returned with the list unchanged, or exactly one entry is appended and its position returned. |
| NativeLoader.LibraryNamespaces.Register | libnativeloader/library_namespaces.cpp:165-263 | A registered loader aborts. Otherwise a failure leaves the list unchanged, and success appends the one planned entry at the end. The registry invariants are kept, and the new entry is what a lookup of the loader finds. |
| NativeLoader.LibraryNamespaces.CreateTwice | libnativeloader/library_namespaces.cpp:165-167 | After a first call with the same arguments registers the loader, a second call aborts on the duplicate, leaving one new entry in all. |

## Left out

- JNI is not modelled: `FindClass`, `GetMethodID`, `CallObjectMethod`,
  `NewWeakGlobalRef` and `IsSameObject`. A class loader is an opaque identity
  compared by equality, and its parent comes from `Loaders.Hierarchy`.
- `ScopedUtfChars` is not modelled. A Java string is `Option<string>`. A failed
  UTF conversion (a null `c_str()` on a non-null Java string) is not modelled.
- Foreign calls are not modelled inside: `dlopen`, `dlerror`,
  `android_init_anonymous_namespace`, `NativeBridgeIsPathSupported`,
  `NativeBridgeInitialized`, `NativeBridgeInitAnonymousNamespace`,
  `NativeBridgeGetError`, and the internals of `NativeLoaderNamespace`. Their
  answers are fixed values given to the call, so each call sees one answer per
  primitive.
- Bridged platform and exported namespaces are not modelled.
  `GetPlatformNamespace` and `GetExportedNamespace` use `is_bridged` to choose
  between the linker's and the bridge's namespaces, inside
  `NativeLoaderNamespace`, which is not part of this model. The model records
  the bridged flag on the namespace it creates.
- The library lists of `public_libraries.h` are fixed strings. How they are
  read from configuration files is not modelled; `public_libraries.h` is not
  part of this model.
- The `LIB` macro of `utils.h` is the parameter `lib`. Its value per ABI is not
  modelled.
- `std::regex` is not modelled in general. The two fixed patterns are decided
  exactly by the anchored-marker predicates in `Origin`.
- Logging is not modelled: `ALOGD` and the message text of
  `LOG_ALWAYS_FATAL_IF`. A fatal check becomes a distinguished result,
  `Outcome.FatalError`.
- The weak references' liveness and the lock the callers hold are not modelled.
  The engine itself has no concurrency logic.
- NativeLoader.LibraryNamespaces.constructor: the header that declares the
  fields and their initial values is not part of this model. The constructor
  starts from an empty list and an unset flag.
- NativeLoader.LibraryNamespaces.Create: the result index stands for the
  pointer `&namespaces_.back().second`. Pointer stability of the list is not
  modelled.
