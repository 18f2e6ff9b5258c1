# OpenCL environment — a Dafny model

This project models `OpenCLEnvironment`, Veil's per-device OpenCL runtime
environment. An environment owns the following:

- a native context and a command queue;
- a cache of compiled programs, each keyed by a resource name;
- per program, a map of lazily created kernels and a set of entry-point names
  that failed to create (the negative cache);
- an event dispatcher, chosen once from the device's capabilities.

It supports hot reload. `loadProgram` replaces a program entry only when the
new source compiles. On success the displaced entry is freed. On failure the
cache is left untouched and the failed program is released.

The native side is a `Driver` with a ghost trace (`native.dfy`). Every native
create, build, finish or release call is appended to that trace, and each
release obligation is stated as an equation on it. The model does not compute
native answers. The operations take them as parameters: a `Created(handle,
status)` for a context, queue or kernel, and a `BuildAnswer` for a program.

The modules are:

- `KernelCache` (`kernel_cache.dfy`): the per-name state machine behind
  `getKernel`. A name starts Unresolved. The first lookup that reaches native
  creation moves it to Resolved(kernel) or Invalid. Lemmas show three things
  about any series of lookups: creation is attempted at most once, settled
  names never change, and every lookup agrees with the first.
- `Releases` (`releases.dfy`): what teardown must release, as call sequences.
  The source walks hash maps, so the order is an arbitrary enumeration
  (`IsOrdering`). The lemmas show that every program and every cached kernel
  is released, and that nothing else is released.
- `OpenCLEnvironment` (`environment.dfy`): the classes. `Kernel` stands for a
  kernel handle. `ProgramData` holds the mutable kernel map and the invalid
  set. `Environment` has the constructor (`Open`, and `OpenAsWritten`
  for the source's failure path), `LoadProgram`, `GetKernel`,
  `Finish` and `Free`, each proved against the functions above. The
  accessors `getDevice`, `getEventDispatcher`, `getContext` and
  `getCommandQueue` are the `const` fields `device`, `eventDispatcher`,
  `context` and `commandQueue`.
- `Scenario` (`scenario.dfy`): client code for a hot-reload session that
  relies only on the contracts:
  - a broken edit keeps the cached kernel;
  - a good edit forces a new kernel;
  - an unknown entry point is asked of the native side once;
  - a second `Free` releases the queue and the context again.

### Behaviour worth noting

- **Negative cache.** Every kernel-creation error marks the name invalid.
  `CL_INVALID_KERNEL_NAME` is thrown at lines 155-156, and any other failing
  status is thrown by the check at line 158. The catch at 162-164 adds the
  name to the invalid set in both cases, so a transient failure stays cached
  until the program entry is replaced. `GetKernel` models this.
- **No already-freed guard.** `free()` (lines 180-196) keeps no freed flag,
  so a second call releases the queue and the context again.
  `Scenario.SecondFreeReleasesAgain` shows it. `ProgramData.free()`
  (lines 235-240) keeps none either.
- **Teardown order.** `free()` first frees the context callback, then
  releases the queue and the context (lines 181-187). After that it frees
  every program entry with its kernels (line 188), and finally closes the
  dispatcher (line 192). `Environment.Free` states this order.
- **Constructor failure.** The failure path in the constructor surfaces a
  dereference error instead of the creation error (see Findings).

## Model

| member | source | states |
|---|---|---|
| KernelCache.Step | Common/src/main/java/foundry/veil/opencl/OpenCLEnvironment.java:145-167 | A cached kernel or an invalid name is never looked up again: the state is unchanged. An unresolved name is settled by one attempt, and the lookup returns what creation produced (the kernel on success, null on any error). |
| KernelCache.Returns | Common/src/main/java/foundry/veil/opencl/OpenCLEnvironment.java:144-168 | A series of lookups against one unchanged entry yields one result per lookup. |
| KernelCache.SettledLookupsRepeat | Common/src/main/java/foundry/veil/opencl/OpenCLEnvironment.java:146-151 | Once a name is resolved or invalid, no later lookup calls native kernel creation, and each returns the cached kernel or null. |
| KernelCache.CreationAttemptedAtMostOnce | Common/src/main/java/foundry/veil/opencl/OpenCLEnvironment.java:150-165 | Over any series of lookups of one name, native creation is called at most once. It is called exactly once iff the name starts unresolved and is looked up at least once. |
| KernelCache.LookupsAgree | Common/src/main/java/foundry/veil/opencl/OpenCLEnvironment.java:145-167 | Every lookup in a series returns what the first returned: the same kernel object after a success (memoization), null after a failure (negative caching). |
| Releases.KernelReleasesAt | Common/src/main/java/foundry/veil/opencl/OpenCLEnvironment.java:237 | Walking the kernel map in a given order releases the i-th kernel of that order as the i-th call, and makes one call per kernel. |
| Releases.EachCachedKernelReleased | Common/src/main/java/foundry/veil/opencl/OpenCLEnvironment.java:237 | For any enumeration of the kernel map, every cached kernel is released, the number of releases equals the number of cached kernels, and nothing but cached kernels is released. |
| Releases.EntryReleasesCover | Common/src/main/java/foundry/veil/opencl/OpenCLEnvironment.java:235-237 | Freeing a program entry first releases its program, then releases each cached kernel: 1 + number-of-kernels calls. Nothing else is released. |
| Releases.TeardownReleasesEverything | Common/src/main/java/foundry/veil/opencl/OpenCLEnvironment.java:188 | Freeing the program entries in any order releases the program of every entry walked and every kernel cached in any of them. |
| Releases.TeardownReleasesNothingElse | Common/src/main/java/foundry/veil/opencl/OpenCLEnvironment.java:188 | Freeing the program entries releases nothing but the program of a walked entry or a kernel cached in one. |
| OpenCLEnvironment.InitFailure | Common/src/main/java/foundry/veil/opencl/OpenCLEnvironment.java:68-77 | Construction fails iff context creation fails, queue creation fails, or the queue pointer is null. |
| OpenCLEnvironment.InitCreates | Common/src/main/java/foundry/veil/opencl/OpenCLEnvironment.java:69-73 | Construction creates the context first. It creates the queue, on that context, iff context creation succeeded. It makes no other call. |
| OpenCLEnvironment.ConstructorMasksQueueError | Common/src/main/java/foundry/veil/opencl/OpenCLEnvironment.java:72-80 | With the context created and queue creation answering -6, the constructor as written fails with the null-map dereference, while the corrected one fails with the queue error. |
| OpenCLEnvironment.NativeReleases | Common/src/main/java/foundry/veil/opencl/OpenCLEnvironment.java:181-187 | The first half of `free()` always frees the context callback first. It releases the queue iff its pointer is non-null, and the context iff its pointer is non-null, and nothing else. |
| OpenCLEnvironment.InitCalls | Common/src/main/java/foundry/veil/opencl/OpenCLEnvironment.java:68-81 | Construction starts with context creation. A failed construction releases the context iff its pointer is non-null, and at most once. It releases the queue when that was created non-null. A successful one releases nothing. |
| OpenCLEnvironment.CompileCalls | Common/src/main/java/foundry/veil/opencl/OpenCLEnvironment.java:96-119 | Compilation creates the program, and builds it iff creation succeeded. A failed compile releases the program iff its pointer is non-null, and no other program. A successful one releases none. |
| OpenCLEnvironment.Kernel.Free | Common/src/main/java/foundry/veil/opencl/OpenCLEnvironment.java:237 | Freeing a kernel releases its pointer. |
| OpenCLEnvironment.ProgramData.constructor | Common/src/main/java/foundry/veil/opencl/OpenCLEnvironment.java:230-232 | A new entry holds the program pointer with an empty kernel map and an empty invalid set. |
| OpenCLEnvironment.ProgramData.Free | Common/src/main/java/foundry/veil/opencl/OpenCLEnvironment.java:234-240 | Releases the program, then every cached kernel in some enumeration of the map, then empties both caches. |
| OpenCLEnvironment.Environment.Init | Common/src/main/java/foundry/veil/opencl/OpenCLEnvironment.java:84-85 | A constructed environment starts with an empty program cache. Its dispatcher is the native one iff the device exposes clSetEventCallback. |
| OpenCLEnvironment.Environment.Open | Common/src/main/java/foundry/veil/opencl/OpenCLEnvironment.java:50-86 | Construction fails iff `InitFailure` says so, with that error. Its native calls are `InitCalls`, so whatever was created is released on failure. On success it yields a valid, fresh environment with an empty cache and the chosen dispatcher. |
| OpenCLEnvironment.Environment.CreateNative | Common/src/main/java/foundry/veil/opencl/OpenCLEnvironment.java:68-77 | The try block answers exactly `InitFailure` and makes exactly the `InitCreates` calls. |
| OpenCLEnvironment.Environment.OpenAsWritten | Common/src/main/java/foundry/veil/opencl/OpenCLEnvironment.java:50-86 | As written, construction makes the same native calls as `Open` (`InitCalls`) and fails in the same cases. Every failure surfaces as the null-map dereference raised by `free()`. |
| OpenCLEnvironment.Environment.FreeUnderConstruction | Common/src/main/java/foundry/veil/opencl/OpenCLEnvironment.java:180-188 | When the constructor's catch at line 79 calls `free()`, it makes the callback, queue and context releases, then fails on the unassigned program map. |
| OpenCLEnvironment.Environment.ReleaseNative | Common/src/main/java/foundry/veil/opencl/OpenCLEnvironment.java:181-187 | Performs exactly the calls of `NativeReleases`. |
| OpenCLEnvironment.Environment.LoadProgram | Common/src/main/java/foundry/veil/opencl/OpenCLEnvironment.java:94-121 | On a failed create or build, the cache and the existing entry are unchanged and only `CompileCalls` happen (no exception escapes). On success, the name maps to a fresh empty entry for the new program and other names are untouched. A displaced entry is emptied, and its program and every cached kernel are released after the compile calls. |
| OpenCLEnvironment.Environment.Compile | Common/src/main/java/foundry/veil/opencl/OpenCLEnvironment.java:96-107 | Reports success iff creation and build both succeed. Performs exactly `CompileCalls`. |
| OpenCLEnvironment.Environment.Install | Common/src/main/java/foundry/veil/opencl/OpenCLEnvironment.java:109-113 | Puts a fresh empty entry under the name, leaving the other names unchanged. Frees the displaced entry if there was one, and makes no native call otherwise. |
| OpenCLEnvironment.Environment.GetKernel | Common/src/main/java/foundry/veil/opencl/OpenCLEnvironment.java:144-168 | For an unknown program it returns null with no native call. Otherwise the name moves by `KernelCache.Step` and the result is the new state's kernel. Creation is called iff the name was unresolved. A new kernel is made iff that call succeeds, and any error status marks the name invalid. Other names and the program map are unchanged, and the caches stay disjoint. |
| OpenCLEnvironment.Environment.Finish | Common/src/main/java/foundry/veil/opencl/OpenCLEnvironment.java:175-177 | Calls clFinish on the queue. Fails iff the status is not success, surfacing that status. |
| OpenCLEnvironment.Environment.FreePrograms | Common/src/main/java/foundry/veil/opencl/OpenCLEnvironment.java:188 | Frees every program entry in some enumeration of the map. The calls made are `Releases.Teardown` of the cache as it was. |
| OpenCLEnvironment.Environment.Free | Common/src/main/java/foundry/veil/opencl/OpenCLEnvironment.java:180-196 | In order: callback, queue, context (`NativeReleases`), then every entry and its kernels (`Teardown`), then the dispatcher close. The cache is left empty. There is no guard, so a second call repeats the native releases. |
| Scenario.OpenOnCapableDevice | Common/src/main/java/foundry/veil/opencl/OpenCLEnvironment.java:85 | On a device exposing clSetEventCallback, with both creations succeeding, the environment uses the native dispatcher and starts empty. |

## Left out

- `loadProgram(ResourceLocation, ResourceProvider)` (lines 130-135) is not modelled. It reads a file through the resource system and then calls the modelled `loadProgram`; file I/O is outside the model.
- Logging is not modelled. This covers the build-log print at line 105, the log lines at 111, 115 and 163, and the body of the context error callback (62-65). Only the callback's release is kept.
- Native calls are not executed. Their results are parameters: `Created` for context, queue and kernel creation, `BuildAnswer` for program creation and build, and the status for `finish()`. The source text only matters as the argument recorded for program creation.
- An exception thrown by the native binding itself (as opposed to a status code) is not modelled.
- `CLKernel` and the event dispatcher classes are not part of this model. A kernel's `free()` is taken to release its kernel pointer. Closing the dispatcher is one recorded call. The `InterruptedException` that `free()` swallows at lines 191-195 makes no difference to the recorded calls.
- MemoryStack, PointerBuffer and IntBuffer handling are not modelled. Pointers are unbounded naturals with 0 as null, so no 64-bit width is modelled.
- OpenCLEnvironment.Environment.Free: does not restate that each freed entry ends with empty caches. `ProgramData.Free` states that per entry, and the map itself is cleared.
- OpenCLEnvironment.Environment.Open: models the corrected constructor, which surfaces the creation error. The source's constructor is `OpenAsWritten` (see Findings).
- Concurrency is not modelled. The source does no locking, and the model is single-threaded.

## Findings

| source | as written | input that shows it | evidently intended | confidence | as-written member | corrected member |
|---|---|---|---|---|---|---|
| Common/src/main/java/foundry/veil/opencl/OpenCLEnvironment.java:78-80 | The constructor's catch calls `free()` before `programs` is assigned (line 84). `free()` dereferences `programs` at line 188, so a NullPointerException replaces the creation error and the rethrow at line 80 is never reached. The callback, queue and context releases before it still happen. | Context created with CL_SUCCESS, queue creation answering status -6 (or any failing context or queue creation, or a null queue) | Release what was created, then rethrow the original error. Assigning `programs` earlier is not enough: `eventDispatcher` is also still unassigned when line 192 runs | high; not executed | OpenCLEnvironment.Environment.OpenAsWritten (exhibited by OpenCLEnvironment.ConstructorMasksQueueError) | OpenCLEnvironment.Environment.Open |
