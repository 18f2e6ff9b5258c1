/** An OpenCL runtime environment on one device: a context and command queue,
    a cache of compiled programs by name, each with its lazily created kernels
    and its negatively cached kernel names, and an event dispatcher chosen once
    from the device's capabilities. Every native call goes through a Driver,
    whose ghost trace is the record the release obligations are stated on. */
module OpenCLEnvironment {
  import opened Wrappers
  import opened Native
  import opened KernelCache
  import opened Releases

  /** A program name (a resource location in the source). */
  type Name = string

  /** Why construction failed. The last variant is what the source surfaces in
      place of the others (see Environment.OpenAsWritten). */
  datatype InitError =
    | ContextFailed(status: int)
    | QueueFailed(status: int)
    | NullQueue
    | NullProgramsDereference

  /** What native program creation and build answer: the program pointer
      clCreateProgramWithSource returned, the status it wrote to errcode_ret,
      and the status clBuildProgram returned. */
  datatype BuildAnswer = BuildAnswer(program: Handle, createStatus: int, buildStatus: int)

  predicate Built(a: BuildAnswer)
  {
    a.createStatus == CL_SUCCESS && a.buildStatus == CL_SUCCESS
  }

  /** The dispatcher variant for a device: native callbacks when the platform
      exposes clSetEventCallback, the polling loop otherwise. */
  function DispatcherFor(device: DeviceInfo): Dispatcher
  {
    if device.setEventCallback != 0 then NativeDispatcher else LegacyDispatcher
  }

  /** The first step of construction that fails, if any: context creation
      status, queue creation status, then a null queue pointer. */
  function InitFailure(context: Created, queue: Created): (e: Option<InitError>)
    ensures e.None? <==> context.status == CL_SUCCESS && queue.status == CL_SUCCESS && queue.handle != NULL
    ensures e.Some? ==> !e.value.NullProgramsDereference?
  {
    if context.status != CL_SUCCESS then Some(ContextFailed(context.status))
    else if queue.status != CL_SUCCESS then Some(QueueFailed(queue.status))
    else if queue.handle == NULL then Some(NullQueue)
    else None
  }

  /** The first half of teardown, shared by free() and the constructor's
      failure path: the context callback, then the queue and the context when
      their pointers are non-null. */
  function NativeReleases(queue: Handle, context: Handle): (calls: seq<Call>)
    ensures |calls| > 0 && calls[0] == FreeCallback
    ensures ReleaseCommandQueue(queue) in calls <==> queue != NULL
    ensures ReleaseContext(context) in calls <==> context != NULL
    ensures forall c :: c in calls ==> c == FreeCallback || c.ReleaseCommandQueue? || c.ReleaseContext?
  {
    [FreeCallback]
    + (if queue != NULL then [ReleaseCommandQueue(queue)] else [])
    + (if context != NULL then [ReleaseContext(context)] else [])
  }

  /** The creates of construction: the context, then the queue when the
      context was created. */
  function InitCreates(device: DeviceInfo, context: Created): (calls: seq<Call>)
    ensures |calls| > 0 && calls[0] == CreateContext(device.platform, device.id)
    ensures forall c :: c in calls ==> c.CreateContext? || c.CreateCommandQueue?
    ensures CreateCommandQueue(context.handle, device.id) in calls <==> context.status == CL_SUCCESS
  {
    [CreateContext(device.platform, device.id)]
    + (if context.status == CL_SUCCESS then [CreateCommandQueue(context.handle, device.id)] else [])
  }

  /** The queue field as free() finds it on the constructor's failure path:
      still unassigned (null) when context creation failed. */
  function QueueField(context: Created, queue: Created): (h: Handle)
    ensures context.status != CL_SUCCESS ==> h == NULL
  {
    if context.status == CL_SUCCESS then queue.handle else NULL
  }

  /** The native calls of one construction attempt. A failed attempt releases
      the context it created, exactly once, when its pointer is non-null, and
      the queue when it was created non-null; a successful one releases
      nothing. */
  function InitCalls(device: DeviceInfo, context: Created, queue: Created): (calls: seq<Call>)
    ensures |calls| > 0 && calls[0] == CreateContext(device.platform, device.id)
    ensures InitFailure(context, queue).Some? ==> (ReleaseContext(context.handle) in calls <==> context.handle != NULL)
    // a context release can only be the last call, so it happens at most once
    ensures forall i :: 0 <= i < |calls| - 1 ==> !calls[i].ReleaseContext?
    ensures InitFailure(context, queue).Some? && context.status == CL_SUCCESS && queue.handle != NULL ==>
              ReleaseCommandQueue(queue.handle) in calls
    ensures InitFailure(context, queue).None? ==>
              forall c :: c in calls ==> c.CreateContext? || c.CreateCommandQueue?
  {
    var creates := InitCreates(device, context);
    if InitFailure(context, queue).None? then creates
    else
      var releases := NativeReleases(QueueField(context, queue), context.handle);
      assert forall i :: 0 <= i < |creates| ==> !creates[i].ReleaseContext? by {
        forall i | 0 <= i < |creates| ensures !creates[i].ReleaseContext? {
          assert creates[i] in creates;
        }
      }
      assert forall i :: 0 <= i < |releases| - 1 ==> !releases[i].ReleaseContext? by {
        forall i | 0 <= i < |releases| - 1 ensures !releases[i].ReleaseContext? {
          assert releases[i] == FreeCallback || releases[i].ReleaseCommandQueue?;
        }
      }
      creates + releases
  }

  /** The native calls of compiling `source`. A failed create or build
      releases the new program exactly when its pointer is non-null; a
      successful build releases nothing. */
  function CompileCalls(context: Handle, device: Handle, source: string, a: BuildAnswer): (calls: seq<Call>)
    ensures |calls| > 0 && calls[0] == CreateProgramWithSource(context, source)
    ensures !Built(a) ==> (ReleaseProgram(a.program) in calls <==> a.program != NULL)
    ensures !Built(a) ==> forall c :: c in calls && c.ReleaseProgram? ==> c.program == a.program
    ensures Built(a) ==> forall c :: c in calls ==> !c.ReleaseProgram?
    ensures BuildProgram(a.program, device) in calls <==> a.createStatus == CL_SUCCESS
  {
    [CreateProgramWithSource(context, source)]
    + (if a.createStatus == CL_SUCCESS then [BuildProgram(a.program, device)] else [])
    + (if !Built(a) && a.program != NULL then [ReleaseProgram(a.program)] else [])
  }

  /** The pointers of the cached kernels, by name. */
  function KernelIds(kernels: map<string, Kernel>): (ids: map<string, Handle>)
    ensures ids.Keys == kernels.Keys
  {
    map n | n in kernels :: kernels[n].id
  }

  /** A compiled kernel owned by a program entry. CLKernel is not part of this
      model; its free() is taken to release its kernel pointer. */
  class Kernel {
    const id: Handle

    constructor (id: Handle)
      ensures this.id == id
    {
      this.id := id;
    }

    method Free(driver: Driver)
      modifies driver
      ensures driver.trace == old(driver.trace) + [ReleaseKernel(id)]
    {
      driver.Invoke(ReleaseKernel(id));
    }
  }

  /** One compiled program with its kernel cache and its invalid-name set. */
  class ProgramData {
    const id: Handle
    var kernels: map<string, Kernel>
    var invalidKernels: set<string>

    ghost predicate Valid()
      reads this
    {
      Disjoint(kernels, invalidKernels)
    }

    /** Where a kernel name stands in this entry. */
    ghost function State(name: string): KernelState<Kernel>
      reads this
    {
      StateOf(kernels, invalidKernels, name)
    }

    constructor (id: Handle)
      ensures this.id == id && kernels == map[] && invalidKernels == {}
      ensures Valid()
    {
      this.id := id;
      kernels := map[];
      invalidKernels := {};
    }

    /** Releases the program, then every cached kernel in some order, then
        empties both caches. */
    method Free(driver: Driver) returns (ghost order: seq<string>)
      modifies this, driver
      ensures kernels == map[] && invalidKernels == {} && Valid()
      ensures IsOrdering(order, old(kernels).Keys)
      ensures driver.trace == old(driver.trace) + EntryReleases(id, KernelIds(old(kernels)), order)
    {
      driver.Invoke(ReleaseProgram(id));
      ghost var ids := KernelIds(kernels);
      var rest := kernels.Keys;
      order := [];
      while rest != {}
        invariant rest <= kernels.Keys && kernels == old(kernels)
        invariant IsOrdering(order, kernels.Keys - rest)
        invariant driver.trace == old(driver.trace) + EntryReleases(id, ids, order)
        decreases rest
      {
        var n :| n in rest;
        kernels[n].Free(driver);
        assert KernelReleases(ids, order + [n]) == KernelReleases(ids, order) + [ReleaseKernel(ids[n])];
        order := order + [n];
        rest := rest - {n};
      }
      kernels := map[];
      invalidKernels := {};
    }
  }

  class Environment {
    const device: DeviceInfo
    const driver: Driver
    const context: Handle
    const commandQueue: Handle
    const eventDispatcher: Dispatcher
    var programs: map<Name, ProgramData>

    /** The queue is non-null, the dispatcher matches the device, every entry
        keeps its caches disjoint, and no entry object serves two names. */
    ghost predicate Valid()
      reads this, programs.Values
    {
      && commandQueue != NULL
      && eventDispatcher == DispatcherFor(device)
      && (forall n :: n in programs ==> programs[n].Valid())
      && (forall a, b :: a in programs && b in programs && a != b ==> programs[a] != programs[b])
    }

    /** The program cache as teardown finds it. */
    ghost function Snapshot(): map<Name, EntrySnapshot>
      reads this, programs.Values
    {
      map n | n in programs :: EntrySnapshot(programs[n].id, KernelIds(programs[n].kernels))
    }

    constructor Init(device: DeviceInfo, driver: Driver, context: Handle, commandQueue: Handle)
      requires commandQueue != NULL
      ensures this.device == device && this.driver == driver
      ensures this.context == context && this.commandQueue == commandQueue
      ensures eventDispatcher == DispatcherFor(device) && programs == map[]
      ensures Valid()
    {
      this.device := device;
      this.driver := driver;
      this.context := context;
      this.commandQueue := commandQueue;
      programs := map[];
      eventDispatcher := DispatcherFor(device);
    }

    /** The try block of the constructor: creates the context, then, when
        that succeeded, the queue; answers the first failure, if any. */
    static method CreateNative(device: DeviceInfo, driver: Driver, contextAnswer: Created, queueAnswer: Created)
      returns (failure: Option<InitError>)
      modifies driver
      ensures failure == InitFailure(contextAnswer, queueAnswer)
      ensures driver.trace == old(driver.trace) + InitCreates(device, contextAnswer)
    {
      driver.Invoke(CreateContext(device.platform, device.id));
      if contextAnswer.status != CL_SUCCESS {
        return Some(ContextFailed(contextAnswer.status));
      }
      driver.Invoke(CreateCommandQueue(contextAnswer.handle, device.id));
      if queueAnswer.status != CL_SUCCESS {
        return Some(QueueFailed(queueAnswer.status));
      }
      if queueAnswer.handle == NULL {
        return Some(NullQueue);
      }
      return None;
    }

    /** Construction with the failure path corrected: release what was
        created, then surface the failure, so that no environment escapes. */
    static method Open(device: DeviceInfo, driver: Driver, contextAnswer: Created, queueAnswer: Created)
      returns (r: Result<Environment, InitError>)
      modifies driver
      ensures driver.trace == old(driver.trace) + InitCalls(device, contextAnswer, queueAnswer)
      ensures r.Failure? <==> InitFailure(contextAnswer, queueAnswer).Some?
      ensures r.Failure? ==> r.error == InitFailure(contextAnswer, queueAnswer).value
      ensures r.Success? ==>
                && fresh(r.value) && r.value.Valid() && r.value.programs == map[]
                && r.value.device == device && r.value.driver == driver
                && r.value.context == contextAnswer.handle && r.value.commandQueue == queueAnswer.handle
                && r.value.eventDispatcher == DispatcherFor(device)
    {
      var failure := CreateNative(device, driver, contextAnswer, queueAnswer);
      if failure.Some? {
        ghost var created := driver.trace;
        ReleaseNative(driver, QueueField(contextAnswer, queueAnswer), contextAnswer.handle);
        assert driver.trace == created + NativeReleases(QueueField(contextAnswer, queueAnswer), contextAnswer.handle);
        return Failure(failure.value);
      }
      var env := new Environment.Init(device, driver, contextAnswer.handle, queueAnswer.handle);
      return Success(env);
    }

    /** Construction as the source writes it: the catch calls free() while the
        program map is still unassigned, so the error it rethrows is never
        reached and the dereference surfaces instead. */
    static method OpenAsWritten(device: DeviceInfo, driver: Driver, contextAnswer: Created, queueAnswer: Created)
      returns (r: Result<Environment, InitError>)
      modifies driver
      ensures driver.trace == old(driver.trace) + InitCalls(device, contextAnswer, queueAnswer)
      ensures r.Failure? <==> InitFailure(contextAnswer, queueAnswer).Some?
      ensures r.Failure? ==> r.error == NullProgramsDereference
      ensures r.Success? ==>
                && fresh(r.value) && r.value.Valid() && r.value.programs == map[]
                && r.value.context == contextAnswer.handle && r.value.commandQueue == queueAnswer.handle
    {
      var failure := CreateNative(device, driver, contextAnswer, queueAnswer);
      if failure.Some? {
        ghost var created := driver.trace;
        var e := FreeUnderConstruction(driver, QueueField(contextAnswer, queueAnswer), contextAnswer.handle);
        assert driver.trace == created + NativeReleases(QueueField(contextAnswer, queueAnswer), contextAnswer.handle);
        return Failure(e);
      }
      var env := new Environment.Init(device, driver, contextAnswer.handle, queueAnswer.handle);
      return Success(env);
    }

    /** free() as it runs from the constructor's catch: the callback, queue and
        context releases go through, then the walk over the program map
        dereferences the map, which is not assigned yet, and throws. */
    static method FreeUnderConstruction(driver: Driver, queue: Handle, context: Handle) returns (e: InitError)
      modifies driver
      ensures driver.trace == old(driver.trace) + NativeReleases(queue, context)
      ensures e == NullProgramsDereference
    {
      ReleaseNative(driver, queue, context);
      e := NullProgramsDereference;
    }

    /** The callback, queue and context releases of free(). */
    static method ReleaseNative(driver: Driver, queue: Handle, context: Handle)
      modifies driver
      ensures driver.trace == old(driver.trace) + NativeReleases(queue, context)
    {
      driver.Invoke(FreeCallback);
      if queue != NULL {
        driver.Invoke(ReleaseCommandQueue(queue));
      }
      if context != NULL {
        driver.Invoke(ReleaseContext(context));
      }
    }

    /** Compiles `source` under `name`. On success the new entry replaces the
        old one, which is then freed; on failure the cache is left as it was,
        the failed program is released when non-null, and nothing is raised. */
    method LoadProgram(name: Name, source: string, answer: BuildAnswer) returns (ghost freed: seq<string>)
      requires Valid()
      modifies this, driver, if name in programs then {programs[name]} else {}
      ensures Valid()
      ensures !Built(answer) ==>
                && programs == old(programs)
                && (name in programs ==> unchanged(programs[name]))
                && driver.trace == old(driver.trace) + CompileCalls(context, device.id, source, answer)
      ensures Built(answer) ==>
                && programs.Keys == old(programs).Keys + {name}
                && (forall n :: n in old(programs) && n != name ==> programs[n] == old(programs)[n])
                && fresh(programs[name]) && programs[name].id == answer.program
                && programs[name].kernels == map[] && programs[name].invalidKernels == {}
      ensures Built(answer) && name !in old(programs) ==>
                driver.trace == old(driver.trace) + CompileCalls(context, device.id, source, answer)
      ensures Built(answer) && name in old(programs) ==>
                && IsOrdering(freed, old(programs[name].kernels).Keys)
                && old(programs)[name].kernels == map[] && old(programs)[name].invalidKernels == {}
                && driver.trace == old(driver.trace) + CompileCalls(context, device.id, source, answer)
                                   + EntryReleases(old(programs[name].id), KernelIds(old(programs[name].kernels)), freed)
    {
      freed := [];
      var built := Compile(source, answer);
      if built {
        freed := Install(name, answer.program);
        if name in old(programs) {
          ghost var compiled := CompileCalls(context, device.id, source, answer);
          ghost var released := EntryReleases(old(programs[name].id), KernelIds(old(programs[name].kernels)), freed);
          assert old(driver.trace) + compiled + released == old(driver.trace) + (compiled + released);
        }
      }
    }

    /** The native half of loadProgram: create and build the program; on
        failure release it when its pointer is non-null. */
    method Compile(source: string, answer: BuildAnswer) returns (built: bool)
      modifies driver
      ensures built == Built(answer)
      ensures driver.trace == old(driver.trace) + CompileCalls(context, device.id, source, answer)
    {
      driver.Invoke(CreateProgramWithSource(context, source));
      var program := answer.program;
      var failed := answer.createStatus != CL_SUCCESS;
      if !failed {
        driver.Invoke(BuildProgram(program, device.id));
        failed := answer.buildStatus != CL_SUCCESS;
      }
      if failed && program != NULL {
        driver.Invoke(ReleaseProgram(program));
      }
      built := !failed;
    }

    /** The cache half of loadProgram: put a fresh entry for `program` under
        `name`, then free the entry it displaced, if any. */
    method Install(name: Name, program: Handle) returns (ghost freed: seq<string>)
      requires Valid()
      modifies this, driver, if name in programs then {programs[name]} else {}
      ensures Valid()
      ensures programs.Keys == old(programs).Keys + {name}
      ensures forall n :: n in old(programs) && n != name ==> programs[n] == old(programs)[n]
      ensures fresh(programs[name]) && programs[name].id == program
      ensures programs[name].kernels == map[] && programs[name].invalidKernels == {}
      ensures name !in old(programs) ==> driver.trace == old(driver.trace)
      ensures name in old(programs) ==>
                && IsOrdering(freed, old(programs[name].kernels).Keys)
                && old(programs)[name].kernels == map[] && old(programs)[name].invalidKernels == {}
                && driver.trace == old(driver.trace)
                                   + EntryReleases(old(programs[name].id), KernelIds(old(programs[name].kernels)), freed)
    {
      freed := [];
      var entry := new ProgramData(program);
      var previous := if name in programs then Some(programs[name]) else None;
      programs := programs[name := entry];
      if previous.Some? {
        freed := previous.value.Free(driver);
      }
    }

    /** Looks up kernel `kernelName` of program `program`, creating it on the
        first request. `answer` is what native kernel creation returns if it
        is called. Any creation error marks the name invalid. */
    method GetKernel(program: Name, kernelName: string, answer: Created)
      returns (k: Option<Kernel>, ghost created: Option<Kernel>)
      requires Valid()
      modifies driver, if program in programs then {programs[program]} else {}
      ensures Valid() && programs == old(programs)
      ensures program !in programs ==> k == None && driver.trace == old(driver.trace)
      ensures program in programs ==>
                var e := programs[program];
                var before := old(programs[program].State(kernelName));
                && e.State(kernelName) == Step(before, created)
                && k == Found(e.State(kernelName))
                && (created.Some? <==> Attempts(before) && answer.status == CL_SUCCESS)
                && (created.Some? ==> fresh(created.value) && created.value.id == answer.handle)
                && (forall n :: n != kernelName ==> e.State(n) == old(programs[program].State(n)))
                && driver.trace == old(driver.trace)
                                   + (if Attempts(before) then [CreateKernel(e.id, kernelName)] else [])
    {
      created := None;
      if program !in programs {
        return None, None;
      }
      var data := programs[program];
      if kernelName in data.invalidKernels {
        return None, None;
      }
      if kernelName in data.kernels {
        return Some(data.kernels[kernelName]), None;
      }
      driver.Invoke(CreateKernel(data.id, kernelName));
      // CL_INVALID_KERNEL_NAME and every other error status are caught alike
      if answer.status == CL_INVALID_KERNEL_NAME || answer.status != CL_SUCCESS {
        data.invalidKernels := data.invalidKernels + {kernelName};
        return None, None;
      }
      var kernel := new Kernel(answer.handle);
      data.kernels := data.kernels[kernelName := kernel];
      return Some(kernel), Some(kernel);
    }

    /** Blocks until the queue drains; a non-success status is surfaced. */
    method Finish(status: int) returns (r: Outcome<int>)
      modifies driver
      ensures driver.trace == old(driver.trace) + [FinishQueue(commandQueue)]
      ensures r.Fail? <==> status != CL_SUCCESS
      ensures r.Fail? ==> r.error == status
    {
      driver.Invoke(FinishQueue(commandQueue));
      r := if status != CL_SUCCESS then Fail(status) else Pass;
    }

    /** The forEach(free) over the program entries, in some order; the map
        itself is left to the caller. */
    method FreePrograms() returns (ghost names: seq<Name>, ghost orders: seq<seq<string>>)
      requires Valid()
      modifies driver, programs.Values
      ensures IsOrdering(names, programs.Keys) && Fits(old(Snapshot()), names, orders)
      ensures driver.trace == old(driver.trace) + Teardown(old(Snapshot()), names, orders)
    {
      ghost var snap := Snapshot();
      ghost var entries := programs;
      assert forall a, b :: a in entries && b in entries && a != b ==> entries[a] != entries[b];
      var rest := programs.Keys;
      ghost var done: set<Name> := {};
      names, orders := [], [];
      while rest != {}
        invariant programs == entries
        invariant rest !! done && rest + done == entries.Keys
        invariant IsOrdering(names, done)
        invariant Fits(snap, names, orders)
        invariant forall m :: m in rest ==> entries[m].kernels == old(entries[m].kernels)
        invariant driver.trace == old(driver.trace) + Teardown(snap, names, orders)
        decreases rest
      {
        var n :| n in rest;
        ghost var e := snap[n];
        assert e == EntrySnapshot(programs[n].id, KernelIds(programs[n].kernels));
        ghost var order := programs[n].Free(driver);
        TeardownAppend(old(driver.trace), snap, names, orders, n, order);
        OrderingAppend(names, done, n);
        names, orders := names + [n], orders + [order];
        rest, done := rest - {n}, done + {n};
      }
    }

    /** Tears everything down: callback, queue, context, every program entry
        (in some order) with its kernels, then the dispatcher. There is no
        already-freed guard: a second call releases queue and context again. */
    method Free() returns (ghost names: seq<Name>, ghost orders: seq<seq<string>>)
      requires Valid()
      modifies this, driver, programs.Values
      ensures Valid() && programs == map[]
      ensures IsOrdering(names, old(programs).Keys) && Fits(old(Snapshot()), names, orders)
      ensures driver.trace == old(driver.trace) + NativeReleases(commandQueue, context)
                              + Teardown(old(Snapshot()), names, orders) + [CloseDispatcher(eventDispatcher)]
    {
      ghost var snap := Snapshot();
      ReleaseNative(driver, commandQueue, context);
      assert Snapshot() == snap;
      names, orders := FreePrograms();
      programs := map[];
      driver.Invoke(CloseDispatcher(eventDispatcher));
    }
  }

  /** A queue creation error, for one, never reaches the caller of the
      constructor as written; the corrected constructor surfaces it. */
  method ConstructorMasksQueueError() returns (asWritten: Result<Environment, InitError>, corrected: Result<Environment, InitError>)
    ensures asWritten == Failure(NullProgramsDereference)
    ensures corrected == Failure(QueueFailed(-6))
  {
    var device := DeviceInfo(1, 2, 0);
    var driver := new Driver();
    asWritten := Environment.OpenAsWritten(device, driver, Created(1, CL_SUCCESS), Created(0, -6));
    corrected := Environment.Open(device, driver, Created(1, CL_SUCCESS), Created(0, -6));
  }
}
