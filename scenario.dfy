/** Clients of the environment: the steps of a hot-reload session, each
    checked from the contracts alone. */
module Scenario {
  import opened Wrappers
  import opened Native
  import opened KernelCache
  import opened OpenCLEnvironment

  const CL_BUILD_PROGRAM_FAILURE: int := -11

  /** Construction on a device with clSetEventCallback picks the native
      dispatcher and starts with an empty cache. */
  method OpenOnCapableDevice() returns (env: Environment)
    ensures env.Valid() && env.programs == map[] && env.eventDispatcher == NativeDispatcher
  {
    var driver := new Driver();
    var r := Environment.Open(DeviceInfo(1, 2, 0x7f00), driver, Created(10, CL_SUCCESS), Created(11, CL_SUCCESS));
    env := r.value;
  }

  /** A broken edit leaves the cached kernel in place. */
  method BrokenEditKeepsKernel(env: Environment)
    requires env.Valid()
    modifies env, env.driver, env.programs.Values
  {
    ghost var freed := env.LoadProgram("foo", "v1", BuildAnswer(20, CL_SUCCESS, CL_SUCCESS));
    var k1, k2;
    ghost var created;
    k1, created := env.GetKernel("foo", "main", Created(30, CL_SUCCESS));
    assert k1.Some? && k1.value.id == 30;
    freed := env.LoadProgram("foo", "v1 broken", BuildAnswer(21, CL_SUCCESS, CL_BUILD_PROGRAM_FAILURE));
    k2, created := env.GetKernel("foo", "main", Created(31, CL_SUCCESS));
    assert k2 == k1;
  }

  /** A good edit replaces the entry, so the next lookup creates a new kernel. */
  method GoodEditReplacesKernel(env: Environment)
    requires env.Valid()
    modifies env, env.driver, env.programs.Values
  {
    ghost var freed := env.LoadProgram("foo", "v1", BuildAnswer(20, CL_SUCCESS, CL_SUCCESS));
    var k1, k2;
    ghost var created;
    k1, created := env.GetKernel("foo", "main", Created(30, CL_SUCCESS));
    freed := env.LoadProgram("foo", "v2", BuildAnswer(22, CL_SUCCESS, CL_SUCCESS));
    k2, created := env.GetKernel("foo", "main", Created(33, CL_SUCCESS));
    assert k2.Some? && k2.value.id == 33 && k2 != k1;
  }

  /** An unknown entry point is asked of the native side once only. */
  method UnknownKernelAskedOnce(env: Environment)
    requires env.Valid()
    modifies env, env.driver, env.programs.Values
  {
    ghost var freed := env.LoadProgram("foo", "v1", BuildAnswer(20, CL_SUCCESS, CL_SUCCESS));
    var k;
    ghost var created;
    k, created := env.GetKernel("foo", "absent", Created(0, CL_INVALID_KERNEL_NAME));
    assert k == None;
    ghost var before := env.driver.trace;
    k, created := env.GetKernel("foo", "absent", Created(32, CL_SUCCESS));
    assert k == None && env.driver.trace == before;
  }

  /** free() has no already-freed guard: a second call releases the queue and
      the context again. */
  method SecondFreeReleasesAgain(env: Environment)
    requires env.Valid() && env.context != NULL
    modifies env, env.driver, env.programs.Values
  {
    ghost var names, orders := env.Free();
    var k;
    ghost var created;
    k, created := env.GetKernel("foo", "main", Created(34, CL_SUCCESS));
    assert k == None;
    ghost var before := env.driver.trace;
    names, orders := env.Free();
    assert env.driver.trace[|before|..] == NativeReleases(env.commandQueue, env.context) + [CloseDispatcher(env.eventDispatcher)];
    assert ReleaseContext(env.context) in env.driver.trace[|before|..];
  }
}
