/** The native OpenCL side as the environment sees it: opaque handles, status
    codes, and a driver that records, in a ghost trace, every native call made
    in the order it was made. What a native create call answers is not computed
    here: the modelled operations take it as a parameter. */
module Native {

  /** An opaque native pointer (cl_context, cl_command_queue, cl_program,
      cl_kernel); 0 is the null pointer. */
  type Handle = nat

  const NULL: Handle := 0

  /** OpenCL status codes the environment tests for. */
  const CL_SUCCESS: int := 0
  const CL_INVALID_KERNEL_NAME: int := -46

  /** The device an environment is bound to: the platform and device pointers
      and the address of the platform's clSetEventCallback entry point
      (0 when the platform does not provide it). */
  datatype DeviceInfo = DeviceInfo(platform: Handle, id: Handle, setEventCallback: nat)

  /** The two event dispatcher variants: native completion callbacks, or the
      legacy polling loop. */
  datatype Dispatcher = NativeDispatcher | LegacyDispatcher

  /** What a native create call hands back: the pointer it returned and the
      status it wrote into its errcode_ret buffer. */
  datatype Created = Created(handle: Handle, status: int)

  /** One call into the native API, or one release of a native resource. */
  datatype Call =
    | CreateContext(platform: Handle, device: Handle)
    | CreateCommandQueue(context: Handle, device: Handle)
    | CreateProgramWithSource(context: Handle, source: string)
    | BuildProgram(program: Handle, device: Handle)
    | CreateKernel(program: Handle, name: string)
    | FinishQueue(queue: Handle)
    | FreeCallback
    | ReleaseCommandQueue(queue: Handle)
    | ReleaseContext(context: Handle)
    | ReleaseProgram(program: Handle)
    | ReleaseKernel(kernel: Handle)
    | CloseDispatcher(dispatcher: Dispatcher)

  /** The native driver. Its only state is the ghost trace of calls made. */
  class Driver {
    ghost var trace: seq<Call>

    constructor ()
      ensures trace == []
    {
      trace := [];
    }

    method Invoke(c: Call)
      modifies this
      ensures trace == old(trace) + [c]
    {
      trace := trace + [c];
    }
  }
}
