/**
 The state of the CUDA machine description (`ExternMetadata` in cuda.go):
 per-device capability profiles, the memory arena, the batched contexts,
 the pending-work flags and the lifecycle flag.

 The source keeps the capability data in parallel slices indexed by device
 id (`warp`, `mtpb`, `mgdx`, ..., `freeMem`, `totalMem`); here one `Profile`
 per device holds the same ten values.
 */
module Machine {
  import opened Wrappers

  /** One device's hardware limits and memory statistics. */
  datatype Profile = Profile(
    warp: int,      // WarpSize
    mtpb: int,      // MaxThreadsPerBlock
    mgdx: int,      // MaxGridDimX
    mgdy: int,      // MaxGridDimY
    mgdz: int,      // MaxGridDimZ
    mbdx: int,      // MaxBlockDimX
    mbdy: int,      // MaxBlockDimY
    mbdz: int,      // MaxBlockDimZ
    freeMem: int,
    totalMem: int)

  /** The value Go's `make([]int, n)` leaves in every slot. */
  const ZeroProfile := Profile(0, 0, 0, 0, 0, 0, 0, 0, 0, 0)

  /** An opaque handle to a slab of device memory. */
  datatype Memory = Memory(ptr: nat)

  /** All recycled slabs of one size on one device (the source's `memoryQueue`). */
  type Pool = seq<Memory>

  /** One device's pools keyed by size in bytes; None is Go's nil map. */
  type DevicePools = Option<map<nat, Pool>>

  /** The batched context created for a device. */
  datatype Context = Context(device: nat)

  /** The shared "work available" channel: absent (nil) or open. */
  datatype Channel = Nil | Open

  /** A kernel module or function handle loaded by the (external) module loader. */
  type Handle = nat

  datatype Metadata = Metadata(
    profiles: seq<Profile>,
    arena: seq<DevicePools>,
    contexts: seq<Option<Context>>,   // Go's `c`; the nil slice is []
    hasWork: seq<bool>,
    workAvailable: Channel,
    modules: Option<map<string, seq<Handle>>>,
    functions: Option<map<string, seq<Handle>>>,
    blasHasWork: bool,
    initialized: bool)

  /** The zero value of `ExternMetadata`: no devices, nothing allocated. */
  const Blank := Metadata([], [], [], [], Nil, None, None, false, false)
}
