/**
 * Value types shared by the scheduler model: identifiers, the harness's
 * records for machines, VMs and tasks, SLA classes, priorities, and the
 * unsigned 32-bit arithmetic of the scheduler's active-machine counter.
 */
module ClusterTypes {

  /** Replaces the 0xDEADBEEF "nothing selected" sentinel of the scheduler. */
  datatype Option<T> = None | Some(value: T)

  type MachineId = nat
  type VmId = nat
  type TaskId = nat

  /** CPU architectures and VM kinds are only ever compared for equality. */
  type CpuType = nat
  type VmType = nat

  /** 2^32: the range of the scheduler's `unsigned` counter. */
  const U32_LIMIT: int := 0x1_0000_0000

  type U32 = x: int | 0 <= x < U32_LIMIT

  /** Reduces an integer to the value an `unsigned` variable holds. */
  function Wrap32(x: int): (r: U32)
    ensures 0 <= x < U32_LIMIT ==> r == x
    ensures -U32_LIMIT <= x < 0 ==> r == x + U32_LIMIT
  {
    x % U32_LIMIT
  }

  /** `unsigned` increment, as `active_machines++`. */
  function Inc32(x: U32): (r: U32)
    ensures x < U32_LIMIT - 1 ==> r == x + 1
    ensures x == U32_LIMIT - 1 ==> r == 0
  {
    Wrap32(x + 1)
  }

  /** `unsigned` decrement, as `active_machines--`: 0 wraps to 2^32 - 1. */
  function Dec32(x: U32): (r: U32)
    ensures x > 0 ==> r == x - 1
    ensures x == 0 ==> r == U32_LIMIT - 1
  {
    Wrap32(x - 1)
  }

  /** ACPI-style power states of a physical machine; the scheduler sets S0, S4 and S5. */
  datatype PowerState = S0 | S0i1 | S1 | S2 | S3 | S4 | S5

  /** A value an `SLAType_t` can carry besides the four enumerators 0..3. */
  type ForeignSlaCode = c: int | c < 0 || 3 < c witness -1

  /** SLA classes; `UnknownSla` stands for any value of the enum outside its four classes. */
  datatype Sla = SLA0 | SLA1 | SLA2 | SLA3 | UnknownSla(code: ForeignSlaCode)

  datatype Priority = HighPriority | MidPriority | LowPriority

  /** What `Machine_GetInfo` reports about one physical machine. */
  datatype MachineInfo = MachineInfo(
    cpu: CpuType,
    memorySize: nat,
    memoryUsed: nat,
    gpus: bool,
    activeTasks: nat,
    activeVms: nat,
    sState: PowerState)

  /** What `VM_GetInfo` reports about one VM, plus the machine it was attached to. */
  datatype VmInfo = VmInfo(
    vmType: VmType,
    cpu: CpuType,
    activeTasks: seq<TaskId>,
    host: Option<MachineId>)

  /** What `GetTaskInfo` reports; `requiredMemory` is also what `GetTaskMemory` returns. */
  datatype TaskInfo = TaskInfo(
    requiredCpu: CpuType,
    requiredVm: VmType,
    requiredMemory: nat,
    gpuCapable: bool,
    requiredSla: Sla)

  /** One `VM_AddTask(vm, task, priority)` call, as recorded by the harness. */
  datatype Assignment = Assignment(vm: VmId, task: TaskId, priority: Priority)
}
