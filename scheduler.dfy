/**
 * The scheduler of Scheduler.cpp as an object: the scheduler's own
 * bookkeeping and the part of the harness it reads and writes are fields,
 * the handlers are methods with the loops of the source, and every method
 * is proved to produce exactly the state its step function in module
 * Policy describes.
 */
module Scheduling {
  import opened ClusterTypes
  import opened Compat
  import opened Policy

  class Scheduler {
    // The scheduler's bookkeeping.
    var machines: seq<MachineId>
    var machineToVms: map<MachineId, seq<VmId>>
    var migratingTasks: map<MachineId, seq<TaskId>>
    var migratingVms: map<VmId, (MachineId, MachineId)>
    var activeMachines: U32
    var vmList: seq<VmId>

    // What the scheduler sees of the harness.
    var hw: seq<MachineInfo>
    var vms: map<VmId, VmInfo>
    const tasks: map<TaskId, TaskInfo>
    var nextVm: VmId
    var shutDown: seq<VmId>
    var log: seq<Assignment>

    ghost function Snapshot(): State
      reads this
    {
      State(machines, machineToVms, migratingTasks, migratingVms, activeMachines, vmList,
            hw, vms, tasks, nextVm, shutDown, log)
    }

    ghost predicate Valid()
      reads this
    {
      Wf(Snapshot())
    }

    /** A scheduler before `Init`, over the machines `hw0` and the tasks `tasks0` of the harness. */
    constructor (hw0: seq<MachineInfo>, tasks0: map<TaskId, TaskInfo>)
      requires |hw0| < U32_LIMIT
      ensures Snapshot() == Pristine(hw0, tasks0)
      ensures Valid()
    {
      machines, machineToVms, migratingTasks, migratingVms := [], map[], map[], map[];
      activeMachines, vmList := 0, [];
      hw, vms, tasks, nextVm, shutDown, log := hw0, map[], tasks0, 0, [], [];
    }

    // -------------------------------------------------------------------
    // Harness calls

    /** `Machine_SetState`. */
    method MachineSetState(m: MachineId, p: PowerState)
      requires m < |hw|
      modifies this
      ensures Snapshot() == SetState(old(Snapshot()), m, p)
    {
      hw := hw[m := hw[m].(sState := p)];
    }

    /** `VM_Create`. */
    method VmCreate(ty: VmType, cpu: CpuType) returns (v: VmId)
      modifies this
      ensures v == old(nextVm)
      ensures Snapshot() == CreateVm(old(Snapshot()), ty, cpu)
    {
      v := nextVm;
      vms := vms[v := VmInfo(ty, cpu, [], None)];
      nextVm := nextVm + 1;
    }

    /** `VM_Attach`. */
    method VmAttach(v: VmId, m: MachineId)
      requires v in vms
      modifies this
      ensures Snapshot() == AttachVm(old(Snapshot()), v, m)
    {
      vms := vms[v := vms[v].(host := Some(m))];
    }

    /** `VM_AddTask`. */
    method VmAddTask(v: VmId, t: TaskId, p: Priority)
      requires v in vms
      modifies this
      ensures Snapshot() == AddTask(old(Snapshot()), v, t, p)
    {
      vms := vms[v := vms[v].(activeTasks := vms[v].activeTasks + [t])];
      log := log + [Assignment(v, t, p)];
    }

    /** `VM_Shutdown`. */
    method VmShutdown(v: VmId)
      modifies this
      ensures Snapshot() == old(Snapshot()).(shutDown := old(shutDown) + [v])
    {
      shutDown := shutDown + [v];
    }

    // -------------------------------------------------------------------
    // Handlers

    /** `turn_off_unused_machines` (lines 34-48). */
    method TurnOffUnusedMachines()
      requires Valid()
      modifies this
      ensures Snapshot() == Sweep(old(Snapshot()))
      ensures Valid()
    {
      var i := 0;
      assert machines[i..] == machines;
      while i < |machines|
        invariant 0 <= i <= |machines|
        invariant Snapshot() == old(Snapshot()).(hw := hw, activeMachines := activeMachines)
        invariant |hw| == |old(hw)|
        invariant SweepFrom(hw, machines[i..], activeMachines) == SweepFrom(old(hw), machines, old(activeMachines))
      {
        var m := machines[i];
        var info := hw[m];
        assert machines[i..][0] == m && machines[i..][1..] == machines[i + 1..];
        if info.activeTasks == 0 && info.activeVms == 0 {
          MachineSetState(m, S4);
          activeMachines := Dec32(activeMachines);
        }
        i := i + 1;
      }
    }

    /** `Scheduler::Init` (lines 53-66). */
    method Init()
      requires Valid()
      modifies this
      ensures Snapshot() == InitStep(old(Snapshot()))
      ensures Valid()
    {
      ghost var goal := InitStep(Snapshot());
      var i := 0;
      while i < |hw|
        invariant 0 <= i <= |hw|
        invariant InitFrom(Snapshot(), i) == goal
      {
        Register(i);
        i := i + 1;
      }
    }

    /** One iteration of the loop of `Init` (lines 56-63): machine `i` joins the bookkeeping in S0. */
    method Register(i: MachineId)
      requires i < |hw|
      modifies this
      ensures Snapshot() == RegisterMachine(old(Snapshot()), i)
    {
      machines := machines + [i];
      machineToVms := machineToVms[i := []];
      migratingTasks := migratingTasks[i := []];
      MachineSetState(i, S0);
      activeMachines := Inc32(activeMachines);
    }

    /** `Scheduler::NewTask` (lines 71-114). */
    method NewTask(t: TaskId)
      requires Valid() && t in tasks
      modifies this
      ensures Snapshot() == NewTaskStep(old(Snapshot()), t)
      ensures Valid()
    {
      var info := tasks[t];
      var selectedMachine: Option<MachineId> := None;

      // The first machine passing all three checks.
      var i := 0;
      while i < |machines|
        invariant 0 <= i <= |machines| && selectedMachine == None
        invariant forall j :: 0 <= j < i ==> !Eligible(hw[machines[j]], info)
      {
        var m := machines[i];
        if CpuCompatible(hw[m], info) && MemoryFits(hw[m], info) && GpuCompatible(hw[m], info) {
          selectedMachine := Some(m);
          break;
        }
        i := i + 1;
      }
      assert selectedMachine.Some? ==> FirstEligible(machines, hw, info) == Some(i);

      // Activation fallback; the source's `for` loop always leaves after its first iteration.
      ghost var s0 := Snapshot();
      if selectedMachine.None? && activeMachines < |hw| {
        var m := activeMachines;
        MachineSetState(m, S0);
        activeMachines := Inc32(activeMachines);
        selectedMachine := Some(m);
      }
      assert Placement(selectedMachine, Snapshot()) == Target(s0, info);

      if selectedMachine.Some? {
        AssignToMachine(selectedMachine.value, t);
      }
      TurnOffUnusedMachines();
    }

    /** Lines 96-108 of `NewTask`: reuse the first matching VM of machine `m`, or create one. */
    method AssignToMachine(m: MachineId, t: TaskId)
      requires Valid() && m < |hw| && t in tasks
      modifies this
      ensures Snapshot() == AssignVm(old(Snapshot()), m, t)
      ensures Valid()
    {
      var info := tasks[t];
      var list := if m in machineToVms then machineToVms[m] else [];
      var selectedVm: Option<VmId> := None;
      var j := 0;
      while j < |list|
        invariant 0 <= j <= |list| && selectedVm == None
        invariant forall k :: 0 <= k < j ==> !VmMatches(vms[list[k]], info)
      {
        var vmInfo := vms[list[j]];
        if vmInfo.vmType == info.requiredVm && vmInfo.cpu == info.requiredCpu {
          selectedVm := Some(list[j]);
          break;
        }
        j := j + 1;
      }
      assert selectedVm.Some? ==> FirstMatchingVm(list, vms, info) == Some(j);

      if selectedVm.None? {
        var v := VmCreate(info.requiredVm, hw[m].cpu);
        VmAttach(v, m);
        machineToVms := machineToVms[m := list + [v]];
        selectedVm := Some(v);
      }
      VmAddTask(selectedVm.value, t, SlaToPriority(info.requiredSla));
    }

    /** `Scheduler::TaskComplete` (lines 119-122): only the idle sweep. */
    method TaskComplete(t: TaskId)
      requires Valid()
      modifies this
      ensures Snapshot() == Sweep(old(Snapshot()))
      ensures Valid()
    {
      TurnOffUnusedMachines();
    }

    /** `Scheduler::PeriodicCheck` (lines 151-154): only the idle sweep. */
    method PeriodicCheck()
      requires Valid()
      modifies this
      ensures Snapshot() == Sweep(old(Snapshot()))
      ensures Valid()
    {
      TurnOffUnusedMachines();
    }

    /** `SLAWarning` (lines 127-146). */
    method SlaWarning(t: TaskId)
      requires Valid() && t in tasks
      modifies this
      ensures Snapshot() == EscalateStep(old(Snapshot()), t)
      ensures Valid()
    {
      var info := tasks[t];
      var destMachine: Option<MachineId> := None;
      var i := 0;
      while i < |machines|
        invariant 0 <= i <= |machines| && destMachine == None
        invariant forall j :: 0 <= j < i ==> !EscalationEligible(hw[machines[j]], info)
      {
        var m := machines[i];
        if CpuCompatible(hw[m], info) && MemoryFits(hw[m], info) {
          destMachine := Some(m);
          break;
        }
        i := i + 1;
      }
      assert destMachine.Some? ==> FirstEscalationTarget(machines, hw, info) == Some(i);

      if destMachine.Some? {
        var m := destMachine.value;
        var list := if m in machineToVms then machineToVms[m] else [];
        var v := VmCreate(info.requiredVm, hw[m].cpu);
        VmAttach(v, m);
        machineToVms := machineToVms[m := list + [v]];
        VmAddTask(v, t, HighPriority);
      }
    }

    /** `StateChangeComplete` (lines 190-202). */
    method StateChangeComplete(m: MachineId)
      requires Valid() && m < |hw|
      modifies this
      ensures Snapshot() == StateChangeStep(old(Snapshot()), m)
      ensures Valid()
    {
      var info := hw[m];
      if info.sState == S0 {
        var queue := if m in migratingTasks then migratingTasks[m] else [];
        ReplayQueue(queue);
        migratingTasks := migratingTasks[m := []];
      }
    }

    /** The loop of lines 196-199: `NewTask` for each queued task, in order. */
    method ReplayQueue(queue: seq<TaskId>)
      requires Valid() && forall k :: 0 <= k < |queue| ==> queue[k] in tasks
      modifies this
      ensures Snapshot() == Replay(old(Snapshot()), queue)
      ensures Valid()
    {
      var i := 0;
      assert queue[i..] == queue;
      while i < |queue|
        invariant 0 <= i <= |queue| && Valid()
        invariant Replay(Snapshot(), queue[i..]) == Replay(old(Snapshot()), queue)
      {
        assert queue[i..][0] == queue[i] && queue[i..][1..] == queue[i + 1..];
        NewTask(queue[i]);
        i := i + 1;
      }
    }

    /** `MemoryWarning` (lines 204-216). */
    method MemoryWarning(m: MachineId)
      requires Valid()
      modifies this
      ensures Snapshot() == MemoryWarningStep(old(Snapshot()), m)
      ensures Valid()
    {
      var list := if m in machineToVms then machineToVms[m] else [];
      machineToVms := machineToVms[m := list];
      ghost var s1 := Snapshot();
      var i := 0;
      while i < |list|
        invariant 0 <= i <= |list| && Snapshot() == s1
        invariant forall k :: 0 <= k < i ==> vms[list[k]].activeTasks == []
      {
        var vmInfo := vms[list[i]];
        if vmInfo.activeTasks != [] {
          assert FirstBusyVm(list, vms) == Some(i);
          SlaWarning(vmInfo.activeTasks[0]);
          return;
        }
        i := i + 1;
      }
    }

    /** `MigrationDone` (lines 238-247). */
    method MigrationDone(v: VmId)
      requires Valid() && v in vms
      modifies this
      ensures Snapshot() == MigrationDoneStep(old(Snapshot()), v)
      ensures Valid()
    {
      var srcDest := if v in migratingVms then migratingVms[v] else (0, 0);
      var destMachine := srcDest.1;
      var list := if destMachine in machineToVms then machineToVms[destMachine] else [];
      machineToVms := machineToVms[destMachine := list + [v]];
      migratingVms := migratingVms - {v};
    }

    /** The state loops of `Scheduler::Shutdown` (lines 159-168). */
    method Shutdown()
      requires Valid()
      modifies this
      ensures Snapshot() == ShutdownStep(old(Snapshot()))
      ensures Valid()
    {
      var i := 0;
      assert vmList[i..] == vmList;
      while i < |vmList|
        invariant 0 <= i <= |vmList|
        invariant Snapshot() == old(Snapshot()).(shutDown := shutDown)
        invariant ShutdownVms(Snapshot(), vmList[i..]) == ShutdownVms(old(Snapshot()), vmList)
      {
        assert vmList[i..][0] == vmList[i] && vmList[i..][1..] == vmList[i + 1..];
        VmShutdown(vmList[i]);
        i := i + 1;
      }
      ghost var s1 := Snapshot();
      var j := 0;
      assert machines[j..] == machines;
      while j < |machines|
        invariant 0 <= j <= |machines|
        invariant Snapshot() == s1.(hw := hw) && |hw| == |s1.hw|
        invariant PowerOff(Snapshot(), machines[j..]) == PowerOff(s1, machines)
      {
        assert machines[j..][0] == machines[j] && machines[j..][1..] == machines[j + 1..];
        MachineSetState(machines[j], S5);
        j := j + 1;
      }
    }

    /** The state loops of `SimulationComplete` (lines 228-235), the same as `Shutdown`'s. */
    method SimulationComplete()
      requires Valid()
      modifies this
      ensures Snapshot() == ShutdownStep(old(Snapshot()))
      ensures Valid()
    {
      Shutdown();
    }
  }
}
