/**
 * The scheduler as a state machine over values. `State` holds the
 * scheduler's own bookkeeping (its machine list, `machine_to_vms`,
 * `migrating_tasks`, `migrating_vms`, `active_machines` and its `vms`
 * list) and what the scheduler can observe and change of the harness
 * (machine and VM records, static task records, the next VM id, the VMs
 * shut down and the log of task assignments). Each handler of
 * Scheduler.cpp is one function from the state before to the state after;
 * the class in scheduler.dfy is proved to compute exactly these.
 */
module Policy {
  import opened ClusterTypes
  import opened Compat

  datatype State = State(
    machines: seq<MachineId>,
    machineToVms: map<MachineId, seq<VmId>>,
    migratingTasks: map<MachineId, seq<TaskId>>,
    migratingVms: map<VmId, (MachineId, MachineId)>,
    activeMachines: U32,
    vmList: seq<VmId>,
    hw: seq<MachineInfo>,
    vms: map<VmId, VmInfo>,
    tasks: map<TaskId, TaskInfo>,
    nextVm: VmId,
    shutDown: seq<VmId>,
    log: seq<Assignment>)

  /**
   * Well-formedness: the harness knows every machine, VM and task the
   * scheduler refers to, and VM ids below `nextVm` are the only ones handed out.
   */
  ghost predicate Wf(s: State)
  {
    && |s.hw| < U32_LIMIT
    && (forall i :: 0 <= i < |s.machines| ==> s.machines[i] < |s.hw|)
    && (forall m, j :: m in s.machineToVms && 0 <= j < |s.machineToVms[m]| ==> s.machineToVms[m][j] in s.vms)
    && (forall v :: v in s.vms ==> v < s.nextVm)
    && (forall v, j :: v in s.vms && 0 <= j < |s.vms[v].activeTasks| ==> s.vms[v].activeTasks[j] in s.tasks)
    && (forall m, j :: m in s.migratingTasks && 0 <= j < |s.migratingTasks[m]| ==> s.migratingTasks[m][j] in s.tasks)
  }

  /** The state before `Init`: empty bookkeeping, a counter of 0, no VMs yet. */
  function Pristine(hw: seq<MachineInfo>, tasks: map<TaskId, TaskInfo>): (s: State)
    requires |hw| < U32_LIMIT
    ensures Wf(s)
  {
    State([], map[], map[], map[], 0, [], hw, map[], tasks, 0, [], [])
  }

  // ---------------------------------------------------------------------
  // First-match search

  /** Index of the first element satisfying `p`, if any. */
  function FirstIndex<T>(s: seq<T>, p: T -> bool): (r: Option<nat>)
    ensures r.Some? ==> r.value < |s| && p(s[r.value])
    ensures r.Some? ==> forall j :: 0 <= j < r.value ==> !p(s[j])
    ensures r.None? <==> forall j :: 0 <= j < |s| ==> !p(s[j])
    decreases |s|
  {
    if s == [] then None
    else if p(s[0]) then Some(0)
    else match FirstIndex(s[1..], p)
      case None => None
      case Some(k) => Some(k + 1)
  }

  function MachineInfos(ms: seq<MachineId>, hw: seq<MachineInfo>): (r: seq<MachineInfo>)
    requires forall i :: 0 <= i < |ms| ==> ms[i] < |hw|
    ensures |r| == |ms| && forall i :: 0 <= i < |ms| ==> r[i] == hw[ms[i]]
  {
    seq(|ms|, i requires 0 <= i < |ms| => hw[ms[i]])
  }

  function VmInfos(list: seq<VmId>, vms: map<VmId, VmInfo>): (r: seq<VmInfo>)
    requires forall j :: 0 <= j < |list| ==> list[j] in vms
    ensures |r| == |list| && forall j :: 0 <= j < |list| ==> r[j] == vms[list[j]]
  {
    seq(|list|, j requires 0 <= j < |list| => vms[list[j]])
  }

  /** The scan of `NewTask`: first machine of `ms` passing all three checks. */
  function FirstEligible(ms: seq<MachineId>, hw: seq<MachineInfo>, t: TaskInfo): (r: Option<nat>)
    requires forall i :: 0 <= i < |ms| ==> ms[i] < |hw|
    ensures r.Some? ==> r.value < |ms| && Eligible(hw[ms[r.value]], t)
    ensures r.Some? ==> forall j :: 0 <= j < r.value ==> !Eligible(hw[ms[j]], t)
    ensures r.None? <==> forall j :: 0 <= j < |ms| ==> !Eligible(hw[ms[j]], t)
  {
    var infos := MachineInfos(ms, hw);
    var r := FirstIndex(infos, (m: MachineInfo) => Eligible(m, t));
    assert forall j :: 0 <= j < |ms| ==> infos[j] == hw[ms[j]];
    r
  }

  /** The scan of `SLAWarning`: first machine of `ms` with matching CPU and memory headroom. */
  function FirstEscalationTarget(ms: seq<MachineId>, hw: seq<MachineInfo>, t: TaskInfo): (r: Option<nat>)
    requires forall i :: 0 <= i < |ms| ==> ms[i] < |hw|
    ensures r.Some? ==> r.value < |ms| && EscalationEligible(hw[ms[r.value]], t)
    ensures r.Some? ==> forall j :: 0 <= j < r.value ==> !EscalationEligible(hw[ms[j]], t)
    ensures r.None? <==> forall j :: 0 <= j < |ms| ==> !EscalationEligible(hw[ms[j]], t)
  {
    var infos := MachineInfos(ms, hw);
    var r := FirstIndex(infos, (m: MachineInfo) => EscalationEligible(m, t));
    assert forall j :: 0 <= j < |ms| ==> infos[j] == hw[ms[j]];
    r
  }

  /** A VM can take the task when both its type and its CPU are the ones the task requires. */
  predicate VmMatches(v: VmInfo, t: TaskInfo)
  {
    v.vmType == t.requiredVm && v.cpu == t.requiredCpu
  }

  /** The VM scan of `NewTask`: first VM of `list` that matches the task. */
  function FirstMatchingVm(list: seq<VmId>, vms: map<VmId, VmInfo>, t: TaskInfo): (r: Option<nat>)
    requires forall j :: 0 <= j < |list| ==> list[j] in vms
    ensures r.Some? ==> r.value < |list| && VmMatches(vms[list[r.value]], t)
    ensures r.Some? ==> forall j :: 0 <= j < r.value ==> !VmMatches(vms[list[j]], t)
    ensures r.None? <==> forall j :: 0 <= j < |list| ==> !VmMatches(vms[list[j]], t)
  {
    var infos := VmInfos(list, vms);
    var r := FirstIndex(infos, (v: VmInfo) => VmMatches(v, t));
    assert forall j :: 0 <= j < |list| ==> infos[j] == vms[list[j]];
    r
  }

  /** The VM scan of `MemoryWarning`: first VM of `list` with a non-empty task list. */
  function FirstBusyVm(list: seq<VmId>, vms: map<VmId, VmInfo>): (r: Option<nat>)
    requires forall j :: 0 <= j < |list| ==> list[j] in vms
    ensures r.Some? ==> r.value < |list| && vms[list[r.value]].activeTasks != []
    ensures r.Some? ==> forall j :: 0 <= j < r.value ==> vms[list[j]].activeTasks == []
    ensures r.None? <==> forall j :: 0 <= j < |list| ==> vms[list[j]].activeTasks == []
  {
    var infos := VmInfos(list, vms);
    var r := FirstIndex(infos, (v: VmInfo) => v.activeTasks != []);
    assert forall j :: 0 <= j < |list| ==> infos[j] == vms[list[j]];
    r
  }

  // ---------------------------------------------------------------------
  // Scheduler bookkeeping and harness calls as state updates

  /** `machine_to_vms[m]` read through `operator[]`: absent keys read as empty. */
  function VmsOf(s: State, m: MachineId): seq<VmId>
  {
    if m in s.machineToVms then s.machineToVms[m] else []
  }

  /** `migrating_tasks[m]` read through `operator[]`. */
  function QueueOf(s: State, m: MachineId): seq<TaskId>
  {
    if m in s.migratingTasks then s.migratingTasks[m] else []
  }

  /** `Machine_SetState(m, p)`. */
  function SetState(s: State, m: MachineId, p: PowerState): State
    requires m < |s.hw|
  {
    s.(hw := s.hw[m := s.hw[m].(sState := p)])
  }

  /** `VM_Create(ty, cpu)`: the harness hands out the id `s.nextVm`. */
  function CreateVm(s: State, ty: VmType, cpu: CpuType): State
  {
    s.(vms := s.vms[s.nextVm := VmInfo(ty, cpu, [], None)], nextVm := s.nextVm + 1)
  }

  /** `VM_Attach(v, m)`. */
  function AttachVm(s: State, v: VmId, m: MachineId): State
    requires v in s.vms
  {
    s.(vms := s.vms[v := s.vms[v].(host := Some(m))])
  }

  /** `VM_AddTask(v, t, p)`: the task joins the VM and the assignment is logged. */
  function AddTask(s: State, v: VmId, t: TaskId, p: Priority): State
    requires v in s.vms
  {
    s.(vms := s.vms[v := s.vms[v].(activeTasks := s.vms[v].activeTasks + [t])],
       log := s.log + [Assignment(v, t, p)])
  }

  /** `machine_to_vms[m].push_back(v)`. */
  function PushVm(s: State, m: MachineId, v: VmId): State
  {
    s.(machineToVms := s.machineToVms[m := VmsOf(s, m) + [v]])
  }

  /** Create a VM of type `ty` with the CPU of machine `m`, attach it to `m` and list it under `m`. */
  function NewVmOn(s: State, m: MachineId, ty: VmType): (r: State)
    requires Wf(s) && m < |s.hw|
    ensures Wf(r) && s.nextVm in r.vms && r.nextVm == s.nextVm + 1
    ensures r == s.(vms := r.vms, nextVm := r.nextVm, machineToVms := r.machineToVms)
  {
    var v := s.nextVm;
    PushVm(AttachVm(CreateVm(s, ty, s.hw[m].cpu), v, m), m, v)
  }

  // ---------------------------------------------------------------------
  // NewTask

  /** The machine `NewTask` settles on, and the state after the activation fallback. */
  datatype Placement = Placement(target: Option<MachineId>, after: State)

  /**
   * Lines 76-92: the first eligible machine of the scheduler's list; failing
   * that, machine number `active_machines` is powered to S0 and chosen
   * without being checked, provided it exists.
   */
  function Target(s: State, t: TaskInfo): (r: Placement)
    requires Wf(s)
    ensures Wf(r.after) && (r.target.Some? ==> r.target.value < |r.after.hw|)
    ensures r.after == s.(hw := r.after.hw, activeMachines := r.after.activeMachines)
    ensures |r.after.hw| == |s.hw|
  {
    match FirstEligible(s.machines, s.hw, t)
    case Some(k) => Placement(Some(s.machines[k]), s)
    case None =>
      if s.activeMachines < |s.hw| then
        var m := s.activeMachines;
        Placement(Some(m), SetState(s, m, S0).(activeMachines := Inc32(s.activeMachines)))
      else
        Placement(None, s)
  }

  /** Lines 96-108: reuse the first matching VM of machine `m`, or create one there, then add the task. */
  function AssignVm(s: State, m: MachineId, t: TaskId): (r: State)
    requires Wf(s) && m < |s.hw| && t in s.tasks
    ensures Wf(r)
    ensures r == s.(vms := r.vms, nextVm := r.nextVm, machineToVms := r.machineToVms, log := r.log)
  {
    var info := s.tasks[t];
    var list := VmsOf(s, m);
    var p := SlaToPriority(info.requiredSla);
    match FirstMatchingVm(list, s.vms, info)
    case Some(k) => AddTask(s, list[k], t, p)
    case None => AddTask(NewVmOn(s, m, info.requiredVm), s.nextVm, t, p)
  }

  /** Lines 72-111: `NewTask` before its closing idle sweep. */
  function PlaceStep(s: State, t: TaskId): (r: State)
    requires Wf(s) && t in s.tasks
    ensures Wf(r)
    ensures r == s.(hw := r.hw, activeMachines := r.activeMachines, vms := r.vms,
                    nextVm := r.nextVm, machineToVms := r.machineToVms, log := r.log)
    ensures |r.hw| == |s.hw|
  {
    var pl := Target(s, s.tasks[t]);
    match pl.target
    case Some(m) => AssignVm(pl.after, m, t)
    case None => pl.after
  }

  /** `Scheduler::NewTask`: placement followed by the idle sweep (line 113). */
  function NewTaskStep(s: State, t: TaskId): (r: State)
    requires Wf(s) && t in s.tasks
    ensures Wf(r)
    ensures r == s.(hw := r.hw, activeMachines := r.activeMachines, vms := r.vms,
                    nextVm := r.nextVm, machineToVms := r.machineToVms, log := r.log)
    ensures |r.hw| == |s.hw|
  {
    Sweep(PlaceStep(s, t))
  }

  // ---------------------------------------------------------------------
  // Idle sweep

  /** A machine with no active task and no active VM. */
  predicate Idle(m: MachineInfo)
  {
    m.activeTasks == 0 && m.activeVms == 0
  }

  /** The loop of `turn_off_unused_machines` over the machines `ms` still to visit. */
  function SweepFrom(hw: seq<MachineInfo>, ms: seq<MachineId>, c: U32): (r: (seq<MachineInfo>, U32))
    requires forall i :: 0 <= i < |ms| ==> ms[i] < |hw|
    ensures |r.0| == |hw|
    decreases |ms|
  {
    if ms == [] then (hw, c)
    else
      var m := ms[0];
      if Idle(hw[m]) then SweepFrom(hw[m := hw[m].(sState := S4)], ms[1..], Dec32(c))
      else SweepFrom(hw, ms[1..], c)
  }

  /** `turn_off_unused_machines` (lines 34-48). */
  function Sweep(s: State): (r: State)
    requires Wf(s)
    ensures Wf(r)
    ensures r == s.(hw := r.hw, activeMachines := r.activeMachines)
    ensures |r.hw| == |s.hw|
  {
    var res := SweepFrom(s.hw, s.machines, s.activeMachines);
    s.(hw := res.0, activeMachines := res.1)
  }

  /** Number of entries of `ms` naming an idle machine. */
  function IdleCount(hw: seq<MachineInfo>, ms: seq<MachineId>): nat
    requires forall i :: 0 <= i < |ms| ==> ms[i] < |hw|
    decreases |ms|
  {
    if ms == [] then 0
    else (if Idle(hw[ms[0]]) then 1 else 0) + IdleCount(hw, ms[1..])
  }

  // ---------------------------------------------------------------------
  // Escalation, queue replay, memory warnings, migration

  /** `SLAWarning` (lines 127-146): a fresh VM on the first CPU- and memory-fit machine, at high priority. */
  function EscalateStep(s: State, t: TaskId): (r: State)
    requires Wf(s) && t in s.tasks
    ensures Wf(r)
    ensures r == s.(vms := r.vms, nextVm := r.nextVm, machineToVms := r.machineToVms, log := r.log)
  {
    var info := s.tasks[t];
    match FirstEscalationTarget(s.machines, s.hw, info)
    case Some(k) =>
      AddTask(NewVmOn(s, s.machines[k], info.requiredVm), s.nextVm, t, HighPriority)
    case None => s
  }

  /** `NewTask` run for each task of `ts` in order. */
  function Replay(s: State, ts: seq<TaskId>): (r: State)
    requires Wf(s) && forall i :: 0 <= i < |ts| ==> ts[i] in s.tasks
    ensures Wf(r)
    ensures r == s.(hw := r.hw, activeMachines := r.activeMachines, vms := r.vms,
                    nextVm := r.nextVm, machineToVms := r.machineToVms, log := r.log)
    ensures |r.hw| == |s.hw|
    decreases |ts|
  {
    if ts == [] then s else Replay(NewTaskStep(s, ts[0]), ts[1..])
  }

  /** `StateChangeComplete` (lines 190-202). */
  function StateChangeStep(s: State, m: MachineId): (r: State)
    requires Wf(s) && m < |s.hw|
    ensures Wf(r)
  {
    if s.hw[m].sState == S0 then
      var r := Replay(s, QueueOf(s, m));
      r.(migratingTasks := r.migratingTasks[m := []])
    else s
  }

  /** `MemoryWarning` (lines 204-216); `operator[]` leaves an empty entry for an unknown machine. */
  function MemoryWarningStep(s: State, m: MachineId): (r: State)
    requires Wf(s)
    ensures Wf(r)
  {
    var list := VmsOf(s, m);
    var s1 := s.(machineToVms := s.machineToVms[m := list]);
    match FirstBusyVm(list, s.vms)
    case Some(k) => EscalateStep(s1, s.vms[list[k]].activeTasks[0])
    case None => s1
  }

  /** The destination recorded for `v`, or machine 0 when `operator[]` default-constructs the record. */
  function MigrationDestination(s: State, v: VmId): MachineId
  {
    if v in s.migratingVms then s.migratingVms[v].1 else 0
  }

  /** `MigrationDone` (lines 238-247). */
  function MigrationDoneStep(s: State, v: VmId): (r: State)
    requires Wf(s) && v in s.vms
    ensures Wf(r)
  {
    PushVm(s, MigrationDestination(s, v), v).(migratingVms := s.migratingVms - {v})
  }

  // ---------------------------------------------------------------------
  // Init and Shutdown

  /** One iteration of the loop of `Scheduler::Init` (lines 57-62). */
  function RegisterMachine(s: State, i: MachineId): (r: State)
    requires i < |s.hw|
    ensures |r.hw| == |s.hw|
    ensures r == s.(machines := r.machines, machineToVms := r.machineToVms, migratingTasks := r.migratingTasks,
                    hw := r.hw, activeMachines := r.activeMachines)
  {
    SetState(s, i, S0).(machines := s.machines + [i],
                        machineToVms := s.machineToVms[i := []],
                        migratingTasks := s.migratingTasks[i := []],
                        activeMachines := Inc32(s.activeMachines))
  }

  /** The loop of `Scheduler::Init` from machine `i` on. */
  function InitFrom(s: State, i: nat): (r: State)
    requires i <= |s.hw|
    ensures |r.hw| == |s.hw|
    ensures r == s.(machines := r.machines, machineToVms := r.machineToVms, migratingTasks := r.migratingTasks,
                    hw := r.hw, activeMachines := r.activeMachines)
    decreases |s.hw| - i
  {
    if i == |s.hw| then s else InitFrom(RegisterMachine(s, i), i + 1)
  }

  /** Registering machines keeps the state well formed. */
  lemma {:induction false} InitFromWf(s: State, i: nat)
    requires i <= |s.hw|
    ensures Wf(s) ==> Wf(InitFrom(s, i))
    decreases |s.hw| - i
  {
    if i < |s.hw| {
      InitFromWf(RegisterMachine(s, i), i + 1);
    }
  }

  /** `Scheduler::Init` (lines 53-66). */
  function InitStep(s: State): (r: State)
    ensures (Wf(s) ==> Wf(r)) && |r.hw| == |s.hw|
    ensures r == s.(machines := r.machines, machineToVms := r.machineToVms, migratingTasks := r.migratingTasks,
                    hw := r.hw, activeMachines := r.activeMachines)
  {
    InitFromWf(s, 0);
    InitFrom(s, 0)
  }

  /** `VM_Shutdown` for each VM of `vs`. */
  function ShutdownVms(s: State, vs: seq<VmId>): (r: State)
    ensures r == s.(shutDown := r.shutDown)
    decreases |vs|
  {
    if vs == [] then s else ShutdownVms(s.(shutDown := s.shutDown + [vs[0]]), vs[1..])
  }

  /** `Machine_SetState(m, S5)` for each machine of `ms`. */
  function PowerOff(s: State, ms: seq<MachineId>): (r: State)
    requires forall i :: 0 <= i < |ms| ==> ms[i] < |s.hw|
    ensures r == s.(hw := r.hw) && |r.hw| == |s.hw|
    decreases |ms|
  {
    if ms == [] then s else PowerOff(SetState(s, ms[0], S5), ms[1..])
  }

  /** The state loops of `Scheduler::Shutdown` (lines 161-166), also run by `SimulationComplete`. */
  function ShutdownStep(s: State): (r: State)
    requires Wf(s)
    ensures Wf(r)
  {
    var s1 := ShutdownVms(s, s.vmList);
    PowerOff(s1, s1.machines)
  }
}
