/**
 * What the handlers of Scheduler.cpp guarantee, stated over the step
 * functions of module Policy.
 */
module Properties {
  import opened ClusterTypes
  import opened Compat
  import opened Policy

  // ---------------------------------------------------------------------
  // Unsigned arithmetic

  /** Wrapping an intermediate result does not change the final wrapped value. */
  lemma WrapShift(x: int, d: int)
    ensures Wrap32(Wrap32(x) + d) == Wrap32(x + d)
  {
    var q := x / U32_LIMIT;
    assert x == q * U32_LIMIT + Wrap32(x);
    assert Wrap32(x) + d == (x + d) - q * U32_LIMIT;
    ModShift(x + d, q);
  }

  lemma ModShift(a: int, q: int)
    ensures (a - q * U32_LIMIT) % U32_LIMIT == a % U32_LIMIT
  {
    var r := a % U32_LIMIT;
    var k := a / U32_LIMIT;
    assert a == k * U32_LIMIT + r;
    assert a - q * U32_LIMIT == (k - q) * U32_LIMIT + r;
  }

  // ---------------------------------------------------------------------
  // Idle sweep

  /** Idleness does not depend on the power state, so the sweep never changes it. */
  lemma {:induction false} IdleCountFrame(hw: seq<MachineInfo>, hw': seq<MachineInfo>, ms: seq<MachineId>)
    requires |hw| == |hw'|
    requires forall k :: 0 <= k < |hw| ==> (Idle(hw[k]) <==> Idle(hw'[k]))
    requires forall i :: 0 <= i < |ms| ==> ms[i] < |hw|
    ensures IdleCount(hw, ms) == IdleCount(hw', ms)
    decreases |ms|
  {
    if ms != [] {
      IdleCountFrame(hw, hw', ms[1..]);
    }
  }

  /** The sweep loop sets exactly the idle machines it visits to S4 and decrements once per idle entry. */
  lemma {:induction false} SweepFromEffect(hw: seq<MachineInfo>, ms: seq<MachineId>, c: U32)
    requires forall i :: 0 <= i < |ms| ==> ms[i] < |hw|
    ensures forall k :: 0 <= k < |hw| ==>
      SweepFrom(hw, ms, c).0[k] == (if k in ms && Idle(hw[k]) then hw[k].(sState := S4) else hw[k])
    ensures SweepFrom(hw, ms, c).1 == Wrap32(c - IdleCount(hw, ms))
    decreases |ms|
  {
    if ms == [] {
    } else {
      var m := ms[0];
      var rest := ms[1..];
      assert forall k :: k in ms <==> k == m || k in rest;
      if Idle(hw[m]) {
        var hw' := hw[m := hw[m].(sState := S4)];
        SweepFromEffect(hw', rest, Dec32(c));
        IdleCountFrame(hw, hw', rest);
        WrapShift(c - 1, 0 - IdleCount(hw, rest));
      } else {
        SweepFromEffect(hw, rest, c);
        WrapShift(c, 0 - IdleCount(hw, rest));
      }
    }
  }

  /**
   * `turn_off_unused_machines`: every listed idle machine is set to S4,
   * nothing else changes, and `active_machines` drops (modulo 2^32) by the
   * number of idle entries in the machine list.
   */
  lemma SweepEffect(s: State)
    requires Wf(s)
    ensures forall k :: 0 <= k < |s.hw| ==>
      Sweep(s).hw[k] == (if k in s.machines && Idle(s.hw[k]) then s.hw[k].(sState := S4) else s.hw[k])
    ensures Sweep(s).activeMachines == Wrap32(s.activeMachines - IdleCount(s.hw, s.machines))
  {
    SweepFromEffect(s.hw, s.machines, s.activeMachines);
  }

  /**
   * A second sweep with nothing in between leaves the power states as the
   * first one left them, but decrements the counter by the idle count again.
   */
  lemma SweepTwice(s: State)
    requires Wf(s)
    ensures Sweep(Sweep(s)).hw == Sweep(s).hw
    ensures Sweep(Sweep(s)).activeMachines == Wrap32(s.activeMachines - 2 * IdleCount(s.hw, s.machines))
  {
    var s1 := Sweep(s);
    SweepEffect(s);
    SweepEffect(s1);
    IdleCountFrame(s.hw, s1.hw, s.machines);
    WrapShift(s.activeMachines - IdleCount(s.hw, s.machines), 0 - IdleCount(s.hw, s.machines));
  }

  /** With one idle machine and a counter of 1, two sweeps wrap the counter to 2^32 - 1. */
  lemma SweepWrapsBelowZero(s: State)
    requires Wf(s) && |s.hw| == 1 && s.machines == [0] && Idle(s.hw[0]) && s.activeMachines == 1
    ensures Sweep(s).activeMachines == 0
    ensures Sweep(Sweep(s)).activeMachines == U32_LIMIT - 1
    ensures Sweep(Sweep(s)).hw == Sweep(s).hw && Sweep(s).hw[0].sState == S4
  {
    SweepTwice(s);
    SweepEffect(s);
    assert IdleCount(s.hw, s.machines) == 1;
  }

  // ---------------------------------------------------------------------
  // NewTask

  /** The scan picks machine `machines[k]` exactly when `k` is the first eligible index; no machine is activated. */
  lemma NewTaskFirstFit(s: State, t: TaskId, k: nat)
    requires Wf(s) && t in s.tasks && k < |s.machines|
    requires Eligible(s.hw[s.machines[k]], s.tasks[t])
    requires forall j :: 0 <= j < k ==> !Eligible(s.hw[s.machines[j]], s.tasks[t])
    ensures Target(s, s.tasks[t]) == Placement(Some(s.machines[k]), s)
  {
  }

  /**
   * When no listed machine is eligible, machine number `active_machines`
   * is set to S0 and chosen unchecked and the counter goes up by one; if
   * that machine does not exist nothing is chosen and nothing changes.
   */
  lemma ActivationFallback(s: State, t: TaskId)
    requires Wf(s) && t in s.tasks
    requires forall j :: 0 <= j < |s.machines| ==> !Eligible(s.hw[s.machines[j]], s.tasks[t])
    ensures var pl := Target(s, s.tasks[t]);
      if s.activeMachines < |s.hw| then
        && pl.target == Some(s.activeMachines)
        && pl.after.activeMachines == s.activeMachines + 1
        && pl.after.hw[s.activeMachines] == s.hw[s.activeMachines].(sState := S0)
        && (forall i :: 0 <= i < |s.hw| && i != s.activeMachines ==> pl.after.hw[i] == s.hw[i])
      else
        pl == Placement(None, s)
  {
  }

  /** Without an eligible machine and without one left to activate, no VM is created and no task assigned. */
  lemma NoCapacityDropsTask(s: State, t: TaskId)
    requires Wf(s) && t in s.tasks
    requires forall j :: 0 <= j < |s.machines| ==> !Eligible(s.hw[s.machines[j]], s.tasks[t])
    requires s.activeMachines >= |s.hw|
    ensures PlaceStep(s, t) == s
    ensures NewTaskStep(s, t) == Sweep(s)
  {
  }

  /** The first VM of the target machine matching type and CPU receives the task; `machine_to_vms` is untouched. */
  lemma VmReuse(s: State, m: MachineId, t: TaskId, k: nat)
    requires Wf(s) && m < |s.hw| && t in s.tasks && k < |VmsOf(s, m)|
    requires VmMatches(s.vms[VmsOf(s, m)[k]], s.tasks[t])
    requires forall j :: 0 <= j < k ==> !VmMatches(s.vms[VmsOf(s, m)[j]], s.tasks[t])
    ensures var r := AssignVm(s, m, t); var v := VmsOf(s, m)[k];
      && r.machineToVms == s.machineToVms
      && r.nextVm == s.nextVm
      && r.vms == s.vms[v := s.vms[v].(activeTasks := s.vms[v].activeTasks + [t])]
      && r.log == s.log + [Assignment(v, t, SlaToPriority(s.tasks[t].requiredSla))]
  {
  }

  /**
   * Without a matching VM, exactly one fresh VM is created with the task's
   * VM type and the machine's CPU, attached to the target machine and
   * appended to its list only; it receives the task.
   */
  lemma VmCreation(s: State, m: MachineId, t: TaskId)
    requires Wf(s) && m < |s.hw| && t in s.tasks
    requires forall j :: 0 <= j < |VmsOf(s, m)| ==> !VmMatches(s.vms[VmsOf(s, m)[j]], s.tasks[t])
    ensures var r := AssignVm(s, m, t); var v := s.nextVm;
      && v !in s.vms
      && VmsOf(r, m) == VmsOf(s, m) + [v]
      && (forall m' :: m' != m ==> VmsOf(r, m') == VmsOf(s, m'))
      && r.nextVm == v + 1
      && r.vms == s.vms[v := VmInfo(s.tasks[t].requiredVm, s.hw[m].cpu, [t], Some(m))]
      && r.log == s.log + [Assignment(v, t, SlaToPriority(s.tasks[t].requiredSla))]
  {
    var info := s.tasks[t];
    assert FirstMatchingVm(VmsOf(s, m), s.vms, info).None?;
    NewVmOnEffect(s, m, info.requiredVm);
    assert NewVmOn(s, m, info.requiredVm).vms[s.nextVm].activeTasks + [t] == [t];
  }

  /** A VM created on machine `m` gets a fresh id, `m`'s CPU, no task yet, and is appended to `m`'s list only. */
  lemma NewVmOnEffect(s: State, m: MachineId, ty: VmType)
    requires Wf(s) && m < |s.hw|
    ensures var r := NewVmOn(s, m, ty); var v := s.nextVm;
      && v !in s.vms
      && r.vms == s.vms[v := VmInfo(ty, s.hw[m].cpu, [], Some(m))]
      && r.machineToVms == s.machineToVms[m := VmsOf(s, m) + [v]]
      && (forall m' :: m' != m ==> VmsOf(r, m') == VmsOf(s, m'))
  {
    var v := s.nextVm;
    var s1 := CreateVm(s, ty, s.hw[m].cpu);
    var s2 := AttachVm(s1, v, m);
    assert s2.vms == s.vms[v := VmInfo(ty, s.hw[m].cpu, [], Some(m))];
  }

  /**
   * Placement assigns nothing without a target; otherwise it appends exactly
   * one assignment of the task, at its SLA priority, to a VM of the target.
   */
  lemma PlaceAssignsOnTarget(s: State, t: TaskId)
    requires Wf(s) && t in s.tasks
    ensures var pl := Target(s, s.tasks[t]); var r := PlaceStep(s, t);
      && (pl.target.None? ==> r.log == s.log && r.vms == s.vms && r.nextVm == s.nextVm && r.machineToVms == s.machineToVms)
      && (pl.target.Some? ==>
            && |r.log| == |s.log| + 1 && s.log <= r.log
            && r.log[|s.log|].task == t
            && r.log[|s.log|].priority == SlaToPriority(s.tasks[t].requiredSla)
            && r.log[|s.log|].vm in VmsOf(r, pl.target.value))
  {
    var pl := Target(s, s.tasks[t]);
    if pl.target.Some? {
      var m := pl.target.value;
      var s1 := pl.after;
      var info := s1.tasks[t];
      match FirstMatchingVm(VmsOf(s1, m), s1.vms, info)
      case Some(k) => VmReuse(s1, m, t, k);
      case None => VmCreation(s1, m, t);
    }
  }

  /** `NewTask` adds the task at most once, with the priority its SLA maps to, on a VM of the chosen machine. */
  lemma NewTaskAssignsOnce(s: State, t: TaskId)
    requires Wf(s) && t in s.tasks
    ensures var pl := Target(s, s.tasks[t]); var r := NewTaskStep(s, t);
      && (pl.target.None? ==> r.log == s.log && r.vms == s.vms && r.machineToVms == s.machineToVms)
      && (pl.target.Some? ==>
            && |r.log| == |s.log| + 1 && s.log <= r.log
            && r.log[|s.log|] == Assignment(r.log[|s.log|].vm, t, SlaToPriority(s.tasks[t].requiredSla))
            && r.log[|s.log|].vm in VmsOf(r, pl.target.value))
  {
    PlaceAssignsOnTarget(s, t);
  }

  // ---------------------------------------------------------------------
  // SLAWarning

  /**
   * Escalation to the first CPU- and memory-fit machine: always a brand-new
   * VM appended to that machine's list, the task at high priority whatever
   * its SLA, and no idle sweep (power states and counter unchanged).
   */
  lemma EscalationSucceeds(s: State, t: TaskId, k: nat)
    requires Wf(s) && t in s.tasks && k < |s.machines|
    requires EscalationEligible(s.hw[s.machines[k]], s.tasks[t])
    requires forall j :: 0 <= j < k ==> !EscalationEligible(s.hw[s.machines[j]], s.tasks[t])
    ensures var r := EscalateStep(s, t); var m := s.machines[k]; var v := s.nextVm;
      && v !in s.vms
      && VmsOf(r, m) == VmsOf(s, m) + [v]
      && (forall m' :: m' != m ==> VmsOf(r, m') == VmsOf(s, m'))
      && r.vms == s.vms[v := VmInfo(s.tasks[t].requiredVm, s.hw[m].cpu, [t], Some(m))]
      && r.log == s.log + [Assignment(v, t, HighPriority)]
      && |r.hw| == |s.hw| && (forall j :: 0 <= j < |s.hw| ==> r.hw[j].sState == s.hw[j].sState)
      && r.activeMachines == s.activeMachines
  {
    var info := s.tasks[t];
    var m := s.machines[k];
    assert FirstEscalationTarget(s.machines, s.hw, info) == Some(k);
    NewVmOnEffect(s, m, info.requiredVm);
    assert NewVmOn(s, m, info.requiredVm).vms[s.nextVm].activeTasks + [t] == [t];
  }

  /** Escalation with no CPU- and memory-fit machine changes nothing. */
  lemma EscalationFails(s: State, t: TaskId)
    requires Wf(s) && t in s.tasks
    requires forall j :: 0 <= j < |s.machines| ==> !EscalationEligible(s.hw[s.machines[j]], s.tasks[t])
    ensures EscalateStep(s, t) == s
  {
  }

  /**
   * A task that needs a GPU and has only a GPU-less machine of its CPU type:
   * `NewTask` finds no eligible machine, `SLAWarning` places it there.
   */
  lemma EscalationBypassesGpuCheck()
    ensures
      var gpuTask := TaskInfo(1, 0, 4, true, SLA3);
      var s := State([0], map[0 := []], map[0 := []], map[], 1, [],
                     [MachineInfo(1, 8, 0, false, 0, 0, S0)], map[], map[7 := gpuTask], 0, [], []);
      && Wf(s)
      && FirstEligible(s.machines, s.hw, gpuTask).None?
      && EscalateStep(s, 7).log == [Assignment(0, 7, HighPriority)]
      && EscalateStep(s, 7).machineToVms[0] == [0]
  {
    var gpuTask := TaskInfo(1, 0, 4, true, SLA3);
    var s := State([0], map[0 := []], map[0 := []], map[], 1, [],
                   [MachineInfo(1, 8, 0, false, 0, 0, S0)], map[], map[7 := gpuTask], 0, [], []);
    EscalationSucceeds(s, 7, 0);
  }

  // ---------------------------------------------------------------------
  // StateChangeComplete

  /** `NewTask` never removes an assignment and adds at most one. */
  lemma NewTaskLogGrowth(s: State, t: TaskId)
    requires Wf(s) && t in s.tasks
    ensures s.log <= NewTaskStep(s, t).log && |NewTaskStep(s, t).log| <= |s.log| + 1
  {
    NewTaskAssignsOnce(s, t);
  }

  /** Replaying a queue adds at most one assignment per queued task and keeps the earlier ones. */
  lemma {:induction false} ReplayLogGrowth(s: State, ts: seq<TaskId>)
    requires Wf(s) && forall i :: 0 <= i < |ts| ==> ts[i] in s.tasks
    ensures s.log <= Replay(s, ts).log && |Replay(s, ts).log| <= |s.log| + |ts|
    decreases |ts|
  {
    if ts != [] {
      var s1 := NewTaskStep(s, ts[0]);
      NewTaskLogGrowth(s, ts[0]);
      ReplayLogGrowth(s1, ts[1..]);
    }
  }

  /** Replaying `a + b` is replaying `a` and then `b`: the queued tasks go through `NewTask` in order. */
  lemma {:induction false} ReplayAppend(s: State, a: seq<TaskId>, b: seq<TaskId>)
    requires Wf(s)
    requires forall i :: 0 <= i < |a| ==> a[i] in s.tasks
    requires forall i :: 0 <= i < |b| ==> b[i] in s.tasks
    ensures Replay(s, a + b) == Replay(Replay(s, a), b)
    decreases |a|
  {
    var ab := a + b;
    if a == [] {
      assert ab == b;
    } else {
      assert ab[0] == a[0] && ab[1..] == a[1..] + b;
      ReplayAppend(NewTaskStep(s, a[0]), a[1..], b);
    }
  }

  /** A machine not in S0: `StateChangeComplete` changes nothing. */
  lemma StateChangeIgnoresOtherStates(s: State, m: MachineId)
    requires Wf(s) && m < |s.hw| && s.hw[m].sState != S0
    ensures StateChangeStep(s, m) == s
  {
  }

  /**
   * A machine in S0: its queue is replayed through `NewTask` and then left
   * empty; every other queue is untouched.
   */
  lemma StateChangeReplaysQueue(s: State, m: MachineId)
    requires Wf(s) && m < |s.hw| && s.hw[m].sState == S0
    ensures var r := StateChangeStep(s, m); var q := QueueOf(s, m);
      && r.migratingTasks == s.migratingTasks[m := []]
      && s.log <= r.log && |r.log| <= |s.log| + |q|
      && r.(migratingTasks := s.migratingTasks) == Replay(s, q)
  {
    var q := QueueOf(s, m);
    assert forall i :: 0 <= i < |q| ==> q[i] in s.tasks;
    ReplayLogGrowth(s, q);
  }

  // ---------------------------------------------------------------------
  // MemoryWarning

  /**
   * `MemoryWarning` picks the first task of the first VM on the machine
   * that has any task. If a CPU- and memory-fit machine exists, that task
   * is the one assigned, at high priority, to a fresh VM listed under that
   * machine; otherwise, and when no VM has a task, the only change is an
   * (empty) entry for the machine in `machine_to_vms`.
   */
  lemma MemoryWarningFirstTask(s: State, m: MachineId)
    requires Wf(s)
    ensures var list := VmsOf(s, m); var s1 := s.(machineToVms := s.machineToVms[m := list]);
      var r := MemoryWarningStep(s, m);
      match FirstBusyVm(list, s.vms)
      case Some(k) =>
        var t := s.vms[list[k]].activeTasks[0];
        && s.vms[list[k]].activeTasks != []
        && (forall j :: 0 <= j < k ==> s.vms[list[j]].activeTasks == [])
        && t in s.tasks
        && (FirstEscalationTarget(s.machines, s.hw, s.tasks[t]).Some? ==>
              && r.log == s.log + [Assignment(s.nextVm, t, HighPriority)]
              && s.nextVm in VmsOf(r, s.machines[FirstEscalationTarget(s.machines, s.hw, s.tasks[t]).value]))
        && (FirstEscalationTarget(s.machines, s.hw, s.tasks[t]).None? ==> r == s1)
      case None => r == s1
  {
    var list := VmsOf(s, m);
    var s1 := s.(machineToVms := s.machineToVms[m := list]);
    match FirstBusyVm(list, s.vms) {
      case Some(k) =>
        var t := s.vms[list[k]].activeTasks[0];
        match FirstEscalationTarget(s1.machines, s1.hw, s1.tasks[t]) {
          case Some(i) => EscalationSucceeds(s1, t, i);
          case None =>
        }
      case None =>
    }
  }

  /** `MemoryWarning` assigns at most one task, keeps earlier assignments, and never runs the sweep. */
  lemma MemoryWarningAtMostOne(s: State, m: MachineId)
    requires Wf(s)
    ensures var r := MemoryWarningStep(s, m);
      && s.log <= r.log && |r.log| <= |s.log| + 1
      && |r.hw| == |s.hw| && (forall j :: 0 <= j < |s.hw| ==> r.hw[j].sState == s.hw[j].sState)
      && r.activeMachines == s.activeMachines
      && m in r.machineToVms
  {
    var list := VmsOf(s, m);
    var s1 := s.(machineToVms := s.machineToVms[m := list]);
    match FirstBusyVm(list, s.vms) {
      case Some(k) =>
        var t := s.vms[list[k]].activeTasks[0];
        match FirstEscalationTarget(s1.machines, s1.hw, s1.tasks[t]) {
          case Some(i) => EscalationSucceeds(s1, t, i);
          case None =>
        }
      case None =>
    }
  }

  // ---------------------------------------------------------------------
  // MigrationDone

  /**
   * `MigrationDone`: the VM becomes the last entry of the recorded
   * destination's list (machine 0 when there is no record), its record is
   * erased and no other list or record changes.
   */
  lemma MigrationDoneEffect(s: State, v: VmId)
    requires Wf(s) && v in s.vms
    ensures var r := MigrationDoneStep(s, v); var d := MigrationDestination(s, v);
      && VmsOf(r, d) == VmsOf(s, d) + [v]
      && VmsOf(r, d)[|VmsOf(r, d)| - 1] == v
      && (forall m :: m != d ==> VmsOf(r, m) == VmsOf(s, m))
      && v !in r.migratingVms
      && (forall w :: w != v ==> (w in r.migratingVms <==> w in s.migratingVms))
      && (forall w :: w != v && w in s.migratingVms ==> r.migratingVms[w] == s.migratingVms[w])
      && (v !in s.migratingVms ==> d == 0)
      && r == s.(machineToVms := r.machineToVms, migratingVms := r.migratingVms)
  {
  }

  /** No duplicate check: a VM already listed on the destination ends up listed one more time. */
  lemma MigrationDoneDuplicates(s: State, v: VmId)
    requires Wf(s) && v in s.vms && v in VmsOf(s, MigrationDestination(s, v))
    ensures var d := MigrationDestination(s, v);
      multiset(VmsOf(MigrationDoneStep(s, v), d))[v] == multiset(VmsOf(s, d))[v] + 1 >= 2
  {
    var d := MigrationDestination(s, v);
    MigrationDoneEffect(s, v);
    assert multiset(VmsOf(s, d) + [v]) == multiset(VmsOf(s, d)) + multiset{v};
  }

  // ---------------------------------------------------------------------
  // Init and Shutdown

  /** The loop of `Init` from machine `i` appends `i..n-1` to the machine list, in order. */
  lemma {:induction false} InitFromMachines(s: State, i: nat)
    requires i <= |s.hw|
    ensures var r := InitFrom(s, i); var p := |s.machines|;
      && |r.machines| == p + (|s.hw| - i)
      && s.machines <= r.machines
      && (forall k :: p <= k < |r.machines| ==> r.machines[k] == k - p + i)
    decreases |s.hw| - i
  {
    if i < |s.hw| {
      var s1 := RegisterMachine(s, i);
      InitFromMachines(s1, i + 1);
      var r := InitFrom(s1, i + 1);
      assert s.machines <= s1.machines <= r.machines;
      assert r.machines[|s.machines|] == s1.machines[|s.machines|] == i;
    }
  }

  /** Empty lists for the machines `lo..hi-1`. */
  function EmptyLists(lo: nat, hi: nat): (r: map<MachineId, seq<nat>>)
    ensures forall j :: j in r <==> lo <= j < hi
    ensures forall j :: j in r ==> r[j] == []
    decreases hi - lo
  {
    if hi <= lo then map[] else EmptyLists(lo + 1, hi)[lo := []]
  }

  lemma EmptyListsStep(m: map<MachineId, seq<nat>>, i: nat, n: nat)
    requires i < n
    ensures m[i := []] + EmptyLists(i + 1, n) == m + EmptyLists(i, n)
  {
    var a := m[i := []] + EmptyLists(i + 1, n);
    var b := m + EmptyLists(i, n);
    assert a.Keys == b.Keys;
    forall k | k in a ensures a[k] == b[k] {}
  }

  /** The loop of `Init` from machine `i` gives machines `i..n-1` empty VM lists and keeps other entries. */
  lemma {:induction false} InitFromVmLists(s: State, i: nat)
    requires i <= |s.hw|
    ensures InitFrom(s, i).machineToVms == s.machineToVms + EmptyLists(i, |s.hw|)
    decreases |s.hw| - i
  {
    if i < |s.hw| {
      InitFromVmLists(RegisterMachine(s, i), i + 1);
      EmptyListsStep(s.machineToVms, i, |s.hw|);
    } else {
      assert EmptyLists(i, |s.hw|) == map[];
    }
  }

  /** The loop of `Init` from machine `i` gives machines `i..n-1` empty pending queues and keeps other entries. */
  lemma {:induction false} InitFromQueues(s: State, i: nat)
    requires i <= |s.hw|
    ensures InitFrom(s, i).migratingTasks == s.migratingTasks + EmptyLists(i, |s.hw|)
    decreases |s.hw| - i
  {
    if i < |s.hw| {
      InitFromQueues(RegisterMachine(s, i), i + 1);
      EmptyListsStep(s.migratingTasks, i, |s.hw|);
    } else {
      assert EmptyLists(i, |s.hw|) == map[];
    }
  }

  /** The loop of `Init` from machine `i` sets machines `i..n-1` to S0 and changes nothing else about them. */
  lemma {:induction false} InitFromPower(s: State, i: nat)
    requires i <= |s.hw|
    ensures var r := InitFrom(s, i);
      forall j :: 0 <= j < |s.hw| ==> r.hw[j] == if j < i then s.hw[j] else s.hw[j].(sState := S0)
    decreases |s.hw| - i
  {
    if i < |s.hw| {
      InitFromPower(RegisterMachine(s, i), i + 1);
    }
  }

  /** The loop of `Init` from machine `i` increments the counter once per machine, modulo 2^32. */
  lemma {:induction false} InitFromCounter(s: State, i: nat)
    requires i <= |s.hw|
    ensures InitFrom(s, i).activeMachines == Wrap32(s.activeMachines + (|s.hw| - i))
    decreases |s.hw| - i
  {
    if i < |s.hw| {
      InitFromCounter(RegisterMachine(s, i), i + 1);
      WrapShift(s.activeMachines + 1, |s.hw| - i - 1);
    }
  }

  /**
   * `Init`: machines 0..n-1 are appended to the machine list in order, each
   * with an empty VM list and an empty pending queue, all are set to S0 and
   * `active_machines` goes up by n (modulo 2^32).
   */
  lemma InitEffect(s: State)
    requires Wf(s)
    ensures var r := InitStep(s); var n := |s.hw|; var p := |s.machines|;
      && |r.machines| == p + n && s.machines <= r.machines
      && (forall k :: p <= k < |r.machines| ==> r.machines[k] == k - p)
      && (forall j :: 0 <= j < n ==> j in r.machineToVms && r.machineToVms[j] == [])
      && (forall j :: 0 <= j < n ==> j in r.migratingTasks && r.migratingTasks[j] == [])
      && |r.hw| == n
      && (forall j :: 0 <= j < n ==> r.hw[j] == s.hw[j].(sState := S0))
      && r.activeMachines == Wrap32(s.activeMachines + n)
  {
    InitFromMachines(s, 0);
    InitFromVmLists(s, 0);
    InitFromQueues(s, 0);
    InitFromPower(s, 0);
    InitFromCounter(s, 0);
  }

  /**
   * Right after `Init` on a fresh scheduler the counter equals the number of
   * machines, so the first `NewTask` after `Init` does not take the
   * activation fallback: it either finds an eligible machine or drops the
   * task. (That call's sweep lowers the counter, which reopens the fallback
   * for later calls.)
   */
  lemma InitLeavesNoMachineToActivate(hw: seq<MachineInfo>, tasks: map<TaskId, TaskInfo>, t: TaskId)
    requires |hw| < U32_LIMIT && t in tasks
    ensures var s := InitStep(Pristine(hw, tasks));
      && s.activeMachines == |hw|
      && Target(s, tasks[t]).after == s
  {
    InitEffect(Pristine(hw, tasks));
  }

  /** The machine loop of `Shutdown`: every listed machine is set to S5, the others are untouched. */
  lemma {:induction false} PowerOffEffect(s: State, ms: seq<MachineId>)
    requires forall i :: 0 <= i < |ms| ==> ms[i] < |s.hw|
    ensures forall k :: 0 <= k < |s.hw| ==>
      PowerOff(s, ms).hw[k] == (if k in ms then s.hw[k].(sState := S5) else s.hw[k])
    decreases |ms|
  {
    if ms != [] {
      var s1 := SetState(s, ms[0], S5);
      PowerOffEffect(s1, ms[1..]);
      assert forall k :: k in ms <==> k == ms[0] || k in ms[1..];
    }
  }

  /** The VM loop of `Shutdown`: the VMs of the list are shut down in order. */
  lemma {:induction false} ShutdownVmsEffect(s: State, vs: seq<VmId>)
    ensures ShutdownVms(s, vs).shutDown == s.shutDown + vs
    decreases |vs|
  {
    if vs != [] {
      ShutdownVmsEffect(s.(shutDown := s.shutDown + [vs[0]]), vs[1..]);
      assert s.shutDown + [vs[0]] + vs[1..] == s.shutDown + vs;
    }
  }

  /** `Shutdown`: every VM in the scheduler's list is shut down and every listed machine ends in S5. */
  lemma ShutdownEffect(s: State)
    requires Wf(s)
    ensures var r := ShutdownStep(s);
      && r.shutDown == s.shutDown + s.vmList
      && (forall k :: 0 <= k < |s.hw| ==> r.hw[k] == (if k in s.machines then s.hw[k].(sState := S5) else s.hw[k]))
      && r == s.(shutDown := r.shutDown, hw := r.hw) && |r.hw| == |s.hw|
  {
    ShutdownVmsEffect(s, s.vmList);
    PowerOffEffect(ShutdownVms(s, s.vmList), s.machines);
  }

  /**
   * No handler adds to the scheduler's own VM list (`vms`), so from a
   * fresh scheduler the VM loop of `Shutdown` has nothing to shut down.
   */
  lemma HandlersKeepVmList(s: State, t: TaskId, m: MachineId, v: VmId)
    requires Wf(s) && t in s.tasks && m < |s.hw| && v in s.vms
    ensures InitStep(s).vmList == s.vmList
    ensures NewTaskStep(s, t).vmList == s.vmList
    ensures Sweep(s).vmList == s.vmList
    ensures EscalateStep(s, t).vmList == s.vmList
    ensures StateChangeStep(s, m).vmList == s.vmList
    ensures MemoryWarningStep(s, m).vmList == s.vmList
    ensures MigrationDoneStep(s, v).vmList == s.vmList
    ensures s.vmList == [] ==> ShutdownStep(s).shutDown == s.shutDown
  {
    ShutdownEffect(s);
  }

  /**
   * No handler records a VM migration (`migrating_vms`); `MigrationDone`
   * only erases one. So from a fresh scheduler the map stays empty and
   * `MigrationDone` always lists the VM under machine 0.
   */
  lemma HandlersKeepMigratingVms(s: State, t: TaskId, m: MachineId, v: VmId)
    requires Wf(s) && t in s.tasks && m < |s.hw| && v in s.vms
    ensures InitStep(s).migratingVms == s.migratingVms
    ensures NewTaskStep(s, t).migratingVms == s.migratingVms
    ensures Sweep(s).migratingVms == s.migratingVms
    ensures EscalateStep(s, t).migratingVms == s.migratingVms
    ensures StateChangeStep(s, m).migratingVms == s.migratingVms
    ensures MemoryWarningStep(s, m).migratingVms == s.migratingVms
    ensures MigrationDoneStep(s, v).migratingVms == s.migratingVms - {v}
    ensures ShutdownStep(s).migratingVms == s.migratingVms
    ensures s.migratingVms == map[] ==> MigrationDestination(s, v) == 0
  {
    ShutdownEffect(s);
  }
}
