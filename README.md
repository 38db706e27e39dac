# CloudSim scheduler: a Dafny model

This project models the scheduler of a CloudSim-style cluster simulator
(`Scheduler.cpp`) and proves properties of that model. The scheduler reacts
to harness events:

- `Init` registers every physical machine.
- `NewTask` places an arriving task. It picks the first machine whose CPU
  type, memory headroom and GPU requirement fit. Failing that, it activates
  machine number `active_machines`. On the chosen machine it reuses a
  matching VM or creates one, and it finishes with the idle sweep.
- `SLAWarning` escalates a task to a new high-priority VM.
- `MemoryWarning` escalates the first task found on a machine.
- `StateChangeComplete` replays the tasks queued for a machine that reached S0.
- `MigrationDone` lists a migrated VM under its destination.
- `Shutdown` and `SimulationComplete` shut the VMs down and set the machines to S5.
- `TaskComplete` and `PeriodicCheck` only run the idle sweep
  (`turn_off_unused_machines`). The sweep sets every idle machine to S4 and
  decrements the unsigned `active_machines` counter.

Modules:

- `ClusterTypes` (`types.dfy`): identifiers and the harness records
  (machine, VM and task information). It also holds SLA classes, priorities,
  ACPI power states, and the unsigned 32-bit counter arithmetic
  (`Inc32`/`Dec32` wrap modulo 2^32). The `0xDEADBEEF` "nothing selected"
  sentinel becomes an `Option`.
- `Compat` (`compat.dfy`): the pure helpers `cpu_compatible`,
  `memory_fits`, `gpu_compatible` and `sla_to_priority`. These are
  `CpuCompatible`, `MemoryFits`, `GpuCompatible` and `SlaToPriority`, plus
  the placement test (`Eligible`, all three checks) and the escalation test
  (`EscalationEligible`, CPU and memory only).
- `Policy` (`policy.dfy`): a value-level `State`. It holds the scheduler's
  bookkeeping (`machines`, `machine_to_vms`, `migrating_tasks`,
  `migrating_vms`, `active_machines`, the scheduler's `vms` list). It also
  holds the part of the harness the scheduler reads and writes: machine
  information by id, VM records, task records, the next fresh VM id, the
  VMs shut down so far, and the log of `VM_AddTask` calls. There is one step
  function per handler, built from the first-match searches and from harness
  calls written as state updates. `Wf` is the well-formedness invariant
  every step keeps.
- `Properties` (`properties.dfy`): lemmas relating the step functions to
  what the scheduler promises.
- `Scheduling` (`scheduler.dfy`): class `Scheduler`. It has one field per
  `State` component, and the handlers are methods with the source's loops.
  Each handler method is proved to leave exactly the state its step
  function describes, `Snapshot() == Step(old(Snapshot()), ...)`, and to
  keep `Valid()`; the harness-call methods and `Register` equal their
  state updates.

Harness calls are modelled as follows:

- `Machine_SetState` changes the machine's power state at once.
- `VM_Create` hands out the next fresh id.
- `VM_Attach` records the host.
- `VM_AddTask` appends the task to the VM and logs the assignment with its
  priority.
- `VM_Shutdown` appends the VM to the shut-down list.
- `Machine_GetInfo`, `VM_GetInfo`, `GetTaskInfo` and `Machine_GetCPUType`
  read the corresponding record.

Two consequences of the code as written:

- The idle sweep is idempotent on power states only. Every run decrements
  `active_machines` once per idle machine again, and past zero the counter
  wraps to 2^32 - 1 (`Properties.SweepTwice`, `Properties.SweepWrapsBelowZero`).
- The counter is therefore a separately mutated value, not the number of
  active machines.

## Model

| member | source | states |
|---|---|---|
| Compat.SlaToPriority | Scheduler.cpp:264-276 | total: high priority exactly for SLA0 and SLA1, low exactly for SLA3, medium exactly for SLA2 and every unrecognised value |
| Compat.CpuCompatible | Scheduler.cpp:250-252 | holds exactly when the machine's CPU type is the one the task requires |
| Compat.MemoryFits | Scheduler.cpp:254-257 | holds exactly when the task's memory plus the machine's used memory does not exceed its size |
| Compat.GpuCompatible | Scheduler.cpp:259-262 | holds exactly when the task needs no GPU or the machine has one |
| Compat.Eligible | Scheduler.cpp:78 | the placement test: all three checks |
| Compat.EscalationEligible | Scheduler.cpp:132 | the escalation test: CPU and memory only |
| Compat.SlaPriorityMonotone | Scheduler.cpp:264-276 | a stricter recognised SLA class never gets a less urgent priority |
| Compat.EligibleIsEscalationEligible | Scheduler.cpp:132 | every machine normal placement accepts also passes the escalation test |
| Compat.EscalationGpuBlind | Scheduler.cpp:132 | for every machine and task, changing the machine's GPU flag or the task's GPU requirement does not change the escalation test |
| Compat.EscalationIgnoresGpu | Scheduler.cpp:132 | a GPU-less machine passes the escalation test for a GPU task although placement rejects it |
| Policy.Pristine | Scheduler.cpp:17-21 | the state before `Init` (counter 0, empty maps and lists) is well formed |
| Policy.FirstEligible | Scheduler.cpp:77-82 | the index found is the first whose machine passes all three checks; none is found exactly when no listed machine passes |
| Policy.FirstEscalationTarget | Scheduler.cpp:131-136 | the index found is the first whose machine passes the CPU and memory checks; none is found exactly when no listed machine passes |
| Policy.VmMatches | Scheduler.cpp:98 | a VM can take the task exactly when its type and CPU are the ones the task requires |
| Policy.FirstMatchingVm | Scheduler.cpp:96-102 | the index found is the first VM with the task's VM type and CPU; none is found exactly when no VM matches |
| Policy.FirstBusyVm | Scheduler.cpp:209-215 | the index found is the first VM with a non-empty task list; none is found exactly when all are empty |
| Policy.VmsOf | Scheduler.cpp:96 | `machine_to_vms[m]` through `operator[]`: an absent machine reads as an empty list |
| Policy.QueueOf | Scheduler.cpp:196 | `migrating_tasks[m]` through `operator[]`: an absent machine reads as an empty queue |
| Policy.SetState | Scheduler.cpp:41 | `Machine_SetState`: the machine's power state becomes the given one |
| Policy.CreateVm | Scheduler.cpp:104 | `VM_Create`: a VM of the given type and CPU, with no tasks and no host, under the next fresh id |
| Policy.AttachVm | Scheduler.cpp:105 | `VM_Attach`: the VM's host becomes the given machine |
| Policy.AddTask | Scheduler.cpp:108 | `VM_AddTask`: the task joins the VM's task list and the (VM, task, priority) assignment is logged |
| Policy.PushVm | Scheduler.cpp:106 | `machine_to_vms[m].push_back(v)`: the VM becomes the last entry of the machine's list |
| Policy.SweepFrom | Scheduler.cpp:36-47 | the sweep loop over the machines still to visit; keeps the machine count |
| Policy.Idle | Scheduler.cpp:40 | a machine with no active task and no active VM |
| Policy.IdleCount | Scheduler.cpp:36-47 | the number of entries of the machine list naming a machine with no active task and no active VM |
| Policy.MigrationDestination | Scheduler.cpp:242-243 | the recorded destination of the VM, or machine 0 from the default-constructed record |
| Policy.NewVmOn | Scheduler.cpp:104-106 | creating, attaching and listing a VM keeps the state well formed, registers the fresh id and changes only VMs, the id supply and `machine_to_vms` |
| Policy.Target | Scheduler.cpp:76-92 | machine selection keeps the state well formed, returns an existing machine and changes at most power states and the counter |
| Policy.AssignVm | Scheduler.cpp:96-108 | VM selection and task assignment keep the state well formed and change only VMs, the id supply, `machine_to_vms` and the assignment log |
| Policy.PlaceStep | Scheduler.cpp:72-111 | placement keeps the state well formed and leaves the pending queues, migration records and scheduler VM list alone |
| Policy.NewTaskStep | Scheduler.cpp:71-114 | `NewTask` keeps the state well formed and leaves the pending queues, migration records and scheduler VM list alone |
| Policy.Sweep | Scheduler.cpp:34-48 | the idle sweep keeps the state well formed and changes only power states and the counter |
| Policy.EscalateStep | Scheduler.cpp:127-146 | `SLAWarning` keeps the state well formed and changes only VMs, the id supply, `machine_to_vms` and the log; no power state or counter change |
| Policy.Replay | Scheduler.cpp:196-199 | replaying a queue through `NewTask` keeps the state well formed and leaves the queues themselves alone |
| Policy.StateChangeStep | Scheduler.cpp:190-202 | `StateChangeComplete` keeps the state well formed |
| Policy.MemoryWarningStep | Scheduler.cpp:204-216 | `MemoryWarning` keeps the state well formed |
| Policy.MigrationDoneStep | Scheduler.cpp:238-247 | `MigrationDone` keeps the state well formed |
| Policy.RegisterMachine | Scheduler.cpp:57-62 | one `Init` iteration keeps the machine count and changes only the machine list, both maps, power states and the counter |
| Policy.InitFrom | Scheduler.cpp:56-63 | the `Init` loop changes only the machine list, both maps, power states and the counter |
| Policy.InitFromWf | Scheduler.cpp:56-63 | the `Init` loop keeps the state well formed |
| Policy.InitStep | Scheduler.cpp:53-66 | `Init` keeps the state well formed and changes only the machine list, both maps, power states and the counter |
| Policy.ShutdownVms | Scheduler.cpp:161-163 | the VM loop of `Shutdown` changes nothing but the shut-down list |
| Policy.PowerOff | Scheduler.cpp:164-166 | the machine loop of `Shutdown` changes nothing but power states |
| Policy.ShutdownStep | Scheduler.cpp:159-168 | `Shutdown` keeps the state well formed |
| Properties.SweepFromEffect | Scheduler.cpp:36-47 | the sweep loop sets exactly the visited idle machines to S4, leaves all others as they were, and leaves the counter decremented modulo 2^32 by the number of idle entries |
| Properties.SweepEffect | Scheduler.cpp:34-48 | `turn_off_unused_machines`: a listed idle machine goes to S4, every other machine is unchanged, and the counter drops (modulo 2^32) by the idle count |
| Properties.SweepTwice | Scheduler.cpp:34-48 | a second sweep leaves the power states as the first left them but decrements the counter by the idle count again |
| Properties.SweepWrapsBelowZero | Scheduler.cpp:42 | one idle machine with a counter of 1: the first sweep gives 0, the second wraps to 2^32 - 1 |
| Properties.NewTaskFirstFit | Scheduler.cpp:77-82 | if machine k is the first eligible one, `NewTask` chooses it and activates nothing |
| Properties.ActivationFallback | Scheduler.cpp:85-92 | with no eligible machine, machine number `active_machines` is set to S0 and chosen unchecked and the counter rises by one, all other machines unchanged; when that machine does not exist nothing is chosen and nothing changes |
| Properties.NoCapacityDropsTask | Scheduler.cpp:109-113 | with no eligible machine and none to activate, no VM or assignment is made and `NewTask` only runs the sweep |
| Properties.VmReuse | Scheduler.cpp:96-102 | the first matching VM of the chosen machine gets the task at its SLA priority; no VM is created and `machine_to_vms` is unchanged |
| Properties.VmCreation | Scheduler.cpp:103-108 | without a matching VM, one fresh VM of the task's VM type and the machine's CPU is attached to the chosen machine, appended to its list only, and gets the task at its SLA priority |
| Properties.NewVmOnEffect | Scheduler.cpp:104-106 | a created VM gets a fresh id, the machine's CPU, no tasks, its host recorded, and is appended to that machine's list only |
| Properties.PlaceAssignsOnTarget | Scheduler.cpp:94-111 | placement either assigns nothing (no machine) or appends exactly one assignment of the task, at its SLA priority, to a VM listed on the chosen machine |
| Properties.NewTaskAssignsOnce | Scheduler.cpp:71-114 | the same holds after the closing sweep: at most one assignment, keeping earlier ones |
| Properties.EscalationSucceeds | Scheduler.cpp:127-142 | escalation to the first CPU- and memory-fit machine always creates a fresh VM, appends it to that machine's list only, gives it the task at high priority whatever the SLA, and leaves the machine count, power states and the counter alone |
| Properties.EscalationFails | Scheduler.cpp:143-145 | with no CPU- and memory-fit machine, `SLAWarning` changes nothing |
| Properties.EscalationBypassesGpuCheck | Scheduler.cpp:131-142 | a GPU task with only a GPU-less machine of its CPU type: `NewTask` finds no eligible machine, `SLAWarning` places it there at high priority |
| Properties.NewTaskLogGrowth | Scheduler.cpp:71-114 | `NewTask` keeps all earlier assignments and adds at most one |
| Properties.ReplayLogGrowth | Scheduler.cpp:197-199 | replaying a queue keeps earlier assignments and adds at most one per queued task |
| Properties.ReplayAppend | Scheduler.cpp:197-199 | replaying `a + b` is replaying `a` and then `b`, so tasks are handled in queue order |
| Properties.StateChangeIgnoresOtherStates | Scheduler.cpp:195 | a machine not in S0: `StateChangeComplete` changes nothing |
| Properties.StateChangeReplaysQueue | Scheduler.cpp:195-201 | a machine in S0: its queue goes through `NewTask` in order and is then empty; no other queue changes |
| Properties.MemoryWarningFirstTask | Scheduler.cpp:208-215 | the chosen task is the first one of the first VM with tasks, all earlier VMs being empty; when a CPU- and memory-fit machine exists exactly that task is assigned at high priority to a fresh VM listed under that machine, otherwise (and when no VM has tasks) the only change is the machine's entry in `machine_to_vms` |
| Properties.MemoryWarningAtMostOne | Scheduler.cpp:204-216 | `MemoryWarning` adds at most one assignment, keeps earlier ones, runs no sweep (power states and counter unchanged), and leaves an entry for the machine in `machine_to_vms` |
| Properties.MigrationDoneEffect | Scheduler.cpp:242-246 | the VM becomes the last entry of the recorded destination's list (machine 0 without a record), its record is erased, no other list or record changes, and nothing else in the state changes |
| Properties.MigrationDoneDuplicates | Scheduler.cpp:245 | no duplicate check: a VM already listed on its destination is then listed one more time |
| Properties.InitFromMachines | Scheduler.cpp:56-58 | the `Init` loop from machine i appends i..n-1 to the machine list, in order |
| Properties.InitFromVmLists | Scheduler.cpp:56-59 | the `Init` loop from machine i gives machines i..n-1 empty VM lists and keeps the other entries |
| Properties.InitFromQueues | Scheduler.cpp:56-60 | the `Init` loop from machine i gives machines i..n-1 empty pending queues and keeps the other entries |
| Properties.InitFromPower | Scheduler.cpp:56-61 | the `Init` loop from machine i sets machines i..n-1 to S0 and leaves the rest unchanged |
| Properties.InitFromCounter | Scheduler.cpp:56-62 | the `Init` loop from machine i raises the counter by n - i, modulo 2^32 |
| Properties.InitEffect | Scheduler.cpp:53-66 | `Init` appends machines 0..n-1 in order, each with an empty VM list and an empty queue, sets all to S0, and raises the counter by n modulo 2^32 |
| Properties.InitLeavesNoMachineToActivate | Scheduler.cpp:85-92 | after `Init` on a fresh scheduler the counter equals the machine count, so the first `NewTask` after `Init` does not take the activation fallback |
| Properties.PowerOffEffect | Scheduler.cpp:164-166 | the machine loop sets exactly the listed machines to S5 |
| Properties.ShutdownVmsEffect | Scheduler.cpp:161-163 | the VM loop shuts the listed VMs down in order |
| Properties.ShutdownEffect | Scheduler.cpp:159-168 | `Shutdown` shuts down every VM of the scheduler's list, sets every listed machine to S5, and changes nothing else |
| Properties.HandlersKeepVmList | Scheduler.cpp:161-163 | no handler adds to the scheduler's own VM list, so with an empty list the VM loop of `Shutdown` shuts nothing down |
| Properties.HandlersKeepMigratingVms | Scheduler.cpp:238-247 | no handler records a migration and `MigrationDone` only erases one, so with an empty `migrating_vms` the migrated VM is listed under machine 0 |
| Scheduling.Scheduler.constructor | Scheduler.cpp:17-21 | a new scheduler is the well-formed state before `Init` |
| Scheduling.Scheduler.MachineSetState | Scheduler.cpp:41 | `Machine_SetState` changes that machine's power state only |
| Scheduling.Scheduler.VmCreate | Scheduler.cpp:104 | `VM_Create` returns the next fresh id and records a VM with no tasks and no host |
| Scheduling.Scheduler.VmAttach | Scheduler.cpp:105 | `VM_Attach` records the host |
| Scheduling.Scheduler.VmAddTask | Scheduler.cpp:108 | `VM_AddTask` appends the task to the VM and logs the assignment |
| Scheduling.Scheduler.VmShutdown | Scheduler.cpp:162 | `VM_Shutdown` appends the VM to the shut-down list |
| Scheduling.Scheduler.TurnOffUnusedMachines | Scheduler.cpp:34-48 | the sweep loop ends in exactly the state `Policy.Sweep` describes |
| Scheduling.Scheduler.Init | Scheduler.cpp:53-66 | the `Init` loop ends in exactly the state `Policy.InitStep` describes |
| Scheduling.Scheduler.Register | Scheduler.cpp:57-62 | one `Init` iteration is `Policy.RegisterMachine` |
| Scheduling.Scheduler.NewTask | Scheduler.cpp:71-114 | the machine scan, activation fallback, VM handling and sweep end in exactly the state `Policy.NewTaskStep` describes |
| Scheduling.Scheduler.AssignToMachine | Scheduler.cpp:96-108 | the VM scan and creation end in exactly the state `Policy.AssignVm` describes |
| Scheduling.Scheduler.TaskComplete | Scheduler.cpp:119-122 | `TaskComplete` runs only the sweep |
| Scheduling.Scheduler.PeriodicCheck | Scheduler.cpp:151-154 | `PeriodicCheck` runs only the sweep |
| Scheduling.Scheduler.SlaWarning | Scheduler.cpp:127-146 | the escalation scan ends in exactly the state `Policy.EscalateStep` describes |
| Scheduling.Scheduler.StateChangeComplete | Scheduler.cpp:190-202 | ends in exactly the state `Policy.StateChangeStep` describes |
| Scheduling.Scheduler.ReplayQueue | Scheduler.cpp:196-199 | the replay loop ends in exactly the state `Policy.Replay` describes |
| Scheduling.Scheduler.MemoryWarning | Scheduler.cpp:204-216 | the scan with early return ends in exactly the state `Policy.MemoryWarningStep` describes |
| Scheduling.Scheduler.MigrationDone | Scheduler.cpp:238-247 | ends in exactly the state `Policy.MigrationDoneStep` describes |
| Scheduling.Scheduler.Shutdown | Scheduler.cpp:159-168 | both loops end in exactly the state `Policy.ShutdownStep` describes |
| Scheduling.Scheduler.SimulationComplete | Scheduler.cpp:228-235 | the shutdown loops it repeats end in the state `Policy.ShutdownStep` describes |

## Left out

- Console output and `SimOutput` diagnostics, including the "no resources" messages of `NewTask` and `SLAWarning`: they change no state.
- The SLA report, cluster energy and elapsed-time output of `SimulationComplete` (lines 218-226) and the energy line of `Shutdown` (line 167): these are reporting over harness counters and floating point.
- The `Handle*`, `InitScheduler` and `SchedulerCheck` wrappers (lines 170-188): these are logging plus delegation to the modelled methods.
- Time parameters: no handler's logic uses them. Event delivery is serialised, so concurrency is not modelled.
- The harness functions' bodies. `VM_Attach` and `VM_AddTask` are not modelled as changing a machine's `memory_used`, `active_tasks` or `active_vms`, and power transitions take effect at once. So no memory-safety ("never overcommitted") invariant is claimed. The activation fallback and `SLAWarning` do not check every predicate anyway.
- Because the harness calls leave a machine's `active_tasks` and `active_vms` unchanged, the closing sweep of `NewTask` still sees a machine that was idle before placement as idle. It sets that machine to S4 and decrements the counter right after giving it a VM and a task. This happens to a fallback target that is listed and idle before placement (after `Init` every machine is listed), and to an idle machine chosen by first fit. A harness that counts the new VM and task would leave that machine on.
- The harness's own changes between events are not part of the class: a finished task leaving its VM's `active_tasks`, memory use changing, migrations starting. Each lemma is stated for every well-formed pre-state instead. In particular `TaskComplete(t)` leaves `t` in its VM's task list, so on the class alone a later `MemoryWarning` can escalate a task that has already finished.
- Properties.EscalationSucceeds: states that the machine count, power states and counter are unchanged, not the whole machine records, since a real `VM_Attach`/`VM_AddTask` may update the host's memory and active counts.
- Properties.MemoryWarningAtMostOne: states power states and counter unchanged rather than the whole machine records, for the same reason.
- Integer widths of ids, memory sizes and CPU types: they are unbounded naturals. Only the `unsigned` counter `active_machines` wraps.
- The 0xDEADBEEF sentinel becomes `Option`, so a real machine or VM whose id equals 0xDEADBEEF is not modelled as "nothing selected".
- `SLAType_t` values outside the four classes are the constructor `UnknownSla`, whose code is constrained to lie outside 0..3.
- Scheduling.Scheduler.MigrationDone: requires the VM to be known to the harness. The well-formedness invariant keeps every listed VM readable through `VM_GetInfo`.
- Scheduling.Scheduler.NewTask: requires the task to be known to the harness (`GetTaskInfo`). The same holds for `SlaWarning`, and for the tasks queued for `StateChangeComplete`.
- Scheduling.Scheduler.StateChangeComplete: requires the machine id to be below `Machine_GetTotal()`, as `Machine_GetInfo` does.
