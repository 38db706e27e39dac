/**
 * The side-effect-free helpers of the scheduler: the three resource
 * compatibility checks and the SLA-to-priority mapping.
 */
module Compat {
  import opened ClusterTypes

  /** `cpu_compatible`: the machine's CPU type is the one the task requires. */
  predicate CpuCompatible(m: MachineInfo, t: TaskInfo)
  {
    m.cpu == t.requiredCpu
  }

  /** `memory_fits`: the task's memory plus what the machine already uses fits its size. */
  predicate MemoryFits(m: MachineInfo, t: TaskInfo)
  {
    t.requiredMemory + m.memoryUsed <= m.memorySize
  }

  /** `gpu_compatible`: the task needs no GPU, or the machine has one. */
  predicate GpuCompatible(m: MachineInfo, t: TaskInfo)
  {
    !t.gpuCapable || m.gpus
  }

  /** The test of normal placement: all three checks. */
  predicate Eligible(m: MachineInfo, t: TaskInfo)
  {
    CpuCompatible(m, t) && MemoryFits(m, t) && GpuCompatible(m, t)
  }

  /** The test of SLA escalation: CPU and memory only, the GPU is not looked at. */
  predicate EscalationEligible(m: MachineInfo, t: TaskInfo)
  {
    CpuCompatible(m, t) && MemoryFits(m, t)
  }

  /**
   * `sla_to_priority`: total; the two most stringent classes get high
   * priority, SLA3 gets low priority, SLA2 and every unrecognised value
   * get medium priority.
   */
  function SlaToPriority(sla: Sla): (p: Priority)
    ensures p == HighPriority <==> (sla == SLA0 || sla == SLA1)
    ensures p == LowPriority <==> sla == SLA3
    ensures p == MidPriority <==> (sla == SLA2 || sla.UnknownSla?)
  {
    match sla
    case SLA0 => HighPriority
    case SLA1 => HighPriority
    case SLA2 => MidPriority
    case SLA3 => LowPriority
    case UnknownSla(_) => MidPriority
  }

  /** Stringency of the recognised SLA classes: 0 is the strictest. */
  function SlaRank(sla: Sla): nat
    requires !sla.UnknownSla?
  {
    match sla
    case SLA0 => 0
    case SLA1 => 1
    case SLA2 => 2
    case SLA3 => 3
  }

  /** Urgency of a priority tier: 0 is the most urgent. */
  function PriorityRank(p: Priority): nat
  {
    match p
    case HighPriority => 0
    case MidPriority => 1
    case LowPriority => 2
  }

  /** A stricter recognised SLA class never receives a less urgent priority. */
  lemma SlaPriorityMonotone(a: Sla, b: Sla)
    requires !a.UnknownSla? && !b.UnknownSla?
    requires SlaRank(a) <= SlaRank(b)
    ensures PriorityRank(SlaToPriority(a)) <= PriorityRank(SlaToPriority(b))
  {
  }

  /** Every machine normal placement accepts is also accepted by escalation. */
  lemma EligibleIsEscalationEligible(m: MachineInfo, t: TaskInfo)
    ensures Eligible(m, t) ==> EscalationEligible(m, t)
  {
  }

  /** The escalation test reads neither the machine's GPU flag nor the task's GPU requirement. */
  lemma EscalationGpuBlind(m: MachineInfo, t: TaskInfo, g: bool, b: bool)
    ensures EscalationEligible(m.(gpus := g), t) == EscalationEligible(m, t)
    ensures EscalationEligible(m, t.(gpuCapable := b)) == EscalationEligible(m, t)
  {
  }

  /** Escalation accepts a GPU-less machine for a task that needs a GPU; placement does not. */
  lemma EscalationIgnoresGpu()
    ensures var m := MachineInfo(1, 8, 0, false, 0, 0, S0);
            var t := TaskInfo(1, 0, 4, true, SLA3);
            EscalationEligible(m, t) && !Eligible(m, t)
  {
  }
}
