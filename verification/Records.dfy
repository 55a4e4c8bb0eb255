/** The record benchmark() fills in: a name, a time in microseconds, and one count per event. */
module Records {

  datatype Counter =
    | Cycles | Instructions | CacheMisses | TotalBranches | BranchMisses | TotalCycles | CpuTime
    | ContextSwitches | Migrations | L1Cache | L1tCache | LlCache | Access | Bpu
    | PageFaults | BusCycles | StalledFront | StalledBack | DtlbAccess | DtlbMiss | ItlbAccess | ItlbMiss
    | L1dMiss | LlcacheMiss
    | L1tMiss | L1dPrefetch | L1dPrefetchMiss | MinorFaults | MajorFaults | AlignmentFaults | EmulationFaults

  datatype Benchmark = Benchmark(name: string, time: real, counts: Counter -> int)

  type Group = seq<Benchmark>
}
