/** The event names accepted by -e, with the perf_event type and config each stands for. */
module Events {
  import opened Splitting
  import opened Tokenizer

  datatype EventId = EventId(kind: nat, config: nat)

  // perf_event types
  const HARDWARE: nat := 0
  const SOFTWARE: nat := 1
  const HW_CACHE: nat := 3

  // cache ids, operations and results
  const L1D: nat := 0
  const L1I: nat := 1
  const LL: nat := 2
  const DTLB: nat := 3
  const ITLB: nat := 4
  const BPU: nat := 5
  const NODE: nat := 6
  const READ: nat := 0
  const WRITE: nat := 1
  const PREFETCH: nat := 2
  const ACCESS: nat := 0
  const MISS: nat := 1

  /** id | op << 8 | result << 16, for fields that do not overlap. */
  function CacheConfig(id: nat, op: nat, result: nat): nat {
    id + op * 256 + result * 65536
  }

  function HardwareEvent(k: nat): Named<EventId>
    requires k < 12
  {
    match k
    case 0 => Named("cycles", EventId(HARDWARE, 0))
    case 1 => Named("cpu-cycles", EventId(HARDWARE, 0))
    case 2 => Named("instructions", EventId(HARDWARE, 1))
    case 3 => Named("branches", EventId(HARDWARE, 4))
    case 4 => Named("branch-instructions", EventId(HARDWARE, 4))
    case 5 => Named("branch-misses", EventId(HARDWARE, 5))
    case 6 => Named("cache-references", EventId(HARDWARE, 2))
    case 7 => Named("cache-misses", EventId(HARDWARE, 3))
    case 8 => Named("bus-cycles", EventId(HARDWARE, 6))
    case 9 => Named("stalled-cycles-frontend", EventId(HARDWARE, 7))
    case 10 => Named("stalled-cycles-backend", EventId(HARDWARE, 8))
    case _ => Named("ref-cycles", EventId(HARDWARE, 9))
  }

  function SoftwareEvent(k: nat): Named<EventId>
    requires k < 13
  {
    match k
    case 0 => Named("cpu-clock", EventId(SOFTWARE, 0))
    case 1 => Named("task-clock", EventId(SOFTWARE, 1))
    case 2 => Named("page-faults", EventId(SOFTWARE, 2))
    case 3 => Named("faults", EventId(SOFTWARE, 2))
    case 4 => Named("context-switches", EventId(SOFTWARE, 3))
    case 5 => Named("cs", EventId(SOFTWARE, 3))
    case 6 => Named("cpu-migrations", EventId(SOFTWARE, 4))
    case 7 => Named("migrations", EventId(SOFTWARE, 4))
    case 8 => Named("minor-faults", EventId(SOFTWARE, 5))
    case 9 => Named("major-faults", EventId(SOFTWARE, 6))
    case 10 => Named("alignment-faults", EventId(SOFTWARE, 7))
    case 11 => Named("emulation-faults", EventId(SOFTWARE, 8))
    case _ => Named("dummy", EventId(SOFTWARE, 9))
  }

  function CacheEvent(k: nat): Named<EventId>
    requires k < 19
  {
    match k
    case 0 => Named("L1-dcache-loads", EventId(HW_CACHE, CacheConfig(L1D, READ, ACCESS)))
    case 1 => Named("L1-dcache-load-misses", EventId(HW_CACHE, CacheConfig(L1D, READ, MISS)))
    case 2 => Named("L1-dcache-stores", EventId(HW_CACHE, CacheConfig(L1D, WRITE, ACCESS)))
    case 3 => Named("L1-dcache-prefetches", EventId(HW_CACHE, CacheConfig(L1D, PREFETCH, ACCESS)))
    case 4 => Named("L1-dcache-prefetch-misses", EventId(HW_CACHE, CacheConfig(L1D, PREFETCH, MISS)))
    case 5 => Named("L1-icache-loads", EventId(HW_CACHE, CacheConfig(L1I, READ, ACCESS)))
    case 6 => Named("L1-icache-load-misses", EventId(HW_CACHE, CacheConfig(L1I, READ, MISS)))
    case 7 => Named("LLC-loads", EventId(HW_CACHE, CacheConfig(LL, READ, ACCESS)))
    case 8 => Named("LLC-load-misses", EventId(HW_CACHE, CacheConfig(LL, READ, MISS)))
    case 9 => Named("LLC-stores", EventId(HW_CACHE, CacheConfig(LL, WRITE, ACCESS)))
    case 10 => Named("LLC-store-misses", EventId(HW_CACHE, CacheConfig(LL, WRITE, MISS)))
    case 11 => Named("dTLB-loads", EventId(HW_CACHE, CacheConfig(DTLB, READ, ACCESS)))
    case 12 => Named("dTLB-load-misses", EventId(HW_CACHE, CacheConfig(DTLB, READ, MISS)))
    case 13 => Named("iTLB-loads", EventId(HW_CACHE, CacheConfig(ITLB, READ, ACCESS)))
    case 14 => Named("iTLB-load-misses", EventId(HW_CACHE, CacheConfig(ITLB, READ, MISS)))
    case 15 => Named("branch-loads", EventId(HW_CACHE, CacheConfig(BPU, READ, ACCESS)))
    case 16 => Named("branch-load-misses", EventId(HW_CACHE, CacheConfig(BPU, READ, MISS)))
    case 17 => Named("node-loads", EventId(HW_CACHE, CacheConfig(NODE, READ, ACCESS)))
    case _ => Named("node-load-misses", EventId(HW_CACHE, CacheConfig(NODE, READ, MISS)))
  }

  /** Entry k of known_events: the hardware, then the software, then the hardware cache events. */
  function KnownEvent(k: nat): Named<EventId>
    requires k < 44
  {
    if k < 12 then HardwareEvent(k) else if k < 25 then SoftwareEvent(k - 12) else CacheEvent(k - 25)
  }

  function KnownEvents(): (table: seq<Named<EventId>>)
    ensures |table| == 44 && forall k :: 0 <= k < 44 ==> table[k] == KnownEvent(k)
  {
    seq(44, k requires 0 <= k < 44 => KnownEvent(k))
  }

  // ----- the table is fit for the tokenizer

  /** The position of a listed name, told from its length and a few characters; the names are hence distinct. */
  function Position(name: string): int {
    match |name|
    case 2 => 17
    case 5 => 24
    case 6 => if name[0] == 'c' then 0 else 15
    case 8 => 3
    case 9 => if name[0] == 'c' then 12 else 32
    case 10 =>
      if name[0] == 'c' then 1 else if name[0] == 'b' then 8 else if name[0] == 'r' then 11
      else if name[0] == 't' then 13 else if name[0] == 'm' then 19 else if name[0] == 'L' then 34
      else if name[0] == 'd' then 36 else if name[0] == 'i' then 38 else 42
    case 11 => 14
    case 12 =>
      if name[2] == 's' then 2 else if name[2] == 'c' then 7 else if name[2] == 'n' then 20
      else if name[2] == 'j' then 21 else 40
    case 13 => 5
    case 14 => 18
    case 15 => if name[3] == 'd' then 25 else if name[3] == 'i' then 30 else 33
    case 16 =>
      if name[2] == 'c' then 6 else if name[2] == 'n' then 16 else if name[2] == 'i' then 22
      else if name[2] == 'u' then 23 else if name[2] == '-' then 27 else if name[2] == 'C' then 35
      else if name[2] == 'L' then (if name[0] == 'd' then 37 else 39) else 43
    case 18 => 41
    case 19 => 4
    case 20 => 28
    case 21 => if name[3] == 'd' then 26 else 31
    case 22 => 10
    case 23 => 9
    case 25 => 29
    case _ => -1
  }

  /** A name the tokenizer can hold and that is found at position k. */
  predicate Usable(name: string, k: int) {
    0 < |name| < BUFFER_SIZE - 1 && Free(name, ',') && Position(name) == k
  }

  lemma Names0To7()
    ensures Usable("cycles", 0)
    ensures Usable("cpu-cycles", 1)
    ensures Usable("instructions", 2)
    ensures Usable("branches", 3)
    ensures Usable("branch-instructions", 4)
    ensures Usable("branch-misses", 5)
    ensures Usable("cache-references", 6)
    ensures Usable("cache-misses", 7)
  {
  }

  lemma Names8To15()
    ensures Usable("bus-cycles", 8)
    ensures Usable("stalled-cycles-frontend", 9)
    ensures Usable("stalled-cycles-backend", 10)
    ensures Usable("ref-cycles", 11)
    ensures Usable("cpu-clock", 12)
    ensures Usable("task-clock", 13)
    ensures Usable("page-faults", 14)
    ensures Usable("faults", 15)
  {
  }

  lemma Names16To23()
    ensures Usable("context-switches", 16)
    ensures Usable("cs", 17)
    ensures Usable("cpu-migrations", 18)
    ensures Usable("migrations", 19)
    ensures Usable("minor-faults", 20)
    ensures Usable("major-faults", 21)
    ensures Usable("alignment-faults", 22)
    ensures Usable("emulation-faults", 23)
  {
  }

  lemma Names24To31()
    ensures Usable("dummy", 24)
    ensures Usable("L1-dcache-loads", 25)
    ensures Usable("L1-dcache-load-misses", 26)
    ensures Usable("L1-dcache-stores", 27)
    ensures Usable("L1-dcache-prefetches", 28)
    ensures Usable("L1-dcache-prefetch-misses", 29)
    ensures Usable("L1-icache-loads", 30)
    ensures Usable("L1-icache-load-misses", 31)
  {
  }

  lemma Names32To39()
    ensures Usable("LLC-loads", 32)
    ensures Usable("LLC-load-misses", 33)
    ensures Usable("LLC-stores", 34)
    ensures Usable("LLC-store-misses", 35)
    ensures Usable("dTLB-loads", 36)
    ensures Usable("dTLB-load-misses", 37)
    ensures Usable("iTLB-loads", 38)
    ensures Usable("iTLB-load-misses", 39)
  {
  }

  lemma Names40To43()
    ensures Usable("branch-loads", 40)
    ensures Usable("branch-load-misses", 41)
    ensures Usable("node-loads", 42)
    ensures Usable("node-load-misses", 43)
  {
  }

  lemma KnownEventUsable(k: nat)
    requires k < 44
    ensures Usable(KnownEvent(k).name, k)
  {
    hide Usable;
    Names0To7();
    Names8To15();
    Names16To23();
    Names24To31();
    Names32To39();
    Names40To43();
  }

  /** Every listed name fits the buffer and no two are equal. */
  lemma KnownEventsWellFormed()
    ensures WellFormedTable(KnownEvents()) && DistinctNames(KnownEvents())
  {
    hide Position, KnownEvent;
    forall k | 0 <= k < 44
      ensures Usable(KnownEvents()[k].name, k)
    {
      KnownEventUsable(k);
    }
  }

  /** So any list of known names, joined by commas, parses back to exactly the entries listed. */
  lemma KnownNamesParseBack(entries: seq<Named<EventId>>)
    requires entries != [] && forall i :: 0 <= i < |entries| ==> entries[i] in KnownEvents()
    ensures var parts := Split(Join(Names(entries), ','), ',');
            Found(KnownEvents(), parts) == entries && AllKnown(KnownEvents(), parts)
  {
    hide *;
    KnownEventsWellFormed();
    JoinedNamesParseBack(KnownEvents(), entries);
  }
}
