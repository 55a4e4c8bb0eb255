/**
 The CSV output: emit_csv_header and emit_csv_one append to a sink piece by piece. Both follow the same list of
 columns, which is what makes the header name what the row prints.
 */
module CsvRow {
  import opened Records
  import opened Splitting
  import opened Decimal
  import opened Wrappers
  import Cli

  // ----- the columns

  /** What the header calls each counter. */
  function Title(c: Counter): string {
    match c
    case Cycles => "cycles"
    case Instructions => "instructions"
    case TotalBranches => "branches"
    case BranchMisses => "branch_misses"
    case TotalCycles => "total_cycles"
    case CpuTime => "cpu_time"
    case ContextSwitches => "context_switches"
    case Migrations => "migrations"
    case CacheMisses => "cache_misses"
    case L1Cache => "l1_cache"
    case L1tCache => "l1t_cache"
    case LlCache => "ll_cache"
    case Access => "cache_node"
    case Bpu => "bpu"
    case PageFaults => "page_faults"
    case BusCycles => "bus_cycles"
    case StalledFront => "stalled_front"
    case StalledBack => "stalled_back"
    case DtlbAccess => "dtlb_access"
    case DtlbMiss => "dtlb_miss"
    case ItlbAccess => "itlb_access"
    case ItlbMiss => "itlb_miss"
    case L1dMiss => "l1d_miss"
    case LlcacheMiss => "llcache_miss"
    case L1tMiss => "l1t_miss"
    case L1dPrefetch => "l1d_prefetch"
    case L1dPrefetchMiss => "l1d_prefetch_miss"
    case MinorFaults => "minor_faults"
    case MajorFaults => "major_faults"
    case AlignmentFaults => "alignment_faults"
    case EmulationFaults => "emulation_faults"
  }

  const CORE: seq<Counter> := [
    Cycles, Instructions, TotalBranches, BranchMisses, TotalCycles, CpuTime, ContextSwitches, Migrations
  ]

  const CACHE: seq<Counter> := [
    CacheMisses, L1Cache, L1tCache, LlCache, Access, Bpu
  ]

  const SYSTEM: seq<Counter> := [
    PageFaults, BusCycles, StalledFront, StalledBack
  ]

  const MISSES: seq<Counter> := [
    DtlbAccess, DtlbMiss, ItlbAccess, ItlbMiss, L1dMiss, LlcacheMiss
  ]

  const FAULTS: seq<Counter> := [
    L1tMiss, L1dPrefetch, L1dPrefetchMiss, MinorFaults, MajorFaults, AlignmentFaults, EmulationFaults
  ]

  /** The columns after name and time. */
  function Columns(detail: nat): seq<Counter> {
    CORE + CACHE + (if detail >= 2 then SYSTEM + MISSES else []) + (if detail >= 3 then FAULTS else [])
  }

  function Titles(cs: seq<Counter>): (fields: seq<string>)
    ensures |fields| == |cs|
  {
    seq(|cs|, i requires 0 <= i < |cs| => Title(cs[i]))
  }

  function Numbers(b: Benchmark, cs: seq<Counter>): (fields: seq<string>)
    ensures |fields| == |cs|
  {
    seq(|cs|, i requires 0 <= i < |cs| => IntText(b.counts(cs[i])))
  }

  function HeaderFields(detail: nat): seq<string> {
    ["name", "time_us"] + Titles(Columns(detail))
  }

  /** timeText is the printed time; how a double is printed is not part of this model. */
  function RowFields(b: Benchmark, timeText: string, detail: nat): seq<string> {
    [b.name, timeText] + Numbers(b, Columns(detail))
  }

  // ----- the sink

  class Sink {
    const fd: int
    var text: string
    /** The text before the current line, and the fields of the line so far. */
    ghost var start: string
    ghost var fields: seq<string>

    constructor (fd: int)
      ensures this.fd == fd && text == ""
    {
      this.fd := fd;
      text, start, fields := "", "", [];
    }

    /** Nothing is written when the output could not be opened. */
    method Emit(s: string)
      modifies this`text
      ensures text == old(text) + (if fd < 0 then "" else s)
    {
      if fd < 0 { return; }
      text := text + s;
    }

    ghost predicate InLine(sep: char)
      reads this
    {
      fields != [] && text == start + (if fd < 0 then "" else Join(fields, sep))
    }

    method First(s: string, sep: char)
      modifies this
      ensures InLine(sep) && fields == [s] && start == old(text)
    {
      start, fields := text, [s];
      Emit(s);
    }

    method Next(s: string, sep: char)
      requires InLine(sep)
      modifies this
      ensures InLine(sep) && fields == old(fields) + [s] && start == old(start)
    {
      Emit([sep]);
      Emit(s);
      fields := fields + [s];
      assert fields[..|fields| - 1] == old(fields);
      assert start + Join(old(fields), sep) + [sep] + s == start + (Join(old(fields), sep) + [sep] + s);
    }

    method NewLine(sep: char)
      requires InLine(sep)
      modifies this`text
      ensures text == start + (if fd < 0 then "" else Line(fields, sep))
    {
      Emit("\n");
    }
  }

  /** A complete line of output. */
  function Line(fields: seq<string>, sep: char): string
    requires fields != []
  {
    Join(fields, sep) + "\n"
  }

  method EmitHeaderCore(out: Sink, sep: char)
    requires out.InLine(sep)
    modifies out
    ensures out.InLine(sep) && out.fields == old(out.fields) + Titles(CORE) && out.start == old(out.start)
  {
    hide Join, Sink.InLine;
    out.Next("cycles", sep);
    out.Next("instructions", sep);
    out.Next("branches", sep);
    out.Next("branch_misses", sep);
    out.Next("total_cycles", sep);
    out.Next("cpu_time", sep);
    out.Next("context_switches", sep);
    out.Next("migrations", sep);
  }

  method EmitHeaderCache(out: Sink, sep: char)
    requires out.InLine(sep)
    modifies out
    ensures out.InLine(sep) && out.fields == old(out.fields) + Titles(CACHE) && out.start == old(out.start)
  {
    hide Join, Sink.InLine;
    out.Next("cache_misses", sep);
    out.Next("l1_cache", sep);
    out.Next("l1t_cache", sep);
    out.Next("ll_cache", sep);
    out.Next("cache_node", sep);
    out.Next("bpu", sep);
  }

  method EmitHeaderSystem(out: Sink, sep: char)
    requires out.InLine(sep)
    modifies out
    ensures out.InLine(sep) && out.fields == old(out.fields) + Titles(SYSTEM) && out.start == old(out.start)
  {
    hide Join, Sink.InLine;
    out.Next("page_faults", sep);
    out.Next("bus_cycles", sep);
    out.Next("stalled_front", sep);
    out.Next("stalled_back", sep);
  }

  method EmitHeaderMisses(out: Sink, sep: char)
    requires out.InLine(sep)
    modifies out
    ensures out.InLine(sep) && out.fields == old(out.fields) + Titles(MISSES) && out.start == old(out.start)
  {
    hide Join, Sink.InLine;
    out.Next("dtlb_access", sep);
    out.Next("dtlb_miss", sep);
    out.Next("itlb_access", sep);
    out.Next("itlb_miss", sep);
    out.Next("l1d_miss", sep);
    out.Next("llcache_miss", sep);
  }

  method EmitHeaderFaults(out: Sink, sep: char)
    requires out.InLine(sep)
    modifies out
    ensures out.InLine(sep) && out.fields == old(out.fields) + Titles(FAULTS) && out.start == old(out.start)
  {
    hide Join, Sink.InLine;
    out.Next("l1t_miss", sep);
    out.Next("l1d_prefetch", sep);
    out.Next("l1d_prefetch_miss", sep);
    out.Next("minor_faults", sep);
    out.Next("major_faults", sep);
    out.Next("alignment_faults", sep);
    out.Next("emulation_faults", sep);
  }

  lemma TitlesOfColumns(detail: nat)
    ensures Titles(Columns(detail))
         == Titles(CORE) + Titles(CACHE) + (if detail >= 2 then Titles(SYSTEM) + Titles(MISSES) else [])
            + (if detail >= 3 then Titles(FAULTS) else [])
  {
    hide Title, CORE, CACHE, SYSTEM, MISSES, FAULTS;
  }

  method EmitCsvHeader(out: Sink, detail: nat, sep: char)
    modifies out
    ensures out.text == old(out.text) + (if out.fd < 0 then "" else Line(HeaderFields(detail), sep))
  {
    hide Join, Titles, Columns, Title, CORE, CACHE, SYSTEM, MISSES, FAULTS;
    out.First("name", sep);
    out.Next("time_us", sep);
    EmitHeaderCore(out, sep);
    EmitHeaderCache(out, sep);
    if detail >= 2 {
      EmitHeaderSystem(out, sep);
      EmitHeaderMisses(out, sep);
    }
    if detail >= 3 {
      EmitHeaderFaults(out, sep);
    }
    TitlesOfColumns(detail);
    assert out.fields == HeaderFields(detail);
    out.NewLine(sep);
  }

  method EmitNumbersCore(out: Sink, b: Benchmark, sep: char)
    requires out.InLine(sep)
    modifies out
    ensures out.InLine(sep) && out.fields == old(out.fields) + Numbers(b, CORE) && out.start == old(out.start)
  {
    hide Join, IntText, Sink.InLine;
    out.Next(IntText(b.counts(Cycles)), sep);
    out.Next(IntText(b.counts(Instructions)), sep);
    out.Next(IntText(b.counts(TotalBranches)), sep);
    out.Next(IntText(b.counts(BranchMisses)), sep);
    out.Next(IntText(b.counts(TotalCycles)), sep);
    out.Next(IntText(b.counts(CpuTime)), sep);
    out.Next(IntText(b.counts(ContextSwitches)), sep);
    out.Next(IntText(b.counts(Migrations)), sep);
  }

  method EmitNumbersCache(out: Sink, b: Benchmark, sep: char)
    requires out.InLine(sep)
    modifies out
    ensures out.InLine(sep) && out.fields == old(out.fields) + Numbers(b, CACHE) && out.start == old(out.start)
  {
    hide Join, IntText, Sink.InLine;
    out.Next(IntText(b.counts(CacheMisses)), sep);
    out.Next(IntText(b.counts(L1Cache)), sep);
    out.Next(IntText(b.counts(L1tCache)), sep);
    out.Next(IntText(b.counts(LlCache)), sep);
    out.Next(IntText(b.counts(Access)), sep);
    out.Next(IntText(b.counts(Bpu)), sep);
  }

  method EmitNumbersSystem(out: Sink, b: Benchmark, sep: char)
    requires out.InLine(sep)
    modifies out
    ensures out.InLine(sep) && out.fields == old(out.fields) + Numbers(b, SYSTEM) && out.start == old(out.start)
  {
    hide Join, IntText, Sink.InLine;
    out.Next(IntText(b.counts(PageFaults)), sep);
    out.Next(IntText(b.counts(BusCycles)), sep);
    out.Next(IntText(b.counts(StalledFront)), sep);
    out.Next(IntText(b.counts(StalledBack)), sep);
  }

  method EmitNumbersMisses(out: Sink, b: Benchmark, sep: char)
    requires out.InLine(sep)
    modifies out
    ensures out.InLine(sep) && out.fields == old(out.fields) + Numbers(b, MISSES) && out.start == old(out.start)
  {
    hide Join, IntText, Sink.InLine;
    out.Next(IntText(b.counts(DtlbAccess)), sep);
    out.Next(IntText(b.counts(DtlbMiss)), sep);
    out.Next(IntText(b.counts(ItlbAccess)), sep);
    out.Next(IntText(b.counts(ItlbMiss)), sep);
    out.Next(IntText(b.counts(L1dMiss)), sep);
    out.Next(IntText(b.counts(LlcacheMiss)), sep);
  }

  method EmitNumbersFaults(out: Sink, b: Benchmark, sep: char)
    requires out.InLine(sep)
    modifies out
    ensures out.InLine(sep) && out.fields == old(out.fields) + Numbers(b, FAULTS) && out.start == old(out.start)
  {
    hide Join, IntText, Sink.InLine;
    out.Next(IntText(b.counts(L1tMiss)), sep);
    out.Next(IntText(b.counts(L1dPrefetch)), sep);
    out.Next(IntText(b.counts(L1dPrefetchMiss)), sep);
    out.Next(IntText(b.counts(MinorFaults)), sep);
    out.Next(IntText(b.counts(MajorFaults)), sep);
    out.Next(IntText(b.counts(AlignmentFaults)), sep);
    out.Next(IntText(b.counts(EmulationFaults)), sep);
  }

  lemma NumbersOfColumns(b: Benchmark, detail: nat)
    ensures Numbers(b, Columns(detail))
         == Numbers(b, CORE) + Numbers(b, CACHE) + (if detail >= 2 then Numbers(b, SYSTEM) + Numbers(b, MISSES) else [])
            + (if detail >= 3 then Numbers(b, FAULTS) else [])
  {
    hide IntText, CORE, CACHE, SYSTEM, MISSES, FAULTS;
  }

  method EmitCsvOne(out: Sink, b: Benchmark, timeText: string, detail: nat, sep: char)
    modifies out
    ensures out.text == old(out.text) + (if out.fd < 0 then "" else Line(RowFields(b, timeText, detail), sep))
  {
    hide Join, Numbers, Columns, CORE, CACHE, SYSTEM, MISSES, FAULTS;
    out.First(b.name, sep);
    out.Next(timeText, sep);
    EmitNumbersCore(out, b, sep);
    EmitNumbersCache(out, b, sep);
    if detail >= 2 {
      EmitNumbersSystem(out, b, sep);
      EmitNumbersMisses(out, b, sep);
    }
    if detail >= 3 {
      EmitNumbersFaults(out, b, sep);
    }
    NumbersOfColumns(b, detail);
    assert out.fields == RowFields(b, timeText, detail);
    out.NewLine(sep);
  }

  // ----- reading a line back

  /** Split a line at the separator, without its newline. */
  function ReadLine(line: string, sep: char): seq<string>
    requires line != ""
  {
    Split(line[..|line| - 1], sep)
  }

  lemma LineReadsBackIff(fields: seq<string>, sep: char)
    requires fields != []
    ensures ReadLine(Line(fields, sep), sep) == fields <==> AllFree(fields, sep)
  {
    var line := Line(fields, sep);
    assert line[..|line| - 1] == Join(fields, sep);
    SplitUndoesJoinIff(fields, sep);
  }

  lemma IntTextFree(n: int, sep: char)
    requires !IsDigit(sep) && sep != '-'
    ensures Free(IntText(n), sep)
  {
    var t := NatText(if n < 0 then -n else n);
    assert forall i :: 0 <= i < |t| ==> IsDigit(t[i]);
  }

  /**
   The round trip: with a separator that is no digit and no minus sign and occurs neither in the name nor
   in the printed time, splitting a row gives its fields, and every count parses back to its value.
   */
  lemma RowRoundTrip(b: Benchmark, timeText: string, detail: nat, sep: char)
    requires !IsDigit(sep) && sep != '-' && Free(b.name, sep) && Free(timeText, sep)
    ensures var fields := ReadLine(Line(RowFields(b, timeText, detail), sep), sep);
            var columns := Columns(detail);
            && |fields| == 2 + |columns| && fields[0] == b.name && fields[1] == timeText
            && forall k :: 0 <= k < |columns| ==> ParseIntOf(fields[2 + k]) == Some(b.counts(columns[k]))
  {
    hide Columns, IntText, ParseIntOf, Line, ReadLine;
    var fields, columns := RowFields(b, timeText, detail), Columns(detail);
    forall k | 0 <= k < |fields|
      ensures Free(fields[k], sep)
    {
      if k >= 2 {
        IntTextFree(b.counts(columns[k - 2]), sep);
      }
    }
    LineReadsBackIff(fields, sep);
    forall k | 0 <= k < |columns|
      ensures ParseIntOf(fields[2 + k]) == Some(b.counts(columns[k]))
    {
      PrintThenParse(b.counts(columns[k]), "");
      assert fields[2 + k] + "" == fields[2 + k];
    }
  }

  // ----- the titles tell the columns apart

  /** The counter of a title, told from its length and a few characters. */
  function TitledOf(t: string): Counter {
    match |t|
    case 3 => Bpu
    case 6 => Cycles
    case 8 =>
      if t[0] == 'b' then TotalBranches else if t[0] == 'c' then CpuTime
      else if t[1] == 'l' then LlCache else if t[2] == 'd' then L1dMiss
      else if t[2] == 't' then L1tMiss else L1Cache
    case 9 => if t[0] == 'l' then L1tCache else if t[0] == 'd' then DtlbMiss else ItlbMiss
    case 10 => if t[0] == 'm' then Migrations else if t[0] == 'c' then Access else BusCycles
    case 11 => if t[0] == 'p' then PageFaults else if t[0] == 'd' then DtlbAccess else ItlbAccess
    case 12 =>
      if t[0] == 'i' then Instructions else if t[0] == 't' then TotalCycles else if t[0] == 'c' then CacheMisses
      else if t[0] == 's' then StalledBack else if t[1] == 'l' then LlcacheMiss else if t[1] == '1' then L1dPrefetch
      else if t[1] == 'i' then MinorFaults else MajorFaults
    case 13 => if t[0] == 'b' then BranchMisses else StalledFront
    case 16 => if t[0] == 'c' then ContextSwitches else if t[0] == 'a' then AlignmentFaults else EmulationFaults
    case _ => L1dPrefetchMiss
  }

  lemma FirstTitle(c: Counter)
    requires Group1(c)
    ensures TitledOf(Title(c)) == c
  {
  }

  lemma LaterTitle(c: Counter)
    requires !Group1(c)
    ensures TitledOf(Title(c)) == c
  {
  }

  /** No two columns share a title. */
  lemma TitlesDistinct(c: Counter, d: Counter)
    ensures Title(c) == Title(d) <==> c == d
  {
    hide Title, TitledOf;
    OwnTitle(c);
    OwnTitle(d);
  }

  lemma OwnTitle(c: Counter)
    ensures TitledOf(Title(c)) == c
  {
    hide Title, TitledOf;
    if Group1(c) {
      FirstTitle(c);
    } else {
      LaterTitle(c);
    }
  }

  // ----- header and row agree

  /** Titles are made of small letters, digits and underscores. */
  predicate TitleChar(c: char) {
    'a' <= c <= 'z' || '0' <= c <= '9' || c == '_'
  }

  lemma FirstTitleFree(c: Counter, sep: char)
    requires !TitleChar(sep) && Group1(c)
    ensures Free(Title(c), sep)
  {
  }

  lemma LaterTitleFree(c: Counter, sep: char)
    requires !TitleChar(sep) && !Group1(c)
    ensures Free(Title(c), sep)
  {
  }

  lemma TitleFree(c: Counter, sep: char)
    requires !TitleChar(sep)
    ensures Free(Title(c), sep)
  {
    hide Title, TitleChar, Free, Group1;
    if Group1(c) {
      FirstTitleFree(c, sep);
    } else {
      LaterTitleFree(c, sep);
    }
  }

  /**
   The header splits back whole for any separator that no title contains, and then field k of the header
   is the title of the counter that field k of the row prints.
   */
  lemma HeaderMatchesRow(b: Benchmark, timeText: string, detail: nat, sep: char, k: nat)
    requires !TitleChar(sep) && sep != '-' && Free(b.name, sep) && Free(timeText, sep)
    requires k < |Columns(detail)|
    ensures var header := ReadLine(Line(HeaderFields(detail), sep), sep);
            var row := ReadLine(Line(RowFields(b, timeText, detail), sep), sep);
            && |header| == |row| == 2 + |Columns(detail)| && header[0] == "name" && header[1] == "time_us"
            && header[2 + k] == Title(Columns(detail)[k])
            && ParseIntOf(row[2 + k]) == Some(b.counts(Columns(detail)[k]))
  {
    hide Columns, Title, IntText, ParseIntOf, Line, ReadLine;
    RowRoundTrip(b, timeText, detail, sep);
    HeaderIsFree(detail, sep);
    LineReadsBackIff(HeaderFields(detail), sep);
  }

  lemma HeaderIsFree(detail: nat, sep: char)
    requires !TitleChar(sep)
    ensures AllFree(HeaderFields(detail), sep)
  {
    hide Columns, Title;
    var fields := HeaderFields(detail);
    forall k | 0 <= k < |fields|
      ensures Free(fields[k], sep)
    {
      if k >= 2 {
        TitleFree(Columns(detail)[k - 2], sep);
      }
    }
  }

  // ----- what is printed has been measured

  predicate Group1(c: Counter) {
    c.Cycles? || c.Instructions? || c.CacheMisses? || c.TotalBranches? || c.BranchMisses?
    || c.TotalCycles? || c.CpuTime? || c.ContextSwitches? || c.Migrations? || c.L1Cache?
    || c.L1tCache? || c.LlCache? || c.Access? || c.Bpu?
  }

  predicate Group2(c: Counter) {
    c.PageFaults? || c.BusCycles? || c.StalledFront? || c.StalledBack? || c.DtlbAccess?
    || c.DtlbMiss? || c.ItlbAccess? || c.ItlbMiss? || c.L1dMiss? || c.LlcacheMiss?
  }

  predicate Group3(c: Counter) {
    c.L1tMiss? || c.L1dPrefetch? || c.L1dPrefetchMiss? || c.MinorFaults? || c.MajorFaults?
    || c.AlignmentFaults? || c.EmulationFaults?
  }

  /** The counters benchmark_bin opens: only the levels 2 and 3 select a larger group. */
  predicate Measured(detail: nat, c: Counter) {
    if detail == 2 then Group1(c) || Group2(c)
    else if detail == 3 then Group1(c) || Group2(c) || Group3(c)
    else Group1(c)
  }

  lemma PrintedIn1(c: Counter)
    requires Group1(c)
    ensures c in CORE || c in CACHE
  {
  }

  lemma NotPrintedIn1(c: Counter)
    requires !Group1(c)
    ensures c !in CORE && c !in CACHE
  {
  }

  lemma PrintedLevel1(c: Counter)
    ensures c in CORE || c in CACHE <==> Group1(c)
  {
    hide CORE, CACHE, Group1;
    if Group1(c) {
      PrintedIn1(c);
    } else {
      NotPrintedIn1(c);
    }
  }

  lemma PrintedLevel2(c: Counter)
    ensures c in SYSTEM || c in MISSES <==> Group2(c)
  {
  }

  lemma PrintedLevel3(c: Counter)
    ensures c in FAULTS <==> Group3(c)
  {
  }

  lemma PrintedAt(detail: nat, c: Counter)
    ensures c in Columns(detail) <==> Group1(c) || (detail >= 2 && Group2(c)) || (detail >= 3 && Group3(c))
  {
    hide CORE, CACHE, SYSTEM, MISSES, FAULTS, Group1, Group2, Group3;
    PrintedLevel1(c);
    PrintedLevel2(c);
    PrintedLevel3(c);
  }

  /** Every column has been measured, and everything measured has a column, exactly up to detail level 3. */
  lemma ColumnsAreMeasuredIff(detail: nat)
    ensures (forall c: Counter :: c in Columns(detail) <==> Measured(detail, c)) <==> detail <= 3
  {
    hide Columns, Group1, Group2, Group3;
    forall c: Counter
      ensures c in Columns(detail) <==> Group1(c) || (detail >= 2 && Group2(c)) || (detail >= 3 && Group3(c))
    {
      PrintedAt(detail, c);
    }
    PageFaultsAreLevel2();
    assert PageFaults in Columns(detail) <==> detail >= 2;
  }

  lemma PageFaultsAreLevel2()
    ensures Group2(PageFaults) && !Group1(PageFaults) && !Group3(PageFaults)
  {
  }

  /** The command line only ever selects such a level. */
  lemma CommandLineLevels(args: seq<string>, c: Counter)
    ensures var detail := Cli.Parse(args, Cli.DEFAULTS).opts.detail;
            c in Columns(detail) <==> Measured(detail, c)
  {
    hide Cli.Parse, Columns, Measured;
    Cli.ParseKeepsInv(args, Cli.DEFAULTS);
    ColumnsAreMeasuredIff(Cli.Parse(args, Cli.DEFAULTS).opts.detail);
  }
}
