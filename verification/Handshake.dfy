/**
 The attach-then-exec protocol: process_attach forks, parks the child on a pipe, opens the counters on
 the child's pid, releases the child, and the caller then waits and stops the counters. Parent and
 child are two processes whose steps interleave in any order; a run is a sequence of actions.
 */
module Handshake {
  import opened Scaling
  import opened Wrappers

  /** How many counters the attach callback opens, and their enable_on_exec attribute. */
  datatype Config = Config(counters: nat, enableOnExec: bool)

  /** Counters are opened disabled; a failed open keeps its errno. */
  datatype Counter = Unopened | Failed(errno: int) | Open(enabled: bool, reading: Reading)

  datatype ParentPc =
    | MakePipe | Fork
    | FailCloseRead | FailCloseWrite | Threw
    | CloseRead | Attach(next: nat) | WriteGo | BrokenPipe | CloseWrite
    | Wait | Stop | Done

  datatype ChildPc =
    | Unborn | CloseWriteEnd | ReadGo | CloseReadEnd | Exec
    | Image | ExitFailed | Exited

  datatype State = State(
    parent: ParentPc, child: ChildPc,
    parentRead: bool, parentWrite: bool, childRead: bool, childWrite: bool,
    buffered: nat,
    counters: seq<Counter>)

  datatype Action =
    // parent
    | PipeOk | PipeErr | ForkOk | ForkErr | FailPathClose
    | ParentCloseRead | OpenCounter(errno: int) | WriteByte | ParentCloseWrite
    | Reap | StopCounters
    // child
    | ChildCloseWrite | ChildRead | ChildCloseRead | ExecOk | ExecErr | Exit
    | Killed
    /** The child runs for ns nanoseconds; scheduled[j] says whether counter j had a hardware slot. */
    | Work(events: seq<nat>, ns: nat, scheduled: seq<bool>)

  function Init(c: Config): State {
    State(MakePipe, Unborn, false, false, false, false, 0, seq(c.counters, _ => Unopened))
  }

  predicate Alive(p: ChildPc) {
    p != Unborn && p != Exited
  }

  function AfterOpening(c: Config, k: nat): ParentPc {
    if k == c.counters then WriteGo else Attach(k)
  }

  function Enabled(ctr: Counter, on: bool): Counter {
    if ctr.Open? then ctr.(enabled := on) else ctr
  }

  function Ticked(ctr: Counter, events: nat, ns: nat, scheduled: bool): Counter {
    if ctr.Open? && ctr.enabled then
      ctr.(reading := Reading(
        ctr.reading.value + (if scheduled then events else 0),
        ctr.reading.enabled + ns,
        ctr.reading.running + (if scheduled then ns else 0)))
    else ctr
  }

  function SetEnabled(cs: seq<Counter>, on: bool): (r: seq<Counter>)
    ensures |r| == |cs|
  {
    seq(|cs|, j requires 0 <= j < |cs| => Enabled(cs[j], on))
  }

  predicate WorkFits(c: Config, a: Action)
    requires a.Work?
  {
    |a.events| == |a.scheduled| == c.counters && a.ns >= 1
  }

  function TickAll(cs: seq<Counter>, a: Action): (r: seq<Counter>)
    requires a.Work? && |a.events| == |a.scheduled| == |cs|
    ensures |r| == |cs|
  {
    seq(|cs|, j requires 0 <= j < |cs| => Ticked(cs[j], a.events[j], a.ns, a.scheduled[j]))
  }

  /** The state after action a, or None when a is not enabled in s. */
  function Step(c: Config, s: State, a: Action): Option<State>
    requires |s.counters| == c.counters
  {
    match a
    case PipeOk =>
      if s.parent != MakePipe then None else Some(s.(parent := Fork, parentRead := true, parentWrite := true))
    case PipeErr =>
      if s.parent != MakePipe then None else Some(s.(parent := Threw))
    case ForkErr =>
      if s.parent != Fork then None else Some(s.(parent := FailCloseRead))
    case FailPathClose =>
      if s.parent == FailCloseRead then Some(s.(parent := FailCloseWrite, parentRead := false))
      else if s.parent == FailCloseWrite then Some(s.(parent := Threw, parentWrite := false))
      else None
    case ForkOk =>
      if s.parent != Fork then None
      else Some(s.(parent := CloseRead, child := CloseWriteEnd, childRead := s.parentRead, childWrite := s.parentWrite))
    case ParentCloseRead =>
      if s.parent != CloseRead then None
      else Some(s.(parent := AfterOpening(c, 0), parentRead := false))
    case OpenCounter(errno) =>
      if !(s.parent.Attach? && s.parent.next < c.counters) then None
      else
        var ctr := if errno == 0 then Open(false, Reading(0, 0, 0)) else Failed(errno);
        Some(s.(parent := AfterOpening(c, s.parent.next + 1), counters := s.counters[s.parent.next := ctr]))
    case WriteByte =>
      if s.parent != WriteGo then None
      else if !s.parentRead && !s.childRead then Some(s.(parent := BrokenPipe))
      else Some(s.(parent := CloseWrite, buffered := s.buffered + 1))
    case ParentCloseWrite =>
      if s.parent != CloseWrite then None else Some(s.(parent := Wait, parentWrite := false))
    case Reap =>
      if s.parent != Wait || s.child != Exited then None else Some(s.(parent := Stop))
    case StopCounters =>
      if s.parent != Stop then None else Some(s.(parent := Done, counters := SetEnabled(s.counters, false)))
    case ChildCloseWrite =>
      if s.child != CloseWriteEnd then None else Some(s.(child := ReadGo, childWrite := false))
    case ChildRead =>
      if s.child != ReadGo then None
      else if s.buffered > 0 then Some(s.(child := CloseReadEnd, buffered := s.buffered - 1))
      else if !s.parentWrite && !s.childWrite then Some(s.(child := CloseReadEnd))
      else None
    case ChildCloseRead =>
      if s.child != CloseReadEnd then None else Some(s.(child := Exec, childRead := false))
    case ExecOk =>
      if s.child != Exec then None
      else
        // both pipe ends are close-on-exec; enable_on_exec arms the counters
        var cs := if c.enableOnExec then SetEnabled(s.counters, true) else s.counters;
        Some(s.(child := Image, childRead := false, childWrite := false, counters := cs))
    case ExecErr =>
      if s.child != Exec then None else Some(s.(child := ExitFailed))
    case Exit =>
      if s.child != Image && s.child != ExitFailed then None
      else Some(s.(child := Exited, childRead := false, childWrite := false))
    case Killed =>
      // only the caller's timeout sends signals, and only after process_attach has returned
      if s.parent != Wait || !Alive(s.child) then None
      else Some(s.(child := Exited, childRead := false, childWrite := false))
    case Work(_, _, _) =>
      if !Alive(s.child) || !WorkFits(c, a) then None else Some(s.(counters := TickAll(s.counters, a)))
  }

  lemma StepKeepsCount(c: Config, s: State, a: Action)
    requires |s.counters| == c.counters
    ensures Step(c, s, a).Some? ==> |Step(c, s, a).value.counters| == c.counters
  {
  }

  /** The state after a run from the initial state, or None if some action was not enabled. */
  function Run(c: Config, acts: seq<Action>): (r: Option<State>)
    ensures r.Some? ==> |r.value.counters| == c.counters
  {
    if acts == [] then Some(Init(c))
    else match Run(c, acts[..|acts| - 1])
      case None => None
      case Some(s) =>
        StepKeepsCount(c, s, acts[|acts| - 1]);
        Step(c, s, acts[|acts| - 1])
  }

  predicate IsRun(c: Config, acts: seq<Action>) {
    Run(c, acts).Some?
  }

  /** Every action but the child's own work moves the handshake along. */
  predicate Moves(a: Action) {
    !a.Work?
  }

  // ----- the invariant of every interleaving

  /** How many counters the parent has tried to open. */
  function Attempted(c: Config, p: ParentPc): nat {
    match p
    case MakePipe | Fork | FailCloseRead | FailCloseWrite | Threw | CloseRead => 0
    case Attach(k) => k
    case _ => c.counters
  }

  predicate Released(p: ParentPc) {
    p.CloseWrite? || p.Wait? || p.Stop? || p.Done?
  }

  predicate ParentEnds(s: State) {
    match s.parent
    case MakePipe | Threw => !s.parentRead && !s.parentWrite
    case Fork | FailCloseRead | CloseRead => s.parentRead && s.parentWrite
    case FailCloseWrite | Attach(_) | WriteGo | CloseWrite => !s.parentRead && s.parentWrite
    case Wait | Stop | Done => !s.parentRead && !s.parentWrite
    case BrokenPipe => false
  }

  predicate ChildEnds(s: State) {
    match s.child
    case CloseWriteEnd => s.childRead && s.childWrite
    case ReadGo | CloseReadEnd => s.childRead && !s.childWrite
    case _ => !s.childRead && !s.childWrite
  }

  predicate Barrier(s: State) {
    match s.parent
    case MakePipe | Fork | FailCloseRead | FailCloseWrite | Threw => s.child == Unborn && s.buffered == 0
    case CloseRead | Attach(_) | WriteGo => (s.child == CloseWriteEnd || s.child == ReadGo) && s.buffered == 0
    case BrokenPipe => false
    case _ => s.child != Unborn && ((s.child == CloseWriteEnd || s.child == ReadGo) ==> s.buffered == 1)
  }

  /** Counters below the attempted index have been opened or have failed; none is armed before exec. */
  predicate CounterState(c: Config, s: State) {
    && |s.counters| == c.counters
    && Attempted(c, s.parent) <= c.counters
    && (s.parent.Attach? ==> s.parent.next < c.counters)
    && ((s.parent.Stop? || s.parent.Done?) ==> s.child == Exited)
    && forall j :: 0 <= j < c.counters ==> (s.counters[j].Unopened? <==> Attempted(c, s.parent) <= j)
  }

  predicate Inv(c: Config, s: State) {
    ParentEnds(s) && ChildEnds(s) && Barrier(s) && CounterState(c, s)
  }

  lemma StepKeepsPipe(c: Config, s: State, a: Action)
    requires Inv(c, s) && Step(c, s, a).Some?
    ensures ParentEnds(Step(c, s, a).value) && ChildEnds(Step(c, s, a).value)
  {
    hide CounterState;
  }

  lemma StepKeepsBarrier(c: Config, s: State, a: Action)
    requires Inv(c, s) && Step(c, s, a).Some?
    ensures Barrier(Step(c, s, a).value)
  {
    hide TickAll, SetEnabled;
  }

  /** The parent's next position, and which counters it has tried then. */
  lemma StepAttempts(c: Config, s: State, a: Action)
    requires Inv(c, s) && Step(c, s, a).Some?
    ensures var t := Step(c, s, a).value;
            && Attempted(c, t.parent) == Attempted(c, s.parent) + (if a.OpenCounter? then 1 else 0)
            && (a.OpenCounter? ==> s.parent == Attach(Attempted(c, s.parent)) && Attempted(c, s.parent) < c.counters)
  {
    hide TickAll, SetEnabled, ParentEnds, ChildEnds;
  }

  lemma StepStaysInRange(c: Config, s: State, a: Action)
    requires Inv(c, s) && Step(c, s, a).Some?
    ensures var t := Step(c, s, a).value;
            && (t.parent.Attach? ==> t.parent.next < c.counters)
            && ((t.parent.Stop? || t.parent.Done?) ==> t.child == Exited)
  {
    hide TickAll, SetEnabled, ParentEnds, ChildEnds, Barrier, Attempted;
  }

  /** No step but an open changes whether a counter has been tried. */
  lemma StepTries(c: Config, s: State, a: Action, j: nat)
    requires Inv(c, s) && Step(c, s, a).Some? && j < c.counters
    ensures var t := Step(c, s, a).value;
            t.counters[j].Unopened? == (s.counters[j].Unopened? && !(a.OpenCounter? && s.parent == Attach(j)))
  {
    hide Step, ParentEnds, ChildEnds, Barrier;
    StepCounter(c, s, a, j);
  }

  lemma StepKeepsCounters(c: Config, s: State, a: Action)
    requires Inv(c, s) && Step(c, s, a).Some?
    ensures CounterState(c, Step(c, s, a).value)
  {
    hide Step, ParentEnds, ChildEnds, Barrier;
    StepKeepsCount(c, s, a);
    StepAttempts(c, s, a);
    StepStaysInRange(c, s, a);
    forall j | 0 <= j < c.counters
      ensures Step(c, s, a).value.counters[j].Unopened? <==> Attempted(c, Step(c, s, a).value.parent) <= j
    {
      StepTries(c, s, a, j);
    }
  }

  lemma StepKeepsInv(c: Config, s: State, a: Action)
    requires Inv(c, s) && Step(c, s, a).Some?
    ensures Inv(c, Step(c, s, a).value)
  {
    hide Step, ParentEnds, ChildEnds, Barrier, CounterState;
    StepKeepsPipe(c, s, a);
    StepKeepsBarrier(c, s, a);
    StepKeepsCounters(c, s, a);
  }

  lemma InitInv(c: Config)
    ensures Inv(c, Init(c))
  {
  }

  lemma {:induction false} RunKeepsInv(c: Config, acts: seq<Action>)
    requires IsRun(c, acts)
    ensures Inv(c, Run(c, acts).value)
  {
    hide Step, Inv;
    if acts == [] {
      InitInv(c);
    } else {
      RunKeepsInv(c, acts[..|acts| - 1]);
      StepKeepsInv(c, Run(c, acts[..|acts| - 1]).value, acts[|acts| - 1]);
    }
  }

  // ----- exec only after attach

  /** How many opens a run contains. */
  function Opens(acts: seq<Action>): nat {
    if acts == [] then 0
    else Opens(acts[..|acts| - 1]) + (if acts[|acts| - 1].OpenCounter? then 1 else 0)
  }

  lemma {:induction false} OpensAreAttempts(c: Config, acts: seq<Action>)
    requires IsRun(c, acts)
    ensures Opens(acts) == Attempted(c, Run(c, acts).value.parent)
  {
    hide Step, Inv;
    if acts != [] {
      var before := acts[..|acts| - 1];
      OpensAreAttempts(c, before);
      RunKeepsInv(c, before);
      StepAttempts(c, Run(c, before).value, acts[|acts| - 1]);
    }
  }

  lemma {:induction false} PrefixIsRun(c: Config, acts: seq<Action>, i: nat)
    requires IsRun(c, acts) && i <= |acts|
    ensures IsRun(c, acts[..i])
    decreases |acts|
  {
    if i == |acts| {
      assert acts[..i] == acts;
    } else {
      PrefixIsRun(c, acts[..|acts| - 1], i);
      assert acts[..|acts| - 1][..i] == acts[..i];
    }
  }

  /**
   In every interleaving, when the child reaches execve the attach callback has finished: all counters
   have been tried, and none is tried afterwards.
   */
  lemma ExecOnlyAfterAttach(c: Config, acts: seq<Action>, i: nat)
    requires IsRun(c, acts) && i < |acts|
    requires acts[i].ExecOk? || acts[i].ExecErr?
    ensures Opens(acts[..i]) == c.counters == Opens(acts)
  {
    hide Step, Inv, Attempted, Released;
    PrefixIsRun(c, acts, i);
    PrefixIsRun(c, acts, i + 1);
    assert acts[..i + 1][..i] == acts[..i];
    RunKeepsInv(c, acts[..i]);
    ExecIsReleased(c, Run(c, acts[..i]).value, acts[i]);
    ReleasedStays(c, acts, i);
    OpensAreAttempts(c, acts[..i]);
    OpensAreAttempts(c, acts);
    ReleasedTriedAll(c, Run(c, acts[..i]).value.parent);
    ReleasedTriedAll(c, Run(c, acts).value.parent);
  }

  lemma ExecIsReleased(c: Config, s: State, a: Action)
    requires Inv(c, s) && Step(c, s, a).Some? && (a.ExecOk? || a.ExecErr?)
    ensures Released(s.parent)
  {
  }

  lemma ReleasedTriedAll(c: Config, p: ParentPc)
    requires Released(p)
    ensures Attempted(c, p) == c.counters
  {
  }

  lemma StepReleased(c: Config, s: State, a: Action)
    requires |s.counters| == c.counters && Released(s.parent) && Step(c, s, a).Some?
    ensures Released(Step(c, s, a).value.parent)
  {
  }

  lemma {:induction false} ReleasedStays(c: Config, acts: seq<Action>, i: nat)
    requires IsRun(c, acts) && i <= |acts|
    requires IsRun(c, acts[..i]) && Released(Run(c, acts[..i]).value.parent)
    ensures Released(Run(c, acts).value.parent)
    decreases |acts|
  {
    hide Step;
    if i == |acts| {
      assert acts[..i] == acts;
    } else {
      var before := acts[..|acts| - 1];
      assert before[..i] == acts[..i];
      ReleasedStays(c, before, i);
      StepReleased(c, Run(c, before).value, acts[|acts| - 1]);
    }
  }

  // ----- what the counters read

  /** The run contains a successful execve. */
  predicate Executed(acts: seq<Action>) {
    acts != [] && (Executed(acts[..|acts| - 1]) || acts[|acts| - 1].ExecOk?)
  }

  /** The events of kind j that the child causes from exec to exit. */
  function TrueWork(acts: seq<Action>, j: nat): nat {
    if acts == [] then 0
    else
      var before, a := acts[..|acts| - 1], acts[|acts| - 1];
      TrueWork(before, j) + (if a.Work? && Executed(before) && j < |a.events| then a.events[j] else 0)
  }

  /** The part of them that falls into intervals in which counter j had a hardware slot. */
  function SeenWork(acts: seq<Action>, j: nat): nat {
    if acts == [] then 0
    else
      var before, a := acts[..|acts| - 1], acts[|acts| - 1];
      SeenWork(before, j)
      + (if a.Work? && Executed(before) && j < |a.events| && j < |a.scheduled| && a.scheduled[j] then a.events[j]
         else 0)
  }

  /** The time the new image runs, and the part of it during which counter j is scheduled. */
  function ImageTime(acts: seq<Action>): nat {
    if acts == [] then 0
    else
      var before, a := acts[..|acts| - 1], acts[|acts| - 1];
      ImageTime(before) + (if a.Work? && Executed(before) then a.ns else 0)
  }

  function SeenTime(acts: seq<Action>, j: nat): nat {
    if acts == [] then 0
    else
      var before, a := acts[..|acts| - 1], acts[|acts| - 1];
      SeenTime(before, j)
      + (if a.Work? && Executed(before) && j < |a.scheduled| && a.scheduled[j] then a.ns else 0)
  }

  lemma StepChild(c: Config, s: State, a: Action)
    requires Inv(c, s) && Step(c, s, a).Some?
    ensures var t := Step(c, s, a).value;
            && (a.ExecOk? ==> s.child == Exec && t.child == Image)
            && (a.ExecErr? ==> s.child == Exec && t.child == ExitFailed)
            && (a.Work? ==> t.child == s.child != Exited)
            && (s.child == Image ==> t.child == Image || t.child == Exited)
            && (s.child == ExitFailed ==> t.child == ExitFailed || t.child == Exited)
            && (s.child == Exited ==> t.child == Exited)
            && (t.child == Image ==> s.child == Image || a.ExecOk?)
  {
  }

  lemma {:induction false} ExecutedMeansImage(c: Config, acts: seq<Action>)
    requires IsRun(c, acts)
    ensures var s := Run(c, acts).value;
            if Executed(acts) then s.child == Image || s.child == Exited
            else s.child != Image
    decreases |acts|
  {
    hide Step, Inv;
    if acts != [] {
      var before := acts[..|acts| - 1];
      ExecutedMeansImage(c, before);
      RunKeepsInv(c, before);
      StepChild(c, Run(c, before).value, acts[|acts| - 1]);
    }
  }

  /** How one step changes counter j. */
  lemma StepCounter(c: Config, s: State, a: Action, j: nat)
    requires Inv(c, s) && Step(c, s, a).Some? && j < c.counters
    ensures var t := Step(c, s, a).value;
            && t.counters[j] == (match a
                 case ExecOk => if c.enableOnExec then Enabled(s.counters[j], true) else s.counters[j]
                 case StopCounters => Enabled(s.counters[j], false)
                 case Work(_, _, _) =>
                   if WorkFits(c, a) then Ticked(s.counters[j], a.events[j], a.ns, a.scheduled[j]) else s.counters[j]
                 case OpenCounter(errno) =>
                   if s.parent != Attach(j) then s.counters[j]
                   else if errno == 0 then Open(false, Reading(0, 0, 0)) else Failed(errno)
                 case _ => s.counters[j])
            && (a.Work? ==> WorkFits(c, a))
            && (a.OpenCounter? ==> s.child == CloseWriteEnd || s.child == ReadGo)
            && (t.parent.Done? <==> s.parent.Done? || a.StopCounters?)
            && (s.parent.Done? ==> s.child == Exited)
            && (a.StopCounters? ==> s.child == Exited)
  {
  }

  predicate ReadsSinceExec(c: Config, acts: seq<Action>, s: State, j: nat)
    requires j < |s.counters|
  {
    s.counters[j].Open? ==>
      if c.enableOnExec && Executed(acts) then
        && s.counters[j].enabled == !s.parent.Done?
        && s.counters[j].reading == Reading(SeenWork(acts, j), ImageTime(acts), SeenTime(acts, j))
      else
        !s.counters[j].enabled && s.counters[j].reading == Reading(0, 0, 0)
  }

  lemma StepReads(c: Config, acts: seq<Action>, j: nat)
    requires acts != [] && IsRun(c, acts) && IsRun(c, acts[..|acts| - 1]) && j < c.counters
    requires ReadsSinceExec(c, acts[..|acts| - 1], Run(c, acts[..|acts| - 1]).value, j)
    ensures ReadsSinceExec(c, acts, Run(c, acts).value, j)
  {
    hide Step, Inv;
    var before, a := acts[..|acts| - 1], acts[|acts| - 1];
    var s := Run(c, before).value;
    RunKeepsInv(c, before);
    ExecutedMeansImage(c, before);
    StepChild(c, s, a);
    StepCounter(c, s, a, j);
    if !Executed(before) {
      NothingBeforeExec(before, j);
    }
  }

  lemma {:induction false} NothingBeforeExec(acts: seq<Action>, j: nat)
    requires !Executed(acts)
    ensures SeenWork(acts, j) == TrueWork(acts, j) == ImageTime(acts) == SeenTime(acts, j) == 0
    decreases |acts|
  {
    if acts != [] {
      NothingBeforeExec(acts[..|acts| - 1], j);
    }
  }

  lemma {:induction false} RunReads(c: Config, acts: seq<Action>, j: nat)
    requires IsRun(c, acts) && j < c.counters
    ensures ReadsSinceExec(c, acts, Run(c, acts).value, j)
    decreases |acts|
  {
    if acts != [] {
      RunReads(c, acts[..|acts| - 1], j);
      StepReads(c, acts, j);
    }
  }

  /** Counter j had a hardware slot whenever the new image ran: it was not multiplexed. */
  predicate NotMultiplexed(acts: seq<Action>, j: nat) {
    acts != [] ==>
      var before, a := acts[..|acts| - 1], acts[|acts| - 1];
      NotMultiplexed(before, j) && (a.Work? && Executed(before) ==> j < |a.scheduled| && a.scheduled[j])
  }

  /** The times tell: they are equal exactly for a counter that was not multiplexed, and then it saw everything. */
  lemma {:induction false} SeesEverything(c: Config, acts: seq<Action>, j: nat)
    requires IsRun(c, acts) && j < c.counters
    ensures SeenTime(acts, j) <= ImageTime(acts)
    ensures SeenTime(acts, j) == ImageTime(acts) <==> NotMultiplexed(acts, j)
    ensures NotMultiplexed(acts, j) ==> SeenWork(acts, j) == TrueWork(acts, j)
    decreases |acts|
  {
    hide Step, Executed;
    if acts != [] {
      var before, a := acts[..|acts| - 1], acts[|acts| - 1];
      SeesEverything(c, before, j);
      WorkShape(c, Run(c, before).value, a);
    }
  }

  lemma WorkShape(c: Config, s: State, a: Action)
    requires |s.counters| == c.counters && Step(c, s, a).Some?
    ensures a.Work? ==> WorkFits(c, a)
  {
  }

  lemma {:induction false} NoTimeNoWork(c: Config, acts: seq<Action>, j: nat)
    requires IsRun(c, acts) && ImageTime(acts) == 0
    ensures TrueWork(acts, j) == 0
    decreases |acts|
  {
    hide Step, Executed;
    if acts != [] {
      NoTimeNoWork(c, acts[..|acts| - 1], j);
      WorkShape(c, Run(c, acts[..|acts| - 1]).value, acts[|acts| - 1]);
    }
  }

  /** What retrieve() reports for an opened counter. */
  function Reported(s: State, j: nat): int
    requires j < |s.counters| && s.counters[j].Open?
  {
    Scaled(s.counters[j].reading)
  }

  /**
   Exact counting: under every schedule an opened counter whose two times agree, which is what retrieve()
   tests, reports exactly the child's work from exec to exit, and none from before; the times agree exactly
   if it was not multiplexed after exec. Without enable_on_exec nobody ever arms it.
   */
  lemma ExactCount(c: Config, acts: seq<Action>, j: nat)
    requires IsRun(c, acts) && j < c.counters && Run(c, acts).value.counters[j].Open?
    ensures var s := Run(c, acts).value;
            var r := s.counters[j].reading;
            && (c.enableOnExec ==> (r.running == r.enabled <==> NotMultiplexed(acts, j)))
            && (c.enableOnExec && r.running == r.enabled ==> Reported(s, j) == TrueWork(acts, j))
            && (!c.enableOnExec ==> Reported(s, j) == 0)
  {
    hide Step, Run, NotMultiplexed, Executed;
    RunReads(c, acts, j);
    SeesEverything(c, acts, j);
    if !Executed(acts) {
      NothingBeforeExec(acts, j);
    }
    if ImageTime(acts) == 0 {
      NoTimeNoWork(c, acts, j);
    }
  }

  /** A counter that never had a hardware slot while the image ran reports 0. */
  lemma UnscheduledReadsZero(c: Config, acts: seq<Action>, j: nat)
    requires IsRun(c, acts) && j < c.counters && Run(c, acts).value.counters[j].Open? && SeenTime(acts, j) == 0
    ensures Reported(Run(c, acts).value, j) == 0
  {
    hide Step, Run, SeenTime, SeenWork, ImageTime;
    RunReads(c, acts, j);
  }

  /** If execve fails, every counter reports 0, multiplexed or not. */
  lemma FailedExecReadsZero(c: Config, acts: seq<Action>, j: nat)
    requires IsRun(c, acts) && j < c.counters && Run(c, acts).value.counters[j].Open?
    requires ExecFailed(acts)
    ensures Reported(Run(c, acts).value, j) == 0
  {
    RunReads(c, acts, j);
    ExecOnce(c, acts);
  }

  /** The run contains a failed execve. */
  predicate ExecFailed(acts: seq<Action>) {
    acts != [] && (ExecFailed(acts[..|acts| - 1]) || acts[|acts| - 1].ExecErr?)
  }

  lemma {:induction false} ExecOnce(c: Config, acts: seq<Action>)
    requires IsRun(c, acts)
    ensures !(Executed(acts) && ExecFailed(acts))
    ensures ExecFailed(acts) ==> Run(c, acts).value.child == ExitFailed || Run(c, acts).value.child == Exited
    decreases |acts|
  {
    hide Step, Inv;
    if acts != [] {
      var before := acts[..|acts| - 1];
      ExecOnce(c, before);
      RunKeepsInv(c, before);
      ExecutedMeansImage(c, before);
      StepChild(c, Run(c, before).value, acts[|acts| - 1]);
    }
  }

  /** The new image causes events of kind j at a constant rate of p / q per nanosecond. */
  predicate ConstantRate(acts: seq<Action>, j: nat, p: nat, q: nat) {
    acts != [] ==>
      var before, a := acts[..|acts| - 1], acts[|acts| - 1];
      ConstantRate(before, j, p, q) && (a.Work? && Executed(before) ==> j < |a.events| && q * a.events[j] == p * a.ns)
  }

  /** A multiplexed counter under a constant event rate, whole or fractional, still reports the true total. */
  lemma ConstantRateCount(c: Config, acts: seq<Action>, j: nat, p: nat, q: nat)
    requires IsRun(c, acts) && j < c.counters && Run(c, acts).value.counters[j].Open?
    requires c.enableOnExec && SeenTime(acts, j) > 0 && q > 0 && ConstantRate(acts, j, p, q)
    ensures Reported(Run(c, acts).value, j) == TrueWork(acts, j)
  {
    hide Step, Run, ConstantRate;
    RunReads(c, acts, j);
    if !Executed(acts) {
      NothingBeforeExec(acts, j);
    } else {
      RateTotals(acts, j, p, q);
      ProportionalCounts(p, q, SeenWork(acts, j), SeenTime(acts, j), TrueWork(acts, j), ImageTime(acts));
      ScaledExactAtConstantRate(Run(c, acts).value.counters[j].reading, TrueWork(acts, j));
    }
  }

  /** Two totals at the same rate stand to each other as their times. */
  lemma ProportionalCounts(p: nat, q: nat, seen: nat, seenTime: nat, total: nat, time: nat)
    requires q > 0 && q * seen == p * seenTime && q * total == p * time
    ensures seen * time == total * seenTime
  {
    assert q * (seen * time) == (q * seen) * time;
    assert q * (total * seenTime) == (q * total) * seenTime;
    assert (p * seenTime) * time == (p * time) * seenTime;
    CancelFactor(q, seen * time, total * seenTime);
  }

  lemma CancelFactor(q: int, a: int, b: int)
    requires q > 0 && q * a == q * b
    ensures a == b
  {
  }

  lemma Distribute(a: nat, b: nat, d: nat)
    ensures a * (b + d) == a * b + a * d
  {
  }

  lemma {:induction false} RateTotals(acts: seq<Action>, j: nat, p: nat, q: nat)
    requires ConstantRate(acts, j, p, q)
    ensures q * TrueWork(acts, j) == p * ImageTime(acts)
    ensures q * SeenWork(acts, j) == p * SeenTime(acts, j)
    decreases |acts|
  {
    hide Executed;
    if acts != [] {
      var before, a := acts[..|acts| - 1], acts[|acts| - 1];
      RateTotals(before, j, p, q);
      if a.Work? && Executed(before) {
        Distribute(p, ImageTime(before), a.ns);
        Distribute(p, SeenTime(before, j), a.ns);
        Distribute(q, TrueWork(before, j), a.events[j]);
        Distribute(q, SeenWork(before, j), a.events[j]);
      }
    }
  }

  // ----- the schedule does not matter

  predicate OfChild(a: Action) {
    || a.ChildCloseWrite? || a.ChildRead? || a.ChildCloseRead? || a.ExecOk? || a.ExecErr?
    || a.Exit? || a.Killed? || a.Work?
  }

  /** What the child did, with the parent's steps erased. */
  function ChildView(acts: seq<Action>): seq<Action> {
    if acts == [] then []
    else ChildView(acts[..|acts| - 1]) + (if OfChild(acts[|acts| - 1]) then [acts[|acts| - 1]] else [])
  }

  lemma {:induction false} ViewKeepsCounts(acts: seq<Action>, j: nat)
    ensures Executed(ChildView(acts)) == Executed(acts)
    ensures SeenWork(ChildView(acts), j) == SeenWork(acts, j)
    ensures SeenTime(ChildView(acts), j) == SeenTime(acts, j)
    ensures ImageTime(ChildView(acts)) == ImageTime(acts)
    decreases |acts|
  {
    if acts != [] {
      var before, a := acts[..|acts| - 1], acts[|acts| - 1];
      ViewKeepsCounts(before, j);
      if OfChild(a) {
        var v := ChildView(before) + [a];
        assert v[..|v| - 1] == ChildView(before);
      } else {
        assert ChildView(acts) == ChildView(before);
      }
    }
  }

  /**
   Two runs in which the child does the same leave the same value and the same two times in every counter,
   multiplexed or not, and so the same report, however the parent is scheduled.
   */
  lemma ScheduleIndependent(c: Config, acts: seq<Action>, other: seq<Action>, j: nat)
    requires IsRun(c, acts) && IsRun(c, other) && ChildView(acts) == ChildView(other)
    requires j < c.counters && Run(c, acts).value.counters[j].Open? && Run(c, other).value.counters[j].Open?
    ensures Run(c, acts).value.counters[j].reading == Run(c, other).value.counters[j].reading
    ensures Reported(Run(c, acts).value, j) == Reported(Run(c, other).value, j)
  {
    hide Step, Run, Executed, SeenWork, SeenTime, ImageTime;
    RunReads(c, acts, j);
    RunReads(c, other, j);
    ViewKeepsCounts(acts, j);
    ViewKeepsCounts(other, j);
  }

  // ----- no deadlock, no broken pipe, no descriptor left

  predicate Final(s: State) {
    s.parent == Threw || s.parent == Done
  }

  /** A step other than work that is enabled in s. */
  function NextMove(s: State): Action {
    match s.parent
    case MakePipe => PipeOk
    case Fork => ForkOk
    case FailCloseRead | FailCloseWrite => FailPathClose
    case CloseRead => ParentCloseRead
    case Attach(_) => OpenCounter(0)
    case WriteGo => WriteByte
    case CloseWrite => ParentCloseWrite
    case Stop => StopCounters
    case _ =>
      match s.child
      case CloseWriteEnd => ChildCloseWrite
      case ReadGo => ChildRead
      case CloseReadEnd => ChildCloseRead
      case Exec => ExecErr
      case Image | ExitFailed => Exit
      case _ => Reap
  }

  /** No reachable state is stuck before both sides are finished. */
  lemma NoDeadlock(c: Config, acts: seq<Action>)
    requires IsRun(c, acts) && !Final(Run(c, acts).value)
    ensures var a := NextMove(Run(c, acts).value); Moves(a) && IsRun(c, acts + [a])
  {
    hide Step, Inv;
    var a := NextMove(Run(c, acts).value);
    RunKeepsInv(c, acts);
    MoveIsEnabled(c, Run(c, acts).value);
    assert (acts + [a])[..|acts + [a]| - 1] == acts;
  }

  lemma MoveIsEnabled(c: Config, s: State)
    requires Inv(c, s) && !Final(s)
    ensures Moves(NextMove(s)) && Step(c, s, NextMove(s)).Some?
  {
  }

  /** What the child can do, told from its own position alone. */
  predicate ChildCan(c: Config, p: ChildPc, a: Action) {
    match a
    case ChildCloseWrite => p == CloseWriteEnd
    case ChildCloseRead => p == CloseReadEnd
    case ExecOk => p == Exec
    case ExecErr => p == Exec
    case Exit => p == Image || p == ExitFailed
    case Work(_, _, _) => Alive(p) && WorkFits(c, a)
    case _ => false
  }

  /** Wherever the parent stands, the child can go on, and execve can succeed and can fail. */
  lemma ChildIsFree(c: Config, acts: seq<Action>, a: Action)
    requires IsRun(c, acts) && ChildCan(c, Run(c, acts).value.child, a)
    ensures IsRun(c, acts + [a])
  {
    assert (acts + [a])[..|acts + [a]| - 1] == acts;
  }

  /** What the parent can do, told from its own position alone; a caller that waits may also kill. */
  predicate ParentCan(c: Config, s: State, a: Action) {
    match a
    case PipeOk => s.parent == MakePipe
    case PipeErr => s.parent == MakePipe
    case ForkOk => s.parent == Fork
    case ForkErr => s.parent == Fork
    case FailPathClose => s.parent == FailCloseRead || s.parent == FailCloseWrite
    case ParentCloseRead => s.parent == CloseRead
    case OpenCounter(_) => s.parent.Attach?
    case WriteByte => s.parent == WriteGo
    case ParentCloseWrite => s.parent == CloseWrite
    case StopCounters => s.parent == Stop
    case Killed => s.parent == Wait && Alive(s.child)
    case Reap => s.parent == Wait && s.child == Exited
    case _ => false
  }

  /** Wherever the child stands, the parent can go on; pipe2, fork and every open can succeed and can fail. */
  lemma ParentIsFree(c: Config, acts: seq<Action>, a: Action)
    requires IsRun(c, acts) && ParentCan(c, Run(c, acts).value, a)
    ensures IsRun(c, acts + [a])
  {
    hide Run;
    RunKeepsInv(c, acts);
    StepFromParent(c, Run(c, acts).value, a);
    ExtendRun(c, acts, a);
  }

  lemma StepFromParent(c: Config, s: State, a: Action)
    requires Inv(c, s) && ParentCan(c, s, a)
    ensures Step(c, s, a).Some?
  {
    hide TickAll, SetEnabled, ChildEnds;
  }

  lemma ExtendRun(c: Config, acts: seq<Action>, a: Action)
    requires IsRun(c, acts)
    ensures Run(c, acts + [a]) == Step(c, Run(c, acts).value, a)
  {
    hide Step;
    assert (acts + [a])[..|acts + [a]| - 1] == acts;
  }

  // ----- there are runs in which everything succeeds

  /** The work done while the new image runs, in order. */
  function ImageWork(acts: seq<Action>): seq<Action> {
    if acts == [] then []
    else
      var before, a := acts[..|acts| - 1], acts[|acts| - 1];
      ImageWork(before) + (if a.Work? && Executed(before) then [a] else [])
  }

  predicate AllWork(c: Config, works: seq<Action>) {
    forall i :: 0 <= i < |works| ==> works[i].Work? && WorkFits(c, works[i])
  }

  /** The events of kind j in some work. */
  function SumEvents(works: seq<Action>, j: nat): nat {
    if works == [] then 0
    else
      var a := works[|works| - 1];
      SumEvents(works[..|works| - 1], j) + (if a.Work? && j < |a.events| then a.events[j] else 0)
  }

  lemma {:induction false} TrueWorkIsSum(acts: seq<Action>, j: nat)
    ensures TrueWork(acts, j) == SumEvents(ImageWork(acts), j)
    decreases |acts|
  {
    hide Executed;
    if acts != [] {
      var before, a := acts[..|acts| - 1], acts[|acts| - 1];
      TrueWorkIsSum(before, j);
      if a.Work? && Executed(before) {
        var w := ImageWork(before) + [a];
        assert w[..|w| - 1] == ImageWork(before);
      } else {
        assert ImageWork(acts) == ImageWork(before);
      }
    }
  }

  /** One more action, and what it does to the child's history. */
  lemma Do(c: Config, acts: seq<Action>, s: State, a: Action) returns (more: seq<Action>)
    requires Run(c, acts) == Some(s) && Step(c, s, a).Some?
    ensures more == acts + [a] && Run(c, more) == Step(c, s, a)
    ensures Executed(more) == (Executed(acts) || a.ExecOk?)
    ensures ImageWork(more) == if a.Work? && Executed(acts) then ImageWork(acts) + [a] else ImageWork(acts)
  {
    hide Step;
    more := acts + [a];
    ExtendRun(c, acts, a);
    assert more[..|more| - 1] == acts;
  }

  lemma NothingDone(c: Config)
    ensures Run(c, []) == Some(Init(c)) && !Executed([]) && ImageWork([]) == []
  {
  }

  predicate FirstOpen(cs: seq<Counter>, k: nat) {
    forall j :: 0 <= j < |cs| && j < k ==> cs[j].Open?
  }

  lemma {:induction false} OpenFirst(c: Config, k: nat) returns (acts: seq<Action>, s: State)
    requires k <= c.counters
    ensures Run(c, acts) == Some(s) && !Executed(acts) && ImageWork(acts) == []
    ensures s == State(AfterOpening(c, k), CloseWriteEnd, false, true, true, true, 0, s.counters)
    ensures |s.counters| == c.counters && FirstOpen(s.counters, k)
    decreases k
  {
    hide Run, Executed, ImageWork;
    if k == 0 {
      NothingDone(c);
      acts, s := Then(c, [], Init(c), PipeOk);
      acts, s := Then(c, acts, s, ForkOk);
      acts, s := Then(c, acts, s, ParentCloseRead);
    } else {
      acts, s := OpenFirst(c, k - 1);
      acts, s := Then(c, acts, s, OpenCounter(0));
    }
  }

  /** All counters open, and the child passes execve while the parent waits. */
  lemma ReachImage(c: Config) returns (acts: seq<Action>, s: State)
    ensures Run(c, acts) == Some(s) && Executed(acts) && ImageWork(acts) == []
    ensures s.parent == Wait && s.child == Image && |s.counters| == c.counters && FirstOpen(s.counters, c.counters)
  {
    hide Run, Executed, ImageWork;
    acts, s := OpenFirst(c, c.counters);
    acts, s := Then(c, acts, s, WriteByte);
    acts, s := Then(c, acts, s, ParentCloseWrite);
    acts, s := Then(c, acts, s, ChildCloseWrite);
    acts, s := Then(c, acts, s, ChildRead);
    acts, s := Then(c, acts, s, ChildCloseRead);
    acts, s := Then(c, acts, s, ExecOk);
  }

  lemma Then(c: Config, acts: seq<Action>, s: State, a: Action) returns (more: seq<Action>, t: State)
    requires Run(c, acts) == Some(s) && |s.counters| == c.counters && Step(c, s, a).Some?
    ensures more == acts + [a] && Run(c, more) == Some(t) == Step(c, s, a)
    ensures Executed(more) == (Executed(acts) || a.ExecOk?)
    ensures ImageWork(more) == if a.Work? && Executed(acts) then ImageWork(acts) + [a] else ImageWork(acts)
  {
    hide Step, Run, Executed, ImageWork;
    more := Do(c, acts, s, a);
    t := Run(c, more).value;
  }

  lemma {:induction false} DoWorks(c: Config, works: seq<Action>) returns (acts: seq<Action>, s: State)
    requires AllWork(c, works)
    ensures Run(c, acts) == Some(s) && Executed(acts) && ImageWork(acts) == works
    ensures s.parent == Wait && s.child == Image && |s.counters| == c.counters && FirstOpen(s.counters, c.counters)
    decreases |works|
  {
    hide Run, Executed, ImageWork;
    if works == [] {
      acts, s := ReachImage(c);
    } else {
      var before, a := works[..|works| - 1], works[|works| - 1];
      acts, s := DoWorks(c, before);
      acts, s := Then(c, acts, s, a);
      assert works == before + [a];
    }
  }

  /**
   For every configuration and every list of work there is a complete run in which all counters open, the
   program is executed, and does exactly this work.
   */
  lemma EveryWorkHappens(c: Config, works: seq<Action>) returns (acts: seq<Action>)
    requires AllWork(c, works)
    ensures IsRun(c, acts) && Run(c, acts).value.parent == Done && Executed(acts) && ImageWork(acts) == works
    ensures forall j :: 0 <= j < c.counters ==> Run(c, acts).value.counters[j].Open?
    ensures forall j: nat :: TrueWork(acts, j) == SumEvents(works, j)
  {
    hide Run, Executed, ImageWork, TrueWork, SumEvents;
    var s;
    acts, s := DoWorks(c, works);
    acts, s := Then(c, acts, s, Exit);
    acts, s := Then(c, acts, s, Reap);
    acts, s := Then(c, acts, s, StopCounters);
    forall j: nat
      ensures TrueWork(acts, j) == SumEvents(works, j)
    {
      TrueWorkIsSum(acts, j);
    }
  }

  /** So with enable_on_exec every sum of events is reported by some run, if the counter is always scheduled. */
  lemma EverySumIsReported(c: Config, works: seq<Action>, j: nat) returns (acts: seq<Action>)
    requires AllWork(c, works) && c.enableOnExec && j < c.counters
    requires forall i :: 0 <= i < |works| ==> works[i].scheduled[j]
    ensures IsRun(c, acts) && Run(c, acts).value.parent == Done && Run(c, acts).value.counters[j].Open?
    ensures Reported(Run(c, acts).value, j) == SumEvents(works, j)
  {
    hide Run, Executed, ImageWork, TrueWork, SumEvents, NotMultiplexed;
    acts := EveryWorkHappens(c, works);
    ScheduledWork(acts, j);
    ExactCount(c, acts, j);
  }

  lemma {:induction false} ScheduledWork(acts: seq<Action>, j: nat)
    requires forall i :: 0 <= i < |ImageWork(acts)| ==>
               ImageWork(acts)[i].Work? && j < |ImageWork(acts)[i].scheduled| && ImageWork(acts)[i].scheduled[j]
    ensures NotMultiplexed(acts, j)
    decreases |acts|
  {
    hide Executed;
    if acts != [] {
      var before, a := acts[..|acts| - 1], acts[|acts| - 1];
      var w := ImageWork(before);
      assert forall i :: 0 <= i < |w| ==> w[i] == ImageWork(acts)[i];
      ScheduledWork(before, j);
      if a.Work? && Executed(before) {
        assert ImageWork(acts)[|w|] == a;
      }
    }
  }

  function ParentRank(c: Config, p: ParentPc): nat {
    match p
    case MakePipe => c.counters + 9
    case Fork => c.counters + 8
    case FailCloseRead => 2
    case FailCloseWrite => 1
    case CloseRead => c.counters + 6
    case Attach(k) => if k <= c.counters then 5 + (c.counters - k) else 5
    case WriteGo => 5
    case CloseWrite => 3
    case Wait => 2
    case Stop => 1
    case BrokenPipe | Threw | Done => 0
  }

  function ChildRank(p: ChildPc): nat {
    match p
    case Unborn => 6
    case CloseWriteEnd => 5
    case ReadGo => 4
    case CloseReadEnd => 3
    case Exec => 2
    case Image | ExitFailed => 1
    case Exited => 0
  }

  function Rank(c: Config, s: State): nat {
    ParentRank(c, s.parent) + ChildRank(s.child)
  }

  function MovesIn(acts: seq<Action>): nat {
    if acts == [] then 0
    else MovesIn(acts[..|acts| - 1]) + (if Moves(acts[|acts| - 1]) then 1 else 0)
  }

  lemma StepLowersRank(c: Config, s: State, a: Action)
    requires Inv(c, s) && Step(c, s, a).Some?
    ensures Rank(c, Step(c, s, a).value) + (if Moves(a) then 1 else 0) <= Rank(c, s)
  {
  }

  /** Together with NoDeadlock: a run has at most counters + 15 steps besides the child's own work. */
  lemma {:induction false} HandshakeIsBounded(c: Config, acts: seq<Action>)
    requires IsRun(c, acts)
    ensures MovesIn(acts) + Rank(c, Run(c, acts).value) <= c.counters + 15
    decreases |acts|
  {
    hide Step, Inv;
    if acts != [] {
      var before := acts[..|acts| - 1];
      HandshakeIsBounded(c, before);
      RunKeepsInv(c, before);
      StepLowersRank(c, Run(c, before).value, acts[|acts| - 1]);
    }
  }

  /** The go byte never meets a pipe without readers: the child's read end is still open. */
  lemma WriteFindsReader(c: Config, acts: seq<Action>)
    requires IsRun(c, acts)
    ensures Run(c, acts).value.parent == WriteGo ==> Run(c, acts).value.childRead
    ensures Run(c, acts).value.parent != BrokenPipe
  {
    RunKeepsInv(c, acts);
  }

  /** The child never takes end-of-file for the go byte. */
  lemma ChildReadsTheByte(c: Config, acts: seq<Action>)
    requires IsRun(c, acts + [ChildRead])
    ensures IsRun(c, acts) && Run(c, acts).value.buffered == 1
  {
    hide Step;
    var next := acts + [ChildRead];
    assert next[..|next| - 1] == acts;
    RunKeepsInv(c, acts);
    ReadNeedsByte(c, Run(c, acts).value);
  }

  lemma ReadNeedsByte(c: Config, s: State)
    requires Inv(c, s) && Step(c, s, ChildRead).Some?
    ensures s.buffered == 1
  {
  }

  /** When the parent has returned or thrown and the child is gone, nobody holds a pipe end. */
  lemma NothingLeaks(c: Config, acts: seq<Action>)
    requires IsRun(c, acts) && Final(Run(c, acts).value)
    ensures var s := Run(c, acts).value;
            && !s.parentRead && !s.parentWrite && !s.childRead && !s.childWrite
            && (s.parent == Done ==> s.child == Exited)
            && (s.parent == Threw ==> s.child == Unborn)
  {
    RunKeepsInv(c, acts);
  }
}
