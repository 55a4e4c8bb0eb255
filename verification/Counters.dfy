/**
 dynamic_event and dynamic_event_group: events that own perf descriptors, with their open, reopen,
 begin, end, read, move and destroy.
 */
module Counters {
  import opened Scaling
  import Tokenizer
  import opened Events
  import opened Descriptors
  import opened PerfKernel

  datatype Row = Row(name: string, value: int, err: int)

  // ----- one event

  /** The observable state of an event. */
  datatype EventState = EventState(fd: int, errno: int, attr: Attr, name: string, valid: bool)

  /** valid says whether a descriptor is held, and an open event has no error. */
  predicate Sound(v: EventState) {
    (v.valid <==> v.fd != NONE) && (v.valid ==> v.errno == 0)
  }

  class DynamicEvent {
    var eFd: int
    var lastErrno: int
    var attr: Attr
    var prettyName: string
    var valid: bool

    ghost function View(): EventState
      reads this
    {
      EventState(eFd, lastErrno, attr, prettyName, valid)
    }

    constructor ()
      ensures View() == EventState(NONE, 0, BLANK, "", false)
    {
      eFd, lastErrno, attr, prettyName, valid := NONE, 0, BLANK, "", false;
    }

    /** Move construction takes the descriptor and leaves the source without one. */
    constructor Move(o: DynamicEvent)
      modifies o
      ensures View() == old(o.View())
      ensures o.View() == old(o.View()).(fd := NONE, valid := false)
    {
      eFd, lastErrno, attr, prettyName, valid := o.eFd, o.lastErrno, o.attr, o.prettyName, o.valid;
      new;
      o.eFd := NONE;
      o.valid := false;
    }

    method Configure(def: Tokenizer.Named<EventId>, exclKernel: bool)
      modifies this
      ensures View() == old(View()).(
                name := def.name,
                attr := Attr(def.value.kind, def.value.config, true, exclKernel, true, false, false, false))
    {
      attr := BLANK;
      attr := attr.(kind := def.value.kind, config := def.value.config, disabled := true);
      attr := attr.(exclKernel := exclKernel, exclHv := true);
      prettyName := def.name;
    }

    /** Plain open stores over whatever descriptor is held: the old one stays live with nobody to close it. */
    method Open(k: Kernel) returns (fd: int)
      requires k.Valid()
      modifies this, k
      ensures k.Valid() && fd == eFd && OpenedFrom(old(View()), View())
      ensures k.live == old(k.live) + Held(eFd) && (eFd != NONE ==> eFd !in old(k.live))
      ensures k.attempts == old(k.attempts) + [Tried(View())]
    {
      var r := k.PerfEventOpen(attr);
      eFd := PeCall(k, r);
      if eFd == NONE {
        lastErrno := k.errno;
        valid := false;
        return NONE;
      }
      lastErrno := 0;
      valid := true;
      fd := eFd;
    }

    /** reopen closes first, so the descriptor held before is released. */
    method Reopen(k: Kernel) returns (fd: int)
      requires k.Valid() && (eFd != NONE ==> eFd in k.live)
      modifies this, k
      ensures k.Valid() && fd == eFd && OpenedFrom(old(View()), View())
      ensures k.live == (old(k.live) - Held(old(eFd))) + Held(eFd)
      ensures eFd != NONE ==> eFd !in old(k.live) - Held(old(eFd))
      ensures k.attempts == old(k.attempts) + [Tried(View())]
    {
      if eFd != NONE {
        k.Close(eFd);
      }
      fd := Open(k);
    }

    method Begin(k: Kernel)
      requires k.Valid()
      modifies k`readings, k`stopped
      ensures k.Valid() && k.stopped == if valid then old(k.stopped) - {eFd} else old(k.stopped)
    {
      if !valid { return; }
      k.Ioctl(eFd, Reset);
      k.Ioctl(eFd, Enable);
    }

    method End(k: Kernel)
      requires k.Valid()
      modifies k`readings, k`stopped
      ensures k.Valid() && k.stopped == if valid then old(k.stopped) + {eFd} else old(k.stopped)
    {
      if !valid { return; }
      k.Ioctl(eFd, Disable);
    }

    /** The scaled count, or 0 for an event that is not open. */
    method Retrieve(k: Kernel) returns (v: int)
      requires k.Valid() && Sound(View()) && (eFd != NONE ==> eFd in k.live)
      ensures v == Scaled(ReadingOf(k.readings, eFd))
    {
      if !valid { return 0; }
      var r := k.readings[eFd];
      if r.running == 0 { return 0; }
      if r.running == r.enabled { return r.value; }
      var scale := r.enabled as real / r.running as real;
      v := (r.value as real * scale).Floor;
    }

    /** The destructor. */
    method Destroy(k: Kernel)
      requires k.Valid() && (eFd != NONE ==> eFd in k.live)
      modifies this, k
      ensures k.Valid() && View() == old(View()).(fd := NONE, valid := false) && k.live == old(k.live) - Held(old(eFd))
      ensures k.attempts == old(k.attempts) && k.readings == old(k.readings) && k.stopped == old(k.stopped)
    {
      if eFd != NONE {
        k.Close(eFd);
      }
      eFd := NONE;
      valid := false;
    }
  }

  // ----- a group of events

  ghost function Views(events: seq<DynamicEvent>): (vs: seq<EventState>)
    reads events
    ensures |vs| == |events|
    ensures forall i :: 0 <= i < |events| ==> vs[i] == events[i].View()
  {
    seq(|events|, i requires 0 <= i < |events| reads events => events[i].View())
  }

  function Fds(vs: seq<EventState>): (fds: seq<int>)
    ensures |fds| == |vs| && forall i :: 0 <= i < |vs| ==> fds[i] == vs[i].fd
  {
    seq(|vs|, i requires 0 <= i < |vs| => vs[i].fd)
  }

  predicate AllSound(vs: seq<EventState>) {
    forall i :: 0 <= i < |vs| ==> Sound(vs[i])
  }

  /** How many slots hold no descriptor. */
  function Failures(fds: seq<int>): nat {
    if fds == [] then 0 else Failures(fds[..|fds| - 1]) + (if fds[|fds| - 1] == NONE then 1 else 0)
  }

  function Configured(def: Tokenizer.Named<EventId>, exclKernel: bool): EventState {
    var attr := Attr(def.value.kind, def.value.config, true, exclKernel, true, false, false, false);
    EventState(NONE, 0, attr, def.name, false)
  }

  function WithAttrs(vs: seq<EventState>, f: Attr -> Attr): (r: seq<EventState>)
    ensures |r| == |vs|
  {
    seq(|vs|, i requires 0 <= i < |vs| => vs[i].(attr := f(vs[i].attr)))
  }

  /** The open attempt that leaves an event in this state. */
  function Tried(v: EventState): Attempt {
    TryOf(v.attr, v.fd, v.errno)
  }

  function Attempts(vs: seq<EventState>): (attempts: seq<Attempt>)
    ensures |attempts| == |vs|
  {
    seq(|vs|, i requires 0 <= i < |vs| => Tried(vs[i]))
  }

  /** What opening may change: the descriptor, or errno is set if there is none. */
  predicate OpenedFrom(before: EventState, after: EventState) {
    && after.attr == before.attr && after.name == before.name && Sound(after)
    && after.fd >= NONE && (if after.fd == NONE then after.errno > 0 else after.errno == 0)
  }

  lemma TriedGives(v: EventState)
    requires v.fd >= NONE && (if v.fd == NONE then v.errno > 0 else v.errno == 0)
    ensures FdOf(Tried(v)) == v.fd && ErrnoOf(Tried(v)) == v.errno
  {
  }

  /** One more slot reopened: the failures and the attempts so far. */
  lemma ReopenStep(vs: seq<EventState>, n: nat, v: EventState)
    requires n < |vs|
    ensures var ws := vs[n := v];
            && Failures(Fds(ws)[..n + 1]) == Failures(Fds(vs)[..n]) + (if v.fd == NONE then 1 else 0)
            && Attempts(ws)[..n + 1] == Attempts(vs)[..n] + [Tried(v)]
  {
    var ws := vs[n := v];
    assert Fds(ws)[..n + 1][..n] == Fds(vs)[..n];
  }

  lemma NoneYet(vs: seq<EventState>)
    ensures Failures(Fds(vs)[..0]) == 0 && Attempts(vs)[..0] == [] && Owned(Fds(vs)[..0]) == {}
  {
  }

  lemma AllOf(vs: seq<EventState>)
    ensures Fds(vs)[..|vs|] == Fds(vs) && Attempts(vs)[..|vs|] == Attempts(vs)
  {
  }

  lemma NoEvents()
    ensures NoDuplicates<DynamicEvent>([]) && AllSound([]) && Fds([]) == []
  {
  }

  class DynamicEventGroup {
    var events: seq<DynamicEvent>
    /** The live descriptors that belong to somebody else. */
    ghost var others: set<int>

    ghost predicate Valid(k: Kernel)
      reads this, events, k
    {
      && k.Valid() && NoDuplicates(events)
      && AllSound(Views(events)) && Ledger(k.live, others, Fds(Views(events)))
    }

    constructor (k: Kernel, defs: seq<Tokenizer.Named<EventId>>, exclKernel: bool)
      requires k.Valid()
      ensures Valid(k) && fresh(events) && others == k.live && |events| == |defs|
      ensures forall i :: 0 <= i < |defs| ==> Views(events)[i] == Configured(defs[i], exclKernel)
    {
      events, others := [], k.live;
      new;
      for n := 0 to |defs|
        invariant |events| == n && fresh(events) && NoDuplicates(events) && others == k.live && k.Valid()
        invariant forall i :: 0 <= i < n ==> events[i].View() == Configured(defs[i], exclKernel)
      {
        var e := new DynamicEvent();
        e.Configure(defs[n], exclKernel);
        events := events + [e];
      }
      NothingHeld(Fds(Views(events)), k.live);
    }

    /** Move construction takes the whole array; the source keeps none. */
    constructor Move(k: Kernel, o: DynamicEventGroup)
      requires o.Valid(k)
      modifies o
      ensures Valid(k) && events == old(o.events) && others == old(o.others)
      ensures o.Valid(k) && o.events == []
    {
      hide Fds, Ledger, NoDuplicates, AllSound;
      events, others := o.events, o.others;
      new;
      o.events := [];
      o.others := k.live;
      NothingHeld([], k.live);
      NoEvents();
      assert Views(o.events) == [];
    }

    method SetAttrs(f: Attr -> Attr)
      requires NoDuplicates(events)
      modifies events
      ensures Views(events) == WithAttrs(old(Views(events)), f)
    {
      for n := 0 to |events|
        invariant forall i :: 0 <= i < |events| ==>
                    events[i].View() == if i < n then WithAttrs(old(Views(events)), f)[i] else old(Views(events))[i]
      {
        events[n].attr := f(events[n].attr);
      }
    }

    method SetInherit(on: bool)
      requires NoDuplicates(events)
      modifies events
      ensures Views(events) == WithAttrs(old(Views(events)), (a: Attr) => a.(inherit := on))
    {
      SetAttrs((a: Attr) => a.(inherit := on));
    }

    method SetPinned(on: bool)
      requires NoDuplicates(events)
      modifies events
      ensures Views(events) == WithAttrs(old(Views(events)), (a: Attr) => a.(pinned := on))
    {
      SetAttrs((a: Attr) => a.(pinned := on));
    }

    method SetEnableOnExec(on: bool)
      requires NoDuplicates(events)
      modifies events
      ensures Views(events) == WithAttrs(old(Views(events)), (a: Attr) => a.(enableOnExec := on))
    {
      SetAttrs((a: Attr) => a.(enableOnExec := on));
    }

    method ReopenAt(k: Kernel, i: nat) returns (fd: int)
      requires Valid(k) && i < |events|
      modifies k, events[i]
      ensures Valid(k) && fd == events[i].eFd
      ensures Views(events) == old(Views(events))[i := events[i].View()]
      ensures OpenedFrom(old(events[i].View()), events[i].View())
      ensures k.attempts == old(k.attempts) + [Tried(events[i].View())]
    {
      ghost var vs, live := Views(events), k.live;
      HeldIsLive(live, others, Fds(vs), i);
      fd := events[i].Reopen(k);
      assert Views(events) == vs[i := events[i].View()];
      assert Fds(Views(events)) == Fds(vs)[i := fd];
      LedgerReplace(live, others, Fds(vs), i, fd);
    }

    /** Plain open of event i; a descriptor it holds stays live, owned by nobody here. */
    method OpenAt(k: Kernel, i: nat) returns (fd: int)
      requires Valid(k) && i < |events|
      modifies k, events[i], this`others
      ensures Valid(k) && fd == events[i].eFd && others == old(others) + Held(old(events[i].eFd))
      ensures Views(events) == old(Views(events))[i := events[i].View()]
      ensures OpenedFrom(old(events[i].View()), events[i].View())
      ensures k.attempts == old(k.attempts) + [Tried(events[i].View())]
    {
      ghost var vs, live := Views(events), k.live;
      fd := events[i].Open(k);
      assert Views(events) == vs[i := events[i].View()];
      assert Fds(Views(events)) == Fds(vs)[i := fd];
      LedgerOverwrite(live, others, Fds(vs), i, fd);
      others := others + Held(vs[i].fd);
    }

    /** open: minus the number of events that could not be opened. Whatever they held before is lost to the group. */
    method Open(k: Kernel) returns (r: int)
      requires Valid(k)
      modifies k, events, this`others
      ensures Valid(k) && r == 0 - Failures(Fds(Views(events)))
      ensures others == old(others) + Owned(old(Fds(Views(events))))
      ensures forall i :: 0 <= i < |events| ==> OpenedFrom(old(Views(events))[i], Views(events)[i])
      ensures k.attempts == old(k.attempts) + Attempts(Views(events))
    {
      hide Fds, Attempts, Failures, OpenedFrom, Owned, Ledger, NoDuplicates, Tried, AllSound;
      ghost var was, fds := Views(events), Fds(Views(events));
      var bad := 0;
      NoneYet(was);
      for n := 0 to |events|
        invariant Valid(k) && bad == Failures(Fds(Views(events))[..n])
        invariant others == old(others) + Owned(fds[..n])
        invariant forall i :: 0 <= i < n ==> OpenedFrom(was[i], Views(events)[i])
        invariant forall i :: n <= i < |events| ==> Views(events)[i] == was[i]
        invariant k.attempts == old(k.attempts) + Attempts(Views(events))[..n]
      {
        ghost var vs := Views(events);
        assert fds[n] == events[n].eFd;
        OwnedOneMore(fds, n);
        var fd := OpenAt(k, n);
        ReopenStep(vs, n, Views(events)[n]);
        if fd == NONE { bad := bad + 1; }
      }
      AllOf(Views(events));
      assert fds[..|events|] == fds;
      r := if bad == 0 then 0 else -bad;
    }

    /** reopen: minus the number of events that could not be opened. */
    method Reopen(k: Kernel) returns (r: int)
      requires Valid(k)
      modifies k, events
      ensures Valid(k) && r == 0 - Failures(Fds(Views(events)))
      ensures forall i :: 0 <= i < |events| ==> OpenedFrom(old(Views(events))[i], Views(events)[i])
      ensures k.attempts == old(k.attempts) + Attempts(Views(events))
    {
      hide Fds, Attempts, Failures, OpenedFrom;
      ghost var was := Views(events);
      var bad := 0;
      NoneYet(was);
      for n := 0 to |events|
        invariant Valid(k) && bad == Failures(Fds(Views(events))[..n])
        invariant forall i :: 0 <= i < n ==> OpenedFrom(was[i], Views(events)[i])
        invariant forall i :: n <= i < |events| ==> Views(events)[i] == was[i]
        invariant k.attempts == old(k.attempts) + Attempts(Views(events))[..n]
      {
        ghost var vs := Views(events);
        var fd := ReopenAt(k, n);
        ReopenStep(vs, n, Views(events)[n]);
        if fd == NONE { bad := bad + 1; }
      }
      AllOf(Views(events));
      r := if bad == 0 then 0 else -bad;
    }

    /** Afterwards no event that is open is stopped. */
    method Begin(k: Kernel)
      requires Valid(k)
      modifies k`readings, k`stopped
      ensures Valid(k)
      ensures forall i :: 0 <= i < |events| && Views(events)[i].fd != NONE ==> Views(events)[i].fd !in k.stopped
    {
      hide Fds, Ledger, NoDuplicates;
      ghost var vs := Views(events);
      for n := 0 to |events|
        invariant Valid(k)
        invariant forall i :: 0 <= i < n && vs[i].fd != NONE ==> vs[i].fd !in k.stopped
      {
        assert vs[n] == events[n].View() && Sound(vs[n]);
        events[n].Begin(k);
      }
    }

    /** Afterwards every event that is open has been stopped. */
    method End(k: Kernel)
      requires Valid(k)
      modifies k`readings, k`stopped
      ensures Valid(k)
      ensures forall i :: 0 <= i < |events| && Views(events)[i].fd != NONE ==> Views(events)[i].fd in k.stopped
    {
      hide Fds, Ledger, NoDuplicates;
      ghost var vs := Views(events);
      for n := 0 to |events|
        invariant Valid(k)
        invariant forall i :: 0 <= i < n && vs[i].fd != NONE ==> vs[i].fd in k.stopped
      {
        assert vs[n] == events[n].View() && Sound(vs[n]);
        events[n].End(k);
      }
    }

    /** for_each: one row per event, in order; an event that is not open reads 0. */
    method ForEach(k: Kernel) returns (rows: seq<Row>)
      requires Valid(k)
      ensures |rows| == |events|
      ensures forall i :: 0 <= i < |events| ==> rows[i] == RowOf(k.readings, Views(events)[i])
    {
      rows := [];
      for n := 0 to |events|
        invariant |rows| == n
        invariant forall i :: 0 <= i < n ==> rows[i] == RowOf(k.readings, Views(events)[i])
      {
        HeldIsLive(k.live, others, Fds(Views(events)), n);
        var v := events[n].Retrieve(k);
        rows := rows + [Row(events[n].prettyName, v, events[n].lastErrno)];
      }
    }

    method DestroyAt(k: Kernel, i: nat)
      requires Valid(k) && i < |events|
      modifies k, events[i]
      ensures Valid(k) && Views(events) == old(Views(events))[i := events[i].View()] && events[i].eFd == NONE
      ensures k.attempts == old(k.attempts) && k.readings == old(k.readings) && k.stopped == old(k.stopped)
    {
      ghost var vs, live := Views(events), k.live;
      HeldIsLive(live, others, Fds(vs), i);
      events[i].Destroy(k);
      assert Views(events) == vs[i := events[i].View()];
      assert Fds(Views(events)) == Fds(vs)[i := NONE];
      LedgerReplace(live, others, Fds(vs), i, NONE);
    }

    /** The destructor: afterwards only other owners' descriptors are live. */
    method Destroy(k: Kernel)
      requires Valid(k)
      modifies k, events
      ensures k.Valid() && k.live == others
      ensures k.attempts == old(k.attempts) && k.readings == old(k.readings) && k.stopped == old(k.stopped)
    {
      for n := 0 to |events|
        invariant Valid(k)
        invariant k.attempts == old(k.attempts) && k.readings == old(k.readings) && k.stopped == old(k.stopped)
        invariant forall i :: 0 <= i < n ==> Views(events)[i].fd == NONE
      {
        DestroyAt(k, n);
      }
      NothingHeld(Fds(Views(events)), k.live);
      assert Owned(Fds(Views(events))) == {};
    }
  }

  function RowOf(readings: map<int, Reading>, v: EventState): Row {
    Row(v.name, Scaled(ReadingOf(readings, v.fd)), v.errno)
  }

  // ----- whole lifetimes

  datatype Op =
    | ConfigureOne(i: nat, def: Tokenizer.Named<EventId>, exclKernel: bool)
    | Inherit(on: bool) | Pin(on: bool) | ArmOnExec(on: bool)
    | OpenAll | ReopenAll | BeginAll | EndAll | ReadAll | MoveAll

  /** What there is between two operations: the events, every open attempt so far, and the stopped descriptors. */
  datatype Snapshot = Snapshot(events: seq<EventState>, attempts: seq<Attempt>, stopped: set<int>)

  ghost function Now(k: Kernel, g: DynamicEventGroup): Snapshot
    reads k, g, g.events
  {
    Snapshot(Views(g.events), k.attempts, k.stopped)
  }

  /** Every event has been tried once, in order, with its own attributes. */
  predicate AllTried(a: Snapshot, b: Snapshot)
    requires |b.events| == |a.events|
  {
    && b.attempts == a.attempts + Attempts(b.events)
    && forall i :: 0 <= i < |a.events| ==> OpenedFrom(a.events[i], b.events[i])
  }

  /** Event by event, only the attributes change, by f. */
  ghost predicate AttrsChange(a: Snapshot, b: Snapshot, f: Attr -> Attr)
    requires |b.events| == |a.events|
  {
    && b.attempts == a.attempts && b.stopped == a.stopped
    && forall i :: 0 <= i < |a.events| ==> b.events[i] == a.events[i].(attr := f(a.events[i].attr))
  }

  function Reconfigured(v: EventState, def: Tokenizer.Named<EventId>, exclKernel: bool): EventState {
    v.(name := def.name, attr := Configured(def, exclKernel).attr)
  }

  /** The operation op leads from a to b. */
  ghost predicate Performed(op: Op, a: Snapshot, b: Snapshot) {
    |b.events| == |a.events| &&
    match op
    case ConfigureOne(i, def, exclKernel) =>
      b == if i < |a.events| then a.(events := a.events[i := Reconfigured(a.events[i], def, exclKernel)]) else a
    case Inherit(on) => AttrsChange(a, b, (t: Attr) => t.(inherit := on))
    case Pin(on) => AttrsChange(a, b, (t: Attr) => t.(pinned := on))
    case ArmOnExec(on) => AttrsChange(a, b, (t: Attr) => t.(enableOnExec := on))
    case OpenAll => AllTried(a, b)
    case ReopenAll => AllTried(a, b)
    case BeginAll =>
      && b == a.(stopped := b.stopped)
      && forall i :: 0 <= i < |a.events| && a.events[i].fd != NONE ==> a.events[i].fd !in b.stopped
    case EndAll =>
      && b == a.(stopped := b.stopped)
      && forall i :: 0 <= i < |a.events| && a.events[i].fd != NONE ==> a.events[i].fd in b.stopped
    case ReadAll => b == a
    case MoveAll => b == a
  }

  /** The descriptors an operation loses: those that events hold when plain open stores over them. */
  function LostBy(op: Op, a: Snapshot): set<int> {
    if op.OpenAll? then Owned(Fds(a.events)) else {}
  }

  /** The descriptors lost by the operations ops, of which operation n starts at log[n]. */
  function Lost(ops: seq<Op>, log: seq<Snapshot>): set<int>
    requires |ops| <= |log|
  {
    if ops == [] then {} else Lost(ops[..|ops| - 1], log) + LostBy(ops[|ops| - 1], log[|ops| - 1])
  }

  lemma {:induction false} LostExtend(ops: seq<Op>, log: seq<Snapshot>, b: Snapshot)
    requires |ops| <= |log|
    ensures Lost(ops, log + [b]) == Lost(ops, log)
    decreases |ops|
  {
    hide LostBy;
    if ops != [] {
      LostExtend(ops[..|ops| - 1], log, b);
    }
  }

  /** Operation after operation, the log tells what took place. */
  ghost predicate Follows(ops: seq<Op>, log: seq<Snapshot>) {
    |log| == |ops| + 1 && forall n :: 0 <= n < |ops| ==> Performed(ops[n], log[n], log[n + 1])
  }

  lemma OneMoreOp(ops: seq<Op>, log: seq<Snapshot>, op: Op, b: Snapshot)
    requires Follows(ops, log) && Performed(op, log[|ops|], b)
    ensures Follows(ops + [op], log + [b])
    ensures Lost(ops + [op], log + [b]) == Lost(ops, log) + LostBy(op, log[|ops|])
  {
    hide Performed, LostBy;
    LostExtend(ops, log, b);
    assert (ops + [op])[..|ops + [op]| - 1] == ops;
  }

  /**
   Any sequence of group operations between construction and destruction, whatever the kernel answers: each
   operation takes place, in order, as log tells; and afterwards exactly the descriptors are live that were
   live before and those that plain opens have lost. So each one obtained is closed once, none twice, and
   none is left if plain open is only used on events that hold nothing.
   */
  method Lifetime(k: Kernel, defs: seq<Tokenizer.Named<EventId>>, exclKernel: bool, ops: seq<Op>)
    returns (ghost log: seq<Snapshot>)
    requires k.Valid()
    modifies k
    ensures k.Valid() && Follows(ops, log)
    ensures log[0].attempts == old(k.attempts) && log[0].stopped == old(k.stopped) && |log[0].events| == |defs|
    ensures forall i :: 0 <= i < |defs| ==> log[0].events[i] == Configured(defs[i], exclKernel)
    ensures log[|ops|].attempts == k.attempts && log[|ops|].stopped == k.stopped
    ensures k.live == old(k.live) + Lost(ops, log) && old(k.live) !! Lost(ops, log)
    ensures k.obtained + old(k.released) == old(k.obtained) + k.released + multiset(Lost(ops, log))
  {
    hide Follows, Performed, Lost, LostBy, Fds, Owned, Ledger, NoDuplicates, AllSound, Configured;
    var g := new DynamicEventGroup(k, defs, exclKernel);
    log := [Now(k, g)];
    NothingPerformed(Now(k, g));
    ghost var first := log[0];
    for n := 0 to |ops|
      invariant fresh(g) && fresh(g.events) && g.Valid(k) && |log| == n + 1 && log[n] == Now(k, g) && log[0] == first
      invariant Follows(ops[..n], log)
      invariant g.others == old(k.live) + Lost(ops[..n], log) && old(k.live) !! Lost(ops[..n], log)
    {
      g := Apply(k, g, ops[n]);
      OneMoreOp(ops[..n], log, ops[n], Now(k, g));
      log := log + [Now(k, g)];
      assert ops[..n + 1] == ops[..n] + [ops[n]];
    }
    assert ops[..|ops|] == ops;
    g.Destroy(k);
    UnionCounts(old(k.live), Lost(ops, log));
  }

  lemma NothingPerformed(a: Snapshot)
    ensures Follows([], [a]) && Lost([], [a]) == {}
  {
  }

  method Apply(k: Kernel, g: DynamicEventGroup, op: Op) returns (h: DynamicEventGroup)
    requires g.Valid(k)
    modifies k, g, g.events
    ensures h.Valid(k) && h.events == old(g.events) && (h == g || fresh(h))
    ensures Performed(op, old(Now(k, g)), Now(k, h))
    ensures h.others == old(g.others) + LostBy(op, old(Now(k, g))) && old(g.others) !! LostBy(op, old(Now(k, g)))
  {
    hide Fds, Ledger, NoDuplicates, AllSound, AllTried, Owned;
    h := g;
    if op.ConfigureOne? || op.Inherit? || op.Pin? || op.ArmOnExec? {
      Adjust(k, g, op);
    } else if op.OpenAll? || op.ReopenAll? {
      Acquire(k, g, op);
    } else if op.BeginAll? {
      g.Begin(k);
    } else if op.EndAll? {
      g.End(k);
    } else if op.ReadAll? {
      var rows := g.ForEach(k);
    } else {
      h := new DynamicEventGroup.Move(k, g);
    }
  }

  /** The operations that open descriptors. */
  method Acquire(k: Kernel, g: DynamicEventGroup, op: Op)
    requires g.Valid(k) && (op.OpenAll? || op.ReopenAll?)
    modifies k, g`others, g.events
    ensures g.Valid(k) && Performed(op, old(Now(k, g)), Now(k, g))
    ensures g.others == old(g.others) + LostBy(op, old(Now(k, g))) && old(g.others) !! LostBy(op, old(Now(k, g)))
  {
    hide Fds, Ledger, NoDuplicates, AllSound, OpenedFrom, Attempts, Owned;
    var r;
    if op.OpenAll? {
      HeldByEvents(k, g);
      r := g.Open(k);
    } else {
      r := g.Reopen(k);
    }
  }

  lemma HeldByEvents(k: Kernel, g: DynamicEventGroup)
    requires g.Valid(k)
    ensures g.others !! Owned(Fds(Views(g.events)))
  {
  }

  /** The operations that only touch attributes and names. */
  method Adjust(k: Kernel, g: DynamicEventGroup, op: Op)
    requires g.Valid(k) && (op.ConfigureOne? || op.Inherit? || op.Pin? || op.ArmOnExec?)
    modifies g.events
    ensures g.Valid(k) && Performed(op, old(Now(k, g)), Now(k, g))
  {
    hide Fds, Ledger, AllSound;
    ghost var vs := Views(g.events);
    if op.ConfigureOne? {
      if op.i < |g.events| {
        g.events[op.i].Configure(op.def, op.exclKernel);
        assert Views(g.events) == vs[op.i := Reconfigured(vs[op.i], op.def, op.exclKernel)];
      } else {
        assert Views(g.events) == vs;
      }
    } else if op.Inherit? {
      g.SetInherit(op.on);
    } else if op.Pin? {
      g.SetPinned(op.on);
    } else {
      g.SetEnableOnExec(op.on);
    }
    AttrsKeepFds(vs, Views(g.events));
  }

  lemma AttrsKeepFds(before: seq<EventState>, after: seq<EventState>)
    requires |after| == |before|
    requires forall i :: 0 <= i < |after| ==> after[i] == before[i].(attr := after[i].attr, name := after[i].name)
    ensures Fds(after) == Fds(before) && (AllSound(before) ==> AllSound(after))
  {
  }

  /** What a row says about the attempt to open its counter and the final readings. */
  predicate RowTells(row: Row, name: string, t: Attempt, readings: map<int, Reading>, stopped: set<int>) {
    && row == Row(name, Scaled(ReadingOf(readings, FdOf(t))), ErrnoOf(t))
    && (FdOf(t) != NONE ==> FdOf(t) in stopped)
    && (row.err != 0 <==> FdOf(t) == NONE)
    && (row.err != 0 ==> row.value == 0)
  }

  /**
   The counter side of benchmark_bin_dynamic: every counter is tried once, disabled and armed on exec; a
   counter that opened is stopped, and its row reports its final reading, scaled; the row of one that did
   not open has value 0 and the kernel's errno; rows are in order; and no descriptor stays open.
   */
  method BenchmarkBinDynamic(
      k: Kernel, defs: seq<Tokenizer.Named<EventId>>, exclKernel: bool, inherit: bool, pinned: bool)
    returns (rows: seq<Row>)
    requires k.Valid()
    modifies k
    ensures k.Valid() && k.live == old(k.live)
    ensures |rows| == |defs| && |k.attempts| == |old(k.attempts)| + |defs| && old(k.attempts) <= k.attempts
    ensures forall i :: 0 <= i < |defs| ==>
              && k.attempts[|old(k.attempts)| + i].attr == MeasuredAttr(defs[i], exclKernel, inherit, pinned)
              && RowTells(rows[i], defs[i].name, k.attempts[|old(k.attempts)| + i], k.readings, k.stopped)
    ensures forall i :: 0 <= i < |defs| ==>
              var a := k.attempts[|old(k.attempts)| + i].attr;
              && a.kind == defs[i].value.kind && a.config == defs[i].value.config
              && a.disabled && a.enableOnExec && a.exclHv && a.exclKernel == exclKernel
              && a.inherit == inherit && a.pinned == pinned
  {
    hide Fds, AllSound, Ledger, NoDuplicates, Scaled, Tried, RowTells;
    var gr := Prepare(k, defs, exclKernel, inherit, pinned);
    ghost var vs := Views(gr.events);
    rows := Measure(k, gr);
    forall i | 0 <= i < |defs|
      ensures k.attempts[|old(k.attempts)| + i].attr == MeasuredAttr(defs[i], exclKernel, inherit, pinned)
      ensures RowTells(rows[i], defs[i].name, k.attempts[|old(k.attempts)| + i], k.readings, k.stopped)
    {
      assert vs[i].name == defs[i].name;
    }
  }

  /** From opening the counters on the child to destroying them. */
  method Measure(k: Kernel, gr: DynamicEventGroup) returns (rows: seq<Row>)
    requires gr.Valid(k)
    modifies k, gr.events
    ensures k.Valid() && k.live == gr.others
    ensures |rows| == |gr.events| && |k.attempts| == |old(k.attempts)| + |gr.events| && old(k.attempts) <= k.attempts
    ensures forall i :: 0 <= i < |gr.events| ==>
              && k.attempts[|old(k.attempts)| + i].attr == old(Views(gr.events))[i].attr
              && RowTells(rows[i], old(Views(gr.events))[i].name, k.attempts[|old(k.attempts)| + i], k.readings,
                          k.stopped)
  {
    hide Fds, Failures, AllSound, Ledger, NoDuplicates, Scaled, Tried, OpenedFrom, RowTells;
    ghost var vs := Views(gr.events);
    var bad := gr.Reopen(k);
    ghost var ws := Views(gr.events);
    gr.End(k);
    rows := gr.ForEach(k);
    gr.Destroy(k);
    forall i | 0 <= i < |gr.events|
      ensures k.attempts[|old(k.attempts)| + i].attr == vs[i].attr
      ensures RowTells(rows[i], vs[i].name, k.attempts[|old(k.attempts)| + i], k.readings, k.stopped)
    {
      assert k.attempts[|old(k.attempts)| + i] == Attempts(ws)[i];
      OpenedRowTells(vs[i], ws[i], k.readings, k.stopped);
    }
  }

  lemma OpenedRowTells(v: EventState, w: EventState, readings: map<int, Reading>, stopped: set<int>)
    requires OpenedFrom(v, w) && (w.fd != NONE ==> w.fd in stopped)
    ensures Tried(w).attr == v.attr && RowTells(RowOf(readings, w), v.name, Tried(w), readings, stopped)
  {
    TriedGives(w);
    NoReading(readings);
  }

  function MeasuredAttr(def: Tokenizer.Named<EventId>, exclKernel: bool, inherit: bool, pinned: bool): Attr {
    Attr(def.value.kind, def.value.config, true, exclKernel, true, inherit, pinned, true)
  }

  /** Construction and the three settings. */
  method Prepare(k: Kernel, defs: seq<Tokenizer.Named<EventId>>, exclKernel: bool, inherit: bool, pinned: bool)
    returns (gr: DynamicEventGroup)
    requires k.Valid()
    ensures gr.Valid(k) && fresh(gr) && fresh(gr.events) && gr.others == k.live && |gr.events| == |defs|
    ensures forall i :: 0 <= i < |defs| ==>
              Views(gr.events)[i] == Configured(defs[i], exclKernel).(
                attr := MeasuredAttr(defs[i], exclKernel, inherit, pinned))
  {
    gr := new DynamicEventGroup(k, defs, exclKernel);
    ghost var v0 := Views(gr.events);
    gr.SetInherit(inherit);
    gr.SetPinned(pinned);
    gr.SetEnableOnExec(true);
    AttrsKeepFds(v0, Views(gr.events));
  }
}
