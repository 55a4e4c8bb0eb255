/**
 kernel_clock and event_group: counters without a valid flag, in a group that applies each call to every
 member in turn and ignores failed opens.
 */
module Clocks {
  import opened Scaling
  import opened Descriptors
  import opened PerfKernel

  /** The observable state of a clock. */
  datatype ClockState = ClockState(fd: int, errno: int, attr: Attr)

  class KernelClock {
    var eFd: int
    var lastErrno: int
    var event: Attr

    ghost function View(): ClockState
      reads this
    {
      ClockState(eFd, lastErrno, event)
    }

    constructor (attr: Attr)
      ensures View() == ClockState(NONE, 0, attr)
    {
      eFd, lastErrno, event := NONE, 0, attr;
    }

    constructor Move(o: KernelClock)
      modifies o
      ensures View() == old(o.View()) && o.View() == old(o.View()).(fd := NONE)
    {
      eFd, lastErrno, event := o.eFd, o.lastErrno, o.event;
      new;
      o.eFd := NONE;
    }

    method Open(k: Kernel) returns (fd: int)
      requires k.Valid()
      modifies this, k
      ensures k.Valid() && fd == eFd && event == old(event) && Answered(View())
      ensures k.live == old(k.live) + Held(eFd) && (eFd != NONE ==> eFd !in old(k.live))
      ensures k.attempts == old(k.attempts) + [Tried(View())]
    {
      var r := k.PerfEventOpen(event);
      eFd := PeCall(k, r);
      if eFd == NONE {
        lastErrno := k.errno;
        return NONE;
      }
      lastErrno := 0;
      fd := eFd;
    }

    method Reopen(k: Kernel) returns (fd: int)
      requires k.Valid() && (eFd != NONE ==> eFd in k.live)
      modifies this, k
      ensures k.Valid() && fd == eFd && event == old(event) && Answered(View())
      ensures k.live == (old(k.live) - Held(old(eFd))) + Held(eFd)
      ensures eFd != NONE ==> eFd !in old(k.live) - Held(old(eFd))
      ensures k.attempts == old(k.attempts) + [Tried(View())]
    {
      if eFd != NONE {
        k.Close(eFd);
      }
      fd := Open(k);
    }

    /** start and stop do not test the descriptor: without one the ioctl has no effect. */
    method Start(k: Kernel)
      requires k.Valid()
      modifies k`readings, k`stopped
      ensures k.Valid() && k.stopped == old(k.stopped) - {eFd}
    {
      k.Ioctl(eFd, Reset);
      k.Ioctl(eFd, Enable);
    }

    method Stop(k: Kernel)
      requires k.Valid()
      modifies k`readings, k`stopped
      ensures k.Valid() && k.stopped == old(k.stopped) + {eFd}
    {
      k.Ioctl(eFd, Disable);
    }

    method ReadTriplet(k: Kernel) returns (r: Reading)
      requires k.Valid() && (eFd != NONE ==> eFd in k.live)
      ensures r == ReadingOf(k.readings, eFd)
    {
      if eFd == NONE { return Reading(0, 0, 0); }
      r := k.readings[eFd];
    }

    method Read(k: Kernel) returns (v: int)
      requires k.Valid() && (eFd != NONE ==> eFd in k.live)
      ensures v == Scaled(ReadingOf(k.readings, eFd))
    {
      var t := ReadTriplet(k);
      if t.running == 0 { return 0; }
      if t.running == t.enabled { return t.value; }
      var scale := t.enabled as real / t.running as real;
      v := (t.value as real * scale).Floor;
    }

    method Destroy(k: Kernel)
      requires k.Valid() && (eFd != NONE ==> eFd in k.live)
      modifies this, k
      ensures k.Valid() && View() == old(View()).(fd := NONE) && k.live == old(k.live) - Held(old(eFd))
      ensures k.attempts == old(k.attempts) && k.readings == old(k.readings) && k.stopped == old(k.stopped)
    {
      if eFd != NONE {
        k.Close(eFd);
      }
      eFd := NONE;
    }
  }

  /** The open attempt that leaves a clock in this state. */
  function Tried(v: ClockState): Attempt {
    TryOf(v.attr, v.fd, v.errno)
  }

  /** After an open: a descriptor and no error, or none and the kernel's error. */
  predicate Answered(v: ClockState) {
    v.fd >= NONE && (if v.fd == NONE then v.errno > 0 else v.errno == 0)
  }

  lemma TriedGives(v: ClockState)
    requires Answered(v)
    ensures FdOf(Tried(v)) == v.fd && ErrnoOf(Tried(v)) == v.errno
  {
  }

  // ----- a group of clocks

  ghost function ClockViews(clocks: seq<KernelClock>): (vs: seq<ClockState>)
    reads clocks
    ensures |vs| == |clocks|
    ensures forall i :: 0 <= i < |clocks| ==> vs[i] == clocks[i].View()
  {
    seq(|clocks|, i requires 0 <= i < |clocks| reads clocks => clocks[i].View())
  }

  function ClockFds(vs: seq<ClockState>): (fds: seq<int>)
    ensures |fds| == |vs| && forall i :: 0 <= i < |vs| ==> fds[i] == vs[i].fd
  {
    seq(|vs|, i requires 0 <= i < |vs| => vs[i].fd)
  }

  method MoveMembers(from: seq<KernelClock>) returns (to: seq<KernelClock>)
    requires NoDuplicates(from)
    modifies from
    ensures |to| == |from| && fresh(to) && NoDuplicates(to)
    ensures forall i :: 0 <= i < |from| ==> to[i].View() == old(from[i].View()) && from[i].eFd == NONE
  {
    to := [];
    for n := 0 to |from|
      invariant |to| == n && fresh(to) && NoDuplicates(to)
      invariant forall i :: 0 <= i < n ==> to[i].View() == old(from[i].View()) && from[i].eFd == NONE
      invariant forall i :: n <= i < |from| ==> from[i].View() == old(from[i].View())
    {
      var c := new KernelClock.Move(from[n]);
      to := to + [c];
    }
  }

  class EventGroup {
    var members: seq<KernelClock>
    ghost var others: set<int>

    ghost predicate Valid(k: Kernel)
      reads this, members, k
    {
      k.Valid() && NoDuplicates(members) && Ledger(k.live, others, ClockFds(ClockViews(members)))
    }

    constructor (k: Kernel, attrs: seq<Attr>)
      requires k.Valid()
      ensures Valid(k) && fresh(members) && others == k.live && |members| == |attrs|
      ensures forall i :: 0 <= i < |attrs| ==> ClockViews(members)[i] == ClockState(NONE, 0, attrs[i])
    {
      members, others := [], k.live;
      new;
      for n := 0 to |attrs|
        invariant |members| == n && fresh(members) && NoDuplicates(members) && others == k.live && k.Valid()
        invariant forall i :: 0 <= i < n ==> members[i].View() == ClockState(NONE, 0, attrs[i])
      {
        var c := new KernelClock(attrs[n]);
        members := members + [c];
      }
      NothingHeld(ClockFds(ClockViews(members)), k.live);
    }

    /** Move construction moves member by member; the source's members keep no descriptor. */
    constructor Move(k: Kernel, o: EventGroup)
      requires o.Valid(k)
      modifies o, o.members
      ensures Valid(k) && fresh(members) && others == old(o.others)
      ensures ClockViews(members) == old(ClockViews(o.members))
      ensures o.Valid(k) && forall i :: 0 <= i < |o.members| ==> ClockViews(o.members)[i].fd == NONE
    {
      hide Ledger, NoDuplicates, ClockFds;
      members, others := [], o.others;
      new;
      members := MoveMembers(o.members);
      assert ClockViews(members) == old(ClockViews(o.members));
      o.others := k.live;
      NothingHeld(ClockFds(ClockViews(o.members)), k.live);
    }

    method SetAttrs(f: Attr -> Attr)
      requires NoDuplicates(members)
      modifies members
      ensures forall i :: 0 <= i < |members| ==>
                ClockViews(members)[i] == old(ClockViews(members))[i].(attr := f(old(ClockViews(members))[i].attr))
    {
      for n := 0 to |members|
        invariant forall i :: n <= i < |members| ==> members[i].View() == old(ClockViews(members))[i]
        invariant forall i :: 0 <= i < n ==>
                    members[i].View() == old(ClockViews(members))[i].(attr := f(old(ClockViews(members))[i].attr))
      {
        members[n].event := f(members[n].event);
      }
    }

    method SetInherit(on: bool)
      requires NoDuplicates(members)
      modifies members
      ensures forall i :: 0 <= i < |members| ==>
                ClockViews(members)[i] == old(ClockViews(members))[i].(
                  attr := old(ClockViews(members))[i].attr.(inherit := on))
    {
      SetAttrs((a: Attr) => a.(inherit := on));
    }

    method SetPinned(on: bool)
      requires NoDuplicates(members)
      modifies members
      ensures forall i :: 0 <= i < |members| ==>
                ClockViews(members)[i] == old(ClockViews(members))[i].(
                  attr := old(ClockViews(members))[i].attr.(pinned := on))
    {
      SetAttrs((a: Attr) => a.(pinned := on));
    }

    method SetEnableOnExec(on: bool)
      requires NoDuplicates(members)
      modifies members
      ensures forall i :: 0 <= i < |members| ==>
                ClockViews(members)[i] == old(ClockViews(members))[i].(
                  attr := old(ClockViews(members))[i].attr.(enableOnExec := on))
    {
      SetAttrs((a: Attr) => a.(enableOnExec := on));
    }

    method ReopenAt(k: Kernel, i: nat)
      requires Valid(k) && i < |members|
      modifies k, members[i]
      ensures Valid(k) && ClockViews(members) == old(ClockViews(members))[i := members[i].View()]
      ensures members[i].event == old(members[i].event) && Answered(members[i].View())
      ensures k.attempts == old(k.attempts) + [Tried(members[i].View())]
    {
      ghost var vs, live := ClockViews(members), k.live;
      HeldIsLive(live, others, ClockFds(vs), i);
      var fd := members[i].Reopen(k);
      assert ClockViews(members) == vs[i := members[i].View()];
      assert ClockFds(ClockViews(members)) == ClockFds(vs)[i := fd];
      LedgerReplace(live, others, ClockFds(vs), i, fd);
    }

    /** reopen tells nobody which members failed; a failed one is left without a descriptor. */
    method Reopen(k: Kernel)
      requires Valid(k)
      modifies k, members
      ensures Valid(k) && |k.attempts| == |old(k.attempts)| + |members| && old(k.attempts) <= k.attempts
      ensures forall i :: 0 <= i < |members| ==>
                Opened(old(ClockViews(members))[i], ClockViews(members)[i], k.attempts[|old(k.attempts)| + i])
    {
      hide ClockFds, Ledger, Tried, Answered;
      ghost var was, before := ClockViews(members), k.attempts;
      for n := 0 to |members|
        invariant Valid(k) && |k.attempts| == |before| + n && before <= k.attempts
        invariant forall i :: n <= i < |members| ==> ClockViews(members)[i] == was[i]
        invariant forall i :: 0 <= i < n ==> Opened(was[i], ClockViews(members)[i], k.attempts[|before| + i])
      {
        ReopenAt(k, n);
      }
    }

    /** Plain open of member i; a descriptor it holds stays live, owned by nobody here. */
    method OpenAt(k: Kernel, i: nat)
      requires Valid(k) && i < |members|
      modifies k, members[i], this`others
      ensures Valid(k) && others == old(others) + Held(old(members[i].eFd))
      ensures ClockViews(members) == old(ClockViews(members))[i := members[i].View()]
      ensures members[i].event == old(members[i].event) && Answered(members[i].View())
      ensures k.attempts == old(k.attempts) + [Tried(members[i].View())]
    {
      ghost var vs, live := ClockViews(members), k.live;
      var fd := members[i].Open(k);
      assert ClockViews(members) == vs[i := members[i].View()];
      assert ClockFds(ClockViews(members)) == ClockFds(vs)[i := fd];
      LedgerOverwrite(live, others, ClockFds(vs), i, fd);
      others := others + Held(vs[i].fd);
    }

    /** open: whatever the members held before is lost to the group. */
    method Open(k: Kernel)
      requires Valid(k)
      modifies k, members, this`others
      ensures Valid(k) && others == old(others) + Owned(old(ClockFds(ClockViews(members))))
      ensures |k.attempts| == |old(k.attempts)| + |members| && old(k.attempts) <= k.attempts
      ensures forall i :: 0 <= i < |members| ==>
                Opened(old(ClockViews(members))[i], ClockViews(members)[i], k.attempts[|old(k.attempts)| + i])
    {
      hide ClockFds, Ledger, Tried, Answered, Owned, NoDuplicates;
      ghost var was, fds, before := ClockViews(members), ClockFds(ClockViews(members)), k.attempts;
      NothingOwned(fds);
      for n := 0 to |members|
        invariant Valid(k) && |k.attempts| == |before| + n && before <= k.attempts
        invariant others == old(others) + Owned(fds[..n])
        invariant forall i :: n <= i < |members| ==> ClockViews(members)[i] == was[i]
        invariant forall i :: 0 <= i < n ==> Opened(was[i], ClockViews(members)[i], k.attempts[|before| + i])
      {
        assert fds[n] == members[n].eFd;
        OwnedOneMore(fds, n);
        OpenAt(k, n);
      }
      assert fds[..|members|] == fds;
    }

    /** Afterwards no member is stopped. */
    method Begin(k: Kernel)
      requires Valid(k)
      modifies k`readings, k`stopped
      ensures Valid(k) && forall i :: 0 <= i < |members| ==> ClockViews(members)[i].fd !in k.stopped
    {
      hide ClockFds, Ledger, NoDuplicates;
      ghost var vs := ClockViews(members);
      for n := 0 to |members|
        invariant Valid(k)
        invariant forall i :: 0 <= i < n ==> vs[i].fd !in k.stopped
      {
        assert vs[n] == members[n].View();
        members[n].Start(k);
      }
    }

    /** Afterwards every member has been stopped. */
    method End(k: Kernel)
      requires Valid(k)
      modifies k`readings, k`stopped
      ensures Valid(k) && forall i :: 0 <= i < |members| ==> ClockViews(members)[i].fd in k.stopped
    {
      hide ClockFds, Ledger, NoDuplicates;
      ghost var vs := ClockViews(members);
      for n := 0 to |members|
        invariant Valid(k)
        invariant forall i :: 0 <= i < n ==> vs[i].fd in k.stopped
      {
        assert vs[n] == members[n].View();
        members[n].Stop(k);
      }
    }

    /** retrieve on each member, in order. */
    method RetrieveAll(k: Kernel) returns (values: seq<int>)
      requires Valid(k)
      ensures |values| == |members|
      ensures forall i :: 0 <= i < |members| ==> values[i] == Scaled(ReadingOf(k.readings, ClockViews(members)[i].fd))
    {
      values := [];
      for n := 0 to |members|
        invariant |values| == n
        invariant forall i :: 0 <= i < n ==> values[i] == Scaled(ReadingOf(k.readings, ClockViews(members)[i].fd))
      {
        HeldIsLive(k.live, others, ClockFds(ClockViews(members)), n);
        var v := members[n].Read(k);
        values := values + [v];
      }
    }

    method DestroyAt(k: Kernel, i: nat)
      requires Valid(k) && i < |members|
      modifies k, members[i]
      ensures Valid(k) && ClockViews(members) == old(ClockViews(members))[i := members[i].View()]
      ensures members[i].eFd == NONE
      ensures k.attempts == old(k.attempts) && k.readings == old(k.readings) && k.stopped == old(k.stopped)
    {
      ghost var vs, live := ClockViews(members), k.live;
      HeldIsLive(live, others, ClockFds(vs), i);
      members[i].Destroy(k);
      assert ClockViews(members) == vs[i := members[i].View()];
      assert ClockFds(ClockViews(members)) == ClockFds(vs)[i := NONE];
      LedgerReplace(live, others, ClockFds(vs), i, NONE);
    }

    method Destroy(k: Kernel)
      requires Valid(k)
      modifies k, members
      ensures k.Valid() && k.live == others
      ensures k.attempts == old(k.attempts) && k.readings == old(k.readings) && k.stopped == old(k.stopped)
    {
      for n := 0 to |members|
        invariant Valid(k)
        invariant k.attempts == old(k.attempts) && k.readings == old(k.readings) && k.stopped == old(k.stopped)
        invariant forall i :: 0 <= i < n ==> ClockViews(members)[i].fd == NONE
      {
        DestroyAt(k, n);
      }
      NothingHeld(ClockFds(ClockViews(members)), k.live);
      assert Owned(ClockFds(ClockViews(members))) == {};
    }
  }

  /** What opening a clock changes, and the attempt t it makes. */
  predicate Opened(before: ClockState, after: ClockState, t: Attempt) {
    after.attr == before.attr && t == Tried(after) && Answered(after)
  }

  // ----- whole lifetimes

  datatype Op =
    | Inherit(on: bool) | Pin(on: bool) | ArmOnExec(on: bool)
    | OpenAll | ReopenAll | BeginAll | EndAll | ReadAll | MoveAll

  /** What there is between two operations: the clocks, every open attempt so far, and the stopped descriptors. */
  datatype Snapshot = Snapshot(clocks: seq<ClockState>, attempts: seq<Attempt>, stopped: set<int>)

  ghost function Now(k: Kernel, g: EventGroup): Snapshot
    reads k, g, g.members
  {
    Snapshot(ClockViews(g.members), k.attempts, k.stopped)
  }

  /** Every clock has been tried once, in order, with its own attributes. */
  predicate AllTried(a: Snapshot, b: Snapshot)
    requires |b.clocks| == |a.clocks|
  {
    && |b.attempts| == |a.attempts| + |a.clocks| && a.attempts <= b.attempts
    && forall i :: 0 <= i < |a.clocks| ==> Opened(a.clocks[i], b.clocks[i], b.attempts[|a.attempts| + i])
  }

  /** Clock by clock, only the attributes change, by f. */
  ghost predicate AttrsChange(a: Snapshot, b: Snapshot, f: Attr -> Attr)
    requires |b.clocks| == |a.clocks|
  {
    && b.attempts == a.attempts && b.stopped == a.stopped
    && forall i :: 0 <= i < |a.clocks| ==> b.clocks[i] == a.clocks[i].(attr := f(a.clocks[i].attr))
  }

  /** The operation op leads from a to b. */
  ghost predicate Performed(op: Op, a: Snapshot, b: Snapshot) {
    |b.clocks| == |a.clocks| &&
    match op
    case Inherit(on) => AttrsChange(a, b, (t: Attr) => t.(inherit := on))
    case Pin(on) => AttrsChange(a, b, (t: Attr) => t.(pinned := on))
    case ArmOnExec(on) => AttrsChange(a, b, (t: Attr) => t.(enableOnExec := on))
    case OpenAll => AllTried(a, b)
    case ReopenAll => AllTried(a, b)
    case BeginAll =>
      b == a.(stopped := b.stopped) && forall i :: 0 <= i < |a.clocks| ==> a.clocks[i].fd !in b.stopped
    case EndAll =>
      b == a.(stopped := b.stopped) && forall i :: 0 <= i < |a.clocks| ==> a.clocks[i].fd in b.stopped
    case ReadAll => b == a
    case MoveAll => b == a
  }

  /** The descriptors an operation loses: those that clocks hold when plain open stores over them. */
  function LostBy(op: Op, a: Snapshot): set<int> {
    if op.OpenAll? then Owned(ClockFds(a.clocks)) else {}
  }

  /** The descriptors lost by the operations ops, of which operation n starts at log[n]. */
  function Lost(ops: seq<Op>, log: seq<Snapshot>): set<int>
    requires |ops| <= |log|
  {
    if ops == [] then {} else Lost(ops[..|ops| - 1], log) + LostBy(ops[|ops| - 1], log[|ops| - 1])
  }

  lemma {:induction false} LostExtend(ops: seq<Op>, log: seq<Snapshot>, b: Snapshot)
    requires |ops| <= |log|
    ensures Lost(ops, log + [b]) == Lost(ops, log)
    decreases |ops|
  {
    hide LostBy;
    if ops != [] {
      LostExtend(ops[..|ops| - 1], log, b);
    }
  }

  /** Operation after operation, the log tells what took place. */
  ghost predicate Follows(ops: seq<Op>, log: seq<Snapshot>) {
    |log| == |ops| + 1 && forall n :: 0 <= n < |ops| ==> Performed(ops[n], log[n], log[n + 1])
  }

  lemma OneMoreOp(ops: seq<Op>, log: seq<Snapshot>, op: Op, b: Snapshot)
    requires Follows(ops, log) && Performed(op, log[|ops|], b)
    ensures Follows(ops + [op], log + [b])
    ensures Lost(ops + [op], log + [b]) == Lost(ops, log) + LostBy(op, log[|ops|])
  {
    hide Performed, LostBy;
    LostExtend(ops, log, b);
    assert (ops + [op])[..|ops + [op]| - 1] == ops;
  }

  /**
   Any sequence of group operations between construction and destruction, whatever the kernel answers: each
   operation takes place, in order, as log tells; and afterwards exactly the descriptors are live that were
   live before and those that plain opens have lost. So each one obtained is closed once, none twice, and
   none is left if plain open is only used on clocks that hold nothing.
   */
  method Lifetime(k: Kernel, attrs: seq<Attr>, ops: seq<Op>) returns (ghost log: seq<Snapshot>)
    requires k.Valid()
    modifies k
    ensures k.Valid() && Follows(ops, log)
    ensures log[0].attempts == old(k.attempts) && log[0].stopped == old(k.stopped) && |log[0].clocks| == |attrs|
    ensures forall i :: 0 <= i < |attrs| ==> log[0].clocks[i] == ClockState(NONE, 0, attrs[i])
    ensures log[|ops|].attempts == k.attempts && log[|ops|].stopped == k.stopped
    ensures k.live == old(k.live) + Lost(ops, log) && old(k.live) !! Lost(ops, log)
    ensures k.obtained + old(k.released) == old(k.obtained) + k.released + multiset(Lost(ops, log))
  {
    hide Follows, Performed, Lost, LostBy, ClockFds, Owned, Ledger, NoDuplicates;
    var g := new EventGroup(k, attrs);
    log := [Now(k, g)];
    NothingPerformed(Now(k, g));
    ghost var first := log[0];
    for n := 0 to |ops|
      invariant fresh(g) && fresh(g.members) && g.Valid(k) && |log| == n + 1 && log[n] == Now(k, g) && log[0] == first
      invariant Follows(ops[..n], log)
      invariant g.others == old(k.live) + Lost(ops[..n], log) && old(k.live) !! Lost(ops[..n], log)
    {
      g := Apply(k, g, ops[n]);
      OneMoreOp(ops[..n], log, ops[n], Now(k, g));
      log := log + [Now(k, g)];
      assert ops[..n + 1] == ops[..n] + [ops[n]];
    }
    assert ops[..|ops|] == ops;
    g.Destroy(k);
    UnionCounts(old(k.live), Lost(ops, log));
  }

  lemma NothingPerformed(a: Snapshot)
    ensures Follows([], [a]) && Lost([], [a]) == {}
  {
  }

  method Apply(k: Kernel, g: EventGroup, op: Op) returns (h: EventGroup)
    requires g.Valid(k)
    modifies k, g, g.members
    ensures h.Valid(k) && ((h == g && h.members == old(g.members)) || (fresh(h) && fresh(h.members)))
    ensures Performed(op, old(Now(k, g)), Now(k, h))
    ensures h.others == old(g.others) + LostBy(op, old(Now(k, g))) && old(g.others) !! LostBy(op, old(Now(k, g)))
  {
    hide ClockFds, Ledger, NoDuplicates, AllTried, Scaled, Owned;
    h := g;
    if op.Inherit? || op.Pin? || op.ArmOnExec? {
      Adjust(k, g, op);
    } else if op.OpenAll? || op.ReopenAll? {
      Acquire(k, g, op);
    } else if op.BeginAll? {
      g.Begin(k);
    } else if op.EndAll? {
      g.End(k);
    } else if op.ReadAll? {
      var values := g.RetrieveAll(k);
    } else {
      h := new EventGroup.Move(k, g);
    }
  }

  /** The operations that open descriptors. */
  method Acquire(k: Kernel, g: EventGroup, op: Op)
    requires g.Valid(k) && (op.OpenAll? || op.ReopenAll?)
    modifies k, g`others, g.members
    ensures g.Valid(k) && Performed(op, old(Now(k, g)), Now(k, g))
    ensures g.others == old(g.others) + LostBy(op, old(Now(k, g))) && old(g.others) !! LostBy(op, old(Now(k, g)))
  {
    hide ClockFds, Ledger, NoDuplicates, Opened, Owned;
    if op.OpenAll? {
      HeldByClocks(k, g);
      g.Open(k);
    } else {
      g.Reopen(k);
    }
  }

  lemma HeldByClocks(k: Kernel, g: EventGroup)
    requires g.Valid(k)
    ensures g.others !! Owned(ClockFds(ClockViews(g.members)))
  {
  }

  /** The operations that only touch attributes. */
  method Adjust(k: Kernel, g: EventGroup, op: Op)
    requires g.Valid(k) && (op.Inherit? || op.Pin? || op.ArmOnExec?)
    modifies g.members
    ensures g.Valid(k) && Performed(op, old(Now(k, g)), Now(k, g))
  {
    hide ClockFds, Ledger;
    ghost var vs := ClockViews(g.members);
    if op.Inherit? {
      g.SetInherit(op.on);
    } else if op.Pin? {
      g.SetPinned(op.on);
    } else {
      g.SetEnableOnExec(op.on);
    }
    assert ClockFds(ClockViews(g.members)) == ClockFds(vs);
  }

  // ----- a measurement

  /** The attributes of attrs as measured: armed on exec. */
  function Armed(a: Attr, inherit: bool, pinned: bool): Attr {
    a.(inherit := inherit, pinned := pinned, enableOnExec := true)
  }

  /** Field by field: the counter of b, inherited and pinned as asked for, and armed on exec. */
  predicate ArmedFrom(a: Attr, b: Attr, inherit: bool, pinned: bool) {
    && a.kind == b.kind && a.config == b.config && a.disabled == b.disabled
    && a.exclKernel == b.exclKernel && a.exclHv == b.exclHv
    && a.inherit == inherit && a.pinned == pinned && a.enableOnExec
  }

  lemma ArmedFields(b: Attr, inherit: bool, pinned: bool)
    ensures ArmedFrom(Armed(b, inherit, pinned), b, inherit, pinned)
  {
  }

  /** What a reported value says about the attempt to open its counter and the final readings. */
  predicate ValueTells(value: int, t: Attempt, readings: map<int, Reading>, stopped: set<int>) {
    && value == Scaled(ReadingOf(readings, FdOf(t)))
    && (FdOf(t) != NONE ==> FdOf(t) in stopped)
    && (FdOf(t) == NONE ==> value == 0)
  }

  /**
   The counter side of __bench_bin_with_opts: each counter is tried once, armed on exec; one that opened is
   stopped and its final reading reported, scaled; one that could not be opened reads 0, which is all the
   caller learns; and no descriptor stays open.
   */
  method BenchBinWithOpts(k: Kernel, attrs: seq<Attr>, inherit: bool, pinned: bool) returns (values: seq<int>)
    requires k.Valid()
    modifies k
    ensures k.Valid() && k.live == old(k.live)
    ensures |values| == |attrs| && |k.attempts| == |old(k.attempts)| + |attrs| && old(k.attempts) <= k.attempts
    ensures forall i :: 0 <= i < |attrs| ==>
              && k.attempts[|old(k.attempts)| + i].attr == Armed(attrs[i], inherit, pinned)
              && ArmedFrom(k.attempts[|old(k.attempts)| + i].attr, attrs[i], inherit, pinned)
              && ValueTells(values[i], k.attempts[|old(k.attempts)| + i], k.readings, k.stopped)
  {
    hide ClockFds, Ledger, NoDuplicates, Scaled, Armed, ArmedFrom, ValueTells;
    var gr := PrepareGroup(k, attrs, inherit, pinned);
    ghost var us := ClockViews(gr.members);
    values := Measure(k, gr);
    forall i | 0 <= i < |attrs|
      ensures k.attempts[|old(k.attempts)| + i].attr == Armed(attrs[i], inherit, pinned)
      ensures ArmedFrom(k.attempts[|old(k.attempts)| + i].attr, attrs[i], inherit, pinned)
    {
      assert us[i].attr == Armed(attrs[i], inherit, pinned);
      ArmedFields(attrs[i], inherit, pinned);
    }
  }

  /** From opening the counters on the child to destroying them. */
  method Measure(k: Kernel, gr: EventGroup) returns (values: seq<int>)
    requires gr.Valid(k)
    modifies k, gr.members
    ensures k.Valid() && k.live == gr.others
    ensures |values| == |gr.members|
    ensures |k.attempts| == |old(k.attempts)| + |gr.members| && old(k.attempts) <= k.attempts
    ensures forall i :: 0 <= i < |gr.members| ==>
              && k.attempts[|old(k.attempts)| + i].attr == old(ClockViews(gr.members))[i].attr
              && ValueTells(values[i], k.attempts[|old(k.attempts)| + i], k.readings, k.stopped)
  {
    hide ClockFds, Ledger, NoDuplicates, Scaled, Opened, ValueTells;
    ghost var us, n := ClockViews(gr.members), |k.attempts|;
    gr.Reopen(k);
    OpenedAttrs(us, ClockViews(gr.members), k.attempts, n);
    values := StopAndRead(k, gr, us, n);
  }

  lemma OpenedAttrs(us: seq<ClockState>, vs: seq<ClockState>, ts: seq<Attempt>, n: nat)
    requires |us| == |vs| && |ts| == n + |us|
    requires forall i :: 0 <= i < |us| ==> Opened(us[i], vs[i], ts[n + i])
    ensures forall i :: 0 <= i < |us| ==> ts[n + i].attr == us[i].attr
  {
  }

  /** The end of a measurement, after the attempts from number n on have opened the counters. */
  method StopAndRead(k: Kernel, gr: EventGroup, ghost us: seq<ClockState>, ghost n: nat) returns (values: seq<int>)
    requires gr.Valid(k) && |us| == |gr.members| && |k.attempts| == n + |us|
    requires forall i :: 0 <= i < |us| ==> Opened(us[i], ClockViews(gr.members)[i], k.attempts[n + i])
    modifies k, gr.members
    ensures k.Valid() && k.live == gr.others && k.attempts == old(k.attempts) && |values| == |us|
    ensures forall i :: 0 <= i < |us| ==> ValueTells(values[i], k.attempts[n + i], k.readings, k.stopped)
  {
    hide ClockFds, Ledger, NoDuplicates, Scaled, Opened, ValueTells;
    ghost var vs := ClockViews(gr.members);
    gr.End(k);
    values := gr.RetrieveAll(k);
    gr.Destroy(k);
    forall i | 0 <= i < |us|
      ensures ValueTells(values[i], k.attempts[n + i], k.readings, k.stopped)
    {
      OpenedValueTells(us[i], vs[i], k.attempts[n + i], k.readings, k.stopped);
    }
  }

  lemma OpenedValueTells(u: ClockState, v: ClockState, t: Attempt, readings: map<int, Reading>, stopped: set<int>)
    requires Opened(u, v, t) && v.fd in stopped
    ensures t.attr == u.attr && ValueTells(Scaled(ReadingOf(readings, v.fd)), t, readings, stopped)
  {
    TriedGives(v);
    NoReading(readings);
  }

  method PrepareGroup(k: Kernel, attrs: seq<Attr>, inherit: bool, pinned: bool) returns (gr: EventGroup)
    requires k.Valid()
    ensures gr.Valid(k) && fresh(gr) && fresh(gr.members) && gr.others == k.live && |gr.members| == |attrs|
    ensures forall i :: 0 <= i < |attrs| ==>
              ClockViews(gr.members)[i] == ClockState(NONE, 0, Armed(attrs[i], inherit, pinned))
  {
    hide Ledger, NoDuplicates, Owned, ClockFds;
    gr := new EventGroup(k, attrs);
    ghost var vs := ClockViews(gr.members);
    gr.SetInherit(inherit);
    gr.SetPinned(pinned);
    gr.SetEnableOnExec(true);
    assert ClockFds(ClockViews(gr.members)) == ClockFds(vs);
  }
}
