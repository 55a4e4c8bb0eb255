/** The kernel's side of performance counters: descriptors, errno and readings. */
module PerfKernel {
  import opened Scaling
  import opened Descriptors

  /** The perf_event_attr bits the program sets. */
  datatype Attr = Attr(
    kind: nat, config: nat, disabled: bool, exclKernel: bool, exclHv: bool,
    inherit: bool, pinned: bool, enableOnExec: bool)

  const BLANK := Attr(0, 0, false, false, false, false, false, false)

  /** One perf_event_open call and what the kernel answered: a descriptor, or a negative errno. */
  datatype Attempt = Attempt(attr: Attr, result: int)

  function FdOf(t: Attempt): int {
    if t.result < 0 then NONE else t.result
  }

  function ErrnoOf(t: Attempt): int {
    if t.result < 0 then -t.result else 0
  }

  /** The attempt that leaves a counter with this descriptor and errno. */
  function TryOf(attr: Attr, fd: int, errno: int): Attempt {
    Attempt(attr, if fd != NONE then fd else -errno)
  }

  datatype Request = Reset | Enable | Disable

  lemma OneMore(fds: set<int>, fd: int)
    requires fd !in fds
    ensures multiset(fds + {fd}) == multiset(fds) + multiset{fd}
  {
  }

  class Kernel {
    var live: set<int>
    var errno: int
    var readings: map<int, Reading>
    /** Every descriptor ever handed out, every one ever closed, and every open attempt. */
    ghost var obtained: multiset<int>
    ghost var released: multiset<int>
    ghost var attempts: seq<Attempt>
    /** The descriptors whose last request was to stop counting; closing one does not change that. */
    ghost var stopped: set<int>

    constructor ()
      ensures Valid() && live == {} && attempts == []
    {
      live, errno, readings, obtained, released, attempts := {}, 0, map[], multiset{}, multiset{}, [];
    }

    /** Each descriptor handed out has been closed once, except the live ones. */
    ghost predicate Valid()
      reads this
    {
      && (forall fd :: fd in live ==> fd >= 0 && fd in readings)
      && obtained == released + multiset(live)
    }

    /** perf_event_open: a descriptor that is not in use, or a negative errno. */
    method PerfEventOpen(attr: Attr) returns (r: int)
      requires Valid()
      modifies this
      ensures Valid() && errno == old(errno) && attempts == old(attempts) + [Attempt(attr, r)]
      ensures if r < 0 then live == old(live) else r !in old(live) && live == old(live) + {r}
      ensures forall fd :: fd in old(live) ==> readings[fd] == old(readings)[fd]
      ensures stopped == if r < 0 then old(stopped) else old(stopped) - {r}
    {
      var fails: bool := *;
      var fd: int :| fd >= 0;
      var code: int :| code > 0;
      if fails || fd in live {
        attempts := attempts + [Attempt(attr, -code)];
        return -code;
      }
      HandOut(attr, fd);
      r := fd;
    }

    method HandOut(attr: Attr, fd: int)
      requires Valid() && fd >= 0 && fd !in live
      modifies this`live, this`readings, this`obtained, this`attempts, this`stopped
      ensures Valid() && live == old(live) + {fd} && readings == old(readings)[fd := Reading(0, 0, 0)]
      ensures attempts == old(attempts) + [Attempt(attr, fd)] && stopped == old(stopped) - {fd}
    {
      OneMore(live, fd);
      attempts := attempts + [Attempt(attr, fd)];
      live := live + {fd};
      readings := readings[fd := Reading(0, 0, 0)];
      obtained := obtained + multiset{fd};
      stopped := stopped - {fd};
    }

    /** close: only a live descriptor may be closed, so nothing is closed twice. */
    method Close(fd: int)
      requires Valid() && fd in live
      modifies this
      ensures Valid() && errno == old(errno) && attempts == old(attempts) && readings == old(readings)
      ensures live == old(live) - {fd} && released == old(released) + multiset{fd} && obtained == old(obtained)
      ensures stopped == old(stopped)
    {
      OneMore(live - {fd}, fd);
      assert live - {fd} + {fd} == live;
      live := live - {fd};
      released := released + multiset{fd};
    }

    /** Until a counter is stopped it may count on; a request on no descriptor has no effect. */
    method Ioctl(fd: int, req: Request)
      requires Valid()
      modifies this`readings, this`stopped
      ensures Valid() && forall d :: d in old(readings) && d != fd ==> d in readings && readings[d] == old(readings)[d]
      ensures stopped == if req.Disable? then old(stopped) + {fd} else old(stopped) - {fd}
    {
      if fd in readings {
        var value: nat :| 0 <= value;
        var enabled: nat :| 0 <= enabled;
        var running: nat :| 0 <= running;
        readings := readings[fd := Reading(if req.Reset? then 0 else value, enabled, running)];
      }
      stopped := if req.Disable? then stopped + {fd} else stopped - {fd};
    }
  }

  /** What a counter reads: nothing without a descriptor. */
  function ReadingOf(readings: map<int, Reading>, fd: int): Reading {
    if fd != NONE && fd in readings then readings[fd] else Reading(0, 0, 0)
  }

  lemma NoReading(readings: map<int, Reading>)
    ensures Scaled(ReadingOf(readings, NONE)) == 0
  {
  }

  /** __pe_call: a negative result becomes errno and -1. */
  method PeCall(k: Kernel, r: int) returns (fd: int)
    modifies k`errno
    ensures if r < 0 then fd == NONE && k.errno == -r else fd == r && k.errno == old(k.errno)
  {
    if r < 0 {
      k.errno := -r;
      return NONE;
    }
    fd := r;
  }
}
