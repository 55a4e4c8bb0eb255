/** A ledger of file descriptors: who owns which of the live ones. -1 stands for no descriptor. */
module Descriptors {

  const NONE: int := -1

  function Owned(fds: seq<int>): set<int> {
    set fd | fd in fds && fd != NONE
  }

  function Held(fd: int): set<int> {
    if fd == NONE then {} else {fd}
  }

  /** No descriptor is held twice. */
  predicate Distinct(fds: seq<int>) {
    forall i, j :: 0 <= i < j < |fds| && fds[i] != NONE ==> fds[i] != fds[j]
  }

  /** The live descriptors are those of others and those held in fds, each by exactly one holder. */
  predicate Ledger(live: set<int>, others: set<int>, fds: seq<int>) {
    live == others + Owned(fds) && others !! Owned(fds) && Distinct(fds)
  }

  lemma OwnedUpdate(fds: seq<int>, i: nat, fd: int)
    requires i < |fds| && Distinct(fds)
    ensures Owned(fds[i := fd]) == (Owned(fds) - Held(fds[i])) + Held(fd)
  {
    var after := fds[i := fd];
    forall x | x in Owned(fds) && x != fds[i]
      ensures x in Owned(after)
    {
      var j :| 0 <= j < |fds| && fds[j] == x;
      assert after[j] == x;
    }
    forall x | x in Owned(after)
      ensures x in (Owned(fds) - Held(fds[i])) + Held(fd)
    {
      var j :| 0 <= j < |after| && after[j] == x;
      if j != i {
        assert fds[j] == x;
      }
    }
    if fd != NONE {
      assert after[i] == fd;
    }
  }

  /** Releasing what slot i holds and storing a fresh descriptor, or none, keeps the ledger. */
  lemma LedgerReplace(live: set<int>, others: set<int>, fds: seq<int>, i: nat, fd: int)
    requires Ledger(live, others, fds) && i < |fds|
    requires fd == NONE || fd !in live - Held(fds[i])
    ensures Ledger((live - Held(fds[i])) + Held(fd), others, fds[i := fd])
  {
    OwnedUpdate(fds, i, fd);
    if fds[i] != NONE {
      assert fds[i] in Owned(fds);
    }
    assert forall j :: 0 <= j < |fds| && fds[j] != NONE ==> fds[j] in Owned(fds);
  }

  /** Storing a fresh descriptor over slot i without releasing it keeps the ledger only if the slot was empty. */
  lemma LedgerOverwriteIff(live: set<int>, others: set<int>, fds: seq<int>, i: nat, fd: int)
    requires Ledger(live, others, fds) && i < |fds|
    requires fd != NONE && fd !in live
    ensures Ledger(live + {fd}, others, fds[i := fd]) <==> fds[i] == NONE
  {
    OwnedUpdate(fds, i, fd);
    if fds[i] == NONE {
      LedgerReplace(live, others, fds, i, fd);
    } else {
      assert fds[i] in Owned(fds);
      assert fds[i] in live + {fd} && fds[i] !in others;
    }
  }

  /** If it does hold one, that descriptor stays live with no owner among the slots. */
  lemma LedgerOverwrite(live: set<int>, others: set<int>, fds: seq<int>, i: nat, fd: int)
    requires Ledger(live, others, fds) && i < |fds|
    requires fd == NONE || fd !in live
    ensures Ledger(live + Held(fd), others + Held(fds[i]), fds[i := fd])
    ensures others !! Held(fds[i])
  {
    OwnedUpdate(fds, i, fd);
    if fds[i] != NONE {
      assert fds[i] in Owned(fds);
    }
    assert forall j :: 0 <= j < |fds| && fds[j] != NONE ==> fds[j] in Owned(fds);
  }

  lemma OwnedOneMore(fds: seq<int>, n: nat)
    requires n < |fds|
    ensures Owned(fds[..n + 1]) == Owned(fds[..n]) + Held(fds[n])
  {
    assert fds[..n + 1] == fds[..n] + [fds[n]];
  }

  lemma NothingOwned(fds: seq<int>)
    ensures Owned(fds[..0]) == {}
  {
  }

  lemma UnionCounts(a: set<int>, b: set<int>)
    requires a !! b
    ensures multiset(a + b) == multiset(a) + multiset(b)
  {
  }

  lemma NothingHeld(fds: seq<int>, live: set<int>)
    requires forall i :: 0 <= i < |fds| ==> fds[i] == NONE
    ensures Ledger(live, live, fds) && Owned(fds) == {}
  {
    assert Owned(fds) == {};
  }

  lemma HeldIsLive(live: set<int>, others: set<int>, fds: seq<int>, i: nat)
    requires Ledger(live, others, fds) && i < |fds|
    ensures fds[i] != NONE ==> fds[i] in live
  {
    if fds[i] != NONE {
      assert fds[i] in Owned(fds);
    }
  }

  predicate NoDuplicates<T(==)>(s: seq<T>) {
    forall i, j :: 0 <= i < j < |s| ==> s[i] != s[j]
  }
}
