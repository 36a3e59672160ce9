/** Conservation in the memory pool: what every critical section adds to a
    lease was granted to a waiter of that lease, and what it takes away is
    exactly what its caller gave back. */
module CapacityLedger {
  import opened Capacity
  import opened CapacityOperations

  /** The bytes ever granted to the waiters of lease `l`. */
  ghost function GrantedTo(ws: seq<Waiter>, l: nat): nat {
    if ws == [] then 0
    else GrantedTo(ws[..|ws| - 1], l) + GrantOf(ws[|ws| - 1], l)
  }

  ghost function GrantOf(w: Waiter, l: nat): nat {
    if w.granted && w.lease == l then w.bytes else 0
  }

  /** From `s` to `t`, lease `l` gained what its waiters were granted and lost
      `returned` bytes. */
  ghost predicate Conserves(s: PoolState, t: PoolState, l: nat, returned: nat) {
    && l < |s.leases| == |t.leases|
    && t.leases[l].bytes + returned + GrantedTo(s.waiters, l) == s.leases[l].bytes + GrantedTo(t.waiters, l)
  }

  lemma {:induction false} GrantedToUpdate(ws: seq<Waiter>, i: nat, w: Waiter, l: nat)
    requires i < |ws|
    ensures GrantedTo(ws[i := w], l) + GrantOf(ws[i], l) == GrantedTo(ws, l) + GrantOf(w, l)
  {
    var n := |ws| - 1;
    if i == n {
      assert ws[i := w][..n] == ws[..n];
    } else {
      assert ws[i := w][..n] == ws[..n][i := w];
      GrantedToUpdate(ws[..n], i, w, l);
    }
  }

  lemma {:induction false} GrantedToSame(ws: seq<Waiter>, vs: seq<Waiter>, l: nat)
    requires |ws| == |vs| && forall i :: 0 <= i < |ws| ==> GrantOf(ws[i], l) == GrantOf(vs[i], l)
    ensures GrantedTo(ws, l) == GrantedTo(vs, l)
  {
    if ws != [] {
      GrantedToSame(ws[..|ws| - 1], vs[..|ws| - 1], l);
    }
  }

  lemma GrantConserves(s: PoolState, w: nat, l: nat)
    requires Valid(s) && QueuedWaiter(s, w) && l < |s.leases|
    ensures s.leases[s.waiters[w].lease].owner < |s.owners|
    ensures Conserves(s, Grant(s, w), l, 0)
  {
    GrantedToUpdate(s.waiters, w, s.waiters[w].(granted := true, closes := s.waiters[w].closes + 1), l);
  }

  lemma Chained(a: PoolState, b: PoolState, c: PoolState, l: nat, first: nat, second: nat)
    requires Conserves(a, b, l, first) && Conserves(b, c, l, second)
    ensures Conserves(a, c, l, first + second)
  {
  }

  lemma {:induction false} PassConserves(s: PoolState, phase: Phase, index: nat, l: nat)
    requires Valid(s) && index <= |s.queue| && l < |s.leases|
    ensures Conserves(s, Pass(s, phase, index).0, l, 0)
    decreases |s.queue| - index
  {
    if index < |s.queue| {
      hide Conserves, Valid, Pass, Grant, Fits;
      PassNext(s, phase, index);
      var w := s.queue[index];
      if s.waiters[w].phase == phase && Fits(s, w) {
        GrantConserves(s, w, l);
        GrantLeases(s, w);
        PassConserves(Grant(s, w), phase, index, l);
        Chained(s, Grant(s, w), Pass(s, phase, index).0, l, 0, 0);
      } else {
        PassConserves(s, phase, index + 1, l);
      }
    }
  }

  lemma GrantLeases(s: PoolState, w: nat)
    requires Valid(s) && QueuedWaiter(s, w)
    ensures s.leases[s.waiters[w].lease].owner < |s.owners|
    ensures |Grant(s, w).leases| == |s.leases|
  {
  }

  /** A dispatch gives every lease exactly what it grants to its waiters. */
  lemma DispatchConserves(s: PoolState, l: nat)
    requires Valid(s) && l < |s.leases|
    ensures Conserves(s, Dispatch(s), l, 0)
  {
    hide Pass;
    PassConserves(s, Response, 0, l);
    PassKeeps(s, Response, 0);
    var (s1, pending) := Pass(s, Response, 0);
    if !pending {
      PassConserves(s1, Request, 0, l);
      Chained(s, s1, Pass(s1, Request, 0).0, l, 0, 0);
    }
  }

  /** The books are the leases and the waiters. */
  lemma SameBooks(s: PoolState, t: PoolState, u: PoolState, l: nat, returned: nat)
    requires Conserves(s, t, l, returned) && u.leases == t.leases && u.waiters == t.waiters
    ensures Conserves(s, u, l, returned)
  {
  }

  lemma EnqueueConserves(s: PoolState, l: nat, bytes: nat, phase: Phase, x: nat)
    requires x < |s.leases|
    ensures Conserves(s, Enqueue(s, l, bytes, phase), x, 0)
  {
    assert Enqueue(s, l, bytes, phase).waiters[..|s.waiters|] == s.waiters;
  }

  /** A Grow takes nothing from anybody. */
  lemma GrowConserves(s: PoolState, l: nat, bytes: int, phase: Phase, ended: bool, x: nat)
    requires Valid(s) && l < |s.leases| && x < |s.leases|
    ensures Conserves(s, GrowBegin(s, l, bytes, phase, ended).0, x, 0)
  {
    if !ended && Admissible(s, l, bytes, phase) && bytes > 0 {
      EnqueueValid(s, l, bytes, phase);
      EnqueueConserves(s, l, bytes, phase, x);
      var e := Enqueue(s, l, bytes, phase);
      DispatchConserves(e, x);
      Chained(s, e, Dispatch(e), x, 0, 0);
      SameBooks(s, Dispatch(e), GrowBegin(s, l, bytes, phase, ended).0, x, 0) by {
        hide Dispatch, Conserves, Accounted, Queued;
      }
    }
  }

  /** Releasing takes exactly `amount` from its own lease. */
  lemma ReleaseConserves(s: PoolState, l: nat, amount: nat, x: nat)
    requires Valid(s) && l < |s.leases| && amount <= s.leases[l].bytes && x < |s.leases|
    ensures s.leases[l].owner < |s.owners|
    ensures s.leases[l].bytes <= s.owners[s.leases[l].owner] <= s.used
    ensures s.leases[l].isOpaque ==> s.leases[l].bytes <= s.opaqueBytes
    ensures Valid(ReleaseLocked(s, l, amount))
    ensures Conserves(s, ReleaseLocked(s, l, amount), x, if x == l then amount else 0)
  {
    ReleaseQueued(s, l, amount);
  }

  /** Shrink returns what was asked for, or all that the lease holds. */
  lemma ShrinkConserves(s: PoolState, l: nat, bytes: int, x: nat)
    requires Valid(s) && l < |s.leases| && x < |s.leases|
    ensures Conserves(s, Shrink(s, l, bytes), x, if x == l && bytes > 0 then Min(bytes, s.leases[l].bytes) else 0)
  {
    if !s.leases[l].closed && bytes > 0 {
      var amount := Min(bytes, s.leases[l].bytes);
      ReleaseConserves(s, l, amount, x);
      var t := ReleaseLocked(s, l, amount);
      DispatchConserves(t, x);
      Chained(s, t, Dispatch(t), x, if x == l then amount else 0, 0);
    }
  }

  /** Closing returns all that the lease holds and nothing of any other. */
  lemma CloseConserves(s: PoolState, l: nat, x: nat)
    requires Valid(s) && l < |s.leases| && x < |s.leases|
    ensures Conserves(s, CloseLease(s, l), x, if x == l then s.leases[l].bytes else 0)
    ensures CloseLease(s, l).leases[l].closed && CloseLease(s, l).leases[l].bytes == 0
  {
    if !s.leases[l].closed {
      DropValid(s, l);
      var t := Drop(Closing(s, l), l);
      DroppedAll(s.waiters, s.queue, l);
      GrantedToSame(s.waiters, t.waiters, x);
      ReleaseAccounted(s, l, s.leases[l].bytes);
      DispatchConserves(t, x);
      Chained(s, t, Dispatch(t), x, if x == l then s.leases[l].bytes else 0, 0);
      DispatchKeeps(t);
      assert Dispatch(t).leases[l].(bytes := 0) == t.leases[l].(bytes := 0);
    }
  }

  /** What a resumed Grow gives back: the bytes of a grant that came after its
      wait ended, unless the lease already returned them. */
  function ResumeReturns(s: PoolState, w: nat, ended: bool): nat
    requires w < |s.waiters| && s.waiters[w].lease < |s.leases|
  {
    if ended && s.waiters[w].granted && !s.leases[s.waiters[w].lease].closed
    then Min(s.waiters[w].bytes, s.leases[s.waiters[w].lease].bytes) else 0
  }

  lemma ResumeConserves(s: PoolState, w: nat, ended: bool, x: nat)
    requires Valid(s) && w in s.parked && x < |s.leases|
    ensures ParkedWaiter(s, w)
    ensures Conserves(s, GrowResume(s, w, ended).0, x,
                      if x == s.waiters[w].lease then ResumeReturns(s, w, ended) else 0)
  {
    var waiter := s.waiters[w];
    assert ParkedWaiter(s, w);
    if s.leases[waiter.lease].closed {
    } else if ended && waiter.granted {
      var amount := Min(waiter.bytes, s.leases[waiter.lease].bytes);
      ReleaseConserves(s, waiter.lease, amount, x);
      var t := ReleaseLocked(s, waiter.lease, amount);
      DispatchConserves(t, x);
      Chained(s, t, Dispatch(t), x, if x == waiter.lease then amount else 0, 0);
    } else if !waiter.granted {
      WithdrawValid(s, w);
      DispatchConserves(Withdraw(s, w), x);
      Chained(s, Withdraw(s, w), Dispatch(Withdraw(s, w)), x, 0, 0);
    }
  }
}
