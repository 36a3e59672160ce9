/** The pool as the object that internal/capacity/pool.go implements.  Each
    method is one critical section under the pool's mutex and computes the
    corresponding function of the pool's state. */
module CapacityPool {
  import opened Options
  import opened Capacity
  import Ops = CapacityOperations

  class Pool {
    const total: nat
    const normal: nat
    const maxWaiters: nat
    var used: nat
    var opaqueBytes: nat
    var burstOwner: Option<nat>
    var owners: seq<nat>
    var leases: seq<Lease>
    var waiters: seq<Waiter>
    var queue: seq<nat>
    var parked: set<nat>

    function State(): PoolState
      reads this
    {
      PoolState(total, normal, maxWaiters, used, opaqueBytes, burstOwner, owners, leases, waiters, queue, parked)
    }

    /** `New` accepts at least 1024 bytes and a reserve of 1 to 99 percent; a
        waiter limit of zero means 1024. */
    static predicate Acceptable(bytes: int, burstPercent: int, maxWaiters: int) {
      bytes >= 1024 && 1 <= burstPercent <= 99 && maxWaiters >= 0
    }

    constructor (bytes: int, burstPercent: int, waiterLimit: int)
      requires Acceptable(bytes, burstPercent, waiterLimit)
      ensures State() == PoolState(bytes, normal, maxWaiters, 0, 0, None, [], [], [], [], {})
      ensures maxWaiters > 0
      // Both regions are usable.
      ensures 0 < normal < total == bytes
      ensures Ops.Quiescent(State())
    {
      hide Ops.Quiescent;
      var burst := bytes / 100 * burstPercent;
      BurstBounds(bytes, burstPercent);
      total := bytes;
      normal := bytes - burst;
      maxWaiters := if waiterLimit == 0 then 1024 else waiterLimit;
      used, opaqueBytes, burstOwner := 0, 0, None;
      owners, leases, waiters, queue, parked := [], [], [], [], {};
      new;
      EmptyQuiescent(State());
    }

    static lemma BurstBounds(bytes: int, burstPercent: int)
      requires bytes >= 1024 && 1 <= burstPercent <= 99
      ensures 0 < bytes / 100 * burstPercent < bytes
    {
      var q := bytes / 100;
      assert 10 <= q && 100 * q <= bytes;
      assert q * burstPercent >= q && q * burstPercent <= q * 99;
    }

    static lemma EmptyQuiescent(s: PoolState)
      requires s == PoolState(s.total, s.normal, s.maxWaiters, 0, 0, None, [], [], [], [], {}) && s.normal <= s.total
      ensures Ops.Quiescent(s)
    {
    }

    /** `remove`, as a scan for the first occurrence. */
    static method Without(q: seq<nat>, target: nat) returns (r: seq<nat>)
      ensures r == Remove(q, target)
    {
      for index := 0 to |q|
        invariant target !in q[..index]
      {
        if q[index] == target {
          assert forall i :: 0 <= i < index ==> q[i] == q[..index][i];
          RemoveAt(q, index);
          return q[..index] + q[index + 1..];
        }
      }
      return q;
    }

    /** The body of dispatch for a waiter that fits. */
    method Charge(w: nat)
      requires w < |waiters| && waiters[w].lease < |leases| && leases[waiters[w].lease].owner < |owners|
      modifies this
      ensures State() == Grant(old(State()), w)
    {
      hide Remove;
      var waiter := waiters[w];
      var lease := leases[waiter.lease];
      if used + waiter.bytes > normal {
        burstOwner := Some(lease.owner);
      }
      used := used + waiter.bytes;
      if lease.isOpaque {
        opaqueBytes := opaqueBytes + waiter.bytes;
      }
      leases := leases[waiter.lease := lease.(bytes := lease.bytes + waiter.bytes)];
      owners := owners[lease.owner := owners[lease.owner] + waiter.bytes];
      queue := Without(queue, w);
      waiters := waiters[w := waiter.(granted := true, closes := waiter.closes + 1)];
    }

    /** The inner loop of dispatch; `pending` reports a response that does not fit. */
    method DispatchPhase(phase: Phase) returns (pending: bool)
      requires Valid(State())
      modifies this
      ensures Valid(State())
      ensures State() == Pass(old(State()), phase, 0).0
      ensures pending == (phase == Response && Pass(old(State()), phase, 0).1)
    {
      ghost var base := State();
      pending := false;
      var index := 0;
      while index < |queue|
        invariant Valid(State()) && 0 <= index <= |queue|
        invariant Pass(State(), phase, index).0 == Pass(base, phase, 0).0
        invariant phase == Response ==>
          (pending || Pass(State(), phase, index).1) == Pass(base, phase, 0).1
        invariant phase == Request ==> !pending
        decreases |queue| - index
      {
        hide Pass, Valid, Grant;
        PassNext(State(), phase, index);
        var w := queue[index];
        if waiters[w].phase != phase {
          index := index + 1;
          continue;
        }
        var limit := normal;
        if phase == Response && (burstOwner == None || burstOwner == Some(leases[waiters[w].lease].owner)) {
          limit := total;
        }
        if waiters[w].bytes > limit - used {
          pending := phase == Response;
          index := index + 1;
          continue;
        }
        Charge(w);
      }
    }

    method Dispatch()
      requires Valid(State())
      modifies this
      ensures State() == Capacity.Dispatch(old(State()))
    {
      var pendingResponse := DispatchPhase(Response);
      if pendingResponse {
        return;
      }
      pendingResponse := DispatchPhase(Request);
    }

    method ReleaseLocked(l: nat, bytes: nat)
      requires l < |leases| && leases[l].owner < |owners|
      requires bytes <= leases[l].bytes <= owners[leases[l].owner] && bytes <= used
      requires leases[l].isOpaque ==> bytes <= opaqueBytes
      modifies this
      ensures State() == Ops.ReleaseLocked(old(State()), l, bytes)
    {
      var owner := leases[l].owner;
      leases := leases[l := leases[l].(bytes := leases[l].bytes - bytes)];
      owners := owners[owner := owners[owner] - bytes];
      used := used - bytes;
      if leases[l].isOpaque {
        opaqueBytes := opaqueBytes - bytes;
      }
      if used <= normal || (burstOwner == Some(owner) && owners[owner] == 0) {
        burstOwner := None;
      }
    }

    method Shrink(l: nat, bytes: int)
      requires Ops.Quiescent(State()) && l < |leases|
      modifies this
      ensures State() == Ops.Shrink(old(State()), l, bytes)
      ensures Ops.Quiescent(State())
    {
      Ops.ShrinkQuiescent(State(), l, bytes);
      if leases[l].closed || bytes <= 0 {
        return;
      }
      var amount := Ops.Min(bytes, leases[l].bytes);
      Ops.ReleaseQueued(State(), l, amount);
      ReleaseLocked(l, amount);
      Dispatch();
    }

    /** The loop of Close: every waiter of the lease leaves the queue and has
        its ready channel closed. */
    static method DropWaiters(ws: seq<Waiter>, q: seq<nat>, l: nat) returns (rest: seq<Waiter>, left: seq<nat>)
      requires Distinct(q) && forall k :: 0 <= k < |q| ==> q[k] < |ws|
      ensures rest == Ops.Dropped(ws, q, l) && left == Ops.Others(ws, q, l)
    {
      rest, left := ws, q;
      var index := 0;
      ghost var kept: seq<nat>, tail: seq<nat> := [], q;
      while index < |left|
        invariant left == kept + tail && index == |kept| && Dropping(ws, q, l, rest, kept, tail)
        decreases |tail|
      {
        hide Dropping;
        var w := left[index];
        assert w == tail[0];
        DroppingNext(ws, q, l, rest, kept, tail);
        if rest[w].lease != l {
          index := index + 1;
          kept, tail := kept + [w], tail[1..];
          continue;
        }
        left := Without(left, w);
        rest := rest[w := rest[w].(closes := rest[w].closes + 1)];
        tail := tail[1..];
      }
      assert tail == [];
    }

    /** What the loop keeps: the waiters in `kept` stay, and `tail` is left to do. */
    static ghost predicate Dropping(ws: seq<Waiter>, q: seq<nat>, l: nat, rest: seq<Waiter>, kept: seq<nat>,
                                    tail: seq<nat>)
      requires forall k :: 0 <= k < |q| ==> q[k] < |ws|
    {
      && |rest| == |ws| && Distinct(kept + tail) && (forall k :: 0 <= k < |tail| ==> tail[k] < |ws|)
      && (forall i :: 0 <= i < |ws| ==> rest[i].lease == ws[i].lease)
      && kept + Ops.Others(ws, tail, l) == Ops.Others(ws, q, l)
      && Ops.Dropped(rest, tail, l) == Ops.Dropped(ws, q, l)
    }

    static lemma DroppingNext(ws: seq<Waiter>, q: seq<nat>, l: nat, rest: seq<Waiter>, kept: seq<nat>, tail: seq<nat>)
      requires (forall k :: 0 <= k < |q| ==> q[k] < |ws|) && Dropping(ws, q, l, rest, kept, tail) && tail != []
      ensures var w := tail[0];
              && w < |rest| && kept + tail == (kept + [w]) + tail[1..] && Remove(kept + tail, w) == kept + tail[1..]
              && (rest[w].lease != l ==> Dropping(ws, q, l, rest, kept + [w], tail[1..]))
              && (rest[w].lease == l ==>
                    Dropping(ws, q, l, rest[w := rest[w].(closes := rest[w].closes + 1)], kept, tail[1..]))
    {
      var w, next := tail[0], tail[1..];
      HeadOnce(kept, tail);
      assert tail == [w] + next;
      OthersHead(ws, kept, w, next, l);
      assert Ops.Dropped(rest, tail, l) == Ops.Dropped(Ops.ReadyClosed(rest, w, l), next, l);
      hide Ops.Dropped, Ops.Others, Distinct, Remove;
    }

    static lemma HeadOnce(kept: seq<nat>, tail: seq<nat>)
      requires Distinct(kept + tail) && tail != []
      ensures tail[0] !in tail[1..] && kept + tail == (kept + [tail[0]]) + tail[1..]
      ensures Remove(kept + tail, tail[0]) == kept + tail[1..] && Distinct(kept + tail[1..])
    {
      var all := kept + tail;
      assert all[|kept|] == tail[0];
      assert forall i :: 0 <= i < |tail[1..]| ==> tail[1..][i] == all[|kept| + 1 + i];
      RemoveAt(all, |kept|);
      assert all[..|kept|] == kept && all[|kept| + 1..] == tail[1..];
      RemoveKeeps(all, tail[0], (x: nat) => true);
    }

    static lemma OthersHead(ws: seq<Waiter>, kept: seq<nat>, w: nat, tail: seq<nat>, l: nat)
      requires w < |ws| && forall k :: 0 <= k < |tail| ==> tail[k] < |ws|
      ensures kept + Ops.Others(ws, [w] + tail, l)
           == (if ws[w].lease == l then kept else kept + [w]) + Ops.Others(ws, tail, l)
    {
      assert ([w] + tail)[1..] == tail;
    }

    method MarkClosed(l: nat)
      requires Accounted(State()) && l < |leases|
      modifies this
      ensures State() == Ops.Closing(old(State()), l)
    {
      Ops.ReleaseDefined(State(), l);
      leases := leases[l := leases[l].(closed := true)];
      ReleaseLocked(l, leases[l].bytes);
    }

    method CloseLease(l: nat)
      requires Ops.Quiescent(State()) && l < |leases|
      modifies this
      ensures State() == Ops.CloseLease(old(State()), l)
      ensures Ops.Quiescent(State())
    {
      Ops.CloseQuiescent(State(), l);
      if leases[l].closed {
        return;
      }
      Ops.DropValid(State(), l);
      MarkClosed(l);
      waiters, queue := DropWaiters(waiters, queue, l);
      Dispatch();
    }

    method Enqueue(l: nat, bytes: nat, phase: Phase) returns (w: nat)
      requires Valid(State()) && l < |leases| && !leases[l].closed && bytes > 0
      modifies this
      ensures w == |old(waiters)| < |waiters|
      ensures Valid(Ops.Enqueue(old(State()), l, bytes, phase))
      ensures State() == Capacity.Dispatch(Ops.Enqueue(old(State()), l, bytes, phase))
    {
      Ops.EnqueueValid(State(), l, bytes, phase);
      DispatchKeeps(Ops.Enqueue(State(), l, bytes, phase));
      w := |waiters|;
      waiters := waiters + [Waiter(l, bytes, phase, false, 0)];
      queue := queue + [w];
      Dispatch();
    }

    /** `Grow` up to its first unlock; `ended` says that the caller's context
        has already ended. */
    method GrowBegin(l: nat, bytes: int, phase: Phase, ended: bool) returns (r: Ops.GrowResult)
      requires Ops.Quiescent(State()) && l < |leases|
      modifies this
      ensures (State(), r) == Ops.GrowBegin(old(State()), l, bytes, phase, ended)
      ensures Ops.Quiescent(State())
    {
      Ops.GrowBeginQuiescent(State(), l, bytes, phase, ended);
      if bytes < 0 || ended || leases[l].closed {
        return Ops.Rejected;
      }
      var limit: int := total;
      if phase == Request {
        limit := normal;
      }
      if bytes > limit - owners[leases[l].owner] {
        return Ops.Rejected;
      }
      if bytes == 0 {
        return Ops.Unneeded;
      }
      var w := Enqueue(l, bytes, phase);
      if waiters[w].granted {
        return Ops.Granted;
      }
      if phase == Request || |queue| > maxWaiters {
        queue := Without(queue, w);
        parked := parked - {w};
        return Ops.Busy;
      }
      parked := parked + {w};
      return Ops.Parked(w);
    }

    /** `Grow` from the end of its wait; `ended` says that the wait's context
        has ended. */
    method GrowResume(w: nat, ended: bool) returns (r: Ops.ResumeResult)
      requires Ops.Quiescent(State()) && w in parked && (ended || waiters[w].closes == 1)
      modifies this
      ensures (State(), r) == Ops.GrowResume(old(State()), w, ended)
      ensures Ops.Quiescent(State()) && r != Ops.Lost
    {
      Ops.GrowResumeQuiescent(State(), w, ended);
      assert ParkedWaiter(State(), w);
      hide Remove, Capacity.Dispatch;
      var waiter := waiters[w];
      if leases[waiter.lease].closed {
        parked := parked - {w};
        return Ops.LeaseClosed;
      }
      if ended {
        if waiter.granted {
          var amount := Ops.Min(waiter.bytes, leases[waiter.lease].bytes);
          Ops.ReleaseQueued(State(), waiter.lease, amount);
          ReleaseLocked(waiter.lease, amount);
          DispatchKeeps(State());
          Dispatch();
          parked := parked - {w};
        } else {
          Ops.WithdrawValid(State(), w);
          queue := Without(queue, w);
          parked := parked - {w};
          Dispatch();
        }
        return Ops.TimedOut;
      }
      parked := parked - {w};
      return Ops.Admitted;
    }

    method NewOwner() returns (owner: nat)
      requires Ops.Quiescent(State())
      modifies this
      ensures State() == Ops.NewOwner(old(State())) && owner == |old(owners)|
      ensures Ops.Quiescent(State())
    {
      Ops.NewOwnerQuiescent(State());
      owner := |owners|;
      owners := owners + [0];
    }

    method NewLease(owner: nat) returns (l: nat)
      requires Ops.Quiescent(State()) && owner < |owners|
      modifies this
      ensures State() == Ops.NewLease(old(State()), owner) && l == |old(leases)|
      ensures Ops.Quiescent(State())
    {
      Ops.NewLeaseQuiescent(State(), owner);
      l := |leases|;
      leases := leases + [Lease(owner, 0, false, false)];
    }

    method MarkOpaque(l: nat)
      requires Ops.Quiescent(State()) && l < |leases|
      modifies this
      ensures State() == Ops.MarkOpaque(old(State()), l)
      ensures Ops.Quiescent(State())
    {
      Ops.MarkOpaqueQuiescent(State(), l);
      if !leases[l].isOpaque {
        opaqueBytes := opaqueBytes + leases[l].bytes;
        leases := leases[l := leases[l].(isOpaque := true)];
      }
    }
  }
}
