/** The operations of the memory pool as functions of its state, one per
    critical section of internal/capacity/pool.go, and what every one of them
    keeps. */
module CapacityOperations {
  import opened Options
  import opened Capacity

  // ---------------------------------------------------------------------
  // Releasing
  // ---------------------------------------------------------------------

  /** `releaseLocked`: give back `bytes` of lease `l`. */
  function ReleaseLocked(s: PoolState, l: nat, bytes: nat): PoolState
    requires l < |s.leases| && s.leases[l].owner < |s.owners|
    requires bytes <= s.leases[l].bytes <= s.owners[s.leases[l].owner] && bytes <= s.used
    requires s.leases[l].isOpaque ==> bytes <= s.opaqueBytes
  {
    var lease := s.leases[l];
    var left := s.owners[lease.owner] - bytes;
    s.(leases := s.leases[l := lease.(bytes := lease.bytes - bytes)],
       owners := s.owners[lease.owner := left],
       used := s.used - bytes,
       opaqueBytes := if lease.isOpaque then s.opaqueBytes - bytes else s.opaqueBytes,
       burstOwner := if s.used - bytes <= s.normal || (s.burstOwner == Some(lease.owner) && left == 0)
                     then None else s.burstOwner)
  }

  lemma ReleaseDefined(s: PoolState, l: nat)
    requires Accounted(s) && l < |s.leases|
    ensures s.leases[l].owner < |s.owners|
    ensures s.leases[l].bytes <= s.owners[s.leases[l].owner] <= s.used
    ensures s.leases[l].isOpaque ==> s.leases[l].bytes <= s.opaqueBytes
  {
    LeaseCharged(s, l, s.leases[l]);
  }

  lemma ReleaseAccounted(s: PoolState, l: nat, bytes: nat)
    requires Accounted(s) && l < |s.leases| && bytes <= s.leases[l].bytes
    ensures s.leases[l].owner < |s.owners|
    ensures s.leases[l].bytes <= s.owners[s.leases[l].owner] <= s.used
    ensures s.leases[l].isOpaque ==> s.leases[l].bytes <= s.opaqueBytes
    ensures Accounted(ReleaseLocked(s, l, bytes))
    // The borrower's last byte never leaves the pool above its normal region:
    // the second reason to end a burst never applies on its own.
    ensures s.burstOwner == Some(s.leases[l].owner) && s.owners[s.leases[l].owner] == bytes
            ==> s.used - bytes <= s.normal
  {
    ReleaseDefined(s, l);
    LeaseCharged(s, l, s.leases[l].(bytes := s.leases[l].bytes - bytes));
  }

  lemma ReleaseQueued(s: PoolState, l: nat, bytes: nat)
    requires Valid(s) && l < |s.leases| && bytes <= s.leases[l].bytes
    ensures s.leases[l].owner < |s.owners|
    ensures s.leases[l].bytes <= s.owners[s.leases[l].owner] <= s.used
    ensures s.leases[l].isOpaque ==> s.leases[l].bytes <= s.opaqueBytes
    ensures Valid(ReleaseLocked(s, l, bytes))
  {
    ReleaseAccounted(s, l, bytes);
    var t := ReleaseLocked(s, l, bytes);
    forall k | 0 <= k < |t.queue| ensures QueuedWaiter(t, t.queue[k]) {
      assert QueuedWaiter(s, s.queue[k]);
    }
    forall w | w in t.parked ensures ParkedWaiter(t, w) {
      assert ParkedWaiter(s, w);
    }
  }

  // ---------------------------------------------------------------------
  // The queue between critical sections
  // ---------------------------------------------------------------------

  /** Only responses wait. */
  ghost predicate Responses(s: PoolState)
    requires Queued(s)
  {
    forall k :: 0 <= k < |s.queue| ==> s.waiters[s.queue[k]].phase == Response
  }

  /** What holds whenever the pool's mutex is free: the bytes are accounted
      for, only responses wait, not too many of them, and none of them could
      be granted. */
  ghost predicate Quiescent(s: PoolState) {
    && Valid(s)
    && Responses(s)
    && |s.queue| <= s.maxWaiters
    && (forall k :: 0 <= k < |s.queue| ==> !Fits(s, s.queue[k]))
  }

  lemma DispatchQuiescent(s: PoolState)
    requires Valid(s) && Responses(s) && |s.queue| <= s.maxWaiters
    ensures Quiescent(Dispatch(s))
  {
    DispatchKeeps(s);
    DispatchMaximal(s);
    var t := Dispatch(s);
    forall k | 0 <= k < |t.queue| ensures t.waiters[t.queue[k]].phase == Response {
      assert t.queue[k] in s.queue;
      assert t.waiters[t.queue[k]].(granted := true, closes := 0)
          == s.waiters[t.queue[k]].(granted := true, closes := 0);
    }
  }

  /** Taking a waiter out of the queue, for good. */
  function Withdraw(s: PoolState, w: nat): PoolState {
    s.(queue := Remove(s.queue, w), parked := s.parked - {w})
  }

  lemma WithdrawParked(s: PoolState, w: nat)
    requires Queued(s)
    ensures var t := Withdraw(s, w); forall x :: x in t.parked ==> ParkedWaiter(t, x)
  {
    var t := Withdraw(s, w);
    RemoveMembers(s.queue, w);
    forall x | x in t.parked ensures ParkedWaiter(t, x) {
      assert ParkedWaiter(s, x);
    }
  }

  lemma WithdrawValid(s: PoolState, w: nat)
    requires Valid(s)
    ensures Valid(Withdraw(s, w)) && |Withdraw(s, w).queue| <= |s.queue|
    ensures Responses(s) ==> Responses(Withdraw(s, w))
  {
    var t := Withdraw(s, w);
    WithdrawParked(s, w);
    RemoveKeeps(s.queue, w, (x: nat) => QueuedWaiter(s, x));
    assert forall k :: 0 <= k < |t.queue| && QueuedWaiter(s, t.queue[k]) ==> QueuedWaiter(t, t.queue[k]);
    if Responses(s) {
      RemoveKeeps(s.queue, w, (x: nat) => x < |s.waiters| && s.waiters[x].phase == Response);
    }
  }

  lemma WithdrawStaysUnfit(s: PoolState, w: nat)
    requires Valid(s)
    requires forall k :: 0 <= k < |s.queue| && s.queue[k] != w ==> !Fits(s, s.queue[k])
    ensures Valid(Withdraw(s, w))
    ensures forall k :: 0 <= k < |Withdraw(s, w).queue| ==> !Fits(Withdraw(s, w), Withdraw(s, w).queue[k])
  {
    WithdrawValid(s, w);
    RemoveMembers(s.queue, w);
    var t := Withdraw(s, w);
    forall k | 0 <= k < |t.queue| ensures !Fits(t, t.queue[k]) {
      assert t.queue[k] in t.queue;
      assert t.queue[k] in s.queue && t.queue[k] != w;
    }
  }

  // ---------------------------------------------------------------------
  // Grow, first critical section
  // ---------------------------------------------------------------------

  datatype GrowResult = Rejected | Unneeded | Granted | Busy | Parked(waiter: nat)

  function Enqueue(s: PoolState, l: nat, bytes: nat, phase: Phase): PoolState {
    s.(waiters := s.waiters + [Waiter(l, bytes, phase, false, 0)], queue := s.queue + [|s.waiters|])
  }

  /** The request of a Grow that passes the checks before it is queued. */
  predicate Admissible(s: PoolState, l: nat, bytes: int, phase: Phase)
    requires l < |s.leases| && s.leases[l].owner < |s.owners|
  {
    0 <= bytes && !s.leases[l].closed
    && bytes <= (if phase == Request then s.normal else s.total) - s.owners[s.leases[l].owner]
  }

  /** `Grow` up to the first unlock.  A caller's context that has already
      ended, and every other rejection, leaves the pool alone. */
  ghost function GrowBegin(s: PoolState, l: nat, bytes: int, phase: Phase, ended: bool): (PoolState, GrowResult)
    requires Valid(s) && l < |s.leases|
  {
    if ended || !Admissible(s, l, bytes, phase) then (s, Rejected)
    else if bytes == 0 then (s, Unneeded)
    else
      var w := |s.waiters|;
      EnqueueValid(s, l, bytes, phase);
      DispatchKeeps(Enqueue(s, l, bytes, phase));
      var t := Dispatch(Enqueue(s, l, bytes, phase));
      if t.waiters[w].granted then (t, Granted)
      else if phase == Request || |t.queue| > t.maxWaiters then (Withdraw(t, w), Busy)
      else (t.(parked := t.parked + {w}), Parked(w))
  }

  lemma EnqueueValid(s: PoolState, l: nat, bytes: nat, phase: Phase)
    requires Valid(s) && l < |s.leases| && !s.leases[l].closed && bytes > 0
    ensures Valid(Enqueue(s, l, bytes, phase))
  {
    var t := Enqueue(s, l, bytes, phase);
    forall k | 0 <= k < |t.queue| ensures QueuedWaiter(t, t.queue[k]) {
      if k < |s.queue| {
        assert QueuedWaiter(s, s.queue[k]);
      }
    }
    forall w | w in t.parked ensures ParkedWaiter(t, w) {
      assert ParkedWaiter(s, w);
    }
    forall i, j | 0 <= i < j < |t.queue| ensures t.queue[i] != t.queue[j] {
      assert QueuedWaiter(s, s.queue[i]);
    }
  }

  /** After the dispatch of a Grow that found the pool quiescent, only the new
      waiter may have left the queue. */
  lemma EnqueuedQueue(s: PoolState, l: nat, bytes: nat, phase: Phase)
    requires Quiescent(s) && l < |s.leases| && !s.leases[l].closed && bytes > 0
    ensures Valid(Enqueue(s, l, bytes, phase)) && Valid(Dispatch(Enqueue(s, l, bytes, phase)))
    ensures var t := Dispatch(Enqueue(s, l, bytes, phase));
            && SameShape(Enqueue(s, l, bytes, phase), t) && Narrowed(Enqueue(s, l, bytes, phase), t)
            && (forall k :: 0 <= k < |t.queue| && t.queue[k] != |s.waiters| ==>
                  t.waiters[t.queue[k]].phase == Response && !Fits(t, t.queue[k]))
            && (t.waiters[|s.waiters|].granted <==> |s.waiters| !in t.queue)
  {
    var e := Enqueue(s, l, bytes, phase);
    EnqueueValid(s, l, bytes, phase);
    DispatchKeeps(e);
    DispatchMaximal(e);
    var t := Dispatch(e);
    assert e.queue[|s.queue|] == |s.waiters|;
    forall k | 0 <= k < |t.queue| && t.queue[k] != |s.waiters|
      ensures t.waiters[t.queue[k]].phase == Response && !Fits(t, t.queue[k])
    {
      assert t.queue[k] in e.queue;
      assert t.queue[k] in s.queue;
      assert t.waiters[t.queue[k]].(granted := true, closes := 0)
          == e.waiters[t.queue[k]].(granted := true, closes := 0);
      assert QueuedWaiter(t, t.queue[k]);
    }
  }

  lemma ParkValid(t: PoolState, w: nat)
    requires Valid(t) && w in t.queue && t.waiters[w].phase == Response
    ensures Valid(t.(parked := t.parked + {w}))
  {
    var u := t.(parked := t.parked + {w});
    assert QueuedWaiter(t, w);
    forall k | 0 <= k < |u.queue| ensures QueuedWaiter(u, u.queue[k]) {
      assert QueuedWaiter(t, t.queue[k]);
    }
    forall x | x in u.parked ensures ParkedWaiter(u, x) {
      if x != w {
        assert ParkedWaiter(t, x);
      }
    }
  }

  lemma WithdrawResponses(t: PoolState, w: nat)
    requires Valid(t)
    requires forall k :: 0 <= k < |t.queue| && t.queue[k] != w ==> t.waiters[t.queue[k]].phase == Response
    ensures Valid(Withdraw(t, w)) && Responses(Withdraw(t, w))
  {
    WithdrawValid(t, w);
    RemoveMembers(t.queue, w);
    var u := Withdraw(t, w);
    forall k | 0 <= k < |u.queue| ensures u.waiters[u.queue[k]].phase == Response {
      assert u.queue[k] in u.queue;
    }
  }
  /** All waiters but `w` are responses that do not fit. */
  ghost predicate SettledBut(t: PoolState, w: nat) {
    && Valid(t)
    && (forall k :: 0 <= k < |t.queue| && t.queue[k] != w ==>
          t.waiters[t.queue[k]].phase == Response && !Fits(t, t.queue[k]))
  }

  lemma BusyQuiescent(t: PoolState, w: nat)
    requires SettledBut(t, w) && w in t.queue && |t.queue| <= t.maxWaiters + 1
    ensures Quiescent(Withdraw(t, w))
  {
    WithdrawResponses(t, w);
    WithdrawStaysUnfit(t, w);
  }

  lemma ParkedQuiescent(t: PoolState, w: nat)
    requires SettledBut(t, w) && w in t.queue && |t.queue| <= t.maxWaiters
    requires t.waiters[w].phase == Response && !Fits(t, w)
    ensures Quiescent(t.(parked := t.parked + {w}))
  {
    ParkValid(t, w);
  }

  lemma GrowSettled(s: PoolState, l: nat, bytes: nat, phase: Phase)
    requires Quiescent(s) && l < |s.leases| && !s.leases[l].closed && bytes > 0
    ensures Valid(Enqueue(s, l, bytes, phase))
    ensures var t := Dispatch(Enqueue(s, l, bytes, phase));
            && SettledBut(t, |s.waiters|) && |t.queue| <= t.maxWaiters + 1 && |t.waiters| == |s.waiters| + 1
            && t.waiters[|s.waiters|].phase == phase
            && (if t.waiters[|s.waiters|].granted
                then |s.waiters| !in t.queue && |t.queue| <= t.maxWaiters
                else |s.waiters| in t.queue && (phase == Response ==> !Fits(t, |s.waiters|)))
  {
    var e := Enqueue(s, l, bytes, phase);
    EnqueuedQueue(s, l, bytes, phase);
    var t := Dispatch(e);
    DispatchMaximal(e);
    assert t.waiters[|s.waiters|].(granted := true, closes := 0)
        == e.waiters[|s.waiters|].(granted := true, closes := 0);
    if |s.waiters| !in t.queue && |t.queue| > t.maxWaiters {
      SubsetNotLonger(t.queue, s.queue);
    }
  }

  /** A queue without repetition is no longer than one holding its members. */
  lemma {:induction false} SubsetNotLonger(p: seq<nat>, q: seq<nat>)
    requires Distinct(p) && Distinct(q) && forall x :: x in p ==> x in q
    ensures |p| <= |q|
  {
    if p != [] {
      RemoveMembers(q, p[0]);
      RemoveKeeps(q, p[0], (x: nat) => true);
      assert forall x :: x in p[1..] ==> x in p && x != p[0];
      SubsetNotLonger(p[1..], Remove(q, p[0]));
    }
  }

  /** The first section of Grow leaves the pool quiescent. */
  lemma GrowBeginQuiescent(s: PoolState, l: nat, bytes: int, phase: Phase, ended: bool)
    requires Quiescent(s) && l < |s.leases|
    ensures Quiescent(GrowBegin(s, l, bytes, phase, ended).0)
  {
    hide SettledBut;
    if !ended && Admissible(s, l, bytes, phase) && bytes > 0 {
      GrowSettled(s, l, bytes, phase);
      var t := Dispatch(Enqueue(s, l, bytes, phase));
      if t.waiters[|s.waiters|].granted {
      } else if phase == Request || |t.queue| > t.maxWaiters {
        BusyQuiescent(t, |s.waiters|);
      } else {
        ParkedQuiescent(t, |s.waiters|);
      }
    }
  }

  // ---------------------------------------------------------------------
  // What Grow decides
  // ---------------------------------------------------------------------

  /** A pass walks over waiters that are not of its phase or do not fit. */
  lemma {:induction false} PassSkips(s: PoolState, phase: Phase, index: nat, end: nat)
    requires Valid(s) && index <= end <= |s.queue|
    requires forall k :: index <= k < end ==> s.waiters[s.queue[k]].phase != phase || !Fits(s, s.queue[k])
    ensures Pass(s, phase, index).0 == Pass(s, phase, end).0
    ensures Pass(s, phase, index).1 <==>
              (Pass(s, phase, end).1 || exists k :: index <= k < end && s.waiters[s.queue[k]].phase == phase)
    decreases end - index
  {
    if index < end {
      PassSkips(s, phase, index + 1, end);
    }
  }

  lemma EnqueuedUnfit(s: PoolState, l: nat, bytes: nat, phase: Phase)
    requires Quiescent(s) && l < |s.leases| && !s.leases[l].closed && bytes > 0
    ensures var e := Enqueue(s, l, bytes, phase);
            Valid(e) && forall k :: 0 <= k < |s.queue| ==>
                e.waiters[e.queue[k]].phase == Response && !Fits(e, e.queue[k])
  {
    EnqueueValid(s, l, bytes, phase);
    var e := Enqueue(s, l, bytes, phase);
    forall k | 0 <= k < |s.queue| ensures e.waiters[e.queue[k]].phase == Response && !Fits(e, e.queue[k]) {
      assert QueuedWaiter(s, s.queue[k]) && e.queue[k] == s.queue[k];
      assert !Fits(s, s.queue[k]);
    }
  }

  lemma GrantResponses(e: PoolState, n: nat)
    requires Valid(e) && |e.queue| == n + 1 && Fits(e, e.queue[n])
    requires forall k :: 0 <= k < n ==> e.waiters[e.queue[k]].phase == Response
    ensures var g := Grant(e, e.queue[n]);
            Valid(g) && |g.queue| == n && forall k :: 0 <= k < n ==> g.waiters[g.queue[k]].phase == Response
  {
    GrantValid(e, e.queue[n]);
    RemoveAt(e.queue, n);
    assert e.queue[..n] + e.queue[n + 1..] == e.queue[..n];
  }

  lemma DispatchNewResponse(s: PoolState, l: nat, bytes: nat)
    requires Quiescent(s) && l < |s.leases| && !s.leases[l].closed && bytes > 0
    ensures Valid(Enqueue(s, l, bytes, Response))
    ensures var e := Enqueue(s, l, bytes, Response);
            Dispatch(e) == if Fits(e, |s.waiters|) then Grant(e, |s.waiters|) else e
  {
    var e := Enqueue(s, l, bytes, Response);
    var n := |s.queue|;
    EnqueuedUnfit(s, l, bytes, Response);
    PassSkips(e, Response, 0, n);
    assert e.queue[n] == |s.waiters|;
    if Fits(e, |s.waiters|) {
      GrantResponses(e, n);
      var g := Grant(e, |s.waiters|);
      assert Pass(e, Response, n).0 == g;
      PassSkips(g, Request, 0, n);
    }
  }

  lemma DispatchNewRequest(s: PoolState, l: nat, bytes: nat)
    requires Quiescent(s) && l < |s.leases| && !s.leases[l].closed && bytes > 0
    ensures Valid(Enqueue(s, l, bytes, Request))
    ensures var e := Enqueue(s, l, bytes, Request);
            Dispatch(e) == if Fits(e, |s.waiters|) && s.queue == [] then Grant(e, |s.waiters|) else e
  {
    var e := Enqueue(s, l, bytes, Request);
    var n := |s.queue|;
    EnqueuedUnfit(s, l, bytes, Request);
    PassSkips(e, Response, 0, n);
    assert e.queue[n] == |s.waiters|;
    if n == 0 {
      assert Pass(e, Response, 1) == (e, false);
      assert Pass(e, Request, 1).0 == e;
      if Fits(e, |s.waiters|) {
        GrantValid(e, |s.waiters|);
        var g := Grant(e, |s.waiters|);
        assert |g.queue| == 0;
        assert Pass(g, Request, 0).0 == g;
      }
    } else {
      assert e.waiters[e.queue[0]].phase == Response;
    }
  }

  /** Whether a Grow that passes its checks is granted at once: exactly when
      the bytes fit under the caller's limit and, for a new request, no
      response is waiting. */
  ghost predicate GrantedAtOnce(s: PoolState, l: nat, bytes: int, phase: Phase)
    requires l < |s.leases|
  {
    var reserve := phase == Response && (s.burstOwner == None || s.burstOwner == Some(s.leases[l].owner));
    && (phase == Request ==> s.queue == [])
    && bytes <= (if reserve then s.total else s.normal) - s.used
  }

  lemma NewestRemoved(q: seq<nat>, w: nat)
    requires Distinct(q) && w !in q
    ensures Remove(q + [w], w) == q && Remove(q, w) == q
  {
    forall i, j | 0 <= i < j < |q + [w]| ensures (q + [w])[i] != (q + [w])[j] {
      assert q[i] in q;
    }
    RemoveAt(q + [w], |q|);
    assert (q + [w])[..|q|] + (q + [w])[|q| + 1..] == q;
  }

  /** A Grow on a quiescent pool decides only about its own waiter. */
  lemma DispatchNewest(s: PoolState, l: nat, bytes: nat, phase: Phase)
    requires Quiescent(s) && l < |s.leases| && !s.leases[l].closed && bytes > 0
    ensures Valid(Enqueue(s, l, bytes, phase))
    ensures var e := Enqueue(s, l, bytes, phase);
            var t := Dispatch(e);
            && t == (if GrantedAtOnce(s, l, bytes, phase) then Grant(e, |s.waiters|) else e)
            && |t.waiters| == |s.waiters| + 1
            && t.waiters[|s.waiters|].granted == GrantedAtOnce(s, l, bytes, phase)
            && Remove(t.queue, |s.waiters|) == s.queue
            && t.queue == (if GrantedAtOnce(s, l, bytes, phase) then s.queue else s.queue + [|s.waiters|])
  {
    assert |s.waiters| !in s.queue;
    if phase == Response {
      DispatchNewResponse(s, l, bytes);
    } else {
      DispatchNewRequest(s, l, bytes);
    }
    NewestRemoved(s.queue, |s.waiters|);
  }

  /** The whole decision of Grow's first section, and that it takes all the
      bytes or none of them. */
  lemma GrowBeginExact(s: PoolState, l: nat, bytes: int, phase: Phase, ended: bool)
    requires Quiescent(s) && l < |s.leases|
    ensures var (t, r) := GrowBegin(s, l, bytes, phase, ended);
            var ok := !ended && Admissible(s, l, bytes, phase);
            && (r == Rejected <==> !ok)
            && (r == Unneeded <==> ok && bytes == 0)
            && (r == Granted <==> ok && bytes > 0 && GrantedAtOnce(s, l, bytes, phase))
            && (r.Parked? <==> ok && bytes > 0 && !GrantedAtOnce(s, l, bytes, phase)
                               && phase == Response && |s.queue| < s.maxWaiters)
            && t.queue == (if r.Parked? then s.queue + [r.waiter] else s.queue)
            && t.used == s.used + (if r == Granted then bytes else 0)
            && t.leases == (if r == Granted then s.leases[l := s.leases[l].(bytes := s.leases[l].bytes + bytes)]
                            else s.leases)
  {
    hide Dispatch, Remove, GrantedAtOnce;
    if !ended && Admissible(s, l, bytes, phase) && bytes > 0 {
      DispatchNewest(s, l, bytes, phase);
    }
  }

  // ---------------------------------------------------------------------
  // Shrink and Close
  // ---------------------------------------------------------------------

  function Min(a: int, b: int): int { if a <= b then a else b }

  ghost function Shrink(s: PoolState, l: nat, bytes: int): PoolState
    requires Valid(s) && l < |s.leases|
  {
    if s.leases[l].closed || bytes <= 0 then s
    else
      var amount := Min(bytes, s.leases[l].bytes);
      ReleaseQueued(s, l, amount);
      Dispatch(ReleaseLocked(s, l, amount))
  }

  /** The queue without the waiters of lease `l`, in the same order. */
  function Others(ws: seq<Waiter>, q: seq<nat>, l: nat): seq<nat>
    requires forall k :: 0 <= k < |q| ==> q[k] < |ws|
  {
    if q == [] then []
    else (if ws[q[0]].lease == l then [] else [q[0]]) + Others(ws, q[1..], l)
  }

  lemma {:induction false} OthersMembers(ws: seq<Waiter>, q: seq<nat>, l: nat)
    requires forall k :: 0 <= k < |q| ==> q[k] < |ws|
    ensures |Others(ws, q, l)| <= |q|
    ensures forall x :: x in Others(ws, q, l) <==> x in q && ws[x].lease != l
    ensures Distinct(q) ==> Distinct(Others(ws, q, l))
  {
    if q != [] {
      OthersMembers(ws, q[1..], l);
      assert forall x :: x in q <==> x in q[1..] || x == q[0];
      assert Distinct(q) ==> Distinct(q[1..]) && q[0] !in q[1..];
      var rest := Others(ws, q[1..], l);
      if q[0] !in q[1..] && Distinct(rest) {
        forall j | 0 <= j < |rest| ensures rest[j] != q[0] {
          assert rest[j] in rest;
        }
      }
    }
  }

  function ReadyClosed(ws: seq<Waiter>, w: nat, l: nat): (r: seq<Waiter>)
    requires w < |ws|
    ensures |r| == |ws|
  {
    if ws[w].lease == l then ws[w := ws[w].(closes := ws[w].closes + 1)] else ws
  }

  /** The waiters of lease `l` in `q` with their ready channels closed. */
  function Dropped(ws: seq<Waiter>, q: seq<nat>, l: nat): (r: seq<Waiter>)
    requires forall k :: 0 <= k < |q| ==> q[k] < |ws|
    ensures |r| == |ws|
    decreases |q|
  {
    if q == [] then ws else Dropped(ReadyClosed(ws, q[0], l), q[1..], l)
  }

  lemma {:induction false} DroppedExact(ws: seq<Waiter>, q: seq<nat>, l: nat, i: nat)
    requires Distinct(q) && (forall k :: 0 <= k < |q| ==> q[k] < |ws|) && i < |ws|
    ensures Dropped(ws, q, l)[i] == if i in q && ws[i].lease == l then ws[i].(closes := ws[i].closes + 1) else ws[i]
    decreases |q|
  {
    if q != [] {
      DroppedExact(ReadyClosed(ws, q[0], l), q[1..], l, i);
      assert q == [q[0]] + q[1..];
      assert i == q[0] ==> i !in q[1..];
    }
  }

  /** Closing a lease closes the channels of its queued waiters once, and nothing
      else about a waiter changes. */
  lemma DroppedAll(ws: seq<Waiter>, q: seq<nat>, l: nat)
    requires Distinct(q) && (forall k :: 0 <= k < |q| ==> q[k] < |ws|)
    ensures forall i :: 0 <= i < |ws| ==>
      Dropped(ws, q, l)[i] == if i in q && ws[i].lease == l then ws[i].(closes := ws[i].closes + 1) else ws[i]
  {
    forall i | 0 <= i < |ws|
      ensures Dropped(ws, q, l)[i] == if i in q && ws[i].lease == l then ws[i].(closes := ws[i].closes + 1) else ws[i]
    {
      DroppedExact(ws, q, l, i);
    }
  }

  /** Close the ready channels of the waiters of lease `l`, and drop them. */
  function Drop(s: PoolState, l: nat): PoolState
    requires forall k :: 0 <= k < |s.queue| ==> s.queue[k] < |s.waiters|
  {
    s.(queue := Others(s.waiters, s.queue, l), waiters := Dropped(s.waiters, s.queue, l))
  }

  /** A lease that is marked closed, empty, and still has waiters. */
  function Closing(s: PoolState, l: nat): PoolState
    requires Accounted(s) && l < |s.leases|
  {
    ReleaseAccounted(s, l, s.leases[l].bytes);
    var t := ReleaseLocked(s, l, s.leases[l].bytes);
    t.(leases := t.leases[l := t.leases[l].(closed := true)])
  }

  ghost function CloseLease(s: PoolState, l: nat): PoolState
    requires Valid(s) && l < |s.leases|
  {
    if s.leases[l].closed then s
    else
      DropValid(s, l);
      Dispatch(Drop(Closing(s, l), l))
  }

  lemma ClosingAccounted(s: PoolState, l: nat)
    requires Accounted(s) && l < |s.leases|
    ensures Accounted(Closing(s, l)) && Closing(s, l).used == s.used - s.leases[l].bytes
  {
    ReleaseAccounted(s, l, s.leases[l].bytes);
    var t := ReleaseLocked(s, l, s.leases[l].bytes);
    LeaseCharged(t, l, t.leases[l].(closed := true));
  }

  lemma DropQueue(s: PoolState, l: nat)
    requires Valid(s) && l < |s.leases|
    ensures var t := Drop(Closing(s, l), l);
            Distinct(t.queue) && forall k :: 0 <= k < |t.queue| ==> QueuedWaiter(t, t.queue[k])
  {
    var t := Drop(Closing(s, l), l);
    OthersMembers(s.waiters, s.queue, l);
    DroppedAll(s.waiters, s.queue, l);
    forall k | 0 <= k < |t.queue| ensures QueuedWaiter(t, t.queue[k]) {
      assert t.queue[k] in t.queue;
      assert t.queue[k] in s.queue && s.waiters[t.queue[k]].lease != l;
      assert QueuedWaiter(s, t.queue[k]);
    }
  }

  lemma DropParked(s: PoolState, l: nat)
    requires Valid(s) && l < |s.leases|
    ensures var t := Drop(Closing(s, l), l);
            && (forall x :: x in t.parked ==> ParkedWaiter(t, x))
            && (forall w :: 0 <= w < |t.waiters| ==> t.waiters[w].lease < |t.leases| && t.waiters[w].closes <= 1)
  {
    var t := Drop(Closing(s, l), l);
    OthersMembers(s.waiters, s.queue, l);
    DroppedAll(s.waiters, s.queue, l);
    forall x | x in t.parked ensures ParkedWaiter(t, x) {
      assert ParkedWaiter(s, x);
      if x in s.queue {
        assert QueuedWaiter(s, x);
      }
    }
    forall w | 0 <= w < |t.waiters| ensures t.waiters[w].lease < |t.leases| && t.waiters[w].closes <= 1 {
      if w in s.queue {
        assert QueuedWaiter(s, w);
      }
    }
  }

  lemma DropValid(s: PoolState, l: nat)
    requires Valid(s) && l < |s.leases|
    ensures Valid(Drop(Closing(s, l), l))
  {
    ClosingAccounted(s, l);
    DropQueue(s, l);
    DropParked(s, l);
  }

  lemma ShrinkQuiescent(s: PoolState, l: nat, bytes: int)
    requires Quiescent(s) && l < |s.leases|
    ensures Quiescent(Shrink(s, l, bytes))
  {
    if !s.leases[l].closed && bytes > 0 {
      var amount := Min(bytes, s.leases[l].bytes);
      ReleaseQueued(s, l, amount);
      DispatchQuiescent(ReleaseLocked(s, l, amount));
    }
  }

  lemma CloseQuiescent(s: PoolState, l: nat)
    requires Quiescent(s) && l < |s.leases|
    ensures Quiescent(CloseLease(s, l))
  {
    if !s.leases[l].closed {
      DropValid(s, l);
      OthersMembers(s.waiters, s.queue, l);
      DroppedAll(s.waiters, s.queue, l);
      var t := Drop(Closing(s, l), l);
      forall k | 0 <= k < |t.queue| ensures t.waiters[t.queue[k]].phase == Response {
        assert t.queue[k] in t.queue;
      }
      DispatchQuiescent(t);
    }
  }

  // ---------------------------------------------------------------------
  // New objects and marks
  // ---------------------------------------------------------------------

  function NewOwner(s: PoolState): PoolState {
    s.(owners := s.owners + [0])
  }

  function NewLease(s: PoolState, owner: nat): PoolState {
    s.(leases := s.leases + [Lease(owner, 0, false, false)])
  }

  function MarkOpaque(s: PoolState, l: nat): PoolState
    requires l < |s.leases|
  {
    if s.leases[l].isOpaque then s
    else s.(leases := s.leases[l := s.leases[l].(isOpaque := true)],
            opaqueBytes := s.opaqueBytes + s.leases[l].bytes)
  }

  /** Steps that touch neither bytes nor waiters keep the queue's invariant. */
  lemma UntouchedQueue(s: PoolState, t: PoolState)
    requires Quiescent(s) && Accounted(t)
    requires t == s.(owners := t.owners, leases := t.leases, opaqueBytes := t.opaqueBytes)
    requires |s.leases| <= |t.leases|
    requires forall i :: 0 <= i < |s.leases| ==>
               t.leases[i].owner == s.leases[i].owner && t.leases[i].closed == s.leases[i].closed
    ensures Quiescent(t)
  {
    forall k | 0 <= k < |t.queue| ensures QueuedWaiter(t, t.queue[k]) && !Fits(t, t.queue[k]) {
      assert QueuedWaiter(s, s.queue[k]) && !Fits(s, s.queue[k]);
    }
    forall x | x in t.parked ensures ParkedWaiter(t, x) {
      assert ParkedWaiter(s, x);
    }
  }

  lemma NewOwnerQuiescent(s: PoolState)
    requires Quiescent(s)
    ensures Quiescent(NewOwner(s))
  {
    SumByZero(s.leases, BytesOf(|s.owners|));
    UntouchedQueue(s, NewOwner(s));
  }

  lemma NewLeaseQuiescent(s: PoolState, owner: nat)
    requires Quiescent(s) && owner < |s.owners|
    ensures Quiescent(NewLease(s, owner))
  {
    var l := Lease(owner, 0, false, false);
    SumByAppend(s.leases, l, AllBytes());
    SumByAppend(s.leases, l, OpaqueBytes());
    forall o | 0 <= o < |s.owners| ensures SumBy(s.leases + [l], BytesOf(o)) == s.owners[o] {
      SumByAppend(s.leases, l, BytesOf(o));
    }
    UntouchedQueue(s, NewLease(s, owner));
  }

  lemma MarkOpaqueQuiescent(s: PoolState, l: nat)
    requires Quiescent(s) && l < |s.leases|
    ensures Quiescent(MarkOpaque(s, l))
    ensures forall i :: 0 <= i < |s.leases| ==>
              MarkOpaque(s, l).leases[i].isOpaque == (s.leases[i].isOpaque || i == l)
  {
    if !s.leases[l].isOpaque {
      var marked := s.leases[l].(isOpaque := true);
      SumByUpdate(s.leases, l, marked, AllBytes());
      SumByUpdate(s.leases, l, marked, OpaqueBytes());
      forall o | 0 <= o < |s.owners| ensures SumBy(s.leases[l := marked], BytesOf(o)) == s.owners[o] {
        SumByUpdate(s.leases, l, marked, BytesOf(o));
      }
      UntouchedQueue(s, MarkOpaque(s, l));
    }
  }

  // ---------------------------------------------------------------------
  // Grow, second critical section
  // ---------------------------------------------------------------------

  datatype ResumeResult = Admitted | TimedOut | LeaseClosed | Lost

  /** `Grow` after its wait: the ready channel was closed or the wait ended. */
  ghost function GrowResume(s: PoolState, w: nat, ended: bool): (PoolState, ResumeResult)
    requires Valid(s) && w in s.parked
  {
    var waiter := s.waiters[w];
    if s.leases[waiter.lease].closed then (s.(parked := s.parked - {w}), LeaseClosed)
    else if ended then
      if waiter.granted then
        var amount := Min(waiter.bytes, s.leases[waiter.lease].bytes);
        ReleaseQueued(s, waiter.lease, amount);
        var t := ReleaseLocked(s, waiter.lease, amount);
        (Dispatch(t).(parked := s.parked - {w}), TimedOut)
      else
        WithdrawValid(s, w);
        (Dispatch(Withdraw(s, w)), TimedOut)
    else if !waiter.granted then
      WithdrawValid(s, w);
      (Dispatch(Withdraw(s, w)), Lost)
    else (s.(parked := s.parked - {w}), Admitted)
  }

  lemma UnparkQuiescent(s: PoolState, w: nat)
    requires Quiescent(s)
    ensures Quiescent(s.(parked := s.parked - {w}))
  {
    var t := s.(parked := s.parked - {w});
    forall k | 0 <= k < |t.queue| ensures QueuedWaiter(t, t.queue[k]) && !Fits(t, t.queue[k]) {
      assert QueuedWaiter(s, s.queue[k]) && !Fits(s, s.queue[k]);
    }
    forall x | x in t.parked ensures ParkedWaiter(t, x) {
      assert ParkedWaiter(s, x);
    }
  }

  /** A timed-out waiter that was granted gives its bytes back. */
  lemma ResumeReleased(s: PoolState, w: nat)
    requires Quiescent(s) && w in s.parked && s.waiters[w].granted && !s.leases[s.waiters[w].lease].closed
    ensures Quiescent(GrowResume(s, w, true).0) && w !in GrowResume(s, w, true).0.queue
  {
    var amount := Min(s.waiters[w].bytes, s.leases[s.waiters[w].lease].bytes);
    assert ParkedWaiter(s, w) && w !in s.queue;
    ReleaseQueued(s, s.waiters[w].lease, amount);
    var t := ReleaseLocked(s, s.waiters[w].lease, amount);
    hide ReleaseLocked, Accounted;
    DispatchQuiescent(t);
    DispatchKeeps(t);
    UnparkQuiescent(Dispatch(t), w);
  }

  /** A timed-out waiter that was not granted leaves the queue. */
  lemma ResumeWithdrawn(s: PoolState, w: nat)
    requires Quiescent(s) && w in s.parked && !s.waiters[w].granted && !s.leases[s.waiters[w].lease].closed
    ensures Quiescent(GrowResume(s, w, true).0) && w !in GrowResume(s, w, true).0.queue
  {
    assert ParkedWaiter(s, w);
    WithdrawValid(s, w);
    DispatchQuiescent(Withdraw(s, w));
    DispatchKeeps(Withdraw(s, w));
    RemoveMembers(s.queue, w);
  }

  /** A Grow resumes only with its ready channel closed or its wait over.  It
      keeps the pool quiescent, it is never told that it lost its place while
      its lease is open, and it reports admission only if it was granted. */
  lemma GrowResumeQuiescent(s: PoolState, w: nat, ended: bool)
    requires Quiescent(s) && w in s.parked && (ended || s.waiters[w].closes == 1)
    ensures Quiescent(GrowResume(s, w, ended).0)
    ensures GrowResume(s, w, ended).1 != Lost
    ensures GrowResume(s, w, ended).1 == Admitted ==> s.waiters[w].granted
    ensures w !in GrowResume(s, w, ended).0.queue
  {
    assert ParkedWaiter(s, w);
    assert s.leases[s.waiters[w].lease].closed || s.waiters[w].granted ==> w !in s.queue;
    UnparkQuiescent(s, w);
    if !s.leases[s.waiters[w].lease].closed && ended {
      hide Quiescent, Accounted;
      if s.waiters[w].granted {
        ResumeReleased(s, w);
      } else {
        ResumeWithdrawn(s, w);
      }
    }
  }
}
