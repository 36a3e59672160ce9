/** The process memory pool: an allocator with a normal region and a completion
    reserve that at most one owner may borrow (internal/capacity/pool.go).

    `PoolState` is the memory that the pool's mutex protects.  Owners, leases
    and waiters are objects in the source; here they are positions in a
    sequence, so an identity is an index and a new object is appended.
 */
module Capacity {
  import opened Options

  datatype Phase = Request | Response

  /** One retained buffer, charged to `owner`. */
  datatype Lease = Lease(owner: nat, bytes: nat, closed: bool, isOpaque: bool)

  /** One call of Grow that did not return at once.  `closes` counts how often
      its ready channel was closed; Go panics on the second close. */
  datatype Waiter = Waiter(lease: nat, bytes: nat, phase: Phase, granted: bool, closes: nat)

  datatype PoolState = PoolState(
    total: nat,
    normal: nat,
    maxWaiters: nat,
    used: nat,
    opaqueBytes: nat,
    burstOwner: Option<nat>,
    owners: seq<nat>,
    leases: seq<Lease>,
    waiters: seq<Waiter>,
    queue: seq<nat>,
    parked: set<nat>)

  // ---------------------------------------------------------------------
  // Sums over leases
  // ---------------------------------------------------------------------

  function SumBy(ls: seq<Lease>, f: Lease -> nat): nat {
    if ls == [] then 0 else SumBy(ls[..|ls| - 1], f) + f(ls[|ls| - 1])
  }

  function AllBytes(): Lease -> nat { (l: Lease) => l.bytes }

  function BytesOf(owner: nat): Lease -> nat { (l: Lease) => if l.owner == owner then l.bytes else 0 }

  function OpaqueBytes(): Lease -> nat { (l: Lease) => if l.isOpaque then l.bytes else 0 }

  lemma {:induction false} SumByUpdate(ls: seq<Lease>, i: nat, l: Lease, f: Lease -> nat)
    requires i < |ls|
    ensures SumBy(ls[i := l], f) + f(ls[i]) == SumBy(ls, f) + f(l)
  {
    var n := |ls| - 1;
    if i == n {
      assert ls[i := l][..n] == ls[..n];
    } else {
      assert ls[i := l][..n] == ls[..n][i := l];
      SumByUpdate(ls[..n], i, l, f);
    }
  }

  lemma SumByAppend(ls: seq<Lease>, l: Lease, f: Lease -> nat)
    ensures SumBy(ls + [l], f) == SumBy(ls, f) + f(l)
  {
    assert (ls + [l])[..|ls|] == ls;
  }

  lemma {:induction false} SumByMonotone(ls: seq<Lease>, f: Lease -> nat, g: Lease -> nat)
    requires forall l :: f(l) <= g(l)
    ensures SumBy(ls, f) <= SumBy(ls, g)
  {
    if ls != [] {
      SumByMonotone(ls[..|ls| - 1], f, g);
    }
  }

  lemma {:induction false} SumByZero(ls: seq<Lease>, f: Lease -> nat)
    requires forall i :: 0 <= i < |ls| ==> f(ls[i]) == 0
    ensures SumBy(ls, f) == 0
  {
    if ls != [] {
      SumByZero(ls[..|ls| - 1], f);
    }
  }

  lemma {:induction false} SumByMember(ls: seq<Lease>, i: nat, f: Lease -> nat)
    requires i < |ls|
    ensures f(ls[i]) <= SumBy(ls, f)
  {
    if i < |ls| - 1 {
      SumByMember(ls[..|ls| - 1], i, f);
    }
  }

  // ---------------------------------------------------------------------
  // Invariant
  // ---------------------------------------------------------------------

  /** Every byte is accounted for, and the reserve has exactly one borrower. */
  ghost predicate Accounted(s: PoolState) {
    && s.normal <= s.total
    && s.used <= s.total
    && s.used == SumBy(s.leases, AllBytes())
    && s.opaqueBytes == SumBy(s.leases, OpaqueBytes())
    && (forall o :: 0 <= o < |s.owners| ==> s.owners[o] == SumBy(s.leases, BytesOf(o)))
    && (forall i :: 0 <= i < |s.leases| ==> s.leases[i].owner < |s.owners|)
    && (forall i :: 0 <= i < |s.leases| && s.leases[i].closed ==> s.leases[i].bytes == 0)
    && (s.burstOwner.Some? <==> s.used > s.normal)
    && (s.burstOwner.Some? ==>
          s.burstOwner.value < |s.owners| && s.used - s.owners[s.burstOwner.value] <= s.normal)
  }

  ghost predicate Distinct(q: seq<nat>) {
    forall i, j :: 0 <= i < j < |q| ==> q[i] != q[j]
  }

  ghost predicate QueuedWaiter(s: PoolState, w: nat) {
    && w < |s.waiters|
    && s.waiters[w].lease < |s.leases|
    && !s.leases[s.waiters[w].lease].closed
    && s.waiters[w].bytes > 0
    && !s.waiters[w].granted
    && s.waiters[w].closes == 0
  }

  /** A parked Grow is still queued, was granted, or lost its lease. */
  ghost predicate ParkedWaiter(s: PoolState, w: nat) {
    && w < |s.waiters|
    && s.waiters[w].lease < |s.leases|
    && s.waiters[w].phase == Response
    && s.waiters[w].closes <= 1
    && (s.waiters[w].granted ==> s.waiters[w].closes == 1)
    && (s.waiters[w].closes == 0 ==> w in s.queue)
    && (s.waiters[w].closes == 1 && !s.waiters[w].granted ==> s.leases[s.waiters[w].lease].closed)
  }

  ghost predicate Queued(s: PoolState) {
    && Distinct(s.queue)
    && (forall k :: 0 <= k < |s.queue| ==> QueuedWaiter(s, s.queue[k]))
    && (forall w :: w in s.parked ==> ParkedWaiter(s, w))
    && (forall w :: 0 <= w < |s.waiters| ==> s.waiters[w].lease < |s.leases| && s.waiters[w].closes <= 1)
  }

  ghost predicate Valid(s: PoolState) {
    Accounted(s) && Queued(s)
  }

  // ---------------------------------------------------------------------
  // Granting
  // ---------------------------------------------------------------------

  function Limit(s: PoolState, w: nat): nat
    requires w < |s.waiters| && s.waiters[w].lease < |s.leases|
  {
    if s.waiters[w].phase == Response
       && (s.burstOwner == None || s.burstOwner == Some(s.leases[s.waiters[w].lease].owner))
    then s.total else s.normal
  }

  predicate Fits(s: PoolState, w: nat)
    requires w < |s.waiters| && s.waiters[w].lease < |s.leases|
  {
    s.waiters[w].bytes <= Limit(s, w) - s.used
  }

  /** The queue without the first occurrence of `w`. */
  function Remove(q: seq<nat>, w: nat): (r: seq<nat>)
    ensures w !in q ==> r == q
    ensures w in q ==> |r| == |q| - 1
    ensures forall x :: x in r ==> x in q
  {
    if q == [] then [] else if q[0] == w then q[1..] else [q[0]] + Remove(q[1..], w)
  }

  /** Removing cuts out the first position that holds the waiter. */
  lemma {:induction false} RemoveAt(q: seq<nat>, k: nat)
    requires k < |q| && forall i :: 0 <= i < k ==> q[i] != q[k]
    ensures Remove(q, q[k]) == q[..k] + q[k + 1..]
  {
    if k > 0 {
      RemoveAt(q[1..], k - 1);
      assert q[..k] + q[k + 1..] == [q[0]] + (q[1..][..k - 1] + q[1..][k..]);
    }
  }

  lemma RemoveMembers(q: seq<nat>, w: nat)
    requires Distinct(q)
    ensures forall x :: x in Remove(q, w) <==> x in q && x != w
  {
    if w in q {
      var k :| 0 <= k < |q| && q[k] == w;
      RemoveAt(q, k);
      forall x | x in q && x != w ensures x in q[..k] + q[k + 1..] {
        var j :| 0 <= j < |q| && q[j] == x;
        assert x == if j < k then (q[..k] + q[k + 1..])[j] else (q[..k] + q[k + 1..])[j - 1];
      }
    }
  }

  /** Removing keeps a property of all members, and distinctness. */
  lemma RemoveKeeps(q: seq<nat>, w: nat, p: nat -> bool)
    requires Distinct(q) && forall k :: 0 <= k < |q| ==> p(q[k])
    ensures Distinct(Remove(q, w))
    ensures forall k :: 0 <= k < |Remove(q, w)| ==> p(Remove(q, w)[k])
  {
    if w in q {
      var i :| 0 <= i < |q| && q[i] == w;
      RemoveAt(q, i);
    }
  }

  /** Charge waiter `w` and close its ready channel. */
  function Grant(s: PoolState, w: nat): PoolState
    requires w < |s.waiters| && s.waiters[w].lease < |s.leases|
    requires s.leases[s.waiters[w].lease].owner < |s.owners|
  {
    var waiter := s.waiters[w];
    var lease := s.leases[waiter.lease];
    s.(burstOwner := if s.used + waiter.bytes > s.normal then Some(lease.owner) else s.burstOwner,
       used := s.used + waiter.bytes,
       opaqueBytes := if lease.isOpaque then s.opaqueBytes + waiter.bytes else s.opaqueBytes,
       leases := s.leases[waiter.lease := lease.(bytes := lease.bytes + waiter.bytes)],
       owners := s.owners[lease.owner := s.owners[lease.owner] + waiter.bytes],
       waiters := s.waiters[w := waiter.(granted := true, closes := waiter.closes + 1)],
       queue := Remove(s.queue, w))
  }

  /** Moving the charge of one lease by `delta` keeps the three sums. */
  lemma LeaseCharged(s: PoolState, i: nat, l: Lease)
    requires Accounted(s) && i < |s.leases| && l.owner == s.leases[i].owner
    requires l.isOpaque == s.leases[i].isOpaque
    ensures SumBy(s.leases[i := l], AllBytes()) == s.used - s.leases[i].bytes + l.bytes
    ensures SumBy(s.leases[i := l], OpaqueBytes())
         == s.opaqueBytes + (if l.isOpaque then l.bytes - s.leases[i].bytes else 0)
    ensures forall o :: 0 <= o < |s.owners| ==>
              (SumBy(s.leases[i := l], BytesOf(o))
               == s.owners[o] + (if o == l.owner then l.bytes - s.leases[i].bytes else 0))
    ensures s.leases[i].bytes <= s.owners[l.owner] <= s.used
    ensures s.leases[i].isOpaque ==> s.leases[i].bytes <= s.opaqueBytes
  {
    SumByUpdate(s.leases, i, l, AllBytes());
    SumByUpdate(s.leases, i, l, OpaqueBytes());
    forall o | 0 <= o < |s.owners|
      ensures SumBy(s.leases[i := l], BytesOf(o))
           == s.owners[o] + (if o == l.owner then l.bytes - s.leases[i].bytes else 0)
    {
      SumByUpdate(s.leases, i, l, BytesOf(o));
    }
    SumByMember(s.leases, i, BytesOf(l.owner));
    SumByMember(s.leases, i, OpaqueBytes());
    SumByMonotone(s.leases, BytesOf(l.owner), AllBytes());
  }

  lemma GrantAccounted(s: PoolState, w: nat)
    requires Accounted(s) && QueuedWaiter(s, w) && Fits(s, w)
    ensures Accounted(Grant(s, w))
  {
    var waiter := s.waiters[w];
    var lease := s.leases[waiter.lease];
    LeaseCharged(s, waiter.lease, lease.(bytes := lease.bytes + waiter.bytes));
  }

  lemma GrantQueue(s: PoolState, k: nat)
    requires Queued(s) && k < |s.queue| && s.leases[s.waiters[s.queue[k]].lease].owner < |s.owners|
    ensures var t := Grant(s, s.queue[k]);
            Distinct(t.queue) && forall j :: 0 <= j < |t.queue| ==> QueuedWaiter(t, t.queue[j])
  {
    RemoveAt(s.queue, k);
    var t := Grant(s, s.queue[k]);
    assert t.queue == s.queue[..k] + s.queue[k + 1..];
    forall j | 0 <= j < |t.queue| ensures QueuedWaiter(t, t.queue[j]) {
      assert t.queue[j] == s.queue[if j < k then j else j + 1];
    }
  }

  lemma GrantParked(s: PoolState, w: nat)
    requires Queued(s) && w in s.queue && s.leases[s.waiters[w].lease].owner < |s.owners|
    ensures var t := Grant(s, w); forall x :: x in t.parked ==> ParkedWaiter(t, x)
  {
    var t := Grant(s, w);
    RemoveMembers(s.queue, w);
    forall x | x in t.parked ensures ParkedWaiter(t, x) {
      assert ParkedWaiter(s, x);
    }
  }

  lemma GrantValid(s: PoolState, w: nat)
    requires Valid(s) && w in s.queue && Fits(s, w)
    ensures Valid(Grant(s, w)) && |Grant(s, w).queue| == |s.queue| - 1
  {
    GrantAccounted(s, w);
    var k :| 0 <= k < |s.queue| && s.queue[k] == w;
    GrantQueue(s, k);
    GrantParked(s, w);
    assert QueuedWaiter(s, w);
  }

  // ---------------------------------------------------------------------
  // Dispatch
  // ---------------------------------------------------------------------

  ghost predicate WellFormed(s: PoolState) {
    && (forall k :: 0 <= k < |s.queue| ==> s.queue[k] < |s.waiters|)
    && (forall w :: 0 <= w < |s.waiters| ==> s.waiters[w].lease < |s.leases|)
    && (forall i :: 0 <= i < |s.leases| ==> s.leases[i].owner < |s.owners|)
  }

  /** One pass over the waiters of `phase` from position `index`; the flag says
      that a waiter of that phase did not fit. */
  ghost function Pass(s: PoolState, phase: Phase, index: nat): (r: (PoolState, bool))
    requires WellFormed(s) && index <= |s.queue|
    ensures WellFormed(r.0)
    decreases |s.queue| - index
  {
    if index == |s.queue| then (s, false)
    else
      var w := s.queue[index];
      if s.waiters[w].phase != phase then Pass(s, phase, index + 1)
      else if !Fits(s, w) then (Pass(s, phase, index + 1).0, true)
      else
        var g := Grant(s, w);
        assert forall k :: 0 <= k < |g.queue| ==> g.queue[k] in s.queue;
        Pass(g, phase, index)
  }

  ghost function Dispatch(s: PoolState): PoolState
    requires WellFormed(s)
  {
    var (s1, pending) := Pass(s, Response, 0);
    if pending then s1 else Pass(s1, Request, 0).0
  }

  /** Granting keeps every waiter's request, every lease's owner and the
      configuration. */
  ghost predicate SameShape(s: PoolState, t: PoolState) {
    && t.total == s.total && t.normal == s.normal && t.maxWaiters == s.maxWaiters
    && t.parked == s.parked
    && |t.waiters| == |s.waiters| && |t.leases| == |s.leases| && |t.owners| == |s.owners|
    && (forall i :: 0 <= i < |s.leases| ==>
          t.leases[i].(bytes := 0) == s.leases[i].(bytes := 0))
    && (forall w :: 0 <= w < |s.waiters| ==>
          t.waiters[w].(granted := true, closes := 0) == s.waiters[w].(granted := true, closes := 0))
  }

  /** Room only shrinks, and the queue only loses waiters, all of them granted. */
  ghost predicate Narrowed(s: PoolState, t: PoolState) {
    && s.used <= t.used
    && (s.burstOwner.Some? ==> t.burstOwner == s.burstOwner)
    && |t.queue| <= |s.queue|
    && (forall w :: w in t.queue ==> w in s.queue)
    && (forall w :: w in s.queue && w !in t.queue ==> w < |t.waiters| && t.waiters[w].granted)
    && (forall w :: 0 <= w < |s.waiters| && w < |t.waiters| && w !in s.queue ==> t.waiters[w] == s.waiters[w])
  }

  lemma GrantNarrowed(s: PoolState, w: nat)
    requires Valid(s) && w in s.queue && Fits(s, w)
    ensures SameShape(s, Grant(s, w)) && Narrowed(s, Grant(s, w))
  {
    RemoveMembers(s.queue, w);
    assert QueuedWaiter(s, w);
  }

  lemma NarrowedTransitive(a: PoolState, b: PoolState, c: PoolState)
    requires SameShape(a, b) && SameShape(b, c) && Narrowed(a, b) && Narrowed(b, c)
    ensures SameShape(a, c) && Narrowed(a, c)
  {
    forall w | w in a.queue && w !in c.queue ensures w < |c.waiters| && c.waiters[w].granted {
      if w !in b.queue {
        assert c.waiters[w] == b.waiters[w];
      }
    }
  }

  /** Granting never makes room for a waiter that did not fit. */
  lemma StillUnfit(s: PoolState, t: PoolState, w: nat)
    requires SameShape(s, t) && Narrowed(s, t)
    requires w < |s.waiters| && s.waiters[w].lease < |s.leases| && !Fits(s, w)
    requires s.normal <= s.total && s.used <= s.total
    ensures !Fits(t, w)
  {
    assert t.leases[s.waiters[w].lease].(bytes := 0) == s.leases[s.waiters[w].lease].(bytes := 0);
    assert t.waiters[w].(granted := true, closes := 0) == s.waiters[w].(granted := true, closes := 0);
  }

  lemma NarrowedSelf(s: PoolState)
    ensures SameShape(s, s) && Narrowed(s, s)
  {
  }

  /** One waiter of a pass: granted, or passed over. */
  lemma PassNext(s: PoolState, phase: Phase, index: nat)
    requires Valid(s) && index < |s.queue|
    ensures var w := s.queue[index];
            && QueuedWaiter(s, w) && WellFormed(s) && s.leases[s.waiters[w].lease].owner < |s.owners|
            && (s.waiters[w].phase != phase ==> Pass(s, phase, index) == Pass(s, phase, index + 1))
            && (s.waiters[w].phase == phase && !Fits(s, w) ==>
                Pass(s, phase, index) == (Pass(s, phase, index + 1).0, true))
            && (s.waiters[w].phase == phase && Fits(s, w) ==>
                  && Valid(Grant(s, w)) && index <= |Grant(s, w).queue| < |s.queue|
                  && Pass(s, phase, index) == Pass(Grant(s, w), phase, index))
  {
    var w := s.queue[index];
    assert QueuedWaiter(s, w);
    if s.waiters[w].phase == phase && Fits(s, w) {
      GrantValid(s, w);
      RemoveAt(s.queue, index);
    }
  }

  lemma {:induction false} PassKeeps(s: PoolState, phase: Phase, index: nat)
    requires Valid(s) && index <= |s.queue|
    ensures Valid(Pass(s, phase, index).0)
    ensures SameShape(s, Pass(s, phase, index).0) && Narrowed(s, Pass(s, phase, index).0)
    decreases |s.queue| - index
  {
    NarrowedSelf(s);
    if index < |s.queue| {
      hide Narrowed, SameShape, Valid, Pass, Grant, Fits;
      PassNext(s, phase, index);
      var w := s.queue[index];
      if s.waiters[w].phase == phase && Fits(s, w) {
        GrantNarrowed(s, w);
        PassKeeps(Grant(s, w), phase, index);
        NarrowedTransitive(s, Grant(s, w), Pass(s, phase, index).0);
      } else {
        PassKeeps(s, phase, index + 1);
      }
    }
  }

  /** A pass touches only the queue from `index` on. */
  lemma {:induction false} PassPrefix(s: PoolState, phase: Phase, index: nat)
    requires Valid(s) && index <= |s.queue|
    ensures s.queue[..index] <= Pass(s, phase, index).0.queue
    decreases |s.queue| - index
  {
    if index < |s.queue| {
      var w := s.queue[index];
      assert QueuedWaiter(s, w);
      if s.waiters[w].phase == phase && Fits(s, w) {
        GrantValid(s, w);
        RemoveAt(s.queue, index);
        var g := Grant(s, w);
        assert g.queue[..index] == s.queue[..index];
        PassPrefix(g, phase, index);
      } else {
        PassPrefix(s, phase, index + 1);
        assert s.queue[..index + 1][..index] == s.queue[..index];
      }
    }
  }

  /** A pass is maximal: every waiter of `phase` it leaves behind from `index`
      on does not fit in the state the pass ends with. */
  ghost predicate Exhausted(t: PoolState, phase: Phase, index: nat)
    requires Valid(t)
  {
    forall k :: index <= k < |t.queue| ==>
      QueuedWaiter(t, t.queue[k]) && (t.waiters[t.queue[k]].phase == phase ==> !Fits(t, t.queue[k]))
  }

  /** A waiter that a pass skips keeps its place and its request. */
  lemma SkippedStays(s: PoolState, phase: Phase, index: nat)
    requires Valid(s) && index < |s.queue|
    ensures var t := Pass(s, phase, index + 1).0;
            Valid(t) && index < |t.queue| && t.queue[index] == s.queue[index] && QueuedWaiter(t, t.queue[index])
            && t.waiters[t.queue[index]].phase == s.waiters[s.queue[index]].phase
  {
    var t := Pass(s, phase, index + 1).0;
    PassKeeps(s, phase, index + 1);
    PassPrefix(s, phase, index + 1);
    assert t.queue[index] == s.queue[..index + 1][index];
    assert t.waiters[t.queue[index]].(granted := true, closes := 0)
        == s.waiters[s.queue[index]].(granted := true, closes := 0);
  }

  lemma SkippedExhausted(s: PoolState, phase: Phase, index: nat)
    requires Valid(s) && index < |s.queue|
    requires s.waiters[s.queue[index]].phase == phase ==> !Fits(s, s.queue[index])
    requires var t := Pass(s, phase, index + 1).0; Valid(t) && Exhausted(t, phase, index + 1)
    ensures var t := Pass(s, phase, index + 1).0; Exhausted(t, phase, index)
  {
    SkippedStays(s, phase, index);
    if s.waiters[s.queue[index]].phase == phase {
      PassKeeps(s, phase, index + 1);
      StillUnfit(s, Pass(s, phase, index + 1).0, s.queue[index]);
    }
  }

  lemma {:induction false} PassMaximal(s: PoolState, phase: Phase, index: nat)
    requires Valid(s) && index <= |s.queue|
    ensures Valid(Pass(s, phase, index).0) && Exhausted(Pass(s, phase, index).0, phase, index)
    decreases |s.queue| - index
  {
    if index < |s.queue| {
      hide Exhausted, Valid, Pass, Grant, Fits;
      PassNext(s, phase, index);
      var w := s.queue[index];
      if s.waiters[w].phase == phase && Fits(s, w) {
        PassMaximal(Grant(s, w), phase, index);
      } else {
        PassMaximal(s, phase, index + 1);
        SkippedExhausted(s, phase, index);
      }
    }
  }

  ghost predicate AllOf(s: PoolState, phase: Phase, from: nat)
    requires Valid(s)
  {
    forall k :: from <= k < |s.queue| ==> QueuedWaiter(s, s.queue[k]) && s.waiters[s.queue[k]].phase == phase
  }

  function Other(phase: Phase): Phase {
    if phase == Request then Response else Request
  }

  /** The flag of a pass: clear exactly when no waiter of its phase is left. */
  lemma {:induction false} PassFlag(s: PoolState, phase: Phase, index: nat)
    requires Valid(s) && index <= |s.queue|
    ensures Valid(Pass(s, phase, index).0)
    ensures !Pass(s, phase, index).1 <==> AllOf(Pass(s, phase, index).0, Other(phase), index)
    decreases |s.queue| - index
  {
    if index < |s.queue| {
      hide Valid, Pass, Grant, Fits;
      PassNext(s, phase, index);
      var w := s.queue[index];
      if s.waiters[w].phase == phase && Fits(s, w) {
        PassFlag(Grant(s, w), phase, index);
      } else {
        PassFlag(s, phase, index + 1);
        SkippedStays(s, phase, index);
      }
    }
  }

  /** A pass grants only waiters of its own phase. */
  lemma {:induction false} PassOthers(s: PoolState, phase: Phase, index: nat, w: nat)
    requires Valid(s) && index <= |s.queue|
    requires w in s.queue && s.waiters[w].phase != phase
    ensures w in Pass(s, phase, index).0.queue
    decreases |s.queue| - index
  {
    if index < |s.queue| {
      var x := s.queue[index];
      assert QueuedWaiter(s, x);
      if s.waiters[x].phase == phase && Fits(s, x) {
        GrantValid(s, x);
        RemoveMembers(s.queue, x);
        PassOthers(Grant(s, x), phase, index, w);
      } else {
        PassOthers(s, phase, index + 1, w);
      }
    }
  }

  lemma DispatchKeeps(s: PoolState)
    requires Valid(s)
    ensures Valid(Dispatch(s)) && SameShape(s, Dispatch(s)) && Narrowed(s, Dispatch(s))
  {
    PassKeeps(s, Response, 0);
    var s1 := Pass(s, Response, 0).0;
    PassKeeps(s1, Request, 0);
    NarrowedTransitive(s, s1, Pass(s1, Request, 0).0);
  }

  /** One dispatch is maximal for responses: none that stays queued fits. */
  lemma DispatchMaximal(s: PoolState)
    requires Valid(s)
    ensures Valid(Dispatch(s)) && Exhausted(Dispatch(s), Response, 0)
  {
    PassMaximal(s, Response, 0);
    PassFlag(s, Response, 0);
    var (s1, pending) := Pass(s, Response, 0);
    if !pending {
      PassKeeps(s1, Request, 0);
      var t := Pass(s1, Request, 0).0;
      forall k | 0 <= k < |t.queue|
        ensures QueuedWaiter(t, t.queue[k]) && t.waiters[t.queue[k]].phase == Request
      {
        assert t.queue[k] in s1.queue;
      }
    }
  }

  /** Priority: a dispatch that grants a request leaves no response waiting,
      and a request it does not grant does not fit either, unless a response
      is still waiting. */
  lemma DispatchPriority(s: PoolState, w: nat)
    requires Valid(s) && w in s.queue && s.waiters[w].phase == Request
    ensures Valid(Dispatch(s))
    ensures w !in Dispatch(s).queue ==> AllOf(Dispatch(s), Request, 0)
    ensures w in Dispatch(s).queue && AllOf(Dispatch(s), Request, 0) ==>
              SameShape(s, Dispatch(s)) && !Fits(Dispatch(s), w)
  {
    PassFlag(s, Response, 0);
    PassOthers(s, Response, 0, w);
    var (s1, pending) := Pass(s, Response, 0);
    DispatchKeeps(s);
    if !pending {
      PassKeeps(s1, Request, 0);
      PassMaximal(s1, Request, 0);
      var t := Dispatch(s);
      forall k | 0 <= k < |t.queue|
        ensures QueuedWaiter(t, t.queue[k]) && t.waiters[t.queue[k]].phase == Request
      {
        assert t.queue[k] in s1.queue;
      }
    }
  }
}
