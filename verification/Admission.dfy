/** The execution admission pool (internal/service/admission.go, reservation.go
    and admission_queue.go): requests are admitted at once or wait in a queue
    that is woken one at a time. Every method is one critical section of the
    pool's lock, or one step of a waiter outside it. */
module Admission {

  /** A waiter may have a wakeup token in its channel; an awake waiter is about
      to take the lock, to check again or to leave. */
  datatype Phase = Sleeping(token: bool) | Awake(token: bool) | Live(bytes: nat) | Gone

  datatype Request = Request(encoded: nat, input: nat, scan: bool, direct: bool, wait: bool, phase: Phase)

  datatype Limits = Limits(requests: nat, bytes: nat, scanRequests: nat, scanBytes: nat, queuedRequests: nat,
                           queuedBytes: nat)

  datatype Counters = Counters(requests: nat, bytes: nat, scanRequests: nat, scanBytes: nat, queuedRequests: nat,
                               queuedBytes: nat)

  predicate Waiting(r: Request) { r.phase.Sleeping? || r.phase.Awake? }

  predicate Signalled(r: Request) { r.phase.Awake? || (r.phase.Sleeping? && r.phase.token) }

  predicate SlotsFull(l: Limits, c: Counters, r: Request) {
    c.requests >= l.requests || (r.scan && (c.scanRequests >= l.scanRequests || r.encoded + c.scanBytes > l.scanBytes))
  }

  predicate Fits(l: Limits, c: Counters, r: Request) { r.encoded + c.bytes <= l.bytes }

  // ---------------------------------------------------------------------
  // Sums over all requests
  // ---------------------------------------------------------------------

  function Total(rs: seq<Request>, f: Request -> nat): nat {
    if rs == [] then 0 else Total(rs[..|rs| - 1], f) + f(rs[|rs| - 1])
  }

  lemma TotalAppend(rs: seq<Request>, r: Request, f: Request -> nat)
    ensures Total(rs + [r], f) == Total(rs, f) + f(r)
  {
    assert (rs + [r])[..|rs|] == rs;
  }

  lemma {:induction false} TotalUpdate(rs: seq<Request>, i: nat, r: Request, f: Request -> nat)
    requires i < |rs|
    ensures Total(rs[i := r], f) + f(rs[i]) == Total(rs, f) + f(r)
  {
    var n := |rs| - 1;
    if i < n {
      TotalUpdate(rs[..n], i, r, f);
      assert rs[i := r][..n] == rs[..n][i := r];
    } else {
      assert rs[i := r][..n] == rs[..n];
    }
  }

  function One(r: Request): nat { if r.phase.Live? then 1 else 0 }
  function Bytes(r: Request): nat { if r.phase.Live? then r.phase.bytes else 0 }
  function ScanOne(r: Request): nat { if r.phase.Live? && r.scan then 1 else 0 }
  function ScanBytes(r: Request): nat { if r.phase.Live? && r.scan then r.encoded else 0 }
  function QueuedOne(r: Request): nat { if Waiting(r) && r.direct then 1 else 0 }
  function QueuedBytes(r: Request): nat { if Waiting(r) && r.direct then r.input else 0 }

  /** The counters are the sums over the admitted and the queued requests. */
  ghost predicate Accounted(rs: seq<Request>, c: Counters) {
    && c.requests == Total(rs, One) && c.bytes == Total(rs, Bytes)
    && c.scanRequests == Total(rs, ScanOne) && c.scanBytes == Total(rs, ScanBytes)
    && c.queuedRequests == Total(rs, QueuedOne) && c.queuedBytes == Total(rs, QueuedBytes)
  }

  ghost predicate Within(l: Limits, c: Counters) {
    && c.requests <= l.requests && c.bytes <= l.bytes
    && c.scanRequests <= l.scanRequests && c.scanBytes <= l.scanBytes
    && c.queuedRequests <= l.queuedRequests && c.queuedBytes <= l.queuedBytes
  }

  /** The counters when a request changes from `a` to `b`. */
  ghost predicate Moved(c: Counters, d: Counters, a: Request, b: Request) {
    && d.requests + One(a) == c.requests + One(b) && d.bytes + Bytes(a) == c.bytes + Bytes(b)
    && d.scanRequests + ScanOne(a) == c.scanRequests + ScanOne(b)
    && d.scanBytes + ScanBytes(a) == c.scanBytes + ScanBytes(b)
    && d.queuedRequests + QueuedOne(a) == c.queuedRequests + QueuedOne(b)
    && d.queuedBytes + QueuedBytes(a) == c.queuedBytes + QueuedBytes(b)
  }

  lemma AccountedUpdate(rs: seq<Request>, c: Counters, i: nat, r: Request, d: Counters)
    requires Accounted(rs, c) && i < |rs| && Moved(c, d, rs[i], r)
    ensures Accounted(rs[i := r], d)
  {
    TotalUpdate(rs, i, r, One);
    TotalUpdate(rs, i, r, Bytes);
    TotalUpdate(rs, i, r, ScanOne);
    TotalUpdate(rs, i, r, ScanBytes);
    TotalUpdate(rs, i, r, QueuedOne);
    TotalUpdate(rs, i, r, QueuedBytes);
  }

  lemma AccountedAppend(rs: seq<Request>, c: Counters, r: Request)
    requires Accounted(rs, c) && r.phase.Gone?
    ensures Accounted(rs + [r], c)
  {
    TotalAppend(rs, r, One);
    TotalAppend(rs, r, Bytes);
    TotalAppend(rs, r, ScanOne);
    TotalAppend(rs, r, ScanBytes);
    TotalAppend(rs, r, QueuedOne);
    TotalAppend(rs, r, QueuedBytes);
  }

  // ---------------------------------------------------------------------
  // The queue
  // ---------------------------------------------------------------------

  /** The queue holds exactly the waiting requests, in order of arrival. */
  ghost predicate Queued(rs: seq<Request>, ws: seq<nat>) {
    && (forall j, k :: 0 <= j < k < |ws| ==> ws[j] < ws[k])
    && (forall k :: 0 <= k < |ws| ==> ws[k] < |rs| && Waiting(rs[ws[k]]))
    && (forall i :: 0 <= i < |rs| && Waiting(rs[i]) ==> i in ws)
  }

  /** The oldest waiter that has a slot. */
  ghost predicate Oldest(l: Limits, c: Counters, rs: seq<Request>, ws: seq<nat>, k: nat)
    requires forall j :: 0 <= j < |ws| ==> ws[j] < |rs|
  {
    && k < |ws| && !SlotsFull(l, c, rs[ws[k]])
    && (forall j :: 0 <= j < k ==> SlotsFull(l, c, rs[ws[j]]))
  }

  /** No lost wakeup: the oldest waiter that has a slot, if it fits, has been
      signalled. */
  ghost predicate Served(l: Limits, c: Counters, rs: seq<Request>, ws: seq<nat>)
    requires forall j :: 0 <= j < |ws| ==> ws[j] < |rs|
  {
    forall k: nat :: Oldest(l, c, rs, ws, k) && Fits(l, c, rs[ws[k]]) ==> Signalled(rs[ws[k]])
  }

  /** A waiter of an earlier position that has a slot. */
  ghost predicate OlderHasSlot(l: Limits, c: Counters, rs: seq<Request>, ws: seq<nat>, n: nat)
    requires n <= |ws| && forall j :: 0 <= j < |ws| ==> ws[j] < |rs|
  {
    exists j :: 0 <= j < n && !SlotsFull(l, c, rs[ws[j]])
  }

  function ScansWaiting(rs: seq<Request>, ws: seq<nat>): (nat, nat)
    requires forall j :: 0 <= j < |ws| ==> ws[j] < |rs|
  {
    if ws == [] then (0, 0)
    else
      var (n, bytes) := ScansWaiting(rs, ws[..|ws| - 1]);
      var r := rs[ws[|ws| - 1]];
      if r.scan then (n + 1, bytes + r.encoded) else (n, bytes)
  }

  /** A change of one waiter's phase that leaves it waiting. */
  lemma PhaseKeepsQueue(rs: seq<Request>, ws: seq<nat>, i: nat, phase: Phase)
    requires Queued(rs, ws) && i < |rs| && Waiting(rs[i]) && (phase.Sleeping? || phase.Awake?)
    ensures Queued(rs[i := rs[i].(phase := phase)], ws)
  {
  }

  lemma JoinQueue(rs: seq<Request>, ws: seq<nat>, r: Request)
    requires Queued(rs, ws) && Waiting(r)
    ensures Queued(rs + [r], ws + [|rs|])
  {
    var now := ws + [|rs|];
    assert now[|ws|] == |rs|;
    forall i | 0 <= i < |rs| && Waiting(rs[i]) ensures i in now {
      assert i in ws;
    }
  }

  /** The queue without position `k`. */
  function Without(ws: seq<nat>, k: nat): (left: seq<nat>)
    requires k < |ws|
    ensures |left| == |ws| - 1 && forall j :: 0 <= j < |left| ==> left[j] == ws[if j < k then j else j + 1]
  {
    ws[..k] + ws[k + 1..]
  }

  lemma LeaveQueue(rs: seq<Request>, ws: seq<nat>, k: nat, phase: Phase)
    requires Queued(rs, ws) && k < |ws| && !phase.Sleeping? && !phase.Awake?
    ensures Queued(rs[ws[k] := rs[ws[k]].(phase := phase)], Without(ws, k))
  {
    hide Without;
    var left := Without(ws, k);
    forall i | 0 <= i < |rs| && i != ws[k] && Waiting(rs[i]) ensures i in left {
      var j :| 0 <= j < |ws| && ws[j] == i;
      assert left[if j < k then j else j - 1] == i;
    }
  }

  lemma QueuedKnown(rs: seq<Request>, ws: seq<nat>)
    requires Queued(rs, ws)
    ensures forall j :: 0 <= j < |ws| ==> ws[j] < |rs|
  {
  }

  lemma NoneHasSlot(l: Limits, c: Counters, rs: seq<Request>, ws: seq<nat>)
    requires Queued(rs, ws) && forall j :: 0 <= j < |ws| ==> SlotsFull(l, c, rs[ws[j]])
    ensures Served(l, c, rs, ws)
  {
  }

  /** There is one oldest waiter with a slot; the queue is served if it is. */
  lemma ServedByOldest(l: Limits, c: Counters, rs: seq<Request>, ws: seq<nat>, k: nat)
    requires Queued(rs, ws) && Oldest(l, c, rs, ws, k) && (Fits(l, c, rs[ws[k]]) ==> Signalled(rs[ws[k]]))
    ensures Served(l, c, rs, ws)
  {
    forall j: nat | Oldest(l, c, rs, ws, j) ensures j == k {
    }
  }

  /** A token for the oldest waiter with a slot serves the queue. */
  lemma GiveToken(l: Limits, c: Counters, rs: seq<Request>, ws: seq<nat>, k: nat)
    requires Queued(rs, ws) && Accounted(rs, c) && Oldest(l, c, rs, ws, k)
    ensures var now := rs[ws[k] := rs[ws[k]].(phase := rs[ws[k]].phase.(token := true))];
            Queued(now, ws) && Accounted(now, c) && Served(l, c, now, ws)
  {
    hide Accounted;
    var phase := rs[ws[k]].phase.(token := true);
    PhaseKeepsQueue(rs, ws, ws[k], phase);
    SameCount(rs, c, ws[k], phase);
    var now := rs[ws[k] := rs[ws[k]].(phase := phase)];
    assert forall j :: 0 <= j < |ws| ==> SlotsFull(l, c, now[ws[j]]) == SlotsFull(l, c, rs[ws[j]]);
    ServedByOldest(l, c, now, ws, k);
  }

  lemma QueuedWaits(rs: seq<Request>, ws: seq<nat>, k: nat)
    requires Queued(rs, ws) && k < |ws|
    ensures ws[k] < |rs| && Waiting(rs[ws[k]])
  {
  }

  /** A reservation of another size leaves the queue as it is. */
  lemma ResizedQueue(l: Limits, c: Counters, rs: seq<Request>, ws: seq<nat>, id: nat, bytes: nat, total: nat)
    requires Queued(rs, ws) && id < |rs| && rs[id].phase.Live?
    ensures var now := rs[id := rs[id].(phase := Live(bytes))];
            Queued(now, ws) && (!OlderHasSlot(l, c, rs, ws, |ws|) ==> Served(l, c.(bytes := total), now, ws))
  {
    var now := rs[id := rs[id].(phase := Live(bytes))];
    assert forall j :: 0 <= j < |ws| ==> SlotsFull(l, c.(bytes := total), now[ws[j]]) == SlotsFull(l, c, rs[ws[j]]);
  }

  function Replaced(rs: seq<Request>, id: nat, phase: Phase): seq<Request>
    requires id < |rs|
  {
    rs[id := rs[id].(phase := phase)]
  }

  /** Nothing changed but the phases of waiters, which still wait. */
  ghost predicate Woken(before: seq<Request>, after: seq<Request>) {
    |before| == |after| && forall i :: 0 <= i < |before| ==>
      || after[i] == before[i]
      || (Waiting(before[i]) && Waiting(after[i]) && after[i] == before[i].(phase := after[i].phase))
  }

  /** No room to wait: direct requests share one bounded queue, and waiting
      scans are bounded like running ones. */
  ghost predicate NoRoom(l: Limits, c: Counters, rs: seq<Request>, ws: seq<nat>, r: Request)
    requires forall j :: 0 <= j < |ws| ==> ws[j] < |rs|
  {
    || (r.direct && (c.queuedRequests >= l.queuedRequests || r.input + c.queuedBytes > l.queuedBytes))
    || (r.scan && (ScansWaiting(rs, ws).0 >= l.scanRequests || r.encoded + ScansWaiting(rs, ws).1 > l.scanBytes))
  }

  /** A request that cannot start may wait if its caller allows it, it could
      ever fit, and there is room to wait. */
  ghost predicate MayWait(l: Limits, c: Counters, rs: seq<Request>, ws: seq<nat>, r: Request)
    requires forall j :: 0 <= j < |ws| ==> ws[j] < |rs|
  {
    r.wait && r.encoded <= l.bytes && (!r.scan || r.encoded <= l.scanBytes) && !NoRoom(l, c, rs, ws, r)
  }

  class Pool {
    const limits: Limits
    var requests: seq<Request>
    var waiters: seq<nat>
    var c: Counters

    ghost predicate Sound()
      reads this
    {
      Queued(requests, waiters) && Accounted(requests, c) && Within(limits, c)
    }

    ghost predicate Valid()
      reads this
    {
      Sound() && Served(limits, c, requests, waiters)
    }

    constructor (limits: Limits)
      ensures Valid() && this.limits == limits && requests == []
    {
      this.limits, requests, waiters, c := limits, [], [], Counters(0, 0, 0, 0, 0, 0);
    }

    /** `wakeAdmissionWaiter`. */
    method Wake()
      requires Sound()
      modifies this`requests
      ensures Valid() && Woken(old(requests), requests)
    {
      hide Accounted, Within, Served, SlotsFull, Fits;
      for k := 0 to |waiters|
        invariant requests == old(requests)
        invariant forall j :: 0 <= j < k ==> SlotsFull(limits, c, requests[waiters[j]])
      {
        var id := waiters[k];
        if !SlotsFull(limits, c, requests[id]) {
          if Fits(limits, c, requests[id]) {
            GiveToken(limits, c, requests, waiters, k);
            requests := requests[id := requests[id].(phase := requests[id].phase.(token := true))];
          } else {
            ServedByOldest(limits, c, requests, waiters, k);
          }
          return;
        }
      }
      assert Served(limits, c, requests, waiters) by { NoneHasSlot(limits, c, requests, waiters); }
    }

    /** Whether a request must not start now, given the waiters before it. */
    method Full(r: Request, older: nat) returns (full: bool)
      requires Queued(requests, waiters) && older <= |waiters|
      ensures full <==>
        SlotsFull(limits, c, r) || !Fits(limits, c, r) || OlderHasSlot(limits, c, requests, waiters, older)
    {
      full := SlotsFull(limits, c, r) || !Fits(limits, c, r);
      for j := 0 to older
        invariant forall i :: 0 <= i < j ==> SlotsFull(limits, c, requests[waiters[i]])
      {
        if !SlotsFull(limits, c, requests[waiters[j]]) {
          return true;
        }
      }
    }

    method WaitQueueFull(r: Request) returns (full: bool)
      requires Queued(requests, waiters)
      ensures full <==> NoRoom(limits, c, requests, waiters, r)
    {
      if r.direct && (c.queuedRequests >= limits.queuedRequests || r.input + c.queuedBytes > limits.queuedBytes) {
        return true;
      }
      var count, bytes := 0, 0;
      for k := 0 to |waiters|
        invariant (count, bytes) == ScansWaiting(requests, waiters[..k])
      {
        assert waiters[..k + 1][..k] == waiters[..k];
        if requests[waiters[k]].scan {
          count, bytes := count + 1, bytes + requests[waiters[k]].encoded;
        }
      }
      assert waiters[..|waiters|] == waiters;
      return r.scan && (count >= limits.scanRequests || r.encoded + bytes > limits.scanBytes);
    }

    /** A new request: admitted exactly when it has a slot, fits, and no waiter
        has a slot; otherwise it waits if it may, or is rejected. */
    method Arrive(r: Request) returns (id: nat)
      requires Valid() && r.phase.Gone?
      modifies this
      ensures Valid() && id == |old(requests)| && |requests| == id + 1 && requests[..id] == old(requests)
      ensures requests[id] == r.(phase := requests[id].phase)
      ensures requests[id].phase.Live? <==>
        old(!SlotsFull(limits, c, r) && Fits(limits, c, r) && !OlderHasSlot(limits, c, requests, waiters, |waiters|))
      ensures requests[id].phase.Live? ==> requests[id].phase.bytes == r.encoded
      ensures requests[id].phase.Sleeping? <==>
          !requests[id].phase.Live? && old(MayWait(limits, c, requests, waiters, r))
      ensures waiters == if requests[id].phase.Sleeping? then old(waiters) + [id] else old(waiters)
    {
      hide Queued, Accounted, Within, Served, SlotsFull, OlderHasSlot, Fits, ScansWaiting;
      QueuedKnown(requests, waiters);
      id := |requests|;
      var full := Full(r, |waiters|);
      if !full {
        AdmitNew(r);
        return;
      }
      if r.wait && r.encoded <= limits.bytes && (!r.scan || r.encoded <= limits.scanBytes) {
        var noRoom := WaitQueueFull(r);
        if !noRoom {
          Enqueue(r);
          return;
        }
      }
      Reject(r);
    }

    method Reject(r: Request)
      requires Valid() && r.phase.Gone?
      modifies this`requests
      ensures Valid() && requests == old(requests) + [r]
    {
      AccountedAppend(requests, c, r);
      requests := requests + [r];
      assert Queued(requests, waiters);
    }

    method AdmitNew(r: Request)
      requires Valid() && r.phase.Gone? && !SlotsFull(limits, c, r) && Fits(limits, c, r)
      requires !OlderHasSlot(limits, c, requests, waiters, |waiters|)
      modifies this
      ensures Valid() && waiters == old(waiters) && requests == old(requests) + [r.(phase := Live(r.encoded))]
    {
      ghost var was, before := requests, c;
      AccountedAppend(requests, c, r);
      c := Taken(c, r);
      var live := r.(phase := Live(r.encoded));
      AccountedUpdate(was + [r], before, |was|, live, c);
      requests := requests + [live];
      assert requests == (was + [r])[|was| := live];
      assert forall j :: 0 <= j < |waiters| ==> SlotsFull(limits, before, was[waiters[j]]);
      assert Queued(requests, waiters);
    }

    method Enqueue(r: Request)
      requires Valid() && r.phase.Gone?
      requires SlotsFull(limits, c, r) || !Fits(limits, c, r) || OlderHasSlot(limits, c, requests, waiters, |waiters|)
      requires r.direct ==> c.queuedRequests < limits.queuedRequests && r.input + c.queuedBytes <= limits.queuedBytes
      modifies this
      ensures Valid() && waiters == old(waiters) + [|old(requests)|]
      ensures requests == old(requests) + [r.(phase := Sleeping(false))]
    {
      hide Queued, Accounted, Within, Served, SlotsFull, OlderHasSlot;
      Joined(limits, c, requests, waiters, r);
      waiters := waiters + [|requests|];
      requests := requests + [r.(phase := Sleeping(false))];
      c := WithQueued(c, r);
    }

    /** A waiter takes its token, or its time or context ends: it wakes up. */
    method WakeUp(k: nat, consume: bool)
      requires Valid() && k < |waiters| && requests[waiters[k]].phase.Sleeping?
      requires consume ==> requests[waiters[k]].phase.token
      modifies this`requests
      ensures Valid() && Woken(old(requests), requests) && requests[waiters[k]].phase.Awake?
    {
      ghost var was := requests;
      var id := waiters[k];
      var phase := Awake(requests[id].phase.token && !consume);
      PhaseKeepsQueue(requests, waiters, id, phase);
      AccountedUpdate(requests, c, id, requests[id].(phase := phase), c);
      requests := requests[id := requests[id].(phase := phase)];
      ServedPhase(limits, c, was, waiters, id, phase);
    }

    /** An awake waiter checks again: it is admitted exactly when it has a slot,
        fits, and no older waiter has a slot; otherwise it goes back to sleep. */
    method Recheck(k: nat) returns (admitted: bool)
      requires Valid() && k < |waiters| && requests[waiters[k]].phase.Awake?
      modifies this
      ensures Valid() && |requests| == |old(requests)|
      ensures var id := old(waiters[k]);
              && (admitted <==> old(!SlotsFull(limits, c, requests[waiters[k]]) && Fits(limits, c, requests[waiters[k]])
                                    && !OlderHasSlot(limits, c, requests, waiters, k)))
              && (admitted ==> waiters == Without(old(waiters), k)
                               && Woken(Replaced(old(requests), id, Live(old(requests)[id].encoded)), requests))
              && (!admitted ==> requests[id].phase.Sleeping? && waiters == old(waiters)
                                && Woken(old(requests), requests))
    {
      hide Accounted, Within, SlotsFull, Fits;
      QueuedKnown(requests, waiters);
      var id := waiters[k];
      var full := Full(requests[id], k);
      if full {
        ghost var was := requests;
        var phase := Sleeping(requests[id].phase.token);
        PhaseKeepsQueue(requests, waiters, id, phase);
        SameCount(requests, c, id, phase);
        requests := requests[id := requests[id].(phase := phase)];
        ServedSleep(limits, c, was, waiters, k, phase);
        return false;
      }
      AdmitWaiter(k);
      return true;
    }

    /** The counters and the queue after a waiter is admitted; the next one is
        woken. */
    method AdmitWaiter(k: nat)
      requires Sound() && k < |waiters| && !SlotsFull(limits, c, requests[waiters[k]])
          && Fits(limits, c, requests[waiters[k]])
      modifies this
      ensures Valid() && |requests| == |old(requests)| && waiters == Without(old(waiters), k)
      ensures var id := old(waiters[k]); Woken(Replaced(old(requests), id, Live(old(requests)[id].encoded)), requests)
    {
      hide Queued, Served;
      QueuedKnown(requests, waiters);
      var id := waiters[k];
      var r := requests[id];
      ghost var before := c;
      assert Waiting(r) by { QueuedWaits(requests, waiters, k); }
      QueuedCounted(requests, c, id);
      c := Taken(c, r);
      LeaveQueue(requests, waiters, k, Live(r.encoded));
      waiters := Without(waiters, k);
      if r.direct {
        c := c.(queuedRequests := c.queuedRequests - 1, queuedBytes := c.queuedBytes - r.input);
      }
      AccountedUpdate(requests, before, id, r.(phase := Live(r.encoded)), c);
      requests := requests[id := r.(phase := Live(r.encoded))];
      Wake();
    }

    /** A waiter gives up; the next one is woken. */
    method Leave(k: nat)
      requires Valid() && k < |waiters| && requests[waiters[k]].phase.Awake?
      modifies this
      ensures Valid() && |requests| == |old(requests)| && waiters == Without(old(waiters), k)
      ensures Woken(Replaced(old(requests), old(waiters[k]), Gone), requests)
    {
      hide Queued, Served;
      QueuedKnown(requests, waiters);
      var id := waiters[k];
      var r := requests[id];
      ghost var before := c;
      QueuedCounted(requests, c, id);
      LeaveQueue(requests, waiters, k, Gone);
      waiters := Without(waiters, k);
      if r.direct {
        c := c.(queuedRequests := c.queuedRequests - 1, queuedBytes := c.queuedBytes - r.input);
      }
      AccountedUpdate(requests, before, id, r.(phase := Gone), c);
      requests := requests[id := r.(phase := Gone)];
      Wake();
    }

    /** An admitted request ends. */
    method Release(id: nat)
      requires Valid() && id < |requests| && requests[id].phase.Live?
      modifies this
      ensures Valid() && waiters == old(waiters) && Woken(Replaced(old(requests), id, Gone), requests)
    {
      hide Queued, Accounted, Within, Served;
      var r := requests[id];
      Released(limits, c, requests, waiters, id);
      c := c.(requests := c.requests - 1, bytes := c.bytes - r.phase.bytes,
              scanRequests := if r.scan then c.scanRequests - 1 else c.scanRequests,
              scanBytes := if r.scan then c.scanBytes - r.encoded else c.scanBytes);
      requests := requests[id := r.(phase := Gone)];
      Wake();
    }

    method SomeoneHasSlot() returns (found: bool)
      requires Queued(requests, waiters)
      ensures found <==> OlderHasSlot(limits, c, requests, waiters, |waiters|)
    {
      for j := 0 to |waiters|
        invariant forall i :: 0 <= i < j ==> SlotsFull(limits, c, requests[waiters[i]])
      {
        if !SlotsFull(limits, c, requests[waiters[j]]) {
          return true;
        }
      }
      return false;
    }

    /** A live reservation changes its size. */
    method SetBytes(id: nat, bytes: nat)
      requires Valid() && id < |requests| && requests[id].phase.Live?
      requires c.bytes + bytes - requests[id].phase.bytes <= limits.bytes
      modifies this
      ensures Sound() && waiters == old(waiters)
          && requests == old(requests)[id := old(requests)[id].(phase := Live(bytes))]
      ensures c == old(c).(bytes := c.bytes) && c.bytes == old(c.bytes) + bytes - old(requests[id].phase.bytes)
      ensures old(!OlderHasSlot(limits, c, requests, waiters, |waiters|)) ==> Valid()
    {
      hide Queued, Served, SlotsFull, OlderHasSlot;
      QueuedKnown(requests, waiters);
      ghost var was, before := requests, c;
      LiveCounted(requests, c, id);
      c := c.(bytes := c.bytes + bytes - requests[id].phase.bytes);
      AccountedUpdate(requests, before, id, requests[id].(phase := Live(bytes)), c);
      requests := requests[id := requests[id].(phase := Live(bytes))];
      ResizedQueue(limits, before, was, waiters, id, bytes, c.bytes);
    }

    /** `resize`: a reservation shrinks, or grows when the bytes are free and no
        waiter has a slot. */
    method Resize(id: nat, bytes: int) returns (ok: bool)
      requires Valid() && id < |requests|
      modifies this
      ensures Valid() && |requests| == |old(requests)| && waiters == old(waiters)
      ensures ok <==> old(
        && requests[id].phase.Live? && 0 <= bytes <= requests[id].encoded
        && (bytes > requests[id].phase.bytes ==>
              c.bytes + bytes - requests[id].phase.bytes <= limits.bytes
              && !OlderHasSlot(limits, c, requests, waiters, |waiters|)))
      ensures ok ==> Woken(Replaced(old(requests), id, Live(bytes)), requests)
      ensures !ok ==> requests == old(requests) && c == old(c)
    {
      var r := requests[id];
      if !r.phase.Live? || bytes < 0 || bytes > r.encoded {
        return false;
      }
      if bytes == r.phase.bytes {
        return true;
      }
      if bytes > r.phase.bytes {
        var older := SomeoneHasSlot();
        if c.bytes + bytes - r.phase.bytes > limits.bytes || older {
          return false;
        }
      }
      SetBytes(id, bytes);
      if bytes < r.phase.bytes {
        Wake();
      }
      return true;
    }
  }

  datatype Event =
    | Arriving(request: Request)
    | WakingUp(position: nat, consume: bool)
    | Rechecking(position: nat)
    | Leaving(position: nat)
    | Releasing(id: nat)
    | Resizing(id: nat, bytes: int)

  /** Every interleaving: after any events, each taken when it can happen, no
      wakeup is lost and the slots, bytes and queue places in use are those of
      the live and the waiting requests, within all limits. */
  method EveryRun(limits: Limits, events: seq<Event>) returns (pool: Pool)
    ensures pool.limits == limits && pool.Valid()
    ensures Accounted(pool.requests, pool.c) && Within(limits, pool.c)
    ensures forall j :: 0 <= j < |pool.waiters| ==> pool.waiters[j] < |pool.requests|
    ensures forall k: nat ::
      Oldest(limits, pool.c, pool.requests, pool.waiters, k) && Fits(limits, pool.c, pool.requests[pool.waiters[k]]) ==>
        Signalled(pool.requests[pool.waiters[k]])
  {
    pool := new Pool(limits);
    for n := 0 to |events|
      invariant pool.Valid() && fresh(pool)
    {
      hide Accounted, Within, Served;
      match events[n] {
        case Arriving(r) =>
          var _ := pool.Arrive(r.(phase := Gone));
        case WakingUp(k, consume) =>
          if k < |pool.waiters| && pool.requests[pool.waiters[k]].phase.Sleeping? {
            pool.WakeUp(k, consume && pool.requests[pool.waiters[k]].phase.token);
          }
        case Rechecking(k) =>
          if k < |pool.waiters| && pool.requests[pool.waiters[k]].phase.Awake? {
            var _ := pool.Recheck(k);
          }
        case Leaving(k) =>
          if k < |pool.waiters| && pool.requests[pool.waiters[k]].phase.Awake? {
            pool.Leave(k);
          }
        case Releasing(id) =>
          if id < |pool.requests| && pool.requests[id].phase.Live? {
            pool.Release(id);
          }
        case Resizing(id, bytes) =>
          if id < |pool.requests| {
            var _ := pool.Resize(id, bytes);
          }
      }
    }
  }

  function WithQueued(c: Counters, r: Request): Counters {
    if r.direct then c.(queuedRequests := c.queuedRequests + 1, queuedBytes := c.queuedBytes + r.input) else c
  }

  lemma JoinedCounts(l: Limits, c: Counters, rs: seq<Request>, r: Request)
    requires Accounted(rs, c) && Within(l, c) && r.phase.Gone?
    requires r.direct ==> c.queuedRequests < l.queuedRequests && r.input + c.queuedBytes <= l.queuedBytes
    ensures Accounted(rs + [r.(phase := Sleeping(false))], WithQueued(c, r)) && Within(l, WithQueued(c, r))
  {
    var waiting := r.(phase := Sleeping(false));
    AccountedAppend(rs, c, r);
    AccountedUpdate(rs + [r], c, |rs|, waiting, WithQueued(c, r));
    assert (rs + [r])[|rs| := waiting] == rs + [waiting];
  }

  /** The queue and the counters after a request joins the queue. */
  lemma Joined(l: Limits, c: Counters, rs: seq<Request>, ws: seq<nat>, r: Request)
    requires Queued(rs, ws) && Accounted(rs, c) && Within(l, c) && Served(l, c, rs, ws) && r.phase.Gone?
    requires SlotsFull(l, c, r) || !Fits(l, c, r) || OlderHasSlot(l, c, rs, ws, |ws|)
    requires r.direct ==> c.queuedRequests < l.queuedRequests && r.input + c.queuedBytes <= l.queuedBytes
    ensures var now, queue, d := rs + [r.(phase := Sleeping(false))], ws + [|rs|], WithQueued(c, r);
            Queued(now, queue) && Accounted(now, d) && Within(l, d) && Served(l, d, now, queue)
  {
    hide Accounted, Within, Served, Queued;
    var waiting := r.(phase := Sleeping(false));
    JoinedCounts(l, c, rs, r);
    JoinQueue(rs, ws, waiting);
    QueuedKnown(rs, ws);
    ServedJoin(l, c, WithQueued(c, r), rs, ws, waiting);
  }

  /** The counters after an admitted request ends. */
  function Freed(c: Counters, r: Request): Counters {
    if r.phase.Live? && c.requests > 0 && c.bytes >= r.phase.bytes
        && (r.scan ==> c.scanRequests > 0 && c.scanBytes >= r.encoded)
    then c.(requests := c.requests - 1, bytes := c.bytes - r.phase.bytes,
            scanRequests := if r.scan then c.scanRequests - 1 else c.scanRequests,
            scanBytes := if r.scan then c.scanBytes - r.encoded else c.scanBytes)
    else c
  }

  lemma Released(l: Limits, c: Counters, rs: seq<Request>, ws: seq<nat>, id: nat)
    requires Queued(rs, ws) && Accounted(rs, c) && Within(l, c) && id < |rs| && rs[id].phase.Live?
    ensures var now := rs[id := rs[id].(phase := Gone)];
            Queued(now, ws) && Accounted(now, Freed(c, rs[id])) && Within(l, Freed(c, rs[id]))
    ensures c.requests > 0 && c.bytes >= rs[id].phase.bytes
        && (rs[id].scan ==> c.scanRequests > 0 && c.scanBytes >= rs[id].encoded)
  {
    LiveCounted(rs, c, id);
    AccountedUpdate(rs, c, id, rs[id].(phase := Gone), Freed(c, rs[id]));
    hide Accounted;
    assert Queued(rs[id := rs[id].(phase := Gone)], ws);
  }

  function Taken(c: Counters, r: Request): Counters {
    c.(requests := c.requests + 1, bytes := c.bytes + r.encoded,
       scanRequests := if r.scan then c.scanRequests + 1 else c.scanRequests,
       scanBytes := if r.scan then c.scanBytes + r.encoded else c.scanBytes)
  }

  /** A request that must wait does not become the one to be signalled. */
  lemma ServedJoin(l: Limits, c: Counters, d: Counters, rs: seq<Request>, ws: seq<nat>, r: Request)
    requires Queued(rs, ws) && Served(l, c, rs, ws)
    requires d == c.(queuedRequests := d.queuedRequests, queuedBytes := d.queuedBytes)
    requires SlotsFull(l, c, r) || !Fits(l, c, r) || OlderHasSlot(l, c, rs, ws, |ws|)
    ensures forall j :: 0 <= j < |ws + [|rs|]| ==> (ws + [|rs|])[j] < |rs + [r]|
    ensures Served(l, d, rs + [r], ws + [|rs|])
  {
    var now, queue := rs + [r], ws + [|rs|];
    forall k: nat | Oldest(l, d, now, queue, k) && Fits(l, d, now[queue[k]]) ensures Signalled(now[queue[k]]) {
      assert forall j :: 0 <= j < |ws| ==> queue[j] == ws[j] && now[queue[j]] == rs[ws[j]];
      if k < |ws| {
        assert Oldest(l, c, rs, ws, k);
      }
    }
  }

  /** A waiter that stays signalled keeps the queue served. */
  lemma ServedPhase(l: Limits, c: Counters, rs: seq<Request>, ws: seq<nat>, i: nat, phase: Phase)
    requires Queued(rs, ws) && Served(l, c, rs, ws) && i < |rs| && phase.Awake?
    ensures Served(l, c, rs[i := rs[i].(phase := phase)], ws)
  {
    var now := rs[i := rs[i].(phase := phase)];
    forall k: nat | Oldest(l, c, now, ws, k) && Fits(l, c, now[ws[k]]) ensures Signalled(now[ws[k]]) {
      assert Oldest(l, c, rs, ws, k);
    }
  }

  /** A waiter that may not start yet is not the one to be signalled. */
  lemma ServedSleep(l: Limits, c: Counters, rs: seq<Request>, ws: seq<nat>, k: nat, phase: Phase)
    requires Queued(rs, ws) && Served(l, c, rs, ws) && k < |ws| && phase.Sleeping?
    requires SlotsFull(l, c, rs[ws[k]]) || !Fits(l, c, rs[ws[k]]) || OlderHasSlot(l, c, rs, ws, k)
    ensures Served(l, c, rs[ws[k] := rs[ws[k]].(phase := phase)], ws)
  {
    var now := rs[ws[k] := rs[ws[k]].(phase := phase)];
    forall j: nat | Oldest(l, c, now, ws, j) && Fits(l, c, now[ws[j]]) ensures Signalled(now[ws[j]]) {
      assert forall i :: 0 <= i < |ws| ==> SlotsFull(l, c, now[ws[i]]) == SlotsFull(l, c, rs[ws[i]]);
      assert Oldest(l, c, rs, ws, j);
    }
  }

  lemma SameCount(rs: seq<Request>, c: Counters, i: nat, phase: Phase)
    requires Accounted(rs, c) && i < |rs| && Waiting(rs[i]) && (phase.Sleeping? || phase.Awake?)
    ensures Accounted(rs[i := rs[i].(phase := phase)], c)
  {
    AccountedUpdate(rs, c, i, rs[i].(phase := phase), c);
  }

  lemma {:induction false} TotalMember(rs: seq<Request>, i: nat, f: Request -> nat)
    requires i < |rs|
    ensures f(rs[i]) <= Total(rs, f)
  {
    if i < |rs| - 1 {
      TotalMember(rs[..|rs| - 1], i, f);
    }
  }

  lemma QueuedCounted(rs: seq<Request>, c: Counters, i: nat)
    requires Accounted(rs, c) && i < |rs|
    ensures QueuedOne(rs[i]) <= c.queuedRequests && QueuedBytes(rs[i]) <= c.queuedBytes
  {
    TotalMember(rs, i, QueuedOne);
    TotalMember(rs, i, QueuedBytes);
  }

  lemma LiveCounted(rs: seq<Request>, c: Counters, i: nat)
    requires Accounted(rs, c) && i < |rs|
    ensures One(rs[i]) <= c.requests && Bytes(rs[i]) <= c.bytes
    ensures ScanOne(rs[i]) <= c.scanRequests && ScanBytes(rs[i]) <= c.scanBytes
  {
    TotalMember(rs, i, One);
    TotalMember(rs, i, Bytes);
    TotalMember(rs, i, ScanOne);
    TotalMember(rs, i, ScanBytes);
  }
}
