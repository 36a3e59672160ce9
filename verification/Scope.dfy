/** Reference-counted scopes over the memory pool (internal/capacity/scope.go)
    and every run of a pool with its scopes. */
module CapacityScope {
  import opened Options
  import opened Capacity
  import Ops = CapacityOperations
  import opened CapacityPool

  datatype ScopeState = ScopeState(
    owner: nat, refs: nat, leases: seq<nat>, input: nat, output: nat, outputs: map<nat, nat>)

  // ---------------------------------------------------------------------
  // The operations of one scope
  // ---------------------------------------------------------------------

  /** Between two states of a pool, leases and owners are only added, and a
      closed lease stays closed. */
  ghost predicate Grown(p: PoolState, q: PoolState) {
    && |p.leases| <= |q.leases| && |p.owners| <= |q.owners|
    && (forall l :: 0 <= l < |p.leases| && p.leases[l].closed ==> q.leases[l].closed)
  }

  /** A lease charged to `owner` and kept by a scope with `refs` references; a
      scope without references gets it closed. */
  ghost function Acquire(p: PoolState, owner: nat, refs: nat): (q: PoolState)
    requires Ops.Quiescent(p) && owner < |p.owners|
    ensures Ops.Quiescent(q) && Grown(p, q) && |q.leases| == |p.leases| + 1
    ensures refs == 0 ==> q.leases[|p.leases|].closed
  {
    Ops.NewLeaseQuiescent(p, owner);
    hide Ops.Quiescent;
    var q := Ops.NewLease(p, owner);
    if refs == 0 then
      CloseSpec(q, |p.leases|);
      Ops.CloseLease(q, |p.leases|)
    else q
  }

  lemma CloseSpec(p: PoolState, l: nat)
    requires Ops.Quiescent(p) && l < |p.leases|
    ensures var q := Ops.CloseLease(p, l);
            Ops.Quiescent(q) && Grown(p, q) && |q.leases| == |p.leases| && |q.owners| == |p.owners|
                && q.leases[l].closed
  {
    Ops.CloseQuiescent(p, l);
    if !p.leases[l].closed {
      Ops.DropValid(p, l);
      DispatchKeeps(Ops.Drop(Ops.Closing(p, l), l));
      var t := Ops.Drop(Ops.Closing(p, l), l);
      var q := Ops.CloseLease(p, l);
      forall i | 0 <= i < |p.leases| && (p.leases[i].closed || i == l) ensures q.leases[i].closed {
        assert q.leases[i].(bytes := 0) == t.leases[i].(bytes := 0);
      }
    }
  }

  lemma QuiescentValid(p: PoolState)
    requires Ops.Quiescent(p)
    ensures Valid(p)
  {
  }

  lemma GrownSelf(p: PoolState)
    ensures Grown(p, p)
  {
  }

  /** Closing one more lease. */
  lemma CloseNext(p: PoolState, q: PoolState, l: nat)
    requires Ops.Quiescent(q) && Grown(p, q) && |q.leases| == |p.leases| && |q.owners| == |p.owners| && l < |p.leases|
    ensures var r := Ops.CloseLease(q, l);
            && Ops.Quiescent(r) && Grown(p, r) && Grown(q, r) && r.leases[l].closed
            && |r.leases| == |p.leases| && |r.owners| == |p.owners|
  {
    CloseSpec(q, l);
    hide Ops.Quiescent, Ops.CloseLease;
  }

  ghost function CloseAll(p: PoolState, ls: seq<nat>): (q: PoolState)
    requires Ops.Quiescent(p) && forall k :: 0 <= k < |ls| ==> ls[k] < |p.leases|
    ensures Ops.Quiescent(q) && Grown(p, q) && |q.leases| == |p.leases| && |q.owners| == |p.owners|
  {
    hide Ops.Quiescent, Ops.CloseLease, Valid, Grown;
    GrownSelf(p);
    if ls == [] then p
    else
      var n := |ls| - 1;
      var q := CloseAll(p, ls[..n]);
      QuiescentValid(q);
      CloseNext(p, q, ls[n]);
      Ops.CloseLease(q, ls[n])
  }

  lemma GrownClosed(p: PoolState, q: PoolState, l: nat)
    requires Grown(p, q) && l < |p.leases| && p.leases[l].closed
    ensures q.leases[l].closed
  {
  }

  lemma {:induction false} CloseAllCloses(p: PoolState, ls: seq<nat>, k: nat)
    requires Ops.Quiescent(p) && k < |ls| && forall j :: 0 <= j < |ls| ==> ls[j] < |p.leases|
    ensures CloseAll(p, ls).leases[ls[k]].closed
    decreases |ls|
  {
    hide Ops.Quiescent, Ops.CloseLease, Valid, Grown;
    var n := |ls| - 1;
    var q := CloseAll(p, ls[..n]);
    QuiescentValid(q);
    CloseNext(p, q, ls[n]);
    if k < n {
      CloseAllCloses(p, ls[..n], k);
      GrownClosed(q, Ops.CloseLease(q, ls[n]), ls[k]);
    }
  }

  ghost function ReleaseRef(p: PoolState, s: ScopeState): (PoolState, ScopeState)
    requires Ops.Quiescent(p) && ScopeOf(p, s)
  {
    if s.refs == 0 then (p, s)
    else if s.refs > 1 then (p, s.(refs := s.refs - 1))
    else (CloseAll(p, s.leases), s.(refs := 0, leases := []))
  }

  /** The lease on which scope `s` charges output produced by `producer`. */
  ghost function OutputLease(p: PoolState, s: ScopeState, producer: nat): (PoolState, ScopeState, nat)
    requires Ops.Quiescent(p) && producer < |p.owners|
  {
    if producer == s.owner then (p, s, s.output)
    else if producer in s.outputs then (p, s, s.outputs[producer])
    else
      var l := |p.leases|;
      (Acquire(p, producer, s.refs),
       s.(leases := if s.refs == 0 then s.leases else s.leases + [l], outputs := s.outputs[producer := l]),
       l)
  }

  /** A new owner with its input and output leases. */
  ghost function OpenScope(p: PoolState): (PoolState, ScopeState)
    requires Ops.Quiescent(p)
  {
    Ops.NewOwnerQuiescent(p);
    var q := Ops.NewOwner(p);
    var input := |p.leases|;
    (Acquire(Acquire(q, |p.owners|, 1), |p.owners|, 1),
     ScopeState(|p.owners|, 1, [input, input + 1], input, input + 1, map[]))
  }

  ghost predicate ScopeOf(p: PoolState, s: ScopeState) {
    && s.owner < |p.owners|
    && s.input < |p.leases| && s.output < |p.leases|
    && (forall k :: 0 <= k < |s.leases| ==> s.leases[k] < |p.leases|)
    && (forall o :: o in s.outputs ==> s.outputs[o] < |p.leases|)
  }

  // ---------------------------------------------------------------------
  // The scope as an object
  // ---------------------------------------------------------------------

  class Scope {
    const pool: Pool
    const owner: nat
    var refs: nat
    var leases: seq<nat>
    var input: nat
    var output: nat
    var outputs: map<nat, nat>

    function State(): ScopeState
      reads this
    {
      ScopeState(owner, refs, leases, input, output, outputs)
    }

    ghost predicate Valid()
      reads this, pool
    {
      Ops.Quiescent(pool.State()) && ScopeOf(pool.State(), State())
    }

    constructor (p: Pool)
      requires Ops.Quiescent(p.State())
      modifies p
      ensures Valid() && pool == p
      ensures (p.State(), State()) == OpenScope(old(p.State()))
    {
      var o := p.NewOwner();
      var i := p.NewLease(o);
      var j := p.NewLease(o);
      pool, owner, refs, leases, input, output, outputs := p, o, 1, [i, j], i, j, map[];
    }

    method NewLease() returns (l: nat)
      requires Valid()
      modifies this, pool
      ensures Valid() && l == |old(pool.leases)|
      ensures pool.State() == Acquire(old(pool.State()), owner, refs)
      ensures State() == old(State()).(leases := if refs == 0 then old(leases) else old(leases) + [l])
    {
      hide Ops.Quiescent;
      l := pool.NewLease(owner);
      if refs == 0 {
        CloseSpec(pool.State(), l);
        pool.CloseLease(l);
        return;
      }
      leases := leases + [l];
    }

    method Retain() returns (live: bool)
      requires Valid()
      modifies this
      ensures Valid() && live == (old(refs) > 0)
      ensures State() == old(State()).(refs := if live then old(refs) + 1 else 0)
    {
      live := refs > 0;
      if live {
        refs := refs + 1;
      }
    }

    method Release()
      requires Valid()
      modifies this, pool
      ensures Valid()
      ensures (pool.State(), State()) == ReleaseRef(old(pool.State()), old(State()))
    {
      hide Ops.Quiescent;
      if refs == 0 {
        return;
      }
      refs := refs - 1;
      if refs == 0 {
        ghost var start := pool.State();
        for k := 0 to |leases|
          invariant Valid() && refs == 0 && State() == old(State()).(refs := 0)
          invariant |pool.leases| == |start.leases|
          invariant pool.State() == CloseAll(start, leases[..k])
        {
          assert leases[..k + 1][..k] == leases[..k];
          CloseSpec(pool.State(), leases[k]);
          pool.CloseLease(leases[k]);
        }
        assert leases[..|leases|] == leases;
        leases := [];
      }
    }

    /** The lease for output of `producer`, chosen under the scope's lock. */
    method ChooseOutput(producer: nat) returns (l: nat)
      requires Valid() && producer < |pool.owners|
      modifies this, pool
      ensures Valid() && l < |pool.leases|
      ensures (pool.State(), State(), l) == OutputLease(old(pool.State()), old(State()), producer)
    {
      hide Ops.Quiescent;
      if producer == owner {
        return output;
      }
      if producer in outputs {
        return outputs[producer];
      }
      l := pool.NewLease(producer);
      if refs == 0 {
        CloseSpec(pool.State(), l);
        pool.CloseLease(l);
      } else {
        leases := leases + [l];
      }
      outputs := outputs[producer := l];
    }

    /** Output of `producer` takes twice its bytes from that lease. */
    method OutputFrom(producer: nat, bytes: int, ended: bool) returns (r: Ops.GrowResult)
      requires Valid() && producer < |pool.owners|
      modifies this, pool
      ensures Valid()
      ensures var (p, s, l) := OutputLease(old(pool.State()), old(State()), producer);
              && Ops.Quiescent(p) && l < |p.leases| && State() == s
              && (pool.State(), r) == Ops.GrowBegin(p, l, 2 * bytes, Response, ended)
    {
      hide Ops.Quiescent, Ops.GrowBegin, OutputLease;
      var l := ChooseOutput(producer);
      GrowBeginGrown(pool.State(), l, 2 * bytes, Response, ended);
      r := pool.GrowBegin(l, 2 * bytes, Response, ended);
    }
  }

  // ---------------------------------------------------------------------
  // Runs
  // ---------------------------------------------------------------------

  datatype System = System(pool: PoolState, scopes: seq<ScopeState>)

  datatype Step =
    | OpenStep
    | LeaseStep(scope: nat)
    | RetainStep(scope: nat)
    | ReleaseStep(scope: nat)
    | OutputStep(scope: nat, producer: nat)
    | GrowStep(lease: nat, bytes: int, phase: Phase, ended: bool)
    | ResumeStep(waiter: nat, ended: bool)
    | ShrinkStep(lease: nat, amount: int)
    | CloseStep(lease: nat)
    | MarkStep(lease: nat)

  /** A lease is closed or on the list of a scope that still has references. */
  ghost predicate Held(y: System, l: nat)
    requires l < |y.pool.leases|
  {
    y.pool.leases[l].closed || exists i :: 0 <= i < |y.scopes| && y.scopes[i].refs > 0 && l in y.scopes[i].leases
  }

  ghost predicate Inv(y: System) {
    && Ops.Quiescent(y.pool)
    && (forall i :: 0 <= i < |y.scopes| ==> ScopeOf(y.pool, y.scopes[i]))
    && (forall l :: 0 <= l < |y.pool.leases| ==> Held(y, l))
  }

  /** A step of the pool alone keeps the scopes' side of the invariant. */
  lemma PoolStep(y: System, q: PoolState)
    requires Inv(y) && Ops.Quiescent(q) && Grown(y.pool, q) && |q.leases| == |y.pool.leases|
    ensures Inv(y.(pool := q))
  {
    var z := y.(pool := q);
    forall l | 0 <= l < |q.leases| ensures Held(z, l) {
      assert Held(y, l);
    }
  }

  /** What the scope listed stays listed or is closed, and so is what is new. */
  ghost predicate KeepsHeld(p: PoolState, s: ScopeState, q: PoolState, t: ScopeState) {
    && |p.leases| <= |q.leases|
    && (forall l :: 0 <= l < |p.leases| && l in s.leases && s.refs > 0 ==>
        q.leases[l].closed || (t.refs > 0 && l in t.leases))
    && (forall l :: |p.leases| <= l < |q.leases| ==> q.leases[l].closed || (t.refs > 0 && l in t.leases))
  }

  /** A new lease of a scope. */
  lemma LeaseAdded(p: PoolState, s: ScopeState, q: PoolState, t: ScopeState)
    requires ScopeOf(p, s) && Grown(p, q) && |q.leases| == |p.leases| + 1
    requires s.refs == 0 ==> q.leases[|p.leases|].closed
    requires t == s.(leases := if s.refs == 0 then s.leases else s.leases + [|p.leases|], outputs := t.outputs)
    requires forall o :: o in t.outputs ==> t.outputs[o] < |q.leases|
    ensures ScopeOf(q, t) && KeepsHeld(p, s, q, t)
  {
    assert s.refs > 0 ==> t.leases[|s.leases|] == |p.leases|;
  }

  lemma NothingAdded(p: PoolState, s: ScopeState)
    ensures KeepsHeld(p, s, p, s) && Grown(p, p)
  {
  }

  /** A scope that keeps its leases while references remain keeps them held. */
  lemma ScopeStep(y: System, i: nat, q: PoolState, s: ScopeState)
    requires Inv(y) && i < |y.scopes| && Ops.Quiescent(q) && Grown(y.pool, q) && ScopeOf(q, s)
    requires KeepsHeld(y.pool, y.scopes[i], q, s)
    ensures Inv(System(q, y.scopes[i := s]))
  {
    hide Ops.Quiescent;
    var z := System(q, y.scopes[i := s]);
    forall l | 0 <= l < |q.leases| ensures Held(z, l) {
      if l < |y.pool.leases| && !q.leases[l].closed {
        assert Held(y, l);
        var k :| 0 <= k < |y.scopes| && y.scopes[k].refs > 0 && l in y.scopes[k].leases;
        assert z.scopes[k].refs > 0 && l in z.scopes[k].leases;
      } else if !q.leases[l].closed {
        assert z.scopes[i].refs > 0 && l in z.scopes[i].leases;
      }
    }
  }

  lemma DispatchGrown(s: PoolState)
    requires Valid(s)
    ensures Grown(s, Dispatch(s)) && |Dispatch(s).leases| == |s.leases|
  {
    DispatchKeeps(s);
    var t := Dispatch(s);
    forall l | 0 <= l < |s.leases| && s.leases[l].closed ensures t.leases[l].closed {
      assert t.leases[l].(bytes := 0) == s.leases[l].(bytes := 0);
    }
  }

  lemma GrowBeginGrown(s: PoolState, l: nat, bytes: int, phase: Phase, ended: bool)
    requires Ops.Quiescent(s) && l < |s.leases|
    ensures var t := Ops.GrowBegin(s, l, bytes, phase, ended).0;
            Ops.Quiescent(t) && Grown(s, t) && |t.leases| == |s.leases|
  {
    Ops.GrowBeginQuiescent(s, l, bytes, phase, ended);
    Ops.GrowBeginExact(s, l, bytes, phase, ended);
    if !ended && Ops.Admissible(s, l, bytes, phase) && bytes > 0 {
      Ops.EnqueueValid(s, l, bytes, phase);
      DispatchKeeps(Ops.Enqueue(s, l, bytes, phase));
    }
  }

  lemma ShrinkGrown(s: PoolState, l: nat, bytes: int)
    requires Ops.Quiescent(s) && l < |s.leases|
    ensures var t := Ops.Shrink(s, l, bytes);
            Ops.Quiescent(t) && Grown(s, t) && |t.leases| == |s.leases|
  {
    Ops.ShrinkQuiescent(s, l, bytes);
    if !s.leases[l].closed && bytes > 0 {
      var amount := Ops.Min(bytes, s.leases[l].bytes);
      Ops.ReleaseQueued(s, l, amount);
      DispatchGrown(Ops.ReleaseLocked(s, l, amount));
      DispatchKeeps(Ops.ReleaseLocked(s, l, amount));
    }
  }

  lemma ResumeGrown(s: PoolState, w: nat, ended: bool)
    requires Ops.Quiescent(s) && w in s.parked && (ended || s.waiters[w].closes == 1)
    ensures var t := Ops.GrowResume(s, w, ended).0;
            Ops.Quiescent(t) && Grown(s, t) && |t.leases| == |s.leases|
  {
    Ops.GrowResumeQuiescent(s, w, ended);
    var waiter := s.waiters[w];
    if !s.leases[waiter.lease].closed && ended {
      if waiter.granted {
        var amount := Ops.Min(waiter.bytes, s.leases[waiter.lease].bytes);
        Ops.ReleaseQueued(s, waiter.lease, amount);
        DispatchGrown(Ops.ReleaseLocked(s, waiter.lease, amount));
        DispatchKeeps(Ops.ReleaseLocked(s, waiter.lease, amount));
      } else {
        Ops.WithdrawValid(s, w);
        DispatchGrown(Ops.Withdraw(s, w));
        DispatchKeeps(Ops.Withdraw(s, w));
      }
    }
  }

  /** One step of the system; a step whose object does not exist, and a resume
      that nothing has woken, do nothing. */
  ghost function Apply(y: System, step: Step): (z: System)
    requires Inv(y)
  {
    match step
    case OpenStep =>
      var (p, s) := OpenScope(y.pool); System(p, y.scopes + [s])
    case LeaseStep(i) =>
      if i >= |y.scopes| then y
      else
        var s := y.scopes[i];
        System(Acquire(y.pool, s.owner, s.refs),
               y.scopes[i := s.(leases := if s.refs == 0 then s.leases else s.leases + [|y.pool.leases|])])
    case RetainStep(i) =>
      if i >= |y.scopes| || y.scopes[i].refs == 0 then y
      else y.(scopes := y.scopes[i := y.scopes[i].(refs := y.scopes[i].refs + 1)])
    case ReleaseStep(i) =>
      if i >= |y.scopes| then y
      else var (p, s) := ReleaseRef(y.pool, y.scopes[i]); System(p, y.scopes[i := s])
    case OutputStep(i, producer) =>
      if i >= |y.scopes| || producer >= |y.pool.owners| then y
      else var (p, s, _) := OutputLease(y.pool, y.scopes[i], producer); System(p, y.scopes[i := s])
    case GrowStep(l, bytes, phase, ended) =>
      if l >= |y.pool.leases| then y
      else y.(pool := Ops.GrowBegin(y.pool, l, bytes, phase, ended).0)
    case ResumeStep(w, ended) =>
      if w in y.pool.parked && (ended || y.pool.waiters[w].closes == 1)
      then y.(pool := Ops.GrowResume(y.pool, w, ended).0) else y
    case ShrinkStep(l, bytes) =>
      if l >= |y.pool.leases| then y else y.(pool := Ops.Shrink(y.pool, l, bytes))
    case CloseStep(l) =>
      if l >= |y.pool.leases| then y else y.(pool := Ops.CloseLease(y.pool, l))
    case MarkStep(l) =>
      if l >= |y.pool.leases| then y else y.(pool := Ops.MarkOpaque(y.pool, l))
  }

  lemma PoolStepsKeep(y: System, step: Step)
    requires Inv(y) && (step.GrowStep? || step.ResumeStep? || step.ShrinkStep? || step.CloseStep? || step.MarkStep?)
    ensures Inv(Apply(y, step))
  {
    hide Ops.Quiescent, Inv, Grown;
    PoolStepsQuiescent(y, step);
    PoolStep(y, Apply(y, step).pool);
  }

  lemma PoolStepsQuiescent(y: System, step: Step)
    requires Inv(y) && (step.GrowStep? || step.ResumeStep? || step.ShrinkStep? || step.CloseStep? || step.MarkStep?)
    ensures var q := Apply(y, step).pool;
            Ops.Quiescent(q) && Grown(y.pool, q) && |q.leases| == |y.pool.leases|
    ensures Apply(y, step).scopes == y.scopes
  {
    assert forall w :: w in y.pool.parked ==> w < |y.pool.waiters|;
    hide Ops.Quiescent;
    match step
    case GrowStep(l, bytes, phase, ended) =>
      if l < |y.pool.leases| { GrowBeginGrown(y.pool, l, bytes, phase, ended); }
    case ResumeStep(w, ended) =>
      if w in y.pool.parked && (ended || y.pool.waiters[w].closes == 1) { ResumeGrown(y.pool, w, ended); }
    case ShrinkStep(l, bytes) =>
      if l < |y.pool.leases| { ShrinkGrown(y.pool, l, bytes); }
    case CloseStep(l) =>
      if l < |y.pool.leases| { CloseSpec(y.pool, l); }
    case MarkStep(l) =>
      if l < |y.pool.leases| { Ops.MarkOpaqueQuiescent(y.pool, l); }
  }

  lemma OpenKeeps(y: System)
    requires Inv(y)
    ensures Inv(Apply(y, OpenStep))
  {
    var z := Apply(y, OpenStep);
    var n := |y.scopes|;
    Ops.NewOwnerQuiescent(y.pool);
    forall l | 0 <= l < |z.pool.leases| ensures Held(z, l) {
      if l < |y.pool.leases| {
        assert Held(y, l);
        if !z.pool.leases[l].closed {
          var k :| 0 <= k < |y.scopes| && y.scopes[k].refs > 0 && l in y.scopes[k].leases;
          assert z.scopes[k].refs > 0 && l in z.scopes[k].leases;
        }
      } else {
        assert l == z.scopes[n].leases[0] || l == z.scopes[n].leases[1];
        assert z.scopes[n].refs > 0 && l in z.scopes[n].leases;
      }
    }
    forall i | 0 <= i < |z.scopes| ensures ScopeOf(z.pool, z.scopes[i]) {
      if i < n {
        assert ScopeOf(y.pool, y.scopes[i]);
      }
    }
  }

  lemma InvScope(y: System, i: nat)
    requires Inv(y) && i < |y.scopes|
    ensures Ops.Quiescent(y.pool) && ScopeOf(y.pool, y.scopes[i])
  {
  }

  lemma LeaseKeeps(y: System, i: nat)
    requires Inv(y) && i < |y.scopes|
    ensures Inv(Apply(y, LeaseStep(i)))
  {
    hide Ops.Quiescent, Inv, Grown, KeepsHeld, Acquire;
    InvScope(y, i);
    var s := y.scopes[i];
    var z := Apply(y, LeaseStep(i));
    assert Grown(y.pool, z.pool) && |z.pool.leases| == |y.pool.leases| + 1;
    OutputsGrown(y.pool, s, z.pool);
    LeaseAdded(y.pool, s, z.pool, z.scopes[i]);
    ScopeStep(y, i, z.pool, z.scopes[i]);
  }

  lemma OutputsGrown(p: PoolState, s: ScopeState, q: PoolState)
    requires ScopeOf(p, s) && |p.leases| <= |q.leases|
    ensures forall o :: o in s.outputs ==> s.outputs[o] < |q.leases|
  {
  }

  lemma OutputKeeps(y: System, i: nat, producer: nat)
    requires Inv(y) && i < |y.scopes| && producer < |y.pool.owners|
    ensures Inv(Apply(y, OutputStep(i, producer)))
  {
    hide Ops.Quiescent, Inv, Grown, KeepsHeld, Acquire;
    InvScope(y, i);
    var s := y.scopes[i];
    var z := Apply(y, OutputStep(i, producer));
    if producer != s.owner && producer !in s.outputs {
      OutputsGrown(y.pool, s, z.pool);
      LeaseAdded(y.pool, s, z.pool, z.scopes[i]);
    } else {
      NothingAdded(y.pool, s);
    }
    ScopeStep(y, i, z.pool, z.scopes[i]);
  }

  lemma ReferenceKeeps(y: System, step: Step)
    requires Inv(y) && (step.RetainStep? || step.ReleaseStep?) && step.scope < |y.scopes|
    ensures Inv(Apply(y, step))
  {
    var s := y.scopes[step.scope];
    assert ScopeOf(y.pool, s);
    hide Ops.Quiescent;
    var z := Apply(y, step);
    forall l | l in s.leases && s.refs > 0
      ensures l < |z.pool.leases| && (z.pool.leases[l].closed
          || (z.scopes[step.scope].refs > 0 && l in z.scopes[step.scope].leases))
    {
      if step.ReleaseStep? && s.refs == 1 {
        var k :| 0 <= k < |s.leases| && s.leases[k] == l;
        CloseAllCloses(y.pool, s.leases, k);
      }
    }
    ScopeStep(y, step.scope, z.pool, z.scopes[step.scope]);
  }

  lemma ApplyKeeps(y: System, step: Step)
    requires Inv(y)
    ensures Inv(Apply(y, step))
  {
    hide Ops.Quiescent, Inv;
    if step.OpenStep? {
      OpenKeeps(y);
    } else if step.LeaseStep? {
      if step.scope < |y.scopes| { LeaseKeeps(y, step.scope); }
    } else if step.RetainStep? || step.ReleaseStep? {
      if step.scope < |y.scopes| { ReferenceKeeps(y, step); }
    } else if step.OutputStep? {
      if step.scope < |y.scopes| && step.producer < |y.pool.owners| { OutputKeeps(y, step.scope, step.producer); }
    } else {
      PoolStepsKeep(y, step);
    }
  }

  /** The state after a sequence of steps of a new pool. */
  ghost function Run(p: PoolState, steps: seq<Step>): (y: System)
    requires Ops.Quiescent(p) && p.leases == []
    ensures Inv(y)
  {
    if steps == [] then System(p, [])
    else
      var y := Run(p, steps[..|steps| - 1]);
      ApplyKeeps(y, steps[|steps| - 1]);
      Apply(y, steps[|steps| - 1])
  }

  /** In every state of every run: used is the sum of the leases and at most
      the total; the reserve has a borrower exactly when used exceeds the
      normal region, and all other owners together stay within it; a closed
      lease holds nothing and has no waiter; at most maxWaiters wait, all of
      them responses, and none of them could be granted. */
  lemma EveryRun(p: PoolState, steps: seq<Step>)
    requires Ops.Quiescent(p) && p.leases == []
    ensures var s := Run(p, steps).pool;
            && s.used == SumBy(s.leases, AllBytes()) <= s.total
            && (s.burstOwner.Some? <==> s.used > s.normal)
            && (s.burstOwner.Some? ==> s.used - SumBy(s.leases, BytesOf(s.burstOwner.value)) <= s.normal)
            && (forall l :: 0 <= l < |s.leases| && s.leases[l].closed ==>
                  s.leases[l].bytes == 0 && forall k :: 0 <= k < |s.queue| ==> s.waiters[s.queue[k]].lease != l)
            && |s.queue| <= s.maxWaiters
            && (forall k :: 0 <= k < |s.queue| ==> s.waiters[s.queue[k]].phase == Response && !Fits(s, s.queue[k]))
            && (forall w :: 0 <= w < |s.waiters| ==> s.waiters[w].closes <= 1)
  {
    var s := Run(p, steps).pool;
    assert Inv(Run(p, steps));
    forall l, k | 0 <= l < |s.leases| && s.leases[l].closed && 0 <= k < |s.queue|
      ensures s.waiters[s.queue[k]].lease != l
    {
      assert QueuedWaiter(s, s.queue[k]);
    }
  }

  /** Once every scope has released its last reference, the pool is empty. */
  lemma DrainedRun(p: PoolState, steps: seq<Step>)
    requires Ops.Quiescent(p) && p.leases == []
    requires forall i :: 0 <= i < |Run(p, steps).scopes| ==> Run(p, steps).scopes[i].refs == 0
    ensures var s := Run(p, steps).pool;
            s.used == 0 && s.opaqueBytes == 0 && s.burstOwner == None && s.queue == []
  {
    var y := Run(p, steps);
    var s := y.pool;
    assert s.queue != [] ==> QueuedWaiter(s, s.queue[0]);
    forall l | 0 <= l < |s.leases| ensures s.leases[l].closed {
      assert Held(y, l);
    }
    SumByZero(s.leases, AllBytes());
    SumByZero(s.leases, OpaqueBytes());
  }
}
